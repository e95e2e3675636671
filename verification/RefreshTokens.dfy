/** Refresh-token rotation (internal/auth/jwt.go:66-185): one transaction over the refresh_tokens
    table, and what holds over any serial history of logins and refreshes. */
module RefreshTokens {
  import opened WorkflowModel

  type User = nat
  type Time = int      // seconds

  datatype Raw = Raw(text: string)
  datatype Hash = Hash(hex: string)

  /** One row; its key in the table is token_hash, which the schema makes unique
      (internal/db/schema.sql:34-41). */
  datatype Row = Row(user: User, expiresAt: Time, usedAt: Option<Time>)
  type Rows = map<Hash, Row>

  const REFRESH_TOKEN_TTL: Time := 30 * 24 * 3600

  /** Everything outside the code's control during one call: which statements fail, the clock
      each time it is read, the caller's buildAccessToken, and the random token drawn. */
  datatype Env = Env(
    begins: bool,
    loads: bool,
    checkedAt: Time,
    deletes: bool,
    access: Option<string>,
    updates: bool,
    usedAt: Time,
    draw: Option<Raw>,
    issuedAt: Time,
    inserts: bool,
    commits: bool)

  datatype Outcome =
    | Refreshed(newToken: Raw, access: string, user: User)
    | ReuseDetected(user: User)
    | Invalid
    | Expired
    | Errored

  // --- what one call does -------------------------------------------------------------------

  /** issueRefreshToken: the row it inserts, if nothing fails. */
  function Issue(rows: Rows, hash: Raw -> Hash, user: User, env: Env): Option<Rows> {
    if env.draw.None? || !env.inserts || hash(env.draw.value) in rows then None
    else Some(rows[hash(env.draw.value) := Row(user, env.issuedAt + REFRESH_TOKEN_TTL, None)])
  }

  function WithoutUser(rows: Rows, user: User): Rows {
    map h | h in rows && rows[h].user != user :: rows[h]
  }

  /** The committed table after one refresh, and what the caller is told. */
  function Refresh(rows: Rows, hash: Raw -> Hash, raw: Raw, env: Env): (Rows, Outcome) {
    if !env.begins || !env.loads then (rows, Errored)
    else if hash(raw) !in rows then (rows, Invalid)
    else
      var h, row := hash(raw), rows[hash(raw)];
      if row.usedAt.Some? then
        if env.deletes && env.commits then (WithoutUser(rows, row.user), ReuseDetected(row.user)) else (rows, Errored)
      else if row.expiresAt < env.checkedAt then (rows, Expired)
      else if env.access.None? || !env.updates || !env.commits then (rows, Errored)
      else match Issue(rows[h := row.(usedAt := Some(env.usedAt))], hash, row.user, env)
        case None => (rows, Errored)
        case Some(rotated) => (rotated, Refreshed(env.draw.value, env.access.value, row.user))
  }

  /** The table inside and outside a transaction: working holds the statements made so far. */
  class TokenStore {
    var rows: Rows
    var working: Rows
    var open: bool
    const hash: Raw -> Hash

    constructor (hash: Raw -> Hash)
      ensures rows == map[] && this.hash == hash && !open
    {
      this.hash := hash;
      rows, working, open := map[], map[], false;
    }

    method Rollback()
      modifies `working, `open
      ensures !open && (old(open) ==> working == rows) && (!old(open) ==> working == old(working))
    {
      if open {
        working, open := rows, false;
      }
    }

    method Commit(env: Env) returns (ok: bool)
      requires open
      modifies this
      ensures ok == env.commits && working == old(working)
      ensures if ok then rows == old(working) && !open else rows == old(rows) && open
    {
      ok := env.commits;
      if ok {
        rows, open := working, false;
      }
    }

    method IssueRefreshToken(user: User, env: Env) returns (token: Option<Raw>)
      modifies `working
      ensures match Issue(old(working), hash, user, env)
              case None => token.None? && working == old(working)
              case Some(w) => token == env.draw && working == w
    {
      if env.draw.None? {
        return None;
      }
      var h := hash(env.draw.value);
      if !env.inserts || h in working {
        return None;
      }
      working := working[h := Row(user, env.issuedAt + REFRESH_TOKEN_TTL, None)];
      token := env.draw;
    }

    /** The statements of RefreshSession, before its deferred rollback. */
    method Transact(raw: Raw, env: Env) returns (outcome: Outcome)
      requires open && working == rows
      modifies this
      requires env.begins
      ensures (rows, outcome) == Refresh(old(rows), hash, raw, env)
      ensures outcome.Refreshed? ==> !open
    {
      var h := hash(raw);
      if !env.loads {
        return Errored;
      }
      if h !in working {
        return Invalid;
      }
      var rt := working[h];
      if rt.usedAt.Some? {
        if !env.deletes {
          return Errored;
        }
        working := map k | k in working && working[k].user != rt.user :: working[k];
        var committed := Commit(env);
        return if committed then ReuseDetected(rt.user) else Errored;
      }
      if env.checkedAt > rt.expiresAt {
        return Expired;
      }
      if env.access.None? || !env.updates {
        return Errored;
      }
      working := working[h := rt.(usedAt := Some(env.usedAt))];
      var token := IssueRefreshToken(rt.user, env);
      if token.None? {
        return Errored;
      }
      var committed := Commit(env);
      return if committed then Refreshed(token.value, env.access.value, rt.user) else Errored;
    }

    /** RefreshSession, with its deferred rollback. */
    method RefreshSession(raw: Raw, env: Env) returns (outcome: Outcome)
      requires !open
      modifies this
      ensures !open && (rows, outcome) == Refresh(old(rows), hash, raw, env)
    {
      if !env.begins {
        return Errored;
      }
      working, open := rows, true;
      outcome := Transact(raw, env);
      if !outcome.Refreshed? {
        Rollback();
      }
    }

    /** IssueRefreshToken, outside any transaction: the insert commits by itself. */
    method IssueSession(user: User, env: Env) returns (token: Option<Raw>)
      requires !open
      modifies this
      ensures !open && rows == Login(old(rows), hash, user, env)
      ensures token == if Issue(old(rows), hash, user, env).Some? then env.draw else None
    {
      working := rows;
      token := IssueRefreshToken(user, env);
      rows := working;
    }
  }

  function Login(rows: Rows, hash: Raw -> Hash, user: User, env: Env): Rows {
    match Issue(rows, hash, user, env) case None => rows case Some(w) => w
  }

  // --- one call -----------------------------------------------------------------------------

  ghost function Unused(rows: Rows, user: User): set<Hash> {
    set h | h in rows && rows[h].user == user && rows[h].usedAt.None?
  }

  /** Everything a rotation needs besides an unused, unexpired row. */
  predicate Rotates(rows: Rows, hash: Raw -> Hash, env: Env) {
    && env.access.Some? && env.updates
    && env.draw.Some? && env.inserts && hash(env.draw.value) !in rows
    && env.commits
  }

  /** When each outcome happens, exactly; and only success and reuse touch the table. */
  lemma OutcomeExactly(rows: Rows, hash: Raw -> Hash, raw: Raw, env: Env)
    ensures var (after, outcome) := Refresh(rows, hash, raw, env);
      var asked, known := env.begins && env.loads, hash(raw) in rows;
      && (outcome.Invalid? <==> asked && !known)
      && (outcome.ReuseDetected? <==> asked && known && rows[hash(raw)].usedAt.Some? && env.deletes && env.commits)
      && (outcome.Expired? <==>
            asked && known && rows[hash(raw)].usedAt.None? && rows[hash(raw)].expiresAt < env.checkedAt)
      && (outcome.Refreshed? <==>
            asked && known && rows[hash(raw)].usedAt.None? && env.checkedAt <= rows[hash(raw)].expiresAt &&
            Rotates(rows, hash, env))
      && (outcome.Errored? <==>
            !asked || (known && if rows[hash(raw)].usedAt.Some? then !env.deletes || !env.commits
                                else env.checkedAt <= rows[hash(raw)].expiresAt && !Rotates(rows, hash, env)))
      && (outcome.Invalid? || outcome.Expired? || outcome.Errored? ==> after == rows)
  {
  }

  function Rotated(rows: Rows, h: Hash, usedAt: Time, h': Hash, expiresAt: Time): Rows
    requires h in rows
  {
    rows[h := rows[h].(usedAt := Some(usedAt))][h' := Row(rows[h].user, expiresAt, None)]
  }

  lemma RotationConserves(rows: Rows, h: Hash, usedAt: Time, h': Hash, expiresAt: Time, u: User)
    requires h in rows && rows[h].usedAt.None? && h' !in rows
    ensures |Unused(Rotated(rows, h, usedAt, h', expiresAt), u)| == |Unused(rows, u)|
  {
    var before, after := Unused(rows, u), Unused(Rotated(rows, h, usedAt, h', expiresAt), u);
    if u == rows[h].user {
      assert h in before;
      assert after == before - {h} + {h'};
    } else {
      assert after == before;
    }
  }

  /** A success uses one token of the user up and adds one, fresh and with a full lifetime; every
      other row is as it was. */
  lemma SuccessRotates(rows: Rows, hash: Raw -> Hash, raw: Raw, env: Env)
    requires Refresh(rows, hash, raw, env).1.Refreshed?
    ensures var (after, outcome) := Refresh(rows, hash, raw, env);
      && hash(raw) in rows && rows[hash(raw)].usedAt.None? && outcome.user == rows[hash(raw)].user
      && hash(outcome.newToken) !in rows
      && after == Rotated(rows, hash(raw), env.usedAt, hash(outcome.newToken), env.issuedAt + REFRESH_TOKEN_TTL)
  {
  }

  /** So a success conserves the number of live tokens of every user. */
  lemma SuccessConserves(rows: Rows, hash: Raw -> Hash, raw: Raw, env: Env, u: User)
    requires Refresh(rows, hash, raw, env).1.Refreshed?
    ensures |Unused(Refresh(rows, hash, raw, env).0, u)| == |Unused(rows, u)|
  {
    hide Rotated, Unused, Refresh;
    SuccessRotates(rows, hash, raw, env);
    var outcome := Refresh(rows, hash, raw, env).1;
    RotationConserves(rows, hash(raw), env.usedAt, hash(outcome.newToken), env.issuedAt + REFRESH_TOKEN_TTL, u);
  }

  /** Reuse deletes the user's rows, all of them and nothing else. */
  lemma ReuseDeletesUser(rows: Rows, hash: Raw -> Hash, raw: Raw, env: Env)
    requires Refresh(rows, hash, raw, env).1.ReuseDetected?
    ensures var (after, outcome) := Refresh(rows, hash, raw, env);
      && hash(raw) in rows && outcome.user == rows[hash(raw)].user
      && (forall k :: k in after <==> k in rows && rows[k].user != outcome.user)
      && (forall k :: k in after ==> after[k] == rows[k])
  {
  }

  // --- histories ----------------------------------------------------------------------------

  datatype Event = LogsIn(user: User, env: Env) | Refreshes(raw: Raw, env: Env)

  /** The table and, for every token ever stored, whose it was. */
  datatype State = State(rows: Rows, owner: map<Hash, User>)

  function Recorded(owner: map<Hash, User>, rows: Rows): map<Hash, User> {
    map h | h in owner.Keys + rows.Keys :: if h in owner then owner[h] else rows[h].user
  }

  function Step(s: State, hash: Raw -> Hash, e: Event): State {
    var rows := match e case LogsIn(user, env) => Login(s.rows, hash, user, env)
                        case Refreshes(raw, env) => Refresh(s.rows, hash, raw, env).0;
    State(rows, Recorded(s.owner, rows))
  }

  function After(hash: Raw -> Hash, history: seq<Event>): State {
    if history == [] then State(map[], map[])
    else Step(After(hash, history[..|history| - 1]), hash, history[|history| - 1])
  }

  /** What the i-th event of a history reported. */
  function OutcomeAt(hash: Raw -> Hash, history: seq<Event>, i: nat): Outcome
    requires i < |history| && history[i].Refreshes?
  {
    Refresh(After(hash, history[..i]).rows, hash, history[i].raw, history[i].env).1
  }

  /** The random tokens drawn over a history never repeat. */
  ghost predicate NeverRepeats(hash: Raw -> Hash, history: seq<Event>) {
    forall i, j {:trigger history[i], history[j]} :: 0 <= i < j < |history| ==>
      (history[i].env.draw.Some? && history[j].env.draw.Some? ==>
          hash(history[i].env.draw.value) != hash(history[j].env.draw.value))
  }

  ghost predicate Drawn(hash: Raw -> Hash, history: seq<Event>, h: Hash) {
    exists i {:trigger history[i]} :: 0 <= i < |history| && history[i].env.draw.Some? &&
        hash(history[i].env.draw.value) == h
  }

  /** A row that comes new into the table carries the token drawn by that event. */
  lemma NewRowDrawn(s: State, hash: Raw -> Hash, e: Event, h: Hash)
    requires h in Step(s, hash, e).rows && h !in s.rows
    ensures e.env.draw.Some? && h == hash(e.env.draw.value)
  {
  }

  /** A row never changes hands. */
  lemma SameUser(s: State, hash: Raw -> Hash, e: Event, h: Hash)
    requires h in Step(s, hash, e).rows && h in s.rows
    requires e.env.draw.Some? ==> hash(e.env.draw.value) !in s.rows
    ensures Step(s, hash, e).rows[h].user == s.rows[h].user
  {
  }

  lemma DrawnSnoc(hash: Raw -> Hash, history: seq<Event>, h: Hash)
    requires history != []
    ensures Drawn(hash, history, h) <==>
      Drawn(hash, history[..|history| - 1], h) || (history[|history| - 1].env.draw.Some? &&
          hash(history[|history| - 1].env.draw.value) == h)
  {
    var init, e := history[..|history| - 1], history[|history| - 1];
    if Drawn(hash, init, h) {
      var i :| 0 <= i < |init| && init[i].env.draw.Some? && hash(init[i].env.draw.value) == h;
      assert history[i] == init[i];
    }
    if Drawn(hash, history, h) {
      var i :| 0 <= i < |history| && history[i].env.draw.Some? && hash(history[i].env.draw.value) == h;
      if i < |init| {
        assert init[i] == history[i];
      }
    }
  }

  /** The last token drawn is new. */
  lemma LastIsNew(hash: Raw -> Hash, history: seq<Event>)
    requires NeverRepeats(hash, history) && history != [] && history[|history| - 1].env.draw.Some?
    ensures !Drawn(hash, history[..|history| - 1], hash(history[|history| - 1].env.draw.value))
  {
    var init, h := history[..|history| - 1], hash(history[|history| - 1].env.draw.value);
    forall i | 0 <= i < |init| && init[i].env.draw.Some? ensures hash(init[i].env.draw.value) != h {
      assert history[i] == init[i];
    }
  }

  lemma NeverRepeatsPrefix(hash: Raw -> Hash, history: seq<Event>, n: nat)
    requires NeverRepeats(hash, history) && n <= |history|
    ensures NeverRepeats(hash, history[..n])
  {
    forall i, j | 0 <= i < j < n && history[..n][i].env.draw.Some? && history[..n][j].env.draw.Some?
      ensures hash(history[..n][i].env.draw.value) != hash(history[..n][j].env.draw.value) {
      assert history[..n][i] == history[i] && history[..n][j] == history[j];
    }
  }

  /** Every row belongs to whoever its token was issued to, and every token was drawn. */
  ghost predicate Sound(hash: Raw -> Hash, history: seq<Event>, s: State) {
    && (forall h :: h in s.rows ==> h in s.owner && s.owner[h] == s.rows[h].user)
    && (forall h :: h in s.owner ==> Drawn(hash, history, h))
  }

  lemma SoundStep(hash: Raw -> Hash, history: seq<Event>, s: State)
    requires history != [] && NeverRepeats(hash, history) && Sound(hash, history[..|history| - 1], s)
    ensures Sound(hash, history, Step(s, hash, history[|history| - 1]))
  {
    hide Drawn, NeverRepeats;
    var init, e := history[..|history| - 1], history[|history| - 1];
    var t := Step(s, hash, e);
    if e.env.draw.Some? {
      LastIsNew(hash, history);
    }
    forall h | h in t.rows ensures h in t.owner && t.owner[h] == t.rows[h].user {
      if h in s.rows {
        SameUser(s, hash, e, h);
      } else {
        NewRowDrawn(s, hash, e, h);
        assert h !in s.owner;
      }
    }
    forall h | h in t.owner ensures Drawn(hash, history, h) {
      DrawnSnoc(hash, history, h);
      if h !in s.owner {
        NewRowDrawn(s, hash, e, h);
      }
    }
  }

  lemma {:induction false} HistorySound(hash: Raw -> Hash, history: seq<Event>)
    requires NeverRepeats(hash, history)
    ensures Sound(hash, history, After(hash, history))
  {
    if history != [] {
      hide Sound, Step, NeverRepeats;
      NeverRepeatsPrefix(hash, history, |history| - 1);
      HistorySound(hash, history[..|history| - 1]);
      SoundStep(hash, history, After(hash, history[..|history| - 1]));
    } else {
      assert After(hash, history) == State(map[], map[]);
    }
  }

  // --- dead tokens --------------------------------------------------------------------------

  /** The token was issued, and is used up or gone: no refresh with it can succeed. */
  ghost predicate Spent(s: State, h: Hash) {
    h in s.owner && (h in s.rows ==> s.rows[h].usedAt.Some?)
  }

  /** The token was issued and its row is gone. */
  ghost predicate Gone(s: State, h: Hash) {
    h in s.owner && h !in s.rows
  }

  lemma StaysStep(s: State, hash: Raw -> Hash, e: Event, h: Hash)
    requires e.env.draw.Some? ==> hash(e.env.draw.value) != h
    ensures Spent(s, h) ==> Spent(Step(s, hash, e), h)
    ensures Gone(s, h) ==> Gone(Step(s, hash, e), h)
    ensures h in s.owner ==> h in Step(s, hash, e).owner && Step(s, hash, e).owner[h] == s.owner[h]
  {
  }

  /** Once spent, spent for good; once gone, gone for good. */
  lemma {:induction false} Stays(hash: Raw -> Hash, history: seq<Event>, n: nat, h: Hash)
    requires NeverRepeats(hash, history) && n <= |history| && h in After(hash, history[..n]).owner
    ensures h in After(hash, history).owner && After(hash, history).owner[h] == After(hash, history[..n]).owner[h]
    ensures Spent(After(hash, history[..n]), h) ==> Spent(After(hash, history), h)
    ensures Gone(After(hash, history[..n]), h) ==> Gone(After(hash, history), h)
    decreases |history| - n
  {
    if n == |history| {
      assert history[..n] == history;
    } else {
      hide NeverRepeats, Spent, Gone, Sound, Drawn, Step;
      var next := history[..n + 1];
      assert next[..n] == history[..n] && next[n] == history[n];
      NeverRepeatsPrefix(hash, history, n + 1);
      NeverRepeatsPrefix(hash, history, n);
      IssuedEarlier(hash, next, h);
      StaysStep(After(hash, history[..n]), hash, history[n], h);
      Stays(hash, history, n + 1, h);
    }
  }

  lemma IssuedEarlier(hash: Raw -> Hash, history: seq<Event>, h: Hash)
    requires NeverRepeats(hash, history) && history != [] && h in After(hash, history[..|history| - 1]).owner
    ensures history[|history| - 1].env.draw.Some? ==> hash(history[|history| - 1].env.draw.value) != h
  {
    NeverRepeatsPrefix(hash, history, |history| - 1);
    HistorySound(hash, history[..|history| - 1]);
    if history[|history| - 1].env.draw.Some? {
      LastIsNew(hash, history);
    }
  }

  lemma StepSpends(s: State, hash: Raw -> Hash, raw: Raw, env: Env)
    requires Refresh(s.rows, hash, raw, env).1.Refreshed? && hash(raw) in s.owner
    ensures Spent(Step(s, hash, Refreshes(raw, env)), hash(raw))
  {
  }

  lemma SpentNeverRefreshes(s: State, hash: Raw -> Hash, raw: Raw, env: Env)
    requires Spent(s, hash(raw))
    ensures !Refresh(s.rows, hash, raw, env).1.Refreshed?
  {
  }

  /** Over any serial history each token gives at most one successful refresh. */
  lemma AtMostOneSuccess(hash: Raw -> Hash, history: seq<Event>, i: nat, j: nat)
    requires NeverRepeats(hash, history) && i < j < |history|
    requires history[i].Refreshes? && history[j].Refreshes? && hash(history[i].raw) == hash(history[j].raw)
    requires OutcomeAt(hash, history, i).Refreshed?
    ensures !OutcomeAt(hash, history, j).Refreshed?
  {
    hide NeverRepeats, Step, Spent, Drawn, Refresh;
    var h := hash(history[i].raw);
    var s := After(hash, history[..i]);
    NeverRepeatsPrefix(hash, history, i);
    NeverRepeatsPrefix(hash, history, j);
    HistorySound(hash, history[..i]);
    SuccessRotates(s.rows, hash, history[i].raw, history[i].env);
    StepSpends(s, hash, history[i].raw, history[i].env);
    SpentIsOwned(Step(s, hash, history[i]), h);
    assert history[..i + 1][..i] == history[..i] && history[..i + 1][i] == history[i];
    assert history[..j][..i + 1] == history[..i + 1];
    Stays(hash, history[..j], i + 1, h);
    SpentNeverRefreshes(After(hash, history[..j]), hash, history[j].raw, history[j].env);
  }

  lemma SpentIsOwned(s: State, h: Hash)
    requires Spent(s, h)
    ensures h in s.owner
  {
  }

  /** Presenting a used token kills every token issued to that user before: none of them is ever
      found again. */
  lemma ReuseKillsEarlierTokens(hash: Raw -> Hash, history: seq<Event>, i: nat, j: nat)
    requires NeverRepeats(hash, history) && i < j < |history|
    requires history[i].Refreshes? && OutcomeAt(hash, history, i).ReuseDetected?
    requires history[j].Refreshes? && var h := hash(history[j].raw); var s := After(hash, history[..i]);
             h in s.owner && s.owner[h] == OutcomeAt(hash, history, i).user
    ensures OutcomeAt(hash, history, j).Invalid? || OutcomeAt(hash, history, j).Errored?
    ensures history[j].env.begins && history[j].env.loads ==> OutcomeAt(hash, history, j).Invalid?
  {
    hide NeverRepeats, Drawn, Step, Refresh, Gone, Sound, Spent;
    var h, s := hash(history[j].raw), After(hash, history[..i]);
    NeverRepeatsPrefix(hash, history, i);
    NeverRepeatsPrefix(hash, history, j);
    HistorySound(hash, history[..i]);
    ReuseMakesGone(hash, history[..i], s, history[i].raw, history[i].env, h);
    GoneNeverFound(Step(s, hash, history[i]), hash, history[j].raw, history[j].env);
    assert history[..i + 1][..i] == history[..i] && history[..i + 1][i] == history[i];
    assert history[..j][..i + 1] == history[..i + 1];
    Stays(hash, history[..j], i + 1, h);
    GoneNeverFound(After(hash, history[..j]), hash, history[j].raw, history[j].env);
  }

  lemma GoneNeverFound(s: State, hash: Raw -> Hash, raw: Raw, env: Env)
    requires Gone(s, hash(raw))
    ensures hash(raw) in s.owner
    ensures Refresh(s.rows, hash, raw, env).1 == if env.begins && env.loads then Invalid else Errored
  {
  }

  lemma ReuseMakesGone(hash: Raw -> Hash, history: seq<Event>, s: State, raw: Raw, env: Env, h: Hash)
    requires Sound(hash, history, s) && Refresh(s.rows, hash, raw, env).1.ReuseDetected?
    requires h in s.owner && s.owner[h] == Refresh(s.rows, hash, raw, env).1.user
    ensures Gone(Step(s, hash, Refreshes(raw, env)), h)
  {
  }

  // --- conservation -------------------------------------------------------------------------

  /** How often user u has logged in. */
  function Logins(history: seq<Event>, u: User): nat {
    if history == [] then 0 else
    var e := history[|history| - 1];
    Logins(history[..|history| - 1], u) + if e.LogsIn? && e.user == u then 1 else 0
  }

  lemma LoginAddsOne(rows: Rows, hash: Raw -> Hash, user: User, env: Env, u: User)
    ensures |Unused(Login(rows, hash, user, env), u)| <= |Unused(rows, u)| + if u == user then 1 else 0
  {
    var after := Login(rows, hash, user, env);
    if Issue(rows, hash, user, env).Some? && u == user {
      assert Unused(after, u) == Unused(rows, u) + {hash(env.draw.value)};
    } else {
      assert Unused(after, u) == Unused(rows, u);
    }
  }

  lemma RefreshAddsNone(rows: Rows, hash: Raw -> Hash, raw: Raw, env: Env, u: User)
    ensures |Unused(Refresh(rows, hash, raw, env).0, u)| <= |Unused(rows, u)|
  {
    hide Unused, Refresh;
    OutcomeExactly(rows, hash, raw, env);
    match Refresh(rows, hash, raw, env).1
    case Refreshed(_, _, _) => SuccessConserves(rows, hash, raw, env, u);
    case ReuseDetected(user) => ReuseShrinks(rows, hash, raw, env, u);
    case Invalid =>
    case Expired =>
    case Errored =>
  }

  lemma ReuseShrinks(rows: Rows, hash: Raw -> Hash, raw: Raw, env: Env, u: User)
    requires Refresh(rows, hash, raw, env).1.ReuseDetected?
    ensures |Unused(Refresh(rows, hash, raw, env).0, u)| <= |Unused(rows, u)|
  {
    var before, after := Unused(rows, u), Unused(Refresh(rows, hash, raw, env).0, u);
    assert after <= before;
    assert before == after + (before - after);
  }

  /** A login adds one row, unused and good for 30 days, for that user, or changes nothing. */
  lemma LoginExactly(rows: Rows, hash: Raw -> Hash, user: User, env: Env)
    ensures var after := Login(rows, hash, user, env);
      if env.draw.Some? && env.inserts && hash(env.draw.value) !in rows then
        var h := hash(env.draw.value);
        && after.Keys == rows.Keys + {h} && after[h] == Row(user, env.issuedAt + 30 * 24 * 3600, None)
        && (forall k :: k in rows ==> after[k] == rows[k])
        && (forall u :: |Unused(after, u)| == |Unused(rows, u)| + if u == user then 1 else 0)
      else after == rows
  {
    if env.draw.Some? && env.inserts && hash(env.draw.value) !in rows {
      var row := Row(user, env.issuedAt + REFRESH_TOKEN_TTL, None);
      forall u ensures |Unused(rows[hash(env.draw.value) := row], u)| == |Unused(rows, u)| + if u == user then 1
          else 0 {
        NewRowCounts(rows, hash(env.draw.value), row, u);
      }
      hide Unused;
    }
  }

  lemma NewRowCounts(rows: Rows, h: Hash, row: Row, u: User)
    requires h !in rows && row.usedAt.None?
    ensures |Unused(rows[h := row], u)| == |Unused(rows, u)| + if u == row.user then 1 else 0
  {
    assert Unused(rows[h := row], u) == Unused(rows, u) + if u == row.user then {h} else {};
  }

  /** How often user u has logged in without an error since the last time a used token of u was presented
      and that was recorded. */
  function LoginsSinceReuse(hash: Raw -> Hash, history: seq<Event>, u: User): nat {
    if history == [] then 0 else
    var n := |history| - 1;
    var before := LoginsSinceReuse(hash, history[..n], u);
    match history[n]
    case LogsIn(user, env) =>
      before + if user == u && env.draw.Some? && env.inserts && hash(env.draw.value) !in After(hash, history[..n]).rows
               then 1 else 0
    case Refreshes(_, _) => if OutcomeAt(hash, history, n) == ReuseDetected(u) then 0 else before
  }

  /** A user has exactly as many live tokens. */
  lemma {:induction false} LiveTokensExactly(hash: Raw -> Hash, history: seq<Event>, u: User)
    ensures |Unused(After(hash, history).rows, u)| == LoginsSinceReuse(hash, history, u)
  {
    if history == [] {
      assert Unused(After(hash, history).rows, u) == {};
    } else {
      hide Unused, Refresh, Login;
      var init, e := history[..|history| - 1], history[|history| - 1];
      LiveTokensExactly(hash, init, u);
      var rows := After(hash, init).rows;
      match e
      case LogsIn(user, env) => LoginExactly(rows, hash, user, env);
      case Refreshes(raw, env) => RefreshKeeps(rows, hash, raw, env, u);
    }
  }

  /** A refresh leaves a user's number of live tokens as it is, or at none if it detects reuse. */
  lemma RefreshKeeps(rows: Rows, hash: Raw -> Hash, raw: Raw, env: Env, u: User)
    ensures var (after, outcome) := Refresh(rows, hash, raw, env);
      |Unused(after, u)| == if outcome == ReuseDetected(u) then 0 else |Unused(rows, u)|
  {
    hide Unused, Refresh;
    OutcomeExactly(rows, hash, raw, env);
    match Refresh(rows, hash, raw, env).1
    case Refreshed(_, _, _) => SuccessConserves(rows, hash, raw, env, u);
    case ReuseDetected(user) => ReuseEmpties(rows, hash, raw, env, u);
    case Invalid =>
    case Expired =>
    case Errored =>
  }

  lemma ReuseEmpties(rows: Rows, hash: Raw -> Hash, raw: Raw, env: Env, u: User)
    requires Refresh(rows, hash, raw, env).1.ReuseDetected?
    ensures var (after, outcome) := Refresh(rows, hash, raw, env);
      Unused(after, u) == if outcome.user == u then {} else Unused(rows, u)
  {
  }

  /** Refreshing never multiplies sessions: a user has at most as many live tokens as logins,
      whatever is presented in between, by whomever. */
  lemma {:induction false} LiveTokensBounded(hash: Raw -> Hash, history: seq<Event>, u: User)
    ensures |Unused(After(hash, history).rows, u)| <= Logins(history, u)
  {
    if history == [] {
      assert Unused(After(hash, history).rows, u) == {};
    } else {
      hide Unused, Refresh, Login;
      var init, e := history[..|history| - 1], history[|history| - 1];
      LiveTokensBounded(hash, init, u);
      var rows := After(hash, init).rows;
      match e
      case LogsIn(user, env) => LoginAddsOne(rows, hash, user, env, u);
      case Refreshes(raw, env) => RefreshAddsNone(rows, hash, raw, env, u);
    }
  }
}
