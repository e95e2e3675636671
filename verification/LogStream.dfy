/** Streaming a run's log rows over the listener's wake-ups
    (internal/server/handlers/runs.go:326-411): the flush, the protocol as a transition system
    with commits and notifications interleaved, and what the client is sent. */
module LogStream {
  import opened WorkflowModel
  import Listener

  type RunId = nat

  /** step_run_logs: the run of each committed row, and the last row ID handed out. IDs are drawn
      from a sequence and may commit out of order. */
  datatype Table = Table(rows: map<nat, RunId>, top: nat)

  /** SELECT ... WHERE run_id = run AND id > lo ORDER BY id, over IDs up to hi */
  function Select(rows: map<nat, RunId>, run: RunId, lo: nat, hi: nat): seq<nat>
    decreases hi
  {
    if hi <= lo then [] else
    Select(rows, run, lo, hi - 1) + if hi in rows && rows[hi] == run then [hi] else []
  }

  ghost predicate Rising(s: seq<nat>) {
    forall i, j :: 0 <= i < j < |s| ==> s[i] < s[j]
  }

  lemma {:induction false} SelectExactly(rows: map<nat, RunId>, run: RunId, lo: nat, hi: nat)
    ensures Rising(Select(rows, run, lo, hi))
    ensures forall id :: id in Select(rows, run, lo, hi) <==> lo < id <= hi && id in rows && rows[id] == run
  {
    if lo < hi {
      SelectExactly(rows, run, lo, hi - 1);
      var rest, all := Select(rows, run, lo, hi - 1), Select(rows, run, lo, hi);
      assert all == rest || all == rest + [hi];
      forall i, j | 0 <= i < j < |all| ensures all[i] < all[j] {
        assert all[i] == rest[i] && rest[i] in rest;
      }
    }
  }

  function Last(s: seq<nat>, otherwise: nat): nat {
    if s == [] then otherwise else s[|s| - 1]
  }

  /** streamFlush: the rows it writes, the new cursor, and whether the run is over. */
  method StreamFlush(logs: Option<seq<nat>>, terminal: Option<bool>, cursor0: nat)
    returns (sent: seq<nat>, cursor: nat, done: bool)
    requires logs.Some? ==> Rising(logs.value) && forall id :: id in logs.value ==> cursor0 < id
    ensures sent == (match logs case None => [] case Some(ids) => ids)
    ensures cursor == (match logs case None => cursor0 case Some(ids) => Last(ids, cursor0))
    ensures done <==> terminal == Some(true)
  {
    sent, cursor := [], cursor0;
    if logs.Some? {
      for i := 0 to |logs.value|
        invariant sent == logs.value[..i] && cursor == Last(logs.value[..i], cursor0)
      {
        assert logs.value[i] in logs.value && (i > 0 ==> logs.value[i - 1] < logs.value[i]);
        sent := sent + [logs.value[i]];
        if logs.value[i] > cursor {
          cursor := logs.value[i];
        }
      }
    }
    done := terminal.Some? && terminal.value;
  }

  // --- the protocol -------------------------------------------------------------------------

  datatype Phase = Connecting | ToQuery | ToStatus | Waiting | Closed

  /** The table, one client streaming one run, and what was promised to it:
      due: rows of the run that were committed before one of its queries, or whose notification
           was fanned out since it subscribed;
      overtaken: rows of the run that committed when the cursor was already past their ID. */
  datatype State = State(
    table: Table,
    phase: Phase,
    full: bool,             // its channel holds a signal
    cursor: nat,
    sent: seq<nat>,
    due: set<nat>,
    overtaken: set<nat>,
    current: bool)           // its last query succeeded

  datatype Event =
    | Allocate                       // a writer takes the next row ID
    | Commit(id: nat, run: RunId)
    | Notify(id: nat)                // the notification of a committed row is fanned out
    | NotifyStatus                   // some other notification for the run
    | Subscribe
    | Query(ok: bool)                // the log query of one flush
    | Status(terminal: Option<bool>) // the status query of one flush
    | Wake                           // a signal is received
    | Disconnect

  function Started(table: Table): State {
    State(table, Connecting, false, 0, [], {}, {}, false)
  }

  function OfRun(rows: map<nat, RunId>, run: RunId): set<nat> {
    set id | id in rows && rows[id] == run
  }

  predicate Subscribed(s: State) {
    s.phase != Connecting && s.phase != Closed
  }

  /** The writers and the listener. */
  function WriterStep(run: RunId, s: State, e: Event): Option<State> {
    match e
    case Allocate => Some(s.(table := s.table.(top := s.table.top + 1)))
    case Commit(id, r) =>
      if id == 0 || id > s.table.top || id in s.table.rows then None else
      Some(s.(table := s.table.(rows := s.table.rows[id := r]),
              overtaken := if r == run && id <= s.cursor then s.overtaken + {id} else s.overtaken))
    case Notify(id) =>
      if id !in s.table.rows then None
      else if s.table.rows[id] == run && Subscribed(s) then Some(s.(full := true, due := s.due + {id}))
      else Some(s)
    case NotifyStatus => Some(if Subscribed(s) then s.(full := true) else s)
    case _ => None
  }

  /** The streaming handler. */
  function ReaderStep(run: RunId, s: State, e: Event): Option<State> {
    match e
    case Subscribe => if s.phase != Connecting then None else Some(s.(phase := ToQuery))
    case Query(ok) =>
      if s.phase != ToQuery then None else
      var asked := s.(phase := ToStatus, due := s.due + OfRun(s.table.rows, run), current := ok);
      if !ok then Some(asked) else
      var ids := Select(s.table.rows, run, s.cursor, s.table.top);
      Some(asked.(sent := s.sent + ids, cursor := Last(ids, s.cursor)))
    case Status(terminal) =>
      if s.phase != ToStatus then None else Some(s.(phase := if terminal == Some(true) then Closed else Waiting))
    case Wake => if s.phase != Waiting || !s.full then None else Some(s.(phase := ToQuery, full := false))
    case Disconnect => if s.phase != Waiting then None else Some(s.(phase := Closed))
    case _ => None
  }

  predicate ByWriter(e: Event) {
    e.Allocate? || e.Commit? || e.Notify? || e.NotifyStatus?
  }

  function Next(run: RunId, s: State, e: Event): Option<State> {
    if ByWriter(e) then WriterStep(run, s, e) else ReaderStep(run, s, e)
  }

  /** The state after a whole trace, if it can happen. */
  function After(run: RunId, table: Table, trace: seq<Event>): Option<State> {
    if trace == [] then Some(Started(table)) else
    match After(run, table, trace[..|trace| - 1])
    case None => None
    case Some(s) => Next(run, s, trace[|trace| - 1])
  }

  ghost predicate ValidTable(t: Table) {
    forall id :: id in t.rows ==> 0 < id <= t.top
  }

  /** What was sent is exactly the run's rows up to the cursor, in order, but for those overtaken. */
  ghost predicate SentExactly(run: RunId, s: State) {
    && Rising(s.sent)
    && s.cursor == Last(s.sent, 0)
    && (forall id :: id in s.sent <==>
          id in s.table.rows && s.table.rows[id] == run && id <= s.cursor && id !in s.overtaken)
    && (forall id :: id in s.overtaken ==> id in s.table.rows && s.table.rows[id] == run && id <= s.cursor)
  }

  /** An empty channel after a successful query means the cursor covers everything due. */
  ghost predicate NothingMissed(run: RunId, s: State) {
    && (forall id :: id in s.due ==> id in s.table.rows && s.table.rows[id] == run)
    && ((s.phase == ToStatus || s.phase == Waiting) && !s.full && s.current ==>
          forall id :: id in s.due ==> id <= s.cursor)
  }

  ghost predicate Invariant(run: RunId, s: State) {
    && ValidTable(s.table)
    && SentExactly(run, s)
    && NothingMissed(run, s)
    && (s.phase == Connecting ==> s.sent == [] && !s.full)
  }

  lemma WriterKeeps(run: RunId, s: State, e: Event)
    requires Invariant(run, s) && WriterStep(run, s, e).Some?
    ensures Invariant(run, WriterStep(run, s, e).value)
  {
  }

  lemma QueryKeeps(run: RunId, s: State, ok: bool)
    requires Invariant(run, s) && ReaderStep(run, s, Query(ok)).Some?
    ensures Invariant(run, ReaderStep(run, s, Query(ok)).value)
  {
    var ids := Select(s.table.rows, run, s.cursor, s.table.top);
    SelectExactly(s.table.rows, run, s.cursor, s.table.top);
    LastOfRising(s.sent, ids, s.cursor);
    if ok {
      var t := ReaderStep(run, s, Query(true)).value;
      assert forall id :: id in t.sent <==> id in s.sent || id in ids;
    }
  }

  /** Appending the answer of a query keeps what was sent ascending and ends at the new cursor. */
  lemma LastOfRising(sent: seq<nat>, ids: seq<nat>, cursor: nat)
    requires Rising(sent) && Rising(ids) && cursor == Last(sent, 0) && forall id :: id in ids ==> cursor < id
    ensures Rising(sent + ids) && Last(sent + ids, 0) == Last(ids, cursor)
    ensures cursor <= Last(ids, cursor) && forall id :: id in ids ==> id <= Last(ids, cursor)
  {
    assert forall j :: 0 <= j < |ids| ==> ids[j] in ids;
  }

  lemma ReaderKeeps(run: RunId, s: State, e: Event)
    requires Invariant(run, s) && ReaderStep(run, s, e).Some?
    ensures Invariant(run, ReaderStep(run, s, e).value)
  {
    if e.Query? {
      QueryKeeps(run, s, e.ok);
    }
  }

  lemma {:induction false} InvariantHolds(run: RunId, table: Table, trace: seq<Event>)
    requires ValidTable(table) && After(run, table, trace).Some?
    ensures Invariant(run, After(run, table, trace).value)
  {
    if trace != [] {
      hide Invariant, WriterStep, ReaderStep, ValidTable;
      var init, e := trace[..|trace| - 1], trace[|trace| - 1];
      InvariantHolds(run, table, init);
      var s := After(run, table, init).value;
      if ByWriter(e) {
        WriterKeeps(run, s, e);
      } else {
        ReaderKeeps(run, s, e);
      }
    } else {
      StartsWell(run, table);
    }
  }

  lemma StartsWell(run: RunId, table: Table)
    requires ValidTable(table)
    ensures Invariant(run, Started(table))
  {
  }

  /** No lost wake-up: whenever the stream waits on an empty channel and its last query succeeded,
      of everything it is due exactly the overtaken rows were not sent. */
  lemma NoLostWakeUp(run: RunId, table: Table, trace: seq<Event>)
    requires ValidTable(table) && After(run, table, trace).Some?
    requires var s := After(run, table, trace).value; s.phase == Waiting && !s.full && s.current
    ensures var s := After(run, table, trace).value; forall id :: id in s.due ==> (id in s.sent <==> id !in s.overtaken)
  {
    InvariantHolds(run, table, trace);
  }

  /** And in any state, whatever failed before it: a due row was sent exactly if the cursor has reached
      it and it was not overtaken. */
  lemma SentOfDueExactly(run: RunId, table: Table, trace: seq<Event>, id: nat)
    requires ValidTable(table) && After(run, table, trace).Some? && id in After(run, table, trace).value.due
    ensures var s := After(run, table, trace).value; id in s.sent <==> id <= s.cursor && id !in s.overtaken
  {
    InvariantHolds(run, table, trace);
  }

  /** Over any run of the protocol the rows sent are of this run, strictly ascending, so none
      twice. */
  lemma SentInOrder(run: RunId, table: Table, trace: seq<Event>)
    requires ValidTable(table) && After(run, table, trace).Some?
    ensures var s := After(run, table, trace).value;
      Rising(s.sent) && forall id :: id in s.sent ==> id in s.table.rows && s.table.rows[id] == run
  {
    InvariantHolds(run, table, trace);
  }

  // --- when rows are overtaken --------------------------------------------------------------

  ghost predicate AboveAll(rows: map<nat, RunId>, run: RunId, id: nat) {
    forall k :: k in rows && rows[k] == run ==> k < id
  }

  /** Every row of the run commits after all of the run's rows with smaller IDs. */
  ghost predicate CommitsInOrder(run: RunId, table: Table, trace: seq<Event>) {
    forall i :: 0 <= i < |trace| && trace[i].Commit? && trace[i].run == run && After(run, table, trace[..i]).Some? ==>
      AboveAll(After(run, table, trace[..i]).value.table.rows, run, trace[i].id)
  }

  lemma OvertakenStep(run: RunId, s: State, e: Event)
    requires Invariant(run, s) && s.overtaken == {} && Next(run, s, e).Some?
    requires e.Commit? && e.run == run ==> AboveAll(s.table.rows, run, e.id)
    ensures Next(run, s, e).value.overtaken == {}
  {
    if e.Commit? && s.sent != [] {
      assert s.sent[|s.sent| - 1] in s.sent;
    }
  }

  /** If IDs rise in commit order nothing is overtaken, so everything due has been sent. */
  lemma {:induction false} InOrderNoneOvertaken(run: RunId, table: Table, trace: seq<Event>)
    requires ValidTable(table) && After(run, table, trace).Some? && CommitsInOrder(run, table, trace)
    ensures After(run, table, trace).value.overtaken == {}
  {
    if trace != [] {
      hide Invariant, Next, AboveAll;
      var init, e := trace[..|trace| - 1], trace[|trace| - 1];
      forall i | 0 <= i < |init| && init[i].Commit? && init[i].run == run && After(run, table, init[..i]).Some?
        ensures AboveAll(After(run, table, init[..i]).value.table.rows, run, init[i].id) {
        assert init[..i] == trace[..i] && init[i] == trace[i];
      }
      InOrderNoneOvertaken(run, table, init);
      InvariantHolds(run, table, init);
      assert trace[..|init|] == init;
      OvertakenStep(run, After(run, table, init).value, e);
    }
  }

  /** Some trace leads to s. */
  ghost predicate Reachable(run: RunId, table: Table, s: State) {
    exists trace :: After(run, table, trace) == Some(s)
  }

  lemma Begins(run: RunId, table: Table)
    ensures Reachable(run, table, Started(table))
  {
    assert After(run, table, []) == Some(Started(table));
  }

  lemma Moves(run: RunId, table: Table, s: State, e: Event) returns (t: State)
    requires Reachable(run, table, s) && Next(run, s, e).Some?
    ensures t == Next(run, s, e).value && Reachable(run, table, t)
  {
    var trace :| After(run, table, trace) == Some(s);
    assert (trace + [e])[..|trace|] == trace;
    t := Next(run, s, e).value;
    assert After(run, table, trace + [e]) == Some(t);
  }

  /** A log query that fails after its signal was received loses the wake-up: the stream can wait
      on an empty channel with a committed, never overtaken row unsent. */
  lemma FailedQueryLosesWakeUp(run: RunId) returns (s: State)
    ensures Reachable(run, Table(map[1 := run], 1), s)
    ensures s.phase == Waiting && !s.full && !s.current && 1 in s.due && 1 !in s.sent && 1 !in s.overtaken
  {
    hide Reachable;
    var t := Table(map[1 := run], 1);
    Begins(run, t);
    s := Moves(run, t, Started(t), Subscribe);
    s := Moves(run, t, s, Query(false));
    assert 1 in OfRun(t.rows, run);
    s := Moves(run, t, s, Status(None));
  }

  lemma FlushesNothing(run: RunId, table: Table, s: State) returns (t: State)
    requires Reachable(run, table, s) && s.phase == Waiting && s.full &&
        Select(s.table.rows, run, s.cursor, s.table.top) == []
    ensures Reachable(run, table, t) && t.phase == Waiting && !t.full && t.current && t.sent == s.sent && s.due <= t.due
  {
    hide Reachable, After;
    t := Moves(run, table, s, Wake);
    t := Moves(run, table, t, Query(true));
    t := Moves(run, table, t, Status(None));
  }

  lemma SelectsTwo(run: RunId)
    ensures Select(map[2 := run], run, 0, 2) == [2]
  {
    assert Select(map[2 := run], run, 0, 0) == [] && Select(map[2 := run], run, 0, 1) == [];
  }

  /** A first flush of the one row there is. */
  lemma FlushesTwo(run: RunId) returns (s: State)
    ensures Reachable(run, Table(map[2 := run], 2), s)
    ensures s.table == Table(map[2 := run], 2) && s.phase == Waiting && s.sent == [2] && s.cursor == 2 && s.current
  {
    hide Reachable, OfRun, After, Select, WriterStep;
    var t := Table(map[2 := run], 2);
    SelectsTwo(run);
    Begins(run, t);
    s := Moves(run, t, Started(t), Subscribe);
    s := Moves(run, t, s, Query(true));
    s := Moves(run, t, s, Status(None));
  }

  /** A row committed behind the cursor is never sent, although its notification arrives and every
      query succeeds. */
  lemma OvertakenRowLost(run: RunId) returns (s: State)
    ensures Reachable(run, Table(map[2 := run], 2), s)
    ensures s.phase == Waiting && !s.full && s.current && 1 in s.due && 1 !in s.sent
  {
    hide Reachable, After, ReaderStep, OfRun;
    var t := Table(map[2 := run], 2);
    s := FlushesTwo(run);
    s := Moves(run, t, s, Commit(1, run));
    s := Moves(run, t, s, Notify(1));
    assert Select(s.table.rows, run, 2, 2) == [];
    s := FlushesNothing(run, t, s);
  }

  // --- the loop -------------------------------------------------------------------------------

  /** One flush with what goes on around it: before it, between its two queries, and how they go. */
  datatype Round = Round(before: seq<Event>, ok: bool, between: seq<Event>, terminal: Option<bool>)

  ghost predicate Leads(run: RunId, table: Table, trace: seq<Event>, s: State) {
    After(run, table, trace) == Some(s)
  }

  lemma LeadsOn(run: RunId, table: Table, trace: seq<Event>, s: State, e: Event)
    requires Leads(run, table, trace, s) && Next(run, s, e).Some?
    ensures Leads(run, table, trace + [e], Next(run, s, e).value)
  {
    assert (trace + [e])[..|trace|] == trace;
  }

  /** The writers and the listener at work; what they cannot do at that moment is left out. */
  method Meanwhile(run: RunId, ghost table: Table, trace0: seq<Event>, s0: State, writers: seq<Event>)
    returns (trace: seq<Event>, s: State)
    requires Leads(run, table, trace0, s0)
    ensures Leads(run, table, trace, s)
    ensures s.sent == s0.sent && s.cursor == s0.cursor && s.phase == s0.phase && s.current == s0.current
  {
    hide Leads, ReaderStep;
    trace, s := trace0, s0;
    for i := 0 to |writers|
      invariant Leads(run, table, trace, s)
      invariant s.sent == s0.sent && s.cursor == s0.cursor && s.phase == s0.phase && s.current == s0.current
    {
      var e := writers[i];
      if ByWriter(e) && WriterStep(run, s, e).Some? {
        LeadsOn(run, table, trace, s, e);
        trace, s := trace + [e], WriterStep(run, s, e).value;
      }
    }
  }

  /** One flush, the log rows first and then the status. */
  method FlushOnce(run: RunId, ghost table: Table, trace0: seq<Event>, s0: State, round: Round, cursor0: nat)
    returns (trace: seq<Event>, s: State, sent: seq<nat>, cursor: nat, done: bool)
    requires Leads(run, table, trace0, s0) && s0.phase == ToQuery && s0.cursor == cursor0
    ensures Leads(run, table, trace, s) && s.sent == s0.sent + sent && s.cursor == cursor
    ensures s.phase == (if done then Closed else Waiting)
  {
    hide Leads, WriterStep;
    var logs := if round.ok then Some(Select(s0.table.rows, run, cursor0, s0.table.top)) else None;
    SelectExactly(s0.table.rows, run, cursor0, s0.table.top);
    sent, cursor, done := StreamFlush(logs, round.terminal, cursor0);
    hide Select, OfRun;
    LeadsOn(run, table, trace0, s0, Query(round.ok));
    s := ReaderStep(run, s0, Query(round.ok)).value;
    assert s.sent == s0.sent + sent && s.cursor == cursor;
    trace, s := Meanwhile(run, table, trace0 + [Query(round.ok)], s, round.between);
    LeadsOn(run, table, trace, s, Status(round.terminal));
    trace, s := trace + [Status(round.terminal)], ReaderStep(run, s, Status(round.terminal)).value;
  }

  /** Stream: subscribe, flush, and flush again for every signal, until a flush finds the run over
      or there is no signal. However writers and listener are interleaved with it, this is a run of
      the protocol, and the rows written out are those the protocol sends. */
  method Stream(run: RunId, table: Table, rounds: seq<Round>)
    returns (trace: seq<Event>, sent: seq<nat>, s: State)
    ensures After(run, table, trace) == Some(s) && s.sent == sent
    ensures rounds != [] ==> s.phase == Waiting || s.phase == Closed
  {
    hide Leads, ReaderStep, WriterStep, After;
    LeadsStart(run, table);
    trace, s, sent := [], Started(table), [];
    var cursor := 0;
    for i := 0 to |rounds|
      invariant Leads(run, table, trace, s) && s.sent == sent && s.cursor == cursor
      invariant s.phase == if i == 0 then Connecting else Waiting
    {
      trace, s := Meanwhile(run, table, trace, s, rounds[i].before);
      if i > 0 && !s.full {
        break;
      }
      var e := if i == 0 then Subscribe else Wake;
      Wakes(run, s, e);
      LeadsOn(run, table, trace, s, e);
      trace, s := trace + [e], Next(run, s, e).value;
      var rows, done;
      trace, s, rows, cursor, done := FlushOnce(run, table, trace, s, rounds[i], cursor);
      sent := sent + rows;
      if done {
        break;
      }
    }
    LeadsTo(run, table, trace, s);
  }

  lemma LeadsStart(run: RunId, table: Table)
    ensures Leads(run, table, [], Started(table))
  {
  }

  lemma LeadsTo(run: RunId, table: Table, trace: seq<Event>, s: State)
    requires Leads(run, table, trace, s)
    ensures After(run, table, trace) == Some(s)
  {
  }

  lemma Wakes(run: RunId, s: State, e: Event)
    requires (s.phase == Connecting && e == Subscribe) || (s.phase == Waiting && s.full && e == Wake)
    ensures Next(run, s, e).Some?
    ensures Next(run, s, e).value == s.(phase := ToQuery, full := s.full && e == Subscribe)
  {
  }

  // --- the listener's side --------------------------------------------------------------------------

  /** The channel of the stream in state s: registered for its run only, and only while the stream is
      subscribed, with a signal exactly when s says so. */
  ghost predicate Represents(listener: Listener.Listener<RunId>, ch: Listener.Channel, run: RunId, s: State)
    reads listener, ch
  {
    && (forall r :: ch in listener.Subscribers(r) <==> r == run && Subscribed(s))
    && ch.full == s.full
  }

  /** Subscribing is the protocol's Subscribe. */
  method SubscribeStarts(listener: Listener.Listener<RunId>, run: RunId, ghost s: State) returns (ch: Listener.Channel)
    requires listener.Valid() && s.phase == Connecting && !s.full
    modifies listener
    ensures listener.Valid() && Represents(listener, ch, run, ReaderStep(run, s, Subscribe).value)
  {
    ch := listener.Subscribe(run);
  }

  /** Fanning a notification out is the protocol's Notify, for this stream's run or another's. */
  method FanOutNotifies(listener: Listener.Listener<RunId>, ghost ch: Listener.Channel, payload: RunId,
                        run: RunId, ghost s: State, ghost id: nat)
    requires id in s.table.rows && s.table.rows[id] == payload && Represents(listener, ch, run, s)
    modifies listener.Subscribers(payload)
    ensures Represents(listener, ch, run, WriterStep(run, s, Notify(id)).value)
  {
    listener.FanOut(payload);
  }
}
