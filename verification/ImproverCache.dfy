/** The prompt improver cached per API key (internal/server/handlers/prompt.go:22, 62-130): one
    call as the code makes it, and what holds over any history of key rotations and calls. */
module ImproverCache {
  import opened WorkflowModel

  type Time = int      // seconds
  const CREDENTIAL_CACHE_TTL: Time := 60

  datatype Key = Key(text: string)
  datatype Encrypted = Encrypted(bytes: seq<nat>)

  /** A client made by NewAnthropicImprover; serial tells clients of one key apart. */
  datatype Improver = Improver(key: Key, serial: nat)

  /** Whether there is a credential store, its row over time, and decryption with its key. */
  datatype World = World(configured: bool, stored: Time -> Option<Encrypted>, decrypt: Encrypted -> Option<Key>)

  /** The key a read at time t finds, if there is one that decrypts. */
  function KeyAt(w: World, t: Time): Option<Key> {
    match w.stored(t) case None => None case Some(enc) => w.decrypt(enc)
  }

  /** One call: when it checks the cache, when its query reads the row, when it stamps the cache,
      whether the query works, and the serial of the client it would make. */
  datatype Call = Call(checkedAt: Time, readAt: Time, stampedAt: Time, queried: bool, serial: nat)

  datatype Cache = Cache(key: Key, fn: Option<Improver>, at: Time)

  datatype Outcome = Resolved(fn: Improver) | NotConfigured | NotFound | QueryFailed | Undecryptable

  predicate Hit(c: Cache, call: Call) {
    c.fn.Some? && call.checkedAt - c.at < CREDENTIAL_CACHE_TTL
  }

  function Resolve(w: World, c: Cache, call: Call): (Cache, Outcome) {
    if !w.configured then (c, NotConfigured)
    else if Hit(c, call) then (c, Resolved(c.fn.value))
    else if !call.queried then (c, QueryFailed)
    else match w.stored(call.readAt)
      case None => (c, NotFound)
      case Some(enc) =>
        match w.decrypt(enc)
        case None => (c, Undecryptable)
        case Some(key) =>
          if c.key == key && c.fn.Some? then (c.(at := call.stampedAt), Resolved(c.fn.value))
          else (Cache(key, Some(Improver(key, call.serial)), call.stampedAt), Resolved(Improver(key, call.serial)))
  }

  /** PromptHandlers; the mutex makes each call atomic. */
  class PromptHandlers {
    var cachedKey: Key
    var cachedFn: Option<Improver>
    var cachedAt: Time

    constructor ()
      ensures Cached() == Empty()
    {
      cachedKey, cachedFn, cachedAt := Key(""), None, 0;
    }

    function Cached(): Cache
      reads this
    {
      Cache(cachedKey, cachedFn, cachedAt)
    }

    method ResolveImprover(w: World, call: Call) returns (outcome: Outcome)
      modifies this
      ensures (Cached(), outcome) == Resolve(w, old(Cached()), call)
    {
      if !w.configured {
        return NotConfigured;
      }
      if cachedFn.Some? && call.checkedAt - cachedAt < CREDENTIAL_CACHE_TTL {
        return Resolved(cachedFn.value);
      }
      if !call.queried {
        return QueryFailed;
      }
      var valueEnc := w.stored(call.readAt);
      if valueEnc.None? {
        return NotFound;
      }
      var apiKey := w.decrypt(valueEnc.value);
      if apiKey.None? {
        return Undecryptable;
      }
      if cachedKey == apiKey.value && cachedFn.Some? {
        cachedAt := call.stampedAt;
        return Resolved(cachedFn.value);
      }
      var fn := Improver(apiKey.value, call.serial);
      cachedKey, cachedFn, cachedAt := apiKey.value, Some(fn), call.stampedAt;
      return Resolved(fn);
    }
  }

  function Empty(): Cache {
    Cache(Key(""), None, 0)
  }

  // --- histories ----------------------------------------------------------------------------

  /** The cache after these calls. */
  function After(w: World, calls: seq<Call>): Cache {
    if calls == [] then Empty() else Resolve(w, After(w, calls[..|calls| - 1]), calls[|calls| - 1]).0
  }

  function OutcomeAt(w: World, calls: seq<Call>, i: nat): Outcome
    requires i < |calls|
  {
    Resolve(w, After(w, calls[..i]), calls[i]).1
  }

  /** Calls follow one another under the mutex, and time does not go back. */
  ghost predicate InTime(calls: seq<Call>) {
    && (forall i :: 0 <= i < |calls| ==> calls[i].checkedAt <= calls[i].readAt <= calls[i].stampedAt)
    && (forall i, j {:trigger calls[i], calls[j]} :: 0 <= i < j < |calls| ==> calls[i].stampedAt <= calls[j].checkedAt)
  }

  /** The i-th call missed the cache and got a key from the database. */
  predicate Reads(w: World, calls: seq<Call>, i: nat)
    requires i < |calls|
  {
    w.configured && !Hit(After(w, calls[..i]), calls[i]) && calls[i].queried && KeyAt(w, calls[i].readAt).Some?
  }

  /** The cache stems from the last successful read. */
  ghost predicate FromLastRead(w: World, calls: seq<Call>, c: Cache) {
    if c.fn.None? then
      forall i :: 0 <= i < |calls| ==> !Reads(w, calls, i)
    else
      exists i :: 0 <= i < |calls| && StemsFrom(w, calls, c, i)
  }

  ghost predicate StemsFrom(w: World, calls: seq<Call>, c: Cache, i: nat)
    requires i < |calls| && c.fn.Some?
  {
    && Reads(w, calls, i)
    && KeyAt(w, calls[i].readAt) == Some(c.fn.value.key)
    && c.key == c.fn.value.key
    && c.at == calls[i].stampedAt
    && forall j :: i < j < |calls| ==> !Reads(w, calls, j)
  }

  lemma ReadsPrefix(w: World, calls: seq<Call>, n: nat, i: nat)
    requires i < n <= |calls|
    ensures Reads(w, calls[..n], i) <==> Reads(w, calls, i)
  {
    assert calls[..n][..i] == calls[..i];
  }

  lemma {:induction false} CacheFromLastRead(w: World, calls: seq<Call>)
    ensures FromLastRead(w, calls, After(w, calls))
  {
    if calls != [] {
      var n := |calls| - 1;
      var c, d := After(w, calls[..n]), After(w, calls);
      CacheFromLastRead(w, calls[..n]);
      forall i | 0 <= i < n ensures Reads(w, calls[..n], i) <==> Reads(w, calls, i) {
        ReadsPrefix(w, calls, n, i);
      }
      if Reads(w, calls, n) {
        assert c.fn.Some? ==> c.key == c.fn.value.key;
        assert StemsFrom(w, calls, d, n);
      } else {
        assert d == c;
        if c.fn.Some? {
          var i :| 0 <= i < n && StemsFrom(w, calls[..n], c, i);
          assert StemsFrom(w, calls, d, i);
        }
      }
    }
  }

  /** An improver is only ever handed out if its key was the stored key at some read, by this call
      or by an earlier one stamped less than the TTL before this call looked. */
  lemma ResolvedKeyIsRecent(w: World, calls: seq<Call>, i: nat) returns (j: nat)
    requires i < |calls| && OutcomeAt(w, calls, i).Resolved?
    ensures j <= i && Reads(w, calls, j)
    ensures KeyAt(w, calls[j].readAt) == Some(OutcomeAt(w, calls, i).fn.key)
    ensures j < i ==> calls[i].checkedAt - calls[j].stampedAt < CREDENTIAL_CACHE_TTL
  {
    var c := After(w, calls[..i]);
    CacheFromLastRead(w, calls[..i]);
    if Hit(c, calls[i]) {
      j :| 0 <= j < i && StemsFrom(w, calls[..i], c, j);
      ReadsPrefix(w, calls, i, j);
    } else {
      j := i;
    }
  }

  /** The key was stored at some time before the call ended and less than the TTL before it looked. */
  ghost predicate StoredRecently(w: World, key: Key, call: Call) {
    exists t {:trigger KeyAt(w, t)} :: call.checkedAt - CREDENTIAL_CACHE_TTL < t <= call.readAt &&
        KeyAt(w, t) == Some(key)
  }

  /** If reading the row and stamping the cache are one instant, the key handed out was the stored
      key less than the TTL before the call looked, or is the stored key now. */
  lemma KeyStoredWithinTTL(w: World, calls: seq<Call>, i: nat)
    requires InTime(calls) && i < |calls| && OutcomeAt(w, calls, i).Resolved?
    requires forall k :: 0 <= k < |calls| ==> calls[k].readAt == calls[k].stampedAt
    ensures StoredRecently(w, OutcomeAt(w, calls, i).fn.key, calls[i])
  {
    var j := ResolvedKeyIsRecent(w, calls, i);
    assert calls[j].readAt <= calls[i].readAt;
  }

  /** Successful reads of the database are at least the TTL apart. */
  lemma ReadsApart(w: World, calls: seq<Call>, i: nat, j: nat)
    requires InTime(calls) && i < j < |calls| && Reads(w, calls, i) && Reads(w, calls, j)
    ensures calls[j].checkedAt - calls[i].stampedAt >= CREDENTIAL_CACHE_TTL
    ensures calls[j].readAt - calls[i].readAt >= CREDENTIAL_CACHE_TTL
  {
    CacheFromLastRead(w, calls[..j]);
    ReadsPrefix(w, calls, j, i);
    var c := After(w, calls[..j]);
    var k :| 0 <= k < j && StemsFrom(w, calls[..j], c, k);
    assert i <= k;
    assert i < k ==> calls[i].stampedAt <= calls[k].checkedAt;
  }

  /** When each outcome happens, exactly: a client less than a minute old is handed out without a look at
      the database, and otherwise the first thing that is wrong is reported. */
  lemma OutcomeExactly(w: World, calls: seq<Call>, i: nat)
    requires i < |calls|
    ensures var c, call, outcome := After(w, calls[..i]), calls[i], OutcomeAt(w, calls, i);
      var recent := c.fn.Some? && call.checkedAt - c.at < 60;
      var row := w.stored(call.readAt);
      && (outcome == NotConfigured <==> !w.configured)
      && (outcome == QueryFailed <==> w.configured && !recent && !call.queried)
      && (outcome == NotFound <==> w.configured && !recent && call.queried && row.None?)
      && (outcome == Undecryptable <==>
            w.configured && !recent && call.queried && row.Some? && w.decrypt(row.value).None?)
      && (w.configured && recent ==> outcome == Resolved(c.fn.value))
  {
  }

  /** A call changes the cache exactly when it reads a key: errors and hits leave it alone. */
  lemma CacheChangesExactly(w: World, calls: seq<Call>, i: nat)
    requires InTime(calls) && i < |calls|
    ensures After(w, calls[..i + 1]) != After(w, calls[..i]) <==> Reads(w, calls, i)
    ensures !OutcomeAt(w, calls, i).Resolved? ==> After(w, calls[..i + 1]) == After(w, calls[..i])
  {
    assert calls[..i + 1][..i] == calls[..i];
  }

  /** A new client is made exactly when the key read differs from the last one read: two
      successive reads of one key hand out one client. */
  lemma ClientKeptExactly(w: World, calls: seq<Call>, i: nat)
    requires i < |calls| && Reads(w, calls, i)
    requires After(w, calls[..i]).fn.Some?
    ensures var known, key := After(w, calls[..i]).fn.value, KeyAt(w, calls[i].readAt).value;
      OutcomeAt(w, calls, i) == Resolved(if key == known.key then known else Improver(key, calls[i].serial))
  {
    CacheFromLastRead(w, calls[..i]);
  }
}
