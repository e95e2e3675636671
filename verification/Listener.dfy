/** The in-process fan-out of run events (internal/server/notify/listener.go:45-77). Each method
    is atomic, as the mutex makes all but fanOut. */
module Listener {
  import opened Sequences

  /** make(chan struct{}, 1) */
  class Channel {
    var full: bool

    constructor ()
      ensures !full
    {
      full := false;
    }
  }

  /** The position of the first occurrence, or the length. */
  function IndexOf<T(==)>(s: seq<T>, x: T): (i: nat)
    ensures i <= |s| && x !in s[..i] && (i < |s| ==> s[i] == x)
  {
    if s == [] || s[0] == x then 0 else
    var j := IndexOf(s[1..], x);
    assert s[..j + 1] == [s[0]] + s[1..][..j];
    j + 1
  }

  lemma {:induction false} IndexIs<T>(s: seq<T>, x: T, i: nat)
    requires i < |s| && s[i] == x && x !in s[..i]
    ensures IndexOf(s, x) == i
  {
    if i > 0 {
      assert s[..i] == [s[0]] + s[1..][..i - 1];
      IndexIs(s[1..], x, i - 1);
    }
  }

  function Without<T(==)>(s: seq<T>, x: T): seq<T> {
    var i := IndexOf(s, x);
    if i < |s| then s[..i] + s[i + 1..] else s
  }

  lemma WithoutRemoves<T>(s: seq<T>, x: T)
    requires Distinct(s)
    ensures forall y :: y in Without(s, x) <==> y in s && y != x
  {
    var i := IndexOf(s, x);
    if i < |s| {
      assert s == s[..i] + [x] + s[i + 1..];
      assert x !in s[i + 1..];
    }
  }

  /** R is the type of run IDs. */
  class Listener<R(==, !new)> {
    var subs: map<R, seq<Channel>>

    constructor ()
      ensures subs == map[]
    {
      subs := map[];
    }

    function Subscribers(runId: R): seq<Channel>
      reads this
    {
      if runId in subs then subs[runId] else []
    }

    /** No channel is registered twice. */
    ghost predicate Valid()
      reads this
    {
      && (forall r :: r in subs ==> Distinct(subs[r]))
      && (forall r, q, c {:trigger c in subs[r], c in subs[q]} :: r in subs && q in subs && r != q && c in subs[r] ==>
          c !in subs[q])
    }

    method Subscribe(runId: R) returns (ch: Channel)
      requires Valid()
      modifies this
      ensures Valid() && fresh(ch) && !ch.full
      ensures Subscribers(runId) == old(Subscribers(runId)) + [ch]
      ensures forall r :: r != runId ==> Subscribers(r) == old(Subscribers(r))
    {
      ch := new Channel();
      subs := subs[runId := Subscribers(runId) + [ch]];
    }

    /** The channel gets no more signals, and nobody else's registration changes. */
    method Unsubscribe(runId: R, ch: Channel)
      requires Valid()
      modifies this
      ensures Valid() && ch !in Subscribers(runId)
      ensures Subscribers(runId) == old(Without(Subscribers(runId), ch))
      ensures forall c :: c != ch ==> (c in Subscribers(runId) <==> c in old(Subscribers(runId)))
      ensures forall r :: r != runId ==> Subscribers(r) == old(Subscribers(r))
    {
      var s := Subscribers(runId);
      WithoutRemoves(s, ch);
      for i := 0 to |s|
        invariant subs == old(subs) && ch !in s[..i]
      {
        if s[i] == ch {
          IndexIs(s, ch, i);
          var kept := s[..i] + s[i + 1..];
          assert kept == Without(s, ch);
          assert Distinct(kept);
          subs := subs[runId := kept];
          assert Subscribers(runId) == kept;
          return;
        }
      }
    }

    /** Never blocks; every subscriber of the run ends up with a signal to receive, whether or not
        it had one already, and no other channel changes. */
    method FanOut(runId: R)
      modifies Subscribers(runId)
      ensures forall c :: c in Subscribers(runId) ==> c.full
    {
      var s := Subscribers(runId);
      for i := 0 to |s|
        invariant forall j :: 0 <= j < i ==> s[j].full
      {
        if !s[i].full {
          s[i].full := true;
        }
      }
    }
  }
}
