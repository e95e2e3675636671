/** The order of Go strings and sort.Strings / sort.Slice over it. */
module StringOrder {
  predicate Less(a: string, b: string) {
    b != [] && (a == [] || a[0] < b[0] || (a[0] == b[0] && Less(a[1..], b[1..])))
  }

  lemma {:induction false} LessIrreflexive(a: string)
    ensures !Less(a, a)
  {
    if a != [] { LessIrreflexive(a[1..]); }
  }

  lemma {:induction false} LessTransitive(a: string, b: string, c: string)
    requires Less(a, b) && Less(b, c)
    ensures Less(a, c)
  {
    if a != [] && a[0] == b[0] && b[0] == c[0] {
      LessTransitive(a[1..], b[1..], c[1..]);
    }
  }

  lemma {:induction false} LessTotal(a: string, b: string)
    ensures Less(a, b) || a == b || Less(b, a)
  {
    if a != [] && b != [] && a[0] == b[0] {
      LessTotal(a[1..], b[1..]);
      if a[1..] == b[1..] {
        assert a == [a[0]] + a[1..] && b == [b[0]] + b[1..];
      }
    }
  }

  ghost predicate Ascending<T>(s: seq<T>, key: T -> string) {
    forall i, j :: 0 <= i < j < |s| ==> Less(key(s[i]), key(s[j]))
  }

  /** sort.Slice by a key that no two elements share. */
  method SortByKey<T>(s: seq<T>, key: T -> string) returns (r: seq<T>)
    requires forall i, j :: 0 <= i < j < |s| ==> key(s[i]) != key(s[j])
    ensures |r| == |s| && Ascending(r, key)
    ensures forall x :: x in r <==> x in s
  {
    r := [];
    for n := 0 to |s|
      invariant |r| == n && Ascending(r, key)
      invariant forall x :: x in r <==> x in s[..n]
    {
      assert forall x :: x in s[..n + 1] <==> x in s[..n] || x == s[n];
      forall x | x in r ensures key(x) != key(s[n]) {
        var i :| 0 <= i < n && s[i] == x;
      }
      r := Insert(r, s[n], key);
    }
    assert s[..|s|] == s;
  }

  method Insert<T>(s: seq<T>, x: T, key: T -> string) returns (r: seq<T>)
    requires Ascending(s, key) && forall y :: y in s ==> key(y) != key(x)
    ensures |r| == |s| + 1 && Ascending(r, key)
    ensures forall y :: y in r <==> y in s || y == x
  {
    var k := 0;
    while k < |s| && Less(key(s[k]), key(x))
      invariant 0 <= k <= |s|
      invariant forall i :: 0 <= i < k ==> Less(key(s[i]), key(x))
    {
      k := k + 1;
    }
    forall i | k <= i < |s| ensures Less(key(x), key(s[i])) {
      LessTotal(key(s[k]), key(x));
      if k < i { LessTransitive(key(x), key(s[k]), key(s[i])); }
    }
    r := s[..k] + [x] + s[k..];
    forall y ensures y in r <==> y in s || y == x {
      assert s == s[..k] + s[k..];
    }
  }

  /** The order fixes the list: sorting forgets the order its input came in. */
  lemma {:induction false} AscendingUnique<T>(s: seq<T>, t: seq<T>, key: T -> string)
    requires Ascending(s, key) && Ascending(t, key)
    requires forall x :: x in s <==> x in t
    ensures s == t
    decreases |s|
  {
    assert t == [] || t[0] in t;
    if s != [] {
      assert s[0] in t;
      assert t[0] in s;
      var i :| 0 <= i < |t| && t[i] == s[0];
      var j :| 0 <= j < |s| && s[j] == t[0];
      if i > 0 && j > 0 {
        LessTransitive(key(s[0]), key(t[0]), key(s[0]));
        LessIrreflexive(key(s[0]));
      }
      HeadLeaves(s, key);
      HeadLeaves(t, key);
      AscendingUnique(s[1..], t[1..], key);
    }
  }

  lemma HeadLeaves<T>(s: seq<T>, key: T -> string)
    requires s != [] && Ascending(s, key)
    ensures forall x :: x in s[1..] <==> x in s && x != s[0]
  {
    forall x | x in s[1..] ensures x in s && x != s[0] {
      var i :| 1 <= i < |s| && s[i] == x;
      LessIrreflexive(key(x));
    }
  }
}
