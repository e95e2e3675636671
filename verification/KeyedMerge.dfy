/** The ordered override-merge that MergeProfiles runs three times
    (internal/model/agent_profile.go:133-183): a loop over an index map, and what it means. */
module KeyedMerge {
  import opened WorkflowModel
  import opened Sequences

  /** The last position of key k, which is where the index map points. */
  function LastAt<T, K(==)>(key: T -> K, s: seq<T>, k: K): (i: Option<nat>)
    ensures i.None? <==> forall j :: 0 <= j < |s| ==> key(s[j]) != k
    ensures i.Some? ==> i.value < |s| && key(s[i.value]) == k && forall j :: i.value < j < |s| ==> key(s[j]) != k
  {
    if s == [] then None
    else if key(s[|s| - 1]) == k then Some(|s| - 1)
    else LastAt(key, s[..|s| - 1], k)
  }

  function LastEntry<T, K(==)>(key: T -> K, s: seq<T>, k: K): Option<T> {
    match LastAt(key, s, k) case None => None case Some(i) => Some(s[i])
  }

  /** One workflow entry: it replaces the entry the index map points at, or is appended. */
  function Put<T, K(==)>(key: T -> K, s: seq<T>, x: T): seq<T> {
    match LastAt(key, s, key(x)) case None => s + [x] case Some(i) => s[i := x]
  }

  function Override<T, K(==)>(key: T -> K, baseline: seq<T>, entries: seq<T>): seq<T> {
    if entries == [] then baseline
    else Put(key, Override(key, baseline, entries[..|entries| - 1]), entries[|entries| - 1])
  }

  function Keys<T, K>(key: T -> K, s: seq<T>): (r: seq<K>)
    ensures |r| == |s|
  {
    seq(|s|, i requires 0 <= i < |s| => key(s[i]))
  }

  /** The elements of s outside seen, each at its first occurrence only. */
  function NewOnes<K(==)>(seen: seq<K>, s: seq<K>): seq<K> {
    if s == [] then [] else
    var rest, x := NewOnes(seen, s[..|s| - 1]), s[|s| - 1];
    if x in seen || x in rest then rest else rest + [x]
  }

  /** The index map of the loop. */
  ghost predicate IndexesLast<T, K(!new)>(key: T -> K, s: seq<T>, seen: map<K, nat>) {
    forall k :: (k in seen <==> LastAt(key, s, k).Some?) && (k in seen ==> LastAt(key, s, k) == Some(seen[k]))
  }

  lemma LastAtIs<T, K>(key: T -> K, s: seq<T>, k: K, i: nat)
    requires i < |s| && key(s[i]) == k && forall j :: i < j < |s| ==> key(s[j]) != k
    ensures LastAt(key, s, k) == Some(i)
  {
  }

  lemma LastAtAppend<T, K>(key: T -> K, s: seq<T>, x: T, k: K)
    ensures LastAt(key, s + [x], k) == if key(x) == k then Some(|s|) else LastAt(key, s, k)
  {
    assert (s + [x])[..|s|] == s;
  }

  lemma LastAtUpdate<T, K>(key: T -> K, s: seq<T>, x: T, i: nat, k: K)
    requires i < |s| && key(s[i]) == key(x)
    ensures LastAt(key, s[i := x], k) == LastAt(key, s, k)
  {
    match LastAt(key, s, k)
    case None =>
    case Some(j) => LastAtIs(key, s[i := x], k, j);
  }

  lemma IndexAppend<T, K(!new)>(key: T -> K, s: seq<T>, seen: map<K, nat>, x: T)
    requires IndexesLast(key, s, seen)
    ensures IndexesLast(key, s + [x], seen[key(x) := |s|])
  {
    forall k ensures LastAt(key, s + [x], k) == if key(x) == k then Some(|s|) else LastAt(key, s, k) {
      LastAtAppend(key, s, x, k);
    }
  }

  lemma IndexUpdate<T, K(!new)>(key: T -> K, s: seq<T>, seen: map<K, nat>, x: T)
    requires IndexesLast(key, s, seen) && key(x) in seen
    ensures seen[key(x)] < |s| && IndexesLast(key, s[seen[key(x)] := x], seen)
  {
    assert LastAt(key, s, key(x)) == Some(seen[key(x)]);
    forall k ensures LastAt(key, s[seen[key(x)] := x], k) == LastAt(key, s, k) {
      LastAtUpdate(key, s, x, seen[key(x)], k);
    }
  }

  /** The two loops over one list of a profile. */
  method MergeByKey<T, K(==, !new)>(key: T -> K, baseline: seq<T>, entries: seq<T>) returns (result: seq<T>)
    ensures result == Override(key, baseline, entries)
  {
    result := [];
    var seen: map<K, nat> := map[];
    for n := 0 to |baseline|
      invariant result == baseline[..n] && IndexesLast(key, result, seen)
    {
      var p := baseline[n];
      IndexAppend(key, result, seen, p);
      seen := seen[key(p) := |result|];
      result := result + [p];
    }
    for n := 0 to |entries|
      invariant result == Override(key, baseline, entries[..n]) && IndexesLast(key, result, seen)
    {
      var p := entries[n];
      assert entries[..n + 1][..n] == entries[..n];
      if key(p) in seen {
        IndexUpdate(key, result, seen, p);
        result := result[seen[key(p)] := p];
      } else {
        IndexAppend(key, result, seen, p);
        seen := seen[key(p) := |result|];
        result := result + [p];
      }
    }
    assert entries[..|entries|] == entries;
  }

  // --- what the merge means -----------------------------------------------------------------

  lemma PutEntry<T, K>(key: T -> K, s: seq<T>, x: T, k: K)
    ensures LastEntry(key, Put(key, s, x), k) == if key(x) == k then Some(x) else LastEntry(key, s, k)
  {
    match LastAt(key, s, key(x))
    case None => LastAtAppend(key, s, x, k);
    case Some(i) => LastAtUpdate(key, s, x, i, k);
  }

  lemma EntrySnoc<T, K>(key: T -> K, s: seq<T>, x: T, k: K)
    ensures LastEntry(key, s + [x], k) == if key(x) == k then Some(x) else LastEntry(key, s, k)
  {
    LastAtAppend(key, s, x, k);
  }

  /** Whatever the inputs, looking a key up in the merge finds the last workflow entry with that
      key, and failing that the last baseline entry. */
  lemma {:induction false} MergedEntry<T, K>(key: T -> K, baseline: seq<T>, entries: seq<T>, k: K)
    ensures LastEntry(key, Override(key, baseline, entries), k) == LastEntry(key, baseline + entries, k)
  {
    if entries == [] {
      assert baseline + entries == baseline;
    } else {
      var init, x := entries[..|entries| - 1], entries[|entries| - 1];
      assert baseline + entries == (baseline + init) + [x];
      MergedEntry(key, baseline, init, k);
      PutEntry(key, Override(key, baseline, init), x, k);
      EntrySnoc(key, baseline + init, x, k);
    }
  }

  lemma PutKeys<T, K>(key: T -> K, s: seq<T>, x: T)
    ensures Keys(key, Put(key, s, x)) == if key(x) in Keys(key, s) then Keys(key, s) else Keys(key, s) + [key(x)]
  {
    if LastAt(key, s, key(x)).Some? {
      assert Keys(key, s)[LastAt(key, s, key(x)).value] == key(x);
    }
  }

  /** The keys of the merge are the baseline's in the baseline's order, then the new ones in the
      order the workflow profile first has them. */
  lemma {:induction false} MergedKeys<T, K>(key: T -> K, baseline: seq<T>, entries: seq<T>)
    ensures Keys(key, Override(key, baseline, entries)) == Keys(key, baseline) +
        NewOnes(Keys(key, baseline), Keys(key, entries))
  {
    if entries != [] {
      var init, x := entries[..|entries| - 1], entries[|entries| - 1];
      MergedKeys(key, baseline, init);
      PutKeys(key, Override(key, baseline, init), x);
      assert Keys(key, entries)[..|entries| - 1] == Keys(key, init);
    }
  }

  lemma {:induction false} NewOnesFresh<K>(seen: seq<K>, s: seq<K>)
    ensures Distinct(NewOnes(seen, s))
    ensures forall k :: k in NewOnes(seen, s) <==> k in s && k !in seen
  {
    if s != [] {
      NewOnesFresh(seen, s[..|s| - 1]);
      assert s == s[..|s| - 1] + [s[|s| - 1]];
    }
  }

  /** The merge has unique keys exactly when the baseline does: nothing deduplicates a baseline,
      and the workflow profile never adds a duplicate. */
  lemma MergedUniqueExactly<T, K>(key: T -> K, baseline: seq<T>, entries: seq<T>)
    ensures Distinct(Keys(key, Override(key, baseline, entries))) <==> Distinct(Keys(key, baseline))
  {
    var b, r := Keys(key, baseline), Keys(key, Override(key, baseline, entries));
    MergedKeys(key, baseline, entries);
    NewOnesFresh(b, Keys(key, entries));
    if Distinct(r) {
      forall i, j | 0 <= i < j < |b| ensures b[i] != b[j] {
        assert r[i] != r[j];
      }
    }
    if Distinct(b) {
      var added := NewOnes(b, Keys(key, entries));
      forall i, j | 0 <= i < j < |r| ensures r[i] != r[j] {
        if i < |b| <= j {
          assert added[j - |b|] in added;
        }
      }
    }
  }

  lemma PutAt<T, K>(key: T -> K, s: seq<T>, x: T, i: nat)
    requires i < |s|
    ensures |s| <= |Put(key, s, x)|
    ensures Put(key, s, x)[i] == if LastAt(key, s, key(x)) == Some(i) then x else s[i]
  {
  }

  /** Position by position: a baseline entry stays in its place, and is replaced only if it is
      the last one with its key and the workflow profile has an entry for that key. */
  lemma {:induction false} MergedAt<T, K>(key: T -> K, baseline: seq<T>, entries: seq<T>, i: nat)
    requires i < |baseline|
    ensures |baseline| <= |Override(key, baseline, entries)|
    ensures var k := key(baseline[i]);
      && LastAt(key, Override(key, baseline, entries), k).Some?
      && (LastAt(key, Override(key, baseline, entries), k) == Some(i) <==> LastAt(key, baseline, k) == Some(i))
      && Override(key, baseline, entries)[i] ==
           (if LastAt(key, baseline, k) == Some(i) && LastEntry(key, entries, k).Some?
               then LastEntry(key, entries, k).value
            else baseline[i])
  {
    if entries != [] {
      var init, x := entries[..|entries| - 1], entries[|entries| - 1];
      var s, k := Override(key, baseline, init), key(baseline[i]);
      MergedAt(key, baseline, init, i);
      PutAt(key, s, x, i);
      assert entries == init + [x];
      EntrySnoc(key, init, x, k);
      match LastAt(key, s, key(x))
      case None => LastAtAppend(key, s, x, k);
      case Some(j) => LastAtUpdate(key, s, x, j, k);
    }
  }

  // --- laws ---------------------------------------------------------------------------------

  lemma {:induction false} OverrideConcat<T, K>(key: T -> K, s: seq<T>, x: seq<T>, y: seq<T>)
    ensures Override(key, s, x + y) == Override(key, Override(key, s, x), y)
    decreases |y|
  {
    if y == [] {
      assert x + y == x;
    } else {
      var init := y[..|y| - 1];
      assert (x + y)[..|x + y| - 1] == x + init;
      OverrideConcat(key, s, x, init);
    }
  }

  lemma PutAgain<T, K>(key: T -> K, s: seq<T>, y: T, x: T)
    requires key(y) == key(x)
    ensures Put(key, Put(key, s, y), x) == Put(key, s, x)
  {
    match LastAt(key, s, key(x))
    case None => LastAtAppend(key, s, y, key(x));
    case Some(i) => LastAtUpdate(key, s, y, i, key(x));
  }

  lemma PutCommute<T, K>(key: T -> K, s: seq<T>, x: T, z: T)
    requires key(x) != key(z) && LastAt(key, s, key(x)).Some?
    ensures Put(key, Put(key, s, z), x) == Put(key, Put(key, s, x), z)
  {
    LastAtUpdate(key, s, x, LastAt(key, s, key(x)).value, key(z));
    match LastAt(key, s, key(z))
    case None => LastAtAppend(key, s, z, key(x));
    case Some(i) => LastAtUpdate(key, s, z, i, key(x));
  }

  lemma PutKeeps<T, K>(key: T -> K, s: seq<T>, x: T, k: K)
    requires key(x) == k || LastAt(key, s, k).Some?
    ensures LastAt(key, Put(key, s, x), k).Some?
  {
    PutEntry(key, s, x, k);
  }

  lemma {:induction false} PutPast<T, K>(key: T -> K, s: seq<T>, x: T, q: seq<T>)
    requires LastAt(key, s, key(x)).Some? && LastAt(key, q, key(x)).None?
    ensures Put(key, Override(key, s, q), x) == Override(key, Put(key, s, x), q)
    ensures LastAt(key, Override(key, s, q), key(x)).Some?
  {
    if q != [] {
      var init, z := q[..|q| - 1], q[|q| - 1];
      PutPast(key, s, x, init);
      PutCommute(key, Override(key, s, init), x, z);
      PutKeeps(key, Override(key, s, init), z, key(x));
    }
  }

  /** Overriding by an overridden list is overriding twice, for one entry. */
  lemma OverrideByPut<T, K>(key: T -> K, a: seq<T>, b: seq<T>, x: T)
    ensures Override(key, a, Put(key, b, x)) == Put(key, Override(key, a, b), x)
  {
    match LastAt(key, b, key(x))
    case None =>
      assert (b + [x])[..|b|] == b;
    case Some(i) =>
      var p, y, q := b[..i], b[i], b[i + 1..];
      assert b == (p + [y]) + q && b[i := x] == (p + [x]) + q;
      var s := Override(key, a, p);
      OverrideConcat(key, a, p + [y], q);
      OverrideConcat(key, a, p + [x], q);
      assert (p + [y])[..i] == p && (p + [x])[..i] == p;
      PutKeeps(key, s, y, key(x));
      PutPast(key, Put(key, s, y), x, q);
      PutAgain(key, s, y, x);
  }

  /** Merging is associative, whatever the three lists, with or without duplicate keys. */
  lemma {:induction false} OverrideAssociative<T, K>(key: T -> K, a: seq<T>, b: seq<T>, c: seq<T>)
    ensures Override(key, Override(key, a, b), c) == Override(key, a, Override(key, b, c))
    decreases |c|
  {
    if c != [] {
      var init, x := c[..|c| - 1], c[|c| - 1];
      OverrideAssociative(key, a, b, init);
      OverrideByPut(key, a, Override(key, b, init), x);
    }
  }

  lemma {:induction false} NoneNew<K>(seen: seq<K>, s: seq<K>)
    requires forall i :: 0 <= i < |s| ==> s[i] in seen
    ensures NewOnes(seen, s) == []
  {
    if s != [] {
      NoneNew(seen, s[..|s| - 1]);
    }
  }

  /** Merging a list over itself changes nothing. */
  lemma OverrideSelf<T, K>(key: T -> K, s: seq<T>)
    ensures Override(key, s, s) == s
  {
    var r := Override(key, s, s);
    MergedKeys(key, s, s);
    NoneNew(Keys(key, s), Keys(key, s));
    assert |r| == |Keys(key, r)| == |s|;
    forall i | 0 <= i < |s| ensures r[i] == s[i] {
      MergedAt(key, s, s, i);
    }
  }

  /** Merging the same list again changes nothing. */
  lemma OverrideAgain<T, K>(key: T -> K, baseline: seq<T>, entries: seq<T>)
    ensures Override(key, Override(key, baseline, entries), entries) == Override(key, baseline, entries)
  {
    OverrideAssociative(key, baseline, entries, entries);
    OverrideSelf(key, entries);
  }

  lemma {:induction false} UniqueFromEmpty<T, K>(key: T -> K, s: seq<T>)
    requires Distinct(Keys(key, s))
    ensures Override(key, [], s) == s
  {
    if s != [] {
      var init, x := s[..|s| - 1], s[|s| - 1];
      forall i, j | 0 <= i < j < |init| ensures Keys(key, init)[i] != Keys(key, init)[j] {
        assert Keys(key, s)[i] != Keys(key, s)[j];
      }
      UniqueFromEmpty(key, init);
      forall j | 0 <= j < |init| ensures key(init[j]) != key(x) {
        assert Keys(key, s)[j] != Keys(key, s)[|init|];
      }
      assert LastAt(key, init, key(x)).None?;
    }
  }

  /** An absent baseline leaves the workflow's list as it is exactly when its keys are unique. */
  lemma EmptyBaselineExactly<T, K>(key: T -> K, s: seq<T>)
    ensures Override(key, [], s) == s <==> Distinct(Keys(key, s))
  {
    MergedUniqueExactly(key, [], s);
    if Distinct(Keys(key, s)) {
      UniqueFromEmpty(key, s);
    }
  }
}
