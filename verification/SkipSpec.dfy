/** What skipDownstream must leave behind (internal/workflow/dag.go:891-907), as relations
    between the pending and outputs maps before and after: over any kind of node, pending
    entry and result, with mark(x, c) the result of a step x skipped because of c. */
module SkipSpec {
  import opened DependencyGraph

  /** The dependencies of the steps in p only. */
  ghost function Within<N(!new)>(g: Graph<N>, p: set<N>): Graph<N> {
    map id | id in g && id in p :: g[id]
  }

  /** x is pending and depends on f through pending steps. */
  ghost predicate Downstream<N(!new)>(g: Graph<N>, p: set<N>, f: N, x: N) {
    x in p && Upstream(Within(g, p), x, f)
  }

  /** Some pending entries have been given results; nothing else has changed. */
  ghost predicate Drops<K, D, O>(p0: map<K, D>, o0: map<K, O>, p1: map<K, D>, o1: map<K, O>) {
    && p1.Keys <= p0.Keys && (forall x :: x in p1 ==> p1[x] == p0[x])
    && o1.Keys == o0.Keys + (p0.Keys - p1.Keys)
    && (forall x :: x in o0 && x !in p0.Keys - p1.Keys ==> o1[x] == o0[x])
  }

  lemma DropsCompose<K, D, O>(s: K, out: O, p0: map<K, D>, o0: map<K, O>, p1: map<K, D>, o1: map<K, O>, p2: map<K, D>,
                              o2: map<K, O>)
    requires Drops(p0, o0, p1, o1) && s in p1 && p0.Keys !! o0.Keys
    requires Drops(p1 - {s}, o1[s := out], p2, o2)
    ensures Drops(p0, o0, p2, o2)
    ensures s !in p2 && o2[s] == out
    ensures forall x :: x in p0.Keys - p1.Keys ==> x in o1 && x in o2 && o2[x] == o1[x]
  {
    assert (p1 - {s}).Keys == p1.Keys - {s};
    assert p0.Keys - p2.Keys == (p0.Keys - p1.Keys) + {s} + ((p1.Keys - {s}) - p2.Keys);
  }

  /** Entries dropped from a larger map pa, all of them from its part p1. */
  lemma DropsFurther<K, D, O>(p0: map<K, D>, o0: map<K, O>, p1: map<K, D>, o1: map<K, O>,
                              pa: map<K, D>, pb: map<K, D>, p2: map<K, D>, o2: map<K, O>)
    requires Drops(p0, o0, p1, o1) && p0.Keys !! o0.Keys && Drops(pa, o1, pb, o2)
    requires p1.Keys <= pa.Keys && pa.Keys - pb.Keys <= p1.Keys
    requires p2.Keys == p1.Keys - (pa.Keys - pb.Keys) && forall x :: x in p2 ==> p2[x] == p1[x]
    ensures Drops(p0, o0, p2, o2)
    ensures p0.Keys - p2.Keys == (p0.Keys - p1.Keys) + (pa.Keys - pb.Keys)
    ensures forall x :: x in p0.Keys - p1.Keys ==> x in o1 && x in o2 && o2[x] == o1[x]
  {
    assert p0.Keys - p2.Keys == (p0.Keys - p1.Keys) + (pa.Keys - pb.Keys);
  }

  /** The maps after some of f's downstream has been skipped: the rest is untouched, and each
      skipped step says which failed or skipped dependency it was skipped for. */
  ghost predicate Skips<N(!new), D, O>(mark: (N, N) -> O, g: Graph<N>, f: N, p0: map<N, D>, o0: map<N, O>,
                                       p1: map<N, D>, o1: map<N, O>) {
    var gone := p0.Keys - p1.Keys;
    && Drops(p0, o0, p1, o1)
    && (forall x :: x in gone ==> Downstream(g, p0.Keys, f, x))
    && (forall x :: x in gone ==> SkippedFor(mark, g, gone + {f}, x, o1))
  }

  ghost predicate SkippedFor<N(!new), O>(mark: (N, N) -> O, g: Graph<N>, causes: set<N>, x: N, o: map<N, O>) {
    x in o && exists c :: c in causes && Dep(g, x, c) && o[x] == mark(x, c)
  }

  /** No step still pending depends on any of these. */
  ghost predicate Clear<N(!new)>(g: Graph<N>, p: set<N>, causes: set<N>) {
    forall x, c :: x in p && c in causes ==> !Dep(g, x, c)
  }

  lemma {:induction false} WithinWalk<N(!new)>(g: Graph<N>, p: set<N>, q: set<N>, w: seq<N>)
    requires IsWalk(Within(g, p), w)
    requires forall i :: 0 <= i < |w| - 1 ==> w[i] in q
    ensures IsWalk(Within(g, q), w)
  {
    forall i, j | 0 <= i && j == i + 1 < |w| ensures Dep(Within(g, q), w[i], w[j]) {
      assert Dep(Within(g, p), w[i], w[j]);
    }
  }

  lemma WalkSources<N(!new)>(g: Graph<N>, p: set<N>, w: seq<N>)
    requires IsWalk(Within(g, p), w)
    ensures forall i :: 0 <= i < |w| - 1 ==> w[i] in p && w[i] in g
  {
    forall i | 0 <= i < |w| - 1 ensures w[i] in p && w[i] in g {
      assert Dep(Within(g, p), w[i], w[i + 1]);
    }
  }

  lemma DownstreamGrows<N(!new)>(g: Graph<N>, p: set<N>, q: set<N>, f: N, x: N)
    requires p <= q && Downstream(g, p, f, x)
    ensures Downstream(g, q, f, x)
  {
    var w :| Connects(Within(g, p), w, x, f);
    WalkSources(g, p, w);
    WithinWalk(g, p, q, w);
    assert Connects(Within(g, q), w, x, f);
  }

  /** Skipping s because it depends on f, and then everything downstream of s. */
  lemma SkipsCompose<N(!new), D, O>(mark: (N, N) -> O, g: Graph<N>, f: N, s: N, p0: map<N, D>, o0: map<N, O>,
                                    p1: map<N, D>, o1: map<N, O>, p2: map<N, D>, o2: map<N, O>)
    requires Skips(mark, g, f, p0, o0, p1, o1)
    requires s in p1 && Dep(g, s, f)
    requires Skips(mark, g, s, p1 - {s}, o1[s := mark(s, f)], p2, o2)
    requires p0.Keys !! o0.Keys
    ensures Skips(mark, g, f, p0, o0, p2, o2)
  {
    var gone := p0.Keys - p2.Keys;
    var first := p0.Keys - p1.Keys;
    var rest := p1 - {s};
    assert rest.Keys == p1.Keys - {s};
    DropsCompose(s, mark(s, f), p0, o0, p1, o1, p2, o2);
    var second := rest.Keys - p2.Keys;
    assert gone == first + {s} + second;
    forall x | x in gone ensures Downstream(g, p0.Keys, f, x) {
      DownstreamVia(g, rest.Keys, p0.Keys, f, s, x);
    }
    forall x | x in gone ensures SkippedFor(mark, g, gone + {f}, x, o2) {
      SkippedForVia(mark, g, first, second, f, s, x, o1, o2);
    }
    hide Downstream, SkippedFor, Drops;
  }

  lemma DownstreamVia<N(!new)>(g: Graph<N>, p: set<N>, q: set<N>, f: N, s: N, x: N)
    requires p <= q && s in q && Dep(g, s, f)
    requires x == s || Downstream(g, p, s, x) || Downstream(g, q, f, x)
    ensures Downstream(g, q, f, x)
  {
    if !Downstream(g, q, f, x) {
      assert Dep(Within(g, q), s, f);
      UpstreamDep(Within(g, q), s, f);
      if x != s {
        DownstreamGrows(g, p, q, s, x);
        UpstreamTransitive(Within(g, q), x, s, f);
      }
    }
  }

  lemma SkippedForVia<N(!new), O>(mark: (N, N) -> O, g: Graph<N>, first: set<N>, second: set<N>, f: N, s: N, x: N,
                      o1: map<N, O>, o2: map<N, O>)
    requires Dep(g, s, f) && s in o2 && o2[s] == mark(s, f)
    requires x in first + {s} + second && (x == s ==> x !in first && x !in second)
    requires x in first ==> SkippedFor(mark, g, first + {f}, x, o1) && x in o2 && o2[x] == o1[x]
    requires x in second ==> SkippedFor(mark, g, second + {s}, x, o2)
    ensures SkippedFor(mark, g, first + {s} + second + {f}, x, o2)
  {
  }

  lemma {:induction false} ClearStopsWalks<N(!new)>(g: Graph<N>, p: set<N>, gone: set<N>, f: N, w: seq<N>)
    requires IsWalk(Within(g, p + gone), w) && |w| >= 2 && w[|w| - 1] == f
    requires Clear(g, p, gone + {f}) && f !in p
    ensures w[0] in gone
    decreases |w|
  {
    WalkTail(Within(g, p + gone), w);
    if |w| > 2 {
      ClearStopsWalks(g, p, gone, f, w[1..]);
    }
  }

  /** When nothing pending depends on f or on a skipped step any more, exactly the steps
      downstream of f have been skipped. */
  lemma SkipsExactly<N(!new), D, O>(mark: (N, N) -> O, g: Graph<N>, f: N, p0: map<N, D>, o0: map<N, O>, p1: map<N, D>,
                                    o1: map<N, O>)
    requires Skips(mark, g, f, p0, o0, p1, o1) && f !in p0
    requires Clear(g, p1.Keys, (p0.Keys - p1.Keys) + {f})
    ensures forall x :: x in p0 ==> (x !in p1 <==> Downstream(g, p0.Keys, f, x))
  {
    var gone := p0.Keys - p1.Keys;
    assert p0.Keys == p1.Keys + gone;
    forall x | x in p0 && Downstream(g, p0.Keys, f, x) ensures x !in p1 {
      var w :| Connects(Within(g, p0.Keys), w, x, f);
      ClearStopsWalks(g, p1.Keys, gone, f, w);
    }
  }

  // --- several failures in one wave ------------------------------------------------

  /** Everything downstream of any of the causes has been skipped, as far as it has been. */
  ghost predicate SkipsAll<N(!new), D, O>(mark: (N, N) -> O, g: Graph<N>, causes: set<N>, p0: map<N, D>,
                                          o0: map<N, O>, p1: map<N, D>, o1: map<N, O>) {
    var gone := p0.Keys - p1.Keys;
    && Drops(p0, o0, p1, o1)
    && (forall x :: x in gone ==> DownstreamOfAny(g, p0.Keys, causes, x))
    && (forall x :: x in gone ==> SkippedFor(mark, g, gone + causes, x, o1))
  }

  ghost predicate DownstreamOfAny<N(!new)>(g: Graph<N>, p: set<N>, causes: set<N>, x: N) {
    exists f :: f in causes && Downstream(g, p, f, x)
  }

  /** Recording the result of a step outside the skipped part. */
  lemma SkipsAllRecord<N(!new), D, O>(mark: (N, N) -> O, g: Graph<N>, causes: set<N>, p0: map<N, D>, o0: map<N, O>,
                                      p1: map<N, D>, o1: map<N, O>, id: N, out: O)
    requires SkipsAll(mark, g, causes, p0, o0, p1, o1) && id !in p0
    ensures SkipsAll(mark, g, causes, p0, o0[id := out], p1, o1[id := out])
  {
    var gone := p0.Keys - p1.Keys;
    forall x | x in gone ensures SkippedFor(mark, g, gone + causes, x, o1[id := out]) {
      assert SkippedFor(mark, g, gone + causes, x, o1);
    }
    hide DownstreamOfAny, SkippedFor;
  }

  /** Steps of the wave being collected depend only on steps that had results before it, so
      skipping downstream of one of them never reaches another. */
  lemma WaveUntouched<N(!new), D, O>(mark: (N, N) -> O, g: Graph<N>, done: set<N>, wave: set<N>, rest: set<N>, f: N,
                      pa: map<N, D>, oa: map<N, O>, pb: map<N, D>, ob: map<N, O>)
    requires Skips(mark, g, f, pa, oa, pb, ob)
    requires pa.Keys <= rest + wave && done !! pa.Keys && f !in done
    requires forall y, d :: y in wave && Dep(g, y, d) ==> d in done
    ensures (pa.Keys - pb.Keys) !! wave
    ensures forall x :: x in pa.Keys - pb.Keys ==> Downstream(g, rest, f, x)
  {
    forall x | x in pa.Keys - pb.Keys ensures x !in wave && Downstream(g, rest, f, x) {
      assert Downstream(g, pa.Keys, f, x);
      DownstreamAvoids(g, done, wave, rest, f, pa.Keys, x);
    }
  }

  lemma DownstreamAvoids<N(!new)>(g: Graph<N>, done: set<N>, wave: set<N>, rest: set<N>, f: N,
                         p: set<N>, x: N)
    requires Downstream(g, p, f, x)
    requires p <= rest + wave && done !! p && f !in done
    requires forall y, d :: y in wave && Dep(g, y, d) ==> d in done
    ensures x !in wave && Downstream(g, rest, f, x)
  {
    var w :| Connects(Within(g, p), w, x, f);
    WalkSources(g, p, w);
    forall i | 0 <= i < |w| - 1 ensures w[i] !in wave {
      assert Dep(Within(g, p), w[i], w[i + 1]);
      assert Dep(g, w[i], w[i + 1]);
      assert i + 1 < |w| - 1 ==> w[i + 1] in p;
    }
    forall i | 0 <= i < |w| - 1 ensures w[i] in rest {
      assert w[i] in p && w[i] !in wave;
    }
    WithinWalk(g, p, rest, w);
    assert w[0] == x;
    assert Connects(Within(g, rest), w, x, f);
  }

  /** One more failure f: what its skipping drops from the full pending map pa is dropped
      from the part rest that is not in the wave. */
  lemma SkipsAllAdd<N(!new), D, O>(mark: (N, N) -> O, g: Graph<N>, causes: set<N>, f: N, p0: map<N, D>, o0: map<N, O>,
                                   p1: map<N, D>, o1: map<N, O>,
                    pa: map<N, D>, pb: map<N, D>, p2: map<N, D>, o2: map<N, O>)
    requires SkipsAll(mark, g, causes, p0, o0, p1, o1) && p0.Keys !! o0.Keys
    requires Skips(mark, g, f, pa, o1, pb, o2)
    requires p1.Keys <= pa.Keys && p2.Keys == p1.Keys - (pa.Keys - pb.Keys) && (pa.Keys - pb.Keys) <= p1.Keys
    requires forall x :: x in p2 ==> p2[x] == p1[x]
    requires forall x :: x in pa.Keys - pb.Keys ==> Downstream(g, p0.Keys, f, x)
    ensures SkipsAll(mark, g, causes + {f}, p0, o0, p2, o2)
  {
    var first, second := p0.Keys - p1.Keys, pa.Keys - pb.Keys;
    DropsFurther(p0, o0, p1, o1, pa, pb, p2, o2);
    SkipsAllAddCore(mark, g, causes, f, p0.Keys, first, second, o1, o2);
    hide Downstream, DownstreamOfAny, SkippedFor, Drops;
    assert p0.Keys - p2.Keys == first + second;
  }

  lemma SkipsAllAddCore<N(!new), O>(mark: (N, N) -> O, g: Graph<N>, causes: set<N>, f: N, all: set<N>,
                        first: set<N>, second: set<N>, o1: map<N, O>, o2: map<N, O>)
    requires forall x :: x in first ==> DownstreamOfAny(g, all, causes, x) && SkippedFor(mark, g, first + causes, x, o1)
    requires forall x :: x in first ==> x in o1 && x in o2 && o2[x] == o1[x]
    requires forall x :: x in second ==> Downstream(g, all, f, x) && SkippedFor(mark, g, second + {f}, x, o2)
    ensures forall x :: x in first + second ==>
              DownstreamOfAny(g, all, causes + {f}, x) && SkippedFor(mark, g, (first + second) + (causes + {f}), x, o2)
  {
    hide Downstream, DownstreamOfAny, SkippedFor;
    assert first + causes + (second + {f}) == (first + second) + (causes + {f});
    forall x | x in first + second
      ensures DownstreamOfAny(g, all, causes + {f}, x) && SkippedFor(mark, g, (first + second) + (causes + {f}), x, o2)
    {
      DownstreamOfMore(g, all, causes, f, x);
      SkippedForMore(mark, g, first + causes, second + {f}, x, o1, o2);
    }
  }

  lemma DownstreamOfMore<N(!new)>(g: Graph<N>, p: set<N>, causes: set<N>, f: N, x: N)
    requires DownstreamOfAny(g, p, causes, x) || Downstream(g, p, f, x)
    ensures DownstreamOfAny(g, p, causes + {f}, x)
  {
  }

  lemma SkippedForMore<N(!new), O>(mark: (N, N) -> O, g: Graph<N>, c1: set<N>, c2: set<N>, x: N, o1: map<N, O>,
                                   o2: map<N, O>)
    requires (SkippedFor(mark, g, c1, x, o1) && x in o2 && o2[x] == o1[x]) || SkippedFor(mark, g, c2, x, o2)
    ensures SkippedFor(mark, g, c1 + c2, x, o2)
  {
  }

  /** When nothing pending depends on a cause or on a skipped step any more, exactly the steps
      downstream of some cause have been skipped. */
  lemma SkipsAllExactly<N(!new), D, O>(mark: (N, N) -> O, g: Graph<N>, causes: set<N>, p0: map<N, D>, o0: map<N, O>,
                                       p1: map<N, D>, o1: map<N, O>)
    requires SkipsAll(mark, g, causes, p0, o0, p1, o1) && causes !! p0.Keys
    requires Clear(g, p1.Keys, (p0.Keys - p1.Keys) + causes)
    ensures forall x :: x in p0 ==> (x !in p1 <==> DownstreamOfAny(g, p0.Keys, causes, x))
  {
    var gone := p0.Keys - p1.Keys;
    assert p0.Keys == p1.Keys + gone;
    forall x | x in p0 && DownstreamOfAny(g, p0.Keys, causes, x) ensures x !in p1 {
      var f :| f in causes && Downstream(g, p0.Keys, f, x);
      var w :| Connects(Within(g, p0.Keys), w, x, f);
      ClearStopsWalks(g, p1.Keys, gone, f, w);
    }
  }

  // --- collecting a wave --------------------------------------------------------------

  /** Collection of wave w, with later still to be recorded and causes failed so far. rest is
      what was pending outside the wave, base what the wave has recorded so far; done is what
      had results before it. */
  ghost predicate Collecting<N(!new), D, O>(mark: (N, N) -> O, g: Graph<N>, done: set<N>, w: set<N>, later: set<N>,
                                            causes: set<N>,
                                      rest: map<N, D>, base: map<N, O>, p: map<N, D>, o: map<N, O>) {
    && w !! done && rest.Keys !! w && rest.Keys !! done
    && later <= w && causes <= w - later
    && (forall y, d :: y in w && Dep(g, y, d) ==> d in done)
    && base.Keys == done + (w - later)
    && p.Keys == (p - w).Keys + later
    && SkipsAll(mark, g, causes, rest, base, p - w, o)
    && Clear(g, p.Keys, (rest.Keys - p.Keys) + causes)
  }

  lemma CollectStart<N(!new), D, O>(mark: (N, N) -> O, g: Graph<N>, done: set<N>, w: set<N>, p: map<N, D>, o: map<N, O>)
    requires o.Keys == done && p.Keys !! done && w <= p.Keys
    requires forall y, d :: y in w && Dep(g, y, d) ==> d in done
    ensures Collecting(mark, g, done, w, w, {}, p - w, o, p, o)
  {
  }

  lemma CollectingSets<N(!new), D, O>(mark: (N, N) -> O, g: Graph<N>, done: set<N>, w: set<N>, later: set<N>,
                                      causes: set<N>,
                                          rest: map<N, D>, base: map<N, O>, p: map<N, D>, o: map<N, O>)
    requires Collecting(mark, g, done, w, later, causes, rest, base, p, o)
    ensures p.Keys !! o.Keys && p.Keys * w == later && later <= w
  {
  }

  lemma CollectRecord<N(!new), D, O>(mark: (N, N) -> O, g: Graph<N>, done: set<N>, w: set<N>, later: set<N>,
                                     causes: set<N>,
                                     rest: map<N, D>, base: map<N, O>, p: map<N, D>, o: map<N, O>, id: N, out: O)
    requires Collecting(mark, g, done, w, later, causes, rest, base, p, o) && id in later
    ensures Collecting(mark, g, done, w, later - {id}, causes, rest, base[id := out], p - {id}, o[id := out])
  {
    SkipsAllRecord(mark, g, causes, rest, base, p - w, o, id, out);
    assert (p - {id}) - w == p - w;
    assert rest.Keys - (p - {id}).Keys == rest.Keys - p.Keys;
    hide SkipsAll;
  }

  lemma CollectSkip<N(!new), D, O>(mark: (N, N) -> O, g: Graph<N>, done: set<N>, w: set<N>, later: set<N>,
                                   causes: set<N>,
                                   rest: map<N, D>, base: map<N, O>, p: map<N, D>, o: map<N, O>, f: N, p2: map<N, D>,
                                   o2: map<N, O>)
    requires Collecting(mark, g, done, w, later, causes, rest, base, p, o) && f in w - later
    requires Skips(mark, g, f, p, o, p2, o2) && Clear(g, p2.Keys, (p.Keys - p2.Keys) + {f})
    ensures Collecting(mark, g, done, w, later, causes + {f}, rest, base, p2, o2)
  {
    CollectSkipDrops(mark, g, done, w, causes, rest, base, p, o, f, p2, o2);
    ClearMore(g, p.Keys, p2.Keys, (rest.Keys - p.Keys) + causes, (p.Keys - p2.Keys) + {f});
    hide SkipsAll, Skips, Clear;
    assert p2.Keys == (p2 - w).Keys + later;
    assert (rest.Keys - p2.Keys) + (causes + {f}) == ((rest.Keys - p.Keys) + causes) + ((p.Keys - p2.Keys) + {f});
  }

  lemma CollectSkipDrops<N(!new), D, O>(mark: (N, N) -> O, g: Graph<N>, done: set<N>, w: set<N>, causes: set<N>,
                                        rest: map<N, D>, base: map<N, O>, p: map<N, D>, o: map<N, O>, f: N,
                                        p2: map<N, D>, o2: map<N, O>)
    requires w !! done && rest.Keys !! w && rest.Keys !! done && f in w && p.Keys <= (p - w).Keys + w
    requires (forall y, d :: y in w && Dep(g, y, d) ==> d in done) && rest.Keys !! base.Keys
    requires SkipsAll(mark, g, causes, rest, base, p - w, o) && Skips(mark, g, f, p, o, p2, o2)
    ensures SkipsAll(mark, g, causes + {f}, rest, base, p2 - w, o2)
    ensures p2.Keys <= p.Keys && p.Keys - p2.Keys <= rest.Keys && (p.Keys - p2.Keys) !! w
  {
    SkipsAllDrops(mark, g, causes, rest, base, p - w, o);
    WaveUntouched(mark, g, done, w, rest.Keys, f, p, o, p2, o2);
    SkipsDrops(mark, g, f, p, o, p2, o2);
    hide SkipsAll, Skips, Drops, Downstream;
    assert p.Keys - p2.Keys <= (p - w).Keys;
    assert (p2 - w).Keys == (p - w).Keys - (p.Keys - p2.Keys);
    SkipsAllAdd(mark, g, causes, f, rest, base, p - w, o, p, p2, p2 - w, o2);
  }

  lemma SkipsAllDrops<N(!new), D, O>(mark: (N, N) -> O, g: Graph<N>, causes: set<N>, p: map<N, D>, o: map<N, O>,
                                     p2: map<N, D>, o2: map<N, O>)
    requires SkipsAll(mark, g, causes, p, o, p2, o2)
    ensures p2.Keys <= p.Keys
  {
  }

  lemma SkipsDrops<N(!new), D, O>(mark: (N, N) -> O, g: Graph<N>, f: N, p: map<N, D>, o: map<N, O>, p2: map<N, D>,
                                  o2: map<N, O>)
    requires Skips(mark, g, f, p, o, p2, o2)
    ensures p2.Keys <= p.Keys && forall x :: x in p2 ==> p2[x] == p[x]
    ensures o2.Keys == o.Keys + (p.Keys - p2.Keys)
  {
  }

  lemma SkipsNothing<N(!new), D, O>(mark: (N, N) -> O, g: Graph<N>, f: N, p: map<N, D>, o: map<N, O>)
    ensures Skips(mark, g, f, p, o, p, o) && Clear(g, p.Keys, p.Keys - p.Keys)
  {
  }

  lemma ClearMore<N(!new)>(g: Graph<N>, p: set<N>, p2: set<N>, c1: set<N>, c2: set<N>)
    requires Clear(g, p, c1) && Clear(g, p2, c2) && p2 <= p
    ensures Clear(g, p2, c1 + c2)
  {
  }

  /** When the whole wave is recorded: exactly what is downstream of a cause has been skipped. */
  lemma CollectEnd<N(!new), D, O>(mark: (N, N) -> O, g: Graph<N>, done: set<N>, w: set<N>, causes: set<N>,
                                  rest: map<N, D>, base: map<N, O>, p: map<N, D>, o: map<N, O>)
    requires Collecting(mark, g, done, w, {}, causes, rest, base, p, o)
    ensures p.Keys <= rest.Keys && (forall x :: x in p ==> p[x] == rest[x])
    ensures o.Keys == base.Keys + (rest.Keys - p.Keys) && forall x :: x in base ==> o[x] == base[x]
    ensures forall x :: x in rest ==> (x !in p <==> DownstreamOfAny(g, rest.Keys, causes, x))
    ensures forall x :: x in rest.Keys - p.Keys ==> SkippedFor(mark, g, (rest.Keys - p.Keys) + causes, x, o)
    ensures causes == {} ==> p == rest && o == base
  {
    assert p - w == p;
    SkipsAllExactly(mark, g, causes, rest, base, p, o);
    hide SkippedFor, Downstream;
    if causes == {} {
      forall x | x in rest ensures x in p {
        assert !DownstreamOfAny(g, rest.Keys, causes, x);
      }
    }
  }
}
