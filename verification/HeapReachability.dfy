/** Reference counting computes reachability: the accounting equation, together with
    the absence of cycles, pins down a heap completely.  Nothing here looks at how a
    release is carried out; these are facts about its start and end heaps. */
module RocHeapReachability {
  import opened RocGraph

  /** p walks from an outside owner along owned references. */
  ghost predicate IsPath(h: Heap, roots: multiset<Addr>, p: seq<Addr>) {
    && |p| > 0
    && p[0] in roots
    && forall i :: 0 <= i < |p| - 1 ==> Holds(h, p[i]) && p[i + 1] in RefsAll(h[p[i]].items)
  }

  ghost predicate Reachable(h: Heap, roots: multiset<Addr>, a: Addr) {
    exists p: seq<Addr> :: IsPath(h, roots, p) && p[|p| - 1] == a
  }

  ghost predicate RanksBelow(h: Heap, rank: Addr -> nat, bound: nat) {
    forall a: Addr :: Holds(h, a) ==> rank(a) < bound
  }

  lemma {:induction false} RankBound(h: Heap, rank: Addr -> nat, n: nat) returns (bound: nat)
    ensures forall a: Addr :: a < n && Holds(h, a) ==> rank(a) < bound
  {
    if n == 0 {
      bound := 0;
    } else {
      bound := RankBound(h, rank, n - 1);
      if rank(n - 1) >= bound {
        bound := rank(n - 1) + 1;
      }
    }
  }

  lemma {:induction false} PathIsLive(h: Heap, roots: multiset<Addr>, p: seq<Addr>)
    requires Accounted(h, {}, roots) && IsPath(h, roots, p)
    ensures Holds(h, p[|p| - 1])
    decreases |p|
  {
    var all := Everything(h, {}, roots);
    if |p| == 1 {
      assert p[0] in all;
    } else {
      var q := p[..|p| - 1];
      PathIsLive(h, roots, q);
      var b := p[|p| - 2];
      assert p[|p| - 2 + 1] in CellRefs(h, {}, b);
      OwnedIncludes(h, {}, b, |h|);
      assert p[|p| - 1] in all;
    }
  }

  lemma ExtendPath(h: Heap, roots: multiset<Addr>, b: Addr, a: Addr)
    requires Reachable(h, roots, b) && Holds(h, b) && a in RefsAll(h[b].items)
    ensures Reachable(h, roots, a)
  {
    var p :| IsPath(h, roots, p) && p[|p| - 1] == b;
    assert IsPath(h, roots, p + [a]) && (p + [a])[|p + [a]| - 1] == a;
  }

  /** A positive count has a reason, and the reason can be followed back to an owner. */
  lemma {:induction false} CountedIsReachable(h: Heap, roots: multiset<Addr>, rank: Addr -> nat, bound: nat, a: Addr)
    requires Accounted(h, {}, roots) && Ranked(h, rank) && RanksBelow(h, rank, bound)
    requires Holds(h, a) && h[a].count > 0
    ensures Reachable(h, roots, a)
    decreases bound - rank(a)
  {
    assert a in Everything(h, {}, roots);
    if a in roots {
      assert IsPath(h, roots, [a]);
    } else {
      var b := OwnedBy(h, {}, a, |h|);
      assert IsStatic(h, {}, b) ==> IsStatic(h, {}, a);
      CountedIsReachable(h, roots, rank, bound, b);
      ExtendPath(h, roots, b, a);
    }
  }

  /** Counted cells are exactly the reachable ones; there is no garbage and no dangling path. */
  lemma LiveIffReachable(h: Heap, roots: multiset<Addr>, rank: Addr -> nat, a: Addr)
    requires Accounted(h, {}, roots) && Ranked(h, rank) && a < |h|
    ensures Reachable(h, roots, a) ==> h[a].Live?
    ensures h[a].Live? && h[a].count > 0 ==> Reachable(h, roots, a)
  {
    if Reachable(h, roots, a) {
      var p :| IsPath(h, roots, p) && p[|p| - 1] == a;
      PathIsLive(h, roots, p);
    }
    if h[a].Live? && h[a].count > 0 {
      var bound := RankBound(h, rank, |h|);
      CountedIsReachable(h, roots, rank, bound, a);
    }
  }

  lemma {:induction false} PathSurvives(h: Heap, h': Heap, roots: multiset<Addr>, p: seq<Addr>)
    requires Shrinks(h, h') && Accounted(h', {}, roots) && IsPath(h, roots, p)
    ensures IsPath(h', roots, p)
    decreases |p|
  {
    if |p| > 1 {
      var q := p[..|p| - 1];
      PathSurvives(h, h', roots, q);
      PathIsLive(h', roots, q);
      var b := p[|p| - 2];
      assert q[|q| - 1] == b && CellShrinks(h[b], h'[b]);
      assert p[|p| - 2 + 1] in RefsAll(h'[b].items);
      forall i | 0 <= i < |p| - 1 ensures Holds(h', p[i]) && p[i + 1] in RefsAll(h'[p[i]].items) {
        if i < |q| - 1 {
          assert q[i] == p[i] && q[i + 1] == p[i + 1];
        }
      }
    }
  }

  lemma ReachableInShrunk(h: Heap, h': Heap, roots: multiset<Addr>, a: Addr)
    requires Shrinks(h, h') && Accounted(h', {}, roots)
    ensures Reachable(h, roots, a) <==> Reachable(h', roots, a)
  {
    if Reachable(h, roots, a) {
      var p :| IsPath(h, roots, p) && p[|p| - 1] == a;
      PathSurvives(h, h', roots, p);
    }
    if Reachable(h', roots, a) {
      var p :| IsPath(h', roots, p) && p[|p| - 1] == a;
      assert IsPath(h, roots, p) by {
        forall i | 0 <= i < |p| - 1 ensures Holds(h, p[i]) && p[i + 1] in RefsAll(h[p[i]].items) {
          assert Holds(h', p[i]) && CellShrinks(h[p[i]], h'[p[i]]);
        }
      }
    }
  }

  /** A release that keeps the books frees exactly the cells that the remaining owners
      cannot reach any more, and leaves the contents of all others alone. */
  lemma ReleaseFreesExactly(h: Heap, h': Heap, roots: multiset<Addr>, rank: Addr -> nat, a: Addr)
    requires Shrinks(h, h') && Accounted(h', {}, roots) && Ranked(h, rank)
    requires Holds(h, a) && h[a].count > 0
    ensures h'[a].Freed? <==> !Reachable(h, roots, a)
    ensures h'[a].Live? ==> h'[a].items == h[a].items && h'[a].count == Everything(h', {}, roots)[a]
  {
    ShrinksThins(h, h');
    RankedThins(h, h', rank);
    LiveIffReachable(h', roots, rank, a);
    ReachableInShrunk(h, h', roots, a);
    assert CellShrinks(h[a], h'[a]);
  }

  /** There is only one heap a release can end in. */
  lemma ReleaseIsDetermined(h: Heap, h1: Heap, h2: Heap, roots: multiset<Addr>, rank: Addr -> nat)
    requires Ranked(h, rank)
    requires Shrinks(h, h1) && Accounted(h1, {}, roots)
    requires Shrinks(h, h2) && Accounted(h2, {}, roots)
    ensures h1 == h2
  {
    forall a: Addr | a < |h| ensures h1[a].Live? <==> h2[a].Live? {
      SameLiveness(h, h1, h2, roots, rank, a);
    }
    forall i: Addr | i < |h| ensures CellRefs(h1, {}, i) == CellRefs(h2, {}, i) {
      assert CellShrinks(h[i], h1[i]) && CellShrinks(h[i], h2[i]);
    }
    OwnedCong(h1, {}, h2, {}, |h|);
    forall a: Addr | a < |h| ensures h1[a] == h2[a] {
      assert CellShrinks(h[a], h1[a]) && CellShrinks(h[a], h2[a]);
      if h1[a].Live? && h1[a].count > 0 {
        assert Holds(h1, a) && Holds(h2, a);
      }
    }
  }

  lemma SameLiveness(h: Heap, h1: Heap, h2: Heap, roots: multiset<Addr>, rank: Addr -> nat, a: Addr)
    requires Ranked(h, rank) && a < |h|
    requires Shrinks(h, h1) && Accounted(h1, {}, roots)
    requires Shrinks(h, h2) && Accounted(h2, {}, roots)
    ensures h1[a].Live? <==> h2[a].Live?
  {
    assert CellShrinks(h[a], h1[a]) && CellShrinks(h[a], h2[a]);
    if Holds(h, a) && h[a].count > 0 {
      ReleaseFreesExactly(h, h1, roots, rank, a);
      ReleaseFreesExactly(h, h2, roots, rank, a);
    }
  }

  /** With no owners left, only static data is left. */
  lemma NoOwnersNoCells(h: Heap, rank: Addr -> nat)
    requires Accounted(h, {}, multiset{}) && Ranked(h, rank)
    ensures forall a: Addr :: Holds(h, a) ==> h[a].count == 0
  {
    forall a: Addr | Holds(h, a) ensures h[a].count == 0 {
      LiveIffReachable(h, multiset{}, rank, a);
    }
  }

  ghost function Survivors(h: Heap): set<Addr> {
    set a: Addr | a < |h| && h[a].Live?
  }

  /** References split into those of surviving cells and those of freed ones. */
  lemma {:induction false} OwnedSplit(h: Heap, h': Heap, n: nat)
    requires Shrinks(h, h') && n <= |h|
    ensures Owned(h, {}, n) == Owned(h', {}, n) + Owned(h, Survivors(h'), n)
  {
    hide RefsAll;
    if n > 0 {
      OwnedSplit(h, h', n - 1);
      assert CellShrinks(h[n - 1], h'[n - 1]);
      assert CellRefs(h, {}, n - 1) == CellRefs(h', {}, n - 1) + CellRefs(h, Survivors(h'), n - 1);
    }
  }

  /** Conservation: what a surviving count loses is the released references, plus one
      for every reference to it that sat in a freed cell.  Nothing is dropped twice,
      and no element of a freed list or capture of a freed callable is forgotten. */
  lemma ReleaseConserves(h: Heap, h': Heap, roots: multiset<Addr>, released: multiset<Addr>, b: Addr)
    requires Accounted(h, {}, roots + released) && Accounted(h', {}, roots) && Shrinks(h, h')
    requires Holds(h', b) && h'[b].count > 0
    ensures h[b].count == h'[b].count + released[b] + Owned(h, Survivors(h'), |h|)[b]
  {
    OwnedSplit(h, h', |h|);
    assert CellShrinks(h[b], h'[b]);
    assert Holds(h, b) && h[b].count > 0;
  }

  /** The only reference is gone, so the cell is. */
  lemma LastReferenceFrees(h: Heap, h': Heap, roots: multiset<Addr>, a: Addr)
    requires Accounted(h, {}, roots + multiset{a}) && Accounted(h', {}, roots) && Shrinks(h, h')
    requires Holds(h, a) && h[a].count == 1
    ensures h'[a].Freed?
  {
    assert CellShrinks(h[a], h'[a]);
    if h'[a].Live? {
      ReleaseConserves(h, h', roots, multiset{a}, a);
    }
  }

  /** The converse: a counted cell someone else still refers to survives any release. */
  lemma SharedSurvives(h: Heap, h': Heap, roots: multiset<Addr>, a: Addr)
    requires Accounted(h', {}, roots) && a in roots && Shrinks(h, h')
    ensures Holds(h, a) && Holds(h', a) && h'[a].items == h[a].items
  {
    assert a in Everything(h', {}, roots);
    assert CellShrinks(h[a], h'[a]);
  }
}
