/** What each primitive change to the heap does to the reference accounting.
    Sequential and concurrent releases are both built from these steps. */
module RocHeapSteps {
  import opened RocGraph

  // ----- the arithmetic of one step, for an arbitrary reference count `all` -----

  ghost function SetCount(h: Heap, a: Addr, c: nat): Heap
    requires Holds(h, a)
  {
    h[a := h[a].(count := c)]
  }

  lemma BalancedRecount(h: Heap, zombies: set<Addr>, all: multiset<Addr>, all': multiset<Addr>, a: Addr, c: nat)
    requires Balanced(h, zombies, all) && Holds(h, a) && a !in zombies
    requires forall b: Addr | b != a :: all[b] == all'[b]
    requires c > 0 ==> c == all'[a]
    ensures Balanced(SetCount(h, a, c), zombies, all')
  {
    var h' := SetCount(h, a, c);
    forall b | b in all' ensures Holds(h', b) && b !in zombies {
      assert b == a || b in all;
      assert Holds(h, b);
    }
    forall b: Addr | Holds(h', b) && b !in zombies && h'[b].count > 0 ensures h'[b].count == all'[b] {
      assert Holds(h, b);
    }
  }

  lemma BalancedDrain(h: Heap, zombies: set<Addr>, all: multiset<Addr>, all': multiset<Addr>, a: Addr, c: nat)
    requires Balanced(h, zombies, all) && Holds(h, a) && a !in zombies
    requires all == all' + multiset{a} && all[a] == 1
    ensures Balanced(SetCount(h, a, c), zombies + {a}, all')
  {
    var h' := SetCount(h, a, c);
    forall b | b in all' ensures Holds(h', b) && b !in zombies + {a} {
      assert all[b] == all'[b] + multiset{a}[b];
      assert b in all;
      assert Holds(h, b);
    }
    forall b: Addr | Holds(h', b) && b !in zombies + {a} && h'[b].count > 0 ensures h'[b].count == all'[b] {
      assert Holds(h, b);
      assert all[b] == all'[b] + multiset{a}[b];
    }
  }

  lemma BalancedFree(h: Heap, zombies: set<Addr>, all: multiset<Addr>, a: Addr)
    requires Balanced(h, zombies + {a}, all) && a !in zombies
    ensures Holds(h, a) && Balanced(h[a := Freed], zombies, all)
  {
    assert a in zombies + {a};
    forall b: Addr | Holds(h[a := Freed], b) && b !in zombies && h[a := Freed][b].count > 0
      ensures h[a := Freed][b].count == all[b]
    {
      assert Holds(h, b) && b !in zombies + {a};
    }
    forall z <- zombies ensures Holds(h[a := Freed], z) {
      assert z in zombies + {a};
    }
  }

  lemma BalancedExtend(h: Heap, zombies: set<Addr>, all: multiset<Addr>, kind: Kind, items: seq<Value>)
    requires Balanced(h, zombies, all)
    ensures Balanced(h + [Live(kind, 1, items)], zombies, all + multiset{|h|})
  {
    var h', all' := h + [Live(kind, 1, items)], all + multiset{|h|};
    assert |h| !in all && |h| !in zombies;
    forall b | b in all' ensures Holds(h', b) && b !in zombies {
      assert b == |h| || b in all;
    }
    forall b: Addr | Holds(h', b) && b !in zombies && h'[b].count > 0 ensures h'[b].count == all'[b] {
      assert b == |h| || Holds(h, b);
    }
    forall z <- zombies ensures Holds(h', z) {
      assert Holds(h, z);
    }
  }

  lemma Regroup(r: multiset<Addr>, x: multiset<Addr>, y: multiset<Addr>, z: multiset<Addr>)
    ensures r + x + (z + y) == r + y + z + x
    ensures r + y + z + x == r + x + (z + y)
  {
  }

  // ----- the steps -----

  /** An owned reference points at a live cell, whose count is positive unless static. */
  lemma OwnedIsLive(h: Heap, zombies: set<Addr>, roots: multiset<Addr>, a: Addr)
    requires Accounted(h, zombies, roots) && a in roots
    ensures Holds(h, a) && a !in zombies
    ensures h[a].count > 0 ==> h[a].count == Everything(h, zombies, roots)[a]
  {
    assert a in Everything(h, zombies, roots);
  }

  /** Rewriting one cell's count leaves every owned reference where it was. */
  lemma OwnedRecount(h: Heap, zombies: set<Addr>, a: Addr, c: nat)
    requires Holds(h, a)
    ensures Owned(SetCount(h, a, c), zombies, |h|) == Owned(h, zombies, |h|)
  {
    OwnedCong(SetCount(h, a, c), zombies, h, zombies, |h|);
  }

  lemma ReleaseStatic(h: Heap, zombies: set<Addr>, roots: multiset<Addr>, a: Addr)
    requires Accounted(h, zombies, roots + multiset{a}) && Holds(h, a) && h[a].count == 0
    ensures Accounted(h, zombies, roots)
  {
    OwnedIsLive(h, zombies, roots + multiset{a}, a);
    BalancedRecount(h, zombies, Everything(h, zombies, roots + multiset{a}), Everything(h, zombies, roots), a, 0);
    assert SetCount(h, a, 0) == h;
  }

  /** `fetch_sub` on a count that is not the last one. */
  lemma ReleaseShared(h: Heap, zombies: set<Addr>, roots: multiset<Addr>, a: Addr)
    requires Accounted(h, zombies, roots + multiset{a}) && Holds(h, a) && h[a].count > 1
    ensures Accounted(SetCount(h, a, h[a].count - 1), zombies, roots)
  {
    hide RefsAll;
    var h' := SetCount(h, a, h[a].count - 1);
    OwnedIsLive(h, zombies, roots + multiset{a}, a);
    OwnedRecount(h, zombies, a, h[a].count - 1);
    BalancedRecount(h, zombies, Everything(h, zombies, roots + multiset{a}), Everything(h', zombies, roots), a,
                    h[a].count - 1);
    StaticClosedKept(h, zombies, h', zombies);
  }

  /** The last owner of a takes over everything a holds; from here on a is a zombie
      that nobody else can name.  `c` is what the count word reads meanwhile. */
  lemma BeginTeardown(h: Heap, zombies: set<Addr>, roots: multiset<Addr>, a: Addr, c: nat)
    requires Accounted(h, zombies, roots + multiset{a}) && Holds(h, a) && h[a].count == 1
    ensures Accounted(SetCount(h, a, c), zombies + {a}, roots + RefsAll(h[a].items))
  {
    hide RefsAll;
    var h', z', items := SetCount(h, a, c), zombies + {a}, RefsAll(h[a].items);
    assert Balanced(h', z', Everything(h', z', roots + items)) by {
      OwnedIsLive(h, zombies, roots + multiset{a}, a);
      OwnedDrain(h, zombies, a, |h|);
      OwnedRecount(h, z', a, c);
      Regroup(roots, multiset{a}, items, Owned(h, z', |h|));
      BalancedDrain(h, zombies, Everything(h, zombies, roots + multiset{a}), Everything(h', z', roots + items), a, c);
    }
    assert StaticClosed(h', z') by {
      StaticClosedKept(h, zombies, h', z');
    }
  }

  lemma EndTeardown(h: Heap, zombies: set<Addr>, roots: multiset<Addr>, a: Addr)
    requires a !in zombies && Accounted(h, zombies + {a}, roots)
    ensures Holds(h, a) && Accounted(h[a := Freed], zombies, roots)
  {
    hide RefsAll;
    BalancedFree(h, zombies, Everything(h, zombies + {a}, roots), a);
    OwnedCong(h[a := Freed], zombies, h, zombies + {a}, |h|);
    StaticClosedKept(h, zombies + {a}, h[a := Freed], zombies);
  }

  /** What the count reads after `incref(n)`: static data is left alone. */
  ghost function Bumped(h: Heap, a: Addr, n: nat): Heap
    requires Holds(h, a)
  {
    SetCount(h, a, if h[a].count == 0 then 0 else h[a].count + n)
  }

  lemma TimesOne(a: Addr, n: nat)
    ensures forall b: Addr :: Times(multiset{a}, n)[b] == if b == a then n else 0
  {
    forall b: Addr ensures Times(multiset{a}, n)[b] == if b == a then n else 0 {
      TimesCount(multiset{a}, n, b);
    }
  }

  /** `fetch_add(n)`: n more owners, wherever the static check did not return early. */
  lemma Retain(h: Heap, zombies: set<Addr>, roots: multiset<Addr>, a: Addr, n: nat)
    requires Accounted(h, zombies, roots) && a in roots
    ensures Holds(h, a) && Accounted(Bumped(h, a, n), zombies, roots + Times(multiset{a}, n))
  {
    hide RefsAll;
    OwnedIsLive(h, zombies, roots, a);
    var h', c := Bumped(h, a, n), Bumped(h, a, n)[a].count;
    OwnedRecount(h, zombies, a, c);
    var all, all' := Everything(h, zombies, roots), Everything(h', zombies, roots + Times(multiset{a}, n));
    TimesOne(a, n);
    BalancedRecount(h, zombies, all, all', a, c);
    StaticClosedKept(h, zombies, h', zombies);
  }

  lemma OwnedExtend(h: Heap, zombies: set<Addr>, kind: Kind, items: seq<Value>)
    requires |h| !in zombies
    ensures Owned(h + [Live(kind, 1, items)], zombies, |h| + 1) == Owned(h, zombies, |h|) + RefsAll(items)
  {
    var h' := h + [Live(kind, 1, items)];
    OwnedCong(h', zombies, h, zombies, |h|);
    assert CellRefs(h', zombies, |h|) == RefsAll(items);
  }

  lemma StaticExtend(h: Heap, zombies: set<Addr>, kind: Kind, items: seq<Value>)
    requires StaticClosed(h, zombies)
    ensures StaticClosed(h + [Live(kind, 1, items)], zombies)
  {
    var h' := h + [Live(kind, 1, items)];
    forall a: Addr ensures IsStatic(h, zombies, a) <==> IsStatic(h', zombies, a) {
      assert a < |h| ==> h'[a] == h[a];
    }
    StaticClosedKept(h, zombies, h', zombies);
  }

  lemma EverythingAllocate(h: Heap, zombies: set<Addr>, roots: multiset<Addr>, kind: Kind, items: seq<Value>)
    requires |h| !in zombies
    ensures Everything(h + [Live(kind, 1, items)], zombies, roots + multiset{|h|}) ==
            Everything(h, zombies, roots + RefsAll(items)) + multiset{|h|}
  {
    OwnedExtend(h, zombies, kind, items);
    Regroup(roots, multiset{|h|}, RefsAll(items), Owned(h, zombies, |h|));
  }

  /** A new allocation starts at count 1 and takes over the references put into it. */
  lemma Allocate(h: Heap, zombies: set<Addr>, roots: multiset<Addr>, kind: Kind, items: seq<Value>)
    requires Accounted(h, zombies, roots + RefsAll(items))
    ensures Accounted(h + [Live(kind, 1, items)], zombies, roots + multiset{|h|})
  {
    BalancedExtend(h, zombies, Everything(h, zombies, roots + RefsAll(items)), kind, items);
    assert |h| !in zombies;
    EverythingAllocate(h, zombies, roots, kind, items);
    StaticExtend(h, zombies, kind, items);
  }

  /** `decref_box` frees the box without looking inside.  That keeps the books exactly
      when the payload holds no counted references. */
  lemma BoxFreeIsExact(h: Heap, roots: multiset<Addr>, a: Addr)
    requires Accounted(h, {}, roots + multiset{a}) && Holds(h, a) && h[a].count == 1
    ensures Accounted(h[a := Freed], {}, roots) <==>
            (forall b <- RefsAll(h[a].items) :: Holds(h, b) && h[b].count == 0)
  {
    BoxFreed(h, roots, a);
    ItemsForgotten(h[a := Freed], roots, RefsAll(h[a].items));
    forall b <- RefsAll(h[a].items) ensures b != a && Holds(h, b) {
      OwnedIsLive(h[a := Freed], {}, roots + RefsAll(h[a].items), b);
    }
  }

  /** A box that holds the only reference to a string. */
  function BoxedString(): Heap {
    [Live(BoxCell(true), 1, [Str(At(1))]), Live(StrCell, 1, [])]
  }

  lemma BoxedStringRefs()
    ensures RefsAll(BoxedString()[0].items) == multiset{1} && RefsAll(BoxedString()[1].items) == multiset{}
    ensures Owned(BoxedString(), {}, 2) == multiset{1}
  {
    var items := [Str(At(1))];
    assert items[1..] == [] && RefsAll(items) == Refs(items[0]) + RefsAll(items[1..]);
    var h := BoxedString();
    assert Owned(h, {}, 1) == Owned(h, {}, 0) + CellRefs(h, {}, 0);
    assert Owned(h, {}, 2) == Owned(h, {}, 1) + CellRefs(h, {}, 1);
  }

  /** `decref_box` on it leaves a string that nobody owns. */
  lemma BoxFreeCanLeak()
    ensures Accounted(BoxedString(), {}, multiset{0}) && !Accounted(BoxedString()[0 := Freed], {}, multiset{})
  {
    BoxedStringRefs();
    hide RefsAll, Owned;
    var h := BoxedString();
    assert Everything(h, {}, multiset{0}) == multiset{0, 1};
    assert multiset{} + multiset{0} == multiset{0};
    BoxFreeIsExact(h, multiset{}, 0);
    assert 1 in RefsAll(h[0].items);
  }

  lemma BoxFreed(h: Heap, roots: multiset<Addr>, a: Addr)
    requires Accounted(h, {}, roots + multiset{a}) && Holds(h, a) && h[a].count == 1
    ensures Accounted(h[a := Freed], {}, roots + RefsAll(h[a].items))
  {
    BeginTeardown(h, {}, roots, a, 1);
    assert SetCount(h, a, 1) == h;
    EndTeardown(h, {}, roots + RefsAll(h[a].items), a);
  }

  /** Owners that vanish without a release do no harm exactly when they owned static data. */
  lemma ItemsForgotten(h: Heap, roots: multiset<Addr>, items: multiset<Addr>)
    requires Accounted(h, {}, roots + items)
    ensures Accounted(h, {}, roots) <==> (forall b <- items :: Holds(h, b) && h[b].count == 0)
  {
    if b :| b in items && !(Holds(h, b) && h[b].count == 0) {
      CountedItemLost(h, roots, items, b);
    } else {
      StaticItemsGone(h, roots, items);
    }
  }

  lemma CountedItemLost(h: Heap, roots: multiset<Addr>, items: multiset<Addr>, b: Addr)
    requires Accounted(h, {}, roots + items) && b in items
    ensures Holds(h, b)
    ensures h[b].count > 0 ==> !Accounted(h, {}, roots)
  {
    OwnedIsLive(h, {}, roots + items, b);
    assert Everything(h, {}, roots + items)[b] == Everything(h, {}, roots)[b] + items[b];
  }

  lemma StaticItemsGone(h: Heap, roots: multiset<Addr>, items: multiset<Addr>)
    requires Accounted(h, {}, roots + items) && forall b <- items :: Holds(h, b) ==> h[b].count == 0
    ensures Accounted(h, {}, roots)
  {
    var all, all' := Everything(h, {}, roots + items), Everything(h, {}, roots);
    forall b | b in all' ensures Holds(h, b) {
      assert b in all;
    }
    forall b: Addr | Holds(h, b) && h[b].count > 0 ensures h[b].count == all'[b] {
      assert b !in items;
    }
  }
}
