/** The reference-counted heap that Roc values live in, as a graph.

    A cell stands for one allocation: the refcount word, the kind that fixes its
    header layout and its teardown, and the values stored inside it.  A count of
    zero marks static data, exactly as in the source, unless the cell is being
    torn down; cells in that state are listed in a set of "zombies".  The
    bookkeeping predicate `Accounted` says that every counted cell's refcount is
    the number of references that outside owners and other cells hold to it. */
module RocGraph {
  type Addr = nat

  datatype Ptr = Null | At(addr: Addr)

  /** A Roc value as the generated helpers see it.  `Str` is a heap string or a
      seamless slice of one; for both, `alloc` is the allocation the refcount
      sits below.  A list with a null element pointer has a null `alloc`; otherwise it
      shows `length` of the allocation's elements, from `start` on. */
  datatype Value =
    | Plain(bits: nat)
    | SmallStr
    | Str(alloc: Ptr)
    | List(alloc: Ptr, slice: bool, start: nat, length: nat, deep: bool)
    | Box(data: Ptr, deep: bool)
    | Callable(data: Ptr)
    | Struct(fields: seq<Value>)
    | Variant(tag: nat, payload: Value)

  datatype Kind =
    | StrCell
    | ListCell(deep: bool)
    | BoxCell(deep: bool)
    | CallableCell(onDrop: bool)

  /** `items` are the list elements (all of the backing allocation), the callable's
      captures, or the box payload.  For a list, |items| is the count word. */
  datatype Cell =
    | Live(kind: Kind, count: nat, items: seq<Value>)
    | Freed

  type Heap = seq<Cell>

  // ----- references -----

  ghost function RefOf(p: Ptr): multiset<Addr> {
    match p
    case Null => multiset{}
    case At(a) => multiset{a}
  }

  /** The references one owner of `v` holds. */
  ghost function Refs(v: Value): multiset<Addr>
    decreases v, 1
  {
    match v
    case Plain(_) => multiset{}
    case SmallStr => multiset{}
    case Str(p) => RefOf(p)
    case List(p, _, _, _, _) => RefOf(p)
    case Box(p, _) => RefOf(p)
    case Callable(p) => RefOf(p)
    case Struct(fields) => RefsAll(fields)
    case Variant(_, payload) => Refs(payload)
  }

  ghost function RefsAll(vs: seq<Value>): multiset<Addr>
    decreases vs, 0
  {
    if vs == [] then multiset{} else Refs(vs[0]) + RefsAll(vs[1..])
  }

  /** n owners' worth of the references in m. */
  ghost function Times(m: multiset<Addr>, n: nat): multiset<Addr> {
    if n == 0 then multiset{} else m + Times(m, n - 1)
  }

  ghost predicate Holds(h: Heap, a: Addr) {
    a < |h| && h[a].Live?
  }

  /** The references cell i owns: none once it is freed or being torn down. */
  ghost function CellRefs(h: Heap, zombies: set<Addr>, i: Addr): multiset<Addr> {
    if Holds(h, i) && i !in zombies then RefsAll(h[i].items) else multiset{}
  }

  /** The references owned by the first n cells. */
  ghost function Owned(h: Heap, zombies: set<Addr>, n: nat): multiset<Addr> {
    if n == 0 then multiset{} else Owned(h, zombies, n - 1) + CellRefs(h, zombies, n - 1)
  }

  ghost function Everything(h: Heap, zombies: set<Addr>, roots: multiset<Addr>): multiset<Addr> {
    roots + Owned(h, zombies, |h|)
  }

  // ----- well-formedness -----

  /** The pointer's cell, if it still exists, has the layout the value assumes. */
  ghost predicate PtrFits(h: Heap, p: Ptr, k: Kind) {
    p.At? ==> p.addr < |h| && (h[p.addr].Live? ==> h[p.addr].kind == k)
  }

  ghost predicate Fits(h: Heap, v: Value)
    decreases v, 1
  {
    match v
    case Plain(_) => true
    case SmallStr => true
    case Str(p) => PtrFits(h, p, StrCell)
    case List(p, slice, start, length, deep) =>
      && PtrFits(h, p, ListCell(deep))
      && (p.At? && h[p.addr].Live? ==>
            if slice then start + length <= |h[p.addr].items| else start == 0 && length == |h[p.addr].items|)
    case Box(p, deep) => PtrFits(h, p, BoxCell(deep))
    case Callable(p) =>
      p.At? ==> p.addr < |h| && (h[p.addr].Live? ==> h[p.addr].kind.CallableCell?)
    case Struct(fields) => FitsAll(h, fields)
    case Variant(_, payload) => Fits(h, payload)
  }

  ghost predicate FitsAll(h: Heap, vs: seq<Value>)
    decreases vs, 0
  {
    vs == [] || (Fits(h, vs[0]) && FitsAll(h, vs[1..]))
  }

  /** Released after the count has dropped to zero, by `on_drop` or a payload callback. */
  predicate DropsLate(k: Kind) {
    k == CallableCell(true) || k == BoxCell(true)
  }

  predicate DropsContents(k: Kind) {
    k == ListCell(true) || DropsLate(k)
  }

  /** What each kind of allocation may contain.  Only deep lists, boxes with a payload
      callback and callables with an `on_drop` have their contents released, so the
      others hold no references. */
  ghost predicate CellOk(h: Heap, c: Cell) {
    c.Live? ==>
      && FitsAll(h, c.items)
      && (DropsContents(c.kind) || RefsAll(c.items) == multiset{})
  }

  ghost predicate HeapOk(h: Heap) {
    forall a :: 0 <= a < |h| ==> CellOk(h, h[a])
  }

  /** Static data, once loaded as count 0, stays what it is. */
  ghost predicate IsStatic(h: Heap, zombies: set<Addr>, a: Addr) {
    Holds(h, a) && a !in zombies && h[a].count == 0
  }

  /** `all` counts the references to every cell that is not being torn down. */
  ghost predicate Balanced(h: Heap, zombies: set<Addr>, all: multiset<Addr>) {
    && (forall a <- all :: Holds(h, a) && a !in zombies)
    && (forall a: Addr :: Holds(h, a) && a !in zombies && h[a].count > 0 ==> h[a].count == all[a])
    && (forall z <- zombies :: Holds(h, z))
  }

  /** Static data refers to static data only. */
  ghost predicate StaticClosed(h: Heap, zombies: set<Addr>) {
    forall a: Addr, b: Addr :: IsStatic(h, zombies, a) && b in RefsAll(h[a].items) ==> IsStatic(h, zombies, b)
  }

  ghost predicate Accounted(h: Heap, zombies: set<Addr>, roots: multiset<Addr>) {
    Balanced(h, zombies, Everything(h, zombies, roots)) && StaticClosed(h, zombies)
  }

  /** No chain of owned references returns to its start: `rank` drops along each. */
  ghost predicate Ranked(h: Heap, rank: Addr -> nat) {
    forall a: Addr, b: Addr :: Holds(h, a) && b in RefsAll(h[a].items) ==> rank(b) < rank(a)
  }

  ghost predicate Below(refs: multiset<Addr>, rank: Addr -> nat, bound: nat) {
    forall a <- refs :: rank(a) < bound
  }

  /** h2 has the allocations of h1, minus some, with their kinds and contents intact. */
  ghost predicate CellKept(c1: Cell, c2: Cell) {
    c2.Live? ==> c1.Live? && c1.kind == c2.kind && c1.items == c2.items
  }

  ghost predicate Thins(h1: Heap, h2: Heap) {
    |h1| == |h2| && forall a :: 0 <= a < |h1| ==> CellKept(h1[a], h2[a])
  }

  /** A release: counted cells may be freed or change to another positive count, and
      static data is untouched. */
  ghost predicate CellShrinks(c1: Cell, c2: Cell) {
    && CellKept(c1, c2)
    && (c1.Live? && c1.count == 0 ==> c2 == c1)
    && (c2.Live? && c2.count == 0 ==> c2 == c1)
  }

  ghost predicate Shrinks(h1: Heap, h2: Heap) {
    |h1| == |h2| && forall a :: 0 <= a < |h1| ==> CellShrinks(h1[a], h2[a])
  }

  // ----- basic facts -----

  lemma {:induction false} RefsAllAppend(xs: seq<Value>, ys: seq<Value>)
    ensures RefsAll(xs + ys) == RefsAll(xs) + RefsAll(ys)
  {
    if xs == [] {
      assert xs + ys == ys;
    } else {
      RefsAllAppend(xs[1..], ys);
      assert (xs + ys)[1..] == xs[1..] + ys;
    }
  }

  lemma {:induction false} TimesCount(m: multiset<Addr>, n: nat, a: Addr)
    ensures Times(m, n)[a] == n * m[a]
  {
    if n > 0 {
      TimesCount(m, n - 1, a);
      assert n * m[a] == (n - 1) * m[a] + m[a];
    }
  }

  lemma {:induction false} OwnedCong(h1: Heap, z1: set<Addr>, h2: Heap, z2: set<Addr>, n: nat)
    requires forall i :: 0 <= i < n ==> CellRefs(h1, z1, i) == CellRefs(h2, z2, i)
    ensures Owned(h1, z1, n) == Owned(h2, z2, n)
  {
    if n > 0 {
      OwnedCong(h1, z1, h2, z2, n - 1);
    }
  }

  /** Putting cell a among the zombies takes exactly its references out of the total. */
  lemma {:induction false} OwnedDrain(h: Heap, zombies: set<Addr>, a: Addr, n: nat)
    requires a !in zombies
    ensures Owned(h, zombies, n) ==
            Owned(h, zombies + {a}, n) + if a < n then CellRefs(h, zombies, a) else multiset{}
  {
    if n > 0 {
      OwnedDrain(h, zombies, a, n - 1);
      DrainCell(h, zombies, a, n - 1);
      var now, after := Owned(h, zombies, n - 1), Owned(h, zombies + {a}, n - 1);
      var own, last := CellRefs(h, zombies, a), CellRefs(h, zombies + {a}, n - 1);
      assert Owned(h, zombies, n) == now + CellRefs(h, zombies, n - 1) && Owned(h, zombies + {a}, n) == after + last;
      hide Owned, CellRefs;
      if a == n - 1 {
        assert now == after && after + last == after;
      } else if a < n - 1 {
        SwapLast(after, own, last);
      }
    }
  }

  lemma SwapLast(x: multiset<Addr>, y: multiset<Addr>, z: multiset<Addr>)
    ensures x + y + z == x + z + y
  {
  }

  lemma DrainCell(h: Heap, zombies: set<Addr>, a: Addr, i: Addr)
    ensures i != a ==> CellRefs(h, zombies + {a}, i) == CellRefs(h, zombies, i)
    ensures CellRefs(h, zombies + {a}, a) == multiset{}
  {
  }

  lemma {:induction false} OwnedIncludes(h: Heap, zombies: set<Addr>, i: Addr, n: nat)
    requires i < n
    ensures CellRefs(h, zombies, i) <= Owned(h, zombies, n)
  {
    if i < n - 1 {
      OwnedIncludes(h, zombies, i, n - 1);
    }
  }

  lemma {:induction false} OwnedBy(h: Heap, zombies: set<Addr>, a: Addr, n: nat) returns (i: Addr)
    requires a in Owned(h, zombies, n)
    ensures i < n && a in CellRefs(h, zombies, i)
  {
    if a in CellRefs(h, zombies, n - 1) {
      i := n - 1;
    } else {
      i := OwnedBy(h, zombies, a, n - 1);
    }
  }

  ghost predicate SameStatics(h1: Heap, z1: set<Addr>, h2: Heap, z2: set<Addr>) {
    forall a: Addr :: (IsStatic(h1, z1, a) <==> IsStatic(h2, z2, a)) && (IsStatic(h1, z1, a) ==> h1[a] == h2[a])
  }

  lemma StaticClosedKept(h1: Heap, z1: set<Addr>, h2: Heap, z2: set<Addr>)
    requires StaticClosed(h1, z1) && SameStatics(h1, z1, h2, z2)
    ensures StaticClosed(h2, z2)
  {
    forall a: Addr, b: Addr | IsStatic(h2, z2, a) && b in RefsAll(h2[a].items) ensures IsStatic(h2, z2, b) {
      assert IsStatic(h1, z1, a) && IsStatic(h1, z1, b);
    }
  }

  lemma ShrinksThins(h1: Heap, h2: Heap)
    requires Shrinks(h1, h2)
    ensures Thins(h1, h2)
  {
    forall a | 0 <= a < |h1| ensures CellKept(h1[a], h2[a]) {
      assert CellShrinks(h1[a], h2[a]);
    }
  }

  lemma {:induction false} FitsThins(h1: Heap, h2: Heap, v: Value)
    requires Thins(h1, h2) && Fits(h1, v)
    ensures Fits(h2, v)
    decreases v, 1
  {
    match v
    case Plain(_) =>
    case SmallStr =>
    case Str(p) =>
    case List(p, _, _, _, _) =>
    case Box(p, _) =>
    case Callable(p) =>
    case Struct(fields) => FitsAllThins(h1, h2, fields);
    case Variant(_, payload) => FitsThins(h1, h2, payload);
  }

  lemma {:induction false} FitsAllThins(h1: Heap, h2: Heap, vs: seq<Value>)
    requires Thins(h1, h2) && FitsAll(h1, vs)
    ensures FitsAll(h2, vs)
    decreases vs, 0
  {
    if vs != [] {
      FitsThins(h1, h2, vs[0]);
      FitsAllThins(h1, h2, vs[1..]);
    }
  }

  lemma HeapOkThins(h1: Heap, h2: Heap)
    requires Thins(h1, h2) && HeapOk(h1)
    ensures HeapOk(h2)
  {
    forall a | 0 <= a < |h2| ensures CellOk(h2, h2[a]) {
      assert CellOk(h1, h1[a]) && CellKept(h1[a], h2[a]);
      if h2[a].Live? {
        FitsAllThins(h1, h2, h2[a].items);
      }
    }
  }

  lemma RankedThins(h1: Heap, h2: Heap, rank: Addr -> nat)
    requires Thins(h1, h2) && Ranked(h1, rank)
    ensures Ranked(h2, rank)
  {
    forall a: Addr, b: Addr | Holds(h2, a) && b in RefsAll(h2[a].items) ensures rank(b) < rank(a) {
      assert CellKept(h1[a], h2[a]);
    }
  }

  lemma ShrinksTrans(h1: Heap, h2: Heap, h3: Heap)
    requires Shrinks(h1, h2) && Shrinks(h2, h3)
    ensures Shrinks(h1, h3)
  {
    forall a | 0 <= a < |h1| ensures CellShrinks(h1[a], h3[a]) {
      assert CellShrinks(h1[a], h2[a]) && CellShrinks(h2[a], h3[a]);
    }
  }

  /** What fits a heap points inside it, and still fits when the heap grows. */
  lemma {:induction false} FitsExtend(h: Heap, c: Cell, v: Value)
    requires Fits(h, v)
    ensures Fits(h + [c], v) && forall b <- Refs(v) :: b < |h|
    decreases v, 1
  {
    match v
    case Plain(_) =>
    case SmallStr =>
    case Str(p) =>
    case List(p, _, _, _, _) =>
    case Box(p, _) =>
    case Callable(p) =>
    case Struct(fields) => FitsAllExtend(h, c, fields);
    case Variant(_, payload) => FitsExtend(h, c, payload);
  }

  lemma {:induction false} FitsAllExtend(h: Heap, c: Cell, vs: seq<Value>)
    requires FitsAll(h, vs)
    ensures FitsAll(h + [c], vs) && forall b <- RefsAll(vs) :: b < |h|
    decreases vs, 0
  {
    if vs != [] {
      FitsExtend(h, c, vs[0]);
      FitsAllExtend(h, c, vs[1..]);
    }
  }

  lemma HeapOkExtend(h: Heap, c: Cell)
    requires HeapOk(h) && CellOk(h, c)
    ensures HeapOk(h + [c])
  {
    var h' := h + [c];
    forall a | 0 <= a < |h'| ensures CellOk(h', h'[a]) {
      var d := if a < |h| then h[a] else c;
      assert CellOk(h, d) && h'[a] == d;
      if d.Live? {
        FitsAllExtend(h, c, d.items);
      }
    }
  }

  /** A new cell ranks above everything it refers to. */
  lemma RankedExtend(h: Heap, c: Cell, rank: Addr -> nat, rank': Addr -> nat)
    requires HeapOk(h) && Ranked(h, rank) && c.Live? && Below(RefsAll(c.items), rank, rank'(|h|)) && FitsAll(h, c.items)
    requires forall b: Addr :: b != |h| ==> rank'(b) == rank(b)
    ensures Ranked(h + [c], rank')
  {
    var h' := h + [c];
    forall a: Addr, b: Addr | Holds(h', a) && b in RefsAll(h'[a].items) ensures rank'(b) < rank'(a) {
      FitsAllExtend(h, c, c.items);
      if a < |h| {
        assert Holds(h, a) && h'[a] == h[a] && CellOk(h, h[a]);
        FitsAllExtend(h, c, h[a].items);
      }
    }
  }
}
