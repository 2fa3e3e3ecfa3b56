/** The heap the host and Roc share, updated in place: the refcount primitives and
    the generated helpers that walk a value and release or retain what it owns.
    Every method that touches a refcount word requires its cell to be live, so a
    verified call is one that neither reads nor writes freed memory. */
module RocHeaps {
  import opened RocGraph
  import opened RocHeapSteps
  import opened RocHeapReachability

  /** The heap after one `decref` of an allocation's refcount word. */
  ghost function AfterDecref(h: Heap, p: Ptr): Heap
    requires p.At? ==> Holds(h, p.addr)
  {
    match p
    case Null => h
    case At(a) =>
      if h[a].count == 0 then h
      else if h[a].count == 1 then h[a := Freed]
      else SetCount(h, a, h[a].count - 1)
  }

  /** What a release may do: free and decrement, but leave the zombies alone. */
  ghost predicate Releases(h1: Heap, h2: Heap, zombies: set<Addr>) {
    Shrinks(h1, h2) && forall z <- zombies :: z < |h1| && h2[z] == h1[z]
  }

  lemma ReleasesTrans(h1: Heap, h2: Heap, h3: Heap, zombies: set<Addr>)
    requires Releases(h1, h2, zombies) && Releases(h2, h3, zombies)
    ensures Releases(h1, h3, zombies)
  {
    ShrinksTrans(h1, h2, h3);
  }

  /** Tearing a down: its count was rewritten to c, its contents were released, it was freed. */
  lemma TeardownReleases(h: Heap, a: Addr, c: nat, h2: Heap, zombies: set<Addr>)
    requires Holds(h, a) && h[a].count > 0 && a !in zombies
    requires Releases(SetCount(h, a, c), h2, zombies + {a})
    ensures Releases(h, h2[a := Freed], zombies)
  {
    forall x | 0 <= x < |h| ensures CellShrinks(h[x], h2[a := Freed][x]) {
      assert CellShrinks(SetCount(h, a, c)[x], h2[x]);
    }
    forall z <- zombies ensures z < |h| && h2[a := Freed][z] == h[z] {
      assert z in zombies + {a};
    }
  }

  lemma RecountThins(h: Heap, a: Addr, c: nat)
    requires Holds(h, a)
    ensures Thins(h, SetCount(h, a, c)) && Thins(SetCount(h, a, c), h)
  {
  }

  lemma ZombiesExist(h: Heap, zombies: set<Addr>, roots: multiset<Addr>)
    requires Accounted(h, zombies, roots)
    ensures forall z <- zombies :: Holds(h, z)
  {
  }

  lemma WordReleases(h: Heap, zombies: set<Addr>, a: Addr)
    requires Holds(h, a) && a !in zombies && forall z <- zombies :: Holds(h, z)
    ensures Releases(h, AfterDecref(h, At(a)), zombies)
  {
  }

  /** The shared-or-static case of a release. */
  lemma DecrefKeeps(h: Heap, zombies: set<Addr>, roots: multiset<Addr>, a: Addr)
    requires Accounted(h, zombies, roots + multiset{a})
    ensures Holds(h, a) && a !in zombies
    ensures h[a].count != 1 ==>
              Accounted(AfterDecref(h, At(a)), zombies, roots) && Releases(h, AfterDecref(h, At(a)), zombies)
  {
    hide Accounted, Releases;
    OwnedIsLive(h, zombies, roots + multiset{a}, a);
    ZombiesExist(h, zombies, roots + multiset{a});
    WordReleases(h, zombies, a);
    if h[a].count == 0 {
      ReleaseStatic(h, zombies, roots, a);
    } else if h[a].count > 1 {
      ReleaseShared(h, zombies, roots, a);
    }
  }

  /** The last release of an allocation whose contents hold no references. */
  lemma DecrefLeaf(h: Heap, zombies: set<Addr>, roots: multiset<Addr>, a: Addr)
    requires Accounted(h, zombies, roots + multiset{a})
    requires Holds(h, a) && h[a].count == 1 ==> RefsAll(h[a].items) == multiset{}
    ensures Holds(h, a)
    ensures Accounted(AfterDecref(h, At(a)), zombies, roots) && Releases(h, AfterDecref(h, At(a)), zombies)
  {
    DecrefKeeps(h, zombies, roots, a);
    if h[a].count == 1 {
      hide RefsAll, Accounted, Releases;
      WordFree(h, zombies, roots, a);
      ZombiesExist(h, zombies, roots + multiset{a});
      WordReleases(h, zombies, a);
    }
  }

  lemma WordFree(h: Heap, zombies: set<Addr>, roots: multiset<Addr>, a: Addr)
    requires Accounted(h, zombies, roots + multiset{a}) && Holds(h, a) && a !in zombies
    requires h[a].count == 1 && RefsAll(h[a].items) == multiset{}
    ensures Accounted(h[a := Freed], zombies, roots)
  {
    hide RefsAll, Accounted;
    BeginTeardown(h, zombies, roots, a, 1);
    assert SetCount(h, a, 1) == h;
    assert roots + RefsAll(h[a].items) == roots;
    EndTeardown(h, zombies, roots, a);
  }

  /** What the heap invariants say about one cell's contents. */
  lemma Contents(h: Heap, a: Addr, rank: Addr -> nat)
    requires HeapOk(h) && Ranked(h, rank) && Holds(h, a)
    ensures FitsAll(h, h[a].items) && Below(RefsAll(h[a].items), rank, rank(a))
    ensures DropsContents(h[a].kind) || RefsAll(h[a].items) == multiset{}
  {
    assert CellOk(h, h[a]);
  }

  /** Splits the next item off a list of owned values. */
  lemma NextItem(h: Heap, vs: seq<Value>, i: nat, roots: multiset<Addr>, rank: Addr -> nat, bound: nat)
    requires i < |vs| && FitsAll(h, vs[i..]) && Below(RefsAll(vs[i..]), rank, bound)
    ensures roots + RefsAll(vs[i..]) == roots + RefsAll(vs[i + 1..]) + Refs(vs[i])
    ensures Fits(h, vs[i]) && Below(Refs(vs[i]), rank, bound)
    ensures FitsAll(h, vs[i + 1..]) && Below(RefsAll(vs[i + 1..]), rank, bound)
  {
    assert vs[i..][0] == vs[i] && vs[i..][1..] == vs[i + 1..];
    assert RefsAll(vs[i..]) == Refs(vs[i]) + RefsAll(vs[i + 1..]);
  }

  lemma ItemReleased(h: Heap, before: Heap, after: Heap, zombies: set<Addr>, rest: seq<Value>)
    requires Releases(h, before, zombies) && Releases(before, after, zombies) && FitsAll(before, rest)
    ensures Releases(h, after, zombies) && FitsAll(after, rest)
  {
    ReleasesTrans(h, before, after, zombies);
    ShrinksThins(before, after);
    FitsAllThins(before, after, rest);
  }

  lemma NothingReleased(h: Heap, zombies: set<Addr>, roots: multiset<Addr>)
    requires Accounted(h, zombies, roots)
    ensures Releases(h, h, zombies)
  {
    forall z <- zombies ensures z < |h| {
      assert Holds(h, z);
    }
  }

  /** The last reference to a: its owner takes over the contents. */
  lemma BeginDrop(h: Heap, zombies: set<Addr>, roots: multiset<Addr>, rank: Addr -> nat, a: Addr, c: nat)
    requires HeapOk(h) && Ranked(h, rank) && Accounted(h, zombies, roots + multiset{a})
    requires Holds(h, a) && h[a].count == 1
    ensures HeapOk(SetCount(h, a, c)) && Ranked(SetCount(h, a, c), rank)
    ensures Accounted(SetCount(h, a, c), zombies + {a}, roots + RefsAll(h[a].items))
  {
    BeginTeardown(h, zombies, roots, a, c);
    RecountThins(h, a, c);
    HeapOkThins(h, SetCount(h, a, c));
    RankedThins(h, SetCount(h, a, c), rank);
  }

  /** The contents are gone: freeing a completes the release that began in h. */
  lemma EndDrop(h: Heap, zombies: set<Addr>, roots: multiset<Addr>, rank: Addr -> nat, a: Addr, c: nat, h2: Heap)
    requires HeapOk(h) && Ranked(h, rank) && Holds(h, a) && h[a].count > 0 && a !in zombies
    requires Releases(SetCount(h, a, c), h2, zombies + {a}) && Accounted(h2, zombies + {a}, roots)
    ensures Holds(h2, a) && h2[a].count == c
    ensures Releases(h, h2[a := Freed], zombies) && Accounted(h2[a := Freed], zombies, roots)
    ensures HeapOk(h2[a := Freed]) && Ranked(h2[a := Freed], rank)
  {
    assert a in zombies + {a};
    EndTeardown(h2, zombies, roots, a);
    TeardownReleases(h, a, c, h2, zombies);
    ShrinksThins(h, h2[a := Freed]);
    HeapOkThins(h, h2[a := Freed]);
    RankedThins(h, h2[a := Freed], rank);
  }

  lemma BumpedKeeps(h: Heap, a: Addr, n: nat, rank: Addr -> nat)
    requires Holds(h, a) && HeapOk(h) && Ranked(h, rank)
    ensures HeapOk(Bumped(h, a, n)) && Ranked(Bumped(h, a, n), rank)
    ensures Shrinks(Bumped(h, a, n), h) && Thins(h, Bumped(h, a, n))
  {
    RecountThins(h, a, Bumped(h, a, n)[a].count);
    HeapOkThins(h, Bumped(h, a, n));
    RankedThins(h, Bumped(h, a, n), rank);
  }

  lemma NothingRetained(h: Heap, roots: multiset<Addr>, n: nat)
    ensures roots + Times(multiset{}, n) == roots
    ensures Shrinks(h, h) && Thins(h, h)
  {
    forall a: Addr ensures Times(multiset{}, n)[a] == 0 {
      TimesCount(multiset{}, n, a);
    }
  }

  lemma TimesPlus(x: multiset<Addr>, y: multiset<Addr>, n: nat)
    ensures Times(x + y, n) == Times(x, n) + Times(y, n)
  {
    forall a: Addr ensures Times(x + y, n)[a] == (Times(x, n) + Times(y, n))[a] {
      TimesCount(x + y, n, a);
      TimesCount(x, n, a);
      TimesCount(y, n, a);
    }
  }

  lemma OneLess(roots: multiset<Addr>, m: multiset<Addr>, n: nat)
    requires n > 0
    ensures roots + Times(m, n) == roots + Times(m, n - 1) + m
  {
  }

  lemma TimesNext(vs: seq<Value>, i: nat, n: nat, roots: multiset<Addr>)
    requires i < |vs| && RefsAll(vs) <= roots
    ensures var now := roots + Times(RefsAll(vs[..i]), n);
            Refs(vs[i]) <= now && roots + Times(RefsAll(vs[..i + 1]), n) == now + Times(Refs(vs[i]), n)
  {
    PrefixRefs(vs, i);
    TimesPlus(RefsAll(vs[..i]), Refs(vs[i]), n);
  }

  lemma PrefixRefs(vs: seq<Value>, i: nat)
    requires i < |vs|
    ensures RefsAll(vs[..i + 1]) == RefsAll(vs[..i]) + Refs(vs[i])
    ensures Refs(vs[i]) <= RefsAll(vs)
  {
    hide Refs;
    assert vs[..i + 1] == vs[..i] + [vs[i]];
    RefsAllAppend(vs[..i], [vs[i]]);
    assert RefsAll([vs[i]]) == Refs(vs[i]);
    assert vs == vs[..i + 1] + vs[i + 1..];
    RefsAllAppend(vs[..i + 1], vs[i + 1..]);
  }

  lemma LayoutOf(h: Heap, c: Cell)
    requires CellOk(h, c) && c.Live?
    ensures FitsAll(h, c.items)
  {
  }

  lemma NewRank(h: Heap, zombies: set<Addr>, roots: multiset<Addr>, items: seq<Value>, rank: Addr -> nat)
    returns (rank': Addr -> nat)
    requires Accounted(h, zombies, roots + RefsAll(items))
    ensures Below(RefsAll(items), rank, rank'(|h|)) && forall b: Addr :: b != |h| ==> rank'(b) == rank(b)
  {
    hide RefsAll;
    var bound := RankBound(h, rank, |h|);
    forall b <- RefsAll(items) ensures rank(b) < bound {
      OwnedIsLive(h, zombies, roots + RefsAll(items), b);
    }
    rank' := b => if b == |h| then bound else rank(b);
  }

  /** Whatever else happened, nothing freed has come back. */
  ghost predicate Grown(h: Heap, h': Heap) {
    |h| <= |h'| && forall a :: 0 <= a < |h| && h[a].Freed? ==> h'[a].Freed?
  }

  /** The cells below n that h' has freed and h had not, in order. */
  ghost function NewlyFreed(h: Heap, h': Heap, n: nat): seq<Addr>
    requires n <= |h'|
  {
    if n == 0 then []
    else
      NewlyFreed(h, h', n - 1) +
      if h'[n - 1].Freed? && !(n - 1 < |h| && h[n - 1].Freed?) then [n - 1] else []
  }

  lemma {:induction false} NewlyFreedExact(h: Heap, h': Heap, n: nat)
    requires n <= |h'|
    ensures var freed := NewlyFreed(h, h', n);
            && (forall a: Addr :: a in freed <==> a < n && h'[a].Freed? && !(a < |h| && h[a].Freed?))
            && (forall i, j :: 0 <= i < j < |freed| ==> freed[i] < freed[j])
  {
    if n > 0 {
      NewlyFreedExact(h, h', n - 1);
      var before := NewlyFreed(h, h', n - 1);
      assert forall i :: 0 <= i < |before| ==> before[i] in before;
    }
  }

  /** The log lists the freed allocations, each once. */
  ghost predicate LogFits(cells: Heap, freeLog: seq<Addr>) {
    && (forall i, j :: 0 <= i < j < |freeLog| ==> freeLog[i] != freeLog[j])
    && (forall a: Addr :: a in freeLog <==> a < |cells| && cells[a].Freed?)
  }

  ghost predicate Orderly(cells: Heap, freeLog: seq<Addr>, zombies: set<Addr>, roots: multiset<Addr>,
                          rank: Addr -> nat) {
    HeapOk(cells) && Accounted(cells, zombies, roots) && Ranked(cells, rank) && LogFits(cells, freeLog)
  }

  /** What the log has gained is what has been freed. */
  lemma FreedNow(h: Heap, log: seq<Addr>, h': Heap, log': seq<Addr>)
    requires LogFits(h, log) && LogFits(h', log') && |h'| == |h|
    ensures forall a: Addr :: a in log' && a !in log <==> Holds(h, a) && h'[a].Freed?
  {
  }

  class RocHeap {
    var cells: Heap
    ghost var freeLog: seq<Addr>  // every deallocation, in order

    ghost predicate LogOk()
      reads this
    {
      LogFits(cells, freeLog)
    }

    ghost predicate Ready(zombies: set<Addr>, roots: multiset<Addr>, rank: Addr -> nat)
      reads this
    {
      Orderly(cells, freeLog, zombies, roots, rank)
    }

    constructor ()
      ensures cells == [] && freeLog == []
      ensures forall rank: Addr -> nat :: Ready({}, multiset{}, rank)
    {
      cells := [];
      freeLog := [];
    }

    // ----- primitives on one allocation -----

    method Load(a: Addr) returns (count: nat)
      requires Holds(cells, a)
      ensures count == cells[a].count
    {
      count := cells[a].count;
    }

    method FetchSub(a: Addr) returns (prev: nat)
      requires Holds(cells, a) && cells[a].count > 0
      modifies this`cells
      ensures prev == old(cells[a].count) && cells == SetCount(old(cells), a, prev - 1)
      ensures old(LogOk()) ==> LogOk()
    {
      prev := cells[a].count;
      cells := cells[a := cells[a].(count := prev - 1)];
    }

    method FetchAdd(a: Addr, amount: nat)
      requires Holds(cells, a)
      modifies this`cells
      ensures cells == SetCount(old(cells), a, old(cells[a].count) + amount)
      ensures old(LogOk()) ==> LogOk()
    {
      cells := cells[a := cells[a].(count := cells[a].count + amount)];
    }

    method Dealloc(a: Addr)
      requires Holds(cells, a)
      modifies this
      ensures cells == old(cells)[a := Freed] && freeLog == old(freeLog) + [a]
      ensures old(LogOk()) ==> LogOk()
    {
      cells := cells[a := Freed];
      freeLog := freeLog + [a];
    }

    /** Compiled Roc code runs: it leaves the heap as it likes, but frees nothing twice. */
    method RunRoc(h': Heap)
      requires LogOk() && Grown(cells, h')
      modifies this
      ensures cells == h' && LogOk() && old(freeLog) <= freeLog
    {
      NewlyFreedExact(cells, h', |h'|);
      ghost var freed := NewlyFreed(cells, h', |h'|);
      assert forall i :: 0 <= i < |freeLog| ==> freeLog[i] in freeLog;
      assert forall i :: 0 <= i < |freed| ==> freed[i] in freed;
      freeLog := freeLog + freed;
      cells := h';
    }

    /** A new allocation: it starts at count one and takes over the references put into it. */
    method Allocate(kind: Kind, items: seq<Value>, ghost zombies: set<Addr>, ghost roots: multiset<Addr>,
                    ghost rank: Addr -> nat)
      returns (a: Addr, ghost rank': Addr -> nat)
      requires Ready(zombies, roots + RefsAll(items), rank) && CellOk(cells, Live(kind, 1, items))
      modifies this`cells
      ensures a == |old(cells)| && cells == old(cells) + [Live(kind, 1, items)]
      ensures Ready(zombies, roots + multiset{a}, rank') && forall b: Addr :: b != a ==> rank'(b) == rank(b)
    {
      hide Accounted, HeapOk, Ranked, CellOk, FitsAll, RefsAll;
      var c := Live(kind, 1, items);
      RocHeapSteps.Allocate(cells, zombies, roots, kind, items);
      rank' := NewRank(cells, zombies, roots, items, rank);
      HeapOkExtend(cells, c);
      LayoutOf(cells, c);
      RankedExtend(cells, c, rank, rank');
      a := |cells|;
      cells := cells + [c];
    }

    /** `decref` of a string or of a list's own refcount word. */
    method DecrefWord(p: Ptr)
      requires p.At? ==> Holds(cells, p.addr)
      modifies this
      ensures cells == AfterDecref(old(cells), p)
      ensures old(LogOk()) ==> LogOk()
      ensures old(freeLog) <= freeLog
    {
      if p.Null? {
        return;
      }
      var count := Load(p.addr);
      if count == 0 {
        return;  // static data
      }
      var prev := FetchSub(p.addr);
      if prev == 1 {
        Dealloc(p.addr);
        assert cells == old(cells)[p.addr := Freed];
      }
    }

    /** True if and only if there is an allocation and this is the only counted reference to
        it anywhere in the heap. */
    method HasOneRef(p: Ptr, ghost zombies: set<Addr>, ghost roots: multiset<Addr>) returns (one: bool)
      requires Accounted(cells, zombies, roots) && (p.At? ==> p.addr in roots)
      ensures p.At? ==> Holds(cells, p.addr) && p.addr !in zombies
      ensures one <==> p.At? && cells[p.addr].count > 0 && Everything(cells, zombies, roots)[p.addr] == 1
      ensures one <==> p.At? && cells[p.addr].count == 1
    {
      hide Accounted, Everything;
      if p.At? {
        OwnedIsLive(cells, zombies, roots, p.addr);
      }
      if p.Null? {
        return false;
      }
      var count := Load(p.addr);
      one := count == 1;
    }

    /** `is_unique` of strings and lists: no allocation, static data, or the only reference
        there is anywhere in the heap. */
    method IsUnique(p: Ptr, ghost zombies: set<Addr>, ghost roots: multiset<Addr>) returns (unique: bool)
      requires Accounted(cells, zombies, roots) && (p.At? ==> p.addr in roots)
      ensures p.At? ==> Holds(cells, p.addr)
      ensures unique <==> p.Null? || cells[p.addr].count == 0 || Everything(cells, zombies, roots)[p.addr] == 1
    {
      hide Accounted, Everything;
      if p.Null? {
        return true;
      }
      OwnedIsLive(cells, zombies, roots, p.addr);
      var count := Load(p.addr);
      unique := count == 0 || count == 1;
    }

    /** `is_unique_box` says no to static data. */
    method IsUniqueBox(p: Ptr, ghost zombies: set<Addr>, ghost roots: multiset<Addr>) returns (unique: bool)
      requires Accounted(cells, zombies, roots) && (p.At? ==> p.addr in roots)
      ensures p.At? ==> Holds(cells, p.addr)
      ensures unique <==> p.Null? || (cells[p.addr].count > 0 && Everything(cells, zombies, roots)[p.addr] == 1)
    {
      hide Accounted, Everything;
      if p.Null? {
        return true;
      }
      OwnedIsLive(cells, zombies, roots, p.addr);
      var count := Load(p.addr);
      unique := count == 1;
    }

    /** All items of the backing allocation, even through a slice: a slice reads the
        count word in the header, a whole list uses its own length. */
    method AllocationItems(v: Value) returns (items: seq<Value>)
      requires v.List? && v.deep && Fits(cells, v)
      requires v.alloc.At? ==> Holds(cells, v.alloc.addr)
      ensures items == if v.alloc.Null? then [] else cells[v.alloc.addr].items
    {
      if v.alloc.Null? {
        return [];
      }
      var elements := cells[v.alloc.addr].items;
      var n := if v.slice then |elements| else v.length;
      items := elements[..n];
    }

    // ----- recursive release -----

    /** Gives up one owner's references in v.  On return the books balance without
        them, whatever the heap looked like and whatever else is being torn down. */
    method Decref(v: Value, ghost zombies: set<Addr>, ghost roots: multiset<Addr>, ghost rank: Addr -> nat,
                  ghost bound: nat)
      requires Ready(zombies, roots + Refs(v), rank) && Fits(cells, v) && Below(Refs(v), rank, bound)
      modifies this
      ensures Ready(zombies, roots, rank) && Releases(old(cells), cells, zombies)
      ensures old(freeLog) <= freeLog
      decreases bound, v, 1
    {
      hide HeapOk, Ranked, Accounted, LogFits, Shrinks;
      match v {
        case Plain(_) =>
          assert roots + Refs(v) == roots;
          NothingReleased(cells, zombies, roots);
        case SmallStr =>
          assert roots + Refs(v) == roots;
          NothingReleased(cells, zombies, roots);
        case Str(p) =>
          DecrefFlat(p, zombies, roots, rank);
        case Box(p, deep) =>
          if deep {
            DecrefLate(v, zombies, roots, rank, bound);
          } else {
            DecrefFlat(p, zombies, roots, rank);
          }
        case List(p, _, _, _, deep) =>
          if deep {
            DecrefDeepList(v, zombies, roots, rank, bound);
          } else {
            DecrefFlat(p, zombies, roots, rank);
          }
        case Callable(p) =>
          DecrefLate(v, zombies, roots, rank, bound);
        case Struct(fields) =>
          DecrefAll(fields, zombies, roots, rank, bound);
        case Variant(_, payload) =>
          Decref(payload, zombies, roots, rank, bound);
      }
    }

    /** Strings, boxes and lists of plain elements: nothing inside is released. */
    method DecrefFlat(p: Ptr, ghost zombies: set<Addr>, ghost roots: multiset<Addr>, ghost rank: Addr -> nat)
      requires Ready(zombies, roots + RefOf(p), rank)
      requires PtrFits(cells, p, StrCell) || PtrFits(cells, p, BoxCell(false)) || PtrFits(cells, p, ListCell(false))
      modifies this
      ensures Ready(zombies, roots, rank) && Releases(old(cells), cells, zombies)
      ensures old(freeLog) <= freeLog
      ensures (p.At? ==> Holds(old(cells), p.addr)) && cells == AfterDecref(old(cells), p)
    {
      hide HeapOk, Ranked, Accounted, Shrinks, LogFits;
      if p.At? {
        OwnedIsLive(cells, zombies, roots + multiset{p.addr}, p.addr);
        Contents(cells, p.addr, rank);
        DecrefLeaf(cells, zombies, roots, p.addr);
      } else {
        assert roots + RefOf(p) == roots;
        NothingReleased(cells, zombies, roots);
      }
      DecrefWord(p);
      Kept(old(cells), rank);
    }

    /** Carries the layout facts over a release. */
    lemma Kept(h: Heap, rank: Addr -> nat)
      requires HeapOk(h) && Ranked(h, rank) && Shrinks(h, cells)
      ensures HeapOk(cells) && Ranked(cells, rank)
    {
      ShrinksThins(h, cells);
      HeapOkThins(h, cells);
      RankedThins(h, cells, rank);
    }

    method DecrefAll(vs: seq<Value>, ghost zombies: set<Addr>, ghost roots: multiset<Addr>, ghost rank: Addr -> nat,
                     ghost bound: nat)
      requires Ready(zombies, roots + RefsAll(vs), rank) && FitsAll(cells, vs) && Below(RefsAll(vs), rank, bound)
      modifies this
      ensures Ready(zombies, roots, rank) && Releases(old(cells), cells, zombies)
      ensures old(freeLog) <= freeLog
      decreases bound, vs, 0
    {
      hide HeapOk, Ranked, Accounted, Shrinks, LogFits;
      assert vs[0..] == vs;
      NothingReleased(cells, zombies, roots + RefsAll(vs));
      var i := 0;
      while i < |vs|
        invariant 0 <= i <= |vs|
        invariant Ready(zombies, roots + RefsAll(vs[i..]), rank)
        invariant FitsAll(cells, vs[i..]) && Below(RefsAll(vs[i..]), rank, bound)
        invariant Releases(old(cells), cells, zombies)
        invariant old(freeLog) <= freeLog
      {
        ghost var before := cells;
        NextItem(cells, vs, i, roots, rank, bound);
        Decref(vs[i], zombies, roots + RefsAll(vs[i + 1..]), rank, bound);
        ItemReleased(old(cells), before, cells, zombies, vs[i + 1..]);
        i := i + 1;
      }
      assert roots + RefsAll(vs[i..]) == roots;
    }

    /** A list of refcounted elements: the elements go first, while the list still
        holds its last reference, and only if that reference is the only one. */
    method DecrefDeepList(v: Value, ghost zombies: set<Addr>, ghost roots: multiset<Addr>, ghost rank: Addr -> nat,
                          ghost bound: nat)
      requires v.List? && v.deep
      requires Ready(zombies, roots + Refs(v), rank) && Fits(cells, v) && Below(Refs(v), rank, bound)
      modifies this
      ensures Ready(zombies, roots, rank) && Releases(old(cells), cells, zombies)
      ensures old(freeLog) <= freeLog
      ensures v.alloc.At? && Holds(old(cells), v.alloc.addr) && old(cells)[v.alloc.addr].count == 1 ==>
                v.alloc.addr < |cells| && cells[v.alloc.addr].Freed?
      decreases bound, v, 0
    {
      hide HeapOk, Ranked, Accounted, Shrinks, LogFits, Everything, FitsAll, RefsAll;
      var p := v.alloc;
      if p.At? {
        DecrefKeeps(cells, zombies, roots, p.addr);
      }
      var one := HasOneRef(p, zombies, roots + Refs(v));
      if one {
        var a := p.addr;
        var items := AllocationItems(v);
        ghost var start := cells;
        BeginDrop(cells, zombies, roots, rank, a, 1);
        assert SetCount(cells, a, 1) == cells;
        Contents(cells, a, rank);
        DropElements(a, items, zombies, roots, rank);
        EndDrop(start, zombies, roots, rank, a, 1, cells);
        DecrefWord(p);
      } else {
        if p.Null? {
          assert roots + Refs(v) == roots;
          NothingReleased(cells, zombies, roots);
        }
        DecrefWord(p);
        Kept(old(cells), rank);
      }
    }

    /** The element loop: whatever it releases, the list's own count stays one. */
    method DropElements(a: Addr, items: seq<Value>, ghost zombies: set<Addr>, ghost roots: multiset<Addr>,
                        ghost rank: Addr -> nat)
      requires Holds(cells, a) && cells[a].count == 1
      requires Ready(zombies + {a}, roots + RefsAll(items), rank) && FitsAll(cells, items) &&
               Below(RefsAll(items), rank, rank(a))
      modifies this
      ensures Ready(zombies + {a}, roots, rank) && Releases(old(cells), cells, zombies + {a})
      ensures Holds(cells, a) && cells[a] == old(cells)[a]
      ensures old(freeLog) <= freeLog
      decreases rank(a)
    {
      hide HeapOk, Ranked, Accounted, LogFits;
      assert a in zombies + {a};
      DecrefAll(items, zombies + {a}, roots, rank, rank(a));
    }

    /** A boxed function, or a box with a payload callback: the count drops first, then the
        captures or the payload are released, then the allocation goes. */
    method DecrefLate(v: Value, ghost zombies: set<Addr>, ghost roots: multiset<Addr>, ghost rank: Addr -> nat,
                      ghost bound: nat)
      requires v.Callable? || (v.Box? && v.deep)
      requires Ready(zombies, roots + Refs(v), rank) && Fits(cells, v) && Below(Refs(v), rank, bound)
      modifies this
      ensures Ready(zombies, roots, rank) && Releases(old(cells), cells, zombies)
      ensures old(freeLog) <= freeLog
      decreases bound, v, 0
    {
      hide HeapOk, Ranked, Accounted, Shrinks, LogFits;
      match v.data {
        case Null =>
          assert roots + Refs(v) == roots;
          NothingReleased(cells, zombies, roots);
        case At(a) =>
          assert Refs(v) == multiset{a} && rank(a) < bound;
          DecrefKeeps(cells, zombies, roots, a);
          var count := Load(a);
          if count == 0 {
            return;  // static data
          }
          ghost var start := cells;
          var prev := FetchSub(a);
          if prev == 1 {
            FinishLate(a, start, zombies, roots, rank);
          } else {
            assert cells == AfterDecref(start, v.data);
            Kept(start, rank);
          }
      }
    }

    /** The final release: `on_drop` or the payload callback, if there is one, while the
        count already reads 0, and then the deallocation. */
    method FinishLate(a: Addr, ghost start: Heap, ghost zombies: set<Addr>, ghost roots: multiset<Addr>,
                      ghost rank: Addr -> nat)
      requires Holds(start, a) && (start[a].kind.CallableCell? || start[a].kind == BoxCell(true)) &&
               start[a].count == 1 && a !in zombies
      requires HeapOk(start) && Ranked(start, rank) && Accounted(start, zombies, roots + multiset{a})
      requires cells == SetCount(start, a, 0) && LogOk()
      modifies this
      ensures Ready(zombies, roots, rank) && Releases(start, cells, zombies)
      ensures old(freeLog) <= freeLog
      decreases rank(a)
    {
      hide HeapOk, Ranked, Accounted, Shrinks, LogFits;
      BeginDrop(start, zombies, roots, rank, a, 0);
      Contents(cells, a, rank);
      if DropsLate(cells[a].kind) {
        DecrefAll(cells[a].items, zombies + {a}, roots, rank, rank(a));
      } else {
        assert roots + RefsAll(cells[a].items) == roots;
        NothingReleased(cells, zombies + {a}, roots);
      }
      EndDrop(start, zombies, roots, rank, a, 0, cells);
      Dealloc(a);
    }

    // ----- retaining -----

    /** n more owners of v.  Shallow: only the counts v itself points at go up. */
    method Incref(v: Value, amount: nat, ghost zombies: set<Addr>, ghost roots: multiset<Addr>, ghost rank: Addr -> nat)
      requires Ready(zombies, roots, rank) && Refs(v) <= roots
      modifies this`cells
      ensures Ready(zombies, roots + Times(Refs(v), amount), rank)
      ensures Shrinks(cells, old(cells)) && Thins(old(cells), cells)
      decreases v, 1
    {
      hide HeapOk, Ranked, Accounted, LogFits, Shrinks, Thins;
      match v {
        case Plain(_) => NothingRetained(cells, roots, amount);
        case SmallStr => NothingRetained(cells, roots, amount);
        case Str(p) => IncrefWord(p, amount, zombies, roots, rank);
        case List(p, _, _, _, _) => IncrefWord(p, amount, zombies, roots, rank);
        case Box(p, _) => IncrefWord(p, amount, zombies, roots, rank);
        case Callable(p) => IncrefWord(p, amount, zombies, roots, rank);
        case Struct(fields) => IncrefAll(fields, amount, zombies, roots, rank);
        case Variant(_, payload) => Incref(payload, amount, zombies, roots, rank);
      }
    }

    method IncrefWord(p: Ptr, amount: nat, ghost zombies: set<Addr>, ghost roots: multiset<Addr>,
                      ghost rank: Addr -> nat)
      requires Ready(zombies, roots, rank) && RefOf(p) <= roots
      modifies this`cells
      ensures Ready(zombies, roots + Times(RefOf(p), amount), rank)
      ensures Shrinks(cells, old(cells)) && Thins(old(cells), cells)
      ensures p.Null? ==> cells == old(cells)
      ensures p.At? ==> Holds(old(cells), p.addr) && cells == Bumped(old(cells), p.addr, amount)
    {
      hide HeapOk, Ranked, Accounted, Shrinks, LogFits, Thins, StaticClosed, Balanced;
      if p.Null? {
        NothingRetained(cells, roots, amount);
        return;
      }
      assert p.addr in roots;
      Retain(cells, zombies, roots, p.addr, amount);
      ghost var start := cells;
      var count := Load(p.addr);
      if count != 0 {  // static data is not counted
        FetchAdd(p.addr, amount);
      }
      assert cells == Bumped(start, p.addr, amount);
      BumpedKeeps(start, p.addr, amount, rank);
    }

    method IncrefAll(vs: seq<Value>, amount: nat, ghost zombies: set<Addr>, ghost roots: multiset<Addr>,
                     ghost rank: Addr -> nat)
      requires Ready(zombies, roots, rank) && RefsAll(vs) <= roots
      modifies this`cells
      ensures Ready(zombies, roots + Times(RefsAll(vs), amount), rank)
      ensures Shrinks(cells, old(cells)) && Thins(old(cells), cells)
      decreases vs, 0
    {
      hide HeapOk, Ranked, Accounted, LogFits;
      var i := 0;
      NothingRetained(cells, roots, amount);
      assert RefsAll(vs[..0]) == multiset{};
      while i < |vs|
        invariant 0 <= i <= |vs|
        invariant Ready(zombies, roots + Times(RefsAll(vs[..i]), amount), rank)
        invariant Shrinks(cells, old(cells)) && Thins(old(cells), cells)
      {
        ghost var before := cells;
        TimesNext(vs, i, amount, roots);
        Incref(vs[i], amount, zombies, roots + Times(RefsAll(vs[..i]), amount), rank);
        ShrinksTrans(cells, before, old(cells));
        i := i + 1;
      }
      assert vs[..i] == vs;
    }

    // ----- whole-heap guarantees -----

    /** The caller's view of a release, with no teardown in progress: afterwards the
        remaining owners' books balance, exactly what they cannot reach has been freed,
        and the deallocations made are those cells, each once. */
    method Release(v: Value, ghost roots: multiset<Addr>, ghost rank: Addr -> nat)
      requires Ready({}, roots + Refs(v), rank) && Fits(cells, v)
      modifies this
      ensures Ready({}, roots, rank) && Shrinks(old(cells), cells) && old(freeLog) <= freeLog
      ensures forall a: Addr :: Holds(old(cells), a) && old(cells)[a].count > 0 ==>
                (cells[a].Freed? <==> !Reachable(old(cells), roots, a))
      ensures forall a: Addr :: a in freeLog && a !in old(freeLog) <==> Holds(old(cells), a) && cells[a].Freed?
      ensures forall a: Addr :: Holds(cells, a) && cells[a].count > 0 ==>
                old(cells)[a].count == cells[a].count + Refs(v)[a] + Owned(old(cells), Survivors(cells), |cells|)[a]
    {
      hide LogFits;
      ghost var start, log := cells, freeLog;
      ghost var bound := RankBound(cells, rank, |cells|);
      forall a <- Refs(v) ensures rank(a) < bound {
        OwnedIsLive(cells, {}, roots + Refs(v), a);
      }
      Decref(v, {}, roots, rank, bound);
      FreedNow(start, log, cells, freeLog);
      forall a: Addr | Holds(start, a) && start[a].count > 0 ensures cells[a].Freed? <==> !Reachable(start, roots, a) {
        ReleaseFreesExactly(start, cells, roots, rank, a);
      }
      forall a: Addr | Holds(cells, a) && cells[a].count > 0
        ensures start[a].count == cells[a].count + Refs(v)[a] + Owned(start, Survivors(cells), |cells|)[a]
      {
        ReleaseConserves(start, cells, roots, Refs(v), a);
      }
    }

    /** When every owner lets go, nothing but static data remains. */
    method ReleaseEveryOwner(vs: seq<Value>, ghost rank: Addr -> nat)
      requires Ready({}, RefsAll(vs), rank) && FitsAll(cells, vs)
      modifies this
      ensures Ready({}, multiset{}, rank)
      ensures forall a: Addr :: a < |cells| ==> cells[a].Freed? || cells[a].count == 0
      ensures forall a: Addr :: Holds(old(cells), a) && old(cells)[a].count == 0 ==>
                a < |cells| && cells[a] == old(cells)[a]
    {
      ghost var start := cells;
      ghost var bound := RankBound(cells, rank, |cells|);
      assert multiset{} + RefsAll(vs) == RefsAll(vs);
      forall a <- RefsAll(vs) ensures rank(a) < bound {
        OwnedIsLive(cells, {}, RefsAll(vs), a);
      }
      DecrefAll(vs, {}, multiset{}, rank, bound);
      NoOwnersNoCells(cells, rank);
      forall a: Addr | Holds(start, a) && start[a].count == 0 ensures a < |cells| && cells[a] == start[a] {
        assert CellShrinks(start[a], cells[a]);
      }
    }

    /** Shallow retains and deep releases cancel: n increfs' worth of owners, given up
        one at a time, leave the heap as it was. */
    method IncrefThenDecrefs(v: Value, n: nat, ghost roots: multiset<Addr>, ghost rank: Addr -> nat)
      requires Ready({}, roots, rank) && Refs(v) <= roots && Fits(cells, v)
      modifies this
      ensures cells == old(cells)
    {
      ghost var start := cells;
      ghost var bound := RankBound(cells, rank, |cells|);
      forall a <- Refs(v) ensures rank(a) < bound {
        OwnedIsLive(cells, {}, roots, a);
      }
      Incref(v, n, {}, roots, rank);
      ghost var bumped := cells;
      FitsAllThins(start, bumped, [v]);
      DecrefTimes(v, n, roots, rank, bound);
      ReleaseIsDetermined(bumped, cells, start, roots, rank);
    }

    method DecrefTimes(v: Value, n: nat, ghost roots: multiset<Addr>, ghost rank: Addr -> nat, ghost bound: nat)
      requires Ready({}, roots + Times(Refs(v), n), rank) && FitsAll(cells, [v]) && Below(Refs(v), rank, bound)
      modifies this
      ensures Ready({}, roots, rank) && Shrinks(old(cells), cells)
    {
      hide HeapOk, Ranked, Accounted;
      NothingReleased(cells, {}, roots + Times(Refs(v), n));
      var i := n;
      while i > 0
        invariant 0 <= i <= n
        invariant Ready({}, roots + Times(Refs(v), i), rank)
        invariant Releases(old(cells), cells, {}) && FitsAll(cells, [v])
      {
        ghost var before := cells;
        OneLess(roots, Refs(v), i);
        Decref(v, {}, roots + Times(Refs(v), i - 1), rank, bound);
        ItemReleased(old(cells), before, cells, {}, [v]);
        i := i - 1;
      }
      assert roots + Times(Refs(v), 0) == roots;
    }
  }

  // ----- every kind of value and of allocation -----

  /** Each pointer in a value is one reference, whatever it points at. */
  lemma EveryPointerCounts(a: Addr, deep: bool, start: nat, length: nat, slice: bool, tag: nat)
    ensures Refs(Str(At(a))) == Refs(Box(At(a), deep)) == Refs(Callable(At(a))) == multiset{a}
    ensures Refs(List(At(a), slice, start, length, deep)) == Refs(Variant(tag, Str(At(a)))) == multiset{a}
  {
    assert RefOf(At(a)) == multiset{a};
  }

  /** So does each in the fields of a record, as often as it stands there. */
  lemma EveryFieldCounts(u: Value, v: Value, w: Value, x: Value)
    ensures Refs(Struct([u, v, w, x])) == Refs(u) + Refs(v) + Refs(w) + Refs(x)
  {
    RefsOfFour(u, v, w, x);
    hide RefsAll;
  }

  lemma RefsOfFirst(v: Value, vs: seq<Value>)
    ensures RefsAll([v] + vs) == Refs(v) + RefsAll(vs)
  {
    hide Refs;
    assert ([v] + vs)[1..] == vs;
  }

  lemma RefsOfFour(u: Value, v: Value, w: Value, x: Value)
    ensures RefsAll([u, v, w, x]) == Refs(u) + Refs(v) + Refs(w) + Refs(x)
  {
    hide Refs;
    RefsOfFirst(u, [v, w, x]);
    RefsOfFirst(v, [w, x]);
    RefsOfFirst(w, [x]);
    RefsOfFirst(x, []);
    assert RefsAll([]) == multiset{};
    hide RefsAll;
    assert [u] + [v, w, x] == [u, v, w, x] && [v] + [w, x] == [v, w, x] && [w] + [x] == [w, x] && [x] + [] == [x];
  }

  /** An allocation that holds the only reference to a string. */
  function Holder(kind: Kind): Heap {
    [Live(kind, 1, [Str(At(1))]), Live(StrCell, 1, [])]
  }

  /** What refers to it. */
  function HolderValue(kind: Kind): Value {
    match kind
    case ListCell(_) => List(At(0), false, 0, 1, true)
    case BoxCell(_) => Box(At(0), true)
    case _ => Callable(At(0))
  }

  lemma HeldRefs(h: Heap)
    requires |h| == 2 && h[1] == Live(StrCell, 1, [])
    ensures RefsAll([]) == multiset{} && RefsAll([Str(At(1))]) == multiset{1} && FitsAll(h, [Str(At(1))])
  {
    RefsOfFirst(Str(At(1)), []);
    assert [Str(At(1))] + [] == [Str(At(1))] && [Str(At(1))][1..] == [];
  }

  lemma HolderFits(kind: Kind)
    requires kind == ListCell(true) || kind == BoxCell(true) || kind == CallableCell(true)
    ensures HeapOk(Holder(kind)) && Fits(Holder(kind), HolderValue(kind)) && Refs(HolderValue(kind)) == multiset{0}
    ensures Ranked(Holder(kind), a => if a == 0 then 1 else 0)
  {
    HeldRefs(Holder(kind));
    hide RefsAll, FitsAll;
    assert FitsAll(Holder(kind), []);
  }

  lemma HolderIsAccounted(kind: Kind)
    ensures Accounted(Holder(kind), {}, multiset{0})
  {
    hide RefsAll;
    var h := Holder(kind);
    HeldRefs(h);
    assert Owned(h, {}, 1) == Owned(h, {}, 0) + CellRefs(h, {}, 0);
    assert Owned(h, {}, 2) == Owned(h, {}, 1) + CellRefs(h, {}, 1);
    hide Owned;
    assert Everything(h, {}, multiset{0}) == multiset{0, 1};
  }

  /** Lists of refcounted elements, boxes with a payload callback and callables with an
      `on_drop` take what they hold with them. */
  method ReleaseHolder(kind: Kind) returns (heap: RocHeap)
    requires kind == ListCell(true) || kind == BoxCell(true) || kind == CallableCell(true)
    ensures fresh(heap) && heap.cells == [Freed, Freed]
  {
    heap := new RocHeap();
    HolderFits(kind);
    HolderIsAccounted(kind);
    hide HeapOk, Accounted, Ranked, Refs, Fits;
    heap.RunRoc(Holder(kind));
    ghost var rank: Addr -> nat := a => if a == 0 then 1 else 0;
    assert multiset{} + Refs(HolderValue(kind)) == multiset{0};
    hide LogFits, Reachable, Owned;
    heap.Release(HolderValue(kind), multiset{}, rank);
    NobodyReaches(Holder(kind));
    BothGone(Holder(kind), heap.cells);
  }

  lemma BothGone(h: Heap, h': Heap)
    requires |h| == 2 && Shrinks(h, h') && Holds(h, 0) && Holds(h, 1) && h'[0].Freed? && h'[1].Freed?
    ensures h' == [Freed, Freed]
  {
  }

  lemma NobodyReaches(h: Heap)
    ensures forall a: Addr :: !Reachable(h, multiset{}, a)
  {
  }
}
