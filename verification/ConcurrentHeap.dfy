/** Any number of threads releasing and retaining references to one shared heap.
    Each load, `fetch_add`, `fetch_sub` and deallocation is a step of its own, so
    the steps of different threads interleave in every possible way.  Atomics are
    taken to be sequentially consistent. */
module ConcurrentRoc {
  import opened RocGraph
  import opened RocHeapSteps
  import opened RocHeapReachability

  /** What a thread is in the middle of.  `sole` records that `has_one_ref` was seen true. */
  datatype Frame =
    | Probe(a: Addr)                                 // about to load in has_one_ref
    | Check(a: Addr, sole: bool)                     // about to load in decref
    | Sub(a: Addr, sole: bool)                       // about to fetch_sub
    | Elements(a: Addr, rest: multiset<Addr>)        // list elements still to release
    | Captures(a: Addr, rest: multiset<Addr>)        // captures still to release
    | Free(a: Addr)                                  // about to deallocate
    | Raise(a: Addr, n: nat)                         // about to load in incref
    | Add(a: Addr, n: nat)                           // about to fetch_add

  /** `own` are references held by nobody's current operation; stack[0] runs next. */
  datatype Thread = Thread(own: multiset<Addr>, stack: seq<Frame>)

  /** `draining` and `dead` are the allocations under teardown, with count 1 and 0;
      `leaked` collects references whose holder was freed without releasing them. */
  datatype State = State(cells: Heap, threads: seq<Thread>, draining: set<Addr>, dead: set<Addr>,
                         leaked: multiset<Addr>)

  datatype Action =
    | BeginRelease(a: Addr)
    | BeginRetain(a: Addr, n: nat)
    | NextItem(b: Addr)
    | Run
    | Send(to: nat, refs: multiset<Addr>)
    | New(kind: Kind, items: seq<Value>)

  // ----- the steps -----

  function StartRelease(k: Kind, a: Addr): Frame {
    if k == ListCell(true) then Probe(a) else Check(a, false)
  }

  ghost function SetTop(s: State, t: nat, frames: seq<Frame>): seq<Thread>
    requires t < |s.threads| && s.threads[t].stack != []
  {
    s.threads[t := s.threads[t].(stack := frames + s.threads[t].stack[1..])]
  }

  ghost function Gain(s: State, t: nat, refs: multiset<Addr>): seq<Thread>
    requires t < |s.threads| && s.threads[t].stack != []
  {
    s.threads[t := Thread(s.threads[t].own + refs, s.threads[t].stack[1..])]
  }

  /** The load in `has_one_ref`. */
  ghost predicate RunProbe(s: State, t: nat, a: Addr, s': State)
    requires t < |s.threads| && s.threads[t].stack != []
  {
    Holds(s.cells, a) &&
    if s.cells[a].count == 1 then
      s' == s.(threads := SetTop(s, t, [Elements(a, RefsAll(s.cells[a].items))]), draining := s.draining + {a})
    else
      s' == s.(threads := SetTop(s, t, [Check(a, false)]))
  }

  /** The load in `decref`: static data is left alone. */
  ghost predicate RunCheck(s: State, t: nat, a: Addr, sole: bool, s': State)
    requires t < |s.threads| && s.threads[t].stack != []
  {
    Holds(s.cells, a) &&
    s' == s.(threads := SetTop(s, t, if s.cells[a].count == 0 then [] else [Sub(a, sole)]))
  }

  ghost predicate RunFree(s: State, t: nat, a: Addr, s': State)
    requires t < |s.threads| && s.threads[t].stack != []
  {
    Holds(s.cells, a) &&
    s' == s.(cells := s.cells[a := Freed], threads := SetTop(s, t, []), dead := s.dead - {a})
  }

  /** The load in `incref`. */
  ghost predicate RunRaise(s: State, t: nat, a: Addr, n: nat, s': State)
    requires t < |s.threads| && s.threads[t].stack != []
  {
    Holds(s.cells, a) &&
    if s.cells[a].count == 0 then
      s' == s.(threads := Gain(s, t, multiset{a} + Times(multiset{a}, n)))
    else
      s' == s.(threads := SetTop(s, t, [Add(a, n)]))
  }

  ghost predicate RunAdd(s: State, t: nat, a: Addr, n: nat, s': State)
    requires t < |s.threads| && s.threads[t].stack != []
  {
    Holds(s.cells, a) &&
    s' == s.(cells := SetCount(s.cells, a, s.cells[a].count + n),
             threads := Gain(s, t, multiset{a} + Times(multiset{a}, n)))
  }

  /** The end of an element or capture loop. */
  ghost predicate RunLoopEnd(s: State, t: nat, rest: multiset<Addr>, next: Frame, s': State)
    requires t < |s.threads| && s.threads[t].stack != []
  {
    rest == multiset{} && s' == s.(threads := SetTop(s, t, [next]))
  }

  /** One step of the frame on top of thread t's stack. */
  ghost predicate RunTop(s: State, t: nat, s': State)
    requires t < |s.threads| && s.threads[t].stack != []
  {
    match s.threads[t].stack[0]
    case Probe(a) => RunProbe(s, t, a, s')
    case Elements(a, rest) => RunLoopEnd(s, t, rest, Check(a, true), s')
    case Check(a, sole) => RunCheck(s, t, a, sole, s')
    case Sub(a, sole) => Holds(s.cells, a) && s.cells[a].count > 0 && s' == AfterSub(s, t, a, sole)
    case Captures(a, rest) => RunLoopEnd(s, t, rest, Free(a), s')
    case Free(a) => RunFree(s, t, a, s')
    case Raise(a, n) => RunRaise(s, t, a, n, s')
    case Add(a, n) => RunAdd(s, t, a, n, s')
  }

  /** `fetch_sub`, and on the last reference the choice of teardown. */
  ghost function AfterSub(s: State, t: nat, a: Addr, sole: bool): State
    requires t < |s.threads| && s.threads[t].stack != [] && Holds(s.cells, a) && s.cells[a].count > 0
  {
    var prev := s.cells[a].count;
    var cells' := SetCount(s.cells, a, prev - 1);
    if prev > 1 then
      s.(cells := cells', threads := SetTop(s, t, []))
    else if sole then
      s.(cells := cells', threads := SetTop(s, t, [Free(a)]), draining := s.draining - {a}, dead := s.dead + {a})
    else if DropsLate(s.cells[a].kind) then
      s.(cells := cells', threads := SetTop(s, t, [Captures(a, RefsAll(s.cells[a].items))]), dead := s.dead + {a})
    else
      s.(cells := cells', threads := SetTop(s, t, [Free(a)]), dead := s.dead + {a},
         leaked := s.leaked + RefsAll(s.cells[a].items))
  }

  /** Only what has its contents released may hold references. */
  ghost predicate Releasable(kind: Kind, items: seq<Value>) {
    DropsContents(kind) || RefsAll(items) == multiset{}
  }

  ghost predicate Step(s: State, t: nat, act: Action, s': State) {
    && t < |s.threads|
    && var th := s.threads[t];
    match act
    case BeginRelease(a) =>
      && th.stack == [] && a in th.own && Holds(s.cells, a)
      && s' == s.(threads := s.threads[t := Thread(th.own - multiset{a}, [StartRelease(s.cells[a].kind, a)])])
    case BeginRetain(a, n) =>
      && th.stack == [] && a in th.own
      && s' == s.(threads := s.threads[t := Thread(th.own - multiset{a}, [Raise(a, n)])])
    case NextItem(b) =>
      && th.stack != [] && (th.stack[0].Elements? || th.stack[0].Captures?)
      && b in th.stack[0].rest && Holds(s.cells, b)
      && s' == s.(threads := SetTop(s, t, [StartRelease(s.cells[b].kind, b),
                                           th.stack[0].(rest := th.stack[0].rest - multiset{b})]))
    case Run =>
      th.stack != [] && RunTop(s, t, s')
    case Send(u, refs) =>
      && th.stack == [] && u < |s.threads| && u != t && refs <= th.own
      && s' == s.(threads := s.threads[t := th.(own := th.own - refs)]
                                      [u := s.threads[u].(own := s.threads[u].own + refs)])
    case New(kind, items) =>
      && th.stack == [] && RefsAll(items) <= th.own && Releasable(kind, items)
      && s' == s.(cells := s.cells + [Live(kind, 1, items)],
                  threads := s.threads[t := th.(own := th.own - RefsAll(items) + multiset{|s.cells|})])
  }

  // ----- accounting across threads -----

  datatype Role = Held | Draining | Dead | Busy

  /** Held: references the frame owns.  Draining, Dead: the allocation it alone is
      tearing down.  Busy: an allocation it has seen to be counted. */
  ghost function Tally(f: Frame, r: Role): multiset<Addr> {
    match f
    case Probe(a) => if r == Held then multiset{a} else multiset{}
    case Check(a, sole) => if r == (if sole then Draining else Held) then multiset{a} else multiset{}
    case Sub(a, sole) =>
      if sole then (if r == Draining then multiset{a} else multiset{})
      else if r == Held || r == Busy then multiset{a} else multiset{}
    case Elements(a, rest) =>
      if r == Held then rest else if r == Draining then multiset{a} else multiset{}
    case Captures(a, rest) =>
      if r == Held then rest else if r == Dead then multiset{a} else multiset{}
    case Free(a) => if r == Dead then multiset{a} else multiset{}
    case Raise(a, _) => if r == Held then multiset{a} else multiset{}
    case Add(a, _) => if r == Held || r == Busy then multiset{a} else multiset{}
  }

  ghost function TallyStack(fs: seq<Frame>, r: Role): multiset<Addr> {
    if fs == [] then multiset{} else Tally(fs[0], r) + TallyStack(fs[1..], r)
  }

  ghost function TallyThread(th: Thread, r: Role): multiset<Addr> {
    TallyStack(th.stack, r) + if r == Held then th.own else multiset{}
  }

  ghost function TallyAll(ts: seq<Thread>, r: Role): multiset<Addr> {
    if ts == [] then multiset{} else TallyThread(ts[0], r) + TallyAll(ts[1..], r)
  }

  /** What all threads but t contribute. */
  ghost function Others(ts: seq<Thread>, t: nat, r: Role): multiset<Addr>
    requires t < |ts|
  {
    TallyAll(ts[..t], r) + TallyAll(ts[t + 1..], r)
  }

  lemma {:induction false} TallySplit(ts: seq<Thread>, t: nat, r: Role)
    requires t < |ts|
    ensures TallyAll(ts, r) == Others(ts, t, r) + TallyThread(ts[t], r)
  {
    if t > 0 {
      TallySplit(ts[1..], t - 1, r);
      assert ts[1..][..t - 1] == ts[..t][1..];
      assert ts[1..][t..] == ts[t + 1..];
    }
  }

  lemma TallyUpdate(ts: seq<Thread>, t: nat, th: Thread, r: Role)
    requires t < |ts|
    ensures TallyAll(ts, r) == Others(ts, t, r) + TallyThread(ts[t], r)
    ensures TallyAll(ts[t := th], r) == Others(ts, t, r) + TallyThread(th, r)
  {
    TallySplit(ts, t, r);
    TallySplit(ts[t := th], t, r);
    assert ts[t := th][..t] == ts[..t] && ts[t := th][t + 1..] == ts[t + 1..];
  }

  // ----- the invariant, for arbitrary totals -----

  ghost predicate Once(m: multiset<Addr>, s: set<Addr>) {
    forall a: Addr :: m[a] == if a in s then 1 else 0
  }

  lemma OnceMore(m: multiset<Addr>, s: set<Addr>, a: Addr)
    requires Once(m, s) && a !in s
    ensures Once(m + multiset{a}, s + {a})
  {
  }

  lemma OnceLess(m: multiset<Addr>, s: set<Addr>, a: Addr)
    requires Once(m + multiset{a}, s)
    ensures a in s && Once(m, s - {a})
  {
    assert (m + multiset{a})[a] == m[a] + 1;
    forall b: Addr ensures m[b] == if b in s - {a} then 1 else 0 {
      assert (m + multiset{a})[b] == m[b] + multiset{a}[b];
    }
  }

  /** roots: references held by threads, plus leaked ones.  dr, de: how often each
      allocation is being torn down.  busy: allocations seen to be counted. */
  ghost predicate Consistent(h: Heap, draining: set<Addr>, dead: set<Addr>, roots: multiset<Addr>,
                             dr: multiset<Addr>, de: multiset<Addr>, busy: multiset<Addr>)
  {
    && Accounted(h, draining + dead, roots)
    && Once(dr, draining) && Once(de, dead) && draining !! dead
    && (forall z <- draining :: Holds(h, z) && h[z].count == 1)
    && (forall z <- dead :: Holds(h, z) && h[z].count == 0)
    && (forall a <- busy :: Holds(h, a) && h[a].count > 0)
  }

  ghost predicate Inv(s: State) {
    Consistent(s.cells, s.draining, s.dead, TallyAll(s.threads, Held) + s.leaked,
               TallyAll(s.threads, Draining), TallyAll(s.threads, Dead), TallyAll(s.threads, Busy))
  }

  lemma HeldIsSafe(h: Heap, draining: set<Addr>, dead: set<Addr>, roots: multiset<Addr>,
                   dr: multiset<Addr>, de: multiset<Addr>, busy: multiset<Addr>, a: Addr)
    requires Consistent(h, draining, dead, roots, dr, de, busy)
    ensures a in roots ==> Holds(h, a) && a !in draining && a !in dead
    ensures a in dr ==> Holds(h, a) && h[a].count == 1 && a in draining
    ensures a in de ==> Holds(h, a) && h[a].count == 0 && a in dead
    ensures a in busy ==> Holds(h, a) && h[a].count > 0
  {
    if a in roots {
      OwnedIsLive(h, draining + dead, roots, a);
      assert a !in draining + dead;
    }
  }

  lemma StaticRelease(h: Heap, draining: set<Addr>, dead: set<Addr>, roots: multiset<Addr>,
                      dr: multiset<Addr>, de: multiset<Addr>, busy: multiset<Addr>, a: Addr)
    requires Consistent(h, draining, dead, roots + multiset{a}, dr, de, busy) && Holds(h, a) && h[a].count == 0
    ensures Consistent(h, draining, dead, roots, dr, de, busy)
  {
    hide Accounted, Once;
    ReleaseStatic(h, draining + dead, roots, a);
  }

  lemma SharedRelease(h: Heap, draining: set<Addr>, dead: set<Addr>, roots: multiset<Addr>,
                      dr: multiset<Addr>, de: multiset<Addr>, busy: multiset<Addr>, a: Addr)
    requires Consistent(h, draining, dead, roots + multiset{a}, dr, de, busy) && Holds(h, a) && h[a].count > 1
    ensures Consistent(SetCount(h, a, h[a].count - 1), draining, dead, roots, dr, de, busy)
  {
    hide Accounted, Once;
    ReleaseShared(h, draining + dead, roots, a);
  }

  /** Nobody but the acting frame refers to an allocation whose count is 1. */
  lemma SoleOwner(h: Heap, zombies: set<Addr>, roots: multiset<Addr>, a: Addr)
    requires Accounted(h, zombies, roots + multiset{a}) && Holds(h, a) && h[a].count == 1
    ensures a !in roots && a !in zombies
  {
    OwnedIsLive(h, zombies, roots + multiset{a}, a);
  }

  lemma Drain(h: Heap, draining: set<Addr>, dead: set<Addr>, roots: multiset<Addr>,
              dr: multiset<Addr>, de: multiset<Addr>, busy: multiset<Addr>, a: Addr)
    requires Consistent(h, draining, dead, roots + multiset{a}, dr, de, busy) && Holds(h, a) && h[a].count == 1
    ensures Consistent(h, draining + {a}, dead, roots + RefsAll(h[a].items), dr + multiset{a}, de, busy)
  {
    hide Accounted, RefsAll, Once;
    SoleOwner(h, draining + dead, roots, a);
    BeginTeardown(h, draining + dead, roots, a, 1);
    assert SetCount(h, a, 1) == h;
    assert draining + dead + {a} == draining + {a} + dead;
    OnceMore(dr, draining, a);
  }

  lemma LastRelease(h: Heap, draining: set<Addr>, dead: set<Addr>, roots: multiset<Addr>,
                    dr: multiset<Addr>, de: multiset<Addr>, busy: multiset<Addr>, a: Addr)
    requires Consistent(h, draining, dead, roots + multiset{a}, dr, de, busy) && Holds(h, a) && h[a].count == 1
    requires a !in busy
    ensures Consistent(SetCount(h, a, 0), draining, dead + {a}, roots + RefsAll(h[a].items), dr, de + multiset{a}, busy)
  {
    hide Accounted, RefsAll, Once;
    SoleOwner(h, draining + dead, roots, a);
    BeginTeardown(h, draining + dead, roots, a, 0);
    assert draining + dead + {a} == draining + (dead + {a});
    OnceMore(de, dead, a);
  }

  lemma ZombieRecount(h: Heap, zombies: set<Addr>, roots: multiset<Addr>, a: Addr, c: nat)
    requires Accounted(h, zombies, roots) && a in zombies
    ensures Holds(h, a) && Accounted(SetCount(h, a, c), zombies, roots)
  {
    hide RefsAll;
    OwnedRecount(h, zombies, a, c);
    StaticClosedKept(h, zombies, SetCount(h, a, c), zombies);
  }

  lemma SoleRelease(h: Heap, draining: set<Addr>, dead: set<Addr>, roots: multiset<Addr>,
                    dr: multiset<Addr>, de: multiset<Addr>, busy: multiset<Addr>, a: Addr)
    requires Consistent(h, draining, dead, roots, dr + multiset{a}, de, busy) && a !in busy
    ensures Holds(h, a) && Consistent(SetCount(h, a, 0), draining - {a}, dead + {a}, roots, dr, de + multiset{a}, busy)
  {
    hide Accounted, Once;
    OnceLess(dr, draining, a);
    OnceMore(de, dead, a);
    ZombieRecount(h, draining + dead, roots, a, 0);
    assert draining + dead == draining - {a} + (dead + {a});
  }

  lemma Deallocate(h: Heap, draining: set<Addr>, dead: set<Addr>, roots: multiset<Addr>,
                   dr: multiset<Addr>, de: multiset<Addr>, busy: multiset<Addr>, a: Addr)
    requires Consistent(h, draining, dead, roots, dr, de + multiset{a}, busy)
    ensures Holds(h, a) && Consistent(h[a := Freed], draining, dead - {a}, roots, dr, de, busy)
  {
    hide Accounted, Once;
    OnceLess(de, dead, a);
    assert draining + dead == draining + (dead - {a}) + {a};
    EndTeardown(h, draining + (dead - {a}), roots, a);
  }

  lemma Bump(h: Heap, draining: set<Addr>, dead: set<Addr>, roots: multiset<Addr>,
             dr: multiset<Addr>, de: multiset<Addr>, busy: multiset<Addr>, a: Addr, n: nat)
    requires Consistent(h, draining, dead, roots, dr, de, busy) && a in roots
    ensures Holds(h, a) && Consistent(Bumped(h, a, n), draining, dead, roots + Times(multiset{a}, n), dr, de, busy)
  {
    hide Accounted, Once;
    HeldIsSafe(h, draining, dead, roots, dr, de, busy, a);
    Retain(h, draining + dead, roots, a, n);
  }

  lemma Create(h: Heap, draining: set<Addr>, dead: set<Addr>, roots: multiset<Addr>,
               dr: multiset<Addr>, de: multiset<Addr>, busy: multiset<Addr>, kind: Kind, items: seq<Value>)
    requires Consistent(h, draining, dead, roots + RefsAll(items), dr, de, busy)
    ensures Consistent(h + [Live(kind, 1, items)], draining, dead, roots + multiset{|h|}, dr, de, busy)
  {
    hide Accounted, RefsAll, Once;
    Allocate(h, draining + dead, roots, kind, items);
  }

  // ----- one thread's contribution -----

  /** Everything except the frame on top of thread t's stack. */
  ghost function Rest(s: State, t: nat, r: Role): multiset<Addr>
    requires t < |s.threads| && s.threads[t].stack != []
  {
    Others(s.threads, t, r) + TallyThread(s.threads[t].(stack := s.threads[t].stack[1..]), r)
  }

  lemma {:induction false} TallyAppend(fs: seq<Frame>, gs: seq<Frame>, r: Role)
    ensures TallyStack(fs + gs, r) == TallyStack(fs, r) + TallyStack(gs, r)
  {
    hide Tally;
    if fs == [] {
      assert fs + gs == gs;
    } else {
      TallyAppend(fs[1..], gs, r);
      assert (fs + gs)[1..] == fs[1..] + gs;
    }
  }

  lemma TopTally(s: State, t: nat, r: Role)
    requires t < |s.threads| && s.threads[t].stack != []
    ensures TallyAll(s.threads, r) == Rest(s, t, r) + Tally(s.threads[t].stack[0], r)
  {
    hide Tally, TallyAll;
    TallySplit(s.threads, t, r);
  }

  lemma SetTopTally(s: State, t: nat, frames: seq<Frame>, r: Role)
    requires t < |s.threads| && s.threads[t].stack != []
    ensures TallyAll(SetTop(s, t, frames), r) == Rest(s, t, r) + TallyStack(frames, r)
  {
    hide Tally, TallyAll;
    var th := s.threads[t].(stack := frames + s.threads[t].stack[1..]);
    TallyUpdate(s.threads, t, th, r);
    TallyAppend(frames, s.threads[t].stack[1..], r);
  }

  lemma GainTally(s: State, t: nat, refs: multiset<Addr>, r: Role)
    requires t < |s.threads| && s.threads[t].stack != []
    ensures TallyAll(Gain(s, t, refs), r) == Rest(s, t, r) + if r == Held then refs else multiset{}
  {
    hide Tally, TallyAll;
    TallyUpdate(s.threads, t, Thread(s.threads[t].own + refs, s.threads[t].stack[1..]), r);
  }

  lemma BusyFrameHolds(f: Frame, a: Addr)
    ensures Tally(f, Busy)[a] <= Tally(f, Held)[a]
  {
  }

  lemma {:induction false} BusyIsHeld(fs: seq<Frame>, a: Addr)
    ensures TallyStack(fs, Busy)[a] <= TallyStack(fs, Held)[a]
  {
    hide Tally;
    if fs != [] {
      BusyIsHeld(fs[1..], a);
      BusyFrameHolds(fs[0], a);
    }
  }

  lemma {:induction false} BusyIsHeldAll(ts: seq<Thread>, a: Addr)
    ensures TallyAll(ts, Busy)[a] <= TallyAll(ts, Held)[a]
  {
    if ts != [] {
      BusyIsHeldAll(ts[1..], a);
      BusyIsHeld(ts[0].stack, a);
    }
  }

  lemma RestBusyIsHeld(s: State, t: nat, a: Addr)
    requires t < |s.threads| && s.threads[t].stack != [] && a in Rest(s, t, Busy)
    ensures a in Rest(s, t, Held)
  {
    BusyIsHeldAll(s.threads[..t], a);
    BusyIsHeldAll(s.threads[t + 1..], a);
    BusyIsHeld(s.threads[t].stack[1..], a);
  }

  // ----- every step keeps the invariant -----

  /** The invariant, with the top frame's contribution replaced by H, D, E and B. */
  ghost predicate InvWith(s: State, t: nat, h: Heap, draining: set<Addr>, dead: set<Addr>, leaked: multiset<Addr>,
                          H: multiset<Addr>, D: multiset<Addr>, E: multiset<Addr>, B: multiset<Addr>)
    requires t < |s.threads| && s.threads[t].stack != []
  {
    Consistent(h, draining, dead, Rest(s, t, Held) + leaked + H,
               Rest(s, t, Draining) + D, Rest(s, t, Dead) + E, Rest(s, t, Busy) + B)
  }

  ghost function Top(s: State, t: nat, r: Role): multiset<Addr>
    requires t < |s.threads| && s.threads[t].stack != []
  {
    Tally(s.threads[t].stack[0], r)
  }

  lemma Swap(x: multiset<Addr>, y: multiset<Addr>, z: multiset<Addr>)
    ensures x + y + z == x + z + y
  {
  }

  lemma Open(s: State, t: nat)
    requires Inv(s) && t < |s.threads| && s.threads[t].stack != []
    ensures InvWith(s, t, s.cells, s.draining, s.dead, s.leaked, Top(s, t, Held), Top(s, t, Draining), Top(s, t, Dead),
                    Top(s, t, Busy))
  {
    hide Consistent, Rest, Tally, TallyAll;
    TopTally(s, t, Held);
    TopTally(s, t, Draining);
    TopTally(s, t, Dead);
    TopTally(s, t, Busy);
    Swap(Rest(s, t, Held), Top(s, t, Held), s.leaked);
  }

  lemma Close(s: State, t: nat, frames: seq<Frame>, s': State)
    requires t < |s.threads| && s.threads[t].stack != [] && s'.threads == SetTop(s, t, frames)
    requires InvWith(s, t, s'.cells, s'.draining, s'.dead, s'.leaked,
                     TallyStack(frames, Held), TallyStack(frames, Draining), TallyStack(frames, Dead),
                     TallyStack(frames, Busy))
    ensures Inv(s')
  {
    hide Consistent, Rest, TallyStack, TallyAll, SetTop;
    SetTopTally(s, t, frames, Held);
    SetTopTally(s, t, frames, Draining);
    SetTopTally(s, t, frames, Dead);
    SetTopTally(s, t, frames, Busy);
    Swap(Rest(s, t, Held), TallyStack(frames, Held), s'.leaked);
  }

  lemma CloseGain(s: State, t: nat, refs: multiset<Addr>, s': State)
    requires t < |s.threads| && s.threads[t].stack != [] && s'.threads == Gain(s, t, refs)
    requires InvWith(s, t, s'.cells, s'.draining, s'.dead, s'.leaked, refs, multiset{}, multiset{}, multiset{})
    ensures Inv(s')
  {
    hide Consistent, Rest, TallyAll, Gain;
    GainTally(s, t, refs, Held);
    GainTally(s, t, refs, Draining);
    GainTally(s, t, refs, Dead);
    GainTally(s, t, refs, Busy);
    Swap(Rest(s, t, Held), refs, s'.leaked);
  }

  lemma OneFrame(f: Frame, r: Role)
    ensures TallyStack([f], r) == Tally(f, r)
  {
    hide Tally;
    assert [f][1..] == [];
  }

  /** Close with a single replacement frame. */
  lemma CloseOne(s: State, t: nat, f: Frame, s': State)
    requires t < |s.threads| && s.threads[t].stack != [] && s'.threads == SetTop(s, t, [f])
    requires InvWith(s, t, s'.cells, s'.draining, s'.dead, s'.leaked,
                     Tally(f, Held), Tally(f, Draining), Tally(f, Dead), Tally(f, Busy))
    ensures Inv(s')
  {
    hide InvWith, TallyStack, Tally, SetTop;
    OneFrame(f, Held);
    OneFrame(f, Draining);
    OneFrame(f, Dead);
    OneFrame(f, Busy);
    Close(s, t, [f], s');
  }

  lemma ForgetBusy(s: State, t: nat, h: Heap, draining: set<Addr>, dead: set<Addr>, leaked: multiset<Addr>,
                   H: multiset<Addr>, D: multiset<Addr>, E: multiset<Addr>, B: multiset<Addr>)
    requires t < |s.threads| && s.threads[t].stack != []
    requires InvWith(s, t, h, draining, dead, leaked, H, D, E, B)
    ensures InvWith(s, t, h, draining, dead, leaked, H, D, E, multiset{})
  {
    hide Accounted, Once, Rest;
  }

  /** A frame that holds the only reference to a knows that nobody relies on its count. */
  lemma SoleNotBusy(s: State, t: nat, a: Addr)
    requires t < |s.threads| && s.threads[t].stack != []
    requires InvWith(s, t, s.cells, s.draining, s.dead, s.leaked, multiset{a}, multiset{}, multiset{}, multiset{})
    requires Holds(s.cells, a) && s.cells[a].count == 1
    ensures a !in Rest(s, t, Busy) + multiset{}
  {
    hide Accounted, Once, Rest;
    SoleOwner(s.cells, s.draining + s.dead, Rest(s, t, Held) + s.leaked, a);
    if a in Rest(s, t, Busy) {
      RestBusyIsHeld(s, t, a);
    }
  }

  lemma DrainingNotBusy(s: State, t: nat, a: Addr)
    requires t < |s.threads| && s.threads[t].stack != []
    requires InvWith(s, t, s.cells, s.draining, s.dead, s.leaked, multiset{}, multiset{a}, multiset{}, multiset{})
    ensures a !in Rest(s, t, Busy) + multiset{}
  {
    hide Accounted, Rest;
    HeldIsSafe(s.cells, s.draining, s.dead, Rest(s, t, Held) + s.leaked + multiset{},
               Rest(s, t, Draining) + multiset{a}, Rest(s, t, Dead) + multiset{}, Rest(s, t, Busy) + multiset{}, a);
    if a in Rest(s, t, Busy) {
      RestBusyIsHeld(s, t, a);
    }
  }

  lemma NoMore(m: multiset<Addr>)
    ensures m + multiset{} == m
  {
  }

  lemma ProbeKeeps(s: State, t: nat, a: Addr, s': State)
    requires Inv(s) && t < |s.threads| && s.threads[t].stack != [] && s.threads[t].stack[0] == Probe(a)
    requires RunProbe(s, t, a, s')
    ensures Inv(s')
  {
    hide Inv, Rest, RefsAll, SetTop, Consistent, TallyStack;
    Open(s, t);
    if s.cells[a].count == 1 {
      ProbeSole(s, t, a);
      CloseOne(s, t, Elements(a, RefsAll(s.cells[a].items)), s');
    } else {
      CloseOne(s, t, Check(a, false), s');
    }
  }

  lemma ProbeSole(s: State, t: nat, a: Addr)
    requires t < |s.threads| && s.threads[t].stack != []
    requires InvWith(s, t, s.cells, s.draining, s.dead, s.leaked, multiset{a}, multiset{}, multiset{}, multiset{})
    requires Holds(s.cells, a) && s.cells[a].count == 1
    ensures InvWith(s, t, s.cells, s.draining + {a}, s.dead, s.leaked, RefsAll(s.cells[a].items), multiset{a},
                    multiset{}, multiset{})
  {
    hide Consistent, Rest, RefsAll;
    Drain(s.cells, s.draining, s.dead, Rest(s, t, Held) + s.leaked, Rest(s, t, Draining) + multiset{},
          Rest(s, t, Dead) + multiset{}, Rest(s, t, Busy) + multiset{}, a);
    NoMore(Rest(s, t, Draining));
  }

  lemma CheckKeeps(s: State, t: nat, a: Addr, sole: bool, s': State)
    requires Inv(s) && t < |s.threads| && s.threads[t].stack != [] && s.threads[t].stack[0] == Check(a, sole)
    requires RunCheck(s, t, a, sole, s')
    ensures Inv(s')
  {
    hide Inv, Rest, SetTop, Consistent, TallyStack, InvWith;
    Open(s, t);
    if s.cells[a].count == 0 {
      CheckStatic(s, t, a, sole, s');
    } else {
      NowBusy(s, t, a, sole);
      CloseOne(s, t, Sub(a, sole), s');
    }
  }

  lemma NowBusy(s: State, t: nat, a: Addr, sole: bool)
    requires t < |s.threads| && s.threads[t].stack != [] && Holds(s.cells, a) && s.cells[a].count > 0
    requires InvWith(s, t, s.cells, s.draining, s.dead, s.leaked, Tally(Check(a, sole), Held),
                     Tally(Check(a, sole), Draining),
                     Tally(Check(a, sole), Dead), Tally(Check(a, sole), Busy))
    ensures InvWith(s, t, s.cells, s.draining, s.dead, s.leaked, Tally(Sub(a, sole), Held),
                    Tally(Sub(a, sole), Draining),
                    Tally(Sub(a, sole), Dead), Tally(Sub(a, sole), Busy))
  {
    hide Accounted, Once, Rest;
  }

  lemma CheckStatic(s: State, t: nat, a: Addr, sole: bool, s': State)
    requires t < |s.threads| && s.threads[t].stack != [] && Holds(s.cells, a) && s.cells[a].count == 0
    requires InvWith(s, t, s.cells, s.draining, s.dead, s.leaked, Tally(Check(a, sole), Held),
                     Tally(Check(a, sole), Draining),
                     Tally(Check(a, sole), Dead), Tally(Check(a, sole), Busy))
    requires s' == s.(threads := SetTop(s, t, []))
    ensures Inv(s')
  {
    hide Inv, Rest, SetTop, Consistent;
    var D, E, B := Rest(s, t, Draining), Rest(s, t, Dead) + multiset{}, Rest(s, t, Busy) + multiset{};
    if sole {
      HeldIsSafe(s.cells, s.draining, s.dead, Rest(s, t, Held) + s.leaked + multiset{}, D + multiset{a}, E, B, a);
      assert false;
    } else {
      StaticRelease(s.cells, s.draining, s.dead, Rest(s, t, Held) + s.leaked, D + multiset{}, E, B, a);
      NoMore(Rest(s, t, Held) + s.leaked);
      Close(s, t, [], s');
    }
  }

  lemma SubKeeps(s: State, t: nat, a: Addr, sole: bool, s': State)
    requires Inv(s) && t < |s.threads| && s.threads[t].stack != [] && s.threads[t].stack[0] == Sub(a, sole)
    requires Holds(s.cells, a) && s.cells[a].count > 0 && s' == AfterSub(s, t, a, sole)
    ensures Inv(s')
  {
    hide Inv, Rest, SetTop, RefsAll, Consistent, TallyStack, InvWith;
    Open(s, t);
    ForgetBusy(s, t, s.cells, s.draining, s.dead, s.leaked, Top(s, t, Held), Top(s, t, Draining), Top(s, t, Dead),
               Top(s, t, Busy));
    if sole {
      SubSole(s, t, a, s');
    } else if s.cells[a].count > 1 {
      SubShared(s, t, a, s');
    } else {
      SubLast(s, t, a, s');
    }
  }

  lemma SubShared(s: State, t: nat, a: Addr, s': State)
    requires t < |s.threads| && s.threads[t].stack != []
    requires InvWith(s, t, s.cells, s.draining, s.dead, s.leaked, multiset{a}, multiset{}, multiset{}, multiset{})
    requires Holds(s.cells, a) && s.cells[a].count > 1
    requires s' == s.(cells := SetCount(s.cells, a, s.cells[a].count - 1), threads := SetTop(s, t, []))
    ensures Inv(s')
  {
    hide Inv, Rest, SetTop, Consistent;
    SharedRelease(s.cells, s.draining, s.dead, Rest(s, t, Held) + s.leaked, Rest(s, t, Draining) + multiset{},
                  Rest(s, t, Dead) + multiset{}, Rest(s, t, Busy) + multiset{}, a);
    NoMore(Rest(s, t, Held) + s.leaked);
    Close(s, t, [], s');
  }

  /** After `has_one_ref` was seen true the count is still 1, so this frees. */
  lemma SubSole(s: State, t: nat, a: Addr, s': State)
    requires t < |s.threads| && s.threads[t].stack != []
    requires InvWith(s, t, s.cells, s.draining, s.dead, s.leaked, multiset{}, multiset{a}, multiset{}, multiset{})
    requires Holds(s.cells, a) && s.cells[a].count > 0 && s' == AfterSub(s, t, a, true)
    ensures s.cells[a].count == 1 && Inv(s')
  {
    hide Inv, Rest, SetTop, RefsAll, Accounted, Once;
    var H, D, E, B := Rest(s, t, Held) + s.leaked + multiset{}, Rest(s, t, Draining), Rest(s, t, Dead) + multiset{},
        Rest(s, t, Busy) + multiset{};
    HeldIsSafe(s.cells, s.draining, s.dead, H, D + multiset{a}, E, B, a);
    DrainingNotBusy(s, t, a);
    SoleRelease(s.cells, s.draining, s.dead, H, D, E, B, a);
    NoMore(Rest(s, t, Dead));
    NoMore(Rest(s, t, Draining));
    CloseOne(s, t, Free(a), s');
  }

  lemma SubLast(s: State, t: nat, a: Addr, s': State)
    requires t < |s.threads| && s.threads[t].stack != []
    requires InvWith(s, t, s.cells, s.draining, s.dead, s.leaked, multiset{a}, multiset{}, multiset{}, multiset{})
    requires Holds(s.cells, a) && s.cells[a].count == 1 && s' == AfterSub(s, t, a, false)
    ensures Inv(s')
  {
    hide Inv, Rest, SetTop, RefsAll, Consistent;
    var H, D, E, B := Rest(s, t, Held), Rest(s, t, Draining) + multiset{}, Rest(s, t, Dead) + multiset{},
        Rest(s, t, Busy) + multiset{};
    var items := RefsAll(s.cells[a].items);
    SoleNotBusy(s, t, a);
    LastRelease(s.cells, s.draining, s.dead, H + s.leaked, D, E, B, a);
    NoMore(Rest(s, t, Dead));
    if DropsLate(s.cells[a].kind) {
      CloseOne(s, t, Captures(a, items), s');
    } else {
      assert H + (s.leaked + items) + multiset{} == H + s.leaked + items;
      CloseOne(s, t, Free(a), s');
    }
  }

  lemma FreeKeeps(s: State, t: nat, a: Addr, s': State)
    requires Inv(s) && t < |s.threads| && s.threads[t].stack != [] && s.threads[t].stack[0] == Free(a)
    requires RunFree(s, t, a, s')
    ensures Inv(s')
  {
    hide Inv, Rest, SetTop, Consistent, TallyAll;
    Open(s, t);
    Deallocate(s.cells, s.draining, s.dead, Rest(s, t, Held) + s.leaked + multiset{}, Rest(s, t, Draining) + multiset{},
               Rest(s, t, Dead), Rest(s, t, Busy) + multiset{}, a);
    NoMore(Rest(s, t, Dead));
    Close(s, t, [], s');
  }

  lemma ElementsEndKeeps(s: State, t: nat, a: Addr, s': State)
    requires Inv(s) && t < |s.threads| && s.threads[t].stack != [] && s.threads[t].stack[0] == Elements(a, multiset{})
    requires s' == s.(threads := SetTop(s, t, [Check(a, true)]))
    ensures Inv(s')
  {
    hide Inv, InvWith, Rest, SetTop, TallyStack;
    Open(s, t);
    CloseOne(s, t, Check(a, true), s');
  }

  lemma CapturesEndKeeps(s: State, t: nat, a: Addr, s': State)
    requires Inv(s) && t < |s.threads| && s.threads[t].stack != [] && s.threads[t].stack[0] == Captures(a, multiset{})
    requires s' == s.(threads := SetTop(s, t, [Free(a)]))
    ensures Inv(s')
  {
    hide Inv, InvWith, Rest, SetTop, TallyStack;
    Open(s, t);
    CloseOne(s, t, Free(a), s');
  }

  lemma RaiseKeeps(s: State, t: nat, a: Addr, n: nat, s': State)
    requires Inv(s) && t < |s.threads| && s.threads[t].stack != [] && s.threads[t].stack[0] == Raise(a, n)
    requires RunRaise(s, t, a, n, s')
    ensures Inv(s')
  {
    hide Inv, InvWith, Rest, SetTop, Gain, TallyStack;
    Open(s, t);
    if s.cells[a].count > 0 {
      RaiseBusy(s, t, a);
      CloseOne(s, t, Add(a, n), s');
    } else {
      Retained(s, t, a, n);
      assert Bumped(s.cells, a, n) == s.cells;
      CloseGain(s, t, multiset{a} + Times(multiset{a}, n), s');
    }
  }

  lemma RaiseBusy(s: State, t: nat, a: Addr)
    requires t < |s.threads| && s.threads[t].stack != [] && Holds(s.cells, a) && s.cells[a].count > 0
    requires InvWith(s, t, s.cells, s.draining, s.dead, s.leaked, multiset{a}, multiset{}, multiset{}, multiset{})
    ensures InvWith(s, t, s.cells, s.draining, s.dead, s.leaked, multiset{a}, multiset{}, multiset{}, multiset{a})
  {
    hide Accounted, Once, Rest;
  }

  lemma Retained(s: State, t: nat, a: Addr, n: nat)
    requires t < |s.threads| && s.threads[t].stack != [] && Holds(s.cells, a)
    requires InvWith(s, t, s.cells, s.draining, s.dead, s.leaked, multiset{a}, multiset{}, multiset{}, multiset{})
    ensures InvWith(s, t, Bumped(s.cells, a, n), s.draining, s.dead, s.leaked, multiset{a} + Times(multiset{a}, n),
                    multiset{}, multiset{}, multiset{})
  {
    hide Rest, Consistent;
    var R := Rest(s, t, Held) + s.leaked;
    Bump(s.cells, s.draining, s.dead, R + multiset{a}, Rest(s, t, Draining) + multiset{},
         Rest(s, t, Dead) + multiset{}, Rest(s, t, Busy) + multiset{}, a, n);
    assert R + multiset{a} + Times(multiset{a}, n) == R + (multiset{a} + Times(multiset{a}, n));
  }

  lemma AddKeeps(s: State, t: nat, a: Addr, n: nat, s': State)
    requires Inv(s) && t < |s.threads| && s.threads[t].stack != [] && s.threads[t].stack[0] == Add(a, n)
    requires RunAdd(s, t, a, n, s')
    ensures Inv(s')
  {
    hide Inv, Rest, Gain, TallyStack, Accounted, Once, TallyAll;
    Open(s, t);
    assert a in Rest(s, t, Busy) + multiset{a};
    hide Consistent;
    ForgetBusy(s, t, s.cells, s.draining, s.dead, s.leaked, Top(s, t, Held), Top(s, t, Draining), Top(s, t, Dead),
               Top(s, t, Busy));
    Retained(s, t, a, n);
    CloseGain(s, t, multiset{a} + Times(multiset{a}, n), s');
  }

  lemma RunKeeps(s: State, t: nat, s': State)
    requires Inv(s) && t < |s.threads| && s.threads[t].stack != [] && RunTop(s, t, s')
    ensures Inv(s')
  {
    hide Inv, RunProbe, RunCheck, RunFree, RunRaise, RunAdd, AfterSub, SetTop;
    match s.threads[t].stack[0]
    case Probe(a) => ProbeKeeps(s, t, a, s');
    case Elements(a, _) => ElementsEndKeeps(s, t, a, s');
    case Check(a, sole) => CheckKeeps(s, t, a, sole, s');
    case Sub(a, sole) => SubKeeps(s, t, a, sole, s');
    case Captures(a, _) => CapturesEndKeeps(s, t, a, s');
    case Free(a) => FreeKeeps(s, t, a, s');
    case Raise(a, n) => RaiseKeeps(s, t, a, n, s');
    case Add(a, n) => AddKeeps(s, t, a, n, s');
  }

  // ----- steps that touch no memory -----

  lemma TallyMoves(ts: seq<Thread>, t: nat, th: Thread, r: Role, minus: multiset<Addr>, plus: multiset<Addr>)
    requires t < |ts| && TallyThread(ts[t], r) + plus == TallyThread(th, r) + minus
    ensures TallyAll(ts, r) + plus == TallyAll(ts[t := th], r) + minus
  {
    hide TallyAll, TallyThread;
    TallyUpdate(ts, t, th, r);
    Regroup3(Others(ts, t, r), TallyThread(ts[t], r), plus);
    Regroup3(Others(ts, t, r), TallyThread(th, r), minus);
  }

  lemma Regroup3(x: multiset<Addr>, y: multiset<Addr>, z: multiset<Addr>)
    ensures x + y + z == x + (y + z)
  {
  }

  lemma TallySame(ts: seq<Thread>, t: nat, th: Thread, r: Role)
    requires t < |ts| && TallyThread(ts[t], r) == TallyThread(th, r)
    ensures TallyAll(ts, r) == TallyAll(ts[t := th], r)
  {
    hide TallyAll, TallyThread;
    TallyUpdate(ts, t, th, r);
  }

  lemma ReplaceKeeps(s: State, t: nat, th: Thread)
    requires Inv(s) && t < |s.threads| && forall r: Role :: TallyThread(s.threads[t], r) == TallyThread(th, r)
    ensures Inv(s.(threads := s.threads[t := th]))
  {
    hide TallyAll, TallyThread, Consistent;
    TallySame(s.threads, t, th, Held);
    TallySame(s.threads, t, th, Draining);
    TallySame(s.threads, t, th, Dead);
    TallySame(s.threads, t, th, Busy);
  }

  lemma BeginKeeps(s: State, t: nat, a: Addr, f: Frame)
    requires Inv(s) && t < |s.threads| && s.threads[t].stack == [] && a in s.threads[t].own
    requires f == Probe(a) || f == Check(a, false) || (f.Raise? && f.a == a)
    ensures Inv(s.(threads := s.threads[t := Thread(s.threads[t].own - multiset{a}, [f])]))
  {
    hide Inv;
    var th := Thread(s.threads[t].own - multiset{a}, [f]);
    assert s.threads[t].own == multiset{a} + (s.threads[t].own - multiset{a});
    forall r: Role ensures TallyThread(s.threads[t], r) == TallyThread(th, r) {
      OneFrame(f, r);
    }
    ReplaceKeeps(s, t, th);
  }

  lemma SplitItem(f: Frame, b: Addr, g: Frame, r: Role)
    requires (f.Elements? || f.Captures?) && b in f.rest && (g == Probe(b) || g == Check(b, false))
    ensures TallyStack([g, f.(rest := f.rest - multiset{b})], r) == Tally(f, r)
  {
    var f' := f.(rest := f.rest - multiset{b});
    assert f.rest == multiset{b} + (f.rest - multiset{b});
    assert [g, f'][1..] == [f'];
    OneFrame(f', r);
  }

  lemma NextItemKeeps(s: State, t: nat, b: Addr, g: Frame, s': State)
    requires Inv(s) && t < |s.threads| && s.threads[t].stack != []
    requires var f := s.threads[t].stack[0];
             && (f.Elements? || f.Captures?) && b in f.rest && (g == Probe(b) || g == Check(b, false))
             && s' == s.(threads := SetTop(s, t, [g, f.(rest := f.rest - multiset{b})]))
    ensures Inv(s')
  {
    hide Inv, InvWith, Rest, SetTop;
    var f := s.threads[t].stack[0];
    var f' := f.(rest := f.rest - multiset{b});
    Open(s, t);
    SplitItem(f, b, g, Held);
    SplitItem(f, b, g, Draining);
    SplitItem(f, b, g, Dead);
    SplitItem(f, b, g, Busy);
    hide Tally, TallyStack;
    Close(s, t, [g, f'], s');
  }

  lemma SendKeeps(s: State, t: nat, u: nat, refs: multiset<Addr>)
    requires Inv(s) && t < |s.threads| && u < |s.threads| && u != t && refs <= s.threads[t].own
    ensures Inv(s.(threads := s.threads[t := s.threads[t].(own := s.threads[t].own - refs)]
                                       [u := s.threads[u].(own := s.threads[u].own + refs)]))
  {
    var th, th' := s.threads[t].(own := s.threads[t].own - refs), s.threads[u].(own := s.threads[u].own + refs);
    var ts := s.threads[t := th];
    assert s.threads[t].own == s.threads[t].own - refs + refs;
    forall r: Role ensures TallyAll(s.threads, r) == TallyAll(ts[u := th'], r) {
      SendTally(s.threads, t, u, th, th', refs, r);
    }
    hide TallyAll, Consistent;
  }

  lemma SendTally(ts: seq<Thread>, t: nat, u: nat, th: Thread, th': Thread, refs: multiset<Addr>, r: Role)
    requires t < |ts| && u < |ts| && u != t
    requires ts[t] == th.(own := th.own + refs) && th' == ts[u].(own := ts[u].own + refs)
    ensures TallyAll(ts, r) == TallyAll(ts[t := th][u := th'], r)
  {
    hide TallyAll, TallyStack;
    if r == Held {
      Regroup3(TallyStack(th.stack, r), th.own, refs);
      TallyMoves(ts, t, th, r, refs, multiset{});
      Regroup3(TallyStack(th'.stack, r), ts[u].own, refs);
      TallyMoves(ts[t := th], u, th', r, multiset{}, refs);
      NoMore(TallyAll(ts, r));
      NoMore(TallyAll(ts[t := th][u := th'], r));
    } else {
      TallySame(ts, t, th, r);
      TallySame(ts[t := th], u, th', r);
    }
  }

  lemma NewKeeps(s: State, t: nat, kind: Kind, items: seq<Value>)
    requires Inv(s) && t < |s.threads| && RefsAll(items) <= s.threads[t].own
    ensures Inv(s.(cells := s.cells + [Live(kind, 1, items)],
                   threads := s.threads[t := s.threads[t].(
                                               own := s.threads[t].own - RefsAll(items) + multiset{|s.cells|})]))
  {
    hide RefsAll, TallyAll, TallyStack;
    var x, n, own := RefsAll(items), multiset{|s.cells|}, s.threads[t].own;
    var th := s.threads[t].(own := own - x + n);
    var ts := s.threads[t := th];
    TallySame(s.threads, t, th, Draining);
    TallySame(s.threads, t, th, Dead);
    TallySame(s.threads, t, th, Busy);
    TallyUpdate(s.threads, t, th, Held);
    var y := Others(s.threads, t, Held) + TallyStack(th.stack, Held) + (own - x);
    NewTally(Others(s.threads, t, Held), TallyStack(th.stack, Held), own, x, n, s.leaked);
    hide Consistent;
    Create(s.cells, s.draining, s.dead, y + s.leaked, TallyAll(s.threads, Draining), TallyAll(s.threads, Dead),
           TallyAll(s.threads, Busy), kind, items);
  }

  lemma NewTally(others: multiset<Addr>, stack: multiset<Addr>, own: multiset<Addr>, x: multiset<Addr>,
                 n: multiset<Addr>, leaked: multiset<Addr>)
    requires x <= own
    ensures var y := others + stack + (own - x);
            others + (stack + own) + leaked == y + leaked + x &&
              others + (stack + (own - x + n)) + leaked == y + leaked + n
  {
    assert own == own - x + x;
  }

  // ----- the theorems -----

  lemma StepKeeps(s: State, t: nat, act: Action, s': State)
    requires Inv(s) && Step(s, t, act, s')
    ensures Inv(s')
  {
    hide Inv, RunTop;
    match act
    case BeginRelease(a) => BeginKeeps(s, t, a, StartRelease(s.cells[a].kind, a));
    case BeginRetain(a, n) => BeginKeeps(s, t, a, Raise(a, n));
    case NextItem(b) => NextItemKeeps(s, t, b, StartRelease(s.cells[b].kind, b), s');
    case Run => RunKeeps(s, t, s');
    case Send(u, refs) => SendKeeps(s, t, u, refs);
    case New(kind, items) => NewKeeps(s, t, kind, items);
  }

  /** Threads at rest, owning among them every outside reference to a heap in balance. */
  ghost predicate Init(s: State) {
    && (forall t :: 0 <= t < |s.threads| ==> s.threads[t].stack == [])
    && s.draining == {} && s.dead == {} && s.leaked == multiset{}
    && Accounted(s.cells, {}, TallyAll(s.threads, Held))
  }

  lemma {:induction false} IdleTally(ts: seq<Thread>, r: Role)
    requires r != Held && forall t :: 0 <= t < |ts| ==> ts[t].stack == []
    ensures TallyAll(ts, r) == multiset{}
  {
    if ts != [] {
      assert ts[0].stack == [];
      IdleTally(ts[1..], r);
    }
  }

  lemma InitInv(s: State)
    requires Init(s)
    ensures Inv(s)
  {
    hide Accounted;
    IdleTally(s.threads, Draining);
    IdleTally(s.threads, Dead);
    IdleTally(s.threads, Busy);
    assert s.draining + s.dead == {};
    NoMore(TallyAll(s.threads, Held));
  }

  ghost predicate Next(s: State, s': State) {
    exists t: nat, act: Action :: Step(s, t, act, s')
  }

  ghost predicate IsRun(run: seq<State>) {
    && |run| > 0 && Init(run[0])
    && forall i :: 0 <= i < |run| - 1 ==> Next(run[i], run[i + 1])
  }

  lemma {:induction false} RunInv(run: seq<State>, i: nat)
    requires IsRun(run) && i < |run|
    ensures Inv(run[i])
  {
    hide Inv, Init, Step;
    if i == 0 {
      InitInv(run[0]);
    } else {
      RunInv(run, i - 1);
      assert Next(run[i - 1], run[i - 1 + 1]);
      var t: nat, act: Action :| Step(run[i - 1], t, act, run[i]);
      StepKeeps(run[i - 1], t, act, run[i]);
    }
  }

  /** What a frame's own tally says about the allocation it works on. */
  lemma TopIsSafe(s: State, t: nat)
    requires Inv(s) && t < |s.threads| && s.threads[t].stack != []
    ensures var f := s.threads[t].stack[0];
            && Holds(s.cells, f.a)
            && (f.Sub? || f.Add? ==> s.cells[f.a].count > 0)
            && (f.Free? <==> f.a in s.dead && !f.Captures?)
            && (f.Elements? || f.Captures? ==> forall b <- f.rest :: Holds(s.cells, b))
  {
    hide Accounted, TallyAll;
    var f := s.threads[t].stack[0];
    var H, D, E, B := TallyAll(s.threads, Held) + s.leaked, TallyAll(s.threads, Draining), TallyAll(s.threads, Dead),
        TallyAll(s.threads, Busy);
    TopTally(s, t, Held);
    TopTally(s, t, Draining);
    TopTally(s, t, Dead);
    TopTally(s, t, Busy);
    HeldIsSafe(s.cells, s.draining, s.dead, H, D, E, B, f.a);
    if f.Elements? || f.Captures? {
      forall b <- f.rest ensures Holds(s.cells, b) {
        HeldIsSafe(s.cells, s.draining, s.dead, H, D, E, B, b);
      }
    }
  }

  /** No use after free: whatever a thread's next operation is, the allocation whose
      count it loads, changes or frees is live, in every state of every run. */
  lemma TouchedIsLive(run: seq<State>, i: nat, t: nat)
    requires IsRun(run) && i < |run| && t < |run[i].threads| && run[i].threads[t].stack != []
    ensures Holds(run[i].cells, run[i].threads[t].stack[0].a)
  {
    hide Init, Inv, IsRun;
    RunInv(run, i);
    TopIsSafe(run[i], t);
  }

  /** A counted allocation that is not being torn down has exactly as many references
      as its count says: in the hands of threads, inside other allocations, or leaked. */
  lemma CountIsReferences(run: seq<State>, i: nat, a: Addr)
    requires IsRun(run) && i < |run| && Holds(run[i].cells, a) && run[i].cells[a].count > 0
    ensures var s := run[i];
            a !in s.dead &&
            (a !in s.draining ==>
               s.cells[a].count == Everything(s.cells, s.draining + s.dead, TallyAll(s.threads, Held) + s.leaked)[a])
  {
    hide Init, IsRun, RefsAll, TallyAll, StaticClosed;
    RunInv(run, i);
  }

  /** No thread is ever stuck in the middle of an operation. */
  lemma AlwaysEnabled(s: State, t: nat) returns (act: Action, s': State)
    requires Inv(s) && t < |s.threads| && s.threads[t].stack != []
    ensures Step(s, t, act, s')
  {
    hide Inv, SetTop, Gain, RefsAll;
    TopIsSafe(s, t);
    var f := s.threads[t].stack[0];
    act := Run;
    match f
    case Probe(a) =>
      s' := if s.cells[a].count == 1
      then s.(threads := SetTop(s, t, [Elements(a, RefsAll(s.cells[a].items))]), draining := s.draining + {a})
      else s.(threads := SetTop(s, t, [Check(a, false)]));
    case Check(a, sole) =>
      s' := s.(threads := SetTop(s, t, if s.cells[a].count == 0 then [] else [Sub(a, sole)]));
    case Sub(a, sole) =>
      s' := AfterSub(s, t, a, sole);
    case Free(a) =>
      s' := s.(cells := s.cells[a := Freed], threads := SetTop(s, t, []), dead := s.dead - {a});
    case Raise(a, n) =>
      s' := if s.cells[a].count == 0
      then s.(threads := Gain(s, t, multiset{a} + Times(multiset{a}, n)))
      else s.(threads := SetTop(s, t, [Add(a, n)]));
    case Add(a, n) =>
      s' := s.(cells := SetCount(s.cells, a, s.cells[a].count + n),
               threads := Gain(s, t, multiset{a} + Times(multiset{a}, n)));
    case _ =>
      if f.rest == multiset{} {
        s' := s.(threads := SetTop(s, t, [if f.Elements? then Check(f.a, true) else Free(f.a)]));
      } else {
        var b :| b in f.rest;
        act := NextItem(b);
        s' := s.(threads := SetTop(s, t, [StartRelease(s.cells[b].kind, b), f.(rest := f.rest - multiset{b})]));
      }
  }

  /** And between operations it may do whatever it owns the references for: release or retain
      one, give some away, put some into a new allocation. */
  lemma IdleMayAct(s: State, t: nat, act: Action) returns (s': State)
    requires Inv(s) && t < |s.threads| && s.threads[t].stack == [] && MayAct(s, t, act)
    ensures Step(s, t, act, s')
  {
    hide Inv, RefsAll, DropsContents;
    var th := s.threads[t];
    match act
    case BeginRelease(a) =>
      OwnIsLive(s, t, a);
      s' := s.(threads := s.threads[t := Thread(th.own - multiset{a}, [StartRelease(s.cells[a].kind, a)])]);
    case BeginRetain(a, n) =>
      s' := s.(threads := s.threads[t := Thread(th.own - multiset{a}, [Raise(a, n)])]);
    case Send(u, refs) =>
      s' := s.(threads := s.threads[t := th.(own := th.own - refs)]
                                   [u := s.threads[u].(own := s.threads[u].own + refs)]);
    case New(kind, items) =>
      s' := s.(cells := s.cells + [Live(kind, 1, items)],
               threads := s.threads[t := th.(own := th.own - RefsAll(items) + multiset{|s.cells|})]);
  }

  /** It owns what the action takes. */
  ghost predicate MayAct(s: State, t: nat, act: Action)
    requires t < |s.threads|
  {
    var own := s.threads[t].own;
    match act
    case BeginRelease(a) => a in own
    case BeginRetain(a, _) => a in own
    case Send(u, refs) => u < |s.threads| && u != t && refs <= own
    case New(kind, items) => RefsAll(items) <= own && (DropsContents(kind) || RefsAll(items) == multiset{})
    case _ => false
  }

  lemma OwnIsLive(s: State, t: nat, a: Addr)
    requires Inv(s) && t < |s.threads| && a in s.threads[t].own
    ensures Holds(s.cells, a)
  {
    var H, D, E, B := TallyAll(s.threads, Held) + s.leaked, TallyAll(s.threads, Draining), TallyAll(s.threads, Dead),
        TallyAll(s.threads, Busy);
    TallySplit(s.threads, t, Held);
    assert a in TallyThread(s.threads[t], Held);
    hide TallyAll, TallyThread;
    HeldIsSafe(s.cells, s.draining, s.dead, H, D, E, B, a);
  }

  // ----- each allocation dies at most once -----

  /** A `fetch_sub` that returns 1. */
  ghost predicate LastDrop(s: State, t: nat, act: Action, a: Addr) {
    && act == Run && t < |s.threads| && s.threads[t].stack != []
    && (s.threads[t].stack[0] == Sub(a, true) || s.threads[t].stack[0] == Sub(a, false))
    && Holds(s.cells, a) && s.cells[a].count == 1
  }

  ghost predicate Gone(s: State, a: Addr) {
    a < |s.cells| && (a in s.dead || s.cells[a].Freed?)
  }

  /** All but four kinds of step leave the cells and the dead alone. */
  lemma QuietStep(s: State, t: nat, act: Action, s': State)
    requires Step(s, t, act, s')
    ensures act.New? || (act.Run? &&
                         (s.threads[t].stack[0].Sub? || s.threads[t].stack[0].Free? || s.threads[t].stack[0].Add?)) ||
            (s'.cells == s.cells && s'.dead == s.dead && s.draining <= s'.draining &&
             (s'.draining == s.draining ||
              (act.Run? && s.threads[t].stack[0].Probe? && s.cells[s.threads[t].stack[0].a].count == 1 &&
                                            s'.draining == s.draining + {s.threads[t].stack[0].a})))
  {
    hide SetTop, Gain, RefsAll;
  }

  lemma DeadIsUncounted(s: State, a: Addr)
    requires Inv(s) && Gone(s, a)
    ensures !(Holds(s.cells, a) && s.cells[a].count > 0)
  {
    hide Accounted, TallyAll;
  }

  lemma StepGone(s: State, t: nat, act: Action, s': State, a: Addr)
    requires Inv(s) && Step(s, t, act, s') && a < |s.cells|
    ensures Gone(s', a) <==> Gone(s, a) || LastDrop(s, t, act, a)
    ensures !(Gone(s, a) && LastDrop(s, t, act, a))
  {
    hide Inv, SetTop, Gain, RefsAll, Tally, TallyAll;
    if Gone(s, a) {
      DeadIsUncounted(s, a);
    }
    QuietStep(s, t, act, s');
    if act.Run? {
      TopIsSafe(s, t);
      match s.threads[t].stack[0]
      case Sub(b, sole) => SubGone(s, t, b, sole, s', a);
      case Free(b) => assert Gone(s', a) <==> Gone(s, a);
      case _ =>
    }
  }

  lemma SubGone(s: State, t: nat, b: Addr, sole: bool, s': State, a: Addr)
    requires t < |s.threads| && s.threads[t].stack != [] && Holds(s.cells, b) && s.cells[b].count > 0
    requires s' == AfterSub(s, t, b, sole) && a < |s.cells|
    ensures Gone(s', a) <==> Gone(s, a) || (a == b && s.cells[b].count == 1)
  {
    hide SetTop, RefsAll;
  }

  /** A run together with who did what. */
  ghost predicate IsTrace(run: seq<State>, who: seq<nat>, acts: seq<Action>) {
    && IsRun(run) && |who| == |acts| == |run| - 1
    && forall i :: 0 <= i < |run| - 1 ==> Step(run[i], who[i], acts[i], run[i + 1])
  }

  lemma {:induction false} GoneStays(run: seq<State>, who: seq<nat>, acts: seq<Action>, i: nat, j: nat, a: Addr)
    requires IsTrace(run, who, acts) && i <= j < |run| && Gone(run[i], a)
    ensures Gone(run[j], a)
  {
    hide Step, IsRun, Inv;
    if i < j {
      GoneStays(run, who, acts, i, j - 1, a);
      RunInv(run, j - 1);
      assert Step(run[j - 1], who[j - 1], acts[j - 1], run[j - 1 + 1]);
      StepGone(run[j - 1], who[j - 1], acts[j - 1], run[j], a);
    }
  }

  /** At most one `fetch_sub` in the whole run returns 1 for a given allocation. */
  lemma OneLastDrop(run: seq<State>, who: seq<nat>, acts: seq<Action>, i: nat, j: nat, a: Addr)
    requires IsTrace(run, who, acts) && i < j < |run| - 1
    requires LastDrop(run[i], who[i], acts[i], a)
    ensures !LastDrop(run[j], who[j], acts[j], a)
  {
    hide Step, IsRun, Inv;
    RunInv(run, i);
    RunInv(run, j);
    assert Step(run[i], who[i], acts[i], run[i + 1]) && Step(run[j], who[j], acts[j], run[j + 1]);
    StepGone(run[i], who[i], acts[i], run[i + 1], a);
    GoneStays(run, who, acts, i + 1, j, a);
    StepGone(run[j], who[j], acts[j], run[j + 1], a);
  }

  /** And if the allocation died during the run, one of them did. */
  lemma {:induction false} SomeLastDrop(run: seq<State>, who: seq<nat>, acts: seq<Action>, j: nat, a: Addr)
    returns (i: nat)
    requires IsTrace(run, who, acts) && j < |run| && a < |run[0].cells| && !Gone(run[0], a) && Gone(run[j], a)
    ensures i < j && LastDrop(run[i], who[i], acts[i], a)
  {
    hide Step, IsRun, Inv;
    RunInv(run, j - 1);
    assert Step(run[j - 1], who[j - 1], acts[j - 1], run[j - 1 + 1]);
    CellsGrow(run, who, acts, j - 1);
    StepGone(run[j - 1], who[j - 1], acts[j - 1], run[j], a);
    if Gone(run[j - 1], a) {
      i := SomeLastDrop(run, who, acts, j - 1, a);
    } else {
      i := j - 1;
    }
  }

  /** Once freed, an allocation is freed for good. */
  lemma StepFreed(s: State, t: nat, act: Action, s': State, a: Addr)
    requires Inv(s) && Step(s, t, act, s') && a < |s.cells| && s.cells[a].Freed?
    ensures a < |s'.cells| && s'.cells[a].Freed?
  {
    hide Inv, SetTop, Gain, RefsAll;
  }

  lemma {:induction false} FreedStays(run: seq<State>, who: seq<nat>, acts: seq<Action>, i: nat, j: nat, a: Addr)
    requires IsTrace(run, who, acts) && i <= j < |run| && a < |run[i].cells| && run[i].cells[a].Freed?
    ensures a < |run[j].cells| && run[j].cells[a].Freed?
  {
    hide Step, IsRun, Inv;
    if i < j {
      FreedStays(run, who, acts, i, j - 1, a);
      RunInv(run, j - 1);
      assert Step(run[j - 1], who[j - 1], acts[j - 1], run[j - 1 + 1]);
      StepFreed(run[j - 1], who[j - 1], acts[j - 1], run[j], a);
    }
  }

  /** Thread t deallocates a in this step. */
  ghost predicate Frees(s: State, t: nat, act: Action, a: Addr) {
    act == Run && t < |s.threads| && s.threads[t].stack != [] && s.threads[t].stack[0] == Free(a)
  }

  /** No double free: in a whole run an allocation is deallocated at most once, and no
      thread so much as turns to it afterwards. */
  lemma FreedOnce(run: seq<State>, who: seq<nat>, acts: seq<Action>, i: nat, j: nat, a: Addr)
    requires IsTrace(run, who, acts) && i < j < |run| - 1 && Frees(run[i], who[i], acts[i], a)
    ensures !Frees(run[j], who[j], acts[j], a)
    ensures forall t :: 0 <= t < |run[j].threads| && run[j].threads[t].stack != [] ==> run[j].threads[t].stack[0].a != a
  {
    assert Step(run[i], who[i], acts[i], run[i + 1]);
    assert run[i + 1].cells[a].Freed?;
    hide Step, IsRun, Inv;
    FreedStays(run, who, acts, i + 1, j, a);
    forall t | 0 <= t < |run[j].threads| && run[j].threads[t].stack != [] ensures run[j].threads[t].stack[0].a != a {
      TouchedIsLive(run, j, t);
    }
  }

  lemma StepGrows(s: State, t: nat, act: Action, s': State)
    requires Step(s, t, act, s')
    ensures |s.cells| <= |s'.cells|
  {
    hide SetTop, Gain, RefsAll;
  }

  lemma {:induction false} CellsGrow(run: seq<State>, who: seq<nat>, acts: seq<Action>, j: nat)
    requires IsTrace(run, who, acts) && j < |run|
    ensures |run[0].cells| <= |run[j].cells|
  {
    hide Step, IsRun;
    if j > 0 {
      CellsGrow(run, who, acts, j - 1);
      assert Step(run[j - 1], who[j - 1], acts[j - 1], run[j - 1 + 1]);
      StepGrows(run[j - 1], who[j - 1], acts[j - 1], run[j]);
    }
  }

  /** Static data is never written, and its references are never released. */
  lemma StaticUntouched(s: State, t: nat, act: Action, s': State, a: Addr)
    requires Inv(s) && Step(s, t, act, s') && IsStatic(s.cells, s.draining + s.dead, a)
    ensures IsStatic(s'.cells, s'.draining + s'.dead, a) && s'.cells[a] == s.cells[a]
  {
    hide Inv, SetTop, Gain, RefsAll, Tally, TallyAll;
    QuietStep(s, t, act, s');
    if act.Run? {
      TopIsSafe(s, t);
    }
  }

  // ----- when references leak -----

  /** The last `fetch_sub` on a list whose `has_one_ref` had been seen false. */
  ghost predicate UnseenLastDrop(s: State, t: nat, act: Action, a: Addr) {
    && LastDrop(s, t, act, a)
    && s.threads[t].stack[0] == Sub(a, false)
    && !DropsLate(s.cells[a].kind)
  }

  /** Exactly those releases that skipped the element loop and then freed leak, and
      what they leak is what the allocation owned. */
  lemma LeaksExactly(s: State, t: nat, act: Action, s': State)
    requires Step(s, t, act, s')
    ensures (exists a: Addr :: UnseenLastDrop(s, t, act, a) && RefsAll(s.cells[a].items) != multiset{}) <==>
              s'.leaked != s.leaked
    ensures forall a: Addr :: UnseenLastDrop(s, t, act, a) ==> s'.leaked == s.leaked + RefsAll(s.cells[a].items)
  {
    hide SetTop, Gain, RefsAll;
    if act.Run? && s.threads[t].stack[0].Sub? {
      var a := s.threads[t].stack[0].a;
      if UnseenLastDrop(s, t, act, a) {
        MoreIsMore(s.leaked, RefsAll(s.cells[a].items));
      }
    }
  }

  lemma MoreIsMore(m: multiset<Addr>, x: multiset<Addr>)
    ensures m + x == m <==> x == multiset{}
  {
    if x != multiset{} {
      var a :| a in x;
      assert (m + x)[a] == m[a] + x[a];
    }
  }

  /** A thread that is alone: lists it is about to decrement without having seen
      `has_one_ref` true still have another owner. */
  ghost predicate Alone(s: State) {
    && |s.threads| == 1
    && (forall a: Addr :: Holds(s.cells, a) ==> Releasable(s.cells[a].kind, s.cells[a].items))
    && var fs := s.threads[0].stack;
    && (forall i :: 1 <= i < |fs| ==> fs[i].Elements? || fs[i].Captures?)
    && (fs != [] ==> TopUnshared(s.cells, fs[0]))
  }

  ghost predicate TopUnshared(h: Heap, f: Frame) {
    (f == Check(f.a, false) || f == Sub(f.a, false)) && Holds(h, f.a) && h[f.a].kind == ListCell(true) ==>
      h[f.a].count != 1
  }

  /** Without interference no reference is ever leaked, so full teardown is guaranteed. */
  lemma AloneNeverLeaks(s: State, act: Action, s': State)
    requires Alone(s) && Step(s, 0, act, s')
    ensures Alone(s') && s'.leaked == s.leaked
  {
    hide RefsAll;
    match act
    case Run => AloneRuns(s, s');
    case _ =>
  }

  lemma AloneRuns(s: State, s': State)
    requires Alone(s) && s.threads[0].stack != [] && RunTop(s, 0, s')
    ensures Alone(s') && s'.leaked == s.leaked
  {
    hide RefsAll;
    match s.threads[0].stack[0]
    case Sub(a, sole) => NoMore(s.leaked);
    case _ =>
  }

  /** A lone thread that has let go of everything has emptied the heap of counted cells. */
  lemma AloneEmptiesHeap(s: State, rank: Addr -> nat)
    requires Inv(s) && Alone(s) && s.leaked == multiset{} && Ranked(s.cells, rank)
    requires s.threads[0] == Thread(multiset{}, [])
    ensures forall a: Addr :: Holds(s.cells, a) ==> s.cells[a].count == 0
  {
    hide Accounted;
    assert s.threads[1..] == [];
    assert TallyAll(s.threads, Draining) == multiset{} && TallyAll(s.threads, Dead) == multiset{};
    forall z ensures z !in s.draining && z !in s.dead {
      assert TallyAll(s.threads, Draining)[z] == 0 && TallyAll(s.threads, Dead)[z] == 0;
    }
    assert s.draining + s.dead == {};
    assert TallyAll(s.threads, Held) + s.leaked == multiset{};
    NoOwnersNoCells(s.cells, rank);
  }

  /** Two threads that each own one reference to a list of one string: both see
      `has_one_ref` false, both decrement, the list is freed, and its string stays
      behind with a count of 1 and no owner. */
  ghost function RaceHeap(count: nat): Heap {
    [Live(ListCell(true), count, [Str(At(1))]), Live(StrCell, 1, [])]
  }

  ghost function RaceState(count: nat, f0: seq<Frame>, f1: seq<Frame>): State {
    State(RaceHeap(count), [Thread(multiset{}, f0), Thread(multiset{}, f1)], {}, {}, multiset{})
  }

  ghost function Race(): seq<State> {
    [State(RaceHeap(2), [Thread(multiset{0}, []), Thread(multiset{0}, [])], {}, {}, multiset{}),
     State(RaceHeap(2), [Thread(multiset{}, [Probe(0)]), Thread(multiset{0}, [])], {}, {}, multiset{}),
     RaceState(2, [Probe(0)], [Probe(0)]),
     RaceState(2, [Check(0, false)], [Probe(0)]),
     RaceState(2, [Check(0, false)], [Check(0, false)]),
     RaceState(2, [Sub(0, false)], [Check(0, false)]),
     RaceState(2, [Sub(0, false)], [Sub(0, false)]),
     RaceState(1, [], [Sub(0, false)]),
     State(RaceHeap(0), [Thread(multiset{}, []), Thread(multiset{}, [Free(0)])], {}, {0}, multiset{1}),
     State([Freed, Live(StrCell, 1, [])], [Thread(multiset{}, []), Thread(multiset{}, [])], {}, {}, multiset{1})]
  }

  lemma RaceItem()
    ensures RefsAll([Str(At(1))]) == multiset{1}
  {
    assert [Str(At(1))][1..] == [];
  }

  lemma RaceOwned()
    ensures Owned(RaceHeap(2), {}, 2) == multiset{1}
  {
    RaceItem();
    var h := RaceHeap(2);
    assert CellRefs(h, {}, 0) == multiset{1} && CellRefs(h, {}, 1) == multiset{};
    hide CellRefs, RefsAll;
    assert Owned(h, {}, 1) == Owned(h, {}, 0) + CellRefs(h, {}, 0);
  }

  lemma RaceAccounted()
    ensures Accounted(RaceHeap(2), {}, multiset{0, 0})
  {
    RaceOwned();
    hide RefsAll, Owned;
    assert Everything(RaceHeap(2), {}, multiset{0, 0}) == multiset{0, 0, 1};
  }

  lemma RaceStart()
    ensures Init(Race()[0])
  {
    RaceAccounted();
    RaceTally();
    hide Accounted, TallyAll;
  }

  lemma RaceTally()
    ensures TallyAll(Race()[0].threads, Held) == multiset{0, 0}
  {
    var ts := Race()[0].threads;
    assert ts[1..] == [ts[1]] && [ts[1]][1..] == [];
    assert TallyAll([ts[1]], Held) == multiset{0};
  }

  lemma RaceTop(s: State, t: nat, f: Frame, frames: seq<Frame>)
    requires |s.threads| == 2 && t < 2 && s.threads[t] == Thread(multiset{}, [f])
    ensures SetTop(s, t, frames) == if t == 0 then [Thread(multiset{}, frames), s.threads[1]]
                                    else [s.threads[0], Thread(multiset{}, frames)]
  {
    assert [f][1..] == [] && frames + [] == frames;
  }

  lemma RaceBegins()
    ensures Step(Race()[0], 0, BeginRelease(0), Race()[1])
    ensures Step(Race()[1], 1, BeginRelease(0), Race()[2])
  {
    assert multiset{0} - multiset{0} == multiset{};
  }

  lemma RaceLoads()
    ensures Step(Race()[2], 0, Run, Race()[3]) && Step(Race()[3], 1, Run, Race()[4])
    ensures Step(Race()[4], 0, Run, Race()[5]) && Step(Race()[5], 1, Run, Race()[6])
  {
    RaceTop(Race()[2], 0, Probe(0), [Check(0, false)]);
    RaceTop(Race()[3], 1, Probe(0), [Check(0, false)]);
    RaceTop(Race()[4], 0, Check(0, false), [Sub(0, false)]);
    RaceTop(Race()[5], 1, Check(0, false), [Sub(0, false)]);
  }

  lemma RaceEnds()
    ensures Step(Race()[6], 0, Run, Race()[7]) && Step(Race()[7], 1, Run, Race()[8])
    ensures Step(Race()[8], 1, Run, Race()[9])
  {
    RaceItem();
    hide RefsAll;
    RaceTop(Race()[6], 0, Sub(0, false), []);
    RaceTop(Race()[7], 1, Sub(0, false), [Free(0)]);
    RaceTop(Race()[8], 1, Free(0), []);
    assert {} + {0} == {0} && {0} - {0} == {};
  }

  /** Full teardown fails under this interleaving. */
  lemma RaceLeaks()
    ensures IsRun(Race())
    ensures var s := Race()[|Race()| - 1];
            && s.cells[0].Freed? && s.cells[1] == Live(StrCell, 1, [])
            && forall t :: 0 <= t < |s.threads| ==> s.threads[t] == Thread(multiset{}, [])
  {
    RaceStart();
    RaceBegins();
    RaceLoads();
    RaceEnds();
    hide Init, Step;
  }
}
