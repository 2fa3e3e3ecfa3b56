/** What any number of threads leave behind.  Full teardown can fail, in one way only: a list
    that every thread saw shared loses its last reference without its elements being
    released.  Runs without such a step on a counted element tear everything down. */
module ConcurrentTeardown {
  import opened RocGraph
  import opened RocHeapSteps
  import opened RocHeapReachability
  import opened ConcurrentRoc

  // ----- which steps leak -----

  /** A list's last reference goes, unseen by `has_one_ref`, while the list holds references. */
  ghost predicate LeakingDrop(s: State, t: nat, act: Action) {
    exists a: Addr :: UnseenLastDrop(s, t, act, a) && RefsAll(s.cells[a].items) != multiset{}
  }

  /** The same, with a reference to counted data among those held. */
  ghost predicate CountedLeakingDrop(s: State, t: nat, act: Action) {
    exists a: Addr, b: Addr :: UnseenLastDrop(s, t, act, a) && b in RefsAll(s.cells[a].items) && Counted(s.cells, b)
  }

  ghost predicate Counted(h: Heap, b: Addr) {
    Holds(h, b) && h[b].count > 0
  }

  /** References go missing in a run if and only if some step was a leaking drop. */
  lemma {:induction false} LeakedExactly(run: seq<State>, who: seq<nat>, acts: seq<Action>, j: nat)
    requires IsTrace(run, who, acts) && j < |run|
    ensures run[j].leaked != multiset{} <==> exists i: nat :: i < j && LeakingDrop(run[i], who[i], acts[i])
  {
    hide IsRun, Step, LeakingDrop;
    if j == 0 {
      StartsWithoutLeak(run);
    } else {
      LeakedExactly(run, who, acts, j - 1);
      assert Step(run[j - 1], who[j - 1], acts[j - 1], run[j - 1 + 1]);
      StepLeaks(run[j - 1], who[j - 1], acts[j - 1], run[j]);
    }
  }

  lemma StartsWithoutLeak(run: seq<State>)
    requires IsRun(run)
    ensures Init(run[0]) && run[0].leaked == multiset{}
  {
  }

  lemma StepLeaks(s: State, t: nat, act: Action, s': State)
    requires Step(s, t, act, s')
    ensures s.leaked <= s'.leaked
    ensures s'.leaked != multiset{} <==> s.leaked != multiset{} || LeakingDrop(s, t, act)
  {
    hide RefsAll, SetTop, Gain;
    LeaksExactly(s, t, act, s');
    LeakedGrows(s, t, act, s');
    hide Step;
    if s'.leaked != multiset{} && s.leaked == multiset{} {
      assert s'.leaked != s.leaked;
    }
    if s.leaked != multiset{} {
      var b :| b in s.leaked;
      assert b in s'.leaked;
    }
  }

  lemma LeakedGrows(s: State, t: nat, act: Action, s': State)
    requires Step(s, t, act, s')
    ensures s'.leaked == s.leaked ||
            exists a: Addr :: UnseenLastDrop(s, t, act, a) && s'.leaked == s.leaked + RefsAll(s.cells[a].items)
    ensures s.leaked <= s'.leaked
  {
    hide RefsAll, SetTop, Gain;
    LeaksExactly(s, t, act, s');
    if act.Run? && s.threads[t].stack[0].Sub? && UnseenLastDrop(s, t, act, s.threads[t].stack[0].a) {
    } else {
      assert s'.leaked == s.leaked;
    }
  }

  // ----- a leaked reference keeps its target, static or counted as it was -----

  lemma LeakedIsLive(s: State, b: Addr)
    requires Inv(s) && b in s.leaked
    ensures Holds(s.cells, b) && b !in s.draining + s.dead
  {
    hide TallyAll, Accounted;
    OwnedIsLive(s.cells, s.draining + s.dead, TallyAll(s.threads, Held) + s.leaked, b);
  }

  lemma StepKeepsStatus(s: State, t: nat, act: Action, s': State, b: Addr)
    requires Inv(s) && Step(s, t, act, s') && Holds(s.cells, b) && b !in s.draining + s.dead
    requires Holds(s'.cells, b) && b !in s'.draining + s'.dead
    ensures Counted(s.cells, b) <==> Counted(s'.cells, b)
  {
    hide Inv, SetTop, Gain, RefsAll;
    if s.cells[b].count == 0 {
      StaticUntouched(s, t, act, s', b);
    } else {
      QuietStep(s, t, act, s');
      if act.Run? {
        TopIsSafe(s, t);
      }
    }
  }

  ghost predicate LeaksCounted(s: State) {
    exists b <- s.leaked :: Counted(s.cells, b)
  }

  lemma StepLeaksCounted(s: State, t: nat, act: Action, s': State)
    requires Inv(s) && Step(s, t, act, s')
    ensures LeaksCounted(s') <==> LeaksCounted(s) || CountedLeakingDrop(s, t, act)
  {
    hide Inv, RefsAll, Step;
    StepKeeps(s, t, act, s');
    LeakedGrows(s, t, act, s');
    forall b | b in s.leaked ensures b in s'.leaked && (Counted(s.cells, b) <==> Counted(s'.cells, b)) {
      LeakedIsLive(s, b);
      LeakedIsLive(s', b);
      StepKeepsStatus(s, t, act, s', b);
    }
    forall a: Addr, b: Addr | UnseenLastDrop(s, t, act, a) && b in RefsAll(s.cells[a].items)
      ensures b in s'.leaked && (Counted(s.cells, b) <==> Counted(s'.cells, b))
    {
      DroppedItem(s, t, act, s', a, b);
    }
    if LeaksCounted(s') && !LeaksCounted(s) {
      var b :| b in s'.leaked && Counted(s'.cells, b);
      assert b !in s.leaked;
      assert s'.leaked != s.leaked;
    }
  }

  lemma DroppedItem(s: State, t: nat, act: Action, s': State, a: Addr, b: Addr)
    requires Inv(s) && Inv(s') && Step(s, t, act, s') && UnseenLastDrop(s, t, act, a) && b in RefsAll(s.cells[a].items)
    ensures b in s'.leaked && (Counted(s.cells, b) <==> Counted(s'.cells, b))
  {
    hide Inv, RefsAll, SetTop;
    LeaksExactly(s, t, act, s');
    LeakedIsLive(s', b);
    assert s'.cells == SetCount(s.cells, a, 0) && a in s'.dead;
  }

  lemma {:induction false} LeaksCountedExactly(run: seq<State>, who: seq<nat>, acts: seq<Action>, j: nat)
    requires IsTrace(run, who, acts) && j < |run|
    ensures LeaksCounted(run[j]) <==> exists i: nat :: i < j && CountedLeakingDrop(run[i], who[i], acts[i])
  {
    hide IsRun, Step, CountedLeakingDrop, Inv;
    if j == 0 {
      StartsWithoutLeak(run);
    } else {
      LeaksCountedExactly(run, who, acts, j - 1);
      RunInv(run, j - 1);
      assert Step(run[j - 1], who[j - 1], acts[j - 1], run[j - 1 + 1]);
      hide LeaksCounted;
      StepLeaksCounted(run[j - 1], who[j - 1], acts[j - 1], run[j]);
    }
  }

  // ----- states between operations -----

  ghost predicate Idle(s: State) {
    forall t :: 0 <= t < |s.threads| ==> s.threads[t].stack == []
  }

  lemma IdleHasNoTeardown(s: State)
    requires Inv(s) && Idle(s)
    ensures s.draining == {} && s.dead == {}
    ensures Accounted(s.cells, {}, TallyAll(s.threads, Held) + s.leaked)
  {
    hide Accounted, TallyAll;
    IdleTally(s.threads, Draining);
    IdleTally(s.threads, Dead);
    forall z ensures z !in s.draining && z !in s.dead {
      assert TallyAll(s.threads, Draining)[z] == 0 && TallyAll(s.threads, Dead)[z] == 0;
    }
    assert s.draining + s.dead == {};
  }

  /** Between operations the counts equal the references the threads and the cells hold if
      and only if every leaked reference was to static data. */
  lemma IdleAccounted(s: State)
    requires Inv(s) && Idle(s)
    ensures Accounted(s.cells, {}, TallyAll(s.threads, Held)) <==> !LeaksCounted(s)
  {
    IdleHasNoTeardown(s);
    hide Accounted, TallyAll;
    forall b <- s.leaked ensures Holds(s.cells, b) {
      LeakedIsLive(s, b);
    }
    hide Inv, Idle;
    ItemsForgotten(s.cells, TallyAll(s.threads, Held), s.leaked);
  }

  /** Whatever the threads did: their references account for the heap if and only if no
      step was the unseen last drop of a list holding a counted reference. */
  lemma TeardownExactly(run: seq<State>, who: seq<nat>, acts: seq<Action>, j: nat)
    requires IsTrace(run, who, acts) && j < |run| && Idle(run[j])
    ensures Accounted(run[j].cells, {}, TallyAll(run[j].threads, Held)) <==>
            !exists i: nat :: i < j && CountedLeakingDrop(run[i], who[i], acts[i])
  {
    hide IsRun, Step, CountedLeakingDrop, Inv, Accounted, TallyAll, LeaksCounted;
    RunInv(run, j);
    IdleAccounted(run[j]);
    LeaksCountedExactly(run, who, acts, j);
  }

  // ----- acyclicity, kept by every step -----

  ghost predicate Bounded(h: Heap) {
    forall a: Addr, b: Addr :: Holds(h, a) && b in RefsAll(h[a].items) ==> b < |h|
  }

  /** A heap that changes counts, loses cells, or gains one whose references are to it. */
  ghost predicate Evolves(h: Heap, h': Heap) {
    Thins(h, h') || exists c: Cell :: h' == h + [c] && c.Live? && forall b <- RefsAll(c.items) :: b < |h|
  }

  lemma StepEvolves(s: State, t: nat, act: Action, s': State)
    requires Inv(s) && Step(s, t, act, s')
    ensures Evolves(s.cells, s'.cells)
  {
    hide Inv;
    if act.New? {
      NewEvolves(s, t, act, s');
    } else {
      hide RefsAll, SetTop, Gain;
      assert Thins(s.cells, s'.cells);
    }
  }

  lemma NewEvolves(s: State, t: nat, act: Action, s': State)
    requires Inv(s) && Step(s, t, act, s') && act.New?
    ensures Evolves(s.cells, s'.cells)
  {
    hide RefsAll, Inv, Thins;
    var c := Live(act.kind, 1, act.items);
    forall b <- RefsAll(c.items) ensures b < |s.cells| {
      assert b in s.threads[t].own;
      OwnReference(s, t, b);
    }
    assert s'.cells == s.cells + [c];
  }

  lemma OwnReference(s: State, t: nat, b: Addr)
    requires Inv(s) && t < |s.threads| && b in s.threads[t].own
    ensures Holds(s.cells, b)
  {
    TallySplit(s.threads, t, Held);
    hide TallyAll, Accounted;
    assert b in TallyThread(s.threads[t], Held);
    OwnedIsLive(s.cells, s.draining + s.dead, TallyAll(s.threads, Held) + s.leaked, b);
  }

  lemma EvolvesRanked(h: Heap, h': Heap, rank: Addr -> nat) returns (rank': Addr -> nat)
    requires Bounded(h) && Ranked(h, rank) && Evolves(h, h')
    ensures Bounded(h') && Ranked(h', rank')
  {
    hide RefsAll;
    if Thins(h, h') {
      RankedThins(h, h', rank);
      rank' := rank;
      forall a: Addr, b: Addr | Holds(h', a) && b in RefsAll(h'[a].items) ensures b < |h'| {
        assert CellKept(h[a], h'[a]);
      }
    } else {
      var c: Cell :| h' == h + [c] && c.Live? && forall b <- RefsAll(c.items) :: b < |h|;
      var top := MaxRank(rank, |h|);
      rank' := b => if b == |h| then top else rank(b);
      forall a: Addr, b: Addr | Holds(h', a) && b in RefsAll(h'[a].items) ensures b < |h'| && rank'(b) < rank'(a) {
        if a < |h| {
          assert Holds(h, a);
        }
      }
    }
  }

  lemma {:induction false} MaxRank(rank: Addr -> nat, n: nat) returns (top: nat)
    ensures forall b: Addr :: b < n ==> rank(b) < top
  {
    if n == 0 {
      top := 0;
    } else {
      top := MaxRank(rank, n - 1);
      top := if top <= rank(n - 1) then rank(n - 1) + 1 else top;
    }
  }

  lemma StartIsBounded(h: Heap, roots: multiset<Addr>)
    requires Accounted(h, {}, roots)
    ensures Bounded(h)
  {
    hide RefsAll;
    forall a: Addr, b: Addr | Holds(h, a) && b in RefsAll(h[a].items) ensures b < |h| {
      assert b in CellRefs(h, {}, a);
      OwnedIncludes(h, {}, a, |h|);
      assert b in Everything(h, {}, roots);
    }
  }

  /** A run that starts without cycles never makes one. */
  lemma {:induction false} RunRanked(run: seq<State>, who: seq<nat>, acts: seq<Action>, j: nat, rank: Addr -> nat)
    returns (rank': Addr -> nat)
    requires IsTrace(run, who, acts) && j < |run| && Ranked(run[0].cells, rank)
    ensures Bounded(run[j].cells) && Ranked(run[j].cells, rank')
  {
    hide IsRun, Step, Inv, Ranked, Bounded, Evolves;
    if j == 0 {
      StartsWithoutLeak(run);
      hide Accounted;
      StartIsBounded(run[0].cells, TallyAll(run[0].threads, Held));
      rank' := rank;
    } else {
      var before := RunRanked(run, who, acts, j - 1, rank);
      RunInv(run, j - 1);
      assert Step(run[j - 1], who[j - 1], acts[j - 1], run[j - 1 + 1]);
      StepEvolves(run[j - 1], who[j - 1], acts[j - 1], run[j]);
      rank' := EvolvesRanked(run[j - 1].cells, run[j].cells, before);
    }
  }

  // ----- what is left -----

  /** A run without such a step leaves no garbage: between operations the counted cells are
      exactly those the threads can reach. */
  lemma NoGarbage(run: seq<State>, who: seq<nat>, acts: seq<Action>, j: nat, rank: Addr -> nat, a: Addr)
    requires IsTrace(run, who, acts) && j < |run| && Idle(run[j]) && Ranked(run[0].cells, rank)
    requires !exists i: nat :: i < j && CountedLeakingDrop(run[i], who[i], acts[i])
    requires a < |run[j].cells|
    ensures Reachable(run[j].cells, TallyAll(run[j].threads, Held), a) ==> run[j].cells[a].Live?
    ensures Counted(run[j].cells, a) ==> Reachable(run[j].cells, TallyAll(run[j].threads, Held), a)
  {
    TeardownExactly(run, who, acts, j);
    var rank' := RunRanked(run, who, acts, j, rank);
    hide IsTrace, CountedLeakingDrop, Accounted, TallyAll, Ranked, Reachable, Idle;
    LiveIffReachable(run[j].cells, TallyAll(run[j].threads, Held), rank', a);
  }

  /** Once all threads have let go of everything, nothing but static data is left if and
      only if no such step happened. */
  lemma EmptiesExactly(run: seq<State>, who: seq<nat>, acts: seq<Action>, j: nat, rank: Addr -> nat)
    requires IsTrace(run, who, acts) && j < |run| && Ranked(run[0].cells, rank)
    requires forall t :: 0 <= t < |run[j].threads| ==> run[j].threads[t] == Thread(multiset{}, [])
    ensures (forall a: Addr :: !Counted(run[j].cells, a)) <==>
            !exists i: nat :: i < j && CountedLeakingDrop(run[i], who[i], acts[i])
  {
    var s := run[j];
    var rank' := RunRanked(run, who, acts, j, rank);
    TeardownExactly(run, who, acts, j);
    NothingHeld(s.threads);
    hide Ranked, Accounted, TallyAll, CountedLeakingDrop;
    if exists i: nat :: i < j && CountedLeakingDrop(run[i], who[i], acts[i]) {
      LeaksCountedExactly(run, who, acts, j);
    } else {
      hide IsTrace;
      NoOwnersNoCells(s.cells, rank');
    }
  }

  lemma {:induction false} NothingHeld(ts: seq<Thread>)
    requires forall t :: 0 <= t < |ts| ==> ts[t] == Thread(multiset{}, [])
    ensures TallyAll(ts, Held) == multiset{}
  {
    if ts != [] {
      assert ts[0] == Thread(multiset{}, []);
      NothingHeld(ts[1..]);
    }
  }

  // ----- one thread -----

  /** A single thread never leaks, whatever it does and however long it runs. */
  lemma {:induction false} AloneRun(run: seq<State>, who: seq<nat>, acts: seq<Action>, j: nat)
    requires IsTrace(run, who, acts) && j < |run| && |run[0].threads| == 1
    requires forall a: Addr :: Holds(run[0].cells, a) ==> Releasable(run[0].cells[a].kind, run[0].cells[a].items)
    ensures Alone(run[j]) && run[j].leaked == multiset{}
  {
    hide IsRun, Step, Releasable;
    if j == 0 {
      StartsWithoutLeak(run);
    } else {
      AloneRun(run, who, acts, j - 1);
      assert Step(run[j - 1], who[j - 1], acts[j - 1], run[j - 1 + 1]);
      OnlyThread(run[j - 1], who[j - 1], acts[j - 1], run[j]);
      hide Alone;
      AloneNeverLeaks(run[j - 1], acts[j - 1], run[j]);
    }
  }

  lemma OnlyThread(s: State, t: nat, act: Action, s': State)
    requires Step(s, t, act, s') && |s.threads| == 1
    ensures t == 0
  {
  }

  /** A lone thread that lets go of everything always empties the heap of counted cells. */
  lemma AloneRunEmpties(run: seq<State>, who: seq<nat>, acts: seq<Action>, j: nat, rank: Addr -> nat)
    requires IsTrace(run, who, acts) && j < |run| && |run[0].threads| == 1 && Ranked(run[0].cells, rank)
    requires forall a: Addr :: Holds(run[0].cells, a) ==> Releasable(run[0].cells[a].kind, run[0].cells[a].items)
    requires run[j].threads == [Thread(multiset{}, [])]
    ensures forall a: Addr :: !Counted(run[j].cells, a)
  {
    AloneRun(run, who, acts, j);
    RunInv(run, j);
    var rank' := RunRanked(run, who, acts, j, rank);
    hide IsTrace, Alone, Inv, Ranked;
    AloneEmptiesHeap(run[j], rank');
  }
}
