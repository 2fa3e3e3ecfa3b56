/** The invariant of the TCP protocol, over every interleaving, and what follows from it. */
module TcpInvariant {
  import opened TcpProtocol

  // ----- one step -----

  lemma {:induction false} InFlightUpdate(readers: map<Id, Reader>, id: Id, r: Reader, n: Id)
    ensures InFlight(readers[id := r], n) + (if id < n && id in readers then NotifyingReader(readers[id]) else 0)
            == InFlight(readers, n) + (if id < n then NotifyingReader(r) else 0)
  {
    if n > 0 {
      InFlightUpdate(readers, id, r, n - 1);
    }
  }

  predicate IsReaderAction(a: Action) {
    a.ReadChunk? || a.SendData? || a.NotifyData? || a.ReadEnd? || a.SendEnd? || a.NotifyEnd?
  }

  lemma BalancedReader(s: State, a: Action)
    requires Balanced(s) && IdsOk(s) && Enabled(s, a) && IsReaderAction(a)
    ensures Balanced(Apply(s, a))
  {
    hide InFlight;
    InFlightUpdate(s.readers, a.id, Apply(s, a).readers[a.id], s.nextId);
  }

  lemma BalancedStep(s: State, a: Action)
    requires Balanced(s) && IdsOk(s) && Enabled(s, a) && a != ReceiveNothing
    ensures Balanced(Apply(s, a))
  {
    if IsReaderAction(a) {
      BalancedReader(s, a);
    } else if a == Spawn {
      BalancedSpawn(s);
    } else if a == Accept {
      BalancedAccept(s);
    } else {
      hide InFlight, IdsOk;
    }
  }

  lemma BalancedSpawn(s: State)
    requires Balanced(s) && IdsOk(s) && Enabled(s, Spawn)
    ensures Balanced(Apply(s, Spawn))
  {
    hide InFlight;
    InFlightUpdate(s.readers, s.listener.id, Reader(Reading, []), s.nextId);
  }

  lemma BalancedAccept(s: State)
    requires Balanced(s) && IdsOk(s) && Enabled(s, Accept)
    ensures Balanced(Apply(s, Accept))
  {
    assert s.nextId !in s.readers;
  }

  lemma IdsStep(s: State, a: Action)
    requires IdsOk(s) && Enabled(s, a)
    ensures IdsOk(Apply(s, a))
  {
  }

  /** The only action that cannot happen: finding the queue empty after draining a byte. */
  lemma NeverReceiveNothing(s: State)
    requires Balanced(s)
    ensures !Enabled(s, ReceiveNothing)
  {
  }

  /** The event an action puts on the queue. */
  function Sent(s: State, a: Action): seq<Event>
    requires Enabled(s, a)
  {
    match a
    case SendConnected => [Connected(s.listener.id)]
    case SendData(id) => [Data(id, s.readers[id].pc.chunk)]
    case SendEnd(id) => [Disconnected(id)]
    case _ => []
  }

  lemma HistoryStep(s: State, a: Action)
    requires Enabled(s, a)
    ensures History(Apply(s, a)) == History(s) + Sent(s, a)
  {
  }

  lemma ProjectStep(s: State, a: Action, id: Id)
    requires Enabled(s, a)
    ensures Sent(s, a) == [] || Sent(s, a)[0].id != id ==> Project(History(Apply(s, a)), id) == Project(History(s), id)
    ensures Sent(s, a) != [] && Sent(s, a)[0].id == id ==>
              Project(History(Apply(s, a)), id) == Project(History(s), id) + Sent(s, a)
  {
    HistoryStep(s, a);
    if Sent(s, a) != [] {
      ProjectAppend(History(s), Sent(s, a)[0], id);
    } else {
      assert History(s) + [] == History(s);
    }
  }

  function NextReader(r: Reader, a: Action): Reader {
    match a
    case ReadChunk(_, chunk) => Reader(Holding(chunk), r.got + chunk)
    case SendData(_) => r.(pc := NotifyingData)
    case NotifyData(_) => r.(pc := Reading)
    case ReadEnd(_) => r.(pc := AtEnd)
    case SendEnd(_) => r.(pc := NotifyingEnd)
    case NotifyEnd(_) => r.(pc := Stopped)
    case _ => r
  }

  lemma ReaderAfter(s: State, a: Action)
    requires Enabled(s, a) && IsReaderAction(a)
    ensures Apply(s, a).readers == s.readers[a.id := NextReader(s.readers[a.id], a)] &&
            Apply(s, a).listener == s.listener
  {
  }

  lemma ReaderStep(s: State, a: Action, p: seq<Event>)
    requires Enabled(s, a) && IsReaderAction(a) && ReaderTraced(s.readers[a.id], a.id, p)
    ensures ReaderTraced(NextReader(s.readers[a.id], a), a.id, p + Sent(s, a))
  {
    var sent := Sent(s, a);
    if sent == [] {
      assert p + sent == p;
    } else {
      assert sent == [sent[0]];
      PayloadAppend(p, sent[0]);
      LifecycleGrows(p, a.id, sent[0]);
    }
    hide Payload, Lifecycle;
  }

  lemma TracedReader(s: State, a: Action, id: Id, p: seq<Event>)
    requires IdsOk(s) && Enabled(s, a) && IsReaderAction(a) && TracedAs(s, id, p)
    ensures TracedAs(Apply(s, a), id, if a.id == id then p + Sent(s, a) else p)
  {
    ReaderAfter(s, a);
    if a.id == id {
      ReaderStep(s, a, p);
    }
    hide Apply, ReaderTraced, NextReader;
  }

  lemma LifecycleGrows(p: seq<Event>, id: Id, e: Event)
    requires Lifecycle(p, id, false) && e.id == id && !e.Connected?
    ensures Lifecycle(p + [e], id, e.Disconnected?)
  {
  }

  lemma TracedOther(s: State, a: Action, id: Id, p: seq<Event>)
    requires IdsOk(s) && Enabled(s, a) && !IsReaderAction(a) && TracedAs(s, id, p)
    ensures TracedAs(Apply(s, a), id, if Sent(s, a) != [] && Sent(s, a)[0].id == id then p + Sent(s, a) else p)
  {
    if a == Spawn {
      assert Payload([Connected(s.listener.id)]) == [] by { PayloadAppend([], Connected(s.listener.id)); }
    }
    hide Payload, EffectRun, Received;
  }

  lemma TracedStep(s: State, a: Action, id: Id)
    requires IdsOk(s) && Traced(s, id) && Enabled(s, a)
    ensures Traced(Apply(s, a), id)
  {
    hide Apply, Enabled, TracedAs, Project;
    ProjectStep(s, a, id);
    var p := Project(History(s), id);
    if IsReaderAction(a) {
      TracedReader(s, a, id, p);
      ReaderSends(s, a);
      assert Sent(s, a) == [] ==> p + Sent(s, a) == p;
    } else {
      TracedOther(s, a, id, p);
    }
  }

  lemma ReaderSends(s: State, a: Action)
    requires Enabled(s, a) && IsReaderAction(a)
    ensures Sent(s, a) != [] ==> Sent(s, a)[0].id == a.id
  {
  }

  /** Where the head of the queue stands in its connection's history. */
  lemma HeadPlace(s: State, id: Id)
    requires s.queue != [] && s.queue[0].id == id
    ensures var q, p := Project(s.dequeued, id), Project(History(s), id); q + [s.queue[0]] <= p
  {
    ProjectSplit(s.dequeued, s.queue, id);
    assert s.queue == [s.queue[0]] + s.queue[1..];
    ProjectSplit([s.queue[0]], s.queue[1..], id);
    assert Project([s.queue[0]], id) == [s.queue[0]] by { ProjectAppend([], s.queue[0], id); }
    hide Project;
  }

  /** A Connected still on the queue belongs to a connection the main loop has not seen. */
  lemma HeadIsNew(s: State, id: Id)
    requires Traced(s, id) && s.queue != [] && s.queue[0] == Connected(id)
    ensures Connected(id) !in s.dequeued && Disconnected(id) !in s.dequeued
  {
    hide Project;
    var q, p := Project(s.dequeued, id), Project(History(s), id);
    HeadPlace(s, id);
    TracedIsPrefix(s, id);
    assert p[|q|] == Connected(id);
    ProjectMember(s.dequeued, Connected(id));
    ProjectMember(s.dequeued, Disconnected(id));
  }

  /** Data and Disconnected are only ever dequeued after their Connected. */
  lemma HeadIsKnown(s: State, id: Id)
    requires Traced(s, id) && s.queue != [] && s.queue[0].id == id && !s.queue[0].Connected?
    ensures Connected(id) in s.dequeued && Disconnected(id) !in s.dequeued
  {
    hide Project;
    var q, p := Project(s.dequeued, id), Project(History(s), id);
    HeadPlace(s, id);
    TracedIsPrefix(s, id);
    assert p[|q|] == s.queue[0] && q <= p;
    assert q[0] == Connected(id);
    ProjectMember(s.dequeued, Connected(id));
    forall i | 0 <= i < |q| ensures q[i] != Disconnected(id) {
      assert q[i] == p[i];
    }
    ProjectMember(s.dequeued, Disconnected(id));
  }

  lemma ReceiveWriters(s: State)
    requires (forall id: Id :: Traced(s, id)) && WritersOk(s) && s.queue != []
    ensures WritersOk(Received(s))
  {
    hide Traced;
    var e, s' := s.queue[0], Received(s);
    assert Traced(s, e.id);
    if e.Connected? {
      HeadIsNew(s, e.id);
    } else {
      HeadIsKnown(s, e.id);
    }
    forall id: Id ensures id in s'.writers <==> Open(s', id) && id !in s'.failed {
      assert Open(s', id) <==> if id == e.id then !e.Disconnected? else Open(s, id);
    }
  }

  lemma EffectWriters(s: State, written: nat, ok: bool)
    requires WritersOk(s) && Enabled(s, RunEffect(written, ok))
    ensures WritersOk(EffectRun(s, written, ok))
  {
    var s' := EffectRun(s, written, ok);
    forall id: Id ensures id in s'.writers <==> Open(s', id) && id !in s'.failed {
      assert Open(s', id) <==> Open(s, id);
      assert id in s.writers <==> Open(s, id) && id !in s.failed;
    }
    forall id: Id ensures id in s'.wire <==> Connected(id) in s'.dequeued {
      assert id in s.writers ==> Open(s, id);
    }
  }

  lemma WritersStep(s: State, a: Action)
    requires (forall id: Id :: Traced(s, id)) && WritersOk(s) && Enabled(s, a)
    ensures WritersOk(Apply(s, a))
  {
    match a
    case Receive => ReceiveWriters(s);
    case RunEffect(written, ok) => EffectWriters(s, written, ok);
    case _ =>
      hide Traced, EffectRun, Received;
      forall id: Id ensures Open(Apply(s, a), id) <==> Open(s, id) {
      }
  }

  lemma StepInv(s: State, a: Action)
    requires Inv(s) && Enabled(s, a)
    ensures Inv(Apply(s, a))
  {
    NeverReceiveNothing(s);
    BalancedStep(s, a);
    IdsStep(s, a);
    forall id: Id ensures Traced(Apply(s, a), id) {
      TracedStep(s, a, id);
    }
    WritersStep(s, a);
  }

  lemma InitInv(s: State)
    requires Init(s)
    ensures Inv(s)
  {
  }

  // ----- whole runs -----

  ghost predicate IsRun(run: seq<State>, acts: seq<Action>) {
    && |run| == |acts| + 1 && Init(run[0])
    && forall i :: 0 <= i < |acts| ==> Enabled(run[i], acts[i]) && run[i + 1] == Apply(run[i], acts[i])
  }

  lemma {:induction false} RunInv(run: seq<State>, acts: seq<Action>, i: nat)
    requires IsRun(run, acts) && i < |run|
    ensures Inv(run[i])
  {
    hide Inv, Init, Enabled, Apply;
    if i == 0 {
      InitInv(run[0]);
    } else {
      RunInv(run, acts, i - 1);
      StepInv(run[i - 1], acts[i - 1]);
      assert run[i - 1 + 1] == Apply(run[i - 1], acts[i - 1]);
    }
  }

  /** A byte drained from the pipe always finds an event; and if the pipe is empty and
      no producer stands between its send and its notification, the queue is empty. */
  lemma NoLostWakeup(run: seq<State>, acts: seq<Action>, i: nat)
    requires IsRun(run, acts) && i < |run|
    ensures run[i].main == Receiving ==> run[i].queue != []
    ensures run[i].main != Receiving && run[i].pipe == 0 && Unannounced(run[i]) == 0 ==> run[i].queue == []
    ensures i < |acts| ==> acts[i] != ReceiveNothing
  {
    hide Init, Apply;
    RunInv(run, acts, i);
  }

  /** What the listener does next.  A server accepts again and again, a client connects once. */
  predicate ListenerMayGoOn(s: State) {
    match s.listener
    case Accepting => Enabled(s, Accept) <==> s.mode == Server || s.nextId == 0
    case Cloning(_) => Enabled(s, CloneSucceeds) && Enabled(s, CloneFails)
    case Announcing(_) => Enabled(s, SendConnected)
    case Notifying(_) => Enabled(s, NotifyConnected)
    case Spawning(_) => Enabled(s, Spawn)
  }

  /** A reader can read whatever arrives, and goes on until it has reported the end. */
  ghost predicate ReaderMayGoOn(s: State, id: Id)
    requires id in s.readers
  {
    match s.readers[id].pc
    case Reading => Enabled(s, ReadEnd(id)) && forall c :: FitsBuffer(c) ==> Enabled(s, ReadChunk(id, c))
    case Holding(_) => Enabled(s, SendData(id))
    case NotifyingData => Enabled(s, NotifyData(id))
    case AtEnd => Enabled(s, SendEnd(id))
    case NotifyingEnd => Enabled(s, NotifyEnd(id))
    case Stopped => true
  }

  /** The main loop takes every byte there is, finds an event for it, has it handled, and runs
      every effect, whether the write works or not. */
  ghost predicate MainMayGoOn(s: State) {
    match s.main
    case Polling => (s.pipe > 0 ==> Enabled(s, DrainByte)) && (s.subs.stdin || s.subs.timer ==> Enabled(s, TakeOther))
    case Receiving => Enabled(s, Receive) && !Enabled(s, ReceiveNothing)
    case Updating(_) => forall subs, effects :: Enabled(s, AppUpdate(subs, effects))
    case Running(rest) =>
      forall written: nat, ok :: (rest != [] && rest[0].TcpSend? ==> written <= |rest[0].bytes|) ==>
                              Enabled(s, RunEffect(written, ok))
    case Exited => true
  }

  /** Nobody is ever stuck. */
  lemma NobodyIsStuck(run: seq<State>, acts: seq<Action>, i: nat)
    requires IsRun(run, acts) && i < |run|
    ensures ListenerMayGoOn(run[i]) && MainMayGoOn(run[i])
    ensures forall id :: id in run[i].readers ==> ReaderMayGoOn(run[i], id)
  {
    NoLostWakeup(run, acts, i);
    hide IsRun;
    MainGoesOn(run[i]);
    hide MainMayGoOn;
    forall id | id in run[i].readers ensures ReaderMayGoOn(run[i], id) {
      ReaderGoesOn(run[i], id);
    }
    hide ReaderMayGoOn;
  }

  lemma ReaderGoesOn(s: State, id: Id)
    requires id in s.readers
    ensures ReaderMayGoOn(s, id)
  {
  }

  lemma MainGoesOn(s: State)
    requires s.main == Receiving ==> s.queue != []
    ensures MainMayGoOn(s)
  {
  }

  /** Something, and no more than fits into the read buffer. */
  predicate FitsBuffer(bytes: Bytes) {
    0 < |bytes| <= 4096
  }

  /** The subscriptions of the last update, or those of the start. */
  function LatestSubs(acts: seq<Action>, first: Subs): Subs {
    if acts == [] then first
    else if acts[|acts| - 1].AppUpdate? then acts[|acts| - 1].subs
    else LatestSubs(acts[..|acts| - 1], first)
  }

  /** Each update's subscriptions hold until the next, and its effects are the ones to run. */
  lemma {:induction false} UpdatesHold(run: seq<State>, acts: seq<Action>, i: nat)
    requires IsRun(run, acts) && i < |run|
    ensures run[i].subs == LatestSubs(acts[..i], run[0].subs)
    ensures i > 0 && acts[i - 1].AppUpdate? ==> run[i].main == Running(acts[i - 1].effects)
  {
    hide Init, Enabled;
    if i > 0 {
      UpdatesHold(run, acts, i - 1);
      assert acts[..i][..i - 1] == acts[..i - 1];
      SubsStep(run[i - 1], acts[i - 1]);
      hide Apply;
      assert run[i - 1 + 1] == Apply(run[i - 1], acts[i - 1]);
    }
  }

  lemma SubsStep(s: State, a: Action)
    requires Enabled(s, a)
    ensures Apply(s, a).subs == if a.AppUpdate? then a.subs else s.subs
    ensures a.AppUpdate? ==> Apply(s, a).main == Running(a.effects)
  {
  }

  predicate Notifies(a: Action) {
    a == NotifyConnected || a.NotifyData? || a.NotifyEnd?
  }

  /** Bytes written to the pipe by these steps. */
  function Notified(acts: seq<Action>): nat {
    if acts == [] then 0 else Notified(acts[..|acts| - 1]) + if Notifies(acts[|acts| - 1]) then 1 else 0
  }

  lemma UnannouncedStep(s: State, a: Action)
    requires Inv(s) && Enabled(s, a)
    ensures Unannounced(Apply(s, a)) + (if Notifies(a) then 1 else 0) == Unannounced(s) + |Sent(s, a)|
    ensures |History(Apply(s, a))| == |History(s)| + |Sent(s, a)|
  {
    HistoryStep(s, a);
    StepInv(s, a);
    NeverReceiveNothing(s);
    hide InFlight, Traced, WritersOk, IdsOk, EffectRun;
  }

  /** Between any two points of a run, the pipe is given at most as many bytes as the queue
      is given events; what is missing is in the hands of producers about to write. */
  lemma {:induction false} BytesFollowEvents(run: seq<State>, acts: seq<Action>, i: nat, j: nat)
    requires IsRun(run, acts) && i <= j < |run| && run[i].main != Receiving
    ensures run[i].pipe + Notified(acts[i..j]) + Unannounced(run[j]) ==
              |run[i].queue| + (|History(run[j])| - |History(run[i])|)
  {
    hide Init, Apply, Enabled, History, Unannounced;
    if i == j {
      RunInv(run, acts, i);
    } else {
      BytesFollowEvents(run, acts, i, j - 1);
      RunInv(run, acts, j - 1);
      UnannouncedStep(run[j - 1], acts[j - 1]);
      assert run[j - 1 + 1] == Apply(run[j - 1], acts[j - 1]);
      assert acts[i..j][..|acts[i..j]| - 1] == acts[i..j - 1];
    }
  }

  /** Per connection, the events dequeued so far and those dequeued then queued are
      prefixes of Connected, Data*, Disconnected. */
  lemma EventOrder(run: seq<State>, acts: seq<Action>, i: nat, id: Id)
    requires IsRun(run, acts) && i < |run|
    ensures LifecyclePrefix(Project(History(run[i]), id), id)
    ensures LifecyclePrefix(Project(run[i].dequeued, id), id)
    ensures Project(run[i].dequeued, id) <= Project(History(run[i]), id)
  {
    hide Init, Apply;
    RunInv(run, acts, i);
    assert Traced(run[i], id);
    TracedIsPrefix(run[i], id);
    ProjectSplit(run[i].dequeued, run[i].queue, id);
    LifecycleOfPrefix(Project(History(run[i]), id), Project(run[i].dequeued, id), id);
  }

  /** Bytes are neither lost, duplicated nor reordered: what was dequeued, what is
      queued and the chunk in the reader's hands make up what was read. */
  lemma BytesConserved(run: seq<State>, acts: seq<Action>, i: nat, id: Id)
    requires IsRun(run, acts) && i < |run| && id in run[i].readers
    ensures var s := run[i];
            Payload(Project(s.dequeued, id)) + Payload(Project(s.queue, id)) + InHand(s.readers[id]) ==
              s.readers[id].got
  {
    hide Init, Apply;
    RunInv(run, acts, i);
    var s := run[i];
    assert Traced(s, id);
    ProjectSplit(s.dequeued, s.queue, id);
    PayloadSplit(Project(s.dequeued, id), Project(s.queue, id));
  }

  lemma {:induction false} PayloadSplit(h: seq<Event>, k: seq<Event>)
    ensures Payload(h + k) == Payload(h) + Payload(k)
  {
    if k == [] {
      assert h + k == h;
    } else {
      var n := |k| - 1;
      PayloadSplit(h, k[..n]);
      assert h + k == (h + k[..n]) + [k[n]];
      PayloadAppend(h + k[..n], k[n]);
    }
  }

  /** The handle table is exactly the open connections without a failed send. */
  lemma WritersExact(run: seq<State>, acts: seq<Action>, i: nat, id: Id)
    requires IsRun(run, acts) && i < |run|
    ensures id in run[i].writers <==>
            Connected(id) in run[i].dequeued && Disconnected(id) !in run[i].dequeued && id !in run[i].failed
  {
    hide Init, Apply;
    RunInv(run, acts, i);
  }

  /** A connection that was announced to the main loop and has no handle now. */
  predicate Closed(s: State, id: Id) {
    Connected(id) in s.dequeued && id !in s.writers
  }

  lemma ClosedStep(s: State, a: Action, id: Id)
    requires Inv(s) && Enabled(s, a) && Closed(s, id)
    ensures Closed(Apply(s, a), id)
    ensures id in s.wire && id in Apply(s, a).wire && Apply(s, a).wire[id] == s.wire[id]
  {
    if a == Receive && s.queue[0] == Connected(id) {
      assert Traced(s, id);
      HeadIsNew(s, id);
    }
  }

  /** An id whose handle is gone never gets it back and is never written to again. */
  lemma {:induction false} NeverWrittenAgain(run: seq<State>, acts: seq<Action>, i: nat, j: nat, id: Id)
    requires IsRun(run, acts) && i <= j < |run| && Closed(run[i], id)
    ensures Closed(run[j], id)
    ensures id in run[i].wire && id in run[j].wire && run[j].wire[id] == run[i].wire[id]
  {
    hide Inv, Init, Apply, Enabled;
    RunInv(run, acts, i);
    ClosedHasWire(run[i], id);
    if i < j {
      NeverWrittenAgain(run, acts, i, j - 1, id);
      RunInv(run, acts, j - 1);
      ClosedStep(run[j - 1], acts[j - 1], id);
      assert run[j - 1 + 1] == Apply(run[j - 1], acts[j - 1]);
    }
  }

  lemma ClosedHasWire(s: State, id: Id)
    requires Inv(s) && Closed(s, id)
    ensures id in s.wire
  {
  }

  // ----- what one message carries -----

  ghost predicate ChunksFit(s: State) {
    && (forall i :: 0 <= i < |History(s)| && History(s)[i].Data? ==> FitsBuffer(History(s)[i].bytes))
    && forall id: Id :: id in s.readers && s.readers[id].pc.Holding? ==> FitsBuffer(s.readers[id].pc.chunk)
  }

  lemma ChunksStep(s: State, a: Action)
    requires ChunksFit(s) && Enabled(s, a)
    ensures ChunksFit(Apply(s, a))
  {
    HistoryStep(s, a);
    if IsReaderAction(a) {
      ReaderAfter(s, a);
      hide Apply, History;
    } else {
      ReadersStay(s, a);
      hide Apply, History;
    }
  }

  lemma ReadersStay(s: State, a: Action)
    requires Enabled(s, a) && !IsReaderAction(a)
    ensures forall id: Id :: id in Apply(s, a).readers && Apply(s, a).readers[id].pc.Holding? ==>
              id in s.readers && Apply(s, a).readers[id] == s.readers[id]
    ensures forall i :: 0 <= i < |Sent(s, a)| ==> !Sent(s, a)[i].Data?
  {
  }

  /** Every message ever queued carries at least one byte and at most 4096. */
  lemma {:induction false} MessagesFit(run: seq<State>, acts: seq<Action>, i: nat)
    requires IsRun(run, acts) && i < |run|
    ensures ChunksFit(run[i])
    ensures var h := run[i].dequeued + run[i].queue;
            forall k :: 0 <= k < |h| && h[k].Data? ==> 0 < |h[k].bytes| <= 4096
  {
    hide Apply, Enabled;
    if i > 0 {
      hide Init;
      MessagesFit(run, acts, i - 1);
      ChunksStep(run[i - 1], acts[i - 1]);
      assert run[i - 1 + 1] == Apply(run[i - 1], acts[i - 1]);
    }
    var h := History(run[i]);
    forall k | 0 <= k < |h| && h[k].Data? ensures 0 < |h[k].bytes| <= 4096 {
      assert FitsBuffer(History(run[i])[k].bytes);
    }
  }

  // ----- what the application receives -----

  function ReceivedBytes(ds: seq<AppEvent>, id: Id): Bytes {
    if ds == [] then []
    else
      var d := ds[|ds| - 1];
      ReceivedBytes(ds[..|ds| - 1], id) + if d.MessageReceived? && d.id == id then d.bytes else []
  }

  lemma ReceivedAppend(ds: seq<AppEvent>, d: AppEvent, id: Id)
    ensures ReceivedBytes(ds + [d], id) ==
              ReceivedBytes(ds, id) + if d.MessageReceived? && d.id == id then d.bytes else []
  {
    assert (ds + [d])[..|ds|] == ds;
  }

  predicate AllDelivered(s: State, id: Id) {
    ReceivedBytes(s.delivered, id) == Payload(Project(s.dequeued, id))
  }

  lemma DeliveredStep(s: State, a: Action, id: Id)
    requires Enabled(s, a) && s.subs.receive && AllDelivered(s, id)
    ensures AllDelivered(Apply(s, a), id)
  {
    match a
    case Receive => DeliveredReceive(s, id);
    case TakeOther => ReceivedAppend(s.delivered, OtherInput, id);
    case _ =>
  }

  lemma DeliveredReceive(s: State, id: Id)
    requires s.queue != [] && s.subs.receive && AllDelivered(s, id)
    ensures AllDelivered(Received(s), id)
  {
    var e := s.queue[0];
    var told, p := Translate(s.subs, e), Project(s.dequeued, id);
    ProjectAppend(s.dequeued, e, id);
    PayloadAppend(p, e);
    assert p + [] == p && s.delivered + [] == s.delivered;
    if told != [] {
      assert told == [told[0]];
      ReceivedAppend(s.delivered, told[0], id);
    }
    hide Project, Payload, ReceivedBytes;
  }

  /** What the application was told about one connection, messages included if `data`. */
  function ToldAbout(ds: seq<AppEvent>, id: Id, data: bool): seq<AppEvent> {
    if ds == [] then []
    else
      var d := ds[|ds| - 1];
      ToldAbout(ds[..|ds| - 1], id, data) +
      if d != OtherInput && d.id == id && (data || !d.MessageReceived?) then [d] else []
  }

  /** What was taken off the queue about it. */
  function About(h: seq<Event>, id: Id, data: bool): seq<Event> {
    if h == [] then []
    else
      var e := h[|h| - 1];
      About(h[..|h| - 1], id, data) + if e.id == id && (data || !e.Data?) then [e] else []
  }

  predicate ReportsAll(told: seq<AppEvent>, es: seq<Event>) {
    |told| == |es| && forall i :: 0 <= i < |es| ==> Reports(told[i], es[i])
  }

  lemma {:induction false} AboutAll(h: seq<Event>, id: Id)
    ensures About(h, id, true) == Project(h, id)
  {
    if h != [] {
      AboutAll(h[..|h| - 1], id);
    }
  }

  lemma AboutAppend(ds: seq<AppEvent>, d: AppEvent, h: seq<Event>, e: Event, id: Id, data: bool)
    ensures ToldAbout(ds + [d], id, data) ==
              ToldAbout(ds, id, data) +
              if d != OtherInput && d.id == id && (data || !d.MessageReceived?) then [d] else []
    ensures About(h + [e], id, data) == About(h, id, data) + if e.id == id && (data || !e.Data?) then [e] else []
  {
    assert (ds + [d])[..|ds|] == ds && (h + [e])[..|h|] == h;
  }

  predicate ToldInOrder(s: State, id: Id, data: bool) {
    ReportsAll(ToldAbout(s.delivered, id, data), About(s.dequeued, id, data))
  }

  lemma ToldStep(s: State, a: Action, id: Id, data: bool)
    requires Enabled(s, a) && ToldInOrder(s, id, data)
    requires (s.subs.accept || s.subs.connect) && (data ==> s.subs.receive)
    ensures ToldInOrder(Apply(s, a), id, data)
  {
    if a == Receive {
      ToldReceive(s, id, data);
    } else if a == TakeOther {
      AboutAppend(s.delivered, OtherInput, [], Connected(id), id, data);
      hide ToldAbout, About, ReportsAll;
    } else {
      NothingNew(s, a);
    }
    hide Received, Enabled, ToldAbout, About, ReportsAll, EffectRun;
  }

  lemma NothingNew(s: State, a: Action)
    requires Enabled(s, a) && a != Receive && a != TakeOther
    ensures Apply(s, a).delivered == s.delivered && Apply(s, a).dequeued == s.dequeued
  {
  }

  lemma ToldReceive(s: State, id: Id, data: bool)
    requires s.queue != [] && ToldInOrder(s, id, data)
    requires (s.subs.accept || s.subs.connect) && (data ==> s.subs.receive)
    ensures ToldInOrder(Received(s), id, data)
  {
    var e := s.queue[0];
    ToldExactly(s.subs, e);
    hide Translate, ReportsAll, ToldAbout, About, Reports;
    ToldPush(s.delivered, Translate(s.subs, e), s.dequeued, e, id, data);
  }

  lemma ToldPush(ds: seq<AppEvent>, told: seq<AppEvent>, h: seq<Event>, e: Event, id: Id, data: bool)
    requires ReportsAll(ToldAbout(ds, id, data), About(h, id, data))
    requires |told| <= 1 && (told == [] ==> e.Data? && !data) && (told != [] ==> Reports(told[0], e))
    ensures ReportsAll(ToldAbout(ds + told, id, data), About(h + [e], id, data))
  {
    hide ToldAbout, About, ReportsAll;
    var before, events := ToldAbout(ds, id, data), About(h, id, data);
    if told != [] {
      assert told == [told[0]];
      AboutAppend(ds, told[0], h, e, id, data);
      ReportsPush(before, events, told[0], e);
    } else {
      AboutAppend(ds, OtherInput, h, e, id, data);
      assert ds + [] == ds;
    }
    assert before + [] == before && events + [] == events;
  }

  lemma ReportsPush(told: seq<AppEvent>, es: seq<Event>, d: AppEvent, e: Event)
    requires ReportsAll(told, es) && Reports(d, e)
    ensures ReportsAll(told + [d], es + [e])
    ensures d != OtherInput && d.id == e.id && (d.MessageReceived? <==> e.Data?)
  {
  }

  /** While connections stay subscribed to, in one way or the other, the application is told
      of those of an id as they happened, in order; and of the messages between them, while
      `tcp_receive` is subscribed to as well. */
  lemma {:induction false} DeliveredInOrder(run: seq<State>, acts: seq<Action>, i: nat, id: Id, data: bool)
    requires IsRun(run, acts) && i < |run|
    requires forall k :: 0 <= k < i ==> (run[k].subs.accept || run[k].subs.connect) && (data ==> run[k].subs.receive)
    ensures ReportsAll(ToldAbout(run[i].delivered, id, data), About(run[i].dequeued, id, data))
    ensures data ==> About(run[i].dequeued, id, data) == Project(run[i].dequeued, id)
  {
    hide Apply, Enabled, ToldAbout, About, ReportsAll, Project;
    AboutAll(run[i].dequeued, id);
    if i == 0 {
      NothingTold(run[0], id, data);
    } else {
      DeliveredInOrder(run, acts, i - 1, id, data);
      ToldStep(run[i - 1], acts[i - 1], id, data);
      assert run[i - 1 + 1] == Apply(run[i - 1], acts[i - 1]);
    }
  }

  lemma NothingTold(s: State, id: Id, data: bool)
    requires Init(s)
    ensures ToldInOrder(s, id, data)
  {
  }

  /** While `tcp_receive` stays subscribed, the application gets a prefix of the bytes
      read from each connection. */
  lemma {:induction false} DeliveredIsPrefix(run: seq<State>, acts: seq<Action>, i: nat, id: Id)
    requires IsRun(run, acts) && i < |run| && forall k :: 0 <= k < i ==> run[k].subs.receive
    ensures AllDelivered(run[i], id)
    ensures id in run[i].readers ==> ReceivedBytes(run[i].delivered, id) <= run[i].readers[id].got
  {
    hide Apply, Enabled;
    if i > 0 {
      DeliveredIsPrefix(run, acts, i - 1, id);
      DeliveredStep(run[i - 1], acts[i - 1], id);
      assert run[i - 1 + 1] == Apply(run[i - 1], acts[i - 1]);
    }
    if id in run[i].readers {
      BytesConserved(run, acts, i, id);
    }
  }
}
