/** The echo server application on top of the host protocol: end-to-end guarantees
    about its client list and about the bytes each client is sent. */
module EchoServer {
  import opened TcpProtocol
  import opened TcpInvariant

  // ----- the application -----

  datatype LogEntry = Joined | Left | Echoed(bytes: nat, clients: nat)

  datatype Model = Model(clients: seq<Id>, log: seq<LogEntry>)

  const SUBS := Subs(false, false, true, false, true)

  function KeepOthers(clients: seq<Id>, id: Id): seq<Id> {
    if clients == [] then []
    else (if clients[0] != id then [clients[0]] else []) + KeepOthers(clients[1..], id)
  }

  function SendAll(clients: seq<Id>, bytes: Bytes): seq<Effect> {
    seq(|clients|, i requires 0 <= i < |clients| => TcpSend(clients[i], bytes))
  }

  function Update(m: Model, e: AppEvent): (Model, seq<Effect>)
    requires e != OtherInput
  {
    match e
    case ClientConnected(id) => (Model(m.clients + [id], m.log + [Joined]), [])
    case ClientDisconnected(id) => (Model(KeepOthers(m.clients, id), m.log + [Left]), [])
    case MessageReceived(_, bytes) =>
      (m.(log := m.log + [Echoed(|bytes|, |m.clients|)]), SendAll(m.clients, bytes))
  }

  // ----- the composed system -----

  datatype Echo = Echo(host: State, model: Model)

  predicate EchoInit(s: Echo) {
    Init(s.host) && s.host.mode == Server && s.host.subs == SUBS && s.host.main == Running([]) &&
      s.model == Model([], [])
  }

  predicate EchoEnabled(s: Echo, a: Action) {
    && Enabled(s.host, a)
    && (a.AppUpdate? ==>
          s.host.main.event != OtherInput && a.subs == SUBS && a.effects == Update(s.model, s.host.main.event).1)
  }

  function EchoApply(s: Echo, a: Action): Echo
    requires EchoEnabled(s, a)
  {
    Echo(Apply(s.host, a), if a.AppUpdate? then Update(s.model, s.host.main.event).0 else s.model)
  }

  // ----- reference definitions -----

  /** Ids in the order their Connected was sent. */
  function Announced(h: seq<Event>): seq<Id> {
    if h == [] then []
    else
      var e := h[|h| - 1];
      Announced(h[..|h| - 1]) + if e.Connected? then [e.id] else []
  }

  function RosterNext(r: seq<Id>, e: Event): seq<Id> {
    match e
    case Connected(id) => r + [id]
    case Disconnected(id) => KeepOthers(r, id)
    case Data(_, _) => r
  }

  /** Connections in order of arrival, minus those that have left. */
  function Roster(d: seq<Event>): seq<Id> {
    if d == [] then [] else RosterNext(Roster(d[..|d| - 1]), d[|d| - 1])
  }

  /** Everything any client said while id was connected. */
  function Heard(d: seq<Event>, id: Id): Bytes {
    if d == [] then []
    else
      var e, before := d[|d| - 1], d[..|d| - 1];
      Heard(before, id) + if e.Data? && id in Roster(before) then e.bytes else []
  }

  predicate Ascending(ids: seq<Id>) {
    forall i, j :: 0 <= i < j < |ids| ==> ids[i] < ids[j]
  }

  /** Bytes that the effects still to run owe to id. */
  function Pending(rest: seq<Effect>, id: Id): Bytes {
    if rest == [] then []
    else (if rest[0].TcpSend? && rest[0].id == id then rest[0].bytes else []) + Pending(rest[1..], id)
  }

  lemma RosterAppend(d: seq<Event>, e: Event)
    ensures Roster(d + [e]) == RosterNext(Roster(d), e)
  {
    assert (d + [e])[..|d|] == d;
  }

  lemma AnnouncedAppend(d: seq<Event>, e: Event)
    ensures Announced(d + [e]) == Announced(d) + if e.Connected? then [e.id] else []
  {
    assert (d + [e])[..|d|] == d;
  }

  lemma HeardAppend(d: seq<Event>, e: Event, id: Id)
    ensures Heard(d + [e], id) == Heard(d, id) + if e.Data? && id in Roster(d) then e.bytes else []
  {
    assert (d + [e])[..|d|] == d;
  }

  lemma {:induction false} KeepOthersExact(cs: seq<Id>, id: Id)
    ensures forall c: Id :: c in KeepOthers(cs, id) <==> c in cs && c != id
    ensures Ascending(cs) ==> Ascending(KeepOthers(cs, id))
  {
    if cs != [] {
      KeepOthersExact(cs[1..], id);
      var rest := KeepOthers(cs[1..], id);
      assert forall c: Id :: c in cs <==> c == cs[0] || c in cs[1..];
      if Ascending(cs) {
        assert Ascending(cs[1..]) by {
          forall i, j | 0 <= i < j < |cs[1..]| ensures cs[1..][i] < cs[1..][j] {
            assert cs[1..][i] == cs[i + 1] && cs[1..][j] == cs[j + 1];
          }
        }
        forall i | 0 <= i < |rest| ensures cs[0] < rest[i] {
          assert rest[i] in cs[1..];
        }
      }
    }
  }

  lemma AscendingPush(ids: seq<Id>, c: Id)
    requires Ascending(ids) && forall x :: x in ids ==> x < c
    ensures Ascending(ids + [c])
  {
    forall i, j | 0 <= i < j < |ids + [c]| ensures (ids + [c])[i] < (ids + [c])[j] {
      assert (ids + [c])[i] == ids[i] && ids[i] in ids;
    }
  }

  lemma {:induction false} RosterAscends(d: seq<Event>)
    requires Ascending(Announced(d))
    ensures Ascending(Roster(d)) && forall c: Id :: c in Roster(d) ==> c in Announced(d)
  {
    if d != [] {
      var e, before := d[|d| - 1], d[..|d| - 1];
      AnnouncedAppend(before, e);
      assert d == before + [e];
      assert Ascending(Announced(before)) by {
        assert forall i :: 0 <= i < |Announced(before)| ==> Announced(before)[i] == Announced(d)[i];
      }
      RosterAscends(before);
      if e.Connected? {
        forall c: Id | c in Announced(before) ensures c < e.id {
          var i :| 0 <= i < |Announced(before)| && Announced(before)[i] == c;
          assert Announced(d)[i] == c && Announced(d)[|Announced(before)|] == e.id;
        }
        AscendingPush(Roster(before), e.id);
      } else if e.Disconnected? {
        KeepOthersExact(Roster(before), e.id);
      }
    }
  }

  // ----- connection order -----

  /** Ids below this may have been announced. */
  function Unused(s: State): Id {
    if s.listener.Cloning? || s.listener.Announcing? then s.listener.id else s.nextId
  }

  predicate InOrder(s: State) {
    var ids := Announced(History(s));
    Ascending(ids) && forall c :: c in ids ==> c < Unused(s)
  }

  /** Connections are announced in the order their ids were taken, each at most once. */
  lemma InOrderStep(s: State, a: Action)
    requires IdsOk(s) && InOrder(s) && Enabled(s, a)
    ensures InOrder(Apply(s, a))
  {
    var ids := Announced(History(s));
    HistoryStep(s, a);
    UnusedGrows(s, a);
    if Sent(s, a) == [] {
      assert History(s) + [] == History(s);
    } else {
      var e := Sent(s, a)[0];
      AnnouncedAppend(History(s), e);
      assert Sent(s, a) == [e] && ids + [] == ids;
      assert e.Connected? ==> a == SendConnected && e.id == s.listener.id;
      if e.Connected? {
        AscendingPush(ids, e.id);
      }
    }
    hide Announced, History, Apply;
  }

  lemma UnusedGrows(s: State, a: Action)
    requires IdsOk(s) && Enabled(s, a)
    ensures Unused(s) <= Unused(Apply(s, a))
    ensures a == SendConnected ==> Unused(s) == s.listener.id < Unused(Apply(s, a))
  {
  }

  lemma {:induction false} AnnouncedSplit(h: seq<Event>, k: seq<Event>)
    ensures Announced(h + k) == Announced(h) + Announced(k)
  {
    if k == [] {
      assert h + k == h;
    } else {
      var n := |k| - 1;
      AnnouncedSplit(h, k[..n]);
      assert h + k == (h + k[..n]) + [k[n]];
      AnnouncedAppend(h + k[..n], k[n]);
    }
  }

  lemma RosterInOrder(s: State)
    requires InOrder(s)
    ensures Ascending(Roster(s.dequeued))
  {
    AnnouncedSplit(s.dequeued, s.queue);
    var ids := Announced(s.dequeued);
    forall i, j | 0 <= i < j < |ids| ensures ids[i] < ids[j] {
      assert Announced(History(s))[i] == ids[i] && Announced(History(s))[j] == ids[j];
    }
    RosterAscends(s.dequeued);
  }

  // ----- the composed invariant -----

  /** The events the application has fully processed. */
  function Processed(s: State): seq<Event> {
    if s.main.Updating? && s.dequeued != [] then s.dequeued[..|s.dequeued| - 1] else s.dequeued
  }

  /** Bytes promised to id for the message being handled. */
  function Owed(s: Echo, id: Id): Bytes {
    match s.host.main
    case Updating(e) => if e.MessageReceived? && id in s.model.clients then e.bytes else []
    case Running(rest) => Pending(rest, id)
    case _ => []
  }

  ghost predicate ModelOk(s: Echo) {
    && s.model.clients == Roster(Processed(s.host))
    && (forall id: Id :: id in Roster(s.host.dequeued) <==> TcpProtocol.Open(s.host, id))
  }

  ghost predicate MainOk(s: Echo) {
    match s.host.main
    case Updating(e) => s.host.dequeued != [] && Translate(SUBS, s.host.dequeued[|s.host.dequeued| - 1]) == [e]
    case Running(rest) => forall k :: 0 <= k < |rest| ==> rest[k].TcpSend? && rest[k].id in s.model.clients
    case Exited => false
    case _ => true
  }

  /** The socket's share of what it should have been sent. */
  ghost predicate WireOk(s: Echo, id: Id) {
    id in s.host.wire ==>
      if id in s.host.failed then s.host.wire[id] <= Heard(s.host.dequeued, id)
      else s.host.wire[id] + Owed(s, id) == Heard(s.host.dequeued, id)
  }

  ghost predicate EchoInv(s: Echo) {
    && Inv(s.host) && InOrder(s.host) && s.host.subs == SUBS
    && ModelOk(s) && MainOk(s) && forall id: Id :: WireOk(s, id)
  }

  lemma {:induction false} PendingSendAll(cs: seq<Id>, bytes: Bytes, id: Id)
    requires Ascending(cs)
    ensures Pending(SendAll(cs, bytes), id) == if id in cs then bytes else []
  {
    if cs != [] {
      assert SendAll(cs, bytes)[1..] == SendAll(cs[1..], bytes);
      assert Ascending(cs[1..]) by {
        forall i, j | 0 <= i < j < |cs[1..]| ensures cs[1..][i] < cs[1..][j] {
          assert cs[1..][i] == cs[i + 1] && cs[1..][j] == cs[j + 1];
        }
      }
      PendingSendAll(cs[1..], bytes, id);
      assert id in cs <==> id == cs[0] || id in cs[1..];
      if id in cs[1..] {
        var k :| 0 <= k < |cs[1..]| && cs[1..][k] == id;
        assert cs[0] < cs[k + 1];
      }
    }
  }

  /** Nothing was said while id was connected if it never was. */
  lemma {:induction false} UnheardOf(d: seq<Event>, id: Id)
    requires Connected(id) !in d
    ensures id !in Roster(d) && Heard(d, id) == []
  {
    if d != [] {
      var e, before := d[|d| - 1], d[..|d| - 1];
      UnheardOf(before, id);
      KeepOthersExact(Roster(before), e.id);
    }
  }

  lemma HostKeeps(s: Echo, a: Action)
    requires EchoInv(s) && EchoEnabled(s, a)
    ensures Inv(EchoApply(s, a).host) && InOrder(EchoApply(s, a).host) && EchoApply(s, a).host.subs == SUBS
  {
    StepInv(s.host, a);
    InOrderStep(s.host, a);
    hide Inv, InOrder;
  }

  /** Steps that leave the main loop's bookkeeping as it is. */
  predicate Background(a: Action) {
    !(a.DrainByte? || a.Receive? || a.ReceiveNothing? || a.TakeOther? || a.AppUpdate? || a.RunEffect?)
  }

  lemma BackgroundKeeps(s: Echo, a: Action)
    requires ModelOk(s) && MainOk(s) && EchoEnabled(s, a) && Background(a)
    ensures ModelOk(EchoApply(s, a)) && MainOk(EchoApply(s, a))
    ensures forall id: Id :: WireOk(s, id) ==> WireOk(EchoApply(s, a), id)
  {
    BackgroundChanges(s.host, a);
    hide Apply, Enabled;
    assert forall id: Id :: TcpProtocol.Open(Apply(s.host, a), id) == TcpProtocol.Open(s.host, id);
  }

  lemma BackgroundChanges(s: State, a: Action)
    requires Enabled(s, a) && Background(a)
    ensures var s' := Apply(s, a);
            s'.main == s.main && s'.dequeued == s.dequeued && s'.wire == s.wire && s'.failed == s.failed &&
              s'.writers == s.writers
  {
  }

  /** The roster and the set of open connections change together. */
  lemma RosterTracksOpen(r: seq<Id>, s: State, id: Id)
    requires s.queue != [] && (id in r <==> TcpProtocol.Open(s, id))
    requires var e := s.queue[0]; e.id == id ==>
               if e.Connected? then Connected(id) !in s.dequeued && Disconnected(id) !in s.dequeued
                 else TcpProtocol.Open(s, id)
    ensures id in RosterNext(r, s.queue[0]) <==> TcpProtocol.Open(Received(s), id)
  {
    KeepOthersExact(r, s.queue[0].id);
  }

  lemma ReceiveRoster(s: Echo)
    requires EchoInv(s) && s.host.main == Receiving && s.host.queue != []
    ensures var s' := Echo(Received(s.host), s.model); ModelOk(s') && MainOk(s')
  {
    hide InOrder, Roster, WireOk;
    var e, d, s' := s.host.queue[0], s.host.dequeued, Echo(Received(s.host), s.model);
    RosterAppend(d, e);
    assert (d + [e])[..|d|] == d && (d + [e])[|d|] == e;
    forall id: Id ensures id in Roster(s'.host.dequeued) <==> TcpProtocol.Open(s'.host, id) {
      assert Traced(s.host, e.id);
      if e.Connected? {
        HeadIsNew(s.host, e.id);
      } else {
        HeadIsKnown(s.host, e.id);
      }
      RosterTracksOpen(Roster(d), s.host, id);
    }
  }

  /** What is owed after taking e off the queue. */
  lemma ReceiveOwes(s: Echo, id: Id)
    requires s.host.queue != [] && s.host.subs == SUBS
    ensures var e := s.host.queue[0];
            Owed(Echo(Received(s.host), s.model), id) == if e.Data? && id in s.model.clients then e.bytes else []
  {
  }

  lemma ReceiveWireOnly(s: Echo, id: Id)
    requires s.host.queue != [] && s.host.subs == SUBS && WireOk(s, id) && s.host.main == Receiving
    requires s.model.clients == Roster(s.host.dequeued)
    requires s.host.queue[0] == Connected(id) ==> Heard(s.host.dequeued, id) == [] && id !in s.host.failed
    ensures WireOk(Echo(Received(s.host), s.model), id)
  {
    var e, d := s.host.queue[0], s.host.dequeued;
    var s' := Echo(Received(s.host), s.model);
    ReceiveOwes(s, id);
    HeardAppend(d, e, id);
    assert Owed(s, id) == [];
    hide Owed, Roster, Heard;
    assert s'.host.dequeued == d + [e] && s'.host.failed == s.host.failed && s'.host.wire == NextWire(s.host.wire, e);
    hide Received;
    if id in s.host.wire {
      assert s.host.wire[id] + [] == s.host.wire[id];
    }
    assert Heard(d, id) + [] == Heard(d, id);
  }

  lemma ReceiveWire(s: Echo, id: Id)
    requires EchoInv(s) && s.host.main == Receiving && s.host.queue != []
    ensures WireOk(Echo(Received(s.host), s.model), id)
  {
    hide WireOk, Roster, Heard, InOrder;
    assert Traced(s.host, id) && WireOk(s, id);
    if s.host.queue[0] == Connected(id) {
      HeadIsNew(s.host, id);
      UnheardOf(s.host.dequeued, id);
    }
    ReceiveWireOnly(s, id);
  }

  /** The message being handled, and the roster it is handled for. */
  lemma HandledEvent(s: Echo)
    requires ModelOk(s) && MainOk(s) && InOrder(s.host) && s.host.main.Updating?
    ensures var d := s.host.dequeued;
            && d != [] && s.model.clients == Roster(d[..|d| - 1])
            && Roster(d) == RosterNext(s.model.clients, d[|d| - 1])
            && Translate(SUBS, d[|d| - 1]) == [s.host.main.event]
            && (s.host.main.event.MessageReceived? ==> s.model.clients == Roster(d) && Ascending(s.model.clients))
  {
    RosterInOrder(s.host);
  }

  lemma UpdateKeeps(s: Echo, a: Action)
    requires ModelOk(s) && MainOk(s) && InOrder(s.host) && EchoEnabled(s, a) && a.AppUpdate?
    ensures ModelOk(EchoApply(s, a)) && MainOk(EchoApply(s, a))
  {
    HandledEvent(s);
    hide InOrder, Roster;
    assert forall id: Id :: TcpProtocol.Open(Apply(s.host, a), id) == TcpProtocol.Open(s.host, id);
  }

  lemma UpdateWire(s: Echo, a: Action, id: Id)
    requires ModelOk(s) && MainOk(s) && InOrder(s.host) && EchoEnabled(s, a) && a.AppUpdate? && WireOk(s, id)
    ensures WireOk(EchoApply(s, a), id)
  {
    HandledEvent(s);
    if s.host.main.event.MessageReceived? {
      PendingSendAll(s.model.clients, s.host.main.event.bytes, id);
    }
    hide InOrder, Roster, Heard, ModelOk, MainOk;
  }

  lemma EffectKeeps(s: Echo, a: Action)
    requires EchoInv(s) && EchoEnabled(s, a) && a.RunEffect?
    ensures ModelOk(EchoApply(s, a)) && MainOk(EchoApply(s, a))
    ensures forall id: Id :: WireOk(EchoApply(s, a), id)
  {
    forall id: Id ensures WireOk(EchoApply(s, a), id) {
      EffectWire(s, a, id);
    }
    hide Inv, InOrder, Roster, WireOk;
    assert forall id: Id :: TcpProtocol.Open(Apply(s.host, a), id) == TcpProtocol.Open(s.host, id);
  }

  lemma EffectWire(s: Echo, a: Action, id: Id)
    requires EchoInv(s) && EchoEnabled(s, a) && a.RunEffect?
    ensures WireOk(EchoApply(s, a), id)
  {
    assert WireOk(s, id);
    var rest := s.host.main.rest;
    assert rest != [] ==> rest[0].TcpSend?;
    assert rest != [] && rest[0].id == id ==> id in s.host.writers || id in s.host.failed;
    assert id in s.host.writers ==> id in s.host.wire && id !in s.host.failed;
    assert id in s.host.failed ==> id !in s.host.writers;
    EffectWireOnly(s, a, id);
  }

  /** The bytes of effect e that reach id's socket. */
  function Reaching(s: State, e: Effect, written: nat, ok: bool, id: Id): Bytes
    requires e.TcpSend? && written <= |e.bytes|
  {
    if e.id == id && id in s.writers then (if ok then e.bytes else e.bytes[..written]) else []
  }

  /** What one effect does to one socket. */
  lemma EffectOnSocket(s: State, written: nat, ok: bool, id: Id)
    requires Enabled(s, RunEffect(written, ok)) && s.main.rest != [] && s.main.rest[0].TcpSend?
    requires id in s.writers ==> id in s.wire
    ensures var s', e := EffectRun(s, written, ok), s.main.rest[0];
            && s'.main == Running(s.main.rest[1..])
            && (id in s'.wire <==> id in s.wire)
            && (id in s'.failed <==> id in s.failed || (e.id == id && id in s.writers && !ok))
            && (id in s.wire ==> s'.wire[id] == s.wire[id] + Reaching(s, e, written, ok, id))
  {
  }

  lemma EffectWireOnly(s: Echo, a: Action, id: Id)
    requires EchoEnabled(s, a) && a.RunEffect? && WireOk(s, id)
    requires s.host.main.rest != [] ==> s.host.main.rest[0].TcpSend?
    requires s.host.main.rest != [] && s.host.main.rest[0].id == id ==> id in s.host.writers || id in s.host.failed
    requires id in s.host.writers ==> id in s.host.wire && id !in s.host.failed
    requires id in s.host.failed ==> id !in s.host.writers
    ensures WireOk(EchoApply(s, a), id)
  {
    hide Roster, Heard;
    var rest := s.host.main.rest;
    if rest != [] {
      EffectOnSocket(s.host, a.written, a.ok, id);
      var e := rest[0];
      assert EchoApply(s, a) == Echo(EffectRun(s.host, a.written, a.ok), s.model);
      assert EffectRun(s.host, a.written, a.ok).dequeued == s.host.dequeued;
      hide EffectRun, EchoApply, EchoEnabled;
      if id in s.host.wire && id !in s.host.failed {
        var w, h, later := s.host.wire[id], Heard(s.host.dequeued, id), Pending(rest[1..], id);
        if e.id == id {
          assert Pending(rest, id) == e.bytes + later;
          assert w + (e.bytes + later) == w + e.bytes + later;
          assert a.written <= |e.bytes|;
          assert w + e.bytes[..a.written] + (e.bytes[a.written..] + later) == h;
        } else {
          assert Pending(rest, id) == [] + later == later;
          assert w + [] == w;
        }
      }
    }
  }

  lemma DrainKeeps(s: Echo)
    requires ModelOk(s) && MainOk(s) && EchoEnabled(s, DrainByte)
    ensures ModelOk(EchoApply(s, DrainByte)) && MainOk(EchoApply(s, DrainByte))
    ensures forall id: Id :: WireOk(s, id) ==> WireOk(EchoApply(s, DrainByte), id)
  {
    hide Roster, Heard;
    var s' := EchoApply(s, DrainByte);
    assert s'.host.dequeued == s.host.dequeued && s'.host.wire == s.host.wire && s'.host.failed == s.host.failed;
    assert forall id: Id :: TcpProtocol.Open(s'.host, id) == TcpProtocol.Open(s.host, id);
    forall id: Id | WireOk(s, id) ensures WireOk(s', id) {
      assert Owed(s', id) == Owed(s, id);
    }
  }

  lemma ReceiveKeeps(s: Echo)
    requires EchoInv(s) && EchoEnabled(s, Receive)
    ensures ModelOk(EchoApply(s, Receive)) && MainOk(EchoApply(s, Receive))
    ensures forall id: Id :: WireOk(EchoApply(s, Receive), id)
  {
    hide EchoInv, ModelOk, MainOk, WireOk, Received;
    assert EchoApply(s, Receive) == Echo(Received(s.host), s.model);
    ReceiveRoster(s);
    forall id: Id ensures WireOk(EchoApply(s, Receive), id) {
      ReceiveWire(s, id);
    }
  }

  lemma MainKeeps(s: Echo, a: Action)
    requires EchoInv(s) && EchoEnabled(s, a) && !Background(a)
    ensures ModelOk(EchoApply(s, a)) && MainOk(EchoApply(s, a))
    ensures forall id: Id :: WireOk(EchoApply(s, a), id)
  {
    NeverReceiveNothing(s.host);
    hide Inv, InOrder, ModelOk, MainOk, WireOk, EchoApply;
    match a
    case Receive => ReceiveKeeps(s);
    case AppUpdate(_, _) =>
      UpdateKeeps(s, a);
      forall id: Id ensures WireOk(EchoApply(s, a), id) {
        UpdateWire(s, a, id);
      }
    case RunEffect(_, _) => EffectKeeps(s, a);
    case DrainByte => DrainKeeps(s);
    case _ =>
  }

  lemma EchoStepInv(s: Echo, a: Action)
    requires EchoInv(s) && EchoEnabled(s, a)
    ensures EchoInv(EchoApply(s, a))
  {
    hide Inv, InOrder, ModelOk, MainOk, WireOk, EchoApply, EchoEnabled;
    HostKeeps(s, a);
    if Background(a) {
      BackgroundKeeps(s, a);
    } else {
      MainKeeps(s, a);
    }
  }

  // ----- end to end, over every run -----

  ghost predicate IsEchoRun(run: seq<Echo>, acts: seq<Action>) {
    && |run| == |acts| + 1 && EchoInit(run[0])
    && forall i :: 0 <= i < |acts| ==> EchoEnabled(run[i], acts[i]) && run[i + 1] == EchoApply(run[i], acts[i])
  }

  lemma EchoInitInv(s: Echo)
    requires EchoInit(s)
    ensures EchoInv(s)
  {
    InitInv(s.host);
    hide Inv;
    forall id: Id ensures id in Roster(s.host.dequeued) <==> TcpProtocol.Open(s.host, id) {
    }
  }

  lemma {:induction false} EchoRunInv(run: seq<Echo>, acts: seq<Action>, i: nat)
    requires IsEchoRun(run, acts) && i < |run|
    ensures EchoInv(run[i])
  {
    hide EchoInv, EchoInit, EchoEnabled, EchoApply;
    if i == 0 {
      EchoInitInv(run[0]);
    } else {
      EchoRunInv(run, acts, i - 1);
      EchoStepInv(run[i - 1], acts[i - 1]);
      assert run[i - 1 + 1] == EchoApply(run[i - 1], acts[i - 1]);
    }
  }

  /** The application always answers: whatever it is told, its update is a step of the system. */
  lemma AlwaysAnswers(run: seq<Echo>, acts: seq<Action>, i: nat)
    requires IsEchoRun(run, acts) && i < |run| && run[i].host.main.Updating?
    ensures var e := run[i].host.main.event;
            e != OtherInput && EchoEnabled(run[i], AppUpdate(SUBS, Update(run[i].model, e).1))
  {
    EchoRunInv(run, acts, i);
    hide Roster, InOrder, WireOk, Inv, ModelOk;
  }

  /** Whenever no event is being handled, the application's client list is the open
      connections, in connection order and without repetition.  It contains every id
      the host can still write to, and nothing else unless a send has failed. */
  lemma ClientListExact(run: seq<Echo>, acts: seq<Action>, i: nat)
    requires IsEchoRun(run, acts) && i < |run| && !run[i].host.main.Updating?
    ensures var s, cs := run[i].host, run[i].model.clients;
            && Ascending(cs)
            && (forall id: Id :: id in cs <==> Connected(id) in s.dequeued && Disconnected(id) !in s.dequeued)
            && (forall id: Id :: id in s.writers <==> id in cs && id !in s.failed)
            && (s.failed == {} ==> forall id: Id :: id in s.writers <==> id in cs)
  {
    EchoRunInv(run, acts, i);
    RosterInOrder(run[i].host);
    hide IsEchoRun, Roster, InOrder, Traced, WireOk, Ascending;
  }

  /** Handling a message asks for exactly one send of the same bytes per open connection, in
      connection order. */
  lemma OneSendPerClient(run: seq<Echo>, acts: seq<Action>, i: nat, id: Id)
    requires IsEchoRun(run, acts) && i < |acts| && acts[i].AppUpdate?
    requires run[i].host.main.event.MessageReceived?
    ensures var bytes, effects := run[i].host.main.event.bytes, acts[i].effects;
            && (forall k :: 0 <= k < |effects| ==> effects[k].TcpSend? && effects[k].bytes == bytes)
            && ((exists k :: 0 <= k < |effects| && effects[k].id == id) <==> TcpProtocol.Open(run[i].host, id))
            && (forall j, k :: 0 <= j < k < |effects| ==> effects[j].id < effects[k].id)
  {
    EchoRunInv(run, acts, i);
    assert EchoEnabled(run[i], acts[i]);
    HandledEvent(run[i]);
    var cs, effects := run[i].model.clients, acts[i].effects;
    assert effects == SendAll(cs, run[i].host.main.event.bytes);
    hide Roster, InOrder, Traced, WireOk, Inv, EchoEnabled;
    if id in cs {
      var k :| 0 <= k < |cs| && cs[k] == id;
      assert effects[k].id == id;
    }
  }

  /** One log entry per event, in order and of its kind; an echo is logged with the bytes
      that were said and the connections there were to hear them. */
  predicate Logged(log: seq<LogEntry>, d: seq<Event>) {
    && |log| == |d|
    && forall k :: 0 <= k < |d| ==>
         match log[k]
         case Joined => d[k].Connected?
         case Left => d[k].Disconnected?
         case Echoed(bytes, clients) => d[k].Data? && bytes == |d[k].bytes| && clients == |Roster(d[..k])|
  }

  lemma LogPush(log: seq<LogEntry>, d: seq<Event>, entry: LogEntry, e: Event)
    requires Logged(log, d)
    requires entry.Joined? ==> e.Connected?
    requires entry.Left? ==> e.Disconnected?
    requires entry.Echoed? ==> e.Data? && entry.bytes == |e.bytes| && entry.clients == |Roster(d)|
    ensures Logged(log + [entry], d + [e])
  {
    hide Roster;
    assert forall k :: 0 <= k <= |d| ==> (d + [e])[..k] == d[..k];
    assert d[..|d|] == d;
  }

  lemma LogStep(s: Echo, a: Action)
    requires EchoInv(s) && EchoEnabled(s, a) && Logged(s.model.log, Processed(s.host))
    ensures Logged(EchoApply(s, a).model.log, Processed(EchoApply(s, a).host))
  {
    if a.AppUpdate? {
      UpdateLogs(s, a);
    } else {
      NeverReceiveNothing(s.host);
      ProcessedStays(s, a);
      assert EchoApply(s, a).model == s.model;
    }
    hide Inv, InOrder, Logged, WireOk, ModelOk, MainOk, EchoApply, EchoEnabled, Processed;
  }

  lemma UpdateLogs(s: Echo, a: Action)
    requires ModelOk(s) && MainOk(s) && InOrder(s.host) && EchoEnabled(s, a) && a.AppUpdate?
    requires Logged(s.model.log, Processed(s.host))
    ensures Logged(EchoApply(s, a).model.log, Processed(EchoApply(s, a).host))
  {
    var d, m, e := s.host.dequeued, s.model, s.host.main.event;
    HandledEvent(s);
    ToldExactly(SUBS, d[|d| - 1]);
    hide Inv, InOrder, Roster, Logged, ModelOk, MainOk, Translate;
    assert d == Processed(s.host) + [d[|d| - 1]];
    LogPush(m.log, Processed(s.host), EchoApply(s, a).model.log[|m.log|], d[|d| - 1]);
  }

  lemma ProcessedStays(s: Echo, a: Action)
    requires MainOk(s) && s.host.subs == SUBS && EchoEnabled(s, a) && !a.AppUpdate? && a != ReceiveNothing
    ensures Processed(EchoApply(s, a).host) == Processed(s.host)
  {
    if a == Receive {
      ToldExactly(SUBS, s.host.queue[0]);
      hide Translate;
      assert Received(s.host).dequeued[..|s.host.dequeued|] == s.host.dequeued;
    } else if Background(a) {
      BackgroundChanges(s.host, a);
      hide Apply, Enabled;
    } else {
      hide Translate, Received;
    }
  }

  /** The activity log of every state between events tells what happened, event by event. */
  lemma {:induction false} LogExact(run: seq<Echo>, acts: seq<Action>, i: nat)
    requires IsEchoRun(run, acts) && i < |run|
    ensures Logged(run[i].model.log, Processed(run[i].host))
    ensures !run[i].host.main.Updating? ==> Logged(run[i].model.log, run[i].host.dequeued)
  {
    hide EchoInv, EchoEnabled, EchoApply, Logged;
    if i == 0 {
      LogStarts(run[0]);
    } else {
      LogExact(run, acts, i - 1);
      EchoRunInv(run, acts, i - 1);
      LogStep(run[i - 1], acts[i - 1]);
      assert run[i - 1 + 1] == EchoApply(run[i - 1], acts[i - 1]);
    }
  }

  lemma LogStarts(s: Echo)
    requires EchoInit(s)
    ensures Logged(s.model.log, s.host.dequeued) && !s.host.main.Updating?
    ensures Logged(s.model.log, Processed(s.host))
  {
  }

  /** The bytes on the wire.  At a loop head, a client whose sends have all succeeded has
      been sent everything that was said, by anyone, while it was connected: no byte
      missing, repeated or out of order.  One whose send failed got a prefix of it. */
  lemma EchoesEverything(run: seq<Echo>, acts: seq<Action>, i: nat, id: Id)
    requires IsEchoRun(run, acts) && i < |run| && id in run[i].host.wire
    requires run[i].host.main == Polling || run[i].host.main == Receiving
    ensures var s := run[i].host;
            if id in s.failed then s.wire[id] <= Heard(s.dequeued, id) else s.wire[id] == Heard(s.dequeued, id)
  {
    EchoRunInv(run, acts, i);
    hide IsEchoRun, Roster, InOrder, Traced, Inv, Heard;
    assert WireOk(run[i], id);
    assert run[i].host.wire[id] + [] == run[i].host.wire[id];
  }
}
