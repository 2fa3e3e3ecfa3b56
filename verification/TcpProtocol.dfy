/** The TCP side of the host as a transition system: a listener thread, one reader
    thread per connection, an event queue, a notification pipe, and the main loop.
    An action is one atomic step of one thread, so a run is any interleaving.
    A send on the queue and the write to the pipe that announces it are separate. */
module TcpProtocol {
  type Id = nat
  newtype Byte = b: int | 0 <= b < 256
  type Bytes = seq<Byte>

  const BUFFER_SIZE: nat := 4096

  datatype Event =
    | Connected(id: Id)
    | Disconnected(id: Id)
    | Data(id: Id, bytes: Bytes)

  datatype Mode = Server | Client

  /** The thread that announces connections (in client mode, the start-up code). */
  datatype Listener =
    | Accepting
    | Cloning(id: Id)       // id taken, `try_clone` pending
    | Announcing(id: Id)    // about to send Connected
    | Notifying(id: Id)     // sent, pipe not yet written
    | Spawning(id: Id)      // about to start the reader

  datatype ReaderPc =
    | Reading
    | Holding(chunk: Bytes) // read, not yet sent
    | NotifyingData
    | AtEnd                 // EOF or error, not yet sent
    | NotifyingEnd
    | Stopped

  /** `got` is everything this reader has read from its socket. */
  datatype Reader = Reader(pc: ReaderPc, got: Bytes)

  /** Which subscriptions are `Ok`. */
  datatype Subs = Subs(stdin: bool, timer: bool, accept: bool, connect: bool, receive: bool)

  datatype AppEvent =
    | ClientConnected(id: Id)
    | ClientDisconnected(id: Id)
    | MessageReceived(id: Id, bytes: Bytes)
    | OtherInput

  datatype Effect =
    | Exit(code: nat)
    | Print
    | WriteToFile
    | TcpSend(id: Id, bytes: Bytes)

  datatype MainPc =
    | Polling                     // in wait_for_next_event
    | Receiving                   // pipe byte drained, about to try_recv
    | Updating(event: AppEvent)   // the application is computing
    | Running(rest: seq<Effect>)  // in handle_effects
    | Exited

  /** `dequeued`, `delivered`, `failed` and `wire` record the past: events taken off the
      queue, events handed to the application, ids whose write failed, bytes written. */
  datatype State = State(
    mode: Mode, nextId: Id, listener: Listener, readers: map<Id, Reader>,
    queue: seq<Event>, pipe: nat,
    main: MainPc, subs: Subs, writers: set<Id>,
    dequeued: seq<Event>, delivered: seq<AppEvent>, failed: set<Id>, wire: map<Id, Bytes>)

  datatype Action =
    | Accept
    | CloneFails
    | CloneSucceeds
    | SendConnected
    | NotifyConnected
    | Spawn
    | ReadChunk(id: Id, chunk: Bytes)
    | SendData(id: Id)
    | NotifyData(id: Id)
    | ReadEnd(id: Id)
    | SendEnd(id: Id)
    | NotifyEnd(id: Id)
    | DrainByte
    | Receive
    | ReceiveNothing
    | TakeOther
    | AppUpdate(subs: Subs, effects: seq<Effect>)
    | RunEffect(written: nat, ok: bool)

  predicate Init(s: State) {
    && s.nextId == 0 && s.listener == Accepting && s.readers == map[]
    && s.queue == [] && s.pipe == 0 && s.main.Running? && s.writers == {}
    && s.dequeued == [] && s.delivered == [] && s.failed == {} && s.wire == map[]
  }

  // ----- pure selectors -----

  function TcpConnectedEvent(subs: Subs, id: Id): seq<AppEvent> {
    if subs.accept then [ClientConnected(id)]
    else if subs.connect then [ClientConnected(id)]
    else []
  }

  function TcpDisconnectedEvent(subs: Subs, id: Id): seq<AppEvent> {
    if subs.accept then [ClientDisconnected(id)]
    else if subs.connect then [ClientDisconnected(id)]
    else []
  }

  function TcpReceiveEvent(subs: Subs, id: Id, bytes: Bytes): seq<AppEvent> {
    if subs.receive then [MessageReceived(id, bytes)] else []
  }

  /** What the application is told about an event: one event, or nothing. */
  function Translate(subs: Subs, e: Event): seq<AppEvent> {
    match e
    case Connected(id) => TcpConnectedEvent(subs, id)
    case Disconnected(id) => TcpDisconnectedEvent(subs, id)
    case Data(id, bytes) => TcpReceiveEvent(subs, id, bytes)
  }

  /** The application is told of this very event: its kind, its id, its bytes. */
  predicate Reports(told: AppEvent, e: Event) {
    match told
    case ClientConnected(id) => e.Connected? && e.id == id
    case ClientDisconnected(id) => e.Disconnected? && e.id == id
    case MessageReceived(id, bytes) => e.Data? && e.id == id && e.bytes == bytes
    case OtherInput => false
  }

  /** There is a subscription for such events. */
  predicate Wanted(subs: Subs, e: Event) {
    if e.Data? then subs.receive else subs.accept || subs.connect
  }

  /** Told exactly what it asked for, and what happened. */
  lemma ToldExactly(subs: Subs, e: Event)
    ensures Wanted(subs, e) <==> Translate(subs, e) != []
    ensures Translate(subs, e) != [] ==> |Translate(subs, e)| == 1 && Reports(Translate(subs, e)[0], e)
  {
  }

  /** The writable handles after an event is taken off the queue. */
  function NextWriters(writers: set<Id>, e: Event): set<Id> {
    match e
    case Connected(id) => writers + {id}
    case Disconnected(id) => writers - {id}
    case Data(_, _) => writers
  }

  function NextWire(wire: map<Id, Bytes>, e: Event): map<Id, Bytes> {
    if e.Connected? then wire[e.id := []] else wire
  }

  // ----- the steps -----

  predicate ReaderAt(s: State, id: Id) {
    id in s.readers
  }

  predicate Enabled(s: State, a: Action) {
    match a
    case Accept => s.listener == Accepting && (s.mode == Server || s.nextId == 0)
    case CloneFails => s.listener.Cloning?
    case CloneSucceeds => s.listener.Cloning?
    case SendConnected => s.listener.Announcing?
    case NotifyConnected => s.listener.Notifying?
    case Spawn => s.listener.Spawning?
    case ReadChunk(id, chunk) => ReaderAt(s, id) && s.readers[id].pc == Reading && 0 < |chunk| <= BUFFER_SIZE
    case SendData(id) => ReaderAt(s, id) && s.readers[id].pc.Holding?
    case NotifyData(id) => ReaderAt(s, id) && s.readers[id].pc == NotifyingData
    case ReadEnd(id) => ReaderAt(s, id) && s.readers[id].pc == Reading
    case SendEnd(id) => ReaderAt(s, id) && s.readers[id].pc == AtEnd
    case NotifyEnd(id) => ReaderAt(s, id) && s.readers[id].pc == NotifyingEnd
    case DrainByte => s.main == Polling && s.pipe > 0
    case Receive => s.main == Receiving && s.queue != []
    case ReceiveNothing => s.main == Receiving && s.queue == []
    case TakeOther => s.main == Polling && (s.subs.stdin || s.subs.timer)
    case AppUpdate(_, _) => s.main.Updating?
    case RunEffect(written, ok) =>
      && s.main.Running?
      && (s.main.rest != [] && s.main.rest[0].TcpSend? ==> written <= |s.main.rest[0].bytes|)
  }

  function SetReader(s: State, id: Id, pc: ReaderPc): map<Id, Reader>
    requires ReaderAt(s, id)
  {
    s.readers[id := s.readers[id].(pc := pc)]
  }

  /** Taking the queue's head: the handle table changes whatever is subscribed. */
  function Received(s: State): State
    requires s.queue != []
  {
    var e := s.queue[0];
    var told := Translate(s.subs, e);
    s.(queue := s.queue[1..],
       dequeued := s.dequeued + [e],
       delivered := s.delivered + told,
       writers := NextWriters(s.writers, e),
       wire := NextWire(s.wire, e),
       main := if told == [] then Polling else Updating(told[0]))
  }

  /** One effect.  `written` bytes reach the socket; if the write fails the handle goes. */
  function EffectRun(s: State, written: nat, ok: bool): State
    requires s.main.Running?
    requires s.main.rest != [] && s.main.rest[0].TcpSend? ==> written <= |s.main.rest[0].bytes|
  {
    var rest := s.main.rest;
    if rest == [] then s.(main := Polling)
    else match rest[0]
      case Exit(_) => s.(main := Exited)
      case Print => s.(main := Running(rest[1..]))
      case WriteToFile => s.(main := Running(rest[1..]))
      case TcpSend(id, bytes) =>
        if id !in s.writers then s.(main := Running(rest[1..]))
        else
          var before := if id in s.wire then s.wire[id] else [];
          if ok then
            s.(main := Running(rest[1..]), wire := s.wire[id := before + bytes])
          else
            s.(main := Running(rest[1..]), wire := s.wire[id := before + bytes[..written]],
               writers := s.writers - {id}, failed := s.failed + {id})
  }

  function Apply(s: State, a: Action): State
    requires Enabled(s, a)
  {
    match a
    case Accept => s.(listener := Cloning(s.nextId), nextId := s.nextId + 1)
    case CloneFails => s.(listener := Accepting)
    case CloneSucceeds => s.(listener := Announcing(s.listener.id))
    case SendConnected => s.(queue := s.queue + [Connected(s.listener.id)], listener := Notifying(s.listener.id))
    case NotifyConnected => s.(pipe := s.pipe + 1, listener := Spawning(s.listener.id))
    case Spawn => s.(readers := s.readers[s.listener.id := Reader(Reading, [])], listener := Accepting)
    case ReadChunk(id, chunk) => s.(readers := s.readers[id := Reader(Holding(chunk), s.readers[id].got + chunk)])
    case SendData(id) => s.(queue := s.queue + [Data(id, s.readers[id].pc.chunk)],
                            readers := SetReader(s, id, NotifyingData))
    case NotifyData(id) => s.(pipe := s.pipe + 1, readers := SetReader(s, id, Reading))
    case ReadEnd(id) => s.(readers := SetReader(s, id, AtEnd))
    case SendEnd(id) => s.(queue := s.queue + [Disconnected(id)], readers := SetReader(s, id, NotifyingEnd))
    case NotifyEnd(id) => s.(pipe := s.pipe + 1, readers := SetReader(s, id, Stopped))
    case DrainByte => s.(pipe := s.pipe - 1, main := Receiving)
    case Receive => Received(s)
    case ReceiveNothing => s.(main := Polling)
    case TakeOther => s.(main := Updating(OtherInput), delivered := s.delivered + [OtherInput])
    case AppUpdate(subs, effects) => s.(subs := subs, main := Running(effects))
    case RunEffect(written, ok) => EffectRun(s, written, ok)
  }

  // ----- histories -----

  /** Every event ever sent, in queue order. */
  function History(s: State): seq<Event> {
    s.dequeued + s.queue
  }

  /** The events of one connection. */
  function Project(h: seq<Event>, id: Id): seq<Event> {
    if h == [] then []
    else
      var e := h[|h| - 1];
      Project(h[..|h| - 1], id) + if e.id == id then [e] else []
  }

  /** The bytes carried by a sequence of events. */
  function Payload(h: seq<Event>): Bytes {
    if h == [] then []
    else
      var e := h[|h| - 1];
      Payload(h[..|h| - 1]) + if e.Data? then e.bytes else []
  }

  /** Connected, then Data, and if `ended` a final Disconnected. */
  predicate Lifecycle(p: seq<Event>, id: Id, ended: bool) {
    var n := |p| - if ended then 1 else 0;
    && n >= 1 && p[0] == Connected(id)
    && (forall i :: 1 <= i < n ==> p[i].Data? && p[i].id == id)
    && (ended ==> p[n] == Disconnected(id))
  }

  predicate LifecyclePrefix(p: seq<Event>, id: Id) {
    p == [] || Lifecycle(p, id, false) || Lifecycle(p, id, true)
  }

  // ----- the invariant -----

  function NotifyingReader(r: Reader): nat {
    if r.pc == NotifyingData || r.pc == NotifyingEnd then 1 else 0
  }

  /** Readers with id below n that have sent but not yet written to the pipe. */
  function InFlight(readers: map<Id, Reader>, n: Id): nat {
    if n == 0 then 0
    else InFlight(readers, n - 1) + if n - 1 in readers then NotifyingReader(readers[n - 1]) else 0
  }

  function Unannounced(s: State): nat {
    InFlight(s.readers, s.nextId) + if s.listener.Notifying? then 1 else 0
  }

  function Drained(s: State): nat {
    if s.main == Receiving then 1 else 0
  }

  predicate Ended(r: Reader) {
    r.pc == NotifyingEnd || r.pc == Stopped
  }

  function InHand(r: Reader): Bytes {
    if r.pc.Holding? then r.pc.chunk else []
  }

  predicate ListenerHas(l: Listener, id: Id) {
    l != Accepting && l.id == id
  }

  predicate JustAnnounced(s: State, id: Id) {
    ListenerHas(s.listener, id) && (s.listener.Notifying? || s.listener.Spawning?)
  }

  predicate ReaderTraced(r: Reader, id: Id, p: seq<Event>) {
    Lifecycle(p, id, Ended(r)) && Payload(p) + InHand(r) == r.got
  }

  /** What may have been sent about one connection, given where its threads are. */
  predicate TracedAs(s: State, id: Id, p: seq<Event>) {
    if id in s.readers then ReaderTraced(s.readers[id], id, p)
    else if JustAnnounced(s, id) then p == [Connected(id)]
    else p == []
  }

  predicate Traced(s: State, id: Id) {
    TracedAs(s, id, Project(History(s), id))
  }

  /** No wakeup is lost: each queued event is matched by a byte in the pipe, a byte just
      drained, or a producer about to write one. */
  predicate Balanced(s: State) {
    s.pipe + Unannounced(s) + Drained(s) == |s.queue|
  }

  predicate IdsOk(s: State) {
    && (forall id :: id in s.readers ==> id < s.nextId && !ListenerHas(s.listener, id))
    && (s.listener != Accepting ==> s.listener.id == s.nextId - 1)
    && (s.mode == Client ==> s.nextId <= 1)
  }

  predicate Open(s: State, id: Id) {
    Connected(id) in s.dequeued && Disconnected(id) !in s.dequeued
  }

  ghost predicate WritersOk(s: State) {
    && (forall id: Id :: id in s.writers <==> Open(s, id) && id !in s.failed)
    && (forall id: Id :: id in s.failed ==> Connected(id) in s.dequeued)
    && (forall id: Id :: id in s.wire <==> Connected(id) in s.dequeued)
  }

  ghost predicate Inv(s: State) {
    Balanced(s) && IdsOk(s) && (forall id: Id :: Traced(s, id)) && WritersOk(s)
  }

  // ----- facts about histories -----

  lemma ProjectAppend(h: seq<Event>, e: Event, id: Id)
    ensures Project(h + [e], id) == Project(h, id) + if e.id == id then [e] else []
  {
    assert (h + [e])[..|h|] == h;
  }

  lemma PayloadAppend(h: seq<Event>, e: Event)
    ensures Payload(h + [e]) == Payload(h) + if e.Data? then e.bytes else []
  {
    assert (h + [e])[..|h|] == h;
  }

  lemma {:induction false} ProjectSplit(h: seq<Event>, k: seq<Event>, id: Id)
    ensures Project(h + k, id) == Project(h, id) + Project(k, id)
  {
    if k == [] {
      assert h + k == h;
    } else {
      var n := |k| - 1;
      ProjectSplit(h, k[..n], id);
      assert h + k == (h + k[..n]) + [k[n]] && k == k[..n] + [k[n]];
      ProjectAppend(h + k[..n], k[n], id);
      ProjectAppend(k[..n], k[n], id);
      hide Project;
    }
  }

  lemma {:induction false} ProjectMember(h: seq<Event>, e: Event)
    ensures e in h <==> e in Project(h, e.id)
  {
    if h != [] {
      ProjectMember(h[..|h| - 1], e);
      assert h == h[..|h| - 1] + [h[|h| - 1]];
    }
  }

  lemma LifecycleOfPrefix(p: seq<Event>, q: seq<Event>, id: Id)
    requires LifecyclePrefix(p, id) && q <= p
    ensures LifecyclePrefix(q, id)
  {
  }

  lemma TracedIsPrefix(s: State, id: Id)
    requires Traced(s, id)
    ensures LifecyclePrefix(Project(History(s), id), id)
  {
  }
}
