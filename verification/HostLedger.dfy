/** The host's main loop on the reference-counted heap.  Compiled Roc code is a parameter that
    meets its ownership contract: a call consumes the references passed to it, and the host
    owns the references in the result.  So are the environment's clock, `poll`, stdin and
    network.  The ledger says which references the host received, gave away and kept. */
module HostLedger {
  import opened RocGraph
  import opened RocHeapSteps
  import opened RocHeaps
  import opened HostEffects
  import HostLoop
  import TcpProtocol

  // ----- what passes between the host and Roc -----

  datatype Timer = Timer(fireAt: nat, onFire: Ptr)

  datatype Peer = Peer(address: Value, port: nat, onConnected: Ptr, onDisconnected: Ptr)

  /** A subscriptions record; None is `Err`. */
  datatype Subs = Subs(timer: Option<Timer>, stdin: Option<Ptr>, accept: Option<Peer>, connect: Option<Peer>,
                       receive: Option<Ptr>)

  /** What `roc_init` and `roc_update` return; `es` is what the list `effects` shows. */
  datatype Reply = Reply(model: Ptr, subs: Subs, effects: Value, es: seq<HostEffects.Effect>)

  ghost function PeerRefs(p: Option<Peer>): multiset<Addr> {
    match p
    case None => multiset{}
    case Some(q) => Refs(q.address) + RefOf(q.onConnected) + RefOf(q.onDisconnected)
  }

  ghost function TimerRefs(p: Option<Timer>): multiset<Addr> {
    match p
    case None => multiset{}
    case Some(t) => RefOf(t.onFire)
  }

  ghost function PtrRefs(p: Option<Ptr>): multiset<Addr> {
    match p
    case None => multiset{}
    case Some(q) => RefOf(q)
  }

  ghost function SubsRefs(s: Subs): multiset<Addr> {
    TimerRefs(s.timer) + PtrRefs(s.stdin) + PeerRefs(s.accept) + PeerRefs(s.connect) + PtrRefs(s.receive)
  }

  ghost function ReplyRefs(r: Reply): multiset<Addr> {
    RefOf(r.model) + SubsRefs(r.subs) + Refs(r.effects)
  }

  /** Which subscriptions are `Ok`. */
  function Flags(s: Subs): TcpProtocol.Subs {
    TcpProtocol.Subs(s.stdin.Some?, s.timer.Some?, s.accept.Some?, s.connect.Some?, s.receive.Some?)
  }

  function FireAt(s: Subs): nat {
    if s.timer.Some? then s.timer.value.fireAt else 0
  }

  function Unwrap(p: Option<Ptr>): Ptr {
    if p.Some? then p.value else Null
  }

  /** The closure, or the timer's boxed event, that an outcome takes out of the record. */
  function Taken(s: Subs, out: HostLoop.Outcome): Ptr {
    match out
    case TimerEvent => if s.timer.Some? then s.timer.value.onFire else Null
    case InputEvent(_) => Unwrap(s.stdin)
    case TcpEvent(ClientConnected(_)) =>
      if s.accept.Some? then s.accept.value.onConnected
      else if s.connect.Some? then s.connect.value.onConnected
      else Null
    case TcpEvent(ClientDisconnected(_)) =>
      if s.accept.Some? then s.accept.value.onDisconnected
      else if s.connect.Some? then s.connect.value.onDisconnected
      else Null
    case TcpEvent(MessageReceived(_, _)) => Unwrap(s.receive)
    case _ => Null
  }

  /** The bytes that go to Roc with an outcome. */
  function InputOf(out: HostLoop.Outcome): TcpProtocol.Bytes {
    match out
    case InputEvent(bytes) => bytes
    case TcpEvent(MessageReceived(_, bytes)) => bytes
    case _ => []
  }

  predicate IsEvent(out: HostLoop.Outcome) {
    out.TimerEvent? || out.InputEvent? || out.TcpEvent?
  }

  function Plains(bytes: TcpProtocol.Bytes): seq<Value> {
    seq(|bytes|, i requires 0 <= i < |bytes| => Plain(bytes[i] as nat))
  }

  /** `from_slice`: no allocation for no bytes. */
  function WithBuffer(h: Heap, bytes: TcpProtocol.Bytes): (Heap, Ptr) {
    if bytes == [] then (h, Null) else (h + [Live(ListCell(false), 1, Plains(bytes))], At(|h|))
  }

  // ----- compiled Roc code -----

  datatype Roc = Roc(
    init: Heap -> (Heap, Reply),
    view: (Heap, Ptr) -> (Heap, Value),
    makeEvent: (Heap, HostLoop.Outcome, Ptr, Ptr) -> (Heap, Ptr),
    update: (Heap, Ptr, Ptr) -> (Heap, Reply))

  ghost predicate InOrder(h: Heap, zombies: set<Addr>, roots: multiset<Addr>, rank: Addr -> nat) {
    HeapOk(h) && Accounted(h, zombies, roots) && Ranked(h, rank)
  }

  /** The ownership contract, whoever else owns what: the call consumes `taken` and hands
      over `given`. */
  ghost predicate Passes(h: Heap, taken: multiset<Addr>, h': Heap, given: multiset<Addr>) {
    forall zombies, roots, rank :: InOrder(h, zombies, roots + taken, rank) ==>
      Grown(h, h') && exists rank' :: InOrder(h', zombies, roots + given, rank')
  }

  /** A reply's effects: a list of well-formed effects that the host alone owns, unless it
      sends static data only. */
  ghost predicate EffectsOk(h: Heap, r: Reply) {
    && r.effects.List? && r.effects.deep && ShowsEffects(h, r.effects, r.es) && SendsFit(h, r.es)
    && (Drainable(h, r.effects) || SendsStatic(h, r.es))
  }

  ghost predicate Replies(h: Heap, taken: multiset<Addr>, h': Heap, r: Reply) {
    && Passes(h, taken, h', ReplyRefs(r))
    && forall zombies, roots, rank :: InOrder(h, zombies, roots + taken, rank) ==> EffectsOk(h', r)
  }

  ghost predicate Lawful(roc: Roc) {
    && (forall h: Heap :: Replies(h, multiset{}, roc.init(h).0, roc.init(h).1))
    && (forall h: Heap, m: Ptr :: Passes(h, RefOf(m), roc.view(h, m).0, Refs(roc.view(h, m).1)))
    && (forall h: Heap, out: HostLoop.Outcome, c: Ptr, b: Ptr | PtrFits(h, b, ListCell(false)) ::
          Passes(h, RefOf(c) + RefOf(b), roc.makeEvent(h, out, c, b).0, RefOf(roc.makeEvent(h, out, c, b).1)))
    && (forall h: Heap, m: Ptr, e: Ptr :: Replies(h, RefOf(m) + RefOf(e), roc.update(h, m, e).0, roc.update(h, m, e).1))
  }

  // ----- the environment -----

  /** For each turn: the script of the wait, given what is subscribed and waiting.  And which
      writes succeed: those of the first effects at 0, those of turn n at n + 1. */
  datatype Env = Env(
    script: (nat, TcpProtocol.Subs, nat, seq<TcpProtocol.Event>, nat) -> seq<HostLoop.Turn>,
    ok: (nat, nat) -> bool)

  function Oks(env: Env, n: nat, count: nat): seq<bool> {
    seq(count, i requires 0 <= i < count => env.ok(n, i))
  }

  ghost predicate Honest(env: Env, hasTcp: bool) {
    forall n: nat, subs: TcpProtocol.Subs, fireAt: nat, queue: seq<TcpProtocol.Event>, pipe: nat | pipe <= |queue| ::
      && HostLoop.Covered(|queue|, pipe, env.script(n, subs, fireAt, queue, pipe))
      && HostLoop.AllHonest(subs, hasTcp, fireAt, pipe, env.script(n, subs, fireAt, queue, pipe))
  }

  // ----- the record of a run -----

  /** The host's side of the network: events and pipe bytes waiting, handles, and every write
      attempted so far. */
  datatype Net = Net(queue: seq<TcpProtocol.Event>, pipe: nat, writers: set<Id>, written: seq<(Id, seq<Value>)>)

  /** One trip round the loop, as it happened: the heap after each call, what was passed, and
      the network before the wait, after it and after the effects. */
  datatype Turn = Turn(start: Heap, model: Ptr, subs: Subs, shown: Heap, rows: Value,
                       net: Net, out: HostLoop.Outcome, polls: nat, taken: seq<TcpProtocol.Event>, woken: Net,
                       buffer: Ptr, ready: Heap, event: Ptr, updated: Heap, reply: Reply, end: Heap, left: Net)

  datatype Status = Running | Exited(code: nat) | Waiting

  /** `incref_box(model, 1)` */
  ghost function Retained(h: Heap, p: Ptr): Heap {
    if p.At? && Holds(h, p.addr) then Bumped(h, p.addr, 1) else h
  }

  ghost function AfterEffects(h: Heap, es: seq<HostEffects.Effect>): Heap {
    if AfterSends(h, es).Some? then AfterSends(h, es).value else h
  }

  /** Every heap and value of the turn is what the host, or the Roc code it called, made of
      the one before. */
  ghost predicate Follows(roc: Roc, t: Turn) {
    && (t.shown, t.rows) == roc.view(Retained(t.start, t.model), t.model)
    && if !IsEvent(t.out) then t.end == t.shown
       else
         && t.buffer == WithBuffer(t.shown, InputOf(t.out)).1
         && (if t.out.TimerEvent? then t.event == Taken(t.subs, t.out) && t.ready == t.shown
             else (t.ready, t.event) == roc.makeEvent(WithBuffer(t.shown, InputOf(t.out)).0, t.out,
                                                      Taken(t.subs, t.out), t.buffer))
         && (t.updated, t.reply) == roc.update(t.ready, t.model, t.event)
         && t.end == AfterEffects(t.updated, t.reply.es)
  }

  /** What a wait does to the network.  The outcome is the selector's; the first events of
      the queue are taken, one per byte; nothing is lost, and handles follow the events. */
  ghost predicate Waits(flags: TcpProtocol.Subs, hasTcp: bool, fireAt: nat, script: seq<HostLoop.Turn>, net: Net,
                        out: HostLoop.Outcome, polls: nat, taken: seq<TcpProtocol.Event>, woken: Net)
  {
    && out == Picked(flags, hasTcp, fireAt, net.queue, net.pipe, script)
    && polls <= |script| && |taken| == HostLoop.Drains(script, polls)
    && taken + woken.queue == net.queue + HostLoop.Sent(script, polls)
    && woken.pipe + |taken| == net.pipe + HostLoop.Announced(script, polls)
    && woken.writers == HostLoop.WritersAfter(net.writers, taken) && woken.written == net.written
    && HostLoop.Explained(flags, hasTcp, fireAt, script, out, polls, taken, woken.pipe)
    && (forall k: nat :: k < polls && (k < polls - 1 || out == HostLoop.StillWaiting) ==>
          HostLoop.Idle(flags, fireAt, script[k]))
  }

  /** What effects do to it: the writes are those the effects ask for of open handles, and a
      handle whose write fails goes. */
  function AfterWrites(net: Net, h: Heap, es: seq<HostEffects.Effect>, ok: seq<bool>): Net
    requires |ok| == |es|
  {
    Net(net.queue, net.pipe, WritersLeft(es, ok, net.writers), net.written + Writes(h, es, ok, net.writers))
  }

  ghost predicate Networks(env: Env, hasTcp: bool, n: nat, t: Turn) {
    && WaitedAs(env, hasTcp, n, t.subs, t.net, t.out, t.polls, t.taken, t.woken)
    && t.left ==
         if IsEvent(t.out) then AfterWrites(t.woken, t.updated, t.reply.es, Oks(env, n + 1, |t.reply.es|))
         else t.woken
  }

  ghost predicate WaitedAs(env: Env, hasTcp: bool, n: nat, subs: Subs, net: Net, out: HostLoop.Outcome, polls: nat,
                           taken: seq<TcpProtocol.Event>, woken: Net)
  {
    var script := env.script(n, Flags(subs), FireAt(subs), net.queue, net.pipe);
    Waits(Flags(subs), hasTcp, FireAt(subs), script, net, out, polls, taken, woken)
  }

  // ----- what goes to Roc, by the record's own fields -----

  /** The bytes in a fresh list of bytes, whose only owner is the caller; no bytes, no list. */
  ghost predicate Buffered(h: Heap, h': Heap, buffer: Ptr, bytes: TcpProtocol.Bytes) {
    if bytes == [] then h' == h && buffer == Null
    else
      && buffer == At(|h|) && |h'| == |h| + 1 && h'[..|h|] == h
      && h'[|h|].Live? && h'[|h|].kind == ListCell(false) && h'[|h|].count == 1 && |h'[|h|].items| == |bytes|
      && forall i :: 0 <= i < |bytes| ==> h'[|h|].items[i] == Plain(bytes[i] as nat)
  }

  /** Roc made the event of this closure and these bytes. */
  ghost predicate MadeOf(roc: Roc, out: HostLoop.Outcome, closure: Ptr, bytes: TcpProtocol.Bytes, shown: Heap,
                         buffer: Ptr, ready: Heap, event: Ptr)
  {
    exists h: Heap :: Buffered(shown, h, buffer, bytes) && (ready, event) == roc.makeEvent(h, out, closure, buffer)
  }

  /** Each event is made by the subscription it belongs to, and the timer's is its own box. */
  ghost predicate Delivers(roc: Roc, subs: Subs, out: HostLoop.Outcome, shown: Heap, buffer: Ptr, ready: Heap,
                           event: Ptr)
  {
    match out
    case TimerEvent => subs.timer.Some? ==> event == subs.timer.value.onFire && ready == shown
    case InputEvent(bytes) =>
      subs.stdin.Some? ==> MadeOf(roc, out, subs.stdin.value, bytes, shown, buffer, ready, event)
    case TcpEvent(told) => DeliversTcp(roc, subs, out, told, shown, buffer, ready, event)
    case _ => true
  }

  /** A server's peers come before a client's. */
  ghost predicate DeliversTcp(roc: Roc, subs: Subs, out: HostLoop.Outcome, told: TcpProtocol.AppEvent, shown: Heap,
                              buffer: Ptr, ready: Heap, event: Ptr)
  {
    match told
    case ClientConnected(_) =>
      && (subs.accept.Some? ==>
            MadeOf(roc, out, subs.accept.value.onConnected, [], shown, buffer, ready, event))
      && (subs.accept.None? && subs.connect.Some? ==>
            MadeOf(roc, out, subs.connect.value.onConnected, [], shown, buffer, ready, event))
    case ClientDisconnected(_) =>
      && (subs.accept.Some? ==>
            MadeOf(roc, out, subs.accept.value.onDisconnected, [], shown, buffer, ready, event))
      && (subs.accept.None? && subs.connect.Some? ==>
            MadeOf(roc, out, subs.connect.value.onDisconnected, [], shown, buffer, ready, event))
    case MessageReceived(_, bytes) =>
      subs.receive.Some? ==> MadeOf(roc, out, subs.receive.value, bytes, shown, buffer, ready, event)
    case OtherInput => true
  }

  /** The record asks for this, and asked for nothing that came before. */
  ghost predicate AsSubscribed(subs: Subs, out: HostLoop.Outcome, script: seq<HostLoop.Turn>, polls: nat,
                               taken: seq<TcpProtocol.Event>)
  {
    && polls <= |script| && AskedFor(subs, out, script, polls, taken)
    && (forall i :: 0 <= i < |taken| && AsksFor(subs, taken[i]) ==> out.TcpEvent? && i == |taken| - 1)
    && forall k: nat :: k < polls && (k < polls - 1 || out.StillWaiting?) ==> NothingYet(subs, script[k])
  }

  /** There is a closure for such events. */
  predicate AsksFor(subs: Subs, e: TcpProtocol.Event) {
    if e.Data? then subs.receive.Some? else subs.accept.Some? || subs.connect.Some?
  }

  /** The timer is not due and the poll has not timed out; nothing has been typed. */
  predicate NothingYet(subs: Subs, t: HostLoop.Turn) {
    && t.ret >= 0 && (subs.timer.Some? ==> t.now1 < subs.timer.value.fireAt && t.ret != 0)
    && (subs.stdin.Some? && t.stdinReady && !t.pipeReady ==> t.input == [])
  }

  /** A timer that is due, bytes read from stdin, the last event taken off the queue, or
      nothing to wait for. */
  ghost predicate AskedFor(subs: Subs, out: HostLoop.Outcome, script: seq<HostLoop.Turn>, polls: nat,
                           taken: seq<TcpProtocol.Event>)
    requires polls <= |script|
  {
    match out
    case TimerEvent => subs.timer.Some? && IsDue(subs.timer.value.fireAt, script, polls)
    case InputEvent(bytes) => subs.stdin.Some? && bytes != []
    case TcpEvent(told) =>
      && taken != [] && TcpProtocol.Reports(told, taken[|taken| - 1])
      && AsksFor(subs, taken[|taken| - 1])
    case NotWaiting => if polls == 0 then subs.stdin.None? && subs.timer.None? else script[polls - 1].ret < 0
    case StillWaiting => polls == |script|
  }

  /** The clock says so before a poll, or a poll has timed out. */
  predicate IsDue(fireAt: nat, script: seq<HostLoop.Turn>, polls: nat) {
    || (polls < |script| && script[polls].now1 >= fireAt)
    || (0 < polls <= |script| && script[polls - 1].ret == 0 && HostLoop.NotTooEarly(fireAt, script[polls - 1]))
  }

  lemma BufferIsThere(h: Heap, bytes: TcpProtocol.Bytes)
    ensures Buffered(h, WithBuffer(h, bytes).0, WithBuffer(h, bytes).1, bytes)
  {
  }

  lemma NoBuffer(h: Heap, out: HostLoop.Outcome)
    requires out.TimerEvent?
    ensures WithBuffer(h, InputOf(out)) == (h, Null)
  {
  }

  lemma EventIsDelivered(roc: Roc, subs: Subs, out: HostLoop.Outcome, shown: Heap, buffer: Ptr, ready: Heap, event: Ptr)
    requires out.TimerEvent? ==> event == Taken(subs, out) && ready == shown
    requires IsEvent(out) && !out.TimerEvent? ==>
               var (h, b) := WithBuffer(shown, InputOf(out));
               buffer == b && (ready, event) == roc.makeEvent(h, out, Taken(subs, out), b)
    ensures Delivers(roc, subs, out, shown, buffer, ready, event)
  {
    var bytes := InputOf(out);
    BufferIsThere(shown, bytes);
    hide Buffered, WithBuffer;
    assert IsEvent(out) && !out.TimerEvent? ==> MadeOf(roc, out, Taken(subs, out), bytes, shown, buffer, ready, event);
    hide MadeOf;
  }

  lemma OutcomeIsSubscribed(flags: TcpProtocol.Subs, hasTcp: bool, subs: Subs, script: seq<HostLoop.Turn>, net: Net,
                            out: HostLoop.Outcome, polls: nat, taken: seq<TcpProtocol.Event>, woken: Net)
    requires Waits(flags, hasTcp, FireAt(subs), script, net, out, polls, taken, woken) && flags == Flags(subs)
    ensures AsSubscribed(subs, out, script, polls, taken)
  {
    hide HostLoop.Select, HostLoop.Sent, HostLoop.Announced, HostLoop.Drains, HostLoop.WritersAfter;
    HostLoop.ToldLast(flags, hasTcp, FireAt(subs), script, out, polls, taken, woken.pipe);
    hide HostLoop.NotTooEarly, HostLoop.Unwanted, TcpProtocol.Translate, TcpProtocol.Reports;
    forall i | 0 <= i < |taken| ensures AsksFor(subs, taken[i]) <==> TcpProtocol.Wanted(flags, taken[i]) {
    }
    hide TcpProtocol.Wanted;
    forall k: nat | k < polls && (k < polls - 1 || out.StillWaiting?) ensures NothingYet(subs, script[k]) {
      assert HostLoop.Idle(flags, FireAt(subs), script[k]);
    }
    hide HostLoop.Idle;
  }

  function StatusOf(t: Turn): Status {
    if t.out.NotWaiting? then Exited(2)
    else if !IsEvent(t.out) then Waiting
    else StatusAfter(t.reply.es)
  }

  function StatusAfter(es: seq<HostEffects.Effect>): Status {
    match ExitCode(es)
    case None => Running
    case Some(code) => Exited(code)
  }

  /** The turn in terms of the record's own fields: what woke it was subscribed to, the event
      was made by that subscription, the effects did what they ask for, and the program goes
      on unless there was nothing to wait for or an Exit. */
  ghost predicate AsHappened(roc: Roc, env: Env, n: nat, t: Turn) {
    var script := env.script(n, Flags(t.subs), FireAt(t.subs), t.net.queue, t.net.pipe);
    && AsSubscribed(t.subs, t.out, script, t.polls, t.taken)
    && Delivers(roc, t.subs, t.out, t.shown, t.buffer, t.ready, t.event)
    && (IsEvent(t.out) ==> EffectsHappened(env, n, t))
    && (t.out.NotWaiting? ==> StatusOf(t) == Exited(2)) && (t.out.StillWaiting? ==> StatusOf(t) == Waiting)
  }

  /** New writes come after the old ones. */
  ghost predicate EffectsRan(h: Heap, es: seq<HostEffects.Effect>, ok: seq<bool>, net: Net, net': Net)
    requires |ok| == |es|
  {
    && |net.written| <= |net'.written| && net'.written[..|net.written|] == net.written
    && AsAsked(h, es, ok, net.writers, ExitCode(es), net'.writers, net'.written[|net.written|..])
  }

  ghost predicate EffectsHappened(env: Env, n: nat, t: Turn) {
    var es := t.reply.es;
    && EffectsRan(t.updated, es, Oks(env, n + 1, |es|), t.woken, t.left)
    && ((forall i :: 0 <= i < |es| ==> !es[i].Exit?) ==> StatusOf(t) == Running)
    && forall i: nat :: StopsAt(es, i) ==> StatusOf(t) == Exited(es[i].code)
  }

  /** Turns that follow one another, all but the last without stopping. */
  ghost predicate IsRun(roc: Roc, env: Env, hasTcp: bool, run: seq<Turn>) {
    && (forall k :: 0 <= k < |run| ==>
          Follows(roc, run[k]) && Networks(env, hasTcp, k, run[k]))
    && (forall k :: 0 <= k < |run| - 1 ==> StatusOf(run[k]) == Running && Continues(run[k], run[k + 1]))
  }

  ghost predicate Continues(t: Turn, u: Turn) {
    u.start == t.end && u.model == t.reply.model && u.subs == t.reply.subs && u.net == t.left
  }

  // ----- the ledger -----

  /** A reply's references; a list that the host alone owns counts as its elements. */
  ghost function Handed(h: Heap, r: Reply): multiset<Addr> {
    RefOf(r.model) + SubsRefs(r.subs) + ListRest(h, r.effects, r.es) + ReleasedRefs(r.es)
  }

  /** References the host took or was handed during the turn. */
  ghost function Received(t: Turn): multiset<Addr> {
    RefOf(t.model) + Refs(t.rows) +
    if !IsEvent(t.out) then multiset{}
    else if t.out.TimerEvent? then Handed(t.updated, t.reply)
    else RefOf(t.buffer) + RefOf(t.event) + Handed(t.updated, t.reply)
  }

  /** References it passed on or released: the model to `view`; at most one closure or boxed
      event of the record; the model and the event to `update`; the buffers sent. */
  ghost function Given(t: Turn): multiset<Addr> {
    RefOf(t.model) +
    if !IsEvent(t.out) then multiset{}
    else if t.out.TimerEvent? then RefOf(t.model) + RefOf(t.event) + ReleasedRefs(t.reply.es)
    else RefOf(Taken(t.subs, t.out)) + RefOf(t.buffer) + RefOf(t.model) + RefOf(t.event) + ReleasedRefs(t.reply.es)
  }

  /** References it keeps for ever: the rows, the old record but for what was taken out, and
      the effects list or what was not sent of it. */
  ghost function Kept(t: Turn): multiset<Addr> {
    Refs(t.rows) +
    if !IsEvent(t.out) then multiset{}
    else SubsRest(t.subs, t.out) + ListRest(t.updated, t.reply.effects, t.reply.es)
  }

  /** Effects lists left behind with their elements taken out. */
  ghost function Drained(h: Heap, v: Value): set<Addr> {
    if Drainable(h, v) then {v.alloc.addr} else {}
  }

  ghost function DrainedIn(t: Turn): set<Addr> {
    if IsEvent(t.out) then Drained(t.updated, t.reply.effects) else {}
  }

  ghost function SubsRest(s: Subs, out: HostLoop.Outcome): multiset<Addr> {
    SubsRefs(s) - RefOf(Taken(s, out))
  }

  ghost function ReceivedBy(ts: seq<Turn>): multiset<Addr> {
    if ts == [] then multiset{} else ReceivedBy(ts[..|ts| - 1]) + Received(ts[|ts| - 1])
  }

  ghost function GivenBy(ts: seq<Turn>): multiset<Addr> {
    if ts == [] then multiset{} else GivenBy(ts[..|ts| - 1]) + Given(ts[|ts| - 1])
  }

  ghost function KeptBy(ts: seq<Turn>): multiset<Addr> {
    if ts == [] then multiset{} else KeptBy(ts[..|ts| - 1]) + Kept(ts[|ts| - 1])
  }

  ghost function DrainedBy(ts: seq<Turn>): set<Addr> {
    if ts == [] then {} else DrainedBy(ts[..|ts| - 1]) + DrainedIn(ts[|ts| - 1])
  }

  // ----- facts -----

  lemma TakenIsOwned(s: Subs, out: HostLoop.Outcome)
    ensures SubsRefs(s) == SubsRest(s, out) + RefOf(Taken(s, out))
  {
    TakenIsPart(s, out);
    OneOfFive(TimerRefs(s.timer), PtrRefs(s.stdin), PeerRefs(s.accept), PeerRefs(s.connect), PtrRefs(s.receive),
              RefOf(Taken(s, out)));
    hide TimerRefs, PtrRefs, PeerRefs, RefOf, Taken;
  }

  lemma TakenIsPart(s: Subs, out: HostLoop.Outcome)
    ensures var x := RefOf(Taken(s, out));
            x <= TimerRefs(s.timer) || x <= PtrRefs(s.stdin) || x <= PeerRefs(s.accept) || x <= PeerRefs(s.connect) ||
              x <= PtrRefs(s.receive)
  {
    if out.TimerEvent? || out.InputEvent? || (out.TcpEvent? && out.event.MessageReceived?) {
      TakenAlone(s, out);
      hide PeerRefs, TimerRefs, PtrRefs, RefOf, Taken;
    } else if out.TcpEvent? && (out.event.ClientConnected? || out.event.ClientDisconnected?) {
      TakenFromPeer(s, out);
      hide Refs, PeerRefs, TimerRefs, PtrRefs, RefOf, Taken;
    } else {
      assert Taken(s, out) == Null;
      hide PeerRefs, TimerRefs, PtrRefs;
      assert RefOf(Null) == multiset{};
      hide RefOf, Taken;
    }
  }

  lemma TakenAlone(s: Subs, out: HostLoop.Outcome)
    ensures out.TimerEvent? ==> RefOf(Taken(s, out)) == TimerRefs(s.timer)
    ensures out.InputEvent? ==> RefOf(Taken(s, out)) == PtrRefs(s.stdin)
    ensures out.TcpEvent? && out.event.MessageReceived? ==> RefOf(Taken(s, out)) == PtrRefs(s.receive)
  {
    assert RefOf(Null) == multiset{};
    hide RefOf;
  }

  lemma TakenFromPeer(s: Subs, out: HostLoop.Outcome)
    requires out.TcpEvent? && (out.event.ClientConnected? || out.event.ClientDisconnected?)
    ensures RefOf(Taken(s, out)) <= if s.accept.Some? then PeerRefs(s.accept) else PeerRefs(s.connect)
  {
    if s.accept.Some? {
      PeerPart(s.accept);
      hide RefOf, PeerRefs;
    } else if s.connect.Some? {
      PeerPart(s.connect);
      hide RefOf, PeerRefs;
    } else {
      assert RefOf(Taken(s, out)) == multiset{};
    }
  }

  lemma PeerPart(p: Option<Peer>)
    requires p.Some?
    ensures RefOf(p.value.onConnected) <= PeerRefs(p) && RefOf(p.value.onDisconnected) <= PeerRefs(p)
  {
    hide Refs, RefOf;
  }

  lemma OneOfFive(a: multiset<Addr>, b: multiset<Addr>, c: multiset<Addr>, d: multiset<Addr>, e: multiset<Addr>,
                  x: multiset<Addr>)
    requires x <= a || x <= b || x <= c || x <= d || x <= e
    ensures a + b + c + d + e == a + b + c + d + e - x + x
  {
  }

  lemma PlainsAreFlat(h: Heap, bytes: TcpProtocol.Bytes)
    ensures RefsAll(Plains(bytes)) == multiset{} && FitsAll(h, Plains(bytes))
  {
    FlatValues(h, Plains(bytes));
  }

  lemma {:induction false} FlatValues(h: Heap, vs: seq<Value>)
    requires forall i :: 0 <= i < |vs| ==> vs[i].Plain?
    ensures RefsAll(vs) == multiset{} && FitsAll(h, vs)
  {
    if vs != [] {
      FlatValues(h, vs[1..]);
    }
  }

  /** After a wait, the pipe is still backed by the queue, and there are no handles without
      a TCP state. */
  lemma AfterWait(subs: TcpProtocol.Subs, hasTcp: bool, fireAt: nat, q0: seq<TcpProtocol.Event>, p0: nat, w0: set<Id>,
                  script: seq<HostLoop.Turn>, polls: nat, taken: seq<TcpProtocol.Event>, q: seq<TcpProtocol.Event>,
                  p: nat, w: set<Id>)
    requires HostLoop.Covered(|q0|, p0, script) && HostLoop.AllHonest(subs, hasTcp, fireAt, p0, script) &&
             polls <= |script|
    requires taken + q == q0 + HostLoop.Sent(script, polls) && p + |taken| == p0 + HostLoop.Announced(script, polls)
    requires w == HostLoop.WritersAfter(w0, taken) && |taken| == HostLoop.Drains(script, polls) && (w0 != {} ==> hasTcp)
    ensures p <= |q| && (w != {} ==> hasTcp)
  {
    assert |taken + q| == |q0| + |HostLoop.Sent(script, polls)|;
    if !hasTcp {
      NoDrains(subs, fireAt, p0, script, polls);
    }
  }

  lemma {:induction false} NoDrains(subs: TcpProtocol.Subs, fireAt: nat, bytes: nat, script: seq<HostLoop.Turn>, k: nat)
    requires HostLoop.AllHonest(subs, false, fireAt, bytes, script) && k <= |script|
    ensures HostLoop.Drains(script, k) == 0
  {
    if k > 0 {
      NoDrains(subs, fireAt, bytes, script, k - 1);
      assert HostLoop.Honest(subs, false, fireAt, bytes, script, k - 1);
    }
  }

  // ----- regrouping -----

  lemma TimesOnce(m: multiset<Addr>)
    ensures Times(m, 1) == m
  {
    assert Times(m, 0) == multiset{};
  }

  lemma ViewBooks(k: multiset<Addr>, s: multiset<Addr>, m: multiset<Addr>, g: multiset<Addr>, r: multiset<Addr>,
                  rows: multiset<Addr>)
    ensures k + s + m + rows == k + rows + s + m
    ensures k + s + m + g == r ==> k + rows + s + m + (g + m) == r + (m + rows)
  {
  }

  lemma EventBooks(k: multiset<Addr>, s: multiset<Addr>, t: multiset<Addr>, m: multiset<Addr>, b: multiset<Addr>,
                   e: multiset<Addr>,
                   g: multiset<Addr>, r: multiset<Addr>)
    ensures k + (s + t) + m + b == k + s + m + (t + b)
    ensures k + (s + t) + m == k + s + m + t
    ensures k + (s + t) + m + g == r ==> k + s + m + e + (g + (t + b)) == r + (b + e)
  {
  }

  lemma ReplyRoots(k: multiset<Addr>, m: multiset<Addr>, s: multiset<Addr>, v: multiset<Addr>, rest: multiset<Addr>)
    ensures k + (m + s + v) == k + s + m + v
    ensures k + s + m + rest == k + rest + s + m
  {
  }

  lemma ReplyBooks(k: multiset<Addr>, h: Heap, r: Reply, taken: multiset<Addr>, g: multiset<Addr>,
                   received: multiset<Addr>)
    requires k + taken + g == received
    ensures k + ListRest(h, r.effects, r.es) + SubsRefs(r.subs) + RefOf(r.model) + (g + taken + ReleasedRefs(r.es)) ==
              received + Handed(h, r)
  {
    hide ListRest, SubsRefs, ReleasedRefs, RefOf;
  }

  lemma Assoc(a: multiset<Addr>, b: multiset<Addr>, c: multiset<Addr>)
    ensures a + b + c == a + (b + c)
  {
  }

  // ----- rust_main -----

  /** Ghost companion of the main loop's local variables: effects lists left behind drained,
      references never given up, all references received and given away so far. */
  datatype Ledger = Ledger(zombies: set<Addr>, kept: multiset<Addr>, received: multiset<Addr>, given: multiset<Addr>,
                           rank: Addr -> nat)

  ghost function NetOf(host: Host): Net
    reads host, host.tcp
  {
    Net(host.tcp.queue, host.tcp.pipe, host.tcp.writers, host.written)
  }

  /** The host owns these references: the heap's counts say so, and they are what it received
      and did not give away. */
  ghost predicate Owns(host: Host, l: Ledger, owned: multiset<Addr>)
    reads host.heap, host.tcp
  {
    && host.tcp.pipe <= |host.tcp.queue| && (host.tcp.writers != {} ==> host.tcp.hasTcp)
    && host.heap.Ready(l.zombies, owned, l.rank) && owned + l.given == l.received
  }

  /** At a loop head the host owns one reference to the model, the current subscriptions
      record, and what it has kept. */
  ghost predicate AtLoopHead(host: Host, l: Ledger, model: Ptr, subs: Subs)
    reads host.heap, host.tcp
  {
    Owns(host, l, l.kept + SubsRefs(subs) + RefOf(model))
  }

  /** Compiled Roc code runs. */
  method CallRoc(heap: RocHeap, h': Heap, ghost zombies: set<Addr>, ghost rest: multiset<Addr>,
                 ghost taken: multiset<Addr>,
                 ghost handed: multiset<Addr>, ghost rank: Addr -> nat)
    returns (ghost rank': Addr -> nat)
    requires heap.Ready(zombies, rest + taken, rank) && Passes(heap.cells, taken, h', handed)
    modifies heap
    ensures heap.cells == h' && heap.Ready(zombies, rest + handed, rank')
  {
    assert InOrder(heap.cells, zombies, rest + taken, rank);
    rank' :| InOrder(h', zombies, rest + handed, rank');
    hide HeapOk, Accounted, Ranked;
    heap.RunRoc(h');
  }

  /** `incref_box(current_model, 1)`, then `roc_view`, which consumes one reference. */
  method RenderView(roc: Roc, host: Host, model: Ptr, subs: Subs, ghost l: Ledger)
    returns (rows: Value, ghost l': Ledger)
    requires Lawful(roc) && AtLoopHead(host, l, model, subs)
    modifies host.heap
    ensures AtLoopHead(host, l', model, subs) &&
            (host.heap.cells, rows) == roc.view(Retained(old(host.heap.cells), model), model)
    ensures l' == Ledger(l.zombies, l.kept + Refs(rows), l.received + (RefOf(model) + Refs(rows)),
                         l.given + RefOf(model), l'.rank)
  {
    hide Orderly, SubsRefs, Refs, Passes, Lawful, Bumped, Times, RefOf;
    var heap := host.heap;
    ghost var k, s, m := l.kept, SubsRefs(subs), RefOf(model);
    TimesOnce(m);
    heap.IncrefWord(model, 1, l.zombies, k + s + m, l.rank);
    assert heap.cells == Retained(old(heap.cells), model);
    ViewIsLawful(roc, heap.cells, model);
    var (h', shown) := roc.view(heap.cells, model);
    rows := shown;
    ghost var rank := CallRoc(heap, h', l.zombies, k + s + m, m, Refs(rows), l.rank);
    ViewBooks(k, s, m, l.given, l.received, Refs(rows));
    l' := Ledger(l.zombies, k + Refs(rows), l.received + (m + Refs(rows)), l.given + m, rank);
  }

  lemma ViewIsLawful(roc: Roc, h: Heap, model: Ptr)
    requires Lawful(roc)
    ensures Passes(h, RefOf(model), roc.view(h, model).0, Refs(roc.view(h, model).1))
  {
  }

  /** `from_slice` on the heap. */
  method MakeBuffer(heap: RocHeap, bytes: TcpProtocol.Bytes, ghost zombies: set<Addr>, ghost roots: multiset<Addr>,
                    ghost rank: Addr -> nat)
    returns (b: Ptr, ghost rank': Addr -> nat)
    requires heap.Ready(zombies, roots, rank)
    modifies heap
    ensures heap.Ready(zombies, roots + RefOf(b), rank') && PtrFits(heap.cells, b, ListCell(false))
    ensures (heap.cells, b) == WithBuffer(old(heap.cells), bytes)
  {
    hide Orderly, RefsAll, FitsAll;
    if |bytes| == 0 {
      assert roots + RefOf(Null) == roots;
      return Null, rank;
    }
    PlainsAreFlat(heap.cells, bytes);
    assert roots + multiset{} == roots;
    var a;
    a, rank' := heap.Allocate(ListCell(false), Plains(bytes), zombies, roots, rank);
    b := At(a);
  }

  /** Something happened: its closure and the byte list made for it go to Roc, which makes a
      boxed event of them.  The timer's box is in the record already. */
  method TakeEvent(roc: Roc, host: Host, model: Ptr, subs: Subs, out: HostLoop.Outcome, ghost l: Ledger)
    returns (buffer: Ptr, event: Ptr, ghost l': Ledger)
    requires Lawful(roc) && AtLoopHead(host, l, model, subs) && IsEvent(out)
    modifies host.heap
    ensures Owns(host, l', l'.kept + SubsRest(subs, out) + RefOf(model) + RefOf(event))
    ensures buffer == WithBuffer(old(host.heap.cells), InputOf(out)).1
    ensures out.TimerEvent? ==> event == Taken(subs, out) && host.heap.cells == old(host.heap.cells) && l' == l
    ensures !out.TimerEvent? ==>
              && (host.heap.cells, event) ==
                   roc.makeEvent(WithBuffer(old(host.heap.cells), InputOf(out)).0, out, Taken(subs, out), buffer)
              && l' == Ledger(l.zombies, l.kept, l.received + (RefOf(buffer) + RefOf(event)),
                              l.given + (RefOf(Taken(subs, out)) + RefOf(buffer)), l'.rank)
    ensures Delivers(roc, subs, out, old(host.heap.cells), buffer, host.heap.cells, event)
  {
    ghost var shown := host.heap.cells;
    hide Delivers, WithBuffer, InputOf;
    hide Orderly, SubsRefs, Passes, Lawful, SubsRest, RefOf, Taken;
    ghost var k, s, t, m := l.kept, SubsRest(subs, out), RefOf(Taken(subs, out)), RefOf(model);
    TakenIsOwned(subs, out);
    if out.TimerEvent? {
      EventBooks(k, s, t, m, t, t, l.given, l.received);
      EventIsDelivered(roc, subs, out, shown, Null, shown, Taken(subs, out));
      NoBuffer(shown, out);
      return Null, Taken(subs, out), l;
    }
    ghost var rank;
    buffer, rank := MakeBuffer(host.heap, InputOf(out), l.zombies, k + (s + t) + m, l.rank);
    ghost var b := RefOf(buffer);
    EventIsLawful(roc, host.heap.cells, subs, out, buffer);
    var (h', made) := roc.makeEvent(host.heap.cells, out, Taken(subs, out), buffer);
    event := made;
    EventBooks(k, s, t, m, b, RefOf(event), l.given, l.received);
    rank := CallRoc(host.heap, h', l.zombies, k + s + m, t + b, RefOf(event), rank);
    l' := Ledger(l.zombies, k, l.received + (b + RefOf(event)), l.given + (t + b), rank);
    EventIsDelivered(roc, subs, out, shown, buffer, h', event);
  }

  lemma EventIsLawful(roc: Roc, h: Heap, subs: Subs, out: HostLoop.Outcome, b: Ptr)
    requires Lawful(roc) && PtrFits(h, b, ListCell(false))
    ensures var c := Taken(subs, out);
            Passes(h, RefOf(c) + RefOf(b), roc.makeEvent(h, out, c, b).0, RefOf(roc.makeEvent(h, out, c, b).1))
  {
  }

  lemma ReplyFacts(h: Heap, log: seq<Addr>, zombies: set<Addr>, before: multiset<Addr>, taken: multiset<Addr>,
                   rank: Addr -> nat, h': Heap, r: Reply)
    requires Orderly(h, log, zombies, before + taken, rank) && Replies(h, taken, h', r)
    ensures Passes(h, taken, h', RefOf(r.model) + SubsRefs(r.subs) + Refs(r.effects))
    ensures r.effects.List? && r.effects.deep && ShowsEffects(h', r.effects, r.es) && SendsFit(h', r.es)
    ensures Drainable(h', r.effects) || SendsStatic(h', r.es)
  {
    assert InOrder(h, zombies, before + taken, rank);
    hide HeapOk, Accounted, Ranked, SubsRefs, RefOf, Refs, ShowsEffects, SendsFit, SendsStatic, Passes;
    assert EffectsOk(h', r);
  }

  /** Roc runs and answers with a model, a record and effects; the effects run. */
  method Adopt(env: Env, turn: nat, host: Host, h': Heap, r: Reply, ghost before: multiset<Addr>,
               ghost taken: multiset<Addr>, ghost l: Ledger)
    returns (status: Status, ghost l': Ledger)
    requires Owns(host, l, before + taken) && Replies(host.heap.cells, taken, h', r)
    modifies host, host.heap, host.tcp`writers
    ensures AtLoopHead(host, l', r.model, r.subs) && status == StatusAfter(r.es)
    ensures host.heap.cells == AfterEffects(h', r.es)
    ensures NetOf(host) == AfterWrites(old(NetOf(host)), h', r.es, Oks(env, turn, |r.es|))
    ensures EffectsRan(h', r.es, Oks(env, turn, |r.es|), old(NetOf(host)), NetOf(host))
    ensures l' == Ledger(l.zombies + Drained(h', r.effects), before + ListRest(h', r.effects, r.es),
                         l.received + Handed(h', r), l.given + taken + ReleasedRefs(r.es), l'.rank)
  {
    hide Orderly, SubsRefs, Passes, RefOf, ListRest, ReleasedRefs, Refs, Replies, EffectsOk, InOrder;
    hide AfterSends, ExitCode, Drainable, SendsFit, ShowsEffects, SendsStatic, WritersLeft, Writes, Releases, AsAsked;
    ghost var m, s, v, rest := RefOf(r.model), SubsRefs(r.subs), Refs(r.effects), ListRest(h', r.effects, r.es);
    ReplyFacts(host.heap.cells, host.heap.freeLog, l.zombies, before, taken, l.rank, h', r);
    ReplyRoots(before, m, s, v, rest);
    ReplyBooks(before, h', r, taken, l.given, l.received);
    ghost var rank := CallRoc(host.heap, h', l.zombies, before, taken, m + s + v, l.rank);
    var ok := Oks(env, turn, |r.es|);
    ghost var drained;
    var exit;
    exit, drained := host.RunEffectList(r.effects, r.es, ok, l.zombies, before + s + m, rank);
    status := StatusAfter(r.es);
    l' := Ledger(l.zombies + drained, before + rest, l.received + Handed(h', r), l.given + taken + ReleasedRefs(r.es),
                 rank);
  }

  /** `wait_for_next_event`. */
  method Wait(env: Env, turn: nat, host: Host, model: Ptr, subs: Subs, ghost l: Ledger)
    returns (out: HostLoop.Outcome, ghost polls: nat, ghost taken: seq<TcpProtocol.Event>)
    requires Honest(env, host.tcp.hasTcp) && AtLoopHead(host, l, model, subs)
    modifies host.tcp
    ensures AtLoopHead(host, l, model, subs)
    ensures WaitedAs(env, host.tcp.hasTcp, turn, subs, old(NetOf(host)), out, polls, taken, NetOf(host))
    ensures var script := env.script(turn, Flags(subs), FireAt(subs), old(host.tcp.queue), old(host.tcp.pipe));
            AsSubscribed(subs, out, script, polls, taken)
  {
    hide Orderly, SubsRefs, RefOf, Waits, AsSubscribed;
    var tcp := host.tcp;
    ghost var net := NetOf(host);
    var flags, fireAt := Flags(subs), FireAt(subs);
    var script := env.script(turn, flags, fireAt, tcp.queue, tcp.pipe);
    ScriptIsHonest(env, tcp.hasTcp, turn, flags, fireAt, tcp.queue, tcp.pipe);
    out, polls, taken := WaitOn(host, flags, fireAt, script);
    OutcomeIsSubscribed(flags, tcp.hasTcp, subs, script, net, out, polls, taken, NetOf(host));
  }

  ghost function Picked(flags: TcpProtocol.Subs, hasTcp: bool, fireAt: nat, queue: seq<TcpProtocol.Event>, pipe: nat,
                        script: seq<HostLoop.Turn>): HostLoop.Outcome
  {
    if !flags.stdin && !hasTcp && !flags.timer then HostLoop.NotWaiting
    else HostLoop.Select(flags, hasTcp, fireAt, queue, pipe, script, 0)
  }

  lemma ScriptIsHonest(env: Env, hasTcp: bool, n: nat, flags: TcpProtocol.Subs, fireAt: nat,
                       queue: seq<TcpProtocol.Event>, pipe: nat)
    requires Honest(env, hasTcp) && pipe <= |queue|
    ensures var script := env.script(n, flags, fireAt, queue, pipe);
            HostLoop.Covered(|queue|, pipe, script) && HostLoop.AllHonest(flags, hasTcp, fireAt, pipe, script)
  {
    hide HostLoop.Covered, HostLoop.AllHonest;
  }

  method WaitOn(host: Host, flags: TcpProtocol.Subs, fireAt: nat, script: seq<HostLoop.Turn>)
    returns (out: HostLoop.Outcome, ghost polls: nat, ghost taken: seq<TcpProtocol.Event>)
    requires HostLoop.Covered(|host.tcp.queue|, host.tcp.pipe, script)
    requires HostLoop.AllHonest(flags, host.tcp.hasTcp, fireAt, host.tcp.pipe, script)
    requires host.tcp.writers != {} ==> host.tcp.hasTcp
    modifies host.tcp
    ensures host.tcp.pipe <= |host.tcp.queue| && (host.tcp.writers != {} ==> host.tcp.hasTcp)
    ensures Waits(flags, host.tcp.hasTcp, fireAt, script, old(NetOf(host)), out, polls, taken, NetOf(host))
  {
    hide HostLoop.Covered, HostLoop.AllHonest, HostLoop.Select, HostLoop.Idle, HostLoop.Sent, HostLoop.Announced;
    hide HostLoop.Drains, HostLoop.WritersAfter, HostLoop.Unwanted, HostLoop.Explained;
    var tcp := host.tcp;
    ghost var q0, p0, w0 := tcp.queue, tcp.pipe, tcp.writers;
    out, polls, taken := tcp.WaitForNextEvent(flags, fireAt, script);
    AfterWait(flags, tcp.hasTcp, fireAt, q0, p0, w0, script, polls, taken, tcp.queue, tcp.pipe, tcp.writers);
  }

  /** From an event to its effects: Roc makes a boxed event, updates the model, and the effects
      it answers with run. */
  method Process(roc: Roc, env: Env, turn: nat, host: Host, model: Ptr, subs: Subs, out: HostLoop.Outcome,
                 ghost l: Ledger)
    returns (r: Reply, status: Status, buffer: Ptr, event: Ptr, ghost ready: Heap, ghost updated: Heap,
             ghost l': Ledger)
    requires Lawful(roc) && AtLoopHead(host, l, model, subs) && IsEvent(out)
    modifies host, host.heap, host.tcp`writers
    ensures AtLoopHead(host, l', r.model, r.subs) && status == StatusAfter(r.es)
    ensures buffer == WithBuffer(old(host.heap.cells), InputOf(out)).1
    ensures if out.TimerEvent? then event == Taken(subs, out) && ready == old(host.heap.cells)
            else
              var made := WithBuffer(old(host.heap.cells), InputOf(out)).0;
              (ready, event) == roc.makeEvent(made, out, Taken(subs, out), buffer)
    ensures Delivers(roc, subs, out, old(host.heap.cells), buffer, ready, event)
    ensures (updated, r) == roc.update(ready, model, event) && host.heap.cells == AfterEffects(updated, r.es)
    ensures NetOf(host) == AfterWrites(old(NetOf(host)), updated, r.es, Oks(env, turn, |r.es|))
    ensures EffectsRan(updated, r.es, Oks(env, turn, |r.es|), old(NetOf(host)), NetOf(host))
    ensures var made := if out.TimerEvent? then multiset{} else RefOf(buffer) + RefOf(event);
            var passed := if out.TimerEvent? then multiset{} else RefOf(Taken(subs, out)) + RefOf(buffer);
            l' == Ledger(l.zombies + Drained(updated, r.effects),
                         l.kept + SubsRest(subs, out) + ListRest(updated, r.effects, r.es),
                         l.received + made + Handed(updated, r),
                         l.given + passed + (RefOf(model) + RefOf(event)) + ReleasedRefs(r.es), l'.rank)
  {
    hide Orderly, SubsRefs, Lawful, RefOf, ListRest, ReleasedRefs, Refs, SubsRest, Handed, AfterEffects, ExitCode;
    hide AfterWrites, Taken, InputOf, WithBuffer, Replies, Drained, AtLoopHead, Owns, Delivers, EffectsRan;
    ghost var l1;
    buffer, event, l1 := TakeEvent(roc, host, model, subs, out, l);
    ready := host.heap.cells;
    ghost var before, taken := l1.kept + SubsRest(subs, out), RefOf(model) + RefOf(event);
    Assoc(before, RefOf(model), RefOf(event));
    UpdateIsLawful(roc, ready, model, event);
    var (h', reply) := roc.update(host.heap.cells, model, event);
    r, updated := reply, h';
    status, l' := Adopt(env, turn, host, h', r, before, taken, l1);
  }

  /** View, wait, update.  The record `t` tells all of it. */
  method OneTurn(roc: Roc, env: Env, turn: nat, host: Host, model: Ptr, subs: Subs, ghost l: Ledger)
    returns (model': Ptr, subs': Subs, status: Status, ghost l': Ledger, ghost t: Turn)
    requires Lawful(roc) && Honest(env, host.tcp.hasTcp) && AtLoopHead(host, l, model, subs)
    modifies host, host.heap, host.tcp
    ensures AtLoopHead(host, l', model', subs') && status == StatusOf(t)
    ensures Follows(roc, t) && Networks(env, host.tcp.hasTcp, turn, t) && AsHappened(roc, env, turn, t)
    ensures t.start == old(host.heap.cells) && t.model == model && t.subs == subs && t.end == host.heap.cells
    ensures t.net == old(NetOf(host)) && t.left == NetOf(host)
    ensures (model', subs') == if IsEvent(t.out) then (t.reply.model, t.reply.subs) else (model, subs)
    ensures l' == Ledger(l.zombies + DrainedIn(t), l.kept + Kept(t), l.received + Received(t), l.given + Given(t),
                         l'.rank)
  {
    hide Orderly, SubsRefs, Honest, Lawful, RefOf, ListRest, ReleasedRefs, Refs, SubsRest, Handed, Retained;
    hide AfterEffects, ExitCode;
    hide WaitedAs, AfterWrites, Taken, InputOf, WithBuffer, Replies, Drained, AtLoopHead, Owns;
    hide AsSubscribed, Delivers, EffectsRan, AsHappened, EffectsHappened;
    ghost var start, net := host.heap.cells, NetOf(host);
    var rows;
    ghost var l1;
    rows, l1 := RenderView(roc, host, model, subs, l);
    ghost var shown := host.heap.cells;
    var out;
    ghost var polls, seen;
    out, polls, seen := Wait(env, turn, host, model, subs, l1);
    ghost var woken := NetOf(host);
    if !IsEvent(out) {
      model', subs', l' := model, subs, l1;
      status := if out.NotWaiting? then Exited(2) else Waiting;
      t := Turn(start, model, subs, shown, rows, net, out, polls, seen, woken,
                Null, shown, Null, shown, Reply(Null, subs, rows, []), shown, woken);
      QuietTurn(l.kept, l.received, l.given, l.zombies, t);
      QuietHappened(roc, env, turn, t);
      return;
    }
    var r, buffer, event;
    ghost var ready, updated;
    r, status, buffer, event, ready, updated, l' := Process(roc, env, turn + 1, host, model, subs, out, l1);
    model', subs' := r.model, r.subs;
    t := Turn(start, model, subs, shown, rows, net, out, polls, seen, woken, buffer, ready, event, updated, r,
              host.heap.cells, NetOf(host));
    EventTurn(l.kept, l.received, l.given, t);
    EventHappened(roc, env, turn, t);
  }

  lemma QuietHappened(roc: Roc, env: Env, n: nat, t: Turn)
    requires !IsEvent(t.out)
    requires var script := env.script(n, Flags(t.subs), FireAt(t.subs), t.net.queue, t.net.pipe);
             AsSubscribed(t.subs, t.out, script, t.polls, t.taken)
    ensures AsHappened(roc, env, n, t)
  {
    hide AsSubscribed;
  }

  lemma EventHappened(roc: Roc, env: Env, n: nat, t: Turn)
    requires IsEvent(t.out) && Delivers(roc, t.subs, t.out, t.shown, t.buffer, t.ready, t.event)
    requires var script := env.script(n, Flags(t.subs), FireAt(t.subs), t.net.queue, t.net.pipe);
             AsSubscribed(t.subs, t.out, script, t.polls, t.taken)
    requires EffectsRan(t.updated, t.reply.es, Oks(env, n + 1, |t.reply.es|), t.woken, t.left)
    ensures AsHappened(roc, env, n, t)
  {
    ExitExactly(t.reply.es);
    hide Delivers, AsSubscribed, EffectsRan, ExitCode, Oks;
  }

  lemma UpdateIsLawful(roc: Roc, h: Heap, model: Ptr, event: Ptr)
    requires Lawful(roc)
    ensures Replies(h, RefOf(model) + RefOf(event), roc.update(h, model, event).0, roc.update(h, model, event).1)
  {
  }

  lemma InitIsLawful(roc: Roc)
    requires Lawful(roc)
    ensures Replies([], multiset{}, roc.init([]).0, roc.init([]).1)
  {
  }

  /** A run in full: `roc_init` and its effects, then turns that follow one another. */
  ghost predicate IsWholeRun(roc: Roc, env: Env, hasTcp: bool, run: seq<Turn>) {
    var (h, r) := roc.init([]);
    && IsRun(roc, env, hasTcp, run)
    && (run != [] ==>
          && run[0].start == AfterEffects(h, r.es) && run[0].model == r.model && run[0].subs == r.subs
          && run[0].net == NetAt(roc, env, []) && StatusAfter(r.es) == Running)
  }

  function StatusAt(roc: Roc, run: seq<Turn>): Status {
    if run == [] then StatusAfter(roc.init([]).1.es) else StatusOf(run[|run| - 1])
  }

  ghost function HeapAt(roc: Roc, run: seq<Turn>): Heap {
    if run == [] then AfterEffects(roc.init([]).0, roc.init([]).1.es) else run[|run| - 1].end
  }

  /** After the first effects there is no connection yet. */
  function NetAt(roc: Roc, env: Env, run: seq<Turn>): Net {
    var (h, r) := roc.init([]);
    if run == [] then AfterWrites(Net([], 0, {}, []), h, r.es, Oks(env, 0, |r.es|)) else run[|run| - 1].left
  }

  ghost function StartOf(roc: Roc, rank: Addr -> nat): Ledger {
    var (h, r) := roc.init([]);
    Ledger(Drained(h, r.effects), ListRest(h, r.effects, r.es), Handed(h, r), ReleasedRefs(r.es), rank)
  }

  /** Where the program stands after `run`, told by the record alone. */
  ghost predicate Stands(roc: Roc, env: Env, host: Host, status: Status, model: Ptr, subs: Subs, l: Ledger,
                         run: seq<Turn>)
    reads host, host.heap, host.tcp
  {
    && IsWholeRun(roc, env, host.tcp.hasTcp, run) && status == StatusAt(roc, run)
    && host.heap.cells == HeapAt(roc, run) && NetOf(host) == NetAt(roc, env, run)
    && (run == [] ==> model == roc.init([]).1.model && subs == roc.init([]).1.subs)
    && (run != [] && IsEvent(run[|run| - 1].out) ==>
          model == run[|run| - 1].reply.model && subs == run[|run| - 1].reply.subs)
    && l == Recorded(StartOf(roc, l.rank), run)
  }

  lemma StandsNext(roc: Roc, env: Env, hasTcp: bool, status: Status, model: Ptr, subs: Subs, run: seq<Turn>, t: Turn)
    requires IsWholeRun(roc, env, hasTcp, run) && StatusAt(roc, run) == Running
    requires Follows(roc, t) && Networks(env, hasTcp, |run|, t) && t.start == HeapAt(roc, run) &&
             t.net == NetAt(roc, env, run)
    requires run == [] ==> t.model == roc.init([]).1.model && t.subs == roc.init([]).1.subs
    requires run != [] && IsEvent(run[|run| - 1].out) ==>
               t.model == run[|run| - 1].reply.model && t.subs == run[|run| - 1].reply.subs
    ensures IsWholeRun(roc, env, hasTcp, run + [t])
  {
    hide Follows, Networks, AfterEffects, AfterWrites, ExitCode;
  }

  /** The TCP state exists if the first record asks for one and it could be started. */
  predicate HasTcp(roc: Roc, started: bool) {
    started && (roc.init([]).1.subs.accept.Some? || roc.init([]).1.subs.connect.Some?)
  }

  /** `roc_init`, the TCP state if it could be started, and the first effects. */
  method Start(roc: Roc, env: Env, started: bool)
    returns (status: Status, host: Host, model: Ptr, subs: Subs, ghost l: Ledger)
    requires Lawful(roc)
    ensures fresh(host) && fresh(host.heap) && fresh(host.tcp)
    ensures AtLoopHead(host, l, model, subs) && Stands(roc, env, host, status, model, subs, l, [])
    ensures host.tcp.hasTcp == HasTcp(roc, started)
  {
    hide Orderly, SubsRefs, Lawful, RefOf, ListRest, ReleasedRefs, Refs, Handed, AfterEffects, ExitCode, StatusAfter;
    hide Replies, Drained, Follows, Networks, AfterWrites;
    var (h, r) := roc.init([]);
    InitIsLawful(roc);
    var heap := new RocHeap();
    var tcp := new HostLoop.TcpState(started && (r.subs.accept.Some? || r.subs.connect.Some?));
    host := new Host(heap, tcp);
    ghost var nothing: multiset<Addr> := multiset{};
    assert nothing + nothing == nothing;
    status, l := Adopt(env, 0, host, h, r, nothing, nothing, Ledger({}, nothing, nothing, nothing, _ => 0));
    model, subs := r.model, r.subs;
    StartRecord(roc, l);
  }

  lemma StartRecord(roc: Roc, l: Ledger)
    requires var (h, r) := roc.init([]);
             l == Ledger({} + Drained(h, r.effects), multiset{} + ListRest(h, r.effects, r.es),
                         multiset{} + Handed(h, r),
                         multiset{} + multiset{} + ReleasedRefs(r.es), l.rank)
    ensures l == Recorded(StartOf(roc, l.rank), [])
  {
    hide Drained, ListRest, Handed, ReleasedRefs;
  }

  /** From `roc_init` through at most so many turns, until the program exits or waits for
      ever.  The record pins down heaps, values, events, handles and writes.  At the end, which may be any
      loop head, the host owns one reference to the model, the subscriptions record and what
      it kept; the heap's counts agree; and that is what the record says was received, minus
      what it says was given away. */
  method RustMain(roc: Roc, env: Env, started: bool, turns: nat)
    returns (status: Status, host: Host, model: Ptr, subs: Subs, ghost l: Ledger, ghost run: seq<Turn>)
    requires Lawful(roc) && Honest(env, HasTcp(roc, started))
    ensures AtLoopHead(host, l, model, subs) && Stands(roc, env, host, status, model, subs, l, run)
    ensures |run| <= turns && (|run| < turns ==> status != Running)
    ensures forall k :: 0 <= k < |run| ==> AsHappened(roc, env, k, run[k])
    ensures var subs0 := roc.init([]).1.subs;
            host.tcp.hasTcp <==> started && (subs0.accept.Some? || subs0.connect.Some?)
    ensures l.given <= l.received
  {
    hide Orderly, SubsRefs, Honest, Lawful, RefOf, Received, Given, Kept, DrainedIn, Follows, Networks, Recorded;
    hide StartOf, IsWholeRun, AtLoopHead, AfterEffects, AfterWrites, AsHappened;
    status, host, model, subs, l := Start(roc, env, started);
    run := [];
    var turn := 0;
    while turn < turns && status == Running
      invariant turn == |run| <= turns && fresh(host) && fresh(host.heap) && fresh(host.tcp)
      invariant AtLoopHead(host, l, model, subs) && Stands(roc, env, host, status, model, subs, l, run)
      invariant forall k :: 0 <= k < |run| ==> AsHappened(roc, env, k, run[k])
    {
      ghost var l0 := l;
      ghost var t;
      model, subs, status, l, t := OneTurn(roc, env, turn, host, model, subs, l);
      StandsNext(roc, env, host.tcp.hasTcp, status, model, subs, run, t);
      RecordedNext(StartOf(roc, l0.rank), run, t, l.rank);
      SameStart(roc, l0.rank, l.rank);
      run := run + [t];
      turn := turn + 1;
    }
    GivenWasReceived(host, l, model, subs);
  }

  /** Never over-released: whatever was given away had been received. */
  lemma GivenWasReceived(host: Host, l: Ledger, model: Ptr, subs: Subs)
    requires AtLoopHead(host, l, model, subs)
    ensures l.given <= l.received && RefOf(model) <= l.received - l.given
  {
    hide Orderly, SubsRefs, RefOf;
    Leftover(l.kept + SubsRefs(subs), RefOf(model), l.given, l.received);
  }

  lemma Leftover(rest: multiset<Addr>, m: multiset<Addr>, given: multiset<Addr>, received: multiset<Addr>)
    requires rest + m + given == received
    ensures given <= received && m <= received - given
  {
    assert received - given == rest + m;
  }

  // ----- the contracts can be met -----

  const NO_SUBS := Subs(None, None, None, None, None)
  const LISTEN := NO_SUBS.(accept := Some(Peer(SmallStr, 8080, Null, Null)))
  const NO_EFFECTS := List(Null, false, 0, 0, true)
  const GREETING := [Plain(104), Plain(105)]

  /** The heap with one more allocation. */
  function With(h: Heap, kind: Kind, items: seq<Value>): Heap {
    h + [Live(kind, 1, items)]
  }

  /** One send to connection 0: a slice of the buffer at a, without its first byte. */
  function Greet(a: Addr): seq<HostEffects.Effect> {
    [TcpSend(0, List(At(a), true, 1, 1, false))]
  }

  /** A fresh greeting, and a fresh list of effects that sends it. */
  function WithGreeting(h: Heap): Heap {
    With(With(h, ListCell(false), GREETING), ListCell(true), AsValues(Greet(|h|)))
  }

  function GreetReply(h: Heap, m: Ptr, e: Ptr): Reply {
    Reply(m, LISTEN.(receive := Some(e)), List(At(|h| + 1), false, 0, 1, true), Greet(|h|))
  }

  /** Two closures: one for connections that arrive, one for those that leave. */
  function WithClosures(h: Heap): Heap {
    With(With(h, CallableCell(false), []), CallableCell(false), [])
  }

  function FirstReply(h: Heap): Reply {
    Reply(Null, NO_SUBS.(accept := Some(Peer(SmallStr, 8080, At(|h|), At(|h| + 1)))), NO_EFFECTS, [])
  }

  /** An application that listens, shows its model, and at every event greets connection 0. */
  function Greeter(): Roc {
    Roc((h: Heap) => (WithClosures(h), FirstReply(h)),
        (h: Heap, m: Ptr) => (h, Callable(m)),
        (h: Heap, out: HostLoop.Outcome, c: Ptr, b: Ptr) => (Let(h, b), c),
        (h: Heap, m: Ptr, e: Ptr) => (WithGreeting(h), GreetReply(h, m, e)))
  }

  /** The heap without one reference to a list of bytes. */
  function Let(h: Heap, b: Ptr): Heap {
    if !b.At? || b.addr >= |h| || !h[b.addr].Live? || h[b.addr].count == 0 then h
    else if h[b.addr].count == 1 then h[b.addr := Freed]
    else h[b.addr := h[b.addr].(count := h[b.addr].count - 1)]
  }

  /** In every turn a connection announces itself, and every write works. */
  function Busy(): Env {
    Env((n: nat, subs: TcpProtocol.Subs, fireAt: nat, queue: seq<TcpProtocol.Event>, pipe: nat) =>
          [HostLoop.Turn(0, 0, [TcpProtocol.Connected(n)], 1, 1, true, false, 0, [])],
        (n: nat, i: nat) => true)
  }

  lemma BusyIsHonest()
    ensures Honest(Busy(), true)
  {
    forall n: nat, subs: TcpProtocol.Subs, fireAt: nat, queue: seq<TcpProtocol.Event>, pipe: nat | pipe <= |queue|
      ensures HostLoop.Covered(|queue|, pipe, Busy().script(n, subs, fireAt, queue, pipe))
      ensures HostLoop.AllHonest(subs, true, fireAt, pipe, Busy().script(n, subs, fireAt, queue, pipe))
    {
      OneConnection(n, subs, fireAt, queue, pipe);
    }
  }

  lemma OneConnection(n: nat, subs: TcpProtocol.Subs, fireAt: nat, queue: seq<TcpProtocol.Event>, pipe: nat)
    requires pipe <= |queue|
    ensures var script := Busy().script(n, subs, fireAt, queue, pipe);
            HostLoop.Covered(|queue|, pipe, script) && HostLoop.AllHonest(subs, true, fireAt, pipe, script)
  {
    var script := Busy().script(n, subs, fireAt, queue, pipe);
    OneTurnScript(script, n);
    forall k: nat | k <= 1 ensures pipe + HostLoop.Announced(script, k) <= |queue| + |HostLoop.Sent(script, k)| {
      assert k == 0 || k == 1;
    }
    assert HostLoop.Honest(subs, true, fireAt, pipe, script, 0);
  }

  lemma OneTurnScript(script: seq<HostLoop.Turn>, n: nat)
    requires script == [HostLoop.Turn(0, 0, [TcpProtocol.Connected(n)], 1, 1, true, false, 0, [])]
    ensures HostLoop.Sent(script, 0) == [] && HostLoop.Sent(script, 1) == [TcpProtocol.Connected(n)]
    ensures HostLoop.Announced(script, 0) == 0 && HostLoop.Announced(script, 1) == 1
    ensures HostLoop.Drains(script, 0) == 0 && HostLoop.Drains(script, 1) == 1
  {
    assert HostLoop.Sent(script, 1) == HostLoop.Sent(script, 0) + script[0].sent;
    assert HostLoop.Announced(script, 1) == HostLoop.Announced(script, 0) + script[0].announced;
  }

  lemma GreeterIsLawful()
    ensures Lawful(Greeter())
  {
    hide Passes, Replies, PtrFits;
    var roc := Greeter();
    forall h: Heap ensures Replies(h, multiset{}, roc.init(h).0, roc.init(h).1) {
      InitListens(h);
    }
    forall h: Heap, m: Ptr ensures Passes(h, RefOf(m), roc.view(h, m).0, Refs(roc.view(h, m).1)) {
      PassesOn(h, RefOf(m));
      assert Refs(Callable(m)) == RefOf(m);
    }
    forall h: Heap, m: Ptr, e: Ptr
      ensures Replies(h, RefOf(m) + RefOf(e), roc.update(h, m, e).0, roc.update(h, m, e).1) {
      UpdateGreets(h, m, e);
    }
    forall h: Heap, out: HostLoop.Outcome, c: Ptr, b: Ptr | PtrFits(h, b, ListCell(false))
      ensures Passes(h, RefOf(c) + RefOf(b), roc.makeEvent(h, out, c, b).0, RefOf(roc.makeEvent(h, out, c, b).1))
    {
      LetsGo(h, c, b);
    }
  }

  lemma PassesOn(h: Heap, refs: multiset<Addr>)
    ensures Passes(h, refs, h, refs)
  {
    hide HeapOk, Accounted, Ranked;
  }

  /** An allocation that takes over the references put into it. */
  lemma AllocatesInOrder(h: Heap, kind: Kind, items: seq<Value>, zombies: set<Addr>, roots: multiset<Addr>,
                         rank: Addr -> nat)
    returns (rank': Addr -> nat)
    requires InOrder(h, zombies, roots + RefsAll(items), rank) && CellOk(h, Live(kind, 1, items))
    ensures InOrder(With(h, kind, items), zombies, roots + multiset{|h|}, rank') && Grown(h, With(h, kind, items))
  {
    hide Accounted, HeapOk, Ranked, CellOk, FitsAll, RefsAll;
    RocHeapSteps.Allocate(h, zombies, roots, kind, items);
    rank' := NewRank(h, zombies, roots, items, rank);
    HeapOkExtend(h, Live(kind, 1, items));
    LayoutOf(h, Live(kind, 1, items));
    RankedExtend(h, Live(kind, 1, items), rank, rank');
  }

  lemma InitListens(h: Heap)
    ensures Replies(h, multiset{}, Greeter().init(h).0, Greeter().init(h).1)
  {
    assert Greeter().init(h) == (WithClosures(h), FirstReply(h));
    FirstReplyFits(h);
    hide ReplyRefs, EffectsOk, WithClosures, FirstReply, Greeter;
    forall zombies: set<Addr>, roots: multiset<Addr>, rank: Addr -> nat | InOrder(h, zombies, roots + multiset{}, rank)
      ensures Grown(h, WithClosures(h))
      ensures exists rank' :: InOrder(WithClosures(h), zombies, roots + ReplyRefs(FirstReply(h)), rank')
    {
      var rank' := ListensInOrder(h, zombies, roots, rank);
    }
    hide InOrder, Grown;
  }

  lemma ListensInOrder(h: Heap, zombies: set<Addr>, roots: multiset<Addr>, rank: Addr -> nat)
    returns (rank': Addr -> nat)
    requires InOrder(h, zombies, roots + multiset{}, rank)
    ensures Grown(h, WithClosures(h))
    ensures InOrder(WithClosures(h), zombies, roots + (multiset{|h|} + multiset{|h| + 1}), rank')
  {
    var h1 := With(h, CallableCell(false), []);
    assert RefsAll([]) == multiset{} && CellOk(h, Live(CallableCell(false), 1, []));
    assert CellOk(h1, Live(CallableCell(false), 1, [])) && |h1| == |h| + 1;
    hide InOrder, RefsAll, CellOk, With, Grown;
    var rank1 := AllocatesInOrder(h, CallableCell(false), [], zombies, roots, rank);
    assert roots + multiset{|h|} + multiset{} == roots + multiset{|h|};
    rank' := AllocatesInOrder(h1, CallableCell(false), [], zombies, roots + multiset{|h|}, rank1);
    Assoc(roots, multiset{|h|}, multiset{|h| + 1});
    GrownTwice(h, h1, WithClosures(h));
  }

  lemma FirstReplyFits(h: Heap)
    ensures ReplyRefs(FirstReply(h)) == multiset{|h|} + multiset{|h| + 1}
    ensures EffectsOk(WithClosures(h), FirstReply(h))
  {
    PlainRefs(|h|);
    PlainRefs(|h| + 1);
    hide RefOf;
    assert FirstReply(h).es == [];
  }

  lemma UpdateGreets(h: Heap, m: Ptr, e: Ptr)
    ensures Replies(h, RefOf(m) + RefOf(e), WithGreeting(h), GreetReply(h, m, e))
  {
    GreetRefs(h, m, e);
    GreetEffects(h, m, e);
    hide ReplyRefs, EffectsOk, WithGreeting, GreetReply;
    var taken := RefOf(m) + RefOf(e);
    forall zombies: set<Addr>, roots: multiset<Addr>, rank: Addr -> nat | InOrder(h, zombies, roots + taken, rank)
      ensures Grown(h, WithGreeting(h)) &&
              exists rank' :: InOrder(WithGreeting(h), zombies, roots + ReplyRefs(GreetReply(h, m, e)), rank')
    {
      var rank' := GreetsInOrder(h, zombies, roots, taken, rank);
    }
    hide InOrder, Grown;
  }

  lemma GreetRefs(h: Heap, m: Ptr, e: Ptr)
    ensures ReplyRefs(GreetReply(h, m, e)) == RefOf(m) + RefOf(e) + multiset{|h| + 1}
  {
    hide RefOf;
    assert RefOf(Null) == multiset{} && RefOf(At(|h| + 1)) == multiset{|h| + 1} by { PlainRefs(|h| + 1); }
  }

  lemma PlainRefs(a: Addr)
    ensures RefOf(Null) == multiset{} && RefOf(At(a)) == multiset{a}
  {
  }

  lemma GreetingIsFlat(h: Heap, a: Addr)
    ensures RefsAll(GREETING) == multiset{} && FitsAll(h, GREETING)
    ensures RefsAll(AsValues(Greet(a))) == multiset{a}
  {
    FlatValues(h, GREETING);
    EffectsOwn(Greet(a));
    GreetOwns(a);
    hide RefsAll, FitsAll, AsValues, AllRefs, Greet;
  }

  lemma GreetOwns(a: Addr)
    ensures AllRefs(Greet(a)) == multiset{a}
  {
    PlainRefs(a);
    hide RefOf;
    assert Greet(a)[1..] == [];
    assert AllRefs(Greet(a)) == EffectRefs(Greet(a)[0]) + AllRefs(Greet(a)[1..]);
  }

  lemma GreetFits(h: Heap)
    ensures var h1 := With(h, ListCell(false), GREETING); FitsAll(h1, AsValues(Greet(|h|))) && SendsFit(h1, Greet(|h|))
  {
    var h1, e := With(h, ListCell(false), GREETING), Greet(|h|)[0];
    assert h1[|h|] == Live(ListCell(false), 1, GREETING);
    assert Fits(h1, e.data);
    PayloadFits(h1, 0, e.data);
    assert Greet(|h|)[1..] == [];
    assert AsValues(Greet(|h|)) == [AsValue(e)] + AsValues([]);
    assert [AsValue(e)][1..] == [];
  }

  lemma PayloadFits(h: Heap, id: Id, data: Value)
    requires Fits(h, data)
    ensures Fits(h, SendPayload(id, data))
  {
    assert [Plain(id), data][1..] == [data] && [data][1..] == [];
    assert FitsAll(h, [data]);
    assert FitsAll(h, [Plain(id), data]);
  }

  lemma GreetsInOrder(h: Heap, zombies: set<Addr>, roots: multiset<Addr>, taken: multiset<Addr>, rank: Addr -> nat)
    returns (rank': Addr -> nat)
    requires InOrder(h, zombies, roots + taken, rank)
    ensures Grown(h, WithGreeting(h)) && InOrder(WithGreeting(h), zombies, roots + (taken + multiset{|h| + 1}), rank')
  {
    var h1 := With(h, ListCell(false), GREETING);
    GreetingIsFlat(h, |h|);
    GreetFits(h);
    GreetCells(h);
    hide InOrder, RefsAll, FitsAll, AsValues, CellOk, With, Greet, Grown;
    assert roots + taken + multiset{} == roots + taken;
    var rank1 := AllocatesInOrder(h, ListCell(false), GREETING, zombies, roots + taken, rank);
    rank' := AllocatesInOrder(h1, ListCell(true), AsValues(Greet(|h|)), zombies, roots + taken, rank1);
    Assoc(roots, taken, multiset{|h| + 1});
    GrownTwice(h, h1, WithGreeting(h));
  }

  lemma GreetCells(h: Heap)
    ensures var h1 := With(h, ListCell(false), GREETING);
            |h1| == |h| + 1 && (FitsAll(h, GREETING) ==> CellOk(h, Live(ListCell(false), 1, GREETING))) &&
            (FitsAll(h1, AsValues(Greet(|h|))) ==> CellOk(h1, Live(ListCell(true), 1, AsValues(Greet(|h|)))))
  {
    hide FitsAll, AsValues;
  }

  lemma GrownTwice(h: Heap, h1: Heap, h2: Heap)
    requires Grown(h, h1) && Grown(h1, h2)
    ensures Grown(h, h2)
  {
  }

  lemma GreetEffects(h: Heap, m: Ptr, e: Ptr)
    ensures EffectsOk(WithGreeting(h), GreetReply(h, m, e))
  {
    var h1, h2 := With(h, ListCell(false), GREETING), WithGreeting(h);
    GreetFits(h);
    assert Thins(h2[..|h1|], h1) && h2[..|h1|] == h1;
    var send := Greet(|h|)[0];
    FitsExtend(h1, Live(ListCell(true), 1, AsValues(Greet(|h|))), send.data);
    assert |AsValues(Greet(|h|))| == 1;
    assert AsValues(Greet(|h|))[0..1] == AsValues(Greet(|h|));
  }

  lemma LetsGo(h: Heap, c: Ptr, b: Ptr)
    requires PtrFits(h, b, ListCell(false))
    ensures Passes(h, RefOf(c) + RefOf(b), Let(h, b), RefOf(c))
  {
    forall zombies: set<Addr>, roots: multiset<Addr>, rank: Addr -> nat
      | InOrder(h, zombies, roots + (RefOf(c) + RefOf(b)), rank)
      ensures Grown(h, Let(h, b)) && InOrder(Let(h, b), zombies, roots + RefOf(c), rank)
    {
      LetsGoInOrder(h, b, zombies, roots + RefOf(c), rank, roots + (RefOf(c) + RefOf(b)));
    }
    hide InOrder, Let;
  }

  lemma LetsGoInOrder(h: Heap, b: Ptr, zombies: set<Addr>, roots: multiset<Addr>, rank: Addr -> nat,
                      all: multiset<Addr>)
    requires PtrFits(h, b, ListCell(false)) && InOrder(h, zombies, all, rank) && all == roots + RefOf(b)
    ensures Grown(h, Let(h, b)) && InOrder(Let(h, b), zombies, roots, rank)
  {
    hide Accounted, Ranked, HeapOk;
    if b.At? {
      OwnedIsLive(h, zombies, all, b.addr);
      Contents(h, b.addr, rank);
      DecrefLeaf(h, zombies, roots, b.addr);
      assert Let(h, b) == AfterDecref(h, b);
      ShrinksThins(h, Let(h, b));
      HeapOkThins(h, Let(h, b));
      RankedThins(h, Let(h, b), rank);
    } else {
      assert all == roots;
    }
  }

  /** A run in which a connection arrives, its event reaches the application, made by the
      closure for arrivals, and the slice it sends is written to the new handle. */
  method FirstGreeting() returns (ghost t: Turn)
    ensures t.out == HostLoop.TcpEvent(TcpProtocol.ClientConnected(0)) && t.taken == [TcpProtocol.Connected(0)]
    ensures t.subs.accept == Some(Peer(SmallStr, 8080, At(0), At(1))) && t.event == At(0)
    ensures t.left.writers == {0} && t.left.written == [(0, [Plain(105)])]
  {
    hide Lawful, Honest, AtLoopHead, Follows, Networks, Recorded, AfterEffects;
    GreeterIsLawful();
    BusyIsHonest();
    var status, host, model, subs;
    ghost var l, run;
    status, host, model, subs, l, run := RustMain(Greeter(), Busy(), true, 1);
    t := run[0];
    FirstTurn(t);
  }

  lemma FirstTurn(t: Turn)
    requires Follows(Greeter(), t) && Networks(Busy(), true, 0, t)
    requires t.subs == Greeter().init([]).1.subs && t.net == Net([], 0, {}, [])
    ensures t.out == HostLoop.TcpEvent(TcpProtocol.ClientConnected(0)) && t.taken == [TcpProtocol.Connected(0)]
    ensures t.subs.accept == Some(Peer(SmallStr, 8080, At(0), At(1))) && t.event == At(0)
    ensures t.left.writers == {0} && t.left.written == [(0, [Plain(105)])]
  {
    FirstWait(t);
    hide WaitedAs;
    var es := Greet(|t.ready|);
    assert t.updated == WithGreeting(t.ready) && t.reply.es == es;
    hide Follows;
    assert Oks(Busy(), 1, 1) == [true];
    OneWrite(t.ready);
  }

  /** The greeting is written, and the handle stays. */
  lemma OneWrite(h: Heap)
    ensures var es := Greet(|h|);
            Writes(WithGreeting(h), es, [true], {0}) == [(0, [Plain(105)])] && WritersLeft(es, [true], {0}) == {0}
  {
    var h2, es := WithGreeting(h), Greet(|h|);
    assert h2[|h|] == Live(ListCell(false), 1, GREETING);
    assert View(h2, es[0].data) == GREETING[1..2] == [Plain(105)];
    assert es[1..] == [] && [true][1..] == [];
    assert Writes(h2, es, [true], {0}) == [(0, [Plain(105)])] + Writes(h2, [], [], {0});
    assert WritersLeft(es, [true], {0}) == WritersLeft([], [], {0});
  }

  lemma FirstWait(t: Turn)
    requires WaitedAs(Busy(), true, 0, t.subs, t.net, t.out, t.polls, t.taken, t.woken)
    requires t.subs == Greeter().init([]).1.subs && t.net == Net([], 0, {}, [])
    ensures t.out == HostLoop.TcpEvent(TcpProtocol.ClientConnected(0)) && t.taken == [TcpProtocol.Connected(0)]
    ensures t.woken.writers == {0} && t.woken.written == []
  {
    var script := Busy().script(0, Flags(t.subs), 0, [], 0);
    OneTurnScript(script, 0);
    assert HostLoop.Select(Flags(t.subs), true, 0, [], 0, script, 0) ==
             HostLoop.TcpEvent(TcpProtocol.ClientConnected(0));
    assert t.polls == 1 && |t.taken| == 1;
    assert t.taken + t.woken.queue == [TcpProtocol.Connected(0)];
    assert t.taken == (t.taken + t.woken.queue)[..1];
    OneHandle();
  }

  lemma OneHandle()
    ensures HostLoop.WritersAfter({}, [TcpProtocol.Connected(0)]) == {0}
  {
    var taken := [TcpProtocol.Connected(0)];
    assert taken[..0] == [];
    assert HostLoop.WritersAfter({}, taken) == TcpProtocol.NextWriters(HostLoop.WritersAfter({}, taken[..0]), taken[0]);
  }

  lemma SameStart(roc: Roc, rank: Addr -> nat, rank': Addr -> nat)
    ensures StartOf(roc, rank).(rank := rank') == StartOf(roc, rank')
  {
  }

  lemma QuietTurn(k: multiset<Addr>, r: multiset<Addr>, g: multiset<Addr>, z: set<Addr>, t: Turn)
    requires !IsEvent(t.out)
    ensures k + Refs(t.rows) == k + Kept(t) && r + (RefOf(t.model) + Refs(t.rows)) == r + Received(t)
    ensures g + RefOf(t.model) == g + Given(t) && z + DrainedIn(t) == z
  {
    hide Refs, RefOf;
  }

  lemma EventTurn(k: multiset<Addr>, r: multiset<Addr>, g: multiset<Addr>, t: Turn)
    requires IsEvent(t.out)
    ensures k + Refs(t.rows) + SubsRest(t.subs, t.out) + ListRest(t.updated, t.reply.effects, t.reply.es) == k + Kept(t)
    ensures var made := if t.out.TimerEvent? then multiset{} else RefOf(t.buffer) + RefOf(t.event);
            r + (RefOf(t.model) + Refs(t.rows)) + made + Handed(t.updated, t.reply) == r + Received(t)
    ensures var passed := if t.out.TimerEvent? then multiset{} else RefOf(Taken(t.subs, t.out)) + RefOf(t.buffer);
            g + RefOf(t.model) + passed + (RefOf(t.model) + RefOf(t.event)) + ReleasedRefs(t.reply.es) == g + Given(t)
  {
    hide Refs, RefOf, SubsRest, ListRest, Handed, ReleasedRefs, Taken;
  }

  /** The ledger after a run. */
  ghost function Recorded(l: Ledger, run: seq<Turn>): Ledger {
    Ledger(l.zombies + DrainedBy(run), l.kept + KeptBy(run), l.received + ReceivedBy(run), l.given + GivenBy(run),
           l.rank)
  }

  lemma RecordedNext(l: Ledger, run: seq<Turn>, t: Turn, rank: Addr -> nat)
    ensures var l1 := Recorded(l, run);
            Ledger(l1.zombies + DrainedIn(t), l1.kept + Kept(t), l1.received + Received(t), l1.given + Given(t),
                   rank) ==
            Recorded(l.(rank := rank), run + [t])
  {
    hide Kept, Received, Given, DrainedIn;
    assert (run + [t])[..|run|] == run;
    Assoc(l.kept, KeptBy(run), Kept(t));
    Assoc(l.received, ReceivedBy(run), Received(t));
    Assoc(l.given, GivenBy(run), Given(t));
    assert l.zombies + DrainedBy(run) + DrainedIn(t) == l.zombies + (DrainedBy(run) + DrainedIn(t));
  }
}
