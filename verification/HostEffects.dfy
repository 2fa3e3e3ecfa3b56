/** Running the application's effects: what is written to which socket, and what that
    does to the reference counts of the buffers involved. */
module HostEffects {
  import opened RocGraph
  import opened RocHeapSteps
  import opened RocHeaps
  import HostLoop
  import TcpProtocol
  import RocHeapReachability

  type Id = nat

  datatype Effect =
    | Exit(code: nat)
    | Print(text: Value)
    | WriteToFile(content: Value, filename: Value)
    | TcpSend(id: Id, data: Value)

  datatype Option<T> = None | Some(value: T)

  /** The effect as it lies in memory: a tag and a payload. */
  function AsValue(e: Effect): Value {
    match e
    case Exit(code) => Variant(0, Plain(code))
    case Print(text) => Variant(1, text)
    case TcpSend(id, data) => Variant(2, SendPayload(id, data))
    case WriteToFile(content, filename) => Variant(3, Struct([content, filename]))
  }

  function SendPayload(id: Id, data: Value): Value {
    Struct([Plain(id), data])
  }

  function AsValues(es: seq<Effect>): seq<Value> {
    if es == [] then [] else [AsValue(es[0])] + AsValues(es[1..])
  }

  /** The elements a list value shows. */
  function View(h: Heap, v: Value): seq<Value> {
    if v.List? && v.alloc.At? && v.alloc.addr < |h| && h[v.alloc.addr].Live? &&
      v.start + v.length <= |h[v.alloc.addr].items|
    then h[v.alloc.addr].items[v.start..v.start + v.length]
    else []
  }

  // ----- reference definitions: what a list of effects amounts to -----

  function ExitCode(es: seq<Effect>): Option<nat> {
    if es == [] then None
    else if es[0].Exit? then Some(es[0].code)
    else ExitCode(es[1..])
  }

  /** Sends that reach a socket, in order.  `ok` says of each effect whether its write works. */
  function Writes(h: Heap, es: seq<Effect>, ok: seq<bool>, writers: set<Id>): seq<(Id, seq<Value>)>
    requires |ok| == |es|
  {
    if es == [] || es[0].Exit? then []
    else if es[0].TcpSend? && es[0].id in writers then
      [(es[0].id, View(h, es[0].data))] +
      Writes(h, es[1..], ok[1..], if ok[0] then writers else writers - {es[0].id})
    else Writes(h, es[1..], ok[1..], writers)
  }

  function WritersLeft(es: seq<Effect>, ok: seq<bool>, writers: set<Id>): set<Id>
    requires |ok| == |es|
  {
    if es == [] || es[0].Exit? then writers
    else if es[0].TcpSend? && es[0].id in writers && !ok[0] then WritersLeft(es[1..], ok[1..], writers - {es[0].id})
    else WritersLeft(es[1..], ok[1..], writers)
  }

  ghost function EffectRefs(e: Effect): multiset<Addr> {
    match e
    case Exit(_) => multiset{}
    case Print(text) => Refs(text)
    case TcpSend(_, data) => Refs(data)
    case WriteToFile(content, filename) => Refs(content) + Refs(filename)
  }

  ghost function AllRefs(es: seq<Effect>): multiset<Addr> {
    if es == [] then multiset{} else EffectRefs(es[0]) + AllRefs(es[1..])
  }

  /** References still owned once the effects have run: buffers sent before an Exit are
      released, everything else stays as it was. */
  ghost function Unreleased(es: seq<Effect>): multiset<Addr> {
    if es == [] then multiset{}
    else if es[0].Exit? then AllRefs(es)
    else (if es[0].TcpSend? then multiset{} else EffectRefs(es[0])) + Unreleased(es[1..])
  }

  ghost function ReleasedRefs(es: seq<Effect>): multiset<Addr> {
    if es == [] || es[0].Exit? then multiset{}
    else (if es[0].TcpSend? then EffectRefs(es[0]) else multiset{}) + ReleasedRefs(es[1..])
  }

  lemma {:induction false} ReleasedOrNot(es: seq<Effect>)
    ensures AllRefs(es) == ReleasedRefs(es) + Unreleased(es)
  {
    hide EffectRefs;
    if es != [] && !es[0].Exit? {
      ReleasedOrNot(es[1..]);
    }
  }

  lemma OneEffectRefs(e: Effect)
    ensures Refs(AsValue(e)) == EffectRefs(e)
  {
    match e
    case TcpSend(id, data) => PayloadRefs(id, data);
    case WriteToFile(content, filename) =>
      hide Refs;
      assert [content, filename][1..] == [filename] && [filename][1..] == [];
      assert RefsAll([filename]) == Refs(filename) + RefsAll([]);
      assert RefsAll([content, filename]) == Refs(content) + RefsAll([filename]);
    case _ =>
  }

  lemma PayloadRefs(id: Id, data: Value)
    ensures Refs(SendPayload(id, data)) == Refs(data)
  {
    assert [Plain(id), data][1..] == [data] && [data][1..] == [];
    assert RefsAll([data]) == Refs(data) + RefsAll([]);
    assert RefsAll([Plain(id), data]) == Refs(Plain(id)) + RefsAll([data]);
  }

  lemma {:induction false} EffectsOwn(es: seq<Effect>)
    ensures RefsAll(AsValues(es)) == AllRefs(es)
  {
    if es != [] {
      EffectsOwn(es[1..]);
      OneEffectRefs(es[0]);
      hide Refs, EffectRefs, AsValue;
      assert AsValues(es)[1..] == AsValues(es[1..]);
    }
  }

  /** The host's sends are of plain byte lists. */
  ghost predicate SendFits(h: Heap, e: Effect) {
    e.TcpSend? ==> e.data.List? && !e.data.deep && Fits(h, e.data)
  }

  ghost predicate SendsFit(h: Heap, es: seq<Effect>) {
    forall i :: 0 <= i < |es| ==> SendFits(h, es[i])
  }

  lemma SendsFitShrinks(h: Heap, h': Heap, es: seq<Effect>)
    requires Shrinks(h, h') && SendsFit(h, es)
    ensures SendsFit(h', es)
  {
    hide Fits;
    ShrinksThins(h, h');
    forall i | 0 <= i < |es| ensures SendFits(h', es[i]) {
      assert SendFits(h, es[i]);
      if es[i].TcpSend? {
        FitsThins(h, h', es[i].data);
      }
    }
  }

  lemma ViewShrinks(h: Heap, h': Heap, v: Value)
    requires Shrinks(h, h') && v.List? && (v.alloc.At? ==> Holds(h', v.alloc.addr))
    ensures View(h', v) == View(h, v)
  {
    if v.alloc.At? {
      assert CellShrinks(h[v.alloc.addr], h'[v.alloc.addr]);
    }
  }

  // ----- the same, effect by effect -----

  /** The elements of the allocation that the list shows: `length` of them, from `start` on. */
  ghost predicate Elements(h: Heap, v: Value, items: seq<Value>)
    requires v.List?
  {
    match v.alloc
    case Null => items == []
    case At(a) =>
      && Holds(h, a) && v.start + v.length <= |h[a].items| && |items| == v.length
      && forall i :: 0 <= i < |items| ==> items[i] == h[a].items[v.start + i]
  }

  lemma ViewShows(h: Heap, v: Value)
    requires v.List? && Fits(h, v) && (v.alloc.At? ==> Holds(h, v.alloc.addr))
    ensures Elements(h, v, View(h, v))
  {
  }

  /** Effect i runs, and there is a handle for it. */
  predicate IsSent(es: seq<Effect>, ok: seq<bool>, writers: set<Id>, i: nat)
    requires |ok| == |es|
  {
    && i < |es| && es[i].TcpSend? && es[i].id in writers
    && forall j :: 0 <= j < i ==> !es[j].Exit? && !(es[j].TcpSend? && es[j].id == es[i].id && !ok[j])
  }

  /** These writes are of the effects at these places. */
  ghost predicate AreSent(h: Heap, es: seq<Effect>, ok: seq<bool>, writers: set<Id>, sent: seq<nat>,
                          writes: seq<(Id, seq<Value>)>)
    requires |ok| == |es|
  {
    AllSent(es, ok, writers, sent) && AllWritten(h, es, sent, writes)
  }

  /** The places of all effects that are sent, in order. */
  ghost predicate AllSent(es: seq<Effect>, ok: seq<bool>, writers: set<Id>, sent: seq<nat>)
    requires |ok| == |es|
  {
    && (forall j, k :: 0 <= j < k < |sent| ==> sent[j] < sent[k])
    && forall i: nat :: i in sent <==> IsSent(es, ok, writers, i)
  }

  ghost predicate AllWritten(h: Heap, es: seq<Effect>, sent: seq<nat>, writes: seq<(Id, seq<Value>)>) {
    |sent| == |writes| && forall k :: 0 <= k < |sent| ==> IsWrite(h, es, sent[k], writes[k])
  }

  ghost predicate IsWrite(h: Heap, es: seq<Effect>, i: nat, write: (Id, seq<Value>)) {
    && i < |es| && es[i].TcpSend? && write.0 == es[i].id
    && es[i].data.List? && Elements(h, es[i].data, write.1)
  }

  /** The first Exit stops everything, with its code. */
  predicate StopsAt(es: seq<Effect>, i: nat) {
    i < |es| && es[i].Exit? && forall j :: 0 <= j < i ==> !es[j].Exit?
  }

  lemma {:induction false} ExitExactly(es: seq<Effect>)
    ensures ExitCode(es) == None <==> forall i :: 0 <= i < |es| ==> !es[i].Exit?
    ensures forall i: nat :: StopsAt(es, i) ==> ExitCode(es) == Some(es[i].code)
  {
    if es != [] && !es[0].Exit? {
      ExitExactly(es[1..]);
      assert forall i :: 1 <= i < |es| ==> es[i] == es[1..][i - 1];
      forall i: nat | StopsAt(es, i) ensures ExitCode(es) == Some(es[i].code) {
        assert StopsAt(es[1..], i - 1);
      }
    }
  }

  /** The handles after one effect. */
  function HandlesLeft(e: Effect, ok: bool, writers: set<Id>): set<Id> {
    if e.TcpSend? && e.id in writers && !ok then writers - {e.id} else writers
  }

  /** What one effect changes for those after it. */
  lemma SentLater(es: seq<Effect>, ok: seq<bool>, writers: set<Id>, left: set<Id>, i: nat)
    requires |ok| == |es| && es != [] && !es[0].Exit?
    requires left == HandlesLeft(es[0], ok[0], writers)
    ensures IsSent(es, ok, writers, i + 1) <==> IsSent(es[1..], ok[1..], left, i)
  {
    if i + 1 < |es| {
      assert es[1..][i] == es[i + 1];
      assert forall j :: 0 <= j < i ==> es[1..][j] == es[j + 1] && ok[1..][j] == ok[j + 1];
      if IsSent(es[1..], ok[1..], left, i) {
        forall j | 0 <= j < i + 1 ensures !es[j].Exit? && !(es[j].TcpSend? && es[j].id == es[i + 1].id && !ok[j]) {
          assert j > 0 ==> es[j] == es[1..][j - 1];
        }
      }
    }
  }

  /** A handle is left exactly if there was one and no write to it failed. */
  lemma {:induction false} WritersLeftExactly(es: seq<Effect>, ok: seq<bool>, writers: set<Id>, id: Id)
    requires |ok| == |es|
    ensures id in WritersLeft(es, ok, writers) <==>
              id in writers && forall i: nat :: IsSent(es, ok, writers, i) && es[i].id == id ==> ok[i]
  {
    if es != [] && !es[0].Exit? {
      var left := HandlesLeft(es[0], ok[0], writers);
      WritersLeftExactly(es[1..], ok[1..], left, id);
      assert WritersLeft(es, ok, writers) == WritersLeft(es[1..], ok[1..], left);
      hide WritersLeft;
      forall i: nat ensures IsSent(es, ok, writers, i + 1) <==> IsSent(es[1..], ok[1..], left, i) {
        SentLater(es, ok, writers, left, i);
      }
      assert forall i: nat :: i + 1 < |es| ==> es[1..][i] == es[i + 1] && ok[1..][i] == ok[i + 1];
      assert es[0].TcpSend? && es[0].id == id && id in writers ==> IsSent(es, ok, writers, 0);
      hide IsSent;
    }
  }

  lemma NoneSent(es: seq<Effect>, ok: seq<bool>, writers: set<Id>)
    requires |ok| == |es| && (es == [] || es[0].Exit?)
    ensures forall i: nat :: !IsSent(es, ok, writers, i)
  {
  }

  /** Which writes there are, and of what. */
  lemma {:induction false} WritesExactly(h: Heap, es: seq<Effect>, ok: seq<bool>, writers: set<Id>)
    returns (sent: seq<nat>)
    requires |ok| == |es| && SendsFit(h, es) && forall b <- ReleasedRefs(es) :: Holds(h, b)
    ensures AreSent(h, es, ok, writers, sent, Writes(h, es, ok, writers))
  {
    sent := [];
    if es == [] || es[0].Exit? {
      NoneSent(es, ok, writers);
    } else {
      var left := HandlesLeft(es[0], ok[0], writers);
      RestFits(h, es);
      var later := WritesExactly(h, es[1..], ok[1..], left);
      var sends := es[0].TcpSend? && es[0].id in writers;
      assert IsSent(es, ok, writers, 0) <==> sends;
      WritesNext(h, es, ok, writers);
      sent := (if sends then [0] else []) + Later(later);
      hide Writes, ReleasedRefs, SendsFit, IsSent, AllSent, AllWritten, View;
      SentNext(h, es, ok, writers, left, later, sent);
    }
  }

  function Later(ks: seq<nat>): seq<nat> {
    seq(|ks|, k requires 0 <= k < |ks| => ks[k] + 1)
  }

  lemma RestFits(h: Heap, es: seq<Effect>)
    requires es != [] && !es[0].Exit? && SendsFit(h, es) && forall b <- ReleasedRefs(es) :: Holds(h, b)
    ensures SendsFit(h, es[1..]) && forall b <- ReleasedRefs(es[1..]) :: Holds(h, b)
    ensures es[0].TcpSend? ==> es[0].data.List? && Elements(h, es[0].data, View(h, es[0].data))
  {
    assert SendFits(h, es[0]);
    assert forall i :: 0 <= i < |es[1..]| ==> es[1..][i] == es[i + 1];
    if es[0].TcpSend? {
      SplitStatic(h, es);
      ViewShows(h, es[0].data);
    }
  }

  lemma WritesNext(h: Heap, es: seq<Effect>, ok: seq<bool>, writers: set<Id>)
    requires |ok| == |es| && es != [] && !es[0].Exit?
    ensures var left := HandlesLeft(es[0], ok[0], writers);
            Writes(h, es, ok, writers) ==
            (if es[0].TcpSend? && es[0].id in writers then [(es[0].id, View(h, es[0].data))] else []) +
            Writes(h, es[1..], ok[1..], left)
  {
  }

  lemma SentNext(h: Heap, es: seq<Effect>, ok: seq<bool>, writers: set<Id>, left: set<Id>, later: seq<nat>,
                 sent: seq<nat>)
    requires |ok| == |es| && es != [] && !es[0].Exit?
    requires left == HandlesLeft(es[0], ok[0], writers)
    requires AreSent(h, es[1..], ok[1..], left, later, Writes(h, es[1..], ok[1..], left))
    requires es[0].TcpSend? ==> es[0].data.List? && Elements(h, es[0].data, View(h, es[0].data))
    requires sent == (if es[0].TcpSend? && es[0].id in writers then [0] else []) + Later(later)
    ensures AreSent(h, es, ok, writers, sent, Writes(h, es, ok, writers))
  {
    WritesNext(h, es, ok, writers);
    hide Writes, View, Elements, SendsFit, AllSent, AllWritten, IsSent, HandlesLeft;
    var first := es[0].TcpSend? && es[0].id in writers;
    SentPlaces(es, ok, writers, left, later, first);
    AllLater(h, es, later, first, sent, Writes(h, es[1..], ok[1..], left), Writes(h, es, ok, writers));
  }

  lemma SentPlaces(es: seq<Effect>, ok: seq<bool>, writers: set<Id>, left: set<Id>, later: seq<nat>, first: bool)
    requires |ok| == |es| && es != [] && !es[0].Exit?
    requires left == HandlesLeft(es[0], ok[0], writers) && AllSent(es[1..], ok[1..], left, later)
    requires first == (es[0].TcpSend? && es[0].id in writers)
    ensures AllSent(es, ok, writers, (if first then [0] else []) + Later(later))
  {
    var sent := (if first then [0] else []) + Later(later);
    assert IsSent(es, ok, writers, 0) <==> first;
    hide IsSent, HandlesLeft;
    forall i: nat ensures i in sent <==> IsSent(es, ok, writers, i) {
      if i > 0 {
        SentLater(es, ok, writers, left, i - 1);
      }
      InLater(later, first, i);
    }
  }

  lemma AllLater(h: Heap, es: seq<Effect>, later: seq<nat>, first: bool, sent: seq<nat>,
                 rest: seq<(Id, seq<Value>)>, writes: seq<(Id, seq<Value>)>)
    requires es != [] && sent == (if first then [0] else []) + Later(later) && AllWritten(h, es[1..], later, rest)
    requires first ==> es[0].TcpSend? && es[0].data.List? && Elements(h, es[0].data, View(h, es[0].data))
    requires writes == (if first then [(es[0].id, View(h, es[0].data))] else []) + rest
    ensures AllWritten(h, es, sent, writes)
  {
    hide View, Elements, IsWrite;
    forall k | 0 <= k < |sent| ensures IsWrite(h, es, sent[k], writes[k]) {
      LaterWrite(h, es, later, first, sent, rest, writes, k);
    }
  }

  lemma InLater(later: seq<nat>, first: bool, i: nat)
    ensures i in (if first then [0] else []) + Later(later) <==> if i == 0 then first else i - 1 in later
  {
    if i > 0 && i - 1 in later {
      var k :| 0 <= k < |later| && later[k] == i - 1;
      assert Later(later)[k] == i;
    }
  }

  lemma LaterWrite(h: Heap, es: seq<Effect>, later: seq<nat>, first: bool, sent: seq<nat>,
                   rest: seq<(Id, seq<Value>)>, writes: seq<(Id, seq<Value>)>, k: nat)
    requires es != [] && sent == (if first then [0] else []) + Later(later) && k < |sent|
    requires |rest| == |later| && forall j :: 0 <= j < |later| ==> IsWrite(h, es[1..], later[j], rest[j])
    requires first ==> es[0].TcpSend? && es[0].data.List? && Elements(h, es[0].data, View(h, es[0].data))
    requires writes == (if first then [(es[0].id, View(h, es[0].data))] else []) + rest
    ensures IsWrite(h, es, sent[k], writes[k])
  {
    hide View, Elements;
    var n := if first then 1 else 0;
    if k >= n {
      assert IsWrite(h, es[1..], later[k - n], rest[k - n]);
    }
  }

  /** What came of the effects, told without running them: which Exit if any, which handles
      are left, and which elements of which buffers were written, in which order. */
  ghost predicate AsAsked(h: Heap, es: seq<Effect>, ok: seq<bool>, writers: set<Id>, exit: Option<nat>,
                          left: set<Id>, writes: seq<(Id, seq<Value>)>)
    requires |ok| == |es|
  {
    && (exit == None <==> forall i :: 0 <= i < |es| ==> !es[i].Exit?)
    && (forall i: nat :: StopsAt(es, i) ==> exit == Some(es[i].code))
    && (forall id: Id :: id in left <==>
          id in writers && forall i: nat :: IsSent(es, ok, writers, i) && es[i].id == id ==> ok[i])
    && exists sent: seq<nat> :: AreSent(h, es, ok, writers, sent, writes)
  }

  lemma ComesAsAsked(h: Heap, es: seq<Effect>, ok: seq<bool>, writers: set<Id>, zombies: set<Addr>,
                     roots: multiset<Addr>)
    requires |ok| == |es| && SendsFit(h, es) && Accounted(h, zombies, roots + ReleasedRefs(es))
    ensures AsAsked(h, es, ok, writers, ExitCode(es), WritersLeft(es, ok, writers), Writes(h, es, ok, writers))
  {
    forall b <- ReleasedRefs(es) ensures Holds(h, b) {
      assert b in roots + ReleasedRefs(es);
      OwnedIsLive(h, zombies, roots + ReleasedRefs(es), b);
    }
    ExitExactly(es);
    hide Accounted, ExitCode, WritersLeft, IsSent, AreSent, StopsAt, SendsFit, Writes;
    forall id: Id ensures id in WritersLeft(es, ok, writers) <==>
        id in writers && forall i: nat :: IsSent(es, ok, writers, i) && es[i].id == id ==> ok[i] {
      WritersLeftExactly(es, ok, writers, id);
    }
    var sent := WritesExactly(h, es, ok, writers);
  }

  /** How many effects run. */
  function Executed(es: seq<Effect>): (n: nat)
    ensures n <= |es| && (n < |es| ==> es[n].Exit?)
    ensures forall i :: 0 <= i < n ==> !es[i].Exit?
  {
    if es == [] || es[0].Exit? then 0
    else
      assert forall i :: 0 <= i < |es| - 1 ==> es[i + 1] == es[1..][i];
      var n := Executed(es[1..]);
      assert forall i :: 1 <= i < n + 1 ==> es[i] == es[1..][i - 1];
      1 + n
  }

  /** The heap once the sends before an Exit have each dropped a reference; None if one of
      them would have touched a freed buffer. */
  ghost function AfterSends(h: Heap, es: seq<Effect>): Option<Heap>
    decreases |es|
  {
    if es == [] || es[0].Exit? then Some(h)
    else if es[0].TcpSend? && es[0].data.List? && es[0].data.alloc.At? then
      var a := es[0].data.alloc.addr;
      if Holds(h, a) then AfterSends(AfterDecref(h, At(a)), es[1..]) else None
    else AfterSends(h, es[1..])
  }

  /** The references the next effects release, split at the one that runs now. */
  lemma NextEffect(roots: multiset<Addr>, es: seq<Effect>)
    requires es != [] && !es[0].Exit?
    ensures es[0].TcpSend? ==> roots + ReleasedRefs(es) == roots + ReleasedRefs(es[1..]) + Refs(es[0].data)
    ensures !es[0].TcpSend? ==> roots + ReleasedRefs(es) == roots + ReleasedRefs(es[1..])
    ensures Executed(es) == 1 + Executed(es[1..])
  {
    hide Refs;
  }

  /** What an effect does to the heap, and what it leaves to do. */
  lemma NextHeap(h: Heap, es: seq<Effect>)
    requires es != [] && !es[0].Exit? && SendFits(h, es[0])
    requires es[0].TcpSend? && es[0].data.alloc.At? ==> Holds(h, es[0].data.alloc.addr)
    ensures AfterSends(h, es) == AfterSends(if es[0].TcpSend? then AfterDecref(h, es[0].data.alloc) else h, es[1..])
  {
  }

  /** What the reference definitions say about a list whose head is not an Exit. */
  lemma NextStep(h: Heap, es: seq<Effect>, ok: seq<bool>, writers: set<Id>, i: nat)
    requires |ok| == |es| && i < |es|
    ensures es[i..][0] == es[i] && es[i..][1..] == es[i + 1..]
    ensures var e, sends := es[i], es[i].TcpSend? && es[i].id in writers;
            var left := if sends && !ok[i] then writers - {e.id} else writers;
            if e.Exit? then
              ExitCode(es[i..]) == Some(e.code) && Writes(h, es[i..], ok[i..], writers) == [] &&
                WritersLeft(es[i..], ok[i..], writers) == writers
            else
              && ExitCode(es[i..]) == ExitCode(es[i + 1..])
              && WritersLeft(es[i..], ok[i..], writers) == WritersLeft(es[i + 1..], ok[i + 1..], left)
              && Writes(h, es[i..], ok[i..], writers) ==
                 (if sends then [(e.id, View(h, e.data))] else []) + Writes(h, es[i + 1..], ok[i + 1..], left)
  {
    assert ok[i..][0] == ok[i] && ok[i..][1..] == ok[i + 1..] && es[i..][1..] == es[i + 1..];
  }

  lemma NoSends(h: Heap)
    ensures AfterSends(h, []) == Some(h)
  {
  }

  lemma StopAtExit(h: Heap, es: seq<Effect>)
    requires es == [] || es[0].Exit?
    ensures ReleasedRefs(es) == multiset{} && Executed(es) == 0 && AfterSends(h, es) == Some(h)
  {
  }

  /** A heap for every point of the loop: after i effects, what the rest will release is
      still owned, on top of `roots`, and the heap is what their sends have made of the first. */
  ghost predicate Stages(stages: seq<Heap>, es: seq<Effect>, zombies: set<Addr>, roots: multiset<Addr>) {
    && 0 < |stages| <= |es| + 1 && (forall i :: 0 <= i < |stages| - 1 ==> !es[i].Exit?)
    && forall i :: 0 <= i < |stages| ==> Stage(stages[0], stages[i], es, i, zombies, roots)
  }

  ghost predicate Stage(first: Heap, h: Heap, es: seq<Effect>, i: nat, zombies: set<Addr>, roots: multiset<Addr>)
    requires i <= |es|
  {
    && Accounted(h, zombies, roots + ReleasedRefs(es[i..])) && Releases(first, h, zombies)
    && AfterSends(first, es[..i]) == Some(h)
  }

  lemma StagesGrow(stages: seq<Heap>, h: Heap, es: seq<Effect>, zombies: set<Addr>, roots: multiset<Addr>)
    requires Stages(stages, es, zombies, roots) && |stages| <= |es| && !es[|stages| - 1].Exit?
    requires Accounted(h, zombies, roots + ReleasedRefs(es[|stages|..])) && Releases(stages[0], h, zombies)
    requires AfterSends(stages[|stages| - 1], [es[|stages| - 1]]) == Some(h)
    ensures Stages(stages + [h], es, zombies, roots)
  {
    hide Accounted, Releases, ReleasedRefs, AfterSends;
    var n := |stages| - 1;
    assert Stage(stages[0], stages[n], es, n, zombies, roots);
    assert es[..n + 1] == es[..n] + [es[n]];
    AfterSendsAppend(stages[0], es[..n], es[n]);
    assert Stage(stages[0], h, es, n + 1, zombies, roots);
    hide Stage;
  }

  lemma {:induction false} AfterSendsAppend(h: Heap, es: seq<Effect>, e: Effect)
    requires AfterSends(h, es).Some? && forall i :: 0 <= i < |es| ==> !es[i].Exit?
    ensures AfterSends(h, es + [e]) == AfterSends(AfterSends(h, es).value, [e])
    decreases |es|
  {
    if es == [] {
      assert es + [e] == [e];
    } else {
      assert (es + [e])[1..] == es[1..] + [e] && (es + [e])[0] == es[0];
      var next :=
        if es[0].TcpSend? && es[0].data.List? && es[0].data.alloc.At? then AfterDecref(h, es[0].data.alloc) else h;
      assert forall i :: 0 <= i < |es[1..]| ==> es[1..][i] == es[i + 1];
      AfterSendsAppend(next, es[1..], e);
      hide AfterDecref;
    }
  }

  class Host {
    const heap: RocHeap
    const tcp: HostLoop.TcpState
    ghost var written: seq<(Id, seq<Value>)>  // every write attempted, in order

    constructor (heap: RocHeap, tcp: HostLoop.TcpState)
      ensures this.heap == heap && this.tcp == tcp && written == []
    {
      this.heap := heap;
      this.tcp := tcp;
      written := [];
    }

    /** `as_slice`: reads the buffer, so it must be live. */
    method ReadBuffer(v: Value) returns (items: seq<Value>)
      requires v.List? && Fits(heap.cells, v) && (v.alloc.At? ==> Holds(heap.cells, v.alloc.addr))
      ensures items == View(heap.cells, v) && Elements(heap.cells, v, items)
    {
      if v.alloc.Null? {
        return [];
      }
      items := heap.cells[v.alloc.addr].items[v.start..v.start + v.length];
    }

    /** One TcpSend: write if there is a handle, drop the handle if that fails, and give
        up the reference to the buffer in every case. */
    method SendOne(e: Effect, ok: bool, ghost zombies: set<Addr>, ghost roots: multiset<Addr>, ghost rank: Addr -> nat)
      requires e.TcpSend? && SendFits(heap.cells, e) && (tcp.writers != {} ==> tcp.hasTcp)
      requires heap.Ready(zombies, roots + Refs(e.data), rank)
      modifies tcp`writers, this`written, heap
      ensures heap.Ready(zombies, roots, rank) && Releases(old(heap.cells), heap.cells, zombies)
      ensures var sends := e.id in old(tcp.writers);
              && written == old(written) + (if sends then [(e.id, View(old(heap.cells), e.data))] else [])
              && tcp.writers == if sends && !ok then old(tcp.writers) - {e.id} else old(tcp.writers)
      ensures e.id in old(tcp.writers) ==> Elements(old(heap.cells), e.data, written[|written| - 1].1)
      ensures e.data.alloc.At? ==> Holds(old(heap.cells), e.data.alloc.addr)
      ensures heap.cells == AfterDecref(old(heap.cells), e.data.alloc)
    {
      hide Fits, Accounted, HeapOk, Ranked, AfterDecref;
      if e.data.alloc.At? {
        assert e.data.alloc.addr in roots + Refs(e.data);
        OwnedIsLive(heap.cells, zombies, roots + Refs(e.data), e.data.alloc.addr);
      }
      if tcp.hasTcp {
        if e.id in tcp.writers {
          var items := ReadBuffer(e.data);
          written := written + [(e.id, items)];
          if !ok {
            tcp.writers := tcp.writers - {e.id};
          }
        }
      }
      DropPayload(e.id, e.data, zombies, roots, rank);
    }

    /** `payload.decref`: the stream holds nothing, the data is a list of bytes. */
    method DropPayload(id: Id, data: Value, ghost zombies: set<Addr>, ghost roots: multiset<Addr>,
                       ghost rank: Addr -> nat)
      requires data.List? && !data.deep && Fits(heap.cells, data) && heap.Ready(zombies, roots + Refs(data), rank)
      modifies heap
      ensures heap.Ready(zombies, roots, rank) && Releases(old(heap.cells), heap.cells, zombies)
      ensures data.alloc.At? ==> Holds(old(heap.cells), data.alloc.addr)
      ensures heap.cells == AfterDecref(old(heap.cells), data.alloc)
    {
      hide Accounted, HeapOk, Ranked, AfterDecref;
      heap.DecrefFlat(data.alloc, zombies, roots, rank);
    }

    /** Runs the effects in order up to an Exit.  The sockets see what the effects say, in
        terms of the heap as it was; the sent buffers' references, and no others, are given
        up, each at its own effect. */
    method HandleEffects(es: seq<Effect>, ok: seq<bool>, ghost zombies: set<Addr>, ghost roots: multiset<Addr>,
                         ghost rank: Addr -> nat)
      returns (exit: Option<nat>, ghost stages: seq<Heap>)
      requires |ok| == |es| && SendsFit(heap.cells, es) && (tcp.writers != {} ==> tcp.hasTcp)
      requires heap.Ready(zombies, roots + ReleasedRefs(es), rank)
      modifies tcp`writers, this`written, heap
      ensures heap.Ready(zombies, roots, rank) && Releases(old(heap.cells), heap.cells, zombies)
      ensures exit == ExitCode(es)
      ensures written == old(written) + Writes(old(heap.cells), es, ok, old(tcp.writers))
      ensures AsAsked(old(heap.cells), es, ok, old(tcp.writers), exit, tcp.writers, written[|old(written)|..])
      ensures tcp.writers == WritersLeft(es, ok, old(tcp.writers)) && (tcp.writers != {} ==> tcp.hasTcp)
      ensures AfterSends(old(heap.cells), es) == Some(heap.cells)
      ensures Stages(stages, es, zombies, roots) && |stages| == Executed(es) + 1
      ensures stages[0] == old(heap.cells) && stages[Executed(es)] == heap.cells
    {
      ghost var start, written0, w0 := heap.cells, written, tcp.writers;
      ComesAsAsked(start, es, ok, w0, zombies, roots);
      hide Running, Stages, Executed, AfterSends, AsAsked, Accounted, Ranked, HeapOk;
      StartRunning(es, ok, zombies, roots, rank);
      var i := 0;
      stages := [start];
      while i < |es|
        invariant 0 <= i <= |es|
        invariant Running(start, stages, es, ok, i, zombies, roots, rank, written0, w0)
      {
        if es[i].Exit? {
          StopRunning(start, stages, es, ok, i, zombies, roots, rank, written0, w0);
          exit := Some(es[i].code);
          return;
        }
        stages := RunOne(start, stages, es, ok, i, zombies, roots, rank, written0, w0);
        i := i + 1;
      }
      StopRunning(start, stages, es, ok, i, zombies, roots, rank, written0, w0);
      exit := None;
    }

    /** Where the loop stands after i effects: what remains to be written, released and
        dropped completes the whole. */
    ghost predicate Running(start: Heap, stages: seq<Heap>, es: seq<Effect>, ok: seq<bool>, i: nat, zombies: set<Addr>,
                            roots: multiset<Addr>, rank: Addr -> nat, written0: seq<(Id, seq<Value>)>, w0: set<Id>)
      requires |ok| == |es| && i <= |es|
      reads this, heap, tcp
    {
      && heap.Ready(zombies, roots + ReleasedRefs(es[i..]), rank) && Releases(start, heap.cells, zombies)
      && SendsFit(heap.cells, es) && (tcp.writers != {} ==> tcp.hasTcp)
      && ExitCode(es[i..]) == ExitCode(es)
      && written + Writes(start, es[i..], ok[i..], tcp.writers) == written0 + Writes(start, es, ok, w0)
      && WritersLeft(es[i..], ok[i..], tcp.writers) == WritersLeft(es, ok, w0)
      && AfterSends(heap.cells, es[i..]) == AfterSends(start, es) && i + Executed(es[i..]) == Executed(es)
      && Stages(stages, es, zombies, roots) && |stages| == i + 1 && stages[0] == start && stages[i] == heap.cells
    }

    lemma StartRunning(es: seq<Effect>, ok: seq<bool>, zombies: set<Addr>, roots: multiset<Addr>, rank: Addr -> nat)
      requires |ok| == |es| && SendsFit(heap.cells, es) && (tcp.writers != {} ==> tcp.hasTcp)
      requires heap.Ready(zombies, roots + ReleasedRefs(es), rank)
      ensures Running(heap.cells, [heap.cells], es, ok, 0, zombies, roots, rank, written, tcp.writers)
    {
      hide Accounted, HeapOk, Ranked, ReleasedRefs, SendsFit, Shrinks, AfterSends, Executed, Writes, WritersLeft,
           ExitCode;
      assert es[0..] == es && ok[0..] == ok && es[..0] == [];
      NoSends(heap.cells);
      Untouched(zombies, roots + ReleasedRefs(es), rank);
    }

    lemma StopRunning(start: Heap, stages: seq<Heap>, es: seq<Effect>, ok: seq<bool>, i: nat, zombies: set<Addr>,
                      roots: multiset<Addr>, rank: Addr -> nat, written0: seq<(Id, seq<Value>)>, w0: set<Id>)
      requires |ok| == |es| && i <= |es| && (i < |es| ==> es[i].Exit?)
      requires Running(start, stages, es, ok, i, zombies, roots, rank, written0, w0)
      ensures heap.Ready(zombies, roots, rank) && Releases(start, heap.cells, zombies) &&
              (tcp.writers != {} ==> tcp.hasTcp)
      ensures ExitCode(es) == if i < |es| then Some(es[i].code) else None
      ensures written == written0 + Writes(start, es, ok, w0) && tcp.writers == WritersLeft(es, ok, w0)
      ensures AfterSends(start, es) == Some(heap.cells) && i == Executed(es)
      ensures Stages(stages, es, zombies, roots) && |stages| == i + 1 && stages[0] == start && stages[i] == heap.cells
    {
      StopAtExit(heap.cells, es[i..]);
      hide Accounted, HeapOk, Ranked, ReleasedRefs, SendsFit, Shrinks, Releases, AfterSends, Executed, Stages;
      assert roots + multiset{} == roots;
    }

    /** One effect that is not an Exit. */
    method RunOne(ghost start: Heap, ghost stages: seq<Heap>, es: seq<Effect>, ok: seq<bool>, i: nat,
                  ghost zombies: set<Addr>,
                  ghost roots: multiset<Addr>, ghost rank: Addr -> nat, ghost written0: seq<(Id, seq<Value>)>,
                  ghost w0: set<Id>)
      returns (ghost stages': seq<Heap>)
      requires |ok| == |es| && i < |es| && !es[i].Exit?
      requires Running(start, stages, es, ok, i, zombies, roots, rank, written0, w0)
      modifies tcp`writers, this`written, heap
      ensures Running(start, stages', es, ok, i + 1, zombies, roots, rank, written0, w0)
    {
      hide Fits, Accounted, HeapOk, Ranked, Refs, EffectRefs, Shrinks, ReleasedRefs, View, SendsFit, Releases;
      hide AfterSends, Executed, AfterDecref, Stages;
      NextStep(start, es, ok, tcp.writers, i);
      NextEffect(roots, es[i..]);
      hide Writes, WritersLeft, ExitCode;
      ghost var before := heap.cells;
      SendFitsAt(before, es, i);
      if es[i].TcpSend? {
        SendStep(es[i], ok[i], es, zombies, roots + ReleasedRefs(es[i + 1..]), rank, start);
      }
      NextHeap(before, es[i..]);
      NextHeap(before, [es[i]]);
      assert [es[i]][1..] == [];
      NoSends(heap.cells);
      StagesGrow(stages, heap.cells, es, zombies, roots);
      stages' := stages + [heap.cells];
    }

    lemma SendFitsAt(h: Heap, es: seq<Effect>, i: nat)
      requires SendsFit(h, es) && i < |es|
      ensures SendFits(h, es[i])
    {
    }

    lemma Untouched(zombies: set<Addr>, roots: multiset<Addr>, rank: Addr -> nat)
      requires heap.Ready(zombies, roots, rank)
      ensures Releases(heap.cells, heap.cells, zombies)
    {
      NothingReleased(heap.cells, zombies, roots);
    }

    /** SendOne, seen from the heap the whole call started with. */
    method SendStep(e: Effect, ok: bool, ghost es: seq<Effect>, ghost zombies: set<Addr>, ghost roots: multiset<Addr>,
                    ghost rank: Addr -> nat, ghost start: Heap)
      requires e in es && e.TcpSend? && SendsFit(heap.cells, es) && (tcp.writers != {} ==> tcp.hasTcp)
      requires heap.Ready(zombies, roots + Refs(e.data), rank) && Releases(start, heap.cells, zombies)
      modifies tcp`writers, this`written, heap
      ensures heap.Ready(zombies, roots, rank) && Releases(start, heap.cells, zombies) && SendsFit(heap.cells, es)
      ensures var sends := e.id in old(tcp.writers);
              && written == old(written) + (if sends then [(e.id, View(start, e.data))] else [])
              && tcp.writers == if sends && !ok then old(tcp.writers) - {e.id} else old(tcp.writers)
      ensures e.data.alloc.At? ==> Holds(old(heap.cells), e.data.alloc.addr)
      ensures heap.cells == AfterDecref(old(heap.cells), e.data.alloc)
    {
      hide Fits, Accounted, HeapOk, Ranked, Shrinks, View, AfterDecref;
      assert SendFits(heap.cells, e);
      if e.data.alloc.At? {
        assert e.data.alloc.addr in roots + Refs(e.data);
        OwnedIsLive(heap.cells, zombies, roots + Refs(e.data), e.data.alloc.addr);
      }
      ViewShrinks(start, heap.cells, e.data);
      ghost var before := heap.cells;
      SendOne(e, ok, zombies, roots, rank);
      ReleasesTrans(start, before, heap.cells, zombies);
      SendsFitShrinks(before, heap.cells, es);
    }

    /** Effects as the application hands them over: a list, or a slice of one, that the host
        never releases.  The sends give up references that the list's elements hold.  If the
        host is the only owner, it takes over those elements and the list stays behind,
        drained; if somebody else still holds the list, only static buffers may be sent. */
    method RunEffectList(v: Value, es: seq<Effect>, ok: seq<bool>, ghost zombies: set<Addr>,
                         ghost roots: multiset<Addr>, ghost rank: Addr -> nat)
      returns (exit: Option<nat>, ghost drained: set<Addr>)
      requires v.List? && v.deep && |ok| == |es| && SendsFit(heap.cells, es) && (tcp.writers != {} ==> tcp.hasTcp)
      requires heap.Ready(zombies, roots + Refs(v), rank) && ShowsEffects(heap.cells, v, es)
      requires Drainable(heap.cells, v) || SendsStatic(heap.cells, es)
      modifies tcp`writers, this`written, heap
      ensures exit == ExitCode(es)
      ensures written == old(written) + Writes(old(heap.cells), es, ok, old(tcp.writers))
      ensures AsAsked(old(heap.cells), es, ok, old(tcp.writers), exit, tcp.writers, written[|old(written)|..])
      ensures tcp.writers == WritersLeft(es, ok, old(tcp.writers)) && (tcp.writers != {} ==> tcp.hasTcp)
      ensures drained == if Drainable(old(heap.cells), v) then {v.alloc.addr} else {}
      ensures heap.Ready(zombies + drained, roots + ListRest(old(heap.cells), v, es), rank)
      ensures Releases(old(heap.cells), heap.cells, zombies)
      ensures AfterSends(old(heap.cells), es) == Some(heap.cells)
    {
      hide Accounted, HeapOk, Ranked, Fits, AllRefs, ReleasedRefs, Writes, WritersLeft, ExitCode, SendsFit, Shrinks;
      hide RefsAll, AsValues, AfterSends, Stages;
      drained := {};
      ghost var start, kept := heap.cells, roots + ListRest(heap.cells, v, es);
      if v.alloc.At? {
        OwnedIsLive(start, zombies, roots + Refs(v), v.alloc.addr);
        SentIsHeld(start, v, es);
      }
      if Drainable(start, v) {
        drained := {v.alloc.addr};
        BeginDrop(start, zombies, roots, rank, v.alloc.addr, 1);
        assert SetCount(start, v.alloc.addr, 1) == start;
        KeepRest(roots, RefsAll(start[v.alloc.addr].items), ReleasedRefs(es));
      } else {
        StaticSends(start, zombies, roots, v, es);
        assert zombies + drained == zombies;
      }
      ghost var stages;
      exit, stages := HandleEffects(es, ok, zombies + drained, kept, rank);
      FewerZombies(start, heap.cells, zombies, drained);
    }

    /** Runs effects some of which send one buffer that nothing else refers to.  The buffer
        is live, with the number of its sends still to come as its count, until there are
        none; it is freed at the last of them and at no other point.  Sends after an Exit
        never come, and keep it live. */
    method HandleBroadcast(es: seq<Effect>, ok: seq<bool>, ghost a: Addr, ghost zombies: set<Addr>,
                           ghost roots: multiset<Addr>,
                           ghost rank: Addr -> nat)
      returns (exit: Option<nat>, ghost stages: seq<Heap>)
      requires |ok| == |es| && SendsFit(heap.cells, es) && (tcp.writers != {} ==> tcp.hasTcp)
      requires heap.Ready(zombies, roots + AllRefs(es), rank)
      requires OnlySent(heap.cells, zombies, roots, es, a)
      modifies tcp`writers, this`written, heap
      ensures exit == ExitCode(es) && heap.Ready(zombies, roots + Unreleased(es), rank)
      ensures |stages| == Executed(es) + 1 && stages[0] == old(heap.cells) && stages[Executed(es)] == heap.cells
      ensures forall i :: 0 <= i < |stages| ==> a < |stages[i]| && CountsSends(stages[i][a], Sends(es[i..], a))
    {
      hide Accounted, HeapOk, Ranked, AllRefs, ReleasedRefs, Unreleased, SendsFit, Stages, Executed, AfterSends;
      hide OnlySent, Writes, WritersLeft, ExitCode;
      Reorder(roots, es);
      exit, stages := HandleEffects(es, ok, zombies, roots + Unreleased(es), rank);
      forall i | 0 <= i < |stages| ensures a < |stages[i]| && CountsSends(stages[i][a], Sends(es[i..], a)) {
        BroadcastBuffer(stages, es, a, zombies, roots, i);
      }
    }
  }

  /** The effects are what the list shows. */
  ghost predicate ShowsEffects(h: Heap, v: Value, es: seq<Effect>) {
    v.List? && match v.alloc
    case Null => es == []
    case At(a) =>
      Holds(h, a) && v.start + v.length <= |h[a].items| && h[a].items[v.start..v.start + v.length] == AsValues(es)
  }

  /** The list shows its effects from `start` on, each with its tag and payload. */
  lemma ShowsEachEffect(h: Heap, v: Value, es: seq<Effect>)
    requires ShowsEffects(h, v, es) && v.alloc.At?
    ensures |es| == v.length && v.start + |es| <= |h[v.alloc.addr].items|
    ensures forall i :: 0 <= i < |es| ==>
              var item := h[v.alloc.addr].items[v.start + i];
              match es[i]
              case Exit(code) => item == Variant(0, Plain(code))
              case Print(text) => item == Variant(1, text)
              case TcpSend(id, data) => item == Variant(2, Struct([Plain(id), data]))
              case WriteToFile(content, filename) => item == Variant(3, Struct([content, filename]))
  {
    EachValue(es);
    var items := h[v.alloc.addr].items;
    forall i | 0 <= i < |es| ensures items[v.start + i] == AsValue(es[i]) {
      assert items[v.start..v.start + v.length][i] == items[v.start + i];
    }
  }

  lemma {:induction false} EachValue(es: seq<Effect>)
    ensures |AsValues(es)| == |es| && forall i :: 0 <= i < |es| ==> AsValues(es)[i] == AsValue(es[i])
  {
    if es != [] {
      EachValue(es[1..]);
      hide AsValue;
      assert forall i :: 1 <= i < |es| ==> es[i] == es[1..][i - 1];
    }
  }

  /** One owner only. */
  ghost predicate Drainable(h: Heap, v: Value) {
    v.List? && v.alloc.At? && Holds(h, v.alloc.addr) && h[v.alloc.addr].count == 1
  }

  /** Every buffer sent before an Exit is static data. */
  ghost predicate SendsStatic(h: Heap, es: seq<Effect>) {
    forall b <- ReleasedRefs(es) :: Holds(h, b) && h[b].count == 0
  }

  /** What the host is left with instead of the list: its own reference to it, or, if it was
      the only owner, the references in the elements that were not given up. */
  ghost function ListRest(h: Heap, v: Value, es: seq<Effect>): multiset<Addr> {
    if Drainable(h, v) then RefsAll(h[v.alloc.addr].items) - ReleasedRefs(es) else Refs(v)
  }

  lemma SentIsHeld(h: Heap, v: Value, es: seq<Effect>)
    requires ShowsEffects(h, v, es) && v.alloc.At?
    ensures ReleasedRefs(es) <= RefsAll(h[v.alloc.addr].items)
  {
    var items, i, n := h[v.alloc.addr].items, v.start, v.start + v.length;
    EffectsOwn(es);
    ReleasedOrNot(es);
    hide RefsAll, ReleasedRefs, AllRefs, AsValues, Unreleased;
    PartRefs(items, i, n);
  }

  lemma PartRefs(items: seq<Value>, i: nat, n: nat)
    requires i <= n <= |items|
    ensures RefsAll(items[i..n]) <= RefsAll(items)
  {
    hide RefsAll;
    MiddleRefs(items[..i], items[i..n], items[n..]);
    assert items == items[..i] + items[i..n] + items[n..];
  }

  lemma MiddleRefs(x: seq<Value>, y: seq<Value>, z: seq<Value>)
    ensures RefsAll(y) <= RefsAll(x + y + z)
  {
    hide RefsAll;
    RefsAllAppend(x, y);
    RefsAllAppend(x + y, z);
  }

  lemma KeepRest(roots: multiset<Addr>, all: multiset<Addr>, released: multiset<Addr>)
    requires released <= all
    ensures roots + all == roots + (all - released) + released
  {
  }

  lemma Reorder(roots: multiset<Addr>, es: seq<Effect>)
    ensures roots + AllRefs(es) == roots + Unreleased(es) + ReleasedRefs(es)
  {
    ReleasedOrNot(es);
    hide AllRefs, Unreleased, ReleasedRefs;
  }

  /** Owning static data on top costs nothing. */
  lemma StaticExtra(h: Heap, zombies: set<Addr>, roots: multiset<Addr>, items: multiset<Addr>)
    requires Accounted(h, zombies, roots) && forall b <- items :: IsStatic(h, zombies, b)
    ensures Accounted(h, zombies, roots + items)
  {
    var all, all' := Everything(h, zombies, roots), Everything(h, zombies, roots + items);
    forall b: Addr ensures all'[b] == all[b] + items[b] {
    }
    hide StaticClosed, Everything;
    forall b | b in all' ensures Holds(h, b) && b !in zombies {
      assert b in all || b in items;
      assert b in items ==> IsStatic(h, zombies, b);
    }
    forall b: Addr | Holds(h, b) && b !in zombies && h[b].count > 0 ensures h[b].count == all'[b] {
      assert b in items ==> IsStatic(h, zombies, b);
    }
  }

  /** A list that is not drained: its owners keep it, and what is sent is static. */
  lemma StaticSends(h: Heap, zombies: set<Addr>, roots: multiset<Addr>, v: Value, es: seq<Effect>)
    requires Accounted(h, zombies, roots + Refs(v)) && ShowsEffects(h, v, es) && SendsStatic(h, es)
    requires v.alloc.At? ==> v.alloc.addr !in zombies
    ensures Accounted(h, zombies, roots + Refs(v) + ReleasedRefs(es))
  {
    forall b <- ReleasedRefs(es) ensures IsStatic(h, zombies, b) {
      if v.alloc.At? {
        SentIsHeld(h, v, es);
        var a := v.alloc.addr;
        assert CellRefs(h, zombies, a) == RefsAll(h[a].items);
        OwnedIncludes(h, zombies, a, |h|);
        assert b in Everything(h, zombies, roots + Refs(v));
      }
    }
    hide Accounted, ReleasedRefs, Refs;
    StaticExtra(h, zombies, roots + Refs(v), ReleasedRefs(es));
  }

  lemma FewerZombies(h: Heap, h': Heap, zombies: set<Addr>, more: set<Addr>)
    requires Releases(h, h', zombies + more)
    ensures Releases(h, h', zombies)
  {
    forall z <- zombies ensures z < |h| && h'[z] == h[z] {
      assert z in zombies + more;
    }
  }

  /** A release by someone who owns no reference breaks the books, unless the data is
      static.  This is what a send would do to the elements of an effects list that
      somebody else still holds. */
  lemma ReleaseWithoutOwning(h: Heap, roots: multiset<Addr>, rank: Addr -> nat, a: Addr)
    requires Accounted(h, {}, roots) && Holds(h, a) && Ranked(h, rank)
    ensures Accounted(AfterDecref(h, At(a)), {}, roots) <==> h[a].count == 0
  {
    var h' := AfterDecref(h, At(a));
    if h[a].count == 1 {
      assert a in Everything(h, {}, roots);
      FreedLoses(h, a, roots, rank);
    } else if h[a].count > 1 {
      OwnedRecount(h, {}, a, h[a].count - 1);
      assert Holds(h', a);
    }
  }

  lemma FreedLoses(h: Heap, a: Addr, roots: multiset<Addr>, rank: Addr -> nat)
    requires Accounted(h, {}, roots) && Holds(h, a) && h[a].count == 1 && Ranked(h, rank)
    ensures !Accounted(h[a := Freed], {}, roots)
  {
    var h' := h[a := Freed];
    hide RefsAll;
    assert a in Everything(h, {}, roots);
    if a in roots {
      assert a in Everything(h', {}, roots);
    } else {
      var b := OwnedBy(h, {}, a, |h|);
      assert Holds(h, b) && a in RefsAll(h[b].items);
      assert rank(a) < rank(b);
      assert CellRefs(h', {}, b) == CellRefs(h, {}, b);
      OwnedIncludes(h', {}, b, |h'|);
      assert a in Everything(h', {}, roots);
    }
  }

  // ----- the same effects in the protocol -----

  function ToBytes(items: seq<Value>): TcpProtocol.Bytes {
    seq(|items|, i requires 0 <= i < |items| =>
      if items[i].Plain? && items[i].bits < 256 then items[i].bits as TcpProtocol.Byte else 0)
  }

  function AsProtocol(h: Heap, e: Effect): TcpProtocol.Effect {
    match e
    case Exit(code) => TcpProtocol.Exit(code)
    case Print(_) => TcpProtocol.Print
    case WriteToFile(_, _) => TcpProtocol.WriteToFile
    case TcpSend(id, data) => TcpProtocol.TcpSend(id, ToBytes(View(h, data)))
  }

  /** A buffer that was made of bytes gives them back. */
  lemma BytesComeBack(items: seq<Value>, bytes: TcpProtocol.Bytes)
    requires |items| == |bytes| && forall i :: 0 <= i < |bytes| ==> items[i] == Plain(bytes[i] as nat)
    ensures ToBytes(items) == bytes
  {
  }

  /** One effect here is one RunEffect step there: the same handles are left, and the socket
      sees the bytes that `Writes` lists. */
  lemma EffectIsStep(s: TcpProtocol.State, h: Heap, e: Effect, rest: seq<TcpProtocol.Effect>, sent: nat, ok: bool)
    requires s.main == TcpProtocol.Running([AsProtocol(h, e)] + rest) && (e.TcpSend? ==> sent <= |View(h, e.data)|)
    ensures TcpProtocol.Enabled(s, TcpProtocol.RunEffect(sent, ok))
    ensures var s' := TcpProtocol.EffectRun(s, sent, ok);
            && s'.writers == WritersLeft([e], [ok], s.writers)
            && s'.main == (if e.Exit? then TcpProtocol.Exited else TcpProtocol.Running(rest))
            && (Writes(h, [e], [ok], s.writers) == [] ==> s'.wire == s.wire)
            && (Writes(h, [e], [ok], s.writers) != [] ==>
                  var (id, items) := Writes(h, [e], [ok], s.writers)[0];
                  var before := if id in s.wire then s.wire[id] else [];
                  sent <= |items| && s'.wire ==
                    s.wire[id := before + if ok then ToBytes(items) else ToBytes(items)[..sent]])
  {
    assert ([AsProtocol(h, e)] + rest)[1..] == rest && [e][1..] == [] && [ok][1..] == [];
  }

  // ----- a list that somebody else still holds -----

  /** What sends do to cells: flat buffers lose counts or are freed, nothing else changes. */
  ghost predicate Lowered(c1: Cell, c2: Cell) {
    c2 == c1 || (c1.Live? && c1.kind == ListCell(false) &&
                 (c2.Freed? || (c2 == c1.(count := c2.count) && 0 < c2.count < c1.count)))
  }

  ghost predicate Lowers(h: Heap, h': Heap) {
    |h'| == |h| && forall c :: 0 <= c < |h| ==> Lowered(h[c], h'[c])
  }

  lemma {:induction false} SendsLower(h: Heap, es: seq<Effect>)
    requires SendsFit(h, es) && AfterSends(h, es).Some?
    ensures Lowers(h, AfterSends(h, es).value)
    ensures forall b <- ReleasedRefs(es) :: Holds(h, b) && (h[b].count > 0 ==> AfterSends(h, es).value[b] != h[b])
    ensures SendsStatic(h, es) ==> AfterSends(h, es).value == h
    decreases |es|
  {
    if es != [] && !es[0].Exit? {
      assert SendFits(h, es[0]);
      var p := if es[0].TcpSend? then es[0].data.alloc else Null;
      var h1 := AfterDecref(h, p);
      DecrefLowers(h, p);
      StillFits(h, h1, es);
      SendsLower(h1, es[1..]);
      LowersTrans(h, h1, AfterSends(h, es).value, p);
      SplitStatic(h, es);
    }
  }

  lemma DecrefLowers(h: Heap, p: Ptr)
    requires p.At? ==> Holds(h, p.addr) && h[p.addr].kind == ListCell(false)
    ensures Lowers(h, AfterDecref(h, p))
    ensures p.At? && h[p.addr].count > 0 ==> AfterDecref(h, p)[p.addr] != h[p.addr]
  {
  }

  lemma StillFits(h: Heap, h1: Heap, es: seq<Effect>)
    requires Lowers(h, h1) && SendsFit(h, es) && es != []
    ensures SendsFit(h1, es[1..])
  {
    assert Thins(h, h1) by {
      forall c | 0 <= c < |h| ensures CellKept(h[c], h1[c]) {
        assert Lowered(h[c], h1[c]);
      }
    }
    forall i | 0 <= i < |es[1..]| ensures SendFits(h1, es[1..][i]) {
      assert SendFits(h, es[i + 1]);
      if es[i + 1].TcpSend? {
        FitsThins(h, h1, es[i + 1].data);
      }
    }
  }

  lemma LowersTrans(h: Heap, h1: Heap, h2: Heap, p: Ptr)
    requires Lowers(h, h1) && Lowers(h1, h2)
    ensures Lowers(h, h2)
    ensures forall b: Addr :: b < |h| && h1[b] != h[b] ==> h2[b] != h[b]
  {
    forall c | 0 <= c < |h| ensures Lowered(h[c], h2[c]) && (h1[c] != h[c] ==> h2[c] != h[c]) {
      assert Lowered(h[c], h1[c]) && Lowered(h1[c], h2[c]);
    }
  }

  lemma SplitStatic(h: Heap, es: seq<Effect>)
    requires es != [] && !es[0].Exit? && SendFits(h, es[0])
    ensures ReleasedRefs(es) == (if es[0].TcpSend? then RefOf(es[0].data.alloc) else multiset{}) + ReleasedRefs(es[1..])
  {
  }

  /** A list of effects that stays somebody's, whether the host's or not.  After the sends,
      the books balance for the same owners if and only if every buffer sent before an Exit
      is static data; in every other case some buffer has been released too often. */
  lemma SharedListExactly(h: Heap, roots: multiset<Addr>, v: Value, es: seq<Effect>)
    requires HeapOk(h) && Accounted(h, {}, roots) && ShowsEffects(h, v, es) && v.alloc.At? && SendsFit(h, es)
    ensures (AfterSends(h, es).Some? && Accounted(AfterSends(h, es).value, {}, roots)) <==> SendsStatic(h, es)
  {
    if SendsStatic(h, es) {
      StaticSendsRun(h, es);
      SendsLower(h, es);
    } else if AfterSends(h, es).Some? {
      SendsLower(h, es);
      var b :| b in ReleasedRefs(es) && !(Holds(h, b) && h[b].count == 0);
      OverReleased(h, AfterSends(h, es).value, roots, v, es, b);
    }
  }

  lemma {:induction false} StaticSendsRun(h: Heap, es: seq<Effect>)
    requires SendsFit(h, es) && SendsStatic(h, es)
    ensures AfterSends(h, es) == Some(h)
  {
    if es != [] && !es[0].Exit? {
      assert SendFits(h, es[0]);
      SplitStatic(h, es);
      StillFits(h, h, es);
      StaticSendsRun(h, es[1..]);
    }
  }

  /** The list still refers to b, but b's count is down. */
  lemma OverReleased(h: Heap, h': Heap, roots: multiset<Addr>, v: Value, es: seq<Effect>, b: Addr)
    requires HeapOk(h) && Accounted(h, {}, roots) && ShowsEffects(h, v, es) && v.alloc.At? && Lowers(h, h')
    requires b in ReleasedRefs(es) && Holds(h, b) && h[b].count > 0 && h'[b] != h[b]
    ensures !Accounted(h', {}, roots)
  {
    SentIsHeld(h, v, es);
    var a := v.alloc.addr;
    assert b in CellRefs(h, {}, a);
    OwnedIncludes(h, {}, a, |h|);
    SameOwned(h, h');
    hide RefsAll, ReleasedRefs, Owned, HeapOk, AsValues;
    assert b in Everything(h', {}, roots) && Everything(h', {}, roots) == Everything(h, {}, roots);
    assert Lowered(h[b], h'[b]);
  }

  /** Buffers hold no references, so their going changes nobody else's books. */
  lemma SameOwned(h: Heap, h': Heap)
    requires HeapOk(h) && Lowers(h, h')
    ensures Owned(h', {}, |h'|) == Owned(h, {}, |h|)
  {
    forall i: Addr | i < |h| ensures CellRefs(h', {}, i) == CellRefs(h, {}, i) {
      assert Lowered(h[i], h'[i]) && CellOk(h, h[i]);
    }
    OwnedCong(h', {}, h, {}, |h|);
  }

  /** An application that keeps its effects list in its model: the list has two owners, and
      holds the only reference to a buffer that is to be sent. */
  const KEPT_SEND := TcpSend(0, List(At(1), false, 0, 1, false))

  function KeptEffects(): Heap {
    [Live(ListCell(true), 2, AsValues([KEPT_SEND])), Live(ListCell(false), 1, [Plain(0)])]
  }

  lemma KeptRefs()
    ensures RefsAll(KeptEffects()[0].items) == multiset{1} && RefsAll(KeptEffects()[1].items) == multiset{}
  {
    assert [KEPT_SEND][1..] == [];
    EffectsOwn([KEPT_SEND]);
    assert AllRefs([KEPT_SEND]) == EffectRefs(KEPT_SEND) + AllRefs([]);
    var flat := [Plain(0)];
    assert flat[1..] == [] && RefsAll(flat) == Refs(flat[0]) + RefsAll(flat[1..]);
  }

  lemma KeptOwned(h: Heap)
    requires h == KeptEffects() || h == KeptEffects()[1 := Freed]
    ensures Owned(h, {}, 2) == multiset{1}
  {
    KeptRefs();
    hide RefsAll, AsValues;
    assert Owned(h, {}, 1) == Owned(h, {}, 0) + CellRefs(h, {}, 0) &&
           Owned(h, {}, 2) == Owned(h, {}, 1) + CellRefs(h, {}, 1);
  }

  lemma KeptSends()
    ensures AfterSends(KeptEffects(), [KEPT_SEND]) == Some(KeptEffects()[1 := Freed])
  {
    assert [KEPT_SEND][1..] == [];
    hide AsValues;
    assert AfterSends(KeptEffects()[1 := Freed], []) == Some(KeptEffects()[1 := Freed]);
  }

  /** The send frees the buffer under the list's eyes. */
  lemma SharedListFails()
    ensures Accounted(KeptEffects(), {}, multiset{0, 0})
    ensures AfterSends(KeptEffects(), [KEPT_SEND]) == Some(KeptEffects()[1 := Freed])
    ensures !Accounted(KeptEffects()[1 := Freed], {}, multiset{0, 0})
  {
    KeptSends();
    KeptAccounted();
    KeptBroken();
    hide Accounted, AfterSends, AsValues;
  }

  lemma KeptAccounted()
    ensures Accounted(KeptEffects(), {}, multiset{0, 0})
  {
    KeptOwned(KeptEffects());
    hide RefsAll, AsValues, Owned;
    TwoCells(KeptEffects(), multiset{0, 0});
  }

  lemma TwoCells(h: Heap, roots: multiset<Addr>)
    requires |h| == 2 && h[0].Live? && h[0].count == 2 && h[1].Live? && h[1].count == 1
    requires roots == multiset{0, 0} && Owned(h, {}, 2) == multiset{1}
    ensures Accounted(h, {}, roots)
  {
    hide RefsAll, Owned;
    assert Everything(h, {}, roots) == multiset{0, 0, 1};
  }

  lemma KeptBroken()
    ensures !Accounted(KeptEffects()[1 := Freed], {}, multiset{0, 0})
  {
    KeptOwned(KeptEffects()[1 := Freed]);
    hide RefsAll, AsValues, Owned, StaticClosed;
    assert 1 in Everything(KeptEffects()[1 := Freed], {}, multiset{0, 0});
  }

  // ----- one buffer, many sends -----

  /** An allocation that only outside owners refer to is live exactly while they do, and
      its count is their number. */
  lemma CountIsOwners(h: Heap, zombies: set<Addr>, roots: multiset<Addr>, a: Addr)
    requires Accounted(h, zombies, roots) && a < |h| && a !in zombies && a !in Owned(h, zombies, |h|)
    requires !IsStatic(h, zombies, a)
    ensures h[a].Live? <==> roots[a] > 0
    ensures h[a].Live? ==> h[a].count == roots[a]
  {
    hide RefsAll, Owned;
    assert a in Everything(h, zombies, roots) <==> a in roots;
  }

  /** Sends of the buffer at a. */
  function Sends(es: seq<Effect>, a: Addr): nat {
    if es == [] then 0
    else (if es[0].TcpSend? && es[0].data.List? && es[0].data.alloc == At(a) then 1 else 0) + Sends(es[1..], a)
  }

  /** Nothing but the sends among these effects refers to a. */
  ghost predicate OnlySent(h: Heap, zombies: set<Addr>, roots: multiset<Addr>, es: seq<Effect>, a: Addr) {
    && a < |h| && a !in zombies && a !in roots && a !in Owned(h, zombies, |h|) && !IsStatic(h, zombies, a)
    && forall i :: 0 <= i < |es| ==> (es[i].TcpSend? && es[i].data.List?) || a !in EffectRefs(es[i])
  }

  ghost predicate CountsSends(c: Cell, n: nat) {
    if n == 0 then c.Freed? else c.Live? && c.count == n
  }

  lemma {:induction false} SendsAreRefs(es: seq<Effect>, a: Addr)
    requires forall i :: 0 <= i < |es| ==> (es[i].TcpSend? && es[i].data.List?) || a !in EffectRefs(es[i])
    ensures AllRefs(es)[a] == Sends(es, a)
  {
    if es != [] {
      assert forall i :: 0 <= i < |es[1..]| ==> es[1..][i] == es[i + 1];
      SendsAreRefs(es[1..], a);
    }
  }

  /** Before an Exit, only sends change how many references to a are left over. */
  lemma {:induction false} LeftoverStays(es: seq<Effect>, a: Addr, i: nat)
    requires forall i :: 0 <= i < |es| ==> (es[i].TcpSend? && es[i].data.List?) || a !in EffectRefs(es[i])
    requires i <= Executed(es)
    ensures Unreleased(es)[a] == Unreleased(es[i..])[a]
  {
    if i == 0 {
      assert es[0..] == es;
    } else {
      assert forall i :: 0 <= i < |es[1..]| ==> es[1..][i] == es[i + 1];
      assert es[i..] == es[1..][i - 1..];
      LeftoverStays(es[1..], a, i - 1);
      hide EffectRefs;
    }
  }

  lemma {:induction false} OwnedShrinks(h: Heap, h': Heap, zombies: set<Addr>, n: nat)
    requires Shrinks(h, h') && n <= |h|
    ensures Owned(h', zombies, n) <= Owned(h, zombies, n)
  {
    hide RefsAll;
    if n > 0 {
      OwnedShrinks(h, h', zombies, n - 1);
      assert CellShrinks(h[n - 1], h'[n - 1]);
    }
  }

  /** The buffer's count at every stage of the run is the number of sends not yet made. */
  lemma BroadcastBuffer(stages: seq<Heap>, es: seq<Effect>, a: Addr, zombies: set<Addr>, roots: multiset<Addr>, i: nat)
    requires Stages(stages, es, zombies, roots + Unreleased(es)) && |stages| == Executed(es) + 1 && i < |stages|
    requires OnlySent(stages[0], zombies, roots, es, a)
    ensures a < |stages[i]| && CountsSends(stages[i][a], Sends(es[i..], a))
  {
    var h, h' := stages[0], stages[i];
    assert Stage(h, h', es, i, zombies, roots + Unreleased(es));
    assert Accounted(h', zombies, roots + Unreleased(es) + ReleasedRefs(es[i..])) && Shrinks(h, h');
    hide Accounted, Stages, Unreleased, ReleasedRefs, EffectRefs;
    OwnedShrinks(h, h', zombies, |h|);
    hide Owned;
    assert CellShrinks(h[a], h'[a]);
    hide Shrinks;
    SendsToCome(zombies, roots, es, a, i, h);
    CountIsOwners(h', zombies, roots + Unreleased(es) + ReleasedRefs(es[i..]), a);
  }

  lemma SendsToCome(zombies: set<Addr>, roots: multiset<Addr>, es: seq<Effect>, a: Addr, i: nat, h: Heap)
    requires OnlySent(h, zombies, roots, es, a) && i <= Executed(es)
    ensures (roots + Unreleased(es) + ReleasedRefs(es[i..]))[a] == Sends(es[i..], a)
  {
    assert forall k :: 0 <= k < |es[i..]| ==> es[i..][k] == es[i + k];
    SendsAreRefs(es[i..], a);
    LeftoverStays(es, a, i);
    ReleasedOrNot(es[i..]);
    hide Owned, Unreleased, ReleasedRefs, AllRefs, EffectRefs, IsStatic;
    assert (ReleasedRefs(es[i..]) + Unreleased(es[i..]))[a] == Sends(es[i..], a);
  }
}
