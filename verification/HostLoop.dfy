/** Waiting for the next event: the loop that multiplexes the timer, the notification
    pipe and stdin, as it runs inside the main thread.  What the clock, `poll` and the
    other threads do is given by a script of turns; assumptions about them are the
    predicates `Covered` and `Honest`. */
module HostLoop {
  import opened TcpProtocol
  import TcpInvariant

  const NANOS_PER_MILLI: nat := 1_000_000
  const I32_MAX: nat := 0x7fff_ffff

  newtype i32 = x: int | -0x8000_0000 <= x <= 0x7fff_ffff

  /** One trip round the loop: the clock read at the top, then while computing the
      timeout; events sent and pipe bytes written meanwhile; what `poll` returned and
      when; and what stdin then holds. */
  datatype Turn = Turn(now1: nat, now2: nat, sent: seq<Event>, announced: nat,
                       ret: int, pipeReady: bool, stdinReady: bool, woke: nat, input: Bytes)

  datatype Outcome =
    | NotWaiting                 // no event source, or poll failed
    | TimerEvent
    | TcpEvent(event: AppEvent)
    | InputEvent(bytes: Bytes)
    | StillWaiting               // the script ends here

  // ----- the timeout -----

  /** The third argument of `poll`, in milliseconds. */
  function PollTimeout(hasTimer: bool, fireAt: nat, now: nat): (ms: i32)
    ensures ms >= 0 <==> hasTimer
    ensures !hasTimer ==> ms == -1
  {
    if !hasTimer then -1
    else if now >= fireAt then 0
    else
      var deltaMs := (fireAt - now) / NANOS_PER_MILLI;
      (if deltaMs <= I32_MAX then deltaMs else I32_MAX) as i32
  }

  /** Truncation and clamping make the timer early; how early depends on the distance. */
  lemma TimerEarlyBound(fireAt: nat, now: nat, woke: nat)
    requires now < fireAt && woke >= now + PollTimeout(true, fireAt, now) as int * 1_000_000
    ensures fireAt - now < 0x8000_0000 * 1_000_000 ==> fireAt - woke < 1_000_000
  {
    var delta := fireAt - now;
    assert delta == delta / NANOS_PER_MILLI * NANOS_PER_MILLI + delta % NANOS_PER_MILLI;
  }

  /** If `poll` returns the moment its timeout ends, the bound is exact. */
  lemma TimerEarlyExactly(fireAt: nat, now: nat)
    requires now < fireAt
    ensures var woke := now + PollTimeout(true, fireAt, now) as int * 1_000_000;
            woke <= fireAt && (fireAt - woke < 1_000_000 <==> fireAt - now < 0x8000_0000 * 1_000_000)
  {
    var delta := fireAt - now;
    assert delta == delta / NANOS_PER_MILLI * NANOS_PER_MILLI + delta % NANOS_PER_MILLI;
  }

  // ----- what the environment may do -----

  function Sent(script: seq<Turn>, k: nat): seq<Event>
    requires k <= |script|
  {
    if k == 0 then [] else Sent(script, k - 1) + script[k - 1].sent
  }

  function Announced(script: seq<Turn>, k: nat): nat
    requires k <= |script|
  {
    if k == 0 then 0 else Announced(script, k - 1) + script[k - 1].announced
  }

  /** How many of the first k polls reported the pipe readable. */
  function Drains(script: seq<Turn>, k: nat): (n: nat)
    requires k <= |script|
    ensures n <= k
  {
    if k == 0 then 0 else Drains(script, k - 1) + if script[k - 1].pipeReady then 1 else 0
  }

  /** Every byte written to the pipe is backed by an event already on the queue. */
  ghost predicate Covered(queued: nat, bytes: nat, script: seq<Turn>) {
    forall k: nat :: k <= |script| ==> bytes + Announced(script, k) <= queued + |Sent(script, k)|
  }

  /** A script whose sends and announcements are those of a run, as seen at some of its
      states, one for the end of each turn. */
  ghost predicate FromRun(run: seq<State>, acts: seq<Action>, marks: seq<nat>, script: seq<Turn>)
    requires TcpInvariant.IsRun(run, acts)
  {
    && |marks| == |script| + 1
    && (forall k :: 0 <= k < |marks| ==> marks[0] <= marks[k] < |run|)
    && forall k :: 0 <= k < |marks| ==>
         && Announced(script, k) == TcpInvariant.Notified(acts[marks[0]..marks[k]])
         && History(run[marks[0]]) + Sent(script, k) == History(run[marks[k]])
  }

  /** The protocol's threads keep the assumption: whatever they do while the main loop is
      waiting, every byte is backed by an event. */
  lemma RunsAreCovered(run: seq<State>, acts: seq<Action>, marks: seq<nat>, script: seq<Turn>)
    requires TcpInvariant.IsRun(run, acts) && FromRun(run, acts, marks, script) && run[marks[0]].main == Polling
    ensures var s := run[marks[0]]; Covered(|s.queue|, s.pipe, script)
  {
    hide TcpInvariant.IsRun, TcpInvariant.Notified, Unannounced, History, Sent, Announced;
    var i := marks[0];
    forall k: nat | k <= |script| ensures run[i].pipe + Announced(script, k) <= |run[i].queue| + |Sent(script, k)| {
      TcpInvariant.BytesFollowEvents(run, acts, i, marks[k]);
      assert |History(run[i]) + Sent(script, k)| == |History(run[marks[k]])|;
    }
  }

  /** `poll` reports the pipe as it is and does not return before its milliseconds are over;
      the clock counts nanoseconds and does not go back. */
  ghost predicate Honest(subs: Subs, hasTcp: bool, fireAt: nat, bytes: nat, script: seq<Turn>, k: nat)
    requires k < |script|
  {
    var t := script[k];
    && t.now1 <= t.now2 <= t.woke
    && (k + 1 < |script| ==> t.woke <= script[k + 1].now1)
    && (t.ret >= 0 ==> (t.pipeReady <==> hasTcp && bytes + Announced(script, k + 1) > Drains(script, k)))
    && (t.stdinReady ==> subs.stdin)
    && (t.pipeReady || t.stdinReady ==> t.ret > 0)
    && (t.ret == 0 && subs.timer ==> t.woke >= t.now2 + PollTimeout(true, fireAt, t.now2) as int * 1_000_000)
  }

  ghost predicate AllHonest(subs: Subs, hasTcp: bool, fireAt: nat, bytes: nat, script: seq<Turn>) {
    forall k: nat :: k < |script| ==> Honest(subs, hasTcp, fireAt, bytes, script, k)
  }

  // ----- what the loop has done to the events it took -----

  function WritersAfter(writers: set<Id>, taken: seq<Event>): set<Id> {
    if taken == [] then writers else NextWriters(WritersAfter(writers, taken[..|taken| - 1]), taken[|taken| - 1])
  }

  /** Nothing the application subscribed to is among these events. */
  predicate Unwanted(subs: Subs, taken: seq<Event>) {
    forall i :: 0 <= i < |taken| ==> Translate(subs, taken[i]) == []
  }

  /** A turn that offers the loop nothing to return. */
  predicate Idle(subs: Subs, fireAt: nat, t: Turn) {
    && (subs.timer ==> t.now1 < fireAt && t.ret != 0)
    && t.ret >= 0
    && (!t.pipeReady && t.stdinReady ==> t.input == [])
  }

  /** A timer event that `poll` produced comes less than a millisecond early, unless the
      distance was too large for the timeout. */
  predicate NotTooEarly(fireAt: nat, t: Turn) {
    fireAt - t.now2 < 0x8000_0000 * 1_000_000 ==> fireAt - t.woke < 1_000_000
  }

  /** The loop's choice without its machinery: no file descriptors, no bytes, no second
      look at the clock.  A due timer, else the head of the queue if any event has been
      announced, else the timer if nothing happened in time, else stdin. */
  function Select(subs: Subs, hasTcp: bool, fireAt: nat, queue: seq<Event>, announced: nat, script: seq<Turn>,
                  k: nat): Outcome
    requires k <= |script|
    decreases |script| - k
  {
    if k == |script| then StillWaiting
    else
      var t := script[k];
      var q, n := queue + t.sent, announced + t.announced;
      if subs.timer && t.now1 >= fireAt then TimerEvent
      else if t.ret < 0 then NotWaiting
      else if hasTcp && n > 0 && q != [] then
        var told := Translate(subs, q[0]);
        if told != [] then TcpEvent(told[0]) else Select(subs, hasTcp, fireAt, q[1..], n - 1, script, k + 1)
      else if subs.timer && t.ret == 0 then TimerEvent
      else if subs.stdin && t.stdinReady && t.input != [] then InputEvent(t.input)
      else Select(subs, hasTcp, fireAt, q, n, script, k + 1)
  }

  /** Why the loop may return `out` after `polls` polls, having taken these events and
      with `bytes` left in the pipe. */
  predicate Explained(subs: Subs, hasTcp: bool, fireAt: nat, script: seq<Turn>, out: Outcome, polls: nat,
                      taken: seq<Event>, bytes: nat) {
    && polls <= |script|
    && (!out.TcpEvent? ==> Unwanted(subs, taken))
    && match out
       case TcpEvent(event) =>
         && polls > 0 && script[polls - 1].pipeReady && taken != []
         && Unwanted(subs, taken[..|taken| - 1]) && Translate(subs, taken[|taken| - 1]) == [event]
       case InputEvent(input) =>
         polls > 0 && subs.stdin && input == script[polls - 1].input != [] && (hasTcp ==> bytes == 0)
       case TimerEvent =>
         && subs.timer
         && ((polls < |script| && script[polls].now1 >= fireAt) ||
             (polls > 0 && script[polls - 1].ret == 0 && script[polls - 1].now1 < fireAt &&
              NotTooEarly(fireAt, script[polls - 1])))
       case NotWaiting =>
         (polls == 0 && !subs.stdin && !hasTcp && !subs.timer) || (polls > 0 && script[polls - 1].ret < 0)
       case StillWaiting => polls == |script|
  }

  class TcpState {
    const hasTcp: bool
    var queue: seq<Event>
    var pipe: nat
    var writers: set<Id>
    ghost var dequeued: seq<Event>

    constructor (hasTcp: bool)
      ensures this.hasTcp == hasTcp && queue == [] && pipe == 0 && writers == {} && dequeued == []
    {
      this.hasTcp := hasTcp;
      queue, pipe, writers, dequeued := [], 0, {}, [];
    }

    /** Drains one byte and tries to take one event. */
    method TakeOne(subs: Subs) returns (told: seq<AppEvent>)
      requires pipe > 0
      modifies this
      ensures pipe == old(pipe) - 1
      ensures old(queue) == [] ==> told == [] && queue == [] && writers == old(writers) && dequeued == old(dequeued)
      ensures old(queue) != [] ==>
                var e := old(queue)[0];
                && (told == [] <==> !Wanted(subs, e)) && (told != [] ==> |told| == 1 && Reports(told[0], e))
                && told == Translate(subs, e) && queue == old(queue)[1..]
                && writers == NextWriters(old(writers), e) && dequeued == old(dequeued) + [e]
    {
      pipe := pipe - 1;
      told := [];
      if queue != [] {
        var e := queue[0];
        queue := queue[1..];
        dequeued := dequeued + [e];
        match e {
          case Connected(id) =>
            writers := writers + {id};
            told := TcpConnectedEvent(subs, id);
          case Disconnected(id) =>
            writers := writers - {id};
            told := TcpDisconnectedEvent(subs, id);
          case Data(id, bytes) =>
            told := TcpReceiveEvent(subs, id, bytes);
        }
      }
    }

    /** These fields are the main thread's share of a protocol state. */
    ghost predicate Mirrors(s: State)
      reads this
    {
      queue == s.queue && pipe == s.pipe && writers == s.writers && dequeued == s.dequeued
    }

    /** A readable turn is two steps of the protocol's main thread, and leaves it polling or
        with the very event to report. */
    method TakeOneIsReceive(subs: Subs, ghost s: State) returns (told: seq<AppEvent>, ghost s': State)
      requires pipe > 0 && Mirrors(s) && s.main == Polling && s.subs == subs
      modifies this
      ensures Enabled(s, DrainByte)
      ensures var received := if s.queue == [] then ReceiveNothing else Receive;
              Enabled(Apply(s, DrainByte), received) && s' == Apply(Apply(s, DrainByte), received)
      ensures Mirrors(s') && s'.delivered == s.delivered + told
      ensures s'.main == if told == [] then Polling else Updating(told[0])
    {
      s' := Apply(Apply(s, DrainByte), if s.queue == [] then ReceiveNothing else Receive);
      told := TakeOne(subs);
    }

    /** The loop's books: what was taken off, what is left, and what arrived meanwhile. */
    ghost predicate Progress(q0: seq<Event>, p0: nat, w0: set<Id>, d0: seq<Event>, arrived: seq<Event>, announced: nat,
                             taken: seq<Event>)
      reads this
    {
      && taken + queue == q0 + arrived && pipe + |taken| == p0 + announced
      && writers == WritersAfter(w0, taken) && dequeued == d0 + taken
    }

    /** The other threads' progress during a turn. */
    method Arrive(t: Turn, ghost q0: seq<Event>, ghost p0: nat, ghost w0: set<Id>, ghost d0: seq<Event>,
                  ghost arrived: seq<Event>, ghost announced: nat, ghost taken: seq<Event>)
      requires Progress(q0, p0, w0, d0, arrived, announced, taken)
      modifies this`queue, this`pipe
      ensures Progress(q0, p0, w0, d0, arrived + t.sent, announced + t.announced, taken)
      ensures queue == old(queue) + t.sent && pipe == old(pipe) + t.announced
    {
      hide WritersAfter;
      Regroup(taken, queue, t.sent, q0, arrived);
      queue := queue + t.sent;
      pipe := pipe + t.announced;
    }

    /** The pipe is readable: one byte, one event. */
    method HandleReadable(subs: Subs, ghost q0: seq<Event>, ghost p0: nat, ghost w0: set<Id>, ghost d0: seq<Event>,
                          ghost arrived: seq<Event>, ghost announced: nat, taken: seq<Event>)
      returns (told: seq<AppEvent>, taken': seq<Event>)
      requires Progress(q0, p0, w0, d0, arrived, announced, taken) && pipe > 0 && queue != []
      modifies this
      ensures pipe == old(pipe) - 1 && queue == old(queue)[1..]
      ensures Progress(q0, p0, w0, d0, arrived, announced, taken')
      ensures taken' == taken + [old(queue)[0]] && told == Translate(subs, old(queue)[0])
    {
      MoveHead(taken, queue);
      TakeWriters(w0, taken, queue[0]);
      taken' := taken + [queue[0]];
      told := TakeOne(subs);
      assert d0 + taken' == d0 + taken + [old(queue)[0]];
    }

    /** Waits for one event.  `polls` counts the calls of `poll` made.  The first events
        of the queue are taken, one per readable poll; the last of them is what is returned,
        and the others were not subscribed to; the handle table follows every one of them. */
    method WaitForNextEvent(subs: Subs, fireAt: nat, script: seq<Turn>)
      returns (out: Outcome, polls: nat, taken: seq<Event>)
      requires Covered(|queue|, pipe, script) && AllHonest(subs, hasTcp, fireAt, pipe, script)
      modifies this
      ensures polls <= |script| && |taken| == Drains(script, polls)
      ensures Progress(old(queue), old(pipe), old(writers), old(dequeued), Sent(script, polls),
                       Announced(script, polls), taken)
      ensures forall k: nat :: k < polls && (k < polls - 1 || out == StillWaiting) ==> Idle(subs, fireAt, script[k])
      ensures Explained(subs, hasTcp, fireAt, script, out, polls, taken, pipe)
      ensures out.TcpEvent? ==> taken != [] && Reports(out.event, taken[|taken| - 1])
      ensures forall i :: 0 <= i < |taken| ==> (Wanted(subs, taken[i]) <==> out.TcpEvent? && i == |taken| - 1)
      ensures !subs.stdin && !hasTcp && !subs.timer ==> out == NotWaiting
      ensures subs.stdin || hasTcp || subs.timer ==>
                out == Select(subs, hasTcp, fireAt, old(queue), old(pipe), script, 0)
    {
      assert Sent(script, 0) == [] && Announced(script, 0) == 0 && Drains(script, 0) == 0 && Unwanted(subs, []);
      hide Covered, AllHonest, Progress, Sent, Announced, Drains, Translate, Unwanted, Idle, NotTooEarly, Select;
      hide Wanted, Reports;
      ghost var q0, p0, w0, d0 := queue, pipe, writers, dequeued;
      polls, taken, out := 0, [], StillWaiting;
      NothingYet();
      if !subs.stdin && !hasTcp && !subs.timer {
        out := NotWaiting;
        return;
      }
      while polls < |script|
        invariant polls <= |script| && |taken| == Drains(script, polls)
        invariant Progress(q0, p0, w0, d0, Sent(script, polls), Announced(script, polls), taken)
        invariant forall k: nat :: k < polls ==> Idle(subs, fireAt, script[k])
        invariant Unwanted(subs, taken) && out == StillWaiting
        invariant Select(subs, hasTcp, fireAt, q0, p0, script, 0) ==
                    Select(subs, hasTcp, fireAt, queue, pipe, script, polls)
      {
        var polled;
        out, polled, taken := OneTurn(subs, fireAt, script, polls, taken, q0, p0, w0, d0);
        if polled {
          polls := polls + 1;
        }
        if out != StillWaiting {
          ToldLast(subs, hasTcp, fireAt, script, out, polls, taken, pipe);
          return;
        }
      }
      ToldLast(subs, hasTcp, fireAt, script, out, polls, taken, pipe);
      ScriptEnds(subs, fireAt, script);
    }

    /** The body of the loop: a due timer, then the pipe, then stdin. */
    method OneTurn(subs: Subs, fireAt: nat, script: seq<Turn>, k: nat, taken: seq<Event>,
                   ghost q0: seq<Event>, ghost p0: nat, ghost w0: set<Id>, ghost d0: seq<Event>)
      returns (out: Outcome, polled: bool, taken': seq<Event>)
      requires k < |script| && |taken| == Drains(script, k) && Unwanted(subs, taken)
      requires Covered(|q0|, p0, script) && AllHonest(subs, hasTcp, fireAt, p0, script)
      requires Progress(q0, p0, w0, d0, Sent(script, k), Announced(script, k), taken)
      modifies this
      ensures var n := if polled then k + 1 else k;
              Progress(q0, p0, w0, d0, Sent(script, n), Announced(script, n), taken') && |taken'| == Drains(script, n)
      ensures out == StillWaiting ==> polled && Idle(subs, fireAt, script[k])
      ensures out == StillWaiting ==> Unwanted(subs, taken')
      ensures out != StillWaiting ==>
                Explained(subs, hasTcp, fireAt, script, out, if polled then k + 1 else k, taken', pipe)
      ensures Select(subs, hasTcp, fireAt, old(queue), old(pipe), script, k) ==
              if out == StillWaiting then Select(subs, hasTcp, fireAt, queue, pipe, script, k + 1) else out
    {
      hide NotTooEarly;
      hide Covered, AllHonest, Progress, Sent, Announced, Drains, Translate, Unwanted;
      var t := script[k];
      taken' := taken;
      if subs.timer && t.now1 >= fireAt {
        return TimerEvent, false, taken;
      }
      Arrive(t, q0, p0, w0, d0, Sent(script, k), Announced(script, k), taken);
      TurnFacts(subs, fireAt, script, k, q0, p0, w0, d0, taken);
      if t.ret < 0 {
        return NotWaiting, true, taken;
      }
      if t.ret == 0 && subs.timer {
        return TimerEvent, true, taken;
      }
      if hasTcp && t.pipeReady {
        UnwantedPush(subs, taken, queue[0]);
        var told;
        told, taken' := HandleReadable(subs, q0, p0, w0, d0, Sent(script, k + 1), Announced(script, k + 1), taken);
        return if told == [] then StillWaiting else TcpEvent(told[0]), true, taken';
      }
      if subs.stdin && t.stdinReady && |t.input| > 0 {
        return InputEvent(t.input), true, taken;
      }
      return StillWaiting, true, taken;
    }

    lemma ScriptEnds(subs: Subs, fireAt: nat, script: seq<Turn>)
      ensures Select(subs, hasTcp, fireAt, queue, pipe, script, |script|) == StillWaiting
    {
    }

    lemma NothingYet()
      ensures Progress(queue, pipe, writers, dequeued, [], 0, [])
    {
    }

    /** What the assumptions about the environment say once this turn's arrivals are in. */
    lemma TurnFacts(subs: Subs, fireAt: nat, script: seq<Turn>, k: nat, q0: seq<Event>, p0: nat, w0: set<Id>,
                    d0: seq<Event>, taken: seq<Event>)
      requires k < |script| && Covered(|q0|, p0, script) && AllHonest(subs, hasTcp, fireAt, p0, script)
      requires |taken| == Drains(script, k)
      requires Progress(q0, p0, w0, d0, Sent(script, k) + script[k].sent, Announced(script, k) + script[k].announced,
                        taken)
      ensures Progress(q0, p0, w0, d0, Sent(script, k + 1), Announced(script, k + 1), taken)
      ensures Drains(script, k + 1) == |taken| + if script[k].pipeReady then 1 else 0
      ensures script[k].ret >= 0 ==> (script[k].pipeReady <==> hasTcp && pipe > 0)
      ensures script[k].pipeReady || script[k].stdinReady ==> script[k].ret > 0
      ensures script[k].stdinReady ==> subs.stdin
      ensures script[k].ret == 0 && subs.timer ==> NotTooEarly(fireAt, script[k])
      ensures pipe > 0 ==> queue != []
    {
      assert Honest(subs, hasTcp, fireAt, p0, script, k);
      if script[k].ret == 0 && subs.timer && script[k].now2 < fireAt {
        TimerEarlyBound(fireAt, script[k].now2, script[k].woke);
      }
      assert p0 + Announced(script, k + 1) <= |q0| + |Sent(script, k + 1)|;
      assert |taken + queue| == |q0| + |Sent(script, k + 1)|;
      hide WritersAfter, Honest, AllHonest, Covered;
    }
  }

  /** The event returned is the last one taken, and the only one wanted. */
  lemma ToldLast(subs: Subs, hasTcp: bool, fireAt: nat, script: seq<Turn>, out: Outcome, polls: nat,
                 taken: seq<Event>, bytes: nat)
    requires Explained(subs, hasTcp, fireAt, script, out, polls, taken, bytes)
    ensures out.TcpEvent? ==> taken != [] && Reports(out.event, taken[|taken| - 1])
    ensures forall i :: 0 <= i < |taken| ==> (Wanted(subs, taken[i]) <==> out.TcpEvent? && i == |taken| - 1)
  {
    forall i | 0 <= i < |taken|
      ensures Wanted(subs, taken[i]) <==> Translate(subs, taken[i]) != []
      ensures Translate(subs, taken[i]) != [] ==> Reports(Translate(subs, taken[i])[0], taken[i])
    {
      ToldExactly(subs, taken[i]);
    }
    hide Translate, Wanted, Reports, NotTooEarly;
    assert out.TcpEvent? ==> forall i :: 0 <= i < |taken| - 1 ==> taken[..|taken| - 1][i] == taken[i];
  }

  lemma UnwantedPush(subs: Subs, taken: seq<Event>, e: Event)
    requires Unwanted(subs, taken)
    ensures Translate(subs, e) == [] ==> Unwanted(subs, taken + [e])
    ensures (taken + [e])[..|taken|] == taken && |Translate(subs, e)| <= 1
  {
  }

  lemma Regroup(taken: seq<Event>, queue: seq<Event>, sent: seq<Event>, q0: seq<Event>, before: seq<Event>)
    requires taken + queue == q0 + before
    ensures taken + (queue + sent) == q0 + (before + sent)
  {
    assert taken + (queue + sent) == taken + queue + sent;
    assert q0 + (before + sent) == q0 + before + sent;
  }

  lemma MoveHead(taken: seq<Event>, queue: seq<Event>)
    requires queue != []
    ensures taken + [queue[0]] + queue[1..] == taken + queue
  {
  }

  lemma TakeWriters(writers: set<Id>, taken: seq<Event>, e: Event)
    ensures WritersAfter(writers, taken + [e]) == NextWriters(WritersAfter(writers, taken), e)
  {
    assert (taken + [e])[..|taken|] == taken;
    hide NextWriters;
  }
}
