/**
 * The per-association throttler actor: a finite-state machine that learns the exposed
 * handle, the origin, the inbound throttle mode and the upstream listener, and then
 * releases inbound payloads to the listener as the inbound mode allows.
 *
 * `Step` is the transition function: one event (with the clock reading taken while it is
 * handled) turns an actor state into the next one and the list of effects the actor
 * performs (messages, timers, deliveries). `ThrottledAssociation` is the actor itself,
 * whose `Receive` updates its fields in place exactly as `Step` says.
 */
module ThrottledAssociations {
  import opened Wrappers
  import opened ThrottleModes
  import opened TransportTypes
  import opened ThrottlerHandles
  import opened Subsequences

  /** The upstream handle event listener that receives released payloads. */
  type ListenerId = nat

  datatype State =
    | WaitExposedHandle
    | WaitOrigin
    | WaitMode
    | WaitUpstreamListener
    | WaitModeAndUpstreamListener
    | Throttling
    | Stopped

  /**
   * The actor's state and data: its FSM state, the exposed handle (absent while the data
   * is uninitialized), the inbound mode, the queue of held payloads (oldest first) and
   * the upstream listener. Absent values stand for the source's nulls.
   */
  datatype Assoc = Assoc(
    state: State,
    exposedHandle: Option<ThrottlerHandle>,
    inboundMode: Option<ThrottleMode>,
    queue: seq<Payload>,
    upstreamListener: Option<ListenerId>)

  datatype Event =
    | HandleEv(handle: ThrottlerHandle)
    | InboundPayload(payload: Payload)
    | ModeEv(mode: ThrottleMode)
    | ListenerEv(listener: ListenerId)
    | ListenerAndModeEv(listener: ListenerId, mode: ThrottleMode)
    | DequeueEv
    | DisassociatedEv(info: DisassociateInfo)
    | FailWithEv(reason: DisassociateInfo)

  datatype Effect =
    /** Complete the original handle's read-handler promise with this actor. */
    | RegisterReadHandler
    /** Tell the manager the origin of this inbound association. */
    | Checkin(origin: Address, handle: ThrottlerHandle)
    /** Disassociate the exposed handle (stop its throttler). */
    | DisassociateHandle(handle: ThrottlerHandle)
    /** Notify the association listener of the new inbound association. */
    | NotifyInboundAssociation(handle: ThrottlerHandle)
    /** Pipe the exposed handle's read handler, once known, back as a Listener event. */
    | AwaitListener(handle: ThrottlerHandle)
    /** Release a payload to the upstream listener. */
    | Deliver(listener: ListenerId, payload: Payload)
    /** Send a Dequeue to self. */
    | SendDequeue
    | CancelDequeueTimer
    /** (Re)start the single-shot dequeue timer. */
    | StartDequeueTimer(delay: Duration)
    /** Reply SetThrottleAck to the sender of a mode change. */
    | AckSetThrottle
    /** Tell the upstream listener the association is gone. */
    | NotifyDisassociated(listener: ListenerId, reason: DisassociateInfo)

  /** What every reachable state satisfies: the data each state relies on is present. */
  predicate Inv(a: Assoc) {
    && (a.state == WaitExposedHandle ==> a.exposedHandle.None?)
    && (a.state == WaitOrigin || a.state == WaitMode || a.state == WaitUpstreamListener ==> a.exposedHandle.Some?)
    && (a.state == WaitUpstreamListener ==> a.inboundMode.Some?)
    && (a.state == Throttling ==> a.inboundMode.Some? && a.upstreamListener.Some?)
  }

  /** The start state: inbound waits for its handle, outbound registers and waits for listener and mode. */
  function Initial(inbound: bool): (r: (Assoc, seq<Effect>))
    ensures Inv(r.0) && r.0.queue == [] && r.0.inboundMode.None? && r.0.upstreamListener.None?
    ensures inbound <==> r.0.state == WaitExposedHandle
    ensures !inbound <==> r.0.state == WaitModeAndUpstreamListener
    ensures r.1 == if inbound then [] else [RegisterReadHandler]
  {
    if inbound then (Assoc(WaitExposedHandle, None, None, [], None), [])
    else (Assoc(WaitModeAndUpstreamListener, None, None, [], None), [RegisterReadHandler])
  }

  /** Arranges the next Dequeue: none under blackhole, at once when due, else by timer. */
  function ScheduleDequeue(mode: ThrottleMode, delay: Duration): (effects: seq<Effect>)
    ensures mode.Blackhole? <==> effects == []
    ensures !mode.Blackhole? ==> |effects| == 1 && (effects[0] == SendDequeue <==> !delay.IsPositive())
    ensures !mode.Blackhole? && delay.IsPositive() ==> effects[0] == StartDequeueTimer(delay)
  {
    if mode.Blackhole? then []
    else if !delay.IsPositive() then [SendDequeue]
    else [StartDequeueTimer(delay)]
  }

  /** The next Dequeue for the head of `queue` under `mode`, if anything is queued. */
  function ScheduleHead(mode: ThrottleMode, queue: seq<Payload>, now: int): seq<Effect> {
    if queue == [] then [] else ScheduleDequeue(mode, TimeToAvailable(mode, now, |queue[0]|))
  }

  /** Appends a payload to the queue, staying in the same state. */
  function Enqueue(a: Assoc, p: Payload): (Assoc, seq<Effect>) {
    (a.(queue := a.queue + [p]), [])
  }

  /**
   * An inbound payload while throttling: dropped under blackhole; released at once when
   * nothing is queued and the mode admits it; otherwise queued behind the others, and
   * when it is the only one a Dequeue is scheduled for when it is due.
   */
  function ForwardOrDelayStep(a: Assoc, p: Payload, now: int): (Assoc, seq<Effect>)
    requires a.inboundMode.Some? && a.upstreamListener.Some?
  {
    var mode := a.inboundMode.value;
    if mode.Blackhole? then (a, [])
    else if a.queue == [] then
      var (newBucket, success) := TryConsumeTokens(mode, now, |p|);
      if success then (a.(inboundMode := Some(newBucket)), [Deliver(a.upstreamListener.value, p)])
      else (a.(queue := [p]), ScheduleDequeue(mode, TimeToAvailable(mode, now, |p|)))
    else Enqueue(a, p)
  }

  /** Events no state handles: a mode is always recorded and acknowledged. */
  function WhenUnhandled(a: Assoc, ev: Event): (Assoc, seq<Effect>) {
    match ev
    case ModeEv(m) => (a.(inboundMode := Some(m)), [AckSetThrottle])
    case DisassociatedEv(_) => (a.(state := Stopped), [])
    case FailWithEv(reason) =>
      (a.(state := Stopped),
       if a.upstreamListener.Some? then [NotifyDisassociated(a.upstreamListener.value, reason)] else [])
    case _ => (a, [])
  }

  /** One event handled in one state. A stopped actor ignores everything. */
  function Step(a: Assoc, ev: Event, now: int, peekOrigin: Payload -> Option<Address>): (r: (Assoc, seq<Effect>))
    requires Inv(a)
    ensures Inv(r.0)
    ensures a.state == Stopped ==> r == (a, [])
  {
    match a.state
    case Stopped => (a, [])
    case WaitExposedHandle =>
      if ev.HandleEv? then (a.(state := WaitOrigin, exposedHandle := Some(ev.handle)), [RegisterReadHandler])
      else WhenUnhandled(a, ev)
    case WaitOrigin =>
      if ev.InboundPayload? then
        var b := a.(queue := a.queue + [ev.payload]);
        match peekOrigin(ev.payload)
        case Some(origin) => (b.(state := WaitMode), [Checkin(origin, a.exposedHandle.value)])
        case None => (b, [])
      else WhenUnhandled(a, ev)
    case WaitMode =>
      if ev.InboundPayload? then Enqueue(a, ev.payload)
      else if ev.ModeEv? then
        var handle := a.exposedHandle.value;
        if ev.mode.Blackhole? then
          (a.(inboundMode := Some(ev.mode), queue := [], state := Stopped),
           [DisassociateHandle(handle), AckSetThrottle])
        else
          (a.(inboundMode := Some(ev.mode), state := WaitUpstreamListener),
           [NotifyInboundAssociation(handle), AwaitListener(handle), AckSetThrottle])
      else WhenUnhandled(a, ev)
    case WaitUpstreamListener =>
      if ev.InboundPayload? then Enqueue(a, ev.payload)
      else if ev.ListenerEv? then
        (a.(upstreamListener := Some(ev.listener), state := Throttling), [SendDequeue])
      else WhenUnhandled(a, ev)
    case WaitModeAndUpstreamListener =>
      if ev.ListenerAndModeEv? then
        (a.(upstreamListener := Some(ev.listener), inboundMode := Some(ev.mode), state := Throttling),
         [SendDequeue])
      else if ev.InboundPayload? then Enqueue(a, ev.payload)
      else WhenUnhandled(a, ev)
    case Throttling =>
      match ev
      case ModeEv(m) =>
        var q := if m.Blackhole? then [] else a.queue;
        (a.(inboundMode := Some(m), queue := q),
         [CancelDequeueTimer] + ScheduleHead(m, q, now) + [AckSetThrottle])
      case InboundPayload(p) => ForwardOrDelayStep(a, p, now)
      case DequeueEv =>
        if a.queue == [] then (a, [])
        else
          var p := a.queue[0];
          var mode := TryConsumeTokens(a.inboundMode.value, now, |p|).0;
          (a.(queue := a.queue[1..], inboundMode := Some(mode)),
           [Deliver(a.upstreamListener.value, p)] + ScheduleHead(mode, a.queue[1..], now))
      case _ => WhenUnhandled(a, ev)
  }

  // ----------------------------------------------------------------------------------
  // Runs: the events an actor handles in order, with what it takes in and gives out

  datatype Input = Input(event: Event, now: int)

  /** The payloads an event hands to the actor: one inbound payload, unless it has stopped. */
  function Received(a: Assoc, ev: Event): seq<Payload> {
    if a.state != Stopped && ev.InboundPayload? then [ev.payload] else []
  }

  /**
   * The events on which payloads are thrown away: a blackhole mode arriving in WaitMode
   * or while throttling with payloads queued, a payload arriving while throttling under
   * blackhole, and a
   * payload arriving before the handle is known (unhandled there).
   */
  predicate Drops(a: Assoc, ev: Event) {
    || (a.state == WaitExposedHandle && ev.InboundPayload?)
    || ((a.state == WaitMode || a.state == Throttling) && ev.ModeEv? && ev.mode.Blackhole? && a.queue != [])
    || (a.state == Throttling && ev.InboundPayload? && a.inboundMode == Some(Blackhole))
  }

  /**
   * The events on which a live actor stops with payloads still queued: a disassociation
   * or a failure. The queue stays in the stopped actor and is never released.
   */
  predicate Abandons(a: Assoc, ev: Event) {
    a.state != Stopped && (ev.DisassociatedEv? || ev.FailWithEv?) && a.queue != []
  }

  /** The events on which payloads taken in are lost: thrown away or left behind at a stop. */
  predicate Discards(a: Assoc, ev: Event) {
    Drops(a, ev) || Abandons(a, ev)
  }

  /** The payloads released to the upstream listener, in order. */
  function Delivered(effects: seq<Effect>): seq<Payload>
    decreases |effects|
  {
    if effects == [] then []
    else
      var e := effects[|effects| - 1];
      Delivered(effects[..|effects| - 1]) + (if e.Deliver? then [e.payload] else [])
  }

  /** The end state of a run, every effect, every payload taken in, and whether any was thrown away. */
  datatype Trace = Trace(final: Assoc, effects: seq<Effect>, received: seq<Payload>, discarded: bool)

  function Run(a: Assoc, inputs: seq<Input>, peekOrigin: Payload -> Option<Address>): (t: Trace)
    requires Inv(a)
    ensures Inv(t.final)
    decreases |inputs|
  {
    if inputs == [] then Trace(a, [], [], false)
    else
      var t := Run(a, inputs[..|inputs| - 1], peekOrigin);
      var input := inputs[|inputs| - 1];
      var (b, effects) := Step(t.final, input.event, input.now, peekOrigin);
      Trace(b, t.effects + effects, t.received + Received(t.final, input.event),
            t.discarded || Discards(t.final, input.event))
  }

  // ----------------------------------------------------------------------------------
  // Properties

  lemma {:induction false} DeliveredConcat(e1: seq<Effect>, e2: seq<Effect>)
    ensures Delivered(e1 + e2) == Delivered(e1) + Delivered(e2)
    decreases |e2|
  {
    if e2 == [] {
      assert e1 + e2 == e1;
    } else {
      assert (e1 + e2)[..|e1 + e2| - 1] == e1 + e2[..|e2| - 1];
      DeliveredConcat(e1, e2[..|e2| - 1]);
    }
  }

  /** Effects that deliver nothing release nothing. */
  lemma {:induction false} DeliveredNone(effects: seq<Effect>)
    requires forall i :: 0 <= i < |effects| ==> !effects[i].Deliver?
    ensures Delivered(effects) == []
    decreases |effects|
  {
    if effects != [] {
      DeliveredNone(effects[..|effects| - 1]);
    }
  }

  /** Scheduling a Dequeue neither releases a payload nor acknowledges anything. */
  lemma ScheduleDeliversNothing(mode: ThrottleMode, queue: seq<Payload>, now: int)
    ensures forall i :: 0 <= i < |ScheduleHead(mode, queue, now)| ==>
      !ScheduleHead(mode, queue, now)[i].Deliver? && ScheduleHead(mode, queue, now)[i] != AckSetThrottle
    ensures |ScheduleHead(mode, queue, now)| <= 1
  {
  }

  /**
   * The payloads one step releases, described independently of the effect list: the
   * queue's head on a Dequeue while throttling, the arriving payload when it is admitted
   * straight through, and nothing otherwise.
   */
  function ReleasedBy(a: Assoc, ev: Event, now: int): seq<Payload>
    requires Inv(a)
  {
    if a.state == Throttling && ev.DequeueEv? && a.queue != [] then [a.queue[0]]
    else if a.state == Throttling && ev.InboundPayload? && a.queue == [] && !a.inboundMode.value.Blackhole?
            && TryConsumeTokens(a.inboundMode.value, now, |ev.payload|).1
    then [ev.payload]
    else []
  }

  lemma StepReleases(a: Assoc, ev: Event, now: int, peekOrigin: Payload -> Option<Address>)
    requires Inv(a)
    ensures Delivered(Step(a, ev, now, peekOrigin).1) == ReleasedBy(a, ev, now)
  {
    var (b, effects) := Step(a, ev, now, peekOrigin);
    if a.state == Throttling && ev.DequeueEv? && a.queue != [] {
      var p := a.queue[0];
      var mode := TryConsumeTokens(a.inboundMode.value, now, |p|).0;
      var s := ScheduleHead(mode, a.queue[1..], now);
      ScheduleDeliversNothing(mode, a.queue[1..], now);
      DeliveredNone(s);
      DeliveredConcat([Deliver(a.upstreamListener.value, p)], s);
      assert [Deliver(a.upstreamListener.value, p)][..0] == [];
    } else if ReleasedBy(a, ev, now) != [] {
      assert [Deliver(a.upstreamListener.value, ev.payload)][..0] == [];
    } else {
      if a.state == Throttling && ev.ModeEv? {
        ScheduleDeliversNothing(ev.mode, b.queue, now);
      } else if a.state == Throttling && ev.DequeueEv? {
      } else if a.state == Throttling && ev.InboundPayload? && a.queue == [] {
        ScheduleDeliversNothing(a.inboundMode.value, [ev.payload], now);
        assert !a.inboundMode.value.Blackhole? ==>
          effects == ScheduleHead(a.inboundMode.value, [ev.payload], now);
      }
      DeliveredNone(effects);
    }
  }

  /**
   * One step keeps the queue discipline: unless it discards, what is released plus what
   * stays queued is the old queue plus the payload taken in, in the same order.
   */
  lemma StepLossless(a: Assoc, ev: Event, now: int, peekOrigin: Payload -> Option<Address>)
    requires Inv(a) && !Drops(a, ev)
    ensures var (b, effects) := Step(a, ev, now, peekOrigin);
      Delivered(effects) + b.queue == a.queue + Received(a, ev)
  {
    if a.state == Throttling {
      ThrottlingLossless(a, ev, now, peekOrigin);
    } else {
      WaitingLossless(a, ev, now, peekOrigin);
    }
  }

  /** StepLossless before throttling starts: payloads are only queued. */
  lemma WaitingLossless(a: Assoc, ev: Event, now: int, peekOrigin: Payload -> Option<Address>)
    requires Inv(a) && !Drops(a, ev) && a.state != Throttling
    ensures var (b, effects) := Step(a, ev, now, peekOrigin);
      Delivered(effects) + b.queue == a.queue + Received(a, ev)
  {
    StepReleases(a, ev, now, peekOrigin);
  }

  /** StepLossless while throttling: a Dequeue moves the head from the queue to the output. */
  lemma ThrottlingLossless(a: Assoc, ev: Event, now: int, peekOrigin: Payload -> Option<Address>)
    requires Inv(a) && !Drops(a, ev) && a.state == Throttling
    ensures var (b, effects) := Step(a, ev, now, peekOrigin);
      Delivered(effects) + b.queue == a.queue + Received(a, ev)
  {
    StepReleases(a, ev, now, peekOrigin);
    var (b, effects) := Step(a, ev, now, peekOrigin);
    match ev
    case DequeueEv =>
      if a.queue != [] {
        assert Delivered(effects) + b.queue == [a.queue[0]] + a.queue[1..];
      }
    case InboundPayload(p) =>
      assert (b, effects) == ForwardOrDelayStep(a, p, now);
    case _ =>
  }

  /** Every step, discarding or not, releases and keeps an order-preserving selection. */
  lemma StepKeepsOrder(a: Assoc, ev: Event, now: int, peekOrigin: Payload -> Option<Address>)
    requires Inv(a)
    ensures var (b, effects) := Step(a, ev, now, peekOrigin);
      IsSubseq(Delivered(effects) + b.queue, a.queue + Received(a, ev))
  {
    var (b, effects) := Step(a, ev, now, peekOrigin);
    var kept, taken := Delivered(effects) + b.queue, a.queue + Received(a, ev);
    if !Drops(a, ev) {
      StepLossless(a, ev, now, peekOrigin);
      SubseqRefl(taken);
    } else {
      StepReleases(a, ev, now, peekOrigin);
      if kept == [] {
        SubseqOfEmpty(taken);
      } else {
        assert kept == a.queue + [] && taken == a.queue + [ev.payload];
        SubseqRefl(a.queue);
        SubseqOfEmpty([ev.payload]);
        SubseqConcat(a.queue, a.queue, [], [ev.payload]);
      }
    }
  }

  /**
   * Over any run in which nothing was thrown away or left behind at a stop, payloads
   * reach the upstream listener in the order they arrived, none lost or duplicated:
   * released plus still queued is exactly the initial queue plus everything taken in,
   * and a live actor that stops during the run stops with nothing queued.
   */
  lemma {:induction false} RunLossless(a: Assoc, inputs: seq<Input>, peekOrigin: Payload -> Option<Address>)
    requires Inv(a) && !Run(a, inputs, peekOrigin).discarded
    ensures var t := Run(a, inputs, peekOrigin);
      Delivered(t.effects) + t.final.queue == a.queue + t.received
    ensures var t := Run(a, inputs, peekOrigin);
      a.state != Stopped && t.final.state == Stopped ==> t.final.queue == []
    decreases |inputs|
  {
    if inputs == [] {
      assert Delivered([]) == [];
    } else {
      var t := Run(a, inputs, peekOrigin);
      var prev := Run(a, inputs[..|inputs| - 1], peekOrigin);
      var input := inputs[|inputs| - 1];
      RunLossless(a, inputs[..|inputs| - 1], peekOrigin);
      StepLossless(prev.final, input.event, input.now, peekOrigin);
      if prev.final.state != Stopped {
        StopLeavesNothing(prev.final, input.event, input.now, peekOrigin);
      }
      var step := Step(prev.final, input.event, input.now, peekOrigin);
      DeliveredConcat(prev.effects, step.1);
      var r1 := Received(prev.final, input.event);
      var d0, d1 := Delivered(prev.effects), Delivered(step.1);
      ChainLossless(a.queue, prev.received, r1, d0, prev.final.queue, d1, step.0.queue);
      assert Delivered(t.effects) + t.final.queue == (d0 + d1) + step.0.queue;
      assert a.queue + t.received == a.queue + (prev.received + r1);
    }
  }

  /**
   * Over any run, even one with blackholes, what reaches the upstream listener plus what
   * is still queued is an order-preserving selection of the initial queue plus everything
   * taken in: payloads may be thrown away but never reordered or duplicated.
   */
  lemma {:induction false} RunKeepsOrder(a: Assoc, inputs: seq<Input>, peekOrigin: Payload -> Option<Address>)
    requires Inv(a)
    ensures var t := Run(a, inputs, peekOrigin);
      IsSubseq(Delivered(t.effects) + t.final.queue, a.queue + t.received)
    decreases |inputs|
  {
    if inputs == [] {
      var t := Run(a, inputs, peekOrigin);
      assert t == Trace(a, [], [], false);
      assert Delivered([]) == [];
      assert Delivered(t.effects) + t.final.queue == a.queue == a.queue + t.received;
      SubseqRefl(a.queue);
    } else {
      var t := Run(a, inputs, peekOrigin);
      var prev := Run(a, inputs[..|inputs| - 1], peekOrigin);
      var input := inputs[|inputs| - 1];
      RunKeepsOrder(a, inputs[..|inputs| - 1], peekOrigin);
      StepKeepsOrder(prev.final, input.event, input.now, peekOrigin);
      var step := Step(prev.final, input.event, input.now, peekOrigin);
      DeliveredConcat(prev.effects, step.1);
      var r1 := Received(prev.final, input.event);
      var d0, d1 := Delivered(prev.effects), Delivered(step.1);
      ChainQueues(a.queue, prev.received, r1, d0, prev.final.queue, d1, step.0.queue);
      assert Delivered(t.effects) + t.final.queue == (d0 + d1) + step.0.queue;
      assert a.queue + t.received == a.queue + (prev.received + r1);
    }
  }

  /** Chaining two lossless stretches of queue discipline. */
  lemma ChainLossless(q0: seq<Payload>, r0: seq<Payload>, r1: seq<Payload>,
                      d0: seq<Payload>, q1: seq<Payload>, d1: seq<Payload>, q2: seq<Payload>)
    requires d0 + q1 == q0 + r0 && d1 + q2 == q1 + r1
    ensures (d0 + d1) + q2 == q0 + (r0 + r1)
  {
    calc {
      (d0 + d1) + q2;
      d0 + (d1 + q2);
      d0 + (q1 + r1);
      (d0 + q1) + r1;
      (q0 + r0) + r1;
    }
  }

  /**
   * Chaining two stretches of queue discipline: released-so-far plus queue against
   * everything taken in, then one more step on the queue.
   */
  lemma ChainQueues(q0: seq<Payload>, r0: seq<Payload>, r1: seq<Payload>,
                    d0: seq<Payload>, q1: seq<Payload>, d1: seq<Payload>, q2: seq<Payload>)
    requires IsSubseq(d0 + q1, q0 + r0) && IsSubseq(d1 + q2, q1 + r1)
    ensures IsSubseq((d0 + d1) + q2, q0 + (r0 + r1))
  {
    var released, middle, taken := (d0 + d1) + q2, (d0 + q1) + r1, q0 + (r0 + r1);
    assert released == d0 + (d1 + q2);
    assert middle == d0 + (q1 + r1);
    assert taken == (q0 + r0) + r1;
    SubseqRefl(d0);
    SubseqConcat(d0, d0, d1 + q2, q1 + r1);
    assert IsSubseq(released, middle);
    SubseqRefl(r1);
    SubseqConcat(d0 + q1, q0 + r0, r1, r1);
    assert IsSubseq(middle, taken);
    SubseqTrans(released, middle, taken);
  }

  /**
   * A live actor that stops on an event it does not discard on stops with an empty queue:
   * a disassociation or failure with nothing queued (a blackhole in WaitMode discards).
   */
  lemma StopLeavesNothing(a: Assoc, ev: Event, now: int, peekOrigin: Payload -> Option<Address>)
    requires Inv(a) && a.state != Stopped && !Discards(a, ev)
    ensures Step(a, ev, now, peekOrigin).0.state == Stopped ==> Step(a, ev, now, peekOrigin).0.queue == []
  {
  }

  /**
   * A disassociation or failure stops a live actor, releasing nothing: whatever is queued
   * stays in the stopped actor, which then ignores every event.
   */
  lemma StopAbandonsQueue(a: Assoc, ev: Event, now: int, peekOrigin: Payload -> Option<Address>)
    requires Inv(a) && a.state != Stopped && (ev.DisassociatedEv? || ev.FailWithEv?)
    ensures var (b, effects) := Step(a, ev, now, peekOrigin);
      && b.state == Stopped && b.queue == a.queue && Delivered(effects) == []
      && (forall ev2, now2 :: Step(b, ev2, now2, peekOrigin) == (b, []))
  {
    var (b, effects) := Step(a, ev, now, peekOrigin);
    DeliveredNone(effects);
  }

  /**
   * Payloads taken in are lost only under a blackhole, before the handle is known, or when
   * the actor stops: on every other step, released plus queued is the old queue plus the
   * payload taken in.
   */
  lemma DiscardsOnlyUnderBlackhole(a: Assoc, ev: Event, now: int, peekOrigin: Payload -> Option<Address>)
    requires Inv(a)
    ensures var (b, effects) := Step(a, ev, now, peekOrigin);
      Delivered(effects) + b.queue != a.queue + Received(a, ev) ==>
        || (a.state == WaitExposedHandle && ev.InboundPayload?)
        || ((a.state == WaitMode || a.state == Throttling) && ev.ModeEv? && ev.mode.Blackhole? && a.queue != [])
        || (a.state == Throttling && ev.InboundPayload? && a.inboundMode == Some(Blackhole))
  {
    if !Drops(a, ev) {
      StepLossless(a, ev, now, peekOrigin);
    }
  }

  /** In every live state a mode change is recorded and acknowledged exactly once, last. */
  lemma EveryModeChangeAcknowledged(a: Assoc, m: ThrottleMode, now: int, peekOrigin: Payload -> Option<Address>)
    requires Inv(a) && a.state != Stopped
    ensures var (b, effects) := Step(a, ModeEv(m), now, peekOrigin);
      && b.inboundMode == Some(m)
      && |effects| > 0 && effects[|effects| - 1] == AckSetThrottle
      && AckSetThrottle !in effects[..|effects| - 1]
  {
    var (b, effects) := Step(a, ModeEv(m), now, peekOrigin);
    if a.state == Throttling {
      var s := ScheduleHead(m, b.queue, now);
      ScheduleDeliversNothing(m, b.queue, now);
      assert effects[..|effects| - 1] == [CancelDequeueTimer] + s;
    }
  }

  /** A blackhole arriving before the listener is known stops an inbound association. */
  lemma BlackholeInWaitModeStops(a: Assoc, now: int, peekOrigin: Payload -> Option<Address>)
    requires Inv(a) && a.state == WaitMode
    ensures var (b, effects) := Step(a, ModeEv(Blackhole), now, peekOrigin);
      && b.state == Stopped && b.queue == []
      && effects == [DisassociateHandle(a.exposedHandle.value), AckSetThrottle]
  {
  }

  /** A blackhole while throttling empties the queue and schedules nothing. */
  lemma BlackholeWhileThrottlingClearsQueue(a: Assoc, now: int, peekOrigin: Payload -> Option<Address>)
    requires Inv(a) && a.state == Throttling
    ensures var (b, effects) := Step(a, ModeEv(Blackhole), now, peekOrigin);
      && b.state == Throttling && b.queue == [] && b.inboundMode == Some(Blackhole)
      && effects == [CancelDequeueTimer, AckSetThrottle]
  {
  }

  /**
   * A payload is released the moment it arrives only when nothing is queued ahead of it,
   * the mode is not a blackhole and the mode admits it.
   */
  lemma ImmediateReleaseOnlyWhenQueueEmpty(a: Assoc, p: Payload, now: int, peekOrigin: Payload -> Option<Address>)
    requires Inv(a) && a.state == Throttling
    ensures var (b, effects) := Step(a, InboundPayload(p), now, peekOrigin);
      var mode := a.inboundMode.value;
      && (Delivered(effects) == [p] <==>
            a.queue == [] && !mode.Blackhole? && TryConsumeTokens(mode, now, |p|).1)
      && (Delivered(effects) != [p] ==> Delivered(effects) == [])
  {
    var (b, effects) := Step(a, InboundPayload(p), now, peekOrigin);
    var mode := a.inboundMode.value;
    if !mode.Blackhole? && a.queue == [] {
      if TryConsumeTokens(mode, now, |p|).1 {
        assert [Deliver(a.upstreamListener.value, p)][..0] == [];
      } else {
        ScheduleDeliversNothing(mode, [p], now);
        assert effects == ScheduleHead(mode, [p], now);
      }
    }
  }

  /**
   * A Dequeue releases exactly the oldest queued payload, charges it to the mode, and
   * arranges the next Dequeue only if more is queued.
   */
  lemma DequeueReleasesHead(a: Assoc, now: int, peekOrigin: Payload -> Option<Address>)
    requires Inv(a) && a.state == Throttling && a.queue != []
    ensures var (b, effects) := Step(a, DequeueEv, now, peekOrigin);
      var mode := TryConsumeTokens(a.inboundMode.value, now, |a.queue[0]|).0;
      && Delivered(effects) == [a.queue[0]]
      && b.queue == a.queue[1..] && b.inboundMode == Some(mode)
      && (|a.queue| == 1 ==> |effects| == 1)
  {
    var (b, effects) := Step(a, DequeueEv, now, peekOrigin);
    var p := a.queue[0];
    var mode := TryConsumeTokens(a.inboundMode.value, now, |p|).0;
    ScheduleDeliversNothing(mode, a.queue[1..], now);
    DeliveredConcat([Deliver(a.upstreamListener.value, p)], ScheduleHead(mode, a.queue[1..], now));
    assert [Deliver(a.upstreamListener.value, p)][..0] == [];
  }

  /** A throttling actor under blackhole with nothing queued, or a stopped one. */
  predicate Silent(a: Assoc) {
    (a.state == Throttling && a.inboundMode == Some(Blackhole) && a.queue == []) || a.state == Stopped
  }

  /**
   * Once throttling under blackhole with nothing queued, the actor releases nothing at
   * all until the next mode change, whatever arrives.
   */
  lemma {:induction false} BlackholeSilences(a: Assoc, inputs: seq<Input>, peekOrigin: Payload -> Option<Address>)
    requires Inv(a) && Silent(a)
    requires forall k :: 0 <= k < |inputs| ==> !inputs[k].event.ModeEv?
    ensures var t := Run(a, inputs, peekOrigin);
      Silent(t.final) && Delivered(t.effects) == []
    decreases |inputs|
  {
    if inputs != [] {
      var init := inputs[..|inputs| - 1];
      BlackholeSilences(a, init, peekOrigin);
      var prev := Run(a, init, peekOrigin);
      var input := inputs[|inputs| - 1];
      SilentStep(prev.final, input.event, input.now, peekOrigin);
      DeliveredConcat(prev.effects, Step(prev.final, input.event, input.now, peekOrigin).1);
    }
  }

  /** One event other than a mode change keeps a silent actor silent and releases nothing. */
  lemma SilentStep(a: Assoc, ev: Event, now: int, peekOrigin: Payload -> Option<Address>)
    requires Inv(a) && Silent(a) && !ev.ModeEv?
    ensures var (b, effects) := Step(a, ev, now, peekOrigin);
      Silent(b) && Delivered(effects) == []
  {
    var (b, effects) := Step(a, ev, now, peekOrigin);
    if ev.FailWithEv? && a.state != Stopped && a.upstreamListener.Some? {
      assert [NotifyDisassociated(a.upstreamListener.value, ev.reason)][..0] == [];
    }
  }

  /**
   * Where the code differs from the intent "a blackhole lets nothing through": an
   * outbound association that receives a payload before its listener and a blackhole mode
   * arrive together keeps that payload queued, and the Dequeue sent on entering
   * Throttling releases it.
   */
  lemma OutboundBlackholeLeak(p: Payload, listener: ListenerId, peekOrigin: Payload -> Option<Address>)
    ensures var a0 := Initial(false).0;
      var (a1, e1) := Step(a0, InboundPayload(p), 0, peekOrigin);
      var (a2, e2) := Step(a1, ListenerAndModeEv(listener, Blackhole), 0, peekOrigin);
      var (a3, e3) := Step(a2, DequeueEv, 0, peekOrigin);
      && a2.state == Throttling && a2.inboundMode == Some(Blackhole) && a2.queue == [p]
      && e2 == [SendDequeue]
      && e3 == [Deliver(listener, p)]
  {
  }

  /** The inbound handshake: handle, an associate payload, a mode, the listener. */
  lemma InboundHandshake(h: ThrottlerHandle, p: Payload, origin: Address, listener: ListenerId, now: int,
                         peekOrigin: Payload -> Option<Address>)
    requires peekOrigin(p) == Some(origin)
    ensures var a0 := Initial(true).0;
      var (a1, e1) := Step(a0, HandleEv(h), now, peekOrigin);
      var (a2, e2) := Step(a1, InboundPayload(p), now, peekOrigin);
      var (a3, e3) := Step(a2, ModeEv(Unthrottled), now, peekOrigin);
      var (a4, e4) := Step(a3, ListenerEv(listener), now, peekOrigin);
      var (a5, e5) := Step(a4, DequeueEv, now, peekOrigin);
      && e1 == [RegisterReadHandler]
      && a2.state == WaitMode && e2 == [Checkin(origin, h)]
      && a3.state == WaitUpstreamListener && e3 == [NotifyInboundAssociation(h), AwaitListener(h), AckSetThrottle]
      && a4.state == Throttling && e4 == [SendDequeue]
      && a5.queue == [] && e5 == [Deliver(listener, p)]
  {
  }

  // ----------------------------------------------------------------------------------
  // The actor

  /**
   * The throttler actor of one association. Its fields are updated in place by each
   * received event; an outbound actor's start also registers it as the original
   * handle's read handler (the effects of `Initial(false)`).
   */
  class ThrottledAssociation {
    var state: State
    var exposedHandle: Option<ThrottlerHandle>
    var inboundThrottleMode: Option<ThrottleMode>
    var throttledMessages: seq<Payload>
    var upstreamListener: Option<ListenerId>
    const inbound: bool
    /** Decodes a payload and yields the origin of an associate message, or nothing. */
    const peekOrigin: Payload -> Option<Address>

    function Snapshot(): Assoc
      reads this
    {
      Assoc(state, exposedHandle, inboundThrottleMode, throttledMessages, upstreamListener)
    }

    constructor (inbound: bool, peekOrigin: Payload -> Option<Address>)
      ensures Snapshot() == Initial(inbound).0
      ensures this.inbound == inbound && this.peekOrigin == peekOrigin
    {
      this.inbound := inbound;
      this.peekOrigin := peekOrigin;
      state := if inbound then WaitExposedHandle else WaitModeAndUpstreamListener;
      exposedHandle := None;
      inboundThrottleMode := None;
      throttledMessages := [];
      upstreamListener := None;
    }

    method HandleUnhandled(ev: Event) returns (effects: seq<Effect>)
      modifies this`state, this`inboundThrottleMode
      ensures (Snapshot(), effects) == WhenUnhandled(old(Snapshot()), ev)
    {
      effects := [];
      match ev
      case ModeEv(m) =>
        inboundThrottleMode := Some(m);
        effects := [AckSetThrottle];
      case DisassociatedEv(_) =>
        state := Stopped;
      case FailWithEv(reason) =>
        if upstreamListener.Some? {
          effects := [NotifyDisassociated(upstreamListener.value, reason)];
        }
        state := Stopped;
      case _ =>
    }

    method ForwardOrDelay(p: Payload, now: int) returns (effects: seq<Effect>)
      requires inboundThrottleMode.Some? && upstreamListener.Some?
      modifies this`inboundThrottleMode, this`throttledMessages
      ensures (Snapshot(), effects) == ForwardOrDelayStep(old(Snapshot()), p, now)
    {
      effects := [];
      var mode := inboundThrottleMode.value;
      if !mode.Blackhole? {
        if throttledMessages == [] {
          var tokens := |p|;
          var res := TryConsumeTokens(mode, now, tokens);
          var newBucket, success := res.0, res.1;
          if success {
            inboundThrottleMode := Some(newBucket);
            effects := [Deliver(upstreamListener.value, p)];
          } else {
            throttledMessages := [p];
            effects := ScheduleDequeue(mode, TimeToAvailable(mode, now, tokens));
          }
        } else {
          throttledMessages := throttledMessages + [p];
        }
      }
    }

    /** Handles one event, updating the actor's fields as `Step` does. */
    method Receive(ev: Event, now: int) returns (effects: seq<Effect>)
      requires Inv(Snapshot())
      modifies this
      ensures Inv(Snapshot())
      ensures (Snapshot(), effects) == Step(old(Snapshot()), ev, now, peekOrigin)
    {
      effects := [];
      match state
      case Stopped =>
      case WaitExposedHandle =>
        if ev.HandleEv? {
          effects := [RegisterReadHandler];
          state := WaitOrigin;
          exposedHandle := Some(ev.handle);
        } else {
          effects := HandleUnhandled(ev);
        }
      case WaitOrigin =>
        if ev.InboundPayload? {
          throttledMessages := throttledMessages + [ev.payload];
          var origin := peekOrigin(ev.payload);
          if origin.Some? {
            effects := [Checkin(origin.value, exposedHandle.value)];
            state := WaitMode;
          }
        } else {
          effects := HandleUnhandled(ev);
        }
      case WaitMode =>
        if ev.InboundPayload? {
          throttledMessages := throttledMessages + [ev.payload];
        } else if ev.ModeEv? {
          var handle := exposedHandle.value;
          inboundThrottleMode := Some(ev.mode);
          if ev.mode.Blackhole? {
            throttledMessages := [];
            effects := [DisassociateHandle(handle), AckSetThrottle];
            state := Stopped;
          } else {
            effects := [NotifyInboundAssociation(handle), AwaitListener(handle), AckSetThrottle];
            state := WaitUpstreamListener;
          }
        } else {
          effects := HandleUnhandled(ev);
        }
      case WaitUpstreamListener =>
        if ev.InboundPayload? {
          throttledMessages := throttledMessages + [ev.payload];
        } else if ev.ListenerEv? {
          upstreamListener := Some(ev.listener);
          effects := [SendDequeue];
          state := Throttling;
        } else {
          effects := HandleUnhandled(ev);
        }
      case WaitModeAndUpstreamListener =>
        if ev.ListenerAndModeEv? {
          upstreamListener := Some(ev.listener);
          inboundThrottleMode := Some(ev.mode);
          effects := [SendDequeue];
          state := Throttling;
        } else if ev.InboundPayload? {
          throttledMessages := throttledMessages + [ev.payload];
        } else {
          effects := HandleUnhandled(ev);
        }
      case Throttling =>
        if ev.ModeEv? {
          inboundThrottleMode := Some(ev.mode);
          if ev.mode.Blackhole? {
            throttledMessages := [];
          }
          effects := [CancelDequeueTimer] + ScheduleHead(ev.mode, throttledMessages, now) + [AckSetThrottle];
        } else if ev.InboundPayload? {
          effects := ForwardOrDelay(ev.payload, now);
        } else if ev.DequeueEv? {
          if throttledMessages != [] {
            var payload := throttledMessages[0];
            throttledMessages := throttledMessages[1..];
            effects := [Deliver(upstreamListener.value, payload)];
            var mode := TryConsumeTokens(inboundThrottleMode.value, now, |payload|).0;
            inboundThrottleMode := Some(mode);
            effects := effects + ScheduleHead(mode, throttledMessages, now);
          }
        } else {
          effects := HandleUnhandled(ev);
        }
    }
  }
}
