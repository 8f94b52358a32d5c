/**
 * The handle the throttler hands upstream for one association. It owns the outbound
 * throttle mode cell that every write consults and updates, and it gates writes to the
 * wrapped (underlying) handle.
 */
module ThrottlerHandles {
  import opened ThrottleModes
  import opened TransportTypes

  class ThrottlerHandle {
    /** The throttler actor running this association's inbound state machine. */
    const throttlerActor: ActorId
    /** The outbound throttle mode cell; a fresh handle is unthrottled. */
    var outboundThrottleMode: ThrottleMode

    constructor (throttlerActor: ActorId)
      ensures this.throttlerActor == throttlerActor
      ensures outboundThrottleMode == Unthrottled
    {
      this.throttlerActor := throttlerActor;
      outboundThrottleMode := Unthrottled;
    }

    /**
     * Replaces the cell's mode by `update` only if it still holds `expected`. Run on its
     * own, as here, no other writer can come in between a read and this call.
     */
    method CompareAndSet(expected: ThrottleMode, update: ThrottleMode) returns (swapped: bool)
      modifies this`outboundThrottleMode
      ensures swapped == (old(outboundThrottleMode) == expected)
      ensures outboundThrottleMode == if swapped then update else old(outboundThrottleMode)
    {
      swapped := outboundThrottleMode == expected;
      if swapped {
        outboundThrottleMode := update;
      }
    }

    /**
     * One consume attempt against the mode read from the cell: on admission the consumed
     * mode is swapped in. Without concurrent writers the swap cannot fail, so the retry
     * that follows a failed swap is never taken.
     */
    method TryConsume(currentBucket: ThrottleMode, now: int, tokens: int) returns (admitted: bool)
      requires currentBucket == outboundThrottleMode
      modifies this`outboundThrottleMode
      ensures admitted == TryConsumeTokens(currentBucket, now, tokens).1
      ensures outboundThrottleMode ==
        if admitted then TryConsumeTokens(currentBucket, now, tokens).0 else currentBucket
    {
      var res := TryConsumeTokens(currentBucket, now, tokens);
      var newBucket, allow := res.0, res.1;
      if allow {
        admitted := CompareAndSet(currentBucket, newBucket);
      } else {
        admitted := false;
      }
    }

    /**
     * Writes `payload` through the gate. A blackholed connection reports success and
     * forwards nothing; otherwise the payload's length is consumed from the outbound
     * mode and the payload is forwarded only on admission. The result is then what the
     * wrapped handle reported (`wrappedAccepts`), or false when the gate refused.
     */
    method Write(payload: Payload, now: int, wrappedAccepts: bool) returns (written: bool, forwarded: bool)
      modifies this`outboundThrottleMode
      ensures old(outboundThrottleMode).Blackhole? ==>
        written && !forwarded && outboundThrottleMode == old(outboundThrottleMode)
      ensures !old(outboundThrottleMode).Blackhole? ==>
        var (consumed, admitted) := TryConsumeTokens(old(outboundThrottleMode), now, |payload|);
        && forwarded == admitted
        && written == (admitted && wrappedAccepts)
        && outboundThrottleMode == if admitted then consumed else old(outboundThrottleMode)
    {
      var tokens := |payload|;
      var throttleMode := outboundThrottleMode;
      if throttleMode.Blackhole? {
        return true, false;
      }
      var success := TryConsume(outboundThrottleMode, now, tokens);
      forwarded := success;
      written := success && wrappedAccepts;
    }
  }
}
