/**
 * The throttle modes of the throttling transport adapter: pass-through, blackhole and a
 * token bucket. Every mode is an immutable value; consuming tokens returns a new mode.
 *
 * Time is a nanosecond reading of the monotonic clock, passed in as `now`. The bucket's
 * refill rate is a positive whole number of tokens per second.
 */
module ThrottleModes {

  /** Refill rate of a token bucket, in tokens per second. */
  type Rate = r: int | r > 0 witness 1

  /** Which traffic of a peer a directive governs. */
  datatype Direction = Send | Receive | Both {
    /** The directive applies to outbound writes. */
    predicate GovernsSend() { this == Send || this == Both }
    /** The directive applies to inbound payloads. */
    predicate GovernsReceive() { this == Receive || this == Both }
  }

  datatype ThrottleMode =
    | Unthrottled
    | Blackhole
    | TokenBucket(capacity: int, tokensPerSecond: Rate, nanoTimeOfLastSend: int, availableTokens: int)

  /** An exact duration of num/den seconds (den is the bucket's rate). */
  datatype Duration = Seconds(num: int, den: Rate) {
    predicate IsPositive() { num > 0 }
  }

  const ZeroDuration: Duration := Seconds(0, 1)

  function Min(a: int, b: int): int { if a <= b then a else b }

  /** Integer division that truncates toward zero, as C#'s `/` on `long` does. */
  function TruncDiv(a: int, b: int): (q: int)
    requires b > 0
    ensures a >= 0 ==> q * b <= a < q * b + b
    ensures a < 0 ==> q * b - b < a <= q * b
  {
    if a >= 0 then a / b else -((-a) / b)
  }

  /** x/d rounded to the nearest integer, ties to the even one (what Convert.ToInt32 does). */
  function RoundHalfEven(x: int, d: int): (r: int)
    requires d > 0
    ensures x / d <= r <= x / d + 1
    ensures -d <= 2 * (x - r * d) <= d
    ensures (2 * (x - r * d) == d || 2 * (x - r * d) == -d) ==> r % 2 == 0
  {
    var q, rem := x / d, x % d;
    if 2 * rem < d then q
    else if 2 * rem > d then q + 1
    else if q % 2 == 0 then q
    else q + 1
  }

  /** Milliseconds between two nanosecond readings: nanoseconds to ticks (100 ns), ticks to ms. */
  function MillisBetween(now: int, last: int): int {
    TruncDiv(TruncDiv(now - last, 100), 10000)
  }

  /** Tokens the bucket has generated since its last send. */
  function TokensGenerated(m: ThrottleMode, now: int): (r: int)
    requires m.TokenBucket?
    ensures var x := MillisBetween(now, m.nanoTimeOfLastSend) * m.tokensPerSecond;
      && x / 1000 <= r <= x / 1000 + 1
      && -1000 <= 2 * (x - r * 1000) <= 1000
      && (2 * (x - r * 1000) == 1000 || 2 * (x - r * 1000) == -1000 ==> r % 2 == 0)
    ensures now >= m.nanoTimeOfLastSend ==> r >= 0
    ensures now == m.nanoTimeOfLastSend ==> r == 0
  {
    RoundHalfEven(MillisBetween(now, m.nanoTimeOfLastSend) * m.tokensPerSecond, 1000)
  }

  /** Whether `tokens` may pass now: oversize frames pass on any positive balance. */
  predicate IsAvailable(m: ThrottleMode, now: int, tokens: int)
    requires m.TokenBucket?
  {
    (tokens > m.capacity && m.availableTokens > 0)
    || Min(m.availableTokens + TokensGenerated(m, now), m.capacity) >= tokens
  }

  /**
   * Tries to consume `tokens` at `now`: the mode to keep afterwards and whether the frame
   * is admitted. A denial always hands back the very same mode.
   */
  function TryConsumeTokens(m: ThrottleMode, now: int, tokens: int): (r: (ThrottleMode, bool))
    ensures m.Unthrottled? ==> r == (m, true)
    ensures m.Blackhole? ==> r == (m, false)
    ensures !r.1 ==> r.0 == m
    ensures m.TokenBucket? ==>
      r.0.TokenBucket? && r.0.capacity == m.capacity && r.0.tokensPerSecond == m.tokensPerSecond
    ensures m.TokenBucket? && r.1 ==>
      r.0.nanoTimeOfLastSend == now && r.0.availableTokens <= m.capacity
  {
    match m
    case Unthrottled => (m, true)
    case Blackhole => (m, false)
    case TokenBucket(capacity, _, _, available) =>
      if IsAvailable(m, now, tokens) then
        (m.(nanoTimeOfLastSend := now,
            availableTokens := Min(available - tokens + TokensGenerated(m, now), capacity)), true)
      else
        (m, false)
  }

  /** How long until `tokens` would be admitted; zero for the two fixed modes. */
  function TimeToAvailable(m: ThrottleMode, now: int, tokens: int): (d: Duration)
    ensures !m.TokenBucket? ==> d == ZeroDuration
    ensures m.TokenBucket? ==> d.den == m.tokensPerSecond
    ensures m.TokenBucket? ==>
      (d.IsPositive() <==> TokensGenerated(m, now) < (if tokens > m.capacity then 1 else tokens))
  {
    match m
    case Unthrottled => ZeroDuration
    case Blackhole => ZeroDuration
    case TokenBucket(capacity, rate, _, _) =>
      Seconds((if tokens > capacity then 1 else tokens) - TokensGenerated(m, now), rate)
  }

  // ----------------------------------------------------------------------------------
  // Properties of the token bucket

  /**
   * The admission rule, resolved by frame size: an oversize frame passes exactly when the
   * balance is positive; any other frame exactly when balance plus refill covers it.
   */
  lemma BucketAdmissionRule(m: ThrottleMode, now: int, tokens: int)
    requires m.TokenBucket?
    ensures tokens > m.capacity ==> (TryConsumeTokens(m, now, tokens).1 <==> m.availableTokens > 0)
    ensures tokens <= m.capacity ==>
      (TryConsumeTokens(m, now, tokens).1 <==> m.availableTokens + TokensGenerated(m, now) >= tokens)
  {
  }

  /**
   * On admission the balance is refilled, charged and capped at the capacity, never
   * clamped below zero; the capacity and the rate stay as they were.
   */
  lemma BucketAdmissionUpdate(m: ThrottleMode, now: int, tokens: int)
    requires m.TokenBucket?
    requires TryConsumeTokens(m, now, tokens).1
    ensures var b := TryConsumeTokens(m, now, tokens).0;
      && b.availableTokens == Min(m.availableTokens - tokens + TokensGenerated(m, now), m.capacity)
      && b.availableTokens <= m.availableTokens + TokensGenerated(m, now) - tokens
      && b == TokenBucket(m.capacity, m.tokensPerSecond, now, b.availableTokens)
  {
  }

  /**
   * An oversize frame sent within the same instant as the last send is admitted on a
   * positive balance and leaves the bucket in debt.
   */
  lemma OversizeFrameCreatesDebt(m: ThrottleMode, tokens: int)
    requires m.TokenBucket? && 0 < m.availableTokens <= m.capacity < tokens
    ensures var r := TryConsumeTokens(m, m.nanoTimeOfLastSend, tokens);
      r.1 && r.0.availableTokens < 0
  {
    assert TokensGenerated(m, m.nanoTimeOfLastSend) == 0;
  }

  /** Floor division by a positive number is monotone. */
  lemma DivMonotone(x: int, y: int, d: int)
    requires d > 0 && x <= y
    ensures x / d <= y / d
  {
    var qx, qy := x / d, y / d;
    if qx > qy {
      MulAtLeastOne(d, qx - qy);
      assert false;
    }
  }

  lemma MulAtLeastOne(d: int, k: int)
    requires d > 0 && k >= 1
    ensures d * k >= d
  {
  }

  /** Rounding half to even never reverses the order of its arguments. */
  lemma RoundHalfEvenMonotone(x: int, y: int, d: int)
    requires d > 0 && x <= y
    ensures RoundHalfEven(x, d) <= RoundHalfEven(y, d)
  {
    DivMonotone(x, y, d);
    if x / d == y / d {
      assert x == d * (x / d) + x % d;
      assert y == d * (y / d) + y % d;
      assert x % d <= y % d;
    }
  }

  /** Truncating division by a positive number is monotone. */
  lemma TruncDivMonotone(a: int, b: int, d: int)
    requires d > 0 && a <= b
    ensures TruncDiv(a, d) <= TruncDiv(b, d)
  {
    if a >= 0 {
      DivMonotone(a, b, d);
    } else if b < 0 {
      DivMonotone(-b, -a, d);
    } else {
      DivMonotone(0, -a, d);
      DivMonotone(0, b, d);
      assert TruncDiv(a, d) <= 0 <= TruncDiv(b, d);
    }
  }

  /** A later clock reading never yields fewer generated tokens. */
  lemma TokensGeneratedMonotone(m: ThrottleMode, t1: int, t2: int)
    requires m.TokenBucket? && t1 <= t2
    ensures TokensGenerated(m, t1) <= TokensGenerated(m, t2)
  {
    var last := m.nanoTimeOfLastSend;
    TruncDivMonotone(t1 - last, t2 - last, 100);
    TruncDivMonotone(TruncDiv(t1 - last, 100), TruncDiv(t2 - last, 100), 10000);
    var ms1, ms2 := MillisBetween(t1, last), MillisBetween(t2, last);
    MulMonotone(ms1, ms2, m.tokensPerSecond);
    RoundHalfEvenMonotone(ms1 * m.tokensPerSecond, ms2 * m.tokensPerSecond, 1000);
  }

  lemma MulMonotone(x: int, y: int, k: int)
    requires x <= y && k > 0
    ensures x * k <= y * k
  {
    assert (y - x) * k >= 0;
  }

  /** A frame the bucket admits now it also admits at any later time. */
  lemma AdmissionPersistsOverTime(m: ThrottleMode, t1: int, t2: int, tokens: int)
    requires m.TokenBucket? && t1 <= t2
    requires TryConsumeTokens(m, t1, tokens).1
    ensures TryConsumeTokens(m, t2, tokens).1
  {
    TokensGeneratedMonotone(m, t1, t2);
  }

  /**
   * When TimeToAvailable says a frame that fits the bucket is due (a delay of zero or
   * less) and the bucket is not in debt, the frame is admitted.
   */
  lemma DueFrameIsAdmitted(m: ThrottleMode, now: int, tokens: int)
    requires m.TokenBucket? && 0 <= m.availableTokens && tokens <= m.capacity
    requires !TimeToAvailable(m, now, tokens).IsPositive()
    ensures TryConsumeTokens(m, now, tokens).1
  {
  }

  /** Applies a sequence of (time, tokens) consumption attempts in order. */
  function ConsumeAll(m: ThrottleMode, attempts: seq<(int, int)>): ThrottleMode
    decreases |attempts|
  {
    if attempts == [] then m
    else
      var last := attempts[|attempts| - 1];
      TryConsumeTokens(ConsumeAll(m, attempts[..|attempts| - 1]), last.0, last.1).0
  }

  /**
   * Conservation: however many sends are attempted, a bucket that starts within its
   * capacity never holds more than its capacity, and keeps its capacity and rate.
   */
  lemma {:induction false} BucketNeverExceedsCapacity(m: ThrottleMode, attempts: seq<(int, int)>)
    requires m.TokenBucket? && m.availableTokens <= m.capacity
    ensures var b := ConsumeAll(m, attempts);
      && b.TokenBucket?
      && b.capacity == m.capacity && b.tokensPerSecond == m.tokensPerSecond
      && b.availableTokens <= m.capacity
    decreases |attempts|
  {
    if attempts != [] {
      BucketNeverExceedsCapacity(m, attempts[..|attempts| - 1]);
    }
  }

  /**
   * The worked example: capacity 10, 10 tokens per second, full at time 0. Four tokens
   * pass (6 left), seven are refused at the same instant, and one second later seven pass
   * leaving min(6 - 7 + 10, 10) = 9.
   */
  lemma TokenBucketScenario()
    ensures var b0 := TokenBucket(10, 10, 0, 10);
      && TryConsumeTokens(b0, 0, 4) == (TokenBucket(10, 10, 0, 6), true)
      && TryConsumeTokens(TokenBucket(10, 10, 0, 6), 0, 7) == (TokenBucket(10, 10, 0, 6), false)
      && TryConsumeTokens(TokenBucket(10, 10, 0, 6), 1000000000, 7)
         == (TokenBucket(10, 10, 1000000000, 9), true)
  {
    assert TokensGenerated(TokenBucket(10, 10, 0, 10), 0) == 0;
    assert TokensGenerated(TokenBucket(10, 10, 0, 6), 0) == 0;
    assert MillisBetween(1000000000, 0) == 1000;
    assert TokensGenerated(TokenBucket(10, 10, 0, 6), 1000000000) == 10;
  }
}
