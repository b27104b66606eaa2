/** `request_with_retry`: bounded retries with server-directed or exponential delays, over exact reals. */
module HttpRetry {
  import opened Domain

  datatype Policy = Policy(maxAttempts: int, baseDelay: real, maxDelay: real, jitterRatio: real)

  /** What the constructor accepts. */
  predicate Allowed(p: Policy) {
    p.maxAttempts >= 1 && p.baseDelay >= 0.0 && p.maxDelay >= 0.0 && 0.0 <= p.jitterRatio <= 1.0
  }

  type RetryPolicy = p: Policy | Allowed(p) witness Policy(3, 1.0, 60.0, 0.25)

  /** A `Retry-After` header: a number, a date, or something else. */
  datatype RetryAfter = Missing | Blank | Seconds(seconds: real) | Until(at: real) | Garbled

  /** `remainingZero` and `reset` come from the rate-limit headers, `receivedAt` from the clock;
      `quotaExhausted` and `mentionsRateLimit` are the two tests that read the body. */
  datatype Response = Response(
    status: nat,
    retryAfter: RetryAfter,
    remainingZero: bool,
    reset: Option<real>,
    receivedAt: real,
    quotaExhausted: bool,
    mentionsRateLimit: bool)

  datatype Reply = TransportError | Answered(response: Response)

  datatype Reason = Transport | RateLimit | Server

  /** What random.random() yields for one delay. */
  type Unit = u: real | 0.0 <= u <= 1.0 witness 0.0

  function Least(a: real, b: real): real { if b < a then b else a }

  function NonNegative(x: real): real { if x > 0.0 then x else 0.0 }

  predicate Idempotent(verb: string) { verb in {"GET", "HEAD", "OPTIONS", "PUT", "DELETE"} }

  predicate Transient(status: nat) { status in {408, 429, 500, 502, 503, 504} }

  predicate IsRateLimited(r: Response) {
    r.retryAfter != Missing || r.remainingZero || r.mentionsRateLimit
  }

  function RetryReason(r: Response, retry403: bool): Option<Reason> {
    if Transient(r.status) then
      if r.status == 429 && r.quotaExhausted then None
      else Some(if r.status == 429 then RateLimit else Server)
    else if r.status == 403 && retry403 && IsRateLimited(r) then Some(RateLimit)
    else None
  }

  /** The delay the server asks for. */
  function RetryAfterDelay(r: Response): Option<real> {
    match r.retryAfter
    case Seconds(s) => Some(NonNegative(s))
    case Until(at) => Some(NonNegative(at - r.receivedAt))
    case _ =>
      if r.remainingZero && r.reset.Some? then Some(NonNegative(r.reset.value - r.receivedAt)) else None
  }

  function PowerOfTwo(n: nat): real { if n == 0 then 1.0 else 2.0 * PowerOfTwo(n - 1) }

  function BackoffDelay(p: RetryPolicy, attempt: nat, u: Unit): real
    requires attempt >= 1
  {
    Jittered(Plain(p.baseDelay, PowerOfTwo(attempt - 1), p.maxDelay), p.jitterRatio, u, p.maxDelay)
  }

  function Plain(base: real, factor: real, cap: real): real { Least(base * factor, cap) }

  function Jittered(delay: real, ratio: real, u: Unit, cap: real): real {
    Least(if delay != 0.0 && ratio != 0.0 then delay * (1.0 + ratio * u) else delay, cap)
  }

  /** The largest n for which Python's `2.0 ** n` is not an OverflowError. */
  const MAX_EXPONENT := 1023

  /** What a reply leads to: the loop ends with it, Python raises OverflowError, or a pause. */
  datatype Turn = Return | Overflow | Wait(delay: real)

  function Backoff(p: RetryPolicy, attempt: nat, u: Unit): Turn
    requires attempt >= 1
  {
    if attempt - 1 > MAX_EXPONENT then Overflow else Wait(BackoffDelay(p, attempt, u))
  }

  function ResponseDelay(p: RetryPolicy, r: Response, attempt: nat, u: Unit): Turn
    requires attempt >= 1
  {
    var stated := RetryAfterDelay(r);
    if stated.Some? then
      if stated.value > p.maxDelay then Return
      else Wait(Least(stated.value + p.baseDelay * p.jitterRatio * u, p.maxDelay))
    else if r.status == 403 then
      if p.maxDelay >= 60.0 then Wait(60.0) else Return
    else Backoff(p, attempt, u)
  }

  function Pause(p: RetryPolicy, verb: string, retry403: bool, reply: Reply, attempt: nat, u: Unit): Turn
    requires attempt >= 1
  {
    if attempt >= p.maxAttempts then Return
    else
      match reply
      case TransportError => if Idempotent(verb) then Backoff(p, attempt, u) else Return
      case Answered(r) => if RetryReason(r, retry403).None? then Return else ResponseDelay(p, r, attempt, u)
  }

  // ---- the bounds ----

  lemma {:induction false} PowersGrow(n: nat)
    ensures PowerOfTwo(n) >= 1.0 && PowerOfTwo(n + 1) == 2.0 * PowerOfTwo(n)
  {
    if n > 0 { PowersGrow(n - 1); }
  }

  lemma ProductNonNegative(a: real, b: real)
    requires a >= 0.0 && b >= 0.0
    ensures a * b >= 0.0
  {
  }

  lemma ProductAtMost(a: real, b: real, c: real)
    requires a >= 0.0 && b <= c
    ensures a * b <= a * c
  {
  }

  lemma JitterIsBounded(delay: real, ratio: real, u: Unit, cap: real)
    requires 0.0 <= delay <= cap && ratio >= 0.0
    ensures delay <= Jittered(delay, ratio, u, cap) <= cap
    ensures Jittered(delay, ratio, u, cap) <= delay * (1.0 + ratio)
  {
    var part := ratio * u;
    ProductNonNegative(ratio, u);
    ProductAtMost(ratio, u, 1.0);
    assert delay * (1.0 + part) == delay + delay * part && delay * (1.0 + ratio) == delay + delay * ratio;
    ProductNonNegative(delay, part);
    ProductNonNegative(delay, ratio);
    ProductAtMost(delay, part, ratio);
  }

  lemma PlainIsBounded(base: real, factor: real, cap: real)
    requires base >= 0.0 && factor >= 1.0 && cap >= 0.0
    ensures 0.0 <= Plain(base, factor, cap) <= cap
  {
    ProductNonNegative(base, factor);
  }

  /** Back-off stays between the capped exponential delay and the same delay with full jitter. */
  lemma BackoffIsBounded(p: RetryPolicy, attempt: nat, u: Unit)
    requires attempt >= 1
    ensures var plain := Plain(p.baseDelay, PowerOfTwo(attempt - 1), p.maxDelay);
      && 0.0 <= plain <= BackoffDelay(p, attempt, u) <= p.maxDelay
      && BackoffDelay(p, attempt, u) <= plain * (1.0 + p.jitterRatio)
  {
    var factor := PowerOfTwo(attempt - 1);
    PowersGrow(attempt - 1);
    PlainIsBounded(p.baseDelay, factor, p.maxDelay);
    JitterIsBounded(Plain(p.baseDelay, factor, p.maxDelay), p.jitterRatio, u, p.maxDelay);
  }

  lemma ResponseDelayIsBounded(p: RetryPolicy, r: Response, attempt: nat, u: Unit)
    requires attempt >= 1 && ResponseDelay(p, r, attempt, u).Wait?
    ensures 0.0 <= ResponseDelay(p, r, attempt, u).delay <= p.maxDelay
    ensures RetryAfterDelay(r).Some? ==> ResponseDelay(p, r, attempt, u).delay >= RetryAfterDelay(r).value
  {
    ProductNonNegative(p.baseDelay, p.jitterRatio);
    ProductNonNegative(p.baseDelay * p.jitterRatio, u);
    if RetryAfterDelay(r).None? {
      BackoffIsBounded(p, attempt, u);
    }
  }

  /** Every pause lies in [0, max_delay] and is never shorter than what the server asked for. */
  lemma PauseIsBounded(p: RetryPolicy, verb: string, retry403: bool, reply: Reply, attempt: nat, u: Unit)
    requires attempt >= 1 && Pause(p, verb, retry403, reply, attempt, u).Wait?
    ensures 0.0 <= Pause(p, verb, retry403, reply, attempt, u).delay <= p.maxDelay
    ensures reply.Answered? && RetryAfterDelay(reply.response).Some? ==>
      Pause(p, verb, retry403, reply, attempt, u).delay >= RetryAfterDelay(reply.response).value
  {
    match reply
    case TransportError => BackoffIsBounded(p, attempt, u);
    case Answered(r) => ResponseDelayIsBounded(p, r, attempt, u);
  }

  // ---- the loop ----

  function Sum(delays: seq<real>): real { if delays == [] then 0.0 else Sum(delays[..|delays| - 1]) + delays[|delays| - 1] }

  lemma {:induction false} SumIsBounded(delays: seq<real>, count: nat, cap: real)
    requires |delays| <= count && cap >= 0.0 && forall i | 0 <= i < |delays| :: 0.0 <= delays[i] <= cap
    ensures 0.0 <= Sum(delays) <= count as real * cap
  {
    if delays != [] {
      SumIsBounded(delays[..|delays| - 1], count - 1, cap);
      assert count as real == (count - 1) as real + 1.0;
      assert count as real * cap == (count - 1) as real * cap + cap;
    } else {
      ProductNonNegative(count as real, cap);
    }
  }

  /** One call: its arguments, the server's k-th reply, and the chance used for the k-th delay. */
  datatype Call = Call(
    policy: RetryPolicy, verb: string, retry403: bool, replies: nat -> Reply, chance: nat -> Unit)

  function PauseAfter(c: Call, k: nat): Turn
    requires k >= 1
  {
    Pause(c.policy, c.verb, c.retry403, c.replies(k), k, c.chance(k))
  }

  /** What the server asked for in its k-th reply. */
  function StatedDelay(c: Call, k: nat): Option<real> {
    if c.replies(k).Answered? then RetryAfterDelay(c.replies(k).response) else None
  }

  /** `sent` requests with the given delays between them; the last reply is the outcome. */
  ghost predicate IsExchange(c: Call, sent: nat, delays: seq<real>) {
    && sent >= 1
    && |delays| == sent - 1
    && (forall k | 1 <= k < sent :: PauseAfter(c, k) == Wait(delays[k - 1]))
    && !PauseAfter(c, sent).Wait?
  }

  /** Every exchange respects the limits of its policy and the wishes of the server. */
  lemma ExchangeIsBounded(c: Call, sent: nat, delays: seq<real>)
    requires IsExchange(c, sent, delays)
    ensures sent <= c.policy.maxAttempts
    ensures forall i | 0 <= i < |delays| ::
      && 0.0 <= delays[i] <= c.policy.maxDelay
      && (StatedDelay(c, i + 1).Some? ==> delays[i] >= StatedDelay(c, i + 1).value)
    ensures 0.0 <= Sum(delays) <= (c.policy.maxAttempts - 1) as real * c.policy.maxDelay
  {
    NoMoreThanAllowed(c, sent, delays);
    forall i | 0 <= i < |delays|
      ensures 0.0 <= delays[i] <= c.policy.maxDelay
      ensures StatedDelay(c, i + 1).Some? ==> delays[i] >= StatedDelay(c, i + 1).value
    {
      DelayIsBounded(c, sent, delays, i);
    }
    SumIsBounded(delays, c.policy.maxAttempts - 1, c.policy.maxDelay);
  }

  lemma NoMoreThanAllowed(c: Call, sent: nat, delays: seq<real>)
    requires IsExchange(c, sent, delays)
    ensures sent <= c.policy.maxAttempts
  {
    assert sent > 1 ==> PauseAfter(c, sent - 1).Wait?;
  }

  lemma DelayIsBounded(c: Call, sent: nat, delays: seq<real>, i: nat)
    requires IsExchange(c, sent, delays) && i < |delays|
    ensures 0.0 <= delays[i] <= c.policy.maxDelay
    ensures StatedDelay(c, i + 1).Some? ==> delays[i] >= StatedDelay(c, i + 1).value
  {
    assert PauseAfter(c, i + 1) == Wait(delays[i]);
    PauseIsBounded(c.policy, c.verb, c.retry403, c.replies(i + 1), i + 1, c.chance(i + 1));
  }

  /** After a transport error, a request that is not idempotent is never sent again. */
  lemma UnsafeRequestsAreNotRepeated(c: Call, sent: nat, delays: seq<real>, k: nat)
    requires IsExchange(c, sent, delays)
    requires 1 <= k <= sent && c.replies(k).TransportError? && !Idempotent(c.verb)
    ensures k == sent
  {
    assert !PauseAfter(c, k).Wait?;
  }

  /** The number of requests and the delays are determined by the replies. */
  lemma ExchangeIsUnique(c: Call, sent: nat, delays: seq<real>, sent': nat, delays': seq<real>)
    requires IsExchange(c, sent, delays) && IsExchange(c, sent', delays')
    ensures sent == sent' && delays == delays'
  {
    assert forall k | 1 <= k < sent :: PauseAfter(c, k).Wait?;
    assert forall k | 1 <= k < sent' :: PauseAfter(c, k).Wait?;
    forall i | 0 <= i < |delays|
      ensures delays[i] == delays'[i]
    {
      assert PauseAfter(c, i + 1) == Wait(delays[i]);
    }
  }

  /** Python overflows exactly where the 1025th or a later attempt would back off: never, for a policy
      of at most 1025 attempts. */
  lemma OverflowsExactlyWhen(c: Call, k: nat)
    requires k >= 1
    ensures PauseAfter(c, k).Overflow? <==>
      && MAX_EXPONENT + 1 < k < c.policy.maxAttempts
      && match c.replies(k)
         case TransportError => Idempotent(c.verb)
         case Answered(r) => RetryReason(r, c.retry403).Some? && RetryAfterDelay(r).None? && r.status != 403
  {
  }

  /** `outcome` is None where the source raises OverflowError instead of returning or raising the reply. */
  method RequestWithRetry(c: Call) returns (outcome: Option<Reply>, sent: nat, slept: seq<real>)
    ensures IsExchange(c, sent, slept)
    ensures outcome == if PauseAfter(c, sent).Overflow? then None else Some(c.replies(sent))
  {
    var policy := c.policy;
    slept := [];
    for attempt := 1 to policy.maxAttempts + 1
      invariant |slept| == attempt - 1
      invariant attempt <= policy.maxAttempts
      invariant forall k | 1 <= k < attempt :: PauseAfter(c, k) == Wait(slept[k - 1])
    {
      var reply := c.replies(attempt);
      sent := attempt;
      var pause: Turn;
      match reply {
        case TransportError =>
          if attempt == policy.maxAttempts || !Idempotent(c.verb) {
            return Some(reply), sent, slept;
          }
          pause := Backoff(policy, attempt, c.chance(attempt));
        case Answered(response) =>
          var reason := RetryReason(response, c.retry403);
          if reason.None? || attempt == policy.maxAttempts {
            return Some(reply), sent, slept;
          }
          pause := ResponseDelay(policy, response, attempt, c.chance(attempt));
      }
      assert PauseAfter(c, attempt) == pause;
      if !pause.Wait? {
        return if pause.Overflow? then None else Some(reply), sent, slept;
      }
      slept := slept + [pause.delay];
    }
    assert false;
  }
}
