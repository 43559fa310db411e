/** The pure half of webhook delivery: classification, schedule, and the row an attempt leaves. */
module DeliveryModel {
  import opened Prelude

  datatype Outcome = Success | Disable | Terminal | Retry

  /** The result of one POST; `status` is absent when no response came. */
  datatype Answer = Answer(status: Option<int>, networkError: bool, retryAfter: Option<int>)

  function Classify(status: Option<int>, networkError: bool): Outcome {
    if networkError then Retry
    else if status.None? then Terminal
    else if 200 <= status.value < 300 then Success
    else if status.value == 410 then Disable
    else if status.value == 408 || status.value == 429 then Retry
    else if status.value >= 500 then Retry
    else Terminal
  }

  const BACKOFF_MS: seq<nat> := [0, 5_000, 300_000, 1_800_000, 7_200_000, 18_000_000, 36_000_000, 36_000_000]

  const MAX_ATTEMPTS: nat := |BACKOFF_MS|

  /** The schedule's delay after the given number of attempts, clamped at both ends. */
  function BackoffForAttempt(attemptsMade: int): nat {
    BACKOFF_MS[Min(Max(attemptsMade - 1, 0), |BACKOFF_MS| - 1)]
  }

  /** A usable `Retry-After` wins over the schedule. */
  function ResolveBackoff(attemptsMade: int, retryAfter: Option<int>): nat {
    if retryAfter.Some? && retryAfter.value >= 0 then retryAfter.value else BackoffForAttempt(attemptsMade)
  }

  /** The promised schedule: at once, then 5 s, 5 min, 30 min, 2 h, 5 h, and 10 h from then on. */
  function Scheduled(attemptNo: nat): nat {
    if attemptNo <= 1 then 0
    else if attemptNo == 2 then 5 * 1000
    else if attemptNo == 3 then 5 * 60 * 1000
    else if attemptNo == 4 then 30 * 60 * 1000
    else if attemptNo == 5 then 2 * 3600 * 1000
    else if attemptNo == 6 then 5 * 3600 * 1000
    else 10 * 3600 * 1000
  }

  /** The delay after an attempt is what the endpoint asked for, when it asked, and else the schedule's. */
  lemma DelayIsAskedOrScheduled(attemptNo: nat, retryAfter: Option<int>)
    ensures ResolveBackoff(attemptNo, retryAfter)
         == if retryAfter.Some? && retryAfter.value >= 0 then retryAfter.value else Scheduled(attemptNo)
  {
  }

  /** How long the first `attempts` attempts wait in all when the endpoint asks for nothing. */
  function WaitedFor(attempts: nat): nat {
    if attempts == 0 then 0 else WaitedFor(attempts - 1) + ResolveBackoff(attempts, None)
  }

  /** An endpoint that never answers is given up 17 hours, 35 minutes and 5 seconds of waiting after the first try. */
  lemma SevenWaits()
    ensures WaitedFor(MAX_ATTEMPTS - 1) == ((17 * 60 + 35) * 60 + 5) * 1000
  {
    assert WaitedFor(0) == 0;
    assert WaitedFor(1) == 0;
    assert WaitedFor(2) == 5_000;
    assert WaitedFor(3) == 305_000;
    assert WaitedFor(4) == 2_105_000;
    assert WaitedFor(5) == 9_305_000;
    assert WaitedFor(6) == 27_305_000;
    assert WaitedFor(7) == 63_305_000;
  }

  lemma BackoffIsMonotone(a: int, b: int, retryAfter: Option<int>)
    requires a <= b
    ensures ResolveBackoff(a, retryAfter) <= ResolveBackoff(b, retryAfter)
  {
    var i := Min(Max(a - 1, 0), 7);
    var j := Min(Max(b - 1, 0), 7);
    assert i <= j;
    assert BACKOFF_MS[i] <= BACKOFF_MS[j];
  }

  // ---------------------------------------------------------------- the row

  datatype Status = Pending | Retrying | Succeeded | Failed | Dead

  datatype Delivery = Delivery(
    status: Status,
    attemptCount: nat,
    nextAttemptAt: Option<Time>,
    lastStatusCode: Option<int>,
    completedAt: Option<Time>
  )

  const NEW_DELIVERY := Delivery(Pending, 0, None, None, None)

  predicate IsLive(status: Status) {
    status == Pending || status == Retrying
  }

  function StatusForAttempt(outcome: Outcome, attemptNo: int, maxAttempts: int): Status {
    match outcome
    case Success => Succeeded
    case Disable => Failed
    case Terminal => Failed
    case Retry => if attemptNo >= maxAttempts then Dead else Retrying
  }

  /** The reconciler's query. */
  predicate Reconcilable(row: Delivery, now: Time) {
    || (row.status == Pending && row.nextAttemptAt.None?)
    || (row.status == Pending && row.nextAttemptAt.Some? && row.nextAttemptAt.value <= now)
    || (row.status == Retrying && row.nextAttemptAt.Some? && row.nextAttemptAt.value <= now)
  }

  /** The row `applyOutcome` leaves behind attempt `attemptNo`. */
  function Applied(answer: Answer, attemptNo: nat, maxAttempts: nat, now: Time): Delivery {
    var status := StatusForAttempt(Classify(answer.status, answer.networkError), attemptNo, maxAttempts);
    if status == Retrying then
      Delivery(Retrying, attemptNo, Some(now + ResolveBackoff(attemptNo, answer.retryAfter)), answer.status, None)
    else
      Delivery(status, attemptNo, None, answer.status, Some(now))
  }

  /** The endpoint took the delivery. */
  predicate Accepted(answer: Answer) {
    !answer.networkError && answer.status.Some? && 200 <= answer.status.value <= 299
  }

  /** A failure worth another try: of the network, a time-out, a rate limit, or the endpoint's own. */
  predicate Transient(answer: Answer) {
    answer.networkError
    || (answer.status.Some? && (answer.status.value == 408 || answer.status.value == 429 || answer.status.value >= 500))
  }

  /** The row an attempt leaves, by what the endpoint answered. */
  predicate IsOutcome(row: Delivery, answer: Answer, attemptNo: nat, maxAttempts: nat, now: Time) {
    && (row.status == Succeeded <==> Accepted(answer))
    && (row.status == Dead <==> Transient(answer) && attemptNo >= maxAttempts)
    && (row.status == Retrying <==> Transient(answer) && attemptNo < maxAttempts)
    && (row.status == Failed <==> !Accepted(answer) && !Transient(answer))
    && row.attemptCount == attemptNo && row.lastStatusCode == answer.status
    && row.completedAt == (if row.status == Retrying then None else Some(now))
    && row.nextAttemptAt == (if row.status != Retrying then None
                             else if answer.retryAfter.Some? && answer.retryAfter.value >= 0
                             then Some(now + answer.retryAfter.value)
                             else Some(now + Scheduled(attemptNo)))
  }

  lemma AppliedIsOutcome(answer: Answer, attemptNo: nat, maxAttempts: nat, now: Time)
    ensures IsOutcome(Applied(answer, attemptNo, maxAttempts, now), answer, attemptNo, maxAttempts, now)
  {
    DelayIsAskedOrScheduled(attemptNo, answer.retryAfter);
    hide ResolveBackoff;
    hide Scheduled;
  }

  /** The row `fail` leaves when the attempt never reached the endpoint. */
  function GivenUp(row: Delivery, attemptNo: nat, now: Time): Delivery {
    Delivery(Failed, attemptNo, None, row.lastStatusCode, Some(now))
  }
}
