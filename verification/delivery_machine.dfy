/**
 One (event, subscription) pair: its delivery row in Postgres and its job in the
 queue, through fan-out, attempts, crashes, queue flushes, reconciliation and replay.
 The job id is a function of the pair, so the queue holds at most one job for it.
 */
module DeliveryMachine {
  import opened Prelude
  import opened DeliveryModel

  /**
   An attempt reads the row, writes it, and only then settles its job; the clock may
   move and the worker may die in between. `at` is the instant the attempt read to
   stamp the row.
   */
  datatype JobState =
    | Waiting(readyAt: Time)
    /** `handle` is running; it read the row when it started. */
    | Active(attemptNo: nat)
    /** The row says retrying; the answer's Retry-After is not yet in the job's data. */
    | Stashing(at: Time, answered: Option<int>)
    /** `handle` throws, and the queue has not yet computed its delay. */
    | Throwing(at: Time)
    /** The row is finished; the job is not yet completed. */
    | Returning
    | Completed(at: Time)
    | Exhausted

  /**
   `retryAfter` is the job's data. The rest is auxiliary: `born` is the row's attempt
   count when the job was added, `died` says a worker died with the job, and `lag` is
   how long after stamping the row the last attempt was settled.
   */
  datatype Job = Job(attemptsMade: nat, born: nat, retryAfter: Option<int>, state: JobState, died: bool, lag: nat)

  function FreshJob(born: nat, now: Time): Job {
    Job(0, born, None, Waiting(now), false, 0)
  }

  /** Completed jobs keep their id this long. */
  const KEEP_COMPLETED_MS := 3_600_000

  /**
   `toEnqueue` counts dispatchers that committed the row and have not yet added its job;
   `candidates` counts reconcile passes that read the row and have not yet dealt with it.
   */
  datatype Pair = Pair(row: Option<Delivery>, job: Option<Job>, toEnqueue: nat, candidates: nat, now: Time)

  datatype Ending =
    /** The subscription, event, payload or signature was not usable. */
    | NotSent
    | Answered(answer: Answer)

  datatype Step =
    | Tick(later: Time)
    | Dispatch
    | Enqueue
    | EnqueueLost
    | Start
    /** The attempt ends in its one write to the row, stamped with the clock it read at `at`. */
    | Writes(ending: Ending, at: Time)
    | Stashes
    | Settles
    /** The attempt's process dies; the queue hands the job out again. */
    | WorkerDies
    | ReconcileSees
    | ReconcileAdds
    /** The pass finds a job, stops for want of an answer, or its `add` is lost. */
    | ReconcileSkips
    | Flush
    | Expire
    | Replay

  /** Whether an attempt has the job in hand. */
  predicate IsActive(p: Pair) {
    p.job.Some? && !p.job.value.state.Waiting? && !p.job.value.state.Completed? && !p.job.value.state.Exhausted?
  }

  predicate Enabled(p: Pair, step: Step) {
    match step
    case Tick(later) => p.now <= later
    case Dispatch => true
    case Enqueue => p.toEnqueue > 0 && p.row.Some?
    case EnqueueLost => p.toEnqueue > 0
    case Start => p.row.Some? && p.job.Some? && p.job.value.state.Waiting? && p.job.value.state.readyAt <= p.now
    case Writes(_, at) => p.row.Some? && p.job.Some? && p.job.value.state.Active? && at <= p.now
    case Stashes => p.job.Some? && p.job.value.state.Stashing?
    case Settles =>
      p.job.Some? && (p.job.value.state.Returning? || (p.job.value.state.Throwing? && p.job.value.state.at <= p.now))
    case WorkerDies => IsActive(p)
    case ReconcileSees => p.row.Some? && Reconcilable(p.row.value, p.now)
    case ReconcileAdds => p.row.Some? && p.candidates > 0
    case ReconcileSkips => p.candidates > 0
    case Flush => !IsActive(p)
    case Expire =>
      p.job.Some? && p.job.value.state.Completed? && p.job.value.state.at + KEEP_COMPLETED_MS <= p.now
    case Replay => p.row.Some? && !IsActive(p)
  }

  /** `queue.add`: a job of that id that the queue still holds, in any state, wins. */
  function Added(p: Pair): Option<Job>
    requires p.row.Some?
  {
    if p.job.Some? then p.job else Some(FreshJob(p.row.value.attemptCount, p.now))
  }

  /** Whether `handle` throws, which asks the queue for another attempt. */
  predicate Throws(row: Delivery) {
    row.status == Retrying
  }

  function RowAfter(p: Pair, ending: Ending, at: Time): Delivery
    requires p.row.Some? && p.job.Some? && p.job.value.state.Active?
  {
    var attemptNo := p.job.value.state.attemptNo;
    match ending
    case NotSent => GivenUp(p.row.value, attemptNo, at)
    case Answered(answer) => Applied(answer, attemptNo, MAX_ATTEMPTS, at)
  }

  /** The delay the queue's own strategy computes, from its count and the job's data. */
  function QueueDelay(job: Job): nat {
    ResolveBackoff(job.attemptsMade + 1, job.retryAfter)
  }

  /** What the queue makes of a job whose attempt threw. */
  function Retried(job: Job, now: Time): Job
    requires job.state.Throwing? && job.state.at <= now
  {
    if job.attemptsMade + 1 >= MAX_ATTEMPTS
    then job.(attemptsMade := job.attemptsMade + 1, state := Exhausted)
    else job.(attemptsMade := job.attemptsMade + 1, state := Waiting(now + QueueDelay(job)), lag := now - job.state.at)
  }

  function After(p: Pair, step: Step): Pair
    requires Enabled(p, step)
  {
    match step
    case Tick(later) => p.(now := later)
    case Dispatch => if p.row.Some? then p else p.(row := Some(NEW_DELIVERY), toEnqueue := p.toEnqueue + 1)
    case Enqueue => p.(toEnqueue := p.toEnqueue - 1, job := Added(p))
    case EnqueueLost => p.(toEnqueue := p.toEnqueue - 1)
    case Start => p.(job := Some(p.job.value.(state := Active(p.row.value.attemptCount + 1))))
    case Writes(ending, at) =>
      var row := RowAfter(p, ending, at);
      p.(row := Some(row),
         job := Some(p.job.value.(state := if Throws(row) then Stashing(at, ending.answer.retryAfter) else Returning)))
    case Stashes =>
      var state := p.job.value.state;
      p.(job := Some(p.job.value.(retryAfter := state.answered, state := Throwing(state.at))))
    case Settles =>
      if p.job.value.state.Returning? then p.(job := Some(p.job.value.(state := Completed(p.now))))
      else p.(job := Some(Retried(p.job.value, p.now)))
    case WorkerDies => p.(job := Some(p.job.value.(state := Waiting(p.now), died := true)))
    case ReconcileSees => p.(candidates := p.candidates + 1)
    case ReconcileAdds => p.(candidates := p.candidates - 1, job := Added(p))
    case ReconcileSkips => p.(candidates := p.candidates - 1)
    case Flush => p.(job := None)
    case Expire => p.(job := None)
    case Replay => p.(row := Some(NEW_DELIVERY), job := Some(FreshJob(0, p.now)))
  }

  function Initial(now: Time): Pair {
    Pair(None, None, 0, 0, now)
  }

  predicate Runs(p: Pair, steps: seq<Step>, p': Pair)
    decreases |steps|
  {
    if steps == [] then p' == p
    else Enabled(p, steps[0]) && Runs(After(p, steps[0]), steps[1..], p')
  }

  ghost predicate Reachable(p: Pair) {
    exists start, steps :: Runs(Initial(start), steps, p)
  }

  // ---------------------------------------------------------------- invariant

  predicate RowInv(row: Delivery) {
    match row.status
    case Pending => row.attemptCount == 0 && row.nextAttemptAt.None? && row.completedAt.None?
    case Retrying => 1 <= row.attemptCount < MAX_ATTEMPTS && row.nextAttemptAt.Some? && row.completedAt.None?
    case _ => row.attemptCount >= 1 && row.nextAttemptAt.None? && row.completedAt.Some?
  }

  /** The queue counts no attempt the row does not, and each of them unless a worker died. */
  predicate CountsAgree(row: Delivery, job: Job, unsettled: nat) {
    && job.born + job.attemptsMade + unsettled <= row.attemptCount
    && (!job.died ==> job.born + job.attemptsMade + unsettled == row.attemptCount)
  }

  /** The row asks for a retry `ResolveBackoff` after it was stamped. */
  predicate AsksRetry(row: Delivery, at: Time, retryAfter: Option<int>, now: Time) {
    && row.status == Retrying && at <= now
    && row.nextAttemptAt == Some(at + ResolveBackoff(row.attemptCount, retryAfter))
  }

  predicate JobInv(row: Delivery, job: Job, now: Time) {
    match job.state
    case Waiting(readyAt) =>
      && CountsAgree(row, job, 0)
      && (readyAt <= now || (row.nextAttemptAt.Some? && readyAt <= row.nextAttemptAt.value + job.lag))
    case Active(attemptNo) => CountsAgree(row, job, 0) && attemptNo == row.attemptCount + 1
    case Stashing(at, answered) => CountsAgree(row, job, 1) && AsksRetry(row, at, answered, now)
    case Throwing(at) => CountsAgree(row, job, 1) && AsksRetry(row, at, job.retryAfter, now)
    case Returning => job.born + job.attemptsMade + 1 <= row.attemptCount && !IsLive(row.status)
    case Completed(_) => !IsLive(row.status)
    case Exhausted => false
  }

  predicate Inv(p: Pair) {
    && (p.row.None? ==> p.job.None? && p.toEnqueue == 0 && p.candidates == 0)
    && (p.row.Some? ==> RowInv(p.row.value))
    && (p.row.Some? && p.job.Some? ==> JobInv(p.row.value, p.job.value, p.now))
  }

  lemma SettleKeepsInv(p: Pair)
    requires Inv(p) && Enabled(p, Settles)
    ensures Inv(After(p, Settles))
  {
    var job := p.job.value;
    if job.state.Throwing? {
      BackoffIsMonotone(job.attemptsMade + 1, p.row.value.attemptCount, job.retryAfter);
    }
  }

  lemma DeathKeepsInv(p: Pair)
    requires Inv(p) && Enabled(p, WorkerDies)
    ensures Inv(After(p, WorkerDies))
  {
  }

  lemma StepKeepsInv(p: Pair, step: Step)
    requires Inv(p) && Enabled(p, step)
    ensures Inv(After(p, step))
  {
    if step.Settles? {
      SettleKeepsInv(p);
    } else if step.WorkerDies? {
      DeathKeepsInv(p);
    }
  }

  lemma {:induction false} RunKeepsInv(p: Pair, steps: seq<Step>, p': Pair)
    requires Inv(p) && Runs(p, steps, p')
    ensures Inv(p')
    decreases |steps|
  {
    hide Inv;
    hide After;
    hide Enabled;
    if steps != [] {
      StepKeepsInv(p, steps[0]);
      RunKeepsInv(After(p, steps[0]), steps[1..], p');
    }
  }

  lemma ReachableInv(p: Pair)
    requires Reachable(p)
    ensures Inv(p)
  {
    hide After;
    hide Enabled;
    var start, steps :| Runs(Initial(start), steps, p);
    RunKeepsInv(Initial(start), steps, p);
  }

  // ---------------------------------------------------------------- theorems

  predicate HasLiveJob(p: Pair) {
    p.job.Some? && (p.job.value.state.Waiting? || IsActive(p))
  }

  /** The instant from which the reconciler's query returns a live row. */
  function DueAt(row: Delivery, now: Time): Time {
    if row.nextAttemptAt.Some? then row.nextAttemptAt.value else now
  }

  /**
   An unfinished delivery is never orphaned: either its job is waiting or running, or
   the queue holds nothing under its id and a reconcile pass at any instant from
   `next_attempt_at` on finds the row and gives it a job that is ready at once.
   */
  lemma NeverOrphaned(p: Pair, later: Time)
    requires Reachable(p) && p.row.Some? && IsLive(p.row.value.status)
    requires later >= Max(p.now, DueAt(p.row.value, p.now))
    ensures HasLiveJob(p)
         || (var p1 := p.(now := later);
             && p.job.None?
             && Enabled(p, Tick(later)) && Enabled(p1, ReconcileSees)
             && Enabled(After(p1, ReconcileSees), ReconcileAdds)
             && After(After(p1, ReconcileSees), ReconcileAdds).job
                == Some(FreshJob(p.row.value.attemptCount, later)))
  {
    ReachableInv(p);
  }

  /** The reconciler's query returns the pending rows and the retrying ones whose time has come. */
  lemma ReconcilableIff(p: Pair)
    requires Reachable(p) && p.row.Some?
    ensures Enabled(p, ReconcileSees) <==>
              p.row.value.status == Pending
              || (p.row.value.status == Retrying && p.row.value.nextAttemptAt.Some?
                  && p.row.value.nextAttemptAt.value <= p.now)
  {
    ReachableInv(p);
  }

  /** A completed job gives up its id an hour after it completed, and not before. */
  lemma ExpiresAfterAnHour(p: Pair)
    requires p.job.Some? && p.job.value.state.Completed?
    ensures Enabled(p, Expire) <==> p.now - p.job.value.state.at >= 60 * 60 * 1000
  {
  }

  /** How late the queue may be behind the row: as late as its last attempt was settled. */
  function Lag(p: Pair): nat {
    if p.job.Some? then p.job.value.lag else 0
  }

  /**
   Once its time has come, and as much time again as the last attempt took to settle, an
   unfinished delivery is ready, running, or in the reconciler's answer.
   */
  lemma DueDeliveryMovesOn(p: Pair)
    requires Reachable(p) && p.row.Some? && IsLive(p.row.value.status)
    requires p.row.value.nextAttemptAt.Some? ==> p.row.value.nextAttemptAt.value + Lag(p) <= p.now
    ensures Enabled(p, Start) || IsActive(p) || (p.job.None? && Enabled(p, ReconcileSees))
  {
    ReachableInv(p);
  }

  /**
   The queue's budget outlasts the row's: a job has been tried no more often than the
   row counts, an unfinished row counts at most seven, an attempt on it leaves at most
   eight, and the queue never gives a job up.
   */
  lemma QueueBudgetOutlastsRow(p: Pair)
    requires Reachable(p) && p.row.Some? && p.job.Some?
    ensures !p.job.value.state.Exhausted?
    ensures HasLiveJob(p) ==> p.job.value.attemptsMade <= p.row.value.attemptCount
    ensures IsLive(p.row.value.status) ==> HasLiveJob(p) && p.row.value.attemptCount <= 7
    ensures forall ending, at :: IsLive(p.row.value.status) && Enabled(p, Writes(ending, at)) ==>
              After(p, Writes(ending, at)).row.value.attemptCount == p.row.value.attemptCount + 1 <= 8
  {
    ReachableInv(p);
  }

  /**
   On a retry the delay the queue computes is at most the delay the row was given when
   it was stamped, and equal to it for a job that was never re-created and lost no
   worker. So the job is ready no later than the row says, but for the time it took to
   settle.
   */
  lemma QueueNeverOutwaitsRow(p: Pair)
    requires Reachable(p) && Enabled(p, Settles) && p.job.value.state.Throwing?
    ensures p.row.Some? && p.row.value.status == Retrying && p.row.value.nextAttemptAt.Some?
    ensures var p' := After(p, Settles);
            var stamped := p.job.value.state.at;
            var stored := p.row.value.nextAttemptAt.value - stamped;
            && p'.row == p.row && p'.job.value.state.Waiting?
            && p'.job.value.state.readyAt - p.now <= stored
            && (p.job.value.born == 0 && !p.job.value.died ==> p'.job.value.state.readyAt - p.now == stored)
            && p'.job.value.lag == p.now - stamped
  {
    ReachableInv(p);
    BackoffIsMonotone(p.job.value.attemptsMade + 1, p.row.value.attemptCount, p.job.value.retryAfter);
  }

  // ---------------------------------------------------------------- how many attempts

  function Attempts(steps: seq<Step>): nat {
    if steps == [] then 0 else (if steps[0].Writes? then 1 else 0) + Attempts(steps[1..])
  }

  predicate NoReplay(steps: seq<Step>) {
    forall i :: 0 <= i < |steps| ==> !steps[i].Replay?
  }

  function Count(p: Pair): nat {
    if p.row.Some? then p.row.value.attemptCount else 0
  }

  lemma StepCounts(p: Pair, step: Step)
    requires Inv(p) && Enabled(p, step) && !step.Replay?
    ensures Count(After(p, step)) == Count(p) + if step.Writes? then 1 else 0
  {
  }

  /** Between replays the row counts exactly the attempts that wrote it. */
  lemma {:induction false} RowCountsAttempts(p: Pair, steps: seq<Step>, p': Pair)
    requires Inv(p) && Runs(p, steps, p') && NoReplay(steps)
    ensures Count(p') == Count(p) + Attempts(steps)
    decreases |steps|
  {
    hide Inv;
    hide After;
    hide Enabled;
    if steps != [] {
      StepKeepsInv(p, steps[0]);
      StepCounts(p, steps[0]);
      assert NoReplay(steps[1..]);
      RowCountsAttempts(After(p, steps[0]), steps[1..], p');
    }
  }

  /**
   Without replays an unfinished delivery has been tried at most seven times; if its next
   attempt finishes it and nobody then still holds the pair, never more than eight.
   */
  lemma AtMostEightAttempts(start: Time, before: seq<Step>, p: Pair, last: seq<Step>, q: Pair, more: seq<Step>, r: Pair)
    requires Runs(Initial(start), before, p) && NoReplay(before) && p.row.Some? && IsLive(p.row.value.status)
    requires Runs(p, last, q) && NoReplay(last) && Attempts(last) <= 1 && Settled(q)
    requires Runs(q, more, r) && NoReplay(more)
    ensures Attempts(before) <= 7
    ensures Attempts(before) + Attempts(last) + Attempts(more) <= 8
  {
    hide After;
    hide Enabled;
    hide RowInv;
    RunKeepsInv(Initial(start), before, p);
    RunKeepsInv(p, last, q);
    RowCountsAttempts(Initial(start), before, p);
    LiveCount(p);
    SettledRunStays(q, more, r);
    RowCountsAttempts(q, more, r);
  }

  lemma LiveCount(p: Pair)
    requires Inv(p) && p.row.Some? && IsLive(p.row.value.status)
    ensures Count(p) < MAX_ATTEMPTS
  {
  }

  // ---------------------------------------------------------------- finished rows

  /** Finished, with no job waiting or running and nobody left who read the pair in order to add one. */
  predicate Settled(p: Pair) {
    && p.row.Some? && !IsLive(p.row.value.status)
    && !HasLiveJob(p) && p.toEnqueue == 0 && p.candidates == 0
  }

  lemma StepKeepsSettled(p: Pair, step: Step)
    requires Inv(p) && Settled(p) && Enabled(p, step) && !step.Replay?
    ensures Settled(After(p, step)) && After(p, step).row == p.row
  {
  }

  lemma {:induction false} SettledRunStays(p: Pair, steps: seq<Step>, p': Pair)
    requires Inv(p) && Settled(p) && Runs(p, steps, p') && NoReplay(steps)
    ensures Settled(p') && p'.row == p.row
    decreases |steps|
  {
    hide Inv;
    hide Settled;
    hide After;
    hide Enabled;
    if steps != [] {
      StepKeepsInv(p, steps[0]);
      StepKeepsSettled(p, steps[0]);
      assert NoReplay(steps[1..]);
      SettledRunStays(After(p, steps[0]), steps[1..], p');
    }
  }

  lemma {:induction false} RunExtends(p: Pair, steps: seq<Step>, p': Pair, step: Step)
    requires Runs(p, steps, p') && Enabled(p', step)
    ensures Runs(p, steps + [step], After(p', step))
    decreases |steps|
  {
    hide After;
    hide Enabled;
    if steps == [] {
      assert (steps + [step])[1..] == [];
    } else {
      RunExtends(After(p, steps[0]), steps[1..], p', step);
      assert (steps + [step])[1..] == steps[1..] + [step];
    }
  }

  /** Neither a replay nor a queue flush. */
  predicate Ordinary(steps: seq<Step>) {
    forall i :: 0 <= i < |steps| ==> !steps[i].Replay? && !steps[i].Flush?
  }

  /** Takes one more step of a run that began in `p`. */
  lemma StepOn(p: Pair, steps: seq<Step>, p': Pair, step: Step) returns (longer: seq<Step>, q: Pair)
    requires Runs(p, steps, p') && Ordinary(steps) && Enabled(p', step) && !step.Replay? && !step.Flush?
    ensures q == After(p', step) && longer == steps + [step] && Runs(p, longer, q) && Ordinary(longer)
  {
    hide After;
    hide Enabled;
    RunExtends(p, steps, p', step);
    longer, q := steps + [step], After(p', step);
  }

  const UNAVAILABLE := Answered(Answer(Some(503), false, None))

  /** A job that waits or runs can have a further attempt write the row. */
  lemma LiveJobCanWrite(p: Pair, steps: seq<Step>, p': Pair) returns (longer: seq<Step>, q: Pair)
    requires Inv(p') && Runs(p, steps, p') && Ordinary(steps) && p'.row.Some? && HasLiveJob(p')
    requires !IsLive(p'.row.value.status)
    ensures Runs(p, longer, q) && Ordinary(longer)
    ensures q.row.Some? && q.row.value.attemptCount == p'.row.value.attemptCount + 1
  {
    hide Runs;
    longer, q := steps, p';
    if IsActive(q) && !q.job.value.state.Active? {
      longer, q := StepOn(p, longer, q, WorkerDies);
    }
    if q.job.value.state.Waiting? {
      longer, q := StepOn(p, longer, q, Tick(Max(q.now, q.job.value.state.readyAt)));
      longer, q := StepOn(p, longer, q, Start);
    }
    longer, q := StepOn(p, longer, q, Writes(UNAVAILABLE, q.now));
  }

  /** A finished row of a pair that someone still holds can be attempted again, with no replay and no flush. */
  lemma HeldRowCanChange(p: Pair) returns (steps: seq<Step>, p': Pair)
    requires Inv(p) && p.row.Some? && !IsLive(p.row.value.status) && !Settled(p)
    ensures Runs(p, steps, p') && Ordinary(steps)
    ensures p'.row.Some? && p'.row.value.attemptCount == p.row.value.attemptCount + 1
  {
    hide Runs;
    steps, p' := [], p;
    assert Runs(p, [], p) by {
      NoStepsRun(p);
    }
    if p'.job.Some? && p'.job.value.state.Completed? {
      steps, p' := StepOn(p, steps, p', Tick(Max(p'.now, p'.job.value.state.at + KEEP_COMPLETED_MS)));
      steps, p' := StepOn(p, steps, p', Expire);
    }
    if p'.job.None? {
      steps, p' := StepOn(p, steps, p', if p'.toEnqueue > 0 then Enqueue else ReconcileAdds);
    }
    steps, p' := LiveJobCanWrite(p, steps, p');
  }

  lemma NoStepsRun(p: Pair)
    ensures Runs(p, [], p)
  {
  }

  /**
   A finished delivery stays as it is, short of a replay, exactly when its job neither
   waits nor runs, no dispatcher is still to add it, and no reconcile pass still has the
   row among its candidates.
   */
  lemma FinishedRowStays(p: Pair)
    requires Reachable(p) && p.row.Some? && !IsLive(p.row.value.status)
    ensures Settled(p) <==> forall steps, p' :: Runs(p, steps, p') && NoReplay(steps) ==> p'.row == p.row
  {
    hide Settled;
    hide Runs;
    hide After;
    ReachableInv(p);
    if Settled(p) {
      forall steps, p' | Runs(p, steps, p') && NoReplay(steps)
        ensures p'.row == p.row
      {
        SettledRunStays(p, steps, p');
      }
    } else {
      var steps, p' := HeldRowCanChange(p);
      assert NoReplay(steps);
    }
  }

  /**
   After eight attempts without a replay, a ninth is ruled out exactly when the finished
   row has nobody left who holds the pair.
   */
  lemma NoNinthAttemptIff(start: Time, steps: seq<Step>, p: Pair)
    requires Runs(Initial(start), steps, p) && NoReplay(steps) && Attempts(steps) == 8
    ensures p.row.Some? && !IsLive(p.row.value.status)
    ensures Settled(p) <==> forall more, q :: Runs(p, more, q) && NoReplay(more) ==> Attempts(more) == 0
  {
    hide Settled;
    hide Runs;
    hide After;
    RunKeepsInv(Initial(start), steps, p);
    RowCountsAttempts(Initial(start), steps, p);
    if p.row.Some? && IsLive(p.row.value.status) {
      LiveCount(p);
    }
    if Settled(p) {
      forall more, q | Runs(p, more, q) && NoReplay(more)
        ensures Attempts(more) == 0
      {
        SettledRunStays(p, more, q);
        RowCountsAttempts(p, more, q);
      }
    } else {
      var more, q := HeldRowCanChange(p);
      assert NoReplay(more);
      RowCountsAttempts(p, more, q);
    }
  }

  // ---------------------------------------------------------------- a run that reopens a success

  /** The state after the reconciler's job has delivered while the dispatcher still holds the pair. */
  function DeliveredOnce(): Pair {
    Pair(Some(Delivery(Succeeded, 1, None, Some(200), Some(0))),
         Some(Job(0, 0, None, Completed(0), false, 0)), 1, 0, 0)
  }

  lemma DeliveredOnceIsReachable() returns (steps: seq<Step>)
    ensures Runs(Initial(0), steps, DeliveredOnce()) && Ordinary(steps)
  {
    hide Runs;
    var p := Initial(0);
    steps := [];
    NoStepsRun(p);
    steps, p := StepOn(Initial(0), steps, p, Dispatch);
    steps, p := StepOn(Initial(0), steps, p, ReconcileSees);
    steps, p := StepOn(Initial(0), steps, p, ReconcileAdds);
    steps, p := StepOn(Initial(0), steps, p, Start);
    steps, p := StepOn(Initial(0), steps, p, Writes(Answered(Answer(Some(200), false, None)), 0));
    steps, p := StepOn(Initial(0), steps, p, Settles);
  }

  /**
   Attempts on finished rows do happen: a dispatcher slow to enqueue adds the job a
   second time once the first, added by the reconciler, has succeeded and expired.
   */
  lemma SuccessCanBeReopened() returns (p: Pair, steps: seq<Step>)
    ensures Reachable(DeliveredOnce()) && DeliveredOnce().row.value.status == Succeeded
    ensures Runs(DeliveredOnce(), steps, p) && Ordinary(steps)
    ensures p.row.Some? && p.row.value.status == Retrying && p.row.value.attemptCount == 2
  {
    hide Runs;
    var before := DeliveredOnceIsReachable();
    p, steps := DeliveredOnce(), [];
    NoStepsRun(p);
    steps, p := StepOn(DeliveredOnce(), steps, p, Tick(KEEP_COMPLETED_MS));
    steps, p := StepOn(DeliveredOnce(), steps, p, Expire);
    steps, p := StepOn(DeliveredOnce(), steps, p, Enqueue);
    steps, p := StepOn(DeliveredOnce(), steps, p, Start);
    steps, p := StepOn(DeliveredOnce(), steps, p, Writes(UNAVAILABLE, KEEP_COMPLETED_MS));
  }
}
