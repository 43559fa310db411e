/** Delivery, reconciliation and replay as the program runs them, over many pairs at once. */
module DeliveryStore {
  import opened Prelude
  import opened DeliveryModel
  import opened DeliveryMachine
  import opened Text

  /** The unique key of `webhook_delivery`, and through it the job id. */
  datatype PairKey = PairKey(eventId: string, subscriptionId: string)

  function BuildDeliveryJobId(key: PairKey): string {
    key.eventId + "--" + key.subscriptionId
  }

  /** Both ids are UUIDs, of one length, so each pair has its own job id. */
  lemma DeliveryJobIdsAreDistinct(key: PairKey, key': PairKey)
    requires |key.eventId| == |key'.eventId|
    requires BuildDeliveryJobId(key) == BuildDeliveryJobId(key')
    ensures key == key'
  {
    assert BuildDeliveryJobId(key) == key.eventId + ("--" + key.subscriptionId);
    assert BuildDeliveryJobId(key') == key'.eventId + ("--" + key'.subscriptionId);
    CutEqual(key.eventId, "--" + key.subscriptionId, key'.eventId, "--" + key'.subscriptionId);
    CutEqual("--", key.subscriptionId, "--", key'.subscriptionId);
  }

  /** The job a fresh `add` creates for a pair; its row is what a later attempt will read. */
  function NewJob(rows: map<PairKey, Delivery>, key: PairKey, now: Time): Job {
    FreshJob(if key in rows then rows[key].attemptCount else 0, now)
  }

  /** The queue after the reconciler has gone through `candidates`. */
  function Reconciled(rows: map<PairKey, Delivery>, jobs: map<PairKey, Job>,
                      candidates: seq<PairKey>, lost: set<PairKey>, now: Time): map<PairKey, Job>
  {
    if candidates == [] then jobs
    else
      var n := |candidates| - 1;
      var before := Reconciled(rows, jobs, candidates[..n], lost, now);
      if candidates[n] in before || candidates[n] in lost then before
      else before[candidates[n] := NewJob(rows, candidates[n], now)]
  }

  /** How many of `candidates` the reconciler found without a job. */
  function Missing(rows: map<PairKey, Delivery>, jobs: map<PairKey, Job>,
                   candidates: seq<PairKey>, lost: set<PairKey>, now: Time): nat
  {
    if candidates == [] then 0
    else
      var n := |candidates| - 1;
      Missing(rows, jobs, candidates[..n], lost, now)
      + if candidates[n] in Reconciled(rows, jobs, candidates[..n], lost, now) then 0 else 1
  }

  /** `after` is `jobs` with a fresh job for exactly the candidates that had none. */
  predicate FillsIn(rows: map<PairKey, Delivery>, jobs: map<PairKey, Job>, after: map<PairKey, Job>,
                    candidates: set<PairKey>, now: Time)
  {
    && after.Keys == jobs.Keys + candidates
    && forall key :: key in after ==>
         after[key] == if key in jobs then jobs[key] else NewJob(rows, key, now)
  }

  lemma FillsInOneMore(rows: map<PairKey, Delivery>, jobs: map<PairKey, Job>, before: map<PairKey, Job>,
                       candidates: set<PairKey>, key: PairKey, now: Time)
    requires FillsIn(rows, jobs, before, candidates, now)
    ensures FillsIn(rows, jobs, if key in before then before else before[key := NewJob(rows, key, now)],
                    candidates + {key}, now)
  {
  }

  /** Reconciling keeps every job there is, and adds one for each candidate without (but for lost calls). */
  lemma {:induction false} ReconcileFillsIn(rows: map<PairKey, Delivery>, jobs: map<PairKey, Job>,
                                            candidates: seq<PairKey>, lost: set<PairKey>, now: Time)
    ensures FillsIn(rows, jobs, Reconciled(rows, jobs, candidates, lost, now),
                    (set key | key in candidates && key !in lost), now)
  {
    if candidates == [] {
      assert (set key | key in candidates && key !in lost) == {};
    } else {
      var n := |candidates| - 1;
      var init := candidates[..n];
      var added := set key | key in init && key !in lost;
      ReconcileFillsIn(rows, jobs, init, lost, now);
      assert candidates == init + [candidates[n]];
      assert (set key | key in candidates && key !in lost)
          == if candidates[n] in lost then added else added + {candidates[n]};
      if candidates[n] !in lost {
        FillsInOneMore(rows, jobs, Reconciled(rows, jobs, init, lost, now), added, candidates[n], now);
      } else {
        assert Reconciled(rows, jobs, candidates, lost, now) == Reconciled(rows, jobs, init, lost, now);
      }
    }
  }

  function WithoutJob(candidates: seq<PairKey>, jobs: map<PairKey, Job>): set<PairKey> {
    (set key | key in candidates) - jobs.Keys
  }

  lemma WithoutJobGrows(init: seq<PairKey>, key: PairKey, jobs: map<PairKey, Job>)
    requires key !in init
    ensures |WithoutJob(init + [key], jobs)| == |WithoutJob(init, jobs)| + if key in jobs then 0 else 1
  {
    var before := WithoutJob(init, jobs);
    assert WithoutJob(init + [key], jobs) == if key in jobs then before else before + {key};
  }

  lemma UntouchedByOthers(rows: map<PairKey, Delivery>, jobs: map<PairKey, Job>,
                          candidates: seq<PairKey>, lost: set<PairKey>, now: Time, key: PairKey)
    requires key !in candidates
    ensures key in Reconciled(rows, jobs, candidates, lost, now) <==> key in jobs
  {
    hide Reconciled;
    ReconcileFillsIn(rows, jobs, candidates, lost, now);
  }

  lemma DistinctLast(keys: seq<PairKey>)
    requires Distinct(keys) && keys != []
    ensures Distinct(keys[..|keys| - 1]) && keys[|keys| - 1] !in keys[..|keys| - 1]
  {
  }

  /** The reported count is the number of candidates that had no job. */
  lemma {:induction false} MissingIsExact(rows: map<PairKey, Delivery>, jobs: map<PairKey, Job>,
                                          candidates: seq<PairKey>, lost: set<PairKey>, now: Time)
    requires Distinct(candidates)
    ensures Missing(rows, jobs, candidates, lost, now) == |WithoutJob(candidates, jobs)|
  {
    hide Reconciled;
    if candidates == [] {
      assert WithoutJob(candidates, jobs) == {};
    } else {
      hide WithoutJob;
      hide FillsIn;
      hide NewJob;
      var n := |candidates| - 1;
      var init, last := candidates[..n], candidates[n];
      DistinctLast(candidates);
      assert candidates == init + [last];
      hide Distinct;
      MissingIsExact(rows, jobs, init, lost, now);
      UntouchedByOthers(rows, jobs, init, lost, now, last);
      WithoutJobGrows(init, last, jobs);
    }
  }

  /** One pair's share of the tables, as the state machine sees it with that many reconcile passes at its row. */
  function PairOf(rows: map<PairKey, Delivery>, jobs: map<PairKey, Job>, key: PairKey, passes: nat, now: Time): Pair {
    Pair(if key in rows then Some(rows[key]) else None,
         if key in jobs then Some(jobs[key]) else None, 0, passes, now)
  }

  /** The loop does to each of its pairs what the state machine's step does. */
  lemma ReconcileIsMachineStep(rows: map<PairKey, Delivery>, jobs: map<PairKey, Job>,
                               candidates: seq<PairKey>, lost: set<PairKey>, now: Time, key: PairKey)
    requires key in rows
    ensures var p := PairOf(rows, jobs, key, 1, now);
            var p' := PairOf(rows, Reconciled(rows, jobs, candidates, lost, now), key, 0, now);
            && Enabled(p, ReconcileAdds) && Enabled(p, ReconcileSkips)
            && p' == After(p, if key in candidates && key !in lost then ReconcileAdds else ReconcileSkips)
  {
    hide Reconciled;
    ReconcileFillsIn(rows, jobs, candidates, lost, now);
  }

  predicate DeadOf(rows: map<PairKey, Delivery>, subscriptionId: string, key: PairKey) {
    key in rows && key.subscriptionId == subscriptionId && rows[key].status == Dead
  }

  /** The answer of `findDeadBySubscription`: all of them, each once. */
  ghost predicate IsDeadOf(rows: map<PairKey, Delivery>, subscriptionId: string, dead: seq<PairKey>) {
    Distinct(dead) && forall key :: key in dead <==> DeadOf(rows, subscriptionId, key)
  }

  lemma {:induction false} DistinctSize(keys: seq<PairKey>)
    requires Distinct(keys)
    ensures |set key | key in keys| == |keys|
  {
    if keys == [] {
      assert (set key | key in keys) == {};
    } else {
      var init, last := keys[..|keys| - 1], keys[|keys| - 1];
      DistinctLast(keys);
      DistinctSize(init);
      assert keys == init + [last];
      assert (set key | key in keys) == (set key | key in init) + {last};
    }
  }

  lemma DeadCount(rows: map<PairKey, Delivery>, subscriptionId: string, dead: seq<PairKey>)
    requires IsDeadOf(rows, subscriptionId, dead)
    ensures |dead| == |set key | key in rows && DeadOf(rows, subscriptionId, key)|
  {
    DistinctSize(dead);
    assert (set key | key in rows && DeadOf(rows, subscriptionId, key)) == (set key | key in dead);
  }

  lemma DeadIsRow(rows: map<PairKey, Delivery>, subscriptionId: string, key: PairKey)
    requires DeadOf(rows, subscriptionId, key)
    ensures key in rows
  {
  }

  lemma NoneDeadLeft(rows: map<PairKey, Delivery>, rows': map<PairKey, Delivery>, subscriptionId: string,
                     dead: seq<PairKey>)
    requires IsDeadOf(rows, subscriptionId, dead) && rows'.Keys == rows.Keys
    requires forall key :: key in rows' ==> rows'[key] == if key in dead then NEW_DELIVERY else rows[key]
    ensures forall key :: key in rows' && key.subscriptionId == subscriptionId ==> rows'[key].status != Dead
  {
  }

  class DeliveryWorker {
    var rows: map<PairKey, Delivery>
    var jobs: map<PairKey, Job>
    /** The subscriptions whose endpoint has said it is gone. */
    var disabled: set<string>

    constructor ()
      ensures rows == map[] && jobs == map[] && disabled == {}
    {
      rows, jobs, disabled := map[], map[], {};
    }

    ghost predicate Valid()
      reads this
    {
      && jobs.Keys <= rows.Keys
      && (forall key :: key in rows ==> RowInv(rows[key]))
    }

    /** Writes what an attempt came to; `threw` asks the queue for another attempt. */
    method ApplyOutcome(key: PairKey, answer: Answer, attemptNo: nat, maxAttempts: nat, now: Time)
      returns (threw: bool, reported: Status)
      requires key in rows
      modifies this`rows, this`disabled
      ensures rows == old(rows)[key := Applied(answer, attemptNo, maxAttempts, now)]
      ensures IsOutcome(rows[key], answer, attemptNo, maxAttempts, now)
      ensures reported == rows[key].status
      ensures threw <==> rows[key].status == Retrying
      ensures disabled == if !answer.networkError && answer.status == Some(410)
                          then old(disabled) + {key.subscriptionId} else old(disabled)
    {
      AppliedIsOutcome(answer, attemptNo, maxAttempts, now);
      var outcome := Classify(answer.status, answer.networkError);
      reported := StatusForAttempt(outcome, attemptNo, maxAttempts);
      threw := false;
      if outcome == Success {
        rows := rows[key := Delivery(Succeeded, attemptNo, None, answer.status, Some(now))];
        return;
      }
      if outcome == Disable || outcome == Terminal {
        rows := rows[key := Delivery(Failed, attemptNo, None, answer.status, Some(now))];
        if outcome == Disable {
          disabled := disabled + {key.subscriptionId};
        }
        return;
      }
      if attemptNo >= maxAttempts {
        rows := rows[key := Delivery(Dead, attemptNo, None, answer.status, Some(now))];
        return;
      }
      var delay := ResolveBackoff(attemptNo, answer.retryAfter);
      rows := rows[key := Delivery(Retrying, attemptNo, Some(now + delay), answer.status, None)];
      threw := true;
    }

    /**
     One attempt: `ending` is what the event and the endpoint came to, for a subscription
     still enabled; a disabled one is sent nothing.
     */
    method Handle(key: PairKey, ending: Ending, now: Time) returns (threw: bool)
      requires Valid()
      modifies this`rows, this`disabled
      ensures Valid()
      ensures key !in old(rows) ==> rows == old(rows) && disabled == old(disabled) && !threw
      ensures key in old(rows) ==>
                var row := old(rows)[key];
                var attemptNo := row.attemptCount + 1;
                var sent := ending.Answered? && key.subscriptionId !in old(disabled);
                && key in rows && rows == old(rows)[key := rows[key]]
                && (sent ==> rows[key] == Applied(ending.answer, attemptNo, MAX_ATTEMPTS, now)
                             && IsOutcome(rows[key], ending.answer, attemptNo, 8, now))
                && (!sent ==> rows[key] == row.(status := Failed, attemptCount := attemptNo, nextAttemptAt := None,
                                                completedAt := Some(now)))
                && disabled == (if sent && !ending.answer.networkError && ending.answer.status == Some(410)
                                then old(disabled) + {key.subscriptionId} else old(disabled))
                && (threw <==> rows[key].status == Retrying)
                && (IsLive(row.status) ==> rows[key].attemptCount <= 8)
    {
      if key !in rows {
        return false;
      }
      var attemptNo := rows[key].attemptCount + 1;
      if ending.NotSent? || key.subscriptionId in disabled {
        rows := rows[key := GivenUp(rows[key], attemptNo, now)];
        return false;
      }
      var reported;
      threw, reported := ApplyOutcome(key, ending.answer, attemptNo, MAX_ATTEMPTS, now);
    }

    /**
     Re-enqueues the candidates that have no job. The queue answers the first
     `answers` look-ups and then fails; an `add` in `lost` is logged and dropped.
     `ReconcileFillsIn` and `MissingIsExact` say what these come to.
     */
    method Reconcile(candidates: seq<PairKey>, answers: nat, lost: set<PairKey>, now: Time) returns (count: nat)
      requires Valid()
      requires forall i :: 0 <= i < |candidates| ==> candidates[i] in rows && Reconcilable(rows[candidates[i]], now)
      modifies this`jobs
      ensures Valid()
      ensures var checked := candidates[..Min(answers, |candidates|)];
              && jobs == Reconciled(rows, old(jobs), checked, lost, now)
              && count == Missing(rows, old(jobs), checked, lost, now)
    {
      count := 0;
      var n := 0;
      while n < |candidates|
        invariant 0 <= n <= Min(answers, |candidates|)
        invariant jobs.Keys <= rows.Keys
        invariant jobs == Reconciled(rows, old(jobs), candidates[..n], lost, now)
        invariant count == Missing(rows, old(jobs), candidates[..n], lost, now)
      {
        if n == answers {
          break;
        }
        assert candidates[..n + 1][..n] == candidates[..n];
        var key := candidates[n];
        if key !in jobs {
          if key !in lost {
            jobs := jobs[key := NewJob(rows, key, now)];
          }
          count := count + 1;
        }
        n := n + 1;
      }
    }

    /** `resetAndEnqueue`: the row starts over, with a fresh job under its old id. */
    method ResetAndEnqueue(key: PairKey, now: Time)
      requires Valid() && key in rows
      modifies this`rows, this`jobs
      ensures Valid()
      ensures rows == old(rows)[key := NEW_DELIVERY]
      ensures rows[key] == Delivery(Pending, 0, None, None, None)
      ensures jobs == old(jobs)[key := FreshJob(0, now)]
      ensures jobs[key].attemptsMade == 0 && jobs[key].state == Waiting(now) && jobs[key].retryAfter.None?
    {
      rows := rows[key := NEW_DELIVERY];
      if key in jobs {
        jobs := jobs - {key};
      }
      jobs := jobs[key := NewJob(rows, key, now)];
    }

    /** Replays every dead delivery of a subscription, `dead` being the answer of the query for them. */
    method ReplayDead(subscriptionId: string, dead: seq<PairKey>, now: Time) returns (queued: nat)
      requires Valid() && IsDeadOf(rows, subscriptionId, dead)
      modifies this`rows, this`jobs
      ensures Valid() && rows.Keys == old(rows).Keys
      ensures forall key :: key in rows ==>
                rows[key] == if DeadOf(old(rows), subscriptionId, key) then NEW_DELIVERY else old(rows)[key]
      ensures forall key :: key in rows && key.subscriptionId == subscriptionId ==> rows[key].status != Dead
      ensures forall key :: key in jobs <==> key in old(jobs) || DeadOf(old(rows), subscriptionId, key)
      ensures forall key :: key in jobs ==>
                jobs[key] == if DeadOf(old(rows), subscriptionId, key) then FreshJob(0, now) else old(jobs)[key]
      ensures queued == |set key | key in old(rows) && DeadOf(old(rows), subscriptionId, key)|
    {
      ghost var was := rows;
      hide DeadOf;
      hide RowInv;
      for n := 0 to |dead|
        invariant Valid() && rows.Keys == old(rows).Keys
        invariant forall key :: key in rows ==>
                    rows[key] == if key in dead[..n] then NEW_DELIVERY else old(rows)[key]
        invariant jobs.Keys == old(jobs).Keys + set key | key in dead[..n]
        invariant forall key :: key in jobs ==>
                    jobs[key] == if key in dead[..n] then FreshJob(0, now) else old(jobs)[key]
      {
        DeadIsRow(was, subscriptionId, dead[n]);
        assert dead[..n + 1] == dead[..n] + [dead[n]];
        ResetAndEnqueue(dead[n], now);
      }
      assert dead[..|dead|] == dead;
      DeadCount(was, subscriptionId, dead);
      NoneDeadLeft(was, rows, subscriptionId, dead);
      queued := |dead|;
    }
  }
}
