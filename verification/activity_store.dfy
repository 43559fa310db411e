/**
 The engine as the program runs it: `ActivitiesRepository` and `ActivitiesService`
 updating the `activity` and `outbox_event` tables in place. Every method is proved
 against the functions the state machine is built from.
 */
module ActivityStore {
  import opened Prelude
  import opened ActivityModel
  import opened ActivityMachine
  import opened ActivityRuns
  import opened ActivitySweep

  datatype Outcome =
    | Moved(row: Row)
    /** A stale or unknown system request, or a confirmation already made. */
    | Unchanged
    | NotFound
    | InvalidTransition
    | NotAllowed

  function OutcomeOf(verdict: Verdict, row: Row): Outcome {
    match verdict
    case Go(_) => Moved(row)
    case NoOp => Unchanged
    case Invalid => InvalidTransition
    case Forbidden => NotAllowed
  }

  function WireCalls(ops: seq<TimerOp>, row: Row, previous: Option<nat>, now: Time): seq<QueueOp> {
    if ops == [] then []
    else
      var earlier := WireCalls(ops[..|ops| - 1], row, previous, now);
      var call := WireOp(ops[|ops| - 1], row, previous, now);
      if call.Some? then earlier + [call.value] else earlier
  }

  lemma {:induction false} WireCallsAreWired(ops: seq<TimerOp>, row: Row, previous: Option<nat>, now: Time)
    ensures (set call | call in WireCalls(ops, row, previous, now))
         == (set op | op in ops && WireOp(op, row, previous, now).Some? :: WireOp(op, row, previous, now).value)
  {
    hide WireOp;
    if ops == [] {
    } else {
      var init := ops[..|ops| - 1];
      var last := ops[|ops| - 1];
      WireCallsAreWired(init, row, previous, now);
      var earlier := WireCalls(init, row, previous, now);
      var call := WireOp(last, row, previous, now);
      var added := if call.Some? then {call.value} else {};
      assert (set c | c in WireCalls(ops, row, previous, now)) == (set c | c in earlier) + added;
      assert forall op :: op in ops <==> op in init || op == last;
    }
  }

  /** The event of a sweep's move: from the status it found to the one then due. */
  predicate SweepEvent(written: OutboxRow, id: ActivityId, row: Row, now: Time, stamp: Time) {
    && written.activityId == id
    && written.event.from == Some(row.status)
    && Some(written.event.to) == DueTargetFor(row, now)
    && written.event.actor == System
    && written.event.version == row.version + 1
    && written.event.occurredAt == stamp
  }

  /** The queue calls of one activity. */
  function CallsOf(calls: seq<(ActivityId, QueueOp)>, id: ActivityId): set<QueueOp> {
    if calls == [] then {}
    else
      CallsOf(calls[..|calls| - 1], id)
      + if calls[|calls| - 1].0 == id then {calls[|calls| - 1].1} else {}
  }

  lemma {:induction false} CallsOfConcat(a: seq<(ActivityId, QueueOp)>, b: seq<(ActivityId, QueueOp)>, id: ActivityId)
    ensures CallsOf(a + b, id) == CallsOf(a, id) + CallsOf(b, id)
  {
    if b == [] {
      assert a + b == a;
    } else {
      CallsOfConcat(a, b[..|b| - 1], id);
      assert (a + b)[..|a + b| - 1] == a + b[..|b| - 1];
    }
  }

  lemma {:induction false} CallsOfOne(calls: seq<(ActivityId, QueueOp)>, id: ActivityId, other: ActivityId)
    requires forall i :: 0 <= i < |calls| ==> calls[i].0 == id
    ensures CallsOf(calls, other) == if other == id then set i | 0 <= i < |calls| :: calls[i].1 else {}
  {
    if calls != [] {
      var init, last := calls[..|calls| - 1], calls[|calls| - 1];
      CallsOfOne(init, id, other);
      var before := set i | 0 <= i < |init| :: init[i].1;
      var all := set i | 0 <= i < |calls| :: calls[i].1;
      assert all == before + {last.1} by {
        forall op
          ensures op in all <==> op in before + {last.1}
        {
          if op in before {
            var i :| 0 <= i < |init| && init[i].1 == op;
            assert calls[i].1 == op;
          }
          if op in all {
            var i :| 0 <= i < |calls| && calls[i].1 == op;
            assert i < |init| ==> init[i].1 == op;
          }
          assert calls[|calls| - 1].1 == last.1;
        }
      }
    } else {
      assert calls == [];
    }
  }

  /** The calls added to the list, all of one activity, by activity. */
  lemma NewCallsOf(calls: seq<(ActivityId, QueueOp)>, calls': seq<(ActivityId, QueueOp)>, id: ActivityId)
    requires calls <= calls' && forall i :: |calls| <= i < |calls'| ==> calls'[i].0 == id
    ensures forall other ::
              CallsOf(calls'[|calls|..], other)
              == if other == id then set i | |calls| <= i < |calls'| :: calls'[i].1 else {}
  {
    var added := calls'[|calls|..];
    var ops := set i | 0 <= i < |added| :: added[i].1;
    var ops' := set i | |calls| <= i < |calls'| :: calls'[i].1;
    assert ops == ops' by {
      forall op
        ensures op in ops <==> op in ops'
      {
        if op in ops {
          var i :| 0 <= i < |added| && added[i].1 == op;
          assert calls'[|calls| + i].1 == op;
        }
        if op in ops' {
          var i :| |calls| <= i < |calls'| && calls'[i].1 == op;
          assert added[i - |calls|].1 == op;
        }
      }
    }
    forall other
      ensures CallsOf(added, other) == if other == id then ops' else {}
    {
      CallsOfOne(added, id, other);
    }
  }

  /** The queue calls of a sweep's move: those of the status it enters. */
  function SweptCalls(row: Row, now: Time, stamp: Time, timeout: int): set<QueueOp> {
    Wired(SweptRow(row, now, stamp, timeout), Some(row.version), stamp)
  }

  /** The calls of the first `n` rows of a batch, and no others. */
  ghost predicate CallsFired(calls: seq<(ActivityId, QueueOp)>, rows: Table, batch: seq<ActivityId>, now: Time,
                             stamps: seq<Time>, timeout: int, n: nat)
    requires n <= |batch| == |stamps| && forall i :: 0 <= i < |batch| ==> batch[i] in rows
  {
    && (forall i :: 0 <= i < n ==> CallsOf(calls, batch[i]) == SweptCalls(rows[batch[i]], now, stamps[i], timeout))
    && (forall id :: id !in batch[..n] ==> CallsOf(calls, id) == {})
  }

  lemma NothingFired(rows: Table, batch: seq<ActivityId>, now: Time, stamps: seq<Time>, timeout: int)
    requires |batch| == |stamps| && forall i :: 0 <= i < |batch| ==> batch[i] in rows
    ensures CallsFired([], rows, batch, now, stamps, timeout, 0)
  {
  }

  lemma CallsFiredNext(start: seq<(ActivityId, QueueOp)>, before: seq<(ActivityId, QueueOp)>,
                       after: seq<(ActivityId, QueueOp)>, rows: Table, batch: seq<ActivityId>, now: Time,
                       stamps: seq<Time>, timeout: int, n: nat)
    requires n < |batch| == |stamps| && forall i :: 0 <= i < |batch| ==> batch[i] in rows
    requires forall i, j :: 0 <= i < j < |batch| ==> batch[i] != batch[j]
    requires start <= before <= after
    requires CallsFired(before[|start|..], rows, batch, now, stamps, timeout, n)
    requires forall other ::
              CallsOf(after[|before|..], other)
              == if other == batch[n] then SweptCalls(rows[batch[n]], now, stamps[n], timeout) else {}
    ensures CallsFired(after[|start|..], rows, batch, now, stamps, timeout, n + 1)
  {
    hide CallsOf;
    hide SweptCalls;
    assert after[|start|..] == before[|start|..] + after[|before|..];
    forall id
      ensures CallsOf(after[|start|..], id) == CallsOf(before[|start|..], id) + CallsOf(after[|before|..], id)
    {
      CallsOfConcat(before[|start|..], after[|before|..], id);
    }
    assert batch[n] !in batch[..n];
    assert batch[..n + 1] == batch[..n] + [batch[n]];
  }

  lemma SweptNone(rows: Table, now: Time, timeout: int)
    ensures SweptTable(rows, [], now, [], timeout) == rows
  {
  }

  /** Row `n` of a batch is still as the query found it when its turn comes. */
  lemma SweptNext(rows: Table, batch: seq<ActivityId>, n: nat, now: Time, stamps: seq<Time>, timeout: int)
    requires n < |batch| == |stamps|
    requires forall i :: 0 <= i < |batch| ==> batch[i] in rows && SqlDue(rows[batch[i]], now)
    requires forall i, j :: 0 <= i < j < |batch| ==> batch[i] != batch[j]
    ensures var before := SweptTable(rows, batch[..n], now, stamps[..n], timeout);
            && batch[n] in before && before[batch[n]] == rows[batch[n]]
            && SweptTable(rows, batch[..n + 1], now, stamps[..n + 1], timeout)
               == before[batch[n] := SweptRow(rows[batch[n]], now, stamps[n], timeout)]
  {
    hide SqlDue;
    hide SweptRow;
    SweepMovesItsBatch(rows, batch[..n], now, stamps[..n], timeout);
    assert batch[n] !in batch[..n];
    assert batch[..n + 1][..n] == batch[..n] && stamps[..n + 1][..n] == stamps[..n];
  }

  /**
   One status change and no more: the row as its cause commits it, its one event, and the
   queue calls of the status entered; every other row, event and call stays.
   */
  ghost predicate IsMove(rows: map<ActivityId, Row>, rows': map<ActivityId, Row>,
                         outbox: seq<OutboxRow>, outbox': seq<OutboxRow>,
                         calls: seq<(ActivityId, QueueOp)>, calls': seq<(ActivityId, QueueOp)>,
                         id: ActivityId, cause: Cause, now: Time, timeout: int)
  {
    && id in rows && Judge(rows[id], WantedBy(cause), ActorOf(cause)).Go?
    && var row := rows[id];
       var rule := Judge(row, WantedBy(cause), ActorOf(cause)).rule;
       var row' := CommitRow(row, Read(row, cause, now), rule, timeout);
       && rows' == rows[id := row']
       && outbox' == outbox + [OutboxRow(id, CommitEvent(row, Read(row, cause, now), rule))]
       && calls <= calls'
       && (forall i :: |calls| <= i < |calls'| ==> calls'[i].0 == id)
       && (set i | |calls| <= i < |calls'| :: calls'[i].1) == Wired(row', Some(row.version), now)
  }

  class ActivitiesService {
    var rows: map<ActivityId, Row>
    var outbox: seq<OutboxRow>
    /** Queue calls fired after commits, in the order they were fired. */
    var calls: seq<(ActivityId, QueueOp)>
    const timeout: int
    const lead: int

    constructor (timeout: int, lead: int)
      ensures rows == map[] && outbox == [] && calls == []
      ensures this.timeout == timeout && this.lead == lead
    {
      this.timeout := timeout;
      this.lead := lead;
      rows, outbox, calls := map[], [], [];
    }

    /** One transaction: lock the row, re-check it, write it, and append one outbox row. */
    method ApplyTransition(id: ActivityId, read: Read, rule: Rule) returns (saved: Option<Row>)
      modifies this`rows, this`outbox
      ensures saved == if id in old(rows) && CasPasses(old(rows)[id], read.snap)
                       then Some(CommitRow(old(rows)[id], read, rule, timeout)) else None
      ensures rows == if saved.Some? then old(rows)[id := saved.value] else old(rows)
      ensures outbox == old(outbox)
                     + if saved.Some? then [OutboxRow(id, CommitEvent(old(rows)[id], read, rule))] else []
    {
      if id !in rows {
        return None;
      }
      var row := rows[id];
      if row.deletedAt.Some? || row.status != read.snap.status || row.version != read.snap.version {
        return None;
      }
      var event := CommitEvent(row, read, rule);
      row := row.(status := WantedBy(read.cause), version := row.version + 1);
      row := Assign(row, CommitFields(read, rule, timeout));
      rows := rows[id := row];
      outbox := outbox + [OutboxRow(id, event)];
      saved := Some(row);
    }

    /** Fires the queue calls of the status just entered. */
    method WireTimers(id: ActivityId, row: Row, previous: Option<nat>, now: Time)
      modifies this`calls
      ensures |calls| >= |old(calls)| && calls[..|old(calls)|] == old(calls)
      ensures forall i :: |old(calls)| <= i < |calls| ==> calls[i].0 == id
      ensures (set i | |old(calls)| <= i < |calls| :: calls[i].1) == Wired(row, previous, now)
    {
      var ops := TimerOpsFor(row.status);
      var start := |calls|;
      ghost var fired: seq<QueueOp> := [];
      for i := 0 to |ops|
        invariant fired == WireCalls(ops[..i], row, previous, now)
        invariant |calls| == start + |fired| && calls[..start] == old(calls)
        invariant forall j :: 0 <= j < |fired| ==> calls[start + j] == (id, fired[j])
      {
        assert ops[..i + 1][..i] == ops[..i];
        var call := WireOp(ops[i], row, previous, now);
        if call.Some? {
          calls := calls + [(id, call.value)];
          fired := fired + [call.value];
        }
      }
      assert ops[..|ops|] == ops;
      WireCallsAreWired(ops, row, previous, now);
      forall i | start <= i < |calls|
        ensures calls[i] == (id, fired[i - start])
      {
        assert calls[start + (i - start)] == (id, fired[i - start]);
      }
      assert (set i | start <= i < |calls| :: calls[i].1) == (set call | call in fired) by {
        forall call | call in fired
          ensures call in set i | start <= i < |calls| :: calls[i].1
        {
          var j :| 0 <= j < |fired| && fired[j] == call;
          assert calls[start + j].1 == call;
        }
      }
    }

    /** The single door for every status change. */
    method Transition(id: ActivityId, cause: Cause, now: Time) returns (result: Outcome)
      modifies this
      ensures |calls| >= |old(calls)|
      ensures id !in old(rows) || old(rows)[id].deletedAt.Some? ==>
                result == if cause.ByTimer? then Unchanged else NotFound
      ensures id in old(rows) && old(rows)[id].deletedAt.None? ==>
                var verdict := Judge(old(rows)[id], WantedBy(cause), ActorOf(cause));
                if verdict.Go? then
                  && IsMove(old(rows), rows, old(outbox), outbox, old(calls), calls, id, cause, now, timeout)
                  && result == Moved(rows[id])
                else result == OutcomeOf(verdict, old(rows)[id])
      ensures !result.Moved? ==> rows == old(rows) && outbox == old(outbox) && calls == old(calls)
    {
      if id !in rows || rows[id].deletedAt.Some? {
        return if cause.ByTimer? then Unchanged else NotFound;
      }
      var row := rows[id];
      var verdict := Judge(row, WantedBy(cause), ActorOf(cause));
      if !verdict.Go? {
        return OutcomeOf(verdict, row);
      }
      var saved := ApplyTransition(id, Read(row, cause, now), verdict.rule);
      WireTimers(id, saved.value, Some(row.version), now);
      result := Moved(saved.value);
    }

    /** `create`: insert the row at version 1 with its event, then wire its timers. */
    method Create(id: ActivityId, draft: Draft, checkedAt: Time, now: Time) returns (created: bool)
      requires id !in rows
      modifies this
      ensures created <==> ScheduleAccepted(draft, checkedAt, lead)
      ensures !created ==> rows == old(rows) && outbox == old(outbox) && calls == old(calls)
      ensures created ==>
                var row := NewRow(draft.creator, draft.assignee, draft.start, draft.end, now, timeout);
                && rows == old(rows)[id := row]
                && row.createdBy == draft.creator && row.assignedTo == draft.assignee && row.version == 1
                && row.scheduledStart == Some(draft.start) && row.scheduledEnd == draft.end
                && row.status == (if draft.assignee.Some? then Assigned else Created)
                && row.deadline == Some(now + timeout)
                && outbox == old(outbox) + [OutboxRow(id, NewEvent(draft.creator, draft.assignee, now))]
                && old(calls) <= calls && (forall i :: |old(calls)| <= i < |calls| ==> calls[i].0 == id)
                && (set i | |old(calls)| <= i < |calls| :: calls[i].1) == Wired(row, None, now)
    {
      if draft.start <= checkedAt {
        return false;
      }
      if draft.end.Some? && draft.end.value <= draft.start {
        return false;
      }
      if draft.start < checkedAt + lead {
        return false;
      }
      var row := NewRow(draft.creator, draft.assignee, draft.start, draft.end, now, timeout);
      rows := rows[id := row];
      outbox := outbox + [OutboxRow(id, NewEvent(draft.creator, draft.assignee, now))];
      WireTimers(id, row, None, now);
      created := true;
    }

    /** A member's request: the handler's own check, then `Transition`. */
    method Handle(id: ActivityId, user: UserId, request: Request, checkedAt: Time, now: Time)
      returns (result: Outcome)
      requires request.Delete? ==> request.deletedAt == checkedAt
      modifies this
      ensures result.Moved? <==>
                && id in old(rows)
                && HandlerAllows(old(rows)[id], request, user, checkedAt)
                && Judge(old(rows)[id], TargetOf(request), User(user)).Go?
      ensures result.Moved? ==>
                && IsMove(old(rows), rows, old(outbox), outbox, old(calls), calls,
                          id, ByUser(user, request), now, timeout)
                && rows[id] == result.row
                && rows[id].status == TargetOf(request)
                && rows[id].version == old(rows)[id].version + 1
      ensures !result.Moved? ==> rows == old(rows) && outbox == old(outbox) && calls == old(calls)
    {
      if id !in rows || rows[id].deletedAt.Some? {
        return NotFound;
      }
      var row := rows[id];
      if request.Confirm? && row.assignedTo == Some(user) && row.status == Assisting {
        return Unchanged;
      }
      if !HandlerAllows(row, request, user, checkedAt) {
        return NotAllowed;
      }
      result := Transition(id, ByUser(user, request), now);
    }

    /** The fast path: a timer job re-reads the row and asks for its own transition. */
    method HandleTimer(id: ActivityId, key: JobKey, now: Time) returns (result: Outcome)
      modifies this
      ensures result.Moved? <==>
                id in old(rows) && HandleTimerTarget(old(rows)[id], key.kind, key.version).Some?
      ensures result.Moved? ==>
                && TargetStatusFor(key.kind).Some?
                && IsMove(old(rows), rows, old(outbox), outbox, old(calls), calls, id,
                          ByTimer(Intent(TargetStatusFor(key.kind).value, key.version, now)), now, timeout)
                && rows[id] == result.row
                && Some(rows[id].status) == TargetStatusFor(key.kind)
                && rows[id].version == key.version + 1
      ensures !result.Moved? ==> rows == old(rows) && outbox == old(outbox) && calls == old(calls)
    {
      if id !in rows {
        return Unchanged;
      }
      var to := HandleTimerTarget(rows[id], key.kind, key.version);
      if to.None? {
        return Unchanged;
      }
      result := Transition(id, ByTimer(Intent(to.value, rows[id].version, now)), now);
    }

    /** One row of the sweep's batch. */
    method SweepOne(id: ActivityId, now: Time, stamp: Time)
      requires id in rows && SqlDue(rows[id], now)
      modifies this
      ensures rows == old(rows)[id := SweptRow(old(rows)[id], now, stamp, timeout)]
      ensures |outbox| == |old(outbox)| + 1 && outbox[..|old(outbox)|] == old(outbox)
      ensures SweepEvent(outbox[|old(outbox)|], id, old(rows)[id], now, stamp)
      ensures old(calls) <= calls
      ensures forall other ::
                CallsOf(calls[|old(calls)|..], other)
                == if other == id then SweptCalls(old(rows)[id], now, stamp, timeout) else {}
    {
      SweptRowMoves(rows[id], now, stamp, timeout);
      var to := DueTargetFor(rows[id], now);
      if to.Some? {
        var _ := Transition(id, ByTimer(Intent(to.value, rows[id].version, now)), stamp);
      }
      NewCallsOf(old(calls), calls, id);
    }

    /** The slow path: move every row of the query's batch. */
    method RunSweep(batch: seq<ActivityId>, now: Time, stamps: seq<Time>, limit: nat)
      requires IsBatch(rows, now, limit, batch) && |stamps| == |batch|
      modifies this
      ensures rows == SweptTable(old(rows), batch, now, stamps, timeout)
      ensures TotalSteps(rows) + |batch| == TotalSteps(old(rows))
      ensures |outbox| == |old(outbox)| + |batch| && outbox[..|old(outbox)|] == old(outbox)
      ensures forall i :: 0 <= i < |batch| ==>
                SweepEvent(outbox[|old(outbox)| + i], batch[i], old(rows)[batch[i]], now, stamps[i])
      ensures old(calls) <= calls
      ensures forall i :: 0 <= i < |batch| ==>
                CallsOf(calls[|old(calls)|..], batch[i]) == SweptCalls(old(rows)[batch[i]], now, stamps[i], timeout)
      ensures forall id :: id !in batch ==> CallsOf(calls[|old(calls)|..], id) == {}
    {
      hide SqlDue;
      hide SweptRow;
      hide SweepEvent;
      hide TotalSteps;
      hide SweptTable;
      hide SweptCalls;
      hide CallsOf;
      assert calls[|calls|..] == [];
      NothingFired(rows, batch, now, stamps, timeout);
      assert SweptTable(rows, [], now, [], timeout) == rows by {
        SweptNone(rows, now, timeout);
      }
      ghost var was := rows;
      for n := 0 to |batch|
        invariant rows == SweptTable(was, batch[..n], now, stamps[..n], timeout)
        invariant |outbox| == |old(outbox)| + n && outbox[..|old(outbox)|] == old(outbox)
        invariant forall i :: 0 <= i < n ==>
                    SweepEvent(outbox[|old(outbox)| + i], batch[i], was[batch[i]], now, stamps[i])
        invariant old(calls) <= calls
        invariant CallsFired(calls[|old(calls)|..], was, batch, now, stamps, timeout, n)
      {
        SweptNext(was, batch, n, now, stamps, timeout);
        ghost var before := calls;
        SweepOne(batch[n], now, stamps[n]);
        CallsFiredNext(old(calls), before, calls, was, batch, now, stamps, timeout, n);
      }
      assert batch[..|batch|] == batch && stamps[..|batch|] == stamps;
      SweepMovesItsBatch(was, batch, now, stamps, timeout);
    }
  }
}
