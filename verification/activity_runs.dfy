/**
 All activities together: one outbox, one clock, and any interleaving of creations
 and activity steps. The theorems hold in every state such a run can reach.
 */
module ActivityRuns {
  import opened Prelude
  import opened ActivityModel
  import opened ActivityMachine

  /** `RESPONSE_TIMEOUT_HOURS` and `MIN_LEAD_TIME_HOURS`, in milliseconds. */
  datatype Config = Config(timeout: int, lead: int)

  datatype OutboxRow = OutboxRow(activityId: ActivityId, event: Event)

  datatype State = State(acts: map<ActivityId, Act>, outbox: seq<OutboxRow>, now: Time)

  datatype Draft = Draft(creator: UserId, assignee: Option<UserId>, start: Time, end: Option<Time>)

  datatype Move =
    | Tick(later: Time)
    /** `create`, which checked the schedule at `checkedAt` and stamped the row at `stampedAt`. */
    | Create(id: ActivityId, draft: Draft, checkedAt: Time, stampedAt: Time)
    | Do(id: ActivityId, step: Step)

  function Initial(now: Time): State {
    State(map[], [], now)
  }

  predicate ScheduleAccepted(draft: Draft, at: Time, lead: int) {
    && draft.start > at
    && draft.start >= at + lead
    && (draft.end.Some? ==> draft.end.value > draft.start)
  }

  ghost predicate CanMove(cfg: Config, s: State, m: Move) {
    match m
    case Tick(later) => s.now <= later
    case Create(id, draft, checkedAt, stampedAt) =>
      && id !in s.acts
      && checkedAt <= stampedAt <= s.now
      && ScheduleAccepted(draft, checkedAt, cfg.lead)
    case Do(id, step) => id in s.acts && Enabled(s.acts[id], step, s.now)
  }

  function Tagged(id: ActivityId, events: seq<Event>): seq<OutboxRow> {
    seq(|events|, i requires 0 <= i < |events| => OutboxRow(id, events[i]))
  }

  ghost function Moved(cfg: Config, s: State, m: Move): State
    requires CanMove(cfg, s, m)
  {
    match m
    case Tick(later) => s.(now := later)
    case Create(id, d, _, stampedAt) =>
      s.(acts := s.acts[id := NewAct(NewRow(d.creator, d.assignee, d.start, d.end, stampedAt, cfg.timeout))],
         outbox := s.outbox + Tagged(id, [NewEvent(d.creator, d.assignee, stampedAt)]))
    case Do(id, step) =>
      s.(acts := s.acts[id := After(s.acts[id], step, s.now, cfg.timeout)],
         outbox := s.outbox + Tagged(id, Emitted(s.acts[id], step)))
  }

  ghost predicate Runs(cfg: Config, s: State, moves: seq<Move>, s': State)
    decreases |moves|
  {
    if moves == [] then s' == s
    else CanMove(cfg, s, moves[0]) && Runs(cfg, Moved(cfg, s, moves[0]), moves[1..], s')
  }

  ghost predicate Reachable(cfg: Config, s: State) {
    exists start, moves :: Runs(cfg, Initial(start), moves, s)
  }

  /** The events of one activity, in outbox order. */
  function EventsOf(outbox: seq<OutboxRow>, id: ActivityId): seq<Event> {
    if outbox == [] then []
    else
      var last := outbox[|outbox| - 1];
      var earlier := EventsOf(outbox[..|outbox| - 1], id);
      if last.activityId == id then earlier + [last.event] else earlier
  }

  // ---------------------------------------------------------------- invariant

  ghost predicate SystemInv(cfg: Config, s: State) {
    && (forall id :: id in s.acts ==> Inv(s.acts[id], EventsOf(s.outbox, id), s.now, cfg.timeout))
    && (forall id :: id !in s.acts ==> EventsOf(s.outbox, id) == [])
  }

  lemma EventsOfAppended(outbox: seq<OutboxRow>, id: ActivityId, events: seq<Event>, other: ActivityId)
    requires |events| <= 1
    ensures EventsOf(outbox + Tagged(id, events), other)
         == if id == other then EventsOf(outbox, other) + events else EventsOf(outbox, other)
  {
    var longer := outbox + Tagged(id, events);
    if events == [] {
      assert longer == outbox;
    } else {
      assert longer[..|longer| - 1] == outbox;
    }
  }

  lemma MoveKeepsInv(cfg: Config, s: State, m: Move)
    requires SystemInv(cfg, s) && CanMove(cfg, s, m)
    ensures SystemInv(cfg, Moved(cfg, s, m))
  {
    hide Inv;
    hide After;
    hide Enabled;
    hide Emitted;
    var s' := Moved(cfg, s, m);
    match m
    case Tick(later) =>
      forall id | id in s.acts
        ensures Inv(s'.acts[id], EventsOf(s'.outbox, id), s'.now, cfg.timeout)
      {
        TickKeepsInv(s.acts[id], EventsOf(s.outbox, id), s.now, later, cfg.timeout);
      }
    case Create(id, d, _, stampedAt) =>
      BirthInv(d.creator, d.assignee, d.start, d.end, stampedAt, s.now, cfg.timeout);
      var event := NewEvent(d.creator, d.assignee, stampedAt);
      forall other {
        EventsOfAppended(s.outbox, id, [event], other);
      }
      assert EventsOf(s'.outbox, id) == [] + [event] == [event];
    case Do(id, step) =>
      StepKeepsInv(s.acts[id], EventsOf(s.outbox, id), s.now, cfg.timeout, step);
      AtMostOneEvent(s.acts[id], step);
      forall other {
        EventsOfAppended(s.outbox, id, Emitted(s.acts[id], step), other);
      }
  }

  lemma AtMostOneEvent(a: Act, step: Step)
    ensures |Emitted(a, step)| <= 1
  {
  }

  lemma {:induction false} RunKeepsInv(cfg: Config, s: State, moves: seq<Move>, s': State)
    requires SystemInv(cfg, s) && Runs(cfg, s, moves, s')
    ensures SystemInv(cfg, s')
    decreases |moves|
  {
    hide SystemInv;
    hide CanMove;
    hide Moved;
    if moves != [] {
      MoveKeepsInv(cfg, s, moves[0]);
      RunKeepsInv(cfg, Moved(cfg, s, moves[0]), moves[1..], s');
    }
  }

  lemma ReachableInv(cfg: Config, s: State)
    requires Reachable(cfg, s)
    ensures SystemInv(cfg, s)
  {
    hide CanMove;
    hide Moved;
    hide Inv;
    var start, moves :| Runs(cfg, Initial(start), moves, s);
    RunKeepsInv(cfg, Initial(start), moves, s);
  }

  lemma ActivityInv(cfg: Config, s: State, id: ActivityId)
    requires Reachable(cfg, s) && id in s.acts
    ensures Inv(s.acts[id], EventsOf(s.outbox, id), s.now, cfg.timeout)
  {
    hide Inv;
    ReachableInv(cfg, s);
  }

  // ---------------------------------------------------------------- the log

  /** Versions 1..n once each in order, and statuses chained along the rules from creation on. */
  predicate Chained(log: seq<Event>) {
    && |log| >= 1 && log[0].from == None
    && (forall k {:trigger log[k].version} :: 0 <= k < |log| ==> log[k].version == k + 1)
    && (forall k {:trigger log[k].from} :: 1 <= k < |log| ==>
          && log[k].from == Some(log[k - 1].to)
          && ResolveTransition(log[k - 1].to, log[k].to).Some?
          && ResolveTransition(log[k - 1].to, log[k].to).value.event == log[k].eventType)
  }

  predicate TimesAscend(log: seq<Event>) {
    forall i, j :: 0 <= i <= j < |log| ==> log[i].occurredAt <= log[j].occurredAt
  }

  lemma HistoryIsChained(a: Act, log: seq<Event>, now: Time, timeout: int)
    requires HistInv(a) && LogInv(a, log, now, timeout)
    ensures Chained(log)
  {
    hide ResolveTransition;
    hide RowInv;
    hide Replay;
    hide LogColumns;
    hide OverdueOrigin;
    assert EventInv(a.hist[0], log, 0, timeout);
    forall k | 0 <= k < |log|
      ensures log[k].version == k + 1
    {
      assert EventInv(a.hist[k], log, k, timeout);
    }
    forall k | 1 <= k < |log|
      ensures log[k].from == Some(log[k - 1].to)
      ensures ResolveTransition(log[k - 1].to, log[k].to).Some?
      ensures ResolveTransition(log[k - 1].to, log[k].to).value.event == log[k].eventType
    {
      assert EventInv(a.hist[k], log, k, timeout);
    }
  }

  lemma {:induction false} HistoryAscends(a: Act, log: seq<Event>, now: Time, timeout: int, i: nat, j: nat)
    requires LogInv(a, log, now, timeout) && i <= j < |log|
    ensures log[i].occurredAt <= log[j].occurredAt
  {
    hide ResolveTransition;
    hide Replay;
    hide LogColumns;
    hide OverdueOrigin;
    if i < j {
      HistoryAscends(a, log, now, timeout, i, j - 1);
      assert EventInv(a.hist[j], log, j, timeout);
    }
  }

  lemma HistoryIsReplayed(a: Act, log: seq<Event>, now: Time, timeout: int)
    requires HistInv(a) && LogInv(a, log, now, timeout)
    ensures log != [] && Replay(log, timeout) == LogColumns(a.row)
    ensures log[|log| - 1].to == a.row.status
    ensures a.row.deletedAt.Some? <==> log[|log| - 1].deleted
  {
    hide ResolveTransition;
    hide RowInv;
    hide Replay;
    hide LogColumns;
    hide OverdueOrigin;
    assert EventInv(a.hist[|log| - 1], log, |log| - 1, timeout);
    assert log[..|log|] == log;
  }

  /**
   The outbox is a complete log: one event per version, chained along the rules to
   the current status, and the columns rebuilt from the events alone.
   */
  lemma OutboxIsCompleteLog(cfg: Config, s: State, id: ActivityId)
    requires Reachable(cfg, s) && id in s.acts
    ensures var row := s.acts[id].row;
            var log := EventsOf(s.outbox, id);
            && |log| == row.version && Chained(log)
            && log[|log| - 1].to == row.status
            && Replay(log, cfg.timeout) == LogColumns(row)
            && (row.deletedAt.Some? <==> log[|log| - 1].deleted)
  {
    hide EventInv;
    hide RowInv;
    hide Replay;
    hide Chained;
    hide LogColumns;
    hide RequestsInv;
    hide TimersInv;
    ActivityInv(cfg, s, id);
    HistoryIsChained(s.acts[id], EventsOf(s.outbox, id), s.now, cfg.timeout);
    HistoryIsReplayed(s.acts[id], EventsOf(s.outbox, id), s.now, cfg.timeout);
  }

  /** An activity's events are in time order, although each is stamped before its transaction. */
  lemma EventTimesAscend(cfg: Config, s: State, id: ActivityId)
    requires Reachable(cfg, s) && id in s.acts
    ensures TimesAscend(EventsOf(s.outbox, id))
  {
    hide EventInv;
    hide LogInv;
    hide RequestsInv;
    hide TimersInv;
    ActivityInv(cfg, s, id);
    var log := EventsOf(s.outbox, id);
    forall i: nat, j: nat | i <= j < |log|
      ensures log[i].occurredAt <= log[j].occurredAt
    {
      HistoryAscends(s.acts[id], log, s.now, cfg.timeout, i, j);
    }
  }

  /** Every version's row is the replay of the events up to it, so `(id, version)` fixes the row. */
  lemma VersionFixesRow(cfg: Config, s: State, id: ActivityId, r: Read, r': Read)
    requires Reachable(cfg, s) && id in s.acts
    requires r in s.acts[id].inFlight && r' in s.acts[id].inFlight && r.snap.version == r'.snap.version
    ensures r.snap == r'.snap
    ensures r.snap.version <= |EventsOf(s.outbox, id)|
    ensures Replay(EventsOf(s.outbox, id)[..r.snap.version], cfg.timeout) == LogColumns(r.snap)
  {
    hide RowInv;
    hide TimersInv;
    hide Judge;
    hide Replay;
    hide LogColumns;
    hide IntentInv;
    ActivityInv(cfg, s, id);
    var a := s.acts[id];
    var log := EventsOf(s.outbox, id);
    assert ReadInv(a, log, s.now, r) && ReadInv(a, log, s.now, r');
    assert EventInv(a.hist[r.snap.version - 1], log, r.snap.version - 1, cfg.timeout);
  }

  // ---------------------------------------------------------------- guards

  /** The guards checked on the snapshot are true of the row the commit overwrites. */
  lemma GuardsHoldAtCommit(cfg: Config, s: State, id: ActivityId, read: Read)
    requires Reachable(cfg, s) && id in s.acts && read in s.acts[id].inFlight
    requires CasPasses(s.acts[id].row, read.snap)
    ensures var row := s.acts[id].row;
            && row == read.snap
            && Judge(row, WantedBy(read.cause), ActorOf(read.cause)).Go?
            && (read.cause.ByUser? && read.cause.request.Confirm? ==> row.assignedTo == Some(read.cause.user))
            && (read.cause.ByUser? && read.cause.request.Decline? ==>
                  row.assignedTo == Some(read.cause.user)
                  && (row.status == Assigned || (row.status == Overdue && OverdueOrigin(row) == FromAssigned)))
            && (read.cause.ByUser? && WantedBy(read.cause) == Cancelled ==> read.cause.user == row.createdBy)
  {
    hide RowInv;
    hide TimersInv;
    hide LogInv;
    hide IntentInv;
    ActivityInv(cfg, s, id);
    assert ReadInv(s.acts[id], EventsOf(s.outbox, id), s.now, read);
    CasPassesOnSnapshot(s.acts[id], EventsOf(s.outbox, id), s.now, read);
  }

  /** The statuses that a response window is opened for on entry. */
  predicate HasWindow(status: Status) {
    status == Created || status == Assigned || status == Verify
  }

  /** In such a status the deadline counts from the event that entered it, by the replay of the log. */
  lemma DeadlineCountsFromEvent(row: Row, log: seq<Event>, k: nat, timeout: int)
    requires k < |log| && EventInv(row, log, k, timeout) && HasWindow(row.status)
    ensures row.deadline == Some(log[k].occurredAt + timeout)
  {
    hide OverdueOrigin;
    hide ResolveTransition;
    hide ReplayOne;
    var before := log[..k + 1];
    assert before[..|before| - 1] == log[..k];
    assert row.deadline == Replay(before, timeout).deadline;
    assert Replay(before, timeout) == ReplayOne(Replay(log[..k], timeout), log[k], timeout);
    hide Replay;
    EntryOpensWindow(Replay(log[..k], timeout), log[k], timeout);
  }

  lemma EntryOpensWindow(row: Row, event: Event, timeout: int)
    requires HasWindow(event.to)
    requires event.from.Some? ==> ResolveTransition(event.from.value, event.to).Some?
    ensures ReplayOne(row, event, timeout).deadline == Some(event.occurredAt + timeout)
  {
  }

  /** Overdue is asked for only of rows with a window; everything else asked for is due already. */
  lemma AskedIsDue(row: Row, seen: Row, to: Status, seenAt: Time, now: Time)
    requires RowInv(row) && SameBirth(seen, row) && seenAt <= now
    requires DueTargetFor(seen, seenAt) == Some(to) && Judge(row, to, System).Go?
    ensures to == Overdue ==>
              HasWindow(row.status) && row.deadline.Some?
              && (DueTargetFor(row, now) == Some(Overdue) <==> row.deadline.value <= now)
    ensures to != Overdue || seen == row ==> DueTargetFor(row, now) == Some(to)
  {
  }

  /**
   A timer's or sweep's commit moves a row that is due for what it asks, but for one case:
   starting and ending never happen early, and marking overdue is early exactly when the
   response window that the row's last event opened has not yet run out. It never is when
   the wake-up and `transition()` saw the same version.
   */
  lemma SystemCommitIsDueIff(cfg: Config, s: State, id: ActivityId, read: Read)
    requires Reachable(cfg, s) && id in s.acts && read in s.acts[id].inFlight
    requires read.cause.ByTimer? && CasPasses(s.acts[id].row, read.snap)
    ensures 1 <= read.snap.version <= |EventsOf(s.outbox, id)|
    ensures var due := DueTargetFor(s.acts[id].row, read.now) == Some(WantedBy(read.cause));
            var entered := EventsOf(s.outbox, id)[read.snap.version - 1];
            && (WantedBy(read.cause) != Overdue ==> due)
            && (WantedBy(read.cause) == Overdue ==> (due <==> entered.occurredAt + cfg.timeout <= read.now))
            && (read.cause.intent.seenVersion == read.snap.version ==> due)
  {
    hide RowInv;
    hide Judge;
    hide DueTargetFor;
    hide EventInv;
    hide TimersInv;
    hide SameBirth;
    ActivityInv(cfg, s, id);
    var a := s.acts[id];
    var log := EventsOf(s.outbox, id);
    var intent := read.cause.intent;
    assert ReadInv(a, log, s.now, read);
    CasPassesOnSnapshot(a, log, s.now, read);
    var seen := a.hist[intent.seenVersion - 1];
    AskedIsDue(a.row, seen, intent.to, intent.seenAt, read.now);
    if intent.to == Overdue {
      assert EventInv(a.hist[a.row.version - 1], log, a.row.version - 1, cfg.timeout);
      DeadlineCountsFromEvent(a.row, log, a.row.version - 1, cfg.timeout);
    }
  }

  // ---------------------------------------------------------------- timers

  /** With nothing lost, every row that only time moves has a wake-up on its way or is due already. */
  lemma NoRowWaitsOnNothing(cfg: Config, s: State, id: ActivityId)
    requires Reachable(cfg, s) && id in s.acts && !s.acts[id].lossy
    requires WaitsFor(s.acts[id].row.status).Some?
    ensures var a := s.acts[id];
            var kind := WaitsFor(a.row.status).value;
            && (DueTargetFor(a.row, s.now).Some? || HasWakeUp(a, kind))
            && HandleTimerTarget(a.row, kind, a.row.version).Some?
  {
    hide EventInv;
    hide RequestsInv;
    ActivityInv(cfg, s, id);
    assert RowInv(s.acts[id].row);
  }

  /** The column that says when time moves a row on from its status. */
  function Anchor(row: Row): Option<Time> {
    match row.status
    case Created => row.deadline
    case Assigned => row.deadline
    case Verify => row.deadline
    case Assisting => row.scheduledStart
    case InProgress => if row.scheduledEnd.Some? then row.scheduledEnd else row.scheduledStart
    case _ => None
  }

  /** Where time moves a status. */
  function NextByTime(status: Status): Status {
    match status
    case Assisting => InProgress
    case InProgress => Verify
    case _ => Overdue
  }

  /** The sweep's query and `dueTargetFor`, on any row, by its anchor column. */
  lemma DueFromAnchorOn(row: Row, at: Time)
    ensures DueTargetFor(row, at)
         == if Anchor(row).Some? && Anchor(row).value <= at then Some(NextByTime(row.status)) else None
    ensures SqlDue(row, at) <==> row.deletedAt.None? && Anchor(row).Some? && Anchor(row).value <= at
  {
  }

  /**
   Even when jobs are lost, a row that only time moves has an anchor: its deadline when it
   waits for an answer, its start when accepted, its end or else its start when running.
   From then on the sweep selects it, for the next status, as its timer would.
   */
  lemma SweepNeverMisses(cfg: Config, s: State, id: ActivityId, at: Time)
    requires Reachable(cfg, s) && id in s.acts
    requires s.acts[id].row.status in {Created, Assigned, Assisting, InProgress, Verify}
    ensures var row := s.acts[id].row;
            && Anchor(row).Some?
            && (SqlDue(row, at) <==> Anchor(row).value <= at)
            && (SqlDue(row, at) ==> DueTargetFor(row, at) == Some(NextByTime(row.status)))
            && WaitsFor(row.status).Some?
            && TimerTarget(WaitsFor(row.status).value, row) == Anchor(row)
            && TargetStatusFor(WaitsFor(row.status).value) == Some(NextByTime(row.status))
  {
    hide EventInv;
    hide RequestsInv;
    hide TimersInv;
    ActivityInv(cfg, s, id);
    assert RowInv(s.acts[id].row);
    DueFromAnchorOn(s.acts[id].row, at);
  }

  /** A job that passes `handleTimer`'s checks after its delay asks for what the sweep would, and the row is due. */
  lemma FastPathRefinesSlowPath(cfg: Config, s: State, id: ActivityId, key: JobKey)
    requires Reachable(cfg, s) && id in s.acts && key in s.acts[id].jobs && s.acts[id].jobs[key] <= s.now
    requires HandleTimerTarget(s.acts[id].row, key.kind, key.version).Some?
    ensures SqlDue(s.acts[id].row, s.now)
    ensures TargetStatusFor(key.kind) == DueTargetFor(s.acts[id].row, s.now)
  {
    hide EventInv;
    hide RequestsInv;
    hide RowInv;
    ActivityInv(cfg, s, id);
    FireAgreesWithSweep(s.acts[id], s.now, key);
  }

  /** The timers that can still act on a row: those of its current version. */
  function LiveKinds(jobs: map<JobKey, Time>, version: nat): set<TimerKind> {
    set key | key in jobs && key.version == version :: key.kind
  }

  function RanOps(jobs: map<JobKey, Time>, ops: seq<(QueueOp, Time)>): map<JobKey, Time> {
    if ops == [] then jobs
    else
      var (op, at) := ops[|ops| - 1];
      RanOp(RanOps(jobs, ops[..|ops| - 1]), op, at)
  }

  function AddedKinds(ops: set<QueueOp>, version: nat): set<TimerKind> {
    set op | op in ops && op.Add? && op.version == version :: op.kind
  }

  lemma RanOpLiveKinds(jobs: map<JobKey, Time>, op: QueueOp, at: Time, version: nat)
    requires op.Remove? ==> op.version < version
    ensures LiveKinds(RanOp(jobs, op, at), version) == LiveKinds(jobs, version) + AddedKinds({op}, version)
  {
    var jobs' := RanOp(jobs, op, at);
    forall kind
      ensures kind in LiveKinds(jobs', version) <==> kind in LiveKinds(jobs, version) + AddedKinds({op}, version)
    {
      assert kind in LiveKinds(jobs', version) <==> JobKey(kind, version) in jobs';
      assert kind in LiveKinds(jobs, version) <==> JobKey(kind, version) in jobs;
      assert kind in AddedKinds({op}, version) <==> op.Add? && op.version == version && op.kind == kind;
    }
  }

  function CallSet(ops: seq<(QueueOp, Time)>): set<QueueOp> {
    if ops == [] then {} else CallSet(ops[..|ops| - 1]) + {ops[|ops| - 1].0}
  }

  lemma {:induction false} RanOpsLiveKinds(jobs: map<JobKey, Time>, ops: seq<(QueueOp, Time)>, version: nat)
    requires forall op :: op in CallSet(ops) && op.Remove? ==> op.version < version
    ensures LiveKinds(RanOps(jobs, ops), version) == LiveKinds(jobs, version) + AddedKinds(CallSet(ops), version)
  {
    if ops != [] {
      var init := ops[..|ops| - 1];
      var (op, at) := ops[|ops| - 1];
      assert CallSet(ops) == CallSet(init) + {op};
      RanOpsLiveKinds(jobs, init, version);
      RanOpLiveKinds(RanOps(jobs, init), op, at, version);
      hide LiveKinds;
      assert AddedKinds(CallSet(ops), version) == AddedKinds(CallSet(init), version) + AddedKinds({op}, version);
    }
  }

  /**
   Queue calls may run late and in any order: whatever pending calls are made, in
   whatever order and at whatever times, the row's current version ends up with the
   same live timers; no cancel takes one away, and a job of an older version does nothing.
   */
  lemma {:induction false} QueueCallsCommute(cfg: Config, s: State, id: ActivityId,
                                             ops: seq<(QueueOp, Time)>, ops': seq<(QueueOp, Time)>, key: JobKey)
    requires Reachable(cfg, s) && id in s.acts
    requires CallSet(ops) == CallSet(ops') <= s.acts[id].ops
    ensures var a := s.acts[id];
            && LiveKinds(RanOps(a.jobs, ops), a.row.version) == LiveKinds(RanOps(a.jobs, ops'), a.row.version)
            && LiveKinds(a.jobs, a.row.version) <= LiveKinds(RanOps(a.jobs, ops), a.row.version)
            && (key.version != a.row.version ==> HandleTimerTarget(a.row, key.kind, key.version).None?)
  {
    hide EventInv;
    hide RequestsInv;
    hide RowInv;
    hide JobInv;
    hide NotForgotten;
    hide CallSet;
    hide RanOps;
    hide Reachable;
    ActivityInv(cfg, s, id);
    var a := s.acts[id];
    forall op | op in CallSet(ops) && op.Remove?
      ensures op.version < a.row.version
    {
      assert OpInv(a, s.now, op);
    }
    RanOpsLiveKinds(a.jobs, ops, a.row.version);
    RanOpsLiveKinds(a.jobs, ops', a.row.version);
  }

  // ---------------------------------------------------------------- policy

  /** The status an overdue row came from, by its log. */
  predicate CameFrom(log: seq<Event>, status: Status) {
    |log| >= 2 && log[|log| - 1].from == Some(status) && log[|log| - 2].to == status
  }

  lemma OverdueEventNamesOrigin(row: Row, log: seq<Event>, timeout: int)
    requires |log| >= 1 && EventInv(row, log, |log| - 1, timeout) && row.status == Overdue
    ensures OverdueOrigin(row) == FromCreated <==> CameFrom(log, Created)
    ensures OverdueOrigin(row) == FromAssigned <==> CameFrom(log, Assigned)
    ensures OverdueOrigin(row) == FromVerify <==> CameFrom(log, Verify)
  {
    hide Replay;
    hide LogColumns;
    hide OverdueOrigin;
  }

  /** In an overdue row, `overdueOrigin` names the status the last transition came from. */
  lemma OriginReadsHistory(cfg: Config, s: State, id: ActivityId)
    requires Reachable(cfg, s) && id in s.acts && s.acts[id].row.status == Overdue
    ensures var log := EventsOf(s.outbox, id);
            var origin := OverdueOrigin(s.acts[id].row);
            && (origin == FromCreated <==> CameFrom(log, Created))
            && (origin == FromAssigned <==> CameFrom(log, Assigned))
            && (origin == FromVerify <==> CameFrom(log, Verify))
  {
    hide RowInv;
    hide EventInv;
    hide CameFrom;
    hide OverdueOrigin;
    hide RequestsInv;
    hide TimersInv;
    ActivityInv(cfg, s, id);
    var log := EventsOf(s.outbox, id);
    assert EventInv(s.acts[id].hist[|log| - 1], log, |log| - 1, cfg.timeout);
    OverdueEventNamesOrigin(s.acts[id].row, log, cfg.timeout);
  }

  /**
   The flags a member sees are what the engine would accept of that member, and a
   late decline is open exactly when the log says the row was overdue out of `assigned`.
   */
  lemma PolicyAgreesWithEngine(cfg: Config, s: State, id: ActivityId, user: UserId, at: Time)
    requires Reachable(cfg, s) && id in s.acts
    ensures var row := s.acts[id].row;
            var flags := Evaluate(row, user, at);
            && (flags.canConfirm <==> Judge(row, Assisting, User(user)).Go?)
            && (flags.canDecline <==> Judge(row, NotAssisting, User(user)).Go? && !IsPast(row, at))
            && (flags.canAssign || flags.canReassign <==> Judge(row, Assigned, User(user)).Go?)
            && (flags.canComplete <==> Judge(row, Done, User(user)).Go?)
            && (row.status == Overdue ==>
                  (flags.canDecline <==>
                     CameFrom(EventsOf(s.outbox, id), Assigned) && row.assignedTo == Some(user) && !IsPast(row, at)))
  {
    hide CameFrom;
    hide Reachable;
    FlagsMatchEngine(s.acts[id].row, user, at);
    hide Judge;
    if s.acts[id].row.status == Overdue {
      OriginReadsHistory(cfg, s, id);
    }
  }

  /** On the row alone, the flags are the engine's verdicts; declining also needs the date not to be past. */
  lemma FlagsMatchEngine(row: Row, user: UserId, at: Time)
    ensures var flags := Evaluate(row, user, at);
            && (flags.canConfirm <==> Judge(row, Assisting, User(user)).Go?)
            && (flags.canDecline <==> Judge(row, NotAssisting, User(user)).Go? && !IsPast(row, at))
            && (flags.canAssign || flags.canReassign <==> Judge(row, Assigned, User(user)).Go?)
            && (flags.canComplete <==> Judge(row, Done, User(user)).Go?)
  {
    hide OverdueOrigin;
    hide IsPast;
  }
}
