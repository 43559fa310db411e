/**
 One activity under concurrency: its row, the requests and timer wake-ups that
 are in flight, the queue calls not yet made, and its jobs. A step is one atomic
 database or queue action, so an interleaving of steps is an interleaving of the
 program's requests, workers and sweeps.

 `hist` is an auxiliary variable: the contents the row had at each version. A
 request that read the row some time ago holds one of these. Wake-ups and reads
 are never forgotten, so any of them may be acted on again, arbitrarily late.
 */
module ActivityMachine {
  import opened Prelude
  import opened ActivityModel

  datatype JobKey = JobKey(kind: TimerKind, version: nat)

  /** A timer job or sweep pass that saw the row at `seenVersion` and asks for `to`. */
  datatype Intent = Intent(to: Status, seenVersion: nat, seenAt: Time)

  datatype Cause = ByTimer(intent: Intent) | ByUser(user: UserId, request: Request)

  /** A `transition()` call past its guards and before its commit. */
  datatype Read = Read(snap: Row, cause: Cause, now: Time)

  datatype Act = Act(
    row: Row,
    hist: seq<Row>,
    intents: set<Intent>,
    inFlight: set<Read>,
    unwired: set<nat>,
    ops: set<QueueOp>,
    jobs: map<JobKey, Time>,
    lossy: bool
  )

  function WantedBy(cause: Cause): Status {
    match cause
    case ByTimer(intent) => intent.to
    case ByUser(_, request) => TargetOf(request)
  }

  function ActorOf(cause: Cause): Actor {
    match cause
    case ByTimer(_) => System
    case ByUser(user, _) => User(user)
  }

  function ReasonFor(cause: Cause): Option<string> {
    match cause
    case ByTimer(_) => None
    case ByUser(_, request) => ReasonOf(request)
  }

  predicate IsDeletion(cause: Cause) {
    cause.ByUser? && cause.request.Delete?
  }

  /** The rule's column effects, with the request's own columns on top. */
  function CommitFields(read: Read, rule: Rule, timeout: int): Fields {
    var fields := BuildTransitionFields(rule.effects, read.now, ActorOf(read.cause), ReasonFor(read.cause), timeout);
    match read.cause
    case ByUser(_, AssignTo(assignee)) => fields.(assignedTo := Put(Some(assignee)))
    case ByUser(_, Delete(at)) => fields.(deletedAt := Put(Some(at)))
    case _ => fields
  }

  /** The guard `applyTransition` re-checks on the locked row. */
  predicate CasPasses(row: Row, snap: Row) {
    row.deletedAt.None? && row.status == snap.status && row.version == snap.version
  }

  /** The locked row after `applyTransition`. */
  function CommitRow(row: Row, read: Read, rule: Rule, timeout: int): Row {
    Assign(row.(status := WantedBy(read.cause), version := row.version + 1), CommitFields(read, rule, timeout))
  }

  function CommitEvent(row: Row, read: Read, rule: Rule): Event {
    Event(row.version + 1, rule.event, Some(read.snap.status), WantedBy(read.cause), ActorOf(read.cause),
          ReasonFor(read.cause), read.now, IsDeletion(read.cause))
  }

  // ---------------------------------------------------------------- birth

  /** What `create` inserts; `stampedAt` is the clock reading it used. */
  function NewRow(creator: UserId, assignee: Option<UserId>, start: Time, end: Option<Time>,
                  stampedAt: Time, timeout: int): Row
  {
    Row(ResolveInitial(assignee.Some?).0, 1, creator, assignee, Some(start), end, Some(stampedAt + timeout),
        None, None, None, None, None, None, None, None)
  }

  function NewEvent(creator: UserId, assignee: Option<UserId>, stampedAt: Time): Event {
    var (status, eventType) := ResolveInitial(assignee.Some?);
    Event(1, eventType, None, status, User(creator), None, stampedAt, false)
  }

  function NewAct(row: Row): Act {
    Act(row, [row], {}, {}, {1}, {}, map[], false)
  }

  // ---------------------------------------------------------------- steps

  datatype Step =
    /** The committer of `version` issues that version's queue calls. */
    | Wire(version: nat)
    /** The queue carries out one call. */
    | RunOp(op: QueueOp)
    /** A job whose delay has passed runs `handleTimer`. */
    | Fire(key: JobKey)
    /** A sweep pass that started at `at` selects the row. */
    | SweepSees(at: Time)
    /** `transition()` for a wake-up, having read the row at `snapVersion`. */
    | SystemReads(intent: Intent, snapVersion: nat)
    /** A member's request: its handler read `seenVersion` at `checkedAt`, `transition()` then `snapVersion`. */
    | UserReads(user: UserId, request: Request, seenVersion: nat, checkedAt: Time, snapVersion: nat)
    | Commits(read: Read)
    /** A crash between a commit and its queue calls. */
    | LoseWiring(version: nat)
    /** A queue call that failed; the producer only logs it. */
    | LoseOp(op: QueueOp)
    /** A job the queue dropped. */
    | LoseJob(key: JobKey)

  ghost predicate Enabled(a: Act, step: Step, now: Time) {
    match step
    case Wire(version) => version in a.unwired && 1 <= version <= |a.hist|
    case RunOp(op) => op in a.ops
    case Fire(key) => key in a.jobs && a.jobs[key] <= now
    case SweepSees(at) => at <= now && SqlDue(a.row, at)
    case SystemReads(intent, snapVersion) =>
      && intent in a.intents
      && intent.seenVersion <= snapVersion && 1 <= snapVersion <= |a.hist|
      && a.hist[snapVersion - 1].deletedAt.None?
      && Judge(a.hist[snapVersion - 1], intent.to, System).Go?
    case UserReads(user, request, seenVersion, checkedAt, snapVersion) =>
      && 1 <= seenVersion <= snapVersion <= |a.hist|
      && checkedAt <= now
      && HandlerAllows(a.hist[seenVersion - 1], request, user, checkedAt)
      && a.hist[snapVersion - 1].deletedAt.None?
      && Judge(a.hist[snapVersion - 1], TargetOf(request), User(user)).Go?
    case Commits(read) => read in a.inFlight
    case LoseWiring(version) => version in a.unwired
    case LoseOp(op) => op in a.ops
    case LoseJob(key) => key in a.jobs
  }

  function RanOp(jobs: map<JobKey, Time>, op: QueueOp, now: Time): map<JobKey, Time> {
    match op
    case Add(kind, version, delay) =>
      // `add` with an id the queue already holds changes nothing.
      var key := JobKey(kind, version);
      if key in jobs then jobs else jobs[key := now + delay]
    case Remove(kind, version) => jobs - {JobKey(kind, version)}
  }

  function PreviousOf(version: nat): Option<nat> {
    if version <= 1 then None else Some(version - 1)
  }

  function AfterCommit(a: Act, read: Read, timeout: int): Act {
    match Judge(read.snap, WantedBy(read.cause), ActorOf(read.cause))
    case Go(rule) =>
      if CasPasses(a.row, read.snap) then
        var row := CommitRow(a.row, read, rule, timeout);
        a.(row := row, hist := a.hist + [row], unwired := a.unwired + {row.version})
      else a
    case _ => a
  }

  ghost function After(a: Act, step: Step, now: Time, timeout: int): Act
    requires Enabled(a, step, now)
  {
    match step
    case Wire(version) =>
      a.(unwired := a.unwired - {version},
         ops := a.ops + Wired(a.hist[version - 1], PreviousOf(version), now))
    case RunOp(op) => a.(ops := a.ops - {op}, jobs := RanOp(a.jobs, op, now))
    case Fire(key) =>
      var to := HandleTimerTarget(a.row, key.kind, key.version);
      a.(jobs := a.jobs - {key},
         intents := if to.Some? then a.intents + {Intent(to.value, a.row.version, now)} else a.intents)
    case SweepSees(at) =>
      var to := DueTargetFor(a.row, at);
      a.(intents := if to.Some? then a.intents + {Intent(to.value, a.row.version, at)} else a.intents)
    case SystemReads(intent, snapVersion) =>
      a.(inFlight := a.inFlight + {Read(a.hist[snapVersion - 1], ByTimer(intent), now)})
    case UserReads(user, request, _, _, snapVersion) =>
      a.(inFlight := a.inFlight + {Read(a.hist[snapVersion - 1], ByUser(user, request), now)})
    case Commits(read) => AfterCommit(a, read, timeout)
    case LoseWiring(version) => a.(unwired := a.unwired - {version}, lossy := true)
    case LoseOp(op) => a.(ops := a.ops - {op}, lossy := true)
    case LoseJob(key) => a.(jobs := a.jobs - {key}, lossy := true)
  }

  /** The outbox rows a step writes: one for a commit that passes, none otherwise. */
  function Emitted(a: Act, step: Step): seq<Event> {
    if step.Commits? && CasPasses(a.row, step.read.snap) then
      match Judge(step.read.snap, WantedBy(step.read.cause), ActorOf(step.read.cause))
      case Go(rule) => [CommitEvent(a.row, step.read, rule)]
      case _ => []
    else []
  }

  // ---------------------------------------------------------------- replay

  /** The columns the log determines; the others are fixed at birth or not in the payload. */
  function LogColumns(row: Row): Row {
    row.(createdBy := "", assignedTo := None, scheduledStart := None, scheduledEnd := None, deletedAt := None)
  }

  function ReplayOne(row: Row, event: Event, timeout: int): Row {
    match event.from
    case None =>
      Row(event.to, 1, "", None, None, None, Some(event.occurredAt + timeout),
          None, None, None, None, None, None, None, None)
    case Some(from) =>
      match ResolveTransition(from, event.to)
      case None => row
      case Some(rule) =>
        Assign(row.(status := event.to, version := event.version),
               BuildTransitionFields(rule.effects, event.occurredAt, event.actor, event.reason, timeout))
  }

  /** The row an activity's events describe, from nothing but the events. */
  function Replay(log: seq<Event>, timeout: int): Row {
    if log == [] then
      Row(Created, 0, "", None, None, None, None, None, None, None, None, None, None, None, None)
    else
      ReplayOne(Replay(log[..|log| - 1], timeout), log[|log| - 1], timeout)
  }

  // ---------------------------------------------------------------- invariant

  /** What each status says about the columns. */
  predicate RowInv(row: Row) {
    && row.scheduledStart.Some?
    && (row.status in {Created, Assigned, Verify} ==> row.deadline.Some?)
    && (row.verifyAt.Some? ==> row.status in {Verify, Overdue})
    && (row.status == Verify ==> row.verifyAt.Some?)
    && (row.assignedTo.None? ==> row.status in {Created, Overdue, Cancelled})
    && (row.status == Created ==> row.assignedTo.None?)
    && (row.status == Overdue && row.verifyAt.Some? ==> row.assignedTo.Some?)
    && (row.deletedAt.Some? ==> row.status == Cancelled)
    && (row.status == Cancelled ==> row.cancelledBy == Some(row.createdBy) && row.cancelledAt.Some?)
    && (row.status == Done <==> row.completedAt.Some?)
    && (row.status == Assisting ==> row.confirmedAt.Some?)
    && (row.status == NotAssisting ==> row.declinedAt.Some? && row.declinedReason.Some?)
  }

  predicate SameBirth(r: Row, r': Row) {
    r.createdBy == r'.createdBy && r.scheduledStart == r'.scheduledStart && r.scheduledEnd == r'.scheduledEnd
  }

  predicate HistInv(a: Act) {
    && |a.hist| == a.row.version >= 1
    && a.hist[|a.hist| - 1] == a.row
    && forall k :: 0 <= k < |a.hist| ==>
         a.hist[k].version == k + 1 && SameBirth(a.hist[k], a.row) && RowInv(a.hist[k])
  }

  function OriginOf(from: Status): Origin {
    match from
    case Created => FromCreated
    case Verify => FromVerify
    case _ => FromAssigned
  }

  /** The moves that time makes; a member makes all the others. */
  predicate ByTime(from: Status, to: Status) {
    match from
    case Created => to == Overdue
    case Assigned => to == Overdue
    case Assisting => to == InProgress
    case InProgress => to == Verify
    case Verify => to == Overdue
    case _ => false
  }

  /** Event `k` describes version `k + 1` and follows event `k - 1`. */
  predicate EventInv(row: Row, log: seq<Event>, k: nat, timeout: int)
    requires k < |log|
  {
    var e := log[k];
    && e.version == k + 1
    && e.to == row.status
    && LogColumns(row) == Replay(log[..k + 1], timeout)
    && (e.deleted <==> row.deletedAt.Some?)
    && (if k == 0 then e.from == None && e.to in {Created, Assigned}
        else
          && e.from == Some(log[k - 1].to)
          && ResolveTransition(log[k - 1].to, e.to).Some?
          && ResolveTransition(log[k - 1].to, e.to).value.event == e.eventType
          && log[k - 1].occurredAt <= e.occurredAt)
    && (e.to == Overdue ==> e.from.Some? && OverdueOrigin(row) == OriginOf(e.from.value))
    && (e.actor.System? <==> e.from.Some? && ByTime(e.from.value, e.to))
    && (k == 0 ==> (e.eventType == if e.to == Assigned then ActivityAssigned else ActivityCreated))
  }

  predicate LogInv(a: Act, log: seq<Event>, now: Time, timeout: int) {
    && |log| == |a.hist|
    && forall k {:trigger a.hist[k]} :: 0 <= k < |log| ==>
         EventInv(a.hist[k], log, k, timeout) && log[k].occurredAt <= now
  }

  predicate IntentInv(a: Act, now: Time, i: Intent) {
    && 1 <= i.seenVersion <= |a.hist|
    && i.seenAt <= now
    && DueTargetFor(a.hist[i.seenVersion - 1], i.seenAt) == Some(i.to)
  }

  predicate ReadInv(a: Act, log: seq<Event>, now: Time, r: Read) {
    && 1 <= r.snap.version <= |a.hist|
    && a.hist[r.snap.version - 1] == r.snap
    && r.snap.deletedAt.None?
    && Judge(r.snap, WantedBy(r.cause), ActorOf(r.cause)).Go?
    && r.now <= now
    && (r.snap.version <= |log| ==> log[r.snap.version - 1].occurredAt <= r.now)
    && match r.cause
       case ByTimer(i) => IntentInv(a, r.now, i) && i.seenVersion <= r.snap.version
       case ByUser(user, request) => request.Cancel? || request.Delete? ==> user == r.snap.createdBy
  }

  predicate OpInv(a: Act, now: Time, op: QueueOp) {
    match op
    case Add(kind, version, delay) =>
      && 1 <= version <= |a.hist|
      && TimerTarget(kind, a.hist[version - 1]).Some?
      && TimerTarget(kind, a.hist[version - 1]).value <= now + delay
    case Remove(_, version) => version < a.row.version
  }

  predicate JobInv(a: Act, key: JobKey, readyAt: Time) {
    && 1 <= key.version <= |a.hist|
    && TimerTarget(key.kind, a.hist[key.version - 1]).Some?
    && TimerTarget(key.kind, a.hist[key.version - 1]).value <= readyAt
  }

  /** The statuses that only time moves on, each with the timer that does it. */
  function WaitsFor(status: Status): Option<TimerKind> {
    match status
    case Created => Some(ResponseTimeout)
    case Assigned => Some(ResponseTimeout)
    case Assisting => Some(Start)
    case InProgress => Some(End)
    case Verify => Some(VerifyTimeout)
    case _ => None
  }

  /** A job for this version and kind exists, is about to be added, or is about to be asked for. */
  ghost predicate HasWakeUp(a: Act, kind: TimerKind) {
    || a.row.version in a.unwired
    || (exists delay :: Add(kind, a.row.version, delay) in a.ops)
    || JobKey(kind, a.row.version) in a.jobs
  }

  ghost predicate NotForgotten(a: Act, now: Time) {
    WaitsFor(a.row.status).Some? ==>
      DueTargetFor(a.row, now).Some? || HasWakeUp(a, WaitsFor(a.row.status).value)
  }

  ghost predicate TimersInv(a: Act, now: Time) {
    && (forall v :: v in a.unwired ==> 1 <= v <= |a.hist|)
    && (forall op :: op in a.ops ==> OpInv(a, now, op))
    && (forall key :: key in a.jobs ==> JobInv(a, key, a.jobs[key]))
    && (!a.lossy ==> NotForgotten(a, now))
  }

  ghost predicate RequestsInv(a: Act, log: seq<Event>, now: Time) {
    && (forall i :: i in a.intents ==> IntentInv(a, now, i))
    && (forall r :: r in a.inFlight ==> ReadInv(a, log, now, r))
  }

  ghost predicate Inv(a: Act, log: seq<Event>, now: Time, timeout: int) {
    HistInv(a) && LogInv(a, log, now, timeout) && RequestsInv(a, log, now) && TimersInv(a, now)
  }

  // ---------------------------------------------------------------- birth keeps

  lemma BirthInv(creator: UserId, assignee: Option<UserId>, start: Time, end: Option<Time>,
                 stampedAt: Time, now: Time, timeout: int)
    requires stampedAt <= now
    ensures Inv(NewAct(NewRow(creator, assignee, start, end, stampedAt, timeout)),
                [NewEvent(creator, assignee, stampedAt)], now, timeout)
  {
    var log := [NewEvent(creator, assignee, stampedAt)];
    assert log[..1] == log;
    assert Replay(log[..0], timeout).version == 0;
  }

  // ---------------------------------------------------------------- time keeps

  lemma DueStaysDue(row: Row, now: Time, later: Time)
    requires now <= later && DueTargetFor(row, now).Some?
    ensures DueTargetFor(row, later) == DueTargetFor(row, now)
  {
  }

  lemma TickKeepsInv(a: Act, log: seq<Event>, now: Time, later: Time, timeout: int)
    requires Inv(a, log, now, timeout) && now <= later
    ensures Inv(a, log, later, timeout)
  {
    if DueTargetFor(a.row, now).Some? {
      DueStaysDue(a.row, now, later);
    }
  }

  // ---------------------------------------------------------------- commit keeps

  /** When the CAS passes, the locked row is the snapshot the guards were checked on. */
  lemma CasPassesOnSnapshot(a: Act, log: seq<Event>, now: Time, read: Read)
    requires HistInv(a) && ReadInv(a, log, now, read)
    requires CasPasses(a.row, read.snap)
    ensures a.row == read.snap
  {
  }

  lemma TimerKeepsRowInv(row: Row, read: Read, rule: Rule, timeout: int)
    requires RowInv(row) && row == read.snap
    requires Judge(row, WantedBy(read.cause), ActorOf(read.cause)) == Go(rule)
    requires read.cause.ByTimer?
    ensures RowInv(CommitRow(row, read, rule, timeout))
  {
  }

  lemma CancelKeepsRowInv(row: Row, read: Read, rule: Rule, timeout: int)
    requires RowInv(row) && row == read.snap
    requires Judge(row, WantedBy(read.cause), ActorOf(read.cause)) == Go(rule)
    requires read.cause.ByUser? && WantedBy(read.cause) == Cancelled && read.cause.user == row.createdBy
    ensures RowInv(CommitRow(row, read, rule, timeout))
  {
  }

  lemma MemberKeepsRowInv(row: Row, read: Read, rule: Rule, timeout: int)
    requires RowInv(row) && row == read.snap
    requires Judge(row, WantedBy(read.cause), ActorOf(read.cause)) == Go(rule)
    requires read.cause.ByUser? && WantedBy(read.cause) != Cancelled
    ensures RowInv(CommitRow(row, read, rule, timeout))
  {
  }

  lemma CommitKeepsBirth(row: Row, read: Read, rule: Rule, timeout: int)
    ensures SameBirth(CommitRow(row, read, rule, timeout), row)
  {
  }

  lemma CommitKeepsRowInv(row: Row, read: Read, rule: Rule, timeout: int)
    requires RowInv(row) && row == read.snap
    requires Judge(row, WantedBy(read.cause), ActorOf(read.cause)) == Go(rule)
    requires read.cause.ByUser? && WantedBy(read.cause) == Cancelled ==> read.cause.user == row.createdBy
    ensures RowInv(CommitRow(row, read, rule, timeout))
    ensures SameBirth(CommitRow(row, read, rule, timeout), row)
  {
    hide RowInv;
    hide Judge;
    hide CommitRow;
    CommitKeepsBirth(row, read, rule, timeout);
    if read.cause.ByTimer? {
      TimerKeepsRowInv(row, read, rule, timeout);
    } else if WantedBy(read.cause) == Cancelled {
      CancelKeepsRowInv(row, read, rule, timeout);
    } else {
      MemberKeepsRowInv(row, read, rule, timeout);
    }
  }

  lemma JudgeFollowsRule(row: Row, to: Status, actor: Actor)
    requires Judge(row, to, actor).Go?
    ensures ResolveTransition(row.status, to) == Some(Judge(row, to, actor).rule)
    ensures actor.System? <==> ByTime(row.status, to)
  {
  }

  /** The event carries all that the rule's effects need. */
  lemma CommitIsReplayed(row: Row, read: Read, rule: Rule, timeout: int)
    requires row == read.snap
    requires Judge(row, WantedBy(read.cause), ActorOf(read.cause)) == Go(rule)
    ensures LogColumns(CommitRow(row, read, rule, timeout))
         == ReplayOne(LogColumns(row), CommitEvent(row, read, rule), timeout)
  {
    hide Judge;
    hide ResolveTransition;
    hide BuildTransitionFields;
    JudgeFollowsRule(row, WantedBy(read.cause), ActorOf(read.cause));
    RulesTouchLoggedColumns(rule.effects, read.now, ActorOf(read.cause), ReasonFor(read.cause), timeout);
  }

  /** No rule by itself writes the assignee or the deletion mark. */
  lemma RulesTouchLoggedColumns(effects: Effects, now: Time, actor: Actor, reason: Option<string>, timeout: int)
    ensures BuildTransitionFields(effects, now, actor, reason, timeout).assignedTo.Absent?
    ensures BuildTransitionFields(effects, now, actor, reason, timeout).deletedAt.Absent?
  {
  }

  /** `overdueOrigin` is right about a row that a commit has just made overdue. */
  lemma CommitSetsOrigin(row: Row, read: Read, rule: Rule, timeout: int)
    requires RowInv(row) && row == read.snap
    requires Judge(row, WantedBy(read.cause), ActorOf(read.cause)) == Go(rule)
    requires WantedBy(read.cause) == Overdue
    ensures OverdueOrigin(CommitRow(row, read, rule, timeout)) == OriginOf(row.status)
  {
  }

  lemma CommitMarksDeletion(row: Row, read: Read, rule: Rule, timeout: int)
    requires row.deletedAt.None?
    ensures IsDeletion(read.cause) <==> CommitRow(row, read, rule, timeout).deletedAt.Some?
    ensures CommitRow(row, read, rule, timeout).status == WantedBy(read.cause)
    ensures CommitRow(row, read, rule, timeout).version == row.version + 1
  {
  }

  lemma CommitKeepsEventInv(row: Row, read: Read, rule: Rule, log: seq<Event>, timeout: int)
    requires RowInv(row) && row == read.snap && row.version == |log| >= 1
    requires row.deletedAt.None?
    requires Judge(row, WantedBy(read.cause), ActorOf(read.cause)) == Go(rule)
    requires EventInv(row, log, |log| - 1, timeout)
    requires log[|log| - 1].occurredAt <= read.now
    ensures EventInv(CommitRow(row, read, rule, timeout), log + [CommitEvent(row, read, rule)], |log|, timeout)
  {
    hide CommitRow;
    hide Judge;
    hide ResolveTransition;
    hide RowInv;
    hide OverdueOrigin;
    hide ReplayOne;
    hide ByTime;
    var event := CommitEvent(row, read, rule);
    var longer := log + [event];
    assert longer[..|log| + 1] == longer;
    assert longer[..|log|] == log == log[..|log|];
    assert Replay(longer, timeout) == ReplayOne(Replay(log, timeout), event, timeout);
    CommitIsReplayed(row, read, rule, timeout);
    CommitMarksDeletion(row, read, rule, timeout);
    JudgeFollowsRule(row, WantedBy(read.cause), ActorOf(read.cause));
    if event.to == Overdue {
      CommitSetsOrigin(row, read, rule, timeout);
    }
  }

  lemma EventInvOfLonger(row: Row, log: seq<Event>, event: Event, k: nat, timeout: int)
    requires k < |log| && EventInv(row, log, k, timeout)
    ensures EventInv(row, log + [event], k, timeout)
  {
    hide LogColumns;
    hide ResolveTransition;
    hide OverdueOrigin;
    hide Replay;
    assert (log + [event])[..k + 1] == log[..k + 1];
  }

  /** Appending a well-formed version and its event keeps the history and the log. */
  lemma AppendKeepsHistory(a: Act, log: seq<Event>, now: Time, timeout: int, a': Act, event: Event)
    requires HistInv(a) && LogInv(a, log, now, timeout)
    requires a'.hist == a.hist + [a'.row] && a'.row.version == a.row.version + 1
    requires RowInv(a'.row) && SameBirth(a'.row, a.row)
    requires EventInv(a'.row, log + [event], |log|, timeout) && event.occurredAt <= now
    ensures HistInv(a') && LogInv(a', log + [event], now, timeout)
  {
    hide RowInv;
    hide EventInv;
    hide SameBirth;
    var longer := log + [event];
    assert |longer| == |a'.hist|;
    forall k | 0 <= k < |longer|
      ensures EventInv(a'.hist[k], longer, k, timeout) && longer[k].occurredAt <= now
    {
      if k < |log| {
        assert a'.hist[k] == a.hist[k];
        EventInvOfLonger(a.hist[k], log, event, k, timeout);
      } else {
        assert a'.hist[k] == a'.row;
      }
    }
    forall k | 0 <= k < |a'.hist|
      ensures a'.hist[k].version == k + 1 && SameBirth(a'.hist[k], a'.row) && RowInv(a'.hist[k])
    {
      if k < |a.hist| {
        assert a'.hist[k] == a.hist[k];
        BirthIsShared(a.hist[k], a.row, a'.row);
      } else {
        BirthIsShared(a'.row, a.row, a'.row);
      }
    }
  }

  lemma BirthIsShared(r: Row, mid: Row, r': Row)
    requires SameBirth(r, mid) && SameBirth(r', mid)
    ensures SameBirth(r, r')
  {
  }

  lemma CommitKeepsHistory(a: Act, log: seq<Event>, now: Time, timeout: int, read: Read, rule: Rule)
    requires HistInv(a) && LogInv(a, log, now, timeout) && ReadInv(a, log, now, read)
    requires CasPasses(a.row, read.snap)
    requires Judge(read.snap, WantedBy(read.cause), ActorOf(read.cause)) == Go(rule)
    ensures HistInv(AfterCommit(a, read, timeout))
    ensures LogInv(AfterCommit(a, read, timeout), log + [CommitEvent(a.row, read, rule)], now, timeout)
  {
    hide EventInv;
    hide CommitRow;
    hide Judge;
    hide RowInv;
    hide IntentInv;
    CasPassesOnSnapshot(a, log, now, read);
    CancelsAreByCreator(a, log, now, read);
    assert RowInv(a.row) && EventInv(a.row, log, |log| - 1, timeout);
    CommitKeepsRowInv(a.row, read, rule, timeout);
    CommitMarksDeletion(a.row, read, rule, timeout);
    CommitKeepsEventInv(a.row, read, rule, log, timeout);
    AppendKeepsHistory(a, log, now, timeout, AfterCommit(a, read, timeout), CommitEvent(a.row, read, rule));
  }

  lemma CancelsAreByCreator(a: Act, log: seq<Event>, now: Time, read: Read)
    requires ReadInv(a, log, now, read)
    ensures read.cause.ByUser? && WantedBy(read.cause) == Cancelled ==> read.cause.user == read.snap.createdBy
  {
  }

  /** In-flight requests and wake-ups only look at versions that are already written. */
  lemma AppendKeepsRequests(a: Act, log: seq<Event>, now: Time, a': Act, log': seq<Event>)
    requires |log| == |a.hist| && RequestsInv(a, log, now)
    requires a.hist <= a'.hist && log <= log'
    requires a'.intents == a.intents && a'.inFlight == a.inFlight
    ensures RequestsInv(a', log', now)
  {
    hide Judge;
    hide DueTargetFor;
    forall r | r in a'.inFlight
      ensures ReadInv(a', log', now, r)
    {
      assert ReadInv(a, log, now, r);
    }
    forall i | i in a'.intents
      ensures IntentInv(a', now, i)
    {
      assert IntentInv(a, now, i);
    }
  }

  lemma AppendKeepsTimers(a: Act, now: Time, a': Act)
    requires TimersInv(a, now) && HistInv(a) && HistInv(a')
    requires a.hist <= a'.hist && a.row.version < a'.row.version
    requires a'.ops == a.ops && a'.jobs == a.jobs && a'.unwired == a.unwired + {a'.row.version}
    ensures TimersInv(a', now)
  {
    hide TimerTarget;
    hide DueTargetFor;
    hide RowInv;
    forall op | op in a'.ops
      ensures OpInv(a', now, op)
    {
      assert OpInv(a, now, op);
    }
    forall key | key in a'.jobs
      ensures JobInv(a', key, a'.jobs[key])
    {
      assert JobInv(a, key, a.jobs[key]);
    }
  }

  lemma CommitKeepsInv(a: Act, log: seq<Event>, now: Time, timeout: int, read: Read)
    requires Inv(a, log, now, timeout) && read in a.inFlight
    ensures Inv(AfterCommit(a, read, timeout), log + Emitted(a, Commits(read)), now, timeout)
  {
    hide EventInv;
    hide RowInv;
    hide CommitRow;
    hide Judge;
    hide IntentInv;
    hide TimersInv;
    assert ReadInv(a, log, now, read);
    var a' := AfterCommit(a, read, timeout);
    var log' := log + Emitted(a, Commits(read));
    if CasPasses(a.row, read.snap) {
      var rule := Judge(read.snap, WantedBy(read.cause), ActorOf(read.cause)).rule;
      CommitKeepsHistory(a, log, now, timeout, read, rule);
      AppendKeepsRequests(a, log, now, a', log');
      CommitMarksDeletion(a.row, read, rule, timeout);
      AppendKeepsTimers(a, now, a');
    } else {
      assert log' == log;
    }
  }

  // ---------------------------------------------------------------- every step keeps

  lemma WiredOpInv(a: Act, now: Time, version: nat, op: QueueOp)
    requires HistInv(a) && 1 <= version <= |a.hist|
    requires op in Wired(a.hist[version - 1], PreviousOf(version), now)
    ensures OpInv(a, now, op)
  {
    hide RowInv;
    var row := a.hist[version - 1];
    var timerOp :| timerOp in TimerOpsFor(row.status) && WireOp(timerOp, row, PreviousOf(version), now) == Some(op);
  }

  /** Wiring a row that waits adds its wake-up, unless the row is already due. */
  lemma WiringWakes(row: Row, previous: Option<nat>, now: Time) returns (op: QueueOp)
    requires RowInv(row) && WaitsFor(row.status).Some? && DueTargetFor(row, now).None?
    ensures op in Wired(row, previous, now)
    ensures op.Add? && op.kind == WaitsFor(row.status).value && op.version == row.version
  {
    var timerOp := EnqueueOp(WaitsFor(row.status).value);
    assert timerOp in TimerOpsFor(row.status);
    op := WireOp(timerOp, row, previous, now).value;
  }

  lemma WireKeepsTimers(a: Act, now: Time, version: nat, timeout: int)
    requires HistInv(a) && TimersInv(a, now) && Enabled(a, Wire(version), now)
    ensures TimersInv(After(a, Wire(version), now, timeout), now)
  {
    hide OpInv;
    hide JobInv;
    hide Wired;
    hide RowInv;
    hide DueTargetFor;
    var a' := After(a, Wire(version), now, timeout);
    forall op | op in a'.ops
      ensures OpInv(a', now, op)
    {
      if op in a.ops {
        OpInvOfSame(a, a', now, op);
      } else {
        WiredOpInv(a', now, version, op);
      }
    }
    forall key | key in a'.jobs
      ensures JobInv(a', key, a'.jobs[key])
    {
      JobInvOfSame(a, a', key, a.jobs[key]);
    }
    if !a.lossy && version == a.row.version && WaitsFor(a.row.status).Some? && DueTargetFor(a.row, now).None? {
      assert RowInv(a.hist[version - 1]);
      var op := WiringWakes(a.row, PreviousOf(version), now);
      assert Add(op.kind, a.row.version, op.delay) in a'.ops;
    }
  }

  lemma OpInvOfSame(a: Act, a': Act, now: Time, op: QueueOp)
    requires OpInv(a, now, op) && a'.hist == a.hist && a'.row == a.row
    ensures OpInv(a', now, op)
  {
  }

  lemma JobInvOfSame(a: Act, a': Act, key: JobKey, readyAt: Time)
    requires JobInv(a, key, readyAt) && a'.hist == a.hist
    ensures JobInv(a', key, readyAt)
  {
  }

  lemma RunOpKeepsTimers(a: Act, now: Time, op: QueueOp, timeout: int)
    requires HistInv(a) && TimersInv(a, now) && Enabled(a, RunOp(op), now)
    ensures TimersInv(After(a, RunOp(op), now, timeout), now)
  {
    hide RowInv;
    hide TimerTarget;
    hide DueTargetFor;
    var a' := After(a, RunOp(op), now, timeout);
    assert OpInv(a, now, op);
    forall other | other in a'.ops
      ensures OpInv(a', now, other)
    {
      OpInvOfSame(a, a', now, other);
    }
    if !a.lossy && WaitsFor(a.row.status).Some? && DueTargetFor(a.row, now).None? {
      RunOpKeepsWakeUp(a, now, op, timeout, WaitsFor(a.row.status).value);
    }
    hide HasWakeUp;
  }

  lemma RunOpKeepsWakeUp(a: Act, now: Time, op: QueueOp, timeout: int, kind: TimerKind)
    requires Enabled(a, RunOp(op), now) && OpInv(a, now, op) && HasWakeUp(a, kind)
    ensures HasWakeUp(After(a, RunOp(op), now, timeout), kind)
  {
    hide TimerTarget;
    var a' := After(a, RunOp(op), now, timeout);
    if delay :| Add(kind, a.row.version, delay) in a.ops {
      assert Add(kind, a.row.version, delay) in a'.ops || op == Add(kind, a.row.version, delay);
    }
  }

  /** A job that passes `handleTimer`'s checks has its anchor reached, and asks for what the sweep would. */
  lemma FireAgreesWithSweep(a: Act, now: Time, key: JobKey)
    requires HistInv(a) && TimersInv(a, now) && key in a.jobs && a.jobs[key] <= now
    requires HandleTimerTarget(a.row, key.kind, key.version).Some?
    ensures HandleTimerTarget(a.row, key.kind, key.version) == DueTargetFor(a.row, now)
    ensures SqlDue(a.row, now)
  {
    assert JobInv(a, key, a.jobs[key]);
  }

  lemma FireKeepsTimers(a: Act, now: Time, timeout: int, key: JobKey)
    requires HistInv(a) && TimersInv(a, now) && Enabled(a, Fire(key), now)
    ensures TimersInv(After(a, Fire(key), now, timeout), now)
  {
    hide OpInv;
    hide HandleTimerTarget;
    hide RowInv;
    var a' := After(a, Fire(key), now, timeout);
    forall op | op in a'.ops
      ensures OpInv(a', now, op)
    {
      OpInvOfSame(a, a', now, op);
    }
    if !a.lossy && WaitsFor(a.row.status).Some? && DueTargetFor(a.row, now).None? {
      assert JobInv(a, key, a.jobs[key]);
      assert key != JobKey(WaitsFor(a.row.status).value, a.row.version);
    }
  }

  /** Steps that leave the row, its history and the log alone. */
  lemma QuietStepKeepsHistory(a: Act, log: seq<Event>, now: Time, timeout: int, a': Act)
    requires HistInv(a) && LogInv(a, log, now, timeout)
    requires a'.hist == a.hist && a'.row == a.row
    ensures HistInv(a') && LogInv(a', log, now, timeout)
  {
    hide EventInv;
    hide RowInv;
  }

  lemma QuietStepKeepsRequests(a: Act, log: seq<Event>, now: Time, a': Act)
    requires |log| == |a.hist| && RequestsInv(a, log, now)
    requires a'.hist == a.hist
    requires forall i :: i in a'.intents ==> i in a.intents || IntentInv(a, now, i)
    requires forall r :: r in a'.inFlight ==> r in a.inFlight || ReadInv(a, log, now, r)
    ensures RequestsInv(a', log, now)
  {
    hide Judge;
    hide DueTargetFor;
    forall r | r in a'.inFlight
      ensures ReadInv(a', log, now, r)
    {
      assert ReadInv(a, log, now, r);
    }
    forall i | i in a'.intents
      ensures IntentInv(a', now, i)
    {
      assert IntentInv(a, now, i);
    }
  }

  lemma QuietStepKeepsTimers(a: Act, now: Time, a': Act)
    requires TimersInv(a, now) && a'.hist == a.hist && a'.row == a.row
    requires a'.lossy || (a'.unwired == a.unwired && a'.ops == a.ops && a'.jobs == a.jobs && a'.lossy == a.lossy)
    requires a'.unwired <= a.unwired && a'.ops <= a.ops
    requires forall key :: key in a'.jobs ==> key in a.jobs && a'.jobs[key] == a.jobs[key]
    ensures TimersInv(a', now)
  {
    hide OpInv;
    hide JobInv;
    hide DueTargetFor;
    forall op | op in a'.ops
      ensures OpInv(a', now, op)
    {
      OpInvOfSame(a, a', now, op);
    }
    forall key | key in a'.jobs
      ensures JobInv(a', key, a'.jobs[key])
    {
      JobInvOfSame(a, a', key, a.jobs[key]);
    }
  }

  lemma FireIntentInv(a: Act, now: Time, key: JobKey, to: Status)
    requires HistInv(a) && TimersInv(a, now) && key in a.jobs && a.jobs[key] <= now
    requires HandleTimerTarget(a.row, key.kind, key.version) == Some(to)
    ensures IntentInv(a, now, Intent(to, a.row.version, now))
  {
    hide HandleTimerTarget;
    FireAgreesWithSweep(a, now, key);
  }

  /** A read holds some version of the row, taken no later than its clock reading. */
  lemma NewReadInv(a: Act, log: seq<Event>, now: Time, timeout: int, read: Read)
    requires HistInv(a) && LogInv(a, log, now, timeout)
    requires 1 <= read.snap.version <= |a.hist| && read.snap == a.hist[read.snap.version - 1] && read.now == now
    requires read.snap.deletedAt.None? && Judge(read.snap, WantedBy(read.cause), ActorOf(read.cause)).Go?
    requires read.cause.ByTimer?
      ==> IntentInv(a, now, read.cause.intent) && read.cause.intent.seenVersion <= read.snap.version
    requires read.cause.ByUser? && (read.cause.request.Cancel? || read.cause.request.Delete?)
      ==> read.cause.user == read.snap.createdBy
    ensures ReadInv(a, log, now, read)
  {
    hide RowInv;
    hide Judge;
    hide EventInv;
    hide DueTargetFor;
    var k := read.snap.version - 1;
    assert a.hist[k] == read.snap;
    assert log[k].occurredAt <= now;
  }

  /** Only the creator gets past the handlers of cancel and delete. */
  lemma HandlerAllowsCreator(row: Row, request: Request, user: UserId, now: Time)
    requires HandlerAllows(row, request, user, now) && (request.Cancel? || request.Delete?)
    ensures user == row.createdBy
  {
  }

  lemma ReadKeepsRequests(a: Act, log: seq<Event>, now: Time, timeout: int, step: Step)
    requires HistInv(a) && LogInv(a, log, now, timeout) && RequestsInv(a, log, now) && Enabled(a, step, now)
    requires step.SystemReads? || step.UserReads?
    ensures RequestsInv(After(a, step, now, timeout), log, now)
  {
    hide Judge;
    hide RowInv;
    hide EventInv;
    hide HandlerAllows;
    hide IntentInv;
    var snap := a.hist[step.snapVersion - 1];
    var read := Read(snap, if step.SystemReads? then ByTimer(step.intent) else ByUser(step.user, step.request), now);
    if step.UserReads? && (step.request.Cancel? || step.request.Delete?) {
      HandlerAllowsCreator(a.hist[step.seenVersion - 1], step.request, step.user, step.checkedAt);
    }
    NewReadInv(a, log, now, timeout, read);
    QuietStepKeepsRequests(a, log, now, After(a, step, now, timeout));
  }

  lemma StepKeepsInv(a: Act, log: seq<Event>, now: Time, timeout: int, step: Step)
    requires Inv(a, log, now, timeout) && Enabled(a, step, now)
    ensures Inv(After(a, step, now, timeout), log + Emitted(a, step), now, timeout)
  {
    hide HistInv;
    hide LogInv;
    hide RequestsInv;
    hide TimersInv;
    if step.Commits? {
      CommitKeepsInv(a, log, now, timeout, step.read);
    } else {
      assert log + Emitted(a, step) == log;
      QuietStepKeepsInv(a, log, now, timeout, step);
    }
  }

  lemma QuietStepKeepsInv(a: Act, log: seq<Event>, now: Time, timeout: int, step: Step)
    requires Inv(a, log, now, timeout) && Enabled(a, step, now) && !step.Commits?
    ensures Inv(After(a, step, now, timeout), log, now, timeout)
  {
    hide EventInv;
    hide RowInv;
    hide IntentInv;
    hide ReadInv;
    hide OpInv;
    hide JobInv;
    hide Judge;
    hide HandlerAllows;
    hide Wired;
    hide HandleTimerTarget;
    hide NotForgotten;
    hide DueTargetFor;
    hide SqlDue;
    var a' := After(a, step, now, timeout);
    QuietStepKeepsHistory(a, log, now, timeout, a');
    match step
    case Wire(version) =>
      WireKeepsTimers(a, now, version, timeout);
      QuietStepKeepsRequests(a, log, now, a');
    case RunOp(op) =>
      RunOpKeepsTimers(a, now, op, timeout);
      QuietStepKeepsRequests(a, log, now, a');
    case Fire(key) =>
      FireKeepsTimers(a, now, timeout, key);
      var to := HandleTimerTarget(a.row, key.kind, key.version);
      if to.Some? {
        FireIntentInv(a, now, key, to.value);
      }
      QuietStepKeepsRequests(a, log, now, a');
    case SweepSees(at) =>
      QuietStepKeepsTimers(a, now, a');
      var to := DueTargetFor(a.row, at);
      if to.Some? {
        SweepIntentInv(a, now, at, to.value);
      }
      QuietStepKeepsRequests(a, log, now, a');
    case SystemReads(_, _) =>
      QuietStepKeepsTimers(a, now, a');
      ReadKeepsRequests(a, log, now, timeout, step);
    case UserReads(_, _, _, _, _) =>
      QuietStepKeepsTimers(a, now, a');
      ReadKeepsRequests(a, log, now, timeout, step);
    case LoseWiring(_) =>
      QuietStepKeepsTimers(a, now, a');
      QuietStepKeepsRequests(a, log, now, a');
    case LoseOp(_) =>
      QuietStepKeepsTimers(a, now, a');
      QuietStepKeepsRequests(a, log, now, a');
    case LoseJob(_) =>
      QuietStepKeepsTimers(a, now, a');
      QuietStepKeepsRequests(a, log, now, a');
  }

  lemma SweepIntentInv(a: Act, now: Time, at: Time, to: Status)
    requires HistInv(a) && at <= now && DueTargetFor(a.row, at) == Some(to)
    ensures IntentInv(a, now, Intent(to, a.row.version, at))
  {
  }
}
