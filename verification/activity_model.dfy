/**
 The pure half of the activity engine: the transition table, the guards of
 `transition()`, the column effects of a rule, the policy flags, and the rules
 that tie a status to its timer.
 */
module ActivityModel {
  import opened Prelude

  type ActivityId = string

  datatype Status =
    | Created | Assigned | Assisting | InProgress | Verify
    | Done | Overdue | NotAssisting | Cancelled

  /** The columns of `activity` that the engine reads or writes. */
  datatype Row = Row(
    status: Status,
    version: nat,
    createdBy: UserId,
    assignedTo: Option<UserId>,
    scheduledStart: Option<Time>,
    scheduledEnd: Option<Time>,
    deadline: Option<Time>,
    confirmedAt: Option<Time>,
    completedAt: Option<Time>,
    cancelledAt: Option<Time>,
    cancelledBy: Option<UserId>,
    deletedAt: Option<Time>,
    declinedAt: Option<Time>,
    declinedReason: Option<string>,
    verifyAt: Option<Time>
  )

  // ---------------------------------------------------------------- rules

  datatype RuleId = T3 | T5 | T6 | T7 | T8 | T9 | T10 | T11 | T12 | T13 | T14 | T15 | T16

  datatype RuleActor = AssigneeActor | MemberActor | SystemActor

  datatype DeadlineEffect = DeadlineUntouched | DeadlineSet | DeadlineClear

  /** A timestamp flag: `undefined`, `true` (now) or `false` (null). */
  datatype Flag = Untouched | Stamp | Clear

  datatype Effects = Effects(
    deadline: DeadlineEffect := DeadlineUntouched,
    confirmedAt: Flag := Untouched,
    cancelledAt: Flag := Untouched,
    declinedAt: Flag := Untouched,
    completedAt: Flag := Untouched,
    verifyAt: Flag := Untouched
  )

  datatype EventType =
    | ActivityCreated | ActivityAssigned | ActivityAssisting | ActivityInProgress
    | ActivityVerify | ActivityVerifyExpired | ActivityCreatedOverdue | ActivityOverdue
    | ActivityNotAssisting | ActivityDone | ActivityCancelled

  datatype Rule = Rule(
    id: RuleId,
    actors: set<RuleActor>,
    requireAssignee: bool,
    effects: Effects,
    event: EventType
  )

  const CANCEL_EFFECTS := Effects(deadline := DeadlineClear, cancelledAt := Stamp, verifyAt := Clear)

  /** The statuses a bond member may cancel from: all but the two terminal ones. */
  predicate CancelSource(from: Status) {
    !from.Done? && !from.Cancelled?
  }

  /** The keyed lookup `from -> to`; no two rules share a key. */
  function ResolveTransition(from: Status, to: Status): Option<Rule> {
    match (from, to)
    case (Created, Assigned) =>
      Some(Rule(T3, {MemberActor}, false, Effects(deadline := DeadlineSet), ActivityAssigned))
    case (Assigned, Assisting) =>
      Some(Rule(T5, {AssigneeActor}, true,
                Effects(deadline := DeadlineClear, confirmedAt := Stamp), ActivityAssisting))
    case (Assigned, NotAssisting) =>
      Some(Rule(T6, {AssigneeActor}, true,
                Effects(deadline := DeadlineClear, declinedAt := Stamp), ActivityNotAssisting))
    case (Assigned, Overdue) =>
      Some(Rule(T7, {SystemActor}, false, Effects(), ActivityOverdue))
    case (Overdue, NotAssisting) =>
      Some(Rule(T8, {AssigneeActor}, true, Effects(declinedAt := Stamp), ActivityNotAssisting))
    case (NotAssisting, Assigned) =>
      Some(Rule(T9, {MemberActor}, false,
                Effects(deadline := DeadlineSet, declinedAt := Clear, confirmedAt := Clear), ActivityAssigned))
    case (Assisting, InProgress) =>
      Some(Rule(T10, {SystemActor}, false, Effects(), ActivityInProgress))
    case (InProgress, Done) =>
      Some(Rule(T11, {MemberActor}, false, Effects(completedAt := Stamp), ActivityDone))
    case (InProgress, Verify) =>
      Some(Rule(T12, {SystemActor}, false,
                Effects(deadline := DeadlineSet, verifyAt := Stamp), ActivityVerify))
    case (Verify, Done) =>
      Some(Rule(T13, {MemberActor}, false,
                Effects(deadline := DeadlineClear, completedAt := Stamp, verifyAt := Clear), ActivityDone))
    case (Verify, Overdue) =>
      Some(Rule(T14, {SystemActor}, false, Effects(deadline := DeadlineClear), ActivityVerifyExpired))
    case (Created, Overdue) =>
      Some(Rule(T16, {SystemActor}, false, Effects(deadline := DeadlineClear), ActivityCreatedOverdue))
    case (_, Cancelled) =>
      if CancelSource(from)
      then Some(Rule(T15, {MemberActor}, false, CANCEL_EFFECTS, ActivityCancelled))
      else None
    case _ => None
  }

  /** T1 without an assignee, T2 with one. */
  function ResolveInitial(hasAssignee: bool): (Status, EventType) {
    if hasAssignee then (Assigned, ActivityAssigned) else (Created, ActivityCreated)
  }

  // ---------------------------------------------------------------- policy

  datatype Origin = FromCreated | FromAssigned | FromVerify

  function OverdueOrigin(row: Row): Origin {
    if row.assignedTo.None? then FromCreated
    else if row.verifyAt.Some? then FromVerify
    else FromAssigned
  }

  function OrElse<T>(first: Option<T>, second: Option<T>): Option<T> {
    if first.Some? then first else second
  }

  predicate Reached(anchor: Option<Time>, now: Time) {
    anchor.Some? && anchor.value <= now
  }

  predicate IsPast(row: Row, now: Time) {
    Reached(OrElse(row.scheduledEnd, row.scheduledStart), now)
  }

  datatype Decision = Decision(
    canDelete: bool,
    canCancel: bool,
    canAssign: bool,
    canReassign: bool,
    canConfirm: bool,
    canDecline: bool,
    canComplete: bool
  )

  function Evaluate(row: Row, viewer: UserId, now: Time): Decision {
    var isPast := IsPast(row, now);
    var isCreator := row.createdBy == viewer;
    var isAssignee := row.assignedTo == Some(viewer);
    Decision(
      isCreator && !isPast,
      isCreator && !isPast,
      row.status == Created,
      row.status == NotAssisting,
      isAssignee && row.status == Assigned,
      isAssignee
      && (row.status == Assigned || (row.status == Overdue && OverdueOrigin(row) == FromAssigned))
      && !isPast,
      row.status == InProgress || row.status == Verify)
  }

  // ---------------------------------------------------------------- transition()

  datatype Actor = System | User(id: UserId)

  /** What `transition()` decides from the row it read. */
  datatype Verdict = Go(rule: Rule) | NoOp | Invalid | Forbidden

  function Judge(row: Row, to: Status, actor: Actor): Verdict {
    match ResolveTransition(row.status, to)
    case None => if actor.System? then NoOp else Invalid
    case Some(rule) =>
      if actor.System? && SystemActor !in rule.actors then NoOp
      else if actor.User? && MemberActor !in rule.actors && AssigneeActor !in rule.actors then Forbidden
      else if actor.User? && rule.requireAssignee && row.assignedTo != Some(actor.id) then Forbidden
      else if rule.id == T8 && OverdueOrigin(row) != FromAssigned then Invalid
      else Go(rule)
  }

  /** One column of a partial update: absent, or a value to write. */
  datatype Patch<+T> = Absent | Put(value: T)

  function Patched<T>(column: T, patch: Patch<T>): T {
    if patch.Put? then patch.value else column
  }

  datatype Fields = Fields(
    assignedTo: Patch<Option<UserId>> := Absent,
    confirmedAt: Patch<Option<Time>> := Absent,
    cancelledAt: Patch<Option<Time>> := Absent,
    cancelledBy: Patch<Option<UserId>> := Absent,
    declinedAt: Patch<Option<Time>> := Absent,
    declinedReason: Patch<Option<string>> := Absent,
    completedAt: Patch<Option<Time>> := Absent,
    deadline: Patch<Option<Time>> := Absent,
    deletedAt: Patch<Option<Time>> := Absent,
    verifyAt: Patch<Option<Time>> := Absent
  )

  function Stamped(flag: Flag, now: Time): Patch<Option<Time>> {
    match flag
    case Untouched => Absent
    case Stamp => Put(Some(now))
    case Clear => Put(None)
  }

  /** `buildTransitionFields`: the rule's effects as concrete column values. */
  function BuildTransitionFields(
    effects: Effects, now: Time, actor: Actor, reason: Option<string>, timeout: int): Fields
  {
    Fields(
      deadline := match effects.deadline
                  case DeadlineUntouched => Absent
                  case DeadlineSet => Put(Some(now + timeout))
                  case DeadlineClear => Put(None),
      confirmedAt := Stamped(effects.confirmedAt, now),
      completedAt := if effects.completedAt == Stamp then Put(Some(now)) else Absent,
      cancelledAt := if effects.cancelledAt == Stamp then Put(Some(now)) else Absent,
      cancelledBy := if effects.cancelledAt == Stamp && actor.User? then Put(Some(actor.id)) else Absent,
      declinedAt := Stamped(effects.declinedAt, now),
      declinedReason := match effects.declinedAt
                        case Stamp => if reason.Some? then Put(reason) else Absent
                        case Clear => Put(None)
                        case Untouched => Absent,
      verifyAt := Stamped(effects.verifyAt, now))
  }

  /** `Object.assign(row, fields)`. */
  function Assign(row: Row, fields: Fields): Row {
    row.(assignedTo := Patched(row.assignedTo, fields.assignedTo),
         confirmedAt := Patched(row.confirmedAt, fields.confirmedAt),
         cancelledAt := Patched(row.cancelledAt, fields.cancelledAt),
         cancelledBy := Patched(row.cancelledBy, fields.cancelledBy),
         declinedAt := Patched(row.declinedAt, fields.declinedAt),
         declinedReason := Patched(row.declinedReason, fields.declinedReason),
         completedAt := Patched(row.completedAt, fields.completedAt),
         deadline := Patched(row.deadline, fields.deadline),
         deletedAt := Patched(row.deletedAt, fields.deletedAt),
         verifyAt := Patched(row.verifyAt, fields.verifyAt))
  }

  /** The requests members can make; each carries what its handler passes on. */
  datatype Request =
    | Confirm
    | Decline(reason: string)
    | AssignTo(assignee: UserId)
    | Complete
    | Cancel(reason: string)
    | Delete(deletedAt: Time)

  function TargetOf(request: Request): Status {
    match request
    case Confirm => Assisting
    case Decline(_) => NotAssisting
    case AssignTo(_) => Assigned
    case Complete => Done
    case Cancel(_) => Cancelled
    case Delete(_) => Cancelled
  }

  function ReasonOf(request: Request): Option<string> {
    match request
    case Decline(reason) => Some(reason)
    case Cancel(reason) => Some(reason)
    case _ => None
  }

  /** The check a request handler makes before it calls `transition()`. */
  predicate HandlerAllows(row: Row, request: Request, user: UserId, now: Time) {
    row.deletedAt.None? &&
    match request
    case Confirm => row.assignedTo == Some(user) && row.status != Assisting
    case Decline(_) => Evaluate(row, user, now).canDecline
    case AssignTo(_) => true
    case Complete => true
    case Cancel(_) => Evaluate(row, user, now).canCancel
    case Delete(at) => Evaluate(row, user, now).canDelete && at == now
  }

  // ---------------------------------------------------------------- timers

  datatype TimerKind = ResponseTimeout | Start | End | VerifyTimeout | Sweep

  /** State that must still hold for a timer of `kind`; none for an unknown kind. */
  function ExpectedSourceFor(kind: TimerKind): Option<set<Status>> {
    match kind
    case ResponseTimeout => Some({Created, Assigned})
    case Start => Some({Assisting})
    case End => Some({InProgress})
    case VerifyTimeout => Some({Verify})
    case Sweep => None
  }

  function TargetStatusFor(kind: TimerKind): Option<Status> {
    match kind
    case ResponseTimeout => Some(Overdue)
    case Start => Some(InProgress)
    case End => Some(Verify)
    case VerifyTimeout => Some(Overdue)
    case Sweep => None
  }

  /** The transition a timer job asks for, given the row it finds. */
  function HandleTimerTarget(row: Row, kind: TimerKind, version: nat): Option<Status> {
    var expected := ExpectedSourceFor(kind);
    if row.deletedAt.Some? then None
    else if row.version != version then None
    else if expected.Some? && row.status !in expected.value then None
    else TargetStatusFor(kind)
  }

  /** The system transition a row needs at `now`. */
  function DueTargetFor(row: Row, now: Time): Option<Status> {
    if (row.status == Created || row.status == Assigned) && Reached(row.deadline, now) then Some(Overdue)
    else if row.status == Assisting && Reached(row.scheduledStart, now) then Some(InProgress)
    else if row.status == InProgress && Reached(OrElse(row.scheduledEnd, row.scheduledStart), now) then Some(Verify)
    else if row.status == Verify && Reached(row.deadline, now) then Some(Overdue)
    else None
  }

  /** The WHERE clause of the sweep's query. */
  predicate SqlDue(row: Row, now: Time) {
    row.deletedAt.None? &&
    ( (row.status == Created && row.deadline.Some? && row.deadline.value <= now)
      || (row.status == Assigned && row.deadline.Some? && row.deadline.value <= now)
      || (row.status == Assisting && row.scheduledStart.Some? && row.scheduledStart.value <= now)
      || (row.status == InProgress && OrElse(row.scheduledEnd, row.scheduledStart).Some?
          && OrElse(row.scheduledEnd, row.scheduledStart).value <= now)
      || (row.status == Verify && row.deadline.Some? && row.deadline.value <= now))
  }

  datatype TimerOp = EnqueueOp(kind: TimerKind) | CancelOp(kind: TimerKind)

  const CANCEL_ALL := [CancelOp(ResponseTimeout), CancelOp(Start), CancelOp(End), CancelOp(VerifyTimeout)]

  function TimerOpsFor(to: Status): seq<TimerOp> {
    match to
    case Assigned => [EnqueueOp(ResponseTimeout), EnqueueOp(Start), EnqueueOp(End)]
    case Created => [EnqueueOp(ResponseTimeout)]
    case Assisting => [CancelOp(ResponseTimeout), EnqueueOp(Start), EnqueueOp(End)]
    case InProgress => [EnqueueOp(End)]
    case Verify => [CancelOp(End), EnqueueOp(VerifyTimeout)]
    case Overdue => [EnqueueOp(Start), EnqueueOp(End)]
    case Done => CANCEL_ALL
    case Cancelled => CANCEL_ALL
    case NotAssisting => CANCEL_ALL
  }

  function TimerTarget(kind: TimerKind, row: Row): Option<Time> {
    match kind
    case ResponseTimeout => row.deadline
    case Start => row.scheduledStart
    case End => OrElse(row.scheduledEnd, row.scheduledStart)
    case VerifyTimeout => row.deadline
    case Sweep => None
  }

  function ComputeDelay(target: Time, now: Time): nat {
    Max(0, target - now)
  }

  /** A queue call in flight: the producer's `add` or `remove`. */
  datatype QueueOp =
    | Add(kind: TimerKind, version: nat, delay: nat)
    | Remove(kind: TimerKind, version: nat)

  /**
   The queue call, if any, that one timer op turns into. `previous` is the version
   before the transition, absent on create.
   */
  function WireOp(op: TimerOp, row: Row, previous: Option<nat>, now: Time): Option<QueueOp> {
    match op
    case CancelOp(kind) => if previous.Some? then Some(Remove(kind, previous.value)) else None
    case EnqueueOp(kind) =>
      var target := TimerTarget(kind, row);
      if target.None? then None
      else if kind == Start && target.value <= now then None
      else Some(Add(kind, row.version, ComputeDelay(target.value, now)))
  }

  function Wired(row: Row, previous: Option<nat>, now: Time): set<QueueOp> {
    set op | op in TimerOpsFor(row.status) && WireOp(op, row, previous, now).Some?
      :: WireOp(op, row, previous, now).value
  }

  // ---------------------------------------------------------------- outbox

  /** One outbox row of an activity; `from` is absent for the creation event. */
  datatype Event = Event(
    version: nat,
    eventType: EventType,
    from: Option<Status>,
    to: Status,
    actor: Actor,
    reason: Option<string>,
    occurredAt: Time,
    deleted: bool
  )
}
