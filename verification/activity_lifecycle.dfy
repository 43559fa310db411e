/**
 The life cycle written out by status: which moves there are and who makes them, what each
 entry writes and announces, when a timer is set, cancelled or obeyed, and what members may
 ask for. The rules, their effects and the timer tables come to this and no more.
 */
module ActivityLifecycle {
  import opened Prelude
  import opened ActivityModel
  import opened ActivityMachine
  import opened ActivityRuns

  // ---------------------------------------------------------------- moves

  /** The moves members make. */
  predicate ByMember(from: Status, to: Status) {
    match to
    case Assigned => from == Created || from == NotAssisting
    case Assisting => from == Assigned
    case NotAssisting => from == Assigned || from == Overdue
    case Done => from == InProgress || from == Verify
    case Cancelled => from != Done && from != Cancelled
    case _ => false
  }

  /** There are no moves but the members' and those of time. */
  lemma RulesAreTheLifecycle(from: Status, to: Status)
    ensures ResolveTransition(from, to).Some? <==> ByMember(from, to) || ByTime(from, to)
    ensures !(ByMember(from, to) && ByTime(from, to))
  {
  }

  /**
   What `transition()` answers. The system is obeyed in its own moves and ignored in any
   other. A member is refused a move there is not, then one of time's, then accepting or
   declining for somebody else, then declining late what was not overdue out of `assigned`.
   */
  lemma VerdictIsTable(row: Row, to: Status, actor: Actor)
    ensures actor.System? ==>
              if ByTime(row.status, to) then Judge(row, to, actor).Go? else Judge(row, to, actor).NoOp?
    ensures actor.User? ==>
              var mine := row.assignedTo == Some(actor.id);
              var verdict := Judge(row, to, actor);
              if !ByMember(row.status, to) && !ByTime(row.status, to) then verdict == Invalid
              else if ByTime(row.status, to) then verdict == Forbidden
              else if (to == Assisting || to == NotAssisting) && !mine then verdict == Forbidden
              else if to == NotAssisting && row.status == Overdue && row.verifyAt.Some? then verdict == Invalid
              else verdict.Go?
  {
  }

  // ---------------------------------------------------------------- what an entry writes

  function EventFor(from: Option<Status>, to: Status): EventType {
    match to
    case Created => ActivityCreated
    case Assigned => ActivityAssigned
    case Assisting => ActivityAssisting
    case NotAssisting => ActivityNotAssisting
    case InProgress => ActivityInProgress
    case Verify => ActivityVerify
    case Done => ActivityDone
    case Cancelled => ActivityCancelled
    case Overdue =>
      if from == Some(Created) then ActivityCreatedOverdue
      else if from == Some(Verify) then ActivityVerifyExpired
      else ActivityOverdue
  }

  /** A row after it entered `to` at `at`: the columns the entry stamps, sets or clears. */
  function Entered(row: Row, to: Status, at: Time, actor: Actor, reason: Option<string>, timeout: int): Row {
    var moved := row.(status := to, version := row.version + 1);
    match to
    case Created => moved
    case Assigned =>
      if row.status == NotAssisting
      then moved.(deadline := Some(at + timeout), declinedAt := None, declinedReason := None, confirmedAt := None)
      else moved.(deadline := Some(at + timeout))
    case Assisting => moved.(deadline := None, confirmedAt := Some(at))
    case NotAssisting =>
      var declined := moved.(declinedAt := Some(at),
                             declinedReason := if reason.Some? then reason else row.declinedReason);
      if row.status == Assigned then declined.(deadline := None) else declined
    case InProgress => moved
    case Verify => moved.(deadline := Some(at + timeout), verifyAt := Some(at))
    case Done =>
      if row.status == Verify then moved.(completedAt := Some(at), deadline := None, verifyAt := None)
      else moved.(completedAt := Some(at))
    case Overdue => if row.status == Assigned then moved else moved.(deadline := None)
    case Cancelled =>
      moved.(cancelledAt := Some(at), cancelledBy := if actor.User? then Some(actor.id) else row.cancelledBy,
             deadline := None, verifyAt := None)
  }

  /** A commit writes what the entry does, and on top of it only an assignee or a deletion mark. */
  lemma CommitWritesEntry(row: Row, read: Read, rule: Rule, timeout: int)
    requires row == read.snap
    requires Judge(row, WantedBy(read.cause), ActorOf(read.cause)) == Go(rule)
    ensures var cause := read.cause;
            var entered := Entered(row, WantedBy(cause), read.now, ActorOf(cause), ReasonFor(cause), timeout);
            CommitRow(row, read, rule, timeout)
            == entered.(
                 assignedTo := if cause.ByUser? && cause.request.AssignTo? then Some(cause.request.assignee)
                               else row.assignedTo,
                 deletedAt := if cause.ByUser? && cause.request.Delete? then Some(cause.request.deletedAt)
                              else row.deletedAt)
  {
    var to := WantedBy(read.cause);
    var actor := ActorOf(read.cause);
    JudgeFollowsRule(row, to, actor);
    RuleWritesEntry(row, to, read.now, actor, ReasonFor(read.cause), timeout);
    hide ResolveTransition;
    hide Judge;
    hide Entered;
    hide BuildTransitionFields;
    RulesTouchLoggedColumns(rule.effects, read.now, actor, ReasonFor(read.cause), timeout);
  }

  lemma RuleWritesEntry(row: Row, to: Status, at: Time, actor: Actor, reason: Option<string>, timeout: int)
    requires ResolveTransition(row.status, to).Some?
    ensures var rule := ResolveTransition(row.status, to).value;
            Assign(row.(status := to, version := row.version + 1),
                   BuildTransitionFields(rule.effects, at, actor, reason, timeout))
            == Entered(row, to, at, actor, reason, timeout)
  {
  }

  /** And the event it emits names the entry, its maker, its reason and its instant. */
  lemma CommitTellsEntry(row: Row, read: Read, rule: Rule)
    requires row == read.snap
    requires Judge(row, WantedBy(read.cause), ActorOf(read.cause)) == Go(rule)
    ensures var e := CommitEvent(row, read, rule);
            && e.eventType == EventFor(Some(row.status), WantedBy(read.cause))
            && e.from == Some(row.status) && e.to == WantedBy(read.cause)
            && e.version == row.version + 1 && e.occurredAt == read.now
            && (e.actor == if read.cause.ByUser? then User(read.cause.user) else System)
            && (e.deleted <==> read.cause.ByUser? && read.cause.request.Delete?)
            && (e.reason == match read.cause
                            case ByTimer(_) => None
                            case ByUser(_, Decline(reason)) => Some(reason)
                            case ByUser(_, Cancel(reason)) => Some(reason)
                            case _ => None)
  {
    RuleTellsEntry(row.status, WantedBy(read.cause));
    JudgeFollowsRule(row, WantedBy(read.cause), ActorOf(read.cause));
    hide ResolveTransition;
    hide Judge;
    hide EventFor;
  }

  lemma RuleTellsEntry(from: Status, to: Status)
    requires ResolveTransition(from, to).Some?
    ensures ResolveTransition(from, to).value.event == EventFor(Some(from), to)
  {
  }

  // ---------------------------------------------------------------- the log of a reachable activity

  /** One event of a log, against the versions before and after it. */
  predicate TellsEntry(e: Event, before: Option<Row>, after: Row, timeout: int) {
    && e.eventType == EventFor(e.from, e.to)
    && e.to == after.status
    && match e.from
       case None => before.None? && (e.to == Created || e.to == Assigned) && e.actor.User?
                    && after.deadline == Some(e.occurredAt + timeout)
       case Some(from) =>
         && before.Some? && before.value.status == from
         && (if e.actor.System? then ByTime(from, e.to) else ByMember(from, e.to))
         && LogColumns(after) == LogColumns(Entered(before.value, e.to, e.occurredAt, e.actor, e.reason, timeout))
  }

  /** `before` differs from what the log knows of it only in columns that no entry reads or writes. */
  lemma EnteredOfLogColumns(row: Row, e: Event, timeout: int)
    requires e.from == Some(row.status) && ResolveTransition(row.status, e.to).Some? && e.version == row.version + 1
    ensures ReplayOne(LogColumns(row), e, timeout)
         == LogColumns(Entered(row, e.to, e.occurredAt, e.actor, e.reason, timeout))
  {
    hide Entered;
    hide ResolveTransition;
    hide BuildTransitionFields;
    hide Assign;
    RuleWritesEntry(LogColumns(row), e.to, e.occurredAt, e.actor, e.reason, timeout);
    EnteredKeepsRest(row, e.to, e.occurredAt, e.actor, e.reason, timeout);
  }

  lemma EnteredKeepsRest(row: Row, to: Status, at: Time, actor: Actor, reason: Option<string>, timeout: int)
    ensures LogColumns(Entered(row, to, at, actor, reason, timeout))
         == Entered(LogColumns(row), to, at, actor, reason, timeout)
  {
  }

  lemma EventTellsEntry(a: Act, log: seq<Event>, now: Time, timeout: int, k: nat)
    requires HistInv(a) && LogInv(a, log, now, timeout) && k < |log|
    ensures TellsEntry(log[k], if k == 0 then None else Some(a.hist[k - 1]), a.hist[k], timeout)
  {
    hide Entered;
    hide EventFor;
    hide OverdueOrigin;
    hide RowInv;
    hide SameBirth;
    assert EventInv(a.hist[k], log, k, timeout);
    var e := log[k];
    assert log[..k + 1][..k] == log[..k];
    assert Replay(log[..k + 1], timeout) == ReplayOne(Replay(log[..k], timeout), e, timeout);
    if k == 0 {
      hide Replay;
      FirstEventTells(e);
    } else {
      assert EventInv(a.hist[k - 1], log, k - 1, timeout);
      assert LogColumns(a.hist[k - 1]) == Replay(log[..k], timeout);
      hide Replay;
      hide ReplayOne;
      RuleTellsEntry(log[k - 1].to, e.to);
      RulesAreTheLifecycle(log[k - 1].to, e.to);
      hide ResolveTransition;
      hide ByTime;
      hide ByMember;
      EnteredOfLogColumns(a.hist[k - 1], e, timeout);
      hide LogColumns;
    }
  }

  lemma FirstEventTells(e: Event)
    requires e.to == Created || e.to == Assigned
    requires e.eventType == if e.to == Assigned then ActivityAssigned else ActivityCreated
    ensures e.eventType == EventFor(e.from, e.to)
  {
  }

  /**
   In every reachable state each event of an activity's log has the type its statuses call
   for, was made by whom the move belongs to, and took the version before it to the version
   after it by just the columns its entry stamps, sets or clears.
   */
  lemma OutboxTellsLifecycle(cfg: Config, s: State, id: ActivityId, k: nat)
    requires Reachable(cfg, s) && id in s.acts && k < |EventsOf(s.outbox, id)|
    ensures var a := s.acts[id];
            && |a.hist| == |EventsOf(s.outbox, id)| == a.row.version && a.hist[|a.hist| - 1] == a.row
            && TellsEntry(EventsOf(s.outbox, id)[k], if k == 0 then None else Some(a.hist[k - 1]), a.hist[k],
                          cfg.timeout)
  {
    hide TellsEntry;
    hide Reachable;
    hide EventInv;
    hide RequestsInv;
    hide TimersInv;
    ActivityInv(cfg, s, id);
    EventTellsEntry(s.acts[id], EventsOf(s.outbox, id), s.now, cfg.timeout, k);
  }

  /** The names the events go by in the outbox, which is what subscriptions list. */
  function EventName(eventType: EventType): string {
    match eventType
    case ActivityCreated => "activity.created"
    case ActivityAssigned => "activity.assigned"
    case ActivityAssisting => "activity.assisting"
    case ActivityInProgress => "activity.in_progress"
    case ActivityVerify => "activity.verify"
    case ActivityVerifyExpired => "activity.verify_expired"
    case ActivityCreatedOverdue => "activity.created_overdue"
    case ActivityOverdue => "activity.overdue"
    case ActivityNotAssisting => "activity.not_assisting"
    case ActivityDone => "activity.done"
    case ActivityCancelled => "activity.cancelled"
  }

  /** No two events share a name, and none goes by a subscription's catch-all names. */
  lemma EventNamesAreDistinct(a: EventType, b: EventType)
    ensures EventName(a) == EventName(b) ==> a == b
    ensures EventName(a) != "activity.state_changed" && EventName(a) != "*"
  {
    var (s, t) := (EventName(a), EventName(b));
    if s == t && |s| > 13 {
      assert s[9] == t[9] && s[11] == t[11] && s[12] == t[12] && s[13] == t[13];
    }
  }

  // ---------------------------------------------------------------- requests

  /** The activity is over: past its end when it has one, past its start when it has not. */
  predicate Over(row: Row, now: Time) {
    if row.scheduledEnd.Some? then row.scheduledEnd.value <= now
    else row.scheduledStart.Some? && row.scheduledStart.value <= now
  }

  /** What members may ask of a row, by its columns. */
  predicate MayAsk(row: Row, request: Request, user: UserId, now: Time) {
    && row.deletedAt.None?
    && match request
       case Confirm => row.status == Assigned && row.assignedTo == Some(user)
       case Decline(_) =>
         && row.assignedTo == Some(user) && !Over(row, now)
         && (row.status == Assigned || (row.status == Overdue && row.verifyAt.None?))
       case AssignTo(_) => row.status == Created || row.status == NotAssisting
       case Complete => row.status == InProgress || row.status == Verify
       case Cancel(_) => row.createdBy == user && !Over(row, now) && row.status != Done && row.status != Cancelled
       case Delete(at) =>
         row.createdBy == user && !Over(row, now) && row.status != Done && row.status != Cancelled && at == now
  }

  /** The handler's check and the engine's verdict together allow exactly that. */
  lemma RequestIsAcceptedIff(row: Row, request: Request, user: UserId, now: Time)
    ensures HandlerAllows(row, request, user, now) && Judge(row, TargetOf(request), User(user)).Go?
       <==> MayAsk(row, request, user, now)
    ensures IsPast(row, now) <==> Over(row, now)
  {
  }

  /** Where an overdue row came from, by its columns. */
  lemma OriginByColumns(row: Row)
    ensures OverdueOrigin(row) == FromCreated <==> row.assignedTo.None?
    ensures OverdueOrigin(row) == FromVerify <==> row.assignedTo.Some? && row.verifyAt.Some?
    ensures OverdueOrigin(row) == FromAssigned <==> row.assignedTo.Some? && row.verifyAt.None?
  {
  }

  /** The flags a viewer is shown. */
  lemma FlagsByStatus(row: Row, viewer: UserId, now: Time)
    ensures var flags := Evaluate(row, viewer, now);
            && (flags.canCancel <==> row.createdBy == viewer && !Over(row, now))
            && (flags.canDelete <==> row.createdBy == viewer && !Over(row, now))
            && (flags.canAssign <==> row.status == Created)
            && (flags.canReassign <==> row.status == NotAssisting)
            && (flags.canComplete <==> row.status == InProgress || row.status == Verify)
            && (flags.canConfirm <==> row.status == Assigned && row.assignedTo == Some(viewer))
            && (flags.canDecline <==>
                  && row.assignedTo == Some(viewer) && !Over(row, now)
                  && (row.status == Assigned || (row.status == Overdue && row.verifyAt.None?)))
  {
  }

  // ---------------------------------------------------------------- timers

  /** When a timer of a kind is to go off. */
  function GoesOffAt(kind: TimerKind, row: Row): Option<Time> {
    match kind
    case ResponseTimeout => row.deadline
    case VerifyTimeout => row.deadline
    case Start => row.scheduledStart
    case End => if row.scheduledEnd.Some? then row.scheduledEnd else row.scheduledStart
    case Sweep => None
  }

  predicate SetOn(kind: TimerKind, status: Status) {
    match kind
    case ResponseTimeout => status == Created || status == Assigned
    case Start => status == Assigned || status == Assisting || status == Overdue
    case End => status == Assigned || status == Assisting || status == Overdue || status == InProgress
    case VerifyTimeout => status == Verify
    case Sweep => false
  }

  predicate CancelledOn(kind: TimerKind, status: Status) {
    match kind
    case ResponseTimeout => status in {Assisting, Done, Cancelled, NotAssisting}
    case Start => status in {Done, Cancelled, NotAssisting}
    case End => status in {Verify, Done, Cancelled, NotAssisting}
    case VerifyTimeout => status in {Done, Cancelled, NotAssisting}
    case Sweep => false
  }

  /**
   The queue calls of an entry: a timer for each kind the status calls for that has an
   instant, to go off then, or at once if that is past, but for a start already past; and
   the cancellation of the previous version's timers that the status ends.
   */
  lemma WiredAreTheTimers(row: Row, previous: Option<nat>, now: Time, kind: TimerKind, version: nat, delay: nat)
    ensures Add(kind, version, delay) in Wired(row, previous, now) <==>
              && version == row.version && SetOn(kind, row.status) && GoesOffAt(kind, row).Some?
              && !(kind == Start && GoesOffAt(kind, row).value <= now)
              && now + delay == Max(now, GoesOffAt(kind, row).value)
    ensures Remove(kind, version) in Wired(row, previous, now) <==>
              previous == Some(version) && CancelledOn(kind, row.status)
  {
    var ops := TimerOpsFor(row.status);
    assert EnqueueOp(kind) in ops <==> SetOn(kind, row.status);
    assert CancelOp(kind) in ops <==> CancelledOn(kind, row.status);
    hide TimerOpsFor;
    hide SetOn;
    hide CancelledOn;
    assert TimerTarget(kind, row) == GoesOffAt(kind, row);
    hide TimerTarget;
    hide GoesOffAt;
    var enqueued := WireOp(EnqueueOp(kind), row, previous, now);
    var cancelled := WireOp(CancelOp(kind), row, previous, now);
    assert Add(kind, version, delay) in Wired(row, previous, now) <==>
             EnqueueOp(kind) in ops && enqueued == Some(Add(kind, version, delay));
    assert Remove(kind, version) in Wired(row, previous, now) <==>
             CancelOp(kind) in ops && cancelled == Some(Remove(kind, version));
  }

  /** A job is obeyed exactly on the row and version it was set for, in the status it was set to end. */
  lemma TimerIsObeyedIff(row: Row, kind: TimerKind, version: nat, to: Status)
    ensures HandleTimerTarget(row, kind, version) == Some(to) <==>
              && row.deletedAt.None? && row.version == version && ByTime(row.status, to)
              && match kind
                 case ResponseTimeout => row.status == Created || row.status == Assigned
                 case Start => row.status == Assisting
                 case End => row.status == InProgress
                 case VerifyTimeout => row.status == Verify
                 case Sweep => false
  {
  }
}
