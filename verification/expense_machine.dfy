/**
 The expense table under concurrent requests. A request reads the row, asks the
 policy, and later commits with a guard on the status alone; `approvals` is
 auxiliary and keeps each row as it stood when its approval committed.
 */
module ExpenseMachine {
  import opened Prelude
  import opened ExpenseModel

  /** Expenses are named by their place in the table; rows are never removed. */
  datatype Event = Event(expense: nat, eventType: EventType, version: nat, actor: UserId)

  datatype AuditEntry = AuditEntry(expense: nat, action: AuditAction, user: UserId, from: Status, to: Status)

  datatype Action =
    | Approve
    | Reject
    | Pay
    /** An edit; a field that is absent keeps its value (as do the texts). */
    | Edit(cents: Option<int>, payer: Option<int>)
    | Cancel

  datatype Request = Request(expense: nat, user: UserId, action: Action, seen: Expense, at: Time)

  datatype Table = Table(
    rows: seq<Expense>,
    outbox: seq<Event>,
    audit: seq<AuditEntry>,
    inFlight: set<Request>,
    approvals: seq<Expense>
  )

  datatype Step =
    | Create(bondId: string, requester: UserId, cents: int, payer: Option<int>)
    /** A request that read the row and passed the policy, `members` being the bond's at that time. */
    | Reads(expense: nat, user: UserId, action: Action, members: seq<UserId>, at: Time)
    | Commits(request: Request)

  predicate Allowed(row: Expense, action: Action, members: seq<UserId>, user: UserId) {
    var d := Evaluate(row.status, row.requestedBy, SelectCounterpart(members, row.requestedBy), user);
    match action
    case Approve => d.canApprove
    case Reject => d.canReject
    case Pay => d.canMarkPaid
    case Edit(_, _) => d.canEdit
    case Cancel => d.canCancel
  }

  /** Who may do what: answering is for the other member, paying for both, changing for who asked. */
  lemma AllowedIff(row: Expense, action: Action, members: seq<UserId>, user: UserId)
    ensures Allowed(row, action, members, user) <==>
              match action
              case Approve => row.status == Pending && IsAnswerer(members, row.requestedBy, user)
              case Reject => row.status == Pending && IsAnswerer(members, row.requestedBy, user)
              case Pay =>
                row.status == Approved && (user == row.requestedBy || IsAnswerer(members, row.requestedBy, user))
              case Edit(_, _) => row.status == Pending && user == row.requestedBy
              case Cancel => row.status == Pending && user == row.requestedBy
  {
    AnswererIsSelected(members, row.requestedBy, user);
    hide IsAnswerer;
    hide SelectCounterpart;
  }

  predicate Enabled(t: Table, step: Step) {
    match step
    case Create(_, _, _, _) => true
    case Reads(expense, user, action, members, _) =>
      expense < |t.rows| && t.rows[expense].deletedAt.None? && Allowed(t.rows[expense], action, members, user)
    case Commits(request) => request in t.inFlight && request.expense < |t.rows|
  }

  /** `WHERE id = :id AND status = :expected AND deleted_at IS NULL`. */
  predicate GuardPasses(row: Expense, expected: Status) {
    row.status == expected && row.deletedAt.None?
  }

  function Written(row: Expense, request: Request): Expense {
    match request.action
    case Approve => row.(status := Approved, approvedBy := Some(request.user), approvedAt := Some(request.at))
    case Reject => row.(status := Rejected)
    case Pay => row.(status := Paid, paidAt := Some(request.at))
    case Edit(cents, payer) =>
      row.(cents := if cents.Some? then cents.value else row.cents,
           payer := if payer.Some? then SplitRatios(payer).0 else row.payer,
           other := if payer.Some? then SplitRatios(payer).1 else row.other)
    case Cancel => row.(deletedAt := Some(request.at))
  }

  function NextStatus(action: Action, status: Status): Status {
    match action
    case Approve => Approved
    case Reject => Rejected
    case Pay => Paid
    case _ => status
  }

  function ActionTaken(request: Request): AuditAction {
    match request.action
    case Edit(_, _) => UpdateAction
    case Cancel => DeleteAction
    case _ => TransitionAction(request.seen.status, NextStatus(request.action, request.seen.status))
  }

  function Emitted(request: Request): seq<Event> {
    match request.action
    case Edit(_, _) => []
    case Cancel => []
    case _ =>
      var to := NextStatus(request.action, request.seen.status);
      [Event(request.expense, StatusEvent(to), AggregateVersion(to), request.user)]
  }

  function NewExpense(bondId: string, requester: UserId, cents: int, payer: Option<int>): Expense {
    Expense(bondId, requester, cents, SplitRatios(payer).0, SplitRatios(payer).1, Pending, None, None, None, None)
  }

  function Committed(t: Table, request: Request): Table
    requires request.expense < |t.rows|
  {
    var row := t.rows[request.expense];
    if !GuardPasses(row, request.seen.status) then t
    else
      var row' := Written(row, request);
      var to := NextStatus(request.action, request.seen.status);
      t.(rows := t.rows[request.expense := row'],
         outbox := t.outbox + Emitted(request),
         audit := t.audit + [AuditEntry(request.expense, ActionTaken(request), request.user, request.seen.status, to)],
         approvals := if request.action.Approve? then t.approvals + [row'] else t.approvals)
  }

  function Created(t: Table, bondId: string, requester: UserId, cents: int, payer: Option<int>): Table {
    var id := |t.rows|;
    t.(rows := t.rows + [NewExpense(bondId, requester, cents, payer)],
       outbox := t.outbox + [Event(id, StatusEvent(Pending), AggregateVersion(Pending), requester)],
       audit := t.audit + [AuditEntry(id, CreateAction, requester, Pending, Pending)])
  }

  function After(t: Table, step: Step): Table
    requires Enabled(t, step)
  {
    match step
    case Create(bondId, requester, cents, payer) => Created(t, bondId, requester, cents, payer)
    case Reads(expense, user, action, _, at) =>
      t.(inFlight := t.inFlight + {Request(expense, user, action, t.rows[expense], at)})
    case Commits(request) => Committed(t, request)
  }

  const EMPTY_TABLE := Table([], [], [], {}, [])

  predicate Runs(t: Table, steps: seq<Step>, t': Table)
    decreases |steps|
  {
    if steps == [] then t' == t
    else Enabled(t, steps[0]) && Runs(After(t, steps[0]), steps[1..], t')
  }

  ghost predicate Reachable(t: Table) {
    exists steps :: Runs(EMPTY_TABLE, steps, t)
  }

  // ---------------------------------------------------------------- what is recorded of one expense

  function EventsOf(outbox: seq<Event>, expense: nat): seq<Event> {
    if outbox == [] then []
    else
      var last := outbox[|outbox| - 1];
      var earlier := EventsOf(outbox[..|outbox| - 1], expense);
      if last.expense == expense then earlier + [last] else earlier
  }

  /** The audit entries of one expense that are status changes, as pairs of statuses and their action. */
  function ChangesOf(audit: seq<AuditEntry>, expense: nat): seq<(Status, Status, AuditAction)> {
    if audit == [] then []
    else
      var last := audit[|audit| - 1];
      var earlier := ChangesOf(audit[..|audit| - 1], expense);
      if last.expense == expense && last.from != last.to then earlier + [(last.from, last.to, last.action)] else earlier
  }

  /** The one history each status can have. */
  function Path(status: Status): seq<Status> {
    match status
    case Pending => [Pending]
    case Approved => [Pending, Approved]
    case Rejected => [Pending, Rejected]
    case Paid => [Pending, Approved, Paid]
  }

  /** The events are the path's, with its ordinals as versions. */
  predicate FollowsPath(events: seq<Event>, status: Status) {
    && |events| == |Path(status)|
    && forall i :: 0 <= i < |events| ==>
         events[i].eventType == StatusEvent(Path(status)[i]) && events[i].version == AggregateVersion(Path(status)[i])
  }

  function ChangesFor(status: Status): seq<(Status, Status, AuditAction)> {
    match status
    case Pending => []
    case Approved => [(Pending, Approved, ApproveAction)]
    case Rejected => [(Pending, Rejected, RejectAction)]
    case Paid => [(Pending, Approved, ApproveAction), (Approved, Paid, PayAction)]
  }

  predicate RowInv(row: Expense) {
    && row.payer + row.other == WHOLE
    && (row.approvedBy.Some? <==> row.status in {Approved, Paid})
    && (row.approvedAt.Some? <==> row.status in {Approved, Paid})
    && row.approvedBy != Some(row.requestedBy)
    && (row.paidAt.Some? <==> row.status == Paid)
    && (row.deletedAt.Some? ==> row.status == Pending)
  }

  /** A request in flight saw this row, in a status its action is for. */
  predicate RequestInv(t: Table, r: Request) {
    && r.expense < |t.rows|
    && r.seen.requestedBy == t.rows[r.expense].requestedBy
    && r.seen.status == (if r.action.Pay? then Approved else Pending)
    && (r.action.Approve? || r.action.Reject? ==> r.user != r.seen.requestedBy)
    && (r.action.Edit? || r.action.Cancel? ==> r.user == r.seen.requestedBy)
  }

  predicate RecordInv(t: Table, i: nat)
    requires i < |t.rows|
  {
    && RowInv(t.rows[i])
    && FollowsPath(EventsOf(t.outbox, i), t.rows[i].status)
    && ChangesOf(t.audit, i) == ChangesFor(t.rows[i].status)
  }

  ghost predicate BalanceInv(t: Table) {
    forall bondId: string, viewer: UserId ::
      Shares(t.rows, bondId, viewer) == Shares(t.approvals, bondId, viewer)
  }

  ghost predicate Inv(t: Table) {
    && (forall i :: 0 <= i < |t.rows| ==> RecordInv(t, i))
    && (forall i :: i >= |t.rows| ==> EventsOf(t.outbox, i) == [] && ChangesOf(t.audit, i) == [])
    && (forall r :: r in t.inFlight ==> RequestInv(t, r))
    && BalanceInv(t)
  }

  lemma EventsAppended(outbox: seq<Event>, event: Event, i: nat)
    ensures EventsOf(outbox + [event], i)
         == if event.expense == i then EventsOf(outbox, i) + [event] else EventsOf(outbox, i)
  {
    assert (outbox + [event])[..|outbox|] == outbox;
  }

  lemma ChangesAppended(audit: seq<AuditEntry>, e: AuditEntry, i: nat)
    ensures ChangesOf(audit + [e], i)
         == if e.expense == i && e.from != e.to then ChangesOf(audit, i) + [(e.from, e.to, e.action)]
           else ChangesOf(audit, i)
  {
    assert (audit + [e])[..|audit|] == audit;
  }

  // ---------------------------------------------------------------- creation and reading keep

  lemma CreateKeepsRecord(t: Table, bondId: string, requester: UserId, cents: int, payer: Option<int>, i: nat)
    requires i <= |t.rows| && (i < |t.rows| ==> RecordInv(t, i))
    requires i == |t.rows| ==> EventsOf(t.outbox, i) == [] && ChangesOf(t.audit, i) == []
    ensures RecordInv(Created(t, bondId, requester, cents, payer), i)
  {
    hide EventsOf;
    hide ChangesOf;
    var t' := Created(t, bondId, requester, cents, payer);
    EventsAppended(t.outbox, t'.outbox[|t.outbox|], i);
    ChangesAppended(t.audit, t'.audit[|t.audit|], i);
    NewRecord(bondId, requester, cents, payer, t'.outbox[|t.outbox|]);
    hide RowInv;
    hide FollowsPath;
    hide ChangesFor;
    hide NewExpense;
    if i == |t.rows| {
      assert [] + [t'.outbox[|t.outbox|]] == [t'.outbox[|t.outbox|]];
    }
  }

  lemma NewRecord(bondId: string, requester: UserId, cents: int, payer: Option<int>, event: Event)
    requires event.eventType == StatusEvent(Pending) && event.version == AggregateVersion(Pending)
    ensures var row := NewExpense(bondId, requester, cents, payer);
            && row.status == Pending && RowInv(row) && FollowsPath([event], Pending) && ChangesFor(Pending) == []
  {
  }

  lemma CreateKeepsInv(t: Table, bondId: string, requester: UserId, cents: int, payer: Option<int>)
    requires Inv(t)
    ensures Inv(Created(t, bondId, requester, cents, payer))
  {
    hide Shares;
    var t' := Created(t, bondId, requester, cents, payer);
    var event := t'.outbox[|t.outbox|];
    var entry := t'.audit[|t.audit|];
    forall i | 0 <= i < |t'.rows|
      ensures RecordInv(t', i)
    {
      CreateKeepsRecord(t, bondId, requester, cents, payer, i);
    }
    forall i | i >= |t'.rows|
      ensures EventsOf(t'.outbox, i) == [] && ChangesOf(t'.audit, i) == []
    {
      EventsAppended(t.outbox, event, i);
      ChangesAppended(t.audit, entry, i);
    }
    forall r | r in t'.inFlight
      ensures RequestInv(t', r)
    {
      assert RequestInv(t, r);
    }
    forall b: string, v: UserId
      ensures Shares(t'.rows, b, v) == Shares(t'.approvals, b, v)
    {
      SharesAppended(t.rows, t'.rows[|t.rows|], b, v);
    }
    hide RecordInv;
    hide RequestInv;
    hide EventsOf;
    hide ChangesOf;
  }

  lemma ReadKeepsInv(t: Table, step: Step)
    requires Inv(t) && step.Reads? && Enabled(t, step)
    ensures Inv(After(t, step))
  {
    var t' := After(t, step);
    forall i | 0 <= i < |t'.rows|
      ensures RecordInv(t', i)
    {
      assert RecordInv(t, i);
    }
  }

  // ---------------------------------------------------------------- commits keep

  /** The guard on the status alone decides as the policy did on the row it read. */
  lemma WrittenKeepsRow(row: Expense, request: Request)
    requires RowInv(row) && GuardPasses(row, request.seen.status)
    requires request.seen.requestedBy == row.requestedBy
    requires request.seen.status == (if request.action.Pay? then Approved else Pending)
    requires request.action.Approve? || request.action.Reject? ==> request.user != request.seen.requestedBy
    ensures var row' := Written(row, request);
            && RowInv(row')
            && row'.status == NextStatus(request.action, request.seen.status)
            && row'.requestedBy == row.requestedBy && row'.bondId == row.bondId
  {
  }

  /** The event of a commit is the next one on the expense's path. */
  lemma NextOnPath(events: seq<Event>, request: Request)
    requires FollowsPath(events, request.seen.status)
    requires request.seen.status == (if request.action.Pay? then Approved else Pending)
    ensures FollowsPath(events + Emitted(request), NextStatus(request.action, request.seen.status))
  {
  }

  lemma NextChange(request: Request)
    requires request.seen.status == (if request.action.Pay? then Approved else Pending)
    ensures var to := NextStatus(request.action, request.seen.status);
            ChangesFor(to) == ChangesFor(request.seen.status)
                              + if to != request.seen.status
                                then [(request.seen.status, to, ActionTaken(request))] else []
  {
  }

  lemma CommitKeepsRecord(t: Table, request: Request, i: nat)
    requires i < |t.rows| && RecordInv(t, i) && RequestInv(t, request)
    requires GuardPasses(t.rows[request.expense], request.seen.status)
    ensures RecordInv(Committed(t, request), i)
  {
    CommitAppends(t, request, i);
    if i == request.expense {
      WrittenKeepsRow(t.rows[i], request);
      NextOnPath(EventsOf(t.outbox, i), request);
      NextChange(request);
    }
    hide Written;
    hide Emitted;
    hide RowInv;
    hide FollowsPath;
    hide ChangesFor;
    hide EventsOf;
    hide ChangesOf;
    hide ActionTaken;
    hide NextStatus;
  }

  /** What a commit adds to the records of each expense. */
  lemma CommitAppends(t: Table, request: Request, i: nat)
    requires request.expense < |t.rows| && GuardPasses(t.rows[request.expense], request.seen.status)
    ensures var t' := Committed(t, request);
            var to := NextStatus(request.action, request.seen.status);
            && EventsOf(t'.outbox, i)
               == (if i == request.expense then EventsOf(t.outbox, i) + Emitted(request) else EventsOf(t.outbox, i))
            && ChangesOf(t'.audit, i)
               == (if i == request.expense && to != request.seen.status
                   then ChangesOf(t.audit, i) + [(request.seen.status, to, ActionTaken(request))]
                   else ChangesOf(t.audit, i))
  {
    var t' := Committed(t, request);
    ChangesAppended(t.audit, t'.audit[|t.audit|], i);
    if Emitted(request) != [] {
      assert Emitted(request) == [Emitted(request)[0]];
      EventsAppended(t.outbox, Emitted(request)[0], i);
    } else {
      assert t'.outbox == t.outbox;
    }
  }

  /** Only an approval changes what counts; every other commit leaves each share as it was. */
  lemma CommitKeepsShare(row: Expense, request: Request, viewer: UserId)
    requires GuardPasses(row, request.seen.status)
    requires request.seen.status == (if request.action.Pay? then Approved else Pending)
    ensures !request.action.Approve? ==> Share(Written(row, request), viewer) == Share(row, viewer)
    ensures request.action.Approve? ==> Share(row, viewer) == 0
  {
  }

  lemma CommitKeepsBalance(t: Table, request: Request, bondId: string, viewer: UserId)
    requires RequestInv(t, request) && GuardPasses(t.rows[request.expense], request.seen.status)
    requires Shares(t.rows, bondId, viewer) == Shares(t.approvals, bondId, viewer)
    ensures var t' := Committed(t, request);
            Shares(t'.rows, bondId, viewer) == Shares(t'.approvals, bondId, viewer)
  {
    var row := t.rows[request.expense];
    var row' := Written(row, request);
    SharesUpdated(t.rows, request.expense, row', bondId, viewer);
    CommitKeepsShare(row, request, viewer);
    hide Share;
    SharesAppended(t.approvals, row', bondId, viewer);
  }

  lemma CommitKeepsInv(t: Table, request: Request)
    requires Inv(t) && Enabled(t, Commits(request))
    ensures Inv(Committed(t, request))
  {
    hide RecordInv;
    hide Written;
    hide Emitted;
    assert RequestInv(t, request);
    var t' := Committed(t, request);
    if GuardPasses(t.rows[request.expense], request.seen.status) {
      forall i | 0 <= i < |t'.rows|
        ensures RecordInv(t', i)
      {
        CommitKeepsRecord(t, request, i);
      }
      forall i | i >= |t'.rows|
        ensures EventsOf(t'.outbox, i) == [] && ChangesOf(t'.audit, i) == []
      {
        CommitAppends(t, request, i);
      }
      WrittenKeepsOwner(t.rows[request.expense], request);
      forall b: string, v: UserId
        ensures Shares(t'.rows, b, v) == Shares(t'.approvals, b, v)
      {
        CommitKeepsBalance(t, request, b, v);
      }
    }
  }

  lemma WrittenKeepsOwner(row: Expense, request: Request)
    ensures Written(row, request).requestedBy == row.requestedBy
  {
  }

  lemma StepKeepsInv(t: Table, step: Step)
    requires Inv(t) && Enabled(t, step)
    ensures Inv(After(t, step))
  {
    hide Inv;
    match step
    case Create(bondId, requester, cents, payer) => CreateKeepsInv(t, bondId, requester, cents, payer);
    case Reads(_, _, _, _, _) => ReadKeepsInv(t, step);
    case Commits(request) => CommitKeepsInv(t, request);
  }

  lemma {:induction false} RunKeepsInv(t: Table, steps: seq<Step>, t': Table)
    requires Inv(t) && Runs(t, steps, t')
    ensures Inv(t')
    decreases |steps|
  {
    hide Inv;
    hide After;
    hide Enabled;
    if steps != [] {
      StepKeepsInv(t, steps[0]);
      RunKeepsInv(After(t, steps[0]), steps[1..], t');
    }
  }

  lemma ReachableInv(t: Table)
    requires Reachable(t)
    ensures Inv(t)
  {
    hide After;
    hide Enabled;
    var steps :| Runs(EMPTY_TABLE, steps, t);
    assert Inv(EMPTY_TABLE);
    RunKeepsInv(EMPTY_TABLE, steps, t);
  }

  // ---------------------------------------------------------------- theorems

  /**
   A guard on the status alone is enough: in every concurrent run an expense's lifecycle
   events and audited changes are those of the one path to its status, their versions strictly
   increase, no change falls back to the generic audit action, and it was approved, by
   someone other than the requester, exactly when it is approved or paid.
   */
  lemma StatusGuardIsEnough(t: Table, i: nat)
    requires Reachable(t) && i < |t.rows|
    ensures var row := t.rows[i];
            var events := EventsOf(t.outbox, i);
            && FollowsPath(events, row.status)
            && (forall j, k :: 0 <= j < k < |events| ==> events[j].version < events[k].version)
            && ChangesOf(t.audit, i) == ChangesFor(row.status)
            && (forall c :: c in ChangesOf(t.audit, i) ==> c.2 == TransitionAction(c.0, c.1) != StatusChangeAction)
            && (row.approvedBy.Some? <==> row.status in {Approved, Paid})
            && row.approvedBy != Some(row.requestedBy)
            && row.payer + row.other == WHOLE
  {
    ReachableInv(t);
    assert RecordInv(t, i);
  }

  /**
   The balance is fixed by approvals alone: it is the rounded sum of the shares of the
   rows as their approvals committed them, whatever was paid, rejected, edited or
   cancelled before or since.
   */
  lemma BalanceIsSumOfApprovals(t: Table, bondId: string, viewer: UserId)
    requires Reachable(t)
    ensures SummaryForBond(t.rows, bondId, viewer).saldo
         == RoundHalfAway(Shares(t.approvals, bondId, viewer), WHOLE)
    ensures forall i :: 0 <= i < |t.rows| && t.rows[i].deletedAt.Some? ==> !Counted(t.rows[i])
  {
    ReachableInv(t);
  }

  /** Once an expense has left pending, no step changes what it counts for. */
  lemma CountedRowsAreFrozen(t: Table, step: Step, i: nat)
    requires Reachable(t) && Enabled(t, step) && i < |t.rows| && t.rows[i].status != Pending
    ensures var row := t.rows[i];
            var row' := After(t, step).rows[i];
            && row'.cents == row.cents && row'.payer == row.payer && row'.other == row.other
            && row'.requestedBy == row.requestedBy && row'.deletedAt == row.deletedAt
            && row'.approvedBy == row.approvedBy
            && (row'.status == row.status || (row.status == Approved && row'.status == Paid))
  {
    hide RecordInv;
    ReachableInv(t);
    if step.Commits? {
      assert RequestInv(t, step.request);
    }
  }

  /** What the outbox tells of an expense in each status, with the versions it tells it under. */
  function Told(status: Status): seq<(EventType, nat)> {
    match status
    case Pending => [(ExpenseCreated, 1)]
    case Approved => [(ExpenseCreated, 1), (ExpenseApproved, 2)]
    case Rejected => [(ExpenseCreated, 1), (ExpenseRejected, 2)]
    case Paid => [(ExpenseCreated, 1), (ExpenseApproved, 2), (ExpensePaid, 3)]
  }

  lemma OutboxTellsLifecycle(t: Table, i: nat)
    requires Reachable(t) && i < |t.rows|
    ensures var events := EventsOf(t.outbox, i);
            && |events| == |Told(t.rows[i].status)|
            && forall k :: 0 <= k < |events| ==> (events[k].eventType, events[k].version) == Told(t.rows[i].status)[k]
  {
    ReachableInv(t);
    assert RecordInv(t, i);
  }

  /** What a commit that passes its guard records: who did what, from which status to which. */
  lemma CommitIsAudited(t: Table, request: Request)
    requires Reachable(t) && Enabled(t, Commits(request))
    requires GuardPasses(t.rows[request.expense], request.seen.status)
    ensures Committed(t, request).audit == t.audit + [
              match request.action
              case Approve => AuditEntry(request.expense, ApproveAction, request.user, Pending, Approved)
              case Reject => AuditEntry(request.expense, RejectAction, request.user, Pending, Rejected)
              case Pay => AuditEntry(request.expense, PayAction, request.user, Approved, Paid)
              case Edit(_, _) => AuditEntry(request.expense, UpdateAction, request.user, Pending, Pending)
              case Cancel => AuditEntry(request.expense, DeleteAction, request.user, Pending, Pending)]
    ensures forall e :: e in Emitted(request) ==> e.expense == request.expense && e.actor == request.user
  {
    ReachableInv(t);
    assert RequestInv(t, request);
  }

  /**
   Over a run, the commit of an approval raises the balance, before rounding, of the member
   who asked by the amount times what the payer's part exceeds the other's, lowers anyone
   else's by as much, and leaves other bonds alone; no other commit moves a balance.
   */
  lemma ApprovalMovesBalance(t: Table, request: Request, bondId: string, viewer: UserId)
    requires Reachable(t) && Enabled(t, Commits(request))
    requires GuardPasses(t.rows[request.expense], request.seen.status)
    ensures var row := t.rows[request.expense];
            Shares(Committed(t, request).rows, bondId, viewer) - Shares(t.rows, bondId, viewer)
            == if !request.action.Approve? || row.bondId != bondId then 0
               else if viewer == row.requestedBy then row.cents * (2 * row.payer - WHOLE)
               else -(row.cents * (2 * row.payer - WHOLE))
  {
    ReachableInv(t);
    assert RecordInv(t, request.expense);
    assert RequestInv(t, request);
    hide Inv;
    hide EventsOf;
    hide ChangesOf;
    hide FollowsPath;
    hide Shares;
    hide Share;
    var row := t.rows[request.expense];
    var row' := Written(row, request);
    SharesUpdated(t.rows, request.expense, row', bondId, viewer);
    CommitKeepsShare(row, request, viewer);
    if request.action.Approve? {
      ApprovalShare(row', viewer);
    }
    hide RecordInv;
    hide RequestInv;
  }

  lemma ApprovalShare(row: Expense, viewer: UserId)
    requires row.status == Approved && row.deletedAt.None? && row.payer + row.other == WHOLE
    ensures Share(row, viewer) == if viewer == row.requestedBy then row.cents * (2 * row.payer - WHOLE)
                                  else -(row.cents * (2 * row.payer - WHOLE))
  {
    assert 2 * row.payer - WHOLE == row.payer - row.other;
    Distributes(row.cents, row.payer, row.other);
  }

  // ---------------------------------------------------------------- what the status guard does not see

  lemma {:induction false} RunExtends(t: Table, steps: seq<Step>, t': Table, step: Step)
    requires Runs(t, steps, t') && Enabled(t', step)
    ensures Runs(t, steps + [step], After(t', step))
    decreases |steps|
  {
    hide Enabled;
    hide After;
    if steps == [] {
      assert (steps + [step])[1..] == [];
    } else {
      RunExtends(After(t, steps[0]), steps[1..], t', step);
      assert (steps + [step])[1..] == steps[1..] + [step];
    }
  }

  lemma StepOn(t: Table, step: Step) returns (t': Table)
    requires Reachable(t) && Enabled(t, step)
    ensures t' == After(t, step) && Reachable(t')
  {
    hide Enabled;
    hide After;
    var steps :| Runs(EMPTY_TABLE, steps, t);
    RunExtends(EMPTY_TABLE, steps, t, step);
    t' := After(t, step);
  }

  /** An edit between an approver's read and commit goes through: the amount approved is not the one seen. */
  lemma ApprovalCanMissAnEdit() returns (t: Table, request: Request)
    ensures Reachable(t) && request in t.inFlight && request.action.Approve? && request.expense < |t.rows|
    ensures GuardPasses(t.rows[request.expense], request.seen.status)
    ensures request.seen.cents == 100 && Committed(t, request).rows[request.expense].cents == 900
    ensures Committed(t, request).rows[request.expense].status == Approved
  {
    assert Runs(EMPTY_TABLE, [], EMPTY_TABLE);
    var members := ["ana", "beto"];
    assert members[1..] == ["beto"];
    var t1 := StepOn(EMPTY_TABLE, Create("bond", "ana", 100, None));
    var t2 := StepOn(t1, Reads(0, "beto", Approve, members, 1));
    var t3 := StepOn(t2, Reads(0, "ana", Edit(Some(900), None), members, 2));
    request := Request(0, "beto", Approve, t1.rows[0], 1);
    assert request in t2.inFlight;
    t := StepOn(t3, Commits(Request(0, "ana", Edit(Some(900), None), t1.rows[0], 2)));
  }
}
