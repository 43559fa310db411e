/** `ExpensesService` over its tables, each write a guarded update with its audit entry and event. */
module ExpenseStore {
  import opened Prelude
  import opened ExpenseModel
  import opened ExpenseMachine

  datatype Outcome = Applied | NotFound | Denied | Conflict

  class ExpensesService {
    var rows: seq<Expense>
    var outbox: seq<Event>
    var audit: seq<AuditEntry>
    ghost var approvals: seq<Expense>

    ghost function State(): Table
      reads this
    {
      Table(rows, outbox, audit, {}, approvals)
    }

    constructor ()
      ensures State() == EMPTY_TABLE
    {
      rows, outbox, audit, approvals := [], [], [], [];
    }

    method Create(bondId: string, requester: UserId, cents: int, payer: Option<int>) returns (id: nat)
      modifies this
      ensures State() == Created(old(State()), bondId, requester, cents, payer)
      ensures id == |old(rows)|
      ensures rows[id].payer == (if payer.Some? then payer.value else 5000)
      ensures rows[id].other == 10000 - rows[id].payer
      ensures rows[id].bondId == bondId && rows[id].requestedBy == requester && rows[id].cents == cents
      ensures rows[id].status == Pending
    {
      id := |rows|;
      var (payerPart, otherPart) := SplitRatios(payer);
      rows := rows + [Expense(bondId, requester, cents, payerPart, otherPart, Pending, None, None, None, None)];
      audit := audit + [AuditEntry(id, CreateAction, requester, Pending, Pending)];
      outbox := outbox + [Event(id, ExpenseCreated, AggregateVersion(Pending), requester)];
    }

    /** The compare-and-swap every write goes through. */
    method UpdateGuarded(id: nat, expected: Status, request: Request) returns (affected: bool)
      requires id < |rows| && request.expense == id
      modifies this`rows
      ensures affected <==> GuardPasses(old(rows)[id], expected)
      ensures rows == if affected then old(rows)[id := Written(old(rows)[id], request)] else old(rows)
    {
      var row := rows[id];
      if row.status != expected || row.deletedAt.Some? {
        return false;
      }
      match request.action {
        case Approve =>
          row := row.(status := Approved, approvedBy := Some(request.user), approvedAt := Some(request.at));
        case Reject => row := row.(status := Rejected);
        case Pay => row := row.(status := Paid, paidAt := Some(request.at));
        case Edit(cents, payer) =>
          if cents.Some? {
            row := row.(cents := cents.value);
          }
          if payer.Some? {
            var (payerPart, otherPart) := SplitRatios(payer);
            row := row.(payer := payerPart, other := otherPart);
          }
        case Cancel => row := row.(deletedAt := Some(request.at));
      }
      rows := rows[id := row];
      affected := true;
    }

    /** The transaction of a request that passed the policy earlier, on the row it saw then. */
    method Commit(request: Request) returns (outcome: Outcome)
      requires request.expense < |rows|
      modifies this
      ensures State() == Committed(old(State()), request)
      ensures outcome == if GuardPasses(old(rows)[request.expense], request.seen.status) then Applied else Conflict
      ensures |audit| == |old(audit)| + if outcome.Applied? then 1 else 0
    {
      var affected := UpdateGuarded(request.expense, request.seen.status, request);
      if !affected {
        return Conflict;
      }
      var from := request.seen.status;
      var to := NextStatus(request.action, from);
      audit := audit + [AuditEntry(request.expense, ActionTaken(request), request.user, from, to)];
      outbox := outbox + Emitted(request);
      if request.action.Approve? {
        approvals := approvals + [rows[request.expense]];
      }
      outcome := Applied;
    }

    /** A whole request with nothing racing it: load, ask the policy, commit. */
    method Act(id: nat, user: UserId, action: Action, members: seq<UserId>, at: Time) returns (outcome: Outcome)
      modifies this
      ensures outcome == if id >= |old(rows)| || old(rows)[id].deletedAt.Some? then NotFound
                         else if Allowed(old(rows)[id], action, members, user) then Applied else Denied
      ensures outcome.Applied? ==>
                State() == Committed(old(State()), Request(id, user, action, old(rows)[id], at))
      ensures !outcome.Applied? ==> State() == old(State())
    {
      if id >= |rows| || rows[id].deletedAt.Some? {
        return NotFound;
      }
      if !Allowed(rows[id], action, members, user) {
        return Denied;
      }
      outcome := Commit(Request(id, user, action, rows[id], at));
    }
  }
}
