/** Expenses: who may do what, what a transition records, and the signed balance. */
module ExpenseModel {
  import opened Prelude

  datatype Status = Pending | Approved | Rejected | Paid

  /** `cents` is the amount in cents, the ratios are in hundredths of a percent. */
  datatype Expense = Expense(
    bondId: string,
    requestedBy: UserId,
    cents: int,
    payer: int,
    other: int,
    status: Status,
    approvedBy: Option<UserId>,
    approvedAt: Option<Time>,
    paidAt: Option<Time>,
    deletedAt: Option<Time>
  )

  const DEFAULT_SPLIT := 5000
  const WHOLE := 10000

  /** `splitRatios`: the other part is always the complement. */
  function SplitRatios(payer: Option<int>): (int, int) {
    var ratio := if payer.Some? then payer.value else DEFAULT_SPLIT;
    (ratio, WHOLE - ratio)
  }

  /** The first active member who is not the requester. */
  function SelectCounterpart(members: seq<UserId>, requester: UserId): (c: Option<UserId>)
    ensures c.Some? ==> c.value in members && c.value != requester
    ensures c.None? <==> forall m :: m in members ==> m == requester
  {
    if members == [] then None
    else
      assert members == [members[0]] + members[1..];
      if members[0] != requester then Some(members[0])
      else SelectCounterpart(members[1..], requester)
  }

  /** It is the first: whoever is not the requester and has only the requester before. */
  lemma {:induction false} CounterpartIsFirst(members: seq<UserId>, requester: UserId, k: nat)
    requires k < |members| && members[k] != requester && forall j :: 0 <= j < k ==> members[j] == requester
    ensures SelectCounterpart(members, requester) == Some(members[k])
  {
    if k > 0 {
      CounterpartIsFirst(members[1..], requester, k - 1);
    }
  }

  /** The one member who may answer an expense: the first who did not ask for it. */
  predicate IsAnswerer(members: seq<UserId>, requester: UserId, user: UserId) {
    exists k :: 0 <= k < |members| && members[k] == user && user != requester
                && forall j :: 0 <= j < k ==> members[j] == requester
  }

  lemma {:induction false} AnswererIsSelected(members: seq<UserId>, requester: UserId, user: UserId)
    ensures SelectCounterpart(members, requester) == Some(user) <==> IsAnswerer(members, requester, user)
  {
    if k :| 0 <= k < |members| && members[k] == user && user != requester
            && forall j :: 0 <= j < k ==> members[j] == requester
    {
      CounterpartIsFirst(members, requester, k);
    }
    if SelectCounterpart(members, requester) == Some(user) {
      var k := FirstOther(members, requester);
      CounterpartIsFirst(members, requester, k);
    }
  }

  lemma {:induction false} FirstOther(members: seq<UserId>, requester: UserId) returns (k: nat)
    requires exists m :: m in members && m != requester
    ensures k < |members| && members[k] != requester && forall j :: 0 <= j < k ==> members[j] == requester
  {
    if members[0] != requester {
      k := 0;
    } else {
      assert members == [members[0]] + members[1..];
      var rest := FirstOther(members[1..], requester);
      k := rest + 1;
    }
  }

  datatype Decision = Decision(canApprove: bool, canReject: bool, canMarkPaid: bool, canEdit: bool, canCancel: bool)

  function Evaluate(status: Status, requestedBy: UserId, counterpart: Option<UserId>, viewer: UserId): Decision {
    var isRequester := requestedBy == viewer;
    var isCounterpart := counterpart == Some(viewer);
    Decision(
      isCounterpart && status == Pending,
      isCounterpart && status == Pending,
      (isRequester || isCounterpart) && status == Approved,
      isRequester && status == Pending,
      isRequester && status == Pending)
  }

  datatype EventType = ExpenseCreated | ExpenseApproved | ExpenseRejected | ExpensePaid

  function StatusEvent(status: Status): EventType {
    match status
    case Pending => ExpenseCreated
    case Approved => ExpenseApproved
    case Rejected => ExpenseRejected
    case Paid => ExpensePaid
  }

  /** The ordinal of the life cycle, used as the outbox version. */
  function AggregateVersion(status: Status): nat {
    match status
    case Pending => 1
    case Approved => 2
    case Rejected => 2
    case Paid => 3
  }

  datatype AuditAction = CreateAction | UpdateAction | StatusChangeAction | ApproveAction | RejectAction
                       | PayAction | DeleteAction

  /** The audit action of a status change; `StatusChangeAction` is the fallback. */
  function TransitionAction(from: Status, to: Status): AuditAction {
    match (from, to)
    case (Pending, Approved) => ApproveAction
    case (Pending, Rejected) => RejectAction
    case (Approved, Paid) => PayAction
    case _ => StatusChangeAction
  }

  // ---------------------------------------------------------------- balance

  predicate Counted(row: Expense) {
    row.deletedAt.None? && (row.status == Approved || row.status == Paid)
  }

  /** A row's signed share for the viewer, in ten-thousandths of a cent. */
  function Share(row: Expense, viewer: UserId): int {
    if !Counted(row) then 0
    else if row.requestedBy == viewer then row.cents * row.payer - row.cents * row.other
    else row.cents * row.other - row.cents * row.payer
  }

  function Shares(rows: seq<Expense>, bondId: string, viewer: UserId): int {
    if rows == [] then 0
    else
      var last := rows[|rows| - 1];
      Shares(rows[..|rows| - 1], bondId, viewer) + if last.bondId == bondId then Share(last, viewer) else 0
  }

  /** SQL `ROUND`: to the nearest, halves away from zero. */
  function RoundHalfAway(n: int, d: int): int
    requires d > 0
  {
    if n >= 0 then (2 * n + d) / (2 * d) else -((-2 * n + d) / (2 * d))
  }

  /** An expense the balance of a bond counts: approved or paid, and not cancelled. */
  predicate InBalance(row: Expense, bondId: string) {
    row.bondId == bondId && row.deletedAt.None? && (row.status == Approved || row.status == Paid)
  }

  /**
   One more counted expense is owed to the member who asked for it by as much as the
   payer's part exceeds the other's, and owed by whoever else looks; nothing else counts.
   */
  lemma ShareHasSign(rows: seq<Expense>, row: Expense, bondId: string, viewer: UserId)
    ensures Shares(rows + [row], bondId, viewer) - Shares(rows, bondId, viewer)
         == if !InBalance(row, bondId) then 0
            else if viewer == row.requestedBy then row.cents * (row.payer - row.other)
            else -(row.cents * (row.payer - row.other))
  {
    SharesAppended(rows, row, bondId, viewer);
    hide Shares;
    Distributes(row.cents, row.payer, row.other);
  }

  lemma Distributes(a: int, b: int, c: int)
    ensures a * (b - c) == a * b - a * c
  {
  }

  datatype Summary = Summary(saldo: int, porPagar: nat, porCobrar: nat)

  function Abs(n: int): nat {
    if n < 0 then -n else n
  }

  /** The balance in cents, and its two sides. */
  function SummaryForBond(rows: seq<Expense>, bondId: string, viewer: UserId): Summary {
    var saldo := RoundHalfAway(Shares(rows, bondId, viewer), WHOLE);
    Summary(saldo, Abs(Min(saldo, 0)), Abs(Max(saldo, 0)))
  }

  /** At most one side is not zero, and it is the balance. */
  lemma SidesOfBalance(rows: seq<Expense>, bondId: string, viewer: UserId)
    ensures var s := SummaryForBond(rows, bondId, viewer);
            && s.porCobrar == (if s.saldo > 0 then s.saldo else 0)
            && s.porPagar == (if s.saldo < 0 then -s.saldo else 0)
  {
  }

  /**
   A bond with one counted expense shows the member who asked for it something to collect
   only if the payer's part of a positive amount is the larger, and something to pay only if
   it is the smaller; and the exact amount of whole cents either way.
   */
  lemma LoneExpenseHasSide(row: Expense, viewer: UserId)
    requires InBalance(row, row.bondId) && row.cents >= 0
    ensures var mine := SummaryForBond([row], row.bondId, row.requestedBy);
            && (mine.porCobrar > 0 ==> row.payer > row.other)
            && (mine.porPagar > 0 ==> row.payer < row.other)
            && (forall whole :: row.cents * (row.payer - row.other) == whole * WHOLE ==> mine.saldo == whole)
    ensures viewer != row.requestedBy ==>
              var theirs := SummaryForBond([row], row.bondId, viewer);
              && (theirs.porPagar > 0 ==> row.payer > row.other)
              && (theirs.porCobrar > 0 ==> row.payer < row.other)
  {
    var share := row.cents * (row.payer - row.other);
    ShareHasSign([], row, row.bondId, row.requestedBy);
    ShareHasSign([], row, row.bondId, viewer);
    assert [] + [row] == [row];
    assert Shares([], row.bondId, viewer) == 0 && Shares([], row.bondId, row.requestedBy) == 0;
    SignOfProduct(row.cents, row.payer - row.other);
    RoundKeepsSign(share);
    RoundKeepsSign(-share);
    SidesOfBalance([row], row.bondId, row.requestedBy);
    SidesOfBalance([row], row.bondId, viewer);
    hide Shares;
    hide RoundHalfAway;
  }

  lemma SignOfProduct(cents: int, difference: int)
    requires cents >= 0
    ensures cents * difference > 0 ==> difference > 0
    ensures cents * difference < 0 ==> difference < 0
  {
    if difference >= 0 {
      assert cents * difference >= 0;
    } else {
      assert cents * difference <= 0;
    }
  }

  lemma RoundKeepsSign(n: int)
    ensures RoundHalfAway(n, WHOLE) > 0 ==> n > 0
    ensures RoundHalfAway(n, WHOLE) < 0 ==> n < 0
    ensures forall whole :: n == whole * WHOLE ==> RoundHalfAway(n, WHOLE) == whole
  {
  }

  lemma RoundIsOdd(n: int, d: int)
    requires d > 0
    ensures RoundHalfAway(-n, d) == -RoundHalfAway(n, d)
  {
    if n == 0 {
      assert (2 * n + d) / (2 * d) == 0;
    }
  }

  /** The rounded value is within half a unit, and a tie goes away from zero. */
  lemma RoundIsNearest(n: int, d: int)
    requires d > 0
    ensures var r := RoundHalfAway(n, d);
            && -d <= 2 * (n - r * d) <= d
            && (2 * (n - r * d) == d ==> n < 0)
            && (2 * (n - r * d) == -d ==> n > 0)
  {
    var m := if n >= 0 then n else -n;
    var q := (2 * m + d) / (2 * d);
    DivBounds(2 * m + d, 2 * d);
    assert 2 * d * q == 2 * (q * d);
  }

  lemma DivBounds(a: int, b: int)
    requires b > 0
    ensures b * (a / b) <= a < b * (a / b) + b
  {
  }

  lemma {:induction false} SharesOpposite(rows: seq<Expense>, bondId: string, one: UserId, two: UserId)
    requires one != two
    requires forall i :: 0 <= i < |rows| && rows[i].bondId == bondId ==> rows[i].requestedBy in {one, two}
    ensures Shares(rows, bondId, two) == -Shares(rows, bondId, one)
  {
    if rows != [] {
      SharesOpposite(rows[..|rows| - 1], bondId, one, two);
    }
  }

  /** When two members make all the requests, what one owes is what the other is owed. */
  lemma BalancesMirror(rows: seq<Expense>, bondId: string, one: UserId, two: UserId)
    requires one != two
    requires forall i :: 0 <= i < |rows| && rows[i].bondId == bondId ==> rows[i].requestedBy in {one, two}
    ensures var mine := SummaryForBond(rows, bondId, one);
            var yours := SummaryForBond(rows, bondId, two);
            && yours.saldo == -mine.saldo
            && yours.porPagar == mine.porCobrar && yours.porCobrar == mine.porPagar
            && mine.porCobrar - mine.porPagar == mine.saldo
  {
    SharesOpposite(rows, bondId, one, two);
    RoundIsOdd(Shares(rows, bondId, one), WHOLE);
  }

  lemma {:induction false} SharesUpdated(rows: seq<Expense>, i: nat, row: Expense, bondId: string, viewer: UserId)
    requires i < |rows| && row.bondId == rows[i].bondId
    ensures Shares(rows[i := row], bondId, viewer)
         == Shares(rows, bondId, viewer)
            + if row.bondId == bondId then Share(row, viewer) - Share(rows[i], viewer) else 0
  {
    var n := |rows| - 1;
    var rows' := rows[i := row];
    if i == n {
      assert rows'[..n] == rows[..n];
    } else {
      SharesUpdated(rows[..n], i, row, bondId, viewer);
      assert rows'[..n] == rows[..n][i := row];
    }
  }

  lemma SharesAppended(rows: seq<Expense>, row: Expense, bondId: string, viewer: UserId)
    ensures Shares(rows + [row], bondId, viewer)
         == Shares(rows, bondId, viewer) + if row.bondId == bondId then Share(row, viewer) else 0
  {
    assert (rows + [row])[..|rows|] == rows;
  }
}
