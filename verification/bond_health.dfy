/** The card of a bond: grouped aggregates merged by bond, against the report of the same window. */
module BondHealth {
  import opened Prelude
  import opened BondReport
  import opened ActivityReport
  import ExpenseModel
  import ActivityModel

  type BondId = string

  const MS_PER_DAY := 86_400_000

  function Midnight(day: int): Time {
    day * MS_PER_DAY
  }

  /** `isoDay`: the UTC day of an instant. */
  function DayOf(instant: Time): int {
    instant / MS_PER_DAY
  }

  /** The instants of a day are the 24 hours from its midnight. */
  lemma DaysAre24Hours(day: int, elapsed: int)
    ensures DayOf(Midnight(day) + elapsed) == day <==> 0 <= elapsed < 24 * 60 * 60 * 1000
  {
  }

  // ---------------------------------------------------------------- tables and queries

  datatype StoredActivity = StoredActivity(bond: BondId, reference: Time, deleted: bool, activity: ReportActivity)

  datatype StoredExpense = StoredExpense(bond: BondId, day: int, expense: ReportExpense)

  /** The report's query: undeleted activities whose reference date is in the window. */
  function FindActivities(table: seq<StoredActivity>, bond: BondId, from: Time, to: Time): seq<ReportActivity> {
    if table == [] then []
    else
      var found := FindActivities(table[..|table| - 1], bond, from, to);
      var last := table[|table| - 1];
      if last.bond == bond && !last.deleted && from <= last.reference < to then found + [last.activity] else found
  }

  /** The report's query over expenses, which leaves deleted rows to the builder. */
  function FindExpenses(table: seq<StoredExpense>, bond: BondId, fromDay: int, toDay: int): seq<ReportExpense> {
    if table == [] then []
    else
      var found := FindExpenses(table[..|table| - 1], bond, fromDay, toDay);
      var last := table[|table| - 1];
      if last.bond == bond && fromDay <= last.day < toDay then found + [last.expense] else found
  }

  datatype ActivityGroup = ActivityGroup(bond: BondId, total: nat, completed: nat)
  datatype ExpenseGroup = ExpenseGroup(bond: BondId, eligible: int, paid: int)
  datatype CountGroup = CountGroup(bond: BondId, count: nat)

  /** The rows `GROUP BY bond_id` scans: all listed bonds together, filtered by `WHERE`. */
  function WhereActivities(table: seq<StoredActivity>, bonds: seq<BondId>, from: Time, to: Time): seq<StoredActivity> {
    if table == [] then []
    else
      var kept := WhereActivities(table[..|table| - 1], bonds, from, to);
      var last := table[|table| - 1];
      if last.bond in bonds && !last.deleted && from <= last.reference && last.reference < to
      then kept + [last] else kept
  }

  function WhereExpenses(table: seq<StoredExpense>, bonds: seq<BondId>, fromDay: int, toDay: int): seq<StoredExpense> {
    if table == [] then []
    else
      var kept := WhereExpenses(table[..|table| - 1], bonds, fromDay, toDay);
      var last := table[|table| - 1];
      if last.bond in bonds && !last.expense.deleted && fromDay <= last.day && last.day < toDay
      then kept + [last] else kept
  }

  /** The aggregate columns of one group. */
  function ActivityColumns(rows: seq<StoredActivity>, bond: BondId): ActivityGroup {
    if rows == [] then ActivityGroup(bond, 0, 0)
    else
      var sums := ActivityColumns(rows[..|rows| - 1], bond);
      var last := rows[|rows| - 1];
      if last.bond != bond then sums
      else
        ActivityGroup(bond, sums.total + 1,
                      sums.completed + if last.activity.status == ActivityModel.Done then 1 else 0)
  }

  function ExpenseColumns(rows: seq<StoredExpense>, bond: BondId): ExpenseGroup {
    if rows == [] then ExpenseGroup(bond, 0, 0)
    else
      var sums := ExpenseColumns(rows[..|rows| - 1], bond);
      var last := rows[|rows| - 1];
      if last.bond != bond then sums
      else ExpenseGroup(bond,
             sums.eligible + (if last.expense.status != ExpenseModel.Rejected then last.expense.cents else 0),
             sums.paid + (if last.expense.status == ExpenseModel.Paid then last.expense.cents else 0))
  }

  /** One result row per bond that has rows, carrying that group's columns. */
  ghost predicate GroupedActivities(groups: seq<ActivityGroup>, rows: seq<StoredActivity>) {
    && (forall i, j :: 0 <= i < j < |groups| ==> groups[i].bond != groups[j].bond)
    && (forall g :: g in groups ==> g == ActivityColumns(rows, g.bond))
    && (forall row :: row in rows ==> exists g :: g in groups && g.bond == row.bond)
  }

  ghost predicate GroupedExpenses(groups: seq<ExpenseGroup>, rows: seq<StoredExpense>) {
    && (forall i, j :: 0 <= i < j < |groups| ==> groups[i].bond != groups[j].bond)
    && (forall g :: g in groups ==> g == ExpenseColumns(rows, g.bond))
    && (forall row :: row in rows ==> exists g :: g in groups && g.bond == row.bond)
  }

  // ---------------------------------------------------------------- the merge

  datatype Aggregates = Aggregates(
    activitiesTotal: nat,
    activitiesCompleted: nat,
    expensesEligible: int,
    expensesPaid: int,
    children: nat,
    members: nat
  )

  const EMPTY_AGGREGATES := Aggregates(0, 0, 0, 0, 0, 0)

  function ActivityPart(rows: seq<ActivityGroup>, bond: BondId): ActivityGroup {
    if rows == [] then ActivityGroup(bond, 0, 0)
    else if rows[|rows| - 1].bond == bond then rows[|rows| - 1]
    else ActivityPart(rows[..|rows| - 1], bond)
  }

  function ExpensePart(rows: seq<ExpenseGroup>, bond: BondId): ExpenseGroup {
    if rows == [] then ExpenseGroup(bond, 0, 0)
    else if rows[|rows| - 1].bond == bond then rows[|rows| - 1]
    else ExpensePart(rows[..|rows| - 1], bond)
  }

  function CountPart(rows: seq<CountGroup>, bond: BondId): nat {
    if rows == [] then 0
    else if rows[|rows| - 1].bond == bond then rows[|rows| - 1].count
    else CountPart(rows[..|rows| - 1], bond)
  }

  function Merged(a: seq<ActivityGroup>, e: seq<ExpenseGroup>, c: seq<CountGroup>, m: seq<CountGroup>,
                  bond: BondId): Aggregates {
    Aggregates(
      ActivityPart(a, bond).total, ActivityPart(a, bond).completed,
      ExpensePart(e, bond).eligible, ExpensePart(e, bond).paid,
      CountPart(c, bond), CountPart(m, bond))
  }

  function Get(result: map<BondId, Aggregates>, bond: BondId): Aggregates {
    if bond in result then result[bond] else EMPTY_AGGREGATES
  }

  /** The four loops of `aggregatesByBond`: each part lands in its bond and leaves the other parts alone. */
  method AggregatesByBond(a: seq<ActivityGroup>, e: seq<ExpenseGroup>, c: seq<CountGroup>, m: seq<CountGroup>)
    returns (result: map<BondId, Aggregates>)
    ensures forall bond :: Get(result, bond) == Merged(a, e, c, m, bond)
  {
    result := map[];
    for i := 0 to |a|
      invariant forall bond :: Get(result, bond) == Merged(a[..i], [], [], [], bond)
    {
      assert a[..i + 1][..i] == a[..i];
      var key := a[i].bond;
      var current := Get(result, key);
      ghost var before := result;
      result := result[key := current.(activitiesTotal := a[i].total, activitiesCompleted := a[i].completed)];
      forall bond
        ensures Get(result, bond) == Merged(a[..i + 1], [], [], [], bond)
      {
        assert Get(before, bond) == Merged(a[..i], [], [], [], bond);
        assert ActivityPart(a[..i + 1], bond) == if key == bond then a[i] else ActivityPart(a[..i], bond);
        assert Get(result, bond)
            == if bond == key then current.(activitiesTotal := a[i].total, activitiesCompleted := a[i].completed)
               else Get(before, bond);
        hide ActivityPart, Get;
      }
    }
    assert a[..|a|] == a;
    for i := 0 to |e|
      invariant forall bond :: Get(result, bond) == Merged(a, e[..i], [], [], bond)
    {
      assert e[..i + 1][..i] == e[..i];
      var key := e[i].bond;
      var current := Get(result, key);
      ghost var before := result;
      result := result[key := current.(expensesEligible := e[i].eligible, expensesPaid := e[i].paid)];
      forall bond
        ensures Get(result, bond) == Merged(a, e[..i + 1], [], [], bond)
      {
        assert Get(before, bond) == Merged(a, e[..i], [], [], bond);
        assert ExpensePart(e[..i + 1], bond) == if key == bond then e[i] else ExpensePart(e[..i], bond);
        assert Get(result, bond)
            == if bond == key then current.(expensesEligible := e[i].eligible, expensesPaid := e[i].paid)
               else Get(before, bond);
        hide ExpensePart, Get;
      }
    }
    assert e[..|e|] == e;
    for i := 0 to |c|
      invariant forall bond :: Get(result, bond) == Merged(a, e, c[..i], [], bond)
    {
      assert c[..i + 1][..i] == c[..i];
      var key := c[i].bond;
      var current := Get(result, key);
      ghost var before := result;
      result := result[key := current.(children := c[i].count)];
      forall bond
        ensures Get(result, bond) == Merged(a, e, c[..i + 1], [], bond)
      {
        assert Get(before, bond) == Merged(a, e, c[..i], [], bond);
        assert CountPart(c[..i + 1], bond) == if key == bond then c[i].count else CountPart(c[..i], bond);
        assert Get(result, bond) == if bond == key then current.(children := c[i].count) else Get(before, bond);
        hide CountPart, Get;
      }
    }
    assert c[..|c|] == c;
    for i := 0 to |m|
      invariant forall bond :: Get(result, bond) == Merged(a, e, c, m[..i], bond)
    {
      assert m[..i + 1][..i] == m[..i];
      var key := m[i].bond;
      var current := Get(result, key);
      ghost var before := result;
      result := result[key := current.(members := m[i].count)];
      forall bond
        ensures Get(result, bond) == Merged(a, e, c, m[..i + 1], bond)
      {
        assert Get(before, bond) == Merged(a, e, c, m[..i], bond);
        assert CountPart(m[..i + 1], bond) == if key == bond then m[i].count else CountPart(m[..i], bond);
        assert Get(result, bond) == if bond == key then current.(members := m[i].count) else Get(before, bond);
        hide CountPart, Get;
      }
    }
    assert m[..|m|] == m;
  }

  datatype Card = Card(members: nat, children: nat, activitiesTotal: nat, completionRate: int,
                       paidAmountPercentage: int)

  function BuildBondHealthRow(found: Aggregates): Card {
    Card(
      found.members,
      found.children,
      found.activitiesTotal,
      Percentage(found.activitiesCompleted, found.activitiesTotal),
      Percentage(found.expensesPaid, found.expensesEligible))
  }

  // ---------------------------------------------------------------- card and report

  /** With one row per bond, a bond's part is the count of its row, and 0 when it has none. */
  lemma {:induction false} CountPartIsItsRow(groups: seq<CountGroup>, bond: BondId)
    requires forall i, j :: 0 <= i < j < |groups| ==> groups[i].bond != groups[j].bond
    ensures forall g :: g in groups && g.bond == bond ==> CountPart(groups, bond) == g.count
    ensures (forall g :: g in groups ==> g.bond != bond) ==> CountPart(groups, bond) == 0
  {
    if groups != [] {
      var init, last := groups[..|groups| - 1], groups[|groups| - 1];
      assert groups == init + [last] && last in groups;
      CountPartIsItsRow(init, bond);
    }
  }

  lemma {:induction false} ActivityPartIsGroup(groups: seq<ActivityGroup>, rows: seq<StoredActivity>, bond: BondId)
    requires forall g :: g in groups ==> g == ActivityColumns(rows, g.bond)
    requires (exists g :: g in groups && g.bond == bond) || ActivityColumns(rows, bond) == ActivityGroup(bond, 0, 0)
    ensures ActivityPart(groups, bond) == ActivityColumns(rows, bond)
  {
    if groups != [] {
      var init, last := groups[..|groups| - 1], groups[|groups| - 1];
      assert groups == init + [last];
      assert last in groups;
      if last.bond != bond {
        ActivityPartIsGroup(init, rows, bond);
      }
    }
  }

  lemma {:induction false} ExpensePartIsGroup(groups: seq<ExpenseGroup>, rows: seq<StoredExpense>, bond: BondId)
    requires forall g :: g in groups ==> g == ExpenseColumns(rows, g.bond)
    requires (exists g :: g in groups && g.bond == bond) || ExpenseColumns(rows, bond) == ExpenseGroup(bond, 0, 0)
    ensures ExpensePart(groups, bond) == ExpenseColumns(rows, bond)
  {
    if groups != [] {
      var init, last := groups[..|groups| - 1], groups[|groups| - 1];
      assert groups == init + [last];
      assert last in groups;
      if last.bond != bond {
        ExpensePartIsGroup(init, rows, bond);
      }
    }
  }

  lemma {:induction false} NoActivityRows(rows: seq<StoredActivity>, bond: BondId)
    requires forall row :: row in rows ==> row.bond != bond
    ensures ActivityColumns(rows, bond) == ActivityGroup(bond, 0, 0)
  {
    if rows != [] {
      NoActivityRows(rows[..|rows| - 1], bond);
      assert rows[|rows| - 1] in rows;
    }
  }

  lemma {:induction false} NoExpenseRows(rows: seq<StoredExpense>, bond: BondId)
    requires forall row :: row in rows ==> row.bond != bond
    ensures ExpenseColumns(rows, bond) == ExpenseGroup(bond, 0, 0)
  {
    if rows != [] {
      NoExpenseRows(rows[..|rows| - 1], bond);
      assert rows[|rows| - 1] in rows;
    }
  }

  /** Grouping all bonds at once gives each bond what the report's own query of that bond gives. */
  lemma {:induction false} ActivityColumnsAreReported(table: seq<StoredActivity>, bonds: seq<BondId>, bond: BondId,
                                                      from: Time, to: Time)
    requires bond in bonds
    ensures var found := FindActivities(table, bond, from, to);
            ActivityColumns(WhereActivities(table, bonds, from, to), bond)
            == ActivityGroup(bond, |found|, CountIn(found, {ActivityModel.Done}))
  {
    if table != [] {
      var init, last := table[..|table| - 1], table[|table| - 1];
      ActivityColumnsAreReported(init, bonds, bond, from, to);
      var kept := WhereActivities(init, bonds, from, to);
      assert (kept + [last])[..|kept|] == kept;
      var found := FindActivities(init, bond, from, to);
      assert (found + [last.activity])[..|found|] == found;
    }
  }

  lemma ExpenseColumnsAdded(rows: seq<StoredExpense>, row: StoredExpense, bond: BondId)
    requires !row.expense.deleted
    ensures var sums := ExpenseColumns(rows, bond);
            ExpenseColumns(rows + [row], bond)
            == if row.bond != bond then sums
               else ExpenseGroup(bond, sums.eligible + Worth(row.expense, Eligible, Money),
                                 sums.paid + Worth(row.expense, InStatus(ExpenseModel.Paid), Money))
  {
    assert (rows + [row])[..|rows|] == rows;
  }

  function ReportedColumns(found: seq<ReportExpense>, bond: BondId): ExpenseGroup {
    ExpenseGroup(bond, Sum(found, Eligible, Money), Sum(found, InStatus(ExpenseModel.Paid), Money))
  }

  lemma ReportedColumnsAdded(found: seq<ReportExpense>, row: ReportExpense, bond: BondId)
    ensures var sums := ReportedColumns(found, bond);
            ReportedColumns(found + [row], bond)
            == ExpenseGroup(bond, sums.eligible + Worth(row, Eligible, Money),
                            sums.paid + Worth(row, InStatus(ExpenseModel.Paid), Money))
    ensures row.deleted ==> ReportedColumns(found + [row], bond) == ReportedColumns(found, bond)
  {
    SumAdded(found, row, Eligible, Money);
    SumAdded(found, row, InStatus(ExpenseModel.Paid), Money);
    hide Sum;
  }

  lemma {:induction false} ExpenseColumnsAreReported(table: seq<StoredExpense>, bonds: seq<BondId>, bond: BondId,
                                                     fromDay: int, toDay: int)
    requires bond in bonds
    ensures ExpenseColumns(WhereExpenses(table, bonds, fromDay, toDay), bond)
            == ReportedColumns(FindExpenses(table, bond, fromDay, toDay), bond)
  {
    hide ExpenseColumns, ReportedColumns, Worth;
    if table == [] {
      assert ExpenseColumns([], bond) == ReportedColumns([], bond) by {
        NoExpenseRows([], bond);
        NothingReported(bond);
      }
    } else {
      var init, last := table[..|table| - 1], table[|table| - 1];
      ExpenseColumnsAreReported(init, bonds, bond, fromDay, toDay);
      if !last.expense.deleted {
        ExpenseColumnsAdded(WhereExpenses(init, bonds, fromDay, toDay), last, bond);
      }
      ReportedColumnsAdded(FindExpenses(init, bond, fromDay, toDay), last.expense, bond);
    }
  }

  lemma NothingReported(bond: BondId)
    ensures ReportedColumns([], bond) == ExpenseGroup(bond, 0, 0)
  {
  }

  lemma MergedIsReported(a: seq<ActivityGroup>, e: seq<ExpenseGroup>, c: seq<CountGroup>, m: seq<CountGroup>,
                         bonds: seq<BondId>, bond: BondId, from: Time, to: Time,
                         activities: seq<StoredActivity>, expenses: seq<StoredExpense>)
    requires bond in bonds
    requires GroupedActivities(a, WhereActivities(activities, bonds, from, to))
    requires GroupedExpenses(e, WhereExpenses(expenses, bonds, DayOf(from), DayOf(to)))
    ensures var done := FindActivities(activities, bond, from, to);
            var spent := FindExpenses(expenses, bond, DayOf(from), DayOf(to));
            var merged := Merged(a, e, c, m, bond);
            && merged.activitiesTotal == |done| && merged.activitiesCompleted == CountIn(done, {ActivityModel.Done})
            && merged.expensesEligible == Sum(spent, Eligible, Money)
            && merged.expensesPaid == Sum(spent, InStatus(ExpenseModel.Paid), Money)
  {
    var rows := WhereActivities(activities, bonds, from, to);
    var costs := WhereExpenses(expenses, bonds, DayOf(from), DayOf(to));
    hide WhereActivities, WhereExpenses, FindActivities, FindExpenses, Sum, CountIn, DayOf, ActivityColumns,
      ExpenseColumns;
    if forall row :: row in rows ==> row.bond != bond {
      NoActivityRows(rows, bond);
    }
    if forall row :: row in costs ==> row.bond != bond {
      NoExpenseRows(costs, bond);
    }
    ActivityPartIsGroup(a, rows, bond);
    ExpensePartIsGroup(e, costs, bond);
    ActivityColumnsAreReported(activities, bonds, bond, from, to);
    ExpenseColumnsAreReported(expenses, bonds, bond, DayOf(from), DayOf(to));
  }

  /** The card of a bond shows the percentages of that bond's report over the same days. */
  lemma CardAgreesWithReport(a: seq<ActivityGroup>, e: seq<ExpenseGroup>, c: seq<CountGroup>, m: seq<CountGroup>,
                             result: map<BondId, Aggregates>, bonds: seq<BondId>, bond: BondId,
                             fromDay: int, toDay: int,
                             activities: seq<StoredActivity>, expenses: seq<StoredExpense>, at: Time,
                             acts: ActivitySection, costs: ExpenseSection)
    requires bond in bonds
    requires GroupedActivities(a, WhereActivities(activities, bonds, Midnight(fromDay), Midnight(toDay)))
    requires GroupedExpenses(e, WhereExpenses(expenses, bonds, DayOf(Midnight(fromDay)), DayOf(Midnight(toDay))))
    requires Get(result, bond) == Merged(a, e, c, m, bond)
    requires ActivityReport.Describes(acts, FindActivities(activities, bond, Midnight(fromDay), Midnight(toDay)), at)
    requires BondReport.Describes(costs, FindExpenses(expenses, bond, fromDay, toDay))
    ensures var card := BuildBondHealthRow(Get(result, bond));
            && card.completionRate == acts.completionRate
            && card.activitiesTotal == acts.total
            && card.paidAmountPercentage == costs.paidAmountPercentage
            && card.children == CountPart(c, bond) && card.members == CountPart(m, bond)
  {
    assert DayOf(Midnight(fromDay)) == fromDay && DayOf(Midnight(toDay)) == toDay;
    hide Percentage, Midnight, DayOf, Merged, FindActivities, FindExpenses, WhereActivities, WhereExpenses,
         GroupedActivities, GroupedExpenses, Sum, CountIn;
    MergedIsReported(a, e, c, m, bonds, bond, Midnight(fromDay), Midnight(toDay), activities, expenses);
  }
}
