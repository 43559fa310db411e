/** The activity section of the bond report. */
module ActivityReport {
  import opened Prelude
  import opened ActivityModel
  import BondReport

  datatype ReportActivity = ReportActivity(status: Status, deadline: Option<Time>)

  datatype ActivitySection = ActivitySection(
    total: nat,
    completed: nat,
    overdue: nat,
    completionRate: int,
    byStatus: map<Status, nat>
  )

  /** How many rows are in one of some statuses. */
  function CountIn(rows: seq<ReportActivity>, statuses: set<Status>): nat {
    if rows == [] then 0
    else CountIn(rows[..|rows| - 1], statuses) + if rows[|rows| - 1].status in statuses then 1 else 0
  }

  predicate Late(row: ReportActivity, at: Time) {
    row.status !in {Done, Cancelled} && row.deadline.Some? && row.deadline.value < at
  }

  function CountLate(rows: seq<ReportActivity>, at: Time): nat {
    if rows == [] then 0
    else CountLate(rows[..|rows| - 1], at) + if Late(rows[|rows| - 1], at) then 1 else 0
  }

  ghost predicate CountsOf(rows: seq<ReportActivity>, byStatus: map<Status, nat>) {
    && (forall s :: s in byStatus <==> CountIn(rows, {s}) > 0)
    && (forall s :: s in byStatus ==> byStatus[s] == CountIn(rows, {s}))
  }

  ghost predicate Describes(section: ActivitySection, rows: seq<ReportActivity>, at: Time) {
    && section.total == |rows|
    && section.completed == CountIn(rows, {Done})
    && section.overdue == CountLate(rows, at)
    && section.completionRate == BondReport.Percentage(section.completed, section.total)
    && CountsOf(rows, section.byStatus)
  }

  lemma {:induction false} CountDoneIsSize(rows: seq<ReportActivity>)
    ensures CountIn(rows, {Done}) == |set i | 0 <= i < |rows| && rows[i].status == Done|
  {
    var places := set i | 0 <= i < |rows| && rows[i].status == Done;
    if rows == [] {
      assert places == {};
    } else {
      var init := rows[..|rows| - 1];
      CountDoneIsSize(init);
      var before := set i | 0 <= i < |init| && init[i].status == Done;
      assert places == if rows[|rows| - 1].status == Done then before + {|rows| - 1} else before;
    }
  }

  lemma {:induction false} CountLateIsSize(rows: seq<ReportActivity>, at: Time)
    ensures CountLate(rows, at)
         == |set i | 0 <= i < |rows| && rows[i].status != Done && rows[i].status != Cancelled
                     && rows[i].deadline.Some? && rows[i].deadline.value < at|
  {
    var places := set i | 0 <= i < |rows| && rows[i].status != Done && rows[i].status != Cancelled
                          && rows[i].deadline.Some? && rows[i].deadline.value < at;
    if rows == [] {
      assert places == {};
    } else {
      var init := rows[..|rows| - 1];
      CountLateIsSize(init, at);
      var before := set i | 0 <= i < |init| && init[i].status != Done && init[i].status != Cancelled
                            && init[i].deadline.Some? && init[i].deadline.value < at;
      assert places == if Late(rows[|rows| - 1], at) then before + {|rows| - 1} else before;
    }
  }

  method BuildActivitySection(rows: seq<ReportActivity>, at: Time) returns (section: ActivitySection)
    ensures Describes(section, rows, at)
    ensures section.completed == |set i | 0 <= i < |rows| && rows[i].status == Done|
    ensures section.overdue
         == |set i | 0 <= i < |rows| && rows[i].status != Done && rows[i].status != Cancelled
                     && rows[i].deadline.Some? && rows[i].deadline.value < at|
  {
    var byStatus: map<Status, nat> := map[];
    for i := 0 to |rows|
      invariant CountsOf(rows[..i], byStatus)
    {
      var row := rows[i];
      assert rows[..i + 1][..i] == rows[..i];
      var bucket := if row.status in byStatus then byStatus[row.status] else 0;
      byStatus := byStatus[row.status := bucket + 1];
    }
    assert rows[..|rows|] == rows;
    hide CountLate;
    hide CountIn;
    var completed := CountIn(rows, {Done});
    CountDoneIsSize(rows);
    CountLateIsSize(rows, at);
    section := ActivitySection(|rows|, completed, CountLate(rows, at), BondReport.Percentage(completed, |rows|),
                               byStatus);
  }

  function Entry(section: ActivitySection, status: Status): nat {
    if status in section.byStatus then section.byStatus[status] else 0
  }

  lemma {:induction false} CountsSplit(rows: seq<ReportActivity>, a: set<Status>, b: set<Status>)
    requires a !! b
    ensures CountIn(rows, a + b) == CountIn(rows, a) + CountIn(rows, b)
  {
    if rows != [] {
      CountsSplit(rows[..|rows| - 1], a, b);
    }
  }

  function EntrySum(section: ActivitySection, statuses: seq<Status>): nat {
    if statuses == [] then 0
    else EntrySum(section, statuses[..|statuses| - 1]) + Entry(section, statuses[|statuses| - 1])
  }

  lemma {:induction false} NoStatusNoRow(rows: seq<ReportActivity>)
    ensures CountIn(rows, {}) == 0
  {
    if rows != [] {
      NoStatusNoRow(rows[..|rows| - 1]);
    }
  }

  lemma {:induction false} EntriesCount(section: ActivitySection, rows: seq<ReportActivity>, at: Time,
                                        statuses: seq<Status>)
    requires Describes(section, rows, at) && Distinct(statuses)
    ensures EntrySum(section, statuses) == CountIn(rows, set s | s in statuses)
  {
    hide CountIn;
    if statuses == [] {
      NoStatusNoRow(rows);
      assert (set s | s in statuses) == {};
    } else {
      var init, last := statuses[..|statuses| - 1], statuses[|statuses| - 1];
      EntriesCount(section, rows, at, init);
      CountsSplit(rows, set s | s in init, {last});
      assert statuses == init + [last];
      assert (set s | s in statuses) == (set s | s in init) + {last};
    }
  }

  lemma {:induction false} AllCounted(rows: seq<ReportActivity>, statuses: set<Status>)
    requires forall row :: row in rows ==> row.status in statuses
    ensures CountIn(rows, statuses) == |rows|
  {
    if rows != [] {
      AllCounted(rows[..|rows| - 1], statuses);
    }
  }

  lemma {:induction false} LateAreOpen(rows: seq<ReportActivity>, at: Time)
    ensures CountLate(rows, at) + CountIn(rows, {Done, Cancelled}) <= |rows|
  {
    if rows != [] {
      LateAreOpen(rows[..|rows| - 1], at);
    }
  }

  /** Listed once each, the status counts add up to the total; a closed activity is never late. */
  lemma ActivityCountsAddUp(section: ActivitySection, rows: seq<ReportActivity>, at: Time, statuses: seq<Status>)
    requires Describes(section, rows, at) && Distinct(statuses)
    requires forall s :: s in section.byStatus ==> s in statuses
    ensures EntrySum(section, statuses) == section.total
    ensures section.completed == Entry(section, Done)
    ensures section.overdue + Entry(section, Done) + Entry(section, Cancelled) <= section.total
    ensures 0 <= section.completionRate <= BondReport.Percentage(1, 1)
  {
    EntriesCount(section, rows, at, statuses);
    forall row | row in rows
      ensures row.status in statuses
    {
      Occurs(rows, row);
    }
    AllCounted(rows, set s | s in statuses);
    LateAreOpen(rows, at);
    CountsSplit(rows, {Done}, {Cancelled});
    assert {Done} + {Cancelled} == {Done, Cancelled};
    hide CountIn;
    BondReport.PartIsAtMostWhole(section.completed, section.total);
  }

  lemma {:induction false} Occurs(rows: seq<ReportActivity>, row: ReportActivity)
    requires row in rows
    ensures CountIn(rows, {row.status}) > 0
  {
    var init, last := rows[..|rows| - 1], rows[|rows| - 1];
    assert rows == init + [last];
    if row in init {
      Occurs(init, row);
    }
  }
}
