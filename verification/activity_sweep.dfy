/** One sweep over the table, and why repeated sweeps run dry. */
module ActivitySweep {
  import opened Prelude
  import opened ActivityModel
  import opened ActivityMachine

  type Table = map<ActivityId, Row>

  /** The sweep's query decides as `dueTargetFor` does, row by row. */
  lemma QueryMatchesDueTarget(row: Row, now: Time)
    ensures SqlDue(row, now) <==> row.deletedAt.None? && DueTargetFor(row, now).Some?
  {
  }

  /** What the query may return: due rows, each once, and all of them unless the limit cuts in. */
  predicate IsBatch(rows: Table, now: Time, limit: nat, batch: seq<ActivityId>) {
    && |batch| <= limit
    && (forall i :: 0 <= i < |batch| ==> batch[i] in rows && SqlDue(rows[batch[i]], now))
    && (forall i, j :: 0 <= i < j < |batch| ==> batch[i] != batch[j])
    && (|batch| < limit ==> forall id :: id in rows && SqlDue(rows[id], now) ==> id in batch)
  }

  /** The row after the sweep of `now` moved it, its transition stamped at `stamp`. */
  function SweptRow(row: Row, now: Time, stamp: Time, timeout: int): Row {
    match DueTargetFor(row, now)
    case None => row
    case Some(to) =>
      match Judge(row, to, System)
      case Go(rule) => CommitRow(row, SweepRead(row, to, now, stamp), rule, timeout)
      case _ => row
  }

  function SweepRead(row: Row, to: Status, now: Time, stamp: Time): Read {
    Read(row, ByTimer(Intent(to, row.version, now)), stamp)
  }

  function SweptTable(rows: Table, batch: seq<ActivityId>, now: Time, stamps: seq<Time>, timeout: int): Table
    requires |stamps| == |batch|
  {
    if batch == [] then rows
    else
      var n := |batch| - 1;
      var before := SweptTable(rows, batch[..n], now, stamps[..n], timeout);
      if batch[n] in before then before[batch[n] := SweptRow(before[batch[n]], now, stamps[n], timeout)] else before
  }

  // ---------------------------------------------------------------- the measure

  /** System transitions a row can still take without a member's help. */
  function StepsLeft(status: Status): nat {
    match status
    case Assisting => 3
    case InProgress => 2
    case Created => 1
    case Assigned => 1
    case Verify => 1
    case _ => 0
  }

  ghost function TotalSteps(rows: Table): nat
    decreases |rows|
  {
    if rows == map[] then 0
    else
      var id :| id in rows;
      assert |rows - {id}| < |rows| by { ShrinksByOne(rows, id); }
      StepsLeft(rows[id].status) + TotalSteps(rows - {id})
  }

  lemma ShrinksByOne(rows: Table, id: ActivityId)
    requires id in rows
    ensures |rows - {id}| == |rows| - 1
  {
    assert (rows - {id}).Keys == rows.Keys - {id};
    assert |rows.Keys - {id}| == |rows.Keys| - 1;
  }

  lemma {:induction false} TotalStepsSplit(rows: Table, id: ActivityId)
    requires id in rows
    ensures TotalSteps(rows) == StepsLeft(rows[id].status) + TotalSteps(rows - {id})
    decreases |rows|
  {
    var first :| first in rows && TotalSteps(rows) == StepsLeft(rows[first].status) + TotalSteps(rows - {first});
    if first != id {
      ShrinksByOne(rows, first);
      ShrinksByOne(rows, id);
      TotalStepsSplit(rows - {first}, id);
      TotalStepsSplit(rows - {id}, first);
      assert rows - {first} - {id} == rows - {id} - {first};
    }
  }

  lemma TotalStepsUpdated(rows: Table, id: ActivityId, row: Row)
    requires id in rows
    ensures TotalSteps(rows[id := row]) + StepsLeft(rows[id].status) == TotalSteps(rows) + StepsLeft(row.status)
  {
    TotalStepsSplit(rows, id);
    TotalStepsSplit(rows[id := row], id);
    assert rows[id := row] - {id} == rows - {id};
  }

  /** A due row's target is a legal system move, and takes exactly one step off. */
  lemma SweptRowMoves(row: Row, now: Time, stamp: Time, timeout: int)
    requires SqlDue(row, now)
    ensures var row' := SweptRow(row, now, stamp, timeout);
            && DueTargetFor(row, now) == Some(row'.status)
            && Judge(row, row'.status, System).Go?
            && row'.version == row.version + 1
            && row'.deletedAt.None?
            && StepsLeft(row'.status) + 1 == StepsLeft(row.status)
  {
  }

  // ---------------------------------------------------------------- one sweep

  lemma {:induction false} SweepMovesItsBatch(
    rows: Table, batch: seq<ActivityId>, now: Time, stamps: seq<Time>, timeout: int)
    requires |stamps| == |batch|
    requires forall i :: 0 <= i < |batch| ==> batch[i] in rows && SqlDue(rows[batch[i]], now)
    requires forall i, j :: 0 <= i < j < |batch| ==> batch[i] != batch[j]
    ensures var rows' := SweptTable(rows, batch, now, stamps, timeout);
            && rows'.Keys == rows.Keys
            && (forall i :: 0 <= i < |batch| ==>
                  rows'[batch[i]] == SweptRow(rows[batch[i]], now, stamps[i], timeout))
            && (forall id :: id in rows && id !in batch ==> rows'[id] == rows[id])
            && TotalSteps(rows') + |batch| == TotalSteps(rows)
  {
    hide SqlDue;
    hide SweptRow;
    hide TotalSteps;
    if batch != [] {
      var n := |batch| - 1;
      var id := batch[n];
      SweepMovesItsBatch(rows, batch[..n], now, stamps[..n], timeout);
      var before := SweptTable(rows, batch[..n], now, stamps[..n], timeout);
      assert id !in batch[..n];
      assert before[id] == rows[id];
      SweptRowMoves(before[id], now, stamps[n], timeout);
      TotalStepsUpdated(before, id, SweptRow(before[id], now, stamps[n], timeout));
      var rows' := SweptTable(rows, batch, now, stamps, timeout);
      assert rows' == before[id := SweptRow(rows[id], now, stamps[n], timeout)];
      hide SweptTable;
      hide StepsLeft;
      SweptAll(rows, batch, now, stamps, timeout, before, rows');
    }
  }

  lemma SweptAll(rows: Table, batch: seq<ActivityId>, now: Time, stamps: seq<Time>, timeout: int,
                 before: Table, rows': Table)
    requires |stamps| == |batch| > 0 && before.Keys == rows.Keys
    requires forall i :: 0 <= i < |batch| ==> batch[i] in rows
    requires forall i, j :: 0 <= i < j < |batch| ==> batch[i] != batch[j]
    requires forall i :: 0 <= i < |batch| - 1 ==> before[batch[i]] == SweptRow(rows[batch[i]], now, stamps[i], timeout)
    requires forall other :: other in rows && other !in batch[..|batch| - 1] ==> before[other] == rows[other]
    requires var n := |batch| - 1;
             rows' == before[batch[n] := SweptRow(rows[batch[n]], now, stamps[n], timeout)]
    ensures forall i :: 0 <= i < |batch| ==> rows'[batch[i]] == SweptRow(rows[batch[i]], now, stamps[i], timeout)
    ensures forall other :: other in rows && other !in batch ==> rows'[other] == rows[other]
  {
    hide SweptRow;
    assert batch == batch[..|batch| - 1] + [batch[|batch| - 1]];
  }

  // ---------------------------------------------------------------- many sweeps

  datatype Pass = Pass(now: Time, batch: seq<ActivityId>, stamps: seq<Time>)

  /** `tables[i + 1]` is `tables[i]` after the sweep pass `passes[i]`, with nothing else touching it. */
  ghost predicate Sweeps(tables: seq<Table>, passes: seq<Pass>, limit: nat, timeout: int) {
    && |tables| == |passes| + 1
    && forall i {:trigger passes[i]} :: 0 <= i < |passes| ==>
         && |passes[i].stamps| == |passes[i].batch|
         && IsBatch(tables[i], passes[i].now, limit, passes[i].batch)
         && tables[i + 1] == SweptTable(tables[i], passes[i].batch, passes[i].now, passes[i].stamps, timeout)
  }

  function Handled(passes: seq<Pass>): nat {
    if passes == [] then 0 else Handled(passes[..|passes| - 1]) + |passes[|passes| - 1].batch|
  }

  /** Each row moved is paid for by the measure, so sweeps cannot move rows forever. */
  lemma {:induction false} SweepsArePaidFor(tables: seq<Table>, passes: seq<Pass>, limit: nat, timeout: int)
    requires Sweeps(tables, passes, limit, timeout)
    ensures TotalSteps(tables[|passes|]) + Handled(passes) == TotalSteps(tables[0])
    decreases |passes|
  {
    if passes == [] {
    } else {
      var n := |passes| - 1;
      var pass := passes[n];
      SweepMovesItsBatch(tables[n], pass.batch, pass.now, pass.stamps, timeout);
      SweepsArePaidFor(tables[..n + 1], passes[..n], limit, timeout);
    }
  }

  lemma {:induction false} HandledAtLeast(passes: seq<Pass>)
    requires forall i :: 0 <= i < |passes| ==> passes[i].batch != []
    ensures Handled(passes) >= |passes|
  {
    if passes == [] {
    } else {
      HandledAtLeast(passes[..|passes| - 1]);
    }
  }

  /**
   The sweep drains: with a positive limit, among any `TotalSteps + 1` successive
   passes, at whatever times, one finds no row due. So batches of 100 end.
   */
  lemma SweepDrains(tables: seq<Table>, passes: seq<Pass>, limit: nat, timeout: int)
    requires limit > 0 && Sweeps(tables, passes, limit, timeout)
    requires |passes| > TotalSteps(tables[0])
    ensures exists i :: 0 <= i < |passes| && passes[i].batch == []
                        && forall id :: id in tables[i] ==> !SqlDue(tables[i][id], passes[i].now)
  {
    hide SqlDue;
    SweepsArePaidFor(tables, passes, limit, timeout);
    if forall i :: 0 <= i < |passes| ==> passes[i].batch != [] {
      HandledAtLeast(passes);
    }
    var i :| 0 <= i < |passes| && passes[i].batch == [];
    assert IsBatch(tables[i], passes[i].now, limit, passes[i].batch);
  }
}
