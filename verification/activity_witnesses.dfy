/** Runs that exist: a stuck row can always be moved, and an early `overdue` can happen. */
module ActivityWitnesses {
  import opened Prelude
  import opened ActivityModel
  import opened ActivityMachine
  import opened ActivityRuns

  lemma {:induction false} RunExtends(cfg: Config, s: State, moves: seq<Move>, s': State, m: Move)
    requires Runs(cfg, s, moves, s') && CanMove(cfg, s', m)
    ensures Runs(cfg, s, moves + [m], Moved(cfg, s', m))
    decreases |moves|
  {
    hide CanMove;
    hide Moved;
    if moves == [] {
      assert (moves + [m])[1..] == [];
    } else {
      RunExtends(cfg, Moved(cfg, s, moves[0]), moves[1..], s', m);
      assert (moves + [m])[1..] == moves[1..] + [m];
    }
  }

  lemma ReachableExtends(cfg: Config, s: State, m: Move)
    requires Reachable(cfg, s) && CanMove(cfg, s, m)
    ensures Reachable(cfg, Moved(cfg, s, m))
  {
    hide CanMove;
    hide Moved;
    var start, moves :| Runs(cfg, Initial(start), moves, s);
    RunExtends(cfg, Initial(start), moves, s, m);
  }

  /** The commit of a wake-up that nothing raced: one version and one event further. */
  lemma FreshSystemCommit(a: Act, read: Read, timeout: int)
    requires read.cause.ByTimer? && CasPasses(a.row, read.snap)
    requires Judge(read.snap, read.cause.intent.to, System).Go?
    ensures AfterCommit(a, read, timeout).row.status == read.cause.intent.to
    ensures AfterCommit(a, read, timeout).row.version == a.row.version + 1
    ensures |Emitted(a, Commits(read))| == 1
  {
  }

  lemma OnlyCommitsEmit(a: Act, step: Step)
    requires !step.Commits?
    ensures Emitted(a, step) == []
  {
  }

  lemma DueIsLegal(row: Row, now: Time)
    requires DueTargetFor(row, now).Some?
    ensures Judge(row, DueTargetFor(row, now).value, System).Go?
  {
  }

  /** One sweep of one row at `at`, as moves: the pass selects it, `transition()` reads it, and commits. */
  function SweepMoves(id: ActivityId, row: Row, to: Status, at: Time): seq<Move> {
    var intent := Intent(to, row.version, at);
    [Tick(at), Do(id, SweepSees(at)), Do(id, SystemReads(intent, row.version)),
     Do(id, Commits(Read(row, ByTimer(intent), at)))]
  }

  /** Nothing but activity `id` is touched between two states. */
  predicate OthersKept(s: State, s': State, id: ActivityId) {
    && s'.acts.Keys == s.acts.Keys
    && forall other :: other in s.acts && other != id ==> s'.acts[other] == s.acts[other]
  }

  /**
   No row that only time moves is ever stuck, whatever jobs were lost: from every
   reachable state, letting the clock run to the row's anchor and sweeping it once moves
   it to the status its timer is for, with one new version and one new event, and
   touches no other activity.
   */
  lemma EveryWaitingRowCanMove(cfg: Config, s: State, id: ActivityId) returns (at: Time, moves: seq<Move>, s': State)
    requires Reachable(cfg, s) && id in s.acts && WaitsFor(s.acts[id].row.status).Some?
    ensures var row := s.acts[id].row;
            var kind := WaitsFor(row.status).value;
            && TimerTarget(kind, row).Some? && at == Max(s.now, TimerTarget(kind, row).value)
            && TargetStatusFor(kind).Some? && moves == SweepMoves(id, row, TargetStatusFor(kind).value, at)
    ensures Runs(cfg, s, moves, s') && Reachable(cfg, s') && s'.now == at
    ensures id in s'.acts && OthersKept(s, s', id)
    ensures Some(s'.acts[id].row.status) == TargetStatusFor(WaitsFor(s.acts[id].row.status).value)
    ensures s'.acts[id].row.version == s.acts[id].row.version + 1
    ensures |s'.outbox| == |s.outbox| + 1 && s.outbox <= s'.outbox
  {
    hide Judge;
    hide DueTargetFor;
    hide SqlDue;
    hide AfterCommit;
    hide Emitted;
    hide RowInv;
    hide Runs;
    hide Anchor;
    hide NextByTime;
    hide TimerTarget;
    hide Reachable;
    hide CanMove;
    var row := s.acts[id].row;
    SweepNeverMisses(cfg, s, id, s.now);
    at := Max(s.now, Anchor(row).value);
    SweepNeverMisses(cfg, s, id, at);
    var to := TargetStatusFor(WaitsFor(row.status).value).value;
    moves := SweepMoves(id, row, to, at);
    var s1, s2, s3 := SweepReads(cfg, s, id, at, to);
    s' := MoveOn(cfg, s3, moves[3]);
    FreshSystemCommit(s3.acts[id], moves[3].step.read, cfg.timeout);
    FourMovesRun(cfg, s, s1, s2, s3, s', moves);
  }

  /** The first three moves: the row is read for the sweep as it was, and nothing is written. */
  lemma SweepReads(cfg: Config, s: State, id: ActivityId, at: Time, to: Status)
    returns (s1: State, s2: State, s3: State)
    requires Reachable(cfg, s) && id in s.acts && s.now <= at
    requires SqlDue(s.acts[id].row, at) && DueTargetFor(s.acts[id].row, at) == Some(to)
    ensures var moves := SweepMoves(id, s.acts[id].row, to, at);
            && CanMove(cfg, s, moves[0]) && s1 == Moved(cfg, s, moves[0])
            && CanMove(cfg, s1, moves[1]) && s2 == Moved(cfg, s1, moves[1])
            && CanMove(cfg, s2, moves[2]) && s3 == Moved(cfg, s2, moves[2])
            && CanMove(cfg, s3, moves[3])
    ensures Reachable(cfg, s3) && s3.now == at && s3.outbox == s.outbox && id in s3.acts
    ensures OthersKept(s, s3, id) && s3.acts[id].row == s.acts[id].row
    ensures s.acts[id].row.deletedAt.None? && Judge(s.acts[id].row, to, System).Go?
  {
    hide Judge;
    hide DueTargetFor;
    hide SqlDue;
    hide AfterCommit;
    hide Emitted;
    hide Inv;
    hide HandleTimerTarget;
    hide HandlerAllows;
    hide Reachable;
    var a := s.acts[id];
    var moves := SweepMoves(id, a.row, to, at);
    ActivityInv(cfg, s, id);
    CurrentIsLast(a, EventsOf(s.outbox, id), s.now, cfg.timeout);
    SqlDueMeansLive(a.row, at);
    DueIsLegal(a.row, at);
    s1 := MoveOn(cfg, s, moves[0]);
    s2 := MoveOn(cfg, s1, moves[1]);
    s3 := MoveOn(cfg, s2, moves[2]);
    OnlyCommitsEmit(s1.acts[id], SweepSees(at));
    OnlyCommitsEmit(s2.acts[id], moves[2].step);
    assert s3.outbox == s.outbox;
  }

  lemma FourMovesRun(cfg: Config, s: State, s1: State, s2: State, s3: State, s4: State, moves: seq<Move>)
    requires |moves| == 4
    requires CanMove(cfg, s, moves[0]) && s1 == Moved(cfg, s, moves[0])
    requires CanMove(cfg, s1, moves[1]) && s2 == Moved(cfg, s1, moves[1])
    requires CanMove(cfg, s2, moves[2]) && s3 == Moved(cfg, s2, moves[2])
    requires CanMove(cfg, s3, moves[3]) && s4 == Moved(cfg, s3, moves[3])
    ensures Runs(cfg, s, moves, s4)
  {
    hide CanMove;
    hide Moved;
    assert Runs(cfg, s4, moves[4..], s4);
    assert moves[3..][1..] == moves[4..];
    assert Runs(cfg, s3, moves[3..], s4);
    assert moves[2..][1..] == moves[3..];
    assert Runs(cfg, s2, moves[2..], s4);
    assert moves[1..][1..] == moves[2..];
    assert Runs(cfg, s1, moves[1..], s4);
  }

  lemma MoveOn(cfg: Config, s: State, m: Move) returns (s': State)
    requires Reachable(cfg, s) && CanMove(cfg, s, m)
    ensures s' == Moved(cfg, s, m) && Reachable(cfg, s')
  {
    hide CanMove;
    hide Moved;
    ReachableExtends(cfg, s, m);
    s' := Moved(cfg, s, m);
  }

  lemma CurrentIsLast(a: Act, log: seq<Event>, now: Time, timeout: int)
    requires Inv(a, log, now, timeout)
    ensures 1 <= a.row.version == |a.hist| && a.hist[a.row.version - 1] == a.row
  {
    hide LogInv;
    hide RowInv;
    hide RequestsInv;
    hide TimersInv;
  }

  lemma SqlDueMeansLive(row: Row, now: Time)
    requires SqlDue(row, now)
    ensures row.deletedAt.None? && DueTargetFor(row, now).Some?
  {
  }

  /** At time 10 the sweep sees a row created at time 0 with nobody assigned and ten milliseconds to respond. */
  lemma SweepSeesUnassigned(cfg: Config, id: ActivityId) returns (s: State)
    requires cfg == Config(10, 0)
    ensures Reachable(cfg, s) && s.now == 10 && id in s.acts
    ensures s.acts[id].row == NewRow("ana", None, 100, None, 0, 10) && s.acts[id].hist == [s.acts[id].row]
    ensures s.acts[id].intents == {Intent(Overdue, 1, 10)}
  {
    assert Runs(cfg, Initial(0), [], Initial(0));
    assert Reachable(cfg, Initial(0));
    var s1 := MoveOn(cfg, Initial(0), Create(id, Draft("ana", None, 100, None), 0, 0));
    var s2 := MoveOn(cfg, s1, Tick(10));
    s := MoveOn(cfg, s2, Do(id, SweepSees(10)));
  }

  /**
   A wake-up that saw one version and is carried out on a later one can mark a row
   overdue before its deadline: the member who assigns the row between the two reads
   has just opened a new response window.
   */
  lemma OverdueCanComeEarly() returns (cfg: Config, s: State, id: ActivityId, read: Read)
    ensures Reachable(cfg, s) && id in s.acts && read in s.acts[id].inFlight && read.cause.ByTimer?
    ensures CasPasses(s.acts[id].row, read.snap)
    ensures DueTargetFor(s.acts[id].row, read.now).None?
    ensures !Reached(s.acts[id].row.deadline, read.now)
  {
    cfg, id := Config(10, 0), "a";
    var intent := Intent(Overdue, 1, 10);
    var s5 := AssignedMeanwhile(cfg, id);
    s := MoveOn(cfg, s5, Do(id, SystemReads(intent, 2)));
    read := Read(s.acts[id].row, ByTimer(intent), 10);
  }

  /** Then a member is assigned, which opens a new window, while the sweep's wake-up is still on its way. */
  lemma AssignedMeanwhile(cfg: Config, id: ActivityId) returns (s: State)
    requires cfg == Config(10, 0)
    ensures Reachable(cfg, s) && s.now == 10 && id in s.acts
    ensures var a := s.acts[id];
            && a.row.status == Assigned && a.row.deadline == Some(20) && a.row.deletedAt.None?
            && a.row.version == 2 && |a.hist| == 2 && a.hist[1] == a.row
            && a.intents == {Intent(Overdue, 1, 10)}
  {
    hide Reachable;
    var s3 := SweepSeesUnassigned(cfg, id);
    var s4 := MoveOn(cfg, s3, Do(id, UserReads("ana", AssignTo("ana"), 1, 10, 1)));
    var assignment := Read(s4.acts[id].row, ByUser("ana", AssignTo("ana")), 10);
    assert assignment in s4.acts[id].inFlight;
    s := MoveOn(cfg, s4, Do(id, Commits(assignment)));
  }
}
