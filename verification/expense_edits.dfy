/** What an approval approves: the row its approver read, with the edits committed since. */
module ExpenseEdits {
  import opened Prelude
  import opened ExpenseModel
  import opened ExpenseMachine

  /** A step that commits an edit of expense `i`. */
  predicate EditsRow(t: Table, step: Step, i: nat)
    requires i < |t.rows|
  {
    && step.Commits? && step.request.expense == i && step.request.action.Edit?
    && GuardPasses(t.rows[i], step.request.seen.status)
  }

  /** The edits of expense `i` that a run commits, in order. */
  ghost function EditsOn(t: Table, steps: seq<Step>, i: nat): seq<Action>
    decreases |steps|
  {
    if steps == [] || i >= |t.rows| || !Enabled(t, steps[0]) then []
    else
      (if EditsRow(t, steps[0], i) then [steps[0].request.action] else [])
      + EditsOn(After(t, steps[0]), steps[1..], i)
  }

  /** The amount after some edits: the last one that set it, or the amount before. */
  function LastCents(edits: seq<Action>, before: int): int {
    if edits == [] then before
    else
      var last := edits[|edits| - 1];
      if last.Edit? && last.cents.Some? then last.cents.value else LastCents(edits[..|edits| - 1], before)
  }

  function LastPayer(edits: seq<Action>, before: int): int {
    if edits == [] then before
    else
      var last := edits[|edits| - 1];
      if last.Edit? && last.payer.Some? then last.payer.value else LastPayer(edits[..|edits| - 1], before)
  }

  /** The row with its amount and ratios as the edits leave them. */
  function Edited(row: Expense, edits: seq<Action>): Expense {
    row.(cents := LastCents(edits, row.cents), payer := LastPayer(edits, row.payer),
         other := WHOLE - LastPayer(edits, row.payer))
  }

  lemma {:induction false} LaterEditsWin(first: Action, rest: seq<Action>, before: int)
    requires first.Edit?
    ensures LastCents([first] + rest, before)
         == LastCents(rest, if first.cents.Some? then first.cents.value else before)
    ensures LastPayer([first] + rest, before)
         == LastPayer(rest, if first.payer.Some? then first.payer.value else before)
  {
    if rest == [] {
      assert [first] + rest == [first];
      assert [first][..0] == [];
    } else {
      LaterEditsWin(first, rest[..|rest| - 1], before);
      assert ([first] + rest)[..|rest|] == [first] + rest[..|rest| - 1];
    }
  }

  lemma OneEdit(edit: Action, cents: int, payer: int)
    requires edit.Edit?
    ensures LastCents([edit], cents) == if edit.cents.Some? then edit.cents.value else cents
    ensures LastPayer([edit], payer) == if edit.payer.Some? then edit.payer.value else payer
  {
    assert [edit][..0] == [];
  }

  /** A row that is pending after a step was pending before it, and only an edit of it changed it. */
  lemma PendingBackwards(t: Table, step: Step, i: nat)
    requires Inv(t) && Enabled(t, step) && i < |t.rows| && GuardPasses(After(t, step).rows[i], Pending)
    ensures GuardPasses(t.rows[i], Pending)
    ensures !EditsRow(t, step, i) ==> After(t, step).rows[i] == t.rows[i]
    ensures EditsRow(t, step, i) ==> After(t, step).rows[i] == Edited(t.rows[i], [step.request.action])
  {
    assert RecordInv(t, i);
    if step.Commits? {
      assert RequestInv(t, step.request);
      if EditsRow(t, step, i) {
        OneEdit(step.request.action, t.rows[i].cents, t.rows[i].payer);
      }
    }
  }

  lemma StepKeepsRequests(t: Table, step: Step)
    requires Enabled(t, step)
    ensures t.inFlight <= After(t, step).inFlight && |t.rows| <= |After(t, step).rows|
  {
  }

  /** While an expense stays pending, the row is the one it was with the edits committed since. */
  lemma {:induction false} PendingRowIsEdited(t: Table, steps: seq<Step>, t': Table, i: nat)
    requires Inv(t) && Runs(t, steps, t') && i < |t.rows| <= |t'.rows| && GuardPasses(t'.rows[i], Pending)
    ensures GuardPasses(t.rows[i], Pending) && t.inFlight <= t'.inFlight
    ensures t'.rows[i] == Edited(t.rows[i], EditsOn(t, steps, i))
    decreases |steps|
  {
    hide Inv;
    hide After;
    hide Enabled;
    hide EditsRow;
    hide LastCents;
    hide LastPayer;
    RatiosMakeWhole(t, i);
    if steps == [] {
      NoEdits(t.rows[i].cents, t.rows[i].payer);
    } else {
      var t1 := After(t, steps[0]);
      StepKeepsInv(t, steps[0]);
      StepKeepsRequests(t, steps[0]);
      RowsOnlyGrow(t1, steps[1..], t');
      PendingRowIsEdited(t1, steps[1..], t', i);
      PendingBackwards(t, steps[0], i);
      var rest := EditsOn(t1, steps[1..], i);
      if EditsRow(t, steps[0], i) {
        IsEdit(t, steps[0], i);
        EditedTwice(t.rows[i], steps[0].request.action, rest);
      } else {
        assert EditsOn(t, steps, i) == rest;
      }
    }
  }

  lemma IsEdit(t: Table, step: Step, i: nat)
    requires i < |t.rows| && EditsRow(t, step, i)
    ensures step.Commits? && step.request.action.Edit?
  {
  }

  lemma EditedTwice(row: Expense, first: Action, rest: seq<Action>)
    requires first.Edit?
    ensures Edited(Edited(row, [first]), rest) == Edited(row, [first] + rest)
  {
    LaterEditsWin(first, rest, row.cents);
    LaterEditsWin(first, rest, row.payer);
    LaterEditsWin(first, [], row.cents);
    LaterEditsWin(first, [], row.payer);
    assert [first] + [] == [first];
  }

  lemma NoEdits(cents: int, payer: int)
    ensures LastCents([], cents) == cents && LastPayer([], payer) == payer
  {
  }

  lemma RatiosMakeWhole(t: Table, i: nat)
    requires Inv(t) && i < |t.rows|
    ensures t.rows[i].payer + t.rows[i].other == WHOLE
  {
    assert RecordInv(t, i);
  }

  lemma {:induction false} RowsOnlyGrow(t: Table, steps: seq<Step>, t': Table)
    requires Runs(t, steps, t')
    ensures |t.rows| <= |t'.rows|
    decreases |steps|
  {
    hide After;
    hide Enabled;
    if steps != [] {
      StepKeepsRequests(t, steps[0]);
      RowsOnlyGrow(After(t, steps[0]), steps[1..], t');
    }
  }

  /**
   An approval, from the approver's read to its commit over any run between: if the guard
   passes, the row approved is the row read with the edits committed since. So the amount
   and the ratios approved are those the approver saw if and only if the last edit to set
   each, if there was one, set it to what was seen.
   */
  lemma ApprovalIsOfWhatWasSeenIff(t: Table, i: nat, user: UserId, members: seq<UserId>, at: Time,
                                   steps: seq<Step>, t': Table)
    requires Reachable(t) && Enabled(t, Reads(i, user, Approve, members, at))
    requires Runs(After(t, Reads(i, user, Approve, members, at)), steps, t')
    requires i < |t'.rows| && GuardPasses(t'.rows[i], Pending)
    ensures var seen := t.rows[i];
            var request := Request(i, user, Approve, seen, at);
            var edits := EditsOn(After(t, Reads(i, user, Approve, members, at)), steps, i);
            && Enabled(t', Commits(request))
            && var approved := Committed(t', request).rows[i];
               && approved.status == Approved && approved.approvedBy == Some(user)
               && approved == Edited(seen, edits).(status := Approved, approvedBy := Some(user), approvedAt := Some(at))
               && (approved.cents == seen.cents && approved.payer == seen.payer && approved.other == seen.other
                   <==> LastCents(edits, seen.cents) == seen.cents && LastPayer(edits, seen.payer) == seen.payer)
               && (edits == [] ==> t'.rows[i] == seen)
  {
    hide Inv;
    hide LastCents;
    hide LastPayer;
    var read := Reads(i, user, Approve, members, at);
    ReachableInv(t);
    StepKeepsInv(t, read);
    RatiosMakeWhole(t, i);
    RowsOnlyGrow(After(t, read), steps, t');
    PendingRowIsEdited(After(t, read), steps, t', i);
    NoEdits(t.rows[i].cents, t.rows[i].payer);
  }
}
