/** A client of the task store: a short session of three tasks, split into
    steps that each start from the state the previous one leaves. The
    asserts about the outcomes and the new state follow from the operations'
    contracts; the asserts about `Filter`, `Strip` and `Displayable` on the
    small literal lists evaluate those functions step by step. */
module Scenario {
  import opened Util
  import opened PyStr
  import opened TodoApp

  const Today := "2024-05-01"
  const Noon := "2024-05-01 12:00"

  const A := Task(1, "A", false, HIGH, Today, None)
  const B := Task(2, "B", false, MEDIUM, Today, None)
  const C := Task(3, "C", false, LOW, Today, None)
  const BDone := B.(completed := true, completedAt := Some(Noon))

  /** Adding a blank description to an empty store is refused and changes
      nothing. */
  method AddBlank() {
    var app := new CLITodoApp.Load(None);
    assert Strip("   ") == [];
    var blank := app.AddTask("   ", "1", Today);
    assert blank == EmptyDescription && app.tasks == [] && app.nextId == 1;
  }

  /** "A" with choice "1" added to an empty store gets id 1 and priority
      high. */
  method AddA() {
    var app := new CLITodoApp.Load(None);
    assert Strip("A") == "A" && Strip("1") == "1";
    var a := app.AddTask("A", "1", Today);
    assert a == Added(1) && app.tasks == [A] && app.nextId == 2;
  }

  /** " B " with choice "2" added after "A" is stripped to "B" and gets id 2
      and priority medium. */
  method AddB() {
    var app := new CLITodoApp.Load(Some(SavedData(Some([A]), Some(2))));
    assert Strip(" B ") == "B" && Strip("2") == "2";
    var b := app.AddTask(" B ", "2", Today);
    assert b == Added(2) && app.tasks == [A, B] && app.nextId == 3;
  }

  /** "C" with the unrecognised choice "9" gets priority medium. */
  method AddWithUnknownChoice() {
    var app := new CLITodoApp.Load(Some(SavedData(Some([A, B]), Some(3))));
    assert Strip("C") == "C" && Strip("9") == "9";
    var c := app.AddTask("C", "9", Today);
    assert c == Added(3) && app.tasks == [A, B, C.(priority := MEDIUM)] && app.nextId == 4;
  }

  /** Completing "B" once stamps it; a second attempt reports it as already
      completed, and an unknown id is not found. */
  method CompleteB() {
    var app := new CLITodoApp.Load(Some(SavedData(Some([A, B, C]), Some(4))));
    assert Displayable([A, B, C], false) && Displayable([A, BDone, C], false);
    var done := app.MarkCompleted(2, Noon);
    assert done == Done && app.tasks == [A, BDone, C];
    var again := app.MarkCompleted(2, "2024-05-02 09:00");
    assert again == AlreadyCompleted && app.tasks == [A, BDone, C];
    var missing := app.MarkCompleted(7, Noon);
    assert missing == NotFound && app.tasks == [A, BDone, C];
  }

  /** With "B" completed: three tasks, one completed, two pending, one
      pending high and one pending low. */
  method StatisticsAfterCompletingB() {
    var app := new CLITodoApp.Load(Some(SavedData(Some([A, BDone, C]), Some(4))));
    var stats := app.ShowStatistics();
    var s := [A, BDone, C];
    assert s[1..] == [BDone, C] && s[1..][1..] == [C] && [C][1..] == [];
    assert Filter([C], IsCompleted) == [];
    assert Filter([BDone, C], IsCompleted) == [BDone];
    assert Filter(s, IsCompleted) == [BDone];
    assert Filter([C], PendingWith(HIGH)) == [];
    assert Filter([BDone, C], PendingWith(HIGH)) == [];
    assert Filter(s, PendingWith(HIGH)) == [A];
    assert Filter([C], PendingWith(MEDIUM)) == [];
    assert Filter([BDone, C], PendingWith(MEDIUM)) == [];
    assert Filter(s, PendingWith(MEDIUM)) == [];
    assert Filter([C], PendingWith(LOW)) == [C];
    assert Filter([BDone, C], PendingWith(LOW)) == [C];
    assert Filter(s, PendingWith(LOW)) == [C];
    assert stats.total == 3 && stats.completed == 1 && stats.pending == 2;
    assert stats.rate == Rate(100, 3);
    assert stats.pendingByPriority == Some(PriorityCounts(1, 0, 1));
  }

  /** Clearing: a refused confirmation keeps everything, a confirmed one
      removes "B" only, and a second clear finds nothing to do. */
  method ClearTwice() {
    var app := new CLITodoApp.Load(Some(SavedData(Some([A, BDone, C]), Some(4))));
    var s := [A, BDone, C];
    assert s[1..] == [BDone, C] && s[1..][1..] == [C] && [C][1..] == [] && [A, C][1..] == [C];
    assert Filter([C], IsCompleted) == [];
    assert Filter([BDone, C], IsCompleted) == [BDone];
    assert Filter(s, IsCompleted) == [BDone];
    assert Filter([C], IsPending) == [C];
    assert Filter([BDone, C], IsPending) == [C];
    assert Filter(s, IsPending) == [A, C];
    assert Filter([A, C], IsCompleted) == [];
    assert Displayable([BDone], true);
    ConfirmsSpec("n");
    var refused := app.ClearCompleted("n");
    assert refused == NotConfirmed && app.tasks == [A, BDone, C];
    var cleared := app.ClearCompleted("y");
    assert cleared == Cleared(1) && app.tasks == [A, C];
    var none := app.ClearCompleted("Y");
    assert none == NothingToClear && app.tasks == [A, C];
  }

  /** Deleting "A" keeps "B" and "C" in order and leaves the counter alone;
      deleting it again finds nothing. */
  method DeleteA() {
    var app := new CLITodoApp.Load(Some(SavedData(Some([A, B, C]), Some(4))));
    assert Displayable([A, B, C], true) && Displayable([B, C], true);
    var deleted := app.DeleteTask(1, "y");
    assert deleted == Done && app.tasks == [B, C] && app.nextId == 4;
    var again := app.DeleteTask(1, "y");
    assert again == NotFound;
  }
}
