/**
 Whole drag gestures: a start handler, the drag-over and drop handlers the
 pointer triggers, and the `dragend` of the dragged element. Every gesture
 must leave the session idle, whether or not it ended on a drop target;
 otherwise a later gesture's drop acts on a task that is no longer dragged.
 */
module Gestures {
  import opened Kanban
  import opened Session
  import opened TaskStore
  import opened TaskMove
  import opened Reorder

  /** A task gesture that ends in a drop leaves the session idle, with the
      `dragend` handling of the application as written as well as corrected. */
  lemma TaskDropThenEndIsIdle(w: Workspace, t: Task, from: Slot, tb: BoardId, tc: ColumnId)
    requires Drop(App(w, Fields(TaskGesture(t, from))), tb, tc).Ok?
    ensures var s := Drop(App(w, Fields(TaskGesture(t, from))), tb, tc).value.drag;
      DragEndAsWritten(s, TaskCard) == Idle && DragEnd(s, TaskCard) == Idle
  {
  }

  /** A drop while a column or a board is dragged from an idle session moves no task. */
  lemma NonTaskDropIsNoOp(w: Workspace, g: Gesture, tb: BoardId, tc: ColumnId)
    requires g.ColumnGesture? || g.BoardGesture?
    ensures Drop(App(w, Fields(g)), tb, tc) == Ok(App(w, Fields(g)))
  {
  }

  /** With the corrected `dragend`, whatever gesture came before, a column drag
      that is dropped onto a task list leaves every task where it was. */
  lemma ColumnDragAfterAnyGestureMovesNoTask(w: Workspace, g: Gesture, src: DragSource,
                                             c: ColumnId, b: BoardId, index: nat, tb: BoardId, tc: ColumnId)
    requires g.TaskGesture? ==> src == TaskCard
    requires g.ColumnGesture? ==> src == ColumnCard
    requires g.BoardGesture? ==> src == BoardCard
    ensures var s := ColumnDragStart(DragEnd(Fields(g), src), c, b, index);
      Drop(App(w, s), tb, tc) == Ok(App(w, s))
  {
    GestureEndIsIdle(g, src);
  }

  const StaleTask: Task := Task(1, "Write report", "1/2/2025")

  /** The workspace of the scenario: one task in the `todo` column of `work`. */
  const OneTaskWorkspace: Workspace := SetColumn(InitialWorkspace, "work", "todo", [StaleTask])

  /** The application as written: a task drag released outside every drop target,
      followed by a drag of a column of `life` that is carried over the `work`
      board and released over the task list of `inprogress`. On the way, the
      column drag-over handlers of `work` leave its column order alone, because
      the dragged column belongs to another board; the drop then moves the
      stale task out of `todo` into `inprogress` although no task was dragged
      the second time. */
  lemma StaleTaskMovedByColumnDragAsWritten()
    ensures var s1 := TaskDragStart(Idle, StaleTask, "work", "todo");
      var s2 := DragEndAsWritten(s1, TaskCard);
      var s3 := ColumnDragStart(s2, "done", "life", 2);
      && (forall i: nat :: ColumnDragOver(App(OneTaskWorkspace, s3), i, "work") == Ok(App(OneTaskWorkspace, s3)))
      && var r := Drop(App(OneTaskWorkspace, s3), "work", "inprogress");
      && r.Ok?
      && Column(r.value.ws, "work", "todo") == []
      && Column(r.value.ws, "work", "inprogress") == [StaleTask]
  {
    var s1 := TaskDragStart(Idle, StaleTask, "work", "todo");
    var s2 := DragEndAsWritten(s1, TaskCard);
    var s3 := ColumnDragStart(s2, "done", "life", 2);
    assert s3.draggedTask == Some(StaleTask);
    assert s3.draggedFrom == Some(Slot("work", "todo"));
    assert s3.draggedBoard != Some("work") by {
      assert "life"[0] != "work"[0];
    }
    assert Slot("work", "todo") != Slot("work", "inprogress") by {
      assert "todo"[0] != "inprogress"[0];
    }
    assert Column(OneTaskWorkspace, "work", "todo") == [StaleTask];
    assert HasSlot(OneTaskWorkspace, "work", "inprogress");
    assert Column(OneTaskWorkspace, "work", "inprogress") == [];
    assert WithoutId([StaleTask], StaleTask.id) == [];
  }
}
