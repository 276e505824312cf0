/**
 Dropping a dragged task onto a column (`handleDrop`): the task leaves the
 column it was dragged from and is appended to the column it is dropped on,
 possibly on another board. A drop onto the column the drag started from
 changes nothing but the session.
 */
module TaskMove {
  import opened Kanban
  import opened Session
  import opened TaskStore

  /** Boards, board order, column orders and all non-task fields are as in `w`;
      so is every task list except possibly those of slots `s1` and `s2`. */
  predicate OnlySlotsChanged(w: Workspace, r: Workspace, s1: Slot, s2: Slot) {
    && r.boardOrder == w.boardOrder
    && r.boards.Keys == w.boards.Keys
    && forall b :: b in w.boards ==>
      && r.boards[b].(tasks := w.boards[b].tasks) == w.boards[b]
      && r.boards[b].tasks.Keys == w.boards[b].tasks.Keys
      && forall c :: c in w.boards[b].tasks && Slot(b, c) != s1 && Slot(b, c) != s2 ==>
        r.boards[b].tasks[c] == w.boards[b].tasks[c]
  }

  function SlotFault(w: Workspace, s: Slot): Fault {
    if s.board !in w.boards then MissingBoard(s.board) else MissingColumn(s.board, s.column)
  }

  /** The move `handleDrop` performs between two distinct slots: filter the
      task's id out of the origin list, then append the task to the target
      list. Reading a missing board or column fails. */
  function MoveTask(w: Workspace, from: Slot, to: Slot, t: Task): (r: Result<Workspace>)
    requires from != to
    ensures r.Ok? <==> HasSlot(w, from.board, from.column) && HasSlot(w, to.board, to.column)
    ensures r.Ok? ==>
      && OnlySlotsChanged(w, r.value, from, to)
      && Column(r.value, from.board, from.column) == WithoutId(Column(w, from.board, from.column), t.id)
      && Column(r.value, to.board, to.column) == Column(w, to.board, to.column) + [t]
    ensures r.Ok? && WellFormed(w) ==> WellFormed(r.value)
  {
    if !HasSlot(w, from.board, from.column) then Err(SlotFault(w, from))
    else
      var w1 := SetColumn(w, from.board, from.column, WithoutId(Column(w, from.board, from.column), t.id));
      if !HasSlot(w1, to.board, to.column) then Err(SlotFault(w1, to))
      else
        var w2 := SetColumn(w1, to.board, to.column, Column(w1, to.board, to.column) + [t]);
        SlotChangeKeepsWellFormed(w, w1, from.board, from.column);
        SlotChangeKeepsWellFormed(w1, w2, to.board, to.column);
        TwoSlotFrame(w, w1, w2, from, to);
        Ok(w2)
  }

  /** Two single-slot changes in a row change at most those two slots. */
  lemma TwoSlotFrame(w: Workspace, w1: Workspace, w2: Workspace, s1: Slot, s2: Slot)
    requires OnlySlotChanged(w, w1, s1.board, s1.column)
    requires OnlySlotChanged(w1, w2, s2.board, s2.column)
    ensures OnlySlotsChanged(w, w2, s1, s2)
  {
    forall b | b in w.boards
      ensures w2.boards[b].(tasks := w.boards[b].tasks) == w.boards[b]
    {
    }
  }

  /** `handleDrop(e, targetBoardId, targetColumnId)`. */
  function Drop(app: App, tb: BoardId, tc: ColumnId): (r: Result<App>)
    ensures app.drag.draggedTask.None? || app.drag.draggedFrom.None? ==> r == Ok(app)
    ensures app.drag.draggedTask.Some? && app.drag.draggedFrom == Some(Slot(tb, tc)) ==>
      r == Ok(App(app.ws, ClearTaskDrag(app.drag)))
    ensures app.drag.draggedTask.Some? && app.drag.draggedFrom.Some? && app.drag.draggedFrom != Some(Slot(tb, tc)) ==>
      var from := app.drag.draggedFrom.value;
      var t := app.drag.draggedTask.value;
      && (r.Ok? <==> HasSlot(app.ws, from.board, from.column) && HasSlot(app.ws, tb, tc))
      && (r.Ok? ==>
        && r.value.drag == ClearTaskDrag(app.drag)
        && OnlySlotsChanged(app.ws, r.value.ws, from, Slot(tb, tc))
        && Column(r.value.ws, from.board, from.column) == WithoutId(Column(app.ws, from.board, from.column), t.id)
        && Column(r.value.ws, tb, tc) == Column(app.ws, tb, tc) + [t])
    ensures r.Ok? && WellFormed(app.ws) ==> WellFormed(r.value.ws)
  {
    var s := app.drag;
    if s.draggedTask.None? || s.draggedFrom.None? then Ok(app)
    else if s.draggedFrom == Some(Slot(tb, tc)) then Ok(App(app.ws, ClearTaskDrag(s)))
    else
      match MoveTask(app.ws, s.draggedFrom.value, Slot(tb, tc), s.draggedTask.value)
      case Ok(w) => Ok(App(w, ClearTaskDrag(s)))
      case Err(f) => Err(f)
  }

  /** A move between two slots conserves the workspace's task count exactly
      when the dragged task's id occurred once in its origin column; in general
      the count drops by the number of origin tasks with that id and gains one. */
  lemma DropConserves(app: App, tb: BoardId, tc: ColumnId)
    requires app.drag.draggedTask.Some? && app.drag.draggedFrom.Some?
    requires Drop(app, tb, tc).Ok?
    ensures var from := app.drag.draggedFrom.value;
      app.drag.draggedFrom != Some(Slot(tb, tc)) ==>
      WorkspaceTasks(Drop(app, tb, tc).value.ws)
        == WorkspaceTasks(app.ws) - CountId(Column(app.ws, from.board, from.column), app.drag.draggedTask.value.id) + 1
    ensures WorkspaceTasks(Drop(app, tb, tc).value.ws) == WorkspaceTasks(app.ws)
      <== app.drag.draggedFrom == Some(Slot(tb, tc))
        || CountId(Column(app.ws, app.drag.draggedFrom.value.board, app.drag.draggedFrom.value.column), app.drag.draggedTask.value.id) == 1
  {
    var from := app.drag.draggedFrom.value;
    var t := app.drag.draggedTask.value;
    if app.drag.draggedFrom != Some(Slot(tb, tc)) {
      var src := Column(app.ws, from.board, from.column);
      var w1 := SetColumn(app.ws, from.board, from.column, WithoutId(src, t.id));
      SetColumnCount(app.ws, from.board, from.column, WithoutId(src, t.id));
      SetColumnCount(w1, tb, tc, Column(w1, tb, tc) + [t]);
      assert Drop(app, tb, tc).value.ws == SetColumn(w1, tb, tc, Column(w1, tb, tc) + [t]);
    }
  }

  /** With unique ids (the task is not yet in the target column) the task ends
      up exactly once in the target column, in last place, and nowhere in its
      origin column. */
  lemma DropPlacesOnce(app: App, tb: BoardId, tc: ColumnId)
    requires app.drag.draggedTask.Some? && app.drag.draggedFrom.Some?
    requires app.drag.draggedFrom != Some(Slot(tb, tc))
    requires Drop(app, tb, tc).Ok?
    requires CountId(Column(app.ws, tb, tc), app.drag.draggedTask.value.id) == 0
    ensures var from := app.drag.draggedFrom.value;
      var t := app.drag.draggedTask.value;
      var w := Drop(app, tb, tc).value.ws;
      && CountId(Column(w, from.board, from.column), t.id) == 0
      && CountId(Column(w, tb, tc), t.id) == 1
      && Column(w, tb, tc)[|Column(w, tb, tc)| - 1] == t
  {
    var t := app.drag.draggedTask.value;
    var w := Drop(app, tb, tc).value.ws;
    CountIdAppend(Column(app.ws, tb, tc), [t], t.id);
  }

  lemma {:induction false} CountIdAppend(a: seq<Task>, b: seq<Task>, id: TaskId)
    ensures CountId(a + b, id) == CountId(a, id) + CountId(b, id)
  {
    if |a| > 0 {
      assert (a + b)[0] == a[0];
      assert (a + b)[1..] == a[1..] + b;
      CountIdAppend(a[1..], b, id);
    } else {
      assert a + b == b;
    }
  }
}
