/**
 Live reordering while dragging: `handleColumnDragOver` moves the dragged
 column of one board to the column the pointer is over and tracks its new
 index; `handleBoardDragOver` moves the dragged board to the place of the
 board the pointer is over. Both are splice moves (remove, then insert).
 */
module Reorder {
  import opened Splice
  import opened Kanban
  import opened Session

  /** The board is as in `old_` except possibly for its column order. */
  predicate OnlyColumnOrderChanged(old_: Board, new_: Board) {
    new_.(columnOrder := old_.columnOrder) == old_
  }

  /** The column order of board `b` with the column at index `i` splice-moved
      to `targetIndex`; nothing else changes. */
  function MoveColumn(ws: Workspace, b: BoardId, i: nat, targetIndex: nat): (r: Workspace)
    requires b in ws.boards && i < |ws.boards[b].columnOrder|
    ensures b in r.boards && OnlyBoardChanged(ws, r, b)
    ensures OnlyColumnOrderChanged(ws.boards[b], r.boards[b])
    ensures var order := ws.boards[b].columnOrder;
      var order' := r.boards[b].columnOrder;
      && order' == Move(order, i, targetIndex)
      && multiset(order') == multiset(order)
      && (targetIndex < |order| ==> order'[targetIndex] == order[i])
  {
    var bd := ws.boards[b];
    MovePermutes(bd.columnOrder, i, targetIndex);
    ws.(boards := ws.boards[b := bd.(columnOrder := Move(bd.columnOrder, i, targetIndex))])
  }

  /** Moving a column keeps the workspace well formed. */
  lemma MoveColumnKeepsWellFormed(ws: Workspace, b: BoardId, i: nat, targetIndex: nat)
    requires b in ws.boards && i < |ws.boards[b].columnOrder|
    requires WellFormed(ws)
    ensures WellFormed(MoveColumn(ws, b, i, targetIndex))
  {
    ColumnMoveKeepsBoardWellFormed(ws.boards[b], i, targetIndex);
  }

  lemma ColumnMoveKeepsBoardWellFormed(bd: Board, i: nat, targetIndex: nat)
    requires i < |bd.columnOrder| && BoardWellFormed(bd)
    ensures BoardWellFormed(bd.(columnOrder := Move(bd.columnOrder, i, targetIndex)))
  {
    MoveKeepsDistinct(bd.columnOrder, i, targetIndex);
  }

  /** `handleColumnDragOver(e, targetIndex, boardId)`. */
  function ColumnDragOver(app: App, targetIndex: nat, b: BoardId): (r: Result<App>)
    ensures var s := app.drag;
      s.draggedColumnIndex.None? || s.draggedColumnIndex == Some(targetIndex) || s.draggedBoard != Some(b)
      ==> r == Ok(app)
    ensures var s := app.drag;
      && s.draggedColumnIndex.Some? && s.draggedColumnIndex != Some(targetIndex) && s.draggedBoard == Some(b)
      && b in app.ws.boards && s.draggedColumnIndex.value < |app.ws.boards[b].columnOrder|
      ==> r == Ok(App(MoveColumn(app.ws, b, s.draggedColumnIndex.value, targetIndex),
                      s.(draggedColumnIndex := Some(targetIndex))))
    ensures r.Ok? && r.value != app ==>
      && app.drag.draggedBoard == Some(b)
      && b in app.ws.boards && OnlyBoardChanged(app.ws, r.value.ws, b)
      && OnlyColumnOrderChanged(app.ws.boards[b], r.value.ws.boards[b])
      && app.drag.draggedColumnIndex.Some?
      && r.value.drag == app.drag.(draggedColumnIndex := Some(targetIndex))
      && (var i := app.drag.draggedColumnIndex.value;
          var order := app.ws.boards[b].columnOrder;
          var order' := r.value.ws.boards[b].columnOrder;
          && i != targetIndex && i < |order|
          && order' == Move(order, i, targetIndex)
          && multiset(order') == multiset(order)
          && (targetIndex < |order| ==> order'[targetIndex] == order[i]))
    ensures r.Err? <==>
      && app.drag.draggedColumnIndex.Some? && app.drag.draggedColumnIndex != Some(targetIndex)
      && app.drag.draggedBoard == Some(b)
      && (b !in app.ws.boards || app.drag.draggedColumnIndex.value >= |app.ws.boards[b].columnOrder|)
    ensures r.Ok? && WellFormed(app.ws) ==> WellFormed(r.value.ws)
  {
    var s := app.drag;
    if s.draggedColumnIndex.None? || s.draggedColumnIndex == Some(targetIndex) || s.draggedBoard != Some(b) then
      Ok(app)
    else if b !in app.ws.boards then Err(MissingBoard(b))
    else
      var i := s.draggedColumnIndex.value;
      if i >= |app.ws.boards[b].columnOrder| then Err(ColumnIndexOutOfRange(b, i))
      else
        assert WellFormed(app.ws) ==> WellFormed(MoveColumn(app.ws, b, i, targetIndex)) by {
          if WellFormed(app.ws) {
            MoveColumnKeepsWellFormed(app.ws, b, i, targetIndex);
          }
        }
        Ok(App(MoveColumn(app.ws, b, i, targetIndex), s.(draggedColumnIndex := Some(targetIndex))))
  }

  /** During a column drag the tracked index always points at the dragged column. */
  predicate Tracks(app: App) {
    var s := app.drag;
    && s.draggedColumn.Some? && s.draggedColumnIndex.Some? && s.draggedBoard.Some?
    && s.draggedBoard.value in app.ws.boards
    && var order := app.ws.boards[s.draggedBoard.value].columnOrder;
    && s.draggedColumnIndex.value < |order|
    && order[s.draggedColumnIndex.value] == s.draggedColumn.value
  }

  /** Starting a column drag from its rendered position sets up the tracking. */
  lemma ColumnDragStartTracks(w: Workspace, b: BoardId, index: nat)
    requires b in w.boards && index < |w.boards[b].columnOrder|
    ensures Tracks(App(w, ColumnDragStart(Idle, w.boards[b].columnOrder[index], b, index)))
  {
  }

  /** Each drag-over within the board keeps the dragged column at the tracked
      index, so a run of drag-overs moves the same column step by step. */
  lemma ColumnDragOverTracks(app: App, targetIndex: nat, b: BoardId)
    requires Tracks(app)
    requires b in app.ws.boards && targetIndex < |app.ws.boards[b].columnOrder|
    ensures ColumnDragOver(app, targetIndex, b).Ok?
    ensures Tracks(ColumnDragOver(app, targetIndex, b).value)
  {
    var r := ColumnDragOver(app, targetIndex, b);
    if r.value != app {
      assert r.value.drag.draggedBoard == Some(b);
    }
  }

  /** `!draggedBoardId`: no board is being dragged (null or the empty id). */
  predicate NoBoardDragged(s: Session) {
    s.draggedBoardId.None? || s.draggedBoardId == Some("")
  }

  /** `handleBoardDragOver(e, targetBoardId)`: `indexOf` finds the positions
      of the dragged and the target board (-1 when absent), and `splice`
      removes and re-inserts the dragged id. */
  function BoardDragOver(app: App, target: BoardId): (r: App)
    ensures NoBoardDragged(app.drag) || app.drag.draggedBoardId == Some(target) ==> r == app
    ensures r.drag == app.drag && r.ws.boards == app.ws.boards
    ensures !NoBoardDragged(app.drag) && app.drag.draggedBoardId != Some(target) ==>
      |r.ws.boardOrder| == (if app.ws.boardOrder == [] then 1 else |app.ws.boardOrder|)
  {
    var s := app.drag;
    if NoBoardDragged(s) || s.draggedBoardId == Some(target) then app
    else
      var d := s.draggedBoardId.value;
      var order := app.ws.boardOrder;
      var current := IndexOf(order, d);
      var targetIndex := IndexOf(order, target);
      var order' := SpliceInsert(SpliceRemove(order, current), targetIndex, d);
      app.(ws := app.ws.(boardOrder := order'))
  }

  /** When both boards are listed, a board drag-over is a splice move that
      puts the dragged board where the target board was: a permutation of the
      board order, with the boards themselves untouched. */
  lemma BoardDragOverMoves(app: App, target: BoardId)
    requires !NoBoardDragged(app.drag) && app.drag.draggedBoardId != Some(target)
    requires app.drag.draggedBoardId.value in app.ws.boardOrder && target in app.ws.boardOrder
    ensures var order := app.ws.boardOrder;
      var order' := BoardDragOver(app, target).ws.boardOrder;
      && order' == Move(order, IndexOf(order, app.drag.draggedBoardId.value), IndexOf(order, target))
      && multiset(order') == multiset(order)
      && order'[IndexOf(order, target)] == app.drag.draggedBoardId.value
  {
    var order := app.ws.boardOrder;
    var d := app.drag.draggedBoardId.value;
    MovePermutes(order, IndexOf(order, d), IndexOf(order, target));
  }

  /** A board drag-over between two listed boards keeps the board order a
      duplicate-free listing of exactly the boards. */
  lemma BoardDragOverKeepsWellFormed(app: App, target: BoardId)
    requires WellFormed(app.ws)
    requires app.drag.draggedBoardId.Some? ==> app.drag.draggedBoardId.value in app.ws.boards
    requires target in app.ws.boards
    ensures WellFormed(BoardDragOver(app, target).ws)
  {
    var s := app.drag;
    if !(NoBoardDragged(s) || s.draggedBoardId == Some(target)) {
      var order := app.ws.boardOrder;
      var d := s.draggedBoardId.value;
      BoardDragOverMoves(app, target);
      MoveKeepsDistinct(order, IndexOf(order, d), IndexOf(order, target));
    }
  }

  /** The splice-versus-swap example on the board order: dragging the first of four
      boards over the third gives `[B, C, A, D]`. */
  lemma BoardDragOverExample()
    ensures BoardDragOver(App(Workspace(map[], ["A", "B", "C", "D"]), Idle.(draggedBoardId := Some("A"))), "C").ws.boardOrder
      == ["B", "C", "A", "D"]
  {
    var order: seq<BoardId> := ["A", "B", "C", "D"];
    assert IndexOf(order, "A") == 0;
    assert IndexOf(order, "C") == 2 by {
      assert order[..2] == ["A", "B"];
      assert "C" !in order[..2];
    }
    assert SpliceRemove(order, 0) == order[..0] + order[1..];
    assert order[1..] == ["B", "C", "D"];
    assert SpliceInsert(["B", "C", "D"], 2, "A") == ["B", "C", "A", "D"];
  }
}
