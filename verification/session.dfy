/**
 The drag session: the six fields the application keeps between the start
 of a drag gesture and its drop or end (`draggedTask`, `draggedFrom`,
 `draggedBoard`, `draggedColumn`, `draggedColumnIndex`, `draggedBoardId`),
 and the start and end handlers that set and clear them. `draggedBoard` is
 shared by task and column drags.
 */
module Session {
  import opened Kanban

  datatype Session = Session(
    draggedTask: Option<Task>,
    draggedFrom: Option<Slot>,
    draggedBoard: Option<BoardId>,
    draggedColumn: Option<ColumnId>,
    draggedColumnIndex: Option<nat>,
    draggedBoardId: Option<BoardId>)

  /** No gesture in progress: every field is null. */
  const Idle: Session := Session(None, None, None, None, None, None)

  /** Everything the drag handlers read and write. */
  datatype App = App(ws: Workspace, drag: Session)

  /** The gesture a session stands for, with the payload each kind needs. */
  datatype Gesture =
    | NoGesture
    | TaskGesture(task: Task, from: Slot)
    | ColumnGesture(column: ColumnId, board: BoardId, index: nat)
    | BoardGesture(board: BoardId)

  /** The element a drag starts on; its `dragend` event bubbles through the
      end handlers of the column and board that contain it. */
  datatype DragSource = TaskCard | ColumnCard | BoardCard

  /** The session fields while gesture `g` is in progress. */
  function Fields(g: Gesture): (s: Session)
    ensures g.NoGesture? <==> s == Idle
    ensures g.TaskGesture? <==> s.draggedTask.Some?
    ensures g.ColumnGesture? <==> s.draggedColumnIndex.Some?
    ensures g.BoardGesture? <==> s.draggedBoardId.Some?
  {
    match g
    case NoGesture => Idle
    case TaskGesture(t, f) => Idle.(draggedTask := Some(t), draggedFrom := Some(f), draggedBoard := Some(f.board))
    case ColumnGesture(c, b, i) => Idle.(draggedColumn := Some(c), draggedColumnIndex := Some(i), draggedBoard := Some(b))
    case BoardGesture(b) => Idle.(draggedBoardId := Some(b))
  }

  /** Distinct gestures have distinct sessions, so a session determines its gesture. */
  lemma FieldsInjective(g: Gesture, h: Gesture)
    requires Fields(g) == Fields(h)
    ensures g == h
  {
    match g
    case NoGesture =>
    case TaskGesture(t, f) =>
      assert Fields(h).draggedFrom == Some(f);
    case ColumnGesture(c, b, i) =>
      assert Fields(h).draggedColumn == Some(c) && Fields(h).draggedBoard == Some(b);
    case BoardGesture(b) =>
  }

  /** `handleDragStart(e, task, boardId, columnId)` on a task card. */
  function TaskDragStart(s: Session, t: Task, b: BoardId, c: ColumnId): (r: Session)
    ensures s == Idle ==> r == Fields(TaskGesture(t, Slot(b, c)))
    ensures r.draggedTask == Some(t) && r.draggedFrom == Some(Slot(b, c)) && r.draggedBoard == Some(b)
    ensures r.draggedColumn == s.draggedColumn && r.draggedColumnIndex == s.draggedColumnIndex
    ensures r.draggedBoardId == s.draggedBoardId
  {
    s.(draggedTask := Some(t), draggedFrom := Some(Slot(b, c)), draggedBoard := Some(b))
  }

  /** `handleColumnDragStart(e, columnId, boardId, index)`. */
  function ColumnDragStart(s: Session, c: ColumnId, b: BoardId, index: nat): (r: Session)
    ensures s == Idle ==> r == Fields(ColumnGesture(c, b, index))
    ensures r.draggedColumn == Some(c) && r.draggedColumnIndex == Some(index) && r.draggedBoard == Some(b)
    ensures r.draggedTask == s.draggedTask && r.draggedFrom == s.draggedFrom
    ensures r.draggedBoardId == s.draggedBoardId
  {
    s.(draggedColumn := Some(c), draggedColumnIndex := Some(index), draggedBoard := Some(b))
  }

  /** `handleBoardDragStart(e, boardId)`. */
  function BoardDragStart(s: Session, b: BoardId): (r: Session)
    ensures s == Idle ==> r == Fields(BoardGesture(b))
    ensures r.draggedBoardId == Some(b)
    ensures r.(draggedBoardId := s.draggedBoardId) == s
  {
    s.(draggedBoardId := Some(b))
  }

  /** `handleColumnDragEnd`: clears the column fields and the shared `draggedBoard`. */
  function ColumnDragEnd(s: Session): (r: Session)
    ensures r.draggedColumn.None? && r.draggedColumnIndex.None? && r.draggedBoard.None?
    ensures r.draggedTask == s.draggedTask && r.draggedFrom == s.draggedFrom
    ensures r.draggedBoardId == s.draggedBoardId
  {
    s.(draggedColumn := None, draggedColumnIndex := None, draggedBoard := None)
  }

  /** `handleBoardDragEnd`. */
  function BoardDragEnd(s: Session): (r: Session)
    ensures r.draggedBoardId.None?
    ensures r.(draggedBoardId := s.draggedBoardId) == s
  {
    s.(draggedBoardId := None)
  }

  /** The task fields a drop clears. */
  function ClearTaskDrag(s: Session): (r: Session)
    ensures r.draggedTask.None? && r.draggedFrom.None? && r.draggedBoard.None?
    ensures r.draggedColumn == s.draggedColumn && r.draggedColumnIndex == s.draggedColumnIndex
    ensures r.draggedBoardId == s.draggedBoardId
  {
    s.(draggedTask := None, draggedFrom := None, draggedBoard := None)
  }

  /** The `dragend` of a gesture as the application handles it: task cards
      have no end handler of their own, so the event only reaches the end
      handlers of the enclosing column and board, and the task fields survive. */
  function DragEndAsWritten(s: Session, src: DragSource): (r: Session)
    ensures r.draggedBoardId.None?
    ensures src != BoardCard ==> r.draggedColumn.None? && r.draggedColumnIndex.None? && r.draggedBoard.None?
    ensures r.draggedTask == s.draggedTask && r.draggedFrom == s.draggedFrom
    ensures src == BoardCard ==> r.(draggedBoardId := s.draggedBoardId) == s
  {
    match src
    case TaskCard => BoardDragEnd(ColumnDragEnd(s))
    case ColumnCard => BoardDragEnd(ColumnDragEnd(s))
    case BoardCard => BoardDragEnd(s)
  }

  /** The `dragend` of a gesture with the task fields cleared when a task card's
      drag ends, so that a task drag released outside every drop target leaves
      no session behind. */
  function DragEnd(s: Session, src: DragSource): (r: Session)
    ensures r.draggedBoardId.None?
    ensures src != BoardCard ==> r.draggedColumn.None? && r.draggedColumnIndex.None? && r.draggedBoard.None?
    ensures src == TaskCard ==> r == Idle
    ensures src != TaskCard ==> r == DragEndAsWritten(s, src)
  {
    match src
    case TaskCard => ClearTaskDrag(DragEndAsWritten(s, src))
    case _ => DragEndAsWritten(s, src)
  }

  /** Every gesture that was started from an idle session, ended by the
      `dragend` of the element it started on, leaves the session idle. */
  lemma GestureEndIsIdle(g: Gesture, src: DragSource)
    requires g.TaskGesture? ==> src == TaskCard
    requires g.ColumnGesture? ==> src == ColumnCard
    requires g.BoardGesture? ==> src == BoardCard
    ensures DragEnd(Fields(g), src) == Idle
  {
  }

  /** The application as written leaves an aborted task drag behind: after the
      `dragend` of a task card that was dropped nowhere, the task and its origin
      are still recorded. */
  lemma AbortedTaskDragLingersAsWritten(t: Task, from: Slot)
    ensures DragEndAsWritten(Fields(TaskGesture(t, from)), TaskCard) != Idle
    ensures DragEndAsWritten(Fields(TaskGesture(t, from)), TaskCard).draggedTask == Some(t)
  {
  }
}
