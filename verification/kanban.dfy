/**
 The state of the kanban application: a workspace of boards, each holding a
 fixed set of columns (slots keyed by id) with their task lists, titles,
 display order and view state, and the order in which boards are shown.
 The two built-in boards `work` and `life` are the initial state.
 */
module Kanban {
  import opened Splice
  import opened Tally

  type BoardId = string
  type ColumnId = string
  /** Task ids are the millisecond clock reading taken when the task was added. */
  type TaskId = int

  datatype Option<T> = None | Some(value: T)

  /** What makes an update throw in the application: reading a field of a
      board or a column that is not there. */
  datatype Fault =
    | MissingBoard(board: BoardId)
    | MissingColumn(board: BoardId, column: ColumnId)
    | ColumnIndexOutOfRange(board: BoardId, index: nat)

  datatype Result<T> = Ok(value: T) | Err(fault: Fault)

  datatype Task = Task(id: TaskId, text: string, createdAt: string)

  datatype Board = Board(
    title: string,
    tasks: map<ColumnId, seq<Task>>,
    columnOrder: seq<ColumnId>,
    columnTitles: map<ColumnId, string>,
    collapsed: bool,
    height: int)

  datatype Workspace = Workspace(boards: map<BoardId, Board>, boardOrder: seq<BoardId>)

  /** A task's container: a column of a board. */
  datatype Slot = Slot(board: BoardId, column: ColumnId)

  // ----- Initial state -----

  const DefaultColumnOrder: seq<ColumnId> := ["todo", "inprogress", "done"]

  const EmptyColumns: map<ColumnId, seq<Task>> := map["todo" := [], "inprogress" := [], "done" := []]

  const DefaultHeight: int := 400

  const WorkBoard: Board := Board(
    "Work", EmptyColumns, DefaultColumnOrder,
    map["todo" := "To Do", "inprogress" := "In Progress", "done" := "Done"],
    false, DefaultHeight)

  const LifeBoard: Board := Board(
    "Life", EmptyColumns, DefaultColumnOrder,
    map["todo" := "Personal", "inprogress" := "Doing", "done" := "Completed"],
    false, DefaultHeight)

  const DefaultBoardOrder: seq<BoardId> := ["work", "life"]

  const InitialWorkspace: Workspace :=
    Workspace(map["work" := WorkBoard, "life" := LifeBoard], DefaultBoardOrder)

  // ----- Slots -----

  predicate HasSlot(w: Workspace, b: BoardId, c: ColumnId) {
    b in w.boards && c in w.boards[b].tasks
  }

  function Column(w: Workspace, b: BoardId, c: ColumnId): seq<Task>
    requires HasSlot(w, b, c)
  {
    w.boards[b].tasks[c]
  }

  /** The workspace with the task list of one slot replaced, and nothing else. */
  function SetColumn(w: Workspace, b: BoardId, c: ColumnId, ts: seq<Task>): (r: Workspace)
    requires b in w.boards
    ensures HasSlot(r, b, c) && Column(r, b, c) == ts
    ensures c in w.boards[b].tasks ==> OnlySlotChanged(w, r, b, c)
  {
    var bd := w.boards[b];
    w.(boards := w.boards[b := bd.(tasks := bd.tasks[c := ts])])
  }

  // ----- Frames: what an update leaves alone -----

  /** `r` differs from `w` at most in board `b`; the board order and the set of boards are kept. */
  predicate OnlyBoardChanged(w: Workspace, r: Workspace, b: BoardId) {
    && r.boardOrder == w.boardOrder
    && r.boards.Keys == w.boards.Keys
    && forall x :: x in w.boards && x != b ==> r.boards[x] == w.boards[x]
  }

  /** `r` differs from `w` at most in the task list of slot `(b, c)`. */
  predicate OnlySlotChanged(w: Workspace, r: Workspace, b: BoardId, c: ColumnId) {
    && OnlyBoardChanged(w, r, b)
    && HasSlot(w, b, c)
    && var old_ := w.boards[b];
    && var new_ := r.boards[b];
    && new_.title == old_.title
    && new_.columnOrder == old_.columnOrder
    && new_.columnTitles == old_.columnTitles
    && new_.collapsed == old_.collapsed
    && new_.height == old_.height
    && new_.tasks.Keys == old_.tasks.Keys
    && forall y :: y in old_.tasks && y != c ==> new_.tasks[y] == old_.tasks[y]
  }

  // ----- Well-formedness (the ordering invariants) -----

  /** A board's column order lists each of its columns exactly once, and each has a title. */
  predicate BoardWellFormed(bd: Board) {
    && NoDup(bd.columnOrder)
    && (forall c :: c in bd.columnOrder ==> c in bd.tasks)
    && (forall c :: c in bd.tasks ==> c in bd.columnOrder)
    && (forall c :: c in bd.columnOrder ==> c in bd.columnTitles)
  }

  /** The board order lists each board exactly once, and every board is well formed. */
  predicate WellFormed(w: Workspace) {
    && NoDup(w.boardOrder)
    && (forall b :: b in w.boardOrder ==> b in w.boards)
    && (forall b :: b in w.boards ==> b in w.boardOrder)
    && forall b :: b in w.boards ==> BoardWellFormed(w.boards[b])
  }

  /** Every way of changing one slot's task list keeps the workspace well formed. */
  lemma SlotChangeKeepsWellFormed(w: Workspace, r: Workspace, b: BoardId, c: ColumnId)
    requires OnlySlotChanged(w, r, b, c)
    ensures WellFormed(w) ==> WellFormed(r)
  {
    if WellFormed(w) {
      assert BoardWellFormed(r.boards[b]);
    }
  }

  lemma InitialWellFormed()
    ensures WellFormed(InitialWorkspace)
  {
    assert NoDup(DefaultColumnOrder) by {
      assert "todo"[0] != "inprogress"[0] && "todo"[0] != "done"[0] && "inprogress"[0] != "done"[0];
    }
    assert NoDup(DefaultBoardOrder) by {
      assert "work"[0] != "life"[0];
    }
    assert BoardWellFormed(WorkBoard);
    assert BoardWellFormed(LifeBoard);
  }

  // ----- Derived values shown by the board header -----

  /** The height the board's content area is drawn with. */
  function ContentHeight(bd: Board): (r: int)
    ensures bd.collapsed ==> r == 0
    ensures !bd.collapsed ==> r == bd.height
  {
    if bd.collapsed then 0 else bd.height
  }

  /** The length of every task list of the board, keyed by column. */
  function ColumnSizes(tasks: map<ColumnId, seq<Task>>): map<ColumnId, int> {
    map c | c in tasks :: |tasks[c]|
  }

  /** `Object.values(board.tasks).flat().length`: all tasks of the board,
      whichever columns hold them, including columns not in the column order. */
  ghost function TotalTasks(bd: Board): (r: int)
    ensures r >= 0
    ensures r == 0 <==> forall c :: c in bd.tasks ==> bd.tasks[c] == []
  {
    var sizes := ColumnSizes(bd.tasks);
    MapSumNonNegative(sizes);
    assert forall c :: c in bd.tasks ==> (sizes[c] == 0 <==> bd.tasks[c] == []);
    MapSum(sizes)
  }

  /** The task count of every board, keyed by board id. */
  ghost function BoardCounts(boards: map<BoardId, Board>): (m: map<BoardId, int>)
    ensures m.Keys == boards.Keys
    ensures forall b :: b in m ==> m[b] == TotalTasks(boards[b]) && m[b] >= 0
  {
    map b | b in boards :: TotalTasks(boards[b])
  }

  /** All tasks of the workspace. */
  ghost function WorkspaceTasks(w: Workspace): (r: int)
    ensures r >= 0
  {
    MapSumNonNegative(BoardCounts(w.boards));
    MapSum(BoardCounts(w.boards))
  }

  /** Replacing one column's list changes the board's task count by the
      difference of the list lengths. */
  lemma SetTasksCount(bd: Board, c: ColumnId, ts: seq<Task>)
    requires c in bd.tasks
    ensures TotalTasks(bd.(tasks := bd.tasks[c := ts])) == TotalTasks(bd) - |bd.tasks[c]| + |ts|
  {
    var sizes := ColumnSizes(bd.tasks);
    var sizes' := ColumnSizes(bd.tasks[c := ts]);
    assert sizes'.Keys == sizes.Keys;
    assert sizes' == sizes[c := |ts|];
    MapSumUpdate(sizes, c, |ts|);
  }

  /** Replacing one board changes the workspace's task count by the difference
      of the two boards' counts. */
  lemma SetBoardCount(w: Workspace, b: BoardId, bd: Board)
    requires b in w.boards
    ensures WorkspaceTasks(w.(boards := w.boards[b := bd]))
      == WorkspaceTasks(w) - TotalTasks(w.boards[b]) + TotalTasks(bd)
  {
    var counts := BoardCounts(w.boards);
    var counts' := BoardCounts(w.boards[b := bd]);
    forall x | x in counts' ensures counts'[x] == counts[b := TotalTasks(bd)][x] {
    }
    assert counts' == counts[b := TotalTasks(bd)];
    MapSumUpdate(counts, b, TotalTasks(bd));
  }

  /** Replacing one slot's list changes the workspace's task count by the
      difference of the list lengths. */
  lemma SetColumnCount(w: Workspace, b: BoardId, c: ColumnId, ts: seq<Task>)
    requires HasSlot(w, b, c)
    ensures WorkspaceTasks(SetColumn(w, b, c, ts))
      == WorkspaceTasks(w) - |Column(w, b, c)| + |ts|
  {
    var bd := w.boards[b];
    SetTasksCount(bd, c, ts);
    SetBoardCount(w, b, bd.(tasks := bd.tasks[c := ts]));
  }
}
