/**
 Board heights and start-up loading. The height of each board is derived from
 the viewport height when the application starts and whenever the window is
 resized; the persisted boards are then merged over the current ones field by
 field, keeping the computed height when no usable height was saved. The
 storage itself and JSON parsing are outside the model: the saved values
 arrive already parsed, `None` standing for an absent or empty entry.
 */
module Layout {
  import opened Kanban

  const HeaderHeight: int := 120
  const Margin: int := 100
  const BoardMargin: int := 40
  const MinBoardHeight: int := 300

  /** `Math.max(300, Math.floor((viewportHeight - 120 - 100) / 2) - 40)`.
      Dafny's `/` rounds towards negative infinity for a positive divisor, as
      `Math.floor` of the quotient does. */
  function BoardHeight(viewportHeight: int): (h: int)
    ensures h >= MinBoardHeight
    ensures h == MinBoardHeight || 2 * (h + BoardMargin) <= viewportHeight - HeaderHeight - Margin
    ensures viewportHeight - HeaderHeight - Margin < 2 * (h + BoardMargin) + 2
  {
    var available := viewportHeight - HeaderHeight - Margin;
    var half := available / 2 - BoardMargin;
    if half > MinBoardHeight then half else MinBoardHeight
  }

  /** A taller viewport never gives shorter boards. */
  lemma BoardHeightMonotone(v1: int, v2: int)
    requires v1 <= v2
    ensures BoardHeight(v1) <= BoardHeight(v2)
  {
    assert (v1 - HeaderHeight - Margin) / 2 <= (v2 - HeaderHeight - Margin) / 2;
  }

  /** Sample viewports: the floor of 300 up to a 901-pixel window, then half
      of what is left after the header and margins. */
  lemma BoardHeightSamples()
    ensures BoardHeight(0) == 300 && BoardHeight(901) == 300
    ensures BoardHeight(903) == 301 && BoardHeight(1080) == 390
  {
  }

  /** `initializeHeights`: both built-in boards get the computed height. The
      result holds exactly the `work` and `life` boards. */
  function InitializeHeights(w: Workspace, viewportHeight: int): (r: Result<Workspace>)
    ensures r.Ok? <==> "work" in w.boards && "life" in w.boards
    ensures !r.Ok? ==> r.fault == MissingBoard(if "work" !in w.boards then "work" else "life")
    ensures r.Ok? ==>
      && r.value.boards.Keys == {"work", "life"}
      && r.value.boardOrder == w.boardOrder
      && forall b :: b in r.value.boards ==>
        && r.value.boards[b].height == BoardHeight(viewportHeight)
        && r.value.boards[b].(height := w.boards[b].height) == w.boards[b]
    ensures r.Ok? && WellFormed(w) && w.boards.Keys == {"work", "life"} ==> WellFormed(r.value)
  {
    if "work" !in w.boards then Err(MissingBoard("work"))
    else if "life" !in w.boards then Err(MissingBoard("life"))
    else
      var h := BoardHeight(viewportHeight);
      Ok(w.(boards := map["work" := w.boards["work"].(height := h), "life" := w.boards["life"].(height := h)]))
  }

  /** One board as read back from storage: every field may be missing. */
  datatype SavedBoard = SavedBoard(
    title: Option<string>,
    tasks: Option<map<ColumnId, seq<Task>>>,
    columnOrder: Option<seq<ColumnId>>,
    columnTitles: Option<map<ColumnId, string>>,
    collapsed: Option<bool>,
    height: Option<int>)

  /** What is written for a board: all of its fields. */
  function Snapshot(bd: Board): SavedBoard {
    SavedBoard(Some(bd.title), Some(bd.tasks), Some(bd.columnOrder), Some(bd.columnTitles),
      Some(bd.collapsed), Some(bd.height))
  }

  function Or<T>(o: Option<T>, default: T): T {
    match o
    case Some(v) => v
    case None => default
  }

  /** A height that `||` treats as present: saved and not zero. */
  predicate UsableHeight(saved: Option<SavedBoard>) {
    saved.Some? && saved.value.height.Some? && saved.value.height.value != 0
  }

  /** `{ ...prev, ...saved, height: saved?.height || prev.height }`: every saved
      field overrides the current one, except that a missing or zero saved height
      keeps the current height. */
  function MergeBoard(prev: Board, saved: Option<SavedBoard>): (r: Board)
    ensures saved.None? ==> r == prev
    ensures UsableHeight(saved) ==> r.height == saved.value.height.value
    ensures !UsableHeight(saved) ==> r.height == prev.height
    ensures saved.Some? ==>
      && r.title == Or(saved.value.title, prev.title)
      && r.tasks == Or(saved.value.tasks, prev.tasks)
      && r.columnOrder == Or(saved.value.columnOrder, prev.columnOrder)
      && r.columnTitles == Or(saved.value.columnTitles, prev.columnTitles)
      && r.collapsed == Or(saved.value.collapsed, prev.collapsed)
  {
    match saved
    case None => prev
    case Some(sv) =>
      Board(
        Or(sv.title, prev.title),
        Or(sv.tasks, prev.tasks),
        Or(sv.columnOrder, prev.columnOrder),
        Or(sv.columnTitles, prev.columnTitles),
        Or(sv.collapsed, prev.collapsed),
        if UsableHeight(saved) then sv.height.value else prev.height)
  }

  /** A saved board with a non-zero height reads back as itself, whatever the
      current board was; one saved with height zero comes back with the
      current height instead. */
  lemma MergeSnapshot(prev: Board, bd: Board)
    ensures bd.height != 0 ==> MergeBoard(prev, Some(Snapshot(bd))) == bd
    ensures bd.height == 0 ==> MergeBoard(prev, Some(Snapshot(bd))) == bd.(height := prev.height)
  {
  }

  function Lookup<K, V>(m: map<K, V>, k: K): Option<V> {
    if k in m then Some(m[k]) else None
  }

  /** The board order read back, or `["work", "life"]` when none was saved. */
  function LoadBoardOrder(saved: Option<seq<BoardId>>): (r: seq<BoardId>)
    ensures saved.None? ==> r == DefaultBoardOrder
    ensures saved.Some? ==> r == saved.value
  {
    Or(saved, DefaultBoardOrder)
  }

  /** The start-up load: with saved boards, the result holds the `work` and
      `life` boards, each merged from its saved record; the board order is
      taken as saved, without checking it against the boards. */
  function Load(w: Workspace, savedBoards: Option<map<BoardId, SavedBoard>>, savedOrder: Option<seq<BoardId>>): (r: Result<Workspace>)
    ensures r.Ok? ==> r.value.boardOrder == LoadBoardOrder(savedOrder)
    ensures savedBoards.None? ==> r == Ok(w.(boardOrder := LoadBoardOrder(savedOrder)))
    ensures savedBoards.Some? ==>
      && (r.Ok? <==> "work" in w.boards && "life" in w.boards)
      && (r.Ok? ==>
        && r.value.boards.Keys == {"work", "life"}
        && forall b :: b in r.value.boards ==>
          r.value.boards[b] == MergeBoard(w.boards[b], Lookup(savedBoards.value, b)))
  {
    var order := LoadBoardOrder(savedOrder);
    match savedBoards
    case None => Ok(w.(boardOrder := order))
    case Some(saved) =>
      if "work" !in w.boards then Err(MissingBoard("work"))
      else if "life" !in w.boards then Err(MissingBoard("life"))
      else
        Ok(Workspace(
          map["work" := MergeBoard(w.boards["work"], Lookup(saved, "work")),
              "life" := MergeBoard(w.boards["life"], Lookup(saved, "life"))],
          order))
  }

  /** Saving a workspace of the two built-in boards with non-zero heights and
      loading it back gives the same workspace: task ids, orders, titles and
      collapsed flags included. */
  lemma LoadRoundTrip(current: Workspace, w: Workspace)
    requires "work" in current.boards && "life" in current.boards
    requires w.boards.Keys == {"work", "life"}
    requires forall b :: b in w.boards ==> w.boards[b].height != 0
    ensures Load(current, Some(map b | b in w.boards :: Snapshot(w.boards[b])), Some(w.boardOrder)) == Ok(w)
  {
    var saved := map b | b in w.boards :: Snapshot(w.boards[b]);
    var r := Load(current, Some(saved), Some(w.boardOrder));
    forall b | b in w.boards ensures r.value.boards[b] == w.boards[b] {
      MergeSnapshot(current.boards[b], w.boards[b]);
    }
    assert r.value.boards == w.boards;
  }

  /** At start-up the heights are computed first and the saved boards merged
      over them, so every board ends with its saved non-zero height or with
      the computed one, which is at least 300. */
  lemma StartupHeights(viewportHeight: int, savedBoards: Option<map<BoardId, SavedBoard>>, savedOrder: Option<seq<BoardId>>)
    ensures InitializeHeights(InitialWorkspace, viewportHeight).Ok?
    ensures var w := InitializeHeights(InitialWorkspace, viewportHeight).value;
      && Load(w, savedBoards, savedOrder).Ok?
      && forall b :: b in Load(w, savedBoards, savedOrder).value.boards ==>
        var h := Load(w, savedBoards, savedOrder).value.boards[b].height;
        || h == BoardHeight(viewportHeight)
        || (savedBoards.Some? && b in savedBoards.value && UsableHeight(Some(savedBoards.value[b]))
            && h == savedBoards.value[b].height.value)
  {
    var w := InitializeHeights(InitialWorkspace, viewportHeight).value;
    var r := Load(w, savedBoards, savedOrder).value;
    forall b | b in r.boards
      ensures var h := r.boards[b].height;
        || h == BoardHeight(viewportHeight)
        || (savedBoards.Some? && b in savedBoards.value && UsableHeight(Some(savedBoards.value[b]))
            && h == savedBoards.value[b].height.value)
    {
      assert b in w.boards;
    }
  }
}
