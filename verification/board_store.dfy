/**
 Renaming columns and boards and collapsing boards (`updateColumnTitle`,
 `updateBoardTitle`, `toggleBoardCollapsed`). A blank title is rejected and
 the previous one kept; collapsing hides a board's content without losing
 its stored height.
 */
module BoardStore {
  import opened Text
  import opened Kanban

  /** The board's title, tasks, column order and view state are as in `old_`;
      only its column titles may differ. */
  predicate OnlyTitlesChanged(old_: Board, new_: Board) {
    && new_.title == old_.title
    && new_.tasks == old_.tasks
    && new_.columnOrder == old_.columnOrder
    && new_.collapsed == old_.collapsed
    && new_.height == old_.height
  }

  /** `updateColumnTitle(boardId, columnId, newTitle)`. A column id the board
      does not have gets a title entry all the same. */
  function UpdateColumnTitle(w: Workspace, b: BoardId, c: ColumnId, title: string): (r: Result<Workspace>)
    ensures Blank(title) ==> r == Ok(w)
    ensures !Blank(title) && b !in w.boards ==> r == Err(MissingBoard(b))
    ensures !Blank(title) && b in w.boards ==>
      && r.Ok?
      && OnlyBoardChanged(w, r.value, b)
      && var old_ := w.boards[b];
      && var new_ := r.value.boards[b];
      && OnlyTitlesChanged(old_, new_)
      && new_.columnTitles.Keys == old_.columnTitles.Keys + {c}
      && new_.columnTitles[c] == Trim(title)
      && (forall y :: y in old_.columnTitles && y != c ==> new_.columnTitles[y] == old_.columnTitles[y])
    ensures r.Ok? && WellFormed(w) ==> WellFormed(r.value)
  {
    if Blank(title) then Ok(w)
    else if b !in w.boards then Err(MissingBoard(b))
    else
      var bd := w.boards[b];
      var r := w.(boards := w.boards[b := bd.(columnTitles := bd.columnTitles[c := Trim(title)])]);
      assert WellFormed(w) ==> BoardWellFormed(r.boards[b]);
      Ok(r)
  }

  /** `updateBoardTitle(boardId, newTitle)`. */
  function UpdateBoardTitle(w: Workspace, b: BoardId, title: string): (r: Result<Workspace>)
    ensures Blank(title) ==> r == Ok(w)
    ensures !Blank(title) && b !in w.boards ==> r == Err(MissingBoard(b))
    ensures !Blank(title) && b in w.boards ==>
      && r.Ok?
      && OnlyBoardChanged(w, r.value, b)
      && r.value.boards[b].title == Trim(title)
      && r.value.boards[b].(title := w.boards[b].title) == w.boards[b]
    ensures r.Ok? && WellFormed(w) ==> WellFormed(r.value)
  {
    if Blank(title) then Ok(w)
    else if b !in w.boards then Err(MissingBoard(b))
    else
      var r := w.(boards := w.boards[b := w.boards[b].(title := Trim(title))]);
      assert WellFormed(w) ==> BoardWellFormed(r.boards[b]);
      Ok(r)
  }

  /** `toggleBoardCollapsed(boardId)`. */
  function ToggleBoardCollapsed(w: Workspace, b: BoardId): (r: Result<Workspace>)
    ensures b !in w.boards ==> r == Err(MissingBoard(b))
    ensures b in w.boards ==>
      && r.Ok?
      && OnlyBoardChanged(w, r.value, b)
      && r.value.boards[b].collapsed == !w.boards[b].collapsed
      && r.value.boards[b].height == w.boards[b].height
      && r.value.boards[b].(collapsed := w.boards[b].collapsed) == w.boards[b]
    ensures r.Ok? && WellFormed(w) ==> WellFormed(r.value)
  {
    if b !in w.boards then Err(MissingBoard(b))
    else
      var bd := w.boards[b];
      var r := w.(boards := w.boards[b := bd.(collapsed := !bd.collapsed)]);
      assert WellFormed(w) ==> BoardWellFormed(r.boards[b]);
      Ok(r)
  }

  /** Toggling twice restores the workspace. */
  lemma ToggleTwice(w: Workspace, b: BoardId)
    requires b in w.boards
    ensures ToggleBoardCollapsed(ToggleBoardCollapsed(w, b).value, b) == Ok(w)
  {
    var w1 := ToggleBoardCollapsed(w, b).value;
    var w2 := ToggleBoardCollapsed(w1, b).value;
    assert w2.boards[b] == w.boards[b];
    assert w2.boards == w.boards;
  }

  /** Collapsing shows no content, and expanding again shows the stored height. */
  lemma CollapseHidesExpandRestores(w: Workspace, b: BoardId)
    requires b in w.boards && !w.boards[b].collapsed
    ensures ContentHeight(ToggleBoardCollapsed(w, b).value.boards[b]) == 0
    ensures ContentHeight(ToggleBoardCollapsed(ToggleBoardCollapsed(w, b).value, b).value.boards[b])
      == w.boards[b].height
  {
  }
}
