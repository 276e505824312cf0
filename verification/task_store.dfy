/**
 Adding, deleting and editing the tasks of one column of one board
 (`addTask`, `deleteTask`, `updateTask`). Each update reads the board and
 the column it names, so a missing board or column makes it fail; blank
 text makes adding and editing do nothing.
 */
module TaskStore {
  import opened Text
  import opened Kanban

  /** How many tasks of `ts` carry the id `id`. */
  function CountId(ts: seq<Task>, id: TaskId): (n: nat)
    ensures n <= |ts|
    ensures n == 0 <==> forall t :: t in ts ==> t.id != id
  {
    if |ts| == 0 then 0
    else (if ts[0].id == id then 1 else 0) + CountId(ts[1..], id)
  }

  /** `ts.filter(task => task.id !== id)`: the tasks with any other id, in their order. */
  function WithoutId(ts: seq<Task>, id: TaskId): (r: seq<Task>)
    ensures |r| == |ts| - CountId(ts, id)
    ensures forall t :: t in r <==> t in ts && t.id != id
    ensures CountId(ts, id) == 0 ==> r == ts
  {
    if |ts| == 0 then []
    else if ts[0].id == id then WithoutId(ts[1..], id)
    else [ts[0]] + WithoutId(ts[1..], id)
  }

  /** Filtering distributes over concatenation, so the survivors keep their
      relative order. */
  lemma {:induction false} WithoutIdAppend(a: seq<Task>, b: seq<Task>, id: TaskId)
    ensures WithoutId(a + b, id) == WithoutId(a, id) + WithoutId(b, id)
  {
    if |a| == 0 {
      assert a + b == b;
    } else {
      assert (a + b)[0] == a[0];
      assert (a + b)[1..] == a[1..] + b;
      WithoutIdAppend(a[1..], b, id);
      if a[0].id != id {
        assert [a[0]] + (WithoutId(a[1..], id) + WithoutId(b, id))
          == ([a[0]] + WithoutId(a[1..], id)) + WithoutId(b, id);
      }
    }
  }

  /** The tasks of `ts` with id `id` given the text `text`; all else as it was. */
  function Retext(ts: seq<Task>, id: TaskId, text: string): (r: seq<Task>)
    ensures |r| == |ts|
    ensures forall i :: 0 <= i < |ts| ==> r[i].id == ts[i].id && r[i].createdAt == ts[i].createdAt
    ensures forall i :: 0 <= i < |ts| ==> r[i].text == (if ts[i].id == id then text else ts[i].text)
  {
    if |ts| == 0 then []
    else [if ts[0].id == id then ts[0].(text := text) else ts[0]] + Retext(ts[1..], id, text)
  }

  /** `addTask(boardId, columnId, text)` with the clock reading `id` and the
      date label `createdAt` supplied by the caller. */
  function AddTask(w: Workspace, b: BoardId, c: ColumnId, text: string, id: TaskId, createdAt: string): (r: Result<Workspace>)
    ensures Blank(text) ==> r == Ok(w)
    ensures !Blank(text) && b !in w.boards ==> r == Err(MissingBoard(b))
    ensures !Blank(text) && b in w.boards && c !in w.boards[b].tasks ==> r == Err(MissingColumn(b, c))
    ensures !Blank(text) && HasSlot(w, b, c) ==>
      && r.Ok?
      && OnlySlotChanged(w, r.value, b, c)
      && |Column(r.value, b, c)| == |Column(w, b, c)| + 1
      && Column(r.value, b, c)[..|Column(w, b, c)|] == Column(w, b, c)
      && Column(r.value, b, c)[|Column(w, b, c)|] == Task(id, Trim(text), createdAt)
    ensures r.Ok? && WellFormed(w) ==> WellFormed(r.value)
  {
    if Blank(text) then Ok(w)
    else if b !in w.boards then Err(MissingBoard(b))
    else if c !in w.boards[b].tasks then Err(MissingColumn(b, c))
    else
      var r := SetColumn(w, b, c, Column(w, b, c) + [Task(id, Trim(text), createdAt)]);
      SlotChangeKeepsWellFormed(w, r, b, c);
      Ok(r)
  }

  /** `deleteTask(boardId, columnId, taskId)`. */
  function DeleteTask(w: Workspace, b: BoardId, c: ColumnId, id: TaskId): (r: Result<Workspace>)
    ensures b !in w.boards ==> r == Err(MissingBoard(b))
    ensures b in w.boards && c !in w.boards[b].tasks ==> r == Err(MissingColumn(b, c))
    ensures HasSlot(w, b, c) ==>
      && r.Ok?
      && OnlySlotChanged(w, r.value, b, c)
      && Column(r.value, b, c) == WithoutId(Column(w, b, c), id)
      && (forall t :: t in Column(r.value, b, c) <==> t in Column(w, b, c) && t.id != id)
      && |Column(r.value, b, c)| == |Column(w, b, c)| - CountId(Column(w, b, c), id)
    ensures HasSlot(w, b, c) && CountId(Column(w, b, c), id) == 0 ==> r == Ok(w)
    ensures r.Ok? && WellFormed(w) ==> WellFormed(r.value)
  {
    if b !in w.boards then Err(MissingBoard(b))
    else if c !in w.boards[b].tasks then Err(MissingColumn(b, c))
    else
      var r := SetColumn(w, b, c, WithoutId(Column(w, b, c), id));
      SlotChangeKeepsWellFormed(w, r, b, c);
      assert CountId(Column(w, b, c), id) == 0 ==> r == w by {
        if CountId(Column(w, b, c), id) == 0 {
          assert w.boards[b].tasks[c := Column(w, b, c)] == w.boards[b].tasks;
          assert w.boards[b := w.boards[b]] == w.boards;
        }
      }
      Ok(r)
  }

  /** `updateTask(boardId, columnId, taskId, newText)`. */
  function UpdateTask(w: Workspace, b: BoardId, c: ColumnId, id: TaskId, text: string): (r: Result<Workspace>)
    ensures Blank(text) ==> r == Ok(w)
    ensures !Blank(text) && b !in w.boards ==> r == Err(MissingBoard(b))
    ensures !Blank(text) && b in w.boards && c !in w.boards[b].tasks ==> r == Err(MissingColumn(b, c))
    ensures !Blank(text) && HasSlot(w, b, c) ==>
      && r.Ok?
      && OnlySlotChanged(w, r.value, b, c)
      && var before := Column(w, b, c);
      && var after := Column(r.value, b, c);
      && |after| == |before|
      && (forall i :: 0 <= i < |before| ==> after[i].id == before[i].id && after[i].createdAt == before[i].createdAt)
      && (forall i :: 0 <= i < |before| && before[i].id == id ==> after[i].text == Trim(text))
      && (forall i :: 0 <= i < |before| && before[i].id != id ==> after[i] == before[i])
    ensures r.Ok? && WellFormed(w) ==> WellFormed(r.value)
  {
    if Blank(text) then Ok(w)
    else if b !in w.boards then Err(MissingBoard(b))
    else if c !in w.boards[b].tasks then Err(MissingColumn(b, c))
    else
      var r := SetColumn(w, b, c, Retext(Column(w, b, c), id, Trim(text)));
      SlotChangeKeepsWellFormed(w, r, b, c);
      Ok(r)
  }

  /** Adding a task under a fresh id and then deleting that id restores the workspace. */
  lemma AddThenDelete(w: Workspace, b: BoardId, c: ColumnId, text: string, id: TaskId, createdAt: string)
    requires HasSlot(w, b, c) && CountId(Column(w, b, c), id) == 0
    ensures AddTask(w, b, c, text, id, createdAt).Ok?
    ensures DeleteTask(AddTask(w, b, c, text, id, createdAt).value, b, c, id) == Ok(w)
  {
    if !Blank(text) {
      var ts := Column(w, b, c);
      var t := Task(id, Trim(text), createdAt);
      WithoutIdAppend(ts, [t], id);
      assert WithoutId([t], id) == [];
      assert WithoutId(ts, id) == ts;
      var w1 := SetColumn(w, b, c, ts + [t]);
      assert AddTask(w, b, c, text, id, createdAt) == Ok(w1);
      assert HasSlot(w1, b, c) && Column(w1, b, c) == ts + [t];
      assert WithoutId(Column(w1, b, c), id) == ts;
      assert DeleteTask(w1, b, c, id) == Ok(SetColumn(w1, b, c, ts));
      SetColumnTwice(w, b, c, ts + [t], ts);
      SetColumnSame(w, b, c);
    }
  }

  /** Deleting is idempotent: a second delete of the same id changes nothing. */
  lemma DeleteIdempotent(w: Workspace, b: BoardId, c: ColumnId, id: TaskId)
    requires HasSlot(w, b, c)
    ensures DeleteTask(w, b, c, id).Ok?
    ensures DeleteTask(DeleteTask(w, b, c, id).value, b, c, id) == DeleteTask(w, b, c, id)
  {
    var w1 := DeleteTask(w, b, c, id).value;
    assert CountId(Column(w1, b, c), id) == 0;
  }

  /** Editing never matters to a later delete of the same id: only the text of
      the edited task changes, and the delete removes that task whatever its text. */
  lemma UpdateThenDelete(w: Workspace, b: BoardId, c: ColumnId, id: TaskId, text: string)
    requires HasSlot(w, b, c)
    ensures UpdateTask(w, b, c, id, text).Ok?
    ensures DeleteTask(UpdateTask(w, b, c, id, text).value, b, c, id) == DeleteTask(w, b, c, id)
  {
    if !Blank(text) {
      var ts := Column(w, b, c);
      RetextThenFilter(ts, id, Trim(text));
      var w1 := SetColumn(w, b, c, Retext(ts, id, Trim(text)));
      assert UpdateTask(w, b, c, id, text) == Ok(w1);
      assert DeleteTask(w1, b, c, id) == Ok(SetColumn(w1, b, c, WithoutId(Retext(ts, id, Trim(text)), id)));
      assert DeleteTask(w, b, c, id) == Ok(SetColumn(w, b, c, WithoutId(ts, id)));
      SetColumnTwice(w, b, c, Retext(ts, id, Trim(text)), WithoutId(ts, id));
    }
  }

  lemma SetColumnSame(w: Workspace, b: BoardId, c: ColumnId)
    requires HasSlot(w, b, c)
    ensures SetColumn(w, b, c, Column(w, b, c)) == w
  {
    assert w.boards[b].tasks[c := Column(w, b, c)] == w.boards[b].tasks;
    assert w.boards[b := w.boards[b]] == w.boards;
  }

  lemma SetColumnTwice(w: Workspace, b: BoardId, c: ColumnId, xs: seq<Task>, ys: seq<Task>)
    requires b in w.boards
    ensures SetColumn(SetColumn(w, b, c, xs), b, c, ys) == SetColumn(w, b, c, ys)
  {
    var bd := w.boards[b];
    assert bd.tasks[c := xs][c := ys] == bd.tasks[c := ys];
  }

  lemma {:induction false} RetextThenFilter(ts: seq<Task>, id: TaskId, text: string)
    ensures WithoutId(Retext(ts, id, text), id) == WithoutId(ts, id)
  {
    if |ts| > 0 {
      RetextThenFilter(ts[1..], id, text);
      assert Retext(ts, id, text)[1..] == Retext(ts[1..], id, text);
    }
  }

  /** Adding a task adds exactly one to the workspace's task count. */
  lemma AddCounts(w: Workspace, b: BoardId, c: ColumnId, text: string, id: TaskId, createdAt: string)
    requires HasSlot(w, b, c) && !Blank(text)
    ensures WorkspaceTasks(AddTask(w, b, c, text, id, createdAt).value) == WorkspaceTasks(w) + 1
  {
    SetColumnCount(w, b, c, Column(w, b, c) + [Task(id, Trim(text), createdAt)]);
  }
}
