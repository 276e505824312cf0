# Kanban board state model

A Dafny model of the state core of a single-page kanban application
(`src/App.tsx`). The model covers the nested workspace: boards keyed by id, each
with task lists per column, a column order, column titles, a collapsed flag
and a height, plus the board order. It also covers the pure updates the
application's event handlers perform on that state:

- adding, deleting and editing tasks;
- renaming columns and boards;
- collapsing boards;
- live splice reordering of columns and boards while dragging;
- moving a dropped task between columns and boards;
- the six-field drag session;
- the viewport-derived board height;
- the start-up merge of the saved boards over the current ones.

Every handler is a total function from state to state. A handler that in the
application would throw a `TypeError`, because it reads a field of a board or
column that does not exist, returns `Err(fault)` instead. Blank input and
no-op drags return the state unchanged, as the application does. A drop on
the task's own column leaves the boards unchanged and ends the task drag.

Files (one module each):

- `text.dfy` (`Text`): ECMAScript `trim` and blankness.
- `splice.dfy` (`Splice`): `splice` and `indexOf` with their index
  clamping, and the remove-then-insert `Move`.
- `tally.dfy` (`Tally`): order-independent sums over map values.
- `kanban.dfy` (`Kanban`):
  - the data model and the initial `work`/`life` state;
  - frame predicates;
  - the well-formedness invariant (every order lists its ids exactly once);
  - the task counts.
- `task_store.dfy` (`TaskStore`): `addTask`, `deleteTask`, `updateTask`.
- `board_store.dfy` (`BoardStore`): `updateColumnTitle`,
  `updateBoardTitle`, `toggleBoardCollapsed`.
- `session.dfy` (`Session`): the drag-session fields, start and end
  handlers, and their view as a gesture
  (`NoGesture | TaskGesture | ColumnGesture | BoardGesture`).
- `reorder.dfy` (`Reorder`): `handleColumnDragOver`, `handleBoardDragOver`.
- `task_move.dfy` (`TaskMove`): `handleDrop`.
- `gestures.dfy` (`Gestures`): whole gestures (start, drop, end).
- `layout.dfy` (`Layout`): `initializeHeights`, the saved-board merge and
  the start-up load.

Inputs the application reads from its environment are parameters:

- the clock-derived task id and the date label in `AddTask`;
- the viewport height in `BoardHeight` and `InitializeHeights`;
- the already-parsed saved boards and board order in `Load`.

## Model

| member | source | states |
|---|---|---|
| Text.Trim | src/App.tsx:185-189 | the trimmed text is the slice of the input between its first and last non-white-space character; everything cut off is white space; it is empty exactly when the input is blank |
| Text.TrimIdempotent | src/App.tsx:189 | stored text is already trimmed: trimming it again changes nothing |
| Splice.Clamp | src/App.tsx:336-337 | the start index `splice` really uses: negative starts count from the end, and the result is clamped to the length |
| Splice.SpliceRemove | src/App.tsx:298 | `splice(start, 1)` keeps the elements before the clamped start in place and shifts every later one down by one, shortening the list by one; a start at the end removes nothing |
| Splice.SpliceRemoveInsert | src/App.tsx:298-300 | inserting the removed element back at its index restores the list, so removal loses exactly that one element |
| Splice.SpliceInsert | src/App.tsx:300 | `splice(start, 0, x)` puts `x` at the clamped start, with the prefix before it and the rest after it |
| Splice.IndexOf | src/App.tsx:332-333 | `indexOf` returns the first position of the element, or -1 exactly when the element is absent |
| Splice.Move | src/App.tsx:294-300 | remove-then-insert keeps the length and puts the moved element at the target index, or last when the target is past the end |
| Splice.MoveShifts | src/App.tsx:297-300 | splice, not swap: the elements the moved one passes over shift by one, and all others stay in place |
| Splice.MovePermutes | src/App.tsx:297-300 | a move is a permutation of the order (same multiset) |
| Splice.MoveUndo | src/App.tsx:297-300 | moving back from the target to the source index restores the original order |
| Splice.MoveIsSpliceNotSwap | src/App.tsx:297-300 | `[A,B,C,D]` moved 0→2 gives `[B,C,A,D]`, not the swap `[C,B,A,D]` |
| Splice.MoveKeepsDistinct | src/App.tsx:297-300 | a duplicate-free order stays duplicate-free with the same element set |
| Kanban.SetColumn | src/App.tsx:193-202 | replacing one slot's task list changes nothing else in the workspace |
| Kanban.SlotChangeKeepsWellFormed | src/App.tsx:193-202 | changing only one slot's task list keeps every order a duplicate-free listing of its ids |
| Kanban.InitialWellFormed | src/App.tsx:5-38 | the built-in `work` and `life` boards and the order `[work, life]` satisfy the ordering invariants |
| Kanban.TotalTasks | src/App.tsx:404 | a board's task count is non-negative and is zero exactly when every column, listed in the order or not, is empty |
| Kanban.SetColumnCount | src/App.tsx:404 | replacing one slot's list changes the workspace's task count by the difference in list length |
| TaskStore.CountId | src/App.tsx:215 | the number of tasks with an id is at most the list length, and zero exactly when no task carries it |
| TaskStore.WithoutId | src/App.tsx:215 | the filter keeps exactly the tasks with another id, shortens the list by the number of matches, and is the identity when there is none |
| TaskStore.WithoutIdAppend | src/App.tsx:215 | filtering distributes over concatenation, so the remaining tasks keep their relative order |
| TaskStore.Retext | src/App.tsx:230-232 | editing keeps every task's id, date label and position, and gives the new text to exactly the tasks with the id |
| TaskStore.AddTask | src/App.tsx:184-202 | blank text is a no-op; a missing board or column fails; otherwise exactly one task, carrying the trimmed text, is appended to that one slot and nothing else changes; the invariants are kept |
| TaskStore.DeleteTask | src/App.tsx:208-219 | a missing board or column fails; otherwise the slot's list becomes the order-preserving filter `WithoutId` of the old list: every task with the id leaves that one slot, the others keep their relative order, and no other slot changes; an absent id is a no-op |
| TaskStore.UpdateTask | src/App.tsx:221-235 | blank text is a no-op; otherwise only the matching tasks' text changes, to the trimmed text; ids, dates, length and order are kept, and other slots are untouched |
| TaskStore.AddThenDelete | src/App.tsx:184-219 | adding a task under a fresh id and deleting that id restores the workspace |
| TaskStore.DeleteIdempotent | src/App.tsx:208-219 | deleting the same id twice is the same as deleting it once |
| TaskStore.UpdateThenDelete | src/App.tsx:221-235 | an edit is invisible to a later delete of the same id |
| TaskStore.AddCounts | src/App.tsx:193-202 | a successful add raises the workspace's task count by exactly one |
| BoardStore.UpdateColumnTitle | src/App.tsx:239-253 | a blank title is rejected and the old one kept; otherwise only `columnTitles[columnId]` changes, to the trimmed title, never tasks or column order |
| BoardStore.UpdateBoardTitle | src/App.tsx:255-266 | a blank title is rejected; otherwise only the board's `title` changes, to the trimmed title |
| BoardStore.ToggleBoardCollapsed | src/App.tsx:268-276 | only `collapsed` of that board flips; `height` and everything else are kept |
| BoardStore.ToggleTwice | src/App.tsx:268-276 | toggling twice restores the workspace |
| Kanban.ContentHeight | src/App.tsx:405 | a collapsed board's content area is drawn with height 0, an expanded one with its stored height |
| BoardStore.CollapseHidesExpandRestores | src/App.tsx:405 | a collapsed board shows content height 0, and expanding it again shows the stored height |
| Session.Fields | src/App.tsx:43-54 | each gesture kind is recognised by its own session field, and no gesture is exactly the all-null session |
| Session.FieldsInjective | src/App.tsx:43-54 | a session determines the gesture it stands for |
| Session.TaskDragStart | src/App.tsx:346-352 | on any session, a task drag records task, origin slot and board, and leaves the column and board-drag fields alone; from idle it is exactly the task gesture |
| Session.ColumnDragStart | src/App.tsx:279-285 | on any session, a column drag records column, index and board, and leaves the task and board-drag fields alone; from idle it is exactly the column gesture |
| Session.BoardDragStart | src/App.tsx:321-324 | on any session, a board drag sets `draggedBoardId` to the board and changes no other field |
| Session.ColumnDragEnd | src/App.tsx:314-318 | the column fields and the shared `draggedBoard` are cleared, and the task and board-drag fields are kept |
| Session.BoardDragEnd | src/App.tsx:342-344 | only `draggedBoardId` is cleared |
| Session.ClearTaskDrag | src/App.tsx:385-387 | a drop clears the task fields and `draggedBoard` only |
| Session.DragEndAsWritten | src/App.tsx:557-565 | a task card's `dragend` reaches only the column and board end handlers, so the task fields survive |
| Session.DragEnd | src/App.tsx:314-318 | corrected end of a gesture: a task card's `dragend` leaves the session idle, and other sources are handled as written |
| Session.GestureEndIsIdle | src/App.tsx:314-344 | a gesture started from idle and ended by the `dragend` of its own element leaves the session idle |
| Session.AbortedTaskDragLingersAsWritten | src/App.tsx:557-565 | as written, a task drag ended outside any drop target still records the task |
| Reorder.ColumnDragOver | src/App.tsx:287-312 | null index, same index or another board's drag is a no-op. Otherwise, with the board present and the tracked index in range, the result is exactly `MoveColumn` of the tracked index to the target: the board's column order becomes a splice-moved permutation with the dragged column at the target index, the tracked index becomes the target, and nothing else changes. A missing board or an out-of-range tracked index fails |
| Reorder.MoveColumn | src/App.tsx:293-309 | only the column order of the one board changes; it becomes the splice move of the column at the tracked index to the target index, a permutation with the moved column at the target when that is in range |
| Reorder.MoveColumnKeepsWellFormed | src/App.tsx:293-309 | moving a column keeps every order a duplicate-free listing of its ids |
| Reorder.ColumnDragStartTracks | src/App.tsx:279-285 | starting a column drag from its rendered index makes the tracked index point at the dragged column |
| Reorder.ColumnDragOverTracks | src/App.tsx:291-311 | each in-range drag-over keeps the dragged column found at the tracked index |
| Reorder.BoardDragOver | src/App.tsx:326-340 | no dragged id (null or empty) or the same id is a no-op; boards and session are never changed; the order keeps its length unless it was empty |
| Reorder.BoardDragOverMoves | src/App.tsx:332-339 | with both ids listed, the new board order is the splice move from the dragged board's index to the target's: a permutation with the dragged board at the target's old index |
| Reorder.BoardDragOverKeepsWellFormed | src/App.tsx:326-340 | between existing boards, the board order stays a duplicate-free listing of exactly the boards |
| Reorder.BoardDragOverExample | src/App.tsx:332-339 | dragging board A of `[A,B,C,D]` over C gives `[B,C,A,D]` |
| TaskMove.MoveTask | src/App.tsx:371-383 | between two distinct existing slots the task's id is filtered out of the origin and the task is appended last to the target, and no other slot, column order or board order changes; a missing slot fails |
| TaskMove.Drop | src/App.tsx:359-388 | without a dragged task nothing changes. A drop on the origin slot keeps the boards and clears the task session. Any other drop is the two-slot move and clears the task session. The invariants are kept |
| TaskMove.DropConserves | src/App.tsx:371-383 | the workspace's task count loses the origin's tasks with the id and gains one, so it is conserved when the task was in its origin once |
| TaskMove.DropPlacesOnce | src/App.tsx:371-383 | with the id new to the target, the task ends exactly once in the target, last, and nowhere in the origin |
| Gestures.TaskDropThenEndIsIdle | src/App.tsx:385-387 | a task gesture that ends in a drop leaves the session idle, as written and corrected |
| Gestures.NonTaskDropIsNoOp | src/App.tsx:362 | a drop during a column or board drag started from idle changes nothing |
| Gestures.ColumnDragAfterAnyGestureMovesNoTask | src/App.tsx:359-369 | with the corrected end, a column drag dropped on a task list never moves a task, whatever gesture came before |
| Gestures.StaleTaskMovedByColumnDragAsWritten | src/App.tsx:359-388 | as written, after an aborted task drag, a column of `life` carried over `work` leaves `work`'s column order unchanged at every drag-over, and its drop on the `inprogress` task list moves the stale task there |
| Layout.BoardHeight | src/App.tsx:73-76 | the height is at least 300; otherwise it is the largest h with 2(h+40) ≤ viewport − 220 |
| Layout.BoardHeightMonotone | src/App.tsx:76 | a taller viewport never gives a shorter board |
| Layout.BoardHeightSamples | src/App.tsx:73-76 | 300 up to a 901-pixel viewport, 301 at 903, 390 at 1080 |
| Layout.InitializeHeights | src/App.tsx:72-82 | both built-in boards get the computed height and nothing else changes; the result holds exactly `work` and `life`; a missing one fails |
| Layout.MergeBoard | src/App.tsx:99-100 | every saved field overrides the current one; a missing or zero saved height keeps the current height |
| Layout.MergeSnapshot | src/App.tsx:99-100 | a board saved with all fields and a non-zero height reads back as itself; with height zero it takes the current height |
| Layout.LoadBoardOrder | src/App.tsx:94 | the saved board order, or `[work, life]` when none is saved |
| Layout.Load | src/App.tsx:90-106 | with saved boards, the result holds exactly `work` and `life`, each merged from its saved record; the saved order is taken unchecked; without saved boards only the order is set |
| Layout.LoadRoundTrip | src/App.tsx:96-101 | saving a two-board workspace with non-zero heights and loading it back gives the same workspace, ids, orders and flags included |
| Layout.StartupHeights | src/App.tsx:71-101 | after start-up every board has its usable saved height or the computed one, never an undefined or zero one |

## Left out

- Rendering, CSS classes, themes, dark mode, the settings panel and keyboard shortcuts: presentation only.
- `localStorage` reads and writes and JSON (de)serialisation: storage and parsing happen outside the model. `Load` receives the parsed values, and a saved field of the wrong JSON type (say a `null` title) is not representable.
- The persistence effects: every state change is written back whole, so they carry no logic of their own.
- Window resize and keydown listeners, focus management and `e.dataTransfer`: event plumbing. Which handlers a `dragend` reaches is modelled by `DragSource`.
- `Date.now()` and `toLocaleDateString()`: the task id and date label are parameters of `AddTask`. Id uniqueness is not assumed anywhere. Lemmas that need an id to be fresh say so in their preconditions.
- React's batching of updates and stale closures, such as the index read by `handleColumnDragOver` or several drag-overs within one render: each handler is modelled as a sequential step over the latest state.
- `handleDrop` mutates the previous state object in place (lines 372-380). Only the resulting value is modelled. If the target slot is missing after the origin was already filtered, the model returns an error and does not model the half-mutated previous state.
- The editing and new-task input UI state (`editingTask`, `showNewTaskInput`, `newTaskText`) cleared by the handlers: presentation only.
- JavaScript property lookup through the object prototype, for ids such as `constructor`: ids are plain map keys.
- BoardStore.UpdateBoardTitle: for an unknown board id the application inserts a record holding only a title. The model reports `MissingBoard` instead, because a board without its other fields is not a `Board`.
- Reorder.ColumnDragOver: for a tracked index outside the column order the application inserts `undefined` into the order. The model reports `ColumnIndexOutOfRange`, because an order of ids has no such element. Rendered indices are always in range.
- Layout.InitializeHeights and Layout.Load: if `work` or `life` were missing, the application would create a board holding only some fields. The model reports `MissingBoard`. Neither board is ever removed.
- Task counts (`TotalTasks`, `WorkspaceTasks`) are ghost functions, summed over map values in no fixed key order, which is why `Object.values` order does not matter for them.

## Findings

| source | as written | input that shows it | evidently intended | confidence | as-written member | corrected member |
|---|---|---|---|---|---|---|
| src/App.tsx:557-565 | Task cards have no `onDragEnd`. A task drag released outside every task list keeps `draggedTask` and `draggedFrom`, because only the column and board end handlers run. A later column or board drag dropped over a task list reaches `handleDrop`, which moves the stale task | Drag task T out of work/todo and release it outside any list. Then drag column `done` of the `life` board, carry it over the `work` board and release it over the task list of `inprogress`. The column drag-over handlers of `work` leave its order alone, because the dragged column belongs to `life`, and T leaves `todo` and lands in `inprogress` | Every gesture's end clears the whole drag session, so that only a task being dragged can be dropped | medium, not executed | Session.DragEndAsWritten (shown by Gestures.StaleTaskMovedByColumnDragAsWritten) | Session.DragEnd (proved by Session.GestureEndIsIdle and Gestures.ColumnDragAfterAnyGestureMovesNoTask) |
