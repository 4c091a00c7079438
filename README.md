# PyKanBan data layer in Dafny

PyKanBan is a desktop kanban board. Its data layer keeps boards (`Kanban`), columns
(`KanbanColumn`), tasks (`Task`), the links between tasks and columns (`TaskColumnLink`),
a current-board pointer (`last_kanban`) and sticky notes (`Note`) in one SQLite file.
The layer comes in two lineages:

- the `Database` class of `src/database.py`, the current one;
- the module-level functions of the older top-level `database.py`, with a smaller schema
  (a task has only `text`; there are no notes and no `last_kanban`).

This project models every table as an in-memory relation and every operation as what
its SQL statements do to those relations.

- A table of an `AUTOINCREMENT` key is a sequence in rowid order, with its own
  next-id counter. The counter starts at 1, and an INSERT refused by a constraint does
  not advance it.
- `TaskColumnLink` is a set, because its primary key is the whole row.
- `UNIQUE (name)` on boards and `UNIQUE (name, kanban_id)` on columns are failure
  branches, which return None or False as the Python code does.
- `fetchone()` is the first matching row in rowid order (`Relations.Find`). The one
  exception is the column lookup by name alone in `modify_task`. The
  `UNIQUE (name, kanban_id)` index covers that query, so its first row is the match
  with the least board id (`Boards.FindColumnByName`).
- A `WHERE` clause is a predicate over rows (`Relations.Filter` and `Relations.Update`).

Files:

- `relations.dfy` (module `Relations`): the generic table operations and their lemmas.
- `boards.dfy` (module `Boards`): the board, column and link tables. It holds the board
  and column statements, which are the same in both lineages, and the invariant `Valid`:
  - the keys of each table increase;
  - board names are unique;
  - column names are unique within a board;
  - every link names an existing column;
  - a task has at most one link.
- `kanban_spec.dfy` (module `KanbanSpec`): `src/database.py` as functions from the old
  tables to the new tables and the result. Its store invariant adds that every link
  names an existing task.
- `kanban_database.dfy` (module `KanbanDatabase`): the class `Database`.
  - Its fields are the tables.
  - Each state-changing method runs the Python method's statements one at a time.
  - Each method is proved to end in the state the `KanbanSpec` function describes, and
    to keep `Valid()`.
- `legacy_spec.dfy` and `legacy_database.dfy` (modules `LegacySpec`, `LegacyDatabase`):
  the same pair for `database.py`. The database file its functions share is an object
  there.

Read-only queries change nothing. They are the functions `Boards.GetKanbans`,
`Boards.GetColumns`, `KanbanSpec.GetTasks` and the like, applied to `Contents()`.

The code's behaviour, which differs from what the schema and names suggest:

- Foreign keys are declared but never switched on (no `PRAGMA foreign_keys`):
  - `create_column` accepts any board id;
  - `update_current_kanban` accepts any id;
  - "a column belongs to an existing board" is therefore not part of `Valid`.
- A missing board, column or task is reported as None, False, an empty list or the
  name "Kanban", not as a distinct not-found error. The one exception is the older
  `get_kanban_name`, which raises a `TypeError` on a missing board (database.py:299);
  `LegacySpec.GetKanbanName` returns None for it. After `delete_column`, listing the
  deleted column's tasks returns an empty list (`KanbanSpec.DeleteColumnOrphansTasks`).
- Moving a task is an `UPDATE` of its links, not a delete followed by an insert.
  - A task with no link stays unlinked.
  - Every operation of both lineages still keeps at most one link per task (`Boards.Valid`).

## Model

| member | source | states |
|---|---|---|
| Boards.FindColumn | src/database.py:305-311 | None exactly when the board has no column of that name; otherwise a column of that board with that name |
| Boards.FindColumnByName | src/database.py:395-400 | None exactly when no column of any board has the name; otherwise a column with that name whose board id is the least among all columns of that name (the order of the `UNIQUE (name, kanban_id)` index) |
| Boards.FindColumnByNameUnique | src/database.py:395-400 | in a valid table the lookup returns exactly the column of that name in the least board that has one |
| Boards.LookupFollowsIndexOrder | src/database.py:395-400 | board 2's "Review" created before board 1's: the lookup returns board 1's column, the later row |
| Boards.CreateKanban | src/database.py:153-173 | None exactly when a board already has the name, and then nothing changes; otherwise the id is the board counter's value and the counter advances by one, with one more board row, the old rows plus `Kanban(id, name)`; columns and links untouched |
| Boards.CreateKanbanFresh | src/database.py:164-168 | the new id belonged to no board, the invariant holds afterwards, and the name now identifies only the new board |
| Boards.ModifyKanban | src/database.py:189-209 | True exactly when the board exists and no other board has the new name; on False nothing changes; on True only that board's name changes, ids and order stay |
| Boards.ModifyKanbanKeepsValid | src/database.py:194-203 | renaming keeps board names unique and the invariant; on success `Kanban(id, name)` is present |
| Boards.DeleteKanban | src/database.py:211-242 | result is True exactly when the board row existed; afterwards exactly the other boards, exactly the columns of other boards, and exactly the links not into a column of that board remain; counters unchanged |
| Boards.DeleteKanbanKeepsValid | src/database.py:217-230 | the three DELETEs keep the invariant: no link is left pointing at a deleted column |
| Boards.DeleteMissingKanban | src/database.py:217-240 | deleting an absent board that has no columns changes nothing and returns False |
| Boards.CreateColumn | src/database.py:244-261 | None exactly when that board already has a column of that name, and then nothing changes; the same name in another board is accepted; otherwise the id is the column counter's value, the counter advances by one, and the rows are the old rows plus the new column |
| Boards.CreateColumnFresh | src/database.py:250-255 | the new column id is fresh and the invariant holds afterwards |
| Boards.DeleteColumn | src/database.py:275-297 | result is True exactly when the column existed; afterwards exactly the other columns and the links not into it remain; boards untouched |
| Boards.DeleteColumnKeepsValid | src/database.py:281-288 | deleting links then the column keeps the invariant |
| Boards.SeedColumns | src/database.py:43-46 | after the three create_column calls the board has "To Do", "In Progress" and "Done"; old columns stay and every new column is in that board with one of those names |
| Boards.SeedColumnsAppend | src/database.py:43-46 | on a board with no column, the three inserts append "To Do", "In Progress" and "Done" in that order, under the next three column ids |
| Boards.SelectAppended | src/database.py:263-273 | selecting a board's columns after rows of that board were appended to a table holding none of its columns yields exactly the appended rows |
| Boards.SeedColumnsOrder | src/database.py:43-46 | on a board with no column, get_columns afterwards is exactly [(n, "To Do"), (n+1, "In Progress"), (n+2, "Done")] with n the column counter before |
| Boards.SeedColumnsKeepsValid | src/database.py:43-46 | the three inserts keep the invariant |
| Boards.GetKanbans | src/database.py:175-187 | exactly the board rows, with increasing ids and unique names in a valid store |
| Boards.GetColumns | src/database.py:263-273 | every pair returned is (id, name) of a column of that board, every column of the board appears, ids increase |
| Boards.KanbanName | src/database.py:443-445 | None exactly when no board has the id; otherwise that board's name |
| Boards.RepointTaskKeepsValid | src/database.py:402-406 | re-pointing a task's links to an existing column keeps the invariant, sends every link of the task to that column and moves no other task's link |
| Boards.LinkNewTaskKeepsValid | src/database.py:322-326 | linking a task that had no link to an existing column keeps the invariant |
| KanbanSpec.EmptyStoreValid | src/database.py:58-106 | the freshly created tables satisfy the invariant |
| KanbanSpec.BoardChangeKeepsValid | src/database.py:211-297 | a board or column change that keeps the board invariant and only removes links keeps the store invariant |
| KanbanSpec.CreateDatabase | src/database.py:48-110 | afterwards the pointer row exists; it is `1` when it was missing and unchanged when present; no other table changes |
| KanbanSpec.Initialize | src/database.py:39-46 | afterwards there is a board; with no board before, exactly one board "Default" with the next id, holding "To Do", "In Progress" and "Done", every new column in that board with one of those three names; if no column carried that board id, get_columns of the new board is exactly those three in that order with the next three column ids; with boards before, only create_database's effect; old columns kept; tasks, notes, links and the task and note counters untouched |
| KanbanSpec.InitializeIdempotent | src/database.py:39-46 | running initialize_database twice equals running it once |
| KanbanSpec.InitializeKeepsValid | src/database.py:39-46 | initialize_database keeps the store invariant |
| KanbanSpec.UpdateCurrentKanban | src/database.py:112-128 | only the pointer changes: to the given id when its row exists, and nothing changes when the row is missing |
| KanbanSpec.GetCurrentKanban | src/database.py:130-151 | None exactly when the pointer row is missing; otherwise the kanban_id it holds |
| KanbanSpec.CurrentKanbanRoundTrip | src/database.py:112-151 | after initialize_database, get_current_kanban returns what update_current_kanban last wrote, and 1 on a new file |
| KanbanSpec.AddTask | src/database.py:299-330 | None exactly when the board has no column of that name, and then nothing is written; otherwise the returned id is the task counter's value and the counter advances by one, with one new task row (title, created today) under that id and exactly one new link from it to a column of that board with that name; nothing else changes |
| KanbanSpec.InsertTaskKeepsValid | src/database.py:316-326 | the two INSERTs keep the invariant, use a fresh task id and leave the new task with exactly one link |
| KanbanSpec.AddTaskKeepsValid | src/database.py:299-330 | add_task keeps the invariant; a returned id is fresh and has exactly one link |
| KanbanSpec.GetTasks | src/database.py:332-358 | with None or 0 every task row, linked or not; otherwise exactly the tasks linked to that existing column, in id order |
| KanbanSpec.GetTaskById | src/database.py:360-371 | None exactly when no task has the id; otherwise the id and the title of a task with that id |
| KanbanSpec.GetTaskByIdFinds | src/database.py:360-371 | in a valid store the lookup returns the one task with that id |
| KanbanSpec.AddTaskThenGet | src/database.py:299-371 | a task add_task created is found by get_task_by_id with its title and is listed by get_tasks under its column |
| KanbanSpec.RetitleTaskKeepsValid | src/database.py:389-393 | the title UPDATE keeps the invariant and the set of task ids |
| KanbanSpec.RelinkTaskKeepsValid | src/database.py:402-406 | the link UPDATE to an existing column keeps the invariant |
| KanbanSpec.ModifyTask | src/database.py:373-414 | False exactly when a column name is given (non-empty) and no column of any board has it, and then nothing changes, the title update included; otherwise the given title replaces the task's title (ids and creation dates stay, others untouched) and the task's links are re-pointed to a column with that name in the least board id that has one |
| KanbanSpec.ModifyTaskKeepsValid | src/database.py:373-414 | modify_task keeps the invariant |
| KanbanSpec.ModifyTaskCrossesBoards | src/database.py:395-406 | with two boards that each have "Done", moving the second board's task to "Done" links it to the first board's column, while the board-scoped lookup leaves it in place |
| KanbanSpec.TwoDoneColumnsValid | src/database.py:58-106 | the two-board example satisfies the invariant, so it is a state the tables can hold |
| KanbanSpec.LookupCrossesBoards | src/database.py:395-400 | on those columns the name lookup picks the first board's column, the board-scoped lookup the second's |
| KanbanSpec.ModifyTaskInBoard | src/database.py:395-400 | corrected lookup, scoped to the board passed in (the one on screen): False exactly when a column name is given and that board has no such column, and then nothing changes; without a column name it equals `ModifyTask`; on success with a column name, the title update of `ModifyTask` followed by re-pointing the task's links to that board's column of that name |
| KanbanSpec.ModifyTaskInBoardStaysOnBoard | src/database.py:395-406 | with the corrected lookup the invariant holds; on success the tasks are those of the title update, a task that had a link has exactly one, to that board's column of that name, and no other task's link moves |
| KanbanSpec.RenameThenGet | src/database.py:373-393 | after modify_task with a non-empty title, get_task_by_id returns the new title and the creation date is unchanged |
| KanbanSpec.DeleteTask | src/database.py:416-436 | no task with that title: nothing changes; otherwise the first such task in id order loses exactly its row and its links; nothing else changes |
| KanbanSpec.DeleteTaskKeepsValid | src/database.py:416-436 | delete_task keeps the invariant |
| KanbanSpec.DeleteColumnOrphansTasks | src/database.py:275-358 | after delete_column every task is still listed by get_tasks() and get_tasks(deleted id) is empty |
| KanbanSpec.DeleteKanbanKeepsTasks | src/database.py:211-358 | after delete_kanban every task row is still listed, and the board's former columns list nothing |
| KanbanSpec.AddNote | src/database.py:465-481 | the returned id is the note counter's value and the counter advances by one; one more note, the old notes plus the new one under that id; nothing else changes |
| KanbanSpec.GetNote | src/database.py:483-495 | None exactly when no note has the id; otherwise a note with that id |
| KanbanSpec.GetAllNotes | src/database.py:451-463 | exactly the notes, in id order |
| KanbanSpec.UpdateNote | src/database.py:497-513 | the note with that id gets the new title and content and keeps its id; every other note and table is unchanged |
| KanbanSpec.DeleteNote | src/database.py:515-526 | exactly the notes with other ids remain; nothing else changes |
| KanbanSpec.NoteChangesKeepValid | src/database.py:465-526 | add_note, update_note and delete_note keep the invariant |
| KanbanSpec.AddNoteThenGet | src/database.py:465-495 | get_note with the id add_note returned gives the new note |
| KanbanSpec.UpdateNoteThenGet | src/database.py:483-513 | get_note after update_note of an existing note gives the new title and content |
| KanbanSpec.DeleteNoteThenGet | src/database.py:483-526 | get_note after delete_note finds nothing |
| KanbanSpec.GetKanbanName | src/database.py:438-449 | the board's name when the board exists, and "Kanban" when there is no such board |
| KanbanDatabase.Database.Open | src/database.py:9-16 | the object's tables are the given valid tables |
| KanbanDatabase.Database.CreateDatabase | src/database.py:48-110 | the state afterwards is `KanbanSpec.CreateDatabase` of the state before, and valid |
| KanbanDatabase.Database.InitializeDatabase | src/database.py:39-46 | create_database, then create_kanban and three create_column calls with the returned id, end in `KanbanSpec.Initialize` of the state before |
| KanbanDatabase.Database.UpdateCurrentKanban | src/database.py:112-128 | the new state is `KanbanSpec.UpdateCurrentKanban` of the old |
| KanbanDatabase.Database.CreateKanban | src/database.py:153-173 | the new board tables and the id are `Boards.CreateKanban` of the old tables; valid afterwards |
| KanbanDatabase.Database.ModifyKanban | src/database.py:189-209 | the UPDATE with its constraint and rowcount check gives `Boards.ModifyKanban` |
| KanbanDatabase.Database.DeleteKanban | src/database.py:211-242 | links, then columns, then the board are deleted, giving `Boards.DeleteKanban`; valid afterwards |
| KanbanDatabase.Database.CreateColumn | src/database.py:244-261 | the INSERT gives `Boards.CreateColumn` |
| KanbanDatabase.Database.DeleteColumn | src/database.py:275-297 | links, then the column are deleted, giving `Boards.DeleteColumn` |
| KanbanDatabase.Database.AddTask | src/database.py:299-330 | the lookup, the task INSERT and the link INSERT give `KanbanSpec.AddTask` |
| KanbanDatabase.Database.ModifyTask | src/database.py:373-414 | the title UPDATE, the lookup `Boards.FindColumnByName` (the column of that name in the least board id) and the link UPDATE, undone when the lookup fails, give `KanbanSpec.ModifyTask` |
| KanbanDatabase.Database.DeleteTask | src/database.py:416-436 | the lookup and the two DELETEs give `KanbanSpec.DeleteTask` |
| KanbanDatabase.Database.AddNote | src/database.py:465-481 | the INSERT gives `KanbanSpec.AddNote` and returns its id |
| KanbanDatabase.Database.UpdateNote | src/database.py:497-513 | the UPDATE gives `KanbanSpec.UpdateNote` |
| KanbanDatabase.Database.DeleteNote | src/database.py:515-526 | the DELETE gives `KanbanSpec.DeleteNote` |
| LegacySpec.EmptyLegacyStoreValid | database.py:15-46 | the freshly created tables satisfy the invariant |
| LegacySpec.BoardChangeKeepsValid | database.py:94-168 | a board or column change that keeps the board invariant and only removes links keeps the store invariant |
| LegacySpec.Initialize | database.py:6-13 | as written: with boards nothing changes; with none, one board "Default" with the next id, and the three default columns in board 1, every new column in board 1 with one of those names; if no column was in board 1, get_columns(1) is exactly those three in order with the next three column ids; old columns, tasks, links and the task counter kept |
| LegacySpec.InitializeIntended | database.py:6-13 | corrected: with no board, one board "Default" with the next id, holding the three default columns, every new column in that board with one of those names; if no column carried that id, get_columns of the new board is exactly those three in order with the next three column ids; old columns, tasks, links and the task counter kept; with boards, nothing changes |
| LegacySpec.InitializeIdempotent | database.py:6-13 | both versions are idempotent |
| LegacySpec.InitializeKeepsValid | database.py:6-13 | both versions keep the invariant |
| LegacySpec.InitializeMisplacesColumns | database.py:10-13 | with no board and a next board id other than 1, the new Default board gets no column |
| LegacySpec.DefaultBoardLosesColumns | database.py:6-13 | initialize, delete board 1, initialize again: board 2 "Default" is the only board and has no column |
| LegacySpec.InitializeIntendedSeedsOwnBoard | database.py:10-13 | with the correction the new Default board lists "To Do", "In Progress" and "Done"; if no column carried the new id, exactly those, in that order, with the next three column ids |
| LegacySpec.AddTask | database.py:171-193 | None exactly when the board has no column of that name, and nothing is written; otherwise the returned id is the task counter's value, which advances by one, with one new task with the text and exactly one new link to a column of that board with that name |
| LegacySpec.InsertTaskKeepsValid | database.py:185-189 | the two INSERTs keep the invariant, use a fresh id and leave exactly one link |
| LegacySpec.AddTaskKeepsValid | database.py:171-193 | add_task keeps the invariant; the returned id is fresh with one link |
| LegacySpec.GetTasks | database.py:196-219 | with None or 0 every task row; otherwise exactly the tasks linked to that existing column, in id order |
| LegacySpec.GetTaskById | database.py:221-232 | None exactly when no task has the id; otherwise the row with that id |
| LegacySpec.AddTaskThenGet | database.py:171-232 | a task add_task created is found by id and listed under its column |
| LegacySpec.RewriteRowsKeepsValid | database.py:249-251 | the text UPDATE keeps the invariant |
| LegacySpec.ModifyTask | database.py:234-267 | False exactly when a column name is given and no column of any board has it, and then nothing changes; otherwise the given text replaces the task's text (others untouched, text unchanged when none is given) and the task's links are re-pointed to a column with that name in the least board id that has one |
| LegacySpec.ModifyTaskKeepsValid | database.py:234-267 | modify_task keeps the invariant |
| LegacySpec.ModifyTaskWithoutChanges | database.py:248-262 | with neither text nor column name nothing changes and the result is True |
| LegacySpec.DeleteTask | database.py:268-288 | no task with that text: nothing changes; otherwise the first such task loses exactly its row and its links |
| LegacySpec.DeleteTaskKeepsValid | database.py:268-288 | delete_task keeps the invariant |
| LegacySpec.DeleteTaskThenGet | database.py:268-288 | a deleted task whose text was unique is no longer found by id |
| LegacySpec.GetKanbanName | database.py:291-299 | None (the raised TypeError) exactly when no board has the id; otherwise that board's name |
| LegacyDatabase.Database.Open | database.py:4 | the object's tables are the given valid tables of the file at DATABASE_PATH |
| LegacyDatabase.Database.InitializeDatabase | database.py:6-13 | create_kanban("Default") and three create_column calls for board 1 give `LegacySpec.Initialize` |
| LegacyDatabase.Database.CreateKanban | database.py:48-62 | the INSERT gives `Boards.CreateKanban`; valid afterwards |
| LegacyDatabase.Database.ModifyKanban | database.py:74-92 | the UPDATE with its constraint and rowcount check gives `Boards.ModifyKanban` |
| LegacyDatabase.Database.DeleteKanban | database.py:94-120 | links, then columns, then the board are deleted, giving `Boards.DeleteKanban` |
| LegacyDatabase.Database.CreateColumn | database.py:122-136 | the INSERT gives `Boards.CreateColumn` |
| LegacyDatabase.Database.DeleteColumn | database.py:148-168 | links, then the column are deleted, giving `Boards.DeleteColumn` |
| LegacyDatabase.Database.AddTask | database.py:171-193 | the lookup and the two INSERTs give `LegacySpec.AddTask` |
| LegacyDatabase.Database.ModifyTask | database.py:234-267 | the text UPDATE, the lookup `Boards.FindColumnByName` (the column of that name in the least board id, database.py:255-256) and the link UPDATE, undone when the lookup fails, give `LegacySpec.ModifyTask` |
| LegacyDatabase.Database.DeleteTask | database.py:268-288 | the lookup and the two DELETEs give `LegacySpec.DeleteTask` |

## Left out

- Config file and paths: `create_config_file`, `read_config_file`, `modify_config_file`,
  `os.makedirs` and the path set-up in `__init__` and `create_database` are file-system I/O.
  A database object stands for an open file whose tables are given.
- Connections, cursors, commits and `print` logging are not modelled; each method is one
  transaction on the tables.
- The `CREATE TABLE IF NOT EXISTS` statements are not modelled as operations: the tables
  always exist. An `sqlite3.Error` from a missing or broken file is left out, so
  `get_current_kanban` and `update_current_kanban` have no error branch.
- The clock: `date.today()` in `add_task` is the parameter `today`.
- Nullable arguments: a None title, name or content that a NOT NULL column would refuse
  is not modelled; strings are always present. `modify_task`'s None or empty-string
  arguments are modelled.
- `KanbanSpec.UpdateCurrentKanban`/`KanbanSpec.GetCurrentKanban`: a None board id is not
  modelled. The pointer holds an integer or no row at all. `last_kanban.kanban_id` has
  no NOT NULL constraint, so the program can store NULL there:
  - `create_kanban` returns None for a duplicate name (src/database.py:169-171);
  - the board view then calls `update_current_kanban(None)`.
  After that, `get_current_kanban` returns None although the row exists, which the model
  cannot represent. `CurrentKanbanRoundTrip` covers integer writes only. A
  `create_column(name, None)` call is refused by NOT NULL as an `IntegrityError` and
  returns None. `Boards.CreateColumn` takes an integer board id and does not model it.
- `KanbanSpec.ModifyTask`: when a task has two links and both are re-pointed, SQLite
  would refuse the UPDATE on the primary key. This is not modelled, because the invariant
  proves that a task never has two links.
- `KanbanDatabase.Database.ModifyTask` and `LegacyDatabase.Database.ModifyTask` follow
  the code as written (lookup by name in any board). The corrected lookup is
  `KanbanSpec.ModifyTaskInBoard`, a function beside the as-written one.
- `LegacyDatabase.Database.InitializeDatabase` likewise follows the code (columns in
  board 1). The corrected start-up is `LegacySpec.InitializeIntended`.
- Row order of the queries without `ORDER BY` is taken to be the order SQLite's plan gives.
  For table scans, and for the task join, that is rowid order. For the name-only column
  lookup in `modify_task` it is the order of the `UNIQUE (name, kanban_id)` index, which
  covers that query. The model assumes that this plan is the one chosen.
- The UI, which is not part of this model: `src/main.py`, `main.py`, the widget and
  dialog modules, `animation.py` and `setting.py`. This includes the sequence in
  `src/main.py:124-128` that gives every board created from the menu the three default
  columns. When `create_kanban` succeeds, it is `Boards.SeedColumns` after
  `Boards.CreateKanban`. When the name is taken, the sequence goes on with a None board
  id, which is not modelled (see the `KanbanSpec.UpdateCurrentKanban` line above). `src/ui/ctk_task.py`,
  through which a drop reaches `modify_task`, is not part of this model.

## Findings

| source | as written | input that shows it | evidently intended | confidence | as-written member | corrected member |
|---|---|---|---|---|---|---|
| src/database.py:395-400 | `modify_task` resolves the new column by name alone, `SELECT id FROM KanbanColumn WHERE name = ?`, in every board; a drop (src/main.py:140-155) passes only the column title | boards 1 and 2 each with a "Done" column (every board gets one, src/main.py:124-128); the task on board 2's "Done" is moved to "Done" and lands on board 1's, the match with the least board id | the column named so in the board the task is on | not executed; high | KanbanSpec.ModifyTaskCrossesBoards | KanbanSpec.ModifyTaskInBoardStaysOnBoard |
| database.py:10-13 | `initialize_database` attaches the three default columns to board id 1, whatever id `create_kanban` returned | on a new file: initialize, `delete_kanban(1)`, initialize again; the new "Default" board gets id 2 and no column | the columns go to the id create_kanban returned, as src/database.py:42-46 does | not executed; high | LegacySpec.DefaultBoardLosesColumns | LegacySpec.InitializeIntendedSeedsOwnBoard |
