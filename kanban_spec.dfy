/** What each operation of the `Database` class of src/database.py does to
    the tables of its SQLite file, as functions from the old tables to the
    new tables and the returned value. The class in kanban_database.dfy
    performs the same statements one by one and is proved to agree. */
module KanbanSpec {
  import opened Relations
  import opened Boards

  /** A row of `Task (id ... AUTOINCREMENT, title TEXT NOT NULL, created_at TEXT NOT NULL)`. */
  datatype Task = Task(id: int, title: string, createdAt: string)

  /** A row of `Note (id ... AUTOINCREMENT, title TEXT NOT NULL, content TEXT NOT NULL)`. */
  datatype Note = Note(id: int, title: string, content: string)

  function TaskKey(t: Task): int { t.id }
  function NoteKey(n: Note): int { n.id }

  /** Every table of the database file. `lastKanban` is the kanban_id of the
      single `last_kanban` row (id = 1), None while that row does not exist. */
  datatype Store = Store(
    boards: BoardTables,
    tasks: seq<Task>,
    notes: seq<Note>,
    lastKanban: Option<int>,
    nextTaskId: int,
    nextNoteId: int)

  /** The tables right after `CREATE TABLE IF NOT EXISTS` in a new file. */
  const EmptyStore := Store(NoBoards, [], [], None, 1, 1)

  function TaskIds(tasks: seq<Task>): set<int>
  {
    set t | t in tasks :: t.id
  }

  ghost predicate Valid(s: Store)
  {
    && Boards.Valid(s.boards)
    && IdTable(s.tasks, TaskKey, s.nextTaskId)
    && IdTable(s.notes, NoteKey, s.nextNoteId)
    && forall l :: l in s.boards.links ==> l.taskId in TaskIds(s.tasks)
  }

  lemma EmptyStoreValid()
    ensures Valid(EmptyStore)
  {
  }

  /** A board or column operation keeps the whole store valid: it keeps the
      board tables valid and only ever removes links. */
  lemma BoardChangeKeepsValid(s: Store, b: BoardTables)
    requires Valid(s) && Boards.Valid(b) && b.links <= s.boards.links
    ensures Valid(s.(boards := b))
  {
  }

  // ---------------------------------------------------------------------
  // Start-up

  /** create_database: the tables exist afterwards (the model's tables always
      do) and `INSERT OR IGNORE INTO last_kanban VALUES (1, 1)` adds the
      pointer row only when there is none. */
  function CreateDatabase(s: Store): (r: Store)
    ensures r.lastKanban.Some?
    ensures s.lastKanban.Some? ==> r == s
    ensures s.lastKanban.None? ==> r.lastKanban == Some(1)
    ensures r.(lastKanban := s.lastKanban) == s
  {
    if s.lastKanban.None? then s.(lastKanban := Some(1)) else s
  }

  /** initialize_database: only when there is no board at all, a "Default"
      board with the columns "To Do", "In Progress" and "Done", all attached
      to the id that create_kanban returned. */
  function Initialize(s: Store): (r: Store)
    ensures r.boards.kanbans != []
    ensures s.boards.kanbans != [] ==> r == CreateDatabase(s)
    ensures s.boards.kanbans == [] ==> r.boards.kanbans == [Kanban(s.boards.nextKanbanId, "Default")]
    ensures s.boards.kanbans == [] ==>
              forall n :: n in DefaultColumnNames ==> ColumnTaken(r.boards.columns, n, s.boards.nextKanbanId)
    ensures s.boards.kanbans == [] ==>
              forall c :: c in r.boards.columns && c !in s.boards.columns ==>
                c.kanbanId == s.boards.nextKanbanId && c.name in DefaultColumnNames
    ensures s.boards.kanbans == [] && NoColumnsIn(s.boards.columns, s.boards.nextKanbanId) ==>
              GetColumns(r.boards, s.boards.nextKanbanId) == DefaultColumnRows(s.boards.nextColumnId)
    ensures forall c :: c in s.boards.columns ==> c in r.boards.columns
    ensures r.tasks == s.tasks && r.notes == s.notes && r.boards.links == s.boards.links
    ensures r.nextTaskId == s.nextTaskId && r.nextNoteId == s.nextNoteId
    ensures r.lastKanban == CreateDatabase(s).lastKanban
  {
    var s1 := CreateDatabase(s);
    if GetKanbans(s1.boards) != [] then s1
    else
      var (b1, id) := CreateKanban(s1.boards, "Default");
      assert id.Some? by { assert !NameTaken(s1.boards.kanbans, "Default"); }
      assert NoColumnsIn(b1.columns, id.value) ==>
               GetColumns(SeedColumns(b1, id.value), id.value) == DefaultColumnRows(b1.nextColumnId) by {
        if NoColumnsIn(b1.columns, id.value) { SeedColumnsOrder(b1, id.value); }
      }
      s1.(boards := SeedColumns(b1, id.value))
  }

  /** Running initialize_database a second time changes nothing. */
  lemma InitializeIdempotent(s: Store)
    ensures Initialize(Initialize(s)) == Initialize(s)
  {
  }

  lemma InitializeKeepsValid(s: Store)
    requires Valid(s)
    ensures Valid(Initialize(s))
  {
    var s1 := CreateDatabase(s);
    if s1.boards.kanbans == [] {
      CreateKanbanFresh(s1.boards, "Default");
      var b1 := CreateKanban(s1.boards, "Default").0;
      SeedColumnsKeepsValid(b1, s1.boards.nextKanbanId);
    }
  }

  // ---------------------------------------------------------------------
  // The current-board pointer

  /** update_current_kanban: UPDATE last_kanban SET kanban_id = ? WHERE id = 1.
      The id is not checked against the boards. */
  function UpdateCurrentKanban(s: Store, kanbanId: int): (r: Store)
    ensures r.(lastKanban := s.lastKanban) == s
    ensures s.lastKanban.None? ==> r == s
    ensures s.lastKanban.Some? ==> r.lastKanban == Some(kanbanId)
  {
    if s.lastKanban.Some? then s.(lastKanban := Some(kanbanId)) else s
  }

  /** get_current_kanban: the kanban_id of the pointer row, None without a row. */
  function GetCurrentKanban(s: Store): (r: Option<int>)
    ensures r.None? <==> s.lastKanban.None?
    ensures r.Some? ==> s.lastKanban == Some(r.value)
  {
    s.lastKanban
  }

  /** Once initialize_database has run, the pointer reads back what was last written. */
  lemma CurrentKanbanRoundTrip(s: Store, kanbanId: int)
    ensures GetCurrentKanban(UpdateCurrentKanban(Initialize(s), kanbanId)) == Some(kanbanId)
    ensures GetCurrentKanban(Initialize(EmptyStore)) == Some(1)
  {
  }

  // ---------------------------------------------------------------------
  // Tasks

  /** add_task: look the column up by name within the board; without a match
      return None and write nothing; otherwise insert the task, created today,
      then one link from it to that column, and return its id. */
  function AddTask(s: Store, title: string, columnName: string, kanbanId: int, today: string): (r: (Store, Option<int>))
    ensures r.1.None? <==> !ColumnTaken(s.boards.columns, columnName, kanbanId)
    ensures r.1.None? ==> r.0 == s
    ensures r.1.Some? ==> r.1.value == s.nextTaskId && r.0.nextTaskId == s.nextTaskId + 1
    ensures r.1.Some? ==> |r.0.tasks| == |s.tasks| + 1 &&
                          forall t :: t in r.0.tasks <==> t in s.tasks || t == Task(r.1.value, title, today)
    ensures r.1.Some? ==> exists c :: c in s.boards.columns && c.name == columnName && c.kanbanId == kanbanId &&
                                      r.0.boards.links == s.boards.links + {Link(r.1.value, c.id)}
    ensures r.0.boards == s.boards.(links := r.0.boards.links)
    ensures r.0.notes == s.notes && r.0.lastKanban == s.lastKanban && r.0.nextNoteId == s.nextNoteId
  {
    match FindColumn(s.boards.columns, columnName, kanbanId)
    case None => (s, None)
    case Some(c) => (InsertTask(s, title, today, c.id), Some(s.nextTaskId))
  }

  /** The two INSERTs of add_task once the column is known: the Task row,
      then the TaskColumnLink row from the new id to `columnId`. */
  function InsertTask(s: Store, title: string, today: string, columnId: int): Store
  {
    var id := s.nextTaskId;
    s.(tasks := s.tasks + [Task(id, title, today)], nextTaskId := id + 1,
       boards := s.boards.(links := s.boards.links + {Link(id, columnId)}))
  }

  lemma InsertTaskKeepsValid(s: Store, title: string, today: string, columnId: int)
    requires Valid(s) && columnId in ColumnIds(s.boards.columns)
    ensures Valid(InsertTask(s, title, today, columnId))
    ensures s.nextTaskId !in TaskIds(s.tasks)
    ensures OneLink(InsertTask(s, title, today, columnId).boards.links, s.nextTaskId)
  {
    var s' := InsertTask(s, title, today, columnId);
    var t := Task(s.nextTaskId, title, today);
    assert forall l :: l in s.boards.links ==> l.taskId != s.nextTaskId;
    LinkNewTaskKeepsValid(s.boards, s.nextTaskId, columnId);
    AppendIdTable(s.tasks, TaskKey, s.nextTaskId, t);
    assert t in s'.tasks;
    assert Link(s.nextTaskId, columnId) in s'.boards.links;
  }

  /** The new task id is fresh and the new task has exactly one link. */
  lemma AddTaskKeepsValid(s: Store, title: string, columnName: string, kanbanId: int, today: string)
    requires Valid(s)
    ensures var (s', id) := AddTask(s, title, columnName, kanbanId, today);
      Valid(s') && (id.Some? ==> id.value !in TaskIds(s.tasks) && OneLink(s'.boards.links, id.value))
  {
    match FindColumn(s.boards.columns, columnName, kanbanId)
    case None =>
    case Some(c) =>
      assert c.id in ColumnIds(s.boards.columns);
      InsertTaskKeepsValid(s, title, today, c.id);
  }

  /** get_tasks: with a truthy column id, the tasks joined through
      TaskColumnLink to that KanbanColumn row; otherwise every task row,
      linked or not. */
  function GetTasks(s: Store, columnId: Option<int>): (r: seq<Task>)
    ensures !Truthy(columnId) ==> r == s.tasks
    ensures Truthy(columnId) ==> forall t :: t in r <==>
              t in s.tasks && Link(t.id, columnId.value) in s.boards.links && HasColumn(s.boards.columns, columnId.value)
    ensures Valid(s) ==> Increasing(r, TaskKey)
  {
    if !Truthy(columnId) then s.tasks
    else
      var c := columnId.value;
      var r := Filter(s.tasks, (t: Task) => Link(t.id, c) in s.boards.links && HasColumn(s.boards.columns, c));
      assert Valid(s) ==> Increasing(r, TaskKey) by {
        if Valid(s) {
          FilterIncreasing(s.tasks, (t: Task) => Link(t.id, c) in s.boards.links && HasColumn(s.boards.columns, c), TaskKey);
        }
      }
      r
  }

  /** get_task_by_id: (id, title) of the task, None when there is no such row. */
  function GetTaskById(s: Store, id: int): (r: Option<(int, string)>)
    ensures r.None? <==> id !in TaskIds(s.tasks)
    ensures r.Some? ==> r.value.0 == id && exists t :: t in s.tasks && t.id == id && t.title == r.value.1
  {
    match Find(s.tasks, (t: Task) => t.id == id)
    case None => None
    case Some(t) => Some((t.id, t.title))
  }

  /** In a valid store the lookup returns the one row with that id. */
  lemma GetTaskByIdFinds(s: Store, t: Task)
    requires Valid(s) && t in s.tasks
    ensures GetTaskById(s, t.id) == Some((t.id, t.title))
  {
    var x :| x in s.tasks && x.id == t.id && x.title == GetTaskById(s, t.id).value.1;
    IncreasingKeyUnique(s.tasks, TaskKey, x, t);
  }

  /** A task added to a column is found by its id with its title, and is
      listed under that column. */
  lemma AddTaskThenGet(s: Store, title: string, columnName: string, kanbanId: int, today: string)
    requires Valid(s)
    ensures var (s', id) := AddTask(s, title, columnName, kanbanId, today);
      id.Some? ==> (GetTaskById(s', id.value) == Some((id.value, title)) &&
                    exists c :: c in s.boards.columns && c.name == columnName && c.kanbanId == kanbanId &&
                                Task(id.value, title, today) in GetTasks(s', Some(c.id)))
  {
    var (s', id) := AddTask(s, title, columnName, kanbanId, today);
    if id.Some? {
      AddTaskKeepsValid(s, title, columnName, kanbanId, today);
      GetTaskByIdFinds(s', Task(id.value, title, today));
      var c := FindColumn(s.boards.columns, columnName, kanbanId).value;
      assert c.id != 0 && HasColumn(s'.boards.columns, c.id);
    }
  }

  /** UPDATE Task SET title = ? WHERE id = ? */
  function RetitleRows(tasks: seq<Task>, id: int, title: string): seq<Task>
  {
    Update(tasks, (t: Task) => t.id == id, (t: Task) => t.(title := title))
  }

  function RetitleTask(s: Store, id: int, title: string): Store
  {
    s.(tasks := RetitleRows(s.tasks, id, title))
  }

  /** UPDATE TaskColumnLink SET column_id = ? WHERE task_id = ? */
  function RelinkTask(s: Store, id: int, columnId: int): Store
  {
    s.(boards := s.boards.(links := RepointTask(s.boards.links, id, columnId)))
  }

  lemma RetitleTaskKeepsValid(s: Store, id: int, title: string)
    requires Valid(s)
    ensures Valid(RetitleTask(s, id, title))
  {
    var s' := RetitleTask(s, id, title);
    UpdateIdTable(s.tasks, (t: Task) => t.id == id, (t: Task) => t.(title := title), TaskKey, s.nextTaskId);
    forall x | x in TaskIds(s.tasks) ensures x in TaskIds(s'.tasks) {
      var t :| t in s.tasks && t.id == x;
      var i :| 0 <= i < |s.tasks| && s.tasks[i] == t;
      assert s'.tasks[i] in s'.tasks;
    }
  }

  lemma RelinkTaskKeepsValid(s: Store, id: int, columnId: int)
    requires Valid(s) && columnId in ColumnIds(s.boards.columns)
    ensures Valid(RelinkTask(s, id, columnId))
  {
    RepointTaskKeepsValid(s.boards, id, columnId);
  }

  /** modify_task: a given title renames the task; a given column name
      re-points every link of the task to the first column of that name in
      any board. When no column has that name the lookup raises, the call
      returns False and the title change is rolled back with it. */
  function ModifyTask(s: Store, id: int, newTitle: Option<string>, newColumnName: Option<string>): (r: (Store, bool))
    ensures r.1 <==> !Given(newColumnName) || exists c :: c in s.boards.columns && c.name == newColumnName.value
    ensures !r.1 ==> r.0 == s
    ensures r.1 ==> |r.0.tasks| == |s.tasks|
    ensures r.1 ==> forall i :: 0 <= i < |s.tasks| ==>
              (&& r.0.tasks[i].id == s.tasks[i].id
               && r.0.tasks[i].createdAt == s.tasks[i].createdAt
               && r.0.tasks[i].title == (if s.tasks[i].id == id && Given(newTitle) then newTitle.value else s.tasks[i].title))
    ensures r.1 && !Given(newColumnName) ==> r.0.boards == s.boards
    ensures r.1 && Given(newColumnName) ==>
              exists c :: c in s.boards.columns && c.name == newColumnName.value &&
                          (forall d :: d in s.boards.columns && d.name == newColumnName.value ==> c.kanbanId <= d.kanbanId) &&
                          r.0.boards == s.boards.(links := RepointTask(s.boards.links, id, c.id))
    ensures r.0.notes == s.notes && r.0.lastKanban == s.lastKanban
    ensures r.0.nextTaskId == s.nextTaskId && r.0.nextNoteId == s.nextNoteId
  {
    var s1 := if Given(newTitle) then RetitleTask(s, id, newTitle.value) else s;
    if !Given(newColumnName) then (s1, true)
    else
      match FindColumnByName(s.boards.columns, newColumnName.value)
      case None => (s, false)
      case Some(c) => (RelinkTask(s1, id, c.id), true)
  }

  lemma ModifyTaskKeepsValid(s: Store, id: int, newTitle: Option<string>, newColumnName: Option<string>)
    requires Valid(s)
    ensures Valid(ModifyTask(s, id, newTitle, newColumnName).0)
  {
    var s1 := if Given(newTitle) then RetitleTask(s, id, newTitle.value) else s;
    if Given(newTitle) {
      RetitleTaskKeepsValid(s, id, newTitle.value);
    }
    if Given(newColumnName) {
      match FindColumnByName(s.boards.columns, newColumnName.value)
      case None =>
      case Some(c) =>
        assert c.id in ColumnIds(s1.boards.columns);
        RelinkTaskKeepsValid(s1, id, c.id);
    }
  }

  /** modify_task with the column name resolved within the board the task is
      shown on, which is what dropping a task on a column of that board asks for. */
  function ModifyTaskInBoard(s: Store, id: int, newTitle: Option<string>, newColumnName: Option<string>, kanbanId: int): (r: (Store, bool))
    ensures r.1 <==> !Given(newColumnName) || ColumnTaken(s.boards.columns, newColumnName.value, kanbanId)
    ensures !r.1 ==> r.0 == s
    ensures r.1 && !Given(newColumnName) ==> r.0 == ModifyTask(s, id, newTitle, newColumnName).0
    ensures r.1 && Given(newColumnName) ==>
              exists c :: c in s.boards.columns && c.name == newColumnName.value && c.kanbanId == kanbanId &&
                          r.0 == RelinkTask(ModifyTask(s, id, newTitle, None).0, id, c.id)
    ensures r.0.notes == s.notes && r.0.lastKanban == s.lastKanban
  {
    var s1 := if Given(newTitle) then RetitleTask(s, id, newTitle.value) else s;
    if !Given(newColumnName) then (s1, true)
    else
      match FindColumn(s.boards.columns, newColumnName.value, kanbanId)
      case None => (s, false)
      case Some(c) => (RelinkTask(s1, id, c.id), true)
  }

  /** The corrected lookup keeps the store valid, leaves every link of the
      task on a column of the requested board, and moves no other task. */
  lemma ModifyTaskInBoardStaysOnBoard(s: Store, id: int, newTitle: Option<string>, newColumnName: Option<string>, kanbanId: int)
    requires Valid(s) && Given(newColumnName)
    ensures var (s', ok) := ModifyTaskInBoard(s, id, newTitle, newColumnName, kanbanId);
      && Valid(s')
      && (ok ==> forall l :: l in s'.boards.links && l.taskId == id ==>
                   exists c :: c in s.boards.columns && c.id == l.columnId && c.kanbanId == kanbanId && c.name == newColumnName.value)
      && (ok ==> s'.tasks == ModifyTask(s, id, newTitle, None).0.tasks)
      && (ok && (exists l :: l in s.boards.links && l.taskId == id) ==>
            exists c :: c in s.boards.columns && c.kanbanId == kanbanId && c.name == newColumnName.value &&
                        forall l :: l in s'.boards.links && l.taskId == id <==> l == Link(id, c.id))
      && forall l: Link :: l.taskId != id ==> (l in s'.boards.links <==> l in s.boards.links)
  {
    var s1 := if Given(newTitle) then RetitleTask(s, id, newTitle.value) else s;
    if Given(newTitle) {
      RetitleTaskKeepsValid(s, id, newTitle.value);
    }
    match FindColumn(s.boards.columns, newColumnName.value, kanbanId)
    case None =>
    case Some(c) =>
      assert c.id in ColumnIds(s1.boards.columns);
      RelinkTaskKeepsValid(s1, id, c.id);
      RepointTaskKeepsValid(s1.boards, id, c.id);
  }

  /** Two boards that each have a "Done" column; the only task sits on the
      second board's "Done". */
  const TwoDoneColumns := Store(
    BoardTables([Kanban(1, "Work"), Kanban(2, "Home")],
                [KanbanColumn(1, "Done", 1), KanbanColumn(2, "Done", 2)],
                {Link(1, 2)}, 3, 3),
    [Task(1, "Paint", "2024-05-01")], [], Some(2), 2, 1)

  /** Dropping that task on "Done" of its own board, as the board view does,
      relinks it to the first board's "Done", so it leaves the board it was
      on; the corrected lookup keeps it in place. */
  lemma ModifyTaskCrossesBoards()
    ensures ModifyTask(TwoDoneColumns, 1, None, Some("Done")) ==
            (TwoDoneColumns.(boards := TwoDoneColumns.boards.(links := {Link(1, 1)})), true)
    ensures ModifyTaskInBoard(TwoDoneColumns, 1, None, Some("Done"), 2) == (TwoDoneColumns, true)
  {
    var s := TwoDoneColumns;
    LookupCrossesBoards(s.boards.columns);
    assert RepointTask(s.boards.links, 1, 1) == {Link(1, 1)};
    assert RepointTask(s.boards.links, 1, 2) == {Link(1, 2)};
  }

  lemma TwoDoneColumnsValid()
    ensures Valid(TwoDoneColumns)
  {
  }

  lemma LookupCrossesBoards(cols: seq<KanbanColumn>)
    requires cols == [KanbanColumn(1, "Done", 1), KanbanColumn(2, "Done", 2)]
    ensures FindColumnByName(cols, "Done") == Some(cols[0])
    ensures FindColumn(cols, "Done", 2) == Some(cols[1])
  {
    assert Increasing(cols, ColumnKey);
  }

  /** A title given to modify_task reads back through get_task_by_id, and the
      creation date stays. */
  lemma RenameThenGet(s: Store, t: Task, title: string)
    requires Valid(s) && t in s.tasks && title != ""
    ensures var s' := ModifyTask(s, t.id, Some(title), None).0;
      GetTaskById(s', t.id) == Some((t.id, title)) && Task(t.id, title, t.createdAt) in s'.tasks
  {
    var s' := ModifyTask(s, t.id, Some(title), None).0;
    ModifyTaskKeepsValid(s, t.id, Some(title), None);
    var i :| 0 <= i < |s.tasks| && s.tasks[i] == t;
    assert s'.tasks[i] == Task(t.id, title, t.createdAt);
    GetTaskByIdFinds(s', s'.tasks[i]);
  }

  /** SELECT id FROM Task WHERE title = ?, fetchone() */
  function TaskTitled(tasks: seq<Task>, text: string): Option<Task>
  {
    Find(tasks, (t: Task) => t.title == text)
  }

  /** DELETE FROM Task WHERE id = ? */
  function TasksExcept(tasks: seq<Task>, id: int): seq<Task>
  {
    Filter(tasks, (t: Task) => t.id != id)
  }

  /** delete_task: the first task whose title is `text` loses its links and
      then its row; with no such task nothing happens. */
  function DeleteTask(s: Store, text: string): (r: Store)
    ensures (forall t :: t in s.tasks ==> t.title != text) ==> r == s
    ensures (exists t :: t in s.tasks && t.title == text) ==>
              exists i :: 0 <= i < |s.tasks| && s.tasks[i].title == text &&
                          (forall j :: 0 <= j < i ==> s.tasks[j].title != text) &&
                          (forall t :: t in r.tasks <==> t in s.tasks && t.id != s.tasks[i].id) &&
                          (forall l :: l in r.boards.links <==> l in s.boards.links && l.taskId != s.tasks[i].id)
    ensures r.boards == s.boards.(links := r.boards.links)
    ensures r.notes == s.notes && r.lastKanban == s.lastKanban
    ensures r.nextTaskId == s.nextTaskId && r.nextNoteId == s.nextNoteId
  {
    match TaskTitled(s.tasks, text)
    case None => s
    case Some(t) =>
      s.(boards := s.boards.(links := UnlinkTask(s.boards.links, t.id)), tasks := TasksExcept(s.tasks, t.id))
  }

  lemma DeleteTaskKeepsValid(s: Store, text: string)
    requires Valid(s)
    ensures Valid(DeleteTask(s, text))
  {
    match TaskTitled(s.tasks, text)
    case None =>
    case Some(t) =>
      FilterIncreasing(s.tasks, (x: Task) => x.id != t.id, TaskKey);
      var s' := DeleteTask(s, text);
      forall l | l in s'.boards.links ensures l.taskId in TaskIds(s'.tasks) {
        var x :| x in s.tasks && x.id == l.taskId;
        assert x in s'.tasks;
      }
  }

  // ---------------------------------------------------------------------
  // Orphans

  /** After delete_column the unfiltered listing still holds every task,
      and the listing for the deleted column is empty. */
  lemma DeleteColumnOrphansTasks(s: Store, columnId: int)
    requires Valid(s) && columnId != 0
    ensures var s' := s.(boards := DeleteColumn(s.boards, columnId).0);
      Valid(s') && GetTasks(s', None) == s.tasks && GetTasks(s', Some(columnId)) == []
  {
    var s' := s.(boards := DeleteColumn(s.boards, columnId).0);
    DeleteColumnKeepsValid(s.boards, columnId);
    BoardChangeKeepsValid(s, s'.boards);
  }

  /** After delete_kanban every task row is still listed by get_tasks(). */
  lemma DeleteKanbanKeepsTasks(s: Store, kanbanId: int)
    requires Valid(s)
    ensures var s' := s.(boards := DeleteKanban(s.boards, kanbanId).0);
      Valid(s') && GetTasks(s', None) == s.tasks &&
      forall c :: c in s.boards.columns && c.kanbanId == kanbanId && c.id != 0 ==> GetTasks(s', Some(c.id)) == []
  {
    var s' := s.(boards := DeleteKanban(s.boards, kanbanId).0);
    DeleteKanbanKeepsValid(s.boards, kanbanId);
    BoardChangeKeepsValid(s, s'.boards);
    forall c | c in s.boards.columns && c.kanbanId == kanbanId && c.id != 0
      ensures GetTasks(s', Some(c.id)) == []
    {
      FilterNone(s'.tasks, (t: Task) => Link(t.id, c.id) in s'.boards.links && HasColumn(s'.boards.columns, c.id));
    }
  }

  // ---------------------------------------------------------------------
  // Notes

  /** add_note: INSERT INTO Note; returns the new row's id. */
  function AddNote(s: Store, title: string, content: string): (r: (Store, int))
    ensures r.1 == s.nextNoteId && r.0.nextNoteId == s.nextNoteId + 1
    ensures |r.0.notes| == |s.notes| + 1
    ensures forall n :: n in r.0.notes <==> n in s.notes || n == Note(r.1, title, content)
    ensures r.0 == s.(notes := r.0.notes, nextNoteId := r.0.nextNoteId)
  {
    var id := s.nextNoteId;
    (s.(notes := s.notes + [Note(id, title, content)], nextNoteId := id + 1), id)
  }

  /** get_note: the row with that id, None when there is none. */
  function GetNote(s: Store, id: int): (r: Option<Note>)
    ensures r.None? <==> forall n :: n in s.notes ==> n.id != id
    ensures r.Some? ==> r.value in s.notes && r.value.id == id
  {
    Find(s.notes, (n: Note) => n.id == id)
  }

  /** get_all_notes: every note, in the order of their ids. */
  function GetAllNotes(s: Store): (r: seq<Note>)
    ensures forall n :: n in r <==> n in s.notes
    ensures Valid(s) ==> Increasing(r, NoteKey)
  {
    s.notes
  }

  /** UPDATE Note SET title = ?, content = ? WHERE id = ? */
  function NotesUpdated(notes: seq<Note>, id: int, title: string, content: string): seq<Note>
  {
    Update(notes, (n: Note) => n.id == id, (n: Note) => Note(n.id, title, content))
  }

  /** DELETE FROM Note WHERE id = ? */
  function NotesExcept(notes: seq<Note>, id: int): seq<Note>
  {
    Filter(notes, (n: Note) => n.id != id)
  }

  /** update_note: the note with that id gets the new title and content; no other note changes. */
  function UpdateNote(s: Store, id: int, title: string, content: string): (r: Store)
    ensures r == s.(notes := r.notes) && |r.notes| == |s.notes|
    ensures forall i :: 0 <= i < |s.notes| ==>
              r.notes[i].id == s.notes[i].id &&
              (s.notes[i].id == id ==> r.notes[i] == Note(id, title, content)) &&
              (s.notes[i].id != id ==> r.notes[i] == s.notes[i])
  {
    s.(notes := NotesUpdated(s.notes, id, title, content))
  }

  /** delete_note: the note with that id is gone; no other note changes. */
  function DeleteNote(s: Store, id: int): (r: Store)
    ensures r == s.(notes := r.notes)
    ensures forall n :: n in r.notes <==> n in s.notes && n.id != id
  {
    s.(notes := NotesExcept(s.notes, id))
  }

  lemma NoteChangesKeepValid(s: Store, id: int, title: string, content: string)
    requires Valid(s)
    ensures Valid(AddNote(s, title, content).0)
    ensures Valid(UpdateNote(s, id, title, content))
    ensures Valid(DeleteNote(s, id))
  {
    AppendIdTable(s.notes, NoteKey, s.nextNoteId, Note(s.nextNoteId, title, content));
    UpdateIdTable(s.notes, (n: Note) => n.id == id, (n: Note) => Note(n.id, title, content), NoteKey, s.nextNoteId);
    FilterIncreasing(s.notes, (n: Note) => n.id != id, NoteKey);
  }

  /** add_note then get_note with the returned id gives the note back. */
  lemma AddNoteThenGet(s: Store, title: string, content: string)
    requires Valid(s)
    ensures var (s', n) := AddNote(s, title, content); GetNote(s', n) == Some(Note(n, title, content))
  {
    NoteChangesKeepValid(s, 0, title, content);
    var (s', n) := AddNote(s, title, content);
    IncreasingKeyUnique(s'.notes, NoteKey, GetNote(s', n).value, Note(n, title, content));
  }

  /** update_note of an existing note then get_note gives the new title and content. */
  lemma UpdateNoteThenGet(s: Store, id: int, title: string, content: string)
    requires Valid(s) && exists n :: n in s.notes && n.id == id
    ensures GetNote(UpdateNote(s, id, title, content), id) == Some(Note(id, title, content))
  {
    NoteChangesKeepValid(s, id, title, content);
    var u := UpdateNote(s, id, title, content);
    var m :| m in s.notes && m.id == id;
    var i :| 0 <= i < |s.notes| && s.notes[i] == m;
    assert u.notes[i] == Note(id, title, content);
    IncreasingKeyUnique(u.notes, NoteKey, GetNote(u, id).value, u.notes[i]);
  }

  /** After delete_note the note is gone. */
  lemma DeleteNoteThenGet(s: Store, id: int)
    ensures GetNote(DeleteNote(s, id), id) == None
  {
  }

  // ---------------------------------------------------------------------
  // Board name

  /** get_kanban_name: the board's name, or "Kanban" when there is no such board. */
  function GetKanbanName(s: Store, kanbanId: int): (r: string)
    ensures !HasKanban(s.boards.kanbans, kanbanId) ==> r == "Kanban"
    ensures HasKanban(s.boards.kanbans, kanbanId) ==> Kanban(kanbanId, r) in s.boards.kanbans
  {
    match KanbanName(s.boards.kanbans, kanbanId)
    case None => "Kanban"
    case Some(name) => name
  }
}
