/** The `Database` class of src/database.py. Each method runs the SQL
    statements of its Python counterpart one at a time on the tables it
    holds as fields, and is proved to leave exactly the tables that the
    matching function of KanbanSpec describes. The read-only methods of the
    class (get_kanbans, get_columns, get_tasks, get_task_by_id,
    get_current_kanban, get_kanban_name, get_note, get_all_notes) change no
    field and are the functions of KanbanSpec applied to `Contents()`. */
module KanbanDatabase {
  import opened Relations
  import opened Boards
  import opened KanbanSpec

  class Database {
    var kanbans: seq<Kanban>
    var columns: seq<KanbanColumn>
    var links: set<Link>
    var tasks: seq<Task>
    var notes: seq<Note>
    var lastKanban: Option<int>
    var nextKanbanId: int
    var nextColumnId: int
    var nextTaskId: int
    var nextNoteId: int

    function BoardState(): BoardTables
      reads this
    {
      BoardTables(kanbans, columns, links, nextKanbanId, nextColumnId)
    }

    /** The whole database file as a value. */
    function Contents(): Store
      reads this
    {
      Store(BoardState(), tasks, notes, lastKanban, nextTaskId, nextNoteId)
    }

    ghost predicate Valid()
      reads this
    {
      KanbanSpec.Valid(Contents())
    }

    /** A connection to a database file whose tables hold `s`. */
    constructor Open(s: Store)
      requires KanbanSpec.Valid(s)
      ensures Contents() == s && Valid()
    {
      kanbans, columns, links := s.boards.kanbans, s.boards.columns, s.boards.links;
      nextKanbanId, nextColumnId := s.boards.nextKanbanId, s.boards.nextColumnId;
      tasks, notes, lastKanban := s.tasks, s.notes, s.lastKanban;
      nextTaskId, nextNoteId := s.nextTaskId, s.nextNoteId;
    }

    /** create_database: INSERT OR IGNORE INTO last_kanban VALUES (1, 1). */
    method CreateDatabase()
      requires Valid()
      modifies this`lastKanban
      ensures Contents() == KanbanSpec.CreateDatabase(old(Contents()))
      ensures Valid()
    {
      if lastKanban.None? {
        lastKanban := Some(1);
      }
    }

    /** initialize_database */
    method InitializeDatabase()
      requires Valid()
      modifies this
      ensures Contents() == Initialize(old(Contents()))
      ensures Valid()
    {
      ghost var s := Contents();
      InitializeKeepsValid(s);
      CreateDatabase();
      if kanbans == [] {
        var id := CreateKanban("Default");
        assert id.Some?;
        var _ := CreateColumn("To Do", id.value);
        var _ := CreateColumn("In Progress", id.value);
        var _ := CreateColumn("Done", id.value);
      }
    }

    /** update_current_kanban: UPDATE last_kanban SET kanban_id = ? WHERE id = 1 */
    method UpdateCurrentKanban(kanbanId: int)
      requires Valid()
      modifies this`lastKanban
      ensures Contents() == KanbanSpec.UpdateCurrentKanban(old(Contents()), kanbanId)
      ensures Valid()
    {
      if lastKanban.Some? {
        lastKanban := Some(kanbanId);
      }
    }

    /** create_kanban: INSERT INTO Kanban (name), refused by UNIQUE (name). */
    method CreateKanban(name: string) returns (id: Option<int>)
      requires Valid()
      modifies this`kanbans, this`nextKanbanId
      ensures (BoardState(), id) == Boards.CreateKanban(old(BoardState()), name)
      ensures Valid()
    {
      CreateKanbanFresh(BoardState(), name);
      if NameTaken(kanbans, name) {
        return None;
      }
      id := Some(nextKanbanId);
      kanbans := kanbans + [Kanban(nextKanbanId, name)];
      nextKanbanId := nextKanbanId + 1;
    }

    /** modify_kanban: the UPDATE either violates UNIQUE (name) or touches
        `rowcount` rows. */
    method ModifyKanban(id: int, name: string) returns (ok: bool)
      requires Valid()
      modifies this`kanbans
      ensures (BoardState(), ok) == Boards.ModifyKanban(old(BoardState()), id, name)
      ensures Valid()
    {
      ModifyKanbanKeepsValid(BoardState(), id, name);
      if HasKanban(kanbans, id) && exists x :: x in kanbans && x.name == name && x.id != id {
        return false;   // IntegrityError
      }
      var rowcount := if HasKanban(kanbans, id) then 1 else 0;
      if rowcount == 0 {
        forall i | 0 <= i < |kanbans| ensures RenameRows(kanbans, id, name)[i] == kanbans[i] {
          assert kanbans[i] in kanbans;
        }
        assert RenameRows(kanbans, id, name) == kanbans;
      }
      kanbans := RenameRows(kanbans, id, name);
      ok := rowcount > 0;
    }

    /** delete_kanban: three DELETEs; the result is the last one's rowcount. */
    method DeleteKanban(id: int) returns (deleted: bool)
      requires Valid()
      modifies this`kanbans, this`columns, this`links
      ensures (BoardState(), deleted) == Boards.DeleteKanban(old(BoardState()), id)
      ensures Valid()
    {
      ghost var s := Contents();
      DeleteKanbanKeepsValid(s.boards, id);
      BoardChangeKeepsValid(s, Boards.DeleteKanban(s.boards, id).0);
      links := LinksNotTo(links, ColumnIdsIn(columns, id));
      columns := ColumnsOutside(columns, id);
      deleted := HasKanban(kanbans, id);
      kanbans := KanbansExcept(kanbans, id);
    }

    /** create_column: INSERT INTO KanbanColumn, refused by UNIQUE (name, kanban_id). */
    method CreateColumn(name: string, kanbanId: int) returns (id: Option<int>)
      requires Valid()
      modifies this`columns, this`nextColumnId
      ensures (BoardState(), id) == Boards.CreateColumn(old(BoardState()), name, kanbanId)
      ensures Valid()
    {
      CreateColumnFresh(BoardState(), name, kanbanId);
      if ColumnTaken(columns, name, kanbanId) {
        return None;
      }
      id := Some(nextColumnId);
      columns := columns + [KanbanColumn(nextColumnId, name, kanbanId)];
      nextColumnId := nextColumnId + 1;
    }

    /** delete_column: two DELETEs; the result is the last one's rowcount. */
    method DeleteColumn(id: int) returns (deleted: bool)
      requires Valid()
      modifies this`columns, this`links
      ensures (BoardState(), deleted) == Boards.DeleteColumn(old(BoardState()), id)
      ensures Valid()
    {
      ghost var s := Contents();
      DeleteColumnKeepsValid(s.boards, id);
      BoardChangeKeepsValid(s, Boards.DeleteColumn(s.boards, id).0);
      links := LinksNotTo(links, {id});
      deleted := HasColumn(columns, id);
      columns := ColumnsExcept(columns, id);
    }

    /** add_task: the column lookup, then the Task INSERT, then the link INSERT. */
    method AddTask(title: string, columnName: string, kanbanId: int, today: string) returns (id: Option<int>)
      requires Valid()
      modifies this`tasks, this`nextTaskId, this`links
      ensures (Contents(), id) == KanbanSpec.AddTask(old(Contents()), title, columnName, kanbanId, today)
      ensures Valid()
    {
      AddTaskKeepsValid(Contents(), title, columnName, kanbanId, today);
      var column := FindColumn(columns, columnName, kanbanId);
      if column.None? {
        return None;
      }
      var taskId := nextTaskId;
      tasks := tasks + [Task(taskId, title, today)];
      nextTaskId := nextTaskId + 1;
      links := links + {Link(taskId, column.value.id)};
      id := Some(taskId);
    }

    /** modify_task: the title UPDATE, then the column lookup, then the link
        UPDATE, all in one transaction that a failed lookup abandons. */
    method ModifyTask(id: int, newTitle: Option<string>, newColumnName: Option<string>) returns (ok: bool)
      requires Valid()
      modifies this`tasks, this`links
      ensures (Contents(), ok) == KanbanSpec.ModifyTask(old(Contents()), id, newTitle, newColumnName)
      ensures Valid()
    {
      ModifyTaskKeepsValid(Contents(), id, newTitle, newColumnName);
      var committed := tasks;
      if Given(newTitle) {
        tasks := RetitleRows(tasks, id, newTitle.value);
      }
      if Given(newColumnName) {
        var column := FindColumnByName(columns, newColumnName.value);
        if column.None? {
          tasks := committed;   // fetchone() is None: TypeError, closed without commit
          return false;
        }
        links := RepointTask(links, id, column.value.id);
      }
      ok := true;
    }

    /** delete_task: the title lookup, then the link DELETE, then the Task DELETE. */
    method DeleteTask(text: string)
      requires Valid()
      modifies this`tasks, this`links
      ensures Contents() == KanbanSpec.DeleteTask(old(Contents()), text)
      ensures Valid()
    {
      DeleteTaskKeepsValid(Contents(), text);
      var found := TaskTitled(tasks, text);
      if found.None? {
        return;
      }
      links := UnlinkTask(links, found.value.id);
      tasks := TasksExcept(tasks, found.value.id);
    }

    /** add_note: INSERT INTO Note; returns lastrowid. */
    method AddNote(title: string, content: string) returns (id: int)
      requires Valid()
      modifies this`notes, this`nextNoteId
      ensures (Contents(), id) == KanbanSpec.AddNote(old(Contents()), title, content)
      ensures Valid()
    {
      NoteChangesKeepValid(Contents(), 0, title, content);
      id := nextNoteId;
      notes := notes + [Note(id, title, content)];
      nextNoteId := nextNoteId + 1;
    }

    /** update_note */
    method UpdateNote(id: int, title: string, content: string)
      requires Valid()
      modifies this`notes
      ensures Contents() == KanbanSpec.UpdateNote(old(Contents()), id, title, content)
      ensures Valid()
    {
      NoteChangesKeepValid(Contents(), id, title, content);
      notes := NotesUpdated(notes, id, title, content);
    }

    /** delete_note */
    method DeleteNote(id: int)
      requires Valid()
      modifies this`notes
      ensures Contents() == KanbanSpec.DeleteNote(old(Contents()), id)
      ensures Valid()
    {
      NoteChangesKeepValid(Contents(), id, "", "");
      notes := NotesExcept(notes, id);
    }
  }
}
