/** The module-level functions of database.py, which all work on the one
    database file at DATABASE_PATH: that file is an object here and the
    functions are its methods. Each runs its SQL statements one at a time and
    is proved to leave the tables that the matching function of LegacySpec
    describes. The read-only functions (get_kanbans, get_columns, get_tasks,
    get_task_by_id, get_kanban_name) are the functions of LegacySpec and
    Boards applied to `Contents()`. */
module LegacyDatabase {
  import opened Relations
  import opened Boards
  import opened LegacySpec

  class Database {
    var kanbans: seq<Kanban>
    var columns: seq<KanbanColumn>
    var links: set<Link>
    var tasks: seq<LegacyTask>
    var nextKanbanId: int
    var nextColumnId: int
    var nextTaskId: int

    function BoardState(): BoardTables
      reads this
    {
      BoardTables(kanbans, columns, links, nextKanbanId, nextColumnId)
    }

    function Contents(): LegacyStore
      reads this
    {
      LegacyStore(BoardState(), tasks, nextTaskId)
    }

    ghost predicate Valid()
      reads this
    {
      LegacySpec.Valid(Contents())
    }

    /** The file at DATABASE_PATH, whose tables hold `s`. */
    constructor Open(s: LegacyStore)
      requires LegacySpec.Valid(s)
      ensures Contents() == s && Valid()
    {
      kanbans, columns, links := s.boards.kanbans, s.boards.columns, s.boards.links;
      nextKanbanId, nextColumnId := s.boards.nextKanbanId, s.boards.nextColumnId;
      tasks, nextTaskId := s.tasks, s.nextTaskId;
    }

    /** initialize_database: create_kanban("Default"), then three
        create_column calls for board 1. */
    method InitializeDatabase()
      requires Valid()
      modifies this`kanbans, this`nextKanbanId, this`columns, this`nextColumnId
      ensures Contents() == Initialize(old(Contents()))
      ensures Valid()
    {
      InitializeKeepsValid(Contents());
      if kanbans == [] {
        var _ := CreateKanban("Default");
        var _ := CreateColumn("To Do", 1);
        var _ := CreateColumn("In Progress", 1);
        var _ := CreateColumn("Done", 1);
      }
    }

    /** create_kanban: INSERT INTO Kanban (name), refused by UNIQUE (name). */
    method CreateKanban(name: string) returns (id: Option<int>)
      requires Valid()
      modifies this`kanbans, this`nextKanbanId
      ensures (BoardState(), id) == Boards.CreateKanban(old(BoardState()), name)
      ensures Valid()
    {
      CreateKanbanFresh(BoardState(), name);
      if NameTaken(kanbans, name) {
        return None;
      }
      id := Some(nextKanbanId);
      kanbans := kanbans + [Kanban(nextKanbanId, name)];
      nextKanbanId := nextKanbanId + 1;
    }

    /** modify_kanban: the UPDATE either violates UNIQUE (name) or touches
        `rowcount` rows. */
    method ModifyKanban(id: int, name: string) returns (ok: bool)
      requires Valid()
      modifies this`kanbans
      ensures (BoardState(), ok) == Boards.ModifyKanban(old(BoardState()), id, name)
      ensures Valid()
    {
      ModifyKanbanKeepsValid(BoardState(), id, name);
      if HasKanban(kanbans, id) && exists x :: x in kanbans && x.name == name && x.id != id {
        return false;   // IntegrityError
      }
      var rowcount := if HasKanban(kanbans, id) then 1 else 0;
      if rowcount == 0 {
        forall i | 0 <= i < |kanbans| ensures RenameRows(kanbans, id, name)[i] == kanbans[i] {
          assert kanbans[i] in kanbans;
        }
        assert RenameRows(kanbans, id, name) == kanbans;
      }
      kanbans := RenameRows(kanbans, id, name);
      ok := rowcount > 0;
    }

    /** delete_kanban: three DELETEs; the result is the last one's rowcount. */
    method DeleteKanban(id: int) returns (deleted: bool)
      requires Valid()
      modifies this`kanbans, this`columns, this`links
      ensures (BoardState(), deleted) == Boards.DeleteKanban(old(BoardState()), id)
      ensures Valid()
    {
      ghost var s := Contents();
      DeleteKanbanKeepsValid(s.boards, id);
      LegacySpec.BoardChangeKeepsValid(s, Boards.DeleteKanban(s.boards, id).0);
      links := LinksNotTo(links, ColumnIdsIn(columns, id));
      columns := ColumnsOutside(columns, id);
      deleted := HasKanban(kanbans, id);
      kanbans := KanbansExcept(kanbans, id);
    }

    /** create_column: INSERT INTO KanbanColumn, refused by UNIQUE (name, kanban_id). */
    method CreateColumn(name: string, kanbanId: int) returns (id: Option<int>)
      requires Valid()
      modifies this`columns, this`nextColumnId
      ensures (BoardState(), id) == Boards.CreateColumn(old(BoardState()), name, kanbanId)
      ensures Valid()
    {
      CreateColumnFresh(BoardState(), name, kanbanId);
      if ColumnTaken(columns, name, kanbanId) {
        return None;
      }
      id := Some(nextColumnId);
      columns := columns + [KanbanColumn(nextColumnId, name, kanbanId)];
      nextColumnId := nextColumnId + 1;
    }

    /** delete_column: two DELETEs; the result is the last one's rowcount. */
    method DeleteColumn(id: int) returns (deleted: bool)
      requires Valid()
      modifies this`columns, this`links
      ensures (BoardState(), deleted) == Boards.DeleteColumn(old(BoardState()), id)
      ensures Valid()
    {
      ghost var s := Contents();
      DeleteColumnKeepsValid(s.boards, id);
      LegacySpec.BoardChangeKeepsValid(s, Boards.DeleteColumn(s.boards, id).0);
      links := LinksNotTo(links, {id});
      deleted := HasColumn(columns, id);
      columns := ColumnsExcept(columns, id);
    }

    /** add_task: the column lookup, then the Task INSERT, then the link INSERT. */
    method AddTask(text: string, columnName: string, kanbanId: int) returns (id: Option<int>)
      requires Valid()
      modifies this`tasks, this`nextTaskId, this`links
      ensures (Contents(), id) == LegacySpec.AddTask(old(Contents()), text, columnName, kanbanId)
      ensures Valid()
    {
      AddTaskKeepsValid(Contents(), text, columnName, kanbanId);
      var column := FindColumn(columns, columnName, kanbanId);
      if column.None? {
        return None;
      }
      var taskId := nextTaskId;
      tasks := tasks + [LegacyTask(taskId, text)];
      nextTaskId := nextTaskId + 1;
      links := links + {Link(taskId, column.value.id)};
      id := Some(taskId);
    }

    /** modify_task: the text UPDATE, then the column lookup, then the link
        UPDATE, in one transaction that a failed lookup abandons. */
    method ModifyTask(id: int, newText: Option<string>, newColumnName: Option<string>) returns (ok: bool)
      requires Valid()
      modifies this`tasks, this`links
      ensures (Contents(), ok) == LegacySpec.ModifyTask(old(Contents()), id, newText, newColumnName)
      ensures Valid()
    {
      ModifyTaskKeepsValid(Contents(), id, newText, newColumnName);
      var committed := tasks;
      if Given(newText) {
        tasks := RewriteRows(tasks, id, newText.value);
      }
      if Given(newColumnName) {
        var column := FindColumnByName(columns, newColumnName.value);
        if column.None? {
          tasks := committed;   // fetchone() is None: TypeError, closed without commit
          return false;
        }
        links := RepointTask(links, id, column.value.id);
      }
      ok := true;
    }

    /** delete_task: the text lookup, then the link DELETE, then the Task DELETE. */
    method DeleteTask(text: string)
      requires Valid()
      modifies this`tasks, this`links
      ensures Contents() == LegacySpec.DeleteTask(old(Contents()), text)
      ensures Valid()
    {
      DeleteTaskKeepsValid(Contents(), text);
      var found := TaskWithText(tasks, text);
      if found.None? {
        return;
      }
      links := UnlinkTask(links, found.value.id);
      tasks := LegacyTasksExcept(tasks, found.value.id);
    }
  }
}
