/** The board side of the kanban schema, common to both database modules:
    the Kanban, KanbanColumn and TaskColumnLink tables, the statements that
    read and write them, and the invariants the schema and the statements
    keep between them.

    SQLite checks the UNIQUE and PRIMARY KEY constraints of the schema; it
    does not check the FOREIGN KEY clauses, because neither module turns on
    `PRAGMA foreign_keys`. The model therefore lets a column name a board that
    does not exist, and only keeps the link-to-column reference that the
    statements themselves maintain. */
module Boards {
  import opened Relations

  /** A row of `Kanban (id INTEGER PRIMARY KEY AUTOINCREMENT, name TEXT UNIQUE NOT NULL)`. */
  datatype Kanban = Kanban(id: int, name: string)

  /** A row of `KanbanColumn (id ..., name, kanban_id, UNIQUE (name, kanban_id))`. */
  datatype KanbanColumn = KanbanColumn(id: int, name: string, kanbanId: int)

  /** A row of `TaskColumnLink (task_id, column_id, PRIMARY KEY (task_id, column_id))`;
      the primary key makes the table a set. */
  datatype Link = Link(taskId: int, columnId: int)

  function KanbanKey(k: Kanban): int { k.id }
  function ColumnKey(c: KanbanColumn): int { c.id }

  /** The three board tables with the AUTOINCREMENT counters of the two that
      have one: the id the next successful INSERT receives. */
  datatype BoardTables = BoardTables(
    kanbans: seq<Kanban>,
    columns: seq<KanbanColumn>,
    links: set<Link>,
    nextKanbanId: int,
    nextColumnId: int)

  /** The tables as `CREATE TABLE` leaves them in a new database file. */
  const NoBoards := BoardTables([], [], {}, 1, 1)

  /** The columns every seeded board receives, in creation order. */
  const DefaultColumnNames: seq<string> := ["To Do", "In Progress", "Done"]

  function ColumnIds(columns: seq<KanbanColumn>): set<int>
  {
    set c | c in columns :: c.id
  }

  ghost predicate BoardNamesUnique(kanbans: seq<Kanban>)
  {
    forall x, y :: x in kanbans && y in kanbans && x.name == y.name ==> x == y
  }

  ghost predicate ColumnNamesUnique(columns: seq<KanbanColumn>)
  {
    forall c, d :: c in columns && d in columns && c.name == d.name && c.kanbanId == d.kanbanId ==> c == d
  }

  ghost predicate LinksToColumns(links: set<Link>, columns: seq<KanbanColumn>)
  {
    forall l :: l in links ==> l.columnId in ColumnIds(columns)
  }

  /** No task is linked to two different columns. */
  ghost predicate AtMostOneLink(links: set<Link>)
  {
    forall l, m :: l in links && m in links && l.taskId == m.taskId ==> l == m
  }

  /** The task has exactly one row in TaskColumnLink. */
  ghost predicate OneLink(links: set<Link>, taskId: int)
  {
    exists l :: l in links && l.taskId == taskId && forall m :: m in links && m.taskId == taskId ==> m == l
  }

  /** What the schema constraints and the statements of the database modules
      keep true of the board tables. */
  ghost predicate Valid(b: BoardTables)
  {
    && IdTable(b.kanbans, KanbanKey, b.nextKanbanId)
    && BoardNamesUnique(b.kanbans)
    && IdTable(b.columns, ColumnKey, b.nextColumnId)
    && ColumnNamesUnique(b.columns)
    && LinksToColumns(b.links, b.columns)
    && AtMostOneLink(b.links)
  }

  // ---------------------------------------------------------------------
  // Single statements

  predicate HasKanban(kanbans: seq<Kanban>, id: int)
  {
    exists x :: x in kanbans && x.id == id
  }

  /** The UNIQUE (name) constraint would reject a board called `name`. */
  predicate NameTaken(kanbans: seq<Kanban>, name: string)
  {
    exists x :: x in kanbans && x.name == name
  }

  predicate HasColumn(columns: seq<KanbanColumn>, id: int)
  {
    exists c :: c in columns && c.id == id
  }

  /** The UNIQUE (name, kanban_id) constraint would reject this column. */
  predicate ColumnTaken(columns: seq<KanbanColumn>, name: string, kanbanId: int)
  {
    exists c :: c in columns && c.name == name && c.kanbanId == kanbanId
  }

  /** DELETE FROM Kanban WHERE id = ? */
  function KanbansExcept(kanbans: seq<Kanban>, id: int): seq<Kanban>
  {
    Filter(kanbans, (x: Kanban) => x.id != id)
  }

  /** UPDATE Kanban SET name = ? WHERE id = ? */
  function RenameRows(kanbans: seq<Kanban>, id: int, name: string): seq<Kanban>
  {
    Update(kanbans, (x: Kanban) => x.id == id, (x: Kanban) => x.(name := name))
  }

  /** SELECT id FROM KanbanColumn WHERE kanban_id = ? */
  function ColumnIdsIn(columns: seq<KanbanColumn>, kanbanId: int): set<int>
  {
    set c | c in columns && c.kanbanId == kanbanId :: c.id
  }

  /** DELETE FROM KanbanColumn WHERE kanban_id = ? */
  function ColumnsOutside(columns: seq<KanbanColumn>, kanbanId: int): seq<KanbanColumn>
  {
    Filter(columns, (c: KanbanColumn) => c.kanbanId != kanbanId)
  }

  /** DELETE FROM KanbanColumn WHERE id = ? */
  function ColumnsExcept(columns: seq<KanbanColumn>, id: int): seq<KanbanColumn>
  {
    Filter(columns, (c: KanbanColumn) => c.id != id)
  }

  /** DELETE FROM TaskColumnLink WHERE column_id IN (...) */
  function LinksNotTo(links: set<Link>, columnIds: set<int>): set<Link>
  {
    set l | l in links && l.columnId !in columnIds
  }

  /** DELETE FROM TaskColumnLink WHERE task_id = ? */
  function UnlinkTask(links: set<Link>, taskId: int): set<Link>
  {
    set l | l in links && l.taskId != taskId
  }

  /** UPDATE TaskColumnLink SET column_id = ? WHERE task_id = ? */
  function RepointTask(links: set<Link>, taskId: int, columnId: int): set<Link>
  {
    set l | l in links :: if l.taskId == taskId then Link(taskId, columnId) else l
  }

  /** SELECT id FROM KanbanColumn WHERE name = ? AND kanban_id = ?, fetchone() */
  function FindColumn(columns: seq<KanbanColumn>, name: string, kanbanId: int): (r: Option<KanbanColumn>)
    ensures r.None? <==> !ColumnTaken(columns, name, kanbanId)
    ensures r.Some? ==> r.value in columns && r.value.name == name && r.value.kanbanId == kanbanId
  {
    Find(columns, (c: KanbanColumn) => c.name == name && c.kanbanId == kanbanId)
  }

  /** SELECT id FROM KanbanColumn WHERE name = ?, fetchone(): the lookup
      ignores the board. The `UNIQUE (name, kanban_id)` index covers the
      query (`id` is the rowid), so SQLite answers it from that index and the
      first row is the match with the least board id; among equal board ids,
      which the index rules out in a valid table, the earlier row wins. */
  function FindColumnByName(columns: seq<KanbanColumn>, name: string): (r: Option<KanbanColumn>)
    ensures r.None? <==> forall c :: c in columns ==> c.name != name
    ensures r.Some? ==> r.value in columns && r.value.name == name
    ensures r.Some? ==> forall c :: c in columns && c.name == name ==> r.value.kanbanId <= c.kanbanId
  {
    if columns == [] then None
    else
      var rest := FindColumnByName(columns[1..], name);
      if columns[0].name != name then rest
      else if rest.Some? && rest.value.kanbanId < columns[0].kanbanId then rest
      else Some(columns[0])
  }

  /** In a valid table the name lookup is determined: it is the one column of
      that name in the least board that has one. */
  lemma FindColumnByNameUnique(columns: seq<KanbanColumn>, name: string, c: KanbanColumn)
    requires ColumnNamesUnique(columns)
    requires c in columns && c.name == name
    requires forall d :: d in columns && d.name == name ==> c.kanbanId <= d.kanbanId
    ensures FindColumnByName(columns, name) == Some(c)
  {
    var r := FindColumnByName(columns, name);
    assert r.value.kanbanId == c.kanbanId;
  }

  /** A column created later in an earlier board is found first: with board 2's
      "Review" (id 1) created before board 1's (id 2), the lookup returns id 2. */
  lemma LookupFollowsIndexOrder(cols: seq<KanbanColumn>)
    requires cols == [KanbanColumn(1, "Review", 2), KanbanColumn(2, "Review", 1)]
    ensures FindColumnByName(cols, "Review") == Some(cols[1])
  {
    assert cols[1..] == [cols[1]];
    assert cols[1..][1..] == [];
  }

  // ---------------------------------------------------------------------
  // Board operations

  /** create_kanban: INSERT INTO Kanban (name); None when the name is taken. */
  function CreateKanban(b: BoardTables, name: string): (r: (BoardTables, Option<int>))
    ensures r.1.None? <==> NameTaken(b.kanbans, name)
    ensures r.1.None? ==> r.0 == b
    ensures r.1.Some? ==> r.1.value == b.nextKanbanId && r.0.nextKanbanId == b.nextKanbanId + 1
    ensures r.1.Some? ==> |r.0.kanbans| == |b.kanbans| + 1
    ensures r.1.Some? ==> forall x :: x in r.0.kanbans <==> x in b.kanbans || x == Kanban(r.1.value, name)
    ensures r.0.columns == b.columns && r.0.links == b.links && r.0.nextColumnId == b.nextColumnId
  {
    if NameTaken(b.kanbans, name) then (b, None)
    else
      var id := b.nextKanbanId;
      (b.(kanbans := b.kanbans + [Kanban(id, name)], nextKanbanId := id + 1), Some(id))
  }

  /** The new board's id was never used by a board before, and the board is
      found under its name afterwards. */
  lemma CreateKanbanFresh(b: BoardTables, name: string)
    requires Valid(b)
    ensures var (b', id) := CreateKanban(b, name);
      Valid(b') &&
      (id.Some? ==> (!HasKanban(b.kanbans, id.value) &&
                     forall x :: x in b'.kanbans && x.name == name ==> x.id == id.value))
  {
    var (b', id) := CreateKanban(b, name);
    if id.Some? {
      AppendIdTable(b.kanbans, KanbanKey, b.nextKanbanId, Kanban(id.value, name));
    }
  }

  /** modify_kanban: True iff the board exists and no other board already has
      the new name; otherwise nothing changes. */
  function ModifyKanban(b: BoardTables, id: int, name: string): (r: (BoardTables, bool))
    ensures r.1 <==> HasKanban(b.kanbans, id) && forall x :: x in b.kanbans && x.name == name ==> x.id == id
    ensures !r.1 ==> r.0 == b
    ensures r.1 ==> r.0 == b.(kanbans := r.0.kanbans) && |r.0.kanbans| == |b.kanbans|
    ensures r.1 ==> forall i :: 0 <= i < |b.kanbans| ==>
              r.0.kanbans[i].id == b.kanbans[i].id &&
              r.0.kanbans[i].name == (if b.kanbans[i].id == id then name else b.kanbans[i].name)
  {
    if !HasKanban(b.kanbans, id) then (b, false)   // rowcount == 0
    else if exists x :: x in b.kanbans && x.name == name && x.id != id then (b, false)   // IntegrityError
    else (b.(kanbans := RenameRows(b.kanbans, id, name)), true)
  }

  lemma ModifyKanbanKeepsValid(b: BoardTables, id: int, name: string)
    requires Valid(b)
    ensures Valid(ModifyKanban(b, id, name).0)
    ensures ModifyKanban(b, id, name).1 ==> Kanban(id, name) in ModifyKanban(b, id, name).0.kanbans
  {
    var (b', ok) := ModifyKanban(b, id, name);
    if ok {
      UpdateIdTable(b.kanbans, (x: Kanban) => x.id == id, (x: Kanban) => x.(name := name), KanbanKey, b.nextKanbanId);
      var r := b'.kanbans;
      forall x, y | x in r && y in r && x.name == y.name ensures x == y {
        var i :| 0 <= i < |r| && r[i] == x;
        var j :| 0 <= j < |r| && r[j] == y;
        assert b.kanbans[i] in b.kanbans && b.kanbans[j] in b.kanbans;
        if b.kanbans[i].id != id && b.kanbans[j].id != id {
          assert b.kanbans[i] == b.kanbans[j];
        } else if b.kanbans[i].id == id && b.kanbans[j].id == id {
          IncreasingKeyUnique(b.kanbans, KanbanKey, b.kanbans[i], b.kanbans[j]);
        }
      }
      var k :| k in b.kanbans && k.id == id;
      var i :| 0 <= i < |b.kanbans| && b.kanbans[i] == k;
      assert r[i] == Kanban(id, name);
    }
  }

  /** delete_kanban: the links into the board's columns, then the board's
      columns, then the board itself; True iff the board row existed. */
  function DeleteKanban(b: BoardTables, id: int): (r: (BoardTables, bool))
    ensures r.1 <==> HasKanban(b.kanbans, id)
    ensures forall x :: x in r.0.kanbans <==> x in b.kanbans && x.id != id
    ensures forall c :: c in r.0.columns <==> c in b.columns && c.kanbanId != id
    ensures forall l :: l in r.0.links <==>
              l in b.links && forall c :: c in b.columns && c.id == l.columnId ==> c.kanbanId != id
    ensures r.0.nextKanbanId == b.nextKanbanId && r.0.nextColumnId == b.nextColumnId
  {
    var doomed := ColumnIdsIn(b.columns, id);
    var links := LinksNotTo(b.links, doomed);
    var columns := ColumnsOutside(b.columns, id);
    var existed := HasKanban(b.kanbans, id);   // rowcount of the last DELETE
    var kanbans := KanbansExcept(b.kanbans, id);
    (b.(kanbans := kanbans, columns := columns, links := links), existed)
  }

  lemma DeleteKanbanKeepsValid(b: BoardTables, id: int)
    requires Valid(b)
    ensures Valid(DeleteKanban(b, id).0)
  {
    var b' := DeleteKanban(b, id).0;
    FilterIncreasing(b.kanbans, (x: Kanban) => x.id != id, KanbanKey);
    FilterIncreasing(b.columns, (c: KanbanColumn) => c.kanbanId != id, ColumnKey);
    forall l | l in b'.links ensures l.columnId in ColumnIds(b'.columns) {
      var c :| c in b.columns && c.id == l.columnId;
      assert c in b'.columns;
    }
  }

  /** Deleting a board that has no row and no columns changes nothing. */
  lemma {:induction false} DeleteMissingKanban(b: BoardTables, id: int)
    requires !HasKanban(b.kanbans, id) && ColumnIdsIn(b.columns, id) == {}
    ensures DeleteKanban(b, id) == (b, false)
  {
    FilterKeepsAll(b.kanbans, (x: Kanban) => x.id != id);
    forall c | c in b.columns ensures c.kanbanId != id {
      assert c.id !in ColumnIdsIn(b.columns, id);
    }
    FilterKeepsAll(b.columns, (c: KanbanColumn) => c.kanbanId != id);
    assert LinksNotTo(b.links, {}) == b.links;
  }

  // ---------------------------------------------------------------------
  // Column operations

  /** create_column: INSERT INTO KanbanColumn (name, kanban_id); None when
      the board already has a column of that name. The board id is not checked. */
  function CreateColumn(b: BoardTables, name: string, kanbanId: int): (r: (BoardTables, Option<int>))
    ensures r.1.None? <==> ColumnTaken(b.columns, name, kanbanId)
    ensures r.1.None? ==> r.0 == b
    ensures r.1.Some? ==> r.1.value == b.nextColumnId && r.0.nextColumnId == b.nextColumnId + 1
    ensures r.1.Some? ==> |r.0.columns| == |b.columns| + 1
    ensures r.1.Some? ==> forall c :: c in r.0.columns <==> c in b.columns || c == KanbanColumn(r.1.value, name, kanbanId)
    ensures r.0.kanbans == b.kanbans && r.0.links == b.links && r.0.nextKanbanId == b.nextKanbanId
  {
    if ColumnTaken(b.columns, name, kanbanId) then (b, None)
    else
      var id := b.nextColumnId;
      (b.(columns := b.columns + [KanbanColumn(id, name, kanbanId)], nextColumnId := id + 1), Some(id))
  }

  lemma CreateColumnFresh(b: BoardTables, name: string, kanbanId: int)
    requires Valid(b)
    ensures var (b', id) := CreateColumn(b, name, kanbanId);
      Valid(b') && (id.Some? ==> !HasColumn(b.columns, id.value))
  {
    var (b', id) := CreateColumn(b, name, kanbanId);
    if id.Some? {
      AppendIdTable(b.columns, ColumnKey, b.nextColumnId, KanbanColumn(id.value, name, kanbanId));
    }
  }

  /** delete_column: the links into the column, then the column; True iff
      the column row existed. */
  function DeleteColumn(b: BoardTables, id: int): (r: (BoardTables, bool))
    ensures r.1 <==> HasColumn(b.columns, id)
    ensures forall c :: c in r.0.columns <==> c in b.columns && c.id != id
    ensures forall l :: l in r.0.links <==> l in b.links && l.columnId != id
    ensures r.0.kanbans == b.kanbans
    ensures r.0.nextKanbanId == b.nextKanbanId && r.0.nextColumnId == b.nextColumnId
  {
    var links := LinksNotTo(b.links, {id});
    var existed := HasColumn(b.columns, id);   // rowcount of the last DELETE
    var columns := ColumnsExcept(b.columns, id);
    (b.(columns := columns, links := links), existed)
  }

  lemma DeleteColumnKeepsValid(b: BoardTables, id: int)
    requires Valid(b)
    ensures Valid(DeleteColumn(b, id).0)
  {
    var b' := DeleteColumn(b, id).0;
    FilterIncreasing(b.columns, (c: KanbanColumn) => c.id != id, ColumnKey);
    forall l | l in b'.links ensures l.columnId in ColumnIds(b'.columns) {
      var c :| c in b.columns && c.id == l.columnId;
      assert c in b'.columns;
    }
  }

  /** Creates the three default columns in a board, each INSERT on its own:
      one whose name the board already has is skipped. */
  function SeedColumns(b: BoardTables, kanbanId: int): (r: BoardTables)
    ensures forall n :: n in DefaultColumnNames ==> ColumnTaken(r.columns, n, kanbanId)
    ensures forall c :: c in b.columns ==> c in r.columns
    ensures forall c :: c in r.columns && c !in b.columns ==> c.kanbanId == kanbanId && c.name in DefaultColumnNames
    ensures r.kanbans == b.kanbans && r.links == b.links && r.nextKanbanId == b.nextKanbanId
  {
    var (b1, _) := CreateColumn(b, "To Do", kanbanId);
    var (b2, _) := CreateColumn(b1, "In Progress", kanbanId);
    var (b3, _) := CreateColumn(b2, "Done", kanbanId);
    assert ColumnTaken(b1.columns, "To Do", kanbanId);
    assert ColumnTaken(b2.columns, "In Progress", kanbanId);
    b3
  }

  /** The (id, name) rows the three default columns get in a board that has
      no column yet: consecutive ids from the column counter, in creation order. */
  function DefaultColumnRows(nextColumnId: int): seq<(int, string)>
  {
    [(nextColumnId, "To Do"), (nextColumnId + 1, "In Progress"), (nextColumnId + 2, "Done")]
  }

  predicate NoColumnsIn(columns: seq<KanbanColumn>, kanbanId: int)
  {
    forall c :: c in columns ==> c.kanbanId != kanbanId
  }

  /** The three default columns as create_column makes them from the column counter. */
  function DefaultColumns(nextColumnId: int, kanbanId: int): seq<KanbanColumn>
  {
    [KanbanColumn(nextColumnId, "To Do", kanbanId), KanbanColumn(nextColumnId + 1, "In Progress", kanbanId),
     KanbanColumn(nextColumnId + 2, "Done", kanbanId)]
  }

  /** In a board with no columns none of the three INSERTs is refused, so
      the three rows are appended in creation order. */
  lemma SeedColumnsAppend(b: BoardTables, kanbanId: int)
    requires NoColumnsIn(b.columns, kanbanId)
    ensures SeedColumns(b, kanbanId).columns == b.columns + DefaultColumns(b.nextColumnId, kanbanId)
  {
    var n := b.nextColumnId;
    assert !ColumnTaken(b.columns, "To Do", kanbanId);
    var b1 := CreateColumn(b, "To Do", kanbanId).0;
    assert b1.columns == b.columns + [KanbanColumn(n, "To Do", kanbanId)];
    assert !ColumnTaken(b1.columns, "In Progress", kanbanId);
    var b2 := CreateColumn(b1, "In Progress", kanbanId).0;
    assert b2.columns == b1.columns + [KanbanColumn(n + 1, "In Progress", kanbanId)];
    assert !ColumnTaken(b2.columns, "Done", kanbanId);
  }

  /** Rows for a board appended to a table that had none for it are that
      board's whole selection. */
  lemma SelectAppended(columns: seq<KanbanColumn>, added: seq<KanbanColumn>, kanbanId: int)
    requires NoColumnsIn(columns, kanbanId)
    requires forall c :: c in added ==> c.kanbanId == kanbanId
    ensures Filter(columns + added, (c: KanbanColumn) => c.kanbanId == kanbanId) == added
  {
    FilterAppend(columns, added, (c: KanbanColumn) => c.kanbanId == kanbanId);
    FilterNone(columns, (c: KanbanColumn) => c.kanbanId == kanbanId);
    FilterKeepsAll(added, (c: KanbanColumn) => c.kanbanId == kanbanId);
    assert [] + added == added;
  }

  /** In a board with no columns, get_columns afterwards lists exactly the
      three new columns, left to right "To Do", "In Progress", "Done", under
      consecutive ids from the column counter. */
  lemma SeedColumnsOrder(b: BoardTables, kanbanId: int)
    requires NoColumnsIn(b.columns, kanbanId)
    ensures GetColumns(SeedColumns(b, kanbanId), kanbanId) == DefaultColumnRows(b.nextColumnId)
  {
    var added := DefaultColumns(b.nextColumnId, kanbanId);
    SeedColumnsAppend(b, kanbanId);
    SelectAppended(b.columns, added, kanbanId);
    assert Project(added) == DefaultColumnRows(b.nextColumnId);
  }

  lemma SeedColumnsKeepsValid(b: BoardTables, kanbanId: int)
    requires Valid(b)
    ensures Valid(SeedColumns(b, kanbanId))
  {
    CreateColumnFresh(b, "To Do", kanbanId);
    var b1 := CreateColumn(b, "To Do", kanbanId).0;
    CreateColumnFresh(b1, "In Progress", kanbanId);
    var b2 := CreateColumn(b1, "In Progress", kanbanId).0;
    CreateColumnFresh(b2, "Done", kanbanId);
  }

  // ---------------------------------------------------------------------
  // Queries

  /** get_kanbans: every board, in the order of their ids. */
  function GetKanbans(b: BoardTables): (r: seq<Kanban>)
    ensures forall x :: x in r <==> x in b.kanbans
    ensures Valid(b) ==> Increasing(r, KanbanKey) && BoardNamesUnique(r)
  {
    b.kanbans
  }

  /** (id, name) of each column, in table order. */
  function Project(columns: seq<KanbanColumn>): (r: seq<(int, string)>)
    ensures |r| == |columns|
    ensures forall i :: 0 <= i < |columns| ==> r[i] == (columns[i].id, columns[i].name)
  {
    if columns == [] then [] else [(columns[0].id, columns[0].name)] + Project(columns[1..])
  }

  /** The (id, name) pairs of the columns in `mine`: each pair comes from
      a column of `mine`, and each column of `mine` gives its pair. */
  lemma ProjectMembers(mine: seq<KanbanColumn>)
    ensures forall i :: 0 <= i < |Project(mine)| ==> exists c :: c in mine && Project(mine)[i] == (c.id, c.name)
    ensures forall c :: c in mine ==> (c.id, c.name) in Project(mine)
  {
    var r := Project(mine);
    forall i | 0 <= i < |r| ensures exists c :: c in mine && r[i] == (c.id, c.name) {
      assert mine[i] in mine;
    }
    forall c | c in mine ensures (c.id, c.name) in r {
      var i :| 0 <= i < |mine| && mine[i] == c;
      assert r[i] == (c.id, c.name);
    }
  }

  /** get_columns: (id, name) of the board's columns, in the order of their ids. */
  function GetColumns(b: BoardTables, kanbanId: int): (r: seq<(int, string)>)
    ensures forall i :: 0 <= i < |r| ==> KanbanColumn(r[i].0, r[i].1, kanbanId) in b.columns
    ensures forall c :: c in b.columns && c.kanbanId == kanbanId ==> (c.id, c.name) in r
    ensures Valid(b) ==> forall i, j :: 0 <= i < j < |r| ==> r[i].0 < r[j].0
  {
    var mine := Filter(b.columns, (c: KanbanColumn) => c.kanbanId == kanbanId);
    ProjectMembers(mine);
    GetColumnsOrdered(b, kanbanId, mine);
    Project(mine)
  }

  lemma GetColumnsOrdered(b: BoardTables, kanbanId: int, mine: seq<KanbanColumn>)
    requires mine == Filter(b.columns, (c: KanbanColumn) => c.kanbanId == kanbanId)
    ensures Valid(b) ==> forall i, j :: 0 <= i < j < |mine| ==> Project(mine)[i].0 < Project(mine)[j].0
  {
    if Valid(b) {
      FilterIncreasing(b.columns, (c: KanbanColumn) => c.kanbanId == kanbanId, ColumnKey);
      assert Increasing(mine, ColumnKey);
    }
  }

  /** SELECT name FROM Kanban WHERE id = ?; None when no row comes back. */
  function KanbanName(kanbans: seq<Kanban>, id: int): (r: Option<string>)
    ensures r.None? <==> !HasKanban(kanbans, id)
    ensures r.Some? ==> Kanban(id, r.value) in kanbans
  {
    match Find(kanbans, (x: Kanban) => x.id == id)
    case None => None
    case Some(x) => Some(x.name)
  }

  // ---------------------------------------------------------------------
  // Links written by the task operations

  /** The links of one task that a re-pointing UPDATE leaves: all of them now
      name `columnId`; no other task's link moves. */
  lemma RepointTaskKeepsValid(b: BoardTables, taskId: int, columnId: int)
    requires Valid(b) && columnId in ColumnIds(b.columns)
    ensures Valid(b.(links := RepointTask(b.links, taskId, columnId)))
    ensures forall l :: l in RepointTask(b.links, taskId, columnId) && l.taskId == taskId ==> l.columnId == columnId
    ensures forall l: Link :: l.taskId != taskId ==> (l in RepointTask(b.links, taskId, columnId) <==> l in b.links)
  {
    var links := RepointTask(b.links, taskId, columnId);
    forall l: Link | l.taskId != taskId && l in b.links ensures l in links {
      assert l == (if l.taskId == taskId then Link(taskId, columnId) else l);
    }
  }

  /** Linking a task that has no link yet keeps every board invariant. */
  lemma LinkNewTaskKeepsValid(b: BoardTables, taskId: int, columnId: int)
    requires Valid(b) && columnId in ColumnIds(b.columns)
    requires forall l :: l in b.links ==> l.taskId != taskId
    ensures Valid(b.(links := b.links + {Link(taskId, columnId)}))
  {
  }
}
