/** The storage engine's operations run one at a time, the log they write, and the
    replay of that log: `apply_entry` and the log-before-memory methods of
    `InMemoryStorage`. */
module Engine {
  import opened Basics
  import opened Values
  import opened LogFormat
  import opened Conversions
  import opened Tables
  import opened Altering

  datatype StorageData = StorageData(tables: map<Text, TableData>, databases: set<Text>)

  // ---- replay ----

  /** One `(table, row)` of a record; rows of unknown tables are skipped. */
  function ApplyRow(tables: map<Text, TableData>, tr: (Text, Row)): map<Text, TableData> {
    if tr.0 in tables then tables[tr.0 := Push(tables[tr.0], tr.1)] else tables
  }

  function ApplyRows(tables: map<Text, TableData>, rows: seq<(Text, Row)>): map<Text, TableData> {
    if rows == [] then tables
    else ApplyRow(ApplyRows(tables, rows[..|rows| - 1]), rows[|rows| - 1])
  }

  /** `apply_entry`.  A schema change that does not validate any more is skipped. */
  function ApplyEntry(s: StorageData, e: Entry): StorageData {
    match e
    case CreateTable(table, columns, pk) => s.(tables := s.tables[table := NewTable(columns, pk)])
    case InsertRow(table, row) => s.(tables := ApplyRow(s.tables, (table, row)))
    case Transaction(rows) => s.(tables := ApplyRows(s.tables, rows))
    case CreateDatabase(name) => s.(databases := s.databases + {name})
    case DropDatabase(name) => s.(databases := s.databases - {name})
    case AlterTable(table, change) =>
      if table in s.tables && Rectangular(s.tables[table]) && Alter(s.tables[table], change).Ok?
      then s.(tables := s.tables[table := Alter(s.tables[table], change).value])
      else s
  }

  const EMPTY := StorageData(map[], {})

  function Replay(log: seq<Entry>): StorageData {
    if log == [] then EMPTY else ApplyEntry(Replay(log[..|log| - 1]), log[|log| - 1])
  }

  // ---- operations ----

  datatype Op =
    | OpCreateTable(name: Text, columns: seq<ColumnSchema>, primaryKey: Option<Text>)
    | OpAlterTable(name: Text, change: SchemaChange)
    | OpInsertRow(table: Text, row: Row)
    | OpInsertRows(rows: seq<(Text, Row)>)
    | OpCreateDatabase(name: Text, ifNotExists: bool)
    | OpDropDatabase(name: Text, ifExists: bool)
    | OpReserve(table: Text)

  /** The live store: what is in memory and what has been logged. */
  datatype Live = Live(data: StorageData, log: seq<Entry>)

  predicate RowInsertable(tables: map<Text, TableData>, tr: (Text, Row)) {
    tr.0 in tables && HasWidth(tables[tr.0], tr.1) && KeyFree(tables[tr.0], tr.1)
  }

  /** The key a row goes under, if its table has one. */
  function KeyOf(t: TableData, row: Row): Option<Value> {
    if t.keyIndex.Some? && t.keyIndex.value < |row| then Some(row[t.keyIndex.value]) else None
  }

  /** Two rows of one batch that claim the same key of the same table. */
  predicate Clash(tables: map<Text, TableData>, a: (Text, Row), b: (Text, Row))
    requires a.0 in tables
  {
    a.0 == b.0 && KeyOf(tables[a.0], a.1).Some? && KeyOf(tables[a.0], a.1) == KeyOf(tables[a.0], b.1)
  }

  /** The validation loop of `insert_rows`. */
  predicate BatchInsertable(tables: map<Text, TableData>, rows: seq<(Text, Row)>) {
    && (forall i :: 0 <= i < |rows| ==> RowInsertable(tables, rows[i]))
    && (forall i, j :: 0 <= i < j < |rows| ==> !Clash(tables, rows[i], rows[j]))
  }

  /** The outcome of validating an operation: refuse it, accept it with nothing to log,
      or log an entry and then apply it. */
  datatype Plan = Refuse(error: Error) | Nothing | LogThenApply(entry: Entry)

  function Validate(s: StorageData, op: Op): Plan {
    match op
    case OpCreateTable(name, columns, pk) =>
      if pk.Some? && ColumnIndex(columns, pk.value).None? then Refuse(Execution)
      else if name in s.tables then Refuse(Execution)
      else LogThenApply(CreateTable(name, columns, pk))
    case OpAlterTable(name, change) =>
      if name !in s.tables || !Rectangular(s.tables[name]) then Refuse(Execution)
      else
        (match Alter(s.tables[name], change)
         case Err(e) => Refuse(e)
         case Ok(_) => LogThenApply(AlterTable(name, change)))
    case OpInsertRow(table, row) =>
      if RowInsertable(s.tables, (table, row)) then LogThenApply(InsertRow(table, row)) else Refuse(Execution)
    case OpInsertRows(rows) =>
      if rows == [] then Nothing
      else if BatchInsertable(s.tables, rows) then LogThenApply(Transaction(rows))
      else Refuse(Execution)
    case OpCreateDatabase(name, ifNotExists) =>
      if name in s.databases then (if ifNotExists then Nothing else Refuse(Execution))
      else LogThenApply(CreateDatabase(name))
    case OpDropDatabase(name, ifExists) =>
      if name !in s.databases && !ifExists then Refuse(Execution) else LogThenApply(DropDatabase(name))
    case OpReserve(table) =>
      if table in s.tables && s.tables[table].counter.Some? then Nothing else Refuse(Execution)
  }

  /** The change an accepted operation makes in memory. */
  function Effect(s: StorageData, op: Op): StorageData {
    match op
    case OpCreateTable(name, columns, pk) => s.(tables := s.tables[name := NewTable(columns, pk)])
    case OpAlterTable(name, change) =>
      if name in s.tables && Rectangular(s.tables[name]) && Alter(s.tables[name], change).Ok?
      then s.(tables := s.tables[name := Alter(s.tables[name], change).value]) else s
    case OpInsertRow(table, row) => s.(tables := ApplyRows(s.tables, [(table, row)]))
    case OpInsertRows(rows) => s.(tables := ApplyRows(s.tables, rows))
    case OpCreateDatabase(name, _) => s.(databases := s.databases + {name})
    case OpDropDatabase(name, _) => s.(databases := s.databases - {name})
    case OpReserve(table) =>
      if table in s.tables && Reserve(s.tables[table]).Ok?
      then s.(tables := s.tables[table := Reserve(s.tables[table]).value.1]) else s
  }

  /** Validate, log, apply.  A failed log write leaves both sides as they were. */
  function Perform(live: Live, op: Op, logWrites: bool): Live {
    match Validate(live.data, op)
    case Refuse(_) => live
    case Nothing => live.(data := Effect(live.data, op))
    case LogThenApply(e) =>
      if logWrites then Live(Effect(live.data, op), live.log + [e]) else live
  }

  datatype Action = Action(op: Op, logWrites: bool)

  function RunOps(live: Live, actions: seq<Action>): Live {
    if actions == [] then live
    else
      var before := RunOps(live, actions[..|actions| - 1]);
      Perform(before, actions[|actions| - 1].op, actions[|actions| - 1].logWrites)
  }

  // ---- what replay and memory agree on ----

  /** Same schema, rows and index; the counters may differ. */
  predicate SameTable(a: TableData, b: TableData) {
    && a.schema == b.schema && a.keyIndex == b.keyIndex && a.rows == b.rows && a.index == b.index
    && (a.counter.Some? <==> b.counter.Some?)
    && (a.counter.Some? ==> a.counter.value.column == b.counter.value.column)
  }

  ghost predicate SameTables(a: map<Text, TableData>, b: map<Text, TableData>) {
    a.Keys == b.Keys && forall n :: n in a ==> SameTable(a[n], b[n])
  }

  ghost predicate Agrees(replayed: StorageData, live: StorageData) {
    replayed.databases == live.databases && SameTables(replayed.tables, live.tables)
  }

  lemma PushSame(a: TableData, b: TableData, row: Row)
    requires SameTable(a, b)
    ensures SameTable(Push(a, row), Push(b, row))
  {}

  lemma {:induction false} ApplyRowsSame(a: map<Text, TableData>, b: map<Text, TableData>, rows: seq<(Text, Row)>)
    requires SameTables(a, b)
    ensures SameTables(ApplyRows(a, rows), ApplyRows(b, rows))
  {
    hide Push, SameTable;
    if rows != [] {
      var n := |rows| - 1;
      ApplyRowsSame(a, b, rows[..n]);
      var x, y := ApplyRows(a, rows[..n]), ApplyRows(b, rows[..n]);
      if rows[n].0 in x {
        PushSame(x[rows[n].0], y[rows[n].0], rows[n].1);
      }
    }
  }

  lemma ApplyOne(tables: map<Text, TableData>, tr: (Text, Row))
    ensures ApplyRows(tables, [tr]) == ApplyRow(tables, tr)
  {
    assert [tr][..0] == [];
  }

  /** Alter looks at the schema and the rows only. */
  lemma AlterSame(a: TableData, b: TableData, change: SchemaChange)
    requires SameTable(a, b) && Rectangular(a)
    ensures Rectangular(b) && Alter(a, change) == Alter(b, change)
  {
    hide Build, ModifyRows;
    assert forall i :: 0 <= i < |b.rows| ==> HasWidth(b, b.rows[i]) by {
      assert forall i :: 0 <= i < |a.rows| ==> HasWidth(a, a.rows[i]);
    }
  }

  lemma AlterRectangular(t: TableData, change: SchemaChange)
    requires Rectangular(t) && Alter(t, change).Ok?
    ensures Rectangular(Alter(t, change).value)
  {
    hide Build, ModifyRow;
    var columns, pk := t.schema.columns, t.schema.primaryKey;
    match change
    case AddColumn(column, isPk) =>
      BuildShape(TableSchema(columns + [column], if isPk then Some(column.name) else pk),
                 MapRows(t.rows, row => row + [Null]));
    case DropColumn(name) =>
      var idx := ColumnIndex(columns, name).value;
      BuildShape(TableSchema(columns[..idx] + columns[idx + 1..], if pk == Some(name) then None else pk),
                 MapRows(t.rows, row => WithoutCell(row, idx)));
    case ModifyColumn(col) =>
      var idx := ColumnIndex(columns, col.name).value;
      ModifyRowsEach(t.rows, idx, col);
      BuildShape(TableSchema(columns[idx := col], pk), ModifyRows(t.rows, idx, col).value);
      forall i | 0 <= i < |t.rows|
        ensures |ModifyRows(t.rows, idx, col).value[i]| == |t.rows[i]|
      {
        ModifyRowWidth(t.rows[i], idx, col);
      }
    case AddPrimaryKey(name) =>
      var idx := ColumnIndex(columns, name).value;
      BuildShape(TableSchema(columns[idx := columns[idx].(nullable := false)], Some(name)), t.rows);
    case DropPrimaryKey =>
      BuildShape(TableSchema(ClearAuto(columns, pk.value), None), t.rows);
  }

  lemma ModifyRowWidth(row: Row, idx: nat, col: ColumnSchema)
    requires idx < |row| && ModifyRow(row, idx, col).Ok?
    ensures |ModifyRow(row, idx, col).value| == |row|
  {}

  lemma {:induction false} ApplyRowsRectangular(tables: map<Text, TableData>, rows: seq<(Text, Row)>)
    requires forall n :: n in tables ==> Rectangular(tables[n])
    requires forall i :: 0 <= i < |rows| && rows[i].0 in tables ==> HasWidth(tables[rows[i].0], rows[i].1)
    ensures var r := ApplyRows(tables, rows);
      && r.Keys == tables.Keys
      && forall n :: n in r ==> r[n].schema == tables[n].schema && Rectangular(r[n])
  {
    if rows != [] {
      var n := |rows| - 1;
      ApplyRowsRectangular(tables, rows[..n]);
      var x := ApplyRows(tables, rows[..n]);
      if rows[n].0 in x {
        var t := x[rows[n].0];
        assert forall i :: 0 <= i < |t.rows| ==> HasWidth(t, t.rows[i]);
      }
    }
  }

  lemma EffectRectangular(s: StorageData, op: Op)
    requires AllRectangular(s.tables) && !Validate(s, op).Refuse?
    ensures AllRectangular(Effect(s, op).tables)
  {
    hide Alter;
    match op
    case OpAlterTable(name, change) => AlterRectangular(s.tables[name], change);
    case OpInsertRow(table, row) => ApplyRowsRectangular(s.tables, [(table, row)]);
    case OpInsertRows(rows) => ApplyRowsRectangular(s.tables, rows);
    case OpReserve(table) =>
      var t := s.tables[table];
      assert forall i :: 0 <= i < |t.rows| ==> HasWidth(t, t.rows[i]);
    case _ =>
  }

  /** Applying the logged entry to the replayed state follows the effect on the live one. */
  lemma EntryFollowsEffect(replayed: StorageData, s: StorageData, op: Op)
    requires Agrees(replayed, s) && AllRectangular(s.tables) && Validate(s, op).LogThenApply?
    ensures Agrees(ApplyEntry(replayed, Validate(s, op).entry), Effect(s, op))
  {
    hide Alter, SameTable, Push;
    match op
    case OpCreateTable(name, columns, pk) => SameTableSelf(NewTable(columns, pk));
    case OpAlterTable(name, change) =>
      AlterBoth(replayed.tables[name], s.tables[name], change);
      SameTableSelf(Alter(s.tables[name], change).value);
    case OpInsertRow(table, row) =>
      ApplyRowsSame(replayed.tables, s.tables, [(table, row)]);
      ApplyOne(replayed.tables, (table, row));
    case OpInsertRows(rows) => ApplyRowsSame(replayed.tables, s.tables, rows);
    case _ =>
  }

  lemma SameTableSelf(t: TableData)
    ensures SameTable(t, t)
  {}

  lemma AlterBoth(a: TableData, b: TableData, change: SchemaChange)
    requires SameTable(a, b) && Rectangular(b)
    ensures Rectangular(a) && Alter(a, change) == Alter(b, change)
  {
    hide Alter;
    assert SameTable(b, a);
    AlterSame(b, a, change);
  }

  /** An operation with nothing to log changes nothing replay could see. */
  lemma NothingToSee(replayed: StorageData, s: StorageData, op: Op)
    requires Agrees(replayed, s) && Validate(s, op).Nothing?
    ensures Agrees(replayed, Effect(s, op))
  {
    match op
    case OpInsertRows(rows) =>
    case OpCreateDatabase(name, _) => assert s.databases + {name} == s.databases;
    case OpReserve(table) =>
  }

  /** For every sequence of operations, refused and failed ones included, the log they
      leave replays to the schemas, rows, indexes and database names in memory. */
  lemma {:induction false} ReplayRebuilds(actions: seq<Action>)
    ensures var live := RunOps(Live(EMPTY, []), actions);
      Agrees(Replay(live.log), live.data) && AllRectangular(live.data.tables)
  {
    hide ApplyEntry, Effect, Validate, Rectangular;
    if actions != [] {
      var n := |actions| - 1;
      ReplayRebuilds(actions[..n]);
      var before := RunOps(Live(EMPTY, []), actions[..n]);
      var op := actions[n].op;
      var after := Perform(before, op, actions[n].logWrites);
      match Validate(before.data, op)
      case Refuse(_) =>
      case Nothing =>
        EffectRectangular(before.data, op);
        NothingToSee(Replay(before.log), before.data, op);
      case LogThenApply(e) =>
        if actions[n].logWrites {
          EffectRectangular(before.data, op);
          EntryFollowsEffect(Replay(before.log), before.data, op);
          assert after.log[..|before.log|] == before.log;
        }
    }
  }
}
