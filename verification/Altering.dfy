/** What ALTER TABLE keeps: the table invariant through all five changes, and the rows
    themselves when a MODIFY COLUMN is taken back. */
module Altering {
  import opened Basics
  import opened Values
  import opened Conversions
  import opened Tables

  // ---- where a column ends up ----

  lemma {:induction false} IndexSameNames(a: seq<ColumnSchema>, b: seq<ColumnSchema>, name: Text)
    requires |a| == |b| && forall i :: 0 <= i < |a| ==> a[i].name == b[i].name
    ensures ColumnIndex(a, name) == ColumnIndex(b, name)
  {}

  lemma IndexIs(columns: seq<ColumnSchema>, name: Text, k: nat)
    requires k < |columns| && columns[k].name == name
    requires forall j :: 0 <= j < k ==> columns[j].name != name
    ensures ColumnIndex(columns, name) == Some(k)
  {}

  lemma IndexNone(columns: seq<ColumnSchema>, name: Text)
    requires forall j :: 0 <= j < |columns| ==> columns[j].name != name
    ensures ColumnIndex(columns, name) == None
  {}

  lemma IndexAppend(columns: seq<ColumnSchema>, c: ColumnSchema, name: Text)
    ensures ColumnIndex(columns, name).Some? ==> ColumnIndex(columns + [c], name) == ColumnIndex(columns, name)
    ensures ColumnIndex(columns, name).None? && c.name == name ==> ColumnIndex(columns + [c], name) == Some(|columns|)
  {
    if ColumnIndex(columns, name).Some? {
      IndexIs(columns + [c], name, ColumnIndex(columns, name).value);
    } else if c.name == name {
      IndexIs(columns + [c], name, |columns|);
    }
  }

  lemma IndexWithout(columns: seq<ColumnSchema>, idx: nat, name: Text, k: nat)
    requires idx < |columns| && columns[idx].name != name && ColumnIndex(columns, name) == Some(k)
    ensures ColumnIndex(columns[..idx] + columns[idx + 1..], name) == Some(if k < idx then k else k - 1)
  {
    var without := columns[..idx] + columns[idx + 1..];
    IndexIs(without, name, if k < idx then k else k - 1);
  }

  // ---- MODIFY COLUMN, row by row ----

  lemma {:induction false} ModifyRowsEach(rows: seq<Row>, idx: nat, col: ColumnSchema)
    requires forall i :: 0 <= i < |rows| ==> idx < |rows[i]|
    ensures ModifyRows(rows, idx, col).Ok? <==> forall i :: 0 <= i < |rows| ==> ModifyRow(rows[i], idx, col).Ok?
    ensures ModifyRows(rows, idx, col).Ok? ==>
      forall i :: 0 <= i < |rows| ==> ModifyRow(rows[i], idx, col) == Ok(ModifyRows(rows, idx, col).value[i])
  {
    hide ModifyRow;
    if rows != [] {
      var n := |rows| - 1;
      ModifyRowsEach(rows[..n], idx, col);
      assert forall i :: 0 <= i < n ==> rows[..n][i] == rows[i];
      if ModifyRows(rows[..n], idx, col).Ok? && ModifyRow(rows[n], idx, col).Ok? {
        var front := ModifyRows(rows[..n], idx, col).value;
        forall i | 0 <= i < |rows|
          ensures ModifyRow(rows[i], idx, col) == Ok(ModifyRows(rows, idx, col).value[i])
        {
          assert i < n ==> rows[..n][i] == rows[i];
        }
      }
    }
  }

  /** The retyped cell of a row MODIFY COLUMN accepted. */
  lemma ModifiedRow(row: Row, columns: seq<ColumnSchema>, idx: nat, col: ColumnSchema)
    requires idx < |columns| && RowTyped(columns, row) && ModifyRow(row, idx, col).Ok?
    ensures RowTyped(columns[idx := col], ModifyRow(row, idx, col).value)
    ensures Retype(row[idx], col.columnType) == Ok(ModifyRow(row, idx, col).value[idx])
  {
    hide Retype, HasType;
    RetypeTyped(row[idx], columns[idx].columnType, col.columnType);
  }

  // ---- what each change does to schema and rows, and when it is refused ----

  predicate HasColumn(columns: seq<ColumnSchema>, name: Text) {
    exists i :: 0 <= i < |columns| && columns[i].name == name
  }

  lemma HasColumnIndex(columns: seq<ColumnSchema>, name: Text)
    ensures HasColumn(columns, name) <==> ColumnIndex(columns, name).Some?
  {}

  /** A table made afresh from its schema and rows, and nothing else. */
  predicate MadeOf(t: TableData, schema: TableSchema, rows: seq<Row>) {
    t.schema == schema && t.rows == rows && t == Build(schema, rows)
  }

  lemma Made(schema: TableSchema, rows: seq<Row>)
    ensures MadeOf(Build(schema, rows), schema, rows)
  {
    hide Build;
    BuildShape(schema, rows);
  }

  /** ADD COLUMN: refused exactly for a name that is taken, for a NOT NULL or key column of
      a table with rows, and for a second key; otherwise every row gets a NULL at its end. */
  lemma AddColumnExact(t: TableData, column: ColumnSchema, isPk: bool)
    requires Rectangular(t)
    ensures var r := Alter(t, AddColumn(column, isPk));
      && (r.Err? <==>
            || HasColumn(t.schema.columns, column.name)
            || (t.rows != [] && (!column.nullable || isPk))
            || (isPk && t.schema.primaryKey.Some?))
      && (r.Ok? ==>
            && |r.value.rows| == |t.rows|
            && (forall i :: 0 <= i < |t.rows| ==> r.value.rows[i] == t.rows[i] + [Null])
            && r.value.schema.columns == t.schema.columns + [column]
            && r.value.schema.primaryKey == (if isPk then Some(column.name) else t.schema.primaryKey)
            && MadeOf(r.value, r.value.schema, r.value.rows))
  {
    hide Build, ColumnIndex;
    HasColumnIndex(t.schema.columns, column.name);
    Made(TableSchema(t.schema.columns + [column], if isPk then Some(column.name) else t.schema.primaryKey),
         MapRows(t.rows, row => row + [Null]));
  }

  /** `xs` without its element at `idx`. */
  predicate OneLess<T(==)>(xs: seq<T>, less: seq<T>, idx: nat) {
    && idx < |xs| == |less| + 1
    && (forall j :: 0 <= j < idx ==> less[j] == xs[j])
    && (forall j :: idx < j < |xs| ==> less[j - 1] == xs[j])
  }

  /** DROP COLUMN: refused exactly for an unknown name and for the only column; otherwise
      the schema and every row lose that column and nothing else. */
  lemma DropColumnExact(t: TableData, name: Text)
    requires Rectangular(t)
    ensures var r := Alter(t, DropColumn(name));
      && (r.Err? <==> !HasColumn(t.schema.columns, name) || |t.schema.columns| == 1)
      && (r.Ok? ==>
            && ColumnIndex(t.schema.columns, name).Some?
            && var idx := ColumnIndex(t.schema.columns, name).value;
            && OneLess(t.schema.columns, r.value.schema.columns, idx)
            && |r.value.rows| == |t.rows|
            && (forall i :: 0 <= i < |t.rows| ==> OneLess(t.rows[i], r.value.rows[i], idx))
            && r.value.schema.primaryKey == (if t.schema.primaryKey == Some(name) then None else t.schema.primaryKey)
            && MadeOf(r.value, r.value.schema, r.value.rows))
  {
    hide Build;
    HasColumnIndex(t.schema.columns, name);
    var columns, pk := t.schema.columns, t.schema.primaryKey;
    if ColumnIndex(columns, name).Some? && |columns| != 1 {
      var idx := ColumnIndex(columns, name).value;
      var schema := TableSchema(columns[..idx] + columns[idx + 1..], if pk == Some(name) then None else pk);
      var rows := MapRows(t.rows, row => WithoutCell(row, idx));
      Made(schema, rows);
      hide ColumnIndex, WithoutCell;
      LessColumns(columns, idx);
      forall i | 0 <= i < |t.rows|
        ensures OneLess(t.rows[i], rows[i], idx)
      {
        assert HasWidth(t, t.rows[i]);
        LessCell(t.rows[i], idx);
      }
    }
  }

  lemma LessColumns(columns: seq<ColumnSchema>, idx: nat)
    requires idx < |columns|
    ensures OneLess(columns, columns[..idx] + columns[idx + 1..], idx)
  {}

  lemma LessCell(row: Row, idx: nat)
    requires idx < |row|
    ensures OneLess(row, WithoutCell(row, idx), idx)
  {}

  /** The cell of one row under MODIFY COLUMN. */
  predicate Modifiable(row: Row, idx: nat, col: ColumnSchema) {
    idx < |row| && Retype(row[idx], col.columnType).Ok? && (Retype(row[idx], col.columnType).value.Null? ==> col.nullable)
  }

  /** MODIFY COLUMN: refused exactly for an unknown name, AUTO_INCREMENT off the key, and a
      row whose cell cannot take the new type; otherwise that one cell is retyped. */
  lemma ModifyColumnExact(t: TableData, col: ColumnSchema)
    requires Rectangular(t)
    ensures var r := Alter(t, ModifyColumn(col));
      && (HasColumn(t.schema.columns, col.name) <==> ColumnIndex(t.schema.columns, col.name).Some?)
      && (r.Ok? <==>
            && HasColumn(t.schema.columns, col.name)
            && (col.autoIncrement ==> t.schema.primaryKey == Some(col.name))
            && forall i :: 0 <= i < |t.rows| ==> Modifiable(t.rows[i], ColumnIndex(t.schema.columns, col.name).value, col))
      && (r.Ok? ==>
            && var idx := ColumnIndex(t.schema.columns, col.name).value;
            && r.value.schema == TableSchema(t.schema.columns[idx := col], t.schema.primaryKey)
            && |r.value.rows| == |t.rows|
            && (forall i :: 0 <= i < |t.rows| ==>
                  && idx < |t.rows[i]| && Retype(t.rows[i][idx], col.columnType).Ok?
                  && r.value.rows[i] == t.rows[i][idx := Retype(t.rows[i][idx], col.columnType).value])
            && MadeOf(r.value, r.value.schema, r.value.rows))
  {
    hide Build, Retype;
    HasColumnIndex(t.schema.columns, col.name);
    if ColumnIndex(t.schema.columns, col.name).Some? {
      var idx := ColumnIndex(t.schema.columns, col.name).value;
      ModifyRowsEach(t.rows, idx, col);
      assert forall i :: 0 <= i < |t.rows| ==> (Modifiable(t.rows[i], idx, col) <==> ModifyRow(t.rows[i], idx, col).Ok?);
      if ModifyRows(t.rows, idx, col).Ok? {
        Made(TableSchema(t.schema.columns[idx := col], t.schema.primaryKey), ModifyRows(t.rows, idx, col).value);
      }
    }
  }

  /** ADD PRIMARY KEY: refused exactly for a second key, an unknown name, a NULL or a
      repeated value; otherwise the rows stay and the column becomes NOT NULL. */
  lemma AddPrimaryKeyExact(t: TableData, name: Text)
    requires Rectangular(t)
    ensures var r, columns := Alter(t, AddPrimaryKey(name)), t.schema.columns;
      && (HasColumn(columns, name) <==> ColumnIndex(columns, name).Some?)
      && (r.Ok? <==>
            && t.schema.primaryKey.None? && HasColumn(columns, name)
            && var idx := ColumnIndex(columns, name).value;
            && (forall i :: 0 <= i < |t.rows| ==> idx < |t.rows[i]| && !t.rows[i][idx].Null?)
            && DistinctAt(t.rows, idx))
      && (r.Ok? ==>
            && var idx := ColumnIndex(columns, name).value;
            && r.value.rows == t.rows
            && r.value.schema == TableSchema(columns[idx := columns[idx].(nullable := false)], Some(name))
            && MadeOf(r.value, r.value.schema, r.value.rows))
  {
    hide Build;
    var columns := t.schema.columns;
    HasColumnIndex(columns, name);
    if ColumnIndex(columns, name).Some? {
      var idx := ColumnIndex(columns, name).value;
      Made(TableSchema(columns[idx := columns[idx].(nullable := false)], Some(name)), t.rows);
    }
  }

  /** DROP PRIMARY KEY: refused exactly without one; otherwise the rows stay, and of the
      columns only the key's AUTO_INCREMENT goes. */
  lemma DropPrimaryKeyExact(t: TableData)
    requires Rectangular(t)
    ensures var r, columns := Alter(t, DropPrimaryKey), t.schema.columns;
      && (r.Err? <==> t.schema.primaryKey.None?)
      && (r.Ok? ==>
            && r.value.rows == t.rows && r.value.schema.primaryKey == None
            && |r.value.schema.columns| == |columns|
            && (forall i :: 0 <= i < |columns| ==>
                  r.value.schema.columns[i]
                    == if columns[i].name == t.schema.primaryKey.value then columns[i].(autoIncrement := false) else columns[i])
            && MadeOf(r.value, r.value.schema, r.value.rows))
  {
    hide Build;
    if t.schema.primaryKey.Some? {
      Made(TableSchema(ClearAuto(t.schema.columns, t.schema.primaryKey.value), None), t.rows);
    }
  }

  /** What row `i` holds under a column name. */
  function CellOf(t: TableData, i: nat, name: Text): Option<Value>
    requires i < |t.rows|
  {
    match ColumnIndex(t.schema.columns, name)
    case Some(k) => if k < |t.rows[i]| then Some(t.rows[i][k]) else None
    case None => None
  }

  /** The column a change is about, if it touches cells. */
  function Touched(change: SchemaChange): Option<Text> {
    match change
    case AddColumn(column, _) => Some(column.name)
    case DropColumn(name) => Some(name)
    case ModifyColumn(col) => Some(col.name)
    case _ => None
  }

  /** Whatever the change: no row comes or goes, and under every other column name each row
      holds what it held before. */
  lemma AlterKeepsCells(t: TableData, change: SchemaChange, i: nat, name: Text)
    requires Rectangular(t) && Alter(t, change).Ok? && i < |t.rows| && Touched(change) != Some(name)
    ensures var r := Alter(t, change).value;
      |r.rows| == |t.rows| && CellOf(r, i, name) == CellOf(t, i, name)
  {
    hide Alter, MadeOf, ColumnIndex;
    assert HasWidth(t, t.rows[i]);
    var columns, r := t.schema.columns, Alter(t, change).value;
    match change
    case AddColumn(column, isPk) =>
      AddColumnExact(t, column, isPk);
      IndexElsewhere(columns, column, name);
    case DropColumn(dropped) =>
      DropColumnExact(t, dropped);
      var idx := ColumnIndex(columns, dropped).value;
      DroppedElsewhere(columns, r.schema.columns, idx, name);
      assert OneLess(t.rows[i], r.rows[i], idx);
    case ModifyColumn(col) =>
      ModifyColumnExact(t, col);
      IndexSameNames(columns, r.schema.columns, name);
    case AddPrimaryKey(key) =>
      AddPrimaryKeyExact(t, key);
      IndexSameNames(columns, r.schema.columns, name);
    case DropPrimaryKey =>
      DropPrimaryKeyExact(t);
      IndexSameNames(columns, r.schema.columns, name);
  }

  lemma IndexElsewhere(columns: seq<ColumnSchema>, c: ColumnSchema, name: Text)
    requires c.name != name
    ensures ColumnIndex(columns + [c], name) == ColumnIndex(columns, name)
  {
    IndexAppend(columns, c, name);
    if ColumnIndex(columns, name).None? {
      IndexNone(columns + [c], name);
    }
  }

  lemma DroppedElsewhere(columns: seq<ColumnSchema>, less: seq<ColumnSchema>, idx: nat, name: Text)
    requires OneLess(columns, less, idx) && columns[idx].name != name
    ensures ColumnIndex(less, name)
         == match ColumnIndex(columns, name) case Some(k) => Some(if k < idx then k else k - 1) case None => None
  {
    assert less == columns[..idx] + columns[idx + 1..];
    if ColumnIndex(columns, name).Some? {
      IndexWithout(columns, idx, name, ColumnIndex(columns, name).value);
    } else {
      IndexNone(less, name);
    }
  }

  // ---- the invariant through every change ----

  /** MODIFY COLUMN of the key column must not be able to merge two keys. */
  predicate KeepsKeysApart(t: TableData, change: SchemaChange) {
    change.ModifyColumn? && t.schema.primaryKey == Some(change.newColumn.name) ==>
      match ColumnIndex(t.schema.columns, change.newColumn.name)
      case Some(idx) => KeySafe(t.schema.columns[idx].columnType, change.newColumn.columnType)
      case None => true
  }

  /** What the invariant says about the key, put as one needs it for a rebuild. */
  lemma KeyFacts(t: TableData)
    requires TableInv(t)
    ensures Rectangular(t)
    ensures t.schema.primaryKey.Some? ==>
      && t.keyIndex.Some? && ColumnIndex(t.schema.columns, t.schema.primaryKey.value) == t.keyIndex
      && DistinctAt(t.rows, t.keyIndex.value)
  {}

  predicate KeysDistinct(schema: TableSchema, rows: seq<Row>) {
    schema.primaryKey.Some? ==>
      match ColumnIndex(schema.columns, schema.primaryKey.value)
      case Some(k) => DistinctAt(rows, k)
      case None => false
  }

  /** A table rebuilt from typed rows with distinct keys is sound. */
  lemma Rebuilt(schema: TableSchema, rows: seq<Row>)
    requires RowsTyped(schema.columns, rows) && KeysDistinct(schema, rows)
    ensures TableInv(Build(schema, rows)) && WellTyped(Build(schema, rows))
    ensures Build(schema, rows).schema == schema && Build(schema, rows).rows == rows
  {
    hide HasType, Push;
    assert forall i :: 0 <= i < |rows| ==> RowTyped(schema.columns, rows[i]);
    BuildInv(schema, rows);
    BuildShape(schema, rows);
  }

  lemma NullHasType(t: ColumnType)
    ensures HasType(Null, t)
  {}

  lemma AddColumnKeeps(t: TableData, column: ColumnSchema, isPk: bool)
    requires TableInv(t) && WellTyped(t) && Alter(t, AddColumn(column, isPk)).Ok?
    ensures var r := Alter(t, AddColumn(column, isPk)).value; TableInv(r) && WellTyped(r)
  {
    hide Build, TableInv, HasType;
    KeyFacts(t);
    var columns, pk := t.schema.columns, t.schema.primaryKey;
    var schema := TableSchema(columns + [column], if isPk then Some(column.name) else pk);
    var rows := MapRows(t.rows, row => row + [Null]);
    if schema.primaryKey.Some? {
      IndexAppend(columns, column, schema.primaryKey.value);
      if !isPk {
        var k := t.keyIndex.value;
        assert forall i :: 0 <= i < |rows| ==> k < |rows[i]| && rows[i][k] == t.rows[i][k];
      }
    }
    forall i | 0 <= i < |rows|
      ensures RowTyped(schema.columns, rows[i])
    {
      assert RowTyped(columns, t.rows[i]);
      NullHasType(column.columnType);
    }
    Rebuilt(schema, rows);
  }

  lemma DropKeepsTyped(t: TableData, idx: nat)
    requires WellTyped(t) && idx < |t.schema.columns|
    ensures RowsTyped(t.schema.columns[..idx] + t.schema.columns[idx + 1..], MapRows(t.rows, row => WithoutCell(row, idx)))
  {
    hide HasType, RowTyped, WithoutCell;
    var columns := t.schema.columns;
    var rows := MapRows(t.rows, row => WithoutCell(row, idx));
    forall i | 0 <= i < |rows|
      ensures RowTyped(columns[..idx] + columns[idx + 1..], rows[i])
    {
      assert RowTyped(columns, t.rows[i]);
      CellsWithout(columns, t.rows[i], idx);
    }
  }

  lemma DropKeepsDistinct(rows: seq<Row>, idx: nat, k: nat)
    requires DistinctAt(rows, k) && k != idx
    ensures DistinctAt(MapRows(rows, row => WithoutCell(row, idx)), if k < idx then k else k - 1)
  {
    var shorter, m := MapRows(rows, row => WithoutCell(row, idx)), if k < idx then k else k - 1;
    forall i | 0 <= i < |rows|
      ensures m < |shorter[i]| && shorter[i][m] == rows[i][k]
    {
      assert shorter[i] == WithoutCell(rows[i], idx);
    }
  }

  lemma DropColumnKeeps(t: TableData, name: Text)
    requires TableInv(t) && WellTyped(t) && Alter(t, DropColumn(name)).Ok?
    ensures var r := Alter(t, DropColumn(name)).value; TableInv(r) && WellTyped(r)
  {
    hide Build, TableInv, HasType, WithoutCell, RowTyped, DistinctAt;
    KeyFacts(t);
    var columns, pk := t.schema.columns, t.schema.primaryKey;
    var idx := ColumnIndex(columns, name).value;
    var schema := TableSchema(columns[..idx] + columns[idx + 1..], if pk == Some(name) then None else pk);
    var rows := MapRows(t.rows, row => WithoutCell(row, idx));
    DropKeepsTyped(t, idx);
    if schema.primaryKey.Some? {
      var k := t.keyIndex.value;
      IndexWithout(columns, idx, pk.value, k);
      DropKeepsDistinct(t.rows, idx, k);
    }
    hide ColumnIndex;
    Rebuilt(schema, rows);
  }

  lemma CellsWithout(columns: seq<ColumnSchema>, row: Row, idx: nat)
    requires idx < |columns| && RowTyped(columns, row)
    ensures RowTyped(columns[..idx] + columns[idx + 1..], WithoutCell(row, idx))
  {
    hide HasType;
    var cs, r := columns[..idx] + columns[idx + 1..], WithoutCell(row, idx);
    forall j | 0 <= j < |r|
      ensures HasType(r[j], cs[j].columnType) && (r[j].Null? ==> cs[j].nullable)
    {
      var m := if j < idx then j else j + 1;
      assert r[j] == row[m] && cs[j] == columns[m];
    }
  }

  lemma ModifyKeepsDistinct(t: TableData, idx: nat, col: ColumnSchema)
    requires TableInv(t) && WellTyped(t) && t.schema.primaryKey.Some? && idx < |t.schema.columns|
    requires ModifyRows(t.rows, idx, col).Ok?
    requires t.keyIndex.value == idx ==> KeySafe(t.schema.columns[idx].columnType, col.columnType)
    ensures DistinctAt(ModifyRows(t.rows, idx, col).value, t.keyIndex.value)
  {
    hide Retype, HasType, KeySafe, TableInv;
    KeyFacts(t);
    var rows, k := ModifyRows(t.rows, idx, col).value, t.keyIndex.value;
    var source := t.schema.columns[idx].columnType;
    ModifyRowsEach(t.rows, idx, col);
    forall i | 0 <= i < |rows|
      ensures k < |rows[i]| && k < |t.rows[i]|
      ensures k != idx ==> rows[i][k] == t.rows[i][k]
      ensures k == idx ==> Retype(t.rows[i][k], col.columnType) == Ok(rows[i][k])
    {
      ModifiedRow(t.rows[i], t.schema.columns, idx, col);
    }
    forall i, j | 0 <= i < j < |rows|
      ensures rows[i][k] != rows[j][k]
    {
      var v, w := t.rows[i][k], t.rows[j][k];
      assert RowTyped(t.schema.columns, t.rows[i]) && RowTyped(t.schema.columns, t.rows[j]);
      if k == idx && rows[i][k] == rows[j][k] {
        RetypeTyped(v, source, col.columnType);
        RetypeTyped(w, source, col.columnType);
        if !v.Null? {
          KeySafeInjective(v, w, source, col.columnType);
        }
      }
    }
  }

  lemma ModifyColumnKeeps(t: TableData, col: ColumnSchema)
    requires TableInv(t) && WellTyped(t) && KeepsKeysApart(t, ModifyColumn(col))
    requires Alter(t, ModifyColumn(col)).Ok?
    ensures var r := Alter(t, ModifyColumn(col)).value; TableInv(r) && WellTyped(r)
  {
    hide Build, TableInv, HasType, KeySafe, ModifyRow;
    KeyFacts(t);
    var columns, pk := t.schema.columns, t.schema.primaryKey;
    var idx := ColumnIndex(columns, col.name).value;
    var schema := TableSchema(columns[idx := col], pk);
    var rows := ModifyRows(t.rows, idx, col).value;
    ModifyRowsEach(t.rows, idx, col);
    forall i | 0 <= i < |rows|
      ensures RowTyped(schema.columns, rows[i])
    {
      ModifiedRow(t.rows[i], columns, idx, col);
    }
    if pk.Some? {
      IndexSameNames(columns, schema.columns, pk.value);
      ModifyKeepsDistinct(t, idx, col);
    }
    Rebuilt(schema, rows);
  }

  lemma AddPrimaryKeyKeeps(t: TableData, name: Text)
    requires TableInv(t) && WellTyped(t) && Alter(t, AddPrimaryKey(name)).Ok?
    ensures var r := Alter(t, AddPrimaryKey(name)).value; TableInv(r) && WellTyped(r)
  {
    hide Build, TableInv, HasType;
    KeyFacts(t);
    var columns := t.schema.columns;
    var idx := ColumnIndex(columns, name).value;
    var schema := TableSchema(columns[idx := columns[idx].(nullable := false)], Some(name));
    IndexSameNames(columns, schema.columns, name);
    forall i | 0 <= i < |t.rows|
      ensures RowTyped(schema.columns, t.rows[i])
    {
      assert RowTyped(columns, t.rows[i]);
    }
    Rebuilt(schema, t.rows);
  }

  lemma DropPrimaryKeyKeeps(t: TableData)
    requires TableInv(t) && WellTyped(t) && Alter(t, DropPrimaryKey).Ok?
    ensures var r := Alter(t, DropPrimaryKey).value; TableInv(r) && WellTyped(r)
  {
    hide Build, TableInv, HasType;
    KeyFacts(t);
    var schema := TableSchema(ClearAuto(t.schema.columns, t.schema.primaryKey.value), None);
    forall i | 0 <= i < |t.rows|
      ensures RowTyped(schema.columns, t.rows[i])
    {
      assert RowTyped(t.schema.columns, t.rows[i]);
    }
    Rebuilt(schema, t.rows);
  }

  /** Every successful schema change of a sound table gives a sound table. */
  lemma AlterKeeps(t: TableData, change: SchemaChange)
    requires TableInv(t) && WellTyped(t) && KeepsKeysApart(t, change)
    requires Alter(t, change).Ok?
    ensures TableInv(Alter(t, change).value) && WellTyped(Alter(t, change).value)
  {
    hide Alter, TableInv, WellTyped, KeepsKeysApart;
    KeyFacts(t);
    match change
    case AddColumn(column, isPk) => AddColumnKeeps(t, column, isPk);
    case DropColumn(name) => DropColumnKeeps(t, name);
    case ModifyColumn(col) => ModifyColumnKeeps(t, col);
    case AddPrimaryKey(name) => AddPrimaryKeyKeeps(t, name);
    case DropPrimaryKey => DropPrimaryKeyKeeps(t);
  }

  // ---- a MODIFY of the key column outside `KeySafe` ----

  /** For every other pair of types there is a sound table whose key column the source
      lets be modified into one with two equal keys. */
  lemma UnsafeModifyBreaks(a: ColumnType, b: ColumnType) returns (t: TableData, col: ColumnSchema)
    requires !KeySafe(a, b)
    ensures TableInv(t) && WellTyped(t) && t.schema.columns == [ColumnSchema(col.name, a, false, false)]
    ensures col.columnType == b && t.schema.primaryKey == Some(col.name)
    ensures Alter(t, ModifyColumn(col)).Ok? && !TableInv(Alter(t, ModifyColumn(col)).value)
  {
    hide Retype, HasType, Build, TableInv;
    var v, w := KeyUnsafeCollides(a, b);
    col := ColumnSchema([107], b, false, false);
    var schema := TableSchema([ColumnSchema(col.name, a, false, false)], Some(col.name));
    var rows: seq<Row> := [[v], [w]];
    t := Build(schema, rows);
    Rebuilt(schema, rows);
    KeyFacts(t);
    var k := Retype(v, b).value;
    RetypeTyped(v, a, b);
    assert [v][0 := k] == [k] && [w][0 := k] == [k];
    assert ModifyRow(rows[0], 0, col) == Ok([k]) && ModifyRow(rows[1], 0, col) == Ok([k]);
    ModifyRowsEach(rows, 0, col);
    var after := ModifyRows(rows, 0, col).value;
    assert after[0] == [k] && after[1] == [k];
    var altered := TableSchema([col], Some(col.name));
    assert schema.columns[0 := col] == [col];
    BuildShape(altered, after);
    SameKeyTwice(Alter(t, ModifyColumn(col)).value);
  }

  lemma SameKeyTwice(t: TableData)
    requires t.keyIndex == Some(0) && |t.rows| == 2 && |t.rows[0]| == 1 && t.rows[0] == t.rows[1]
    ensures !TableInv(t)
  {
    assert t.rows[0][0] == t.rows[1][0];
  }

  // ---- taking a MODIFY back ----

  /** Rows whose text does not read back. */
  predicate HoldsMinDecimal(row: Row, idx: nat) {
    idx < |row| && row[idx].Decimal? && row[idx].unscaled == I64_MIN
  }

  lemma ModifyRowBack(row: Row, columns: seq<ColumnSchema>, idx: nat, col: ColumnSchema)
    requires idx < |columns| && RowTyped(columns, row)
    requires Undoable(columns[idx].columnType, col.columnType) && ModifyRow(row, idx, col).Ok?
    ensures ModifyRow(ModifyRow(row, idx, col).value, idx, columns[idx]) == Ok(row)
       <==> !(col.columnType == TVarchar && HoldsMinDecimal(row, idx))
  {
    hide Retype, HasType, Undoable;
    var there := ModifyRow(row, idx, col).value;
    RetypeUndone(row[idx], columns[idx].columnType, col.columnType);
    assert there[idx := row[idx]] == row;
  }

  /** MODIFY COLUMN to a type every value can come back from, and then back to the old
      definition, restores every row, exactly unless a stored DECIMAL of `i64::MIN` went
      through VARCHAR. */
  lemma ModifyUndone(t: TableData, col: ColumnSchema)
    requires TableInv(t) && WellTyped(t) && ColumnIndex(t.schema.columns, col.name).Some?
    requires var was := t.schema.columns[ColumnIndex(t.schema.columns, col.name).value];
      Undoable(was.columnType, col.columnType) && (was.autoIncrement ==> t.schema.primaryKey == Some(col.name))
    requires Alter(t, ModifyColumn(col)).Ok?
    ensures var idx := ColumnIndex(t.schema.columns, col.name).value;
      var there := Alter(t, ModifyColumn(col)).value;
      && Rectangular(there)
      && var back := Alter(there, ModifyColumn(t.schema.columns[idx]));
      && (back.Ok? && back.value.rows == t.rows && back.value.schema == t.schema <==>
            !(col.columnType == TVarchar && exists i :: 0 <= i < |t.rows| && HoldsMinDecimal(t.rows[i], idx)))
  {
    hide Build, TableInv, HasType, Undoable, ModifyRow;
    KeyFacts(t);
    var columns, pk := t.schema.columns, t.schema.primaryKey;
    var idx := ColumnIndex(columns, col.name).value;
    var was := columns[idx];
    var there := Alter(t, ModifyColumn(col)).value;
    ModifyRowsEach(t.rows, idx, col);
    BuildShape(TableSchema(columns[idx := col], pk), ModifyRows(t.rows, idx, col).value);
    forall i | 0 <= i < |t.rows|
      ensures |there.rows[i]| == |columns|
      ensures ModifyRow(there.rows[i], idx, was) == Ok(t.rows[i])
         <==> !(col.columnType == TVarchar && HoldsMinDecimal(t.rows[i], idx))
    {
      assert RowTyped(columns, t.rows[i]);
      ModifiedRow(t.rows[i], columns, idx, col);
      ModifyRowBack(t.rows[i], columns, idx, col);
    }
    IndexSameNames(columns, there.schema.columns, was.name);
    assert there.schema.columns[idx := was] == columns;
    ModifyRowsEach(there.rows, idx, was);
    if ModifyRows(there.rows, idx, was).Ok? {
      BuildShape(TableSchema(columns, pk), ModifyRows(there.rows, idx, was).value);
    }
  }
}
