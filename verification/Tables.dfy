/** A table's rows, primary-key index and AUTO_INCREMENT counter, and ALTER TABLE as
    a rebuild: the `Table` of `storage::engine` and `compute_altered_table`. */
module Tables {
  import opened Basics
  import opened Values
  import opened Conversions

  /** The AUTO_INCREMENT column and the value it hands out next. */
  datatype Counter = Counter(column: nat, next: i64)

  datatype TableData = TableData(
    schema: TableSchema,
    keyIndex: Option<nat>,
    rows: seq<Row>,
    index: map<Value, nat>,
    counter: Option<Counter>)

  /** `Table::new`. */
  function NewTable(columns: seq<ColumnSchema>, primaryKey: Option<Text>): (t: TableData) {
    TableData(
      TableSchema(columns, primaryKey),
      if primaryKey.Some? then ColumnIndex(columns, primaryKey.value) else None,
      [], map[],
      match AutoIndex(columns) case Some(i) => Some(Counter(i, 1)) case None => None)
  }

  /** The counter after a row: one past the largest value seen, in wrapping arithmetic. */
  function BumpCounter(c: Counter, row: Row): Counter {
    if c.column < |row| && row[c.column].Int?
    then c.(next := Max(c.next, WrapI64(row[c.column].n + 1)))
    else c
  }

  /** `push_trusted`.  (A row too short for the schema, on which the source panics, never
      gets this far; the guards only make the function total.) */
  function Push(t: TableData, row: Row): (r: TableData) {
    t.(index := if t.keyIndex.Some? && t.keyIndex.value < |row|
                then t.index[row[t.keyIndex.value] := |t.rows|] else t.index,
       counter := match t.counter case Some(c) => Some(BumpCounter(c, row)) case None => None,
       rows := t.rows + [row])
  }

  function PushAll(t: TableData, rows: seq<Row>): (r: TableData) {
    if rows == [] then t else Push(PushAll(t, rows[..|rows| - 1]), rows[|rows| - 1])
  }

  /** A table made from scratch with these rows. */
  function Build(schema: TableSchema, rows: seq<Row>): TableData {
    PushAll(NewTable(schema.columns, schema.primaryKey), rows)
  }

  predicate HasWidth(t: TableData, row: Row) {
    |row| == |t.schema.columns|
  }

  /** `check_insertable`: is the row's key still free? */
  predicate KeyFree(t: TableData, row: Row) {
    t.keyIndex.Some? && t.keyIndex.value < |row| ==> row[t.keyIndex.value] !in t.index
  }

  /** `next_auto_increment`: the value handed out and the table afterwards. */
  function Reserve(t: TableData): (r: Result<(i64, TableData)>) {
    match t.counter
    case None => Err(Execution)
    case Some(c) => Ok((c.next, t.(counter := Some(c.(next := WrapI64(c.next + 1))))))
  }

  // ---- schema changes ----

  function MapRows(rows: seq<Row>, f: Row -> Row): (r: seq<Row>)
    ensures |r| == |rows|
    ensures forall i :: 0 <= i < |rows| ==> r[i] == f(rows[i])
  {
    seq(|rows|, i requires 0 <= i < |rows| => f(rows[i]))
  }

  function WithoutCell(row: Row, idx: nat): Row {
    if idx < |row| then row[..idx] + row[idx + 1..] else row
  }

  /** The body of the MODIFY COLUMN loop. */
  function ModifyRow(row: Row, idx: nat, col: ColumnSchema): (r: Result<Row>)
    requires idx < |row|
  {
    var v :- Retype(row[idx], col.columnType);
    if !col.nullable && v.Null? then Err(Execution) else Ok(row[idx := v])
  }

  function ModifyRows(rows: seq<Row>, idx: nat, col: ColumnSchema): (r: Result<seq<Row>>)
    requires forall i :: 0 <= i < |rows| ==> idx < |rows[i]|
    ensures r.Ok? ==> |r.value| == |rows|
  {
    if rows == [] then Ok([])
    else
      var front :- ModifyRows(rows[..|rows| - 1], idx, col);
      var last :- ModifyRow(rows[|rows| - 1], idx, col);
      Ok(front + [last])
  }

  /** The checks of the ADD PRIMARY KEY loop: no NULL, no duplicate. */
  predicate KeysUsable(rows: seq<Row>, idx: nat)
    requires forall i :: 0 <= i < |rows| ==> idx < |rows[i]|
  {
    && (forall i :: 0 <= i < |rows| ==> !rows[i][idx].Null?)
    && (forall i, j :: 0 <= i < j < |rows| ==> rows[i][idx] != rows[j][idx])
  }

  function ClearAuto(columns: seq<ColumnSchema>, name: Text): (r: seq<ColumnSchema>)
    ensures |r| == |columns|
    ensures forall i :: 0 <= i < |columns| ==>
      r[i] == if columns[i].name == name then columns[i].(autoIncrement := false) else columns[i]
  {
    seq(|columns|, i requires 0 <= i < |columns| =>
      if columns[i].name == name then columns[i].(autoIncrement := false) else columns[i])
  }

  predicate Rectangular(t: TableData) {
    forall i :: 0 <= i < |t.rows| ==> HasWidth(t, t.rows[i])
  }

  ghost predicate AllRectangular(tables: map<Text, TableData>) {
    forall n :: n in tables ==> Rectangular(tables[n])
  }

  /** `compute_altered_table`. */
  function Alter(t: TableData, change: SchemaChange): (r: Result<TableData>)
    requires Rectangular(t)
  {
    var columns, pk := t.schema.columns, t.schema.primaryKey;
    match change
    case AddColumn(column, isPk) =>
      if ColumnIndex(columns, column.name).Some? then Err(Execution)
      else if t.rows != [] && (!column.nullable || isPk) then Err(Execution)
      else if isPk && pk.Some? then Err(Execution)
      else
        var schema := TableSchema(columns + [column], if isPk then Some(column.name) else pk);
        Ok(Build(schema, MapRows(t.rows, row => row + [Null])))
    case DropColumn(name) =>
      (match ColumnIndex(columns, name)
       case None => Err(Execution)
       case Some(idx) =>
         if |columns| == 1 then Err(Execution)
         else
           var schema := TableSchema(columns[..idx] + columns[idx + 1..], if pk == Some(name) then None else pk);
           Ok(Build(schema, MapRows(t.rows, row => WithoutCell(row, idx)))))
    case ModifyColumn(col) =>
      (match ColumnIndex(columns, col.name)
       case None => Err(Execution)
       case Some(idx) =>
         if col.autoIncrement && pk != Some(col.name) then Err(Unsupported)
         else
           var rows :- ModifyRows(t.rows, idx, col);
           Ok(Build(TableSchema(columns[idx := col], pk), rows)))
    case AddPrimaryKey(name) =>
      if pk.Some? then Err(Execution)
      else
        (match ColumnIndex(columns, name)
         case None => Err(Execution)
         case Some(idx) =>
           if !KeysUsable(t.rows, idx) then Err(Execution)
           else
             var schema := TableSchema(columns[idx := columns[idx].(nullable := false)], Some(name));
             Ok(Build(schema, t.rows)))
    case DropPrimaryKey =>
      if pk.None? then Err(Execution)
      else Ok(Build(TableSchema(ClearAuto(columns, pk.value), None), t.rows))
  }

  // ---- the table invariant ----

  /** The index maps exactly each row's key to that row's position. */
  predicate IndexExact(index: map<Value, nat>, rows: seq<Row>, k: nat) {
    && (forall i :: 0 <= i < |rows| ==> k < |rows[i]| && rows[i][k] in index && index[rows[i][k]] == i)
    && (forall key :: key in index ==> index[key] < |rows| && k < |rows[index[key]]| && rows[index[key]][k] == key)
  }

  predicate SchemaInv(t: TableData) {
    && (t.schema.primaryKey.None? ==> t.keyIndex.None?)
    && (t.schema.primaryKey.Some? ==>
          t.keyIndex.Some? && t.keyIndex == ColumnIndex(t.schema.columns, t.schema.primaryKey.value))
    && (match AutoIndex(t.schema.columns)
        case None => t.counter.None?
        case Some(i) => t.counter.Some? && t.counter.value.column == i)
  }

  /** Rows as wide as the schema, distinct keys, an exact index. */
  ghost predicate TableInv(t: TableData) {
    && SchemaInv(t)
    && Rectangular(t)
    && (t.keyIndex.None? ==> t.index == map[])
    && (t.keyIndex.Some? ==> IndexExact(t.index, t.rows, t.keyIndex.value))
  }

  predicate HoldsInt(row: Row, column: nat) {
    column < |row| && row[column].Int?
  }

  predicate HoldsMax(row: Row, column: nat) {
    HoldsInt(row, column) && row[column].n == I64_MAX
  }

  predicate Below(row: Row, c: Counter) {
    HoldsInt(row, c.column) ==> row[c.column].n < c.next
  }

  /** Every stored AUTO_INCREMENT value is below the next one to be handed out. */
  predicate CounterAbove(t: TableData) {
    t.counter.Some? ==> forall i :: 0 <= i < |t.rows| ==> Below(t.rows[i], t.counter.value)
  }

  /** What the executor guarantees of stored rows: typed, and NULL only where allowed. */
  predicate RowTyped(columns: seq<ColumnSchema>, row: Row) {
    && |row| == |columns|
    && forall j :: 0 <= j < |row| ==>
         HasType(row[j], columns[j].columnType) && (row[j].Null? ==> columns[j].nullable)
  }

  predicate RowsTyped(columns: seq<ColumnSchema>, rows: seq<Row>) {
    forall i :: 0 <= i < |rows| ==> RowTyped(columns, rows[i])
  }

  predicate WellTyped(t: TableData) {
    RowsTyped(t.schema.columns, t.rows)
  }

  predicate DistinctAt(rows: seq<Row>, k: nat) {
    && (forall i :: 0 <= i < |rows| ==> k < |rows[i]|)
    && (forall i, j :: 0 <= i < j < |rows| ==> rows[i][k] != rows[j][k])
  }

  lemma NewTableInv(columns: seq<ColumnSchema>, pk: Option<Text>)
    requires pk.Some? ==> ColumnIndex(columns, pk.value).Some?
    ensures TableInv(NewTable(columns, pk)) && CounterAbove(NewTable(columns, pk))
  {}

  lemma PushKeepsInv(t: TableData, row: Row)
    requires TableInv(t) && HasWidth(t, row) && KeyFree(t, row)
    ensures TableInv(Push(t, row))
  {
    var r := Push(t, row);
    if t.keyIndex.Some? {
      var k := t.keyIndex.value;
      forall i | 0 <= i < |r.rows|
        ensures k < |r.rows[i]| && r.rows[i][k] in r.index && r.index[r.rows[i][k]] == i
      {
        assert i < |t.rows| ==> r.rows[i] == t.rows[i];
      }
    }
  }

  /** A row keeps the counter above everything stored, exactly unless it stores the
      largest `i64` in the AUTO_INCREMENT column. */
  lemma PushCounter(t: TableData, row: Row)
    requires CounterAbove(t)
    ensures CounterAbove(Push(t, row)) <==> !(t.counter.Some? && HoldsMax(row, t.counter.value.column))
  {
    if t.counter.Some? {
      var r := Push(t, row);
      assert r.rows[|t.rows|] == row;
      forall i | 0 <= i < |t.rows|
        ensures Below(r.rows[i], r.counter.value)
      {
        assert Below(t.rows[i], t.counter.value);
      }
    }
  }

  /** Handing out a value keeps the counter above everything stored, exactly unless it
      hands out the largest `i64` while an integer is stored. */
  lemma ReserveCounter(t: TableData)
    requires CounterAbove(t) && t.counter.Some?
    ensures CounterAbove(Reserve(t).value.1) <==>
      || t.counter.value.next < I64_MAX
      || forall i :: 0 <= i < |t.rows| ==> !HoldsInt(t.rows[i], t.counter.value.column)
  {
    var r, c := Reserve(t).value.1, t.counter.value;
    forall i | 0 <= i < |t.rows|
      ensures Below(r.rows[i], r.counter.value) <==> c.next < I64_MAX || !HoldsInt(t.rows[i], c.column)
    {
      assert Below(t.rows[i], c);
    }
  }

  // ---- tables built from scratch ----

  lemma {:induction false} BuildShape(schema: TableSchema, rows: seq<Row>)
    ensures Build(schema, rows).schema == schema && Build(schema, rows).rows == rows
    ensures Build(schema, rows).keyIndex == NewTable(schema.columns, schema.primaryKey).keyIndex
    ensures match AutoIndex(schema.columns)
      case None => Build(schema, rows).counter.None?
      case Some(i) => Build(schema, rows).counter.Some? && Build(schema, rows).counter.value.column == i
  {
    if rows != [] {
      BuildShape(schema, rows[..|rows| - 1]);
      assert rows[..|rows| - 1] + [rows[|rows| - 1]] == rows;
    }
  }

  lemma {:induction false} BuildInv(schema: TableSchema, rows: seq<Row>)
    requires schema.primaryKey.Some? ==> ColumnIndex(schema.columns, schema.primaryKey.value).Some?
    requires forall i :: 0 <= i < |rows| ==> |rows[i]| == |schema.columns|
    requires schema.primaryKey.Some? ==> DistinctAt(rows, ColumnIndex(schema.columns, schema.primaryKey.value).value)
    ensures TableInv(Build(schema, rows))
  {
    hide Push;
    if rows == [] {
      NewTableInv(schema.columns, schema.primaryKey);
    } else {
      var n := |rows| - 1;
      var t := Build(schema, rows[..n]);
      BuildInv(schema, rows[..n]);
      BuildShape(schema, rows[..n]);
      if t.keyIndex.Some? {
        var k := t.keyIndex.value;
        assert forall i :: 0 <= i < n ==> rows[..n][i] == rows[i] && rows[i][k] != rows[n][k];
      }
      PushKeepsInv(t, rows[n]);
    }
  }

  /** In a built table the counter is above everything stored, exactly if the largest
      `i64` is not stored. */
  lemma {:induction false} BuildCounter(schema: TableSchema, rows: seq<Row>)
    ensures CounterAbove(Build(schema, rows))
       <==> (AutoIndex(schema.columns).Some? ==>
               forall i :: 0 <= i < |rows| ==> !HoldsMax(rows[i], AutoIndex(schema.columns).value))
  {
    BuildShape(schema, rows);
    if rows != [] {
      var n := |rows| - 1;
      var t := Build(schema, rows[..n]);
      BuildShape(schema, rows[..n]);
      BuildCounter(schema, rows[..n]);
      if CounterAbove(t) {
        PushCounter(t, rows[n]);
      } else {
        BadCounterStays(t, rows[n]);
      }
      assert forall i :: 0 <= i < n ==> rows[..n][i] == rows[i];
    }
  }

  /** Once the largest value is stored, no later row repairs the counter. */
  lemma BadCounterStays(t: TableData, row: Row)
    requires t.counter.Some?
    requires exists i :: 0 <= i < |t.rows| && HoldsMax(t.rows[i], t.counter.value.column)
    ensures !CounterAbove(Push(t, row))
  {
    var i :| 0 <= i < |t.rows| && HoldsMax(t.rows[i], t.counter.value.column);
    assert Push(t, row).rows[i] == t.rows[i];
    assert !Below(t.rows[i], Push(t, row).counter.value);
  }
}
