/** WHERE on one table: the primary-key shortcut of `scan_and_filter` against a filter over
    every row, on storage and inside a transaction. */
module Lookup {
  import opened Basics
  import opened Values
  import opened Ast
  import opened Conversions
  import opened Ordering
  import opened Tables
  import opened Engine
  import opened Soundness
  import opened Pending
  import opened Storage
  import opened Transactions

  /** `resolve_single_table_column`. */
  function ResolveColumn(columns: seq<ColumnSchema>, qualifier: Text, col: ColumnRef): Result<nat> {
    if col.table.Some? && col.table.value != qualifier then Err(Execution)
    else match ColumnIndex(columns, col.column)
      case Some(i) => Ok(i)
      case None => Err(Execution)
  }

  predicate Matches(row: Row, k: nat, op: CompareOp, expected: Value) {
    k < |row| && CompareValues(row[k], op, expected)
  }

  /** The definition: every row is looked at. */
  function FilterScan(schema: TableSchema, rows: seq<Row>, qualifier: Text, where: Option<Condition>): Result<seq<Row>> {
    if where.None? then Ok(rows)
    else
      var k :- ResolveColumn(schema.columns, qualifier, where.value.column);
      var expected :- Coerce(where.value.value, schema.columns[k].columnType);
      Ok(Filter(rows, row => Matches(row, k, where.value.op, expected)))
  }

  /** `scan_and_filter`, given the table's rows and its key lookup. */
  function ScanAndFilter(schema: TableSchema, rows: seq<Row>, lookup: Value -> Option<Row>, qualifier: Text,
                         where: Option<Condition>): Result<seq<Row>>
  {
    if where.None? then Ok(rows)
    else
      var k :- ResolveColumn(schema.columns, qualifier, where.value.column);
      var expected :- Coerce(where.value.value, schema.columns[k].columnType);
      if where.value.op == Eq && schema.primaryKey == Some(schema.columns[k].name) then
        Ok(match lookup(expected) case Some(row) => [row] case None => [])
      else Ok(Filter(rows, row => Matches(row, k, where.value.op, expected)))
  }

  function OnStorage(t: TableData, qualifier: Text, where: Option<Condition>): Result<seq<Row>> {
    ScanAndFilter(t.schema, t.rows, key => LookupKey(t, key), qualifier, where)
  }

  /** Inside a transaction: rows and lookup of the overlay. */
  function InTransaction(t: TableData, pending: seq<Row>, qualifier: Text, where: Option<Condition>): Result<seq<Row>> {
    ScanAndFilter(t.schema, t.rows + pending, key => OverlayLookup(t, pending, key), qualifier, where)
  }

  function OverlayLookup(t: TableData, pending: seq<Row>, key: Value): Option<Row> {
    if LookupKey(t, key).Some? then LookupKey(t, key)
    else if t.keyIndex.Some? then FindKey(pending, t.keyIndex.value, key)
    else None
  }

  /** The one question on which the two differ: asking for a NULL key that is stored. */
  predicate AsksForNullKey(schema: TableSchema, rows: seq<Row>, qualifier: Text, where: Option<Condition>) {
    && where.Some? && where.value.op == Eq && where.value.value == NullLiteral
    && var k := ResolveColumn(schema.columns, qualifier, where.value.column);
       k.Ok? && schema.primaryKey == Some(schema.columns[k.value].name) && HoldsNull(rows, k.value)
  }

  predicate HoldsNull(rows: seq<Row>, k: nat) {
    exists i :: 0 <= i < |rows| && k < |rows[i]| && rows[i][k].Null?
  }

  // ---- one row or none ----

  function AsList(row: Option<Row>): seq<Row> {
    match row case Some(r) => [r] case None => []
  }

  predicate ColumnTyped(rows: seq<Row>, k: nat, t: ColumnType) {
    forall i :: 0 <= i < |rows| ==> k < |rows[i]| && HasType(rows[i][k], t)
  }

  /** Among rows with distinct keys, searching for a non-NULL key is filtering by it. */
  lemma {:induction false} SearchIsFilter(rows: seq<Row>, k: nat, key: Value, t: ColumnType)
    requires DistinctAt(rows, k) && ColumnTyped(rows, k, t) && HasType(key, t) && !key.Null?
    ensures AsList(FindKey(rows, k, key)) == Filter(rows, row => Matches(row, k, Eq, key))
    decreases |rows|
  {
    hide HasType, ValueOrdering;
    if rows != [] {
      var row := rows[0];
      OrderEqual(row[k], key, t);
      if row[k] == key {
        NoneMatch(rows[1..], k, key, t);
      } else {
        SearchIsFilter(rows[1..], k, key, t);
      }
    }
  }

  lemma {:induction false} NoneMatch(rows: seq<Row>, k: nat, key: Value, t: ColumnType)
    requires ColumnTyped(rows, k, t) && HasType(key, t)
    requires forall i :: 0 <= i < |rows| ==> rows[i][k] != key
    ensures Filter(rows, row => Matches(row, k, Eq, key)) == []
    decreases |rows|
  {
    hide HasType, ValueOrdering;
    if rows != [] {
      OrderEqual(rows[0][k], key, t);
      NoneMatch(rows[1..], k, key, t);
    }
  }

  /** NULL matches no row, but is found if it is stored. */
  lemma {:induction false} NullIsDifferent(rows: seq<Row>, k: nat)
    ensures Filter(rows, row => Matches(row, k, Eq, Null)) == []
    ensures FindKey(rows, k, Null).Some? <==> HoldsNull(rows, k)
    decreases |rows|
  {
    hide ValueOrdering;
    if rows != [] {
      NullIsDifferent(rows[1..], k);
      if HoldsNull(rows, k) && !(k < |rows[0]| && rows[0][k].Null?) {
        var i :| 0 <= i < |rows| && k < |rows[i]| && rows[i][k].Null?;
        assert rows[1..][i - 1] == rows[i];
      }
      if HoldsNull(rows[1..], k) {
        var i :| 0 <= i < |rows[1..]| && k < |rows[1..][i]| && rows[1..][i][k].Null?;
        assert rows[i + 1] == rows[1..][i];
      }
    }
  }

  // ---- what WHERE says about the rows ----

  /** Neither is NULL, and they compare as the operator says in the column's order. */
  ghost predicate Satisfies(a: Value, op: CompareOp, b: Value) {
    && !a.Null? && !b.Null?
    && match op
       case Eq => a == b
       case NotEq => a != b
       case Lt => ComesBefore(a, b)
       case Gt => ComesBefore(b, a)
       case Le => ComesBefore(a, b) || a == b
       case Ge => ComesBefore(b, a) || a == b
  }

  /** The reference has no qualifier or this one, and `k` is the first column of its name. */
  predicate NamesOwn(columns: seq<ColumnSchema>, qualifier: Text, col: ColumnRef, k: nat) {
    && (col.table.Some? ==> col.table.value == qualifier)
    && k < |columns| && columns[k].name == col.column
    && forall j :: 0 <= j < k ==> columns[j].name != col.column
  }

  lemma ResolveOwn(columns: seq<ColumnSchema>, qualifier: Text, col: ColumnRef, k: nat)
    ensures ResolveColumn(columns, qualifier, col) == Ok(k) <==> NamesOwn(columns, qualifier, col, k)
  {}

  ghost function RowSatisfies(k: nat, op: CompareOp, v: Value): Row -> bool {
    (row: Row) => k < |row| && Satisfies(row[k], op, v)
  }

  /** WHERE keeps, in order, exactly the rows whose named column compares with the literal
      as the operator says; it is refused exactly if the name or the literal does not fit. */
  lemma WhereMeans(schema: TableSchema, rows: seq<Row>, qualifier: Text, where: Condition, k: nat) returns (at: seq<nat>)
    requires RowsTyped(schema.columns, rows) && NamesOwn(schema.columns, qualifier, where.column, k)
    ensures var v, out := Coerce(where.value, schema.columns[k].columnType), FilterScan(schema, rows, qualifier, Some(where));
      && (out.Ok? <==> v.Ok?)
      && (out.Ok? ==> KeptAt(rows, RowSatisfies(k, where.op, v.value), at, out.value))
  {
    hide Coerce, HasType, CompareValues, Satisfies, Filter;
    ResolveOwn(schema.columns, qualifier, where.column, k);
    var t := schema.columns[k].columnType;
    at := [];
    if Coerce(where.value, t).Ok? {
      var v := Coerce(where.value, t).value;
      CoerceTyped(where.value, t);
      at := FilterAt(rows, (row: Row) => Matches(row, k, where.op, v));
      forall b | 0 <= b < |rows|
        ensures Matches(rows[b], k, where.op, v) <==> RowSatisfies(k, where.op, v)(rows[b])
      {
        assert RowTyped(schema.columns, rows[b]);
        SatisfiesMeans(rows[b][k], where.op, v, t);
      }
    }
  }

  lemma SatisfiesMeans(a: Value, op: CompareOp, b: Value, t: ColumnType)
    requires HasType(a, t) && HasType(b, t)
    ensures CompareValues(a, op, b) <==> Satisfies(a, op, b)
  {
    hide HasType, CompareValues, ComesBefore;
    CompareMeans(a, op, b, t);
  }

  /** Without such a column the condition is refused. */
  lemma WhereUnknown(schema: TableSchema, rows: seq<Row>, qualifier: Text, where: Condition)
    requires forall k: nat :: !NamesOwn(schema.columns, qualifier, where.column, k)
    ensures FilterScan(schema, rows, qualifier, Some(where)).Err?
  {
    hide Coerce, Filter, Matches;
    var r := ResolveColumn(schema.columns, qualifier, where.column);
    if r.Ok? {
      ResolveOwn(schema.columns, qualifier, where.column, r.value);
    }
  }

  // ---- the two agree ----

  /** A lookup that finds what a search of the rows would. */
  ghost predicate Searches(lookup: Value -> Option<Row>, rows: seq<Row>, k: nat) {
    forall key :: lookup(key) == FindKey(rows, k, key)
  }

  /** For every condition, shortcut included, the result is the filtered scan, exactly
      unless a stored NULL key is asked for. */
  lemma ShortcutIsFilter(schema: TableSchema, rows: seq<Row>, lookup: Value -> Option<Row>, qualifier: Text,
                         where: Option<Condition>)
    requires schema.primaryKey.Some? ==>
      var k := ColumnIndex(schema.columns, schema.primaryKey.value);
      && k.Some? && DistinctAt(rows, k.value) && Searches(lookup, rows, k.value)
      && ColumnTyped(rows, k.value, schema.columns[k.value].columnType)
    ensures ScanAndFilter(schema, rows, lookup, qualifier, where) == FilterScan(schema, rows, qualifier, where)
       <==> !AsksForNullKey(schema, rows, qualifier, where)
  {
    hide HasType, Coerce, DistinctAt, ColumnTyped, FindKey, Filter, Matches, HoldsNull;
    if where.Some? && where.value.op == Eq && ResolveColumn(schema.columns, qualifier, where.value.column).Ok? {
      var k := ResolveColumn(schema.columns, qualifier, where.value.column).value;
      var coerced := Coerce(where.value.value, schema.columns[k].columnType);
      if schema.primaryKey == Some(schema.columns[k].name) {
        assert coerced.Ok? || !AsksForNullKey(schema, rows, qualifier, where) by {
          NullCoerces(where.value.value, schema.columns[k].columnType);
        }
        if coerced.Ok? {
          var key := coerced.value;
          CoerceTyped(where.value.value, schema.columns[k].columnType);
          assert lookup(key) == FindKey(rows, k, key);
          if key.Null? {
            NullIsDifferent(rows, k);
          } else {
            SearchIsFilter(rows, k, key, schema.columns[k].columnType);
          }
        }
      }
    }
  }

  lemma NullCoerces(e: Expr, t: ColumnType)
    ensures e == NullLiteral ==> Coerce(e, t) == Ok(Null)
  {}

  lemma KeyColumn(t: TableData)
    requires Sound(t) && t.keyIndex.Some?
    ensures t.schema.primaryKey.Some? && ColumnIndex(t.schema.columns, t.schema.primaryKey.value) == t.keyIndex
    ensures DistinctAt(t.rows, t.keyIndex.value)
    ensures ColumnTyped(t.rows, t.keyIndex.value, t.schema.columns[t.keyIndex.value].columnType)
  {
    hide HasType;
    var k := t.keyIndex.value;
    assert forall i :: 0 <= i < |t.rows| ==> t.index[t.rows[i][k]] == i;
    assert forall i :: 0 <= i < |t.rows| ==> RowTyped(t.schema.columns, t.rows[i]);
  }

  /** On storage: any sound table, any condition. */
  lemma StorageLookupIsFilter(t: TableData, qualifier: Text, where: Option<Condition>)
    requires Sound(t)
    ensures OnStorage(t, qualifier, where) == FilterScan(t.schema, t.rows, qualifier, where)
       <==> !AsksForNullKey(t.schema, t.rows, qualifier, where)
  {
    hide ScanAndFilter, FilterScan, DistinctAt, ColumnTyped, LookupKey, FindKey, AsksForNullKey, Sound, TableInv;
    assert TableInv(t) && (t.schema.primaryKey.Some? <==> t.keyIndex.Some?) by { KeyAgrees(t); }
    var lookup := key => LookupKey(t, key);
    if t.keyIndex.Some? {
      KeyColumn(t);
      forall key
        ensures lookup(key) == FindKey(t.rows, t.keyIndex.value, key)
      {
        IndexFinds(t, key);
      }
    }
    ShortcutIsFilter(t.schema, t.rows, lookup, qualifier, where);
  }

  lemma KeyAgrees(t: TableData)
    requires Sound(t)
    ensures TableInv(t) && (t.schema.primaryKey.Some? <==> t.keyIndex.Some?)
  {}

  // ---- a stored NULL key ----

  lemma RunOneMore(live: Live, actions: seq<Action>, a: Action)
    ensures RunOps(live, actions + [a]) == Perform(RunOps(live, actions), a.op, a.logWrites)
  {
    hide Perform;
    assert (actions + [a])[..|actions|] == actions;
  }

  /** A key column made nullable by MODIFY, with one NULL row in its table. */
  function NullKeyed(id: Text): TableData {
    Push(NewTable([ColumnSchema(id, TInt, true, false)], Some(id)), [Null])
  }

  function NullKeyActions(name: Text, id: Text): seq<Action> {
    [Action(OpCreateTable(name, [ColumnSchema(id, TInt, false, false)], Some(id)), true)]
    + [Action(OpAlterTable(name, ModifyColumn(ColumnSchema(id, TInt, true, false))), true)]
    + [Action(OpInsertRow(name, [Null]), true)]
  }

  lemma NullKeyReached(name: Text, id: Text)
    ensures RunOps(Live(EMPTY, []), NullKeyActions(name, id)).data.tables == map[name := NullKeyed(id)]
  {
    hide RunOps;
    var strict, loose := ColumnSchema(id, TInt, false, false), ColumnSchema(id, TInt, true, false);
    var create := Action(OpCreateTable(name, [strict], Some(id)), true);
    var change := Action(OpAlterTable(name, ModifyColumn(loose)), true);
    var insert := Action(OpInsertRow(name, [Null]), true);
    var start := Live(EMPTY, []);
    assert RunOps(start, []) == start by { NoActions(start); }
    assert [] + [create] == [create];
    RunOneMore(start, [], create);
    var one := RunOps(start, [create]);
    assert one.data.tables == map[name := NewTable([strict], Some(id))];
    RunOneMore(start, [create], change);
    LoosenKey(one.data.tables[name], loose);
    var two := RunOps(start, [create] + [change]);
    assert two.data.tables == map[name := NewTable([loose], Some(id))];
    RunOneMore(start, [create] + [change], insert);
    ApplyOne(two.data.tables, (name, [Null]));
  }

  lemma NoActions(live: Live)
    ensures RunOps(live, []) == live
  {}

  lemma LoosenKey(t: TableData, col: ColumnSchema)
    requires t.schema == TableSchema([col.(nullable := false)], Some(col.name)) && t.rows == [] && !col.autoIncrement
    ensures Alter(t, ModifyColumn(col)) == Ok(NewTable([col], Some(col.name)))
  {
    assert t.schema.columns[0 := col] == [col];
  }

  /** CREATE, MODIFY the key to be nullable, INSERT a NULL: the table is sound, and WHERE
      key = NULL finds a row through the shortcut that no scan would. */
  lemma NullKeyShortcut(name: Text, id: Text)
    ensures var tables := RunOps(Live(EMPTY, []), NullKeyActions(name, id)).data.tables;
      var where := Some(Condition(ColumnRef(None, id), Eq, NullLiteral));
      && name in tables && Sound(tables[name])
      && OnStorage(tables[name], name, where) == Ok([[Null]])
      && FilterScan(tables[name].schema, tables[name].rows, name, where) == Ok([])
  {
    hide RunOps, NullKeyActions;
    NullKeyReached(name, id);
    var t := NullKeyed(id);
    assert t.rows == [[Null]] && t.keyIndex == Some(0) && t.index == map[Null := 0];
    assert Sound(t);
    NullIsDifferent(t.rows, 0);
  }

  /** Inside a transaction: any pending rows that its own checks let through. */
  lemma TransactionLookupIsFilter(t: TableData, pending: seq<Row>, qualifier: Text, where: Option<Condition>)
    requires Sound(t) && PendingFits(t, pending) && RowsTyped(t.schema.columns, pending)
    ensures InTransaction(t, pending, qualifier, where) == FilterScan(t.schema, t.rows + pending, qualifier, where)
       <==> !AsksForNullKey(t.schema, t.rows + pending, qualifier, where)
  {
    hide ScanAndFilter, FilterScan, DistinctAt, ColumnTyped, LookupKey, FindKey, AsksForNullKey, Sound, TableInv,
         PendingFits, RowsTyped;
    assert TableInv(t) && (t.schema.primaryKey.Some? <==> t.keyIndex.Some?) by { KeyAgrees(t); }
    var rows, lookup := t.rows + pending, key => OverlayLookup(t, pending, key);
    if t.keyIndex.Some? {
      var k := t.keyIndex.value;
      KeyColumn(t);
      OverlayKeys(t, pending);
      forall key
        ensures lookup(key) == FindKey(rows, k, key)
      {
        IndexFinds(t, key);
        FindKeyAppend(t.rows, pending, k, key);
      }
    }
    ShortcutIsFilter(t.schema, rows, lookup, qualifier, where);
  }

  lemma OverlayKeys(t: TableData, pending: seq<Row>)
    requires Sound(t) && t.keyIndex.Some? && PendingFits(t, pending) && RowsTyped(t.schema.columns, pending)
    ensures t.keyIndex.value < |t.schema.columns| && DistinctAt(t.rows + pending, t.keyIndex.value)
    ensures ColumnTyped(t.rows + pending, t.keyIndex.value, t.schema.columns[t.keyIndex.value].columnType)
  {
    hide HasType;
    var k := t.keyIndex.value;
    KeyColumn(t);
    var rows := t.rows + pending;
    forall j | 0 <= j < |pending|
      ensures k < |pending[j]| && HasType(pending[j][k], t.schema.columns[k].columnType)
      ensures pending[j][k] !in t.index && KeyOf(t, pending[j]) == Some(pending[j][k])
    {
      assert HasWidth(t, pending[j]) && KeyFree(t, pending[j]) && RowTyped(t.schema.columns, pending[j]);
    }
    forall i, j | 0 <= i < j < |rows|
      ensures rows[i][k] != rows[j][k]
    {
      if i >= |t.rows| {
        assert KeyOf(t, pending[i - |t.rows|]) != KeyOf(t, pending[j - |t.rows|]);
      } else if j < |t.rows| {
      } else {
        assert t.rows[i][k] in t.index;
      }
    }
  }
}
