/** JOIN: hash joins chained over a FROM clause, against the nested-loop definition, and
    the scope in which their columns are resolved. */
module Joins {
  import opened Basics
  import opened Values
  import opened Ast
  import opened Conversions
  import opened Ordering
  import opened Tables
  import opened Sorting

  // ---- nested loops ----

  /** Equality of hash keys, NULL excluded. */
  predicate HashEqual(a: Value, b: Value) {
    !a.Null? && a == b
  }

  /** The equality of WHERE. */
  predicate WhereEqual(a: Value, b: Value) {
    CompareValues(a, Eq, b)
  }

  predicate On(row: Row, li: nat, other: Row, ri: nat, equal: (Value, Value) -> bool) {
    li < |row| && ri < |other| && equal(row[li], other[ri])
  }

  function Combine(row: Row, others: seq<Row>): (r: seq<Row>)
    ensures |r| == |others| && forall i :: 0 <= i < |others| ==> r[i] == row + others[i]
  {
    seq(|others|, i requires 0 <= i < |others| => row + others[i])
  }

  function Nulls(width: nat): (r: Row)
    ensures |r| == width && forall i :: 0 <= i < width ==> r[i] == Null
  {
    seq(width, i => Null)
  }

  /** One accumulated row with every matching row of the new table, in its order; a LEFT
      join keeps a row without a match, padded with NULLs. */
  function JoinRow(row: Row, li: nat, right: seq<Row>, ri: nat, width: nat, kind: JoinType,
                   equal: (Value, Value) -> bool): seq<Row>
  {
    var matches := Filter(right, other => On(row, li, other, ri, equal));
    if matches != [] then Combine(row, matches)
    else if kind == Left then [row + Nulls(width)]
    else []
  }

  function NestedLoop(left: seq<Row>, li: nat, right: seq<Row>, ri: nat, width: nat, kind: JoinType,
                      equal: (Value, Value) -> bool): seq<Row>
  {
    if left == [] then []
    else
      var front := NestedLoop(left[..|left| - 1], li, right, ri, width, kind, equal);
      front + JoinRow(left[|left| - 1], li, right, ri, width, kind, equal)
  }

  // ---- the hash join ----

  /** The positions of the rows with this key, in order. */
  function Hits(right: seq<Row>, ri: nat, key: Value): (r: seq<nat>)
    ensures forall i :: 0 <= i < |r| ==> r[i] < |right|
  {
    if right == [] then []
    else
      var n := |right| - 1;
      Hits(right[..n], ri, key) + if ri < |right[n]| && right[n][ri] == key then [n] else []
  }

  function RowsAt(right: seq<Row>, at: seq<nat>): seq<Row>
    requires forall i :: 0 <= i < |at| ==> at[i] < |right|
  {
    seq(|at|, i requires 0 <= i < |at| => right[at[i]])
  }

  lemma {:induction false} HitsAreMatches(row: Row, li: nat, right: seq<Row>, ri: nat)
    requires li < |row| && !row[li].Null?
    ensures RowsAt(right, Hits(right, ri, row[li])) == Filter(right, other => On(row, li, other, ri, HashEqual))
    decreases |right|
  {
    if right != [] {
      var n := |right| - 1;
      var on := other => On(row, li, other, ri, HashEqual);
      HitsAreMatches(row, li, right[..n], ri);
      assert right == right[..n] + [right[n]];
      FilterAppend(right[..n], [right[n]], on);
      var at := Hits(right[..n], ri, row[li]);
      assert RowsAt(right, at) == RowsAt(right[..n], at);
    }
  }

  lemma {:induction false} NullMatchesNothing(row: Row, li: nat, right: seq<Row>, ri: nat)
    requires li < |row| && row[li].Null?
    ensures Filter(right, other => On(row, li, other, ri, HashEqual)) == []
    ensures Filter(right, other => On(row, li, other, ri, WhereEqual)) == []
    decreases |right|
  {
    if right != [] {
      NullMatchesNothing(row, li, right[1..], ri);
    }
  }

  ghost predicate Indexes(index: map<Value, seq<nat>>, right: seq<Row>, ri: nat) {
    forall key: Value :: !key.Null? ==>
      && (key in index <==> Hits(right, ri, key) != [])
      && (key in index ==> index[key] == Hits(right, ri, key))
  }

  method BuildIndex(right: seq<Row>, ri: nat) returns (index: map<Value, seq<nat>>)
    requires forall i :: 0 <= i < |right| ==> ri < |right[i]|
    ensures Indexes(index, right, ri)
  {
    index := map[];
    for i := 0 to |right|
      invariant Indexes(index, right[..i], ri)
    {
      assert right[..i + 1][..i] == right[..i];
      var key := right[i][ri];
      if key.Null? {
        continue;
      }
      index := index[key := (if key in index then index[key] else []) + [i]];
    }
    assert right[..|right|] == right;
  }

  /** The matches of one accumulated row, combined one after the other. */
  method Probe(row: Row, right: seq<Row>, at: seq<nat>) returns (combined: seq<Row>)
    requires forall i :: 0 <= i < |at| ==> at[i] < |right|
    ensures combined == Combine(row, RowsAt(right, at))
  {
    combined := [];
    for k := 0 to |at|
      invariant combined == Combine(row, RowsAt(right, at[..k]))
    {
      assert RowsAt(right, at[..k + 1]) == RowsAt(right, at[..k]) + [right[at[k]]];
      combined := combined + [row + right[at[k]]];
    }
    assert at[..|at|] == at;
  }

  /** `hash_join` is the nested loop, as an ordered sequence. */
  method HashJoin(left: seq<Row>, li: nat, right: seq<Row>, ri: nat, width: nat, kind: JoinType) returns (out: seq<Row>)
    requires forall i :: 0 <= i < |left| ==> li < |left[i]|
    requires forall i :: 0 <= i < |right| ==> ri < |right[i]|
    ensures out == NestedLoop(left, li, right, ri, width, kind, HashEqual)
  {
    hide Hits, Filter, On;
    var index := BuildIndex(right, ri);
    out := [];
    for i := 0 to |left|
      invariant out == NestedLoop(left[..i], li, right, ri, width, kind, HashEqual)
    {
      assert left[..i + 1][..i] == left[..i];
      var row := left[i];
      var key := row[li];
      if key.Null? {
        NullMatchesNothing(row, li, right, ri);
      } else {
        HitsAreMatches(row, li, right, ri);
      }
      if !key.Null? && key in index {
        var combined := Probe(row, right, index[key]);
        out := out + combined;
      } else if kind == Left {
        out := out + [row + Nulls(width)];
      }
    }
    assert left[..|left|] == left;
  }

  // ---- scopes ----

  /** The columns in scope, each with the qualifier it can be addressed by. */
  datatype Scope = Scope(qualifiers: seq<Text>, columns: seq<ColumnSchema>)

  function SingleScope(qualifier: Text, columns: seq<ColumnSchema>): Scope {
    Scope(seq(|columns|, i => qualifier), columns)
  }

  function PushTable(s: Scope, qualifier: Text, columns: seq<ColumnSchema>): Scope {
    Scope(s.qualifiers + seq(|columns|, i => qualifier), s.columns + columns)
  }

  predicate Answers(s: Scope, col: ColumnRef, i: nat) {
    && i < |s.columns| && s.columns[i].name == col.column
    && (col.table.Some? ==> i < |s.qualifiers| && s.qualifiers[i] == col.table.value)
  }

  /** The first column from `i` on that answers to the reference. */
  function FirstAnswer(s: Scope, col: ColumnRef, i: nat): (r: Option<nat>)
    ensures r.Some? ==>
      i <= r.value && Answers(s, col, r.value) && forall j :: i <= j < r.value ==> !Answers(s, col, j)
    ensures r.None? ==> forall j :: i <= j < |s.columns| ==> !Answers(s, col, j)
    decreases |s.columns| - i
  {
    if i >= |s.columns| then None
    else if Answers(s, col, i) then Some(i)
    else FirstAnswer(s, col, i + 1)
  }

  /** `try_resolve`: a qualified reference names the first column that answers to it, an
      unqualified one the only column that does. */
  function TryResolve(s: Scope, col: ColumnRef): (r: Option<nat>)
    ensures r.Some? ==> Answers(s, col, r.value)
    ensures col.table.None? ==>
      (r.Some? <==> (exists i :: Answers(s, col, i)) && forall i, j :: Answers(s, col, i) && Answers(s, col, j) ==> i == j)
  {
    match FirstAnswer(s, col, 0)
    case None => None
    case Some(i) =>
      if col.table.Some? then Some(i)
      else if FirstAnswer(s, col, i + 1).Some? then None
      else Some(i)
  }

  // ---- chains ----

  datatype Joined = Joined(scope: Scope, rows: seq<Row>)

  /** The two positions an ON clause compares, in whichever order it names them. */
  function OnColumns(scope: Scope, added: Scope, join: JoinClause): (on: Result<(nat, nat)>)
    ensures on.Err? ==> on.error == Execution
  {
    var l, r := TryResolve(scope, join.left), TryResolve(added, join.right);
    if l.Some? && r.Some? then Ok((l.value, r.value))
    else
      var l', r' := TryResolve(scope, join.right), TryResolve(added, join.left);
      if l'.Some? && r'.Some? then Ok((l'.value, r'.value)) else Err(Execution)
  }

  function JoinStep(tables: map<Text, TableData>, acc: Joined, join: JoinClause, equal: (Value, Value) -> bool): Result<Joined> {
    if join.table.name !in tables then Err(Execution)
    else
      var t, q := tables[join.table.name], join.table.Qualifier();
      var on :- OnColumns(acc.scope, SingleScope(q, t.schema.columns), join);
      Ok(Joined(PushTable(acc.scope, q, t.schema.columns),
                NestedLoop(acc.rows, on.0, t.rows, on.1, |t.schema.columns|, join.joinType, equal)))
  }

  /** The first `n` joins of a FROM clause, by nested loops. */
  function Chain(tables: map<Text, TableData>, from: FromClause, n: nat, equal: (Value, Value) -> bool): Result<Joined>
    requires n <= |from.joins|
  {
    if n == 0 then
      if from.table.name !in tables then Err(Execution)
      else
        var t := tables[from.table.name];
        Ok(Joined(SingleScope(from.table.Qualifier(), t.schema.columns), t.rows))
    else
      var acc :- Chain(tables, from, n - 1, equal);
      JoinStep(tables, acc, from.joins[n - 1], equal)
  }

  predicate Wide(rows: seq<Row>, w: nat) {
    forall i :: 0 <= i < |rows| ==> |rows[i]| == w
  }

  /** Every row is as wide as the scope that names its columns. */
  ghost predicate Fits(j: Joined) {
    |j.scope.qualifiers| == |j.scope.columns| && Wide(j.rows, |j.scope.columns|)
  }

  lemma JoinRowWidths(row: Row, li: nat, right: seq<Row>, ri: nat, width: nat, kind: JoinType,
                      equal: (Value, Value) -> bool)
    requires Wide(right, width)
    ensures Wide(JoinRow(row, li, right, ri, width, kind, equal), |row| + width)
  {
    hide Filter, On;
    var matches := Filter(right, other => On(row, li, other, ri, equal));
    FilterKeeps(right, other => On(row, li, other, ri, equal));
    forall i | 0 <= i < |matches|
      ensures |matches[i]| == width
    {
      assert matches[i] in right;
    }
  }

  lemma {:induction false} LoopWidths(left: seq<Row>, li: nat, right: seq<Row>, ri: nat, width: nat, kind: JoinType,
                                      equal: (Value, Value) -> bool, w: nat)
    requires Wide(left, w) && Wide(right, width)
    ensures Wide(NestedLoop(left, li, right, ri, width, kind, equal), w + width)
    decreases |left|
  {
    if left != [] {
      hide JoinRow;
      var n := |left| - 1;
      LoopWidths(left[..n], li, right, ri, width, kind, equal, w);
      JoinRowWidths(left[n], li, right, ri, width, kind, equal);
    }
  }

  /** A filter only returns rows it was given. */
  lemma {:induction false} FilterKeeps(rows: seq<Row>, p: Row -> bool)
    ensures forall i :: 0 <= i < |Filter(rows, p)| ==> Filter(rows, p)[i] in rows && p(Filter(rows, p)[i])
  {
    if rows != [] {
      FilterKeeps(rows[1..], p);
    }
  }

  lemma StepFits(tables: map<Text, TableData>, acc: Joined, join: JoinClause, equal: (Value, Value) -> bool)
    requires AllRectangular(tables) && Fits(acc) && JoinStep(tables, acc, join, equal).Ok?
    ensures Fits(JoinStep(tables, acc, join, equal).value)
  {
    hide NestedLoop, OnColumns, Rectangular;
    var t := tables[join.table.name];
    RowWidths(t);
    var on := OnColumns(acc.scope, SingleScope(join.table.Qualifier(), t.schema.columns), join).value;
    LoopWidths(acc.rows, on.0, t.rows, on.1, |t.schema.columns|, join.joinType, equal, |acc.scope.columns|);
    var made := JoinStep(tables, acc, join, equal).value;
    assert made.rows == NestedLoop(acc.rows, on.0, t.rows, on.1, |t.schema.columns|, join.joinType, equal);
    assert |made.scope.columns| == |acc.scope.columns| + |t.schema.columns|;
  }

  lemma RowWidths(t: TableData)
    requires Rectangular(t)
    ensures Wide(t.rows, |t.schema.columns|)
  {
    assert forall i :: 0 <= i < |t.rows| ==> HasWidth(t, t.rows[i]);
  }

  lemma {:induction false} ChainFits(tables: map<Text, TableData>, from: FromClause, n: nat, equal: (Value, Value) -> bool)
    requires n <= |from.joins| && AllRectangular(tables) && Chain(tables, from, n, equal).Ok?
    ensures Fits(Chain(tables, from, n, equal).value)
  {
    hide JoinStep, Rectangular;
    if n == 0 {
      RowWidths(tables[from.table.name]);
    } else {
      ChainFits(tables, from, n - 1, equal);
      StepFits(tables, Chain(tables, from, n - 1, equal).value, from.joins[n - 1], equal);
    }
  }

  /** `resolve_joins`: a chain of hash joins is the chain of nested loops. */
  method ResolveJoins(tables: map<Text, TableData>, from: FromClause) returns (r: Result<Joined>)
    requires AllRectangular(tables)
    ensures r == Chain(tables, from, |from.joins|, HashEqual)
    ensures r.Ok? ==> Fits(r.value)
  {
    hide NestedLoop, OnColumns, Fits, Rectangular;
    if from.table.name !in tables {
      ChainFails(tables, from, 0, |from.joins|);
      return Err(Execution);
    }
    var base := tables[from.table.name];
    var scope, rows := SingleScope(from.table.Qualifier(), base.schema.columns), base.rows;
    for n := 0 to |from.joins|
      invariant Chain(tables, from, n, HashEqual) == Ok(Joined(scope, rows))
    {
      var join := from.joins[n];
      ChainFits(tables, from, n, HashEqual);
      if join.table.name !in tables {
        ChainFails(tables, from, n + 1, |from.joins|);
        return Err(Execution);
      }
      var t, q := tables[join.table.name], join.table.Qualifier();
      var on := OnColumns(scope, SingleScope(q, t.schema.columns), join);
      if on.Err? {
        ChainFails(tables, from, n + 1, |from.joins|);
        return Err(Execution);
      }
      OnInRange(scope, SingleScope(q, t.schema.columns), join);
      FitWidths(Joined(scope, rows));
      RowWidths(t);
      rows := HashJoin(rows, on.value.0, t.rows, on.value.1, |t.schema.columns|, join.joinType);
      scope := PushTable(scope, q, t.schema.columns);
    }
    ChainFits(tables, from, |from.joins|, HashEqual);
    r := Ok(Joined(scope, rows));
  }

  lemma FitWidths(j: Joined)
    requires Fits(j)
    ensures Wide(j.rows, |j.scope.columns|)
  {}

  lemma OnInRange(scope: Scope, added: Scope, join: JoinClause)
    requires OnColumns(scope, added, join).Ok?
    ensures var on := OnColumns(scope, added, join).value; on.0 < |scope.columns| && on.1 < |added.columns|
  {}

  lemma {:induction false} ChainFails(tables: map<Text, TableData>, from: FromClause, m: nat, n: nat)
    requires m <= n <= |from.joins| && Chain(tables, from, m, HashEqual) == Err(Execution)
    ensures Chain(tables, from, n, HashEqual) == Err(Execution)
    decreases n
  {
    if m < n {
      ChainFails(tables, from, m, n - 1);
    }
  }

  // ---- what LEFT and INNER keep ----

  /** How many rows each accumulated row turns into: its matches, or one for a LEFT join
      without any. */
  lemma JoinRowKeeps(row: Row, li: nat, right: seq<Row>, ri: nat, width: nat, kind: JoinType,
                     equal: (Value, Value) -> bool)
    ensures var out := JoinRow(row, li, right, ri, width, kind, equal);
      var matches := Filter(right, other => On(row, li, other, ri, equal));
      && (kind == Left ==> |out| == Max(1, |matches|))
      && (kind == Inner ==> |out| == |matches|)
      && (forall i :: 0 <= i < |out| ==> row <= out[i])
  {}

  // ---- agreement with WHERE ----

  function TypesOf(columns: seq<ColumnSchema>): (r: seq<ColumnType>)
    ensures |r| == |columns| && forall i :: 0 <= i < |r| ==> r[i] == columns[i].columnType
  {
    seq(|columns|, i requires 0 <= i < |columns| => columns[i].columnType)
  }

  ghost predicate AllTypedTables(tables: map<Text, TableData>) {
    forall n :: n in tables ==> TypedRows(tables[n].rows, TypesOf(tables[n].schema.columns))
  }

  lemma TypedConcat(a: Row, b: Row, s: seq<ColumnType>, t: seq<ColumnType>)
    requires TypedRow(a, s) && TypedRow(b, t)
    ensures TypedRow(a + b, s + t)
  {
    hide HasType;
  }

  lemma NullsTyped(t: seq<ColumnType>)
    ensures TypedRow(Nulls(|t|), t)
  {}

  lemma {:induction false} LoopTyped(left: seq<Row>, li: nat, right: seq<Row>, ri: nat, kind: JoinType,
                                     equal: (Value, Value) -> bool, s: seq<ColumnType>, t: seq<ColumnType>)
    requires TypedRows(left, s) && TypedRows(right, t)
    ensures TypedRows(NestedLoop(left, li, right, ri, |t|, kind, equal), s + t)
    decreases |left|
  {
    if left != [] {
      hide TypedRow;
      var row := left[|left| - 1];
      LoopTyped(left[..|left| - 1], li, right, ri, kind, equal, s, t);
      var matches := Filter(right, other => On(row, li, other, ri, equal));
      FilterKeeps(right, other => On(row, li, other, ri, equal));
      forall i | 0 <= i < |matches|
        ensures TypedRow(row + matches[i], s + t)
      {
        assert TypedRow(row, s) && TypedRow(matches[i], t);
        TypedConcat(row, matches[i], s, t);
      }
      NullsTyped(t);
      TypedConcat(row, Nulls(|t|), s, t);
    }
  }

  ghost predicate TypedJoin(j: Joined) {
    TypedRows(j.rows, TypesOf(j.scope.columns))
  }

  lemma StepTyped(tables: map<Text, TableData>, acc: Joined, join: JoinClause, equal: (Value, Value) -> bool)
    requires AllTypedTables(tables) && TypedJoin(acc) && JoinStep(tables, acc, join, equal).Ok?
    ensures TypedJoin(JoinStep(tables, acc, join, equal).value)
  {
    hide NestedLoop, OnColumns, TypedRows;
    var t := tables[join.table.name];
    var on := OnColumns(acc.scope, SingleScope(join.table.Qualifier(), t.schema.columns), join).value;
    LoopTyped(acc.rows, on.0, t.rows, on.1, join.joinType, equal, TypesOf(acc.scope.columns), TypesOf(t.schema.columns));
    assert TypesOf(acc.scope.columns) + TypesOf(t.schema.columns) == TypesOf(acc.scope.columns + t.schema.columns);
  }

  lemma {:induction false} ChainTyped(tables: map<Text, TableData>, from: FromClause, n: nat, equal: (Value, Value) -> bool)
    requires n <= |from.joins| && AllTypedTables(tables) && Chain(tables, from, n, equal).Ok?
    ensures TypedJoin(Chain(tables, from, n, equal).value)
  {
    hide JoinStep, TypedRows;
    if n > 0 {
      ChainTyped(tables, from, n - 1, equal);
      StepTyped(tables, Chain(tables, from, n - 1, equal).value, from.joins[n - 1], equal);
    }
  }

  /** The ON columns of a join have types on which hash and WHERE equality agree. */
  ghost predicate OnTypesAgree(tables: map<Text, TableData>, scope: Scope, join: JoinClause) {
    join.table.name in tables ==>
      var columns := tables[join.table.name].schema.columns;
      var on := OnColumns(scope, SingleScope(join.table.Qualifier(), columns), join);
      on.Ok? ==>
        (OnInRange(scope, SingleScope(join.table.Qualifier(), columns), join);
         !TypesPart(scope.columns[on.value.0].columnType, columns[on.value.1].columnType))
  }

  lemma {:induction false} FilterSame(rows: seq<Row>, p: Row -> bool, q: Row -> bool)
    requires forall i :: 0 <= i < |rows| ==> p(rows[i]) == q(rows[i])
    ensures Filter(rows, p) == Filter(rows, q)
    decreases |rows|
  {
    if rows != [] {
      FilterSame(rows[1..], p, q);
    }
  }

  lemma EqualitiesMeet(a: Value, b: Value, s: ColumnType, t: ColumnType)
    requires HasType(a, s) && HasType(b, t) && !TypesPart(s, t)
    ensures HashEqual(a, b) <==> WhereEqual(a, b)
  {
    hide ValueOrdering, HasType;
    WhereAgreesWithHash(s, t);
  }

  lemma {:induction false} LoopsMeet(left: seq<Row>, li: nat, right: seq<Row>, ri: nat, width: nat, kind: JoinType,
                                     s: seq<ColumnType>, t: seq<ColumnType>)
    requires TypedRows(left, s) && TypedRows(right, t) && li < |s| && ri < |t| && !TypesPart(s[li], t[ri])
    ensures NestedLoop(left, li, right, ri, width, kind, HashEqual)
         == NestedLoop(left, li, right, ri, width, kind, WhereEqual)
    decreases |left|
  {
    if left != [] {
      hide HasType, HashEqual, WhereEqual, TypesPart;
      var row := left[|left| - 1];
      LoopsMeet(left[..|left| - 1], li, right, ri, width, kind, s, t);
      forall i | 0 <= i < |right|
        ensures On(row, li, right[i], ri, HashEqual) == On(row, li, right[i], ri, WhereEqual)
      {
        assert TypedRow(row, s) && TypedRow(right[i], t);
        EqualitiesMeet(row[li], right[i][ri], s[li], t[ri]);
      }
      FilterSame(right, (other => On(row, li, other, ri, HashEqual)), (other => On(row, li, other, ri, WhereEqual)));
    }
  }

  lemma StepMeets(tables: map<Text, TableData>, acc: Joined, join: JoinClause)
    requires AllTypedTables(tables) && TypedJoin(acc) && OnTypesAgree(tables, acc.scope, join)
    ensures JoinStep(tables, acc, join, HashEqual) == JoinStep(tables, acc, join, WhereEqual)
  {
    hide NestedLoop, OnColumns, TypedRows, HashEqual, WhereEqual, TypesPart;
    if join.table.name in tables {
      var t := tables[join.table.name];
      var added := SingleScope(join.table.Qualifier(), t.schema.columns);
      if OnColumns(acc.scope, added, join).Ok? {
        var on := OnColumns(acc.scope, added, join).value;
        OnInRange(acc.scope, added, join);
        LoopsMeet(acc.rows, on.0, t.rows, on.1, |t.schema.columns|, join.joinType,
                  TypesOf(acc.scope.columns), TypesOf(t.schema.columns));
      }
    }
  }

  /** On columns whose types agree, a chain of hash joins is the chain of nested loops with
      the equality WHERE uses. */
  lemma {:induction false} ChainIsWhere(tables: map<Text, TableData>, from: FromClause, n: nat)
    requires n <= |from.joins| && AllTypedTables(tables)
    requires forall m :: 0 <= m < n && Chain(tables, from, m, HashEqual).Ok? ==>
      OnTypesAgree(tables, Chain(tables, from, m, HashEqual).value.scope, from.joins[m])
    ensures Chain(tables, from, n, HashEqual) == Chain(tables, from, n, WhereEqual)
  {
    hide JoinStep, TypedJoin, AllTypedTables, OnTypesAgree, HashEqual, WhereEqual;
    if n > 0 {
      ChainIsWhere(tables, from, n - 1);
      var before := Chain(tables, from, n - 1, HashEqual);
      if before.Ok? {
        ChainTyped(tables, from, n - 1, HashEqual);
        StepMeets(tables, before.value, from.joins[n - 1]);
      }
    }
  }

  /** On any other pair of types some tables join differently. */
  lemma OtherTypesPart(s: ColumnType, t: ColumnType) returns (left: seq<Row>, right: seq<Row>)
    requires TypesPart(s, t)
    ensures TypedRows(left, [s]) && TypedRows(right, [t])
    ensures NestedLoop(left, 0, right, 0, 1, Inner, HashEqual) != NestedLoop(left, 0, right, 0, 1, Inner, WhereEqual)
  {
    hide ValueOrdering, HasType, TypesPart;
    var a, b := PartingValues(s, t);
    left, right := [[a]], [[b]];
    assert left[..0] == [] && right[1..] == [];
    var hash, where := (other => On([a], 0, other, 0, HashEqual)), (other => On([a], 0, other, 0, WhereEqual));
    assert !hash([b]) && where([b]) && Filter(right[1..], where) == [];
    assert Filter(right, where) == [[b]] + Filter(right[1..], where);
    assert Filter(right, hash) == [] && Filter(right, where) == [[b]];
    assert NestedLoop(left, 0, right, 0, 1, Inner, HashEqual) == [];
  }
}
