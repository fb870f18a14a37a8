/** What a FROM clause with joins means: one row number per table, chosen so that every ON
    clause holds between the columns it names, and the rows so chosen side by side. */
module JoinedRows {
  import opened Basics
  import opened Values
  import opened Ast
  import opened Tables
  import opened Joins

  // ---- names ----

  /** Column `i` has the reference's name, and its qualifier if it gives one. */
  predicate Called(s: Scope, col: ColumnRef, i: nat) {
    && i < |s.columns| && s.columns[i].name == col.column
    && (col.table.Some? ==> i < |s.qualifiers| && s.qualifiers[i] == col.table.value)
  }

  /** The reference names column `i` of the scope: it is so called, and it is the first to
      be, if the reference is qualified, or the only one, if it is not. */
  ghost predicate NamesColumn(s: Scope, col: ColumnRef, i: nat) {
    && Called(s, col, i)
    && forall j: nat :: Called(s, col, j) ==> if col.table.Some? then i <= j else i == j
  }

  lemma ResolveMeans(s: Scope, col: ColumnRef, i: nat)
    ensures TryResolve(s, col) == Some(i) <==> NamesColumn(s, col, i)
  {
    hide FirstAnswer;
    assert forall j: nat :: Called(s, col, j) <==> Answers(s, col, j);
    if NamesColumn(s, col, i) {
      assert Answers(s, col, i);
      assert TryResolve(s, col).Some?;
      assert Answers(s, col, TryResolve(s, col).value);
    }
    if TryResolve(s, col) == Some(i) {
      forall j: nat | Answers(s, col, j)
        ensures if col.table.Some? then i <= j else i == j
      {}
    }
  }

  /** The two columns an ON clause compares: its left side in the scope so far and its
      right side in the new table, or else the other way round. */
  ghost predicate OnNames(scope: Scope, added: Scope, join: JoinClause, i: nat, j: nat) {
    || (NamesColumn(scope, join.left, i) && NamesColumn(added, join.right, j))
    || (&& !(exists a: nat, b: nat :: NamesColumn(scope, join.left, a) && NamesColumn(added, join.right, b))
        && NamesColumn(scope, join.right, i) && NamesColumn(added, join.left, j))
  }

  lemma OnColumnsMeans(scope: Scope, added: Scope, join: JoinClause, i: nat, j: nat)
    ensures OnColumns(scope, added, join) == Ok((i, j)) <==> OnNames(scope, added, join, i, j)
  {
    hide TryResolve, NamesColumn;
    forall s: Scope, col: ColumnRef, k: nat
      ensures TryResolve(s, col) == Some(k) <==> NamesColumn(s, col, k)
    {
      ResolveMeans(s, col, k);
    }
    var l, r := TryResolve(scope, join.left), TryResolve(added, join.right);
    if l.Some? && r.Some? {
      assert NamesColumn(scope, join.left, l.value) && NamesColumn(added, join.right, r.value);
    }
  }

  // ---- one join ----

  /** A row of the accumulated result, and a row of the new table or none. */
  datatype Pair = Pair(l: nat, r: Option<nat>)

  /** The two cells are the same, and not NULL. */
  predicate Meets(a: Row, i: nat, b: Row, j: nat) {
    i < |a| && j < |b| && !a[i].Null? && a[i] == b[j]
  }

  /** The pairs a join is made of. */
  predicate Wanted(left: seq<Row>, i: nat, right: seq<Row>, j: nat, kind: JoinType, p: Pair) {
    && p.l < |left|
    && match p.r
       case Some(b) => b < |right| && Meets(left[p.l], i, right[b], j)
       case None => kind == Left && forall b :: 0 <= b < |right| ==> !Meets(left[p.l], i, right[b], j)
  }

  function Side(left: seq<Row>, right: seq<Row>, width: nat, p: Pair): Row
    requires p.l < |left| && (p.r.Some? ==> p.r.value < |right|)
  {
    left[p.l] + match p.r case Some(b) => right[b] case None => Nulls(width)
  }

  predicate Earlier(p: Pair, q: Pair) {
    p.l < q.l || (p.l == q.l && p.r.Some? && q.r.Some? && p.r.value < q.r.value)
  }

  /** `pairs` lists exactly the wanted pairs, once each, the accumulated rows in their order
      and for each of them the new table's rows in theirs; `out` has them side by side. */
  ghost predicate Lists(pairs: seq<Pair>, out: seq<Row>, left: seq<Row>, i: nat, right: seq<Row>, j: nat, width: nat,
                        kind: JoinType)
  {
    && |pairs| == |out|
    && (forall k :: 0 <= k < |out| ==>
          Wanted(left, i, right, j, kind, pairs[k]) && out[k] == Side(left, right, width, pairs[k]))
    && (forall k, m :: 0 <= k < m < |pairs| ==> Earlier(pairs[k], pairs[m]))
    && (forall p :: Wanted(left, i, right, j, kind, p) ==> p in pairs)
  }

  /** The pairs of one accumulated row. */
  lemma RowPairs(left: seq<Row>, l: nat, i: nat, right: seq<Row>, j: nat, width: nat, kind: JoinType)
    returns (pairs: seq<Pair>)
    requires l < |left|
    ensures var out := JoinRow(left[l], i, right, j, width, kind, HashEqual);
      && |pairs| == |out|
      && (forall k :: 0 <= k < |out| ==>
            pairs[k].l == l && Wanted(left, i, right, j, kind, pairs[k]) && out[k] == Side(left, right, width, pairs[k]))
      && (forall k, m :: 0 <= k < m < |pairs| ==> Earlier(pairs[k], pairs[m]))
      && (forall p :: Wanted(left, i, right, j, kind, p) && p.l == l ==> p in pairs)
  {
    hide Filter, Wanted, Meets;
    var at := MatchesAt(left[l], i, right, j);
    var matches := Filter(right, other => On(left[l], i, other, j, HashEqual));
    if at != [] {
      pairs := MatchedPairs(left, l, i, right, j, kind, at);
      assert JoinRow(left[l], i, right, j, width, kind, HashEqual) == Combine(left[l], matches);
    } else {
      pairs := UnmatchedPairs(left, l, i, right, j, kind);
    }
  }

  /** Where the rows are that meet `row`. */
  lemma MatchesAt(row: Row, i: nat, right: seq<Row>, j: nat) returns (at: seq<nat>)
    ensures var matches := Filter(right, other => On(row, i, other, j, HashEqual));
      && |at| == |matches|
      && (forall k :: 0 <= k < |at| ==> at[k] < |right| && matches[k] == right[at[k]] && Meets(row, i, right[at[k]], j))
    ensures forall k, m :: 0 <= k < m < |at| ==> at[k] < at[m]
    ensures forall b: nat :: b < |right| && Meets(row, i, right[b], j) ==> b in at
  {
    hide Filter;
    var on := (other: Row) => On(row, i, other, j, HashEqual);
    assert forall b :: 0 <= b < |right| ==> (on(right[b]) <==> Meets(row, i, right[b], j));
    at := FilterAt(right, on);
  }

  lemma MatchedPairs(left: seq<Row>, l: nat, i: nat, right: seq<Row>, j: nat, kind: JoinType, at: seq<nat>)
    returns (pairs: seq<Pair>)
    requires l < |left| && at != []
    requires forall k :: 0 <= k < |at| ==> at[k] < |right| && Meets(left[l], i, right[at[k]], j)
    requires forall k, m :: 0 <= k < m < |at| ==> at[k] < at[m]
    requires forall b: nat :: b < |right| && Meets(left[l], i, right[b], j) ==> b in at
    ensures |pairs| == |at|
    ensures forall k :: 0 <= k < |at| ==> pairs[k] == Pair(l, Some(at[k])) && Wanted(left, i, right, j, kind, pairs[k])
    ensures forall k, m :: 0 <= k < m < |pairs| ==> Earlier(pairs[k], pairs[m])
    ensures forall p :: Wanted(left, i, right, j, kind, p) && p.l == l ==> p in pairs
  {
    hide Meets;
    pairs := seq(|at|, k requires 0 <= k < |at| => Pair(l, Some(at[k])));
    assert Meets(left[l], i, right[at[0]], j);
    forall p | Wanted(left, i, right, j, kind, p) && p.l == l
      ensures p in pairs
    {
      assert p.r.Some? && p.r.value in at;
      var k :| 0 <= k < |at| && at[k] == p.r.value;
      assert pairs[k] == p;
    }
  }

  lemma UnmatchedPairs(left: seq<Row>, l: nat, i: nat, right: seq<Row>, j: nat, kind: JoinType) returns (pairs: seq<Pair>)
    requires l < |left| && forall b: nat :: b < |right| ==> !Meets(left[l], i, right[b], j)
    ensures pairs == if kind == Left then [Pair(l, None)] else []
    ensures forall k :: 0 <= k < |pairs| ==> Wanted(left, i, right, j, kind, pairs[k])
    ensures forall p :: Wanted(left, i, right, j, kind, p) && p.l == l ==> p in pairs
  {
    hide Meets;
    pairs := if kind == Left then [Pair(l, None)] else [];
  }

  lemma {:induction false} LoopPairs(left: seq<Row>, n: nat, i: nat, right: seq<Row>, j: nat, width: nat, kind: JoinType)
    returns (pairs: seq<Pair>)
    requires n <= |left|
    ensures var out := NestedLoop(left[..n], i, right, j, width, kind, HashEqual);
      && |pairs| == |out|
      && (forall k :: 0 <= k < |out| ==>
            pairs[k].l < n && Wanted(left, i, right, j, kind, pairs[k]) && out[k] == Side(left, right, width, pairs[k]))
      && (forall k, m :: 0 <= k < m < |pairs| ==> Earlier(pairs[k], pairs[m]))
      && (forall p :: Wanted(left, i, right, j, kind, p) && p.l < n ==> p in pairs)
    decreases n
  {
    hide JoinRow, Wanted;
    if n == 0 {
      pairs := [];
    } else {
      var front := LoopPairs(left, n - 1, i, right, j, width, kind);
      var last := RowPairs(left, n - 1, i, right, j, width, kind);
      assert left[..n][..n - 1] == left[..n - 1] && left[..n][n - 1] == left[n - 1];
      pairs := front + last;
    }
  }

  /** A nested loop is the wanted pairs, side by side, in order. */
  lemma LoopMeans(left: seq<Row>, i: nat, right: seq<Row>, j: nat, width: nat, kind: JoinType) returns (pairs: seq<Pair>)
    ensures Lists(pairs, NestedLoop(left, i, right, j, width, kind, HashEqual), left, i, right, j, width, kind)
  {
    hide NestedLoop;
    pairs := LoopPairs(left, |left|, i, right, j, width, kind);
    assert left[..|left|] == left;
    assert forall p :: Wanted(left, i, right, j, kind, p) ==> p.l < |left|;
  }

  // ---- the whole clause ----

  /** Table number `m` of the clause. */
  function TableAt(from: FromClause, m: nat): TableRef
    requires m <= |from.joins|
  {
    if m == 0 then from.table else from.joins[m - 1].table
  }

  /** All tables up to number `n` exist. */
  predicate TablesExist(tables: map<Text, TableData>, from: FromClause, n: nat) {
    n <= |from.joins| && forall m :: 0 <= m <= n ==> TableAt(from, m).name in tables
  }

  function TableOf(tables: map<Text, TableData>, from: FromClause, m: nat): TableData
    requires m <= |from.joins| && TableAt(from, m).name in tables
  {
    tables[TableAt(from, m).name]
  }

  function ScopeAt(tables: map<Text, TableData>, from: FromClause, m: nat): Scope
    requires m <= |from.joins| && TableAt(from, m).name in tables
  {
    var columns := TableOf(tables, from, m).schema.columns;
    Scope(seq(|columns|, i => TableAt(from, m).Qualifier()), columns)
  }

  /** The columns of the tables up to number `n`, side by side. */
  function ScopeUpTo(tables: map<Text, TableData>, from: FromClause, n: nat): Scope
    requires TablesExist(tables, from, n)
  {
    if n == 0 then ScopeAt(tables, from, 0)
    else
      var before, last := ScopeUpTo(tables, from, n - 1), ScopeAt(tables, from, n);
      Scope(before.qualifiers + last.qualifiers, before.columns + last.columns)
  }

  /** A choice of rows: for each table a row number, or none. */
  type Pick = seq<Option<nat>>

  predicate InTables(tables: map<Text, TableData>, from: FromClause, pick: Pick) {
    && 0 < |pick| && TablesExist(tables, from, |pick| - 1)
    && forall m :: 0 <= m < |pick| && pick[m].Some? ==> pick[m].value < |TableOf(tables, from, m).rows|
  }

  /** The chosen rows side by side, with NULLs for a table without one. */
  function RowOf(tables: map<Text, TableData>, from: FromClause, pick: Pick): Row
    requires InTables(tables, from, pick)
  {
    var m := |pick| - 1;
    var t := TableOf(tables, from, m);
    var piece := match pick[m] case Some(b) => t.rows[b] case None => Nulls(|t.schema.columns|);
    if m == 0 then piece else RowOf(tables, from, pick[..m]) + piece
  }

  /** The columns that the ON clause of table `m` names. */
  ghost predicate OnAt(tables: map<Text, TableData>, from: FromClause, m: nat, i: nat, j: nat)
    requires 0 < m && TablesExist(tables, from, m)
  {
    OnNames(ScopeUpTo(tables, from, m - 1), ScopeAt(tables, from, m), from.joins[m - 1], i, j)
  }

  /** The row of table `m` goes with the rows chosen before it: the columns its ON clause
      names hold the same value, not NULL; or it is a LEFT JOIN and no row would go. */
  ghost predicate Goes(tables: map<Text, TableData>, from: FromClause, before: Row, m: nat, r: Option<nat>)
    requires 0 < m && TablesExist(tables, from, m)
  {
    var rows := TableOf(tables, from, m).rows;
    exists i: nat, j: nat :: OnAt(tables, from, m, i, j) &&
      match r
      case Some(b) => b < |rows| && Meets(before, i, rows[b], j)
      case None => from.joins[m - 1].joinType == Left && forall b :: 0 <= b < |rows| ==> !Meets(before, i, rows[b], j)
  }

  /** The choices a FROM clause stands for. */
  ghost predicate Chosen(tables: map<Text, TableData>, from: FromClause, pick: Pick)
    decreases |pick|
  {
    && InTables(tables, from, pick)
    && var m := |pick| - 1;
    && if m == 0 then pick[0].Some?
       else
         && InTables(tables, from, pick[..m]) && Chosen(tables, from, pick[..m])
         && Goes(tables, from, RowOf(tables, from, pick[..m]), m, pick[m])
  }

  /** The choice is one of them, and `row` is what it stands for. */
  ghost predicate Stands(tables: map<Text, TableData>, from: FromClause, pick: Pick, row: Row) {
    Chosen(tables, from, pick) && row == RowOf(tables, from, pick)
  }

  /** The first difference is a smaller row number. */
  ghost predicate PickBefore(p: Pick, q: Pick) {
    exists d :: 0 <= d < |p| && d < |q| && p[..d] == q[..d] && p[d].Some? && q[d].Some? && p[d].value < q[d].value
  }

  /** `picks` lists exactly the choices of the first `n` joins, once each and in order, and
      `rows` has what they stand for. */
  ghost predicate ListsPicks(tables: map<Text, TableData>, from: FromClause, n: nat, picks: seq<Pick>, rows: seq<Row>) {
    && |picks| == |rows|
    && (forall k :: 0 <= k < |picks| ==> |picks[k]| == n + 1 && Stands(tables, from, picks[k], rows[k]))
    && (forall k, m :: 0 <= k < m < |picks| ==> PickBefore(picks[k], picks[m]))
    && (forall pick: Pick :: |pick| == n + 1 && Chosen(tables, from, pick) ==> pick in picks)
  }

  function OneRow(k: nat): Pick {
    [Some(k)]
  }

  /** The base table alone. */
  lemma BasePicks(tables: map<Text, TableData>, from: FromClause) returns (picks: seq<Pick>)
    requires TablesExist(tables, from, 0)
    ensures ListsPicks(tables, from, 0, picks, TableOf(tables, from, 0).rows)
  {
    var rows := TableOf(tables, from, 0).rows;
    picks := seq(|rows|, k requires 0 <= k < |rows| => OneRow(k));
    forall k, m | 0 <= k < m < |picks|
      ensures PickBefore(picks[k], picks[m])
    {
      assert picks[k][..0] == picks[m][..0];
    }
    forall pick: Pick | |pick| == 1 && Chosen(tables, from, pick)
      ensures pick in picks
    {
      assert pick == [pick[0]] == picks[pick[0].value];
    }
  }

  lemma OnlyOn(tables: map<Text, TableData>, from: FromClause, m: nat, i: nat, j: nat, a: nat, b: nat)
    requires 0 < m && TablesExist(tables, from, m) && OnAt(tables, from, m, i, j) && OnAt(tables, from, m, a, b)
    ensures i == a && j == b
  {
    hide OnNames;
    var scope, added, join := ScopeUpTo(tables, from, m - 1), ScopeAt(tables, from, m), from.joins[m - 1];
    OnColumnsMeans(scope, added, join, i, j);
    OnColumnsMeans(scope, added, join, a, b);
  }

  /** A choice extended by one table. */
  lemma ExtendedPick(tables: map<Text, TableData>, from: FromClause, n: nat, pick: Pick, r: Option<nat>, i: nat, j: nat,
                     left: seq<Row>, l: nat)
    requires n < |from.joins| && TablesExist(tables, from, n + 1) && OnAt(tables, from, n + 1, i, j)
    requires |pick| == n + 1 && l < |left| && Stands(tables, from, pick, left[l])
    ensures var right := TableOf(tables, from, n + 1);
      && (Chosen(tables, from, pick + [r]) <==> Wanted(left, i, right.rows, j, from.joins[n].joinType, Pair(l, r)))
      && (Chosen(tables, from, pick + [r]) ==>
            Stands(tables, from, pick + [r], Side(left, right.rows, |right.schema.columns|, Pair(l, r))))
  {
    hide OnAt, RowOf, Meets;
    var more := pick + [r];
    assert more[..n + 1] == pick && more[n + 1] == r;
    var rows := TableOf(tables, from, n + 1).rows;
    if Goes(tables, from, left[l], n + 1, r) {
      var a: nat, b: nat :| OnAt(tables, from, n + 1, a, b) &&
        match r
        case Some(x) => x < |rows| && Meets(left[l], a, rows[x], b)
        case None => from.joins[n].joinType == Left && forall x :: 0 <= x < |rows| ==> !Meets(left[l], a, rows[x], b);
      OnlyOn(tables, from, n + 1, i, j, a, b);
    }
    assert Goes(tables, from, left[l], n + 1, r) <==> Wanted(left, i, rows, j, from.joins[n].joinType, Pair(l, r));
    if r.None? || r.value < |rows| {
      ExtendedRow(tables, from, pick, r);
    }
  }

  lemma ExtendedRow(tables: map<Text, TableData>, from: FromClause, pick: Pick, r: Option<nat>)
    requires InTables(tables, from, pick) && TablesExist(tables, from, |pick|)
    requires r.Some? ==> r.value < |TableOf(tables, from, |pick|).rows|
    ensures InTables(tables, from, pick + [r])
    ensures var t := TableOf(tables, from, |pick|);
      RowOf(tables, from, pick + [r])
        == RowOf(tables, from, pick) + match r case Some(b) => t.rows[b] case None => Nulls(|t.schema.columns|)
  {
    assert (pick + [r])[..|pick|] == pick;
  }

  lemma ExtendedBefore(p: Pick, q: Pick, r: Option<nat>, s: Option<nat>)
    requires |p| == |q|
    requires PickBefore(p, q) || (p == q && r.Some? && s.Some? && r.value < s.value)
    ensures PickBefore(p + [r], q + [s])
  {
    if PickBefore(p, q) {
      var d :| 0 <= d < |p| && d < |q| && p[..d] == q[..d] && p[d].Some? && q[d].Some? && p[d].value < q[d].value;
      assert (p + [r])[..d] == (q + [s])[..d];
    } else {
      assert (p + [r])[..|p|] == (q + [s])[..|p|];
    }
  }

  /** One more join: each choice so far with each row that goes with it. */
  lemma StepPicks(tables: map<Text, TableData>, from: FromClause, n: nat, picks: seq<Pick>, left: seq<Row>, i: nat, j: nat)
    returns (more: seq<Pick>)
    requires n < |from.joins| && TablesExist(tables, from, n + 1) && OnAt(tables, from, n + 1, i, j)
    requires ListsPicks(tables, from, n, picks, left)
    ensures var t := TableOf(tables, from, n + 1);
      ListsPicks(tables, from, n + 1, more,
                 NestedLoop(left, i, t.rows, j, |t.schema.columns|, from.joins[n].joinType, HashEqual))
  {
    hide NestedLoop, Wanted, Chosen, Stands, OnAt, PickBefore, Earlier, Side, HashEqual, TableAt, Extended;
    var t, kind := TableOf(tables, from, n + 1), from.joins[n].joinType;
    var width := |t.schema.columns|;
    var out := NestedLoop(left, i, t.rows, j, width, kind, HashEqual);
    var pairs := LoopMeans(left, i, t.rows, j, width, kind);
    ListsInRange(pairs, out, left, i, t.rows, j, width, kind);
    more := Extended(picks, pairs);
    ExtendedStand(tables, from, n, picks, left, i, j, pairs, out);
    ExtendedInOrder(picks, pairs, n);
    ExtendedComplete(tables, from, n, picks, left, i, j, pairs);
  }

  ghost function Extended(picks: seq<Pick>, pairs: seq<Pair>): (r: seq<Pick>)
    requires forall k :: 0 <= k < |pairs| ==> pairs[k].l < |picks|
    ensures |r| == |pairs| && forall k :: 0 <= k < |pairs| ==> r[k] == picks[pairs[k].l] + [pairs[k].r]
  {
    seq(|pairs|, k requires 0 <= k < |pairs| => picks[pairs[k].l] + [pairs[k].r])
  }

  lemma ExtendedStand(tables: map<Text, TableData>, from: FromClause, n: nat, picks: seq<Pick>, left: seq<Row>, i: nat,
                      j: nat, pairs: seq<Pair>, out: seq<Row>)
    requires n < |from.joins| && TablesExist(tables, from, n + 1) && OnAt(tables, from, n + 1, i, j)
    requires ListsPicks(tables, from, n, picks, left) && |pairs| == |out|
    requires forall k :: 0 <= k < |pairs| ==> pairs[k].l < |picks|
    requires var t := TableOf(tables, from, n + 1);
      forall k :: 0 <= k < |out| ==>
        && Wanted(left, i, t.rows, j, from.joins[n].joinType, pairs[k])
        && out[k] == Side(left, t.rows, |t.schema.columns|, pairs[k])
    ensures var more := Extended(picks, pairs);
      forall k :: 0 <= k < |out| ==> |more[k]| == n + 2 && Stands(tables, from, more[k], out[k])
  {
    hide Wanted, Chosen, Stands, OnAt, PickBefore, Side, TableAt, Extended;
    forall k | 0 <= k < |out|
      ensures |Extended(picks, pairs)[k]| == n + 2 && Stands(tables, from, Extended(picks, pairs)[k], out[k])
    {
      var p := pairs[k];
      assert p == Pair(p.l, p.r);
      ExtendedPick(tables, from, n, picks[p.l], p.r, i, j, left, p.l);
    }
  }

  lemma ExtendedEarlier(picks: seq<Pick>, p: Pair, q: Pair)
    requires p.l < |picks| && q.l < |picks| && Earlier(p, q)
    requires forall k, m :: 0 <= k < m < |picks| ==> PickBefore(picks[k], picks[m])
    requires |picks[p.l]| == |picks[q.l]|
    ensures PickBefore(picks[p.l] + [p.r], picks[q.l] + [q.r])
  {
    hide PickBefore;
    ExtendedBefore(picks[p.l], picks[q.l], p.r, q.r);
  }

  lemma ExtendedInOrder(picks: seq<Pick>, pairs: seq<Pair>, n: nat)
    requires forall k :: 0 <= k < |pairs| ==> pairs[k].l < |picks|
    requires forall k :: 0 <= k < |picks| ==> |picks[k]| == n + 1
    requires forall k, m :: 0 <= k < m < |picks| ==> PickBefore(picks[k], picks[m])
    requires forall k, m :: 0 <= k < m < |pairs| ==> Earlier(pairs[k], pairs[m])
    ensures var more := Extended(picks, pairs);
      forall k, m :: 0 <= k < m < |more| ==> PickBefore(more[k], more[m])
  {
    hide PickBefore, Earlier, Extended;
    var more := Extended(picks, pairs);
    forall k, m | 0 <= k < m < |more|
      ensures PickBefore(more[k], more[m])
    {
      ExtendedEarlier(picks, pairs[k], pairs[m]);
    }
  }

  lemma ExtendedComplete(tables: map<Text, TableData>, from: FromClause, n: nat, picks: seq<Pick>, left: seq<Row>, i: nat,
                         j: nat, pairs: seq<Pair>)
    requires n < |from.joins| && TablesExist(tables, from, n + 1) && OnAt(tables, from, n + 1, i, j)
    requires ListsPicks(tables, from, n, picks, left)
    requires forall k :: 0 <= k < |pairs| ==> pairs[k].l < |picks|
    requires forall p ::
      Wanted(left, i, TableOf(tables, from, n + 1).rows, j, from.joins[n].joinType, p) ==> p in pairs
    ensures forall pick: Pick :: |pick| == n + 2 && Chosen(tables, from, pick) ==> pick in Extended(picks, pairs)
  {
    hide ListsPicks, Wanted, Chosen, OnAt, TableAt, TablesExist, Extended;
    forall pick: Pick | |pick| == n + 2 && Chosen(tables, from, pick)
      ensures pick in Extended(picks, pairs)
    {
      var k := ExtensionFound(tables, from, n, picks, left, i, j, pairs, pick);
      assert Extended(picks, pairs)[k] == pick;
    }
  }

  lemma ExtensionFound(tables: map<Text, TableData>, from: FromClause, n: nat, picks: seq<Pick>, left: seq<Row>, i: nat,
                       j: nat, pairs: seq<Pair>, pick: Pick) returns (k: nat)
    requires n < |from.joins| && TablesExist(tables, from, n + 1) && OnAt(tables, from, n + 1, i, j)
    requires ListsPicks(tables, from, n, picks, left) && |pick| == n + 2 && Chosen(tables, from, pick)
    requires forall p ::
      Wanted(left, i, TableOf(tables, from, n + 1).rows, j, from.joins[n].joinType, p) ==> p in pairs
    ensures k < |pairs| && pairs[k].l < |picks| && pick == picks[pairs[k].l] + [pairs[k].r]
  {
    hide Wanted, Chosen, Stands, OnAt, PickBefore;
    ChosenFront(tables, from, pick);
    assert pick[..n + 1] in picks;
    var l :| 0 <= l < |picks| && picks[l] == pick[..n + 1];
    assert pick == picks[l] + [pick[n + 1]];
    ExtendedPick(tables, from, n, picks[l], pick[n + 1], i, j, left, l);
    assert Pair(l, pick[n + 1]) in pairs;
    k :| 0 <= k < |pairs| && pairs[k] == Pair(l, pick[n + 1]);
  }

  lemma ListsInRange(pairs: seq<Pair>, out: seq<Row>, left: seq<Row>, i: nat, right: seq<Row>, j: nat, width: nat, kind: JoinType)
    requires Lists(pairs, out, left, i, right, j, width, kind)
    ensures forall k :: 0 <= k < |pairs| ==> pairs[k].l < |left|
  {
    hide Wanted, Side, Earlier;
    forall k | 0 <= k < |pairs|
      ensures pairs[k].l < |left|
    {
      WantedInRange(left, i, right, j, kind, pairs[k]);
    }
  }

  lemma WantedInRange(left: seq<Row>, i: nat, right: seq<Row>, j: nat, kind: JoinType, p: Pair)
    requires Wanted(left, i, right, j, kind, p)
    ensures p.l < |left|
  {}

  lemma ChosenFront(tables: map<Text, TableData>, from: FromClause, pick: Pick)
    requires Chosen(tables, from, pick) && |pick| > 1
    ensures Chosen(tables, from, pick[..|pick| - 1])
  {
    hide Goes, RowOf;
  }

  // ---- the chain of joins ----

  ghost predicate OnNamed(tables: map<Text, TableData>, from: FromClause, m: nat)
    requires 0 < m && TablesExist(tables, from, m)
  {
    exists i: nat, j: nat :: OnAt(tables, from, m, i, j)
  }

  /** Every ON clause up to table `n` compares a column in scope with one of its table. */
  ghost predicate OnsNamed(tables: map<Text, TableData>, from: FromClause, n: nat)
    requires TablesExist(tables, from, n)
  {
    forall m :: 1 <= m <= n ==> OnNamed(tables, from, m)
  }

  /** `resolve_joins`, said of the tables alone: it succeeds exactly if every table exists
      and every ON clause names two columns; its scope is the tables' columns side by side;
      and its rows are, in order and once each, the choices the clause stands for. */
  lemma {:induction false} ChainMeans(tables: map<Text, TableData>, from: FromClause, n: nat) returns (picks: seq<Pick>)
    requires n <= |from.joins|
    ensures var r := Chain(tables, from, n, HashEqual);
      && (r.Ok? <==> TablesExist(tables, from, n) && OnsNamed(tables, from, n))
      && (r.Ok? ==> r.value.scope == ScopeUpTo(tables, from, n) && ListsPicks(tables, from, n, picks, r.value.rows))
  {
    hide NestedLoop, JoinStep, ListsPicks, OnsNamed, TablesExist;
    picks := [];
    if n == 0 {
      NoJoins(tables, from);
      if from.table.name in tables {
        SameScope(tables, from, 0);
        picks := BasePicks(tables, from);
      }
    } else {
      var before := ChainMeans(tables, from, n - 1);
      var acc := Chain(tables, from, n - 1, HashEqual);
      NamedMore(tables, from, n);
      if acc.Ok? {
        var i, j := StepMeans(tables, from, n, acc.value);
        if JoinStep(tables, acc.value, from.joins[n - 1], HashEqual).Ok? {
          picks := StepPicks(tables, from, n - 1, before, acc.value.rows, i, j);
        }
      }
    }
  }

  lemma NoJoins(tables: map<Text, TableData>, from: FromClause)
    ensures TablesExist(tables, from, 0) <==> from.table.name in tables
    ensures TablesExist(tables, from, 0) ==> OnsNamed(tables, from, 0)
  {
    assert TableAt(from, 0) == from.table;
  }

  /** What one step of the chain does. */
  lemma StepMeans(tables: map<Text, TableData>, from: FromClause, n: nat, acc: Joined) returns (i: nat, j: nat)
    requires 0 < n <= |from.joins| && TablesExist(tables, from, n - 1) && acc.scope == ScopeUpTo(tables, from, n - 1)
    ensures var r := JoinStep(tables, acc, from.joins[n - 1], HashEqual);
      && (r.Ok? <==> TablesExist(tables, from, n) && OnNamed(tables, from, n))
      && (r.Ok? ==>
            && OnAt(tables, from, n, i, j) && r.value.scope == ScopeUpTo(tables, from, n)
            && var t := TableOf(tables, from, n);
               r.value.rows == NestedLoop(acc.rows, i, t.rows, j, |t.schema.columns|, from.joins[n - 1].joinType, HashEqual))
  {
    hide NestedLoop, OnColumns, OnNamed, OnAt;
    i, j := 0, 0;
    ExistMore(tables, from, n);
    if TableAt(from, n).name in tables {
      SameScope(tables, from, n);
      var on := OnColumns(acc.scope, ScopeAt(tables, from, n), from.joins[n - 1]);
      OnExact(tables, from, n, on);
      if on.Ok? {
        i, j := on.value.0, on.value.1;
      }
    }
  }

  lemma NamedMore(tables: map<Text, TableData>, from: FromClause, n: nat)
    requires 0 < n <= |from.joins|
    ensures TablesExist(tables, from, n) ==> TablesExist(tables, from, n - 1)
    ensures TablesExist(tables, from, n) ==> (OnsNamed(tables, from, n) <==> OnsNamed(tables, from, n - 1) && OnNamed(tables, from, n))
  {
    hide OnNamed;
    ExistMore(tables, from, n);
  }

  lemma SameScope(tables: map<Text, TableData>, from: FromClause, m: nat)
    requires m <= |from.joins| && TableAt(from, m).name in tables
    ensures var q, columns := TableAt(from, m).Qualifier(), TableOf(tables, from, m).schema.columns;
      && ScopeAt(tables, from, m) == SingleScope(q, columns)
      && forall s: Scope :: PushTable(s, q, columns)
           == Scope(s.qualifiers + ScopeAt(tables, from, m).qualifiers, s.columns + columns)
  {
    var q, columns := TableAt(from, m).Qualifier(), TableOf(tables, from, m).schema.columns;
    assert ScopeAt(tables, from, m).qualifiers == SingleScope(q, columns).qualifiers == seq(|columns|, i => q);
  }

  lemma ExistMore(tables: map<Text, TableData>, from: FromClause, n: nat)
    requires 0 < n <= |from.joins|
    ensures TablesExist(tables, from, n) <==> TablesExist(tables, from, n - 1) && TableAt(from, n).name in tables
  {
    hide TableAt;
  }

  lemma OnExact(tables: map<Text, TableData>, from: FromClause, m: nat, on: Result<(nat, nat)>)
    requires 0 < m && TablesExist(tables, from, m)
    requires on == OnColumns(ScopeUpTo(tables, from, m - 1), ScopeAt(tables, from, m), from.joins[m - 1])
    ensures on.Ok? ==> OnAt(tables, from, m, on.value.0, on.value.1)
    ensures on.Ok? <==> OnNamed(tables, from, m)
  {
    hide OnColumns, OnNames;
    var scope, added, join := ScopeUpTo(tables, from, m - 1), ScopeAt(tables, from, m), from.joins[m - 1];
    forall i: nat, j: nat
      ensures on == Ok((i, j)) <==> OnAt(tables, from, m, i, j)
    {
      OnColumnsMeans(scope, added, join, i, j);
    }
  }

  /** `resolve_joins` as it runs: the chain of hash joins gives exactly that. */
  method ResolveFrom(tables: map<Text, TableData>, from: FromClause) returns (r: Result<Joined>, ghost picks: seq<Pick>)
    requires AllRectangular(tables)
    ensures r.Ok? <==> TablesExist(tables, from, |from.joins|) && OnsNamed(tables, from, |from.joins|)
    ensures r.Ok? ==> r.value.scope == ScopeUpTo(tables, from, |from.joins|)
    ensures r.Ok? ==> ListsPicks(tables, from, |from.joins|, picks, r.value.rows)
  {
    hide Chain, ListsPicks, OnsNamed, TablesExist, AllRectangular;
    r := ResolveJoins(tables, from);
    picks := ChainMeans(tables, from, |from.joins|);
  }
}
