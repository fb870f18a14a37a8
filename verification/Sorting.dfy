/** ORDER BY with LIMIT and OFFSET: partitioning, truncating and sorting the survivors is
    a page of the full sort. */
module Sorting {
  import opened Basics
  import opened Values
  import opened Conversions
  import opened Ordering

  /** A sort column and whether it is descending. */
  type SortKey = (nat, bool)

  predicate TypedRow(row: Row, types: seq<ColumnType>) {
    |row| == |types| && forall i :: 0 <= i < |row| ==> HasType(row[i], types[i])
  }

  /** Rows of one result, all with the same column types. */
  predicate TypedRows(rows: seq<Row>, types: seq<ColumnType>) {
    forall i :: 0 <= i < |rows| ==> TypedRow(rows[i], types)
  }

  predicate KeysIn(keys: seq<SortKey>, width: nat) {
    forall i :: 0 <= i < |keys| ==> keys[i].0 < width
  }

  /** The cells a row is sorted by.  (The columns of `keys` always exist; the guard only
      makes the function total.) */
  function SortCells(row: Row, keys: seq<SortKey>): (r: seq<Value>)
    ensures |r| == |keys|
  {
    seq(|keys|, i requires 0 <= i < |keys| => if keys[i].0 < |row| then row[keys[i].0] else Null)
  }

  predicate TypedCells(cells: seq<Value>, keys: seq<SortKey>, types: seq<ColumnType>) {
    && KeysIn(keys, |types|) && |cells| == |keys|
    && forall i :: 0 <= i < |keys| ==> HasType(cells[i], types[keys[i].0])
  }

  function Directed(o: Order, descending: bool): Order {
    if descending then Reverse(o) else o
  }

  /** The comparison closure, on the sort cells: the first difference decides. */
  function CellOrder(a: seq<Value>, b: seq<Value>, keys: seq<SortKey>): Order
    requires |a| == |b| == |keys|
  {
    if keys == [] then Equal
    else
      var o := Directed(ValueOrdering(a[0], b[0]), keys[0].1);
      if o != Equal then o else CellOrder(a[1..], b[1..], keys[1..])
  }

  lemma {:induction false} CellsEqual(a: seq<Value>, b: seq<Value>, keys: seq<SortKey>, types: seq<ColumnType>)
    requires TypedCells(a, keys, types) && TypedCells(b, keys, types)
    ensures CellOrder(a, b, keys) == Equal <==> a == b
  {
    if keys != [] {
      hide ValueOrdering, HasType;
      OrderEqual(a[0], b[0], types[keys[0].0]);
      CellsEqual(a[1..], b[1..], keys[1..], types);
      assert a == [a[0]] + a[1..] && b == [b[0]] + b[1..];
    }
  }

  lemma {:induction false} CellsFlip(a: seq<Value>, b: seq<Value>, keys: seq<SortKey>)
    requires |a| == |b| == |keys|
    ensures CellOrder(b, a, keys) == Reverse(CellOrder(a, b, keys))
  {
    if keys != [] {
      hide ValueOrdering;
      OrderFlips(a[0], b[0]);
      CellsFlip(a[1..], b[1..], keys[1..]);
    }
  }

  lemma {:induction false} CellsTransitive(a: seq<Value>, b: seq<Value>, c: seq<Value>, keys: seq<SortKey>, types: seq<ColumnType>)
    requires TypedCells(a, keys, types) && TypedCells(b, keys, types) && TypedCells(c, keys, types)
    requires CellOrder(a, b, keys) != Greater && CellOrder(b, c, keys) != Greater
    ensures CellOrder(a, c, keys) != Greater
  {
    if keys != [] {
      hide ValueOrdering, HasType;
      DirectedTransitive(a[0], b[0], c[0], keys[0].1, types[keys[0].0]);
      OrderEqual(a[0], b[0], types[keys[0].0]);
      OrderEqual(b[0], c[0], types[keys[0].0]);
      OrderEqual(a[0], c[0], types[keys[0].0]);
      if a[0] == b[0] == c[0] {
        CellsTransitive(a[1..], b[1..], c[1..], keys[1..], types);
      } else if a[0] == c[0] {
        OrderFlips(a[0], b[0]);
      }
    }
  }

  lemma DirectedTransitive(a: Value, b: Value, c: Value, descending: bool, t: ColumnType)
    requires HasType(a, t) && HasType(b, t) && HasType(c, t)
    requires Directed(ValueOrdering(a, b), descending) != Greater
    requires Directed(ValueOrdering(b, c), descending) != Greater
    ensures Directed(ValueOrdering(a, c), descending) != Greater
  {
    hide ValueOrdering, HasType;
    OrderFlips(a, b);
    OrderFlips(b, c);
    OrderFlips(a, c);
    if descending {
      OrderTransitive(c, b, a, t);
    } else {
      OrderTransitive(a, b, c, t);
    }
  }

  // ---- sorted cell lists ----

  /** One row may stand before another. */
  predicate Before(a: seq<Value>, b: seq<Value>, keys: seq<SortKey>)
    requires |a| == |b| == |keys|
  {
    CellOrder(a, b, keys) != Greater
  }

  predicate AllTyped(xs: seq<seq<Value>>, keys: seq<SortKey>, types: seq<ColumnType>) {
    forall i :: 0 <= i < |xs| ==> TypedCells(xs[i], keys, types)
  }

  predicate InOrder(xs: seq<seq<Value>>, keys: seq<SortKey>)
    requires forall i :: 0 <= i < |xs| ==> |xs[i]| == |keys|
  {
    forall i, j :: 0 <= i < j < |xs| ==> Before(xs[i], xs[j], keys)
  }

  lemma DropFirst<T>(xs: seq<T>)
    requires xs != []
    ensures multiset(xs[1..]) == multiset(xs) - multiset{xs[0]}
  {
    assert xs == [xs[0]] + xs[1..];
  }

  /** There is only one way to put the same cells in order. */
  lemma {:induction false} OneOrder(xs: seq<seq<Value>>, ys: seq<seq<Value>>, keys: seq<SortKey>, types: seq<ColumnType>)
    requires AllTyped(xs, keys, types) && AllTyped(ys, keys, types)
    requires InOrder(xs, keys) && InOrder(ys, keys) && multiset(xs) == multiset(ys)
    ensures xs == ys
    decreases |xs|
  {
    hide TypedCells, CellOrder, Before;
    assert |multiset(xs)| == |xs| && |multiset(ys)| == |ys|;
    if xs != [] {
      BothLeast(xs, ys, keys, types);
      DropFirst(xs);
      DropFirst(ys);
      assert AllTyped(xs[1..], keys, types) && AllTyped(ys[1..], keys, types);
      OneOrder(xs[1..], ys[1..], keys, types);
      assert xs == [xs[0]] + xs[1..] && ys == [ys[0]] + ys[1..];
    }
  }

  lemma BothLeast(xs: seq<seq<Value>>, ys: seq<seq<Value>>, keys: seq<SortKey>, types: seq<ColumnType>)
    requires AllTyped(xs, keys, types) && AllTyped(ys, keys, types)
    requires InOrder(xs, keys) && InOrder(ys, keys) && multiset(xs) == multiset(ys)
    requires xs != [] && ys != []
    ensures xs[0] == ys[0]
  {
    hide AllTyped, InOrder, CellOrder;
    var x, y := xs[0], ys[0];
    assert x in multiset(xs) && y in multiset(ys);
    FirstIsLeast(xs, y, keys, types);
    FirstIsLeast(ys, x, keys, types);
    CellsFlip(x, y, keys);
    CellsEqual(x, y, keys, types);
  }

  lemma FirstIsLeast(xs: seq<seq<Value>>, y: seq<Value>, keys: seq<SortKey>, types: seq<ColumnType>)
    requires AllTyped(xs, keys, types) && InOrder(xs, keys) && y in multiset(xs)
    ensures |xs| > 0 && TypedCells(y, keys, types) && Before(xs[0], y, keys)
  {
    hide CellOrder;
    var i :| 0 <= i < |xs| && xs[i] == y;
    if i == 0 {
      CellsEqual(y, y, keys, types);
    }
  }

  // ---- rows ----

  function AllCells(rows: seq<Row>, keys: seq<SortKey>): (r: seq<seq<Value>>)
    ensures |r| == |rows| && forall i :: 0 <= i < |rows| ==> r[i] == SortCells(rows[i], keys)
  {
    seq(|rows|, i requires 0 <= i < |rows| => SortCells(rows[i], keys))
  }

  lemma CellsAppend(a: seq<Row>, b: seq<Row>, keys: seq<SortKey>)
    ensures AllCells(a + b, keys) == AllCells(a, keys) + AllCells(b, keys)
  {
    hide SortCells;
  }

  lemma CellsTyped(rows: seq<Row>, keys: seq<SortKey>, types: seq<ColumnType>)
    requires TypedRows(rows, types) && KeysIn(keys, |types|)
    ensures AllTyped(AllCells(rows, keys), keys, types)
  {
    hide HasType;
    assert forall i :: 0 <= i < |rows| ==> TypedRow(rows[i], types);
  }

  /** Taking one row out takes its cells out. */
  lemma CellsWithout(ys: seq<Row>, j: nat, keys: seq<SortKey>)
    requires j < |ys|
    ensures var rest := ys[..j] + ys[j + 1..];
      && multiset(rest) == multiset(ys) - multiset{ys[j]}
      && multiset(AllCells(ys, keys)) == multiset(AllCells(rest, keys)) + multiset{SortCells(ys[j], keys)}
  {
    hide SortCells, AllCells;
    var rest, y := ys[..j] + ys[j + 1..], ys[j];
    assert ys == ys[..j] + ([y] + ys[j + 1..]);
    CellsAppend(ys[..j], ys[j + 1..], keys);
    CellsAppend([y], ys[j + 1..], keys);
    CellsAppend(ys[..j], [y] + ys[j + 1..], keys);
    assert AllCells([y], keys) == [SortCells(y, keys)];
  }

  lemma {:induction false} CellsMultiset(xs: seq<Row>, ys: seq<Row>, keys: seq<SortKey>)
    requires multiset(xs) == multiset(ys)
    ensures multiset(AllCells(xs, keys)) == multiset(AllCells(ys, keys))
    decreases |xs|
  {
    hide SortCells, AllCells;
    if xs == [] {
      assert |multiset(xs)| == 0;
      assert |multiset(ys)| == |ys|;
    } else {
      assert xs[0] in multiset(xs);
      var j :| 0 <= j < |ys| && ys[j] == xs[0];
      CellsWithout(xs, 0, keys);
      CellsWithout(ys, j, keys);
      CellsMultiset(xs[..0] + xs[1..], ys[..j] + ys[j + 1..], keys);
    }
  }

  /** Rows in ORDER BY order. */
  ghost predicate SortedRows(rows: seq<Row>, keys: seq<SortKey>) {
    InOrder(AllCells(rows, keys), keys)
  }

  predicate RowBefore(a: Row, b: Row, keys: seq<SortKey>) {
    Before(SortCells(a, keys), SortCells(b, keys), keys)
  }

  /** Sorted rows have the same sort cells, position by position, however ties fell. */
  lemma SameSortedCells(xs: seq<Row>, ys: seq<Row>, keys: seq<SortKey>, types: seq<ColumnType>)
    requires TypedRows(xs, types) && TypedRows(ys, types) && KeysIn(keys, |types|)
    requires SortedRows(xs, keys) && SortedRows(ys, keys) && multiset(xs) == multiset(ys)
    ensures AllCells(xs, keys) == AllCells(ys, keys)
  {
    hide TypedRows, AllTyped, InOrder, KeysIn;
    CellsTyped(xs, keys, types);
    CellsTyped(ys, keys, types);
    CellsMultiset(xs, ys, keys);
    OneOrder(AllCells(xs, keys), AllCells(ys, keys), keys, types);
  }

  lemma TypedPermutation(xs: seq<Row>, ys: seq<Row>, types: seq<ColumnType>)
    requires TypedRows(xs, types) && multiset(ys) <= multiset(xs)
    ensures TypedRows(ys, types)
  {
    hide TypedRow;
    forall i | 0 <= i < |ys|
      ensures TypedRow(ys[i], types)
    {
      assert ys[i] in multiset(ys);
      assert ys[i] in multiset(xs);
    }
  }

  lemma OneRowTyped(row: Row, keys: seq<SortKey>, types: seq<ColumnType>)
    requires TypedRow(row, types) && KeysIn(keys, |types|)
    ensures TypedCells(SortCells(row, keys), keys, types)
  {
    hide HasType;
  }

  lemma RowsTransitive(a: Row, b: Row, c: Row, keys: seq<SortKey>, types: seq<ColumnType>)
    requires TypedRow(a, types) && TypedRow(b, types) && TypedRow(c, types) && KeysIn(keys, |types|)
    requires RowBefore(a, b, keys) && RowBefore(b, c, keys)
    ensures RowBefore(a, c, keys)
  {
    hide TypedRow, CellOrder, SortCells, TypedCells, KeysIn;
    OneRowTyped(a, keys, types);
    OneRowTyped(b, keys, types);
    OneRowTyped(c, keys, types);
    CellsTransitive(SortCells(a, keys), SortCells(b, keys), SortCells(c, keys), keys, types);
  }

  lemma RowsTotal(a: Row, b: Row, keys: seq<SortKey>)
    ensures RowBefore(a, b, keys) || RowBefore(b, a, keys)
  {
    hide CellOrder, SortCells;
    CellsFlip(SortCells(a, keys), SortCells(b, keys), keys);
  }

  /** Two sorted lists, the first all before the second, make one. */
  lemma SortedConcat(a: seq<Row>, b: seq<Row>, keys: seq<SortKey>)
    requires SortedRows(a, keys) && SortedRows(b, keys)
    requires forall i, j :: 0 <= i < |a| && 0 <= j < |b| ==> RowBefore(a[i], b[j], keys)
    ensures SortedRows(a + b, keys)
  {
    hide Before, SortCells;
    CellsAppend(a, b, keys);
    var all := AllCells(a + b, keys);
    forall i, j | 0 <= i < j < |all|
      ensures Before(all[i], all[j], keys)
    {
      if j < |a| {
        assert Before(AllCells(a, keys)[i], AllCells(a, keys)[j], keys);
      } else if i < |a| {
        assert RowBefore(a[i], b[j - |a|], keys);
      } else {
        assert Before(AllCells(b, keys)[i - |a|], AllCells(b, keys)[j - |a|], keys);
      }
    }
  }

  // ---- the library sort ----

  /** Insertion after everything that may stand before the row. */
  function Insert(rows: seq<Row>, row: Row, keys: seq<SortKey>): (r: seq<Row>)
    ensures |r| == |rows| + 1 && multiset(r) == multiset(rows) + multiset{row}
  {
    if rows == [] then [row]
    else
      var n := |rows| - 1;
      assert rows == rows[..n] + [rows[n]];
      if RowBefore(rows[n], row, keys) then rows + [row]
      else Insert(rows[..n], row, keys) + [rows[n]]
  }

  /** `sort_by`: the stable sort. */
  function StableSort(rows: seq<Row>, keys: seq<SortKey>): (r: seq<Row>)
    ensures |r| == |rows| && multiset(r) == multiset(rows)
  {
    if rows == [] then []
    else
      var n := |rows| - 1;
      assert rows == rows[..n] + [rows[n]];
      Insert(StableSort(rows[..n], keys), rows[n], keys)
  }

  lemma LastBefore(rows: seq<Row>, row: Row, keys: seq<SortKey>, types: seq<ColumnType>)
    requires TypedRows(rows, types) && TypedRow(row, types) && KeysIn(keys, |types|)
    requires SortedRows(rows, keys) && rows != [] && RowBefore(rows[|rows| - 1], row, keys)
    ensures forall i :: 0 <= i < |rows| ==> RowBefore(rows[i], row, keys)
  {
    hide TypedRow, Before, SortCells, KeysIn;
    var n := |rows| - 1;
    forall i | 0 <= i < n
      ensures RowBefore(rows[i], row, keys)
    {
      assert Before(AllCells(rows, keys)[i], AllCells(rows, keys)[n], keys);
      RowsTransitive(rows[i], rows[n], row, keys, types);
    }
  }

  lemma FrontSorted(rows: seq<Row>, n: nat, keys: seq<SortKey>)
    requires SortedRows(rows, keys) && n <= |rows|
    ensures SortedRows(rows[..n], keys)
    ensures forall i, j :: 0 <= i < n <= j < |rows| ==> RowBefore(rows[i], rows[j], keys)
  {
    hide Before, SortCells;
    var cells := AllCells(rows, keys);
    assert AllCells(rows[..n], keys) == cells[..n];
    forall i, j | 0 <= i < n <= j < |rows|
      ensures RowBefore(rows[i], rows[j], keys)
    {
      assert Before(cells[i], cells[j], keys);
    }
  }

  lemma OneSorted(row: Row, keys: seq<SortKey>)
    ensures SortedRows([row], keys)
  {}

  lemma {:induction false} InsertSorts(rows: seq<Row>, row: Row, keys: seq<SortKey>, types: seq<ColumnType>)
    requires TypedRows(rows, types) && TypedRow(row, types) && KeysIn(keys, |types|)
    requires SortedRows(rows, keys)
    ensures SortedRows(Insert(rows, row, keys), keys)
    decreases |rows|
  {
    hide TypedRow, RowBefore, SortedRows, KeysIn;
    OneSorted(row, keys);
    if rows != [] {
      var n := |rows| - 1;
      if RowBefore(rows[n], row, keys) {
        LastBefore(rows, row, keys, types);
        SortedConcat(rows, [row], keys);
      } else {
        FrontSorted(rows, n, keys);
        InsertSorts(rows[..n], row, keys, types);
        RowsTotal(rows[n], row, keys);
        var made := Insert(rows[..n], row, keys);
        forall i | 0 <= i < |made|
          ensures RowBefore(made[i], rows[n], keys)
        {
          assert made[i] in multiset(made);
          assert made[i] == row || made[i] in multiset(rows[..n]);
        }
        OneSorted(rows[n], keys);
        SortedConcat(made, [rows[n]], keys);
      }
    }
  }

  lemma {:induction false} StableSortSorts(rows: seq<Row>, keys: seq<SortKey>, types: seq<ColumnType>)
    requires TypedRows(rows, types) && KeysIn(keys, |types|)
    ensures SortedRows(StableSort(rows, keys), keys) && TypedRows(StableSort(rows, keys), types)
    decreases |rows|
  {
    hide TypedRow, Insert, KeysIn;
    TypedPermutation(rows, StableSort(rows, keys), types);
    if rows == [] {
      assert SortedRows([], keys);
    } else {
      hide SortedRows;
      var n := |rows| - 1;
      StableSortSorts(rows[..n], keys, types);
      InsertSorts(StableSort(rows[..n], keys), rows[n], keys, types);
    }
  }

  // ---- stability ----

  /** The rows that tie at these sort cells. */
  function Tied(keys: seq<SortKey>, cells: seq<Value>): Row -> bool {
    (row: Row) => SortCells(row, keys) == cells
  }

  /** A row is put in front of another only if the two differ in their sort cells. */
  lemma JumpsOnlyOthers(a: Row, b: Row, keys: seq<SortKey>, types: seq<ColumnType>)
    requires TypedRow(a, types) && TypedRow(b, types) && KeysIn(keys, |types|) && !RowBefore(a, b, keys)
    ensures SortCells(a, keys) != SortCells(b, keys)
  {
    hide SortCells, CellOrder;
    OneRowTyped(a, keys, types);
    OneRowTyped(b, keys, types);
    CellsEqual(SortCells(a, keys), SortCells(b, keys), keys, types);
  }

  lemma {:induction false} InsertStable(rows: seq<Row>, row: Row, keys: seq<SortKey>, types: seq<ColumnType>, cells: seq<Value>)
    requires TypedRows(rows, types) && TypedRow(row, types) && KeysIn(keys, |types|)
    ensures Filter(Insert(rows, row, keys), Tied(keys, cells))
         == Filter(rows, Tied(keys, cells)) + Filter([row], Tied(keys, cells))
    decreases |rows|
  {
    hide TypedRow, RowBefore, KeysIn, Filter, Tied;
    var tied := Tied(keys, cells);
    if rows == [] {
      FilterAppend([], [row], tied);
      assert [] + [row] == [row];
    } else {
      var n := |rows| - 1;
      if RowBefore(rows[n], row, keys) {
        FilterAppend(rows, [row], tied);
      } else {
        InsertStable(rows[..n], row, keys, types, cells);
        assert rows == rows[..n] + [rows[n]];
        FilterAppend(rows[..n], [rows[n]], tied);
        FilterAppend(Insert(rows[..n], row, keys), [rows[n]], tied);
        JumpsOnlyOthers(rows[n], row, keys, types);
        NotBoth(rows[n], row, keys, cells);
        var front := Filter(rows[..n], tied);
        assert front + Filter([row], tied) + Filter([rows[n]], tied) == front + Filter([rows[n]], tied) + Filter([row], tied);
      }
    }
  }

  lemma NotBoth(a: Row, b: Row, keys: seq<SortKey>, cells: seq<Value>)
    requires SortCells(a, keys) != SortCells(b, keys)
    ensures Filter([a], Tied(keys, cells)) == [] || Filter([b], Tied(keys, cells)) == []
  {
    hide SortCells;
    assert [a][1..] == [] && [b][1..] == [];
  }

  /** Rows that tie keep the order they came in. */
  lemma {:induction false} SortIsStable(rows: seq<Row>, keys: seq<SortKey>, types: seq<ColumnType>, cells: seq<Value>)
    requires TypedRows(rows, types) && KeysIn(keys, |types|)
    ensures Filter(StableSort(rows, keys), Tied(keys, cells)) == Filter(rows, Tied(keys, cells))
    decreases |rows|
  {
    hide TypedRow, Insert, KeysIn, Filter, Tied;
    if rows != [] {
      var n, tied := |rows| - 1, Tied(keys, cells);
      SortIsStable(rows[..n], keys, types, cells);
      TypedPermutation(rows[..n], StableSort(rows[..n], keys), types);
      InsertStable(StableSort(rows[..n], keys), rows[n], keys, types, cells);
      assert rows == rows[..n] + [rows[n]];
      FilterAppend(rows[..n], [rows[n]], tied);
    }
  }

  // ---- what the order says about the rows themselves ----

  /** The two rows hold the same in the first `n` sort columns. */
  predicate Agree(a: Row, b: Row, keys: seq<SortKey>, n: nat) {
    n <= |keys| && forall e :: 0 <= e < n ==> keys[e].0 < |a| && keys[e].0 < |b| && a[keys[e].0] == b[keys[e].0]
  }

  /** They first differ in sort column `d`, and there `a` has the lower value if that
      column is ascending, the higher one if it is descending. */
  ghost predicate DecidedAt(a: Row, b: Row, keys: seq<SortKey>, d: nat) {
    && d < |keys| && Agree(a, b, keys, d)
    && var (c, descending) := keys[d];
    && c < |a| && c < |b| && if descending then ComesBefore(b[c], a[c]) else ComesBefore(a[c], b[c])
  }

  /** `a` may stand in front of `b`. */
  ghost predicate InPlace(a: Row, b: Row, keys: seq<SortKey>) {
    Agree(a, b, keys, |keys|) || exists d: nat :: DecidedAt(a, b, keys, d)
  }

  /** The first sort column decides, or the rest do. */
  lemma FirstDecides(a: Row, b: Row, keys: seq<SortKey>)
    requires keys != [] && keys[0].0 < |a| && keys[0].0 < |b|
    ensures InPlace(a, b, keys) <==> DecidedAt(a, b, keys, 0) || (a[keys[0].0] == b[keys[0].0] && InPlace(a, b, keys[1..]))
  {
    hide ComesBefore;
    var rest := keys[1..];
    assert forall e :: 0 < e < |keys| ==> keys[e] == rest[e - 1];
    assert forall n: nat :: n < |keys| && a[keys[0].0] == b[keys[0].0] ==>
      (Agree(a, b, keys, n + 1) <==> Agree(a, b, rest, n));
    if a[keys[0].0] == b[keys[0].0] {
      forall d: nat
        ensures DecidedAt(a, b, keys, d + 1) <==> DecidedAt(a, b, rest, d)
      {}
      if InPlace(a, b, keys) && !Agree(a, b, keys, |keys|) {
        var d: nat :| DecidedAt(a, b, keys, d);
        assert d > 0 ==> DecidedAt(a, b, rest, d - 1);
      }
      if InPlace(a, b, rest) && !Agree(a, b, rest, |rest|) {
        var d: nat :| DecidedAt(a, b, rest, d);
        assert DecidedAt(a, b, keys, d + 1);
      }
    } else {
      assert forall n: nat :: n > 0 ==> !Agree(a, b, keys, n);
      assert forall d: nat :: d > 0 ==> !DecidedAt(a, b, keys, d);
    }
  }

  lemma SortCellsRest(row: Row, keys: seq<SortKey>)
    requires keys != []
    ensures SortCells(row, keys)[1..] == SortCells(row, keys[1..])
  {}

  /** The comparison closure lets `a` stand in front of `b` exactly if it may. */
  lemma {:induction false} BeforeMeans(a: Row, b: Row, keys: seq<SortKey>, types: seq<ColumnType>)
    requires TypedRow(a, types) && TypedRow(b, types) && KeysIn(keys, |types|)
    ensures RowBefore(a, b, keys) <==> InPlace(a, b, keys)
    decreases |keys|
  {
    hide HasType, ValueOrdering, ComesBefore, InPlace;
    if keys == [] {
      NoKeys(a, b);
    } else {
      var c := keys[0].0;
      OrderMeans(a[c], b[c], types[c]);
      OrderEqual(a[c], b[c], types[c]);
      SortCellsRest(a, keys);
      SortCellsRest(b, keys);
      BeforeMeans(a, b, keys[1..], types);
      FirstDecides(a, b, keys);
      assert Agree(a, b, keys, 0);
    }
  }

  lemma NoKeys(a: Row, b: Row)
    ensures InPlace(a, b, []) && RowBefore(a, b, [])
  {}

  /** Every row may stand in front of every later one. */
  ghost predicate WellOrdered(rows: seq<Row>, keys: seq<SortKey>) {
    forall i, j :: 0 <= i < j < |rows| ==> InPlace(rows[i], rows[j], keys)
  }

  lemma SortedMeans(rows: seq<Row>, keys: seq<SortKey>, types: seq<ColumnType>)
    requires TypedRows(rows, types) && KeysIn(keys, |types|)
    ensures SortedRows(rows, keys) <==> WellOrdered(rows, keys)
  {
    hide TypedRow, KeysIn, SortCells, Before, InPlace;
    var cells := AllCells(rows, keys);
    forall i, j | 0 <= i < j < |rows|
      ensures Before(cells[i], cells[j], keys) <==> InPlace(rows[i], rows[j], keys)
    {
      BeforeMeans(rows[i], rows[j], keys, types);
      assert RowBefore(rows[i], rows[j], keys) <==> Before(cells[i], cells[j], keys);
    }
  }

  /** The stable sort: the same rows, in order. */
  lemma SortMeans(rows: seq<Row>, keys: seq<SortKey>, types: seq<ColumnType>)
    requires TypedRows(rows, types) && KeysIn(keys, |types|)
    ensures multiset(StableSort(rows, keys)) == multiset(rows) && WellOrdered(StableSort(rows, keys), keys)
  {
    hide TypedRow, KeysIn, StableSort, SortedRows, WellOrdered;
    StableSortSorts(rows, keys, types);
    SortedMeans(StableSort(rows, keys), keys, types);
  }

  // ---- the page ----

  /** What `select_nth_unstable_by(n)` promises about the rows it leaves behind. */
  ghost predicate Partitioned(rows: seq<Row>, made: seq<Row>, n: nat, keys: seq<SortKey>) {
    && multiset(made) == multiset(rows) && n < |made| == |rows|
    && (forall i :: 0 <= i < n ==> RowBefore(made[i], made[n], keys))
    && (forall i :: n < i < |made| ==> RowBefore(made[n], made[i], keys))
  }

  /** Skip `offset` rows, then take `limit`. */
  function Slice<T>(rows: seq<T>, offset: nat, limit: nat): (r: seq<T>) {
    var rest := if offset <= |rows| then rows[offset..] else [];
    if limit <= |rest| then rest[..limit] else rest
  }

  /** Sorting the kept part of a partition gives the sort cells of the full sort's first
      rows, whichever rows the partition kept. */
  lemma KeptCells(rows: seq<Row>, made: seq<Row>, keep: nat, keys: seq<SortKey>, types: seq<ColumnType>)
    requires TypedRows(rows, types) && KeysIn(keys, |types|)
    requires 0 < keep && Partitioned(rows, made, keep - 1, keys)
    ensures multiset(made[..keep]) <= multiset(rows)
    ensures AllCells(StableSort(made[..keep], keys), keys) == AllCells(StableSort(rows, keys), keys)[..keep]
  {
    hide TypedRow, KeysIn, SortCells, RowBefore, SortedRows, StableSort, AllCells;
    var kept, rest := made[..keep], made[keep..];
    assert made == kept + rest;
    TypedPermutation(rows, made, types);
    TypedPermutation(made, kept, types);
    TypedPermutation(made, rest, types);
    var a, b, full := StableSort(kept, keys), StableSort(rest, keys), StableSort(rows, keys);
    StableSortSorts(kept, keys, types);
    StableSortSorts(rest, keys, types);
    StableSortSorts(rows, keys, types);
    AcrossPivot(kept, rest, a, b, keys, types);
    SortedConcat(a, b, keys);
    assert multiset(a + b) == multiset(full);
    TypedPermutation(rows, a + b, types);
    SameSortedCells(a + b, full, keys, types);
    CellsAppend(a, b, keys);
  }

  /** Everything kept may stand before everything dropped. */
  lemma AcrossPivot(kept: seq<Row>, rest: seq<Row>, a: seq<Row>, b: seq<Row>, keys: seq<SortKey>, types: seq<ColumnType>)
    requires TypedRows(kept, types) && TypedRows(rest, types) && KeysIn(keys, |types|) && kept != []
    requires forall i :: 0 <= i < |kept| - 1 ==> RowBefore(kept[i], kept[|kept| - 1], keys)
    requires forall i :: 0 <= i < |rest| ==> RowBefore(kept[|kept| - 1], rest[i], keys)
    requires multiset(a) == multiset(kept) && multiset(b) == multiset(rest)
    ensures forall i, j :: 0 <= i < |a| && 0 <= j < |b| ==> RowBefore(a[i], b[j], keys)
  {
    hide TypedRow, RowBefore, KeysIn;
    var pivot := kept[|kept| - 1];
    forall i, j | 0 <= i < |a| && 0 <= j < |b|
      ensures RowBefore(a[i], b[j], keys)
    {
      assert a[i] in multiset(a) && b[j] in multiset(b);
      var x :| 0 <= x < |kept| && kept[x] == a[i];
      var y :| 0 <= y < |rest| && rest[y] == b[j];
      if x < |kept| - 1 {
        RowsTransitive(kept[x], pivot, rest[y], keys, types);
      }
    }
  }

  /** `select_nth_unstable_by`, by its contract only: callers may rely on nothing else. */
  method SelectNth(rows: seq<Row>, n: nat, keys: seq<SortKey>, ghost types: seq<ColumnType>) returns (made: seq<Row>)
    requires n < |rows| && TypedRows(rows, types) && KeysIn(keys, |types|)
    ensures Partitioned(rows, made, n, keys)
  {
    hide TypedRow, KeysIn, RowBefore;
    made := StableSort(rows, keys);
    StableSortSorts(rows, keys, types);
    FrontSorted(made, n, keys);
    FrontSorted(made, n + 1, keys);
  }

  /** How many of `n` rows a page holds. */
  function PageSize(n: nat, limit: Option<u64>, offset: Option<u64>): nat {
    var skip := if offset.Some? then offset.value else 0;
    var rest := if skip <= n then n - skip else 0;
    if limit.Some? && limit.value < rest then limit.value else rest
  }

  /** The page goes up to the last of `n` rows. */
  predicate ReachesEnd(n: nat, limit: Option<u64>, offset: Option<u64>) {
    limit.None? || limit.value + (if offset.Some? then offset.value else 0) >= n
  }

  /** The page holds rows of `rows`, and it is in the sort columns what `full` is at the
      positions after the offset. */
  ghost predicate PageOf(page: seq<Row>, full: seq<Row>, keys: seq<SortKey>, limit: Option<u64>, offset: Option<u64>) {
    && multiset(page) <= multiset(full)
    && |page| == PageSize(|full|, limit, offset)
    && var skip := if offset.Some? then offset.value else 0;
    && forall i :: 0 <= i < |page| ==> skip + i < |full| && Agree(page[i], full[skip + i], keys, |keys|)
  }

  /** The page is exactly those rows of `full`. */
  predicate RowsOf(page: seq<Row>, full: seq<Row>, limit: Option<u64>, offset: Option<u64>) {
    && |page| == PageSize(|full|, limit, offset)
    && var skip := if offset.Some? then offset.value else 0;
    && forall i :: 0 <= i < |page| ==> skip + i < |full| && page[i] == full[skip + i]
  }

  lemma SliceAt<T>(xs: seq<T>, ys: seq<T>, limit: Option<u64>, offset: Option<u64>)
    requires |xs| <= U64_MAX
    requires ys == Slice(xs, if offset.Some? then offset.value else 0, if limit.Some? then limit.value else U64_MAX)
    ensures |ys| == PageSize(|xs|, limit, offset)
    ensures var skip: nat := if offset.Some? then offset.value else 0;
      forall i :: 0 <= i < |ys| ==> skip + i < |xs| && ys[i] == xs[skip + i]
  {}

  lemma SliceIsPage(rows: seq<Row>, page: seq<Row>, limit: Option<u64>, offset: Option<u64>)
    requires |rows| <= U64_MAX
    requires page == Slice(rows, if offset.Some? then offset.value else 0, if limit.Some? then limit.value else U64_MAX)
    ensures RowsOf(page, rows, limit, offset)
  {
    hide Slice;
    SliceAt(rows, page, limit, offset);
  }

  lemma CellsArePage(full: seq<Row>, page: seq<Row>, keys: seq<SortKey>, limit: Option<u64>, offset: Option<u64>,
                     types: seq<ColumnType>)
    requires TypedRows(full, types) && KeysIn(keys, |types|) && |full| <= U64_MAX && multiset(page) <= multiset(full)
    requires AllCells(page, keys)
          == Slice(AllCells(full, keys), if offset.Some? then offset.value else 0, if limit.Some? then limit.value else U64_MAX)
    ensures PageOf(page, full, keys, limit, offset)
  {
    hide TypedRow, SortCells, Slice, Agree, KeysIn, AllCells;
    TypedPermutation(full, page, types);
    var skip: nat := if offset.Some? then offset.value else 0;
    SliceAt(AllCells(full, keys), AllCells(page, keys), limit, offset);
    forall i | 0 <= i < |page|
      ensures skip + i < |full| && Agree(page[i], full[skip + i], keys, |keys|)
    {
      assert AllCells(page, keys)[i] == AllCells(full, keys)[skip + i];
      SameCellsAgree(page[i], full[skip + i], keys, types);
    }
  }

  lemma SameCellsAgree(a: Row, b: Row, keys: seq<SortKey>, types: seq<ColumnType>)
    requires TypedRow(a, types) && TypedRow(b, types) && KeysIn(keys, |types|) && SortCells(a, keys) == SortCells(b, keys)
    ensures Agree(a, b, keys, |keys|)
  {
    hide HasType;
    assert forall e :: 0 <= e < |keys| ==> a[keys[e].0] == SortCells(a, keys)[e] && b[keys[e].0] == SortCells(b, keys)[e];
  }

  lemma AgreedInPlace(a: Row, b: Row, x: Row, y: Row, keys: seq<SortKey>)
    requires Agree(a, x, keys, |keys|) && Agree(b, y, keys, |keys|) && InPlace(x, y, keys)
    ensures InPlace(a, b, keys)
  {
    hide ComesBefore;
    if !Agree(x, y, keys, |keys|) {
      var d: nat :| DecidedAt(x, y, keys, d);
      assert DecidedAt(a, b, keys, d);
    }
  }

  /** So the page itself is in order. */
  lemma PageInOrder(page: seq<Row>, full: seq<Row>, keys: seq<SortKey>, limit: Option<u64>, offset: Option<u64>)
    requires WellOrdered(full, keys) && PageOf(page, full, keys, limit, offset)
    ensures WellOrdered(page, keys)
  {
    hide Agree, InPlace;
    var skip := if offset.Some? then offset.value else 0;
    forall i, j | 0 <= i < j < |page|
      ensures InPlace(page[i], page[j], keys)
    {
      AgreedInPlace(page[i], page[j], full[skip + i], full[skip + j], keys);
    }
  }

  /** `sort_and_paginate`.  With sort keys there is an order `full` of all the rows, every
      row in place before every later one, and the page holds rows that agree in the sort
      columns with those at its positions, for every LIMIT and OFFSET; if nothing is cut
      off it holds those very rows, ties in the order they came in.  Without sort keys it
      holds the rows at its positions. */
  method SortAndPaginate(rows: seq<Row>, keys: seq<SortKey>, limit: Option<u64>, offset: Option<u64>,
                         ghost types: seq<ColumnType>) returns (page: seq<Row>, ghost full: seq<Row>)
    requires TypedRows(rows, types) && KeysIn(keys, |types|) && |rows| <= U64_MAX
    ensures keys == [] ==> RowsOf(page, rows, limit, offset)
    ensures keys != [] ==> multiset(full) == multiset(rows) && WellOrdered(full, keys) && PageOf(page, full, keys, limit, offset)
    ensures keys != [] && ReachesEnd(|rows|, limit, offset) ==> RowsOf(page, full, limit, offset)
    ensures keys != [] ==> WellOrdered(page, keys)
    ensures full == StableSort(rows, keys)
  {
    hide TypedRow, KeysIn, RowBefore, SortedRows, StableSort, SortCells, WellOrdered, PageOf, RowsOf, AllCells;
    var skip: nat := if offset.Some? then offset.value else 0;
    var take: nat := if limit.Some? then limit.value else U64_MAX;
    var current := rows;
    if keys != [] {
      var keep := Min(skip + take, U64_MAX);
      if keep > 0 && keep < |current| {
        current := SelectNth(current, keep - 1, keys, types);
        KeptCells(rows, current, keep, keys, types);
        current := current[..keep];
      }
      current := StableSort(current, keys);
      PageCells(current, StableSort(rows, keys), keep, keys, skip, take);
    }
    page := Slice(current, skip, take);
    SliceSub(current, skip, take);
    full := StableSort(rows, keys);
    SliceIsPage(current, page, limit, offset);
    if keys != [] {
      SortMeans(rows, keys, types);
      TypedPermutation(rows, full, types);
      CellsArePage(full, page, keys, limit, offset, types);
      PageInOrder(page, full, keys, limit, offset);
    }
  }

  lemma SliceSub(rows: seq<Row>, skip: nat, take: nat)
    ensures multiset(Slice(rows, skip, take)) <= multiset(rows)
  {
    if skip <= |rows| {
      var rest := rows[skip..];
      assert rows == rows[..skip] + rest;
      if take <= |rest| {
        assert rest == rest[..take] + rest[take..];
      }
    }
  }

  /** Cutting at `keep` does not change the page. */
  lemma PageCells(current: seq<Row>, full: seq<Row>, keep: nat, keys: seq<SortKey>, skip: nat, take: nat)
    requires keep == Min(skip + take, U64_MAX) && |full| <= U64_MAX
    requires current == full ||
      (keep < |full| && AllCells(current, keys) == AllCells(full, keys)[..keep])
    ensures AllCells(Slice(current, skip, take), keys) == Slice(AllCells(full, keys), skip, take)
  {
    hide SortCells;
    var cs, fs := AllCells(current, keys), AllCells(full, keys);
    SliceCells(current, keys, skip, take);
    if current != full {
      assert keep == skip + take;
      assert fs[..keep][skip..] == fs[skip..][..take];
    }
  }

  lemma SliceCells(rows: seq<Row>, keys: seq<SortKey>, skip: nat, take: nat)
    ensures AllCells(Slice(rows, skip, take), keys) == Slice(AllCells(rows, keys), skip, take)
  {
    hide SortCells;
  }
}
