/** GROUP BY: rows spread over groups by key, groups in key order, one output row each. */
module Grouping {
  import opened Basics
  import opened Values
  import opened Conversions
  import opened Ordering
  import Sorting
  import opened Aggregates

  /** The cells of the GROUP BY columns. */
  function GroupKey(row: Row, cols: seq<nat>): (key: Row)
    ensures |key| == |cols|
  {
    seq(|cols|, i requires 0 <= i < |cols| => Cell(row, cols[i]))
  }

  /** The rows with one key, in their order. */
  function Group(rows: seq<Row>, cols: seq<nat>, key: Row): seq<Row> {
    Filter(rows, row => GroupKey(row, cols) == key)
  }

  /** The keys there is a group for; without GROUP BY there is always exactly one. */
  function KeySet(rows: seq<Row>, cols: seq<nat>): set<Row> {
    if cols == [] then {[]} else set row | row in rows :: GroupKey(row, cols)
  }

  // ---- the grouping loop ----

  ghost predicate Grouped(groups: map<Row, seq<Row>>, rows: seq<Row>, cols: seq<nat>) {
    && groups.Keys == KeySet(rows, cols)
    && forall key :: key in groups ==> groups[key] == Group(rows, cols, key)
  }

  method GroupRows(rows: seq<Row>, cols: seq<nat>) returns (groups: map<Row, seq<Row>>)
    ensures Grouped(groups, rows, cols)
  {
    if cols == [] {
      groups := map[[] := rows];
      AllInOne(rows);
      return;
    }
    groups := map[];
    for i := 0 to |rows|
      invariant Grouped(groups, rows[..i], cols)
    {
      var row := rows[i];
      var key := GroupKey(row, cols);
      assert rows[..i + 1] == rows[..i] + [row];
      OneMoreRow(rows[..i], row, cols);
      if key !in groups {
        EmptyGroup(rows[..i], cols, key);
      }
      groups := groups[key := (if key in groups then groups[key] else []) + [row]];
    }
    assert rows[..|rows|] == rows;
  }

  lemma {:induction false} AllInOne(rows: seq<Row>)
    ensures Group(rows, [], []) == rows
    decreases |rows|
  {
    if rows != [] {
      assert GroupKey(rows[0], []) == [];
      AllInOne(rows[1..]);
    }
  }

  lemma OneMoreRow(rows: seq<Row>, row: Row, cols: seq<nat>)
    requires cols != []
    ensures KeySet(rows + [row], cols) == KeySet(rows, cols) + {GroupKey(row, cols)}
    ensures forall key ::
      Group(rows + [row], cols, key) == Group(rows, cols, key) + if key == GroupKey(row, cols) then [row] else []
  {
    forall key
      ensures Group(rows + [row], cols, key) == Group(rows, cols, key) + if key == GroupKey(row, cols) then [row] else []
    {
      GroupGains(rows, row, cols, key);
    }
    assert forall r :: r in rows + [row] <==> r in rows || r == row;
  }

  lemma {:induction false} EmptyGroup(rows: seq<Row>, cols: seq<nat>, key: Row)
    requires forall row :: row in rows ==> GroupKey(row, cols) != key
    ensures Group(rows, cols, key) == []
    decreases |rows|
  {
    if rows != [] {
      assert rows[0] in rows;
      EmptyGroup(rows[1..], cols, key);
    }
  }

  // ---- conservation ----

  /** The groups one after the other. */
  function InGroups(rows: seq<Row>, cols: seq<nat>, keys: seq<Row>): seq<Row> {
    if keys == [] then [] else InGroups(rows, cols, keys[..|keys| - 1]) + Group(rows, cols, keys[|keys| - 1])
  }

  /** COUNT(*) of every group, added up. */
  function CountAll(rows: seq<Row>, cols: seq<nat>, keys: seq<Row>): nat {
    if keys == [] then 0 else CountAll(rows, cols, keys[..|keys| - 1]) + |Group(rows, cols, keys[|keys| - 1])|
  }

  lemma {:induction false} CountIsLength(rows: seq<Row>, cols: seq<nat>, keys: seq<Row>)
    ensures CountAll(rows, cols, keys) == |InGroups(rows, cols, keys)|
    decreases |keys|
  {
    if keys != [] {
      CountIsLength(rows, cols, keys[..|keys| - 1]);
    }
  }

  lemma {:induction false} NoRowsNoGroups(cols: seq<nat>, keys: seq<Row>)
    ensures InGroups([], cols, keys) == []
    decreases |keys|
  {
    if keys != [] {
      NoRowsNoGroups(cols, keys[..|keys| - 1]);
    }
  }

  /** A row goes into the one group of its key, if that is among the keys. */
  lemma {:induction false} RowJoinsItsGroup(rows: seq<Row>, row: Row, cols: seq<nat>, keys: seq<Row>)
    requires forall i, j :: 0 <= i < j < |keys| ==> keys[i] != keys[j]
    ensures multiset(InGroups(rows + [row], cols, keys))
         == multiset(InGroups(rows, cols, keys)) + if GroupKey(row, cols) in keys then multiset{row} else multiset{}
    decreases |keys|
  {
    hide Group;
    if keys != [] {
      var n := |keys| - 1;
      RowJoinsItsGroup(rows, row, cols, keys[..n]);
      GroupGains(rows, row, cols, keys[n]);
      assert keys == keys[..n] + [keys[n]];
      assert keys[n] !in keys[..n];
    }
  }

  lemma GroupGains(rows: seq<Row>, row: Row, cols: seq<nat>, key: Row)
    ensures Group(rows + [row], cols, key) == Group(rows, cols, key) + if key == GroupKey(row, cols) then [row] else []
  {
    FilterAppend(rows, [row], r => GroupKey(r, cols) == key);
  }

  /** Every row lands in exactly one group: whatever order the keys come in, the groups
      together hold the rows, each once. */
  lemma {:induction false} GroupsConserve(rows: seq<Row>, cols: seq<nat>, keys: seq<Row>)
    requires forall i, j :: 0 <= i < j < |keys| ==> keys[i] != keys[j]
    requires forall row :: row in rows ==> GroupKey(row, cols) in keys
    ensures multiset(InGroups(rows, cols, keys)) == multiset(rows)
    ensures CountAll(rows, cols, keys) == |rows|
    decreases |rows|
  {
    CountIsLength(rows, cols, keys);
    if rows == [] {
      NoRowsNoGroups(cols, keys);
    } else {
      hide InGroups, CountAll;
      var n := |rows| - 1;
      assert rows == rows[..n] + [rows[n]];
      GroupsConserve(rows[..n], cols, keys);
      RowJoinsItsGroup(rows[..n], rows[n], cols, keys);
      assert rows[n] in rows;
      assert |multiset(InGroups(rows, cols, keys))| == |InGroups(rows, cols, keys)|;
      assert |multiset(rows)| == |rows|;
    }
  }

  lemma KeysCover(rows: seq<Row>, cols: seq<nat>, keys: seq<Row>)
    requires Enumerates(keys, KeySet(rows, cols))
    ensures forall row :: row in rows ==> GroupKey(row, cols) in keys
  {
    forall row | row in rows
      ensures GroupKey(row, cols) in keys
    {
      assert cols == [] ==> GroupKey(row, cols) == [];
      assert GroupKey(row, cols) in KeySet(rows, cols);
      assert GroupKey(row, cols) in (set k | k in keys);
    }
  }

  // ---- the order of the groups ----

  /** Keys are compared cell by cell, ascending. */
  function KeyColumns(n: nat): (r: seq<Sorting.SortKey>)
    ensures |r| == n && forall i :: 0 <= i < n ==> r[i] == (i, false)
  {
    seq(n, i => (i, false))
  }

  ghost predicate InKeyOrder(keys: seq<Row>, all: set<Row>, n: nat) {
    Enumerates(keys, all) && Sorting.SortedRows(keys, KeyColumns(n))
  }

  lemma OwnCells(key: Row)
    ensures Sorting.SortCells(key, KeyColumns(|key|)) == key
  {}

  lemma EnumeratesMultiset(xs: seq<Row>, ys: seq<Row>, all: set<Row>)
    requires Enumerates(xs, all) && Enumerates(ys, all)
    ensures multiset(xs) == multiset(ys)
  {
    OnceEach(xs, all);
    OnceEach(ys, all);
  }

  lemma WithoutLast(xs: seq<Row>, all: set<Row>)
    requires Enumerates(xs, all) && xs != []
    ensures var n := |xs| - 1; xs[n] in all && Enumerates(xs[..n], all - {xs[n]})
  {
    var n := |xs| - 1;
    assert xs[n] in (set k | k in xs);
    forall k
      ensures k in xs[..n] <==> k in all && k != xs[n]
    {
      assert k in all <==> k in (set x | x in xs);
      assert k in xs <==> k in xs[..n] || k == xs[n];
    }
  }

  lemma {:induction false} OnceEach(xs: seq<Row>, all: set<Row>)
    requires Enumerates(xs, all)
    ensures multiset(xs) == multiset(all)
    decreases |xs|
  {
    if xs == [] {
      assert all == {};
    } else {
      var n := |xs| - 1;
      WithoutLast(xs, all);
      hide Enumerates;
      assert xs == xs[..n] + [xs[n]];
      OnceEach(xs[..n], all - {xs[n]});
      assert multiset(all) == multiset(all - {xs[n]}) + multiset{xs[n]};
    }
  }

  /** For typed keys there is only one order: the output does not depend on how the hash
      table happens to enumerate its keys. */
  lemma OneKeyOrder(xs: seq<Row>, ys: seq<Row>, all: set<Row>, types: seq<ColumnType>)
    requires InKeyOrder(xs, all, |types|) && InKeyOrder(ys, all, |types|)
    requires forall key :: key in all ==> Sorting.TypedRow(key, types)
    ensures xs == ys
  {
    hide Sorting.SortedRows, Sorting.TypedRow, Sorting.SortCells;
    EnumeratesMultiset(xs, ys, all);
    AllKeysTyped(xs, all, types);
    AllKeysTyped(ys, all, types);
    Sorting.SameSortedCells(xs, ys, KeyColumns(|types|), types);
    assert |multiset(xs)| == |xs| && |multiset(ys)| == |ys|;
    forall i | 0 <= i < |xs|
      ensures xs[i] == ys[i]
    {
      assert Sorting.AllCells(xs, KeyColumns(|types|))[i] == Sorting.AllCells(ys, KeyColumns(|types|))[i];
      TypedWidth(xs[i], types);
      TypedWidth(ys[i], types);
      OwnCells(xs[i]);
      OwnCells(ys[i]);
    }
  }

  lemma TypedWidth(key: Row, types: seq<ColumnType>)
    requires Sorting.TypedRow(key, types)
    ensures |key| == |types|
  {}

  lemma AllKeysTyped(keys: seq<Row>, all: set<Row>, types: seq<ColumnType>)
    requires Enumerates(keys, all) && forall key :: key in all ==> Sorting.TypedRow(key, types)
    ensures Sorting.TypedRows(keys, types) && Sorting.KeysIn(KeyColumns(|types|), |types|)
  {
    hide Sorting.TypedRow;
    forall i | 0 <= i < |keys|
      ensures Sorting.TypedRow(keys[i], types)
    {
      assert keys[i] in (set k | k in keys);
    }
  }

  /** The keys of the hash table in whatever order it gives them, then sorted. */
  method SortedKeys(groups: map<Row, seq<Row>>, ghost types: seq<ColumnType>, width: nat) returns (keys: seq<Row>)
    requires width == |types| && forall key :: key in groups ==> Sorting.TypedRow(key, types)
    ensures InKeyOrder(keys, groups.Keys, width)
  {
    hide Sorting.TypedRow, Sorting.SortedRows, Sorting.StableSort;
    var todo := groups.Keys;
    keys := [];
    while todo != {}
      invariant todo <= groups.Keys && Enumerates(keys, groups.Keys - todo)
      decreases |todo|
    {
      var key :| key in todo;
      EnumerateMore(keys, groups.Keys - todo, key);
      assert (groups.Keys - todo) + {key} == groups.Keys - (todo - {key});
      keys := keys + [key];
      todo := todo - {key};
    }
    assert groups.Keys - todo == groups.Keys;
    AllKeysTyped(keys, groups.Keys, types);
    Sorting.StableSortSorts(keys, KeyColumns(width), types);
    StillEnumerates(keys, Sorting.StableSort(keys, KeyColumns(width)), groups.Keys);
    keys := Sorting.StableSort(keys, KeyColumns(width));
  }

  lemma StillEnumerates(xs: seq<Row>, ys: seq<Row>, all: set<Row>)
    requires Enumerates(xs, all) && multiset(xs) == multiset(ys)
    ensures Enumerates(ys, all)
  {
    OnceEach(xs, all);
    forall i, j | 0 <= i < j < |ys|
      ensures ys[i] != ys[j]
    {
      if ys[i] == ys[j] {
        Twice(ys, i, j);
      }
    }
    assert forall k :: k in ys <==> k in multiset(ys);
  }

  lemma Twice(ys: seq<Row>, i: nat, j: nat)
    requires i < j < |ys| && ys[i] == ys[j]
    ensures multiset(ys)[ys[i]] >= 2
  {
    assert ys == ys[..j] + [ys[j]] + ys[j + 1..];
    assert ys[..j] == ys[..i] + [ys[i]] + ys[i + 1..j];
  }

  // ---- the output ----

  datatype OutputItem = GroupColumn(pos: nat) | Aggregate(fn: AggregateFn, arg: Option<(nat, ColumnType)>)

  function ItemValue(item: OutputItem, key: Row, group: seq<Row>): Result<Value>
    requires |group| <= I64_MAX
  {
    match item
    case GroupColumn(pos) => Ok(Cell(key, pos))
    case Aggregate(fn, arg) => AggregateValue(fn, arg, group)
  }

  function OutputRow(items: seq<OutputItem>, key: Row, group: seq<Row>): Result<Row>
    requires |group| <= I64_MAX
  {
    if items == [] then Ok([])
    else
      var front :- OutputRow(items[..|items| - 1], key, group);
      var last :- ItemValue(items[|items| - 1], key, group);
      Ok(front + [last])
  }

  /** One row per key, in the given order of keys. */
  function Output(rows: seq<Row>, cols: seq<nat>, items: seq<OutputItem>, keys: seq<Row>): Result<seq<Row>>
    requires |rows| <= I64_MAX
  {
    if keys == [] then Ok([])
    else
      var n := |keys| - 1;
      GroupNoLarger(rows, cols, keys[n]);
      var front :- Output(rows, cols, items, keys[..n]);
      var last :- OutputRow(items, keys[n], Group(rows, cols, keys[n]));
      Ok(front + [last])
  }

  lemma GroupNoLarger(rows: seq<Row>, cols: seq<nat>, key: Row)
    ensures |Group(rows, cols, key)| <= |rows|
  {
    FilterNoLarger(rows, row => GroupKey(row, cols) == key);
  }

  lemma {:induction false} FilterNoLarger(rows: seq<Row>, p: Row -> bool)
    ensures |Filter(rows, p)| <= |rows|
    decreases |rows|
  {
    if rows != [] {
      FilterNoLarger(rows[1..], p);
    }
  }

  method EvaluateRow(items: seq<OutputItem>, key: Row, group: seq<Row>) returns (r: Result<Row>)
    requires |group| <= I64_MAX
    ensures r == OutputRow(items, key, group)
  {
    hide AggregateValue;
    var row: Row := [];
    for i := 0 to |items|
      invariant OutputRow(items[..i], key, group) == Ok(row)
    {
      assert items[..i + 1][..i] == items[..i] && items[..i + 1][i] == items[i];
      var value: Result<Value>;
      match items[i] {
        case GroupColumn(pos) => value := Ok(Cell(key, pos));
        case Aggregate(fn, arg) => value := EvaluateAggregate(fn, arg, group);
      }
      if value.Err? {
        RowFails(items, i + 1, key, group);
        return Err(value.error);
      }
      row := row + [value.value];
    }
    assert items[..|items|] == items;
    r := Ok(row);
  }

  lemma {:induction false} RowFails(items: seq<OutputItem>, i: nat, key: Row, group: seq<Row>)
    requires i <= |items| && |group| <= I64_MAX && OutputRow(items[..i], key, group).Err?
    ensures OutputRow(items, key, group) == Err(OutputRow(items[..i], key, group).error)
    decreases |items|
  {
    hide ItemValue;
    if i == |items| {
      assert items[..i] == items;
    } else {
      var n := |items| - 1;
      assert items[..n][..i] == items[..i];
      RowFails(items[..n], i, key, group);
    }
  }

  /** `execute_aggregate` after its columns are resolved: the groups, in the order of
      their keys, one output row each, or the first error. */
  method ExecuteGroups(rows: seq<Row>, cols: seq<nat>, items: seq<OutputItem>, ghost types: seq<ColumnType>)
    returns (r: Result<seq<Row>>)
    requires |rows| <= I64_MAX && |types| == |cols|
    requires forall row :: row in rows ==> Sorting.TypedRow(GroupKey(row, cols), types)
    ensures exists keys :: InKeyOrder(keys, KeySet(rows, cols), |cols|)
    ensures forall keys :: InKeyOrder(keys, KeySet(rows, cols), |cols|) ==> r == Output(rows, cols, items, keys)
  {
    hide InKeyOrder, Output, Sorting.TypedRow, KeySet;
    TypedKeys(rows, cols, types);
    var groups := GroupRows(rows, cols);
    var sorted := SortedKeys(groups, types, |cols|);
    forall keys | InKeyOrder(keys, KeySet(rows, cols), |cols|)
      ensures keys == sorted
    {
      OneKeyOrder(keys, sorted, KeySet(rows, cols), types);
    }
    r := EvaluateGroups(rows, cols, items, groups, sorted);
  }

  /** The output loop over the groups. */
  method EvaluateGroups(rows: seq<Row>, cols: seq<nat>, items: seq<OutputItem>, groups: map<Row, seq<Row>>, keys: seq<Row>)
    returns (r: Result<seq<Row>>)
    requires |rows| <= I64_MAX && Grouped(groups, rows, cols) && InKeyOrder(keys, groups.Keys, |cols|)
    ensures r == Output(rows, cols, items, keys)
  {
    hide Sorting.SortedRows, OutputRow;
    var output: seq<Row> := [];
    for i := 0 to |keys|
      invariant Output(rows, cols, items, keys[..i]) == Ok(output)
    {
      assert keys[..i + 1][..i] == keys[..i];
      assert keys[i] in (set k | k in keys);
      GroupNoLarger(rows, cols, keys[i]);
      var row := EvaluateRow(items, keys[i], groups[keys[i]]);
      if row.Err? {
        OutputFails(rows, cols, items, keys, i + 1);
        return Err(row.error);
      }
      output := output + [row.value];
    }
    assert keys[..|keys|] == keys;
    r := Ok(output);
  }

  lemma TypedKeys(rows: seq<Row>, cols: seq<nat>, types: seq<ColumnType>)
    requires |types| == |cols| && forall row :: row in rows ==> Sorting.TypedRow(GroupKey(row, cols), types)
    ensures forall key :: key in KeySet(rows, cols) ==> Sorting.TypedRow(key, types)
  {}

  lemma {:induction false} OutputFails(rows: seq<Row>, cols: seq<nat>, items: seq<OutputItem>, keys: seq<Row>, i: nat)
    requires i <= |keys| && |rows| <= I64_MAX && Output(rows, cols, items, keys[..i]).Err?
    ensures Output(rows, cols, items, keys) == Err(Output(rows, cols, items, keys[..i]).error)
    decreases |keys|
  {
    hide OutputRow;
    if i == |keys| {
      assert keys[..i] == keys;
    } else {
      var n := |keys| - 1;
      assert keys[..n][..i] == keys[..i];
      OutputFails(rows, cols, items, keys[..n], i);
    }
  }

  /** GROUP BY as a whole: one output, whatever the hash table does, and every filtered
      row counted in exactly one group. */
  lemma GroupByConserves(rows: seq<Row>, cols: seq<nat>, types: seq<ColumnType>, keys: seq<Row>, others: seq<Row>)
    requires |types| == |cols| && forall row :: row in rows ==> Sorting.TypedRow(GroupKey(row, cols), types)
    requires InKeyOrder(keys, KeySet(rows, cols), |cols|) && InKeyOrder(others, KeySet(rows, cols), |cols|)
    ensures keys == others
    ensures multiset(InGroups(rows, cols, keys)) == multiset(rows) && CountAll(rows, cols, keys) == |rows|
  {
    hide Sorting.TypedRow, Sorting.SortedRows, InGroups, CountAll, KeySet;
    TypedKeys(rows, cols, types);
    OneKeyOrder(keys, others, KeySet(rows, cols), types);
    KeysCover(rows, cols, keys);
    GroupsConserve(rows, cols, keys);
  }

  // ---- what the output says about the rows ----

  /** The row holds `key` in the GROUP BY columns, one by one. */
  predicate Shows(row: Row, cols: seq<nat>, key: Row) {
    |key| == |cols| && forall d :: 0 <= d < |cols| ==> Cell(row, cols[d]) == key[d]
  }

  /** Two rows agree on every GROUP BY column. */
  predicate Alike(a: Row, b: Row, cols: seq<nat>) {
    forall d :: 0 <= d < |cols| ==> Cell(a, cols[d]) == Cell(b, cols[d])
  }

  lemma KeyShows(row: Row, cols: seq<nat>, key: Row)
    ensures GroupKey(row, cols) == key <==> Shows(row, cols, key)
  {
    hide Cell;
    var own := GroupKey(row, cols);
    assert forall d :: 0 <= d < |cols| ==> own[d] == Cell(row, cols[d]);
  }

  /** Two rows are in one group exactly if they agree on every GROUP BY column. */
  lemma SameGroup(rows: seq<Row>, cols: seq<nat>, a: Row, b: Row)
    requires a in rows && b in rows
    ensures (exists key :: key in KeySet(rows, cols) && a in Group(rows, cols, key) && b in Group(rows, cols, key))
       <==> Alike(a, b, cols)
  {
    hide Filter, Cell, KeySet;
    var own := GroupKey(a, cols);
    KeyShows(a, cols, own);
    KeyShows(b, cols, own);
    assert Alike(a, b, cols) <==> GroupKey(b, cols) == own;
    forall key
      ensures a in Group(rows, cols, key) <==> key == own
      ensures b in Group(rows, cols, key) <==> key == GroupKey(b, cols)
    {
      InItsGroup(rows, cols, key, a);
      InItsGroup(rows, cols, key, b);
    }
    OwnKey(rows, cols, a);
  }

  lemma OwnKey(rows: seq<Row>, cols: seq<nat>, row: Row)
    requires row in rows
    ensures GroupKey(row, cols) in KeySet(rows, cols)
  {
    assert cols == [] ==> GroupKey(row, cols) == [];
  }

  lemma InItsGroup(rows: seq<Row>, cols: seq<nat>, key: Row, row: Row)
    requires row in rows
    ensures row in Group(rows, cols, key) <==> key == GroupKey(row, cols)
  {
    var p := (r: Row) => GroupKey(r, cols) == key;
    var at := FilterAt(rows, p);
    var kept := Filter(rows, p);
    if row in kept {
      var k :| 0 <= k < |kept| && kept[k] == row;
      assert p(rows[at[k]]);
    }
    if key == GroupKey(row, cols) {
      var b :| 0 <= b < |rows| && rows[b] == row;
      assert b in at;
      var k :| 0 <= k < |at| && at[k] == b;
      assert kept[k] == row;
    }
  }

  /** The first difference is a value that comes first. */
  ghost predicate KeyBefore(a: Row, b: Row) {
    exists d :: 0 <= d < |a| && d < |b| && a[..d] == b[..d] && ComesBefore(a[d], b[d])
  }

  lemma AgreeIsEqual(a: Row, b: Row, n: nat)
    requires |a| == |b| == n
    ensures Sorting.Agree(a, b, KeyColumns(n), n) <==> a == b
  {
    var keys := KeyColumns(n);
    if Sorting.Agree(a, b, keys, n) {
      forall e | 0 <= e < n
        ensures a[e] == b[e]
      {
        assert keys[e].0 == e;
      }
    }
  }

  lemma PlaceIsBefore(a: Row, b: Row, n: nat)
    requires |a| == |b| == n && a != b && Sorting.InPlace(a, b, KeyColumns(n))
    ensures KeyBefore(a, b)
  {
    hide ComesBefore;
    var keys := KeyColumns(n);
    AgreeIsEqual(a, b, n);
    var d: nat :| Sorting.DecidedAt(a, b, keys, d);
    forall e | 0 <= e < d
      ensures a[e] == b[e]
    {
      assert a[keys[e].0] == b[keys[e].0];
    }
    assert a[..d] == b[..d];
  }

  /** The keys of the groups are exactly the values the rows hold in the GROUP BY columns,
      each once, in ascending order of the first column in which they differ. */
  lemma KeysMean(rows: seq<Row>, cols: seq<nat>, types: seq<ColumnType>, keys: seq<Row>)
    requires cols != [] && |types| == |cols| && forall row :: row in rows ==> Sorting.TypedRow(GroupKey(row, cols), types)
    requires InKeyOrder(keys, KeySet(rows, cols), |cols|)
    ensures forall key :: key in keys <==> exists row :: row in rows && Shows(row, cols, key)
    ensures forall i, j :: 0 <= i < j < |keys| ==> KeyBefore(keys[i], keys[j])
  {
    hide Sorting.TypedRow, Sorting.SortedRows, KeyBefore, Shows;
    TypedKeys(rows, cols, types);
    AllKeysTyped(keys, KeySet(rows, cols), types);
    Sorting.SortedMeans(keys, KeyColumns(|cols|), types);
    forall i, j | 0 <= i < j < |keys|
      ensures KeyBefore(keys[i], keys[j])
    {
      TypedWidth(keys[i], types);
      TypedWidth(keys[j], types);
      PlaceIsBefore(keys[i], keys[j], |cols|);
    }
    forall key
      ensures key in keys <==> exists row :: row in rows && Shows(row, cols, key)
    {
      assert key in keys <==> key in (set k | k in keys);
      KeyFrom(rows, cols, key);
    }
  }

  lemma KeyFrom(rows: seq<Row>, cols: seq<nat>, key: Row)
    requires cols != []
    ensures key in KeySet(rows, cols) <==> exists row :: row in rows && Shows(row, cols, key)
  {
    hide Shows, GroupKey;
    forall row
      ensures GroupKey(row, cols) == key <==> Shows(row, cols, key)
    {
      KeyShows(row, cols, key);
    }
  }

  /** One cell of the output: the group's value in a GROUP BY column, or an aggregate over
      exactly its rows. */
  predicate CellMeans(item: OutputItem, key: Row, group: seq<Row>, v: Value)
    requires |group| <= I64_MAX
  {
    match item
    case GroupColumn(pos) => v == Cell(key, pos)
    case Aggregate(fn, arg) => AggregateValue(fn, arg, group) == Ok(v)
  }

  /** An output row has one cell for each item, in order. */
  predicate RowMeans(items: seq<OutputItem>, key: Row, group: seq<Row>, row: Row)
    requires |group| <= I64_MAX
  {
    |row| == |items| && forall j :: 0 <= j < |items| ==> CellMeans(items[j], key, group, row[j])
  }

  lemma {:induction false} OutputRowMeans(items: seq<OutputItem>, key: Row, group: seq<Row>)
    requires |group| <= I64_MAX && OutputRow(items, key, group).Ok?
    ensures RowMeans(items, key, group, OutputRow(items, key, group).value)
    decreases |items|
  {
    hide AggregateValue;
    if items != [] {
      var n := |items| - 1;
      OutputRowMeans(items[..n], key, group);
      assert forall j :: 0 <= j < n ==> items[..n][j] == items[j];
    }
  }

  /** The rows that hold `key`, in order. */
  function RowsShowing(rows: seq<Row>, cols: seq<nat>, key: Row): seq<Row> {
    Filter(rows, row => Shows(row, cols, key))
  }

  lemma {:induction false} GroupShows(rows: seq<Row>, cols: seq<nat>, key: Row)
    ensures Group(rows, cols, key) == RowsShowing(rows, cols, key)
    decreases |rows|
  {
    hide Shows, GroupKey;
    if rows != [] {
      KeyShows(rows[0], cols, key);
      GroupShows(rows[1..], cols, key);
    }
  }

  /** The whole output: one row for each key, in the order of the keys, each made from
      exactly the rows that hold that key. */
  lemma {:induction false} OutputMeans(rows: seq<Row>, cols: seq<nat>, items: seq<OutputItem>, keys: seq<Row>)
    requires |rows| <= I64_MAX && Output(rows, cols, items, keys).Ok?
    ensures var out := Output(rows, cols, items, keys).value;
      && |out| == |keys|
      && forall k :: 0 <= k < |keys| ==>
           && |RowsShowing(rows, cols, keys[k])| <= I64_MAX
           && RowMeans(items, keys[k], RowsShowing(rows, cols, keys[k]), out[k])
    decreases |keys|
  {
    hide OutputRow, RowMeans, RowsShowing, Group;
    if keys != [] {
      var n := |keys| - 1;
      OutputMeans(rows, cols, items, keys[..n]);
      GroupNoLarger(rows, cols, keys[n]);
      GroupShows(rows, cols, keys[n]);
      OutputRowMeans(items, keys[n], Group(rows, cols, keys[n]));
      assert forall k :: 0 <= k < n ==> keys[..n][k] == keys[k];
    }
  }
}
