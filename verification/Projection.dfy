/** What a log says about one table: the rows its transaction records hold for it, in
    order, and the replay of those rows alone. */
module Projection {
  import opened Basics
  import opened Values
  import opened LogFormat
  import opened Tables
  import opened Engine
  import opened Soundness

  /** The rows of a batch that go to table `t`. */
  function RowsFor(rows: seq<(Text, Row)>, t: Text): seq<Row> {
    if rows == [] then []
    else RowsFor(rows[..|rows| - 1], t) + (if rows[|rows| - 1].0 == t then [rows[|rows| - 1].1] else [])
  }

  /** The rows a log's transaction records hold for table `t`. */
  function LogRows(es: seq<Entry>, t: Text): seq<Row> {
    if es == [] then []
    else
      var e := es[|es| - 1];
      LogRows(es[..|es| - 1], t) + (if e.Transaction? then RowsFor(e.rows, t) else [])
  }

  predicate AllTransactions(es: seq<Entry>) {
    forall i :: 0 <= i < |es| ==> es[i].Transaction?
  }

  // ---- batches ----

  lemma {:induction false} RowsForAppend(a: seq<(Text, Row)>, b: seq<(Text, Row)>, t: Text)
    ensures RowsFor(a + b, t) == RowsFor(a, t) + RowsFor(b, t)
  {
    if b == [] {
      assert a + b == a;
    } else {
      var n := |b| - 1;
      var last := if b[n].0 == t then [b[n].1] else [];
      RowsForAppend(a, b[..n], t);
      assert (a + b)[..|a + b| - 1] == a + b[..n] && (a + b)[|a + b| - 1] == b[n];
      assert RowsFor(a + b, t) == RowsFor(a + b[..n], t) + last;
      assert RowsFor(a, t) + RowsFor(b[..n], t) + last == RowsFor(a, t) + (RowsFor(b[..n], t) + last);
    }
  }

  /** Rows of one table as a batch. */
  function Tagged(name: Text, rows: seq<Row>): (trs: seq<(Text, Row)>)
    ensures |trs| == |rows|
  {
    seq(|rows|, i requires 0 <= i < |rows| => (name, rows[i]))
  }

  lemma {:induction false} TaggedRows(name: Text, rows: seq<Row>, t: Text)
    ensures RowsFor(Tagged(name, rows), t) == if t == name then rows else []
  {
    var trs := Tagged(name, rows);
    if rows != [] {
      var n := |rows| - 1;
      assert trs[..n] == Tagged(name, rows[..n]);
      TaggedRows(name, rows[..n], t);
    }
  }

  /** The row at position `i` of a batch is the row at position `Pos` of its table's share. */
  function Pos(rows: seq<(Text, Row)>, i: nat): nat
    requires i < |rows|
  {
    |RowsFor(rows[..i], rows[i].0)|
  }

  lemma PosFinds(rows: seq<(Text, Row)>, i: nat)
    requires i < |rows|
    ensures var share := RowsFor(rows, rows[i].0);
      Pos(rows, i) < |share| && share[Pos(rows, i)] == rows[i].1
  {
    var t := rows[i].0;
    assert rows == rows[..i + 1] + rows[i + 1..];
    RowsForAppend(rows[..i + 1], rows[i + 1..], t);
    assert rows[..i + 1][..i] == rows[..i];
  }

  lemma PosIncreases(rows: seq<(Text, Row)>, i: nat, j: nat)
    requires i < j < |rows| && rows[i].0 == rows[j].0
    ensures Pos(rows, i) < Pos(rows, j)
  {
    PosFinds(rows[..j], i);
    assert rows[..j][..i] == rows[..i];
  }

  lemma {:induction false} RowsForNone(rows: seq<(Text, Row)>, t: Text)
    requires forall i :: 0 <= i < |rows| ==> rows[i].0 != t
    ensures RowsFor(rows, t) == []
  {
    if rows != [] {
      RowsForNone(rows[..|rows| - 1], t);
    }
  }

  lemma PushAllOne(t: TableData, rows: seq<Row>, row: Row)
    ensures PushAll(t, rows + [row]) == Push(PushAll(t, rows), row)
  {
    hide Push;
    assert (rows + [row])[..|rows|] == rows;
  }

  /** Applying a batch pushes onto a table its own share. */
  lemma {:induction false} ApplyRowsAt(tables: map<Text, TableData>, rows: seq<(Text, Row)>, t: Text)
    requires t in tables
    ensures t in ApplyRows(tables, rows)
    ensures ApplyRows(tables, rows)[t] == PushAll(tables[t], RowsFor(rows, t))
    decreases |rows|
  {
    if rows != [] {
      hide Push, PushAll;
      var n := |rows| - 1;
      ApplyRowsAt(tables, rows[..n], t);
      if rows[n].0 == t {
        PushAllOne(tables[t], RowsFor(rows[..n], t), rows[n].1);
      } else {
        assert RowsFor(rows, t) == RowsFor(rows[..n], t);
      }
    }
  }

  lemma ApplyRowsEach(tables: map<Text, TableData>, rows: seq<(Text, Row)>)
    ensures ApplyRows(tables, rows).Keys == tables.Keys
    ensures forall t :: t in tables ==> ApplyRows(tables, rows)[t] == PushAll(tables[t], RowsFor(rows, t))
  {
    hide ApplyRows, PushAll, RowsFor;
    ApplyRowsKeys(tables, rows);
    forall t | t in tables
      ensures ApplyRows(tables, rows)[t] == PushAll(tables[t], RowsFor(rows, t))
    {
      ApplyRowsAt(tables, rows, t);
    }
  }

  lemma {:induction false} PushAllRows(t: TableData, rows: seq<Row>)
    ensures var r := PushAll(t, rows);
      r.rows == t.rows + rows && r.schema == t.schema && r.keyIndex == t.keyIndex
  {
    if rows != [] {
      var n := |rows| - 1;
      PushAllRows(t, rows[..n]);
      assert rows == rows[..n] + [rows[n]];
      assert t.rows + rows[..n] + [rows[n]] == t.rows + rows;
    }
  }

  // ---- logs ----

  lemma {:induction false} LogRowsAppend(a: seq<Entry>, b: seq<Entry>, t: Text)
    ensures LogRows(a + b, t) == LogRows(a, t) + LogRows(b, t)
  {
    if b == [] {
      assert a + b == a;
    } else {
      var n := |b| - 1;
      LogRowsAppend(a, b[..n], t);
      assert (a + b)[..|a + b| - 1] == a + b[..n];
    }
  }

  /** Two stores with the same tables, up to the rows a log adds. */
  ghost predicate Extends(after: map<Text, TableData>, before: map<Text, TableData>, es: seq<Entry>) {
    && after.Keys == before.Keys
    && forall t :: t in after ==>
         after[t].schema == before[t].schema && after[t].rows == before[t].rows + LogRows(es, t)
  }

  lemma ApplyExtends(s: StorageData, e: Entry)
    requires e.Transaction?
    ensures Extends(ApplyEntry(s, e).tables, s.tables, [e])
  {
    hide RowsFor, PushAll, Push, ApplyRows;
    ApplyRowsEach(s.tables, e.rows);
    forall t | t in s.tables
      ensures ApplyEntry(s, e).tables[t].schema == s.tables[t].schema
      ensures ApplyEntry(s, e).tables[t].rows == s.tables[t].rows + LogRows([e], t)
    {
      PushAllRows(s.tables[t], RowsFor(e.rows, t));
      assert [e][..0] == [];
      assert LogRows([e], t) == RowsFor(e.rows, t);
    }
  }

  lemma ExtendsFurther(a: map<Text, TableData>, b: map<Text, TableData>, c: map<Text, TableData>,
                       es: seq<Entry>, fs: seq<Entry>)
    requires Extends(b, a, es) && Extends(c, b, fs)
    ensures Extends(c, a, es + fs)
  {
    hide LogRows;
    forall t | t in c
      ensures c[t].rows == a[t].rows + LogRows(es + fs, t)
    {
      LogRowsAppend(es, fs, t);
      assert a[t].rows + LogRows(es, t) + LogRows(fs, t) == a[t].rows + (LogRows(es, t) + LogRows(fs, t));
    }
  }

  /** Replaying more transactions adds each table's share of them to its rows. */
  lemma {:induction false} ReplayExtends(a: seq<Entry>, b: seq<Entry>)
    requires AllTransactions(b)
    ensures Extends(Replay(a + b).tables, Replay(a).tables, b)
  {
    if b == [] {
      assert a + b == a;
    } else {
      hide LogRows, ApplyEntry, Extends;
      var n := |b| - 1;
      ReplayExtends(a, b[..n]);
      assert (a + b)[..|a + b| - 1] == a + b[..n];
      ApplyExtends(Replay(a + b[..n]), b[n]);
      ExtendsFurther(Replay(a).tables, Replay(a + b[..n]).tables, Replay(a + b).tables, b[..n], [b[n]]);
      assert b[..n] + [b[n]] == b;
    }
  }

  // ---- tables determined by their rows ----

  /** Schema, index and key position are what the rows alone would build. */
  ghost predicate Shaped(t: TableData) {
    SameTable(t, Build(t.schema, t.rows))
  }

  lemma BuiltShaped(t: TableData)
    requires IsBuilt(t)
    ensures Shaped(t)
  {}

  lemma PushShaped(t: TableData, row: Row)
    requires Shaped(t)
    ensures Shaped(Push(t, row))
  {
    hide NewTable;
    PushSame(t, Build(t.schema, t.rows), row);
    assert (t.rows + [row])[..|t.rows|] == t.rows;
  }

  lemma {:induction false} PushAllShaped(t: TableData, rows: seq<Row>)
    requires Shaped(t)
    ensures Shaped(PushAll(t, rows))
  {
    hide Shaped, Push;
    if rows != [] {
      PushAllShaped(t, rows[..|rows| - 1]);
      PushShaped(PushAll(t, rows[..|rows| - 1]), rows[|rows| - 1]);
    }
  }

  lemma ShapedSame(a: TableData, b: TableData)
    requires Shaped(a) && Shaped(b) && a.schema == b.schema && a.rows == b.rows
    ensures SameTable(a, b)
  {
    hide Build;
  }

  lemma SameInv(a: TableData, b: TableData)
    requires SameTable(a, b) && TableInv(a)
    ensures TableInv(b)
  {
    assert forall i :: 0 <= i < |b.rows| ==> HasWidth(a, a.rows[i]);
  }

  /** A shaped table with the first rows of a sound one is sound. */
  lemma PrefixInv(a: TableData, b: TableData)
    requires TableInv(a) && Shaped(b) && b.schema == a.schema && b.rows <= a.rows
    ensures TableInv(b)
  {
    hide Build;
    assert forall i :: 0 <= i < |b.rows| ==> b.rows[i] == a.rows[i] && HasWidth(a, a.rows[i]);
    if a.keyIndex.Some? {
      var k := a.keyIndex.value;
      assert DistinctAt(b.rows, k) by {
        assert forall i :: 0 <= i < |b.rows| ==> a.index[b.rows[i][k]] == i;
      }
    }
    BuildInv(b.schema, b.rows);
    SameInv(Build(b.schema, b.rows), b);
  }
}
