/** A transaction's rows that are not committed yet: when one more is accepted, and what
    COMMIT makes of them. */
module Pending {
  import opened Basics
  import opened Values
  import opened Tables
  import opened Engine
  import opened Projection

  function PendingRows(pending: map<Text, seq<Row>>, t: Text): seq<Row> {
    if t in pending then pending[t] else []
  }

  /** The duplicate checks of a transaction's `insert_row`: against committed rows and
      against its own pending ones. */
  predicate Acceptable(t: TableData, pending: seq<Row>, row: Row) {
    && HasWidth(t, row) && KeyFree(t, row)
    && (KeyOf(t, row).Some? ==> forall i :: 0 <= i < |pending| ==> KeyOf(t, pending[i]) != KeyOf(t, row))
  }

  /** Pending rows that will pass validation as a batch. */
  predicate PendingFits(t: TableData, rows: seq<Row>) {
    && (forall i :: 0 <= i < |rows| ==> HasWidth(t, rows[i]) && KeyFree(t, rows[i]))
    && (forall i, j :: 0 <= i < j < |rows| && KeyOf(t, rows[i]).Some? ==> KeyOf(t, rows[i]) != KeyOf(t, rows[j]))
  }

  lemma NothingPendingFits(t: TableData)
    ensures PendingFits(t, [])
  {}

  lemma BufferFits(t: TableData, rows: seq<Row>, row: Row)
    requires PendingFits(t, rows) && Acceptable(t, rows, row)
    ensures PendingFits(t, rows + [row])
  {}

  ghost predicate AllPendingFit(tables: map<Text, TableData>, pending: map<Text, seq<Row>>) {
    forall t :: t in pending ==> t in tables && PendingFits(tables[t], pending[t])
  }

  lemma AcceptedFits(tables: map<Text, TableData>, pending: map<Text, seq<Row>>, table: Text, row: Row)
    requires AllPendingFit(tables, pending)
    requires table in tables && Acceptable(tables[table], PendingRows(pending, table), row)
    ensures AllPendingFit(tables, pending[table := PendingRows(pending, table) + [row]])
  {
    hide PendingFits, Acceptable;
    NothingPendingFits(tables[table]);
    BufferFits(tables[table], PendingRows(pending, table), row);
  }

  /** The pending rows listed table by table, as COMMIT hands them over. */
  ghost predicate Lists(rows: seq<(Text, Row)>, pending: map<Text, seq<Row>>) {
    forall t :: RowsFor(rows, t) == PendingRows(pending, t)
  }

  /** A listed row is one of its table's pending rows. */
  lemma ListedRow(rows: seq<(Text, Row)>, pending: map<Text, seq<Row>>, i: nat)
    requires Lists(rows, pending) && i < |rows|
    ensures var t := rows[i].0;
      t in pending && Pos(rows, i) < |pending[t]| && pending[t][Pos(rows, i)] == rows[i].1
  {
    hide RowsFor, Pos;
    PosFinds(rows, i);
    assert RowsFor(rows, rows[i].0) == PendingRows(pending, rows[i].0);
  }

  /** Whatever order they are listed in, pending rows pass validation. */
  lemma ListedInsertable(tables: map<Text, TableData>, pending: map<Text, seq<Row>>, rows: seq<(Text, Row)>)
    requires AllPendingFit(tables, pending) && Lists(rows, pending)
    ensures BatchInsertable(tables, rows)
  {
    hide Lists, Pos, HasWidth, KeyFree;
    forall i | 0 <= i < |rows|
      ensures RowInsertable(tables, rows[i])
    {
      ListedRow(rows, pending, i);
    }
    forall i, j | 0 <= i < j < |rows|
      ensures !Clash(tables, rows[i], rows[j])
    {
      if rows[i].0 == rows[j].0 {
        ListedRow(rows, pending, i);
        ListedRow(rows, pending, j);
        PosIncreases(rows, i, j);
        assert PendingFits(tables[rows[i].0], pending[rows[i].0]);
      }
    }
  }

  // ---- several rows in one statement ----

  predicate Accepts(tables: map<Text, TableData>, pending: map<Text, seq<Row>>, tr: (Text, Row)) {
    tr.0 in tables && Acceptable(tables[tr.0], PendingRows(pending, tr.0), tr.1)
  }

  function Buffered(pending: map<Text, seq<Row>>, tr: (Text, Row)): map<Text, seq<Row>> {
    pending[tr.0 := PendingRows(pending, tr.0) + [tr.1]]
  }

  /** A multi-row INSERT inside a transaction: row by row, up to the first refusal. */
  function BufferAll(tables: map<Text, TableData>, pending: map<Text, seq<Row>>, rows: seq<(Text, Row)>)
    : (map<Text, seq<Row>>, bool)
    decreases |rows|
  {
    if rows == [] then (pending, true)
    else if Accepts(tables, pending, rows[0]) then BufferAll(tables, Buffered(pending, rows[0]), rows[1..])
    else (pending, false)
  }

  lemma {:induction false} BufferingGrows(tables: map<Text, TableData>, pending: map<Text, seq<Row>>, rows: seq<(Text, Row)>, t: Text)
    ensures PendingRows(pending, t) <= PendingRows(BufferAll(tables, pending, rows).0, t)
    decreases |rows|
  {
    hide Acceptable;
    if rows != [] && Accepts(tables, pending, rows[0]) {
      BufferingGrows(tables, Buffered(pending, rows[0]), rows[1..], t);
    }
  }

  /** A refused statement leaves the transaction as it was, exactly if its first row was
      the one refused: inside a transaction a statement is not all or nothing. */
  lemma RefusedStatement(tables: map<Text, TableData>, pending: map<Text, seq<Row>>, rows: seq<(Text, Row)>)
    requires rows != [] && !BufferAll(tables, pending, rows).1
    ensures BufferAll(tables, pending, rows).0 == pending <==> !Accepts(tables, pending, rows[0])
  {
    hide Acceptable;
    if Accepts(tables, pending, rows[0]) {
      BufferingGrows(tables, Buffered(pending, rows[0]), rows[1..], rows[0].0);
      assert |PendingRows(BufferAll(tables, pending, rows).0, rows[0].0)| > |PendingRows(pending, rows[0].0)|;
    }
  }
}
