/** CREATE TABLE statements for one name that run at the same time, step by step: the
    first check, the log write, the second check and the insertion into the table map,
    interleaved with committed batches of rows.  All of them may pass the first check and
    reach the log; only one creates the table in memory. */
module Races {
  import opened Basics
  import opened Values
  import opened LogFormat
  import opened Tables
  import opened Engine
  import opened Soundness
  import opened Projection

  datatype Definition = Definition(columns: seq<ColumnSchema>, primaryKey: Option<Text>)

  /** Where a call of `create_table` stands; `at` is the position of its record. */
  datatype Call =
    | Called
    | Passed
    | Logged(at: nat)
    | Done(at: nat, won: bool)
    | TurnedAway

  /** `winner` is the call that created the table, `last` the one whose record is the
      latest in the log. */
  datatype Race = Race(
    name: Text,
    defs: seq<Definition>,
    log: seq<Entry>,
    tables: map<Text, TableData>,
    calls: seq<Call>,
    winner: Option<nat>,
    last: Option<nat>)

  datatype Step =
    | Check(i: nat)
    | LogWrite(i: nat)
    | LogFails(i: nat)
    | Apply(i: nat)
    | InsertBatch(rows: seq<(Text, Row)>)

  function Record(r: Race, i: nat): Entry
    requires i < |r.defs|
  {
    CreateTable(r.name, r.defs[i].columns, r.defs[i].primaryKey)
  }

  predicate KeyDefined(d: Definition) {
    d.primaryKey.Some? ==> ColumnIndex(d.columns, d.primaryKey.value).Some?
  }

  predicate Enabled(r: Race, step: Step) {
    |r.calls| == |r.defs| &&
    match step
    case Check(i) => i < |r.calls| && r.calls[i].Called?
    case LogWrite(i) => i < |r.calls| && r.calls[i].Passed?
    case LogFails(i) => i < |r.calls| && r.calls[i].Passed?
    case Apply(i) => i < |r.calls| && r.calls[i].Logged?
    case InsertBatch(rows) => BatchInsertable(r.tables, rows)
  }

  function Next(r: Race, step: Step): Race
    requires Enabled(r, step)
  {
    match step
    case Check(i) =>
      r.(calls := r.calls[i := if KeyDefined(r.defs[i]) && r.name !in r.tables then Passed else TurnedAway])
    case LogWrite(i) =>
      r.(log := r.log + [Record(r, i)], calls := r.calls[i := Logged(|r.log|)], last := Some(i))
    case LogFails(i) => r.(calls := r.calls[i := TurnedAway])
    case Apply(i) =>
      if r.name in r.tables then r.(calls := r.calls[i := Done(r.calls[i].at, false)])
      else
        r.(tables := r.tables[r.name := NewTable(r.defs[i].columns, r.defs[i].primaryKey)],
           calls := r.calls[i := Done(r.calls[i].at, true)],
           winner := Some(i))
    case InsertBatch(rows) => r.(log := r.log + [Transaction(rows)], tables := ApplyRows(r.tables, rows))
  }

  function Run(r: Race, steps: seq<Step>): Option<Race>
    decreases |steps|
  {
    if steps == [] then Some(r)
    else if Enabled(r, steps[0]) then Run(Next(r, steps[0]), steps[1..])
    else None
  }

  /** Any number of calls about to start, on a store that replayed `base`. */
  function Start(name: Text, defs: seq<Definition>, base: seq<Entry>): Race {
    Race(name, defs, base, Replay(base).tables, seq(|defs|, i => Called), None, None)
  }

  // ---- the invariant ----

  predicate InLog(call: Call) {
    call.Logged? || call.Done?
  }

  /** A logged call's record is where it says, and none but the last call's is later. */
  predicate RecordOk(r: Race, i: nat, from: nat, last: nat)
    requires i < |r.calls| == |r.defs| && last < |r.calls|
    requires InLog(r.calls[i]) && InLog(r.calls[last])
  {
    var at := r.calls[i].at;
    from <= at < |r.log| && r.log[at] == Record(r, i) && at <= r.calls[last].at && (at == r.calls[last].at ==> i == last)
  }

  predicate LogOk(r: Race, from: nat) {
    && |r.calls| == |r.defs| && from <= |r.log|
    && match r.last
       case None => AllTransactions(r.log[from..]) && forall i :: 0 <= i < |r.calls| ==> !InLog(r.calls[i])
       case Some(l) =>
         && l < |r.calls| && InLog(r.calls[l])
         && (forall i :: 0 <= i < |r.calls| && InLog(r.calls[i]) ==> RecordOk(r, i, from, l))
         && AllTransactions(r.log[r.calls[l].at + 1..])
  }

  /** The table in memory is the winner's, with the rows logged since its record. */
  predicate WinnerOk(r: Race, from: nat)
    requires LogOk(r, from)
  {
    && (forall i :: 0 <= i < |r.calls| && r.calls[i].Done? ==> r.winner.Some? && (r.calls[i].won <==> r.winner == Some(i)))
    && match r.winner
       case None => r.name !in r.tables && LogRows(r.log[from..], r.name) == []
       case Some(w) =>
         && w < |r.calls| && r.calls[w].Done? && r.last.Some? && RecordOk(r, w, from, r.last.value)
         && r.name in r.tables && IsBuilt(r.tables[r.name])
         && r.tables[r.name].schema == TableSchema(r.defs[w].columns, r.defs[w].primaryKey)
         && r.tables[r.name].rows == LogRows(r.log[r.calls[w].at + 1..], r.name)
  }

  predicate SameElsewhere(a: map<Text, TableData>, b: map<Text, TableData>, name: Text) {
    a - {name} == b - {name}
  }

  predicate Inv(r: Race, base: seq<Entry>) {
    && base <= r.log && r.name !in Replay(base).tables
    && LogOk(r, |base|) && WinnerOk(r, |base|)
    && SameElsewhere(r.tables, Replay(r.log).tables, r.name)
  }

  lemma StartInv(name: Text, defs: seq<Definition>, base: seq<Entry>)
    requires name !in Replay(base).tables
    ensures Inv(Start(name, defs, base), base)
  {
    hide Replay;
    assert base[|base|..] == [];
  }

  // ---- every step keeps it ----

  lemma CallKeeps(r: Race, base: seq<Entry>, i: nat, call: Call)
    requires Inv(r, base) && i < |r.calls| && !InLog(r.calls[i]) && !InLog(call)
    ensures Inv(r.(calls := r.calls[i := call]), base)
  {
    hide Replay, LogRows, IsBuilt, AllTransactions;
    var s := r.(calls := r.calls[i := call]);
    assert forall j :: 0 <= j < |s.calls| && InLog(s.calls[j]) ==> s.calls[j] == r.calls[j];
  }

  lemma LogWriteLog(r: Race, from: nat, i: nat)
    requires LogOk(r, from) && Enabled(r, LogWrite(i))
    ensures LogOk(Next(r, LogWrite(i)), from)
  {
    var s, at := Next(r, LogWrite(i)), |r.log|;
    assert s.log[at + 1..] == [];
    forall j | 0 <= j < |s.calls| && InLog(s.calls[j])
      ensures RecordOk(s, j, from, i)
    {
      if j != i {
        assert r.last.Some? && RecordOk(r, j, from, r.last.value);
      }
    }
  }

  lemma LogWriteKeeps(r: Race, base: seq<Entry>, i: nat)
    requires Inv(r, base) && Enabled(r, LogWrite(i))
    ensures Inv(Next(r, LogWrite(i)), base)
  {
    hide Replay, IsBuilt, LogRows, AllTransactions;
    var s := Next(r, LogWrite(i));
    LogWriteLog(r, |base|, i);
    assert s.log[|base|..] == r.log[|base|..] + [Record(r, i)];
    RecordHasNoRows(r.log[|base|..], Record(r, i), r.name);
    if r.winner.Some? {
      var w := r.winner.value;
      var q := r.calls[w].at;
      assert s.calls[w] == r.calls[w];
      assert s.log[q + 1..] == r.log[q + 1..] + [Record(r, i)];
      RecordHasNoRows(r.log[q + 1..], Record(r, i), r.name);
    }
    CreateElsewhere(r.log, Record(r, i));
  }

  lemma RecordHasNoRows(es: seq<Entry>, e: Entry, t: Text)
    requires e.CreateTable?
    ensures LogRows(es + [e], t) == LogRows(es, t)
  {
    assert (es + [e])[..|es|] == es;
  }

  lemma CreateElsewhere(log: seq<Entry>, e: Entry)
    requires e.CreateTable?
    ensures Replay(log + [e]).tables == Replay(log).tables[e.table := NewTable(e.columns, e.primaryKey)]
  {
    hide NewTable;
    assert (log + [e])[..|log|] == log;
  }

  lemma ApplyLog(r: Race, from: nat, i: nat)
    requires LogOk(r, from) && Enabled(r, Apply(i))
    ensures LogOk(Next(r, Apply(i)), from)
  {
    hide LogRows, AllTransactions, NewTable;
    var s := Next(r, Apply(i));
    assert InLog(r.calls[i]) && r.last.Some?;
    assert forall j :: 0 <= j < |s.calls| && InLog(s.calls[j]) ==> InLog(r.calls[j]) && s.calls[j].at == r.calls[j].at;
    forall j | 0 <= j < |s.calls| && InLog(s.calls[j])
      ensures RecordOk(s, j, from, s.last.value)
    {
      assert RecordOk(r, j, from, r.last.value);
    }
  }

  lemma LoserOk(r: Race, from: nat, i: nat)
    requires LogOk(r, from) && WinnerOk(r, from) && Enabled(r, Apply(i)) && r.name in r.tables
    requires LogOk(Next(r, Apply(i)), from)
    ensures WinnerOk(Next(r, Apply(i)), from)
  {
    hide LogRows, IsBuilt, AllTransactions;
    var s, w := Next(r, Apply(i)), r.winner.value;
    assert s.calls[w] == r.calls[w];
  }

  /** The first call to come this far finds no rows logged for its table yet. */
  lemma FirstOk(r: Race, from: nat, i: nat)
    requires LogOk(r, from) && WinnerOk(r, from) && Enabled(r, Apply(i)) && r.name !in r.tables
    requires r.last.Some? && r.last.value < |r.calls| && InLog(r.calls[r.last.value]) && RecordOk(r, i, from, r.last.value)
    requires LogOk(Next(r, Apply(i)), from)
    ensures WinnerOk(Next(r, Apply(i)), from)
  {
    hide LogRows, IsBuilt, NewTable, LogOk;
    var at := r.calls[i].at;
    assert r.log[from..] == r.log[from..at + 1] + r.log[at + 1..];
    LogRowsAppend(r.log[from..at + 1], r.log[at + 1..], r.name);
    NewTableShape(r.defs[i].columns, r.defs[i].primaryKey);
  }

  lemma ApplyKeeps(r: Race, base: seq<Entry>, i: nat)
    requires Inv(r, base) && Enabled(r, Apply(i))
    ensures Inv(Next(r, Apply(i)), base)
  {
    hide Replay, WinnerOk, NewTable, AllTransactions;
    ApplyLog(r, |base|, i);
    if r.name in r.tables {
      LoserOk(r, |base|, i);
    } else {
      assert InLog(r.calls[i]);
      FirstOk(r, |base|, i);
    }
  }

  lemma NewTableShape(columns: seq<ColumnSchema>, pk: Option<Text>)
    ensures var t := NewTable(columns, pk); IsBuilt(t) && t.rows == [] && t.schema == TableSchema(columns, pk)
  {
    NewTableBuilt(columns, pk);
  }

  lemma InsertKeeps(r: Race, base: seq<Entry>, rows: seq<(Text, Row)>)
    requires Inv(r, base) && Enabled(r, InsertBatch(rows))
    ensures Inv(Next(r, InsertBatch(rows)), base)
  {
    hide Replay, LogRows, IsBuilt, ApplyRows, PushAll, RowsFor, BatchInsertable;
    var e, s := Transaction(rows), Next(r, InsertBatch(rows));
    InsertLog(r, |base|, rows);
    ApplyRowsEach(r.tables, rows);
    match r.winner {
      case None =>
        UnknownTable(r.tables, rows, r.name);
        assert s.log[|base|..] == r.log[|base|..] + [e];
        OneMoreBatch(r.log[|base|..], rows, r.name);
      case Some(w) =>
        var q := r.calls[w].at;
        assert s.log[q + 1..] == r.log[q + 1..] + [e];
        OneMoreBatch(r.log[q + 1..], rows, r.name);
        PushAllRows(r.tables[r.name], RowsFor(rows, r.name));
        PushAllBuilt(r.tables[r.name], RowsFor(rows, r.name));
        assert RecordOk(s, w, |base|, s.last.value);
    }
    InsertElsewhere(r.tables, r.log, rows, r.name);
  }

  lemma InsertLog(r: Race, from: nat, rows: seq<(Text, Row)>)
    requires LogOk(r, from)
    ensures LogOk(r.(log := r.log + [Transaction(rows)], tables := ApplyRows(r.tables, rows)), from)
  {
    hide ApplyRows;
    var e := Transaction(rows);
    var s := r.(log := r.log + [e], tables := ApplyRows(r.tables, rows));
    if r.last.None? {
      assert s.log[from..] == r.log[from..] + [e];
    } else {
      var p := r.calls[r.last.value].at;
      assert RecordOk(r, r.last.value, from, r.last.value);
      assert s.log[p + 1..] == r.log[p + 1..] + [e];
      forall j | 0 <= j < |s.calls| && InLog(s.calls[j])
        ensures RecordOk(s, j, from, s.last.value)
      {
        assert RecordOk(r, j, from, r.last.value);
      }
    }
  }

  lemma OneMoreBatch(es: seq<Entry>, rows: seq<(Text, Row)>, t: Text)
    ensures LogRows(es + [Transaction(rows)], t) == LogRows(es, t) + RowsFor(rows, t)
  {
    hide RowsFor;
    assert (es + [Transaction(rows)])[..|es|] == es;
  }

  /** Validation keeps rows for a table that is not there out of the log. */
  lemma UnknownTable(tables: map<Text, TableData>, rows: seq<(Text, Row)>, name: Text)
    requires BatchInsertable(tables, rows) && name !in tables
    ensures RowsFor(rows, name) == []
  {
    hide RowsFor;
    assert forall i :: 0 <= i < |rows| ==> RowInsertable(tables, rows[i]);
    RowsForNone(rows, name);
  }

  lemma {:induction false} PushAllBuilt(t: TableData, rows: seq<Row>)
    requires IsBuilt(t)
    ensures IsBuilt(PushAll(t, rows))
  {
    hide IsBuilt, Push;
    if rows != [] {
      PushAllBuilt(t, rows[..|rows| - 1]);
      PushBuilt(PushAll(t, rows[..|rows| - 1]), rows[|rows| - 1]);
    }
  }

  lemma InsertElsewhere(tables: map<Text, TableData>, log: seq<Entry>, rows: seq<(Text, Row)>, name: Text)
    requires SameElsewhere(tables, Replay(log).tables, name)
    ensures SameElsewhere(ApplyRows(tables, rows), Replay(log + [Transaction(rows)]).tables, name)
  {
    hide ApplyRows, PushAll, RowsFor;
    assert (log + [Transaction(rows)])[..|log|] == log;
    var replayed := Replay(log).tables;
    ApplyRowsEach(tables, rows);
    ApplyRowsEach(replayed, rows);
    var a, b := ApplyRows(tables, rows), ApplyRows(replayed, rows);
    forall n | n != name
      ensures n in a <==> n in b
      ensures n in a ==> a[n] == b[n]
    {
      assert n in tables <==> n in tables - {name};
      assert n in replayed <==> n in replayed - {name};
      assert n in tables ==> tables[n] == (tables - {name})[n] == (replayed - {name})[n] == replayed[n];
    }
  }

  lemma StepKeeps(r: Race, base: seq<Entry>, step: Step)
    requires Inv(r, base) && Enabled(r, step)
    ensures Inv(Next(r, step), base)
  {
    hide Inv, BatchInsertable, NewTable, ApplyRows, ColumnIndex;
    match step
    case Check(i) => CallKeeps(r, base, i, if KeyDefined(r.defs[i]) && r.name !in r.tables then Passed else TurnedAway);
    case LogWrite(i) => LogWriteKeeps(r, base, i);
    case LogFails(i) => CallKeeps(r, base, i, TurnedAway);
    case Apply(i) => ApplyKeeps(r, base, i);
    case InsertBatch(rows) => InsertKeeps(r, base, rows);
  }

  lemma {:induction false} RunKeeps(r: Race, base: seq<Entry>, steps: seq<Step>)
    requires Inv(r, base) && Run(r, steps).Some?
    ensures Inv(Run(r, steps).value, base)
    decreases |steps|
  {
    hide Inv, Enabled, Next;
    if steps != [] {
      StepKeeps(r, base, steps[0]);
      RunKeeps(Next(r, steps[0]), base, steps[1..]);
    }
  }

  // ---- what a restart finds ----

  /** The winner's record is the latest, or the latest repeats its definition and no row
      for the table was logged between the two. */
  predicate Harmless(r: Race) {
    match r.winner
    case None => r.last.None?
    case Some(w) =>
      && r.last.Some? && w < |r.calls| == |r.defs| && r.last.value < |r.calls|
      && (w == r.last.value || (
          && r.defs[w] == r.defs[r.last.value]
          && r.calls[w].Done? && InLog(r.calls[r.last.value])
          && r.calls[w].at < r.calls[r.last.value].at <= |r.log|
          && LogRows(r.log[r.calls[w].at + 1..r.calls[r.last.value].at], r.name) == []))
  }

  /** The latest record's definition is what replay gives the table, with the rows that
      were logged after that record. */
  lemma ReplayTakesLast(r: Race, base: seq<Entry>)
    requires Inv(r, base) && r.last.Some?
    ensures var l, t := r.last.value, Replay(r.log).tables;
      && r.name in t && IsBuilt(t[r.name])
      && t[r.name].schema == TableSchema(r.defs[l].columns, r.defs[l].primaryKey)
      && t[r.name].rows == LogRows(r.log[r.calls[l].at + 1..], r.name)
  {
    hide Replay, IsBuilt, LogRows, WinnerOk, SameElsewhere, NewTable;
    var l := r.last.value;
    var p := r.calls[l].at;
    assert RecordOk(r, l, |base|, l);
    var before, after := r.log[..p], r.log[p + 1..];
    assert r.log == (before + [Record(r, l)]) + after;
    CreateElsewhere(before, Record(r, l));
    NewTableShape(r.defs[l].columns, r.defs[l].primaryKey);
    ReplayExtends(before + [Record(r, l)], after);
    ReplayBuilt(r.log);
    assert [] + LogRows(after, r.name) == LogRows(after, r.name);
  }

  lemma BothBuilt(a: TableData, b: TableData)
    requires IsBuilt(a) && IsBuilt(b)
    ensures SameTable(a, b) <==> a.schema == b.schema && a.rows == b.rows
  {
    hide Build;
  }

  /** Rows in memory against rows replayed, when the winner's record is not the latest. */
  lemma RowsAgree(r: Race, base: seq<Entry>)
    requires Inv(r, base) && r.winner.Some? && r.winner != r.last
    ensures var q, p := r.calls[r.winner.value].at, r.calls[r.last.value].at;
      && q < p < |r.log|
      && (LogRows(r.log[q + 1..], r.name) == LogRows(r.log[p + 1..], r.name) <==> LogRows(r.log[q + 1..p], r.name) == [])
  {
    hide Replay, IsBuilt, LogRows, SameElsewhere, AllTransactions;
    var q, p := r.calls[r.winner.value].at, r.calls[r.last.value].at;
    assert RecordOk(r, r.winner.value, |base|, r.last.value) && RecordOk(r, r.last.value, |base|, r.last.value);
    var between, e, after := r.log[q + 1..p], r.log[p], r.log[p + 1..];
    assert r.log[q + 1..] == (between + [e]) + after;
    LogRowsAppend(between + [e], after, r.name);
    RecordHasNoRows(between, e, r.name);
    var x, y := LogRows(between, r.name), LogRows(after, r.name);
    assert |x + y| == |x| + |y|;
    assert x == [] ==> x + y == y;
  }

  lemma TablesAgree(r: Race, base: seq<Entry>)
    requires Inv(r, base)
    ensures var restarted := Replay(r.log).tables;
      SameTables(restarted, r.tables) <==> (
        && (r.name in restarted <==> r.name in r.tables)
        && (r.name in r.tables ==> SameTable(restarted[r.name], r.tables[r.name])))
  {
    hide Replay, LogOk, WinnerOk, SameTable;
    var a, b := Replay(r.log).tables, r.tables;
    forall n | n != r.name
      ensures n in a <==> n in b
      ensures n in a ==> SameTable(a[n], b[n])
    {
      assert n in a <==> n in a - {r.name};
      assert n in b <==> n in b - {r.name};
      if n in a {
        assert a[n] == (a - {r.name})[n] == (b - {r.name})[n] == b[n];
        SameTableSelf(a[n]);
      }
    }
  }

  /** At every moment of every race between any number of calls, in whatever order they
      log and apply: a restart agrees with memory exactly if no record waits for its
      table, and the winner's record is the latest or is repeated by the latest with no
      row between.  A comment at the code calls the race always harmless. */
  lemma RacingCreates(name: Text, defs: seq<Definition>, base: seq<Entry>, steps: seq<Step>)
    requires name !in Replay(base).tables && Run(Start(name, defs, base), steps).Some?
    ensures var r := Run(Start(name, defs, base), steps).value;
      SameTables(Replay(r.log).tables, r.tables) <==> Harmless(r)
  {
    hide Inv, Replay, Run, Start, SameTables, Harmless;
    StartInv(name, defs, base);
    RunKeeps(Start(name, defs, base), base, steps);
    RaceExact(Run(Start(name, defs, base), steps).value, base);
  }

  lemma RaceExact(r: Race, base: seq<Entry>)
    requires Inv(r, base)
    ensures SameTables(Replay(r.log).tables, r.tables) <==> Harmless(r)
  {
    hide Replay, LogRows, IsBuilt, SameTable, SameTables, AllTransactions;
    TablesAgree(r, base);
    if r.last.None? {
      OnlyBatches(r, base);
    } else {
      ReplayTakesLast(r, base);
      if r.winner.Some? {
        BothBuilt(Replay(r.log).tables[r.name], r.tables[r.name]);
        assert RecordOk(r, r.winner.value, |base|, r.last.value);
        if r.winner != r.last {
          RowsAgree(r, base);
        }
      }
    }
  }

  /** Without a record for it, replay does not know the table either. */
  lemma OnlyBatches(r: Race, base: seq<Entry>)
    requires Inv(r, base) && r.last.None?
    ensures r.name !in Replay(r.log).tables
  {
    hide Replay, IsBuilt, WinnerOk, SameElsewhere;
    assert r.log == base + r.log[|base|..];
    ReplayExtends(base, r.log[|base|..]);
  }

  // ---- both outcomes happen ----

  lemma RunOn(r: Race, step: Step, rest: seq<Step>)
    requires Enabled(r, step)
    ensures Run(r, [step] + rest) == Run(Next(r, step), rest)
  {
    hide Enabled, Next;
    assert ([step] + rest)[1..] == rest;
  }

  /** Two calls that have both passed the first check, before either is logged. */
  function BothPassed(name: Text, a: Definition, b: Definition): Race {
    Race(name, [a, b], [], map[], [Passed, Passed], None, None)
  }

  lemma BothPass(name: Text, a: Definition, b: Definition, rest: seq<Step>)
    requires KeyDefined(a) && KeyDefined(b)
    ensures Run(Start(name, [a, b], []), [Check(0)] + ([Check(1)] + rest)) == Run(BothPassed(name, a, b), rest)
  {
    hide KeyDefined, Run;
    var r := Start(name, [a, b], []);
    assert r.calls == [Called, Called] && r.tables == map[];
    RunOn(r, Check(0), [Check(1)] + rest);
    var s := Next(r, Check(0));
    assert s.calls == [Passed, Called];
    RunOn(s, Check(1), rest);
    assert Next(s, Check(1)).calls == [Passed, Passed];
    assert Next(s, Check(1)) == BothPassed(name, a, b);
  }

  /** The second call's record comes second and its table first: a restart agrees with
      memory, even though the two definitions may differ. */
  lemma LaterRecordWins(name: Text, a: Definition, b: Definition)
    requires KeyDefined(a) && KeyDefined(b)
    ensures var steps := [Check(0)] + ([Check(1)] + ([LogWrite(0)] + ([LogWrite(1)] + ([Apply(1)] + ([Apply(0)] + [])))));
      var end := Run(Start(name, [a, b], []), steps);
      && end.Some? && name in end.value.tables
      && end.value.tables[name] == NewTable(b.columns, b.primaryKey)
      && SameTables(Replay(end.value.log).tables, end.value.tables)
  {
    hide KeyDefined, Run, NewTable, Replay, SameTables;
    var tail := [LogWrite(0)] + ([LogWrite(1)] + ([Apply(1)] + ([Apply(0)] + [])));
    BothPass(name, a, b, tail);
    var r0 := BothPassed(name, a, b);
    RunOn(r0, LogWrite(0), [LogWrite(1)] + ([Apply(1)] + ([Apply(0)] + [])));
    var r1 := Next(r0, LogWrite(0));
    RunOn(r1, LogWrite(1), [Apply(1)] + ([Apply(0)] + []));
    var r2 := Next(r1, LogWrite(1));
    RunOn(r2, Apply(1), [Apply(0)] + []);
    var r3 := Next(r2, Apply(1));
    RunOn(r3, Apply(0), []);
    var r4 := Next(r3, Apply(0));
    assert Run(r4, []) == Some(r4) by { NoMore(r4); }
    NothingReplayed();
    RacingCreates(name, [a, b], [], [Check(0)] + ([Check(1)] + tail));
  }

  lemma NoMore(r: Race)
    ensures Run(r, []) == Some(r)
  {}

  lemma NothingReplayed()
    ensures Replay([]).tables == map[]
  {}

  /** One committed row between two records with the same definition is lost. */
  lemma RacingCreatesLoseARow(name: Text, column: ColumnSchema, v: Value)
    ensures var d := Definition([column], None);
      var steps := [Check(0)] + ([Check(1)] + ([LogWrite(0)] + ([Apply(0)] + ([InsertBatch([(name, [v])])]
                   + ([LogWrite(1)] + ([Apply(1)] + []))))));
      var end := Run(Start(name, [d, d], []), steps);
      && end.Some? && name in end.value.tables && name in Replay(end.value.log).tables
      && end.value.tables[name].rows == [[v]]
      && Replay(end.value.log).tables[name].rows == []
  {
    hide Run, Replay, ApplyRows;
    var d, rows := Definition([column], None), [(name, [v])];
    var tail := [LogWrite(0)] + ([Apply(0)] + ([InsertBatch(rows)] + ([LogWrite(1)] + ([Apply(1)] + []))));
    BothPass(name, d, d, tail);
    var r0 := BothPassed(name, d, d);
    RunOn(r0, LogWrite(0), [Apply(0)] + ([InsertBatch(rows)] + ([LogWrite(1)] + ([Apply(1)] + []))));
    var r1 := Next(r0, LogWrite(0));
    RunOn(r1, Apply(0), [InsertBatch(rows)] + ([LogWrite(1)] + ([Apply(1)] + [])));
    var r2 := Next(r1, Apply(0));
    OneRowFits(r2.tables, name, column, v);
    RunOn(r2, InsertBatch(rows), [LogWrite(1)] + ([Apply(1)] + []));
    var r3 := Next(r2, InsertBatch(rows));
    RunOn(r3, LogWrite(1), [Apply(1)] + []);
    var r4 := Next(r3, LogWrite(1));
    RunOn(r4, Apply(1), []);
    var r5 := Next(r4, Apply(1));
    NoMore(r5);
    assert r5.log == r3.log + [CreateTable(name, [column], None)];
    CreateElsewhere(r3.log, CreateTable(name, [column], None));
  }

  lemma OneRowFits(tables: map<Text, TableData>, name: Text, column: ColumnSchema, v: Value)
    requires name in tables && tables[name] == NewTable([column], None)
    ensures BatchInsertable(tables, [(name, [v])])
    ensures name in ApplyRows(tables, [(name, [v])]) && ApplyRows(tables, [(name, [v])])[name].rows == [[v]]
  {
    ApplyOne(tables, (name, [v]));
  }
}
