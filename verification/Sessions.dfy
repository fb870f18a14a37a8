/** What one connection's statements do, step by step and from BEGIN to the end of COMMIT:
    which rows a transaction has when it commits, and what an autocommit INSERT lands. */
module Sessions {
  import opened Basics
  import opened Values
  import opened LogFormat
  import opened Tables
  import opened Engine
  import opened Soundness
  import opened Projection
  import opened Pending
  import opened Outcomes
  import opened Concurrency
  import opened Isolation
  import Recovery
  import GC = GroupCommit

  // ---- INSERT inside a transaction ----

  /** Nobody but `c` is affected: tables, locks, log and the other connections stay. */
  ghost predicate OnlyClient(s: System, n: System, c: nat) {
    && n.tables == s.tables && n.owner == s.owner && n.log == s.log
    && n.clients.Keys == s.clients.Keys
    && forall d :: d in s.clients && d != c ==> n.clients[d] == s.clients[d]
  }

  lemma TableSound(s: System, t: Text)
    requires Inv(s) && s.log.node.Up? && t in s.tables
    ensures TableInv(s.tables[t])
  {
    hide Inv, TableInv, SameTable;
    TableIsReplay(s, t);
  }

  /** What a transaction accepts, said of the rows it sees. */
  lemma AcceptableMeans(t: TableData, pending: seq<Row>, row: Row)
    requires TableInv(t) && PendingFits(t, pending)
    ensures Acceptable(t, pending, row) <==> MayJoin(t.schema, t.rows + pending, row)
  {
    hide TableInv, MayJoin, KeyFree;
    JoinsBehind(t, pending, row);
  }

  lemma PendingOf(s: System, c: nat, t: Text)
    requires Inv(s) && c in s.clients && t in s.tables
    ensures PendingFits(s.tables[t], PendingRows(s.clients[c].pending, t))
  {
    hide GC.Inv, AllInv, ClientsOk, TicketsOk, Awaited, MemoryAgrees, MemoryPrefix, ReplayIds, BatchInsertable, PendingFits;
    OneOf(s.tables, s.owner, s.clients, c);
    NothingPendingFits(s.tables[t]);
  }

  /** INSERT inside a transaction adds the row to what the transaction sees of the table,
      exactly if it has the table's width and no row the transaction sees there has its
      key; otherwise, and everywhere else, nothing changes. */
  lemma BufferExact(s: System, c: nat, t: Text, row: Row)
    requires Inv(s) && Enabled(s, Buffer(c, t, row))
    ensures var n := Next(s, Buffer(c, t, row));
      && OnlyClient(s, n, c)
      && n.clients[c].stage == s.clients[c].stage && n.clients[c].inTransaction
      && Seen(n, c, t) == Seen(s, c, t) + (if MayJoin(s.tables[t].schema, Seen(s, c, t), row) then [row] else [])
      && (forall u :: u in s.tables && u != t ==> Seen(n, c, u) == Seen(s, c, u))
  {
    hide Inv, MayJoin, Acceptable, PendingFits, TableInv;
    var n, table, pending := Next(s, Buffer(c, t, row)), s.tables[t], PendingRows(s.clients[c].pending, t);
    TableSound(s, t);
    PendingOf(s, c, t);
    AcceptableMeans(table, pending, row);
    assert table.rows + pending + [row] == table.rows + (pending + [row]);
    assert Seen(s, c, t) + [] == Seen(s, c, t);
  }

  /** A statement of several rows inside a transaction takes them one by one, up to the
      first that cannot join what the transaction then sees of its table. */
  lemma {:induction false} StatementExact(tables: map<Text, TableData>, pending: map<Text, seq<Row>>, rows: seq<(Text, Row)>)
    returns (n: nat)
    requires (forall t :: t in tables ==> TableInv(tables[t])) && AllPendingFit(tables, pending)
    ensures var (after, ok) := BufferAll(tables, pending, rows);
      && n <= |rows| && (ok <==> n == |rows|)
      && (forall t :: PendingRows(after, t) == PendingRows(pending, t) + RowsFor(rows[..n], t))
      && (forall i :: 0 <= i < n ==> JoinsAt(tables, pending, rows, i))
      && (!ok ==> !JoinsAt(tables, pending, rows, n))
    decreases |rows|
  {
    hide TableInv, Accepts, AllPendingFit, JoinsAt, RowsFor, PendingRows, Buffered;
    if rows == [] {
      n := 0;
      NoShares(rows);
    } else if Accepts(tables, pending, rows[0]) {
      var more := Buffered(pending, rows[0]);
      StillFits(tables, pending, rows[0]);
      var m := StatementExact(tables, more, rows[1..]);
      n := m + 1;
      FirstJoins(tables, pending, rows);
      forall t
        ensures PendingRows(BufferAll(tables, pending, rows).0, t) == PendingRows(pending, t) + RowsFor(rows[..n], t)
      {
        PendingGrows(pending, rows, n, t);
      }
      forall i | 0 < i < |rows|
        ensures JoinsAt(tables, pending, rows, i) <==> JoinsAt(tables, more, rows[1..], i - 1)
      {
        LaterJoins(tables, pending, rows, i);
      }
    } else {
      n := 0;
      NoShares(rows);
      FirstJoins(tables, pending, rows);
    }
  }

  /** Row `i` of the statement may join its table behind what is pending and the
      statement's own earlier rows. */
  predicate JoinsAt(tables: map<Text, TableData>, pending: map<Text, seq<Row>>, rows: seq<(Text, Row)>, i: nat)
    requires i < |rows|
  {
    var t := rows[i].0;
    t in tables && MayJoin(tables[t].schema, tables[t].rows + (PendingRows(pending, t) + RowsFor(rows[..i], t)), rows[i].1)
  }

  lemma StillFits(tables: map<Text, TableData>, pending: map<Text, seq<Row>>, tr: (Text, Row))
    requires AllPendingFit(tables, pending) && Accepts(tables, pending, tr)
    ensures AllPendingFit(tables, Buffered(pending, tr))
  {
    hide Acceptable, PendingFits;
    AcceptedFits(tables, pending, tr.0, tr.1);
  }

  lemma NoShares(rows: seq<(Text, Row)>)
    ensures forall t :: RowsFor(rows[..0], t) == []
  {}

  lemma ShareOfFirst(rows: seq<(Text, Row)>, n: nat, t: Text)
    requires 0 < n <= |rows|
    ensures RowsFor(rows[..n], t) == (if rows[0].0 == t then [rows[0].1] else []) + RowsFor(rows[1..][..n - 1], t)
  {
    hide RowsFor;
    assert rows[..n] == [rows[0]] + rows[1..][..n - 1];
    RowsForAppend([rows[0]], rows[1..][..n - 1], t);
    OneShare(rows[0].0, rows[0].1, t);
    assert [(rows[0].0, rows[0].1)] == [rows[0]];
  }

  lemma PendingGrows(pending: map<Text, seq<Row>>, rows: seq<(Text, Row)>, n: nat, t: Text)
    requires 0 < n <= |rows|
    ensures PendingRows(Buffered(pending, rows[0]), t) + RowsFor(rows[1..][..n - 1], t)
         == PendingRows(pending, t) + RowsFor(rows[..n], t)
  {
    hide RowsFor;
    ShareOfFirst(rows, n, t);
    var own, first, rest := PendingRows(pending, t), if rows[0].0 == t then [rows[0].1] else [], RowsFor(rows[1..][..n - 1], t);
    assert PendingRows(Buffered(pending, rows[0]), t) == own + first;
    assert own + (first + rest) == own + first + rest;
  }

  lemma FirstJoins(tables: map<Text, TableData>, pending: map<Text, seq<Row>>, rows: seq<(Text, Row)>)
    requires rows != [] && (forall t :: t in tables ==> TableInv(tables[t])) && AllPendingFit(tables, pending)
    ensures Accepts(tables, pending, rows[0]) <==> JoinsAt(tables, pending, rows, 0)
  {
    hide TableInv, Acceptable, PendingFits, MayJoin;
    var t := rows[0].0;
    assert rows[..0] == [];
    if t in tables {
      NothingPendingFits(tables[t]);
      AcceptableMeans(tables[t], PendingRows(pending, t), rows[0].1);
      assert PendingRows(pending, t) + [] == PendingRows(pending, t);
    }
  }

  lemma LaterJoins(tables: map<Text, TableData>, pending: map<Text, seq<Row>>, rows: seq<(Text, Row)>, i: nat)
    requires 0 < i < |rows|
    ensures JoinsAt(tables, pending, rows, i) <==> JoinsAt(tables, Buffered(pending, rows[0]), rows[1..], i - 1)
  {
    hide MayJoin, RowsFor;
    var t := rows[i].0;
    ShareOfFirst(rows, i, t);
    var own, first := PendingRows(pending, t), if rows[0].0 == t then [rows[0].1] else [];
    assert PendingRows(Buffered(pending, rows[0]), t) == own + first;
    var rest := RowsFor(rows[1..][..i - 1], t);
    assert own + (first + rest) == (own + first) + rest;
  }

  // ---- a whole transaction ----

  /** The rows after trying to insert each of `more` in turn. */
  function JoinEach(schema: TableSchema, rows: seq<Row>, more: seq<Row>): seq<Row> {
    if more == [] then rows
    else
      var before := JoinEach(schema, rows, more[..|more| - 1]);
      if MayJoin(schema, before, more[|more| - 1]) then before + [more[|more| - 1]] else before
  }

  /** The rows `c` tries to insert into `t`, in order. */
  function Tried(steps: seq<Step>, c: nat, t: Text): seq<Row> {
    if steps == [] then []
    else
      var front, last := Tried(steps[..|steps| - 1], c, t), steps[|steps| - 1];
      if last.Buffer? && last.c == c && last.table == t then front + [last.row] else front
  }

  /** No crash, and `c` does nothing but INSERTs and taking locks. */
  predicate Working(steps: seq<Step>, c: nat) {
    forall i :: 0 <= i < |steps| ==>
      && !steps[i].CrashAt?
      && (Actor(steps[i]) == Some(c) ==> steps[i].Buffer? || steps[i].Lock?)
  }

  /** `c` is in a transaction, idle between statements, and holds `t`. */
  predicate InTransactionOn(s: System, c: nat, t: Text) {
    c in s.clients && s.clients[c].inTransaction && s.clients[c].stage.Ready? && t in s.tables && Holds(s.owner, c, t)
  }

  lemma LockExact(s: System, c: nat, t: Text)
    requires Enabled(s, Lock(c, t))
    ensures var n := Next(s, Lock(c, t));
      && n.tables == s.tables && n.log == s.log && n.clients == s.clients
      && t !in s.owner && n.owner == s.owner[t := c]
  {}

  lemma {:induction false} RunAppend(s: System, a: seq<Step>, b: seq<Step>)
    ensures Run(s, a + b) == match Run(s, a) case Some(m) => Run(m, b) case None => None
    decreases |a|
  {
    hide Enabled, Next;
    if a == [] {
      assert a + b == b;
    } else {
      assert (a + b)[0] == a[0] && (a + b)[1..] == a[1..] + b;
      if Enabled(s, a[0]) {
        RunAppend(Next(s, a[0]), a[1..], b);
      }
    }
  }

  lemma RunOne(s: System, step: Step)
    ensures Run(s, [step]) == if Enabled(s, step) then Some(Next(s, step)) else None
  {
    hide Enabled, Next;
    assert [step][1..] == [];
    if Enabled(s, step) {
      assert Run(Next(s, step), []) == Some(Next(s, step));
    }
  }

  /** One step of anyone while `c` works on `t`. */
  lemma WorkStep(s: System, step: Step, c: nat, t: Text)
    requires Inv(s) && Enabled(s, step) && InTransactionOn(s, c, t) && Working([step], c)
    ensures var n := Next(s, step);
      && InTransactionOn(n, c, t) && SameTable(s.tables[t], n.tables[t])
      && Seen(n, c, t) == JoinEach(s.tables[t].schema, Seen(s, c, t), Tried([step], c, t))
  {
    hide Inv, Enabled, Next, MayJoin;
    assert [step][0] == step && [step][..0] == [];
    SameTableSelf(s.tables[t]);
    var seen := Seen(s, c, t);
    if Actor(step) != Some(c) {
      OthersLeave(s, step, c, t);
      assert Tried([step], c, t) == [];
    } else if step.Lock? {
      LockExact(s, c, step.table);
      assert Tried([step], c, t) == [];
    } else {
      BufferExact(s, c, step.table, step.row);
      BufferTable(s, step);
      assert seen + [] == seen;
      assert Tried([step], c, t) == if step.table == t then [step.row] else [];
      assert [step.row][..0] == [];
    }
  }

  lemma BufferTable(s: System, step: Step)
    requires step.Buffer? && Enabled(s, step)
    ensures step.table in s.tables
  {}

  /** What a transaction sees of a table it holds is what it saw before and each row it
      inserted since that could join, in order, whatever others do meanwhile. */
  lemma {:induction false} SeenAccumulates(s: System, work: seq<Step>, c: nat, t: Text)
    requires Inv(s) && Run(s, work).Some? && Working(work, c) && InTransactionOn(s, c, t)
    ensures var m := Run(s, work).value;
      && Inv(m) && InTransactionOn(m, c, t) && m.tables[t].schema == s.tables[t].schema
      && Seen(m, c, t) == JoinEach(s.tables[t].schema, Seen(s, c, t), Tried(work, c, t))
    decreases |work|
  {
    hide Inv, Enabled, Next, MayJoin, Run, Seen;
    if work == [] {
      NoSteps(s);
    } else {
      var n := |work| - 1;
      assert work == work[..n] + [work[n]];
      RunAppend(s, work[..n], [work[n]]);
      SeenAccumulates(s, work[..n], c, t);
      var m := Run(s, work[..n]).value;
      RunOne(m, work[n]);
      assert Working([work[n]], c);
      WorkStep(m, work[n], c, t);
      StepKeeps(m, work[n]);
      TriedOne(work[n], c, t);
      JoinOne(s.tables[t].schema, Seen(s, c, t), Tried(work[..n], c, t), work[n], c, t);
    }
  }

  lemma NoSteps(s: System)
    ensures Run(s, []) == Some(s)
  {}

  lemma TriedOne(step: Step, c: nat, t: Text)
    ensures Tried([step], c, t) == if step.Buffer? && step.c == c && step.table == t then [step.row] else []
  {
    assert [step][..0] == [];
  }

  lemma JoinOne(schema: TableSchema, rows: seq<Row>, more: seq<Row>, step: Step, c: nat, t: Text)
    ensures JoinEach(schema, JoinEach(schema, rows, more), Tried([step], c, t))
         == JoinEach(schema, rows, if step.Buffer? && step.c == c && step.table == t then more + [step.row] else more)
  {
    hide MayJoin;
    TriedOne(step, c, t);
    if step.Buffer? && step.c == c && step.table == t {
      assert (more + [step.row])[..|more|] == more;
      assert [step.row][..0] == [];
    }
  }

  /** A committed transaction: interleaved with anything others do, each table it held
      ends up with the rows it had when the transaction locked it, followed by exactly the
      inserted rows that could join, each checked against all before it, in order. */
  lemma TransactionLands(s: System, work: seq<Step>, finish: seq<Step>, c: nat, t: Text)
    requires Inv(s) && Run(s, work + finish).Some? && Working(work, c) && Commits(finish, c)
    requires InTransactionOn(s, c, t) && t !in s.clients[c].pending
    ensures var end := Run(s, work + finish).value;
      && t in end.tables
      && end.tables[t].rows == JoinEach(s.tables[t].schema, s.tables[t].rows, Tried(work, c, t))
  {
    hide Inv, Run, MayJoin, Commits, JoinEach, Tried, Working;
    RunAppend(s, work, finish);
    assert s.tables[t].rows + [] == s.tables[t].rows;
    SeenAccumulates(s, work, c, t);
    var m := Run(s, work).value;
    CommitLandsSeen(m, finish, c, t);
  }

  /** The same in every run of the server. */
  lemma AlwaysTransactionLands(base: seq<Entry>, before: seq<Step>, work: seq<Step>, finish: seq<Step>, c: nat, t: Text)
    requires Legal(base) && Run(Start(base), before).Some?
    requires var s := Run(Start(base), before).value;
      && Run(s, work + finish).Some? && Working(work, c) && Commits(finish, c)
      && InTransactionOn(s, c, t) && t !in s.clients[c].pending
    ensures var s := Run(Start(base), before).value;
      && var end := Run(s, work + finish).value;
      && t in end.tables
      && end.tables[t].rows == JoinEach(s.tables[t].schema, s.tables[t].rows, Tried(work, c, t))
  {
    hide Inv, Run, Start, Legal, JoinEach, Tried, Working, Commits;
    Reached(base, before);
    TransactionLands(Run(Start(base), before).value, work, finish, c, t);
  }

  // ---- the other statements ----

  /** BEGIN opens an empty transaction and does nothing else. */
  lemma BeginExact(s: System, c: nat)
    requires Enabled(s, Begin(c))
    ensures var n := Next(s, Begin(c));
      OnlyClient(s, n, c) && n.clients[c] == Client(true, map[], Ready)
  {}

  /** ROLLBACK, a refused statement and an error from the log end alike: nothing the
      connection did is seen by anyone, and its locks, and only its locks, are free. */
  lemma GivesUpExact(s: System, step: Step, c: nat)
    requires Enabled(s, step) && (step == LetGo(c) || step == Fail(c))
    ensures var n := Next(s, step);
      && n.tables == s.tables && n.log == s.log && Idle(n, c)
      && n.clients.Keys == s.clients.Keys
      && (forall d :: d in s.clients && d != c ==> n.clients[d] == s.clients[d])
      && (forall d, t :: Holds(n.owner, d, t) <==> d != c && Holds(s.owner, d, t))
  {}

  // ---- an autocommit INSERT ----

  /** Whoever acts, and short of a crash, a connection's own state is its own. */
  lemma OthersKeepClient(s: System, step: Step, c: nat)
    requires Inv(s) && Enabled(s, step) && c in s.clients && Actor(step) != Some(c) && !step.CrashAt?
    ensures c in Next(s, step).clients && Next(s, step).clients[c] == s.clients[c]
  {
    hide GC.Inv, AllInv, ClientsOk, TicketsOk, Awaited, MemoryAgrees, MemoryPrefix, ReplayIds, GC.Enabled, GC.Next, Lists,
         Acceptable, BatchInsertable, ApplyRows, Reloaded, Without;
    if step.Restart? {
      ReopenDown(s.log);
    }
  }

  lemma AllSound(s: System)
    requires Inv(s) && s.log.node.Up?
    ensures forall t :: t in s.tables ==> TableInv(s.tables[t])
  {
    hide Inv, TableInv;
    forall t | t in s.tables
      ensures TableInv(s.tables[t])
    {
      TableSound(s, t);
    }
  }

  /** The first step of an autocommit INSERT: its rows go on as they are, exactly if they
      could be inserted one by one; otherwise the statement is over and changed nothing. */
  lemma InsertExact(s: System, c: nat, rows: seq<(Text, Row)>)
    requires Inv(s) && Enabled(s, Insert(c, rows))
    ensures var n := Next(s, Insert(c, rows));
      && n.tables == s.tables && n.log == s.log && n.clients.Keys == s.clients.Keys
      && (forall d :: d in s.clients && d != c ==> n.clients[d] == s.clients[d])
      && if rows != [] && MayJoinAll(s.tables, rows)
         then n.owner == s.owner && n.clients[c] == Client(false, map[], Checked(rows))
         else Idle(n, c) && forall d, t :: Holds(n.owner, d, t) <==> d != c && Holds(s.owner, d, t)
  {
    hide Inv, TableInv, MayJoinAll, BatchInsertable, RowsHeld;
    AllSound(s);
    BatchMeans(s.tables, rows);
  }

  /** `c` has the batch `rows` checked or logged, and not applied. */
  predicate Carrying(s: System, c: nat, rows: seq<(Text, Row)>) {
    c in s.clients && !s.clients[c].stage.Ready? && s.clients[c].stage.rows == rows
  }

  /** The log holds the batch as one acknowledged record. */
  predicate Recorded(log: GC.State, rows: seq<(Text, Row)>) {
    exists id :: id in log.acked && id < |log.submitted| && log.submitted[id] == Transaction(rows)
  }

  lemma CarryStep(s: System, step: Step, c: nat, rows: seq<(Text, Row)>)
    requires Inv(s) && Enabled(s, step) && Carrying(s, c, rows) && !step.CrashAt?
    requires Actor(step) == Some(c) ==> step.Commit? || step.Send? || step.Apply?
    ensures step != Apply(c) ==> Carrying(Next(s, step), c, rows)
    ensures step == Apply(c) ==> Recorded(Next(s, step).log, rows)
  {
    hide GC.Inv, AllInv, ClientsOk, Awaited, MemoryAgrees, MemoryPrefix, ReplayIds, GC.Enabled, GC.Next, BatchInsertable,
         ApplyRows, Without;
    if Actor(step) != Some(c) {
      OthersKeepClient(s, step, c);
    } else if step.Apply? {
      var id := s.clients[c].stage.id;
      assert Waits(s.clients, c, id);
      assert s.log.submitted[id] == Transaction(rows);
    }
  }

  lemma {:induction false} CarriedIsRecorded(s: System, steps: seq<Step>, c: nat, rows: seq<(Text, Row)>)
    requires Inv(s) && Run(s, steps).Some? && Commits(steps, c) && Carrying(s, c, rows)
    ensures Recorded(Run(s, steps).value.log, rows)
    decreases |steps|
  {
    hide Inv, Enabled, Next, Carrying, Recorded;
    var step := steps[0];
    StepKeeps(s, step);
    CarryStep(s, step, c, rows);
    if step != Apply(c) {
      LaterCommits(steps, c);
      CarriedIsRecorded(Next(s, step), steps[1..], c, rows);
    } else {
      assert steps[1..] == [];
    }
  }

  /** An autocommit INSERT that succeeds, interleaved with anything others do: each table
      it holds ends up with its rows and this statement's own, in order, and the log has
      the statement as one acknowledged record. */
  lemma InsertLands(s: System, rows: seq<(Text, Row)>, finish: seq<Step>, c: nat, t: Text)
    requires Inv(s) && Run(s, [Insert(c, rows)] + finish).Some? && Commits(finish, c)
    requires t in s.tables && Holds(s.owner, c, t)
    ensures var end := Run(s, [Insert(c, rows)] + finish).value;
      && MayJoinAll(s.tables, rows) && Recorded(end.log, rows)
      && t in end.tables && end.tables[t].rows == s.tables[t].rows + RowsFor(rows, t)
  {
    hide Inv, Run, Enabled, Next, MayJoinAll, Commits, Recorded, RowsFor;
    var step := Insert(c, rows);
    RunAppend(s, [step], finish);
    RunOne(s, step);
    InsertExact(s, c, rows);
    InsertClient(s, c, rows);
    StepKeeps(s, step);
    var n := Next(s, step);
    if Idle(n, c) {
      IdleNeverApplies(n, finish, c);
    } else {
      CommitLandsSeen(n, finish, c, t);
      CarriedIsRecorded(n, finish, c, rows);
    }
  }

  /** The same in every run of the server. */
  lemma AlwaysInsertLands(base: seq<Entry>, before: seq<Step>, rows: seq<(Text, Row)>, finish: seq<Step>, c: nat, t: Text)
    requires Legal(base) && Run(Start(base), before).Some?
    requires var s := Run(Start(base), before).value;
      && Run(s, [Insert(c, rows)] + finish).Some? && Commits(finish, c)
      && t in s.tables && Holds(s.owner, c, t)
    ensures var s := Run(Start(base), before).value;
      && var end := Run(s, [Insert(c, rows)] + finish).value;
      && MayJoinAll(s.tables, rows) && Recorded(end.log, rows)
      && t in end.tables && end.tables[t].rows == s.tables[t].rows + RowsFor(rows, t)
  {
    hide Inv, Run, Start, Legal, Commits, MayJoinAll, Recorded, RowsFor;
    Reached(base, before);
    InsertLands(Run(Start(base), before).value, rows, finish, c, t);
  }

  lemma InsertClient(s: System, c: nat, rows: seq<(Text, Row)>)
    requires Enabled(s, Insert(c, rows))
    ensures c in s.clients
  {}

  // ---- and they can always be completed ----

  /** When each statement may go ahead: nothing but the connection's own state and the
      lock it asks for stands in its way. */
  lemma StatementsMayStart(s: System, c: nat, t: Text, row: Row)
    requires s.log.node.Up? && c in s.clients && s.clients[c].stage.Ready?
    ensures !s.clients[c].inTransaction && (forall u :: !Holds(s.owner, c, u)) ==> Enabled(s, Begin(c))
    ensures t !in s.owner ==> Enabled(s, Lock(c, t))
    ensures s.clients[c].inTransaction && Holds(s.owner, c, t) && t in s.tables ==> Enabled(s, Buffer(c, t, row))
    ensures Enabled(s, LetGo(c))
  {
    if forall u :: !Holds(s.owner, c, u) {
      assert forall u :: u in s.owner ==> s.owner[u] != c by {
        assert forall u :: u in s.owner && s.owner[u] == c ==> Holds(s.owner, c, u);
      }
    }
  }

  /** The writer thread is waiting for work, behind a file of whole records. */
  predicate Calm(s: System) {
    s.log.node.Up? && s.log.node.phase.Waiting? && s.log.node.queue == [] && s.log.node.torn == 0
  }

  function Writers(steps: seq<GC.Step>): (r: seq<Step>)
    ensures |r| == |steps|
  {
    seq(|steps|, i requires 0 <= i < |steps| => Writer(steps[i]))
  }

  lemma QuietTorn(log: GC.State, step: GC.Step)
    requires GC.Enabled(log, step) && GC.Quiet(step) && log.node.Up? && log.node.torn == 0
    ensures !GC.Spoils(log, step)
    ensures GC.Next(log, step).node.Up? && GC.Next(log, step).node.torn == 0
  {
    hide Recovery.Frames;
  }

  lemma WriterNext(s: System, w: GC.Step)
    requires GC.Enabled(s.log, w) && GC.Quiet(w) && !GC.Spoils(s.log, w)
    ensures Enabled(s, Writer(w)) && Next(s, Writer(w)) == s.(log := GC.Next(s.log, w))
  {
    hide GC.Enabled, GC.Next, GC.Quiet, GC.Spoils;
  }

  /** A run of the writer thread is a run of the server. */
  lemma {:induction false} WriterRuns(s: System, steps: seq<GC.Step>)
    requires s.log.node.Up? && s.log.node.torn == 0 && forall i :: 0 <= i < |steps| ==> GC.Quiet(steps[i])
    requires GC.Run(s.log, steps).Some?
    ensures Run(s, Writers(steps)) == Some(s.(log := GC.Run(s.log, steps).value))
    decreases |steps|
  {
    hide GC.Enabled, GC.Next, GC.Quiet, GC.Spoils, Enabled, Next;
    if steps != [] {
      var w := steps[0];
      QuietTorn(s.log, w);
      WriterNext(s, w);
      assert Writers(steps)[1..] == Writers(steps[1..]);
      WriterRuns(s.(log := GC.Next(s.log, w)), steps[1..]);
    }
  }

  /** Send the batch, one turn of the writer, apply. */
  function Deliver(c: nat): seq<Step> {
    [Send(c)] + (Writers(GC.Turn(1, Recovery.Synced)) + [Apply(c)])
  }

  lemma TurnIsQuiet()
    ensures forall i :: 0 <= i < |GC.Turn(1, Recovery.Synced)| ==> GC.Quiet(GC.Turn(1, Recovery.Synced)[i])
  {}

  /** The log after one batch is submitted to a calm writer and written. */
  lemma OneTurn(log: GC.State, e: Entry)
    requires log.node.Up? && log.node.phase.Waiting? && log.node.queue == [] && Recovery.Storable(e)
    ensures GC.Enabled(log, GC.Submit(e))
    ensures var sent := GC.Next(log, GC.Submit(e));
      && sent.node.Up? && sent.node.torn == log.node.torn && sent.submitted == log.submitted + [e]
      && var done := GC.Run(sent, GC.Turn(1, Recovery.Synced));
      && done.Some? && done.value.node.Up? && done.value.node.phase.Waiting? && done.value.node.queue == []
      && done.value.node.torn == log.node.torn
      && done.value.submitted == log.submitted + [e]
      && done.value.durable == log.durable + [|log.submitted|]
      && done.value.acked == log.acked + {|log.submitted|}
  {
    hide Recovery.Frames, Recovery.Storable, GC.Run, GC.Turn;
    var sent := GC.Next(log, GC.Submit(e));
    assert sent.node.queue == [|log.submitted|];
    GC.TurnRuns(sent, Recovery.Synced);
    assert GC.IdSet([|log.submitted|]) == {|log.submitted|};
  }

  /** From every calm state, a checked batch can be completed, and then everyone sees it. */
  lemma DeliverRuns(s: System, c: nat)
    requires Calm(s) && c in s.clients && s.clients[c].stage.Checked?
    requires Recovery.Storable(Transaction(s.clients[c].stage.rows))
    ensures var rows, end := s.clients[c].stage.rows, Run(s, Deliver(c));
      && end.Some? && Calm(end.value) && Idle(end.value, c)
      && end.value.tables == ApplyRows(s.tables, rows)
      && end.value.log.submitted == s.log.submitted + [Transaction(rows)]
      && end.value.log.durable == s.log.durable + [|s.log.submitted|]
      && (forall d :: d in s.clients && d != c ==> d in end.value.clients && end.value.clients[d] == s.clients[d])
  {
    hide Run, GC.Run, GC.Turn, GC.Next, GC.Enabled, ApplyRows, Recovery.Storable, Writers, GC.Quiet;
    var rows := s.clients[c].stage.rows;
    OneTurn(s.log, Transaction(rows));
    var turn := GC.Turn(1, Recovery.Synced);
    RunAppend(s, [Send(c)], Writers(turn) + [Apply(c)]);
    RunOne(s, Send(c));
    var sent := Next(s, Send(c));
    RunAppend(sent, Writers(turn), [Apply(c)]);
    TurnIsQuiet();
    WriterRuns(sent, turn);
    var done := Run(sent, Writers(turn)).value;
    RunOne(done, Apply(c));
  }

  /** From every calm state, whoever holds the tables of rows that may be inserted can
      insert them. */
  lemma InsertCanComplete(s: System, c: nat, rows: seq<(Text, Row)>)
    requires Inv(s) && Calm(s) && c in s.clients && s.clients[c].stage.Ready? && !s.clients[c].inTransaction
    requires rows != [] && RowsHeld(s.owner, c, rows) && MayJoinAll(s.tables, rows) && Recovery.Storable(Transaction(rows))
    ensures var end := Run(s, [Insert(c, rows)] + Deliver(c));
      end.Some? && Calm(end.value) && Idle(end.value, c) && end.value.tables == ApplyRows(s.tables, rows)
  {
    hide Inv, Run, ApplyRows, MayJoinAll, RowsHeld, Recovery.Storable, Deliver, Next;
    RunAppend(s, [Insert(c, rows)], Deliver(c));
    RunOne(s, Insert(c, rows));
    InsertExact(s, c, rows);
    DeliverRuns(Next(s, Insert(c, rows)), c);
  }

  /** From every calm state, a transaction with anything to commit can commit it. */
  lemma CommitCanComplete(s: System, c: nat, rows: seq<(Text, Row)>)
    requires Inv(s) && Calm(s) && c in s.clients && s.clients[c].stage.Ready? && s.clients[c].inTransaction
    requires rows != [] && Lists(rows, s.clients[c].pending) && Recovery.Storable(Transaction(rows))
    ensures var end := Run(s, [Commit(c, rows)] + Deliver(c));
      end.Some? && Calm(end.value) && Idle(end.value, c) && end.value.tables == ApplyRows(s.tables, rows)
  {
    hide Inv, Run, ApplyRows, BatchInsertable, RowsHeld, Lists, Recovery.Storable, Deliver;
    RunAppend(s, [Commit(c, rows)], Deliver(c));
    RunOne(s, Commit(c, rows));
    CommitPasses(s, c, rows);
    DeliverRuns(Next(s, Commit(c, rows)), c);
  }
}
