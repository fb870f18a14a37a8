/** What every run of the concurrent system promises its clients. */
module Isolation {
  import opened Basics
  import opened Values
  import opened LogFormat
  import opened Tables
  import opened Engine
  import opened Soundness
  import opened Projection
  import opened Pending
  import opened Concurrency
  import Recovery
  import GC = GroupCommit

  ghost function Run(s: System, steps: seq<Step>): Option<System>
    decreases |steps|
  {
    if steps == [] then Some(s)
    else if Enabled(s, steps[0]) then Run(Next(s, steps[0]), steps[1..])
    else None
  }

  /** A server that has just opened the log `base`. */
  function Start(base: seq<Entry>): System {
    System(GC.Opened(base), Replay(base).tables, map[], map[])
  }

  lemma StartInv(base: seq<Entry>)
    requires Recovery.AllStorable(base) && AllInv(Replay(base).tables)
    ensures Inv(Start(base))
  {
    hide Replay, AllInv, Recovery.Storable, MemoryAgrees, ClientsOk, TicketsOk, Awaited, GC.Inv;
    var log := GC.Opened(base);
    GC.OpenedInv(base);
    assert GC.Order(log) == log.durable && GC.Undurable(log) == [];
    assert GC.Entries(base, log.durable) == base;
    NobodyOk(Replay(base).tables, base);
    ReplayedAgrees(base, log.durable);
  }

  lemma {:induction false} RunKeeps(s: System, steps: seq<Step>)
    requires Inv(s) && Run(s, steps).Some?
    ensures Inv(Run(s, steps).value)
    decreases |steps|
  {
    hide Inv, Enabled, Next;
    if steps != [] {
      StepKeeps(s, steps[0]);
      RunKeeps(Next(s, steps[0]), steps[1..]);
    }
  }

  // ---- memory and replay ----

  /** One table and the replay of everything on its way or on disk. */
  lemma TableIsReplay(s: System, t: Text)
    requires Inv(s) && s.log.node.Up? && t in s.tables
    ensures t in Replayed(s.log) && TableInv(s.tables[t])
    ensures SameTable(Replayed(s.log)[t], PushAll(s.tables[t], InFlight(s.clients, s.owner, GC.Order(s.log), t)))
    ensures WaitId(s.clients, s.owner, t).None? ==> SameTable(Replayed(s.log)[t], s.tables[t])
  {
    hide GC.Inv, ClientsOk, TicketsOk, Awaited, TableInv, Shaped, InFlight, PushAll, ReplayIds, IsBuilt, SameTable;
    var flight := InFlight(s.clients, s.owner, GC.Order(s.log), t);
    var replayed, memory := Replayed(s.log)[t], s.tables[t];
    assert TableAgrees(replayed, memory, flight);
    MemoryInv(Replayed(s.log), s.tables, s.clients, s.owner, GC.Order(s.log));
    ReplayedShaped(s.log, t);
    PushAllRows(memory, flight);
    PushAllShaped(memory, flight);
    ShapedSame(replayed, PushAll(memory, flight));
    if WaitId(s.clients, s.owner, t).None? {
      NoFlight(s.clients, s.owner, GC.Order(s.log), t);
      assert memory.rows + [] == memory.rows;
      ShapedSame(replayed, memory);
    }
  }

  lemma NoFlight(clients: map<nat, Client>, owner: map<Text, nat>, ids: seq<nat>, t: Text)
    requires WaitId(clients, owner, t).None?
    ensures InFlight(clients, owner, ids, t) == []
  {}

  lemma ReplayedShaped(log: GC.State, t: Text)
    requires GC.Inv(log) && t in Replayed(log)
    ensures Shaped(Replayed(log)[t])
  {
    hide GC.Inv, Replay, IsBuilt, Shaped, GC.Named;
    LogFacts(log);
    ReplayBuilt(GC.Entries(log.submitted, GC.Order(log)));
    BuiltShaped(Replayed(log)[t]);
  }

  /** In every run from any sound log, at every moment the server is up: every table keeps
      its invariant, and it is the replay of the log short of its lock holder's one batch
      that is logged but not applied. */
  lemma MemoryIsReplay(base: seq<Entry>, steps: seq<Step>, t: Text)
    requires Legal(base) && Run(Start(base), steps).Some?
    ensures var s := Run(Start(base), steps).value;
      s.log.node.Up? && t in s.tables ==>
        && t in Replayed(s.log) && TableInv(s.tables[t])
        && SameTable(Replayed(s.log)[t], PushAll(s.tables[t], InFlight(s.clients, s.owner, GC.Order(s.log), t)))
        && (WaitId(s.clients, s.owner, t).None? ==> SameTable(Replayed(s.log)[t], s.tables[t]))
  {
    hide Inv, Run, Start, AllInv, Recovery.AllStorable, TableInv, SameTable, InFlight, WaitId, Replayed, PushAll;
    StartInv(base);
    RunKeeps(Start(base), steps);
    var s := Run(Start(base), steps).value;
    if s.log.node.Up? && t in s.tables {
      TableIsReplay(s, t);
    }
  }

  /** While no write is in flight, opening the file as it stands would give exactly the
      tables in memory. */
  lemma FileIsMemory(s: System)
    requires Inv(s) && s.log.node.Up? && forall c :: c in s.clients ==> !s.clients[c].stage.Waiting?
    ensures Recovery.Recover(s.log.node.file).Ok?
    ensures SameTables(Reloaded(s.log.node.file), s.tables)
  {
    hide GC.Inv, AllInv, ClientsOk, TicketsOk, ReplayIds, MemoryAgrees, Recovery.Recover, Reloaded, SameTable, WaitId;
    NobodyWaits(s.clients, GC.Undurable(s.log));
    assert GC.Undurable(s.log) == [];
    DurableFile(s.log);
    assert Replayed(s.log).Keys == s.tables.Keys by { SameKeys(s); }
    forall t | t in s.tables
      ensures SameTable(Replayed(s.log)[t], s.tables[t])
    {
      assert WaitId(s.clients, s.owner, t).None? by { NoWaitId(s.clients, s.owner, t); }
      TableIsReplay(s, t);
    }
  }

  lemma NoWaitId(clients: map<nat, Client>, owner: map<Text, nat>, t: Text)
    requires forall c :: c in clients ==> !clients[c].stage.Waiting?
    ensures WaitId(clients, owner, t).None?
  {}

  lemma SameKeys(s: System)
    requires Inv(s)
    ensures Replayed(s.log).Keys == s.tables.Keys
  {
    hide GC.Inv, AllInv, ClientsOk, TicketsOk, Awaited, ReplayIds, TableAgrees;
  }

  lemma NobodyWaits(clients: map<nat, Client>, ids: seq<nat>)
    requires Awaited(clients, ids) && forall c :: c in clients ==> !clients[c].stage.Waiting?
    ensures ids == []
  {
    assert ids == [] || IsAwaited(clients, ids[0]);
    assert forall id: nat :: !IsAwaited(clients, id);
  }

  lemma DurableFile(log: GC.State)
    requires GC.Inv(log) && log.node.Up? && GC.Undurable(log) == []
    ensures Recovery.Recover(log.node.file).Ok? && Reloaded(log.node.file) == Replayed(log)
  {
    hide Recovery.Recover, Recovery.Frames, Replay, Recovery.Storable;
    GC.OrderParts(log);
    assert GC.Order(log) == log.durable;
    var es := GC.Entries(log.submitted, log.durable);
    assert Recovery.AllStorable(es);
    Recovery.RecoverFrames(es);
  }

  // ---- visible rows only grow ----

  lemma GrowsSelf(tables: map<Text, TableData>)
    ensures MemoryPrefix(tables, tables)
  {}

  lemma ApplyGrows(tables: map<Text, TableData>, rows: seq<(Text, Row)>)
    ensures MemoryPrefix(ApplyRows(tables, rows), tables)
  {
    hide ApplyRows, RowsFor, PushAll;
    ApplyRowsEach(tables, rows);
    forall t | t in tables
      ensures var r := ApplyRows(tables, rows)[t]; r.schema == tables[t].schema && tables[t].rows <= r.rows
    {
      PushAllRows(tables[t], RowsFor(rows, t));
    }
  }

  lemma StepGrows(s: System, step: Step)
    requires Inv(s) && Enabled(s, step)
    ensures MemoryPrefix(Next(s, step).tables, s.tables)
  {
    hide Inv, GC.Enabled, GC.Next, Lists, Acceptable, BatchInsertable, RowsHeld, MemoryPrefix, ApplyRows, Reloaded;
    GrowsSelf(s.tables);
    match step
    case Restart => RestartKeeps(s);
    case Apply(c) => ApplyGrows(s.tables, s.clients[c].stage.rows);
    case ReserveNext(t) => ReserveGrows(s.tables, t);
    case _ =>
  }

  lemma ReserveGrows(tables: map<Text, TableData>, t: Text)
    requires t in tables && Reserve(tables[t]).Ok?
    ensures MemoryPrefix(tables[t := Reserve(tables[t]).value.1], tables)
  {}

  /** Durability as clients see it: whatever rows are visible at some point of a run are,
      in the same places, among those visible at every later point, across any number of
      crashes and restarts. */
  lemma {:induction false} VisibleStays(s: System, steps: seq<Step>)
    requires Inv(s) && Run(s, steps).Some?
    ensures MemoryPrefix(Run(s, steps).value.tables, s.tables)
    decreases |steps|
  {
    hide Inv, Enabled, Next, MemoryPrefix;
    if steps == [] {
      GrowsSelf(s.tables);
    } else {
      StepKeeps(s, steps[0]);
      StepGrows(s, steps[0]);
      VisibleStays(Next(s, steps[0]), steps[1..]);
      GrowsFurther(s.tables, Next(s, steps[0]).tables, Run(s, steps).value.tables);
    }
  }

  lemma GrowsFurther(a: map<Text, TableData>, b: map<Text, TableData>, c: map<Text, TableData>)
    requires MemoryPrefix(b, a) && MemoryPrefix(c, b)
    ensures MemoryPrefix(c, a)
  {}

  // ---- transactions ----

  function Actor(step: Step): Option<nat> {
    match step
    case Connect(c) => Some(c)
    case Begin(c) => Some(c)
    case Lock(c, _) => Some(c)
    case Buffer(c, _, _) => Some(c)
    case Insert(c, _) => Some(c)
    case Commit(c, _) => Some(c)
    case Send(c) => Some(c)
    case Apply(c) => Some(c)
    case Fail(c) => Some(c)
    case LetGo(c) => Some(c)
    case _ => None
  }

  /** What connection `c` sees in table `t`: the committed rows followed by its own. */
  function Seen(s: System, c: nat, t: Text): seq<Row>
    requires c in s.clients && t in s.tables
  {
    s.tables[t].rows + Own(s.clients[c], t)
  }

  function Own(client: Client, t: Text): seq<Row> {
    if client.stage.Ready? then PendingRows(client.pending, t) else RowsFor(client.stage.rows, t)
  }

  /** `c` holds table `t`, and with it what it sees there. */
  predicate Holding(s: System, c: nat, t: Text) {
    c in s.clients && t in s.tables && Holds(s.owner, c, t)
  }

  /** Nobody else can touch a table that `c` holds, nor `c` itself. */
  lemma OthersLeave(s: System, step: Step, c: nat, t: Text)
    requires Inv(s) && Enabled(s, step) && Actor(step) != Some(c) && !step.CrashAt?
    requires c in s.clients && t in s.tables && Holds(s.owner, c, t)
    ensures var n := Next(s, step);
      && c in n.clients && n.clients[c] == s.clients[c] && Holds(n.owner, c, t)
      && t in n.tables && SameTable(s.tables[t], n.tables[t])
  {
    hide GC.Inv, AllInv, ClientsOk, TicketsOk, Awaited, MemoryAgrees, ReplayIds, GC.Enabled, GC.Next, Lists, Acceptable,
         BatchInsertable, ApplyRows, Reloaded;
    SameTableSelf(s.tables[t]);
    match step
    case Restart => ReopenDown(s.log);
    case Apply(d) =>
      OneOf(s.tables, s.owner, s.clients, d);
      HeldByClient(s.tables, s.owner, d, s.clients[d]);
      AppliedElsewhere(s.tables, s.owner, d, s.clients[d].stage.rows, t);
    case _ =>
  }

  lemma ReopenDown(log: GC.State)
    requires GC.Enabled(log, GC.Reopen)
    ensures log.node.Down?
  {
    hide Recovery.Recover;
  }

  /** COMMIT's own steps leave what the transaction sees of a table it holds as it was, or
      end it at once if it wrote nothing; the last of them makes the table equal to it. */
  lemma CommitStep(s: System, step: Step, c: nat, t: Text)
    requires Inv(s) && Enabled(s, step) && Holding(s, c, t)
    requires step.Commit? || step.Send? || step.Apply?
    requires Actor(step) == Some(c)
    ensures var n := Next(s, step);
      && t in n.tables
      && (!step.Apply? ==> (step.Commit? && Idle(n, c)) || (Holding(n, c, t) && Seen(n, c, t) == Seen(s, c, t)))
      && (step.Apply? ==> n.tables[t].rows == Seen(s, c, t))
  {
    hide Inv, GC.Enabled, GC.Next, BatchInsertable, ApplyRows, RowsFor, PushAll, Without;
    match step
    case Commit(_, rows) =>
      CommitPasses(s, c, rows);
      assert RowsFor(rows, t) == PendingRows(s.clients[c].pending, t);
    case Send(_) =>
    case Apply(_) =>
      ApplyRowsAt(s.tables, s.clients[c].stage.rows, t);
      PushAllRows(s.tables[t], RowsFor(s.clients[c].stage.rows, t));
  }

  /** Between statements, outside a transaction. */
  predicate Idle(s: System, c: nat) {
    c in s.clients && s.clients[c] == IDLE
  }

  lemma IdleStays(s: System, step: Step, c: nat)
    requires Inv(s) && Enabled(s, step) && Idle(s, c) && !step.CrashAt?
    requires Actor(step) == Some(c) ==> step.Commit? || step.Send? || step.Apply?
    ensures Actor(step) != Some(c) && Idle(Next(s, step), c)
  {
    hide GC.Inv, AllInv, ClientsOk, TicketsOk, Awaited, MemoryAgrees, MemoryPrefix, ReplayIds, GC.Enabled, GC.Next, Lists,
         Acceptable, BatchInsertable, ApplyRows, Reloaded, Without;
    if step.Restart? {
      ReopenDown(s.log);
    }
  }

  /** Outside a transaction there is nothing to commit. */
  lemma {:induction false} IdleNeverApplies(s: System, steps: seq<Step>, c: nat)
    requires Inv(s) && Idle(s, c) && Commits(steps, c)
    ensures Run(s, steps).None?
    decreases |steps|
  {
    hide Inv, Enabled, Next;
    var step := steps[0];
    if Enabled(s, step) {
      IdleStays(s, step, c);
      StepKeeps(s, step);
      LaterCommits(steps, c);
      IdleNeverApplies(Next(s, step), steps[1..], c);
    }
  }

  lemma LaterCommits(steps: seq<Step>, c: nat)
    requires Commits(steps, c) && steps[0] != Apply(c)
    ensures Commits(steps[1..], c)
  {
    assert steps[1..][|steps| - 2] == Apply(c);
    assert forall i :: 0 <= i < |steps| - 1 ==> steps[1..][i] == steps[i + 1];
  }

  /** From `s` on, connection `c` does nothing but commit, and that succeeds in the end. */
  predicate Commits(steps: seq<Step>, c: nat) {
    && steps != [] && steps[|steps| - 1] == Apply(c)
    && forall i :: 0 <= i < |steps| ==>
         && !steps[i].CrashAt?
         && (Actor(steps[i]) == Some(c) ==> steps[i].Commit? || steps[i].Send? || steps[i].Apply?)
         && (steps[i] == Apply(c) ==> i == |steps| - 1)
  }

  /** A successful COMMIT, interleaved with anything other connections do, leaves each
      table it holds equal to what the transaction saw when it last looked. */
  lemma {:induction false} CommitLandsSeen(s: System, steps: seq<Step>, c: nat, t: Text)
    requires Inv(s) && Run(s, steps).Some? && Commits(steps, c) && Holding(s, c, t)
    ensures t in Run(s, steps).value.tables
    ensures Run(s, steps).value.tables[t].rows == Seen(s, c, t)
    decreases |steps|
  {
    hide Inv, Enabled, Next, Own;
    var step := steps[0];
    StepKeeps(s, step);
    var n := Next(s, step);
    if Actor(step) == Some(c) {
      CommitStep(s, step, c, t);
    } else {
      OthersLeave(s, step, c, t);
      assert Own(n.clients[c], t) == Own(s.clients[c], t);
    }
    if step != Apply(c) {
      LaterCommits(steps, c);
      if Idle(n, c) {
        IdleNeverApplies(n, steps[1..], c);
      } else {
        CommitLandsSeen(n, steps[1..], c, t);
      }
    } else {
      assert steps[1..] == [];
    }
  }

  /** Until COMMIT applies them, none of a transaction's rows is in storage or in the log:
      the log holds no more rows of the table than storage does, and no row in storage
      has the key of a pending one. */
  lemma PendingInvisible(s: System, c: nat, t: Text)
    requires Inv(s) && c in s.clients && s.clients[c].stage.Ready? && t in s.clients[c].pending
    requires t in s.tables
    ensures KeysApart(s.tables[t], s.clients[c].pending[t])
    ensures t in Replayed(s.log) && Replayed(s.log)[t].rows == s.tables[t].rows
  {
    hide GC.Inv, AllInv, ClientsOk, TicketsOk, Awaited, MemoryAgrees, ReplayIds, BatchInsertable, SameTable, PushAll;
    var table, pending := s.tables[t], s.clients[c].pending[t];
    OneOf(s.tables, s.owner, s.clients, c);
    assert Holds(s.owner, c, t) && PendingFits(table, pending);
    TableIsReplay(s, t);
    assert WaitId(s.clients, s.owner, t).None?;
    SameRows(Replayed(s.log)[t], table);
    forall i, row | 0 <= i < |pending| && row in table.rows && table.keyIndex.Some?
      ensures KeyOf(table, row) != KeyOf(table, pending[i])
    {
      assert HasWidth(table, pending[i]) && KeyFree(table, pending[i]);
      KeyIndexed(table, row);
    }
  }

  /** No pending row has the key of a row in the table. */
  ghost predicate KeysApart(t: TableData, pending: seq<Row>) {
    t.keyIndex.Some? ==>
      forall i, row :: 0 <= i < |pending| && row in t.rows ==> KeyOf(t, row) != KeyOf(t, pending[i])
  }

  lemma SameRows(a: TableData, b: TableData)
    requires SameTable(a, b)
    ensures a.rows == b.rows
  {}

  lemma KeyIndexed(t: TableData, row: Row)
    requires TableInv(t) && t.keyIndex.Some? && row in t.rows
    ensures t.keyIndex.value < |row| && row[t.keyIndex.value] in t.index
  {}

  // ---- all or nothing ----

  /** After a crash, replay holds either all of a waiting connection's batch, in every
      table it wrote, or none of it in any. */
  lemma CrashAtomic(s: System, cut: nat, c: nat)
    requires Inv(s) && Enabled(s, CrashAt(cut)) && c in s.clients && s.clients[c].stage.Waiting?
    ensures AllOrNothing(Replayed(Next(s, CrashAt(cut)).log), s, c)
  {
    hide GC.Inv, AllInv, ClientsOk, TicketsOk, Awaited, TableAgrees, TableAdds, GC.Next, GC.Enabled, ReplayIds,
         RowsLocked, GC.Increasing, GC.Named, InFlight, RowsFor, MemoryPrefix;
    LogFacts(s.log);
    var m := GC.CrashOrder(s.log, cut);
    LockedRows(s);
    var d, u := s.log.durable, GC.Undurable(s.log);
    var a, b := u[..m], u[m..];
    assert u == a + b && d + u == d + (a + b) == d + a + b;
    Without2(d, a, b);
    NamedWithout(s.log.submitted, d, a, b);
    AwaitedSub(s.clients, a, b);
    AwaitedAdds(s.log.submitted, s.clients, s.owner, d, a + b);
    AwaitedAdds(s.log.submitted, s.clients, s.owner, d, a);
    var whole, durable, kept :=
      ReplayIds(s.log.submitted, d + a + b), ReplayIds(s.log.submitted, d), ReplayIds(s.log.submitted, d + a);
    var id := s.clients[c].stage.id;
    forall t | t in s.tables && Holds(s.owner, c, t)
      ensures kept[t].rows ==
        if id in d + a then s.tables[t].rows + RowsFor(s.clients[c].stage.rows, t) else s.tables[t].rows
    {
      AtomicTable(s.clients, s.owner, d, a, b, c, t, whole[t], durable[t], kept[t], s.tables[t]);
    }
  }

  lemma AtomicTable(clients: map<nat, Client>, owner: map<Text, nat>, d: seq<nat>, a: seq<nat>, b: seq<nat>,
                    c: nat, t: Text, whole: TableData, durable: TableData, kept: TableData, memory: TableData)
    requires GC.Increasing(d + a + b)
    requires c in clients && clients[c].stage.Waiting? && Holds(owner, c, t)
    requires TableAdds(whole, durable, InFlight(clients, owner, a + b, t))
    requires TableAdds(kept, durable, InFlight(clients, owner, a, t))
    requires TableAgrees(whole, memory, InFlight(clients, owner, d + a + b, t))
    ensures kept.rows ==
      if clients[c].stage.id in d + a then memory.rows + RowsFor(clients[c].stage.rows, t) else memory.rows
  {
    hide RowsFor, Shaped;
    var id := clients[c].stage.id;
    var fd, fa, fb := InFlight(clients, owner, d, t), InFlight(clients, owner, a, t), InFlight(clients, owner, b, t);
    FlightSplits(clients, owner, d, a, b, t);
    Cancelled(whole.rows, durable.rows, memory.rows, fd, fa, fb);
    if id in d + a {
      assert InFlight(clients, owner, d + a + b, t) == RowsFor(clients[c].stage.rows, t);
      assert fb == [] by { NotInThird(d, a, b, id); }
      assert fa + fb == fa;
    } else {
      assert fd == [] && fa == [];
      assert durable.rows + [] == durable.rows && memory.rows + (fd + fb) == memory.rows + fb;
      SameTail(durable.rows, memory.rows, fb);
    }
  }

  lemma NotInThird(d: seq<nat>, a: seq<nat>, b: seq<nat>, id: nat)
    requires GC.Increasing(d + a + b) && id in d + a
    ensures id !in b
  {
    var k :| 0 <= k < |d + a| && (d + a)[k] == id;
    assert (d + a + b)[k] == id;
    assert forall i :: 0 <= i < |b| ==> (d + a + b)[|d + a| + i] == b[i];
  }

  lemma SameTail(x: seq<Row>, y: seq<Row>, tail: seq<Row>)
    requires x + tail == y + tail
    ensures x == y
  {
    assert x == (x + tail)[..|x|] && y == (y + tail)[..|y|];
  }

  // ---- in every run ----

  /** A log a server can start from. */
  ghost predicate Legal(base: seq<Entry>) {
    Recovery.AllStorable(base) && AllInv(Replay(base).tables)
  }

  /** Whatever log the engine's own operations wrote is one, if its records can be stored. */
  lemma WrittenLogIsLegal(actions: seq<Action>)
    requires AlwaysCareful(actions)
    requires Recovery.AllStorable(RunOps(Live(EMPTY, []), actions).log)
    ensures Legal(RunOps(Live(EMPTY, []), actions).log)
  {
    hide RunOps, Replay, AlwaysCareful, Recovery.Storable, TableInv, WellTyped, SameTable;
    ReplayRebuilds(actions);
    TablesStaySound(actions);
    var live := RunOps(Live(EMPTY, []), actions);
    var replayed := Replay(live.log).tables;
    forall t | t in replayed
      ensures TableInv(replayed[t])
    {
      assert Sound(live.data.tables[t]);
      Mirrored(replayed[t], live.data.tables[t]);
      SameInv(live.data.tables[t], replayed[t]);
    }
  }

  lemma Mirrored(a: TableData, b: TableData)
    requires SameTable(a, b)
    ensures SameTable(b, a)
  {}

  lemma Reached(base: seq<Entry>, steps: seq<Step>)
    requires Legal(base) && Run(Start(base), steps).Some?
    ensures Inv(Run(Start(base), steps).value)
  {
    hide Inv, Run, Start, Recovery.AllStorable, AllInv, Replay;
    StartInv(base);
    RunKeeps(Start(base), steps);
  }

  /** Nobody is between submitting a batch and its answer. */
  predicate Settled(s: System) {
    s.log.node.Up? && forall c :: c in s.clients ==> !s.clients[c].stage.Waiting?
  }

  lemma AlwaysFileIsMemory(base: seq<Entry>, steps: seq<Step>)
    requires Legal(base) && Run(Start(base), steps).Some? && Settled(Run(Start(base), steps).value)
    ensures var s := Run(Start(base), steps).value;
      Recovery.Recover(s.log.node.file).Ok? && SameTables(Reloaded(s.log.node.file), s.tables)
  {
    hide Inv, Run, Start, Legal, Recovery.Recover, Reloaded, SameTables;
    Reached(base, steps);
    FileIsMemory(Run(Start(base), steps).value);
  }

  lemma AlwaysVisible(base: seq<Entry>, steps: seq<Step>, more: seq<Step>)
    requires Legal(base) && Run(Start(base), steps).Some? && Run(Run(Start(base), steps).value, more).Some?
    ensures var s := Run(Start(base), steps).value;
      MemoryPrefix(Run(s, more).value.tables, s.tables)
  {
    hide Inv, Run, Start, Legal, MemoryPrefix;
    Reached(base, steps);
    VisibleStays(Run(Start(base), steps).value, more);
  }

  lemma AlwaysOthersLeave(base: seq<Entry>, steps: seq<Step>, step: Step, c: nat, t: Text)
    requires Legal(base) && Run(Start(base), steps).Some?
    requires var s := Run(Start(base), steps).value;
      && Enabled(s, step) && Actor(step) != Some(c) && !step.CrashAt?
      && c in s.clients && t in s.tables && Holds(s.owner, c, t)
    ensures var s := Run(Start(base), steps).value;
      && var n := Next(s, step);
      && c in n.clients && n.clients[c] == s.clients[c] && Holds(n.owner, c, t)
      && t in n.tables && SameTable(s.tables[t], n.tables[t])
  {
    hide Inv, Run, Start, Legal, Enabled, Next, SameTable;
    Reached(base, steps);
    OthersLeave(Run(Start(base), steps).value, step, c, t);
  }

  lemma AlwaysCommitLands(base: seq<Entry>, steps: seq<Step>, more: seq<Step>, c: nat, t: Text)
    requires Legal(base) && Run(Start(base), steps).Some? && Run(Run(Start(base), steps).value, more).Some?
    requires Commits(more, c) && Holding(Run(Start(base), steps).value, c, t)
    ensures var s := Run(Start(base), steps).value;
      && t in Run(s, more).value.tables
      && Run(s, more).value.tables[t].rows == Seen(s, c, t)
  {
    hide Inv, Run, Start, Legal, Commits, Own;
    Reached(base, steps);
    CommitLandsSeen(Run(Start(base), steps).value, more, c, t);
  }

  lemma AlwaysPendingInvisible(base: seq<Entry>, steps: seq<Step>, c: nat, t: Text)
    requires Legal(base) && Run(Start(base), steps).Some?
    requires var s := Run(Start(base), steps).value;
      c in s.clients && s.clients[c].stage.Ready? && t in s.clients[c].pending && t in s.tables
    ensures var s := Run(Start(base), steps).value;
      && KeysApart(s.tables[t], s.clients[c].pending[t])
      && t in Replayed(s.log) && Replayed(s.log)[t].rows == s.tables[t].rows
  {
    hide Inv, Run, Start, Legal, KeysApart, Replayed;
    Reached(base, steps);
    PendingInvisible(Run(Start(base), steps).value, c, t);
  }

  /** All of the connection's batch is in every table it holds, or none of it in any. */
  ghost predicate AllOrNothing(after: map<Text, TableData>, s: System, c: nat)
    requires c in s.clients && s.clients[c].stage.Waiting?
  {
    && after.Keys == s.tables.Keys
    && (|| (forall t :: t in s.tables && Holds(s.owner, c, t) ==>
              after[t].rows == s.tables[t].rows + RowsFor(s.clients[c].stage.rows, t))
        || (forall t :: t in s.tables && Holds(s.owner, c, t) ==> after[t].rows == s.tables[t].rows))
  }

  lemma AlwaysAtomic(base: seq<Entry>, steps: seq<Step>, cut: nat, c: nat)
    requires Legal(base) && Run(Start(base), steps).Some?
    requires var s := Run(Start(base), steps).value;
      Enabled(s, CrashAt(cut)) && c in s.clients && s.clients[c].stage.Waiting?
    ensures var s := Run(Start(base), steps).value;
      AllOrNothing(Replayed(Next(s, CrashAt(cut)).log), s, c)
  {
    hide Inv, Run, Start, Legal, Enabled, Next, AllOrNothing, Replayed;
    Reached(base, steps);
    CrashAtomic(Run(Start(base), steps).value, cut, c);
  }
}
