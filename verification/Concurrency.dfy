/** Connections, their locks and transactions, the shared tables and the log writer as
    one state machine.  A run interleaves, step by step, any number of autocommit INSERTs
    and multi-table transactions (lock, check or buffer, log, apply, release) with the
    writer thread, log writes that fail at any byte, crashes at any byte and restarts.
    Schemas are fixed during a run.  Two things end a run: writing behind the incomplete
    record of a failed write, and giving up on a refused request whose record got out
    whole.  `GivingUpExact` says why the second does. */
module Concurrency {
  import opened Basics
  import opened Values
  import opened LogFormat
  import opened Tables
  import opened Engine
  import opened Soundness
  import opened Projection
  import opened Pending
  import Recovery
  import GC = GroupCommit

  /** Where a connection stands in `insert_rows`: validated, or waiting for the log. */
  datatype Stage =
    | Ready
    | Checked(rows: seq<(Text, Row)>)
    | Waiting(id: nat, rows: seq<(Text, Row)>)

  datatype Client = Client(inTransaction: bool, pending: map<Text, seq<Row>>, stage: Stage)

  const IDLE := Client(false, map[], Ready)

  /** `owner` says which connection holds each table's lock.  While the server is down,
      `tables` is what was last visible. */
  datatype System = System(
    log: GC.State,
    tables: map<Text, TableData>,
    clients: map<nat, Client>,
    owner: map<Text, nat>)

  datatype Step =
    | Writer(step: GC.Step)
    | CrashAt(cut: nat)
    | Restart
    | Connect(c: nat)
    | Begin(c: nat)
    | Lock(c: nat, table: Text)
    | Buffer(c: nat, table: Text, row: Row)
    | Insert(c: nat, rows: seq<(Text, Row)>)
    | Commit(c: nat, rows: seq<(Text, Row)>)
    | Send(c: nat)
    | Apply(c: nat)
    | Fail(c: nat)
    | LetGo(c: nat)
    | ReserveNext(table: Text)

  predicate Holds(owner: map<Text, nat>, c: nat, t: Text) {
    t in owner && owner[t] == c
  }

  predicate RowsHeld(owner: map<Text, nat>, c: nat, rows: seq<(Text, Row)>) {
    forall i :: 0 <= i < |rows| ==> Holds(owner, c, rows[i].0)
  }

  function StageRows(stage: Stage): seq<(Text, Row)> {
    if stage.Ready? then [] else stage.rows
  }

  /** The writer thread's own steps, short of writing behind an incomplete record. */
  predicate WriterStep(log: GC.State, step: GC.Step) {
    (GC.Quiet(step) || step.WriteFails?) && !GC.Spoils(log, step)
  }

  predicate Free(s: System, c: nat) {
    s.log.node.Up? && c in s.clients && s.clients[c].stage.Ready?
  }

  /** The log write that `c` waits for has failed. */
  predicate Refused(s: System, c: nat) {
    s.log.node.Up? && c in s.clients && s.clients[c].stage.Waiting? && s.clients[c].stage.id in s.log.refused
  }

  ghost predicate Enabled(s: System, step: Step) {
    match step
    case Writer(w) => WriterStep(s.log, w) && GC.Enabled(s.log, w)
    case CrashAt(cut) => GC.Enabled(s.log, GC.Crash(cut)) && !GC.Spoils(s.log, GC.Crash(cut))
    case Restart => GC.Enabled(s.log, GC.Reopen)
    case Connect(c) => s.log.node.Up? && c !in s.clients
    case Begin(c) => Free(s, c) && !s.clients[c].inTransaction && forall t :: t in s.owner ==> s.owner[t] != c
    case Lock(c, t) => Free(s, c) && t !in s.owner
    case Buffer(c, t, row) => Free(s, c) && s.clients[c].inTransaction && Holds(s.owner, c, t) && t in s.tables
    case Insert(c, rows) => Free(s, c) && !s.clients[c].inTransaction && RowsHeld(s.owner, c, rows)
    case Commit(c, rows) => Free(s, c) && s.clients[c].inTransaction && Lists(rows, s.clients[c].pending)
    case Send(c) =>
      && c in s.clients && s.clients[c].stage.Checked?
      && GC.Enabled(s.log, GC.Submit(Transaction(s.clients[c].stage.rows)))
    case Apply(c) =>
      s.log.node.Up? && c in s.clients && s.clients[c].stage.Waiting? && s.clients[c].stage.id in s.log.acked
    case Fail(c) =>
      Refused(s, c) && s.clients[c].stage.id !in GC.Order(s.log)
    case LetGo(c) => Free(s, c)
    case ReserveNext(t) => s.log.node.Up? && t in s.tables && Reserve(s.tables[t]).Ok?
  }

  function Without(owner: map<Text, nat>, c: nat): map<Text, nat> {
    map t | t in owner && owner[t] != c :: owner[t]
  }

  /** The end of a statement or transaction: pending rows and locks are dropped. */
  function Release(s: System, c: nat): System {
    s.(clients := s.clients[c := IDLE], owner := Without(s.owner, c))
  }

  /** `insert_rows` up to the point where the batch is validated. */
  function Validated(s: System, c: nat, rows: seq<(Text, Row)>): System {
    if rows != [] && BatchInsertable(s.tables, rows)
    then s.(clients := s.clients[c := Client(false, map[], Checked(rows))])
    else Release(s, c)
  }

  /** The tables replayed from a file that opens. */
  function Reloaded(file: seq<byte>): map<Text, TableData> {
    match Recovery.Recover(file)
    case Ok(r) => Replay(r.entries).tables
    case Err(_) => map[]
  }

  ghost function Next(s: System, step: Step): System
    requires Enabled(s, step)
  {
    match step
    case Writer(w) => s.(log := GC.Next(s.log, w))
    case CrashAt(cut) => System(GC.Next(s.log, GC.Crash(cut)), s.tables, map[], map[])
    case Restart => System(GC.Next(s.log, GC.Reopen), Reloaded(s.log.node.file), map[], map[])
    case Connect(c) => s.(clients := s.clients[c := IDLE])
    case Begin(c) => s.(clients := s.clients[c := Client(true, map[], Ready)])
    case Lock(c, t) => s.(owner := s.owner[t := c])
    case Buffer(c, t, row) =>
      var client := s.clients[c];
      var pending := PendingRows(client.pending, t);
      if Acceptable(s.tables[t], pending, row)
      then s.(clients := s.clients[c := client.(pending := client.pending[t := pending + [row]])])
      else s
    case Insert(c, rows) => Validated(s, c, rows)
    case Commit(c, rows) => Validated(s, c, rows)
    case Send(c) =>
      var rows := s.clients[c].stage.rows;
      s.(log := GC.Next(s.log, GC.Submit(Transaction(rows))),
         clients := s.clients[c := s.clients[c].(stage := Waiting(|s.log.submitted|, rows))])
    case Apply(c) =>
      Release(s.(tables := ApplyRows(s.tables, s.clients[c].stage.rows)), c)
    case Fail(c) => Release(s, c)
    case LetGo(c) => Release(s, c)
    case ReserveNext(t) => s.(tables := s.tables[t := Reserve(s.tables[t]).value.1])
  }

  // ---- the invariant ----

  ghost predicate PendingOk(tables: map<Text, TableData>, owner: map<Text, nat>, c: nat, pending: map<Text, seq<Row>>) {
    forall t :: t in pending ==> Holds(owner, c, t) && t in tables && PendingFits(tables[t], pending[t])
  }

  /** What a connection has checked stays insertable, in tables it holds. */
  ghost predicate ClientOk(tables: map<Text, TableData>, owner: map<Text, nat>, c: nat, client: Client) {
    && RowsHeld(owner, c, StageRows(client.stage))
    && BatchInsertable(tables, StageRows(client.stage))
    && (!client.stage.Ready? ==> client.stage.rows != [])
    && PendingOk(tables, owner, c, client.pending)
  }

  ghost predicate ClientsOk(tables: map<Text, TableData>, owner: map<Text, nat>, clients: map<nat, Client>) {
    forall c :: c in clients ==> ClientOk(tables, owner, c, clients[c])
  }

  predicate Waits(clients: map<nat, Client>, c: nat, id: nat) {
    c in clients && clients[c].stage.Waiting? && clients[c].stage.id == id
  }

  /** Each waiting connection waits for its own request, which holds its rows. */
  ghost predicate TicketsOk(submitted: seq<Entry>, clients: map<nat, Client>) {
    && (forall c: nat, id: nat :: Waits(clients, c, id) ==>
          id < |submitted| && submitted[id] == Transaction(clients[c].stage.rows))
    && (forall c: nat, d: nat, id: nat :: Waits(clients, c, id) && Waits(clients, d, id) ==> c == d)
  }

  ghost predicate IsAwaited(clients: map<nat, Client>, id: nat) {
    exists c: nat :: Waits(clients, c, id)
  }

  ghost predicate Awaited(clients: map<nat, Client>, ids: seq<nat>) {
    forall i :: 0 <= i < |ids| ==> IsAwaited(clients, ids[i])
  }

  /** The request that the holder of table `t` is waiting for. */
  function WaitId(clients: map<nat, Client>, owner: map<Text, nat>, t: Text): Option<nat> {
    if t in owner && owner[t] in clients && clients[owner[t]].stage.Waiting?
    then Some(clients[owner[t]].stage.id) else None
  }

  /** The rows for table `t` that are in the requests `ids` but not in memory. */
  function InFlight(clients: map<nat, Client>, owner: map<Text, nat>, ids: seq<nat>, t: Text): seq<Row> {
    if WaitId(clients, owner, t).Some? && WaitId(clients, owner, t).value in ids
    then RowsFor(clients[owner[t]].stage.rows, t) else []
  }

  /** The tables that replaying every request on its way or on disk would give. */
  function Replayed(log: GC.State): map<Text, TableData> {
    ReplayIds(log.submitted, GC.Order(log))
  }

  function ReplayIds(submitted: seq<Entry>, ids: seq<nat>): map<Text, TableData> {
    if GC.Named(submitted, ids) then Replay(GC.Entries(submitted, ids)).tables else map[]
  }

  ghost predicate AllInv(tables: map<Text, TableData>) {
    forall t :: t in tables ==> TableInv(tables[t])
  }

  /** Memory is the replay, short of what is in flight. */
  ghost predicate TableAgrees(replayed: TableData, memory: TableData, flight: seq<Row>) {
    replayed.schema == memory.schema && Shaped(memory) && replayed.rows == memory.rows + flight
  }

  ghost predicate MemoryAgrees(replayed: map<Text, TableData>, tables: map<Text, TableData>,
                               clients: map<nat, Client>, owner: map<Text, nat>, ids: seq<nat>) {
    && replayed.Keys == tables.Keys
    && forall t :: t in tables ==> TableAgrees(replayed[t], tables[t], InFlight(clients, owner, ids, t))
  }

  /** What was visible is a prefix of what replay gives. */
  ghost predicate MemoryPrefix(replayed: map<Text, TableData>, tables: map<Text, TableData>) {
    && replayed.Keys == tables.Keys
    && forall t :: t in tables ==> replayed[t].schema == tables[t].schema && tables[t].rows <= replayed[t].rows
  }

  ghost predicate Inv(s: System) {
    && GC.Inv(s.log)
    && AllInv(Replayed(s.log))
    && ClientsOk(s.tables, s.owner, s.clients)
    && TicketsOk(s.log.submitted, s.clients)
    && Awaited(s.clients, GC.Undurable(s.log))
    && (s.log.node.Down? ==> s.clients == map[] && s.owner == map[] && MemoryPrefix(Replayed(s.log), s.tables))
    && (s.log.node.Up? ==> MemoryAgrees(Replayed(s.log), s.tables, s.clients, s.owner, GC.Order(s.log)))
  }

  // ---- what is in flight ----

  ghost predicate RowsLocked(clients: map<nat, Client>, owner: map<Text, nat>) {
    forall c :: c in clients ==> RowsHeld(owner, c, StageRows(clients[c].stage))
  }

  /** One more awaited request puts its own rows in flight. */
  lemma OneMoreInFlight(submitted: seq<Entry>, clients: map<nat, Client>, owner: map<Text, nat>,
                        ids: seq<nat>, c: nat, id: nat, t: Text)
    requires TicketsOk(submitted, clients) && RowsLocked(clients, owner)
    requires id !in ids && Waits(clients, c, id)
    ensures InFlight(clients, owner, ids + [id], t)
         == InFlight(clients, owner, ids, t) + RowsFor(clients[c].stage.rows, t)
  {
    hide RowsFor;
    var rows := clients[c].stage.rows;
    if !Holds(owner, c, t) {
      assert RowsHeld(owner, c, rows);
      RowsForNone(rows, t);
      var w := WaitId(clients, owner, t);
      if w.Some? {
        assert Waits(clients, owner[t], w.value);
      }
    }
  }

  lemma {:induction false} TailRows(submitted: seq<Entry>, clients: map<nat, Client>, owner: map<Text, nat>,
                                    ids: seq<nat>, t: Text)
    requires GC.Named(submitted, ids) && GC.Increasing(ids) && Awaited(clients, ids)
    requires TicketsOk(submitted, clients) && RowsLocked(clients, owner)
    ensures AllTransactions(GC.Entries(submitted, ids))
    ensures LogRows(GC.Entries(submitted, ids), t) == InFlight(clients, owner, ids, t)
    decreases |ids|
  {
    hide InFlight, RowsLocked, IsAwaited, TicketsOk, LogRows;
    if ids == [] {
      NothingInFlight(clients, owner, t);
    } else {
      var n := |ids| - 1;
      var front := ids[..n];
      TailRows(submitted, clients, owner, front, t);
      assert IsAwaited(clients, ids[n]);
      var c := Waiter(clients, ids[n]);
      TicketOf(submitted, clients, c, ids[n]);
      assert ids == front + [ids[n]];
      assert GC.Entries(submitted, ids) == GC.Entries(submitted, front) + [submitted[ids[n]]];
      OneMoreInFlight(submitted, clients, owner, front, c, ids[n], t);
      LogRowsMore(GC.Entries(submitted, front), submitted[ids[n]], t);
    }
  }

  lemma NothingInFlight(clients: map<nat, Client>, owner: map<Text, nat>, t: Text)
    ensures InFlight(clients, owner, [], t) == [] && LogRows([], t) == []
  {}

  lemma TicketOf(submitted: seq<Entry>, clients: map<nat, Client>, c: nat, id: nat)
    requires TicketsOk(submitted, clients) && Waits(clients, c, id)
    ensures id < |submitted| && submitted[id] == Transaction(clients[c].stage.rows)
  {}

  lemma LogRowsMore(es: seq<Entry>, e: Entry, t: Text)
    requires e.Transaction?
    ensures LogRows(es + [e], t) == LogRows(es, t) + RowsFor(e.rows, t)
  {
    hide RowsFor;
    assert (es + [e])[..|es|] == es;
  }

  ghost function Waiter(clients: map<nat, Client>, id: nat): (c: nat)
    requires IsAwaited(clients, id)
    ensures Waits(clients, c, id)
  {
    var c: nat :| Waits(clients, c, id);
    c
  }

  // ---- rows in memory, on their way, and replayed ----

  /** No request is counted twice among three disjoint groups. */
  lemma FlightSplits(clients: map<nat, Client>, owner: map<Text, nat>, d: seq<nat>, a: seq<nat>, b: seq<nat>, t: Text)
    requires GC.Increasing(d + a + b)
    ensures InFlight(clients, owner, d + a + b, t)
         == InFlight(clients, owner, d, t) + InFlight(clients, owner, a + b, t)
    ensures InFlight(clients, owner, a + b, t) == InFlight(clients, owner, a, t) + InFlight(clients, owner, b, t)
    ensures InFlight(clients, owner, d + b, t) == InFlight(clients, owner, d, t) + InFlight(clients, owner, b, t)
    ensures InFlight(clients, owner, d, t) == [] || InFlight(clients, owner, a + b, t) == []
    ensures InFlight(clients, owner, a, t) == [] || InFlight(clients, owner, b, t) == []
  {
    hide RowsFor;
    var all := d + a + b;
    assert forall i :: 0 <= i < |d| ==> all[i] == d[i];
    assert forall i :: 0 <= i < |a| ==> all[|d| + i] == a[i];
    assert forall i :: 0 <= i < |b| ==> all[|d| + |a| + i] == b[i];
    var w := WaitId(clients, owner, t);
    if w.Some? {
      assert w.value in d ==> w.value !in a && w.value !in b;
      assert w.value in a ==> w.value !in b;
    }
  }

  /** What stays when the requests `a` are refused, or the requests `b` are lost. */
  lemma Cancelled(replayed: seq<Row>, durable: seq<Row>, memory: seq<Row>,
                  fd: seq<Row>, fa: seq<Row>, fb: seq<Row>)
    requires replayed == durable + (fa + fb) == memory + (fd + (fa + fb))
    requires fd == [] || fa + fb == []
    requires fa == [] || fb == []
    ensures durable + fb == memory + (fd + fb)
    ensures durable + fb <= replayed && durable + fa <= replayed && memory <= durable + fa
  {
    if fd == [] {
      assert fd + (fa + fb) == fa + fb && fd + fb == fb;
      assert durable == replayed[..|durable|] && memory == replayed[..|memory|];
    } else {
      assert fa == [] && fb == [];
      assert durable + [] == durable && fd + [] == fd;
    }
    assert fa == [] ==> fa + fb == fb;
    assert fb == [] ==> fa + fb == fa && durable + fb == durable;
  }

  lemma IncreasingParts(a: seq<nat>, b: seq<nat>)
    requires GC.Increasing(a + b)
    ensures GC.Increasing(a) && GC.Increasing(b)
  {
    assert forall i :: 0 <= i < |a| ==> (a + b)[i] == a[i];
    assert forall i :: 0 <= i < |b| ==> (a + b)[|a| + i] == b[i];
  }

  lemma NamedParts(submitted: seq<Entry>, a: seq<nat>, b: seq<nat>)
    requires GC.Named(submitted, a + b)
    ensures GC.Named(submitted, a) && GC.Named(submitted, b)
  {
    assert forall i :: 0 <= i < |a| ==> (a + b)[i] == a[i];
    assert forall i :: 0 <= i < |b| ==> (a + b)[|a| + i] == b[i];
  }

  /** What one table of a longer replay has on top of a shorter one. */
  ghost predicate TableAdds(longer: TableData, shorter: TableData, rows: seq<Row>) {
    longer.schema == shorter.schema && longer.rows == shorter.rows + rows
  }

  ghost predicate Adds(longer: map<Text, TableData>, shorter: map<Text, TableData>,
                       clients: map<nat, Client>, owner: map<Text, nat>, ids: seq<nat>) {
    && longer.Keys == shorter.Keys
    && forall t :: t in longer ==> TableAdds(longer[t], shorter[t], InFlight(clients, owner, ids, t))
  }

  /** Replaying awaited requests on top of others adds what they have in flight. */
  lemma AwaitedAdds(submitted: seq<Entry>, clients: map<nat, Client>, owner: map<Text, nat>, d: seq<nat>, tail: seq<nat>)
    requires GC.Named(submitted, d + tail) && GC.Increasing(d + tail) && Awaited(clients, tail)
    requires TicketsOk(submitted, clients) && RowsLocked(clients, owner)
    ensures GC.Named(submitted, d)
    ensures Adds(ReplayIds(submitted, d + tail), ReplayIds(submitted, d), clients, owner, tail)
  {
    hide InFlight, LogRows, TicketsOk, RowsLocked, Awaited, Replay, GC.Increasing;
    NamedParts(submitted, d, tail);
    IncreasingParts(d, tail);
    GC.EntriesAppend(submitted, d, tail);
    var es := GC.Entries(submitted, tail);
    TailRows(submitted, clients, owner, tail, []);
    ReplayExtends(GC.Entries(submitted, d), es);
    var longer, shorter := ReplayIds(submitted, d + tail), ReplayIds(submitted, d);
    forall t | t in longer
      ensures TableAdds(longer[t], shorter[t], InFlight(clients, owner, tail, t))
    {
      TailRows(submitted, clients, owner, tail, t);
    }
  }

  lemma LockedRows(s: System)
    requires ClientsOk(s.tables, s.owner, s.clients)
    ensures RowsLocked(s.clients, s.owner)
  {
    hide RowsHeld, BatchInsertable, PendingOk;
    assert forall c :: c in s.clients ==> ClientOk(s.tables, s.owner, c, s.clients[c]);
  }

  lemma LogFacts(log: GC.State)
    requires GC.Inv(log)
    ensures GC.Named(log.submitted, GC.Order(log)) && GC.Increasing(GC.Order(log))
    ensures GC.Order(log) == log.durable + GC.Undurable(log)
  {
    hide GC.FileInv, GC.Answered, GC.Accounted;
    GC.OrderParts(log);
  }

  lemma LogKept(log: GC.State, w: GC.Step)
    requires GC.Inv(log) && GC.Enabled(log, w) && !GC.Spoils(log, w)
    ensures GC.Inv(GC.Next(log, w))
  {
    hide GC.Inv, GC.Next, GC.Enabled, GC.Spoils;
    GC.StepKeeps(log, w);
  }

  /** Replays that keep some of the rows keep sound tables sound. */
  lemma ShorterInv(longer: map<Text, TableData>, submitted: seq<Entry>, ids: seq<nat>)
    requires AllInv(longer) && GC.Named(submitted, ids)
    requires MemoryPrefix(longer, ReplayIds(submitted, ids))
    ensures AllInv(ReplayIds(submitted, ids))
  {
    hide TableInv, Replay, Shaped, IsBuilt;
    var shorter := ReplayIds(submitted, ids);
    ReplayBuilt(GC.Entries(submitted, ids));
    forall t | t in shorter
      ensures TableInv(shorter[t])
    {
      BuiltShaped(shorter[t]);
      PrefixInv(longer[t], shorter[t]);
    }
  }

  lemma AwaitedSub(clients: map<nat, Client>, a: seq<nat>, b: seq<nat>)
    requires Awaited(clients, a + b)
    ensures Awaited(clients, a) && Awaited(clients, b)
  {
    hide IsAwaited;
    assert forall i :: 0 <= i < |a| ==> (a + b)[i] == a[i];
    assert forall i :: 0 <= i < |b| ==> (a + b)[|a| + i] == b[i];
  }

  // ---- the writer's steps ----

  lemma QuietKeeps(s: System, w: GC.Step)
    requires Inv(s) && GC.Quiet(w) && GC.Enabled(s.log, w) && !GC.Spoils(s.log, w)
    ensures Inv(s.(log := GC.Next(s.log, w)))
  {
    hide GC.Inv, AllInv, ClientsOk, TicketsOk, Awaited, MemoryAgrees, GC.Next, GC.Enabled, ReplayIds;
    LogKept(s.log, w);
    LogFacts(s.log);
    GC.QuietOrder(s.log, w);
    var t := s.(log := GC.Next(s.log, w));
    assert Replayed(t.log) == Replayed(s.log);
    var u, v := GC.Undurable(s.log), GC.Undurable(t.log);
    assert u == u[..|u| - |v|] + v;
    AwaitedSub(s.clients, u[..|u| - |v|], v);
  }

  /** One table when the requests `a` between `d` and `b` are refused. */
  lemma RefusedTable(clients: map<nat, Client>, owner: map<Text, nat>, d: seq<nat>, a: seq<nat>, b: seq<nat>, t: Text,
                     whole: TableData, durable: TableData, rest: TableData, memory: TableData)
    requires GC.Increasing(d + a + b)
    requires TableAdds(whole, durable, InFlight(clients, owner, a + b, t))
    requires TableAdds(rest, durable, InFlight(clients, owner, b, t))
    requires TableAgrees(whole, memory, InFlight(clients, owner, d + a + b, t))
    ensures TableAgrees(rest, memory, InFlight(clients, owner, d + b, t))
    ensures whole.schema == rest.schema && rest.rows <= whole.rows
  {
    hide InFlight, Shaped, GC.Increasing;
    FlightSplits(clients, owner, d, a, b, t);
    Cancelled(whole.rows, durable.rows, memory.rows,
              InFlight(clients, owner, d, t), InFlight(clients, owner, a, t), InFlight(clients, owner, b, t));
  }

  /** One table when a crash loses the requests `b` after `d` and `a`. */
  lemma CrashedTable(clients: map<nat, Client>, owner: map<Text, nat>, d: seq<nat>, a: seq<nat>, b: seq<nat>, t: Text,
                     whole: TableData, durable: TableData, kept: TableData, memory: TableData)
    requires GC.Increasing(d + a + b)
    requires TableAdds(whole, durable, InFlight(clients, owner, a + b, t))
    requires TableAdds(kept, durable, InFlight(clients, owner, a, t))
    requires TableAgrees(whole, memory, InFlight(clients, owner, d + a + b, t))
    ensures kept.schema == memory.schema && memory.rows <= kept.rows
    ensures whole.schema == kept.schema && kept.rows <= whole.rows
  {
    hide InFlight, Shaped, GC.Increasing;
    FlightSplits(clients, owner, d, a, b, t);
    Cancelled(whole.rows, durable.rows, memory.rows,
              InFlight(clients, owner, d, t), InFlight(clients, owner, a, t), InFlight(clients, owner, b, t));
  }

  lemma Without2(d: seq<nat>, a: seq<nat>, b: seq<nat>)
    requires GC.Increasing(d + a + b)
    ensures GC.Increasing(d + b) && GC.Increasing(d + a)
  {
    var all := d + a + b;
    assert forall i :: 0 <= i < |d + a| ==> all[i] == (d + a)[i];
    assert forall i :: 0 <= i < |d + b| ==> (d + b)[i] == all[if i < |d| then i else i + |a|];
  }

  lemma NamedWithout(submitted: seq<Entry>, d: seq<nat>, a: seq<nat>, b: seq<nat>)
    requires GC.Named(submitted, d + a + b)
    ensures GC.Named(submitted, d + b) && GC.Named(submitted, d + a)
  {
    var all := d + a + b;
    assert forall i :: 0 <= i < |d + a| ==> all[i] == (d + a)[i];
    assert forall i :: 0 <= i < |d + b| ==> (d + b)[i] == all[if i < |d| then i else i + |a|];
  }

  /** The tables after the requests `a` between `d` and `b` are refused. */
  lemma RefusedTables(submitted: seq<Entry>, clients: map<nat, Client>, owner: map<Text, nat>,
                      d: seq<nat>, a: seq<nat>, b: seq<nat>, tables: map<Text, TableData>)
    requires GC.Named(submitted, d + a + b) && GC.Increasing(d + a + b) && Awaited(clients, a + b)
    requires TicketsOk(submitted, clients) && RowsLocked(clients, owner)
    requires AllInv(ReplayIds(submitted, d + a + b))
    requires MemoryAgrees(ReplayIds(submitted, d + a + b), tables, clients, owner, d + a + b)
    ensures AllInv(ReplayIds(submitted, d + b))
    ensures MemoryAgrees(ReplayIds(submitted, d + b), tables, clients, owner, d + b)
  {
    hide InFlight, ReplayIds, TicketsOk, RowsLocked, Awaited, GC.Increasing, GC.Named, TableInv, TableAgrees, TableAdds;
    assert d + a + b == d + (a + b);
    Without2(d, a, b);
    NamedWithout(submitted, d, a, b);
    AwaitedSub(clients, a, b);
    AwaitedAdds(submitted, clients, owner, d, a + b);
    AwaitedAdds(submitted, clients, owner, d, b);
    var whole, durable, rest := ReplayIds(submitted, d + a + b), ReplayIds(submitted, d), ReplayIds(submitted, d + b);
    forall t | t in tables
      ensures TableAgrees(rest[t], tables[t], InFlight(clients, owner, d + b, t))
      ensures whole[t].schema == rest[t].schema && rest[t].rows <= whole[t].rows
    {
      RefusedTable(clients, owner, d, a, b, t, whole[t], durable[t], rest[t], tables[t]);
    }
    ShorterInv(whole, submitted, d + b);
  }

  /** The tables after a crash that keeps the requests `d` and `a` and loses `b`. */
  lemma CrashedTables(submitted: seq<Entry>, clients: map<nat, Client>, owner: map<Text, nat>,
                      d: seq<nat>, a: seq<nat>, b: seq<nat>, tables: map<Text, TableData>)
    requires GC.Named(submitted, d + a + b) && GC.Increasing(d + a + b) && Awaited(clients, a + b)
    requires TicketsOk(submitted, clients) && RowsLocked(clients, owner)
    requires AllInv(ReplayIds(submitted, d + a + b))
    requires MemoryAgrees(ReplayIds(submitted, d + a + b), tables, clients, owner, d + a + b)
    ensures AllInv(ReplayIds(submitted, d + a))
    ensures MemoryPrefix(ReplayIds(submitted, d + a), tables)
  {
    hide InFlight, ReplayIds, TicketsOk, RowsLocked, Awaited, GC.Increasing, GC.Named, TableInv, TableAgrees, TableAdds;
    assert d + a + b == d + (a + b);
    Without2(d, a, b);
    NamedWithout(submitted, d, a, b);
    AwaitedSub(clients, a, b);
    AwaitedAdds(submitted, clients, owner, d, a + b);
    AwaitedAdds(submitted, clients, owner, d, a);
    var whole, durable, kept := ReplayIds(submitted, d + a + b), ReplayIds(submitted, d), ReplayIds(submitted, d + a);
    forall t | t in tables
      ensures kept[t].schema == tables[t].schema && tables[t].rows <= kept[t].rows
      ensures whole[t].schema == kept[t].schema && kept[t].rows <= whole[t].rows
    {
      CrashedTable(clients, owner, d, a, b, t, whole[t], durable[t], kept[t], tables[t]);
    }
    ShorterInv(whole, submitted, d + a);
  }

  /** A write that fails at any byte: the waiters of the batch are refused, and what got
      out whole counts as in flight until they learn of it. */
  lemma RefusalKeeps(s: System, cut: nat)
    requires Inv(s) && GC.Enabled(s.log, GC.WriteFails(cut)) && !GC.Spoils(s.log, GC.WriteFails(cut))
    ensures Inv(s.(log := GC.Next(s.log, GC.WriteFails(cut))))
  {
    hide GC.Inv, AllInv, ClientsOk, TicketsOk, Awaited, MemoryAgrees, GC.Next, GC.Enabled, GC.Spoils, ReplayIds,
         RowsLocked, GC.Increasing, GC.Named;
    LogKept(s.log, GC.WriteFails(cut));
    LogFacts(s.log);
    var whole := GC.RefusalOrder(s.log, cut);
    LockedRows(s);
    var batch, queue := s.log.node.batch, s.log.node.queue;
    var out, rest := batch[..whole], batch[whole..];
    assert batch == out + rest;
    assert s.log.durable + batch + queue == (s.log.durable + out) + rest + queue;
    assert batch + queue == out + (rest + queue);
    AwaitedSub(s.clients, out, rest + queue);
    RefusedTables(s.log.submitted, s.clients, s.owner, s.log.durable + out, rest, queue, s.tables);
    AwaitedSub(s.clients, rest, queue);
  }

  lemma CrashKeeps(s: System, cut: nat)
    requires Inv(s) && GC.Enabled(s.log, GC.Crash(cut)) && !GC.Spoils(s.log, GC.Crash(cut))
    ensures Inv(System(GC.Next(s.log, GC.Crash(cut)), s.tables, map[], map[]))
  {
    hide GC.Inv, AllInv, ClientsOk, TicketsOk, Awaited, MemoryAgrees, MemoryPrefix, GC.Next, GC.Enabled, ReplayIds,
         RowsLocked, GC.Increasing, GC.Named;
    LogKept(s.log, GC.Crash(cut));
    LogFacts(s.log);
    var m := GC.CrashOrder(s.log, cut);
    LockedRows(s);
    var u := GC.Undurable(s.log);
    assert u == u[..m] + u[m..];
    assert s.log.durable + u == s.log.durable + u[..m] + u[m..];
    CrashedTables(s.log.submitted, s.clients, s.owner, s.log.durable, u[..m], u[m..], s.tables);
    NobodyOk(s.tables, s.log.submitted);
  }

  lemma NobodyOk(tables: map<Text, TableData>, submitted: seq<Entry>)
    ensures ClientsOk(tables, map[], map[]) && TicketsOk(submitted, map[]) && Awaited(map[], [])
  {}

  lemma RestartKeeps(s: System)
    requires Inv(s) && GC.Enabled(s.log, GC.Reopen)
    ensures Inv(System(GC.Next(s.log, GC.Reopen), Reloaded(s.log.node.file), map[], map[]))
    ensures MemoryPrefix(Reloaded(s.log.node.file), s.tables)
  {
    hide GC.Inv, AllInv, ClientsOk, TicketsOk, Awaited, MemoryPrefix, MemoryAgrees, GC.Next, GC.Enabled, GC.Increasing,
         GC.Named, Reloaded, ReplayIds;
    LogKept(s.log, GC.Reopen);
    LogFacts(s.log);
    ReopenedEntries(s.log);
    GC.ReopenOrder(s.log);
    NobodyOk(Replayed(s.log), s.log.submitted);
    ReplayedAgrees(s.log.submitted, s.log.durable);
  }

  lemma ReopenedEntries(log: GC.State)
    requires GC.Inv(log) && GC.Enabled(log, GC.Reopen)
    ensures Reloaded(log.node.file) == Replayed(log)
  {
    hide GC.Inv, Recovery.Recover, Replay, GC.Next, GC.Enabled, GC.Entries;
    GC.ReopenOrder(log);
    GC.ReopenKeeps(log);
  }

  lemma ReplayedAgrees(submitted: seq<Entry>, ids: seq<nat>)
    requires GC.Named(submitted, ids)
    ensures MemoryAgrees(ReplayIds(submitted, ids), ReplayIds(submitted, ids), map[], map[], ids)
  {
    hide Replay, IsBuilt, Shaped;
    ReplayBuilt(GC.Entries(submitted, ids));
    var r := ReplayIds(submitted, ids);
    forall t | t in r
      ensures Shaped(r[t])
    {
      BuiltShaped(r[t]);
    }
  }

  // ---- the connections' steps ----

  /** Whoever waits, waits on, with the same locks. */
  ghost predicate WaitersStay(clients: map<nat, Client>, owner: map<Text, nat>,
                              clients': map<nat, Client>, owner': map<Text, nat>) {
    && (forall c: nat, id: nat :: Waits(clients, c, id) <==> Waits(clients', c, id))
    && (forall c: nat, id: nat :: Waits(clients, c, id) ==> clients[c].stage == clients'[c].stage)
    && (forall c: nat, id: nat, t :: Waits(clients, c, id) ==> (Holds(owner, c, t) <==> Holds(owner', c, t)))
  }

  lemma SameFlight(clients: map<nat, Client>, owner: map<Text, nat>, clients': map<nat, Client>, owner': map<Text, nat>,
                   ids: seq<nat>, t: Text)
    requires WaitersStay(clients, owner, clients', owner')
    ensures InFlight(clients', owner', ids, t) == InFlight(clients, owner, ids, t)
  {
    hide RowsFor;
    var w, w' := WaitId(clients, owner, t), WaitId(clients', owner', t);
    if w.Some? {
      assert Waits(clients, owner[t], w.value) && Holds(owner, owner[t], t);
      assert Waits(clients', owner[t], w.value) && Holds(owner', owner[t], t);
    }
    if w'.Some? {
      assert Waits(clients', owner'[t], w'.value) && Holds(owner', owner'[t], t);
      assert Waits(clients, owner'[t], w'.value) && Holds(owner, owner'[t], t);
    }
  }

  lemma SettledKeeps(s: System, clients': map<nat, Client>, owner': map<Text, nat>)
    requires Inv(s) && s.log.node.Up? && WaitersStay(s.clients, s.owner, clients', owner')
    requires ClientsOk(s.tables, owner', clients')
    ensures Inv(s.(clients := clients', owner := owner'))
  {
    hide GC.Inv, AllInv, ClientsOk, TableAgrees, ReplayIds, InFlight;
    var t := s.(clients := clients', owner := owner');
    assert TicketsOk(s.log.submitted, clients');
    assert Awaited(clients', GC.Undurable(s.log)) by {
      AwaitedStill(s.clients, s.owner, clients', owner', GC.Undurable(s.log));
    }
    hide Awaited, TicketsOk, WaitersStay;
    forall n | n in s.tables
      ensures InFlight(clients', owner', GC.Order(s.log), n) == InFlight(s.clients, s.owner, GC.Order(s.log), n)
    {
      SameFlight(s.clients, s.owner, clients', owner', GC.Order(s.log), n);
    }
  }

  lemma AwaitedStill(clients: map<nat, Client>, owner: map<Text, nat>,
                     clients': map<nat, Client>, owner': map<Text, nat>, ids: seq<nat>)
    requires WaitersStay(clients, owner, clients', owner') && Awaited(clients, ids)
    ensures Awaited(clients', ids)
  {
    forall i | 0 <= i < |ids|
      ensures IsAwaited(clients', ids[i])
    {
      assert IsAwaited(clients, ids[i]);
      assert Waits(clients', Waiter(clients, ids[i]), ids[i]);
    }
  }

  lemma OneChanges(tables: map<Text, TableData>, owner: map<Text, nat>, owner': map<Text, nat>,
                   clients: map<nat, Client>, c: nat, client': Client)
    requires ClientsOk(tables, owner, clients) && ClientOk(tables, owner', c, client')
    requires forall d, t :: d != c && Holds(owner, d, t) ==> Holds(owner', d, t)
    ensures ClientsOk(tables, owner', clients[c := client'])
  {
    hide BatchInsertable, PendingFits;
    forall d | d in clients && d != c
      ensures ClientOk(tables, owner', d, clients[d])
    {
      assert ClientOk(tables, owner, d, clients[d]);
    }
  }

  lemma IdleOk(tables: map<Text, TableData>, owner: map<Text, nat>, c: nat)
    ensures ClientOk(tables, owner, c, IDLE)
  {}

  lemma ReleaseKeeps(s: System, c: nat)
    requires Inv(s) && Free(s, c)
    ensures Inv(Release(s, c))
  {
    hide GC.Inv, AllInv, ClientsOk, TicketsOk, Awaited, MemoryAgrees, ReplayIds, ClientOk;
    IdleOk(s.tables, Without(s.owner, c), c);
    OneChanges(s.tables, s.owner, Without(s.owner, c), s.clients, c, IDLE);
    SettledKeeps(s, s.clients[c := IDLE], Without(s.owner, c));
  }

  lemma ConnectKeeps(s: System, c: nat)
    requires Inv(s) && s.log.node.Up? && c !in s.clients
    ensures Inv(s.(clients := s.clients[c := IDLE]))
  {
    hide GC.Inv, AllInv, ClientsOk, TicketsOk, Awaited, MemoryAgrees, ReplayIds, ClientOk;
    IdleOk(s.tables, s.owner, c);
    OneChanges(s.tables, s.owner, s.owner, s.clients, c, IDLE);
    SettledKeeps(s, s.clients[c := IDLE], s.owner);
  }

  /** A free connection may become any other connection that is not waiting. */
  lemma ClientKeeps(s: System, c: nat, client': Client)
    requires Inv(s) && Free(s, c) && !client'.stage.Waiting? && ClientOk(s.tables, s.owner, c, client')
    ensures Inv(s.(clients := s.clients[c := client']))
  {
    hide GC.Inv, AllInv, ClientsOk, TicketsOk, Awaited, MemoryAgrees, ReplayIds, ClientOk;
    OneChanges(s.tables, s.owner, s.owner, s.clients, c, client');
    SettledKeeps(s, s.clients[c := client'], s.owner);
  }

  lemma LockKeeps(s: System, c: nat, t: Text)
    requires Inv(s) && Free(s, c) && t !in s.owner
    ensures Inv(s.(owner := s.owner[t := c]))
  {
    hide GC.Inv, AllInv, ClientsOk, TicketsOk, Awaited, MemoryAgrees, ReplayIds, BatchInsertable, PendingFits;
    var owner' := s.owner[t := c];
    assert ClientOk(s.tables, s.owner, c, s.clients[c]) by { OneOf(s.tables, s.owner, s.clients, c); }
    assert forall d, u :: Holds(s.owner, d, u) ==> Holds(owner', d, u);
    OneChanges(s.tables, s.owner, owner', s.clients, c, s.clients[c]);
    assert s.clients[c := s.clients[c]] == s.clients;
    SettledKeeps(s, s.clients, owner');
  }

  lemma OneOf(tables: map<Text, TableData>, owner: map<Text, nat>, clients: map<nat, Client>, c: nat)
    requires ClientsOk(tables, owner, clients) && c in clients
    ensures ClientOk(tables, owner, c, clients[c])
  {}

  lemma AcceptedKeeps(s: System, c: nat, t: Text, row: Row)
    requires Inv(s) && Free(s, c) && Holds(s.owner, c, t) && t in s.tables
    requires Acceptable(s.tables[t], PendingRows(s.clients[c].pending, t), row)
    ensures var client := s.clients[c];
      Inv(s.(clients := s.clients[c := client.(pending := client.pending[t := PendingRows(client.pending, t) + [row]])]))
  {
    hide GC.Inv, AllInv, ClientsOk, TicketsOk, Awaited, MemoryAgrees, ReplayIds, PendingFits, Acceptable;
    var client := s.clients[c];
    OneOf(s.tables, s.owner, s.clients, c);
    NothingPendingFits(s.tables[t]);
    BufferFits(s.tables[t], PendingRows(client.pending, t), row);
    ClientKeeps(s, c, client.(pending := client.pending[t := PendingRows(client.pending, t) + [row]]));
  }

  /** A row offered inside a transaction, accepted or not, keeps the invariant. */
  lemma BufferKeeps(s: System, c: nat, t: Text, row: Row)
    requires Inv(s) && Enabled(s, Buffer(c, t, row))
    ensures Inv(Next(s, Buffer(c, t, row)))
  {
    hide Inv, Acceptable;
    if Acceptable(s.tables[t], PendingRows(s.clients[c].pending, t), row) {
      AcceptedKeeps(s, c, t, row);
    }
  }

  lemma ValidatedKeeps(s: System, c: nat, rows: seq<(Text, Row)>)
    requires Inv(s) && Free(s, c) && RowsHeld(s.owner, c, rows)
    ensures Inv(Validated(s, c, rows))
  {
    hide GC.Inv, AllInv, ClientsOk, TicketsOk, Awaited, MemoryAgrees, ReplayIds, BatchInsertable, RowsHeld;
    if rows != [] && BatchInsertable(s.tables, rows) {
      ClientKeeps(s, c, Client(false, map[], Checked(rows)));
    } else {
      ReleaseKeeps(s, c);
    }
  }

  // ---- COMMIT ----

  /** In every reachable state, in whatever order COMMIT lists the pending rows, it holds
      their locks and its validation cannot fail: no missing table, no wrong width, no
      duplicate key. */
  lemma CommitPasses(s: System, c: nat, rows: seq<(Text, Row)>)
    requires Inv(s) && c in s.clients && Lists(rows, s.clients[c].pending)
    ensures RowsHeld(s.owner, c, rows) && BatchInsertable(s.tables, rows)
  {
    hide GC.Inv, AllInv, ClientsOk, TicketsOk, Awaited, MemoryAgrees, MemoryPrefix, ReplayIds, Lists, PendingFits;
    OneOf(s.tables, s.owner, s.clients, c);
    ListedInsertable(s.tables, s.clients[c].pending, rows);
    forall i | 0 <= i < |rows|
      ensures Holds(s.owner, c, rows[i].0)
    {
      ListedRow(rows, s.clients[c].pending, i);
    }
  }

  // ---- logging and applying ----

  lemma SentClientsOk(s: System, c: nat)
    requires ClientsOk(s.tables, s.owner, s.clients) && c in s.clients && s.clients[c].stage.Checked?
    ensures var rows := s.clients[c].stage.rows;
      ClientsOk(s.tables, s.owner, s.clients[c := s.clients[c].(stage := Waiting(|s.log.submitted|, rows))])
  {
    hide BatchInsertable, PendingOk, RowsHeld;
    OneOf(s.tables, s.owner, s.clients, c);
    var rows := s.clients[c].stage.rows;
    OneChanges(s.tables, s.owner, s.owner, s.clients, c, s.clients[c].(stage := Waiting(|s.log.submitted|, rows)));
  }

  /** The new request belongs to `c`, and it puts exactly `c`'s rows in flight. */
  lemma SentTickets(submitted: seq<Entry>, clients: map<nat, Client>, c: nat, rows: seq<(Text, Row)>)
    requires TicketsOk(submitted, clients) && c in clients && clients[c].stage == Checked(rows)
    ensures var clients' := clients[c := clients[c].(stage := Waiting(|submitted|, rows))];
      TicketsOk(submitted + [Transaction(rows)], clients')
  {
    var clients' := clients[c := clients[c].(stage := Waiting(|submitted|, rows))];
    forall d: nat, id: nat | Waits(clients', d, id)
      ensures id < |submitted| + 1 && (submitted + [Transaction(rows)])[id] == Transaction(clients'[d].stage.rows)
      ensures d == c <==> id == |submitted|
    {
      if d != c {
        assert Waits(clients, d, id);
      }
    }
    forall d: nat, e: nat, id: nat | Waits(clients', d, id) && Waits(clients', e, id)
      ensures d == e
    {
      if d != c && e != c {
        assert Waits(clients, d, id) && Waits(clients, e, id);
      }
    }
  }

  lemma SentAwaited(clients: map<nat, Client>, c: nat, client': Client, ids: seq<nat>)
    requires Awaited(clients, ids) && c in clients && !clients[c].stage.Waiting? && client'.stage.Waiting?
    ensures Awaited(clients[c := client'], ids + [client'.stage.id])
  {
    var clients' := clients[c := client'];
    forall i | 0 <= i < |ids|
      ensures IsAwaited(clients', ids[i])
    {
      assert IsAwaited(clients, ids[i]);
      assert Waits(clients', Waiter(clients, ids[i]), ids[i]);
    }
    assert Waits(clients', c, client'.stage.id);
  }

  /** Nobody else's rows are affected, and `c`'s own are now in flight. */
  lemma SentFlight(submitted: seq<Entry>, clients: map<nat, Client>, owner: map<Text, nat>, ids: seq<nat>,
                   c: nat, rows: seq<(Text, Row)>, t: Text)
    requires TicketsOk(submitted, clients) && RowsLocked(clients, owner) && GC.Named(submitted, ids)
    requires c in clients && clients[c].stage == Checked(rows)
    ensures var clients' := clients[c := clients[c].(stage := Waiting(|submitted|, rows))];
      && InFlight(clients', owner, ids + [|submitted|], t) == InFlight(clients, owner, ids, t) + RowsFor(rows, t)
      && (RowsFor(rows, t) != [] ==> InFlight(clients, owner, ids, t) == [])
  {
    hide RowsFor;
    var clients' := clients[c := clients[c].(stage := Waiting(|submitted|, rows))];
    assert RowsHeld(owner, c, StageRows(clients[c].stage));
    if !Holds(owner, c, t) {
      RowsForNone(rows, t);
      var w := WaitId(clients, owner, t);
      if w.Some? {
        assert Waits(clients, owner[t], w.value);
      }
    }
  }

  /** Tables in memory are sound: each is the first part of a sound replayed one. */
  lemma MemoryInv(replayed: map<Text, TableData>, tables: map<Text, TableData>,
                  clients: map<nat, Client>, owner: map<Text, nat>, ids: seq<nat>)
    requires AllInv(replayed) && MemoryAgrees(replayed, tables, clients, owner, ids)
    ensures AllInv(tables)
  {
    hide TableInv, Shaped, InFlight;
    forall t | t in tables
      ensures TableInv(tables[t])
    {
      assert TableAgrees(replayed[t], tables[t], InFlight(clients, owner, ids, t));
      PrefixInv(replayed[t], tables[t]);
    }
  }

  /** One table after a batch is submitted. */
  lemma SentTable(before: TableData, after: TableData, memory: TableData, applied: TableData,
                  flight: seq<Row>, share: seq<Row>)
    requires TableAgrees(before, memory, flight) && TableAdds(after, before, share)
    requires Shaped(after) && TableInv(before)
    requires applied == PushAll(memory, share) && TableInv(applied)
    requires share != [] ==> flight == []
    ensures TableAgrees(after, memory, flight + share) && TableInv(after)
  {
    hide TableInv, Shaped, PushAll;
    assert memory.rows + flight + share == memory.rows + (flight + share);
    if share == [] {
      PrefixInv(before, after);
    } else {
      PushAllRows(memory, share);
      assert memory.rows + [] == memory.rows;
      PrefixInv(applied, after);
    }
  }

  lemma SubmittedAdds(submitted: seq<Entry>, ids: seq<nat>, rows: seq<(Text, Row)>)
    requires GC.Named(submitted, ids)
    ensures var submitted' := submitted + [Transaction(rows)];
      var after, before := ReplayIds(submitted', ids + [|submitted|]), ReplayIds(submitted, ids);
      && GC.Named(submitted', ids + [|submitted|])
      && after.Keys == before.Keys
      && forall t :: t in after ==> TableAdds(after[t], before[t], RowsFor(rows, t)) && Shaped(after[t])
  {
    hide Replay, RowsFor, IsBuilt, Shaped;
    var submitted', ids' := submitted + [Transaction(rows)], ids + [|submitted|];
    var es, e := GC.Entries(submitted, ids), Transaction(rows);
    assert GC.Entries(submitted', ids') == es + [e];
    ReplayExtends(es, [e]);
    ReplayBuilt(es + [e]);
    var after := ReplayIds(submitted', ids');
    forall t | t in after
      ensures LogRows([e], t) == RowsFor(rows, t) && Shaped(after[t])
    {
      assert [e][..0] == [];
      BuiltShaped(after[t]);
    }
  }

  lemma SentTables(submitted: seq<Entry>, clients: map<nat, Client>, owner: map<Text, nat>, ids: seq<nat>,
                   tables: map<Text, TableData>, c: nat, rows: seq<(Text, Row)>)
    requires GC.Named(submitted, ids) && TicketsOk(submitted, clients) && RowsLocked(clients, owner)
    requires AllInv(ReplayIds(submitted, ids)) && MemoryAgrees(ReplayIds(submitted, ids), tables, clients, owner, ids)
    requires c in clients && clients[c].stage == Checked(rows) && BatchInsertable(tables, rows)
    ensures var clients' := clients[c := clients[c].(stage := Waiting(|submitted|, rows))];
      var after := ReplayIds(submitted + [Transaction(rows)], ids + [|submitted|]);
      AllInv(after) && MemoryAgrees(after, tables, clients', owner, ids + [|submitted|])
  {
    hide InFlight, ReplayIds, TicketsOk, RowsLocked, TableInv, TableAgrees, TableAdds, Shaped, RowsFor, PushAll,
         ApplyRows, BatchInsertable;
    var clients' := clients[c := clients[c].(stage := Waiting(|submitted|, rows))];
    var before, after := ReplayIds(submitted, ids), ReplayIds(submitted + [Transaction(rows)], ids + [|submitted|]);
    SubmittedAdds(submitted, ids, rows);
    MemoryInv(before, tables, clients, owner, ids);
    BatchInv(tables, rows);
    ApplyRowsEach(tables, rows);
    forall t | t in tables
      ensures TableInv(after[t])
      ensures TableAgrees(after[t], tables[t], InFlight(clients', owner, ids + [|submitted|], t))
    {
      SentFlight(submitted, clients, owner, ids, c, rows, t);
      SentTable(before[t], after[t], tables[t], ApplyRows(tables, rows)[t],
                InFlight(clients, owner, ids, t), RowsFor(rows, t));
    }
  }

  lemma SendKeeps(s: System, c: nat)
    requires Inv(s) && c in s.clients && s.clients[c].stage.Checked?
    requires GC.Enabled(s.log, GC.Submit(Transaction(s.clients[c].stage.rows)))
    ensures var rows := s.clients[c].stage.rows;
      Inv(s.(log := GC.Next(s.log, GC.Submit(Transaction(rows))),
             clients := s.clients[c := s.clients[c].(stage := Waiting(|s.log.submitted|, rows))]))
  {
    hide GC.Inv, AllInv, ClientsOk, TicketsOk, Awaited, MemoryAgrees, GC.Next, GC.Enabled, ReplayIds, RowsLocked,
         GC.Increasing, GC.Named, BatchInsertable, RowsHeld, PendingOk;
    var rows := s.clients[c].stage.rows;
    var e := Transaction(rows);
    LogKept(s.log, GC.Submit(e));
    LogFacts(s.log);
    GC.SubmitOrder(s.log, e);
    LockedRows(s);
    OneOf(s.tables, s.owner, s.clients, c);
    SentTables(s.log.submitted, s.clients, s.owner, GC.Order(s.log), s.tables, c, rows);
    SentClientsOk(s, c);
    SentTickets(s.log.submitted, s.clients, c, rows);
    SentAwaited(s.clients, c, s.clients[c].(stage := Waiting(|s.log.submitted|, rows)), GC.Undurable(s.log));
  }

  /** A connection's checks stand while nobody touches the tables it holds. */
  lemma ClientFrame(tables: map<Text, TableData>, tables': map<Text, TableData>, owner: map<Text, nat>, c: nat, client: Client)
    requires ClientOk(tables, owner, c, client) && tables.Keys == tables'.Keys
    requires forall t :: t in tables && Holds(owner, c, t) ==> SameTable(tables[t], tables'[t])
    ensures ClientOk(tables', owner, c, client)
  {
    var rows := StageRows(client.stage);
    forall i | 0 <= i < |rows|
      ensures RowInsertable(tables', rows[i]) && SameTable(tables[rows[i].0], tables'[rows[i].0])
    {
      assert Holds(owner, c, rows[i].0) && RowInsertable(tables, rows[i]);
    }
    forall i, j | 0 <= i < j < |rows|
      ensures !Clash(tables', rows[i], rows[j])
    {
      assert !Clash(tables, rows[i], rows[j]);
    }
    forall t | t in client.pending
      ensures PendingFits(tables'[t], client.pending[t])
    {
      assert PendingFits(tables[t], client.pending[t]) && SameTable(tables[t], tables'[t]);
    }
  }

  lemma ReserveKeeps(s: System, t: Text)
    requires Inv(s) && s.log.node.Up? && t in s.tables && Reserve(s.tables[t]).Ok?
    ensures Inv(s.(tables := s.tables[t := Reserve(s.tables[t]).value.1]))
  {
    hide GC.Inv, AllInv, TicketsOk, Awaited, ReplayIds, ClientOk, InFlight, Build;
    var tables' := s.tables[t := Reserve(s.tables[t]).value.1];
    assert forall n :: n in s.tables ==> SameTable(s.tables[n], tables'[n]);
    forall c | c in s.clients
      ensures ClientOk(tables', s.owner, c, s.clients[c])
    {
      ClientFrame(s.tables, tables', s.owner, c, s.clients[c]);
    }
    assert Shaped(s.tables[t]);
  }

  // ---- answered requests ----

  lemma ReleasedFlight(clients: map<nat, Client>, owner: map<Text, nat>, c: nat, ids: seq<nat>, t: Text)
    ensures InFlight(clients[c := IDLE], Without(owner, c), ids, t)
         == if Holds(owner, c, t) then [] else InFlight(clients, owner, ids, t)
  {
    hide RowsFor;
  }

  lemma ReleasedTickets(submitted: seq<Entry>, clients: map<nat, Client>, c: nat, ids: seq<nat>)
    requires TicketsOk(submitted, clients) && Awaited(clients, ids)
    requires c in clients && clients[c].stage.Waiting? && clients[c].stage.id !in ids
    ensures TicketsOk(submitted, clients[c := IDLE]) && Awaited(clients[c := IDLE], ids)
  {
    var clients' := clients[c := IDLE];
    assert forall d: nat, id: nat :: Waits(clients', d, id) ==> Waits(clients, d, id);
    forall i | 0 <= i < |ids|
      ensures IsAwaited(clients', ids[i])
    {
      assert IsAwaited(clients, ids[i]);
      assert Waits(clients', Waiter(clients, ids[i]), ids[i]);
    }
  }

  lemma AckedDurable(log: GC.State, id: nat)
    requires GC.Inv(log) && id in log.acked
    ensures id in GC.Order(log) && id !in GC.Undurable(log)
  {
    hide GC.FileInv, GC.AckInv, GC.Accounted;
    GC.OrderParts(log);
    var d, u := log.durable, GC.Undurable(log);
    assert id in GC.IdSet(log.durable);
    var k :| 0 <= k < |d| && d[k] == id;
    assert GC.Order(log)[k] == id;
    assert forall j :: 0 <= j < |u| ==> GC.Order(log)[|d| + j] == u[j];
  }

  lemma NotUndurable(log: GC.State, id: nat)
    requires id !in GC.Order(log)
    ensures id !in GC.Undurable(log)
  {
    GC.OrderParts(log);
    var d, u := log.durable, GC.Undurable(log);
    assert forall j :: 0 <= j < |u| ==> GC.Order(log)[|d| + j] == u[j];
  }

  lemma FailKeeps(s: System, c: nat)
    requires Inv(s) && s.log.node.Up? && c in s.clients && s.clients[c].stage.Waiting?
    requires s.clients[c].stage.id !in GC.Order(s.log)
    ensures Inv(Release(s, c))
  {
    hide GC.Inv, AllInv, ClientsOk, TicketsOk, Awaited, TableAgrees, ReplayIds, ClientOk, RowsFor, Without;
    var owner', ids := Without(s.owner, c), GC.Order(s.log);
    NotUndurable(s.log, s.clients[c].stage.id);
    IdleOk(s.tables, owner', c);
    assert forall d, t :: d != c && Holds(s.owner, d, t) ==> Holds(owner', d, t) by { WithoutKeeps(s.owner, c); }
    OneChanges(s.tables, s.owner, owner', s.clients, c, IDLE);
    ReleasedTickets(s.log.submitted, s.clients, c, GC.Undurable(s.log));
    forall t | t in s.tables
      ensures InFlight(s.clients[c := IDLE], owner', ids, t) == InFlight(s.clients, s.owner, ids, t)
    {
      ReleasedFlight(s.clients, s.owner, c, ids, t);
    }
  }

  lemma WithoutKeeps(owner: map<Text, nat>, c: nat)
    ensures forall d, t :: d != c && Holds(owner, d, t) ==> Holds(Without(owner, c), d, t)
  {}

  /** A refused connection gives up.  Memory and replay go on agreeing exactly if its
      record did not get out: otherwise the refused rows are in the log for good. */
  lemma GivingUpExact(s: System, c: nat)
    requires Inv(s) && Refused(s, c)
    ensures Inv(Release(s, c)) <==> s.clients[c].stage.id !in GC.Order(s.log)
  {
    hide GC.Inv, AllInv, ClientsOk, TicketsOk, Awaited, TableAgrees, ReplayIds, BatchInsertable, PendingOk, RowsFor, Without;
    var ids, rows := GC.Order(s.log), s.clients[c].stage.rows;
    if s.clients[c].stage.id in ids {
      OneOf(s.tables, s.owner, s.clients, c);
      var t := rows[0].0;
      InsertableTable(s.tables, rows, 0);
      assert Holds(s.owner, c, t);
      RowsForSome(rows, 0);
      ReleasedFlight(s.clients, s.owner, c, ids, t);
      LoggedNotSeen(Replayed(s.log)[t], s.tables[t], RowsFor(rows, t));
    } else {
      FailKeeps(s, c);
    }
  }

  lemma LoggedNotSeen(replayed: TableData, memory: TableData, flight: seq<Row>)
    requires TableAgrees(replayed, memory, flight) && flight != []
    ensures !TableAgrees(replayed, memory, [])
  {
    hide Shaped;
    assert |replayed.rows| == |memory.rows| + |flight|;
  }

  lemma InsertableTable(tables: map<Text, TableData>, rows: seq<(Text, Row)>, i: nat)
    requires BatchInsertable(tables, rows) && i < |rows|
    ensures rows[i].0 in tables
  {}

  lemma RowsForSome(rows: seq<(Text, Row)>, i: nat)
    requires i < |rows|
    ensures RowsFor(rows, rows[i].0) != []
  {
    if i < |rows| - 1 {
      RowsForSome(rows[..|rows| - 1], i);
    }
  }

  /** Replay with one more batch logged. */
  function LoggedAgain(log: GC.State, rows: seq<(Text, Row)>): map<Text, TableData> {
    ReplayIds(log.submitted + [Transaction(rows)], GC.Order(log) + [|log.submitted|])
  }

  ghost predicate Unsound(tables: map<Text, TableData>, t: Text) {
    t in tables && !TableInv(tables[t])
  }

  /** What that leads to: the same rows pass validation again, and once they are logged
      again the replayed table holds every one of their keys twice. */
  lemma RetryRepeatsKeys(s: System, c: nat, t: Text)
    requires Inv(s) && Refused(s, c) && s.clients[c].stage.id in GC.Order(s.log)
    requires t in s.tables && s.tables[t].keyIndex.Some?
    requires RowsFor(s.clients[c].stage.rows, t) != []
    ensures BatchInsertable(s.tables, s.clients[c].stage.rows)
    ensures Unsound(LoggedAgain(s.log, s.clients[c].stage.rows), t)
  {
    hide Inv, ReplayIds, BatchInsertable, RowsFor, TableInv, Shaped, GC.Order, GC.Named, RowsHeld;
    var rows, ids := s.clients[c].stage.rows, GC.Order(s.log);
    var again := LoggedAgain(s.log, rows);
    CheckedStill(s, c);
    OwnShare(s.owner, c, rows, t);
    OwnInFlight(s, c, t);
    SubmittedAdds(s.log.submitted, ids, rows);
    RepeatedKeys(s.tables[t], RowsFor(rows, t), again[t]);
  }

  lemma CheckedStill(s: System, c: nat)
    requires Inv(s) && c in s.clients
    ensures RowsHeld(s.owner, c, StageRows(s.clients[c].stage)) && BatchInsertable(s.tables, StageRows(s.clients[c].stage))
    ensures GC.Named(s.log.submitted, GC.Order(s.log))
  {
    hide GC.Inv, AllInv, ClientsOk, TicketsOk, Awaited, MemoryAgrees, MemoryPrefix, ReplayIds, BatchInsertable, PendingOk,
         RowsHeld, GC.Increasing;
    OneOf(s.tables, s.owner, s.clients, c);
    LogFacts(s.log);
  }

  lemma OwnInFlight(s: System, c: nat, t: Text)
    requires Inv(s) && Refused(s, c) && s.clients[c].stage.id in GC.Order(s.log)
    requires t in s.tables && Holds(s.owner, c, t)
    ensures t in Replayed(s.log)
    ensures TableAgrees(Replayed(s.log)[t], s.tables[t], RowsFor(s.clients[c].stage.rows, t))
  {
    hide GC.Inv, AllInv, ClientsOk, TicketsOk, Awaited, ReplayIds, RowsFor, TableAgrees, GC.Order;
  }

  lemma OwnShare(owner: map<Text, nat>, c: nat, rows: seq<(Text, Row)>, t: Text)
    requires RowsHeld(owner, c, rows) && RowsFor(rows, t) != []
    ensures Holds(owner, c, t)
  {
    hide RowsFor;
    if !Holds(owner, c, t) {
      RowsForNone(rows, t);
    }
  }

  lemma RepeatedKeys(memory: TableData, share: seq<Row>, again: TableData)
    requires Shaped(memory) && Shaped(again) && again.schema == memory.schema && memory.keyIndex.Some?
    requires share != [] && again.rows == memory.rows + share + share
    ensures !TableInv(again)
  {
    hide Shaped;
    SameKeyColumn(memory, again);
    var i, j, k := |memory.rows|, |memory.rows| + |share|, again.keyIndex.value;
    assert again.rows[i] == share[0] == again.rows[j];
    assert !IndexExact(again.index, again.rows, k);
  }

  lemma SameKeyColumn(a: TableData, b: TableData)
    requires Shaped(a) && Shaped(b) && a.schema == b.schema
    ensures a.keyIndex == b.keyIndex
  {
    hide PushAll;
    var empty := NewTable(a.schema.columns, a.schema.primaryKey);
    PushAllRows(empty, a.rows);
    PushAllRows(empty, b.rows);
  }

  /** Applying touches only tables `c` holds. */
  lemma AppliedElsewhere(tables: map<Text, TableData>, owner: map<Text, nat>, c: nat, rows: seq<(Text, Row)>, t: Text)
    requires RowsHeld(owner, c, rows) && t in tables && !Holds(owner, c, t)
    ensures t in ApplyRows(tables, rows) && ApplyRows(tables, rows)[t] == tables[t]
  {
    hide ApplyRows, RowsFor;
    RowsForNone(rows, t);
    ApplyRowsAt(tables, rows, t);
  }

  lemma AppliedClients(tables: map<Text, TableData>, owner: map<Text, nat>, clients: map<nat, Client>, c: nat)
    requires ClientsOk(tables, owner, clients) && c in clients
    ensures ClientsOk(ApplyRows(tables, StageRows(clients[c].stage)), Without(owner, c), clients[c := IDLE])
  {
    hide ApplyRows, ClientOk;
    var rows := StageRows(clients[c].stage);
    var tables' := ApplyRows(tables, rows);
    ApplyRowsKeys(tables, rows);
    assert RowsHeld(owner, c, rows) by { HeldByClient(tables, owner, c, clients[c]); }
    forall d | d in clients && d != c
      ensures ClientOk(tables', Without(owner, c), d, clients[d])
    {
      forall t | t in tables && Holds(owner, d, t)
        ensures SameTable(tables[t], tables'[t])
      {
        AppliedElsewhere(tables, owner, c, rows, t);
      }
      ClientFrame(tables, tables', owner, d, clients[d]);
      LocksEnough(tables', owner, Without(owner, c), d, clients[d]);
    }
    IdleOk(tables', Without(owner, c), c);
  }

  lemma HeldByClient(tables: map<Text, TableData>, owner: map<Text, nat>, c: nat, client: Client)
    requires ClientOk(tables, owner, c, client)
    ensures RowsHeld(owner, c, StageRows(client.stage))
  {
    hide BatchInsertable, PendingOk;
  }

  lemma LocksEnough(tables: map<Text, TableData>, owner: map<Text, nat>, owner': map<Text, nat>, d: nat, client: Client)
    requires ClientOk(tables, owner, d, client)
    requires forall t :: Holds(owner, d, t) ==> Holds(owner', d, t)
    ensures ClientOk(tables, owner', d, client)
  {
    hide BatchInsertable, PendingFits;
  }

  /** One table when `c` applies its batch. */
  lemma AppliedTable(tables: map<Text, TableData>, clients: map<nat, Client>, owner: map<Text, nat>, ids: seq<nat>,
                     c: nat, t: Text, replayed: TableData)
    requires c in clients && clients[c].stage.Waiting? && clients[c].stage.id in ids
    requires RowsHeld(owner, c, clients[c].stage.rows) && t in tables
    requires TableAgrees(replayed, tables[t], InFlight(clients, owner, ids, t))
    ensures var tables' := ApplyRows(tables, clients[c].stage.rows);
      t in tables' && TableAgrees(replayed, tables'[t], InFlight(clients[c := IDLE], Without(owner, c), ids, t))
    ensures Holds(owner, c, t) ==> ApplyRows(tables, clients[c].stage.rows)[t].rows == replayed.rows
  {
    hide ApplyRows, RowsFor, Shaped, PushAll, Without;
    var rows := clients[c].stage.rows;
    ReleasedFlight(clients, owner, c, ids, t);
    ApplyRowsAt(tables, rows, t);
    if Holds(owner, c, t) {
      PushAllRows(tables[t], RowsFor(rows, t));
      PushAllShaped(tables[t], RowsFor(rows, t));
      assert replayed.rows + [] == replayed.rows;
    } else {
      AppliedElsewhere(tables, owner, c, rows, t);
    }
  }

  lemma ApplyKeeps(s: System, c: nat)
    requires Inv(s) && s.log.node.Up? && c in s.clients && s.clients[c].stage.Waiting?
    requires s.clients[c].stage.id in s.log.acked
    ensures Inv(Release(s.(tables := ApplyRows(s.tables, s.clients[c].stage.rows)), c))
  {
    hide GC.Inv, AllInv, ClientsOk, TicketsOk, Awaited, TableAgrees, ReplayIds, ClientOk, InFlight, ApplyRows;
    var ids, rows := GC.Order(s.log), s.clients[c].stage.rows;
    var tables' := ApplyRows(s.tables, rows);
    AckedDurable(s.log, s.clients[c].stage.id);
    AppliedClients(s.tables, s.owner, s.clients, c);
    OneOf(s.tables, s.owner, s.clients, c);
    HeldByClient(s.tables, s.owner, c, s.clients[c]);
    ReleasedTickets(s.log.submitted, s.clients, c, GC.Undurable(s.log));
    ApplyRowsKeys(s.tables, rows);
    forall t | t in tables'
      ensures TableAgrees(Replayed(s.log)[t], tables'[t], InFlight(s.clients[c := IDLE], Without(s.owner, c), ids, t))
    {
      AppliedTable(s.tables, s.clients, s.owner, ids, c, t, Replayed(s.log)[t]);
    }
  }

  // ---- every run ----

  lemma CommitKeeps(s: System, c: nat, rows: seq<(Text, Row)>)
    requires Inv(s) && Free(s, c) && Lists(rows, s.clients[c].pending)
    ensures Inv(Validated(s, c, rows))
  {
    hide Inv, Lists, RowsHeld, BatchInsertable, Validated;
    CommitPasses(s, c, rows);
    ValidatedKeeps(s, c, rows);
  }

  lemma BeginOk(tables: map<Text, TableData>, owner: map<Text, nat>, c: nat)
    ensures ClientOk(tables, owner, c, Client(true, map[], Ready))
  {}

  lemma StepKeeps(s: System, step: Step)
    requires Inv(s) && Enabled(s, step)
    ensures Inv(Next(s, step))
  {
    hide Inv, GC.Enabled, GC.Next, Lists, Acceptable, RowsHeld, Reserve, ClientOk, Validated, Release, Reloaded;
    match step
    case Writer(w) =>
      if GC.Quiet(w) {
        QuietKeeps(s, w);
      } else {
        RefusalKeeps(s, w.cut);
      }
    case CrashAt(cut) => CrashKeeps(s, cut);
    case Restart => RestartKeeps(s);
    case Connect(c) => ConnectKeeps(s, c);
    case Begin(c) =>
      BeginOk(s.tables, s.owner, c);
      ClientKeeps(s, c, Client(true, map[], Ready));
    case Lock(c, t) => LockKeeps(s, c, t);
    case Buffer(c, t, row) => BufferKeeps(s, c, t, row);
    case Insert(c, rows) => ValidatedKeeps(s, c, rows);
    case Commit(c, rows) => CommitKeeps(s, c, rows);
    case Send(c) => SendKeeps(s, c);
    case Apply(c) => ApplyKeeps(s, c);
    case Fail(c) => FailKeeps(s, c);
    case LetGo(c) => ReleaseKeeps(s, c);
    case ReserveNext(t) => ReserveKeeps(s, t);
  }
}
