/** Startup checkpointing: rewriting the log as a snapshot of the state it replays to,
    in whatever order the hash maps enumerate, and the crash safety of the rewrite. */
module Checkpoint {
  import opened Basics
  import opened Values
  import opened LogFormat
  import opened Recovery
  import opened Tables
  import opened Engine
  import opened Soundness
  import opened Projection

  // ---- replaying a log piece by piece ----

  function ApplyAll(s: StorageData, es: seq<Entry>): StorageData {
    if es == [] then s else ApplyEntry(ApplyAll(s, es[..|es| - 1]), es[|es| - 1])
  }

  lemma {:induction false} ReplayIsApplyAll(es: seq<Entry>)
    ensures Replay(es) == ApplyAll(EMPTY, es)
  {
    hide ApplyEntry;
    if es != [] {
      ReplayIsApplyAll(es[..|es| - 1]);
    }
  }

  lemma {:induction false} ApplyAllAppend(s: StorageData, a: seq<Entry>, b: seq<Entry>)
    ensures ApplyAll(s, a + b) == ApplyAll(ApplyAll(s, a), b)
  {
    hide ApplyEntry;
    if b == [] {
      assert a + b == a;
    } else {
      var n := |b| - 1;
      ApplyAllAppend(s, a, b[..n]);
      assert (a + b)[..|a + b| - 1] == a + b[..n];
    }
  }

  lemma ApplyAllOne(s: StorageData, e: Entry)
    ensures ApplyAll(s, [e]) == ApplyEntry(s, e)
  {
    hide ApplyEntry;
    assert [e][..0] == [];
  }

  // ---- the snapshot ----

  /** The records of one table. */
  function TableEntries(name: Text, t: TableData): seq<Entry> {
    [CreateTable(name, t.schema.columns, t.schema.primaryKey)]
    + if t.rows != [] then [Transaction(Tagged(name, t.rows))] else []
  }

  function TablesEntries(tables: map<Text, TableData>, names: seq<Text>): seq<Entry>
    requires forall i :: 0 <= i < |names| ==> names[i] in tables
  {
    if names == [] then []
    else TablesEntries(tables, names[..|names| - 1]) + TableEntries(names[|names| - 1], tables[names[|names| - 1]])
  }

  function DatabaseEntries(dbs: seq<Text>): seq<Entry> {
    seq(|dbs|, i requires 0 <= i < |dbs| => CreateDatabase(dbs[i]))
  }

  function Snapshot(s: StorageData, names: seq<Text>, dbs: seq<Text>): seq<Entry>
    requires Enumerates(names, s.tables.Keys)
  {
    assert forall i :: 0 <= i < |names| ==> names[i] in (set n | n in names);
    TablesEntries(s.tables, names) + DatabaseEntries(dbs)
  }

  // ---- replaying the snapshot ----

  lemma {:induction false} ApplyTagged(tables: map<Text, TableData>, name: Text, rows: seq<Row>)
    requires name in tables
    ensures ApplyRows(tables, Tagged(name, rows)) == tables[name := PushAll(tables[name], rows)]
  {
    hide Push;
    var trs := Tagged(name, rows);
    if rows == [] {
      assert tables[name := tables[name]] == tables;
    } else {
      var n := |rows| - 1;
      ApplyTagged(tables, name, rows[..n]);
      assert trs[..n] == Tagged(name, rows[..n]);
    }
  }

  lemma ApplyTable(s: StorageData, name: Text, t: TableData)
    requires IsBuilt(t)
    ensures ApplyAll(s, TableEntries(name, t)) == s.(tables := s.tables[name := t])
  {
    hide Push, NewTable, PushAll;
    var create := CreateTable(name, t.schema.columns, t.schema.primaryKey);
    var blank := NewTable(t.schema.columns, t.schema.primaryKey);
    var made := s.(tables := s.tables[name := blank]);
    ApplyAllOne(s, create);
    if t.rows == [] {
      assert TableEntries(name, t) == [create];
      assert t == blank by { EmptyBuild(t); }
    } else {
      var fill := Transaction(Tagged(name, t.rows));
      ApplyAllAppend(s, [create], [fill]);
      ApplyAllOne(made, fill);
      ApplyTagged(made.tables, name, t.rows);
      assert made.tables[name := t] == s.tables[name := t];
    }
  }

  lemma {:induction false} ApplyTables(tables: map<Text, TableData>, names: seq<Text>)
    requires AllBuilt(tables) && forall i :: 0 <= i < |names| ==> names[i] in tables
    ensures ApplyAll(EMPTY, TablesEntries(tables, names))
         == StorageData(map n | n in names :: tables[n], {})
  {
    hide IsBuilt, TableEntries;
    if names != [] {
      var k := |names| - 1;
      var name := names[k];
      ApplyTables(tables, names[..k]);
      ApplyAllAppend(EMPTY, TablesEntries(tables, names[..k]), TableEntries(name, tables[name]));
      var part := ApplyAll(EMPTY, TablesEntries(tables, names[..k]));
      ApplyTable(part, name, tables[name]);
      assert names == names[..k] + [name];
      assert part.tables[name := tables[name]] == (map n | n in names :: tables[n]);
    }
  }

  lemma {:induction false} ApplyDatabases(s: StorageData, dbs: seq<Text>)
    ensures ApplyAll(s, DatabaseEntries(dbs)) == s.(databases := s.databases + set d | d in dbs)
  {
    var es := DatabaseEntries(dbs);
    if dbs == [] {
      assert s.databases + (set d | d in dbs) == s.databases;
    } else {
      var k := |dbs| - 1;
      ApplyDatabases(s, dbs[..k]);
      assert es[..k] == DatabaseEntries(dbs[..k]);
      assert dbs == dbs[..k] + [dbs[k]];
      assert (set d | d in dbs) == (set d | d in dbs[..k]) + {dbs[k]};
    }
  }

  /** Replaying the snapshot of a replayed state gives that state, counters included,
      whatever order tables and databases are written in. */
  lemma SnapshotReplays(s: StorageData, names: seq<Text>, dbs: seq<Text>)
    requires AllBuilt(s.tables) && Enumerates(names, s.tables.Keys) && Enumerates(dbs, s.databases)
    ensures Replay(Snapshot(s, names, dbs)) == s
  {
    hide IsBuilt, ApplyEntry, TablesEntries;
    assert forall i :: 0 <= i < |names| ==> names[i] in (set n | n in names);
    var es := TablesEntries(s.tables, names);
    ReplayIsApplyAll(Snapshot(s, names, dbs));
    ApplyAllAppend(EMPTY, es, DatabaseEntries(dbs));
    ApplyTables(s.tables, names);
    ApplyDatabases(ApplyAll(EMPTY, es), dbs);
    assert (map n | n in names :: s.tables[n]) == s.tables by {
      assert forall n :: n in names <==> n in (set m | m in names);
    }
    assert {} + (set d | d in dbs) == s.databases;
  }

  /** A checkpoint of any log's state keeps that state. */
  lemma CheckpointKeepsState(log: seq<Entry>, names: seq<Text>, dbs: seq<Text>)
    requires Enumerates(names, Replay(log).tables.Keys) && Enumerates(dbs, Replay(log).databases)
    ensures Replay(Snapshot(Replay(log), names, dbs)) == Replay(log)
  {
    ReplayBuilt(log);
    SnapshotReplays(Replay(log), names, dbs);
  }

  // ---- the rewrite on disk ----

  /** The data directory: the log, the temporary file if there is one, and the snapshot
      being written to it if a checkpoint is under way. */
  datatype Directory = Directory(log: seq<byte>, tmp: Option<seq<byte>>, snapshot: Option<seq<Entry>>)

  datatype DiskStep =
    | Start(names: seq<Text>, dbs: seq<Text>)   // create or truncate the temporary file
    | WriteUpTo(k: nat)                         // some prefix of the snapshot has arrived
    | Rename                                    // after sync_all, so all of it has
    | CrashNow                                  // restart; a leftover temporary file stays

  ghost predicate CanStep(d: Directory, step: DiskStep) {
    match step
    case Start(names, dbs) =>
      && Recover(d.log).Ok?
      && var s := Replay(Recover(d.log).value.entries);
      && Enumerates(names, s.tables.Keys) && Enumerates(dbs, s.databases)
      && AllStorable(Snapshot(s, names, dbs))
    case WriteUpTo(k) => d.snapshot.Some? && k <= |Frames(d.snapshot.value)|
    case Rename => d.snapshot.Some? && d.tmp == Some(Frames(d.snapshot.value))
    case CrashNow => true
  }

  ghost function DoStep(d: Directory, step: DiskStep): Directory
    requires CanStep(d, step)
  {
    match step
    case Start(names, dbs) =>
      var r := Recover(d.log).value;
      Directory(d.log[..r.kept], Some([]), Some(Snapshot(Replay(r.entries), names, dbs)))
    case WriteUpTo(k) => d.(tmp := Some(Frames(d.snapshot.value)[..k]))
    case Rename => Directory(d.tmp.value, None, None)
    case CrashNow => d.(snapshot := None)
  }

  ghost function Steps(d: Directory, steps: seq<DiskStep>): Option<Directory> {
    if steps == [] then Some(d)
    else match Steps(d, steps[..|steps| - 1])
      case None => None
      case Some(e) =>
        if CanStep(e, steps[|steps| - 1]) then Some(DoStep(e, steps[|steps| - 1])) else None
  }

  /** The log replays to `s`, and so would the snapshot. */
  ghost predicate Holds(d: Directory, s: StorageData) {
    && Recover(d.log).Ok? && Replay(Recover(d.log).value.entries) == s
    && (d.snapshot.Some? ==> AllStorable(d.snapshot.value) && Replay(d.snapshot.value) == s)
  }

  lemma StepHolds(d: Directory, step: DiskStep, s: StorageData)
    requires Holds(d, s) && CanStep(d, step)
    ensures Holds(DoStep(d, step), s)
  {
    hide Recover, Replay, Snapshot, Storable, Frames, Enumerates;
    match step
    case Start(names, dbs) =>
      RecoveryIdempotent(d.log);
      CheckpointKeepsState(Recover(d.log).value.entries, names, dbs);
    case WriteUpTo(k) =>
    case Rename => RecoverFrames(d.snapshot.value);
    case CrashNow =>
  }

  /** However often a checkpoint is started, interrupted at any byte, or completed, the
      log replays to the same state. */
  lemma {:induction false} CheckpointCrashSafe(d: Directory, steps: seq<DiskStep>, s: StorageData)
    requires Holds(d, s) && Steps(d, steps).Some?
    ensures Holds(Steps(d, steps).value, s)
  {
    hide Holds, CanStep, DoStep;
    if steps != [] {
      CheckpointCrashSafe(d, steps[..|steps| - 1], s);
      StepHolds(Steps(d, steps[..|steps| - 1]).value, steps[|steps| - 1], s);
    }
  }

  // ---- the method that writes it ----

  method TakeOne(pool: set<Text>) returns (name: Text, rest: set<Text>)
    requires pool != {}
    ensures name in pool && rest == pool - {name}
  {
    name :| name in pool;
    rest := pool - {name};
  }

  /** The table part of the snapshot, framed, in some order. */
  method FrameTables(tables: map<Text, TableData>) returns (framed: seq<byte>, ghost names: seq<Text>)
    ensures Enumerates(names, tables.Keys)
    ensures forall i :: 0 <= i < |names| ==> names[i] in tables
    ensures framed == Frames(TablesEntries(tables, names))
  {
    hide Frames, Enumerates, TableEntries;
    names, framed := [], [];
    FramesNone();
    NothingEnumerated<Text>();
    var todo := tables.Keys;
    assert tables.Keys - todo == {};
    while todo != {}
      invariant todo <= tables.Keys && Enumerates(names, tables.Keys - todo)
      invariant forall i :: 0 <= i < |names| ==> names[i] in tables
      invariant framed == Frames(TablesEntries(tables, names))
      decreases |todo|
    {
      var name, rest := TakeOne(todo);
      var more := FrameTable(name, tables[name]);
      framed := framed + more;
      FramesAppend(TablesEntries(tables, names), TableEntries(name, tables[name]));
      EnumerateMore(names, tables.Keys - todo, name);
      assert (tables.Keys - todo) + {name} == tables.Keys - rest;
      assert (names + [name])[..|names|] == names;
      names := names + [name];
      todo := rest;
    }
    assert tables.Keys - todo == tables.Keys;
  }

  method FrameDatabases(databases: set<Text>) returns (framed: seq<byte>, ghost dbs: seq<Text>)
    ensures Enumerates(dbs, databases)
    ensures framed == Frames(DatabaseEntries(dbs))
  {
    hide Frames, Enumerates, FrameRecord, EncodeEntry;
    dbs, framed := [], [];
    FramesNone();
    assert DatabaseEntries(dbs) == [];
    NothingEnumerated<Text>();
    var todo := databases;
    assert databases - todo == {};
    while todo != {}
      invariant todo <= databases && Enumerates(dbs, databases - todo)
      invariant framed == Frames(DatabaseEntries(dbs))
      decreases |todo|
    {
      var name, rest := TakeOne(todo);
      framed := framed + FrameRecord(EncodeEntry(CreateDatabase(name)));
      FramesOne(CreateDatabase(name));
      FramesAppend(DatabaseEntries(dbs), [CreateDatabase(name)]);
      assert DatabaseEntries(dbs) + [CreateDatabase(name)] == DatabaseEntries(dbs + [name]);
      EnumerateMore(dbs, databases - todo, name);
      assert (databases - todo) + {name} == databases - rest;
      dbs := dbs + [name];
      todo := rest;
    }
    assert databases - todo == databases;
  }

  /** `checkpoint_if_worthwhile` without a crash: below the threshold the log stays, at or
      above it the log becomes the snapshot, in the order the maps happened to enumerate. */
  method CheckpointIfWorthwhile(log: LogFile, threshold: nat, s: StorageData)
    returns (ghost names: seq<Text>, ghost dbs: seq<Text>)
    modifies log
    ensures |old(log.bytes)| < threshold ==> log.bytes == old(log.bytes)
    ensures |old(log.bytes)| >= threshold ==>
      && Enumerates(names, s.tables.Keys) && Enumerates(dbs, s.databases)
      && log.bytes == Frames(Snapshot(s, names, dbs))
  {
    hide Frames, Enumerates, TablesEntries;
    names, dbs := [], [];
    if |log.bytes| < threshold {
      return;
    }
    var framed, more: seq<byte>;
    framed, names := FrameTables(s.tables);
    more, dbs := FrameDatabases(s.databases);
    FramesAppend(TablesEntries(s.tables, names), DatabaseEntries(dbs));
    log.bytes := framed + more;
  }

  /** The records of one table, encoded and framed. */
  method FrameTable(name: Text, t: TableData) returns (framed: seq<byte>)
    ensures framed == Frames(TableEntries(name, t))
  {
    hide FrameAll, Encodings, EncodeEntry, FrameRecord;
    var create := CreateTable(name, t.schema.columns, t.schema.primaryKey);
    var payload := EncodeCreateTable(name, t.schema.columns, t.schema.primaryKey);
    framed := FrameRecord(payload);
    FramesOne(create);
    if t.rows != [] {
      var rows := Tagged(name, t.rows);
      payload := EncodeTransaction(rows);
      framed := framed + FrameRecord(payload);
      FramesOne(Transaction(rows));
      FramesAppend([create], [Transaction(rows)]);
    } else {
      assert TableEntries(name, t) == [create];
    }
  }
}
