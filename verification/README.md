# A verified model of mysql-rust

A Dafny model of a small MySQL-compatible server: its durable storage engine, the query
operators that are fast forms of simple ones, prepared statements, and the wire format of
result sets. Code that computes is a function, code that updates state step by step is a
method or a class proved against such a function, and concurrent behaviour is a state
machine whose invariant is proved for every step of every run.

**Durability.** `Crc32`, `LogFormat` and `Recovery` are the log file: checksum, record
codec, framing, and what opening an arbitrary file keeps. `GroupCommit` is the log writer
with its clients and its disk as a state machine, down to the byte at which a crash or a
failure cuts a write.
`Checkpoint` is the start-up rewrite of the log.

**Tables.** `DecimalText`, `Conversions`, `Tables` and `Altering` are values, column
retyping, a table with its key index and AUTO_INCREMENT counter, and ALTER TABLE as a
rebuild. `Engine` and `Soundness` run the storage operations one at a time and compare
memory with the replay of the log they write; `Outcomes` says of rows and names alone what
each operation does. `Storage` is the same engine as objects updated in place.

**Concurrency.** `Projection` and `Pending` say what a log and a transaction hold for one
table. `Concurrency` interleaves any number of autocommit INSERTs and multi-table
transactions, step by step, with the log writer, failed writes, crashes and restarts;
`Isolation` states what every run promises, and `Sessions` what one connection's statements
do, from BEGIN to the end of COMMIT. `Transactions` is the transaction object;
`Races` interleaves CREATE TABLE calls for one name, a race the engine does not close.

**Queries.** `Ordering`, `Sorting`, `Joins`, `Lookup`, `Aggregates` and `Grouping` are ORDER
BY with LIMIT, hash joins, the primary-key shortcut and GROUP BY, each against its
definition; `JoinedRows` is what a FROM clause means. `Grammar`, `Parsing` and `Binding` are
INSERT and SELECT at the token level and prepared statements. `Spelling` is the syntax as
it is written, and `Language`, `Readings` and `Printing` prove that the parser accepts
exactly that and understands it.

**Wire.** `Wire`, `ResultSets` and `Framing` are packets, text and binary rows, and whole
result sets; `Clients` is a client that reads a result set off a chunked stream.

Text is a sequence of bytes, and release-build integer arithmetic is modelled: `i64` wraps
where the source does not check.

## Where the code and its comments part

* `value_ordering` is said to stay correct for decimals of different scales; it does not
  once scaling saturates. `Ordering.DecimalOrderExact` gives the exact condition,
  `Ordering.ZeroAboveZero` an input. No query gets there: literals are coerced to their
  column's scale, and sorting, MIN and MAX stay within one column.
* A CREATE TABLE that loses a race is said to be harmless on replay. Replay takes the latest
  record, so it is harmless exactly if the winner's record is the latest, or the latest
  repeats its definition with no row logged between: `Races.RacingCreates`, with a lost row
  in `Races.RacingCreatesLoseARow`.
* The log is appended to after a write that failed partway. The leftover record then
  swallows the appended bytes up to the length it declares: unless they happen to pass its
  checksum, the log opens to the records before the failure alone if they end there or
  earlier, and does not open at all if they go on (`Recovery.FailedWriteVerdict`,
  `Recovery.HeaderSurvives`, `Recovery.ChecksumMixed`, `Recovery.LengthMixed`; one log that
  does not open is in `Recovery.RetriedCreateRefusesLog`). A failure between two records
  costs nothing (`Recovery.BoundaryCutLosesNothing`).
* A record that got out whole before the write failed is refused to its client and replayed
  all the same. Memory and log part exactly then (`Concurrency.GivingUpExact`), and a retry
  puts every one of its keys into the log twice (`Concurrency.RetryRepeatsKeys`).
* MODIFY COLUMN on the key column does not recheck uniqueness; `Conversions.KeySafe` is
  exactly the set of type changes for which that is sound (`Altering.AlterKeeps`,
  `Altering.UnsafeModifyBreaks`).
* The primary-key shortcut finds a stored NULL key that the filter never matches:
  `Lookup.StorageLookupIsFilter` gives the exact condition, `Lookup.NullKeyShortcut` three
  statements that lead there.
* SUM can refuse a total that fits, because a partial sum did not:
  `Aggregates.SumRefusesAFittingTotal`.

## Model

| member | source | states |
|---|---|---|
| Crc32.ComputeCrc | src/storage/log.rs:287-301 | The bit-at-a-time loop computes the CRC-32 of the data. |
| Crc32.FeedIsRfcUpdate | src/storage/log.rs:287-301 | Feeding bit by bit is the byte-wise table update of section 8 of RFC 1952, for every start value and input. |
| Crc32.CrcIsRfcCrc | src/storage/log.rs:287-301 | The checksum is the one that section defines, complemented before and after. |
| Crc32.BurstDetected | src/storage/log.rs:287-311 | Any change confined to at most four consecutive bytes changes the checksum, whatever surrounds it and however long the data. |
| LogFormat.EncodeCreateTable | src/storage/log.rs:187-208 | The appending loop writes the CREATE TABLE record. |
| LogFormat.EncodeTransaction | src/storage/log.rs:251-262 | The appending loops write the transaction record. |
| LogFormat.ReadCounted | src/storage/log.rs:413-486 | A cursor loop reads exactly the counted items, or fails where the first one does. |
| LogFormat.EntryRoundTrip | src/storage/log.rs:128-274 | Decoding undoes every encoder: six record kinds, five schema changes, any number of columns, rows and values whose lengths fit in u32. |
| Recovery.LogFile.Open | src/storage/log.rs:617-672 | The loop replays the recoverable records and cuts the file after them, or refuses the file and leaves it. |
| Recovery.LogFile.WriteFramedBatch | src/storage/log.rs:715-730 | A batch is appended whole, or up to the byte at which the write fails, and nothing is taken back. |
| Recovery.RecoverFrames | src/storage/log.rs:528-574 | A file of framed records replays to exactly those records. |
| Recovery.CrashKeepsWholeRecords | src/storage/log.rs:528-574 | Cut at any byte, a file of records opens and replays exactly the records that are whole. |
| Recovery.KeptIsWholeRecords | src/storage/log.rs:629-652 | Whatever bytes a file holds, what opening keeps is a sequence of whole checksum-valid records that decode to the replayed entries. |
| Recovery.RecoveryIdempotent | src/storage/log.rs:617-672 | Reopening the truncated file replays the identical entries and cuts nothing more. |
| Recovery.MismatchVerdict | src/storage/log.rs:555-568 | A checksum mismatch is a torn tail exactly if nothing follows the record, and corruption otherwise. |
| Recovery.BurstCorruption | src/storage/log.rs:555-568 | After a change within four consecutive payload bytes of a record, open refuses the file if data follows it and otherwise drops exactly that record. |
| Recovery.TailVerdict | src/storage/log.rs:528-574 | The exact outcome of opening good records followed by any bytes at all. |
| Recovery.ReplayedPastGood | src/storage/log.rs:528-574 | If such a file opens, something behind the good records is replayed exactly if the bytes there pass the checksum; if they do not, it opens exactly if the record they declare reaches the end of the file. |
| Recovery.FailedWriteVerdict | src/storage/log.rs:715-730 | Both, for every byte a write can fail at and whatever is appended afterwards. |
| Recovery.HeaderSurvives | src/storage/log.rs:528-574 | If the header got out, the checksum compared is the failed record's own and the payload is what is left of it followed by the appended bytes. |
| Recovery.ChecksumMixed | src/storage/log.rs:528-574 | If the write stopped inside the checksum, the rest of the checksum is appended bytes. |
| Recovery.LengthMixed | src/storage/log.rs:528-574 | If it stopped inside the length, the high bytes of the length are. |
| Recovery.FailedWriteSwallowsAppends | src/storage/log_writer.rs:147-172 | If the length field is out and later appends do not reach as far as it says, opening drops everything after the failure, acknowledged or not. |
| Recovery.FailedWriteRefusesLog | src/storage/log.rs:555-568 | If up to four bytes of a record are missing and later appends begin differently and go further, the whole log is refused, the records before the failure included. |
| Recovery.RetriedCreateRefusesLog | src/storage/log_writer.rs:147-172 | One such log: a record one byte short, then the same record whole. |
| Recovery.BoundaryCutLosesNothing | src/storage/log_writer.rs:147-172 | A write that stops between two records costs none of the later appends. |
| GroupCommit.SubmitKeeps | src/storage/log_writer.rs:178-196 | Submitting keeps every request in submission order and accounted for. |
| GroupCommit.WriteOkKeeps | src/storage/log_writer.rs:137-150 | A written batch extends what the file replays by exactly that batch. |
| GroupCommit.WriteFailsKeeps | src/storage/log_writer.rs:160-171 | A batch that fails at any byte is answered with errors; what got out whole is durable, the rest is a torn tail, and nothing acknowledged is affected. |
| GroupCommit.AckKeeps | src/storage/log_writer.rs:155-159 | Only requests already in the file are acknowledged. |
| GroupCommit.AcksEveryone | src/storage/log_writer.rs:155-159 | The acknowledging loop answers every request of the batch, then waits for the next. |
| GroupCommit.CrashKeeps | src/storage/log_writer.rs:121-176 | A crash at any byte leaves a prefix of the order that holds every acknowledged request. |
| GroupCommit.RunKeeps | src/storage/log_writer.rs:121-196 | The whole invariant, over every interleaving of submissions, drains, writes, failures at any byte, acknowledgements, crashes and reopenings, as long as nothing is written behind an incomplete record. |
| GroupCommit.CrashAnywhere | src/storage/log_writer.rs:121-196 | After any such run, a crash can strike at every byte of the batch in flight, and leaves a file that opens and replays whole records, a prefix of submission order, every acknowledged one among them. |
| GroupCommit.ReopenAlwaysWorks | src/storage/log.rs:617-672 | However many crash, failure, reopen and append rounds came before, a stopped store opens again with every acknowledged record. |
| GroupCommit.SpoilingExact | src/storage/log.rs:715-730 | After any such run, whatever is written behind the torn tail: the log replays more than was durable exactly if the bytes there pass the checksum, and otherwise opens exactly if the torn record reaches the end of the file. |
| GroupCommit.TurnRuns | src/storage/log_writer.rs:131-172 | One turn over a queue is a run of the machine: take, drain all, write, and answer each request once. |
| GroupCommit.LogWriter.Submit | src/storage/log_writer.rs:178-196 | Sending the framed record of an entry takes the writer from a state of the machine to the one after that submission. |
| GroupCommit.LogWriter.RunOnce | src/storage/log_writer.rs:131-172 | One round of the loop, whatever the write does, takes the writer along such a run: file, queue and every answer given are those of the state it ends in. |
| GroupCommit.BatchBytes | src/storage/log_writer.rs:137-140 | Concatenated framed requests are the frames of the batch. |
| DecimalText.IntRoundTrip | src/storage/value.rs:37-48 | Printing and parsing an integer is the identity. |
| DecimalText.DecimalRoundTrip | src/storage/value.rs:50-70 | A printed decimal parses back to itself, exactly unless it is `i64::MIN`. |
| DecimalText.WideningExact | src/storage/value.rs:72-101 | Widening multiplies exactly, and succeeds exactly when factor and product fit. |
| DecimalText.NarrowingRounds | src/storage/value.rs:72-101 | Narrowing gives the nearest value, half away from zero, and fails exactly when the divisor overflows. |
| DecimalText.RescaleBack | src/storage/value.rs:72-101 | Widening and then narrowing by the same digits is the identity. |
| Conversions.RetypeTyped | src/storage/engine.rs:302-349 | A retyped value has the new type, and is NULL exactly if it was. |
| Conversions.CoerceTyped | src/query/executor.rs:1377-1422 | A coerced literal has the column's type, and is NULL exactly for NULL. |
| Conversions.CoerceIsRetype | src/query/executor.rs:1377-1422 | Inserting a literal is retyping the value it stands for, for every literal and column type; anything else is refused. |
| Conversions.RetypeUndone | src/storage/engine.rs:302-349 | The lossless retypes undo each other on every value, exactly unless it is a DECIMAL of `i64::MIN` taken through text. |
| Conversions.RetypeNumeric | src/storage/engine.rs:302-349 | Between numeric types a value stays the same number, or becomes the nearest one if it loses decimal places; and exactly when that is refused. |
| Conversions.KeySafeInjective | src/storage/engine.rs:302-349 | On key-safe type changes different keys stay different. |
| Conversions.KeyUnsafeCollides | src/storage/engine.rs:302-349 | On every other type change two different keys become the same. |
| Tables.PushKeepsInv | src/storage/engine.rs:73-83 | Pushing a row with a free key keeps width, distinct keys and the exact index. |
| Tables.PushCounter | src/storage/engine.rs:77-81 | A row keeps the counter above everything stored, exactly unless it stores the largest `i64`. |
| Tables.ReserveCounter | src/storage/engine.rs:886-897 | Handing out a value keeps the counter above everything stored, exactly unless it hands out the largest `i64` while an integer is stored. |
| Tables.BuildInv | src/storage/engine.rs:51-83 | A table built from rows of the right width with distinct keys satisfies the invariant. |
| Tables.BuildCounter | src/storage/engine.rs:51-83 | A built table's counter is above everything stored, exactly if the largest `i64` is not stored. |
| Altering.AddColumnExact | src/storage/engine.rs:127-175 | ADD COLUMN: every row and nothing but a NULL at its end, the new column last; and exactly when it is refused. |
| Altering.DropColumnExact | src/storage/engine.rs:176-202 | DROP COLUMN: schema and every row lose that one column, the rest in place, and the key with it; and exactly when it is refused. |
| Altering.ModifyColumnExact | src/storage/engine.rs:203-237 | MODIFY COLUMN: in every row that one cell retyped; and exactly when it is refused. |
| Altering.AddPrimaryKeyExact | src/storage/engine.rs:238-269 | ADD PRIMARY KEY: the same rows, the column NOT NULL; refused exactly for a second key, an unknown column, a NULL or a repeated value. |
| Altering.DropPrimaryKeyExact | src/storage/engine.rs:270-292 | DROP PRIMARY KEY: the same rows, no key, its AUTO_INCREMENT gone; refused exactly without a key. |
| Altering.AlterKeepsCells | src/storage/engine.rs:125-294 | Whatever the change, no row comes or goes, and under every other column name each row holds what it held. |
| Altering.AddColumnKeeps | src/storage/engine.rs:127-175 | ADD COLUMN keeps the table invariant and typing. |
| Altering.DropColumnKeeps | src/storage/engine.rs:176-202 | DROP COLUMN keeps the table invariant and typing. |
| Altering.ModifyColumnKeeps | src/storage/engine.rs:203-237 | MODIFY COLUMN keeps them when it keeps keys apart. |
| Altering.AddPrimaryKeyKeeps | src/storage/engine.rs:238-269 | ADD PRIMARY KEY keeps them: its loop lets no NULL and no duplicate through. |
| Altering.DropPrimaryKeyKeeps | src/storage/engine.rs:270-292 | DROP PRIMARY KEY keeps them. |
| Altering.AlterKeeps | src/storage/engine.rs:125-294 | All five schema changes keep width, distinct keys, the exact index and typing, key-column MODIFY restricted to key-safe types. |
| Altering.UnsafeModifyBreaks | src/storage/engine.rs:203-237 | For every type change that is not key-safe there is a sound table it leaves with two rows under one key. |
| Altering.ModifyUndone | src/storage/engine.rs:203-237 | Modifying a column and modifying it back restores schema and rows, exactly unless a decimal `i64::MIN` went through text. |
| Engine.EntryFollowsEffect | src/storage/engine.rs:351-406 | Applying a logged entry to a replayed state does what the operation did to the live one. |
| Engine.ReplayRebuilds | src/storage/engine.rs:639-974 | After any sequence of operations, refused and failed ones included, replaying the log gives the schemas, rows, indexes and database names in memory. |
| Soundness.ReplayBuilt | src/storage/engine.rs:351-406 | Whatever the log, every replayed table is what its rows alone would build. |
| Soundness.ReplayedCounterAbove | src/storage/engine.rs:351-406 | A replayed counter is above every stored value, exactly if the largest `i64` is not stored. |
| Soundness.ReplayedCountersAtMost | src/storage/engine.rs:886-897 | While no counter runs over, replay brings each AUTO_INCREMENT counter back at or below the live one. |
| Soundness.LiveCounterAbove | src/storage/engine.rs:886-897 | In every such reachable store the next value is above every stored one, exactly if the largest `i64` is not stored. |
| Soundness.BatchSound | src/storage/engine.rs:796-853 | A validated batch of typed rows keeps every table sound. |
| Soundness.TablesStaySound | src/storage/engine.rs:639-974 | Every table that any sequence of operations reaches has rows as wide as its schema, distinct keys, an exact index and typed values. |
| Outcomes.CreateTableExact | src/storage/engine.rs:639-701 | CREATE TABLE is accepted exactly for a new name and a key among the columns, and then adds one empty table and one record; every other table stays. |
| Outcomes.BatchMeans | src/storage/engine.rs:809-833 | A batch is accepted exactly if its rows could be inserted one by one, each checked against the stored rows and the batch's own before it. |
| Outcomes.InsertRowsExact | src/storage/engine.rs:796-853 | Then each table's rows are followed by its own of the batch, in order, with one record; otherwise nothing changes. |
| Outcomes.InsertRowExact | src/storage/engine.rs:749-794 | The same for one row. |
| Outcomes.AlterTableExact | src/storage/engine.rs:703-734 | ALTER TABLE replaces that one table exactly if the change is possible. |
| Outcomes.DatabasesExact | src/storage/engine.rs:899-974 | The database names, the records and the refusals of CREATE and DROP DATABASE. |
| Outcomes.ReserveExact | src/storage/engine.rs:886-897 | Handing out a number changes one counter and nothing a query can see. |
| Outcomes.TablesStand | src/storage/engine.rs:639-974 | No operation takes a table away; only ALTER TABLE of it changes its schema or a row it has; CREATE TABLE leaves an existing one as it is; a table not named stays exactly as it was. |
| Outcomes.RowsStand | src/storage/engine.rs:639-974 | Through any operations without ALTER TABLE of it, a table keeps its schema and every row in its place. |
| Storage.Table.constructor | src/storage/engine.rs:51-69 | A new table has the schema's key and counter columns and no rows. |
| Storage.Table.PushTrusted | src/storage/engine.rs:73-83 | Index, counter and rows are updated in place as the table function says. |
| Storage.Table.CheckInsertable | src/storage/engine.rs:91-101 | Accepts exactly the rows whose key is free. |
| Storage.RebuildModified | src/storage/engine.rs:222-236 | The MODIFY loop rebuilds the table from the converted rows, or stops with the first row's error. |
| Storage.RebuildKeyed | src/storage/engine.rs:250-268 | The ADD PRIMARY KEY loop rebuilds the table exactly if no key is NULL or repeated. |
| Storage.ComputeAltered | src/storage/engine.rs:125-294 | Returns a new table equal to the altered one, or its error, and leaves the current one alone. |
| Storage.InMemoryStorage.CreateTable | src/storage/engine.rs:639-701 | Refuses, or logs and then creates; a failed log write changes nothing. |
| Storage.InMemoryStorage.AlterTable | src/storage/engine.rs:703-734 | Refuses, or logs and then replaces the table. |
| Storage.InMemoryStorage.ValidateRows | src/storage/engine.rs:809-833 | The loop with its per-table sets of seen keys accepts exactly the batches with known tables, right widths, free keys and no key twice. |
| Storage.InMemoryStorage.InsertRows | src/storage/engine.rs:796-853 | All rows of a batch are logged and applied, or none. |
| Storage.InMemoryStorage.InsertRow | src/storage/engine.rs:749-794 | One row is validated, logged and applied, or nothing changes. |
| Storage.InMemoryStorage.NextAutoIncrement | src/storage/engine.rs:886-897 | Returns the counter and moves it on, wrapping. |
| Storage.InMemoryStorage.CreateDatabase | src/storage/engine.rs:899-946 | Registers the name once; IF NOT EXISTS makes a second time succeed without logging. |
| Storage.InMemoryStorage.DropDatabase | src/storage/engine.rs:948-974 | Removes the name; IF EXISTS makes a missing one succeed, and that is logged. |
| Storage.InMemoryStorage.ScanFiltered | src/storage/engine.rs:863-876 | Returns the accepted rows in insertion order. |
| Storage.InMemoryStorage.LookupByPrimaryKey | src/storage/engine.rs:878-884 | Returns the row the index maps the key to. |
| Storage.InMemoryStorage.ApplyLogged | src/storage/engine.rs:351-406 | Applies one logged entry in place, skipping rows of unknown tables and changes that no longer validate. |
| Storage.InMemoryStorage.ReplayLog | src/storage/engine.rs:466-492 | Applying a log's entries one after the other gives its replay. |
| Checkpoint.SnapshotReplays | src/storage/engine.rs:579-626 | Replaying the snapshot of a replay-built state gives exactly that state, counters included, in any order of tables and databases. |
| Checkpoint.CheckpointKeepsState | src/storage/engine.rs:579-626 | The same for the state of any log. |
| Checkpoint.CheckpointCrashSafe | src/storage/log.rs:778-787 | However often a checkpoint is started, cut off at any byte, or completed by rename, the log file opens and replays to the same state. |
| Checkpoint.CheckpointIfWorthwhile | src/storage/engine.rs:579-626 | Below the threshold the log stays; otherwise it becomes the snapshot. |
| Projection.ReplayExtends | src/storage/engine.rs:351-406 | Replaying more transactions adds to each table exactly its own share of their rows. |
| Projection.ApplyRowsEach | src/storage/engine.rs:841-850 | A batch pushes onto each table its own rows, in order. |
| Pending.ListedInsertable | src/storage/transaction.rs:81-88 | Pending rows pass validation as one batch, whatever order the map lists them in. |
| Concurrency.QuietKeeps | src/storage/log_writer.rs:131-159 | The writer's own steps keep the invariant of the whole system. |
| Concurrency.RefusalKeeps | src/storage/log_writer.rs:160-171 | A write that fails at any byte drops the rows that did not get out from every table's replay, and leaves memory in agreement up to the refused requests that did. |
| Concurrency.CrashKeeps | src/storage/log_writer.rs:121-176 | After a crash what was visible is a prefix of what replay gives, table by table. |
| Concurrency.RestartKeeps | src/storage/engine.rs:466-492 | A restarted server holds the replay of its file, with at least what was visible before. |
| Concurrency.LockKeeps | src/storage/engine.rs:530-545 | Taking a free table lock keeps the invariant. |
| Concurrency.BufferKeeps | src/storage/transaction.rs:126-165 | A row offered inside a transaction keeps the invariant; if accepted it stays insertable until COMMIT. |
| Concurrency.CommitPasses | src/storage/transaction.rs:81-88 | In every reachable state COMMIT holds the locks of all its rows and its validation cannot fail. |
| Concurrency.SendKeeps | src/storage/engine.rs:835-839 | Logging a checked batch puts exactly its rows in flight and keeps every replayed table sound. |
| Concurrency.ApplyKeeps | src/storage/engine.rs:841-851 | Applying an acknowledged batch brings memory level with replay on its tables and touches no other. |
| Concurrency.FailKeeps | src/storage/engine.rs:835-839 | An error from the log leaves memory as it was, still in agreement. |
| Concurrency.GivingUpExact | src/storage/engine.rs:835-839 | When a refused connection gives up, memory and log go on agreeing exactly if its record did not get out. |
| Concurrency.RetryRepeatsKeys | src/storage/engine.rs:809-839 | Otherwise the same batch validates again, and once logged again the replayed table holds its keys twice. |
| Concurrency.StepKeeps | src/server/connection.rs:526-559 | Every step of every connection, of the writer, and every crash and restart keeps the invariant. |
| Isolation.MemoryIsReplay | src/storage/engine.rs:796-853 | In every run from any sound log, each table keeps its invariant and equals the replay of the log short of its lock holder's one logged but unapplied batch; with none in flight it equals the replay. |
| Isolation.WrittenLogIsLegal | src/storage/engine.rs:466-492 | Every log written by any sequence of the engine's operations is one a run can start from. |
| Isolation.AlwaysFileIsMemory | src/storage/engine.rs:466-492 | In every run, with no write in flight, opening the file as it stands gives exactly the tables in memory. |
| Isolation.AlwaysVisible | src/storage/engine.rs:466-492 | Rows visible at any point of a run are, in the same places, among those visible at every later point, across failed writes, crashes and restarts. |
| Isolation.AlwaysOthersLeave | src/storage/engine.rs:530-545 | At no point of a run does a step of anyone else change a table a connection holds, nor its pending rows. |
| Isolation.AlwaysCommitLands | src/storage/transaction.rs:81-88 | In every run, a successful COMMIT, interleaved with anything others do, leaves each table it held equal to what the transaction last saw. |
| Isolation.AlwaysPendingInvisible | src/storage/transaction.rs:126-165 | In every run, before COMMIT the log holds exactly the stored rows of a table with pending ones, and none of them has the key of a pending row. |
| Isolation.AlwaysAtomic | src/storage/engine.rs:796-853 | In every run, after a crash at any byte, replay holds all of a waiting connection's batch in every table it wrote, or none of it in any. |
| Sessions.BufferExact | src/storage/transaction.rs:126-165 | INSERT inside a transaction adds the row to what the transaction sees of the table exactly if it has the width and no row seen there has its key; every other table, connection, lock and the log stay as they were. |
| Sessions.StatementExact | src/storage/mod.rs:116-123 | A statement of several rows takes exactly those before the first that cannot join what is then seen. |
| Sessions.SeenAccumulates | src/storage/transaction.rs:126-178 | Whatever others do meanwhile, a transaction sees what it saw and each row it inserted that could join, in order. |
| Sessions.AlwaysTransactionLands | src/storage/transaction.rs:81-88 | In every run, a committed transaction leaves each table it held with the rows it found and exactly the inserted rows that could join, each checked against all before it. |
| Sessions.GivesUpExact | src/server/connection.rs:700-720 | ROLLBACK and a refused log write leave tables and log alone and free exactly this connection's locks. |
| Sessions.InsertExact | src/storage/engine.rs:796-833 | An autocommit INSERT goes on with exactly its rows if they could be inserted one by one, and otherwise ends having changed nothing. |
| Sessions.AlwaysInsertLands | src/storage/engine.rs:796-853 | In every run, one that succeeds leaves each table it held with its rows and exactly the statement's own, and is one acknowledged record. |
| Sessions.InsertCanComplete | src/storage/engine.rs:796-853 | From every state with a waiting writer, rows that may be inserted can be. |
| Sessions.CommitCanComplete | src/storage/transaction.rs:81-88 | And a transaction with anything to commit can commit it. |
| Races.RacingCreates | src/storage/engine.rs:639-701 | At every moment of every interleaving of any number of CREATE TABLEs for one name with committed batches: a restart agrees with memory exactly if no record still waits for its table and the winner's record is the latest, or the latest repeats its definition with no row between. |
| Races.LaterRecordWins | src/storage/engine.rs:680-701 | The call logged second can win, and then a restart agrees although the definitions differ. |
| Races.RacingCreatesLoseARow | src/storage/engine.rs:353-359 | A run in which one row committed between two equal records is lost on restart. |
| Transactions.IndexFinds | src/storage/engine.rs:878-884 | The index finds what searching every row finds. |
| Transactions.Transaction.constructor | src/storage/transaction.rs:42-49 | A new transaction has no pending rows and no locks. |
| Transactions.Transaction.EnsureLocked | src/storage/transaction.rs:54-73 | Takes each table's lock at most once; a timeout changes nothing. |
| Transactions.Transaction.InsertRow | src/storage/transaction.rs:126-165 | Buffers the row exactly if table, width, committed keys and pending keys allow it. |
| Transactions.Transaction.InsertRows | src/storage/mod.rs:116-123 | A multi-row INSERT in a transaction buffers its rows one by one, up to the first refusal. |
| Pending.RefusedStatement | src/storage/mod.rs:116-123 | A refused statement leaves the transaction as it was exactly if its first row was refused. |
| Transactions.Transaction.Scan | src/storage/transaction.rs:167-178 | Committed rows, then pending rows. |
| Transactions.Transaction.ScanFiltered | src/storage/transaction.rs:180-199 | The filter of that scan. |
| Transactions.Transaction.LookupByPrimaryKey | src/storage/transaction.rs:201-215 | The first row with that key in that scan. |
| Transactions.Transaction.ListPending | src/storage/transaction.rs:82-86 | Every pending row once, each table's in order, tables in any order. |
| Transactions.Transaction.Commit | src/storage/transaction.rs:81-88 | Fails only because the log does, changing nothing; otherwise every table is what the scan showed. |
| Ordering.OrderFlips | src/query/executor.rs:1478-1525 | Swapping the arguments reverses the answer, for all values. |
| Ordering.OrderEqual | src/query/executor.rs:1478-1525 | Values of one column type compare equal exactly if they are the same value. |
| Ordering.OrderTransitive | src/query/executor.rs:1478-1525 | The order is transitive on each column type. |
| Ordering.TextOrderMeans | src/query/executor.rs:1484 | Texts compare as the lexicographic order says: at the first difference, or where the shorter one ends. |
| Ordering.OrderMeans | src/query/executor.rs:1478-1525 | On a column NULL comes first, numbers go by size, texts and dates lexicographically. |
| Ordering.CompareMeans | src/query/executor.rs:1545-1558 | The six comparisons are equality and that order, and NULL satisfies none of them. |
| Ordering.MixedTypesCycle | src/query/executor.rs:1520-1523 | Across types it is not: 10 < '5' < 9 < 10. |
| Ordering.DecimalOrderExact | src/query/executor.rs:1499-1506 | Decimals of different scales compare as the exact numbers, exactly unless saturation misleads. |
| Ordering.ZeroAboveZero | src/query/executor.rs:1499-1506 | Zero of scale 0 comes out greater than zero of scale 19. |
| Ordering.WhereAgreesWithHash | src/query/executor.rs:1545-1558 | WHERE equality and hash equality agree on two column types exactly if the types are equal or cannot meet; they part for text against other types, INT against DECIMAL of scale 0, and decimals of different scales. |
| Sorting.OneOrder | src/query/executor.rs:1444-1458 | There is only one way to put typed sort cells in order. |
| Sorting.BeforeMeans | src/query/executor.rs:1444-1458 | The comparison puts one row before another exactly if they agree in all sort columns, or at the first where they differ it has the lower value, ascending, or the higher, descending. |
| Sorting.SortMeans | src/query/executor.rs:1466 | The sort gives the same rows, every one in place before every later one. |
| Sorting.SortIsStable | src/query/executor.rs:1466 | Rows with equal sort cells keep the order they came in. |
| Sorting.KeptCells | src/query/executor.rs:1460-1466 | Sorting what a partition keeps gives the sort cells of the full sort's first rows. |
| Sorting.SortAndPaginate | src/query/executor.rs:1438-1473 | For every LIMIT and OFFSET the page is in order, and there is such an order of all the rows of which the page has the size and, in the sort columns, the contents of the positions after the offset; a page that reaches the end holds those very rows, ties in the order they came in. |
| Joins.HashJoin | src/query/executor.rs:782-822 | The hash join is the nested loop, as an ordered sequence, INNER and LEFT. |
| Joins.NullMatchesNothing | src/query/executor.rs:790-802 | NULL matches nothing, by hash and by WHERE equality. |
| Joins.JoinRowKeeps | src/query/executor.rs:803-819 | LEFT keeps every accumulated row, INNER exactly those with a match, each in front of its matches. |
| Joins.TryResolve | src/query/executor.rs:706-727 | An unqualified name resolves exactly if one column answers to it. |
| Joins.ResolveJoins | src/query/executor.rs:436-478 | A chain of hash joins is the chain of nested loops, and every row is as wide as the scope. |
| JoinedRows.ResolveMeans | src/query/executor.rs:706-727 | A column reference resolves exactly to the first column so qualified, or the only one so called. |
| JoinedRows.OnColumnsMeans | src/query/executor.rs:446-463 | ON compares its left side in the scope with its right side in the new table, or failing that the two exchanged, and nothing else. |
| JoinedRows.LoopMeans | src/query/executor.rs:782-822 | One join lists, in order and once each, the pairs with equal non-NULL values in the two columns, and for LEFT the rows without a partner beside NULLs. |
| JoinedRows.ChainMeans | src/query/executor.rs:436-478 | A FROM clause succeeds exactly if every table exists and every ON names two columns; its rows are, in order and once each, the choices of one row per table that satisfy every ON clause. |
| JoinedRows.ResolveFrom | src/query/executor.rs:436-478 | And the loop of hash joins computes exactly that. |
| Joins.ChainIsWhere | src/query/executor.rs:436-478 | On ON columns whose types agree, the chain equals the one that joins with WHERE equality. |
| Joins.OtherTypesPart | src/query/executor.rs:782-822 | On every other pair of types some tables join differently. |
| Lookup.WhereMeans | src/query/executor.rs:637-668 | WHERE keeps, in order, exactly the rows whose named column is not NULL and compares with the literal as the operator says; refused exactly if the literal does not fit. |
| Lookup.StorageLookupIsFilter | src/query/executor.rs:637-668 | For any sound table and any condition coerce accepts, the shortcut gives the filtered scan, exactly unless a stored NULL key is asked for. |
| Lookup.NullKeyShortcut | src/query/executor.rs:637-668 | CREATE, MODIFY the key to be nullable, INSERT a NULL: a sound table on which the shortcut returns a row and the scan none. |
| Lookup.TransactionLookupIsFilter | src/storage/transaction.rs:201-215 | The same as on storage inside a transaction, over committed and pending rows. |
| Aggregates.AddUp | src/query/executor.rs:1180-1192 | The running sum succeeds exactly if every partial sum fits, and is then the exact total. |
| Aggregates.EvaluateSum | src/query/executor.rs:1129-1164 | SUM is accepted exactly for numeric columns whose every partial sum fits, has the column's type, is NULL exactly if there were no numbers, and is otherwise the exact total. |
| Aggregates.SumRefusesAFittingTotal | src/query/executor.rs:1135-1143 | A total that fits can be refused. |
| Aggregates.AvgNearest | src/query/executor.rs:1165-1206 | AVG is the exact average rounded to the nearest unit of its scale, half away from zero, and exactly when it is accepted. |
| Aggregates.MinMaxMean | src/query/executor.rs:1207-1232 | MIN is a value no other comes before and MAX one that comes before no other, in the column's order; NULL exactly if there is none. |
| Aggregates.AggregatesMean | src/query/executor.rs:1116-1235 | Each of the five by its name: what it counts, adds up, averages or picks, and when it is refused. |
| Aggregates.EvaluateAggregate | src/query/executor.rs:1116-1235 | The five loops compute these values. |
| Grouping.GroupRows | src/query/executor.rs:972-980 | Each key maps to its rows, in order; without GROUP BY there is exactly one group. |
| Grouping.SameGroup | src/query/executor.rs:972-980 | Two rows are in one group exactly if they agree on every GROUP BY column. |
| Grouping.GroupsConserve | src/query/executor.rs:972-980 | The groups together hold each row exactly once, and their counts add up to the number of rows. |
| Grouping.OneKeyOrder | src/query/executor.rs:984-991 | For typed keys the sorted order of groups is unique. |
| Grouping.KeysMean | src/query/executor.rs:984-991 | The groups' keys are exactly the values the rows hold in the GROUP BY columns, once each, ascending at the first column in which two differ. |
| Grouping.OutputMeans | src/query/executor.rs:993-1007 | One output row per key, each cell the key's value or the aggregate over exactly the rows that hold that key. |
| Grouping.ExecuteGroups | src/query/executor.rs:972-1007 | There is a key order, and for it the output is one row per group, or the first error. |
| Grouping.GroupByConserves | src/query/executor.rs:972-1007 | The output does not depend on hash iteration order, and every filtered row is counted once. |
| Parsing.Parser.constructor | src/query/parser.rs:758-765 | A parser starts at the first token with no placeholders counted. |
| Parsing.Parser.Expression | src/query/parser.rs:1693-1730 | Parses one expression as the grammar says, counting placeholders where they are allowed. |
| Parsing.Parser.Call | src/query/parser.rs:1741-1760 | Parses a call, COUNT(*) included. |
| Parsing.Parser.From | src/query/parser.rs:1514-1548 | Parses a table and its joins. |
| Parsing.Parser.GroupBy | src/query/parser.rs:1564-1580 | Parses an optional GROUP BY. |
| Parsing.Parser.OrderBy | src/query/parser.rs:1583-1609 | Parses an optional ORDER BY. |
| Parsing.Parser.Limit | src/query/parser.rs:1613-1632 | Parses an optional LIMIT in both forms. |
| Parsing.Parser.Where | src/query/parser.rs:1673-1691 | Parses an optional condition: what it consumed is nothing, or WHERE, that column, the sign of that operator and that value. |
| Parsing.Parser.InsertStatement | src/query/parser.rs:1399-1458 | The loops of parse_insert follow the grammar of INSERT. |
| Parsing.Parser.SelectStatement | src/query/parser.rs:1460-1507 | The loops of parse_select follow the grammar of SELECT. |
| Parsing.ParseSql | src/query/parser.rs:1781-1787 | parse returns a statement exactly if the tokens are a spelling of it without placeholders. |
| Parsing.PrepareStatement | src/query/parser.rs:1817-1825 | parse_prepared returns a statement and a count exactly if the tokens are a spelling of it with that many placeholders. |
| Language.SpellingParses | src/query/parser.rs:1399-1776 | Every spelling of INSERT and SELECT (schema names, AS or bare aliases, the four join words, both LIMIT forms, ASC, `;`, COUNT(*), TRUE and FALSE) parses to the statement it stands for, placeholders numbered in order. |
| Readings.StatementRead | src/query/parser.rs:1399-1776 | Whatever parses is such a spelling of the statement returned. |
| Readings.ParseExact | src/query/parser.rs:1781-1787 | Both together: the language the parser accepts and what it makes of it; no list of tokens stands for two statements. |
| Readings.PrepareExact | src/query/parser.rs:1817-1825 | The same for prepared text. |
| Printing.PrintParses | src/query/parser.rs:1399-1776 | Every statement that can be written out is read back from its plain spelling. |
| Printing.ParsedIsPrintable | src/query/parser.rs:1399-1776 | The statements parsing can return are exactly those that can be written out. |
| Binding.BindsExpr | src/query/parser.rs:1888-1902 | A bound expression is the expression parsed from the filled tokens. |
| Binding.ParametersCounted | src/query/parser.rs:1817-1825 | As many parameters are reported as there are `?` tokens. |
| Binding.BindingIsSubstitution | src/query/parser.rs:1831-1886 | For every prepared INSERT or SELECT, binding the reported number of literals never fails, leaves no placeholder, and gives the statement parsed from the text with the k-th `?` replaced by the k-th literal. |
| Wire.IntLayout | src/protocol/lenenc.rs:47-63 | The bytes of a length-encoded integer: one, or a marker and two, three or eight, lowest first. |
| Wire.IntRoundTrip | src/protocol/lenenc.rs:11-63 | Reading undoes writing a length-encoded integer, whatever follows; truncated input is refused. |
| Wire.BytesRoundTrip | src/protocol/lenenc.rs:67-71 | The same for length-encoded strings. |
| Wire.PacketLayout | src/protocol/packet.rs:53-62 | A packet is its length in three bytes, lowest first, its sequence id and its payload. |
| Wire.PacketRoundTrip | src/protocol/packet.rs:53-105 | A packet reads back exactly if its payload fits the three length bytes. |
| Wire.ParseStable | src/protocol/packet.rs:89-105 | More input does not change a packet that has arrived. |
| Wire.PacketReader.ReadPacket | src/server/connection.rs:756-784 | The reassembly loop returns what the bytes alone determine, oversized and cut-off packets included, whatever the chunks. |
| Wire.PacketReader.ReadMany | src/server/connection.rs:756-784 | The same for a run of packets. |
| Wire.StreamRecovers | src/server/connection.rs:756-784 | A stream of encoded packets is read back as exactly those packets. |
| ResultSets.EncodeTextRow | src/protocol/resultset.rs:266-276 | Builds the text row, or refuses one too long for a packet. |
| ResultSets.TextRowRoundTrip | src/protocol/resultset.rs:266-276 | A text row reads back cell by cell. |
| ResultSets.TextRowStart | src/protocol/resultset.rs:266-276 | An accepted text row never begins with 0xFE or 0xFF. |
| ResultSets.BuildBitmap | src/protocol/resultset.rs:289-297 | The NULL bitmap, set bit by bit in place. |
| ResultSets.BitmapMarks | src/protocol/resultset.rs:289-297 | Bit i + 2 is set exactly for NULL cells, every other bit is clear. |
| ResultSets.EncodeBinaryRow | src/protocol/resultset.rs:286-310 | Builds the binary row, or refuses one too long for a packet. |
| ResultSets.BinaryRowRoundTrip | src/protocol/resultset.rs:286-310 | A binary row reads back cell by cell and begins with a zero byte. |
| Framing.ToPackets | src/protocol/resultset.rs:133-176 | The packets of a result set, numbered modulo 256, or the first error. |
| Framing.EncodeInto | src/protocol/resultset.rs:212-248 | Appends exactly the encodings of those packets, or fails with the same error having appended exactly those in front of the one that is too long. |
| Framing.ColumnReadBack | src/protocol/resultset.rs:71-95 | A column definition reads back as the column's name and type. |
| Framing.TerminatorEnds | src/protocol/resultset.rs:254-261 | Both terminators are recognised as such and carry the status flags in the same place. |
| Framing.PacketsReadBack | src/protocol/resultset.rs:212-248 | The bytes of a result set, followed by anything, hold exactly its packets with their sequence ids. |
| Clients.ReadResult | src/server/connection.rs:756-784 | Reading the count, that many column definitions, the EOF if there is one, and rows up to the terminator gives what the bytes alone determine, whatever the chunks. |
| Clients.ResultReadBack | src/protocol/resultset.rs:212-248 | For every result set, text or binary, with or without EOF, whatever follows, those bytes determine exactly its columns and rows and what follows. |
| Clients.ReceiveResult | src/protocol/resultset.rs:178-248 | So a client gets back exactly the result set that was sent, in whatever chunks, and stands right behind it. |

## Left out

- Sockets, TLS, timeouts, the accept loop, authentication, metrics and configuration: input and output around the modelled code.
- Real file calls: the disk keeps synced bytes, keeps a prefix of an unsynced write, and renames atomically; the sync policy is `Always`; the bytes of a failed write that got out are taken as kept; the truncation done by open is taken as durable.
- Lock waiting: a lock that cannot be had in time is a step that does not happen; that a statement holding its locks can finish is proved (Sessions.InsertCanComplete), who gets a lock and deadlock are not modelled.
- Concurrent ALTER TABLE, and DDL concurrent with INSERT: schemas are fixed while connections interleave, except for the CREATE TABLE race above.
- A connection dropped between logging and applying: a statement, once logged, is applied or lost in a crash.
- Lengths beyond u32 in the log: records whose lengths do not fit are outside the model.
- The tokenizer, UTF-8 validation, statements other than INSERT and SELECT in the parser, SHOW, SET, USE and system variables.
- `select_nth_unstable_by` and `sort_by`: their documented contracts, not their code.
- Projection, `reorder_exprs` and the resolution of aggregate columns to positions in the executor.
- Debug builds, where integer overflow panics.
- GroupCommit.RunKeeps: nothing is promised once bytes are written behind an incomplete record, except what opening then makes of them, which is GroupCommit.SpoilingExact.
- Concurrency.StepKeeps: a run ends there too, and where a refused request whose record got out whole is given up, because the invariant is then false (Concurrency.GivingUpExact).
- Storage.InMemoryStorage.ReplayLog: leaves out logs that change the schema of a table holding rows of the wrong width, on which the source indexes out of bounds; no operation writes one.
- Races.RacingCreates: an INSERT is one step at its log record, and no other DDL runs meanwhile.
- Soundness.TablesStaySound: callers hand over typed rows, which the executor's coercion guarantees, and change a key column's type only where that is key-safe.
- Binding.BindingIsSubstitution: nothing is said about binding fewer literals than were reported, which the server never does.
- Sorting.SortAndPaginate: each sort column holds values of one type, as stored and joined columns do; across types there is no order to sort by.
- Grouping.ExecuteGroups: likewise for the GROUP BY columns; a group holds no more rows than `i64` can count.
- Checkpoint.CheckpointCrashSafe: a snapshot is written only if each table's rows fit one record's u32 length.
