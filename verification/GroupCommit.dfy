/** The group-commit log writer, its clients and its disk as a state machine.

    Every interleaving of submissions with the writer thread's own steps is a run;
    a crash may strike at any byte of the batch being written, any number of times.
    The disk keeps synced bytes, keeps a prefix of an unsynced write, and loses the
    rest; the sync policy is `Always`.  A write may also fail at any byte while the
    process lives on: its clients are told, and the bytes that got out stay. */
module GroupCommit {
  import opened Basics
  import opened LogFormat
  import opened Recovery

  /** Where the writer thread stands in its loop. */
  datatype Phase =
    | Waiting                 // in blocking_recv
    | Draining                // in the try_recv loop
    | Writing                 // in write_framed_batch
    | Acking(next: nat)       // sending acknowledgements

  datatype Node =
    | Up(file: seq<byte>, queue: seq<nat>, batch: seq<nat>, phase: Phase, torn: nat)
    | Down(file: seq<byte>)

  /** `torn` counts the bytes of an incomplete record that a failed write left at the
      end of the file.

      A request is named by its position in `submitted`, the history of all requests
      ever made.  `durable`, `acked`, `refused` and `lost` are history too: the
      records in the file, the requests answered Ok or with an error, and the ones
      a crash took from memory.  `spoiled` says that bytes were written behind
      an incomplete record, which `write_framed_batch` does not prevent. */
  datatype State = State(
    node: Node,
    submitted: seq<Entry>,
    durable: seq<nat>,
    acked: set<nat>,
    refused: set<nat>,
    lost: set<nat>,
    spoiled: bool)

  datatype Step =
    | Submit(entry: Entry)
    | Take
    | DrainOne
    | StopDraining
    | WriteOk
    | WriteFails(cut: nat)
    | AckOne
    | Crash(cut: nat)
    | Reopen

  predicate Named(submitted: seq<Entry>, ids: seq<nat>) {
    forall i :: 0 <= i < |ids| ==> ids[i] < |submitted|
  }

  /** The entries a list of requests stands for. */
  function Entries(submitted: seq<Entry>, ids: seq<nat>): (es: seq<Entry>)
    requires Named(submitted, ids)
    ensures |es| == |ids|
  {
    seq(|ids|, i requires 0 <= i < |ids| => submitted[ids[i]])
  }

  function IdSet(ids: seq<nat>): set<nat> {
    set id | id in ids
  }

  /** Requests the writer has taken from the queue but not yet put on disk. */
  function InHand(node: Node): seq<nat> {
    if node.Up? && (node.phase.Draining? || node.phase.Writing?) then node.batch else []
  }

  function Queued(node: Node): seq<nat> {
    if node.Up? then node.queue else []
  }

  /** All requests that are still on their way or on disk, in file order. */
  function Order(s: State): seq<nat> {
    s.durable + InHand(s.node) + Queued(s.node)
  }

  /** The bytes in flight between `write_all` and `sync_data`. */
  function InFlight(s: State): seq<byte>
    requires Named(s.submitted, Order(s))
  {
    if s.node.Up? && s.node.phase.Writing? then
      NamedParts(s);
      Frames(Entries(s.submitted, s.node.batch))
    else []
  }

  lemma NamedParts(s: State)
    requires Named(s.submitted, Order(s))
    ensures Named(s.submitted, s.durable)
    ensures Named(s.submitted, InHand(s.node))
    ensures Named(s.submitted, Queued(s.node))
  {
    var d, h, q := |s.durable|, |InHand(s.node)|, |Queued(s.node)|;
    assert forall i :: 0 <= i < d ==> s.durable[i] == Order(s)[i];
    assert forall i :: 0 <= i < h ==> InHand(s.node)[i] == Order(s)[d + i];
    assert forall i :: 0 <= i < q ==> Queued(s.node)[i] == Order(s)[d + h + i];
  }

  predicate Enabled(s: State, step: Step) {
    match step
    case Submit(e) => s.node.Up? && Storable(e)
    case Take => s.node.Up? && s.node.phase.Waiting? && s.node.queue != []
    case DrainOne => s.node.Up? && s.node.phase.Draining? && s.node.queue != []
    case StopDraining => s.node.Up? && s.node.phase.Draining? && s.node.queue == []
    case WriteOk => s.node.Up? && s.node.phase.Writing? && Named(s.submitted, s.node.batch)
    case WriteFails(cut) =>
      && s.node.Up? && s.node.phase.Writing? && Named(s.submitted, s.node.batch)
      && cut <= |Frames(Entries(s.submitted, s.node.batch))|
    case AckOne => s.node.Up? && s.node.phase.Acking?
    case Crash(cut) => s.node.Up? && Named(s.submitted, Order(s)) && cut <= |InFlight(s)|
    case Reopen => s.node.Down? && Recover(s.node.file).Ok?
  }

  /** The step puts bytes behind an incomplete record. */
  predicate Spoils(s: State, step: Step) {
    s.node.Up? && s.node.torn > 0 &&
      (step.WriteOk? || (step.WriteFails? && step.cut > 0) || (step.Crash? && step.cut > 0))
  }

  /** The requests of the batch whose records a write cut at byte `cut` completes. */
  function Written(s: State, cut: nat): (ids: seq<nat>)
    requires s.node.Up? && Named(s.submitted, s.node.batch)
    ensures ids <= s.node.batch
  {
    s.node.batch[..WholeRecords(Entries(s.submitted, s.node.batch), cut)]
  }

  lemma WrittenFits(s: State, cut: nat)
    requires s.node.Up? && Named(s.submitted, s.node.batch) && cut <= |Frames(Entries(s.submitted, s.node.batch))|
    ensures Named(s.submitted, Written(s, cut))
    ensures var es := Entries(s.submitted, s.node.batch);
      Entries(s.submitted, Written(s, cut)) == es[..WholeRecords(es, cut)]
    ensures |Frames(Entries(s.submitted, Written(s, cut)))| <= cut
  {
    hide Frames, WholeRecords;
    WholeRecordsBound(Entries(s.submitted, s.node.batch), cut);
    var es := Entries(s.submitted, s.node.batch);
    assert Entries(s.submitted, Written(s, cut)) == es[..WholeRecords(es, cut)];
  }

  function Next(s: State, step: Step): (t: State)
    requires Enabled(s, step)
  {
    match step
    case Submit(e) =>
      s.(submitted := s.submitted + [e], node := s.node.(queue := s.node.queue + [|s.submitted|]))
    case Take =>
      s.(node := s.node.(queue := s.node.queue[1..], batch := [s.node.queue[0]], phase := Draining))
    case DrainOne =>
      s.(node := s.node.(queue := s.node.queue[1..], batch := s.node.batch + [s.node.queue[0]]))
    case StopDraining => s.(node := s.node.(phase := Writing))
    case WriteOk =>
      s.(node := s.node.(file := s.node.file + Frames(Entries(s.submitted, s.node.batch)), phase := Acking(0)),
         durable := s.durable + s.node.batch,
         spoiled := s.spoiled || Spoils(s, step))
    case WriteFails(cut) =>
      // The error reaches every waiter of the batch, also of the records that got out whole.
      WrittenFits(s, cut);
      var out := Written(s, cut);
      s.(node := s.node.(file := s.node.file + Frames(Entries(s.submitted, s.node.batch))[..cut],
                         batch := [], phase := Waiting,
                         torn := s.node.torn + (cut - |Frames(Entries(s.submitted, out))|)),
         durable := s.durable + out,
         refused := s.refused + IdSet(s.node.batch),
         spoiled := s.spoiled || Spoils(s, step))
    case AckOne =>
      if s.node.phase.next < |s.node.batch| then
        s.(node := s.node.(phase := Acking(s.node.phase.next + 1)),
           acked := s.acked + {s.node.batch[s.node.phase.next]})
      else s.(node := s.node.(batch := [], phase := Waiting))
    case Crash(cut) =>
      NamedParts(s);
      var reached := WholeRecords(Entries(s.submitted, InHand(s.node)), cut);
      s.(node := Down(s.node.file + InFlight(s)[..cut]),
         durable := s.durable + InHand(s.node)[..if s.node.phase.Writing? then reached else 0],
         lost := s.lost + IdSet(InHand(s.node)[if s.node.phase.Writing? then reached else 0..]) + IdSet(s.node.queue),
         spoiled := s.spoiled || Spoils(s, step))
    case Reopen =>
      s.(node := Up(s.node.file[..Recover(s.node.file).value.kept], [], [], Waiting, 0))
  }

  /** The state after a run, if every step of it was possible. */
  function Run(s: State, steps: seq<Step>): Option<State>
    decreases |steps|
  {
    if steps == [] then Some(s)
    else if Enabled(s, steps[0]) then Run(Next(s, steps[0]), steps[1..])
    else None
  }

  /** A freshly opened store whose log already holds `base`, all of it acknowledged. */
  function Opened(base: seq<Entry>): State {
    var all := seq(|base|, i => i);
    State(Up(Frames(base), [], [], Waiting, 0), base, all, IdSet(all), {}, {}, false)
  }

  predicate Increasing(ids: seq<nat>) {
    forall i, j :: 0 <= i < j < |ids| ==> ids[i] < ids[j]
  }

  /** Requests that have not been answered yet. */
  function Unanswered(node: Node): seq<nat> {
    if node.Up? && node.phase.Acking? && node.phase.next <= |node.batch|
    then node.batch[node.phase.next..] + node.queue
    else InHand(node) + Queued(node)
  }

  predicate Disjoint(ids: seq<nat>, others: set<nat>) {
    forall i :: 0 <= i < |ids| ==> ids[i] !in others
  }

  /** What holds at every point of every run until bytes go behind an incomplete
      record: the file replays exactly the durable
      requests, in submission order; every acknowledged request is durable, was never
      refused and never lost; and no request is unaccounted for. */
  ghost predicate Inv(s: State) {
    && !s.spoiled
    && AllStorable(s.submitted)
    && Ordered(s.submitted, Order(s), s.lost)
    && Accounted(|s.submitted|, Order(s), s.refused, s.lost)
    && Answered(s.acked, s.durable, s.refused, Unanswered(s.node))
    && FileInv(s)
    && AckInv(s)
  }

  predicate Ordered(submitted: seq<Entry>, order: seq<nat>, lost: set<nat>) {
    Named(submitted, order) && Increasing(order) && Disjoint(order, lost)
  }

  predicate Answered(acked: set<nat>, durable: seq<nat>, refused: set<nat>, unanswered: seq<nat>) {
    acked <= IdSet(durable) && acked !! refused && Disjoint(unanswered, refused)
  }

  ghost predicate Accounted(n: nat, order: seq<nat>, refused: set<nat>, lost: set<nat>) {
    && (forall id: nat :: id < n ==> id in order || id in refused || id in lost)
    && (forall id :: id in refused || id in lost ==> id < n)
  }

  ghost predicate FileInv(s: State)
    requires Named(s.submitted, Order(s))
  {
    NamedParts(s);
    FileHolds(s.node, Entries(s.submitted, s.durable))
  }

  ghost predicate FileHolds(node: Node, es: seq<Entry>) {
    match node
    case Up(file, _, _, _, torn) => Replays(file, es) && |file| == |Frames(es)| + torn
    case Down(file) => Replays(file, es)
  }

  /** The file begins with exactly these records, and opening it replays no others. */
  ghost predicate Replays(file: seq<byte>, es: seq<Entry>) {
    && Recover(file) == Ok(Recovered(es, |Frames(es)|))
    && |Frames(es)| <= |file| && file[..|Frames(es)|] == Frames(es)
  }

  /** While acknowledging, the batch is the newest part of the file. */
  predicate AckInv(s: State) {
    s.node.Up? && s.node.phase.Acking? ==>
      && s.node.phase.next <= |s.node.batch| <= |s.durable|
      && s.node.batch == s.durable[|s.durable| - |s.node.batch|..]
  }

  // ---- every step keeps the invariant ----

  lemma OpenedInv(base: seq<Entry>)
    requires AllStorable(base)
    ensures Inv(Opened(base))
  {
    hide Frames, Storable, Recover;
    var s := Opened(base);
    WholeFile(s.node, base);
    assert Order(s) == s.durable;
    assert Unanswered(s.node) == [];
    assert Entries(base, s.durable) == base;
    forall id: nat | id < |base|
      ensures id in Order(s)
    {
      assert s.durable[id] == id;
    }
  }

  lemma OrderGrows(submitted: seq<Entry>, e: Entry, order: seq<nat>, refused: set<nat>, lost: set<nat>)
    requires Ordered(submitted, order, lost) && Accounted(|submitted|, order, refused, lost)
    ensures var n := |submitted|;
      Ordered(submitted + [e], order + [n], lost) && Accounted(n + 1, order + [n], refused, lost)
  {
    var n := |submitted|;
    assert (order + [n])[|order|] == n;
    assert forall id :: id in order ==> id in order + [n];
  }

  lemma OneMoreUnanswered(acked: set<nat>, durable: seq<nat>, refused: set<nat>, unanswered: seq<nat>, id: nat)
    requires Answered(acked, durable, refused, unanswered) && id !in refused
    ensures Answered(acked, durable, refused, unanswered + [id])
  {}

  lemma SubmitKeeps(s: State, e: Entry)
    requires Inv(s) && Enabled(s, Submit(e))
    ensures Inv(Next(s, Submit(e)))
  {
    hide Frames, Storable, FileHolds, Ordered, Accounted, Answered;
    var t := Next(s, Submit(e));
    OrderNamed(s.submitted, Order(s), s.lost);
    NamedParts(s);
    assert Order(t) == Order(s) + [|s.submitted|];
    OrderGrows(s.submitted, e, Order(s), s.refused, s.lost);
    OrderNamed(t.submitted, Order(t), t.lost);
    assert Entries(t.submitted, s.durable) == Entries(s.submitted, s.durable);
    assert Unanswered(t.node) == Unanswered(s.node) + [|s.submitted|];
    NotYetRefused(|s.submitted|, Order(s), s.refused, s.lost);
    OneMoreUnanswered(s.acked, s.durable, s.refused, Unanswered(s.node), |s.submitted|);
    FileFollows(s.node, t.node, Entries(s.submitted, s.durable));
  }

  lemma OrderNamed(submitted: seq<Entry>, order: seq<nat>, lost: set<nat>)
    requires Ordered(submitted, order, lost)
    ensures Named(submitted, order)
  {}

  lemma NotYetRefused(n: nat, order: seq<nat>, refused: set<nat>, lost: set<nat>)
    requires Accounted(n, order, refused, lost)
    ensures n !in refused
  {}

  lemma FileFollows(a: Node, b: Node, es: seq<Entry>)
    requires a.Up? && b.Up? && a.file == b.file && a.torn == b.torn && FileHolds(a, es)
    ensures FileHolds(b, es)
  {
    hide Frames, Recover;
  }

  lemma MoveOne(d: seq<nat>, b: seq<nat>, q: seq<nat>)
    requires q != []
    ensures d + (b + [q[0]]) + q[1..] == d + b + q
    ensures (b + [q[0]]) + q[1..] == b + q
  {}

  lemma DrainKeeps(s: State, step: Step)
    requires step == Take || step == DrainOne || step == StopDraining
    requires Inv(s) && Enabled(s, step)
    ensures Inv(Next(s, step))
  {
    hide Frames, Storable, FileHolds, Increasing, Disjoint, Accounted, Answered;
    var t := Next(s, step);
    if step != StopDraining {
      assert [] + [s.node.queue[0]] == [s.node.queue[0]];
      MoveOne(s.durable, InHand(s.node), s.node.queue);
    }
    assert Order(t) == Order(s) && Unanswered(t.node) == Unanswered(s.node);
    NamedParts(s);
    FileFollows(s.node, t.node, Entries(s.submitted, s.durable));
  }

  lemma EntriesAppend(submitted: seq<Entry>, a: seq<nat>, b: seq<nat>)
    requires Named(submitted, a) && Named(submitted, b)
    ensures Named(submitted, a + b)
    ensures Entries(submitted, a + b) == Entries(submitted, a) + Entries(submitted, b)
  {}

  /** A write that reaches the disk extends what the file replays. */
  lemma FileGrows(a: Node, b: Node, es: seq<Entry>, more: seq<Entry>)
    requires a.Up? && b.Up? && FileHolds(a, es) && b.file == a.file + Frames(more)
    requires a.torn == b.torn == 0 && AllStorable(es + more)
    ensures FileHolds(b, es + more)
  {
    hide Frames, Recover, Storable, FileHolds;
    UpFile(a, es);
    FramesAppend(es, more);
    WholeFile(b, es + more);
  }

  lemma WholeFile(node: Node, es: seq<Entry>)
    requires node.Up? && node.torn == 0 && node.file == Frames(es) && AllStorable(es)
    ensures FileHolds(node, es)
  {
    hide Frames, Recover, Storable;
    RecoverFrames(es);
  }

  lemma AllNamedStorable(submitted: seq<Entry>, ids: seq<nat>)
    requires AllStorable(submitted) && Named(submitted, ids)
    ensures AllStorable(Entries(submitted, ids))
  {
    hide Storable;
  }

  lemma WriteOkKeeps(s: State)
    requires Inv(s) && Enabled(s, WriteOk) && !Spoils(s, WriteOk)
    ensures Inv(Next(s, WriteOk))
  {
    hide Frames, Storable, FileHolds, Increasing, Accounted;
    var t := Next(s, WriteOk);
    NamedParts(s);
    assert Order(t) == Order(s);
    EntriesAppend(s.submitted, s.durable, s.node.batch);
    AllNamedStorable(s.submitted, s.durable + s.node.batch);
    FileGrows(s.node, t.node, Entries(s.submitted, s.durable), Entries(s.submitted, s.node.batch));
    assert Unanswered(t.node) == Unanswered(s.node);
    assert forall id :: id in s.durable ==> id in t.durable;
  }

  /** Leaving out the unwritten rest of a failed batch keeps the order increasing. */
  lemma OrderWithout(s: State, whole: nat)
    requires Ordered(s.submitted, Order(s), s.lost)
    requires s.node.Up? && s.node.phase.Writing? && whole <= |s.node.batch|
    ensures Ordered(s.submitted, s.durable + s.node.batch[..whole] + s.node.queue, s.lost)
  {
    var d, b := |s.durable|, |s.node.batch|;
    var order := s.durable + s.node.batch[..whole] + s.node.queue;
    assert forall i :: 0 <= i < |order| ==> order[i] == Order(s)[if i < d + whole then i else i - whole + b];
  }

  /** The batch is apart from the durable and the queued requests. */
  lemma BatchApart(s: State)
    requires Ordered(s.submitted, Order(s), s.lost)
    requires s.node.Up? && s.node.phase.Writing?
    ensures Disjoint(s.durable, IdSet(s.node.batch)) && Disjoint(s.node.queue, IdSet(s.node.batch))
  {
    var d, b := |s.durable|, |s.node.batch|;
    assert forall j :: 0 <= j < b ==> s.node.batch[j] == Order(s)[d + j];
    assert forall i :: 0 <= i < d ==> s.durable[i] == Order(s)[i];
    assert forall i :: 0 <= i < |s.node.queue| ==> s.node.queue[i] == Order(s)[d + b + i];
  }

  lemma RefusedAccounted(s: State, whole: nat)
    requires Ordered(s.submitted, Order(s), s.lost)
    requires Accounted(|s.submitted|, Order(s), s.refused, s.lost)
    requires s.node.Up? && s.node.phase.Writing? && whole <= |s.node.batch|
    ensures Accounted(|s.submitted|, s.durable + s.node.batch[..whole] + s.node.queue,
                      s.refused + IdSet(s.node.batch), s.lost)
  {
    hide Increasing, Disjoint;
    NamedParts(s);
    var order := s.durable + s.node.batch[..whole] + s.node.queue;
    assert forall id :: id in Order(s) ==> id in order || id in IdSet(s.node.batch);
  }

  lemma FailureAnswered(acked: set<nat>, durable: seq<nat>, refused: set<nat>, batch: seq<nat>, out: seq<nat>, queue: seq<nat>)
    requires Answered(acked, durable, refused, batch + queue)
    requires Disjoint(durable, IdSet(batch)) && Disjoint(queue, IdSet(batch))
    ensures Answered(acked, durable + out, refused + IdSet(batch), queue)
  {
    assert forall i :: 0 <= i < |queue| ==> (batch + queue)[|batch| + i] == queue[i];
    assert forall id :: id in durable ==> id in durable + out;
  }

  lemma CrashAnswered(acked: set<nat>, durable: seq<nat>, refused: set<nat>, unanswered: seq<nat>, out: seq<nat>)
    requires Answered(acked, durable, refused, unanswered)
    ensures Answered(acked, durable + out, refused, [])
  {
    assert forall id :: id in durable ==> id in durable + out;
  }

  /** The file after a write that fails at byte `cut`. */
  lemma FailedFile(s: State, cut: nat)
    requires Inv(s) && Enabled(s, WriteFails(cut)) && !Spoils(s, WriteFails(cut))
    ensures var t := Next(s, WriteFails(cut));
      && Named(s.submitted, t.durable)
      && FileHolds(t.node, Entries(s.submitted, t.durable))
  {
    hide Frames, Storable, Recover, WholeRecords, FileHolds, Increasing;
    var t := Next(s, WriteFails(cut));
    NamedParts(s);
    WrittenFits(s, cut);
    var es, hs := Entries(s.submitted, s.durable), Entries(s.submitted, s.node.batch);
    var out := Written(s, cut);
    EntriesAppend(s.submitted, s.durable, out);
    AllNamedStorable(s.submitted, s.durable);
    AllNamedStorable(s.submitted, s.node.batch);
    if s.node.torn == 0 {
      UpFile(s.node, es);
      CrashedFile(es, hs, cut);
      FramesAppend(es, Entries(s.submitted, out));
      TornFile(t.node, es + Entries(s.submitted, out));
    } else {
      NothingWritten(hs);
      FramesNone();
      assert Frames(hs)[..cut] == [] && out == [];
      assert Entries(s.submitted, out) == [];
      assert es + [] == es;
      assert t.node.file == s.node.file;
      FileFollows(s.node, t.node, es);
    }
  }

  lemma TornFile(node: Node, es: seq<Entry>)
    requires node.Up? && FileHolds(Down(node.file), es) && |node.file| == |Frames(es)| + node.torn
    ensures FileHolds(node, es)
  {
    hide Frames, Recover;
  }

  lemma NothingWritten(es: seq<Entry>)
    ensures WholeRecords(es, 0) == 0
  {
    hide EncodeEntry;
  }

  /** A write that fails at any byte of the batch, with no bytes of an earlier failure
      behind it: whatever got out whole is durable though refused, the rest is a torn
      tail, and nothing acknowledged is affected. */
  lemma WriteFailsKeeps(s: State, cut: nat)
    requires Inv(s) && Enabled(s, WriteFails(cut)) && !Spoils(s, WriteFails(cut))
    ensures Inv(Next(s, WriteFails(cut)))
  {
    hide Frames, Storable, FileHolds, Increasing, Disjoint, Accounted, Answered, WholeRecords;
    var t := Next(s, WriteFails(cut));
    WrittenFits(s, cut);
    var batch, out := s.node.batch, Written(s, cut);
    NamedParts(s);
    var whole := |out|;
    assert out == batch[..whole];
    OrderWithout(s, whole);
    BatchApart(s);
    RefusedAccounted(s, whole);
    assert Order(t) == s.durable + out + s.node.queue;
    FailedFile(s, cut);
    assert Unanswered(s.node) == batch + s.node.queue;
    assert Unanswered(t.node) == s.node.queue;
    FailureAnswered(s.acked, s.durable, s.refused, batch, out, s.node.queue);
  }

  lemma OneAnswered(acked: set<nat>, durable: seq<nat>, refused: set<nat>, unanswered: seq<nat>)
    requires Answered(acked, durable, refused, unanswered) && unanswered != [] && unanswered[0] in durable
    ensures Answered(acked + {unanswered[0]}, durable, refused, unanswered[1..])
  {}

  lemma AckShape(s: State)
    requires Enabled(s, AckOne)
    ensures var t, next := Next(s, AckOne), s.node.phase.next;
      && t.node.Up? && t.node.file == s.node.file && t.node.torn == s.node.torn && t.node.queue == s.node.queue
      && t.submitted == s.submitted && t.durable == s.durable && t.refused == s.refused && t.lost == s.lost
      && t.spoiled == s.spoiled
      && (next < |s.node.batch| ==>
            t.node.batch == s.node.batch && t.node.phase == Acking(next + 1) && t.acked == s.acked + {s.node.batch[next]})
      && (next >= |s.node.batch| ==> t.node.batch == [] && t.node.phase == Waiting && t.acked == s.acked)
  {}

  lemma AckKeeps(s: State)
    requires Inv(s) && Enabled(s, AckOne)
    ensures Inv(Next(s, AckOne))
  {
    hide Frames, Storable, FileHolds, Ordered, Accounted, Answered, Next;
    AckShape(s);
    var t := Next(s, AckOne);
    OrderNamed(s.submitted, Order(s), s.lost);
    NamedParts(s);
    var next := s.node.phase.next;
    assert Order(t) == Order(s);
    FileFollows(s.node, t.node, Entries(s.submitted, s.durable));
    if next < |s.node.batch| {
      var id := s.node.batch[next];
      assert id == s.durable[|s.durable| - |s.node.batch| + next];
      assert Unanswered(s.node)[0] == id;
      assert Unanswered(t.node) == Unanswered(s.node)[1..];
      OneAnswered(s.acked, s.durable, s.refused, Unanswered(s.node));
    } else {
      assert Unanswered(t.node) == Unanswered(s.node);
    }
  }

  /** The records a crash leaves behind, whatever byte it cuts the write at. */
  lemma CrashedFile(durable: seq<Entry>, batch: seq<Entry>, cut: nat)
    requires AllStorable(durable) && AllStorable(batch) && cut <= |Frames(batch)|
    ensures var kept := durable + batch[..WholeRecords(batch, cut)];
      FileHolds(Down(Frames(durable) + Frames(batch)[..cut]), kept)
  {
    hide Storable, FrameAll, Encodings, EncodeEntry, Recover;
    var m := WholeRecords(batch, cut);
    var all, kept := durable + batch, durable + batch[..m];
    var k := |Frames(durable)| + cut;
    FramesAppend(durable, batch);
    assert Frames(all)[..k] == Frames(durable) + Frames(batch)[..cut];
    CrashKeepsWholeRecords(all, k);
    WholeRecordsShift(durable, batch, cut);
    assert all[..|durable| + m] == kept;
    WholeRecordsBound(all, k);
    assert all == kept + batch[m..];
    FramesAppend(kept, batch[m..]);
  }

  lemma {:induction false} WholeRecordsShift(a: seq<Entry>, b: seq<Entry>, cut: nat)
    ensures WholeRecords(a + b, |Frames(a)| + cut) == |a| + WholeRecords(b, cut)
  {
    hide FrameAll, Encodings, EncodeEntry, FrameRecord;
    if a == [] {
      FramesNone();
      assert a + b == b;
    } else {
      FramesCons(a);
      assert (a + b)[1..] == a[1..] + b;
      assert (a + b)[0] == a[0];
      WholeRecordsShift(a[1..], b, cut);
    }
  }

  /** What a crash keeps in order and what it loses are apart. */
  lemma CrashSplit(submitted: seq<Entry>, order: seq<nat>, kept: seq<nat>, gone: seq<nat>,
                   refused: set<nat>, lost: set<nat>)
    requires Ordered(submitted, order, lost) && Accounted(|submitted|, order, refused, lost)
    requires order == kept + gone
    ensures Ordered(submitted, kept, lost + IdSet(gone))
    ensures Accounted(|submitted|, kept, refused, lost + IdSet(gone))
  {
    assert forall i :: 0 <= i < |kept| ==> kept[i] == order[i];
    assert forall j :: 0 <= j < |gone| ==> gone[j] == order[|kept| + j];
    assert forall id :: id in order ==> id in kept || id in gone;
  }

  /** The records on disk after a crash at byte `cut` of the write. */
  lemma CrashFile(s: State, cut: nat)
    requires Inv(s) && Enabled(s, Crash(cut)) && !Spoils(s, Crash(cut))
    ensures var t := Next(s, Crash(cut));
      && Named(s.submitted, t.durable)
      && FileHolds(t.node, Entries(s.submitted, t.durable))
  {
    hide Frames, Storable, Recover, WholeRecords, FileHolds, Increasing;
    var t := Next(s, Crash(cut));
    NamedParts(s);
    var hand := InHand(s.node);
    var es, hs := Entries(s.submitted, s.durable), Entries(s.submitted, hand);
    var m := if s.node.phase.Writing? then WholeRecords(hs, cut) else 0;
    EntriesAppend(s.submitted, s.durable, hand[..m]);
    assert Entries(s.submitted, hand[..m]) == hs[..m];
    assert AllStorable(es) && AllStorable(hs);
    if s.node.torn == 0 {
      UpFile(s.node, es);
    }
    if s.node.phase.Writing? && s.node.torn == 0 {
      CrashedFile(es, hs, cut);
    } else {
      NothingWritten(hs);
      assert m == 0 && es + hs[..0] == es;
      assert s.node.file + InFlight(s)[..cut] == s.node.file;
      StillReplays(s.node, es);
    }
  }

  lemma StillReplays(node: Node, es: seq<Entry>)
    requires node.Up? && FileHolds(node, es)
    ensures FileHolds(Down(node.file), es)
  {
    hide Frames, Recover;
  }

  lemma UpFile(node: Node, es: seq<Entry>)
    requires node.Up? && node.torn == 0 && FileHolds(node, es)
    ensures node.file == Frames(es)
  {
    hide Frames, Recover;
  }

  /** How many of the requests in hand a crash finds on disk. */
  function Survivors(s: State, cut: nat): (m: nat)
    requires s.node.Up? && Named(s.submitted, InHand(s.node))
    ensures m <= |InHand(s.node)|
  {
    if s.node.phase.Writing? then WholeRecords(Entries(s.submitted, InHand(s.node)), cut) else 0
  }

  lemma CrashShape(s: State, cut: nat)
    requires Enabled(s, Crash(cut))
    ensures Named(s.submitted, InHand(s.node))
    ensures var t, hand, m := Next(s, Crash(cut)), InHand(s.node), Survivors(s, cut);
      && t.node.Down? && t.submitted == s.submitted && t.acked == s.acked && t.refused == s.refused
      && t.durable == s.durable + hand[..m]
      && t.lost == s.lost + IdSet(hand[m..]) + IdSet(s.node.queue)
      && t.spoiled == (s.spoiled || Spoils(s, Crash(cut)))
  {
    hide Frames, WholeRecords;
    NamedParts(s);
  }

  lemma CrashKeeps(s: State, cut: nat)
    requires Inv(s) && Enabled(s, Crash(cut)) && !Spoils(s, Crash(cut))
    ensures Inv(Next(s, Crash(cut)))
    ensures Order(Next(s, Crash(cut))) <= Order(s)
  {
    hide Frames, Storable, Recover, FileHolds, Increasing, Disjoint, Accounted, Answered, Next, Enabled, InHand, Survivors,
         InFlight, Spoils;
    CrashUp(s, cut);
    CrashShape(s, cut);
    var t, hand, m := Next(s, Crash(cut)), InHand(s.node), Survivors(s, cut);
    var gone := hand[m..] + s.node.queue;
    assert hand == hand[..m] + hand[m..];
    DownOrder(t);
    assert Order(s) == Order(t) + gone;
    CrashSplit(s.submitted, Order(s), Order(t), gone, s.refused, s.lost);
    CrashFile(s, cut);
    assert t.lost == s.lost + IdSet(gone);
    CrashAnswered(s.acked, s.durable, s.refused, Unanswered(s.node), hand[..m]);
  }

  lemma CrashUp(s: State, cut: nat)
    requires Enabled(s, Crash(cut))
    ensures s.node.Up?
  {}

  lemma DownOrder(s: State)
    requires s.node.Down?
    ensures Order(s) == s.durable && Unanswered(s.node) == [] && Undurable(s) == []
  {}

  lemma ReopenedFile(file: seq<byte>, es: seq<Entry>)
    requires FileHolds(Down(file), es)
    ensures Recover(file) == Ok(Recovered(es, |Frames(es)|))
    ensures FileHolds(Up(file[..|Frames(es)|], [], [], Waiting, 0), es)
  {
    hide Frames, Storable, ReadOneRecord, RecoverFrom;
    RecoveryIdempotent(file);
    assert file[..|Frames(es)|][..|Frames(es)|] == Frames(es);
  }

  lemma ReopenKeeps(s: State)
    requires Inv(s) && s.node.Down?
    ensures Enabled(s, Reopen) && Inv(Next(s, Reopen))
    ensures Named(s.submitted, s.durable)
    ensures Recover(s.node.file) == Ok(Recovered(Entries(s.submitted, s.durable), |Next(s, Reopen).node.file|))
  {
    hide Frames, Storable, Recover, FileHolds, Increasing, Accounted;
    NamedParts(s);
    ReopenedFile(s.node.file, Entries(s.submitted, s.durable));
    var t := Next(s, Reopen);
    assert Order(t) == Order(s);
  }

  // ---- what each step does to the order ----

  /** Requests that are not on disk yet. */
  function Undurable(s: State): seq<nat> {
    InHand(s.node) + Queued(s.node)
  }

  predicate IsSuffix(a: seq<nat>, b: seq<nat>) {
    |a| <= |b| && a == b[|b| - |a|..]
  }

  predicate Quiet(step: Step) {
    step.Take? || step.DrainOne? || step.StopDraining? || step.WriteOk? || step.AckOne?
  }

  /** What a quiet step keeps. */
  ghost predicate Reordered(s: State, t: State) {
    && s.node.Up? && t.node.Up? && t.submitted == s.submitted && t.refused == s.refused
    && Order(t) == Order(s) && IsSuffix(Undurable(t), Undurable(s))
  }

  lemma TakeOrder(s: State)
    requires Enabled(s, Take)
    ensures Reordered(s, Next(s, Take))
  {
    hide Frames, Named;
    var q := s.node.queue;
    assert [] + [q[0]] == [q[0]];
    MoveOne(s.durable, [], q);
    MoveOne([], [], q);
  }

  lemma DrainOrder(s: State)
    requires Enabled(s, DrainOne)
    ensures Reordered(s, Next(s, DrainOne))
  {
    hide Frames, Named;
    MoveOne(s.durable, s.node.batch, s.node.queue);
  }

  lemma WriteOrder(s: State)
    requires Enabled(s, WriteOk)
    ensures Reordered(s, Next(s, WriteOk))
  {
    hide Frames, Named, Entries;
    var t := Next(s, WriteOk);
    assert Order(t) == s.durable + s.node.batch + s.node.queue;
    assert Undurable(t) == s.node.queue;
  }

  lemma AckOrder(s: State)
    requires Enabled(s, AckOne)
    ensures Reordered(s, Next(s, AckOne))
  {
    hide Frames, Named, Next;
    AckShape(s);
    assert Order(Next(s, AckOne)) == Order(s);
  }

  lemma StopOrder(s: State)
    requires Enabled(s, StopDraining)
    ensures Reordered(s, Next(s, StopDraining))
  {
    hide Frames, Named;
  }

  /** Moving a request along does not reorder anything. */
  lemma QuietOrder(s: State, step: Step)
    requires Enabled(s, step) && Quiet(step)
    ensures Reordered(s, Next(s, step))
  {
    hide Enabled, Next, Reordered;
    match step
    case Take => TakeOrder(s);
    case DrainOne => DrainOrder(s);
    case StopDraining => StopOrder(s);
    case WriteOk => WriteOrder(s);
    case AckOne => AckOrder(s);
  }

  lemma RefusalShape(s: State, cut: nat)
    requires Enabled(s, WriteFails(cut))
    ensures s.node.Up? && s.node.phase.Writing? && Named(s.submitted, s.node.batch)
    ensures var t := Next(s, WriteFails(cut));
      && t.node.Up? && t.node.queue == s.node.queue && t.node.batch == [] && t.node.phase.Waiting?
      && t.submitted == s.submitted && t.refused == s.refused + IdSet(s.node.batch)
      && t.durable == s.durable + Written(s, cut)
  {
    hide Frames, WholeRecords, Entries;
  }

  lemma RefusalOrder(s: State, cut: nat) returns (whole: nat)
    requires Enabled(s, WriteFails(cut))
    ensures s.node.Up? && whole <= |s.node.batch| && (cut == 0 ==> whole == 0)
    ensures var t := Next(s, WriteFails(cut));
      && t.node.Up? && t.submitted == s.submitted && t.refused == s.refused + IdSet(s.node.batch)
      && Order(t) == s.durable + s.node.batch[..whole] + s.node.queue && Undurable(t) == s.node.queue
      && Order(s) == s.durable + s.node.batch + s.node.queue && Undurable(s) == s.node.batch + s.node.queue
  {
    hide Frames, WholeRecords, Entries, Next, Enabled, IdSet;
    RefusalShape(s, cut);
    var t := Next(s, WriteFails(cut));
    NothingWritten(Entries(s.submitted, s.node.batch));
    whole := |Written(s, cut)|;
    assert Written(s, cut) == s.node.batch[..whole];
    assert Order(t) == s.durable + s.node.batch[..whole] + s.node.queue;
    assert Undurable(t) == s.node.queue;
  }

  lemma CrashOrder(s: State, cut: nat) returns (m: nat)
    requires Enabled(s, Crash(cut))
    ensures m <= |Undurable(s)|
    ensures var t := Next(s, Crash(cut));
      && s.node.Up? && t.node.Down? && t.submitted == s.submitted && t.refused == s.refused
      && Order(t) == s.durable + Undurable(s)[..m] && Undurable(t) == []
  {
    hide Frames, InFlight, Named, Next, Enabled, Survivors, InHand, Spoils;
    CrashUp(s, cut);
    CrashShape(s, cut);
    m := Survivors(s, cut);
    DownOrder(Next(s, Crash(cut)));
    assert Undurable(s)[..m] == InHand(s.node)[..m];
  }

  lemma SubmitOrder(s: State, e: Entry)
    requires Enabled(s, Submit(e))
    ensures var t := Next(s, Submit(e));
      && s.node.Up? && t.node.Up? && t.submitted == s.submitted + [e] && t.refused == s.refused
      && Order(t) == Order(s) + [|s.submitted|] && Undurable(t) == Undurable(s) + [|s.submitted|]
  {
    hide Storable;
    assert Order(Next(s, Submit(e))) == Order(s) + [|s.submitted|];
    assert Undurable(Next(s, Submit(e))) == Undurable(s) + [|s.submitted|];
  }

  lemma OrderParts(s: State)
    ensures Order(s) == s.durable + Undurable(s)
  {}

  lemma ReopenOrder(s: State)
    requires Enabled(s, Reopen)
    ensures var t := Next(s, Reopen);
      && s.node.Down? && t.node.Up? && t.submitted == s.submitted && t.refused == s.refused
      && Order(t) == Order(s) == s.durable && Undurable(t) == []
  {
    hide Recover;
  }

  function Acks(n: nat): (steps: seq<Step>)
    ensures |steps| == n
  {
    seq(n, i => AckOne)
  }

  /** One turn of the acknowledging loop. */
  lemma AckTurn(s: State, n: nat)
    requires s.node.Up? && s.node.phase.Acking? && n > 0
    ensures Enabled(s, AckOne) && Run(s, Acks(n)) == Run(Next(s, AckOne), Acks(n - 1))
  {
    hide Next;
    assert Acks(n)[1..] == Acks(n - 1);
  }

  /** The acknowledging loop reaches every request of the batch, then waits for the next. */
  lemma {:induction false} AcksEveryone(s: State)
    requires s.node.Up? && s.node.phase.Acking? && s.node.phase.next <= |s.node.batch|
    ensures Run(s, Acks(|s.node.batch| - s.node.phase.next + 1))
         == Some(s.(acked := s.acked + IdSet(s.node.batch[s.node.phase.next..]),
                    node := s.node.(batch := [], phase := Waiting)))
    decreases |s.node.batch| - s.node.phase.next
  {
    hide Frames, Named, Run, Acks, Enabled;
    var next, batch := s.node.phase.next, s.node.batch;
    AckTurn(s, |batch| - next + 1);
    if next < |batch| {
      AcksEveryone(Next(s, AckOne));
      assert batch[next..] == [batch[next]] + batch[next + 1..];
      assert s.acked + {batch[next]} + IdSet(batch[next + 1..]) == s.acked + IdSet(batch[next..]);
    } else {
      assert s.acked + IdSet(batch[next..]) == s.acked;
      NoSteps(Next(s, AckOne));
    }
  }

  lemma NoSteps(s: State)
    ensures Run(s, Acks(0)) == Some(s)
  {}

  lemma StepKeeps(s: State, step: Step)
    requires Inv(s) && Enabled(s, step) && !Spoils(s, step)
    ensures Inv(Next(s, step))
  {
    hide Inv, Next, Spoils;
    match step
    case Submit(e) => SubmitKeeps(s, e);
    case Take => DrainKeeps(s, step);
    case DrainOne => DrainKeeps(s, step);
    case StopDraining => DrainKeeps(s, step);
    case WriteOk => WriteOkKeeps(s);
    case WriteFails(cut) => WriteFailsKeeps(s, cut);
    case AckOne => AckKeeps(s);
    case Crash(cut) => CrashKeeps(s, cut);
    case Reopen => ReopenKeeps(s);
  }

  lemma SpoiledStays(s: State, step: Step)
    requires Enabled(s, step)
    ensures Next(s, step).spoiled <==> s.spoiled || Spoils(s, step)
  {
    hide Frames, Recover, WholeRecords;
  }

  lemma {:induction false} RunSpoils(s: State, steps: seq<Step>)
    requires s.spoiled && Run(s, steps).Some?
    ensures Run(s, steps).value.spoiled
    decreases |steps|
  {
    hide Enabled, Next;
    if steps != [] {
      SpoiledStays(s, steps[0]);
      RunSpoils(Next(s, steps[0]), steps[1..]);
    }
  }

  lemma {:induction false} RunKeeps(s: State, steps: seq<Step>)
    requires Inv(s) && Run(s, steps).Some? && !Run(s, steps).value.spoiled
    ensures Inv(Run(s, steps).value)
    decreases |steps|
  {
    hide Inv, Enabled, Next, Spoils;
    if steps != [] {
      var t := Next(s, steps[0]);
      if t.spoiled {
        RunSpoils(t, steps[1..]);
      }
      NotSpoiled(s);
      SpoiledStays(s, steps[0]);
      StepKeeps(s, steps[0]);
      RunKeeps(t, steps[1..]);
    }
  }

  lemma NotSpoiled(s: State)
    requires Inv(s)
    ensures !s.spoiled
  {
    hide FileInv, Ordered, Accounted, Answered, AckInv, AllStorable;
  }

  // ---- what a client can rely on ----

  /** The outcome of reopening `file`: a prefix of the order of submission, every
      record of it whole, with every acknowledged request in it. */
  ghost predicate Survives(s: State, file: seq<byte>) {
    exists n: nat ::
      && n <= |Order(s)| && Named(s.submitted, Order(s)[..n])
      && Recover(file).Ok? && Recover(file).value.entries == Entries(s.submitted, Order(s)[..n])
      && s.acked <= IdSet(Order(s)[..n])
  }

  /** Cutting the power at byte `cut` of the write in flight of state `s`: possible, and the
      file that is left survives it. */
  ghost predicate CutSurvives(s: State, cut: nat)
    requires Named(s.submitted, Order(s)) && cut <= |InFlight(s)|
  {
    Enabled(s, Crash(cut)) && Survives(s, s.node.file + InFlight(s)[..cut])
  }

  /** In every run, however often it crashed, reopened and failed to write before, as
      long as no bytes went behind an incomplete record: cut the power at any
      byte of the write in flight, and reopening the log is possible and loses nothing
      that was acknowledged, and replays in the order of submission. */
  lemma CrashAnywhere(base: seq<Entry>, steps: seq<Step>)
    requires AllStorable(base) && Run(Opened(base), steps).Some?
    requires Run(Opened(base), steps).value.node.Up? && !Run(Opened(base), steps).value.spoiled
    ensures var s := Run(Opened(base), steps).value;
      && Named(s.submitted, Order(s)) && Increasing(Order(s))
      && forall cut: nat :: cut <= |InFlight(s)| && (s.node.torn == 0 || cut == 0) ==> CutSurvives(s, cut)
  {
    hide Frames, Storable, Recover, WholeRecords, Run, FileHolds, Inv, InFlight, CutSurvives, Increasing, Named, Opened;
    OpenedInv(base);
    RunKeeps(Opened(base), steps);
    var s := Run(Opened(base), steps).value;
    InvNamed(s);
    forall cut: nat | cut <= |InFlight(s)| && (s.node.torn == 0 || cut == 0)
      ensures CutSurvives(s, cut)
    {
      OneCutSurvives(s, cut);
    }
  }

  lemma InvNamed(s: State)
    requires Inv(s)
    ensures Named(s.submitted, Order(s)) && Increasing(Order(s))
  {
    hide FileInv, Accounted, Answered, AckInv, AllStorable;
  }

  lemma OneCutSurvives(s: State, cut: nat)
    requires Inv(s) && s.node.Up? && Named(s.submitted, Order(s)) && cut <= |InFlight(s)| && (s.node.torn == 0 || cut == 0)
    ensures CutSurvives(s, cut)
  {
    hide Frames, Storable, Recover, WholeRecords, FileHolds;
    var t := Next(s, Crash(cut));
    CrashKeeps(s, cut);
    ReopenKeeps(t);
    var n := |Order(t)|;
    assert Order(t) == t.durable;
    assert Order(s)[..n] == Order(t);
  }

  /** Reopening a crashed store works and replays the durable requests: all
      acknowledged ones, none that was lost. */
  ghost predicate Reopens(s: State) {
    && Enabled(s, Reopen)
    && Named(s.submitted, s.durable)
    && Recover(s.node.file).value.entries == Entries(s.submitted, s.durable)
    && s.acked <= IdSet(s.durable)
    && Disjoint(s.durable, s.lost)
  }

  lemma DownReopens(s: State)
    requires Inv(s) && s.node.Down?
    ensures Reopens(s)
  {
    hide Frames, Storable, Recover, FileHolds, Increasing, Accounted;
    ReopenKeeps(s);
    assert Order(s) == s.durable;
  }

  lemma ReopenAlwaysWorks(base: seq<Entry>, steps: seq<Step>)
    requires AllStorable(base)
    requires Run(Opened(base), steps).Some? && Run(Opened(base), steps).value.node.Down?
    requires !Run(Opened(base), steps).value.spoiled
    ensures Reopens(Run(Opened(base), steps).value)
  {
    hide Inv, Run, Opened, Storable, Reopens;
    OpenedInv(base);
    RunKeeps(Opened(base), steps);
    DownReopens(Run(Opened(base), steps).value);
  }

  // ---- writing behind an incomplete record ----

  /** What the file holds behind its whole records. */
  function TornBytes(s: State): seq<byte>
    requires Named(s.submitted, s.durable)
  {
    var whole := |Frames(Entries(s.submitted, s.durable))|;
    if whole <= |s.node.file| then s.node.file[whole..] else []
  }

  /** In every run up to there: put any bytes behind whatever the last failed write left.
      If the log opens again, it replays more than the requests that were durable exactly
      if the bytes at the torn place pass its checksum; if they do not, the log opens
      exactly if the torn record reaches the end of the file. */
  lemma SpoilingExact(base: seq<Entry>, steps: seq<Step>, later: seq<byte>)
    requires AllStorable(base) && Run(Opened(base), steps).Some? && !Run(Opened(base), steps).value.spoiled
    ensures var s := Run(Opened(base), steps).value;
      && Named(s.submitted, s.durable)
      && var es, tail, r := Entries(s.submitted, s.durable), TornBytes(s) + later, Recover(s.node.file + later);
      && r == Verdict(es, tail)
      && (r.Ok? ==> es <= r.value.entries && (es < r.value.entries <==> PassesChecksum(tail)))
      && (!PassesChecksum(tail) ==> (r.Err? <==> !LooksTorn(tail)))
  {
    hide Inv, Run, Opened, Storable, Frames, Recover, Verdict, PassesChecksum, LooksTorn, Enabled, Next;
    OpenedInv(base);
    RunKeeps(Opened(base), steps);
    var s := Run(Opened(base), steps).value;
    FileSplits(s);
    var es, tail := Entries(s.submitted, s.durable), TornBytes(s) + later;
    assert s.node.file + later == Frames(es) + tail;
    TailVerdict(es, tail);
    ReplayedPastGood(es, tail);
  }

  lemma FileSplits(s: State)
    requires Inv(s)
    ensures Named(s.submitted, s.durable) && AllStorable(Entries(s.submitted, s.durable))
    ensures s.node.file == Frames(Entries(s.submitted, s.durable)) + TornBytes(s)
  {
    hide Frames, Recover, Storable, Increasing, Accounted, Answered;
    NamedParts(s);
    AllNamedStorable(s.submitted, s.durable);
  }

  // ---- one turn of the writer thread ----

  function Drains(n: nat): (steps: seq<Step>)
    ensures |steps| == n
  {
    seq(n, i => DrainOne)
  }

  /** The steps one turn of the thread takes over a queue of `n` requests. */
  function Turn(n: nat, outcome: Outcome): seq<Step>
    requires n > 0
  {
    [Take] + Drains(n - 1) + [StopDraining] + match outcome
      case Synced => [WriteOk] + Acks(n + 1)
      case FailedAt(cut) => [WriteFails(cut)]
  }

  /** The writer about to write everything that was queued. */
  function AllTaken(s: State): State
    requires s.node.Up?
  {
    s.(node := s.node.(queue := [], batch := s.node.queue, phase := Writing))
  }

  /** Where a turn ends: everyone that was queued has been answered. */
  function TurnDone(s: State, outcome: Outcome): State
    requires s.node.Up? && Named(s.submitted, s.node.queue)
    requires outcome.FailedAt? ==> outcome.cut <= |Frames(Entries(s.submitted, s.node.queue))|
  {
    match outcome
    case FailedAt(cut) => Next(AllTaken(s), WriteFails(cut))
    case Synced =>
      s.(node := s.node.(file := s.node.file + Frames(Entries(s.submitted, s.node.queue)), queue := [], batch := [],
                         phase := Waiting),
         durable := s.durable + s.node.queue,
         acked := s.acked + IdSet(s.node.queue),
         spoiled := s.spoiled || s.node.torn > 0)
  }

  lemma {:induction false} RunAppend(s: State, a: seq<Step>, b: seq<Step>)
    requires Run(s, a).Some?
    ensures Run(s, a + b) == Run(Run(s, a).value, b)
    decreases |a|
  {
    hide Enabled, Next;
    if a == [] {
      assert a + b == b;
    } else {
      assert (a + b)[0] == a[0] && (a + b)[1..] == a[1..] + b;
      RunAppend(Next(s, a[0]), a[1..], b);
    }
  }

  lemma RunOne(s: State, step: Step)
    requires Enabled(s, step)
    ensures Run(s, [step]) == Some(Next(s, step))
  {
    hide Enabled, Next;
    assert [step][1..] == [];
  }

  lemma {:induction false} DrainsAll(s: State)
    requires s.node.Up? && s.node.phase.Draining?
    ensures Run(s, Drains(|s.node.queue|))
         == Some(s.(node := s.node.(queue := [], batch := s.node.batch + s.node.queue)))
    decreases |s.node.queue|
  {
    hide Frames, Named, Recover, InFlight, WholeRecords;
    var q := s.node.queue;
    if q == [] {
      assert s.node.batch + q == s.node.batch;
    } else {
      assert Drains(|q|)[1..] == Drains(|q| - 1);
      var t := Next(s, DrainOne);
      DrainsAll(t);
      assert s.node.batch + [q[0]] + q[1..] == s.node.batch + q;
    }
  }

  lemma TakesAll(s: State)
    requires s.node.Up? && s.node.phase.Waiting? && s.node.queue != []
    ensures Run(s, [Take] + Drains(|s.node.queue| - 1) + [StopDraining]) == Some(AllTaken(s))
  {
    hide Run, Drains, Frames, Named, Recover, InFlight, WholeRecords;
    var q := s.node.queue;
    RunOne(s, Take);
    var t := Next(s, Take);
    DrainsAll(t);
    RunAppend(s, [Take], Drains(|q| - 1));
    var u := Run(t, Drains(|q| - 1)).value;
    assert [q[0]] + q[1..] == q;
    RunOne(u, StopDraining);
    RunAppend(s, [Take] + Drains(|q| - 1), [StopDraining]);
  }

  lemma AnswersAll(s: State, outcome: Outcome)
    requires s.node.Up? && s.node.phase.Writing? && s.node.queue == [] && Named(s.submitted, s.node.batch)
    requires outcome.FailedAt? ==> outcome.cut <= |Frames(Entries(s.submitted, s.node.batch))|
    ensures match outcome
      case FailedAt(cut) => Enabled(s, WriteFails(cut)) && Run(s, [WriteFails(cut)]) == Some(Next(s, WriteFails(cut)))
      case Synced =>
        Run(s, [WriteOk] + Acks(|s.node.batch| + 1))
          == Some(s.(node := s.node.(file := s.node.file + Frames(Entries(s.submitted, s.node.batch)), batch := [],
                                     phase := Waiting),
                     durable := s.durable + s.node.batch,
                     acked := s.acked + IdSet(s.node.batch),
                     spoiled := s.spoiled || s.node.torn > 0))
  {
    hide Run, Acks, Frames, Named, Recover, InFlight, WholeRecords;
    match outcome
    case FailedAt(cut) => RunOne(s, WriteFails(cut));
    case Synced =>
      RunOne(s, WriteOk);
      RunAppend(s, [WriteOk], Acks(|s.node.batch| + 1));
      AcksEveryone(Next(s, WriteOk));
      assert s.node.batch[0..] == s.node.batch;
  }

  /** One turn of the writer thread is a run of the machine. */
  lemma TurnRuns(s: State, outcome: Outcome)
    requires s.node.Up? && s.node.phase.Waiting? && s.node.queue != [] && Named(s.submitted, s.node.queue)
    requires outcome.FailedAt? ==> outcome.cut <= |Frames(Entries(s.submitted, s.node.queue))|
    ensures Run(s, Turn(|s.node.queue|, outcome)) == Some(TurnDone(s, outcome))
  {
    hide Run, Drains, Acks, Frames, Named, Next, Enabled;
    TakesAll(s);
    var front := [Take] + Drains(|s.node.queue| - 1) + [StopDraining];
    var back := match outcome
      case Synced => [WriteOk] + Acks(|s.node.queue| + 1)
      case FailedAt(cut) => [WriteFails(cut)];
    RunAppend(s, front, back);
    AnswersAll(AllTaken(s), outcome);
  }

  datatype Request = Request(framed: seq<byte>, ticket: nat)

  function FramedOf(rs: seq<Request>): seq<seq<byte>> {
    seq(|rs|, i requires 0 <= i < |rs| => rs[i].framed)
  }

  function Tickets(rs: seq<Request>): set<nat> {
    set i | 0 <= i < |rs| :: rs[i].ticket
  }

  method Concatenate(batch: seq<Request>) returns (buf: seq<byte>)
    ensures buf == Flatten(FramedOf(batch))
  {
    buf := [];
    for i := 0 to |batch|
      invariant buf == Flatten(FramedOf(batch[..i]))
    {
      buf := buf + batch[i].framed;
      FlattenAppend(FramedOf(batch[..i]), [batch[i].framed]);
      FlattenOne(batch[i].framed);
      assert FramedOf(batch[..i + 1]) == FramedOf(batch[..i]) + [batch[i].framed];
    }
    assert batch[..|batch|] == batch;
  }

  method AnswerAll(answers: map<nat, bool>, batch: seq<Request>, ok: bool) returns (after: map<nat, bool>)
    ensures after.Keys == answers.Keys + Tickets(batch)
    ensures forall t :: t in after ==> after[t] == if t in Tickets(batch) then ok else answers[t]
  {
    after := answers;
    for i := 0 to |batch|
      invariant after.Keys == answers.Keys + Tickets(batch[..i])
      invariant forall t :: t in after ==> after[t] == if t in Tickets(batch[..i]) then ok else answers[t]
    {
      after := after[batch[i].ticket := ok];
      assert batch[..i + 1] == batch[..i] + [batch[i]];
      assert Tickets(batch[..i + 1]) == Tickets(batch[..i]) + {batch[i].ticket};
    }
    assert batch[..|batch|] == batch;
  }

  class LogWriter {
    const log: LogFile
    var queue: seq<Request>
    /** The outcome sent through each request's oneshot channel. */
    var answers: map<nat, bool>

    constructor (log: LogFile)
      ensures this.log == log && queue == [] && answers == map[]
    {
      this.log := log;
      queue := [];
      answers := map[];
    }

    /** The queue, the file and the answers given so far are those of state `s`. */
    ghost predicate Represents(s: State)
      reads this, log
    {
      && s.node.Up? && s.node.phase.Waiting? && log.bytes == s.node.file
      && Carries(queue, s.submitted, s.node.queue)
      && Told(answers, s.acked, s.refused)
    }

    lemma RepresentsParts(s: State)
      requires Represents(s)
      ensures s.node.Up? && s.node.phase.Waiting? && log.bytes == s.node.file
      ensures Carries(queue, s.submitted, s.node.queue) && Told(answers, s.acked, s.refused)
    {
      hide Carries, Told;
    }

    lemma Represented(s: State)
      requires s.node.Up? && s.node.phase.Waiting? && log.bytes == s.node.file
      requires Carries(queue, s.submitted, s.node.queue) && Told(answers, s.acked, s.refused)
      ensures Represents(s)
    {
      hide Carries, Told;
    }

    /** Handing the framed record of an entry to the writer is the machine's submission. */
    method Submit(framed: seq<byte>, ticket: nat, ghost s: State, ghost e: Entry)
      modifies this`queue
      ensures queue == old(queue) + [Request(framed, ticket)]
      ensures old(Represents(s)) && Storable(e) && ticket == |s.submitted| && framed == FrameRecord(EncodeEntry(e)) ==>
        Enabled(s, Step.Submit(e)) && Represents(Next(s, Step.Submit(e)))
    {
      hide Storable, FrameRecord, EncodeEntry, Frames, Recover, WholeRecords;
      queue := queue + [Request(framed, ticket)];
    }

    /** The body of `run`'s loop: drain, concatenate, write once, answer everyone.  It is
        a run of the machine from the state the writer was in to the one it ends in. */
    method RunOnce(outcome: Outcome, ghost s: State)
      requires queue != []
      requires outcome.FailedAt? ==> outcome.cut <= |Flatten(FramedOf(queue))|
      modifies this, log
      ensures queue == []
      ensures log.bytes == old(log.bytes) + Reached(Flatten(FramedOf(old(queue))), outcome)
      ensures answers.Keys == old(answers).Keys + Tickets(old(queue))
      ensures forall t :: t in answers ==>
        answers[t] == if t in Tickets(old(queue)) then outcome.Synced? else old(answers)[t]
      ensures old(Represents(s)) ==>
        && var t := Run(s, Turn(|old(queue)|, outcome));
        && t.Some? && Represents(t.value)
    {
      hide Run, Turn, Represents, Flatten, FrameRecord, EncodeEntry, Frames, Next, Enabled;
      ghost var was, told := queue, answers;
      if Represents(s) {
        RepresentsParts(s);
      }
      var batch := [queue[0]];
      queue := queue[1..];
      while queue != []
        invariant batch + queue == was
        invariant log.bytes == old(log.bytes) && answers == told
        decreases |queue|
      {
        batch := batch + [queue[0]];
        queue := queue[1..];
      }
      assert batch == was;

      var buf := Concatenate(batch);
      var ok := log.WriteFramedBatch(buf, outcome);
      answers := AnswerAll(answers, batch, ok);
      if old(Represents(s)) {
        CarriedBatch(was, s.submitted, s.node.queue);
        TurnRuns(s, outcome);
        TurnFile(s, outcome);
        ToldMore(told, answers, was, s, outcome);
        NothingCarried(s.submitted);
        assert Represents(TurnDone(s, outcome)) by { Represented(TurnDone(s, outcome)); }
      }
    }
  }

  /** The requests of a queue are those the machine names, each with its framed record. */
  ghost predicate Carries(requests: seq<Request>, submitted: seq<Entry>, ids: seq<nat>) {
    && |requests| == |ids| && Named(submitted, ids)
    && forall i :: 0 <= i < |ids| ==>
         requests[i].ticket == ids[i] && requests[i].framed == FrameRecord(EncodeEntry(submitted[ids[i]]))
  }

  lemma CarriedBatch(requests: seq<Request>, submitted: seq<Entry>, ids: seq<nat>)
    requires Carries(requests, submitted, ids)
    ensures Named(submitted, ids)
    ensures Flatten(FramedOf(requests)) == Frames(Entries(submitted, ids))
    ensures Tickets(requests) == IdSet(ids) && |requests| == |ids|
  {
    hide FrameRecord, EncodeEntry, Frames, Flatten;
    var es := Entries(submitted, ids);
    BatchBytes(es);
    assert FramedOf(requests) == seq(|es|, i requires 0 <= i < |es| => FrameRecord(EncodeEntry(es[i])));
    forall id | id in ids
      ensures id in Tickets(requests)
    {
      var i :| 0 <= i < |ids| && ids[i] == id;
      assert requests[i].ticket == id;
    }
    forall t | t in Tickets(requests)
      ensures t in ids
    {
      var i :| 0 <= i < |requests| && requests[i].ticket == t;
      assert ids[i] == t;
    }
  }

  lemma NothingCarried(submitted: seq<Entry>)
    ensures Carries([], submitted, [])
  {}

  lemma TurnFile(s: State, outcome: Outcome)
    requires s.node.Up? && Named(s.submitted, s.node.queue)
    requires outcome.FailedAt? ==> outcome.cut <= |Frames(Entries(s.submitted, s.node.queue))|
    ensures var t := TurnDone(s, outcome);
      && t.node.Up? && t.node.phase.Waiting? && t.node.queue == [] && t.submitted == s.submitted
      && t.node.file == s.node.file + Reached(Frames(Entries(s.submitted, s.node.queue)), outcome)
      && t.acked == (if outcome.Synced? then s.acked + IdSet(s.node.queue) else s.acked)
      && t.refused == (if outcome.Synced? then s.refused else s.refused + IdSet(s.node.queue))
  {
    hide Frames, WholeRecords, Recover;
  }

  lemma ToldMore(answers: map<nat, bool>, after: map<nat, bool>, batch: seq<Request>, s: State, outcome: Outcome)
    requires s.node.Up? && Named(s.submitted, s.node.queue) && Told(answers, s.acked, s.refused)
    requires outcome.FailedAt? ==> outcome.cut <= |Frames(Entries(s.submitted, s.node.queue))|
    requires Tickets(batch) == IdSet(s.node.queue)
    requires after.Keys == answers.Keys + Tickets(batch)
    requires forall t :: t in after ==> after[t] == if t in Tickets(batch) then outcome.Synced? else answers[t]
    ensures Told(after, TurnDone(s, outcome).acked, TurnDone(s, outcome).refused)
  {
    hide Frames, TurnDone, Tickets, IdSet;
    TurnFile(s, outcome);
  }

  /** Nobody was told anything but the truth. */
  ghost predicate Told(answers: map<nat, bool>, acked: set<nat>, refused: set<nat>) {
    forall t :: t in answers ==> if answers[t] then t in acked else t in refused
  }

  /** The buffer of a turn is the log image of the entries its requests carry. */
  lemma {:induction false} BatchBytes(es: seq<Entry>)
    ensures Flatten(seq(|es|, i requires 0 <= i < |es| => FrameRecord(EncodeEntry(es[i])))) == Frames(es)
  {
    hide FrameRecord, EncodeEntry, FrameAll, Encodings;
    var framed := seq(|es|, i requires 0 <= i < |es| => FrameRecord(EncodeEntry(es[i])));
    if es == [] {
      FramesNone();
    } else {
      FramesCons(es);
      BatchBytes(es[1..]);
      assert framed[1..] == seq(|es[1..]|, i requires 0 <= i < |es[1..]| => FrameRecord(EncodeEntry(es[1..][i])));
    }
  }
}
