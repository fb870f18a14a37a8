/** Record framing, `read_one_record` and `Log::open`: what survives in a log file
    after an interrupted write, after a failed one, and after corruption. */
module Recovery {
  import opened Basics
  import opened Crc32
  import opened LogFormat

  // ---- framing ----

  /** `record_crc`, in the byte order the header stores it. */
  function RecordCrc(lenBytes: seq<byte>, payload: seq<byte>): (bs: seq<byte>)
    ensures |bs| == 4
  {
    RegisterBytes(Crc(lenBytes + payload))
  }

  /** `frame_record`: length, checksum of length and payload, payload. */
  function FrameRecord(payload: seq<byte>): (bs: seq<byte>)
    ensures |bs| == 8 + |payload|
  {
    WriteCount(|payload|) + RecordCrc(WriteCount(|payload|), payload) + payload
  }

  function FrameAll(payloads: seq<seq<byte>>): seq<byte> {
    if payloads == [] then [] else FrameRecord(payloads[0]) + FrameAll(payloads[1..])
  }

  lemma {:induction false} FrameAllAppend(a: seq<seq<byte>>, b: seq<seq<byte>>)
    ensures FrameAll(a + b) == FrameAll(a) + FrameAll(b)
  {
    hide FrameRecord;
    if a == [] {
      assert a + b == b;
    } else {
      assert (a + b)[1..] == a[1..] + b;
      calc {
        FrameAll(a + b);
        FrameRecord(a[0]) + FrameAll(a[1..] + b);
        { FrameAllAppend(a[1..], b); }
        FrameRecord(a[0]) + (FrameAll(a[1..]) + FrameAll(b));
        FrameAll(a) + FrameAll(b);
      }
    }
  }

  function Encodings(es: seq<Entry>): (ps: seq<seq<byte>>)
    ensures |ps| == |es|
  {
    seq(|es|, i requires 0 <= i < |es| => EncodeEntry(es[i]))
  }

  /** The log bytes of a sequence of entries. */
  function Frames(es: seq<Entry>): seq<byte> {
    FrameAll(Encodings(es))
  }

  lemma FramesAppend(a: seq<Entry>, b: seq<Entry>)
    ensures Frames(a + b) == Frames(a) + Frames(b)
  {
    hide EncodeEntry, FrameAll;
    assert Encodings(a + b) == Encodings(a) + Encodings(b);
    FrameAllAppend(Encodings(a), Encodings(b));
  }

  lemma FramesNone()
    ensures Frames([]) == []
  {}

  lemma FramesCons(es: seq<Entry>)
    requires es != []
    ensures Frames(es) == FrameRecord(EncodeEntry(es[0])) + Frames(es[1..])
  {
    hide EncodeEntry, FrameRecord;
    assert Encodings(es)[1..] == Encodings(es[1..]);
  }

  lemma FramesOne(e: Entry)
    ensures Frames([e]) == FrameRecord(EncodeEntry(e))
  {
    hide EncodeEntry, FrameRecord;
    FramesCons([e]);
    assert [e][1..] == [];
    FramesNone();
  }

  /** An entry whose record keeps every length it is given. */
  predicate Storable(e: Entry) {
    FitsEntry(e) && |EncodeEntry(e)| < U32_LIMIT
  }

  predicate AllStorable(es: seq<Entry>) {
    forall e :: e in es ==> Storable(e)
  }

  // ---- reading records ----

  datatype RecordRead = Record(entry: Entry, next: nat) | TornTail

  /** `read_one_record` at `pos` of a file of known length. */
  function ReadOneRecord(file: seq<byte>, pos: nat): (r: Result<RecordRead>)
    ensures r.Ok? && r.value.Record? ==> pos + 8 <= r.value.next <= |file|
  {
    if pos + 8 > |file| then Ok(TornTail)
    else
      var lenBytes := file[pos..pos + 4];
      var end := pos + 8 + LeValue(lenBytes);
      if end > |file| then Ok(TornTail)
      else
        var payload := file[pos + 8..end];
        if RecordCrc(lenBytes, payload) != file[pos + 4..pos + 8] then
          if end == |file| then Ok(TornTail) else Err(Execution)
        else
          var entry :- DecodeEntry(payload);
          Ok(Record(entry, end))
  }

  datatype Recovered = Recovered(entries: seq<Entry>, kept: nat)

  /** The entries replayed from `pos` on, and how much of the file is kept. */
  function RecoverFrom(file: seq<byte>, pos: nat): (r: Result<Recovered>)
    requires pos <= |file|
    ensures r.Ok? ==> pos <= r.value.kept <= |file|
    decreases |file| - pos
  {
    var step :- ReadOneRecord(file, pos);
    match step
    case TornTail => Ok(Recovered([], pos))
    case Record(entry, next) =>
      var rest :- RecoverFrom(file, next);
      Ok(Recovered([entry] + rest.entries, rest.kept))
  }

  function Recover(file: seq<byte>): (r: Result<Recovered>)
    ensures r.Ok? ==> r.value.kept <= |file|
  {
    RecoverFrom(file, 0)
  }

  function Prepend(es: seq<Entry>, r: Result<Recovered>): Result<Recovered> {
    match r
    case Ok(v) => Ok(Recovered(es + v.entries, v.kept))
    case Err(e) => Err(e)
  }

  lemma PrependNone(r: Result<Recovered>)
    ensures Prepend([], r) == r
  {
    if r.Ok? {
      assert [] + r.value.entries == r.value.entries;
    }
  }

  lemma PrependTwice(a: seq<Entry>, b: seq<Entry>, r: Result<Recovered>)
    ensures Prepend(a, Prepend(b, r)) == Prepend(a + b, r)
  {
    if r.Ok? {
      assert a + (b + r.value.entries) == (a + b) + r.value.entries;
    }
  }

  lemma RecoverStep(file: seq<byte>, pos: nat, e: Entry, next: nat)
    requires pos <= |file| && ReadOneRecord(file, pos) == Ok(Record(e, next))
    ensures RecoverFrom(file, pos) == Prepend([e], RecoverFrom(file, next))
  {}

  /** How a write and the sync after it end: on disk, or with an error after `cut` bytes. */
  datatype Outcome = Synced | FailedAt(cut: nat)

  function Reached(framed: seq<byte>, outcome: Outcome): seq<byte>
    requires outcome.FailedAt? ==> outcome.cut <= |framed|
  {
    match outcome
    case Synced => framed
    case FailedAt(cut) => framed[..cut]
  }

  /** An open, append-only log file. */
  class LogFile {
    var bytes: seq<byte>

    constructor (existing: seq<byte>)
      ensures bytes == existing
    {
      bytes := existing;
    }

    /** `Log::open`: replay the records in order and cut a torn tail off the file. */
    method Open() returns (r: Result<seq<Entry>>)
      modifies this
      ensures r.Err? <==> Recover(old(bytes)).Err?
      ensures r.Err? ==> bytes == old(bytes)
      ensures r.Ok? ==>
        && Recover(old(bytes)) == Ok(Recovered(r.value, |bytes|))
        && bytes == old(bytes)[..|bytes|]
    {
      hide ReadOneRecord;
      var applied: seq<Entry> := [];
      var pos := 0;
      PrependNone(Recover(bytes));
      while true
        invariant pos <= |bytes| && bytes == old(bytes)
        invariant Recover(bytes) == Prepend(applied, RecoverFrom(bytes, pos))
        decreases |bytes| - pos
      {
        var step := ReadOneRecord(bytes, pos);
        if step.Err? {
          return Err(step.error);
        }
        if step.value.TornTail? {
          break;
        }
        PrependTwice(applied, [step.value.entry], RecoverFrom(bytes, step.value.next));
        applied := applied + [step.value.entry];
        pos := step.value.next;
      }
      assert applied + [] == applied;
      assert Recover(bytes) == Ok(Recovered(applied, pos));
      if pos < |bytes| {
        bytes := bytes[..pos];
      }
      return Ok(applied);
    }

    /** `write_framed_batch`, with what the file system makes of it. */
    method WriteFramedBatch(framed: seq<byte>, outcome: Outcome) returns (ok: bool)
      requires outcome.FailedAt? ==> outcome.cut <= |framed|
      modifies this
      ensures ok == outcome.Synced?
      ensures bytes == old(bytes) + Reached(framed, outcome)
    {
      bytes := bytes + Reached(framed, outcome);
      return outcome.Synced?;
    }
  }

  // ---- whole records read back ----

  /** `payloads[i]` is the payload of a record that decodes to `es[i]`. */
  ghost predicate Decodes(payloads: seq<seq<byte>>, es: seq<Entry>) {
    && |payloads| == |es|
    && forall i :: 0 <= i < |es| ==> |payloads[i]| < U32_LIMIT && DecodeEntry(payloads[i]) == Ok(es[i])
  }

  lemma EncodingsDecode(es: seq<Entry>)
    requires AllStorable(es)
    ensures Decodes(Encodings(es), es)
  {
    hide EncodeEntry, DecodeEntry, FitsEntry;
    forall i | 0 <= i < |es|
      ensures |Encodings(es)[i]| < U32_LIMIT && DecodeEntry(Encodings(es)[i]) == Ok(es[i])
    {
      assert es[i] in es;
      assert Storable(es[i]);
      EntryRoundTrip(es[i]);
    }
  }

  /** The three fields of a record that stands at `pos`. */
  lemma RecordFields(file: seq<byte>, pos: nat, payload: seq<byte>)
    requires At(file, pos, FrameRecord(payload))
    ensures pos + 8 + |payload| <= |file|
    ensures file[pos..pos + 4] == WriteCount(|payload|)
    ensures file[pos + 4..pos + 8] == RecordCrc(WriteCount(|payload|), payload)
    ensures file[pos + 8..pos + 8 + |payload|] == payload
  {
    hide WriteCount, RecordCrc;
    var len := WriteCount(|payload|);
    var crc := RecordCrc(len, payload);
    AtSplit(file, pos, len + crc, payload);
    AtSplit(file, pos, len, crc);
  }

  lemma ReadWhole(file: seq<byte>, pos: nat, payload: seq<byte>, e: Entry)
    requires At(file, pos, FrameRecord(payload))
    requires |payload| < U32_LIMIT && DecodeEntry(payload) == Ok(e)
    ensures ReadOneRecord(file, pos) == Ok(Record(e, pos + 8 + |payload|))
  {
    hide FrameRecord, RecordCrc, DecodeEntry, LeBytes, LeValue;
    RecordFields(file, pos, payload);
    U32RoundTrip(|payload|);
  }

  /** Recovery walks over whole records and goes on behind them. */
  lemma {:induction false} RecoverWhole(file: seq<byte>, pos: nat, payloads: seq<seq<byte>>, es: seq<Entry>)
    requires At(file, pos, FrameAll(payloads)) && Decodes(payloads, es)
    ensures pos + |FrameAll(payloads)| <= |file|
    ensures RecoverFrom(file, pos) == Prepend(es, RecoverFrom(file, pos + |FrameAll(payloads)|))
    decreases |payloads|
  {
    hide FrameRecord, ReadOneRecord, DecodeEntry, RecoverFrom, Prepend;
    if payloads == [] {
      PrependNone(RecoverFrom(file, pos));
    } else {
      var first, rest := FrameRecord(payloads[0]), FrameAll(payloads[1..]);
      AtSplit(file, pos, first, rest);
      ReadWhole(file, pos, payloads[0], es[0]);
      RecoverStep(file, pos, es[0], pos + |first|);
      RecoverWhole(file, pos + |first|, payloads[1..], es[1..]);
      PrependTwice([es[0]], es[1..], RecoverFrom(file, pos + |first| + |rest|));
      assert [es[0]] + es[1..] == es;
    }
  }

  /** Everything a log was given is there when it is opened again. */
  lemma RecoverFrames(es: seq<Entry>)
    requires AllStorable(es)
    ensures Recover(Frames(es)) == Ok(Recovered(es, |Frames(es)|))
  {
    hide EncodeEntry, DecodeEntry, FitsEntry, FrameAll;
    EncodingsDecode(es);
    RecoverWhole(Frames(es), 0, Encodings(es), es);
    assert es + [] == es;
  }

  // ---- a crash inside a write ----

  /** Any proper part of a record reads as a torn tail. */
  lemma CutRecordIsTorn(file: seq<byte>, pos: nat, payload: seq<byte>)
    requires |payload| < U32_LIMIT
    requires pos <= |file| < pos + |FrameRecord(payload)|
    requires file[pos..] == FrameRecord(payload)[..|file| - pos]
    ensures ReadOneRecord(file, pos) == Ok(TornTail)
  {
    hide RecordCrc, DecodeEntry, LeBytes, LeValue;
    if pos + 8 <= |file| {
      assert file[pos..pos + 4] == file[pos..][..4] == FrameRecord(payload)[..4];
      assert FrameRecord(payload)[..4] == WriteCount(|payload|);
      U32RoundTrip(|payload|);
    }
  }

  /** How many whole records `k` bytes of a log hold. */
  function WholeRecords(es: seq<Entry>, k: nat): (m: nat)
    ensures m <= |es|
  {
    if es == [] || k < 8 + |EncodeEntry(es[0])| then 0
    else 1 + WholeRecords(es[1..], k - (8 + |EncodeEntry(es[0])|))
  }

  /** The whole records fit in the `k` bytes, and one more would not. */
  lemma {:induction false} WholeRecordsBound(es: seq<Entry>, k: nat)
    requires k <= |Frames(es)|
    ensures |Frames(es[..WholeRecords(es, k)])| <= k
    ensures WholeRecords(es, k) < |es| ==> k < |Frames(es[..WholeRecords(es, k) + 1])|
    ensures WholeRecords(es, k) == |es| ==> k == |Frames(es)|
  {
    hide FrameRecord, EncodeEntry, FrameAll, Encodings;
    var m := WholeRecords(es, k);
    if es == [] {
      FramesNone();
    } else if k < 8 + |EncodeEntry(es[0])| {
      assert es[..1] == [es[0]] && es[..0] == [];
      FramesOne(es[0]);
      FramesNone();
      FramesCons(es);
    } else {
      FramesCons(es);
      WholeRecordsBound(es[1..], k - (8 + |EncodeEntry(es[0])|));
      FramesCons(es[..m]);
      assert es[..m][1..] == es[1..][..m - 1];
      if m < |es| {
        FramesCons(es[..m + 1]);
        assert es[..m + 1][1..] == es[1..][..m];
      }
    }
  }

  /** Opening a log cut at any byte replays exactly the whole records before the cut. */
  lemma {:induction false} CrashKeepsWholeRecords(es: seq<Entry>, k: nat)
    requires AllStorable(es) && k <= |Frames(es)|
    ensures var m := WholeRecords(es, k);
      Recover(Frames(es)[..k]) == Ok(Recovered(es[..m], |Frames(es[..m])|))
  {
    hide FrameRecord, ReadOneRecord, DecodeEntry, EncodeEntry, FrameAll, Encodings, FitsEntry;
    var m := WholeRecords(es, k);
    WholeRecordsBound(es, k);
    var good, file := Frames(es[..m]), Frames(es)[..k];
    assert es == es[..m] + es[m..];
    FramesAppend(es[..m], es[m..]);
    assert At(file, 0, good);
    EncodingsDecode(es[..m]);
    RecoverWhole(file, 0, Encodings(es[..m]), es[..m]);
    if m == |es| {
      assert es[..m] == es;
      assert ReadOneRecord(file, |good|) == Ok(TornTail) by { EndIsTorn(file); }
    } else {
      assert es[..m + 1] == es[..m] + [es[m]];
      FramesAppend(es[..m], [es[m]]);
      FramesCons(es[m..]);
      FramesOne(es[m]);
      var record := FrameRecord(EncodeEntry(es[m]));
      assert Frames(es) == good + (record + Frames(es[m..][1..]));
      assert file[|good|..] == record[..k - |good|];
      assert es[m] in es;
      CutRecordIsTorn(file, |good|, EncodeEntry(es[m]));
    }
    assert es[..m] + [] == es[..m];
  }

  lemma EndIsTorn(file: seq<byte>)
    ensures ReadOneRecord(file, |file|) == Ok(TornTail)
  {}

  // ---- arbitrary files ----

  /** The payloads of the records recovery accepts. */
  function KeptPayloads(file: seq<byte>, pos: nat): (ps: seq<seq<byte>>)
    requires pos <= |file|
    decreases |file| - pos
  {
    var step := ReadOneRecord(file, pos);
    if step.Err? || step.value.TornTail? then []
    else [file[pos + 8..step.value.next]] + KeptPayloads(file, step.value.next)
  }

  lemma ReadIsRecord(file: seq<byte>, pos: nat)
    requires ReadOneRecord(file, pos).Ok? && ReadOneRecord(file, pos).value.Record?
    ensures var r := ReadOneRecord(file, pos).value;
      && var payload := file[pos + 8..r.next];
      && file[pos..r.next] == FrameRecord(payload)
      && |payload| < U32_LIMIT && DecodeEntry(payload) == Ok(r.entry)
  {
    hide DecodeEntry, RecordCrc, LeBytes, LeValue;
    var next := ReadOneRecord(file, pos).value.next;
    var lenBytes := file[pos..pos + 4];
    LeValueOfFour(lenBytes);
    LeBytesOfValue(lenBytes);
    var payload := file[pos + 8..next];
    assert file[pos..next] == lenBytes + file[pos + 4..pos + 8] + payload;
  }

  /** Whatever the file, what recovery keeps is a run of whole, checksum-valid records. */
  lemma {:induction false} KeptIsWholeRecords(file: seq<byte>, pos: nat)
    requires pos <= |file| && RecoverFrom(file, pos).Ok?
    ensures var r := RecoverFrom(file, pos).value;
      && file[pos..r.kept] == FrameAll(KeptPayloads(file, pos))
      && Decodes(KeptPayloads(file, pos), r.entries)
    decreases |file| - pos
  {
    hide FrameRecord, DecodeEntry, ReadOneRecord;
    var step := ReadOneRecord(file, pos).value;
    if step.Record? {
      var next, kept := step.next, RecoverFrom(file, pos).value.kept;
      ReadIsRecord(file, pos);
      KeptIsWholeRecords(file, next);
      var ps := KeptPayloads(file, pos);
      assert ps[1..] == KeptPayloads(file, next);
      assert file[pos..kept] == file[pos..next] + file[next..kept];
      assert FrameAll(ps) == FrameRecord(ps[0]) + FrameAll(ps[1..]);
    }
  }

  /** Opening is idempotent: the truncated file replays the same entries, whole. */
  lemma RecoveryIdempotent(file: seq<byte>)
    requires Recover(file).Ok?
    ensures var r := Recover(file).value;
      Recover(file[..r.kept]) == Ok(Recovered(r.entries, r.kept))
  {
    hide ReadOneRecord, DecodeEntry, FrameAll, KeptPayloads, Decodes;
    var r := Recover(file).value;
    KeptIsWholeRecords(file, 0);
    var ps, again := KeptPayloads(file, 0), file[..r.kept];
    assert again == file[0..r.kept];
    assert At(again, 0, FrameAll(ps));
    RecoverWhole(again, 0, ps, r.entries);
    EndIsTorn(again);
    assert r.entries + [] == r.entries;
  }

  // ---- corruption ----

  /** A record whose payload no longer matches its stored checksum. */
  lemma MismatchVerdict(file: seq<byte>, pos: nat, stored: seq<byte>, payload: seq<byte>)
    requires |payload| < U32_LIMIT && |stored| == 4
    requires At(file, pos, WriteCount(|payload|) + stored + payload)
    requires RecordCrc(WriteCount(|payload|), payload) != stored
    ensures ReadOneRecord(file, pos)
         == if pos + 8 + |payload| == |file| then Ok(TornTail) else Err(Execution)
  {
    hide RecordCrc, DecodeEntry, LeBytes, LeValue;
    var len := WriteCount(|payload|);
    AtSplit(file, pos, len + stored, payload);
    AtSplit(file, pos, len, stored);
    U32RoundTrip(|payload|);
  }

  /** A payload changed inside at most four consecutive bytes, its header untouched:
      opening refuses the file if anything follows the record, and otherwise drops
      exactly that record. */
  lemma BurstCorruption(before: seq<Entry>, front: seq<byte>, w: seq<byte>, v: seq<byte>, back: seq<byte>, rest: seq<byte>)
    requires AllStorable(before)
    requires |w| == |v| <= 4 && w != v && |front + w + back| < U32_LIMIT
    ensures var written, found := front + w + back, front + v + back;
      var header := FrameRecord(written)[..8];
      Recover(Frames(before) + header + found + rest)
        == if rest == [] then Ok(Recovered(before, |Frames(before)|)) else Err(Execution)
  {
    hide FrameRecord, RecordCrc, DecodeEntry, ReadOneRecord, WriteCount, Crc, FrameAll, Encodings, EncodeEntry, FitsEntry, Decodes;
    var written, found := front + w + back, front + v + back;
    var len := WriteCount(|written|);
    var stored := RecordCrc(len, written);
    var header, good := FrameRecord(written)[..8], Frames(before);
    HeaderOf(written);
    CrcDiffers(len, front, w, v, back);
    var file := good + header + found + rest;
    assert file == good + ((len + stored + found) + rest);
    assert At(file, |good|, len + stored + found);
    MismatchVerdict(file, |good|, stored, found);
    EncodingsDecode(before);
    assert At(file, 0, good);
    RecoverWhole(file, 0, Encodings(before), before);
    assert before + [] == before;
  }

  lemma HeaderOf(payload: seq<byte>)
    ensures FrameRecord(payload)[..8] == WriteCount(|payload|) + RecordCrc(WriteCount(|payload|), payload)
  {
    hide WriteCount, RecordCrc;
  }

  lemma CrcDiffers(len: seq<byte>, front: seq<byte>, w: seq<byte>, v: seq<byte>, back: seq<byte>)
    requires |w| == |v| <= 4 && w != v
    ensures RecordCrc(len, front + w + back) != RecordCrc(len, front + v + back)
  {
    hide Crc, RegisterBytes;
    BurstDetected(len + front, w, v, back);
    assert len + (front + w + back) == len + front + w + back;
    assert len + (front + v + back) == len + front + v + back;
    if RecordCrc(len, front + w + back) == RecordCrc(len, front + v + back) {
      RegisterBytesInjective(Crc(len + front + w + back), Crc(len + front + v + back));
    }
  }

  // ---- a write that fails partway ----

  /** The length the first bytes of a tail declare for the record they begin. */
  function DeclaredEnd(tail: seq<byte>): nat
    requires |tail| >= 8
  {
    8 + LeValue(tail[..4])
  }

  /** The bytes at the front of `tail` have the shape of a record and pass its checksum. */
  predicate PassesChecksum(tail: seq<byte>) {
    && |tail| >= 8 && DeclaredEnd(tail) <= |tail|
    && RecordCrc(tail[..4], tail[8..DeclaredEnd(tail)]) == tail[4..8]
  }

  /** What opening makes of bytes that fail the checksum: a torn tail if the record they
      declare reaches the end of the file, corruption if anything lies behind it. */
  predicate LooksTorn(tail: seq<byte>) {
    |tail| < 8 || |tail| <= DeclaredEnd(tail)
  }

  /** The verdict of opening a file of good records followed by any bytes at all. */
  function Verdict(before: seq<Entry>, tail: seq<byte>): Result<Recovered> {
    var good := |Frames(before)|;
    if !PassesChecksum(tail) then
      if LooksTorn(tail) then Ok(Recovered(before, good)) else Err(Execution)
    else
      var e :- DecodeEntry(tail[8..DeclaredEnd(tail)]);
      Prepend(before + [e], RecoverFrom(Frames(before) + tail, good + DeclaredEnd(tail)))
  }

  lemma ReadTail(good: seq<byte>, tail: seq<byte>)
    ensures ReadOneRecord(good + tail, |good|)
         == if !PassesChecksum(tail) then if LooksTorn(tail) then Ok(TornTail) else Err(Execution)
            else match DecodeEntry(tail[8..DeclaredEnd(tail)])
                 case Ok(e) => Ok(Record(e, |good| + DeclaredEnd(tail)))
                 case Err(err) => Err(err)
  {
    hide RecordCrc, DecodeEntry, LeValue;
    var file, pos := good + tail, |good|;
    if |tail| >= 8 {
      assert file[pos..pos + 4] == tail[..4];
      assert file[pos + 4..pos + 8] == tail[4..8];
      if DeclaredEnd(tail) <= |tail| {
        assert file[pos + 8..pos + DeclaredEnd(tail)] == tail[8..DeclaredEnd(tail)];
      }
    }
  }

  /** The exact outcome of opening good records followed by arbitrary bytes. */
  lemma TailVerdict(before: seq<Entry>, tail: seq<byte>)
    requires AllStorable(before)
    ensures Recover(Frames(before) + tail) == Verdict(before, tail)
  {
    hide FrameAll, Encodings, EncodeEntry, DecodeEntry, FitsEntry, Decodes, ReadOneRecord, PassesChecksum, LooksTorn;
    var good := Frames(before);
    var file := good + tail;
    assert At(file, 0, good);
    EncodingsDecode(before);
    RecoverWhole(file, 0, Encodings(before), before);
    ReadTail(good, tail);
    assert before + [] == before;
    if PassesChecksum(tail) {
      PassesFits(tail);
      var entry := DecodeEntry(tail[8..DeclaredEnd(tail)]);
      if entry.Ok? {
        var next := |good| + DeclaredEnd(tail);
        RecoverStep(file, |good|, entry.value, next);
        PrependTwice(before, [entry.value], RecoverFrom(file, next));
      }
    }
  }

  lemma PassesFits(tail: seq<byte>)
    requires PassesChecksum(tail)
    ensures |tail| >= 8 && DeclaredEnd(tail) <= |tail|
  {}

  /** If a file opens at all, something behind the good records is replayed exactly if
      the bytes found there pass the checksum; and it is refused outright exactly if
      they fail it with more bytes behind them, or pass it and do not decode, or a
      later record is refused. */
  lemma ReplayedPastGood(before: seq<Entry>, tail: seq<byte>)
    requires AllStorable(before)
    ensures var r := Recover(Frames(before) + tail);
      && (r.Ok? ==> before <= r.value.entries && (before < r.value.entries <==> PassesChecksum(tail)))
      && (!PassesChecksum(tail) ==> (r.Err? <==> !LooksTorn(tail)))
  {
    hide Frames, RecoverFrom, DecodeEntry, FitsEntry, PassesChecksum, LooksTorn, Storable;
    TailVerdict(before, tail);
    var r := Recover(Frames(before) + tail);
    if PassesChecksum(tail) && r.Ok? {
      PassesFits(tail);
      var e := DecodeEntry(tail[8..DeclaredEnd(tail)]).value;
      assert before + [e] <= r.value.entries;
      assert |before| < |r.value.entries|;
    }
  }

  /** What a failed write leaves of a record, with whatever was appended after it. */
  function Leftover(payload: seq<byte>, k: nat, later: seq<byte>): (tail: seq<byte>)
    requires k <= 8 + |payload|
    ensures |tail| == k + |later|
  {
    FrameRecord(payload)[..k] + later
  }

  /** The bytes found behind a header that survived the failed write. */
  function Found(payload: seq<byte>, k: nat, later: seq<byte>): (bs: seq<byte>)
    requires 8 <= k <= 8 + |payload|
    ensures |bs| == k - 8 + |later|
  {
    payload[..k - 8] + later
  }

  /** The write stopped behind the header: the record that is read has the length and
      the checksum of the one that failed, and whatever came later as its payload. */
  lemma HeaderSurvives(payload: seq<byte>, k: nat, later: seq<byte>)
    requires |payload| < U32_LIMIT && 8 <= k <= 8 + |payload|
    ensures var found, len := Found(payload, k, later), WriteCount(|payload|);
      && (PassesChecksum(Leftover(payload, k, later))
          <==> |payload| <= |found| && RecordCrc(len, found[..|payload|]) == RecordCrc(len, payload))
      && (LooksTorn(Leftover(payload, k, later)) <==> |found| <= |payload|)
  {
    hide RecordCrc, WriteCount, LeValue;
    var tail, found := Leftover(payload, k, later), Found(payload, k, later);
    LengthSurvives(payload, k, later);
    var head := WriteCount(|payload|) + RecordCrc(WriteCount(|payload|), payload);
    assert FrameRecord(payload)[..k] == head + payload[..k - 8];
    assert tail == head + found;
    assert tail[4..8] == RecordCrc(WriteCount(|payload|), payload);
    if |payload| <= |found| {
      assert tail[8..8 + |payload|] == found[..|payload|];
    }
  }

  /** The write stopped behind the length field: the length still counts. */
  lemma LengthSurvives(payload: seq<byte>, k: nat, later: seq<byte>)
    requires |payload| < U32_LIMIT && 4 <= k <= 8 + |payload| && 8 <= k + |later|
    ensures var tail := Leftover(payload, k, later);
      tail[..4] == WriteCount(|payload|) && DeclaredEnd(tail) == 8 + |payload|
  {
    hide RecordCrc, LeBytes, LeValue;
    var len := WriteCount(|payload|);
    var tail := Leftover(payload, k, later);
    assert FrameRecord(payload)[..k][..4] == FrameRecord(payload)[..4] == len;
    assert tail[..4] == len;
    U32RoundTrip(|payload|);
  }

  /** The write stopped inside the checksum: the rest of it is taken from what came later. */
  lemma ChecksumMixed(payload: seq<byte>, k: nat, later: seq<byte>)
    requires |payload| < U32_LIMIT && 4 <= k < 8 && 8 <= k + |later|
    ensures var len, gap := WriteCount(|payload|), 8 - k;
      && (PassesChecksum(Leftover(payload, k, later))
          <==> && gap + |payload| <= |later|
               && RecordCrc(len, later[gap..gap + |payload|]) == RecordCrc(len, payload)[..k - 4] + later[..gap])
      && (LooksTorn(Leftover(payload, k, later)) <==> |later| <= gap + |payload|)
  {
    hide RecordCrc, WriteCount, LeValue;
    var tail, len, gap := Leftover(payload, k, later), WriteCount(|payload|), 8 - k;
    LengthSurvives(payload, k, later);
    assert FrameRecord(payload)[..k] == len + RecordCrc(len, payload)[..k - 4];
    assert tail[4..8] == RecordCrc(len, payload)[..k - 4] + later[..gap];
    if gap + |payload| <= |later| {
      assert tail[8..8 + |payload|] == later[gap..gap + |payload|];
    }
  }

  /** The write stopped inside the length field: its high bytes are taken from what came
      later, and so is everything that length then covers. */
  lemma LengthMixed(payload: seq<byte>, k: nat, later: seq<byte>)
    requires k < 4 && 8 <= k + |later|
    ensures var len := WriteCount(|payload|)[..k] + later[..4 - k];
      var end := 8 - k + LeValue(len);
      && (PassesChecksum(Leftover(payload, k, later))
          <==> end <= |later| && RecordCrc(len, later[8 - k..end]) == later[4 - k..8 - k])
      && (LooksTorn(Leftover(payload, k, later)) <==> |later| <= end)
  {
    hide RecordCrc, WriteCount, LeValue;
    var tail := Leftover(payload, k, later);
    var len := WriteCount(|payload|)[..k] + later[..4 - k];
    var end := 8 - k + LeValue(len);
    assert FrameRecord(payload)[..k] == WriteCount(|payload|)[..k];
    assert tail[..4] == len;
    assert tail[4..8] == later[4 - k..8 - k];
    if end <= |later| {
      assert tail[8..k + end] == later[8 - k..end];
    }
  }

  /** A write that fails at byte `k` of a record, and what was appended after it: the
      log opens to the records before the failure alone if the leftover record still
      reaches the end of the file, and does not open at all if it ends inside the
      appended bytes, unless those bytes pass its checksum. */
  lemma FailedWriteVerdict(before: seq<Entry>, payload: seq<byte>, k: nat, later: seq<byte>)
    requires AllStorable(before) && k <= 8 + |payload|
    ensures var r := Recover(Frames(before) + FrameRecord(payload)[..k] + later);
      var tail := Leftover(payload, k, later);
      && r == Verdict(before, tail)
      && (r.Ok? ==> before <= r.value.entries && (before < r.value.entries <==> PassesChecksum(tail)))
      && (!PassesChecksum(tail) ==> (r.Err? <==> !LooksTorn(tail)))
  {
    hide Frames, FrameRecord, Recover, Verdict, Storable, PassesChecksum, LooksTorn;
    var cut := FrameRecord(payload)[..k];
    assert Frames(before) + cut + later == Frames(before) + (cut + later);
    TailVerdict(before, cut + later);
    ReplayedPastGood(before, cut + later);
  }

  /** If the length field is out and later appends do not reach as far as that length
      says, opening the log drops everything written after the failure, acknowledged
      or not. */
  lemma FailedWriteSwallowsAppends(before: seq<Entry>, payload: seq<byte>, k: nat, later: seq<byte>)
    requires AllStorable(before) && |payload| < U32_LIMIT
    requires 4 <= k && k + |later| < 8 + |payload|
    ensures Recover(Frames(before) + FrameRecord(payload)[..k] + later)
         == Ok(Recovered(before, |Frames(before)|))
  {
    hide Frames, Recover, Storable, RecordCrc, LeValue, FrameRecord, DecodeEntry, WriteCount;
    FailedWriteVerdict(before, payload, k, later);
    if 8 <= k + |later| {
      LengthSurvives(payload, k, later);
    }
  }

  /** A write that loses between one and four bytes of a record, with later appends that
      begin with anything but those bytes and go on behind them: the whole log is
      refused, the records from before the failure included. */
  lemma FailedWriteRefusesLog(before: seq<Entry>, front: seq<byte>, missing: seq<byte>, first: seq<byte>, rest: seq<byte>)
    requires AllStorable(before) && |front + missing| < U32_LIMIT
    requires |missing| == |first| <= 4 && missing != first && rest != []
    ensures Recover(Frames(before) + FrameRecord(front + missing)[..8 + |front|] + (first + rest)) == Err(Execution)
  {
    hide Frames, FrameRecord, Recover, Storable;
    BurstCorruption(before, front, missing, first, [], rest);
    assert front + missing + [] == front + missing && front + first + [] == front + first;
    var record := FrameRecord(front + missing);
    RecordFront(front, missing);
    assert Frames(before) + record[..8] + (front + first) + rest
        == Frames(before) + (record[..8] + front) + (first + rest);
  }

  lemma RecordFront(front: seq<byte>, missing: seq<byte>)
    ensures FrameRecord(front + missing)[..8 + |front|] == FrameRecord(front + missing)[..8] + front
  {
    hide WriteCount, RecordCrc;
  }

  /** One such log: creating database `a` fails one byte short, and is then repeated
      with success.  Nothing opens it again. */
  lemma RetriedCreateRefusesLog()
    ensures var record := Frames([CreateDatabase([97])]);
      && Recover(record[..|record| - 1] + record) == Err(Execution)
      && Recover(record + record) == Ok(Recovered([CreateDatabase([97]), CreateDatabase([97])], 2 * |record|))
  {
    hide FrameAll, Encodings, DecodeEntry, Recover, FrameRecord, RecordCrc;
    var e := CreateDatabase([97]);
    var payload, record := EncodeEntry(e), Frames([e]);
    FramesOne(e);
    FramesNone();
    var front := payload[..5];
    assert payload == front + [97];
    FirstByte(payload);
    var rest := record[1..];
    assert record == [6] + rest;
    FailedWriteRefusesLog([], front, [97], [6], rest);
    assert Frames([]) + record[..13] + record == record[..13] + record;
    assert Storable(e);
    FramesAppend([e], [e]);
    RecoverFrames([e, e]);
    assert [e] + [e] == [e, e];
  }

  lemma FirstByte(payload: seq<byte>)
    requires |payload| < 256
    ensures FrameRecord(payload)[0] == |payload|
  {
    hide RecordCrc;
  }

  /** A write that stops between two records costs none of what is appended after it. */
  lemma BoundaryCutLosesNothing(before: seq<Entry>, later: seq<Entry>)
    requires AllStorable(before) && AllStorable(later)
    ensures Recover(Frames(before) + Frames(later)) == Ok(Recovered(before + later, |Frames(before)| + |Frames(later)|))
  {
    hide Frames, Recover, Storable;
    FramesAppend(before, later);
    RecoverFrames(before + later);
  }
}
