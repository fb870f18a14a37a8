/** The packets of a whole result set, built packet by packet or straight into bytes, and
    a client that gets the rows back from them. */
module Framing {
  import opened Basics
  import opened Wire
  import opened ResultSets

  datatype ColumnDef = ColumnDef(name: Text, wireType: WireType)

  datatype ResultSet = ResultSet(columns: seq<ColumnDef>, rows: seq<seq<Cell>>)

  /** How rows are encoded: `encode_text_row` or `encode_binary_row`. */
  type RowEncoder = seq<Cell> -> Result<seq<byte>>

  const DEF_WORD: Text := [100, 101, 102]

  function TypeCode(t: WireType): byte {
    match t
    case LongLong => 0x08
    case VarString => 0xfd
  }

  /** Character set, display width, type code, flags, decimals and filler. */
  function FixedFields(t: WireType): (bs: seq<byte>)
    ensures |bs| == 13 && bs[0] == 0x0c && bs[7] == TypeCode(t)
  {
    [0x0c] + LeBytes(45, 2) + LeBytes(255, 4) + [TypeCode(t)] + LeBytes(0, 2) + [0] + [0, 0]
  }

  /** A column definition's payload, unless it is too long for one packet. */
  function ColumnPayload(c: ColumnDef): (r: Result<seq<byte>>)
    ensures r.Err? ==> r.error == Protocol
    ensures r.Ok? ==> |r.value| <= MAX_PAYLOAD
  {
    if !FitsLength(c.name) then Err(Protocol)
    else
      var names := WriteBytes(c.name) + (WriteBytes(c.name) + FixedFields(c.wireType));
      var payload := WriteBytes(DEF_WORD) + (WriteBytes([]) + (WriteBytes([]) + (WriteBytes([]) + names)));
      if |payload| > MAX_PAYLOAD then Err(Protocol) else Ok(payload)
  }

  function EofPayload(status: u16): seq<byte> {
    [0xfe] + LeBytes(0, 2) + LeBytes(status, 2)
  }

  /** The terminator under CLIENT_DEPRECATE_EOF: an OK packet with 0xFE in front. */
  function OkTerminator(status: u16): seq<byte> {
    [0xfe] + WriteInt(0) + WriteInt(0) + LeBytes(status, 2) + LeBytes(0, 2)
  }

  function Terminator(deprecateEof: bool, status: u16): seq<byte> {
    if deprecateEof then OkTerminator(status) else EofPayload(status)
  }

  function ColumnPayloads(columns: seq<ColumnDef>): (r: Result<seq<seq<byte>>>)
    ensures r.Ok? ==> |r.value| == |columns|
  {
    if columns == [] then Ok([])
    else
      var front :- ColumnPayloads(columns[..|columns| - 1]);
      var last :- ColumnPayload(columns[|columns| - 1]);
      Ok(front + [last])
  }

  function RowPayloads(rows: seq<seq<Cell>>, encode: RowEncoder): (r: Result<seq<seq<byte>>>)
    ensures r.Ok? ==> |r.value| == |rows|
  {
    if rows == [] then Ok([])
    else
      var front :- RowPayloads(rows[..|rows| - 1], encode);
      var last :- encode(rows[|rows| - 1]);
      Ok(front + [last])
  }

  predicate Countable(rs: ResultSet) {
    |rs.columns| <= U64_MAX
  }

  /** Everything before the rows: column count, column definitions, perhaps an EOF. */
  function Head(rs: ResultSet, deprecateEof: bool, status: u16): (r: Result<seq<seq<byte>>>)
    requires Countable(rs)
    ensures r.Ok? ==> |r.value| == 1 + |rs.columns| + if deprecateEof then 0 else 1
  {
    var columns :- ColumnPayloads(rs.columns);
    Ok([WriteInt(|rs.columns|)] + columns + if deprecateEof then [] else [EofPayload(status)])
  }

  /** The payloads of a result set, in order. */
  function Payloads(rs: ResultSet, deprecateEof: bool, status: u16, encode: RowEncoder): Result<seq<seq<byte>>>
    requires Countable(rs)
  {
    var head :- Head(rs, deprecateEof, status);
    var rows :- RowPayloads(rs.rows, encode);
    Ok(head + rows + [Terminator(deprecateEof, status)])
  }

  /** The payloads up to the first that is too long for a packet. */
  function GoodColumns(columns: seq<ColumnDef>): (ps: seq<seq<byte>>)
    ensures |ps| <= |columns|
  {
    if columns == [] then []
    else
      var n := |columns| - 1;
      var front := GoodColumns(columns[..n]);
      if |front| == n && ColumnPayload(columns[n]).Ok? then front + [ColumnPayload(columns[n]).value] else front
  }

  function GoodRows(rows: seq<seq<Cell>>, encode: RowEncoder): (ps: seq<seq<byte>>)
    ensures |ps| <= |rows|
  {
    if rows == [] then []
    else
      var n := |rows| - 1;
      var front := GoodRows(rows[..n], encode);
      if |front| == n && encode(rows[n]).Ok? then front + [encode(rows[n]).value] else front
  }

  /** Everything in front of the first column definition or row that is too long. */
  function UntilError(rs: ResultSet, deprecateEof: bool, status: u16, encode: RowEncoder): seq<seq<byte>>
    requires Countable(rs)
  {
    match Head(rs, deprecateEof, status)
    case Err(_) => [WriteInt(|rs.columns|)] + GoodColumns(rs.columns)
    case Ok(head) => head + GoodRows(rs.rows, encode)
  }

  /** Packets with sequence ids counting up from `start`, modulo 256. */
  function Numbered(payloads: seq<seq<byte>>, start: byte): (ps: seq<Packet>)
    ensures |ps| == |payloads|
    ensures forall i :: 0 <= i < |ps| ==> ps[i] == Packet((start + i) % 256, payloads[i])
  {
    seq(|payloads|, i requires 0 <= i < |payloads| => Packet((start + i) % 256, payloads[i]))
  }

  lemma NumberedMore(payloads: seq<seq<byte>>, payload: seq<byte>, start: byte)
    ensures Numbered(payloads + [payload], start)
         == Numbered(payloads, start) + [Packet((start + |payloads|) % 256, payload)]
  {}

  // ---- failures carry over ----

  lemma {:induction false} ColumnsFail(columns: seq<ColumnDef>, i: nat)
    requires i <= |columns| && ColumnPayloads(columns[..i]).Err?
    ensures ColumnPayloads(columns) == Err(ColumnPayloads(columns[..i]).error)
    ensures |GoodColumns(columns[..i])| < i && GoodColumns(columns) == GoodColumns(columns[..i])
    decreases |columns|
  {
    hide ColumnPayload;
    var n := |columns| - 1;
    if i == |columns| {
      assert columns[..i] == columns;
      GoodUntil(columns);
    } else {
      assert columns[..n][..i] == columns[..i];
      ColumnsFail(columns[..n], i);
    }
  }

  /** If nothing is too long, everything is good; otherwise not everything is. */
  lemma {:induction false} GoodUntil(columns: seq<ColumnDef>)
    ensures match ColumnPayloads(columns)
      case Ok(ps) => GoodColumns(columns) == ps
      case Err(_) => |GoodColumns(columns)| < |columns|
    decreases |columns|
  {
    hide ColumnPayload;
    if columns != [] {
      GoodUntil(columns[..|columns| - 1]);
    }
  }

  lemma {:induction false} GoodRowsUntil(rows: seq<seq<Cell>>, encode: RowEncoder)
    ensures match RowPayloads(rows, encode)
      case Ok(ps) => GoodRows(rows, encode) == ps
      case Err(_) => |GoodRows(rows, encode)| < |rows|
    decreases |rows|
  {
    if rows != [] {
      GoodRowsUntil(rows[..|rows| - 1], encode);
    }
  }

  lemma {:induction false} RowsFail(rows: seq<seq<Cell>>, encode: RowEncoder, i: nat)
    requires i <= |rows| && RowPayloads(rows[..i], encode).Err?
    ensures RowPayloads(rows, encode) == Err(RowPayloads(rows[..i], encode).error)
    ensures |GoodRows(rows[..i], encode)| < i && GoodRows(rows, encode) == GoodRows(rows[..i], encode)
    decreases |rows|
  {
    var n := |rows| - 1;
    if i == |rows| {
      assert rows[..i] == rows;
      GoodRowsUntil(rows, encode);
    } else {
      assert rows[..n][..i] == rows[..i];
      RowsFail(rows[..n], encode, i);
    }
  }

  // ---- to_packets ----

  /** The packets being built and the next sequence id. */
  class PacketList {
    var packets: seq<Packet>
    var seqId: byte
    const start: byte

    /** The packets are numbered from `start`, and `seqId` comes next. */
    ghost predicate Holds(payloads: seq<seq<byte>>)
      reads this
    {
      packets == Numbered(payloads, start) && seqId == (start + |payloads|) % 256
    }

    constructor (start: byte)
      ensures this.start == start && Holds([])
    {
      this.start := start;
      packets := [];
      seqId := start;
    }

    method Push(payload: seq<byte>, ghost before: seq<seq<byte>>)
      requires Holds(before)
      modifies this
      ensures Holds(before + [payload])
    {
      NumberedMore(before, payload, start);
      packets := packets + [Packet(seqId, payload)];
      seqId := (seqId + 1) % 256;
    }

    /** The column definitions, up to the first that is too long. */
    method PushColumns(columns: seq<ColumnDef>, ghost before: seq<seq<byte>>) returns (r: Result<()>)
      requires Holds(before)
      modifies this
      ensures r.Err? ==> ColumnPayloads(columns) == Err(r.error)
      ensures r.Ok? ==> ColumnPayloads(columns).Ok? && Holds(before + ColumnPayloads(columns).value)
    {
      hide Holds, ColumnPayload;
      assert before + [] == before;
      for i := 0 to |columns|
        invariant ColumnPayloads(columns[..i]).Ok? && Holds(before + ColumnPayloads(columns[..i]).value)
      {
        ghost var done := ColumnPayloads(columns[..i]).value;
        assert columns[..i + 1][..i] == columns[..i];
        var payload := ColumnPayload(columns[i]);
        if payload.Err? {
          ColumnsFail(columns, i + 1);
          return Err(payload.error);
        }
        Push(payload.value, before + done);
        assert before + done + [payload.value] == before + (done + [payload.value]);
      }
      assert columns[..|columns|] == columns;
      r := Ok(());
    }

    /** The rows, up to the first that is too long. */
    method PushRows(rows: seq<seq<Cell>>, encode: RowEncoder, ghost before: seq<seq<byte>>) returns (r: Result<()>)
      requires Holds(before)
      modifies this
      ensures r.Err? ==> RowPayloads(rows, encode) == Err(r.error)
      ensures r.Ok? ==> RowPayloads(rows, encode).Ok? && Holds(before + RowPayloads(rows, encode).value)
    {
      hide Holds;
      assert before + [] == before;
      for i := 0 to |rows|
        invariant RowPayloads(rows[..i], encode).Ok? && Holds(before + RowPayloads(rows[..i], encode).value)
      {
        ghost var done := RowPayloads(rows[..i], encode).value;
        assert rows[..i + 1][..i] == rows[..i];
        var payload := encode(rows[i]);
        if payload.Err? {
          RowsFail(rows, encode, i + 1);
          return Err(payload.error);
        }
        Push(payload.value, before + done);
        assert before + done + [payload.value] == before + (done + [payload.value]);
      }
      assert rows[..|rows|] == rows;
      r := Ok(());
    }
  }

  /** `to_packets`. */
  method ToPackets(rs: ResultSet, deprecateEof: bool, status: u16, start: byte, encode: RowEncoder)
    returns (r: Result<(seq<Packet>, byte)>)
    requires Countable(rs)
    ensures match Payloads(rs, deprecateEof, status, encode)
      case Ok(ps) => r == Ok((Numbered(ps, start), (start + |ps|) % 256))
      case Err(e) => r == Err(e)
  {
    var target := new PacketList(start);
    var sent := SendTo(target, rs, deprecateEof, status, encode);
    r := if sent.Ok? then Ok((target.packets, target.seqId)) else Err(sent.error);
  }

  method SendTo(target: PacketList, rs: ResultSet, deprecateEof: bool, status: u16, encode: RowEncoder)
    returns (r: Result<()>)
    requires Countable(rs) && target.Holds([])
    modifies target
    ensures match Payloads(rs, deprecateEof, status, encode)
      case Ok(ps) => r.Ok? && target.Holds(ps)
      case Err(e) => r == Err(e)
  {
    hide ColumnPayloads, RowPayloads, EofPayload, OkTerminator, WriteInt, PacketList.Holds;
    assert [] + [WriteInt(|rs.columns|)] == [WriteInt(|rs.columns|)];
    target.Push(WriteInt(|rs.columns|), []);
    var columns := target.PushColumns(rs.columns, [WriteInt(|rs.columns|)]);
    if columns.Err? {
      return Err(columns.error);
    }
    ghost var head := [WriteInt(|rs.columns|)] + ColumnPayloads(rs.columns).value;
    if !deprecateEof {
      target.Push(EofPayload(status), head);
      head := head + [EofPayload(status)];
    } else {
      assert head + [] == head;
    }
    var rows := target.PushRows(rs.rows, encode, head);
    if rows.Err? {
      return Err(rows.error);
    }
    target.Push(Terminator(deprecateEof, status), head + RowPayloads(rs.rows, encode).value);
    r := Ok(());
  }

  // ---- encode_into ----

  /** The bytes being built and the next sequence id. */
  class ByteBuffer {
    var out: seq<byte>
    var seqId: byte
    const start: byte
    ghost const before: seq<byte>

    ghost predicate Holds(payloads: seq<seq<byte>>)
      reads this
    {
      out == before + EncodeAll(Numbered(payloads, start)) && seqId == (start + |payloads|) % 256
    }

    constructor (out: seq<byte>, start: byte)
      ensures this.start == start && before == out && Holds([])
    {
      this.out := out;
      this.start := start;
      seqId := start;
      before := out;
      new;
      assert Numbered([], start) == [];
    }

    method Write(payload: seq<byte>, ghost so: seq<seq<byte>>)
      requires Holds(so)
      modifies this
      ensures Holds(so + [payload])
    {
      hide Encode, EncodeAll, Numbered;
      var packet := Packet(seqId, payload);
      NumberedMore(so, payload, start);
      EncodeOneMore(Numbered(so, start), packet);
      out := out + Encode(packet);
      seqId := (seqId + 1) % 256;
    }

    /** The column definitions, up to the first that is too long. */
    method WriteColumns(columns: seq<ColumnDef>, ghost so: seq<seq<byte>>) returns (r: Result<()>)
      requires Holds(so)
      modifies this
      ensures r.Err? ==> ColumnPayloads(columns) == Err(r.error) && Holds(so + GoodColumns(columns))
      ensures r.Ok? ==> ColumnPayloads(columns).Ok? && Holds(so + ColumnPayloads(columns).value)
    {
      hide Holds, ColumnPayload;
      assert so + [] == so;
      for i := 0 to |columns|
        invariant ColumnPayloads(columns[..i]).Ok? && Holds(so + ColumnPayloads(columns[..i]).value)
      {
        ghost var done := ColumnPayloads(columns[..i]).value;
        assert columns[..i + 1][..i] == columns[..i];
        var payload := ColumnPayload(columns[i]);
        if payload.Err? {
          ColumnsFail(columns, i + 1);
          GoodUntil(columns[..i]);
          return Err(payload.error);
        }
        Write(payload.value, so + done);
        assert so + done + [payload.value] == so + (done + [payload.value]);
      }
      assert columns[..|columns|] == columns;
      r := Ok(());
    }

    /** The rows, up to the first that is too long. */
    method WriteRows(rows: seq<seq<Cell>>, encode: RowEncoder, ghost so: seq<seq<byte>>) returns (r: Result<()>)
      requires Holds(so)
      modifies this
      ensures r.Err? ==> RowPayloads(rows, encode) == Err(r.error) && Holds(so + GoodRows(rows, encode))
      ensures r.Ok? ==> RowPayloads(rows, encode).Ok? && Holds(so + RowPayloads(rows, encode).value)
    {
      hide Holds;
      assert so + [] == so;
      for i := 0 to |rows|
        invariant RowPayloads(rows[..i], encode).Ok? && Holds(so + RowPayloads(rows[..i], encode).value)
      {
        ghost var done := RowPayloads(rows[..i], encode).value;
        assert rows[..i + 1][..i] == rows[..i];
        var payload := encode(rows[i]);
        if payload.Err? {
          RowsFail(rows, encode, i + 1);
          GoodRowsUntil(rows[..i], encode);
          return Err(payload.error);
        }
        Write(payload.value, so + done);
        assert so + done + [payload.value] == so + (done + [payload.value]);
      }
      assert rows[..|rows|] == rows;
      r := Ok(());
    }
  }

  /** `encode_into`: the bytes of exactly the packets of `to_packets`, appended; if one
      is too long, the bytes of exactly the packets in front of it. */
  method EncodeInto(rs: ResultSet, out: seq<byte>, deprecateEof: bool, status: u16, start: byte, encode: RowEncoder)
    returns (r: Result<byte>, after: seq<byte>)
    requires Countable(rs)
    ensures match Payloads(rs, deprecateEof, status, encode)
      case Ok(ps) => r == Ok((start + |ps|) % 256) && after == out + EncodeAll(Numbered(ps, start))
      case Err(e) =>
        r == Err(e) && after == out + EncodeAll(Numbered(UntilError(rs, deprecateEof, status, encode), start))
  {
    hide Payloads, UntilError, EncodeAll;
    var target := new ByteBuffer(out, start);
    var sent := WriteTo(target, rs, deprecateEof, status, encode);
    r := if sent.Ok? then Ok(target.seqId) else Err(sent.error);
    after := target.out;
  }

  method WriteTo(target: ByteBuffer, rs: ResultSet, deprecateEof: bool, status: u16, encode: RowEncoder)
    returns (r: Result<()>)
    requires Countable(rs) && target.Holds([])
    modifies target
    ensures match Payloads(rs, deprecateEof, status, encode)
      case Ok(ps) => r.Ok? && target.Holds(ps)
      case Err(e) => r == Err(e) && target.Holds(UntilError(rs, deprecateEof, status, encode))
  {
    hide GoodColumns, GoodRows, ColumnPayloads, RowPayloads, EofPayload, OkTerminator, WriteInt, ByteBuffer.Holds;
    assert [] + [WriteInt(|rs.columns|)] == [WriteInt(|rs.columns|)];
    target.Write(WriteInt(|rs.columns|), []);
    var columns := target.WriteColumns(rs.columns, [WriteInt(|rs.columns|)]);
    if columns.Err? {
      return Err(columns.error);
    }
    ghost var head := [WriteInt(|rs.columns|)] + ColumnPayloads(rs.columns).value;
    if !deprecateEof {
      target.Write(EofPayload(status), head);
      head := head + [EofPayload(status)];
    } else {
      assert head + [] == head;
    }
    var rows := target.WriteRows(rs.rows, encode, head);
    if rows.Err? {
      return Err(rows.error);
    }
    target.Write(Terminator(deprecateEof, status), head + RowPayloads(rs.rows, encode).value);
    r := Ok(());
  }

  // ---- a client's view ----

  predicate IsTerminator(payload: seq<byte>) {
    payload != [] && payload[0] == 0xfe && |payload| < 9
  }

  /** The two row encoders and the readers that undo them. */
  function TextEncoder(cells: seq<Cell>): Result<seq<byte>> {
    if (forall i :: 0 <= i < |cells| ==> Sendable(cells[i])) && |TextCells(cells)| <= MAX_PAYLOAD
    then Ok(TextCells(cells)) else Err(Protocol)
  }

  function BinaryEncoder(cells: seq<Cell>): Result<seq<byte>> {
    if (forall i :: 0 <= i < |cells| ==> Sendable(cells[i])) && |BinaryRow(cells)| <= MAX_PAYLOAD
    then Ok(BinaryRow(cells)) else Err(Protocol)
  }

  function TextReader(types: seq<WireType>, payload: seq<byte>): Result<seq<Cell>> {
    var cells :- ReadTextCells(payload, types, |types|);
    if cells.1 == |payload| then Ok(cells.0) else Err(Protocol)
  }

  /** A row's payload is a row's: not a terminator, and it reads back. */
  ghost predicate Undoes(read: seq<byte> -> Result<seq<Cell>>, encode: RowEncoder, cells: seq<Cell>) {
    encode(cells).Ok? ==>
      && |encode(cells).value| <= MAX_PAYLOAD && !IsTerminator(encode(cells).value)
      && read(encode(cells).value) == Ok(cells)
  }

  lemma TextUndone(cells: seq<Cell>, types: seq<WireType>)
    requires RowFits(cells, types)
    ensures Undoes(payload => TextReader(types, payload), TextEncoder, cells)
  {
    hide RowFits, TextCells, ReadTextCells, Sendable;
    if TextEncoder(cells).Ok? {
      TextRowRoundTrip(cells, types);
      if cells != [] {
        TextRowStart(cells);
      }
      assert cells == [] ==> TextCells(cells) == [] by { EmptyRow(); }
      assert |cells| == |types| by { SameWidth(cells, types); }
    }
  }

  lemma EmptyRow()
    ensures TextCells([]) == []
  {}

  lemma SameWidth(cells: seq<Cell>, types: seq<WireType>)
    requires RowFits(cells, types)
    ensures |cells| == |types|
  {}

  lemma BinaryUndone(cells: seq<Cell>, types: seq<WireType>)
    requires RowFits(cells, types)
    ensures Undoes(payload => ReadBinaryRow(payload, types), BinaryEncoder, cells)
  {
    hide RowFits, BinaryRow, ReadBinaryRow, Sendable;
    if BinaryEncoder(cells).Ok? {
      BinaryRowRoundTrip(cells, types);
    }
  }

  lemma {:induction false} RowPayloadAt(rows: seq<seq<Cell>>, encode: RowEncoder, i: nat)
    requires RowPayloads(rows, encode).Ok? && i < |rows|
    ensures encode(rows[i]) == Ok(RowPayloads(rows, encode).value[i])
    decreases |rows|
  {
    var n := |rows| - 1;
    if i < n {
      RowPayloadAt(rows[..n], encode, i);
      assert rows[..n][i] == rows[i];
    }
  }

  /** Both terminators are recognised, and carry the status flags in the same place. */
  lemma TerminatorEnds(deprecateEof: bool, status: u16)
    ensures IsTerminator(Terminator(deprecateEof, status))
    ensures LeValue(Terminator(deprecateEof, status)[3..5]) == status
  {
    hide LeBytes, LeValue;
    Pow256Values();
    LeRoundTrip(status, 2);
    assert Terminator(deprecateEof, status)[3..5] == LeBytes(status, 2);
  }

  // ---- column definitions ----

  /** Four strings a client skips, then the name twice and the fixed fields. */
  function ReadColumnDef(payload: seq<byte>): Result<ColumnDef> {
    var at :- SkipStrings(payload, 4);
    ReadNameAndType(payload[at..])
  }

  function ReadNameAndType(buf: seq<byte>): Result<ColumnDef> {
    var name :- ReadBytes(buf);
    var again :- ReadBytes(buf[name.1..]);
    var t :- ReadType(buf[name.1..][again.1..]);
    Ok(ColumnDef(name.0, t))
  }

  function ReadType(fields: seq<byte>): Result<WireType> {
    if |fields| != 13 || fields[0] != 0x0c then Err(Protocol)
    else if fields[7] == 0x08 then Ok(LongLong)
    else if fields[7] == 0xfd then Ok(VarString)
    else Err(Protocol)
  }

  function SkipStrings(payload: seq<byte>, n: nat): (r: Result<nat>)
    ensures r.Ok? ==> r.value <= |payload|
  {
    if n == 0 then Ok(0)
    else
      var at :- SkipStrings(payload, n - 1);
      var s :- ReadBytes(payload[at..]);
      Ok(at + s.1)
  }

  lemma SkipOneMore(payload: seq<byte>, n: nat, at: nat, s: Text, rest: seq<byte>)
    requires n > 0 && SkipStrings(payload, n - 1) == Ok(at) && FitsLength(s)
    requires at <= |payload| && payload[at..] == WriteBytes(s) + rest
    ensures SkipStrings(payload, n) == Ok(at + |WriteBytes(s)|)
    ensures at + |WriteBytes(s)| <= |payload| && payload[at + |WriteBytes(s)|..] == rest
  {
    hide WriteBytes, ReadBytes;
    BytesRoundTrip(s, rest);
    assert payload[at + |WriteBytes(s)|..] == payload[at..][|WriteBytes(s)|..];
  }

  /** The four strings before the names. */
  lemma SkipToNames(payload: seq<byte>, names: seq<byte>)
    requires payload == WriteBytes(DEF_WORD) + (WriteBytes([]) + (WriteBytes([]) + (WriteBytes([]) + names)))
    ensures SkipStrings(payload, 4).Ok? && payload[SkipStrings(payload, 4).value..] == names
  {
    hide WriteBytes, ReadBytes;
    var def, none := WriteBytes(DEF_WORD), WriteBytes([]);
    assert payload[0..] == payload;
    SkipOneMore(payload, 1, 0, DEF_WORD, none + (none + (none + names)));
    SkipOneMore(payload, 2, |def|, [], none + (none + names));
    SkipOneMore(payload, 3, |def| + |none|, [], none + names);
    SkipOneMore(payload, 4, |def| + |none| + |none|, [], names);
  }

  lemma NameAndTypeBack(c: ColumnDef)
    requires FitsLength(c.name)
    ensures ReadNameAndType(WriteBytes(c.name) + (WriteBytes(c.name) + FixedFields(c.wireType))) == Ok(c)
  {
    hide WriteBytes, ReadBytes, FixedFields;
    var name, fields := WriteBytes(c.name), FixedFields(c.wireType);
    BytesRoundTrip(c.name, name + fields);
    BytesRoundTrip(c.name, fields);
    assert (name + (name + fields))[|name|..] == name + fields;
    assert (name + fields)[|name|..] == fields;
  }

  /** A column definition reads back as the column it describes. */
  lemma ColumnReadBack(c: ColumnDef)
    requires ColumnPayload(c).Ok?
    ensures ReadColumnDef(ColumnPayload(c).value) == Ok(c)
  {
    hide WriteBytes, FixedFields, SkipStrings, ReadNameAndType;
    SkipToNames(ColumnPayload(c).value, WriteBytes(c.name) + (WriteBytes(c.name) + FixedFields(c.wireType)));
    NameAndTypeBack(c);
  }

  // ---- every payload fits a packet ----

  predicate AllFit(payloads: seq<seq<byte>>) {
    forall i :: 0 <= i < |payloads| ==> |payloads[i]| <= MAX_PAYLOAD
  }

  lemma {:induction false} ColumnsFit(columns: seq<ColumnDef>)
    requires ColumnPayloads(columns).Ok?
    ensures AllFit(ColumnPayloads(columns).value)
    decreases |columns|
  {
    hide ColumnPayload;
    if columns != [] {
      ColumnsFit(columns[..|columns| - 1]);
    }
  }

  lemma PayloadsFit(rs: ResultSet, deprecateEof: bool, status: u16, encode: RowEncoder,
                    read: seq<byte> -> Result<seq<Cell>>)
    requires Countable(rs) && Payloads(rs, deprecateEof, status, encode).Ok?
    requires forall k :: 0 <= k < |rs.rows| ==> Undoes(read, encode, rs.rows[k])
    ensures AllFit(Payloads(rs, deprecateEof, status, encode).value)
  {
    hide ColumnPayloads, RowPayloads, Undoes, LeBytes;
    ColumnsFit(rs.columns);
    var rows := RowPayloads(rs.rows, encode).value;
    forall i | 0 <= i < |rows|
      ensures |rows[i]| <= MAX_PAYLOAD
    {
      RowPayloadAt(rs.rows, encode, i);
      UndoneFits(read, encode, rs.rows[i]);
    }
  }

  lemma UndoneFits(read: seq<byte> -> Result<seq<Cell>>, encode: RowEncoder, cells: seq<Cell>)
    requires Undoes(read, encode, cells) && encode(cells).Ok?
    ensures |encode(cells).value| <= MAX_PAYLOAD
  {}

  /** The bytes of a result set, followed by anything, hold exactly its packets with
      their sequence ids, and then what follows. */
  lemma PacketsReadBack(rs: ResultSet, types: seq<WireType>, deprecateEof: bool, status: u16, start: byte, binary: bool,
                        rest: seq<byte>)
    requires Countable(rs) && forall k :: 0 <= k < |rs.rows| ==> RowFits(rs.rows[k], types)
    requires Payloads(rs, deprecateEof, status, if binary then BinaryEncoder else TextEncoder).Ok?
    ensures var payloads := Payloads(rs, deprecateEof, status, if binary then BinaryEncoder else TextEncoder).value;
      TakeMany(EncodeAll(Numbered(payloads, start)) + rest, |payloads|, MAX_PAYLOAD) == Ok((Numbered(payloads, start), rest))
  {
    hide Payloads, RowFits, TextEncoder, BinaryEncoder, TextReader, ReadBinaryRow, EncodeAll, TakeMany, Undoes;
    var encode: RowEncoder := if binary then BinaryEncoder else TextEncoder;
    var read := if binary then payload => ReadBinaryRow(payload, types) else payload => TextReader(types, payload);
    forall k | 0 <= k < |rs.rows|
      ensures Undoes(read, encode, rs.rows[k])
    {
      if binary {
        BinaryUndone(rs.rows[k], types);
      } else {
        TextUndone(rs.rows[k], types);
      }
    }
    PayloadsFit(rs, deprecateEof, status, encode, read);
    var payloads := Payloads(rs, deprecateEof, status, encode).value;
    StreamRecovers(Numbered(payloads, start), rest, MAX_PAYLOAD);
  }
}
