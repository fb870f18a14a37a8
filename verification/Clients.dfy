/** A client that reads a result set off its connection: the column count, that many
    column definitions, an EOF where the protocol still has one, and rows until the
    terminator, from a stream that arrives in chunks. */
module Clients {
  import opened Basics
  import opened Wire
  import opened ResultSets
  import opened Framing

  function TypesOf(columns: seq<ColumnDef>): (types: seq<WireType>)
    ensures |types| == |columns|
  {
    seq(|columns|, i requires 0 <= i < |columns| => columns[i].wireType)
  }

  function ReadRow(types: seq<WireType>, binary: bool, payload: seq<byte>): Result<seq<Cell>> {
    if binary then ReadBinaryRow(payload, types) else TextReader(types, payload)
  }

  function Encoder(binary: bool): RowEncoder {
    if binary then BinaryEncoder else TextEncoder
  }

  // ---- what the bytes say ----

  lemma TakeShrinks(bytes: seq<byte>, max: nat)
    requires TakePacket(bytes, max).Ok?
    ensures |TakePacket(bytes, max).value.1| < |bytes|
  {}

  function TakeCount(bytes: seq<byte>, max: nat): Result<(nat, seq<byte>)> {
    var p :- TakePacket(bytes, max);
    var count :- ReadInt(p.0.payload);
    if count.1 != |p.0.payload| then Err(Protocol) else Ok((count.0, p.1))
  }

  function TakeColumns(bytes: seq<byte>, n: nat, max: nat): (r: Result<(seq<ColumnDef>, seq<byte>)>)
    ensures r.Ok? ==> |r.value.0| == n
  {
    if n == 0 then Ok(([], bytes))
    else
      var front :- TakeColumns(bytes, n - 1, max);
      var p :- TakePacket(front.1, max);
      var column :- ReadColumnDef(p.0.payload);
      Ok((front.0 + [column], p.1))
  }

  function TakeEof(bytes: seq<byte>, deprecateEof: bool, max: nat): Result<seq<byte>> {
    if deprecateEof then Ok(bytes)
    else
      var p :- TakePacket(bytes, max);
      if IsTerminator(p.0.payload) then Ok(p.1) else Err(Protocol)
  }

  function TakeRows(bytes: seq<byte>, types: seq<WireType>, binary: bool, max: nat): Result<(seq<seq<Cell>>, seq<byte>)>
    decreases |bytes|
  {
    var p :- TakePacket(bytes, max);
    if IsTerminator(p.0.payload) then Ok(([], p.1))
    else
      var row :- ReadRow(types, binary, p.0.payload);
      TakeShrinks(bytes, max);
      var rest :- TakeRows(p.1, types, binary, max);
      Ok(([row] + rest.0, rest.1))
  }

  /** The result set at the front of a stream, and what is left of the stream. */
  function TakeResult(bytes: seq<byte>, deprecateEof: bool, binary: bool, max: nat): Result<(ResultSet, seq<byte>)> {
    var count :- TakeCount(bytes, max);
    var columns :- TakeColumns(count.1, count.0, max);
    var body :- TakeEof(columns.1, deprecateEof, max);
    var rows :- TakeRows(body, TypesOf(columns.0), binary, max);
    Ok((ResultSet(columns.0, rows.0), rows.1))
  }

  // ---- reading it chunk by chunk ----

  lemma {:induction false} TakeColumnsFails(bytes: seq<byte>, m: nat, n: nat, max: nat)
    requires m <= n && TakeColumns(bytes, m, max).Err?
    ensures TakeColumns(bytes, n, max) == Err(TakeColumns(bytes, m, max).error)
    decreases n
  {
    hide TakePacket, ReadColumnDef;
    if m < n {
      TakeColumnsFails(bytes, m, n - 1, max);
    }
  }

  method ReadColumns(reader: PacketReader, n: nat) returns (r: Result<seq<ColumnDef>>)
    requires reader.Valid()
    modifies reader
    ensures reader.Valid()
    ensures match TakeColumns(old(reader.Pending()), n, reader.maxAllowed)
      case Ok(c) => r == Ok(c.0) && reader.Pending() == c.1
      case Err(e) => r == Err(e)
  {
    hide TakePacket, ReadColumnDef;
    var columns: seq<ColumnDef> := [];
    ghost var all := reader.Pending();
    for i := 0 to n
      invariant reader.Valid() && TakeColumns(all, i, reader.maxAllowed) == Ok((columns, reader.Pending()))
    {
      var p := reader.ReadPacket();
      if p.Err? {
        TakeColumnsFails(all, i + 1, n, reader.maxAllowed);
        return Err(p.error);
      }
      var column := ReadColumnDef(p.value.payload);
      if column.Err? {
        TakeColumnsFails(all, i + 1, n, reader.maxAllowed);
        return Err(column.error);
      }
      columns := columns + [column.value];
    }
    r := Ok(columns);
  }

  function WithRows(rows: seq<seq<Cell>>, r: Result<(seq<seq<Cell>>, seq<byte>)>): Result<(seq<seq<Cell>>, seq<byte>)> {
    match r
    case Ok(v) => Ok((rows + v.0, v.1))
    case Err(e) => Err(e)
  }

  lemma WithNone(r: Result<(seq<seq<Cell>>, seq<byte>)>)
    ensures WithRows([], r) == r
  {
    if r.Ok? {
      assert [] + r.value.0 == r.value.0;
    }
  }

  lemma WithOneMore(rows: seq<seq<Cell>>, row: seq<Cell>, r: Result<(seq<seq<Cell>>, seq<byte>)>)
    ensures WithRows(rows, WithRows([row], r)) == WithRows(rows + [row], r)
  {
    if r.Ok? {
      assert rows + ([row] + r.value.0) == rows + [row] + r.value.0;
    }
  }

  method ReadRows(reader: PacketReader, types: seq<WireType>, binary: bool) returns (r: Result<seq<seq<Cell>>>)
    requires reader.Valid()
    modifies reader
    ensures reader.Valid()
    ensures match TakeRows(old(reader.Pending()), types, binary, reader.maxAllowed)
      case Ok(rows) => r == Ok(rows.0) && reader.Pending() == rows.1
      case Err(e) => r == Err(e)
  {
    hide TakePacket, ReadRow, IsTerminator;
    var rows: seq<seq<Cell>> := [];
    ghost var outcome := TakeRows(reader.Pending(), types, binary, reader.maxAllowed);
    WithNone(outcome);
    while true
      invariant reader.Valid()
      invariant outcome == WithRows(rows, TakeRows(reader.Pending(), types, binary, reader.maxAllowed))
      decreases |reader.Pending()|
    {
      ghost var here := reader.Pending();
      var p := reader.ReadPacket();
      if p.Err? {
        return Err(p.error);
      }
      TakeShrinks(here, reader.maxAllowed);
      if IsTerminator(p.value.payload) {
        assert rows + [] == rows;
        return Ok(rows);
      }
      var row := ReadRow(types, binary, p.value.payload);
      if row.Err? {
        return Err(row.error);
      }
      WithOneMore(rows, row.value, TakeRows(reader.Pending(), types, binary, reader.maxAllowed));
      rows := rows + [row.value];
    }
  }

  /** Read one result set; what it is depends on the bytes alone, not on the chunks. */
  method ReadResult(reader: PacketReader, deprecateEof: bool, binary: bool) returns (r: Result<ResultSet>)
    requires reader.Valid()
    modifies reader
    ensures reader.Valid()
    ensures match TakeResult(old(reader.Pending()), deprecateEof, binary, reader.maxAllowed)
      case Ok(rs) => r == Ok(rs.0) && reader.Pending() == rs.1
      case Err(e) => r == Err(e)
  {
    hide TakePacket, TakeColumns, TakeRows, ReadInt, IsTerminator;
    var first := reader.ReadPacket();
    if first.Err? {
      return Err(first.error);
    }
    var count := ReadInt(first.value.payload);
    if count.Err? {
      return Err(count.error);
    }
    if count.value.1 != |first.value.payload| {
      return Err(Protocol);
    }
    var columns := ReadColumns(reader, count.value.0);
    if columns.Err? {
      return Err(columns.error);
    }
    if !deprecateEof {
      var eof := reader.ReadPacket();
      if eof.Err? {
        return Err(eof.error);
      }
      if !IsTerminator(eof.value.payload) {
        return Err(Protocol);
      }
    }
    var rows := ReadRows(reader, TypesOf(columns.value), binary);
    if rows.Err? {
      return Err(rows.error);
    }
    r := Ok(ResultSet(columns.value, rows.value));
  }

  // ---- a result set comes back whole ----

  /** The bytes of payloads whose packets are numbered from `start`. */
  function Sent(payloads: seq<seq<byte>>, start: byte): seq<byte> {
    EncodeAll(Numbered(payloads, start))
  }

  lemma SentTwo(a: seq<seq<byte>>, b: seq<seq<byte>>, start: byte)
    ensures Sent(a + b, start) == Sent(a, start) + Sent(b, (start + |a|) % 256)
  {
    hide EncodeAll, Numbered;
    NumberedTwo(a, b, start);
    EncodeAllAppend(Numbered(a, start), Numbered(b, (start + |a|) % 256));
  }

  lemma NumberedTwo(a: seq<seq<byte>>, b: seq<seq<byte>>, start: byte)
    ensures Numbered(a + b, start) == Numbered(a, start) + Numbered(b, (start + |a|) % 256)
  {
    hide Numbered;
    var next: byte := (start + |a|) % 256;
    var all, two := Numbered(a + b, start), Numbered(a, start) + Numbered(b, next);
    forall i | 0 <= i < |all|
      ensures all[i] == two[i]
    {
      if i >= |a| {
        Wraps(start + |a|, i - |a|);
        assert two[i] == Packet((next + (i - |a|)) % 256, b[i - |a|]);
      }
    }
  }

  lemma Wraps(x: nat, i: nat)
    ensures (x % 256 + i) % 256 == (x + i) % 256
  {
    assert x == 256 * (x / 256) + x % 256;
    assert x + i == 256 * (x / 256) + (x % 256 + i);
  }

  lemma SentOne(payload: seq<byte>, start: byte)
    ensures Sent([payload], start) == Encode(Packet(start, payload))
  {
    hide Encode;
    var ps := Numbered([payload], start);
    assert ps == [Packet(start, payload)] && ps[..0] == [];
    assert EncodeAll(ps) == [] + Encode(ps[0]);
  }

  /** One more packet of a stream. */
  lemma TakeSent(payload: seq<byte>, start: byte, rest: seq<byte>, max: nat)
    requires |payload| <= MAX_PAYLOAD <= max
    ensures TakePacket(Sent([payload], start) + rest, max) == Ok((Packet(start, payload), rest))
  {
    hide Encode, TakePacket, Sent;
    SentOne(payload, start);
    TakeEncoded(Packet(start, payload), rest, max);
  }

  lemma {:induction false} ColumnsBack(columns: seq<ColumnDef>, start: byte, rest: seq<byte>, max: nat)
    requires ColumnPayloads(columns).Ok? && MAX_PAYLOAD <= max
    ensures TakeColumns(Sent(ColumnPayloads(columns).value, start) + rest, |columns|, max) == Ok((columns, rest))
    decreases |columns|
  {
    hide Sent, TakePacket, ReadColumnDef, ColumnPayload;
    if columns == [] {
      assert Sent([], start) + rest == rest by { SentNone(start); }
    } else {
      var n := |columns| - 1;
      var front, last := ColumnPayloads(columns[..n]).value, ColumnPayload(columns[n]).value;
      var next: byte := (start + n) % 256;
      SentTwo(front, [last], start);
      ColumnsBack(columns[..n], start, Sent([last], next) + rest, max);
      assert Sent(front + [last], start) + rest == Sent(front, start) + (Sent([last], next) + rest);
      TakeSent(last, next, rest, max);
      ColumnReadBack(columns[n]);
      assert columns[..n] + [columns[n]] == columns;
    }
  }

  lemma SentNone(start: byte)
    ensures Sent([], start) == []
  {
    assert Numbered([], start) == [];
  }

  /** Every row's payload is a row's, and reads back under the column types. */
  ghost predicate RowsBack(rows: seq<seq<Cell>>, payloads: seq<seq<byte>>, types: seq<WireType>, binary: bool) {
    && |rows| == |payloads|
    && forall k :: 0 <= k < |rows| ==>
         && |payloads[k]| <= MAX_PAYLOAD && !IsTerminator(payloads[k])
         && ReadRow(types, binary, payloads[k]) == Ok(rows[k])
  }

  lemma {:induction false} RowsTaken(rows: seq<seq<Cell>>, payloads: seq<seq<byte>>, last: seq<byte>, start: byte,
                                     rest: seq<byte>, types: seq<WireType>, binary: bool, max: nat)
    requires RowsBack(rows, payloads, types, binary) && IsTerminator(last) && MAX_PAYLOAD <= max
    ensures TakeRows(Sent(payloads + [last], start) + rest, types, binary, max) == Ok((rows, rest))
    decreases |rows|
  {
    hide Sent, TakePacket, ReadRow;
    if rows == [] {
      assert payloads + [last] == [last];
      TakeSent(last, start, rest, max);
    } else {
      var next: byte := (start + 1) % 256;
      var more := payloads[1..] + [last];
      assert payloads + [last] == [payloads[0]] + more;
      SentTwo([payloads[0]], more, start);
      assert Sent(payloads + [last], start) + rest == Sent([payloads[0]], start) + (Sent(more, next) + rest);
      TakeSent(payloads[0], start, Sent(more, next) + rest, max);
      RowsTaken(rows[1..], payloads[1..], last, next, rest, types, binary, max);
      assert [rows[0]] + rows[1..] == rows;
    }
  }

  lemma RowsEncoded(rows: seq<seq<Cell>>, types: seq<WireType>, binary: bool)
    requires forall k :: 0 <= k < |rows| ==> RowFits(rows[k], types)
    requires RowPayloads(rows, Encoder(binary)).Ok?
    ensures RowsBack(rows, RowPayloads(rows, Encoder(binary)).value, types, binary)
  {
    hide RowFits, RowPayloads, TextEncoder, BinaryEncoder, TextReader, ReadBinaryRow, IsTerminator;
    forall k | 0 <= k < |rows|
      ensures var p := RowPayloads(rows, Encoder(binary)).value[k];
        |p| <= MAX_PAYLOAD && !IsTerminator(p) && ReadRow(types, binary, p) == Ok(rows[k])
    {
      RowPayloadAt(rows, Encoder(binary), k);
      if binary {
        BinaryUndone(rows[k], types);
      } else {
        TextUndone(rows[k], types);
      }
    }
  }

  lemma CountBack(n: nat, start: byte, rest: seq<byte>, max: nat)
    requires n <= U64_MAX && MAX_PAYLOAD <= max
    ensures TakeCount(Sent([WriteInt(n)], start) + rest, max) == Ok((n, rest))
  {
    hide Sent, TakePacket, ReadInt;
    IntRoundTrip(n, []);
    assert WriteInt(n) + [] == WriteInt(n);
    TakeSent(WriteInt(n), start, rest, max);
  }

  lemma EofBack(status: u16, deprecateEof: bool, start: byte, rest: seq<byte>, max: nat)
    requires MAX_PAYLOAD <= max
    ensures TakeEof(Sent(if deprecateEof then [] else [EofPayload(status)], start) + rest, deprecateEof, max) == Ok(rest)
  {
    hide Sent, TakePacket, EofPayload, IsTerminator;
    if deprecateEof {
      SentNone(start);
      assert [] + rest == rest;
    } else {
      TerminatorEnds(false, status);
      assert |EofPayload(status)| <= MAX_PAYLOAD by { EofShort(status); }
      TakeSent(EofPayload(status), start, rest, max);
    }
  }

  lemma EofShort(status: u16)
    ensures |EofPayload(status)| == 5 && EofPayload(status) == Terminator(false, status)
  {}

  /** End to end: in text or binary form, with or without the intermediate EOF, however
      the stream is cut into chunks and whatever follows, the client gets back exactly
      the columns and the rows, and has consumed exactly the bytes of the result set. */
  lemma ResultReadBack(rs: ResultSet, deprecateEof: bool, status: u16, start: byte, binary: bool, rest: seq<byte>, max: nat)
    requires Countable(rs) && MAX_PAYLOAD <= max
    requires forall k :: 0 <= k < |rs.rows| ==> RowFits(rs.rows[k], TypesOf(rs.columns))
    requires Payloads(rs, deprecateEof, status, Encoder(binary)).Ok?
    ensures var payloads := Payloads(rs, deprecateEof, status, Encoder(binary)).value;
      TakeResult(EncodeAll(Numbered(payloads, start)) + rest, deprecateEof, binary, max) == Ok((rs, rest))
  {
    hide RowFits, Sent, TakeCount, TakeColumns, TakeEof, TakeRows, WriteInt, EofPayload, Terminator, TypesOf, ColumnPayloads,
         RowPayloads, EncodeAll, IsTerminator, Encoder;
    var n := |rs.columns|;
    var count, columns := [WriteInt(n)], ColumnPayloads(rs.columns).value;
    var eof := if deprecateEof then [] else [EofPayload(status)];
    var rows := RowPayloads(rs.rows, Encoder(binary)).value;
    var last := Terminator(deprecateEof, status);
    var payloads := Payloads(rs, deprecateEof, status, Encoder(binary)).value;
    assert payloads == count + (columns + (eof + (rows + [last])));
    var at1: byte := (start + 1) % 256;
    var at2: byte := (at1 + |columns|) % 256;
    var at3: byte := (at2 + |eof|) % 256;
    SentTwo(count, columns + (eof + (rows + [last])), start);
    SentTwo(columns, eof + (rows + [last]), at1);
    SentTwo(eof, rows + [last], at2);
    var d := Sent(rows + [last], at3) + rest;
    var c := Sent(eof, at2) + d;
    var b := Sent(columns, at1) + c;
    assert Sent(payloads, start) + rest == Sent(count, start) + b;
    CountBack(n, start, b, max);
    ColumnsBack(rs.columns, at1, c, max);
    EofBack(status, deprecateEof, at2, d, max);
    RowsEncoded(rs.rows, TypesOf(rs.columns), binary);
    TerminatorEnds(deprecateEof, status);
    RowsTaken(rs.rows, rows, last, at3, rest, TypesOf(rs.columns), binary, max);
    assert EncodeAll(Numbered(payloads, start)) == Sent(payloads, start) by { SentIs(payloads, start); }
  }

  lemma SentIs(payloads: seq<seq<byte>>, start: byte)
    ensures Sent(payloads, start) == EncodeAll(Numbered(payloads, start))
  {}

  /** So a connection with the bytes of a result set ahead of it, in whatever chunks they
      come, delivers that result set and stands right behind it. */
  method ReceiveResult(reader: PacketReader, deprecateEof: bool, binary: bool,
                       ghost rs: ResultSet, ghost status: u16, ghost start: byte, ghost rest: seq<byte>)
    returns (r: Result<ResultSet>)
    requires reader.Valid() && MAX_PAYLOAD <= reader.maxAllowed && Countable(rs)
    requires forall k :: 0 <= k < |rs.rows| ==> RowFits(rs.rows[k], TypesOf(rs.columns))
    requires Payloads(rs, deprecateEof, status, Encoder(binary)).Ok?
    requires reader.Pending()
          == EncodeAll(Numbered(Payloads(rs, deprecateEof, status, Encoder(binary)).value, start)) + rest
    modifies reader
    ensures reader.Valid() && r == Ok(rs) && reader.Pending() == rest
  {
    hide RowFits, Payloads, TakeResult, EncodeAll;
    ResultReadBack(rs, deprecateEof, status, start, binary, rest, reader.maxAllowed);
    r := ReadResult(reader, deprecateEof, binary);
  }
}
