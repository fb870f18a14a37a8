/** Result sets on the wire: rows in text and binary form, the packets around them, and
    decoders that get every cell back. */
module ResultSets {
  import opened Basics
  import opened Wire
  import DecimalText

  datatype Cell = CInt(n: i64) | CText(text: Text) | CNull

  datatype WireType = LongLong | VarString

  /** A cell as its column's type requires it. */
  predicate CellFits(c: Cell, t: WireType) {
    match c
    case CInt(_) => t == LongLong
    case CText(s) => t == VarString && FitsLength(s)
    case CNull => true
  }

  predicate RowFits(cells: seq<Cell>, types: seq<WireType>) {
    |cells| == |types| && forall i :: 0 <= i < |cells| ==> CellFits(cells[i], types[i])
  }

  // ---- text rows ----

  const NULL_MARKER: byte := 0xfb

  function CellText(c: Cell): Option<Text> {
    match c
    case CInt(n) => Some(DecimalText.FormatInt(n))
    case CText(s) => Some(s)
    case CNull => None
  }

  predicate Sendable(c: Cell) {
    CellText(c).Some? ==> FitsLength(CellText(c).value)
  }

  function TextCell(c: Cell): (bs: seq<byte>)
    requires Sendable(c)
    ensures |bs| > 0
  {
    match CellText(c)
    case Some(s) => WriteBytes(s)
    case None => [NULL_MARKER]
  }

  function TextCells(cells: seq<Cell>): seq<byte>
    requires forall i :: 0 <= i < |cells| ==> Sendable(cells[i])
  {
    if cells == [] then [] else TextCells(cells[..|cells| - 1]) + TextCell(cells[|cells| - 1])
  }

  /** `encode_text_row`: the payload, if it fits one packet. */
  method EncodeTextRow(cells: seq<Cell>) returns (r: Result<seq<byte>>)
    requires forall i :: 0 <= i < |cells| ==> Sendable(cells[i])
    ensures r == if |TextCells(cells)| <= MAX_PAYLOAD then Ok(TextCells(cells)) else Err(Protocol)
  {
    hide Sendable;
    var payload: seq<byte> := [];
    for i := 0 to |cells|
      invariant payload == TextCells(cells[..i])
    {
      assert cells[..i + 1][..i] == cells[..i];
      payload := payload + TextCell(cells[i]);
    }
    assert cells[..|cells|] == cells;
    if |payload| > MAX_PAYLOAD {
      return Err(Protocol);
    }
    r := Ok(payload);
  }

  function ReadTextCell(buf: seq<byte>, t: WireType): Result<(Cell, nat)> {
    if buf != [] && buf[0] == NULL_MARKER then Ok((CNull, 1))
    else
      var s :- ReadBytes(buf);
      if t == VarString then Ok((CText(s.0), s.1))
      else
        match DecimalText.ParseInt(s.0)
        case Some(n) => Ok((CInt(n), s.1))
        case None => Err(Protocol)
  }

  /** A client's reading of the first `n` cells of a text row, and where they end. */
  function ReadTextCells(buf: seq<byte>, types: seq<WireType>, n: nat): Result<(seq<Cell>, nat)>
    requires n <= |types|
  {
    if n == 0 then Ok(([], 0))
    else
      var front :- ReadTextCells(buf, types, n - 1);
      if front.1 > |buf| then Err(Protocol)
      else
        var last :- ReadTextCell(buf[front.1..], types[n - 1]);
        Ok((front.0 + [last.0], front.1 + last.1))
  }

  lemma TextCellRoundTrip(c: Cell, t: WireType, rest: seq<byte>)
    requires CellFits(c, t) && Sendable(c)
    ensures ReadTextCell(TextCell(c) + rest, t) == Ok((c, |TextCell(c)|))
  {
    hide ReadBytes, DecimalText.ParseInt, DecimalText.FormatInt, WriteInt;
    if !c.CNull? {
      var s := CellText(c).value;
      BytesRoundTrip(s, rest);
      FirstByte(|s|);
      assert (WriteBytes(s) + rest)[0] == WriteInt(|s|)[0];
      if c.CInt? {
        DecimalText.IntRoundTrip(c.n);
      }
    }
  }

  lemma {:induction false} TextCellsRoundTrip(cells: seq<Cell>, types: seq<WireType>, n: nat, rest: seq<byte>)
    requires n <= |cells| && RowFits(cells, types) && forall i :: 0 <= i < |cells| ==> Sendable(cells[i])
    ensures ReadTextCells(TextCells(cells[..n]) + rest, types, n) == Ok((cells[..n], |TextCells(cells[..n])|))
    decreases n
  {
    hide TextCell, ReadTextCell, CellFits, Sendable;
    if n > 0 {
      var front, bytes := TextCells(cells[..n - 1]), TextCell(cells[n - 1]);
      assert cells[..n][..n - 1] == cells[..n - 1];
      assert front + bytes + rest == front + (bytes + rest);
      TextCellsRoundTrip(cells, types, n - 1, bytes + rest);
      assert (front + (bytes + rest))[|front|..] == bytes + rest;
      TextCellRoundTrip(cells[n - 1], types[n - 1], rest);
      assert cells[..n - 1] + [cells[n - 1]] == cells[..n];
    }
  }

  /** Every accepted text row reads back cell by cell. */
  lemma TextRowRoundTrip(cells: seq<Cell>, types: seq<WireType>)
    requires RowFits(cells, types) && forall i :: 0 <= i < |cells| ==> Sendable(cells[i])
    ensures ReadTextCells(TextCells(cells), types, |cells|) == Ok((cells, |TextCells(cells)|))
  {
    TextCellsRoundTrip(cells, types, |cells|, []);
    assert cells[..|cells|] == cells;
    assert TextCells(cells) + [] == TextCells(cells);
  }

  /** An accepted text row never begins like a terminator or an error packet. */
  lemma {:induction false} TextRowStart(cells: seq<Cell>)
    requires forall i :: 0 <= i < |cells| ==> Sendable(cells[i])
    requires cells != [] && |TextCells(cells)| <= MAX_PAYLOAD
    ensures TextCells(cells) != [] && TextCells(cells)[0] != 0xfe && TextCells(cells)[0] != 0xff
    decreases |cells|
  {
    hide WriteInt, Sendable;
    var n := |cells| - 1;
    if n == 0 {
      assert TextCells(cells[..0]) == [];
      assert TextCells(cells) == TextCell(cells[0]);
      if CellText(cells[0]).Some? {
        var s := CellText(cells[0]).value;
        FirstByte(|s|);
        assert TextCell(cells[0])[0] == WriteInt(|s|)[0];
      }
    } else {
      TextRowStart(cells[..n]);
      assert TextCells(cells)[0] == TextCells(cells[..n])[0];
    }
  }

  // ---- the NULL bitmap ----

  predicate Bit(b: nat, k: nat) {
    if k == 0 then b % 2 == 1 else Bit(b / 2, k - 1)
  }

  /** `b | 1 << k`. */
  function SetBit(b: nat, k: nat): nat {
    if k == 0 then b / 2 * 2 + 1 else 2 * SetBit(b / 2, k - 1) + b % 2
  }

  lemma {:induction false} SetBitSets(b: nat, k: nat, j: nat)
    ensures Bit(SetBit(b, k), j) <==> j == k || Bit(b, j)
    decreases k
  {
    if k > 0 {
      assert SetBit(b, k) / 2 == SetBit(b / 2, k - 1) && SetBit(b, k) % 2 == b % 2;
      if j > 0 {
        SetBitSets(b / 2, k - 1, j - 1);
      }
    } else if j > 0 {
      assert SetBit(b, 0) / 2 == b / 2;
    }
  }

  lemma {:induction false} SetBitBounded(b: nat, k: nat, m: nat)
    requires k < m && b < Pow2(m)
    ensures SetBit(b, k) < Pow2(m)
    decreases k
  {
    if k > 0 {
      SetBitBounded(b / 2, k - 1, m - 1);
    }
  }

  /** Setting one bit of a byte leaves a byte with one more bit. */
  lemma ByteWithBit(b: byte, k: nat)
    requires k < 8
    ensures SetBit(b, k) < 256
    ensures forall j :: 0 <= j < 8 ==> (Bit(SetBit(b, k), j) <==> j == k || Bit(b, j))
  {
    hide SetBit, Bit;
    Pow2Values();
    SetBitBounded(b, k, 8);
    forall j | 0 <= j < 8
      ensures Bit(SetBit(b, k), j) <==> j == k || Bit(b, j)
    {
      SetBitSets(b, k, j);
    }
  }

  predicate BitAt(bitmap: seq<byte>, i: nat)
    requires i / 8 < |bitmap|
  {
    Bit(bitmap[i / 8], i % 8)
  }

  function BitmapLength(n: nat): nat {
    (n + 2 + 7) / 8
  }

  /** Bit `i + 2` is set exactly for the NULL cells; all other bits are clear. */
  predicate MarksNulls(bitmap: seq<byte>, cells: seq<Cell>) {
    && |bitmap| == BitmapLength(|cells|)
    && forall i :: 0 <= i < 8 * |bitmap| ==>
         (BitAt(bitmap, i) <==> 2 <= i < |cells| + 2 && cells[i - 2].CNull?)
  }

  /** The bitmap after the first `n` cells. */
  function BitmapOf(cells: seq<Cell>, n: nat): (r: seq<byte>)
    requires n <= |cells|
    ensures |r| == BitmapLength(|cells|)
  {
    if n == 0 then seq(BitmapLength(|cells|), i => 0)
    else
      var b, at, k := BitmapOf(cells, n - 1), (n + 1) / 8, (n + 1) % 8;
      if cells[n - 1].CNull? then
        ByteWithBit(b[at], k);
        b[at := SetBit(b[at], k)]
      else b
  }

  lemma {:induction false} BitmapBits(cells: seq<Cell>, n: nat, i: nat)
    requires n <= |cells| && i < 8 * BitmapLength(|cells|)
    ensures BitAt(BitmapOf(cells, n), i) <==> 2 <= i < n + 2 && cells[i - 2].CNull?
  {
    hide Bit, SetBit;
    if n == 0 {
      NoBits();
    } else {
      BitmapBits(cells, n - 1, i);
      if cells[n - 1].CNull? {
        var b := BitmapOf(cells, n - 1);
        ByteWithBit(b[(n + 1) / 8], (n + 1) % 8);
      }
    }
  }

  lemma BitmapMarks(cells: seq<Cell>)
    ensures MarksNulls(BitmapOf(cells, |cells|), cells)
  {
    hide BitmapOf, BitAt;
    forall i | 0 <= i < 8 * BitmapLength(|cells|)
      ensures BitAt(BitmapOf(cells, |cells|), i) <==> 2 <= i < |cells| + 2 && cells[i - 2].CNull?
    {
      BitmapBits(cells, |cells|, i);
    }
  }

  /** The bitmap, filled in place. */
  method BuildBitmap(cells: seq<Cell>) returns (bitmap: seq<byte>)
    ensures bitmap == BitmapOf(cells, |cells|)
  {
    hide Bit, SetBit;
    var bits := new byte[BitmapLength(|cells|)](i => 0);
    for n := 0 to |cells|
      invariant bits[..] == BitmapOf(cells, n)
    {
      if cells[n].CNull? {
        var at, k := (n + 2) / 8, (n + 2) % 8;
        ByteWithBit(bits[at], k);
        bits[at] := SetBit(bits[at], k);
      }
    }
    bitmap := bits[..];
  }

  lemma {:induction false} ZeroBit(k: nat)
    ensures !Bit(0, k)
  {
    if k > 0 {
      ZeroBit(k - 1);
    }
  }

  lemma NoBits()
    ensures forall k :: 0 <= k < 8 ==> !Bit(0, k)
  {
    forall k | 0 <= k < 8
      ensures !Bit(0, k)
    {
      ZeroBit(k);
    }
  }

  // ---- binary rows ----

  function BinaryCell(c: Cell): seq<byte>
    requires Sendable(c)
  {
    match c
    case CNull => []
    case CInt(n) => I64Bytes(n)
    case CText(s) => WriteBytes(s)
  }

  function BinaryCells(cells: seq<Cell>): seq<byte>
    requires forall i :: 0 <= i < |cells| ==> Sendable(cells[i])
  {
    if cells == [] then [] else BinaryCells(cells[..|cells| - 1]) + BinaryCell(cells[|cells| - 1])
  }

  /** The binary form of a row: a zero byte, the bitmap, the values that are not NULL. */
  function BinaryRow(cells: seq<Cell>): seq<byte>
    requires forall i :: 0 <= i < |cells| ==> Sendable(cells[i])
  {
    [0] + BitmapOf(cells, |cells|) + BinaryCells(cells)
  }

  method AppendCells(start: seq<byte>, cells: seq<Cell>) returns (payload: seq<byte>)
    requires forall i :: 0 <= i < |cells| ==> Sendable(cells[i])
    ensures payload == start + BinaryCells(cells)
  {
    hide Sendable, BinaryCell;
    payload := start;
    for i := 0 to |cells|
      invariant payload == start + BinaryCells(cells[..i])
    {
      assert cells[..i + 1][..i] == cells[..i];
      payload := payload + BinaryCell(cells[i]);
    }
    assert cells[..|cells|] == cells;
  }

  /** `encode_binary_row`. */
  method EncodeBinaryRow(cells: seq<Cell>) returns (r: Result<seq<byte>>)
    requires forall i :: 0 <= i < |cells| ==> Sendable(cells[i])
    ensures r == if |BinaryRow(cells)| <= MAX_PAYLOAD then Ok(BinaryRow(cells)) else Err(Protocol)
  {
    hide Sendable, BitmapOf, BinaryCells;
    var bitmap := BuildBitmap(cells);
    var payload := AppendCells([0] + bitmap, cells);
    if |payload| > MAX_PAYLOAD {
      return Err(Protocol);
    }
    r := Ok(payload);
  }

  function ReadBinaryCell(buf: seq<byte>, t: WireType): Result<(Cell, nat)> {
    if t == LongLong then
      if |buf| < 8 then Err(Protocol) else Ok((CInt(I64OfBytes(buf[..8])), 8))
    else
      var s :- ReadBytes(buf);
      Ok((CText(s.0), s.1))
  }

  /** A client's reading of the first `n` cells behind the bitmap. */
  function ReadBinaryCells(bitmap: seq<byte>, buf: seq<byte>, types: seq<WireType>, n: nat): Result<(seq<Cell>, nat)>
    requires n <= |types| && |bitmap| == BitmapLength(|types|)
  {
    if n == 0 then Ok(([], 0))
    else
      var front :- ReadBinaryCells(bitmap, buf, types, n - 1);
      if BitAt(bitmap, n + 1) then Ok((front.0 + [CNull], front.1))
      else if front.1 > |buf| then Err(Protocol)
      else
        var last :- ReadBinaryCell(buf[front.1..], types[n - 1]);
        Ok((front.0 + [last.0], front.1 + last.1))
  }

  function ReadBinaryRow(payload: seq<byte>, types: seq<WireType>): Result<seq<Cell>> {
    var n := BitmapLength(|types|);
    if |payload| < 1 + n || payload[0] != 0 then Err(Protocol)
    else
      var cells :- ReadBinaryCells(payload[1..1 + n], payload[1 + n..], types, |types|);
      if cells.1 == |payload| - 1 - n then Ok(cells.0) else Err(Protocol)
  }

  lemma BinaryCellRoundTrip(c: Cell, t: WireType, rest: seq<byte>)
    requires CellFits(c, t) && Sendable(c) && !c.CNull?
    ensures ReadBinaryCell(BinaryCell(c) + rest, t) == Ok((c, |BinaryCell(c)|))
  {
    hide ReadBytes, WriteInt, I64OfBytes, I64Bytes;
    if c.CInt? {
      I64RoundTrip(c.n);
      assert (I64Bytes(c.n) + rest)[..8] == I64Bytes(c.n);
    } else {
      BytesRoundTrip(c.text, rest);
    }
  }

  lemma {:induction false} BinaryCellsRoundTrip(bitmap: seq<byte>, cells: seq<Cell>, types: seq<WireType>, n: nat, rest: seq<byte>)
    requires n <= |cells| && RowFits(cells, types) && MarksNulls(bitmap, cells)
    requires forall i :: 0 <= i < |cells| ==> Sendable(cells[i])
    ensures ReadBinaryCells(bitmap, BinaryCells(cells[..n]) + rest, types, n)
         == Ok((cells[..n], |BinaryCells(cells[..n])|))
    decreases n
  {
    hide BinaryCell, ReadBinaryCell, CellFits, Sendable, BitAt;
    if n > 0 {
      var front, bytes := BinaryCells(cells[..n - 1]), BinaryCell(cells[n - 1]);
      assert cells[..n][..n - 1] == cells[..n - 1];
      assert front + bytes + rest == front + (bytes + rest);
      BinaryCellsRoundTrip(bitmap, cells, types, n - 1, bytes + rest);
      assert (front + (bytes + rest))[|front|..] == bytes + rest;
      assert BitAt(bitmap, n + 1) <==> cells[n - 1].CNull?;
      if !cells[n - 1].CNull? {
        BinaryCellRoundTrip(cells[n - 1], types[n - 1], rest);
      } else {
        assert bytes == [] by { NullTakesNothing(cells[n - 1]); }
      }
      assert cells[..n - 1] + [cells[n - 1]] == cells[..n];
    }
  }

  lemma NullTakesNothing(c: Cell)
    requires c.CNull? && Sendable(c)
    ensures BinaryCell(c) == []
  {}

  /** Every binary row reads back cell by cell, and begins with a zero byte. */
  lemma BinaryRowRoundTrip(cells: seq<Cell>, types: seq<WireType>)
    requires RowFits(cells, types) && forall i :: 0 <= i < |cells| ==> Sendable(cells[i])
    ensures ReadBinaryRow(BinaryRow(cells), types) == Ok(cells) && BinaryRow(cells)[0] == 0
  {
    hide CellFits, Sendable, MarksNulls, BinaryCells, BitmapOf, ReadBinaryCells;
    var bitmap, values := BitmapOf(cells, |cells|), BinaryCells(cells);
    var n, payload := |bitmap|, BinaryRow(cells);
    assert payload[1..1 + n] == bitmap && payload[1 + n..] == values;
    BitmapMarks(cells);
    BinaryCellsRoundTrip(bitmap, cells, types, |cells|, []);
    assert cells[..|cells|] == cells;
    assert values + [] == values;
  }
}
