/** The MySQL wire format below result sets: length-encoded integers and strings, packets,
    and the loop that reassembles packets from whatever chunks a socket delivers. */
module Wire {
  import opened Basics

  const MAX_PAYLOAD := 0xFF_FFFF

  // ---- length-encoded integers ----

  /** `write_lenenc_int`. */
  function WriteInt(v: u64): (bs: seq<byte>)
    ensures 1 <= |bs| <= 9
  {
    if v < 0xfb then [v]
    else if v <= 0xFFFF then [0xfc] + LeBytes(v, 2)
    else if v <= 0xFF_FFFF then [0xfd] + LeBytes(v, 3)
    else [0xfe] + LeBytes(v, 8)
  }

  /** The little-endian number in `buf[1..1 + k]`. */
  function ReadTail(buf: seq<byte>, k: nat): Result<(nat, nat)> {
    if |buf| < 1 + k then Err(Protocol) else Ok((LeValue(buf[1..1 + k]), 1 + k))
  }

  /** `read_lenenc_int`: the value and the number of bytes it took. */
  function ReadInt(buf: seq<byte>): Result<(nat, nat)> {
    if buf == [] then Err(Protocol)
    else if buf[0] <= 0xfa then Ok((buf[0], 1))
    else if buf[0] == 0xfc then ReadTail(buf, 2)
    else if buf[0] == 0xfd then ReadTail(buf, 3)
    else if buf[0] == 0xfe then ReadTail(buf, 8)
    else Err(Protocol)
  }

  lemma TailRoundTrip(first: byte, v: nat, k: nat, rest: seq<byte>)
    requires v < Pow256(k)
    ensures ReadTail([first] + LeBytes(v, k) + rest, k) == Ok((v, 1 + k))
  {
    LeRoundTrip(v, k);
    assert ([first] + LeBytes(v, k) + rest)[1..1 + k] == LeBytes(v, k);
  }

  /** Reading undoes writing, whatever follows, and truncated input is refused. */
  lemma IntRoundTrip(v: u64, rest: seq<byte>)
    ensures ReadInt(WriteInt(v) + rest) == Ok((v, |WriteInt(v)|))
    ensures forall n :: 0 <= n < |WriteInt(v)| ==> ReadInt(WriteInt(v)[..n]).Err?
  {
    hide LeBytes, LeValue;
    Pow256Values();
    if v < 0xfb {
    } else if v <= 0xFFFF {
      TailRoundTrip(0xfc, v, 2, rest);
    } else if v <= 0xFF_FFFF {
      TailRoundTrip(0xfd, v, 3, rest);
    } else {
      TailRoundTrip(0xfe, v, 8, rest);
    }
  }

  /** The bytes of a length-encoded integer, as the protocol lays them out. */
  lemma IntLayout(v: u64)
    ensures var bs := WriteInt(v);
      && (v < 251 ==> bs == [v])
      && (251 <= v < 65536 ==> |bs| == 3 && bs[0] == 0xfc && bs[1] as int + 256 * (bs[2] as int) == v)
      && (65536 <= v < 16777216 ==> |bs| == 4 && bs[0] == 0xfd && bs[1] as int + 256 * (bs[2] as int) + 65536 * (bs[3] as int) == v)
      && (16777216 <= v ==> |bs| == 9 && bs[0] == 0xfe && LeValue(bs[1..]) == v)
  {
    Pow256Values();
    if 251 <= v < 65536 {
      assert LeBytes(v, 2) == [v % 256, (v / 256) % 256];
    } else if 65536 <= v < 16777216 {
      assert LeBytes(v, 3) == [v % 256, (v / 256) % 256, (v / 65536) % 256] by { ThreeBytes(v); }
    } else if 16777216 <= v {
      LeRoundTrip(v, 8);
    }
  }

  lemma ThreeBytes(v: nat)
    ensures LeBytes(v, 3) == [v % 256, (v / 256) % 256, (v / 65536) % 256]
  {
    assert v / 256 / 256 == v / 65536;
    assert LeBytes(v, 3) == [v % 256] + LeBytes(v / 256, 2);
    assert LeBytes(v / 256, 2) == [(v / 256) % 256] + LeBytes(v / 256 / 256, 1);
    assert LeBytes(v / 256 / 256, 1) == [(v / 65536) % 256] + LeBytes(v / 65536 / 256, 0);
  }

  /** What the first byte tells: it is never the NULL or the error marker, and it is 0xFE
      only for numbers beyond three bytes. */
  lemma FirstByte(v: u64)
    ensures WriteInt(v)[0] != 0xfb && WriteInt(v)[0] != 0xff
    ensures WriteInt(v)[0] == 0xfe <==> v > MAX_PAYLOAD
  {}

  // ---- length-encoded strings ----

  predicate FitsLength(bs: seq<byte>) {
    |bs| <= U64_MAX
  }

  function WriteBytes(bs: seq<byte>): (r: seq<byte>)
    requires FitsLength(bs)
    ensures |r| > |bs|
  {
    WriteInt(|bs|) + bs
  }

  function ReadBytes(buf: seq<byte>): Result<(seq<byte>, nat)> {
    var length :- ReadInt(buf);
    if |buf| < length.1 + length.0 then Err(Protocol)
    else Ok((buf[length.1..length.1 + length.0], length.1 + length.0))
  }

  lemma BytesRoundTrip(bs: seq<byte>, rest: seq<byte>)
    requires FitsLength(bs)
    ensures ReadBytes(WriteBytes(bs) + rest) == Ok((bs, |WriteBytes(bs)|))
  {
    hide WriteInt, ReadInt;
    var n := |WriteInt(|bs|)|;
    IntRoundTrip(|bs|, bs + rest);
    assert WriteBytes(bs) + rest == WriteInt(|bs|) + (bs + rest);
    assert (WriteInt(|bs|) + (bs + rest))[n..n + |bs|] == bs;
  }

  // ---- packets ----

  datatype Packet = Packet(sequenceId: byte, payload: seq<byte>)

  /** `Packet::encode_into`: three length bytes, the sequence id, the payload. */
  function Encode(p: Packet): (bs: seq<byte>)
    ensures |bs| == 4 + |p.payload|
  {
    LeBytes(|p.payload|, 3) + [p.sequenceId] + p.payload
  }

  /** `Packet::parse`: nothing yet, or a packet and the bytes it took. */
  function ParsePacket(buf: seq<byte>): (r: Option<(Packet, nat)>)
    ensures r.Some? ==> 4 <= r.value.1 <= |buf|
  {
    if |buf| < 4 then None
    else
      var length := LeValue(buf[..3]);
      if |buf| < 4 + length then None
      else Some((Packet(buf[3], buf[4..4 + length]), 4 + length))
  }

  /** A packet reads back exactly if its payload fits the three length bytes. */
  lemma PacketRoundTrip(p: Packet, rest: seq<byte>)
    ensures ParsePacket(Encode(p) + rest) == Some((p, |Encode(p)|)) <==> |p.payload| <= MAX_PAYLOAD
  {
    hide LeBytes, LeValue;
    var buf, n := Encode(p) + rest, |p.payload|;
    var head := LeBytes(n, 3);
    assert buf[..3] == head && buf[3] == p.sequenceId;
    Pow256Values();
    LeValueBounded(head);
    if n <= MAX_PAYLOAD {
      LeRoundTrip(n, 3);
      assert buf[4..4 + n] == p.payload;
    }
  }

  /** The bytes of a packet: its length, lowest byte first, its sequence id, its payload. */
  lemma PacketLayout(p: Packet)
    requires |p.payload| <= MAX_PAYLOAD
    ensures var bs := Encode(p);
      bs[0] as int + 256 * (bs[1] as int) + 65536 * (bs[2] as int) == |p.payload| && bs[3] == p.sequenceId && bs[4..] == p.payload
  {
    hide LeBytes;
    ThreeBytes(|p.payload|);
  }

  /** More input does not change a packet that has already arrived. */
  lemma ParseStable(buf: seq<byte>, rest: seq<byte>)
    requires ParsePacket(buf).Some?
    ensures ParsePacket(buf + rest) == ParsePacket(buf)
  {
    hide LeValue;
    var length := LeValue(buf[..3]);
    assert (buf + rest)[..3] == buf[..3];
    assert (buf + rest)[4..4 + length] == buf[4..4 + length];
  }

  // ---- reading from a stream ----

  /** The next packet of a stream of bytes that ends with `bytes`, and what remains. */
  function TakePacket(bytes: seq<byte>, maxAllowed: nat): Result<(Packet, seq<byte>)> {
    if |bytes| >= 4 && LeValue(bytes[..3]) > maxAllowed then Err(Protocol)
    else
      match ParsePacket(bytes)
      case Some(p) => Ok((p.0, bytes[p.1..]))
      case None => Err(Protocol)
  }

  /** A connection's read buffer and the chunks its socket has yet to deliver. */
  class PacketReader {
    const maxAllowed: nat
    var buf: seq<byte>
    var chunks: seq<seq<byte>>

    /** A read of no bytes is the end of the stream, so no chunk is empty. */
    ghost predicate Valid()
      reads this
    {
      forall i :: 0 <= i < |chunks| ==> chunks[i] != []
    }

    /** Everything still to be read. */
    ghost function Pending(): seq<byte>
      reads this
    {
      buf + Flatten(chunks)
    }

    constructor (maxAllowed: nat, chunks: seq<seq<byte>>)
      requires forall i :: 0 <= i < |chunks| ==> chunks[i] != []
      ensures Valid() && this.maxAllowed == maxAllowed && Pending() == Flatten(chunks)
    {
      this.maxAllowed := maxAllowed;
      this.buf := [];
      this.chunks := chunks;
    }

    /** `read_packet`: what it returns depends on the bytes alone, not on the chunks. */
    method ReadPacket() returns (r: Result<Packet>)
      requires Valid()
      modifies this
      ensures Valid()
      ensures match TakePacket(old(Pending()), maxAllowed)
        case Ok(p) => r == Ok(p.0) && Pending() == p.1
        case Err(e) => r == Err(e)
    {
      hide LeValue;
      ghost var all := Pending();
      while true
        invariant Valid() && Pending() == all
        decreases |chunks|
      {
        if |buf| >= 4 {
          assert all[..3] == buf[..3];
          if LeValue(buf[..3]) > maxAllowed {
            return Err(Protocol);
          }
        }
        var found := ParsePacket(buf);
        if found.Some? {
          ParseStable(buf, Flatten(chunks));
          assert all[found.value.1..] == buf[found.value.1..] + Flatten(chunks);
          buf := buf[found.value.1..];
          return Ok(found.value.0);
        }
        if chunks == [] {
          assert all == buf;
          return Err(Protocol);
        }
        assert buf + (chunks[0] + Flatten(chunks[1..])) == buf + chunks[0] + Flatten(chunks[1..]);
        buf, chunks := buf + chunks[0], chunks[1..];
      }
    }

    /** Read `n` packets. */
    method ReadMany(n: nat) returns (r: Result<seq<Packet>>)
      requires Valid()
      modifies this
      ensures Valid()
      ensures match TakeMany(old(Pending()), n, maxAllowed)
        case Ok(p) => r == Ok(p.0) && Pending() == p.1
        case Err(e) => r == Err(e)
    {
      hide TakePacket;
      var packets: seq<Packet> := [];
      ghost var all := Pending();
      for i := 0 to n
        invariant Valid() && TakeMany(all, i, maxAllowed) == Ok((packets, Pending()))
      {
        var p := ReadPacket();
        if p.Err? {
          TakeManyFails(all, i + 1, n, maxAllowed);
          return Err(p.error);
        }
        packets := packets + [p.value];
      }
      r := Ok(packets);
    }
  }

  function TakeMany(bytes: seq<byte>, n: nat, maxAllowed: nat): Result<(seq<Packet>, seq<byte>)> {
    if n == 0 then Ok(([], bytes))
    else
      var front :- TakeMany(bytes, n - 1, maxAllowed);
      var last :- TakePacket(front.1, maxAllowed);
      Ok((front.0 + [last.0], last.1))
  }

  lemma {:induction false} TakeManyFails(bytes: seq<byte>, m: nat, n: nat, maxAllowed: nat)
    requires m <= n && TakeMany(bytes, m, maxAllowed).Err?
    ensures TakeMany(bytes, n, maxAllowed) == Err(TakeMany(bytes, m, maxAllowed).error)
    decreases n
  {
    if m < n {
      TakeManyFails(bytes, m, n - 1, maxAllowed);
    }
  }

  function EncodeAll(ps: seq<Packet>): seq<byte> {
    if ps == [] then [] else EncodeAll(ps[..|ps| - 1]) + Encode(ps[|ps| - 1])
  }

  lemma EncodeOneMore(ps: seq<Packet>, p: Packet)
    ensures EncodeAll(ps + [p]) == EncodeAll(ps) + Encode(p)
  {
    hide Encode;
    assert (ps + [p])[..|ps|] == ps;
  }

  lemma {:induction false} EncodeAllAppend(ps: seq<Packet>, qs: seq<Packet>)
    ensures EncodeAll(ps + qs) == EncodeAll(ps) + EncodeAll(qs)
    decreases |qs|
  {
    hide Encode;
    if qs == [] {
      assert ps + qs == ps;
    } else {
      var n := |qs| - 1;
      assert (ps + qs)[..|ps| + n] == ps + qs[..n];
      EncodeAllAppend(ps, qs[..n]);
    }
  }

  lemma TakeEncoded(p: Packet, rest: seq<byte>, maxAllowed: nat)
    requires |p.payload| <= Min(MAX_PAYLOAD, maxAllowed)
    ensures TakePacket(Encode(p) + rest, maxAllowed) == Ok((p, rest))
  {
    hide LeBytes, LeValue;
    var buf := Encode(p) + rest;
    PacketRoundTrip(p, rest);
    assert buf[..3] == LeBytes(|p.payload|, 3);
    Pow256Values();
    LeRoundTrip(|p.payload|, 3);
    assert buf[|Encode(p)|..] == rest;
  }

  /** A stream that begins with encoded packets, cut into chunks anywhere, is read back
      as exactly those packets. */
  lemma {:induction false} StreamRecovers(ps: seq<Packet>, rest: seq<byte>, maxAllowed: nat)
    requires forall i :: 0 <= i < |ps| ==> |ps[i].payload| <= Min(MAX_PAYLOAD, maxAllowed)
    ensures TakeMany(EncodeAll(ps) + rest, |ps|, maxAllowed) == Ok((ps, rest))
    decreases |ps|
  {
    hide Encode, TakePacket;
    if ps == [] {
      assert EncodeAll(ps) + rest == rest;
    } else {
      var n := |ps| - 1;
      StreamRecovers(ps[..n], Encode(ps[n]) + rest, maxAllowed);
      assert EncodeAll(ps) + rest == EncodeAll(ps[..n]) + (Encode(ps[n]) + rest);
      TakeEncoded(ps[n], rest, maxAllowed);
      assert ps[..n] + [ps[n]] == ps;
    }
  }
}
