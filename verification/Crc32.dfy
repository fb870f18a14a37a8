/** CRC-32 as `storage::log::crc32` computes it, one bit at a time, on a 32-bit
    register written as its bits (index 0 is the least significant).

    Two facts are proved about it: it is the checksum section 8 of RFC 1952
    defines by its table-driven update, and it notices every change that stays
    inside four consecutive bytes, however long the data is. */
module Crc32 {
  import opened Basics

  type Register = s: seq<bool> | |s| == 32
    witness [false, false, false, false, false, false, false, false, false, false, false, false, false, false, false, false,
             false, false, false, false, false, false, false, false, false, false, false, false, false, false, false, false]

  // ---- numbers as bits ----

  function Bits(n: nat, k: nat): (bs: seq<bool>)
    ensures |bs| == k
  {
    if k == 0 then [] else [n % 2 == 1] + Bits(n / 2, k - 1)
  }

  function BitsValue(bs: seq<bool>): nat {
    if bs == [] then 0 else (if bs[0] then 1 else 0) + 2 * BitsValue(bs[1..])
  }

  lemma {:induction false} BitsRoundTrip(n: nat, k: nat)
    requires n < Pow2(k)
    ensures BitsValue(Bits(n, k)) == n
  {
    if k != 0 {
      BitsRoundTrip(n / 2, k - 1);
      assert Bits(n, k)[1..] == Bits(n / 2, k - 1);
    }
  }

  lemma {:induction false} BitsValueBounded(bs: seq<bool>)
    ensures BitsValue(bs) < Pow2(|bs|)
  {
    if bs != [] {
      BitsValueBounded(bs[1..]);
    }
  }

  lemma {:induction false} BitsValueInjective(a: seq<bool>, b: seq<bool>)
    requires |a| == |b| && BitsValue(a) == BitsValue(b)
    ensures a == b
  {
    if a != [] {
      BitsValueInjective(a[1..], b[1..]);
      assert a == [a[0]] + a[1..];
      assert b == [b[0]] + b[1..];
    }
  }

  // ---- the register ----

  function Ones(): (r: Register) {
    seq(32, i => true)
  }

  function PolyBits(): (r: Register)
    ensures r[31]
  {
    var nibbles := Bits(0xE, 4);
    assert Bits(7, 3) == [true] + Bits(3, 2);
    assert Bits(3, 2) == [true] + Bits(1, 1);
    assert nibbles[3];
    Bits(0x0DB8_8320, 28) + nibbles
  }

  function Xor(a: Register, b: Register): (r: Register) {
    seq(32, i requires 0 <= i < 32 => a[i] != b[i])
  }

  function Not(a: Register): (r: Register) {
    seq(32, i requires 0 <= i < 32 => !a[i])
  }

  function ShiftRight(a: Register): (r: Register) {
    a[1..] + [false]
  }

  /** `u32::from(byte)`. */
  function Widen(b: byte): (r: Register) {
    Bits(b, 8) + seq(24, i => false)
  }

  lemma WidenInjective(a: byte, b: byte)
    requires Widen(a)[..8] == Widen(b)[..8]
    ensures a == b
  {
    assert Widen(a)[..8] == Bits(a, 8);
    assert Widen(b)[..8] == Bits(b, 8);
    Pow2Values();
    BitsRoundTrip(a, 8);
    BitsRoundTrip(b, 8);
  }

  /** One turn of the inner loop. */
  function Shift(c: Register): (r: Register) {
    if c[0] then Xor(ShiftRight(c), PolyBits()) else ShiftRight(c)
  }

  function Shifts(c: Register, n: nat): (r: Register) {
    if n == 0 then c else Shift(Shifts(c, n - 1))
  }

  /** The register after feeding `data`, starting from `c`. */
  function Feed(c: Register, data: seq<byte>): (r: Register) {
    if data == [] then c
    else Shifts(Xor(Feed(c, data[..|data| - 1]), Widen(data[|data| - 1])), 8)
  }

  function Crc(data: seq<byte>): (r: Register) {
    Not(Feed(Ones(), data))
  }

  /** The two nested loops of the source. */
  method ComputeCrc(data: seq<byte>) returns (crc: Register)
    ensures crc == Crc(data)
  {
    crc := Ones();
    for i := 0 to |data|
      invariant crc == Feed(Ones(), data[..i])
    {
      var mixed := Xor(crc, Widen(data[i]));
      crc := mixed;
      for k := 0 to 8
        invariant crc == Shifts(mixed, k)
      {
        if crc[0] {
          crc := Xor(ShiftRight(crc), PolyBits());
        } else {
          crc := ShiftRight(crc);
        }
      }
      assert data[..i + 1][..i] == data[..i];
    }
    assert data[..|data|] == data;
    crc := Not(crc);
  }

  // ---- the register map is linear and injective ----

  lemma ShiftLinear(a: Register, b: Register)
    ensures Shift(Xor(a, b)) == Xor(Shift(a), Shift(b))
  {}

  lemma {:induction false} ShiftsLinear(a: Register, b: Register, n: nat)
    ensures Shifts(Xor(a, b), n) == Xor(Shifts(a, n), Shifts(b, n))
  {
    hide Xor, Shift;
    if n != 0 {
      ShiftsLinear(a, b, n - 1);
      ShiftLinear(Shifts(a, n - 1), Shifts(b, n - 1));
    }
  }

  lemma ShiftInjective(a: Register, b: Register)
    requires Shift(a) == Shift(b)
    ensures a == b
  {
    assert Shift(a)[31] == a[0];
    assert Shift(b)[31] == b[0];
    forall i | 0 < i < 32
      ensures a[i] == b[i]
    {
      assert Shift(a)[i - 1] == Shift(b)[i - 1];
    }
  }

  lemma {:induction false} ShiftsInjective(a: Register, b: Register, n: nat)
    requires Shifts(a, n) == Shifts(b, n)
    ensures a == b
  {
    if n != 0 {
      ShiftInjective(Shifts(a, n - 1), Shifts(b, n - 1));
      ShiftsInjective(a, b, n - 1);
    }
  }

  /** While the low bits are clear, the turns only move the register down. */
  lemma {:induction false} ShiftsClear(c: Register, n: nat)
    requires n <= 32
    requires forall i :: 0 <= i < n ==> !c[i]
    ensures Shifts(c, n) == c[n..] + seq(n, i => false)
  {
    if n != 0 {
      ShiftsClear(c, n - 1);
    }
  }

  // ---- RFC 1952, section 8 ----

  function RfcTable(c: Register): (r: Register) {
    Shifts(c[..8] + seq(24, i => false), 8)
  }

  function RfcUpdate(c: Register, data: seq<byte>): (r: Register)
    decreases |data|
  {
    if data == [] then c
    else
      var front := RfcUpdate(c, data[..|data| - 1]);
      Xor(RfcTable(Xor(front, Widen(data[|data| - 1]))), front[8..] + seq(8, i => false))
  }

  lemma {:induction false} RfcStep(front: Register, b: byte)
    ensures Shifts(Xor(front, Widen(b)), 8)
         == Xor(RfcTable(Xor(front, Widen(b))), front[8..] + seq(8, i => false))
  {
    var mixed := Xor(front, Widen(b));
    var low: Register := mixed[..8] + seq(24, i => false);
    var high: Register := seq(8, i => false) + front[8..];
    assert mixed == Xor(low, high);
    ShiftsLinear(low, high, 8);
    ShiftsClear(high, 8);
    assert high[8..] == front[8..];
  }

  /** The checksum of the source is the one the RFC defines. */
  lemma {:induction false} FeedIsRfcUpdate(c: Register, data: seq<byte>)
    ensures Feed(c, data) == RfcUpdate(c, data)
  {
    if data != [] {
      FeedIsRfcUpdate(c, data[..|data| - 1]);
      RfcStep(Feed(c, data[..|data| - 1]), data[|data| - 1]);
    }
  }

  function Zeros(): (r: Register) {
    seq(32, i => false)
  }

  /** `crc` of section 8 of RFC 1952: the register goes in and comes out complemented. */
  function RfcCrc(data: seq<byte>): (r: Register) {
    Not(RfcUpdate(Not(Zeros()), data))
  }

  lemma CrcIsRfcCrc(data: seq<byte>)
    ensures Crc(data) == RfcCrc(data)
  {
    assert Not(Zeros()) == Ones();
    FeedIsRfcUpdate(Ones(), data);
  }

  // ---- burst detection ----

  predicate ClearFrom(d: Register, k: nat) {
    forall i :: k <= i < 32 ==> !d[i]
  }

  lemma XorLaws(x: Register, y: Register, a: Register, b: Register)
    ensures Xor(Xor(x, a), Xor(y, b)) == Xor(Xor(x, y), Xor(a, b))
  {}

  /** Undo one byte's worth of turns on a difference that fits in the low bits. */
  lemma UndoByte(x: Register, d: Register, k: nat)
    requires k <= 24 && ClearFrom(d, k) && Shifts(x, 8) == d
    ensures x == seq(8, i => false) + d[..24]
  {
    var up: Register := seq(8, i => false) + d[..24];
    ShiftsClear(up, 8);
    assert up[8..] + seq(8, i => false) == d;
    ShiftsInjective(x, up, 8);
  }

  /** Equal-length windows of at most four bytes that leave the register in the
      same place (up to `m` bytes yet to be explained) are the same window. */
  lemma {:induction false} WindowDetermined(s: Register, w: seq<byte>, v: seq<byte>, m: nat)
    requires |w| == |v| && |w| + m <= 4
    requires ClearFrom(Xor(Feed(s, w), Feed(s, v)), 8 * m)
    ensures w == v
  {
    if w != [] {
      var w0, b := w[..|w| - 1], w[|w| - 1];
      var v0, c := v[..|v| - 1], v[|v| - 1];
      var d := Xor(Feed(s, w), Feed(s, v));
      var fw, fv := Feed(s, w0), Feed(s, v0);
      var beta := Xor(Widen(b), Widen(c));
      var x := Xor(Xor(fw, fv), beta);
      XorLaws(fw, fv, Widen(b), Widen(c));
      ShiftsLinear(Xor(fw, Widen(b)), Xor(fv, Widen(c)), 8);
      UndoByte(x, d, 8 * m);
      assert Xor(fw, fv) == Xor(x, beta);
      WindowDetermined(s, w0, v0, m + 1);
      forall i | 0 <= i < 8
        ensures Widen(b)[i] == Widen(c)[i]
      {
        assert !x[i] && !Xor(fw, fv)[i];
        assert !Xor(Xor(fw, fv), beta)[i] && !beta[i];
      }
      WidenInjective(b, c);
    }
  }

  lemma XorCancels(a: Register, b: Register, k: Register)
    requires Xor(a, k) == Xor(b, k)
    ensures a == b
  {
    forall i | 0 <= i < 32
      ensures a[i] == b[i]
    {
      assert Xor(a, k)[i] == Xor(b, k)[i];
    }
  }

  lemma NotInjective(a: Register, b: Register)
    requires Not(a) == Not(b)
    ensures a == b
  {
    forall i | 0 <= i < 32
      ensures a[i] == b[i]
    {
      assert Not(a)[i] == Not(b)[i];
    }
  }

  lemma {:induction false} FeedAppend(c: Register, a: seq<byte>, b: seq<byte>)
    ensures Feed(c, a + b) == Feed(Feed(c, a), b)
  {
    if b == [] {
      assert a + b == a;
    } else {
      var n := |b| - 1;
      FeedAppend(c, a, b[..n]);
      assert (a + b)[..|a + b| - 1] == a + b[..n];
    }
  }

  lemma {:induction false} FeedInjective(c: Register, d: Register, data: seq<byte>)
    requires Feed(c, data) == Feed(d, data)
    ensures c == d
  {
    if data != [] {
      var n := |data| - 1;
      var fc, fd := Feed(c, data[..n]), Feed(d, data[..n]);
      ShiftsInjective(Xor(fc, Widen(data[n])), Xor(fd, Widen(data[n])), 8);
      XorCancels(fc, fd, Widen(data[n]));
      FeedInjective(c, d, data[..n]);
    }
  }

  lemma FeedThrough(front: seq<byte>, w: seq<byte>, back: seq<byte>)
    ensures Feed(Ones(), front + w + back) == Feed(Feed(Feed(Ones(), front), w), back)
  {
    FeedAppend(Ones(), front + w, back);
    FeedAppend(Ones(), front, w);
  }

  /** A change inside at most four consecutive bytes always changes the checksum. */
  lemma BurstDetected(front: seq<byte>, w: seq<byte>, v: seq<byte>, back: seq<byte>)
    requires |w| == |v| <= 4 && w != v
    ensures Crc(front + w + back) != Crc(front + v + back)
  {
    var s := Feed(Ones(), front);
    FeedThrough(front, w, back);
    FeedThrough(front, v, back);
    if Feed(s, w) == Feed(s, v) {
      WindowDetermined(s, w, v, 0);
    } else if Feed(Feed(s, w), back) == Feed(Feed(s, v), back) {
      FeedInjective(Feed(s, w), Feed(s, v), back);
    } else if Crc(front + w + back) == Crc(front + v + back) {
      NotInjective(Feed(Feed(s, w), back), Feed(Feed(s, v), back));
    }
  }

  // ---- the four bytes stored in a record header ----

  function RegisterBytes(c: Register): (bs: seq<byte>)
    ensures |bs| == 4
  {
    Pow2Values();
    BitsValueBounded(c[..8]);
    BitsValueBounded(c[8..16]);
    BitsValueBounded(c[16..24]);
    BitsValueBounded(c[24..]);
    [BitsValue(c[..8]), BitsValue(c[8..16]), BitsValue(c[16..24]), BitsValue(c[24..])]
  }

  lemma RegisterBytesInjective(c: Register, d: Register)
    requires RegisterBytes(c) == RegisterBytes(d)
    ensures c == d
  {
    BitsValueInjective(c[..8], d[..8]);
    BitsValueInjective(c[8..16], d[8..16]);
    BitsValueInjective(c[16..24], d[16..24]);
    BitsValueInjective(c[24..], d[24..]);
    assert c == c[..8] + c[8..16] + c[16..24] + c[24..];
    assert d == d[..8] + d[8..16] + d[16..24] + d[24..];
  }
}
