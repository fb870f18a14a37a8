/** Shared vocabulary: machine integers, byte strings, results, and the
    little-endian integer encoding every wire and file format here is built on. */
module Basics {

  type byte = x: int | 0 <= x < 0x100
  type u8 = byte
  type u16 = x: int | 0 <= x < 0x1_0000
  type u32 = x: int | 0 <= x < 0x1_0000_0000
  type u64 = x: int | 0 <= x < 0x1_0000_0000_0000_0000
  type i64 = x: int | -0x8000_0000_0000_0000 <= x < 0x8000_0000_0000_0000

  const U32_LIMIT := 0x1_0000_0000
  const U64_MAX: u64 := 0xFFFF_FFFF_FFFF_FFFF
  const I64_MIN: i64 := -0x8000_0000_0000_0000
  const I64_MAX: i64 := 0x7FFF_FFFF_FFFF_FFFF

  /** A Rust `String`: its UTF-8 bytes, compared byte by byte. */
  type Text = seq<byte>

  datatype Option<+T> = None | Some(value: T)

  /** The error categories of the server; message texts are not modelled. */
  datatype Error = Io | Protocol | Parse | Execution | Unsupported

  datatype Result<+T> = Ok(value: T) | Err(error: Error) {
    predicate IsFailure() { Err? }
    function PropagateFailure<U>(): Result<U>
      requires Err?
    {
      Err(error)
    }
    function Extract(): T
      requires Ok?
    {
      value
    }
  }

  predicate FitsI64(n: int) {
    I64_MIN <= n <= I64_MAX
  }

  function Abs(n: int): nat {
    if n < 0 then -n else n
  }

  function Max(a: int, b: int): int {
    if a < b then b else a
  }

  function Min(a: int, b: int): int {
    if a < b then a else b
  }

  /** Two's-complement wrap-around of an `i64` sum. */
  function WrapI64(n: int): i64 {
    (n + 0x8000_0000_0000_0000) % 0x1_0000_0000_0000_0000 - 0x8000_0000_0000_0000
  }

  // ---- little-endian integers ----

  function Pow256(k: nat): nat {
    if k == 0 then 1 else 256 * Pow256(k - 1)
  }

  /** The low `k` bytes of `n`, least significant first. */
  function LeBytes(n: nat, k: nat): (bs: seq<byte>)
    ensures |bs| == k
  {
    if k == 0 then [] else [n % 256] + LeBytes(n / 256, k - 1)
  }

  function LeValue(bs: seq<byte>): nat {
    if bs == [] then 0 else bs[0] + 256 * LeValue(bs[1..])
  }

  lemma {:induction false} LeRoundTrip(n: nat, k: nat)
    requires n < Pow256(k)
    ensures LeValue(LeBytes(n, k)) == n
  {
    if k != 0 {
      LeRoundTrip(n / 256, k - 1);
      assert LeBytes(n, k)[1..] == LeBytes(n / 256, k - 1);
    }
  }

  lemma {:induction false} LeValueBounded(bs: seq<byte>)
    ensures LeValue(bs) < Pow256(|bs|)
  {
    if bs != [] {
      LeValueBounded(bs[1..]);
    }
  }

  lemma {:induction false} LeBytesOfValue(bs: seq<byte>)
    ensures LeBytes(LeValue(bs), |bs|) == bs
  {
    if bs != [] {
      LeBytesOfValue(bs[1..]);
      assert LeValue(bs) / 256 == LeValue(bs[1..]);
      assert bs == [bs[0]] + bs[1..];
    }
  }

  lemma Pow256Values()
    ensures Pow256(2) == 0x1_0000
    ensures Pow256(3) == 0x100_0000
    ensures Pow256(4) == 0x1_0000_0000
    ensures Pow256(8) == 0x1_0000_0000_0000_0000
  {
    assert Pow256(1) == 256;
    assert Pow256(5) == 256 * Pow256(4);
    assert Pow256(6) == 256 * Pow256(5);
    assert Pow256(7) == 256 * Pow256(6);
  }

  function U32Bytes(n: u32): (bs: seq<byte>)
    ensures |bs| == 4
  {
    LeBytes(n, 4)
  }

  lemma U32RoundTrip(n: u32)
    ensures LeValue(U32Bytes(n)) == n
  {
    Pow256Values();
    LeRoundTrip(n, 4);
  }

  lemma LeValueOfFour(bs: seq<byte>)
    requires |bs| == 4
    ensures LeValue(bs) < U32_LIMIT
  {
    Pow256Values();
    LeValueBounded(bs);
  }

  /** The bit pattern of an `i64` read as unsigned, and back. */
  function I64Bits(n: i64): (r: u64) {
    if n < 0 then n + 0x1_0000_0000_0000_0000 else n
  }

  function BitsI64(n: u64): (r: i64) {
    if n < 0x8000_0000_0000_0000 then n else n - 0x1_0000_0000_0000_0000
  }

  function I64Bytes(n: i64): (bs: seq<byte>)
    ensures |bs| == 8
  {
    LeBytes(I64Bits(n), 8)
  }

  function I64OfBytes(bs: seq<byte>): (n: i64)
    requires |bs| == 8
  {
    Pow256Values();
    LeValueBounded(bs);
    BitsI64(LeValue(bs))
  }

  lemma I64RoundTrip(n: i64)
    ensures I64OfBytes(I64Bytes(n)) == n
  {
    Pow256Values();
    LeRoundTrip(I64Bits(n), 8);
  }

  // ---- sequences ----

  function Filter<T>(s: seq<T>, p: T -> bool): (r: seq<T>) {
    if s == [] then []
    else if p(s[0]) then [s[0]] + Filter(s[1..], p)
    else Filter(s[1..], p)
  }

  lemma {:induction false} FilterAppend<T>(s: seq<T>, t: seq<T>, p: T -> bool)
    ensures Filter(s + t, p) == Filter(s, p) + Filter(t, p)
  {
    if s == [] {
      assert s + t == t;
    } else {
      FilterAppend(s[1..], t, p);
      assert (s + t)[1..] == s[1..] + t;
      assert (s + t)[0] == s[0];
    }
  }

  /** `at` lists, in order, exactly the positions whose elements satisfy `p`, and `kept` has
      those elements. */
  ghost predicate KeptAt<T(!new)>(s: seq<T>, p: T -> bool, at: seq<nat>, kept: seq<T>) {
    && |at| == |kept|
    && (forall k :: 0 <= k < |at| ==> at[k] < |s| && p(s[at[k]]) && kept[k] == s[at[k]])
    && (forall k, m :: 0 <= k < m < |at| ==> at[k] < at[m])
    && (forall b: nat :: b < |s| && p(s[b]) ==> b in at)
  }

  lemma {:induction false} FilterAt<T(!new)>(s: seq<T>, p: T -> bool) returns (at: seq<nat>)
    ensures KeptAt(s, p, at, Filter(s, p))
    decreases |s|
  {
    if s == [] {
      at := [];
    } else {
      var n := |s| - 1;
      at := FilterAt(s[..n], p);
      assert s == s[..n] + [s[n]];
      FilterAppend(s[..n], [s[n]], p);
      assert [s[n]][1..] == [];
      if p(s[n]) {
        at := at + [n];
        assert at[|at| - 1] == n;
      }
    }
  }

  function Flatten<T>(ss: seq<seq<T>>): (r: seq<T>) {
    if ss == [] then [] else ss[0] + Flatten(ss[1..])
  }

  lemma {:induction false} FlattenAppend<T>(ss: seq<seq<T>>, ts: seq<seq<T>>)
    ensures Flatten(ss + ts) == Flatten(ss) + Flatten(ts)
  {
    if ss == [] {
      assert ss + ts == ts;
    } else {
      assert (ss + ts)[1..] == ss[1..] + ts;
      calc {
        Flatten(ss + ts);
        ss[0] + Flatten(ss[1..] + ts);
        { FlattenAppend(ss[1..], ts); }
        ss[0] + (Flatten(ss[1..]) + Flatten(ts));
        Flatten(ss) + Flatten(ts);
      }
    }
  }

  lemma FlattenOne<T>(s: seq<T>)
    ensures Flatten([s]) == s
  {
    assert [s][1..] == [];
  }

  // ---- enumerations ----

  /** `xs` lists each element of `all` once. */
  predicate Enumerates<T(==)>(xs: seq<T>, all: set<T>) {
    && (forall i, j :: 0 <= i < j < |xs| ==> xs[i] != xs[j])
    && (set x | x in xs) == all
  }

  lemma NothingEnumerated<T>()
    ensures Enumerates<T>([], {})
  {}

  lemma EnumerateMore<T>(xs: seq<T>, seen: set<T>, x: T)
    requires Enumerates(xs, seen) && x !in seen
    ensures Enumerates(xs + [x], seen + {x})
  {
    assert forall i :: 0 <= i < |xs| ==> xs[i] in (set y | y in xs);
  }

  // ---- powers of two ----

  function Pow2(k: nat): nat {
    if k == 0 then 1 else 2 * Pow2(k - 1)
  }

  lemma Pow2Values()
    ensures Pow2(8) == 256
  {
    assert Pow2(4) == 16;
    assert Pow2(6) == 64;
  }
}
