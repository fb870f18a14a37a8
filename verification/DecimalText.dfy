/** Decimal texts and fixed-point arithmetic: `storage::value`, with Rust's
    `to_string` and `parse::<i64>` written out. */
module DecimalText {
  import opened Basics

  const MINUS: byte := 45
  const PLUS: byte := 43
  const DOT: byte := 46
  const ZERO: byte := 48

  predicate IsDigit(b: byte) {
    ZERO <= b <= ZERO + 9
  }

  predicate AllDigits(s: Text) {
    forall i :: 0 <= i < |s| ==> IsDigit(s[i])
  }

  function Zeros(k: nat): (s: Text)
    ensures |s| == k && AllDigits(s)
  {
    seq(k, i => ZERO)
  }

  // ---- whole numbers ----

  /** `u64::to_string`. */
  function DigitsOf(n: nat): (s: Text)
    ensures |s| > 0 && AllDigits(s)
  {
    if n < 10 then [ZERO + n] else DigitsOf(n / 10) + [ZERO + n % 10]
  }

  function DigitsValue(s: Text): (n: nat)
    requires AllDigits(s)
  {
    if s == [] then 0 else 10 * DigitsValue(s[..|s| - 1]) + (s[|s| - 1] - ZERO)
  }

  lemma {:induction false} DigitsRoundTrip(n: nat)
    ensures DigitsValue(DigitsOf(n)) == n
  {
    var s := DigitsOf(n);
    if n < 10 {
      assert s[..0] == [];
    } else {
      DigitsRoundTrip(n / 10);
      assert s[..|s| - 1] == DigitsOf(n / 10);
    }
  }

  lemma {:induction false} LeadingZeros(k: nat, s: Text)
    requires AllDigits(s)
    ensures DigitsValue(Zeros(k) + s) == DigitsValue(s)
  {
    var t := Zeros(k) + s;
    if s != [] {
      LeadingZeros(k, s[..|s| - 1]);
      assert t[..|t| - 1] == Zeros(k) + s[..|s| - 1];
    } else if k != 0 {
      LeadingZeros(k - 1, []);
      assert t[..|t| - 1] == Zeros(k - 1) + [];
    }
  }

  /** `i64::to_string`. */
  function FormatInt(n: i64): (s: Text) {
    if n < 0 then [MINUS] + DigitsOf(Abs(n)) else DigitsOf(n)
  }

  /** `str::parse::<i64>`: an optional sign, at least one digit, no overflow. */
  function ParseInt(s: Text): (r: Option<i64>) {
    var signed := s != [] && (s[0] == MINUS || s[0] == PLUS);
    var digits := if signed then s[1..] else s;
    if digits == [] || !AllDigits(digits) then None
    else
      var magnitude: int := DigitsValue(digits);
      var n := if signed && s[0] == MINUS then -magnitude else magnitude;
      if FitsI64(n) then Some(n) else None
  }

  lemma IntRoundTrip(n: i64)
    ensures ParseInt(FormatInt(n)) == Some(n)
  {
    DigitsRoundTrip(Abs(n));
    if n < 0 {
      assert FormatInt(n)[1..] == DigitsOf(Abs(n));
    } else {
      assert IsDigit(FormatInt(n)[0]);
    }
  }

  // ---- powers of ten ----

  function Pow10(k: nat): (p: nat)
    ensures p > 0
  {
    if k == 0 then 1 else 10 * Pow10(k - 1)
  }

  lemma {:induction false} Pow10Monotone(a: nat, b: nat)
    requires a <= b
    ensures Pow10(a) <= Pow10(b)
  {
    if a < b {
      Pow10Monotone(a, b - 1);
    }
  }

  lemma Pow10Limits()
    ensures Pow10(18) == 1_000_000_000_000_000_000
    ensures Pow10(19) == 10_000_000_000_000_000_000
    ensures Pow10(20) == 100_000_000_000_000_000_000
  {
    assert Pow10(4) == 10_000;
    assert Pow10(8) == 100_000_000 by { assert Pow10(6) == 1_000_000; }
    assert Pow10(12) == 1_000_000_000_000 by { assert Pow10(10) == 10_000_000_000; }
    assert Pow10(16) == 10_000_000_000_000_000 by { assert Pow10(14) == 100_000_000_000_000; }
  }

  /** Exactly which powers `10i64.checked_pow` and `10u64.checked_pow` can represent. */
  lemma CheckedPow(k: nat)
    ensures Pow10(k) <= I64_MAX <==> k <= 18
    ensures Pow10(k) <= U64_MAX <==> k <= 19
  {
    Pow10Limits();
    if k <= 18 {
      Pow10Monotone(k, 18);
    } else if k <= 19 {
    } else {
      Pow10Monotone(20, k);
    }
  }

  // ---- fixed point ----

  /** `format_decimal`. */
  function FormatDecimal(unscaled: i64, scale: u8): (s: Text) {
    if scale == 0 then FormatInt(unscaled)
    else
      var digits := PaddedDigits(unscaled, scale);
      var cut := |digits| - scale;
      (if unscaled < 0 then [MINUS] else []) + digits[..cut] + [DOT] + digits[cut..]
  }

  /** `str::split_once('.')`, as the position of the first dot. */
  function DotIndex(s: Text): (r: Option<nat>)
    ensures r.Some? ==> r.value < |s| && s[r.value] == DOT && forall j :: 0 <= j < r.value ==> s[j] != DOT
    ensures r.None? ==> forall j :: 0 <= j < |s| ==> s[j] != DOT
  {
    if s == [] then None
    else if s[0] == DOT then Some(0)
    else match DotIndex(s[1..])
      case None => None
      case Some(i) => Some(i + 1)
  }

  datatype Fixed = Fixed(unscaled: i64, scale: u8)

  /** The part of `parse_decimal_literal` after the sign. */
  function ParseUnsigned(rest: Text): (r: Result<Fixed>) {
    var dot := DotIndex(rest);
    var intPart := if dot.Some? then rest[..dot.value] else rest;
    var fracPart := if dot.Some? then rest[dot.value + 1..] else [];
    if intPart == [] && fracPart == [] then Err(Execution)
    else if !AllDigits(intPart) || !AllDigits(fracPart) then Err(Execution)
    else if |fracPart| > 255 then Err(Execution)
    else
      var magnitude := ParseInt(intPart + fracPart);
      if magnitude.None? then Err(Execution) else Ok(Fixed(magnitude.value, |fracPart|))
  }

  /** `parse_decimal_literal`: the number as written, at the scale as written. */
  function ParseDecimal(s: Text): (r: Result<Fixed>) {
    if s != [] && s[0] == MINUS then
      var f :- ParseUnsigned(s[1..]);
      Ok(Fixed(Negate(f.unscaled), f.scale))
    else ParseUnsigned(s)
  }

  /** `-magnitude`; a parsed run of digits is never `i64::MIN`. */
  function Negate(n: i64): (r: i64)
    ensures n >= 0 ==> r == 0 - n
  {
    if n == I64_MIN then I64_MIN else 0 - n
  }

  /** `rescale_decimal`, with its checked and unsigned arithmetic. */
  function Rescale(unscaled: i64, fromScale: u8, toScale: u8): (r: Result<i64>) {
    if toScale >= fromScale then
      var factor := Pow10(toScale - fromScale);
      if factor > I64_MAX then Err(Execution)
      else if FitsI64(unscaled * factor) then Ok(unscaled * factor)
      else Err(Execution)
    else
      var divisor := Pow10(fromScale - toScale);
      if divisor > U64_MAX then Err(Execution)
      else
        var rounded := (Abs(unscaled) + divisor / 2) / divisor;
        if rounded > I64_MAX then Err(Execution)
        else Ok(if unscaled < 0 then -rounded else rounded)
  }

  // ---- texts read back ----

  lemma DigitsHaveNoDot(s: Text)
    requires AllDigits(s)
    ensures DotIndex(s).None?
  {}

  lemma DotIs(a: Text, b: Text)
    requires AllDigits(a)
    ensures DotIndex(a + [DOT] + b) == Some(|a|)
  {
    var s := a + [DOT] + b;
    assert s[|a|] == DOT;
    assert forall j :: 0 <= j < |a| ==> IsDigit(s[j]);
  }

  lemma ParseDigits(s: Text)
    requires s != [] && AllDigits(s)
    ensures ParseInt(s) == if DigitsValue(s) <= I64_MAX then Some(DigitsValue(s)) else None
  {
    assert IsDigit(s[0]);
  }

  lemma ParseDotted(intPart: Text, fracPart: Text)
    requires AllDigits(intPart) && AllDigits(fracPart) && intPart != [] && |fracPart| <= 255
    ensures var n := DigitsValue(intPart + fracPart);
      ParseUnsigned(intPart + [DOT] + fracPart)
        == if n <= I64_MAX then Ok(Fixed(n, |fracPart|)) else Err(Execution)
  {
    hide ParseInt, DigitsValue;
    var rest := intPart + [DOT] + fracPart;
    DotIs(intPart, fracPart);
    assert rest[..|intPart|] == intPart && rest[|intPart| + 1..] == fracPart;
    ParseDigits(intPart + fracPart);
  }

  lemma ParseWhole(intPart: Text)
    requires AllDigits(intPart) && intPart != []
    ensures ParseUnsigned(intPart)
         == if DigitsValue(intPart) <= I64_MAX then Ok(Fixed(DigitsValue(intPart), 0)) else Err(Execution)
  {
    hide ParseInt, DigitsValue;
    DigitsHaveNoDot(intPart);
    assert intPart + [] == intPart;
    ParseDigits(intPart);
  }

  /** Putting the sign back. */
  lemma ParseSigned(negative: bool, body: Text)
    requires body != [] && IsDigit(body[0])
    ensures ParseDecimal((if negative then [MINUS] else []) + body)
         == match ParseUnsigned(body)
            case Err(e) => Err(e)
            case Ok(f) => Ok(if negative then Fixed(Negate(f.unscaled), f.scale) else f)
  {
    hide ParseUnsigned, Negate;
    var s := (if negative then [MINUS] else []) + body;
    if negative {
      assert s[1..] == body;
    } else {
      assert s == body;
    }
  }

  /** The digits `format_decimal` splits: at least one more than the scale. */
  function PaddedDigits(unscaled: i64, scale: u8): (digits: Text)
    ensures AllDigits(digits) && |digits| > scale
  {
    var shortest := DigitsOf(Abs(unscaled));
    if |shortest| <= scale then Zeros(scale + 1 - |shortest|) + shortest else shortest
  }

  lemma PaddedValue(unscaled: i64, scale: u8)
    ensures DigitsValue(PaddedDigits(unscaled, scale)) == Abs(unscaled)
  {
    var shortest := DigitsOf(Abs(unscaled));
    DigitsRoundTrip(Abs(unscaled));
    if |shortest| <= scale {
      LeadingZeros(scale + 1 - |shortest|, shortest);
    }
  }

  lemma WholeRoundTrip(unscaled: i64)
    ensures ParseDecimal(FormatInt(unscaled)) == if unscaled == I64_MIN then Err(Execution) else Ok(Fixed(unscaled, 0))
  {
    hide ParseDecimal, ParseUnsigned, DigitsOf, DigitsValue;
    var sign: Text := if unscaled < 0 then [MINUS] else [];
    var digits := DigitsOf(Abs(unscaled));
    DigitsRoundTrip(Abs(unscaled));
    assert FormatInt(unscaled) == sign + digits;
    ParseSigned(unscaled < 0, digits);
    ParseWhole(digits);
  }

  lemma DottedRoundTrip(unscaled: i64, scale: u8)
    requires scale > 0
    ensures ParseDecimal(FormatDecimal(unscaled, scale))
         == if unscaled == I64_MIN then Err(Execution) else Ok(Fixed(unscaled, scale))
  {
    hide ParseDecimal, ParseUnsigned, DigitsValue, PaddedDigits;
    var sign: Text := if unscaled < 0 then [MINUS] else [];
    var digits := PaddedDigits(unscaled, scale);
    PaddedValue(unscaled, scale);
    var cut := |digits| - scale;
    var intPart, fracPart := digits[..cut], digits[cut..];
    assert intPart + fracPart == digits;
    assert FormatDecimal(unscaled, scale) == sign + (intPart + [DOT] + fracPart);
    ParseSigned(unscaled < 0, intPart + [DOT] + fracPart);
    ParseDotted(intPart, fracPart);
  }

  /** A printed decimal reads back as itself, exactly unless it is `i64::MIN`. */
  lemma DecimalRoundTrip(unscaled: i64, scale: u8)
    ensures ParseDecimal(FormatDecimal(unscaled, scale))
         == if unscaled == I64_MIN then Err(Execution) else Ok(Fixed(unscaled, scale))
  {
    hide ParseDecimal, FormatInt;
    if scale == 0 {
      WholeRoundTrip(unscaled);
    } else {
      DottedRoundTrip(unscaled, scale);
    }
  }

  // ---- rescaling ----

  /** Widening multiplies exactly, and succeeds exactly when the factor and the product fit. */
  lemma WideningExact(u: i64, fromScale: u8, toScale: u8)
    requires fromScale <= toScale
    ensures var d, r := toScale - fromScale, Rescale(u, fromScale, toScale);
      && (r.Ok? <==> d <= 18 && FitsI64(u * Pow10(d)))
      && (r.Ok? ==> r.value == u * Pow10(d))
  {
    CheckedPow(toScale - fromScale);
  }

  /** `v` is the multiple of `d` nearest to `u`, a tie going away from zero. */
  predicate NearestAway(u: int, d: nat, v: int) {
    && 2 * Abs(u - v * d) <= d
    && (2 * Abs(u - v * d) == d ==> Abs(v * d) > Abs(u))
  }

  lemma HalfUp(m: nat, d: nat)
    requires d > 0
    ensures var q := (m + d / 2) / d;
      && 2 * Abs(m - q * d) <= d
      && (2 * Abs(m - q * d) == d ==> q * d > m)
  {
    var q := (m + d / 2) / d;
    assert q * d <= m + d / 2 < q * d + d by {
      assert m + d / 2 == d * q + (m + d / 2) % d;
    }
  }

  /** Narrowing gives the nearest representable value, half away from zero; it fails
      exactly when the divisor overflows.  The unsigned intermediate sum never does. */
  lemma NarrowingRounds(u: i64, fromScale: u8, toScale: u8)
    requires toScale < fromScale
    ensures var d, r := Pow10(fromScale - toScale), Rescale(u, fromScale, toScale);
      && (r.Ok? <==> fromScale - toScale <= 19)
      && (r.Ok? ==> NearestAway(u, d, r.value) && Abs(u) + d / 2 <= U64_MAX)
  {
    hide Pow10;
    var k := fromScale - toScale;
    var d := Pow10(k);
    CheckedPow(k);
    HalfUp(Abs(u), d);
    if k <= 19 {
      DivisorRange(k);
      var q := (Abs(u) + d / 2) / d;
      SmallQuotient(Abs(u) + d / 2, d);
      assert u < 0 ==> (-q) * d == -(q * d);
    }
  }

  lemma DivisorRange(k: nat)
    requires 1 <= k <= 19
    ensures 10 <= Pow10(k) <= 10_000_000_000_000_000_000
  {
    Pow10Limits();
    Pow10Monotone(k, 19);
    Pow10Monotone(1, k);
    assert Pow10(1) == 10;
  }

  lemma SmallQuotient(n: nat, d: nat)
    requires d >= 10
    ensures n / d <= n / 10
  {
    assert n == d * (n / d) + n % d;
    assert 10 * (n / d) <= d * (n / d);
  }

  /** Widening and then narrowing by the same number of digits is the identity. */
  lemma RescaleBack(u: i64, fromScale: u8, toScale: u8)
    requires fromScale <= toScale && Rescale(u, fromScale, toScale).Ok?
    ensures Rescale(Rescale(u, fromScale, toScale).value, toScale, fromScale) == Ok(u)
  {
    hide Pow10;
    var k := toScale - fromScale;
    var d := Pow10(k);
    CheckedPow(k);
    SignedProduct(u, d);
    if k == 0 {
      assert d == 1 by { NoDigitsShift(); }
      assert u * 1 == u;
    } else {
      DivisorRange(k);
      assert Abs(u) * d == Abs(u) * 10 + Abs(u) * (d - 10);
      DivideBack(Abs(u), d, d / 2);
    }
  }

  lemma NoDigitsShift()
    ensures Pow10(0) == 1
  {}

  lemma SignedProduct(u: int, d: nat)
    requires d > 0
    ensures Abs(u * d) == Abs(u) * d && (u * d < 0 <==> u < 0)
  {
    if u < 0 {
      assert (0 - u) * d == 0 - u * d;
      AtLeastOnce(d, 0 - u);
    }
  }

  lemma DivideBack(m: nat, d: nat, r: nat)
    requires r < d
    ensures (m * d + r) / d == m
  {
    var n := m * d + r;
    var q := n / d;
    assert d * (q - m) == r - n % d by {
      assert n == d * q + n % d;
      assert d * (q - m) == d * q - d * m;
    }
    assert d * (q - m) == -(d * (m - q));
    if q > m {
      AtLeastOnce(d, q - m);
    } else if q < m {
      AtLeastOnce(d, m - q);
    }
  }

  lemma AtLeastOnce(d: nat, k: nat)
    requires k >= 1
    ensures d * k >= d
  {}

  // ---- dates ----

  predicate DigitsIn(s: Text, lo: int, hi: int) {
    && AllDigits(s) && s != []
    && lo <= DigitsValue(s) <= hi
  }

  /** The texts `parse_date_literal` accepts: YYYY-MM-DD with a month and day in range. */
  predicate ValidDate(s: Text) {
    && |s| == 10 && s[4] == MINUS && s[7] == MINUS
    && AllDigits(s[..4])
    && DigitsIn(s[5..7], 1, 12)
    && DigitsIn(s[8..], 1, 31)
  }

  function ParseDate(s: Text): (r: Result<Text>) {
    if ValidDate(s) then Ok(s) else Err(Execution)
  }
}
