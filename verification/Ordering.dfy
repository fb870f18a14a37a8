/** How the executor orders and compares values: `value_ordering`, `scale_up`,
    `compare_values`; where that is a total order, and where it agrees with the equality
    that hash tables use. */
module Ordering {
  import opened Basics
  import opened Values
  import opened Ast
  import opened DecimalText
  import opened Conversions

  datatype Order = Less | Equal | Greater

  function Reverse(o: Order): Order {
    match o
    case Less => Greater
    case Equal => Equal
    case Greater => Less
  }

  function CompareInt(a: int, b: int): Order {
    if a < b then Less else if a == b then Equal else Greater
  }

  /** `str::cmp`: byte by byte. */
  function CompareText(a: Text, b: Text): Order {
    if a == [] && b == [] then Equal
    else if a == [] then Less
    else if b == [] then Greater
    else if a[0] != b[0] then CompareInt(a[0], b[0])
    else CompareText(a[1..], b[1..])
  }

  /** An integer clamped to `i64`, as saturating arithmetic does. */
  function Saturate(n: int): (r: i64) {
    if n < I64_MIN then I64_MIN else if n > I64_MAX then I64_MAX else n
  }

  /** `scale_up`. */
  function ScaleUp(unscaled: i64, extra: nat): i64 {
    if Pow10(extra) <= I64_MAX then Saturate(unscaled * Pow10(extra))
    else if unscaled < 0 then I64_MIN
    else I64_MAX
  }

  function ShownText(v: Value): Text {
    match Display(v)
    case Some(s) => s
    case None => []
  }

  /** `value_ordering`. */
  function ValueOrdering(a: Value, b: Value): Order {
    match (a, b)
    case (Null, Null) => Equal
    case (Null, _) => Less
    case (_, Null) => Greater
    case (Int(m), Int(n)) => CompareInt(m, n)
    case (Varchar(s), Varchar(t)) => CompareText(s, t)
    case (Date(s), Date(t)) => CompareText(s, t)
    case (Decimal(u, s), Decimal(w, t)) =>
      if s == t then CompareInt(u, w)
      else if s < t then CompareInt(ScaleUp(u, t - s), w)
      else CompareInt(u, ScaleUp(w, s - t))
    case (_, _) => CompareText(ShownText(a), ShownText(b))
  }

  /** `compare_values`. */
  predicate CompareValues(actual: Value, op: CompareOp, expected: Value) {
    if actual.Null? || expected.Null? then false
    else
      var o := ValueOrdering(actual, expected);
      match op
      case Eq => o == Equal
      case NotEq => o != Equal
      case Lt => o == Less
      case Gt => o == Greater
      case Le => o != Greater
      case Ge => o != Less
  }

  // ---- texts ----

  lemma {:induction false} TextEqual(a: Text, b: Text)
    ensures CompareText(a, b) == Equal <==> a == b
  {
    if a != [] && b != [] && a[0] == b[0] {
      TextEqual(a[1..], b[1..]);
      assert a == [a[0]] + a[1..] && b == [b[0]] + b[1..];
    }
  }

  lemma {:induction false} TextFlips(a: Text, b: Text)
    ensures CompareText(b, a) == Reverse(CompareText(a, b))
  {
    if a != [] && b != [] && a[0] == b[0] {
      TextFlips(a[1..], b[1..]);
    }
  }

  lemma {:induction false} TextTransitive(a: Text, b: Text, c: Text)
    requires CompareText(a, b) != Greater && CompareText(b, c) != Greater
    ensures CompareText(a, c) != Greater
  {
    if a != [] && b != [] && c != [] && a[0] == b[0] == c[0] {
      TextTransitive(a[1..], b[1..], c[1..]);
    }
  }

  // ---- a total order on every column type ----

  /** Swapping the arguments reverses the answer, whatever the types. */
  lemma OrderFlips(a: Value, b: Value)
    ensures ValueOrdering(b, a) == Reverse(ValueOrdering(a, b))
  {
    hide Display, ScaleUp;
    TextFlips(ShownText(a), ShownText(b));
    match (a, b)
    case (Varchar(s), Varchar(t)) => TextFlips(s, t);
    case (Date(s), Date(t)) => TextFlips(s, t);
    case (_, _) =>
  }

  /** Values of one column are equal in order only if they are the same value. */
  lemma OrderEqual(a: Value, b: Value, t: ColumnType)
    requires HasType(a, t) && HasType(b, t)
    ensures ValueOrdering(a, b) == Equal <==> a == b
  {
    match (a, b)
    case (Varchar(x), Varchar(y)) => TextEqual(x, y);
    case (Date(x), Date(y)) => TextEqual(x, y);
    case (_, _) =>
  }

  lemma OrderTransitive(a: Value, b: Value, c: Value, t: ColumnType)
    requires HasType(a, t) && HasType(b, t) && HasType(c, t)
    requires ValueOrdering(a, b) != Greater && ValueOrdering(b, c) != Greater
    ensures ValueOrdering(a, c) != Greater
  {
    match (a, b, c)
    case (Varchar(x), Varchar(y), Varchar(z)) => TextTransitive(x, y, z);
    case (Date(x), Date(y), Date(z)) => TextTransitive(x, y, z);
    case (_, _, _) =>
  }

  // ---- what the order means ----

  /** The two agree up to `k`, where `a` has the smaller byte or ends. */
  predicate BeforeAt(a: Text, b: Text, k: nat) {
    k <= |a| && k < |b| && a[..k] == b[..k] && (k == |a| || a[k] < b[k])
  }

  ghost predicate TextBefore(a: Text, b: Text) {
    exists k: nat :: BeforeAt(a, b, k)
  }

  /** `str::cmp` is the lexicographic order. */
  lemma {:induction false} TextOrderMeans(a: Text, b: Text)
    ensures CompareText(a, b) == Less <==> TextBefore(a, b)
  {
    if a != [] && b != [] && a[0] == b[0] {
      TextOrderMeans(a[1..], b[1..]);
      BeforeTail(a, b);
    } else if b != [] && (a == [] || a[0] < b[0]) {
      assert BeforeAt(a, b, 0);
    } else {
      forall k: nat
        ensures !BeforeAt(a, b, k)
      {
        LargerFirst(a, b, k);
      }
    }
  }

  lemma LargerFirst(a: Text, b: Text, k: nat)
    requires b == [] || (a != [] && a[0] > b[0])
    ensures !BeforeAt(a, b, k)
  {
    assert 0 < k <= |a| && k < |b| ==> a[..k][0] == a[0] && b[..k][0] == b[0];
  }

  lemma BeforeTail(a: Text, b: Text)
    requires a != [] && b != [] && a[0] == b[0]
    ensures TextBefore(a, b) <==> TextBefore(a[1..], b[1..])
  {
    hide BeforeAt;
    if TextBefore(a, b) {
      var k: nat :| BeforeAt(a, b, k);
      assert k > 0 by { NotAtOnce(a, b); }
      OneLater(a, b, k - 1);
    }
    if TextBefore(a[1..], b[1..]) {
      var k: nat :| BeforeAt(a[1..], b[1..], k);
      OneLater(a, b, k);
    }
  }

  lemma NotAtOnce(a: Text, b: Text)
    requires a != [] && b != [] && a[0] == b[0]
    ensures !BeforeAt(a, b, 0)
  {}

  lemma OneLater(a: Text, b: Text, k: nat)
    requires a != [] && b != [] && a[0] == b[0]
    ensures BeforeAt(a, b, k + 1) <==> BeforeAt(a[1..], b[1..], k)
  {
    if k + 1 <= |a| && k + 1 <= |b| {
      assert a[..k + 1] == [a[0]] + a[1..][..k] && b[..k + 1] == [b[0]] + b[1..][..k];
      assert a[1..][..k] == a[..k + 1][1..] && b[1..][..k] == b[..k + 1][1..];
    }
  }

  /** The order of two values of one column: NULL first, numbers by size, texts and dates
      lexicographically. */
  ghost predicate ComesBefore(a: Value, b: Value) {
    match (a, b)
    case (Null, _) => !b.Null?
    case (Int(m), Int(n)) => m < n
    case (Decimal(u, _), Decimal(w, _)) => u < w
    case (Varchar(x), Varchar(y)) => TextBefore(x, y)
    case (Date(x), Date(y)) => TextBefore(x, y)
    case (_, _) => false
  }

  lemma OrderMeans(a: Value, b: Value, t: ColumnType)
    requires HasType(a, t) && HasType(b, t)
    ensures ValueOrdering(a, b) == Less <==> ComesBefore(a, b)
    ensures ValueOrdering(a, b) == Greater <==> ComesBefore(b, a)
  {
    hide TextBefore, CompareText;
    OrderFlips(a, b);
    match (a, b)
    case (Varchar(x), Varchar(y)) =>
      TextOrderMeans(x, y);
      TextOrderMeans(y, x);
    case (Date(x), Date(y)) =>
      TextOrderMeans(x, y);
      TextOrderMeans(y, x);
    case (_, _) =>
  }

  /** The six comparisons of WHERE on one column: NULL satisfies none of them, and
      otherwise they are equality and the order of the values. */
  lemma CompareMeans(a: Value, op: CompareOp, b: Value, t: ColumnType)
    requires HasType(a, t) && HasType(b, t)
    ensures CompareValues(a, op, b) <==>
      && !a.Null? && !b.Null?
      && match op
         case Eq => a == b
         case NotEq => a != b
         case Lt => ComesBefore(a, b)
         case Gt => ComesBefore(b, a)
         case Le => ComesBefore(a, b) || a == b
         case Ge => ComesBefore(b, a) || a == b
  {
    hide HasType, ValueOrdering, ComesBefore;
    OrderMeans(a, b, t);
    OrderEqual(a, b, t);
  }

  /** Across types there is no order: 10 < '5' < 9 < 10. */
  lemma MixedTypesCycle()
    ensures ValueOrdering(Int(10), Varchar([ZERO + 5])) == Less
    ensures ValueOrdering(Varchar([ZERO + 5]), Int(9)) == Less
    ensures ValueOrdering(Int(9), Int(10)) == Less
  {
    assert DigitsOf(10) == [ZERO + 1] + [ZERO];
    assert DigitsOf(9) == [ZERO + 9];
  }

  // ---- decimals of different scales ----

  /** The exact comparison of `u / 10^s` with `w / 10^t`, for `s <= t`. */
  function ExactOrder(u: int, s: nat, w: int, t: nat): Order
    requires s <= t
  {
    CompareInt(u * Pow10(t - s), w)
  }

  /** Whether bringing both to the larger scale goes wrong: the scaled number saturates
      onto the other one, or the factor itself is too large and the number is zero. */
  predicate SaturationMisleads(u: i64, w: i64, extra: nat) {
    if Pow10(extra) <= I64_MAX then
      || (u * Pow10(extra) > I64_MAX && w == I64_MAX)
      || (u * Pow10(extra) < I64_MIN && w == I64_MIN)
    else
      || (u > 0 && w == I64_MAX) || (u < 0 && w == I64_MIN) || (u == 0 && w >= 0)
  }

  /** Zero with no decimals comes out greater than zero with nineteen. */
  lemma ZeroAboveZero()
    ensures ValueOrdering(Decimal(0, 0), Decimal(0, 19)) == Greater
    ensures ExactOrder(0, 0, 0, 19) == Equal
  {
    hide Pow10;
    Pow10Limits();
  }

  /** Comparing decimals of different scales is exact, unless saturation misleads it. */
  lemma DecimalOrderExact(u: i64, s: u8, w: i64, t: u8)
    requires s <= t
    ensures ValueOrdering(Decimal(u, s), Decimal(w, t)) == ExactOrder(u, s, w, t)
       <==> s == t || !SaturationMisleads(u, w, t - s)
  {
    hide Pow10;
    var p := Pow10(t - s);
    assert s == t ==> p == 1 by { NoDigitsShift(); }
    assert u * 1 == u;
    if s != t {
      if u > 0 {
        assert u * p >= p by { AtLeast(u, p); }
      } else if u < 0 {
        assert (0 - u) * p >= p by { AtLeast(0 - u, p); }
        assert (0 - u) * p == 0 - u * p;
      } else {
        assert u * p == 0;
      }
      assert 10 * I64_MAX >= 0 - I64_MIN;
      CheckedPow(t - s);
      if t - s >= 19 {
        Pow10Monotone(19, t - s);
        Pow10Limits();
      }
    }
  }

  lemma AtLeast(u: int, p: nat)
    requires u >= 1
    ensures u * p >= p
  {
    assert (u - 1) * p >= 0;
    assert u * p == (u - 1) * p + p;
  }

  // ---- WHERE equality and hash equality ----

  /** Do `compare_values` with `=` and the derived equality of hash keys agree on every
      pair of non-NULL values of these column types? */
  ghost predicate EqualitiesAgree(s: ColumnType, t: ColumnType) {
    forall a, b :: HasType(a, s) && HasType(b, t) && !a.Null? && !b.Null? ==> (CompareValues(a, Eq, b) <==> a == b)
  }

  /** The type pairs on which the two equalities part. */
  predicate TypesPart(s: ColumnType, t: ColumnType) {
    match (s, t)
    case (TVarchar, TVarchar) => false
    case (TVarchar, _) => true
    case (_, TVarchar) => true
    case (TInt, TDecimal(k)) => k == 0
    case (TDecimal(k), TInt) => k == 0
    case (TDecimal(j), TDecimal(k)) => j != k
    case (_, _) => false
  }

  lemma PlainNumber(n: i64)
    ensures forall i :: 1 <= i < |FormatInt(n)| ==> IsDigit(FormatInt(n)[i])
    ensures forall i :: 0 <= i < |FormatInt(n)| ==> FormatInt(n)[i] != DOT
  {
    hide DigitsOf;
  }

  lemma DottedNumber(u: i64, scale: u8)
    requires scale > 0
    ensures exists i :: 0 <= i < |FormatDecimal(u, scale)| && FormatDecimal(u, scale)[i] == DOT
  {
    hide PaddedDigits;
    var digits := PaddedDigits(u, scale);
    var cut := |digits| - scale;
    var sign: Text := if u < 0 then [MINUS] else [];
    assert FormatDecimal(u, scale)[|sign| + cut] == DOT;
  }

  lemma DateShape(s: Text)
    requires ValidDate(s)
    ensures |s| == 10 && s[4] == MINUS && forall i :: 0 <= i < |s| ==> s[i] != DOT
  {
    assert forall i :: 0 <= i < 4 ==> s[..4][i] == s[i];
    assert forall i :: 5 <= i < 7 ==> s[5..7][i - 5] == s[i];
    assert forall i :: 8 <= i < 10 ==> s[8..][i - 8] == s[i];
  }

  /** Texts of different non-text types differ, except 7 and the DECIMAL(.., 0) 7. */
  lemma TextsDiffer(a: Value, b: Value, s: ColumnType, t: ColumnType)
    requires HasType(a, s) && HasType(b, t) && !a.Null? && !b.Null? && s != t && !TypesPart(s, t)
    ensures ShownText(a) != ShownText(b)
  {
    hide FormatInt, FormatDecimal, ValidDate;
    OneTextShape(a, s);
    OneTextShape(b, t);
  }

  /** What tells the texts of non-text values apart: a dot, or a dash in the fifth place. */
  lemma OneTextShape(v: Value, t: ColumnType)
    requires HasType(v, t) && !v.Null? && t != TVarchar
    ensures var s := ShownText(v);
      && ((exists i :: 0 <= i < |s| && s[i] == DOT) <==> t.TDecimal? && t.scale > 0)
      && ((|s| == 10 && s[4] == MINUS) ==> t == TDate || (t.TDecimal? && t.scale > 0))
      && (t == TDate ==> |s| == 10 && s[4] == MINUS)
  {
    hide FormatInt, ValidDate, PaddedDigits, DigitsOf;
    match v
    case Int(n) => PlainNumber(n);
    case Decimal(u, scale) =>
      if scale > 0 {
        DottedNumber(u, scale);
        var i :| 0 <= i < |FormatDecimal(u, scale)| && FormatDecimal(u, scale)[i] == DOT;
        assert ShownText(v)[i] == DOT;
      } else {
        PlainNumber(u);
      }
    case Date(s) => DateShape(s);
  }

  /** The two equalities agree on all values of two column types exactly if the types do
      not part: always for equal types, never for text against anything else, for INT
      against DECIMAL(.., 0), or for decimals of different scales. */
  lemma WhereAgreesWithHash(s: ColumnType, t: ColumnType)
    ensures EqualitiesAgree(s, t) <==> !TypesPart(s, t)
  {
    hide Display, FormatInt, FormatDecimal;
    if TypesPart(s, t) {
      var a, b := PartingValues(s, t);
      assert !(CompareValues(a, Eq, b) <==> a == b);
    } else {
      forall a, b | HasType(a, s) && HasType(b, t) && !a.Null? && !b.Null?
        ensures CompareValues(a, Eq, b) <==> a == b
      {
        if s == t {
          OrderEqual(a, b, s);
        } else {
          TextsDiffer(a, b, s, t);
          TextEqual(ShownText(a), ShownText(b));
        }
      }
    }
  }

  /** Two different values that WHERE calls equal. */
  lemma PartingValues(s: ColumnType, t: ColumnType) returns (a: Value, b: Value)
    requires TypesPart(s, t)
    ensures HasType(a, s) && HasType(b, t) && !a.Null? && !b.Null? && a != b
    ensures CompareValues(a, Eq, b)
  {
    a, b := SomeValue(s), SomeValue(t);
    if s == TVarchar {
      a := Varchar(ShownText(b));
      TextEqual(ShownText(a), ShownText(b));
    } else if t == TVarchar {
      b := Varchar(ShownText(a));
      TextEqual(ShownText(a), ShownText(b));
    } else if s.TDecimal? && t.TDecimal? {
      a, b := PartingDecimals(s.scale, t.scale);
    } else {
      TextEqual(ShownText(a), ShownText(b));
    }
  }

  function SomeValue(t: ColumnType): (v: Value)
    ensures HasType(v, t) && !v.Null?
  {
    match t
    case TInt => Int(0)
    case TVarchar => Varchar([])
    case TDecimal(scale) => Decimal(0, scale)
    case TDate => ValidDateExample(); Date(DATE_EXAMPLE)
  }

  const DATE_EXAMPLE: Text := [ZERO, ZERO, ZERO, ZERO, MINUS, ZERO, ZERO + 1, MINUS, ZERO, ZERO + 1]

  lemma ValidDateExample()
    ensures ValidDate(DATE_EXAMPLE)
  {
    var s := DATE_EXAMPLE;
    assert s[5..7] == [ZERO, ZERO + 1] && s[8..] == [ZERO, ZERO + 1];
    assert [ZERO, ZERO + 1][..1] == [ZERO] && [ZERO][..0] == [];
    assert DigitsValue([ZERO]) == 0;
  }

  lemma PartingDecimals(s: u8, t: u8) returns (a: Value, b: Value)
    requires s != t
    ensures a.Decimal? && b.Decimal? && a.scale == s && b.scale == t && CompareValues(a, Eq, b)
  {
    hide Pow10;
    var extra: nat := Abs(t - s);
    var big: i64 := if Pow10(extra) <= I64_MAX then 0 else I64_MAX;
    a, b := if s < t then Decimal(0, s) else Decimal(big, s), if s < t then Decimal(big, t) else Decimal(0, t);
    assert 0 * Pow10(extra) == 0;
  }
}
