/** Converting values between column types: `retype_value` (MODIFY COLUMN) and
    `coerce` (literals), and which conversions lose nothing. */
module Conversions {
  import opened Basics
  import opened Values
  import opened Ast
  import opened DecimalText

  /** A value a column of this type may hold. */
  predicate HasType(v: Value, t: ColumnType) {
    match v
    case Null => true
    case Int(_) => t == TInt
    case Varchar(_) => t == TVarchar
    case Decimal(_, scale) => t == TDecimal(scale)
    case Date(day) => t == TDate && ValidDate(day)
  }

  /** `Value::to_display_string`. */
  function Display(v: Value): (r: Option<Text>) {
    match v
    case Int(n) => Some(FormatInt(n))
    case Varchar(s) => Some(s)
    case Decimal(u, scale) => Some(FormatDecimal(u, scale))
    case Date(s) => Some(s)
    case Null => None
  }

  function AsDecimal(r: Result<i64>, scale: u8): Result<Value> {
    match r
    case Ok(u) => Ok(Decimal(u, scale))
    case Err(e) => Err(e)
  }

  function TextAsInt(s: Text): Result<Value> {
    match ParseInt(s)
    case Some(n) => Ok(Int(n))
    case None => Err(Execution)
  }

  function TextAsDecimal(s: Text, scale: u8): Result<Value> {
    var f :- ParseDecimal(s);
    AsDecimal(Rescale(f.unscaled, f.scale, scale), scale)
  }

  function TextAsDate(s: Text): Result<Value> {
    var day :- ParseDate(s);
    Ok(Date(day))
  }

  /** `retype_value`. */
  function Retype(v: Value, t: ColumnType): (r: Result<Value>) {
    match (v, t)
    case (Null, _) => Ok(Null)
    case (Int(n), TInt) => Ok(Int(n))
    case (Int(n), TVarchar) => Ok(Varchar(FormatInt(n)))
    case (Int(n), TDecimal(scale)) => AsDecimal(Rescale(n, 0, scale), scale)
    case (Int(_), TDate) => Err(Execution)
    case (Varchar(s), TVarchar) => Ok(Varchar(s))
    case (Varchar(s), TInt) => TextAsInt(s)
    case (Varchar(s), TDecimal(scale)) => TextAsDecimal(s, scale)
    case (Varchar(s), TDate) => TextAsDate(s)
    case (Decimal(u, scale), TDecimal(wanted)) => AsDecimal(Rescale(u, scale, wanted), wanted)
    case (Decimal(u, scale), TInt) =>
      var n :- Rescale(u, scale, 0);
      Ok(Int(n))
    case (Decimal(u, scale), TVarchar) => Ok(Varchar(FormatDecimal(u, scale)))
    case (Decimal(_, _), TDate) => Err(Execution)
    case (Date(s), TDate) => Ok(Date(s))
    case (Date(s), TVarchar) => Ok(Varchar(s))
    case (Date(_), TInt) => Err(Execution)
    case (Date(_), TDecimal(_)) => Err(Execution)
  }

  /** `coerce`: a parsed literal as a value of a column. */
  function Coerce(e: Expr, t: ColumnType): (r: Result<Value>) {
    match (e, t)
    case (NullLiteral, _) => Ok(Null)
    case (Integer(n), TInt) => Ok(Int(n))
    case (Integer(n), TVarchar) => Ok(Varchar(FormatInt(n)))
    case (Integer(n), TDecimal(scale)) => AsDecimal(Rescale(n, 0, scale), scale)
    case (Integer(_), TDate) => Err(Execution)
    case (String(s), TVarchar) => Ok(Varchar(s))
    case (String(s), TInt) => TextAsInt(s)
    case (String(s), TDecimal(scale)) => TextAsDecimal(s, scale)
    case (String(s), TDate) => TextAsDate(s)
    case (DecimalLiteral(u, scale), TDecimal(wanted)) => AsDecimal(Rescale(u, scale, wanted), wanted)
    case (DecimalLiteral(u, scale), TInt) =>
      var n :- Rescale(u, scale, 0);
      Ok(Int(n))
    case (DecimalLiteral(u, scale), TVarchar) => Ok(Varchar(FormatDecimal(u, scale)))
    case (DecimalLiteral(_, _), TDate) => Err(Execution)
    case (_, _) => Err(Execution)
  }

  // ---- results are typed, and NULL only comes from NULL ----

  lemma RetypeTyped(v: Value, source: ColumnType, t: ColumnType)
    requires HasType(v, source) && Retype(v, t).Ok?
    ensures HasType(Retype(v, t).value, t)
    ensures Retype(v, t).value.Null? <==> v.Null?
  {
    hide ParseDecimal, ParseInt, FormatDecimal, FormatInt, Rescale, ValidDate;
  }

  lemma CoerceTyped(e: Expr, t: ColumnType)
    requires Coerce(e, t).Ok?
    ensures HasType(Coerce(e, t).value, t)
    ensures Coerce(e, t).value.Null? <==> e.NullLiteral?
  {
    hide ParseDecimal, ParseInt, FormatDecimal, FormatInt, Rescale, ValidDate;
  }

  /** The value a literal stands for. */
  function LiteralValue(e: Expr): Option<Value> {
    match e
    case NullLiteral => Some(Null)
    case Integer(n) => Some(Int(n))
    case DecimalLiteral(u, scale) => Some(Decimal(u, scale))
    case String(s) => Some(Varchar(s))
    case _ => None
  }

  /** Inserting a literal and retyping a stored value are the same conversion; anything
      but a literal is refused. */
  lemma CoerceIsRetype(e: Expr, t: ColumnType)
    ensures Coerce(e, t) ==
      match LiteralValue(e)
      case Some(v) => Retype(v, t)
      case None => Err(Execution)
  {
    hide ParseDecimal, ParseInt, FormatDecimal, FormatInt, Rescale, ValidDate;
    match t
    case TInt =>
    case TVarchar =>
    case TDecimal(_) =>
    case TDate =>
  }

  // ---- conversions that can be undone ----

  /** The column types every value of `a` can be carried to and back from. */
  predicate Undoable(a: ColumnType, b: ColumnType) {
    match (a, b)
    case (TInt, TVarchar) => true
    case (TInt, TDecimal(_)) => true
    case (TDecimal(s), TDecimal(t)) => s <= t
    case (TDecimal(_), TVarchar) => true
    case (TDate, TVarchar) => true
    case (_, _) => a == b
  }

  lemma SameScale(u: i64, scale: u8)
    ensures Rescale(u, scale, scale) == Ok(u)
  {
    assert u * 1 == u;
  }

  /** Carrying a value over and back restores it, exactly unless it is the one number
      whose text does not read back: a DECIMAL of `i64::MIN` through VARCHAR. */
  lemma RetypeUndone(v: Value, a: ColumnType, b: ColumnType)
    requires HasType(v, a) && Undoable(a, b) && Retype(v, b).Ok?
    ensures Retype(Retype(v, b).value, a) == Ok(v)
       <==> !(v.Decimal? && v.unscaled == I64_MIN && b == TVarchar)
  {
    hide ParseDecimal, ParseInt, FormatDecimal, FormatInt, Rescale;
    match (v, b)
    case (Int(n), TVarchar) => IntRoundTrip(n);
    case (Int(n), TDecimal(scale)) => RescaleBack(n, 0, scale);
    case (Decimal(u, scale), TDecimal(wanted)) => RescaleBack(u, scale, wanted);
    case (Decimal(u, scale), TVarchar) =>
      DecimalRoundTrip(u, scale);
      SameScale(u, scale);
    case (_, _) =>
  }

  // ---- numbers stay the numbers they are ----

  /** The decimal places of a numeric type. */
  function Places(t: ColumnType): Option<u8> {
    match t
    case TInt => Some(0)
    case TDecimal(scale) => Some(scale)
    case _ => None
  }

  /** A number counted in units of its last decimal place. */
  function Units(v: Value): int {
    match v
    case Int(n) => n
    case Decimal(u, _) => u
    case _ => 0
  }

  /** Between numeric types a value stays the same number if it gains decimal places, and
      becomes the nearest one, ties away from zero, if it loses some; and exactly when the
      conversion is refused. */
  lemma RetypeNumeric(v: Value, a: ColumnType, b: ColumnType)
    requires HasType(v, a) && !v.Null? && Places(a).Some? && Places(b).Some?
    ensures var s, t, r := Places(a).value, Places(b).value, Retype(v, b);
      && (r.Ok? ==> HasType(r.value, b) && !r.value.Null?)
      && (s <= t ==>
            && (r.Ok? <==> t - s <= 18 && FitsI64(Units(v) * Pow10(t - s)))
            && (r.Ok? ==> Units(r.value) == Units(v) * Pow10(t - s)))
      && (s > t ==>
            && (r.Ok? <==> s - t <= 19)
            && (r.Ok? ==> NearestAway(Units(v), Pow10(s - t), Units(r.value))))
  {
    hide Pow10, NearestAway, Rescale;
    var s, t := Places(a).value, Places(b).value;
    if s <= t {
      WideningExact(Units(v), s, t);
      if a == TInt && b == TInt {
        SameScale(Units(v), 0);
        CheckedPow(0);
      }
    } else {
      NarrowingRounds(Units(v), s, t);
    }
  }

  // ---- conversions that keep keys apart ----

  /** Whether MODIFY COLUMN from `a` to `b` keeps different values different. */
  predicate KeySafe(a: ColumnType, b: ColumnType) {
    match (a, b)
    case (TVarchar, TInt) => false
    case (TVarchar, TDecimal(_)) => false
    case (TDecimal(s), TDecimal(t)) => s <= t || s >= t + 20
    case (TDecimal(s), TInt) => s == 0 || s >= 20
    case (_, _) => true
  }

  lemma FormatIntInjective(m: i64, n: i64)
    requires FormatInt(m) == FormatInt(n)
    ensures m == n
  {
    hide FormatInt, ParseInt;
    IntRoundTrip(m);
    IntRoundTrip(n);
  }

  lemma FormatDecimalInjective(u: i64, w: i64, scale: u8)
    requires FormatDecimal(u, scale) == FormatDecimal(w, scale)
    ensures u == w
  {
    hide FormatDecimal, ParseDecimal;
    DecimalRoundTrip(u, scale);
    DecimalRoundTrip(w, scale);
  }

  lemma WideningInjective(u: i64, w: i64, fromScale: u8, toScale: u8)
    requires fromScale <= toScale
    requires Rescale(u, fromScale, toScale).Ok? && Rescale(u, fromScale, toScale) == Rescale(w, fromScale, toScale)
    ensures u == w
  {
    hide Rescale;
    RescaleBack(u, fromScale, toScale);
    RescaleBack(w, fromScale, toScale);
  }

  lemma KeySafeInjective(v: Value, w: Value, a: ColumnType, b: ColumnType)
    requires KeySafe(a, b) && HasType(v, a) && HasType(w, a) && !v.Null? && !w.Null?
    requires Retype(v, b).Ok? && Retype(v, b) == Retype(w, b)
    ensures v == w
  {
    hide ParseDecimal, ParseInt, FormatDecimal, FormatInt, Rescale, ValidDate;
    match (v, b)
    case (Int(n), TVarchar) => FormatIntInjective(n, w.n);
    case (Int(n), TDecimal(scale)) => WideningInjective(n, w.n, 0, scale);
    case (Decimal(u, scale), TDecimal(wanted)) => DecimalKeys(u, w.unscaled, scale, wanted);
    case (Decimal(u, scale), TInt) => DecimalKeys(u, w.unscaled, scale, 0);
    case (Decimal(u, scale), TVarchar) => FormatDecimalInjective(u, w.unscaled, scale);
    case (_, _) =>
  }

  lemma DecimalKeys(u: i64, w: i64, fromScale: u8, toScale: u8)
    requires fromScale <= toScale || fromScale >= toScale + 20
    requires Rescale(u, fromScale, toScale).Ok? && Rescale(u, fromScale, toScale) == Rescale(w, fromScale, toScale)
    ensures u == w
  {
    hide Rescale;
    if fromScale <= toScale {
      WideningInjective(u, w, fromScale, toScale);
    } else {
      NarrowingRounds(u, fromScale, toScale);
    }
  }

  ghost predicate Collide(v: Value, w: Value, a: ColumnType, b: ColumnType) {
    && HasType(v, a) && HasType(w, a) && !v.Null? && !w.Null? && v != w
    && Retype(v, b).Ok? && Retype(v, b) == Retype(w, b)
  }

  lemma ZeroTexts(k: nat, scale: u8)
    requires k >= 1
    ensures ParseDecimal(Zeros(k) + [DOT] + Zeros(scale)) == Ok(Fixed(0, scale))
  {
    hide ParseUnsigned, DigitsValue;
    ParseDotted(Zeros(k), Zeros(scale));
    assert Zeros(k) + Zeros(scale) == Zeros(k + scale) + [];
    LeadingZeros(k + scale, []);
    assert DigitsValue([]) == 0 by { NoDigits(); }
    assert (Zeros(k) + [DOT] + Zeros(scale))[0] == ZERO;
  }

  lemma NoDigits()
    ensures DigitsValue([]) == 0
  {}

  /** Every other pair of types really does merge two keys of some table. */
  lemma KeyUnsafeCollides(a: ColumnType, b: ColumnType) returns (v: Value, w: Value)
    requires !KeySafe(a, b)
    ensures Collide(v, w, a, b)
  {
    match (a, b)
    case (TVarchar, TInt) =>
      v, w := Varchar([ZERO + 1]), Varchar([ZERO, ZERO + 1]);
      OneAndZeroOne();
    case (TVarchar, TDecimal(scale)) =>
      v, w := Varchar(Zeros(1) + [DOT] + Zeros(scale)), Varchar(Zeros(2) + [DOT] + Zeros(scale));
      ZeroTexts(1, scale);
      ZeroTexts(2, scale);
    case (TDecimal(s), TDecimal(t)) =>
      v, w := Decimal(0, s), Decimal(1, s);
      BothToZero(s, t);
    case (TDecimal(s), TInt) =>
      v, w := Decimal(0, s), Decimal(1, s);
      BothToZero(s, 0);
  }

  lemma OneAndZeroOne()
    ensures ParseInt([ZERO + 1]) == Some(1) && ParseInt([ZERO, ZERO + 1]) == Some(1)
  {
    assert [ZERO + 1][..0] == [];
    assert [ZERO, ZERO + 1][..1] == [ZERO] && [ZERO][..0] == [];
    assert DigitsValue([ZERO]) == 0 && DigitsValue([ZERO + 1]) == 1;
    assert DigitsValue([ZERO, ZERO + 1]) == 1;
  }

  lemma BothToZero(s: u8, t: u8)
    requires t < s < t + 20
    ensures Rescale(0, s, t) == Ok(0) && Rescale(1, s, t) == Ok(0)
  {
    hide Pow10;
    var d := Pow10(s - t);
    CheckedPow(s - t);
    DivisorRange(s - t);
    DivideBack(0, d, d / 2);
    DivideBack(0, d, 1 + d / 2);
  }
}
