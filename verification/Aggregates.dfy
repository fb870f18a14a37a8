/** The aggregate functions COUNT, SUM, AVG, MIN and MAX over one group of rows. */
module Aggregates {
  import opened Basics
  import opened Values
  import opened Conversions
  import opened DecimalText
  import opened Ordering

  datatype AggregateFn = Count | Sum | Avg | MinOf | MaxOf

  function Cell(row: Row, idx: nat): Value {
    if idx < |row| then row[idx] else Null
  }

  /** Which cells a sum takes as numbers: SUM goes by the column's type, AVG takes both. */
  datatype Numeric = OnlyInt | OnlyDecimal | Either

  /** The number a cell stands for, in units of the column's scale. */
  function NumberOf(v: Value, kind: Numeric): Option<int> {
    match v
    case Int(n) => if kind != OnlyDecimal then Some(n) else None
    case Decimal(u, _) => if kind != OnlyInt then Some(u) else None
    case _ => None
  }

  // ---- exact sums ----

  function Total(rows: seq<Row>, idx: nat, kind: Numeric): int {
    if rows == [] then 0
    else
      var n := |rows| - 1;
      Total(rows[..n], idx, kind) + match NumberOf(Cell(rows[n], idx), kind) case Some(x) => x case None => 0
  }

  function Numbers(rows: seq<Row>, idx: nat, kind: Numeric): (n: nat)
    ensures n <= |rows|
  {
    if rows == [] then 0
    else
      var n := |rows| - 1;
      Numbers(rows[..n], idx, kind) + if NumberOf(Cell(rows[n], idx), kind).Some? then 1 else 0
  }

  /** No partial sum leaves the range of `i64`. */
  predicate PrefixesFit(rows: seq<Row>, idx: nat, kind: Numeric) {
    forall n :: 0 <= n <= |rows| ==> FitsI64(Total(rows[..n], idx, kind))
  }

  /** The checked running sum of SUM and AVG, and how many numbers went into it. */
  method AddUp(rows: seq<Row>, idx: nat, kind: Numeric) returns (r: Result<(i64, nat)>)
    ensures r.Ok? <==> PrefixesFit(rows, idx, kind)
    ensures r.Ok? ==> r.value.0 == Total(rows, idx, kind) && r.value.1 == Numbers(rows, idx, kind)
    ensures r.Err? ==> r.error == Execution
  {
    var sum: int, count := 0, 0;
    for i := 0 to |rows|
      invariant sum == Total(rows[..i], idx, kind) && count == Numbers(rows[..i], idx, kind)
      invariant forall n :: 0 <= n <= i ==> FitsI64(Total(rows[..n], idx, kind))
    {
      assert rows[..i + 1][..i] == rows[..i];
      var x := NumberOf(Cell(rows[i], idx), kind);
      if x.Some? {
        if !FitsI64(sum + x.value) {
          return Err(Execution);
        }
        sum, count := sum + x.value, count + 1;
      }
    }
    assert rows[..|rows|] == rows;
    r := Ok((sum, count));
  }

  // ---- SUM ----

  function KindOf(t: ColumnType): Numeric {
    if t.TInt? then OnlyInt else OnlyDecimal
  }

  function SumValue(rows: seq<Row>, idx: nat, t: ColumnType): Result<Value> {
    if !(t.TInt? || t.TDecimal?) || !PrefixesFit(rows, idx, KindOf(t)) then Err(Execution)
    else
      assert rows[..|rows|] == rows;
      if Numbers(rows, idx, KindOf(t)) == 0 then Ok(Null)
      else if t.TInt? then Ok(Int(Total(rows, idx, KindOf(t))))
      else Ok(Decimal(Total(rows, idx, KindOf(t)), t.scale))
  }

  /** An accepted SUM is the exact sum, of the column's own type; whether it is accepted
      depends on every partial sum, in row order, not on the total alone. */
  method EvaluateSum(rows: seq<Row>, idx: nat, t: ColumnType) returns (r: Result<Value>)
    ensures r.Ok? <==> (t.TInt? || t.TDecimal?) && PrefixesFit(rows, idx, KindOf(t))
    ensures r.Err? ==> r.error == Execution
    ensures r.Ok? ==> HasType(r.value, t) && (r.value.Null? <==> Numbers(rows, idx, KindOf(t)) == 0)
    ensures r.Ok? && !r.value.Null? ==> NumberOf(r.value, KindOf(t)) == Some(Total(rows, idx, KindOf(t)))
    ensures r == SumValue(rows, idx, t)
  {
    if !(t.TInt? || t.TDecimal?) {
      return Err(Execution);
    }
    var sum :- AddUp(rows, idx, KindOf(t));
    if sum.1 == 0 {
      return Ok(Null);
    }
    r := if t.TInt? then Ok(Int(sum.0)) else Ok(Decimal(sum.0, t.scale));
  }

  /** The largest number, one, and minus one add up to a number in range, but not in
      this order. */
  lemma SumRefusesAFittingTotal()
    ensures var rows := [[Int(I64_MAX)], [Int(1)], [Int(-1)]];
      Total(rows, 0, OnlyInt) == I64_MAX && SumValue(rows, 0, TInt) == Err(Execution)
  {
    var rows := [[Int(I64_MAX)], [Int(1)], [Int(-1)]];
    assert rows[..2] == [[Int(I64_MAX)], [Int(1)]] && rows[..2][..1] == [[Int(I64_MAX)]] && rows[..1][..0] == [];
    assert Total(rows[..1], 0, OnlyInt) == I64_MAX;
    assert Total(rows[..2], 0, OnlyInt) == I64_MAX + 1;
  }

  // ---- AVG ----

  /** The scale of an average: four more digits, at most thirty. */
  function AvgScale(scale: u8): (r: u8)
    ensures r <= 30 && (scale <= 26 ==> r == scale + 4)
  {
    Min(scale + 4, 30)
  }

  /** The digits gained, as an unsigned byte: past scale 30 the difference wraps. */
  function AvgShift(scale: u8): (r: nat)
    ensures scale <= 30 ==> r == AvgScale(scale) - scale <= 4
    ensures scale > 30 ==> r >= 31
  {
    if AvgScale(scale) >= scale then AvgScale(scale) - scale else AvgScale(scale) + 256 - scale
  }

  function SourceScale(t: ColumnType): u8 {
    if t.TDecimal? then t.scale else 0
  }

  /** The average of `count` numbers with the given total. */
  function Averaged(total: int, count: nat, scale: u8): Result<Value> {
    var factor := Pow10(AvgShift(scale));
    if count == 0 then Ok(Null)
    else if factor > I64_MAX || !FitsI64(total * factor) then Err(Execution)
    else
      var rounded: int := (Abs(total * factor) + count / 2) / count;
      if rounded > I64_MAX then Err(Execution)
      else Ok(Decimal(if total * factor < 0 then 0 - rounded else rounded, AvgScale(scale)))
  }

  function AvgValue(rows: seq<Row>, idx: nat, t: ColumnType): Result<Value> {
    if !(t.TInt? || t.TDecimal?) || !PrefixesFit(rows, idx, Either) then Err(Execution)
    else Averaged(Total(rows, idx, Either), Numbers(rows, idx, Either), SourceScale(t))
  }

  method EvaluateAvg(rows: seq<Row>, idx: nat, t: ColumnType) returns (r: Result<Value>)
    ensures r == AvgValue(rows, idx, t)
  {
    hide Averaged;
    if !(t.TInt? || t.TDecimal?) {
      return Err(Execution);
    }
    var sum :- AddUp(rows, idx, Either);
    r := Averaged(sum.0, sum.1, SourceScale(t));
  }

  /** When AVG of some numbers succeeds: the sums and the shifted sum stay in range, the
      scale is at most thirty, and the result is not the one number with no negation. */
  predicate AvgFits(rows: seq<Row>, idx: nat, scale: u8) {
    && scale <= 30 && PrefixesFit(rows, idx, Either)
    && FitsI64(Total(rows, idx, Either) * Pow10(AvgShift(scale)))
    && !(Numbers(rows, idx, Either) == 1 && Total(rows, idx, Either) * Pow10(AvgShift(scale)) == I64_MIN)
  }

  /** Exactly when an average is accepted. */
  lemma AveragedFits(total: int, count: nat, scale: u8)
    requires count > 0 && FitsI64(total)
    ensures Averaged(total, count, scale).Ok? <==>
      && scale <= 30 && FitsI64(total * Pow10(AvgShift(scale)))
      && !(count == 1 && total * Pow10(AvgShift(scale)) == I64_MIN)
  {
    hide Pow10;
    CheckedPow(AvgShift(scale));
    var scaled := total * Pow10(AvgShift(scale));
    if count == 1 {
      assert (Abs(scaled) + count / 2) / count == Abs(scaled);
    } else {
      HalvedAtLeast(Abs(scaled), count);
    }
  }

  /** An accepted average is the exact one, rounded to the nearest unit of its scale. */
  lemma AveragedNearest(total: int, count: nat, scale: u8)
    requires count > 0 && Averaged(total, count, scale).Ok?
    ensures var avg := Averaged(total, count, scale).value;
      && avg.Decimal? && avg.scale == AvgScale(scale)
      && NearestAway(total * Pow10(AvgShift(scale)), count, avg.unscaled)
  {
    hide Pow10, NearestAway;
    SignedNearest(total * Pow10(AvgShift(scale)), count);
  }

  lemma SignedNearest(u: int, d: nat)
    requires d > 0
    ensures var q: int := (Abs(u) + d / 2) / d;
      NearestAway(u, d, if u < 0 then 0 - q else q)
  {
    var q: int := (Abs(u) + d / 2) / d;
    HalfUp(Abs(u), d);
    var v := if u < 0 then 0 - q else q;
    assert v * d == if u < 0 then 0 - q * d else q * d;
  }

  /** An accepted AVG is the exact average rounded to the nearest unit of its scale, ties
      away from zero; and exactly when it is accepted. */
  lemma AvgNearest(rows: seq<Row>, idx: nat, t: ColumnType)
    requires (t.TInt? || t.TDecimal?) && Numbers(rows, idx, Either) > 0
    ensures AvgValue(rows, idx, t).Ok? <==> AvgFits(rows, idx, SourceScale(t))
    ensures AvgValue(rows, idx, t).Ok? ==>
      var avg := AvgValue(rows, idx, t).value;
      && avg.Decimal? && avg.scale == AvgScale(SourceScale(t))
      && NearestAway(Total(rows, idx, Either) * Pow10(AvgShift(SourceScale(t))), Numbers(rows, idx, Either), avg.unscaled)
  {
    hide Pow10, Averaged, Numbers, Total, NearestAway;
    if PrefixesFit(rows, idx, Either) {
      assert rows[..|rows|] == rows;
      AveragedFits(Total(rows, idx, Either), Numbers(rows, idx, Either), SourceScale(t));
      if AvgValue(rows, idx, t).Ok? {
        AveragedNearest(Total(rows, idx, Either), Numbers(rows, idx, Either), SourceScale(t));
      }
    }
  }

  lemma HalvedAtLeast(m: nat, count: nat)
    requires count >= 2
    ensures (m + count / 2) / count <= (m + 1) / 2
  {
    var n := m + count / 2;
    var q := n / count;
    assert n == count * q + n % count;
    assert count * q == 2 * q + (count - 2) * q;
    if q >= 1 {
      assert (count - 2) * q == (count - 2) + (count - 2) * (q - 1);
      assert (count - 2) * (q - 1) >= 0;
    }
  }

  // ---- MIN and MAX ----

  predicate Better(v: Value, best: Value, wantMin: bool) {
    if wantMin then ValueOrdering(v, best) == Less else ValueOrdering(v, best) == Greater
  }

  function BestOf(rows: seq<Row>, idx: nat, wantMin: bool): Value {
    if rows == [] then Null
    else
      var n := |rows| - 1;
      var best, v := BestOf(rows[..n], idx, wantMin), Cell(rows[n], idx);
      if v.Null? then best
      else if best.Null? || Better(v, best, wantMin) then v
      else best
  }

  method EvaluateBest(rows: seq<Row>, idx: nat, wantMin: bool) returns (best: Value)
    ensures best == BestOf(rows, idx, wantMin)
  {
    hide ValueOrdering;
    best := Null;
    for i := 0 to |rows|
      invariant best == BestOf(rows[..i], idx, wantMin)
    {
      assert rows[..i + 1][..i] == rows[..i];
      var v := Cell(rows[i], idx);
      if v.Null? {
        continue;
      }
      if best.Null? || Better(v, best, wantMin) {
        best := v;
      }
    }
    assert rows[..|rows|] == rows;
  }

  predicate CellsTyped(rows: seq<Row>, idx: nat, t: ColumnType) {
    forall i :: 0 <= i < |rows| ==> HasType(Cell(rows[i], idx), t)
  }

  /** An attained bound: NULL exactly if there is no value, else one of the values, with
      no other value on its far side. */
  ghost predicate Bounds(rows: seq<Row>, idx: nat, wantMin: bool, best: Value) {
    && (best.Null? <==> forall i :: 0 <= i < |rows| ==> Cell(rows[i], idx).Null?)
    && (!best.Null? ==>
          && (exists i :: 0 <= i < |rows| && Cell(rows[i], idx) == best)
          && (forall i :: 0 <= i < |rows| && !Cell(rows[i], idx).Null? ==> !Better(Cell(rows[i], idx), best, wantMin)))
  }

  /** The last value beats the bound of the rows before it. */
  lemma LastBounds(rows: seq<Row>, idx: nat, wantMin: bool, before: Value, t: ColumnType)
    requires rows != [] && CellsTyped(rows, idx, t) && HasType(before, t)
    requires Bounds(rows[..|rows| - 1], idx, wantMin, before)
    requires var v := Cell(rows[|rows| - 1], idx); !v.Null? && (before.Null? || Better(v, before, wantMin))
    ensures Bounds(rows, idx, wantMin, Cell(rows[|rows| - 1], idx))
  {
    hide ValueOrdering, HasType, Cell;
    var n := |rows| - 1;
    var front, v := rows[..n], Cell(rows[n], idx);
    OrderEqual(v, v, t);
    forall i | 0 <= i < n && !Cell(rows[i], idx).Null?
      ensures !Better(Cell(rows[i], idx), v, wantMin)
    {
      assert front[i] == rows[i];
      assert !Better(Cell(front[i], idx), before, wantMin);
      StillNotBetter(Cell(rows[i], idx), before, v, wantMin, t);
    }
  }

  /** The last value does not. */
  lemma EarlierBounds(rows: seq<Row>, idx: nat, wantMin: bool, before: Value)
    requires rows != [] && Bounds(rows[..|rows| - 1], idx, wantMin, before)
    requires var v := Cell(rows[|rows| - 1], idx); v.Null? || (!before.Null? && !Better(v, before, wantMin))
    ensures Bounds(rows, idx, wantMin, before)
  {
    hide Cell, Better;
    NullsSplit(rows, idx);
    var n := |rows| - 1;
    var front := rows[..n];
    assert forall i :: 0 <= i < n ==> front[i] == rows[i];
    if !before.Null? {
      var i :| 0 <= i < n && Cell(front[i], idx) == before;
      assert Cell(rows[i], idx) == before;
    }
  }

  /** MIN and MAX of a column are attained bounds of its type. */
  lemma {:induction false} BestIsBound(rows: seq<Row>, idx: nat, wantMin: bool, t: ColumnType)
    requires CellsTyped(rows, idx, t)
    ensures HasType(BestOf(rows, idx, wantMin), t) && Bounds(rows, idx, wantMin, BestOf(rows, idx, wantMin))
    decreases |rows|
  {
    if rows != [] {
      hide HasType, Bounds, Better;
      var n := |rows| - 1;
      var front := rows[..n];
      assert forall i :: 0 <= i < n ==> front[i] == rows[i];
      BestIsBound(front, idx, wantMin, t);
      var before, v := BestOf(front, idx, wantMin), Cell(rows[n], idx);
      if !v.Null? && (before.Null? || Better(v, before, wantMin)) {
        LastBounds(rows, idx, wantMin, before, t);
      } else {
        EarlierBounds(rows, idx, wantMin, before);
      }
    }
  }

  lemma NullsSplit(rows: seq<Row>, idx: nat)
    requires rows != []
    ensures var n := |rows| - 1;
      (forall i :: 0 <= i < |rows| ==> Cell(rows[i], idx).Null?)
      <==> Cell(rows[n], idx).Null? && forall i :: 0 <= i < n ==> Cell(rows[..n][i], idx).Null?
  {
    hide Cell;
    var n := |rows| - 1;
    assert forall i :: 0 <= i < n ==> rows[..n][i] == rows[i];
  }

  lemma StillNotBetter(w: Value, before: Value, v: Value, wantMin: bool, t: ColumnType)
    requires HasType(w, t) && HasType(before, t) && HasType(v, t)
    requires !Better(w, before, wantMin) && Better(v, before, wantMin)
    ensures !Better(w, v, wantMin)
  {
    hide ValueOrdering, HasType;
    OrderFlips(w, before);
    OrderFlips(v, before);
    OrderFlips(w, v);
    if wantMin {
      OrderTransitive(v, before, w, t);
    } else {
      OrderTransitive(w, before, v, t);
    }
  }

  // ---- COUNT ----

  function NonNull(rows: seq<Row>, idx: nat): (n: nat)
    ensures n <= |rows|
  {
    if rows == [] then 0
    else
      var n := |rows| - 1;
      NonNull(rows[..n], idx) + if Cell(rows[n], idx).Null? then 0 else 1
  }

  method EvaluateCount(rows: seq<Row>, arg: Option<nat>) returns (n: nat)
    ensures n == if arg.None? then |rows| else NonNull(rows, arg.value)
  {
    if arg.None? {
      return |rows|;
    }
    n := 0;
    for i := 0 to |rows|
      invariant n == NonNull(rows[..i], arg.value)
    {
      assert rows[..i + 1][..i] == rows[..i];
      if !Cell(rows[i], arg.value).Null? {
        n := n + 1;
      }
    }
    assert rows[..|rows|] == rows;
  }

  // ---- one aggregate ----

  /** `evaluate_aggregate`.  A group holds no more rows than `i64` can count. */
  function AggregateValue(fn: AggregateFn, arg: Option<(nat, ColumnType)>, rows: seq<Row>): Result<Value>
    requires |rows| <= I64_MAX
  {
    if fn == Count then Ok(Int(if arg.None? then |rows| else NonNull(rows, arg.value.0)))
    else if arg.None? then Err(Execution)
    else if fn == Sum then SumValue(rows, arg.value.0, arg.value.1)
    else if fn == Avg then AvgValue(rows, arg.value.0, arg.value.1)
    else Ok(BestOf(rows, arg.value.0, fn == MinOf))
  }

  method EvaluateAggregate(fn: AggregateFn, arg: Option<(nat, ColumnType)>, rows: seq<Row>) returns (r: Result<Value>)
    requires |rows| <= I64_MAX
    ensures r == AggregateValue(fn, arg, rows)
  {
    hide SumValue, AvgValue, BestOf, NonNull;
    if fn == Count {
      var n := EvaluateCount(rows, if arg.None? then None else Some(arg.value.0));
      return Ok(Int(n));
    }
    if arg.None? {
      return Err(Execution);
    }
    var (idx, t) := arg.value;
    if fn == Sum {
      r := EvaluateSum(rows, idx, t);
    } else if fn == Avg {
      r := EvaluateAvg(rows, idx, t);
    } else {
      var best := EvaluateBest(rows, idx, fn == MinOf);
      r := Ok(best);
    }
  }

  // ---- what each of the five says about the rows ----

  /** `v` is in the column, and no value there comes before it. */
  ghost predicate IsLeast(rows: seq<Row>, idx: nat, v: Value) {
    && !v.Null? && (exists i :: 0 <= i < |rows| && Cell(rows[i], idx) == v)
    && (forall i :: 0 <= i < |rows| && !Cell(rows[i], idx).Null? ==> !ComesBefore(Cell(rows[i], idx), v))
  }

  /** `v` is in the column, and it comes before no value there. */
  ghost predicate IsGreatest(rows: seq<Row>, idx: nat, v: Value) {
    && !v.Null? && (exists i :: 0 <= i < |rows| && Cell(rows[i], idx) == v)
    && (forall i :: 0 <= i < |rows| && !Cell(rows[i], idx).Null? ==> !ComesBefore(v, Cell(rows[i], idx)))
  }

  predicate NoValues(rows: seq<Row>, idx: nat) {
    forall i :: 0 <= i < |rows| ==> Cell(rows[i], idx).Null?
  }

  lemma MinMaxMean(rows: seq<Row>, idx: nat, t: ColumnType)
    requires CellsTyped(rows, idx, t)
    ensures var least, greatest := BestOf(rows, idx, true), BestOf(rows, idx, false);
      && (if NoValues(rows, idx) then least == Null else IsLeast(rows, idx, least))
      && (if NoValues(rows, idx) then greatest == Null else IsGreatest(rows, idx, greatest))
  {
    hide BestOf, ValueOrdering, ComesBefore, HasType, Cell;
    BestIsBound(rows, idx, true, t);
    BestIsBound(rows, idx, false, t);
    var least, greatest := BestOf(rows, idx, true), BestOf(rows, idx, false);
    forall i | 0 <= i < |rows|
      ensures ValueOrdering(Cell(rows[i], idx), least) == Less <==> ComesBefore(Cell(rows[i], idx), least)
      ensures ValueOrdering(Cell(rows[i], idx), greatest) == Greater <==> ComesBefore(greatest, Cell(rows[i], idx))
    {
      OrderMeans(Cell(rows[i], idx), least, t);
      OrderMeans(Cell(rows[i], idx), greatest, t);
    }
  }

  /** The rows with a value in the column. */
  function ValuedRows(rows: seq<Row>, idx: nat): set<nat> {
    set i | 0 <= i < |rows| && !Cell(rows[i], idx).Null?
  }

  lemma {:induction false} NonNullCounts(rows: seq<Row>, idx: nat)
    ensures NonNull(rows, idx) == |ValuedRows(rows, idx)|
    decreases |rows|
  {
    hide Cell;
    if rows != [] {
      var n := |rows| - 1;
      NonNullCounts(rows[..n], idx);
      assert forall i :: 0 <= i < n ==> rows[..n][i] == rows[i];
      assert ValuedRows(rows, idx) == ValuedRows(rows[..n], idx) + if Cell(rows[n], idx).Null? then {} else {n};
    }
  }

  /** Each aggregate by its name: COUNT(*) counts rows and COUNT(c) those with a value; MIN
      and MAX are the first and the last value in the column's order; SUM is the exact
      total; AVG is the nearest decimal to the exact average; SUM to MAX of nothing but
      NULLs are NULL, and need a column. */
  lemma AggregatesMean(rows: seq<Row>, idx: nat, t: ColumnType)
    requires |rows| <= I64_MAX && CellsTyped(rows, idx, t)
    ensures AggregateValue(Count, None, rows) == Ok(Int(|rows|))
    ensures |ValuedRows(rows, idx)| <= |rows| && AggregateValue(Count, Some((idx, t)), rows) == Ok(Int(|ValuedRows(rows, idx)|))
    ensures forall fn :: fn != Count ==> AggregateValue(fn, None, rows) == Err(Execution)
    ensures var least := AggregateValue(MinOf, Some((idx, t)), rows);
      least.Ok? && if NoValues(rows, idx) then least.value == Null else IsLeast(rows, idx, least.value)
    ensures var greatest := AggregateValue(MaxOf, Some((idx, t)), rows);
      greatest.Ok? && if NoValues(rows, idx) then greatest.value == Null else IsGreatest(rows, idx, greatest.value)
    ensures var sum := AggregateValue(Sum, Some((idx, t)), rows);
      && (sum.Ok? <==> (t.TInt? || t.TDecimal?) && PrefixesFit(rows, idx, KindOf(t)))
      && (sum.Ok? ==> HasType(sum.value, t) && (sum.value.Null? <==> Numbers(rows, idx, KindOf(t)) == 0))
      && (sum.Ok? && !sum.value.Null? ==> NumberOf(sum.value, KindOf(t)) == Some(Total(rows, idx, KindOf(t))))
    ensures var avg := AggregateValue(Avg, Some((idx, t)), rows);
      && (avg.Ok? && Numbers(rows, idx, Either) > 0 ==>
            && avg.value.Decimal? && avg.value.scale == AvgScale(SourceScale(t))
            && NearestAway(Total(rows, idx, Either) * Pow10(AvgShift(SourceScale(t))), Numbers(rows, idx, Either),
                           avg.value.unscaled))
      && (avg.Ok? && Numbers(rows, idx, Either) == 0 ==> avg.value == Null)
  {
    hide BestOf, NonNull, AvgValue, NearestAway, Pow10, IsLeast, IsGreatest, NoValues, CellsTyped, Cell;
    NonNullCounts(rows, idx);
    MinMaxMean(rows, idx, t);
    if AvgValue(rows, idx, t).Ok? {
      AvgMeans(rows, idx, t);
    }
    assert rows[..|rows|] == rows;
  }

  lemma AvgMeans(rows: seq<Row>, idx: nat, t: ColumnType)
    requires AvgValue(rows, idx, t).Ok?
    ensures Numbers(rows, idx, Either) > 0 ==>
      && var avg := AvgValue(rows, idx, t).value;
      && avg.Decimal? && avg.scale == AvgScale(SourceScale(t))
      && NearestAway(Total(rows, idx, Either) * Pow10(AvgShift(SourceScale(t))), Numbers(rows, idx, Either), avg.unscaled)
    ensures Numbers(rows, idx, Either) == 0 ==> AvgValue(rows, idx, t).value == Null
  {
    hide NearestAway, Pow10, Total, Numbers, PrefixesFit;
    if Numbers(rows, idx, Either) > 0 {
      AvgNearest(rows, idx, t);
    }
  }
}
