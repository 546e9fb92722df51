/** Amounts in minor units, the rates and quantities that scale them, and the SQL that repeats the rounding. */
module Money {
  import opened Wrappers
  import opened Rounding

  /** Number.MAX_SAFE_INTEGER. */
  const MAX_SAFE := 9_007_199_254_740_991

  const BASIS_POINTS := 10_000

  predicate Safe(x: int) { -MAX_SAFE <= x <= MAX_SAFE }

  type SafeInt = x: int | -MAX_SAFE <= x <= MAX_SAFE
  type Rate = x: int | 0 <= x <= MAX_SAFE
  type Scale = x: int | 0 <= x <= 6

  datatype Amount = Amount(minorUnits: SafeInt, currency: string)

  /** scaledValue / 10^scale. */
  datatype Quantity = Quantity(scaledValue: SafeInt, scale: Scale)

  datatype MoneyError = InvalidAmount | Overflow | CurrencyMismatch | DivisionByZero

  function FromBigInt(x: int, currency: string): Result<Amount, MoneyError> {
    if Safe(x) then Ok(Amount(x, currency)) else Err(Overflow)
  }

  function FromMinorUnits(x: int, currency: string): Result<Amount, MoneyError> {
    if Safe(x) then Ok(Amount(x, currency)) else Err(InvalidAmount)
  }

  function Add(a: Amount, b: Amount): Result<Amount, MoneyError> {
    if a.currency != b.currency then Err(CurrencyMismatch) else FromMinorUnits(a.minorUnits + b.minorUnits, a.currency)
  }

  function Subtract(a: Amount, b: Amount): Result<Amount, MoneyError> {
    if a.currency != b.currency then Err(CurrencyMismatch) else FromMinorUnits(a.minorUnits - b.minorUnits, a.currency)
  }

  function ApplyPercentage(m: Amount, rate: Rate): Result<Amount, MoneyError> {
    FromBigInt(Divide(m.minorUnits * rate, BASIS_POINTS), m.currency)
  }

  function ExtractIncluded(m: Amount, rate: Rate): Result<Amount, MoneyError> {
    FromBigInt(m.minorUnits - Divide(m.minorUnits * BASIS_POINTS, BASIS_POINTS + rate), m.currency)
  }

  function Pow10(n: nat): int {
    if n == 0 then 1 else 10 * Pow10(n - 1)
  }

  lemma {:induction false} Pow10Positive(n: nat)
    ensures Pow10(n) > 0 && (n > 0 ==> Pow10(n) % 2 == 0)
  {
    if n > 0 {
      Pow10Positive(n - 1);
      assert Pow10(n) == 2 * (5 * Pow10(n - 1));
    }
  }

  function MultiplyByQuantity(m: Amount, q: Quantity): Result<Amount, MoneyError> {
    Pow10Positive(q.scale);
    FromBigInt(Divide(m.minorUnits * q.scaledValue, Pow10(q.scale)), m.currency)
  }

  function DivideByQuantity(m: Amount, q: Quantity): Result<Amount, MoneyError> {
    if q.scaledValue == 0 then Err(DivisionByZero)
    else FromBigInt(Divide(m.minorUnits * Pow10(q.scale), q.scaledValue), m.currency)
  }

  // ---------- tax rates ----------

  function ApplyTo(rate: Rate, m: Amount): Result<Amount, MoneyError> {
    ApplyPercentage(m, rate)
  }

  function ExtractFrom(rate: Rate, m: Amount): Result<Amount, MoneyError> {
    ExtractIncluded(m, rate)
  }

  function IncludeIn(rate: Rate, m: Amount): Result<Amount, MoneyError> {
    match ApplyTo(rate, m)
    case Err(e) => Err(e)
    case Ok(tax) => Add(m, tax)
  }

  // ---------- what they promise ----------

  /** The base of the gross is what the tax was put on: rounding once cannot lose it. */
  lemma BaseSurvives(m: int, rate: int)
    requires rate >= 0
    ensures
      var tax := Divide(m * rate, BASIS_POINTS);
      Divide((m + tax) * BASIS_POINTS, BASIS_POINTS + rate) == m
  {
    var tax := Divide(m * rate, BASIS_POINTS);
    var gross := (m + tax) * BASIS_POINTS;
    DivideIsNearest(m * rate, BASIS_POINTS);
    if rate == 0 {
      DivideIs(0, BASIS_POINTS, 0);
      DivideIs(m * BASIS_POINTS, BASIS_POINTS, m);
    } else {
      assert (BASIS_POINTS + rate) * m == BASIS_POINTS * m + m * rate;
      assert gross - (BASIS_POINTS + rate) * m == BASIS_POINTS * tax - m * rate;
      DivideIs(gross, BASIS_POINTS + rate, m);
    }
  }

  /**
   * Including a tax and extracting it are exact inverses, for either sign and every rate, unless something
   * overflows.
   */
  lemma IncludeThenExtract(rate: Rate, m: Amount)
    requires IncludeIn(rate, m).Ok?
    ensures
      var gross := IncludeIn(rate, m).value;
      && ExtractFrom(rate, gross) == ApplyTo(rate, m)
      && ExtractFrom(rate, gross).Ok?
      && Subtract(gross, ExtractFrom(rate, gross).value) == Ok(m)
  {
    BaseSurvives(m.minorUnits, rate);
  }

  lemma DivideMultiple(q: int, d: int)
    requires d > 0
    ensures Divide(q * d, d) == q
  {
    DivideIs(q * d, d, q);
  }

  lemma ProductSign(g: int, rate: nat)
    ensures if g >= 0 then g * rate >= 0 else g * rate <= 0
  {
  }

  lemma BaseBetween(g: int, rate: nat)
    ensures
      var base := Divide(g * BASIS_POINTS, BASIS_POINTS + rate);
      if g >= 0 then 0 <= base <= g else g <= base <= 0
  {
    var n, d := g * BASIS_POINTS, BASIS_POINTS + rate;
    DivideMultiple(0, d);
    DivideMultiple(g, d);
    ProductSign(g, rate);
    assert g * d == n + g * rate;
    if g >= 0 {
      DivideIsMonotone(0, n, d);
      DivideIsMonotone(n, g * d, d);
    } else {
      DivideIsMonotone(n, 0, d);
      DivideIsMonotone(g * d, n, d);
    }
  }

  /** The base and the tax always rebuild the gross; the tax lies between zero and it, so extraction never fails. */
  lemma ExtractionIsTotal(rate: Rate, gross: Amount)
    ensures
      && ExtractFrom(rate, gross).Ok?
      && var tax := ExtractFrom(rate, gross).value;
         var base := gross.minorUnits - tax.minorUnits;
         && tax.currency == gross.currency
         && (if gross.minorUnits >= 0 then 0 <= base <= gross.minorUnits else gross.minorUnits <= base <= 0)
         && Nearest(gross.minorUnits * 10_000, 10_000 + rate, base)
  {
    DivideIsNearest(gross.minorUnits * BASIS_POINTS, BASIS_POINTS + rate);
    BaseBetween(gross.minorUnits, rate);
  }

  /** A percentage is the nearest amount, or an overflow when that amount is not safe. */
  lemma PercentageIsNearest(rate: Rate, m: Amount)
    ensures
      match ApplyTo(rate, m)
      case Ok(tax) => tax.currency == m.currency && Nearest(m.minorUnits * rate, 10_000, tax.minorUnits)
      case Err(e) => e == Overflow && forall q :: InSafeRange(q) ==> !Nearest(m.minorUnits * rate, 10_000, q)
  {
    OnlyDivideIsNearest(m.minorUnits * rate, 10_000);
    DivideIsNearest(m.minorUnits * rate, 10_000);
  }

  /** The integers a double holds exactly: up to 2^53 - 1 either way. */
  predicate InSafeRange(x: int) {
    x >= -9_007_199_254_740_991 && x <= 9_007_199_254_740_991
  }

  /** Sums and differences: of one currency, exact, and refused only out of the safe range. */
  lemma SumsAre(a: Amount, b: Amount)
    ensures
      var sum, difference := Add(a, b), Subtract(a, b);
      if a.currency != b.currency then sum == difference == Err(CurrencyMismatch)
      else
        && (InSafeRange(a.minorUnits + b.minorUnits) <==> sum.Ok?)
        && (InSafeRange(a.minorUnits - b.minorUnits) <==> difference.Ok?)
        && (sum.Ok? ==> sum.value == Amount(a.minorUnits + b.minorUnits, a.currency))
        && (difference.Ok? ==> difference.value == Amount(a.minorUnits - b.minorUnits, a.currency))
        && (sum.Err? ==> sum == Err(InvalidAmount)) && (difference.Err? ==> difference == Err(InvalidAmount))
  {
  }

  lemma OnlyDivideIsNearest(n: int, d: int)
    requires d > 0
    ensures forall x :: Nearest(n, d, x) ==> x == Divide(n, d)
  {
    forall x | Nearest(n, d, x)
      ensures x == Divide(n, d)
    {
      DivideIs(n, d, x);
    }
  }

  /**
   * Dividing by a quantity rounds as documented exactly when the quantity is positive, and overflows
   * then exactly when no safe amount is nearest; zero is refused.
   */
  lemma DivideByQuantityIff(m: Amount, q: Quantity)
    ensures DivideByQuantity(m, q) == Err(DivisionByZero) <==> q.scaledValue == 0
    ensures
      var n, d := m.minorUnits * Pow10(q.scale), q.scaledValue;
      match DivideByQuantity(m, q)
      case Ok(quotient) => quotient.currency == m.currency && (Nearest(n, d, quotient.minorUnits) <==> d > 0)
      case Err(e) => d > 0 ==> e == Overflow && forall x :: InSafeRange(x) ==> !Nearest(n, d, x)
  {
    if q.scaledValue != 0 {
      DivideIsNearestIff(m.minorUnits * Pow10(q.scale), q.scaledValue);
    }
    if q.scaledValue > 0 {
      OnlyDivideIsNearest(m.minorUnits * Pow10(q.scale), q.scaledValue);
    }
  }

  /** Ten divided by minus three: the nearest amount is -3, the result is -2. */
  lemma NegativeQuantityMisrounds(currency: string)
    ensures DivideByQuantity(Amount(10, currency), Quantity(-3, 0)) == Ok(Amount(-2, currency))
    ensures Nearest(10 * Pow10(0), -3, -3)
  {
    assert Pow10(0) == 1;
    assert Trunc(10, -3) == -3;
  }

  // ---------- the SQL of the sales report ----------

  /** Signed 64-bit integers, SQLite's; beyond them its arithmetic turns to floating point. */
  predicate Fits64(x: int) { -0x8000_0000_0000_0000 <= x < 0x8000_0000_0000_0000 }

  /** `(unit * quantity + half) / 10^scale` with SQLite's truncating division. */
  function Rounded(product: int, scale: Scale): int {
    Pow10Positive(scale);
    if scale == 0 then product else Trunc(product + Pow10(scale) / 2, Pow10(scale))
  }

  /** Both sums of the query stay integers; beyond, nothing is claimed of it. */
  predicate StaysIntegral(product: int, scale: Scale) {
    Fits64(product) && (scale == 0 || Fits64(product + Pow10(scale) / 2))
  }

  lemma ScaledIsNearest(p: int, d: int)
    requires d > 0 && d % 2 == 0 && 2 * p > -d
    ensures Nearest(p, d, Trunc(p + d / 2, d))
  {
    TruncParts(p + d / 2, d);
  }

  lemma ScaledMisses(p: int, d: int)
    requires d > 0 && d % 2 == 0 && 2 * p <= -d
    ensures !Nearest(p, d, Trunc(p + d / 2, d))
  {
    TruncParts(p + d / 2, d);
  }

  /** Where the query stays integral it computes the domain's total exactly for products above minus half a unit. */
  lemma ReportAgreesIff(m: Amount, q: Quantity)
    requires StaysIntegral(m.minorUnits * q.scaledValue, q.scale)
    ensures
      var p, d := m.minorUnits * q.scaledValue, Pow10(q.scale);
      MultiplyByQuantity(m, q).Ok? ==>
        (Rounded(p, q.scale) == MultiplyByQuantity(m, q).value.minorUnits <==> q.scale == 0 || 2 * p > -d)
  {
    var p, d := m.minorUnits * q.scaledValue, Pow10(q.scale);
    Pow10Positive(q.scale);
    if q.scale == 0 {
      assert Pow10(0) == 1;
      DivideIs(p, 1, p);
    } else if 2 * p > -d {
      ScaledIsNearest(p, d);
      DivideIs(p, d, Trunc(p + d / 2, d));
    } else {
      ScaledMisses(p, d);
      DivideIsNearest(p, d);
    }
  }

  /** Minus half a unit: the SQL gives zero, the domain minus one. */
  lemma NegativeProductParts(currency: string)
    ensures Rounded(-5, 1) == 0
    ensures MultiplyByQuantity(Amount(-5, currency), Quantity(1, 1)) == Ok(Amount(-1, currency))
  {
    assert Pow10(0) == 1 && Pow10(1) == 10;
    DivideIs(-5, 10, -1);
  }

  /** The schema stores no negative price and no quantity that is not positive, so every line it stores agrees. */
  lemma StoredLineAgrees(m: Amount, q: Quantity)
    requires m.minorUnits >= 0 && q.scaledValue > 0 && StaysIntegral(m.minorUnits * q.scaledValue, q.scale)
    ensures MultiplyByQuantity(m, q) == FromBigInt(Rounded(m.minorUnits * q.scaledValue, q.scale), m.currency)
  {
    var p, d := m.minorUnits * q.scaledValue, Pow10(q.scale);
    assert p >= 0;
    ProductIsNearest(p, q.scale);
    DivideIs(p, d, Rounded(p, q.scale));
  }

  /** Multiplying by a quantity is the nearest amount, or an overflow when that amount is not safe. */
  lemma MultiplyIsNearest(m: Amount, q: Quantity)
    ensures
      var p, d := m.minorUnits * q.scaledValue, Pow10(q.scale);
      match MultiplyByQuantity(m, q)
      case Ok(total) => total.currency == m.currency && Nearest(p, d, total.minorUnits)
      case Err(e) => e == Overflow && forall x :: InSafeRange(x) ==> !Nearest(p, d, x)
  {
    var p, d := m.minorUnits * q.scaledValue, Pow10(q.scale);
    Pow10Positive(q.scale);
    DivideIsNearest(p, d);
    OnlyDivideIsNearest(p, d);
  }

  /** A completed sale's line as the report reads it. */
  datatype Line = Line(currency: string, scale: Scale, product: int)

  /** The row of the summary for one currency and scale. */
  datatype Summary = Summary(lineCount: nat, gross: int)

  function Summarize(lines: seq<Line>, currency: string, scale: Scale): Summary {
    if lines == [] then Summary(0, 0)
    else
      var row, line := Summarize(lines[..|lines| - 1], currency, scale), lines[|lines| - 1];
      if line.currency == currency && line.scale == scale
      then Summary(row.lineCount + 1, row.gross + Rounded(line.product, scale))
      else row
  }

  /** The exact total of the group, in units of 10^-scale. */
  function Exact(lines: seq<Line>, currency: string, scale: Scale): int {
    if lines == [] then 0
    else
      var line := lines[|lines| - 1];
      Exact(lines[..|lines| - 1], currency, scale)
        + if line.currency == currency && line.scale == scale then line.product else 0
  }

  /** The lines of the group. */
  function GroupOf(lines: seq<Line>, currency: string, scale: Scale): set<int> {
    set i | 0 <= i < |lines| && lines[i].currency == currency && lines[i].scale == scale
  }

  lemma {:induction false} SummaryCounts(lines: seq<Line>, currency: string, scale: Scale)
    ensures Summarize(lines, currency, scale).lineCount == |GroupOf(lines, currency, scale)|
  {
    if lines != [] {
      var n := |lines| - 1;
      SummaryCounts(lines[..n], currency, scale);
      var before, group := GroupOf(lines[..n], currency, scale), GroupOf(lines, currency, scale);
      if lines[n].currency == currency && lines[n].scale == scale {
        assert group == before + {n};
      } else {
        assert group == before;
      }
    }
  }

  /** Rounding line by line drifts at most half a minor unit for each line of the group. */
  lemma {:induction false} SummaryDrift(lines: seq<Line>, currency: string, scale: Scale)
    requires forall i :: 0 <= i < |lines| ==> lines[i].product >= 0
    ensures
      var row := Summarize(lines, currency, scale);
      2 * Abs(Pow10(scale) * row.gross - Exact(lines, currency, scale)) <= row.lineCount * Pow10(scale)
  {
    if lines != [] {
      var line, rest := lines[|lines| - 1], lines[..|lines| - 1];
      SummaryDrift(rest, currency, scale);
      if line.currency == currency && line.scale == scale {
        ProductIsNearest(line.product, scale);
        DriftOneMore(Pow10(scale), Summarize(rest, currency, scale), Exact(rest, currency, scale),
                     line.product, Rounded(line.product, scale));
      }
    }
  }

  lemma DriftOneMore(d: int, row: Summary, exact: int, product: int, rounded: int)
    requires d > 0 && Nearest(product, d, rounded) && 2 * Abs(d * row.gross - exact) <= row.lineCount * d
    ensures 2 * Abs(d * (row.gross + rounded) - (exact + product)) <= (row.lineCount + 1) * d
  {
    assert d * (row.gross + rounded) == d * row.gross + d * rounded;
    assert (row.lineCount + 1) * d == row.lineCount * d + d;
  }

  lemma ProductIsNearest(p: int, scale: Scale)
    requires p >= 0
    ensures Pow10(scale) > 0 && Nearest(p, Pow10(scale), Rounded(p, scale))
  {
    Pow10Positive(scale);
    if scale > 0 {
      ScaledIsNearest(p, Pow10(scale));
    }
  }
}
