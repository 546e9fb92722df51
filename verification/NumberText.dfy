/**
 * How a finite number is written: ECMA-262, Number::toString in base ten (section 6.1.6.1.20 of
 * ECMAScript 2025), which JSON.stringify uses. A number is its sign, its shortest digits and the
 * place of the point; reading the text gives exactly those back.
 */
module NumberText {
  type CodeUnit = u: int | 0 <= u < 0x1_0000
  type Text = seq<CodeUnit>

  const PLUS: CodeUnit := 0x2B
  const MINUS: CodeUnit := 0x2D
  const DOT: CodeUnit := 0x2E
  const ZERO: CodeUnit := 0x30
  const EXP: CodeUnit := 0x65

  predicate IsDigit(c: CodeUnit) { ZERO <= c <= 0x39 }

  predicate AllDigits(t: Text) { forall i :: 0 <= i < |t| ==> IsDigit(t[i]) }

  predicate IsNumberChar(c: CodeUnit) { IsDigit(c) || c in {PLUS, MINUS, DOT, EXP} }

  predicate AllNumberChars(t: Text) { forall i :: 0 <= i < |t| ==> IsNumberChar(t[i]) }

  /** The digits s and the point n of the value s * 10^(n - |s|); no digits for zero. */
  datatype Decimal = Decimal(negative: bool, digits: Text, point: int)

  /** Shortest digits neither start nor end in zero; -0 is read as 0. */
  predicate Shortest(d: Decimal) {
    && AllDigits(d.digits)
    && if d.digits == [] then !d.negative && d.point == 0
       else d.digits[0] != ZERO && d.digits[|d.digits| - 1] != ZERO
  }

  function Zeros(n: nat): Text {
    seq(n, _ => ZERO)
  }

  function NatText(n: nat): (t: Text)
    ensures t != [] && AllDigits(t)
  {
    if n < 10 then [ZERO + n] else NatText(n / 10) + [ZERO + n % 10]
  }

  function Mantissa(digits: Text): Text
    requires digits != []
  {
    if |digits| == 1 then digits else digits[..1] + [DOT] + digits[1..]
  }

  function ExponentText(e: int): Text {
    if e < 0 then [MINUS] + NatText(-e) else [PLUS] + NatText(e)
  }

  function Scientific(digits: Text, n: int): Text
    requires digits != []
  {
    Mantissa(digits) + [EXP] + ExponentText(n - 1)
  }

  function Whole(digits: Text, n: int): Text
    requires |digits| <= n
  {
    digits + Zeros(n - |digits|)
  }

  function PointInside(digits: Text, n: int): Text
    requires 0 < n < |digits|
  {
    digits[..n] + [DOT] + digits[n..]
  }

  function PointBefore(digits: Text, n: int): Text
    requires n <= 0
  {
    [ZERO, DOT] + Zeros(-n) + digits
  }

  function Unsigned(digits: Text, n: int): Text
    requires digits != []
  {
    if |digits| <= n <= 21 then Whole(digits, n)
    else if 0 < n <= 21 then PointInside(digits, n)
    else if -6 < n <= 0 then PointBefore(digits, n)
    else Scientific(digits, n)
  }

  function Printed(d: Decimal): Text {
    if d.digits == [] then [ZERO]
    else if d.negative then [MINUS] + Unsigned(d.digits, d.point)
    else Unsigned(d.digits, d.point)
  }

  // ---------- reading ----------

  /** The first place of `c`, or the length. */
  function Find(t: Text, c: CodeUnit): (i: nat)
    ensures i <= |t| && c !in t[..i] && (i < |t| ==> t[i] == c)
  {
    if t == [] || t[0] == c then 0
    else
      var i := Find(t[1..], c);
      assert t[..i + 1] == [t[0]] + t[1..][..i];
      i + 1
  }

  function ReadNat(t: Text): int {
    if t == [] then 0 else 10 * ReadNat(t[..|t| - 1]) + t[|t| - 1] - ZERO
  }

  function ReadExponent(t: Text): int {
    if t == [] then 0 else if t[0] == MINUS then -ReadNat(t[1..]) else ReadNat(t[1..])
  }

  function DropTrailing(digits: Text): Text {
    if digits != [] && digits[|digits| - 1] == ZERO then DropTrailing(digits[..|digits| - 1]) else digits
  }

  function Trimmed(negative: bool, digits: Text, point: int): Decimal
    decreases |digits|
  {
    if digits == [] then Decimal(false, [], 0)
    else if digits[0] == ZERO then Trimmed(negative, digits[1..], point - 1)
    else Decimal(negative, DropTrailing(digits), point)
  }

  function ReadPlain(negative: bool, m: Text, exponent: int): Decimal {
    var p := Find(m, DOT);
    Trimmed(negative, m[..p] + (if p < |m| then m[p + 1..] else []), p + exponent)
  }

  function ReadUnsigned(negative: bool, u: Text): Decimal {
    var e := Find(u, EXP);
    ReadPlain(negative, u[..e], if e < |u| then ReadExponent(u[e + 1..]) else 0)
  }

  function ReadNumber(t: Text): Decimal {
    if t != [] && t[0] == MINUS then ReadUnsigned(true, t[1..]) else ReadUnsigned(false, t)
  }

  // ---------- reading inverts writing ----------

  lemma {:induction false} FindIs(a: Text, c: CodeUnit, b: Text)
    requires c !in a
    ensures Find(a, c) == |a| && Find(a + [c] + b, c) == |a|
  {
    if a != [] {
      FindIs(a[1..], c, b);
      assert (a + [c] + b)[1..] == a[1..] + [c] + b;
    }
  }

  lemma {:induction false} NatRoundTrip(n: nat)
    ensures ReadNat(NatText(n)) == n
  {
    if n >= 10 {
      NatRoundTrip(n / 10);
      assert NatText(n)[..|NatText(n)| - 1] == NatText(n / 10);
    }
  }

  lemma {:induction false} TrailingZerosGo(digits: Text, n: nat)
    requires digits != [] && digits[|digits| - 1] != ZERO
    ensures DropTrailing(digits + Zeros(n)) == digits
  {
    if n == 0 {
      assert digits + Zeros(0) == digits;
    } else {
      assert (digits + Zeros(n))[..|digits| + n - 1] == digits + Zeros(n - 1);
      TrailingZerosGo(digits, n - 1);
    }
  }

  lemma {:induction false} LeadingZerosGo(negative: bool, digits: Text, point: int, n: nat)
    ensures Trimmed(negative, Zeros(n) + digits, point) == Trimmed(negative, digits, point - n)
    decreases n
  {
    if n == 0 {
      assert Zeros(0) + digits == digits;
    } else {
      assert (Zeros(n) + digits)[1..] == Zeros(n - 1) + digits;
      LeadingZerosGo(negative, digits, point - 1, n - 1);
    }
  }

  lemma PlainWithPoint(negative: bool, a: Text, b: Text, exponent: int)
    requires AllDigits(a)
    ensures ReadPlain(negative, a + [DOT] + b, exponent) == Trimmed(negative, a + b, |a| + exponent)
    ensures ReadPlain(negative, a, exponent) == Trimmed(negative, a, |a| + exponent)
  {
    FindIs(a, DOT, b);
    var m := a + [DOT] + b;
    assert m[..|a|] == a && m[|a| + 1..] == b;
    assert a[..|a|] + [] == a;
  }

  lemma WithoutExponent(negative: bool, u: Text)
    requires EXP !in u
    ensures ReadUnsigned(negative, u) == ReadPlain(negative, u, 0)
  {
    FindIs(u, EXP, []);
    assert u[..|u|] == u;
  }

  lemma WithExponent(negative: bool, m: Text, x: Text)
    requires EXP !in m
    ensures ReadUnsigned(negative, m + [EXP] + x) == ReadPlain(negative, m, ReadExponent(x))
  {
    FindIs(m, EXP, x);
    var u := m + [EXP] + x;
    assert u[..|m|] == m && u[|m| + 1..] == x;
  }

  lemma ExponentRoundTrip(e: int)
    ensures ReadExponent(ExponentText(e)) == e
  {
    var digits := NatText(if e < 0 then -e else e);
    NatRoundTrip(if e < 0 then -e else e);
    assert ExponentText(e)[1..] == digits;
  }

  lemma ShortestStays(d: Decimal)
    requires Shortest(d) && d.digits != []
    ensures Trimmed(d.negative, d.digits, d.point) == d
  {
  }

  lemma MantissaReads(negative: bool, digits: Text, exponent: int)
    requires digits != [] && AllDigits(digits)
    ensures EXP !in Mantissa(digits)
    ensures ReadPlain(negative, Mantissa(digits), exponent) == Trimmed(negative, digits, 1 + exponent)
  {
    PlainWithPoint(negative, digits[..1], digits[1..], exponent);
    assert digits[..1] + digits[1..] == digits;
    assert |digits| == 1 ==> digits[..1] == digits;
  }

  lemma ScientificRoundTrip(d: Decimal)
    requires Shortest(d) && d.digits != []
    ensures ReadUnsigned(d.negative, Scientific(d.digits, d.point)) == d
  {
    ShortestStays(d);
    MantissaReads(d.negative, d.digits, d.point - 1);
    ExponentRoundTrip(d.point - 1);
    WithExponent(d.negative, Mantissa(d.digits), ExponentText(d.point - 1));
  }

  lemma IntegerRoundTrip(d: Decimal)
    requires Shortest(d) && 0 < |d.digits| <= d.point
    ensures ReadUnsigned(d.negative, Whole(d.digits, d.point)) == d
  {
    var zeros := d.point - |d.digits|;
    var u := d.digits + Zeros(zeros);
    assert AllDigits(u);
    WithoutExponent(d.negative, u);
    PlainWithPoint(d.negative, u, [], 0);
    TrailingZerosGo(d.digits, zeros);
    assert u[0] == d.digits[0];
  }

  lemma PointInsideRoundTrip(d: Decimal)
    requires Shortest(d) && 0 < d.point < |d.digits|
    ensures ReadUnsigned(d.negative, PointInside(d.digits, d.point)) == d
  {
    ShortestStays(d);
    WithoutExponent(d.negative, d.digits[..d.point] + [DOT] + d.digits[d.point..]);
    PlainWithPoint(d.negative, d.digits[..d.point], d.digits[d.point..], 0);
    assert d.digits[..d.point] + d.digits[d.point..] == d.digits;
  }

  lemma PointBeforeRoundTrip(d: Decimal)
    requires Shortest(d) && d.digits != [] && d.point <= 0
    ensures ReadUnsigned(d.negative, PointBefore(d.digits, d.point)) == d
  {
    ShortestStays(d);
    var tail := Zeros(-d.point) + d.digits;
    assert [ZERO] + [DOT] + tail == [ZERO, DOT] + Zeros(-d.point) + d.digits;
    WithoutExponent(d.negative, [ZERO] + [DOT] + tail);
    PlainWithPoint(d.negative, [ZERO], tail, 0);
    assert [ZERO] + tail == Zeros(1 - d.point) + d.digits;
    LeadingZerosGo(d.negative, d.digits, 1, 1 - d.point);
  }

  lemma UnsignedRoundTrip(d: Decimal)
    requires Shortest(d) && d.digits != []
    ensures ReadUnsigned(d.negative, Unsigned(d.digits, d.point)) == d
  {
    if |d.digits| <= d.point <= 21 {
      IntegerRoundTrip(d);
    } else if 0 < d.point <= 21 {
      PointInsideRoundTrip(d);
    } else if -6 < d.point <= 0 {
      PointBeforeRoundTrip(d);
    } else {
      ScientificRoundTrip(d);
    }
  }

  /** Reading a printed number gives its sign, digits and point back, in all four notations. */
  lemma NumberRoundTrip(d: Decimal)
    requires Shortest(d)
    ensures ReadNumber(Printed(d)) == d
  {
    if d.digits == [] {
      WithoutExponent(false, [ZERO]);
      PlainWithPoint(false, [ZERO], [], 0);
      LeadingZerosGo(false, [], 1, 1);
      assert Zeros(1) + [] == [ZERO];
    } else {
      UnsignedRoundTrip(d);
      var u := Unsigned(d.digits, d.point);
      assert u[0] != MINUS;
      assert d.negative ==> Printed(d)[1..] == u;
    }
  }

  lemma UnsignedChars(digits: Text, n: int)
    requires digits != [] && AllDigits(digits)
    ensures Unsigned(digits, n) != [] && AllNumberChars(Unsigned(digits, n)) && IsDigit(Unsigned(digits, n)[0])
  {
    assert AllNumberChars(digits) && AllNumberChars(Mantissa(digits));
    assert forall m: nat :: AllDigits(Zeros(m)) && AllDigits(NatText(m));
  }

  lemma PrintedChars(d: Decimal)
    requires Shortest(d)
    ensures Printed(d) != [] && AllNumberChars(Printed(d))
    ensures Printed(d)[0] == MINUS || IsDigit(Printed(d)[0])
  {
    if d.digits != [] {
      UnsignedChars(d.digits, d.point);
    }
  }

  // ---------- which notation ----------

  /**
   * Of a number that is not zero: digits and zeros up to 21 places, a point inside or before the digits from there
   * down to six zeros after it, and an exponent otherwise.
   */
  lemma NotationIs(d: Decimal)
    requires Shortest(d) && d.digits != []
    ensures
      var t := if d.negative then Printed(d)[1..] else Printed(d);
      && (d.negative ==> Printed(d)[0] == 0x2D)
      && (0x65 in t <==> d.point > 21 || d.point <= -6)
      && (|d.digits| <= d.point <= 21 ==> |t| == d.point && t[..|d.digits|] == d.digits)
      && (0 < d.point < |d.digits| && d.point <= 21 ==>
            |t| == |d.digits| + 1 && t[..d.point] == d.digits[..d.point] && t[d.point] == 0x2E)
      && (-6 < d.point <= 0 ==> |t| == |d.digits| + 2 - d.point && t[..2] == [0x30, 0x2E])
  {
    UnsignedNotation(d.digits, d.point);
    assert d.negative ==> Printed(d)[1..] == Unsigned(d.digits, d.point);
  }

  lemma UnsignedNotation(digits: Text, n: int)
    requires AllDigits(digits) && digits != []
    ensures
      var t := Unsigned(digits, n);
      && (0x65 in t <==> n > 21 || n <= -6)
      && (|digits| <= n <= 21 ==> |t| == n && t[..|digits|] == digits)
      && (0 < n < |digits| && n <= 21 ==> |t| == |digits| + 1 && t[..n] == digits[..n] && t[n] == 0x2E)
      && (-6 < n <= 0 ==> |t| == |digits| + 2 - n && t[..2] == [0x30, 0x2E])
  {
    assert forall i :: 0 <= i < |digits| ==> digits[i] != EXP;
  }

  /** 15 * 10^20 is written 1.5e+21, and minus 10^-7 is written -1e-7. */
  lemma ExponentsAre()
    ensures Printed(Decimal(false, [0x31, 0x35], 22)) == [0x31, 0x2E, 0x35, 0x65, 0x2B, 0x32, 0x31]
    ensures Printed(Decimal(true, [0x31], -6)) == [0x2D, 0x31, 0x65, 0x2D, 0x37]
  {
    assert NatText(21) == NatText(2) + [0x31];
    assert NatText(2) == [0x32] && NatText(7) == [0x37];
  }
}
