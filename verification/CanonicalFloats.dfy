/**
 * Finite floats in canonical text.  A float is its shortest decimal: a signed zero, or a sign, digits without
 * outer zeros and the exponent of the first digit.  The native printer re-derives these from another rendering
 * of the same number and lays them out as Python does.
 */
module CanonicalFloats {
  import opened Common
  import opened Utf8
  import opened DecimalIntegers

  const PLUS := 43
  const POINT := 46
  const LETTER_E := 101
  const CAPITAL_E := 69

  datatype DecimalForm = Zero(negative: bool) | Scaled(negative: bool, digits: Text, exponent: int)

  /** Digits that neither start nor end with a zero. */
  predicate IsTrimmed(s: Text) {
    s != [] && AllDigits(s) && s[0] != ZERO_DIGIT && s[|s| - 1] != ZERO_DIGIT
  }

  type Decimal = d: DecimalForm | d.Scaled? ==> IsTrimmed(d.digits) witness Zero(false)

  // ----- The layout -----

  function Zeros(n: nat): Text {
    seq(n, _ => ZERO_DIGIT)
  }

  /** A sign and at least two digits. */
  function ExponentText(e: int): Text {
    [if e >= 0 then PLUS else MINUS] + ((if Abs(e) < 10 then [ZERO_DIGIT] else []) + Digits(Abs(e)))
  }

  function Scientific(digits: Text, e: int): Text
    requires digits != []
  {
    [digits[0]] + ((if |digits| > 1 then [POINT] + digits[1..] else []) + ([LETTER_E] + ExponentText(e)))
  }

  function Positional(digits: Text, e: int): Text {
    if e < 0 then [ZERO_DIGIT] + ([POINT] + (Zeros(-e - 1) + digits))
    else if |digits| <= e + 1 then (digits + Zeros(e + 1 - |digits|)) + [POINT, ZERO_DIGIT]
    else digits[..e + 1] + ([POINT] + digits[e + 1..])
  }

  /** Positional from 1e-4 up to 1e16, scientific beyond. */
  function Unsigned(d: Decimal): Text {
    match d
    case Zero(_) => [ZERO_DIGIT, POINT, ZERO_DIGIT]
    case Scaled(_, digits, e) => if -4 <= e < 16 then Positional(digits, e) else Scientific(digits, e)
  }

  function Layout(d: Decimal): Text {
    (if d.negative then [MINUS] else []) + Unsigned(d)
  }

  // ----- Renderings of a number -----

  /** A positional or scientific numeral: digits, maybe a point and digits, maybe an exponent. */
  datatype Rendering = Rendering(integer: Text, fraction: Option<Text>, exponent: Option<Text>)

  predicate IsSigned(t: Text) {
    t != [] && (t[0] == PLUS || t[0] == MINUS)
  }

  /** An integer with an optional sign, leading zeros allowed. */
  predicate IsExponentText(t: Text) {
    if IsSigned(t) then |t| > 1 && AllDigits(t[1..]) else t != [] && AllDigits(t)
  }

  function ExponentOf(t: Text): int
    requires IsExponentText(t)
  {
    var magnitude: int := ValueOf(if IsSigned(t) then t[1..] else t);
    if t[0] == MINUS then -magnitude else magnitude
  }

  predicate IsRendering(r: Rendering) {
    && r.integer != [] && AllDigits(r.integer)
    && (r.fraction.Some? ==> AllDigits(r.fraction.value))
    && (r.exponent.Some? ==> IsExponentText(r.exponent.value))
  }

  function TextOf(r: Rendering): Text {
    MantissaText(r) + if r.exponent.Some? then [LETTER_E] + r.exponent.value else []
  }

  function MantissaText(r: Rendering): Text {
    r.integer + if r.fraction.Some? then [POINT] + r.fraction.value else []
  }

  function Fraction(r: Rendering): Text {
    if r.fraction.Some? then r.fraction.value else []
  }

  function Explicit(r: Rendering): int
    requires IsRendering(r)
  {
    if r.exponent.Some? then ExponentOf(r.exponent.value) else 0
  }

  /** `v` times ten to the `n`. */
  function Shift(v: nat, n: nat): nat {
    if n == 0 then v else 10 * Shift(v, n - 1)
  }

  function Low(a: int, b: int): (r: int)
    ensures r <= a && r <= b
  {
    if a < b then a else b
  }

  /** `m` times ten to the `e` is `n` times ten to the `f`. */
  predicate SameNumber(m: nat, e: int, n: nat, f: int) {
    Shift(m, e - Low(e, f)) == Shift(n, f - Low(e, f))
  }

  /** The rendering and the decimal, without its sign, are one number. */
  predicate Denotes(r: Rendering, d: Decimal) {
    && IsRendering(r) && d.Scaled?
    && SameNumber(ValueOf(r.integer + Fraction(r)), Explicit(r) - |Fraction(r)|, ValueOf(d.digits),
                  d.exponent - (|d.digits| - 1))
  }

  /** Some rendering of the decimal's magnitude reads `t`. */
  ghost predicate Renders(t: Text, d: Decimal) {
    exists r :: Denotes(r, d) && t == TextOf(r)
  }

  // ----- Reading a rendering back -----

  function LeadingZeros(s: Text): (n: nat)
    ensures n <= |s|
  {
    if s != [] && s[0] == ZERO_DIGIT then 1 + LeadingZeros(s[1..]) else 0
  }

  function TrailingZeros(s: Text): (n: nat)
    ensures n <= |s|
  {
    if s != [] && s[|s| - 1] == ZERO_DIGIT then 1 + TrailingZeros(s[..|s| - 1]) else 0
  }

  function Trimmed(s: Text): Text {
    if LeadingZeros(s) + TrailingZeros(s) <= |s| then s[LeadingZeros(s)..|s| - TrailingZeros(s)] else []
  }

  lemma {:induction false} ZeroPadsRight(s: Text, b: nat)
    requires AllDigits(s)
    ensures AllDigits(s + Zeros(b)) && ValueOf(s + Zeros(b)) == Shift(ValueOf(s), b)
  {
    if b == 0 {
      assert s + Zeros(0) == s;
    } else {
      var shorter := s + Zeros(b - 1);
      ZeroPadsRight(s, b - 1);
      assert s + Zeros(b) == shorter + [ZERO_DIGIT];
      AppendDigit(shorter, ZERO_DIGIT);
    }
  }

  lemma AppendDigit(s: Text, c: CodePoint)
    requires AllDigits(s) && 48 <= c <= 57
    ensures AllDigits(s + [c]) && ValueOf(s + [c]) == 10 * ValueOf(s) + (c - 48)
  {
    assert (s + [c])[..|s|] == s;
  }

  lemma {:induction false} ZeroPadsLeft(a: nat, s: Text)
    requires AllDigits(s)
    ensures AllDigits(Zeros(a) + s) && ValueOf(Zeros(a) + s) == ValueOf(s)
  {
    if s == [] {
      ZeroPadsRight([], a);
      ShiftScales(0, a);
      assert Zeros(a) + s == [] + Zeros(a);
    } else {
      var k := |s| - 1;
      ZeroPadsLeft(a, s[..k]);
      assert (Zeros(a) + s)[..a + k] == Zeros(a) + s[..k];
      assert forall i :: 0 <= i < |Zeros(a) + s| ==> (Zeros(a) + s)[i] == if i < a then ZERO_DIGIT else s[i - a];
    }
  }

  /** Exactly the first `n` characters are leading zeros. */
  predicate LeadsWith(s: Text, n: nat) {
    n <= |s| && s[..n] == Zeros(n) && (n < |s| ==> s[n] != ZERO_DIGIT)
  }

  /** Exactly the last `n` characters are trailing zeros. */
  predicate TrailsWith(s: Text, n: nat) {
    n <= |s| && s[|s| - n..] == Zeros(n) && (n < |s| ==> s[|s| - n - 1] != ZERO_DIGIT)
  }

  lemma {:induction false} LeadingFacts(s: Text)
    ensures LeadsWith(s, LeadingZeros(s))
  {
    if s != [] && s[0] == ZERO_DIGIT {
      LeadingFacts(s[1..]);
      var k := LeadingZeros(s[1..]);
      assert s[..k + 1] == [s[0]] + s[1..][..k];
      assert Zeros(k + 1) == [ZERO_DIGIT] + Zeros(k);
    }
  }

  lemma TrailsOneMore(t: Text, k: nat)
    requires TrailsWith(t, k)
    ensures TrailsWith(t + [ZERO_DIGIT], k + 1)
  {
    var s := t + [ZERO_DIGIT];
    assert s[|s| - (k + 1)..] == t[|t| - k..] + [ZERO_DIGIT];
    assert Zeros(k + 1) == Zeros(k) + [ZERO_DIGIT];
  }

  lemma {:induction false} TrailingFacts(s: Text)
    ensures TrailsWith(s, TrailingZeros(s))
  {
    if s != [] && s[|s| - 1] == ZERO_DIGIT {
      var t := s[..|s| - 1];
      TrailingFacts(t);
      TrailsOneMore(t, TrailingZeros(t));
      hide TrailsWith;
      assert s == t + [ZERO_DIGIT];
    }
  }

  /** A non-zero digit stops the trailing zeros. */
  lemma {:induction false} TrailStops(s: Text, i: nat)
    requires i < |s| && s[i] != ZERO_DIGIT
    ensures i + TrailingZeros(s) < |s|
  {
    if s[|s| - 1] == ZERO_DIGIT {
      TrailStops(s[..|s| - 1], i);
    }
  }

  lemma TrimFits(s: Text)
    requires LeadingZeros(s) < |s|
    ensures LeadingZeros(s) + TrailingZeros(s) < |s|
  {
    hide LeadingZeros, TrailingZeros, Zeros;
    LeadingFacts(s);
    TrailStops(s, LeadingZeros(s));
  }

  /** `s` is the digits between `a` and `b` zeros. */
  predicate IsPadded(s: Text, a: nat, digits: Text, b: nat) {
    s == Zeros(a) + (digits + Zeros(b))
  }

  /** A text with a non-zero digit is its trimmed digits between zeros. */
  lemma TrimSplits(s: Text)
    requires AllDigits(s) && LeadingZeros(s) + TrailingZeros(s) < |s|
    ensures IsPadded(s, LeadingZeros(s), Trimmed(s), TrailingZeros(s))
  {
    hide LeadingZeros, TrailingZeros, Zeros, AllDigits, IsTrimmed, IsPadded, LeadsWith, TrailsWith;
    LeadingFacts(s);
    TrailingFacts(s);
    CutInThree(s, LeadingZeros(s), TrailingZeros(s));
  }

  lemma TrimmedHasNoOuterZeros(s: Text)
    requires AllDigits(s) && LeadingZeros(s) + TrailingZeros(s) < |s|
    ensures IsTrimmed(Trimmed(s))
  {
    hide LeadingZeros, TrailingZeros, Zeros, AllDigits, IsTrimmed, IsPadded, LeadsWith, TrailsWith;
    LeadingFacts(s);
    TrailingFacts(s);
    CutInThree(s, LeadingZeros(s), TrailingZeros(s));
  }

  lemma CutInThree(s: Text, a: nat, b: nat)
    requires AllDigits(s) && a + b < |s| && LeadsWith(s, a) && TrailsWith(s, b)
    ensures IsPadded(s, a, s[a..|s| - b], b) && IsTrimmed(s[a..|s| - b])
  {
    var middle := s[a..|s| - b];
    Partition(s, a, |s| - b);
    assert middle[0] == s[a] && middle[|middle| - 1] == s[|s| - b - 1];
    hide Zeros;
  }

  lemma Partition(s: Text, a: nat, c: nat)
    requires a <= c <= |s|
    ensures s == s[..a] + (s[a..c] + s[c..])
  {}

  lemma {:induction false} NoDigitsNoValue(s: Text)
    requires AllDigits(s) && LeadingZeros(s) == |s|
    ensures ValueOf(s) == 0
  {
    LeadingFacts(s);
    assert s == s[..|s|] == [] + Zeros(|s|);
    ZeroPadsRight([], |s|);
    ShiftScales(0, |s|);
  }

  lemma {:induction false} ShiftScales(v: nat, n: nat)
    ensures v <= Shift(v, n) && (v == 0 ==> Shift(v, n) == 0)
  {
    if n > 0 {
      ShiftScales(v, n - 1);
    }
  }

  lemma DigitOfTens(k: nat, d: nat)
    requires d < 10
    ensures (10 * k + d) % 10 == d
  {}

  lemma LastDigit(s: Text)
    requires s != [] && AllDigits(s)
    ensures ValueOf(s) % 10 == s[|s| - 1] - 48
  {
    DigitOfTens(ValueOf(s[..|s| - 1]), s[|s| - 1] - 48);
  }

  predicate IsTenfold(v: nat) {
    v % 10 == 0
  }

  lemma TenTimesIsTenfold(k: nat)
    ensures IsTenfold(10 * k)
  {}

  /** Numbers that do not end in a zero digit differ, or are scaled alike. */
  lemma {:induction false} ScaleIsUnique(v: nat, w: nat, m: nat, n: nat)
    requires !IsTenfold(v) && !IsTenfold(w) && Shift(v, m) == Shift(w, n)
    ensures m == n && v == w
  {
    hide IsTenfold;
    if m > 0 && n > 0 {
      ScaleIsUnique(v, w, m - 1, n - 1);
    } else if m > 0 {
      TenTimesIsTenfold(Shift(v, m - 1));
    } else if n > 0 {
      TenTimesIsTenfold(Shift(w, n - 1));
    }
  }

  /** The digits and the exponent that the printer derives from a rendering. */
  function DerivedDigits(r: Rendering): Text {
    Trimmed(r.integer + Fraction(r))
  }

  function DerivedExponent(r: Rendering): int
    requires IsRendering(r)
  {
    |r.integer| - LeadingZeros(r.integer + Fraction(r)) - 1 + Explicit(r)
  }

  lemma TrimmedIsPositive(s: Text)
    requires IsTrimmed(s)
    ensures ValueOf(s) > 0 && !IsTenfold(ValueOf(s))
  {
    LastDigit(s);
  }

  lemma {:induction false} ShiftAdds(v: nat, m: nat, n: nat)
    ensures Shift(Shift(v, m), n) == Shift(v, m + n)
  {
    if n > 0 {
      ShiftAdds(v, m, n - 1);
    }
  }

  /** A rendering of a decimal has a non-zero digit. */
  lemma DenotesNonZero(r: Rendering, d: Decimal)
    requires Denotes(r, d)
    ensures LeadingZeros(r.integer + Fraction(r)) < |r.integer + Fraction(r)|
  {
    var joined := r.integer + Fraction(r);
    var e, f := Explicit(r) - |Fraction(r)|, d.exponent - (|d.digits| - 1);
    TrimmedIsPositive(d.digits);
    ShiftScales(ValueOf(d.digits), f - Low(e, f));
    ShiftScales(ValueOf(joined), e - Low(e, f));
    if LeadingZeros(joined) == |joined| {
      NoDigitsNoValue(joined);
    }
  }

  /** Trimming any rendering of a decimal recovers exactly its digits and its exponent. */
  lemma DerivationIsExact(r: Rendering, d: Decimal)
    requires Denotes(r, d)
    ensures DerivedDigits(r) == d.digits && DerivedExponent(r) == d.exponent
  {
    hide LeadingZeros, TrailingZeros, Trimmed, Shift, ValueOf, Zeros, IsTrimmed, IsPadded, ExponentOf, IsExponentText;
    var joined := r.integer + Fraction(r);
    var e, f := Explicit(r) - |Fraction(r)|, d.exponent - (|d.digits| - 1);
    DenotesNonZero(r, d);
    TrimFits(joined);
    TrimSplits(joined);
    TrimmedHasNoOuterZeros(joined);
    SplitIsUnique(joined, LeadingZeros(joined), Trimmed(joined), TrailingZeros(joined), e - Low(e, f), d.digits,
                  f - Low(e, f));
  }

  lemma SplitIsUnique(s: Text, a: nat, digits: Text, b: nat, m: nat, other: Text, n: nat)
    requires IsTrimmed(digits) && IsTrimmed(other) && AllDigits(s) && IsPadded(s, a, digits, b)
    requires Shift(ValueOf(s), m) == Shift(ValueOf(other), n)
    ensures digits == other && b + m == n && |s| == a + |digits| + b
  {
    SplitValue(s, a, digits, b);
    ShiftAdds(ValueOf(digits), b, m);
    SameShift(digits, other, b + m, n);
  }

  lemma SplitValue(s: Text, a: nat, digits: Text, b: nat)
    requires AllDigits(digits) && IsPadded(s, a, digits, b)
    ensures AllDigits(s) && ValueOf(s) == Shift(ValueOf(digits), b) && |s| == a + |digits| + b
  {
    ZeroPadsRight(digits, b);
    ZeroPadsLeft(a, digits + Zeros(b));
  }

  lemma SameShift(s: Text, t: Text, m: nat, n: nat)
    requires IsTrimmed(s) && IsTrimmed(t) && Shift(ValueOf(s), m) == Shift(ValueOf(t), n)
    ensures m == n && s == t
  {
    TrimmedIsPositive(s);
    TrimmedIsPositive(t);
    ScaleIsUnique(ValueOf(s), ValueOf(t), m, n);
    PlainIsDigits(s);
    PlainIsDigits(t);
  }

  /** Digits between zeros, with the exponent counted from the first of them, are a rendering of the decimal. */
  lemma PaddedDenotes(r: Rendering, d: Decimal, a: nat, b: nat)
    requires IsRendering(r) && d.Scaled? && IsPadded(r.integer + Fraction(r), a, d.digits, b)
    requires |r.integer| - a - 1 + Explicit(r) == d.exponent
    ensures Denotes(r, d)
  {
    SplitValue(r.integer + Fraction(r), a, d.digits, b);
    assert |r.integer| + |Fraction(r)| == a + |d.digits| + b;
    ShiftAdds(ValueOf(d.digits), b, 0);
  }

  // ----- The layout reads as its decimal -----

  function LayoutRendering(d: Decimal): Rendering
    requires d.Scaled?
  {
    var digits, e := d.digits, d.exponent;
    if e < -4 || 16 <= e then
      Rendering([digits[0]], if |digits| > 1 then Some(digits[1..]) else None, Some(ExponentText(e)))
    else if e < 0 then Rendering([ZERO_DIGIT], Some(Zeros(-e - 1) + digits), None)
    else if |digits| <= e + 1 then Rendering(digits + Zeros(e + 1 - |digits|), Some([ZERO_DIGIT]), None)
    else Rendering(digits[..e + 1], Some(digits[e + 1..]), None)
  }

  lemma ExponentTextReads(e: int)
    ensures IsExponentText(ExponentText(e)) && ExponentOf(ExponentText(e)) == e
  {
    var magnitude := Digits(Abs(e));
    DigitsArePlain(Abs(e));
    hide Digits, ValueOf;
    ZeroPadsLeft(1, magnitude);
    assert Zeros(1) + magnitude == [ZERO_DIGIT] + magnitude;
    assert ExponentText(e)[1..] == if Abs(e) < 10 then [ZERO_DIGIT] + magnitude else magnitude;
  }

  lemma Unpadded(digits: Text)
    ensures digits == Zeros(0) + (digits + Zeros(0))
    ensures digits != [] ==> digits == [digits[0]] + digits[1..]
    ensures |digits| == 1 ==> digits == [digits[0]] + []
  {}

  lemma ScientificDenotes(d: Decimal)
    requires d.Scaled? && !(-4 <= d.exponent < 16)
    ensures TextOf(LayoutRendering(d)) == Unsigned(d) && Denotes(LayoutRendering(d), d)
  {
    ExponentTextReads(d.exponent);
    Unpadded(d.digits);
    hide ExponentText, ExponentOf, IsExponentText, Shift, ValueOf, Zeros, Denotes, Positional;
    PaddedDenotes(LayoutRendering(d), d, 0, 0);
    ScientificText(d);
  }

  lemma ScientificText(d: Decimal)
    requires d.Scaled? && !(-4 <= d.exponent < 16)
    ensures TextOf(LayoutRendering(d)) == Unsigned(d)
  {
    var head, point := [d.digits[0]], if |d.digits| > 1 then [POINT] + d.digits[1..] else [];
    var tail := [LETTER_E] + ExponentText(d.exponent);
    hide ExponentText, Positional;
    assert (head + point) + tail == head + (point + tail);
  }

  lemma PositionalDenotes(d: Decimal)
    requires d.Scaled? && -4 <= d.exponent < 16
    ensures TextOf(LayoutRendering(d)) == Unsigned(d) && Denotes(LayoutRendering(d), d)
  {
    hide ValueOf, Shift;
    var r, digits, e := LayoutRendering(d), d.digits, d.exponent;
    if e < 0 {
      assert r.integer + Fraction(r) == Zeros(-e) + (digits + Zeros(0));
      PaddedDenotes(r, d, -e, 0);
    } else if |digits| <= e + 1 {
      assert r.integer + Fraction(r) == Zeros(0) + (digits + Zeros(e + 2 - |digits|));
      PaddedDenotes(r, d, 0, e + 2 - |digits|);
    } else {
      assert r.integer + Fraction(r) == Zeros(0) + (digits + Zeros(0));
      PaddedDenotes(r, d, 0, 0);
    }
  }

  /** What is printed for a decimal is a rendering of exactly that decimal. */
  lemma LayoutRendersItsDecimal(d: Decimal)
    requires d.Scaled?
    ensures Renders(Unsigned(d), d)
  {
    hide Denotes, TextOf, Unsigned, LayoutRendering;
    if -4 <= d.exponent < 16 {
      PositionalDenotes(d);
    } else {
      ScientificDenotes(d);
    }
  }

  /** A numeral that ends in no superfluous zero: a single digit, or digits that end otherwise. */
  predicate EndsTight(s: Text) {
    s != [] && (|s| > 1 ==> s[|s| - 1] != ZERO_DIGIT)
  }

  /**
   * How Python spells a float whose first digit stands for `e`: with a point and no exponent from 1e-4 up to 1e16,
   * otherwise as one digit, any others after a point, and a signed exponent of at least two digits.
   */
  predicate IsPythonForm(r: Rendering, e: int) {
    if -4 <= e < 16 then IsPlain(r.integer) && r.fraction.Some? && EndsTight(r.fraction.value) && r.exponent.None?
    else
      && |r.integer| == 1 && r.integer[0] != ZERO_DIGIT
      && (r.fraction.Some? ==> r.fraction.value != [] && r.fraction.value[|r.fraction.value| - 1] != ZERO_DIGIT)
      && r.exponent.Some? && IsSigned(r.exponent.value) && |r.exponent.value| >= 3
      && (|r.exponent.value| > 3 ==> r.exponent.value[1] != ZERO_DIGIT)
  }

  /** The text of a float is Python's spelling of it. */
  lemma LayoutHasPythonForm(d: Decimal)
    requires d.Scaled?
    ensures var r := LayoutRendering(d); Unsigned(d) == TextOf(r) && Denotes(r, d) && IsPythonForm(r, d.exponent)
  {
    hide Denotes, ValueOf;
    if -4 <= d.exponent < 16 {
      PositionalDenotes(d);
    } else {
      ScientificDenotes(d);
      DigitsArePlain(Abs(d.exponent));
    }
  }

  // ----- Parsing a rendering -----

  /** The first position of `c`, or the length when there is none. */
  function IndexOf(s: Text, c: CodePoint): (n: nat)
    ensures n <= |s|
  {
    if s == [] || s[0] == c then 0 else 1 + IndexOf(s[1..], c)
  }

  function ExponentIndex(t: Text): (n: nat)
    ensures n <= |t|
  {
    if IndexOf(t, LETTER_E) < |t| then IndexOf(t, LETTER_E) else IndexOf(t, CAPITAL_E)
  }

  /** Split at the exponent letter, and the part before it at the point. */
  function Parsed(t: Text): Rendering {
    var i := ExponentIndex(t);
    var mantissa := t[..i];
    var p := IndexOf(mantissa, POINT);
    Rendering(mantissa[..p], if p < |mantissa| then Some(mantissa[p + 1..]) else None,
              if i < |t| then Some(t[i + 1..]) else None)
  }

  lemma {:induction false} IndexSkips(a: Text, b: Text, c: CodePoint)
    requires forall i :: 0 <= i < |a| ==> a[i] != c
    ensures IndexOf(a + b, c) == |a| + IndexOf(b, c)
  {
    if a == [] {
      assert a + b == b;
    } else {
      assert (a + b)[1..] == a[1..] + b;
      IndexSkips(a[1..], b, c);
    }
  }

  lemma ExponentIsFound(r: Rendering)
    requires IsRendering(r)
    ensures ExponentIndex(TextOf(r)) == |MantissaText(r)|
  {
    hide IsExponentText;
    var exponent := if r.exponent.Some? then [LETTER_E] + r.exponent.value else [];
    IndexSkips(MantissaText(r), exponent, LETTER_E);
    IndexSkips(MantissaText(r), exponent, CAPITAL_E);
  }

  lemma PointIsFound(r: Rendering)
    requires IsRendering(r)
    ensures IndexOf(MantissaText(r), POINT) == |r.integer|
  {
    IndexSkips(r.integer, if r.fraction.Some? then [POINT] + r.fraction.value else [], POINT);
  }

  lemma JoinedParts(a: Text, c: CodePoint, b: Text)
    ensures (a + ([c] + b))[..|a|] == a && (a + ([c] + b))[|a| + 1..] == b && (a + [])[..|a|] == a
  {}

  /** Splitting finds exactly the parts a rendering was written from. */
  lemma ParsingFindsTheParts(r: Rendering)
    requires IsRendering(r)
    ensures Parsed(TextOf(r)) == r
  {
    ExponentIsFound(r);
    PointIsFound(r);
    JoinedParts(MantissaText(r), LETTER_E, if r.exponent.Some? then r.exponent.value else []);
    JoinedParts(r.integer, POINT, if r.fraction.Some? then r.fraction.value else []);
    hide IsRendering, IndexOf, ExponentIndex;
  }

  /** What the printer derives from a text: digits and exponent, unless an exponent or a non-zero digit is missing. */
  function DerivedFrom(t: Text): Option<(Text, int)> {
    var r := Parsed(t);
    var joined := r.integer + Fraction(r);
    if r.exponent.Some? && !IsExponentText(r.exponent.value) then None
    else if LeadingZeros(joined) == |joined| then None
    else
      var explicit := if r.exponent.Some? then ExponentOf(r.exponent.value) else 0;
      Some((Trimmed(joined), |r.integer| - LeadingZeros(joined) - 1 + explicit))
  }

  lemma DerivedFromAnyRendering(t: Text, d: Decimal)
    requires Renders(t, d)
    ensures d.Scaled? && DerivedFrom(t) == Some((d.digits, d.exponent))
  {
    hide Denotes, TextOf, DerivedFrom;
    var r :| Denotes(r, d) && t == TextOf(r);
    DerivedFromRendering(r, d);
  }

  lemma DerivedFromRendering(r: Rendering, d: Decimal)
    requires Denotes(r, d)
    ensures d.Scaled? && DerivedFrom(TextOf(r)) == Some((d.digits, d.exponent))
  {
    hide LeadingZeros, Trimmed, TextOf, Parsed, ExponentOf, IsExponentText, SameNumber, ValueOf, AllDigits, Fraction;
    ParsingFindsTheParts(r);
    DenotesNonZero(r, d);
    DerivationIsExact(r, d);
  }

  // ----- The layout is a code -----

  lemma UnsignedStartsWithDigit(d: Decimal)
    ensures Unsigned(d) != [] && 48 <= Unsigned(d)[0] <= 57
  {}

  lemma ZeroDerivesNothing()
    ensures DerivedFrom([ZERO_DIGIT, POINT, ZERO_DIGIT]).None?
  {
    var r := Rendering([ZERO_DIGIT], Some([ZERO_DIGIT]), None);
    assert TextOf(r) == [ZERO_DIGIT, POINT, ZERO_DIGIT];
    ParsingFindsTheParts(r);
    assert r.integer + Fraction(r) == [ZERO_DIGIT, ZERO_DIGIT];
    assert [ZERO_DIGIT, ZERO_DIGIT][1..] == [ZERO_DIGIT] && [ZERO_DIGIT][1..] == [];
    assert LeadingZeros([ZERO_DIGIT]) == 1;
  }

  /** The magnitude's text determines the magnitude. */
  lemma UnsignedDetermines(c: Decimal, d: Decimal)
    requires Unsigned(c) == Unsigned(d) && c.negative == d.negative
    ensures c == d
  {
    hide DerivedFrom, Renders;
    ZeroDerivesNothing();
    if c.Scaled? {
      LayoutRendersItsDecimal(c);
      DerivedFromAnyRendering(Unsigned(c), c);
    }
    if d.Scaled? {
      LayoutRendersItsDecimal(d);
      DerivedFromAnyRendering(Unsigned(d), d);
    }
  }

  /** Different floats print differently. */
  lemma LayoutIsInjective(c: Decimal, d: Decimal)
    requires Layout(c) == Layout(d)
    ensures c == d
  {
    UnsignedStartsWithDigit(c);
    UnsignedStartsWithDigit(d);
    hide Unsigned;
    assert Layout(c)[0] == MINUS <==> c.negative;
    assert Layout(d)[0] == MINUS <==> d.negative;
    assert Unsigned(c) == if c.negative then Layout(c)[1..] else Layout(c);
    assert Unsigned(d) == if d.negative then Layout(d)[1..] else Layout(d);
    UnsignedDetermines(c, d);
  }

  /** A point or an exponent letter marks every float. */
  lemma UnsignedIsMarked(d: Decimal) returns (i: nat)
    ensures i < |Unsigned(d)| && (Unsigned(d)[i] == POINT || Unsigned(d)[i] == LETTER_E)
  {
    match d
    case Zero(_) => i := 1;
    case Scaled(_, digits, e) =>
      if e < -4 || 16 <= e || e < 0 {
        i := 1;
      } else if |digits| <= e + 1 {
        i := e + 1;
        assert Unsigned(d) == (digits + Zeros(e + 1 - |digits|)) + [POINT, ZERO_DIGIT];
      } else {
        i := e + 1;
        assert Unsigned(d) == digits[..e + 1] + ([POINT] + digits[e + 1..]);
      }
  }

  /** No float prints as an integer does. */
  lemma LayoutIsNoInteger(d: Decimal, n: int)
    ensures Layout(d) != PrintInt(n)
  {
    var i := UnsignedIsMarked(d);
    DigitsArePlain(Abs(n));
    hide Unsigned, Digits, ValueOf;
    var at := if d.negative then i + 1 else i;
    assert Layout(d)[at] == Unsigned(d)[i];
    assert forall k :: 0 <= k < |PrintInt(n)| ==> PrintInt(n)[k] == MINUS || 48 <= PrintInt(n)[k] <= 57;
  }

  /** What number texts are made of. */
  predicate IsNumberChar(c: CodePoint) {
    48 <= c <= 57 || c in {PLUS, MINUS, POINT, LETTER_E}
  }

  predicate IsNumberText(s: Text) {
    forall i :: 0 <= i < |s| ==> IsNumberChar(s[i])
  }

  lemma IntegersAreNumberText(n: int)
    ensures IsNumberText(PrintInt(n)) && PrintInt(n) != []
  {
    DigitsArePlain(Abs(n));
    hide Digits, ValueOf;
  }

  lemma ExponentIsNumberText(e: int)
    ensures IsNumberText(ExponentText(e))
  {
    DigitsArePlain(Abs(e));
    hide Digits, ValueOf;
  }

  lemma NumberTextJoins(s: Text, t: Text)
    requires IsNumberText(s) && IsNumberText(t)
    ensures IsNumberText(s + t)
  {}

  lemma DigitsAreNumberText(s: Text)
    requires AllDigits(s)
    ensures IsNumberText(s)
  {}

  lemma FloatsAreNumberText(d: Decimal)
    ensures IsNumberText(Layout(d)) && Layout(d) != []
  {
    UnsignedStartsWithDigit(d);
    if d.Scaled? {
      RenderingIsNumberText(d);
    }
    assert IsNumberText(Unsigned(d));
    hide Unsigned;
    assert IsNumberText([MINUS]);
    NumberTextJoins([MINUS], Unsigned(d));
  }

  lemma RenderingIsNumberText(d: Decimal)
    requires d.Scaled?
    ensures IsNumberText(Unsigned(d))
  {
    var r := LayoutRendering(d);
    assert TextOf(r) == Unsigned(d) && IsRendering(r) by {
      if -4 <= d.exponent < 16 { PositionalDenotes(d); } else { ScientificDenotes(d); }
    }
    ExponentIsNumberText(d.exponent);
    assert r.exponent.Some? ==> r.exponent.value == ExponentText(d.exponent);
    hide Unsigned, LayoutRendering, ExponentText, IsExponentText;
    DigitsAreNumberText(r.integer);
    if r.fraction.Some? {
      DigitsAreNumberText(r.fraction.value);
      NumberTextJoins([POINT], r.fraction.value);
    }
    NumberTextJoins(r.integer, if r.fraction.Some? then [POINT] + r.fraction.value else []);
    if r.exponent.Some? {
      NumberTextJoins([LETTER_E], r.exponent.value);
    }
    NumberTextJoins(MantissaText(r), if r.exponent.Some? then [LETTER_E] + r.exponent.value else []);
  }

  // ----- python_float_repr -----

  /** A float as the native printer meets it: the rendering of a non-zero magnitude comes from the float formatter. */
  datatype NativeFloat = NotFinite | ZeroFloat(negative: bool) | NonZeroFloat(negative: bool, rendered: Text)

  /** The float is the decimal `d`. */
  ghost predicate IsFloat(value: NativeFloat, d: Decimal) {
    match value
    case NotFinite => false
    case ZeroFloat(negative) => d == Zero(negative)
    case NonZeroFloat(negative, rendered) => d.Scaled? && d.negative == negative && Renders(rendered, d)
  }

  method Find(s: Text, c: CodePoint) returns (n: nat)
    ensures n == IndexOf(s, c)
  {
    n := 0;
    while n < |s| && s[n] != c
      invariant n <= |s| && forall i :: 0 <= i < n ==> s[i] != c
    {
      n := n + 1;
    }
    IndexSkips(s[..n], s[n..], c);
    assert s == s[..n] + s[n..];
  }

  method FirstNonZero(s: Text) returns (n: nat)
    ensures n == LeadingZeros(s)
  {
    n := 0;
    while n < |s| && s[n] == ZERO_DIGIT
      invariant n <= |s| && n + LeadingZeros(s[n..]) == LeadingZeros(s)
    {
      assert s[n..][1..] == s[n + 1..];
      n := n + 1;
    }
  }

  method LastNonZero(s: Text) returns (n: nat)
    requires LeadingZeros(s) < |s|
    ensures n + TrailingZeros(s) + 1 == |s|
  {
    LeadingFacts(s);
    n := |s| - 1;
    assert s[..|s|] == s;
    while s[n] == ZERO_DIGIT
      invariant LeadingZeros(s) <= n < |s| && TrailingZeros(s[..n + 1]) + (|s| - 1 - n) == TrailingZeros(s)
      decreases n
    {
      assert s[..n + 1][..n] == s[..n];
      n := n - 1;
    }
  }

  /** Trim the mantissa and recompute the exponent. */
  method Derive(rendered: Text) returns (r: Option<(Text, int)>)
    ensures r == DerivedFrom(rendered)
  {
    hide LeadingZeros, TrailingZeros, IndexOf, IsExponentText, ExponentOf;
    var at := Find(rendered, LETTER_E);
    if at == |rendered| {
      at := Find(rendered, CAPITAL_E);
    }
    var mantissa, explicit := rendered[..at], 0;
    if at < |rendered| {
      var exponentText := rendered[at + 1..];
      if !IsExponentText(exponentText) {
        return None;
      }
      explicit := ExponentOf(exponentText);
    }
    var point := Find(mantissa, POINT);
    var integer, fraction := mantissa[..point], if point < |mantissa| then mantissa[point + 1..] else [];
    var joined := integer + fraction;
    var first := FirstNonZero(joined);
    if first == |joined| {
      return None;
    }
    TrimFits(joined);
    var last := LastNonZero(joined);
    return Some((joined[first..last + 1], |integer| - first - 1 + explicit));
  }

  lemma Regrouped(a: Text, b: Text, c: Text, d: Text, e: Text)
    ensures (((a + b) + c) + d) + e == a + (b + (c + (d + e)))
    ensures ((a + b) + c) + d == a + (b + (c + d)) && (a + b) + c == a + (b + c)
  {}

  /** The scientific branch, pushed piece by piece. */
  method PushScientific(digits: Text, exponent: int) returns (text: Text)
    requires digits != []
    ensures text == Scientific(digits, exponent)
  {
    hide Digits;
    ghost var point := if |digits| > 1 then [POINT] + digits[1..] else [];
    ghost var pad := if Abs(exponent) < 10 then [ZERO_DIGIT] else [];
    var mark := [LETTER_E, if exponent >= 0 then PLUS else MINUS];
    text := [digits[0]];
    if |digits| > 1 {
      text := text + ([POINT] + digits[1..]);
    }
    assert text == [digits[0]] + point;
    text := text + mark;
    if Abs(exponent) < 10 {
      text := text + [ZERO_DIGIT];
    }
    assert text == (([digits[0]] + point) + mark) + pad;
    text := text + Digits(Abs(exponent));
    Regrouped([digits[0]], point, mark, pad, Digits(Abs(exponent)));
    assert mark + (pad + Digits(Abs(exponent))) == [LETTER_E] + ExponentText(exponent);
  }

  /** The positional branch. */
  method PushPositional(digits: Text, exponent: int) returns (text: Text)
    ensures text == Positional(digits, exponent)
  {
    hide Zeros;
    var position := exponent + 1;
    if position <= 0 {
      text := ([ZERO_DIGIT] + [POINT]) + Zeros(-position);
      text := text + digits;
      Regrouped([ZERO_DIGIT], [POINT], Zeros(-position), digits, []);
    } else if position >= |digits| {
      text := digits + Zeros(position - |digits|);
      text := text + [POINT, ZERO_DIGIT];
    } else {
      text := digits[..position] + [POINT];
      text := text + digits[position..];
      Regrouped(digits[..position], [POINT], digits[position..], [], []);
    }
  }

  lemma DerivedForFloat(value: NativeFloat, d: Decimal)
    requires value.NonZeroFloat? && IsFloat(value, d)
    ensures DerivedFrom(value.rendered) == Some((d.digits, d.exponent)) && d.negative == value.negative && d.Scaled?
  {
    DerivedFromAnyRendering(value.rendered, d);
  }

  /** `python_float_repr`: whatever rendering the formatter gave, the text is the layout of the float. */
  method PythonFloatRepr(value: NativeFloat) returns (output: Option<Text>)
    ensures value.NotFinite? ==> output.None?
    ensures forall d: Decimal :: IsFloat(value, d) ==> output == Some(Layout(d))
  {
    hide DerivedFrom, Renders, Positional, Scientific;
    match value
    case NotFinite =>
      output := None;
    case ZeroFloat(negative) =>
      output := Some((if negative then [MINUS] else []) + [ZERO_DIGIT, POINT, ZERO_DIGIT]);
    case NonZeroFloat(negative, rendered) =>
      var derived := Derive(rendered);
      forall d: Decimal | IsFloat(value, d)
        ensures derived == Some((d.digits, d.exponent)) && d.negative == negative && d.Scaled? {
        DerivedForFloat(value, d);
      }
      hide IsFloat;
      if derived.None? || derived.value.0 == [] {
        return None;
      }
      var (digits, exponent) := derived.value;
      var text: Text;
      if !(-4 <= exponent < 16) {
        text := PushScientific(digits, exponent);
      } else {
        text := PushPositional(digits, exponent);
      }
      output := Some((if negative then [MINUS] else []) + text);
  }
}
