/** Canonical integers: the native runtime bounds their decimal text, the Python side their bit length. */
module DecimalIntegers {
  import opened Common
  import opened Utf8

  const MAX_INTEGER: nat := 115792089237316195423570985008687907853269984665640564039457584007913129639935

  const MINUS := 45
  const ZERO_DIGIT := 48

  predicate AllDigits(s: Text) {
    forall i :: 0 <= i < |s| ==> 48 <= s[i] <= 57
  }

  /** A decimal numeral without redundant leading zeros. */
  predicate IsPlain(s: Text) {
    s != [] && AllDigits(s) && (s == [ZERO_DIGIT] || s[0] != ZERO_DIGIT)
  }

  function Digits(n: nat): Text {
    if n < 10 then [48 + n] else Digits(n / 10) + [48 + n % 10]
  }

  function ValueOf(s: Text): nat
    requires AllDigits(s)
  {
    if s == [] then 0 else 10 * ValueOf(s[..|s| - 1]) + (s[|s| - 1] - 48)
  }

  function PrintInt(i: int): Text {
    if i < 0 then [MINUS] + Digits(-i) else Digits(i)
  }

  /** The decimal text of 2^256 - 1. */
  function MaxDecimal(): Text {
    Digits(MAX_INTEGER)
  }

  // ----- Numerals and values -----

  lemma {:induction false} DigitsArePlain(n: nat)
    ensures IsPlain(Digits(n)) && ValueOf(Digits(n)) == n && (Digits(n)[0] == ZERO_DIGIT <==> n == 0)
  {
    if n >= 10 {
      DigitsArePlain(n / 10);
      assert Digits(n)[..|Digits(n)| - 1] == Digits(n / 10);
    }
  }

  lemma {:induction false} PlainIsDigits(s: Text)
    requires IsPlain(s)
    ensures Digits(ValueOf(s)) == s && (ValueOf(s) == 0 <==> s == [ZERO_DIGIT])
  {
    if |s| > 1 {
      var k := |s| - 1;
      PlainIsDigits(s[..k]);
      assert s == s[..k] + [s[k]];
      assert ValueOf(s) / 10 == ValueOf(s[..k]) && ValueOf(s) % 10 == s[k] - 48;
    } else {
      assert ValueOf(s) == 10 * ValueOf(s[..0]) + (s[0] - 48);
    }
  }

  lemma {:induction false} LexSnoc(a: Text, b: Text, x: CodePoint, y: CodePoint)
    requires |a| == |b|
    ensures LexLess(a + [x], b + [y]) <==> LexLess(a, b) || (a == b && x < y)
  {
    if a != [] {
      assert (a + [x])[1..] == a[1..] + [x] && (b + [y])[1..] == b[1..] + [y];
      LexSnoc(a[1..], b[1..], x, y);
      assert a == [a[0]] + a[1..] && b == [b[0]] + b[1..];
    } else {
      assert a + [x] == [x] && b + [y] == [y];
    }
  }

  /** Numerals of one length compare as their values do. */
  lemma {:induction false} SameLengthOrder(a: Text, b: Text)
    requires AllDigits(a) && AllDigits(b) && |a| == |b|
    ensures ValueOf(a) < ValueOf(b) <==> LexLess(a, b)
    ensures ValueOf(a) == ValueOf(b) <==> a == b
  {
    if a != [] {
      var k := |a| - 1;
      SameLengthOrder(a[..k], b[..k]);
      assert a == a[..k] + [a[k]] && b == b[..k] + [b[k]];
      LexSnoc(a[..k], b[..k], a[k], b[k]);
    }
  }

  lemma {:induction false} ShorterIsSmaller(a: Text, b: Text)
    requires IsPlain(a) && IsPlain(b) && |a| < |b|
    ensures ValueOf(a) < ValueOf(b)
  {
    var j, k := |a| - 1, |b| - 1;
    PlainIsDigits(b[..k]);
    if j > 0 {
      ShorterIsSmaller(a[..j], b[..k]);
    } else {
      assert ValueOf(a) == 10 * ValueOf(a[..0]) + (a[0] - 48);
    }
  }

  /** Comparing lengths first and digits second compares values. */
  lemma DecimalOrder(a: Text, b: Text)
    requires IsPlain(a) && IsPlain(b)
    ensures ValueOf(a) <= ValueOf(b) <==> |a| < |b| || (|a| == |b| && !LexLess(b, a))
  {
    if |a| < |b| {
      ShorterIsSmaller(a, b);
    } else if |b| < |a| {
      ShorterIsSmaller(b, a);
    } else {
      SameLengthOrder(b, a);
    }
  }

  /** The bound as the native runtime tests it on text. */
  predicate WithinMaxDecimal(decimal: Text) {
    |decimal| < |MaxDecimal()| || (|decimal| == |MaxDecimal()| && !LexLess(MaxDecimal(), decimal))
  }

  lemma BoundIsExact(decimal: Text)
    requires IsPlain(decimal)
    ensures WithinMaxDecimal(decimal) <==> ValueOf(decimal) <= MAX_INTEGER
  {
    DigitsArePlain(MAX_INTEGER);
    DecimalOrder(decimal, MaxDecimal());
  }

  // ----- canonical_number, integer branch -----

  function Abs(i: int): nat {
    if i < 0 then -i else i
  }

  /** The text of a JSON integer: an optional minus sign and a plain numeral. */
  predicate IsIntegerText(raw: Text) {
    IsPlain(Magnitude(raw))
  }

  function Magnitude(raw: Text): Text {
    if raw != [] && raw[0] == MINUS then raw[1..] else raw
  }

  function IntegerOf(raw: Text): int
    requires IsIntegerText(raw)
  {
    var magnitude: int := ValueOf(Magnitude(raw));
    if raw[0] == MINUS then -magnitude else magnitude
  }

  function CanonicalInteger(raw: Text): Option<Text> {
    var magnitude := Magnitude(raw);
    if magnitude == [] || !AllDigits(magnitude) then None
    else if |magnitude| > |MaxDecimal()| || (|magnitude| == |MaxDecimal()| && LexLess(MaxDecimal(), magnitude))
      then None
    else if magnitude == [ZERO_DIGIT] then Some([ZERO_DIGIT])
    else Some(raw)
  }

  /** Every JSON integer is printed as its value, negative zero included, exactly when it fits 256 bits. */
  lemma CanonicalIntegerIsPrintedValue(raw: Text)
    requires IsIntegerText(raw)
    ensures var v := IntegerOf(raw);
            CanonicalInteger(raw) == if Abs(v) <= MAX_INTEGER then Some(PrintInt(v)) else None
  {
    hide Digits, MaxDecimal, ValueOf;
    var magnitude := Magnitude(raw);
    BoundIsExact(magnitude);
    PlainIsDigits(magnitude);
    if raw[0] == MINUS {
      assert raw == [MINUS] + magnitude;
    }
    DigitsOfZero();
  }

  lemma DigitsOfZero()
    ensures Digits(0) == [ZERO_DIGIT]
  {}

  /** The number text of an integer is canonical already, and passes exactly when it fits 256 bits. */
  lemma PrintedIntegerIsCanonical(i: int)
    ensures CanonicalInteger(PrintInt(i)) == if Abs(i) <= MAX_INTEGER then Some(PrintInt(i)) else None
  {
    hide Digits, MaxDecimal, ValueOf;
    DigitsArePlain(Abs(i));
    var raw := PrintInt(i);
    if i < 0 {
      assert raw[1..] == Digits(-i);
    }
    CanonicalIntegerIsPrintedValue(raw);
  }

  // ----- legacy_identity_integer -----

  predicate IsIdentityInteger(decimal: Text, positive: bool) {
    && decimal != [] && AllDigits(decimal)
    && (decimal == [ZERO_DIGIT] || decimal[0] != ZERO_DIGIT)
    && (!positive || decimal != [ZERO_DIGIT])
    && WithinMaxDecimal(decimal)
  }

  /** Exactly the decimal texts of the integers from 0, or from 1, up to 2^256 - 1. */
  lemma IdentityIntegersAreBounded(decimal: Text, positive: bool)
    ensures IsIdentityInteger(decimal, positive) <==>
              exists n: nat :: decimal == Digits(n) && n <= MAX_INTEGER && (positive ==> n > 0)
  {
    hide Digits, MaxDecimal, ValueOf, WithinMaxDecimal;
    if IsIdentityInteger(decimal, positive) {
      PlainIsDigits(decimal);
      BoundIsExact(decimal);
      assert decimal == Digits(ValueOf(decimal));
    }
    if exists n: nat :: decimal == Digits(n) && n <= MAX_INTEGER && (positive ==> n > 0) {
      var n: nat :| decimal == Digits(n) && n <= MAX_INTEGER && (positive ==> n > 0);
      DigitsArePlain(n);
      BoundIsExact(decimal);
    }
  }

  // ----- The Python bound -----

  function BitLength(n: nat): nat {
    if n == 0 then 0 else 1 + BitLength(n / 2)
  }

  function Pow2(k: nat): nat {
    if k == 0 then 1 else 2 * Pow2(k - 1)
  }

  lemma {:induction false} BitLengthBounds(n: nat, k: nat)
    ensures BitLength(n) <= k <==> n < Pow2(k)
  {
    if n > 0 && k > 0 {
      BitLengthBounds(n / 2, k - 1);
    } else if n == 0 {
      Pow2Positive(k);
    }
  }

  lemma {:induction false} Pow2Positive(k: nat)
    ensures Pow2(k) >= 1
  {
    if k > 0 {
      Pow2Positive(k - 1);
    }
  }

  lemma {:induction false} Pow2Adds(a: nat, b: nat)
    ensures Pow2(a + b) == Pow2(a) * Pow2(b)
  {
    if a > 0 {
      Pow2Adds(a - 1, b);
      assert Pow2(a + b) == 2 * Pow2(a - 1 + b);
    }
  }

  lemma Pow32()
    ensures Pow2(32) == 0x1_0000_0000
  {
    assert Pow2(2) == 4;
    hide Pow2;
    Pow2Adds(2, 2);
    Pow2Adds(4, 4);
    Pow2Adds(8, 8);
    Pow2Adds(16, 16);
  }

  lemma Pow256()
    ensures Pow2(256) == MAX_INTEGER + 1
  {
    hide Pow2;
    Pow32();
    Pow2Adds(32, 32);
    Pow2Adds(64, 64);
    Pow2Adds(128, 128);
  }

  lemma BitBoundIsExact(n: nat)
    ensures BitLength(n) <= 256 <==> n <= MAX_INTEGER
  {
    hide Pow2, BitLength;
    BitLengthBounds(n, 256);
    Pow256();
  }

  /** A bit length of at most 256 and a decimal text of at most that of 2^256 - 1 are the same bound. */
  lemma BothBoundsAgree(n: nat)
    ensures BitLength(n) <= 256 <==> WithinMaxDecimal(Digits(n))
  {
    hide Digits, MaxDecimal, ValueOf, WithinMaxDecimal, Pow2, BitLength;
    BitBoundIsExact(n);
    DigitsArePlain(n);
    BoundIsExact(Digits(n));
  }
}
