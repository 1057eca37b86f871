/** Text as code points, its UTF-8 bytes, and why sorting by either gives the same order. */
module Utf8 {
  import opened Common

  type CodePoint = c: nat | c < 0x11_0000

  /** A Python string may hold any code point, including unpaired surrogates. */
  type Text = seq<CodePoint>

  predicate IsSurrogate(c: CodePoint) {
    0xD800 <= c <= 0xDFFF
  }

  predicate IsScalar(c: CodePoint) {
    !IsSurrogate(c)
  }

  predicate IsScalarText(s: Text) {
    forall i :: 0 <= i < |s| ==> IsScalar(s[i])
  }

  /** Section 3 of RFC 3629. */
  function EncodeOne(c: CodePoint): (b: seq<nat>)
    ensures 1 <= |b| <= 4
  {
    if c <= 0x7F then [c]
    else if c <= 0x7FF then [0xC0 + c / 64, 0x80 + c % 64]
    else if c <= 0xFFFF then [0xE0 + c / 64 / 64, 0x80 + c / 64 % 64, 0x80 + c % 64]
    else [0xF0 + c / 64 / 64 / 64, 0x80 + c / 64 / 64 % 64, 0x80 + c / 64 % 64, 0x80 + c % 64]
  }

  function Encode(s: Text): seq<nat> {
    if s == [] then [] else EncodeOne(s[0]) + Encode(s[1..])
  }

  /** Lexicographic comparison, on code points and on bytes alike. */
  predicate LexLess(a: seq<nat>, b: seq<nat>) {
    if b == [] then false
    else if a == [] then true
    else a[0] < b[0] || (a[0] == b[0] && LexLess(a[1..], b[1..]))
  }

  // ----- Order -----

  lemma {:induction false} LexStrips(p: seq<nat>, a: seq<nat>, b: seq<nat>)
    ensures LexLess(p + a, p + b) == LexLess(a, b)
  {
    if p == [] {
      assert p + a == a && p + b == b;
    } else {
      assert (p + a)[1..] == p[1..] + a && (p + b)[1..] == p[1..] + b;
      LexStrips(p[1..], a, b);
    }
  }

  /** A smaller byte at the first difference decides, whatever follows. */
  lemma DecidedAt(a: seq<nat>, b: seq<nat>, k: nat, x: seq<nat>, y: seq<nat>)
    requires k < |a| && k < |b| && a[..k] == b[..k] && a[k] < b[k]
    ensures LexLess(a + x, b + y) && !LexLess(b + y, a + x)
  {
    assert a + x == a[..k] + (a[k..] + x) && b + y == a[..k] + (b[k..] + y);
    LexStrips(a[..k], a[k..] + x, b[k..] + y);
    LexStrips(a[..k], b[k..] + y, a[k..] + x);
  }

  /** Six-bit digits are compared from the top. */
  lemma DigitOrder(c: nat, d: nat)
    requires c < d
    ensures c / 64 < d / 64 || (c / 64 == d / 64 && c % 64 < d % 64)
  {}

  /** Encodings of different code points differ at some position, in the order of the code points. */
  lemma EncodeOneOrdered(c: CodePoint, d: CodePoint) returns (k: nat)
    requires c < d
    ensures k < |EncodeOne(c)| && k < |EncodeOne(d)| && EncodeOne(c)[..k] == EncodeOne(d)[..k]
            && EncodeOne(c)[k] < EncodeOne(d)[k]
  {
    LongerMeansLater(c, d);
    if |EncodeOne(c)| < |EncodeOne(d)| {
      FirstByteGrows(c, d);
      k := 0;
    } else {
      k := SameLengthOrdered(c, d);
    }
  }

  lemma FirstByteGrows(c: CodePoint, d: CodePoint)
    requires |EncodeOne(c)| < |EncodeOne(d)|
    ensures EncodeOne(c)[0] < EncodeOne(d)[0]
  {
    assert c <= 0x7FF ==> c / 64 < 32;
    assert c <= 0xFFFF ==> c / 64 < 1024 && c / 64 / 64 < 16;
  }

  lemma SameLengthOrdered(c: CodePoint, d: CodePoint) returns (k: nat)
    requires c < d && |EncodeOne(c)| == |EncodeOne(d)|
    ensures k < |EncodeOne(c)| && EncodeOne(c)[..k] == EncodeOne(d)[..k] && EncodeOne(c)[k] < EncodeOne(d)[k]
  {
    var n := |EncodeOne(c)|;
    DigitOrder(c, d);
    if n == 1 {
      k := 0;
    } else if c / 64 == d / 64 {
      k := n - 1;
    } else {
      DigitOrder(c / 64, d / 64);
      if n == 2 {
        k := 0;
      } else if c / 64 / 64 == d / 64 / 64 {
        k := n - 2;
      } else {
        DigitOrder(c / 64 / 64, d / 64 / 64);
        k := if n == 3 || c / 64 / 64 / 64 < d / 64 / 64 / 64 then 0 else 1;
      }
    }
  }

  lemma LongerMeansLater(c: CodePoint, d: CodePoint)
    requires c < d
    ensures |EncodeOne(c)| <= |EncodeOne(d)|
  {}

  /** Sorting by UTF-8 bytes and sorting by code points agree on every scalar text. */
  lemma {:induction false} ByteOrderIsCodePointOrder(s: Text, t: Text)
    requires IsScalarText(s) && IsScalarText(t)
    ensures LexLess(Encode(s), Encode(t)) == LexLess(s, t)
  {
    if s != [] && t != [] {
      if s[0] == t[0] {
        LexStrips(EncodeOne(s[0]), Encode(s[1..]), Encode(t[1..]));
        ByteOrderIsCodePointOrder(s[1..], t[1..]);
      } else if s[0] < t[0] {
        var k := EncodeOneOrdered(s[0], t[0]);
        DecidedAt(EncodeOne(s[0]), EncodeOne(t[0]), k, Encode(s[1..]), Encode(t[1..]));
      } else {
        var k := EncodeOneOrdered(t[0], s[0]);
        DecidedAt(EncodeOne(t[0]), EncodeOne(s[0]), k, Encode(t[1..]), Encode(s[1..]));
      }
    }
  }

  lemma {:induction false} LexIsTotal(a: seq<nat>, b: seq<nat>)
    ensures LexLess(a, b) || a == b || LexLess(b, a)
    ensures !(LexLess(a, b) && (a == b || LexLess(b, a)))
  {
    if a != [] && b != [] {
      LexIsTotal(a[1..], b[1..]);
      if a[0] == b[0] && a[1..] == b[1..] {
        assert a == [a[0]] + a[1..] && b == [b[0]] + b[1..];
      }
    }
  }

  lemma {:induction false} LexIsTransitive(a: seq<nat>, b: seq<nat>, c: seq<nat>)
    requires LexLess(a, b) && LexLess(b, c)
    ensures LexLess(a, c)
  {
    if a != [] {
      if a[0] == b[0] == c[0] {
        LexIsTransitive(a[1..], b[1..], c[1..]);
      }
    }
  }

  /** Different scalar texts have different bytes. */
  lemma EncodeIsInjective(s: Text, t: Text)
    requires IsScalarText(s) && IsScalarText(t) && Encode(s) == Encode(t)
    ensures s == t
  {
    ByteOrderIsCodePointOrder(s, t);
    ByteOrderIsCodePointOrder(t, s);
    LexIsTotal(s, t);
    LexIsTotal(Encode(s), Encode(t));
  }

  // ----- Lengths -----

  lemma {:induction false} EncodeConcat(s: Text, t: Text)
    ensures Encode(s + t) == Encode(s) + Encode(t)
  {
    if s == [] {
      assert s + t == t;
    } else {
      assert (s + t)[1..] == s[1..] + t;
      EncodeConcat(s[1..], t);
    }
  }

  lemma EncodeSnoc(s: Text, i: nat)
    requires i < |s|
    ensures Encode(s[..i + 1]) == Encode(s[..i]) + EncodeOne(s[i])
  {
    assert s[..i + 1] == s[..i] + [s[i]];
    EncodeConcat(s[..i], [s[i]]);
    assert Encode([s[i]]) == EncodeOne(s[i]) + Encode([]);
  }

  lemma EncodeNothing()
    ensures Encode([]) == []
  {}

  lemma EncodePrefixFits(s: Text, i: nat)
    requires i <= |s|
    ensures |Encode(s[..i])| <= |Encode(s)|
  {
    assert s == s[..i] + s[i..];
    EncodeConcat(s[..i], s[i..]);
  }

  // ----- Reading bytes back -----

  predicate IsTail(b: nat) {
    0x80 <= b <= 0xBF
  }

  /** The character that starts a byte string, by the table in section 3 of RFC 3629: nothing overlong, no surrogate. */
  function DecodeOne(b: seq<nat>): (r: Option<(CodePoint, nat)>)
    ensures r.Some? ==> 0 < r.value.1 <= |b| && IsScalar(r.value.0)
  {
    if b == [] then None
    else if b[0] < 0x80 then Some((b[0], 1))
    else if 0xC0 <= b[0] < 0xE0 && |b| >= 2 && IsTail(b[1]) then
      var c := (b[0] - 0xC0) * 0x40 + (b[1] - 0x80);
      if c < 0x80 then None else Some((c, 2))
    else if 0xE0 <= b[0] < 0xF0 && |b| >= 3 && IsTail(b[1]) && IsTail(b[2]) then
      var c := (b[0] - 0xE0) * 0x1000 + (b[1] - 0x80) * 0x40 + (b[2] - 0x80);
      if c < 0x800 || IsSurrogate(c) then None else Some((c, 3))
    else if 0xF0 <= b[0] < 0xF8 && |b| >= 4 && IsTail(b[1]) && IsTail(b[2]) && IsTail(b[3]) then
      var c := (b[0] - 0xF0) * 0x4_0000 + (b[1] - 0x80) * 0x1000 + (b[2] - 0x80) * 0x40 + (b[3] - 0x80);
      if c < 0x1_0000 || c >= 0x11_0000 then None else Some((c, 4))
    else None
  }

  function Decode(b: seq<nat>): Option<Text> {
    if b == [] then Some([])
    else
      match DecodeOne(b)
      case None => None
      case Some((c, n)) => match Decode(b[n..]) case None => None case Some(s) => Some([c] + s)
  }

  lemma OneReadsBack(c: CodePoint, x: seq<nat>)
    requires IsScalar(c)
    ensures DecodeOne(EncodeOne(c) + x) == Some((c, |EncodeOne(c)|))
  {
    var b, e := EncodeOne(c) + x, EncodeOne(c);
    assert b[0] == e[0] && (|e| > 1 ==> b[1] == e[1]) && (|e| > 2 ==> b[2] == e[2]) && (|e| > 3 ==> b[3] == e[3]);
    DivisionSteps(c);
  }

  /** The digits of a character in base 64. */
  lemma DivisionSteps(c: nat)
    ensures c == c / 64 * 64 + c % 64
    ensures c == c / 64 / 64 * 0x1000 + c / 64 % 64 * 0x40 + c % 64
    ensures c == c / 64 / 64 / 64 * 0x4_0000 + c / 64 / 64 % 64 * 0x1000 + c / 64 % 64 * 0x40 + c % 64
  {}

  lemma EncodeStep(s: Text)
    requires s != []
    ensures Encode(s) == EncodeOne(s[0]) + Encode(s[1..])
  {}

  /** The bytes of scalar text are UTF-8: they are read back as the text. */
  lemma {:induction false} EncodeReadsBack(s: Text)
    requires IsScalarText(s)
    ensures Decode(Encode(s)) == Some(s)
  {
    hide EncodeOne, DecodeOne, Encode, IsScalar;
    if s == [] {
      EncodeNothing();
    } else {
      var more := Encode(s[1..]);
      assert Encode(s) == EncodeOne(s[0]) + more by { EncodeStep(s); }
      OneReadsBack(s[0], more);
      EncodeReadsBack(s[1..]);
      assert (EncodeOne(s[0]) + more)[|EncodeOne(s[0])|..] == more;
      assert s == [s[0]] + s[1..];
    }
  }

  datatype TextError = UnpairedSurrogate | TooLong

  /** The width the source computes for one character, branch by branch. */
  function Width(c: CodePoint): Option<nat> {
    if c <= 0x7F then Some(1)
    else if c <= 0x7FF then Some(2)
    else if 0xD800 <= c <= 0xDFFF then None
    else if c <= 0xFFFF then Some(3)
    else Some(4)
  }

  lemma WidthIsEncodedLength(c: CodePoint)
    ensures Width(c) == if IsScalar(c) then Some(|EncodeOne(c)|) else None
  {}

  /** `bounded_utf8_length`: the exact byte length, found without encoding, or why there is none. */
  method BoundedUtf8Length(s: Text, limit: nat) returns (r: Result<nat, TextError>)
    requires limit > 0
    ensures r.Success? <==> IsScalarText(s) && |Encode(s)| <= limit
    ensures r.Success? ==> r.value == |Encode(s)|
  {
    hide EncodeOne, Encode, Width;
    assert Encode(s[..0]) == [] by { EncodeNothing(); }
    var total := 0;
    for i := 0 to |s|
      invariant IsScalarText(s[..i]) && total == |Encode(s[..i])| <= limit
    {
      var width := Width(s[i]);
      WidthIsEncodedLength(s[i]);
      EncodeSnoc(s, i);
      EncodePrefixFits(s, i + 1);
      if width.None? {
        return Failure(UnpairedSurrogate);
      }
      total := total + width.value;
      if total > limit {
        return Failure(TooLong);
      }
    }
    assert s[..|s|] == s;
    return Success(total);
  }
}
