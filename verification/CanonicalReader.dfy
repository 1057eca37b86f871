/**
 * A reader of JSON text without insignificant whitespace, after RFC 8259 and apart from the printer: what the
 * printer prints is read back as the value it printed, in the shortest spelling the standard has for its strings.
 */
module CanonicalReader {
  import opened Common
  import opened Utf8
  import opened DecimalIntegers
  import opened CanonicalFloats
  import opened CanonicalJson

  // ----- Strings, section 7 of RFC 8259 -----

  /** What a two-character escape stands for. */
  function ShortEscape(letter: CodePoint): Option<CodePoint> {
    if letter == 34 then Some(34)         // quotation mark
    else if letter == 92 then Some(92)    // reverse solidus
    else if letter == 47 then Some(47)    // solidus
    else if letter == 98 then Some(8)     // b: backspace
    else if letter == 102 then Some(12)   // f: form feed
    else if letter == 110 then Some(10)   // n: line feed
    else if letter == 114 then Some(13)   // r: carriage return
    else if letter == 116 then Some(9)    // t: tab
    else None
  }

  /** The value of a hexadecimal digit; a reader may insist on lowercase. */
  function HexValue(c: CodePoint, lowercase: bool): (r: Option<nat>)
    ensures r.Some? ==> r.value < 16
  {
    if 48 <= c <= 57 then Some(c - 48)
    else if 97 <= c <= 102 then Some(c - 87)
    else if 65 <= c <= 70 && !lowercase then Some(c - 55)
    else None
  }

  function FourHex(t: Text, lowercase: bool): (r: Option<nat>)
    requires |t| == 4
    ensures r.Some? ==> r.value < 0x1_0000
  {
    var (a, b, c, d) := (HexValue(t[0], lowercase), HexValue(t[1], lowercase), HexValue(t[2], lowercase),
                         HexValue(t[3], lowercase));
    if a.None? || b.None? || c.None? || d.None? then None
    else Some(((a.value * 16 + b.value) * 16 + c.value) * 16 + d.value)
  }

  /** The first character of a string's content, and how much of the text spells it. */
  function ReadChar(t: Text, lowercase: bool): (r: Option<(CodePoint, nat)>)
    ensures r.Some? ==> 0 < r.value.1 <= |t|
  {
    if t == [] || t[0] == 34 || t[0] < 0x20 || IsSurrogate(t[0]) then None
    else if t[0] != 92 then Some((t[0], 1))
    else if |t| >= 2 && ShortEscape(t[1]).Some? then Some((ShortEscape(t[1]).value, 2))
    else if |t| >= 6 && t[1] == 117 && FourHex(t[2..6], lowercase).Some? then
      var unit := FourHex(t[2..6], lowercase).value;
      if !IsSurrogate(unit) then Some((unit, 6)) else ReadPair(t, unit, lowercase)
    else None
  }

  /** A surrogate pair stands for one character beyond the basic plane. */
  function ReadPair(t: Text, high: nat, lowercase: bool): (r: Option<(CodePoint, nat)>)
    requires |t| >= 6
    ensures r.Some? ==> r.value.0 >= 0x1_0000 && r.value.1 == 12 <= |t|
  {
    if 0xD800 <= high < 0xDC00 && |t| >= 12 && t[6] == 92 && t[7] == 117 && FourHex(t[8..12], lowercase).Some? then
      var low := FourHex(t[8..12], lowercase).value;
      if 0xDC00 <= low <= 0xDFFF then Some((0x1_0000 + (high - 0xD800) * 0x400 + (low - 0xDC00), 12)) else None
    else None
  }

  /** A string's content up to its closing quotation mark, and what follows. */
  function ReadContent(t: Text, lowercase: bool): (r: Option<(Text, Text)>)
    ensures r.Some? ==> |r.value.1| < |t|
    decreases |t|
  {
    if t == [] then None
    else if t[0] == 34 then Some(([], t[1..]))
    else
      match ReadChar(t, lowercase)
      case None => None
      case Some((c, n)) =>
        (match ReadContent(t[n..], lowercase)
         case None => None
         case Some((s, rest)) => Some(([c] + s, rest)))
  }

  // ----- Numbers, section 6 of RFC 8259 -----

  /** The float a numeral stands for: the shortest decimal of the number it denotes, or a zero. */
  ghost function ReadFloat(t: Text, negative: bool): Option<Decimal> {
    if IsZeroNumeral(t) then Some(Zero(negative))
    else if d: Decimal :| Renders(t, d) && d.negative == negative then Some(d)
    else None
  }

  ghost predicate IsZeroNumeral(t: Text) {
    exists r :: IsRendering(r) && t == TextOf(r) && ValueOf(r.integer + Fraction(r)) == 0
  }

  /** A number without fraction or exponent is an integer, any other a float. */
  ghost function ReadNumber(t: Text): Option<Json> {
    var negative := t != [] && t[0] == 45;
    var magnitude := if negative then t[1..] else t;
    if IsPlain(magnitude) then
      var value: int := ValueOf(magnitude);
      Some(Number(if negative then -value else value))
    else match ReadFloat(magnitude, negative) case None => None case Some(d) => Some(Float(d))
  }

  /** How much of the text is number characters. */
  function NumberLength(t: Text): (n: nat)
    ensures n <= |t|
  {
    if t != [] && (48 <= t[0] <= 57 || t[0] in {43, 45, 46, 69, 101}) then 1 + NumberLength(t[1..]) else 0
  }

  // ----- Values, sections 3 to 5 of RFC 8259 -----

  const NULL_NAME: Text := [110, 117, 108, 108]
  const TRUE_NAME: Text := [116, 114, 117, 101]
  const FALSE_NAME: Text := [102, 97, 108, 115, 101]

  ghost function ReadValue(t: Text): (r: Option<(Json, Text)>)
    ensures r.Some? ==> |r.value.1| < |t|
    decreases |t|, 0
  {
    if t == [] then None
    else if NULL_NAME <= t then Some((Null, t[4..]))
    else if TRUE_NAME <= t then Some((Bool(true), t[4..]))
    else if FALSE_NAME <= t then Some((Bool(false), t[5..]))
    else if t[0] == 34 then
      match ReadContent(t[1..], false)
      case None => None
      case Some((s, rest)) => Some((String(s), rest))
    else if t[0] == 91 then ReadArray(t[1..])
    else if t[0] == 123 then ReadObject(t[1..])
    else
      var n := NumberLength(t);
      if n == 0 then None
      else match ReadNumber(t[..n]) case None => None case Some(v) => Some((v, t[n..]))
  }

  ghost function ReadArray(t: Text): (r: Option<(Json, Text)>)
    ensures r.Some? ==> |r.value.1| <= |t|
    decreases |t|, 2
  {
    if t != [] && t[0] == 93 then Some((Array(NoItems), t[1..]))
    else match ReadItems(t) case None => None case Some((items, rest)) => Some((Array(items), rest))
  }

  /** One or more values, separated by commas, up to the closing bracket. */
  ghost function ReadItems(t: Text): (r: Option<(Items, Text)>)
    ensures r.Some? ==> |r.value.1| < |t|
    decreases |t|, 1
  {
    match ReadValue(t)
    case None => None
    case Some((v, rest)) =>
      if rest == [] then None
      else if rest[0] == 93 then Some((Item(v, NoItems), rest[1..]))
      else if rest[0] != 44 then None
      else match ReadItems(rest[1..]) case None => None case Some((more, end)) => Some((Item(v, more), end))
  }

  ghost function ReadObject(t: Text): (r: Option<(Json, Text)>)
    ensures r.Some? ==> |r.value.1| <= |t|
    decreases |t|, 2
  {
    if t != [] && t[0] == 125 then Some((Object(NoMembers), t[1..]))
    else match ReadMembers(t) case None => None case Some((members, rest)) => Some((Object(members), rest))
  }

  /** One or more members, separated by commas, up to the closing brace. */
  ghost function ReadMembers(t: Text): (r: Option<(Members, Text)>)
    ensures r.Some? ==> |r.value.1| < |t|
    decreases |t|, 1
  {
    if t == [] || t[0] != 34 then None
    else
      match ReadContent(t[1..], false)
      case None => None
      case Some((key, colon)) =>
        if colon == [] || colon[0] != 58 then None
        else
          match ReadValue(colon[1..])
          case None => None
          case Some((v, rest)) =>
            if rest == [] then None
            else if rest[0] == 125 then Some((Member(key, v, NoMembers), rest[1..]))
            else if rest[0] != 44 then None
            else
              match ReadMembers(rest[1..])
              case None => None
              case Some((more, end)) => Some((Member(key, v, more), end))
  }

  // ----- What is printed is read back -----

  lemma HexReadsBack(n: nat, t: Text, lowercase: bool)
    requires n < 256 && t == [48, 48, HexDigit(n / 16), HexDigit(n % 16)]
    ensures FourHex(t, lowercase) == Some(n)
  {}

  lemma LongEscapeReadsBack(c: CodePoint, x: Text, lowercase: bool)
    requires |Escape(c)| == 6
    ensures ReadChar(Escape(c) + x, lowercase) == Some((c, 6))
  {
    var p := Escape(c) + x;
    assert p[0] == 92 && p[1] == 117 && p[2..6] == [48, 48, HexDigit(c / 16), HexDigit(c % 16)];
    HexReadsBack(c, p[2..6], lowercase);
    hide HexDigit, FourHex;
  }

  lemma ShortEscapeReadsBack(c: CodePoint, x: Text, lowercase: bool)
    requires |Escape(c)| == 2
    ensures ReadChar(Escape(c) + x, lowercase) == Some((c, 2))
  {
    var p := Escape(c) + x;
    assert p[0] == 92 && p[1] == Escape(c)[1];
    hide HexDigit, FourHex;
  }

  lemma EscapeReadsBack(c: CodePoint, x: Text, lowercase: bool)
    requires IsScalar(c)
    ensures ReadChar(Escape(c) + x, lowercase) == Some((c, |Escape(c)|)) && (Escape(c) + x)[0] != 34
  {
    assert (Escape(c) + x)[0] == Escape(c)[0];
    if |Escape(c)| == 6 {
      LongEscapeReadsBack(c, x, lowercase);
    } else if |Escape(c)| == 2 {
      ShortEscapeReadsBack(c, x, lowercase);
    } else {
      assert Escape(c) == [c];
    }
    hide HexDigit, FourHex, ShortEscape;
  }

  /** A printed string is read back, whichever case of hexadecimal digits the reader takes. */
  lemma {:induction false} ContentReadsBack(s: Text, x: Text, lowercase: bool)
    requires IsScalarText(s)
    ensures ReadContent(EscapeAll(s) + ([QUOTE] + x), lowercase) == Some((s, x))
  {
    hide Escape, EscapeAll, ReadChar;
    var t := EscapeAll(s) + ([QUOTE] + x);
    EscapedHead(s, x);
    if s != [] {
      var tail := EscapeAll(s[1..]) + ([QUOTE] + x);
      EscapeReadsBack(s[0], tail, lowercase);
      assert t[|Escape(s[0])|..] == tail;
      ContentReadsBack(s[1..], x, lowercase);
      assert s == [s[0]] + s[1..];
    }
  }

  lemma IntegerReadsBack(i: int)
    ensures ReadNumber(PrintInt(i)) == Some(Number(i))
  {
    DigitsArePlain(Abs(i));
    hide Digits, ValueOf, ReadFloat;
    if i < 0 {
      assert PrintInt(i)[1..] == Digits(-i);
    }
  }

  lemma ZeroIsZeroNumeral()
    ensures IsZeroNumeral([ZERO_DIGIT, POINT, ZERO_DIGIT])
  {
    var r := Rendering([ZERO_DIGIT], Some([ZERO_DIGIT]), None);
    assert TextOf(r) == [ZERO_DIGIT, POINT, ZERO_DIGIT];
    var digits := r.integer + Fraction(r);
    assert digits == [ZERO_DIGIT, ZERO_DIGIT] && digits[..1] == [ZERO_DIGIT] && digits[..1][..0] == [];
    assert ValueOf(digits[..1]) == 0;
  }

  lemma DenotedIsPositive(r: Rendering, d: Decimal)
    requires Denotes(r, d)
    ensures ValueOf(r.integer + Fraction(r)) > 0
  {
    var e, f := Explicit(r) - |Fraction(r)|, d.exponent - (|d.digits| - 1);
    TrimmedIsPositive(d.digits);
    ShiftScales(ValueOf(d.digits), f - Low(e, f));
    ShiftScales(ValueOf(r.integer + Fraction(r)), e - Low(e, f));
  }

  lemma RenderedIsNotZero(t: Text, d: Decimal)
    requires Renders(t, d)
    ensures !IsZeroNumeral(t)
  {
    hide Denotes, TextOf, IsRendering, ValueOf, Fraction, Parsed;
    var r :| Denotes(r, d) && t == TextOf(r);
    DenotedIsPositive(r, d);
    assert IsRendering(r) by { DenotedIsRendering(r, d); }
    ParsingFindsTheParts(r);
    forall z | IsRendering(z) && t == TextOf(z)
      ensures z == r
    {
      ParsingFindsTheParts(z);
    }
  }

  lemma DenotedIsRendering(r: Rendering, d: Decimal)
    requires Denotes(r, d)
    ensures IsRendering(r)
  {}

  lemma UnsignedReadsBack(d: Decimal)
    ensures ReadFloat(Unsigned(d), d.negative) == Some(d)
  {
    hide Renders, IsZeroNumeral, DerivedFrom;
    match d
    case Zero(_) =>
      ZeroIsZeroNumeral();
    case Scaled(_, _, _) =>
      LayoutRendersItsDecimal(d);
      RenderedIsNotZero(Unsigned(d), d);
      DerivedFromAnyRendering(Unsigned(d), d);
      forall c: Decimal | Renders(Unsigned(d), c) && c.negative == d.negative
        ensures c == d
      {
        DerivedFromAnyRendering(Unsigned(d), c);
      }
  }

  lemma FloatReadsBack(d: Decimal)
    ensures ReadNumber(Layout(d)) == Some(Float(d))
  {
    UnsignedStartsWithDigit(d);
    UnsignedReadsBack(d);
    var i := UnsignedIsMarked(d);
    hide Unsigned, ReadFloat;
    assert !IsPlain(Unsigned(d));
    assert d.negative ==> Layout(d)[1..] == Unsigned(d);
    assert !d.negative ==> Layout(d) == Unsigned(d);
  }

  lemma {:induction false} NumberLengthOf(a: Text, x: Text)
    requires IsNumberText(a) && Delimits(x)
    ensures NumberLength(a + x) == |a|
  {
    if a == [] {
      assert a + x == x;
    } else {
      assert (a + x)[1..] == a[1..] + x;
      NumberLengthOf(a[1..], x);
    }
  }

  /** No name of a literal starts like a number, a string or a bracket. */
  lemma NotALiteral(t: Text)
    requires t != [] && t[0] != 110 && t[0] != 116 && t[0] != 102
    ensures !(NULL_NAME <= t) && !(TRUE_NAME <= t) && !(FALSE_NAME <= t)
  {}

  lemma NumberIsRead(a: Text, x: Text, v: Json)
    requires a != [] && (a[0] == 45 || 48 <= a[0] <= 57) && NumberLength(a + x) == |a| && ReadNumber(a) == Some(v)
    ensures ReadValue(a + x) == Some((v, x))
  {
    hide ReadNumber, NumberLength, ReadContent, ReadArray, ReadObject;
    var t := a + x;
    assert t[0] == a[0] && t[..|a|] == a && t[|a|..] == x;
    NotALiteral(t);
  }

  lemma NumberReadsBack(v: Json, x: Text)
    requires (v.Number? || v.Float?) && Delimits(x)
    ensures ReadValue(Render(v) + x) == Some((v, x))
  {
    hide ReadValue, ReadNumber, NumberLength, PrintInt, Layout, IsNumberText, Delimits;
    NumbersAreNumberText(v);
    NumberLengthOf(Render(v), x);
    RenderHead(v);
    if v.Number? {
      IntegerReadsBack(v.number);
    } else {
      FloatReadsBack(v.decimal);
    }
    NumberIsRead(Render(v), x, v);
  }

  lemma LiteralReadsBack(v: Json, x: Text)
    requires v.Null? || v.Bool?
    ensures ReadValue(Render(v) + x) == Some((v, x))
  {
    hide ReadContent, ReadArray, ReadObject, ReadNumber, NumberLength;
    var t := Render(v) + x;
    assert t[|Render(v)|..] == x && Render(v) <= t;
    assert t[0] == Render(v)[0];
  }

  /** A quotation mark starts a string. */
  lemma QuotedReads(t: Text)
    requires t != [] && t[0] == 34
    ensures ReadValue(t) ==
            match ReadContent(t[1..], false)
            case None => None
            case Some((s, rest)) => Some((String(s), rest))
  {
    NotALiteral(t);
    hide ReadContent, ReadArray, ReadObject, ReadNumber, NumberLength;
  }

  lemma StringReadsBack(s: Text, x: Text)
    requires IsScalarText(s)
    ensures ReadValue(PrintString(s) + x) == Some((String(s), x))
    ensures PrintString(s) + x == [QUOTE] + (EscapeAll(s) + ([QUOTE] + x))
  {
    hide EscapeAll, ReadValue, ReadContent, IsScalarText;
    ContentReadsBack(s, x, false);
    var t := [QUOTE] + (EscapeAll(s) + ([QUOTE] + x));
    Regroup([QUOTE], EscapeAll(s) + [QUOTE], x);
    Regroup(EscapeAll(s), [QUOTE], x);
    assert t[1..] == EscapeAll(s) + ([QUOTE] + x);
    QuotedReads(t);
  }

  /** Every rendered value is read back, whatever delimits it. */
  lemma {:induction false} RenderReadsBack(v: Json, x: Text)
    requires IsScalarJson(v) && Delimits(x)
    ensures ReadValue(Render(v) + x) == Some((v, x))
    decreases v, 1
  {
    hide PrintInt, Layout, PrintString, ReadValue, ReadArray, ReadObject, RenderItems, RenderMembers;
    match v
    case Null => LiteralReadsBack(v, x);
    case Bool(_) => LiteralReadsBack(v, x);
    case Number(_) => NumberReadsBack(v, x);
    case Float(_) => NumberReadsBack(v, x);
    case String(s) => StringReadsBack(s, x);
    case Array(items) =>
      ArrayReadsBack(items, x);
      OpenedReads(91, RenderItems(items), 93, x);
    case Object(members) =>
      ObjectReadsBack(members, x);
      OpenedReads(123, RenderMembers(members), 125, x);
  }

  /** A bracket is read first, and its content is what follows. */
  lemma OpenedReads(open: CodePoint, body: Text, close: CodePoint, x: Text)
    requires open == 91 || open == 123
    ensures var t := ([open] + (body + [close])) + x;
            ReadValue(t) == if open == 91 then ReadArray(body + ([close] + x)) else ReadObject(body + ([close] + x))
  {
    var t := ([open] + (body + [close])) + x;
    assert t[0] == open && t[1..] == body + ([close] + x);
    NotALiteral(t);
    hide ReadArray, ReadObject, ReadContent, ReadNumber, NumberLength;
  }

  lemma {:induction false} ArrayReadsBack(items: Items, x: Text)
    requires ScalarItems(items)
    ensures ReadArray(RenderItems(items) + ([93] + x)) == Some((Array(items), x))
    decreases items, 1
  {
    hide ReadItems, RenderItems, Render;
    ItemsHead(items, x);
    if items.Item? {
      ItemsReadBack(items, x);
    }
  }

  lemma {:induction false} ItemsReadBack(items: Items, x: Text)
    requires ScalarItems(items) && items.Item?
    ensures ReadItems(RenderItems(items) + ([93] + x)) == Some((items, x))
    decreases items, 0
  {
    hide ReadValue, RenderItems, Render, ItemsTail;
    ItemsHead(items, x);
    ItemsTailHead(items.rest, x);
    RenderReadsBack(items.head, ItemsTail(items.rest, x));
    if items.rest.Item? {
      ItemsComma(items.rest, x);
      ItemsReadBack(items.rest, x);
    }
  }

  /** Between two values there is a comma. */
  lemma ItemsComma(rest: Items, x: Text)
    requires rest.Item?
    ensures ItemsTail(rest, x)[0] == 44
  {
    hide RenderItems;
  }

  lemma MembersComma(rest: Members, x: Text)
    requires rest.Member?
    ensures MembersTail(rest, x)[0] == 44
  {
    hide RenderMembers;
  }

  lemma {:induction false} ObjectReadsBack(members: Members, x: Text)
    requires ScalarMembers(members)
    ensures ReadObject(RenderMembers(members) + ([125] + x)) == Some((Object(members), x))
    decreases members, 1
  {
    hide ReadMembers, RenderMembers, Render;
    MembersHead(members, x);
    if members.Member? {
      MembersReadBack(members, x);
    }
  }

  lemma {:induction false} MembersReadBack(members: Members, x: Text)
    requires ScalarMembers(members) && members.Member?
    ensures ReadMembers(RenderMembers(members) + ([125] + x)) == Some((members, x))
    decreases members, 0
  {
    hide ReadValue, ReadContent, RenderMembers, Render, MembersTail, PrintString, EscapeAll;
    var tail := MembersTail(members.rest, x);
    var colon := [COLON] + (Render(members.value) + tail);
    MembersHead(members, x);
    MembersTailHead(members.rest, x);
    StringReadsBack(members.key, colon);
    ContentReadsBack(members.key, colon, false);
    RenderReadsBack(members.value, tail);
    assert colon[1..] == Render(members.value) + tail;
    assert (PrintString(members.key) + colon)[1..] == EscapeAll(members.key) + ([QUOTE] + colon);
    if members.rest.Member? {
      MembersComma(members.rest, x);
      MembersReadBack(members.rest, x);
    }
  }

  // ----- Main results -----

  /** What either printer prints is read as the value with its members in key order, and nothing is left over. */
  lemma PrintReadsBack(o: KeyOrder, v: Json)
    requires IsScalarJson(v)
    ensures ReadValue(Print(o, v)) == Some((Sorted(ByCodePoints, v), []))
  {
    SortsAgree(v);
    RenderReadsBack(Sorted(ByBytes, v), []);
    assert Render(Sorted(ByBytes, v)) + [] == Render(Sorted(ByBytes, v));
    hide Render, ReadValue, Sorted;
    assert o == ByBytes || o == ByCodePoints;
  }

  /** The spelling of one character is the shortest there is, and the only one of its length. */
  lemma EscapeIsShortest(t: Text)
    requires ReadChar(t, true).Some?
    ensures var (c, n) := ReadChar(t, true).value;
            IsScalar(c) && |Escape(c)| <= n && (|Escape(c)| == n ==> t[..n] == Escape(c))
  {
    if t[0] == 92 && |t| >= 6 && t[1] == 117 && FourHex(t[2..6], true).Some? {
      if FourHex(t[2..6], true).value < 32 {
        LowHex(t[2..6]);
      }
      assert t[..6] == [t[0], t[1]] + t[2..6];
    }
    hide FourHex, HexDigit, ReadPair;
  }

  lemma LowHex(u: Text)
    requires |u| == 4 && FourHex(u, true).Some? && FourHex(u, true).value < 32
    ensures var c := FourHex(u, true).value; u == [48, 48, HexDigit(c / 16), HexDigit(c % 16)]
  {
    var a, b, high, low := HexValue(u[0], true), HexValue(u[1], true), HexValue(u[2], true), HexValue(u[3], true);
    DigitOfValue(u[2]);
    DigitOfValue(u[3]);
    assert a.value == b.value == 0 && FourHex(u, true).value == high.value * 16 + low.value;
    hide HexDigit;
  }

  lemma DigitOfValue(c: CodePoint)
    requires HexValue(c, true).Some?
    ensures HexDigit(HexValue(c, true).value) == c
  {}

  /**
   * Of all texts that are read as a string, with lowercase hexadecimal digits, the printed one is the shortest, and
   * the only one of its length: an escape is used exactly where the standard demands one, and its short form
   * wherever there is one.
   */
  lemma {:induction false} StringIsTheShortestSpelling(t: Text, s: Text)
    requires ReadContent(t, true) == Some((s, []))
    ensures IsScalarText(s) && |EscapeAll(s)| + 1 <= |t|
    ensures |t| == |EscapeAll(s)| + 1 ==> t == EscapeAll(s) + [QUOTE]
    decreases |t|
  {
    if t[0] != 34 {
      hide Escape, ReadChar, EscapeAll, ReadContent, IsScalar;
      var c, a, b, more := ContentSplits(t, s);
      EscapeIsShortest(t);
      StringIsTheShortestSpelling(b, more);
      SpellingGrows(c, more, a, b);
      hide IsScalarText;
      ScalarGrows(c, more);
    }
  }

  lemma ScalarGrows(c: CodePoint, s: Text)
    requires IsScalar(c) && IsScalarText(s)
    ensures IsScalarText([c] + s)
  {}

  /** The content read is its first character and the content of the rest. */
  lemma ContentSplits(t: Text, s: Text) returns (c: CodePoint, a: Text, b: Text, more: Text)
    requires ReadContent(t, true) == Some((s, [])) && t[0] != 34
    ensures a + b == t && |b| < |t| && t[..|a|] == a && ReadChar(t, true) == Some((c, |a|))
    ensures s == [c] + more && ReadContent(b, true) == Some((more, []))
  {
    hide ReadChar;
    var n := ReadChar(t, true).value.1;
    c, a, b := ReadChar(t, true).value.0, t[..n], t[n..];
    more := ReadContent(b, true).value.0;
  }

  lemma SpellingGrows(c: CodePoint, s: Text, a: Text, b: Text)
    requires |Escape(c)| <= |a| && (|Escape(c)| == |a| ==> a == Escape(c))
    requires |EscapeAll(s)| + 1 <= |b| && (|b| == |EscapeAll(s)| + 1 ==> b == EscapeAll(s) + [QUOTE])
    ensures |EscapeAll([c] + s)| + 1 <= |a + b|
    ensures |a + b| == |EscapeAll([c] + s)| + 1 ==> a + b == EscapeAll([c] + s) + [QUOTE]
  {
    hide Escape;
    assert ([c] + s)[1..] == s;
    assert EscapeAll([c] + s) == Escape(c) + EscapeAll(s);
  }

  /** No control character is printed, and nothing in a string's content ends it early. */
  lemma {:induction false} ContentIsClean(s: Text)
    ensures forall k :: 0 <= k < |EscapeAll(s)| ==> EscapeAll(s)[k] >= 0x20
  {
    if s != [] {
      ContentIsClean(s[1..]);
    }
  }
}
