/** Canonical JSON: sorted, escaped, separator-free printing, and why the text determines the value. */
module CanonicalJson {
  import opened Common
  import opened Utf8
  import opened DecimalIntegers
  import opened CanonicalFloats

  datatype Json =
    | Null
    | Bool(flag: bool)
    | Number(number: int)
    | Float(decimal: Decimal)
    | String(text: Text)
    | Array(items: Items)
    | Object(members: Members)

  datatype Items = NoItems | Item(head: Json, rest: Items)

  /** Members in the order the caller supplies them. */
  datatype Members = NoMembers | Member(key: Text, value: Json, rest: Members)

  // ----- Printing -----

  const QUOTE := 34
  const COMMA := 44
  const COLON := 58
  const BACKSLASH := 92

  function HexDigit(d: nat): CodePoint
    requires d < 16
  {
    if d < 10 then 48 + d else 87 + d
  }

  /** Section 7 of RFC 8259, with the short escapes and lowercase hexadecimal. */
  function Escape(c: CodePoint): (r: Text)
    ensures r != []
  {
    if c == QUOTE || c == BACKSLASH then [BACKSLASH, c]
    else if c == 8 then [BACKSLASH, 98]
    else if c == 9 then [BACKSLASH, 116]
    else if c == 10 then [BACKSLASH, 110]
    else if c == 12 then [BACKSLASH, 102]
    else if c == 13 then [BACKSLASH, 114]
    else if c <= 0x1F then [BACKSLASH, 117, 48, 48, HexDigit(c / 16), HexDigit(c % 16)]
    else [c]
  }

  function EscapeAll(s: Text): Text {
    if s == [] then [] else Escape(s[0]) + EscapeAll(s[1..])
  }

  function PrintString(s: Text): Text {
    [QUOTE] + (EscapeAll(s) + [QUOTE])
  }

  function Render(v: Json): Text {
    match v
    case Null => [110, 117, 108, 108]
    case Bool(flag) => if flag then [116, 114, 117, 101] else [102, 97, 108, 115, 101]
    case Number(i) => PrintInt(i)
    case Float(d) => Layout(d)
    case String(s) => PrintString(s)
    case Array(items) => [91] + (RenderItems(items) + [93])
    case Object(members) => [123] + (RenderMembers(members) + [125])
  }

  function RenderItems(items: Items): Text {
    match items
    case NoItems => []
    case Item(head, rest) => Render(head) + if rest.NoItems? then [] else [COMMA] + RenderItems(rest)
  }

  function RenderMembers(members: Members): Text {
    match members
    case NoMembers => []
    case Member(key, value, rest) =>
      PrintString(key) + ([COLON] + (Render(value) + if rest.NoMembers? then [] else [COMMA] + RenderMembers(rest)))
  }

  /** How a printer orders keys: the native one by UTF-8 bytes, the Python one by code points. */
  datatype KeyOrder = ByBytes | ByCodePoints

  predicate KeyLess(o: KeyOrder, a: Text, b: Text) {
    if o.ByBytes? then LexLess(Encode(a), Encode(b)) else LexLess(a, b)
  }

  function Insert(o: KeyOrder, key: Text, value: Json, members: Members): Members {
    if members.Member? && KeyLess(o, members.key, key) then
      Member(members.key, members.value, Insert(o, key, value, members.rest))
    else Member(key, value, members)
  }

  /** The same value with the members of every object in key order. */
  function Sorted(o: KeyOrder, v: Json): Json {
    match v
    case Array(items) => Array(SortedItems(o, items))
    case Object(members) => Object(SortedMembers(o, members))
    case _ => v
  }

  function SortedItems(o: KeyOrder, items: Items): Items {
    match items
    case NoItems => NoItems
    case Item(head, rest) => Item(Sorted(o, head), SortedItems(o, rest))
  }

  function SortedMembers(o: KeyOrder, members: Members): Members {
    match members
    case NoMembers => NoMembers
    case Member(key, value, rest) => Insert(o, key, Sorted(o, value), SortedMembers(o, rest))
  }

  function Print(o: KeyOrder, v: Json): Text {
    Render(Sorted(o, v))
  }

  // ----- Well-formed values -----

  function Keys(members: Members): set<Text> {
    match members case NoMembers => {} case Member(key, _, rest) => {key} + Keys(rest)
  }

  /** All text in the value is scalar, as every native string is. */
  predicate IsScalarJson(v: Json) {
    match v
    case String(s) => IsScalarText(s)
    case Array(items) => ScalarItems(items)
    case Object(members) => ScalarMembers(members)
    case _ => true
  }

  predicate ScalarItems(items: Items) {
    match items case NoItems => true case Item(head, rest) => IsScalarJson(head) && ScalarItems(rest)
  }

  predicate ScalarMembers(members: Members) {
    match members
    case NoMembers => true
    case Member(key, value, rest) => IsScalarText(key) && IsScalarJson(value) && ScalarMembers(rest)
  }

  /** No object repeats a key, as no dictionary can. */
  predicate HasUniqueKeys(v: Json) {
    match v
    case Array(items) => UniqueItems(items)
    case Object(members) => UniqueMembers(members)
    case _ => true
  }

  predicate UniqueItems(items: Items) {
    match items case NoItems => true case Item(head, rest) => HasUniqueKeys(head) && UniqueItems(rest)
  }

  predicate UniqueMembers(members: Members) {
    match members
    case NoMembers => true
    case Member(key, value, rest) => key !in Keys(rest) && HasUniqueKeys(value) && UniqueMembers(rest)
  }

  // ----- Both printers agree -----

  lemma SameKeyOrder(a: Text, b: Text)
    requires IsScalarText(a) && IsScalarText(b)
    ensures KeyLess(ByBytes, a, b) == KeyLess(ByCodePoints, a, b)
  {
    ByteOrderIsCodePointOrder(a, b);
  }

  lemma {:induction false} SameInsert(key: Text, value: Json, members: Members)
    requires IsScalarText(key) && IsScalarJson(value) && ScalarMembers(members)
    ensures Insert(ByBytes, key, value, members) == Insert(ByCodePoints, key, value, members)
    ensures ScalarMembers(Insert(ByBytes, key, value, members))
  {
    hide KeyLess;
    if members.Member? {
      SameKeyOrder(members.key, key);
      SameInsert(key, value, members.rest);
    }
  }

  /** Sorting keys by bytes and by code points gives one canonical value. */
  lemma {:induction false} SortsAgree(v: Json)
    requires IsScalarJson(v)
    ensures Sorted(ByBytes, v) == Sorted(ByCodePoints, v) && IsScalarJson(Sorted(ByBytes, v))
  {
    match v
    case Array(items) => SortsAgreeItems(items);
    case Object(members) => SortsAgreeMembers(members);
    case _ =>
  }

  lemma {:induction false} SortsAgreeItems(items: Items)
    requires ScalarItems(items)
    ensures SortedItems(ByBytes, items) == SortedItems(ByCodePoints, items) && ScalarItems(SortedItems(ByBytes, items))
  {
    if items.Item? {
      SortsAgree(items.head);
      SortsAgreeItems(items.rest);
    }
  }

  lemma {:induction false} SortsAgreeMembers(members: Members)
    requires ScalarMembers(members)
    ensures SortedMembers(ByBytes, members) == SortedMembers(ByCodePoints, members)
    ensures ScalarMembers(SortedMembers(ByBytes, members))
  {
    if members.Member? {
      SortsAgree(members.value);
      SortsAgreeMembers(members.rest);
      SameInsert(members.key, Sorted(ByBytes, members.value), SortedMembers(ByBytes, members.rest));
    }
  }

  /** The native printer and the Python printer produce the same text for every value both can hold. */
  lemma PrintersAgree(v: Json)
    requires IsScalarJson(v)
    ensures Print(ByBytes, v) == Print(ByCodePoints, v)
  {
    SortsAgree(v);
  }

  // ----- The text determines the rendered value -----

  /** What may follow a value inside a document. */
  predicate Delimits(x: Text) {
    x == [] || x[0] in {COMMA, 93, 125}
  }

  /** How many number characters a text starts with. */
  function NumberRun(s: Text): nat {
    if s != [] && IsNumberChar(s[0]) then 1 + NumberRun(s[1..]) else 0
  }

  lemma {:induction false} NumberRunOf(a: Text, x: Text)
    requires IsNumberText(a) && Delimits(x)
    ensures NumberRun(a + x) == |a|
  {
    if a == [] {
      assert a + x == x;
    } else {
      assert (a + x)[1..] == a[1..] + x;
      NumberRunOf(a[1..], x);
    }
  }

  /** Number texts are told apart from what delimits them. */
  lemma NumberTextPrefix(a: Text, b: Text, x: Text, y: Text)
    requires IsNumberText(a) && IsNumberText(b) && Delimits(x) && Delimits(y) && a + x == b + y
    ensures a == b && x == y
  {
    NumberRunOf(a, x);
    NumberRunOf(b, y);
    assert a == (a + x)[..|a|] && b == (b + y)[..|b|];
    assert x == (a + x)[|a|..] && y == (b + y)[|b|..];
  }

  lemma PrintIntIsInjective(i: int, j: int)
    requires PrintInt(i) == PrintInt(j)
    ensures i == j
  {
    DigitsArePlain(Abs(i));
    DigitsArePlain(Abs(j));
    hide Digits, ValueOf;
    assert i < 0 ==> Digits(-i) == PrintInt(i)[1..];
    assert j < 0 ==> Digits(-j) == PrintInt(j)[1..];
  }

  lemma NumbersAreNumberText(v: Json)
    requires v.Number? || v.Float?
    ensures IsNumberText(Render(v))
  {
    if v.Number? {
      IntegersAreNumberText(v.number);
    } else {
      FloatsAreNumberText(v.decimal);
    }
  }

  /** Integers and floats, before what delimits them. */
  lemma NumberPrefix(v: Json, w: Json, x: Text, y: Text)
    requires (v.Number? || v.Float?) && (w.Number? || w.Float?)
    requires Delimits(x) && Delimits(y) && Render(v) + x == Render(w) + y
    ensures v == w && x == y
  {
    NumbersAreNumberText(v);
    NumbersAreNumberText(w);
    NumberTextPrefix(Render(v), Render(w), x, y);
    hide PrintInt, Layout;
    match (v, w)
    case (Number(i), Number(j)) => PrintIntIsInjective(i, j);
    case (Number(i), Float(d)) => LayoutIsNoInteger(d, i);
    case (Float(c), Number(j)) => LayoutIsNoInteger(c, j);
    case (Float(c), Float(d)) => LayoutIsInjective(c, d);
    case _ =>
  }

  lemma EscapePrefix(c: CodePoint, d: CodePoint, x: Text, y: Text)
    requires Escape(c) + x == Escape(d) + y
    ensures c == d && x == y
  {
    var p, q := Escape(c), Escape(d);
    assert (p + x)[0] == p[0] && (q + y)[0] == q[0];
    assert (|p| > 1 ==> (p + x)[1] == p[1]) && (|q| > 1 ==> (q + y)[1] == q[1]);
    assert && (|p| > 2 ==> (p + x)[4] == p[4] && (p + x)[5] == p[5])
           && (|q| > 2 ==> (q + y)[4] == q[4] && (q + y)[5] == q[5]);
    assert x == (p + x)[|p|..] && y == (q + y)[|q|..];
  }

  lemma Regroup(a: Text, b: Text, c: Text)
    ensures (a + b) + c == a + (b + c) && (a != [] ==> (a + b)[0] == a[0])
  {}

  lemma EscapeNeverQuotes(c: CodePoint)
    ensures Escape(c)[0] != QUOTE
  {}

  /** The closing quote is the only unescaped one. */
  lemma EscapedHead(s: Text, x: Text)
    ensures var p := EscapeAll(s) + ([QUOTE] + x);
            && p != [] && (p[0] == QUOTE <==> s == [])
            && (s == [] ==> p[1..] == x)
            && (s != [] ==> p == Escape(s[0]) + (EscapeAll(s[1..]) + ([QUOTE] + x)))
  {
    var tail := [QUOTE] + x;
    if s == [] {
      assert EscapeAll(s) + tail == tail;
    } else {
      hide Escape;
      EscapeNeverQuotes(s[0]);
      Regroup(Escape(s[0]), EscapeAll(s[1..]), tail);
      Regroup(Escape(s[0]), EscapeAll(s[1..]) + tail, []);
    }
  }

  lemma {:induction false} StringPrefix(s: Text, t: Text, x: Text, y: Text)
    requires EscapeAll(s) + ([QUOTE] + x) == EscapeAll(t) + ([QUOTE] + y)
    ensures s == t && x == y
  {
    hide Escape, EscapeAll;
    EscapedHead(s, x);
    EscapedHead(t, y);
    if s != [] {
      EscapePrefix(s[0], t[0], EscapeAll(s[1..]) + ([QUOTE] + x), EscapeAll(t[1..]) + ([QUOTE] + y));
      StringPrefix(s[1..], t[1..], x, y);
      assert s == [s[0]] + s[1..] && t == [t[0]] + t[1..];
    }
  }

  /** What follows an opening mark is fixed by the text. */
  lemma OpenedPrefix(open: Text, a: Text, b: Text, close: Text, x: Text, y: Text)
    requires |open| == 1 && (open + (a + close)) + x == (open + (b + close)) + y
    ensures a + (close + x) == b + (close + y)
  {
    Regroup(open, a + close, x);
    Regroup(a, close, x);
    Regroup(open, b + close, y);
    Regroup(b, close, y);
    assert (open + (a + (close + x)))[1..] == a + (close + x);
    assert (open + (b + (close + y)))[1..] == b + (close + y);
  }

  lemma PrintedStringPrefix(s: Text, t: Text, x: Text, y: Text)
    requires PrintString(s) + x == PrintString(t) + y
    ensures s == t && x == y
  {
    hide EscapeAll;
    OpenedPrefix([QUOTE], EscapeAll(s), EscapeAll(t), [QUOTE], x, y);
    StringPrefix(s, t, x, y);
  }

  /** The first character of a rendered value tells what kind of value it is. */
  function Kind(c: CodePoint): nat {
    if c == 110 then 0 else if c == 116 || c == 102 then 1 else if c == MINUS || 48 <= c <= 57 then 2
    else if c == QUOTE then 3 else if c == 91 then 4 else if c == 123 then 5 else 6
  }

  function KindOf(v: Json): nat {
    match v
    case Null => 0
    case Bool(_) => 1
    case Number(_) => 2
    case Float(_) => 2
    case String(_) => 3
    case Array(_) => 4
    case Object(_) => 5
  }

  lemma RenderHead(v: Json)
    ensures Render(v) != [] && Kind(Render(v)[0]) == KindOf(v)
  {
    hide Digits, ValueOf;
    if v.Number? {
      DigitsArePlain(Abs(v.number));
    } else if v.Float? {
      UnsignedStartsWithDigit(v.decimal);
      hide Unsigned;
    }
  }

  /** What follows a literal name is fixed by the text. */
  lemma LiteralPrefix(v: Json, w: Json, x: Text, y: Text)
    requires v.Null? || v.Bool?
    requires KindOf(v) == KindOf(w) && Render(v) + x == Render(w) + y
    ensures v == w && x == y
  {
    var p, q := Render(v) + x, Render(w) + y;
    assert p[0] == Render(v)[0] && q[0] == Render(w)[0];
    assert x == p[|Render(v)|..] && y == q[|Render(w)|..];
  }

  lemma SameKind(v: Json, w: Json, x: Text, y: Text)
    requires Render(v) + x == Render(w) + y
    ensures KindOf(v) == KindOf(w)
  {
    hide Render, KindOf, Kind;
    RenderHead(v);
    RenderHead(w);
    assert (Render(v) + x)[0] == Render(v)[0] && (Render(w) + y)[0] == Render(w)[0];
  }

  /** Whatever delimits them, equal texts start with equal values: rendering is a prefix code. */
  lemma {:induction false} RenderPrefix(v: Json, w: Json, x: Text, y: Text)
    requires Delimits(x) && Delimits(y) && Render(v) + x == Render(w) + y
    ensures v == w && x == y
    decreases v
  {
    hide PrintInt, Layout, PrintString, RenderItems, RenderMembers, Delimits;
    SameKind(v, w, x, y);
    match v
    case Null =>
      LiteralPrefix(v, w, x, y);
    case Bool(flag) =>
      LiteralPrefix(v, w, x, y);
    case Number(_) =>
      NumberPrefix(v, w, x, y);
    case Float(_) =>
      NumberPrefix(v, w, x, y);
    case String(s) =>
      PrintedStringPrefix(s, w.text, x, y);
    case Array(items) =>
      OpenedPrefix([91], RenderItems(items), RenderItems(w.items), [93], x, y);
      ItemsPrefix(items, w.items, x, y);
    case Object(members) =>
      OpenedPrefix([123], RenderMembers(members), RenderMembers(w.members), [125], x, y);
      MembersPrefix(members, w.members, x, y);
  }

  function ItemsTail(rest: Items, x: Text): Text {
    (if rest.NoItems? then [] else [COMMA] + RenderItems(rest)) + ([93] + x)
  }

  /** The closing bracket tells the empty list, and the list's end, from everything else. */
  lemma ItemsHead(a: Items, x: Text)
    ensures var p := RenderItems(a) + ([93] + x);
            && p != [] && (p[0] == 93 <==> a.NoItems?)
            && (a.NoItems? ==> p[1..] == x)
            && (a.Item? ==> p == Render(a.head) + ItemsTail(a.rest, x))
  {
    hide Render;
    if a.Item? {
      var more := if a.rest.NoItems? then [] else [COMMA] + RenderItems(a.rest);
      RenderHead(a.head);
      assert RenderItems(a) == Render(a.head) + more && ItemsTail(a.rest, x) == more + ([93] + x);
      hide RenderItems, ItemsTail;
      Regroup(Render(a.head), more, [93] + x);
      Regroup(Render(a.head), more + ([93] + x), []);
    } else {
      assert RenderItems(a) + ([93] + x) == [93] + x;
    }
  }

  lemma ItemsTailHead(rest: Items, x: Text)
    ensures var p := ItemsTail(rest, x);
            && Delimits(p) && p != [] && (p[0] == 93 <==> rest.NoItems?)
            && p[1..] == if rest.NoItems? then x else RenderItems(rest) + ([93] + x)
  {
    hide RenderItems;
    var tail := [93] + x;
    if rest.NoItems? {
      assert [] + tail == tail && tail[1..] == x;
    } else {
      Regroup([COMMA], RenderItems(rest), tail);
      assert ([COMMA] + (RenderItems(rest) + tail))[1..] == RenderItems(rest) + tail;
    }
  }

  lemma {:induction false} ItemsPrefix(a: Items, b: Items, x: Text, y: Text)
    requires RenderItems(a) + ([93] + x) == RenderItems(b) + ([93] + y)
    ensures a == b && x == y
    decreases a
  {
    hide Render, RenderItems, ItemsTail;
    ItemsHead(a, x);
    ItemsHead(b, y);
    if a.Item? {
      ItemsTailHead(a.rest, x);
      ItemsTailHead(b.rest, y);
      RenderPrefix(a.head, b.head, ItemsTail(a.rest, x), ItemsTail(b.rest, y));
      if a.rest.Item? {
        ItemsPrefix(a.rest, b.rest, x, y);
      }
    }
  }

  function MembersTail(rest: Members, x: Text): Text {
    (if rest.NoMembers? then [] else [COMMA] + RenderMembers(rest)) + ([125] + x)
  }

  /** A member, its key and value apart, with what closes the object moved inside. */
  lemma RegroupMember(key: Text, value: Text, more: Text, tail: Text)
    ensures (key + ([COLON] + (value + more))) + tail == key + ([COLON] + (value + (more + tail)))
    ensures key != [] ==> (key + ([COLON] + (value + (more + tail))))[0] == key[0]
  {
    Regroup(key, [COLON] + (value + more), tail);
    Regroup([COLON], value + more, tail);
    Regroup(value, more, tail);
  }

  lemma MembersHead(a: Members, x: Text)
    ensures var p := RenderMembers(a) + ([125] + x);
            && p != [] && (p[0] == 125 <==> a.NoMembers?)
            && (a.NoMembers? ==> p[1..] == x)
            && (a.Member? ==> p == PrintString(a.key) + ([COLON] + (Render(a.value) + MembersTail(a.rest, x))))
  {
    hide Render, PrintString;
    if a.Member? {
      var more := if a.rest.NoMembers? then [] else [COMMA] + RenderMembers(a.rest);
      StringHead(a.key);
      RegroupMember(PrintString(a.key), Render(a.value), more, [125] + x);
    } else {
      assert RenderMembers(a) + ([125] + x) == [125] + x;
    }
  }

  lemma StringHead(s: Text)
    ensures PrintString(s) != [] && PrintString(s)[0] == QUOTE
  {}

  lemma MembersTailHead(rest: Members, x: Text)
    ensures var p := MembersTail(rest, x);
            && Delimits(p) && p != [] && (p[0] == 125 <==> rest.NoMembers?)
            && p[1..] == if rest.NoMembers? then x else RenderMembers(rest) + ([125] + x)
  {
    hide RenderMembers;
    var tail := [125] + x;
    if rest.NoMembers? {
      assert [] + tail == tail && tail[1..] == x;
    } else {
      Regroup([COMMA], RenderMembers(rest), tail);
      assert ([COMMA] + (RenderMembers(rest) + tail))[1..] == RenderMembers(rest) + tail;
    }
  }

  lemma {:induction false} MembersPrefix(a: Members, b: Members, x: Text, y: Text)
    requires RenderMembers(a) + ([125] + x) == RenderMembers(b) + ([125] + y)
    ensures a == b && x == y
    decreases a
  {
    hide Render, RenderMembers, MembersTail, PrintString;
    MembersHead(a, x);
    MembersHead(b, y);
    if a.Member? {
      MembersTailHead(a.rest, x);
      MembersTailHead(b.rest, y);
      var p, q := Render(a.value) + MembersTail(a.rest, x), Render(b.value) + MembersTail(b.rest, y);
      PrintedStringPrefix(a.key, b.key, [COLON] + p, [COLON] + q);
      assert ([COLON] + p)[1..] == p && ([COLON] + q)[1..] == q;
      RenderPrefix(a.value, b.value, MembersTail(a.rest, x), MembersTail(b.rest, y));
      if a.rest.Member? {
        MembersPrefix(a.rest, b.rest, x, y);
      }
    }
  }

  lemma RenderIsInjective(v: Json, w: Json)
    requires Render(v) == Render(w)
    ensures v == w
  {
    assert Render(v) + [] == Render(v) && Render(w) + [] == Render(w);
    RenderPrefix(v, w, [], []);
  }

  // ----- Equality up to key order -----

  function Lookup(members: Members, key: Text): Option<Json> {
    match members
    case NoMembers => None
    case Member(k, value, rest) => if k == key then Some(value) else Lookup(rest, key)
  }

  /** The same value, whatever order the members of each object are given in. */
  predicate Same(v: Json, w: Json)
    decreases v
  {
    match (v, w)
    case (Array(a), Array(b)) => SameItems(a, b)
    case (Object(a), Object(b)) => Keys(a) == Keys(b) && SameUnder(a, b)
    case _ => v == w
  }

  predicate SameItems(a: Items, b: Items)
    decreases a
  {
    match (a, b)
    case (Item(x, p), Item(y, q)) => Same(x, y) && SameItems(p, q)
    case _ => a == b
  }

  /** Every member of `a` has the same value in `b`. */
  predicate SameUnder(a: Members, b: Members)
    decreases a
  {
    match a
    case NoMembers => true
    case Member(key, value, rest) => Lookup(b, key).Some? && Same(value, Lookup(b, key).value) && SameUnder(rest, b)
  }

  /** Keys strictly ascend. */
  predicate Ascends(members: Members) {
    members.Member? && members.rest.Member? ==> LexLess(members.key, members.rest.key) && Ascends(members.rest)
  }

  lemma {:induction false} LookupIffKey(members: Members, key: Text)
    ensures Lookup(members, key).Some? <==> key in Keys(members)
  {
    if members.Member? {
      LookupIffKey(members.rest, key);
    }
  }

  lemma {:induction false} InsertFacts(key: Text, value: Json, members: Members, k: Text)
    requires Ascends(members) && key !in Keys(members)
    ensures var r := Insert(ByCodePoints, key, value, members);
            && Ascends(r) && Keys(r) == Keys(members) + {key} && r.Member?
            && (members.Member? ==> r.key == key || r.key == members.key)
            && Lookup(r, k) == if k == key then Some(value) else Lookup(members, k)
  {
    if members.Member? {
      LexIsTotal(members.key, key);
      if LexLess(members.key, key) {
        InsertFacts(key, value, members.rest, k);
      }
    }
    LookupIffKey(members, key);
  }

  function SortedOption(v: Option<Json>): Option<Json> {
    if v.Some? then Some(Sorted(ByCodePoints, v.value)) else None
  }

  /** Sorting keeps what every key maps to, up to sorting inside it. */
  lemma {:induction false} SortedFacts(members: Members, k: Text)
    requires UniqueMembers(members)
    ensures var r := SortedMembers(ByCodePoints, members);
            && Ascends(r) && Keys(r) == Keys(members) && Lookup(r, k) == SortedOption(Lookup(members, k))
  {
    if members.Member? {
      SortedFacts(members.rest, k);
      InsertFacts(members.key, Sorted(ByCodePoints, members.value), SortedMembers(ByCodePoints, members.rest), k);
    }
  }

  lemma {:induction false} FirstIsLeast(members: Members, k: Text)
    requires Ascends(members) && k in Keys(members)
    ensures members.Member? && (k == members.key || LexLess(members.key, k))
  {
    if k in Keys(members.rest) {
      FirstIsLeast(members.rest, k);
      if k != members.rest.key {
        LexIsTransitive(members.key, members.rest.key, k);
      }
    }
  }

  lemma RestHasLaterKeys(m: Members)
    requires Ascends(m) && m.Member?
    ensures m.key !in Keys(m.rest)
  {
    if m.key in Keys(m.rest) {
      FirstIsLeast(m.rest, m.key);
      LexIsTotal(m.key, m.rest.key);
    }
  }

  lemma NoKeysNoMembers(m: Members)
    ensures Keys(m) == {} <==> m.NoMembers?
  {
    assert m.Member? ==> m.key in Keys(m);
  }

  /** Ascending member lists are determined by what each key maps to. */
  lemma {:induction false} AscendingIsExtensional(a: Members, b: Members)
    requires Ascends(a) && Ascends(b) && Keys(a) == Keys(b)
    requires forall k :: Lookup(a, k) == Lookup(b, k)
    ensures a == b
  {
    if a.Member? {
      assert a.key in Keys(b);
      FirstIsLeast(b, a.key);
      FirstIsLeast(a, b.key);
      LexIsTotal(a.key, b.key);
      assert Lookup(a, a.key) == Lookup(b, a.key);
      RestHasLaterKeys(a);
      RestHasLaterKeys(b);
      assert Keys(a.rest) == Keys(a) - {a.key} && Keys(b.rest) == Keys(b) - {a.key};
      forall k ensures Lookup(a.rest, k) == Lookup(b.rest, k) {
        assert Lookup(a, k) == Lookup(b, k);
        LookupIffKey(a.rest, k);
        LookupIffKey(b.rest, k);
      }
      AscendingIsExtensional(a.rest, b.rest);
    } else {
      NoKeysNoMembers(b);
    }
  }

  /** Sorting yields one value exactly for values that are the same up to key order. */
  lemma {:induction false} SortedIffSame(v: Json, w: Json)
    requires HasUniqueKeys(v) && HasUniqueKeys(w)
    ensures Sorted(ByCodePoints, v) == Sorted(ByCodePoints, w) <==> Same(v, w)
    decreases v
  {
    match (v, w)
    case (Array(a), Array(b)) => SortedIffSameItems(a, b);
    case (Object(a), Object(b)) => SortedIffSameMembers(a, b);
    case _ =>
  }

  lemma {:induction false} SortedIffSameItems(a: Items, b: Items)
    requires UniqueItems(a) && UniqueItems(b)
    ensures SortedItems(ByCodePoints, a) == SortedItems(ByCodePoints, b) <==> SameItems(a, b)
    decreases a
  {
    if a.Item? && b.Item? {
      SortedIffSame(a.head, b.head);
      SortedIffSameItems(a.rest, b.rest);
    }
  }

  lemma {:induction false} SortedIffSameMembers(a: Members, b: Members)
    requires UniqueMembers(a) && UniqueMembers(b)
    ensures SortedMembers(ByCodePoints, a) == SortedMembers(ByCodePoints, b) <==> Keys(a) == Keys(b) && SameUnder(a, b)
    decreases a, 1
  {
    hide Same, SameUnder;
    var x, y := SortedMembers(ByCodePoints, a), SortedMembers(ByCodePoints, b);
    SortedFacts(a, []);
    SortedFacts(b, []);
    UnderIffLookups(a, b);
    if Keys(a) == Keys(b) {
      if SameUnder(a, b) {
        forall k ensures Lookup(x, k) == Lookup(y, k) {
          SortedFacts(a, k);
          SortedFacts(b, k);
          LookupIffKey(a, k);
          LookupIffKey(b, k);
          assert k in Keys(a) ==> AgreesAt(a, b, k);
        }
        AscendingIsExtensional(x, y);
      }
      if x == y {
        forall k | k in Keys(a) ensures AgreesAt(a, b, k) {
          SortedFacts(a, k);
          SortedFacts(b, k);
          LookupIffKey(b, k);
        }
      }
    }
  }

  predicate AgreesAt(a: Members, b: Members, k: Text) {
    Lookup(b, k).Some? && SortedOption(Lookup(a, k)) == SortedOption(Lookup(b, k))
  }

  lemma LookupIsUnique(members: Members, k: Text)
    requires UniqueMembers(members)
    ensures Lookup(members, k).Some? ==> HasUniqueKeys(Lookup(members, k).value)
  {}

  lemma {:induction false} UnderIffLookups(a: Members, b: Members)
    requires UniqueMembers(a) && UniqueMembers(b)
    ensures SameUnder(a, b) <==> forall k :: k in Keys(a) ==> AgreesAt(a, b, k)
    decreases a, 0
  {
    hide Same, Sorted;
    if a.Member? {
      UnderIffLookups(a.rest, b);
      LookupIsUnique(b, a.key);
      if Lookup(b, a.key).Some? {
        SortedIffSame(a.value, Lookup(b, a.key).value);
      }
      forall k | k in Keys(a.rest) ensures AgreesAt(a, b, k) == AgreesAt(a.rest, b, k) {}
      assert AgreesAt(a, b, a.key) <==> Lookup(b, a.key).Some? && Same(a.value, Lookup(b, a.key).value);
      assert a.key in Keys(a) && forall k :: k in Keys(a) <==> k == a.key || k in Keys(a.rest);
      hide AgreesAt;
    }
  }

  // ----- The printed order -----

  /** In every object inside the value the keys strictly ascend by code point. */
  predicate KeysAscend(v: Json) {
    match v
    case Array(items) => ItemKeysAscend(items)
    case Object(members) => Ascends(members) && MemberKeysAscend(members)
    case _ => true
  }

  predicate ItemKeysAscend(items: Items) {
    match items case NoItems => true case Item(head, rest) => KeysAscend(head) && ItemKeysAscend(rest)
  }

  predicate MemberKeysAscend(members: Members) {
    match members case NoMembers => true case Member(_, value, rest) => KeysAscend(value) && MemberKeysAscend(rest)
  }

  lemma {:induction false} InsertKeepsValues(key: Text, value: Json, members: Members)
    requires KeysAscend(value) && MemberKeysAscend(members)
    ensures MemberKeysAscend(Insert(ByCodePoints, key, value, members))
  {
    hide KeysAscend, KeyLess;
    if members.Member? && KeyLess(ByCodePoints, members.key, key) {
      InsertKeepsValues(key, value, members.rest);
    }
  }

  lemma {:induction false} SortedAscends(v: Json)
    requires HasUniqueKeys(v)
    ensures KeysAscend(Sorted(ByCodePoints, v))
  {
    match v
    case Array(items) => SortedAscendsItems(items);
    case Object(members) =>
      SortedFacts(members, []);
      SortedAscendsMembers(members);
    case _ =>
  }

  lemma {:induction false} SortedAscendsItems(items: Items)
    requires UniqueItems(items)
    ensures ItemKeysAscend(SortedItems(ByCodePoints, items))
  {
    if items.Item? {
      SortedAscends(items.head);
      SortedAscendsItems(items.rest);
    }
  }

  lemma {:induction false} SortedAscendsMembers(members: Members)
    requires UniqueMembers(members)
    ensures MemberKeysAscend(SortedMembers(ByCodePoints, members))
  {
    if members.Member? {
      SortedAscends(members.value);
      SortedAscendsMembers(members.rest);
      InsertKeepsValues(members.key, Sorted(ByCodePoints, members.value), SortedMembers(ByCodePoints, members.rest));
    }
  }

  /** A value in key order is sorted already, and repeats no key. */
  lemma {:induction false} AscendingIsSorted(v: Json)
    requires KeysAscend(v)
    ensures Sorted(ByCodePoints, v) == v && HasUniqueKeys(v)
  {
    match v
    case Array(items) => AscendingIsSortedItems(items);
    case Object(members) => AscendingIsSortedMembers(members);
    case _ =>
  }

  lemma {:induction false} AscendingIsSortedItems(items: Items)
    requires ItemKeysAscend(items)
    ensures SortedItems(ByCodePoints, items) == items && UniqueItems(items)
  {
    if items.Item? {
      AscendingIsSorted(items.head);
      AscendingIsSortedItems(items.rest);
    }
  }

  lemma {:induction false} AscendingIsSortedMembers(members: Members)
    requires Ascends(members) && MemberKeysAscend(members)
    ensures SortedMembers(ByCodePoints, members) == members && UniqueMembers(members)
  {
    if members.Member? {
      AscendingIsSorted(members.value);
      AscendingIsSortedMembers(members.rest);
      RestHasLaterKeys(members);
      if members.rest.Member? {
        LexIsTotal(members.key, members.rest.key);
      }
    }
  }

  /** What is printed is the same value up to key order, with its keys in ascending order everywhere. */
  lemma PrintedOrderIsAscending(o: KeyOrder, v: Json)
    requires IsScalarJson(v) && HasUniqueKeys(v)
    ensures Print(o, v) == Render(Sorted(ByCodePoints, v))
    ensures KeysAscend(Sorted(ByCodePoints, v)) && Same(v, Sorted(ByCodePoints, v))
  {
    hide Render, Sorted, Same;
    SortsAgree(v);
    SortedAscends(v);
    AscendingIsSorted(Sorted(ByCodePoints, v));
    SortedIffSame(v, Sorted(ByCodePoints, v));
    assert Sorted(o, v) == Sorted(ByCodePoints, v);
  }

  /** Canonical text determines its value up to key order, and key order never shows in it. */
  lemma TextDeterminesValue(o: KeyOrder, v: Json, w: Json)
    requires IsScalarJson(v) && IsScalarJson(w) && HasUniqueKeys(v) && HasUniqueKeys(w)
    ensures Print(o, v) == Print(o, w) <==> Same(v, w)
  {
    hide Render, Sorted, Same;
    SortsAgree(v);
    SortsAgree(w);
    SortedIffSame(v, w);
    assert Sorted(o, v) == Sorted(ByCodePoints, v) && Sorted(o, w) == Sorted(ByCodePoints, w);
    if Print(o, v) == Print(o, w) {
      RenderIsInjective(Sorted(o, v), Sorted(o, w));
    }
  }
}
