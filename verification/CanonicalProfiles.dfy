/**
 * The bounded canonical profiles: what the Python normaliser and the native renderer each accept, how they
 * count bytes and nodes on the way, and exactly where they differ.
 */
module CanonicalProfiles {
  import opened Common
  import opened Utf8
  import opened DecimalIntegers
  import opened CanonicalFloats
  import opened CanonicalJson

  const MAX_STRING_BYTES := 65_536
  const MAX_SERIALIZED_STRING := 262_144

  datatype Profile = Profile(maxBytes: nat, maxDepth: nat, maxNodes: nat, maxItems: nat)

  const VALUE_PROFILE := Profile(262_144, 32, 4_096, 1_024)
  const RUNTIME_PROFILE := Profile(2_097_152, 40, 32_768, 4_096)

  // ----- The byte meter -----

  function EscapedBytes(c: CodePoint): nat {
    if c in {QUOTE, BACKSLASH, 8, 9, 10, 12, 13} then 2 else if c <= 0x1F then 6 else |EncodeOne(c)|
  }

  function EscapedSize(s: Text): nat {
    if s == [] then 0 else EscapedSize(s[..|s| - 1]) + EscapedBytes(s[|s| - 1])
  }

  function SerializedString(s: Text): nat {
    2 + EscapedSize(s)
  }

  function CountItems(items: Items): nat {
    match items case NoItems => 0 case Item(_, rest) => 1 + CountItems(rest)
  }

  function CountMembers(members: Members): nat {
    match members case NoMembers => 0 case Member(_, _, rest) => 1 + CountMembers(rest)
  }

  function Brackets(count: nat): nat {
    2 + if count > 0 then count - 1 else 0
  }

  /** What the Python normaliser charges for a value, in the order it meets it. */
  function Bytes(v: Json): nat {
    match v
    case Null => 4
    case Bool(flag) => if flag then 4 else 5
    case Number(i) => |PrintInt(i)|
    case Float(d) => |Layout(d)|
    case String(s) => SerializedString(s)
    case Array(items) => Brackets(CountItems(items)) + BytesOfItems(items)
    case Object(members) => Brackets(CountMembers(members)) + BytesOfMembers(members)
  }

  function BytesOfItems(items: Items): nat {
    match items case NoItems => 0 case Item(head, rest) => Bytes(head) + BytesOfItems(rest)
  }

  function BytesOfMembers(members: Members): nat {
    match members
    case NoMembers => 0
    case Member(key, value, rest) => SerializedString(key) + 1 + Bytes(value) + BytesOfMembers(rest)
  }

  function Nodes(v: Json): nat
    ensures Nodes(v) >= 1
  {
    match v
    case Array(items) => 1 + NodesOfItems(items)
    case Object(members) => 1 + NodesOfMembers(members)
    case _ => 1
  }

  function NodesOfItems(items: Items): nat {
    match items case NoItems => 0 case Item(head, rest) => Nodes(head) + NodesOfItems(rest)
  }

  function NodesOfMembers(members: Members): nat {
    match members case NoMembers => 0 case Member(_, value, rest) => Nodes(value) + NodesOfMembers(rest)
  }

  // ----- The meter is exact -----

  lemma Plain7Bit(s: Text)
    requires forall i :: 0 <= i < |s| ==> s[i] <= 0x7F
    ensures |Encode(s)| == |s|
  {}

  lemma EscapeLength(c: CodePoint)
    ensures |Encode(Escape(c))| == EscapedBytes(c)
  {
    if |Escape(c)| > 1 {
      Plain7Bit(Escape(c));
    } else {
      assert Escape(c) == [c];
      assert Encode([c]) == EncodeOne(c) + Encode([]);
    }
  }

  lemma {:induction false} EscapeAllSnoc(s: Text, c: CodePoint)
    ensures EscapeAll(s + [c]) == EscapeAll(s) + Escape(c)
  {
    if s == [] {
      assert s + [c] == [c];
      assert EscapeAll([c]) == Escape(c) + EscapeAll([]);
    } else {
      assert (s + [c])[1..] == s[1..] + [c];
      EscapeAllSnoc(s[1..], c);
    }
  }

  lemma {:induction false} EscapedSizeIsExact(s: Text)
    ensures |Encode(EscapeAll(s))| == EscapedSize(s)
  {
    if s != [] {
      var k := |s| - 1;
      EscapedSizeIsExact(s[..k]);
      assert s == s[..k] + [s[k]];
      EscapeAllSnoc(s[..k], s[k]);
      EncodeConcat(EscapeAll(s[..k]), Escape(s[k]));
      EscapeLength(s[k]);
    }
  }

  /** Wrapping in two one-byte characters adds two bytes. */
  lemma WrapLength(open: CodePoint, inner: Text, close: CodePoint)
    requires open <= 0x7F && close <= 0x7F
    ensures |Encode([open] + (inner + [close]))| == 2 + |Encode(inner)|
  {
    EncodeConcat([open], inner + [close]);
    EncodeConcat(inner, [close]);
    Plain7Bit([open]);
    Plain7Bit([close]);
  }

  lemma StringLength(s: Text)
    ensures |Encode(PrintString(s))| == SerializedString(s)
  {
    EscapedSizeIsExact(s);
    WrapLength(QUOTE, EscapeAll(s), QUOTE);
  }

  lemma IntLength(i: int)
    ensures |Encode(PrintInt(i))| == |PrintInt(i)|
  {
    DigitsArePlain(Abs(i));
    Plain7Bit(PrintInt(i));
  }

  lemma FloatLength(d: Decimal)
    ensures |Encode(Layout(d))| == |Layout(d)|
  {
    FloatsAreNumberText(d);
    hide Layout;
    Plain7Bit(Layout(d));
  }

  lemma {:induction false} RenderLength(v: Json)
    ensures |Encode(Render(v))| == Bytes(v)
  {
    match v
    case Null => Plain7Bit(Render(v));
    case Bool(_) => Plain7Bit(Render(v));
    case Number(i) => IntLength(i);
    case Float(d) => FloatLength(d);
    case String(s) => StringLength(s);
    case Array(items) =>
      RenderItemsLength(items);
      WrapLength(91, RenderItems(items), 93);
    case Object(members) =>
      RenderMembersLength(members);
      WrapLength(123, RenderMembers(members), 125);
  }

  lemma CommaLength(t: Text)
    ensures |Encode([COMMA] + t)| == 1 + |Encode(t)|
    ensures |Encode([COLON] + t)| == 1 + |Encode(t)|
  {
    EncodeConcat([COMMA], t);
    EncodeConcat([COLON], t);
    Plain7Bit([COMMA]);
    Plain7Bit([COLON]);
  }

  lemma {:induction false} RenderItemsLength(items: Items)
    ensures |Encode(RenderItems(items))| + 2 == Brackets(CountItems(items)) + BytesOfItems(items)
  {
    if items.Item? {
      RenderLength(items.head);
      RenderItemsLength(items.rest);
      hide Encode, Render, Bytes;
      CommaLength(RenderItems(items.rest));
      EncodeConcat(Render(items.head), if items.rest.NoItems? then [] else [COMMA] + RenderItems(items.rest));
      EncodeNothing();
    } else {
      EncodeNothing();
    }
  }

  lemma {:induction false} RenderMembersLength(members: Members)
    ensures |Encode(RenderMembers(members))| + 2 == Brackets(CountMembers(members)) + BytesOfMembers(members)
  {
    if members.Member? {
      RenderLength(members.value);
      RenderMembersLength(members.rest);
      StringLength(members.key);
      hide Encode, Render, Bytes, PrintString, SerializedString;
      var more := if members.rest.NoMembers? then [] else [COMMA] + RenderMembers(members.rest);
      CommaLength(RenderMembers(members.rest));
      EncodeNothing();
      EncodeConcat(Render(members.value), more);
      CommaLength(Render(members.value) + more);
      EncodeConcat(PrintString(members.key), [COLON] + (Render(members.value) + more));
    } else {
      EncodeNothing();
    }
  }

  lemma {:induction false} InsertKeepsTotals(o: KeyOrder, key: Text, value: Json, members: Members)
    ensures var r := Insert(o, key, value, members);
            && CountMembers(r) == CountMembers(members) + 1
            && BytesOfMembers(r) == BytesOfMembers(members) + SerializedString(key) + 1 + Bytes(value)
            && NodesOfMembers(r) == NodesOfMembers(members) + Nodes(value)
  {
    if members.Member? && KeyLess(o, members.key, key) {
      InsertKeepsTotals(o, key, value, members.rest);
    }
  }

  lemma {:induction false} SortKeepsTotals(o: KeyOrder, v: Json)
    ensures Bytes(Sorted(o, v)) == Bytes(v) && Nodes(Sorted(o, v)) == Nodes(v)
  {
    match v
    case Array(items) => SortKeepsItemTotals(o, items);
    case Object(members) => SortKeepsMemberTotals(o, members);
    case _ =>
  }

  lemma {:induction false} SortKeepsItemTotals(o: KeyOrder, items: Items)
    ensures var r := SortedItems(o, items);
            CountItems(r) == CountItems(items) && BytesOfItems(r) == BytesOfItems(items)
            && NodesOfItems(r) == NodesOfItems(items)
  {
    if items.Item? {
      SortKeepsTotals(o, items.head);
      SortKeepsItemTotals(o, items.rest);
    }
  }

  lemma {:induction false} SortKeepsMemberTotals(o: KeyOrder, members: Members)
    ensures var r := SortedMembers(o, members);
            && CountMembers(r) == CountMembers(members) && BytesOfMembers(r) == BytesOfMembers(members)
            && NodesOfMembers(r) == NodesOfMembers(members)
  {
    if members.Member? {
      SortKeepsTotals(o, members.value);
      SortKeepsMemberTotals(o, members.rest);
      InsertKeepsTotals(o, members.key, Sorted(o, members.value), SortedMembers(o, members.rest));
    }
  }

  /** Metered member by member in the caller's order, the bytes are those of the sorted, escaped, printed text. */
  lemma MeterIsPrintedLength(o: KeyOrder, v: Json)
    ensures Bytes(v) == |Encode(Print(o, v))|
  {
    SortKeepsTotals(o, v);
    RenderLength(Sorted(o, v));
  }

  // ----- Acceptance -----

  /** One string or key: scalar, within the raw cap, and within the serialized cap where there is one. */
  predicate TextFits(s: Text, cap: Option<nat>) {
    IsScalarText(s) && |Encode(s)| <= MAX_STRING_BYTES && (cap.Some? ==> SerializedString(s) <= cap.value)
  }

  /** Depth, collection sizes, integers and strings are within bounds everywhere in the value. */
  predicate Fits(v: Json, depth: nat, p: Profile, cap: Option<nat>) {
    depth <= p.maxDepth &&
    match v
    case Number(i) => Abs(i) <= MAX_INTEGER
    case String(s) => TextFits(s, cap)
    case Array(items) => CountItems(items) <= p.maxItems && ItemsFit(items, depth + 1, p, cap)
    case Object(members) => CountMembers(members) <= p.maxItems && MembersFit(members, depth + 1, p, cap)
    case _ => true
  }

  predicate ItemsFit(items: Items, depth: nat, p: Profile, cap: Option<nat>) {
    match items case NoItems => true case Item(head, rest) => Fits(head, depth, p, cap) && ItemsFit(rest, depth, p, cap)
  }

  predicate MembersFit(members: Members, depth: nat, p: Profile, cap: Option<nat>) {
    match members
    case NoMembers => true
    case Member(key, value, rest) => TextFits(key, cap) && Fits(value, depth, p, cap) && MembersFit(rest, depth, p, cap)
  }

  predicate Accepts(v: Json, p: Profile, cap: Option<nat>) {
    Fits(v, 0, p, cap) && Nodes(v) <= p.maxNodes && Bytes(v) <= p.maxBytes
  }

  predicate PythonAccepts(v: Json, p: Profile) {
    Accepts(v, p, Some(MAX_SERIALIZED_STRING))
  }

  predicate NativeAccepts(v: Json, p: Profile) {
    Accepts(v, p, None)
  }

  // ----- Acceptance is seven bounds -----

  /** How deep the value nests: the number of collections around its innermost value. */
  function Depth(v: Json): nat {
    match v
    case Array(items) => DepthOfItems(items)
    case Object(members) => DepthOfMembers(members)
    case _ => 0
  }

  function DepthOfItems(items: Items): nat {
    match items case NoItems => 0 case Item(head, rest) => Larger(1 + Depth(head), DepthOfItems(rest))
  }

  function DepthOfMembers(members: Members): nat {
    match members case NoMembers => 0 case Member(_, value, rest) => Larger(1 + Depth(value), DepthOfMembers(rest))
  }

  function Larger(a: nat, b: nat): nat {
    if a < b then b else a
  }

  /** The value and all values inside it. */
  function Parts(v: Json): seq<Json> {
    match v
    case Array(items) => [v] + PartsOfItems(items)
    case Object(members) => [v] + PartsOfMembers(members)
    case _ => [v]
  }

  function PartsOfItems(items: Items): seq<Json> {
    match items case NoItems => [] case Item(head, rest) => Parts(head) + PartsOfItems(rest)
  }

  function PartsOfMembers(members: Members): seq<Json> {
    match members case NoMembers => [] case Member(_, value, rest) => Parts(value) + PartsOfMembers(rest)
  }

  /** All keys of the objects inside the value. */
  function KeysInside(v: Json): seq<Text> {
    match v
    case Array(items) => KeysOfItems(items)
    case Object(members) => KeysOfMembers(members)
    case _ => []
  }

  function KeysOfItems(items: Items): seq<Text> {
    match items case NoItems => [] case Item(head, rest) => KeysInside(head) + KeysOfItems(rest)
  }

  function KeysOfMembers(members: Members): seq<Text> {
    match members case NoMembers => [] case Member(key, value, rest) => [key] + KeysInside(value) + KeysOfMembers(rest)
  }

  /** A string or key within bounds: scalar text, its UTF-8 bytes, and its bytes once printed where they are capped. */
  predicate TextWithin(s: Text, cap: Option<nat>) {
    IsScalarText(s) && |Encode(s)| <= 65_536 && (cap.Some? ==> |Encode(PrintString(s))| <= cap.value)
  }

  lemma TextFitsWithin(s: Text, cap: Option<nat>)
    ensures TextFits(s, cap) <==> TextWithin(s, cap)
  {
    StringLength(s);
    hide SerializedString, PrintString, Encode;
  }

  /** One value by itself: its size, its integer, its string. */
  predicate PartFits(v: Json, p: Profile, cap: Option<nat>) {
    match v
    case Number(i) => i <= MAX_INTEGER && -i <= MAX_INTEGER
    case String(s) => TextWithin(s, cap)
    case Array(items) => CountItems(items) <= p.maxItems
    case Object(members) => CountMembers(members) <= p.maxItems
    case _ => true
  }

  predicate AllPartsFit(parts: seq<Json>, p: Profile, cap: Option<nat>) {
    forall i :: 0 <= i < |parts| ==> PartFits(parts[i], p, cap)
  }

  predicate AllTextsFit(texts: seq<Text>, cap: Option<nat>) {
    forall i :: 0 <= i < |texts| ==> TextWithin(texts[i], cap)
  }

  lemma PartsJoin(a: seq<Json>, b: seq<Json>, p: Profile, cap: Option<nat>)
    ensures AllPartsFit(a + b, p, cap) <==> AllPartsFit(a, p, cap) && AllPartsFit(b, p, cap)
  {
    hide PartFits;
    if AllPartsFit(a + b, p, cap) {
      assert forall i :: 0 <= i < |a| ==> a[i] == (a + b)[i];
      assert forall i :: 0 <= i < |b| ==> b[i] == (a + b)[|a| + i];
    }
  }

  lemma TextsJoin(a: seq<Text>, b: seq<Text>, cap: Option<nat>)
    ensures AllTextsFit(a + b, cap) <==> AllTextsFit(a, cap) && AllTextsFit(b, cap)
  {
    hide TextWithin;
    if AllTextsFit(a + b, cap) {
      assert forall i :: 0 <= i < |a| ==> a[i] == (a + b)[i];
      assert forall i :: 0 <= i < |b| ==> b[i] == (a + b)[|a| + i];
    }
  }

  lemma {:induction false} FitIsPartwise(v: Json, depth: nat, p: Profile, cap: Option<nat>)
    ensures Fits(v, depth, p, cap) <==>
              depth + Depth(v) <= p.maxDepth && AllPartsFit(Parts(v), p, cap) && AllTextsFit(KeysInside(v), cap)
    ensures Nodes(v) == |Parts(v)|
  {
    hide TextFits, TextWithin, AllPartsFit, AllTextsFit;
    if v.String? {
      TextFitsWithin(v.text, cap);
    }
    OnePart(v, p, cap);
    NothingFits(p, cap);
    match v
    case Array(items) =>
      FitIsPartwiseItems(items, depth + 1, p, cap);
      PartsJoin([v], PartsOfItems(items), p, cap);
    case Object(members) =>
      FitIsPartwiseMembers(members, depth + 1, p, cap);
      PartsJoin([v], PartsOfMembers(members), p, cap);
    case _ =>
  }

  lemma {:induction false} FitIsPartwiseItems(items: Items, depth: nat, p: Profile, cap: Option<nat>)
    requires depth > 0
    ensures ItemsFit(items, depth, p, cap) && depth - 1 <= p.maxDepth <==>
              && depth - 1 + DepthOfItems(items) <= p.maxDepth
              && AllPartsFit(PartsOfItems(items), p, cap) && AllTextsFit(KeysOfItems(items), cap)
    ensures NodesOfItems(items) == |PartsOfItems(items)|
  {
    hide AllPartsFit, AllTextsFit, Fits, Parts, KeysInside, Depth;
    if items.Item? {
      FitIsPartwise(items.head, depth, p, cap);
      FitIsPartwiseItems(items.rest, depth, p, cap);
      PartsJoin(Parts(items.head), PartsOfItems(items.rest), p, cap);
      TextsJoin(KeysInside(items.head), KeysOfItems(items.rest), cap);
    } else {
      NothingFits(p, cap);
    }
  }

  lemma NothingFits(p: Profile, cap: Option<nat>)
    ensures AllPartsFit([], p, cap) && AllTextsFit([], cap)
  {}

  lemma {:induction false} FitIsPartwiseMembers(members: Members, depth: nat, p: Profile, cap: Option<nat>)
    requires depth > 0
    ensures MembersFit(members, depth, p, cap) && depth - 1 <= p.maxDepth <==>
              && depth - 1 + DepthOfMembers(members) <= p.maxDepth
              && AllPartsFit(PartsOfMembers(members), p, cap) && AllTextsFit(KeysOfMembers(members), cap)
    ensures NodesOfMembers(members) == |PartsOfMembers(members)|
  {
    hide AllPartsFit, AllTextsFit, Fits, Parts, KeysInside, Depth, TextFits, TextWithin;
    if members.Member? {
      FitIsPartwise(members.value, depth, p, cap);
      FitIsPartwiseMembers(members.rest, depth, p, cap);
      PartsJoin(Parts(members.value), PartsOfMembers(members.rest), p, cap);
      TextsJoin([members.key] + KeysInside(members.value), KeysOfMembers(members.rest), cap);
      TextsJoin([members.key], KeysInside(members.value), cap);
      OneText(members.key, cap);
      TextFitsWithin(members.key, cap);
    } else {
      NothingFits(p, cap);
    }
  }

  lemma OneText(s: Text, cap: Option<nat>)
    ensures AllTextsFit([s], cap) <==> TextWithin(s, cap)
  {
    hide TextWithin;
    assert [s][0] == s;
  }

  lemma OnePart(v: Json, p: Profile, cap: Option<nat>)
    ensures AllPartsFit([v], p, cap) <==> PartFits(v, p, cap)
  {
    hide PartFits;
    assert [v][0] == v;
  }

  /**
   * A value is accepted exactly when its depth, its number of values and its printed length are within the profile,
   * and every collection in it is within its size, every integer within 256 bits and every string and key within
   * the string bounds.
   */
  lemma AcceptedIffWithinBounds(o: KeyOrder, v: Json, p: Profile, cap: Option<nat>)
    ensures Accepts(v, p, cap) <==>
              && Depth(v) <= p.maxDepth && |Parts(v)| <= p.maxNodes && |Encode(Print(o, v))| <= p.maxBytes
              && AllPartsFit(Parts(v), p, cap) && AllTextsFit(KeysInside(v), cap)
  {
    FitIsPartwise(v, 0, p, cap);
    MeterIsPrintedLength(o, v);
    hide Fits, Nodes, Bytes, Depth, Parts, KeysInside, AllPartsFit, AllTextsFit, Print;
  }

  // ----- Where they differ -----

  /** Every string and key of the value is at most `cap` bytes once serialized. */
  predicate StringsWithin(v: Json, cap: nat) {
    match v
    case String(s) => SerializedString(s) <= cap
    case Array(items) => ItemStringsWithin(items, cap)
    case Object(members) => MemberStringsWithin(members, cap)
    case _ => true
  }

  predicate ItemStringsWithin(items: Items, cap: nat) {
    match items case NoItems => true case Item(head, rest) => StringsWithin(head, cap) && ItemStringsWithin(rest, cap)
  }

  predicate MemberStringsWithin(members: Members, cap: nat) {
    match members
    case NoMembers => true
    case Member(key, value, rest) =>
      SerializedString(key) <= cap && StringsWithin(value, cap) && MemberStringsWithin(rest, cap)
  }

  lemma {:induction false} CapSplits(v: Json, depth: nat, p: Profile, cap: nat)
    ensures Fits(v, depth, p, Some(cap)) <==> Fits(v, depth, p, None) && StringsWithin(v, cap)
  {
    match v
    case Array(items) => CapSplitsItems(items, depth + 1, p, cap);
    case Object(members) => CapSplitsMembers(members, depth + 1, p, cap);
    case _ =>
  }

  lemma {:induction false} CapSplitsItems(items: Items, depth: nat, p: Profile, cap: nat)
    ensures ItemsFit(items, depth, p, Some(cap)) <==> ItemsFit(items, depth, p, None) && ItemStringsWithin(items, cap)
  {
    if items.Item? {
      CapSplits(items.head, depth, p, cap);
      CapSplitsItems(items.rest, depth, p, cap);
    }
  }

  lemma {:induction false} CapSplitsMembers(members: Members, depth: nat, p: Profile, cap: nat)
    ensures MembersFit(members, depth, p, Some(cap)) <==>
              MembersFit(members, depth, p, None) && MemberStringsWithin(members, cap)
  {
    if members.Member? {
      CapSplits(members.value, depth, p, cap);
      CapSplitsMembers(members.rest, depth, p, cap);
    }
  }

  lemma {:induction false} StringsAreShorter(v: Json)
    ensures StringsWithin(v, Bytes(v))
  {
    match v
    case Array(items) => ItemStringsAreShorter(items, Bytes(v));
    case Object(members) => MemberStringsAreShorter(members, Bytes(v));
    case _ =>
  }

  lemma {:induction false} ItemStringsAreShorter(items: Items, cap: nat)
    requires BytesOfItems(items) <= cap
    ensures ItemStringsWithin(items, cap)
  {
    if items.Item? {
      StringsAreShorter(items.head);
      LooserCap(items.head, Bytes(items.head), cap);
      ItemStringsAreShorter(items.rest, cap);
    }
  }

  lemma {:induction false} MemberStringsAreShorter(members: Members, cap: nat)
    requires BytesOfMembers(members) <= cap
    ensures MemberStringsWithin(members, cap)
  {
    if members.Member? {
      StringsAreShorter(members.value);
      LooserCap(members.value, Bytes(members.value), cap);
      MemberStringsAreShorter(members.rest, cap);
    }
  }

  lemma {:induction false} LooserCap(v: Json, a: nat, b: nat)
    requires a <= b && StringsWithin(v, a)
    ensures StringsWithin(v, b)
  {
    match v
    case Array(items) => LooserItemCap(items, a, b);
    case Object(members) => LooserMemberCap(members, a, b);
    case _ =>
  }

  lemma {:induction false} LooserItemCap(items: Items, a: nat, b: nat)
    requires a <= b && ItemStringsWithin(items, a)
    ensures ItemStringsWithin(items, b)
  {
    if items.Item? {
      LooserCap(items.head, a, b);
      LooserItemCap(items.rest, a, b);
    }
  }

  lemma {:induction false} LooserMemberCap(members: Members, a: nat, b: nat)
    requires a <= b && MemberStringsWithin(members, a)
    ensures MemberStringsWithin(members, b)
  {
    if members.Member? {
      LooserCap(members.value, a, b);
      LooserMemberCap(members.rest, a, b);
    }
  }

  /**
   * In any profile Python accepts exactly what the native runtime accepts, less the values with a string or key
   * that takes more than 262144 bytes once escaped.  In the value profile there are none of those.
   */
  lemma AcceptanceDiffersExactlyOnLongStrings(v: Json, p: Profile)
    ensures PythonAccepts(v, p) <==> NativeAccepts(v, p) && StringsWithin(v, MAX_SERIALIZED_STRING)
    ensures p.maxBytes <= MAX_SERIALIZED_STRING ==> (PythonAccepts(v, p) <==> NativeAccepts(v, p))
    ensures VALUE_PROFILE.maxBytes <= MAX_SERIALIZED_STRING < RUNTIME_PROFILE.maxBytes
  {
    CapSplits(v, 0, p, MAX_SERIALIZED_STRING);
    if Bytes(v) <= MAX_SERIALIZED_STRING {
      StringsAreShorter(v);
      LooserCap(v, Bytes(v), MAX_SERIALIZED_STRING);
    }
  }

  function Nuls(n: nat): Text {
    seq(n, _ => 0)
  }

  lemma {:induction false} NulSizes(n: nat)
    ensures EscapedSize(Nuls(n)) == 6 * n && |Encode(Nuls(n))| == n && IsScalarText(Nuls(n))
  {
    Plain7Bit(Nuls(n));
    if n > 0 {
      NulSizes(n - 1);
      assert Nuls(n)[..n - 1] == Nuls(n - 1);
    }
  }

  /** The two runtime profiles differ as functions: fifty thousand NULs pass the native one and fail the Python one. */
  lemma RuntimeProfilesDiffer()
    ensures NativeAccepts(String(Nuls(50_000)), RUNTIME_PROFILE)
    ensures !PythonAccepts(String(Nuls(50_000)), RUNTIME_PROFILE)
  {
    NulSizes(50_000);
  }

  // ----- Why the difference does not show in runtime records -----

  /** The bound on every text field of a record. */
  const MAX_RECORD_TEXT := 4_096

  /** A value put together from bounded text and from values of the value profile. */
  predicate IsAssembled(v: Json) {
    NativeAccepts(v, VALUE_PROFILE) ||
    match v
    case String(s) => |Encode(s)| <= MAX_RECORD_TEXT
    case Array(items) => ItemsAssembled(items)
    case Object(members) => MembersAssembled(members)
    case _ => true
  }

  predicate ItemsAssembled(items: Items) {
    match items case NoItems => true case Item(head, rest) => IsAssembled(head) && ItemsAssembled(rest)
  }

  predicate MembersAssembled(members: Members) {
    match members
    case NoMembers => true
    case Member(key, value, rest) => |Encode(key)| <= MAX_RECORD_TEXT && IsAssembled(value) && MembersAssembled(rest)
  }

  lemma {:induction false} EscapingAtMostSixfold(s: Text)
    ensures EscapedSize(s) <= 6 * |Encode(s)|
  {
    if s != [] {
      var k := |s| - 1;
      EscapingAtMostSixfold(s[..k]);
      assert s == s[..k] + [s[k]] && s[..k + 1] == s;
      EncodeSnoc(s, k);
    }
  }

  lemma {:induction false} AssembledStringsAreShort(v: Json)
    requires IsAssembled(v)
    ensures StringsWithin(v, MAX_SERIALIZED_STRING)
  {
    if NativeAccepts(v, VALUE_PROFILE) {
      StringsAreShorter(v);
      LooserCap(v, Bytes(v), MAX_SERIALIZED_STRING);
    } else {
      match v
      case String(s) => EscapingAtMostSixfold(s);
      case Array(items) => AssembledItemsAreShort(items);
      case Object(members) => AssembledMembersAreShort(members);
      case _ =>
    }
  }

  lemma {:induction false} AssembledItemsAreShort(items: Items)
    requires ItemsAssembled(items)
    ensures ItemStringsWithin(items, MAX_SERIALIZED_STRING)
  {
    if items.Item? {
      AssembledStringsAreShort(items.head);
      AssembledItemsAreShort(items.rest);
    }
  }

  lemma {:induction false} AssembledMembersAreShort(members: Members)
    requires MembersAssembled(members)
    ensures MemberStringsWithin(members, MAX_SERIALIZED_STRING)
  {
    if members.Member? {
      EscapingAtMostSixfold(members.key);
      AssembledStringsAreShort(members.value);
      AssembledMembersAreShort(members.rest);
    }
  }

  /** A record assembled from value-profile values and bounded text is accepted by both sides or by neither. */
  lemma AssembledRecordsAgree(v: Json, p: Profile)
    requires IsAssembled(v)
    ensures PythonAccepts(v, p) <==> NativeAccepts(v, p)
  {
    AssembledStringsAreShort(v);
    AcceptanceDiffersExactlyOnLongStrings(v, p);
  }
}
