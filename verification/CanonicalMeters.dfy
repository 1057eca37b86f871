/** The normaliser and the renderer as they run: shared counters spent through the recursion. */
module CanonicalMeters {
  import opened Common
  import opened Utf8
  import opened DecimalIntegers
  import opened CanonicalFloats
  import opened CanonicalJson
  import opened CanonicalProfiles

  lemma EscapedSizeGrows(s: Text, i: nat)
    requires i <= |s|
    ensures EscapedSize(s[..i]) <= EscapedSize(s)
    decreases |s| - i
  {
    if i < |s| {
      EscapedSizeGrows(s, i + 1);
      assert s[..i + 1][..i] == s[..i];
    } else {
      assert s[..i] == s;
    }
  }

  /** `_bounded_json_string_length`: the exact serialized size, found without serializing, or a refusal. */
  method BoundedJsonStringLength(s: Text) returns (r: Option<nat>)
    ensures r.Some? <==> TextFits(s, Some(MAX_SERIALIZED_STRING))
    ensures r.Some? ==> r.value == SerializedString(s) == |Encode(PrintString(s))|
  {
    hide EncodeOne, Encode, Width, EscapedBytes, EscapeAll;
    EncodeNothing();
    assert s[..0] == [];
    var raw, serialized := 0, 2;
    for i := 0 to |s|
      invariant IsScalarText(s[..i])
      invariant raw == |Encode(s[..i])| <= MAX_STRING_BYTES
      invariant serialized == 2 + EscapedSize(s[..i]) <= MAX_SERIALIZED_STRING
    {
      var width := Width(s[i]);
      WidthIsEncodedLength(s[i]);
      EncodeSnoc(s, i);
      EncodePrefixFits(s, i + 1);
      EscapedSizeGrows(s, i + 1);
      assert s[..i + 1][..i] == s[..i] && s[..i + 1][i] == s[i];
      if width.None? {
        return None;
      }
      raw := raw + width.value;
      if raw > MAX_STRING_BYTES {
        return None;
      }
      serialized := serialized + EscapedWidth(s[i], width.value);
      if serialized > MAX_SERIALIZED_STRING {
        return None;
      }
    }
    assert s[..|s|] == s;
    StringLength(s);
    return Some(serialized);
  }

  /** The serialized width of one character whose raw width is known. */
  function EscapedWidth(c: CodePoint, width: nat): (r: nat)
    ensures width == |EncodeOne(c)| ==> r == EscapedBytes(c)
  {
    if c in {34, 92, 8, 12, 10, 13, 9} then 2 else if c <= 0x1F then 6 else width
  }

  /** The two one-element lists that one normalisation shares through its recursion. */
  class Meter {
    var nodes: nat
    var bytes: nat

    constructor ()
      ensures nodes == bytes == 0
    {
      nodes, bytes := 0, 0;
    }

    /** `consume_bytes`. */
    method Consume(amount: nat, max: nat) returns (ok: bool)
      modifies this`bytes
      ensures bytes == old(bytes) + amount && (ok <==> bytes <= max)
    {
      bytes := bytes + amount;
      ok := bytes <= max;
    }

    /** `_normalize_bounded_json`: accept exactly what fits, charging its nodes and bytes. */
    method Normalize(v: Json, depth: nat, p: Profile) returns (ok: bool)
      modifies this
      ensures ok <==> Fits(v, depth, p, Some(MAX_SERIALIZED_STRING))
                      && old(nodes) + Nodes(v) <= p.maxNodes && old(bytes) + Bytes(v) <= p.maxBytes
      ensures ok ==> nodes == old(nodes) + Nodes(v) && bytes == old(bytes) + Bytes(v)
      decreases v, 1
    {
      hide TextFits, SerializedString, PrintInt, Layout, BitLength, Brackets, CountMembers, CountItems,
        NodesOfItems, NodesOfMembers, BytesOfItems, BytesOfMembers, ItemsFit, MembersFit;
      if depth > p.maxDepth {
        return false;
      }
      nodes := nodes + 1;
      if nodes > p.maxNodes {
        return false;
      }
      match v
      case Null =>
        ok := Consume(4, p.maxBytes);
      case Bool(flag) =>
        ok := Consume(if flag then 4 else 5, p.maxBytes);
      case Number(i) =>
        BitBoundIsExact(Abs(i));
        if BitLength(Abs(i)) > 256 {
          return false;
        }
        ok := Consume(|PrintInt(i)|, p.maxBytes);
      case Float(d) =>
        ok := Consume(|Layout(d)|, p.maxBytes);
      case String(s) =>
        var length := BoundedJsonStringLength(s);
        if length.None? {
          return false;
        }
        ok := Consume(length.value, p.maxBytes);
      case Object(members) =>
        if CountMembers(members) > p.maxItems {
          return false;
        }
        ok := Consume(Brackets(CountMembers(members)), p.maxBytes);
        if ok {
          ok := NormalizeMembers(members, depth + 1, p);
        }
      case Array(items) =>
        if CountItems(items) > p.maxItems {
          return false;
        }
        ok := Consume(Brackets(CountItems(items)), p.maxBytes);
        if ok {
          ok := NormalizeItems(items, depth + 1, p);
        }
    }

    method NormalizeItems(items: Items, depth: nat, p: Profile) returns (ok: bool)
      requires nodes <= p.maxNodes && bytes <= p.maxBytes
      modifies this
      ensures ok <==> ItemsFit(items, depth, p, Some(MAX_SERIALIZED_STRING))
                      && old(nodes) + NodesOfItems(items) <= p.maxNodes
                      && old(bytes) + BytesOfItems(items) <= p.maxBytes
      ensures ok ==> nodes == old(nodes) + NodesOfItems(items) && bytes == old(bytes) + BytesOfItems(items)
      decreases items, 0
    {
      hide Fits;
      if items.NoItems? {
        return true;
      }
      ok := Normalize(items.head, depth, p);
      if ok {
        ok := NormalizeItems(items.rest, depth, p);
      }
    }

    method NormalizeMembers(members: Members, depth: nat, p: Profile) returns (ok: bool)
      requires nodes <= p.maxNodes && bytes <= p.maxBytes
      modifies this
      ensures ok <==> MembersFit(members, depth, p, Some(MAX_SERIALIZED_STRING))
                      && old(nodes) + NodesOfMembers(members) <= p.maxNodes
                      && old(bytes) + BytesOfMembers(members) <= p.maxBytes
      ensures ok ==> nodes == old(nodes) + NodesOfMembers(members) && bytes == old(bytes) + BytesOfMembers(members)
      decreases members, 0
    {
      hide Fits, TextFits, SerializedString;
      if members.NoMembers? {
        return true;
      }
      var length := BoundedJsonStringLength(members.key);
      if length.None? {
        return false;
      }
      ok := Consume(length.value + 1, p.maxBytes);
      if ok {
        ok := Normalize(members.value, depth, p);
      }
      if ok {
        ok := NormalizeMembers(members.rest, depth, p);
      }
    }
  }

  /** One normalisation, from fresh counters. */
  method NormalizeBoundedJson(v: Json, p: Profile) returns (ok: bool)
    ensures ok <==> PythonAccepts(v, p)
  {
    var meter := new Meter();
    ok := meter.Normalize(v, 0, p);
  }

  // ----- The native renderer -----

  /** The entries of one object in byte order of their keys, values untouched. */
  function SortEntries(members: Members): Members {
    match members
    case NoMembers => NoMembers
    case Member(key, value, rest) => Insert(ByBytes, key, value, SortEntries(rest))
  }

  function SortValues(members: Members): Members {
    match members
    case NoMembers => NoMembers
    case Member(key, value, rest) => Member(key, Sorted(ByBytes, value), SortValues(rest))
  }

  lemma {:induction false} InsertThenSort(key: Text, value: Json, members: Members)
    ensures SortValues(Insert(ByBytes, key, value, members))
            == Insert(ByBytes, key, Sorted(ByBytes, value), SortValues(members))
  {
    hide KeyLess, Sorted;
    if members.Member? {
      InsertThenSort(key, value, members.rest);
    }
  }

  /** Sorting the entries first and their values on the way gives the sorted members. */
  lemma {:induction false} EntriesThenValues(members: Members)
    ensures SortValues(SortEntries(members)) == SortedMembers(ByBytes, members)
  {
    hide Sorted;
    if members.Member? {
      EntriesThenValues(members.rest);
      InsertThenSort(members.key, members.value, SortEntries(members.rest));
    }
  }

  lemma {:induction false} InsertKeepsFit(key: Text, value: Json, members: Members, depth: nat, p: Profile)
    ensures MembersFit(Insert(ByBytes, key, value, members), depth, p, None) <==>
              TextFits(key, None) && Fits(value, depth, p, None) && MembersFit(members, depth, p, None)
  {
    hide KeyLess, Fits, TextFits;
    if members.Member? {
      InsertKeepsFit(key, value, members.rest, depth, p);
    }
  }

  lemma {:induction false} SortEntriesFacts(members: Members, depth: nat, p: Profile)
    ensures var r := SortEntries(members);
            && NodesOfMembers(r) == NodesOfMembers(members)
            && (MembersFit(r, depth, p, None) <==> MembersFit(members, depth, p, None))
  {
    hide Fits, TextFits;
    if members.Member? {
      SortEntriesFacts(members.rest, depth, p);
      InsertKeepsTotals(ByBytes, members.key, members.value, SortEntries(members.rest));
      InsertKeepsFit(members.key, members.value, SortEntries(members.rest), depth, p);
    }
  }

  /** The float formatter behind the native printer gives some rendering of every non-zero magnitude. */
  ghost predicate Formats(formatter: Decimal -> Text) {
    forall d: Decimal :: d.Scaled? ==> Renders(formatter(d), d)
  }

  lemma LayoutIsAFormatter()
    ensures Formats(d => Unsigned(d))
  {
    hide Unsigned, Renders;
    forall d: Decimal | d.Scaled? ensures Renders(Unsigned(d), d) {
      LayoutRendersItsDecimal(d);
    }
  }

  /** `canonical_number`, on a finite float. */
  method CanonicalFloat(d: Decimal, formatter: Decimal -> Text) returns (text: Text)
    requires Formats(formatter)
    ensures text == Layout(d)
  {
    hide Layout, Renders;
    var value := if d.Zero? then ZeroFloat(d.negative) else NonZeroFloat(d.negative, formatter(d));
    assert IsFloat(value, d);
    var output := PythonFloatRepr(value);
    text := output.value;
  }

  /** `CanonicalStats`: the node count one rendering shares through its recursion. */
  class Stats {
    const formatter: Decimal -> Text
    var nodes: nat

    constructor (formatter: Decimal -> Text)
      ensures nodes == 0 && this.formatter == formatter
    {
      this.formatter, nodes := formatter, 0;
    }

    /** `render_canonical`: the printed text of exactly the values that fit. */
    method Render(v: Json, depth: nat, p: Profile) returns (r: Option<Text>)
      requires IsScalarJson(v) && Formats(formatter)
      modifies this
      ensures r.Some? <==> Fits(v, depth, p, None) && old(nodes) + Nodes(v) <= p.maxNodes
      ensures r.Some? ==> r.value == Print(ByBytes, v) && nodes == old(nodes) + Nodes(v)
      decreases Nodes(v), 1
    {
      hide PrintInt, Layout, PrintString, Encode, CanonicalInteger, Formats;
      if depth > p.maxDepth {
        return None;
      }
      nodes := nodes + 1;
      if nodes > p.maxNodes {
        return None;
      }
      match v
      case Null =>
        return Some([110, 117, 108, 108]);
      case Bool(flag) =>
        return Some(if flag then [116, 114, 117, 101] else [102, 97, 108, 115, 101]);
      case Number(i) =>
        PrintedIntegerIsCanonical(i);
        return CanonicalInteger(PrintInt(i));
      case Float(d) =>
        var text := CanonicalFloat(d, formatter);
        return Some(text);
      case String(s) =>
        return if |Encode(s)| > MAX_STRING_BYTES then None else Some(PrintString(s));
      case Array(items) =>
        if CountItems(items) > p.maxItems {
          return None;
        }
        var inner := RenderItems(items, depth + 1, p);
        return if inner.Some? then Some([91] + (inner.value + [93])) else None;
      case Object(members) =>
        if CountMembers(members) > p.maxItems {
          return None;
        }
        var entries := SortEntries(members);
        SortEntriesFacts(members, depth + 1, p);
        SortEntriesScalar(members);
        EntriesThenValues(members);
        var inner := RenderMembers(entries, depth + 1, p);
        return if inner.Some? then Some([123] + (inner.value + [125])) else None;
    }

    method RenderItems(items: Items, depth: nat, p: Profile) returns (r: Option<Text>)
      requires ScalarItems(items) && Formats(formatter) && nodes <= p.maxNodes
      modifies this
      ensures r.Some? <==> ItemsFit(items, depth, p, None) && old(nodes) + NodesOfItems(items) <= p.maxNodes
      ensures r.Some? ==> r.value == CanonicalJson.RenderItems(SortedItems(ByBytes, items))
      ensures r.Some? ==> nodes == old(nodes) + NodesOfItems(items)
      decreases NodesOfItems(items), 2, items
    {
      hide Fits, CanonicalJson.Render, Sorted, Formats;
      if items.NoItems? {
        return Some([]);
      }
      var first := Render(items.head, depth, p);
      if first.None? {
        return None;
      }
      var others := RenderItems(items.rest, depth, p);
      if others.None? {
        return None;
      }
      return Some(first.value + if items.rest.NoItems? then [] else [COMMA] + others.value);
    }

    method RenderMembers(entries: Members, depth: nat, p: Profile) returns (r: Option<Text>)
      requires ScalarMembers(entries) && Formats(formatter) && nodes <= p.maxNodes
      modifies this
      ensures r.Some? <==> MembersFit(entries, depth, p, None) && old(nodes) + NodesOfMembers(entries) <= p.maxNodes
      ensures r.Some? ==> r.value == CanonicalJson.RenderMembers(SortValues(entries))
      ensures r.Some? ==> nodes == old(nodes) + NodesOfMembers(entries)
      decreases NodesOfMembers(entries), 2, entries
    {
      hide Fits, CanonicalJson.Render, Sorted, PrintString, Encode, Formats;
      if entries.NoMembers? {
        return Some([]);
      }
      if |Encode(entries.key)| > MAX_STRING_BYTES {
        return None;
      }
      var first := Render(entries.value, depth, p);
      if first.None? {
        return None;
      }
      var others := RenderMembers(entries.rest, depth, p);
      if others.None? {
        return None;
      }
      return Some(PrintString(entries.key)
                  + ([COLON] + (first.value + if entries.rest.NoMembers? then [] else [COMMA] + others.value)));
    }
  }

  lemma {:induction false} InsertKeepsScalar(key: Text, value: Json, members: Members)
    requires IsScalarText(key) && IsScalarJson(value) && ScalarMembers(members)
    ensures ScalarMembers(Insert(ByBytes, key, value, members))
  {
    SameInsert(key, value, members);
  }

  lemma {:induction false} SortEntriesScalar(members: Members)
    requires ScalarMembers(members)
    ensures ScalarMembers(SortEntries(members))
  {
    if members.Member? {
      SortEntriesScalar(members.rest);
      InsertKeepsScalar(members.key, members.value, SortEntries(members.rest));
    }
  }

  /** `canonical_value_with_limits`: the text both printers give, for exactly the accepted values. */
  method CanonicalValueWithLimits(v: Json, p: Profile, formatter: Decimal -> Text) returns (r: Option<Text>)
    requires IsScalarJson(v) && Formats(formatter)
    ensures r.Some? <==> NativeAccepts(v, p)
    ensures r.Some? ==> r.value == Print(ByCodePoints, v) && |Encode(r.value)| <= p.maxBytes
  {
    var stats := new Stats(formatter);
    var output := stats.Render(v, 0, p);
    PrintersAgree(v);
    MeterIsPrintedLength(ByCodePoints, v);
    if output.None? || |Encode(output.value)| > p.maxBytes {
      return None;
    }
    return output;
  }
}
