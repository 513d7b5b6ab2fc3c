/** The text of the `traceparent` header (section 3.2 of W3C Trace Context) and of the `baggage` header
    (section 3.2 of W3C Baggage, without properties or percent-encoding), as src/provider.cc writes and reads them. */
module TraceContext {
  import opened Prelude
  import Hex
  import Explode

  const TRACE_ID_BYTES: nat := 16
  const SPAN_ID_BYTES: nat := 8
  const SAMPLED_FLAG: string := "01"
  const UNSAMPLED_FLAG: string := "00"

  /** What a receiver takes from a `traceparent` header. */
  datatype Parent = Parent(traceId: seq<byte>, spanId: seq<byte>, sampled: bool)

  function FormatTraceParent(parent: Parent): string {
    "00" + "-" + Hex.Encoded(parent.traceId) + "-" + Hex.Encoded(parent.spanId) + "-" +
    (if parent.sampled then SAMPLED_FLAG else UNSAMPLED_FLAG)
  }

  /** The identifier fields hold enough hex digits for the fixed-size copies of the parser. */
  predicate WellFormedFields(kv: seq<string>) {
    && |kv| == 4
    && Hex.IsHex(kv[1]) && |kv[1]| >= 2 * TRACE_ID_BYTES - 1
    && Hex.IsHex(kv[2]) && |kv[2]| >= 2 * SPAN_ID_BYTES - 1
  }

  function FromFields(kv: seq<string>): (parent: Parent)
    requires WellFormedFields(kv)
    ensures ValidParent(parent)
  {
    Parent(Hex.Decoded(kv[1])[..TRACE_ID_BYTES], Hex.Decoded(kv[2])[..SPAN_ID_BYTES], kv[3] == SAMPLED_FLAG)
  }

  /** A header that does not have four fields is ignored by the parser, so nothing is asked of it. */
  ghost predicate WellFormed(header: string) {
    var kv := Explode.Split("-", header);
    |kv| == 4 ==> WellFormedFields(kv)
  }

  ghost function ParseTraceParent(header: string): (parent: Option<Parent>)
    requires WellFormed(header)
    ensures parent.Some? ==> ValidParent(parent.value)
  {
    var kv := Explode.Split("-", header);
    if |kv| == 4 then Some(FromFields(kv)) else None
  }

  predicate ValidParent(parent: Parent) {
    |parent.traceId| == TRACE_ID_BYTES && |parent.spanId| == SPAN_ID_BYTES
  }

  /** The four dash-separated fields of the header. */
  function Fields(parent: Parent): seq<string> {
    ["00", Hex.Encoded(parent.traceId), Hex.Encoded(parent.spanId),
     if parent.sampled then SAMPLED_FLAG else UNSAMPLED_FLAG]
  }

  lemma JoinFour(d: string, a: string, b: string, c: string, e: string)
    ensures Explode.Join(d, [a, b, c, e]) == a + d + b + d + c + d + e
  {
    assert [a, b, c, e][1..] == [b, c, e];
    assert [b, c, e][1..] == [c, e];
    assert [c, e][1..] == [e];
    assert Explode.Join(d, [c, e]) == c + d + e;
    assert Explode.Join(d, [b, c, e]) == b + d + (c + d + e);
    assert Explode.Join(d, [a, b, c, e]) == a + d + (b + d + (c + d + e));
    assert b + d + (c + d + e) == b + d + c + d + e;
    assert a + d + (b + d + c + d + e) == a + d + b + d + c + d + e;
  }

  lemma NoDashInHex(s: string)
    requires Hex.IsHex(s)
    ensures '-' !in s
  {
  }

  lemma SplitFormatted(parent: Parent)
    ensures FormatTraceParent(parent) != ""
    ensures Explode.Split("-", FormatTraceParent(parent)) == Fields(parent)
  {
    var f := Fields(parent);
    NoDashInHex(f[1]);
    NoDashInHex(f[2]);
    assert forall k :: 0 <= k < 4 ==> '-' !in f[k];
    Explode.SplitJoin('-', f);
    JoinFour("-", f[0], f[1], f[2], f[3]);
  }

  lemma IdRoundTrip(id: seq<byte>, size: nat)
    requires |id| == size
    ensures Hex.Decoded(Hex.Encoded(id))[..size] == id
  {
    Hex.DecodeEncode(id);
  }

  lemma FieldRoundTrip(field: string, size: nat)
    requires Hex.IsLowerHex(field) && |field| == 2 * size
    ensures Hex.IsHex(field) && |Hex.Decoded(field)| == size
    ensures Hex.Encoded(Hex.Decoded(field)[..size]) == field
  {
    Hex.EncodeDecodeLower(field);
    assert Hex.Decoded(field)[..size] == Hex.Decoded(field);
  }

  lemma FieldsRoundTrip(parent: Parent)
    requires ValidParent(parent)
    ensures WellFormedFields(Fields(parent)) && FromFields(Fields(parent)) == parent
  {
    IdRoundTrip(parent.traceId, TRACE_ID_BYTES);
    IdRoundTrip(parent.spanId, SPAN_ID_BYTES);
    assert SAMPLED_FLAG[1] != UNSAMPLED_FLAG[1];
  }

  lemma RefieldsCanonical(kv: seq<string>)
    requires CanonicalFields(kv) && WellFormedFields(kv)
    ensures Fields(FromFields(kv)) == kv
  {
    FieldRoundTrip(kv[1], TRACE_ID_BYTES);
    FieldRoundTrip(kv[2], SPAN_ID_BYTES);
    var parent := FromFields(kv);
    var f := Fields(parent);
    assert f[1] == kv[1] by {
      assert parent.traceId == Hex.Decoded(kv[1])[..TRACE_ID_BYTES];
    }
    assert f[2] == kv[2] by {
      assert parent.spanId == Hex.Decoded(kv[2])[..SPAN_ID_BYTES];
    }
    assert f[0] == kv[0];
    assert f[3] == kv[3];
  }

  /** Reading a header that was written for a span restores its trace id, span id and sampled bit. */
  lemma TraceParentRoundTrip(parent: Parent)
    requires ValidParent(parent)
    ensures FormatTraceParent(parent) != ""
    ensures WellFormed(FormatTraceParent(parent))
    ensures ParseTraceParent(FormatTraceParent(parent)) == Some(parent)
  {
    SplitFormatted(parent);
    FieldsRoundTrip(parent);
  }

  /** The text of a header, in full: version 00, the identifiers in lower-case hexadecimal, and flag 01 exactly for
      a sampled request. */
  lemma HeaderText(parent: Parent)
    requires ValidParent(parent)
    ensures var header := FormatTraceParent(parent);
      && |header| == 55 && header[..3] == "00-" && header[35] == '-'
      && header[52..] == (if parent.sampled then "-01" else "-00")
      && Hex.IsLowerHex(header[3..35]) && Hex.Base16(header[3..35]) == Hex.BigEndian(parent.traceId)
      && Hex.IsLowerHex(header[36..52]) && Hex.Base16(header[36..52]) == Hex.BigEndian(parent.spanId)
  {
    var header := FormatTraceParent(parent);
    var t, s := Hex.Encoded(parent.traceId), Hex.Encoded(parent.spanId);
    var flag := if parent.sampled then "-01" else "-00";
    assert header == "00-" + t + "-" + s + flag;
    assert header[3..35] == t && header[36..52] == s && header[52..] == flag;
    IdNumber(parent.traceId);
    IdNumber(parent.spanId);
  }

  lemma IdNumber(id: seq<byte>)
    ensures Hex.Base16(Hex.Encoded(id)) == Hex.BigEndian(id)
  {
    Hex.DecodeEncode(id);
    Hex.DecodedNumber(Hex.Encoded(id));
  }

  /** How any header is read: it is ignored unless it has exactly four fields, whatever the version. From one with
      identifiers of the standard size come 16 and 8 bytes that denote the same numbers, and the request is sampled
      exactly by flag 01. */
  lemma HeaderRead(version: string, t: string, s: string, flag: string)
    requires '-' !in version && '-' !in flag
    requires |t| == 32 && Hex.IsHex(t) && |s| == 16 && Hex.IsHex(s)
    ensures var header := version + "-" + t + "-" + s + "-" + flag;
      && WellFormed(header) && ParseTraceParent(header).Some?
      && var parent := ParseTraceParent(header).value;
         && |parent.traceId| == 16 && Hex.BigEndian(parent.traceId) == Hex.Base16(t)
         && |parent.spanId| == 8 && Hex.BigEndian(parent.spanId) == Hex.Base16(s)
         && (parent.sampled <==> flag == "01")
  {
    SplitFour(version, t, s, flag);
    hide Explode.Split;
    Hex.DecodedNumber(t);
    Hex.DecodedNumber(s);
    hide Hex.Base16, Hex.BigEndian;
    assert Hex.Decoded(t)[..16] == Hex.Decoded(t) && Hex.Decoded(s)[..8] == Hex.Decoded(s);
  }

  lemma SplitFour(version: string, t: string, s: string, flag: string)
    requires '-' !in version && '-' !in flag && Hex.IsHex(t) && Hex.IsHex(s)
    ensures Explode.Split("-", version + "-" + t + "-" + s + "-" + flag) == [version, t, s, flag]
  {
    var kv := [version, t, s, flag];
    NoDashInHex(t);
    NoDashInHex(s);
    assert forall k :: 0 <= k < 4 ==> '-' !in kv[k];
    hide Explode.Split;
    Explode.SplitJoin('-', kv);
    JoinFour("-", version, t, s, flag);
  }

  /** Any other number of fields is ignored. */
  lemma OtherFieldsIgnored(kv: seq<string>)
    requires kv != [] && |kv| != 4 && forall k :: 0 <= k < |kv| ==> '-' !in kv[k]
    ensures WellFormed(Explode.Join("-", kv)) && ParseTraceParent(Explode.Join("-", kv)) == None
  {
    Explode.SplitJoin('-', kv);
  }

  /** The canonical version-00 headers: lower-case identifiers of the exact size and a 00 or 01 flag. */
  predicate CanonicalFields(kv: seq<string>) {
    && |kv| == 4 && kv[0] == "00"
    && |kv[1]| == 2 * TRACE_ID_BYTES && Hex.IsLowerHex(kv[1])
    && |kv[2]| == 2 * SPAN_ID_BYTES && Hex.IsLowerHex(kv[2])
    && (kv[3] == SAMPLED_FLAG || kv[3] == UNSAMPLED_FLAG)
  }

  /** The other direction: the headers that survive parsing and re-formatting are the canonical ones. */
  lemma TraceParentReformat(header: string)
    requires WellFormed(header) && ParseTraceParent(header).Some?
    ensures FormatTraceParent(ParseTraceParent(header).value) == header <==>
            CanonicalFields(Explode.Split("-", header))
  {
    var kv := Explode.Split("-", header);
    var parent := ParseTraceParent(header).value;
    SplitFormatted(parent);
    if CanonicalFields(kv) {
      RefieldsCanonical(kv);
      assert header == Explode.Join("-", kv);
      assert Explode.Join("-", Fields(parent)) == FormatTraceParent(parent);
    }
    FieldsAreCanonical(parent);
  }

  lemma FieldsAreCanonical(parent: Parent)
    requires ValidParent(parent)
    ensures CanonicalFields(Fields(parent))
  {
  }

  // ----- baggage -----

  type Pair = (string, string)

  /** An iteration order of the hash map: each key once. */
  ghost predicate IterationOrder(m: map<string, string>, order: seq<string>) {
    Distinct(order) && forall k :: k in m <==> k in order
  }

  function Item(m: map<string, string>, key: string): string
    requires key in m
  {
    key + "=" + m[key]
  }

  function Items(m: map<string, string>, order: seq<string>): (items: seq<string>)
    requires forall k :: k in order ==> k in m
    ensures |items| == |order|
  {
    seq(|order|, i requires 0 <= i < |order| => Item(m, order[i]))
  }

  function FormatBaggage(m: map<string, string>, order: seq<string>): string
    requires forall k :: k in order ==> k in m
  {
    Explode.Join(",", Items(m, order))
  }

  /** The iterator loop that writes the header. */
  method FormatBaggageHeader(m: map<string, string>, order: seq<string>) returns (header: string)
    requires IterationOrder(m, order)
    ensures header == FormatBaggage(m, order)
  {
    header := "";
    var first := true;
    var i := 0;
    while i < |order|
      invariant 0 <= i <= |order| && first == (i == 0)
      invariant header == Explode.Join(",", Items(m, order)[..i])
    {
      if !first {
        header := header + ",";
      }
      first := false;
      header := header + order[i];
      header := header + "=";
      header := header + m[order[i]];
      HeaderStep(m, order, i);
      i := i + 1;
    }
    assert Items(m, order)[..i] == Items(m, order);
  }

  lemma HeaderStep(m: map<string, string>, order: seq<string>, i: nat)
    requires IterationOrder(m, order) && i < |order|
    ensures Explode.Join(",", Items(m, order)[..i + 1]) ==
            (if i == 0 then "" else Explode.Join(",", Items(m, order)[..i]) + ",") + order[i] + "=" + m[order[i]]
  {
    JoinAppend(",", Items(m, order)[..i], Item(m, order[i]));
    assert Items(m, order)[..i] + [Item(m, order[i])] == Items(m, order)[..i + 1];
  }

  lemma {:induction false} JoinAppend(d: string, pieces: seq<string>, last: string)
    ensures Explode.Join(d, pieces + [last]) ==
            (if pieces == [] then last else Explode.Join(d, pieces) + d + last)
  {
    if |pieces| > 0 {
      JoinAppend(d, pieces[1..], last);
      assert (pieces + [last])[1..] == pieces[1..] + [last];
    }
  }

  /** The items with exactly one equals sign, as key and value. */
  ghost function Pairs(items: seq<string>): seq<Pair> {
    if items == [] then []
    else
      var kv := Explode.Split("=", items[0]);
      (if |kv| == 2 then [(kv[0], kv[1])] else []) + Pairs(items[1..])
  }

  /** The entries that a receiver adds, in order. */
  ghost function ParseBaggage(header: string): seq<Pair> {
    if header == "" then [] else Pairs(Explode.Split(",", header))
  }

  /** Adding entries one after the other; a later entry replaces an earlier one with the same key. */
  function Bind(m: map<string, string>, pairs: seq<Pair>): map<string, string>
    decreases |pairs|
  {
    if pairs == [] then m else Bind(m[pairs[0].0 := pairs[0].1], pairs[1..])
  }

  /** What a key is bound to: the value that came last for it. */
  lemma {:induction false} BindMeaning(m: map<string, string>, pairs: seq<Pair>, key: string)
    ensures key in Bind(m, pairs) <==> key in m || exists i :: 0 <= i < |pairs| && pairs[i].0 == key
    ensures forall i :: 0 <= i < |pairs| && pairs[i].0 == key &&
                        (forall j :: i < j < |pairs| ==> pairs[j].0 != key) ==>
              key in Bind(m, pairs) && Bind(m, pairs)[key] == pairs[i].1
    ensures key in m && (forall j :: 0 <= j < |pairs| ==> pairs[j].0 != key) ==>
              key in Bind(m, pairs) && Bind(m, pairs)[key] == m[key]
    decreases |pairs|
  {
    if pairs != [] {
      var rest := pairs[1..];
      BindMeaning(m[pairs[0].0 := pairs[0].1], rest, key);
      hide Bind;
      assert forall i :: 0 <= i < |rest| ==> rest[i] == pairs[i + 1];
      assert forall i :: 1 <= i < |pairs| ==> pairs[i] == rest[i - 1];
    }
  }

  /** No separator of the header. */
  predicate Plain(s: string) {
    ',' !in s && '=' !in s
  }

  predicate PlainMap(m: map<string, string>) {
    forall k :: k in m ==> Plain(k) && Plain(m[k])
  }

  lemma SplitItem(m: map<string, string>, k: string)
    requires k in m && '=' !in k && '=' !in m[k]
    ensures Explode.Split("=", Item(m, k)) == [k, m[k]]
  {
    assert [k, m[k]][1..] == [m[k]];
    assert Explode.Join("=", [k, m[k]]) == Item(m, k);
    Explode.SplitJoin('=', [k, m[k]]);
  }

  lemma {:induction false} PairsOfItems(m: map<string, string>, order: seq<string>)
    requires forall k :: k in order ==> k in m
    requires PlainMap(m)
    ensures |Pairs(Items(m, order))| == |order|
    ensures forall i :: 0 <= i < |order| ==> Pairs(Items(m, order))[i] == (order[i], m[order[i]])
  {
    if order != [] {
      var first, rest := order[0], order[1..];
      SplitItem(m, first);
      assert Items(m, order) == [Item(m, first)] + Items(m, rest);
      assert Pairs([Item(m, first)]) == [(first, m[first])];
      PairsPrepend(Item(m, first), Items(m, rest));
      hide Items, Pairs, Explode.Split;
      PairsOfItems(m, rest);
      assert Pairs(Items(m, order)) == [(first, m[first])] + Pairs(Items(m, rest));
    }
  }

  ghost function Restricted(m: map<string, string>, keys: seq<string>): map<string, string> {
    map k | k in m && k in keys :: m[k]
  }

  lemma RestrictedStep(acc: map<string, string>, m: map<string, string>, order: seq<string>)
    requires order != [] && order[0] in m
    ensures acc[order[0] := m[order[0]]] + Restricted(m, order[1..]) == acc + Restricted(m, order)
  {
    assert forall k :: k in order <==> k == order[0] || k in order[1..];
  }

  lemma {:induction false} BindOrder(acc: map<string, string>, m: map<string, string>, order: seq<string>,
                                     pairs: seq<Pair>)
    requires |pairs| == |order|
    requires forall i :: 0 <= i < |order| ==> order[i] in m && pairs[i] == (order[i], m[order[i]])
    ensures Bind(acc, pairs) == acc + Restricted(m, order)
    decreases |order|
  {
    hide Restricted;
    if order == [] {
      NothingRestricted(m);
    } else {
      BindOrder(acc[order[0] := m[order[0]]], m, order[1..], pairs[1..]);
      RestrictedStep(acc, m, order);
    }
  }

  lemma NothingRestricted(m: map<string, string>)
    ensures Restricted(m, []) == map[]
  {
  }

  /** The header text: items `key=value` with a comma between them. */
  lemma BaggageText(m: map<string, string>, order: seq<string>, k: string)
    requires k in m && forall o :: o in order ==> o in m
    ensures FormatBaggage(m, []) == ""
    ensures FormatBaggage(m, order + [k]) ==
            (if order == [] then "" else FormatBaggage(m, order) + ",") + k + "=" + m[k]
  {
    assert Items(m, order + [k]) == Items(m, order) + [k + "=" + m[k]];
    JoinAppend(",", Items(m, order), k + "=" + m[k]);
  }

  /** A header is read item by item. */
  lemma BaggageRead(item: string, rest: string)
    requires ',' !in item
    ensures ParseBaggage(item + "," + rest) == ParseBaggage(item) + ParseBaggage(rest)
  {
    ReadPieces(item);
    ReadPieces(rest);
    ReadPieces(item + "," + rest);
    SplitFirst(item, rest);
    hide Explode.Split, Pairs, ParseBaggage;
    PairsPrepend(item, Explode.Split(",", rest));
  }

  lemma PairsPrepend(item: string, items: seq<string>)
    ensures Pairs([item] + items) == Pairs([item]) + Pairs(items)
  {
    hide Explode.Split;
    assert ([item] + items)[1..] == items && [item][1..] == [];
    assert Pairs([item]) + [] == Pairs([item]);
  }

  lemma SplitFirst(item: string, rest: string)
    requires ',' !in item
    ensures Explode.Split(",", item) == [item]
    ensures Explode.Split(",", item + "," + rest) == [item] + Explode.Split(",", rest)
  {
    Explode.SplitJoin(',', [item]);
    var pieces := Explode.Split(",", rest);
    assert Explode.CutsLeftmost([','], pieces) && Explode.Join(",", pieces) == rest;
    Explode.OneCharCuts(',', pieces);
    hide Explode.Split, Explode.CutsLeftmost;
    assert ([item] + pieces)[1..] == pieces;
    assert Explode.Join(",", [item] + pieces) == item + "," + rest;
    Explode.SplitJoin(',', [item] + pieces);
  }

  lemma ReadPieces(header: string)
    ensures ParseBaggage(header) == Pairs(Explode.Split(",", header))
  {
    if header == "" {
      Explode.SplitJoin(',', [""]);
      Explode.SplitJoin('=', [""]);
      assert Pairs([""]) == [];
    }
  }

  /** And an item counts when it has exactly one equals sign. */
  lemma ItemRead(fields: seq<string>)
    requires fields != [] && forall k :: 0 <= k < |fields| ==> Plain(fields[k])
    ensures ParseBaggage(Explode.Join("=", fields)) == if |fields| == 2 then [(fields[0], fields[1])] else []
    ensures |fields| == 2 ==> Explode.Join("=", fields) == fields[0] + "=" + fields[1]
  {
    var item := Explode.Join("=", fields);
    NotInJoin("=", fields, ',');
    Explode.SplitJoin('=', fields);
    Explode.SplitJoin(',', [item]);
    ReadPieces(item);
    hide Explode.Split, Explode.Join;
    assert Pairs([item]) == (if |fields| == 2 then [(fields[0], fields[1])] else []) + Pairs([]);
  }

  lemma {:induction false} NotInJoin(d: string, pieces: seq<string>, c: char)
    requires c !in d && forall k :: 0 <= k < |pieces| ==> c !in pieces[k]
    ensures c !in Explode.Join(d, pieces)
  {
    if |pieces| > 1 {
      NotInJoin(d, pieces[1..], c);
    }
  }

  /** Whatever the header, every parsed key and value is free of separators. */
  lemma {:induction false} PairsArePlain(items: seq<string>)
    requires forall i :: 0 <= i < |items| ==> ',' !in items[i]
    ensures forall p :: p in Pairs(items) ==> Plain(p.0) && Plain(p.1)
  {
    if items != [] {
      var kv := Explode.Split("=", items[0]);
      Explode.OneCharCuts('=', kv);
      forall k | 0 <= k < |kv| ensures Plain(kv[k]) {
        if ',' in kv[k] {
          Explode.JoinChars("=", kv, k, ',');
        }
      }
      PairsArePlain(items[1..]);
    }
  }

  lemma {:induction false} BindPlain(m: map<string, string>, pairs: seq<Pair>)
    requires PlainMap(m) && forall p :: p in pairs ==> Plain(p.0) && Plain(p.1)
    ensures PlainMap(Bind(m, pairs))
    decreases |pairs|
  {
    if pairs != [] {
      BindPlain(m[pairs[0].0 := pairs[0].1], pairs[1..]);
    }
  }

  /** Without separators in the map, the receiver adds one entry per key, in iteration order. */
  lemma BaggagePairs(m: map<string, string>, order: seq<string>)
    requires IterationOrder(m, order) && PlainMap(m)
    ensures |ParseBaggage(FormatBaggage(m, order))| == |order|
    ensures forall i :: 0 <= i < |order| ==> ParseBaggage(FormatBaggage(m, order))[i] == (order[i], m[order[i]])
  {
    if order != [] {
      var items := Items(m, order);
      forall i | 0 <= i < |items| ensures ',' !in items[i] {
        assert Plain(order[i]) && Plain(m[order[i]]);
      }
      Explode.SplitJoin(',', items);
      FormatNonEmpty(m, order);
      PairsOfItems(m, order);
    }
  }

  lemma FormatNonEmpty(m: map<string, string>, order: seq<string>)
    requires order != [] && forall k :: k in order ==> k in m
    ensures FormatBaggage(m, order) != ""
  {
    assert '=' in Items(m, order)[0];
    Explode.JoinChars(",", Items(m, order), 0, '=');
  }

  /** A baggage map survives the trip through the header, in every iteration order, exactly when none of
      its keys and values contains a separator. */
  lemma BaggageRoundTrip(m: map<string, string>, order: seq<string>)
    requires IterationOrder(m, order)
    ensures Bind(map[], ParseBaggage(FormatBaggage(m, order))) == m <==> PlainMap(m)
  {
    var header := FormatBaggage(m, order);
    var pairs := ParseBaggage(header);
    if PlainMap(m) {
      BaggagePairs(m, order);
      BindOrder(map[], m, order, pairs);
    }
    ParsedPlain(header);
    BindPlain(map[], pairs);
  }

  lemma ParsedPlain(header: string)
    ensures forall p :: p in ParseBaggage(header) ==> Plain(p.0) && Plain(p.1)
  {
    if header != "" {
      var items := Explode.Split(",", header);
      Explode.OneCharCuts(',', items);
      PairsArePlain(items);
    }
  }
}
