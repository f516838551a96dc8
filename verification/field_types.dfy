/** The closed set of field types that convert a raw tag value into a column
    value, some of which can veto the whole feature. */
module FieldTypes {
  import opened Wrappers
  import opened Text
  import opened Tags

  datatype FieldType =
    | StringField
    | BoolField(negAliases: set<string>)
    | DirectionField
    | OneOfIntField(values: set<string>)
    | IntegerField
    | ZOrderField(types: seq<string>)
    | WayZOrderField

  /** A converted column value; `NullValue` is SQL NULL (Python's None). */
  datatype FieldValue = NullValue | StrValue(s: string) | IntValue(n: int)

  /** The values a `Bool` of the given default polarity reads as false. */
  function DefaultNegAliases(default: bool): set<string> {
    if default then {"false", "no", "0", "undefined"} else {"true", "yes", "1", "undefined"}
  }

  /** `Bool(default, neg_aliases)`: the constructor keeps `neg_aliases or
      aliases[default]`, so an empty (or absent) alias set falls back to the
      default polarity's set. */
  function MakeBool(default: bool, negAliases: set<string>): (ft: FieldType)
    ensures ft.BoolField? && ft.negAliases != {}
    ensures negAliases != {} ==> ft.negAliases == negAliases
    ensures negAliases == {} ==> ft.negAliases == DefaultNegAliases(default)
  {
    BoolField(if negAliases == {} then DefaultNegAliases(default) else negAliases)
  }

  /** `Bool.value`: 0 for an absent value or one whose normal form is a
      negated alias, 1 for everything else. */
  function BoolValue(negAliases: set<string>, raw: Option<string>): (r: int)
    ensures r == 0 || r == 1
    ensures r == 0 <==> raw.None? || Normalize(raw.value) in negAliases
  {
    if raw.None? || Normalize(raw.value) in negAliases then 0 else 1
  }

  /** `Bool.filter`: drops the feature when the value reads as true. */
  function BoolFilter(negAliases: set<string>, raw: Option<string>): (r: Result<()>)
    ensures r.Drop? <==> raw.Some? && Normalize(raw.value) !in negAliases
  {
    if BoolValue(negAliases, raw) != 0 then Drop else Ok(())
  }

  /** A Bool reads a value exactly as it reads the value's normal form:
      surrounding whitespace and letter case never matter. */
  lemma BoolNormalForm(negAliases: set<string>, s: string)
    ensures BoolValue(negAliases, Some(s)) == BoolValue(negAliases, Some(Normalize(s)))
  {
    NormalizeIdempotent(s);
  }

  /** The default-polarity Bool (`Bool()`): absence and "no" read 0, "yes"
      reads 1. */
  lemma BoolDefaults()
    ensures BoolValue(MakeBool(true, {}).negAliases, None) == 0
    ensures BoolValue(MakeBool(true, {}).negAliases, Some("yes")) == 1
    ensures BoolValue(MakeBool(true, {}).negAliases, Some("no")) == 0
  {
    NormalForm("yes");
    NormalForm("no");
    assert "yes" !in DefaultNegAliases(true);
    assert "no" in DefaultNegAliases(true);
  }

  /** The default Bool as a filter (e.g. on `area`) drops "yes" and keeps
      "no" and absence. */
  lemma BoolFilterDefaults()
    ensures BoolFilter(MakeBool(true, {}).negAliases, Some("yes")).Drop?
    ensures BoolFilter(MakeBool(true, {}).negAliases, Some("no")).Ok?
    ensures BoolFilter(MakeBool(true, {}).negAliases, None).Ok?
  {
    BoolDefaults();
  }

  /** `Direction.value`: yes/true/1 give 1, -1 gives -1 (after stripping
      and lower-casing), anything else, absence included, gives 0. */
  function DirectionValue(raw: Option<string>): (r: int)
    ensures -1 <= r <= 1
    ensures r == 1 <==> raw.Some? && Normalize(raw.value) in {"yes", "true", "1"}
    ensures r == -1 <==> raw.Some? && Normalize(raw.value) == "-1"
  {
    if raw.Some? && raw.value != "" then
      var v := Normalize(raw.value);
      if v in {"yes", "true", "1"} then 1
      else if v == "-1" then -1
      else 0
    else 0
  }

  /** Direction reads a value exactly as it reads the value's normal form. */
  lemma DirectionNormalForm(s: string)
    ensures DirectionValue(Some(s)) == DirectionValue(Some(Normalize(s)))
  {
    NormalizeIdempotent(s);
  }

  /** A configured `OneOfInt`: every listed value is an integer literal
      (otherwise the `int()` in `OneOfInt.value` raises an error that is not a drop). */
  predicate ValidOneOf(values: set<string>) {
    forall v :: v in values ==> ParseInt(v).Some?
  }

  /** `OneOfInt.value`: the integer a listed value denotes; any unlisted
      or absent value drops the feature. */
  function OneOfIntValue(values: set<string>, raw: Option<string>): (r: Result<int>)
    requires ValidOneOf(values)
    ensures r.Ok? <==> raw.Some? && raw.value in values
    ensures r.Ok? ==> ParseInt(raw.value) == Some(r.value)
  {
    if raw.Some? && raw.value in values then Ok(ParseInt(raw.value).value) else Drop
  }

  /** `OneOfInt({"1", "2", "3"})` accepts "2" as 2 and drops "4". */
  lemma OneOfIntExample()
    ensures OneOfIntValue({"1", "2", "3"}, Some("2")) == Ok(2)
    ensures OneOfIntValue({"1", "2", "3"}, Some("4")) == Drop
  {
    assert DigitsValue("2") == 2 by {
      assert "2"[..0] == "";
    }
  }

  /** Every listed rendering of an integer converts back to that integer. */
  lemma {:induction false} OneOfIntRoundTrip(values: set<string>, n: int)
    requires ValidOneOf(values) && FormatInt(n) in values
    ensures OneOfIntValue(values, Some(FormatInt(n))) == Ok(n)
  {
    ParseFormat(n);
  }

  /** `Integer.value`: the parsed integer, or None (NULL) when the value is
      absent or does not parse. */
  function IntegerValue(raw: Option<string>): (r: Option<int>)
    ensures raw.None? ==> r.None?
    ensures raw.Some? ==> r == ParseInt(raw.value)
  {
    match raw
    case None => None
    case Some(s) => ParseInt(s)
  }

  /** Integer gives back every integer written in decimal, and NULL for
      text that is not a number. */
  lemma IntegerRoundTrip(n: int)
    ensures IntegerValue(Some(FormatInt(n))) == Some(n)
    ensures IntegerValue(Some("abc")) == None
    ensures IntegerValue(None) == None
  {
    ParseFormat(n);
    assert !IsDigit("abc"[0]);
  }

  /** The rank table `ZOrder(types)` builds: `types` enumerated in reverse,
      a later assignment overwriting an earlier one. */
  function RankTable(types: seq<string>): (rank: map<string, int>)
    ensures rank.Keys == Elems(types)
    ensures forall i :: 0 <= i < |types| && types[i] !in types[..i] ==> rank[types[i]] == |types| - 1 - i
  {
    if types == [] then map[]
    else
      var rest := RankTable(types[1..]);
      RankTableStep(types, rest);
      rest[types[0] := |types| - 1]
  }

  lemma RankTableStep(types: seq<string>, rest: map<string, int>)
    requires |types| > 0
    requires rest.Keys == Elems(types[1..])
    requires forall i :: 0 <= i < |types| - 1 && types[1..][i] !in types[1..][..i] ==> rest[types[1..][i]] == |types| - 2 - i
    ensures rest[types[0] := |types| - 1].Keys == Elems(types)
    ensures forall i :: 0 <= i < |types| && types[i] !in types[..i] ==> rest[types[0] := |types| - 1][types[i]] == |types| - 1 - i
  {
    ElemsCons(types);
    forall i | 0 < i < |types| && types[i] !in types[..i]
      ensures rest[types[0] := |types| - 1][types[i]] == |types| - 1 - i
    {
      RankTableAt(types, rest, i);
    }
  }

  /** A later first occurrence keeps the rank it had in the tail. */
  lemma RankTableAt(types: seq<string>, rest: map<string, int>, i: int)
    requires 0 < i < |types| && types[i] !in types[..i]
    requires rest.Keys == Elems(types[1..])
    requires forall j :: 0 <= j < |types| - 1 && types[1..][j] !in types[1..][..j] ==> rest[types[1..][j]] == |types| - 2 - j
    ensures rest[types[0] := |types| - 1][types[i]] == |types| - 1 - i
  {
    var tail := types[1..];
    var j := i - 1;
    assert tail[j] == types[i];
    assert types[0] == types[..i][0];
    assert types[i] != types[0];
    forall k | 0 <= k < j
      ensures tail[..j][k] != tail[j]
    {
      assert types[..i][k + 1] == tail[..j][k];
    }
    assert tail[j] !in tail[..j];
    assert rest[tail[j]] == |types| - 2 - j;
  }

  /** `ZOrder.value`: the rank of the feature's type, 0 when unranked. */
  function ZOrderValue(types: seq<string>, kind: string): (r: int)
    ensures kind in types ==> r == |types| - 1 - IndexOf(types, kind)
    ensures kind !in types ==> r == 0
  {
    var rank := RankTable(types);
    if kind in rank then rank[kind] else 0
  }

  /** The first listed type ranks highest, an earlier listed type outranks a
      later one, and unlisted types rank 0. */
  lemma ZOrderRanking(types: seq<string>, i: int, j: int, kind: string)
    requires 0 <= i < j < |types|
    requires types[i] !in types[..i] && types[j] !in types[..j]
    ensures ZOrderValue(types, types[0]) == |types| - 1
    ensures ZOrderValue(types, types[j]) < ZOrderValue(types, types[i])
    ensures kind !in types ==> ZOrderValue(types, kind) == 0
  {
    assert types[..0] == [];
  }

  /** The last listed type ranks 0, the same as a type not listed at all. */
  lemma ZOrderLastTiesUnlisted(types: seq<string>, kind: string)
    requires |types| > 0 && types[|types| - 1] !in types[..|types| - 1]
    requires kind !in types
    ensures ZOrderValue(types, types[|types| - 1]) == ZOrderValue(types, kind) == 0
  {
  }

  /** The highway classes `WayZOrder` ranks. */
  const RoadRank: map<string, int> := map[
    "minor" := 3, "road" := 3, "unclassified" := 3, "residential" := 3,
    "tertiary_link" := 3, "tertiary" := 4, "secondary_link" := 3, "secondary" := 5,
    "primary_link" := 3, "primary" := 6, "trunk_link" := 3, "trunk" := 8,
    "motorway_link" := 3, "motorway" := 9]

  /** The aliases of the default `Bool()` used for `tunnel` and `bridge`. */
  const BrunnelNegAliases: set<string> := MakeBool(true, {}).negAliases

  /** `WayZOrder.layer`: the `layer` tag as an integer, 0 when missing or
      not a number. */
  function Layer(tags: Tags): (l: int)
    ensures Get(tags, "layer").None? ==> l == 0
    ensures Get(tags, "layer").Some? && ParseInt(Get(tags, "layer").value).None? ==> l == 0
    ensures Get(tags, "layer").Some? && ParseInt(Get(tags, "layer").value).Some? ==> l == ParseInt(Get(tags, "layer").value).value
  {
    match Get(tags, "layer")
    case None => 0
    case Some(s) => ParseInt(s).GetOr(0)
  }

  /** The road-class part of `WayZOrder`: the table rank of the type, else 7
      for a feature with a `railway` tag, else 0. */
  function KindRank(kind: string, tags: Tags): (r: int)
    ensures 0 <= r <= 9
    ensures kind in RoadRank ==> r == RoadRank[kind]
    ensures kind !in RoadRank ==> r == (if HasKey(tags, "railway") then 7 else 0)
  {
    var r := if kind in RoadRank then RoadRank[kind] else 0;
    if r == 0 then (if HasKey(tags, "railway") then 7 else 0) else r
  }

  /** Whether the `tunnel` / `bridge` tag reads as true. */
  function Tunnel(tags: Tags): int {
    BoolValue(BrunnelNegAliases, Get(tags, "tunnel"))
  }

  function Bridge(tags: Tags): int {
    BoolValue(BrunnelNegAliases, Get(tags, "bridge"))
  }

  /** `WayZOrder.value`: ten per layer plus the road rank, then ten down for
      a tunnel and ten up for a bridge, in the order `WayZOrder.value` adds
      them. */
  function WayZOrderValue(elem: Element): (z: int)
    ensures z == 10 * (Layer(elem.tags) + Bridge(elem.tags) - Tunnel(elem.tags)) + KindRank(elem.kind, elem.tags)
  {
    var z0 := Layer(elem.tags) * 10;
    var z1 := z0 + KindRank(elem.kind, elem.tags);
    var z2 := if Tunnel(elem.tags) != 0 then z1 - 10 else z1;
    if Bridge(elem.tags) != 0 then z2 + 10 else z2
  }

  /** The decimal digits of the z-order split cleanly: the tens give the
      vertical level (layer, one up for a bridge, one down for a tunnel) and
      the units the road class. So a feature on a higher level is always
      drawn above one on a lower level, whatever their classes. */
  lemma WayZOrderDecomposes(a: Element, b: Element)
    ensures WayZOrderValue(a) / 10 == Layer(a.tags) + Bridge(a.tags) - Tunnel(a.tags)
    ensures WayZOrderValue(a) % 10 == KindRank(a.kind, a.tags)
    ensures Layer(a.tags) + Bridge(a.tags) - Tunnel(a.tags) < Layer(b.tags) + Bridge(b.tags) - Tunnel(b.tags)
            ==> WayZOrderValue(a) < WayZOrderValue(b)
  {
    var lev := Layer(a.tags) + Bridge(a.tags) - Tunnel(a.tags);
    var k := KindRank(a.kind, a.tags);
    assert WayZOrderValue(a) == 10 * lev + k;
    assert (10 * lev + k) / 10 == lev;
  }

  /** The tags of a bridge in layer 1. */
  predicate BridgeTags(tags: Tags) {
    tags == [Tag("bridge", "yes"), Tag("layer", "1")]
  }

  lemma BridgeTagsGet(tags: Tags)
    requires BridgeTags(tags)
    ensures Get(tags, "layer") == Some("1")
    ensures Get(tags, "bridge") == Some("yes")
    ensures Get(tags, "tunnel") == None
  {
    assert tags[0] in tags && tags[1] in tags;
    assert UniqueKeys(tags);
    assert !HasKey(tags, "tunnel");
  }

  lemma ExampleLayer(tags: Tags)
    requires BridgeTags(tags)
    ensures Layer(tags) == 1
  {
    BridgeTagsGet(tags);
    assert "1"[..0] == "";
    assert DigitsValue("1") == 1;
  }

  lemma ExampleBrunnel(tags: Tags)
    requires BridgeTags(tags)
    ensures Bridge(tags) == 1
    ensures Tunnel(tags) == 0
  {
    BridgeTagsGet(tags);
    NormalForm("yes");
    assert "yes" !in BrunnelNegAliases;
  }

  /** A primary road on a bridge in layer 1 has z-order 1*10 + 6 + 10. */
  lemma WayZOrderExample(tags: Tags)
    requires BridgeTags(tags)
    ensures WayZOrderValue(Element(tags, "primary", "")) == 26
  {
    assert RoadRank["primary"] == 6;
    ExampleLayer(tags);
    ExampleBrunnel(tags);
  }

  /** A field type as configured: a `Bool` holds some negated alias (its
      constructor falls back to the default set, see `MakeBool`), and a
      `OneOfInt` lists integer literals. */
  predicate ValidFieldType(ft: FieldType) {
    && (ft.BoolField? ==> ft.negAliases != {})
    && (ft.OneOfIntField? ==> ValidOneOf(ft.values))
  }

  /** `FieldType.value` for each variant: the converted column value, or a
      drop. Only `OneOfInt` can drop; every other conversion is total. */
  function ConvertValue(ft: FieldType, raw: Option<string>, elem: Element): (r: Result<FieldValue>)
    requires ValidFieldType(ft)
    ensures r.Drop? <==> ft.OneOfIntField? && !(raw.Some? && raw.value in ft.values)
    ensures ft.StringField? ==> r == Ok(if raw.None? then NullValue else StrValue(raw.value))
    ensures ft.BoolField? ==> r == Ok(IntValue(BoolValue(ft.negAliases, raw)))
    ensures ft.DirectionField? ==> r == Ok(IntValue(DirectionValue(raw)))
    ensures ft.OneOfIntField? && r.Ok? ==> r.value.IntValue? && raw.Some? && ParseInt(raw.value) == Some(r.value.n)
    ensures ft.IntegerField? && r.value.IntValue? ==> raw.Some? && ParseInt(raw.value) == Some(r.value.n)
    ensures ft.IntegerField? ==> (r == Ok(NullValue) <==> IntegerValue(raw).None?)
    ensures ft.IntegerField? ==> r == Ok(if IntegerValue(raw).Some? then IntValue(IntegerValue(raw).value) else NullValue)
    ensures ft.ZOrderField? ==> r == Ok(IntValue(ZOrderValue(ft.types, elem.kind)))
    ensures ft.WayZOrderField? ==> r == Ok(IntValue(WayZOrderValue(elem)))
  {
    match ft
    case StringField => Ok(if raw.None? then NullValue else StrValue(raw.value))
    case BoolField(neg) => Ok(IntValue(BoolValue(neg, raw)))
    case DirectionField => Ok(IntValue(DirectionValue(raw)))
    case OneOfIntField(values) =>
      (match OneOfIntValue(values, raw)
       case Ok(n) => Ok(IntValue(n))
       case Drop => Drop)
    case IntegerField =>
      (match IntegerValue(raw)
       case Some(n) => Ok(IntValue(n))
       case None => Ok(NullValue))
    case ZOrderField(types) => Ok(IntValue(ZOrderValue(types, elem.kind)))
    case WayZOrderField => Ok(IntValue(WayZOrderValue(elem)))
  }
}
