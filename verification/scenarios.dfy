/** Worked cases of the index, the query and the filters on small concrete
    configurations and feature tags. */
module Scenarios {
  import opened Wrappers
  import opened Tags
  import opened Mappings
  import opened TagIndex
  import opened MappingQuery
  import opened TagFilters

  const Highway: Tag := Tag("highway", "primary")
  const MainSt: Tag := Tag("name", "Main St")

  /** A node index where `highway` is the only relevant key: an unconfigured
      tag goes, `name` stays beside a relevant tag, and a lone `name` goes. */
  lemma NodeFilterExamples(tm: TagMapper)
    requires tm.point.relevant == map["highway" := {"primary"}]
    ensures NodeFilter(tm, [Highway, MainSt, Tag("fixme", "yes")]) == [Highway, MainSt]
    ensures NodeFilter(tm, [MainSt]) == []
  {
    var tags := [Highway, MainSt, Tag("fixme", "yes")];
    var r := NodeFilter(tm, tags);
    assert Highway in r && MainSt in r;
    assert Tag("fixme", "yes") !in r;
    SubseqElements(r, tags);
    assert |r| == 2 by {
      if |r| == 3 {
        SubseqSameLength(r, tags);
      }
    }
    assert r[0] != Tag("fixme", "yes") && r[1] != Tag("fixme", "yes");
    assert r[0] != r[1] by {
      SubseqUniqueKeys(r, tags);
    }
    SubseqOrder(r, tags);
  }

  /** The two kept tags come out in input order. */
  lemma SubseqOrder(r: Tags, tags: Tags)
    requires tags == [Highway, MainSt, Tag("fixme", "yes")]
    requires Subseq(r, tags) && |r| == 2
    requires r[0] != Tag("fixme", "yes") && r[1] != Tag("fixme", "yes") && r[0] != r[1]
    ensures r == [Highway, MainSt]
  {
    SubseqElements(r, tags);
    assert r[0] in r && r[1] in r;
    if Subseq(r, tags[1..]) {
      SubseqSameLength(r, tags[1..]);
      assert false;
    }
    assert r[0] == Highway;
  }

  /** A relation whose `type` is neither multipolygon nor boundary loses all
      its tags, whatever the configuration. */
  lemma RelationIneligible(tm: TagMapper)
    ensures RelationFilter(tm, [Tag("type", "associatedStreet"), Tag("name", "X")]) == []
  {
    var tags := [Tag("type", "associatedStreet"), Tag("name", "X")];
    assert Tag("type", "associatedStreet") in tags;
    assert !Eligible(tags);
  }

  /** A multipolygon whose tags are all relevant passes unchanged. */
  lemma RelationBuilding(tm: TagMapper)
    requires "yes" in ValuesOf(tm.polygon.relevant, "building")
    ensures RelationFilter(tm, [Tag("type", "multipolygon"), Tag("building", "yes")]) ==
            [Tag("type", "multipolygon"), Tag("building", "yes")]
  {
    var tags := [Tag("type", "multipolygon"), Tag("building", "yes")];
    RelationUnchanged(tm, tags);
  }

  /** A multipolygon with only `type` and `name` passes unchanged too: the
      clearing rule applies only when filtering removed a tag. */
  lemma RelationNamedMultipolygon(tm: TagMapper, name: string)
    ensures RelationFilter(tm, [Tag("type", "multipolygon"), Tag("name", name)]) ==
            [Tag("type", "multipolygon"), Tag("name", name)]
  {
    var tags := [Tag("type", "multipolygon"), Tag("name", name)];
    RelationUnchanged(tm, tags);
  }

  lemma RelationUnchanged(tm: TagMapper, tags: Tags)
    requires |tags| == 2 && tags[0] == Tag("type", "multipolygon") && tags[1].key != "type"
    requires Kept(RelationRelevance(tm), tags[1])
    ensures UniqueKeys(tags)
    ensures RelationFilter(tm, tags) == tags
  {
    var rel := RelationRelevance(tm);
    assert Get(tags, "type") == Some("multipolygon") by {
      assert tags[0] in tags;
    }
    assert Kept(rel, tags[0]);
    var r := RelationFilter(tm, tags);
    assert !RemovesSome(rel, tags);
    assert forall t :: t in tags ==> t in r;
    SubseqElements(r, tags);
    SubseqLengthEq(r, tags);
    SubseqSameLength(r, tags);
  }

  /** Two line mappings on `highway`, one for any value and one for
      `primary` only. */
  const AnyRoad: Mapping := Mapping(1, "roads", Line, [Rule("highway", [ANY])], [], [])
  const PrimaryRoad: Mapping := Mapping(2, "primary_roads", Line, [Rule("highway", ["primary"])], [], [])

  /** A one-tag feature's ways query: the new candidates of the line index,
      then those of the polygon index. */
  lemma ForWaysOneTag(tm: TagMapper, t: Tag)
    ensures Flatten(ForWays(tm, [t])) == NewOnes(Candidates(tm.line.buckets, t), {}) + NewOnes(Candidates(tm.polygon.buckets, t), {})
  {
    OneTag(tm.line.buckets, t);
    OneTag(tm.polygon.buckets, t);
    FlattenAppend(MappingsForTags(tm.line.buckets, [t]), MappingsForTags(tm.polygon.buckets, [t]));
  }

  lemma OneTag(b: Buckets, t: Tag)
    ensures Flatten(MappingsForTags(b, [t])) == NewOnes(Candidates(b, t), {})
  {
    assert [t][1..] == [];
    var added := NewOnes(Candidates(b, t), {});
    if t.key in b && added != [] {
      assert MappingsForTags(b, [t]) == [Group(t, added)];
      assert Flatten([Group(t, added)]) == added + Flatten([]);
    }
  }

  lemma DeclaredPair(a: Mapping, b: Mapping, g: GeomClass, k: string, v: string)
    ensures DeclaredBucket([a, b], g, k, v) == Contribution(a, g, k, v) + Contribution(b, g, k, v)
  {
    assert [a, b][1..] == [b];
    assert [b][1..] == [];
    assert DeclaredBucket([b], g, k, v) == Contribution(b, g, k, v) + DeclaredBucket([], g, k, v);
    assert Contribution(b, g, k, v) + [] == Contribution(b, g, k, v);
  }

  /** A one-entry rule set listing one value lists `k`/`v` once or never. */
  lemma OneRule(rule: Rule, k: string, v: string)
    requires |rule.values| == 1
    ensures Occurrences([rule], k, v) == if rule.key == k && rule.values[0] == v then 1 else 0
  {
    assert [rule][1..] == [];
    assert rule.values[1..] == [];
    assert Count(rule.values, v) == (if rule.values[0] == v then 1 else 0) + Count([], v);
    assert Occurrences([rule], k, v) == (if rule.key == k then Count(rule.values, v) else 0) + Occurrences([], k, v);
  }

  /** The reference buckets of `highway` for the two road mappings. */
  lemma RoadDeclarations()
    ensures DeclaredBucket([AnyRoad, PrimaryRoad], Line, "highway", "primary") == [PrimaryRoad]
    ensures DeclaredBucket([AnyRoad, PrimaryRoad], Line, "highway", "residential") == []
    ensures DeclaredBucket([AnyRoad, PrimaryRoad], Line, "highway", ANY) == [AnyRoad]
    ensures forall v :: DeclaredBucket([AnyRoad, PrimaryRoad], Polygon, "highway", v) == []
  {
    var ms := [AnyRoad, PrimaryRoad];
    assert ms[1..] == [PrimaryRoad];
    assert ANY != "primary" && ANY != "residential";
    OneRule(Rule("highway", [ANY]), "highway", "primary");
    OneRule(Rule("highway", [ANY]), "highway", "residential");
    OneRule(Rule("highway", [ANY]), "highway", ANY);
    OneRule(Rule("highway", ["primary"]), "highway", "primary");
    OneRule(Rule("highway", ["primary"]), "highway", "residential");
    OneRule(Rule("highway", ["primary"]), "highway", ANY);
    assert Repeat(AnyRoad, 0) == [] && Repeat(PrimaryRoad, 0) == [];
    assert Repeat(AnyRoad, 1) == [AnyRoad] && Repeat(PrimaryRoad, 1) == [PrimaryRoad];
    DeclaredPair(AnyRoad, PrimaryRoad, Line, "highway", "primary");
    DeclaredPair(AnyRoad, PrimaryRoad, Line, "highway", "residential");
    DeclaredPair(AnyRoad, PrimaryRoad, Line, "highway", ANY);
    forall v
      ensures DeclaredBucket(ms, Polygon, "highway", v) == []
    {
      DeclaredPair(AnyRoad, PrimaryRoad, Polygon, "highway", v);
    }
    assert Occurrences(AnyRoad.rules, "highway", "primary") == 0;
    assert Occurrences(PrimaryRoad.rules, "highway", "primary") == 1;
    assert Occurrences(AnyRoad.rules, "highway", "residential") == 0;
    assert Occurrences(PrimaryRoad.rules, "highway", "residential") == 0;
    assert Occurrences(AnyRoad.rules, "highway", ANY) == 1;
    assert Occurrences(PrimaryRoad.rules, "highway", ANY) == 0;
  }

  /** The same buckets in the built index. */
  lemma RoadBuckets(ms: seq<Mapping>, tm: TagMapper)
    requires ms == [AnyRoad, PrimaryRoad]
    requires forall g, k, v :: BucketOf(tm.Sub(g).buckets, k, v) == DeclaredBucket(ms, g, k, v)
    ensures BucketOf(tm.line.buckets, "highway", "primary") == [PrimaryRoad]
    ensures BucketOf(tm.line.buckets, "highway", "residential") == []
    ensures BucketOf(tm.line.buckets, "highway", ANY) == [AnyRoad]
    ensures forall v :: BucketOf(tm.polygon.buckets, "highway", v) == []
  {
    RoadDeclarations();
    assert forall v :: BucketOf(tm.Sub(Line).buckets, "highway", v) == DeclaredBucket(ms, Line, "highway", v);
    assert forall v :: BucketOf(tm.Sub(Polygon).buckets, "highway", v) == DeclaredBucket(ms, Polygon, "highway", v);
    assert tm.Sub(Line) == tm.line && tm.Sub(Polygon) == tm.polygon;
  }

  /** For `highway=primary` only the exact mapping is returned: an exact
      bucket hides the wildcard one. Another value reaches the wildcard. */
  lemma ExactHidesWildcard()
    ensures Flatten(ForWays(Build([AnyRoad, PrimaryRoad]), [Highway])) == [PrimaryRoad]
    ensures Flatten(ForWays(Build([AnyRoad, PrimaryRoad]), [Tag("highway", "residential")])) == [AnyRoad]
  {
    var ms := [AnyRoad, PrimaryRoad];
    var tm := Build(ms);
    RoadBuckets(ms, tm);
    assert AllWF(tm);
    WaysOfOneMapping(tm, Highway, PrimaryRoad);
    WaysOfOneMapping(tm, Tag("highway", "residential"), AnyRoad);
  }

  /** A one-tag way whose line candidates are the single mapping `x` and
      which has no polygon candidates is classified as `x` alone. */
  lemma WaysOfOneMapping(tm: TagMapper, t: Tag, x: Mapping)
    requires WF(tm.line) && WF(tm.polygon)
    requires (if BucketOf(tm.line.buckets, t.key, t.value) != [] then BucketOf(tm.line.buckets, t.key, t.value)
              else BucketOf(tm.line.buckets, t.key, ANY)) == [x]
    requires BucketOf(tm.polygon.buckets, t.key, t.value) == [] && BucketOf(tm.polygon.buckets, t.key, ANY) == []
    ensures Flatten(ForWays(tm, [t])) == [x]
  {
    CandidatesWF(tm.line, t);
    CandidatesWF(tm.polygon, t);
    ForWaysOneTag(tm, t);
    assert NewOnes([x], {}) == [x];
  }
}
