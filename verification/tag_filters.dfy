/** Tag filters: strip a feature's tags down to those that can influence
    classification or output, before they are cached (`_tag_filter` and the
    `tag_filter_for_nodes` / `_ways` / `_relations` factories). */
module TagFilters {
  import opened Wrappers
  import opened Tags
  import opened Mappings
  import opened TagIndex

  /** A tag survives when its key is relevant and the key's relevant values
      hold `ANY` or the tag's own value. */
  predicate Relevant(rel: Relevance, t: Tag) {
    t.key in rel && (ANY in rel[t.key] || t.value in rel[t.key])
  }

  /** The deletion loop: the relevant tags, in their order. */
  function KeepRelevant(rel: Relevance, tags: Tags): (r: Tags)
    ensures Subseq(r, tags)
    ensures forall t :: t in r <==> t in tags && Relevant(rel, t)
  {
    if tags == [] then []
    else
      var rest := KeepRelevant(rel, tags[1..]);
      assert forall t :: t in tags <==> t == tags[0] || t in tags[1..];
      if Relevant(rel, tags[0]) then
        assert ([tags[0]] + rest)[1..] == rest;
        [tags[0]] + rest
      else rest
  }

  /** `name` is always wildcard-relevant for a filter. */
  function WithName(rel: Relevance): Relevance {
    rel["name" := {ANY}]
  }

  /** The tags a base filter over `rel` keeps: `name`, and the relevant ones. */
  predicate Kept(rel: Relevance, t: Tag) {
    t.key == "name" || Relevant(rel, t)
  }

  lemma KeptWithName(rel: Relevance, t: Tag)
    ensures Relevant(WithName(rel), t) <==> Kept(rel, t)
  {
  }

  /** The filter `_tag_filter(rel)` returns: the kept tags, unless `name` is
      the only one left, in which case nothing. The result keeps the input
      order, holds only kept tags, is empty exactly when no kept tag but
      `name` exists, and otherwise holds every kept tag. */
  function BaseFilter(rel: Relevance, tags: Tags): (r: Tags)
    requires UniqueKeys(tags)
    ensures Subseq(r, tags)
    ensures forall t :: t in r ==> Kept(rel, t)
    ensures r == [] <==> forall t :: t in tags && Kept(rel, t) ==> t.key == "name"
    ensures r != [] ==> forall t :: t in tags && Kept(rel, t) ==> t in r
  {
    var kept := KeepRelevant(WithName(rel), tags);
    SubseqUniqueKeys(kept, tags);
    assert forall t :: t in kept <==> t in tags && Kept(rel, t);
    if HasKey(kept, "name") && |kept| == 1 then
      assert forall t :: t in kept ==> t == kept[0];
      []
    else
      assert kept != [] ==> exists t :: t in kept && t.key != "name" by {
        if kept != [] {
          assert kept[0] in kept;
          if |kept| > 1 {
            assert kept[1] in kept;
            assert kept[0].key != kept[1].key;
          }
        }
      }
      kept
  }

  /** Filtering twice is filtering once: a filtered tag list passes its
      filter unchanged. */
  lemma BaseFilterIdempotent(rel: Relevance, tags: Tags)
    requires UniqueKeys(tags)
    ensures UniqueKeys(BaseFilter(rel, tags))
    ensures BaseFilter(rel, BaseFilter(rel, tags)) == BaseFilter(rel, tags)
  {
    var r := BaseFilter(rel, tags);
    SubseqUniqueKeys(r, tags);
    var r2 := BaseFilter(rel, r);
    if r != [] {
      assert exists t :: t in tags && Kept(rel, t) && t.key != "name";
      var t :| t in tags && Kept(rel, t) && t.key != "name";
      assert t in r;
      assert r2 != [];
      SubseqElements(r2, r);
      KeepAll(rel, r);
    }
  }

  lemma {:induction false} KeepAll(rel: Relevance, tags: Tags)
    requires forall t :: t in tags ==> Kept(rel, t)
    ensures KeepRelevant(WithName(rel), tags) == tags
  {
    if tags != [] {
      assert tags[0] in tags;
      assert forall t :: t in tags[1..] ==> t in tags;
      KeepAll(rel, tags[1..]);
      assert tags == [tags[0]] + tags[1..];
    }
  }

  /** Union of two relevance maps (the two `setdefault(...).update(...)` loops). */
  function UnionRelevance(a: Relevance, b: Relevance): (r: Relevance)
    ensures r.Keys == a.Keys + b.Keys
    ensures forall k :: ValuesOf(r, k) == ValuesOf(a, k) + ValuesOf(b, k)
  {
    map k | k in a.Keys + b.Keys :: ValuesOf(a, k) + ValuesOf(b, k)
  }

  /** The relevance the node filter uses: the point index's. */
  function NodeRelevance(tm: TagMapper): Relevance {
    tm.point.relevant
  }

  /** The relevance the way filter uses: line and polygon combined. */
  function WayRelevance(tm: TagMapper): Relevance {
    UnionRelevance(tm.line.relevant, tm.polygon.relevant)
  }

  /** The relevance the relation filter uses: as for ways, with `type`
      relevant for exactly `multipolygon` and `boundary`. */
  function RelationRelevance(tm: TagMapper): Relevance {
    WayRelevance(tm)["type" := {"multipolygon", "boundary"}]
  }

  /** A tag of a union is relevant exactly when it is relevant to either
      part. */
  lemma {:induction false} RelevantUnion(a: Relevance, b: Relevance, t: Tag)
    ensures Relevant(UnionRelevance(a, b), t) <==> Relevant(a, t) || Relevant(b, t)
  {
    var u := UnionRelevance(a, b);
    assert ValuesOf(u, t.key) == ValuesOf(a, t.key) + ValuesOf(b, t.key);
  }

  /** `tag_filter_for_nodes()`: keeps `name` and the tags the point index
      finds relevant, in order, unless `name` would be the only one left. */
  function NodeFilter(tm: TagMapper, tags: Tags): (r: Tags)
    requires UniqueKeys(tags)
    ensures Subseq(r, tags)
    ensures forall t :: t in r ==> t.key == "name" || Relevant(tm.point.relevant, t)
    ensures r == [] <==> forall t :: t in tags && Relevant(tm.point.relevant, t) ==> t.key == "name"
    ensures r != [] ==> forall t :: t in tags && (t.key == "name" || Relevant(tm.point.relevant, t)) ==> t in r
  {
    BaseFilter(NodeRelevance(tm), tags)
  }

  /** `tag_filter_for_ways()`: as for nodes, a tag counting as relevant
      when the line or the polygon index finds it relevant. */
  function WayFilter(tm: TagMapper, tags: Tags): (r: Tags)
    requires UniqueKeys(tags)
    ensures Subseq(r, tags)
    ensures forall t :: t in r ==> t.key == "name" || Relevant(tm.line.relevant, t) || Relevant(tm.polygon.relevant, t)
    ensures r == [] <==> forall t :: t in tags && (Relevant(tm.line.relevant, t) || Relevant(tm.polygon.relevant, t)) ==> t.key == "name"
    ensures r != [] ==> forall t :: t in tags && (t.key == "name" || Relevant(tm.line.relevant, t) || Relevant(tm.polygon.relevant, t)) ==> t in r
  {
    var r := BaseFilter(WayRelevance(tm), tags);
    forall t
      ensures Relevant(WayRelevance(tm), t) <==> Relevant(tm.line.relevant, t) || Relevant(tm.polygon.relevant, t)
    {
      RelevantUnion(tm.line.relevant, tm.polygon.relevant, t);
    }
    r
  }

  /** Relations that are area candidates: multipolygons, and boundaries that
      carry a `boundary` tag. */
  predicate Eligible(tags: Tags) {
    || Get(tags, "type") == Some("multipolygon")
    || (Get(tags, "type") == Some("boundary") && HasKey(tags, "boundary"))
  }

  /** The base filter would remove some tag. */
  predicate RemovesSome(rel: Relevance, tags: Tags) {
    exists t :: t in tags && !Kept(rel, t)
  }

  /** Every tag the base filter keeps is `type` or `name`. */
  predicate OnlyTypeOrName(rel: Relevance, tags: Tags) {
    forall t :: t in tags && Kept(rel, t) ==> t.key == "type" || t.key == "name"
  }

  /** `tag_filter_for_relations()`. An ineligible relation loses all its
      tags. An eligible one loses them all exactly when filtering removes
      some tag and nothing but `type` and `name` would be left; otherwise it
      keeps exactly its kept tags, `type` among them. */
  function RelationFilter(tm: TagMapper, tags: Tags): (r: Tags)
    requires UniqueKeys(tags)
    ensures Subseq(r, tags)
    ensures !Eligible(tags) ==> r == []
    ensures Eligible(tags) ==>
      (r == [] <==> RemovesSome(RelationRelevance(tm), tags) && OnlyTypeOrName(RelationRelevance(tm), tags))
    ensures r != [] ==> forall t :: t in r <==> t in tags && Kept(RelationRelevance(tm), t)
    ensures r != [] ==> HasKey(r, "type")
  {
    if !Eligible(tags) then []
    else
      var rel := RelationRelevance(tm);
      var f := BaseFilter(rel, tags);
      RelationFilterStep(rel, tags, f);
      if |f| < |tags| && (forall t :: t in f ==> t.key == "type" || t.key == "name") then [] else f
  }

  lemma RelationFilterStep(rel: Relevance, tags: Tags, f: Tags)
    requires UniqueKeys(tags) && Eligible(tags)
    requires "type" in rel && rel["type"] == {"multipolygon", "boundary"}
    requires f == BaseFilter(rel, tags)
    ensures f != [] && HasKey(f, "type")
    ensures forall t :: t in f <==> t in tags && Kept(rel, t)
    ensures |f| < |tags| <==> RemovesSome(rel, tags)
    ensures (forall t :: t in f ==> t.key == "type" || t.key == "name") <==> OnlyTypeOrName(rel, tags)
  {
    var ty := Tag("type", Get(tags, "type").value);
    assert ty in tags && Kept(rel, ty);
    assert f != [];
    assert ty in f;
    SubseqElements(f, tags);
    if |f| == |tags| {
      SubseqSameLength(f, tags);
    }
    if !RemovesSome(rel, tags) {
      assert forall t :: t in tags ==> t in f;
      if |f| < |tags| {
        assert forall i :: 0 <= i < |tags| ==> tags[i] in f;
        SubseqLengthEq(f, tags);
      }
    }
  }

  lemma SubseqLengthEq(f: Tags, tags: Tags)
    requires Subseq(f, tags) && UniqueKeys(tags)
    requires forall t :: t in tags ==> t in f
    ensures |f| == |tags|
  {
    SubseqUniqueKeys(f, tags);
    SubseqElements(f, tags);
    var sf := set t | t in f;
    var st := set t | t in tags;
    assert sf == st;
    DistinctCard(f);
    DistinctCard(tags);
  }

  lemma {:induction false} DistinctCard(s: Tags)
    requires UniqueKeys(s)
    ensures |set t | t in s| == |s|
  {
    if s != [] {
      assert UniqueKeys(s[1..]) by {
        assert forall i :: 0 <= i < |s| - 1 ==> s[1..][i] == s[i + 1];
      }
      DistinctCard(s[1..]);
      assert (set t | t in s) == {s[0]} + (set t | t in s[1..]);
      assert s[0] !in s[1..];
    }
  }
}
