/** Querying the index: which mappings a feature's tags select
    (`_mapping_for_tags` and the `for_nodes` / `for_ways` / `for_relations`
    entry points). */
module MappingQuery {
  import opened Wrappers
  import opened Tags
  import opened Mappings
  import opened TagIndex

  /** The mappings newly selected by one tag of the feature. */
  datatype Group = Group(tag: Tag, mappings: seq<Mapping>)

  /** The mappings one tag selects in an index: the exact-value bucket when
      there is one, otherwise the `ANY` bucket, otherwise none. */
  function Candidates(b: Buckets, t: Tag): seq<Mapping> {
    if t.key in b then
      var inner := b[t.key];
      if t.value in inner then inner[t.value]
      else if ANY in inner then inner[ANY]
      else []
    else []
  }

  /** The candidates not seen before, each once, in order of first
      occurrence (the loop over `mappings` with `mapping_set`). */
  function NewOnes(cands: seq<Mapping>, seen: set<Mapping>): (r: seq<Mapping>)
    ensures Distinct(r)
    ensures forall m :: m in r <==> m in cands && m !in seen
    ensures Subseq(r, cands)
    ensures FirstOccurrenceOrder(r, cands)
    decreases |cands|
  {
    if cands == [] then []
    else if cands[0] in seen then
      var rest := NewOnes(cands[1..], seen);
      IndexOfShift(cands, rest);
      rest
    else
      var rest := NewOnes(cands[1..], seen + {cands[0]});
      var r := [cands[0]] + rest;
      assert r[1..] == rest;
      IndexOfShift(cands, rest);
      assert forall j :: 0 < j < |r| ==> r[j] == rest[j - 1];
      r
  }

  /** An order of first occurrences in the tail that avoids the head is one
      in the whole sequence, each position one further on. */
  lemma {:induction false} IndexOfShift<T>(s: seq<T>, r: seq<T>)
    requires s != [] && s[0] !in r
    requires FirstOccurrenceOrder(r, s[1..])
    ensures FirstOccurrenceOrder(r, s)
    ensures forall x :: x in r ==> IndexOf(s, x) == 1 + IndexOf(s[1..], x)
  {
    forall x | x in r
      ensures x in s && IndexOf(s, x) == 1 + IndexOf(s[1..], x)
    {
      assert x != s[0];
    }
    forall i, j | 0 <= i < j < |r|
      ensures IndexOf(s, r[i]) < IndexOf(s, r[j])
    {
      assert r[i] in r && r[j] in r;
    }
  }

  /** All mappings of a list of groups, group after group. */
  function Flatten(groups: seq<Group>): seq<Mapping> {
    if groups == [] then [] else groups[0].mappings + Flatten(groups[1..])
  }

  lemma {:induction false} FlattenAppend(a: seq<Group>, b: seq<Group>)
    ensures Flatten(a + b) == Flatten(a) + Flatten(b)
  {
    if a != [] {
      FlattenAppend(a[1..], b);
      assert (a + b)[0] == a[0];
      assert (a + b)[1..] == a[1..] + b;
      assert Flatten(a + b) == a[0].mappings + Flatten(a[1..] + b);
    } else {
      assert a + b == b;
    }
  }

  lemma {:induction false} InFlatten(groups: seq<Group>, m: Mapping)
    ensures m in Flatten(groups) <==> exists i :: 0 <= i < |groups| && m in groups[i].mappings
  {
    if groups != [] {
      InFlatten(groups[1..], m);
      assert forall i :: 1 <= i < |groups| ==> groups[i] == groups[1..][i - 1];
      if m in Flatten(groups[1..]) {
        var i :| 0 <= i < |groups[1..]| && m in groups[1..][i].mappings;
        assert m in groups[i + 1].mappings;
      }
    }
  }

  /** The tag that opened each group. */
  function GroupTags(groups: seq<Group>): (r: seq<Tag>)
    ensures |r| == |groups|
    ensures forall i :: 0 <= i < |groups| ==> r[i] == groups[i].tag
  {
    if groups == [] then [] else [groups[0].tag] + GroupTags(groups[1..])
  }

  /** Everything any of the tags selects. */
  function AllCandidates(b: Buckets, tags: Tags): set<Mapping> {
    if tags == [] then {} else Elems(Candidates(b, tags[0])) + AllCandidates(b, tags[1..])
  }

  lemma {:induction false} InAllCandidates(b: Buckets, tags: Tags, m: Mapping)
    ensures m in AllCandidates(b, tags) <==> exists i :: 0 <= i < |tags| && m in Candidates(b, tags[i])
  {
    if tags != [] {
      InAllCandidates(b, tags[1..], m);
      assert forall i :: 1 <= i < |tags| ==> tags[i] == tags[1..][i - 1];
      if m in AllCandidates(b, tags[1..]) {
        var i :| 0 <= i < |tags[1..]| && m in Candidates(b, tags[1..][i]);
        assert m in Candidates(b, tags[i + 1]);
      }
    }
  }

  /** The first of the tags whose candidates include `m`, if any: the tag
      under which a query reports `m`. */
  function FirstSelector(b: Buckets, tags: Tags, m: Mapping): (r: Option<Tag>)
    ensures r.Some? <==> m in AllCandidates(b, tags)
    ensures r.Some? ==> r.value in tags && m in Candidates(b, r.value)
  {
    if tags == [] then None
    else if m in Candidates(b, tags[0]) then Some(tags[0])
    else
      var r := FirstSelector(b, tags[1..], m);
      assert r.Some? ==> r.value in tags;
      r
  }

  /** The first selector is the earliest tag whose candidates include `m`. */
  lemma {:induction false} FirstSelectorAt(b: Buckets, tags: Tags, m: Mapping, j: nat)
    requires j < |tags| && m in Candidates(b, tags[j])
    requires forall k :: 0 <= k < j ==> m !in Candidates(b, tags[k])
    ensures FirstSelector(b, tags, m) == Some(tags[j])
  {
    if j > 0 {
      assert m !in Candidates(b, tags[0]);
      forall k | 0 <= k < j - 1
        ensures m !in Candidates(b, tags[1..][k])
      {
        assert tags[1..][k] == tags[k + 1];
      }
      FirstSelectorAt(b, tags[1..], m, j - 1);
    }
  }

  /** No tag before position `j` has `m` among its candidates. */
  predicate NoEarlier(b: Buckets, tags: Tags, m: Mapping, j: int)
    requires j <= |tags|
  {
    forall k :: 0 <= k < j ==> m !in Candidates(b, tags[k])
  }

  /** Conversely, the first selector sits at some position of the tags and
      no earlier tag's candidates include `m`. */
  lemma {:induction false} FirstSelectorIndex(b: Buckets, tags: Tags, m: Mapping, t: Tag)
    requires FirstSelector(b, tags, m) == Some(t)
    ensures exists j :: 0 <= j < |tags| && tags[j] == t && NoEarlier(b, tags, m, j)
  {
    if m !in Candidates(b, tags[0]) {
      var tail := tags[1..];
      FirstSelectorIndex(b, tail, m, t);
      var j :| 0 <= j < |tail| && tail[j] == t && NoEarlier(b, tail, m, j);
      NoEarlierCons(b, tags, m, j);
      assert tags[j + 1] == t;
    } else {
      assert NoEarlier(b, tags, m, 0);
    }
  }

  lemma {:induction false} NoEarlierCons(b: Buckets, tags: Tags, m: Mapping, j: nat)
    requires j < |tags| - 1 && m !in Candidates(b, tags[0]) && NoEarlier(b, tags[1..], m, j)
    ensures NoEarlier(b, tags, m, j + 1)
  {
    forall k | 0 < k < j + 1
      ensures m !in Candidates(b, tags[k])
    {
      assert tags[k] == tags[1..][k - 1];
    }
  }

  /** The loop of `_mapping_for_tags` from some tag on, given the mappings
      already emitted. */
  function Collect(b: Buckets, tags: Tags, seen: set<Mapping>): (r: seq<Group>)
    ensures forall i :: 0 <= i < |r| ==> r[i].mappings != []
    ensures forall i, m :: 0 <= i < |r| && m in r[i].mappings ==> m in Candidates(b, r[i].tag)
    ensures forall i :: 0 <= i < |r| ==> FirstOccurrenceOrder(r[i].mappings, Candidates(b, r[i].tag))
    ensures forall i, m :: 0 <= i < |r| && m in r[i].mappings ==> FirstSelector(b, tags, m) == Some(r[i].tag)
    ensures Subseq(GroupTags(r), tags)
    ensures Distinct(Flatten(r))
    ensures forall m :: m in Flatten(r) <==> m in AllCandidates(b, tags) && m !in seen
    decreases |tags|
  {
    if tags == [] then []
    else
      var t := tags[0];
      if t.key in b then
        var added := NewOnes(Candidates(b, t), seen);
        var rest := Collect(b, tags[1..], seen + Elems(added));
        RestAfterFirst(b, tags, seen, added, rest);
        if added != [] then
          var r := [Group(t, added)] + rest;
          CollectStep(t, added, rest, r);
          CollectGroups(b, tags, added, rest, r);
          SubseqPrepend(tags, GroupTags(rest));
          DistinctAppend(added, Flatten(rest));
          r
        else rest
      else
        var rest := Collect(b, tags[1..], seen);
        RestAfterFirst(b, tags, seen, [], rest);
        rest
  }

  /** A mapping the rest of the loop reports was not among the first tag's
      candidates, so the first tag does not select it first. */
  lemma {:induction false} RestAfterFirst(b: Buckets, tags: Tags, seen: set<Mapping>, added: seq<Mapping>, rest: seq<Group>)
    requires tags != []
    requires forall m :: m in Candidates(b, tags[0]) && m !in seen ==> m in added
    requires forall m :: m in Flatten(rest) <==> m in AllCandidates(b, tags[1..]) && m !in seen + Elems(added)
    requires forall i, m :: 0 <= i < |rest| && m in rest[i].mappings ==> FirstSelector(b, tags[1..], m) == Some(rest[i].tag)
    ensures forall i, m :: 0 <= i < |rest| && m in rest[i].mappings ==> FirstSelector(b, tags, m) == Some(rest[i].tag)
  {
    forall i, m | 0 <= i < |rest| && m in rest[i].mappings
      ensures FirstSelector(b, tags, m) == Some(rest[i].tag)
    {
      InFlatten(rest, m);
      assert m !in Candidates(b, tags[0]);
    }
  }

  /** The per-group facts survive putting the first tag's group in front. */
  lemma {:induction false} CollectGroups(b: Buckets, tags: Tags, added: seq<Mapping>, rest: seq<Group>, r: seq<Group>)
    requires tags != [] && added != [] && r == [Group(tags[0], added)] + rest
    requires forall m :: m in added ==> m in Candidates(b, tags[0])
    requires FirstOccurrenceOrder(added, Candidates(b, tags[0]))
    requires forall i :: 0 <= i < |rest| ==> rest[i].mappings != []
    requires forall i, m :: 0 <= i < |rest| && m in rest[i].mappings ==> m in Candidates(b, rest[i].tag)
    requires forall i :: 0 <= i < |rest| ==> FirstOccurrenceOrder(rest[i].mappings, Candidates(b, rest[i].tag))
    requires forall i, m :: 0 <= i < |rest| && m in rest[i].mappings ==> FirstSelector(b, tags, m) == Some(rest[i].tag)
    ensures forall i :: 0 <= i < |r| ==> r[i].mappings != []
    ensures forall i, m :: 0 <= i < |r| && m in r[i].mappings ==> m in Candidates(b, r[i].tag)
    ensures forall i :: 0 <= i < |r| ==> FirstOccurrenceOrder(r[i].mappings, Candidates(b, r[i].tag))
    ensures forall i, m :: 0 <= i < |r| && m in r[i].mappings ==> FirstSelector(b, tags, m) == Some(r[i].tag)
  {
    assert forall i :: 1 <= i < |r| ==> r[i] == rest[i - 1];
  }

  lemma CollectStep(t: Tag, added: seq<Mapping>, rest: seq<Group>, r: seq<Group>)
    requires r == [Group(t, added)] + rest
    ensures GroupTags(r) == [t] + GroupTags(rest)
    ensures Flatten(r) == added + Flatten(rest)
    ensures forall i :: 1 <= i < |r| ==> r[i] == rest[i - 1]
  {
    assert r[1..] == rest;
  }

  /** What `_mapping_for_tags(b, tags)` promises of its result `r`: groups
      come in tag order; no mapping is reported twice; exactly the mappings
      some tag selects are reported; each group is non-empty and lists its
      tag's candidates in their order; and every mapping is reported under
      the first tag that selects it. */
  ghost predicate Grouping(b: Buckets, tags: Tags, r: seq<Group>) {
    && Subseq(GroupTags(r), tags)
    && Distinct(Flatten(r))
    && (forall m :: m in Flatten(r) <==> m in AllCandidates(b, tags))
    && (forall i :: 0 <= i < |r| ==> r[i].mappings != [])
    && (forall i :: 0 <= i < |r| ==> FirstOccurrenceOrder(r[i].mappings, Candidates(b, r[i].tag)))
    && (forall i, m :: 0 <= i < |r| && m in r[i].mappings ==> FirstSelector(b, tags, m) == Some(r[i].tag))
  }

  /** `_mapping_for_tags(tag_map, tags)`: walks the feature's tags in order
      and emits, per tag, the mappings it selects that no earlier tag
      selected. */
  function MappingsForTags(b: Buckets, tags: Tags): (r: seq<Group>)
    ensures Grouping(b, tags, r)
  {
    Collect(b, tags, {})
  }

  /** In a grouping of a dict's tags, a group's mappings are among its own
      tag's candidates and among no earlier tag's. */
  lemma {:induction false} GroupedUnderFirstTag(b: Buckets, tags: Tags, r: seq<Group>, i: nat, j: nat, m: Mapping)
    requires UniqueKeys(tags) && Grouping(b, tags, r)
    requires i < |r| && m in r[i].mappings
    requires j < |tags| && tags[j] == r[i].tag
    ensures m in Candidates(b, tags[j])
    ensures forall k :: 0 <= k < j ==> m !in Candidates(b, tags[k])
  {
    FirstSelectorIndex(b, tags, m, r[i].tag);
    var j' :| 0 <= j' < |tags| && tags[j'] == r[i].tag && NoEarlier(b, tags, m, j');
    assert j' == j;
  }

  /** A mapping one grouping reports under some tag, another grouping of
      the same tags reports under that tag too. */
  lemma {:induction false} GroupShared(b: Buckets, tags: Tags, r1: seq<Group>, r2: seq<Group>, i: nat, m: Mapping)
    requires Grouping(b, tags, r1) && Grouping(b, tags, r2)
    requires i < |r1| && m in r1[i].mappings
    ensures exists k :: 0 <= k < |r2| && r2[k].tag == r1[i].tag && m in r2[k].mappings
  {
    InFlatten(r1, m);
    InFlatten(r2, m);
    var k :| 0 <= k < |r2| && m in r2[k].mappings;
    assert FirstSelector(b, tags, m) == Some(r2[k].tag);
  }

  /** The query's contract leaves no freedom: for the tags of a dict, one
      grouping alone meets it. */
  lemma {:induction false} GroupingUnique(b: Buckets, tags: Tags, r1: seq<Group>, r2: seq<Group>)
    requires UniqueKeys(tags) && Grouping(b, tags, r1) && Grouping(b, tags, r2)
    ensures r1 == r2
  {
    var g1 := GroupTags(r1);
    var g2 := GroupTags(r2);
    SubseqUniqueKeys(g1, tags);
    SubseqUniqueKeys(g2, tags);
    forall t
      ensures t in g1 <==> t in g2
    {
      if t in g1 {
        var i :| 0 <= i < |g1| && g1[i] == t;
        assert r1[i].mappings[0] in r1[i].mappings;
        GroupShared(b, tags, r1, r2, i, r1[i].mappings[0]);
      }
      if t in g2 {
        var i :| 0 <= i < |g2| && g2[i] == t;
        assert r2[i].mappings[0] in r2[i].mappings;
        GroupShared(b, tags, r2, r1, i, r2[i].mappings[0]);
      }
    }
    assert Distinct(tags);
    SubseqSameElements(g1, g2, tags);
    forall i | 0 <= i < |r1|
      ensures r1[i] == r2[i]
    {
      SameGroupAt(b, tags, r1, r2, i);
    }
  }

  /** Groupings with the same group tags agree group by group. */
  lemma {:induction false} SameGroupAt(b: Buckets, tags: Tags, r1: seq<Group>, r2: seq<Group>, i: nat)
    requires Grouping(b, tags, r1) && Grouping(b, tags, r2)
    requires GroupTags(r1) == GroupTags(r2) && UniqueKeys(GroupTags(r1))
    requires i < |r1|
    ensures r1[i] == r2[i]
  {
    var g := GroupTags(r1);
    forall m
      ensures m in r1[i].mappings <==> m in r2[i].mappings
    {
      if m in r1[i].mappings {
        GroupShared(b, tags, r1, r2, i, m);
        var k :| 0 <= k < |r2| && r2[k].tag == r1[i].tag && m in r2[k].mappings;
        assert g[k] == g[i];
      }
      if m in r2[i].mappings {
        GroupShared(b, tags, r2, r1, i, m);
        var k :| 0 <= k < |r1| && r1[k].tag == r2[i].tag && m in r1[k].mappings;
        assert g[k] == g[i];
      }
    }
    OrderedSameElements(r1[i].mappings, r2[i].mappings, Candidates(b, r1[i].tag));
  }

  /** Hence `_mapping_for_tags` is characterised by its contract: any result
      that meets it is the query's own. */
  lemma {:induction false} MappingsForTagsCharacterised(b: Buckets, tags: Tags, r: seq<Group>)
    requires UniqueKeys(tags)
    ensures Grouping(b, tags, r) <==> r == MappingsForTags(b, tags)
  {
    if Grouping(b, tags, r) {
      GroupingUnique(b, tags, r, MappingsForTags(b, tags));
    }
  }

  /** `for_nodes`: the point index alone. */
  function ForNodes(tm: TagMapper, tags: Tags): (r: seq<Group>)
    ensures Grouping(tm.point.buckets, tags, r)
  {
    MappingsForTags(tm.point.buckets, tags)
  }

  /** `for_ways`: the line-index groups, then the polygon-index groups. */
  function ForWays(tm: TagMapper, tags: Tags): (r: seq<Group>)
    ensures exists n :: 0 <= n <= |r| && Grouping(tm.line.buckets, tags, r[..n]) && Grouping(tm.polygon.buckets, tags, r[n..])
    ensures forall i :: 0 <= i < |r| ==> r[i].mappings != [] && r[i].tag in tags
    ensures forall m :: m in Flatten(r) <==> m in AllCandidates(tm.line.buckets, tags) || m in AllCandidates(tm.polygon.buckets, tags)
  {
    var lines := MappingsForTags(tm.line.buckets, tags);
    var polygons := MappingsForTags(tm.polygon.buckets, tags);
    GroupingHalves(tm.line.buckets, tm.polygon.buckets, tags, lines, polygons);
    lines + polygons
  }

  /** Two groupings of the same tags, one after the other. */
  lemma {:induction false} GroupingHalves(b1: Buckets, b2: Buckets, tags: Tags, lines: seq<Group>, polygons: seq<Group>)
    requires Grouping(b1, tags, lines) && Grouping(b2, tags, polygons)
    ensures var r := lines + polygons;
      exists n :: 0 <= n <= |r| && Grouping(b1, tags, r[..n]) && Grouping(b2, tags, r[n..])
    ensures var r := lines + polygons;
      forall i :: 0 <= i < |r| ==> r[i].mappings != [] && r[i].tag in tags
    ensures forall m :: m in Flatten(lines + polygons) <==> m in AllCandidates(b1, tags) || m in AllCandidates(b2, tags)
  {
    var r := lines + polygons;
    assert r[..|lines|] == lines && r[|lines|..] == polygons;
    FlattenAppend(lines, polygons);
    GroupTagsIn(tags, lines);
    GroupTagsIn(tags, polygons);
  }

  lemma {:induction false} GroupTagsIn(tags: Tags, groups: seq<Group>)
    requires Subseq(GroupTags(groups), tags)
    ensures forall i :: 0 <= i < |groups| ==> groups[i].tag in tags
  {
    SubseqElements(GroupTags(groups), tags);
    assert forall i :: 0 <= i < |groups| ==> GroupTags(groups)[i] in GroupTags(groups);
  }

  /** `for_relations`: the polygon index alone. */
  function ForRelations(tm: TagMapper, tags: Tags): (r: seq<Group>)
    ensures Grouping(tm.polygon.buckets, tags, r)
  {
    MappingsForTags(tm.polygon.buckets, tags)
  }

  /** Whether tag `t` selects mapping `m` in the index of class `g` built
      from `ms`: `m` lists the exact value, or `m` lists `ANY` and no mapping
      of the class lists the exact value. */
  predicate Selects(ms: seq<Mapping>, g: GeomClass, t: Tag, m: Mapping) {
    && m in ms && m.geom == g
    && (|| Declares(m, t.key, t.value)
        || (Declares(m, t.key, ANY) && !(exists m' :: m' in ms && m'.geom == g && Declares(m', t.key, t.value))))
  }

  /** In a well-formed index a tag's candidates are its exact-value bucket
      when that is non-empty and its `ANY` bucket otherwise. */
  lemma CandidatesWF(s: SubIndex, t: Tag)
    requires WF(s)
    ensures Candidates(s.buckets, t) ==
      if BucketOf(s.buckets, t.key, t.value) != [] then BucketOf(s.buckets, t.key, t.value)
      else BucketOf(s.buckets, t.key, ANY)
  {
  }

  /** Exact before wildcard: in a built index, a tag selects the mappings
      listing its exact value when there are any, and the `ANY` mappings of
      its key only when there are none; keys no mapping lists select nothing. */
  lemma CandidatesOfBuild(ms: seq<Mapping>, g: GeomClass, t: Tag, m: Mapping)
    ensures m in Candidates(Build(ms).Sub(g).buckets, t) <==> Selects(ms, g, t, m)
  {
    var tm := Build(ms);
    var s := tm.Sub(g);
    assert WF(s) by {
      assert AllWF(tm);
      match g
      case Point =>
      case Line =>
      case Polygon =>
    }
    CandidatesWF(s, t);
    var exact := DeclaredBucket(ms, g, t.key, t.value);
    var wild := DeclaredBucket(ms, g, t.key, ANY);
    assert Candidates(s.buckets, t) == if exact != [] then exact else wild;
    InDeclaredBucket(ms, g, t.key, t.value, m);
    InDeclaredBucket(ms, g, t.key, ANY, m);
    var some := exists m' :: m' in ms && m'.geom == g && Declares(m', t.key, t.value);
    assert some <==> exact != [] by {
      if some {
        var m' :| m' in ms && m'.geom == g && Declares(m', t.key, t.value);
        InDeclaredBucket(ms, g, t.key, t.value, m');
      }
      if exact != [] {
        InDeclaredBucket(ms, g, t.key, t.value, exact[0]);
      }
    }
  }

  /** End to end: a built index's query emits exactly the mappings that
      some tag of the feature selects, and each group lists only mappings its
      own tag selects. */
  lemma QueryMatchesDeclarations(ms: seq<Mapping>, g: GeomClass, tags: Tags, m: Mapping)
    ensures m in Flatten(MappingsForTags(Build(ms).Sub(g).buckets, tags)) <==>
      exists i :: 0 <= i < |tags| && Selects(ms, g, tags[i], m)
    ensures var r := MappingsForTags(Build(ms).Sub(g).buckets, tags);
      forall i :: 0 <= i < |r| && m in r[i].mappings ==> Selects(ms, g, r[i].tag, m)
  {
    var b := Build(ms).Sub(g).buckets;
    InAllCandidates(b, tags, m);
    forall i | 0 <= i < |tags|
      ensures m in Candidates(b, tags[i]) <==> Selects(ms, g, tags[i], m)
    {
      CandidatesOfBuild(ms, g, tags[i], m);
    }
    var r := MappingsForTags(b, tags);
    forall i | 0 <= i < |r| && m in r[i].mappings
      ensures Selects(ms, g, r[i].tag, m)
    {
      CandidatesOfBuild(ms, g, r[i].tag, m);
    }
  }

  /** For a built index, `for_ways` never emits a mapping twice: the line
      half holds only line mappings and the polygon half only polygon
      mappings. It emits exactly what some tag selects in either class. */
  lemma ForWaysOfBuild(ms: seq<Mapping>, tags: Tags)
    ensures Distinct(Flatten(ForWays(Build(ms), tags)))
    ensures forall m :: m in Flatten(ForWays(Build(ms), tags)) <==>
      exists i :: 0 <= i < |tags| && (Selects(ms, Line, tags[i], m) || Selects(ms, Polygon, tags[i], m))
  {
    var tm := Build(ms);
    var lines := MappingsForTags(tm.line.buckets, tags);
    var polygons := MappingsForTags(tm.polygon.buckets, tags);
    assert ForWays(tm, tags) == lines + polygons;
    FlattenAppend(lines, polygons);
    forall m | m in Flatten(lines)
      ensures m !in Flatten(polygons)
    {
      ForWaysMember(ms, tags, m);
    }
    DistinctAppend(Flatten(lines), Flatten(polygons));
    forall m
      ensures m in Flatten(ForWays(tm, tags)) <==>
        exists i :: 0 <= i < |tags| && (Selects(ms, Line, tags[i], m) || Selects(ms, Polygon, tags[i], m))
    {
      ForWaysMember(ms, tags, m);
    }
  }

  /** Membership in either half of `for_ways` on a built index: a line
      mapping can only come from the line half, and a polygon mapping only
      from the polygon half. */
  lemma ForWaysMember(ms: seq<Mapping>, tags: Tags, m: Mapping)
    ensures var tm := Build(ms);
      m in Flatten(MappingsForTags(tm.line.buckets, tags)) <==> m.geom == Line && exists i :: 0 <= i < |tags| && Selects(ms, Line, tags[i], m)
    ensures var tm := Build(ms);
      m in Flatten(MappingsForTags(tm.polygon.buckets, tags)) <==> m.geom == Polygon && exists i :: 0 <= i < |tags| && Selects(ms, Polygon, tags[i], m)
  {
    var tm := Build(ms);
    assert tm.Sub(Line) == tm.line && tm.Sub(Polygon) == tm.polygon;
    QueryMatchesDeclarations(ms, Line, tags, m);
    QueryMatchesDeclarations(ms, Polygon, tags, m);
  }

  /** `for_nodes` and `for_relations` on a built index emit exactly what
      some tag selects in the point and the polygon index respectively. */
  lemma NodesAndRelationsOfBuild(ms: seq<Mapping>, tags: Tags, m: Mapping)
    ensures m in Flatten(ForNodes(Build(ms), tags)) <==> exists i :: 0 <= i < |tags| && Selects(ms, Point, tags[i], m)
    ensures m in Flatten(ForRelations(Build(ms), tags)) <==> exists i :: 0 <= i < |tags| && Selects(ms, Polygon, tags[i], m)
  {
    QueryMatchesDeclarations(ms, Point, tags, m);
    QueryMatchesDeclarations(ms, Polygon, tags, m);
  }
}
