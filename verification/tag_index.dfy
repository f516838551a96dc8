/** The tag-to-mapping index (`TagMapper`): for each geometry class, a reverse
    index from tag key and value to the mappings they select, and the set of
    values relevant for each tag key. */
module TagIndex {
  import opened Tags
  import opened Mappings

  /** tag key -> tag value (or `ANY`) -> the mappings declaring it, in order. */
  type Buckets = map<string, map<string, seq<Mapping>>>

  /** tag key -> the values (or `ANY`) that matter for that key. */
  type Relevance = map<string, set<string>>

  /** The index of one geometry class. */
  datatype SubIndex = SubIndex(buckets: Buckets, relevant: Relevance)

  /** The three per-class indices. */
  datatype TagMapper = TagMapper(point: SubIndex, line: SubIndex, polygon: SubIndex) {

    function Sub(g: GeomClass): SubIndex {
      match g
      case Point => point
      case Line => line
      case Polygon => polygon
    }

    /** The same mapper with the index of class `g` replaced. */
    function With(g: GeomClass, s: SubIndex): (r: TagMapper)
      ensures r.Sub(g) == s
      ensures forall h :: h != g ==> r.Sub(h) == Sub(h)
    {
      match g
      case Point => this.(point := s)
      case Line => this.(line := s)
      case Polygon => this.(polygon := s)
    }
  }

  /** The mappings listed under `k`/`v`, empty when there is no entry. */
  function BucketOf(b: Buckets, k: string, v: string): seq<Mapping> {
    if k in b && v in b[k] then b[k][v] else []
  }

  /** The values relevant for `k`, empty when `k` is not relevant. */
  function ValuesOf(rel: Relevance, k: string): set<string> {
    if k in rel then rel[k] else {}
  }

  /** Entries are only ever created by adding to them. */
  predicate RelevanceWF(rel: Relevance) {
    forall k :: k in rel ==> rel[k] != {}
  }

  predicate BucketsWF(b: Buckets) {
    forall k, v :: k in b && v in b[k] ==> b[k][v] != []
  }

  predicate WF(s: SubIndex) {
    RelevanceWF(s.relevant) && BucketsWF(s.buckets)
  }

  function Repeat(m: Mapping, n: nat): (r: seq<Mapping>)
    ensures |r| == n
    ensures forall i :: 0 <= i < n ==> r[i] == m
  {
    seq(n, _ => m)
  }

  lemma RepeatAdd(m: Mapping, a: nat, b: nat)
    ensures Repeat(m, a) + Repeat(m, b) == Repeat(m, a + b)
  {
  }

  /** How often `v` occurs in `vs`. */
  function Count(vs: seq<string>, v: string): nat {
    if vs == [] then 0 else (if vs[0] == v then 1 else 0) + Count(vs[1..], v)
  }

  /** How often a rule set lists the pair `k`/`v`. */
  function Occurrences(rules: seq<Rule>, k: string, v: string): nat {
    if rules == [] then 0
    else (if rules[0].key == k then Count(rules[0].values, v) else 0) + Occurrences(rules[1..], k, v)
  }

  /** The values a rule set lists for key `k`. */
  function DeclaredIn(rules: seq<Rule>, k: string): set<string> {
    if rules == [] then {}
    else (if rules[0].key == k then Elems(rules[0].values) else {}) + DeclaredIn(rules[1..], k)
  }

  /** The keys a rule set has entries for. */
  function RuleKeys(rules: seq<Rule>): set<string> {
    if rules == [] then {} else {rules[0].key} + RuleKeys(rules[1..])
  }

  /** Mapping `m` lists `v` (possibly `ANY`) for key `k`. */
  predicate Declares(m: Mapping, k: string, v: string) {
    exists r :: r in m.rules && r.key == k && v in r.values
  }

  /** Marks every name wildcard-relevant (the loop over the extra field names). */
  function MarkAny(rel: Relevance, names: seq<string>): (r: Relevance)
    requires RelevanceWF(rel)
    ensures RelevanceWF(r)
    ensures forall k :: ValuesOf(r, k) == ValuesOf(rel, k) + (if k in names then {ANY} else {})
    ensures forall k :: k in r <==> k in rel || k in names
    decreases |names|
  {
    if names == [] then rel
    else
      var r := MarkAny(rel[names[0] := ValuesOf(rel, names[0]) + {ANY}], names[1..]);
      assert forall k :: k in names <==> k == names[0] || k in names[1..];
      r
  }

  /** Records that `m` declares `k`/`v` (one step of the innermost loop). */
  function AddValue(s: SubIndex, m: Mapping, k: string, v: string): (r: SubIndex)
    requires WF(s) && k in s.buckets
    ensures WF(r) && r.buckets.Keys == s.buckets.Keys
    ensures forall k', v' :: BucketOf(r.buckets, k', v') == BucketOf(s.buckets, k', v') + (if k' == k && v' == v then [m] else [])
    ensures forall k' :: ValuesOf(r.relevant, k') == ValuesOf(s.relevant, k') + (if k' == k then {v} else {})
  {
    var inner := s.buckets[k];
    SubIndex(s.buckets[k := inner[v := BucketOf(s.buckets, k, v) + [m]]],
             s.relevant[k := ValuesOf(s.relevant, k) + {v}])
  }

  lemma AddValuesStep(s: SubIndex, s1: SubIndex, r: SubIndex, m: Mapping, k: string, vs: seq<string>)
    requires vs != []
    requires forall k', v' :: BucketOf(s1.buckets, k', v') == BucketOf(s.buckets, k', v') + (if k' == k && v' == vs[0] then [m] else [])
    requires forall k', v' :: BucketOf(r.buckets, k', v') == BucketOf(s1.buckets, k', v') + (if k' == k then Repeat(m, Count(vs[1..], v')) else [])
    requires forall k' :: ValuesOf(s1.relevant, k') == ValuesOf(s.relevant, k') + (if k' == k then {vs[0]} else {})
    requires forall k' :: ValuesOf(r.relevant, k') == ValuesOf(s1.relevant, k') + (if k' == k then Elems(vs[1..]) else {})
    ensures forall k', v' :: BucketOf(r.buckets, k', v') == BucketOf(s.buckets, k', v') + (if k' == k then Repeat(m, Count(vs, v')) else [])
    ensures forall k' :: ValuesOf(r.relevant, k') == ValuesOf(s.relevant, k') + (if k' == k then Elems(vs) else {})
  {
    forall k', v'
      ensures BucketOf(r.buckets, k', v') == BucketOf(s.buckets, k', v') + (if k' == k then Repeat(m, Count(vs, v')) else [])
    {
      AddValuesPair(BucketOf(s.buckets, k', v'), BucketOf(s1.buckets, k', v'), BucketOf(r.buckets, k', v'), m, k == k', vs, v');
    }
    ElemsCons(vs);
  }

  /** One bucket across one step of `AddValues`; `same` says whether the
      bucket's key is the one being added to. */
  lemma AddValuesPair(b0: seq<Mapping>, b1: seq<Mapping>, br: seq<Mapping>, m: Mapping, same: bool, vs: seq<string>, v: string)
    requires vs != []
    requires b1 == b0 + (if same && v == vs[0] then [m] else [])
    requires br == b1 + (if same then Repeat(m, Count(vs[1..], v)) else [])
    ensures br == b0 + (if same then Repeat(m, Count(vs, v)) else [])
  {
    if same {
      var a := if v == vs[0] then 1 else 0;
      assert (if v == vs[0] then [m] else []) == Repeat(m, a);
      RepeatAdd(m, a, Count(vs[1..], v));
    } else {
      assert b1 == b0 && br == b1;
    }
  }

  /** Records that `m` declares each of `vs` under `k` (`for type in types`). */
  function AddValues(s: SubIndex, m: Mapping, k: string, vs: seq<string>): (r: SubIndex)
    requires WF(s) && k in s.buckets
    ensures WF(r) && r.buckets.Keys == s.buckets.Keys
    ensures forall k', v' :: BucketOf(r.buckets, k', v') == BucketOf(s.buckets, k', v') + (if k' == k then Repeat(m, Count(vs, v')) else [])
    ensures forall k' :: ValuesOf(r.relevant, k') == ValuesOf(s.relevant, k') + (if k' == k then Elems(vs) else {})
    decreases |vs|
  {
    if vs == [] then s
    else
      var s1 := AddValue(s, m, k, vs[0]);
      var r := AddValues(s1, m, k, vs[1..]);
      AddValuesStep(s, s1, r, m, k, vs);
      r
  }

  /** Records one rule-set entry of `m` (`add_to.setdefault(tag, {})`, then
      the loop over its values). */
  function AddRule(s: SubIndex, m: Mapping, rule: Rule): (r: SubIndex)
    requires WF(s)
    ensures WF(r) && r.buckets.Keys == s.buckets.Keys + {rule.key}
    ensures forall k', v' :: BucketOf(r.buckets, k', v') == BucketOf(s.buckets, k', v') + (if k' == rule.key then Repeat(m, Count(rule.values, v')) else [])
    ensures forall k' :: ValuesOf(r.relevant, k') == ValuesOf(s.relevant, k') + (if k' == rule.key then Elems(rule.values) else {})
  {
    var s0 := SubIndex(s.buckets[rule.key := if rule.key in s.buckets then s.buckets[rule.key] else map[]], s.relevant);
    assert forall k', v' :: BucketOf(s0.buckets, k', v') == BucketOf(s.buckets, k', v');
    AddValues(s0, m, rule.key, rule.values)
  }

  lemma AddRulesStep(s: SubIndex, s1: SubIndex, r: SubIndex, m: Mapping, rules: seq<Rule>)
    requires rules != []
    requires forall k', v' :: BucketOf(s1.buckets, k', v') == BucketOf(s.buckets, k', v') + (if k' == rules[0].key then Repeat(m, Count(rules[0].values, v')) else [])
    requires forall k', v' :: BucketOf(r.buckets, k', v') == BucketOf(s1.buckets, k', v') + Repeat(m, Occurrences(rules[1..], k', v'))
    ensures forall k', v' :: BucketOf(r.buckets, k', v') == BucketOf(s.buckets, k', v') + Repeat(m, Occurrences(rules, k', v'))
  {
    forall k', v'
      ensures BucketOf(r.buckets, k', v') == BucketOf(s.buckets, k', v') + Repeat(m, Occurrences(rules, k', v'))
    {
      AddRulesPair(BucketOf(s.buckets, k', v'), BucketOf(s1.buckets, k', v'), BucketOf(r.buckets, k', v'), m, rules, k', v');
    }
  }

  /** One bucket across one step of `AddRules`. */
  lemma AddRulesPair(b0: seq<Mapping>, b1: seq<Mapping>, br: seq<Mapping>, m: Mapping, rules: seq<Rule>, k: string, v: string)
    requires rules != []
    requires b1 == b0 + (if k == rules[0].key then Repeat(m, Count(rules[0].values, v)) else [])
    requires br == b1 + Repeat(m, Occurrences(rules[1..], k, v))
    ensures br == b0 + Repeat(m, Occurrences(rules, k, v))
  {
    var a := if k == rules[0].key then Count(rules[0].values, v) else 0;
    var b := Occurrences(rules[1..], k, v);
    assert (if k == rules[0].key then Repeat(m, Count(rules[0].values, v)) else []) == Repeat(m, a);
    assert br == (b0 + Repeat(m, a)) + Repeat(m, b);
    RepeatAdd(m, a, b);
    assert Occurrences(rules, k, v) == a + b;
  }

  /** Records the whole rule set of `m` (`for tag, types in mapping.mapping`). */
  function AddRules(s: SubIndex, m: Mapping, rules: seq<Rule>): (r: SubIndex)
    requires WF(s)
    ensures WF(r) && r.buckets.Keys == s.buckets.Keys + RuleKeys(rules)
    ensures forall k', v' :: BucketOf(r.buckets, k', v') == BucketOf(s.buckets, k', v') + Repeat(m, Occurrences(rules, k', v'))
    ensures forall k' :: ValuesOf(r.relevant, k') == ValuesOf(s.relevant, k') + DeclaredIn(rules, k')
    decreases |rules|
  {
    if rules == [] then s
    else
      var s1 := AddRule(s, m, rules[0]);
      var r := AddRules(s1, m, rules[1..]);
      AddRulesStep(s, s1, r, m, rules);
      r
  }

  /** What mapping `m` adds under `k`/`v` to the index of class `g`. */
  function Contribution(m: Mapping, g: GeomClass, k: string, v: string): seq<Mapping> {
    if m.geom == g then Repeat(m, Occurrences(m.rules, k, v)) else []
  }

  /** The values mapping `m` makes relevant for `k` in the index of class `g`:
      those its rule set lists, and `ANY` for its column and filter tags. */
  function RelevantFor(m: Mapping, g: GeomClass, k: string): set<string> {
    if m.geom == g then DeclaredIn(m.rules, k) + (if k in ExtraFieldNames(m) then {ANY} else {}) else {}
  }

  predicate AllWF(tm: TagMapper) {
    WF(tm.point) && WF(tm.line) && WF(tm.polygon)
  }

  /** One iteration of `_init_map`: the index of `m`'s class gains `m`'s
      column/filter tags as wildcard-relevant and its rule set; the indices
      of the other two classes are left untouched. */
  function AddMapping(tm: TagMapper, m: Mapping): (r: TagMapper)
    requires AllWF(tm)
    ensures AllWF(r)
    ensures forall g :: g != m.geom ==> r.Sub(g) == tm.Sub(g)
    ensures forall g, k, v :: BucketOf(r.Sub(g).buckets, k, v) == BucketOf(tm.Sub(g).buckets, k, v) + Contribution(m, g, k, v)
    ensures forall g, k :: ValuesOf(r.Sub(g).relevant, k) == ValuesOf(tm.Sub(g).relevant, k) + RelevantFor(m, g, k)
  {
    var s := tm.Sub(m.geom);
    var s1 := SubIndex(s.buckets, MarkAny(s.relevant, ExtraFieldNames(m)));
    var s2 := AddRules(s1, m, m.rules);
    AddMappingStep(tm, m, s2);
    tm.With(m.geom, s2)
  }

  lemma AddMappingStep(tm: TagMapper, m: Mapping, s2: SubIndex)
    requires AllWF(tm) && WF(s2)
    requires forall k, v :: BucketOf(s2.buckets, k, v) == BucketOf(tm.Sub(m.geom).buckets, k, v) + Repeat(m, Occurrences(m.rules, k, v))
    requires forall k :: ValuesOf(s2.relevant, k) == ValuesOf(tm.Sub(m.geom).relevant, k) + RelevantFor(m, m.geom, k)
    ensures AllWF(tm.With(m.geom, s2))
    ensures forall g, k, v :: BucketOf(tm.With(m.geom, s2).Sub(g).buckets, k, v) == BucketOf(tm.Sub(g).buckets, k, v) + Contribution(m, g, k, v)
    ensures forall g, k :: ValuesOf(tm.With(m.geom, s2).Sub(g).relevant, k) == ValuesOf(tm.Sub(g).relevant, k) + RelevantFor(m, g, k)
  {
    var r := tm.With(m.geom, s2);
    assert WF(r.point) && WF(r.line) && WF(r.polygon) by {
      assert r.point == tm.point || r.point == s2;
      assert r.line == tm.line || r.line == s2;
      assert r.polygon == tm.polygon || r.polygon == s2;
    }
    forall g, k, v
      ensures BucketOf(r.Sub(g).buckets, k, v) == BucketOf(tm.Sub(g).buckets, k, v) + Contribution(m, g, k, v)
    {
      if g != m.geom {
        assert r.Sub(g) == tm.Sub(g);
      }
    }
    forall g, k
      ensures ValuesOf(r.Sub(g).relevant, k) == ValuesOf(tm.Sub(g).relevant, k) + RelevantFor(m, g, k)
    {
      if g != m.geom {
        assert r.Sub(g) == tm.Sub(g);
      }
    }
  }

  /** The index reads of a freshly created mapper: everything empty. */
  const Empty: TagMapper := TagMapper(SubIndex(map[], map[]), SubIndex(map[], map[]), SubIndex(map[], map[]))

  /** The reference contents of a bucket: every configured mapping of class
      `g`, in configuration order, once for each time it lists `k`/`v`. */
  function DeclaredBucket(ms: seq<Mapping>, g: GeomClass, k: string, v: string): seq<Mapping> {
    if ms == [] then [] else Contribution(ms[0], g, k, v) + DeclaredBucket(ms[1..], g, k, v)
  }

  /** The reference relevance of key `k` for class `g`. */
  function DeclaredValues(ms: seq<Mapping>, g: GeomClass, k: string): set<string> {
    if ms == [] then {} else RelevantFor(ms[0], g, k) + DeclaredValues(ms[1..], g, k)
  }

  lemma DeclaredSnoc(ms: seq<Mapping>)
    requires ms != []
    ensures forall g, k, v :: DeclaredBucket(ms, g, k, v) == DeclaredBucket(ms[..|ms| - 1], g, k, v) + Contribution(ms[|ms| - 1], g, k, v)
    ensures forall g, k :: DeclaredValues(ms, g, k) == DeclaredValues(ms[..|ms| - 1], g, k) + RelevantFor(ms[|ms| - 1], g, k)
  {
    forall g, k, v
      ensures DeclaredBucket(ms, g, k, v) == DeclaredBucket(ms[..|ms| - 1], g, k, v) + Contribution(ms[|ms| - 1], g, k, v)
    {
      DeclaredBucketSnoc(ms, g, k, v);
    }
    forall g, k
      ensures DeclaredValues(ms, g, k) == DeclaredValues(ms[..|ms| - 1], g, k) + RelevantFor(ms[|ms| - 1], g, k)
    {
      DeclaredValuesSnoc(ms, g, k);
    }
  }

  /** The reference bucket grows at the back as the configuration does. */
  lemma {:induction false} DeclaredBucketSnoc(ms: seq<Mapping>, g: GeomClass, k: string, v: string)
    requires ms != []
    ensures DeclaredBucket(ms, g, k, v) == DeclaredBucket(ms[..|ms| - 1], g, k, v) + Contribution(ms[|ms| - 1], g, k, v)
  {
    var init := ms[..|ms| - 1];
    if |ms| > 1 {
      DeclaredBucketSnoc(ms[1..], g, k, v);
      assert ms[1..][..|ms| - 2] == init[1..];
      assert init[0] == ms[0];
      assert ms[1..][|ms| - 2] == ms[|ms| - 1];
    } else {
      assert init == [] && ms[1..] == [];
    }
  }

  /** The reference relevance grows as the configuration does. */
  lemma {:induction false} DeclaredValuesSnoc(ms: seq<Mapping>, g: GeomClass, k: string)
    requires ms != []
    ensures DeclaredValues(ms, g, k) == DeclaredValues(ms[..|ms| - 1], g, k) + RelevantFor(ms[|ms| - 1], g, k)
  {
    var init := ms[..|ms| - 1];
    if |ms| > 1 {
      DeclaredValuesSnoc(ms[1..], g, k);
      assert ms[1..][..|ms| - 2] == init[1..];
      assert init[0] == ms[0];
      assert ms[1..][|ms| - 2] == ms[|ms| - 1];
    } else {
      assert init == [] && ms[1..] == [];
    }
  }

  /** `TagMapper(mappings)`: `_init_map` over the configured mappings in
      order. Every bucket holds exactly the reference contents (so the
      mappings appear in configuration order) and every relevance set exactly
      the declared values. */
  function Build(ms: seq<Mapping>): (tm: TagMapper)
    ensures AllWF(tm)
    ensures forall g, k, v :: BucketOf(tm.Sub(g).buckets, k, v) == DeclaredBucket(ms, g, k, v)
    ensures forall g, k :: ValuesOf(tm.Sub(g).relevant, k) == DeclaredValues(ms, g, k)
  {
    if ms == [] then Empty
    else
      var prev := Build(ms[..|ms| - 1]);
      DeclaredSnoc(ms);
      AddMapping(prev, ms[|ms| - 1])
  }

  lemma {:induction false} CountPositive(vs: seq<string>, v: string)
    ensures Count(vs, v) > 0 <==> v in vs
  {
    if vs != [] {
      CountPositive(vs[1..], v);
      assert vs == [vs[0]] + vs[1..];
    }
  }

  lemma {:induction false} OccurrencesPositive(rules: seq<Rule>, k: string, v: string)
    ensures Occurrences(rules, k, v) > 0 <==> exists r :: r in rules && r.key == k && v in r.values
    ensures v in DeclaredIn(rules, k) <==> exists r :: r in rules && r.key == k && v in r.values
  {
    if rules != [] {
      OccurrencesPositive(rules[1..], k, v);
      CountPositive(rules[0].values, v);
      assert forall r :: r in rules <==> r == rules[0] || r in rules[1..];
    }
  }

  lemma {:induction false} InDeclaredBucket(ms: seq<Mapping>, g: GeomClass, k: string, v: string, m: Mapping)
    ensures m in DeclaredBucket(ms, g, k, v) <==> m in ms && m.geom == g && Declares(m, k, v)
  {
    if ms != [] {
      InDeclaredBucket(ms[1..], g, k, v, m);
      OccurrencesPositive(ms[0].rules, k, v);
      OccurrencesPositive(m.rules, k, v);
      assert m in ms <==> m == ms[0] || m in ms[1..];
      var c := Contribution(ms[0], g, k, v);
      assert m in c <==> m == ms[0] && ms[0].geom == g && Occurrences(ms[0].rules, k, v) > 0 by {
        if m in c {
          var i :| 0 <= i < |c| && c[i] == m;
        }
        if m == ms[0] && ms[0].geom == g && Occurrences(ms[0].rules, k, v) > 0 {
          assert c[0] == m;
        }
      }
    }
  }

  lemma {:induction false} InDeclaredValues(ms: seq<Mapping>, g: GeomClass, k: string, v: string)
    ensures v in DeclaredValues(ms, g, k) <==>
      exists m :: m in ms && m.geom == g && (Declares(m, k, v) || (v == ANY && k in ExtraFieldNames(m)))
  {
    if ms != [] {
      InDeclaredValues(ms[1..], g, k, v);
      OccurrencesPositive(ms[0].rules, k, v);
      assert forall m :: m in ms <==> m == ms[0] || m in ms[1..];
    }
  }

  /** The bucket under `k`/`v` of class `g` lists exactly the configured
      mappings of class `g` whose rule set lists `v` for `k`; there is an
      entry for `v` exactly when the bucket is non-empty. */
  lemma BuildBuckets(ms: seq<Mapping>, g: GeomClass, k: string, v: string, m: Mapping)
    ensures m in BucketOf(Build(ms).Sub(g).buckets, k, v) <==> m in ms && m.geom == g && Declares(m, k, v)
    ensures (k in Build(ms).Sub(g).buckets && v in Build(ms).Sub(g).buckets[k]) <==> BucketOf(Build(ms).Sub(g).buckets, k, v) != []
  {
    InDeclaredBucket(ms, g, k, v, m);
  }

  /** `v` is relevant for `k` in class `g` exactly when a configured mapping
      of class `g` lists it for `k`, or `v` is `ANY` and `k` is a column or
      filter tag of such a mapping; keys without relevant values are absent. */
  lemma BuildRelevance(ms: seq<Mapping>, g: GeomClass, k: string, v: string)
    ensures v in ValuesOf(Build(ms).Sub(g).relevant, k) <==>
      exists m :: m in ms && m.geom == g && (Declares(m, k, v) || (v == ANY && k in ExtraFieldNames(m)))
    ensures k in Build(ms).Sub(g).relevant <==> ValuesOf(Build(ms).Sub(g).relevant, k) != {}
  {
    InDeclaredValues(ms, g, k, v);
  }

  /** Completeness of construction: every declared pair of every mapping is
      relevant and lists the mapping in its class's index, and every column
      or filter tag is wildcard-relevant there. */
  lemma BuildComplete(ms: seq<Mapping>, m: Mapping, rule: Rule, v: string, extra: string)
    requires m in ms && rule in m.rules && v in rule.values
    ensures v in ValuesOf(Build(ms).Sub(m.geom).relevant, rule.key)
    ensures m in BucketOf(Build(ms).Sub(m.geom).buckets, rule.key, v)
    ensures extra in ExtraFieldNames(m) ==> ANY in ValuesOf(Build(ms).Sub(m.geom).relevant, extra)
  {
    BuildBuckets(ms, m.geom, rule.key, v, m);
    BuildRelevance(ms, m.geom, rule.key, v);
    BuildRelevance(ms, m.geom, extra, ANY);
  }
}
