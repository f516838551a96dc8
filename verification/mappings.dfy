/** Feature mappings: one destination table each, with the geometry class it
    accepts, its tag rule set, its columns and its per-feature filters. */
module Mappings {
  import opened Wrappers
  import opened Text
  import opened Tags
  import opened FieldTypes

  /** The rule-set value that matches any value of its key. */
  const ANY: string := "__any__"

  /** The table class of a mapping (`Points`, `LineStrings`, `Polygons`). */
  datatype GeomClass = Point | Line | Polygon

  /** One entry of a rule set: a tag key and the values that select the
      mapping (`ANY` among them for every value). */
  datatype Rule = Rule(key: string, values: seq<string>)

  /** A column (or a filter): the tag it reads and the field type applied. */
  datatype Field = Field(name: string, ftype: FieldType)

  /** A configured mapping. `id` stands for the identity of the configured
      object: two mappings are the same exactly when they are equal. */
  datatype Mapping = Mapping(
    id: nat,
    name: string,
    geom: GeomClass,
    rules: seq<Rule>,
    fields: seq<Field>,
    filters: seq<Field>)

  /** Placeholder names that are blanked rather than stored. */
  const FilterOutNames: set<string> := {
    "fixme", "fix me", "fix-me!",
    "kein name", "kein",
    "unbenannt", "unbekannt",
    "noch unbekannt", "noch ohne namen",
    "noname", "unnamed", "namenlos", "no_name", "no name"}

  /** `Mapping.name_filter`: a non-empty name whose lower-cased form is a
      placeholder becomes empty; every other name is kept. */
  function NameFilter(name: string): (r: string)
    ensures r == name || r == ""
    ensures r == "" <==> name == "" || Lower(name) in FilterOutNames
  {
    if name != "" && Lower(name) in FilterOutNames then "" else name
  }

  /** Placeholders are recognised whatever their letter case, but not when
      padded: the name is lower-cased, never stripped. */
  lemma NameFilterExamples()
    ensures NameFilter("Unnamed") == ""
    ensures NameFilter(" unnamed") == " unnamed"
    ensures NameFilter("Main St") == "Main St"
  {
    assert Lower("Unnamed") == "unnamed";
    assert Lower(" unnamed") == " unnamed";
    assert Lower("Main St")[0] == 'm';
  }

  /** Blanking is final: a filtered name passes the filter unchanged. */
  lemma {:induction false} NameFilterIdempotent(name: string)
    ensures NameFilter(NameFilter(name)) == NameFilter(name)
  {
  }

  /** Letter case never decides whether a name is blanked. */
  lemma {:induction false} NameFilterCaseInsensitive(name: string)
    ensures NameFilter(name) == "" <==> NameFilter(Lower(name)) == ""
  {
    var l := Lower(name);
    LowerFixed(l);
  }

  function FieldNames(fs: seq<Field>): (r: seq<string>)
    ensures |r| == |fs|
    ensures forall i :: 0 <= i < |fs| ==> r[i] == fs[i].name
  {
    seq(|fs|, i requires 0 <= i < |fs| => fs[i].name)
  }

  /** `Mapping.extra_field_names`: the tag names of the columns, then of
      the filters, in declaration order. */
  function ExtraFieldNames(m: Mapping): (r: seq<string>)
    ensures |r| == |m.fields| + |m.filters|
    ensures forall i :: 0 <= i < |m.fields| ==> r[i] == m.fields[i].name
    ensures forall i :: 0 <= i < |m.filters| ==> r[|m.fields| + i] == m.filters[i].name
    ensures forall n :: n in r <==> (exists f :: f in m.fields && f.name == n) || (exists f :: f in m.filters && f.name == n)
  {
    var r := FieldNames(m.fields) + FieldNames(m.filters);
    assert forall i :: 0 <= i < |m.filters| ==> r[|m.fields| + i] == m.filters[i].name;
    r
  }

  /** A mapping as the configuration must supply it: `OneOfInt` columns
      list integer literals and every filter is a `Bool` (the only field
      type with a `filter`). */
  predicate ValidMapping(m: Mapping) {
    && (forall f :: f in m.fields ==> ValidFieldType(f.ftype))
    && (forall f :: f in m.filters ==> f.ftype.BoolField? && ValidFieldType(f.ftype))
  }

  /** The value one column converts to for a feature. */
  function ColumnValue(f: Field, elem: Element): Result<FieldValue>
    requires ValidFieldType(f.ftype)
  {
    ConvertValue(f.ftype, Get(elem.tags, f.name), elem)
  }

  /** Converts the columns in order; the first drop drops the feature. */
  function ConvertFields(fields: seq<Field>, elem: Element): (r: Result<seq<FieldValue>>)
    requires forall f :: f in fields ==> ValidFieldType(f.ftype)
    ensures r.Ok? <==> forall i :: 0 <= i < |fields| ==> ColumnValue(fields[i], elem).Ok?
    ensures r.Ok? ==> |r.value| == |fields|
    ensures r.Ok? ==> forall i :: 0 <= i < |fields| ==> ColumnValue(fields[i], elem) == Ok(r.value[i])
  {
    if fields == [] then Ok([])
    else
      match ColumnValue(fields[0], elem)
      case Drop => Drop
      case Ok(v) =>
        match ConvertFields(fields[1..], elem)
        case Drop =>
          assert forall i :: 1 <= i < |fields| ==> fields[i] == fields[1..][i - 1];
          Drop
        case Ok(vs) =>
          assert forall i :: 1 <= i < |fields| ==> fields[i] == fields[1..][i - 1];
          Ok([v] + vs)
  }

  /** `Mapping.field_values`: one value per declared column, in column
      order, or a drop when any column drops the feature. */
  function FieldValues(m: Mapping, elem: Element): (r: Result<seq<FieldValue>>)
    requires ValidMapping(m)
    ensures r.Ok? <==> forall i :: 0 <= i < |m.fields| ==> ColumnValue(m.fields[i], elem).Ok?
    ensures r.Ok? ==> |r.value| == |m.fields|
    ensures r.Ok? ==> forall i :: 0 <= i < |m.fields| ==> ColumnValue(m.fields[i], elem) == Ok(r.value[i])
  {
    ConvertFields(m.fields, elem)
  }

  /** Whether one filter lets the feature through. */
  predicate FilterPasses(f: Field, elem: Element)
    requires f.ftype.BoolField?
  {
    BoolFilter(f.ftype.negAliases, Get(elem.tags, f.name)).Ok?
  }

  /** Runs the filters in order; the first that rejects drops the feature. */
  function RunFilters(filters: seq<Field>, elem: Element): (r: Result<()>)
    requires forall f :: f in filters ==> f.ftype.BoolField?
    ensures r.Ok? <==> forall i :: 0 <= i < |filters| ==> FilterPasses(filters[i], elem)
  {
    if filters == [] then Ok(())
    else if !FilterPasses(filters[0], elem) then Drop
    else
      var r := RunFilters(filters[1..], elem);
      assert forall i :: 1 <= i < |filters| ==> filters[i] == filters[1..][i - 1];
      r
  }

  /** `Mapping.filter`: the feature is kept exactly when, for every filter,
      the filtered tag is absent or reads as a negated alias. */
  function Filter(m: Mapping, elem: Element): (r: Result<()>)
    requires ValidMapping(m)
    ensures r.Ok? <==> forall i :: 0 <= i < |m.filters| ==>
              var raw := Get(elem.tags, m.filters[i].name);
              raw.None? || Normalize(raw.value) in m.filters[i].ftype.negAliases
  {
    RunFilters(m.filters, elem)
  }
}
