# imposm feature classification, modelled in Dafny

This project models the feature-classification engine of imposm, the
OpenStreetMap-to-PostGIS importer (`imposm/mapping.py`). The engine has four
parts.

- **The tag mapper index.** `TagMapper._init_map` builds three sub-indices,
  one each for points, lines and polygons. Each sub-index holds:
  - buckets, mapping tag key → tag value (or the wildcard `__any__`) → the
    mappings that declare it, in configuration order;
  - a relevance map, mapping tag key → the set of values that matter for
    that key.
- **The mapping query.** `_mapping_for_tags` walks a feature's tags in order.
  - It prefers an exact-value bucket over the wildcard bucket.
  - It never emits a mapping twice, and it leaves out groups that contribute
    nothing new.
  - `for_nodes` queries the point index. `for_ways` queries the line index
    and then the polygon index. `for_relations` queries the polygon index.
- **The tag filters.** These cut a feature's tags down to the ones that
  matter before they are cached.
  - The base filter keeps relevant tags. It always keeps `name`, but drops a
    lone `name`.
  - The relation filter adds a multipolygon/boundary eligibility gate. It
    also clears every tag when filtering removed some tags and only `type`
    and `name` are left.
- **The field types and per-mapping conversions.** The field types are
  `Bool`, `Direction`, `OneOfInt`, `Integer`, `ZOrder` and `WayZOrder`.
  The per-mapping operations are `Mapping.field_values`, `Mapping.filter`,
  `Mapping.name_filter` and `Mapping.extra_field_names`.

Modelling choices:

- A feature's tags are a `seq<Tag>` with distinct keys. It stands for the
  Python dict together with its iteration order. The filters return
  order-preserving subsequences instead of deleting in place.
- A mapping is an immutable datatype. Its `id` stands for Python object
  identity.
- The `DropElem` exception is the `Drop` case of `Result`.
- Python's `int()` is modelled as an optional sign followed by decimal
  digits, returning an `Option`.
- `.strip().lower()` works on ASCII whitespace and ASCII letters.

Files and modules:

- `wrappers.dfy` (`Wrappers`): `Option` and `Result`.
- `text.dfy` (`Text`): strip, lower-casing and integer parsing.
- `tags.dfy` (`Tags`): tags, features and order-preserving subsequences.
- `field_types.dfy` (`FieldTypes`): the field types.
- `mappings.dfy` (`Mappings`): mappings and their per-feature conversions.
- `tag_index.dfy` (`TagIndex`): index construction and its reference
  definition.
- `mapping_query.dfy` (`MappingQuery`): the query and its agreement with the
  declarations.
- `tag_filters.dfy` (`TagFilters`): the filters.
- `scenarios.dfy` (`Scenarios`): small concrete configurations.

### Behaviour worth noting

Each point below is a fact about `imposm/mapping.py`, and the model follows it.

- **Relation filter on `{type: multipolygon, name: X}`.** These tags pass
  unchanged (`imposm/mapping.py:184-192`). The clearing rule runs only when
  filtering removed a tag, and here nothing is removed. See
  `Scenarios.RelationNamedMultipolygon`.
- **`for_ways` with a wildcard mapping and an exact mapping.** Take two line
  mappings, one declaring `highway: ANY` and one declaring
  `highway: primary`. A `highway=primary` way gets only the exact mapping,
  because the exact bucket hides the wildcard bucket
  (`imposm/mapping.py:203-206`). See `Scenarios.ExactHidesWildcard`.
- **`ZOrder` ranking.** The list is reversed before it is numbered
  (`imposm/mapping.py:383`). So the first listed type ranks highest, and the
  last listed type gets 0, the same as an unlisted type. See
  `FieldTypes.ZOrderLastTiesUnlisted`.
- **`name_filter`.** The name is lower-cased but not trimmed before the
  placeholder lookup (`imposm/mapping.py:70`), so a padded placeholder is
  kept.
- **`WayZOrder` rank table.** It also ranks `minor` and `motorway_link`, both
  at 3 (`imposm/mapping.py:404-419`).

## Model

| member | source | states |
|---|---|---|
| Text.Strip | imposm/mapping.py:310 | the stripped value has no surrounding whitespace and is the input with leading and trailing whitespace cut off |
| Text.Lower | imposm/mapping.py:310 | lower-casing keeps the length and works character by character: `A`..`Z` become the matching letter of `a`..`z`, and every other character, whitespace included, stays as it is |
| Text.StripPadded | imposm/mapping.py:310 | one space either side of trimmed text strips back to that text |
| Text.NormalizeIdempotent | imposm/mapping.py:310 | stripping and lower-casing an already normalised value changes nothing |
| Text.ParseInt | imposm/mapping.py:364-368 | `int()` succeeds exactly on an optionally signed non-empty run of decimal digits, and its value is the digits' decimal value, negated after a `-` |
| Text.ParseFormat | imposm/mapping.py:364-368 | parsing the decimal rendering of any integer gives that integer back |
| Text.ParseIntPrefixes | imposm/mapping.py:364-368 | a leading `+` or a leading zero in front of a digit string leaves the parsed value unchanged |
| FieldTypes.MakeBool | imposm/mapping.py:300-307 | the negative aliases are the given set, or the default's alias set when the given one is empty; never empty |
| FieldTypes.BoolValue | imposm/mapping.py:309-312 | the value is 0 or 1, and it is 0 exactly when the tag is absent or its stripped, lower-cased form is a negative alias |
| FieldTypes.BoolFilter | imposm/mapping.py:314-316 | the filter drops the feature exactly when the tag is present and its normalised form is not a negative alias, that is, when the value is 1 |
| FieldTypes.BoolNormalForm | imposm/mapping.py:310 | a Bool value depends only on the normalised tag value |
| FieldTypes.BoolDefaults | imposm/mapping.py:300-312 | `Bool()` built without aliases reads an absent tag and `no` as 0, and `yes` as 1 |
| FieldTypes.BoolFilterDefaults | imposm/mapping.py:314-316 | as a filter, `Bool()` built without aliases drops the feature on `yes`, and keeps it on `no` and on an absent tag |
| FieldTypes.DirectionValue | imposm/mapping.py:328-335 | the value is in -1..1; it is 1 exactly for normalised `yes`, `true` or `1`, and -1 exactly for normalised `-1`; everything else, including an absent or empty tag, gives 0 |
| FieldTypes.DirectionNormalForm | imposm/mapping.py:328-335 | a direction depends only on the normalised tag value |
| FieldTypes.OneOfIntValue | imposm/mapping.py:347-353 | the conversion succeeds exactly when the raw value is one of the listed strings, and then yields that string's integer |
| FieldTypes.OneOfIntExample | imposm/mapping.py:347-353 | with values 1, 2 and 3, `2` converts to 2 and `4` drops the feature |
| FieldTypes.OneOfIntRoundTrip | imposm/mapping.py:347-353 | every listed decimal rendering of an integer converts back to that integer |
| FieldTypes.IntegerValue | imposm/mapping.py:364-368 | an absent tag gives null, and a present one gives exactly what `int()` gives, null on a parse failure |
| FieldTypes.IntegerRoundTrip | imposm/mapping.py:364-368 | the decimal rendering of any integer converts back to it; `abc` and an absent tag give null |
| FieldTypes.RankTable | imposm/mapping.py:381-384 | the ranked types are exactly the listed ones, and the first occurrence at position i of n ranks n-1-i |
| FieldTypes.ZOrderValue | imposm/mapping.py:386-387 | a listed type whose first occurrence is at position i of n gets n-1-i; an unlisted type gets 0 |
| FieldTypes.ZOrderRanking | imposm/mapping.py:381-387 | the first listed type gets the top rank, an earlier-listed type outranks a later one, and an unlisted type gets 0 |
| FieldTypes.ZOrderLastTiesUnlisted | imposm/mapping.py:383-387 | the last listed type ranks 0, the same as an unlisted type |
| FieldTypes.Layer | imposm/mapping.py:441-446 | the layer is 0 when the `layer` tag is missing or does not parse, and its integer otherwise |
| FieldTypes.KindRank | imposm/mapping.py:404-431 | the road rank is in 0..9; a ranked type gets its table rank, and an unranked one gets 7 when a `railway` tag is present and 0 otherwise |
| FieldTypes.WayZOrderValue | imposm/mapping.py:421-439 | the z-order is ten times (layer, plus one for a Bool-true bridge, minus one for a Bool-true tunnel), plus the road rank |
| FieldTypes.WayZOrderDecomposes | imposm/mapping.py:423-439 | the tens of the z-order are the vertical level and the units the road rank, so a higher level is always drawn above a lower one |
| FieldTypes.WayZOrderExample | imposm/mapping.py:404-446 | a primary road on a bridge in layer 1 has z-order 26 |
| FieldTypes.ConvertValue | imposm/mapping.py:277-446 | a conversion drops the feature exactly for OneOfInt on an unlisted value; String passes the value through; Bool, Direction, ZOrder and WayZOrder give their own values; OneOfInt gives the integer the listed value denotes; Integer gives the parsed integer, and null exactly when the value is absent or does not parse |
| Mappings.NameFilter | imposm/mapping.py:47-71 | the name is kept or blanked, and it is blanked exactly when it is empty or its lower-cased form is a placeholder name |
| Mappings.NameFilterExamples | imposm/mapping.py:47-71 | `Unnamed` is blanked; ` unnamed` (not trimmed) and `Main St` are kept |
| Mappings.NameFilterIdempotent | imposm/mapping.py:69-71 | a filtered name passes the filter unchanged |
| Mappings.NameFilterCaseInsensitive | imposm/mapping.py:69-71 | a name is blanked exactly when its lower-cased form is blanked: letter case never decides |
| Mappings.FieldNames | imposm/mapping.py:74 | the names of a field list, position by position |
| Mappings.ExtraFieldNames | imposm/mapping.py:73-74 | the column names in column order, followed by the filter names in filter order, and nothing else |
| Mappings.ConvertFields | imposm/mapping.py:83-84 | the row converts exactly when every column converts, and then holds each column's value in field order |
| Mappings.FieldValues | imposm/mapping.py:83-84 | a mapping's row is its columns' values in order, and the row is dropped exactly when some column drops |
| Mappings.RunFilters | imposm/mapping.py:86-87 | a filter list passes exactly when every filter passes |
| Mappings.Filter | imposm/mapping.py:86-87 | a feature passes a mapping's filters exactly when every filtered tag is absent or normalises to one of its negative aliases |
| TagIndex.MarkAny | imposm/mapping.py:117-118 | every extra field name gains `__any__` relevance, and nothing else changes |
| TagIndex.AddValue | imposm/mapping.py:122-124 | one declared value is appended to its bucket and made relevant, and nothing else changes |
| TagIndex.AddValues | imposm/mapping.py:122-124 | each bucket of the key gains the mapping once per listing of that value, and the listed values become relevant |
| TagIndex.AddRule | imposm/mapping.py:120-124 | one rule-set entry creates its key (even with no values) and adds its values as above |
| TagIndex.AddRules | imposm/mapping.py:120-124 | a whole rule set adds the mapping once per declared pair and makes every declared value relevant |
| TagIndex.AddMapping | imposm/mapping.py:106-124 | one mapping changes only its own class's index, adding its declared pairs to the buckets and its declared values and extra field names to the relevance |
| TagIndex.Build | imposm/mapping.py:98-124 | every bucket equals the configured mappings of its class that declare its pair, in configuration order; every relevance set equals the declared values |
| TagIndex.BuildBuckets | imposm/mapping.py:98-124 | a mapping is in a bucket exactly when it is configured, of that class, and declares that pair; an entry exists exactly when its bucket is non-empty |
| TagIndex.BuildRelevance | imposm/mapping.py:98-124 | a value is relevant for a key exactly when a mapping of the class declares it, or it is `__any__` and the key names one of the mapping's fields or filters |
| TagIndex.BuildComplete | imposm/mapping.py:106-124 | every declared pair of every mapping is relevant and holds that mapping in its bucket, and every extra field name is wildcard-relevant |
| MappingQuery.NewOnes | imposm/mapping.py:208-212 | the not-yet-seen candidates, each once, in the order of their first occurrence among the candidates |
| MappingQuery.Collect | imposm/mapping.py:199-216 | every group is non-empty and lists its own tag's candidates in their order; every mapping sits in the group of the first tag whose candidates include it; group tags follow the input order; no mapping is emitted twice; exactly the unseen candidates of all tags are emitted |
| MappingQuery.MappingsForTags | imposm/mapping.py:195-216 | the result is a grouping of the tags: groups in tag order, non-empty and in candidate order, each mapping once, under the first tag that selects it, and every candidate of every tag emitted |
| MappingQuery.FirstSelectorAt | imposm/mapping.py:199-214 | the first selector of a mapping is the earliest tag whose candidates include it |
| MappingQuery.GroupedUnderFirstTag | imposm/mapping.py:199-214 | for a dict's tags, a mapping in the group of tag j is among tag j's candidates and among no earlier tag's |
| MappingQuery.GroupingUnique | imposm/mapping.py:195-216 | for a dict's tags, at most one result meets the query's contract |
| MappingQuery.MappingsForTagsCharacterised | imposm/mapping.py:195-216 | for a dict's tags, a result meets the query's contract exactly when it is the query's own result |
| MappingQuery.ForNodes | imposm/mapping.py:126-127 | the result is a grouping of the tags over the point index, as for `_mapping_for_tags` |
| MappingQuery.ForWays | imposm/mapping.py:129-131 | the result splits into a grouping of the tags over the line index followed by a grouping over the polygon index; every group comes from an input tag, and exactly the line and polygon candidates are emitted |
| MappingQuery.ForRelations | imposm/mapping.py:133-134 | the result is a grouping of the tags over the polygon index, as for `_mapping_for_tags` |
| MappingQuery.CandidatesWF | imposm/mapping.py:203-206 | a tag's candidates are its exact-value bucket when that is non-empty, and its wildcard bucket otherwise |
| MappingQuery.CandidatesOfBuild | imposm/mapping.py:199-206 | in a built index a tag selects the mappings declaring its exact value, or, only when none does, those declaring `__any__` for its key |
| MappingQuery.QueryMatchesDeclarations | imposm/mapping.py:195-216 | on a built index the query emits exactly the mappings some tag selects, and each group lists only mappings its own tag selects |
| MappingQuery.ForWaysOfBuild | imposm/mapping.py:129-131 | on a built index `for_ways` never repeats a mapping, and emits exactly what some tag selects among line or polygon mappings |
| MappingQuery.NodesAndRelationsOfBuild | imposm/mapping.py:126-134 | on a built index `for_nodes` and `for_relations` emit exactly what some tag selects among point and polygon mappings respectively |
| TagFilters.KeepRelevant | imposm/mapping.py:139-148 | the deletion loop keeps exactly the tags whose key is relevant with `__any__` or their own value, in order |
| TagFilters.KeptWithName | imposm/mapping.py:137 | with `name` forced wildcard-relevant, a tag survives exactly when it is `name` or relevant |
| TagFilters.BaseFilter | imposm/mapping.py:136-151 | the result keeps input order and only kept tags; it is empty exactly when no kept tag other than `name` exists; otherwise it holds every kept tag |
| TagFilters.BaseFilterIdempotent | imposm/mapping.py:136-151 | filtering filtered tags again changes nothing |
| TagFilters.UnionRelevance | imposm/mapping.py:157-163 | the combined relevance holds, for each key, the union of both maps' values |
| TagFilters.RelevantUnion | imposm/mapping.py:157-164 | a tag is relevant to the combined map exactly when it is relevant to the line or to the polygon map |
| TagFilters.NodeFilter | imposm/mapping.py:136-155 | the node filter keeps, in order, only `name` and point-relevant tags; it gives nothing exactly when no point-relevant tag other than `name` exists, and otherwise keeps every such tag and `name` |
| TagFilters.WayFilter | imposm/mapping.py:136-164 | the way filter keeps, in order, only `name` and tags relevant to the line or the polygon index; it gives nothing exactly when no such tag other than `name` exists, and otherwise keeps every such tag and `name` |
| TagFilters.RelationFilter | imposm/mapping.py:166-193 | an ineligible relation loses every tag; an eligible one loses every tag exactly when filtering removes some tag and only `type`/`name` would remain; otherwise it keeps exactly its kept tags, `type` among them |
| TagFilters.RelationFilterStep | imposm/mapping.py:176-188 | for an eligible relation the base filter keeps `type`, the tag count drops exactly when some tag is not kept, and the `type`/`name` test on the result agrees with the test on the input |
| Scenarios.NodeFilterExamples | imposm/mapping.py:136-155 | with only `highway` relevant, `{highway, name, fixme}` filters to `{highway, name}`, and a lone `name` filters to nothing |
| Scenarios.RelationIneligible | imposm/mapping.py:176-183 | a relation of type `associatedStreet` loses all its tags |
| Scenarios.RelationBuilding | imposm/mapping.py:166-193 | a multipolygon with a relevant `building` tag passes unchanged |
| Scenarios.RelationNamedMultipolygon | imposm/mapping.py:184-192 | a multipolygon with only `type` and `name` passes unchanged, because nothing was removed |
| Scenarios.ExactHidesWildcard | imposm/mapping.py:199-206 | with a wildcard and an exact `highway` line mapping, `highway=primary` gets only the exact one and `highway=residential` only the wildcard one |

## Left out

- `Mapping.build_geom` and the geometry builders (`imposm/mapping.py:76-81`, 234-254): they call external geometry code. Geometry is not modelled.
- `insert_stmt`, `GeneralizedTable`, `UnionView`, `Options` and the `column_type` strings: these are database and SQL plumbing.
- `imposm/app.py` is not part of this model. It is command-line handling, loading the mapping script, caches, database setup and the worker processes.
- `Text.Strip`, `Text.Lower`: ASCII only. Python's `str.strip` and `str.lower` also handle non-ASCII whitespace and letters, and the model has no Unicode tables.
- `Text.ParseInt`: accepts only an optional sign and decimal digits. Python's `int()` also accepts surrounding whitespace.
- `Mappings.NameFilter`: takes the name as a string. The `None`-versus-empty distinction of `osm_elem.name` is not modelled, and an absent name is taken to be empty.
- `FieldTypes.WayZOrderValue`: does not model the SMALLINT column. The database, not this code, would reject a z-order outside 16 bits.
- `FieldTypes.OneOfIntValue`: requires every listed value to parse as an integer. For a listed value that does not parse, the code raises `ValueError` instead of dropping the feature.
- `Mappings.Filter`: requires every filter to be a `Bool`. Other field types have no `filter` method, and calling one fails with `AttributeError`.
- `FieldTypes.ConvertValue`: String values are modelled as text or null. Values of other Python types are not modelled.
- Object identity: a mapping's identity is modelled by value equality of the `Mapping` datatype, with an `id` field so that two otherwise equal mappings stay distinct.
