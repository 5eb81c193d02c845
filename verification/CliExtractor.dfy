// The field registry of the CLI field extractor
// (src/claude-cli-analyzer/src/core/field_extractor.py): recording one
// sighting of a value at a path, walking a record to produce its sightings,
// deciding enum fields, folding `[n]` index paths into `[*]` patterns and
// summarising the registry.

module CliFieldExtractor {
  import opened Text
  import opened JsonModel
  import opened Ordering
  import opened Patterns
  import opened ValueTruncation
  import opened CliFieldTypes

  datatype FieldInfo = FieldInfo(
    path: string,
    dataType: string,
    valueExamples: seq<Json>,
    occurrenceCount: nat,
    nullCount: nat,
    uniqueValues: set<Scalar>,
    isEnum: bool,
    enumValues: seq<Scalar>,
    valuePatterns: seq<string>)

  /** `ExtractionResult`. */
  datatype ExtractionSummary = ExtractionSummary(
    totalRecordsProcessed: nat,
    totalFieldsDiscovered: nat,
    registry: Registry,
    dataTypeDistribution: map<string, nat>,
    enumFields: map<string, seq<Scalar>>)

  datatype Config = Config(maxUniqueValues: nat, maxExamples: nat, maxValueLength: nat)

  /** The constructor's defaults. */
  const DefaultConfig := Config(50, 10, 100)

  /** The registry: a dict from path to field, in insertion order. */
  datatype Registry = Registry(order: seq<string>, fields: map<string, FieldInfo>)

  function NewField(path: string, dataType: string): FieldInfo {
    FieldInfo(path, dataType, [], 0, 0, {}, false, [], [])
  }

  /** A stored example: a non-null scalar, strings in truncated form. */
  predicate ExampleForm(e: Json, maxLength: nat) {
    IsScalar(e) && (e.Str? ==> TruncatedForm(e.s, maxLength))
  }

  /** What every registered field satisfies. */
  predicate FieldOk(cfg: Config, path: string, f: FieldInfo) {
    f.path == path
    && f.nullCount <= f.occurrenceCount
    && |f.valueExamples| <= cfg.maxExamples
    && Distinct(f.valueExamples)
    && (forall i :: 0 <= i < |f.valueExamples| ==> ExampleForm(f.valueExamples[i], cfg.maxValueLength))
    && Distinct(f.valuePatterns)
  }

  /** The order lists every registered path exactly once. */
  predicate OrderOk(reg: Registry) {
    Distinct(reg.order)
    && (forall p :: p in reg.order ==> p in reg.fields)
    && (forall p :: p in reg.fields ==> p in reg.order)
  }

  predicate RegistryOk(cfg: Config, reg: Registry) {
    OrderOk(reg)
    && (forall p :: p in reg.fields ==> FieldOk(cfg, p, reg.fields[p]))
  }

  // ---------------------------------------------------------------------
  // Recording one sighting (`_record_field`).

  /** Keep the truncated value as an example while there is room and it is new. */
  function WithExample(cfg: Config, f: FieldInfo, v: Json): (r: FieldInfo)
    ensures r == f || (r == f.(valueExamples := f.valueExamples + [TruncateForOutput(v, cfg.maxValueLength)])
                       && |f.valueExamples| < cfg.maxExamples
                       && TruncateForOutput(v, cfg.maxValueLength) !in f.valueExamples)
  {
    var truncated := TruncateForOutput(v, cfg.maxValueLength);
    if |f.valueExamples| < cfg.maxExamples && truncated !in f.valueExamples
    then f.(valueExamples := f.valueExamples + [truncated])
    else f
  }

  /** Collect a scalar while fewer than `maxUniqueValues` values are held. */
  function WithUnique(cfg: Config, f: FieldInfo, v: Json): (r: FieldInfo)
    ensures r == f || (IsScalar(v) && r == f.(uniqueValues := f.uniqueValues + {v})
                       && |f.uniqueValues| < cfg.maxUniqueValues)
  {
    if |f.uniqueValues| < cfg.maxUniqueValues && IsScalar(v)
    then f.(uniqueValues := f.uniqueValues + {v})
    else f
  }

  /** Append a string's pattern tag when it has one not yet recorded. */
  function WithPattern(f: FieldInfo, v: Json): (r: FieldInfo)
    ensures r == f || (v.Str? && ExtractStringPattern(v.s).Some?
                       && ExtractStringPattern(v.s).value !in f.valuePatterns
                       && r == f.(valuePatterns := f.valuePatterns + [ExtractStringPattern(v.s).value]))
  {
    var pattern := if v.Str? then ExtractStringPattern(v.s) else None;
    if pattern.Some? && pattern.value !in f.valuePatterns
    then f.(valuePatterns := f.valuePatterns + [pattern.value])
    else f
  }

  /** The field after one more sighting of `v`. */
  function Updated(cfg: Config, f: FieldInfo, v: Json): (r: FieldInfo)
    ensures r.path == f.path && r.isEnum == f.isEnum && r.enumValues == f.enumValues
    ensures r.occurrenceCount == f.occurrenceCount + 1
    ensures r.nullCount == f.nullCount + (if v.Null? then 1 else 0)
    ensures v.Null? ==> r.dataType == f.dataType && r.valueExamples == f.valueExamples
                        && r.uniqueValues == f.uniqueValues && r.valuePatterns == f.valuePatterns
    ensures !v.Null? ==> r.dataType == MergeDataTypes(f.dataType, InferDataType(v))
    ensures |r.uniqueValues| <= Max(|f.uniqueValues|, cfg.maxUniqueValues)
    ensures f.uniqueValues <= r.uniqueValues
  {
    var counted := f.(occurrenceCount := f.occurrenceCount + 1);
    if v.Null? then counted.(nullCount := counted.nullCount + 1)
    else
      var typed := counted.(dataType := MergeDataTypes(counted.dataType, InferDataType(v)));
      WithPattern(WithUnique(cfg, WithExample(cfg, typed, v), v), v)
  }

  /** Recording keeps the field invariant: bounded distinct truncated examples,
      distinct patterns, nulls never exceeding sightings. */
  lemma UpdatedKeepsFieldOk(cfg: Config, path: string, f: FieldInfo, v: Json)
    requires FieldOk(cfg, path, f)
    ensures FieldOk(cfg, path, Updated(cfg, f, v))
  {
    var r := Updated(cfg, f, v);
    if v.Null? {
      SameListsKeepOk(cfg, path, f, r);
    } else {
      var counted := f.(occurrenceCount := f.occurrenceCount + 1);
      var typed := counted.(dataType := MergeDataTypes(counted.dataType, InferDataType(v)));
      assert r == WithPattern(WithUnique(cfg, WithExample(cfg, typed, v), v), v);
      StagesKeepOk(cfg, path, typed, v);
    }
  }

  /** A field with the same examples and patterns, and no more nulls than sightings, stays well formed. */
  lemma SameListsKeepOk(cfg: Config, path: string, f: FieldInfo, r: FieldInfo)
    requires FieldOk(cfg, path, f)
    requires r.path == f.path && r.nullCount <= r.occurrenceCount
    requires r.valueExamples == f.valueExamples && r.valuePatterns == f.valuePatterns
    ensures FieldOk(cfg, path, r)
  {
  }

  /** Each stage of recording a non-null value keeps the field invariant. */
  lemma StagesKeepOk(cfg: Config, path: string, f: FieldInfo, v: Json)
    requires FieldOk(cfg, path, f) && !v.Null?
    ensures FieldOk(cfg, path, WithPattern(WithUnique(cfg, WithExample(cfg, f, v), v), v))
  {
    WithExampleKeepsOk(cfg, path, f, v);
    WithPatternKeepsOk(cfg, path, WithUnique(cfg, WithExample(cfg, f, v), v), v);
  }

  lemma WithExampleKeepsOk(cfg: Config, path: string, f: FieldInfo, v: Json)
    requires FieldOk(cfg, path, f) && !v.Null?
    ensures FieldOk(cfg, path, WithExample(cfg, f, v))
  {
    TruncateForOutputShape(v, cfg.maxValueLength);
    var truncated := TruncateForOutput(v, cfg.maxValueLength);
    if WithExample(cfg, f, v) != f {
      DistinctSnoc(f.valueExamples, truncated);
    }
  }

  lemma WithPatternKeepsOk(cfg: Config, path: string, f: FieldInfo, v: Json)
    requires FieldOk(cfg, path, f)
    ensures FieldOk(cfg, path, WithPattern(f, v))
  {
    if WithPattern(f, v) != f {
      DistinctSnoc(f.valuePatterns, ExtractStringPattern(v.s).value);
    }
  }

  /** `_record_field(path, v)` on the whole registry. */
  function Recorded(cfg: Config, reg: Registry, path: string, v: Json): Registry {
    var f := if path in reg.fields then reg.fields[path] else NewField(path, InferDataType(v));
    Registry(if path in reg.fields then reg.order else reg.order + [path],
             reg.fields[path := Updated(cfg, f, v)])
  }

  /** Recording adds the path at the end when it is new, counts the sighting
      at that path, and leaves every other field as it was. */
  lemma RecordedFrame(cfg: Config, reg: Registry, path: string, v: Json)
    requires RegistryOk(cfg, reg)
    ensures var r := Recorded(cfg, reg, path, v);
            RegistryOk(cfg, r)
            && r.fields.Keys == reg.fields.Keys + {path}
            && (path in reg.fields ==> r.order == reg.order)
            && (path !in reg.fields ==> r.order == reg.order + [path])
            && (forall q :: q in reg.fields && q != path ==> r.fields[q] == reg.fields[q])
            && r.fields[path].occurrenceCount == Occurrences(reg, path) + 1
            && r.fields[path].nullCount == Nulls(reg, path) + (if v.Null? then 1 else 0)
  {
    var f := if path in reg.fields then reg.fields[path] else NewField(path, InferDataType(v));
    UpdatedKeepsFieldOk(cfg, path, f, v);
    var r := Recorded(cfg, reg, path, v);
    if path !in reg.fields {
      DistinctSnoc(reg.order, path);
    }
    assert r.fields == reg.fields[path := Updated(cfg, f, v)];
    forall q | q in r.fields ensures FieldOk(cfg, q, r.fields[q]) {
      if q != path {
        assert r.fields[q] == reg.fields[q];
      }
    }
  }

  /** One sighting raises the counters of its own path only. */
  lemma RecordedCounters(cfg: Config, reg: Registry, p: string, v: Json, path: string)
    requires RegistryOk(cfg, reg)
    ensures var r := Recorded(cfg, reg, p, v);
            RegistryOk(cfg, r)
            && Occurrences(r, path) == Occurrences(reg, path) + (if p == path then 1 else 0)
            && Nulls(r, path) == Nulls(reg, path) + (if (p, v) == (path, Null) then 1 else 0)
            && (path in r.fields <==> path in reg.fields || p == path)
  {
    RecordedFrame(cfg, reg, p, v);
  }

  function Occurrences(reg: Registry, path: string): nat {
    if path in reg.fields then reg.fields[path].occurrenceCount else 0
  }

  function Nulls(reg: Registry, path: string): nat {
    if path in reg.fields then reg.fields[path].nullCount else 0
  }

  /** Recording a sequence of sightings, in order. */
  function RecordedAll(cfg: Config, reg: Registry, sightings: seq<(string, Json)>): Registry
    decreases |sightings|
  {
    if sightings == [] then reg
    else RecordedAll(cfg, Recorded(cfg, reg, sightings[0].0, sightings[0].1), sightings[1..])
  }

  lemma {:induction false} RecordedAllAppend(cfg: Config, reg: Registry, a: seq<(string, Json)>, b: seq<(string, Json)>)
    ensures RecordedAll(cfg, reg, a + b) == RecordedAll(cfg, RecordedAll(cfg, reg, a), b)
    decreases |a|
  {
    if a == [] {
      assert a + b == b;
    } else {
      var next := Recorded(cfg, reg, a[0].0, a[0].1);
      assert (a + b)[0] == a[0];
      assert (a + b)[1..] == a[1..] + b;
      RecordedAllAppend(cfg, next, a[1..], b);
      assert RecordedAll(cfg, reg, a + b) == RecordedAll(cfg, next, a[1..] + b);
      assert RecordedAll(cfg, reg, a) == RecordedAll(cfg, next, a[1..]);
    }
  }

  lemma RecordedAllCons(cfg: Config, reg: Registry, x: (string, Json), rest: seq<(string, Json)>)
    ensures RecordedAll(cfg, reg, [x] + rest) == RecordedAll(cfg, Recorded(cfg, reg, x.0, x.1), rest)
    ensures RecordedAll(cfg, reg, [x]) == Recorded(cfg, reg, x.0, x.1)
  {
    assert ([x] + rest)[1..] == rest;
    assert [x][1..] == [];
  }

  /** Recording one more chunk of a chunked batch. */
  lemma RecordedAllChunk(cfg: Config, start: Registry, head: seq<(string, Json)>, chunks: seq<seq<(string, Json)>>, i: nat)
    requires i < |chunks|
    ensures RecordedAll(cfg, RecordedAll(cfg, start, head + Flatten(chunks[..i])), chunks[i])
            == RecordedAll(cfg, start, head + Flatten(chunks[..i + 1]))
  {
    var done := Flatten(chunks[..i]);
    var next := Flatten(chunks[..i + 1]);
    FlattenSnoc(chunks, i);
    assert next == done + chunks[i];
    assert head + next == (head + done) + chunks[i];
    RecordedAllAppend(cfg, start, head + done, chunks[i]);
  }

  function CountAt(sightings: seq<(string, Json)>, path: string): nat {
    if sightings == [] then 0
    else (if sightings[0].0 == path then 1 else 0) + CountAt(sightings[1..], path)
  }

  function NullsAt(sightings: seq<(string, Json)>, path: string): nat {
    if sightings == [] then 0
    else (if sightings[0] == (path, Null) then 1 else 0) + NullsAt(sightings[1..], path)
  }

  /** After recording a batch of sightings, each path's counters have grown
      by exactly the number of its sightings (and of its null sightings),
      and the registry holds exactly the old paths and the sighted ones. */
  lemma {:induction false} RecordedAllCounts(cfg: Config, reg: Registry, sightings: seq<(string, Json)>, path: string)
    requires RegistryOk(cfg, reg)
    ensures var r := RecordedAll(cfg, reg, sightings);
            RegistryOk(cfg, r)
            && Occurrences(r, path) == Occurrences(reg, path) + CountAt(sightings, path)
            && Nulls(r, path) == Nulls(reg, path) + NullsAt(sightings, path)
            && (path in r.fields <==> path in reg.fields || CountAt(sightings, path) > 0)
    decreases |sightings|
  {
    if sightings != [] {
      var next := Recorded(cfg, reg, sightings[0].0, sightings[0].1);
      RecordedCounters(cfg, reg, sightings[0].0, sightings[0].1, path);
      RecordedAllCounts(cfg, next, sightings[1..], path);
    }
  }

  // ---------------------------------------------------------------------
  // The sightings a record produces (`extract_fields_from_value`).

  function ChildPath(path: string, key: string): string {
    if path != "" then path + "." + key else key
  }

  function IndexedPath(path: string, i: nat): string
    requires i < SampleSize
  {
    path + "[" + [DigitChar(i)] + "]"
  }

  function GenericPath(path: string): string {
    path + "[]"
  }

  /**
   * The `_record_field` calls that extracting `v` at `path` with depth
   * budget `depth` makes, in order.
   */
  function Sightings(v: Json, path: string, depth: int): seq<(string, Json)>
    decreases v, 0
  {
    if depth <= 0 then []
    else match v
      case Obj(ms) =>
        (if path != "" then [(path, v)] else [])
        + Flatten(seq(|ms|, i requires 0 <= i < |ms| => MemberSightings(path, ms[i].0, ms[i].1, depth)))
      case Arr(xs) =>
        (if path != "" then [(path, v)] else [])
        + Flatten(seq(Min(SampleSize, |xs|), i requires 0 <= i < Min(SampleSize, |xs|) =>
                        ElementSightings(path, i, xs[i], depth)))
      case _ => []
  }

  /** One key of an object: the key's own sighting, then its value's. */
  function MemberSightings(path: string, key: string, val: Json, depth: int): seq<(string, Json)>
    decreases val, 1
  {
    [(ChildPath(path, key), val)] + Sightings(val, ChildPath(path, key), depth - 1)
  }

  /** One of the first ten elements of a list. */
  function ElementSightings(path: string, i: nat, item: Json, depth: int): seq<(string, Json)>
    requires i < SampleSize
    decreases item, 1
  {
    if IsContainer(item) then
      Sightings(item, IndexedPath(path, i), depth - 1)
      + (if i == 0 then Sightings(item, GenericPath(path), depth - 1) else [])
    else [(GenericPath(path), item)]
  }

  /** A key whose value is an object or a list is seen twice per occurrence:
      once by its parent and once by itself; a scalar-valued key once. */
  lemma ContainerKeysSeenTwice(path: string, key: string, val: Json, depth: int)
    requires ChildPath(path, key) != ""
    ensures IsContainer(val) && depth >= 2 ==>
              var chunk := MemberSightings(path, key, val, depth);
              |chunk| >= 2 && chunk[0] == chunk[1] == (ChildPath(path, key), val)
    ensures !IsContainer(val) ==> MemberSightings(path, key, val, depth) == [(ChildPath(path, key), val)]
  {
  }

  /** Elements after the tenth contribute no sightings. */
  lemma SightingsIgnoreLongTail(xs: seq<Json>, path: string, depth: int)
    requires |xs| > SampleSize && path != "" && depth > 0
    ensures Sightings(Arr(xs), path, depth)[1..] == Sightings(Arr(xs[..SampleSize]), path, depth)[1..]
  {
    var ys := xs[..SampleSize];
    var cx := seq(Min(SampleSize, |xs|), i requires 0 <= i < Min(SampleSize, |xs|) => ElementSightings(path, i, xs[i], depth));
    var cy := seq(Min(SampleSize, |ys|), i requires 0 <= i < Min(SampleSize, |ys|) => ElementSightings(path, i, ys[i], depth));
    assert cx == cy;
  }

  // ---------------------------------------------------------------------
  // Enum detection (`analyze_enums`).

  const EnumLabels: set<string> := {"string", "integer", "boolean"}

  /**
   * At least five non-null sightings, at most `maxUniqueValues` distinct
   * values and at most 80% as many distinct values as non-null sightings,
   * and a string, integer or boolean label.
   */
  predicate QualifiesAsEnum(cfg: Config, f: FieldInfo) {
    var total := f.occurrenceCount - f.nullCount;
    total >= 5
    && |f.uniqueValues| <= cfg.maxUniqueValues
    && 5 * |f.uniqueValues| <= 4 * total
    && f.dataType in EnumLabels
  }

  function EnumChecked(cfg: Config, f: FieldInfo): (r: FieldInfo)
    ensures r.isEnum == (f.isEnum || QualifiesAsEnum(cfg, f))
    ensures QualifiesAsEnum(cfg, f) ==> r.enumValues == SortScalars(f.uniqueValues)
    ensures !QualifiesAsEnum(cfg, f) ==> r == f
    ensures r == f.(isEnum := r.isEnum, enumValues := r.enumValues)
  {
    if QualifiesAsEnum(cfg, f) then f.(isEnum := true, enumValues := SortScalars(f.uniqueValues)) else f
  }

  function EnumsAnalyzed(cfg: Config, reg: Registry): Registry {
    Registry(reg.order, map p | p in reg.fields :: EnumChecked(cfg, reg.fields[p]))
  }

  /** A map holding each field's enum check is the fields after enum analysis. */
  lemma EnumsAnalyzedPointwise(cfg: Config, reg: Registry, m: map<string, FieldInfo>)
    requires m.Keys == reg.fields.Keys
    requires forall p :: p in m ==> m[p] == EnumChecked(cfg, reg.fields[p])
    ensures Registry(reg.order, m) == EnumsAnalyzed(cfg, reg)
  {
  }

  /** The enum values of a flagged field are its distinct values, sorted. */
  lemma EnumCheckedValues(cfg: Config, f: FieldInfo)
    requires QualifiesAsEnum(cfg, f)
    ensures var r := EnumChecked(cfg, f);
            r.isEnum && SortedBy(r.enumValues, ScalarLe) && Distinct(r.enumValues)
            && (forall x: Scalar :: x in r.enumValues <==> x in f.uniqueValues)
  {
    var sorted := SortScalars(f.uniqueValues);
    assert EnumChecked(cfg, f).enumValues == sorted;
  }

  /** Enum analysis only sets flags and values: no flag is cleared, a
      second pass changes nothing and the field invariant is kept. */
  lemma EnumsAnalyzedProperties(cfg: Config, reg: Registry)
    requires RegistryOk(cfg, reg)
    ensures var r := EnumsAnalyzed(cfg, reg);
            RegistryOk(cfg, r)
            && EnumsAnalyzed(cfg, r) == r
            && r.order == reg.order
            && r.fields.Keys == reg.fields.Keys
            && (forall p :: p in reg.fields ==> r.fields[p].isEnum == (reg.fields[p].isEnum || QualifiesAsEnum(cfg, reg.fields[p])))
  {
    var r := EnumsAnalyzed(cfg, reg);
    forall p | p in r.fields
      ensures EnumChecked(cfg, r.fields[p]) == r.fields[p]
      ensures FieldOk(cfg, p, r.fields[p])
    {
      var f := reg.fields[p];
      if QualifiesAsEnum(cfg, f) {
        assert QualifiesAsEnum(cfg, r.fields[p]);
      }
    }
    assert EnumsAnalyzed(cfg, r).fields == r.fields;
  }

  // ---------------------------------------------------------------------
  // Folding index paths into patterns (`merge_array_index_fields`).

  /** A path the merge groups: normalising its indices changes it and yields `[*]`. */
  predicate IsIndexed(p: string) {
    NormalizeIndices(p) != p && Contains(NormalizeIndices(p), "[*]")
  }

  /** The normalised forms of the indexed paths, in order of first appearance. */
  function GroupKeys(order: seq<string>): (keys: seq<string>)
    ensures Distinct(keys)
    ensures forall n :: n in keys <==> exists p :: p in order && IsIndexed(p) && NormalizeIndices(p) == n
  {
    if order == [] then []
    else
      var keys := GroupKeys(order[..|order| - 1]);
      var p := order[|order| - 1];
      assert forall q :: q in order <==> q in order[..|order| - 1] || q == p by {
        assert order == order[..|order| - 1] + [p];
      }
      if IsIndexed(p) && NormalizeIndices(p) !in keys then keys + [NormalizeIndices(p)] else keys
  }

  /** The indexed paths normalising to `n`, in registry order. */
  function GroupMembers(order: seq<string>, n: string): (ps: seq<string>)
    ensures forall p :: p in ps <==> p in order && IsIndexed(p) && NormalizeIndices(p) == n
    ensures Distinct(order) ==> Distinct(ps)
    ensures |ps| <= |order|
  {
    if order == [] then []
    else
      var ps := GroupMembers(order[..|order| - 1], n);
      var p := order[|order| - 1];
      assert forall q :: q in order <==> q in order[..|order| - 1] || q == p by {
        assert order == order[..|order| - 1] + [p];
      }
      if IsIndexed(p) && NormalizeIndices(p) == n then ps + [p] else ps
  }

  /** One more path in the grouping pass: its pattern becomes a new key or
      the path joins its pattern's members. */
  lemma GroupStep(paths: seq<string>, k: nat)
    requires k < |paths|
    ensures var p := paths[k];
            var keys := GroupKeys(paths[..k]);
            GroupKeys(paths[..k + 1])
              == (if IsIndexed(p) && NormalizeIndices(p) !in keys then keys + [NormalizeIndices(p)] else keys)
            && (IsIndexed(p) && NormalizeIndices(p) !in keys ==> GroupMembers(paths[..k], NormalizeIndices(p)) == [])
  {
    assert paths[..k + 1][..k] == paths[..k];
    assert paths[..k + 1][k] == paths[k];
    NonEmptyHasFirst(GroupMembers(paths[..k], NormalizeIndices(paths[k])));
  }

  lemma GroupStepMembers(paths: seq<string>, k: nat, n: string)
    requires k < |paths|
    ensures GroupMembers(paths[..k + 1], n)
            == if IsIndexed(paths[k]) && NormalizeIndices(paths[k]) == n then GroupMembers(paths[..k], n) + [paths[k]]
               else GroupMembers(paths[..k], n)
  {
    assert paths[..k + 1][..k] == paths[..k];
    assert paths[..k + 1][k] == paths[k];
  }

  function Without(order: seq<string>, drop: set<string>): (r: seq<string>)
    ensures forall p :: p in r <==> p in order && p !in drop
    ensures Distinct(order) ==> Distinct(r)
  {
    if order == [] then []
    else
      var r := Without(order[..|order| - 1], drop);
      var p := order[|order| - 1];
      assert forall q :: q in order <==> q in order[..|order| - 1] || q == p by {
        assert order == order[..|order| - 1] + [p];
      }
      if p in drop then r else r + [p]
  }

  lemma {:induction false} WithoutMore(order: seq<string>, drop: set<string>, p: string)
    ensures Without(Without(order, drop), {p}) == Without(order, drop + {p})
    decreases |order|
  {
    if order != [] {
      WithoutMore(order[..|order| - 1], drop, p);
      var r := Without(order[..|order| - 1], drop);
      var q := order[|order| - 1];
      if q !in drop {
        assert (r + [q])[..|r + [q]| - 1] == r;
      }
    }
  }

  lemma {:induction false} WithoutNothing(order: seq<string>)
    ensures Without(order, {}) == order
    decreases |order|
  {
    if order != [] {
      WithoutNothing(order[..|order| - 1]);
      assert order == order[..|order| - 1] + [order[|order| - 1]];
    }
  }

  /** Removing keys one more at a time. */
  lemma MapDropMore<V>(m: map<string, V>, drop: set<string>, p: string)
    ensures (m - drop) - {p} == m - (drop + {p})
    ensures m - {} == m
  {
  }

  function SumOccurrences(infos: seq<FieldInfo>): nat {
    if infos == [] then 0 else SumOccurrences(infos[..|infos| - 1]) + infos[|infos| - 1].occurrenceCount
  }

  function SumNulls(infos: seq<FieldInfo>): nat {
    if infos == [] then 0 else SumNulls(infos[..|infos| - 1]) + infos[|infos| - 1].nullCount
  }

  function TypeSet(infos: seq<FieldInfo>): (ts: set<string>)
    ensures forall t :: t in ts <==> exists i :: 0 <= i < |infos| && infos[i].dataType == t
  {
    if infos == [] then {}
    else
      var last := |infos| - 1;
      assert forall i :: 0 <= i < last ==> infos[..last][i] == infos[i];
      TypeSet(infos[..last]) + {infos[last].dataType}
  }

  function AllExamples(infos: seq<FieldInfo>): seq<Json> {
    if infos == [] then [] else AllExamples(infos[..|infos| - 1]) + infos[|infos| - 1].valueExamples
  }

  function AllPatterns(infos: seq<FieldInfo>): seq<string> {
    if infos == [] then [] else AllPatterns(infos[..|infos| - 1]) + infos[|infos| - 1].valuePatterns
  }

  function UnionUnique(infos: seq<FieldInfo>): set<Scalar> {
    if infos == [] then {} else UnionUnique(infos[..|infos| - 1]) + infos[|infos| - 1].uniqueValues
  }

  /** Each aggregate of the first `i + 1` members is that of the first `i`
      combined with member `i`. */
  lemma AggregatesStep(infos: seq<FieldInfo>, i: nat)
    requires i < |infos|
    ensures SumOccurrences(infos[..i + 1]) == SumOccurrences(infos[..i]) + infos[i].occurrenceCount
    ensures SumNulls(infos[..i + 1]) == SumNulls(infos[..i]) + infos[i].nullCount
    ensures TypeSet(infos[..i + 1]) == TypeSet(infos[..i]) + {infos[i].dataType}
    ensures AllExamples(infos[..i + 1]) == AllExamples(infos[..i]) + infos[i].valueExamples
    ensures AllPatterns(infos[..i + 1]) == AllPatterns(infos[..i]) + infos[i].valuePatterns
    ensures UnionUnique(infos[..i + 1]) == UnionUnique(infos[..i]) + infos[i].uniqueValues
  {
    assert infos[..i + 1][..i] == infos[..i];
    assert infos[..i + 1][i] == infos[i];
  }

  /** The one label all members share, or "mixed". */
  function MergedType(infos: seq<FieldInfo>): string
    requires infos != []
  {
    if |TypeSet(infos)| == 1 then infos[0].dataType else "mixed"
  }

  lemma MergedTypeMeaning(infos: seq<FieldInfo>)
    requires infos != []
    ensures MergedType(infos) != "mixed" ==> forall i :: 0 <= i < |infos| ==> infos[i].dataType == MergedType(infos)
    ensures (forall i :: 0 <= i < |infos| ==> infos[i].dataType == infos[0].dataType) ==> MergedType(infos) == infos[0].dataType
  {
    var ts := TypeSet(infos);
    if |ts| == 1 {
      var x := infos[0].dataType;
      assert x in ts;
      assert |ts - {x}| == 0;
      forall i | 0 <= i < |infos| ensures infos[i].dataType == x {
        assert infos[i].dataType in ts;
        assert infos[i].dataType !in ts - {x};
      }
    }
    if forall i :: 0 <= i < |infos| ==> infos[i].dataType == infos[0].dataType {
      assert ts == {infos[0].dataType};
    }
  }

  /**
   * The merged examples: each example truncated again, kept when its printed
   * form is new, until `maxExamples` are kept.
   */
  function DedupPrinted(cfg: Config, xs: seq<Json>, kept: seq<Json>, seen: set<string>): seq<Json>
    decreases |xs|
  {
    if xs == [] || |kept| >= cfg.maxExamples then kept
    else
      var t := TruncateForOutput(xs[0], cfg.maxValueLength);
      if PyStr(t) in seen then DedupPrinted(cfg, xs[1..], kept, seen)
      else DedupPrinted(cfg, xs[1..], kept + [t], seen + {PyStr(t)})
  }

  predicate PrintedDistinct(xs: seq<Json>) {
    forall i, j :: 0 <= i < j < |xs| ==> PyStr(xs[i]) != PyStr(xs[j])
  }

  /** Merged examples are at most `maxExamples`, pairwise different when
      printed, and each is the truncation of one of the members' examples. */
  lemma {:induction false} DedupPrintedProperties(cfg: Config, xs: seq<Json>, kept: seq<Json>, seen: set<string>)
    requires |kept| <= cfg.maxExamples && PrintedDistinct(kept)
    requires seen == set k | k in kept :: PyStr(k)
    ensures var r := DedupPrinted(cfg, xs, kept, seen);
            |r| <= cfg.maxExamples && PrintedDistinct(r) && Distinct(r) && kept <= r
    ensures var r := DedupPrinted(cfg, xs, kept, seen);
            forall e :: e in r ==> e in kept || exists x :: x in xs && e == TruncateForOutput(x, cfg.maxValueLength)
    decreases |xs|
  {
    if xs != [] && |kept| < cfg.maxExamples {
      var t := TruncateForOutput(xs[0], cfg.maxValueLength);
      if PyStr(t) in seen {
        DedupPrintedProperties(cfg, xs[1..], kept, seen);
      } else {
        var kept' := kept + [t];
        assert PrintedDistinct(kept');
        assert seen + {PyStr(t)} == set k | k in kept' :: PyStr(k);
        DedupPrintedProperties(cfg, xs[1..], kept', seen + {PyStr(t)});
        var r := DedupPrinted(cfg, xs[1..], kept', seen + {PyStr(t)});
        assert kept <= kept';
      }
    }
    var r := DedupPrinted(cfg, xs, kept, seen);
    assert PrintedDistinct(r) ==> Distinct(r);
  }

  /** The field that replaces a group of two or more indexed paths. */
  function MergedField(cfg: Config, n: string, infos: seq<FieldInfo>): FieldInfo
    requires infos != []
  {
    FieldInfo(n, MergedType(infos), DedupPrinted(cfg, AllExamples(infos), [], {}),
              SumOccurrences(infos), SumNulls(infos), UnionUnique(infos), false, [],
              SortStrings(set p | p in AllPatterns(infos)))
  }

  /** Python's `registry[k] = f`: in place when present, appended otherwise. */
  function Put(reg: Registry, k: string, f: FieldInfo): Registry {
    Registry(if k in reg.fields then reg.order else reg.order + [k], reg.fields[k := f])
  }

  function MemberInfos(reg: Registry, members: seq<string>): (infos: seq<FieldInfo>)
    requires forall p :: p in members ==> p in reg.fields
    ensures |infos| == |members|
  {
    seq(|members|, i requires 0 <= i < |members| => reg.fields[members[i]])
  }

  /** One group: two or more members are replaced by their merged field. */
  function MergedGroup(cfg: Config, reg: Registry, n: string, members: seq<string>): Registry
    requires forall p :: p in members ==> p in reg.fields
  {
    if |members| <= 1 then reg
    else
      var drop := set p | p in members;
      Put(Registry(Without(reg.order, drop), reg.fields - drop), n, MergedField(cfg, n, MemberInfos(reg, members)))
  }

  /** The paths of the groups still to be processed are all present. */
  ghost predicate PendingPresent(reg: Registry, keys: seq<string>, original: seq<string>) {
    forall p :: p in original && IsIndexed(p) && NormalizeIndices(p) in keys ==> p in reg.fields
  }

  function MergedGroups(cfg: Config, reg: Registry, keys: seq<string>, original: seq<string>): Registry
    requires Distinct(keys) && PendingPresent(reg, keys, original)
    requires forall n :: n in keys ==> NormalizeIndices(n) == n
    decreases |keys|
  {
    if keys == [] then reg
    else
      var next := MergedGroup(cfg, reg, keys[0], GroupMembers(original, keys[0]));
      assert PendingPresent(next, keys[1..], original) by {
        forall p | p in original && IsIndexed(p) && NormalizeIndices(p) in keys[1..]
          ensures p in next.fields
        {
          assert NormalizeIndices(p) != keys[0];
          assert p != keys[0];
        }
      }
      MergedGroups(cfg, next, keys[1..], original)
  }

  /** One step of the fold over groups. */
  lemma MergedGroupsUnfold(cfg: Config, reg: Registry, keys: seq<string>, original: seq<string>)
    requires Distinct(keys) && PendingPresent(reg, keys, original) && keys != []
    requires forall n :: n in keys ==> NormalizeIndices(n) == n
    ensures var next := MergedGroup(cfg, reg, keys[0], GroupMembers(original, keys[0]));
            Distinct(keys[1..]) && PendingPresent(next, keys[1..], original)
            && (forall n :: n in keys[1..] ==> NormalizeIndices(n) == n)
            && MergedGroups(cfg, reg, keys, original) == MergedGroups(cfg, next, keys[1..], original)
  {
    PendingAfterGroup(cfg, reg, keys, original);
  }

  lemma GroupKeysNormal(order: seq<string>)
    ensures forall n :: n in GroupKeys(order) ==> NormalizeIndices(n) == n
  {
    forall n | n in GroupKeys(order) ensures NormalizeIndices(n) == n {
      var p :| p in order && IsIndexed(p) && NormalizeIndices(p) == n;
      NormalizeIdempotent(p);
    }
  }

  /** `merge_array_index_fields` on the whole registry. */
  function ArrayIndexMerged(cfg: Config, reg: Registry): Registry
    requires forall p :: p in reg.order ==> p in reg.fields
  {
    GroupKeysNormal(reg.order);
    MergedGroups(cfg, reg, GroupKeys(reg.order), reg.order)
  }

  lemma {:induction false} AllExamplesForm(cfg: Config, infos: seq<FieldInfo>)
    requires forall i :: 0 <= i < |infos| ==> FieldOk(cfg, infos[i].path, infos[i])
    ensures forall e :: e in AllExamples(infos) ==> ExampleForm(e, cfg.maxValueLength)
    ensures SumNulls(infos) <= SumOccurrences(infos)
  {
    if infos != [] {
      var last := |infos| - 1;
      AllExamplesForm(cfg, infos[..last]);
      var f := infos[last];
      forall e | e in f.valueExamples ensures ExampleForm(e, cfg.maxValueLength) {
        var k :| 0 <= k < |f.valueExamples| && f.valueExamples[k] == e;
      }
    }
  }

  /** A merged field satisfies the field invariant. */
  lemma MergedFieldOk(cfg: Config, n: string, infos: seq<FieldInfo>)
    requires infos != []
    requires forall i :: 0 <= i < |infos| ==> FieldOk(cfg, infos[i].path, infos[i])
    ensures FieldOk(cfg, n, MergedField(cfg, n, infos))
  {
    AllExamplesForm(cfg, infos);
    var xs := AllExamples(infos);
    DedupPrintedProperties(cfg, xs, [], {});
    var r := DedupPrinted(cfg, xs, [], {});
    forall i | 0 <= i < |r| ensures ExampleForm(r[i], cfg.maxValueLength) {
      assert r[i] in r;
      var x :| x in xs && r[i] == TruncateForOutput(x, cfg.maxValueLength);
      TruncateForOutputShape(x, cfg.maxValueLength);
    }
  }

  lemma MergedGroupOk(cfg: Config, reg: Registry, n: string, members: seq<string>)
    requires RegistryOk(cfg, reg)
    requires forall p :: p in members ==> p in reg.fields
    ensures RegistryOk(cfg, MergedGroup(cfg, reg, n, members))
  {
    if |members| > 1 {
      var infos := MemberInfos(reg, members);
      forall i | 0 <= i < |infos| ensures FieldOk(cfg, infos[i].path, infos[i]) {
        assert members[i] in members;
      }
      MergedFieldOk(cfg, n, infos);
      var drop := set p | p in members;
      DropKeepsOk(cfg, reg, drop);
      PutKeepsOk(cfg, Registry(Without(reg.order, drop), reg.fields - drop), n, MergedField(cfg, n, infos));
    }
  }

  lemma DropKeepsOk(cfg: Config, reg: Registry, drop: set<string>)
    requires RegistryOk(cfg, reg)
    ensures RegistryOk(cfg, Registry(Without(reg.order, drop), reg.fields - drop))
  {
  }

  lemma PutKeepsOk(cfg: Config, reg: Registry, k: string, f: FieldInfo)
    requires RegistryOk(cfg, reg) && FieldOk(cfg, k, f)
    ensures RegistryOk(cfg, Put(reg, k, f))
  {
    if k !in reg.fields {
      PrefixSnoc(reg.order + [k], |reg.order|);
      assert (reg.order + [k])[..|reg.order|] == reg.order;
    }
  }

  /** A group of two or more leaves its members' paths and gains its pattern. */
  lemma MergedGroupKeys(cfg: Config, reg: Registry, n: string, members: seq<string>)
    requires forall p :: p in members ==> p in reg.fields
    ensures MergedGroup(cfg, reg, n, members).fields.Keys
            == if |members| <= 1 then reg.fields.Keys else (reg.fields.Keys - (set p | p in members)) + {n}
  {
  }

  ghost function Dropped(keys: seq<string>, original: seq<string>): set<string> {
    set p | p in original && IsIndexed(p) && NormalizeIndices(p) in keys
                          && |GroupMembers(original, NormalizeIndices(p))| >= 2
  }

  ghost function Added(keys: seq<string>, original: seq<string>): set<string> {
    set n | n in keys && |GroupMembers(original, n)| >= 2
  }

  lemma DroppedAddedSplit(keys: seq<string>, original: seq<string>)
    requires keys != [] && NormalizeIndices(keys[0]) == keys[0]
    ensures var m0 := GroupMembers(original, keys[0]);
            Dropped(keys, original) == Dropped(keys[1..], original) + (if |m0| >= 2 then set p | p in m0 else {})
            && Added(keys, original) == Added(keys[1..], original) + (if |m0| >= 2 then {keys[0]} else {})
            && keys[0] !in Dropped(keys[1..], original)
  {
    assert forall x :: x in keys <==> x == keys[0] || x in keys[1..] by {
      assert keys == [keys[0]] + keys[1..];
    }
  }

  lemma PendingAfterGroup(cfg: Config, reg: Registry, keys: seq<string>, original: seq<string>)
    requires Distinct(keys) && PendingPresent(reg, keys, original) && keys != []
    requires NormalizeIndices(keys[0]) == keys[0]
    ensures var next := MergedGroup(cfg, reg, keys[0], GroupMembers(original, keys[0]));
            PendingPresent(next, keys[1..], original)
            && forall p :: p in original && IsIndexed(p) && NormalizeIndices(p) in keys[1..] ==>
                 next.fields[p] == reg.fields[p]
  {
    var next := MergedGroup(cfg, reg, keys[0], GroupMembers(original, keys[0]));
    forall p | p in original && IsIndexed(p) && NormalizeIndices(p) in keys[1..]
      ensures p in next.fields && next.fields[p] == reg.fields[p]
    {
      assert NormalizeIndices(p) != keys[0];
      assert p != keys[0];
    }
  }

  /** The fold over groups keeps the registry invariant, removes exactly the
      members of groups of two or more and adds exactly those groups' patterns. */
  lemma {:induction false} MergedGroupsOk(cfg: Config, reg: Registry, keys: seq<string>, original: seq<string>)
    requires RegistryOk(cfg, reg)
    requires Distinct(keys) && PendingPresent(reg, keys, original)
    requires forall n :: n in keys ==> NormalizeIndices(n) == n
    ensures RegistryOk(cfg, MergedGroups(cfg, reg, keys, original))
    decreases |keys|
  {
    if keys != [] {
      var m0 := GroupMembers(original, keys[0]);
      MergedGroupOk(cfg, reg, keys[0], m0);
      PendingAfterGroup(cfg, reg, keys, original);
      MergedGroupsOk(cfg, MergedGroup(cfg, reg, keys[0], m0), keys[1..], original);
    }
  }

  lemma SetStep<T>(present: set<T>, gone: set<T>, k: T, dropped: set<T>, added: set<T>)
    requires k !in dropped
    ensures ((present - gone) + {k} - dropped) + added == (present - (dropped + gone)) + (added + {k})
  {
  }

  /** The fold removes exactly the members of groups of two or more and adds
      exactly those groups' patterns. */
  lemma {:induction false} MergedGroupsKeys(cfg: Config, reg: Registry, keys: seq<string>, original: seq<string>)
    requires Distinct(keys) && PendingPresent(reg, keys, original)
    requires forall n :: n in keys ==> NormalizeIndices(n) == n
    ensures MergedGroups(cfg, reg, keys, original).fields.Keys
            == (reg.fields.Keys - Dropped(keys, original)) + Added(keys, original)
    decreases |keys|
  {
    if keys != [] {
      var m0 := GroupMembers(original, keys[0]);
      var next := MergedGroup(cfg, reg, keys[0], m0);
      MergedGroupsUnfold(cfg, reg, keys, original);
      MergedGroupKeys(cfg, reg, keys[0], m0);
      MergedGroupsKeys(cfg, next, keys[1..], original);
      DroppedAddedSplit(keys, original);
      var dropped, added := Dropped(keys[1..], original), Added(keys[1..], original);
      assert MergedGroups(cfg, reg, keys, original).fields.Keys == (next.fields.Keys - dropped) + added;
      if |m0| >= 2 {
        SetStep(reg.fields.Keys, (set p | p in m0), keys[0], dropped, added);
      }
    }
  }

  /** Fields outside the merged groups are left as they were. */
  lemma {:induction false} MergedGroupsFrame(cfg: Config, reg: Registry, keys: seq<string>, original: seq<string>, p: string)
    requires Distinct(keys) && PendingPresent(reg, keys, original)
    requires forall n :: n in keys ==> NormalizeIndices(n) == n
    requires p in reg.fields && p !in Dropped(keys, original) && p !in Added(keys, original)
    ensures var r := MergedGroups(cfg, reg, keys, original);
            p in r.fields && r.fields[p] == reg.fields[p]
    decreases |keys|
  {
    if keys != [] {
      var m0 := GroupMembers(original, keys[0]);
      PendingAfterGroup(cfg, reg, keys, original);
      DroppedAddedSplit(keys, original);
      MergedGroupsFrame(cfg, MergedGroup(cfg, reg, keys[0], m0), keys[1..], original, p);
    }
  }

  /** The members of a later group are untouched by an earlier group. */
  lemma MemberInfosStable(cfg: Config, reg: Registry, keys: seq<string>, original: seq<string>, n: string)
    requires Distinct(keys) && PendingPresent(reg, keys, original) && keys != []
    requires NormalizeIndices(keys[0]) == keys[0]
    requires n in keys[1..]
    ensures var next := MergedGroup(cfg, reg, keys[0], GroupMembers(original, keys[0]));
            var ms := GroupMembers(original, n);
            (forall p :: p in ms ==> p in reg.fields && p in next.fields)
            && MemberInfos(next, ms) == MemberInfos(reg, ms)
  {
    PendingAfterGroup(cfg, reg, keys, original);
  }

  /** Each group of two or more is stored as the merge of its members' fields. */
  lemma {:induction false} MergedGroupsValues(cfg: Config, reg: Registry, keys: seq<string>, original: seq<string>, n: string)
    requires Distinct(keys) && PendingPresent(reg, keys, original)
    requires forall k :: k in keys ==> NormalizeIndices(k) == k
    requires n in Added(keys, original)
    ensures forall p :: p in GroupMembers(original, n) ==> p in reg.fields
    ensures var r := MergedGroups(cfg, reg, keys, original);
            n in r.fields && r.fields[n] == MergedField(cfg, n, MemberInfos(reg, GroupMembers(original, n)))
    decreases |keys|
  {
    var m0 := GroupMembers(original, keys[0]);
    var next := MergedGroup(cfg, reg, keys[0], m0);
    PendingAfterGroup(cfg, reg, keys, original);
    DroppedAddedSplit(keys, original);
    if n == keys[0] {
      assert n !in Added(keys[1..], original) by {
        assert keys == [keys[0]] + keys[1..];
      }
      MergedGroupsFrame(cfg, next, keys[1..], original, n);
    } else {
      MemberInfosStable(cfg, reg, keys, original, n);
      MergedGroupsValues(cfg, next, keys[1..], original, n);
    }
  }

  /** When no group has two members, the merge changes nothing. */
  lemma {:induction false} MergedGroupsNoop(cfg: Config, reg: Registry, keys: seq<string>, original: seq<string>)
    requires Distinct(keys) && PendingPresent(reg, keys, original)
    requires forall n :: n in keys ==> NormalizeIndices(n) == n
    requires forall n :: n in keys ==> |GroupMembers(original, n)| <= 1
    ensures MergedGroups(cfg, reg, keys, original) == reg
    decreases |keys|
  {
    if keys != [] {
      assert forall n :: n in keys[1..] ==> n in keys;
      MergedGroupsNoop(cfg, reg, keys[1..], original);
    }
  }

  /**
   * The merge on the whole registry: the invariant is kept, the members of
   * each group of two or more indexed paths are replaced by one field at
   * the group's pattern, holding their merge, and every other field is
   * left as it was.
   */
  lemma ArrayIndexMergedEffect(cfg: Config, reg: Registry)
    requires RegistryOk(cfg, reg)
    ensures var r := ArrayIndexMerged(cfg, reg);
            var keys := GroupKeys(reg.order);
            RegistryOk(cfg, r)
            && r.fields.Keys == (reg.fields.Keys - Dropped(keys, reg.order)) + Added(keys, reg.order)
            && (forall p :: p in reg.fields && p !in Dropped(keys, reg.order) && p !in Added(keys, reg.order)
                  ==> r.fields[p] == reg.fields[p])
            && (forall n :: n in Added(keys, reg.order) ==>
                  r.fields[n] == MergedField(cfg, n, MemberInfos(reg, GroupMembers(reg.order, n))))
  {
    var keys := GroupKeys(reg.order);
    GroupKeysNormal(reg.order);
    MergedGroupsOk(cfg, reg, keys, reg.order);
    MergedGroupsKeys(cfg, reg, keys, reg.order);
    forall p | p in reg.fields && p !in Dropped(keys, reg.order) && p !in Added(keys, reg.order)
      ensures ArrayIndexMerged(cfg, reg).fields[p] == reg.fields[p]
    {
      MergedGroupsFrame(cfg, reg, keys, reg.order, p);
    }
    forall n | n in Added(keys, reg.order)
      ensures ArrayIndexMerged(cfg, reg).fields[n] == MergedField(cfg, n, MemberInfos(reg, GroupMembers(reg.order, n)))
    {
      MergedGroupsValues(cfg, reg, keys, reg.order, n);
    }
  }

  /** An indexed path that survives the merge belonged to a group of one. */
  lemma SurvivorWasAlone(cfg: Config, reg: Registry, p: string)
    requires RegistryOk(cfg, reg)
    requires IsIndexed(p) && p in ArrayIndexMerged(cfg, reg).fields
    ensures p in reg.order
    ensures |GroupMembers(reg.order, NormalizeIndices(p))| <= 1
  {
    var keys := GroupKeys(reg.order);
    GroupKeysNormal(reg.order);
    MergedGroupsKeys(cfg, reg, keys, reg.order);
    assert p !in Added(keys, reg.order);
    assert p in reg.fields && p !in Dropped(keys, reg.order);
    assert p in reg.order;
    assert NormalizeIndices(p) in keys;
  }

  lemma SurvivorGroupSmall(cfg: Config, reg: Registry, order: seq<string>, n: string)
    requires RegistryOk(cfg, reg)
    requires Distinct(order)
    requires forall p :: p in order ==> p in ArrayIndexMerged(cfg, reg).fields
    ensures |GroupMembers(order, n)| <= 1
  {
    var ms := GroupMembers(order, n);
    var big := GroupMembers(reg.order, n);
    forall p | p in ms ensures p in big && |big| <= 1 {
      SurvivorWasAlone(cfg, reg, p);
    }
    NonEmptyHasFirst(ms);
    SmallSuperset(ms, big);
  }

  /** After one merge, no two indexed paths share a pattern. */
  lemma MergedLeavesSingletons(cfg: Config, reg: Registry, n: string)
    requires RegistryOk(cfg, reg)
    ensures RegistryOk(cfg, ArrayIndexMerged(cfg, reg))
    ensures |GroupMembers(ArrayIndexMerged(cfg, reg).order, n)| <= 1
  {
    GroupKeysNormal(reg.order);
    MergedGroupsOk(cfg, reg, GroupKeys(reg.order), reg.order);
    var r := ArrayIndexMerged(cfg, reg);
    SurvivorGroupSmall(cfg, reg, r.order, n);
  }

  /** Merging a merged registry changes nothing. */
  lemma ArrayIndexMergedIdempotent(cfg: Config, reg: Registry)
    requires RegistryOk(cfg, reg)
    ensures RegistryOk(cfg, ArrayIndexMerged(cfg, reg))
    ensures ArrayIndexMerged(cfg, ArrayIndexMerged(cfg, reg)) == ArrayIndexMerged(cfg, reg)
  {
    var r := ArrayIndexMerged(cfg, reg);
    GroupKeysNormal(reg.order);
    MergedGroupsOk(cfg, reg, GroupKeys(reg.order), reg.order);
    var keys2 := GroupKeys(r.order);
    GroupKeysNormal(r.order);
    forall n | n in keys2 ensures |GroupMembers(r.order, n)| <= 1 {
      MergedLeavesSingletons(cfg, reg, n);
    }
    MergedGroupsNoop(cfg, r, keys2, r.order);
  }

  // ---------------------------------------------------------------------
  // The summary (`generate_extraction_result`).

  /** Occurrence counts summed over the paths (what the result calls
      `total_records_processed`). */
  function TotalOccurrences(fields: map<string, FieldInfo>, paths: seq<string>): nat
    requires forall p :: p in paths ==> p in fields
  {
    if paths == [] then 0
    else TotalOccurrences(fields, paths[..|paths| - 1]) + fields[paths[|paths| - 1]].occurrenceCount
  }

  /** How many of the paths carry each label. */
  function TypeCounts(fields: map<string, FieldInfo>, paths: seq<string>): map<string, nat>
    requires forall p :: p in paths ==> p in fields
  {
    if paths == [] then map[]
    else
      var m := TypeCounts(fields, paths[..|paths| - 1]);
      var t := fields[paths[|paths| - 1]].dataType;
      m[t := (if t in m then m[t] else 0) + 1]
  }

  /** The enum values of the enum fields among the paths. */
  function EnumFieldsOf(fields: map<string, FieldInfo>, paths: seq<string>): map<string, seq<Scalar>>
    requires forall p :: p in paths ==> p in fields
  {
    if paths == [] then map[]
    else
      var m := EnumFieldsOf(fields, paths[..|paths| - 1]);
      var p := paths[|paths| - 1];
      if fields[p].isEnum then m[p := fields[p].enumValues] else m
  }

  function Summary(reg: Registry): ExtractionSummary
    requires forall p :: p in reg.order ==> p in reg.fields
  {
    ExtractionSummary(TotalOccurrences(reg.fields, reg.order), |reg.fields|, reg,
                      TypeCounts(reg.fields, reg.order), EnumFieldsOf(reg.fields, reg.order))
  }

  function PathsOfType(fields: map<string, FieldInfo>, paths: seq<string>, t: string): set<string>
    requires forall p :: p in paths ==> p in fields
  {
    set p | p in paths && fields[p].dataType == t
  }

  /** Each label is counted once per path carrying it, and only labels that
      occur are keys. */
  lemma {:induction false} TypeCountsMeaning(fields: map<string, FieldInfo>, paths: seq<string>, t: string)
    requires forall p :: p in paths ==> p in fields
    requires Distinct(paths)
    ensures t in TypeCounts(fields, paths) <==> PathsOfType(fields, paths, t) != {}
    ensures t in TypeCounts(fields, paths) ==> TypeCounts(fields, paths)[t] == |PathsOfType(fields, paths, t)|
  {
    if paths != [] {
      var init := paths[..|paths| - 1];
      var p := paths[|paths| - 1];
      assert forall q :: q in paths <==> q in init || q == p by {
        assert paths == init + [p];
      }
      assert p !in init;
      TypeCountsMeaning(fields, init, t);
      if fields[p].dataType == t {
        assert PathsOfType(fields, paths, t) == PathsOfType(fields, init, t) + {p};
      } else {
        assert PathsOfType(fields, paths, t) == PathsOfType(fields, init, t);
      }
    }
  }

  /** The enum table holds exactly the enum fields, with their values. */
  lemma {:induction false} EnumFieldsMeaning(fields: map<string, FieldInfo>, paths: seq<string>)
    requires forall p :: p in paths ==> p in fields
    ensures EnumFieldsOf(fields, paths) == map p | p in paths && fields[p].isEnum :: fields[p].enumValues
  {
    if paths != [] {
      var init := paths[..|paths| - 1];
      var p := paths[|paths| - 1];
      assert forall q :: q in paths <==> q in init || q == p by {
        assert paths == init + [p];
      }
      EnumFieldsMeaning(fields, init);
    }
  }

  /** A distinct sequence has as many elements as its set. */
  lemma {:induction false} DistinctCard(s: seq<string>)
    requires Distinct(s)
    ensures |set x | x in s| == |s|
  {
    if s != [] {
      var init := s[..|s| - 1];
      var x := s[|s| - 1];
      assert forall q :: q in s <==> q in init || q == x by {
        assert s == init + [x];
      }
      assert x !in init;
      DistinctCard(init);
      assert (set q | q in s) == (set q | q in init) + {x};
    }
  }

  /** With the registry invariant, the field count is the number of paths. */
  lemma SummaryFieldCount(cfg: Config, reg: Registry)
    requires RegistryOk(cfg, reg)
    ensures Summary(reg).totalFieldsDiscovered == |reg.order|
  {
    DistinctCard(reg.order);
    assert reg.fields.Keys == set x | x in reg.order;
  }
}
