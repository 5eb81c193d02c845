// The deep field extractor of task T01
// (src/claude-code-analyzer/tasks/T01_deep_field_extraction/field_extractor.py):
// the same idea as the CLI extractor with its own rules: a non-empty list is
// typed bare "array", the label merge has no list rule, generic element
// paths are `[*]`, the enum flag is decided on every sighting, and the merge
// pass uses an over-escaped pattern that only rewrites backslash tokens.

module T01FieldExtractor {
  import opened Text
  import opened JsonModel
  import opened Ordering
  import opened Patterns
  import opened ValueTruncation
  import opened CliFieldTypes
  import opened CliFieldExtractor

  /** `FieldInfo` of the shared models. */
  datatype T01Field = T01Field(
    path: string,
    dataType: string,
    examples: seq<Json>,
    count: nat,
    nullCount: nat,
    uniqueValues: set<Scalar>,
    isEnum: bool,
    enumValues: seq<Scalar>)

  datatype T01Config = T01Config(maxExamples: nat, maxValueLength: nat)

  const T01Defaults := T01Config(10, 100)

  /** The hard-coded cap on collected distinct values. */
  const UniqueCap := 50

  datatype T01Registry = T01Registry(order: seq<string>, fields: map<string, T01Field>)

  // ---------------------------------------------------------------------
  // Labels.

  /** `_get_string_type`: only `http://` and `https://` are URLs, and the
      datetime test is the over-escaped pattern. */
  function T01StringType(s: string): string {
    if IsUuid(s) then "uuid"
    else if T01DatetimeMatch(s) then "datetime"
    else if StartsWith(s, "http://") || StartsWith(s, "https://") then "url"
    else if IsIdPrefixed(s) then "id"
    else "string"
  }

  /** `_get_type`: booleans before integers; any non-empty list is "array". */
  function T01GetType(v: Json): (r: string)
    ensures v.Bool? <==> r == "boolean"
    ensures v.Arr? <==> r == "array" || r == "array[empty]"
    ensures v.Arr? ==> (r == "array" <==> v.elems != [])
  {
    match v
    case Null => "null"
    case Bool(_) => "boolean"
    case Int(_) => "integer"
    case Float(_) => "number"
    case Str(s) => T01StringType(s)
    case Arr(xs) => if xs != [] then "array" else "array[empty]"
    case Obj(_) => "object"
  }

  /** `_merge_types`: the CLI merge without its list rule. */
  function T01MergeTypes(t1: string, t2: string): string {
    if t1 == t2 then t1
    else if t1 == "null" then t2
    else if t2 == "null" then t1
    else if t1 in NumericLabels && t2 in NumericLabels then "number"
    else if t1 in StringLabels && t2 in StringLabels then "string"
    else "mixed"
  }

  /** The two list labels do not generalise to a list label: they merge to "mixed". */
  lemma T01MergeTypesProperties(t1: string, t2: string)
    ensures T01MergeTypes(t1, t2) == T01MergeTypes(t2, t1)
    ensures T01MergeTypes("null", t1) == t1 && T01MergeTypes(t1, "null") == t1
    ensures T01MergeTypes("array", "array[empty]") == "mixed"
    ensures t1 != t2 && t1 != "null" && t2 != "null" ==>
              T01MergeTypes(t1, t2) in {"number", "string", "mixed"}
    ensures t1 in StringLabels && t2 in StringLabels && t1 != t2 ==> T01MergeTypes(t1, t2) == "string"
  {
  }

  /** Where the two extractors' label merges differ: only on two different list labels. */
  lemma T01MergeAgreesWithCliOffLists(t1: string, t2: string)
    requires !(StartsWith(t1, "array") && StartsWith(t2, "array") && t1 != t2)
    ensures T01MergeTypes(t1, t2) == MergeDataTypes(t1, t2)
  {
  }

  /** A match of the over-escaped datetime pattern starts with a backslash. */
  lemma T01DatetimeLeadingBackslash(s: string)
    ensures T01DatetimeMatch(s) ==> |s| > 0 && s[0] == '\\'
  {
    if |s| > 1 {
      assert s[..|s| - 1][0] == s[0];
    }
  }

  lemma IsoWholeLength(t: string)
    requires IsoWhole(t)
    ensures 19 <= |t| <= 24
  {
  }

  /**
   * An ISO timestamp, which the CLI extractor labels "datetime", is labelled
   * plain "string" here: it begins with a digit, so the over-escaped pattern
   * cannot match it, and it is neither a UUID, a URL nor an id.
   */
  lemma IsoTimestampIsPlainString(s: string)
    requires IsIsoDatetime(s)
    ensures T01StringType(s) == "string"
    ensures StringLabel(s) == "datetime"
  {
    T01DatetimeLeadingBackslash(s);
    if IsoWhole(s) {
      IsoWholeLength(s);
    } else {
      IsoWholeLength(s[..|s| - 1]);
      assert s[..|s| - 1][0] == s[0];
    }
    assert IsAsciiDigit(s[0]);
  }

  // ---------------------------------------------------------------------
  // Recording one sighting (`_add_field`).

  /** The enum test of `_add_field`: it uses the count including nulls. */
  predicate T01Qualifies(f: T01Field) {
    f.count >= 5
    && |f.uniqueValues| <= UniqueCap
    && 5 * |f.uniqueValues| <= 4 * f.count
    && f.dataType in EnumLabels
  }

  function T01NewField(path: string, dataType: string): T01Field {
    T01Field(path, dataType, [], 0, 0, {}, false, [])
  }

  /** Keep the truncated value as an example while there is room and it is new. */
  function T01WithExample(cfg: T01Config, f: T01Field, v: Json): (r: T01Field)
    ensures r == f || (r == f.(examples := f.examples + [TruncateForOutput(v, cfg.maxValueLength)])
                       && |f.examples| < cfg.maxExamples
                       && TruncateForOutput(v, cfg.maxValueLength) !in f.examples)
  {
    var truncated := TruncateForOutput(v, cfg.maxValueLength);
    if |f.examples| < cfg.maxExamples && truncated !in f.examples
    then f.(examples := f.examples + [truncated])
    else f
  }

  /** Collect a scalar while fewer than fifty values are held. */
  function T01WithUnique(f: T01Field, v: Json): (r: T01Field)
    ensures r == f || (IsScalar(v) && r == f.(uniqueValues := f.uniqueValues + {v})
                       && |f.uniqueValues| < UniqueCap)
  {
    if IsScalar(v) && |f.uniqueValues| < UniqueCap
    then f.(uniqueValues := f.uniqueValues + {v})
    else f
  }

  /** Flag the field when it qualifies, with its values sorted; never unflag. */
  function T01EnumChecked(f: T01Field): (r: T01Field)
    ensures r.isEnum == (f.isEnum || T01Qualifies(f))
    ensures T01Qualifies(f) ==> r.enumValues == SortScalars(f.uniqueValues)
    ensures !T01Qualifies(f) ==> r == f
    ensures r == f.(isEnum := r.isEnum, enumValues := r.enumValues)
  {
    if T01Qualifies(f) then f.(isEnum := true, enumValues := SortScalars(f.uniqueValues)) else f
  }

  /**
   * A non-null sighting before the enum test: counted, its label merged, its
   * example and its scalar value kept where there is room.
   */
  function T01Sighted(cfg: T01Config, f: T01Field, v: Json): (r: T01Field)
    requires !v.Null?
    ensures r.path == f.path && r.count == f.count + 1 && r.nullCount == f.nullCount
    ensures r.dataType == T01MergeTypes(f.dataType, T01GetType(v))
    ensures r.isEnum == f.isEnum && r.enumValues == f.enumValues
    ensures f.uniqueValues <= r.uniqueValues <= f.uniqueValues + {v}
    ensures |r.uniqueValues| <= Max(|f.uniqueValues|, UniqueCap)
    ensures IsScalar(v) && |f.uniqueValues| < UniqueCap ==> v in r.uniqueValues
    ensures var shown := TruncateForOutput(v, cfg.maxValueLength);
            r.examples == if |f.examples| < cfg.maxExamples && shown !in f.examples then f.examples + [shown] else f.examples
  {
    var typed := f.(count := f.count + 1, dataType := T01MergeTypes(f.dataType, T01GetType(v)));
    var withValue := T01WithUnique(T01WithExample(cfg, typed, v), v);
    assert withValue.(uniqueValues := typed.uniqueValues, examples := typed.examples) == typed;
    withValue
  }

  /** The field after one more sighting of `v`. */
  function T01Added(cfg: T01Config, f: T01Field, v: Json): (r: T01Field)
    ensures r.path == f.path && r.count == f.count + 1
    ensures r.nullCount == f.nullCount + (if v.Null? then 1 else 0)
    ensures v.Null? ==> r == f.(count := f.count + 1, nullCount := f.nullCount + 1)
    ensures !v.Null? ==> r.dataType == T01MergeTypes(f.dataType, T01GetType(v))
    ensures !v.Null? ==>
              var w := T01Sighted(cfg, f, v);
              && r.isEnum == (f.isEnum || T01Qualifies(w))
              && r.enumValues == (if T01Qualifies(w) then SortScalars(w.uniqueValues) else f.enumValues)
              && r == w.(isEnum := r.isEnum, enumValues := r.enumValues)
    ensures f.isEnum ==> r.isEnum
    ensures r.isEnum && !f.isEnum ==> T01Qualifies(r.(isEnum := false, enumValues := f.enumValues))
    ensures f.uniqueValues <= r.uniqueValues
    ensures |r.uniqueValues| <= Max(|f.uniqueValues|, UniqueCap)
  {
    if v.Null? then f.(count := f.count + 1, nullCount := f.nullCount + 1)
    else T01EnumChecked(T01Sighted(cfg, f, v))
  }

  /** What every field satisfies. */
  predicate T01FieldOk(cfg: T01Config, path: string, f: T01Field) {
    f.path == path
    && f.nullCount <= f.count
    && |f.examples| <= cfg.maxExamples
    && Distinct(f.examples)
    && (f.isEnum ==> SortedBy(f.enumValues, ScalarLe) && Distinct(f.enumValues))
  }

  predicate T01RegistryOk(cfg: T01Config, reg: T01Registry) {
    Distinct(reg.order)
    && (forall p :: p in reg.order ==> p in reg.fields)
    && (forall p :: p in reg.fields ==> p in reg.order)
    && (forall p :: p in reg.fields ==> T01FieldOk(cfg, p, reg.fields[p]))
  }

  /** Recording keeps the field invariant; a flagged field's values are its
      distinct values, sorted. */
  lemma T01AddedKeepsOk(cfg: T01Config, path: string, f: T01Field, v: Json)
    requires T01FieldOk(cfg, path, f)
    ensures T01FieldOk(cfg, path, T01Added(cfg, f, v))
    ensures var r := T01Added(cfg, f, v);
            r.enumValues != f.enumValues ==> forall x: Scalar :: x in r.enumValues <==> x in r.uniqueValues
  {
    var r := T01Added(cfg, f, v);
    if !v.Null? {
      var truncated := TruncateForOutput(v, cfg.maxValueLength);
      assert r.examples == f.examples
             || (r.examples == f.examples + [truncated] && truncated !in f.examples
                 && |f.examples| < cfg.maxExamples);
      assert r.enumValues == f.enumValues || r.enumValues == SortScalars(r.uniqueValues);
    }
  }

  function T01AddedAt(cfg: T01Config, reg: T01Registry, path: string, v: Json): T01Registry {
    var f := if path in reg.fields then reg.fields[path] else T01NewField(path, T01GetType(v));
    T01Registry(if path in reg.fields then reg.order else reg.order + [path],
                reg.fields[path := T01Added(cfg, f, v)])
  }

  /** Adding keeps the registry invariant, appends a new path and changes no other field. */
  lemma T01AddedAtFrame(cfg: T01Config, reg: T01Registry, path: string, v: Json)
    requires T01RegistryOk(cfg, reg)
    ensures var r := T01AddedAt(cfg, reg, path, v);
            T01RegistryOk(cfg, r)
            && (path in reg.fields ==> r.order == reg.order)
            && (path !in reg.fields ==> r.order == reg.order + [path])
            && (forall q :: q in reg.fields && q != path ==> r.fields[q] == reg.fields[q])
  {
    var f := if path in reg.fields then reg.fields[path] else T01NewField(path, T01GetType(v));
    T01AddedKeepsOk(cfg, path, f, v);
    var r := T01AddedAt(cfg, reg, path, v);
    if path !in reg.fields {
      DistinctSnoc(reg.order, path);
    }
    assert r.fields == reg.fields[path := T01Added(cfg, f, v)];
    forall q | q in r.fields ensures T01FieldOk(cfg, q, r.fields[q]) {
      if q != path {
        assert r.fields[q] == reg.fields[q];
      }
    }
  }

  function T01AddedAll(cfg: T01Config, reg: T01Registry, sightings: seq<(string, Json)>): T01Registry
    decreases |sightings|
  {
    if sightings == [] then reg
    else T01AddedAll(cfg, T01AddedAt(cfg, reg, sightings[0].0, sightings[0].1), sightings[1..])
  }

  lemma {:induction false} T01AddedAllAppend(cfg: T01Config, reg: T01Registry, a: seq<(string, Json)>, b: seq<(string, Json)>)
    ensures T01AddedAll(cfg, reg, a + b) == T01AddedAll(cfg, T01AddedAll(cfg, reg, a), b)
    decreases |a|
  {
    if a == [] {
      assert a + b == b;
    } else {
      var next := T01AddedAt(cfg, reg, a[0].0, a[0].1);
      assert (a + b)[0] == a[0];
      assert (a + b)[1..] == a[1..] + b;
      T01AddedAllAppend(cfg, next, a[1..], b);
      assert T01AddedAll(cfg, reg, a + b) == T01AddedAll(cfg, next, a[1..] + b);
      assert T01AddedAll(cfg, reg, a) == T01AddedAll(cfg, next, a[1..]);
    }
  }

  lemma T01AddedAllCons(cfg: T01Config, reg: T01Registry, x: (string, Json), rest: seq<(string, Json)>)
    ensures T01AddedAll(cfg, reg, [x] + rest) == T01AddedAll(cfg, T01AddedAt(cfg, reg, x.0, x.1), rest)
    ensures T01AddedAll(cfg, reg, [x]) == T01AddedAt(cfg, reg, x.0, x.1)
  {
    assert ([x] + rest)[1..] == rest;
    assert [x][1..] == [];
  }

  lemma T01AddedAllChunk(cfg: T01Config, start: T01Registry, head: seq<(string, Json)>, chunks: seq<seq<(string, Json)>>, i: nat)
    requires i < |chunks|
    ensures T01AddedAll(cfg, T01AddedAll(cfg, start, head + Flatten(chunks[..i])), chunks[i])
            == T01AddedAll(cfg, start, head + Flatten(chunks[..i + 1]))
  {
    var done := Flatten(chunks[..i]);
    var next := Flatten(chunks[..i + 1]);
    FlattenSnoc(chunks, i);
    assert next == done + chunks[i];
    assert head + next == (head + done) + chunks[i];
    T01AddedAllAppend(cfg, start, head + done, chunks[i]);
  }

  function T01Count(reg: T01Registry, path: string): nat {
    if path in reg.fields then reg.fields[path].count else 0
  }

  function T01Nulls(reg: T01Registry, path: string): nat {
    if path in reg.fields then reg.fields[path].nullCount else 0
  }

  /** One sighting raises the counters of its own path only. */
  lemma T01AddedAtCounters(cfg: T01Config, reg: T01Registry, p: string, v: Json, path: string)
    requires T01RegistryOk(cfg, reg)
    ensures var r := T01AddedAt(cfg, reg, p, v);
            T01RegistryOk(cfg, r)
            && T01Count(r, path) == T01Count(reg, path) + (if p == path then 1 else 0)
            && T01Nulls(r, path) == T01Nulls(reg, path) + (if (p, v) == (path, Null) then 1 else 0)
  {
    T01AddedAtFrame(cfg, reg, p, v);
  }

  /** After a batch, each path's counters have grown by its number of
      sightings and of null sightings. */
  lemma {:induction false} T01AddedAllCounts(cfg: T01Config, reg: T01Registry, sightings: seq<(string, Json)>, path: string)
    requires T01RegistryOk(cfg, reg)
    ensures var r := T01AddedAll(cfg, reg, sightings);
            T01RegistryOk(cfg, r)
            && T01Count(r, path) == T01Count(reg, path) + CountAt(sightings, path)
            && T01Nulls(r, path) == T01Nulls(reg, path) + NullsAt(sightings, path)
    decreases |sightings|
  {
    if sightings != [] {
      var next := T01AddedAt(cfg, reg, sightings[0].0, sightings[0].1);
      T01AddedAtCounters(cfg, reg, sightings[0].0, sightings[0].1, path);
      T01AddedAllCounts(cfg, next, sightings[1..], path);
    }
  }

  // ---------------------------------------------------------------------
  // The sightings of `_extract_recursive`.

  function StarPath(path: string): string {
    path + "[*]"
  }

  function T01Sightings(v: Json, path: string, depth: int): seq<(string, Json)>
    decreases v, 0
  {
    if depth <= 0 then []
    else match v
      case Obj(ms) =>
        (if path != "" then [(path, v)] else [])
        + Flatten(seq(|ms|, i requires 0 <= i < |ms| => T01MemberSightings(path, ms[i].0, ms[i].1, depth)))
      case Arr(xs) =>
        (if path != "" then [(path, v)] else [])
        + Flatten(seq(Min(SampleSize, |xs|), i requires 0 <= i < Min(SampleSize, |xs|) =>
                        T01ElementSightings(path, i, xs[i], depth)))
      case _ => []
  }

  function T01MemberSightings(path: string, key: string, val: Json, depth: int): seq<(string, Json)>
    decreases val, 1
  {
    [(ChildPath(path, key), val)] + T01Sightings(val, ChildPath(path, key), depth - 1)
  }

  function T01ElementSightings(path: string, i: nat, item: Json, depth: int): seq<(string, Json)>
    requires i < SampleSize
    decreases item, 1
  {
    if IsContainer(item) then
      T01Sightings(item, IndexedPath(path, i), depth - 1)
      + (if i == 0 then T01Sightings(item, StarPath(path), depth - 1) else [])
    else [(StarPath(path), item)]
  }

  /** A key holding an object or list is seen twice per occurrence, a scalar key once. */
  lemma T01ContainerKeysSeenTwice(path: string, key: string, val: Json, depth: int)
    requires ChildPath(path, key) != ""
    ensures IsContainer(val) && depth >= 2 ==>
              var chunk := T01MemberSightings(path, key, val, depth);
              |chunk| >= 2 && chunk[0] == chunk[1] == (ChildPath(path, key), val)
    ensures !IsContainer(val) ==> T01MemberSightings(path, key, val, depth) == [(ChildPath(path, key), val)]
  {
  }

  /** Scalar list elements are all recorded at `path[*]`. */
  lemma T01ScalarElementsAtStar(path: string, xs: seq<Json>, depth: int)
    requires depth > 0 && path != "" && forall i :: 0 <= i < |xs| ==> !IsContainer(xs[i])
    ensures forall k :: 1 <= k < |T01Sightings(Arr(xs), path, depth)| ==>
              T01Sightings(Arr(xs), path, depth)[k].0 == StarPath(path)
    ensures |T01Sightings(Arr(xs), path, depth)| == 1 + Min(SampleSize, |xs|)
  {
    var v := Arr(xs);
    var chunks := seq(Min(SampleSize, |xs|), i requires 0 <= i < Min(SampleSize, |xs|) =>
                        T01ElementSightings(path, i, xs[i], depth));
    var n := |chunks|;
    assert T01Sightings(v, path, depth) == [(path, v)] + Flatten(chunks);
    T01ScalarChunks(chunks, path, xs, n, n);
    assert chunks[..n] == chunks;
  }

  lemma {:induction false} T01ScalarChunks(chunks: seq<seq<(string, Json)>>, path: string, xs: seq<Json>, j: nat, n: nat)
    requires n == |chunks| <= |xs| && j <= n
    requires forall i :: 0 <= i < n ==> chunks[i] == [(StarPath(path), xs[i])]
    ensures |Flatten(chunks[..j])| == j
    ensures forall k :: 0 <= k < j ==> Flatten(chunks[..j])[k] == (StarPath(path), xs[k])
  {
    if j > 0 {
      T01ScalarChunks(chunks, path, xs, j - 1, n);
      FlattenSnoc(chunks, j - 1);
    }
  }

  // ---------------------------------------------------------------------
  // `merge_array_fields`.

  /** A path the merge groups: the over-escaped rewrite changed it and produced `[*]`. */
  predicate T01Indexed(p: string) {
    T01NormalizePath(p) != p && Contains(T01NormalizePath(p), "[*]")
  }

  function T01GroupKeys(order: seq<string>): (keys: seq<string>)
    ensures Distinct(keys)
    ensures forall n :: n in keys <==> exists p :: p in order && T01Indexed(p) && T01NormalizePath(p) == n
  {
    if order == [] then []
    else
      var keys := T01GroupKeys(order[..|order| - 1]);
      var p := order[|order| - 1];
      assert forall q :: q in order <==> q in order[..|order| - 1] || q == p by {
        assert order == order[..|order| - 1] + [p];
      }
      if T01Indexed(p) && T01NormalizePath(p) !in keys then keys + [T01NormalizePath(p)] else keys
  }

  function T01GroupMembers(order: seq<string>, n: string): (ps: seq<string>)
    ensures forall p :: p in ps <==> p in order && T01Indexed(p) && T01NormalizePath(p) == n
    ensures Distinct(order) ==> Distinct(ps)
  {
    if order == [] then []
    else
      var ps := T01GroupMembers(order[..|order| - 1], n);
      var p := order[|order| - 1];
      assert forall q :: q in order <==> q in order[..|order| - 1] || q == p by {
        assert order == order[..|order| - 1] + [p];
      }
      if T01Indexed(p) && T01NormalizePath(p) == n then ps + [p] else ps
  }

  /** One more path in the grouping pass. */
  lemma T01GroupStep(paths: seq<string>, k: nat)
    requires k < |paths|
    ensures var p := paths[k];
            var keys := T01GroupKeys(paths[..k]);
            T01GroupKeys(paths[..k + 1])
              == (if T01Indexed(p) && T01NormalizePath(p) !in keys then keys + [T01NormalizePath(p)] else keys)
            && (T01Indexed(p) && T01NormalizePath(p) !in keys ==> T01GroupMembers(paths[..k], T01NormalizePath(p)) == [])
  {
    assert paths[..k + 1][..k] == paths[..k];
    assert paths[..k + 1][k] == paths[k];
    NonEmptyHasFirst(T01GroupMembers(paths[..k], T01NormalizePath(paths[k])));
  }

  lemma T01GroupStepMembers(paths: seq<string>, k: nat, n: string)
    requires k < |paths|
    ensures T01GroupMembers(paths[..k + 1], n)
            == if T01Indexed(paths[k]) && T01NormalizePath(paths[k]) == n then T01GroupMembers(paths[..k], n) + [paths[k]]
               else T01GroupMembers(paths[..k], n)
  {
    assert paths[..k + 1][..k] == paths[..k];
    assert paths[..k + 1][k] == paths[k];
  }

  function T01SumCounts(infos: seq<T01Field>): nat {
    if infos == [] then 0 else T01SumCounts(infos[..|infos| - 1]) + infos[|infos| - 1].count
  }

  function T01SumNulls(infos: seq<T01Field>): nat {
    if infos == [] then 0 else T01SumNulls(infos[..|infos| - 1]) + infos[|infos| - 1].nullCount
  }

  function T01TypeSet(infos: seq<T01Field>): (ts: set<string>)
    ensures forall t :: t in ts <==> exists i :: 0 <= i < |infos| && infos[i].dataType == t
  {
    if infos == [] then {}
    else
      var last := |infos| - 1;
      assert forall i :: 0 <= i < last ==> infos[..last][i] == infos[i];
      T01TypeSet(infos[..last]) + {infos[last].dataType}
  }

  function T01AllExamples(infos: seq<T01Field>): seq<Json> {
    if infos == [] then [] else T01AllExamples(infos[..|infos| - 1]) + infos[|infos| - 1].examples
  }

  function T01UnionUnique(infos: seq<T01Field>): set<Scalar> {
    if infos == [] then {} else T01UnionUnique(infos[..|infos| - 1]) + infos[|infos| - 1].uniqueValues
  }

  lemma T01AggregatesStep(infos: seq<T01Field>, i: nat)
    requires i < |infos|
    ensures T01SumCounts(infos[..i + 1]) == T01SumCounts(infos[..i]) + infos[i].count
    ensures T01SumNulls(infos[..i + 1]) == T01SumNulls(infos[..i]) + infos[i].nullCount
    ensures T01TypeSet(infos[..i + 1]) == T01TypeSet(infos[..i]) + {infos[i].dataType}
    ensures T01AllExamples(infos[..i + 1]) == T01AllExamples(infos[..i]) + infos[i].examples
    ensures T01UnionUnique(infos[..i + 1]) == T01UnionUnique(infos[..i]) + infos[i].uniqueValues
  {
    assert infos[..i + 1][..i] == infos[..i];
    assert infos[..i + 1][i] == infos[i];
  }

  /** Examples kept by printed form, untruncated, up to `maxExamples`. */
  function T01Dedup(cfg: T01Config, xs: seq<Json>, kept: seq<Json>, seen: set<string>): seq<Json>
    decreases |xs|
  {
    if xs == [] || |kept| >= cfg.maxExamples then kept
    else if PyStr(xs[0]) in seen then T01Dedup(cfg, xs[1..], kept, seen)
    else T01Dedup(cfg, xs[1..], kept + [xs[0]], seen + {PyStr(xs[0])})
  }

  function T01MergedField(cfg: T01Config, n: string, infos: seq<T01Field>): T01Field
    requires infos != []
  {
    T01Field(n, if |T01TypeSet(infos)| == 1 then infos[0].dataType else "mixed",
             T01Dedup(cfg, T01AllExamples(infos), [], {}),
             T01SumCounts(infos), T01SumNulls(infos), T01UnionUnique(infos), false, [])
  }

  function T01MemberInfos(reg: T01Registry, members: seq<string>): (infos: seq<T01Field>)
    requires forall p :: p in members ==> p in reg.fields
    ensures |infos| == |members|
  {
    seq(|members|, i requires 0 <= i < |members| => reg.fields[members[i]])
  }

  function T01MergedGroup(cfg: T01Config, reg: T01Registry, n: string, members: seq<string>): T01Registry
    requires forall p :: p in members ==> p in reg.fields
  {
    if |members| <= 1 then reg
    else
      var drop := set p | p in members;
      var merged := T01MergedField(cfg, n, T01MemberInfos(reg, members));
      var rest := T01Registry(Without(reg.order, drop), reg.fields - drop);
      T01Registry(if n in rest.fields then rest.order else rest.order + [n], rest.fields[n := merged])
  }

  ghost predicate T01PendingPresent(reg: T01Registry, keys: seq<string>, original: seq<string>) {
    forall p :: p in original && T01Indexed(p) && T01NormalizePath(p) in keys ==> p in reg.fields
  }

  function T01MergedGroups(cfg: T01Config, reg: T01Registry, keys: seq<string>, original: seq<string>): T01Registry
    requires Distinct(keys) && T01PendingPresent(reg, keys, original)
    requires forall n :: n in keys ==> !T01Indexed(n)
    decreases |keys|
  {
    if keys == [] then reg
    else
      var next := T01MergedGroup(cfg, reg, keys[0], T01GroupMembers(original, keys[0]));
      assert T01PendingPresent(next, keys[1..], original) by {
        forall p | p in original && T01Indexed(p) && T01NormalizePath(p) in keys[1..]
          ensures p in next.fields
        {
          assert T01NormalizePath(p) != keys[0];
          assert p != keys[0];
        }
      }
      T01MergedGroups(cfg, next, keys[1..], original)
  }

  /** Rewriting a rewritten path changes nothing. */
  lemma {:induction false} T01NormalizeIdempotent(s: string)
    ensures T01NormalizePath(T01NormalizePath(s)) == T01NormalizePath(s)
    decreases |s|
  {
    if s == [] {
    } else if StartsWithT01Token(s) {
      var rest := T01NormalizePath(s[2..]);
      T01NormalizeIdempotent(s[2..]);
      T01StarPrefix(rest);
    } else {
      var rest := T01NormalizePath(s[1..]);
      T01NormalizeIdempotent(s[1..]);
      T01KeepFirst(s[0], s[1..]);
    }
  }

  lemma T01StarPrefix(t: string)
    ensures T01NormalizePath("[*]" + t) == "[*]" + T01NormalizePath(t)
  {
    var s := "[*]" + t;
    var s1 := "*]" + t;
    var s2 := "]" + t;
    assert s[1..] == s1 && s1[1..] == s2 && s2[1..] == t;
    assert T01NormalizePath(s2) == [']'] + T01NormalizePath(t);
    assert T01NormalizePath(s1) == ['*'] + T01NormalizePath(s2);
    assert T01NormalizePath(s) == ['['] + T01NormalizePath(s1);
  }

  /** A character that does not start a token is kept, and what follows is
      rewritten on its own. */
  lemma T01KeepFirst(c: char, t: string)
    requires !StartsWithT01Token([c] + t)
    ensures T01NormalizePath([c] + t) == [c] + T01NormalizePath(t)
    ensures T01NormalizePath([c] + T01NormalizePath(t)) == [c] + T01NormalizePath(T01NormalizePath(t))
  {
    assert ([c] + t)[1..] == t;
    var u := [c] + T01NormalizePath(t);
    assert u[1..] == T01NormalizePath(t);
    if c == '\\' && |t| >= 1 {
      T01FirstKept(t);
    }
  }

  /** The rewrite keeps a first character that is not a backslash, and a
      first backslash that is not followed by one of the token letters. */
  lemma T01FirstKept(t: string)
    requires t != [] && t[0] != '\\' && t[0] != 'd' && t[0] != '*'
    ensures T01NormalizePath(t) != [] && T01NormalizePath(t)[0] == t[0]
  {
  }

  lemma T01GroupKeysNormal(order: seq<string>)
    ensures forall n :: n in T01GroupKeys(order) ==> !T01Indexed(n)
  {
    forall n | n in T01GroupKeys(order) ensures !T01Indexed(n) {
      var p :| p in order && T01Indexed(p) && T01NormalizePath(p) == n;
      T01NormalizeIdempotent(p);
    }
  }

  /** `merge_array_fields` on the whole registry. */
  function T01ArrayMerged(cfg: T01Config, reg: T01Registry): T01Registry
    requires forall p :: p in reg.order ==> p in reg.fields
  {
    T01GroupKeysNormal(reg.order);
    T01MergedGroups(cfg, reg, T01GroupKeys(reg.order), reg.order)
  }

  /** Paths without a backslash never group, so the merge changes nothing:
      `content[0].title` and `content[1].title` stay separate. */
  lemma T01MergeNoopWithoutBackslash(cfg: T01Config, reg: T01Registry)
    requires forall p :: p in reg.order ==> p in reg.fields
    requires forall p :: p in reg.order ==> '\\' !in p
    ensures T01ArrayMerged(cfg, reg) == reg
  {
    forall p | p in reg.order ensures !T01Indexed(p) {
      T01NormalizeNoBackslash(p);
    }
    var keys := T01GroupKeys(reg.order);
    NonEmptyHasFirst(keys);
    assert keys == [];
  }

  lemma T01MergedGroupsUnfold(cfg: T01Config, reg: T01Registry, keys: seq<string>, original: seq<string>)
    requires Distinct(keys) && T01PendingPresent(reg, keys, original) && keys != []
    requires forall n :: n in keys ==> !T01Indexed(n)
    ensures var next := T01MergedGroup(cfg, reg, keys[0], T01GroupMembers(original, keys[0]));
            Distinct(keys[1..]) && T01PendingPresent(next, keys[1..], original)
            && (forall n :: n in keys[1..] ==> !T01Indexed(n))
            && T01MergedGroups(cfg, reg, keys, original) == T01MergedGroups(cfg, next, keys[1..], original)
  {
    var next := T01MergedGroup(cfg, reg, keys[0], T01GroupMembers(original, keys[0]));
    forall p | p in original && T01Indexed(p) && T01NormalizePath(p) in keys[1..]
      ensures p in next.fields
    {
      assert T01NormalizePath(p) != keys[0];
      assert p != keys[0];
    }
  }
}
