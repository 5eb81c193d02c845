// The CLI `FieldExtractor` object itself
// (src/claude-cli-analyzer/src/core/field_extractor.py): its registry is
// updated in place by `_record_field`, the recursive walk, the enum pass and
// the index merge; each method is proved to leave the registry exactly as
// the corresponding function of CliFieldExtractor says.

module CliExtractorObject {
  import opened Text
  import opened JsonModel
  import opened Ordering
  import opened Patterns
  import opened ValueTruncation
  import opened CliFieldTypes
  import opened CliFieldExtractor

  // ---------------------------------------------------------------------
  // Steps of `merge_array_index_fields` that only compute.

  /** The grouping pass: pattern keys in order of first appearance, and the
      indexed paths of each pattern in registry order. */
  method GroupIndexedPaths(paths: seq<string>) returns (keys: seq<string>, groups: map<string, seq<string>>)
    ensures keys == GroupKeys(paths)
    ensures forall n :: n in groups <==> n in keys
    ensures forall n :: n in groups ==> groups[n] == GroupMembers(paths, n)
  {
    keys := [];
    groups := map[];
    for k := 0 to |paths|
      invariant keys == GroupKeys(paths[..k])
      invariant forall n :: n in groups <==> n in keys
      invariant forall n :: n in groups ==> groups[n] == GroupMembers(paths[..k], n)
    {
      keys, groups := GroupPath(paths, k, keys, groups);
    }
    assert paths[..|paths|] == paths;
  }

  /** One path of the grouping pass: a changed path holding `[*]` joins the
      group of its pattern, opening it when new. */
  method GroupPath(paths: seq<string>, k: nat, keys: seq<string>, groups: map<string, seq<string>>)
    returns (keys': seq<string>, groups': map<string, seq<string>>)
    requires k < |paths| && keys == GroupKeys(paths[..k])
    requires forall n :: n in groups <==> n in keys
    requires forall n :: n in groups ==> groups[n] == GroupMembers(paths[..k], n)
    ensures keys' == GroupKeys(paths[..k + 1])
    ensures forall n :: n in groups' <==> n in keys'
    ensures forall n :: n in groups' ==> groups'[n] == GroupMembers(paths[..k + 1], n)
  {
    var p := paths[k];
    GroupStep(paths, k);
    keys', groups' := keys, groups;
    var normalized := NormalizeIndices(p);
    var indexed := Contains(normalized, "[*]") && normalized != p;
    assert indexed == IsIndexed(p);
    if indexed {
      if normalized in groups {
        groups' := groups[normalized := groups[normalized] + [p]];
      } else {
        keys' := keys + [normalized];
        groups' := groups[normalized := [p]];
      }
    }
    forall n | n in groups' ensures groups'[n] == GroupMembers(paths[..k + 1], n) {
      GroupStepMembers(paths, k, n);
    }
  }

  /** The example de-duplication of a merge: truncate again, keep the first
      example of each printed form, stop at `maxExamples`. */
  method DedupExamples(cfg: Config, allExamples: seq<Json>) returns (unique: seq<Json>)
    ensures unique == DedupPrinted(cfg, allExamples, [], {})
  {
    unique := [];
    var seen: set<string> := {};
    var e := 0;
    while e < |allExamples|
      invariant 0 <= e <= |allExamples|
      invariant DedupPrinted(cfg, allExamples[e..], unique, seen) == DedupPrinted(cfg, allExamples, [], {})
    {
      if |unique| >= cfg.maxExamples {
        break;
      }
      assert allExamples[e..][0] == allExamples[e];
      assert allExamples[e..][1..] == allExamples[e + 1..];
      var truncated := TruncateForOutput(allExamples[e], cfg.maxValueLength);
      var printed := PyStr(truncated);
      if printed !in seen {
        seen := seen + {printed};
        unique := unique + [truncated];
      }
      e := e + 1;
    }
  }

  /** The sums and unions of a merge, taken one more member further. */
  method AddTotals(ghost infos: seq<FieldInfo>, i: nat, info: FieldInfo,
                   occurrenceCount: nat, nullCount: nat, dataTypes: set<string>, allExamples: seq<Json>,
                   allPatterns: seq<string>, uniqueValues: set<Scalar>)
    returns (occurrenceCount': nat, nullCount': nat, dataTypes': set<string>, allExamples': seq<Json>,
             allPatterns': seq<string>, uniqueValues': set<Scalar>)
    requires i < |infos| && info == infos[i]
    requires occurrenceCount == SumOccurrences(infos[..i]) && nullCount == SumNulls(infos[..i])
    requires dataTypes == TypeSet(infos[..i]) && allExamples == AllExamples(infos[..i])
    requires allPatterns == AllPatterns(infos[..i]) && uniqueValues == UnionUnique(infos[..i])
    ensures occurrenceCount' == SumOccurrences(infos[..i + 1]) && nullCount' == SumNulls(infos[..i + 1])
    ensures dataTypes' == TypeSet(infos[..i + 1]) && allExamples' == AllExamples(infos[..i + 1])
    ensures allPatterns' == AllPatterns(infos[..i + 1]) && uniqueValues' == UnionUnique(infos[..i + 1])
  {
    AggregatesStep(infos, i);
    occurrenceCount' := occurrenceCount + info.occurrenceCount;
    nullCount' := nullCount + info.nullCount;
    dataTypes' := dataTypes + {info.dataType};
    allExamples' := allExamples + info.valueExamples;
    allPatterns' := allPatterns + info.valuePatterns;
    uniqueValues' := uniqueValues + info.uniqueValues;
  }

  class FieldExtractor {
    const cfg: Config
    var order: seq<string>
    var fields: map<string, FieldInfo>

    /** The registry as a value. */
    function Snapshot(): Registry
      reads this
    {
      Registry(order, fields)
    }

    ghost predicate Valid()
      reads this
    {
      RegistryOk(cfg, Snapshot())
    }

    constructor (maxUniqueValues: nat, maxExamples: nat, maxValueLength: nat)
      ensures cfg == Config(maxUniqueValues, maxExamples, maxValueLength)
      ensures Snapshot() == Registry([], map[]) && Valid()
    {
      cfg := Config(maxUniqueValues, maxExamples, maxValueLength);
      order := [];
      fields := map[];
    }

    /** The in-place updates `_record_field` makes to a field for one sighting. */
    method CountSighting(info: FieldInfo, v: Json) returns (r: FieldInfo)
      ensures r == Updated(cfg, info, v)
    {
      r := info.(occurrenceCount := info.occurrenceCount + 1);
      if v.Null? {
        r := r.(nullCount := r.nullCount + 1);
        return;
      }
      r := r.(dataType := MergeDataTypes(r.dataType, InferDataType(v)));
      r := AddExample(r, v);
      r := AddUniqueValue(r, v);
      r := AddPattern(r, v);
    }

    /** Keep the truncated value while there is room and it is new. */
    method AddExample(f: FieldInfo, v: Json) returns (r: FieldInfo)
      ensures r == WithExample(cfg, f, v)
    {
      r := f;
      if |r.valueExamples| < cfg.maxExamples {
        var truncated := TruncateForOutput(v, cfg.maxValueLength);
        if truncated !in r.valueExamples {
          r := r.(valueExamples := r.valueExamples + [truncated]);
        }
      }
    }

    /** Collect a scalar while there is room. */
    method AddUniqueValue(f: FieldInfo, v: Json) returns (r: FieldInfo)
      ensures r == WithUnique(cfg, f, v)
    {
      r := f;
      if |r.uniqueValues| < cfg.maxUniqueValues && IsScalar(v) {
        r := r.(uniqueValues := r.uniqueValues + {v});
      }
    }

    /** Record a string's pattern tag once. */
    method AddPattern(f: FieldInfo, v: Json) returns (r: FieldInfo)
      ensures r == WithPattern(f, v)
    {
      r := f;
      if v.Str? {
        var pattern := ExtractStringPattern(v.s);
        if pattern.Some? && pattern.value !in r.valuePatterns {
          r := r.(valuePatterns := r.valuePatterns + [pattern.value]);
        }
      }
    }

    /** `_record_field`: create the field on first sight, then count the sighting. */
    method RecordField(path: string, v: Json)
      requires Valid()
      modifies this
      ensures Valid()
      ensures Snapshot() == Recorded(cfg, old(Snapshot()), path, v)
    {
      RecordedFrame(cfg, Snapshot(), path, v);
      var info := if path in fields then fields[path] else NewField(path, InferDataType(v));
      info := CountSighting(info, v);
      if path !in fields {
        order := order + [path];
      }
      fields := fields[path := info];
    }

    /** `extract_fields_from_value`: the registry afterwards is the old one
        with every sighting of the walk recorded in order. */
    method ExtractFieldsFromValue(v: Json, path: string, maxDepth: int)
      requires Valid()
      modifies this
      ensures Valid()
      ensures Snapshot() == RecordedAll(cfg, old(Snapshot()), Sightings(v, path, maxDepth))
      decreases v, 1
    {
      if maxDepth <= 0 {
        return;
      }
      ghost var start := Snapshot();
      if v.Obj? || v.Arr? {
        if path != "" {
          RecordField(path, v);
          RecordedAllCons(cfg, start, (path, v), []);
        }
        ghost var head: seq<(string, Json)> := if path != "" then [(path, v)] else [];
        if v.Obj? {
          ExtractMembers(v, path, maxDepth, start, head);
        } else {
          ExtractElements(v, path, maxDepth, start, head);
        }
      }
    }

    /** The loop over an object's keys. */
    method ExtractMembers(v: Json, path: string, maxDepth: int, ghost start: Registry, ghost head: seq<(string, Json)>)
      requires v.Obj? && maxDepth > 0
      requires Valid() && Snapshot() == RecordedAll(cfg, start, head)
      modifies this
      ensures Valid()
      ensures Snapshot() == RecordedAll(cfg, start, head + Flatten(
                seq(|v.members|, i requires 0 <= i < |v.members| =>
                      MemberSightings(path, v.members[i].0, v.members[i].1, maxDepth))))
      decreases v, 0
    {
      var ms := v.members;
      ghost var chunks := seq(|ms|, i requires 0 <= i < |ms| => MemberSightings(path, ms[i].0, ms[i].1, maxDepth));
      assert chunks[..0] == [] && head + [] == head;
      for i := 0 to |ms|
        invariant Valid()
        invariant Snapshot() == RecordedAll(cfg, start, head + Flatten(chunks[..i]))
      {
        ExtractMember(path, ms[i].0, ms[i].1, maxDepth);
        RecordedAllChunk(cfg, start, head, chunks, i);
      }
      assert chunks[..|ms|] == chunks;
    }

    /** One key of an object: the key's path is recorded, then its value walked. */
    method ExtractMember(path: string, key: string, val: Json, maxDepth: int)
      requires Valid()
      modifies this
      ensures Valid()
      ensures Snapshot() == RecordedAll(cfg, old(Snapshot()), MemberSightings(path, key, val, maxDepth))
      decreases val, 2
    {
      var newPath := ChildPath(path, key);
      ghost var mid := Snapshot();
      RecordField(newPath, val);
      ExtractFieldsFromValue(val, newPath, maxDepth - 1);
      RecordedAllCons(cfg, mid, (newPath, val), Sightings(val, newPath, maxDepth - 1));
    }

    /** The loop over the first ten elements of a list. */
    method ExtractElements(v: Json, path: string, maxDepth: int, ghost start: Registry, ghost head: seq<(string, Json)>)
      requires v.Arr? && maxDepth > 0
      requires Valid() && Snapshot() == RecordedAll(cfg, start, head)
      modifies this
      ensures Valid()
      ensures Snapshot() == RecordedAll(cfg, start, head + Flatten(
                seq(Min(SampleSize, |v.elems|), i requires 0 <= i < Min(SampleSize, |v.elems|) =>
                      ElementSightings(path, i, v.elems[i], maxDepth))))
      decreases v, 0
    {
      var xs := v.elems;
      var n := Min(SampleSize, |xs|);
      ghost var chunks := seq(Min(SampleSize, |v.elems|), i requires 0 <= i < Min(SampleSize, |v.elems|) =>
                                ElementSightings(path, i, v.elems[i], maxDepth));
      assert chunks[..0] == [] && head + [] == head;
      for i := 0 to n
        invariant Valid()
        invariant Snapshot() == RecordedAll(cfg, start, head + Flatten(chunks[..i]))
      {
        ghost var mid := Snapshot();
        ExtractElement(path, i, xs[i], maxDepth);
        RecordedAllChunk(cfg, start, head, chunks, i);
      }
      assert chunks[..n] == chunks;
    }

    /** One element of a list: containers are walked at `path[i]` (and the
        first also at `path[]`), scalars are recorded at `path[]`. */
    method ExtractElement(path: string, i: nat, item: Json, maxDepth: int)
      requires i < SampleSize && Valid()
      modifies this
      ensures Valid()
      ensures Snapshot() == RecordedAll(cfg, old(Snapshot()), ElementSightings(path, i, item, maxDepth))
      decreases item, 2
    {
      ghost var mid := Snapshot();
      if IsContainer(item) {
        ExtractFieldsFromValue(item, IndexedPath(path, i), maxDepth - 1);
        if i == 0 {
          ExtractFieldsFromValue(item, GenericPath(path), maxDepth - 1);
          RecordedAllAppend(cfg, mid, Sightings(item, IndexedPath(path, i), maxDepth - 1),
                            Sightings(item, GenericPath(path), maxDepth - 1));
        } else {
          assert ElementSightings(path, i, item, maxDepth) == Sightings(item, IndexedPath(path, i), maxDepth - 1);
        }
      } else {
        RecordField(GenericPath(path), item);
        RecordedAllCons(cfg, mid, (GenericPath(path), item), []);
      }
    }

    /** `analyze_enums`: flag every field that qualifies and store its sorted values. */
    method AnalyzeEnums()
      requires Valid()
      modifies this
      ensures Valid()
      ensures Snapshot() == EnumsAnalyzed(cfg, old(Snapshot()))
    {
      ghost var start := Snapshot();
      EnumsAnalyzedProperties(cfg, start);
      for k := 0 to |order|
        invariant order == start.order
        invariant fields.Keys == start.fields.Keys
        invariant forall p :: p in fields ==>
                    fields[p] == if p in order[..k] then EnumChecked(cfg, start.fields[p]) else start.fields[p]
      {
        var p := order[k];
        PrefixSnoc(order, k);
        var info := CheckEnum(fields[p]);
        fields := fields[p := info];
      }
      assert order[..|order|] == order;
      EnumsAnalyzedPointwise(cfg, start, fields);
    }

    /** The test of `analyze_enums` for one field: enough non-null
        sightings, few distinct values, an enumerable label. */
    method CheckEnum(info: FieldInfo) returns (r: FieldInfo)
      ensures r == EnumChecked(cfg, info)
    {
      r := info;
      var total := info.occurrenceCount - info.nullCount;
      var uniqueCount := |info.uniqueValues|;
      if total >= 5 && uniqueCount <= cfg.maxUniqueValues && 5 * uniqueCount <= 4 * total
         && info.dataType in EnumLabels
      {
        r := info.(isEnum := true, enumValues := SortScalars(info.uniqueValues));
      }
    }

    /** One group of `merge_array_index_fields`: the members are summed into a
        field at the pattern and deleted. */
    method MergeGroup(normalizedPath: string, similarFields: seq<string>)
      requires |similarFields| > 1 && Distinct(similarFields)
      requires forall p :: p in similarFields ==> p in fields
      modifies this
      ensures Snapshot() == MergedGroup(cfg, old(Snapshot()), normalizedPath, similarFields)
    {
      ghost var infos := MemberInfos(Snapshot(), similarFields);
      var occurrenceCount, nullCount, dataTypes, allExamples, allPatterns, uniqueValues := RemoveMembers(similarFields);
      var dataType := "mixed";
      if |dataTypes| == 1 {
        var t :| t in dataTypes;
        assert infos[0].dataType in dataTypes;
        OneElement(dataTypes, t, infos[0].dataType);
        dataType := t;
      }
      var valueExamples := DedupExamples(cfg, allExamples);
      var merged := FieldInfo(normalizedPath, dataType, valueExamples, occurrenceCount, nullCount,
                              uniqueValues, false, [], SortStrings(set q | q in allPatterns));
      if normalizedPath !in fields {
        order := order + [normalizedPath];
      }
      fields := fields[normalizedPath := merged];
    }

    /** The loop over a group's members: sum their counters, gather their
        labels, examples, patterns and values, and delete them. */
    method RemoveMembers(similarFields: seq<string>)
      returns (occurrenceCount: nat, nullCount: nat, dataTypes: set<string>, allExamples: seq<Json>,
               allPatterns: seq<string>, uniqueValues: set<Scalar>)
      requires Distinct(similarFields)
      requires forall p :: p in similarFields ==> p in fields
      modifies this
      ensures var infos := MemberInfos(old(Snapshot()), similarFields);
              occurrenceCount == SumOccurrences(infos) && nullCount == SumNulls(infos)
              && dataTypes == TypeSet(infos) && allExamples == AllExamples(infos)
              && allPatterns == AllPatterns(infos) && uniqueValues == UnionUnique(infos)
      ensures fields == old(fields) - (set q | q in similarFields)
      ensures order == Without(old(order), set q | q in similarFields)
    {
      ghost var before := Snapshot();
      ghost var infos := MemberInfos(before, similarFields);
      occurrenceCount, nullCount, dataTypes, allExamples, allPatterns, uniqueValues := 0, 0, {}, [], [], {};
      ghost var gone: set<string> := {};
      WithoutNothing(before.order);
      for i := 0 to |similarFields|
        invariant occurrenceCount == SumOccurrences(infos[..i]) && nullCount == SumNulls(infos[..i])
        invariant dataTypes == TypeSet(infos[..i])
        invariant allExamples == AllExamples(infos[..i]) && allPatterns == AllPatterns(infos[..i])
        invariant uniqueValues == UnionUnique(infos[..i])
        invariant forall q :: q in gone <==> q in similarFields[..i]
        invariant fields == before.fields - gone
        invariant order == Without(before.order, gone)
      {
        var fieldPath := similarFields[i];
        PrefixSnoc(similarFields, i);
        var info := TakeField(fieldPath, before, gone);
        occurrenceCount, nullCount, dataTypes, allExamples, allPatterns, uniqueValues :=
          AddTotals(infos, i, info, occurrenceCount, nullCount, dataTypes, allExamples, allPatterns, uniqueValues);
        gone := gone + {fieldPath};
      }
      assert gone == set q | q in similarFields;
      assert infos[..|similarFields|] == infos;
    }

    /** Read a field and `del` it; `gone` holds the members deleted before it. */
    method TakeField(fieldPath: string, ghost before: Registry, ghost gone: set<string>) returns (info: FieldInfo)
      requires fieldPath in fields && fieldPath !in gone
      requires fields == before.fields - gone && order == Without(before.order, gone)
      modifies this
      ensures info == before.fields[fieldPath]
      ensures fields == before.fields - (gone + {fieldPath})
      ensures order == Without(before.order, gone + {fieldPath})
    {
      WithoutMore(before.order, gone, fieldPath);
      MapDropMore(before.fields, gone, fieldPath);
      info := fields[fieldPath];
      fields := fields - {fieldPath};
      order := Without(order, {fieldPath});
    }

    /** `merge_array_index_fields` on the whole registry. */
    method MergeArrayIndexFields()
      requires Valid()
      modifies this
      ensures Valid()
      ensures Snapshot() == ArrayIndexMerged(cfg, old(Snapshot()))
    {
      ghost var start := Snapshot();
      ArrayIndexMergedEffect(cfg, start);
      GroupKeysNormal(start.order);
      var paths := order;
      var keys, groups := GroupIndexedPaths(paths);
      assert keys[0..] == keys;
      for j := 0 to |keys|
        invariant Distinct(keys[j..]) && PendingPresent(Snapshot(), keys[j..], paths)
        invariant forall n :: n in keys[j..] ==> NormalizeIndices(n) == n
        invariant MergedGroups(cfg, Snapshot(), keys[j..], paths) == MergedGroups(cfg, start, keys, paths)
      {
        var normalizedPath := keys[j];
        var similarFields := groups[normalizedPath];
        assert keys[j..][0] == normalizedPath && keys[j..][1..] == keys[j + 1..];
        MergedGroupsUnfold(cfg, Snapshot(), keys[j..], paths);
        assert forall p :: p in similarFields ==> p in fields by {
          forall p | p in similarFields ensures p in fields {
            assert NormalizeIndices(p) in keys[j..];
          }
        }
        if |similarFields| > 1 {
          MergeGroup(normalizedPath, similarFields);
        }
      }
      assert keys[|keys|..] == [];
    }

    /** `generate_extraction_result`: enums, then the merge, then the summary. */
    method GenerateExtractionResult() returns (result: ExtractionSummary)
      requires Valid()
      modifies this
      ensures Valid()
      ensures Snapshot() == ArrayIndexMerged(cfg, EnumsAnalyzed(cfg, old(Snapshot())))
      ensures result == Summary(Snapshot())
    {
      AnalyzeEnums();
      MergeArrayIndexFields();
      result := Summarize();
    }

    /** The summary loop of `generate_extraction_result`: one pass over the
        fields counting labels, enum fields and occurrences. */
    method Summarize() returns (result: ExtractionSummary)
      requires forall p :: p in order ==> p in fields
      ensures result == Summary(Snapshot())
    {
      var distribution: map<string, nat> := map[];
      var enumFields: map<string, seq<Scalar>> := map[];
      var total := 0;
      for k := 0 to |order|
        invariant distribution == TypeCounts(fields, order[..k])
        invariant enumFields == EnumFieldsOf(fields, order[..k])
        invariant total == TotalOccurrences(fields, order[..k])
      {
        var p := order[k];
        assert order[..k + 1][..k] == order[..k];
        var info := fields[p];
        var seen := if info.dataType in distribution then distribution[info.dataType] else 0;
        distribution := distribution[info.dataType := seen + 1];
        if info.isEnum {
          enumFields := enumFields[p := info.enumValues];
        }
        total := total + info.occurrenceCount;
      }
      assert order[..|order|] == order;
      result := ExtractionSummary(total, |fields|, Snapshot(), distribution, enumFields);
    }
  }
}
