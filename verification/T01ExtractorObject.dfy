// The T01 `FieldExtractor` object
// (src/claude-code-analyzer/tasks/T01_deep_field_extraction/field_extractor.py):
// the record counter and the field registry are updated in place by
// `extract_from_record`, `_add_field`, the recursive walk and
// `merge_array_fields`; each method is proved to leave them exactly as the
// corresponding function of T01FieldExtractor says.

module T01ExtractorObject {
  import opened Text
  import opened JsonModel
  import opened Ordering
  import opened Patterns
  import opened ValueTruncation
  import opened CliFieldTypes
  import opened CliFieldExtractor
  import opened T01FieldExtractor

  /** The grouping pass of `merge_array_fields`. */
  method GroupT01Paths(paths: seq<string>) returns (keys: seq<string>, groups: map<string, seq<string>>)
    ensures keys == T01GroupKeys(paths)
    ensures forall n :: n in groups <==> n in keys
    ensures forall n :: n in groups ==> groups[n] == T01GroupMembers(paths, n)
  {
    keys := [];
    groups := map[];
    for k := 0 to |paths|
      invariant keys == T01GroupKeys(paths[..k])
      invariant forall n :: n in groups <==> n in keys
      invariant forall n :: n in groups ==> groups[n] == T01GroupMembers(paths[..k], n)
    {
      keys, groups := GroupPath(paths, k, keys, groups);
    }
    assert paths[..|paths|] == paths;
  }

  /** One path of the grouping pass: a changed path holding `[*]` joins the
      group of its pattern, opening it when new. */
  method GroupPath(paths: seq<string>, k: nat, keys: seq<string>, groups: map<string, seq<string>>)
    returns (keys': seq<string>, groups': map<string, seq<string>>)
    requires k < |paths| && keys == T01GroupKeys(paths[..k])
    requires forall n :: n in groups <==> n in keys
    requires forall n :: n in groups ==> groups[n] == T01GroupMembers(paths[..k], n)
    ensures keys' == T01GroupKeys(paths[..k + 1])
    ensures forall n :: n in groups' <==> n in keys'
    ensures forall n :: n in groups' ==> groups'[n] == T01GroupMembers(paths[..k + 1], n)
  {
    var p := paths[k];
    T01GroupStep(paths, k);
    keys', groups' := keys, groups;
    var normalized := T01NormalizePath(p);
    var indexed := Contains(normalized, "[*]") && normalized != p;
    assert indexed == T01Indexed(p);
    if indexed {
      if normalized in groups {
        groups' := groups[normalized := groups[normalized] + [p]];
      } else {
        keys' := keys + [normalized];
        groups' := groups[normalized := [p]];
      }
    }
    forall n | n in groups' ensures groups'[n] == T01GroupMembers(paths[..k + 1], n) {
      T01GroupStepMembers(paths, k, n);
    }
  }

  /** The example de-duplication of a T01 merge: by printed form, without
      truncating again, stopping at `maxExamples`. */
  method T01DedupExamples(cfg: T01Config, allExamples: seq<Json>) returns (examples: seq<Json>)
    ensures examples == T01Dedup(cfg, allExamples, [], {})
  {
    examples := [];
    var seen: set<string> := {};
    var e := 0;
    while e < |allExamples|
      invariant 0 <= e <= |allExamples|
      invariant T01Dedup(cfg, allExamples[e..], examples, seen) == T01Dedup(cfg, allExamples, [], {})
    {
      if |examples| >= cfg.maxExamples {
        break;
      }
      assert allExamples[e..][0] == allExamples[e];
      assert allExamples[e..][1..] == allExamples[e + 1..];
      var exampleStr := PyStr(allExamples[e]);
      if exampleStr !in seen {
        seen := seen + {exampleStr};
        examples := examples + [allExamples[e]];
      }
      e := e + 1;
    }
  }

  /** The sums and unions of a merge, taken one more member further. */
  method AddTotals(ghost infos: seq<T01Field>, i: nat, field: T01Field,
                   count: nat, nullCount: nat, dataTypes: set<string>, allExamples: seq<Json>,
                   uniqueValues: set<Scalar>)
    returns (count': nat, nullCount': nat, dataTypes': set<string>, allExamples': seq<Json>,
             uniqueValues': set<Scalar>)
    requires i < |infos| && field == infos[i]
    requires count == T01SumCounts(infos[..i]) && nullCount == T01SumNulls(infos[..i])
    requires dataTypes == T01TypeSet(infos[..i]) && allExamples == T01AllExamples(infos[..i])
    requires uniqueValues == T01UnionUnique(infos[..i])
    ensures count' == T01SumCounts(infos[..i + 1]) && nullCount' == T01SumNulls(infos[..i + 1])
    ensures dataTypes' == T01TypeSet(infos[..i + 1]) && allExamples' == T01AllExamples(infos[..i + 1])
    ensures uniqueValues' == T01UnionUnique(infos[..i + 1])
  {
    T01AggregatesStep(infos, i);
    count' := count + field.count;
    nullCount' := nullCount + field.nullCount;
    dataTypes' := dataTypes + {field.dataType};
    allExamples' := allExamples + field.examples;
    uniqueValues' := uniqueValues + field.uniqueValues;
  }

  class FieldExtractor {
    const cfg: T01Config
    var order: seq<string>
    var fields: map<string, T01Field>
    var totalRecords: nat

    function Snapshot(): T01Registry
      reads this
    {
      T01Registry(order, fields)
    }

    ghost predicate Valid()
      reads this
    {
      T01RegistryOk(cfg, Snapshot())
    }

    constructor (maxExamples: nat, maxValueLength: nat)
      ensures cfg == T01Config(maxExamples, maxValueLength)
      ensures Snapshot() == T01Registry([], map[]) && totalRecords == 0 && Valid()
    {
      cfg := T01Config(maxExamples, maxValueLength);
      order := [];
      fields := map[];
      totalRecords := 0;
    }

    /** `extract_from_record`: count the record, then walk it from the root. */
    method ExtractFromRecord(record: Json)
      requires Valid()
      modifies this
      ensures Valid() && totalRecords == old(totalRecords) + 1
      ensures Snapshot() == T01AddedAll(cfg, old(Snapshot()), T01Sightings(record, "", 20))
    {
      totalRecords := totalRecords + 1;
      ExtractRecursive(record, "", 20);
    }

    /** The in-place updates `_add_field` makes to a field for one sighting. */
    method CountSighting(info: T01Field, v: Json) returns (r: T01Field)
      ensures r == T01Added(cfg, info, v)
    {
      r := info.(count := info.count + 1);
      if v.Null? {
        r := r.(nullCount := r.nullCount + 1);
        return;
      }
      var typed := r.(dataType := T01MergeTypes(r.dataType, T01GetType(v)));
      r := AddExample(typed, v);
      r := AddUniqueValue(r, v);
      r := CheckEnum(r);
    }

    /** Keep the truncated value while there is room and it is new. */
    method AddExample(f: T01Field, v: Json) returns (r: T01Field)
      ensures r == T01WithExample(cfg, f, v)
    {
      r := f;
      if |r.examples| < cfg.maxExamples {
        var truncated := TruncateForOutput(v, cfg.maxValueLength);
        if truncated !in r.examples {
          r := r.(examples := r.examples + [truncated]);
        }
      }
    }

    /** Collect a scalar while fewer than fifty values are held. */
    method AddUniqueValue(f: T01Field, v: Json) returns (r: T01Field)
      ensures r == T01WithUnique(f, v)
    {
      r := f;
      if IsScalar(v) && |r.uniqueValues| < UniqueCap {
        r := r.(uniqueValues := r.uniqueValues + {v});
      }
    }

    /** The enum test, made after every non-null sighting. */
    method CheckEnum(f: T01Field) returns (r: T01Field)
      ensures r == T01EnumChecked(f)
    {
      r := f;
      if r.count >= 5 && |r.uniqueValues| <= UniqueCap && 5 * |r.uniqueValues| <= 4 * r.count
         && r.dataType in EnumLabels
      {
        r := r.(isEnum := true, enumValues := SortScalars(r.uniqueValues));
      }
    }

    /** `_add_field`: create the field on first sight, then count the sighting. */
    method AddField(path: string, v: Json)
      requires Valid()
      modifies this
      ensures Valid() && totalRecords == old(totalRecords)
      ensures Snapshot() == T01AddedAt(cfg, old(Snapshot()), path, v)
    {
      T01AddedAtFrame(cfg, Snapshot(), path, v);
      var field := if path in fields then fields[path] else T01NewField(path, T01GetType(v));
      var info := CountSighting(field, v);
      if path !in fields {
        order := order + [path];
      }
      fields := fields[path := info];
    }

    /** `_extract_recursive`: every sighting of the walk added in order. */
    method ExtractRecursive(v: Json, path: string, depth: int)
      requires Valid()
      modifies this
      ensures Valid() && totalRecords == old(totalRecords)
      ensures Snapshot() == T01AddedAll(cfg, old(Snapshot()), T01Sightings(v, path, depth))
      decreases v, 1
    {
      if depth <= 0 {
        return;
      }
      ghost var start := Snapshot();
      if v.Obj? || v.Arr? {
        if path != "" {
          AddField(path, v);
          T01AddedAllCons(cfg, start, (path, v), []);
        }
        ghost var head: seq<(string, Json)> := if path != "" then [(path, v)] else [];
        if v.Obj? {
          ExtractMembers(v, path, depth, start, head);
        } else {
          ExtractElements(v, path, depth, start, head);
        }
      }
    }

    /** The loop over a dict's items. */
    method ExtractMembers(v: Json, path: string, depth: int, ghost start: T01Registry, ghost head: seq<(string, Json)>)
      requires v.Obj? && depth > 0
      requires Valid() && Snapshot() == T01AddedAll(cfg, start, head)
      modifies this
      ensures Valid() && totalRecords == old(totalRecords)
      ensures Snapshot() == T01AddedAll(cfg, start, head + Flatten(
                seq(|v.members|, i requires 0 <= i < |v.members| =>
                      T01MemberSightings(path, v.members[i].0, v.members[i].1, depth))))
      decreases v, 0
    {
      var ms := v.members;
      ghost var chunks := seq(|ms|, i requires 0 <= i < |ms| => T01MemberSightings(path, ms[i].0, ms[i].1, depth));
      assert chunks[..0] == [] && head + [] == head;
      for i := 0 to |ms|
        invariant Valid() && totalRecords == old(totalRecords)
        invariant Snapshot() == T01AddedAll(cfg, start, head + Flatten(chunks[..i]))
      {
        ExtractMember(path, ms[i].0, ms[i].1, depth);
        T01AddedAllChunk(cfg, start, head, chunks, i);
      }
      assert chunks[..|ms|] == chunks;
    }

    /** One item of a dict: the key's path is added, then its value walked. */
    method ExtractMember(path: string, key: string, val: Json, depth: int)
      requires Valid()
      modifies this
      ensures Valid() && totalRecords == old(totalRecords)
      ensures Snapshot() == T01AddedAll(cfg, old(Snapshot()), T01MemberSightings(path, key, val, depth))
      decreases val, 2
    {
      var newPath := ChildPath(path, key);
      ghost var mid := Snapshot();
      AddField(newPath, val);
      ExtractRecursive(val, newPath, depth - 1);
      T01AddedAllCons(cfg, mid, (newPath, val), T01Sightings(val, newPath, depth - 1));
    }

    /** The loop over the first ten elements of a list. */
    method ExtractElements(v: Json, path: string, depth: int, ghost start: T01Registry, ghost head: seq<(string, Json)>)
      requires v.Arr? && depth > 0
      requires Valid() && Snapshot() == T01AddedAll(cfg, start, head)
      modifies this
      ensures Valid() && totalRecords == old(totalRecords)
      ensures Snapshot() == T01AddedAll(cfg, start, head + Flatten(
                seq(Min(SampleSize, |v.elems|), i requires 0 <= i < Min(SampleSize, |v.elems|) =>
                      T01ElementSightings(path, i, v.elems[i], depth))))
      decreases v, 0
    {
      var xs := v.elems;
      var n := Min(SampleSize, |xs|);
      ghost var chunks := seq(Min(SampleSize, |v.elems|), i requires 0 <= i < Min(SampleSize, |v.elems|) =>
                                T01ElementSightings(path, i, v.elems[i], depth));
      assert chunks[..0] == [] && head + [] == head;
      for i := 0 to n
        invariant Valid() && totalRecords == old(totalRecords)
        invariant Snapshot() == T01AddedAll(cfg, start, head + Flatten(chunks[..i]))
      {
        ExtractElement(path, i, xs[i], depth);
        T01AddedAllChunk(cfg, start, head, chunks, i);
      }
      assert chunks[..n] == chunks;
    }

    /** One element: containers walked at `path[i]` (the first also at
        `path[*]`), anything else added at `path[*]`. */
    method ExtractElement(path: string, i: nat, item: Json, depth: int)
      requires i < SampleSize && Valid()
      modifies this
      ensures Valid() && totalRecords == old(totalRecords)
      ensures Snapshot() == T01AddedAll(cfg, old(Snapshot()), T01ElementSightings(path, i, item, depth))
      decreases item, 2
    {
      ghost var mid := Snapshot();
      if IsContainer(item) {
        ExtractRecursive(item, IndexedPath(path, i), depth - 1);
        if i == 0 {
          ExtractRecursive(item, StarPath(path), depth - 1);
          T01AddedAllAppend(cfg, mid, T01Sightings(item, IndexedPath(path, i), depth - 1),
                            T01Sightings(item, StarPath(path), depth - 1));
        } else {
          assert T01ElementSightings(path, i, item, depth) == T01Sightings(item, IndexedPath(path, i), depth - 1);
        }
      } else {
        AddField(StarPath(path), item);
        T01AddedAllCons(cfg, mid, (StarPath(path), item), []);
      }
    }

    /** One group of `merge_array_fields`. */
    method MergeGroup(normalizedPath: string, similarFields: seq<string>)
      requires |similarFields| > 1 && Distinct(similarFields)
      requires forall p :: p in similarFields ==> p in fields
      modifies this
      ensures totalRecords == old(totalRecords)
      ensures Snapshot() == T01MergedGroup(cfg, old(Snapshot()), normalizedPath, similarFields)
    {
      ghost var infos := T01MemberInfos(Snapshot(), similarFields);
      var count, nullCount, dataTypes, allExamples, uniqueValues := RemoveMembers(similarFields);
      var dataType := "mixed";
      if |dataTypes| == 1 {
        var t :| t in dataTypes;
        assert infos[0].dataType in dataTypes;
        OneElement(dataTypes, t, infos[0].dataType);
        dataType := t;
      }
      var examples := T01DedupExamples(cfg, allExamples);
      var merged := T01Field(normalizedPath, dataType, examples, count, nullCount, uniqueValues, false, []);
      if normalizedPath !in fields {
        order := order + [normalizedPath];
      }
      fields := fields[normalizedPath := merged];
    }

    /** The loop over a group's members: sum and gather, then delete each. */
    method RemoveMembers(similarFields: seq<string>)
      returns (count: nat, nullCount: nat, dataTypes: set<string>, allExamples: seq<Json>, uniqueValues: set<Scalar>)
      requires Distinct(similarFields)
      requires forall p :: p in similarFields ==> p in fields
      modifies this
      ensures var infos := T01MemberInfos(old(Snapshot()), similarFields);
              count == T01SumCounts(infos) && nullCount == T01SumNulls(infos)
              && dataTypes == T01TypeSet(infos) && allExamples == T01AllExamples(infos)
              && uniqueValues == T01UnionUnique(infos)
      ensures fields == old(fields) - (set q | q in similarFields)
      ensures order == Without(old(order), set q | q in similarFields)
      ensures totalRecords == old(totalRecords)
    {
      ghost var before := Snapshot();
      ghost var infos := T01MemberInfos(before, similarFields);
      count, nullCount, dataTypes, allExamples, uniqueValues := 0, 0, {}, [], {};
      ghost var gone: set<string> := {};
      WithoutNothing(before.order);
      for i := 0 to |similarFields|
        invariant count == T01SumCounts(infos[..i]) && nullCount == T01SumNulls(infos[..i])
        invariant dataTypes == T01TypeSet(infos[..i]) && allExamples == T01AllExamples(infos[..i])
        invariant uniqueValues == T01UnionUnique(infos[..i])
        invariant forall q :: q in gone <==> q in similarFields[..i]
        invariant fields == before.fields - gone
        invariant order == Without(before.order, gone)
        invariant totalRecords == old(totalRecords)
      {
        var fieldPath := similarFields[i];
        PrefixSnoc(similarFields, i);
        var field := TakeField(fieldPath, before, gone);
        count, nullCount, dataTypes, allExamples, uniqueValues :=
          AddTotals(infos, i, field, count, nullCount, dataTypes, allExamples, uniqueValues);
        gone := gone + {fieldPath};
      }
      assert gone == set q | q in similarFields;
      assert infos[..|similarFields|] == infos;
    }

    /** Read a field and `del` it; `gone` holds the members deleted before it. */
    method TakeField(fieldPath: string, ghost before: T01Registry, ghost gone: set<string>) returns (field: T01Field)
      requires fieldPath in fields && fieldPath !in gone
      requires fields == before.fields - gone && order == Without(before.order, gone)
      modifies this
      ensures field == before.fields[fieldPath]
      ensures fields == before.fields - (gone + {fieldPath})
      ensures order == Without(before.order, gone + {fieldPath})
      ensures totalRecords == old(totalRecords)
    {
      WithoutMore(before.order, gone, fieldPath);
      MapDropMore(before.fields, gone, fieldPath);
      field := fields[fieldPath];
      fields := fields - {fieldPath};
      order := Without(order, {fieldPath});
    }

    /** `merge_array_fields` on the whole registry. */
    method MergeArrayFields()
      requires Valid()
      modifies this
      ensures totalRecords == old(totalRecords)
      ensures Snapshot() == T01ArrayMerged(cfg, old(Snapshot()))
    {
      ghost var start := Snapshot();
      T01GroupKeysNormal(start.order);
      var paths := order;
      var keys, groups := GroupT01Paths(paths);
      assert keys[0..] == keys;
      for j := 0 to |keys|
        invariant totalRecords == old(totalRecords)
        invariant Distinct(keys[j..]) && T01PendingPresent(Snapshot(), keys[j..], paths)
        invariant forall n :: n in keys[j..] ==> !T01Indexed(n)
        invariant T01MergedGroups(cfg, Snapshot(), keys[j..], paths) == T01MergedGroups(cfg, start, keys, paths)
      {
        var normalizedPath := keys[j];
        var similarFields := groups[normalizedPath];
        assert keys[j..][0] == normalizedPath && keys[j..][1..] == keys[j + 1..];
        T01MergedGroupsUnfold(cfg, Snapshot(), keys[j..], paths);
        assert forall p :: p in similarFields ==> p in fields by {
          forall p | p in similarFields ensures p in fields {
            assert T01NormalizePath(p) in keys[j..];
          }
        }
        if |similarFields| > 1 {
          MergeGroup(normalizedPath, similarFields);
        }
      }
      assert keys[|keys|..] == [];
      assert T01ArrayMerged(cfg, start) == T01MergedGroups(cfg, start, keys, paths);
    }
  }
}
