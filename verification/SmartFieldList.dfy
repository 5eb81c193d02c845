// The smart field list of the CLI analyzer
// (src/claude-cli-analyzer/generate_smart_field_list.py): the registry's
// fields are grouped by their `[*]` pattern, each group is merged into one
// entry (summed counters, merged type, enum values, examples, value
// patterns and array indices), the entries are sorted by depth and then by
// descending occurrences, and the index range of a pattern is rendered as
// `[min]`, `[min-max]` or `-`.

module SmartFieldList {
  import opened Text
  import opened JsonModel
  import opened Ordering
  import opened Patterns
  import opened CliFieldTypes
  import CliFieldExtractor
  import SharedUtils

  /** One item of `field_registry.items()`: a path and its field summary. */
  type Entry = (string, CliFieldExtractor.FieldInfo)

  /** A field filed under its pattern: `original_path`, `field_info`, `indices`. */
  datatype GroupMember = GroupMember(originalPath: string, info: CliFieldExtractor.FieldInfo, indices: seq<nat>)

  function MemberOf(e: Entry): GroupMember {
    GroupMember(e.0, e.1, ExtractIndices(e.0))
  }

  /** `normalize_field_pattern`. */
  function PatternOf(e: Entry): string {
    NormalizeIndices(e.0)
  }

  // ---------------------------------------------------------------------
  // Grouping by pattern.

  /** The keys of `pattern_groups`, in the order they were first filled. */
  function PatternOrder(entries: seq<Entry>): (keys: seq<string>)
    ensures Distinct(keys) && |keys| <= |entries|
    ensures forall n :: n in keys <==> exists i :: 0 <= i < |entries| && PatternOf(entries[i]) == n
  {
    if entries == [] then []
    else
      var init := entries[..|entries| - 1];
      var keys := PatternOrder(init);
      var n := PatternOf(entries[|entries| - 1]);
      assert forall i :: 0 <= i < |init| ==> init[i] == entries[i];
      if n in keys then keys
      else
        assert Distinct(keys + [n]) by {
          forall i, j | 0 <= i < j < |keys| + 1 ensures (keys + [n])[i] != (keys + [n])[j] {
            if j == |keys| { assert (keys + [n])[i] == keys[i]; }
          }
        }
        keys + [n]
  }

  /** `pattern_groups[n]`: the fields of pattern `n`, in registry order. */
  function Group(entries: seq<Entry>, n: string): (ms: seq<GroupMember>)
    ensures |ms| <= |entries|
    ensures forall k :: 0 <= k < |ms| ==> NormalizeIndices(ms[k].originalPath) == n
    ensures ms != [] <==> exists i :: 0 <= i < |entries| && PatternOf(entries[i]) == n
  {
    if entries == [] then []
    else
      var init := entries[..|entries| - 1];
      var e := entries[|entries| - 1];
      assert forall i :: 0 <= i < |init| ==> init[i] == entries[i];
      Group(init, n) + (if PatternOf(e) == n then [MemberOf(e)] else [])
  }

  /** One more registry item: its pattern becomes a new key, or its field joins the group. */
  lemma GroupingStep(entries: seq<Entry>, i: nat, n: string)
    requires i < |entries|
    ensures var e := entries[i];
            var keys := PatternOrder(entries[..i]);
            PatternOrder(entries[..i + 1]) == (if PatternOf(e) in keys then keys else keys + [PatternOf(e)])
            && Group(entries[..i + 1], n) == Group(entries[..i], n) + (if PatternOf(e) == n then [MemberOf(e)] else [])
  {
    assert entries[..i + 1][..i] == entries[..i];
  }

  /**
   * The grouping loop: `pattern_groups[pattern].append(...)` for every
   * registry item in turn.
   */
  method GroupByPattern(entries: seq<Entry>) returns (order: seq<string>, groups: map<string, seq<GroupMember>>)
    ensures order == PatternOrder(entries)
    ensures forall n :: n in groups <==> n in order
    ensures forall n :: n in groups ==> groups[n] == Group(entries, n)
  {
    order := [];
    groups := map[];
    for i := 0 to |entries|
      invariant order == PatternOrder(entries[..i])
      invariant forall n :: n in groups <==> n in order
      invariant forall n :: n in groups ==> groups[n] == Group(entries[..i], n)
    {
      order, groups := AddEntry(entries, i, order, groups);
    }
    assert entries[..|entries|] == entries;
  }

  /** One pass of the grouping loop: the item's pattern becomes a new key or
      its field joins that pattern's group. */
  method AddEntry(entries: seq<Entry>, i: nat, order: seq<string>, groups: map<string, seq<GroupMember>>)
    returns (order': seq<string>, groups': map<string, seq<GroupMember>>)
    requires i < |entries| && order == PatternOrder(entries[..i])
    requires forall n :: n in groups <==> n in order
    requires forall n :: n in groups ==> groups[n] == Group(entries[..i], n)
    ensures order' == PatternOrder(entries[..i + 1])
    ensures forall n :: n in groups' <==> n in order'
    ensures forall n :: n in groups' ==> groups'[n] == Group(entries[..i + 1], n)
  {
    var e := entries[i];
    var pattern := NormalizeIndices(e.0);
    var member := GroupMember(e.0, e.1, ExtractIndices(e.0));
    GroupingStep(entries, i, pattern);
    if pattern in groups {
      groups' := groups[pattern := groups[pattern] + [member]];
      order' := order;
    } else {
      assert Group(entries[..i], pattern) == [] by {
        assert pattern !in PatternOrder(entries[..i]);
      }
      groups' := groups[pattern := [member]];
      order' := order + [pattern];
    }
    forall n | n in groups' ensures groups'[n] == Group(entries[..i + 1], n) {
      GroupingStep(entries, i, n);
      if n != pattern {
        assert groups'[n] == groups[n];
      }
    }
  }

  // ---------------------------------------------------------------------
  // What a group merges into.

  datatype MergedField = MergedField(
    pattern: string,
    originalPaths: seq<string>,
    dataType: string,
    totalOccurrences: nat,
    nullCount: nat,
    isEnum: bool,
    enumValues: Option<seq<Scalar>>,
    examples: seq<Json>,
    patterns: seq<string>,
    depth: nat,
    arrayIndices: seq<nat>,
    instanceCount: nat)

  /** `pattern.count('.') + pattern.count('[')`. */
  function Depth(pattern: string): nat {
    CountChar(pattern, '.') + CountChar(pattern, '[')
  }

  function Paths(ms: seq<GroupMember>): (ps: seq<string>)
    ensures |ps| == |ms| && forall k :: 0 <= k < |ms| ==> ps[k] == ms[k].originalPath
  {
    seq(|ms|, k requires 0 <= k < |ms| => ms[k].originalPath)
  }

  /** `sum(g(x) for x in s)`. */
  function SumBy<T>(s: seq<T>, g: T -> nat): nat {
    if s == [] then 0 else SumBy(s[..|s| - 1], g) + g(s[|s| - 1])
  }

  function Occurrences(m: GroupMember): nat { m.info.occurrenceCount }
  function Nulls(m: GroupMember): nat { m.info.nullCount }
  function One(m: GroupMember): nat { 1 }

  /** `set(f['field_info']['data_type'] for f in fields)`. */
  function TypeSet(ms: seq<GroupMember>): set<string> {
    set k | 0 <= k < |ms| :: ms[k].info.dataType
  }

  /** The merged type: the common type, or `mixed(...)` listing them all. */
  function MergedType(ms: seq<GroupMember>): string {
    var types := TypeSet(ms);
    if |types| == 1 then SortStrings(types)[0] else "mixed(" + Join(SortStrings(types), ",") + ")"
  }

  /** A member that is an enum and has values. */
  predicate EnumWithValues(m: GroupMember) {
    m.info.isEnum && m.info.enumValues != []
  }

  function Elements<T>(s: seq<T>): set<T> {
    set k | 0 <= k < |s| :: s[k]
  }

  /** `is_enum` after the enum loop. */
  function AnyEnum(ms: seq<GroupMember>): bool {
    if ms == [] then false else AnyEnum(ms[..|ms| - 1]) || EnumWithValues(ms[|ms| - 1])
  }

  /** `all_enum_values` after the enum loop. */
  function EnumUnion(ms: seq<GroupMember>): set<Scalar> {
    if ms == [] then {}
    else
      var m := ms[|ms| - 1];
      EnumUnion(ms[..|ms| - 1]) + (if EnumWithValues(m) then Elements(m.info.enumValues) else {})
  }

  /** `all_patterns` after the pattern loop. */
  function PatternUnion(ms: seq<GroupMember>): set<string> {
    if ms == [] then {} else PatternUnion(ms[..|ms| - 1]) + Elements(ms[|ms| - 1].info.valuePatterns)
  }

  /** `set().union(*[f['indices'] for f in fields])`. */
  function IndexUnion(ms: seq<GroupMember>): set<nat> {
    if ms == [] then {} else IndexUnion(ms[..|ms| - 1]) + Elements(ms[|ms| - 1].indices)
  }

  /** `any(f['indices'] for f in fields)`. */
  predicate AnyIndices(ms: seq<GroupMember>) {
    exists k :: 0 <= k < |ms| && ms[k].indices != []
  }

  function NatLe(a: nat, b: nat): bool { a <= b }

  lemma NatLeIsTotalOrder()
    ensures IsTotalOrder(NatLe)
  {
  }

  /** `sorted(set().union(...)) if any(...) else []`. */
  function ArrayIndices(ms: seq<GroupMember>): seq<nat> {
    NatLeIsTotalOrder();
    if AnyIndices(ms) then SortSet(IndexUnion(ms), NatLe) else []
  }

  /** The first two examples of each field, field after field. */
  function Candidates(ms: seq<GroupMember>): seq<Json> {
    Flatten(seq(|ms|, k requires 0 <= k < |ms| => FirstTwo(ms[k])))
  }

  function FirstTwo(m: GroupMember): seq<Json> {
    m.info.valueExamples[..Min(2, |m.info.valueExamples|)]
  }

  /** The printed forms of the kept examples: `seen_examples`. */
  function Shown(kept: seq<Json>): set<string> {
    set k | 0 <= k < |kept| :: PyStr(kept[k])
  }

  const MaxMergedExamples := 5

  /**
   * `all_examples` after the example loop: a candidate is kept when its
   * printed form is new and fewer than five are kept.
   */
  function Dedup(s: seq<Json>): (r: seq<Json>)
    ensures |r| <= MaxMergedExamples
  {
    if s == [] then []
    else
      var kept := Dedup(s[..|s| - 1]);
      var x := s[|s| - 1];
      if PyStr(x) !in Shown(kept) && |kept| < MaxMergedExamples then kept + [x] else kept
  }

  /**
   * The kept examples come from the candidates, print differently from one
   * another, and every candidate left out prints like a kept one unless five
   * are kept already.
   */
  lemma {:induction false} DedupFacts(s: seq<Json>)
    ensures var r := Dedup(s);
            (forall k :: 0 <= k < |r| ==> r[k] in s)
            && (forall i, j :: 0 <= i < j < |r| ==> PyStr(r[i]) != PyStr(r[j]))
            && (forall k :: 0 <= k < |s| ==> PyStr(s[k]) in Shown(r) || |r| == MaxMergedExamples)
  {
    if s != [] {
      var init := s[..|s| - 1];
      var x := s[|s| - 1];
      var kept := Dedup(init);
      DedupFacts(init);
      assert s == init + [x];
      DedupStep(init, x, kept, Dedup(s));
    }
  }

  /** One more candidate keeps the three facts of `DedupFacts`. */
  lemma DedupStep(init: seq<Json>, x: Json, kept: seq<Json>, r: seq<Json>)
    requires |kept| <= MaxMergedExamples
    requires forall k :: 0 <= k < |kept| ==> kept[k] in init
    requires forall i, j :: 0 <= i < j < |kept| ==> PyStr(kept[i]) != PyStr(kept[j])
    requires forall k :: 0 <= k < |init| ==> PyStr(init[k]) in Shown(kept) || |kept| == MaxMergedExamples
    requires r == if PyStr(x) !in Shown(kept) && |kept| < MaxMergedExamples then kept + [x] else kept
    ensures forall k :: 0 <= k < |r| ==> r[k] in init + [x]
    ensures forall i, j :: 0 <= i < j < |r| ==> PyStr(r[i]) != PyStr(r[j])
    ensures forall k :: 0 <= k < |init + [x]| ==> PyStr((init + [x])[k]) in Shown(r) || |r| == MaxMergedExamples
  {
    var s := init + [x];
    assert forall k :: 0 <= k < |init| ==> s[k] == init[k];
    if r != kept {
      ShownSnoc(kept, x);
      assert forall k :: 0 <= k < |kept| ==> r[k] == kept[k];
      assert r[|kept|] == x;
      forall i, j | 0 <= i < j < |r| ensures PyStr(r[i]) != PyStr(r[j]) {
        if j == |kept| {
          assert PyStr(kept[i]) in Shown(kept);
        }
      }
    }
  }

  /** Merging the fields of one pattern. */
  function MergedOf(pattern: string, ms: seq<GroupMember>): MergedField
    requires ms != []
  {
    if |ms| == 1 then
      var info := ms[0].info;
      MergedField(pattern, [ms[0].originalPath], info.dataType, info.occurrenceCount, info.nullCount,
                  info.isEnum, if info.isEnum then Some(info.enumValues) else None,
                  info.valueExamples[..Min(3, |info.valueExamples|)], info.valuePatterns,
                  Depth(pattern), ArrayIndices(ms), 1)
    else
      var examples := Dedup(Candidates(ms));
      MergedField(pattern, Paths(ms), MergedType(ms), SumBy(ms, Occurrences), SumBy(ms, Nulls),
                  AnyEnum(ms), if AnyEnum(ms) then Some(SortScalars(EnumUnion(ms))) else None,
                  examples[..Min(3, |examples|)], SortStrings(PatternUnion(ms)),
                  Depth(pattern), ArrayIndices(ms), |ms|)
  }

  // ---------------------------------------------------------------------
  // The merge loops.

  /** The enum loop: `is_enum` and `all_enum_values`. */
  method MergeEnums(ms: seq<GroupMember>) returns (isEnum: bool, allEnumValues: set<Scalar>)
    ensures isEnum == AnyEnum(ms) && allEnumValues == EnumUnion(ms)
  {
    isEnum := false;
    allEnumValues := {};
    for k := 0 to |ms|
      invariant isEnum == AnyEnum(ms[..k]) && allEnumValues == EnumUnion(ms[..k])
    {
      assert ms[..k + 1][..k] == ms[..k];
      var info := ms[k].info;
      if info.isEnum && info.enumValues != [] {
        isEnum := true;
        allEnumValues := allEnumValues + Elements(info.enumValues);
      }
    }
    assert ms[..|ms|] == ms;
  }

  /** The example loop: each field's first two examples, deduplicated by printed form, at most five. */
  method MergeExamples(ms: seq<GroupMember>) returns (allExamples: seq<Json>)
    ensures allExamples == Dedup(Candidates(ms))
  {
    var chunks := seq(|ms|, k requires 0 <= k < |ms| => FirstTwo(ms[k]));
    allExamples := [];
    var seen: set<string> := {};
    for k := 0 to |ms|
      invariant allExamples == Dedup(Flatten(chunks[..k]))
      invariant seen == Shown(allExamples)
    {
      var firstTwo := ms[k].info.valueExamples[..Min(2, |ms[k].info.valueExamples|)];
      assert firstTwo == chunks[k];
      allExamples, seen := KeepExamples(allExamples, seen, firstTwo, Flatten(chunks[..k]));
      FlattenSnoc(chunks, k);
    }
    assert chunks[..|ms|] == chunks;
  }

  /** The inner loop over one field's first two examples. */
  method KeepExamples(kept: seq<Json>, seen: set<string>, chunk: seq<Json>, ghost before: seq<Json>)
    returns (kept': seq<Json>, seen': set<string>)
    requires kept == Dedup(before) && seen == Shown(kept)
    ensures kept' == Dedup(before + chunk) && seen' == Shown(kept')
  {
    kept', seen' := kept, seen;
    assert before + chunk[..0] == before;
    for j := 0 to |chunk|
      invariant kept' == Dedup(before + chunk[..j])
      invariant seen' == Shown(kept')
    {
      var example := chunk[j];
      var exampleStr := PyStr(example);
      KeepStep(before, chunk, j, kept', seen');
      if exampleStr !in seen' && |kept'| < 5 {
        kept' := kept' + [example];
        seen' := seen' + {exampleStr};
      }
    }
    assert chunk[..|chunk|] == chunk;
  }

  /** One candidate more in the inner example loop. */
  lemma KeepStep(before: seq<Json>, chunk: seq<Json>, j: nat, kept: seq<Json>, seen: set<string>)
    requires j < |chunk| && kept == Dedup(before + chunk[..j]) && seen == Shown(kept)
    ensures var e := chunk[j];
            Dedup(before + chunk[..j + 1])
              == (if PyStr(e) !in seen && |kept| < MaxMergedExamples then kept + [e] else kept)
            && Shown(kept + [e]) == seen + {PyStr(e)}
  {
    DedupSnoc(before + chunk[..j], chunk[j]);
    AppendPrefixSnoc(before, chunk, j);
    ShownSnoc(kept, chunk[j]);
  }

  lemma AppendPrefixSnoc<T>(a: seq<T>, b: seq<T>, j: nat)
    requires j < |b|
    ensures a + b[..j + 1] == (a + b[..j]) + [b[j]]
  {
    assert b[..j + 1] == b[..j] + [b[j]];
  }

  lemma DedupSnoc(s: seq<Json>, x: Json)
    ensures var kept := Dedup(s);
            Dedup(s + [x]) == if PyStr(x) !in Shown(kept) && |kept| < MaxMergedExamples then kept + [x] else kept
  {
    assert (s + [x])[..|s|] == s;
  }

  lemma ShownSnoc(kept: seq<Json>, x: Json)
    ensures Shown(kept + [x]) == Shown(kept) + {PyStr(x)}
  {
    var r := kept + [x];
    assert forall k :: 0 <= k < |kept| ==> r[k] == kept[k];
    assert r[|kept|] == x;
  }

  /** The pattern loop: `all_patterns`. */
  method MergePatterns(ms: seq<GroupMember>) returns (allPatterns: set<string>)
    ensures allPatterns == PatternUnion(ms)
  {
    allPatterns := {};
    for k := 0 to |ms|
      invariant allPatterns == PatternUnion(ms[..k])
    {
      assert ms[..k + 1][..k] == ms[..k];
      allPatterns := allPatterns + Elements(ms[k].info.valuePatterns);
    }
    assert ms[..|ms|] == ms;
  }

  /** The body of the loop over `pattern_groups.items()`. */
  method MergeGroup(pattern: string, ms: seq<GroupMember>) returns (f: MergedField)
    requires ms != []
    ensures f == MergedOf(pattern, ms)
  {
    if |ms| == 1 {
      var info := ms[0].info;
      f := MergedField(pattern, [ms[0].originalPath], info.dataType, info.occurrenceCount, info.nullCount,
                       info.isEnum, if info.isEnum then Some(info.enumValues) else None,
                       info.valueExamples[..Min(3, |info.valueExamples|)], info.valuePatterns,
                       Depth(pattern), ArrayIndices(ms), 1);
    } else {
      var isEnum, allEnumValues := MergeEnums(ms);
      var allExamples := MergeExamples(ms);
      var allPatterns := MergePatterns(ms);
      f := MergedField(pattern, Paths(ms), MergedType(ms), SumBy(ms, Occurrences), SumBy(ms, Nulls),
                       isEnum, if isEnum then Some(SortScalars(allEnumValues)) else None,
                       allExamples[..Min(3, |allExamples|)], SortStrings(allPatterns),
                       Depth(pattern), ArrayIndices(ms), |ms|);
    }
  }

  // ---------------------------------------------------------------------
  // The whole report.

  /** The sort key `(depth, -total_occurrences)`. */
  function ByDepthThenOccurrences(a: MergedField, b: MergedField): bool {
    a.depth < b.depth || (a.depth == b.depth && a.totalOccurrences >= b.totalOccurrences)
  }

  lemma ByDepthThenOccurrencesIsPreorder()
    ensures IsTotalPreorder(ByDepthThenOccurrences)
  {
  }

  /** The merged entries of the patterns `order`, in that order. */
  function MergedSeq(order: seq<string>, entries: seq<Entry>): (r: seq<MergedField>)
    requires forall n :: n in order ==> n in PatternOrder(entries)
    ensures |r| == |order|
  {
    if order == [] then []
    else
      var n := order[|order| - 1];
      assert n in PatternOrder(entries);
      MergedSeq(order[..|order| - 1], entries) + [MergedOf(n, Group(entries, n))]
  }

  /** The merged entries in the order of `pattern_groups`. */
  function Unsorted(entries: seq<Entry>): (r: seq<MergedField>)
    ensures |r| == |PatternOrder(entries)|
  {
    MergedSeq(PatternOrder(entries), entries)
  }

  /** `merged_fields` after the sort. */
  function SmartFields(entries: seq<Entry>): seq<MergedField> {
    ByDepthThenOccurrencesIsPreorder();
    SortBy(Unsorted(entries), ByDepthThenOccurrences)
  }

  /** The grouping and merging of `generate_smart_field_report`. */
  method GenerateSmartFields(entries: seq<Entry>) returns (mergedFields: seq<MergedField>)
    ensures mergedFields == SmartFields(entries)
  {
    var order, groups := GroupByPattern(entries);
    GroupsNonEmpty(entries);
    mergedFields := MergeAll(order, groups, entries);
    assert order[..|order|] == order;
    ByDepthThenOccurrencesIsPreorder();
    mergedFields := SortBy(mergedFields, ByDepthThenOccurrences);
  }

  lemma GroupsNonEmpty(entries: seq<Entry>)
    ensures forall n :: n in PatternOrder(entries) ==> Group(entries, n) != []
  {
  }

  /** The loop over `pattern_groups.items()`, appending to `merged_fields`. */
  method MergeAll(order: seq<string>, groups: map<string, seq<GroupMember>>, ghost entries: seq<Entry>)
    returns (mergedFields: seq<MergedField>)
    requires forall n :: n in order ==> n in PatternOrder(entries)
    requires forall n :: n in order ==> n in groups && groups[n] == Group(entries, n) && groups[n] != []
    ensures mergedFields == MergedSeq(order, entries)
  {
    ghost var want := MergedSeq(order, entries);
    mergedFields := [];
    for i := 0 to |order|
      invariant mergedFields == want[..i]
    {
      assert order[i] in order;
      var f := MergeGroup(order[i], groups[order[i]]);
      MergedSeqAt(order, entries, i);
      PrefixExtend(want, i, mergedFields, f);
      mergedFields := mergedFields + [f];
    }
    assert want[..|order|] == want;
  }

  // ---------------------------------------------------------------------
  // What a merged entry holds.

  lemma {:induction false} AnyEnumIff(ms: seq<GroupMember>)
    ensures AnyEnum(ms) <==> exists k :: 0 <= k < |ms| && EnumWithValues(ms[k])
  {
    if ms != [] {
      var init := ms[..|ms| - 1];
      AnyEnumIff(init);
      assert forall k :: 0 <= k < |init| ==> init[k] == ms[k];
    }
  }

  lemma {:induction false} EnumUnionIff(ms: seq<GroupMember>)
    ensures forall x :: x in EnumUnion(ms) <==>
              exists k :: 0 <= k < |ms| && EnumWithValues(ms[k]) && x in ms[k].info.enumValues
  {
    if ms != [] {
      var init := ms[..|ms| - 1];
      EnumUnionIff(init);
      assert forall k :: 0 <= k < |init| ==> init[k] == ms[k];
    }
  }

  lemma {:induction false} PatternUnionIff(ms: seq<GroupMember>)
    ensures forall x :: x in PatternUnion(ms) <==> exists k :: 0 <= k < |ms| && x in ms[k].info.valuePatterns
  {
    if ms != [] {
      var init := ms[..|ms| - 1];
      PatternUnionIff(init);
      assert forall k :: 0 <= k < |init| ==> init[k] == ms[k];
    }
  }

  lemma {:induction false} IndexUnionIff(ms: seq<GroupMember>)
    ensures forall x :: x in IndexUnion(ms) <==> exists k :: 0 <= k < |ms| && x in ms[k].indices
  {
    if ms != [] {
      var init := ms[..|ms| - 1];
      IndexUnionIff(init);
      assert forall k :: 0 <= k < |init| ==> init[k] == ms[k];
    }
  }

  /** The array indices of a pattern: every index any of its fields holds,
      ascending, each once. The `any(...)` guard changes nothing. */
  lemma ArrayIndicesFacts(ms: seq<GroupMember>)
    ensures var r := ArrayIndices(ms);
            SortedBy(r, NatLe) && Distinct(r)
            && forall x :: x in r <==> exists k :: 0 <= k < |ms| && x in ms[k].indices
  {
    IndexUnionIff(ms);
  }

  lemma SumBySingle<T>(x: T, g: T -> nat)
    ensures SumBy([x], g) == g(x)
  {
    assert [x][..0] == [];
  }

  /** The counters of a merged entry: sums over its fields, one instance per field. */
  lemma MergedCounts(pattern: string, ms: seq<GroupMember>)
    requires ms != []
    ensures var f := MergedOf(pattern, ms);
            f.pattern == pattern && f.depth == Depth(pattern)
            && f.originalPaths == Paths(ms) && f.instanceCount == |ms|
            && f.totalOccurrences == SumBy(ms, Occurrences) && f.nullCount == SumBy(ms, Nulls)
  {
    if |ms| == 1 {
      SumBySingle(ms[0], Occurrences);
      SumBySingle(ms[0], Nulls);
      assert Paths(ms) == [ms[0].originalPath];
    }
  }

  lemma {:induction false} SumByLe(ms: seq<GroupMember>)
    requires forall k :: 0 <= k < |ms| ==> ms[k].info.nullCount <= ms[k].info.occurrenceCount
    ensures SumBy(ms, Nulls) <= SumBy(ms, Occurrences)
  {
    if ms != [] {
      var init := ms[..|ms| - 1];
      assert forall k :: 0 <= k < |init| ==> init[k] == ms[k];
      SumByLe(init);
    }
  }

  /** Fields whose nulls are among their occurrences merge into such an entry. */
  lemma MergedNullsBounded(pattern: string, ms: seq<GroupMember>)
    requires ms != []
    requires forall k :: 0 <= k < |ms| ==> ms[k].info.nullCount <= ms[k].info.occurrenceCount
    ensures MergedOf(pattern, ms).nullCount <= MergedOf(pattern, ms).totalOccurrences
  {
    MergedCounts(pattern, ms);
    SumByLe(ms);
  }

  /**
   * A pattern of several fields is an enum exactly when one of its fields is
   * an enum with values, and then its values are all of theirs, sorted, each
   * once. A pattern of one field keeps that field's flag and values as they are.
   */
  lemma MergedEnum(pattern: string, ms: seq<GroupMember>)
    requires ms != []
    ensures var f := MergedOf(pattern, ms);
            (|ms| == 1 ==> f.isEnum == ms[0].info.isEnum
                           && f.enumValues == if ms[0].info.isEnum then Some(ms[0].info.enumValues) else None)
            && (|ms| > 1 ==> (f.isEnum <==> exists k :: 0 <= k < |ms| && EnumWithValues(ms[k])))
            && (|ms| > 1 ==> (f.enumValues.Some? <==> f.isEnum))
            && (|ms| > 1 && f.isEnum ==>
                  SortedBy(f.enumValues.value, ScalarLe) && Distinct(f.enumValues.value)
                  && forall x :: x in f.enumValues.value <==>
                       exists k :: 0 <= k < |ms| && EnumWithValues(ms[k]) && x in ms[k].info.enumValues)
  {
    AnyEnumIff(ms);
    EnumUnionIff(ms);
  }

  /** A pattern of several fields lists every value pattern of its fields, sorted, each once. */
  lemma MergedPatterns(pattern: string, ms: seq<GroupMember>)
    requires |ms| > 1
    ensures var f := MergedOf(pattern, ms);
            SortedBy(f.patterns, StrLe) && Distinct(f.patterns)
            && forall x :: x in f.patterns <==> exists k :: 0 <= k < |ms| && x in ms[k].info.valuePatterns
  {
    PatternUnionIff(ms);
  }

  /** Fields that agree on their type merge into that type. */
  lemma MergedTypeCommon(pattern: string, ms: seq<GroupMember>)
    requires ms != []
    requires forall k :: 0 <= k < |ms| ==> ms[k].info.dataType == ms[0].info.dataType
    ensures MergedOf(pattern, ms).dataType == ms[0].info.dataType
  {
    if |ms| > 1 {
      CommonType(ms);
    }
  }

  /** The one type members agree on is their merged type. */
  lemma CommonType(ms: seq<GroupMember>)
    requires ms != []
    requires forall k :: 0 <= k < |ms| ==> ms[k].info.dataType == ms[0].info.dataType
    ensures MergedType(ms) == ms[0].info.dataType
  {
    assert TypeSet(ms) == {ms[0].info.dataType};
    StrLeIsTotalOrder();
    SortSetSingleton(ms[0].info.dataType, StrLe);
  }

  /** Fields of different types merge into `mixed(...)`. */
  lemma MergedTypeMixed(pattern: string, ms: seq<GroupMember>, k: nat)
    requires k < |ms| && ms[k].info.dataType != ms[0].info.dataType
    ensures StartsWith(MergedOf(pattern, ms).dataType, "mixed(")
  {
    var types := TypeSet(ms);
    assert ms[0].info.dataType in types && ms[k].info.dataType in types;
    assert |types| != 1 by {
      if |types| == 1 { OneElement(types, ms[k].info.dataType, ms[0].info.dataType); }
    }
    MixedPrefix(Join(SortStrings(types), ","));
  }

  lemma MixedPrefix(inner: string)
    ensures StartsWith("mixed(" + inner + ")", "mixed(")
  {
    assert ("mixed(" + inner + ")")[..6] == "mixed(";
  }

  lemma {:induction false} FlattenMember<T>(chunks: seq<seq<T>>, x: T)
    requires x in Flatten(chunks)
    ensures exists k :: 0 <= k < |chunks| && x in chunks[k]
  {
    var init := chunks[..|chunks| - 1];
    if x in Flatten(init) {
      FlattenMember(init, x);
      var k :| 0 <= k < |init| && x in init[k];
      assert chunks[k] == init[k];
    }
  }

  /**
   * The examples of a pattern of several fields: at most three, each among
   * the first two examples of one of its fields, no two printing alike.
   */
  lemma MergedExamples(pattern: string, ms: seq<GroupMember>)
    requires |ms| > 1
    ensures var f := MergedOf(pattern, ms);
            |f.examples| <= 3
            && (forall i :: 0 <= i < |f.examples| ==> FromFields(f.examples[i], ms))
            && (forall i, j :: 0 <= i < j < |f.examples| ==> PyStr(f.examples[i]) != PyStr(f.examples[j]))
  {
    var kept := Dedup(Candidates(ms));
    DedupFacts(Candidates(ms));
    forall i | 0 <= i < |kept| ensures FromFields(kept[i], ms) {
      CandidateFrom(ms, kept[i]);
    }
    PrefixKeeps(kept, 3, ms);
  }

  /** `x` is among the first two examples of one of the fields. */
  predicate FromFields(x: Json, ms: seq<GroupMember>) {
    exists k :: 0 <= k < |ms| && x in FirstTwo(ms[k])
  }

  lemma CandidateFrom(ms: seq<GroupMember>, x: Json)
    requires x in Candidates(ms)
    ensures FromFields(x, ms)
  {
    var chunks := seq(|ms|, k requires 0 <= k < |ms| => FirstTwo(ms[k]));
    FlattenMember(chunks, x);
  }

  lemma PrefixKeeps(kept: seq<Json>, n: nat, ms: seq<GroupMember>)
    requires forall i :: 0 <= i < |kept| ==> FromFields(kept[i], ms)
    requires forall i, j :: 0 <= i < j < |kept| ==> PyStr(kept[i]) != PyStr(kept[j])
    ensures var p := kept[..Min(n, |kept|)];
            |p| <= n
            && (forall i :: 0 <= i < |p| ==> FromFields(p[i], ms))
            && (forall i, j :: 0 <= i < j < |p| ==> PyStr(p[i]) != PyStr(p[j]))
  {
    var p := kept[..Min(n, |kept|)];
    assert forall i :: 0 <= i < |p| ==> p[i] == kept[i];
  }

  /** A pattern of one field keeps its first three examples and its value patterns as they are. */
  lemma MergedSingleExamples(pattern: string, m: GroupMember)
    ensures var f := MergedOf(pattern, [m]);
            f.examples == m.info.valueExamples[..Min(3, |m.info.valueExamples|)]
            && f.patterns == m.info.valuePatterns && f.dataType == m.info.dataType
  {
  }

  // ---------------------------------------------------------------------
  // The report as a whole.

  function Members(entries: seq<Entry>): (ms: seq<GroupMember>)
    ensures |ms| == |entries| && forall i :: 0 <= i < |entries| ==> ms[i] == MemberOf(entries[i])
  {
    seq(|entries|, i requires 0 <= i < |entries| => MemberOf(entries[i]))
  }

  /** The sums of `g` over the groups of the patterns `order`. */
  function GroupSums(order: seq<string>, entries: seq<Entry>, g: GroupMember -> nat): nat {
    if order == [] then 0
    else GroupSums(order[..|order| - 1], entries, g) + SumBy(Group(entries, order[|order| - 1]), g)
  }

  lemma SumBySnoc<T>(s: seq<T>, x: T, g: T -> nat)
    ensures SumBy(s + [x], g) == SumBy(s, g) + g(x)
  {
    assert (s + [x])[..|s|] == s;
  }

  lemma GroupSnoc(entries: seq<Entry>, e: Entry, n: string)
    ensures Group(entries + [e], n) == Group(entries, n) + (if PatternOf(e) == n then [MemberOf(e)] else [])
  {
    assert (entries + [e])[..|entries|] == entries;
  }

  lemma LastSplit(order: seq<string>)
    requires order != []
    ensures var init := order[..|order| - 1];
            (forall q :: q in order <==> q in init || q == order[|order| - 1])
            && (Distinct(order) ==> order[|order| - 1] !in init && Distinct(init))
  {
    assert order == order[..|order| - 1] + [order[|order| - 1]];
  }

  /** One more registry item adds its weight to its own pattern's group and to no other. */
  lemma {:induction false} GroupSumsSnoc(order: seq<string>, entries: seq<Entry>, e: Entry, g: GroupMember -> nat)
    requires Distinct(order)
    ensures GroupSums(order, entries + [e], g)
            == GroupSums(order, entries, g) + (if PatternOf(e) in order then g(MemberOf(e)) else 0)
  {
    if order != [] {
      var init := order[..|order| - 1];
      var n := order[|order| - 1];
      LastSplit(order);
      GroupSumsSnoc(init, entries, e, g);
      GroupSnoc(entries, e, n);
      if PatternOf(e) == n {
        SumBySnoc(Group(entries, n), MemberOf(e), g);
      } else {
        assert Group(entries + [e], n) == Group(entries, n);
      }
      LastSplit(order);
    }
  }

  /** The groups partition the registry: summing over the groups sums over every field once. */
  lemma {:induction false} Partition(entries: seq<Entry>, g: GroupMember -> nat)
    ensures GroupSums(PatternOrder(entries), entries, g) == SumBy(Members(entries), g)
  {
    if entries != [] {
      var init := entries[..|entries| - 1];
      var e := entries[|entries| - 1];
      assert entries == init + [e];
      var keys := PatternOrder(init);
      Partition(init, g);
      GroupSumsSnoc(keys, init, e, g);
      assert Members(entries) == Members(init) + [MemberOf(e)];
      SumBySnoc(Members(init), MemberOf(e), g);
      var q := PatternOf(e);
      if q !in keys {
        assert PatternOrder(entries) == keys + [q];
        assert (keys + [q])[..|keys|] == keys;
        assert Group(init, q) == [];
        GroupSnoc(init, e, q);
        SumBySingle(MemberOf(e), g);
        assert [] + [MemberOf(e)] == [MemberOf(e)];
      }
    }
  }

  function Instances(f: MergedField): nat { f.instanceCount }
  function Totals(f: MergedField): nat { f.totalOccurrences }

  /** The merged entries' instance counts and occurrences are the groups' sizes and sums. */
  lemma {:induction false} MergedSeqSums(order: seq<string>, entries: seq<Entry>)
    requires forall n :: n in order ==> n in PatternOrder(entries)
    ensures SumBy(MergedSeq(order, entries), Instances) == GroupSums(order, entries, One)
    ensures SumBy(MergedSeq(order, entries), Totals) == GroupSums(order, entries, Occurrences)
  {
    if order != [] {
      var init := order[..|order| - 1];
      var n := order[|order| - 1];
      assert n in PatternOrder(entries);
      GroupsNonEmpty(entries);
      MergedSeqSums(init, entries);
      var ms := Group(entries, n);
      var f := MergedOf(n, ms);
      SumBySnoc(MergedSeq(init, entries), f, Instances);
      SumBySnoc(MergedSeq(init, entries), f, Totals);
      MergedCounts(n, ms);
      SumByOne(ms);
    }
  }

  lemma {:induction false} SumByOne(s: seq<GroupMember>)
    ensures SumBy(s, One) == |s|
  {
    if s != [] {
      SumByOne(s[..|s| - 1]);
    }
  }

  lemma {:induction false} SumByAppend<T>(a: seq<T>, b: seq<T>, g: T -> nat)
    ensures SumBy(a + b, g) == SumBy(a, g) + SumBy(b, g)
  {
    if b != [] {
      var init := b[..|b| - 1];
      SumByAppend(a, init, g);
      assert (a + b)[..|a + b| - 1] == a + init;
    } else {
      assert a + b == a;
    }
  }

  /** Sums do not depend on the order of the summands. */
  lemma {:induction false} SumByPermutation<T>(a: seq<T>, b: seq<T>, g: T -> nat)
    requires multiset(a) == multiset(b)
    ensures SumBy(a, g) == SumBy(b, g)
  {
    if a == [] {
      assert |multiset(b)| == 0;
    } else {
      var init := a[..|a| - 1];
      var x := a[|a| - 1];
      assert a == init + [x];
      assert x in multiset(b);
      var j :| 0 <= j < |b| && b[j] == x;
      var rest := b[..j] + b[j + 1..];
      assert b == b[..j] + [x] + b[j + 1..];
      assert multiset(b) == multiset(b[..j]) + multiset{x} + multiset(b[j + 1..]);
      assert multiset(a) == multiset(init) + multiset{x};
      assert multiset(rest) == multiset(b[..j]) + multiset(b[j + 1..]);
      assert multiset(init) == multiset(a) - multiset{x};
      assert multiset(rest) == multiset(b) - multiset{x};
      SumByPermutation(init, rest, g);
      SumByAppend(b[..j], b[j + 1..], g);
      SumByAppend(b[..j] + [x], b[j + 1..], g);
      SumBySnoc(b[..j], x, g);
    }
  }

  /** Every registry field is an instance of exactly one entry, and the
      entries' occurrences add up to the registry's. */
  lemma SmartFieldsTotals(entries: seq<Entry>)
    ensures SumBy(SmartFields(entries), Instances) == |entries|
    ensures SumBy(SmartFields(entries), Totals) == SumBy(Members(entries), Occurrences)
  {
    var order := PatternOrder(entries);
    MergedSeqSums(order, entries);
    Partition(entries, One);
    Partition(entries, Occurrences);
    SumByOne(Members(entries));
    ByDepthThenOccurrencesIsPreorder();
    SumByPermutation(Unsorted(entries), SmartFields(entries), Instances);
    SumByPermutation(Unsorted(entries), SmartFields(entries), Totals);
  }

  /** The `i`-th merged entry is the merge of the `i`-th pattern's group. */
  lemma {:induction false} MergedSeqAt(order: seq<string>, entries: seq<Entry>, i: nat)
    requires forall n :: n in order ==> n in PatternOrder(entries)
    requires i < |order|
    ensures Group(entries, order[i]) != [] && MergedSeq(order, entries)[i] == MergedOf(order[i], Group(entries, order[i]))
  {
    GroupsNonEmpty(entries);
    var init := order[..|order| - 1];
    if i < |order| - 1 {
      MergedSeqAt(init, entries, i);
    }
  }

  /**
   * The report: one entry per pattern, holding the merge of that pattern's
   * fields, sorted by depth and then by descending occurrences.
   */
  lemma SmartFieldsShape(entries: seq<Entry>)
    ensures var r := SmartFields(entries);
            var order := PatternOrder(entries);
            |r| == |order| <= |entries|
            && SortedBy(r, ByDepthThenOccurrences)
            && multiset(r) == multiset(Unsorted(entries))
            && forall i :: 0 <= i < |order| ==>
                 Group(entries, order[i]) != [] && Unsorted(entries)[i] == MergedOf(order[i], Group(entries, order[i]))
  {
    GroupsNonEmpty(entries);
    ByDepthThenOccurrencesIsPreorder();
    var order := PatternOrder(entries);
    forall i | 0 <= i < |order|
      ensures Group(entries, order[i]) != [] && Unsorted(entries)[i] == MergedOf(order[i], Group(entries, order[i]))
    {
      MergedSeqAt(order, entries, i);
    }
  }

  /** Entries of equal depth and occurrences keep the order of `pattern_groups`. */
  lemma SmartFieldsTies(entries: seq<Entry>, i: nat, j: nat)
    requires var r := SmartFields(entries);
             i < j < |r| && r[i].depth == r[j].depth && r[i].totalOccurrences == r[j].totalOccurrences
    ensures var r := SmartFields(entries);
            exists p, q :: 0 <= p < q < |PatternOrder(entries)| && Unsorted(entries)[p] == r[i] && Unsorted(entries)[q] == r[j]
  {
    ByDepthThenOccurrencesIsPreorder();
    var unsorted := Unsorted(entries);
    var r := SortBy(unsorted, ByDepthThenOccurrences);
    assert r == SmartFields(entries);
    assert ByDepthThenOccurrences(r[i], r[j]) && ByDepthThenOccurrences(r[j], r[i]);
    SortByStable(unsorted, ByDepthThenOccurrences, i, j);
  }

  /** Every path of an entry normalises to its pattern, and the pattern is already normal. */
  lemma MergedPathsNormalise(entries: seq<Entry>, n: string)
    requires n in PatternOrder(entries)
    ensures var ms := Group(entries, n);
            ms != []
            && var f := MergedOf(n, ms);
               NormalizeIndices(f.pattern) == f.pattern
               && forall k :: 0 <= k < |f.originalPaths| ==> NormalizeIndices(f.originalPaths[k]) == f.pattern
  {
    GroupsNonEmpty(entries);
    var ms := Group(entries, n);
    MergedCounts(n, ms);
    var i :| 0 <= i < |entries| && PatternOf(entries[i]) == n;
    NormalizeIdempotent(entries[i].0);
  }

  // ---------------------------------------------------------------------
  // The index range of an array pattern in the Markdown report.

  function MinOf(s: seq<nat>): (m: nat)
    requires s != []
    ensures m in s && forall k :: 0 <= k < |s| ==> m <= s[k]
  {
    if |s| == 1 then s[0]
    else
      var m := MinOf(s[..|s| - 1]);
      assert forall k :: 0 <= k < |s| - 1 ==> s[..|s| - 1][k] == s[k];
      if s[|s| - 1] < m then s[|s| - 1] else m
  }

  function MaxOf(s: seq<nat>): (m: nat)
    requires s != []
    ensures m in s && forall k :: 0 <= k < |s| ==> s[k] <= m
  {
    if |s| == 1 then s[0]
    else
      var m := MaxOf(s[..|s| - 1]);
      assert forall k :: 0 <= k < |s| - 1 ==> s[..|s| - 1][k] == s[k];
      if s[|s| - 1] > m then s[|s| - 1] else m
  }

  /** `[min]`, `[min-max]`, or `-` without indices. */
  function IndexRange(indices: seq<nat>): string {
    if indices == [] then "-" else "[" + RangeText(MinOf(indices), MaxOf(indices)) + "]"
  }

  function RangeText(lo: nat, hi: nat): string {
    if lo == hi then NatToString(lo) else NatToString(lo) + "-" + NatToString(hi)
  }

  lemma NoDash(n: nat)
    ensures '-' !in NatToString(n)
  {
    var s := NatToString(n);
    forall k | 0 <= k < |s| ensures s[k] != '-' {
      assert IsAsciiDigit(s[k]);
    }
  }

  /**
   * The range is `-` exactly when there are no indices; otherwise it is
   * bracketed, and it holds a dash exactly when the indices are not all equal.
   */
  lemma IndexRangeFacts(indices: seq<nat>)
    ensures var r := IndexRange(indices);
            (r == "-" <==> indices == [])
            && (indices != [] ==>
                  |r| >= 3 && r[0] == '[' && r[|r| - 1] == ']'
                  && ('-' in r <==> exists i, j :: 0 <= i < |indices| && 0 <= j < |indices| && indices[i] != indices[j]))
  {
    var r := IndexRange(indices);
    if indices != [] {
      var lo := MinOf(indices);
      var hi := MaxOf(indices);
      var a := NatToString(lo);
      NoDash(lo);
      NoDash(hi);
      if lo == hi {
        assert r == "[" + a + "]";
        assert r[1..|r| - 1] == a;
        assert '-' !in r by {
          forall k | 0 <= k < |r| ensures r[k] != '-' {
            if 0 < k < |r| - 1 { assert r[k] == a[k - 1]; }
          }
        }
        forall i, j | 0 <= i < |indices| && 0 <= j < |indices| ensures indices[i] == indices[j] {
          assert lo <= indices[i] <= hi && lo <= indices[j] <= hi;
        }
      } else {
        assert r[|a| + 1] == '-';
        var i :| 0 <= i < |indices| && indices[i] == lo;
        var j :| 0 <= j < |indices| && indices[j] == hi;
      }
      assert r != "-" by { assert |r| >= 3; }
    }
  }

  predicate AllDigits(s: string) {
    forall i :: 0 <= i < |s| ==> IsAsciiDigit(s[i])
  }

  /** Reading the range back gives the smallest and the largest index. */
  lemma IndexRangeReadsBack(indices: seq<nat>)
    requires indices != []
    ensures var r := IndexRange(indices);
            var parts := Split(r[1..|r| - 1], '-');
            1 <= |parts| <= 2
            && AllDigits(parts[0]) && AllDigits(parts[|parts| - 1])
            && DigitsValue(parts[0]) == MinOf(indices) && DigitsValue(parts[|parts| - 1]) == MaxOf(indices)
  {
    var inner := RangeText(MinOf(indices), MaxOf(indices));
    BracketInner(inner);
    RangeTextReadsBack(MinOf(indices), MaxOf(indices));
  }

  lemma BracketInner(inner: string)
    ensures var r := "[" + inner + "]";
            r[1..|r| - 1] == inner
  {
  }

  lemma RangeTextReadsBack(lo: nat, hi: nat)
    ensures var parts := Split(RangeText(lo, hi), '-');
            1 <= |parts| <= 2
            && AllDigits(parts[0]) && AllDigits(parts[|parts| - 1])
            && DigitsValue(parts[0]) == lo && DigitsValue(parts[|parts| - 1]) == hi
  {
    ReadOne(lo);
    ReadOne(hi);
    if lo != hi {
      ReadTwo(lo, hi);
    }
  }

  lemma ReadOne(n: nat)
    ensures Split(NatToString(n), '-') == [NatToString(n)]
    ensures AllDigits(NatToString(n)) && DigitsValue(NatToString(n)) == n
  {
    NoDash(n);
    NatToStringRoundTrip(n);
    SharedUtils.SplitNoSeparator(NatToString(n), '-');
  }

  lemma ReadTwo(m: nat, n: nat)
    ensures Split(NatToString(m) + "-" + NatToString(n), '-') == [NatToString(m), NatToString(n)]
  {
    NoDash(m);
    ReadOne(n);
    SharedUtils.SplitAround(NatToString(m), '-', NatToString(n));
  }
}
