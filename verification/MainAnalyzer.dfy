// The field descriptions and the field specification table of the CLI
// analyzer's report (src/claude-cli-analyzer/src/analyzers/main_analyzer.py):
// an ordered table of path fragments decides a field's description, with
// fallbacks on the path, the enum values and the type; the report lists one
// specification per registered field, most frequent first.

module FieldDescriptions {
  import opened Text
  import opened JsonModel
  import opened Ordering
  import opened CliFieldTypes
  import opened CliFieldExtractor

  /** The description table, in its insertion order. */
  const Descriptions: seq<(string, string)> := [
    ("sessionId", "会话唯一标识符"),
    ("uuid", "记录唯一标识符"),
    ("parentUuid", "父级记录UUID"),
    ("timestamp", "记录时间戳"),
    ("type", "记录类型"),
    ("message.role", "消息角色"),
    ("message.content", "消息内容"),
    ("message.id", "消息ID"),
    ("message.model", "使用的模型"),
    ("message.type", "消息类型"),
    ("cwd", "当前工作目录"),
    ("version", "Claude Code版本"),
    ("gitBranch", "Git分支"),
    ("userType", "用户类型"),
    ("isSidechain", "是否为侧链记录"),
    ("isMeta", "是否为元数据"),
    ("requestId", "API请求ID"),
    ("isVisibleInTranscriptOnly", "是否仅在转录中可见")
  ]

  /** The position of the first table key that occurs in `path`, if any. */
  function FirstMatch(table: seq<(string, string)>, path: string): (r: Option<nat>)
    ensures r.Some? ==> r.value < |table| && Contains(path, table[r.value].0)
    ensures r.Some? ==> forall j :: 0 <= j < r.value ==> !Contains(path, table[j].0)
    ensures r.None? <==> forall j :: 0 <= j < |table| ==> !Contains(path, table[j].0)
  {
    if table == [] then None
    else if Contains(path, table[0].0) then Some(0)
    else
      match FirstMatch(table[1..], path)
      case None => None
      case Some(i) => Some(i + 1)
  }

  /** The first table key that occurs in `path` is the one `FirstMatch` finds. */
  lemma FirstMatchIsFirst(table: seq<(string, string)>, path: string, i: nat)
    requires i < |table| && Contains(path, table[i].0)
    requires forall j :: 0 <= j < i ==> !Contains(path, table[j].0)
    ensures FirstMatch(table, path) == Some(i)
  {
  }

  /** The values of an enum field, each printed with `str`, joined by ", ". */
  function EnumList(values: seq<Scalar>): string {
    Join(seq(|values|, i requires 0 <= i < |values| => PyStr(values[i])), ", ")
  }

  /** The key at position `i` of the description table is the first that occurs in `path`. */
  predicate FirstKeyAt(path: string, i: int) {
    0 <= i < |Descriptions| && Contains(path, Descriptions[i].0)
    && forall j :: 0 <= j < i ==> !Contains(path, Descriptions[j].0)
  }

  /** No key of the description table occurs in `path`. */
  predicate NoTableKey(path: string) {
    forall j :: 0 <= j < |Descriptions| ==> !Contains(path, Descriptions[j].0)
  }

  /**
   * `generate_field_description`: the description of the first table key
   * that occurs in the path; failing that, the first of "tool_use",
   * "content" and "usage" that occurs; failing that, the enum values or the
   * type.
   */
  function Describe(path: string, info: FieldInfo): (r: string)
    ensures forall i :: FirstKeyAt(path, i) ==> r == Descriptions[i].1
    ensures NoTableKey(path) && Contains(path, "tool_use") ==> r == "工具使用相关"
    ensures NoTableKey(path) && !Contains(path, "tool_use") && Contains(path, "content") ==> r == "内容相关"
    ensures (NoTableKey(path) && !Contains(path, "tool_use") && !Contains(path, "content")
             && Contains(path, "usage")) ==> r == "使用统计相关"
    ensures (NoTableKey(path) && !Contains(path, "tool_use") && !Contains(path, "content")
             && !Contains(path, "usage")) ==>
              r == if info.isEnum then "枚举值，可选: " + EnumList(info.enumValues) else info.dataType + "类型字段"
  {
    assert forall i :: FirstKeyAt(path, i) ==> FirstMatch(Descriptions, path) == Some(i) by {
      forall i | FirstKeyAt(path, i) ensures FirstMatch(Descriptions, path) == Some(i) {
        FirstMatchIsFirst(Descriptions, path, i);
      }
    }
    match FirstMatch(Descriptions, path)
    case Some(i) => Descriptions[i].1
    case None =>
      if Contains(path, "tool_use") then "工具使用相关"
      else if Contains(path, "content") then "内容相关"
      else if Contains(path, "usage") then "使用统计相关"
      else if info.isEnum then "枚举值，可选: " + EnumList(info.enumValues)
      else info.dataType + "类型字段"
  }

  /** A table entry whose key contains an earlier entry's key is never the first match. */
  lemma {:induction false} ShadowedEntry(table: seq<(string, string)>, path: string, k: nat, i: nat)
    requires k < i < |table| && Contains(table[i].0, table[k].0)
    ensures FirstMatch(table, path) != Some(i)
  {
    if FirstMatch(table, path) == Some(i) {
      ContainsTransitive(path, table[i].0, table[k].0);
      assert false;
    }
  }

  /** "type" comes before "message.type" in the table, so the entry for
      "message.type" is never used: a path containing "type" and none of
      the four keys before it is described by the "type" entry. */
  lemma MessageTypeShadowed(path: string, info: FieldInfo)
    ensures FirstMatch(Descriptions, path) != Some(9)
    ensures Contains(path, "type") && (forall j :: 0 <= j < 4 ==> !Contains(path, Descriptions[j].0)) ==>
              Describe(path, info) == "记录类型"
  {
    var t := Descriptions;
    assert t[4] == ("type", "记录类型");
    assert t[9].0 == "message.type";
    assert StartsWith(t[9].0[8..], t[4].0);
    assert Contains(t[9].0, t[4].0) by {
      SuffixContained(t[9].0, 8);
      ContainsTransitive(t[9].0, t[9].0[8..], t[4].0);
    }
    ShadowedEntry(t, path, 4, 9);
    var r := FirstMatch(t, path);
    if Contains(path, "type") && (forall j :: 0 <= j < 4 ==> !Contains(path, t[j].0)) {
      assert r.Some? && r.value == 4;
    }
  }

  // ---------------------------------------------------------------------
  // The field specification table of `generate_analysis_report`.

  /** One row of the table; the frequency, a float percentage, is left out. */
  datatype FieldSpec = FieldSpec(name: string, dataType: string, description: string, examples: string,
                                 occurrences: nat, isEnum: bool, enumValues: Option<seq<Scalar>>,
                                 nullCount: nat, patterns: string)

  /** An example as the table shows it: a string in double quotes, anything else printed. */
  function ExampleText(e: Json): string {
    if e.Str? then "\"" + e.s + "\"" else PyStr(e)
  }

  function ExamplesText(examples: seq<Json>): string {
    var shown := examples[..Min(3, |examples|)];
    Join(seq(|shown|, i requires 0 <= i < |shown| => ExampleText(shown[i])), ", ")
  }

  function Spec(path: string, f: FieldInfo): (r: FieldSpec)
    ensures r.name == path && r.occurrences == f.occurrenceCount
  {
    FieldSpec(path, f.dataType, Describe(path, f), ExamplesText(f.valueExamples), f.occurrenceCount, f.isEnum,
              if f.isEnum then Some(f.enumValues) else None, f.nullCount, Join(f.valuePatterns, ", "))
  }

  /** The rows in registry order, before sorting. */
  function Specs(order: seq<string>, fields: map<string, FieldInfo>): (r: seq<FieldSpec>)
    requires forall p :: p in order ==> p in fields
    ensures |r| == |order| && forall i :: 0 <= i < |r| ==> r[i] == Spec(order[i], fields[order[i]])
    ensures forall x :: x in r ==> x.name in fields && x == Spec(x.name, fields[x.name])
  {
    seq(|order|, i requires 0 <= i < |order| => Spec(order[i], fields[order[i]]))
  }

  function ByOccurrencesDescending(a: FieldSpec, b: FieldSpec): bool {
    a.occurrences >= b.occurrences
  }

  lemma ByOccurrencesDescendingIsPreorder()
    ensures IsTotalPreorder(ByOccurrencesDescending)
  {
  }

  /** The table: one row per registered field, most occurrences first. */
  function FieldSpecifications(reg: Registry): seq<FieldSpec>
    requires OrderOk(reg)
  {
    ByOccurrencesDescendingIsPreorder();
    SortBy(Specs(reg.order, reg.fields), ByOccurrencesDescending)
  }

  /** A registry lists each of its fields once, so it has as many fields as paths. */
  lemma RegistrySize(reg: Registry)
    requires OrderOk(reg)
    ensures |reg.fields| == |reg.order|
  {
    DistinctCardinality(reg.order);
    assert (set p | p in reg.order) == reg.fields.Keys;
  }

  /** The rows run from most to fewest occurrences, one per registered
      field, each describing its own field. */
  lemma FieldSpecificationsRows(reg: Registry)
    requires OrderOk(reg)
    ensures var r := FieldSpecifications(reg);
      && |r| == |reg.fields|
      && SortedBy(r, ByOccurrencesDescending)
      && (forall i :: 0 <= i < |r| ==> r[i].name in reg.fields && r[i] == Spec(r[i].name, reg.fields[r[i].name]))
  {
    ByOccurrencesDescendingIsPreorder();
    var rows := Specs(reg.order, reg.fields);
    var r := SortBy(rows, ByOccurrencesDescending);
    assert r == FieldSpecifications(reg);
    RegistrySize(reg);
    forall i | 0 <= i < |r| ensures r[i].name in reg.fields && r[i] == Spec(r[i].name, reg.fields[r[i].name]) {
      assert r[i] in multiset(rows);
    }
  }

  /** Fields with equal occurrences keep the registry's order. */
  lemma FieldSpecificationsTies(reg: Registry, i: nat, j: nat)
    requires OrderOk(reg)
    requires var r := FieldSpecifications(reg); i < j < |r| && r[i].occurrences == r[j].occurrences
    ensures var r := FieldSpecifications(reg);
            exists p, q :: 0 <= p < q < |reg.order| && reg.order[p] == r[i].name && reg.order[q] == r[j].name
  {
    ByOccurrencesDescendingIsPreorder();
    var rows := Specs(reg.order, reg.fields);
    var r := SortBy(rows, ByOccurrencesDescending);
    assert r == FieldSpecifications(reg);
    assert ByOccurrencesDescending(r[i], r[j]) && ByOccurrencesDescending(r[j], r[i]);
    SortByStable(rows, ByOccurrencesDescending, i, j);
    var a, b :| 0 <= a < b < |rows| && rows[a] == r[i] && rows[b] == r[j];
    assert rows[a] == Spec(reg.order[a], reg.fields[reg.order[a]]);
    assert rows[b] == Spec(reg.order[b], reg.fields[reg.order[b]]);
  }

  /** Every registered field has exactly one row. */
  lemma FieldSpecificationsOnePerField(reg: Registry)
    requires OrderOk(reg)
    ensures var r := FieldSpecifications(reg);
      && (forall p :: p in reg.fields ==> exists i :: 0 <= i < |r| && r[i].name == p)
      && (forall i, j :: 0 <= i < j < |r| ==> r[i].name != r[j].name)
  {
    ByOccurrencesDescendingIsPreorder();
    var rows := Specs(reg.order, reg.fields);
    var r := SortBy(rows, ByOccurrencesDescending);
    assert r == FieldSpecifications(reg);
    RearrangedRows(r, reg);
  }

  /** A rearrangement of the rows, which are named by the registry's
      distinct paths in order, has exactly one row per registered field. */
  lemma RearrangedRows(r: seq<FieldSpec>, reg: Registry)
    requires OrderOk(reg) && multiset(r) == multiset(Specs(reg.order, reg.fields))
    ensures forall p :: p in reg.fields ==> exists i :: 0 <= i < |r| && r[i].name == p
    ensures forall i, j :: 0 <= i < j < |r| ==> r[i].name != r[j].name
  {
    var rows := Specs(reg.order, reg.fields);
    var name := (x: FieldSpec) => x.name;
    PermutedKeys(rows, r, reg.order, name);
    forall p | p in reg.fields ensures exists i :: 0 <= i < |r| && r[i].name == p {
      assert p in reg.order;
      var i :| 0 <= i < |r| && name(r[i]) == p;
    }
  }

  /** The field analysis and the field specifications of the report; the
      scan statistics and the time stamp are left out. */
  datatype AnalysisReport = AnalysisReport(totalFieldsDiscovered: nat, totalRecordsProcessed: nat,
                                           enumFieldCount: nat, dataTypeDistribution: map<string, nat>,
                                           fieldSpecifications: seq<FieldSpec>,
                                           enumFields: map<string, seq<Scalar>>)

  function Report(x: ExtractionSummary): AnalysisReport
    requires OrderOk(x.registry)
  {
    AnalysisReport(x.totalFieldsDiscovered, x.totalRecordsProcessed, |x.enumFields|,
                   x.dataTypeDistribution, FieldSpecifications(x.registry), x.enumFields)
  }
}
