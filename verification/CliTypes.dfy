// Type labels and string patterns of the CLI field extractor
// (src/claude-cli-analyzer/src/core/field_extractor.py): the label a value
// is given, how two labels seen for one field combine, and the pattern tag
// of a string value.

module CliFieldTypes {
  import opened Text
  import opened JsonModel
  import opened Patterns

  datatype Option<T> = None | Some(value: T)

  const StringLabels: set<string> := {"string", "uuid", "datetime", "url", "id"}
  const NumericLabels: set<string> := {"integer", "number"}

  /** `value.startswith(('http://', 'https://', 'ftp://'))`. */
  predicate IsUrl(s: string) {
    StartsWith(s, "http://") || StartsWith(s, "https://") || StartsWith(s, "ftp://")
  }

  predicate IsIdPrefixed(s: string) {
    StartsWith(s, "req_") || StartsWith(s, "toolu_") || StartsWith(s, "msg_")
  }

  function StringLabel(s: string): string {
    if IsUuid(s) then "uuid"
    else if IsIsoDatetime(s) then "datetime"
    else if IsUrl(s) then "url"
    else if IsIdPrefixed(s) then "id"
    else "string"
  }

  /** The number of list elements whose labels decide a list's label. */
  const SampleSize := 10

  /** `_infer_data_type`: booleans before integers, lists by their first ten elements. */
  function InferDataType(v: Json): string {
    match v
    case Null => "null"
    case Bool(_) => "boolean"
    case Int(_) => "integer"
    case Float(_) => "number"
    case Str(s) => StringLabel(s)
    case Arr(xs) =>
      if xs == [] then "array[empty]"
      else if forall i :: 0 <= i < Min(SampleSize, |xs|) ==> InferDataType(xs[i]) == InferDataType(xs[0])
      then "array[" + InferDataType(xs[0]) + "]"
      else "array[mixed]"
    case Obj(_) => "object"
  }

  /** The label determines the kind of value it was inferred from. */
  lemma InferDataTypeKinds(v: Json)
    ensures var r := InferDataType(v);
            (r == "null" <==> v.Null?)
            && (r == "boolean" <==> v.Bool?)
            && (r == "integer" <==> v.Int?)
            && (r == "number" <==> v.Float?)
            && (r in StringLabels <==> v.Str?)
            && (StartsWith(r, "array") <==> v.Arr?)
            && (r == "object" <==> v.Obj?)
  {
    var r := InferDataType(v);
    PlainLabelsNotArray();
    if v.Arr? {
      assert r[..5] == "array";
      assert r[0] == 'a';
    }
  }

  /** A list's label depends only on its first ten elements. */
  lemma InferDataTypeSample(xs: seq<Json>, ys: seq<Json>)
    requires xs != [] && ys != []
    requires xs[..Min(SampleSize, |xs|)] == ys[..Min(SampleSize, |ys|)]
    ensures InferDataType(Arr(xs)) == InferDataType(Arr(ys))
  {
    assert xs[0] == xs[..Min(SampleSize, |xs|)][0];
    assert ys[0] == ys[..Min(SampleSize, |ys|)][0];
    forall i | 0 <= i < Min(SampleSize, |xs|) ensures xs[i] == ys[i] {
      assert xs[i] == xs[..Min(SampleSize, |xs|)][i];
    }
  }

  /** `_merge_data_types`: the label of a field seen with two labels. */
  function MergeDataTypes(t1: string, t2: string): string {
    if t1 == t2 then t1
    else if t1 == "null" then t2
    else if t2 == "null" then t1
    else if t1 in NumericLabels && t2 in NumericLabels then "number"
    else if t1 in StringLabels && t2 in StringLabels then "string"
    else if StartsWith(t1, "array") && StartsWith(t2, "array") then "array[mixed]"
    else "mixed"
  }

  lemma MergeCommutative(t1: string, t2: string)
    ensures MergeDataTypes(t1, t2) == MergeDataTypes(t2, t1)
  {
  }

  /** None of the scalar, string-family or fallback labels looks like a list label. */
  lemma PlainLabelsNotArray()
    ensures forall t :: t in StringLabels || t in NumericLabels || t in {"null", "boolean", "object", "mixed"}
              ==> !StartsWith(t, "array")
  {
    forall t | t in StringLabels || t in NumericLabels || t in {"null", "boolean", "object", "mixed"}
      ensures !StartsWith(t, "array")
    {
      assert t[0] != 'a';
    }
  }

  lemma MergeIdentityAndAbsorption(t: string)
    ensures MergeDataTypes(t, t) == t
    ensures MergeDataTypes("null", t) == t && MergeDataTypes(t, "null") == t
    ensures t != "null" ==> MergeDataTypes("mixed", t) == "mixed"
  {
    PlainLabelsNotArray();
  }

  /**
   * The families a label generalises within: numbers, strings and lists each
   * have a most general label; everything else only generalises to "mixed".
   */
  function Family(t: string): nat {
    if t in NumericLabels then 1
    else if t in StringLabels then 2
    else if StartsWith(t, "array") then 3
    else 4
  }

  function FamilyTop(f: nat): string {
    if f == 1 then "number" else if f == 2 then "string" else if f == 3 then "array[mixed]" else "mixed"
  }

  /** Two different non-null labels merge to the top of their common family,
      or to "mixed" when they have none. */
  lemma MergeByFamily(t1: string, t2: string)
    requires t1 != "null" && t2 != "null"
    ensures MergeDataTypes(t1, t2)
            == if t1 == t2 then t1
               else if Family(t1) == Family(t2) && Family(t1) != 4 then FamilyTop(Family(t1))
               else "mixed"
  {
    PlainLabelsNotArray();
  }

  lemma FamilyTopFamily(f: nat)
    ensures FamilyTop(f) != "null"
    ensures 1 <= f <= 3 ==> Family(FamilyTop(f)) == f
    ensures Family("mixed") == 4
  {
    PlainLabelsNotArray();
    assert StartsWith("array[mixed]", "array");
  }

  /** Folding labels in any grouping gives the same label. */
  lemma MergeAssociative(a: string, b: string, c: string)
    ensures MergeDataTypes(MergeDataTypes(a, b), c) == MergeDataTypes(a, MergeDataTypes(b, c))
  {
    MergeIdentityAndAbsorption(a);
    MergeIdentityAndAbsorption(b);
    MergeIdentityAndAbsorption(c);
    if a != "null" && b != "null" && c != "null" {
      var ab := MergeDataTypes(a, b);
      var bc := MergeDataTypes(b, c);
      MergeByFamily(a, b);
      MergeByFamily(b, c);
      FamilyTopFamily(Family(a));
      FamilyTopFamily(Family(b));
      FamilyTopFamily(Family(c));
      MergeByFamily(ab, c);
      MergeByFamily(a, bc);
    }
  }

  /** `_extract_string_pattern`: the first matching tag, or None. */
  function ExtractStringPattern(s: string): Option<string> {
    if IsUuid(s) then Some("UUID")
    else if IsIsoDatetime(s) then Some("ISO_DATETIME")
    else if IsUrl(s) then Some("URL")
    else if StartsWith(s, "req_") then Some("REQUEST_ID")
    else if StartsWith(s, "toolu_") then Some("TOOL_USE_ID")
    else if StartsWith(s, "msg_") then Some("MESSAGE_ID")
    else if IsUpperCaseWord(s) then Some("UPPER_CASE")
    else if IsLowerCaseWord(s) then Some("LOWER_CASE")
    else if IsNumericString(s) then Some("NUMERIC_STRING")
    else None
  }

  /** A string gets no tag exactly when it has none of the recognised shapes,
      and a tag agrees with the label the same string is given. */
  lemma ExtractStringPatternAgreesWithLabel(s: string)
    ensures ExtractStringPattern(s).None? <==>
            StringLabel(s) == "string" && !IsUpperCaseWord(s) && !IsLowerCaseWord(s) && !IsNumericString(s)
    ensures ExtractStringPattern(s) == Some("UUID") <==> StringLabel(s) == "uuid"
    ensures ExtractStringPattern(s) == Some("ISO_DATETIME") <==> StringLabel(s) == "datetime"
    ensures ExtractStringPattern(s) == Some("URL") <==> StringLabel(s) == "url"
    ensures ExtractStringPattern(s).Some? && ExtractStringPattern(s).value in {"REQUEST_ID", "TOOL_USE_ID", "MESSAGE_ID"}
            <==> StringLabel(s) == "id"
  {
  }
}
