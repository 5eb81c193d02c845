// The shared helpers of the code analyzer
// (src/claude-code-analyzer/shared/utils.py): the coarse structure
// signature, the friendly type name, string truncation with a suffix, the
// timestamp test, dotted-path lookup and the common-pattern finder. The
// `[digits]` -> `[*]` path normalisation and the UUID test are the
// NormalizeIndices and IsUuid of module Patterns.

module SharedUtils {
  import opened Text
  import opened JsonModel
  import opened Ordering
  import opened Patterns
  import StructureTypes
  import CliFieldTypes

  // ---------------------------------------------------------------------
  // The coarse structure signature.

  /** `type(obj).__name__` of a parsed JSON scalar. */
  function PyTypeName(v: Json): string
    requires !IsContainer(v)
  {
    match v
    case Null => "NoneType"
    case Bool(_) => "bool"
    case Int(_) => "int"
    case Float(_) => "float"
    case Str(_) => "str"
  }

  /**
   * The shared `generate_structure_signature`: objects by their sorted keys
   * with each value's signature, lists by their first element only, scalars
   * by their Python type name.
   */
  function UtilSignature(v: Json): string {
    match v
    case Obj(ms) =>
      var keys := SortStrings(KeySet(ms));
      "object{" + Join(seq(|keys|, j requires 0 <= j < |keys| => keys[j] + ":" + UtilSignature(Lookup(ms, keys[j]))), ",") + "}"
    case Arr(xs) =>
      if xs != [] then "array<" + UtilSignature(xs[0]) + ">" else "array<unknown>"
    case Null => PyTypeName(v)
    case Bool(_) => PyTypeName(v)
    case Int(_) => PyTypeName(v)
    case Float(_) => PyTypeName(v)
    case Str(_) => PyTypeName(v)
  }

  /** Which kind of value a signature came from can be read off its first letter. */
  lemma UtilSignatureKinds(v: Json)
    ensures var r := UtilSignature(v);
            |r| >= 3
            && (v.Obj? <==> r[0] == 'o') && (v.Arr? <==> r[0] == 'a')
            && (v.Null? <==> r[0] == 'N') && (v.Bool? <==> r[0] == 'b')
            && (v.Int? <==> r[0] == 'i') && (v.Float? <==> r[0] == 'f') && (v.Str? <==> r[0] == 's')
  {
    match v
    case Obj(ms) => HeadOf("object{", UtilSignature(v));
    case Arr(xs) => HeadOf("array<", UtilSignature(v));
    case _ =>
  }

  lemma HeadOf(p: string, r: string)
    requires |p| >= 3 && StartsWith(r, p)
    ensures |r| >= 3 && r[0] == p[0]
  {
    assert r[0] == r[..|p|][0];
  }

  /** A list's signature is decided by its first element: the rest are never looked at. */
  lemma UtilSignatureFirstElement(xs: seq<Json>, ys: seq<Json>)
    requires xs != [] && ys != [] && UtilSignature(xs[0]) == UtilSignature(ys[0])
    ensures UtilSignature(Arr(xs)) == UtilSignature(Arr(ys))
  {
  }

  /** Only the empty list is signed `array<unknown>`. */
  lemma UnknownOnlyForEmpty(xs: seq<Json>)
    ensures UtilSignature(Arr(xs)) == "array<unknown>" <==> xs == []
  {
    if xs != [] {
      var inner := UtilSignature(xs[0]);
      UtilSignatureKinds(xs[0]);
      SixthOf(inner);
    }
  }

  lemma SixthOf(inner: string)
    requires inner != [] && inner[0] != 'u'
    ensures "array<" + inner + ">" != "array<unknown>"
  {
    assert ("array<" + inner + ">")[6] == inner[0];
  }

  /** The `key:signature` parts of an object, in sorted key order. */
  function UtilMemberParts(ms: seq<(string, Json)>): seq<string> {
    var keys := SortStrings(KeySet(ms));
    seq(|keys|, j requires 0 <= j < |keys| => keys[j] + ":" + UtilSignature(Lookup(ms, keys[j])))
  }

  lemma UtilObjectSignature(ms: seq<(string, Json)>)
    ensures UtilSignature(Obj(ms)) == "object{" + Join(UtilMemberParts(ms), ",") + "}"
  {
  }

  /** The shared signature does not depend on the order keys were inserted in either. */
  lemma {:induction false} UtilSignatureReordered(a: Json, b: Json)
    requires StructureTypes.Reordered(a, b)
    ensures UtilSignature(a) == UtilSignature(b)
  {
    match a
    case Arr(xs) =>
      if xs != [] {
        UtilSignatureReordered(xs[0], b.elems[0]);
      }
    case Obj(ms) =>
      var ns := b.members;
      forall k | k in KeySet(ms) ensures UtilSignature(Lookup(ms, k)) == UtilSignature(Lookup(ns, k)) {
        UtilSignatureReordered(Lookup(ms, k), Lookup(ns, k));
      }
      assert UtilMemberParts(ms) == UtilMemberParts(ns);
      UtilObjectSignature(ms);
      UtilObjectSignature(ns);
    case _ =>
  }

  // ---------------------------------------------------------------------
  // Friendly type names.

  /** `get_data_type`: booleans before integers, and every list is just "array". */
  function GetDataType(v: Json): string {
    match v
    case Null => "null"
    case Bool(_) => "boolean"
    case Int(_) => "integer"
    case Float(_) => "number"
    case Str(_) => "string"
    case Arr(_) => "array"
    case Obj(_) => "object"
  }

  /** The friendly name is the head of the T02 signature: the whole of it for a
      scalar, and the word before the bracket for a list or an object. */
  lemma GetDataTypeHeadsSignature(v: Json)
    ensures StartsWith(StructureTypes.Signature(v), GetDataType(v))
    ensures IsScalar(v) ==> StructureTypes.Signature(v) == GetDataType(v)
  {
    match v
    case Arr(xs) =>
      StructureTypes.ListSignatureShape(xs);
      StartsWithShorter(StructureTypes.Signature(v), "array[", "array");
    case Obj(ms) =>
      StructureTypes.ObjectSignatureShape(ms);
      StartsWithShorter(StructureTypes.Signature(v), "object{", "object");
    case _ =>
  }

  lemma StartsWithShorter(r: string, p: string, q: string)
    requires StartsWith(r, p) && StartsWith(p, q)
    ensures StartsWith(r, q)
  {
    assert r[..|q|] == r[..|p|][..|q|];
  }

  /** Two lists always share a friendly name, whatever they hold. */
  lemma GetDataTypeIgnoresElements(xs: seq<Json>, ys: seq<Json>)
    ensures GetDataType(Arr(xs)) == GetDataType(Arr(ys)) == "array"
  {
  }

  // ---------------------------------------------------------------------
  // String truncation.

  /**
   * `truncate_string`: unchanged when it fits, otherwise the slice
   * `text[:max_length - len(suffix)]` (a negative end counts from the end,
   * as in Python) followed by the suffix.
   */
  function TruncateString(text: string, maxLength: int, suffix: string): (r: string)
    ensures |text| <= maxLength ==> r == text
    ensures |text| > maxLength ==> EndsWith(r, suffix)
  {
    if |text| <= maxLength then text
    else
      var r := PrefixSlice(text, maxLength - |suffix|) + suffix;
      assert r[|r| - |suffix|..] == suffix;
      r
  }

  /** A long text cut against a limit that leaves room for the suffix is exactly
      the limit long: its first `max_length - len(suffix)` characters, then the suffix. */
  lemma TruncateStringFits(text: string, maxLength: int, suffix: string)
    requires |suffix| <= maxLength < |text|
    ensures var r := TruncateString(text, maxLength, suffix);
            |r| == maxLength && r == text[..maxLength - |suffix|] + suffix
  {
  }

  /** Truncating again changes nothing when the limit leaves room for the suffix. */
  lemma TruncateStringIdempotent(text: string, maxLength: int, suffix: string)
    requires |suffix| <= maxLength
    ensures TruncateString(TruncateString(text, maxLength, suffix), maxLength, suffix)
            == TruncateString(text, maxLength, suffix)
  {
    if |text| > maxLength {
      TruncateStringFits(text, maxLength, suffix);
    }
  }

  /** With a limit shorter than the suffix the result can outgrow both the limit and the text. */
  lemma TruncateStringShortLimit()
    ensures TruncateString("abcd", 2, "...") == "abc..."
  {
    assert PrefixSlice("abcd", -1) == "abc";
  }

  // ---------------------------------------------------------------------
  // UUIDs and timestamps.

  /** `is_timestamp`: either of its two anchored patterns. */
  predicate IsTimestamp(s: string) {
    IsIsoDatetime(s) || IsSpacedTimestamp(s)
  }

  /** A UUID is 36 characters, or 37 when the anchor lets one final newline through. */
  lemma UuidLength(s: string)
    requires IsUuid(s)
    ensures |s| == 36 || (|s| == 37 && s[36] == '\n')
  {
  }

  /** The canonical form of section 3 of RFC 4122 passes, in either case. */
  lemma UuidLowerExample()
    ensures IsUuid("123e4567-e89b-12d3-a456-426614174000")
  {
    var s := "123e4567-e89b-12d3-a456-426614174000";
    forall i | 0 <= i < 36
      ensures (i == 8 || i == 13 || i == 18 || i == 23) == (s[i] == '-')
      ensures s[i] != '-' ==> IsHexDigitIgnoreCase(s[i])
    {
    }
    assert UuidWhole(s);
  }

  lemma UuidUpperExample()
    ensures IsUuid("123E4567-E89B-12D3-A456-426614174000")
  {
    var s := "123E4567-E89B-12D3-A456-426614174000";
    forall i | 0 <= i < 36
      ensures (i == 8 || i == 13 || i == 18 || i == 23) == (s[i] == '-')
      ensures s[i] != '-' ==> IsHexDigitIgnoreCase(s[i])
    {
    }
    assert UuidWhole(s);
  }

  /** Without its dashes a UUID is not one. */
  lemma UuidNeedsDashes()
    ensures !IsUuid("123e4567e89b12d3a456426614174000")
  {
  }

  /** A timestamp is 19 to 24 characters, plus the one final newline the anchor allows. */
  lemma TimestampLength(s: string)
    requires IsTimestamp(s)
    ensures 19 <= |s| <= 25
  {
  }

  lemma IsoTimestampExample()
    ensures IsTimestamp("2025-07-31T17:02:24Z")
  {
    var a := "2025-07-31T17:02:24Z";
    assert a[19..|a| - 1] == [];
    assert IsoWhole(a);
  }

  lemma IsoMillisTimestampExample()
    ensures IsTimestamp("2025-07-31T17:02:24.123Z")
  {
    var b := "2025-07-31T17:02:24.123Z";
    assert b[19..|b| - 1] == ".123";
    assert IsoWhole(b);
  }

  lemma SpacedTimestampExample()
    ensures IsTimestamp("2025-07-31 17:02:24.123")
  {
    var c := "2025-07-31 17:02:24.123";
    assert c[19..] == ".123";
    assert SpacedWhole(c);
  }

  /** The space-separated form takes no zone letter, and a bare date is no timestamp. */
  lemma NonTimestampExamples()
    ensures !IsTimestamp("2025-07-31 17:02:24Z")
    ensures !IsTimestamp("2025-07-31")
  {
    var d := "2025-07-31 17:02:24Z";
    assert d[19..] == "Z";
    assert d[10] != 'T';
  }

  // ---------------------------------------------------------------------
  // Dotted-path lookup.

  /** Follows keys through nested objects; None as soon as a step is missing. */
  function Follow(v: Json, keys: seq<string>): CliFieldTypes.Option<Json> {
    if keys == [] then CliFieldTypes.Some(v)
    else if v.Obj? && keys[0] in KeySet(v.members) then Follow(Lookup(v.members, keys[0]), keys[1..])
    else CliFieldTypes.None
  }

  /** Following a concatenation is following the first part, then the rest. */
  lemma {:induction false} FollowAppend(v: Json, a: seq<string>, b: seq<string>)
    ensures Follow(v, a + b) == match Follow(v, a)
                                case None => CliFieldTypes.None
                                case Some(x) => Follow(x, b)
  {
    if a == [] {
      assert a + b == b;
    } else {
      assert (a + b)[1..] == a[1..] + b;
      if v.Obj? && a[0] in KeySet(v.members) {
        FollowAppend(Lookup(v.members, a[0]), a[1..], b);
      }
    }
  }

  /** `safe_get`: walk `current` through the dotted keys, or give the default. */
  method SafeGet(obj: Json, path: string, default: Json) returns (r: Json)
    ensures r == match Follow(obj, Split(path, '.'))
                 case Some(x) => x
                 case None => default
  {
    var keys := Split(path, '.');
    var current := obj;
    for i := 0 to |keys|
      invariant Follow(obj, keys) == Follow(current, keys[i..])
    {
      var key := keys[i];
      assert keys[i..][0] == key && keys[i..][1..] == keys[i + 1..];
      if current.Obj? && key in KeySet(current.members) {
        current := Lookup(current.members, key);
      } else {
        return default;
      }
    }
    return current;
  }

  /** A path whose keys hold no dot finds what following those keys finds. */
  lemma SafeGetJoinedPath(v: Json, keys: seq<string>)
    requires keys != [] && forall i :: 0 <= i < |keys| ==> '.' !in keys[i]
    ensures Follow(v, Split(Join(keys, "."), '.')) == Follow(v, keys)
  {
    SplitJoin(keys, '.');
  }

  lemma {:induction false} SplitJoin(parts: seq<string>, c: char)
    requires parts != [] && forall i :: 0 <= i < |parts| ==> c !in parts[i]
    ensures Split(Join(parts, [c]), c) == parts
  {
    if |parts| == 1 {
      SplitNoSeparator(parts[0], c);
    } else {
      SplitJoin(parts[1..], c);
      SplitAround(parts[0], c, Join(parts[1..], [c]));
      assert [parts[0]] + parts[1..] == parts;
    }
  }

  lemma {:induction false} SplitNoSeparator(s: string, c: char)
    requires c !in s
    ensures Split(s, c) == [s]
  {
    if s != [] {
      assert s[0] in s;
      assert c !in s[1..];
      SplitNoSeparator(s[1..], c);
      assert Split(s, c) == [[s[0]] + s[1..]];
      assert [s[0]] + s[1..] == s;
    }
  }

  lemma {:induction false} SplitAround(a: string, c: char, b: string)
    requires c !in a
    ensures Split(a + [c] + b, c) == [a] + Split(b, c)
  {
    if a == [] {
      assert a + [c] + b == [c] + b;
      assert ([c] + b)[1..] == b;
    } else {
      SplitAround(a[1..], c, b);
      assert (a + [c] + b)[1..] == a[1..] + [c] + b;
      assert [a[0]] + a[1..] == a;
    }
  }

  // ---------------------------------------------------------------------
  // Common patterns among string values.

  function CountUuids(values: seq<string>): (n: nat)
    ensures n <= |values|
  {
    if values == [] then 0 else CountUuids(values[..|values| - 1]) + (if IsUuid(values[|values| - 1]) then 1 else 0)
  }

  function CountTimestamps(values: seq<string>): (n: nat)
    ensures n <= |values|
  {
    if values == [] then 0 else CountTimestamps(values[..|values| - 1]) + (if IsTimestamp(values[|values| - 1]) then 1 else 0)
  }

  function Lengths(values: seq<string>): (r: seq<nat>)
    ensures |r| == |values| && forall i :: 0 <= i < |values| ==> r[i] == |values[i]|
  {
    seq(|values|, i requires 0 <= i < |values| => |values[i]|)
  }

  /** A `Counter`'s keys in the order they were first counted. */
  function FirstOccurrences(labels: seq<nat>): (r: seq<nat>)
    ensures Distinct(r)
    ensures forall x :: x in r <==> x in labels
  {
    if labels == [] then []
    else
      var init := FirstOccurrences(labels[..|labels| - 1]);
      var x := labels[|labels| - 1];
      assert forall y :: y in labels <==> y in labels[..|labels| - 1] || y == x by {
        PrefixSnoc(labels, |labels| - 1);
        assert labels[..|labels|] == labels;
      }
      if x in init then init
      else
        assert Distinct(init + [x]) by {
          forall i, j | 0 <= i < j < |init| + 1 ensures (init + [x])[i] != (init + [x])[j] {
            if j == |init| { assert (init + [x])[i] == init[i]; }
          }
        }
        init + [x]
  }

  /** A `Counter`'s items in insertion order. */
  function CounterItems(labels: seq<nat>): (r: seq<(nat, nat)>)
    ensures |r| == |FirstOccurrences(labels)|
  {
    var keys := FirstOccurrences(labels);
    seq(|keys|, i requires 0 <= i < |keys| => (keys[i], Occurrences(labels, keys[i])))
  }

  /** The key order of `most_common`: larger counts first. */
  function ByCountDescending(a: (nat, nat), b: (nat, nat)): bool {
    a.1 >= b.1
  }

  lemma ByCountDescendingIsPreorder()
    ensures IsTotalPreorder(ByCountDescending)
  {
  }

  /** `Counter.most_common(n)`: the items by descending count, ties in insertion order, at most `n`. */
  function MostCommon(labels: seq<nat>, n: nat): (r: seq<(nat, nat)>)
    ensures |r| <= n
  {
    ByCountDescendingIsPreorder();
    var sorted := SortBy(CounterItems(labels), ByCountDescending);
    sorted[..Min(n, |sorted|)]
  }

  /** Every item `most_common` returns is a true count of a label that occurs. */
  lemma MostCommonCounts(labels: seq<nat>, n: nat)
    ensures var r := MostCommon(labels, n);
            forall i :: 0 <= i < |r| ==> r[i].0 in labels && r[i].1 == Occurrences(labels, r[i].0)
  {
    ByCountDescendingIsPreorder();
    var items := CounterItems(labels);
    var sorted := SortBy(items, ByCountDescending);
    forall i | 0 <= i < |sorted|
      ensures sorted[i].0 in labels && sorted[i].1 == Occurrences(labels, sorted[i].0)
    {
      ItemCount(labels, sorted, i);
    }
  }

  lemma ItemCount(labels: seq<nat>, sorted: seq<(nat, nat)>, i: nat)
    requires i < |sorted| && multiset(sorted) == multiset(CounterItems(labels))
    ensures sorted[i].0 in labels && sorted[i].1 == Occurrences(labels, sorted[i].0)
  {
    var items := CounterItems(labels);
    var keys := FirstOccurrences(labels);
    assert sorted[i] in multiset(items);
    var k :| 0 <= k < |items| && items[k] == sorted[i];
    assert items[k] == (keys[k], Occurrences(labels, keys[k]));
    assert keys[k] in keys;
  }

  /**
   * `most_common` lists each label at most once, largest count first, and
   * labels of equal count in the order they were first counted.
   */
  lemma MostCommonOrdered(labels: seq<nat>, n: nat)
    ensures var r := MostCommon(labels, n);
            forall i, j :: 0 <= i < j < |r| ==> r[i].0 != r[j].0 && r[i].1 >= r[j].1
    ensures var r := MostCommon(labels, n); var keys := FirstOccurrences(labels);
            forall i, j :: 0 <= i < j < |r| && r[i].1 == r[j].1 ==>
              exists p, q :: 0 <= p < q < |keys| && keys[p] == r[i].0 && keys[q] == r[j].0
  {
    ByCountDescendingIsPreorder();
    var items := CounterItems(labels);
    var sorted := SortBy(items, ByCountDescending);
    ItemsKeysDistinct(labels);
    SortedKeysDistinct(items, sorted);
    var r, keys := MostCommon(labels, n), FirstOccurrences(labels);
    forall i, j | 0 <= i < j < |r| && r[i].1 == r[j].1
      ensures exists p, q :: 0 <= p < q < |keys| && keys[p] == r[i].0 && keys[q] == r[j].0
    {
      MostCommonTie(labels, n, i, j);
    }
  }

  /** Two items of equal count keep the order of their keys' first occurrences. */
  lemma MostCommonTie(labels: seq<nat>, n: nat, i: nat, j: nat)
    requires var r := MostCommon(labels, n); i < j < |r| && r[i].1 == r[j].1
    ensures var r := MostCommon(labels, n);
            exists p, q :: 0 <= p < q < |FirstOccurrences(labels)|
              && FirstOccurrences(labels)[p] == r[i].0 && FirstOccurrences(labels)[q] == r[j].0
  {
    ByCountDescendingIsPreorder();
    var items, keys := CounterItems(labels), FirstOccurrences(labels);
    var sorted := SortBy(items, ByCountDescending);
    var r := MostCommon(labels, n);
    assert r[i] == sorted[i] && r[j] == sorted[j] && j < |items|;
    assert ByCountDescending(sorted[i], sorted[j]) && ByCountDescending(sorted[j], sorted[i]);
    SortByStable(items, ByCountDescending, i, j);
    var a, b :| 0 <= a < b < |items| && items[a] == sorted[i] && items[b] == sorted[j];
    assert items[a].0 == keys[a] && items[b].0 == keys[b];
  }

  /** A label `most_common` leaves out occurs no more often than the last one it keeps. */
  lemma MostCommonLeftOut(labels: seq<nat>, n: nat, x: nat)
    requires x in labels
    requires var r := MostCommon(labels, n); forall i :: 0 <= i < |r| ==> r[i].0 != x
    ensures var r := MostCommon(labels, n); |r| == n && (n > 0 ==> Occurrences(labels, x) <= r[n - 1].1)
  {
    ByCountDescendingIsPreorder();
    var items := CounterItems(labels);
    var sorted := SortBy(items, ByCountDescending);
    var r := MostCommon(labels, n);
    assert r == sorted[..Min(n, |sorted|)];
    var e := (x, Occurrences(labels, x));
    KeyItem(labels, x);
    assert e in multiset(sorted);
    LeftOutBelow(sorted, Min(n, |sorted|), e);
  }

  /** Every label that occurs has its item in the counter. */
  lemma KeyItem(labels: seq<nat>, x: nat)
    requires x in labels
    ensures (x, Occurrences(labels, x)) in CounterItems(labels)
  {
    var keys := FirstOccurrences(labels);
    var k :| 0 <= k < |keys| && keys[k] == x;
    assert CounterItems(labels)[k] == (x, Occurrences(labels, x));
  }

  /** In a sequence sorted by descending count, an item whose key is not among the
      first `m` lies beyond them and counts no more than the `m`-th. */
  lemma LeftOutBelow(sorted: seq<(nat, nat)>, m: nat, e: (nat, nat))
    requires m <= |sorted| && SortedBy(sorted, ByCountDescending) && e in sorted
    requires forall i :: 0 <= i < m ==> sorted[..m][i].0 != e.0
    ensures m < |sorted| && (m > 0 ==> e.1 <= sorted[m - 1].1)
  {
    forall i | 0 <= i < m ensures sorted[i] != e {
      assert sorted[..m][i] == sorted[i];
    }
    var j :| 0 <= j < |sorted| && sorted[j] == e;
    if m > 0 {
      assert ByCountDescending(sorted[m - 1], sorted[j]);
    }
  }

  lemma ItemsKeysDistinct(labels: seq<nat>)
    ensures var items := CounterItems(labels);
            forall i, j :: 0 <= i < j < |items| ==> items[i].0 != items[j].0
  {
  }

  /** Rearranging items with distinct keys keeps the keys distinct. */
  lemma SortedKeysDistinct(items: seq<(nat, nat)>, sorted: seq<(nat, nat)>)
    requires multiset(sorted) == multiset(items)
    requires forall i, j :: 0 <= i < j < |items| ==> items[i].0 != items[j].0
    ensures forall i, j :: 0 <= i < j < |sorted| ==> sorted[i].0 != sorted[j].0
  {
    forall i, j | 0 <= i < j < |sorted| ensures sorted[i].0 != sorted[j].0 {
      if sorted[i].0 == sorted[j].0 {
        assert sorted[i] in multiset(items);
        assert sorted[j] in multiset(items);
        var a :| 0 <= a < |items| && items[a] == sorted[i];
        var b :| 0 <= b < |items| && items[b] == sorted[j];
        assert a == b;
        assert sorted[i] == sorted[j];
        MultisetTwice(sorted, i, j);
        assert multiset(items)[items[a]] >= 2;
        MultisetOnce(items, a);
      }
    }
  }

  lemma MultisetTwice(s: seq<(nat, nat)>, i: nat, j: nat)
    requires i < j < |s| && s[i] == s[j]
    ensures multiset(s)[s[i]] >= 2
  {
    assert s == s[..i] + [s[i]] + s[i + 1..j] + [s[j]] + s[j + 1..];
  }

  lemma MultisetOnce(items: seq<(nat, nat)>, a: nat)
    requires a < |items|
    requires forall i, j :: 0 <= i < j < |items| ==> items[i].0 != items[j].0
    ensures multiset(items)[items[a]] == 1
  {
    var x := items[a];
    var before, after := items[..a], items[a + 1..];
    assert items == before + [x] + after;
    assert x !in before;
    assert x !in after;
    assert multiset(items) == multiset(before) + multiset{x} + multiset(after);
  }

  /** A found pattern: its name and how many values show it. */
  datatype Pattern = Pattern(name: string, count: nat)

  /** The length patterns of the kept most-common lengths, in order. */
  function LengthPatterns(top: seq<(nat, nat)>, minCount: int): seq<Pattern> {
    if top == [] then []
    else
      LengthPatterns(top[..|top| - 1], minCount)
      + (if top[|top| - 1].1 >= minCount then [Pattern("Length-" + NatToString(top[|top| - 1].0), top[|top| - 1].1)] else [])
  }

  /** What `find_common_patterns` returns: UUIDs, then timestamps, then up to three lengths. */
  function CommonPatterns(values: seq<string>, minCount: int): seq<Pattern> {
    var u := CountUuids(values);
    var t := CountTimestamps(values);
    (if u >= minCount then [Pattern("UUID", u)] else [])
    + (if t >= minCount then [Pattern("Timestamp", t)] else [])
    + LengthPatterns(MostCommon(Lengths(values), 3), minCount)
  }

  /** `find_common_patterns`. */
  method FindCommonPatterns(values: seq<string>, minCount: int) returns (patterns: seq<Pattern>)
    ensures patterns == CommonPatterns(values, minCount)
  {
    patterns := [];
    var uuidCount := CountUuids(values);
    if uuidCount >= minCount {
      patterns := patterns + [Pattern("UUID", uuidCount)];
    }
    var timestampCount := CountTimestamps(values);
    if timestampCount >= minCount {
      patterns := patterns + [Pattern("Timestamp", timestampCount)];
    }
    var top := MostCommon(Lengths(values), 3);
    patterns := AppendLengthPatterns(patterns, top, minCount);
  }

  /** The loop of `find_common_patterns` over the most common lengths. */
  method AppendLengthPatterns(head: seq<Pattern>, top: seq<(nat, nat)>, minCount: int) returns (patterns: seq<Pattern>)
    ensures patterns == head + LengthPatterns(top, minCount)
  {
    patterns := head;
    for i := 0 to |top|
      invariant patterns == head + LengthPatterns(top[..i], minCount)
    {
      LengthPatternsSnoc(top, i, minCount);
      if top[i].1 >= minCount {
        var p := Pattern("Length-" + NatToString(top[i].0), top[i].1);
        AppendAssoc(head, LengthPatterns(top[..i], minCount), [p]);
        patterns := patterns + [p];
      } else {
        assert LengthPatterns(top[..i + 1], minCount) == LengthPatterns(top[..i], minCount) + [];
      }
    }
    assert top[..|top|] == top;
  }

  lemma AppendAssoc<T>(a: seq<T>, b: seq<T>, c: seq<T>)
    ensures (a + b) + c == a + (b + c)
  {
  }

  lemma LengthPatternsSnoc(top: seq<(nat, nat)>, i: nat, minCount: int)
    requires i < |top|
    ensures LengthPatterns(top[..i + 1], minCount) == LengthPatterns(top[..i], minCount)
              + (if top[i].1 >= minCount then [Pattern("Length-" + NatToString(top[i].0), top[i].1)] else [])
  {
    assert top[..i + 1][..i] == top[..i];
  }

  lemma {:induction false} LengthPatternsFacts(top: seq<(nat, nat)>, minCount: int)
    ensures |LengthPatterns(top, minCount)| <= |top|
    ensures forall p :: p in LengthPatterns(top, minCount) ==> p.count >= minCount
  {
    if top != [] {
      LengthPatternsFacts(top[..|top| - 1], minCount);
    }
  }

  /** Every reported pattern meets the minimum, there are at most five, and the
      UUID and timestamp entries appear exactly when their counts meet it,
      UUID first and then the timestamps. */
  lemma CommonPatternsFacts(values: seq<string>, minCount: int)
    ensures var r := CommonPatterns(values, minCount);
            |r| <= 5
            && (forall p :: p in r ==> p.count >= minCount)
            && (Pattern("UUID", CountUuids(values)) in r <==> CountUuids(values) >= minCount)
            && (CountUuids(values) >= minCount ==> r[0] == Pattern("UUID", CountUuids(values)))
            && (Pattern("Timestamp", CountTimestamps(values)) in r <==> CountTimestamps(values) >= minCount)
            && (CountTimestamps(values) >= minCount ==>
                  r[if CountUuids(values) >= minCount then 1 else 0] == Pattern("Timestamp", CountTimestamps(values)))
  {
    var top := MostCommon(Lengths(values), 3);
    LengthPatternsFacts(top, minCount);
    LengthPatternNames(top, minCount);
    assert "UUID"[0] == 'U' && "Timestamp"[0] == 'T';
  }

  lemma {:induction false} LengthPatternNames(top: seq<(nat, nat)>, minCount: int)
    ensures forall p :: p in LengthPatterns(top, minCount) ==> |p.name| > 0 && p.name[0] == 'L'
  {
    if top != [] {
      LengthPatternNames(top[..|top| - 1], minCount);
    }
  }
}
