// Whole-object structure signatures of the T02 analyzer
// (src/claude-code-analyzer/tasks/T02_message_structure_type/type_analyzer.py):
// the canonical text that summarises a value's nesting, the table of object
// types counted by signature, the walk that hands every object of a record
// to the table, and the complexity and occurrence figures of the summary.

module StructureTypes {
  import opened Text
  import opened JsonModel
  import opened Ordering

  // ---------------------------------------------------------------------
  // Signatures.

  /** How many leading list elements a list's signature looks at. */
  const SignedElements := 10

  /**
   * `generate_structure_signature`: scalars by kind (booleans before
   * integers), lists by the distinct signatures of their first ten elements,
   * objects by their keys in sorted order, each with its value's signature.
   */
  function Signature(v: Json): (r: string)
    ensures |r| >= 4
  {
    match v
    case Null => "null"
    case Bool(_) => "boolean"
    case Int(_) => "integer"
    case Float(_) => "number"
    case Str(_) => "string"
    case Arr(xs) =>
      if xs == [] then "array[]"
      else
        var sigs := set i | 0 <= i < Min(SignedElements, |xs|) :: Signature(xs[i]);
        if |sigs| == 1 then "array[" + SortStrings(sigs)[0] + "]"
        else "array[" + Join(SortStrings(sigs), ",") + "]"
    case Obj(ms) =>
      if ms == [] then "object{}"
      else
        var keys := SortStrings(KeySet(ms));
        "object{" + Join(seq(|keys|, j requires 0 <= j < |keys| => keys[j] + ":" + Signature(Lookup(ms, keys[j]))), ",") + "}"
  }

  /** The distinct signatures of a list's first ten elements. */
  function ElementSignatures(xs: seq<Json>): (sigs: set<string>)
    ensures xs != [] ==> sigs != {}
  {
    var sigs := set i | 0 <= i < Min(SignedElements, |xs|) :: Signature(xs[i]);
    assert xs != [] ==> Signature(xs[0]) in sigs;
    sigs
  }

  /** The `key:signature` parts of a non-empty object, in sorted key order. */
  function MemberParts(ms: seq<(string, Json)>): (parts: seq<string>)
    ensures |parts| == |KeySet(ms)|
  {
    var keys := SortStrings(KeySet(ms));
    seq(|keys|, j requires 0 <= j < |keys| => keys[j] + ":" + Signature(Lookup(ms, keys[j])))
  }

  lemma StartsWithFirstChar(s: string, prefix: string)
    requires prefix != []
    ensures StartsWith(s, prefix) ==> s[0] == prefix[0]
  {
    if StartsWith(s, prefix) {
      assert s[..|prefix|][0] == s[0];
    }
  }

  lemma FirstKey(ms: seq<(string, Json)>)
    ensures ms != [] ==> ms[0].0 in KeySet(ms)
  {
  }

  lemma JoinStartsWithFirst(parts: seq<string>, sep: string)
    requires parts != []
    ensures |Join(parts, sep)| >= |parts[0]|
    ensures Join(parts, sep)[..|parts[0]|] == parts[0]
  {
  }

  /** A list's signature is always the sorted, comma-joined set of its
      element signatures: the one-signature branch is a special case. */
  lemma ListSignature(xs: seq<Json>)
    requires xs != []
    ensures Signature(Arr(xs)) == "array[" + Join(SortStrings(ElementSignatures(xs)), ",") + "]"
  {
    var sigs := ElementSignatures(xs);
    if |sigs| == 1 {
      assert |SortStrings(sigs)| == 1;
    }
  }

  /** A list whose first ten elements share a signature is that signature in brackets. */
  lemma UniformListSignature(xs: seq<Json>, s: string)
    requires xs != []
    requires forall i :: 0 <= i < Min(SignedElements, |xs|) ==> Signature(xs[i]) == s
    ensures Signature(Arr(xs)) == "array[" + s + "]"
  {
    var sigs := ElementSignatures(xs);
    assert Signature(xs[0]) in sigs;
    assert sigs == {s};
    StrLeIsTotalOrder();
    SortSetSingleton(s, StrLe);
  }

  /** Only the first ten elements of a list matter. */
  lemma SignatureSample(xs: seq<Json>, ys: seq<Json>)
    requires xs != [] && ys != []
    requires xs[..Min(SignedElements, |xs|)] == ys[..Min(SignedElements, |ys|)]
    ensures Signature(Arr(xs)) == Signature(Arr(ys))
  {
    var n := Min(SignedElements, |xs|);
    assert |ys[..Min(SignedElements, |ys|)]| == n;
    forall i | 0 <= i < n ensures xs[i] == ys[i] {
      assert xs[i] == xs[..n][i];
    }
    assert ElementSignatures(xs) == ElementSignatures(ys);
    ListSignature(xs);
    ListSignature(ys);
  }

  lemma ListSignatureShape(xs: seq<Json>)
    ensures var r := Signature(Arr(xs));
            StartsWith(r, "array[") && r[0] == 'a' && (r == "array[]" <==> xs == [])
  {
    var r := Signature(Arr(xs));
    if xs != [] {
      ListSignature(xs);
      var sorted := SortStrings(ElementSignatures(xs));
      JoinStartsWithFirst(sorted, ",");
      assert |r| >= 11;
    }
    assert r[..6] == "array[";
  }

  lemma ObjectSignatureShape(ms: seq<(string, Json)>)
    ensures var r := Signature(Obj(ms));
            StartsWith(r, "object{") && r[0] == 'o' && (r == "object{}" <==> ms == [])
  {
    var r := Signature(Obj(ms));
    if ms != [] {
      var parts := MemberParts(ms);
      assert |KeySet(ms)| >= 1 by { FirstKey(ms); }
      JoinStartsWithFirst(parts, ",");
      assert r == "object{" + Join(parts, ",") + "}";
      assert |r| >= 13;
    }
    assert r[..7] == "object{";
  }

  /** A signature tells the kind of the value, and empty containers have their own. */
  lemma SignatureKinds(v: Json)
    ensures var r := Signature(v);
            (r == "null" <==> v.Null?)
            && (r == "boolean" <==> v.Bool?)
            && (r == "integer" <==> v.Int?)
            && (r == "number" <==> v.Float?)
            && (r == "string" <==> v.Str?)
            && (StartsWith(r, "array[") <==> v.Arr?)
            && (StartsWith(r, "object{") <==> v.Obj?)
            && (r == "array[]" <==> v == Arr([]))
            && (r == "object{}" <==> v == Obj([]))
  {
    var r := Signature(v);
    StartsWithFirstChar(r, "array[");
    StartsWithFirstChar(r, "object{");
    match v
    case Arr(xs) => ListSignatureShape(xs);
    case Obj(ms) => ObjectSignatureShape(ms);
    case _ => assert r[0] != 'a' && r[0] != 'o';
  }

  // ---------------------------------------------------------------------
  // Key order does not matter, at any depth.

  /**
   * Two values that differ only in the insertion order of object keys: the
   * same keys with pairwise reordered values, and lists of the same length
   * with pairwise reordered elements.
   */
  predicate Reordered(a: Json, b: Json) {
    match a
    case Arr(xs) =>
      b.Arr? && |xs| == |b.elems| && forall i :: 0 <= i < |xs| ==> Reordered(xs[i], b.elems[i])
    case Obj(ms) =>
      b.Obj? && KeySet(ms) == KeySet(b.members)
      && forall k :: k in KeySet(ms) ==> Reordered(Lookup(ms, k), Lookup(b.members, k))
    case _ => a == b
  }

  /** Signatures do not depend on the order keys were inserted in. */
  lemma {:induction false} SignatureReordered(a: Json, b: Json)
    requires Reordered(a, b)
    ensures Signature(a) == Signature(b)
  {
    match a
    case Arr(xs) =>
      var ys := b.elems;
      if xs != [] {
        forall i | 0 <= i < |xs| ensures Signature(xs[i]) == Signature(ys[i]) {
          SignatureReordered(xs[i], ys[i]);
        }
        assert ElementSignatures(xs) == ElementSignatures(ys);
        ListSignature(xs);
        ListSignature(ys);
      }
    case Obj(ms) =>
      var ns := b.members;
      forall k | k in KeySet(ms) ensures Signature(Lookup(ms, k)) == Signature(Lookup(ns, k)) {
        SignatureReordered(Lookup(ms, k), Lookup(ns, k));
      }
      FirstKey(ms);
      FirstKey(ns);
      if ms != [] {
        assert MemberParts(ms) == MemberParts(ns);
      }
    case _ =>
  }

  lemma {:induction false} ReorderedReflexive(v: Json)
    ensures Reordered(v, v)
  {
    match v
    case Arr(xs) =>
      forall i | 0 <= i < |xs| ensures Reordered(xs[i], xs[i]) {
        ReorderedReflexive(xs[i]);
      }
    case Obj(ms) =>
      forall k | k in KeySet(ms) ensures Reordered(Lookup(ms, k), Lookup(ms, k)) {
        ReorderedReflexive(Lookup(ms, k));
      }
    case _ =>
  }

  /** A dict whose entries are a permutation of another's, with distinct keys,
      differs from it only in key order. */
  lemma PermutedMembers(ms: seq<(string, Json)>, ns: seq<(string, Json)>)
    requires DistinctKeys(ms) && DistinctKeys(ns) && multiset(ms) == multiset(ns)
    ensures Reordered(Obj(ms), Obj(ns))
    ensures Signature(Obj(ms)) == Signature(Obj(ns))
  {
    forall k | k in KeySet(ms) ensures k in KeySet(ns) && Lookup(ms, k) == Lookup(ns, k) {
      var i :| 0 <= i < |ms| && ms[i].0 == k;
      assert ms[i] in multiset(ns);
      var j :| 0 <= j < |ns| && ns[j] == ms[i];
      LookupDistinct(ms, i);
      LookupDistinct(ns, j);
    }
    forall k | k in KeySet(ns) ensures k in KeySet(ms) {
      var j :| 0 <= j < |ns| && ns[j].0 == k;
      assert ns[j] in multiset(ms);
    }
    forall k | k in KeySet(ms) ensures Reordered(Lookup(ms, k), Lookup(ns, k)) {
      ReorderedReflexive(Lookup(ms, k));
    }
    SignatureReordered(Obj(ms), Obj(ns));
  }

  // ---------------------------------------------------------------------
  // Complexity: how many `:`, `[` and `{` a signature holds.

  function Complexity(sig: string): nat {
    CountChar(sig, ':') + CountChar(sig, '[') + CountChar(sig, '{')
  }

  lemma CountCharAt(s: string, i: nat)
    requires i < |s|
    ensures CountChar(s, s[i]) >= 1
  {
  }

  /** Scalars have complexity 0; lists and objects at least 1. */
  lemma ComplexityOfKinds(v: Json)
    ensures Complexity(Signature(v)) == 0 <==> !IsContainer(v)
  {
    if IsContainer(v) {
      ContainerComplexity(v);
    } else {
      ScalarComplexity(v);
    }
  }

  lemma ContainerComplexity(v: Json)
    requires IsContainer(v)
    ensures Complexity(Signature(v)) > 0
  {
    if v.Arr? {
      ListSignatureShape(v.elems);
      StructureCharAt(Signature(v), "array[");
    } else {
      ObjectSignatureShape(v.members);
      StructureCharAt(Signature(v), "object{");
    }
  }

  lemma ScalarComplexity(v: Json)
    requires !IsContainer(v)
    ensures Complexity(Signature(v)) == 0
  {
    var r := Signature(v);
    assert r in {"null", "boolean", "integer", "number", "string"};
    assert forall i :: 0 <= i < |r| ==> 'a' <= r[i] <= 'z';
    LowerWord(r);
  }

  lemma StructureCharAt(r: string, prefix: string)
    requires prefix in {"array[", "object{"} && StartsWith(r, prefix)
    ensures Complexity(r) > 0
  {
    var i := |prefix| - 1;
    assert r[i] == r[..|prefix|][i] == prefix[i];
    CountCharAt(r, i);
  }

  lemma LowerWord(s: string)
    requires forall i :: 0 <= i < |s| ==> 'a' <= s[i] <= 'z'
    ensures Complexity(s) == 0
  {
  }

  lemma {:induction false} JoinCountsParts(parts: seq<string>, sep: string, c: char)
    requires forall i :: 0 <= i < |parts| ==> CountChar(parts[i], c) >= 1
    ensures CountChar(Join(parts, sep), c) >= |parts|
  {
    if |parts| >= 2 {
      JoinCountsParts(parts[1..], sep, c);
      CountCharAppend(parts[0], sep, c);
      CountCharAppend(parts[0] + sep, Join(parts[1..], sep), c);
    }
  }

  /** An object's complexity is at least one more than its number of keys. */
  lemma ObjectComplexity(ms: seq<(string, Json)>)
    requires ms != []
    ensures Complexity(Signature(Obj(ms))) >= |KeySet(ms)| + 1
  {
    var parts := MemberParts(ms);
    var keys := SortStrings(KeySet(ms));
    forall j | 0 <= j < |parts| ensures CountChar(parts[j], ':') >= 1 {
      assert parts[j][|keys[j]|] == ':';
      CountCharAt(parts[j], |keys[j]|);
    }
    JoinCountsParts(parts, ",", ':');
    var r := Signature(Obj(ms));
    var body := Join(parts, ",");
    assert r == "object{" + body + "}";
    CountCharAppend("object{", body, ':');
    CountCharAppend("object{" + body, "}", ':');
    CountCharAppend("object{", body, '{');
    CountCharAppend("object{" + body, "}", '{');
    CountCharAt("object{", 6);
  }

  /** Wrapping a uniform list adds exactly one to its elements' complexity. */
  lemma UniformListComplexity(xs: seq<Json>, s: string)
    requires xs != []
    requires forall i :: 0 <= i < Min(SignedElements, |xs|) ==> Signature(xs[i]) == s
    ensures Complexity(Signature(Arr(xs))) == Complexity(s) + 1
  {
    UniformListSignature(xs, s);
    BracketsComplexity(s);
  }

  lemma BracketsComplexity(s: string)
    ensures Complexity("array[" + s + "]") == Complexity(s) + 1
  {
    WrapCount(s, ':');
    WrapCount(s, '[');
    WrapCount(s, '{');
  }

  lemma WrapCount(s: string, c: char)
    ensures CountChar("array[" + s + "]", c) == CountChar("array[", c) + CountChar(s, c) + CountChar("]", c)
  {
    CountCharAppend("array[", s, c);
    CountCharAppend("array[" + s, "]", c);
  }

  // ---------------------------------------------------------------------
  // Occurrence buckets of the summary.

  datatype OccurrenceBucket = Once | TwoToFive | SixToTen | ElevenToFifty | OverFifty

  /** The bucket `get_type_summary` files a type under by its count. */
  function Bucket(count: int): (b: OccurrenceBucket)
    ensures count >= 1 ==>
              (b == Once <==> count == 1)
              && (b == TwoToFive <==> 2 <= count <= 5)
              && (b == SixToTen <==> 6 <= count <= 10)
              && (b == ElevenToFifty <==> 11 <= count <= 50)
              && (b == OverFifty <==> count > 50)
  {
    if count == 1 then Once
    else if count <= 5 then TwoToFive
    else if count <= 10 then SixToTen
    else if count <= 50 then ElevenToFifty
    else OverFifty
  }

  function BucketRank(b: OccurrenceBucket): nat {
    match b
    case Once => 0
    case TwoToFive => 1
    case SixToTen => 2
    case ElevenToFifty => 3
    case OverFifty => 4
  }

  /** More occurrences never land in a lower bucket. */
  lemma BucketMonotone(c1: int, c2: int)
    requires 1 <= c1 <= c2
    ensures BucketRank(Bucket(c1)) <= BucketRank(Bucket(c2))
  {
  }

  /** Every label falls in exactly one bucket, so the bucket tallies add up. */
  lemma {:induction false} BucketTotals(labels: seq<OccurrenceBucket>)
    ensures Occurrences(labels, Once) + Occurrences(labels, TwoToFive) + Occurrences(labels, SixToTen)
            + Occurrences(labels, ElevenToFifty) + Occurrences(labels, OverFifty) == |labels|
  {
    if labels != [] {
      BucketTotals(labels[..|labels| - 1]);
      match labels[|labels| - 1]
      case Once =>
      case TwoToFive =>
      case SixToTen =>
      case ElevenToFifty =>
      case OverFifty =>
    }
  }

  // ---------------------------------------------------------------------
  // The type table.

  /** One `ObjectType` without its key: how often it was seen, and its examples. */
  datatype TypeRecord = TypeRecord(count: nat, examples: seq<Json>)

  /** The analyzer's table: signatures in insertion order, their records and the object total. */
  datatype TypeTable = TypeTable(order: seq<string>, types: map<string, TypeRecord>, total: nat)

  const EmptyTable := TypeTable([], map[], 0)

  /** `ObjectType.add_example`: count every object, keep it only below the cap. */
  function WithExample(t: TypeRecord, obj: Json, maxExamples: int): TypeRecord {
    TypeRecord(t.count + 1, if |t.examples| < maxExamples then t.examples + [obj] else t.examples)
  }

  function WithExamples(t: TypeRecord, objs: seq<Json>, maxExamples: int): TypeRecord {
    if objs == [] then t
    else WithExample(WithExamples(t, objs[..|objs| - 1], maxExamples), objs[|objs| - 1], maxExamples)
  }

  /** Adding objects one by one counts them all and keeps the first ones up to the cap. */
  lemma {:induction false} WithExamplesKeepsFirst(t: TypeRecord, objs: seq<Json>, maxExamples: int)
    ensures var r := WithExamples(t, objs, maxExamples);
            r.count == t.count + |objs|
            && r.examples == t.examples + objs[..Max(0, Min(maxExamples - |t.examples|, |objs|))]
  {
    if objs != [] {
      var init := objs[..|objs| - 1];
      WithExamplesKeepsFirst(t, init, maxExamples);
      var k := Max(0, Min(maxExamples - |t.examples|, |init|));
      assert init[..k] == objs[..k];
      var k' := Max(0, Min(maxExamples - |t.examples|, |objs|));
      if k' == k + 1 {
        assert objs[..k'] == objs[..k] + [objs[|objs| - 1]];
      }
    }
  }

  function CountOf(tab: TypeTable, sig: string): nat {
    if sig in tab.types then tab.types[sig].count else 0
  }

  /** `analyze_object`: non-objects are ignored; an object raises the total and its signature's count. */
  function Analyzed(tab: TypeTable, v: Json, maxExamples: int): (r: TypeTable)
    ensures !v.Obj? ==> r == tab
    ensures v.Obj? ==> r.total == tab.total + 1 && r.types.Keys == tab.types.Keys + {Signature(v)}
  {
    if !v.Obj? then tab
    else
      var sig := Signature(v);
      var rec := if sig in tab.types then tab.types[sig] else TypeRecord(0, []);
      TypeTable(if sig in tab.types then tab.order else tab.order + [sig],
                tab.types[sig := WithExample(rec, v, maxExamples)],
                tab.total + 1)
  }

  /** Exactly one count goes up, the one of the object's signature. */
  lemma AnalyzedCount(tab: TypeTable, v: Json, maxExamples: int, k: string)
    ensures CountOf(Analyzed(tab, v, maxExamples), k) == CountOf(tab, k) + (if v.Obj? && k == Signature(v) then 1 else 0)
  {
  }

  function SumCounts(order: seq<string>, types: map<string, TypeRecord>): nat
    requires forall k :: k in order ==> k in types
  {
    if order == [] then 0
    else SumCounts(order[..|order| - 1], types) + types[order[|order| - 1]].count
  }

  /** A type seen at least once, with at most the cap of examples, each an object of its signature. */
  ghost predicate RecordOk(sig: string, t: TypeRecord, maxExamples: int) {
    t.count >= 1 && |t.examples| <= t.count && |t.examples| <= Max(0, maxExamples)
    && forall e :: e in t.examples ==> e.Obj? && Signature(e) == sig
  }

  lemma WithExampleKeepsOk(sig: string, t: TypeRecord, v: Json, maxExamples: int)
    requires t == TypeRecord(0, []) || RecordOk(sig, t, maxExamples)
    requires v.Obj? && Signature(v) == sig
    ensures RecordOk(sig, WithExample(t, v, maxExamples), maxExamples)
  {
  }

  /**
   * The table's invariant: every signature listed once, in insertion order;
   * every type seen at least once, with at most the cap of examples, each an
   * object of that signature; and the total the sum of the counts.
   */
  ghost predicate TableOk(tab: TypeTable, maxExamples: int) {
    Distinct(tab.order)
    && (forall k :: k in tab.types <==> k in tab.order)
    && (forall k :: k in tab.types ==> RecordOk(k, tab.types[k], maxExamples))
    && tab.total == SumCounts(tab.order, tab.types)
  }

  lemma {:induction false} SumCountsFrame(order: seq<string>, t1: map<string, TypeRecord>, t2: map<string, TypeRecord>)
    requires forall k :: k in order ==> k in t1 && k in t2 && t1[k].count == t2[k].count
    ensures SumCounts(order, t1) == SumCounts(order, t2)
  {
    if order != [] {
      SumCountsFrame(order[..|order| - 1], t1, t2);
    }
  }

  lemma {:induction false} SumCountsBump(order: seq<string>, types: map<string, TypeRecord>, sig: string, rec: TypeRecord)
    requires forall k :: k in order ==> k in types
    requires Distinct(order) && sig in order
    ensures SumCounts(order, types[sig := rec]) + types[sig].count == SumCounts(order, types) + rec.count
  {
    var init := order[..|order| - 1];
    PrefixSnoc(order, |order| - 1);
    assert order[..|order|] == order;
    if order[|order| - 1] == sig {
      SumCountsFrame(init, types[sig := rec], types);
    } else {
      SumCountsBump(init, types, sig, rec);
    }
  }

  lemma AnalyzedKeepsOk(tab: TypeTable, v: Json, maxExamples: int)
    requires TableOk(tab, maxExamples)
    ensures TableOk(Analyzed(tab, v, maxExamples), maxExamples)
  {
    if v.Obj? {
      if Signature(v) in tab.types {
        AnalyzedKnownKeepsOk(tab, v, maxExamples);
      } else {
        AnalyzedNewKeepsOk(tab, v, maxExamples);
      }
    }
  }

  lemma AnalyzedKnownKeepsOk(tab: TypeTable, v: Json, maxExamples: int)
    requires TableOk(tab, maxExamples) && v.Obj? && Signature(v) in tab.types
    ensures TableOk(Analyzed(tab, v, maxExamples), maxExamples)
  {
    var sig := Signature(v);
    var rec := WithExample(tab.types[sig], v, maxExamples);
    WithExampleKeepsOk(sig, tab.types[sig], v, maxExamples);
    assert Analyzed(tab, v, maxExamples) == TypeTable(tab.order, tab.types[sig := rec], tab.total + 1);
    SumCountsBump(tab.order, tab.types, sig, rec);
  }

  lemma AnalyzedNewKeepsOk(tab: TypeTable, v: Json, maxExamples: int)
    requires TableOk(tab, maxExamples) && v.Obj? && Signature(v) !in tab.types
    ensures TableOk(Analyzed(tab, v, maxExamples), maxExamples)
  {
    var sig := Signature(v);
    var rec := WithExample(TypeRecord(0, []), v, maxExamples);
    var order := tab.order + [sig];
    var types := tab.types[sig := rec];
    WithExampleKeepsOk(sig, TypeRecord(0, []), v, maxExamples);
    assert Analyzed(tab, v, maxExamples) == TypeTable(order, types, tab.total + 1);
    SumCountsFrame(tab.order, types, tab.types);
    assert order[..|tab.order|] == tab.order;
    PrefixSnoc(order, |tab.order|);
    assert SumCounts(order, types) == SumCounts(tab.order, types) + 1;
  }

  /** `analyze_object` over several values in turn. */
  function AnalyzedAll(tab: TypeTable, objs: seq<Json>, maxExamples: int): TypeTable {
    if objs == [] then tab
    else Analyzed(AnalyzedAll(tab, objs[..|objs| - 1], maxExamples), objs[|objs| - 1], maxExamples)
  }

  lemma {:induction false} AnalyzedAllAppend(tab: TypeTable, a: seq<Json>, b: seq<Json>, maxExamples: int)
    ensures AnalyzedAll(tab, a + b, maxExamples) == AnalyzedAll(AnalyzedAll(tab, a, maxExamples), b, maxExamples)
  {
    if b == [] {
      assert a + b == a;
    } else {
      AnalyzedAllAppend(tab, a, b[..|b| - 1], maxExamples);
      assert (a + b)[..|a + b| - 1] == a + b[..|b| - 1];
    }
  }

  lemma {:induction false} AnalyzedAllKeepsOk(tab: TypeTable, objs: seq<Json>, maxExamples: int)
    requires TableOk(tab, maxExamples)
    ensures TableOk(AnalyzedAll(tab, objs, maxExamples), maxExamples)
  {
    if objs != [] {
      AnalyzedAllKeepsOk(tab, objs[..|objs| - 1], maxExamples);
      AnalyzedKeepsOk(AnalyzedAll(tab, objs[..|objs| - 1], maxExamples), objs[|objs| - 1], maxExamples);
    }
  }

  function Signatures(objs: seq<Json>): (sigs: seq<string>)
    ensures |sigs| == |objs|
  {
    seq(|objs|, i requires 0 <= i < |objs| => Signature(objs[i]))
  }

  /** Analysing objects raises the total by their number and each count by the
      number of them with that signature. */
  lemma AnalyzedAllCounts(tab: TypeTable, objs: seq<Json>, maxExamples: int)
    requires forall i :: 0 <= i < |objs| ==> objs[i].Obj?
    ensures var r := AnalyzedAll(tab, objs, maxExamples);
            r.total == tab.total + |objs|
            && forall k :: CountOf(r, k) == CountOf(tab, k) + Occurrences(Signatures(objs), k)
  {
    AnalyzedAllTotal(tab, objs, maxExamples);
    forall k ensures CountOf(AnalyzedAll(tab, objs, maxExamples), k) == CountOf(tab, k) + Occurrences(Signatures(objs), k) {
      AnalyzedAllCountOf(tab, objs, maxExamples, k);
    }
  }

  lemma {:induction false} AnalyzedAllTotal(tab: TypeTable, objs: seq<Json>, maxExamples: int)
    requires forall i :: 0 <= i < |objs| ==> objs[i].Obj?
    ensures AnalyzedAll(tab, objs, maxExamples).total == tab.total + |objs|
  {
    if objs != [] {
      AnalyzedAllTotal(tab, objs[..|objs| - 1], maxExamples);
    }
  }

  lemma {:induction false} AnalyzedAllCountOf(tab: TypeTable, objs: seq<Json>, maxExamples: int, k: string)
    requires forall i :: 0 <= i < |objs| ==> objs[i].Obj?
    ensures CountOf(AnalyzedAll(tab, objs, maxExamples), k) == CountOf(tab, k) + Occurrences(Signatures(objs), k)
  {
    if objs != [] {
      var init := objs[..|objs| - 1];
      var last := objs[|objs| - 1];
      AnalyzedAllCountOf(tab, init, maxExamples, k);
      AnalyzedCount(AnalyzedAll(tab, init, maxExamples), last, maxExamples, k);
      var sigs := Signatures(objs);
      assert sigs[..|objs| - 1] == Signatures(init);
      assert Occurrences(sigs, k) == Occurrences(Signatures(init), k) + (if Signature(last) == k then 1 else 0);
    }
  }

  // ---------------------------------------------------------------------
  // The recursive walk.

  /** The objects `_analyze_recursive(v, depth)` hands to `analyze_object`, in order:
      an object before its values, list elements all of them. */
  function Visited(v: Json, depth: int): seq<Json> {
    if depth <= 0 then []
    else match v
      case Obj(ms) => [v] + Flatten(seq(|ms|, i requires 0 <= i < |ms| => Visited(ms[i].1, depth - 1)))
      case Arr(xs) => Flatten(seq(|xs|, i requires 0 <= i < |xs| => Visited(xs[i], depth - 1)))
      case _ => []
  }

  /** Every object nested anywhere in a value, with no depth bound. */
  function AllObjects(v: Json): seq<Json> {
    match v
    case Obj(ms) => [v] + Flatten(seq(|ms|, i requires 0 <= i < |ms| => AllObjects(ms[i].1)))
    case Arr(xs) => Flatten(seq(|xs|, i requires 0 <= i < |xs| => AllObjects(xs[i])))
    case _ => []
  }

  /** A value whose containers are nested at most `depth` deep. */
  predicate NestedWithin(v: Json, depth: int) {
    match v
    case Obj(ms) => depth >= 1 && forall i :: 0 <= i < |ms| ==> NestedWithin(ms[i].1, depth - 1)
    case Arr(xs) => depth >= 1 && forall i :: 0 <= i < |xs| ==> NestedWithin(xs[i], depth - 1)
    case _ => true
  }

  lemma FlattenAll<T>(chunks: seq<seq<T>>, p: T -> bool)
    requires forall i, x :: 0 <= i < |chunks| && x in chunks[i] ==> p(x)
    ensures forall x :: x in Flatten(chunks) ==> p(x)
  {
    if chunks != [] {
      FlattenAll(chunks[..|chunks| - 1], p);
    }
  }

  /** The walk hands over only objects, so each of them is counted. */
  lemma {:induction false} VisitedAreObjects(v: Json, depth: int)
    ensures forall x :: x in Visited(v, depth) ==> x.Obj?
  {
    if depth > 0 {
      match v
      case Obj(ms) =>
        var chunks := seq(|ms|, i requires 0 <= i < |ms| => Visited(ms[i].1, depth - 1));
        forall i | 0 <= i < |ms| { VisitedAreObjects(ms[i].1, depth - 1); }
        FlattenAll(chunks, (x: Json) => x.Obj?);
      case Arr(xs) =>
        var chunks := seq(|xs|, i requires 0 <= i < |xs| => Visited(xs[i], depth - 1));
        forall i | 0 <= i < |xs| { VisitedAreObjects(xs[i], depth - 1); }
        FlattenAll(chunks, (x: Json) => x.Obj?);
      case _ =>
    }
  }

  /** Within the depth bound the walk finds every nested object, in every list element. */
  lemma {:induction false} VisitedWithinDepth(v: Json, depth: int)
    requires NestedWithin(v, depth)
    ensures Visited(v, depth) == AllObjects(v)
  {
    match v
    case Obj(ms) =>
      forall i | 0 <= i < |ms| ensures Visited(ms[i].1, depth - 1) == AllObjects(ms[i].1) {
        VisitedWithinDepth(ms[i].1, depth - 1);
      }
      assert seq(|ms|, i requires 0 <= i < |ms| => Visited(ms[i].1, depth - 1))
          == seq(|ms|, i requires 0 <= i < |ms| => AllObjects(ms[i].1));
    case Arr(xs) =>
      forall i | 0 <= i < |xs| ensures Visited(xs[i], depth - 1) == AllObjects(xs[i]) {
        VisitedWithinDepth(xs[i], depth - 1);
      }
      assert seq(|xs|, i requires 0 <= i < |xs| => Visited(xs[i], depth - 1))
          == seq(|xs|, i requires 0 <= i < |xs| => AllObjects(xs[i]));
    case _ =>
  }

  /** The depth budget of `analyze_record`. */
  const RecordDepth := 20

  /** `analyze_record`: the table after walking one record. */
  function RecordAnalyzed(tab: TypeTable, record: Json, maxExamples: int): (r: TypeTable)
    ensures TableOk(tab, maxExamples) ==> TableOk(r, maxExamples)
    ensures r.total == tab.total + |Visited(record, RecordDepth)|
    ensures forall k :: CountOf(r, k) == CountOf(tab, k) + Occurrences(Signatures(Visited(record, RecordDepth)), k)
  {
    var objs := Visited(record, RecordDepth);
    VisitedAreObjects(record, RecordDepth);
    AnalyzedAllCounts(tab, objs, maxExamples);
    assert TableOk(tab, maxExamples) ==> TableOk(AnalyzedAll(tab, objs, maxExamples), maxExamples) by {
      if TableOk(tab, maxExamples) {
        AnalyzedAllKeepsOk(tab, objs, maxExamples);
      }
    }
    AnalyzedAll(tab, objs, maxExamples)
  }

  // ---------------------------------------------------------------------
  // The summary figures.

  /** The complexity of each type, in table order. */
  function ComplexityLabels(order: seq<string>): (r: seq<nat>)
    ensures |r| == |order|
  {
    seq(|order|, i requires 0 <= i < |order| => Complexity(order[i]))
  }

  /** The occurrence bucket of each type, in table order. */
  function BucketLabels(tab: TypeTable): (r: seq<OccurrenceBucket>)
    requires forall k :: k in tab.order ==> k in tab.types
    ensures |r| == |tab.order|
  {
    seq(|tab.order|, i requires 0 <= i < |tab.order| => Bucket(tab.types[tab.order[i]].count))
  }

  /** The occurrence counter adds up to the number of types. */
  lemma OccurrenceSummaryTotal(tab: TypeTable, maxExamples: int)
    requires TableOk(tab, maxExamples)
    ensures var m := Tally(BucketLabels(tab));
            (if Once in m then m[Once] else 0) + (if TwoToFive in m then m[TwoToFive] else 0)
            + (if SixToTen in m then m[SixToTen] else 0) + (if ElevenToFifty in m then m[ElevenToFifty] else 0)
            + (if OverFifty in m then m[OverFifty] else 0) == |tab.types|
  {
    var labels := BucketLabels(tab);
    TallyCounts(labels);
    BucketTotals(labels);
    DistinctCard(tab.order, tab.types.Keys);
  }

  lemma {:induction false} DistinctCard(order: seq<string>, keys: set<string>)
    requires Distinct(order) && forall k :: k in keys <==> k in order
    ensures |keys| == |order|
  {
    if order != [] {
      var last := order[|order| - 1];
      PrefixSnoc(order, |order| - 1);
      assert order[..|order|] == order;
      DistinctCard(order[..|order| - 1], keys - {last});
    }
  }
}
