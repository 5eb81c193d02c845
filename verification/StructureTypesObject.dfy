// The T02 analyzer as the objects it is made of
// (src/claude-code-analyzer/tasks/T02_message_structure_type/type_analyzer.py):
// an `ObjectType` updated in place by `add_example`, and the analyzer
// whose table of object types and object total grow with every record it
// walks. Each method is proved against the functions of StructureTypes.

module StructureTypesObject {
  import opened Text
  import opened JsonModel
  import opened Ordering
  import opened StructureTypes

  /** The objects of one signature seen so far. */
  class ObjectType {
    const signature: string
    var count: nat
    var examples: seq<Json>

    constructor (signature: string)
      ensures this.signature == signature && Record() == TypeRecord(0, [])
    {
      this.signature := signature;
      count := 0;
      examples := [];
    }

    function Record(): TypeRecord
      reads this
    {
      TypeRecord(count, examples)
    }

    /** `add_example`: always counted, kept only while below the cap. */
    method AddExample(obj: Json, maxExamples: int)
      modifies this
      ensures Record() == WithExample(old(Record()), obj, maxExamples)
    {
      count := count + 1;
      if |examples| < maxExamples {
        examples := examples + [obj];
      }
    }
  }

  class ObjectTypeAnalyzer {
    const maxExamples: int
    var objectTypes: map<string, ObjectType>
    /** The signatures in the order they entered `objectTypes`. */
    var order: seq<string>
    var totalObjects: nat
    var totalFiles: nat

    ghost function Types(): map<string, TypeRecord>
      reads this`objectTypes, objectTypes.Values
    {
      map k | k in objectTypes :: objectTypes[k].Record()
    }

    ghost function Snapshot(): TypeTable
      reads this, objectTypes.Values
    {
      TypeTable(order, Types(), totalObjects)
    }

    /** Every signature has its own `ObjectType`, filed under that signature. */
    ghost predicate Filed()
      reads this, objectTypes.Values
    {
      (forall k1, k2 :: k1 in objectTypes && k2 in objectTypes && k1 != k2 ==> objectTypes[k1] != objectTypes[k2])
      && (forall k :: k in objectTypes ==> objectTypes[k].signature == k)
    }

    ghost predicate Valid()
      reads this, objectTypes.Values
    {
      Filed() && TableOk(Snapshot(), maxExamples)
    }

    constructor (maxExamples: int)
      ensures Valid() && Snapshot() == EmptyTable && totalFiles == 0
      ensures this.maxExamples == maxExamples
    {
      this.maxExamples := maxExamples;
      objectTypes := map[];
      order := [];
      totalObjects := 0;
      totalFiles := 0;
    }

    /** `analyze_object`. */
    method AnalyzeObject(v: Json)
      requires Valid()
      modifies this, objectTypes.Values
      ensures Valid()
      ensures Snapshot() == Analyzed(old(Snapshot()), v, maxExamples)
      ensures totalFiles == old(totalFiles)
      ensures forall o :: o in objectTypes.Values ==> o in old(objectTypes.Values) || fresh(o)
    {
      ghost var start := Snapshot();
      if !v.Obj? {
        return;
      }
      var sig := Signature(v);
      assert sig in start.types <==> sig in objectTypes;
      FileUnder(sig, v);
      totalObjects := totalObjects + 1;
      assert Snapshot() == Analyzed(start, v, maxExamples);
      AnalyzedKeepsOk(start, v, maxExamples);
    }

    /** The object counted under its signature, which is filed first when new. */
    method FileUnder(sig: string, v: Json)
      requires Filed()
      modifies this, objectTypes.Values
      ensures Filed() && sig in objectTypes
      ensures var before := old(Types());
        Types() == before[sig := WithExample(if sig in before then before[sig] else TypeRecord(0, []), v, maxExamples)]
      ensures order == if sig in old(objectTypes) then old(order) else old(order) + [sig]
      ensures totalObjects == old(totalObjects) && totalFiles == old(totalFiles)
      ensures forall o :: o in objectTypes.Values ==> o in old(objectTypes.Values) || fresh(o)
    {
      ghost var before := Types();
      ghost var rec := if sig in before then before[sig] else TypeRecord(0, []);
      if sig !in objectTypes {
        NewType(sig);
      }
      ghost var mid := Types();
      assert mid[sig] == rec;
      CountUnder(sig, v);
      assert Types() == mid[sig := WithExample(rec, v, maxExamples)];
      MapUpdateTwice(before, sig, rec, WithExample(rec, v, maxExamples));
      if sig in before {
        assert mid == before;
      }
    }

    /** Overwriting an entry twice is overwriting it with the last value. */
    static lemma MapUpdateTwice<V>(m: map<string, V>, k: string, a: V, b: V)
      ensures m[k := a][k := b] == m[k := b]
    {
    }

    /** A fresh, empty `ObjectType` filed under a new signature. */
    method NewType(sig: string)
      requires Filed() && sig !in objectTypes
      modifies this
      ensures Filed() && sig in objectTypes
      ensures Types() == old(Types())[sig := TypeRecord(0, [])] && order == old(order) + [sig]
      ensures totalObjects == old(totalObjects) && totalFiles == old(totalFiles)
      ensures forall o :: o in objectTypes.Values ==> o in old(objectTypes.Values) || fresh(o)
    {
      var t := new ObjectType(sig);
      objectTypes := objectTypes[sig := t];
      order := order + [sig];
    }

    /** `object_types[sig].add_example(obj, max_examples)`. */
    method CountUnder(sig: string, v: Json)
      requires Filed() && sig in objectTypes
      modifies objectTypes[sig]
      ensures Filed()
      ensures Types() == old(Types())[sig := WithExample(old(Types())[sig], v, maxExamples)]
    {
      var t := objectTypes[sig];
      t.AddExample(v, maxExamples);
    }

    /** `_analyze_recursive(value, depth)`. */
    method AnalyzeRecursive(value: Json, depth: int)
      requires Valid()
      modifies this, objectTypes.Values
      ensures Valid()
      ensures Snapshot() == AnalyzedAll(old(Snapshot()), Visited(value, depth), maxExamples)
      ensures totalFiles == old(totalFiles)
      ensures forall o :: o in objectTypes.Values ==> o in old(objectTypes.Values) || fresh(o)
      decreases value, 1
    {
      if depth <= 0 {
        return;
      }
      match value
      case Obj(ms) =>
        ghost var start := Snapshot();
        AnalyzeObject(value);
        assert AnalyzedAll(start, [value], maxExamples) == Analyzed(start, value, maxExamples) by {
          assert [value][..0] == [];
        }
        ghost var children := Flatten(seq(|ms|, i requires 0 <= i < |ms| => Visited(ms[i].1, depth - 1)));
        assert Visited(value, depth) == [value] + children;
        AnalyzeChildren(value, ms, depth);
        AnalyzedAllAppend(start, [value], children, maxExamples);
      case Arr(xs) =>
        AnalyzeElements(value, xs, depth);
      case _ =>
    }

    method AnalyzeChildren(value: Json, ms: seq<(string, Json)>, depth: int)
      requires value == Obj(ms) && depth > 0
      requires Valid()
      modifies this, objectTypes.Values
      ensures Valid()
      ensures Snapshot() == AnalyzedAll(old(Snapshot()), Flatten(seq(|ms|, i requires 0 <= i < |ms| => Visited(ms[i].1, depth - 1))), maxExamples)
      ensures totalFiles == old(totalFiles)
      ensures forall o :: o in objectTypes.Values ==> o in old(objectTypes.Values) || fresh(o)
      decreases value, 0
    {
      var chunks := seq(|ms|, i requires 0 <= i < |ms| => Visited(ms[i].1, depth - 1));
      ghost var start := Snapshot();
      for i := 0 to |ms|
        invariant Valid()
        invariant Snapshot() == AnalyzedAll(start, Flatten(chunks[..i]), maxExamples)
        invariant totalFiles == old(totalFiles)
        invariant forall o :: o in objectTypes.Values ==> o in old(objectTypes.Values) || fresh(o)
      {
        AnalyzeRecursive(ms[i].1, depth - 1);
        FlattenSnoc(chunks, i);
        AnalyzedAllAppend(start, Flatten(chunks[..i]), chunks[i], maxExamples);
      }
      assert chunks[..|ms|] == chunks;
    }

    method AnalyzeElements(value: Json, xs: seq<Json>, depth: int)
      requires value == Arr(xs) && depth > 0
      requires Valid()
      modifies this, objectTypes.Values
      ensures Valid()
      ensures Snapshot() == AnalyzedAll(old(Snapshot()), Flatten(seq(|xs|, i requires 0 <= i < |xs| => Visited(xs[i], depth - 1))), maxExamples)
      ensures totalFiles == old(totalFiles)
      ensures forall o :: o in objectTypes.Values ==> o in old(objectTypes.Values) || fresh(o)
      decreases value, 0
    {
      var chunks := seq(|xs|, i requires 0 <= i < |xs| => Visited(xs[i], depth - 1));
      ghost var start := Snapshot();
      for i := 0 to |xs|
        invariant Valid()
        invariant Snapshot() == AnalyzedAll(start, Flatten(chunks[..i]), maxExamples)
        invariant totalFiles == old(totalFiles)
        invariant forall o :: o in objectTypes.Values ==> o in old(objectTypes.Values) || fresh(o)
      {
        AnalyzeRecursive(xs[i], depth - 1);
        FlattenSnoc(chunks, i);
        AnalyzedAllAppend(start, Flatten(chunks[..i]), chunks[i], maxExamples);
      }
      assert chunks[..|xs|] == chunks;
    }

    /** `analyze_record`: walk a record with the default depth budget. */
    method AnalyzeRecord(record: Json)
      requires Valid()
      modifies this, objectTypes.Values
      ensures Valid()
      ensures Snapshot() == RecordAnalyzed(old(Snapshot()), record, maxExamples)
      ensures totalFiles == old(totalFiles)
    {
      AnalyzeRecursive(record, RecordDepth);
    }

    lemma Entries()
      requires Valid()
      ensures forall k :: k in order ==>
                k in objectTypes && objectTypes[k].signature == k
                && k in Snapshot().types && Snapshot().types[k].count == objectTypes[k].count
    {
    }

    /** The labels of the `i`th type, read off its object. */
    lemma Labels(i: nat)
      requires Valid() && i < |order|
      ensures order[i] in objectTypes
      ensures ComplexityLabels(order)[i] == Complexity(objectTypes[order[i]].signature)
      ensures BucketLabels(Snapshot())[i] == Bucket(objectTypes[order[i]].count)
    {
      Entries();
    }

    /**
     * The two counters of `get_type_summary`: types by complexity and types
     * by occurrence bucket, filled in table order.
     */
    method TypeSummary() returns (complexity: map<nat, nat>, occurrence: map<OccurrenceBucket, nat>)
      requires Valid()
      ensures complexity == Tally(ComplexityLabels(order))
      ensures occurrence == Tally(BucketLabels(Snapshot()))
    {
      ghost var tab := Snapshot();
      Entries();
      var clabels := ComplexityLabels(order);
      ghost var blabels := BucketLabels(tab);
      complexity := map[];
      occurrence := map[];
      for i := 0 to |order|
        invariant complexity == Tally(clabels[..i])
        invariant occurrence == Tally(blabels[..i])
      {
        Labels(i);
        var t := objectTypes[order[i]];
        var c := Complexity(t.signature);
        complexity := TallyNext(complexity, clabels, i, c);
        var b := Bucket(t.count);
        occurrence := TallyNext(occurrence, blabels, i, b);
      }
      assert clabels[..|order|] == clabels;
      assert blabels[..|order|] == blabels;
    }
  }
}
