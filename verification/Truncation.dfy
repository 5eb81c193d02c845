// The two ways the analyzers shorten values before storing them as
// examples: flattening a value to a bounded string (the CLI extractor, the
// T01 extractor and the merge runner's output step), and shortening every
// string leaf while keeping the nesting (the T02 analyzer and the base
// analyzer).

module ValueTruncation {
  import opened Text
  import opened JsonModel

  /** `value[:max_length] + "..."` applied to a string longer than the limit. */
  function Shorten(s: string, maxLength: nat): (r: string)
    requires |s| > maxLength
    ensures |r| == maxLength + 3 && EndsWith(r, "...") && r[..maxLength] == s[..maxLength]
  {
    s[..maxLength] + "..."
  }

  /**
   * A string is in truncated form when it is within the limit or is exactly
   * the limit's worth of text followed by "...".
   */
  predicate TruncatedForm(s: string, maxLength: nat) {
    |s| <= maxLength || (|s| == maxLength + 3 && EndsWith(s, "..."))
  }

  /**
   * Truncation for output: a long string is cut to the limit plus "...",
   * a dict or list becomes its printed form (cut the same way when long),
   * and anything else is returned unchanged.
   */
  function TruncateForOutput(v: Json, maxLength: nat): (r: Json)
    ensures IsContainer(v) ==> r.Str?
    ensures !IsContainer(v) ==> r.Str? == v.Str?
  {
    match v
    case Str(s) => if |s| > maxLength then Str(Shorten(s, maxLength)) else v
    case Arr(_) =>
      var printed := Repr(v);
      if |printed| > maxLength then Str(Shorten(printed, maxLength)) else Str(printed)
    case Obj(_) =>
      var printed := Repr(v);
      if |printed| > maxLength then Str(Shorten(printed, maxLength)) else Str(printed)
    case _ => v
  }

  /** What truncation for output promises about its result. */
  lemma TruncateForOutputShape(v: Json, maxLength: nat)
    ensures var r := TruncateForOutput(v, maxLength);
            (r.Str? ==> TruncatedForm(r.s, maxLength))
            && (v.Str? && |v.s| <= maxLength ==> r == v)
            && (v.Str? && |v.s| > maxLength ==> r.s[..maxLength] == v.s[..maxLength])
            && (!v.Str? && !IsContainer(v) ==> r == v)
            && (IsContainer(v) ==> StartsWith(Repr(v), r.s[..Min(|r.s|, maxLength)]))
  {
  }

  /** Truncating an already truncated value returns it unchanged. */
  lemma TruncateForOutputIdempotent(v: Json, maxLength: nat)
    ensures TruncateForOutput(TruncateForOutput(v, maxLength), maxLength) == TruncateForOutput(v, maxLength)
  {
    var r := TruncateForOutput(v, maxLength);
    if r.Str? && |r.s| > maxLength {
      assert r.s[..maxLength] + "..." == r.s;
    }
  }

  /** A value already in truncated form is its own truncation. */
  lemma TruncatedFormFixed(v: Json, maxLength: nat)
    requires v.Str? && TruncatedForm(v.s, maxLength)
    ensures TruncateForOutput(v, maxLength) == v
  {
    if |v.s| > maxLength {
      assert v.s[..maxLength] + "..." == v.s;
    }
  }

  /** `truncate_examples_list`: each example truncated, in order. */
  function TruncateExamplesList(examples: seq<Json>, maxLength: nat): (r: seq<Json>)
    ensures |r| == |examples|
    ensures forall i :: 0 <= i < |r| ==> r[i] == TruncateForOutput(examples[i], maxLength)
  {
    seq(|examples|, i requires 0 <= i < |examples| => TruncateForOutput(examples[i], maxLength))
  }

  lemma TruncateExamplesListIdempotent(examples: seq<Json>, maxLength: nat)
    ensures TruncateExamplesList(TruncateExamplesList(examples, maxLength), maxLength)
            == TruncateExamplesList(examples, maxLength)
  {
    forall i | 0 <= i < |examples| {
      TruncateForOutputIdempotent(examples[i], maxLength);
    }
  }

  // ---------------------------------------------------------------------
  // Structure-preserving truncation.

  /** Every string leaf cut to the limit plus "...", the nesting kept. */
  function TruncateStructure(v: Json, maxLength: nat): Json {
    match v
    case Str(s) => if |s| > maxLength then Str(Shorten(s, maxLength)) else v
    case Arr(xs) => Arr(seq(|xs|, i requires 0 <= i < |xs| => TruncateStructure(xs[i], maxLength)))
    case Obj(ms) => Obj(seq(|ms|, i requires 0 <= i < |ms| => (ms[i].0, TruncateStructure(ms[i].1, maxLength))))
    case _ => v
  }

  /** The value with every string emptied: what "the same structure" means. */
  function Skeleton(v: Json): Json {
    match v
    case Str(_) => Str("")
    case Arr(xs) => Arr(seq(|xs|, i requires 0 <= i < |xs| => Skeleton(xs[i])))
    case Obj(ms) => Obj(seq(|ms|, i requires 0 <= i < |ms| => (ms[i].0, Skeleton(ms[i].1))))
    case _ => v
  }

  predicate StringsWithin(v: Json, bound: nat) {
    match v
    case Str(s) => |s| <= bound
    case Arr(xs) => forall i :: 0 <= i < |xs| ==> StringsWithin(xs[i], bound)
    case Obj(ms) => forall i :: 0 <= i < |ms| ==> StringsWithin(ms[i].1, bound)
    case _ => true
  }

  /** Structure-preserving truncation keeps keys, order, lengths and kinds. */
  lemma {:induction false} TruncateStructureKeepsSkeleton(v: Json, maxLength: nat)
    ensures Skeleton(TruncateStructure(v, maxLength)) == Skeleton(v)
  {
    match v
    case Arr(xs) =>
      forall i | 0 <= i < |xs| {
        TruncateStructureKeepsSkeleton(xs[i], maxLength);
      }
    case Obj(ms) =>
      forall i | 0 <= i < |ms| {
        TruncateStructureKeepsSkeleton(ms[i].1, maxLength);
      }
    case _ =>
  }

  /** Every string leaf of the result is at most the limit plus three long. */
  lemma {:induction false} TruncateStructureBounded(v: Json, maxLength: nat)
    ensures StringsWithin(TruncateStructure(v, maxLength), maxLength + 3)
  {
    match v
    case Arr(xs) =>
      forall i | 0 <= i < |xs| {
        TruncateStructureBounded(xs[i], maxLength);
      }
    case Obj(ms) =>
      forall i | 0 <= i < |ms| {
        TruncateStructureBounded(ms[i].1, maxLength);
      }
    case _ =>
  }

  /** A value whose strings are all within the limit is left as it is. */
  lemma {:induction false} TruncateStructureShortUnchanged(v: Json, maxLength: nat)
    requires StringsWithin(v, maxLength)
    ensures TruncateStructure(v, maxLength) == v
  {
    match v
    case Arr(xs) =>
      forall i | 0 <= i < |xs| ensures TruncateStructure(xs[i], maxLength) == xs[i] {
        TruncateStructureShortUnchanged(xs[i], maxLength);
      }
      assert TruncateStructure(v, maxLength).elems == xs;
    case Obj(ms) =>
      forall i | 0 <= i < |ms| ensures TruncateStructure(ms[i].1, maxLength) == ms[i].1 {
        TruncateStructureShortUnchanged(ms[i].1, maxLength);
      }
      assert TruncateStructure(v, maxLength).members == ms;
    case _ =>
  }

  /** Truncating twice is truncating once. */
  lemma {:induction false} TruncateStructureIdempotent(v: Json, maxLength: nat)
    ensures TruncateStructure(TruncateStructure(v, maxLength), maxLength) == TruncateStructure(v, maxLength)
  {
    match v
    case Str(s) =>
      if |s| > maxLength {
        var r := Shorten(s, maxLength);
        assert r[..maxLength] + "..." == r;
      }
    case Arr(xs) =>
      var t := TruncateStructure(v, maxLength);
      forall i | 0 <= i < |xs| ensures TruncateStructure(t.elems[i], maxLength) == t.elems[i] {
        TruncateStructureIdempotent(xs[i], maxLength);
      }
      assert TruncateStructure(t, maxLength).elems == t.elems;
    case Obj(ms) =>
      var t := TruncateStructure(v, maxLength);
      forall i | 0 <= i < |ms| ensures TruncateStructure(t.members[i].1, maxLength) == t.members[i].1 {
        TruncateStructureIdempotent(ms[i].1, maxLength);
      }
      assert TruncateStructure(t, maxLength).members == t.members;
    case _ =>
  }
}
