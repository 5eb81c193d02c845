// A parsed JSON value as the analyzers see it after `json.loads`: dicts keep
// their insertion order, floats are carried by their printed text, and the
// printing of values by Python's str() is given for the places where the
// analyzers store or compare printed forms.

module JsonModel {
  import opened Text
  import opened Ordering

  datatype Json =
    | Null
    | Bool(b: bool)
    | Int(i: int)
    | Float(repr: string)
    | Str(s: string)
    | Arr(elems: seq<Json>)
    | Obj(members: seq<(string, Json)>)

  /** Values of the kinds `isinstance(v, (str, int, float, bool))` accepts. */
  predicate IsScalar(v: Json) {
    v.Bool? || v.Int? || v.Float? || v.Str?
  }

  type Scalar = v: Json | IsScalar(v) witness Bool(false)

  predicate IsContainer(v: Json) {
    v.Arr? || v.Obj?
  }

  function Keys(ms: seq<(string, Json)>): (ks: seq<string>)
    ensures |ks| == |ms|
    ensures forall i :: 0 <= i < |ms| ==> ks[i] == ms[i].0
  {
    if ms == [] then [] else [ms[0].0] + Keys(ms[1..])
  }

  function KeySet(ms: seq<(string, Json)>): set<string> {
    set i | 0 <= i < |ms| :: ms[i].0
  }

  predicate DistinctKeys(ms: seq<(string, Json)>) {
    forall i, j :: 0 <= i < j < |ms| ==> ms[i].0 != ms[j].0
  }

  /** Python's `obj[k]` on a dict with key `k`: the value of its (first) entry. */
  function Lookup(ms: seq<(string, Json)>, k: string): (v: Json)
    requires k in KeySet(ms)
    ensures exists i :: 0 <= i < |ms| && ms[i] == (k, v)
  {
    if ms[0].0 == k then ms[0].1
    else
      assert k in KeySet(ms[1..]) by {
        var i :| 0 <= i < |ms| && ms[i].0 == k;
        assert ms[1..][i - 1].0 == k;
      }
      Lookup(ms[1..], k)
  }

  /** With distinct keys, an entry's value is what lookup finds. */
  lemma LookupDistinct(ms: seq<(string, Json)>, i: nat)
    requires DistinctKeys(ms) && i < |ms|
    ensures ms[i].0 in KeySet(ms)
    ensures Lookup(ms, ms[i].0) == ms[i].1
  {
    var v := Lookup(ms, ms[i].0);
    var j :| 0 <= j < |ms| && ms[j] == (ms[i].0, v);
    assert i == j;
  }

  // ---------------------------------------------------------------------
  // Printing: str() of a value, and repr() of a value nested in a container.

  function Repr(v: Json): string {
    match v
    case Null => "None"
    case Bool(b) => if b then "True" else "False"
    case Int(i) => IntToString(i)
    case Float(t) => t
    case Str(s) => "'" + s + "'"
    case Arr(xs) => "[" + Join(seq(|xs|, i requires 0 <= i < |xs| => Repr(xs[i])), ", ") + "]"
    case Obj(ms) =>
      "{" + Join(seq(|ms|, i requires 0 <= i < |ms| => "'" + ms[i].0 + "': " + Repr(ms[i].1)), ", ") + "}"
  }

  /** Python's `str(v)`: a string prints as itself, anything else as its repr. */
  function PyStr(v: Json): string {
    if v.Str? then v.s else Repr(v)
  }

  // ---------------------------------------------------------------------
  // A total order on scalar values. It is the order of Python's `sorted()`
  // on values of one kind; values of different kinds are ranked by kind.

  function KindRank(v: Scalar): nat {
    match v
    case Bool(_) => 0
    case Int(_) => 1
    case Float(_) => 2
    case Str(_) => 3
  }

  predicate ScalarLe(a: Scalar, b: Scalar) {
    if KindRank(a) != KindRank(b) then KindRank(a) < KindRank(b)
    else match a
      case Bool(x) => !x || b.b
      case Int(x) => x <= b.i
      case Float(x) => StrLe(x, b.repr)
      case Str(x) => StrLe(x, b.s)
  }

  lemma ScalarLeIsTotalOrder()
    ensures IsTotalOrder(ScalarLe)
  {
    forall a: Scalar, b: Scalar | ScalarLe(a, b) && ScalarLe(b, a)
      ensures a == b
    {
      if a.Float? && b.Float? { StrLeAntisymmetric(a.repr, b.repr); }
      if a.Str? && b.Str? { StrLeAntisymmetric(a.s, b.s); }
    }
    forall a: Scalar, b: Scalar, c: Scalar | ScalarLe(a, b) && ScalarLe(b, c)
      ensures ScalarLe(a, c)
    {
      if a.Float? && b.Float? && c.Float? { StrLeTransitive(a.repr, b.repr, c.repr); }
      if a.Str? && b.Str? && c.Str? { StrLeTransitive(a.s, b.s, c.s); }
    }
    forall a: Scalar, b: Scalar
      ensures ScalarLe(a, b) || ScalarLe(b, a)
    {
      if a.Float? && b.Float? { StrLeTotal(a.repr, b.repr); }
      if a.Str? && b.Str? { StrLeTotal(a.s, b.s); }
    }
    forall a: Scalar
      ensures ScalarLe(a, a)
    {
      if a.Float? { StrLeTotal(a.repr, a.repr); }
      if a.Str? { StrLeTotal(a.s, a.s); }
    }
  }

  lemma StrLeIsTotalOrder()
    ensures IsTotalOrder(StrLe)
  {
    forall a: string, b: string | StrLe(a, b) && StrLe(b, a)
      ensures a == b
    {
      StrLeAntisymmetric(a, b);
    }
    forall a: string, b: string, c: string | StrLe(a, b) && StrLe(b, c)
      ensures StrLe(a, c)
    {
      StrLeTransitive(a, b, c);
    }
    forall a: string, b: string
      ensures StrLe(a, b) || StrLe(b, a)
    {
      StrLeTotal(a, b);
    }
  }

  /** `sorted(values)` for a set of scalars. */
  function SortScalars(values: set<Scalar>): (r: seq<Scalar>)
    ensures |r| == |values| && Distinct(r)
    ensures forall x :: x in r <==> x in values
    ensures SortedBy(r, ScalarLe)
  {
    ScalarLeIsTotalOrder();
    SortSet(values, ScalarLe)
  }

  /** `sorted(strings)` for a set of strings. */
  function SortStrings(values: set<string>): (r: seq<string>)
    ensures |r| == |values| && Distinct(r)
    ensures forall x :: x in r <==> x in values
    ensures SortedBy(r, StrLe)
  {
    StrLeIsTotalOrder();
    SortSet(values, StrLe)
  }
}
