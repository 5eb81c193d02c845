// Python's `sorted(...)` as the analyzers use it: sorting a set of distinct
// values by a total order, and a stable sort of a list by a key order.

module Ordering {

  ghost predicate IsTotalOrder<T(!new)>(le: (T, T) -> bool) {
    (forall a :: le(a, a))
    && (forall a, b :: le(a, b) && le(b, a) ==> a == b)
    && (forall a, b, c :: le(a, b) && le(b, c) ==> le(a, c))
    && (forall a, b :: le(a, b) || le(b, a))
  }

  /** A key order: total and transitive, ties allowed. */
  ghost predicate IsTotalPreorder<T(!new)>(le: (T, T) -> bool) {
    (forall a, b, c :: le(a, b) && le(b, c) ==> le(a, c))
    && (forall a, b :: le(a, b) || le(b, a))
  }

  predicate SortedBy<T>(s: seq<T>, le: (T, T) -> bool) {
    forall i, j :: 0 <= i < j < |s| ==> le(s[i], s[j])
  }

  predicate Distinct<T(==)>(s: seq<T>) {
    forall i, j :: 0 <= i < j < |s| ==> s[i] != s[j]
  }

  lemma NonEmptyHasFirst<T>(s: seq<T>)
    ensures s != [] ==> s[0] in s
  {
  }

  lemma OneElement<T>(s: set<T>, a: T, b: T)
    requires |s| == 1 && a in s && b in s
    ensures a == b
  {
    assert |s - {a}| == 0;
    assert b !in s - {a};
  }

  /** Membership in a prefix one longer. */
  lemma PrefixSnoc<T>(s: seq<T>, i: nat)
    requires i < |s|
    ensures forall q :: q in s[..i + 1] <==> q in s[..i] || q == s[i]
    ensures Distinct(s) ==> s[i] !in s[..i]
  {
    assert s[..i + 1] == s[..i] + [s[i]];
  }

  /** A prefix followed by the next element is the prefix one longer. */
  lemma PrefixExtend<T>(s: seq<T>, i: nat, acc: seq<T>, x: T)
    requires i < |s| && acc == s[..i] && x == s[i]
    ensures acc + [x] == s[..i + 1]
  {
    assert s[..i + 1] == s[..i] + [s[i]];
  }

  /** Distinct elements drawn from a sequence of at most one element number at most one. */
  lemma SmallSuperset<T>(ms: seq<T>, big: seq<T>)
    requires Distinct(ms) && (forall p :: p in ms ==> p in big)
    requires ms != [] ==> |big| <= 1
    ensures |ms| <= 1
  {
    FirstTwo(ms);
    NonEmptyHasFirst(big);
  }

  lemma FirstTwo<T>(s: seq<T>)
    ensures |s| >= 2 ==> s[0] in s && s[1] in s && (Distinct(s) ==> s[0] != s[1])
  {
  }

  /** A sequence without repeats whose elements are all one value has at most one element. */
  lemma DistinctAllEqual<T>(s: seq<T>, x: T)
    requires Distinct(s) && forall y :: y in s ==> y == x
    ensures |s| <= 1
  {
    FirstTwo(s);
  }

  lemma {:induction false} MinimumExists<T(!new)>(s: set<T>, le: (T, T) -> bool)
    requires IsTotalOrder(le) && s != {}
    ensures exists m :: m in s && forall x :: x in s ==> le(m, x)
  {
    var y :| y in s;
    if s - {y} == {} {
      assert s == {y};
    } else {
      MinimumExists(s - {y}, le);
      var m :| m in s - {y} && forall x :: x in s - {y} ==> le(m, x);
      if le(m, y) {
        assert forall x :: x in s ==> le(m, x);
      } else {
        assert forall x :: x in s ==> le(y, x);
      }
    }
  }

  /** `sorted(s)` for a set: its elements, ascending, each once. */
  function SortSet<T(==,!new)>(s: set<T>, le: (T, T) -> bool): (r: seq<T>)
    requires IsTotalOrder(le)
    ensures |r| == |s|
    ensures forall x :: x in r <==> x in s
    ensures SortedBy(r, le) && Distinct(r)
    decreases s
  {
    if s == {} then []
    else
      MinimumExists(s, le);
      var m :| m in s && forall x :: x in s ==> le(m, x);
      var rest := SortSet(s - {m}, le);
      assert forall j :: 0 <= j < |rest| ==> rest[j] in s - {m};
      assert |s - {m}| == |s| - 1;
      PrependSorted(m, rest, le);
      [m] + rest
  }

  lemma SortSetSingleton<T(!new)>(x: T, le: (T, T) -> bool)
    requires IsTotalOrder(le)
    ensures SortSet({x}, le) == [x]
  {
    var r := SortSet({x}, le);
    assert |r| == 1 && r[0] in {x};
  }

  // ---------------------------------------------------------------------
  // Sizes of sequences without repeats and of the sets they hold.

  lemma DistinctSnoc<T>(s: seq<T>, x: T)
    requires Distinct(s) && x !in s
    ensures Distinct(s + [x])
  {
    var t := s + [x];
    forall i, j | 0 <= i < j < |t| ensures t[i] != t[j] {
      if j == |s| { assert t[i] == s[i]; } else { assert t[i] == s[i] && t[j] == s[j]; }
    }
  }

  lemma {:induction false} DistinctSubsetLength<T>(sel: seq<T>, order: seq<T>)
    requires Distinct(sel) && forall s :: s in sel ==> s in order
    ensures |sel| <= |order|
  {
    var a := set s | s in sel;
    var b := set s | s in order;
    DistinctCardinality(sel);
    SubsetCardinality(a, b);
    SeqSetCardinality(order);
  }

  lemma {:induction false} SubsetCardinality<T>(a: set<T>, b: set<T>)
    requires a <= b
    ensures |a| <= |b|
    ensures |a| == |b| ==> a == b
    decreases a
  {
    if a != {} {
      var x :| x in a;
      SubsetCardinality(a - {x}, b - {x});
    }
  }

  lemma {:induction false} DistinctCardinality<T>(s: seq<T>)
    requires Distinct(s)
    ensures |set x | x in s| == |s|
  {
    if s != [] {
      var init := s[..|s| - 1];
      DistinctCardinality(init);
      PrefixSnoc(s, |s| - 1);
      assert s[..|s|] == s;
      assert (set x | x in s) == (set x | x in init) + {s[|s| - 1]};
    }
  }

  lemma {:induction false} SeqSetCardinality<T>(s: seq<T>)
    ensures |set x | x in s| <= |s|
  {
    if s != [] {
      var init := s[..|s| - 1];
      SeqSetCardinality(init);
      PrefixSnoc(s, |s| - 1);
      assert s[..|s|] == s;
      assert (set x | x in s) == (set x | x in init) + {s[|s| - 1]};
    }
  }

  // ---------------------------------------------------------------------
  // Stable insertion sort by a key order (Python's `sorted(key=...)`).

  /** Prepending a lower bound of a sorted sequence keeps it sorted. */
  lemma PrependSorted<T>(x: T, s: seq<T>, le: (T, T) -> bool)
    requires SortedBy(s, le) && forall k :: 0 <= k < |s| ==> le(x, s[k])
    ensures SortedBy([x] + s, le)
  {
    var r := [x] + s;
    forall i, j | 0 <= i < j < |r| ensures le(r[i], r[j]) {
      assert r[j] == s[j - 1];
      if i > 0 {
        assert r[i] == s[i - 1];
      }
    }
  }

  /** Below the head of a sorted sequence means below all of it. */
  lemma BelowHead<T(!new)>(x: T, s: seq<T>, le: (T, T) -> bool)
    requires IsTotalPreorder(le) && SortedBy(s, le) && s != [] && le(x, s[0])
    ensures forall k :: 0 <= k < |s| ==> le(x, s[k])
  {
    forall k | 0 < k < |s| ensures le(x, s[k]) {
      assert le(s[0], s[k]);
    }
  }

  /** A bound on every element of `s` and on `x` bounds every element of a
      rearrangement of `s` with `x`. */
  lemma BoundRearranged<T>(b: T, rest: seq<T>, s: seq<T>, x: T, le: (T, T) -> bool)
    requires multiset(rest) == multiset(s) + multiset{x}
    requires le(b, x) && forall k :: 0 <= k < |s| ==> le(b, s[k])
    ensures forall k :: 0 <= k < |rest| ==> le(b, rest[k])
  {
    forall k | 0 <= k < |rest| ensures le(b, rest[k]) {
      assert rest[k] in multiset(rest);
      if rest[k] != x {
        assert rest[k] in multiset(s);
        var j :| 0 <= j < |s| && s[j] == rest[k];
      }
    }
  }

  /** The head of a sorted sequence, followed by the rest with `x` inserted. */
  lemma KeepHead<T>(s: seq<T>, rest: seq<T>, x: T, le: (T, T) -> bool)
    requires s != [] && le(s[0], x) && SortedBy(s, le)
    requires multiset(rest) == multiset(s[1..]) + multiset{x} && SortedBy(rest, le)
    ensures multiset([s[0]] + rest) == multiset(s) + multiset{x}
    ensures SortedBy([s[0]] + rest, le)
  {
    assert multiset(s) == multiset{s[0]} + multiset(s[1..]) by {
      assert s == [s[0]] + s[1..];
    }
    assert forall k :: 0 <= k < |s[1..]| ==> le(s[0], s[1..][k]) by {
      forall k | 0 <= k < |s[1..]| ensures le(s[0], s[1..][k]) {
        assert s[1..][k] == s[k + 1];
      }
    }
    BoundRearranged(s[0], rest, s[1..], x, le);
    PrependSorted(s[0], rest, le);
  }

  function Insert<T(!new)>(s: seq<T>, x: T, le: (T, T) -> bool): (r: seq<T>)
    requires IsTotalPreorder(le) && SortedBy(s, le)
    ensures multiset(r) == multiset(s) + multiset{x}
    ensures SortedBy(r, le)
  {
    if s == [] then [x]
    else if le(s[0], x) then
      var rest := Insert(s[1..], x, le);
      KeepHead(s, rest, x, le);
      [s[0]] + rest
    else
      BelowHead(x, s, le);
      PrependSorted(x, s, le);
      [x] + s
  }

  /** A stable sort of `s` by the key order `le`. */
  function SortBy<T(!new)>(s: seq<T>, le: (T, T) -> bool): (r: seq<T>)
    requires IsTotalPreorder(le)
    ensures multiset(r) == multiset(s) && |r| == |s|
    ensures SortedBy(r, le)
  {
    if s == [] then []
    else
      assert s == s[..|s| - 1] + [s[|s| - 1]];
      var r := Insert(SortBy(s[..|s| - 1], le), s[|s| - 1], le);
      assert |r| == |multiset(r)| == |s|;
      r
  }

  // ---------------------------------------------------------------------
  // Stability: elements whose keys tie keep their relative order.

  /** The elements of `s` whose key ties with that of `k`, in order. */
  function Ties<T>(s: seq<T>, le: (T, T) -> bool, k: T): seq<T> {
    if s == [] then []
    else (if le(s[0], k) && le(k, s[0]) then [s[0]] else []) + Ties(s[1..], le, k)
  }

  lemma {:induction false} TiesAppend<T>(a: seq<T>, b: seq<T>, le: (T, T) -> bool, k: T)
    ensures Ties(a + b, le, k) == Ties(a, le, k) + Ties(b, le, k)
  {
    if a == [] {
      assert a + b == b;
    } else {
      assert (a + b)[0] == a[0] && (a + b)[1..] == a[1..] + b;
      TiesAppend(a[1..], b, le, k);
    }
  }

  lemma {:induction false} TiesNone<T>(s: seq<T>, le: (T, T) -> bool, k: T)
    requires forall j :: 0 <= j < |s| ==> !(le(s[j], k) && le(k, s[j]))
    ensures Ties(s, le, k) == []
  {
    if s != [] {
      assert forall j :: 0 <= j < |s[1..]| ==> s[1..][j] == s[j + 1];
      TiesNone(s[1..], le, k);
    }
  }

  /** Nothing in a sorted sequence ties with a key that ranks below its head. */
  lemma TiesBelowHead<T(!new)>(s: seq<T>, x: T, le: (T, T) -> bool, k: T)
    requires IsTotalPreorder(le) && SortedBy(s, le) && s != [] && !le(s[0], x)
    requires le(x, k) && le(k, x)
    ensures Ties(s, le, k) == []
  {
    var h := s[0];
    forall j | 0 <= j < |s| ensures !(le(s[j], k) && le(k, s[j])) {
      if 0 < j {
        assert le(h, s[j]);
      }
      assert le(s[j], k) ==> le(h, k);
    }
    TiesNone(s, le, k);
  }

  /** Putting the same element in front of two sequences keeps a relation between their ties. */
  lemma ConsTies<T>(h: T, t: seq<T>, r: seq<T>, x: T, le: (T, T) -> bool, k: T)
    requires Ties(r, le, k) == Ties(t, le, k) + Ties([x], le, k)
    ensures Ties([h] + r, le, k) == Ties([h] + t, le, k) + Ties([x], le, k)
  {
    TiesAppend([h], r, le, k);
    TiesAppend([h], t, le, k);
  }

  /** Inserting `x` puts it after every element already present whose key ties with it. */
  lemma {:induction false} InsertTies<T(!new)>(s: seq<T>, x: T, le: (T, T) -> bool, k: T)
    requires IsTotalPreorder(le) && SortedBy(s, le)
    ensures Ties(Insert(s, x, le), le, k) == Ties(s, le, k) + Ties([x], le, k)
  {
    if s == [] {
      assert Ties(s, le, k) == [];
    } else if le(s[0], x) {
      InsertTies(s[1..], x, le, k);
      ConsTies(s[0], s[1..], Insert(s[1..], x, le), x, le, k);
      assert s == [s[0]] + s[1..];
    } else {
      TiesAppend([x], s, le, k);
      if le(x, k) && le(k, x) {
        TiesBelowHead(s, x, le, k);
      } else {
        assert [x][1..] == [];
      }
    }
  }

  /** Sorting keeps the elements of each key in their original order. */
  lemma {:induction false} SortByTies<T(!new)>(s: seq<T>, le: (T, T) -> bool, k: T)
    requires IsTotalPreorder(le)
    ensures Ties(SortBy(s, le), le, k) == Ties(s, le, k)
  {
    if s != [] {
      var init, x := s[..|s| - 1], s[|s| - 1];
      SortByTies(init, le, k);
      InsertTies(SortBy(init, le), x, le, k);
      assert s == init + [x];
      TiesAppend(init, [x], le, k);
    }
  }

  /** Two tied elements of `t` stand in the same order in `Ties(t, le, k)`. */
  lemma TiesPositions<T>(t: seq<T>, le: (T, T) -> bool, k: T, i: nat, j: nat)
    requires i < j < |t|
    requires le(t[i], k) && le(k, t[i]) && le(t[j], k) && le(k, t[j])
    ensures exists a, b :: 0 <= a < b < |Ties(t, le, k)| && Ties(t, le, k)[a] == t[i] && Ties(t, le, k)[b] == t[j]
  {
    var A, B, C := t[..i], t[i + 1..j], t[j + 1..];
    assert t == A + ([t[i]] + (B + ([t[j]] + C)));
    TiesAppend(A, [t[i]] + (B + ([t[j]] + C)), le, k);
    TiesAppend([t[i]], B + ([t[j]] + C), le, k);
    TiesAppend(B, [t[j]] + C, le, k);
    TiesAppend([t[j]], C, le, k);
    assert [t[i]][1..] == [] && [t[j]][1..] == [];
    var a, b := |Ties(A, le, k)|, |Ties(A, le, k)| + 1 + |Ties(B, le, k)|;
    assert Ties(t, le, k)[a] == t[i] && Ties(t, le, k)[b] == t[j];
  }

  lemma {:induction false} TiesMember<T>(t: seq<T>, le: (T, T) -> bool, k: T, b: nat)
    requires b < |Ties(t, le, k)|
    ensures exists q :: 0 <= q < |t| && t[q] == Ties(t, le, k)[b]
  {
    var rest := Ties(t[1..], le, k);
    if le(t[0], k) && le(k, t[0]) && b == 0 {
      assert t[0] == Ties(t, le, k)[0];
    } else {
      var b' := if le(t[0], k) && le(k, t[0]) then b - 1 else b;
      assert Ties(t, le, k)[b] == rest[b'];
      TiesMember(t[1..], le, k, b');
      var q :| 0 <= q < |t[1..]| && t[1..][q] == rest[b'];
      assert t[q + 1] == rest[b'];
    }
  }

  /** Two elements in order in `Ties(t, le, k)` come from positions in order in `t`. */
  lemma {:induction false} TiesSources<T>(t: seq<T>, le: (T, T) -> bool, k: T, a: nat, b: nat)
    requires a < b < |Ties(t, le, k)|
    ensures exists p, q :: 0 <= p < q < |t| && t[p] == Ties(t, le, k)[a] && t[q] == Ties(t, le, k)[b]
  {
    var rest := Ties(t[1..], le, k);
    var tied := le(t[0], k) && le(k, t[0]);
    if tied && a == 0 {
      TiesMember(t[1..], le, k, b - 1);
      var q :| 0 <= q < |t[1..]| && t[1..][q] == rest[b - 1];
      assert t[0] == Ties(t, le, k)[0] && t[q + 1] == Ties(t, le, k)[b];
    } else {
      var a', b' := if tied then a - 1 else a, if tied then b - 1 else b;
      assert Ties(t, le, k)[a] == rest[a'] && Ties(t, le, k)[b] == rest[b'];
      TiesSources(t[1..], le, k, a', b');
      var p, q :| 0 <= p < q < |t[1..]| && t[1..][p] == rest[a'] && t[1..][q] == rest[b'];
      assert t[p + 1] == rest[a'] && t[q + 1] == rest[b'];
    }
  }

  /**
   * `SortBy` is stable: two elements of the result whose keys tie come
   * from positions of `s` in the same order.
   */
  lemma SortByStable<T(!new)>(s: seq<T>, le: (T, T) -> bool, i: nat, j: nat)
    requires IsTotalPreorder(le)
    requires i < j < |s|
    requires var r := SortBy(s, le); le(r[i], r[j]) && le(r[j], r[i])
    ensures var r := SortBy(s, le); exists p, q :: 0 <= p < q < |s| && s[p] == r[i] && s[q] == r[j]
  {
    var r := SortBy(s, le);
    var k := r[i];
    assert le(k, k) || le(k, k);
    TiesPositions(r, le, k, i, j);
    SortByTies(s, le, k);
    var a, b :| 0 <= a < b < |Ties(r, le, k)| && Ties(r, le, k)[a] == r[i] && Ties(r, le, k)[b] == r[j];
    TiesSources(s, le, k, a, b);
  }

  lemma {:induction false} DistinctOnce<T>(s: seq<T>, x: T)
    requires Distinct(s)
    ensures multiset(s)[x] <= 1
  {
    if s != [] {
      var init := s[..|s| - 1];
      assert s == init + [s[|s| - 1]];
      PrefixSnoc(s, |s| - 1);
      DistinctOnce(init, x);
      if x == s[|s| - 1] {
        assert x !in multiset(init);
      }
    }
  }

  /** A rearrangement of a sequence without repeats has none either. */
  lemma DistinctPermutation<T>(a: seq<T>, b: seq<T>)
    requires multiset(a) == multiset(b) && Distinct(b)
    ensures Distinct(a)
  {
    forall i, j | 0 <= i < j < |a| ensures a[i] != a[j] {
      if a[i] == a[j] {
        assert a == a[..j] + [a[j]] + a[j + 1..];
        assert a[i] in multiset(a[..j]) by {
          assert a[..j][i] == a[i];
        }
        assert multiset(a)[a[j]] >= 2;
        DistinctOnce(b, a[j]);
        assert false;
      }
    }
  }

  /** A rearrangement `r` of rows keyed by the distinct `keys`: each key
      has exactly one row in `r`. */
  lemma PermutedKeys<T>(rows: seq<T>, r: seq<T>, keys: seq<string>, key: T -> string)
    requires multiset(r) == multiset(rows) && |rows| == |keys| && Distinct(keys)
    requires forall i :: 0 <= i < |rows| ==> key(rows[i]) == keys[i]
    ensures forall i :: 0 <= i < |r| ==> r[i] in rows
    ensures forall k :: k in keys ==> exists i :: 0 <= i < |r| && key(r[i]) == k
    ensures forall i, j :: 0 <= i < j < |r| ==> key(r[i]) != key(r[j])
  {
    forall i | 0 <= i < |r| ensures r[i] in rows {
      assert r[i] in multiset(rows);
    }
    forall k | k in keys ensures exists i :: 0 <= i < |r| && key(r[i]) == k {
      var n :| 0 <= n < |keys| && keys[n] == k;
      assert rows[n] in multiset(r);
      var i :| 0 <= i < |r| && r[i] == rows[n];
    }
    assert Distinct(rows) by {
      forall i, j | 0 <= i < j < |rows| ensures rows[i] != rows[j] {
        assert key(rows[i]) != key(rows[j]);
      }
    }
    DistinctPermutation(r, rows);
    forall i, j | 0 <= i < j < |r| ensures key(r[i]) != key(r[j]) {
      var a :| 0 <= a < |rows| && rows[a] == r[i];
      var b :| 0 <= b < |rows| && rows[b] == r[j];
      assert a != b;
    }
  }

  /** The first `k` of a sorted sequence: an element left out ranks no higher than any kept. */
  lemma TopPrefix<T>(s: seq<T>, k: nat, x: T, le: (T, T) -> bool)
    requires SortedBy(s, le) && x in s
    ensures var r := s[..if k < |s| then k else |s|];
      x in r || (|r| == k && forall i :: 0 <= i < |r| ==> le(r[i], x))
  {
    var j :| 0 <= j < |s| && s[j] == x;
    var r := s[..if k < |s| then k else |s|];
    if j < |r| {
      assert r[j] == x;
    } else {
      forall i | 0 <= i < |r| ensures le(r[i], x) {
        assert r[i] == s[i];
      }
    }
  }

  /** The concatenation of a sequence of chunks, in order. */
  function Flatten<T>(chunks: seq<seq<T>>): seq<T> {
    if chunks == [] then [] else Flatten(chunks[..|chunks| - 1]) + chunks[|chunks| - 1]
  }

  lemma FlattenSnoc<T>(chunks: seq<seq<T>>, i: nat)
    requires i < |chunks|
    ensures Flatten(chunks[..i + 1]) == Flatten(chunks[..i]) + chunks[i]
  {
    assert chunks[..i + 1][..i] == chunks[..i];
  }

  // ---------------------------------------------------------------------
  // Python's `Counter`: how often each label occurs in a sequence.

  /** The number of positions of `labels` holding `x`. */
  function Occurrences<L(==)>(labels: seq<L>, x: L): (n: nat)
    ensures n <= |labels|
    ensures n == 0 <==> x !in labels
  {
    if labels == [] then 0
    else Occurrences(labels[..|labels| - 1], x) + (if labels[|labels| - 1] == x then 1 else 0)
  }

  /** `Counter()` after `c[x] += 1` for every label in turn. */
  function Tally<L(==)>(labels: seq<L>): map<L, nat> {
    if labels == [] then map[]
    else
      var m := Tally(labels[..|labels| - 1]);
      var x := labels[|labels| - 1];
      m[x := (if x in m then m[x] else 0) + 1]
  }

  lemma TallySnoc<L>(labels: seq<L>, i: nat)
    requires i < |labels|
    ensures var m := Tally(labels[..i]);
            Tally(labels[..i + 1]) == m[labels[i] := (if labels[i] in m then m[labels[i]] else 0) + 1]
  {
    assert labels[..i + 1][..i] == labels[..i];
  }

  /** `counter[x] += 1` for the next label of a sequence being tallied. */
  method TallyNext<L>(m: map<L, nat>, ghost labels: seq<L>, i: nat, x: L) returns (r: map<L, nat>)
    requires i < |labels| && x == labels[i] && m == Tally(labels[..i])
    ensures r == Tally(labels[..i + 1])
  {
    r := m[x := (if x in m then m[x] else 0) + 1];
    TallySnoc(labels, i);
  }

  /** The counter holds exactly the labels that occur, each with its number of occurrences. */
  lemma {:induction false} TallyCounts<L>(labels: seq<L>)
    ensures forall x :: x in Tally(labels) <==> x in labels
    ensures forall x :: x in Tally(labels) ==> Tally(labels)[x] == Occurrences(labels, x)
  {
    if labels != [] {
      var init := labels[..|labels| - 1];
      TallyCounts(init);
      PrefixSnoc(labels, |labels| - 1);
      assert labels[..|labels|] == labels;
    }
  }
}
