// The task scheduler of the analysis suite
// (src/claude-code-analyzer/task_scheduler.py): the order in which the
// analysis tasks run (Kahn's topological sort with a first-in first-out
// queue), the dependency gate in front of each task, and the sequential run
// that stops at the first failure.

module TaskScheduling {
  import opened Ordering

  datatype TaskStatus = Pending | Running | Completed | Failed | Skipped

  /** The task table: task ids in definition order and each task's dependency list. */
  datatype Table = Table(ids: seq<string>, deps: map<string, seq<string>>)

  /** A dictionary keyed by task id: no id twice, one dependency list per id. */
  ghost predicate WellFormed(t: Table) {
    Distinct(t.ids) && forall x :: x in t.deps <==> x in t.ids
  }

  /** A task's dependency list, empty when it has none. */
  function Deps(t: Table, x: string): seq<string> {
    if x in t.deps then t.deps[x] else []
  }

  /** The eight built-in analysis tasks and what each depends on. */
  function BuiltIn(): Table {
    Table(["T01", "T02", "T03", "T04", "T05", "T06", "T07", "T08"],
          map["T01" := ["T06"], "T02" := ["T06"], "T03" := ["T02"], "T04" := ["T06"],
              "T05" := ["T06"], "T06" := [], "T07" := ["T04", "T05"], "T08" := ["T01", "T02", "T03"]])
  }

  // ---------------------------------------------------------------------
  // In-degrees.

  /** A task's initial in-degree: the entries of its dependency list that
      name a known task, a repeated entry counted each time. */
  function KnownCount(t: Table, ds: seq<string>): nat {
    if ds == [] then 0
    else KnownCount(t, ds[..|ds| - 1]) + (if ds[|ds| - 1] in t.ids then 1 else 0)
  }

  /** The known tasks a dependency list names. */
  ghost function KnownSet(t: Table, ds: seq<string>): set<string> {
    set d | d in ds && d in t.ids
  }

  /** No known task is listed twice. */
  predicate NoRepeatedKnown(t: Table, ds: seq<string>) {
    forall i, j :: 0 <= i < j < |ds| && ds[i] in t.ids ==> ds[i] != ds[j]
  }

  /** How many of the dequeued tasks `done` a dependency list names: the
      decrements its task's in-degree has received. */
  function DoneCount(done: seq<string>, ds: seq<string>): nat {
    if done == [] then 0
    else DoneCount(done[..|done| - 1], ds) + (if done[|done| - 1] in ds then 1 else 0)
  }

  lemma NoRepeatedSnoc(t: Table, ds: seq<string>)
    requires ds != []
    ensures var init, y := ds[..|ds| - 1], ds[|ds| - 1];
            NoRepeatedKnown(t, ds) <==> NoRepeatedKnown(t, init) && !(y in t.ids && y in init)
  {
    var init, y := ds[..|ds| - 1], ds[|ds| - 1];
    if y in t.ids && y in init {
      var i :| 0 <= i < |init| && init[i] == y;
      assert ds[i] == ds[|ds| - 1];
    }
    if NoRepeatedKnown(t, ds) {
      forall i, j | 0 <= i < j < |init| && init[i] in t.ids ensures init[i] != init[j] {
        assert ds[i] != ds[j];
      }
    }
  }

  lemma {:induction false} KnownCountSize(t: Table, ds: seq<string>)
    ensures |KnownSet(t, ds)| <= KnownCount(t, ds)
    ensures KnownCount(t, ds) == |KnownSet(t, ds)| <==> NoRepeatedKnown(t, ds)
  {
    if ds != [] {
      var init, y := ds[..|ds| - 1], ds[|ds| - 1];
      KnownCountSize(t, init);
      NoRepeatedSnoc(t, ds);
      PrefixSnoc(ds, |ds| - 1);
      assert ds[..|ds|] == ds;
      if y in t.ids {
        assert KnownSet(t, ds) == KnownSet(t, init) + {y};
      } else {
        assert KnownSet(t, ds) == KnownSet(t, init);
      }
    }
  }

  lemma {:induction false} DoneCountSize(done: seq<string>, ds: seq<string>)
    requires Distinct(done)
    ensures DoneCount(done, ds) == |set y | y in done && y in ds|
  {
    if done != [] {
      var init, y := done[..|done| - 1], done[|done| - 1];
      PrefixSnoc(done, |done| - 1);
      assert done[..|done|] == done;
      assert Distinct(init);
      DoneCountSize(init, ds);
      if y in ds {
        assert (set z | z in done && z in ds) == (set z | z in init && z in ds) + {y};
      } else {
        assert (set z | z in done && z in ds) == (set z | z in init && z in ds);
      }
    }
  }

  /** Once the known tasks `done` have been dequeued, each once, a task's
      in-degree is not negative, and it is 0 exactly when every known task
      its list names is done and none is listed twice. */
  lemma DegreeFacts(t: Table, done: seq<string>, ds: seq<string>)
    requires Distinct(done) && forall y :: y in done ==> y in t.ids
    ensures DoneCount(done, ds) <= KnownCount(t, ds)
    ensures DoneCount(done, ds) == KnownCount(t, ds) <==>
            NoRepeatedKnown(t, ds) && forall d :: d in ds && d in t.ids ==> d in done
  {
    var a := set y | y in done && y in ds;
    DoneCountSize(done, ds);
    KnownCountSize(t, ds);
    SubsetCardinality(a, KnownSet(t, ds));
    if DoneCount(done, ds) == KnownCount(t, ds) {
      forall d | d in ds && d in t.ids ensures d in done {
        assert d in KnownSet(t, ds);
      }
    }
    if NoRepeatedKnown(t, ds) && forall d :: d in ds && d in t.ids ==> d in done {
      assert a == KnownSet(t, ds);
    }
  }

  // ---------------------------------------------------------------------
  // Kahn's algorithm, one loop iteration at a time.

  datatype KahnState = KahnState(indeg: map<string, int>, queue: seq<string>, result: seq<string>)

  /** The inner loop after `current` is dequeued, over the first `j` tasks in
      table order: a task whose list names `current` loses one from its
      in-degree, and joins the queue when that reaches 0. */
  function Pass(t: Table, current: string, indeg: map<string, int>, queue: seq<string>, j: nat)
    : (r: (map<string, int>, seq<string>))
    requires j <= |t.ids| && forall x :: x in t.ids ==> x in indeg
    ensures r.0.Keys == indeg.Keys
  {
    if j == 0 then (indeg, queue)
    else
      var p := Pass(t, current, indeg, queue, j - 1);
      var x := t.ids[j - 1];
      if current in Deps(t, x) then
        var n := p.0[x] - 1;
        (p.0[x := n], if n == 0 then p.1 + [x] else p.1)
      else p
  }

  /** The tasks one pass appends to the queue: in table order, those among
      the first `j` whose list names `current` and whose in-degree was 1. */
  function Released(t: Table, current: string, indeg: map<string, int>, j: nat): seq<string>
    requires j <= |t.ids| && forall x :: x in t.ids ==> x in indeg
  {
    if j == 0 then []
    else
      var x := t.ids[j - 1];
      Released(t, current, indeg, j - 1) + (if current in Deps(t, x) && indeg[x] == 1 then [x] else [])
  }

  lemma {:induction false} ReleasedFacts(t: Table, current: string, indeg: map<string, int>, j: nat)
    requires Distinct(t.ids) && j <= |t.ids| && forall x :: x in t.ids ==> x in indeg
    ensures forall x :: x in Released(t, current, indeg, j) <==>
              x in t.ids[..j] && x in indeg && current in Deps(t, x) && indeg[x] == 1
    ensures Distinct(Released(t, current, indeg, j))
  {
    if j > 0 {
      ReleasedFacts(t, current, indeg, j - 1);
      PrefixSnoc(t.ids, j - 1);
      var x := t.ids[j - 1];
      if current in Deps(t, x) && indeg[x] == 1 {
        DistinctSnoc(Released(t, current, indeg, j - 1), x);
      }
    }
  }

  lemma {:induction false} PassFacts(t: Table, current: string, indeg: map<string, int>, queue: seq<string>, j: nat)
    requires Distinct(t.ids) && j <= |t.ids| && forall x :: x in t.ids ==> x in indeg
    ensures forall x :: x in indeg ==>
              Pass(t, current, indeg, queue, j).0[x]
              == if x in t.ids[..j] && current in Deps(t, x) then indeg[x] - 1 else indeg[x]
    ensures Pass(t, current, indeg, queue, j).1 == queue + Released(t, current, indeg, j)
  {
    if j > 0 {
      PassFacts(t, current, indeg, queue, j - 1);
      PrefixSnoc(t.ids, j - 1);
      var p := Pass(t, current, indeg, queue, j - 1);
      var y := t.ids[j - 1];
      assert y !in t.ids[..j - 1];
      assert p.0[y] == indeg[y];
    }
  }

  /** One iteration of the outer loop: dequeue the head, append it to the
      result, and run the pass over the table. */
  function Step(t: Table, s: KahnState): (r: KahnState)
    requires s.queue != [] && forall x :: x in t.ids ==> x in s.indeg
    ensures r.indeg.Keys == s.indeg.Keys && |r.result| == |s.result| + 1
  {
    var p := Pass(t, s.queue[0], s.indeg, s.queue[1..], |t.ids|);
    KahnState(p.0, p.1, s.result + [s.queue[0]])
  }

  /** At most `fuel` iterations of the outer loop, stopping when the queue is empty. */
  function Run(t: Table, s: KahnState, fuel: nat): KahnState
    requires forall x :: x in t.ids ==> x in s.indeg
    decreases fuel
  {
    if s.queue == [] || fuel == 0 then s else Run(t, Step(t, s), fuel - 1)
  }

  function InitialDegrees(t: Table): map<string, int> {
    map x | x in t.ids :: KnownCount(t, Deps(t, x))
  }

  /** The first `j` tasks in table order whose in-degree starts at 0. */
  function ZeroDegree(t: Table, j: nat): seq<string>
    requires j <= |t.ids|
  {
    if j == 0 then []
    else
      var x := t.ids[j - 1];
      ZeroDegree(t, j - 1) + (if KnownCount(t, Deps(t, x)) == 0 then [x] else [])
  }

  function Initial(t: Table): KahnState {
    KahnState(InitialDegrees(t), ZeroDegree(t, |t.ids|), [])
  }

  /** The task order `get_task_dependency_order` returns. Every iteration
      emits one task and no task is emitted twice, so as many iterations as
      there are tasks run the loop to its end. */
  function DependencyOrder(t: Table): seq<string> {
    Run(t, Initial(t), |t.ids|).result
  }

  // ---------------------------------------------------------------------
  // What holds between two iterations of the outer loop.

  /** Every task of `order` comes after each known task it depends on. */
  predicate DepsFirst(t: Table, order: seq<string>) {
    forall i, d :: 0 <= i < |order| && d in Deps(t, order[i]) && d in t.ids ==> d in order[..i]
  }

  ghost predicate Inv(t: Table, s: KahnState) {
    && (forall x :: x in t.ids ==> x in s.indeg)
    && Distinct(s.result + s.queue)
    && (forall x :: x in s.result + s.queue ==> x in t.ids)
    && (forall x :: x in t.ids ==> s.indeg[x] == KnownCount(t, Deps(t, x)) - DoneCount(s.result, Deps(t, x)))
    && (forall x :: x in t.ids ==> (x in s.result + s.queue <==> s.indeg[x] == 0))
    && DepsFirst(t, s.result)
    && (forall x, d :: x in s.queue && d in Deps(t, x) && d in t.ids ==> d in s.result)
  }

  lemma InvLength(t: Table, s: KahnState)
    requires Inv(t, s)
    ensures |s.result| + |s.queue| <= |t.ids|
  {
    DistinctSubsetLength(s.result + s.queue, t.ids);
  }

  lemma {:induction false} ZeroDegreeFacts(t: Table, j: nat)
    requires Distinct(t.ids) && j <= |t.ids|
    ensures forall x :: x in ZeroDegree(t, j) <==> x in t.ids[..j] && KnownCount(t, Deps(t, x)) == 0
    ensures Distinct(ZeroDegree(t, j))
  {
    if j > 0 {
      ZeroDegreeFacts(t, j - 1);
      PrefixSnoc(t.ids, j - 1);
      var x := t.ids[j - 1];
      if KnownCount(t, Deps(t, x)) == 0 {
        DistinctSnoc(ZeroDegree(t, j - 1), x);
      }
    }
  }

  lemma InitialInv(t: Table)
    requires WellFormed(t)
    ensures Inv(t, Initial(t))
  {
    var s := Initial(t);
    ZeroDegreeFacts(t, |t.ids|);
    assert t.ids[..|t.ids|] == t.ids;
    assert s.result + s.queue == s.queue;
    forall x, d | x in s.queue && d in Deps(t, x) && d in t.ids ensures d in s.result {
      DegreeFacts(t, [], Deps(t, x));
    }
  }

  lemma DistinctAppend<T>(a: seq<T>, b: seq<T>)
    requires Distinct(a) && Distinct(b) && forall x :: x in b ==> x !in a
    ensures Distinct(a + b)
  {
    var c := a + b;
    forall i, j | 0 <= i < j < |c| ensures c[i] != c[j] {
      if j < |a| {
        assert c[i] == a[i] && c[j] == a[j];
      } else if i < |a| {
        assert c[i] == a[i] && c[j] == b[j - |a|] && b[j - |a|] in b;
      } else {
        assert c[i] == b[i - |a|] && c[j] == b[j - |a|];
      }
    }
  }

  /** What one iteration does, stated without the loop's own definitions:
      `c` is dequeued and emitted, every task listing `c` loses one from its
      in-degree, and `rel`, the tasks whose in-degree drops to 0, join the
      queue. */
  ghost predicate Iteration(t: Table, s: KahnState, c: string, rel: seq<string>, next: KahnState) {
    && s.queue != [] && c == s.queue[0]
    && (forall x :: x in t.ids ==> x in s.indeg)
    && Distinct(rel)
    && (forall x :: x in rel <==> x in t.ids && c in Deps(t, x) && s.indeg[x] == 1)
    && next.result == s.result + [c]
    && next.queue == s.queue[1..] + rel
    && (forall x :: x in next.indeg <==> x in s.indeg)
    && (forall x :: x in t.ids ==> next.indeg[x] == if c in Deps(t, x) then s.indeg[x] - 1 else s.indeg[x])
  }

  /** `Step` performs an `Iteration`, after which the run carries on from the new state. */
  lemma StepIsIteration(t: Table, s: KahnState, n: nat) returns (rel: seq<string>, next: KahnState)
    requires WellFormed(t) && s.queue != [] && n > 0 && forall x :: x in t.ids ==> x in s.indeg
    ensures Iteration(t, s, s.queue[0], rel, next)
    ensures next == Step(t, s) && Run(t, s, n) == Run(t, next, n - 1)
  {
    rel := Released(t, s.queue[0], s.indeg, |t.ids|);
    next := Step(t, s);
    PassFacts(t, s.queue[0], s.indeg, s.queue[1..], |t.ids|);
    ReleasedFacts(t, s.queue[0], s.indeg, |t.ids|);
    assert t.ids[..|t.ids|] == t.ids;
  }

  /** The emitted tasks and the queue stay free of repeats and hold known tasks only. */
  lemma IterationMembers(t: Table, s: KahnState, c: string, rel: seq<string>, next: KahnState)
    requires WellFormed(t) && Inv(t, s) && Iteration(t, s, c, rel, next)
    ensures Distinct(next.result + next.queue)
    ensures forall x :: x in next.result + next.queue <==> x in s.result + s.queue || x in rel
  {
    assert s.queue == [c] + s.queue[1..];
    assert next.result + next.queue == (s.result + s.queue) + rel;
    forall x | x in rel ensures x !in s.result + s.queue {
      assert s.indeg[x] == 1;
    }
    DistinctAppend(s.result + s.queue, rel);
  }

  /** The in-degrees keep counting the entries not yet dequeued. */
  lemma IterationDegrees(t: Table, s: KahnState, c: string, rel: seq<string>, next: KahnState)
    requires WellFormed(t) && Inv(t, s) && Iteration(t, s, c, rel, next)
    ensures forall x :: x in t.ids ==>
              next.indeg[x] == KnownCount(t, Deps(t, x)) - DoneCount(next.result, Deps(t, x))
  {
    assert next.result[..|next.result| - 1] == s.result;
  }

  lemma IterationEmitted(t: Table, s: KahnState, c: string, rel: seq<string>, next: KahnState)
    requires WellFormed(t) && Inv(t, s) && Iteration(t, s, c, rel, next)
    ensures Distinct(next.result) && forall y :: y in next.result ==> y in t.ids
  {
    IterationMembers(t, s, c, rel, next);
    forall i, j | 0 <= i < j < |next.result| ensures next.result[i] != next.result[j] {
      assert (next.result + next.queue)[i] == next.result[i];
      assert (next.result + next.queue)[j] == next.result[j];
    }
  }

  /** A task's in-degree reaches 0 exactly when it is emitted or queued, and
      then every known task it depends on has been emitted. */
  lemma IterationZero(t: Table, s: KahnState, c: string, rel: seq<string>, next: KahnState)
    requires WellFormed(t) && Inv(t, s) && Iteration(t, s, c, rel, next)
    ensures forall x :: x in t.ids ==> (x in next.result + next.queue <==> next.indeg[x] == 0)
    ensures forall x, d :: x in next.queue && d in Deps(t, x) && d in t.ids ==> d in next.result
  {
    IterationMembers(t, s, c, rel, next);
    IterationDegrees(t, s, c, rel, next);
    IterationEmitted(t, s, c, rel, next);
    forall x | x in t.ids
      ensures next.indeg[x] >= 0
      ensures next.indeg[x] == 0 ==> forall d :: d in Deps(t, x) && d in t.ids ==> d in next.result
    {
      DegreeFacts(t, next.result, Deps(t, x));
    }
  }

  lemma IterationOrder(t: Table, s: KahnState, c: string, rel: seq<string>, next: KahnState)
    requires WellFormed(t) && Inv(t, s) && Iteration(t, s, c, rel, next)
    ensures DepsFirst(t, next.result)
  {
    forall i, d | 0 <= i < |next.result| && d in Deps(t, next.result[i]) && d in t.ids
      ensures d in next.result[..i]
    {
      if i < |s.result| {
        assert next.result[..i] == s.result[..i];
      } else {
        assert next.result[..i] == s.result;
      }
    }
  }

  /** One iteration keeps the invariant. */
  lemma IterationInv(t: Table, s: KahnState, c: string, rel: seq<string>, next: KahnState)
    requires WellFormed(t) && Inv(t, s) && Iteration(t, s, c, rel, next)
    ensures Inv(t, next)
  {
    IterationMembers(t, s, c, rel, next);
    IterationDegrees(t, s, c, rel, next);
    IterationZero(t, s, c, rel, next);
    IterationOrder(t, s, c, rel, next);
  }

  lemma StepOn(t: Table, s: KahnState, n: nat) returns (next: KahnState)
    requires WellFormed(t) && Inv(t, s) && s.queue != [] && |s.result| + n == |t.ids|
    ensures n > 0 && Inv(t, next) && |next.result| + (n - 1) == |t.ids|
    ensures next == Step(t, s) && Run(t, s, n) == Run(t, next, n - 1)
  {
    InvLength(t, s);
    var rel;
    rel, next := StepIsIteration(t, s, n);
    IterationInv(t, s, s.queue[0], rel, next);
  }

  /** From a state satisfying the invariant, the remaining iterations empty the queue. */
  lemma {:induction false} RunInv(t: Table, s: KahnState, n: nat)
    requires WellFormed(t) && Inv(t, s) && |s.result| + n == |t.ids|
    ensures Inv(t, Run(t, s, n)) && Run(t, s, n).queue == []
    decreases n
  {
    if s.queue != [] {
      var next := StepOn(t, s, n);
      RunInv(t, next, n - 1);
    }
  }

  /** The initial state satisfies the invariant, and the order is what the run makes of it. */
  lemma Start(t: Table) returns (s: KahnState)
    requires WellFormed(t)
    ensures s == Initial(t) && Inv(t, s) && s.result == []
    ensures DependencyOrder(t) == Run(t, s, |t.ids|).result
  {
    s := Initial(t);
    InitialInv(t);
  }

  lemma FinalInv(t: Table) returns (f: KahnState)
    requires WellFormed(t)
    ensures Inv(t, f) && f.queue == [] && f.result == DependencyOrder(t)
  {
    var s := Start(t);
    RunInv(t, s, |t.ids|);
    f := Run(t, s, |t.ids|);
  }

  // ---------------------------------------------------------------------
  // What the order promises.

  /** Each task is emitted at most once, and only known tasks are emitted. */
  lemma OrderDistinct(t: Table)
    requires WellFormed(t)
    ensures Distinct(DependencyOrder(t))
    ensures forall x :: x in DependencyOrder(t) ==> x in t.ids
  {
    var f := FinalInv(t);
    assert f.result + f.queue == f.result;
  }

  /** Every emitted task comes after all of its dependencies that are known
      tasks; dependencies on unknown tasks are ignored. */
  lemma OrderDepsFirst(t: Table)
    requires WellFormed(t)
    ensures DepsFirst(t, DependencyOrder(t))
  {
    var f := FinalInv(t);
  }

  /** Exactly the tasks whose known dependencies are all emitted and which
      name no known task twice are emitted: a repeated entry raises the
      in-degree twice but is taken off only once. */
  lemma OrderMembers(t: Table, x: string)
    requires WellFormed(t)
    ensures x in DependencyOrder(t) <==>
              && x in t.ids
              && NoRepeatedKnown(t, Deps(t, x))
              && forall d :: d in Deps(t, x) && d in t.ids ==> d in DependencyOrder(t)
  {
    var f := FinalInv(t);
    assert f.result + f.queue == f.result;
    if x in t.ids {
      DegreeFacts(t, f.result, Deps(t, x));
    }
  }

  /** A task that lists a known task twice never runs. */
  lemma RepeatedDependencyNeverRuns(t: Table, x: string, i: nat, j: nat)
    requires WellFormed(t)
    requires i < j < |Deps(t, x)| && Deps(t, x)[i] == Deps(t, x)[j] && Deps(t, x)[i] in t.ids
    ensures x !in DependencyOrder(t)
  {
    OrderMembers(t, x);
  }

  /** A task that depends on a known task that is never emitted is not emitted either. */
  lemma DownstreamNeverRuns(t: Table, x: string, d: string)
    requires WellFormed(t)
    requires d in Deps(t, x) && d in t.ids && d !in DependencyOrder(t)
    ensures x !in DependencyOrder(t)
  {
    OrderMembers(t, x);
  }

  /** Every task of the group depends on a known task of the same group,
      the one `via` names. */
  ghost predicate Closed(t: Table, group: set<string>, via: map<string, string>) {
    && group <= via.Keys
    && forall x {:trigger via[x]} :: x in group ==>
         via[x] in Deps(t, x) && via[x] in t.ids && via[x] in group
  }

  /** No task of a closed group is emitted: the earliest one would have to
      follow another. */
  lemma {:induction false} ClosedGroupPrefix(t: Table, order: seq<string>, group: set<string>, via: map<string, string>, i: nat)
    requires DepsFirst(t, order) && i <= |order|
    requires Closed(t, group, via)
    ensures forall k :: 0 <= k < i ==> order[k] !in group
  {
    if i > 0 {
      ClosedGroupPrefix(t, order, group, via, i - 1);
      ClosedGroupNext(t, order, group, via, i - 1);
    }
  }

  lemma ClosedGroupNext(t: Table, order: seq<string>, group: set<string>, via: map<string, string>, i: nat)
    requires DepsFirst(t, order) && i < |order|
    requires Closed(t, group, via)
    requires forall k :: 0 <= k < i ==> order[k] !in group
    ensures order[i] !in group
  {
    var x := order[i];
    if x in group {
      assert false;
    }
  }

  lemma ClosedGroupNeverRuns(t: Table, group: set<string>, via: map<string, string>)
    requires WellFormed(t)
    requires Closed(t, group, via)
    ensures forall x :: x in group ==> x !in DependencyOrder(t)
  {
    var order := DependencyOrder(t);
    OrderDepsFirst(t);
    ClosedGroupPrefix(t, order, group, via, |order|);
  }

  /** Two known tasks that depend on each other are both left out. */
  lemma CycleNeverRuns(t: Table, x: string, y: string)
    requires WellFormed(t)
    requires x in t.ids && y in t.ids && y in Deps(t, x) && x in Deps(t, y)
    ensures x !in DependencyOrder(t) && y !in DependencyOrder(t)
  {
    var via := map[x := y, y := x];
    assert via[x] == y && via[y] == x;
    ClosedGroupNeverRuns(t, {x, y}, via);
  }

  /** The known dependencies of every task have a smaller rank than the task. */
  ghost predicate Ranked(t: Table, rank: map<string, nat>) {
    forall x :: x in t.ids ==>
      x in rank && forall d :: d in Deps(t, x) && d in t.ids ==> d in rank && rank[d] < rank[x]
  }

  lemma {:induction false} RankedBelow(t: Table, rank: map<string, nat>, r: nat)
    requires WellFormed(t) && Ranked(t, rank)
    requires forall x :: x in t.ids ==> NoRepeatedKnown(t, Deps(t, x))
    ensures forall x :: x in t.ids && rank[x] < r ==> x in DependencyOrder(t)
  {
    if r > 0 {
      RankedBelow(t, rank, r - 1);
      forall x | x in t.ids && rank[x] == r - 1 ensures x in DependencyOrder(t) {
        OrderMembers(t, x);
      }
    }
  }

  /** Without cycles and repeated entries every task is emitted. */
  lemma RankedAllRun(t: Table, rank: map<string, nat>)
    requires WellFormed(t) && Ranked(t, rank)
    requires forall x :: x in t.ids ==> NoRepeatedKnown(t, Deps(t, x))
    ensures forall x :: x in t.ids ==> x in DependencyOrder(t)
    ensures |DependencyOrder(t)| == |t.ids|
  {
    forall x | x in t.ids ensures x in DependencyOrder(t) {
      RankedBelow(t, rank, rank[x] + 1);
    }
    OrderDistinct(t);
    DistinctSubsetLength(t.ids, DependencyOrder(t));
    DistinctSubsetLength(DependencyOrder(t), t.ids);
  }

  // ---------------------------------------------------------------------
  // Running the tasks.

  /** Why a task failed. A script that is missing, exits with a non-zero
      code, times out or raises is `ScriptFailed`. */
  datatype Failure = NoFailure | UnknownTask | DependencyNotCompleted(dep: string) | ScriptFailed

  datatype TaskResult = TaskResult(taskId: string, status: TaskStatus, error: Failure)

  /** A dependency counts as met once a result for it is recorded and that result is Completed. */
  predicate Finished(results: map<string, TaskResult>, d: string) {
    d in results && results[d].status == Completed
  }

  /** The position of the first dependency that is not met, or the length of the list. */
  function FirstUnfinished(results: map<string, TaskResult>, ds: seq<string>): (i: nat)
    ensures i <= |ds|
    ensures forall j :: 0 <= j < i ==> Finished(results, ds[j])
    ensures i < |ds| ==> !Finished(results, ds[i])
  {
    if ds == [] then 0
    else if !Finished(results, ds[0]) then 0
    else 1 + FirstUnfinished(results, ds[1..])
  }

  /** The result of running task `id` with the results recorded so far;
      `succeeds` holds the tasks whose script would exit with code 0 in time. */
  function TaskRun(t: Table, results: map<string, TaskResult>, id: string, succeeds: set<string>): TaskResult {
    if id !in t.ids then TaskResult(id, Failed, UnknownTask)
    else
      var ds := Deps(t, id);
      var i := FirstUnfinished(results, ds);
      if i < |ds| then TaskResult(id, Failed, DependencyNotCompleted(ds[i]))
      else if id in succeeds then TaskResult(id, Completed, NoFailure)
      else TaskResult(id, Failed, ScriptFailed)
  }

  /** The gate: a task completes exactly when it is known, every dependency
      it lists has completed, and its script succeeds; otherwise it fails,
      naming the first dependency that has not completed. */
  lemma TaskRunGate(t: Table, results: map<string, TaskResult>, id: string, succeeds: set<string>)
    ensures var r := TaskRun(t, results, id, succeeds);
      && r.taskId == id
      && (r.status == Completed || r.status == Failed)
      && (r.status == Completed <==>
            id in t.ids && (forall d :: d in Deps(t, id) ==> Finished(results, d)) && id in succeeds)
      && (r.error == UnknownTask <==> id !in t.ids)
      && (r.error.DependencyNotCompleted? ==>
            id in t.ids && r.error.dep in Deps(t, id) && !Finished(results, r.error.dep))
  {
    if id in t.ids {
      var ds := Deps(t, id);
      var i := FirstUnfinished(results, ds);
      if i == |ds| {
        forall d | d in ds ensures Finished(results, d) {
          var j :| 0 <= j < |ds| && ds[j] == d;
        }
      }
    }
  }

  /** A task listing a dependency with no recorded result fails, whether or
      not that dependency is a known task. */
  lemma MissingDependencyFails(t: Table, results: map<string, TaskResult>, id: string, succeeds: set<string>, d: string)
    requires d in Deps(t, id) && !Finished(results, d)
    ensures TaskRun(t, results, id, succeeds).status == Failed
  {
    TaskRunGate(t, results, id, succeeds);
  }

  /** The tasks a run attempts: the dependency order, restricted to the
      filter when one is given, with no dependency added. */
  function TasksToRun(order: seq<string>, filter: seq<string>): (r: seq<string>)
    ensures forall x :: x in r <==> x in order && (filter == [] || x in filter)
  {
    if filter == [] then order
    else if order == [] then []
    else (if order[0] in filter then [order[0]] else []) + TasksToRun(order[1..], filter)
  }

  lemma {:induction false} TasksToRunDistinct(order: seq<string>, filter: seq<string>)
    requires Distinct(order)
    ensures Distinct(TasksToRun(order, filter))
  {
    if filter != [] && order != [] {
      TasksToRunDistinct(order[1..], filter);
      var rest := TasksToRun(order[1..], filter);
      if order[0] in filter {
        assert order[0] !in order[1..];
        DistinctAppend([order[0]], rest);
      }
    }
  }

  /** The results after running `ids` in turn from `results`, each result
      recorded under its task, stopping after the first failure. */
  function Attempt(t: Table, results: map<string, TaskResult>, ids: seq<string>, succeeds: set<string>)
    : map<string, TaskResult>
    decreases |ids|
  {
    if ids == [] then results
    else
      var r := TaskRun(t, results, ids[0], succeeds);
      if r.status == Failed then results[ids[0] := r]
      else Attempt(t, results[ids[0] := r], ids[1..], succeeds)
  }

  /** How many of `ids` a run attempts. */
  function Attempted(t: Table, results: map<string, TaskResult>, ids: seq<string>, succeeds: set<string>): (n: nat)
    ensures n <= |ids| && (ids != [] ==> 0 < n)
    decreases |ids|
  {
    if ids == [] then 0
    else
      var r := TaskRun(t, results, ids[0], succeeds);
      if r.status == Failed then 1
      else 1 + Attempted(t, results[ids[0] := r], ids[1..], succeeds)
  }

  /** The results hold exactly the earlier results and the attempted tasks,
      and the earlier results of tasks not attempted are kept. */
  lemma {:induction false} AttemptKeys(t: Table, results: map<string, TaskResult>, ids: seq<string>, succeeds: set<string>)
    ensures var k, after := Attempted(t, results, ids, succeeds), Attempt(t, results, ids, succeeds);
      && (forall x :: x in after <==> x in results || x in ids[..k])
      && (forall x :: x in results && x !in ids[..k] ==> after[x] == results[x])
    decreases |ids|
  {
    if ids != [] {
      var r := TaskRun(t, results, ids[0], succeeds);
      var rest := results[ids[0] := r];
      if r.status != Failed {
        AttemptKeys(t, rest, ids[1..], succeeds);
        var k' := Attempted(t, rest, ids[1..], succeeds);
        var after := Attempt(t, rest, ids[1..], succeeds);
        assert Attempted(t, results, ids, succeeds) == k' + 1;
        assert Attempt(t, results, ids, succeeds) == after;
        AttemptKeysStep(results, ids, r, after, k');
      } else {
        assert ids[..1] == [ids[0]];
      }
    }
  }

  /** The keys of a run that first records `r` for the head of `ids`. */
  lemma AttemptKeysStep(results: map<string, TaskResult>, ids: seq<string>, r: TaskResult,
                        after: map<string, TaskResult>, k': nat)
    requires ids != [] && k' < |ids|
    requires forall x :: x in after <==> x in results[ids[0] := r] || x in ids[1..][..k']
    requires forall x :: x in results[ids[0] := r] && x !in ids[1..][..k'] ==> after[x] == results[ids[0] := r][x]
    ensures forall x :: x in after <==> x in results || x in ids[..k' + 1]
    ensures forall x :: x in results && x !in ids[..k' + 1] ==> after[x] == results[x]
  {
    assert ids[..k' + 1] == [ids[0]] + ids[1..][..k'];
  }

  /** Every attempted task but the last completed, each result names its
      task, and a run that stops before the end stops at a failure. */
  lemma {:induction false} AttemptStatus(t: Table, results: map<string, TaskResult>, ids: seq<string>, succeeds: set<string>)
    requires Distinct(ids)
    ensures var k, after := Attempted(t, results, ids, succeeds), Attempt(t, results, ids, succeeds);
      && (forall j :: 0 <= j < k ==> ids[j] in after && after[ids[j]].taskId == ids[j])
      && (forall j :: 0 <= j < k - 1 ==> after[ids[j]].status == Completed)
      && (k < |ids| ==> after[ids[k - 1]].status == Failed)
    decreases |ids|
  {
    if ids != [] {
      var r := TaskRun(t, results, ids[0], succeeds);
      TaskRunGate(t, results, ids[0], succeeds);
      var rest := results[ids[0] := r];
      if r.status != Failed {
        AttemptStatus(t, rest, ids[1..], succeeds);
        AttemptKeys(t, rest, ids[1..], succeeds);
        var k' := Attempted(t, rest, ids[1..], succeeds);
        var after := Attempt(t, rest, ids[1..], succeeds);
        assert ids[0] !in ids[1..][..k'] by {
          assert ids[1..][..k'] == ids[1..k' + 1];
        }
        AttemptStatusStep(ids, r, after, k');
      }
    }
  }

  /** One completed task in front of a run whose attempted tasks are named,
      completed but for the last, and end at a failure when cut short. */
  lemma AttemptStatusStep(ids: seq<string>, r: TaskResult, after: map<string, TaskResult>, k': nat)
    requires ids != [] && k' < |ids| && (|ids| > 1 ==> 0 < k')
    requires r.taskId == ids[0] && r.status == Completed && ids[0] in after && after[ids[0]] == r
    requires forall j :: 0 <= j < k' ==> ids[1..][j] in after && after[ids[1..][j]].taskId == ids[1..][j]
    requires forall j :: 0 <= j < k' - 1 ==> after[ids[1..][j]].status == Completed
    requires k' < |ids| - 1 ==> after[ids[1..][k' - 1]].status == Failed
    ensures forall j :: 0 <= j < k' + 1 ==> ids[j] in after && after[ids[j]].taskId == ids[j]
    ensures forall j :: 0 <= j < k' ==> after[ids[j]].status == Completed
    ensures k' + 1 < |ids| ==> after[ids[k']].status == Failed
  {
    forall j | 0 < j < k' + 1 ensures ids[j] == ids[1..][j - 1] {
    }
  }

  /** A task whose dependency is neither attempted earlier in the same run
      nor already completed fails when its turn comes: in a filtered run a
      dependency left out of the filter is not added, and a dependency that
      names no task is never attempted. */
  lemma {:induction false} AttemptOutsideDependencyFails(t: Table, results: map<string, TaskResult>, ids: seq<string>,
                                                          succeeds: set<string>, x: string, d: string)
    requires Distinct(ids)
    requires d in Deps(t, x) && d !in ids && !Finished(results, d)
    requires x in ids[..Attempted(t, results, ids, succeeds)]
    ensures x in Attempt(t, results, ids, succeeds) && Attempt(t, results, ids, succeeds)[x].status == Failed
    decreases |ids|
  {
    var r := TaskRun(t, results, ids[0], succeeds);
    if ids[0] == x {
      MissingDependencyFails(t, results, x, succeeds, d);
    } else {
      var rest := results[ids[0] := r];
      assert r.status != Failed;
      assert x in ids[1..][..Attempted(t, rest, ids[1..], succeeds)];
      AttemptOutsideDependencyFails(t, rest, ids[1..], succeeds, x, d);
    }
  }

  /** In a filtered run, a task whose dependency is left out of the filter,
      or names no task, fails unless that dependency already completed. */
  lemma FilteredDependencyFails(t: Table, results: map<string, TaskResult>, filter: seq<string>,
                                succeeds: set<string>, x: string, d: string)
    requires WellFormed(t)
    requires d in Deps(t, x) && (d !in t.ids || (filter != [] && d !in filter)) && !Finished(results, d)
    requires var ids := TasksToRun(DependencyOrder(t), filter);
      x in ids[..Attempted(t, results, ids, succeeds)]
    ensures var after := Attempt(t, results, TasksToRun(DependencyOrder(t), filter), succeeds);
      x in after && after[x].status == Failed
  {
    OrderDistinct(t);
    TasksToRunDistinct(DependencyOrder(t), filter);
    AttemptOutsideDependencyFails(t, results, TasksToRun(DependencyOrder(t), filter), succeeds, x, d);
  }

  /** When every task runs after everything it lists and every script
      succeeds, the run attempts all tasks and each completes. */
  lemma {:induction false} AttemptAllComplete(t: Table, results: map<string, TaskResult>, ids: seq<string>, succeeds: set<string>)
    requires forall j :: 0 <= j < |ids| ==> ids[j] in t.ids && ids[j] in succeeds
    requires forall j, d :: 0 <= j < |ids| && d in Deps(t, ids[j]) ==> d in ids[..j] || Finished(results, d)
    ensures Attempted(t, results, ids, succeeds) == |ids|
    ensures forall x :: x in ids ==> Finished(Attempt(t, results, ids, succeeds), x)
    decreases |ids|
  {
    if ids != [] {
      var r := TaskRun(t, results, ids[0], succeeds);
      TaskRunGate(t, results, ids[0], succeeds);
      forall d | d in Deps(t, ids[0]) ensures Finished(results, d) {
        assert d in ids[..0] || Finished(results, d);
      }
      assert r.status == Completed;
      var rest := results[ids[0] := r];
      var tail := ids[1..];
      forall j, d | 0 <= j < |tail| && d in Deps(t, tail[j]) ensures d in tail[..j] || Finished(rest, d) {
        assert tail[j] == ids[j + 1];
        assert ids[..j + 1] == [ids[0]] + tail[..j];
        assert d in ids[..j + 1] || Finished(results, d);
        if d != ids[0] && d !in tail[..j] {
          assert Finished(results, d);
        }
      }
      AttemptAllComplete(t, rest, tail, succeeds);
      AttemptKeys(t, rest, tail, succeeds);
      assert tail[..|tail|] == tail;
    }
  }

  /** A full run from an empty record, with every dependency naming a known
      task and every script succeeding, completes every task of the order. */
  lemma FullRunCompletes(t: Table, succeeds: set<string>)
    requires WellFormed(t)
    requires forall x, d :: x in t.ids && d in Deps(t, x) ==> d in t.ids
    requires forall x :: x in t.ids ==> x in succeeds
    ensures var order := DependencyOrder(t);
      && Attempted(t, map[], order, succeeds) == |order|
      && forall x :: x in order ==> Finished(Attempt(t, map[], order, succeeds), x)
  {
    var order := DependencyOrder(t);
    OrderDistinct(t);
    OrderDepsFirst(t);
    AttemptAllComplete(t, map[], order, succeeds);
  }

  // ---------------------------------------------------------------------
  // The built-in table, iteration by iteration. The tasks are named by
  // their position in the table, so no two names need to be compared
  // character by character.

  /** What the run over the built-in table needs to know of it. */
  ghost predicate BuiltInShape(t: Table) {
    && |t.ids| == 8 && Distinct(t.ids)
    && Deps(t, t.ids[0]) == [t.ids[5]]
    && Deps(t, t.ids[1]) == [t.ids[5]]
    && Deps(t, t.ids[2]) == [t.ids[1]]
    && Deps(t, t.ids[3]) == [t.ids[5]]
    && Deps(t, t.ids[4]) == [t.ids[5]]
    && Deps(t, t.ids[5]) == []
    && Deps(t, t.ids[6]) == [t.ids[3], t.ids[4]]
    && Deps(t, t.ids[7]) == [t.ids[0], t.ids[1], t.ids[2]]
  }

  lemma BuiltInHasShape()
    ensures BuiltInShape(BuiltIn())
  {
  }

  lemma BuiltInWellFormed()
    ensures WellFormed(BuiltIn())
  {
  }

  /** A state of the run over the built-in table, given by the in-degrees
      of the tasks in table order, the queue and the result. */
  ghost predicate BuiltInAt(t: Table, s: KahnState, degrees: seq<int>, queue: seq<string>, result: seq<string>) {
    && |degrees| == |t.ids|
    && (forall i :: 0 <= i < |t.ids| ==> t.ids[i] in s.indeg && s.indeg[t.ids[i]] == degrees[i])
    && s.queue == queue && s.result == result
  }

  lemma BuiltInKnown(t: Table)
    requires BuiltInShape(t)
    ensures KnownCount(t, Deps(t, t.ids[0])) == 1
    ensures KnownCount(t, Deps(t, t.ids[1])) == 1
    ensures KnownCount(t, Deps(t, t.ids[2])) == 1
    ensures KnownCount(t, Deps(t, t.ids[3])) == 1
    ensures KnownCount(t, Deps(t, t.ids[4])) == 1
    ensures KnownCount(t, Deps(t, t.ids[5])) == 0
    ensures KnownCount(t, Deps(t, t.ids[6])) == 2
    ensures KnownCount(t, Deps(t, t.ids[7])) == 3
  {
    assert KnownCount(t, []) == 0;
    assert KnownCount(t, [t.ids[5]]) == 1;
    assert KnownCount(t, [t.ids[1]]) == 1;
    assert KnownCount(t, [t.ids[3], t.ids[4]]) == 2 by {
      assert [t.ids[3], t.ids[4]][..1] == [t.ids[3]];
      assert KnownCount(t, [t.ids[3]]) == 1;
    }
    assert KnownCount(t, [t.ids[0], t.ids[1], t.ids[2]]) == 3 by {
      assert [t.ids[0], t.ids[1], t.ids[2]][..2] == [t.ids[0], t.ids[1]];
      assert [t.ids[0], t.ids[1]][..1] == [t.ids[0]];
      assert KnownCount(t, [t.ids[0]]) == 1;
      assert KnownCount(t, [t.ids[0], t.ids[1]]) == 2;
    }
  }

  /** Only the sixth built-in task starts with no known dependency. */
  lemma BuiltInZeroDegree(t: Table)
    requires BuiltInShape(t)
    ensures ZeroDegree(t, |t.ids|) == [t.ids[5]]
  {
    BuiltInKnown(t);
    assert ZeroDegree(t, 1) == [];
    assert ZeroDegree(t, 2) == [];
    assert ZeroDegree(t, 3) == [];
    assert ZeroDegree(t, 4) == [];
    assert ZeroDegree(t, 5) == [];
    assert ZeroDegree(t, 6) == [t.ids[5]];
    assert ZeroDegree(t, 7) == [t.ids[5]];
  }

  lemma BuiltInInitial(t: Table)
    requires BuiltInShape(t)
    ensures BuiltInAt(t, Initial(t), [1, 1, 1, 1, 1, 0, 2, 3], [t.ids[5]], [])
  {
    BuiltInKnown(t);
    BuiltInZeroDegree(t);
    var degrees := [1, 1, 1, 1, 1, 0, 2, 3];
    forall i | 0 <= i < |t.ids| ensures t.ids[i] in Initial(t).indeg && Initial(t).indeg[t.ids[i]] == degrees[i] {
      assert Initial(t).indeg[t.ids[i]] == KnownCount(t, Deps(t, t.ids[i]));
    }
  }

  /** One iteration over the built-in table, with the tasks it releases and
      the in-degrees it leaves. */
  lemma BuiltInStep(t: Table, s: KahnState, degrees: seq<int>, queue: seq<string>, result: seq<string>,
                    rel: seq<string>, after: seq<int>)
    requires Distinct(t.ids) && BuiltInAt(t, s, degrees, queue, result) && queue != []
    requires Released(t, queue[0], s.indeg, |t.ids|) == rel
    requires |after| == |t.ids|
    requires forall i :: 0 <= i < |t.ids| ==>
               after[i] == if queue[0] in Deps(t, t.ids[i]) then degrees[i] - 1 else degrees[i]
    ensures BuiltInAt(t, Step(t, s), after, queue[1..] + rel, result + [queue[0]])
  {
    PassFacts(t, queue[0], s.indeg, queue[1..], |t.ids|);
    assert t.ids[..|t.ids|] == t.ids;
  }

  lemma BuiltInStep1(t: Table, s: KahnState)
    requires BuiltInShape(t) && BuiltInAt(t, s, [1, 1, 1, 1, 1, 0, 2, 3], [t.ids[5]], [])
    ensures BuiltInAt(t, Step(t, s), [0, 0, 1, 0, 0, 0, 2, 3], [t.ids[0], t.ids[1], t.ids[3], t.ids[4]], [t.ids[5]])
  {
    assert Released(t, t.ids[5], s.indeg, 1) == [t.ids[0]];
    assert Released(t, t.ids[5], s.indeg, 2) == [t.ids[0], t.ids[1]];
    assert Released(t, t.ids[5], s.indeg, 3) == [t.ids[0], t.ids[1]];
    assert Released(t, t.ids[5], s.indeg, 4) == [t.ids[0], t.ids[1], t.ids[3]];
    assert Released(t, t.ids[5], s.indeg, 5) == [t.ids[0], t.ids[1], t.ids[3], t.ids[4]];
    assert Released(t, t.ids[5], s.indeg, 6) == [t.ids[0], t.ids[1], t.ids[3], t.ids[4]];
    assert Released(t, t.ids[5], s.indeg, 7) == [t.ids[0], t.ids[1], t.ids[3], t.ids[4]];
    assert Released(t, t.ids[5], s.indeg, 8) == [t.ids[0], t.ids[1], t.ids[3], t.ids[4]];
    BuiltInStep(t, s, [1, 1, 1, 1, 1, 0, 2, 3], [t.ids[5]], [], [t.ids[0], t.ids[1], t.ids[3], t.ids[4]], [0, 0, 1, 0, 0, 0, 2, 3]);
  }

  lemma BuiltInStep2(t: Table, s: KahnState)
    requires BuiltInShape(t) && BuiltInAt(t, s, [0, 0, 1, 0, 0, 0, 2, 3], [t.ids[0], t.ids[1], t.ids[3], t.ids[4]], [t.ids[5]])
    ensures BuiltInAt(t, Step(t, s), [0, 0, 1, 0, 0, 0, 2, 2], [t.ids[1], t.ids[3], t.ids[4]], [t.ids[5], t.ids[0]])
  {
    assert Released(t, t.ids[0], s.indeg, 1) == [];
    assert Released(t, t.ids[0], s.indeg, 2) == [];
    assert Released(t, t.ids[0], s.indeg, 3) == [];
    assert Released(t, t.ids[0], s.indeg, 4) == [];
    assert Released(t, t.ids[0], s.indeg, 5) == [];
    assert Released(t, t.ids[0], s.indeg, 6) == [];
    assert Released(t, t.ids[0], s.indeg, 7) == [];
    assert Released(t, t.ids[0], s.indeg, 8) == [];
    BuiltInStep(t, s, [0, 0, 1, 0, 0, 0, 2, 3], [t.ids[0], t.ids[1], t.ids[3], t.ids[4]], [t.ids[5]], [], [0, 0, 1, 0, 0, 0, 2, 2]);
  }

  lemma BuiltInStep3(t: Table, s: KahnState)
    requires BuiltInShape(t) && BuiltInAt(t, s, [0, 0, 1, 0, 0, 0, 2, 2], [t.ids[1], t.ids[3], t.ids[4]], [t.ids[5], t.ids[0]])
    ensures BuiltInAt(t, Step(t, s), [0, 0, 0, 0, 0, 0, 2, 1], [t.ids[3], t.ids[4], t.ids[2]], [t.ids[5], t.ids[0], t.ids[1]])
  {
    assert Released(t, t.ids[1], s.indeg, 1) == [];
    assert Released(t, t.ids[1], s.indeg, 2) == [];
    assert Released(t, t.ids[1], s.indeg, 3) == [t.ids[2]];
    assert Released(t, t.ids[1], s.indeg, 4) == [t.ids[2]];
    assert Released(t, t.ids[1], s.indeg, 5) == [t.ids[2]];
    assert Released(t, t.ids[1], s.indeg, 6) == [t.ids[2]];
    assert Released(t, t.ids[1], s.indeg, 7) == [t.ids[2]];
    assert Released(t, t.ids[1], s.indeg, 8) == [t.ids[2]];
    BuiltInStep(t, s, [0, 0, 1, 0, 0, 0, 2, 2], [t.ids[1], t.ids[3], t.ids[4]], [t.ids[5], t.ids[0]], [t.ids[2]], [0, 0, 0, 0, 0, 0, 2, 1]);
  }

  lemma BuiltInStep4(t: Table, s: KahnState)
    requires BuiltInShape(t) && BuiltInAt(t, s, [0, 0, 0, 0, 0, 0, 2, 1], [t.ids[3], t.ids[4], t.ids[2]], [t.ids[5], t.ids[0], t.ids[1]])
    ensures BuiltInAt(t, Step(t, s), [0, 0, 0, 0, 0, 0, 1, 1], [t.ids[4], t.ids[2]], [t.ids[5], t.ids[0], t.ids[1], t.ids[3]])
  {
    assert Released(t, t.ids[3], s.indeg, 1) == [];
    assert Released(t, t.ids[3], s.indeg, 2) == [];
    assert Released(t, t.ids[3], s.indeg, 3) == [];
    assert Released(t, t.ids[3], s.indeg, 4) == [];
    assert Released(t, t.ids[3], s.indeg, 5) == [];
    assert Released(t, t.ids[3], s.indeg, 6) == [];
    assert Released(t, t.ids[3], s.indeg, 7) == [];
    assert Released(t, t.ids[3], s.indeg, 8) == [];
    BuiltInStep(t, s, [0, 0, 0, 0, 0, 0, 2, 1], [t.ids[3], t.ids[4], t.ids[2]], [t.ids[5], t.ids[0], t.ids[1]], [], [0, 0, 0, 0, 0, 0, 1, 1]);
  }

  lemma BuiltInStep5(t: Table, s: KahnState)
    requires BuiltInShape(t) && BuiltInAt(t, s, [0, 0, 0, 0, 0, 0, 1, 1], [t.ids[4], t.ids[2]], [t.ids[5], t.ids[0], t.ids[1], t.ids[3]])
    ensures BuiltInAt(t, Step(t, s), [0, 0, 0, 0, 0, 0, 0, 1], [t.ids[2], t.ids[6]], [t.ids[5], t.ids[0], t.ids[1], t.ids[3], t.ids[4]])
  {
    assert Released(t, t.ids[4], s.indeg, 1) == [];
    assert Released(t, t.ids[4], s.indeg, 2) == [];
    assert Released(t, t.ids[4], s.indeg, 3) == [];
    assert Released(t, t.ids[4], s.indeg, 4) == [];
    assert Released(t, t.ids[4], s.indeg, 5) == [];
    assert Released(t, t.ids[4], s.indeg, 6) == [];
    assert Released(t, t.ids[4], s.indeg, 7) == [t.ids[6]];
    assert Released(t, t.ids[4], s.indeg, 8) == [t.ids[6]];
    BuiltInStep(t, s, [0, 0, 0, 0, 0, 0, 1, 1], [t.ids[4], t.ids[2]], [t.ids[5], t.ids[0], t.ids[1], t.ids[3]], [t.ids[6]], [0, 0, 0, 0, 0, 0, 0, 1]);
  }

  lemma BuiltInStep6(t: Table, s: KahnState)
    requires BuiltInShape(t) && BuiltInAt(t, s, [0, 0, 0, 0, 0, 0, 0, 1], [t.ids[2], t.ids[6]], [t.ids[5], t.ids[0], t.ids[1], t.ids[3], t.ids[4]])
    ensures BuiltInAt(t, Step(t, s), [0, 0, 0, 0, 0, 0, 0, 0], [t.ids[6], t.ids[7]], [t.ids[5], t.ids[0], t.ids[1], t.ids[3], t.ids[4], t.ids[2]])
  {
    assert Released(t, t.ids[2], s.indeg, 1) == [];
    assert Released(t, t.ids[2], s.indeg, 2) == [];
    assert Released(t, t.ids[2], s.indeg, 3) == [];
    assert Released(t, t.ids[2], s.indeg, 4) == [];
    assert Released(t, t.ids[2], s.indeg, 5) == [];
    assert Released(t, t.ids[2], s.indeg, 6) == [];
    assert Released(t, t.ids[2], s.indeg, 7) == [];
    assert Released(t, t.ids[2], s.indeg, 8) == [t.ids[7]];
    BuiltInStep(t, s, [0, 0, 0, 0, 0, 0, 0, 1], [t.ids[2], t.ids[6]], [t.ids[5], t.ids[0], t.ids[1], t.ids[3], t.ids[4]], [t.ids[7]], [0, 0, 0, 0, 0, 0, 0, 0]);
  }

  lemma BuiltInStep7(t: Table, s: KahnState)
    requires BuiltInShape(t) && BuiltInAt(t, s, [0, 0, 0, 0, 0, 0, 0, 0], [t.ids[6], t.ids[7]], [t.ids[5], t.ids[0], t.ids[1], t.ids[3], t.ids[4], t.ids[2]])
    ensures BuiltInAt(t, Step(t, s), [0, 0, 0, 0, 0, 0, 0, 0], [t.ids[7]], [t.ids[5], t.ids[0], t.ids[1], t.ids[3], t.ids[4], t.ids[2], t.ids[6]])
  {
    assert Released(t, t.ids[6], s.indeg, 1) == [];
    assert Released(t, t.ids[6], s.indeg, 2) == [];
    assert Released(t, t.ids[6], s.indeg, 3) == [];
    assert Released(t, t.ids[6], s.indeg, 4) == [];
    assert Released(t, t.ids[6], s.indeg, 5) == [];
    assert Released(t, t.ids[6], s.indeg, 6) == [];
    assert Released(t, t.ids[6], s.indeg, 7) == [];
    assert Released(t, t.ids[6], s.indeg, 8) == [];
    BuiltInStep(t, s, [0, 0, 0, 0, 0, 0, 0, 0], [t.ids[6], t.ids[7]], [t.ids[5], t.ids[0], t.ids[1], t.ids[3], t.ids[4], t.ids[2]], [], [0, 0, 0, 0, 0, 0, 0, 0]);
  }

  lemma BuiltInStep8(t: Table, s: KahnState)
    requires BuiltInShape(t) && BuiltInAt(t, s, [0, 0, 0, 0, 0, 0, 0, 0], [t.ids[7]], [t.ids[5], t.ids[0], t.ids[1], t.ids[3], t.ids[4], t.ids[2], t.ids[6]])
    ensures BuiltInAt(t, Step(t, s), [0, 0, 0, 0, 0, 0, 0, 0], [], [t.ids[5], t.ids[0], t.ids[1], t.ids[3], t.ids[4], t.ids[2], t.ids[6], t.ids[7]])
  {
    assert Released(t, t.ids[7], s.indeg, 1) == [];
    assert Released(t, t.ids[7], s.indeg, 2) == [];
    assert Released(t, t.ids[7], s.indeg, 3) == [];
    assert Released(t, t.ids[7], s.indeg, 4) == [];
    assert Released(t, t.ids[7], s.indeg, 5) == [];
    assert Released(t, t.ids[7], s.indeg, 6) == [];
    assert Released(t, t.ids[7], s.indeg, 7) == [];
    assert Released(t, t.ids[7], s.indeg, 8) == [];
    BuiltInStep(t, s, [0, 0, 0, 0, 0, 0, 0, 0], [t.ids[7]], [t.ids[5], t.ids[0], t.ids[1], t.ids[3], t.ids[4], t.ids[2], t.ids[6]], [], [0, 0, 0, 0, 0, 0, 0, 0]);
  }

  /** With the built-in table the tasks run in the order T06, T01, T02, T04, T05, T03, T07, T08. */
  lemma BuiltInOrder()
    ensures DependencyOrder(BuiltIn()) == ["T06", "T01", "T02", "T04", "T05", "T03", "T07", "T08"]
  {
    var t := BuiltIn();
    BuiltInHasShape();
    var s0 := Initial(t);
    BuiltInInitial(t);
    var s1 := Step(t, s0);
    BuiltInStep1(t, s0);
    var s2 := Step(t, s1);
    BuiltInStep2(t, s1);
    var s3 := Step(t, s2);
    BuiltInStep3(t, s2);
    var s4 := Step(t, s3);
    BuiltInStep4(t, s3);
    var s5 := Step(t, s4);
    BuiltInStep5(t, s4);
    var s6 := Step(t, s5);
    BuiltInStep6(t, s5);
    var s7 := Step(t, s6);
    BuiltInStep7(t, s6);
    var s8 := Step(t, s7);
    BuiltInStep8(t, s7);
    assert Run(t, s0, 8) == Run(t, s1, 7);
    assert Run(t, s1, 7) == Run(t, s2, 6);
    assert Run(t, s2, 6) == Run(t, s3, 5);
    assert Run(t, s3, 5) == Run(t, s4, 4);
    assert Run(t, s4, 4) == Run(t, s5, 3);
    assert Run(t, s5, 3) == Run(t, s6, 2);
    assert Run(t, s6, 2) == Run(t, s7, 1);
    assert Run(t, s7, 1) == Run(t, s8, 0);
    assert DependencyOrder(t) == [t.ids[5], t.ids[0], t.ids[1], t.ids[3], t.ids[4], t.ids[2], t.ids[6], t.ids[7]];
  }
}
