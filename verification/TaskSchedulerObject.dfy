// The task scheduler as the object it is
// (src/claude-code-analyzer/task_scheduler.py): `TaskScheduler` holds the
// task table and the results recorded so far; `get_task_dependency_order`
// counts in-degrees and drains a first-in first-out queue, `run_task` checks
// the dependency gate, and `run_all_tasks` runs the order and stops at the
// first failure. Each method is proved against the functions of
// TaskScheduling.

module TaskSchedulerObject {
  import opened Ordering
  import opened TaskScheduling

  /** The in-degree counting loop for one task: one added for each entry of
      its dependency list that is a key of the in-degree map. */
  method CountKnown(t: Table, indeg: map<string, int>, x: string) returns (r: map<string, int>)
    requires x in indeg && forall y :: y in indeg <==> y in t.ids
    ensures r == indeg[x := indeg[x] + KnownCount(t, Deps(t, x))]
  {
    var ds := Deps(t, x);
    r := indeg;
    for k := 0 to |ds|
      invariant r == indeg[x := indeg[x] + KnownCount(t, ds[..k])]
    {
      assert ds[..k + 1][..k] == ds[..k];
      if ds[k] in r {
        r := r[x := r[x] + 1];
      }
    }
    assert ds[..|ds|] == ds;
  }

  /** The in-degree of every task: the entries of its list that name a task. */
  method CountDegrees(t: Table) returns (indeg: map<string, int>)
    requires WellFormed(t)
    ensures indeg == InitialDegrees(t)
  {
    indeg := map x | x in t.ids :: 0;
    for i := 0 to |t.ids|
      invariant forall y :: y in indeg <==> y in t.ids
      invariant forall y :: y in t.ids ==> indeg[y] == if y in t.ids[..i] then KnownCount(t, Deps(t, y)) else 0
    {
      var x := t.ids[i];
      assert x !in t.ids[..i];
      ghost var before := indeg;
      indeg := CountKnown(t, indeg, x);
      assert t.ids[..i + 1] == t.ids[..i] + [x];
      forall y | y in t.ids
        ensures indeg[y] == if y in t.ids[..i + 1] then KnownCount(t, Deps(t, y)) else 0
      {
        if y != x {
          assert indeg[y] == before[y];
        }
      }
    }
    assert t.ids[..|t.ids|] == t.ids;
  }

  /** The inner loop after `current` is dequeued: every task listing it loses
      one from its in-degree and joins the queue when that reaches 0. */
  method Release(t: Table, current: string, indeg: map<string, int>, queue: seq<string>)
    returns (degrees: map<string, int>, waiting: seq<string>)
    requires forall x :: x in t.ids ==> x in indeg
    ensures (degrees, waiting) == Pass(t, current, indeg, queue, |t.ids|)
  {
    degrees, waiting := indeg, queue;
    for j := 0 to |t.ids|
      invariant (degrees, waiting) == Pass(t, current, indeg, queue, j)
    {
      var x := t.ids[j];
      if current in Deps(t, x) {
        degrees := degrees[x := degrees[x] - 1];
        if degrees[x] == 0 {
          waiting := waiting + [x];
        }
      }
    }
  }

  class TaskScheduler {
    /** `_define_tasks`: the task table, fixed once the scheduler exists. */
    const tasks: Table
    var taskResults: map<string, TaskResult>

    ghost predicate Valid() {
      WellFormed(tasks)
    }

    constructor ()
      ensures tasks == BuiltIn() && taskResults == map[] && Valid()
    {
      tasks := BuiltIn();
      taskResults := map[];
      BuiltInWellFormed();
    }

    /** Kahn's topological sort with a first-in first-out queue. */
    method GetTaskDependencyOrder() returns (result: seq<string>)
      requires Valid()
      ensures result == DependencyOrder(tasks)
    {
      var t := tasks;
      var inDegree := CountDegrees(t);
      var queue := ZeroDegree(t, |t.ids|);
      result := [];
      ghost var s := Start(t);
      ghost var n: nat := |t.ids|;
      while queue != []
        invariant Inv(t, KahnState(inDegree, queue, result))
        invariant |result| + n == |t.ids|
        invariant Run(t, KahnState(inDegree, queue, result), n).result == DependencyOrder(t)
        decreases n
      {
        ghost var next := StepOn(t, KahnState(inDegree, queue, result), n);
        var current := queue[0];
        queue := queue[1..];
        result := result + [current];
        inDegree, queue := Release(t, current, inDegree, queue);
        n := n - 1;
      }
    }

    /** `run_task`: an unknown id fails; a task whose dependencies have not
        all completed fails before anything runs; otherwise the script's
        outcome decides. */
    method RunTask(taskId: string, succeeds: set<string>) returns (r: TaskResult)
      ensures r == TaskRun(tasks, taskResults, taskId, succeeds)
    {
      if taskId !in tasks.ids {
        return TaskResult(taskId, Failed, UnknownTask);
      }
      var ds := Deps(tasks, taskId);
      for i := 0 to |ds|
        invariant forall j :: 0 <= j < i ==> Finished(taskResults, ds[j])
      {
        var dep := ds[i];
        if dep !in taskResults || taskResults[dep].status != Completed {
          return TaskResult(taskId, Failed, DependencyNotCompleted(dep));
        }
      }
      if taskId in succeeds {
        r := TaskResult(taskId, Completed, NoFailure);
      } else {
        r := TaskResult(taskId, Failed, ScriptFailed);
      }
    }

    /** `run_all_tasks`: the dependency order, restricted to the filter when
        one is given, run task by task, each result recorded, stopping after
        the first failure. */
    method RunAllTasks(filter: seq<string>, succeeds: set<string>) returns (results: map<string, TaskResult>)
      requires Valid()
      modifies this
      ensures taskResults == Attempt(tasks, old(taskResults), TasksToRun(DependencyOrder(tasks), filter), succeeds)
      ensures results == taskResults
    {
      var order := GetTaskDependencyOrder();
      var toRun := TasksToRun(order, filter);
      ghost var start := taskResults;
      var i := 0;
      while i < |toRun|
        invariant i <= |toRun|
        invariant Attempt(tasks, start, toRun, succeeds) == Attempt(tasks, taskResults, toRun[i..], succeeds)
      {
        assert toRun[i..][1..] == toRun[i + 1..];
        var r := RunTask(toRun[i], succeeds);
        taskResults := taskResults[toRun[i] := r];
        if r.status == Failed {
          break;
        }
        i := i + 1;
      }
      results := taskResults;
    }
  }
}
