/**
 * Operations on collections of tasks: the `TasksFilter` that narrows a task
 * slice while remembering each survivor's original index, the free filtering
 * functions, and the facet aggregations `num_*` / `collect_*`.
 */
module Tasks {
  import opened Wrappers
  import opened Ordering
  import opened TaskModel
  import Facets

  //----------------------------------------------------------------------------
  // Predicates and the filters they define
  //----------------------------------------------------------------------------

  /** The predicates the filters select by. */
  datatype Criterion =
    | InContext(context: string)
    | InProject(project: string)
    | HasPriority(priority: char)
    | Completion(includeCompleted: bool)

  predicate Matches(t: Task, k: Criterion) {
    match k
    case InContext(c) => c in t.contexts
    case InProject(p) => p in t.projects
    case HasPriority(p) => t.priority == Some(p)
    case Completion(inc) => inc || !t.completed
  }

  /** The tasks of `ts` that match `k`, in their original order. */
  function Filter(ts: seq<Task>, k: Criterion): seq<Task> {
    if ts == [] then []
    else Filter(ts[..|ts| - 1], k) + (if Matches(ts[|ts| - 1], k) then [ts[|ts| - 1]] else [])
  }

  /**
   * A filter step over the two parallel sequences of a `TasksFilter`: the
   * pairs whose task matches `k`, kept in order.
   */
  function Narrow(ts: seq<Task>, idx: seq<nat>, k: Criterion): (r: (seq<Task>, seq<nat>))
    requires |ts| == |idx|
    ensures |r.0| == |r.1|
  {
    if ts == [] then ([], [])
    else
      var (a, b) := Narrow(ts[..|ts| - 1], idx[..|idx| - 1], k);
      if Matches(ts[|ts| - 1], k) then (a + [ts[|ts| - 1]], b + [idx[|idx| - 1]]) else (a, b)
  }

  predicate Increasing(idx: seq<nat>) {
    forall i, j :: 0 <= i < j < |idx| ==> idx[i] < idx[j]
  }

  /**
   * `tasks` and `idx` are parallel, the indices strictly increase, and each
   * task is the `source` task at its index.
   */
  predicate Aligned(source: seq<Task>, ts: seq<Task>, idx: seq<nat>) {
    |ts| == |idx| && Increasing(idx)
    && forall j :: 0 <= j < |idx| ==> idx[j] < |source| && ts[j] == source[idx[j]]
  }

  function Range(n: nat): (r: seq<nat>)
    ensures |r| == n && forall i :: 0 <= i < n ==> r[i] == i
  {
    seq(n, i => i)
  }

  //----------------------------------------------------------------------------
  // Lemmas about the filters
  //----------------------------------------------------------------------------

  lemma {:induction false} FilterMembers(ts: seq<Task>, k: Criterion, t: Task)
    ensures t in Filter(ts, k) <==> t in ts && Matches(t, k)
    decreases |ts|
  {
    if ts != [] {
      var init := ts[..|ts| - 1];
      FilterMembers(init, k, t);
      assert ts == init + [ts[|ts| - 1]];
    }
  }

  lemma {:induction false} FilterLength(ts: seq<Task>, k: Criterion)
    ensures |Filter(ts, k)| <= |ts|
    decreases |ts|
  {
    if ts != [] { FilterLength(ts[..|ts| - 1], k); }
  }

  /** Filtering a concatenation filters each part. */
  lemma {:induction false} FilterAppend(a: seq<Task>, b: seq<Task>, k: Criterion)
    ensures Filter(a + b, k) == Filter(a, k) + Filter(b, k)
    decreases |b|
  {
    if b == [] {
      assert a + b == a;
    } else {
      var binit := b[..|b| - 1];
      assert (a + b)[..|a + b| - 1] == a + binit;
      FilterAppend(a, binit, k);
    }
  }

  /** The task half of a narrowing is the filter of the tasks. */
  lemma {:induction false} NarrowTasks(ts: seq<Task>, idx: seq<nat>, k: Criterion)
    requires |ts| == |idx|
    ensures Narrow(ts, idx, k).0 == Filter(ts, k)
    decreases |ts|
  {
    if ts != [] { NarrowTasks(ts[..|ts| - 1], idx[..|idx| - 1], k); }
  }

  lemma {:induction false} NarrowIndicesFrom(ts: seq<Task>, idx: seq<nat>, k: Criterion)
    requires |ts| == |idx|
    ensures forall x :: x in Narrow(ts, idx, k).1 ==> x in idx
    decreases |ts|
  {
    if ts != [] {
      NarrowIndicesFrom(ts[..|ts| - 1], idx[..|idx| - 1], k);
      assert forall x :: x in idx[..|idx| - 1] ==> x in idx;
    }
  }

  /** Narrowing keeps the two sequences parallel, increasing and tied to the source. */
  lemma {:induction false} NarrowAligned(source: seq<Task>, ts: seq<Task>, idx: seq<nat>, k: Criterion)
    requires Aligned(source, ts, idx)
    ensures Aligned(source, Narrow(ts, idx, k).0, Narrow(ts, idx, k).1)
    decreases |ts|
  {
    if ts != [] {
      var n := |ts|;
      var (a, b) := Narrow(ts[..n - 1], idx[..n - 1], k);
      NarrowAligned(source, ts[..n - 1], idx[..n - 1], k);
      if Matches(ts[n - 1], k) {
        NarrowIndicesFrom(ts[..n - 1], idx[..n - 1], k);
        forall i | 0 <= i < |b|
          ensures b[i] < idx[n - 1]
        {
          assert b[i] in idx[..n - 1];
          var j :| 0 <= j < n - 1 && idx[..n - 1][j] == b[i];
        }
      }
    }
  }

  /** Under alignment, an index survives exactly when it was present and its source task matches. */
  lemma {:induction false} NarrowMembers(source: seq<Task>, ts: seq<Task>, idx: seq<nat>, k: Criterion, i: nat)
    requires Aligned(source, ts, idx)
    ensures i in Narrow(ts, idx, k).1 <==> i in idx && i < |source| && Matches(source[i], k)
    decreases |ts|
  {
    if ts != [] {
      var n := |ts|;
      NarrowMembers(source, ts[..n - 1], idx[..n - 1], k, i);
      assert idx == idx[..n - 1] + [idx[n - 1]];
      if i in idx[..n - 1] {
        var j :| 0 <= j < n - 1 && idx[..n - 1][j] == i;
        assert ts[j] == source[i];
      }
    }
  }

  /** Increasing sequences with the same members start alike. */
  lemma IncreasingHeads(a: seq<nat>, b: seq<nat>)
    requires Increasing(a) && Increasing(b) && a != [] && b != []
    requires forall x :: x in a <==> x in b
    ensures a[0] == b[0]
  {
    assert a[0] in a && b[0] in b;
    var ja :| 0 <= ja < |a| && a[ja] == b[0];
    var jb :| 0 <= jb < |b| && b[jb] == a[0];
    assert a[0] <= a[ja] && b[0] <= b[jb];
  }

  /** ... and then have the same members after their heads. */
  lemma IncreasingTails(a: seq<nat>, b: seq<nat>)
    requires Increasing(a) && Increasing(b) && a != [] && b != [] && a[0] == b[0]
    requires forall x :: x in a <==> x in b
    ensures forall x :: x in a[1..] <==> x in b[1..]
  {
    forall x
      ensures x in a[1..] <==> x in b[1..]
    {
      if x in a[1..] {
        var i :| 1 <= i < |a| && a[i] == x;
        assert x in a && x in b;
        var j :| 0 <= j < |b| && b[j] == x;
        assert j != 0;
      }
      if x in b[1..] {
        var j :| 1 <= j < |b| && b[j] == x;
        assert x in b && x in a;
        var i :| 0 <= i < |a| && a[i] == x;
        assert i != 0;
      }
    }
  }

  lemma {:induction false} IncreasingUnique(a: seq<nat>, b: seq<nat>)
    requires Increasing(a) && Increasing(b)
    requires forall x :: x in a <==> x in b
    ensures a == b
    decreases |a|
  {
    assert a != [] ==> a[0] in a;
    assert b != [] ==> b[0] in b;
    if a != [] && b != [] {
      IncreasingHeads(a, b);
      IncreasingTails(a, b);
      assert Increasing(a[1..]) && Increasing(b[1..]);
      IncreasingUnique(a[1..], b[1..]);
      assert a == [a[0]] + a[1..] && b == [b[0]] + b[1..];
    }
  }

  /** Under alignment, the indices determine the tasks. */
  lemma AlignedDetermined(source: seq<Task>, ts1: seq<Task>, ts2: seq<Task>, idx: seq<nat>)
    requires Aligned(source, ts1, idx) && Aligned(source, ts2, idx)
    ensures ts1 == ts2
  {
  }

  /** Two filter steps give the same result in either order. */
  lemma NarrowCommute(source: seq<Task>, ts: seq<Task>, idx: seq<nat>, k1: Criterion, k2: Criterion)
    requires Aligned(source, ts, idx)
    ensures Narrow(Narrow(ts, idx, k1).0, Narrow(ts, idx, k1).1, k2)
         == Narrow(Narrow(ts, idx, k2).0, Narrow(ts, idx, k2).1, k1)
  {
    var (a1, b1) := Narrow(ts, idx, k1);
    var (a2, b2) := Narrow(ts, idx, k2);
    NarrowAligned(source, ts, idx, k1);
    NarrowAligned(source, ts, idx, k2);
    var (c1, d1) := Narrow(a1, b1, k2);
    var (c2, d2) := Narrow(a2, b2, k1);
    NarrowAligned(source, a1, b1, k2);
    NarrowAligned(source, a2, b2, k1);
    forall x
      ensures x in d1 <==> x in d2
    {
      NarrowMembers(source, ts, idx, k1, x);
      NarrowMembers(source, ts, idx, k2, x);
      NarrowMembers(source, a1, b1, k2, x);
      NarrowMembers(source, a2, b2, k1, x);
    }
    IncreasingUnique(d1, d2);
    AlignedDetermined(source, c1, c2, d1);
  }

  /** Filters on plain task sequences commute. */
  lemma FilterCommute(ts: seq<Task>, k1: Criterion, k2: Criterion)
    ensures Filter(Filter(ts, k1), k2) == Filter(Filter(ts, k2), k1)
  {
    var idx := Range(|ts|);
    assert Aligned(ts, ts, idx);
    NarrowCommute(ts, ts, idx, k1, k2);
    NarrowTasks(ts, idx, k1);
    NarrowTasks(ts, idx, k2);
    NarrowTasks(Narrow(ts, idx, k1).0, Narrow(ts, idx, k1).1, k2);
    NarrowTasks(Narrow(ts, idx, k2).0, Narrow(ts, idx, k2).1, k1);
  }

  /**
   * `Filter(ts, k)` is an order-preserving subsequence of `ts`: it is the
   * sequence of `ts[i]` for the increasing positions `i` whose task matches.
   */
  lemma FilterSubsequence(ts: seq<Task>, k: Criterion)
    ensures var (f, pos) := Narrow(ts, Range(|ts|), k);
      f == Filter(ts, k) && Aligned(ts, f, pos)
      && forall i: nat :: i in pos <==> i < |ts| && Matches(ts[i], k)
  {
    var idx := Range(|ts|);
    assert Aligned(ts, ts, idx);
    NarrowTasks(ts, idx, k);
    NarrowAligned(ts, ts, idx, k);
    forall i: nat
      ensures i in Narrow(ts, idx, k).1 <==> i < |ts| && Matches(ts[i], k)
    {
      NarrowMembers(ts, ts, idx, k, i);
      if i < |ts| { assert idx[i] == i; }
    }
  }

  //----------------------------------------------------------------------------
  // `TasksFilter`
  //----------------------------------------------------------------------------

  /**
   * The tasks that survived the combinators applied so far, each with its
   * index in `source`, the slice the filter was built from.
   */
  class TasksFilter {
    const source: seq<Task>
    var tasks: seq<Task>
    var taskIndices: seq<nat>

    ghost predicate Valid()
      reads this
    {
      Aligned(source, tasks, taskIndices)
    }

    /** `TasksFilter::new`: every task, at its own index. */
    constructor (ts: seq<Task>)
      ensures source == ts && tasks == ts && taskIndices == Range(|ts|)
      ensures Valid()
    {
      source := ts;
      tasks := ts;
      taskIndices := Range(|ts|);
    }

    /** Keep the pairs whose task matches `k`, with a loop over the pairs. */
    method Retain(k: Criterion)
      requires Valid()
      modifies this
      ensures Valid()
      ensures (tasks, taskIndices) == Narrow(old(tasks), old(taskIndices), k)
    {
      var ts: seq<Task>, ix: seq<nat> := [], [];
      for i := 0 to |tasks|
        invariant (ts, ix) == Narrow(tasks[..i], taskIndices[..i], k)
      {
        assert tasks[..i + 1][..i] == tasks[..i];
        assert taskIndices[..i + 1][..i] == taskIndices[..i];
        if Matches(tasks[i], k) {
          ts, ix := ts + [tasks[i]], ix + [taskIndices[i]];
        }
      }
      assert tasks[..|tasks|] == tasks && taskIndices[..|taskIndices|] == taskIndices;
      NarrowAligned(source, tasks, taskIndices, k);
      tasks, taskIndices := ts, ix;
    }

    method WithContext(context: Option<string>)
      requires Valid()
      modifies this
      ensures Valid()
      ensures context.None? ==> tasks == old(tasks) && taskIndices == old(taskIndices)
      ensures context.Some? ==> (tasks, taskIndices) == Narrow(old(tasks), old(taskIndices), InContext(context.value))
    {
      if context.Some? { Retain(InContext(context.value)); }
    }

    method WithProject(project: Option<string>)
      requires Valid()
      modifies this
      ensures Valid()
      ensures project.None? ==> tasks == old(tasks) && taskIndices == old(taskIndices)
      ensures project.Some? ==> (tasks, taskIndices) == Narrow(old(tasks), old(taskIndices), InProject(project.value))
    {
      if project.Some? { Retain(InProject(project.value)); }
    }

    method WithPriority(priority: Option<char>)
      requires Valid()
      modifies this
      ensures Valid()
      ensures priority.None? ==> tasks == old(tasks) && taskIndices == old(taskIndices)
      ensures priority.Some? ==> (tasks, taskIndices) == Narrow(old(tasks), old(taskIndices), HasPriority(priority.value))
    {
      if priority.Some? { Retain(HasPriority(priority.value)); }
    }

    method WithoutCompleted(omitCompleted: bool)
      requires Valid()
      modifies this
      ensures Valid()
      ensures !omitCompleted ==> tasks == old(tasks) && taskIndices == old(taskIndices)
      ensures omitCompleted ==> (tasks, taskIndices) == Narrow(old(tasks), old(taskIndices), Completion(false))
    {
      if omitCompleted { Retain(Completion(false)); }
    }

    method NumContexts(includeCompleted: bool) returns (n: nat)
      ensures n == |Facets.TagSet(tasks, includeCompleted, Facets.ContextTag)|
    {
      n := Facets.NumContexts(tasks, includeCompleted);
    }

    method NumProjects(includeCompleted: bool) returns (n: nat)
      ensures n == |Facets.TagSet(tasks, includeCompleted, Facets.ProjectTag)|
    {
      n := Facets.NumProjects(tasks, includeCompleted);
    }

    method NumPriorities(includeCompleted: bool) returns (n: nat)
      ensures n == |Facets.PrioritySet(tasks, includeCompleted)|
    {
      n := Facets.NumPriorities(tasks, includeCompleted);
    }

    method CollectContexts(includeCompleted: bool) returns (r: seq<string>)
      ensures StringsAscending(r) && Facets.Elements(r) == Facets.TagSet(tasks, includeCompleted, Facets.ContextTag)
    {
      r := Facets.CollectContexts(tasks, includeCompleted);
    }

    method CollectProjects(includeCompleted: bool) returns (r: seq<string>)
      ensures StringsAscending(r) && Facets.Elements(r) == Facets.TagSet(tasks, includeCompleted, Facets.ProjectTag)
    {
      r := Facets.CollectProjects(tasks, includeCompleted);
    }

    method CollectPriorities(includeCompleted: bool) returns (r: seq<char>)
      ensures CharsAscending(r) && Facets.Elements(r) == Facets.PrioritySet(tasks, includeCompleted)
    {
      r := Facets.CollectPriorities(tasks, includeCompleted);
    }
  }

  //----------------------------------------------------------------------------
  // Free filtering functions
  //----------------------------------------------------------------------------

  /** `include_completed`: all tasks, or only the open ones. */
  function IncludeCompleted(ts: seq<Task>, includeCompleted: bool): (r: seq<Task>)
    ensures forall t :: t in r <==> t in ts && (includeCompleted || !t.completed)
    ensures |r| <= |ts|
  {
    FilterLength(ts, Completion(includeCompleted));
    assert forall t :: t in Filter(ts, Completion(includeCompleted)) <==> t in ts && Matches(t, Completion(includeCompleted)) by {
      forall t { FilterMembers(ts, Completion(includeCompleted), t); }
    }
    Filter(ts, Completion(includeCompleted))
  }

  /** `with_context`: the tasks carrying `context`. */
  function WithContext(ts: seq<Task>, context: string): (r: seq<Task>)
    ensures forall t :: t in r <==> t in ts && context in t.contexts
    ensures |r| <= |ts|
  {
    FilterLength(ts, InContext(context));
    assert forall t :: t in Filter(ts, InContext(context)) <==> t in ts && Matches(t, InContext(context)) by {
      forall t { FilterMembers(ts, InContext(context), t); }
    }
    Filter(ts, InContext(context))
  }

  /** `with_project`: the tasks carrying `project`. */
  function WithProject(ts: seq<Task>, project: string): (r: seq<Task>)
    ensures forall t :: t in r <==> t in ts && project in t.projects
    ensures |r| <= |ts|
  {
    FilterLength(ts, InProject(project));
    assert forall t :: t in Filter(ts, InProject(project)) <==> t in ts && Matches(t, InProject(project)) by {
      forall t { FilterMembers(ts, InProject(project), t); }
    }
    Filter(ts, InProject(project))
  }

  /** `with_priority`: the tasks whose priority is `priority`. */
  function WithPriority(ts: seq<Task>, priority: char): (r: seq<Task>)
    ensures forall t :: t in r <==> t in ts && t.priority == Some(priority)
    ensures |r| <= |ts|
  {
    FilterLength(ts, HasPriority(priority));
    assert forall t :: t in Filter(ts, HasPriority(priority)) <==> t in ts && Matches(t, HasPriority(priority)) by {
      forall t { FilterMembers(ts, HasPriority(priority), t); }
    }
    Filter(ts, HasPriority(priority))
  }
}
