/**
 * Facet aggregation over a task slice (`num_*` / `collect_*`): the distinct
 * contexts, projects or priorities of the tasks counted, gathered into a set
 * and then sorted.
 */
module Facets {
  import opened Wrappers
  import opened Ordering
  import opened TaskModel

  datatype TagKind = ContextTag | ProjectTag

  function TagsOf(t: Task, kind: TagKind): seq<string> {
    match kind
    case ContextTag => t.contexts
    case ProjectTag => t.projects
  }

  function Elements<T>(s: seq<T>): set<T> {
    set x | x in s
  }

  lemma ElementsSnoc<T>(s: seq<T>, x: T)
    ensures Elements(s + [x]) == Elements(s) + {x}
  {
    assert forall y :: y in s + [x] <==> y in s || y == x;
  }

  /** The distinct tags of one kind over the tasks counted (all, or the open ones). */
  function TagSet(ts: seq<Task>, includeCompleted: bool, kind: TagKind): set<string> {
    if ts == [] then {}
    else
      var last := ts[|ts| - 1];
      TagSet(ts[..|ts| - 1], includeCompleted, kind)
      + (if includeCompleted || !last.completed then Elements(TagsOf(last, kind)) else {})
  }

  /** The distinct priorities over the tasks counted. */
  function PrioritySet(ts: seq<Task>, includeCompleted: bool): set<char> {
    if ts == [] then {}
    else
      var last := ts[|ts| - 1];
      PrioritySet(ts[..|ts| - 1], includeCompleted)
      + (if (includeCompleted || !last.completed) && last.priority.Some? then {last.priority.value} else {})
  }

  lemma {:induction false} TagSetMembers(ts: seq<Task>, includeCompleted: bool, kind: TagKind, c: string)
    ensures c in TagSet(ts, includeCompleted, kind)
        <==> exists i :: 0 <= i < |ts| && (includeCompleted || !ts[i].completed) && c in TagsOf(ts[i], kind)
    decreases |ts|
  {
    if ts != [] {
      var n := |ts|;
      var init := ts[..n - 1];
      TagSetMembers(init, includeCompleted, kind, c);
      if c in TagSet(init, includeCompleted, kind) {
        var i :| 0 <= i < n - 1 && (includeCompleted || !init[i].completed) && c in TagsOf(init[i], kind);
        assert ts[i] == init[i];
      }
      if exists i :: 0 <= i < n && (includeCompleted || !ts[i].completed) && c in TagsOf(ts[i], kind) {
        var i :| 0 <= i < n && (includeCompleted || !ts[i].completed) && c in TagsOf(ts[i], kind);
        if i < n - 1 { assert init[i] == ts[i]; }
      }
    }
  }

  lemma {:induction false} PrioritySetMembers(ts: seq<Task>, includeCompleted: bool, p: char)
    ensures p in PrioritySet(ts, includeCompleted)
        <==> exists i :: 0 <= i < |ts| && (includeCompleted || !ts[i].completed) && ts[i].priority == Some(p)
    decreases |ts|
  {
    if ts != [] {
      var n := |ts|;
      var init := ts[..n - 1];
      PrioritySetMembers(init, includeCompleted, p);
      if p in PrioritySet(init, includeCompleted) {
        var i :| 0 <= i < n - 1 && (includeCompleted || !init[i].completed) && init[i].priority == Some(p);
        assert ts[i] == init[i];
      }
      if exists i :: 0 <= i < n && (includeCompleted || !ts[i].completed) && ts[i].priority == Some(p) {
        var i :| 0 <= i < n && (includeCompleted || !ts[i].completed) && ts[i].priority == Some(p);
        if i < n - 1 { assert init[i] == ts[i]; }
      }
    }
  }

  /** The `HashSet` insertion loop of `num_*` / `collect_*` for tags. */
  method GatherTags(ts: seq<Task>, includeCompleted: bool, kind: TagKind) returns (seen: set<string>)
    ensures seen == TagSet(ts, includeCompleted, kind)
  {
    seen := {};
    for i := 0 to |ts|
      invariant seen == TagSet(ts[..i], includeCompleted, kind)
    {
      assert ts[..i + 1][..i] == ts[..i];
      if includeCompleted || !ts[i].completed {
        var tags := TagsOf(ts[i], kind);
        for j := 0 to |tags|
          invariant seen == TagSet(ts[..i], includeCompleted, kind) + Elements(tags[..j])
        {
          assert Elements(tags[..j + 1]) == Elements(tags[..j]) + {tags[j]} by {
            assert tags[..j + 1] == tags[..j] + [tags[j]];
          }
          seen := seen + {tags[j]};
        }
        assert tags[..|tags|] == tags;
      }
    }
    assert ts[..|ts|] == ts;
  }

  /** The `HashSet` insertion loop of `num_priorities` / `collect_priorities`. */
  method GatherPriorities(ts: seq<Task>, includeCompleted: bool) returns (seen: set<char>)
    ensures seen == PrioritySet(ts, includeCompleted)
  {
    seen := {};
    for i := 0 to |ts|
      invariant seen == PrioritySet(ts[..i], includeCompleted)
    {
      assert ts[..i + 1][..i] == ts[..i];
      if (includeCompleted || !ts[i].completed) && ts[i].priority.Some? {
        seen := seen + {ts[i].priority.value};
      }
    }
    assert ts[..|ts|] == ts;
  }

  /** `taken` and `rest` split `s`. */
  predicate Split<T>(s: set<T>, taken: seq<T>, rest: set<T>) {
    Elements(taken) + rest == s && Elements(taken) !! rest && |taken| + |rest| == |s|
  }

  lemma SplitStep<T>(s: set<T>, taken: seq<T>, rest: set<T>, m: T)
    requires Split(s, taken, rest) && m in rest
    ensures Split(s, taken + [m], rest - {m})
  {
    ElementsSnoc(taken, m);
  }

  /**
   * What a selection sort holds between steps: `r`, ascending, holds the
   * strings taken so far, each below every string still in `rest`.
   */
  predicate StringsBelow(r: seq<string>, rest: set<string>) {
    StringsAscending(r) && forall i, y :: 0 <= i < |r| && y in rest ==> StringLess(r[i], y)
  }

  lemma StringsBelowStep(r: seq<string>, rest: set<string>, m: string)
    requires StringsBelow(r, rest)
    requires m in rest && forall y :: y in rest && y != m ==> StringLess(m, y)
    ensures StringsBelow(r + [m], rest - {m})
  {
    var r', rest' := r + [m], rest - {m};
    forall i, j | 0 <= i < j < |r'|
      ensures StringLess(r'[i], r'[j])
    {
      assert r'[i] == r[i];
      if j < |r| { assert r'[j] == r[j]; }
    }
    forall i, y | 0 <= i < |r'| && y in rest'
      ensures StringLess(r'[i], y)
    {
      if i < |r| { assert r'[i] == r[i]; }
    }
  }

  /** `sort_unstable` on the strings of a set: its members in ascending order. */
  method SortStrings(s: set<string>) returns (r: seq<string>)
    ensures StringsAscending(r) && Elements(r) == s && |r| == |s|
  {
    r := [];
    var rest := s;
    while rest != {}
      invariant Split(s, r, rest) && StringsBelow(r, rest)
      decreases |rest|
    {
      StringSetHasMinimum(rest);
      var m :| m in rest && forall y :: y in rest && y != m ==> StringLess(m, y);
      SplitStep(s, r, rest, m);
      StringsBelowStep(r, rest, m);
      r := r + [m];
      rest := rest - {m};
    }
  }

  /** The character counterpart of `StringsBelow`. */
  predicate CharsBelow(r: seq<char>, rest: set<char>) {
    CharsAscending(r) && forall i, y :: 0 <= i < |r| && y in rest ==> r[i] < y
  }

  lemma CharsBelowStep(r: seq<char>, rest: set<char>, m: char)
    requires CharsBelow(r, rest)
    requires m in rest && forall y :: y in rest && y != m ==> m < y
    ensures CharsBelow(r + [m], rest - {m})
  {
    var r', rest' := r + [m], rest - {m};
    forall i, j | 0 <= i < j < |r'|
      ensures r'[i] < r'[j]
    {
      assert r'[i] == r[i];
      if j < |r| { assert r'[j] == r[j]; }
    }
    forall i, y | 0 <= i < |r'| && y in rest'
      ensures r'[i] < y
    {
      if i < |r| { assert r'[i] == r[i]; }
    }
  }

  /** `sort_unstable` on the characters of a set. */
  method SortChars(s: set<char>) returns (r: seq<char>)
    ensures CharsAscending(r) && Elements(r) == s && |r| == |s|
  {
    r := [];
    var rest := s;
    while rest != {}
      invariant Split(s, r, rest) && CharsBelow(r, rest)
      decreases |rest|
    {
      CharSetHasMinimum(rest);
      var m :| m in rest && forall y :: y in rest && y != m ==> m < y;
      SplitStep(s, r, rest, m);
      CharsBelowStep(r, rest, m);
      r := r + [m];
      rest := rest - {m};
    }
  }

  method NumContexts(ts: seq<Task>, includeCompleted: bool) returns (n: nat)
    ensures n == |TagSet(ts, includeCompleted, ContextTag)|
  {
    var seen := GatherTags(ts, includeCompleted, ContextTag);
    n := |seen|;
  }

  method NumProjects(ts: seq<Task>, includeCompleted: bool) returns (n: nat)
    ensures n == |TagSet(ts, includeCompleted, ProjectTag)|
  {
    var seen := GatherTags(ts, includeCompleted, ProjectTag);
    n := |seen|;
  }

  method NumPriorities(ts: seq<Task>, includeCompleted: bool) returns (n: nat)
    ensures n == |PrioritySet(ts, includeCompleted)|
  {
    var seen := GatherPriorities(ts, includeCompleted);
    n := |seen|;
  }

  method CollectContexts(ts: seq<Task>, includeCompleted: bool) returns (r: seq<string>)
    ensures StringsAscending(r) && Elements(r) == TagSet(ts, includeCompleted, ContextTag)
    ensures |r| == |TagSet(ts, includeCompleted, ContextTag)|
  {
    var seen := GatherTags(ts, includeCompleted, ContextTag);
    r := SortStrings(seen);
  }

  method CollectProjects(ts: seq<Task>, includeCompleted: bool) returns (r: seq<string>)
    ensures StringsAscending(r) && Elements(r) == TagSet(ts, includeCompleted, ProjectTag)
    ensures |r| == |TagSet(ts, includeCompleted, ProjectTag)|
  {
    var seen := GatherTags(ts, includeCompleted, ProjectTag);
    r := SortStrings(seen);
  }

  method CollectPriorities(ts: seq<Task>, includeCompleted: bool) returns (r: seq<char>)
    ensures CharsAscending(r) && Elements(r) == PrioritySet(ts, includeCompleted)
    ensures |r| == |PrioritySet(ts, includeCompleted)|
  {
    var seen := GatherPriorities(ts, includeCompleted);
    r := SortChars(seen);
  }
}
