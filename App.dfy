/**
 * The application controller: the task vector headed by the `[new]` sentinel,
 * the task list and the three facet lists (each headed by `[all]`), and the
 * Mode / Focus state machine that the key handlers drive.
 */
module Application {
  import opened Wrappers
  import opened Text
  import opened Ordering
  import opened Dates
  import opened TaskModel
  import opened Parse
  import opened Facets
  import opened Selection
  import TF = Tasks
  import opened TodoTxt

  datatype ConfirmedAction = Save | Sort

  datatype Mode = Edit | Normal | Help | Confirm(action: ConfirmedAction)

  datatype Focus = Tasks | Projects | Contexts | Priorities

  const AllToken := "[all]"

  /** The task the sentinel row `[new]` holds: the parse of its text. */
  const NewTask := DefaultTask.(description := NewTaskText)

  //----------------------------------------------------------------------------
  // Focus cycle
  //----------------------------------------------------------------------------

  /** `navigate_right`: Tasks, Contexts, Projects, Priorities, and round again. */
  function RightOf(f: Focus): Focus {
    match f
    case Tasks => Contexts
    case Contexts => Projects
    case Projects => Priorities
    case Priorities => Tasks
  }

  /** `navigate_left`: the same cycle the other way. */
  function LeftOf(f: Focus): Focus {
    match f
    case Tasks => Priorities
    case Contexts => Tasks
    case Projects => Contexts
    case Priorities => Projects
  }

  lemma LeftUndoesRight(f: Focus)
    ensures LeftOf(RightOf(f)) == f && RightOf(LeftOf(f)) == f
  {
  }

  lemma FourRightsAreIdentity(f: Focus)
    ensures RightOf(RightOf(RightOf(RightOf(f)))) == f
    ensures f != RightOf(f) && f != RightOf(RightOf(f)) && f != RightOf(RightOf(RightOf(f)))
  {
  }

  //----------------------------------------------------------------------------
  // The filtered task list
  //----------------------------------------------------------------------------

  /** Whether a task survives `filter_tasks` for the given toggle and facet selections. */
  predicate Passes(t: Task, omitCompleted: bool, project: Option<string>, context: Option<string>, priority: Option<char>) {
    (omitCompleted ==> !t.completed)
    && (project.Some? ==> project.value in t.projects)
    && (context.Some? ==> context.value in t.contexts)
    && (priority.Some? ==> t.priority == priority)
  }

  /** `ks` followed by `k` when the combinator is active. */
  function Then(ks: seq<TF.Criterion>, active: bool, k: TF.Criterion): (r: seq<TF.Criterion>)
    ensures forall x :: x in r <==> x in ks || (active && x == k)
  {
    if active then ks + [k] else ks
  }

  /**
   * The combinators `filter_tasks` applies, in its order: `without_completed`,
   * `with_project`, `with_context`, `with_priority`; an inactive one adds nothing.
   */
  function Restrictions(omitCompleted: bool, project: Option<string>, context: Option<string>, priority: Option<char>): seq<TF.Criterion> {
    var ks1 := Then([], omitCompleted, TF.Completion(false));
    var ks2 := Then(ks1, project.Some?, TF.InProject(if project.Some? then project.value else ""));
    var ks3 := Then(ks2, context.Some?, TF.InContext(if context.Some? then context.value else ""));
    Then(ks3, priority.Some?, TF.HasPriority(if priority.Some? then priority.value else ' '))
  }

  /** The combinators in force, one per active selection. */
  lemma RestrictionsMembers(omitCompleted: bool, project: Option<string>, context: Option<string>, priority: Option<char>, k: TF.Criterion)
    ensures k in Restrictions(omitCompleted, project, context, priority)
        <==> ((omitCompleted && k == TF.Completion(false))
              || (project.Some? && k == TF.InProject(project.value))
              || (context.Some? && k == TF.InContext(context.value))
              || (priority.Some? && k == TF.HasPriority(priority.value)))
  {
  }

  lemma PassesIff(t: Task, omitCompleted: bool, project: Option<string>, context: Option<string>, priority: Option<char>)
    ensures Passes(t, omitCompleted, project, context, priority)
        <==> forall k :: k in Restrictions(omitCompleted, project, context, priority) ==> TF.Matches(t, k)
  {
    var r := Restrictions(omitCompleted, project, context, priority);
    if Passes(t, omitCompleted, project, context, priority) {
      forall k | k in r
        ensures TF.Matches(t, k)
      {
        RestrictionsMembers(omitCompleted, project, context, priority, k);
      }
    }
    if forall k :: k in r ==> TF.Matches(t, k) {
      if omitCompleted { RestrictionsMembers(omitCompleted, project, context, priority, TF.Completion(false)); }
      if project.Some? { RestrictionsMembers(omitCompleted, project, context, priority, TF.InProject(project.value)); }
      if context.Some? { RestrictionsMembers(omitCompleted, project, context, priority, TF.InContext(context.value)); }
      if priority.Some? { RestrictionsMembers(omitCompleted, project, context, priority, TF.HasPriority(priority.value)); }
    }
  }

  /** Adding a combinator that may be inactive. */
  lemma ChainThen(ts: seq<Task>, idx: seq<nat>, ks: seq<TF.Criterion>, active: bool, k: TF.Criterion)
    requires |ts| == |idx|
    ensures Chain(ts, idx, Then(ks, active, k))
         == if active then TF.Narrow(Chain(ts, idx, ks).0, Chain(ts, idx, ks).1, k) else Chain(ts, idx, ks)
  {
    if active {
      assert (ks + [k])[..|ks|] == ks;
    }
  }

  /** The combinators `ks` applied one after the other to a filter's pair of sequences. */
  function Chain(ts: seq<Task>, idx: seq<nat>, ks: seq<TF.Criterion>): (r: (seq<Task>, seq<nat>))
    requires |ts| == |idx|
    ensures |r.0| == |r.1|
  {
    if ks == [] then (ts, idx)
    else
      var p := Chain(ts, idx, ks[..|ks| - 1]);
      TF.Narrow(p.0, p.1, ks[|ks| - 1])
  }

  /**
   * Chaining keeps the filter aligned with its source and keeps exactly the
   * indices whose task matches every combinator.
   */
  lemma {:induction false} ChainMembers(source: seq<Task>, ts: seq<Task>, idx: seq<nat>, ks: seq<TF.Criterion>, i: nat)
    requires TF.Aligned(source, ts, idx)
    ensures TF.Aligned(source, Chain(ts, idx, ks).0, Chain(ts, idx, ks).1)
    ensures i in Chain(ts, idx, ks).1
        <==> i in idx && i < |source| && forall k :: k in ks ==> TF.Matches(source[i], k)
    decreases |ks|
  {
    if ks != [] {
      var front := ks[..|ks| - 1];
      var last := ks[|ks| - 1];
      ChainMembers(source, ts, idx, front, i);
      var p := Chain(ts, idx, front);
      TF.NarrowAligned(source, p.0, p.1, last);
      TF.NarrowMembers(source, p.0, p.1, last, i);
      assert ks == front + [last];
      assert forall k :: k in ks <==> k in front || k == last;
    }
  }

  /** The indices into `ts` that survive the combinator chain of `filter_tasks`. */
  function Survivors(ts: seq<Task>, omitCompleted: bool, project: Option<string>, context: Option<string>, priority: Option<char>): seq<nat> {
    Chain(ts, TF.Range(|ts|), Restrictions(omitCompleted, project, context, priority)).1
  }

  /**
   * The surviving indices increase, stay inside `ts`, and an index survives
   * exactly when its task passes every active restriction.
   */
  lemma SurvivorsMembers(ts: seq<Task>, omitCompleted: bool, project: Option<string>, context: Option<string>, priority: Option<char>, i: nat)
    ensures TF.Increasing(Survivors(ts, omitCompleted, project, context, priority))
    ensures forall j :: 0 <= j < |Survivors(ts, omitCompleted, project, context, priority)| ==> Survivors(ts, omitCompleted, project, context, priority)[j] < |ts|
    ensures i in Survivors(ts, omitCompleted, project, context, priority)
        <==> i < |ts| && Passes(ts[i], omitCompleted, project, context, priority)
  {
    var ks := Restrictions(omitCompleted, project, context, priority);
    assert TF.Aligned(ts, ts, TF.Range(|ts|));
    ChainMembers(ts, ts, TF.Range(|ts|), ks, i);
    if i < |ts| {
      assert TF.Range(|ts|)[i] == i;
      PassesIff(ts[i], omitCompleted, project, context, priority);
    }
  }

  function Shifted(ix: seq<nat>): (r: seq<nat>)
    ensures |r| == |ix| && forall k :: 0 <= k < |ix| ==> r[k] == ix[k] + 1
  {
    seq(|ix|, k requires 0 <= k < |ix| => ix[k] + 1)
  }

  /** The task list `filter_tasks` builds: the sentinel row, then the survivors of `tasks[1..]`. */
  function FilteredItems(tasks: seq<Task>, omitCompleted: bool, project: Option<string>, context: Option<string>, priority: Option<char>): seq<nat>
    requires |tasks| >= 1
  {
    [0] + Shifted(Survivors(tasks[1..], omitCompleted, project, context, priority))
  }

  /** A task list fit for `tasks`: the sentinel row first, then increasing indices of real tasks. */
  predicate TaskItems(items: seq<nat>, n: nat) {
    |items| >= 1 && items[0] == 0 && TF.Increasing(items)
    && forall k :: 0 <= k < |items| ==> items[k] < n
  }

  /** Prefixing the sentinel row to shifted indices keeps them increasing and in range. */
  lemma ShiftedShape(sv: seq<nat>, m: nat)
    requires TF.Increasing(sv) && forall k :: 0 <= k < |sv| ==> sv[k] < m
    ensures TaskItems([0] + Shifted(sv), m + 1)
    ensures forall j: nat :: j in Shifted(sv) <==> j >= 1 && j - 1 in sv
  {
    ShiftedIncreasing(sv);
    ShiftedMembers(sv);
    var items := [0] + Shifted(sv);
    forall k | 0 <= k < |items|
      ensures items[k] < m + 1
    {
      if k > 0 { assert items[k] == sv[k - 1] + 1; }
    }
  }

  /** The sentinel row followed by shifted increasing indices still increases. */
  lemma ShiftedIncreasing(sv: seq<nat>)
    requires TF.Increasing(sv)
    ensures TF.Increasing([0] + Shifted(sv))
  {
    var items := [0] + Shifted(sv);
    forall a, b | 0 <= a < b < |items|
      ensures items[a] < items[b]
    {
      if a > 0 { assert items[a] == sv[a - 1] + 1 && items[b] == sv[b - 1] + 1; }
      else { assert items[b] == sv[b - 1] + 1; }
    }
  }

  /** A shifted index is one more than an original index. */
  lemma ShiftedMembers(sv: seq<nat>)
    ensures forall j: nat :: j in Shifted(sv) <==> j >= 1 && j - 1 in sv
  {
    forall j: nat
      ensures j in Shifted(sv) <==> j >= 1 && j - 1 in sv
    {
      if j in Shifted(sv) {
        var k :| 0 <= k < |sv| && Shifted(sv)[k] == j;
      }
      if j >= 1 && j - 1 in sv {
        var k :| 0 <= k < |sv| && sv[k] == j - 1;
        assert Shifted(sv)[k] == j;
      }
    }
  }

  lemma FilteredMember(tasks: seq<Task>, omitCompleted: bool, project: Option<string>, context: Option<string>, priority: Option<char>, j: nat)
    requires |tasks| >= 1
    ensures j in FilteredItems(tasks, omitCompleted, project, context, priority)[1..]
        <==> 1 <= j < |tasks| && Passes(tasks[j], omitCompleted, project, context, priority)
  {
    var sv := Survivors(tasks[1..], omitCompleted, project, context, priority);
    SurvivorsMembers(tasks[1..], omitCompleted, project, context, priority, if j >= 1 then j - 1 else 0);
    ShiftedShape(sv, |tasks| - 1);
    assert FilteredItems(tasks, omitCompleted, project, context, priority)[1..] == Shifted(sv);
    if 1 <= j < |tasks| { assert tasks[1..][j - 1] == tasks[j]; }
  }

  /**
   * The filtered list starts with the sentinel row and lists, in increasing
   * order, exactly the real tasks that pass the restrictions.
   */
  lemma FilteredItemsShape(tasks: seq<Task>, omitCompleted: bool, project: Option<string>, context: Option<string>, priority: Option<char>)
    requires |tasks| >= 1
    ensures TaskItems(FilteredItems(tasks, omitCompleted, project, context, priority), |tasks|)
    ensures forall j: nat :: j in FilteredItems(tasks, omitCompleted, project, context, priority)[1..]
              <==> 1 <= j < |tasks| && Passes(tasks[j], omitCompleted, project, context, priority)
  {
    var sv := Survivors(tasks[1..], omitCompleted, project, context, priority);
    SurvivorsMembers(tasks[1..], omitCompleted, project, context, priority, 0);
    ShiftedShape(sv, |tasks| - 1);
    forall j: nat
      ensures j in FilteredItems(tasks, omitCompleted, project, context, priority)[1..]
          <==> 1 <= j < |tasks| && Passes(tasks[j], omitCompleted, project, context, priority)
    {
      FilteredMember(tasks, omitCompleted, project, context, priority, j);
    }
  }

  //----------------------------------------------------------------------------
  // Facet lists
  //----------------------------------------------------------------------------

  /** A context or project list for the tag set `s`: `[all]`, then the tags in ascending order. */
  predicate FacetItems(items: seq<string>, s: set<string>) {
    |items| >= 1 && items[0] == AllToken && StringsAscending(items[1..]) && Elements(items[1..]) == s
  }

  function CharStrings(ps: seq<char>): (r: seq<string>)
    ensures |r| == |ps| && forall k :: 0 <= k < |ps| ==> r[k] == [ps[k]]
  {
    seq(|ps|, k requires 0 <= k < |ps| => [ps[k]])
  }

  /** A priority list for the priority set `s`: `[all]`, then each letter as a string, ascending. */
  ghost predicate PriorityItems(items: seq<string>, s: set<char>) {
    |items| >= 1 && items[0] == AllToken
    && exists ps :: items[1..] == CharStrings(ps) && CharsAscending(ps) && Elements(ps) == s
  }

  /** The facet rows of `tasks`: its contexts, its projects and its priorities, each list headed by `[all]`. */
  ghost predicate FacetsOf(tasks: seq<Task>, contexts: seq<string>, projects: seq<string>, priorities: seq<string>) {
    FacetItems(contexts, TagSet(tasks, true, ContextTag))
    && FacetItems(projects, TagSet(tasks, true, ProjectTag))
    && PriorityItems(priorities, PrioritySet(tasks, true))
  }

  /** `iter().position(|x| x == v)`: the first index holding `v`. */
  function Position<T(==)>(items: seq<T>, v: T): (r: Option<nat>)
    ensures r.Some? ==> r.value < |items| && items[r.value] == v
    ensures r.Some? ==> forall j :: 0 <= j < r.value ==> items[j] != v
    ensures r.None? <==> v !in items
  {
    if items == [] then None
    else if items[0] == v then Some(0)
    else match Position(items[1..], v)
      case Some(i) => Some(i + 1)
      case None => None
  }

  /**
   * The cursor of a rebuilt facet list: the new position of the value that was
   * selected, nothing if it vanished, and the first row if nothing was selected.
   */
  function Reselected<T(==)>(items: seq<T>, previous: Option<T>): (r: Option<nat>)
    requires |items| >= 1
    ensures r.Some? ==> r.value < |items|
    ensures previous.None? ==> r == Some(0)
    ensures previous.Some? ==> (r.Some? <==> previous.value in items)
    ensures previous.Some? && r.Some? ==> items[r.value] == previous.value
  {
    match previous
    case None => Some(0)
    case Some(v) => Clamped(Position(items, v), |items|)
  }

  /**
   * The task cursor after `update_state_after_edit`: the previous list position
   * if still inside the list, but the sentinel row when the previously
   * selected task does not match the selected priority (including none), or
   * lacks the selected context or project.
   */
  function KeptCursor(previous: Option<nat>, len: nat, task: Option<Task>,
                      priority: Option<char>, context: Option<string>, project: Option<string>): (r: Option<nat>)
    requires len >= 1
    ensures r.Some? ==> r.value < len
    ensures task.Some? && task.value.priority != priority ==> r == Some(0)
    ensures task.Some? && context.Some? && context.value !in task.value.contexts ==> r == Some(0)
    ensures task.Some? && project.Some? && project.value !in task.value.projects ==> r == Some(0)
    ensures task.None? ==> r == Clamped(previous, len)
    ensures task.Some? && task.value.priority == priority
            && (context.None? || context.value in task.value.contexts)
            && (project.None? || project.value in task.value.projects)
            ==> r == Clamped(previous, len)
  {
    var base := Clamped(previous, len);
    match task
    case None => base
    case Some(t) =>
      if t.priority != priority
         || (context.Some? && context.value !in t.contexts)
         || (project.Some? && project.value !in t.projects)
      then Clamped(Some(0), len)
      else base
  }
  /**
   * Deleting the only task shown leaves the list with just the sentinel row, and the old
   * cursor row 1 is cleared rather than moved, so the next edit finds no cursor to unwrap.
   */
  lemma DeletedLastRowClearsCursor(t: Task)
    ensures KeptCursor(Some(1), 1, None, None, None, None) == None
    ensures KeptCursor(Some(1), 1, Some(t.(priority := None)), None, None, None) == None
  {
  }


  /** `priority.to_string()`: the letter as a one-letter string. */
  function Lettered(p: Option<char>): (r: Option<string>)
    ensures r.Some? <==> p.Some?
    ensures r.Some? ==> |r.value| == 1 && r.value[0] == p.value
  {
    match p
    case Some(c) => Some([c])
    case None => None
  }

  /** What `get_selected_item` reads from a list: the selected row, unless it is the header. */
  function SelectedItem<T>(list: SelectionList<T>): (r: Option<T>)
    reads list
    ensures r.Some? <==> list.selection.Some? && 0 < list.selection.value < |list.items|
    ensures r.Some? ==> r.value == list.items[list.selection.value]
  {
    match list.selection
    case Some(i) => if 0 < i < |list.items| then Some(list.items[i]) else None
    case None => None
  }

  //----------------------------------------------------------------------------
  // Edits to single tasks
  //----------------------------------------------------------------------------

  /** `mark_selected_task_complete` on one task. */
  function MarkedComplete(t: Task, today: Date): (r: Task)
    ensures r.completed
    ensures t.dateCreated.Some? ==> r.dateCompleted == Some(today)
    ensures t.dateCreated.None? ==> r.dateCompleted == t.dateCompleted
    ensures r.(completed := t.completed, dateCompleted := t.dateCompleted) == t
  {
    var d := if t.dateCreated.Some? then Some(today) else t.dateCompleted;
    t.(dateCompleted := d, completed := true)
  }

  /**
   * Completing a task keeps it canonical, so its rendering still parses back:
   * the completion date is stamped only beside a creation date.
   */
  lemma MarkedCompleteCanonical(t: Task, today: Date)
    requires Canonical(t)
    ensures Canonical(MarkedComplete(t, today))
  {
    var ws := Words(t.description);
    if ws != [] {
      NextStateIgnoresTask(PrefixState(t), Lex(ws[0]), DefaultTask, t);
    }
  }

  /** A parsed task stamped with a creation date, as a new row is, stays canonical. */
  lemma StampedCanonical(t: Task, today: Date)
    requires Canonical(t)
    ensures Canonical(t.(dateCreated := Some(today)))
  {
    var ws := Words(t.description);
    if ws != [] {
      NextStateIgnoresTask(PrefixState(t), Lex(ws[0]), DefaultTask, t);
    }
  }

  /**
   * `sort_tasks` sorts the sentinel's slot too: as soon as one task orders
   * before the task in row 0, that task no longer stays first.
   */
  lemma SortDisplacesFirst(tasks: seq<Task>, k: nat)
    requires 1 <= k < |tasks| && TaskLess(tasks[k], tasks[0])
    ensures TaskModel.SortTasks(tasks)[0] != tasks[0]
  {
    var s := TaskModel.SortTasks(tasks);
    SortTasksSorted(tasks);
    assert tasks[k] in multiset(s);
    var j :| 0 <= j < |s| && s[j] == tasks[k];
    if s[0] == tasks[0] {
      if j == 0 {
        TaskLessIrreflexive(tasks[0]);
      } else {
        assert TaskLe(s[0], s[j]);
        if s[0] != s[j] {
          TaskLessAsymmetric(s[j], s[0]);
        } else {
          TaskLessIrreflexive(tasks[0]);
        }
      }
    }
  }

  /** An unprioritised "Buy milk" sorts before the `[new]` sentinel, since 'B' comes before '['. */
  lemma MilkBeforeSentinel()
    ensures TaskLess(NewTask.(description := "Buy milk"), NewTask)
  {
    assert "Buy milk"[0] < NewTaskText[0];
  }

  /** Sorting the sentinel and "Buy milk" puts the real task in row 0, which `save` skips. */
  lemma SortMovesSentinel()
    ensures TaskModel.SortTasks([NewTask, NewTask.(description := "Buy milk")])[0] == NewTask.(description := "Buy milk")
  {
    var milk := NewTask.(description := "Buy milk");
    var ts := [NewTask, milk];
    MilkBeforeSentinel();
    var s := TaskModel.SortTasks(ts);
    SortTasksSorted(ts);
    SortDisplacesFirst(ts, 1);
    assert s[0] in multiset(ts);
  }

  /**
   * The derived order puts a task without a priority before prioritised ones:
   * sorting priorities B, A and none gives none, A, B.
   */
  lemma SortByPriority(d: string)
    ensures var b := DefaultTask.(priority := Some('B'), description := d);
            var a := DefaultTask.(priority := Some('A'), description := d);
            var n := DefaultTask.(description := d);
            TaskModel.SortTasks([b, a, n]) == [n, a, b]
  {
    var b := DefaultTask.(priority := Some('B'), description := d);
    var a := DefaultTask.(priority := Some('A'), description := d);
    var n := DefaultTask.(description := d);
    assert TaskLess(n, a) && TaskLess(a, b);
    ThreeReversed(n, a, b);
  }

  /** Three tasks given in descending order sort to ascending order. */
  lemma ThreeReversed(x: Task, y: Task, z: Task)
    requires TaskLess(x, y) && TaskLess(y, z)
    ensures TaskModel.SortTasks([z, y, x]) == [x, y, z]
  {
    ThreeSorted(x, y, z);
    ThreePermuted(x, y, z);
    SortIsSortedPermutation([z, y, x], [x, y, z]);
  }

  lemma ThreeSorted(x: Task, y: Task, z: Task)
    requires TaskLess(x, y) && TaskLess(y, z)
    ensures Sorted([x, y, z])
  {
    TaskLessTransitive(x, y, z);
    var s := [x, y, z];
    forall i, j | 0 <= i < j < 3 ensures TaskLe(s[i], s[j]) {
    }
  }

  lemma ThreePermuted(x: Task, y: Task, z: Task)
    ensures multiset([x, y, z]) == multiset([z, y, x])
  {
    assert [x, y, z] == [x] + [y] + [z];
    assert [z, y, x] == [z] + [y] + [x];
    assert multiset([x]) + multiset([y]) + multiset([z]) == multiset([z]) + multiset([y]) + multiset([x]);
  }

  /** The lines `save` writes: every task but the sentinel row's, rendered. */
  function SaveLines(tasks: seq<Task>): (r: seq<string>)
    requires |tasks| >= 1
    ensures |r| == |tasks| - 1
  {
    seq(|tasks| - 1, k requires 0 <= k < |tasks| - 1 => Render(tasks[k + 1]))
  }
  /** Sorting `[new]` and "Buy milk" and then saving writes the sentinel's line and loses the real task. */
  lemma SortThenSaveLosesTask()
    ensures SaveLines(TaskModel.SortTasks([NewTask, NewTask.(description := "Buy milk")])) == [Render(NewTask)]
  {
    var milk := NewTask.(description := "Buy milk");
    var ts := [NewTask, milk];
    var s := TaskModel.SortTasks(ts);
    SortMovesSentinel();
    assert s == [s[0]] + [s[1]];
    assert multiset(s) == multiset{milk} + multiset{s[1]};
    assert multiset(ts) == multiset{milk} + multiset{NewTask};
    assert s[1] == NewTask;
  }


  lemma SaveLinesSnoc(init: seq<Task>, last: Task)
    requires |init| >= 1
    ensures SaveLines(init + [last]) == SaveLines(init) + [Render(last)]
    ensures (init + [last])[1..] == init[1..] + [last]
  {
    var a := SaveLines(init + [last]);
    var b := SaveLines(init) + [Render(last)];
    forall k | 0 <= k < |a|
      ensures a[k] == b[k]
    {
      assert (init + [last])[k + 1] == if k + 1 < |init| then init[k + 1] else last;
    }
  }

  /**
   * Saving then reading the file back gives every task but row 0's, in order,
   * when the tasks are canonical (as parsed ones are).
   */
  lemma {:induction false} SaveReadsBack(tasks: seq<Task>)
    requires |tasks| >= 1
    requires forall k :: 1 <= k < |tasks| ==> Canonical(tasks[k])
    ensures Loaded(SaveLines(tasks)) == tasks[1..]
    decreases |tasks|
  {
    if |tasks| > 1 {
      var init := tasks[..|tasks| - 1];
      var last := tasks[|tasks| - 1];
      assert tasks == init + [last];
      SaveReadsBack(init);
      SaveLinesSnoc(init, last);
      LoadedAppend(SaveLines(init), [Render(last)]);
      RenderLoads(last);
    }
  }

  /** `Task::from_str(NEW_TOKEN).unwrap()`: the unwrap cannot fail. */
  method Sentinel() returns (t: Task)
    ensures t == NewTask
  {
    ParseNewTask();
    var parsed := FromStr(NewTaskText);
    t := parsed.value;
  }

  /** Every task renders to a line that parses back to it. */
  predicate AllCanonical(ts: seq<Task>) {
    forall k :: 0 <= k < |ts| ==> Canonical(ts[k])
  }

  lemma SentinelFirstCanonical(ts: seq<Task>)
    ensures AllCanonical(ts) ==> AllCanonical([NewTask] + ts)
  {
    if AllCanonical(ts) {
      NewTaskCanonicalText();
      PrependCanonical(NewTask, ts);
    }
  }

  lemma RemovedCanonical(ts: seq<Task>, i: nat)
    requires i < |ts| && AllCanonical(ts)
    ensures AllCanonical(ts[..i] + ts[i + 1..])
  {
    var r := ts[..i] + ts[i + 1..];
    forall k | 0 <= k < |r|
      ensures Canonical(r[k])
    {
      assert r[k] == if k < i then ts[k] else ts[k + 1];
    }
  }

  lemma PrependCanonical(t: Task, ts: seq<Task>)
    requires Canonical(t)
    requires forall k :: 0 <= k < |ts| ==> Canonical(ts[k])
    ensures forall k :: 0 <= k < |[t] + ts| ==> Canonical(([t] + ts)[k])
  {
    forall k | 0 <= k < |[t] + ts|
      ensures Canonical(([t] + ts)[k])
    {
      if k > 0 { assert ([t] + ts)[k] == ts[k - 1]; }
    }
  }

  //----------------------------------------------------------------------------
  // List items
  //----------------------------------------------------------------------------

  /** `get_task_items`: every index of `tasks`, the sentinel's included. */
  function GetTaskItems(tasks: seq<Task>): (r: seq<nat>)
    ensures |r| == |tasks|
    ensures |tasks| >= 1 ==> TaskItems(r, |tasks|)
    ensures forall j: nat :: j in r <==> j < |tasks|
  {
    var r := TF.Range(|tasks|);
    assert forall j: nat :: j in r ==> j < |tasks| by {
      forall j: nat | j in r ensures j < |tasks| {
        var k :| 0 <= k < |r| && r[k] == j;
      }
    }
    assert forall j: nat :: j < |tasks| ==> j in r by {
      forall j: nat | j < |tasks| ensures j in r { assert r[j] == j; }
    }
    r
  }

  /** `get_context_items`: `[all]`, then every context of `tasks`, completed tasks included. */
  method GetContextItems(tasks: seq<Task>) returns (r: seq<string>)
    ensures FacetItems(r, TagSet(tasks, true, ContextTag))
    ensures |r| == 1 + |TagSet(tasks, true, ContextTag)|
  {
    var cs := CollectContexts(tasks, true);
    r := [AllToken] + cs;
    assert r[1..] == cs;
  }

  /** `get_project_items`: `[all]`, then every project of `tasks`. */
  method GetProjectItems(tasks: seq<Task>) returns (r: seq<string>)
    ensures FacetItems(r, TagSet(tasks, true, ProjectTag))
    ensures |r| == 1 + |TagSet(tasks, true, ProjectTag)|
  {
    var ps := CollectProjects(tasks, true);
    r := [AllToken] + ps;
    assert r[1..] == ps;
  }

  /** `get_priority_items`: `[all]`, then every priority letter of `tasks` as a one-letter string. */
  method GetPriorityItems(tasks: seq<Task>) returns (r: seq<string>)
    ensures PriorityItems(r, PrioritySet(tasks, true))
    ensures |r| == 1 + |PrioritySet(tasks, true)|
  {
    var ps := CollectPriorities(tasks, true);
    r := [AllToken] + CharStrings(ps);
    assert r[1..] == CharStrings(ps);
  }

  /**
   * The `TasksFilter` chain of `filter_tasks` over the real tasks: the indices
   * of the survivors.
   */
  method RunFilter(source: seq<Task>, omitCompleted: bool, project: Option<string>, context: Option<string>, priority: Option<char>)
    returns (survivors: seq<nat>)
    ensures survivors == Survivors(source, omitCompleted, project, context, priority)
  {
    var filter := new TF.TasksFilter(source);
    ghost var all := TF.Range(|source|);
    ghost var ks: seq<TF.Criterion> := [];
    filter.WithoutCompleted(omitCompleted);
    ChainThen(source, all, ks, omitCompleted, TF.Completion(false));
    ks := Then(ks, omitCompleted, TF.Completion(false));
    filter.WithProject(project);
    ChainThen(source, all, ks, project.Some?, TF.InProject(if project.Some? then project.value else ""));
    ks := Then(ks, project.Some?, TF.InProject(if project.Some? then project.value else ""));
    filter.WithContext(context);
    ChainThen(source, all, ks, context.Some?, TF.InContext(if context.Some? then context.value else ""));
    ks := Then(ks, context.Some?, TF.InContext(if context.Some? then context.value else ""));
    filter.WithPriority(priority);
    ChainThen(source, all, ks, priority.Some?, TF.HasPriority(if priority.Some? then priority.value else ' '));
    ks := Then(ks, priority.Some?, TF.HasPriority(if priority.Some? then priority.value else ' '));
    survivors := filter.taskIndices;
  }

  /** A fresh task list holding the rows `filter_tasks` keeps, with the cursor on the sentinel row. */
  method FilteredList(tasks: seq<Task>, omitCompleted: bool, project: Option<string>, context: Option<string>, priority: Option<char>)
    returns (list: SelectionList<nat>)
    requires |tasks| >= 1
    ensures fresh(list) && list.Valid() && list.selection == Some(0)
    ensures list.items == FilteredItems(tasks, omitCompleted, project, context, priority)
    ensures TaskItems(list.items, |tasks|)
  {
    var survivors := RunFilter(tasks[1..], omitCompleted, project, context, priority);
    FilteredItemsShape(tasks, omitCompleted, project, context, priority);
    list := new SelectionList.WithItems([0] + Shifted(survivors));
  }

  /** A list rebuilt with `with_items`, then reselected on the value it held, if any. */
  method Rebuilt(items: seq<string>, previous: Option<string>) returns (list: SelectionList<string>)
    requires |items| >= 1
    ensures fresh(list) && list.Valid()
    ensures list.items == items && list.selection == Reselected(items, previous)
  {
    list := new SelectionList.WithItems(items);
    if previous.Some? {
      list.Select(Position(items, previous.value));
    }
  }

  /** The four lists `App::new` builds from the task vector, each with its cursor on row 0. */
  method InitialLists(tasks: seq<Task>)
    returns (taskList: SelectionList<nat>, contextList: SelectionList<string>,
             projectList: SelectionList<string>, priorityList: SelectionList<string>)
    requires |tasks| >= 1
    ensures fresh(taskList) && fresh(contextList) && fresh(projectList) && fresh(priorityList)
    ensures contextList != projectList && contextList != priorityList && projectList != priorityList
    ensures taskList.items == GetTaskItems(tasks) && taskList.selection == Some(0)
    ensures FacetsOf(tasks, contextList.items, projectList.items, priorityList.items)
    ensures contextList.selection == Some(0) && projectList.selection == Some(0) && priorityList.selection == Some(0)
    ensures taskList.Valid() && contextList.Valid() && projectList.Valid() && priorityList.Valid()
    ensures TaskItems(taskList.items, |tasks|)
    ensures |taskList.items| >= 1 && |contextList.items| >= 1 && |projectList.items| >= 1 && |priorityList.items| >= 1
  {
    var cs := GetContextItems(tasks);
    var ps := GetProjectItems(tasks);
    var prs := GetPriorityItems(tasks);
    taskList := new SelectionList.WithItems(GetTaskItems(tasks));
    contextList := new SelectionList.WithItems(cs);
    projectList := new SelectionList.WithItems(ps);
    priorityList := new SelectionList.WithItems(prs);
  }

  //----------------------------------------------------------------------------
  // The controller
  //----------------------------------------------------------------------------

  class App {
    var tasks: seq<Task>
    var taskList: SelectionList<nat>
    var contextList: SelectionList<string>
    var projectList: SelectionList<string>
    var priorityList: SelectionList<string>
    var mode: Mode
    var focus: Focus
    var omitCompleted: bool
    var errorMsg: string

    /**
     * The sentinel row is present, every list has at least its header row and
     * a cursor inside it, and the three facet lists are separate objects.
     */
    ghost predicate Shape()
      reads this, taskList, contextList, projectList, priorityList
    {
      |tasks| >= 1
      && taskList.Valid() && contextList.Valid() && projectList.Valid() && priorityList.Valid()
      && |taskList.items| >= 1 && |contextList.items| >= 1 && |projectList.items| >= 1 && |priorityList.items| >= 1
      && contextList != projectList && contextList != priorityList && projectList != priorityList
    }

    /** Besides the shape, every row of the task list names a task of `tasks`, the sentinel first. */
    ghost predicate Valid()
      reads this, taskList, contextList, projectList, priorityList
    {
      Shape() && TaskItems(taskList.items, |tasks|)
    }

    /** The task list is what `filter_tasks` derives from the tasks, the toggle and the facet cursors. */
    ghost predicate Filtered()
      reads this, taskList, contextList, projectList, priorityList
      requires |tasks| >= 1
    {
      taskList.items == FilteredItems(tasks, omitCompleted, SelectedProject(), SelectedContext(), SelectedPriority())
    }

    /** The facet lists hold the tags and priorities of the full task vector. */
    ghost predicate FacetsReflect()
      reads this, contextList, projectList, priorityList
    {
      FacetsOf(tasks, contextList.items, projectList.items, priorityList.items)
    }

    twostate predicate ListsKept()
      reads this, taskList, contextList, projectList, priorityList
    {
      taskList == old(taskList) && contextList == old(contextList)
      && projectList == old(projectList) && priorityList == old(priorityList)
      && taskList.selection == old(taskList.selection) && contextList.selection == old(contextList.selection)
      && projectList.selection == old(projectList.selection) && priorityList.selection == old(priorityList.selection)
    }

    twostate predicate SettingsKept()
      reads this
    {
      tasks == old(tasks) && mode == old(mode) && focus == old(focus)
      && omitCompleted == old(omitCompleted) && errorMsg == old(errorMsg)
    }

    /** Each facet cursor sits on the value it held before the lists were rebuilt, as `update_state_after_edit` reselects it. */
    twostate predicate FacetsReselected()
      reads this, contextList, projectList, priorityList
    {
      |contextList.items| >= 1 && |projectList.items| >= 1 && |priorityList.items| >= 1
      && contextList.selection == Reselected(contextList.items, old(SelectedContext()))
      && projectList.selection == Reselected(projectList.items, old(SelectedProject()))
      && priorityList.selection == Reselected(priorityList.items, Lettered(old(SelectedPriority())))
    }

    /**
     * The task cursor `update_state_after_edit` leaves after an edit of `tasks`: the old row,
     * kept or forced to 0 according to the task that row now names in the edited vector.
     */
    twostate predicate CursorRestored()
      reads this, taskList, contextList, projectList, priorityList
    {
      |taskList.items| >= 1
      && taskList.selection
         == KeptCursor(old(taskList.selection), |taskList.items|,
                       if old(SelectedTaskIdx()).Some? && old(SelectedTaskIdx()).value < |tasks|
                       then Some(tasks[old(SelectedTaskIdx()).value]) else None,
                       SelectedPriority(), SelectedContext(), SelectedProject())
    }

    /** Every task, row 0's included, renders to a line that parses back to it. */
    ghost predicate Persistable()
      reads this
    {
      AllCanonical(tasks)
    }

    /** Every facet list other than the one `moved` names keeps its object and its cursor. */
    twostate predicate OtherFacetsKept(moved: Focus)
      reads this, contextList, projectList, priorityList
    {
      (moved == Contexts || (contextList == old(contextList) && contextList.selection == old(contextList.selection)))
      && (moved == Projects || (projectList == old(projectList) && projectList.selection == old(projectList.selection)))
      && (moved == Priorities || (priorityList == old(priorityList) && priorityList.selection == old(priorityList.selection)))
    }

    /** `get_selected_context`: the selected context, or none on `[all]` or no cursor. */
    function SelectedContext(): (r: Option<string>)
      reads this, contextList
      ensures r.Some? <==> contextList.selection.Some? && 0 < contextList.selection.value < |contextList.items|
    {
      SelectedItem(contextList)
    }

    function SelectedProject(): (r: Option<string>)
      reads this, projectList
      ensures r.Some? <==> projectList.selection.Some? && 0 < projectList.selection.value < |projectList.items|
    {
      SelectedItem(projectList)
    }

    /** `get_selected_priority`: the first letter of the selected priority row. */
    function SelectedPriority(): (r: Option<char>)
      reads this, priorityList
      ensures r.Some? ==> SelectedItem(priorityList).Some? && |SelectedItem(priorityList).value| > 0
      ensures r.Some? ==> r.value == SelectedItem(priorityList).value[0]
      ensures SelectedItem(priorityList).Some? && |SelectedItem(priorityList).value| > 0 ==> r.Some?
    {
      match SelectedItem(priorityList)
      case Some(s) => if |s| > 0 then Some(s[0]) else None
      case None => None
    }

    /** `get_selected_task_list_idx`: the cursor, unless it is on the sentinel row. */
    function SelectedTaskListIdx(): (r: Option<nat>)
      reads this, taskList
      ensures r.Some? <==> taskList.selection.Some? && taskList.selection.value > 0
      ensures r.Some? ==> r == taskList.selection
    {
      match taskList.selection
      case Some(i) => if i > 0 then Some(i) else None
      case None => None
    }

    /** `get_selected_task_idx`: the task index the cursor's row names. */
    function SelectedTaskIdx(): (r: Option<nat>)
      reads this, taskList
      ensures r.Some? <==> SelectedTaskListIdx().Some? && SelectedTaskListIdx().value < |taskList.items|
      ensures r.Some? ==> r.value == taskList.items[taskList.selection.value]
      ensures r.Some? && TaskItems(taskList.items, |tasks|) ==> 1 <= r.value < |tasks|
    {
      var r := SelectedItem(taskList);
      assert r.Some? && TaskItems(taskList.items, |tasks|) ==> taskList.items[0] < taskList.items[taskList.selection.value];
      r
    }

    /** `get_selected_task`: the task under the cursor, never the sentinel row's. */
    function SelectedTask(): (r: Option<Task>)
      reads this, taskList
      ensures r.Some? <==> SelectedTaskIdx().Some? && SelectedTaskIdx().value < |tasks|
      ensures r.Some? ==> r.value == tasks[SelectedTaskIdx().value]
    {
      match SelectedTaskIdx()
      case Some(i) => if i < |tasks| then Some(tasks[i]) else None
      case None => None
    }

    /**
     * `App::new`: the sentinel task followed by `ts`, the unfiltered task
     * list and the three facet lists, each with its cursor on row 0.
     */
    constructor (ts: seq<Task>)
      ensures tasks == [NewTask] + ts
      ensures taskList.items == GetTaskItems(tasks) && taskList.selection == Some(0)
      ensures FacetsReflect()
      ensures contextList.selection == Some(0) && projectList.selection == Some(0) && priorityList.selection == Some(0)
      ensures mode == Normal && focus == Tasks && omitCompleted && errorMsg == ""
      ensures Valid()
      ensures fresh(taskList) && fresh(contextList) && fresh(projectList) && fresh(priorityList)
      ensures AllCanonical(ts) ==> Persistable()
    {
      var sentinel := Sentinel();
      var all := [sentinel] + ts;
      var tl, cl, pl, rl := InitialLists(all);
      tasks, taskList, contextList, projectList, priorityList := all, tl, cl, pl, rl;
      mode := Normal;
      focus := Tasks;
      omitCompleted := true;
      errorMsg := "";
      new;
      SentinelFirstCanonical(ts);
    }

    /**
     * `filter_tasks`: rebuild the task list from the toggle and the facet
     * cursors, with the cursor on the sentinel row.
     */
    method FilterTasks()
      requires Shape()
      modifies this
      ensures Valid() && Filtered() && fresh(taskList) && taskList.selection == Some(0)
      ensures contextList == old(contextList) && projectList == old(projectList) && priorityList == old(priorityList)
      ensures SettingsKept()
    {
      var project, context, priority := SelectedProject(), SelectedContext(), SelectedPriority();
      taskList := FilteredList(tasks, omitCompleted, project, context, priority);
    }

    /** Step (a)-(c) of `update_state_after_edit` for the context list. */
    method RebuildContexts()
      requires Shape()
      modifies this
      ensures Shape() && fresh(contextList)
      ensures FacetItems(contextList.items, TagSet(tasks, true, ContextTag))
      ensures contextList.selection == Reselected(contextList.items, old(SelectedContext()))
      ensures taskList == old(taskList) && projectList == old(projectList) && priorityList == old(priorityList)
      ensures SettingsKept()
    {
      var contexts := GetContextItems(tasks);
      contextList := Rebuilt(contexts, SelectedContext());
    }

    /** The same for the project list. */
    method RebuildProjects()
      requires Shape()
      modifies this
      ensures Shape() && fresh(projectList)
      ensures FacetItems(projectList.items, TagSet(tasks, true, ProjectTag))
      ensures projectList.selection == Reselected(projectList.items, old(SelectedProject()))
      ensures taskList == old(taskList) && contextList == old(contextList) && priorityList == old(priorityList)
      ensures SettingsKept()
    {
      var projects := GetProjectItems(tasks);
      projectList := Rebuilt(projects, SelectedProject());
    }

    /** The same for the priority list, matching the selected letter as a string. */
    method RebuildPriorities()
      requires Shape()
      modifies this
      ensures Shape() && fresh(priorityList)
      ensures PriorityItems(priorityList.items, PrioritySet(tasks, true))
      ensures priorityList.selection == Reselected(priorityList.items, Lettered(old(SelectedPriority())))
      ensures taskList == old(taskList) && contextList == old(contextList) && projectList == old(projectList)
      ensures SettingsKept()
    {
      var priorities := GetPriorityItems(tasks);
      priorityList := Rebuilt(priorities, Lettered(SelectedPriority()));
    }

    /**
     * `update_state_after_edit`: rebuild the facet lists from the tasks and
     * put each cursor back on its previous value, refilter, and restore the
     * task cursor unless the task it was on no longer fits the facets.
     */
    method UpdateStateAfterEdit()
      requires Shape()
      modifies this
      ensures Valid() && FacetsReflect() && Filtered()
      ensures fresh(taskList) && fresh(contextList) && fresh(projectList) && fresh(priorityList)
      ensures contextList.selection == Reselected(contextList.items, old(SelectedContext()))
      ensures projectList.selection == Reselected(projectList.items, old(SelectedProject()))
      ensures priorityList.selection == Reselected(priorityList.items, Lettered(old(SelectedPriority())))
      ensures taskList.selection == KeptCursor(old(taskList.selection), |taskList.items|, old(SelectedTask()),
                                               SelectedPriority(), SelectedContext(), SelectedProject())
      ensures SettingsKept()
    {
      var previousTask := SelectedTask();
      var previousRow := taskList.selection;
      RebuildContexts();
      RebuildProjects();
      RebuildPriorities();
      FilterTasks();
      RestoreCursor(previousRow, previousTask);
    }

    /** The task-cursor half of `update_state_after_edit`, on the freshly filtered list. */
    method RestoreCursor(previousRow: Option<nat>, previousTask: Option<Task>)
      requires Valid()
      modifies taskList
      ensures Valid()
      ensures taskList.selection == KeptCursor(previousRow, |taskList.items|, previousTask,
                                               SelectedPriority(), SelectedContext(), SelectedProject())
    {
      taskList.Select(previousRow);
      if previousTask.Some? {
        var task := previousTask.value;
        if task.priority != SelectedPriority() {
          taskList.Select(Some(0));
        }
        var context := SelectedContext();
        if context.Some? && context.value !in task.contexts {
          taskList.Select(Some(0));
        }
        var project := SelectedProject();
        if project.Some? && project.value !in task.projects {
          taskList.Select(Some(0));
        }
      }
    }

    /**
     * `navigate_up`: in Normal mode, move the focused list's cursor up with
     * wrap-around, refiltering when the focused list is a facet list.
     */
    method NavigateUp()
      requires Valid()
      modifies this, taskList, contextList, projectList, priorityList
      ensures Valid() && SettingsKept()
      ensures old(mode) != Normal ==> ListsKept()
      ensures old(mode) == Normal && focus == Tasks ==>
        OtherFacetsKept(Tasks) && taskList == old(taskList)
        && taskList.selection == Some(PreviousPosition(old(taskList.selection), |taskList.items|))
      ensures old(mode) == Normal && focus == Contexts ==>
        OtherFacetsKept(Contexts) && contextList == old(contextList)
        && contextList.selection == Some(PreviousPosition(old(contextList.selection), |contextList.items|))
        && fresh(taskList) && Filtered() && taskList.selection == Some(0)
      ensures old(mode) == Normal && focus == Projects ==>
        OtherFacetsKept(Projects) && projectList == old(projectList)
        && projectList.selection == Some(PreviousPosition(old(projectList.selection), |projectList.items|))
        && fresh(taskList) && Filtered() && taskList.selection == Some(0)
      ensures old(mode) == Normal && focus == Priorities ==>
        OtherFacetsKept(Priorities) && priorityList == old(priorityList)
        && priorityList.selection == Some(PreviousPosition(old(priorityList.selection), |priorityList.items|))
        && fresh(taskList) && Filtered() && taskList.selection == Some(0)
    {
      if mode == Normal {
        match focus
        case Tasks =>
          taskList.Previous();
        case Contexts =>
          contextList.Previous();
          FilterTasks();
        case Projects =>
          projectList.Previous();
          FilterTasks();
        case Priorities =>
          priorityList.Previous();
          FilterTasks();
      }
    }

    /** `navigate_down`: the same, moving the cursor down. */
    method NavigateDown()
      requires Valid()
      modifies this, taskList, contextList, projectList, priorityList
      ensures Valid() && SettingsKept()
      ensures old(mode) != Normal ==> ListsKept()
      ensures old(mode) == Normal && focus == Tasks ==>
        OtherFacetsKept(Tasks) && taskList == old(taskList)
        && taskList.selection == Some(NextPosition(old(taskList.selection), |taskList.items|))
      ensures old(mode) == Normal && focus == Contexts ==>
        OtherFacetsKept(Contexts) && contextList == old(contextList)
        && contextList.selection == Some(NextPosition(old(contextList.selection), |contextList.items|))
        && fresh(taskList) && Filtered() && taskList.selection == Some(0)
      ensures old(mode) == Normal && focus == Projects ==>
        OtherFacetsKept(Projects) && projectList == old(projectList)
        && projectList.selection == Some(NextPosition(old(projectList.selection), |projectList.items|))
        && fresh(taskList) && Filtered() && taskList.selection == Some(0)
      ensures old(mode) == Normal && focus == Priorities ==>
        OtherFacetsKept(Priorities) && priorityList == old(priorityList)
        && priorityList.selection == Some(NextPosition(old(priorityList.selection), |priorityList.items|))
        && fresh(taskList) && Filtered() && taskList.selection == Some(0)
    {
      if mode == Normal {
        match focus
        case Tasks =>
          taskList.Next();
        case Contexts =>
          contextList.Next();
          FilterTasks();
        case Projects =>
          projectList.Next();
          FilterTasks();
        case Priorities =>
          priorityList.Next();
          FilterTasks();
      }
    }

    /** `navigate_right`: in Normal mode, focus the next list of the cycle. */
    method NavigateRight()
      modifies this
      ensures focus == if old(mode) == Normal then RightOf(old(focus)) else old(focus)
      ensures tasks == old(tasks) && mode == old(mode) && omitCompleted == old(omitCompleted) && errorMsg == old(errorMsg)
      ensures ListsKept()
    {
      if mode == Normal {
        focus := RightOf(focus);
      }
    }

    /** `navigate_left`: in Normal mode, focus the previous list of the cycle. */
    method NavigateLeft()
      modifies this
      ensures focus == if old(mode) == Normal then LeftOf(old(focus)) else old(focus)
      ensures tasks == old(tasks) && mode == old(mode) && omitCompleted == old(omitCompleted) && errorMsg == old(errorMsg)
      ensures ListsKept()
    {
      if mode == Normal {
        focus := LeftOf(focus);
      }
    }

    /** `toggle_completed`: flip whether completed tasks are hidden, and refilter. */
    method ToggleCompleted()
      requires Valid()
      modifies this
      ensures omitCompleted == !old(omitCompleted)
      ensures Valid() && Filtered() && fresh(taskList) && taskList.selection == Some(0)
      ensures OtherFacetsKept(Tasks)
      ensures tasks == old(tasks) && mode == old(mode) && focus == old(focus) && errorMsg == old(errorMsg)
    {
      omitCompleted := !omitCompleted;
      FilterTasks();
    }

    /**
     * `mark_selected_task_complete`: complete the task under the cursor,
     * stamping today as its completion date when it has a creation date.
     */
    method MarkSelectedTaskComplete(today: Date)
      requires Valid()
      modifies this
      ensures old(SelectedTask()).Some? ==>
        tasks == old(tasks)[old(SelectedTaskIdx()).value := MarkedComplete(old(SelectedTask()).value, today)]
      ensures old(SelectedTask()).None? ==> tasks == old(tasks)
      ensures old(Persistable()) ==> Persistable()
      ensures Valid() && ListsKept()
      ensures mode == old(mode) && focus == old(focus) && omitCompleted == old(omitCompleted) && errorMsg == old(errorMsg)
    {
      var idx := SelectedTaskIdx();
      if idx.Some? && idx.value < |tasks| {
        if Canonical(tasks[idx.value]) {
          MarkedCompleteCanonical(tasks[idx.value], today);
        }
        tasks := tasks[idx.value := MarkedComplete(tasks[idx.value], today)];
      }
    }

    /**
     * `sort_tasks`: sort the whole vector, the sentinel's slot included, by the
     * derived task order; the task list is not rebuilt.
     */
    method SortTasks()
      requires Valid()
      modifies this
      ensures Sorted(tasks) && multiset(tasks) == multiset(old(tasks))
      ensures old(Persistable()) ==> Persistable()
      ensures Valid() && ListsKept()
      ensures mode == old(mode) && focus == old(focus) && omitCompleted == old(omitCompleted) && errorMsg == old(errorMsg)
    {
      ghost var before := tasks;
      SortTasksSorted(tasks);
      tasks := TaskModel.SortTasks(tasks);
      assert |tasks| == |multiset(tasks)|;
      forall k | 0 <= k < |tasks|
        ensures tasks[k] in before
      {
        assert tasks[k] in multiset(tasks);
      }
    }

    /**
     * `confirm_action`: in Confirm mode run the pending action and return to
     * Normal; a save hands back the lines to write.
     */
    method ConfirmAction() returns (saved: Option<seq<string>>)
      requires Valid()
      modifies this
      ensures Valid() && ListsKept()
      ensures old(mode) == Confirm(Save) ==> tasks == old(tasks) && saved == Some(SaveLines(tasks)) && mode == Normal
      ensures old(mode) == Confirm(Sort) ==>
        saved.None? && Sorted(tasks) && multiset(tasks) == multiset(old(tasks)) && mode == Normal
      ensures !old(mode).Confirm? ==> saved.None? && tasks == old(tasks) && mode == old(mode)
      ensures old(Persistable()) ==> Persistable()
      ensures saved.Some? && Persistable() ==> Loaded(saved.value) == tasks[1..]
      ensures focus == old(focus) && omitCompleted == old(omitCompleted) && errorMsg == old(errorMsg)
    {
      saved := None;
      if mode.Confirm? {
        match mode.action
        case Save =>
          saved := Some(SaveLines(tasks));
          if Persistable() {
            SaveReadsBack(tasks);
          }
          mode := Normal;
        case Sort =>
          SortTasks();
          mode := Normal;
      }
    }

    /** `cancel_action`: back to Normal, whatever the mode. */
    method CancelAction()
      modifies this
      ensures mode == Normal
      ensures tasks == old(tasks) && focus == old(focus) && omitCompleted == old(omitCompleted) && errorMsg == old(errorMsg)
      ensures ListsKept()
    {
      mode := Normal;
    }

    /** `enter_confirm_mode`: wait for confirmation of `action`. */
    method EnterConfirmMode(action: ConfirmedAction)
      modifies this
      ensures mode == Confirm(action)
      ensures tasks == old(tasks) && focus == old(focus) && omitCompleted == old(omitCompleted) && errorMsg == old(errorMsg)
      ensures ListsKept()
    {
      mode := Confirm(action);
    }

    /** `enter_edit_mode`: switch to Edit and hand the editor the selected task's text. */
    method EnterEditMode() returns (text: string)
      modifies this
      ensures mode == Edit
      ensures old(SelectedTask()).Some? ==> text == Render(old(SelectedTask()).value)
      ensures old(SelectedTask()).None? ==> text == ""
      ensures tasks == old(tasks) && focus == old(focus) && omitCompleted == old(omitCompleted) && errorMsg == old(errorMsg)
      ensures ListsKept()
    {
      mode := Edit;
      var task := SelectedTask();
      text := if task.Some? then Render(task.value) else "";
    }

    /** `enter_help_mode`. */
    method EnterHelpMode()
      modifies this
      ensures mode == Help
      ensures tasks == old(tasks) && focus == old(focus) && omitCompleted == old(omitCompleted) && errorMsg == old(errorMsg)
      ensures ListsKept()
    {
      mode := Help;
    }

    /** `exit_help_mode`. */
    method ExitHelpMode()
      modifies this
      ensures mode == Normal
      ensures tasks == old(tasks) && focus == old(focus) && omitCompleted == old(omitCompleted) && errorMsg == old(errorMsg)
      ensures ListsKept()
    {
      mode := Normal;
    }

    /** The task-list row under the cursor. */
    ghost function CursorRow(): (r: nat)
      reads this, taskList, contextList, projectList, priorityList
      requires Valid() && taskList.selection.Some?
      ensures r < |taskList.items|
    {
      taskList.selection.value
    }

    /** The task index the cursor's row names: the sentinel's 0 on row 0, a real task's otherwise. */
    ghost function CursorTask(): (r: nat)
      reads this, taskList, contextList, projectList, priorityList
      requires Valid() && taskList.selection.Some?
      ensures r < |tasks|
      ensures (r == 0) <==> (CursorRow() == 0)
    {
      var row := taskList.selection.value;
      assert row > 0 ==> taskList.items[0] < taskList.items[row];
      taskList.items[row]
    }

    /** `tasks.remove(index)` followed by `update_state_after_edit`. */
    method RemoveTask(index: nat)
      requires Valid() && 1 <= index < |tasks|
      modifies this
      ensures tasks == old(tasks)[..index] + old(tasks)[index + 1..]
      ensures old(Persistable()) ==> Persistable()
      ensures Valid() && FacetsReflect() && Filtered()
      ensures FacetsReselected() && CursorRestored()
      ensures mode == old(mode) && focus == old(focus) && omitCompleted == old(omitCompleted) && errorMsg == old(errorMsg)
    {
      if Persistable() {
        RemovedCanonical(tasks, index);
      }
      tasks := tasks[..index] + tasks[index + 1..];
      UpdateStateAfterEdit();
    }

    /** `tasks.push(task)` with the cursor put on the sentinel row, then `update_state_after_edit`. */
    method AppendTask(task: Task)
      requires Valid()
      modifies this, taskList
      ensures tasks == old(tasks) + [task]
      ensures old(Persistable()) && Canonical(task) ==> Persistable()
      ensures Valid() && FacetsReflect() && Filtered() && taskList.selection == Some(0)
      ensures FacetsReselected()
      ensures mode == old(mode) && focus == old(focus) && omitCompleted == old(omitCompleted) && errorMsg == old(errorMsg)
    {
      tasks := tasks + [task];
      taskList.Select(Some(0));
      UpdateStateAfterEdit();
    }

    /** `tasks[index] = task`, then `update_state_after_edit`. */
    method ReplaceTask(index: nat, task: Task)
      requires Valid() && 1 <= index < |tasks|
      modifies this
      ensures tasks == old(tasks)[index := task]
      ensures old(Persistable()) && Canonical(task) ==> Persistable()
      ensures Valid() && FacetsReflect() && Filtered()
      ensures FacetsReselected() && CursorRestored()
      ensures mode == old(mode) && focus == old(focus) && omitCompleted == old(omitCompleted) && errorMsg == old(errorMsg)
    {
      tasks := tasks[index := task];
      UpdateStateAfterEdit();
    }

    /** The parsed text under the cursor: appended, stamped with today, on the sentinel row; replacing the task otherwise. */
    method CommitEdit(task: Task, today: Date)
      requires Valid() && taskList.selection.Some? && Canonical(task)
      modifies this, taskList
      ensures Valid() && FacetsReflect() && Filtered()
      ensures old(Persistable()) ==> Persistable()
      ensures old(CursorRow()) == 0 ==>
        tasks == old(tasks) + [task.(dateCreated := Some(today))] && taskList.selection == Some(0)
      ensures old(CursorRow()) != 0 ==> tasks == old(tasks)[old(CursorTask()) := task] && CursorRestored()
      ensures FacetsReselected()
      ensures mode == old(mode) && focus == old(focus) && omitCompleted == old(omitCompleted) && errorMsg == old(errorMsg)
    {
      var row := taskList.selection.value;
      var index := taskList.items[row];
      assert index == CursorTask();
      StampedCanonical(task, today);
      if row == 0 {
        AppendTask(task.(dateCreated := Some(today)));
      } else {
        ReplaceTask(index, task);
      }
    }

    /**
     * The edited text applied to the row under the cursor: an empty text
     * deletes a real task, a parsable one replaces it or, on the sentinel row,
     * is appended with today as its creation date, and anything else only sets
     * the error message.
     */
    method ApplyEdit(text: string, today: Date)
      requires Valid() && taskList.selection.Some?
      modifies this, taskList
      ensures Valid() && mode == old(mode) && focus == old(focus) && omitCompleted == old(omitCompleted)
      ensures old(Persistable()) ==> Persistable()
      ensures text == "" && old(CursorRow()) == 0 ==>
        tasks == old(tasks) && errorMsg == old(errorMsg) && ListsKept()
      ensures text == "" && old(CursorRow()) != 0 ==>
        tasks == old(tasks)[..old(CursorTask())] + old(tasks)[old(CursorTask()) + 1..]
        && errorMsg == old(errorMsg) && FacetsReflect() && Filtered()
        && FacetsReselected() && CursorRestored()
      ensures text != "" && FromStr(text).Err? ==>
        tasks == old(tasks) && errorMsg == "Failed to parse Task" && ListsKept()
      ensures text != "" && FromStr(text).Ok? && old(CursorRow()) == 0 ==>
        tasks == old(tasks) + [FromStr(text).value.(dateCreated := Some(today))]
        && errorMsg == old(errorMsg) && FacetsReflect() && Filtered() && taskList.selection == Some(0)
        && FacetsReselected()
      ensures text != "" && FromStr(text).Ok? && old(CursorRow()) != 0 ==>
        tasks == old(tasks)[old(CursorTask()) := FromStr(text).value]
        && errorMsg == old(errorMsg) && FacetsReflect() && Filtered()
        && FacetsReselected() && CursorRestored()
    {
      var row := taskList.selection.value;
      var index := taskList.items[row];
      assert index == CursorTask();
      if text == "" {
        if row != 0 {
          RemoveTask(index);
        }
        return;
      }
      match FromStr(text)
      case Ok(task) =>
        ParsedIsCanonical(text);
        CommitEdit(task, today);
      case Err(_) =>
        errorMsg := "Failed to parse Task";
    }

    /** `exit_edit_mode`: back to Normal and, unless editing was cancelled, apply the edited text. */
    method ExitEditMode(input: Option<string>, today: Date)
      requires Valid()
      requires input.Some? ==> taskList.selection.Some?
      modifies this, taskList
      ensures mode == Normal && Valid()
      ensures focus == old(focus) && omitCompleted == old(omitCompleted)
      ensures old(Persistable()) ==> Persistable()
      ensures input.None? ==> tasks == old(tasks) && errorMsg == old(errorMsg) && ListsKept()
      ensures input == Some("") && old(CursorRow()) == 0 ==>
        tasks == old(tasks) && errorMsg == old(errorMsg) && ListsKept()
      ensures input == Some("") && old(CursorRow()) != 0 ==>
        tasks == old(tasks)[..old(CursorTask())] + old(tasks)[old(CursorTask()) + 1..]
        && errorMsg == old(errorMsg) && FacetsReflect() && Filtered()
        && FacetsReselected() && CursorRestored()
      ensures input.Some? && input.value != "" && FromStr(input.value).Err? ==>
        tasks == old(tasks) && errorMsg == "Failed to parse Task" && ListsKept()
      ensures input.Some? && input.value != "" && FromStr(input.value).Ok? && old(CursorRow()) == 0 ==>
        tasks == old(tasks) + [FromStr(input.value).value.(dateCreated := Some(today))]
        && errorMsg == old(errorMsg) && FacetsReflect() && Filtered() && taskList.selection == Some(0)
        && FacetsReselected()
      ensures input.Some? && input.value != "" && FromStr(input.value).Ok? && old(CursorRow()) != 0 ==>
        tasks == old(tasks)[old(CursorTask()) := FromStr(input.value).value]
        && errorMsg == old(errorMsg) && FacetsReflect() && Filtered()
        && FacetsReselected() && CursorRestored()
    {
      ghost var cursor := taskList.selection.Some?;
      ghost var row, index := if cursor then CursorRow() else 0, if cursor then CursorTask() else 0;
      ghost var context, project, priority, taskIdx := SelectedContext(), SelectedProject(), SelectedPriority(), SelectedTaskIdx();
      mode := Normal;
      assert cursor ==> CursorRow() == row && CursorTask() == index;
      assert SelectedContext() == context && SelectedProject() == project;
      assert SelectedPriority() == priority && SelectedTaskIdx() == taskIdx;
      if input.Some? {
        ApplyEdit(input.value, today);
      }
    }
  }
}
