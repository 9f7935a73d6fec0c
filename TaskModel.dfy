/**
 * One todo.txt task (`struct Task`): its fields, its canonical text form
 * (`Display`), the derivation of `@context` and `+project` tags from the
 * description (`set_description`), and the derived `Ord` used for sorting.
 */
module TaskModel {
  import opened Wrappers
  import opened Text
  import opened Dates
  import opened Ordering

  datatype Task = Task(
    completed: bool,
    priority: Option<char>,
    dateCompleted: Option<Date>,
    dateCreated: Option<Date>,
    description: string,
    contexts: seq<string>,
    projects: seq<string>)

  /** `Task::default()`. */
  const DefaultTask := Task(false, None, None, None, "", [], [])

  /** `Display::fmt`: each present prefix field followed by one space, then the description. */
  function Render(t: Task): string {
    CompletionText(t.completed) + PriorityText(t.priority)
    + DateText(t.dateCompleted) + DateText(t.dateCreated) + t.description
  }

  function CompletionText(completed: bool): string {
    if completed then "x " else ""
  }

  function PriorityText(p: Option<char>): string {
    match p
    case Some(c) => ['(', c, ')', ' ']
    case None => ""
  }

  function DateText(d: Option<Date>): string {
    match d
    case Some(date) => FormatDate(date) + " "
    case None => ""
  }

  function CompletionToken(completed: bool): seq<string> {
    if completed then ["x"] else []
  }

  function PriorityToken(p: Option<char>): seq<string> {
    match p
    case Some(c) => [['(', c, ')']]
    case None => []
  }

  function DateToken(d: Option<Date>): seq<string> {
    match d
    case Some(date) => [FormatDate(date)]
    case None => []
  }

  /** The prefix tokens `Render` writes before the description, in order. */
  function PrefixTokens(t: Task): seq<string> {
    CompletionToken(t.completed) + PriorityToken(t.priority)
    + DateToken(t.dateCompleted) + DateToken(t.dateCreated)
  }

  /** Tokens each followed by one space. */
  function Spaced(toks: seq<string>): string {
    if toks == [] then "" else toks[0] + " " + Spaced(toks[1..])
  }

  /** The rendering is the prefix tokens, each followed by a space, then the description. */
  lemma RenderIsPrefixThenDescription(t: Task)
    ensures Render(t) == Spaced(PrefixTokens(t)) + t.description
  {
    CompletionPiece(t.completed);
    PriorityPiece(t.priority);
    DatePiece(t.dateCompleted);
    DatePiece(t.dateCreated);
    SpacedFour(CompletionToken(t.completed), PriorityToken(t.priority),
               DateToken(t.dateCompleted), DateToken(t.dateCreated));
  }

  lemma SpacedFour(a: seq<string>, b: seq<string>, c: seq<string>, d: seq<string>)
    ensures Spaced(a + b + c + d) == Spaced(a) + Spaced(b) + Spaced(c) + Spaced(d)
  {
    SpacedAppend(a + b + c, d);
    SpacedAppend(a + b, c);
    SpacedAppend(a, b);
  }

  lemma CompletionPiece(b: bool)
    ensures Spaced(CompletionToken(b)) == CompletionText(b)
  {
    if b { assert ["x"][1..] == []; }
  }

  lemma PriorityPiece(p: Option<char>)
    ensures Spaced(PriorityToken(p)) == PriorityText(p)
  {
    if p.Some? { assert PriorityToken(p)[1..] == []; }
  }

  lemma DatePiece(d: Option<Date>)
    ensures Spaced(DateToken(d)) == DateText(d)
  {
    if d.Some? { assert DateToken(d)[1..] == []; }
  }

  lemma {:induction false} SpacedAppend(a: seq<string>, b: seq<string>)
    ensures Spaced(a + b) == Spaced(a) + Spaced(b)
  {
    if a != [] {
      assert (a + b)[1..] == a[1..] + b;
      SpacedAppend(a[1..], b);
    } else {
      assert a + b == b;
    }
  }

  lemma SpacedConsText(toks: seq<string>, rest: string)
    requires toks != []
    ensures Spaced(toks) + rest == toks[0] + " " + (Spaced(toks[1..]) + rest)
  {
  }

  lemma ConsAppend(toks: seq<string>, more: seq<string>)
    requires toks != []
    ensures [toks[0]] + (toks[1..] + more) == toks + more
  {
  }

  /** Splitting spaced words followed by more text gives those words, then the text's words. */
  lemma {:induction false} WordsSpaced(toks: seq<string>, rest: string)
    requires AllWords(toks)
    ensures Words(Spaced(toks) + rest) == toks + Words(rest)
  {
    if toks != [] {
      var w, u := toks[0], toks[1..];
      var r := Spaced(u) + rest;
      WordsSpaced(u, rest);
      SpacedConsText(toks, rest);
      WordsCons(w, r);
      ConsAppend(toks, Words(rest));
    } else {
      assert Spaced(toks) + rest == rest;
    }
  }

  /**
   * The tags a description carries under one sigil: every token that starts
   * with it, with the sigil stripped, in token order, duplicates kept.
   */
  function Tags(tokens: seq<string>, sigil: char): seq<string> {
    if tokens == [] then []
    else (if StartsWith(tokens[0], sigil) then [tokens[0][1..]] else []) + Tags(tokens[1..], sigil)
  }

  /** The state `set_description(d)` leaves: description replaced, tags of `d` appended. */
  function WithDescription(t: Task, d: string): Task {
    t.(description := d,
       contexts := t.contexts + Tags(Words(d), '@'),
       projects := t.projects + Tags(Words(d), '+'))
  }

  /** `Task::set_description`: store the text, then push the tag of every `@` or `+` token. */
  method SetDescription(t: Task, d: string) returns (r: Task)
    ensures r == WithDescription(t, d)
  {
    var tokens := Words(d);
    var contexts, projects := t.contexts, t.projects;
    for k := 0 to |tokens|
      invariant contexts == t.contexts + Tags(tokens[..k], '@')
      invariant projects == t.projects + Tags(tokens[..k], '+')
    {
      TagsAppend(tokens[..k], [tokens[k]], '@');
      TagsAppend(tokens[..k], [tokens[k]], '+');
      assert tokens[..k + 1] == tokens[..k] + [tokens[k]];
      var token := tokens[k];
      if StartsWith(token, '@') {
        contexts := contexts + [token[1..]];
      } else if StartsWith(token, '+') {
        projects := projects + [token[1..]];
      }
    }
    assert tokens[..|tokens|] == tokens;
    r := t.(description := d, contexts := contexts, projects := projects);
  }

  lemma {:induction false} TagsAppend(a: seq<string>, b: seq<string>, sigil: char)
    ensures Tags(a + b, sigil) == Tags(a, sigil) + Tags(b, sigil)
  {
    if a != [] {
      assert (a + b)[1..] == a[1..] + b;
      TagsAppend(a[1..], b, sigil);
    } else {
      assert a + b == b;
    }
  }

  /** A tag is exactly what remains of a token carrying the sigil. */
  lemma {:induction false} TagsMembers(tokens: seq<string>, sigil: char, x: string)
    ensures x in Tags(tokens, sigil) <==>
            exists k :: 0 <= k < |tokens| && StartsWith(tokens[k], sigil) && tokens[k][1..] == x
  {
    if tokens != [] {
      TagsMembers(tokens[1..], sigil, x);
      if x in Tags(tokens[1..], sigil) {
        var k :| 0 <= k < |tokens[1..]| && StartsWith(tokens[1..][k], sigil) && tokens[1..][k][1..] == x;
        assert tokens[k + 1] == tokens[1..][k];
      }
      if exists k :: 0 <= k < |tokens| && StartsWith(tokens[k], sigil) && tokens[k][1..] == x {
        var k :| 0 <= k < |tokens| && StartsWith(tokens[k], sigil) && tokens[k][1..] == x;
        if k > 0 { assert tokens[1..][k - 1] == tokens[k]; }
      }
    }
  }

  /** No token yields both a context and a project. */
  lemma {:induction false} TagsDisjoint(tokens: seq<string>)
    ensures forall k :: 0 <= k < |tokens| ==> Tags([tokens[k]], '@') == [] || Tags([tokens[k]], '+') == []
    ensures |Tags(tokens, '@')| + |Tags(tokens, '+')| <= |tokens|
  {
    if tokens != [] {
      TagsDisjoint(tokens[1..]);
    }
  }

  //----------------------------------------------------------------------------
  // The derived `Ord`: lexicographic over the fields in declaration order.
  //----------------------------------------------------------------------------

  /** `bool`: `false` before `true`. */
  predicate BoolLess(a: bool, b: bool) {
    !a && b
  }

  /** `Option<char>`: `None` before any `Some`, then by code point. */
  predicate PriorityLess(a: Option<char>, b: Option<char>) {
    (a.None? && b.Some?) || (a.Some? && b.Some? && a.value < b.value)
  }

  /** `Option<NaiveDate>`: `None` before any `Some`, then chronological. */
  predicate DateOptLess(a: Option<Date>, b: Option<Date>) {
    (a.None? && b.Some?) || (a.Some? && b.Some? && DateLess(a.value, b.value))
  }

  /** The first field in which two tasks differ decides their order. */
  predicate TaskLess(a: Task, b: Task) {
    if a.completed != b.completed then BoolLess(a.completed, b.completed)
    else if a.priority != b.priority then PriorityLess(a.priority, b.priority)
    else if a.dateCompleted != b.dateCompleted then DateOptLess(a.dateCompleted, b.dateCompleted)
    else if a.dateCreated != b.dateCreated then DateOptLess(a.dateCreated, b.dateCreated)
    else if a.description != b.description then StringLess(a.description, b.description)
    else if a.contexts != b.contexts then StringsLess(a.contexts, b.contexts)
    else StringsLess(a.projects, b.projects)
  }

  predicate TaskLe(a: Task, b: Task) {
    a == b || TaskLess(a, b)
  }

  lemma TaskLessIrreflexive(a: Task)
    ensures !TaskLess(a, a)
  {
    StringsLessIrreflexive(a.projects);
  }

  lemma TaskLessTotal(a: Task, b: Task)
    ensures a == b || TaskLess(a, b) || TaskLess(b, a)
  {
    StringLessTotal(a.description, b.description);
    StringsLessTotal(a.contexts, b.contexts);
    StringsLessTotal(a.projects, b.projects);
  }

  lemma TaskLessAsymmetric(a: Task, b: Task)
    requires TaskLess(a, b)
    ensures !TaskLess(b, a)
  {
    if a.description != b.description && a.completed == b.completed && a.priority == b.priority
       && a.dateCompleted == b.dateCompleted && a.dateCreated == b.dateCreated {
      StringLessAsymmetric(a.description, b.description);
    } else if a.contexts != b.contexts && a.completed == b.completed && a.priority == b.priority
       && a.dateCompleted == b.dateCompleted && a.dateCreated == b.dateCreated && a.description == b.description {
      StringsLessAsymmetric(a.contexts, b.contexts);
    } else if a.completed == b.completed && a.priority == b.priority
       && a.dateCompleted == b.dateCompleted && a.dateCreated == b.dateCreated && a.description == b.description
       && a.contexts == b.contexts {
      StringsLessAsymmetric(a.projects, b.projects);
    }
  }

  lemma TaskLessTransitive(a: Task, b: Task, c: Task)
    requires TaskLess(a, b) && TaskLess(b, c)
    ensures TaskLess(a, c)
  {
    if a.completed == b.completed == c.completed && a.priority == b.priority == c.priority
       && a.dateCompleted == b.dateCompleted == c.dateCompleted
       && a.dateCreated == b.dateCreated == c.dateCreated {
      if a.description != b.description && b.description != c.description {
        StringLessTransitive(a.description, b.description, c.description);
        if a.description == c.description { StringLessAsymmetric(a.description, b.description); }
      } else if a.description == b.description && b.description == c.description {
        if a.contexts != b.contexts && b.contexts != c.contexts {
          StringsLessTransitive(a.contexts, b.contexts, c.contexts);
          if a.contexts == c.contexts { StringsLessAsymmetric(a.contexts, b.contexts); }
        } else if a.contexts == b.contexts && b.contexts == c.contexts {
          StringsLessTransitive(a.projects, b.projects, c.projects);
        }
      }
    }
  }

  //----------------------------------------------------------------------------
  // `Vec<Task>::sort`: a sort by the derived order.
  //----------------------------------------------------------------------------

  predicate Sorted(s: seq<Task>) {
    forall i, j :: 0 <= i < j < |s| ==> TaskLe(s[i], s[j])
  }

  function Insert(t: Task, s: seq<Task>): (r: seq<Task>)
    ensures multiset(r) == multiset(s) + multiset{t}
  {
    if s == [] then [t]
    else if TaskLe(t, s[0]) then [t] + s
    else
      assert s == [s[0]] + s[1..];
      [s[0]] + Insert(t, s[1..])
  }

  lemma TaskLeTransitive(a: Task, b: Task, c: Task)
    requires TaskLe(a, b) && TaskLe(b, c)
    ensures TaskLe(a, c)
  {
    if a != b && b != c { TaskLessTransitive(a, b, c); }
  }

  lemma SortedCons(t: Task, s: seq<Task>)
    requires Sorted(s)
    requires forall j :: 0 <= j < |s| ==> TaskLe(t, s[j])
    ensures Sorted([t] + s)
  {
    var r := [t] + s;
    forall i, j | 0 <= i < j < |r| ensures TaskLe(r[i], r[j]) {
      assert r[j] == s[j - 1];
      if i > 0 { assert r[i] == s[i - 1]; }
    }
  }

  lemma {:induction false} InsertSorted(t: Task, s: seq<Task>)
    requires Sorted(s)
    ensures Sorted(Insert(t, s))
  {
    if s == [] {
    } else if TaskLe(t, s[0]) {
      forall j | 0 <= j < |s| ensures TaskLe(t, s[j]) {
        TaskLeTransitive(t, s[0], s[j]);
      }
      SortedCons(t, s);
    } else {
      InsertSorted(t, s[1..]);
      var tail := Insert(t, s[1..]);
      TaskLessTotal(t, s[0]);
      forall j | 0 <= j < |tail| ensures TaskLe(s[0], tail[j]) {
        assert tail[j] in multiset(tail);
        if tail[j] != t {
          assert tail[j] in multiset(s[1..]);
          var i :| 0 <= i < |s[1..]| && s[1..][i] == tail[j];
          assert s[i + 1] == tail[j];
        }
      }
      SortedCons(s[0], tail);
    }
  }

  /** The order `sort_tasks` leaves the tasks in. */
  function SortTasks(ts: seq<Task>): (r: seq<Task>)
    ensures multiset(r) == multiset(ts)
  {
    if ts == [] then []
    else
      assert ts == [ts[0]] + ts[1..];
      Insert(ts[0], SortTasks(ts[1..]))
  }

  lemma {:induction false} SortTasksSorted(ts: seq<Task>)
    ensures Sorted(SortTasks(ts))
  {
    if ts != [] {
      SortTasksSorted(ts[1..]);
      InsertSorted(ts[0], SortTasks(ts[1..]));
    }
  }

  /**
   * A sorted permutation is unique: since tasks that compare equal are equal,
   * a stable and an unstable sort give the same vector.
   */
  lemma {:induction false} SortedUnique(a: seq<Task>, b: seq<Task>)
    requires Sorted(a) && Sorted(b) && multiset(a) == multiset(b)
    ensures a == b
    decreases |a|
  {
    if a != [] {
      assert a[0] in multiset(b);
      SortedHeadsEqual(a, b);
      assert a == [a[0]] + a[1..] && b == [b[0]] + b[1..];
      SortedTail(a);
      SortedTail(b);
      SortedUnique(a[1..], b[1..]);
    } else {
      assert |multiset(b)| == 0;
    }
  }

  /** Sorting gives the one sorted permutation of its input. */
  lemma SortIsSortedPermutation(ts: seq<Task>, s: seq<Task>)
    requires Sorted(s) && multiset(s) == multiset(ts)
    ensures SortTasks(ts) == s
  {
    SortTasksSorted(ts);
    SortedUnique(SortTasks(ts), s);
  }

  lemma SortedTail(a: seq<Task>)
    requires Sorted(a) && a != []
    ensures Sorted(a[1..])
    ensures multiset(a[1..]) == multiset(a) - multiset{a[0]}
  {
    assert a == [a[0]] + a[1..];
    forall i, j | 0 <= i < j < |a[1..]| ensures TaskLe(a[1..][i], a[1..][j]) {
      assert a[1..][i] == a[i + 1] && a[1..][j] == a[j + 1];
    }
  }

  lemma SortedHeadsEqual(a: seq<Task>, b: seq<Task>)
    requires Sorted(a) && Sorted(b) && multiset(a) == multiset(b) && a != [] && b != []
    ensures a[0] == b[0]
  {
    assert b[0] in multiset(a);
    assert a[0] in multiset(b);
    var i :| 0 <= i < |a| && a[i] == b[0];
    var j :| 0 <= j < |b| && b[j] == a[0];
    assert TaskLe(a[0], b[0]) && TaskLe(b[0], a[0]);
    if a[0] != b[0] { TaskLessAsymmetric(a[0], b[0]); }
  }
}
