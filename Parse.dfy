/**
 * The line parser (`TaskParser`): a forward-only state machine over the
 * whitespace-separated tokens of a line. It consumes a prefix of structured
 * fields; the token that cannot extend the prefix starts the description.
 * `Task::from_str` is the parser with its `None` turned into an error.
 */
module Parse {
  import opened Wrappers
  import opened Text
  import opened Dates
  import opened TaskModel

  datatype Token = Complete | PriorityMark(letter: char) | DateMark(date: Date) | Word(text: string)

  datatype ParseState = Start | PastCompletion | PastPriority | PastDate1 | PastDate2 | InDescription

  datatype ParseTaskError = ParseTaskError

  /** Position of a state along the machine's single forward path. */
  function Rank(s: ParseState): nat {
    match s
    case Start => 0
    case PastCompletion => 1
    case PastPriority => 2
    case PastDate1 => 3
    case PastDate2 => 4
    case InDescription => 5
  }

  /** `^\(([A-Z])\)$`: an opening parenthesis, one capital ASCII letter, a closing one. */
  predicate IsPriorityToken(s: string) {
    |s| == 3 && s[0] == '(' && 'A' <= s[1] <= 'Z' && s[2] == ')'
  }

  /** `Token::lex`: completion marker, then priority, then date, else a plain word. */
  function Lex(s: string): (tok: Token)
    ensures tok == Complete <==> s == "x"
    ensures tok.PriorityMark? <==> s != "x" && IsPriorityToken(s)
    ensures tok.PriorityMark? ==> tok.letter == s[1] && 'A' <= tok.letter <= 'Z'
    ensures tok.DateMark? <==> s != "x" && !IsPriorityToken(s) && ParseDate(s).Some?
    ensures tok.DateMark? ==> ParseDate(s) == Some(tok.date)
    ensures tok.Word? ==> tok.text == s
  {
    if s == "x" then Complete
    else if IsPriorityToken(s) then PriorityMark(s[1])
    else match ParseDate(s)
      case Some(d) => DateMark(d)
      case None => Word(s)
  }

  /**
   * `TaskParser::next`: the transition table. Only the listed pairs extend the
   * structured prefix, each by setting one field; every other pair enters
   * `InDescription` and leaves the task alone.
   */
  function Next(state: ParseState, tok: Token, task: Task): (r: (ParseState, Task))
    ensures r.0 == InDescription || Rank(r.0) > Rank(state)
    ensures r.0 != InDescription ==> state != InDescription && !tok.Word?
    ensures r.0 == InDescription ==> r.1 == task
    ensures r.1.completed != task.completed ==> state == Start && tok == Complete
    ensures r.1.priority != task.priority ==> (state == Start || state == PastCompletion) && tok.PriorityMark?
    ensures r.0 == PastCompletion ==> state == Start && tok == Complete && r.1.completed
    ensures r.0 == PastPriority ==> tok.PriorityMark? && r.1.priority == Some(tok.letter)
    ensures r.0 == PastDate1 ==> tok.DateMark? && r.1.dateCreated == Some(tok.date) && r.1.dateCompleted == task.dateCompleted
    ensures r.0 == PastDate2 ==> tok.DateMark? && r.1.dateCompleted == task.dateCreated && r.1.dateCreated == Some(tok.date)
    ensures r.1.description == task.description
    ensures r.1.contexts == task.contexts && r.1.projects == task.projects
  {
    match (state, tok)
    case (Start, Complete) => (PastCompletion, task.(completed := true))
    case (Start, PriorityMark(p)) => (PastPriority, task.(priority := Some(p)))
    case (Start, DateMark(d)) => (PastDate1, task.(dateCreated := Some(d)))
    case (PastCompletion, PriorityMark(p)) => (PastPriority, task.(priority := Some(p)))
    case (PastCompletion, DateMark(d)) => (PastDate1, task.(dateCreated := Some(d)))
    case (PastPriority, DateMark(d)) => (PastDate1, task.(dateCreated := Some(d)))
    case (PastDate1, DateMark(d)) =>
      (PastDate2, task.(dateCompleted := task.dateCreated, dateCreated := Some(d)))
    case (_, _) => (InDescription, task)
  }

  /**
   * The `while let` loop of `parse_line`, as a fold over the remaining tokens:
   * step the machine; on entering `InDescription`, the current token and the
   * rest, joined by single spaces and trimmed, become the description, and
   * the loop stops.
   */
  function Run(state: ParseState, task: Task, tokens: seq<string>): (ParseState, Task)
    decreases |tokens|
  {
    if tokens == [] then (state, task)
    else
      var (s, t) := Next(state, Lex(tokens[0]), task);
      if s == InDescription then
        (InDescription, WithDescription(t, Trim(tokens[0] + " " + JoinSpace(tokens[1..]))))
      else Run(s, t, tokens[1..])
  }

  /** `TaskParser::parse_line`: `None` when the machine never left `Start`. */
  function ParseLine(line: string): Option<Task> {
    var (s, t) := Run(Start, DefaultTask, Words(line));
    if s == Start then None else Some(t)
  }

  /** `Task::from_str`. */
  function FromStr(s: string): (r: Result<Task, ParseTaskError>)
    ensures r.Err? <==> ParseLine(s).None?
    ensures r.Ok? ==> ParseLine(s) == Some(r.value)
  {
    match ParseLine(s)
    case Some(t) => Ok(t)
    case None => Err(ParseTaskError)
  }

  //----------------------------------------------------------------------------
  // When parsing fails
  //----------------------------------------------------------------------------

  lemma {:induction false} RunLeavesStart(state: ParseState, task: Task, tokens: seq<string>)
    requires tokens != [] || state != Start
    ensures Run(state, task, tokens).0 != Start
    decreases |tokens|
  {
    if tokens != [] {
      var (s, t) := Next(state, Lex(tokens[0]), task);
      if s != InDescription {
        RunLeavesStart(s, t, tokens[1..]);
      }
    }
  }

  /** Parsing fails exactly on the lines without tokens, i.e. the blank ones. */
  lemma ParseFailsIffBlank(line: string)
    ensures ParseLine(line).None? <==> Words(line) == []
    ensures ParseLine(line).None? <==> Trim(line) == ""
  {
    TrimEmptyIff(line);
    if Words(line) != [] {
      RunLeavesStart(Start, DefaultTask, Words(line));
    }
  }

  //----------------------------------------------------------------------------
  // What the prefix consumes
  //----------------------------------------------------------------------------

  /** The structured fields the machine fills in. */
  function Fields(t: Task): (bool, Option<char>, Option<Date>, Option<Date>) {
    (t.completed, t.priority, t.dateCompleted, t.dateCreated)
  }

  /**
   * Tokens after the `InDescription` transition set no structured field:
   * from a state of rank r, only the first `5 - r` tokens matter.
   */
  lemma {:induction false} RunFieldsFromPrefix(state: ParseState, task: Task, tokens: seq<string>, n: nat)
    requires state != InDescription
    requires 5 - Rank(state) <= n <= |tokens|
    ensures Fields(Run(state, task, tokens).1) == Fields(Run(state, task, tokens[..n]).1)
    decreases |tokens|
  {
    var pre := tokens[..n];
    assert pre[0] == tokens[0];
    var (s, t) := Next(state, Lex(tokens[0]), task);
    if s != InDescription {
      assert pre[1..] == tokens[1..][..n - 1];
      RunFieldsFromPrefix(s, t, tokens[1..], n - 1);
    }
  }

  /** A line's completion flag, priority and dates are decided by its first five tokens. */
  lemma FieldsFromFirstFiveTokens(line: string)
    requires |Words(line)| >= 5
    ensures ParseLine(line).Some?
    ensures Fields(ParseLine(line).value) == Fields(Run(Start, DefaultTask, Words(line)[..5]).1)
  {
    ParseFailsIffBlank(line);
    RunFieldsFromPrefix(Start, DefaultTask, Words(line), 5);
  }

  /**
   * The description is the single-spaced join of the tokens from some point on,
   * at most four tokens into the line; it is empty when every token was consumed.
   */
  /**
   * Before the description the machine consumes exactly the tokens `tokens[..k]`: none of
   * them enters `InDescription`, and `tokens[k]`, when there is one, does.
   */
  predicate PrefixEndsAt(state: ParseState, task: Task, tokens: seq<string>, k: nat)
    requires k <= |tokens|
  {
    Run(state, task, tokens[..k]).0 != InDescription
    && (k < |tokens| ==> Next(Run(state, task, tokens[..k]).0, Lex(tokens[k]), DefaultTask).0 == InDescription)
  }

  lemma {:induction false} RunDescription(state: ParseState, task: Task, tokens: seq<string>)
    requires state != InDescription && task.description == ""
    requires AllWords(tokens)
    ensures exists k :: 0 <= k <= |tokens| && k <= 4 - Rank(state)
              && PrefixEndsAt(state, task, tokens, k)
              && Run(state, task, tokens).1.description == JoinSpace(tokens[k..])
    decreases |tokens|
  {
    if tokens == [] {
      assert tokens[0..] == [] && tokens[..0] == [];
      assert PrefixEndsAt(state, task, tokens, 0);
    } else {
      var (s, t) := Next(state, Lex(tokens[0]), task);
      assert tokens[..0] == [];
      if s == InDescription {
        TrimJoin(tokens[0], tokens[1..]);
        assert [tokens[0]] + tokens[1..] == tokens[0..];
        assert Rank(state) <= 4;
        NextStateIgnoresTask(state, Lex(tokens[0]), task, DefaultTask);
        assert PrefixEndsAt(state, task, tokens, 0);
      } else {
        RunDescription(s, t, tokens[1..]);
        var k :| 0 <= k <= |tokens[1..]| && k <= 4 - Rank(s)
                 && PrefixEndsAt(s, t, tokens[1..], k)
                 && Run(s, t, tokens[1..]).1.description == JoinSpace(tokens[1..][k..]);
        assert tokens[1..][k..] == tokens[k + 1..];
        PrefixEndsAtStep(state, task, tokens, k);
      }
    }
  }

  /** A prefix token that does not start the description shifts where the prefix ends by one. */
  lemma PrefixEndsAtStep(state: ParseState, task: Task, tokens: seq<string>, k: nat)
    requires tokens != [] && k < |tokens|
    requires Next(state, Lex(tokens[0]), task).0 != InDescription
    requires PrefixEndsAt(Next(state, Lex(tokens[0]), task).0, Next(state, Lex(tokens[0]), task).1, tokens[1..], k)
    ensures PrefixEndsAt(state, task, tokens, k + 1)
  {
    var (s, t) := Next(state, Lex(tokens[0]), task);
    var pre := tokens[..k + 1];
    assert pre[0] == tokens[0] && pre[1..] == tokens[1..][..k];
    assert Run(state, task, pre) == Run(s, t, tokens[1..][..k]);
    if k + 1 < |tokens| {
      assert tokens[k + 1] == tokens[1..][k];
    }
  }

  /**
   * A parsed line's description is the token that ends the prefix and everything after it,
   * single-spaced; it is empty exactly when the prefix consumes every token.
   */
  lemma DescriptionIsTail(line: string)
    requires ParseLine(line).Some?
    ensures exists k :: 0 <= k <= |Words(line)| && k <= 4
              && PrefixEndsAt(Start, DefaultTask, Words(line), k)
              && ParseLine(line).value.description == JoinSpace(Words(line)[k..])
              && (ParseLine(line).value.description == "" <==> k == |Words(line)|)
  {
    var ws := Words(line);
    RunDescription(Start, DefaultTask, ws);
    var k :| 0 <= k <= |ws| && k <= 4
             && PrefixEndsAt(Start, DefaultTask, ws, k)
             && ParseLine(line).value.description == JoinSpace(ws[k..]);
    if k < |ws| {
      assert AllWords(ws[k..]) by {
        forall i | 0 <= i < |ws[k..]| ensures IsWord(ws[k..][i]) { assert ws[k..][i] == ws[k + i]; }
      }
      JoinSpaceEnds(ws[k..]);
    } else {
      assert ws[k..] == [];
    }
  }

  /** A token that reads as a date lexes as that date. */
  lemma LexDate(s: string, d: Date)
    requires ParseDate(s) == Some(d)
    ensures Lex(s) == DateMark(d)
  {
    var i :| 0 <= i < |s| && s[i] == '-';
    assert s != "x";
    assert !IsPriorityToken(s);
  }

  /** From `PastDate2` the structured fields are final. */
  lemma PastDate2Fields(t: Task, rest: seq<string>)
    ensures Run(PastDate2, t, rest).0 != Start
    ensures Fields(Run(PastDate2, t, rest).1) == Fields(t)
  {
    if rest != [] {
      assert Next(PastDate2, Lex(rest[0]), t) == (InDescription, t);
    }
  }

  /** The first two tokens read as dates: Start, then PastDate1, then PastDate2. */
  lemma RunTwoDates(ws: seq<string>, d1: Date, d2: Date)
    requires |ws| >= 2 && Lex(ws[0]) == DateMark(d1) && Lex(ws[1]) == DateMark(d2)
    ensures Run(Start, DefaultTask, ws).0 != Start
    ensures Fields(Run(Start, DefaultTask, ws).1) == (false, None, Some(d1), Some(d2))
  {
    var t1 := DefaultTask.(dateCreated := Some(d1));
    var t2 := t1.(dateCompleted := Some(d1), dateCreated := Some(d2));
    assert Run(Start, DefaultTask, ws) == Run(PastDate1, t1, ws[1..]);
    assert Run(PastDate1, t1, ws[1..]) == Run(PastDate2, t2, ws[1..][1..]);
    PastDate2Fields(t2, ws[1..][1..]);
  }

  /**
   * Two leading dates: the first becomes the completion date and the second the
   * creation date, although no completion marker was given.
   */
  lemma TwoLeadingDates(line: string, d1: Date, d2: Date)
    requires |Words(line)| >= 2
    requires ParseDate(Words(line)[0]) == Some(d1) && ParseDate(Words(line)[1]) == Some(d2)
    ensures ParseLine(line).Some?
    ensures ParseLine(line).value.dateCompleted == Some(d1)
    ensures ParseLine(line).value.dateCreated == Some(d2)
    ensures !ParseLine(line).value.completed
  {
    LexDate(Words(line)[0], d1);
    LexDate(Words(line)[1], d2);
    RunTwoDates(Words(line), d1, d2);
  }

  //----------------------------------------------------------------------------
  // Round trip: parsing the rendering of a parsed task gives the task back
  //----------------------------------------------------------------------------

  /** A priority letter and, when a completion date is present, a creation date too. */
  predicate WellFormedFields(t: Task) {
    (t.priority.Some? ==> 'A' <= t.priority.value <= 'Z')
    && (t.dateCompleted.Some? ==> t.dateCreated.Some?)
  }

  /** The state the machine is in after reading the rendered prefix of `t`. */
  function PrefixState(t: Task): ParseState {
    if t.dateCompleted.Some? then PastDate2
    else if t.dateCreated.Some? then PastDate1
    else if t.priority.Some? then PastPriority
    else if t.completed then PastCompletion
    else Start
  }

  /** `t` with no description and the tags that come with it. */
  function Base(t: Task): Task {
    t.(description := "", contexts := [], projects := [])
  }

  /** What the machine holds between two prefix tokens. */
  predicate Consistent(state: ParseState, t: Task) {
    state != InDescription && PrefixState(t) == state && WellFormedFields(t) && t == Base(t)
  }

  /**
   * The tasks the parser can produce: well-formed fields; a description that is
   * a single-spaced join of words, whose tags are exactly those of its words,
   * and whose first word would not extend the rendered prefix; and not blank.
   */
  predicate Canonical(t: Task) {
    var ws := Words(t.description);
    WellFormedFields(t)
    && t.description == JoinSpace(ws)
    && t.contexts == Tags(ws, '@')
    && t.projects == Tags(ws, '+')
    && (ws == [] ==> PrefixState(t) != Start)
    && (ws != [] ==> Next(PrefixState(t), Lex(ws[0]), DefaultTask).0 == InDescription)
  }

  lemma NextStateIgnoresTask(state: ParseState, tok: Token, a: Task, b: Task)
    ensures Next(state, tok, a).0 == Next(state, tok, b).0
  {
  }

  lemma RunStep(state: ParseState, task: Task, tok: string, rest: seq<string>)
    requires Next(state, Lex(tok), task).0 != InDescription
    ensures Run(state, task, [tok] + rest) == Run(Next(state, Lex(tok), task).0, Next(state, Lex(tok), task).1, rest)
  {
    assert ([tok] + rest)[0] == tok;
    assert ([tok] + rest)[1..] == rest;
  }

  lemma LexFormatDate(d: Date)
    ensures Lex(FormatDate(d)) == DateMark(d)
  {
    ParseFormat(d);
    FormatShape(d);
  }

  lemma AllWordsAppend(a: seq<string>, b: seq<string>)
    requires AllWords(a) && AllWords(b)
    ensures AllWords(a + b)
  {
    forall k | 0 <= k < |a + b|
      ensures IsWord((a + b)[k])
    {
      if k < |a| { assert (a + b)[k] == a[k]; } else { assert (a + b)[k] == b[k - |a|]; }
    }
  }

  lemma DateTokenIsWord(d: Option<Date>)
    ensures AllWords(DateToken(d))
  {
    if d.Some? {
      FormatShape(d.value);
      assert DateToken(d)[0] == FormatDate(d.value);
    }
  }

  lemma PrefixTokensAreWords(t: Task)
    requires WellFormedFields(t)
    ensures AllWords(PrefixTokens(t))
  {
    var c, p := CompletionToken(t.completed), PriorityToken(t.priority);
    var d1, d2 := DateToken(t.dateCompleted), DateToken(t.dateCreated);
    assert AllWords(c);
    if t.priority.Some? { assert p[0] == ['(', t.priority.value, ')']; }
    assert AllWords(p);
    DateTokenIsWord(t.dateCompleted);
    DateTokenIsWord(t.dateCreated);
    AllWordsAppend(c, p);
    AllWordsAppend(c + p, d1);
    AllWordsAppend(c + p + d1, d2);
  }

  /** The state and task after the completion marker of `t`'s rendering. */
  function AfterCompletion(t: Task): (ParseState, Task) {
    (if t.completed then PastCompletion else Start, DefaultTask.(completed := t.completed))
  }

  /** The state and task after the priority of `t`'s rendering. */
  function AfterPriority(t: Task): (ParseState, Task) {
    (if t.priority.Some? then PastPriority else AfterCompletion(t).0,
     DefaultTask.(completed := t.completed, priority := t.priority))
  }

  lemma CompletionStage(t: Task, rest: seq<string>)
    ensures Run(Start, DefaultTask, CompletionToken(t.completed) + rest)
         == Run(AfterCompletion(t).0, AfterCompletion(t).1, rest)
  {
    if t.completed {
      RunStep(Start, DefaultTask, "x", rest);
    } else {
      assert CompletionToken(t.completed) + rest == rest;
    }
  }

  lemma PriorityStage(t: Task, rest: seq<string>)
    requires WellFormedFields(t)
    ensures Run(AfterCompletion(t).0, AfterCompletion(t).1, PriorityToken(t.priority) + rest)
         == Run(AfterPriority(t).0, AfterPriority(t).1, rest)
  {
    if t.priority.Some? {
      var tok := ['(', t.priority.value, ')'];
      assert Lex(tok) == PriorityMark(t.priority.value);
      RunStep(AfterCompletion(t).0, AfterCompletion(t).1, tok, rest);
    } else {
      assert PriorityToken(t.priority) + rest == rest;
    }
  }

  /** The completion date of the rendering is first read as a creation date. */
  lemma FirstOfTwoDatesStage(t: Task, rest: seq<string>)
    requires WellFormedFields(t) && t.dateCompleted.Some?
    ensures Run(AfterPriority(t).0, AfterPriority(t).1, [FormatDate(t.dateCompleted.value)] + rest)
         == Run(PastDate1, AfterPriority(t).1.(dateCreated := t.dateCompleted), rest)
  {
    var (s2, t2) := AfterPriority(t);
    LexFormatDate(t.dateCompleted.value);
    assert Next(s2, DateMark(t.dateCompleted.value), t2) == (PastDate1, t2.(dateCreated := t.dateCompleted));
    RunStep(s2, t2, FormatDate(t.dateCompleted.value), rest);
  }

  /** The second date moves the first into the completion date. */
  lemma SecondOfTwoDatesStage(t: Task, rest: seq<string>)
    requires WellFormedFields(t) && t.dateCompleted.Some?
    ensures Run(PastDate1, AfterPriority(t).1.(dateCreated := t.dateCompleted), [FormatDate(t.dateCreated.value)] + rest)
         == Run(PastDate2, Base(t), rest)
  {
    var t3 := AfterPriority(t).1.(dateCreated := t.dateCompleted);
    LexFormatDate(t.dateCreated.value);
    assert Next(PastDate1, DateMark(t.dateCreated.value), t3) == (PastDate2, Base(t));
    RunStep(PastDate1, t3, FormatDate(t.dateCreated.value), rest);
  }

  lemma BothDatesStage(t: Task, rest: seq<string>)
    requires WellFormedFields(t) && t.dateCompleted.Some?
    ensures Run(AfterPriority(t).0, AfterPriority(t).1,
                [FormatDate(t.dateCompleted.value)] + ([FormatDate(t.dateCreated.value)] + rest))
         == Run(PastDate2, Base(t), rest)
  {
    FirstOfTwoDatesStage(t, [FormatDate(t.dateCreated.value)] + rest);
    SecondOfTwoDatesStage(t, rest);
  }

  lemma CreationDateStage(t: Task, rest: seq<string>)
    requires WellFormedFields(t) && t.dateCompleted.None? && t.dateCreated.Some?
    ensures Run(AfterPriority(t).0, AfterPriority(t).1, [FormatDate(t.dateCreated.value)] + rest)
         == Run(PastDate1, Base(t), rest)
  {
    var (s2, t2) := AfterPriority(t);
    LexFormatDate(t.dateCreated.value);
    assert Next(s2, DateMark(t.dateCreated.value), t2) == (PastDate1, Base(t));
    RunStep(s2, t2, FormatDate(t.dateCreated.value), rest);
  }

  lemma DateStage(t: Task, rest: seq<string>)
    requires WellFormedFields(t)
    ensures Run(AfterPriority(t).0, AfterPriority(t).1,
                DateToken(t.dateCompleted) + (DateToken(t.dateCreated) + rest))
         == Run(PrefixState(t), Base(t), rest)
  {
    var d1, d2 := DateToken(t.dateCompleted), DateToken(t.dateCreated);
    if t.dateCompleted.Some? {
      BothDatesStage(t, rest);
    } else if t.dateCreated.Some? {
      assert d1 + (d2 + rest) == [FormatDate(t.dateCreated.value)] + rest;
      CreationDateStage(t, rest);
    } else {
      assert d1 + (d2 + rest) == rest;
      assert AfterPriority(t).1 == Base(t);
    }
  }

  /** The rendered prefix followed by more tokens, regrouped stage by stage. */
  lemma PrefixSplit(t: Task, rest: seq<string>)
    ensures PrefixTokens(t) + rest
         == CompletionToken(t.completed) + (PriorityToken(t.priority)
              + (DateToken(t.dateCompleted) + (DateToken(t.dateCreated) + rest)))
  {
    var c, p := CompletionToken(t.completed), PriorityToken(t.priority);
    var d1, d2 := DateToken(t.dateCompleted), DateToken(t.dateCreated);
    assert (((c + p) + d1) + d2) + rest == ((c + p) + d1) + (d2 + rest);
    assert ((c + p) + d1) + (d2 + rest) == (c + p) + (d1 + (d2 + rest));
  }

  /** Reading the rendered prefix of `t` fills in exactly its structured fields. */
  lemma PrefixRun(t: Task, rest: seq<string>)
    requires WellFormedFields(t)
    ensures Run(Start, DefaultTask, PrefixTokens(t) + rest) == Run(PrefixState(t), Base(t), rest)
  {
    var r3 := DateToken(t.dateCompleted) + (DateToken(t.dateCreated) + rest);
    PrefixSplit(t, rest);
    CompletionStage(t, PriorityToken(t.priority) + r3);
    PriorityStage(t, r3);
    DateStage(t, rest);
  }

  /** From the rendered prefix, the description's words give back the whole task. */
  lemma DescriptionRun(t: Task)
    requires Canonical(t)
    ensures Run(PrefixState(t), Base(t), Words(t.description)) == (Run(PrefixState(t), Base(t), Words(t.description)).0, t)
    ensures Run(PrefixState(t), Base(t), Words(t.description)).0 != Start
  {
    var ws := Words(t.description);
    if ws != [] {
      NextStateIgnoresTask(PrefixState(t), Lex(ws[0]), DefaultTask, Base(t));
      TrimJoin(ws[0], ws[1..]);
      assert [ws[0]] + ws[1..] == ws;
      assert Trim(ws[0] + " " + JoinSpace(ws[1..])) == t.description;
      assert Next(PrefixState(t), Lex(ws[0]), Base(t)).1 == Base(t);
      assert WithDescription(Base(t), t.description) == t;
    }
  }

  /** Rendering a canonical task and parsing the text gives the task back. */
  lemma ParseRender(t: Task)
    requires Canonical(t)
    ensures ParseLine(Render(t)) == Some(t)
  {
    var ws := Words(t.description);
    RenderIsPrefixThenDescription(t);
    PrefixTokensAreWords(t);
    WordsSpaced(PrefixTokens(t), t.description);
    assert Words(Render(t)) == PrefixTokens(t) + ws;
    PrefixRun(t, ws);
    DescriptionRun(t);
  }

  lemma NextConsistent(state: ParseState, task: Task, w: string)
    requires Consistent(state, task)
    requires Next(state, Lex(w), task).0 != InDescription
    ensures Consistent(Next(state, Lex(w), task).0, Next(state, Lex(w), task).1)
  {
  }

  /** The token that starts the description leaves a canonical task. */
  lemma DescriptionCanonical(state: ParseState, task: Task, tokens: seq<string>)
    requires Consistent(state, task) && AllWords(tokens) && tokens != []
    requires Next(state, Lex(tokens[0]), task).0 == InDescription
    ensures Canonical(Run(state, task, tokens).1)
  {
    var t := Next(state, Lex(tokens[0]), task).1;
    TrimJoin(tokens[0], tokens[1..]);
    assert [tokens[0]] + tokens[1..] == tokens;
    WordsJoin(tokens);
    JoinSpaceEnds(tokens);
    var r := WithDescription(t, JoinSpace(tokens));
    NextStateIgnoresTask(state, Lex(tokens[0]), task, DefaultTask);
    assert PrefixState(r) == state;
    assert Canonical(r);
  }

  lemma {:induction false} RunCanonical(state: ParseState, task: Task, tokens: seq<string>)
    requires Consistent(state, task) && AllWords(tokens)
    ensures Run(state, task, tokens).0 == Start || Canonical(Run(state, task, tokens).1)
    decreases |tokens|
  {
    if tokens != [] {
      var (s, t) := Next(state, Lex(tokens[0]), task);
      if s == InDescription {
        DescriptionCanonical(state, task, tokens);
      } else {
        NextConsistent(state, task, tokens[0]);
        RunCanonical(s, t, tokens[1..]);
      }
    }
  }

  /** Every task the parser produces is canonical. */
  lemma ParsedIsCanonical(line: string)
    requires ParseLine(line).Some?
    ensures Canonical(ParseLine(line).value)
  {
    RunCanonical(Start, DefaultTask, Words(line));
  }

  /** `from_str(render(t)) == t` for every `t` that `from_str` produced. */
  lemma RoundTrip(line: string)
    requires FromStr(line).Ok?
    ensures FromStr(Render(FromStr(line).value)) == FromStr(line)
  {
    ParsedIsCanonical(line);
    ParseRender(ParseLine(line).value);
  }

  //----------------------------------------------------------------------------
  // Worked lines
  //----------------------------------------------------------------------------

  const NewTaskText := "[new]"

  /** The sentinel row's text parses to a task holding nothing but that description. */
  lemma ParseNewTask()
    ensures ParseLine(NewTaskText) == Some(DefaultTask.(description := NewTaskText))
  {
    var t := DefaultTask.(description := NewTaskText);
    NewTaskCanonicalText();
    assert Render(t) == NewTaskText;
    ParseRender(t);
  }

  /** The sentinel task is canonical. */
  lemma NewTaskCanonicalText()
    ensures Canonical(DefaultTask.(description := NewTaskText))
  {
    var ws := [NewTaskText];
    assert IsWord(NewTaskText);
    WordsSingle(NewTaskText);
    assert Lex(NewTaskText) == Word(NewTaskText);
    CanonicalFromWords(DefaultTask.(description := NewTaskText), ws);
  }

  /** Lines of whitespace only are not tasks. */
  lemma ParseBlankLines()
    ensures ParseLine("").None?
    ensures ParseLine("   ").None?
  {
    ParseFailsIffBlank("");
    ParseFailsIffBlank("   ");
    WordsEmptyIff("   ");
  }

  lemma ParsePriorityLine()
    ensures ParseLine("(B) Call mom") == Some(DefaultTask.(priority := Some('B'), description := "Call mom"))
  {
    var t := DefaultTask.(priority := Some('B'), description := "Call mom");
    PriorityLineCanonical();
    PriorityLineRenders();
    ParseRender(t);
  }

  /** Canonicity read off a known word list of the description. */
  lemma CanonicalFromWords(t: Task, ws: seq<string>)
    requires AllWords(ws) && ws != [] && t.description == JoinSpace(ws)
    requires WellFormedFields(t)
    requires t.contexts == Tags(ws, '@') && t.projects == Tags(ws, '+')
    requires Next(PrefixState(t), Lex(ws[0]), DefaultTask).0 == InDescription
    ensures Canonical(t)
  {
    WordsJoin(ws);
  }

  /** The words of `Call mom`, kept apart from the parser's definitions. */
  lemma CallMomWords(ws: seq<string>)
    requires ws == ["Call", "mom"]
    ensures AllWords(ws) && JoinSpace(ws) == "Call mom"
    ensures Tags(ws, '@') == [] && Tags(ws, '+') == []
    ensures Lex(ws[0]) == Word("Call")
  {
    assert IsWord("Call") && IsWord("mom");
    var tail := ws[1..];
    assert tail == ["mom"] && tail[1..] == [];
    assert JoinSpace(tail) == "mom";
    assert !StartsWith(tail[0], '@') && !StartsWith(tail[0], '+');
    assert Tags(tail[1..], '@') == [] && Tags(tail[1..], '+') == [];
    assert Tags(tail, '@') == [] && Tags(tail, '+') == [];
    assert !StartsWith(ws[0], '@') && !StartsWith(ws[0], '+');
  }

  lemma PriorityLineCanonical()
    ensures Canonical(DefaultTask.(priority := Some('B'), description := "Call mom"))
  {
    var ws := ["Call", "mom"];
    CallMomWords(ws);
    CanonicalFromWords(DefaultTask.(priority := Some('B'), description := "Call mom"), ws);
  }

  lemma PriorityLineRenders()
    ensures Render(DefaultTask.(priority := Some('B'), description := "Call mom")) == "(B) Call mom"
  {
    var t := DefaultTask.(priority := Some('B'), description := "Call mom");
    assert PriorityText(t.priority) == "(B) ";
    assert Render(t) == "" + "(B) " + "" + "" + "Call mom";
  }

  lemma FormatSampleDates()
    ensures FormatDate(CalendarDate(2024, 1, 2)) == "2024-01-02"
    ensures FormatDate(CalendarDate(2024, 1, 1)) == "2024-01-01"
  {
    assert Pad4(2024) == "2024" by { assert Pad2(20) == "20"; assert Pad2(24) == "24"; }
    assert Pad2(1) == "01";
    assert Pad2(2) == "02";
  }

  /** The completed, prioritised, doubly dated sample line. */
  function CompletedSample(): Task {
    Task(true, Some('A'), Some(CalendarDate(2024, 1, 2)), Some(CalendarDate(2024, 1, 1)),
         SampleDescription, ["store"], ["errands"])
  }

  /** The words of the sample's description. */
  function SampleWords(): seq<string> {
    ["Buy", "milk", "@store", "+errands"]
  }

  lemma SampleWordsAreWords()
    ensures AllWords(SampleWords())
  {
    assert IsWord("Buy") && IsWord("milk");
    assert IsWord("@store");
    assert IsWord("+errands");
  }

  lemma SampleJoin()
    ensures JoinSpace(SampleWords()) == SampleDescription
  {
    var ws := SampleWords();
    assert JoinSpace(ws[3..]) == "+errands";
    assert JoinSpace(ws[2..]) == "@store +errands";
    assert JoinSpace(ws[1..]) == "milk @store +errands";
  }

  lemma SampleTags()
    ensures Tags(SampleWords(), '@') == ["store"]
    ensures Tags(SampleWords(), '+') == ["errands"]
  {
    var ws := SampleWords();
    assert Tags(ws[3..], '@') == [] && Tags(ws[3..], '+') == ["errands"];
    assert Tags(ws[2..], '@') == ["store"] && Tags(ws[2..], '+') == ["errands"];
    assert Tags(ws[1..], '@') == ["store"] && Tags(ws[1..], '+') == ["errands"];
  }

  lemma CompletedSampleCanonical()
    ensures Canonical(CompletedSample())
  {
    var ws := SampleWords();
    SampleWordsAreWords();
    SampleJoin();
    SampleTags();
    assert Lex(ws[0]) == Word("Buy");
    CanonicalFromWords(CompletedSample(), ws);
  }

  /** The sample line: its structured prefix, then its description. */
  const SamplePrefix := "x (A) 2024-01-02 2024-01-01 "
  const SampleDescription := "Buy milk @store +errands"

  lemma CompletedSamplePrefix()
    ensures CompletionText(true) + PriorityText(Some('A')) + DateText(Some(CalendarDate(2024, 1, 2)))
            + DateText(Some(CalendarDate(2024, 1, 1))) == SamplePrefix
  {
    FormatSampleDates();
    assert PriorityText(Some('A')) == "(A) ";
    assert "x " + "(A) " + "2024-01-02 " + "2024-01-01 " == SamplePrefix;
  }

  lemma CompletedSampleRenders()
    ensures Render(CompletedSample()) == SamplePrefix + SampleDescription
  {
    CompletedSamplePrefix();
  }

  /**
   * A completed, prioritised line with two dates and tags: the first date is
   * the completion date and the second the creation date.
   */
  lemma ParseCompletedLine()
    ensures ParseLine(SamplePrefix + SampleDescription) == Some(CompletedSample())
  {
    CompletedSampleCanonical();
    CompletedSampleRenders();
    ParseRender(CompletedSample());
  }
}
