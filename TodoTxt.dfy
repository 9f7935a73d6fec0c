/**
 * The loader `read_tasks` (and its twin `tasks::read`): one task per line that
 * is not blank and parses, in input order.
 */
module TodoTxt {
  import opened Wrappers
  import opened Text
  import opened TaskModel
  import opened Parse

  predicate IsBlank(line: string) {
    Trim(line) == ""
  }

  /** The lines that are not whitespace only, in order. */
  function NonBlankLines(lines: seq<string>): (r: seq<string>)
    ensures |r| <= |lines|
    ensures forall k :: 0 <= k < |r| ==> !IsBlank(r[k])
  {
    if lines == [] then []
    else
      var init := NonBlankLines(lines[..|lines| - 1]);
      if IsBlank(lines[|lines| - 1]) then init else init + [lines[|lines| - 1]]
  }

  /** What one line contributes: nothing when blank or unparsable, else its task. */
  function LineTasks(line: string): seq<Task> {
    if IsBlank(line) then []
    else match FromStr(line)
      case Ok(t) => [t]
      case Err(_) => []
  }

  /** What reading `lines` yields: blank lines skipped, failed parses dropped. */
  function Loaded(lines: seq<string>): seq<Task> {
    if lines == [] then []
    else Loaded(lines[..|lines| - 1]) + LineTasks(lines[|lines| - 1])
  }

  /** `read_tasks`, with the line iterator given as a sequence. */
  method ReadTasks(lines: seq<string>) returns (tasks: seq<Task>)
    ensures tasks == Loaded(lines)
  {
    tasks := [];
    for i := 0 to |lines|
      invariant tasks == Loaded(lines[..i])
    {
      assert lines[..i + 1][..i] == lines[..i];
      var line := lines[i];
      if !IsBlank(line) {
        match FromStr(line)
        case Ok(t) => tasks := tasks + [t];
        case Err(_) =>
      }
    }
    assert lines[..|lines|] == lines;
  }

  /**
   * Every line that is not blank parses, so the tasks are exactly the parses
   * of the non-blank lines, in order.
   */
  lemma {:induction false} LoadedParsesNonBlank(lines: seq<string>)
    ensures |Loaded(lines)| == |NonBlankLines(lines)|
    ensures forall k :: 0 <= k < |Loaded(lines)| ==> ParseLine(NonBlankLines(lines)[k]) == Some(Loaded(lines)[k])
    decreases |lines|
  {
    if lines != [] {
      var init := lines[..|lines| - 1];
      var line := lines[|lines| - 1];
      LoadedParsesNonBlank(init);
      ParseFailsIffBlank(line);
    }
  }

  /** Every loaded task is canonical, so its rendering reads back as itself. */
  lemma LoadedCanonical(lines: seq<string>)
    ensures forall k :: 0 <= k < |Loaded(lines)| ==> Canonical(Loaded(lines)[k])
  {
    LoadedParsesNonBlank(lines);
    forall k | 0 <= k < |Loaded(lines)|
      ensures Canonical(Loaded(lines)[k])
    {
      ParsedIsCanonical(NonBlankLines(lines)[k]);
    }
  }

  lemma LoadedLength(lines: seq<string>)
    ensures |Loaded(lines)| <= |lines|
  {
    LoadedParsesNonBlank(lines);
  }

  /** Reading is line by line: two runs of lines load as the two loads in sequence. */
  lemma {:induction false} LoadedAppend(a: seq<string>, b: seq<string>)
    ensures Loaded(a + b) == Loaded(a) + Loaded(b)
    decreases |b|
  {
    if b == [] {
      assert a + b == a;
    } else {
      var init, last := b[..|b| - 1], b[|b| - 1];
      assert (a + b)[..|a + b| - 1] == a + init;
      assert (a + b)[|a + b| - 1] == last;
      LoadedAppend(a, init);
      assert Loaded(a + b) == (Loaded(a) + Loaded(init)) + LineTasks(last);
    }
  }

  /** A blank line contributes no task; anything else contributes its parse. */
  lemma LoadedLine(line: string)
    ensures IsBlank(line) <==> Loaded([line]) == []
    ensures Loaded([line]) == (match ParseLine(line) case Some(t) => [t] case None => [])
  {
    assert [line][..0] == [];
    ParseFailsIffBlank(line);
  }

  /** A canonical task's rendering loads as that task. */
  lemma RenderLoads(t: Task)
    requires Canonical(t)
    ensures Loaded([Render(t)]) == [t]
  {
    ParseRender(t);
    LoadedLine(Render(t));
  }

  /** Every loaded task renders to a line that reads back as the same task. */
  lemma LoadedRoundTrip(lines: seq<string>, k: nat)
    requires k < |Loaded(lines)|
    ensures Loaded([Render(Loaded(lines)[k])]) == [Loaded(lines)[k]]
  {
    var t := Loaded(lines)[k];
    assert ParseLine(NonBlankLines(lines)[k]) == Some(t) by {
      LoadedParsesNonBlank(lines);
    }
    ParsedIsCanonical(NonBlankLines(lines)[k]);
    RenderLoads(t);
  }
}
