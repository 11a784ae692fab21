/**
 * The parts of a Jira story description the tester reads (jira_reader.py):
 * the first line mentioning "http" is the page under test, and every
 * non-blank line after the first line mentioning "steps" is a test step.
 */
module Reader {
  import opened Wrappers
  import opened Strings

  /** `description.split("\n")` */
  function Lines(description: string): (r: seq<string>)
    ensures |r| >= 1
  {
    Split(description, '\n')
  }

  predicate HasUrl(line: string) {
    Contains(line, "http")
  }

  /** A line that switches step capture on: "steps" occurs in it, in any case. */
  predicate IsHeader(line: string) {
    Contains(Lower(line), "steps")
  }

  /**
   * What `None.split("\n")` raises. Jira gives `None` for an empty
   * description, and `get_user_story` passes it to both extractors as it is.
   */
  const NoDescriptionError := "'NoneType' object has no attribute 'split'"

  /**
   * `extract_url`: the stripped first line that holds "http", or `None` when
   * no line does; a missing description raises.
   */
  method ExtractUrl(description: Option<string>) returns (url: Result<Option<string>, string>)
    ensures description.None? <==> url == Err(NoDescriptionError)
    ensures description.Some? ==>
      (url == Ok(None) <==> forall i :: 0 <= i < |Lines(description.value)| ==> !HasUrl(Lines(description.value)[i]))
    ensures url.Ok? && url.value.Some? ==>
      description.Some? &&
      exists i :: (0 <= i < |Lines(description.value)| && HasUrl(Lines(description.value)[i])
        && url.value.value == Strip(Lines(description.value)[i])
        && forall k :: 0 <= k < i ==> !HasUrl(Lines(description.value)[k]))
  {
    if description.None? {
      return Err(NoDescriptionError);
    }
    var lines := Lines(description.value);
    var i := 0;
    while i < |lines|
      invariant 0 <= i <= |lines|
      invariant forall k :: 0 <= k < i ==> !HasUrl(lines[k])
    {
      if HasUrl(lines[i]) {
        return Ok(Some(Strip(lines[i])));
      }
      i := i + 1;
    }
    return Ok(None);
  }

  /** The URL still holds "http": stripping only removes white space at the ends. */
  lemma UrlKeepsScheme(line: string)
    requires HasUrl(line)
    ensures HasUrl(Strip(line))
  {
    ContainsAfterStrip(line, "http");
  }

  /**
   * The steps collected from `lines` when capture is already on
   * (`capture`) or still off: a header line turns capture on and is never a
   * step itself; with capture on, each non-blank line adds its stripped text.
   */
  function StepsFrom(lines: seq<string>, capture: bool): seq<string>
    decreases |lines|
  {
    if |lines| == 0 then []
    else if IsHeader(lines[0]) then StepsFrom(lines[1..], true)
    else if capture && !IsBlank(lines[0]) then [Strip(lines[0])] + StepsFrom(lines[1..], capture)
    else StepsFrom(lines[1..], capture)
  }

  /** `extract_steps`: the steps after the first header line; a missing description raises. */
  method ExtractSteps(description: Option<string>) returns (steps: Result<seq<string>, string>)
    ensures description.None? <==> steps == Err(NoDescriptionError)
    ensures description.Some? ==> steps == Ok(StepsFrom(Lines(description.value), false))
  {
    if description.None? {
      return Err(NoDescriptionError);
    }
    var lines := Lines(description.value);
    var found: seq<string> := [];
    var capture := false;
    var i := 0;
    while i < |lines|
      invariant 0 <= i <= |lines|
      invariant found + StepsFrom(lines[i..], capture) == StepsFrom(lines, false)
    {
      assert lines[i..][1..] == lines[i + 1..];
      if IsHeader(lines[i]) {
        capture := true;
      } else if capture && !IsBlank(lines[i]) {
        found := found + [Strip(lines[i])];
      }
      i := i + 1;
    }
    assert lines[i..] == [];
    assert StepsFrom(lines[i..], capture) == [];
    assert found == StepsFrom(lines, false);
    return Ok(found);
  }

  /** Without a header line a description has no steps. */
  lemma {:induction false} NoHeaderNoSteps(lines: seq<string>)
    requires forall i :: 0 <= i < |lines| ==> !IsHeader(lines[i])
    ensures StepsFrom(lines, false) == []
    decreases |lines|
  {
    if |lines| > 0 {
      NoHeaderNoSteps(lines[1..]);
    }
  }

  /** Everything before the first header is ignored: capture starts right after it. */
  lemma {:induction false} StepsStartAfterFirstHeader(lines: seq<string>, h: nat)
    requires h < |lines| && IsHeader(lines[h])
    requires forall i :: 0 <= i < h ==> !IsHeader(lines[i])
    ensures StepsFrom(lines, false) == StepsFrom(lines[h + 1..], true)
    decreases h
  {
    if h > 0 {
      assert lines[1..][h - 1] == lines[h];
      assert lines[1..][h..] == lines[h + 1..];
      StepsStartAfterFirstHeader(lines[1..], h - 1);
    } else {
      assert lines[1..] == lines[h + 1..];
    }
  }

  /** Line `i` of `lines` is a step line whose stripped text is `s`. */
  predicate StepLine(lines: seq<string>, i: int, s: string) {
    0 <= i < |lines| && !IsHeader(lines[i]) && !IsBlank(lines[i]) && s == Strip(lines[i])
  }

  /** How `StepsFrom` unfolds on its first line, once capture is on. */
  lemma {:induction false} CapturedHead(lines: seq<string>)
    requires |lines| > 0
    ensures StepLine(lines, 0, Strip(lines[0])) ==>
      StepsFrom(lines, true) == [Strip(lines[0])] + StepsFrom(lines[1..], true)
    ensures !StepLine(lines, 0, Strip(lines[0])) ==> StepsFrom(lines, true) == StepsFrom(lines[1..], true)
  {
  }

  /**
   * Once capture is on, the steps are exactly the stripped lines that are
   * neither blank nor headers.
   */
  lemma {:induction false} CapturedSteps(lines: seq<string>, s: string)
    ensures s in StepsFrom(lines, true) <==> exists i :: StepLine(lines, i, s)
    decreases |lines|
  {
    if |lines| > 0 {
      var rest := lines[1..];
      CapturedSteps(rest, s);
      CapturedHead(lines);
      if s in StepsFrom(lines, true) {
        if s in StepsFrom(rest, true) {
          var i :| StepLine(rest, i, s);
          assert rest[i] == lines[i + 1];
          assert StepLine(lines, i + 1, s);
        } else {
          assert StepLine(lines, 0, s);
        }
      }
      if exists i :: StepLine(lines, i, s) {
        var i :| StepLine(lines, i, s);
        if i > 0 {
          assert rest[i - 1] == lines[i];
          assert StepLine(rest, i - 1, s);
        }
      }
    }
  }

  /** A stripped line that is not a header does not become one. */
  lemma {:induction false} StrippedNonHeader(line: string)
    requires !IsHeader(line)
    ensures !IsHeader(Strip(line))
  {
    StripAbsent(line, "steps");
  }

  /** A step: non-empty, no white space at either end, no mention of "steps". */
  predicate CleanStep(s: string) {
    s != "" && Strip(s) == s && !IsHeader(s)
  }

  /** The stripped text of a step line is a clean step. */
  lemma {:induction false} StripToCleanStep(line: string)
    requires !IsHeader(line) && !IsBlank(line)
    ensures CleanStep(Strip(line))
  {
    StrippedNonHeader(line);
    StripStripped(Strip(line));
  }

  /** Every step is a clean step. */
  lemma {:induction false} StepsAreClean(lines: seq<string>, capture: bool)
    ensures forall s :: s in StepsFrom(lines, capture) ==> CleanStep(s)
    decreases |lines|
  {
    if |lines| > 0 {
      var rest := lines[1..];
      if IsHeader(lines[0]) {
        StepsAreClean(rest, true);
      } else if capture && !IsBlank(lines[0]) {
        StepsAreClean(rest, capture);
        StripToCleanStep(lines[0]);
      } else {
        StepsAreClean(rest, capture);
      }
    }
  }

  /** A string with no white space at either end strips to itself. */
  lemma {:induction false} StripStripped(s: string)
    requires |s| == 0 || (!IsSpace(s[0]) && !IsSpace(s[|s| - 1]))
    ensures Strip(s) == s
  {
    LStripNoSpace(s);
    if |s| > 0 {
      assert RStrip(s) == s;
    }
  }
}
