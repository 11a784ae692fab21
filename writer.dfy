/**
 * Reading and writing test material on Jira (jira_writer.py): pulling the
 * JSON array of scenarios out of a subtask description, the pass/fail
 * verdicts of a results report and the label update that closes a test run.
 *
 * `json.loads` is not modelled: it is the parameter `parse`, a partial
 * function from text to a JSON value.
 */
module Writer {
  import opened Wrappers
  import opened Strings
  import opened SubtaskManager

  datatype Json =
    | JNull
    | JBool(b: bool)
    | JNumber(n: int)
    | JString(s: string)
    | JArray(items: seq<Json>)
    | JObject(fields: map<string, Json>)

  const Fence := "```"
  const JsonFence := "```json"

  // ---- the fenced pattern  ```json\s*(\[.*?\])\s*```  (dot matches newlines) ----

  /**
   * The array text may end at `e`: `t[e]` is `]`, and after the white space
   * that follows it comes a closing fence.
   */
  predicate ClosesAt(t: string, e: nat) {
    e < |t| && t[e] == ']' && OccursAt(t, Fence, e + 1 + Span(t, e + 1, IsSpace))
  }

  /** The lazy `.*?`: the first position from `e` on where the array text may end. */
  function FirstClose(t: string, e: nat): (r: Option<nat>)
    requires e <= |t|
    ensures r.Some? ==> e <= r.value < |t| && ClosesAt(t, r.value)
    ensures r.Some? ==> forall k :: e <= k < r.value ==> !ClosesAt(t, k)
    ensures r.None? ==> forall k :: e <= k < |t| ==> !ClosesAt(t, k)
    decreases |t| - e
  {
    if e == |t| then None
    else if ClosesAt(t, e) then Some(e)
    else FirstClose(t, e + 1)
  }

  /**
   * The captured array of a fenced match starting at `p`. The white space
   * after "```json" is taken whole, as `\s*` can give none back to `\[`.
   */
  function FencedAt(t: string, p: nat): (r: Option<string>)
    requires p <= |t|
    ensures r.Some? ==> |r.value| >= 2 && r.value[0] == '[' && r.value[|r.value| - 1] == ']'
  {
    if !OccursAt(t, JsonFence, p) then None
    else
      var q := p + |JsonFence| + Span(t, p + |JsonFence|, IsSpace);
      if q < |t| && t[q] == '[' then
        match FirstClose(t, q + 1)
        case Some(e) => Some(t[q..e + 1])
        case None => None
      else None
  }

  /** Where `re.search` finds the fenced pattern from position `p` on: the leftmost match. */
  function FenceIndex(t: string, p: nat): (r: Option<nat>)
    requires p <= |t|
    ensures r.None? ==> forall k :: p <= k <= |t| ==> FencedAt(t, k).None?
    ensures r.Some? ==> p <= r.value <= |t| && FencedAt(t, r.value).Some?
    ensures r.Some? ==> forall k :: p <= k < r.value ==> FencedAt(t, k).None?
    decreases |t| - p
  {
    if FencedAt(t, p).Some? then Some(p)
    else if p == |t| then None
    else FenceIndex(t, p + 1)
  }

  /** The array captured by the leftmost fenced match, if there is one. */
  function FencedSearch(t: string): (r: Option<string>)
    ensures r.None? <==> FenceIndex(t, 0).None?
    ensures r.Some? ==> r == FencedAt(t, FenceIndex(t, 0).value)
  {
    match FenceIndex(t, 0)
    case Some(k) => FencedAt(t, k)
    case None => None
  }

  // ---- the bare pattern  \[.*\]  (dot matches newlines) ----

  /**
   * `re.search(r"\[.*\]", text, re.DOTALL)`: from the first `[` to the last
   * `]` after it, or nothing when no `]` follows the first `[`.
   */
  function BareArray(t: string): (r: Option<string>)
    ensures r.Some? ==> |r.value| >= 2 && r.value[0] == '[' && r.value[|r.value| - 1] == ']'
  {
    var i := Span(t, 0, NotOpen);
    SpanStops(t, 0, NotOpen);
    if i == |t| then None
    else
      var j := LastIndexOf(t, ']');
      if j.Some? && j.value > i then Some(t[i..j.value + 1]) else None
  }

  function NotOpen(c: char): bool {
    c != '['
  }

  /** The bare match runs from the first `[` to the last `]`, when that `]` comes after it. */
  lemma BareArrayFirstToLast(t: string, i: nat, j: nat)
    requires i < j < |t| && t[i] == '[' && t[j] == ']'
    requires forall k :: 0 <= k < i ==> t[k] != '['
    requires forall k :: j < k < |t| ==> t[k] != ']'
    ensures BareArray(t) == Some(t[i..j + 1])
  {
    SpanStops(t, 0, NotOpen);
    var last := LastIndexOf(t, ']');
    assert last.Some? by {
      assert t[j] == ']';
    }
  }

  /** There is no bare match exactly when no `]` follows any `[`. */
  lemma BareArrayNone(t: string)
    ensures BareArray(t).None? <==> forall i, j :: 0 <= i < j < |t| && t[i] == '[' ==> t[j] != ']'
  {
    SpanStops(t, 0, NotOpen);
    var first := Span(t, 0, NotOpen);
    var last := LastIndexOf(t, ']');
    if BareArray(t).Some? {
      assert t[first] == '[' && t[last.value] == ']';
    } else {
      forall i, j | 0 <= i < j < |t| && t[i] == '['
        ensures t[j] != ']'
      {
        assert first <= i;
      }
    }
  }

  function LastIndexOf(t: string, c: char): (r: Option<nat>)
    ensures r.Some? ==> r.value < |t| && t[r.value] == c && forall k :: r.value < k < |t| ==> t[k] != c
    ensures r.None? ==> c !in t
    decreases |t|
  {
    if |t| == 0 then None
    else if t[|t| - 1] == c then Some(|t| - 1)
    else LastIndexOf(t[..|t| - 1], c)
  }

  // ---- _extract_json_block ----

  /**
   * `_extract_json_block` as written. When only the bare pattern matches,
   * `match.group(1)` raises (the pattern has no group), the `except` swallows
   * it, and the result is `None`.
   */
  function ExtractJsonBlockAsWritten(parse: string -> Option<Json>, text: Option<string>): (r: Option<Json>)
    ensures text.None? || text == Some("") ==> r.None?
    ensures text.Some? && FencedSearch(text.value).None? ==> r.None?
  {
    if text.None? || text.value == "" then None
    else
      match FencedSearch(text.value)
      case Some(block) => parse(block)
      case None => None
  }

  /** `_extract_json_block` with the bare array fallback doing what its comment promises. */
  function ExtractJsonBlock(parse: string -> Option<Json>, text: Option<string>): (r: Option<Json>)
    ensures text.None? || text == Some("") ==> r.None?
  {
    if text.None? || text.value == "" then None
    else
      match FencedSearch(text.value)
      case Some(block) => parse(block)
      case None =>
        match BareArray(text.value)
        case Some(block) => parse(block)
        case None => None
  }

  /** A fenced array, when there is one, decides both versions alike. */
  lemma FenceFirst(parse: string -> Option<Json>, t: string)
    requires t != "" && FencedSearch(t).Some?
    ensures ExtractJsonBlock(parse, Some(t)) == ExtractJsonBlockAsWritten(parse, Some(t))
    ensures ExtractJsonBlock(parse, Some(t)) == parse(FencedSearch(t).value)
  {
  }

  /**
   * Without a fence, the corrected version parses the bare array, which is
   * the text from the first `[` to the last `]`.
   */
  lemma BareFallback(parse: string -> Option<Json>, t: string)
    requires t != "" && FencedSearch(t).None? && BareArray(t).Some?
    ensures ExtractJsonBlock(parse, Some(t)) == parse(BareArray(t).value)
  {
  }

  predicate NoBacktick(s: string) {
    forall i :: 0 <= i < |s| ==> s[i] != '`'
  }

  /** Text without a backtick holds no fence. */
  lemma {:induction false} NoBacktickNoFence(t: string, p: nat)
    requires p <= |t| && NoBacktick(t)
    ensures FenceIndex(t, p).None?
    decreases |t| - p
  {
    assert !OccursAt(t, JsonFence, p) by {
      if p < |t| {
        assert t[p] != JsonFence[0];
      }
    }
    if p < |t| {
      NoBacktickNoFence(t, p + 1);
    }
  }

  /**
   * A bare array outside any fence is never read as written, while the
   * corrected version parses it.
   */
  lemma BareArrayIgnoredAsWritten(parse: string -> Option<Json>, t: string)
    requires NoBacktick(t) && BareArray(t).Some?
    ensures ExtractJsonBlockAsWritten(parse, Some(t)) == None
    ensures ExtractJsonBlock(parse, Some(t)) == parse(BareArray(t).value)
  {
    NoBacktickNoFence(t, 0);
  }

  /** The text "[]" is such an array: its bare match is the whole text. */
  lemma EmptyListIgnoredAsWritten(parse: string -> Option<Json>)
    requires parse("[]") == Some(JArray([]))
    ensures ExtractJsonBlockAsWritten(parse, Some("[]")) == None
    ensures ExtractJsonBlock(parse, Some("[]")) == Some(JArray([]))
  {
    var t := "[]";
    assert Span(t, 0, c => c != '[') == 0;
    assert LastIndexOf(t, ']') == Some(1);
    assert t[0..2] == t;
    assert BareArray(t) == Some(t);
    BareArrayIgnoredAsWritten(parse, t);
  }

  /**
   * `read_scenarios_from_subtask`: the list parsed from the description,
   * else the empty list. It calls `_extract_json_block` as written, so only a
   * fenced array is ever read.
   */
  function ReadScenariosFromSubtask(parse: string -> Option<Json>, description: Option<string>): (r: seq<Json>)
    ensures description.None? || FencedSearch(description.value).None? ==> r == []
    ensures r != [] ==>
      (description.Some? && FencedSearch(description.value).Some?
       && parse(FencedSearch(description.value).value) == Some(JArray(r)))
    ensures description.Some? && FencedSearch(description.value).Some?
      && parse(FencedSearch(description.value).value).Some? && parse(FencedSearch(description.value).value).value.JArray?
      ==> r == parse(FencedSearch(description.value).value).value.items
    ensures description.Some? && FencedSearch(description.value).Some?
      && !(parse(FencedSearch(description.value).value).Some? && parse(FencedSearch(description.value).value).value.JArray?)
      ==> r == []
  {
    match ExtractJsonBlockAsWritten(parse, description)
    case Some(JArray(items)) => items
    case _ => []
  }

  /**
   * `read_scenarios_from_subtask` over the corrected `_extract_json_block`:
   * a description holding an array outside any fence is read as well.
   */
  function ReadScenariosCorrected(parse: string -> Option<Json>, description: Option<string>): (r: seq<Json>)
    ensures r != [] ==> description.Some? && description.value != ""
    ensures r != [] && FencedSearch(description.value).Some? ==>
      parse(FencedSearch(description.value).value) == Some(JArray(r))
    ensures r != [] && FencedSearch(description.value).None? ==>
      (BareArray(description.value).Some? && parse(BareArray(description.value).value) == Some(JArray(r)))
    ensures description.Some? && FencedSearch(description.value).Some?
      && parse(FencedSearch(description.value).value).Some? && parse(FencedSearch(description.value).value).value.JArray?
      ==> r == parse(FencedSearch(description.value).value).value.items
    ensures description.Some? && description.value != "" && FencedSearch(description.value).None?
      && BareArray(description.value).Some?
      && parse(BareArray(description.value).value).Some? && parse(BareArray(description.value).value).value.JArray?
      ==> r == parse(BareArray(description.value).value).value.items
    ensures description.Some? && description.value != "" && FencedSearch(description.value).None?
      && BareArray(description.value).None?
      ==> r == []
  {
    match ExtractJsonBlock(parse, description)
    case Some(JArray(items)) => items
    case _ => []
  }

  /**
   * An unfenced array in a description is lost as written, and read back by
   * the corrected version.
   */
  lemma UnfencedScenariosLost(parse: string -> Option<Json>, t: string, scenarios: seq<Json>)
    requires NoBacktick(t) && BareArray(t).Some? && parse(BareArray(t).value) == Some(JArray(scenarios))
    ensures ReadScenariosFromSubtask(parse, Some(t)) == []
    ensures ReadScenariosCorrected(parse, Some(t)) == scenarios
  {
    BareArrayIgnoredAsWritten(parse, t);
  }

  // ---- the description create_subtask_with_scenarios writes ----

  const IntroStart := "Edit the JSON below to update"
  const IntroMiddle := " the test scenarios before moving"
  const IntroEnd := " the parent issue to QA.\n\n"
  /** The line `create_subtask_with_scenarios` puts above the fenced block. */
  const SubtaskIntro := IntroStart + IntroMiddle + IntroEnd

  /** A description holding `block` in a fenced block after `intro`. */
  function FencedDescription(intro: string, block: string): string {
    intro + JsonFence + "\n" + block + "\n" + Fence
  }

  /**
   * Reading back what was written: the fenced block of a description whose
   * introduction and array hold no backtick is exactly that array.
   */
  lemma FencedRoundTrip(intro: string, block: string)
    requires NoBacktick(intro) && NoBacktick(block)
    requires |block| >= 2 && block[0] == '[' && block[|block| - 1] == ']'
    ensures FencedSearch(FencedDescription(intro, block)) == Some(block)
  {
    var t := FencedDescription(intro, block);
    var p := |intro|;
    FencedAtIntroEnd(intro, block);
    forall k | 0 <= k < p
      ensures FencedAt(t, k).None?
    {
      assert t[k] == intro[k];
      NotFencedAt(t, k);
    }
    FenceIndexFrom(t, 0, p);
  }

  /** No fenced match starts at a character other than a backtick. */
  lemma NotFencedAt(t: string, k: nat)
    requires k < |t| && t[k] != '`'
    ensures FencedAt(t, k).None?
  {
    assert !OccursAt(t, JsonFence, k) by {
      if k + |JsonFence| <= |t| {
        assert t[k..k + |JsonFence|][0] == t[k];
      }
    }
  }

  /** Where the pieces of a fenced description sit. */
  lemma DescriptionLayout(intro: string, block: string)
    ensures var t := FencedDescription(intro, block);
      var p := |intro|;
      var q := p + |JsonFence| + 1;
      |t| == q + |block| + 1 + |Fence|
      && OccursAt(t, JsonFence, p) && t[p + |JsonFence|] == '\n'
      && t[q..q + |block|] == block
      && t[q + |block|] == '\n' && OccursAt(t, Fence, q + |block| + 1)
  {
    var t := FencedDescription(intro, block);
    var p := |intro|;
    var q := p + |JsonFence| + 1;
    assert t == intro + JsonFence + "\n" + block + "\n" + Fence;
    assert t[p..p + |JsonFence|] == JsonFence;
    assert t[q..q + |block|] == block;
    assert t[q + |block| + 1..] == Fence;
  }

  /** The fenced match that starts right after the introduction captures the array. */
  lemma FencedAtIntroEnd(intro: string, block: string)
    requires NoBacktick(block)
    requires |block| >= 2 && block[0] == '[' && block[|block| - 1] == ']'
    ensures FencedAt(FencedDescription(intro, block), |intro|) == Some(block)
  {
    var t := FencedDescription(intro, block);
    var p := |intro|;
    var q := p + |JsonFence| + 1;
    DescriptionLayout(intro, block);
    assert t[q] == block[0];
    assert Span(t, p + |JsonFence|, IsSpace) == 1;
    var e := q + |block| - 1;
    assert t[e] == block[|block| - 1];
    assert t[e + 2] == Fence[0];
    assert Span(t, e + 1, IsSpace) == 1;
    assert ClosesAt(t, e);
    forall k | q + 1 <= k < e
      ensures !ClosesAt(t, k)
    {
      NoCloseInside(t, q, block, k);
    }
    FirstCloseIs(t, q + 1, e);
    assert t[q..e + 1] == block;
  }

  /** Inside the array no position can end the match: the text after it holds no fence. */
  lemma NoCloseInside(t: string, q: nat, block: string, k: nat)
    requires q + |block| <= |t| && t[q..q + |block|] == block
    requires NoBacktick(block) && |block| >= 1 && !IsSpace(block[|block| - 1])
    requires q < k < q + |block| - 1
    ensures !ClosesAt(t, k)
  {
    var last := q + |block| - 1;
    assert t[last] == block[|block| - 1];
    var w := Span(t, k + 1, IsSpace);
    SpanStops(t, k + 1, IsSpace);
    assert k + 1 + w <= last;
    assert t[k + 1 + w] == block[k + 1 + w - q];
  }

  lemma {:induction false} FirstCloseIs(t: string, e: nat, c: nat)
    requires e <= c < |t| && ClosesAt(t, c)
    requires forall k :: e <= k < c ==> !ClosesAt(t, k)
    ensures FirstClose(t, e) == Some(c)
    decreases c - e
  {
    if e < c {
      assert !ClosesAt(t, e);
      FirstCloseIs(t, e + 1, c);
    }
  }

  lemma {:induction false} FenceIndexFrom(t: string, p: nat, m: nat)
    requires p <= m <= |t| && FencedAt(t, m).Some?
    requires forall k :: p <= k < m ==> FencedAt(t, k).None?
    ensures FenceIndex(t, p) == Some(m)
    decreases m - p
  {
    if p < m {
      assert FencedAt(t, p).None?;
      FenceIndexFrom(t, p + 1, m);
    }
  }

  /** The intro `create_subtask_with_scenarios` writes holds no backtick. */
  lemma SubtaskIntroHasNoBacktick()
    ensures NoBacktick(SubtaskIntro)
  {
    assert NoBacktick(IntroStart) && NoBacktick(IntroMiddle) && NoBacktick(IntroEnd);
  }

  /**
   * Scenarios written by `create_subtask_with_scenarios` are read back by
   * `read_scenarios_from_subtask`, given that the dumped array holds no
   * backtick and parses to the list written.
   */
  lemma SubtaskScenariosRoundTrip(parse: string -> Option<Json>, block: string, scenarios: seq<Json>)
    requires NoBacktick(block) && |block| >= 2 && block[0] == '[' && block[|block| - 1] == ']'
    requires parse(block) == Some(JArray(scenarios))
    ensures ReadScenariosFromSubtask(parse, Some(FencedDescription(SubtaskIntro, block))) == scenarios
  {
    SubtaskIntroHasNoBacktick();
    FencedRoundTrip(SubtaskIntro, block);
    FenceFirst(parse, FencedDescription(SubtaskIntro, block));
  }

  // ---- post_results_to_jira ----

  /**
   * What `r["step"]` finds in a step result: no "step" key (a `KeyError`), a
   * dictionary, or any other value, such as text, which has no `get` (an
   * `AttributeError`).
   */
  datatype StepField = NoStepKey | StepMapping | StepNotMapping

  /** A step result as `post_results_to_jira` reads it: its step, status text and error. */
  datatype StepRow = StepRow(step: StepField, status: string, error: Option<string>)

  const PassedStatus := "passed"

  predicate StepPassed(r: StepRow) {
    r.status == PassedStatus
  }

  /** `all(r["status"] == "passed" for r in results)` */
  predicate ScenarioPassed(results: seq<StepRow>) {
    forall i :: 0 <= i < |results| ==> StepPassed(results[i])
  }

  /** The 1-based positions of the steps that did not pass, in order. */
  function FailedPositions(results: seq<StepRow>): (r: seq<nat>)
    decreases |results|
  {
    if |results| == 0 then []
    else
      var rest := FailedPositions(results[..|results| - 1]);
      if StepPassed(results[|results| - 1]) then rest else rest + [|results|]
  }

  /** A position is listed exactly when that step did not pass, and the list is increasing. */
  lemma {:induction false} FailedPositionsExact(results: seq<StepRow>)
    ensures forall k :: 0 <= k < |FailedPositions(results)| ==>
      1 <= FailedPositions(results)[k] <= |results| && !StepPassed(results[FailedPositions(results)[k] - 1])
    ensures forall i :: 0 <= i < |results| && !StepPassed(results[i]) ==> i + 1 in FailedPositions(results)
    ensures forall j, k :: 0 <= j < k < |FailedPositions(results)| ==> FailedPositions(results)[j] < FailedPositions(results)[k]
    decreases |results|
  {
    if |results| > 0 {
      var prefix := results[..|results| - 1];
      FailedPositionsExact(prefix);
      forall i | 0 <= i < |prefix|
        ensures results[i] == prefix[i]
      {
      }
    }
  }

  /** The two tests in the report agree: a scenario passes exactly when no step is listed as failed. */
  lemma {:induction false} PassedIffNoFailures(results: seq<StepRow>)
    ensures ScenarioPassed(results) <==> FailedPositions(results) == []
  {
    FailedPositionsExact(results);
    if |FailedPositions(results)| > 0 {
      assert !StepPassed(results[FailedPositions(results)[0] - 1]);
    }
    if !ScenarioPassed(results) {
      var i :| 0 <= i < |results| && !StepPassed(results[i]);
      assert i + 1 in FailedPositions(results);
    }
  }

  /**
   * A failed scenario's report lists every step by its description, so every
   * step must be a dictionary; a passed scenario's steps are never looked at.
   */
  predicate StepsReadable(results: seq<StepRow>) {
    ScenarioPassed(results) || forall i :: 0 <= i < |results| ==> results[i].step.StepMapping?
  }

  /** The verdict `post_results_to_jira` reaches for one scenario. */
  datatype Verdict = Verdict(scenario: string, passed: bool, failedSteps: seq<nat>)


  /** The listing of a failed scenario's steps: false at the first step that is not a dictionary. */
  method ReadSteps(results: seq<StepRow>) returns (readable: bool)
    ensures readable <==> forall i :: 0 <= i < |results| ==> results[i].step.StepMapping?
  {
    var j := 0;
    while j < |results|
      invariant 0 <= j <= |results|
      invariant forall k :: 0 <= k < j ==> results[k].step.StepMapping?
    {
      if !results[j].step.StepMapping? {
        return false;
      }
      j := j + 1;
    }
    return true;
  }

  /**
   * The verdicts of the results report: one per scenario, in order, with the
   * overall flag true exactly when every scenario passed. Building the report
   * raises, and `raised` is set, exactly when some failed scenario holds a step
   * that is not a dictionary.
   */
  method Aggregate(scenarioResults: seq<(string, seq<StepRow>)>) returns (verdicts: seq<Verdict>, allPassed: bool, raised: bool)
    ensures raised <==> exists s :: 0 <= s < |scenarioResults| && !StepsReadable(scenarioResults[s].1)
    ensures !raised ==> |verdicts| == |scenarioResults|
    ensures !raised ==> forall s :: 0 <= s < |scenarioResults| ==>
      verdicts[s] == Verdict(scenarioResults[s].0, ScenarioPassed(scenarioResults[s].1), FailedPositions(scenarioResults[s].1))
    ensures !raised ==> (allPassed <==> forall s :: 0 <= s < |scenarioResults| ==> ScenarioPassed(scenarioResults[s].1))
  {
    verdicts := [];
    allPassed := true;
    raised := false;
    var s := 0;
    while s < |scenarioResults|
      invariant 0 <= s <= |scenarioResults|
      invariant |verdicts| == s
      invariant forall k :: 0 <= k < s ==> StepsReadable(scenarioResults[k].1)
      invariant forall k :: 0 <= k < s ==>
        verdicts[k] == Verdict(scenarioResults[k].0, ScenarioPassed(scenarioResults[k].1), FailedPositions(scenarioResults[k].1))
      invariant allPassed <==> forall k :: 0 <= k < s ==> ScenarioPassed(scenarioResults[k].1)
    {
      var (scenario, results) := scenarioResults[s];
      var scenarioPassed := true;
      var failedSteps: seq<nat> := [];
      var i := 0;
      while i < |results|
        invariant 0 <= i <= |results|
        invariant scenarioPassed <==> ScenarioPassed(results[..i])
        invariant failedSteps == FailedPositions(results[..i])
      {
        assert results[..i + 1][..i] == results[..i];
        if results[i].status != PassedStatus {
          failedSteps := failedSteps + [i + 1];
          scenarioPassed := false;
        }
        i := i + 1;
      }
      assert results[..i] == results;
      if !scenarioPassed {
        var readable := ReadSteps(results);
        if !readable {
          raised := true;
          return;
        }
      }
      PassedIffNoFailures(results);
      if !scenarioPassed {
        allPassed := false;
      }
      verdicts := verdicts + [Verdict(scenario, scenarioPassed, failedSteps)];
      s := s + 1;
    }
  }

  const MockIssueKey := "DUMMY-123"
  const InProgressLabel := "testing-in-progress"
  const AutoTestedLabel := "auto-tested"

  /** `parent_issue_key or issue_key`: the issue whose labels are updated. */
  function LabelTarget(issueKey: string, parentKey: Option<string>): (r: string)
    ensures parentKey.Some? && parentKey.value != "" ==> r == parentKey.value
    ensures parentKey.None? || parentKey == Some("") ==> r == issueKey
  {
    if parentKey.Some? && parentKey.value != "" then parentKey.value else issueKey
  }

  /** The label list after a test run: "testing-in-progress" removed once, "auto-tested" added if missing. */
  function TestedLabels(labels: seq<string>): (r: seq<string>)
    ensures AutoTestedLabel in r
  {
    WithLabel(WithoutLabel(labels, InProgressLabel), AutoTestedLabel)
  }

  /**
   * On a label list without duplicates, a test run leaves "testing-in-progress"
   * absent and adds no duplicate.
   */
  lemma TestedLabelsClean(labels: seq<string>)
    requires NoDuplicates(labels)
    ensures InProgressLabel !in TestedLabels(labels)
    ensures NoDuplicates(TestedLabels(labels))
  {
    WithoutLabelAbsent(labels, InProgressLabel);
    WithLabelNoDuplicates(WithoutLabel(labels, InProgressLabel), AutoTestedLabel);
    assert InProgressLabel != AutoTestedLabel;
  }

  /** What one call of `post_results_to_jira` comes to. */
  datatype PostOutcome =
    | Skipped    // the mock issue: nothing is done
    | Aborted    // building the report raised: the exception leaves the function
    | Posted(verdicts: seq<Verdict>, allPassed: bool)    // the comment is posted

  /**
   * `post_results_to_jira`. `target` is the issue Jira returns for
   * `LabelTarget(issueKey, parentKey)`. A step that is not a dictionary in a
   * failed scenario raises while the report is built, before the `try`, so no
   * comment is posted and no label written. When the target has no label list,
   * `in` raises inside the `try` and nothing is written; otherwise the list is
   * written back, changed or not.
   */
  method PostResultsToJira(issueKey: string, scenarioResults: seq<(string, seq<StepRow>)>, parentKey: Option<string>, target: Issue)
    returns (outcome: PostOutcome)
    requires target.key == LabelTarget(issueKey, parentKey)
    modifies target
    ensures issueKey == MockIssueKey ==> outcome.Skipped?
    ensures issueKey != MockIssueKey ==>
      (outcome.Aborted? <==> exists s :: 0 <= s < |scenarioResults| && !StepsReadable(scenarioResults[s].1))
    ensures issueKey != MockIssueKey && !outcome.Aborted? ==> outcome.Posted?
    ensures outcome.Skipped? || outcome.Aborted? ==> unchanged(target)
    ensures outcome.Posted? ==> |outcome.verdicts| == |scenarioResults|
    ensures outcome.Posted? ==> forall s :: 0 <= s < |scenarioResults| ==>
      outcome.verdicts[s] == Verdict(scenarioResults[s].0, ScenarioPassed(scenarioResults[s].1), FailedPositions(scenarioResults[s].1))
    ensures outcome.Posted? ==> (outcome.allPassed <==> forall s :: 0 <= s < |scenarioResults| ==> ScenarioPassed(scenarioResults[s].1))
    ensures outcome.Posted? && old(target.labels).None? ==> unchanged(target)
    ensures outcome.Posted? && old(target.labels).Some? ==>
      target.labels == Some(TestedLabels(old(target.labels).value)) && target.updates == old(target.updates) + 1
  {
    if issueKey == MockIssueKey {
      return Skipped;
    }
    var verdicts, allPassed, raised := Aggregate(scenarioResults);
    if raised {
      return Aborted;
    }
    outcome := Posted(verdicts, allPassed);
    if target.labels.Some? {
      var labels := target.labels.value;
      if InProgressLabel in labels {
        labels := WithoutLabel(labels, InProgressLabel);
      }
      if AutoTestedLabel !in labels {
        labels := labels + [AutoTestedLabel];
      }
      target.Update(labels);
    }
  }

  /** `scenario_passed` in `format_test_results`: every step's status is "passed". */
  function FormattedScenarioPassed(statuses: seq<string>): (r: bool)
    ensures r <==> forall i :: 0 <= i < |statuses| ==> statuses[i] == PassedStatus
    decreases |statuses|
  {
    if |statuses| == 0 then true
    else statuses[0] == PassedStatus && FormattedScenarioPassed(statuses[1..])
  }

  /**
   * `format_test_results` and `post_results_to_jira` apply the same pass test:
   * on the statuses of a scenario's rows, one passes exactly when the other does.
   */
  lemma FormattedAgreesWithReport(rows: seq<StepRow>)
    ensures FormattedScenarioPassed(seq(|rows|, i requires 0 <= i < |rows| => rows[i].status)) <==> ScenarioPassed(rows)
  {
    var statuses := seq(|rows|, i requires 0 <= i < |rows| => rows[i].status);
    assert forall i :: 0 <= i < |rows| ==> statuses[i] == rows[i].status;
  }
}
