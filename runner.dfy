/**
 * The command-line runner (browser_use_runner.py): `run_browser_use_test`
 * turns the scenario's steps into step dictionaries that name a screenshot
 * each, hands them to the `browser-use` tool and reports every step as
 * passed, with the screenshot when the tool left one.
 *
 * A step given as a dictionary is updated in place, so it is a `StepDict`
 * object; a step given as text becomes a new one. The launch of the tool and
 * the file system are inputs: what the launch did, and which paths exist.
 */
module Runner {
  import opened Wrappers
  import opened Strings

  /** A value in a step dictionary, as an f-string renders it. */
  datatype Value = Str(s: string) | Flag(b: bool) | Other(text: string)

  function Render(v: Value): string {
    match v
    case Str(s) => s
    case Flag(b) => if b then "True" else "False"
    case Other(text) => text
  }

  /** A step dictionary, shared with the caller. */
  class StepDict {
    var fields: map<string, Value>

    constructor (fields: map<string, Value>)
      ensures this.fields == fields
    {
      this.fields := fields;
    }
  }

  /** A step as the caller gives it: text, or a dictionary. */
  datatype StepInput = Text(s: string) | Dict(d: StepDict)

  const ActionKey := "action"
  const DescriptionKey := "description"
  const ScreenshotKey := "screenshot"
  const FilenameKey := "screenshot_filename"
  const OutputDir := "screenshots"

  /** `scenario_name.replace(" ", "_").lower()` */
  function ScenarioId(name: string): (r: string)
    ensures |r| == |name|
    ensures forall i :: 0 <= i < |name| ==> r[i] == (if name[i] == ' ' then '_' else LowerChar(name[i]))
  {
    Lower(ReplaceChar(name, ' ', '_'))
  }

  /** The id of a scenario holds no space and no upper-case ASCII letter. */
  lemma ScenarioIdClean(name: string)
    ensures forall i :: 0 <= i < |ScenarioId(name)| ==> ScenarioId(name)[i] != ' ' && !('A' <= ScenarioId(name)[i] <= 'Z')
  {
  }

  /** `f"{scenario_id}_step_{i}_{action}.png"` */
  function StepFilename(id: string, i: nat, action: string): string {
    id + "_step_" + NatToString(i) + "_" + action + ".png"
  }

  /** `s.get('action', 'unknown')`, rendered. */
  function ActionText(fields: map<string, Value>): string {
    if ActionKey in fields then Render(fields[ActionKey]) else "unknown"
  }

  /** The dictionary made for text step `i`. */
  function CommentFields(id: string, i: nat, text: string): (r: map<string, Value>)
    ensures r.Keys == {ActionKey, DescriptionKey, ScreenshotKey, FilenameKey}
    ensures r[ActionKey] == Str("comment") && r[DescriptionKey] == Str(text) && r[ScreenshotKey] == Flag(true)
    ensures r[FilenameKey] == Str(StepFilename(id, i, "comment"))
  {
    map[ActionKey := Str("comment"), DescriptionKey := Str(text), ScreenshotKey := Flag(true),
        FilenameKey := Str(StepFilename(id, i, "comment"))]
  }

  /** A dictionary step `i` after the loop has set its screenshot entries. */
  function Marked(fields: map<string, Value>, id: string, i: nat): (r: map<string, Value>)
    ensures r.Keys == fields.Keys + {ScreenshotKey, FilenameKey}
    ensures r[ScreenshotKey] == Flag(true) && r[FilenameKey] == Str(StepFilename(id, i, ActionText(fields)))
    ensures forall k :: k in fields && k != ScreenshotKey && k != FilenameKey ==> r[k] == fields[k]
  {
    fields[ScreenshotKey := Flag(true)][FilenameKey := Str(StepFilename(id, i, ActionText(fields)))]
  }

  /** Marking again keeps the action, so only the last marking of a dictionary counts. */
  lemma MarkedKeepsAction(fields: map<string, Value>, id: string, i: nat, j: nat)
    ensures ActionText(Marked(fields, id, i)) == ActionText(fields)
    ensures Marked(Marked(fields, id, i), id, j) == Marked(fields, id, j)
  {
  }

  /** The dictionaries among the steps. */
  function Dicts(steps: seq<StepInput>): set<StepDict> {
    set k | 0 <= k < |steps| && steps[k].Dict? :: steps[k].d
  }

  /** The dictionaries among the first `i + 1` steps. */
  lemma {:induction false} DictsNext(steps: seq<StepInput>, i: nat)
    requires i < |steps|
    ensures Dicts(steps[..i + 1]) == Dicts(steps[..i]) + (if steps[i].Dict? then {steps[i].d} else {})
  {
    var s := steps[..i + 1];
    assert forall k :: 0 <= k < i ==> s[k] == steps[..i][k];
  }

  /** The last position of dictionary `d` among the steps. */
  function LastIndex(steps: seq<StepInput>, d: StepDict): (k: nat)
    requires d in Dicts(steps)
    ensures k < |steps| && steps[k] == Dict(d)
    ensures forall j :: k < j < |steps| ==> steps[j] != Dict(d)
    decreases |steps|
  {
    var n := |steps| - 1;
    if steps[n] == Dict(d) then n
    else
      DictsNext(steps, n);
      assert steps[..n + 1] == steps;
      LastIndex(steps[..n], d)
  }

  /** `LastIndex` on a prefix one step longer. */
  lemma {:induction false} LastIndexNext(steps: seq<StepInput>, i: nat, d: StepDict)
    requires i < |steps| && d in Dicts(steps[..i + 1])
    ensures steps[i] == Dict(d) ==> LastIndex(steps[..i + 1], d) == i
    ensures steps[i] != Dict(d) ==> d in Dicts(steps[..i]) && LastIndex(steps[..i + 1], d) == LastIndex(steps[..i], d)
  {
    DictsNext(steps, i);
    if steps[i] != Dict(d) {
      assert steps[..i + 1][..i] == steps[..i];
    }
  }

  /**
   * The entries dictionary `d` should hold after the first `i` steps: the
   * marking of its last position among them, or its original entries
   * `before` when it is not among them.
   */
  ghost function Expected(steps: seq<StepInput>, id: string, i: nat, d: StepDict, before: map<string, Value>): map<string, Value>
    requires i <= |steps|
  {
    if d in Dicts(steps[..i]) then Marked(before, id, LastIndex(steps[..i], d) + 1) else before
  }

  /** One more step re-marks its own dictionary at the new position. */
  lemma {:induction false} ExpectedOwn(steps: seq<StepInput>, id: string, i: nat, d: StepDict, before: map<string, Value>)
    requires i < |steps| && steps[i] == Dict(d)
    ensures Expected(steps, id, i + 1, d, before) == Marked(Expected(steps, id, i, d, before), id, i + 1)
  {
    DictsNext(steps, i);
    LastIndexNext(steps, i, d);
    if d in Dicts(steps[..i]) {
      MarkedKeepsAction(before, id, LastIndex(steps[..i], d) + 1, i + 1);
    }
  }

  /** One more step leaves the expectation of every other dictionary alone. */
  lemma {:induction false} ExpectedOther(steps: seq<StepInput>, id: string, i: nat, d: StepDict, before: map<string, Value>)
    requires i < |steps| && steps[i] != Dict(d)
    ensures Expected(steps, id, i + 1, d, before) == Expected(steps, id, i, d, before)
  {
    DictsNext(steps, i);
    if d in Dicts(steps[..i + 1]) {
      LastIndexNext(steps, i, d);
    }
  }

  /** After the first `i` steps, every dictionary holds what `Expected` says. */
  ghost predicate MarkedUpTo(steps: seq<StepInput>, id: string, i: nat, orig: map<StepDict, map<string, Value>>)
    requires i <= |steps|
    reads Dicts(steps)
  {
    forall d :: d in Dicts(steps) ==> d in orig && d.fields == Expected(steps, id, i, d, orig[d])
  }

  /** The entries of every dictionary among the steps. */
  ghost function Snapshot(steps: seq<StepInput>): map<StepDict, map<string, Value>>
    reads Dicts(steps)
  {
    map d | d in Dicts(steps) :: d.fields
  }

  /**
   * Every dictionary among the steps holds its entries `before`, marked at
   * its last position (counting from 1).
   */
  ghost predicate MarkedAll(steps: seq<StepInput>, id: string, before: map<StepDict, map<string, Value>>)
    reads Dicts(steps)
  {
    forall d :: d in Dicts(steps) ==> d in before && d.fields == Marked(before[d], id, LastIndex(steps, d) + 1)
  }

  /** After all steps, every dictionary carries the marking of its last position. */
  lemma {:induction false} MarkedUpToAll(steps: seq<StepInput>, id: string, orig: map<StepDict, map<string, Value>>)
    requires MarkedUpTo(steps, id, |steps|, orig)
    ensures MarkedAll(steps, id, orig)
  {
    assert steps[..|steps|] == steps;
  }

  /** A text step touches no dictionary. */
  lemma {:induction false} MarkedUpToText(steps: seq<StepInput>, id: string, i: nat, orig: map<StepDict, map<string, Value>>)
    requires i < |steps| && steps[i].Text? && MarkedUpTo(steps, id, i, orig)
    ensures MarkedUpTo(steps, id, i + 1, orig)
  {
    forall d | d in Dicts(steps)
      ensures Expected(steps, id, i + 1, d, orig[d]) == Expected(steps, id, i, d, orig[d])
    {
      ExpectedOther(steps, id, i, d, orig[d]);
    }
  }

  /** Once every step is done, each structured step names its screenshot file. */
  lemma {:induction false} StructuredNamed(steps: seq<StepInput>, id: string, structured: seq<StepDict>, orig: map<StepDict, map<string, Value>>)
    requires |structured| == |steps| && MarkedAll(steps, id, orig)
    requires forall k :: 0 <= k < |steps| && steps[k].Dict? ==> structured[k] == steps[k].d
    requires forall k :: 0 <= k < |steps| && steps[k].Text? ==> structured[k].fields == CommentFields(id, k + 1, steps[k].s)
    ensures forall k :: 0 <= k < |structured| ==> FilenameKey in structured[k].fields
  {
    forall k | 0 <= k < |structured|
      ensures FilenameKey in structured[k].fields
    {
      if steps[k].Dict? {
        assert steps[k].d in Dicts(steps);
      }
    }
  }

  /** Marks dictionary step `i` (counting from 0) in place. */
  method MarkStep(steps: seq<StepInput>, id: string, i: nat, ghost orig: map<StepDict, map<string, Value>>)
    requires i < |steps| && steps[i].Dict? && MarkedUpTo(steps, id, i, orig)
    modifies steps[i].d
    ensures MarkedUpTo(steps, id, i + 1, orig)
  {
    var d := steps[i].d;
    label Before:
    d.fields := Marked(d.fields, id, i + 1);
    forall e | e in Dicts(steps)
      ensures e in orig && e.fields == Expected(steps, id, i + 1, e, orig[e])
    {
      if e == d {
        ExpectedOwn(steps, id, i, e, orig[e]);
      } else {
        ExpectedOther(steps, id, i, e, orig[e]);
        assert e.fields == old@Before(e.fields);
      }
    }
  }

  /**
   * The normalisation loop: one step dictionary per input step, in order;
   * text step `i` (counting from 1) becomes a new "comment" dictionary, and
   * a dictionary step is marked in place, so a dictionary given twice ends
   * with the marking of its last position.
   */
  method NormalizeSteps(steps: seq<StepInput>, id: string) returns (structured: seq<StepDict>)
    modifies Dicts(steps)
    ensures |structured| == |steps|
    ensures forall k :: 0 <= k < |steps| && steps[k].Dict? ==> structured[k] == steps[k].d
    ensures forall k :: 0 <= k < |steps| && steps[k].Text? ==>
      fresh(structured[k]) && structured[k].fields == CommentFields(id, k + 1, steps[k].s)
    ensures MarkedAll(steps, id, old(Snapshot(steps)))
    ensures forall k :: 0 <= k < |structured| ==> FilenameKey in structured[k].fields
  {
    ghost var orig := Snapshot(steps);
    structured := [];
    var i := 0;
    while i < |steps|
      invariant 0 <= i <= |steps|
      invariant |structured| == i
      invariant forall k :: 0 <= k < i && steps[k].Dict? ==> structured[k] == steps[k].d
      invariant forall k :: 0 <= k < i && steps[k].Text? ==>
        fresh(structured[k]) && structured[k].fields == CommentFields(id, k + 1, steps[k].s)
      invariant MarkedUpTo(steps, id, i, orig)
    {
      ghost var prev := structured;
      var d;
      if steps[i].Text? {
        MarkedUpToText(steps, id, i, orig);
        d := new StepDict(CommentFields(id, i + 1, steps[i].s));
        assert MarkedUpTo(steps, id, i + 1, orig);
      } else {
        d := steps[i].d;
        MarkStep(steps, id, i, orig);
      }
      structured := structured + [d];
      forall k | 0 <= k < i + 1 && steps[k].Dict?
        ensures structured[k] == steps[k].d
      {
        if k < i { assert structured[k] == prev[k]; }
      }
      forall k | 0 <= k < i + 1 && steps[k].Text?
        ensures fresh(structured[k]) && structured[k].fields == CommentFields(id, k + 1, steps[k].s)
      {
        if k < i { assert structured[k] == prev[k]; }
      }
      assert MarkedUpTo(steps, id, i + 1, orig);
      i := i + 1;
    }
    MarkedUpToAll(steps, id, orig);
    StructuredNamed(steps, id, structured, orig);
  }

  /** `os.path.join(dir, f)` for two POSIX path parts. */
  function PathJoin(dir: string, f: string): (r: string)
    ensures |r| >= |f| && r[|r| - |f|..] == f
    ensures StartsWith(f, "/") ==> r == f
    ensures !StartsWith(f, "/") ==> |r| >= |dir| && r[..|dir|] == dir
  {
    if StartsWith(f, "/") then f
    else if dir == [] || dir[|dir| - 1] == '/' then dir + f
    else dir + "/" + f
  }

  /** A relative name joins below `dir` with one separator. */
  lemma PathJoinRelative(dir: string, f: string)
    requires !StartsWith(f, "/") && dir != [] && dir[|dir| - 1] != '/'
    ensures PathJoin(dir, f) == dir + "/" + f
    ensures |PathJoin(dir, f)| == |dir| + 1 + |f|
  {
  }

  /**
   * Unless the scenario id starts with "/", the screenshot of step `i` is
   * looked for as "screenshots/<id>_step_<i>_<action>.png".
   */
  lemma StepScreenshotPath(id: string, i: nat, action: string)
    requires id == [] || id[0] != '/'
    ensures PathJoin(OutputDir, StepFilename(id, i, action)) == OutputDir + "/" + StepFilename(id, i, action)
  {
    var f := StepFilename(id, i, action);
    assert f[0] == if id == [] then '_' else id[0];
    assert !StartsWith(f, "/");
  }

  /** The outcome of launching `browser-use`: it exited, or the launch raised. */
  datatype Launch = Exited | CalledProcessError(message: string)

  /** `reporter.TestStepResult`, with the step dictionary shared. */
  datatype TestStepResult = TestStepResult(step: StepDict, status: string, error: Option<string>, screenshot: Option<string>)

  /** Where the screenshot of a marked step is looked for. */
  function ScreenshotPath(step: StepDict): string
    requires FilenameKey in step.fields
    reads step
  {
    PathJoin(OutputDir, Render(step.fields[FilenameKey]))
  }

  /**
   * The result reported for a step after the tool exited: always passed,
   * with the screenshot path exactly when that file exists.
   */
  function Collected(step: StepDict, present: string -> bool): (r: TestStepResult)
    requires FilenameKey in step.fields
    reads step
    ensures r.step == step && r.status == "passed" && r.error == None
    ensures r.screenshot.Some? <==> present(ScreenshotPath(step))
    ensures r.screenshot.Some? ==> r.screenshot.value == ScreenshotPath(step)
  {
    var path := ScreenshotPath(step);
    TestStepResult(step, "passed", None, if present(path) then Some(path) else None)
  }

  /** The collection loop: one result per structured step, in order. */
  method CollectResults(structured: seq<StepDict>, present: string -> bool) returns (results: seq<TestStepResult>)
    requires forall k :: 0 <= k < |structured| ==> FilenameKey in structured[k].fields
    ensures |results| == |structured|
    ensures forall k :: 0 <= k < |structured| ==> results[k] == Collected(structured[k], present)
    ensures forall k :: 0 <= k < |structured| ==> results[k].step == structured[k] && FilenameKey in results[k].step.fields
  {
    results := [];
    var i := 0;
    while i < |structured|
      invariant 0 <= i <= |structured|
      invariant |results| == i
      invariant forall k :: 0 <= k < i ==> results[k] == Collected(structured[k], present)
    {
      results := results + [Collected(structured[i], present)];
      i := i + 1;
    }
  }

  /**
   * `run_browser_use_test`: normalises the steps, launches the tool and
   * reports one passed result per step, in order; when the launch raises it
   * reports a single failed "browser-use" step with the error instead.
   */
  method RunBrowserUseTest(steps: seq<StepInput>, scenarioName: string, launch: Launch, present: string -> bool)
    returns (results: seq<TestStepResult>)
    modifies Dicts(steps)
    ensures MarkedAll(steps, ScenarioId(scenarioName), old(Snapshot(steps)))
    ensures launch.CalledProcessError? ==>
      |results| == 1 && fresh(results[0].step) && results[0].step.fields == map[ActionKey := Str("browser-use")] &&
      results[0].status == "failed" && results[0].error == Some(launch.message) && results[0].screenshot == None
    ensures launch.Exited? ==> |results| == |steps|
    ensures launch.Exited? ==> forall k :: 0 <= k < |steps| ==>
      FilenameKey in results[k].step.fields && results[k] == Collected(results[k].step, present)
    ensures launch.Exited? ==> forall k :: 0 <= k < |steps| && steps[k].Dict? ==> results[k].step == steps[k].d
    ensures launch.Exited? ==> forall k :: 0 <= k < |steps| && steps[k].Text? ==>
      fresh(results[k].step) &&
      results[k].step.fields == CommentFields(ScenarioId(scenarioName), k + 1, steps[k].s)
  {
    var id := ScenarioId(scenarioName);
    var structured := NormalizeSteps(steps, id);
    match launch
    case CalledProcessError(message) =>
      var failed := new StepDict(map[ActionKey := Str("browser-use")]);
      results := [TestStepResult(failed, "failed", Some(message), None)];
    case Exited =>
      results := CollectResults(structured, present);
  }
}
