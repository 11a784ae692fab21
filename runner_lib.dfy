/**
 * The browser-use agent runner (browser_use_runner_lib.py): up to three
 * attempts at running the agent, where a rate-limit error costs an attempt
 * and any other error ends the run, and the mapping of the agent's history
 * of evaluations to step results.
 *
 * The agent is given as a function from the attempt number (0, 1, 2) to
 * what `agent.run()` does on that attempt, so the model needs no clock,
 * network or event loop.
 */
module RunnerLib {
  import opened Wrappers

  datatype Status = Passed | Failed

  /** `StepResult`: one step's label, status and error text. */
  datatype StepResult = StepResult(step: string, status: Status, error: Option<string>)

  /** `ScenarioResult`: the scenario name, its step results and the agent's summary. */
  datatype ScenarioResult = ScenarioResult(scenario: string, results: seq<StepResult>, finalResult: Option<string>)

  /** The `reason` attribute of an evaluation: absent, present but `None`, or text. */
  datatype Reason = Absent | NoneValue | Text(text: string)

  /**
   * One evaluation object from the agent's history. `passed` is the
   * truthiness of its `passed` attribute.
   */
  datatype Eval = Eval(passed: bool, reason: Reason)

  /** The second element of a history entry: a single evaluation or a list of them. */
  datatype Evals = One(ev: Eval) | Many(evs: seq<Eval>)

  /** A history entry `(command, evals)`. */
  datatype HistoryStep = HistoryStep(command: string, evals: Evals)

  /** What `agent.final_result` is after a run: not callable, or callable and returning this. */
  datatype Summary = NotCallable | Callable(returned: Option<string>)

  /**
   * What one attempt of the retry loop comes to, the whole `try` body: the
   * history and summary, a rate-limit error, or another exception with its
   * text. That exception may come from `agent.run()`, from calling
   * `final_result()`, or from building a `StepResult` whose command or reason
   * is not text.
   */
  datatype AgentOutcome =
    | Finished(history: seq<HistoryStep>, summary: Summary)
    | RateLimited
    | Raised(message: string)

  const MaxRetries: nat := 3
  const AgentStepName := "browser-use agent execution"
  const RateLimitMessage := "Rate limit exceeded after retries"
  const NoReason := "No reason provided."
  const NoSummary := "No summary available"

  /** A non-list evaluation counts as a list of one. */
  function EvalList(e: Evals): (r: seq<Eval>)
    ensures e.One? ==> r == [e.ev]
    ensures e.Many? ==> r == e.evs
  {
    match e
    case One(ev) => [ev]
    case Many(evs) => evs
  }

  /** `getattr(ev, "reason", "No reason provided.")` */
  function ReasonOf(ev: Eval): Option<string> {
    match ev.reason
    case Absent => Some(NoReason)
    case NoneValue => None
    case Text(text) => Some(text)
  }

  /**
   * The step result for one evaluation of the command `command`: a passed
   * step has no error; a failed one carries the reason, the default text
   * when there is no `reason` attribute, and `None` when that attribute is
   * `None`.
   */
  function ToStepResult(command: string, ev: Eval): (r: StepResult)
    ensures r.step == command
    ensures r.status == Passed <==> ev.passed
    ensures r.error.None? <==> ev.passed || ev.reason.NoneValue?
    ensures !ev.passed && ev.reason.Absent? ==> r.error == Some(NoReason)
    ensures !ev.passed && ev.reason.Text? ==> r.error == Some(ev.reason.text)
  {
    if ev.passed then StepResult(command, Passed, None)
    else StepResult(command, Failed, ReasonOf(ev))
  }

  function FinalResult(summary: Summary): (r: Option<string>)
    ensures summary.NotCallable? ==> r == Some(NoSummary)
    ensures summary.Callable? ==> r == summary.returned
  {
    match summary
    case NotCallable => Some(NoSummary)
    case Callable(returned) => returned
  }

  /** The (command, evaluation) pairs of a history, in history order. */
  function Flat(h: seq<HistoryStep>): seq<(string, Eval)>
    decreases |h|
  {
    if |h| == 0 then []
    else
      var last := h[|h| - 1];
      Flat(h[..|h| - 1]) + seq(|EvalList(last.evals)|, k requires 0 <= k < |EvalList(last.evals)| => (last.command, EvalList(last.evals)[k]))
  }

  /** Number of evaluations in a history. */
  function EvalCount(h: seq<HistoryStep>): nat
    decreases |h|
  {
    if |h| == 0 then 0 else EvalCount(h[..|h| - 1]) + |EvalList(h[|h| - 1].evals)|
  }

  /**
   * The flattened history holds one entry per evaluation, and evaluation `j`
   * of entry `i` sits right after the evaluations of the entries before `i`.
   */
  lemma {:induction false} FlatAt(h: seq<HistoryStep>, i: nat, j: nat)
    requires i < |h| && j < |EvalList(h[i].evals)|
    ensures |Flat(h)| == EvalCount(h)
    ensures EvalCount(h[..i]) + j < |Flat(h)|
    ensures Flat(h)[EvalCount(h[..i]) + j] == (h[i].command, EvalList(h[i].evals)[j])
    decreases |h|
  {
    FlatLength(h);
    var n := |h| - 1;
    assert h[..n][..i] == h[..i];
    if i < n {
      FlatAt(h[..n], i, j);
      FlatLength(h[..n]);
      assert EvalCount(h[..i]) + j < |Flat(h[..n])|;
    } else {
      assert h[..i] == h[..n];
      FlatLength(h[..n]);
    }
  }

  lemma {:induction false} FlatLength(h: seq<HistoryStep>)
    ensures |Flat(h)| == EvalCount(h)
    decreases |h|
  {
    if |h| > 0 {
      FlatLength(h[..|h| - 1]);
    }
  }

  /** The step results for a whole history: one per evaluation, in history order. */
  function HistoryResults(h: seq<HistoryStep>): (r: seq<StepResult>)
  {
    var f := Flat(h);
    seq(|f|, k requires 0 <= k < |f| => ToStepResult(f[k].0, f[k].1))
  }

  /**
   * There is exactly one step result per evaluation, and the result for
   * evaluation `j` of history entry `i` comes after those of all earlier
   * entries: it carries that entry's command, and passes exactly when the
   * evaluation passed.
   */
  lemma HistoryResultsOrder(h: seq<HistoryStep>, i: nat, j: nat)
    requires i < |h| && j < |EvalList(h[i].evals)|
    ensures |HistoryResults(h)| == EvalCount(h)
    ensures EvalCount(h[..i]) + j < |HistoryResults(h)|
    ensures HistoryResults(h)[EvalCount(h[..i]) + j] == ToStepResult(h[i].command, EvalList(h[i].evals)[j])
  {
    FlatAt(h, i, j);
  }

  /**
   * The nested loop over `history` and each entry's evaluations that builds
   * `results`.
   */
  method CollectResults(history: seq<HistoryStep>) returns (results: seq<StepResult>)
    ensures |results| == EvalCount(history)
    ensures results == HistoryResults(history)
  {
    results := [];
    var i := 0;
    while i < |history|
      invariant 0 <= i <= |history|
      invariant results == HistoryResults(history[..i])
    {
      var command := history[i].command;
      var evals := EvalList(history[i].evals);
      ghost var before := results;
      var j := 0;
      while j < |evals|
        invariant 0 <= j <= |evals|
        invariant |results| == |before| + j
        invariant results[..|before|] == before
        invariant forall k :: 0 <= k < j ==> results[|before| + k] == ToStepResult(command, evals[k])
      {
        results := results + [ToStepResult(command, evals[j])];
        j := j + 1;
      }
      assert history[..i + 1][..i] == history[..i];
      assert results == HistoryResults(history[..i + 1]);
      i := i + 1;
    }
    assert history[..i] == history;
    FlatLength(history);
  }

  /** The result of an attempt that did not hit the rate limit. */
  function AttemptResult(outcome: AgentOutcome, scenario: string): (r: ScenarioResult)
    requires !outcome.RateLimited?
  {
    match outcome
    case Finished(history, summary) =>
      ScenarioResult(scenario, HistoryResults(history), FinalResult(summary))
    case Raised(message) =>
      ScenarioResult(scenario, [StepResult(AgentStepName, Failed, Some(message))], None)
  }

  /** The fixed result when every attempt was rate-limited. */
  function RateLimitExhausted(scenario: string): ScenarioResult {
    ScenarioResult(scenario, [StepResult(AgentStepName, Failed, Some(RateLimitMessage))], None)
  }

  /**
   * `run_agent_with_browser_use`: `calls` is the number of times
   * `agent.run()` was called. Every call but the last was rate-limited; the
   * last call's outcome decides the result, unless it was rate-limited too,
   * in which case all three attempts were used up.
   */
  method RunAgent(agent: nat -> AgentOutcome, scenario: string) returns (r: ScenarioResult, calls: nat)
    ensures 1 <= calls <= MaxRetries
    ensures forall i :: 0 <= i < calls - 1 ==> agent(i).RateLimited?
    ensures !agent(calls - 1).RateLimited? ==> r == AttemptResult(agent(calls - 1), scenario)
    ensures agent(calls - 1).RateLimited? ==> calls == MaxRetries && r == RateLimitExhausted(scenario)
    ensures r.scenario == scenario
  {
    calls := 0;
    var attempt := 0;
    while attempt < MaxRetries
      invariant 0 <= attempt <= MaxRetries
      invariant calls == attempt
      invariant forall i :: 0 <= i < attempt ==> agent(i).RateLimited?
    {
      calls := calls + 1;
      var outcome := agent(attempt);
      match outcome {
        case Finished(history, summary) =>
          var results := CollectResults(history);
          r := ScenarioResult(scenario, results, FinalResult(summary));
          return;
        case RateLimited =>
          attempt := attempt + 1;
        case Raised(message) =>
          r := ScenarioResult(scenario, [StepResult(AgentStepName, Failed, Some(message))], None);
          return;
      }
    }
    r := RateLimitExhausted(scenario);
  }

  /**
   * A raised attempt gives exactly one step and no final result; a finished
   * one gives one step per evaluation, none when the history holds no
   * evaluation.
   */
  lemma {:induction false} AttemptResultShape(outcome: AgentOutcome, scenario: string)
    requires !outcome.RateLimited?
    ensures outcome.Raised? ==> |AttemptResult(outcome, scenario).results| == 1
    ensures outcome.Raised? ==> AttemptResult(outcome, scenario).finalResult.None?
    ensures outcome.Finished? ==> |AttemptResult(outcome, scenario).results| == EvalCount(outcome.history)
  {
    if outcome.Finished? {
      FlatLength(outcome.history);
    }
  }
}
