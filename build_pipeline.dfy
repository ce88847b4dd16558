/**
 * The build server's pipeline: its steps run in list order against one build
 * context, each step's elapsed time is recorded under its name, and the first step
 * that fails adds one "<name>: <message>" error and stops the run.
 *
 * A step's work is not modelled; each step is given by its name, the outcome it
 * has when run (it completes or throws with a message) and the stopwatch reading
 * of its run, an opaque duration.
 */
module BuildPipeline {
  import opened Wrappers
  import Strings

  /** A stopwatch reading, in ticks. */
  datatype Duration = Duration(ticks: nat)

  datatype Outcome = Completes | Throws(message: string)

  datatype StepRun = StepRun(name: string, outcome: Outcome, elapsed: Duration)

  /** The context fields the pipeline itself reads and writes. */
  class BuildContext {
    var generatedFiles: seq<string>
    var errors: seq<string>
    var timings: map<string, Duration>

    constructor ()
      ensures generatedFiles == [] && errors == [] && timings == map[]
    {
      generatedFiles, errors, timings := [], [], map[];
    }
  }

  /** The index of the first step that throws, if any. */
  function FirstFailure(steps: seq<StepRun>): (r: Option<nat>)
    ensures r.None? <==> forall i :: 0 <= i < |steps| ==> steps[i].outcome.Completes?
    ensures r.Some? ==> r.value < |steps| && steps[r.value].outcome.Throws? &&
                        forall i :: 0 <= i < r.value ==> steps[i].outcome.Completes?
    decreases |steps|
  {
    if |steps| == 0 then None
    else if steps[0].outcome.Throws? then Some(0)
    else match FirstFailure(steps[1..])
      case None => None
      case Some(k) => Some(k + 1)
  }

  /** The steps that run: all of them, or those up to and including the first that throws. */
  function Ran(steps: seq<StepRun>): seq<StepRun>
  {
    match FirstFailure(steps)
    case None => steps
    case Some(k) => steps[..k + 1]
  }

  /** The error a thrown step adds. */
  function ErrorLine(name: string, message: string): string
  {
    name + ": " + message
  }

  /** The errors a run adds: none, or the one of its first failing step. */
  function RunErrors(steps: seq<StepRun>): seq<string>
  {
    match FirstFailure(steps)
    case None => []
    case Some(k) => [ErrorLine(steps[k].name, steps[k].outcome.message)]
  }

  /** Timings after recording `runs` in order into `t`; a later run of the same name overwrites. */
  function RecordTimings(t: map<string, Duration>, runs: seq<StepRun>): map<string, Duration>
    decreases |runs|
  {
    if |runs| == 0 then t
    else
      var last := runs[|runs| - 1];
      RecordTimings(t, runs[..|runs| - 1])[last.name := last.elapsed]
  }

  /**
   * `ExecuteAsync`: runs the steps in order, stops at the first that throws, and
   * succeeds when the context holds no error afterwards.
   */
  method Execute(steps: seq<StepRun>, context: BuildContext) returns (ok: bool)
    modifies context
    ensures context.timings == RecordTimings(old(context.timings), Ran(steps))
    ensures context.errors == old(context.errors) + RunErrors(steps)
    ensures context.generatedFiles == old(context.generatedFiles)
    ensures ok <==> FirstFailure(steps).None? && old(context.errors) == []
  {
    for i := 0 to |steps|
      invariant forall j :: 0 <= j < i ==> steps[j].outcome.Completes?
      invariant context.timings == RecordTimings(old(context.timings), steps[..i])
      invariant context.errors == old(context.errors)
      invariant context.generatedFiles == old(context.generatedFiles)
    {
      var step := steps[i];
      assert steps[..i + 1][..i] == steps[..i];
      context.timings := context.timings[step.name := step.elapsed];
      if step.outcome.Throws? {
        FirstFailureAt(steps, i);
        context.errors := context.errors + [ErrorLine(step.name, step.outcome.message)];
        return false;
      }
    }
    assert steps[..|steps|] == steps;
    ok := |context.errors| == 0;
  }

  lemma FirstFailureAt(steps: seq<StepRun>, i: nat)
    requires i < |steps| && steps[i].outcome.Throws?
    requires forall j :: 0 <= j < i ==> steps[j].outcome.Completes?
    ensures FirstFailure(steps) == Some(i)
  {
  }

  /** An empty pipeline runs nothing, adds no error and succeeds on an error-free context. */
  lemma EmptyPipeline(t: map<string, Duration>)
    ensures Ran([]) == [] && RunErrors([]) == [] && FirstFailure([]).None?
    ensures RecordTimings(t, Ran([])) == t
  {
  }

  /** Step i + 1 runs only if steps 1..i completed; a shortened run ends in the step that threw. */
  lemma RanIsPrefix(steps: seq<StepRun>)
    ensures |Ran(steps)| <= |steps| && Ran(steps) == steps[..|Ran(steps)|]
    ensures forall i :: 0 <= i < |Ran(steps)| - 1 ==> Ran(steps)[i].outcome.Completes?
    ensures |Ran(steps)| < |steps| ==> |Ran(steps)| > 0 && Ran(steps)[|Ran(steps)| - 1].outcome.Throws?
    ensures FirstFailure(steps).None? ==> Ran(steps) == steps
    ensures FirstFailure(steps).Some? ==> |Ran(steps)| == FirstFailure(steps).value + 1
  {
    if FirstFailure(steps).Some? {
      var k := FirstFailure(steps).value;
      var r := steps[..k + 1];
      assert r[k] == steps[k];
      assert forall i :: 0 <= i < k ==> r[i] == steps[i];
    }
  }

  /** A run adds at most one error, exactly when a step throws, and that error carries the step's message. */
  lemma OneErrorAtMost(steps: seq<StepRun>)
    ensures |RunErrors(steps)| <= 1
    ensures |RunErrors(steps)| == 1 <==> exists i :: 0 <= i < |steps| && steps[i].outcome.Throws?
    ensures |RunErrors(steps)| == 1 ==>
      var k := FirstFailure(steps).value;
      Strings.Contains(RunErrors(steps)[0], steps[k].outcome.message) &&
      RunErrors(steps)[0] == steps[k].name + ": " + steps[k].outcome.message
  {
    if FirstFailure(steps).Some? {
      var k := FirstFailure(steps).value;
      Strings.ContainsSuffix(steps[k].name + ": ", steps[k].outcome.message);
    }
  }

  /** A name has a timing afterwards exactly when it had one before or some run bears it. */
  lemma {:induction false} TimingsKeys(t: map<string, Duration>, runs: seq<StepRun>, name: string)
    ensures name in RecordTimings(t, runs) <==> name in t || exists i :: 0 <= i < |runs| && runs[i].name == name
    decreases |runs|
  {
    if |runs| > 0 {
      var init := runs[..|runs| - 1];
      TimingsKeys(t, init, name);
      if exists i :: 0 <= i < |runs| && runs[i].name == name {
        var i :| 0 <= i < |runs| && runs[i].name == name;
        if i < |init| {
          assert init[i] == runs[i];
        }
      }
    }
  }

  /** A name's timing is the duration of its last run. */
  lemma {:induction false} TimingsLastWins(t: map<string, Duration>, runs: seq<StepRun>, name: string, i: nat)
    requires i < |runs| && runs[i].name == name
    requires forall j :: i < j < |runs| ==> runs[j].name != name
    ensures name in RecordTimings(t, runs) && RecordTimings(t, runs)[name] == runs[i].elapsed
    decreases |runs|
  {
    var init := runs[..|runs| - 1];
    if i < |init| {
      assert init[i] == runs[i];
      assert forall j :: i < j < |init| ==> init[j] == runs[j];
      TimingsLastWins(t, init, name, i);
    }
  }

  /** A name no run bears keeps its earlier timing, or stays without one. */
  lemma {:induction false} TimingsUntouched(t: map<string, Duration>, runs: seq<StepRun>, name: string)
    requires forall i :: 0 <= i < |runs| ==> runs[i].name != name
    ensures name in RecordTimings(t, runs) <==> name in t
    ensures name in t ==> RecordTimings(t, runs)[name] == t[name]
    decreases |runs|
  {
    if |runs| > 0 {
      var init := runs[..|runs| - 1];
      assert forall i :: 0 <= i < |init| ==> init[i] == runs[i];
      TimingsUntouched(t, init, name);
    }
  }
}
