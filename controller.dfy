/**
 * The controller: `main` holds the current state in a local variable and, on
 * every pass of its loop, runs that state's action and applies the transition
 * table. A step here is one pass; a trace is a finite number of passes over
 * one keyboard script.
 */
module Controller {
  import opened Wrappers
  import opened Keyboard
  import opened Machine
  import opened Actions

  /**
   * One pass of the loop: the status the action returned (none for an unknown
   * state, which runs no action), the polls it made, the lines it printed
   * and the state the loop continues with.
   */
  datatype StepResult = StepResult(status: Option<Status>, consumed: nat, output: seq<Line>, next: State)

  /** A finite run: the states visited in order, the polls made, the lines printed. */
  datatype Run = Run(visited: seq<State>, consumed: nat, output: seq<Line>)

  /** A line printed on standard output: an action starting, or a report. */
  datatype Line = Started(state: State) | Reported(report: Report)

  /** The text of a printed line (the blank lines around reports are not modelled). */
  function Text(line: Line): string
    requires line.Started? ==> line.state != Unknown
  {
    match line
    case Started(s) => Announcement(s)
    case Reported(r) => ReportText(r)
  }

  /**
   * Every printed line can be told from every other: the output shows which
   * action started or which report was printed.
   */
  lemma LinesTellApart(a: Line, b: Line)
    requires a.Started? ==> a.state != Unknown
    requires b.Started? ==> b.state != Unknown
    ensures Text(a) == Text(b) <==> a == b
  {
    ReportTexts();
    ReportsDistinct(if a.Reported? then a.report else UnknownState, if b.Reported? then b.report else UnknownState);
  }

  function Lines(report: Option<Report>): seq<Line>
  {
    match report
    case None => []
    case Some(r) => [Reported(r)]
  }

  /**
   * One pass of the loop from state `s` on `script`; `None` when `s` is Idle
   * and the script has no start key, so the pass never ends.
   */
  function StepSpec(s: State, script: Script): (r: Option<StepResult>)
    ensures r.None? ==> s == Idle
    ensures r.Some? ==> r.value.next != Unknown
    ensures r.Some? && s.Bounded() ==> r.value.status.Some? && 1 <= r.value.consumed <= ActionDuration
  {
    if s == Unknown then
      // no action runs and the status is not consulted
      var t := Next(s, StatusPending);
      Some(StepResult(None, 0, Lines(t.report), t.next))
    else if s == Idle then
      match IdleOutcome(script)
      case None => None
      case Some(p) =>
        var t := Next(s, StatusOk);
        Some(StepResult(Some(StatusOk), p, [Started(s)] + Lines(t.report), t.next))
    else
      var o := TimedAction(script);
      var t := Next(s, o.status);
      Some(StepResult(Some(o.status), o.polls, [Started(s)] + Lines(t.report), t.next))
  }

  /** A pass ends unless the machine idles on a script without the start key. */
  lemma StepBlocks(s: State, script: Script)
    ensures StepSpec(s, script).None? <==> s == Idle && !HasStartKey(script)
  {
    IdleOutcomeFirstStart(script, 0);
  }

  /** One pass of the loop of `main`. */
  method Step(s: State, script: Script) returns (r: StepResult)
    requires s == Idle ==> HasStartKey(script)
    ensures StepSpec(s, script) == Some(r)
  {
    if s == Unknown {
      var t := Next(s, StatusPending);
      return StepResult(None, 0, Lines(t.report), t.next);
    }
    var status: Status, polls: nat;
    if s == Idle {
      status, polls := IdleWait(script);
    } else {
      status, polls := RunTimedAction(script);
    }
    var t := Next(s, status);
    r := StepResult(Some(status), polls, [Started(s)] + Lines(t.report), t.next);
  }

  /**
   * `steps` passes of the loop from state `s`. A pass in Idle whose script
   * holds no start key prints its line, swallows the rest of the script and
   * never returns, so the run stops there.
   */
  function Trace(s: State, script: Script, steps: nat): (r: Run)
    ensures 1 <= |r.visited| <= steps + 1 && r.visited[0] == s
    decreases steps
  {
    if steps == 0 then Run([s], 0, [])
    else
      match StepSpec(s, script)
      case None => Run([s], |script|, [Started(Idle)])
      case Some(step) =>
        var rest := Trace(step.next, Drop(script, step.consumed), steps - 1);
        Run([s] + rest.visited, step.consumed + rest.consumed, step.output + rest.output)
  }

  /**
   * A run of `steps` passes of which those in `done` are made, continued by a
   * trace from state `s` for the passes still to go.
   */
  function Resume(done: Run, s: State, script: Script, steps: nat): Run
    requires |done.visited| <= steps
  {
    var t := Trace(s, Drop(script, done.consumed), steps - |done.visited|);
    Run(done.visited + t.visited, done.consumed + t.consumed, done.output + t.output)
  }

  /** The run `done` extended by one pass. */
  function Extend(done: Run, s: State, step: StepResult): Run
  {
    Run(done.visited + [s], done.consumed + step.consumed, done.output + step.output)
  }

  lemma TraceUnfold(s: State, script: Script, steps: nat, step: StepResult)
    requires steps > 0 && StepSpec(s, script) == Some(step)
    ensures var t := Trace(step.next, Drop(script, step.consumed), steps - 1);
            Trace(s, script, steps) == Run([s] + t.visited, step.consumed + t.consumed, step.output + t.output)
  {
  }

  /** Proof helper: appending a pass and then a run to `done` is appending the run to `done` extended by the pass. */
  lemma ExtendAssoc(done: Run, s: State, step: StepResult, t: Run)
    ensures var next := Extend(done, s, step);
            Run(done.visited + ([s] + t.visited), done.consumed + (step.consumed + t.consumed), done.output + (step.output + t.output))
            == Run(next.visited + t.visited, next.consumed + t.consumed, next.output + t.output)
  {
    assert done.visited + ([s] + t.visited) == (done.visited + [s]) + t.visited;
    assert done.output + (step.output + t.output) == (done.output + step.output) + t.output;
  }

  lemma ResumeAfterStep(done: Run, s: State, script: Script, steps: nat, step: StepResult)
    requires |done.visited| < steps && StepSpec(s, Drop(script, done.consumed)) == Some(step)
    ensures Resume(done, s, script, steps) == Resume(Extend(done, s, step), step.next, script, steps)
  {
    var rest := Drop(script, done.consumed);
    var left := steps - |done.visited|;
    var next := Extend(done, s, step);
    DropDrop(script, done.consumed, step.consumed);
    TraceCongruent(step.next, Drop(rest, step.consumed), Drop(script, next.consumed), left - 1, steps - |next.visited|);
    TraceUnfold(s, rest, left, step);
    ExtendAssoc(done, s, step, Trace(step.next, Drop(rest, step.consumed), left - 1));
  }

  /**
   * Proof helper: `Trace` of equal arguments. The solver is slow to see this
   * when a step count is written in two forms, such as `4 - 1` and `3`.
   */
  lemma TraceCongruent(s: State, a: Script, b: Script, m: nat, n: nat)
    requires a == b && m == n
    ensures Trace(s, a, m) == Trace(s, b, n)
  {
  }

  /** Proof helper: appending a run to the empty run gives that run. */
  lemma EmptyRun(t: Run)
    ensures Run([] + t.visited, 0 + t.consumed, [] + t.output) == t
  {
    assert [] + t.visited == t.visited && [] + t.output == t.output;
  }

  lemma ResumeStart(s: State, script: Script, steps: nat)
    ensures Resume(Run([], 0, []), s, script, steps) == Trace(s, script, steps)
  {
    assert Drop(script, 0) == script;
    TraceCongruent(s, Drop(script, 0), script, steps - |Run([], 0, []).visited|, steps);
    EmptyRun(Trace(s, script, steps));
  }

  lemma ResumeDone(done: Run, s: State, script: Script, steps: nat)
    requires |done.visited| == steps
    ensures Resume(done, s, script, steps) == Run(done.visited + [s], done.consumed, done.output)
  {
    assert done.output + [] == done.output;
  }

  lemma ResumeBlocked(done: Run, script: Script, steps: nat)
    requires |done.visited| < steps && !HasStartKey(Drop(script, done.consumed))
    ensures Resume(done, Idle, script, steps)
            == Run(done.visited + [Idle], done.consumed + |Drop(script, done.consumed)|, done.output + [Started(Idle)])
  {
    StepBlocks(Idle, Drop(script, done.consumed));
  }

  /**
   * The loop of `main` from the initial state Preheat, run for at most
   * `steps` passes over one script.
   */
  method RunController(script: Script, steps: nat) returns (r: Run)
    ensures r == Trace(Preheat, script, steps)
  {
    var state := Preheat;
    var done := Run([], 0, []);
    ResumeStart(state, script, steps);
    while |done.visited| < steps
      invariant |done.visited| <= steps
      invariant Resume(done, state, script, steps) == Trace(Preheat, script, steps)
    {
      var rest := Drop(script, done.consumed);
      if state == Idle && !HasStartKey(rest) {
        // the idle wait would never return
        ResumeBlocked(done, script, steps);
        return Run(done.visited + [state], done.consumed + |rest|, done.output + [Started(Idle)]);
      }
      var step := Step(state, rest);
      ResumeAfterStep(done, state, script, steps, step);
      done := Extend(done, state, step);
      state := step.next;
    }
    ResumeDone(done, state, script, steps);
    r := Run(done.visited + [state], done.consumed, done.output);
  }
}
