/**
 * What the loop of `main` does over several passes: one pass in each kind of
 * state, the full brewing cycle on a script without aborts, and the way a
 * failure brings the machine back to rest.
 */
module Cycle {
  import opened Wrappers
  import opened Keyboard
  import opened Machine
  import opened Actions
  import opened Controller

  /** No abort key among the `ActionDuration` polls starting at poll `n`. */
  predicate Calm(script: Script, n: nat)
  {
    forall k :: n <= k < n + ActionDuration ==> !AbortAt(script, k)
  }

  /** Calm polls stay calm once the polls before them are consumed. */
  lemma CalmDrop(script: Script, n: nat, m: nat)
    requires Calm(script, n + m)
    ensures Calm(Drop(script, n), m)
  {
    forall k | m <= k < m + ActionDuration
      ensures !AbortAt(Drop(script, n), k)
    {
      PollDrop(script, n, k);
      assert !AbortAt(script, n + k);
    }
  }

  /**
   * A pass in a bounded state on a script without an abort key in the action's
   * polls announces the state, makes all `ActionDuration` polls and moves on
   * along the success row of the table, printing no report.
   */
  lemma StepCompletes(s: State, script: Script)
    requires s.Bounded() && Calm(script, 0)
    ensures StepSpec(s, script) == Some(StepResult(Some(StatusOk), ActionDuration, [Started(s)], Next(s, StatusOk).next))
  {
    TimedActionOk(script);
    assert [Started(s)] + Lines(None) == [Started(s)];
  }

  /**
   * A pass in a bounded state whose first abort key comes at poll `k` stops
   * after `k + 1` polls, prints the state's failure report and takes the
   * failure row of the table.
   */
  lemma StepFailsAt(s: State, script: Script, k: nat)
    requires s.Bounded() && k < ActionDuration
    requires AbortAt(script, k) && forall j :: 0 <= j < k ==> !AbortAt(script, j)
    ensures var t := Next(s, StatusFailed);
            t.report.Some? &&
            StepSpec(s, script) == Some(StepResult(Some(StatusFailed), k + 1, [Started(s), Reported(t.report.value)], t.next))
  {
    TimedActionFailsAt(script, k);
    var t := Next(s, StatusFailed);
    assert [Started(s)] + Lines(t.report) == [Started(s), Reported(t.report.value)];
  }

  /**
   * A pass in Idle on a script whose first start key follows `keys` waits
   * through `keys`, consumes the start key and moves on to Heat.
   */
  lemma IdleStepStarts(keys: Script, c: char, rest: Script)
    requires forall j :: 0 <= j < |keys| ==> !StartAt(keys, j)
    requires IsStartKey(c)
    ensures StepSpec(Idle, keys + [Some(c)] + rest) == Some(StepResult(Some(StatusOk), |keys| + 1, [Started(Idle)], Heat))
  {
    IdleConsumesPrefix(keys, c, rest);
    assert [Started(Idle)] + Lines(None) == [Started(Idle)];
  }

  /** An unknown state reports the error, polls nothing and goes to Idle. */
  lemma UnknownStepRecovers(script: Script)
    ensures StepSpec(Unknown, script) == Some(StepResult(None, 0, [Reported(UnknownState)], Idle))
  {
  }

  /** Preheating with no key pressed takes all its polls and moves on to Idle. */
  lemma PreheatUndisturbed()
    ensures StepSpec(Preheat, []) == Some(StepResult(Some(StatusOk), ActionDuration, [Started(Preheat)], Idle))
  {
    StepCompletes(Preheat, []);
  }

  /**
   * Preheating with the abort key pressed on the sixth poll stops there,
   * reports the failure and moves on to Cleanup.
   */
  lemma PreheatAbortedAtTickFive(c: char)
    requires IsAbortKey(c)
    ensures StepSpec(Preheat, [None, None, None, None, None, Some(c)])
            == Some(StepResult(Some(StatusFailed), 6, [Started(Preheat), Reported(PreheatFailed)], Cleanup))
  {
    var script: Script := [None, None, None, None, None, Some(c)];
    assert forall j :: 0 <= j < 5 ==> !AbortAt(script, j);
    StepFailsAt(Preheat, script, 5);
  }

  /** A bounded-state pass that completes, followed by `steps` further passes. */
  lemma TraceCompletes(s: State, script: Script, steps: nat)
    requires s.Bounded() && Calm(script, 0)
    ensures var t := Trace(Next(s, StatusOk).next, Drop(script, ActionDuration), steps);
            Trace(s, script, steps + 1) == Run([s] + t.visited, ActionDuration + t.consumed, [Started(s)] + t.output)
  {
    StepCompletes(s, script);
    TraceUnfold(s, script, steps + 1, StepResult(Some(StatusOk), ActionDuration, [Started(s)], Next(s, StatusOk).next));
  }

  /**
   * Proof helper: the states and lines of the brewing cycle, one pass
   * prepended at a time, kept apart from the larger proofs that use them.
   */
  lemma CycleDisplays()
    ensures [Heat] + [EnablePump, Cleanup, Idle] == [Heat, EnablePump, Cleanup, Idle]
    ensures [Started(Heat)] + [Started(EnablePump), Started(Cleanup)] == [Started(Heat), Started(EnablePump), Started(Cleanup)]
    ensures [Idle] + [Heat, EnablePump, Cleanup, Idle] == [Idle, Heat, EnablePump, Cleanup, Idle]
    ensures [Started(Idle)] + [Started(Heat), Started(EnablePump), Started(Cleanup)]
            == [Started(Idle), Started(Heat), Started(EnablePump), Started(Cleanup)]
    ensures [Preheat] + [Idle, Heat, EnablePump, Cleanup, Idle] == [Preheat, Idle, Heat, EnablePump, Cleanup, Idle]
    ensures [Started(Preheat)] + [Started(Idle), Started(Heat), Started(EnablePump), Started(Cleanup)]
            == [Started(Preheat), Started(Idle), Started(Heat), Started(EnablePump), Started(Cleanup)]
  {
  }

  /** From Cleanup, one calm pass brings the machine back to Idle. */
  lemma CleanupRests(script: Script)
    requires Calm(script, 0)
    ensures Trace(Cleanup, script, 1) == Run([Cleanup, Idle], ActionDuration, [Started(Cleanup)])
  {
    TraceCompletes(Cleanup, script, 0);
  }

  /** From EnablePump, two calm passes clean up and bring the machine back to Idle. */
  lemma PumpRests(script: Script)
    requires Calm(script, 0) && Calm(script, ActionDuration)
    ensures Trace(EnablePump, script, 2)
            == Run([EnablePump, Cleanup, Idle], 2 * ActionDuration, [Started(EnablePump), Started(Cleanup)])
  {
    TraceCompletes(EnablePump, script, 1);
    CalmDrop(script, ActionDuration, 0);
    CleanupRests(Drop(script, ActionDuration));
  }

  /** From Heat, three calm passes heat, pump, clean up and bring the machine back to Idle. */
  lemma HeatRests(script: Script)
    requires Calm(script, 0) && Calm(script, ActionDuration) && Calm(script, 2 * ActionDuration)
    ensures Trace(Heat, script, 3)
            == Run([Heat, EnablePump, Cleanup, Idle], 3 * ActionDuration,
                   [Started(Heat), Started(EnablePump), Started(Cleanup)])
  {
    TraceCompletes(Heat, script, 2);
    TraceCongruent(Heat, script, script, 2 + 1, 3);
    CalmDrop(script, ActionDuration, 0);
    CalmDrop(script, ActionDuration, ActionDuration);
    PumpRests(Drop(script, ActionDuration));
    CycleDisplays();
  }

  /** Calm polls for the three actions of a brew starting at poll `n`. */
  lemma CalmBrew(script: Script, n: nat)
    requires forall k :: n <= k < n + 3 * ActionDuration ==> !AbortAt(script, k)
    ensures var brew := Drop(script, n);
            Calm(brew, 0) && Calm(brew, ActionDuration) && Calm(brew, 2 * ActionDuration)
  {
    assert Calm(script, n + 0);
    assert Calm(script, n + ActionDuration);
    assert Calm(script, n + 2 * ActionDuration);
    CalmDrop(script, n, 0);
    CalmDrop(script, n, ActionDuration);
    CalmDrop(script, n, 2 * ActionDuration);
  }

  /**
   * From Idle, a start key after `p` polls followed by calm polls for the
   * three actions makes four passes: the wait and the brew.
   */
  lemma IdleBrews(waiting: Script, p: nat)
    requires IdleOutcome(waiting) == Some(p)
    requires var brew := Drop(waiting, p);
             Calm(brew, 0) && Calm(brew, ActionDuration) && Calm(brew, 2 * ActionDuration)
    ensures Trace(Idle, waiting, 4)
            == Run([Idle, Heat, EnablePump, Cleanup, Idle], p + 3 * ActionDuration,
                   [Started(Idle), Started(Heat), Started(EnablePump), Started(Cleanup)])
  {
    var brew := Drop(waiting, p);
    HeatRests(brew);
    var idle := StepResult(Some(StatusOk), p, [Started(Idle)], Heat);
    assert [Started(Idle)] + Lines(None) == [Started(Idle)];
    TraceUnfold(Idle, waiting, 4, idle);
    TraceCongruent(Heat, brew, brew, 4 - 1, 3);
    CycleDisplays();
  }

  /**
   * The brewing cycle: from Preheat, a script with no abort key while the
   * machine preheats, a start key after `p` idle polls and no abort key
   * while it heats, pumps and cleans up makes the machine pass through every
   * state once and come back to Idle after `4 * ActionDuration + p` polls,
   * announcing each state and printing no report.
   */
  lemma HappyCycle(script: Script, p: nat)
    requires Calm(script, 0)
    requires IdleOutcome(Drop(script, ActionDuration)) == Some(p)
    requires forall k :: ActionDuration + p <= k < 4 * ActionDuration + p ==> !AbortAt(script, k)
    ensures Trace(Preheat, script, 5)
            == Run([Preheat, Idle, Heat, EnablePump, Cleanup, Idle], 4 * ActionDuration + p,
                   [Started(Preheat), Started(Idle), Started(Heat), Started(EnablePump), Started(Cleanup)])
  {
    CalmBrew(script, ActionDuration + p);
    DropDrop(script, ActionDuration, p);
    IdleBrews(Drop(script, ActionDuration), p);
    TraceCompletes(Preheat, script, 4);
    TraceCongruent(Preheat, script, script, 4 + 1, 5);
    CycleDisplays();
  }

  /** Past the first state, a trace never visits an undefined state. */
  lemma {:induction false} TraceStaysDefined(s: State, script: Script, steps: nat)
    ensures Unknown !in Trace(s, script, steps).visited[1..]
    decreases steps, 1
  {
    var r := StepSpec(s, script);
    if steps > 0 && r.Some? {
      StepStaysDefined(s, script, steps, r.value);
    } else {
      assert Trace(s, script, steps).visited == [s];
    }
  }

  /** A pass that ends keeps an undefined state out of the rest of the trace. */
  lemma {:induction false} StepStaysDefined(s: State, script: Script, steps: nat, step: StepResult)
    requires steps > 0 && StepSpec(s, script) == Some(step)
    ensures Unknown !in Trace(s, script, steps).visited[1..]
    decreases steps, 0
  {
    TraceUnfold(s, script, steps, step);
    var t := Trace(step.next, Drop(script, step.consumed), steps - 1);
    TraceStaysDefined(step.next, Drop(script, step.consumed), steps - 1);
    DefinedTail(s, t.visited);
  }

  /** Proof helper: a defined state put in front of a defined tail keeps the tail defined. */
  lemma DefinedTail(s: State, visited: seq<State>)
    requires |visited| >= 1 && visited[0] != Unknown && Unknown !in visited[1..]
    ensures Unknown !in ([s] + visited)[1..]
  {
    assert ([s] + visited)[1..] == [visited[0]] + visited[1..];
  }

  /**
   * After an action fails, the machine is back in Idle within the next two
   * passes, whatever the cleanup that may follow does.
   */
  lemma FailureComesToRest(s: State, script: Script)
    requires s.Bounded() && TimedAction(script).status == StatusFailed
    ensures Idle in Trace(s, script, 2).visited[1..]
  {
    var o := TimedAction(script);
    var t := Next(s, StatusFailed);
    var step := StepResult(Some(StatusFailed), o.polls, [Started(s)] + Lines(t.report), t.next);
    TraceUnfold(s, script, 2, step);
    var rest := Drop(script, o.polls);
    var r := Trace(t.next, rest, 1);
    assert Trace(s, script, 2).visited[1..] == r.visited;
    if t.next == Cleanup {
      var o2 := TimedAction(rest);
      FailureReachesIdle(s, o2.status);
      var t2 := Next(Cleanup, o2.status);
      var step2 := StepResult(Some(o2.status), o2.polls, [Started(Cleanup)] + Lines(t2.report), t2.next);
      TraceUnfold(Cleanup, rest, 1, step2);
      assert r.visited[1] == Idle;
    } else {
      assert r.visited[0] == Idle;
    }
  }
}
