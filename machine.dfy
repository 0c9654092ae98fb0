/**
 * The enumerations of the controller and its transition table: the `switch`
 * over the current state that decides, from the status the state's action
 * returned, which state runs next and which failure report is printed.
 */
module Machine {
  import opened Wrappers

  /** What an action returns; `StatusPending` is the idle wait's initial value. */
  datatype Status = StatusOk | StatusPending | StatusFailed

  /**
   * The machine states. `Unknown` stands for any value of the state variable
   * outside the five enumerators, the case the `default` branch guards.
   */
  datatype State = Preheat | Idle | Heat | EnablePump | Cleanup | Unknown
  {
    /** The four states whose action is the bounded, abortable timed action. */
    predicate Bounded()
    {
      this == Preheat || this == Heat || this == EnablePump || this == Cleanup
    }
  }

  /** The lines the controller prints when it leaves a state because of an error. */
  datatype Report = PreheatFailed | HeatFailed | EnablePumpFailed | CleanupFailed | UnknownState

  /** The text of each report, as printed. */
  function ReportText(r: Report): string
  {
    match r
    case PreheatFailed => "Preheat failed"
    case HeatFailed => "HEAT failed"
    case EnablePumpFailed => "Enable pump failed"
    case CleanupFailed => "Cleanup failed"
    case UnknownState => "ERROR: Unknown state"
  }

  /** The text of every report, as the controller prints it. */
  lemma ReportTexts()
    ensures ReportText(PreheatFailed) == "Preheat failed"
    ensures ReportText(HeatFailed) == "HEAT failed"
    ensures ReportText(EnablePumpFailed) == "Enable pump failed"
    ensures ReportText(CleanupFailed) == "Cleanup failed"
    ensures ReportText(UnknownState) == "ERROR: Unknown state"
  {
  }

  /** Each report is told apart from the others by its text alone. */
  lemma ReportsDistinct(a: Report, b: Report)
    ensures ReportText(a) == ReportText(b) <==> a == b
  {
  }

  /** The next state, and the report printed on the way, if any. */
  datatype Transition = Transition(next: State, report: Option<Report>)

  /**
   * One pass through the `switch`: the status is the one the action of `s`
   * returned (it is not consulted for an unknown state, which runs no action).
   * A status that no branch tests leaves the state as it was.
   */
  function Next(s: State, st: Status): (t: Transition)
    // the machine never lands in an undefined state
    ensures t.next != Unknown
    // a report is printed exactly on a failed bounded action and on an unknown state
    ensures t.report.Some? <==> s == Unknown || (s.Bounded() && st == StatusFailed)
    // a successful action always moves the machine on
    ensures s != Unknown && st == StatusOk ==> t.next != s
    // a pending status never moves the machine
    ensures s != Unknown && st == StatusPending ==> t == Transition(s, None)
    // only a success moves the machine out of Idle
    ensures s == Idle && st != StatusOk ==> t == Transition(Idle, None)
    // every failure is routed to a resting or cleaning state
    ensures s.Bounded() && st == StatusFailed ==> t.next == Cleanup || t.next == Idle
  {
    match s
    case Preheat =>
      if st == StatusOk then Transition(Idle, None)
      else if st == StatusFailed then Transition(Cleanup, Some(PreheatFailed))
      else Transition(s, None)
    case Idle =>
      // idle is assumed never to fail: only a success moves on
      if st == StatusOk then Transition(Heat, None) else Transition(s, None)
    case Heat =>
      if st == StatusOk then Transition(EnablePump, None)
      else if st == StatusFailed then Transition(Cleanup, Some(HeatFailed))
      else Transition(s, None)
    case EnablePump =>
      if st == StatusOk then Transition(Cleanup, None)
      else if st == StatusFailed then Transition(Cleanup, Some(EnablePumpFailed))
      else Transition(s, None)
    case Cleanup =>
      if st == StatusOk then Transition(Idle, None)
      else if st == StatusFailed then Transition(Idle, Some(CleanupFailed))
      else Transition(s, None)
    case Unknown =>
      Transition(Idle, Some(UnknownState))
  }

  /** The transition table, row by row, for the statuses the actions return. */
  lemma TransitionTable()
    ensures Next(Preheat, StatusOk) == Transition(Idle, None)
    ensures Next(Preheat, StatusFailed) == Transition(Cleanup, Some(PreheatFailed))
    ensures Next(Idle, StatusOk) == Transition(Heat, None)
    ensures Next(Idle, StatusFailed) == Transition(Idle, None)
    ensures Next(Heat, StatusOk) == Transition(EnablePump, None)
    ensures Next(Heat, StatusFailed) == Transition(Cleanup, Some(HeatFailed))
    ensures Next(EnablePump, StatusOk) == Transition(Cleanup, None)
    ensures Next(EnablePump, StatusFailed) == Transition(Cleanup, Some(EnablePumpFailed))
    ensures Next(Cleanup, StatusOk) == Transition(Idle, None)
    ensures Next(Cleanup, StatusFailed) == Transition(Idle, Some(CleanupFailed))
    ensures forall st :: Next(Unknown, st) == Transition(Idle, Some(UnknownState))
  {
  }

  /**
   * A failed bounded action brings the machine back to Idle within two
   * transitions, whatever the cleanup that may follow returns: a failing
   * cleanup does not re-enter Cleanup.
   */
  lemma FailureReachesIdle(s: State, st: Status)
    requires s.Bounded() && st != StatusPending
    ensures var t := Next(s, StatusFailed).next;
            t == Idle || (t == Cleanup && Next(t, st).next == Idle)
  {
  }
}
