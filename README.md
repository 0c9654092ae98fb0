# Coffee machine controller, modelled in Dafny

`coffee_machine.cpp` is a console program that runs the controller of a
coffee machine through five states:

- **Preheat**, **Heat**, **EnablePump** and **Cleanup** each run a *bounded
  action*. The action announces itself and then polls the keyboard
  `ACTION_DURATION` (20) times. Pressing `f` or `F` aborts it with
  `STATUS_FAILED`. Otherwise it ends with `STATUS_OK`.
- **Idle** announces itself and polls until `c` or `C` is pressed, then
  returns `STATUS_OK`. It never fails.

`main` keeps the current state in a local variable. On every pass of its
endless loop it runs the state's action and feeds the returned status to a
`switch`. The `switch` picks the next state and may print a failure report.
A state value outside the enumeration falls into the `default` branch. That
branch reports the error and goes to Idle.

The model has these modules:

- `Keyboard` models the keyboard as a *script*: one optional key per poll.
  Polls past the end of the script find no key.
- `Machine` holds the enumerations and the transition table, as the pure
  function `Next`. `Unknown` stands for every state value outside the five
  enumerators.
- `Actions` defines the bounded action and the idle wait twice. One
  definition is a recursive specification function (`TimedAction`,
  `IdleOutcome`). The other is the polling loop as a method
  (`RunTimedAction`, `IdleWait`), proved equal to the specification.
- `Controller` models one pass of `main`'s loop, both as the function
  `StepSpec` and as the method `Step`. It also defines a finite run of
  passes, both as the function `Trace` and as the loop `RunController`. The
  printed lines are the values `Started(state)` and `Reported(report)`, and
  `Text` renders them.
- `Cycle` proves what several passes do: the brewing cycle, the failure
  paths and the absence of undefined states.

## Model

| member | source | states |
|---|---|---|
| Machine.Next | coffee_machine.cpp:199-280 | The next state is never undefined. A report is printed exactly when a bounded action failed or the state was unknown. A successful action always moves the machine to another state. A pending status leaves the state unchanged and prints nothing. In Idle, any status other than OK leaves the machine in Idle and prints nothing. A failed bounded action goes to Cleanup or Idle. |
| Machine.TransitionTable | coffee_machine.cpp:201-280 | Each row of the `switch`: the success and failure targets of every state, with the report each failure prints. A failed status leaves Idle in Idle with no report. Any status in an unknown state gives the error report and Idle. |
| Machine.FailureReachesIdle | coffee_machine.cpp:201-274 | After a bounded action fails, the machine is in Idle at once, or in Cleanup and then in Idle whatever Cleanup returns. A failing cleanup never re-enters Cleanup. |
| Machine.ReportTexts | coffee_machine.cpp:211-277 | The five reports print exactly "Preheat failed", "HEAT failed" (upper case, as the source writes it), "Enable pump failed", "Cleanup failed" and "ERROR: Unknown state". |
| Machine.ReportsDistinct | coffee_machine.cpp:211-277 | Two reports print the same text exactly when they are the same report. |
| Actions.AnnouncementNamesActivity | coffee_machine.cpp:62-168 | The line each bounded action prints is its activity ("Preheating", "Heating up", "Pumping water", "Cleaning up") followed by the same hint, ". Press F to cause a failure." |
| Actions.AbortHintOnlyWhenBounded | coffee_machine.cpp:62-168 | A state's line ends with the abort hint exactly when its action is a bounded one. The idle line, "Idling. Press C to make a coffee.", does not. |
| Actions.TimedFrom | coffee_machine.cpp:64-80 | From tick `i`, the action returns OK or FAILED and has made between `i` and 20 polls. OK means all 20 polls were made. FAILED means the last poll read an abort key. |
| Actions.TimedAction | coffee_machine.cpp:58-83 | A bounded action never returns PENDING and makes between 1 and 20 polls. |
| Actions.TimedActionOk | coffee_machine.cpp:58-83 | The action returns OK exactly when none of its 20 polls reads `f` or `F`, and then it has made all 20 polls. |
| Actions.TimedActionFailsAt | coffee_machine.cpp:64-79 | The action fails after `k + 1` polls exactly when poll `k` (below 20) is the first to read an abort key. |
| Actions.TimedActionDiscards | coffee_machine.cpp:68-79 | The outcome depends only on which of the first 20 polls read an abort key. Other keys are read and ignored. |
| Actions.RunTimedAction | coffee_machine.cpp:58-83 | The polling loop returns the status and poll count that `TimedAction` specifies. |
| Actions.IdleFrom | coffee_machine.cpp:91-105 | A wait that ends after `p` polls ends on a start key (`c` or `C`) at poll `p - 1`. |
| Actions.IdleOutcome | coffee_machine.cpp:85-108 | An idle wait that ends makes at least one poll and at most one poll per script entry. |
| Actions.IdleOutcomeFirstStart | coffee_machine.cpp:91-105 | The wait ends after `p` polls exactly when poll `p - 1` is the first start key. It never ends exactly when the script holds no start key. |
| Actions.IdleConsumesPrefix | coffee_machine.cpp:93-104 | Keys before the first start key are swallowed, so the wait ends right after that key. |
| Actions.IdleWait | coffee_machine.cpp:85-108 | If the script holds a start key, the idle loop returns OK after the polls `IdleOutcome` specifies. |
| Controller.LinesTellApart | coffee_machine.cpp:62-277 | Two printed lines have the same text exactly when they are the same line. The output shows which action started or which report was printed. |
| Controller.StepSpec | coffee_machine.cpp:196-282 | Only an idle pass can fail to end. A pass never leads to an undefined state. A bounded pass reports a status and makes 1 to 20 polls. |
| Controller.StepBlocks | coffee_machine.cpp:217-226 | A pass never ends exactly when the machine idles on a script without a start key. |
| Controller.Step | coffee_machine.cpp:199-280 | One pass of `main` (the action and then the `switch`) yields the result `StepSpec` specifies. |
| Controller.Trace | coffee_machine.cpp:196-282 | A run of `steps` passes starts in its initial state and visits at most `steps + 1` states. |
| Controller.ResumeAfterStep | coffee_machine.cpp:196-282 | One more pass recorded in the run so far, followed by the remaining trace, is still the same run. This is the invariant of the driver loop. |
| Controller.RunController | coffee_machine.cpp:193-282 | The driver loop from Preheat, bounded to `steps` passes, produces exactly `Trace(Preheat, script, steps)`. |
| Cycle.StepCompletes | coffee_machine.cpp:199-274 | A bounded pass with no abort key among its polls prints only its announcement, makes 20 polls and follows the success row. |
| Cycle.StepFailsAt | coffee_machine.cpp:199-274 | A bounded pass whose first abort key comes at poll `k` makes `k + 1` polls, prints its announcement and its failure report, and follows the failure row. |
| Cycle.IdleStepStarts | coffee_machine.cpp:217-226 | An idle pass waits through the keys before the first start key, consumes that key and moves to Heat. |
| Cycle.UnknownStepRecovers | coffee_machine.cpp:276-280 | An unknown state polls nothing, prints the error report and goes to Idle. |
| Cycle.PreheatUndisturbed | coffee_machine.cpp:58-83 | Preheating with no key pressed makes 20 polls and moves to Idle. |
| Cycle.PreheatAbortedAtTickFive | coffee_machine.cpp:201-215 | Preheating with an abort key on the sixth poll makes 6 polls, reports "Preheat failed" and moves to Cleanup. |
| Cycle.TraceCompletes | coffee_machine.cpp:196-274 | A bounded pass that completes is followed by the trace of its successor, on the script without the 20 polls it made. |
| Cycle.CleanupRests | coffee_machine.cpp:260-274 | From Cleanup, one pass without an abort key returns to Idle. |
| Cycle.PumpRests | coffee_machine.cpp:244-274 | From EnablePump, two passes without an abort key clean up and return to Idle. |
| Cycle.HeatRests | coffee_machine.cpp:228-274 | From Heat, three passes without an abort key heat, pump, clean up and return to Idle. |
| Cycle.IdleBrews | coffee_machine.cpp:217-274 | From Idle, a start key after `p` polls followed by three calm actions gives the full brew: four passes back to Idle, `p + 60` polls. |
| Cycle.HappyCycle | coffee_machine.cpp:193-274 | From Preheat, a script with no abort key during the actions and a start key after `p` idle polls visits Preheat, Idle, Heat, EnablePump, Cleanup and Idle. It consumes `80 + p` polls and prints the five announcements and no report. |
| Cycle.TraceStaysDefined | coffee_machine.cpp:196-282 | After its first state, a run never visits an undefined state. |
| Cycle.FailureComesToRest | coffee_machine.cpp:201-274 | After a bounded action fails, Idle is among the states of the next two passes. |

## Left out

- Terminal handling in `kbhit` (coffee_machine.cpp:30-55), that is non-canonical mode, non-blocking reads and `ungetc`: each poll is one script entry, and polls past the end find no key.
- The 100 ms sleep before each poll of a bounded action: timing is not modelled, only the count of polls.
- Output formatting: `Text` gives the content of each announcement and report. The blank line `endl` prints before a failure report is not modelled.
- The endless `while(1)` of `main`: `Trace` and `RunController` run a given number of passes.
- Controller.Trace: an idle wait on a script without a start key never returns. The model stops the run there, counts the announcement as printed and the whole rest of the script as consumed.
- Actions.IdleWait: requires a start key in the script, because the idle loop would otherwise poll forever. `Actions.IdleOutcome` returns `None` for that case.
- The `status` variable of `main`: it is overwritten on every pass and its initial `STATUS_FAILED` is never read, so a pass carries its own status. An unknown state runs no action and has no status.
- State values: the model gathers every value of `state_t` other than the five enumerators in `Unknown`, which the program itself never reaches (`Cycle.TraceStaysDefined`).
- A `STATUS_PENDING` returned by a bounded action: no branch handles it, so `Next` leaves the state unchanged. No action returns it.
- Controller.StepSpec: its own contract gives only the shape of a pass. The Cycle lemmas give the full result of each kind of pass.
