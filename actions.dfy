/**
 * The actions the states run. `preheat`, `heat`, `enablePump` and `cleanup`
 * are one and the same bounded, abortable timed action that differ only in
 * the line they print first; `idle` waits, without a time limit, for the
 * start key.
 */
module Actions {
  import opened Wrappers
  import opened Keyboard
  import opened Machine

  /** Number of ticks (100 ms each) a bounded action lasts. */
  const ActionDuration: nat := 20

  /** The status an action returns and how many polls it made to get there. */
  datatype Outcome = Outcome(status: Status, polls: nat)

  /** The hint that ends the first line of every bounded action. */
  const AbortHint: string := ". Press F to cause a failure."

  predicate EndsWith(line: string, hint: string)
  {
    |hint| <= |line| && line[|line| - |hint|..] == hint
  }

  /** What a bounded action says it is doing. */
  function Activity(s: State): string
    requires s.Bounded()
  {
    match s
    case Preheat => "Preheating"
    case Heat => "Heating up"
    case EnablePump => "Pumping water"
    case Cleanup => "Cleaning up"
  }

  /**
   * The line each state's action prints when it starts, one literal per
   * action as the source writes them.
   */
  function Announcement(s: State): string
    requires s != Unknown
  {
    match s
    case Preheat => "Preheating. Press F to cause a failure."
    case Idle => "Idling. Press C to make a coffee."
    case Heat => "Heating up. Press F to cause a failure."
    case EnablePump => "Pumping water. Press F to cause a failure."
    case Cleanup => "Cleaning up. Press F to cause a failure."
  }

  // One lemma per bounded action: each literal compared with its parts is a
  // sizeable proof on its own.

  lemma PreheatAnnounced()
    ensures Announcement(Preheat) == Activity(Preheat) + AbortHint
  {
  }

  lemma HeatAnnounced()
    ensures Announcement(Heat) == Activity(Heat) + AbortHint
  {
  }

  lemma EnablePumpAnnounced()
    ensures Announcement(EnablePump) == Activity(EnablePump) + AbortHint
  {
  }

  lemma CleanupAnnounced()
    ensures Announcement(Cleanup) == Activity(Cleanup) + AbortHint
  {
  }

  /**
   * Every bounded action names what it is doing and tells the operator how
   * to abort it, in the same words.
   */
  lemma AnnouncementNamesActivity(s: State)
    requires s.Bounded()
    ensures Announcement(s) == Activity(s) + AbortHint
    ensures EndsWith(Announcement(s), AbortHint)
  {
    match s {
      case Preheat => PreheatAnnounced();
      case Heat => HeatAnnounced();
      case EnablePump => EnablePumpAnnounced();
      case Cleanup => CleanupAnnounced();
    }
    var line := Announcement(s);
    assert line[|line| - |AbortHint|..] == AbortHint;
  }

  /** Only the idle line omits the abort hint: the idle wait cannot be aborted. */
  lemma AbortHintOnlyWhenBounded(s: State)
    requires s != Unknown
    ensures EndsWith(Announcement(s), AbortHint) <==> s.Bounded()
  {
    if s.Bounded() {
      AnnouncementNamesActivity(s);
    } else {
      var line := Announcement(s);
      assert line[|line| - |AbortHint|..] != AbortHint by {
        assert line[|line| - |AbortHint| + 8] != AbortHint[8];
      }
    }
  }

  // ----- the bounded timed action -----

  /**
   * The bounded action from tick `i` on: the first tick whose poll reads the
   * abort key ends it as failed; if none does it succeeds when the ticks run out.
   */
  function TimedFrom(script: Script, i: nat): (o: Outcome)
    requires i <= ActionDuration
    ensures o.status == StatusOk || o.status == StatusFailed
    ensures i <= o.polls <= ActionDuration
    ensures o.status == StatusOk ==> o.polls == ActionDuration
    ensures o.status == StatusFailed ==> i < o.polls && AbortAt(script, o.polls - 1)
    decreases ActionDuration - i
  {
    if i == ActionDuration then Outcome(StatusOk, ActionDuration)
    else if AbortAt(script, i) then Outcome(StatusFailed, i + 1)
    else TimedFrom(script, i + 1)
  }

  /** What a bounded action started on `script` returns. */
  function TimedAction(script: Script): (o: Outcome)
    ensures o.status != StatusPending
    ensures 1 <= o.polls <= ActionDuration
  {
    TimedFrom(script, 0)
  }

  lemma {:induction false} TimedFromOk(script: Script, i: nat)
    requires i <= ActionDuration
    ensures TimedFrom(script, i).status == StatusOk
            <==> forall k :: i <= k < ActionDuration ==> !AbortAt(script, k)
    decreases ActionDuration - i
  {
    if i < ActionDuration {
      TimedFromOk(script, i + 1);
    }
  }

  lemma {:induction false} TimedFromFailsAt(script: Script, i: nat, k: nat)
    requires i <= k < ActionDuration
    ensures TimedFrom(script, i) == Outcome(StatusFailed, k + 1)
            <==> AbortAt(script, k) && forall j :: i <= j < k ==> !AbortAt(script, j)
    decreases k - i
  {
    if i < k {
      TimedFromFailsAt(script, i + 1, k);
    }
  }

  lemma {:induction false} TimedFromDiscards(a: Script, b: Script, i: nat)
    requires i <= ActionDuration
    requires forall k :: i <= k < ActionDuration ==> AbortAt(a, k) == AbortAt(b, k)
    ensures TimedFrom(a, i) == TimedFrom(b, i)
    decreases ActionDuration - i
  {
    if i < ActionDuration {
      TimedFromDiscards(a, b, i + 1);
    }
  }

  /**
   * A bounded action succeeds exactly when none of its twenty polls reads the
   * abort key, and then it has made all twenty polls.
   */
  lemma TimedActionOk(script: Script)
    ensures TimedAction(script).status == StatusOk
            <==> forall k :: 0 <= k < ActionDuration ==> !AbortAt(script, k)
    ensures TimedAction(script).status == StatusOk ==> TimedAction(script).polls == ActionDuration
  {
    TimedFromOk(script, 0);
  }

  /**
   * A bounded action fails after exactly `k + 1` polls exactly when poll `k`
   * is the first to read the abort key.
   */
  lemma TimedActionFailsAt(script: Script, k: nat)
    requires k < ActionDuration
    ensures TimedAction(script) == Outcome(StatusFailed, k + 1)
            <==> AbortAt(script, k) && forall j :: 0 <= j < k ==> !AbortAt(script, j)
  {
    TimedFromFailsAt(script, 0, k);
  }

  /**
   * Only where the abort key is pressed matters: empty polls and other keys
   * are discarded, so two scripts that agree on the abort key over the
   * twenty ticks give the same outcome.
   */
  lemma TimedActionDiscards(a: Script, b: Script)
    requires forall k :: 0 <= k < ActionDuration ==> AbortAt(a, k) == AbortAt(b, k)
    ensures TimedAction(a) == TimedAction(b)
  {
    TimedFromDiscards(a, b, 0);
  }

  /**
   * The bounded action: one poll per tick, ending early as failed on the
   * abort key and as a success when the ticks run out.
   */
  method RunTimedAction(script: Script) returns (status: Status, polls: nat)
    ensures Outcome(status, polls) == TimedAction(script)
  {
    status := StatusOk;
    polls := 0;
    var i := 0;
    while i < ActionDuration
      invariant i <= ActionDuration && polls == i && status == StatusOk
      invariant TimedFrom(script, i) == TimedAction(script)
    {
      // the tick's sleep is not modelled; one poll per tick
      var key := Poll(script, i);
      polls := polls + 1;
      if key.Some? && IsAbortKey(key.value) {
        status := StatusFailed;
        break;
      }
      i := i + 1;
    }
  }

  // ----- the idle wait -----

  /**
   * The idle wait from poll `i` on: the number of polls made when the start
   * key is read, or `None` if the script ends first (the wait never ends).
   */
  function IdleFrom(script: Script, i: nat): (r: Option<nat>)
    ensures r.Some? ==> i < r.value <= |script| && StartAt(script, r.value - 1)
    decreases |script| - i
  {
    if |script| <= i then None
    else if StartAt(script, i) then Some(i + 1)
    else IdleFrom(script, i + 1)
  }

  /** What the idle wait started on `script` returns: the polls it made. */
  function IdleOutcome(script: Script): (r: Option<nat>)
    ensures r.Some? ==> 1 <= r.value <= |script|
  {
    IdleFrom(script, 0)
  }

  lemma {:induction false} IdleFromFinds(script: Script, i: nat, p: nat)
    requires i < p <= |script|
    ensures IdleFrom(script, i) == Some(p)
            <==> StartAt(script, p - 1) && forall j :: i <= j < p - 1 ==> !StartAt(script, j)
    decreases p - i
  {
    if i < p - 1 {
      IdleFromFinds(script, i + 1, p);
    }
  }

  lemma {:induction false} IdleFromWaits(script: Script, i: nat)
    ensures IdleFrom(script, i) == None
            <==> forall j :: i <= j < |script| ==> !StartAt(script, j)
    decreases |script| - i
  {
    if i < |script| {
      IdleFromWaits(script, i + 1);
    }
  }

  /**
   * The idle wait ends after `p` polls exactly when poll `p - 1` is the first
   * to read the start key; it never ends when the start key does not come.
   */
  lemma IdleOutcomeFirstStart(script: Script, p: nat)
    ensures IdleOutcome(script) == Some(p)
            <==> 1 <= p <= |script| && StartAt(script, p - 1)
                 && forall j :: 0 <= j < p - 1 ==> !StartAt(script, j)
    ensures IdleOutcome(script) == None <==> !HasStartKey(script)
  {
    IdleFromWaits(script, 0);
    if 1 <= p <= |script| {
      IdleFromFinds(script, 0, p);
    }
  }

  /**
   * Any keys other than the start key, then the start key: the wait consumes
   * exactly that prefix of the script and leaves the rest.
   */
  lemma IdleConsumesPrefix(keys: Script, c: char, rest: Script)
    requires forall j :: 0 <= j < |keys| ==> !StartAt(keys, j)
    requires IsStartKey(c)
    ensures IdleOutcome(keys + [Some(c)] + rest) == Some(|keys| + 1)
  {
    var script := keys + [Some(c)] + rest;
    forall j | 0 <= j < |keys|
      ensures !StartAt(script, j)
    {
      assert !StartAt(keys, j);
      assert j < |script| && script[j] == keys[j];
      assert Poll(script, j) == Poll(keys, j);
    }
    assert Poll(script, |keys|) == Some(c);
    IdleOutcomeFirstStart(script, |keys| + 1);
  }

  /**
   * The idle wait: polls until the start key is read. There is no failure
   * path; other keys are discarded.
   */
  method IdleWait(script: Script) returns (status: Status, polls: nat)
    requires HasStartKey(script)
    ensures status == StatusOk
    ensures IdleOutcome(script) == Some(polls)
  {
    status := StatusPending;
    IdleOutcomeFirstStart(script, 0);
    var i := 0;
    while true
      invariant IdleFrom(script, i) == IdleOutcome(script) != None
      decreases |script| - i
    {
      var key := Poll(script, i);
      if key.Some? && IsStartKey(key.value) {
        status := StatusOk;
        polls := i + 1;
        break;
      }
      i := i + 1;
    }
  }
}
