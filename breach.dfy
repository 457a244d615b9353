/**
 * The breach tracker and alert gate shared by the memory and disk loops
 * (internals/monitor/mem.go and internals/monitor/disk.go carry the same
 * code). One loop iteration reads a utilisation value, compares it strictly
 * with the threshold, records when a breach began, measures how long it has
 * lasted, attempts an alert once that reaches the grace period and re-arms
 * after every attempt.
 */
module Breach {
  import opened Wrappers

  /** The loop's two local variables: `breachActive` and `breachStart`. */
  datatype State = State(active: bool, start: int)

  /** `breachStart := time.Time{}` (read as clock value 0), `breachActive := false`. */
  const Idle: State := State(false, 0)

  /**
   * One successful sample: the utilisation reading, the clock value that
   * `time.Now()` gives when a breach starts on this iteration, the clock value
   * read inside `time.Since`, and whether `sendAlert` would succeed.
   */
  datatype Sample = Sample(usage: real, now: int, since: int, sendOk: bool)

  /** What the iteration did about alerting: nothing, or an attempt and its outcome. */
  datatype Alert = NoAlert | Sent | Failed

  /**
   * The iteration's effect: the new state, the breach duration it logged
   * (only on a breaching reading), the alert attempt, and whether it logged
   * "returned to normal".
   */
  datatype Outcome = Outcome(next: State, duration: Option<int>, alert: Alert, recovered: bool)

  /** The configured threshold and the grace period (`alertThreshold`) in clock units. */
  datatype Limits = Limits(threshold: real, grace: int)

  predicate Breaching(lim: Limits, x: Sample) {
    x.usage > lim.threshold
  }

  /** One iteration of the threshold check. */
  function Step(lim: Limits, st: State, x: Sample): Outcome {
    if Breaching(lim, x) then
      var start := if st.active then st.start else x.now;
      var duration := x.since - start;
      if duration >= lim.grace then
        Outcome(State(false, start), Some(duration), if x.sendOk then Sent else Failed, false)
      else
        Outcome(State(true, start), Some(duration), NoAlert, false)
    else
      Outcome(State(false, st.start), None, NoAlert, st.active)
  }

  /** The state after running the loop over `xs` from the initial state. */
  function After(lim: Limits, xs: seq<Sample>): State
    decreases |xs|
  {
    if xs == [] then Idle
    else Step(lim, After(lim, xs[..|xs| - 1]), xs[|xs| - 1]).next
  }

  /** What iteration `k` of a run over `xs` does. */
  function StepAt(lim: Limits, xs: seq<Sample>, k: nat): Outcome
    requires k < |xs|
  {
    Step(lim, After(lim, xs[..k]), xs[k])
  }

  /** The clock never goes back: within an iteration and from one iteration to the next. */
  ghost predicate MonotoneClock(xs: seq<Sample>) {
    && (forall i :: 0 <= i < |xs| ==> xs[i].now <= xs[i].since)
    && (forall i, j :: 0 <= i < j < |xs| ==> xs[i].since <= xs[j].now)
  }

  // ---------------------------------------------------------------------
  // One iteration

  /** A reading strictly above the threshold while inactive starts a breach now. */
  lemma RisingEdge(lim: Limits, st: State, x: Sample)
    requires !st.active && x.usage > lim.threshold
    ensures Step(lim, st, x).next.start == x.now
    ensures Step(lim, st, x).duration == Some(x.since - x.now)
    ensures Step(lim, st, x).next.active <==> x.since - x.now < lim.grace
  {
  }

  /** A reading equal to the threshold is no breach: no duration, no alert, inactive. */
  lemma AtThresholdIsNormal(lim: Limits, st: State, x: Sample)
    requires x.usage == lim.threshold
    ensures Step(lim, st, x) == Outcome(State(false, st.start), None, NoAlert, st.active)
  {
  }

  /** An ongoing breach keeps its start; the duration is measured from it. */
  lemma OngoingKeepsStart(lim: Limits, st: State, x: Sample)
    requires st.active && Breaching(lim, x)
    ensures Step(lim, st, x).next.start == st.start
    ensures Step(lim, st, x).duration == Some(x.since - st.start)
  {
  }

  /** An alert is attempted exactly when the reading breaches and the duration reaches the grace. */
  lemma AlertGate(lim: Limits, st: State, x: Sample)
    ensures Step(lim, st, x).alert != NoAlert
        <==> Breaching(lim, x) && Step(lim, st, x).duration.Some? && Step(lim, st, x).duration.value >= lim.grace
    ensures Step(lim, st, x).duration.Some? <==> Breaching(lim, x)
  {
  }

  /** With a grace of zero the first breaching reading already alerts. */
  lemma ZeroGraceAlertsAtOnce(lim: Limits, st: State, x: Sample)
    requires lim.grace <= 0 && !st.active && Breaching(lim, x) && x.now <= x.since
    ensures Step(lim, st, x).alert != NoAlert
  {
  }

  /** After any alert attempt the tracker is inactive, and the send outcome changes no state. */
  lemma RearmAlways(lim: Limits, st: State, x: Sample)
    ensures Step(lim, st, x).alert != NoAlert ==> !Step(lim, st, x).next.active
    ensures Step(lim, st, x).alert == Sent <==> Step(lim, st, x).alert != NoAlert && x.sendOk
    ensures Step(lim, st, x).next == Step(lim, st, x.(sendOk := !x.sendOk)).next
  {
  }

  /** A normal reading leaves the tracker inactive; it reports recovery only from an active state. */
  lemma Recovery(lim: Limits, st: State, x: Sample)
    requires !Breaching(lim, x)
    ensures !Step(lim, st, x).next.active
    ensures Step(lim, st, x).recovered <==> st.active
    ensures Step(lim, st, x).alert == NoAlert
  {
  }

  /** Only the first of two normal readings in a row can report recovery. */
  lemma RecoveryIsReportedOnce(lim: Limits, st: State, x: Sample, y: Sample)
    requires !Breaching(lim, x) && !Breaching(lim, y)
    ensures !Step(lim, Step(lim, st, x).next, y).recovered
    ensures !Step(lim, Step(lim, st, x).next, y).next.active
  {
  }

  // ---------------------------------------------------------------------
  // Runs over a sequence of samples

  /** A run over a longer sequence agrees with a run over its prefix. */
  lemma StepAtPrefix(lim: Limits, xs: seq<Sample>, n: nat, k: nat)
    requires k < n <= |xs|
    ensures StepAt(lim, xs[..n], k) == StepAt(lim, xs, k)
  {
    assert xs[..n][..k] == xs[..k];
  }

  /** Running one more sample leaves the earlier iterations as they were and steps from the last state. */
  lemma StepAtExtend(lim: Limits, xs: seq<Sample>, x: Sample)
    ensures forall k :: 0 <= k < |xs| ==> StepAt(lim, xs + [x], k) == StepAt(lim, xs, k)
    ensures StepAt(lim, xs + [x], |xs|) == Step(lim, After(lim, xs), x)
    ensures After(lim, xs + [x]) == Step(lim, After(lim, xs), x).next
  {
    var ys := xs + [x];
    assert ys[..|xs|] == xs;
    forall k | 0 <= k < |xs| ensures StepAt(lim, ys, k) == StepAt(lim, xs, k) {
      StepAtPrefix(lim, ys, |xs|, k);
    }
  }

  /** The state after `k + 1` samples is the state iteration `k` produced. */
  lemma AfterStep(lim: Limits, xs: seq<Sample>, k: nat)
    requires k < |xs|
    ensures After(lim, xs[..k + 1]) == StepAt(lim, xs, k).next
  {
    assert xs[..k + 1][..k] == xs[..k];
  }

  /**
   * Where the breach in progress after `xs` began: the index of its rising
   * edge, or `|xs|` when no breach is in progress.
   */
  ghost function CycleStart(lim: Limits, xs: seq<Sample>): (c: nat)
    ensures c <= |xs|
    decreases |xs|
  {
    if xs == [] || !After(lim, xs).active then |xs|
    else if After(lim, xs[..|xs| - 1]).active then CycleStart(lim, xs[..|xs| - 1])
    else |xs| - 1
  }

  /**
   * A breach in progress began at a rising edge from an inactive state, at
   * that sample's clock, and every sample since breached without an alert.
   */
  lemma {:induction false} CycleFacts(lim: Limits, xs: seq<Sample>)
    ensures var c := CycleStart(lim, xs);
      After(lim, xs).active ==>
        && c < |xs|
        && !After(lim, xs[..c]).active
        && After(lim, xs).start == xs[c].now
        && forall k :: c <= k < |xs| ==>
             Breaching(lim, xs[k]) && StepAt(lim, xs, k).alert == NoAlert && StepAt(lim, xs, k).next.active
    decreases |xs|
  {
    if xs != [] && After(lim, xs).active {
      var n := |xs| - 1;
      var before := After(lim, xs[..n]);
      assert After(lim, xs) == StepAt(lim, xs, n).next;
      if before.active {
        CycleFacts(lim, xs[..n]);
        var c := CycleStart(lim, xs[..n]);
        assert xs[..n][..c] == xs[..c];
        forall k | c <= k < n
          ensures Breaching(lim, xs[k]) && StepAt(lim, xs, k).alert == NoAlert && StepAt(lim, xs, k).next.active
        {
          StepAtPrefix(lim, xs, n, k);
        }
      }
    }
  }

  /**
   * Samples `c..j` form one alert cycle: the tracker was inactive before `c`,
   * every sample from `c` to `j` breached, none before `j` attempted an alert,
   * and iteration `j` measured its duration from sample `c`'s clock.
   */
  ghost predicate AlertCycle(lim: Limits, xs: seq<Sample>, c: nat, j: nat)
    requires c <= j < |xs|
  {
    && !After(lim, xs[..c]).active
    && (forall k :: c <= k <= j ==> Breaching(lim, xs[k]))
    && (forall k :: c <= k < j ==> StepAt(lim, xs, k).alert == NoAlert)
    && StepAt(lim, xs, j).duration == Some(xs[j].since - xs[c].now)
  }

  /**
   * The debounce: an alert attempt at iteration `j` closes an alert cycle
   * whose elapsed time since its first sample reached the grace period.
   */
  lemma AlertNeedsSustainedBreach(lim: Limits, xs: seq<Sample>, j: nat)
    requires j < |xs| && StepAt(lim, xs, j).alert != NoAlert
    ensures exists c: nat :: c <= j && AlertCycle(lim, xs, c, j) && xs[j].since - xs[c].now >= lim.grace
  {
    var before := After(lim, xs[..j]);
    if before.active {
      CycleFacts(lim, xs[..j]);
      var c := CycleStart(lim, xs[..j]);
      assert xs[..j][..c] == xs[..c];
      forall k | c <= k < j
        ensures Breaching(lim, xs[k]) && StepAt(lim, xs, k).alert == NoAlert
      {
        StepAtPrefix(lim, xs, j, k);
      }
      assert StepAt(lim, xs, j).duration == Some(xs[j].since - xs[c].now);
      assert AlertCycle(lim, xs, c, j);
    } else {
      assert StepAt(lim, xs, j).duration == Some(xs[j].since - xs[j].now);
      assert AlertCycle(lim, xs, j, j);
    }
  }

  /** Re-arm: a breaching sample right after an alert attempt restarts the timer at its own clock. */
  lemma RearmRestartsTimer(lim: Limits, xs: seq<Sample>, k: nat)
    requires k + 1 < |xs| && StepAt(lim, xs, k).alert != NoAlert && Breaching(lim, xs[k + 1])
    ensures StepAt(lim, xs, k + 1).duration == Some(xs[k + 1].since - xs[k + 1].now)
  {
    AfterStep(lim, xs, k);
  }

  /** While the tracker stays active, every later iteration enters with the start it was left with. */
  lemma {:induction false} StartHeld(lim: Limits, xs: seq<Sample>, i: nat, j: nat)
    requires i < j < |xs|
    requires forall k :: i <= k < j ==> StepAt(lim, xs, k).next.active
    ensures After(lim, xs[..j]) == State(true, StepAt(lim, xs, i).next.start)
    decreases j - i
  {
    AfterStep(lim, xs, j - 1);
    if i < j - 1 {
      StartHeld(lim, xs, i, j - 1);
      assert StepAt(lim, xs, j - 1) == Step(lim, After(lim, xs[..j - 1]), xs[j - 1]);
    }
  }

  /**
   * Under a monotone clock, the logged duration never decreases along a
   * breach that is neither re-armed nor recovered in between.
   */
  lemma DurationNonDecreasing(lim: Limits, xs: seq<Sample>, i: nat, j: nat)
    requires i <= j < |xs| && MonotoneClock(xs)
    requires forall k :: i <= k < j ==> StepAt(lim, xs, k).next.active
    requires Breaching(lim, xs[i]) && Breaching(lim, xs[j])
    ensures StepAt(lim, xs, i).duration.Some? && StepAt(lim, xs, j).duration.Some?
    ensures StepAt(lim, xs, i).duration.value <= StepAt(lim, xs, j).duration.value
  {
    if i < j {
      var s := StepAt(lim, xs, i).next.start;
      StartHeld(lim, xs, i, j);
      assert StepAt(lim, xs, j) == Step(lim, State(true, s), xs[j]);
      assert xs[i].since <= xs[j].now;
    }
  }

  // ---------------------------------------------------------------------
  // The documented scenarios

  /** Threshold 80, grace 30, readings 85, 87, 90, 92 at t = 0, 10, 20, 30: only the last alerts. */
  lemma ScenarioSustainedBreach()
    ensures var lim := Limits(80.0, 30);
      var xs := [Sample(85.0, 0, 0, true), Sample(87.0, 10, 10, true),
                 Sample(90.0, 20, 20, true), Sample(92.0, 30, 30, true)];
      && StepAt(lim, xs, 0).alert == NoAlert
      && StepAt(lim, xs, 1).alert == NoAlert
      && StepAt(lim, xs, 2).alert == NoAlert
      && StepAt(lim, xs, 3) == Outcome(State(false, 0), Some(30), Sent, false)
  {
    var lim := Limits(80.0, 30);
    var xs := [Sample(85.0, 0, 0, true), Sample(87.0, 10, 10, true),
               Sample(90.0, 20, 20, true), Sample(92.0, 30, 30, true)];
    AfterStep(lim, xs, 0);
    AfterStep(lim, xs, 1);
    AfterStep(lim, xs, 2);
  }

  /** Threshold 80, readings 85, 70, 90: breach, recovery, and a fresh breach of duration 0. */
  lemma ScenarioRecoveryAndNewBreach()
    ensures var lim := Limits(80.0, 30);
      var xs := [Sample(85.0, 0, 0, true), Sample(70.0, 10, 10, true), Sample(90.0, 20, 20, true)];
      && StepAt(lim, xs, 0) == Outcome(State(true, 0), Some(0), NoAlert, false)
      && StepAt(lim, xs, 1) == Outcome(State(false, 0), None, NoAlert, true)
      && StepAt(lim, xs, 2) == Outcome(State(true, 20), Some(0), NoAlert, false)
  {
    var lim := Limits(80.0, 30);
    var xs := [Sample(85.0, 0, 0, true), Sample(70.0, 10, 10, true), Sample(90.0, 20, 20, true)];
    AfterStep(lim, xs, 0);
    AfterStep(lim, xs, 1);
  }

  /**
   * With a grace of zero a normal reading can fall between two alert
   * attempts: the run that leads to an alert is the one since the last
   * re-arm or recovery, not the whole stretch since the previous alert.
   */
  lemma NormalReadingBetweenAlerts()
    ensures var lim := Limits(80.0, 0);
      var xs := [Sample(90.0, 0, 0, true), Sample(50.0, 5, 5, true), Sample(90.0, 10, 10, true)];
      && StepAt(lim, xs, 0).alert == Sent
      && !Breaching(lim, xs[1])
      && StepAt(lim, xs, 2).alert == Sent
  {
    var lim := Limits(80.0, 0);
    var xs := [Sample(90.0, 0, 0, true), Sample(50.0, 5, 5, true), Sample(90.0, 10, 10, true)];
    AfterStep(lim, xs, 0);
    AfterStep(lim, xs, 1);
  }
}
