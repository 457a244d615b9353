/**
 * What the memory and disk monitor loops share around the breach tracker:
 * the configuration they read, the way they end, and the samples they feed
 * to the tracker.
 */
module Loop {
  import opened Wrappers
  import opened Breach

  /**
   * The configuration fields the loops read. `grace` is `alertThreshold`
   * after its conversion to a duration, in the same clock units as the
   * samples' clock values.
   */
  datatype Config = Config(ramThreshold: real, diskThreshold: real, grace: int)

  /**
   * How a loop ends: the logger could not be created, there was no
   * configuration, a utilisation read failed, or (the loop being endless)
   * it is still running when the modelled samples run out.
   */
  datatype Exit = LoggerFailed | ConfigMissing | SamplingFailed | Running

  /**
   * One iteration's inputs from the outside world: the utilisation read
   * (`None` when it fails), the two clock values and the outcome of
   * `sendAlert` should it be called.
   */
  datatype Tick = Tick(usage: Option<real>, now: int, since: int, sendOk: bool)

  /** The sample a successful read gives the tracker. */
  function ToSample(t: Tick): Sample
    requires t.usage.Some?
  {
    Sample(t.usage.value, t.now, t.since, t.sendOk)
  }

  /**
   * The threshold check both loops run after a successful read, on their
   * local `breachActive` and `breachStart`: the tracker's `Step`.
   */
  method CheckThreshold(threshold: real, grace: int, active: bool, start: int, t: Tick)
    returns (breachActive: bool, breachStart: int, duration: Option<int>, alert: Alert, recovered: bool)
    requires t.usage.Some?
    ensures Outcome(State(breachActive, breachStart), duration, alert, recovered)
         == Step(Limits(threshold, grace), State(active, start), ToSample(t))
  {
    breachActive, breachStart := active, start;
    duration, alert, recovered := None, NoAlert, false;
    if t.usage.value > threshold {
      if !breachActive {
        breachStart := t.now;
        breachActive := true;
      }
      var breachDuration := t.since - breachStart;
      duration := Some(breachDuration);
      if breachDuration >= grace {
        alert := if t.sendOk then Sent else Failed;
        breachActive := false;
      }
    } else {
      if breachActive {
        recovered := true;
        breachActive := false;
      }
    }
  }
}
