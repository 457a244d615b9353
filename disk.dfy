/**
 * The disk monitor of internals/monitor/disk.go: each iteration reads the
 * root partition's utilisation and runs the shared breach tracker against
 * `DiskThreshold`.
 */
module Disk {
  import opened Wrappers
  import opened Breach
  import opened Loop

  /** The tracker's samples from the first `n` ticks, all of whose reads succeeded. */
  function DiskSamples(ticks: seq<Tick>, n: nat): (xs: seq<Sample>)
    requires n <= |ticks| && forall i :: 0 <= i < n ==> ticks[i].usage.Some?
    ensures |xs| == n
  {
    seq(n, i requires 0 <= i < n => ToSample(ticks[i]))
  }

  /** The disk limits: the shared tracker instantiated with `DiskThreshold`. */
  function DiskLimits(cfg: Config): Limits {
    Limits(cfg.diskThreshold, cfg.grace)
  }

  /**
   * `Disk()`, run over a finite sequence of ticks. It ends with an error
   * before sampling when the logger or the configuration is missing, ends
   * with an error at the first failed `disk.Usage("/")`, and otherwise keeps
   * running; each completed iteration steps the tracker with the disk
   * threshold.
   */
  method Monitor(loggerOk: bool, cfg: Option<Config>, ticks: seq<Tick>) returns (exit: Exit, trace: seq<Outcome>)
    ensures !loggerOk ==> exit == LoggerFailed && trace == []
    ensures loggerOk && cfg.None? ==> exit == ConfigMissing && trace == []
    ensures loggerOk && cfg.Some? ==>
      && |trace| <= |ticks|
      && (exit == SamplingFailed || exit == Running)
      && (exit == SamplingFailed <==> |trace| < |ticks|)
      && (|trace| < |ticks| ==> ticks[|trace|].usage.None?)
      && (forall i :: 0 <= i < |trace| ==> ticks[i].usage.Some?)
      && (forall i :: 0 <= i < |trace| ==> trace[i] == StepAt(DiskLimits(cfg.value), DiskSamples(ticks, |trace|), i))
  {
    if !loggerOk {
      return LoggerFailed, [];
    }
    if cfg.None? {
      return ConfigMissing, [];
    }
    var c := cfg.value;
    ghost var lim := DiskLimits(c);
    var breachStart := 0;
    var breachActive := false;
    exit := Running;
    trace := [];
    ghost var xs: seq<Sample> := [];
    var i := 0;
    while i < |ticks|
      invariant 0 <= i <= |ticks| && |trace| == i && |xs| == i
      invariant exit == Running
      invariant forall k :: 0 <= k < i ==> ticks[k].usage.Some? && xs[k] == ToSample(ticks[k])
      invariant State(breachActive, breachStart) == After(lim, xs)
      invariant forall k :: 0 <= k < i ==> trace[k] == StepAt(lim, xs, k)
    {
      var t := ticks[i];
      if t.usage.None? {
        exit := SamplingFailed;
        break;
      }
      var duration, alert, recovered;
      breachActive, breachStart, duration, alert, recovered :=
        CheckThreshold(c.diskThreshold, c.grace, breachActive, breachStart, t);
      StepAtExtend(lim, xs, ToSample(t));
      xs := xs + [ToSample(t)];
      trace := trace + [Outcome(State(breachActive, breachStart), duration, alert, recovered)];
      i := i + 1;
    }
    assert xs == DiskSamples(ticks, i);
  }
}
