/**
 * The RAM monitor of internals/monitor/mem.go: each iteration reads the
 * memory utilisation, reports the three processes with the largest resident
 * memory, and runs the shared breach tracker against `RAMThreshold`.
 */
module Mem {
  import opened Wrappers
  import opened Lists
  import opened Breach
  import opened Loop

  /** What the process library reports for one process: `Name()` and `MemoryInfo().RSS`, each possibly failing. */
  datatype ProcSnapshot = ProcSnapshot(pid: int, name: Option<string>, rss: Option<nat>)

  /** The `procInfo` record: PID, name and resident memory in MB. */
  datatype ProcInfo = ProcInfo(pid: int, name: string, mem: nat)

  /** Bytes to whole megabytes, `RSS / 1024 / 1024`, rounding down. */
  function ToMegabytes(rss: nat): (mb: nat)
    ensures mb * 1048576 <= rss < (mb + 1) * 1048576
  {
    var kb := rss / 1024;
    var mb := kb / 1024;
    assert rss == 1024 * kb + rss % 1024;
    assert kb == 1024 * mb + kb % 1024;
    assert rss == 1048576 * mb + 1024 * (kb % 1024) + rss % 1024;
    mb
  }

  /** The list entry for one process: none when `MemoryInfo` fails, `"unknown"` when `Name` fails. */
  function MemEntry(p: ProcSnapshot): Option<ProcInfo> {
    match p.rss
    case None => None
    case Some(rss) => Some(ProcInfo(p.pid, p.name.GetOr("unknown"), ToMegabytes(rss)))
  }

  /** The list the code builds from a process listing: the processes whose memory could be read, in order. */
  function ProcList(processes: seq<ProcSnapshot>): seq<ProcInfo> {
    Collect(processes, MemEntry)
  }

  /** The loop that builds `procList` from `process.Processes()`. */
  method BuildProcList(processes: seq<ProcSnapshot>) returns (procList: seq<ProcInfo>)
    ensures procList == ProcList(processes)
  {
    procList := [];
    var i := 0;
    while i < |processes|
      invariant 0 <= i <= |processes|
      invariant procList == Collect(processes[..i], MemEntry)
    {
      var p := processes[i];
      assert processes[..i + 1][..i] == processes[..i];
      if p.rss.None? {
        i := i + 1;
        continue;
      }
      var name := if p.name.Some? then p.name.value else "unknown";
      procList := procList + [ProcInfo(p.pid, name, p.rss.value / 1024 / 1024)];
      i := i + 1;
    }
    assert processes[..i] == processes;
  }

  /** `e` is the list entry built from process `p`. */
  ghost predicate EntryOf(p: ProcSnapshot, e: ProcInfo) {
    p.rss.Some? && e == ProcInfo(p.pid, p.name.GetOr("unknown"), ToMegabytes(p.rss.value))
  }

  /**
   * The entries of the built list are exactly those of the processes whose
   * memory could be read, with the substitutions of `MemEntry`.
   */
  lemma ProcListEntries(processes: seq<ProcSnapshot>)
    ensures forall k :: 0 <= k < |Collect(processes, MemEntry)| ==>
      exists i :: 0 <= i < |processes| && EntryOf(processes[i], Collect(processes, MemEntry)[k])
    ensures forall i, e :: 0 <= i < |processes| && EntryOf(processes[i], e) ==> e in Collect(processes, MemEntry)
    ensures |Collect(processes, MemEntry)| <= |processes|
    ensures |Collect(processes, MemEntry)| == |processes| <==> forall i :: 0 <= i < |processes| ==> processes[i].rss.Some?
  {
    forall k | 0 <= k < |Collect(processes, MemEntry)|
      ensures exists i :: 0 <= i < |processes| && EntryOf(processes[i], Collect(processes, MemEntry)[k])
    {
      CollectOrigin(processes, MemEntry, k);
    }
    forall i, e | 0 <= i < |processes| && EntryOf(processes[i], e)
      ensures e in Collect(processes, MemEntry)
    {
      CollectComplete(processes, MemEntry, i);
    }
    CollectLength(processes, MemEntry);
  }

  /** Non-increasing by memory, the order `sort.Slice` with `MemUsage >` produces. */
  ghost predicate SortedByMem(s: seq<ProcInfo>) {
    forall i, j :: 0 <= i < j < |s| ==> s[i].mem >= s[j].mem
  }

  /** The first `n` entries of `a` are non-increasing by memory. */
  ghost predicate SortedUpTo(a: array<ProcInfo>, n: int)
    reads a
    requires n <= a.Length
  {
    forall p, q :: 0 <= p < q < n ==> a[p].mem >= a[q].mem
  }

  /** Exchange two entries. */
  method Swap(a: array<ProcInfo>, i: int, j: int)
    requires 0 <= i < j < a.Length
    modifies a
    ensures a[i] == old(a[j]) && a[j] == old(a[i])
    ensures forall m :: 0 <= m < a.Length && m != i && m != j ==> a[m] == old(a[m])
    ensures multiset(a[..]) == old(multiset(a[..]))
  {
    a[i], a[j] := a[j], a[i];
  }

  /** Move `a[i]` left past every smaller entry, extending the sorted prefix by one. */
  method Sink(a: array<ProcInfo>, i: int)
    requires 0 <= i < a.Length && SortedUpTo(a, i)
    modifies a
    ensures SortedUpTo(a, i + 1)
    ensures multiset(a[..]) == old(multiset(a[..]))
  {
    var j := i;
    while j > 0 && a[j - 1].mem < a[j].mem
      invariant 0 <= j <= i
      invariant multiset(a[..]) == old(multiset(a[..]))
      invariant forall p, q :: 0 <= p < q <= i && p != j && q != j ==> a[p].mem >= a[q].mem
      invariant forall q :: j < q <= i ==> a[j].mem >= a[q].mem
    {
      Swap(a, j - 1, j);
      j := j - 1;
    }
  }

  /**
   * `sort.Slice(procList, ...)` descending by memory. The library sort is
   * not stable, so nothing is promised about the order of equal entries.
   */
  method SortByMem(a: array<ProcInfo>)
    modifies a
    ensures SortedByMem(a[..])
    ensures multiset(a[..]) == old(multiset(a[..]))
  {
    var i := 0;
    while i < a.Length
      invariant 0 <= i <= a.Length
      invariant SortedUpTo(a, i)
      invariant multiset(a[..]) == old(multiset(a[..]))
    {
      Sink(a, i);
      i := i + 1;
    }
  }

  /**
   * A correct top-consumer report for `list`: `min(3, |list|)` entries,
   * non-increasing by memory, drawn from the list, and none smaller than
   * anything left out.
   */
  ghost predicate IsTopReport(list: seq<ProcInfo>, top: seq<ProcInfo>) {
    && |top| == (if |list| < 3 then |list| else 3)
    && SortedByMem(top)
    && multiset(top) <= multiset(list)
    && NoneLeftBigger(list, top)
  }

  ghost predicate NoneLeftBigger(list: seq<ProcInfo>, top: seq<ProcInfo>) {
    forall i, e :: 0 <= i < |top| && e in multiset(list) - multiset(top) ==> e.mem <= top[i].mem
  }

  /** A prefix of a sorted permutation of `list` is a top report. */
  lemma SortedPrefixIsTop(sorted: seq<ProcInfo>, list: seq<ProcInfo>, k: nat)
    requires SortedByMem(sorted) && multiset(sorted) == multiset(list) && |sorted| == |list|
    requires k == if |list| < 3 then |list| else 3
    ensures IsTopReport(list, sorted[..k])
  {
    PrefixMultiset(sorted, k);
    assert multiset(list) - multiset(sorted[..k]) == multiset(sorted[k..]);
    TailBelowPrefix(sorted, k);
  }

  lemma PrefixMultiset(s: seq<ProcInfo>, k: nat)
    requires k <= |s|
    ensures multiset(s[..k]) + multiset(s[k..]) == multiset(s)
  {
    assert s == s[..k] + s[k..];
  }

  /** Nothing after position `k` of a sorted list outweighs anything before it. */
  lemma TailBelowPrefix(sorted: seq<ProcInfo>, k: nat)
    requires SortedByMem(sorted) && k <= |sorted|
    ensures forall i, e :: 0 <= i < k && e in multiset(sorted[k..]) ==> e.mem <= sorted[..k][i].mem
  {
    forall i, e | 0 <= i < k && e in multiset(sorted[k..])
      ensures e.mem <= sorted[..k][i].mem
    {
      var j :| 0 <= j < |sorted[k..]| && sorted[k..][j] == e;
      assert sorted[k + j] == e;
    }
  }

  /** Sort the built list and keep its first `min(3, len)` entries (the ones logged). */
  method TopConsumers(procList: seq<ProcInfo>) returns (top: seq<ProcInfo>)
    ensures IsTopReport(procList, top)
  {
    var a := new ProcInfo[|procList|](i requires 0 <= i < |procList| => procList[i]);
    assert a[..] == procList;
    SortByMem(a);
    var maxProcs := 3;
    if a.Length < maxProcs {
      maxProcs := a.Length;
    }
    top := [];
    var i := 0;
    while i < maxProcs
      invariant 0 <= i <= maxProcs
      invariant top == a[..i]
    {
      top := top + [a[i]];
      i := i + 1;
    }
    assert |a[..]| == |procList|;
    SortedPrefixIsTop(a[..], procList, maxProcs);
    assert a[..][..maxProcs] == a[..maxProcs];
  }

  /** With three processes or fewer, the report holds every one of them: no padding, no error. */
  lemma SmallListReportedWhole(list: seq<ProcInfo>, top: seq<ProcInfo>)
    requires |list| <= 3 && IsTopReport(list, top)
    ensures |top| == |list|
    ensures multiset(top) == multiset(list)
  {
    var rest := multiset(list) - multiset(top);
    assert multiset(list) == multiset(top) + rest;
    assert |multiset(list)| == |multiset(top)| + |rest|;
    assert rest == multiset{};
  }

  // ---------------------------------------------------------------------
  // The monitor loop

  /** One iteration's inputs: the outside-world tick and the result of `process.Processes()`. */
  datatype MemTick = MemTick(tick: Tick, processes: Option<seq<ProcSnapshot>>)

  /** One iteration's effect: the logged top-process report (none when listing failed) and the tracker's step. */
  datatype MemIteration = MemIteration(top: Option<seq<ProcInfo>>, outcome: Outcome)

  /**
   * The report an iteration logs: none when `process.Processes()` failed
   * (only a warning), otherwise a top report of the list built from it.
   */
  ghost predicate TopReported(processes: Option<seq<ProcSnapshot>>, top: Option<seq<ProcInfo>>) {
    match processes
    case None => top.None?
    case Some(ps) => top.Some? && IsTopReport(ProcList(ps), top.value)
  }

  /** Lines 47-88 of one iteration: list the processes, build, sort and log the top three. */
  method ReportTopProcesses(processes: Option<seq<ProcSnapshot>>) returns (top: Option<seq<ProcInfo>>)
    ensures TopReported(processes, top)
  {
    top := None;
    if processes.Some? {
      var procList := BuildProcList(processes.value);
      var report := TopConsumers(procList);
      top := Some(report);
    }
  }

  /** Every iteration of `trace` logged a top report for its tick's process list. */
  ghost predicate AllReported(ticks: seq<MemTick>, trace: seq<MemIteration>) {
    && |trace| <= |ticks|
    && forall i {:trigger TopReported(ticks[i].processes, trace[i].top)} :: 0 <= i < |trace| ==> TopReported(ticks[i].processes, trace[i].top)
  }

  lemma ReportedExtend(ticks: seq<MemTick>, trace: seq<MemIteration>, it: MemIteration)
    requires AllReported(ticks, trace) && |trace| < |ticks|
    requires TopReported(ticks[|trace|].processes, it.top)
    ensures AllReported(ticks, trace + [it])
  {
  }

  /** Lines 42-115, one pass of the loop once memory was read: report the top consumers, then step the tracker. */
  method Iterate(c: Config, active: bool, start: int, t: MemTick) returns (breachActive: bool, breachStart: int, it: MemIteration)
    requires t.tick.usage.Some?
    ensures it.outcome == Step(MemLimits(c), State(active, start), ToSample(t.tick))
    ensures State(breachActive, breachStart) == it.outcome.next
    ensures TopReported(t.processes, it.top)
  {
    var top := ReportTopProcesses(t.processes);
    var duration, alert, recovered;
    breachActive, breachStart, duration, alert, recovered :=
      CheckThreshold(c.ramThreshold, c.grace, active, start, t.tick);
    it := MemIteration(top, Outcome(State(breachActive, breachStart), duration, alert, recovered));
  }

  /** The tracker's samples from the first `n` ticks, all of whose reads succeeded. */
  function MemSamples(ticks: seq<MemTick>, n: nat): (xs: seq<Sample>)
    requires n <= |ticks| && forall i :: 0 <= i < n ==> ticks[i].tick.usage.Some?
    ensures |xs| == n
  {
    seq(n, i requires 0 <= i < n => ToSample(ticks[i].tick))
  }

  /** The memory limits: the shared tracker instantiated with `RAMThreshold`. */
  function MemLimits(cfg: Config): Limits {
    Limits(cfg.ramThreshold, cfg.grace)
  }

  /**
   * The tracker's part of the first `|trace|` iterations of `Mem()`: each
   * read memory and stepped the tracker with the RAM threshold on the
   * samples so far.
   */
  ghost predicate MemRun(c: Config, ticks: seq<MemTick>, trace: seq<MemIteration>) {
    && |trace| <= |ticks|
    && (forall i :: 0 <= i < |trace| ==> ticks[i].tick.usage.Some?)
    && (forall i :: 0 <= i < |trace| ==> trace[i].outcome == StepAt(MemLimits(c), MemSamples(ticks, |trace|), i))
  }

  /** One more iteration extends a run, and the tracker's state is the one it leaves. */
  lemma MemRunExtend(c: Config, ticks: seq<MemTick>, trace: seq<MemIteration>, it: MemIteration)
    requires MemRun(c, ticks, trace) && |trace| < |ticks| && ticks[|trace|].tick.usage.Some?
    requires it.outcome == Step(MemLimits(c), After(MemLimits(c), MemSamples(ticks, |trace|)), ToSample(ticks[|trace|].tick))
    ensures MemRun(c, ticks, trace + [it])
    ensures After(MemLimits(c), MemSamples(ticks, |trace| + 1)) == it.outcome.next
  {
    var n := |trace|;
    var lim := MemLimits(c);
    var xs := MemSamples(ticks, n);
    var x := ToSample(ticks[n].tick);
    var tr := trace + [it];
    assert MemSamples(ticks, n + 1) == xs + [x];
    StepAtExtend(lim, xs, x);
    forall i | 0 <= i < n + 1
      ensures tr[i].outcome == StepAt(lim, xs + [x], i)
    {
      if i < n {
        assert tr[i] == trace[i];
      }
    }
  }

  /**
   * `Mem()`, run over a finite sequence of ticks. It ends with an error
   * before sampling when the logger or the configuration is missing, ends
   * with an error at the first failed memory read, and otherwise keeps
   * running. Each completed iteration reports the top consumers when the
   * process list could be read and steps the tracker with the RAM threshold.
   */
  method Monitor(loggerOk: bool, cfg: Option<Config>, ticks: seq<MemTick>) returns (exit: Exit, trace: seq<MemIteration>)
    ensures !loggerOk ==> exit == LoggerFailed && trace == []
    ensures loggerOk && cfg.None? ==> exit == ConfigMissing && trace == []
    ensures loggerOk && cfg.Some? ==>
      && |trace| <= |ticks|
      && (exit == SamplingFailed || exit == Running)
      && (exit == SamplingFailed <==> |trace| < |ticks|)
      && (|trace| < |ticks| ==> ticks[|trace|].tick.usage.None?)
      && (forall i :: 0 <= i < |trace| ==> ticks[i].tick.usage.Some?)
      && (forall i :: 0 <= i < |trace| ==>
            trace[i].outcome == StepAt(MemLimits(cfg.value), MemSamples(ticks, |trace|), i))
      && AllReported(ticks, trace)
  {
    if !loggerOk {
      return LoggerFailed, [];
    }
    if cfg.None? {
      return ConfigMissing, [];
    }
    var c := cfg.value;
    var breachStart := 0;
    var breachActive := false;
    exit := Running;
    trace := [];
    var i := 0;
    while i < |ticks|
      invariant 0 <= i <= |ticks| && |trace| == i
      invariant exit == Running
      invariant MemRun(c, ticks, trace) && AllReported(ticks, trace)
      invariant State(breachActive, breachStart) == After(MemLimits(c), MemSamples(ticks, i))
    {
      var t := ticks[i];
      if t.tick.usage.None? {
        exit := SamplingFailed;
        break;
      }
      var it;
      breachActive, breachStart, it := Iterate(c, breachActive, breachStart, t);
      MemRunExtend(c, ticks, trace, it);
      ReportedExtend(ticks, trace, it);
      trace := trace + [it];
      i := i + 1;
    }
  }
}
