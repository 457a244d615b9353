# Resource monitor core: breach tracking, top consumers, stat parsing

This project models, in Dafny, the core of a host resource monitor (the Go
package `internals/monitor`). It covers three parts:

- **The breach tracker and alert gate.** The memory loop (`Mem()`) and the
  disk loop (`Disk()`) each read a utilisation value on every iteration and
  compare it strictly with their threshold. A rising edge records when the
  breach began. The loop measures how long the breach has lasted and attempts
  an alert once that reaches the grace period (`alertThreshold`). It re-arms
  after every attempt, whether the send worked or not. A reading at or below
  the threshold ends the breach, and "returned to normal" is logged only if a
  breach was in progress.
- **The top-3 memory report.** The memory loop builds a list from the
  processes whose memory could be read, converts RSS to MB, substitutes
  `"unknown"` for a name it cannot get, sorts the list by memory in
  descending order and logs the first `min(3, len)` entries.
- **The `/proc/<pid>/stat` reader.** `parseProcDir` splits each readable
  stat record on single spaces and keeps fields 0, 1, 13, 14 and 21, the
  last three through `strconv.Atoi`. `getCpuUsage` keeps the records whose
  time since the process started is positive. `CPU()` chains the two.

Layout, one module per file:

- `wrappers.dfy` (`Wrappers`): `Option`.
- `lists.dfy` (`Lists`): `Collect`, the specification of the
  "loop, `continue` on a skip, `append`" idiom the three list-building loops
  share, with its lemmas.
- `breach.dfy` (`Breach`): the tracker state, the `Step` function shared by
  both loops, and runs over sample sequences (`After`, `StepAt`) with their
  lemmas.
- `loop.dfy` (`Loop`): the configuration, how a loop ends, one iteration's
  inputs, and `CheckThreshold`, the imperative threshold check both loops
  call. It is proved equal to `Step`.
- `mem.dfy` (`Mem`): the process list, the in-place sort, the top-3 report
  and the memory loop.
- `disk.dfy` (`Disk`): the disk loop.
- `procstat.dfy` (`ProcStat`): `strings.Split`/`Join`, `strconv.Atoi`, stat
  parsing, `parseProcDir`, `getCpuUsage`, `CPU()`.

Outside inputs become parameters:

- the logger's creation is `loggerOk`, and `config.GetConfig()` is an
  `Option<Config>`;
- `mem.VirtualMemory()` and `disk.Usage("/")` are an `Option<real>` per tick;
- `process.Processes()`, `MemoryInfo()` and `Name()` are `Option` values;
- `sendAlert`'s outcome is a `bool` per tick;
- the two `time.Now()` readings of an iteration are integers. `now` is the
  reading at the rising edge and `since` the reading inside `time.Since`;
- `os.ReadDir("/proc")` is a `Listing`: the entry names it returned, sorted
  by name as `os.ReadDir` sorts them, and whether it reported an error. A
  failed open returns no entries; an error part-way returns the entries read
  before it. `os.ReadFile("/proc/<name>/stat")` is a function from names to
  `Option<string>`;
- the floating-point time since a process started (system uptime less its
  start time) and its CPU percentage are functions `seconds` and `percent`.

The endless `for {}` loops run over finite sequences of ticks. `Running`
means the ticks ran out while the loop was still going.

Where the code does something other than one might expect, the model
follows the code:

- One might expect an inactive tracker to have no start time. The code keeps the
  old `breachStart` value after a re-arm or a recovery, and so does the model
  (`State.start`). That value is never read while the tracker is inactive.
- One might expect the tracker to re-arm only after a *successful* dispatch. The code
  re-arms after every attempt (mem.go:103-108, disk.go:57-62).
- One might expect a stable sort of the top consumers. The code calls
  `sort.Slice`, which is not stable, so the model promises nothing about the
  order of entries with the same MB value.
- One might expect every reading between two alert attempts to breach. That
  is not so: with a grace period of 0, a normal reading can fall between two
  alerts (`Breach.NormalReadingBetweenAlerts`). What does hold is
  `Breach.AlertNeedsSustainedBreach`: an alert closes a contiguous breaching
  run that started after the last re-arm or recovery.

## Model

| member | source | states |
|---|---|---|
| `Breach.RisingEdge` | internals/monitor/mem.go:91-96 | A reading strictly above the threshold while inactive starts the breach at this iteration's `time.Now()`. The duration is measured from that moment. The tracker stays active exactly when the duration is still below the grace period. |
| `Breach.AtThresholdIsNormal` | internals/monitor/mem.go:91 | A reading equal to the threshold is no breach: it logs no duration, attempts no alert and leaves the tracker inactive. |
| `Breach.OngoingKeepsStart` | internals/monitor/disk.go:46-50 | While active, a breaching reading keeps `breachStart`, and the duration is `since - breachStart`. |
| `Breach.AlertGate` | internals/monitor/disk.go:54-57 | An alert is attempted exactly when the reading breaches and its duration is at least the grace period. A duration is logged exactly on breaching readings. |
| `Breach.ZeroGraceAlertsAtOnce` | internals/monitor/mem.go:91-103 | With a grace period of 0 or less and a non-decreasing clock, the first breaching reading alerts at once. |
| `Breach.RearmAlways` | internals/monitor/mem.go:103-108 | After any alert attempt the tracker is inactive. The attempt counts as `Sent` exactly when the send succeeds. The send outcome never changes the new state. |
| `Breach.Recovery` | internals/monitor/disk.go:64-68 | A reading at or below the threshold leaves the tracker inactive and attempts no alert. It reports recovery exactly when the tracker was active before. |
| `Breach.RecoveryIsReportedOnce` | internals/monitor/mem.go:110-115 | Of two normal readings in a row, the second reports no recovery and the tracker stays inactive. |
| `Breach.CycleFacts` | internals/monitor/disk.go:45-69 | A breach in progress began at a rising edge from an inactive state. Its start is that sample's clock, and every sample since then breached without an alert attempt. |
| `Breach.AlertNeedsSustainedBreach` | internals/monitor/disk.go:45-69 | An alert at iteration `j` closes a run `c..j` of breaching samples. The tracker was inactive before `c`, no alert was attempted in `c..j-1`, and the duration logged at `j` is `since_j - now_c`, at least the grace period. That is the debounce. |
| `Breach.RearmRestartsTimer` | internals/monitor/mem.go:92-108 | A breaching sample right after an alert attempt restarts the timer from its own clock, not from the earlier breach. |
| `Breach.DurationNonDecreasing` | internals/monitor/mem.go:92-96 | Under a non-decreasing clock, along a breach that is neither re-armed nor recovered, the logged duration never decreases. |
| `Breach.ScenarioSustainedBreach` | internals/monitor/mem.go:90-115 | Threshold 80, grace 30, readings 85, 87, 90 and 92 at t = 0, 10, 20 and 30: only the reading at t = 30 alerts, with duration 30, and the tracker re-arms. |
| `Breach.ScenarioRecoveryAndNewBreach` | internals/monitor/mem.go:90-115 | Readings 85, 70 and 90 against threshold 80: a breach of duration 0, then a recovery, then a new breach of duration 0 that starts at t = 20. |
| `Breach.NormalReadingBetweenAlerts` | internals/monitor/mem.go:90-115 | With grace 0, an alert, then a normal reading, then another alert is a possible run. |
| `Loop.CheckThreshold` | internals/monitor/mem.go:90-115 | The imperative threshold check on `breachActive` and `breachStart` produces exactly the tracker's `Step` for the configured threshold and grace period. |
| `Lists.CollectAppend` | internals/monitor/cpu.go:43-67 | Building a list by skip-or-append over a concatenation gives the lists of the two parts, concatenated. So the result keeps the input order. |
| `Lists.CollectLength` | internals/monitor/cpu.go:78-91 | The built list is never longer than its input, and it is exactly as long when nothing is skipped. |
| `Mem.ToMegabytes` | internals/monitor/mem.go:70 | `RSS/1024/1024` is the whole number of MB: `mb * 2^20 <= rss < (mb + 1) * 2^20`. |
| `Mem.BuildProcList` | internals/monitor/mem.go:56-72 | The loop builds `ProcList(processes)`, the order-preserving `Collect(processes, MemEntry)`: a process whose `MemoryInfo` fails is skipped, a failed `Name` becomes `"unknown"`, and the MB value is `ToMegabytes(RSS)`. |
| `Mem.ProcListEntries` | internals/monitor/mem.go:58-72 | Every entry comes from a process whose memory was read, and every such process gives its entry. The list has at most one entry per process, and exactly one per process when every read succeeds. |
| `Mem.SortByMem` | internals/monitor/mem.go:74-77 | After the in-place sort the array is non-increasing by MB and is a permutation of what it held. No order among ties is claimed. |
| `Mem.TopConsumers` | internals/monitor/mem.go:74-87 | The report has exactly `min(3, len)` entries. They are non-increasing by MB and drawn from the list, and none is smaller than any entry left out. |
| `Mem.SmallListReportedWhole` | internals/monitor/mem.go:80-83 | With three or fewer processes, the report holds every one of them: no padding and no error. |
| `Mem.ReportTopProcesses` | internals/monitor/mem.go:47-88 | A failed `process.Processes()` gives no report, which only logs a warning. Otherwise the report is a top report of the built list. |
| `Mem.Iterate` | internals/monitor/mem.go:42-115 | One pass after a successful memory read. The logged report is a top report of that pass's process list, or none when the listing failed. The tracker moves exactly as `Step` with `RAMThreshold` prescribes. |
| `Mem.Monitor` | internals/monitor/mem.go:15-119 | A missing logger or configuration ends the loop with its error before any sampling. Otherwise the loop stops with an error at the first failed `VirtualMemory` read, or is still running when the ticks run out. Each completed iteration steps the tracker with `RAMThreshold`, as `StepAt` over the readings so far. It also logs a top-consumer report exactly when `process.Processes()` succeeded on that iteration. |
| `Disk.Monitor` | internals/monitor/disk.go:13-73 | A missing logger or configuration ends the loop with its error before any sampling. Otherwise the loop stops with an error at the first failed `disk.Usage` read, or is still running when the ticks run out. Each completed iteration steps the tracker with `DiskThreshold`, as `StepAt` over the readings so far. |
| `ProcStat.Split` | internals/monitor/cpu.go:57 | `strings.Split` on a one-character separator always gives at least one field. |
| `ProcStat.JoinSplit` | internals/monitor/cpu.go:57 | Joining the fields of a split with the separator gives back the text. |
| `ProcStat.SplitFieldsAreClean` | internals/monitor/cpu.go:57 | No field of a split contains the separator. |
| `ProcStat.SplitJoin` | internals/monitor/cpu.go:57 | Splitting a join of separator-free fields gives back exactly those fields. |
| `ProcStat.ScanDecimal` | internals/monitor/cpu.go:62-64 | The decimal scan of `strconv.ParseUint` only produces values that fit in 64 bits. |
| `ProcStat.Atoi` | internals/monitor/cpu.go:62-64 | `strconv.Atoi` with its error dropped always gives a 64-bit value. |
| `ProcStat.AtoiFormatInt` | internals/monitor/cpu.go:62-64 | Round trip: every 64-bit integer is read back from its decimal text. |
| `ProcStat.AtoiRejectsMalformed` | internals/monitor/cpu.go:62-64 | A field of up to 19 characters that is not an optional sign followed by digits converts to 0. |
| `ProcStat.ParseStatOfFields` | internals/monitor/cpu.go:57-65 | A record of 22 or more space-free fields, written with single spaces, parses to `pid` = field 0 and `process` = field 1, which keeps its parentheses. `uptime`, `stime` and `starttime` are `Atoi` of fields 13, 14 and 21. |
| `ProcStat.NameWithSpaceShiftsFields` | internals/monitor/cpu.go:55-64 | A process name with one space in it splits in two. `process` gets only its first half, and the numeric fields are read from the kernel's fields 12, 13 and 20 instead. |
| `ProcStat.ParseProcDir` | internals/monitor/cpu.go:40-71 | The loop builds `Collect(entries, StatPick(read))`: an entry whose stat file cannot be read is skipped, and every other entry gives its parsed record, in the order `os.ReadDir` returns them (sorted by name). |
| `ProcStat.ParsedRecords` | internals/monitor/cpu.go:43-67 | The result is no longer than the directory. Every record comes from a readable entry's stat text, and every readable entry gives its record. |
| `ProcStat.GetCpuUsage` | internals/monitor/cpu.go:73-94 | The loop builds `Collect(processes, CpuPick(seconds, percent))`: a record whose time since the process started is not positive is skipped, and the others are kept in order. |
| `ProcStat.CpuUsageEntries` | internals/monitor/cpu.go:78-91 | Every usage entry copies the `pid` and `process` of a record whose process started a positive time ago, unchanged. Every such record gives one entry, and there are no more entries than records. |
| `ProcStat.Cpu` | internals/monitor/cpu.go:96-107 | An error from `os.ReadDir` is only logged: the entries it did return (none when the open failed, those read before the error otherwise) are parsed and their usage computed either way. The result has at most one entry per directory entry. |

## Left out

- Logging and the text of messages (the `%.2f`, MB and GB strings): the model records what each iteration would log as values (`Outcome`, `MemIteration`), not text.
- `sendAlert` is not part of this model. Only its success or failure is an input.
- The `time.Duration` conversions of `Interval` and `AlertThreshold` (mem.go:28-29, disk.go:26-27) are floating point. `grace` is the converted value in clock units. `time.Sleep(interval)` has no effect on the model: the clock values of the ticks already include it.
- `Mem.Monitor`, `Disk.Monitor`: usage and threshold are `real`. The NaN and rounding behaviour of `float64` is not modelled; only the strict comparison matters.
- `Mem.Monitor`: the loop does not keep the used and total memory figures it logs.
- `ProcStat.ParseProcDir`: requires every readable stat record to have at least 22 space-separated fields. With fewer, the code's indexing panics.
- `ProcStat.ParseProcDir`: the `p.Info()` call, whose error is ignored (it would dereference a nil value), is not modelled. An entry is just its name.
- `ProcStat.AtoiRejectsMalformed`: stated only for fields of at most 19 characters. On longer text, `Atoi` as modelled follows the library: the scan stops at the first digit that overflows 64 bits and clamps.
- `ProcStat.Atoi` assumes a 64-bit `int`.
- `getSystemUptime`, the `jiffies` constant and the CPU percentage formula (cpu.go:31-38, 79-86) are floating point. They appear only as the functions `seconds` and `percent`.
- `fmt.Println` of the stat read error and of the result in `CPU()` is output only.
- `internals/monitor/all.go` is not part of this model. It holds the goroutine fan-out, its error channel and the `Heal` placeholder; each loop here runs alone.
- The command-line packages, the logger wrapper and the configuration holders are not part of this model. They are command wiring and plain data.
