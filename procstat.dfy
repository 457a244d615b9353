/**
 * The `/proc/<pid>/stat` reader of internals/monitor/cpu.go: `parseProcDir`
 * splits each readable stat record on single spaces and keeps five fields,
 * `getCpuUsage` keeps the processes whose time since they started is positive and pairs
 * each with its CPU percentage, and `CPU()` chains the two over `/proc`.
 */
module ProcStat {
  import opened Wrappers
  import opened Lists

  // ---------------------------------------------------------------------
  // strings.Split and strings.Join on a one-character separator

  /** `strings.Split(s, sep)`: every occurrence separates, so empty fields are kept; `""` gives `[""]`. */
  function Split(s: string, sep: char): (fields: seq<string>)
    ensures |fields| >= 1
    decreases |s|
  {
    if s == [] then [[]]
    else
      var rest := Split(s[1..], sep);
      if s[0] == sep then [[]] + rest
      else [[s[0]] + rest[0]] + rest[1..]
  }

  /** `strings.Join(fields, sep)`. */
  function Join(fields: seq<string>, sep: char): string
    decreases |fields|
  {
    if |fields| == 0 then []
    else if |fields| == 1 then fields[0]
    else fields[0] + [sep] + Join(fields[1..], sep)
  }

  /** Joining the fields of a split gives back the text. */
  lemma {:induction false} JoinSplit(s: string, sep: char)
    ensures Join(Split(s, sep), sep) == s
    decreases |s|
  {
    if s != [] {
      var rest := Split(s[1..], sep);
      JoinSplit(s[1..], sep);
      if s[0] == sep {
        assert ([[]] + rest)[1..] == rest;
      } else {
        var r := [[s[0]] + rest[0]] + rest[1..];
        assert r[1..] == rest[1..];
        if |rest| > 1 {
          assert Join(rest, sep) == rest[0] + [sep] + Join(rest[1..], sep);
        }
      }
    }
  }

  /** No field of a split contains the separator. */
  lemma {:induction false} SplitFieldsAreClean(s: string, sep: char)
    ensures forall i :: 0 <= i < |Split(s, sep)| ==> sep !in Split(s, sep)[i]
    decreases |s|
  {
    if s != [] {
      SplitFieldsAreClean(s[1..], sep);
    }
  }

  /** A text without the separator, followed by more text: the first field absorbs it. */
  lemma {:induction false} SplitPrefix(f: string, t: string, sep: char)
    requires sep !in f
    ensures Split(f + t, sep) == [f + Split(t, sep)[0]] + Split(t, sep)[1..]
    decreases |f|
  {
    if f != [] {
      var r := Split(t, sep);
      SplitPrefix(f[1..], t, sep);
      var rest := Split(f[1..] + t, sep);
      assert rest[0] == f[1..] + r[0] && rest[1..] == r[1..];
      assert (f + t)[1..] == f[1..] + t;
      assert Split(f + t, sep) == [[f[0]] + rest[0]] + rest[1..];
      assert [f[0]] + (f[1..] + r[0]) == f + r[0];
    } else {
      var r := Split(t, sep);
      assert f + t == t && f + r[0] == r[0];
      assert r == [r[0]] + r[1..];
    }
  }

  /** Splitting a join of separator-free fields gives back the fields. */
  lemma {:induction false} SplitJoin(fields: seq<string>, sep: char)
    requires |fields| >= 1
    requires forall i :: 0 <= i < |fields| ==> sep !in fields[i]
    ensures Split(Join(fields, sep), sep) == fields
    decreases |fields|
  {
    if |fields| == 1 {
      SplitPrefix(fields[0], [], sep);
      assert fields[0] + [] == fields[0];
    } else {
      var tail := Join(fields[1..], sep);
      SplitJoin(fields[1..], sep);
      assert [sep] + tail == [sep] + tail;
      assert Split([sep] + tail, sep) == [[]] + fields[1..] by {
        assert ([sep] + tail)[1..] == tail;
      }
      assert fields[0] + [sep] + tail == fields[0] + ([sep] + tail);
      SplitPrefix(fields[0], [sep] + tail, sep);
      assert fields[0] + [] == fields[0];
      assert fields == [fields[0]] + fields[1..];
    }
  }

  // ---------------------------------------------------------------------
  // strconv.Atoi on a 64-bit platform

  const MaxInt64: int := 0x7fff_ffff_ffff_ffff
  const MinInt64: int := -0x8000_0000_0000_0000
  const MaxUint64: int := 0xffff_ffff_ffff_ffff

  predicate IsDigit(c: char) {
    '0' <= c <= '9'
  }

  function DigitValue(c: char): nat
    requires IsDigit(c)
  {
    (c as int) - ('0' as int)
  }

  /** The outcome of scanning an unsigned decimal. */
  datatype Scan = Value(n: nat) | BadSyntax | OutOfRange

  /**
   * `strconv.ParseUint`'s loop in base 10 after `acc` has been read: a
   * non-digit is a syntax error, and a value beyond 64 bits stops the scan
   * at once as a range error.
   */
  function ScanDecimal(s: string, acc: nat): (r: Scan)
    requires acc <= MaxUint64
    ensures r.Value? ==> r.n <= MaxUint64
    decreases |s|
  {
    if s == [] then Value(acc)
    else if !IsDigit(s[0]) then BadSyntax
    else if acc * 10 + DigitValue(s[0]) > MaxUint64 then OutOfRange
    else ScanDecimal(s[1..], acc * 10 + DigitValue(s[0]))
  }

  /** `strconv.ParseUint(s, 10, 64)`: the empty text is a syntax error. */
  function ParseUint64(s: string): Scan {
    if s == [] then BadSyntax else ScanDecimal(s, 0)
  }

  /**
   * `strconv.Atoi(s)` with the error dropped, as the closures in
   * `parseProcDir` use it: an optional sign and decimal digits give their
   * value, clamped to 64 bits when out of range; anything else gives 0.
   */
  function Atoi(s: string): (r: int)
    ensures MinInt64 <= r <= MaxInt64
  {
    if s == [] then 0
    else
      var neg := s[0] == '-';
      var digits := if s[0] == '-' || s[0] == '+' then s[1..] else s;
      match ParseUint64(digits)
      case BadSyntax => 0
      case OutOfRange => if neg then MinInt64 else MaxInt64
      case Value(u) =>
        var v: int := u;
        if neg then (if v > -MinInt64 then MinInt64 else -v)
        else (if v > MaxInt64 then MaxInt64 else v)
  }

  function DigitChar(d: nat): (c: char)
    requires d < 10
    ensures IsDigit(c) && DigitValue(c) == d
  {
    ('0' as int + d) as char
  }

  /** Decimal digits of `n`, most significant first, without leading zeros. */
  function Digits(n: nat): (s: string)
    ensures |s| >= 1 && IsDigit(s[0])
    decreases n
  {
    if n < 10 then [DigitChar(n)] else Digits(n / 10) + [DigitChar(n % 10)]
  }

  /** The decimal text of an integer, as `strconv.Itoa` writes it. */
  function FormatInt(n: int): string {
    if n < 0 then ['-'] + Digits(-n) else Digits(n)
  }

  /** Scanning one more digit, when it still fits, appends it to the value. */
  lemma {:induction false} ScanSnoc(s: string, acc: nat, c: char, v: nat)
    requires acc <= MaxUint64 && ScanDecimal(s, acc) == Value(v)
    requires IsDigit(c) && v * 10 + DigitValue(c) <= MaxUint64
    ensures ScanDecimal(s + [c], acc) == Value(v * 10 + DigitValue(c))
    decreases |s|
  {
    if s == [] {
      assert [c][1..] == [];
    } else {
      assert (s + [c])[1..] == s[1..] + [c];
      ScanSnoc(s[1..], acc * 10 + DigitValue(s[0]), c, v);
    }
  }

  /** The digits of a 64-bit unsigned value scan back to that value. */
  lemma {:induction false} ScanDigits(n: nat)
    requires n <= MaxUint64
    ensures ScanDecimal(Digits(n), 0) == Value(n)
    decreases n
  {
    if n < 10 {
      assert [DigitChar(n)][1..] == [];
    } else {
      ScanDigits(n / 10);
      ScanSnoc(Digits(n / 10), 0, DigitChar(n % 10), n / 10);
    }
  }

  /** Round trip: the conversion reads back every 64-bit integer from its decimal text. */
  lemma AtoiFormatInt(n: int)
    requires MinInt64 <= n <= MaxInt64
    ensures Atoi(FormatInt(n)) == n
  {
    if n < 0 {
      ScanDigits(-n);
      assert (['-'] + Digits(-n))[1..] == Digits(-n);
    } else {
      ScanDigits(n);
    }
  }

  function Pow10(k: nat): (p: nat)
    ensures p >= 1
  {
    if k == 0 then 1 else 10 * Pow10(k - 1)
  }

  lemma {:induction false} Pow10AtMost19(k: nat)
    requires k <= 19
    ensures Pow10(k) <= 10_000_000_000_000_000_000
    decreases 19 - k
  {
    if k < 19 {
      Pow10AtMost19(k + 1);
    } else {
      assert Pow10(6) == 1_000_000;
      assert Pow10(12) == 1_000_000_000_000;
      assert Pow10(18) == 1_000_000_000_000_000_000;
    }
  }

  /**
   * At most 19 characters read after a value of at most `j` digits cannot
   * overflow, so the scan fails exactly when some character is not a digit.
   */
  lemma {:induction false} ScanShort(s: string, acc: nat, j: nat)
    requires acc < Pow10(j) && j + |s| <= 19
    ensures acc <= MaxUint64
    ensures !ScanDecimal(s, acc).OutOfRange?
    ensures ScanDecimal(s, acc).BadSyntax? <==> exists i :: 0 <= i < |s| && !IsDigit(s[i])
    decreases |s|
  {
    Pow10AtMost19(j);
    if s != [] && IsDigit(s[0]) {
      Pow10AtMost19(j + 1);
      assert acc * 10 + DigitValue(s[0]) < Pow10(j + 1);
      ScanShort(s[1..], acc * 10 + DigitValue(s[0]), j + 1);
      if exists i :: 0 <= i < |s[1..]| && !IsDigit(s[1..][i]) {
        var i :| 0 <= i < |s[1..]| && !IsDigit(s[1..][i]);
        assert !IsDigit(s[i + 1]);
      }
      if exists i :: 0 <= i < |s| && !IsDigit(s[i]) {
        var i :| 0 <= i < |s| && !IsDigit(s[i]);
        assert !IsDigit(s[1..][i - 1]);
      }
    }
  }

  /** Go's decimal syntax for `Atoi`: an optional sign, then one or more digits. */
  predicate IsDecimal(s: string) {
    && |s| > 0
    && var digits := if s[0] == '-' || s[0] == '+' then s[1..] else s;
    && |digits| > 0
    && forall i :: 0 <= i < |digits| ==> IsDigit(digits[i])
  }

  /** A short field that is not a decimal integer converts to 0. */
  lemma AtoiRejectsMalformed(s: string)
    requires |s| <= 19 && !IsDecimal(s)
    ensures Atoi(s) == 0
  {
    if s != [] {
      var digits := if s[0] == '-' || s[0] == '+' then s[1..] else s;
      if digits != [] {
        ScanShort(digits, 0, 0);
      }
    }
  }

  // ---------------------------------------------------------------------
  // parseProcDir

  /** The `Proc` record: PID and name text, and three times in clock ticks. */
  datatype Proc = Proc(pid: string, process: string, uptime: int, stime: int, starttime: int)

  /** A stat record is indexable as the code indexes it: at least 22 space-separated fields. */
  predicate HasStatFields(stat: string) {
    |Split(stat, ' ')| >= 22
  }

  /** One stat record: fields 0 and 1 as text, fields 13, 14 and 21 through `Atoi`. */
  function ParseStat(stat: string): Proc
    requires HasStatFields(stat)
  {
    var fields := Split(stat, ' ');
    Proc(fields[0], fields[1], Atoi(fields[13]), Atoi(fields[14]), Atoi(fields[21]))
  }

  /** A record written as space-separated fields is read back field by field. */
  lemma ParseStatOfFields(fields: seq<string>)
    requires |fields| >= 22
    requires forall i :: 0 <= i < |fields| ==> ' ' !in fields[i]
    ensures Split(Join(fields, ' '), ' ') == fields
    ensures ParseStat(Join(fields, ' ')) == Proc(fields[0], fields[1], Atoi(fields[13]), Atoi(fields[14]), Atoi(fields[21]))
  {
    SplitJoin(fields, ' ');
  }

  /** Splitting one field in two at a separator leaves the joined text unchanged. */
  lemma JoinSplitsField(l: string, r: string, rest: seq<string>, sep: char)
    requires |rest| >= 1
    ensures Join([l + [sep] + r] + rest, sep) == Join([l] + ([r] + rest), sep)
  {
    var tail := Join(rest, sep);
    calc {
      Join([l + [sep] + r] + rest, sep);
      { JoinCons(l + [sep] + r, rest, sep); }
      l + [sep] + r + [sep] + tail;
      l + [sep] + (r + [sep] + tail);
      { JoinCons(r, rest, sep); }
      l + [sep] + Join([r] + rest, sep);
      { JoinCons(l, [r] + rest, sep); }
      Join([l] + ([r] + rest), sep);
    }
  }

  lemma JoinCons(f: string, rest: seq<string>, sep: char)
    requires |rest| >= 1
    ensures Join([f] + rest, sep) == f + [sep] + Join(rest, sep)
  {
    assert ([f] + rest)[1..] == rest;
  }

  /**
   * A process name with one space in it (`(a b)`) splits in two: `process`
   * gets only its first half and every numeric field is taken one position
   * early, as the comment in the code warns.
   */
  lemma NameWithSpaceShiftsFields(fields: seq<string>, left: string, right: string)
    requires |fields| >= 21 && fields[1] == left + " " + right
    requires ' ' !in left && ' ' !in right
    requires forall i :: 0 <= i < |fields| && i != 1 ==> ' ' !in fields[i]
    ensures HasStatFields(Join(fields, ' '))
    ensures ParseStat(Join(fields, ' ')) == Proc(fields[0], left, Atoi(fields[12]), Atoi(fields[13]), Atoi(fields[20]))
  {
    var shifted := [fields[0]] + ([left] + ([right] + fields[2..]));
    JoinOfShifted(fields, left, right);
    ShiftedIsClean(fields, left, right);
    ParseStatOfFields(shifted);
  }

  /** The joined record is the join of its fields with the name cut at the space. */
  lemma JoinOfShifted(fields: seq<string>, left: string, right: string)
    requires |fields| >= 3 && fields[1] == left + " " + right
    ensures Join(fields, ' ') == Join([fields[0]] + ([left] + ([right] + fields[2..])), ' ')
  {
    var rest := fields[2..];
    var split := [left] + ([right] + rest);
    assert fields == [fields[0]] + ([left + [' '] + right] + rest);
    calc {
      Join(fields, ' ');
      { JoinCons(fields[0], [left + [' '] + right] + rest, ' '); }
      fields[0] + [' '] + Join([left + [' '] + right] + rest, ' ');
      { JoinSplitsField(left, right, rest, ' '); }
      fields[0] + [' '] + Join(split, ' ');
      { JoinCons(fields[0], split, ' '); }
      Join([fields[0]] + split, ' ');
    }
  }

  /** With the name cut at its space, no field holds a separator. */
  lemma ShiftedIsClean(fields: seq<string>, left: string, right: string)
    requires |fields| >= 2
    requires ' ' !in left && ' ' !in right
    requires forall i :: 0 <= i < |fields| && i != 1 ==> ' ' !in fields[i]
    ensures var shifted := [fields[0]] + ([left] + ([right] + fields[2..]));
      |shifted| == |fields| + 1
      && (forall i :: 3 <= i < |shifted| ==> shifted[i] == fields[i - 1])
      && forall i :: 0 <= i < |shifted| ==> ' ' !in shifted[i]
  {
    var shifted := [fields[0]] + ([left] + ([right] + fields[2..]));
    forall i | 3 <= i < |shifted|
      ensures shifted[i] == fields[i - 1]
    {
      assert shifted[i] == fields[2..][i - 3];
    }
  }

  /**
   * What `parseProcDir` keeps for one directory entry: nothing when its stat
   * file cannot be read, otherwise the parsed record.
   */
  function StatPick(read: string -> Option<string>): string --> Option<Proc> {
    e requires read(e).Some? ==> HasStatFields(read(e).value) =>
      match read(e)
      case None => None
      case Some(stat) => Some(ParseStat(stat))
  }

  /**
   * `parseProcDir` over the names of the entries of `/proc`; `read(name)`
   * stands for `os.ReadFile("/proc/<name>/stat")`. A record too short to
   * index would make the code panic; the caller must rule that out.
   */
  method ParseProcDir(entries: seq<string>, read: string -> Option<string>) returns (processes: seq<Proc>)
    requires forall i :: 0 <= i < |entries| && read(entries[i]).Some? ==> HasStatFields(read(entries[i]).value)
    ensures processes == Collect(entries, StatPick(read))
  {
    processes := [];
    var i := 0;
    while i < |entries|
      invariant 0 <= i <= |entries|
      invariant processes == Collect(entries[..i], StatPick(read))
    {
      assert entries[..i + 1][..i] == entries[..i];
      var procStat := read(entries[i]);
      if procStat.None? {
        i := i + 1;
        continue;
      }
      var stat := Split(procStat.value, ' ');
      var proc := Proc(stat[0], stat[1], Atoi(stat[13]), Atoi(stat[14]), Atoi(stat[21]));
      processes := processes + [proc];
      i := i + 1;
    }
    assert entries[..i] == entries;
  }

  /** `p` is the record parsed from the readable stat file of entry `e`. */
  ghost predicate ParsedFrom(read: string -> Option<string>, e: string, p: Proc) {
    read(e).Some? && HasStatFields(read(e).value) && p == ParseStat(read(e).value)
  }

  /**
   * The parsed records are, in directory order, those of the readable
   * entries: each one comes from a readable entry and each readable entry
   * gives one.
   */
  lemma ParsedRecords(entries: seq<string>, read: string -> Option<string>)
    requires forall i :: 0 <= i < |entries| && read(entries[i]).Some? ==> HasStatFields(read(entries[i]).value)
    ensures |Collect(entries, StatPick(read))| <= |entries|
    ensures forall k :: 0 <= k < |Collect(entries, StatPick(read))| ==>
      exists i :: 0 <= i < |entries| && ParsedFrom(read, entries[i], Collect(entries, StatPick(read))[k])
    ensures forall i :: 0 <= i < |entries| && read(entries[i]).Some? ==>
      ParseStat(read(entries[i]).value) in Collect(entries, StatPick(read))
  {
    CollectLength(entries, StatPick(read));
    forall k | 0 <= k < |Collect(entries, StatPick(read))|
      ensures exists i :: 0 <= i < |entries| && ParsedFrom(read, entries[i], Collect(entries, StatPick(read))[k])
    {
      CollectOrigin(entries, StatPick(read), k);
    }
    forall i | 0 <= i < |entries| && read(entries[i]).Some?
      ensures ParseStat(read(entries[i]).value) in Collect(entries, StatPick(read))
    {
      CollectComplete(entries, StatPick(read), i);
    }
  }

  // ---------------------------------------------------------------------
  // getCpuUsage and CPU

  /** The `CpuUsage` record. */
  datatype CpuUsage = CpuUsage(pid: string, process: string, usage: real)

  /**
   * What `getCpuUsage` keeps for one record: nothing when the time in seconds
   * since the process started (system uptime less its start time) is not
   * positive, otherwise its PID, name and percentage. The floating-point
   * formulas for both are given as `seconds` and `percent`.
   */
  function CpuPick(seconds: Proc -> real, percent: Proc -> real): Proc -> Option<CpuUsage> {
    p => if seconds(p) <= 0.0 then None else Some(CpuUsage(p.pid, p.process, percent(p)))
  }

  /** `getCpuUsage`. */
  method GetCpuUsage(processes: seq<Proc>, seconds: Proc -> real, percent: Proc -> real) returns (usage: seq<CpuUsage>)
    ensures usage == Collect(processes, CpuPick(seconds, percent))
  {
    usage := [];
    var i := 0;
    while i < |processes|
      invariant 0 <= i <= |processes|
      invariant usage == Collect(processes[..i], CpuPick(seconds, percent))
    {
      assert processes[..i + 1][..i] == processes[..i];
      var process := processes[i];
      if seconds(process) <= 0.0 {
        i := i + 1;
        continue;
      }
      usage := usage + [CpuUsage(process.pid, process.process, percent(process))];
      i := i + 1;
    }
    assert processes[..i] == processes;
  }

  /** `u` is the usage entry of record `p`: it started a positive time ago, and `u` copies its PID and name. */
  ghost predicate UsageFrom(seconds: Proc -> real, percent: Proc -> real, p: Proc, u: CpuUsage) {
    seconds(p) > 0.0 && u == CpuUsage(p.pid, p.process, percent(p))
  }

  /**
   * Each usage entry copies the PID and name of a record that started a
   * positive time ago; each such record gives one; none is invented.
   */
  lemma CpuUsageEntries(processes: seq<Proc>, seconds: Proc -> real, percent: Proc -> real)
    ensures |Collect(processes, CpuPick(seconds, percent))| <= |processes|
    ensures forall k :: 0 <= k < |Collect(processes, CpuPick(seconds, percent))| ==>
      exists i :: 0 <= i < |processes| && UsageFrom(seconds, percent, processes[i], Collect(processes, CpuPick(seconds, percent))[k])
    ensures forall i :: 0 <= i < |processes| && seconds(processes[i]) > 0.0 ==>
      CpuUsage(processes[i].pid, processes[i].process, percent(processes[i]))
        in Collect(processes, CpuPick(seconds, percent))
  {
    CollectLength(processes, CpuPick(seconds, percent));
    forall k | 0 <= k < |Collect(processes, CpuPick(seconds, percent))|
      ensures exists i :: 0 <= i < |processes| && UsageFrom(seconds, percent, processes[i], Collect(processes, CpuPick(seconds, percent))[k])
    {
      CollectOrigin(processes, CpuPick(seconds, percent), k);
    }
    forall i | 0 <= i < |processes| && seconds(processes[i]) > 0.0
      ensures CpuUsage(processes[i].pid, processes[i].process, percent(processes[i]))
        in Collect(processes, CpuPick(seconds, percent))
    {
      CollectComplete(processes, CpuPick(seconds, percent), i);
    }
  }

  /**
   * What `os.ReadDir("/proc")` returns: the entries it read, sorted by name,
   * and whether it reported an error. A failed open reads no entries; an
   * error part-way still returns the entries read before it.
   */
  datatype Listing = Listing(entries: seq<string>, failed: bool)

  /**
   * `CPU()`: an error from `os.ReadDir("/proc")` is only logged, and the
   * entries it did return are parsed and their usage computed either way.
   */
  method Cpu(dir: Listing, read: string -> Option<string>, seconds: Proc -> real, percent: Proc -> real)
    returns (usage: seq<CpuUsage>)
    requires forall i :: 0 <= i < |dir.entries| && read(dir.entries[i]).Some? ==> HasStatFields(read(dir.entries[i]).value)
    ensures usage == Collect(Collect(dir.entries, StatPick(read)), CpuPick(seconds, percent))
    ensures |usage| <= |dir.entries|
  {
    if dir.failed {
      // only logged
    }
    var processes := ParseProcDir(dir.entries, read);
    usage := GetCpuUsage(processes, seconds, percent);
    CollectLength(dir.entries, StatPick(read));
    CollectLength(processes, CpuPick(seconds, percent));
  }
}
