/** System telemetry of runlog (runlog.c): the available-memory estimate of each
    platform and the scaling of peak resident memory. */
module RunLog {
  import opened CLib

  /** The platform the program is built for (`__linux__`, `__APPLE__`, other). */
  datatype Platform = Linux | MacOS | OtherPlatform

  // -----------------------------------------------------------------------
  // rl_mem_peak

  /** The peak-memory figure stored from `ru_maxrss`: Linux reports kilobytes,
      which are scaled to bytes; every other platform keeps the raw counter,
      which is bytes on macOS and whatever unit the platform uses elsewhere. */
  function MemPeak(platform: Platform, maxrss: int): (bytes: int)
  {
    if platform == Linux then maxrss * 1024 else maxrss
  }

  /** On Linux the normalised value is a whole number of kilobytes and the raw
      counter is recovered by dividing by 1024; on every other platform it is
      the raw counter unchanged. */
  lemma MemPeakUnits(platform: Platform, maxrss: int)
    ensures platform == Linux ==> MemPeak(platform, maxrss) % 1024 == 0
    ensures platform == Linux ==> MemPeak(platform, maxrss) / 1024 == maxrss
    ensures platform != Linux ==> MemPeak(platform, maxrss) == maxrss
  {
  }

  lemma MemPeakExample()
    ensures MemPeak(Linux, 12345) == 12641280
    ensures MemPeak(MacOS, 12345) == 12345
  {
  }

  // -----------------------------------------------------------------------
  // read_key

  /** The size of the line buffer, passed to read_key as `len`. */
  const BUF_LEN: int := 256

  /** The scan of read_key moves past every index in `off..i`: each lies before
      `len` and holds neither the terminator nor a digit. */
  ghost predicate Skipped(s: seq<char>, off: nat, len: int, i: nat) {
    forall k :: off <= k < i ==> Passed(s, len, k)
  }

  /** The loop of read_key steps over index `k`: it is before `len` and holds
      neither the terminator nor a digit. */
  predicate Passed(s: seq<char>, len: int, k: int) {
    0 <= k < len && k < |s| && s[k] != NUL && !IsDigit(s[k])
  }

  /** Where the `for` loop of read_key leaves `i` when started at `i`: the first
      index that is at or past `len`, holds the terminator, or holds a digit. */
  function ScanStop(s: seq<char>, i: nat, len: int): (j: nat)
    requires Terminated(s) && i < |s|
    ensures i <= j < |s|
    ensures j < len && s[j] != NUL ==> IsDigit(s[j])
    decreases |s| - i
  {
    if i >= len || s[i] == NUL || IsDigit(s[i]) then i else ScanStop(s, i + 1, len)
  }

  /** Every index the scan passes is skipped legitimately. */
  lemma {:induction false} ScanStopSkips(s: seq<char>, i: nat, len: int)
    requires Terminated(s) && i < |s|
    ensures Skipped(s, i, len, ScanStop(s, i, len))
    decreases |s| - i
  {
    if !(i >= len || s[i] == NUL || IsDigit(s[i])) {
      ScanStopSkips(s, i + 1, len);
      assert Passed(s, len, i);
    }
  }

  /** What read_key does with the C string `s`: `Done(None)` is "returned 0,
      `*x` not written", `Done(Some(x))` is "returned 1 and stored `x`",
      `AssertionFailure` is the failed `assert` once a label matched but no
      digit follows it before the terminator or `len` (asserts compiled in). */
  function ReadKeyOf(s: seq<char>, len: int, key: seq<char>): (r: Run<Option<nat>>)
    requires Terminated(s)
    ensures r == Done(None) <==> !HasPrefix(s, key)
  {
    if !HasPrefix(s, key) then Done(None)
    else
      var i := ScanStop(s, |key|, len);
      if i < len && s[i] != NUL then Done(Some(Atol(s, i))) else AssertionFailure
  }

  /** On a matching line read_key stores the decimal at the first digit the
      scan reaches, which is non-negative; it fails its assertion exactly when
      the scan reaches the terminator or `len` before any digit. */
  lemma ReadKeyMeaning(s: seq<char>, len: int, key: seq<char>)
    requires Terminated(s)
    ensures var r := ReadKeyOf(s, len, key);
      r.Done? && r.value.Some? ==>
        exists i :: |key| <= i < len && i < |s| && Skipped(s, |key|, len, i) &&
          IsDigit(s[i]) && r.value.value == Atol(s, i)
    ensures ReadKeyOf(s, len, key).AssertionFailure? <==>
      HasPrefix(s, key) &&
      forall i :: |key| <= i < |s| && Skipped(s, |key|, len, i) ==> !(i < len && IsDigit(s[i]))
  {
    if HasPrefix(s, key) {
      var i := ScanStop(s, |key|, len);
      ScanStopSkips(s, |key|, len);
      if !(i < len && s[i] != NUL) {
        forall k | |key| <= k < |s| && Skipped(s, |key|, len, k) && k < len
          ensures !IsDigit(s[k])
        {
          assert k < i ==> Passed(s, len, k);
          assert i < k ==> Passed(s, len, i);
        }
      }
    }
  }

  /** read_key (runlog.c): compare the label, then scan from offset `|key|` to
      the first digit and parse the decimal there. */
  method ReadKey(s: seq<char>, len: int, key: seq<char>) returns (r: Run<Option<nat>>)
    requires Terminated(s)
    ensures r == ReadKeyOf(s, len, key)
  {
    var off := |key|;
    if !(off < |s| && s[..off] == key) {
      return Done(None);
    }
    var i := off;
    while i < len && s[i] != NUL
      invariant off <= i < |s|
      invariant ScanStop(s, off, len) == ScanStop(s, i, len)
      decreases |s| - i
    {
      if IsDigit(s[i]) {
        break;
      }
      i := i + 1;
    }
    if !(i < len && s[i] != NUL) {
      return AssertionFailure;
    }
    r := Done(Some(Atol(s, i)));
  }

  /** A meminfo line written as label, padding without digits, the decimal
      numeral of `n` and a non-numeric rest (such as " kB\n") reads back as `n`. */
  lemma ReadKeyReadsNumeral(key: seq<char>, pad: seq<char>, n: nat, rest: seq<char>)
    requires forall k :: 0 <= k < |pad| ==> pad[k] != NUL && !IsDigit(pad[k])
    requires |key| + |pad| < BUF_LEN
    requires rest == [] || !IsDigit(rest[0])
    ensures ReadKeyOf(key + pad + DecimalDigits(n) + rest + [NUL], BUF_LEN, key) == Done(Some(n))
  {
    var ds := DecimalDigits(n);
    var s := key + pad + ds + rest + [NUL];
    var at := |key| + |pad|;
    assert s[..|key|] == key;
    assert s[at..at + |ds|] == ds;
    assert s[at + |ds|] == if rest == [] then NUL else rest[0];
    AtolReadsNumeral(s, at, n);
    ScanStopAt(s, |key|, BUF_LEN, at);
  }

  lemma {:induction false} ScanStopAt(s: seq<char>, i: nat, len: int, j: nat)
    requires Terminated(s) && i <= j < |s|
    requires Skipped(s, i, len, j)
    requires j < len && IsDigit(s[j])
    ensures ScanStop(s, i, len) == j
    decreases j - i
  {
    if i < j {
      assert Passed(s, len, i);
      ScanStopAt(s, i + 1, len, j);
    }
  }

  // -----------------------------------------------------------------------
  // The /proc/meminfo scan

  /** The five counters rl_mem_avail collects, in the order it tests them. */
  datatype Field = MemAvailable | MemFree | InactiveFile | ActiveFile | SReclaimable

  function Label(f: Field): (text: string) {
    match f
    case MemAvailable => "MemAvailable:"
    case MemFree => "MemFree:"
    case InactiveFile => "Inactive(file):"
    case ActiveFile => "Active(file):"
    case SReclaimable => "SReclaimable:"
  }

  /** The five local counters of the Linux rl_mem_avail, in kilobytes; -1 means
      "no line carried this label". */
  datatype MemInfo = MemInfo(memAvailable: int, memFree: int, inactiveFile: int,
                             activeFile: int, sReclaimable: int)
  {
    function Get(f: Field): (x: int) {
      match f
      case MemAvailable => memAvailable
      case MemFree => memFree
      case InactiveFile => inactiveFile
      case ActiveFile => activeFile
      case SReclaimable => sReclaimable
    }

    function Set(f: Field, x: int): (m: MemInfo)
      ensures m.Get(f) == x
      ensures forall g :: g != f ==> m.Get(g) == Get(g)
    {
      match f
      case MemAvailable => this.(memAvailable := x)
      case MemFree => this.(memFree := x)
      case InactiveFile => this.(inactiveFile := x)
      case ActiveFile => this.(activeFile := x)
      case SReclaimable => this.(sReclaimable := x)
    }
  }

  /** The counters before the first line is read. */
  const Unread: MemInfo := MemInfo(-1, -1, -1, -1, -1)

  /** The buffer fgets leaves for one line: its characters and the terminator. */
  function CLine(line: string): (s: string)
    ensures Terminated(s)
  {
    line + [NUL]
  }

  /** The label the `else if` chain accepts, trying the labels in order. */
  function MatchedField(s: string): (r: Option<Field>)
    ensures r.Some? ==> HasPrefix(s, Label(r.value))
    ensures r.None? <==> forall f :: !HasPrefix(s, Label(f))
  {
    if HasPrefix(s, Label(MemAvailable)) then Some(MemAvailable)
    else if HasPrefix(s, Label(MemFree)) then Some(MemFree)
    else if HasPrefix(s, Label(InactiveFile)) then Some(InactiveFile)
    else if HasPrefix(s, Label(ActiveFile)) then Some(ActiveFile)
    else if HasPrefix(s, Label(SReclaimable)) then Some(SReclaimable)
    else None
  }

  /** No line starts with two of the labels, so the order of the tests only
      decides which read_key calls are made, never which field is set. */
  lemma LabelsExclusive(s: string, f: Field, g: Field)
    requires f != g && HasPrefix(s, Label(f))
    ensures !HasPrefix(s, Label(g))
  {
    var d := if (f == MemAvailable && g == MemFree) || (f == MemFree && g == MemAvailable) then 3 else 0;
    assert Label(f)[d] != Label(g)[d];
    assert s[d] == Label(f)[d] by {
      assert s[..|Label(f)|][d] == s[d];
    }
    if |Label(g)| < |s| {
      assert s[..|Label(g)|][d] == s[d];
    }
  }

  lemma MatchedFieldIff(s: string, f: Field)
    ensures MatchedField(s) == Some(f) <==> HasPrefix(s, Label(f))
  {
    if HasPrefix(s, Label(f)) && MatchedField(s) != Some(f) {
      LabelsExclusive(s, f, MatchedField(s).value);
    }
  }

  /** A line whose label matched but which has no digit where read_key looks. */
  predicate Malformed(line: string) {
    var s := CLine(line);
    MatchedField(s).Some? && ReadKeyOf(s, BUF_LEN, Label(MatchedField(s).value)).AssertionFailure?
  }

  /** One iteration of the `while (fgets …)` loop. */
  function LineStep(info: MemInfo, line: string): (r: Run<MemInfo>)
    ensures r.AssertionFailure? <==> Malformed(line)
  {
    var s := CLine(line);
    match MatchedField(s)
    case None => Done(info)
    case Some(f) =>
      match ReadKeyOf(s, BUF_LEN, Label(f))
      case AssertionFailure => AssertionFailure
      case Done(Some(x)) => Done(info.Set(f, x))
      case Done(None) => Done(info)
  }

  /** A line sets at most one field: the one whose label it starts with. */
  lemma LineSetsAtMostOne(info: MemInfo, line: string, g: Field)
    requires LineStep(info, line).Done?
    ensures LineStep(info, line).value.Get(g) == info.Get(g) || HasPrefix(CLine(line), Label(g))
  {
  }

  /** The counters after reading `lines` in order. */
  function ScanLines(lines: seq<string>): (r: Run<MemInfo>)
  {
    if lines == [] then Done(Unread)
    else
      match ScanLines(lines[..|lines| - 1])
      case AssertionFailure => AssertionFailure
      case Done(info) => LineStep(info, lines[|lines| - 1])
  }

  /** Once a line has aborted the scan, no later line brings it back. */
  lemma {:induction false} ScanAbortPersists(lines: seq<string>, n: nat)
    requires n <= |lines| && ScanLines(lines[..n]).AssertionFailure?
    ensures ScanLines(lines).AssertionFailure?
    decreases |lines| - n
  {
    if n < |lines| {
      assert lines[..n + 1][..n] == lines[..n];
      ScanAbortPersists(lines, n + 1);
    } else {
      assert lines[..n] == lines;
    }
  }

  /** The value the last line carrying the label of `f` stored, or -1. */
  function LastValue(lines: seq<string>, f: Field): (x: int)
  {
    if lines == [] then -1
    else
      match ReadKeyOf(CLine(lines[|lines| - 1]), BUF_LEN, Label(f))
      case Done(Some(x)) => x
      case _ => LastValue(lines[..|lines| - 1], f)
  }

  /** The last matching line wins, for every field independently. */
  lemma {:induction false} ScanLastWins(lines: seq<string>, f: Field)
    requires ScanLines(lines).Done?
    ensures ScanLines(lines).value.Get(f) == LastValue(lines, f)
  {
    if lines != [] {
      var init, line := lines[..|lines| - 1], lines[|lines| - 1];
      ScanLastWins(init, f);
      var s := CLine(line);
      match MatchedField(s)
      case None =>
      case Some(g) =>
        if g != f {
          LabelsExclusive(s, g, f);
        }
    }
  }

  /** A field whose label starts no line stays -1. */
  lemma {:induction false} NeverMatchedStaysUnread(lines: seq<string>, f: Field)
    requires ScanLines(lines).Done?
    requires forall n :: 0 <= n < |lines| ==> !HasPrefix(CLine(lines[n]), Label(f))
    ensures ScanLines(lines).value.Get(f) == -1
  {
    ScanLastWins(lines, f);
    LastValueUnmatched(lines, f);
  }

  lemma {:induction false} LastValueUnmatched(lines: seq<string>, f: Field)
    requires forall n :: 0 <= n < |lines| ==> !HasPrefix(CLine(lines[n]), Label(f))
    ensures LastValue(lines, f) == -1
  {
    if lines != [] {
      var init := lines[..|lines| - 1];
      assert forall n :: 0 <= n < |init| ==> init[n] == lines[n];
      LastValueUnmatched(init, f);
    }
  }

  /** The scan aborts exactly when some line is malformed. */
  lemma ScanAbortsIff(lines: seq<string>)
    ensures ScanLines(lines).AssertionFailure? <==> exists n :: 0 <= n < |lines| && Malformed(lines[n])
  {
    if ScanLines(lines).AssertionFailure? {
      var n := AbortingLine(lines);
    } else {
      forall n | 0 <= n < |lines|
        ensures !Malformed(lines[n])
      {
        if Malformed(lines[n]) {
          MalformedAborts(lines, n);
        }
      }
    }
  }

  /** An aborted scan has a malformed line. */
  lemma {:induction false} AbortingLine(lines: seq<string>) returns (n: nat)
    requires ScanLines(lines).AssertionFailure?
    ensures n < |lines| && Malformed(lines[n])
  {
    var init, last := lines[..|lines| - 1], lines[|lines| - 1];
    assert lines == init + [last];
    ScanLinesSnoc(init, last);
    if ScanLines(init).AssertionFailure? {
      n := AbortingLine(init);
      assert lines[n] == init[n];
    } else {
      n := |lines| - 1;
    }
  }

  /** A malformed line aborts the scan, whatever precedes or follows it. */
  lemma MalformedAborts(lines: seq<string>, n: nat)
    requires n < |lines| && Malformed(lines[n])
    ensures ScanLines(lines).AssertionFailure?
  {
    PrefixAborts(lines, n);
    ScanAbortPersists(lines, n + 1);
  }

  lemma PrefixAborts(lines: seq<string>, n: nat)
    requires n < |lines| && Malformed(lines[n])
    ensures ScanLines(lines[..n + 1]).AssertionFailure?
  {
    assert lines[..n + 1] == lines[..n] + [lines[n]];
    ScanLinesSnoc(lines[..n], lines[n]);
  }

  /** Reading one more line is one more LineStep, unless the scan has aborted. */
  lemma ScanLinesSnoc(init: seq<string>, line: string)
    ensures ScanLines(init + [line]) ==
      if ScanLines(init).AssertionFailure? then AssertionFailure
      else LineStep(ScanLines(init).value, line)
  {
    assert (init + [line])[..|init|] == init;
  }

  // -----------------------------------------------------------------------
  // The available-memory estimate

  /** `low = min_free * 5 / 4` with C's truncating division. */
  function WatermarkLow(minFreeKbytes: int): (low: int) {
    CDiv(minFreeKbytes * 5, 4)
  }

  /** The procps heuristic (free.c) before clamping, in kilobytes. */
  function ProcpsEstimateKb(info: MemInfo, minFreeKbytes: int): (kb: int) {
    var low := WatermarkLow(minFreeKbytes);
    var pageCache := info.inactiveFile + info.activeFile;
    info.memFree - low
      + pageCache - Min(CDiv(pageCache, 2), low)
      + info.sReclaimable - Min(CDiv(info.sReclaimable, 2), low)
  }

  /** The value `mem_avail` holds before the final `* 1024`. */
  function AvailableKb(info: MemInfo, minFreeKbytes: int): (kb: int)
    ensures kb >= 0
  {
    if info.memAvailable >= 0 then info.memAvailable
    else
      var estimate := ProcpsEstimateKb(info, minFreeKbytes);
      if estimate < 0 then 0 else estimate
  }

  /** The kernel's own figure is trusted verbatim, and `min_free_kbytes` does
      not influence the result then. */
  lemma DirectCounterTrusted(info: MemInfo, minFree1: int, minFree2: int)
    requires info.memAvailable >= 0
    ensures AvailableKb(info, minFree1) == info.memAvailable
    ensures AvailableKb(info, minFree1) == AvailableKb(info, minFree2)
  {
  }

  /** Without MemAvailable the estimate is the clamped procps formula. */
  lemma FallbackIsClampedEstimate(info: MemInfo, minFree: int)
    requires info.memAvailable < 0
    ensures AvailableKb(info, minFree) == if ProcpsEstimateKb(info, minFree) < 0 then 0 else ProcpsEstimateKb(info, minFree)
  {
  }

  /** With non-negative inputs the fallback never exceeds free memory plus the
      whole page cache plus all reclaimable slab. */
  lemma FallbackBounded(info: MemInfo, minFree: int)
    requires info.memAvailable < 0 && minFree >= 0
    requires info.memFree >= 0 && info.inactiveFile >= 0 && info.activeFile >= 0 && info.sReclaimable >= 0
    ensures AvailableKb(info, minFree) <= info.memFree + info.inactiveFile + info.activeFile + info.sReclaimable
  {
  }

  /** Raising `min_free_kbytes` never raises the fallback estimate. */
  lemma FallbackAntitone(info: MemInfo, minFree1: int, minFree2: int)
    requires info.memAvailable < 0 && minFree1 <= minFree2
    ensures AvailableKb(info, minFree2) <= AvailableKb(info, minFree1)
  {
    CDivMonotone(minFree1 * 5, minFree2 * 5, 4);
  }

  lemma CDivMonotone(a: int, b: int, d: int)
    requires a <= b && d > 0
    ensures CDiv(a, d) <= CDiv(b, d)
  {
    if a < 0 && b >= 0 {
    } else if a < 0 {
      assert (-b) / d <= (-a) / d by { DivMonotone(-b, -a, d); }
    } else {
      DivMonotone(a, b, d);
    }
  }

  lemma DivMonotone(a: int, b: int, d: int)
    requires 0 <= a <= b && d > 0
    ensures a / d <= b / d
  {
    var qa, qb := a / d, b / d;
    assert qa * d <= a && b < qb * d + d;
    assert (qa - qb) * d < d;
    BelowDivisor(qa - qb, d);
  }

  lemma BelowDivisor(x: int, d: int)
    requires d > 0 && x * d < d
    ensures x < 1
  {
  }

  /** An unreadable `min_free_kbytes` (-1) gives `low == -1`, as in C. */
  lemma UnreadableMinFreeLow()
    ensures WatermarkLow(-1) == -1
  {
  }

  /** The worked example: no MemAvailable, MemFree 1000000, Inactive(file)
      2000000, Active(file) 500000, SReclaimable 300000, min_free 67584. */
  lemma FallbackExample()
    ensures WatermarkLow(67584) == 84480
    ensures AvailableKb(MemInfo(-1, 1000000, 2000000, 500000, 300000), 67584) == 3546560
    ensures AvailableKb(MemInfo(-1, 1000000, 2000000, 500000, 300000), 67584) * 1024 == 3631677440
  {
  }

  /** rl_mem_avail on Linux: `meminfo` is the lines of /proc/meminfo, or None
      when it cannot be opened. */
  function LinuxMemAvail(meminfo: Option<seq<string>>, minFreeKbytes: int): (r: Run<int>)
  {
    match meminfo
    case None => Done(-1)
    case Some(lines) =>
      match ScanLines(lines)
      case AssertionFailure => AssertionFailure
      case Done(info) => Done(AvailableKb(info, minFreeKbytes) * 1024)
  }

  /** -1 exactly when /proc/meminfo cannot be opened; otherwise a non-negative
      whole number of kilobytes, in bytes. */
  lemma LinuxMemAvailRange(meminfo: Option<seq<string>>, minFree: int)
    requires LinuxMemAvail(meminfo, minFree).Done?
    ensures LinuxMemAvail(meminfo, minFree).value == -1 <==> meminfo.None?
    ensures meminfo.Some? ==> LinuxMemAvail(meminfo, minFree).value >= 0
    ensures meminfo.Some? ==> LinuxMemAvail(meminfo, minFree).value % 1024 == 0
  {
    if meminfo.Some? {
      var kb := AvailableKb(ScanLines(meminfo.value).value, minFree);
      assert LinuxMemAvail(meminfo, minFree).value == kb * 1024;
      WholeKilobytes(kb);
    }
  }

  lemma WholeKilobytes(kb: nat)
    ensures kb * 1024 >= 0 && (kb * 1024) % 1024 == 0
  {
  }

  /** The body of the `while (fgets …)` loop of the Linux rl_mem_avail: the
      `else if` chain of read_key calls, the first label that matches storing
      its value into its counter. */
  method ReadLine(info: MemInfo, line: string) returns (r: Run<MemInfo>)
    ensures r == LineStep(info, line)
  {
    var buf := CLine(line);
    var x := ReadKey(buf, BUF_LEN, "MemAvailable:");
    if x.AssertionFailure? { return AssertionFailure; }
    if x.value.Some? { return Done(info.(memAvailable := x.value.value)); }
    x := ReadKey(buf, BUF_LEN, "MemFree:");
    if x.AssertionFailure? { return AssertionFailure; }
    if x.value.Some? { return Done(info.(memFree := x.value.value)); }
    x := ReadKey(buf, BUF_LEN, "Inactive(file):");
    if x.AssertionFailure? { return AssertionFailure; }
    if x.value.Some? { return Done(info.(inactiveFile := x.value.value)); }
    x := ReadKey(buf, BUF_LEN, "Active(file):");
    if x.AssertionFailure? { return AssertionFailure; }
    if x.value.Some? { return Done(info.(activeFile := x.value.value)); }
    x := ReadKey(buf, BUF_LEN, "SReclaimable:");
    if x.AssertionFailure? { return AssertionFailure; }
    if x.value.Some? { return Done(info.(sReclaimable := x.value.value)); }
    return Done(info);
  }

  /** The Linux rl_mem_avail: scan the lines, keep the last value per label,
      then trust MemAvailable or fall back to the procps estimate. The five
      counters the source keeps in locals are the fields of `info`. */
  method MemAvailLinux(meminfo: Option<seq<string>>, minFreeKbytes: int) returns (r: Run<int>)
    ensures r == LinuxMemAvail(meminfo, minFreeKbytes)
  {
    var info := Unread;
    if meminfo.None? {
      return Done(-1);
    }
    var lines := meminfo.value;
    var n := 0;
    while n < |lines|
      invariant 0 <= n <= |lines|
      invariant ScanLines(lines[..n]) == Done(info)
    {
      assert lines[..n + 1] == lines[..n] + [lines[n]];
      ScanLinesSnoc(lines[..n], lines[n]);
      var step := ReadLine(info, lines[n]);
      if step.AssertionFailure? {
        ScanAbortPersists(lines, n + 1);
        return AssertionFailure;
      }
      info := step.value;
      n := n + 1;
    }
    assert lines[..n] == lines;
    var memAvail: int := info.memAvailable;
    if memAvail < 0 {
      var low := CDiv(minFreeKbytes * 5, 4);
      var pageCache := info.inactiveFile + info.activeFile;
      memAvail := info.memFree - low
        + pageCache - (if CDiv(pageCache, 2) < low then CDiv(pageCache, 2) else low)
        + info.sReclaimable - (if CDiv(info.sReclaimable, 2) < low then CDiv(info.sReclaimable, 2) else low);
      if memAvail < 0 {
        memAvail := 0;
      }
    }
    assert memAvail == AvailableKb(info, minFreeKbytes);
    r := Done(memAvail * 1024);
  }

  // -----------------------------------------------------------------------
  // rl_mem_avail on macOS and elsewhere

  /** The fields of Mach's `vm_statistics64` that rl_mem_avail uses. */
  datatype VmStatistics = VmStatistics(externalPageCount: uint32, purgeableCount: uint32,
                                       freeCount: uint32, speculativeCount: uint32)

  /** rl_mem_avail on macOS: `stats` is None when `host_statistics64` fails.
      The page counts are summed in unsigned 32-bit arithmetic, left to right,
      then widened and multiplied by the page size. */
  function MacMemAvail(stats: Option<VmStatistics>, pageSize: int32): (bytes: int)
  {
    match stats
    case None => -1
    case Some(v) =>
      Wrap32(Wrap32(Wrap32(v.externalPageCount + v.purgeableCount) + v.freeCount) - v.speculativeCount) * pageSize
  }

  /** The three wrapping operations amount to one reduction of the exact sum. */
  lemma MacSumWrapsOnce(v: VmStatistics)
    ensures Wrap32(Wrap32(Wrap32(v.externalPageCount + v.purgeableCount) + v.freeCount) - v.speculativeCount)
         == Wrap32(v.externalPageCount + v.purgeableCount + v.freeCount - v.speculativeCount)
  {
    var e: int, p: int, f: int, s: int := v.externalPageCount, v.purgeableCount, v.freeCount, v.speculativeCount;
    Wrap32Absorbs(e + p, f);
    Wrap32Absorbs(e + p + f, -s);
  }

  /** When the page counts neither overflow nor go below zero, the result is the
      plain formula (external + purgeable + free - speculative) * page size. */
  lemma MacMemAvailExact(v: VmStatistics, pageSize: int32)
    requires 0 <= v.externalPageCount + v.purgeableCount + v.freeCount - v.speculativeCount < UINT32_MODULUS
    ensures MacMemAvail(Some(v), pageSize)
         == (v.externalPageCount + v.purgeableCount + v.freeCount - v.speculativeCount) * pageSize
  {
    MacSumWrapsOnce(v);
  }

  /** With a positive page size the result is non-negative and the widened
      product cannot overflow `int64_t`. */
  lemma MacMemAvailRange(v: VmStatistics, pageSize: int32)
    requires pageSize > 0
    ensures 0 <= MacMemAvail(Some(v), pageSize) <= (UINT32_MODULUS - 1) * pageSize
    ensures InInt64Range(MacMemAvail(Some(v), pageSize))
  {
    var w := Wrap32(Wrap32(Wrap32(v.externalPageCount + v.purgeableCount) + v.freeCount) - v.speculativeCount);
    assert 0 <= w * pageSize <= (UINT32_MODULUS - 1) * pageSize;
    assert (UINT32_MODULUS - 1) * pageSize < (UINT32_MODULUS - 1) * 0x8000_0000;
  }

  /** What rl_mem_avail reads from the host: the lines of /proc/meminfo and the
      value of /proc/sys/vm/min_free_kbytes (-1 when unreadable) on Linux, the
      result of `host_statistics64` and the page size on macOS. */
  datatype HostMemory = HostMemory(meminfo: Option<seq<string>>, minFreeKbytes: int,
                                   vmStats: Option<VmStatistics>, pageSize: int32)

  /** rl_mem_avail on each platform; any platform other than Linux and macOS
      has no estimator and reports -1. */
  function MemAvailOf(platform: Platform, host: HostMemory): (r: Run<int>)
  {
    match platform
    case Linux => LinuxMemAvail(host.meminfo, host.minFreeKbytes)
    case MacOS => Done(MacMemAvail(host.vmStats, host.pageSize))
    case OtherPlatform => Done(-1)
  }

  /** Whether the platform's estimator can run at all on this host. */
  predicate EstimatorAvailable(platform: Platform, host: HostMemory) {
    match platform
    case Linux => host.meminfo.Some?
    case MacOS => host.vmStats.Some?
    case OtherPlatform => false
  }

  /** The result is negative exactly when there is no estimate, and then it is
      the sentinel -1: callers may test `>= 0`. */
  lemma MemAvailSentinel(platform: Platform, host: HostMemory)
    requires MemAvailOf(platform, host).Done? && host.pageSize > 0
    ensures MemAvailOf(platform, host).value < 0 <==> !EstimatorAvailable(platform, host)
    ensures MemAvailOf(platform, host).value < 0 ==> MemAvailOf(platform, host).value == -1
  {
    if platform == MacOS && host.vmStats.Some? {
      MacMemAvailRange(host.vmStats.value, host.pageSize);
    }
  }

  /** rl_mem_avail as built for `platform`. */
  method MemAvail(platform: Platform, host: HostMemory) returns (r: Run<int>)
    ensures r == MemAvailOf(platform, host)
  {
    match platform
    case Linux =>
      r := MemAvailLinux(host.meminfo, host.minFreeKbytes);
    case MacOS =>
      r := Done(MacMemAvail(host.vmStats, host.pageSize));
    case OtherPlatform =>
      r := Done(-1);
  }
}
