/** The process supervisor of runlog (cli.c): launch_cmd forks the command,
    ignores SIGINT and SIGQUIT while it waits for the child, classifies how the
    child ended and records its resource usage; main checks its arguments,
    takes the available-memory snapshots, writes the report and picks the
    exit code. Every answer of the operating system (fork, execvp, wait3, the
    clock, the telemetry sources) is an input. */
module Cli {
  import opened CLib
  import opened RunLog

  // -----------------------------------------------------------------------
  // Signal dispositions

  /** A disposition as `signal()` installs and returns it. */
  datatype Disposition = SigDefault | SigIgnore | SigHandler(id: nat)

  datatype SignalName = SigInt | SigQuit

  /** The process-wide dispositions of the two signals launch_cmd touches. */
  datatype Dispositions = Dispositions(sigint: Disposition, sigquit: Disposition)
  {
    function Get(which: SignalName): (d: Disposition) {
      if which == SigInt then sigint else sigquit
    }

    function Set(which: SignalName, d: Disposition): (r: Dispositions)
      ensures r.Get(which) == d
      ensures forall other :: other != which ==> r.Get(other) == Get(other)
    {
      if which == SigInt then this.(sigint := d) else this.(sigquit := d)
    }
  }

  /** The supervising process's signal table. */
  class SignalTable {
    var sigint: Disposition
    var sigquit: Disposition

    function State(): (d: Dispositions)
      reads this
    {
      Dispositions(sigint, sigquit)
    }

    constructor (initial: Dispositions)
      ensures State() == initial
    {
      sigint, sigquit := initial.sigint, initial.sigquit;
    }

    /** `signal(which, d)`: install `d` and return the disposition it replaces. */
    method Signal(which: SignalName, d: Disposition) returns (previous: Disposition)
      modifies this
      ensures previous == old(State()).Get(which)
      ensures State() == old(State()).Set(which, d)
    {
      if which == SigInt {
        previous := sigint;
        sigint := d;
      } else {
        previous := sigquit;
        sigquit := d;
      }
    }
  }

  // -----------------------------------------------------------------------
  // Wait statuses and the result record

  type ExitByte = x: int | 0 <= x < 256

  type SignalNumber = x: int | 1 <= x witness 1

  /** A wait status as the POSIX `<sys/wait.h>` macros see it: WIFEXITED with
      WEXITSTATUS, WIFSIGNALED with WTERMSIG, or neither (stopped/continued). */
  datatype WaitStatus = Exited(code: ExitByte) | Signaled(signo: SignalNumber) | OtherStatus

  /** The parts of `struct rusage` that launch_cmd copies; the CPU times are
      kept as whole microseconds. */
  datatype Usage = Usage(utimeMicros: int, stimeMicros: int, maxrss: int)

  /** One `wait3` call: its return value, and the status and usage it stores. */
  datatype WaitCall = WaitCall(ret: int, status: WaitStatus, usage: Usage)

  /** The `ret`/`sig` pair of `rl_res_t`. */
  datatype Termination = Termination(ret: int, sig: int)

  /** Lines 52-54 of launch_cmd: an exit code is kept with `sig == 0`, a signal
      death gives `ret == -1` and the signal, anything else gives -1 and 0. */
  function Classify(status: WaitStatus): (t: Termination)
    ensures t.sig != 0 <==> status.Signaled?
    ensures t.ret >= 0 <==> status.Exited?
    ensures status.Exited? ==> t.ret == status.code
    ensures status.Signaled? ==> t.sig == status.signo
    ensures !status.Exited? ==> t.ret == -1
    ensures t.sig >= 0
  {
    if status.Exited? then Termination(status.code, 0)
    else if status.Signaled? then Termination(-1, status.signo)
    else Termination(-1, 0)
  }

  /** The fields of `rl_res_t`. Times are abstract clock readings (rtime) and
      microseconds (utime, stime); peakMem is `MemPeak` of `ru_maxrss`. */
  datatype ResFields = ResFields(rtime: int, utime: int, stime: int, peakMem: int, ret: int, sig: int)

  /** The record launch_cmd fills in through its `res` pointer. */
  class LaunchRecord {
    var rtime: int
    var utime: int
    var stime: int
    var peakMem: int
    var ret: int
    var sig: int

    function Fields(): (f: ResFields)
      reads this
    {
      ResFields(rtime, utime, stime, peakMem, ret, sig)
    }

    /** A record whose contents are whatever the memory held: main declares
        `res` without initialising it. */
    constructor (contents: ResFields)
      ensures Fields() == contents
    {
      rtime, utime, stime, peakMem := contents.rtime, contents.utime, contents.stime, contents.peakMem;
      ret, sig := contents.ret, contents.sig;
    }
  }

  // -----------------------------------------------------------------------
  // The wait3 loop

  /** A call that ends the loop: it returned the child's pid, or -1. */
  predicate Decisive(c: WaitCall, pid: int) {
    c.ret == pid || c.ret == -1
  }

  /** The operating system eventually answers with the pid or with -1. */
  predicate WaitEnds(calls: seq<WaitCall>, pid: int) {
    exists k :: 0 <= k < |calls| && Decisive(calls[k], pid)
  }

  /** The index of the call that ends the loop. */
  function FirstDecisive(calls: seq<WaitCall>, pid: int, from: nat := 0): (k: nat)
    requires from <= |calls|
    requires exists m :: from <= m < |calls| && Decisive(calls[m], pid)
    ensures from <= k < |calls| && Decisive(calls[k], pid)
    ensures forall j :: from <= j < k ==> !Decisive(calls[j], pid)
    decreases |calls| - from
  {
    if Decisive(calls[from], pid) then from else FirstDecisive(calls, pid, from + 1)
  }

  /** `while ((ret = wait3(&status, 0, &r)) != pid) if (ret == -1) return -1;`
      Calls that return another pid are skipped; the loop stops at the first
      call that returns the pid or -1 (no retry on EINTR) and reports how many
      calls it made and what the last one returned and stored. */
  method WaitForChild(pid: int, calls: seq<WaitCall>) returns (count: nat, last: WaitCall)
    requires pid > 0 && WaitEnds(calls, pid)
    ensures 0 < count <= |calls| && last == calls[count - 1]
    ensures last.ret == pid || last.ret == -1
    ensures forall j :: 0 <= j < count - 1 ==> calls[j].ret != pid && calls[j].ret != -1
  {
    var k := 0;
    while calls[k].ret != pid
      invariant 0 <= k < |calls|
      invariant forall j :: 0 <= j < k ==> !Decisive(calls[j], pid)
      invariant exists m :: k <= m < |calls| && Decisive(calls[m], pid)
      decreases |calls| - k
    {
      if calls[k].ret == -1 {
        return k + 1, calls[k];
      }
      k := k + 1;
    }
    count, last := k + 1, calls[k];
  }

  // -----------------------------------------------------------------------
  // launch_cmd

  /** What the operating system does during one launch: the result of `fork`
      (negative: failure, 0: we are the child, positive: the child's pid),
      whether `execvp` replaces the child's image, the answers of `wait3`, and
      the clock readings before the fork and after the wait. */
  datatype OsBehaviour = OsBehaviour(forkRet: int, execSucceeds: bool, waits: seq<WaitCall>,
                                     clockStart: int, clockEnd: int)
  {
    /** What the operating system guarantees: a parent's wait ends. */
    predicate Valid() {
      forkRet > 0 ==> WaitEnds(waits, forkRet)
    }
  }

  /** `Returned(v)`: launch_cmd returned `v` in this process; `ImageReplaced`:
      `execvp` succeeded and this process now runs the command. */
  datatype LaunchOutcome = Returned(value: int) | ImageReplaced

  datatype LaunchEffect = LaunchEffect(outcome: LaunchOutcome, res: ResFields, dispositions: Dispositions)

  /** The effect of launch_cmd, seen from the process that called it. */
  function Launch(platform: Platform, os: OsBehaviour, res: ResFields, disp: Dispositions): (e: LaunchEffect)
    requires os.Valid()
  {
    var started := res.(rtime := os.clockStart);
    if os.forkRet < 0 then LaunchEffect(Returned(-1), started, disp)
    else if os.forkRet == 0 then
      LaunchEffect(if os.execSucceeds then ImageReplaced else Returned(0), started, disp)
    else
      var c := os.waits[FirstDecisive(os.waits, os.forkRet)];
      if c.ret == -1 then
        LaunchEffect(Returned(-1), started, Dispositions(SigIgnore, SigIgnore))
      else
        var t := Classify(c.status);
        LaunchEffect(Returned(0),
                     ResFields(os.clockEnd - os.clockStart, c.usage.utimeMicros, c.usage.stimeMicros,
                               MemPeak(platform, c.usage.maxrss), t.ret, t.sig),
                     disp)
  }

  /** In the parent, launch_cmd returns 0 exactly when some wait3 call returns
      the pid before any call returns -1; a -1 ends the wait even when the
      child's pid would have come later. */
  lemma LaunchSucceedsIff(platform: Platform, os: OsBehaviour, res: ResFields, disp: Dispositions)
    requires os.Valid() && os.forkRet > 0
    ensures Launch(platform, os, res, disp).outcome == Returned(0) <==>
      exists k :: 0 <= k < |os.waits| && os.waits[k].ret == os.forkRet &&
        forall j :: 0 <= j < k ==> os.waits[j].ret != -1
    ensures Launch(platform, os, res, disp).outcome != Returned(0) ==>
      Launch(platform, os, res, disp).outcome == Returned(-1)
  {
    var pid := os.forkRet;
    var k := FirstDecisive(os.waits, pid);
    if os.waits[k].ret == pid {
      assert forall j :: 0 <= j < k ==> os.waits[j].ret != -1;
    } else {
      forall m | 0 <= m < |os.waits| && os.waits[m].ret == pid
        ensures exists j :: 0 <= j < m && os.waits[j].ret == -1
      {
        assert k < m;
      }
    }
  }

  /** After a successful wait the record holds the counters of the call that
      returned the pid, peak memory scaled by `MemPeak`, the classified status and the
      elapsed time, and both dispositions are back to what they were. */
  lemma LaunchSuccessRecord(platform: Platform, os: OsBehaviour, res: ResFields, disp: Dispositions)
    requires os.Valid() && os.forkRet > 0
    requires Launch(platform, os, res, disp).outcome == Returned(0)
    ensures var e := Launch(platform, os, res, disp);
      var c := os.waits[FirstDecisive(os.waits, os.forkRet)];
      && c.ret == os.forkRet
      && e.dispositions == disp
      && e.res.rtime == os.clockEnd - os.clockStart
      && e.res.utime == c.usage.utimeMicros && e.res.stime == c.usage.stimeMicros
      && e.res.peakMem == MemPeak(platform, c.usage.maxrss)
      && (e.res.sig != 0 <==> c.status.Signaled?)
      && (c.status.Exited? ==> e.res.ret == c.status.code && e.res.sig == 0)
      && (c.status.Signaled? ==> e.res.ret == -1 && e.res.sig == c.status.signo)
      && (c.status.OtherStatus? ==> e.res.ret == -1 && e.res.sig == 0)
  {
  }

  /** Every path except a successful wait writes only `rtime` (with the start
      reading); dispositions are untouched on fork failure and in the child, and
      both left ignored after a wait error. */
  lemma LaunchFailurePaths(platform: Platform, os: OsBehaviour, res: ResFields, disp: Dispositions)
    requires os.Valid()
    requires os.forkRet <= 0 || Launch(platform, os, res, disp).outcome != Returned(0)
    ensures Launch(platform, os, res, disp).res == res.(rtime := os.clockStart)
    ensures os.forkRet < 0 ==> Launch(platform, os, res, disp) == LaunchEffect(Returned(-1), res.(rtime := os.clockStart), disp)
    ensures os.forkRet == 0 ==> Launch(platform, os, res, disp).dispositions == disp
    ensures os.forkRet == 0 ==>
      Launch(platform, os, res, disp).outcome == (if os.execSucceeds then ImageReplaced else Returned(0))
    ensures os.forkRet > 0 ==> Launch(platform, os, res, disp).outcome == Returned(-1)
    ensures os.forkRet > 0 ==> Launch(platform, os, res, disp).dispositions == Dispositions(SigIgnore, SigIgnore)
  {
  }

  /** launch_cmd (cli.c). */
  method LaunchCmd(platform: Platform, os: OsBehaviour, sigs: SignalTable, res: LaunchRecord)
    returns (outcome: LaunchOutcome)
    requires os.Valid()
    modifies sigs, res
    ensures LaunchEffect(outcome, res.Fields(), sigs.State()) == Launch(platform, os, old(res.Fields()), old(sigs.State()))
  {
    res.rtime := os.clockStart;
    var pid := os.forkRet;
    if pid < 0 {
      return Returned(-1);
    }
    if pid != 0 {
      var sigintFunc := sigs.Signal(SigInt, SigIgnore);
      var sigquitFunc := sigs.Signal(SigQuit, SigIgnore);
      var count, last := WaitForChild(pid, os.waits);
      assert count - 1 == FirstDecisive(os.waits, pid);
      if last.ret == -1 {
        return Returned(-1);
      }
      var _ := sigs.Signal(SigInt, sigintFunc);
      var _ := sigs.Signal(SigQuit, sigquitFunc);
      res.rtime := os.clockEnd - res.rtime;
      res.utime := last.usage.utimeMicros;
      res.stime := last.usage.stimeMicros;
      res.peakMem := MemPeak(platform, last.usage.maxrss);
      if last.status.Exited? {
        res.ret, res.sig := last.status.code, 0;
      } else if last.status.Signaled? {
        res.ret, res.sig := -1, last.status.signo;
      } else {
        res.ret, res.sig := -1, 0;
      }
    } else {
      if os.execSucceeds {
        return ImageReplaced;
      }
    }
    return Returned(0);
  }

  // -----------------------------------------------------------------------
  // main

  /** `return res.sig > 0 ? 2 : res.ret;` */
  function ExitCode(ret: int, sig: int): (code: int) {
    if sig > 0 then 2 else ret
  }

  /** The status a parent process sees for main's return value (its low byte). */
  function ExitStatus(code: int): (b: ExitByte)
    ensures 0 <= code < 256 ==> b == code
  {
    code % 256
  }

  /** The exit code of the whole tool for each way the child can end: its own
      exit code, 2 for a signal death, -1 (seen as status 255) otherwise. */
  lemma ToolExitCode(status: WaitStatus)
    ensures var t := Classify(status);
      && (status.Exited? ==> ExitCode(t.ret, t.sig) == status.code)
      && (status.Signaled? ==> ExitCode(t.ret, t.sig) == 2)
      && (status.OtherStatus? ==> ExitCode(t.ret, t.sig) == -1 && ExitStatus(ExitCode(t.ret, t.sig)) == 255)
  {
  }

  /** A child that exits with 2 and a child killed by a signal give the same
      exit code, so the tool's exit code alone cannot tell them apart. */
  lemma ExitTwoLooksLikeSignal(signo: SignalNumber)
    ensures var e := Classify(Exited(2)); var s := Classify(Signaled(signo));
      ExitCode(e.ret, e.sig) == ExitCode(s.ret, s.sig)
  {
  }

  /** The words of the command joined by single spaces, as main prints them. */
  function JoinWords(words: seq<string>): (line: string)
  {
    if |words| == 0 then ""
    else if |words| == 1 then words[0]
    else JoinWords(words[..|words| - 1]) + " " + words[|words| - 1]
  }

  /** The index of the last space of `s`. */
  function LastSpace(s: string): (j: nat)
    requires ' ' in s
    ensures j < |s| && s[j] == ' '
    ensures forall k :: j < k < |s| ==> s[k] != ' '
  {
    if s[|s| - 1] == ' ' then |s| - 1 else LastSpace(s[..|s| - 1])
  }

  /** Splitting a command line at its spaces. */
  function SplitWords(s: string): (words: seq<string>)
    ensures |words| > 0
    decreases |s|
  {
    if ' ' !in s then [s]
    else
      var j := LastSpace(s);
      SplitWords(s[..j]) + [s[j + 1..]]
  }

  /** The printed command line determines the command when no word contains a
      space. */
  lemma {:induction false} SplitJoin(words: seq<string>)
    requires |words| > 0
    requires forall i :: 0 <= i < |words| ==> ' ' !in words[i]
    ensures SplitWords(JoinWords(words)) == words
  {
    if |words| > 1 {
      var init, w := words[..|words| - 1], words[|words| - 1];
      var a := JoinWords(init);
      var s := a + " " + w;
      assert s[|a|] == ' ';
      var j := LastSpace(s);
      assert forall k :: |a| < k < |s| ==> s[k] == w[k - |a| - 1];
      assert j == |a|;
      assert s[..j] == a && s[j + 1..] == w;
      SplitJoin(init);
      assert init + [w] == words;
    }
  }

  /** The command-line loop of main: the words separated by single spaces. */
  method CommandLine(words: seq<string>) returns (line: string)
    ensures line == JoinWords(words)
  {
    line := "";
    for i := 0 to |words|
      invariant line == JoinWords(words[..i])
    {
      if i != 0 {
        line := line + " ";
      }
      line := line + words[i];
      assert words[..i + 1][..i] == words[..i];
    }
    assert words[..|words|] == words;
  }

  /** The lines main writes to standard error; the floating-point quantities
      are carried as the integers they are computed from. */
  datatype ReportLine =
    | UsageMessage
    | NumberOfCpus(cpus: int)
    | TotalRam(bytes: int)
    | AvailableRamStart(bytes: int)
    | CommandLineLine(text: string)
    | StartMarker
    | EndMarker
    | AvailableRamEnd(bytes: int)
    | SignalLine(sig: int)
    | ReturnValueLine(ret: int)
    | RealTime(ticks: int)
    | UserTime(micros: int)
    | SysTime(micros: int)
    | PeakRss(bytes: int)

  /** What main reads from the host: the CPU count, the total memory, and the
      memory sources before and after the run. */
  datatype HostInfo = HostInfo(cpus: int, memTotal: int, before: HostMemory, after: HostMemory)

  /** How a run of main ends in the calling process: returning an exit code,
      having become the command, or aborted by a failed assertion in
      rl_mem_avail. */
  datatype MainOutcome = Exit(code: int) | BecameCommand | Aborted

  datatype MainEffect = MainEffect(outcome: MainOutcome, report: seq<ReportLine>,
                                   res: ResFields, dispositions: Dispositions)

  /** The lines up to and including the start marker. */
  function Header(host: HostInfo, availStart: int, command: seq<string>): (lines: seq<ReportLine>) {
    [NumberOfCpus(host.cpus), TotalRam(host.memTotal)]
      + (if availStart >= 0 then [AvailableRamStart(availStart)] else [])
      + [CommandLineLine(JoinWords(command)), StartMarker]
  }

  /** The lines after the end marker (and the optional end-of-run memory line). */
  function Trailer(r: ResFields): (lines: seq<ReportLine>) {
    [SignalLine(r.sig), ReturnValueLine(r.ret), RealTime(r.rtime), UserTime(r.utime),
     SysTime(r.stime), PeakRss(r.peakMem)]
  }

  /** The effect of main, given the index `optInd` of the first non-option
      argument, the host, the operating system's answers and the initial
      (uninitialised) contents of `res`. */
  function MainRun(platform: Platform, argv: seq<string>, optInd: nat, host: HostInfo,
                   os: OsBehaviour, res: ResFields, disp: Dispositions): (m: MainEffect)
    requires 1 <= optInd <= |argv| && os.Valid()
  {
    if optInd == |argv| then MainEffect(Exit(1), [UsageMessage], res, disp)
    else
      match MemAvailOf(platform, host.before)
      case AssertionFailure => MainEffect(Aborted, [], res, disp)
      case Done(availStart) =>
        var header := Header(host, availStart, argv[optInd..]);
        var l := Launch(platform, os, res, disp);
        if l.outcome == ImageReplaced then MainEffect(BecameCommand, header, l.res, l.dispositions)
        else
          var ended := header + [EndMarker];
          if availStart < 0 then
            MainEffect(Exit(ExitCode(l.res.ret, l.res.sig)), ended + Trailer(l.res), l.res, l.dispositions)
          else
            match MemAvailOf(platform, host.after)
            case AssertionFailure => MainEffect(Aborted, ended, l.res, l.dispositions)
            case Done(availEnd) =>
              MainEffect(Exit(ExitCode(l.res.ret, l.res.sig)),
                         ended + [AvailableRamEnd(availEnd)] + Trailer(l.res), l.res, l.dispositions)
  }

  /** Without a command, main prints the usage line and returns 1 before
      anything else happens. */
  lemma MainUsage(platform: Platform, argv: seq<string>, host: HostInfo, os: OsBehaviour,
                  res: ResFields, disp: Dispositions)
    requires |argv| >= 1 && os.Valid()
    ensures MainRun(platform, argv, |argv|, host, os, res, disp) == MainEffect(Exit(1), [UsageMessage], res, disp)
  {
  }

  /** Whenever main returns after launching, its exit code is computed from the
      record alone: 2 if `sig > 0`, else `ret`. launch_cmd's own return value
      plays no part, so after a fork or wait failure the code comes from the
      record's uninitialised `ret` and `sig`. */
  lemma MainExitRule(platform: Platform, argv: seq<string>, optInd: nat, host: HostInfo,
                     os: OsBehaviour, res: ResFields, disp: Dispositions)
    requires 1 <= optInd < |argv| && os.Valid()
    requires MainRun(platform, argv, optInd, host, os, res, disp).outcome.Exit?
    ensures var m := MainRun(platform, argv, optInd, host, os, res, disp);
      m.outcome.code == ExitCode(m.res.ret, m.res.sig)
    ensures var m := MainRun(platform, argv, optInd, host, os, res, disp);
      (os.forkRet < 0 || Launch(platform, os, res, disp).outcome == Returned(-1)) ==>
        m.outcome.code == ExitCode(res.ret, res.sig)
  {
  }

  /** The end-of-run memory line appears exactly when the start-of-run line
      does, and the start line appears exactly when the first snapshot is
      non-negative. */
  lemma MainMemoryLines(platform: Platform, argv: seq<string>, optInd: nat, host: HostInfo,
                        os: OsBehaviour, res: ResFields, disp: Dispositions)
    requires 1 <= optInd < |argv| && os.Valid()
    requires MainRun(platform, argv, optInd, host, os, res, disp).outcome.Exit?
    ensures var m := MainRun(platform, argv, optInd, host, os, res, disp);
      (exists i :: 0 <= i < |m.report| && m.report[i].AvailableRamEnd?) <==>
      (exists i :: 0 <= i < |m.report| && m.report[i].AvailableRamStart?)
    ensures var m := MainRun(platform, argv, optInd, host, os, res, disp);
      (exists i :: 0 <= i < |m.report| && m.report[i].AvailableRamStart?) <==>
      MemAvailOf(platform, host.before).value >= 0
  {
    var m := MainRun(platform, argv, optInd, host, os, res, disp);
    var availStart := MemAvailOf(platform, host.before).value;
    var header := Header(host, availStart, argv[optInd..]);
    var l := Launch(platform, os, res, disp);
    if availStart >= 0 {
      assert m.report[2] == AvailableRamStart(availStart);
      assert m.report[|header| + 1].AvailableRamEnd?;
    } else {
      assert m.report == header + [EndMarker] + Trailer(l.res);
      assert forall i :: 0 <= i < |m.report| ==> !m.report[i].AvailableRamEnd? && !m.report[i].AvailableRamStart?;
    }
  }

  /** The operating system's answers in the two example runs: the child (pid
      42) exits with 7; or an unrelated child (pid 7) is reaped first and then
      the child is killed by signal 9. */
  function ExampleOs(usage: Usage, killed: bool): (os: OsBehaviour) {
    if killed then OsBehaviour(42, false, [WaitCall(7, Exited(0), usage), WaitCall(42, Signaled(9), usage)], 0, 5)
    else OsBehaviour(42, false, [WaitCall(42, Exited(7), usage)], 0, 5)
  }

  /** The host of the example runs has no memory estimate. */
  function ExampleHost(): (host: HostInfo) {
    HostInfo(8, 0x4_0000_0000, HostMemory(None, -1, None, 4096), HostMemory(None, -1, None, 4096))
  }

  /** The two example runs of `runlog prog`: exit code 7 with no signal, and
      exit code 2 with signal 9 and return value -1. */
  lemma MainExample(platform: Platform, usage: Usage, disp: Dispositions, res: ResFields)
    ensures ExampleOs(usage, false).Valid() && ExampleOs(usage, true).Valid()
    ensures MainRun(platform, ["runlog", "prog"], 1, ExampleHost(), ExampleOs(usage, false), res, disp).outcome == Exit(7)
    ensures MainRun(platform, ["runlog", "prog"], 1, ExampleHost(), ExampleOs(usage, false), res, disp).res.sig == 0
    ensures MainRun(platform, ["runlog", "prog"], 1, ExampleHost(), ExampleOs(usage, true), res, disp).outcome == Exit(2)
    ensures MainRun(platform, ["runlog", "prog"], 1, ExampleHost(), ExampleOs(usage, true), res, disp).res.sig == 9
    ensures MainRun(platform, ["runlog", "prog"], 1, ExampleHost(), ExampleOs(usage, true), res, disp).res.ret == -1
  {
    var exited, killed := ExampleOs(usage, false).waits, ExampleOs(usage, true).waits;
    assert Decisive(exited[0], 42);
    assert Decisive(killed[1], 42);
    assert FirstDecisive(exited, 42) == 0;
    assert FirstDecisive(killed, 42) == 1;
  }

  /** main (cli.c), from the process that runs it. */
  method RunMain(platform: Platform, argv: seq<string>, optInd: nat, host: HostInfo,
                 os: OsBehaviour, sigs: SignalTable, res: LaunchRecord)
    returns (outcome: MainOutcome, report: seq<ReportLine>)
    requires 1 <= optInd <= |argv| && os.Valid()
    modifies sigs, res
    ensures MainEffect(outcome, report, res.Fields(), sigs.State())
         == MainRun(platform, argv, optInd, host, os, old(res.Fields()), old(sigs.State()))
  {
    if optInd == |argv| {
      return Exit(1), [UsageMessage];
    }
    var availStart := MemAvail(platform, host.before);
    if availStart.AssertionFailure? {
      return Aborted, [];
    }
    var availSt := availStart.value;
    report := [NumberOfCpus(host.cpus), TotalRam(host.memTotal)];
    if availSt >= 0 {
      report := report + [AvailableRamStart(availSt)];
    }
    var text := CommandLine(argv[optInd..]);
    report := report + [CommandLineLine(text), StartMarker];

    var launched := LaunchCmd(platform, os, sigs, res);
    if launched == ImageReplaced {
      return BecameCommand, report;
    }

    report := report + [EndMarker];
    if availSt >= 0 {
      var availEnd := MemAvail(platform, host.after);
      if availEnd.AssertionFailure? {
        return Aborted, report;
      }
      report := report + [AvailableRamEnd(availEnd.value)];
    }
    report := report + [SignalLine(res.sig), ReturnValueLine(res.ret), RealTime(res.rtime),
                        UserTime(res.utime), SysTime(res.stime), PeakRss(res.peakMem)];
    outcome := Exit(if res.sig > 0 then 2 else res.ret);
  }
}
