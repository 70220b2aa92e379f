# runlog in Dafny

runlog runs a command as a child process and reports to standard error what
the command cost: how it ended (exit code or terminating signal), its
wall-clock, user and system time, its peak resident memory, and the host's
available memory before and after the run. This project models the parts of
its C sources that make decisions, and proves properties of them:

- `clib.dfy` (module `CLib`): the C semantics the code relies on. This
  covers truncating signed division (`CDiv`), unsigned 32-bit wrap-around
  (`Wrap32`), NUL-terminated buffers, the digit test of runlog.c:98, and `atol` on a run of
  digits.
- `runlog.dfy` (module `RunLog`): the telemetry in `runlog.c`. It models:
  - `read_key`, specified by `ReadKeyOf` and implemented by the loop in
    `ReadKey`;
  - the scan of the lines of `/proc/meminfo`, specified by `ScanLines`/`LineStep`
    and implemented by `MemAvailLinux` and `ReadLine`;
  - the procps fallback estimate (`AvailableKb`);
  - the macOS formula, with its `natural_t` wrap-around (`MacMemAvail`);
  - the `-1` stub of other platforms;
  - the dispatch between these (`MemAvailOf`, `MemAvail`);
  - the scaling of `ru_maxrss` (`MemPeak`): kilobytes times 1024 on Linux,
    the raw counter on every other platform.
- `cli.dfy` (module `Cli`): the supervisor in `cli.c`. It models:
  - the signal table as a class whose `Signal` method installs a
    disposition and returns the previous one;
  - the result record `rl_res_t` as the class `LaunchRecord`;
  - the `wait3` loop (`WaitForChild`);
  - the classification of the wait status (`Classify`);
  - `launch_cmd`, specified by `Launch` and implemented by `LaunchCmd`;
  - `main`: the usage check, the memory snapshots, the report, the
    command-line loop and the exit-code rule. It is specified by `MainRun`
    and implemented by `RunMain`.

Every answer of the operating system is an input:

- the lines of `/proc/meminfo`, or `None` when it cannot be opened;
- the value of `min_free_kbytes`;
- the `host_statistics64` result and the page size;
- the result of `fork`;
- whether `execvp` succeeds;
- the sequence of `wait3` answers (return value, status, resource usage);
- the clock readings.

A failed C `assert` is the value `AssertionFailure` of the datatype `Run`
(the process aborts); the model assumes assertions are compiled in.

Points where the code behaves in a way a reader might not expect, and
which the model keeps as written:

- **Worked example of the fallback estimate.** Take MemFree 1,000,000,
  Inactive(file) 2,000,000, Active(file) 500,000, SReclaimable 300,000 and
  `min_free_kbytes` 67,584. Then `low` is 84,480, and the code subtracts
  `min(150,000, 84,480)` for reclaimable slab. The result is 3,546,560 kB
  (`FallbackExample`). Subtracting 150,000 instead of
  `min(150,000, 84,480)` would give 3,481,040 kB.
- **No EINTR retry.** The `wait3` loop does not retry on EINTR: a `-1` from
  `wait3` ends `launch_cmd` with -1.
- **Signals not restored on the error path.** On that path SIGINT and
  SIGQUIT stay ignored; only the successful wait restores them
  (`LaunchFailurePaths`).
- **Failed exec.** When `execvp` fails, the child prints a diagnostic and
  `launch_cmd` returns 0 in the child. The child then carries on through
  `main`, writes a report and exits with a code taken from the record's
  `ret` and `sig`, which were never written (`res` is not initialised in
  `main`). Its `rtime` holds the start reading taken before the fork
  (cli.c:22), which the child's report prints as the real time
  (`LaunchFailurePaths`).
- **Exit code ignores launch_cmd's result.** `main` ignores what
  `launch_cmd` returns. After a fork or wait failure, the exit code comes
  from the uninitialised `ret`/`sig` of the record (`MainExitRule`).
- **Exit code 2 is ambiguous.** It is the code both for a signal death and
  for a child that exited with 2 (`ExitTwoLooksLikeSignal`).

## Model

| member | source | states |
|---|---|---|
| CLib.CDiv | runlog.c:135-138 | C's `/`: the quotient truncates toward zero; it is at most n/d for non-negative and at least n/d for negative operands, within one of it |
| CLib.CDivNegativeDiffers | runlog.c:135 | for a negative operand C's division differs from Euclidean division (-5/4 is -1 in C, -2 in Dafny) |
| CLib.Wrap32Absorbs | runlog.c:85 | reducing an intermediate `natural_t` result modulo 2^32 does not change the final reduction |
| CLib.DecimalRoundTrip | runlog.c:101 | the decimal numeral of n denotes n |
| CLib.AtolReadsNumeral | runlog.c:101 | `atol` at the start of a numeral followed by a non-digit returns the number written |
| RunLog.MemPeakUnits | runlog.c:44-53 | on Linux `ru_maxrss` (kilobytes) times 1024 is a whole number of kilobytes in bytes and gives back the counter when divided by 1024; on macOS the counter is already in bytes; every other non-Linux platform also gets the raw counter, whatever its unit |
| RunLog.MemPeakExample | runlog.c:48-52 | 12345 kB gives 12,641,280 bytes on Linux; on macOS 12345 stays 12345 |
| RunLog.ScanStopSkips | runlog.c:97-99 | every index the `for` loop passes is before `len` and holds neither the terminator nor a digit |
| RunLog.ScanStopAt | runlog.c:97-99 | the loop stops at the first digit when all indices before it are skipped |
| RunLog.ReadKeyOf | runlog.c:92-103 | read_key returns 0 (no store) exactly when the line does not start with the label |
| RunLog.ReadKeyMeaning | runlog.c:96-102 | a stored value is the `atol` of the first digit the scan reaches after the label; the assertion fails exactly when the label matches and no digit is reachable before the terminator or `len` |
| RunLog.ReadKey | runlog.c:92-103 | the loop (label comparison, scan to the first digit, assertion, `atol`) computes `ReadKeyOf` |
| RunLog.ReadKeyReadsNumeral | runlog.c:92-103 | a line "label, digit-free padding, numeral of n, non-numeric rest" reads back as n: the round trip of the meminfo format |
| RunLog.MatchedField | runlog.c:125-129 | the `else if` chain picks a label the line starts with, and picks none exactly when no label matches |
| RunLog.LabelsExclusive | runlog.c:125-129 | no line starts with two of the five labels, so the order of the tests never changes which counter is set |
| RunLog.MatchedFieldIff | runlog.c:125-129 | the chain selects a field exactly when the line starts with that field's label |
| RunLog.LineStep | runlog.c:123-130 | one loop iteration aborts exactly when the line's label matched and no digit follows it |
| RunLog.LineSetsAtMostOne | runlog.c:125-129 | one line changes at most the counter whose label it starts with |
| RunLog.ScanAbortPersists | runlog.c:100 | once a line fails the assertion the whole scan has aborted, whatever lines follow |
| RunLog.ScanAbortsIff | runlog.c:123-130 | the scan aborts exactly when some line is malformed |
| RunLog.ScanLastWins | runlog.c:123-130 | after the scan each counter holds the value of the last line carrying its label, for every field independently |
| RunLog.NeverMatchedStaysUnread | runlog.c:120 | a counter whose label starts no line keeps its initial -1 |
| RunLog.AvailableKb | runlog.c:132-141 | the kilobyte figure before `* 1024` is never negative |
| RunLog.DirectCounterTrusted | runlog.c:132 | a present MemAvailable is used verbatim, and `min_free_kbytes` then has no influence |
| RunLog.FallbackIsClampedEstimate | runlog.c:132-139 | without MemAvailable the result is the procps formula clamped at 0 |
| RunLog.FallbackBounded | runlog.c:136-139 | with non-negative counters the fallback is at most free + page cache + reclaimable slab |
| RunLog.FallbackAntitone | runlog.c:135-138 | raising `min_free_kbytes` never raises the fallback estimate |
| RunLog.UnreadableMinFreeLow | runlog.c:110 | an unreadable `min_free_kbytes` (-1) gives `low` = -1 under C division |
| RunLog.FallbackExample | runlog.c:132-141 | the worked example: `low` 84,480, 3,546,560 kB, 3,631,677,440 bytes |
| RunLog.LinuxMemAvailRange | runlog.c:117-142 | -1 exactly when `/proc/meminfo` cannot be opened; otherwise a non-negative multiple of 1024 |
| RunLog.ReadLine | runlog.c:124-129 | the `else if` chain of read_key calls performs one `LineStep` |
| RunLog.MemAvailLinux | runlog.c:117-142 | the `while (fgets …)` loop and fallback compute `LinuxMemAvail`: the scan of all lines, then the kilobyte figure times 1024 |
| RunLog.MacSumWrapsOnce | runlog.c:85 | the left-to-right wrapping `natural_t` sum equals one reduction modulo 2^32 of the exact sum |
| RunLog.MacMemAvailExact | runlog.c:79-86 | without wrap-around the result is (external + purgeable + free - speculative) pages times page size |
| RunLog.MacMemAvailRange | runlog.c:85 | with a positive page size the result is non-negative and fits in `int64_t` |
| RunLog.MemAvailSentinel | runlog.c:79-145 | on every platform the result is negative exactly when there is no estimate, and then it is -1 |
| RunLog.MemAvail | runlog.c:79-145 | rl_mem_avail as built for each platform: Linux scan, macOS formula, -1 stub |
| Cli.SignalTable.Signal | cli.c:34-35 | `signal()` installs the new disposition, returns the one it replaces and leaves the other signal alone |
| Cli.LaunchRecord.constructor | cli.c:67 | the record starts with whatever contents it is given (`res` is uninitialised) |
| Cli.Classify | cli.c:52-54 | `sig` is non-zero exactly on a signal death (and is the signal number); `ret` is non-negative exactly on a normal exit (and is the exit code); otherwise -1 |
| Cli.FirstDecisive | cli.c:36-41 | the first `wait3` answer that returns the pid or -1, with all earlier answers other pids |
| Cli.WaitForChild | cli.c:36-41 | the loop stops at the first answer returning the pid or -1, skipping answers for other pids |
| Cli.LaunchSucceedsIff | cli.c:36-41 | in the parent launch_cmd returns 0 exactly when an answer returns the pid before any answer returns -1, and -1 otherwise |
| Cli.LaunchSuccessRecord | cli.c:42-54 | after a successful wait both dispositions are restored, and the record holds the elapsed time, the usage counters of the reaping call, peak memory as `MemPeak` scales it and the classified status |
| Cli.LaunchFailurePaths | cli.c:22-58 | fork failure returns -1 with dispositions untouched; the child returns 0 unless exec replaces it; a wait error returns -1 with both signals left ignored; only `rtime` is written on these paths |
| Cli.LaunchCmd | cli.c:19-60 | the method's effect on the outcome, the record and the signal table is `Launch` of the prior state |
| Cli.ToolExitCode | cli.c:101 | the tool exits with the child's exit code, with 2 after a signal death, and with -1 (status 255) otherwise |
| Cli.ExitTwoLooksLikeSignal | cli.c:101 | a child exiting with 2 and a child killed by any signal give the same exit code |
| Cli.SplitJoin | cli.c:83-86 | splitting the printed command line at spaces gives back the words when no word contains a space |
| Cli.CommandLine | cli.c:82-87 | the loop prints the words separated by single spaces |
| Cli.MainUsage | cli.c:72-75 | without a command main prints only the usage line, returns 1 and touches nothing |
| Cli.MainExitRule | cli.c:90-101 | main's return value is 2 if the record's `sig` is positive, else its `ret`; after a fork or wait failure it comes from the uninitialised record |
| Cli.MainMemoryLines | cli.c:77-94 | when main returns, the end-of-run memory line appears exactly when the start line does, which is exactly when the first snapshot is non-negative |
| Cli.MainExample | cli.c:62-101 | a child exiting with 7 gives exit code 7 and signal 0; a child killed by signal 9 (after an unrelated child is reaped) gives exit code 2, signal 9, return value -1 |
| Cli.RunMain | cli.c:62-102 | the method's outcome, report, record and signal table are `MainRun` of the prior state |

## Left out

- `rl_page_size`, `rl_mem_total`, `rl_ncpu`, `rl_rtime`, `rl_stime`, `rl_utime` (runlog.c:8-42) are thin wrappers around `sysconf`, `gettimeofday` and `getrusage`. Their results are inputs (`HostInfo`, `HostMemory`, the clock readings of `OsBehaviour`).
- `read_num_from_file` (runlog.c:105-115) is file I/O. Its result for `/proc/sys/vm/min_free_kbytes` is the parameter `minFreeKbytes`, -1 when the file cannot be opened.
- Floating point is not modelled. This covers the time conversions `tv_sec + 1e-6 * tv_usec` and the gigabyte and megabyte figures of the report. Times are integer clock readings and microseconds, and the report lines carry the integers they are computed from. RL_GB_IN_BYTE in runlog.h only scales those figures. The `printf` formatting of the lines is not modelled.
- `fgets` is not modelled: each meminfo line is the text one `fgets` call delivers, followed by the terminator. The splitting of a line longer than 254 characters into several reads is outside the model.
- Cli.MainRun: the end-of-run memory line of cli.c:94 prints `(long)rl_mem_avail()`; `AvailableRamEnd` carries the value before the cast, so its truncation where `long` is 32 bits is not modelled.
- RunLog.MemPeak: the model does not track units. The result is in bytes only on Linux and macOS; other non-Linux platforms (the BSDs report kilobytes) get the raw counter, as the `#else` branches of runlog.c:50-51 and cli.c:49-51 do.
- RunLog.MemPeak: the `ru_maxrss * 1024` of runlog.c:49 and cli.c:48 is computed in `long`; the model multiplies unbounded integers, so the overflow where `long` is 32 bits (from 2,097,152 kB of peak memory) is not modelled.
- RunLog.ReadKeyOf: assumes `assert` is compiled in. Built with `-DNDEBUG`, runlog.c:100 does nothing: a label with no digit after it stores `atol` of the terminator (0), or, when the scan stops at `len`, reads past the buffer. That build is not modelled.
- CLib.Atol: does not model the 64-bit overflow of `atol` on a run of more than 18 digits.
- RunLog.MemAvailLinux: the sums and the final `* 1024` use unbounded integers. The `int64_t` overflow that absurdly large meminfo counters would cause is not modelled.
- RunLog.MemAvailSentinel: assumes a positive page size. A failing `sysconf(_SC_PAGESIZE)` returns -1, which would make the macOS result negative without being the sentinel.
- Cli.WaitForChild: requires that some `wait3` answer returns the pid or -1. An operating system that keeps reaping other children forever is not modelled.
- Option parsing with ketopt (cli.c:69-70) is left out: the index of the first non-option argument is the parameter `optInd`.
- Real process semantics are abstracted. `fork`, `execvp`, `wait3` and `signal` are modelled by their results. The concurrent execution of child and parent, signal delivery, and the text `perror` writes are not modelled.
