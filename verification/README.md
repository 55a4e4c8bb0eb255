# bbench, verified model

bbench runs programs under Linux performance counters and reports what it counted. This Dafny project
models its logic and proves what the program relies on: the protocol that attaches counters to a child
before it runs, the escalation that ends a child that runs too long, the ownership of counter
descriptors, the statistics over repeated runs, and the text formats it reads and writes.

    dafny verify dfyconfig.toml

| file | what it models |
|---|---|
| `Handshake.dfy` | `process_attach` and its caller as two processes whose steps interleave; a run is a sequence of actions |
| `Escalation.dfy` | `__wait_with_timeout`, as code against a clock and a child that may do anything, and as a state machine over its calls |
| `Newton.dfy`, `Statistics.dfy` | `compute_stats` and its twelve-step square root |
| `Records.dfy`, `Results.dfy` | `benchmark_t`, `collapse_runs`, `sort_results` |
| `Scaling.dfy`, `Topdown.dfy` | multiplex scaling and the top-down fractions |
| `Descriptors.dfy`, `PerfKernel.dfy`, `Counters.dfy`, `Clocks.dfy` | who owns which perf descriptor: `dynamic_event`, `dynamic_event_group`, `kernel_clock`, `event_group` |
| `Measurement.dfy` | the two measuring drivers from end to end: what the numbers they return say about a run of the protocol |
| `Splitting.dfy`, `Tokenizer.dfy`, `Events.dfy` | the comma-separated lists of `-e` and `-M` and the event table |
| `Decimal.dfy`, `Cli.dfy`, `Cargs.dfy` | number parsing, `parse_argv`, and the argument slots of cargs |
| `CsvRow.dfy` | the CSV header and rows |
| `Powers.dfy`, `Wrappers.dfy` | powers of reals and their inequalities; the optional value |

## What the proofs found

Most of what the program promises holds for every input and every schedule. Where it does not, the model
keeps the code as it is and states exactly when it does:

- The reported deviation is the true one only for variance 0 and 1 (`DeviationExactIff`). For a true
  deviation s it is within a relative error e exactly if (2 + e)(s - 1)^4096 <= e (s + 1)^4096
  (`DeviationErrorIff`). So twelve steps from the variance itself give 62 correct bits from 1/129 to 129
  (`DeviationAccurate`), but the report is more than twice too large above 8192 and below 1/8192
  (`DeviationUnconverged`).
- The delays before SIGTERM and SIGKILL hold on the millisecond clock. In real time each can be up to
  1 ms shorter (`RealTimeBounds`, `SignalsCanBeEarly`). No run started at a given time sends SIGTERM early
  exactly if that time is a whole millisecond (`TermNeverEarlyIff`), and the same holds of SIGKILL and the
  first clock reading after SIGTERM (`KillNeverEarlyIff`); nothing known at the start excludes an early
  SIGKILL (`KillNeverEarlyFromIff`).
- A counter whose two times agree, which is the test the code itself makes, reports the child's work exactly,
  and they agree exactly if the counter was not multiplexed (`ExactCount`).
- A plain `open` on an event that already holds a descriptor loses that descriptor
  (`LedgerOverwriteIff`); `reopen` does not. Over any sequence of group operations exactly those descriptors
  stay live (`Counters.Lifetime`, `Clocks.Lifetime`).
- `emit_metrics` echoes unknown names cut at 63 characters (`MetricsFaithfulIff`); `parse_event_list` has
  the same buffer but there the cut cannot be seen (`TruncationUnobservable`).
- After cargs' parse without registered parameters the numeric query always yields false
  (`NumericQueryIsFalse`), callbacks see nothing after the first key that has a value (`CallbacksVisit`,
  `AllDispatchedIff`), and the callback walk needs a gap among 32 arguments to stop inside the array (`WalkStaysInsideIff`).
- An argument with two dashes anywhere is a key to cargs (`DashesWithin`).
- The least 64-bit integer cannot be parsed without overflow (`RoundTripFitsIff`); times of 2^32 ms or
  more are cut (`TimeKeptIff`).
- Detail levels above 3, which the command line cannot select, would print columns that are never
  measured (`ColumnsAreMeasuredIff`).
- `sort_results` keeps groups of equal mean in order, however a set of groups is arranged at first, exactly
  if different groups of equal mean occur at the least mean only (`StableInEveryOrderIff`;
  `TiesChangePlaces` is an example).

## Assumptions about the system

The kernel is nondeterministic within these limits: `perf_event_open` returns a descriptor that is not in
use or a negative errno; a counter counts only while it is enabled and scheduled; enable_on_exec enables it
at a successful execve, and once stopped it keeps its reading; the monotonic clock never goes back and nanosleep lasts at least as long as
requested; waitpid reports the child correctly, and a blocking waitpid returns once the child is gone;
nobody kills the child before `process_attach` has returned, and the attach callback does not throw.
Doubles are exact reals. Strings contain no NUL character. The string and formatting library the program
uses is not part of this model: a slot's text holds any accepted argument, and the printed text of a double
is a parameter.

## Model

| member | source | states |
|---|---|---|
| Handshake.RunKeepsInv | src/process.hpp:67-97 | In every interleaving of parent and child: which pipe ends each process holds at each point, the go byte in flight, and which counters have been tried. |
| Handshake.StepKeepsInv | src/process.hpp:67-97 | Every single step of either process, including failed pipe2, fork and execve and a kill by the waiting caller, keeps that invariant. |
| Handshake.ExecOnlyAfterAttach | src/process.hpp:80-96 | Under every schedule, when the child calls execve the attach callback has tried every counter, and it tries none later. |
| Handshake.ExactCount | src/bench.hpp:229-237 | Under every schedule an opened counter whose enabled and running times agree reports exactly the events of the child between exec and exit, nothing from before, whatever happened before exec; the times agree exactly if it was not multiplexed after exec; without enable_on_exec it reports 0. |
| Handshake.SeesEverything | src/perf.hpp:429-434 | The running time never exceeds the enabled time; they are equal exactly if the counter had a hardware slot whenever the new image ran, and then it saw every event. |
| Handshake.RunReads | src/process.hpp:91-96 | Value, enabled time and running time of an opened counter are the sums over the child's intervals since exec in which it was enabled, respectively scheduled. |
| Handshake.FailedExecReadsZero | src/process.hpp:87-88 | If execve fails, every counter reports 0, whatever ran before. |
| Handshake.UnscheduledReadsZero | src/perf.hpp:432-433 | A counter that never had a hardware slot while the new image ran reports 0. |
| Handshake.ConstantRateCount | src/perf.hpp:429-437 | A multiplexed counter reports the true total, not only the seen part, when the new image causes events at any constant rate p / q per nanosecond and the counter ran at all. |
| Handshake.ScheduleIndependent | src/bench.hpp:232-237 | Two runs in which the child does the same leave the same value and times in every opened counter, multiplexed or not, and so the same report, however the parent's steps are interleaved. |
| Handshake.NoDeadlock | src/process.hpp:69-96 | In every reachable state that is not final some step other than the child's own work is enabled. |
| Handshake.ChildIsFree | src/process.hpp:80-88 | In every reachable state, wherever the parent stands, the child can do its next step; in front of execve both success and failure are possible, and it can work and exit. |
| Handshake.ParentIsFree | src/process.hpp:70-96 | In every reachable state, wherever the child stands, the parent can do its next step; pipe2, fork and every open can succeed and can fail, and a waiting caller can kill. |
| Handshake.EveryWorkHappens | src/process.hpp:67-97 | For every configuration and every list of work there is a complete run in which all counters open, execve succeeds and the child does exactly this work; its true counts are the sums of the events. |
| Handshake.EverySumIsReported | src/bench.hpp:229-237 | With enable_on_exec such a run reports the sum of the events of any counter that is always scheduled. |
| Handshake.HandshakeIsBounded | src/process.hpp:69-96 | Any run contains at most counters + 15 steps besides the child's own work; with NoDeadlock the protocol completes. |
| Handshake.WriteFindsReader | src/process.hpp:93-94 | When the parent is about to write the go byte, the child's read end is open; the write never meets a broken pipe. |
| Handshake.ChildReadsTheByte | src/process.hpp:82-84 | The child's read returns the go byte, never end of file. |
| Handshake.NothingLeaks | src/process.hpp:73-78 | When the protocol has returned or thrown, neither process holds a pipe end, also on the fork-failure path. |
| Escalation.WaitWithTimeout | src/bench.hpp:194-219 | Whatever the clock, the scheduler and the child do, the calls made form a finished run of the escalation protocol, the child has been reaped, and if that took the blocking wait after a timeout, SIGTERM and SIGKILL have been sent. |
| Escalation.PollOnce | src/bench.hpp:204-217 | One round of the polling loop: three calls of the protocol and back, or the end. |
| Escalation.Escalate | src/bench.hpp:207-215 | The part from SIGTERM on: 50 ms of polling, SIGKILL, blocking wait. |
| Escalation.Grace | src/bench.hpp:209-212 | The inner loop ends with the child reaped, or with SIGKILL due. |
| Escalation.NowMs | src/bench.hpp:186-192 | The second and nanosecond arithmetic yields the floored millisecond clock. |
| Escalation.SleepMs | src/bench.hpp:176-184 | The request passed to nanosleep is exactly the requested time with a legal nanosecond part; 0 makes no call. |
| Escalation.Safety | src/bench.hpp:194-219 | Every finished run reaps the child exactly once, by its last call; the signals are none, SIGTERM, or SIGTERM then SIGKILL; SIGTERM is at or after the deadline and SIGKILL at least 50 ms later on the millisecond clock; SIGKILL is sent exactly in the runs that end with the blocking wait; with timeout 0 the run is one blocking wait. |
| Escalation.TermFollowsPoll | src/bench.hpp:204-207 | SIGTERM is only sent right after a poll that did not find the child gone and one clock reading. |
| Escalation.RunIsBounded | src/bench.hpp:201-218 | With sleeps of at least the requested length: at most timeout + 1 polls before SIGTERM, at most 25 after it, and a linear bound on all calls; and at least every third call is a poll. |
| Escalation.ExactRunSignalsOnTime | src/bench.hpp:201-218 | If calls take no time and sleeps last exactly as requested, SIGTERM comes exactly timeout ms after the start and SIGKILL exactly 50 ms later. |
| Escalation.RealTimeBounds | src/bench.hpp:201-213 | In real time SIGTERM comes more than timeout - 1 ms after the start and SIGKILL more than 49 ms after SIGTERM. |
| Escalation.SignalsCanBeEarly | src/bench.hpp:201-213 | A concrete run in which both signals come before the nominal real-time delay, so those bounds cannot be raised to the nominal values. |
| Escalation.TermNeverEarlyIff | src/bench.hpp:201-207 | No finished run that starts at time a sends SIGTERM before a + timeout in real time, if and only if there is no timeout or a is a whole millisecond. |
| Escalation.KillNeverEarlyIff | src/bench.hpp:207-213 | No finished run whose first clock reading after SIGTERM is at c sends SIGKILL within 50 real milliseconds of SIGTERM, if and only if c is a whole millisecond or no deadline can have passed by then. |
| Escalation.KillNeverEarlyFromIff | src/bench.hpp:201-213 | No finished run that starts at a given time sends SIGKILL early in real time, if and only if there is no timeout: whatever the start, some run does. |
| Escalation.RunGrace | src/bench.hpp:208-213 | In every run the second deadline is 50 ms after the first clock reading that follows SIGTERM, and SIGKILL is not sent before the clock reaches it. |
| Escalation.FloorGainsWholeMs | src/bench.hpp:186-192 | Over any m real milliseconds the floored clock gains at least m. |
| Escalation.SleepSplitExact | src/bench.hpp:181-182 | ms / 1000 seconds plus (ms % 1000) * 10^6 ns is exactly ms milliseconds, below one second in the ns part and within 32 bits. |
| Newton.Root | src/format.hpp:351-353 | The loop returns the twelfth Newton iterate started at the radicand. |
| Newton.ClosedForm | src/format.hpp:351-352 | For x = s * s: (r_k - s)(r_0 + s)^(2^k) = (r_k + s)(r_0 - s)^(2^k) after any number of steps. |
| Newton.AboveRoot | src/format.hpp:352 | From the first step on no iterate is below the true root. |
| Newton.NonIncreasing | src/format.hpp:352 | From the first step on the iterates do not grow. |
| Newton.HalvesAtMost | src/format.hpp:351-352 | After k steps r is at least r_0 / 2^k; so twelve steps from x leave at least x / 4096. |
| Newton.RelativeErrorBound | src/format.hpp:349-353 | For 1 <= s <= 2n + 1 with n * m = 4096 the relative error of the result is at most 2 / (2^m - 1). |
| Newton.RelativeErrorIff | src/format.hpp:349-353 | For every true deviation s > 0 and every bound e: the relative error is at most e if and only if (2 + e)(s - 1)^4096 <= e (s + 1)^4096. |
| Newton.AccurateWithin129 | src/format.hpp:349-353 | For true deviations from 1/129 to 129 the relative error is at most 2^-62. |
| Newton.UnconvergedOutside8192 | src/format.hpp:352 | For true deviations above 8192 or below 1/8192 the result is more than twice too large: twelve steps do not suffice. |
| Newton.RatioMonotone | src/format.hpp:352 | The error ratio r_k / s grows with s above 1, so accuracy is lost from a threshold on. |
| Newton.RatioOfReciprocal | src/format.hpp:352 | Deviations below 1 have the error ratio of their reciprocals, so very small ones are wrong too. |
| Newton.IterateIsScaledRatio | src/format.hpp:351-352 | The iterates for variance s * s are s times the error ratio. |
| Newton.ExactOnlyAtOne | src/format.hpp:349-353 | The result is the exact root if and only if the radicand is 1. |
| Statistics.ComputeStats | src/format.hpp:327-359 | All four statistics of any runs: zeroes for no runs; otherwise minimum and maximum are values that enclose all others, the mean lies between them and times the count is the sum, and the deviation is 0 for one run and otherwise exactly when minimum and maximum meet. |
| Statistics.StatsDescribe | src/format.hpp:327-359 | The specification of the four numbers has these properties for all values. |
| Statistics.SumAndExtremes | src/format.hpp:331-339 | The first pass: sum, minimum and maximum. |
| Statistics.SumSquaredDeviations | src/format.hpp:342-347 | The second pass: the sum of squared deviations from the mean. |
| Statistics.MeanBetweenExtremes | src/format.hpp:331-340 | min <= mean <= max. |
| Statistics.TwoPassIdentity | src/format.hpp:340-347 | The two-pass sum equals sum v^2 - n * mean^2. |
| Statistics.DeviationsBound | src/format.hpp:340-347 | It is at most n (max - mean)(mean - min). |
| Statistics.VarianceBound | src/format.hpp:348 | (n - 1) * variance is at most n times a quarter of the squared range. |
| Statistics.DeviationZeroIffEqual | src/format.hpp:341-355 | With two or more runs the reported deviation is 0 exactly when all runs are equal. |
| Statistics.DeviationExactIff | src/format.hpp:348-354 | The reported deviation squares back to the variance exactly when the variance is 0 or 1. |
| Statistics.DeviationAccurate | src/format.hpp:348-354 | A variance s * s with 1/129 <= s <= 129 is reported as s to one part in 2^62. |
| Statistics.DeviationUnconverged | src/format.hpp:348-354 | A true deviation above 8192 or below 1/8192 is reported more than twice too large. |
| Statistics.UnconvergedExample | src/format.hpp:348-354 | The runs -9000, 0 and 9000 have deviation 9000 and are reported with more than 18000. |
| Statistics.DeviationErrorIff | src/format.hpp:348-354 | The report of a true deviation s is never below it, and within the relative error e if and only if (2 + e)(s - 1)^4096 <= e (s + 1)^4096. |
| Statistics.StatsPermutation | src/format.hpp:327-359 | The result does not depend on the order of the runs. |
| Results.AvgInt | tools/bbench.cpp:161-166 | The loop yields the sum divided by the number of runs, rounded towards zero: the remainder is smaller than the count and has the sign of the sum. |
| Results.SumCountsConcat | tools/bbench.cpp:163-164 | The sum over two lots of runs is the sum of their sums. |
| Results.AvgDouble | tools/bbench.cpp:168-173 | The loop yields the mean time. |
| Results.CollapseRuns | tools/bbench.cpp:175-213 | Name of the first run, mean time, and the average of every counter, rounded towards zero, averaged one by one; zeroes for no runs. |
| Results.EveryFieldListed | tools/bbench.cpp:180-211 | The list of averaged fields contains every counter of the record. |
| Results.MeanCountBetween | tools/bbench.cpp:161-166 | A truncated average never leaves the range of the runs, for negative counts too. |
| Results.LeastMeanFrom | tools/bbench.cpp:218-220 | The inner loop finds the first least mean of the rest. |
| Results.SortResults | tools/bbench.cpp:215-227 | In place, the array becomes the selection-sorted sequence of its old contents, with exactly the swaps of the specification. |
| Results.SortIsCorrect | tools/bbench.cpp:215-227 | That sequence is a permutation of the groups, ordered by non-decreasing mean, reached with at most n - 1 swaps. |
| Results.RoundKeepsPrefix | tools/bbench.cpp:217-226 | One round extends the finished prefix, which is sorted and bounds the rest. |
| Results.SortedInputUntouched | tools/bbench.cpp:221 | Sorted input is left as it is, with no swap. |
| Results.NoSwapNoChange | tools/bbench.cpp:221-225 | A sort that does no swap leaves the groups as they were. |
| Results.SortIsNotStable | tools/bbench.cpp:221-225 | Groups with equal means can change their order. |
| Results.StableInEveryOrderIff | tools/bbench.cpp:215-227 | However the groups are arranged at first, groups of equal mean come out in the order in which they stood, if and only if different groups of equal mean occur at the least mean only. |
| Results.TiesChangePlaces | tools/bbench.cpp:221-225 | Three concrete groups, two of them tied, of which the tied ones come out in the other order. |
| Scaling.ScaledIsQuotient | src/perf.hpp:429-437 | For running > 0 the scaled count is floor(value * enabled / running). |
| Scaling.ScaledAtLeastValue | src/events.hpp:213-218 | For 0 < running <= enabled it is at least the raw value. |
| Scaling.ScaledMonotone | src/topdown.hpp:108-111 | It is monotone in the value. |
| Scaling.ScaledAdds | src/topdown.hpp:108-111 | It is superadditive and loses at most one on a sum. |
| Scaling.ScaledExactAtConstantRate | src/perf.hpp:429-437 | It is exact when value : running equals total : enabled. |
| Topdown.FractionsPartition | src/topdown.hpp:169-175 | If the categories partition the slots under equal times, the four fractions are non-negative and sum to within [1 - 3 / slots, 1]. |
| Topdown.MeasureBin | src/topdown.hpp:130-177 | The first call ever probes; without support nothing else is opened and the result is the empty one. Otherwise the five counters are tried once each in source order, armed on exec, those that opened are stopped and closed; the result is supported exactly if the scaled slots are not 0, and then each fraction times the slots is the scaled final reading of the counter with that event code. |
| Topdown.MeasureFive | src/topdown.hpp:135-171 | The five values are the scaled final readings of the descriptors those five attempts gave. |
| Topdown.Supported | src/topdown.hpp:115-128 | The first call opens one slots counter, leaves nothing open and keeps the answer; later calls return it and open nothing. |
| Descriptors.LedgerReplace | src/events.hpp:187-191 | Releasing what a slot holds and storing a fresh descriptor, or none, keeps live descriptors distinct and singly owned. |
| Descriptors.LedgerOverwriteIff | src/events.hpp:176-186 | Storing over a slot without releasing keeps the ledger exactly when the slot held nothing: plain open is safe only on an unopened event. |
| PerfKernel.PeCall | src/perf.hpp:24-32 | A negative syscall result becomes errno and -1; others pass through. |
| Counters.DynamicEvent.Configure | src/events.hpp:146-157 | The attributes of a counter: disabled, user mode by choice, never the hypervisor; the descriptor is untouched. |
| Counters.DynamicEvent.Move | src/events.hpp:135-140 | The descriptor changes owner; the source keeps none and is invalid. |
| Counters.DynamicEvent.Open | src/events.hpp:176-186 | Descriptor, errno and valid are what the kernel answered; the descriptor held before stays live. |
| Counters.DynamicEvent.Reopen | src/events.hpp:187-191 | The same after releasing the descriptor held before. |
| Counters.DynamicEvent.Retrieve | src/events.hpp:206-219 | The scaled reading, 0 for an event that is not open. |
| Counters.DynamicEvent.Destroy | src/events.hpp:141-144 | The descriptor, if any, is closed. |
| Counters.DynamicEventGroup.constructor | src/events.hpp:227-235 | One configured, unopened event per definition, in order. |
| Counters.DynamicEventGroup.Move | src/events.hpp:237-241 | The events change owner as a whole. |
| Counters.DynamicEventGroup.SetEnableOnExec | src/events.hpp:252-255 | Every event is armed or disarmed and nothing else changes. |
| Counters.DynamicEventGroup.Open | src/events.hpp:257-263 | Each event is tried once, and the result is minus the number of failures; the descriptors held before stay live and are lost to the group. |
| Counters.DynamicEventGroup.End | src/events.hpp:275-278 | Afterwards every open event has been stopped. |
| Counters.DynamicEventGroup.Reopen | src/events.hpp:264-270 | Returns minus the number of events left without a descriptor; each event's errno is set exactly in that case; the ledger is kept. |
| Counters.DynamicEventGroup.ForEach | src/events.hpp:280-283 | One row per event in order, with its errno, and value 0 if it is not open. |
| Counters.DynamicEventGroup.Destroy | src/events.hpp:242 | Afterwards only other owners' descriptors are live. |
| Counters.Lifetime | src/events.hpp:222-284 | Any sequence of configure, settings, open, reopen, begin, end, read and move between construction and destruction takes place operation by operation, as the log tells; afterwards exactly the descriptors are live that were live before or that plain opens have lost, and every other one obtained has been closed exactly once. |
| Counters.Apply | src/events.hpp:146-283 | What each operation does to the events, the open attempts and the stopped descriptors, and which descriptors it loses. |
| Counters.BenchmarkBinDynamic | src/bench.hpp:271-296 | Each definition is tried once, disabled and armed on exec, and gets one row in order: the scaled final reading of a counter that opened, which has been stopped, or 0 and the kernel's errno, errno being set exactly if the open failed; no descriptor stays open. |
| Clocks.KernelClock.Reopen | src/perf.hpp:328-339 | Releases, opens, and keeps the kernel's answer as descriptor or errno. |
| Clocks.KernelClock.Read | src/perf.hpp:414-437 | The scaled reading, 0 without a descriptor. |
| Clocks.EventGroup.Reopen | src/clock.hpp:300-304 | Every member is reopened once with its own attributes; failures leave a member without a descriptor. |
| Clocks.EventGroup.SetEnableOnExec | src/clock.hpp:318-322 | The setting reaches every member and nothing else changes. |
| Clocks.EventGroup.Open | src/clock.hpp:282-286 | Each member is tried once and keeps the kernel's answer; the descriptors held before stay live and are lost to the group. |
| Clocks.EventGroup.Move | src/perf.hpp:148 | Member by member the descriptor changes owner; the source keeps none and the ledger is kept. |
| Clocks.EventGroup.End | src/clock.hpp:294-298 | Afterwards every member has been stopped. |
| Clocks.Lifetime | src/clock.hpp:208-323 | The same for any sequence of settings, open, reopen, begin, end, read and move of a group of clocks. |
| Clocks.Apply | src/clock.hpp:282-322 | What each operation does to the clocks, the open attempts and the stopped descriptors, and which descriptors it loses. |
| Clocks.BenchBinWithOpts | src/bench.hpp:221-240 | Every counter is tried once, armed on exec; the value of one that opened is its scaled final reading, taken after it was stopped; one that could not be opened reads 0; no descriptor stays open. |
| Measurement.ValueMeans | src/bench.hpp:229-239 | A value scaled from the final reading of a counter of the protocol is 0 if the open or the execve failed, and the child's own work, exactly, if the counter was not multiplexed or if it ran at all and the child worked at a constant rate. |
| Measurement.BenchBin | src/bench.hpp:221-240 | End to end: for every run of the protocol that agrees with the attempts and final readings, each value means that. |
| Measurement.BenchDynamic | src/bench.hpp:271-296 | End to end for -e: the same of each row's value. |
| Measurement.DynamicMeans | src/bench.hpp:293-295 | And a row carries an errno exactly if its counter is not open in the run. |
| Measurement.MeasureTopdown | src/topdown.hpp:130-177 | End to end for the top-down mode: for every agreeing run of the five counters, all open, whose categories partition the slots under equal scheduling, the reported fractions are non-negative and sum to within [1 - 3 / slots, 1]. |
| Measurement.RunAddsUp | src/topdown.hpp:169-175 | In such a run the breakdown of the counters' readings adds up in this way. |
| Tokenizer.ParseEventList | src/events.hpp:286-310 | The 64-byte-buffer loop appends the entries of the known non-empty pieces between commas, in order, and returns true exactly if all of them are known; all indices stay in bounds. |
| Tokenizer.AllKnownIff | src/events.hpp:296-308 | The parse succeeds exactly if every non-empty piece is the name of some entry. |
| Tokenizer.UnknownPieceFails | src/events.hpp:296-301 | A non-empty piece that no entry has as its name makes it fail and adds nothing. |
| Tokenizer.LookupName | src/events.hpp:113-121 | The first table entry of that name. |
| Tokenizer.TruncationUnobservable | src/events.hpp:305-307 | Cutting a token at 63 characters never changes what it is looked up as. |
| Tokenizer.ParseComposes | src/events.hpp:292-308 | Parsing a,b is parsing a and then b. |
| Tokenizer.JoinedNamesParseBack | src/events.hpp:286-310 | Joining the names of any listed entries parses back to exactly those entries. |
| Tokenizer.EmitMetrics | tools/bbench.cpp:261-290 | The same loop for -M: one line per non-empty token as the buffer holds it. |
| Tokenizer.LinesOfOne | tools/bbench.cpp:270-283 | A token that names an entry is shown with that entry, any other non-empty one as unknown, an empty one not at all. |
| Tokenizer.MetricsFaithfulIff | tools/bbench.cpp:278-281 | Here truncation shows exactly when some unknown token is longer than 63 characters. |
| Tokenizer.LongTokenIsCut | tools/bbench.cpp:278-281 | An unknown token of 64 characters is echoed with 63. |
| Events.KnownEventsWellFormed | src/events.hpp:34-110 | All 44 names fit the buffer, contain no comma and are distinct. |
| Events.KnownNamesParseBack | src/events.hpp:34-110 | Any comma-joined list of known names parses back to their entries. |
| Splitting.SplitUndoesJoinIff | src/format.hpp:245-319 | Splitting recovers joined fields exactly when none contains the separator. |
| Decimal.ParseInt | tools/bbench.cpp:32-42 | Blanks, a sign, at least one digit, anything after: the value of the digits, or failure. |
| Decimal.ToI64 | src/cargs.hpp:134-151 | The same with tabs as blanks and 0 for no digits. |
| Decimal.ToF64 | src/cargs.hpp:153-196 | Over exact reals the loops compute sign * mantissa * 10^(exponent - fraction length). |
| Decimal.FloatMeans | src/cargs.hpp:153-196 | The value without exponent times 10^(fraction length) is the signed mantissa; the exponent multiplies or divides it by its power of ten. |
| Decimal.IntAsFloat | src/cargs.hpp:153-196 | The text of any integer is read as that integer. |
| Decimal.PrintThenParse | tools/bbench.cpp:32-42 | Both integer parsers invert decimal printing, also with trailing text. |
| Decimal.AccumulatorsFitIff | src/cargs.hpp:146-149 | All intermediate accumulators fit a bound exactly if the final one does. |
| Decimal.ShortNumbersFit | src/cargs.hpp:181-190 | Up to 18 digits fit 64 bits and up to 9 fit the 32-bit exponent. |
| Decimal.RoundTripFitsIff | tools/bbench.cpp:35-40 | Of the 64-bit integers exactly the least one does not survive printing and parsing without overflow. |
| Decimal.FloatRoundTrip | src/cargs.hpp:153-196 | Printing the parts of a number and scanning the text gives the parts back. |
| Cli.ParseArgv | tools/bbench.cpp:71-159 | The loop leaves the options of the recursive grammar, also when it stops at an error, and succeeds exactly if the grammar does and a path remains. |
| Cli.ParseOne | tools/bbench.cpp:94-152 | One round consumes one complete option group or rejects. |
| Cli.ParseKeepsInv | tools/bbench.cpp:94-142 | excl_user == !excl_kernel, n_runs >= 1, detail in 1..3 and 32-bit times hold after any arguments. |
| Cli.ParseComposes | tools/bbench.cpp:72-153 | After complete groups, parsing continues from the options they leave. |
| Cli.DefaultsApply | tools/bbench.cpp:20-30 | Paths alone leave one run, detail 1, no delay, no timeout, user mode, inherited and scaled counts, no separator and no texts. |
| Cli.BadNumberRefused | tools/bbench.cpp:94-112 | A value of -n, -r, -D or --timeout that is no number or out of range ends the parse with a refusal and changes nothing. |
| Cli.OutOfRangeRefused | tools/bbench.cpp:94-112 | In particular -n 0 and negative numbers. |
| Cli.MissingValueRefused | tools/bbench.cpp:74-82 | An option whose value is missing is refused. |
| Cli.NumberOptions | tools/bbench.cpp:94-112 | -n, -D and --timeout with a number in range set their field, times modulo 2^32, and nothing else. |
| Cli.TextOptions | tools/bbench.cpp:103-128 | -e, --pre, --post, -o, -M and -x set their field and nothing else. |
| Cli.DisplaySwitches | tools/bbench.cpp:97-130 | -d, -dd, -ddd, --table, -v and --topdown set their field and nothing else. |
| Cli.CountingSwitches | tools/bbench.cpp:131-142 | --no-inherit, --no-scale, --all-user, --all-kernel and --pinned set their fields and nothing else. |
| Cli.ParseSpelled | tools/bbench.cpp:72-153 | Any spelling of accepted groups parses to the groups applied in order. |
| Cli.ParsedIsSpelled | tools/bbench.cpp:72-153 | Conversely, arguments that parse are the spelling of a sequence of accepted groups. |
| Cli.SpellingsAre | tools/bbench.cpp:94-142 | -r spells the same option as -n, and --verbose the same as -v; every other option has one spelling. |
| Cli.AdjacentGroupsCommute | tools/bbench.cpp:94-142 | Adjacent groups that write different fields, however they are spelled, can be exchanged anywhere. |
| Cli.RenderThenParse | tools/bbench.cpp:71-159 | Rendering any consistent options and parsing the result gives them back. |
| Cli.TimeKeptIff | tools/bbench.cpp:107-112 | A time is kept exactly when it fits 32 bits. |
| Cargs.GeneralParseNp | src/cargs.hpp:375-424 | The back-patching loop fills the slots of the left-to-right grammar; too many arguments or none leave them unused. |
| Cargs.PutArgument | src/cargs.hpp:390-422 | One round: key, param, operand, or the value put back into the preceding key's slot. |
| Cargs.ClassOfName | src/cargs.hpp:390-422 | A name without dashes is plain, with one dash before it a param and with two a key, up to 127 characters in all; beyond that the argument is skipped. |
| Cargs.DashesWithin | src/cargs.hpp:282-291 | Two dashes make a key wherever they stand in the text. |
| Cargs.SlotsAppend | src/cargs.hpp:414-421 | Adding one argument to the grammar is one back-patching round. |
| Cargs.ValueThenUnused | src/cargs.hpp:414-417 | A slot that carries a value is followed by an unused one. |
| Cargs.UnparseSlots | src/cargs.hpp:390-422 | Every argument lands in exactly one field, and the slots give the arguments back in order, keys and params without leading dashes. |
| Cargs.Parser.Query | src/cargs.hpp:512-518 | The data of the first slot with that key, or the empty string. |
| Cargs.Parser.Has | src/cargs.hpp:521-527 | Whether some slot has that key. |
| Cargs.QueryAgrees | src/cargs.hpp:512-527 | For a non-empty name other than argv[0], the query returns what the command line gives the first key or param of that name. |
| Cargs.NumericQueryIsFalse | src/cargs.hpp:504-510 | After this parse no slot is typed as a number, so the numeric query yields false for every name. |
| Cargs.Parser.VisitSlots | src/cargs.hpp:305-318 | The callback walk visits exactly the maximal prefix of used slots, and it stays inside the array exactly if some slot is unused. |
| Cargs.CallbacksVisit | src/cargs.hpp:305-318 | That prefix ends with the first key that has a value or before a skipped argument: nothing after it is dispatched. |
| Cargs.AllDispatchedIff | src/cargs.hpp:305-318 | Every argument is dispatched exactly if none is skipped and no key has a value. |
| Cargs.OperandIsNotDispatched | src/cargs.hpp:305-318 | Of --key value operand only the key is dispatched. |
| Cargs.WalkStaysInsideIff | src/cargs.hpp:305-318 | The walk finds an unused slot exactly if there are fewer than 32 arguments or some argument leaves a gap. |
| Cargs.OperandsFillTheArray | src/cargs.hpp:305-318 | 32 operands leave no unused slot. |
| CsvRow.EmitCsvHeader | src/format.hpp:169-243 | The pieces written make up name, time and the titles of the columns of the detail level, joined and ended by a newline. |
| CsvRow.EmitCsvOne | src/format.hpp:245-319 | The pieces written make up name, time and the counts of the same columns. |
| CsvRow.RowRoundTrip | src/format.hpp:245-319 | Splitting the row and parsing recovers every field and every counter. |
| CsvRow.LineReadsBackIff | src/format.hpp:245-319 | A line splits back into its fields exactly when none contains the separator. |
| CsvRow.HeaderMatchesRow | src/format.hpp:168-319 | Splitting the emitted header and row gives lines of equal length in which field k of the header is the title of the counter whose value field k of the row parses to. |
| CsvRow.TitlesDistinct | src/format.hpp:168-243 | No two columns share a title. |
| CsvRow.ColumnsAreMeasuredIff | src/bench.hpp:243-254 | The printed columns are exactly the measured counters if and only if the detail level is at most 3. |
| CsvRow.CommandLineLevels | tools/bbench.cpp:97-102 | The command line only selects such levels. |

## Left out

- Decimal.ParseInt: does not model the 64-bit accumulator of the code; when it would overflow, which is undefined in the source, the model's value is the unbounded one. `AccumulatorsFitIff` and `RoundTripFitsIff` say when that cannot happen.
- Decimal.ToF64: does not model floating point rounding; the accumulators are exact reals.
- Results.CollapseRuns: the 31 counters are the entries of one map instead of 31 fields, filled by a loop over the list of them, and their sums are unbounded; the two time_enabled_ns and time_running_ns fields, which the source leaves 0, are not in the record.
- Cargs.Parser.VisitSlots: stops at the end of the array where the source would read on; `inside` tells when that is.
- Measurement.BenchBin: asks for attributes of disabled counters, as every constructor of `kernel_clock` sets them.
- `kernel_clock`'s compile-time attribute tables: attributes are parameters of the clocks.
- The variadic `benchmark_bin` and `cpu_bench_bin` overloads attach after the child has been spawned and race with it, so no exact count can be claimed.
- `general_parse` with registered parameters: its inner loop leaves after the first registered parameter, so it has no matching property to state.
- The delay option, the programs run before and after, `--no-scale` and `--all-kernel`: stored by the command line as modelled, but their effect on counting is not described.
- `system_clock` conversions and `stopwatch`: unit conversions of a time difference, which would only add easy members.
- Human-readable output, usage text, `emit_table`, `emit_stats`, derived metrics and `btime`: presentation, or repeats of modelled pieces.
