/**
 Waiting for the child with a timeout: poll every millisecond until the deadline, then SIGTERM, then
 poll every two milliseconds for 50 ms, then SIGKILL and a blocking wait. A run is the sequence of
 system calls it makes, each with the time in nanoseconds at which it is made.
 */
module Escalation {
  import opened Wrappers

  const NS_PER_MS: nat := 1_000_000
  const NS_PER_S: nat := 1_000_000_000
  const GRACE_MS: nat := 50

  datatype Signal = Term | Kill

  datatype Call =
    | Clock(at: nat)
    /** waitpid with WNOHANG; exited says whether it found (and thereby reaped) the child. */
    | Poll(at: nat, exited: bool)
    | Sleep(at: nat, ns: nat)
    | Send(at: nat, sig: Signal)
    /** waitpid without WNOHANG: returns once the child has been reaped. */
    | Wait(at: nat)

  /** The monotonic clock in whole milliseconds, as __now_ms reports it. */
  function Ms(ns: nat): nat {
    ns / NS_PER_MS
  }

  // ----- time arithmetic

  /** __now_ms splits into seconds and nanoseconds first; the result is the plain floor. */
  lemma NowMsIsFloor(ns: nat)
    ensures (ns / NS_PER_S) * 1000 + (ns % NS_PER_S) / NS_PER_MS == Ms(ns)
  {
  }

  /** The split of __sleep_ms is exact, its nanosecond part is legal, and it fits 32 bits. */
  lemma SleepSplitExact(ms: nat)
    ensures (ms / 1000) * NS_PER_S + (ms % 1000) * NS_PER_MS == ms * NS_PER_MS
    ensures (ms % 1000) * NS_PER_MS < NS_PER_S < 0x1_0000_0000
  {
  }

  /** Over any interval of m milliseconds the floored clock gains at least m. */
  lemma FloorGainsWholeMs(a: nat, b: nat, m: nat)
    requires b >= a + m * NS_PER_MS
    ensures Ms(b) >= Ms(a) + m
  {
  }

  /** Conversely a gain of m on the floored clock can be up to 1 ms less in real time. */
  lemma FloorGainMeans(a: nat, b: nat, m: nat)
    requires Ms(b) >= Ms(a) + m
    ensures b + NS_PER_MS > a + m * NS_PER_MS
    ensures b >= a + m * NS_PER_MS <==> Ms(b) > Ms(a) + m || b % NS_PER_MS >= a % NS_PER_MS
  {
  }

  // ----- the protocol as a state machine over calls

  datatype Phase =
    | Start
    | Outer(deadline: nat) | OuterCheck(deadline: nat) | OuterSleep(deadline: nat) | TermDue
    | Signalled | Inner(hard: nat) | InnerPoll(hard: nat) | InnerSleep(hard: nat) | KillDue
    | LastWait | Reaped

  /** The phase after call c, or None when the protocol does not make that call now. */
  function Next(timeout: nat, p: Phase, c: Call): Option<Phase> {
    match (p, c)
    case (Start, Wait(_)) => if timeout == 0 then Some(Reaped) else None
    case (Start, Clock(at)) => if timeout == 0 then None else Some(Outer(Ms(at) + timeout))
    case (Outer(d), Poll(_, exited)) => Some(if exited then Reaped else OuterCheck(d))
    case (OuterCheck(d), Clock(at)) => Some(if Ms(at) >= d then TermDue else OuterSleep(d))
    case (OuterSleep(d), Sleep(_, ns)) => if ns == NS_PER_MS then Some(Outer(d)) else None
    case (TermDue, Send(_, sig)) => if sig == Term then Some(Signalled) else None
    case (Signalled, Clock(at)) => Some(Inner(Ms(at) + GRACE_MS))
    case (Inner(h), Clock(at)) => Some(if Ms(at) < h then InnerPoll(h) else KillDue)
    case (InnerPoll(h), Poll(_, exited)) => Some(if exited then Reaped else InnerSleep(h))
    case (InnerSleep(h), Sleep(_, ns)) => if ns == 2 * NS_PER_MS then Some(Inner(h)) else None
    case (KillDue, Send(_, sig)) => if sig == Kill then Some(LastWait) else None
    case (LastWait, Wait(_)) => Some(Reaped)
    case _ => None
  }

  function PhaseAfter(timeout: nat, run: seq<Call>): Option<Phase> {
    if run == [] then Some(Start)
    else match PhaseAfter(timeout, run[..|run| - 1])
      case None => None
      case Some(p) => Next(timeout, p, run[|run| - 1])
  }

  /** A possibly unfinished run. */
  predicate IsRun(timeout: nat, run: seq<Call>) {
    PhaseAfter(timeout, run).Some?
  }

  /** Time never goes back, and a sleep lasts at least as long as requested. */
  predicate Timed(run: seq<Call>) {
    forall i :: 0 < i < |run| ==> run[i].at >= run[i - 1].at + Duration(run[i - 1])
  }

  function Duration(c: Call): nat {
    if c.Sleep? then c.ns else 0
  }

  // ----- what is observed of a run

  predicate IsReap(c: Call) {
    c.Wait? || (c.Poll? && c.exited)
  }

  function Reaps(run: seq<Call>): nat {
    if run == [] then 0 else Reaps(run[..|run| - 1]) + (if IsReap(run[|run| - 1]) then 1 else 0)
  }

  function Sends(run: seq<Call>): seq<Call> {
    if run == [] then []
    else Sends(run[..|run| - 1]) + (if run[|run| - 1].Send? then [run[|run| - 1]] else [])
  }

  /** Polls made before SIGTERM, and after it. */
  function EarlyPolls(run: seq<Call>): nat {
    if run == [] then 0
    else
      EarlyPolls(run[..|run| - 1])
      + (if run[|run| - 1].Poll? && Sends(run[..|run| - 1]) == [] then 1 else 0)
  }

  function LatePolls(run: seq<Call>): nat {
    if run == [] then 0
    else
      LatePolls(run[..|run| - 1])
      + (if run[|run| - 1].Poll? && Sends(run[..|run| - 1]) != [] then 1 else 0)
  }

  // ----- safety of every run

  /** The signals sent so far, phase by phase, and the earliest time of the next one. */
  predicate SignalsAgree(timeout: nat, run: seq<Call>, p: Phase) {
    var sent := Sends(run);
    match p
    case Start => run == []
    case Outer(d) => sent == [] && timeout > 0 && run != [] && Deadline(timeout, run) == d
    case OuterCheck(d) => sent == [] && timeout > 0 && run != [] && Deadline(timeout, run) == d
    case OuterSleep(d) => sent == [] && timeout > 0 && run != [] && Deadline(timeout, run) == d
    case TermDue => sent == [] && timeout > 0 && |run| > 0 && Ms(run[|run| - 1].at) >= Deadline(timeout, run)
    case Signalled => TermOnly(timeout, run)
    case Inner(h) => TermOnly(timeout, run) && h >= Ms(sent[0].at) + GRACE_MS
    case InnerPoll(h) => TermOnly(timeout, run) && h >= Ms(sent[0].at) + GRACE_MS
    case InnerSleep(h) => TermOnly(timeout, run) && h >= Ms(sent[0].at) + GRACE_MS
    case KillDue => TermOnly(timeout, run) && |run| > 0 && Ms(run[|run| - 1].at) >= Ms(sent[0].at) + GRACE_MS
    case LastWait => TermThenKill(timeout, run)
    case Reaped => sent == [] || TermOnly(timeout, run) || TermThenKill(timeout, run)
  }

  /** The deadline set by the first clock reading. */
  function Deadline(timeout: nat, run: seq<Call>): nat {
    if run != [] && timeout > 0 then Ms(run[0].at) + timeout else 0
  }

  predicate TermOnly(timeout: nat, run: seq<Call>) {
    && timeout > 0
    && |Sends(run)| == 1
    && Sends(run)[0].Send? && Sends(run)[0].sig == Term
    && Ms(Sends(run)[0].at) >= Deadline(timeout, run)
    && Sends(run)[0].at <= run[|run| - 1].at
  }

  predicate TermThenKill(timeout: nat, run: seq<Call>) {
    && timeout > 0
    && |Sends(run)| == 2
    && Sends(run)[0].Send? && Sends(run)[0].sig == Term
    && Sends(run)[1].Send? && Sends(run)[1].sig == Kill
    && Ms(Sends(run)[0].at) >= Deadline(timeout, run)
    && Ms(Sends(run)[1].at) >= Ms(Sends(run)[0].at) + GRACE_MS
  }

  lemma TimedPrefix(run: seq<Call>)
    requires Timed(run) && run != []
    ensures Timed(run[..|run| - 1])
  {
    var before := run[..|run| - 1];
    assert forall i :: 0 <= i < |before| ==> before[i] == run[i];
  }

  lemma StepSignals(timeout: nat, before: seq<Call>, c: Call, p: Phase)
    requires SignalsAgree(timeout, before, p) && Next(timeout, p, c).Some?
    requires before != [] ==> c.at >= before[|before| - 1].at
    requires before == [] ==> p.Start?
    ensures SignalsAgree(timeout, before + [c], Next(timeout, p, c).value)
  {
    var run := before + [c];
    assert run[..|run| - 1] == before;
    if before != [] {
      assert run[0] == before[0];
      FloorGainsWholeMs(before[|before| - 1].at, c.at, 0);
    }
    if p.Signalled? {
      FloorGainsWholeMs(Sends(before)[0].at, c.at, 0);
    }
  }

  lemma {:induction false} RunSignals(timeout: nat, run: seq<Call>)
    requires IsRun(timeout, run) && Timed(run)
    ensures SignalsAgree(timeout, run, PhaseAfter(timeout, run).value)
    decreases |run|
  {
    if run != [] {
      var before, c := run[..|run| - 1], run[|run| - 1];
      TimedPrefix(run);
      RunSignals(timeout, before);
      assert run == before + [c];
      StepSignals(timeout, before, c, PhaseAfter(timeout, before).value);
    }
  }

  lemma {:induction false} ReapEndsRun(timeout: nat, run: seq<Call>)
    requires IsRun(timeout, run)
    ensures Reaps(run) == if PhaseAfter(timeout, run).value.Reaped? then 1 else 0
    ensures forall i :: 0 <= i < |run| && IsReap(run[i]) ==> i == |run| - 1
    decreases |run|
  {
    if run != [] {
      var before := run[..|run| - 1];
      ReapEndsRun(timeout, before);
      assert forall i :: 0 <= i < |before| ==> before[i] == run[i];
      if before != [] && IsReap(before[|before| - 1]) {
        ReapOnlyIntoReaped(timeout, before);
      }
    }
  }

  lemma ReapOnlyIntoReaped(timeout: nat, run: seq<Call>)
    requires IsRun(timeout, run) && run != [] && IsReap(run[|run| - 1])
    ensures PhaseAfter(timeout, run).value.Reaped?
  {
  }

  /**
   Safety of every finished run: the child is reaped exactly once and by the last call, so a child found
   exited by a poll is never signalled; the signals are none, SIGTERM, or SIGTERM then SIGKILL; SIGTERM
   comes at or after the deadline and SIGKILL at least 50 ms later, both on the millisecond clock; SIGKILL is
   sent exactly in the runs that end with the blocking wait, so it is forced unless a poll finds the child
   gone; and without a timeout the run is a single blocking wait.
   */
  lemma Safety(timeout: nat, run: seq<Call>)
    requires PhaseAfter(timeout, run) == Some(Reaped) && Timed(run)
    ensures Reaps(run) == 1
    ensures forall i :: 0 <= i < |run| && IsReap(run[i]) ==> i == |run| - 1
    ensures Sends(run) == [] || TermOnly(timeout, run) || TermThenKill(timeout, run)
    ensures timeout > 0 ==> (run[|run| - 1].Wait? <==> TermThenKill(timeout, run))
    ensures timeout == 0 ==> |run| == 1 && run[0].Wait? && Sends(run) == []
  {
    RunSignals(timeout, run);
    ReapEndsRun(timeout, run);
    if timeout > 0 {
      WaitIffKilled(timeout, run);
    }
    if timeout == 0 {
      NoTimeoutRuns(run);
    }
  }

  lemma WaitIffKilled(timeout: nat, run: seq<Call>)
    requires timeout > 0 && run != [] && PhaseAfter(timeout, run) == Some(Reaped) && Timed(run)
    ensures run[|run| - 1].Wait? <==> TermThenKill(timeout, run)
  {
    var before := run[..|run| - 1];
    TimedPrefix(run);
    RunSignals(timeout, before);
    if before != [] {
      assert before[0] == run[0];
    }
  }

  /** SIGTERM is only sent right after a poll that did not find the child gone, and a clock reading. */
  lemma {:induction false} TermFollowsPoll(timeout: nat, run: seq<Call>)
    requires IsRun(timeout, run)
    ensures LastPolled(run, PhaseAfter(timeout, run).value)
    ensures forall i :: 0 <= i < |run| && run[i].Send? && run[i].sig == Term ==>
              i >= 2 && run[i - 2].Poll? && !run[i - 2].exited && run[i - 1].Clock?
    decreases |run|
  {
    if run != [] {
      var before := run[..|run| - 1];
      TermFollowsPoll(timeout, before);
      assert forall i :: 0 <= i < |before| ==> before[i] == run[i];
    }
  }

  predicate LastPolled(run: seq<Call>, p: Phase) {
    match p
    case OuterCheck(_) => |run| >= 1 && run[|run| - 1].Poll? && !run[|run| - 1].exited
    case TermDue => |run| >= 2 && run[|run| - 2].Poll? && !run[|run| - 2].exited && run[|run| - 1].Clock?
    case _ => true
  }

  lemma {:induction false} NoTimeoutRuns(run: seq<Call>)
    requires IsRun(0, run)
    ensures run == [] || (|run| == 1 && run[0].Wait? && Sends(run) == [] && PhaseAfter(0, run).value.Reaped?)
    decreases |run|
  {
    if run != [] {
      NoTimeoutRuns(run[..|run| - 1]);
    }
  }

  // ----- the bound on the number of polls and calls

  /** The time at which the call after the last one may be made. */
  function Ready(run: seq<Call>): nat
    requires run != []
  {
    run[|run| - 1].at + Duration(run[|run| - 1])
  }

  /** Each sleep has moved the millisecond clock on, so the number of polls is bounded by its progress. */
  predicate CountsAgree(timeout: nat, run: seq<Call>, p: Phase) {
    var e, l, n := EarlyPolls(run), LatePolls(run), |run|;
    match p
    case Start => n == 0
    case Reaped => e <= timeout + 1 && l <= 25 && n <= 3 * e + 3 * l + 5
    case Outer(d) => n > 0 && l == 0 && n == 3 * e + 1 && e <= timeout && Ms(Ready(run)) + timeout >= d + e
    case OuterCheck(d) => n > 0 && l == 0 && n == 3 * e - 1 && e <= timeout + 1 && Ms(Ready(run)) + timeout + 1 >= d + e
    case OuterSleep(d) => n > 0 && l == 0 && n == 3 * e && e <= timeout && Ms(Ready(run)) + timeout + 1 >= d + e
    case TermDue => l == 0 && n == 3 * e && e <= timeout + 1
    case Signalled => l == 0 && n == 3 * e + 1 && e <= timeout + 1
    case Inner(h) => n > 0 && e <= timeout + 1 && n == 3 * e + 3 * l + 2 && l <= 25 && Ms(Ready(run)) + 50 >= h + 2 * l
    case InnerPoll(h) =>
      n > 0 && e <= timeout + 1 && n == 3 * e + 3 * l + 3 && l <= 24 && Ms(Ready(run)) + 50 >= h + 2 * l
    case InnerSleep(h) =>
      n > 0 && e <= timeout + 1 && n == 3 * e + 3 * l + 1 && l <= 25 && Ms(Ready(run)) + 52 >= h + 2 * l
    case KillDue => e <= timeout + 1 && n == 3 * e + 3 * l + 3 && l <= 25
    case LastWait => e <= timeout + 1 && n == 3 * e + 3 * l + 4 && l <= 25
  }

  lemma StepCounts(timeout: nat, before: seq<Call>, c: Call, p: Phase)
    requires CountsAgree(timeout, before, p) && SignalsAgree(timeout, before, p)
    requires Next(timeout, p, c).Some?
    requires before != [] ==> c.at >= Ready(before)
    ensures CountsAgree(timeout, before + [c], Next(timeout, p, c).value)
  {
    var run := before + [c];
    assert run[..|run| - 1] == before;
    if before != [] {
      FloorGainsWholeMs(Ready(before), c.at, 0);
    }
    FloorGainsWholeMs(c.at, c.at + Duration(c), Duration(c) / NS_PER_MS);
  }

  lemma {:induction false} RunCounts(timeout: nat, run: seq<Call>)
    requires IsRun(timeout, run) && Timed(run)
    ensures CountsAgree(timeout, run, PhaseAfter(timeout, run).value)
    decreases |run|
  {
    if run != [] {
      var before, c := run[..|run| - 1], run[|run| - 1];
      TimedPrefix(run);
      RunCounts(timeout, before);
      RunSignals(timeout, before);
      assert run == before + [c];
      StepCounts(timeout, before, c, PhaseAfter(timeout, before).value);
    }
  }

  /**
   Termination with a bound: if sleeps last as long as requested, any run, finished or not, polls at most
   timeout + 1 times before SIGTERM and at most 25 times after it, and makes at most 3 * timeout + 83 calls;
   and it polls all the time, on average at least every third call.
   */
  lemma RunIsBounded(timeout: nat, run: seq<Call>)
    requires IsRun(timeout, run) && Timed(run)
    ensures EarlyPolls(run) <= timeout + 1
    ensures LatePolls(run) <= 25
    ensures |run| <= 3 * timeout + 83
    ensures |run| <= 3 * (EarlyPolls(run) + LatePolls(run)) + 5
  {
    RunCounts(timeout, run);
  }

  // ----- the millisecond clock against real time

  /** In real time SIGTERM comes more than timeout - 1 ms after the start, and SIGKILL more than 49 ms after SIGTERM. */
  lemma RealTimeBounds(timeout: nat, run: seq<Call>)
    requires PhaseAfter(timeout, run) == Some(Reaped) && Timed(run)
    ensures TermOnly(timeout, run) || TermThenKill(timeout, run) ==>
              Sends(run)[0].at + NS_PER_MS > run[0].at + timeout * NS_PER_MS
    ensures TermThenKill(timeout, run) ==> Sends(run)[1].at > Sends(run)[0].at + 49 * NS_PER_MS
  {
    if TermOnly(timeout, run) || TermThenKill(timeout, run) {
      FloorGainMeans(run[0].at, Sends(run)[0].at, timeout);
    }
    if TermThenKill(timeout, run) {
      FloorGainMeans(Sends(run)[0].at, Sends(run)[1].at, GRACE_MS);
    }
  }

  lemma Extend(timeout: nat, before: seq<Call>, c: Call)
    requires IsRun(timeout, before)
    ensures PhaseAfter(timeout, before + [c]) == Next(timeout, PhaseAfter(timeout, before).value, c)
    ensures Sends(before + [c]) == Sends(before) + (if c.Send? then [c] else [])
    ensures FirstAfterTerm(before + [c])
         == if FirstAfterTerm(before).Some? || |Sends(before)| != 1 then FirstAfterTerm(before) else Some(c.at)
  {
    ExtendGrace(before, c);
    assert (before + [c])[..|before + [c]| - 1] == before;
  }

  lemma EmptyRun(timeout: nat)
    ensures PhaseAfter(timeout, []) == Some(Start) && Sends([]) == [] && FirstAfterTerm([]) == None
  {
  }

  /**
   Both bounds are needed: with a timeout of 2 ms this run signals 1.500001 ms after the start, and kills
   49.5 ms after that.
   */
  lemma SignalsCanBeEarly() returns (run: seq<Call>)
    ensures PhaseAfter(2, run) == Some(Reaped) && Timed(run) && TermThenKill(2, run)
    ensures Sends(run)[0].at < run[0].at + 2 * NS_PER_MS
    ensures Sends(run)[1].at < Sends(run)[0].at + GRACE_MS * NS_PER_MS
  {
    hide PhaseAfter, Sends;
    EmptyRun(2);
    var s0 := [] + [Clock(999_999)];
    var s1 := s0 + [Poll(999_999, false)];
    var s2 := s1 + [Clock(2_500_000)];
    var s3 := s2 + [Send(2_500_000, Term)];
    var s4 := s3 + [Clock(2_500_000)];
    var s5 := s4 + [Clock(52_000_000)];
    var s6 := s5 + [Send(52_000_000, Kill)];
    run := s6 + [Wait(52_000_000)];
    Extend(2, [], Clock(999_999));
    Extend(2, s0, Poll(999_999, false));
    Extend(2, s1, Clock(2_500_000));
    Extend(2, s2, Send(2_500_000, Term));
    Extend(2, s3, Clock(2_500_000));
    Extend(2, s4, Clock(52_000_000));
    Extend(2, s5, Send(52_000_000, Kill));
    Extend(2, s6, Wait(52_000_000));
  }

  // ----- exactly when the delays hold in real time

  /** A run of the protocol that has come to its end under a clock that behaves. */
  predicate Finished(timeout: nat, run: seq<Call>) {
    PhaseAfter(timeout, run) == Some(Reaped) && Timed(run)
  }

  /** No run that starts at time a sends SIGTERM before the timeout has passed in real time. */
  ghost predicate TermNeverEarly(timeout: nat, a: nat) {
    forall run: seq<Call> :: Finished(timeout, run) && run != [] && run[0].at == a && Sends(run) != [] ==>
      Sends(run)[0].at >= a + timeout * NS_PER_MS
  }

  /** This is so exactly if there is no timeout or the first clock reading falls on a whole millisecond. */
  lemma TermNeverEarlyIff(timeout: nat, a: nat)
    ensures TermNeverEarly(timeout, a) <==> timeout == 0 || a % NS_PER_MS == 0
  {
    hide PhaseAfter, Timed, Sends;
    if timeout == 0 || a % NS_PER_MS == 0 {
      forall run: seq<Call> | Finished(timeout, run) && run != [] && run[0].at == a && Sends(run) != []
        ensures Sends(run)[0].at >= a + timeout * NS_PER_MS
      {
        Safety(timeout, run);
        WholeStart(a, Sends(run)[0].at, timeout);
      }
    } else {
      var run := EarlyTerm(timeout, a);
    }
  }

  lemma WholeStart(a: nat, b: nat, m: nat)
    requires a % NS_PER_MS == 0 && Ms(b) >= Ms(a) + m
    ensures b >= a + m * NS_PER_MS
  {
    FloorGainMeans(a, b, m);
  }

  /** Started off the millisecond, the clock can reach the deadline early; here the child then exits at once. */
  lemma EarlyTerm(timeout: nat, a: nat) returns (run: seq<Call>)
    requires timeout > 0 && a % NS_PER_MS != 0
    ensures Finished(timeout, run) && run != [] && run[0].at == a && Sends(run) != []
    ensures Sends(run)[0].at < a + timeout * NS_PER_MS
  {
    hide PhaseAfter, Sends;
    var t := (Ms(a) + timeout) * NS_PER_MS;
    assert Ms(t) == Ms(a) + timeout && a <= t < a + timeout * NS_PER_MS;
    var s := TermRun(timeout, a, t);
    var s1 := s + [Clock(t)];
    run := s1 + [Poll(t, true)];
    Extend(timeout, s, Clock(t));
    Extend(timeout, s1, Poll(t, true));
  }

  /** A run up to the second clock reading after a SIGTERM at time t, as soon as the clock reaches the deadline. */
  lemma TermRun(timeout: nat, a: nat, t: nat) returns (run: seq<Call>)
    requires timeout > 0 && a <= t && Ms(t) == Ms(a) + timeout
    ensures run == [Clock(a), Poll(a, false), Clock(t), Send(t, Term), Clock(t)]
    ensures PhaseAfter(timeout, run) == Some(Inner(Ms(t) + GRACE_MS))
    ensures Sends(run) == [Send(t, Term)] && FirstAfterTerm(run) == Some(t)
  {
    hide PhaseAfter, Sends, FirstAfterTerm;
    EmptyRun(timeout);
    var s0 := [] + [Clock(a)];
    var s1 := s0 + [Poll(a, false)];
    var s2 := s1 + [Clock(t)];
    var s3 := s2 + [Send(t, Term)];
    run := s3 + [Clock(t)];
    Extend(timeout, [], Clock(a));
    Extend(timeout, s0, Poll(a, false));
    Extend(timeout, s1, Clock(t));
    Extend(timeout, s2, Send(t, Term));
    Extend(timeout, s3, Clock(t));
  }

  /** The time of the call after SIGTERM: the clock reading that fixes when SIGKILL is due. */
  function FirstAfterTerm(run: seq<Call>): Option<nat> {
    if run == [] then None
    else
      var before := run[..|run| - 1];
      if FirstAfterTerm(before).Some? || |Sends(before)| != 1 then FirstAfterTerm(before)
      else Some(run[|run| - 1].at)
  }

  /** In every phase: how that reading, SIGTERM and SIGKILL lie to each other. */
  predicate GraceAgrees(run: seq<Call>, p: Phase) {
    var sent, first := Sends(run), FirstAfterTerm(run);
    match p
    case Signalled => |sent| == 1 && first == None && run != [] && sent[0].at == run[|run| - 1].at
    case Inner(h) => |sent| == 1 && first.Some? && sent[0].at <= first.value && h == Ms(first.value) + GRACE_MS
    case InnerPoll(h) => |sent| == 1 && first.Some? && sent[0].at <= first.value && h == Ms(first.value) + GRACE_MS
    case InnerSleep(h) => |sent| == 1 && first.Some? && sent[0].at <= first.value && h == Ms(first.value) + GRACE_MS
    case KillDue =>
      && |sent| == 1 && first.Some? && sent[0].at <= first.value
      && run != [] && Ms(run[|run| - 1].at) >= Ms(first.value) + GRACE_MS
    case LastWait => KillAfterGrace(run)
    case Reaped => |sent| == 2 ==> KillAfterGrace(run)
    case _ => |sent| == 0 && first == None
  }

  predicate KillAfterGrace(run: seq<Call>) {
    var sent, first := Sends(run), FirstAfterTerm(run);
    |sent| == 2 && first.Some? && sent[0].at <= first.value && Ms(sent[1].at) >= Ms(first.value) + GRACE_MS
  }

  lemma ExtendGrace(before: seq<Call>, c: Call)
    ensures Sends(before + [c]) == Sends(before) + (if c.Send? then [c] else [])
    ensures FirstAfterTerm(before + [c])
         == if FirstAfterTerm(before).Some? || |Sends(before)| != 1 then FirstAfterTerm(before) else Some(c.at)
  {
    assert (before + [c])[..|before + [c]| - 1] == before;
  }

  lemma StepGrace(timeout: nat, before: seq<Call>, c: Call, p: Phase)
    requires GraceAgrees(before, p) && Next(timeout, p, c).Some?
    requires before != [] ==> c.at >= before[|before| - 1].at
    ensures GraceAgrees(before + [c], Next(timeout, p, c).value)
  {
    hide Sends, FirstAfterTerm;
    ExtendGrace(before, c);
    if before != [] {
      FloorGainsWholeMs(before[|before| - 1].at, c.at, 0);
    }
  }

  lemma {:induction false} RunGrace(timeout: nat, run: seq<Call>)
    requires IsRun(timeout, run) && Timed(run)
    ensures GraceAgrees(run, PhaseAfter(timeout, run).value)
    decreases |run|
  {
    hide Next, GraceAgrees;
    if run == [] {
      EmptyGrace();
    } else {
      var before, c := run[..|run| - 1], run[|run| - 1];
      TimedPrefix(run);
      RunGrace(timeout, before);
      assert run == before + [c];
      StepGrace(timeout, before, c, PhaseAfter(timeout, before).value);
    }
  }

  lemma EmptyGrace()
    ensures GraceAgrees([], Start)
  {
  }

  /** No run whose first clock reading after SIGTERM is at c sends SIGKILL within 50 ms of SIGTERM. */
  ghost predicate KillNeverEarly(timeout: nat, c: nat) {
    forall run: seq<Call> :: Finished(timeout, run) && FirstAfterTerm(run) == Some(c) && |Sends(run)| == 2 ==>
      Sends(run)[1].at >= Sends(run)[0].at + GRACE_MS * NS_PER_MS
  }

  /**
   This is so exactly if that reading falls on a whole millisecond, or comes too soon for any deadline to
   have passed.
   */
  lemma KillNeverEarlyIff(timeout: nat, c: nat)
    ensures KillNeverEarly(timeout, c) <==> timeout == 0 || Ms(c) < timeout || c % NS_PER_MS == 0
  {
    hide PhaseAfter, Timed, Sends, FirstAfterTerm;
    if timeout == 0 || Ms(c) < timeout || c % NS_PER_MS == 0 {
      forall run: seq<Call> | Finished(timeout, run) && FirstAfterTerm(run) == Some(c) && |Sends(run)| == 2
        ensures Sends(run)[1].at >= Sends(run)[0].at + GRACE_MS * NS_PER_MS
      {
        Safety(timeout, run);
        RunGrace(timeout, run);
        FloorGainsWholeMs(Sends(run)[0].at, c, 0);
        WholeStart(c, Sends(run)[1].at, GRACE_MS);
      }
    } else {
      var a := c - timeout * NS_PER_MS;
      assert Ms(a) + timeout == Ms(c);
      var run := EarlyKill(timeout, a, c);
    }
  }

  lemma EarlyKill(timeout: nat, a: nat, c: nat) returns (run: seq<Call>)
    requires timeout > 0 && a <= c && Ms(c) == Ms(a) + timeout && c % NS_PER_MS != 0
    ensures Finished(timeout, run) && run != [] && run[0].at == a
    ensures FirstAfterTerm(run) == Some(c) && |Sends(run)| == 2
    ensures Sends(run)[1].at < Sends(run)[0].at + GRACE_MS * NS_PER_MS
  {
    hide PhaseAfter, Sends, FirstAfterTerm;
    var k := (Ms(c) + GRACE_MS) * NS_PER_MS;
    assert Ms(k) == Ms(c) + GRACE_MS && c <= k < c + GRACE_MS * NS_PER_MS;
    var s := TermRun(timeout, a, c);
    var s1 := s + [Clock(k)];
    var s2 := s1 + [Send(k, Kill)];
    run := s2 + [Wait(k)];
    Extend(timeout, s, Clock(k));
    Extend(timeout, s1, Send(k, Kill));
    Extend(timeout, s2, Wait(k));
  }

  /** No run that starts at time a sends SIGKILL within 50 ms of SIGTERM. */
  ghost predicate KillNeverEarlyFrom(timeout: nat, a: nat) {
    forall run: seq<Call> :: Finished(timeout, run) && run != [] && run[0].at == a && |Sends(run)| == 2 ==>
      Sends(run)[1].at >= Sends(run)[0].at + GRACE_MS * NS_PER_MS
  }

  /** Nothing known at the start excludes an early SIGKILL, except that there is no timeout. */
  lemma KillNeverEarlyFromIff(timeout: nat, a: nat)
    ensures KillNeverEarlyFrom(timeout, a) <==> timeout == 0
  {
    hide PhaseAfter, Timed, Sends, FirstAfterTerm;
    if timeout == 0 {
      forall run: seq<Call> | Finished(timeout, run)
        ensures |Sends(run)| != 2
      {
        Safety(timeout, run);
      }
    } else {
      var c := (Ms(a) + timeout) * NS_PER_MS + 1;
      assert Ms(c) == Ms(a) + timeout && a <= c && c % NS_PER_MS == 1;
      var run := EarlyKill(timeout, a, c);
    }
  }

  // ----- how late the signals are when nothing gets in the way

  /** Calls take no time, and sleeps exactly as long as requested. */
  predicate Exact(run: seq<Call>) {
    forall i :: 0 < i < |run| ==> run[i].at == run[i - 1].at + Duration(run[i - 1])
  }

  /** Where an exact run is in each phase: every poll is a millisecond, later two, after the one before. */
  predicate ExactAgrees(timeout: nat, run: seq<Call>, p: Phase) {
    run != [] && timeout > 0 ==>
      var a, e, l, sent, ready := run[0].at, EarlyPolls(run), LatePolls(run), Sends(run), Ready(run);
      match p
      case Start => false
      case Outer(d) => sent == [] && d == Ms(a) + timeout && ready == a + e * NS_PER_MS
      case OuterCheck(d) => sent == [] && d == Ms(a) + timeout && ready + NS_PER_MS == a + e * NS_PER_MS
      case OuterSleep(d) => sent == [] && d == Ms(a) + timeout && ready + NS_PER_MS == a + e * NS_PER_MS
      case TermDue => sent == [] && ready == a + timeout * NS_PER_MS
      case Signalled => |sent| == 1 && sent[0].at == ready == a + timeout * NS_PER_MS && l == 0
      case Inner(h) =>
        OnTime(timeout, run) && h == Ms(sent[0].at) + GRACE_MS && ready == sent[0].at + 2 * l * NS_PER_MS
      case InnerPoll(h) =>
        OnTime(timeout, run) && h == Ms(sent[0].at) + GRACE_MS && ready == sent[0].at + 2 * l * NS_PER_MS
      case InnerSleep(h) =>
        && OnTime(timeout, run) && h == Ms(sent[0].at) + GRACE_MS
        && ready + 2 * NS_PER_MS == sent[0].at + 2 * l * NS_PER_MS
      case KillDue => OnTime(timeout, run) && ready == sent[0].at + GRACE_MS * NS_PER_MS
      case LastWait => BothOnTime(timeout, run)
      case Reaped => sent == [] || OnTime(timeout, run) || BothOnTime(timeout, run)
  }

  predicate OnTime(timeout: nat, run: seq<Call>)
    requires run != []
  {
    |Sends(run)| == 1 && Sends(run)[0].at == run[0].at + timeout * NS_PER_MS
  }

  predicate BothOnTime(timeout: nat, run: seq<Call>)
    requires run != []
  {
    && |Sends(run)| == 2 && Sends(run)[0].at == run[0].at + timeout * NS_PER_MS
    && Sends(run)[1].at == Sends(run)[0].at + GRACE_MS * NS_PER_MS
  }

  lemma ExactIsTimed(run: seq<Call>)
    requires Exact(run)
    ensures Timed(run)
  {
  }

  lemma ExtendPolls(before: seq<Call>, c: Call)
    ensures EarlyPolls(before + [c]) == EarlyPolls(before) + (if c.Poll? && Sends(before) == [] then 1 else 0)
    ensures LatePolls(before + [c]) == LatePolls(before) + (if c.Poll? && Sends(before) != [] then 1 else 0)
    ensures Sends(before + [c]) == Sends(before) + (if c.Send? then [c] else [])
  {
    assert (before + [c])[..|before + [c]| - 1] == before;
  }

  lemma StepExact(timeout: nat, before: seq<Call>, c: Call, p: Phase)
    requires ExactAgrees(timeout, before, p) && CountsAgree(timeout, before, p) && SignalsAgree(timeout, before, p)
    requires Next(timeout, p, c).Some? && (before != [] ==> c.at == Ready(before))
    ensures ExactAgrees(timeout, before + [c], Next(timeout, p, c).value)
  {
    hide Sends, EarlyPolls, LatePolls;
    ExtendPolls(before, c);
    if before == [] {
      NoPolls();
    } else {
      assert (before + [c])[0] == before[0];
      MsShift(before[0].at, EarlyPolls(before) - 1);
      if Sends(before) != [] {
        MsShift(Sends(before)[0].at, 2 * LatePolls(before));
      }
    }
  }

  lemma NoPolls()
    ensures EarlyPolls([]) == 0 && LatePolls([]) == 0 && Sends([]) == []
  {
  }

  lemma MsShift(a: nat, m: int)
    requires m >= -1
    ensures m >= 0 ==> Ms(a + m * NS_PER_MS) == Ms(a) + m
  {
  }

  lemma {:induction false} RunExact(timeout: nat, run: seq<Call>)
    requires IsRun(timeout, run) && Exact(run)
    ensures ExactAgrees(timeout, run, PhaseAfter(timeout, run).value)
    decreases |run|
  {
    hide Next, ExactAgrees, CountsAgree, SignalsAgree;
    if run == [] {
      NothingExact(timeout);
    } else {
      var before, c := run[..|run| - 1], run[|run| - 1];
      assert forall i :: 0 <= i < |before| ==> before[i] == run[i];
      RunExact(timeout, before);
      ExactIsTimed(before);
      RunCounts(timeout, before);
      RunSignals(timeout, before);
      assert run == before + [c];
      StepExact(timeout, before, c, PhaseAfter(timeout, before).value);
    }
  }

  lemma NothingExact(timeout: nat)
    ensures ExactAgrees(timeout, [], Start)
  {
  }

  /** In an exact run SIGTERM comes exactly timeout ms after the start, and SIGKILL exactly 50 ms later. */
  lemma ExactRunSignalsOnTime(timeout: nat, run: seq<Call>)
    requires PhaseAfter(timeout, run) == Some(Reaped) && Exact(run)
    ensures Sends(run) != [] ==> Sends(run)[0].at == run[0].at + timeout * NS_PER_MS
    ensures |Sends(run)| == 2 ==> Sends(run)[1].at == Sends(run)[0].at + GRACE_MS * NS_PER_MS
  {
    RunExact(timeout, run);
    ExactIsTimed(run);
    Safety(timeout, run);
  }

  // ----- the code

  /** Log after is log before with one more call. */
  predicate OneMore(before: seq<Call>, after: seq<Call>) {
    after != [] && after[..|after| - 1] == before
  }

  function Last(log: seq<Call>): Call
    requires log != []
  {
    log[|log| - 1]
  }

  /** The machine as __wait_with_timeout sees it: a monotonic clock, one child, and a log of the calls. */
  class Host {
    var nowNs: nat
    var exited: bool
    var reaped: bool
    ghost var log: seq<Call>

    constructor ()
      ensures Valid() && log == [] && !reaped
    {
      nowNs, exited, reaped, log := 0, false, false, [];
    }

    /** No logged call lies in the future, counting the sleep it asked for. */
    ghost predicate Valid()
      reads this
    {
      Timed(log) && (log != [] ==> Ready(log) <= nowNs)
    }

    /** Any amount of time passes; meanwhile the child may exit. */
    method Pass(atLeast: nat)
      modifies this`nowNs, this`exited
      ensures nowNs >= old(nowNs) + atLeast
      ensures old(exited) ==> exited
    {
      var extra: nat :| 0 <= extra;
      var exits: bool := *;
      nowNs := nowNs + atLeast + extra;
      exited := exited || exits;
    }

    ghost method Record(c: Call)
      requires Valid() && c.at == nowNs
      modifies this`log
      ensures OneMore(old(log), log) && Last(log) == c && Timed(log)
    {
      log := log + [c];
    }

    method ClockGettime() returns (sec: nat, nsec: nat)
      requires Valid()
      modifies this
      ensures Valid() && reaped == old(reaped)
      ensures nsec < NS_PER_S
      ensures OneMore(old(log), log) && Last(log) == Clock(sec * NS_PER_S + nsec)
    {
      Pass(0);
      sec, nsec := nowNs / NS_PER_S, nowNs % NS_PER_S;
      Record(Clock(nowNs));
    }

    /** nanosleep rejects a nanosecond part of a second or more. */
    method Nanosleep(sec: nat, nsec: nat)
      requires Valid() && nsec < NS_PER_S
      modifies this
      ensures Valid() && reaped == old(reaped)
      ensures OneMore(old(log), log) && Last(log).Sleep? && Last(log).ns == sec * NS_PER_S + nsec
    {
      Pass(0);
      Record(Sleep(nowNs, sec * NS_PER_S + nsec));
      Pass(sec * NS_PER_S + nsec);
    }

    /** waitpid with WNOHANG; only a child that has not been reaped can be waited for. */
    method PollChild() returns (found: bool)
      requires Valid() && !reaped
      modifies this
      ensures Valid() && reaped == found
      ensures OneMore(old(log), log) && Last(log).Poll? && Last(log).exited == found
    {
      Pass(0);
      found := exited;
      reaped := found;
      Record(Poll(nowNs, found));
    }

    /** kill: a reaped pid may belong to somebody else, so it must not be signalled. */
    method SendSignal(sig: Signal)
      requires Valid() && !reaped
      modifies this
      ensures Valid() && !reaped
      ensures OneMore(old(log), log) && Last(log).Send? && Last(log).sig == sig
    {
      Pass(0);
      Record(Send(nowNs, sig));
    }

    /** waitpid without WNOHANG, from whose return on the child is gone. */
    method WaitChild()
      requires Valid() && !reaped
      modifies this
      ensures Valid() && reaped
      ensures OneMore(old(log), log) && Last(log).Wait?
    {
      Pass(0);
      Record(Wait(nowNs));
      Pass(0);
      exited, reaped := true, true;
    }
  }

  method NowMs(h: Host) returns (ms: nat)
    requires h.Valid()
    modifies h
    ensures h.Valid() && h.reaped == old(h.reaped)
    ensures OneMore(old(h.log), h.log) && Last(h.log).Clock? && ms == Ms(Last(h.log).at)
  {
    var sec, nsec := h.ClockGettime();
    ms := sec * 1000 + nsec / 1_000_000;
    NowMsIsFloor(sec * NS_PER_S + nsec);
  }

  method SleepMs(h: Host, ms: nat)
    requires h.Valid() && ms < 0x1_0000_0000
    modifies h
    ensures h.Valid() && h.reaped == old(h.reaped)
    ensures if ms == 0 then h.log == old(h.log)
            else OneMore(old(h.log), h.log) && Last(h.log).Sleep? && Last(h.log).ns == ms * NS_PER_MS
  {
    if ms == 0 { return; }
    SleepSplitExact(ms);
    h.Nanosleep(ms / 1000, (ms % 1000) * 1_000_000);
  }

  /** The machine follows the log: one more call is one more step of the protocol. */
  lemma Follow(timeout: nat, before: seq<Call>, after: seq<Call>, p: Phase)
    requires PhaseAfter(timeout, before) == Some(p) && OneMore(before, after)
    ensures PhaseAfter(timeout, after) == Next(timeout, p, Last(after))
  {
  }

  /** __wait_with_timeout: whatever the clock, the scheduler and the child do, its calls form a finished run. */
  method WaitWithTimeout(h: Host, timeoutMs: nat)
    requires h.Valid() && !h.reaped && h.log == [] && timeoutMs < 0x1_0000_0000
    modifies h
    ensures h.reaped && Timed(h.log)
    ensures PhaseAfter(timeoutMs, h.log) == Some(Reaped)
    ensures timeoutMs > 0 && Last(h.log).Wait? ==> TermThenKill(timeoutMs, h.log)
  {
    hide Ready, Timed, TermThenKill;
    if timeoutMs == 0 {
      h.WaitChild();
      assert h.Valid() ==> Timed(h.log);
      return;
    }
    var now := NowMs(h);
    var deadline := now + timeoutMs;
    while true
      invariant h.Valid() && !h.reaped
      invariant PhaseAfter(timeoutMs, h.log) == Some(Outer(deadline))
      decreases 3 * timeoutMs + 83 - |h.log|
    {
      var again := PollOnce(h, timeoutMs, deadline);
      if !again {
        Safety(timeoutMs, h.log);
        return;
      }
      RunIsBounded(timeoutMs, h.log);
    }
  }

  /** One round of the polling loop; it is the last if the child is gone or the deadline has passed. */
  method PollOnce(h: Host, timeoutMs: nat, deadline: nat) returns (again: bool)
    requires h.Valid() && !h.reaped && PhaseAfter(timeoutMs, h.log) == Some(Outer(deadline))
    modifies h
    ensures again ==> h.Valid() && !h.reaped && PhaseAfter(timeoutMs, h.log) == Some(Outer(deadline))
    ensures again ==> |h.log| > |old(h.log)|
    ensures !again ==> h.reaped && Timed(h.log) && PhaseAfter(timeoutMs, h.log) == Some(Reaped)
  {
    hide Ready, Timed, PhaseAfter;
    ghost var l0 := h.log;
    var found := h.PollChild();
    Follow(timeoutMs, l0, h.log, Outer(deadline));
    if found { return false; }
    ghost var l1 := h.log;
    var now := NowMs(h);
    Follow(timeoutMs, l1, h.log, OuterCheck(deadline));
    if now >= deadline {
      Escalate(h, timeoutMs);
      return false;
    }
    ghost var l2 := h.log;
    SleepMs(h, 1);
    Follow(timeoutMs, l2, h.log, OuterSleep(deadline));
    again := true;
  }

  /** The part of the loop body from SIGTERM on. */
  method Escalate(h: Host, timeoutMs: nat)
    requires h.Valid() && !h.reaped && PhaseAfter(timeoutMs, h.log) == Some(TermDue)
    modifies h
    ensures h.reaped && Timed(h.log)
    ensures PhaseAfter(timeoutMs, h.log) == Some(Reaped)
  {
    hide Ready, Timed, PhaseAfter;
    ghost var l0 := h.log;
    h.SendSignal(Term);
    Follow(timeoutMs, l0, h.log, TermDue);
    ghost var l1 := h.log;
    var now := NowMs(h);
    Follow(timeoutMs, l1, h.log, Signalled);
    var gone := Grace(h, timeoutMs, now + 50);
    if gone { return; }
    ghost var l2 := h.log;
    h.SendSignal(Kill);
    Follow(timeoutMs, l2, h.log, KillDue);
    ghost var l3 := h.log;
    h.WaitChild();
    Follow(timeoutMs, l3, h.log, LastWait);
  }

  /** The inner loop: gone says whether the child went within the 50 ms. */
  method Grace(h: Host, timeoutMs: nat, hard: nat) returns (gone: bool)
    requires h.Valid() && !h.reaped && PhaseAfter(timeoutMs, h.log) == Some(Inner(hard))
    modifies h
    ensures h.Valid() && h.reaped == gone && Timed(h.log)
    ensures PhaseAfter(timeoutMs, h.log) == Some(if gone then Reaped else KillDue)
  {
    hide Ready, Timed, PhaseAfter;
    ghost var l0 := h.log;
    var now := NowMs(h);
    Follow(timeoutMs, l0, h.log, Inner(hard));
    while now < hard
      invariant h.Valid() && !h.reaped
      invariant PhaseAfter(timeoutMs, h.log) == Some(if now < hard then InnerPoll(hard) else KillDue)
      decreases 3 * timeoutMs + 83 - |h.log|
    {
      ghost var l1 := h.log;
      var found := h.PollChild();
      Follow(timeoutMs, l1, h.log, InnerPoll(hard));
      if found { return true; }
      ghost var l2 := h.log;
      SleepMs(h, 2);
      Follow(timeoutMs, l2, h.log, InnerSleep(hard));
      ghost var l3 := h.log;
      now := NowMs(h);
      Follow(timeoutMs, l3, h.log, Inner(hard));
      RunIsBounded(timeoutMs, h.log);
    }
    gone := false;
  }
}
