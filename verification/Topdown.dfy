/** topdown::measure_bin: five raw counters and the four fractions formed from their scaled readings. */
module Topdown {
  import opened Powers
  import opened Scaling
  import opened Descriptors
  import opened PerfKernel
  import opened Clocks

  datatype Breakdown = Breakdown(frontend: real, backend: real, badSpec: real, retiring: real, supported: bool)

  const UNSUPPORTED := Breakdown(0.0, 0.0, 0.0, 0.0, false)

  function Fraction(part: Reading, slots: Reading): real
    requires Scaled(slots) != 0
  {
    Scaled(part) as real / Scaled(slots) as real
  }

  /** The result of measure_bin once the child has been reaped and the five counters have stopped. */
  function BreakdownOf(slots: Reading, retiring: Reading, badSpec: Reading, fe: Reading, be: Reading): Breakdown {
    if Scaled(slots) == 0 then UNSUPPORTED
    else Breakdown(Fraction(fe, slots), Fraction(be, slots), Fraction(badSpec, slots), Fraction(retiring, slots), true)
  }

  function Total(b: Breakdown): real {
    b.frontend + b.backend + b.badSpec + b.retiring
  }

  lemma FractionTimes(part: Reading, slots: Reading)
    requires Scaled(slots) > 0
    ensures Fraction(part, slots) * Scaled(slots) as real == Scaled(part) as real
    ensures Fraction(part, slots) >= 0.0
  {
    hide Scaled;
    ScaledNonNegative(part);
    CancelPositiveLe(0.0, Fraction(part, slots), Scaled(slots) as real);
  }

  lemma FractionSum(a: real, b: real, c: real, d: real, e: real, t: real)
    requires t > 0.0 && e * t == 3.0
    requires t - 3.0 <= a * t + b * t + c * t + d * t <= t
    ensures 1.0 - e <= a + b + c + d <= 1.0
  {
    var n := a + b + c + d;
    assert n * t == a * t + b * t + c * t + d * t;
    CancelPositiveLe(n, 1.0, t);
    CancelPositiveLe(1.0 - e, n, t);
  }

  /** Three additions of floors lose at most three. */
  lemma PartsOfScaled(r: nat, b: nat, f: nat, k: nat, e: nat, t: nat)
    ensures var parts := Scaled(Reading(r, e, t)) + Scaled(Reading(b, e, t))
                         + Scaled(Reading(f, e, t)) + Scaled(Reading(k, e, t));
            var whole := Scaled(Reading(r + b + f + k, e, t));
            whole - 3 <= parts <= whole
  {
    ScaledAdds(r, b, e, t);
    ScaledAdds(r + b, f, e, t);
    ScaledAdds(r + b + f, k, e, t);
  }

  /**
   If the four categories partition the slots and all five counters were enabled and running equally
   long, the reported fractions are non-negative and add up to at most 1 and at least 1 - 3 / slots.
   */
  lemma FractionsPartition(r: nat, b: nat, f: nat, k: nat, e: nat, t: nat)
    requires Scaled(Reading(r + b + f + k, e, t)) > 0
    ensures var slots := Reading(r + b + f + k, e, t);
            var out := BreakdownOf(slots, Reading(r, e, t), Reading(b, e, t), Reading(f, e, t), Reading(k, e, t));
            && out.supported
            && 1.0 - 3.0 / Scaled(slots) as real <= Total(out) <= 1.0
            && out.retiring >= 0.0 && out.badSpec >= 0.0 && out.frontend >= 0.0 && out.backend >= 0.0
  {
    hide Scaled, Fraction;
    var slots := Reading(r + b + f + k, e, t);
    var s := Scaled(slots) as real;
    PartsOfScaled(r, b, f, k, e, t);
    FractionTimes(Reading(f, e, t), slots);
    FractionTimes(Reading(k, e, t), slots);
    FractionTimes(Reading(b, e, t), slots);
    FractionTimes(Reading(r, e, t), slots);
    assert (3.0 / s) * s == 3.0;
    FractionSum(Fraction(Reading(f, e, t), slots), Fraction(Reading(k, e, t), slots),
                Fraction(Reading(b, e, t), slots), Fraction(Reading(r, e, t), slots), 3.0 / s, s);
  }

  lemma ScaledNonNegative(r: Reading)
    ensures Scaled(r) >= 0
  {
    if r.running > 0 {
      ScaledMonotone(0, r.value, r.enabled, r.running);
      ScaledIsQuotient(Reading(0, r.enabled, r.running));
    }
  }

  // ----- the measurement

  const RAW: nat := 4
  const TD_SLOTS: nat := 0x0400
  const TD_RETIRING: nat := 0x8000
  const TD_BAD_SPEC: nat := 0x8100
  const TD_FE_BOUND: nat := 0x8200
  const TD_BE_BOUND: nat := 0x8300

  function RawAttr(config: nat, exclKernel: bool, onExec: bool): Attr {
    Attr(RAW, config, true, exclKernel, true, false, false, onExec)
  }

  /** The five counters in the order in which they are opened. */
  function Measured(exclKernel: bool): (attrs: seq<Attr>)
    ensures |attrs| == 5
  {
    [RawAttr(TD_SLOTS, exclKernel, true), RawAttr(TD_RETIRING, exclKernel, true),
     RawAttr(TD_BAD_SPEC, exclKernel, true), RawAttr(TD_FE_BOUND, exclKernel, true),
     RawAttr(TD_BE_BOUND, exclKernel, true)]
  }

  /** The static answer of supported(): -1 as long as nobody has asked, then 0 or 1. */
  class Support {
    var cached: int

    constructor ()
      ensures cached == -1
    {
      cached := -1;
    }
  }

  /** A probe on the program itself tells, once and for all, whether the CPU has a slots counter. */
  method Supported(k: Kernel, s: Support) returns (ok: bool)
    requires k.Valid()
    modifies k, s
    ensures k.Valid() && k.live == old(k.live) && ok == (s.cached == 1) && s.cached != -1
    ensures old(s.cached) != -1 ==> s.cached == old(s.cached) && k.attempts == old(k.attempts)
    ensures old(s.cached) == -1 ==>
              && |k.attempts| == |old(k.attempts)| + 1 && old(k.attempts) <= k.attempts
              && k.attempts[|old(k.attempts)|].attr == RawAttr(TD_SLOTS, true, false)
              && s.cached == if FdOf(k.attempts[|old(k.attempts)|]) != NONE then 1 else 0
  {
    if s.cached != -1 { return s.cached == 1; }
    var probe := new KernelClock(RawAttr(TD_SLOTS, true, false));
    var fd := probe.Open(k);
    ok := fd != NONE;
    s.cached := if ok then 1 else 0;
    probe.Destroy(k);
  }

  /** Attempt number i after the first n. */
  function Nth(ts: seq<Attempt>, n: nat, i: nat): Attempt
    requires n + i < |ts|
  {
    ts[n + i]
  }

  /** The final reading of the counter that this attempt tried to open. */
  function Final(readings: map<int, Reading>, t: Attempt): Reading {
    ReadingOf(readings, FdOf(t))
  }

  /** After the first n attempts come the five counters, and those that opened have been stopped. */
  predicate FiveMeasured(ts: seq<Attempt>, n: nat, exclKernel: bool, stopped: set<int>) {
    && |ts| == n + 5
    && forall i :: 0 <= i < 5 ==>
         && Nth(ts, n, i).attr == Measured(exclKernel)[i]
         && (FdOf(Nth(ts, n, i)) != NONE ==> FdOf(Nth(ts, n, i)) in stopped)
  }

  /** The breakdown of the final readings of those five. */
  function BreakdownAfter(readings: map<int, Reading>, ts: seq<Attempt>, n: nat): Breakdown
    requires |ts| == n + 5
  {
    BreakdownOf(Final(readings, Nth(ts, n, 0)), Final(readings, Nth(ts, n, 1)), Final(readings, Nth(ts, n, 2)),
                Final(readings, Nth(ts, n, 3)), Final(readings, Nth(ts, n, 4)))
  }

  /** The scaled final reading of the counter that attempt t tried to open. */
  function Count(readings: map<int, Reading>, t: Attempt): real {
    Scaled(Final(readings, t)) as real
  }

  /**
   Each fraction belongs to the counter with its event code: times the scaled slots it is that counter's scaled
   final reading.
   */
  predicate EachFraction(out: Breakdown, readings: map<int, Reading>, ts: seq<Attempt>)
    requires |ts| == 5
  {
    && ts[0].attr.config == 0x0400 && Count(readings, ts[0]) != 0.0
    && ts[1].attr.config == 0x8000 && out.retiring * Count(readings, ts[0]) == Count(readings, ts[1])
    && ts[2].attr.config == 0x8100 && out.badSpec * Count(readings, ts[0]) == Count(readings, ts[2])
    && ts[3].attr.config == 0x8200 && out.frontend * Count(readings, ts[0]) == Count(readings, ts[3])
    && ts[4].attr.config == 0x8300 && out.backend * Count(readings, ts[0]) == Count(readings, ts[4])
  }

  lemma PartOfSlots(part: Reading, slots: Reading)
    requires Scaled(slots) != 0
    ensures Fraction(part, slots) * Scaled(slots) as real == Scaled(part) as real
  {
    hide Scaled;
    var x := Scaled(slots) as real;
    assert x != 0.0;
    assert (Scaled(part) as real / x) * x == Scaled(part) as real;
  }

  lemma EventCodes(ts: seq<Attempt>, n: nat, exclKernel: bool, stopped: set<int>)
    requires FiveMeasured(ts, n, exclKernel, stopped)
    ensures ts[n].attr.config == 0x0400 && ts[n + 1].attr.config == 0x8000 && ts[n + 2].attr.config == 0x8100
    ensures ts[n + 3].attr.config == 0x8200 && ts[n + 4].attr.config == 0x8300
  {
    assert Nth(ts, n, 0) == ts[n] && Nth(ts, n, 1) == ts[n + 1] && Nth(ts, n, 2) == ts[n + 2];
    assert Nth(ts, n, 3) == ts[n + 3] && Nth(ts, n, 4) == ts[n + 4];
  }

  lemma FractionsAreNamed(
      readings: map<int, Reading>, ts: seq<Attempt>, n: nat, exclKernel: bool, stopped: set<int>)
    requires FiveMeasured(ts, n, exclKernel, stopped) && BreakdownAfter(readings, ts, n).supported
    ensures EachFraction(BreakdownAfter(readings, ts, n), readings, ts[n..])
  {
    hide Scaled, Final, Fraction, FiveMeasured;
    EventCodes(ts, n, exclKernel, stopped);
    FiveAttempts(ts, n, exclKernel, stopped);
    var slots := Final(readings, ts[n]);
    PartOfSlots(Final(readings, ts[n + 1]), slots);
    PartOfSlots(Final(readings, ts[n + 2]), slots);
    PartOfSlots(Final(readings, ts[n + 3]), slots);
    PartOfSlots(Final(readings, ts[n + 4]), slots);
  }

  lemma FiveAttempts(ts: seq<Attempt>, n: nat, exclKernel: bool, stopped: set<int>)
    requires FiveMeasured(ts, n, exclKernel, stopped)
    ensures |ts| == n + 5
  {
  }

  /**
   measure_bin: the first call ever probes; without support nothing else is opened and the result is empty.
   Otherwise the five counters are tried once each in order, armed on exec, stopped and closed, and the result
   is the breakdown of their final readings, nothing standing in for one that could not be opened.
   */
  method MeasureBin(k: Kernel, s: Support, exclKernel: bool) returns (out: Breakdown)
    requires k.Valid()
    modifies k, s
    ensures k.Valid() && k.live == old(k.live) && old(k.attempts) <= k.attempts
    ensures old(s.cached) != -1 ==> s.cached == old(s.cached)
    ensures old(s.cached) == -1 ==>
              && |k.attempts| > |old(k.attempts)|
              && k.attempts[|old(k.attempts)|].attr == RawAttr(TD_SLOTS, true, false)
              && s.cached == if FdOf(k.attempts[|old(k.attempts)|]) != NONE then 1 else 0
    ensures var n := |old(k.attempts)| + (if old(s.cached) == -1 then 1 else 0);
            if s.cached == 1 then
              FiveMeasured(k.attempts, n, exclKernel, k.stopped) && out == BreakdownAfter(k.readings, k.attempts, n)
            else
              |k.attempts| == n && out == UNSUPPORTED
    ensures out.supported ==>
              var n := |old(k.attempts)| + (if old(s.cached) == -1 then 1 else 0);
              |k.attempts| == n + 5 && EachFraction(out, k.readings, k.attempts[n..])
    ensures !out.supported ==> out == UNSUPPORTED
    ensures s.cached == 1 ==>
              && |k.attempts| >= 5
              && (out.supported <==> Count(k.readings, k.attempts[|k.attempts| - 5]) != 0.0)
  {
    hide Scaled, Final, EachFraction;
    out := UNSUPPORTED;
    var ok := Supported(k, s);
    if !ok { return; }
    var v := MeasureFive(k, exclKernel);
    var t := v[0];
    if t == 0 { return; }
    out := Breakdown(v[3] as real / t as real, v[4] as real / t as real, v[2] as real / t as real,
                     v[1] as real / t as real, true);
    FractionsAreNamed(k.readings, k.attempts, |k.attempts| - 5, exclKernel, k.stopped);
  }

  /** Open, wait for the child, stop, read and close the five counters. */
  method MeasureFive(k: Kernel, exclKernel: bool) returns (v: seq<int>)
    requires k.Valid()
    modifies k
    ensures k.Valid() && k.live == old(k.live) && old(k.attempts) <= k.attempts
    ensures FiveMeasured(k.attempts, |old(k.attempts)|, exclKernel, k.stopped)
    ensures |v| == 5
    ensures forall i :: 0 <= i < 5 ==> v[i] == Scaled(Final(k.readings, Nth(k.attempts, |old(k.attempts)|, i)))
  {
    hide Measured, Scaled, ClockFds, Ledger, NoDuplicates, Opened;
    ghost var n := |k.attempts|;
    var gr := new EventGroup(k, Measured(exclKernel));
    ghost var us := ClockViews(gr.members);
    NothingHeld(ClockFds(us), k.live);
    gr.Open(k);
    OpenedAttrs(us, ClockViews(gr.members), k.attempts, n);
    v := StopAndRead(k, gr, us, n);
    forall i | 0 <= i < 5
      ensures Nth(k.attempts, n, i).attr == Measured(exclKernel)[i]
      ensures FdOf(Nth(k.attempts, n, i)) != NONE ==> FdOf(Nth(k.attempts, n, i)) in k.stopped
      ensures v[i] == Scaled(Final(k.readings, Nth(k.attempts, n, i)))
    {
      assert us[i].attr == Measured(exclKernel)[i];
      assert ValueTells(v[i], k.attempts[n + i], k.readings, k.stopped);
    }
  }
}
