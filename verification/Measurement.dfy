/**
 The numbers the measuring code reports, seen together with the protocol that runs the child: the descriptors
 and readings of Clocks and Counters belong to the counters of a run of Handshake.
 */
module Measurement {
  import opened Scaling
  import opened Descriptors
  import opened PerfKernel
  import opened Handshake
  import Clocks
  import Counters
  import Topdown
  import Events
  import Tokenizer

  /**
   The attempt t opened this counter, disabled and with the run's enable_on_exec, and the reading is the
   counter's; or both failed.
   */
  predicate SameCounter(c: Config, ctr: Counter, t: Attempt, readings: map<int, Reading>) {
    && t.attr.disabled && t.attr.enableOnExec == c.enableOnExec
    && (FdOf(t) != NONE <==> ctr.Open?)
    && (ctr.Open? ==> ReadingOf(readings, FdOf(t)) == ctr.reading)
  }

  /** The attempts after the first n are those of the run acts, and the readings are those the run leaves. */
  predicate Agrees(c: Config, acts: seq<Action>, ts: seq<Attempt>, n: nat, readings: map<int, Reading>) {
    && IsRun(c, acts) && |ts| == n + c.counters
    && forall j :: 0 <= j < c.counters ==> SameCounter(c, Run(c, acts).value.counters[j], ts[n + j], readings)
  }

  /**
   What a value computed from the final reading of counter j means: 0 if it did not open or the program could
   not be executed; and the child's own work from exec to exit, exactly, if the counter was not multiplexed,
   or if it ran at all and the child worked at a constant rate.
   */
  ghost predicate Means(acts: seq<Action>, j: nat, t: Attempt, value: int) {
    && (FdOf(t) == NONE || ExecFailed(acts) ==> value == 0)
    && (FdOf(t) != NONE && NotMultiplexed(acts, j) ==> value == TrueWork(acts, j))
    && (FdOf(t) != NONE && SeenTime(acts, j) > 0 ==>
          forall p: nat, q: nat :: q > 0 && ConstantRate(acts, j, p, q) ==> value == TrueWork(acts, j))
  }

  lemma ValueMeans(c: Config, acts: seq<Action>, j: nat, t: Attempt, readings: map<int, Reading>, value: int)
    requires IsRun(c, acts) && j < c.counters && t.attr.enableOnExec
    requires SameCounter(c, Run(c, acts).value.counters[j], t, readings)
    requires value == Scaled(ReadingOf(readings, FdOf(t)))
    ensures Means(acts, j, t, value)
  {
    hide Run, Scaled, NotMultiplexed, ExecFailed, TrueWork, SeenTime, ConstantRate;
    if FdOf(t) == NONE {
      NoReading(readings);
    } else {
      ExactCount(c, acts, j);
      if ExecFailed(acts) {
        FailedExecReadsZero(c, acts, j);
      }
      forall p: nat, q: nat | SeenTime(acts, j) > 0 && q > 0 && ConstantRate(acts, j, p, q)
        ensures value == TrueWork(acts, j)
      {
        ConstantRateCount(c, acts, j, p, q);
      }
    }
  }

  /** The values of __bench_bin_with_opts are the child's true counts, in every interleaving. */
  lemma BenchBinMeans(
      c: Config, acts: seq<Action>, ts: seq<Attempt>, n: nat, readings: map<int, Reading>, stopped: set<int>,
      attrs: seq<Attr>, inherit: bool, pinned: bool, values: seq<int>)
    requires Agrees(c, acts, ts, n, readings) && |attrs| == |values| == c.counters
    requires forall j :: 0 <= j < c.counters ==>
               && ts[n + j].attr == Clocks.Armed(attrs[j], inherit, pinned)
               && Clocks.ValueTells(values[j], ts[n + j], readings, stopped)
    ensures forall j :: 0 <= j < c.counters ==> Means(acts, j, ts[n + j], values[j])
  {
    hide Run, Scaled, Means, SameCounter;
    forall j | 0 <= j < c.counters
      ensures Means(acts, j, ts[n + j], values[j])
    {
      assert SameCounter(c, Run(c, acts).value.counters[j], ts[n + j], readings);
      ValueMeans(c, acts, j, ts[n + j], readings, values[j]);
    }
  }

  /** So are the rows of benchmark_bin_dynamic, and a row without a count carries the kernel's error. */
  lemma DynamicMeans(
      c: Config, acts: seq<Action>, ts: seq<Attempt>, n: nat, readings: map<int, Reading>, stopped: set<int>,
      defs: seq<Tokenizer.Named<Events.EventId>>, exclKernel: bool, inherit: bool, pinned: bool,
      rows: seq<Counters.Row>)
    requires Agrees(c, acts, ts, n, readings) && |defs| == |rows| == c.counters
    requires forall j :: 0 <= j < c.counters ==>
               && ts[n + j].attr == Counters.MeasuredAttr(defs[j], exclKernel, inherit, pinned)
               && Counters.RowTells(rows[j], defs[j].name, ts[n + j], readings, stopped)
    ensures forall j :: 0 <= j < c.counters ==>
              && Means(acts, j, ts[n + j], rows[j].value)
              && (rows[j].err != 0 <==> !Run(c, acts).value.counters[j].Open?)
  {
    hide Run, Scaled, Means;
    forall j | 0 <= j < c.counters
      ensures Means(acts, j, ts[n + j], rows[j].value)
      ensures rows[j].err != 0 <==> !Run(c, acts).value.counters[j].Open?
    {
      assert SameCounter(c, Run(c, acts).value.counters[j], ts[n + j], readings);
      ValueMeans(c, acts, j, ts[n + j], readings, rows[j].value);
    }
  }

  /** __bench_bin_with_opts from end to end: whatever run of the protocol took place, the values mean this. */
  method BenchBin(k: Kernel, attrs: seq<Attr>, inherit: bool, pinned: bool) returns (values: seq<int>)
    requires k.Valid() && forall i :: 0 <= i < |attrs| ==> attrs[i].disabled
    modifies k
    ensures k.Valid() && k.live == old(k.live)
    ensures |values| == |attrs| && |k.attempts| == |old(k.attempts)| + |attrs|
    ensures forall c: Config, acts: seq<Action> ::
              Agrees(c, acts, k.attempts, |old(k.attempts)|, k.readings) ==>
                forall j :: 0 <= j < |attrs| ==> Means(acts, j, k.attempts[|old(k.attempts)| + j], values[j])
  {
    hide Agrees, Means, Clocks.ValueTells, Clocks.Armed;
    values := Clocks.BenchBinWithOpts(k, attrs, inherit, pinned);
    ghost var n := |old(k.attempts)|;
    forall c: Config, acts: seq<Action> | Agrees(c, acts, k.attempts, n, k.readings)
      ensures forall j :: 0 <= j < |attrs| ==> Means(acts, j, k.attempts[n + j], values[j])
    {
      AgreesCounts(c, acts, k.attempts, n, k.readings);
      BenchBinMeans(c, acts, k.attempts, n, k.readings, k.stopped, attrs, inherit, pinned, values);
    }
  }

  lemma AgreesCounts(c: Config, acts: seq<Action>, ts: seq<Attempt>, n: nat, readings: map<int, Reading>)
    requires Agrees(c, acts, ts, n, readings)
    ensures |ts| == n + c.counters
  {
  }

  /** benchmark_bin_dynamic from end to end. */
  method BenchDynamic(
      k: Kernel, defs: seq<Tokenizer.Named<Events.EventId>>, exclKernel: bool, inherit: bool, pinned: bool)
    returns (rows: seq<Counters.Row>)
    requires k.Valid()
    modifies k
    ensures k.Valid() && k.live == old(k.live)
    ensures |rows| == |defs| && |k.attempts| == |old(k.attempts)| + |defs|
    ensures forall c: Config, acts: seq<Action> ::
              Agrees(c, acts, k.attempts, |old(k.attempts)|, k.readings) ==>
                forall j :: 0 <= j < |defs| ==> Means(acts, j, k.attempts[|old(k.attempts)| + j], rows[j].value)
  {
    hide Agrees, Means, Counters.RowTells, Counters.MeasuredAttr;
    rows := Counters.BenchmarkBinDynamic(k, defs, exclKernel, inherit, pinned);
    ghost var n := |old(k.attempts)|;
    forall c: Config, acts: seq<Action> | Agrees(c, acts, k.attempts, n, k.readings)
      ensures forall j :: 0 <= j < |defs| ==> Means(acts, j, k.attempts[n + j], rows[j].value)
    {
      AgreesCounts(c, acts, k.attempts, n, k.readings);
      DynamicMeans(c, acts, k.attempts, n, k.readings, k.stopped, defs, exclKernel, inherit, pinned, rows);
    }
  }

  // ----- the top-down breakdown

  /** While the new image runs, the four categories 1 to 4 partition the slots 0, and all five are scheduled alike. */
  predicate PartitionsSlots(acts: seq<Action>) {
    acts != [] ==>
      var before, a := acts[..|acts| - 1], acts[|acts| - 1];
      PartitionsSlots(before) && (a.Work? && Executed(before) ==> PartitionedWork(a))
  }

  predicate PartitionedWork(a: Action)
    requires a.Work?
  {
    && |a.events| >= 5 && |a.scheduled| >= 5
    && a.events[0] == a.events[1] + a.events[2] + a.events[3] + a.events[4]
    && forall j :: 1 <= j < 5 ==> a.scheduled[j] == a.scheduled[0]
  }

  lemma {:induction false} PartitionTotals(acts: seq<Action>)
    requires PartitionsSlots(acts)
    ensures SeenWork(acts, 0) == SeenWork(acts, 1) + SeenWork(acts, 2) + SeenWork(acts, 3) + SeenWork(acts, 4)
    ensures forall j: nat :: 1 <= j < 5 ==> SeenTime(acts, j) == SeenTime(acts, 0)
    decreases |acts|
  {
    hide Executed;
    if acts != [] {
      PartitionTotals(acts[..|acts| - 1]);
    }
  }

  /** The fractions of one run are non-negative and add up to at most 1 and at least 1 - 3 / slots. */
  predicate AddUp(out: Topdown.Breakdown, slots: Reading) {
    && Scaled(slots) > 0
    && 1.0 - 3.0 / Scaled(slots) as real <= Topdown.Total(out) <= 1.0
    && out.retiring >= 0.0 && out.badSpec >= 0.0 && out.frontend >= 0.0 && out.backend >= 0.0
  }

  /** In a run of the five counters whose categories partition the slots, the breakdown of the readings adds up. */
  lemma RunAddsUp(c: Config, acts: seq<Action>)
    requires IsRun(c, acts) && c.counters == 5 && c.enableOnExec && PartitionsSlots(acts)
    requires forall j :: 0 <= j < 5 ==> Run(c, acts).value.counters[j].Open?
    ensures var cs := Run(c, acts).value.counters;
            var out := Topdown.BreakdownOf(cs[0].reading, cs[1].reading, cs[2].reading, cs[3].reading, cs[4].reading);
            out.supported ==> AddUp(out, cs[0].reading)
  {
    hide Step, Run, Scaled, Executed, SeenWork, SeenTime, ImageTime, PartitionsSlots, Topdown.Fraction, Topdown.Total;
    PartitionTotals(acts);
    RunReads(c, acts, 0);
    RunReads(c, acts, 1);
    RunReads(c, acts, 2);
    RunReads(c, acts, 3);
    RunReads(c, acts, 4);
    var cs := Run(c, acts).value.counters;
    Topdown.ScaledNonNegative(cs[0].reading);
    if Scaled(cs[0].reading) != 0 {
      Topdown.FractionsPartition(cs[1].reading.value, cs[2].reading.value, cs[3].reading.value, cs[4].reading.value,
                                 cs[0].reading.enabled, cs[0].reading.running);
    }
  }

  /** A run of the five counters, all open, whose categories partition the slots. */
  predicate TopdownRun(c: Config, acts: seq<Action>, ts: seq<Attempt>, n: nat, readings: map<int, Reading>) {
    && Agrees(c, acts, ts, n, readings) && c.counters == 5 && PartitionsSlots(acts)
    && forall j :: 0 <= j < 5 ==> Run(c, acts).value.counters[j].Open?
  }

  /** The fractions add up, with the slots that the run has counted. */
  predicate AddsUpIn(c: Config, acts: seq<Action>, out: Topdown.Breakdown) {
    && IsRun(c, acts) && c.counters > 0 && Run(c, acts).value.counters[0].Open?
    && AddUp(out, Run(c, acts).value.counters[0].reading)
  }

  /** measure_bin from end to end: if the CPU partitions its slots and all counters opened, the fractions add up. */
  method MeasureTopdown(k: Kernel, s: Topdown.Support, exclKernel: bool) returns (out: Topdown.Breakdown)
    requires k.Valid()
    modifies k, s
    ensures k.Valid() && k.live == old(k.live)
    ensures forall c: Config, acts: seq<Action> ::
              var n := |old(k.attempts)| + (if old(s.cached) == -1 then 1 else 0);
              TopdownRun(c, acts, k.attempts, n, k.readings) && out.supported ==> AddsUpIn(c, acts, out)
  {
    hide TopdownRun, AddsUpIn, Topdown.BreakdownAfter, Topdown.FiveMeasured;
    out := Topdown.MeasureBin(k, s, exclKernel);
    ghost var n := |old(k.attempts)| + (if old(s.cached) == -1 then 1 else 0);
    forall c: Config, acts: seq<Action> | TopdownRun(c, acts, k.attempts, n, k.readings) && out.supported
      ensures AddsUpIn(c, acts, out)
    {
      TopdownAddsUp(c, acts, k.attempts, n, k.readings, k.stopped, exclKernel);
    }
  }

  lemma TopdownAddsUp(
      c: Config, acts: seq<Action>, ts: seq<Attempt>, n: nat, readings: map<int, Reading>, stopped: set<int>,
      exclKernel: bool)
    requires TopdownRun(c, acts, ts, n, readings) && Topdown.FiveMeasured(ts, n, exclKernel, stopped)
    ensures Topdown.BreakdownAfter(readings, ts, n).supported ==>
              AddsUpIn(c, acts, Topdown.BreakdownAfter(readings, ts, n))
  {
    hide PartitionsSlots, Run, AddUp, Topdown.BreakdownOf;
    var cs := Run(c, acts).value.counters;
    assert Topdown.Nth(ts, n, 0).attr == Topdown.Measured(exclKernel)[0];
    forall j | 0 <= j < 5
      ensures Topdown.Final(readings, Topdown.Nth(ts, n, j)) == cs[j].reading
    {
      assert SameCounter(c, cs[j], ts[n + j], readings);
    }
    assert SameCounter(c, cs[0], ts[n + 0], readings);
    RunAddsUp(c, acts);
  }
}
