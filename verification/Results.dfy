/** Averaging the runs of one binary (collapse_runs) and ordering the binaries by mean time (sort_results). */
module Results {
  import opened Records
  import Stats = Statistics

  // ----- averages

  function SumCounts(runs: Group, f: Counter): int {
    if runs == [] then 0 else SumCounts(runs[..|runs| - 1], f) + runs[|runs| - 1].counts(f)
  }

  /** Division as the C++ code does it: towards zero. */
  function TruncDiv(a: int, n: int): int
    requires n > 0
  {
    if a >= 0 then a / n else -((-a) / n)
  }

  function MeanCount(runs: Group, f: Counter): int
    requires runs != []
  {
    TruncDiv(SumCounts(runs, f), |runs|)
  }

  /** The sum over two lots of runs, and over one run: what SumCounts is. */
  lemma {:induction false} SumCountsConcat(a: Group, b: Group, f: Counter)
    ensures SumCounts(a + b, f) == SumCounts(a, f) + SumCounts(b, f)
    decreases |b|
  {
    if b == [] {
      assert a + b == a;
    } else {
      SumCountsConcat(a, b[..|b| - 1], f);
      assert (a + b)[..|a + b| - 1] == a + b[..|b| - 1];
    }
  }

  lemma SumCountsOfOne(b: Benchmark, f: Counter)
    ensures SumCounts([b], f) == b.counts(f)
  {
    assert [b][..0] == [];
  }

  /** Rounding towards zero: the remainder is smaller than the divisor and has the sign of the sum. */
  lemma MeanCountTruncates(runs: Group, f: Counter)
    requires runs != []
    ensures var sum, avg := SumCounts(runs, f), MeanCount(runs, f);
            if sum >= 0 then avg * |runs| <= sum < avg * |runs| + |runs|
            else avg * |runs| - |runs| < sum <= avg * |runs|
  {
    TruncBounds(SumCounts(runs, f), |runs|);
  }

  lemma TruncBounds(a: int, n: int)
    requires n > 0
    ensures if a >= 0 then TruncDiv(a, n) * n <= a < TruncDiv(a, n) * n + n
            else TruncDiv(a, n) * n - n < a <= TruncDiv(a, n) * n
  {
    if a >= 0 {
      assert a == n * (a / n) + a % n;
    } else {
      assert -a == n * ((-a) / n) + (-a) % n;
      assert TruncDiv(a, n) * n == -(n * ((-a) / n));
    }
  }

  method AvgInt(runs: Group, f: Counter) returns (avg: int)
    requires runs != []
    ensures avg == MeanCount(runs, f)
    ensures var sum, n := SumCounts(runs, f), |runs|;
            if sum >= 0 then avg * n <= sum < avg * n + n else avg * n - n < sum <= avg * n
  {
    MeanCountTruncates(runs, f);
    var sum := 0;
    for i := 0 to |runs|
      invariant sum == SumCounts(runs[..i], f)
    {
      assert runs[..i + 1][..i] == runs[..i];
      sum := sum + runs[i].counts(f);
    }
    assert runs[..|runs|] == runs;
    avg := TruncDiv(sum, |runs|);
  }

  function Times(runs: Group): seq<real> {
    Stats.Values(runs, (b: Benchmark) => b.time)
  }

  method AvgDouble(runs: Group) returns (avg: real)
    requires runs != []
    ensures avg == Stats.Mean(Times(runs)) && avg * |runs| as real == Stats.Sum(Times(runs))
  {
    Stats.MeanTimesCount(Times(runs));
    var sum := 0.0;
    for i := 0 to |runs|
      invariant sum == Stats.Sum(Times(runs)[..i])
    {
      assert Times(runs)[..i + 1][..i] == Times(runs)[..i];
      sum := sum + runs[i].time;
    }
    assert Times(runs)[..|runs|] == Times(runs);
    avg := sum / |runs| as real;
  }

  /** The mean time a group is ordered by; an empty group counts as 0. */
  function MeanTime(runs: Group): real {
    if runs == [] then 0.0 else Stats.Mean(Times(runs))
  }

  /** The fields of the record, in the order in which they are averaged. */
  const FIELDS: seq<Counter> := [
    Cycles, Instructions, CacheMisses, TotalBranches, BranchMisses, TotalCycles, CpuTime, ContextSwitches, Migrations,
    L1Cache, L1tCache, LlCache, Access, Bpu, PageFaults, BusCycles, StalledFront, StalledBack, DtlbAccess, DtlbMiss,
    ItlbAccess, ItlbMiss, L1dMiss, L1tMiss, LlcacheMiss, L1dPrefetch, L1dPrefetchMiss, MinorFaults, MajorFaults,
    AlignmentFaults, EmulationFaults
  ]

  /** No field is forgotten. */
  lemma EveryFieldListed(f: Counter)
    ensures f in FIELDS
  {
  }

  method CollapseRuns(runs: Group) returns (out: Benchmark)
    ensures out.time == MeanTime(runs)
    ensures runs == [] ==> out.name == "" && forall f :: out.counts(f) == 0
    ensures runs != [] ==> out.name == runs[0].name && out.time * |runs| as real == Stats.Sum(Times(runs))
    ensures runs != [] ==> forall f :: out.counts(f) == MeanCount(runs, f)
    ensures runs != [] ==> forall f ::
              if SumCounts(runs, f) >= 0 then
                out.counts(f) * |runs| <= SumCounts(runs, f) < out.counts(f) * |runs| + |runs|
              else
                out.counts(f) * |runs| - |runs| < SumCounts(runs, f) <= out.counts(f) * |runs|
  {
    hide FIELDS, MeanCount, SumCounts;
    if |runs| == 0 {
      return Benchmark("", 0.0, f => 0);
    }
    var time := AvgDouble(runs);
    var counts: map<Counter, int> := map[];
    for n := 0 to |FIELDS|
      invariant forall i :: 0 <= i < n ==> FIELDS[i] in counts
      invariant forall f :: f in counts ==> counts[f] == MeanCount(runs, f)
    {
      var avg := AvgInt(runs, FIELDS[n]);
      counts := counts[FIELDS[n] := avg];
    }
    forall f: Counter
      ensures f in counts
    {
      EveryFieldListed(f);
    }
    out := Benchmark(runs[0].name, time, f => if f in counts then counts[f] else 0);
    forall f
      ensures if SumCounts(runs, f) >= 0 then
                out.counts(f) * |runs| <= SumCounts(runs, f) < out.counts(f) * |runs| + |runs|
              else
                out.counts(f) * |runs| - |runs| < SumCounts(runs, f) <= out.counts(f) * |runs|
    {
      MeanCountTruncates(runs, f);
    }
  }

  lemma {:induction false} SumCountsBetween(runs: Group, f: Counter, lo: int, hi: int)
    requires forall i :: 0 <= i < |runs| ==> lo <= runs[i].counts(f) <= hi
    ensures |runs| * lo <= SumCounts(runs, f) <= |runs| * hi
    decreases |runs|
  {
    if runs != [] {
      var before := runs[..|runs| - 1];
      SumCountsBetween(before, f, lo, hi);
      assert |runs| * lo == |before| * lo + lo;
      assert |runs| * hi == |before| * hi + hi;
    }
  }

  lemma TruncBetween(a: int, n: int, lo: int, hi: int)
    requires n > 0 && n * lo <= a <= n * hi
    ensures lo <= TruncDiv(a, n) <= hi
  {
    var q := TruncDiv(a, n);
    if a >= 0 {
      assert a == n * (a / n) + a % n;
      BelowIfProduct(lo, q, n);
      BelowIfProduct(q, hi, n);
    } else {
      assert -a == n * ((-a) / n) + (-a) % n;
      assert n * q == -(n * (-q));
      BelowIfProduct(lo, q, n);
      BelowIfProduct(q, hi, n);
    }
  }

  lemma BelowIfProduct(p: int, q: int, n: int)
    requires n > 0 && n * p < n * q + n
    ensures p <= q
  {
    if p > q {
      ProductGap(n, p, q);
    }
  }

  lemma ProductGap(n: int, p: int, q: int)
    requires n > 0 && p > q
    ensures n * p >= n * q + n
  {
    var d := p - q - 1;
    assert d * n >= 0;
    assert n * p == n * q + n + d * n;
  }

  /** A truncating average never leaves the range of the runs, also when counts are negative. */
  lemma MeanCountBetween(runs: Group, f: Counter, lo: int, hi: int)
    requires runs != []
    requires forall i :: 0 <= i < |runs| ==> lo <= runs[i].counts(f) <= hi
    ensures lo <= MeanCount(runs, f) <= hi
  {
    SumCountsBetween(runs, f, lo, hi);
    TruncBetween(SumCounts(runs, f), |runs|, lo, hi);
  }

  // ----- selection sort

  /** The first index of the least mean among s[i..n]. */
  function ArgMin(s: seq<Group>, i: nat, n: nat): (m: nat)
    requires i < n <= |s|
    ensures i <= m < n
    ensures forall k :: i <= k < n ==> MeanTime(s[m]) <= MeanTime(s[k])
    ensures forall k :: i <= k < m ==> MeanTime(s[m]) < MeanTime(s[k])
  {
    if n == i + 1 then i
    else
      var m := ArgMin(s, i, n - 1);
      if MeanTime(s[n - 1]) < MeanTime(s[m]) then n - 1 else m
  }

  function Swap(s: seq<Group>, i: nat, j: nat): (t: seq<Group>)
    requires i < |s| && j < |s|
    ensures |t| == |s| && t[i] == s[j] && t[j] == s[i]
    ensures forall k :: 0 <= k < |s| && k != i && k != j ==> t[k] == s[k]
    ensures multiset(t) == multiset(s)
  {
    s[i := s[j]][j := s[i]]
  }

  /** The rounds of sort_results from position i on. */
  function SortedFrom(s: seq<Group>, i: nat): (t: seq<Group>)
    ensures |t| == |s|
    decreases |s| - i
  {
    if i + 1 >= |s| then s else SortedFrom(Swap(s, i, ArgMin(s, i, |s|)), i + 1)
  }

  function SwapsFrom(s: seq<Group>, i: nat): nat
    decreases |s| - i
  {
    if i + 1 >= |s| then 0
    else
      var m := ArgMin(s, i, |s|);
      SwapsFrom(Swap(s, i, m), i + 1) + (if m != i then 1 else 0)
  }

  method LeastMeanFrom(v: array<Group>, i: nat) returns (mn: nat)
    requires i < v.Length
    ensures mn == ArgMin(v[..], i, v.Length)
  {
    mn := i;
    for j := i + 1 to v.Length
      invariant mn == ArgMin(v[..], i, j)
    {
      var a := CollapseRuns(v[j]);
      var b := CollapseRuns(v[mn]);
      if a.time < b.time { mn := j; }
    }
  }

  lemma NextRound(s: seq<Group>, i: nat, m: nat)
    requires i + 1 < |s| && m == ArgMin(s, i, |s|)
    ensures SortedFrom(s, i) == SortedFrom(Swap(s, i, m), i + 1)
    ensures SwapsFrom(s, i) == SwapsFrom(Swap(s, i, m), i + 1) + (if m != i then 1 else 0)
  {
    hide ArgMin, Swap, MeanTime;
  }

  lemma LastRound(s: seq<Group>, i: nat)
    requires i + 1 >= |s|
    ensures SortedFrom(s, i) == s && SwapsFrom(s, i) == 0
  {
  }

  method SortResults(v: array<Group>) returns (swaps: nat)
    modifies v
    ensures v[..] == SortedFrom(old(v[..]), 0)
    ensures swaps == SwapsFrom(old(v[..]), 0)
  {
    hide MeanTime, ArgMin, Swap, SortedFrom, SwapsFrom;
    swaps := 0;
    var i := 0;
    while i + 1 < v.Length
      invariant 0 <= i
      invariant SortedFrom(v[..], i) == SortedFrom(old(v[..]), 0)
      invariant swaps + SwapsFrom(v[..], i) == SwapsFrom(old(v[..]), 0)
    {
      var mn := LeastMeanFrom(v, i);
      NextRound(v[..], i, mn);
      if mn != i {
        Exchange(v, i, mn);
        swaps := swaps + 1;
      } else {
        SwapSelf(v[..], i);
      }
      i := i + 1;
    }
    LastRound(v[..], i);
  }

  method Exchange(v: array<Group>, i: nat, j: nat)
    requires i < v.Length && j < v.Length
    modifies v
    ensures v[..] == Swap(old(v[..]), i, j)
  {
    v[i], v[j] := v[j], v[i];
  }

  lemma SwapSelf(s: seq<Group>, i: nat)
    requires i < |s|
    ensures Swap(s, i, i) == s
  {
  }

  // ----- what the rounds achieve

  /** Positions below i are final: they are in order and bound everything from i on. */
  predicate PrefixDone(s: seq<Group>, i: nat) {
    forall p, q :: 0 <= p < i && p <= q < |s| ==> MeanTime(s[p]) <= MeanTime(s[q])
  }

  predicate Ordered(s: seq<Group>) {
    forall p, q :: 0 <= p <= q < |s| ==> MeanTime(s[p]) <= MeanTime(s[q])
  }

  lemma RoundKeepsPrefix(s: seq<Group>, i: nat)
    requires PrefixDone(s, i) && i < |s|
    ensures PrefixDone(Swap(s, i, ArgMin(s, i, |s|)), i + 1)
  {
    hide MeanTime;
    var m := ArgMin(s, i, |s|);
    var t := Swap(s, i, m);
    forall p, q | 0 <= p < i + 1 && p <= q < |t|
      ensures MeanTime(t[p]) <= MeanTime(t[q])
    {
      var r := if q == i then m else if q == m then i else q;
      assert t[q] == s[r];
      if p < i {
        assert MeanTime(s[p]) <= MeanTime(s[r]);
      }
    }
  }

  lemma {:induction false} RoundsOrder(s: seq<Group>, i: nat)
    requires PrefixDone(s, i)
    ensures Ordered(SortedFrom(s, i))
    decreases |s| - i
  {
    hide MeanTime, ArgMin, Swap, SortedFrom;
    if i + 1 < |s| {
      var m := ArgMin(s, i, |s|);
      RoundKeepsPrefix(s, i);
      NextRound(s, i, m);
      RoundsOrder(Swap(s, i, m), i + 1);
    } else {
      LastRound(s, i);
    }
  }

  lemma {:induction false} RoundsPermute(s: seq<Group>, i: nat)
    ensures multiset(SortedFrom(s, i)) == multiset(s)
    ensures SwapsFrom(s, i) <= if i < |s| then |s| - 1 - i else 0
    decreases |s| - i
  {
    hide MeanTime, ArgMin, SortedFrom, SwapsFrom, Swap;
    if i + 1 < |s| {
      var m := ArgMin(s, i, |s|);
      NextRound(s, i, m);
      RoundsPermute(Swap(s, i, m), i + 1);
    } else {
      LastRound(s, i);
    }
  }

  /** The groups come out whole, once each, in order of non-decreasing mean time, after at most n - 1 swaps. */
  lemma SortIsCorrect(s: seq<Group>)
    ensures Ordered(SortedFrom(s, 0))
    ensures multiset(SortedFrom(s, 0)) == multiset(s)
    ensures s != [] ==> SwapsFrom(s, 0) <= |s| - 1
  {
    RoundsOrder(s, 0);
    RoundsPermute(s, 0);
  }

  /** Groups already in order stay where they are, ties included. */
  lemma {:induction false} SortedInputUntouched(s: seq<Group>, i: nat)
    requires Ordered(s)
    ensures SortedFrom(s, i) == s && SwapsFrom(s, i) == 0
    decreases |s| - i
  {
    hide MeanTime, ArgMin, Swap;
    if i + 1 < |s| {
      assert MeanTime(s[i]) <= MeanTime(s[ArgMin(s, i, |s|)]);
      SwapSelf(s, i);
      SortedInputUntouched(s, i + 1);
    }
  }

  /** A sort that counts no swap has changed nothing. */
  lemma {:induction false} NoSwapNoChange(s: seq<Group>, i: nat)
    requires SwapsFrom(s, i) == 0
    ensures SortedFrom(s, i) == s
    decreases |s| - i
  {
    hide MeanTime, ArgMin, Swap;
    if i + 1 < |s| {
      SwapSelf(s, i);
      NoSwapNoChange(s, i + 1);
    }
  }

  // ----- ties

  /** The groups of mean time x, in the order in which they stand. */
  function WithMean(s: seq<Group>, x: real): seq<Group> {
    if s == [] then []
    else WithMean(s[..|s| - 1], x) + (if MeanTime(s[|s| - 1]) == x then [s[|s| - 1]] else [])
  }

  lemma {:induction false} WithMeanConcat(a: seq<Group>, b: seq<Group>, x: real)
    ensures WithMean(a + b, x) == WithMean(a, x) + WithMean(b, x)
    decreases |b|
  {
    hide MeanTime;
    if b == [] {
      assert a + b == a;
    } else {
      var c, g := b[..|b| - 1], b[|b| - 1];
      WithMeanConcat(a, c, x);
      var last := if MeanTime(g) == x then [g] else [];
      assert (a + b)[..|a + b| - 1] == a + c && (a + b)[|a + b| - 1] == g;
      assert WithMean(a + b, x) == WithMean(a + c, x) + last;
      assert WithMean(b, x) == WithMean(c, x) + last;
    }
  }

  lemma {:induction false} NoneWithMean(s: seq<Group>, x: real)
    requires forall i :: 0 <= i < |s| ==> MeanTime(s[i]) != x
    ensures WithMean(s, x) == []
    decreases |s|
  {
    hide MeanTime;
    if s != [] {
      NoneWithMean(s[..|s| - 1], x);
    }
  }

  lemma WithMeanParts(p: seq<Group>, a: Group, mid: seq<Group>, b: Group, q: seq<Group>, x: real)
    ensures WithMean(p + [a] + mid + [b] + q, x)
         == WithMean(p, x) + WithMean([a], x) + WithMean(mid, x) + WithMean([b], x) + WithMean(q, x)
  {
    hide WithMean;
    WithMeanConcat(p + [a] + mid + [b], q, x);
    WithMeanConcat(p + [a] + mid, [b], x);
    WithMeanConcat(p + [a], mid, x);
    WithMeanConcat(p, [a], x);
  }

  lemma WithMeanOne(a: Group, x: real)
    ensures WithMean([a], x) == if MeanTime(a) == x then [a] else []
  {
    hide MeanTime;
    assert WithMean([a][..0], x) == [];
  }

  /** Exchanging two groups keeps the groups of mean x in order if neither passes another one of mean x. */
  lemma ExchangeKeepsTies(p: seq<Group>, a: Group, mid: seq<Group>, b: Group, q: seq<Group>, x: real)
    requires MeanTime(a) != MeanTime(b)
    requires x == MeanTime(a) || x == MeanTime(b) ==> forall k :: 0 <= k < |mid| ==> MeanTime(mid[k]) != x
    ensures WithMean(p + [a] + mid + [b] + q, x) == WithMean(p + [b] + mid + [a] + q, x)
  {
    hide WithMean, MeanTime;
    WithMeanParts(p, a, mid, b, q, x);
    WithMeanParts(p, b, mid, a, q, x);
    WithMeanOne(a, x);
    WithMeanOne(b, x);
    if x == MeanTime(a) || x == MeanTime(b) {
      NoneWithMean(mid, x);
    }
  }

  lemma SwapKeepsTies(s: seq<Group>, i: nat, m: nat, x: real)
    requires i < m < |s| && MeanTime(s[m]) != MeanTime(s[i])
    requires x == MeanTime(s[i]) || x == MeanTime(s[m]) ==> forall k :: i < k < m ==> MeanTime(s[k]) != x
    ensures WithMean(Swap(s, i, m), x) == WithMean(s, x)
  {
    hide WithMean, MeanTime;
    var p, mid, q := s[..i], s[i + 1..m], s[m + 1..];
    assert s == p + [s[i]] + mid + [s[m]] + q;
    assert Swap(s, i, m) == p + [s[m]] + mid + [s[i]] + q;
    ExchangeKeepsTies(p, s[i], mid, s[m], q, x);
  }

  /** From position i on, no two groups of mean x are followed by one of smaller mean. */
  predicate TiesAreSettled(s: seq<Group>, i: nat, x: real) {
    forall p, q, r :: i <= p < q < r < |s| && MeanTime(s[p]) == x && MeanTime(s[q]) == x ==> x <= MeanTime(s[r])
  }

  lemma RoundKeepsSettled(s: seq<Group>, i: nat, x: real)
    requires TiesAreSettled(s, i, x) && i < |s|
    ensures TiesAreSettled(Swap(s, i, ArgMin(s, i, |s|)), i + 1, x)
  {
    hide MeanTime;
    var m := ArgMin(s, i, |s|);
    var t := Swap(s, i, m);
    forall p, q, r | i + 1 <= p < q < r < |t| && MeanTime(t[p]) == x && MeanTime(t[q]) == x
      ensures x <= MeanTime(t[r])
    {
      if p == m {
        assert MeanTime(s[i]) == x && MeanTime(s[q]) == x ==> x <= MeanTime(s[r]);
      } else if q != m {
        assert MeanTime(s[p]) == x && MeanTime(s[q]) == x ==> x <= MeanTime(s[r]);
      }
    }
  }

  lemma RoundKeepsTies(s: seq<Group>, i: nat, x: real)
    requires TiesAreSettled(s, i, x) && i < |s|
    ensures WithMean(Swap(s, i, ArgMin(s, i, |s|)), x) == WithMean(s, x)
  {
    hide MeanTime, WithMean;
    var m := ArgMin(s, i, |s|);
    if m == i {
      SwapSelf(s, i);
    } else {
      assert MeanTime(s[m]) < MeanTime(s[i]);
      SwapKeepsTies(s, i, m, x);
    }
  }

  lemma {:induction false} RoundsKeepTies(s: seq<Group>, i: nat, x: real)
    requires TiesAreSettled(s, i, x)
    ensures WithMean(SortedFrom(s, i), x) == WithMean(s, x)
    decreases |s| - i
  {
    hide MeanTime, ArgMin, Swap, SortedFrom, WithMean, TiesAreSettled;
    if i + 1 < |s| {
      var m := ArgMin(s, i, |s|);
      NextRound(s, i, m);
      RoundKeepsSettled(s, i, x);
      RoundKeepsTies(s, i, x);
      RoundsKeepTies(Swap(s, i, m), i + 1, x);
    } else {
      LastRound(s, i);
    }
  }

  /** Groups of mean x keep their order if no two of them are followed by a smaller one. */
  lemma SortIsStable(s: seq<Group>, x: real)
    requires TiesAreSettled(s, 0, x)
    ensures WithMean(SortedFrom(s, 0), x) == WithMean(s, x)
  {
    RoundsKeepTies(s, 0, x);
  }

  // ----- exactly which groups are sorted stably, in whatever order they are given

  /** The groups of s keep their order among equals, however they are arranged at first. */
  ghost predicate StableInEveryOrder(s: seq<Group>) {
    forall t: seq<Group>, x: real :: multiset(t) == multiset(s) ==> WithMean(SortedFrom(t, 0), x) == WithMean(t, x)
  }

  /** Groups that differ but have equal means have the least mean. */
  ghost predicate OnlyLeastTies(s: seq<Group>) {
    forall p, q, r :: 0 <= p < q < |s| && 0 <= r < |s| && s[p] != s[q] && MeanTime(s[p]) == MeanTime(s[q]) ==>
      MeanTime(s[p]) <= MeanTime(s[r])
  }

  ghost predicate AllSame(s: seq<Group>) {
    forall k :: 0 <= k < |s| ==> s[k] == s[0]
  }

  /** Selecting a mean commutes with forgetting the order. */
  lemma {:induction false} WithMeanCounts(s: seq<Group>, x: real, g: Group)
    ensures multiset(WithMean(s, x))[g] == if MeanTime(g) == x then multiset(s)[g] else 0
    decreases |s|
  {
    hide MeanTime;
    if s != [] {
      var before, last := s[..|s| - 1], s[|s| - 1];
      WithMeanCounts(before, x, g);
      assert s == before + [last];
    }
  }

  lemma WithMeanMultiset(s: seq<Group>, t: seq<Group>, x: real)
    requires multiset(s) == multiset(t)
    ensures multiset(WithMean(s, x)) == multiset(WithMean(t, x))
  {
    hide MeanTime, WithMean;
    forall g: Group
      ensures multiset(WithMean(s, x))[g] == multiset(WithMean(t, x))[g]
    {
      WithMeanCounts(s, x, g);
      WithMeanCounts(t, x, g);
    }
  }

  /** Two arrangements of copies of one group are the same. */
  lemma SameArrangement(s: seq<Group>, t: seq<Group>)
    requires multiset(s) == multiset(t) && AllSame(s)
    ensures s == t
  {
    assert |s| == |multiset(s)| == |multiset(t)| == |t|;
    forall k | 0 <= k < |t|
      ensures t[k] == s[0]
    {
      assert t[k] in multiset(s);
    }
  }

  /** Two different groups of mean x, one before the other. */
  ghost predicate Different(s: seq<Group>, x: real) {
    exists p, q :: 0 <= p < q < |s| && s[p] != s[q] && MeanTime(s[p]) == x && MeanTime(s[q]) == x
  }

  lemma {:induction false} SelectedAreSame(s: seq<Group>, x: real)
    requires !Different(s, x)
    ensures AllSame(WithMean(s, x))
    ensures forall k :: 0 <= k < |WithMean(s, x)| ==> MeanTime(WithMean(s, x)[k]) == x && WithMean(s, x)[k] in s
    decreases |s|
  {
    hide MeanTime;
    if s != [] {
      var before, g := s[..|s| - 1], s[|s| - 1];
      assert forall p :: 0 <= p < |before| ==> before[p] == s[p];
      SelectedAreSame(before, x);
      var w := WithMean(before, x);
      if w != [] && MeanTime(g) == x {
        var p :| 0 <= p < |before| && before[p] == w[0];
        assert s[p] == w[0] && s[|s| - 1] == g;
      }
    }
  }

  /** If there are two different groups of mean x, wherever they stand, x is the least mean. */
  lemma LeastMean(s: seq<Group>, t: seq<Group>, x: real, r: nat)
    requires OnlyLeastTies(s) && multiset(s) == multiset(t) && Different(t, x) && r < |t|
    ensures x <= MeanTime(t[r])
  {
    hide MeanTime;
    var p, q :| 0 <= p < q < |t| && t[p] != t[q] && MeanTime(t[p]) == x && MeanTime(t[q]) == x;
    var i := Place(t, p, s);
    var j := Place(t, q, s);
    var k := Place(t, r, s);
    assert if i < j then s[i] != s[j] else s[j] != s[i];
  }

  lemma Place(t: seq<Group>, p: nat, s: seq<Group>) returns (i: nat)
    requires multiset(s) == multiset(t) && p < |t|
    ensures i < |s| && s[i] == t[p]
  {
    assert t[p] in multiset(s);
    i :| 0 <= i < |s| && s[i] == t[p];
  }

  lemma StableIfOnlyLeastTies(s: seq<Group>, t: seq<Group>, x: real)
    requires OnlyLeastTies(s) && multiset(t) == multiset(s)
    ensures WithMean(SortedFrom(t, 0), x) == WithMean(t, x)
  {
    hide MeanTime, WithMean, SortedFrom, Different, OnlyLeastTies;
    if Different(t, x) {
      forall r | 0 <= r < |t|
        ensures x <= MeanTime(t[r])
      {
        LeastMean(s, t, x, r);
      }
      SortIsStable(t, x);
    } else {
      SelectedAreSame(t, x);
      RoundsPermute(t, 0);
      WithMeanMultiset(t, SortedFrom(t, 0), x);
      SameArrangement(WithMean(t, x), WithMean(SortedFrom(t, 0), x));
    }
  }

  // the other direction: a sorted sequence around the groups of mean x, and an arrangement that disturbs them

  /** In sorted order the groups of mean x stand together, after the smaller and before the larger ones. */
  lemma Block(u: seq<Group>, x: real) returns (lo: nat, hi: nat)
    requires Ordered(u)
    ensures lo <= hi <= |u|
    ensures forall k :: 0 <= k < lo ==> MeanTime(u[k]) < x
    ensures forall k :: lo <= k < hi ==> MeanTime(u[k]) == x
    ensures forall k :: hi <= k < |u| ==> MeanTime(u[k]) > x
  {
    hide MeanTime;
    lo := 0;
    while lo < |u| && MeanTime(u[lo]) < x
      invariant lo <= |u| && forall k :: 0 <= k < lo ==> MeanTime(u[k]) < x
    {
      lo := lo + 1;
    }
    hi := lo;
    while hi < |u| && MeanTime(u[hi]) == x
      invariant lo <= hi <= |u| && forall k :: lo <= k < hi ==> MeanTime(u[k]) == x
    {
      hi := hi + 1;
    }
  }

  lemma PrefixRound(t: seq<Group>, i: nat, n: nat)
    requires PrefixDone(t, n) && i < n < |t|
    ensures ArgMin(t, i, |t|) == i
  {
    hide MeanTime, ArgMin;
    assert MeanTime(t[i]) <= MeanTime(t[ArgMin(t, i, |t|)]);
  }

  /** Rounds over a finished prefix change nothing. */
  lemma {:induction false} SkipPrefix(t: seq<Group>, i: nat, n: nat)
    requires PrefixDone(t, n) && i <= n < |t|
    ensures SortedFrom(t, i) == SortedFrom(t, n)
    decreases n - i
  {
    hide PrefixDone, MeanTime, ArgMin, Swap, SortedFrom;
    if i < n {
      PrefixRound(t, i, n);
      NextRound(t, i, i);
      SwapSelf(t, i);
      SkipPrefix(t, i + 1, n);
    }
  }

  /** u with the last group c of a block moved in front of the block, and the group y before it moved behind. */
  function Disturbed(p: seq<Group>, y: Group, block: seq<Group>, q: seq<Group>): seq<Group>
    requires block != []
  {
    p + [block[|block| - 1]] + block[..|block| - 1] + [y] + q
  }

  lemma DisturbedSorts(p: seq<Group>, y: Group, block: seq<Group>, q: seq<Group>, x: real)
    requires block != [] && Ordered(p + [y] + block + q) && MeanTime(y) < x
    requires forall k :: 0 <= k < |block| ==> MeanTime(block[k]) == x
    ensures SortedFrom(Disturbed(p, y, block, q), 0) == p + [y] + block + q
  {
    hide MeanTime, ArgMin, SortedFrom, SwapsFrom, Swap, PrefixDone, Ordered;
    var t, u, n, m := Disturbed(p, y, block, q), p + [y] + block + q, |p|, |p| + |block|;
    DisturbedSwap(p, y, block, q);
    DisturbedPrefix(p, y, block, q, x);
    SkipPrefix(t, 0, n);
    YIsLeast(p, y, block, q, x);
    NextRound(t, n, m);
    SortedInputUntouched(u, n + 1);
  }

  lemma DisturbedSwap(p: seq<Group>, y: Group, block: seq<Group>, q: seq<Group>)
    requires block != []
    ensures var t := Disturbed(p, y, block, q);
            |t| == |p| + |block| + 1 + |q| && Swap(t, |p|, |p| + |block|) == p + [y] + block + q
  {
    assert block == block[..|block| - 1] + [block[|block| - 1]];
  }

  lemma DisturbedPrefix(p: seq<Group>, y: Group, block: seq<Group>, q: seq<Group>, x: real)
    requires block != [] && Ordered(p + [y] + block + q)
    ensures PrefixDone(Disturbed(p, y, block, q), |p|)
  {
    hide MeanTime;
    var t, u, n := Disturbed(p, y, block, q), p + [y] + block + q, |p|;
    forall i, j | 0 <= i < n && i <= j < |t|
      ensures MeanTime(t[i]) <= MeanTime(t[j])
    {
      // where t[j] stands in u
      var k := if j == n then n + |block| else if j == n + |block| then n else j;
      assert t[j] == u[k] && t[i] == u[i];
    }
  }

  lemma YIsLeast(p: seq<Group>, y: Group, block: seq<Group>, q: seq<Group>, x: real)
    requires block != [] && Ordered(p + [y] + block + q) && MeanTime(y) < x
    requires forall k :: 0 <= k < |block| ==> MeanTime(block[k]) == x
    ensures var t := Disturbed(p, y, block, q); ArgMin(t, |p|, |t|) == |p| + |block|
  {
    hide MeanTime, ArgMin;
    var t, u, n, m := Disturbed(p, y, block, q), p + [y] + block + q, |p|, |p| + |block|;
    assert t[m] == y == u[n];
    forall k | n <= k < |t| && k != m
      ensures if k < m then MeanTime(t[k]) > MeanTime(y) else MeanTime(t[k]) >= MeanTime(y)
    {
      if k == n {
        assert t[k] == block[|block| - 1];
      } else if k < m {
        assert t[k] == block[k - n - 1];
      } else {
        assert t[k] == u[k];
      }
    }
  }

  /** Moving the last of several groups to the front changes their order, unless they are all the same. */
  lemma RotationFixes(c: seq<Group>)
    requires c != [] && [c[|c| - 1]] + c[..|c| - 1] == c
    ensures AllSame(c)
  {
    var d := [c[|c| - 1]] + c[..|c| - 1];
    var k := 1;
    while k < |c|
      invariant 1 <= k <= |c| && forall i :: 0 <= i < k ==> c[i] == c[0]
    {
      assert d[k] == c[k - 1];
      k := k + 1;
    }
  }

  lemma {:induction false} AllWithMean(s: seq<Group>, x: real)
    requires forall i :: 0 <= i < |s| ==> MeanTime(s[i]) == x
    ensures WithMean(s, x) == s
    decreases |s|
  {
    hide MeanTime;
    if s != [] {
      AllWithMean(s[..|s| - 1], x);
      assert s == s[..|s| - 1] + [s[|s| - 1]];
    }
  }

  /** The disturbed arrangement of a block of groups that are not all the same is not sorted stably. */
  lemma DisturbedIsUnstable(p: seq<Group>, y: Group, block: seq<Group>, q: seq<Group>, x: real)
    requires !AllSame(block) && Ordered(p + [y] + block + q) && MeanTime(y) < x
    requires forall k :: 0 <= k < |block| ==> MeanTime(block[k]) == x
    requires forall k :: 0 <= k < |p| ==> MeanTime(p[k]) != x
    requires forall k :: 0 <= k < |q| ==> MeanTime(q[k]) != x
    ensures var t := Disturbed(p, y, block, q); WithMean(SortedFrom(t, 0), x) != WithMean(t, x)
  {
    hide MeanTime, WithMean, SortedFrom, Ordered, AllSame;
    NotSameNotEmpty(block);
    var front, c := block[..|block| - 1], block[|block| - 1];
    DisturbedSorts(p, y, block, q, x);
    BlockOf(p, c, front, y, q, x);
    BlockOf(p, y, front, c, q, x);
    WithMeanOne(y, x);
    WithMeanOne(c, x);
    assert front + [c] == block;
    assert p + [y] + block + q == p + [y] + front + [c] + q;
    assert Disturbed(p, y, block, q) == p + [c] + front + [y] + q;
    assert [c] + front + [] == [c] + front && [] + front + [c] == block;
    if [c] + front == block {
      RotationFixes(block);
    }
  }

  lemma BlockOf(p: seq<Group>, a: Group, mid: seq<Group>, b: Group, q: seq<Group>, x: real)
    requires forall k :: 0 <= k < |mid| ==> MeanTime(mid[k]) == x
    requires forall k :: 0 <= k < |p| ==> MeanTime(p[k]) != x
    requires forall k :: 0 <= k < |q| ==> MeanTime(q[k]) != x
    ensures WithMean(p + [a] + mid + [b] + q, x) == WithMean([a], x) + mid + WithMean([b], x)
  {
    hide MeanTime, WithMean;
    AllWithMean(mid, x);
    NoneWithMean(p, x);
    NoneWithMean(q, x);
    WithMeanParts(p, a, mid, b, q, x);
    DropEmpty(WithMean([a], x), mid, WithMean([b], x));
  }

  lemma DropEmpty(a: seq<Group>, b: seq<Group>, c: seq<Group>)
    ensures [] + a + b + c + [] == a + b + c
  {
  }

  /** The parts of a sorted sequence that contains different groups of mean x and a smaller one. */
  lemma Parts(u: seq<Group>, x: real, i: nat, j: nat, k: nat)
    returns (p: seq<Group>, y: Group, block: seq<Group>, q: seq<Group>)
    requires Ordered(u) && i < |u| && j < |u| && k < |u| && u[i] != u[j]
    requires MeanTime(u[i]) == x && MeanTime(u[j]) == x && MeanTime(u[k]) < x
    ensures u == p + [y] + block + q && MeanTime(y) < x && !AllSame(block)
    ensures forall n :: 0 <= n < |block| ==> MeanTime(block[n]) == x
    ensures forall n :: 0 <= n < |p| ==> MeanTime(p[n]) != x
    ensures forall n :: 0 <= n < |q| ==> MeanTime(q[n]) != x
  {
    hide MeanTime, Ordered;
    var lo, hi := Block(u, x);
    p, y, block, q := u[..lo - 1], u[lo - 1], u[lo..hi], u[hi..];
    assert block[i - lo] == u[i] && block[j - lo] == u[j];
  }

  lemma UnstableOrder(s: seq<Group>, p: nat, q: nat, r: nat) returns (t: seq<Group>)
    requires p < q < |s| && r < |s| && s[p] != s[q]
    requires MeanTime(s[p]) == MeanTime(s[q]) > MeanTime(s[r])
    ensures multiset(t) == multiset(s) && WithMean(SortedFrom(t, 0), MeanTime(s[p])) != WithMean(t, MeanTime(s[p]))
  {
    hide MeanTime, WithMean, SortedFrom, SwapsFrom, Disturbed, Ordered, AllSame;
    var u, x := SortedFrom(s, 0), MeanTime(s[p]);
    SortIsCorrect(s);
    var i := Place(s, p, u);
    var j := Place(s, q, u);
    var k := Place(s, r, u);
    var before, y, block, after := Parts(u, x, i, j, k);
    NotSameNotEmpty(block);
    t := Disturbed(before, y, block, after);
    DisturbedMultiset(before, y, block, after);
    DisturbedIsUnstable(before, y, block, after, x);
  }

  lemma NotSameNotEmpty(s: seq<Group>)
    requires !AllSame(s)
    ensures s != []
  {
  }

  lemma DisturbedMultiset(p: seq<Group>, y: Group, block: seq<Group>, q: seq<Group>)
    requires block != []
    ensures multiset(Disturbed(p, y, block, q)) == multiset(p + [y] + block + q)
  {
    assert block == block[..|block| - 1] + [block[|block| - 1]];
  }

  /**
   The exact condition: whatever order the groups are given in, equals keep their order, if and only if
   different groups of equal mean occur at the least mean only.
   */
  lemma StableInEveryOrderIff(s: seq<Group>)
    ensures StableInEveryOrder(s) <==> OnlyLeastTies(s)
  {
    hide MeanTime, WithMean, SortedFrom;
    if OnlyLeastTies(s) {
      forall t: seq<Group>, x: real | multiset(t) == multiset(s)
        ensures WithMean(SortedFrom(t, 0), x) == WithMean(t, x)
      {
        StableIfOnlyLeastTies(s, t, x);
      }
    } else {
      var p, q, r :| 0 <= p < q < |s| && 0 <= r < |s| && s[p] != s[q]
                     && MeanTime(s[p]) == MeanTime(s[q]) && !(MeanTime(s[p]) <= MeanTime(s[r]));
      var t := UnstableOrder(s, p, q, r);
    }
  }

  /** For instance: the swap of a later minimum carries a group past its equal. */
  lemma SortIsNotStable(a: Group, b: Group, c: Group)
    requires MeanTime(c) < MeanTime(a) == MeanTime(b)
    ensures SortedFrom([a, b, c], 0) == [c, b, a]
  {
    hide MeanTime, ArgMin, Swap;
    var s, t := [a, b, c], [c, b, a];
    assert MeanTime(s[2]) < MeanTime(s[0]) == MeanTime(s[1]);
    assert ArgMin(s, 0, 3) == 2;
    assert Swap(s, 0, 2) == t;
    assert MeanTime(t[1]) == MeanTime(t[2]);
    assert ArgMin(t, 1, 3) == 1;
    SwapSelf(t, 1);
    assert SortedFrom(t, 2) == t;
  }

  lemma MeanOfOne(b: Benchmark)
    ensures MeanTime([b]) == b.time
  {
    Stats.MeanOfOne(Times([b]));
  }

  /** Two binaries of mean time 2 and one of mean time 1: the first two change places. */
  lemma TiesChangePlaces() returns (s: seq<Group>)
    ensures |s| == 3 && SortedFrom(s, 0) == [s[2], s[1], s[0]] && s[0] != s[1]
    ensures MeanTime(s[0]) == MeanTime(s[1]) == 2.0 && MeanTime(s[2]) == 1.0
  {
    hide MeanTime, SortedFrom;
    var a, b, c := Benchmark("a", 2.0, f => 0), Benchmark("b", 2.0, f => 0), Benchmark("c", 1.0, f => 0);
    MeanOfOne(a);
    MeanOfOne(b);
    MeanOfOne(c);
    s := [[a], [b], [c]];
    assert s[0][0].name != s[1][0].name;
    SortIsNotStable([a], [b], [c]);
  }
}
