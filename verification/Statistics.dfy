/**
 compute_stats: minimum, maximum, mean and sample deviation of one field over the runs,
 the deviation by a two-pass variance and the twelve-step root of module Newton.
 */
module Statistics {
  import opened Powers
  import Newton

  datatype Stats = Stats(mean: real, stddev: real, mn: real, mx: real)

  // ----- specification over the field's values

  function Values<T>(runs: seq<T>, field: T -> real): (v: seq<real>)
    ensures |v| == |runs| && forall i :: 0 <= i < |v| ==> v[i] == field(runs[i])
  {
    seq(|runs|, i requires 0 <= i < |runs| => field(runs[i]))
  }

  /** The sum of g over v. */
  function SumOf(v: seq<real>, g: real -> real): real {
    if v == [] then 0.0 else SumOf(v[..|v| - 1], g) + g(v[|v| - 1])
  }

  function Sum(v: seq<real>): real {
    SumOf(v, x => x)
  }

  function SumSquares(v: seq<real>): real {
    SumOf(v, x => x * x)
  }

  function SquaredDeviations(v: seq<real>, m: real): real {
    SumOf(v, x => (x - m) * (x - m))
  }

  function Mean(v: seq<real>): real
    requires v != []
  {
    Sum(v) / |v| as real
  }

  function Variance(v: seq<real>): real
    requires |v| > 1
  {
    SquaredDeviations(v, Mean(v)) / (|v| - 1) as real
  }

  function Min(v: seq<real>): (m: real)
    requires v != []
    ensures m in v && forall x :: x in v ==> m <= x
  {
    if |v| == 1 then v[0]
    else
      var w, x := v[..|v| - 1], v[|v| - 1];
      assert v == w + [x];
      if x < Min(w) then x else Min(w)
  }

  function Max(v: seq<real>): (m: real)
    requires v != []
    ensures m in v && forall x :: x in v ==> x <= m
  {
    if |v| == 1 then v[0]
    else
      var w, x := v[..|v| - 1], v[|v| - 1];
      assert v == w + [x];
      if x > Max(w) then x else Max(w)
  }

  function Deviation(v: seq<real>): real
    requires v != []
  {
    if |v| == 1 then 0.0
    else var x := Variance(v); if x > 0.0 then Newton.Iterate(x, x, Newton.STEPS) else x
  }

  function StatsOf(v: seq<real>): Stats {
    if v == [] then Stats(0.0, 0.0, 0.0, 0.0) else Stats(Mean(v), Deviation(v), Min(v), Max(v))
  }

  // ----- what the four numbers are

  /** What the four numbers are, told without the code: s reports on the values v. */
  predicate Describes(s: Stats, v: seq<real>) {
    && (v == [] ==> s == Stats(0.0, 0.0, 0.0, 0.0))
    && (v != [] ==>
          && s.mn in v && s.mx in v && (forall x :: x in v ==> s.mn <= x <= s.mx)
          && s.mn <= s.mean <= s.mx && s.mean * |v| as real == Sum(v) && s.stddev == Deviation(v))
    && (|v| == 1 ==> s.stddev == 0.0)
    && (|v| > 1 ==> s.stddev >= 0.0 && (s.stddev == 0.0 <==> s.mn == s.mx))
  }

  lemma StatsDescribe(v: seq<real>)
    ensures Describes(StatsOf(v), v)
  {
    hide Newton.Iterate, Variance, Mean, Min, Max, Sum;
    if v != [] {
      MeanTimesCount(v);
      MeanBetweenExtremes(v);
      if |v| > 1 {
        DeviationZeroIffEqual(v);
        EqualIffExtremesMeet(v);
      }
    }
  }

  lemma EqualIffExtremesMeet(v: seq<real>)
    requires v != []
    ensures Min(v) == Max(v) <==> forall i, j :: 0 <= i < j < |v| ==> v[i] == v[j]
  {
    hide Min, Max;
    if Min(v) == Max(v) {
      forall i, j | 0 <= i < j < |v|
        ensures v[i] == v[j]
      {
        assert v[i] in v && v[j] in v;
      }
    } else {
      assert Min(v) in v && Max(v) in v;
    }
  }

  // ----- the two loops

  method ComputeStats<T>(runs: seq<T>, field: T -> real) returns (s: Stats)
    ensures s == StatsOf(Values(runs, field)) && Describes(s, Values(runs, field))
  {
    hide Newton.Iterate, Describes;
    StatsDescribe(Values(runs, field));
    if |runs| == 0 {
      return Stats(0.0, 0.0, 0.0, 0.0);
    }
    var sum, mn, mx := SumAndExtremes(runs, field);
    var mean := sum / |runs| as real;
    var stddev := 0.0;
    if |runs| > 1 {
      var sq := SumSquaredDeviations(runs, field, mean);
      stddev := sq / (|runs| - 1) as real;
      var x := if stddev > 0.0 then stddev else 0.0;
      if x > 0.0 {
        stddev := Newton.Root(x);
      }
    }
    s := Stats(mean, stddev, mn, mx);
  }

  method SumAndExtremes<T>(runs: seq<T>, field: T -> real) returns (sum: real, mn: real, mx: real)
    requires runs != []
    ensures sum == Sum(Values(runs, field))
    ensures mn == Min(Values(runs, field)) && mx == Max(Values(runs, field))
  {
    ghost var v := Values(runs, field);
    sum := 0.0;
    mn := field(runs[0]);
    mx := mn;
    for i := 0 to |runs|
      invariant sum == Sum(v[..i])
      invariant i == 0 ==> mn == mx == v[0]
      invariant i > 0 ==> mn == Min(v[..i]) && mx == Max(v[..i])
    {
      var x := field(runs[i]);
      assert v[..i + 1][..i] == v[..i];
      sum := sum + x;
      if x < mn { mn := x; }
      if x > mx { mx := x; }
    }
    assert v[..|runs|] == v;
  }

  method SumSquaredDeviations<T>(runs: seq<T>, field: T -> real, mean: real) returns (sq: real)
    ensures sq == SquaredDeviations(Values(runs, field), mean)
  {
    ghost var v := Values(runs, field);
    sq := 0.0;
    for i := 0 to |runs|
      invariant sq == SquaredDeviations(v[..i], mean)
    {
      assert v[..i + 1][..i] == v[..i];
      var d := field(runs[i]) - mean;
      sq := sq + d * d;
    }
    assert v[..|runs|] == v;
  }

  // ----- the mean lies between the extremes

  predicate Within(v: seq<real>, lo: real, hi: real) {
    forall i :: 0 <= i < |v| ==> lo <= v[i] <= hi
  }

  lemma ExtremesEnclose(v: seq<real>)
    requires v != []
    ensures Within(v, Min(v), Max(v))
  {
    forall i | 0 <= i < |v|
      ensures Min(v) <= v[i] <= Max(v)
    {
      assert v[i] in v;
    }
  }

  lemma {:induction false} SumBetween(v: seq<real>, lo: real, hi: real)
    requires Within(v, lo, hi)
    ensures |v| as real * lo <= Sum(v) <= |v| as real * hi
  {
    if v != [] {
      var w, x := v[..|v| - 1], v[|v| - 1];
      SumBetween(w, lo, hi);
      assert |v| as real * lo == |w| as real * lo + lo;
      assert |v| as real * hi == |w| as real * hi + hi;
      assert lo <= x <= hi;
    }
  }

  lemma MeanTimesCount(v: seq<real>)
    requires v != []
    ensures Mean(v) * |v| as real == Sum(v)
  {
  }

  lemma MeanOfOne(v: seq<real>)
    requires |v| == 1
    ensures Mean(v) == v[0]
  {
    MeanBetweenExtremes(v);
  }

  lemma MeanBetweenExtremes(v: seq<real>)
    requires v != []
    ensures Min(v) <= Mean(v) <= Max(v)
  {
    hide Mean, Min, Max, Sum, Within;
    ExtremesEnclose(v);
    SumBetween(v, Min(v), Max(v));
    MeanTimesCount(v);
    CancelPositiveLe(Min(v), Mean(v), |v| as real);
    CancelPositiveLe(Mean(v), Max(v), |v| as real);
  }

  // ----- the two-pass sum and its bounds

  lemma {:induction false} DeviationsExpand(v: seq<real>, m: real)
    ensures SquaredDeviations(v, m) == SumSquares(v) - 2.0 * m * Sum(v) + |v| as real * (m * m)
  {
    if v != [] {
      var w, x := v[..|v| - 1], v[|v| - 1];
      DeviationsExpand(w, m);
      assert (x - m) * (x - m) == x * x - 2.0 * m * x + m * m;
      assert 2.0 * m * (Sum(w) + x) == 2.0 * m * Sum(w) + 2.0 * m * x;
      assert |v| as real * (m * m) == |w| as real * (m * m) + m * m;
    }
  }

  /** The two-pass sum agrees with the textbook form sum v^2 - n * mean^2. */
  lemma TwoPassIdentity(v: seq<real>)
    requires v != []
    ensures SquaredDeviations(v, Mean(v)) == SumSquares(v) - |v| as real * (Mean(v) * Mean(v))
  {
    var m, n := Mean(v), |v| as real;
    DeviationsExpand(v, m);
    MeanTimesCount(v);
    assert m * (m * n) == n * (m * m);
    assert 2.0 * m * (m * n) == 2.0 * (m * (m * n));
  }

  lemma {:induction false} SquaresBelowChord(v: seq<real>, lo: real, hi: real)
    requires Within(v, lo, hi)
    ensures SumSquares(v) <= (lo + hi) * Sum(v) - |v| as real * (lo * hi)
  {
    if v != [] {
      var w, x := v[..|v| - 1], v[|v| - 1];
      assert lo <= x <= hi;
      SquaresBelowChord(w, lo, hi);
      ChordAt(x, lo, hi);
      assert (lo + hi) * (Sum(w) + x) == (lo + hi) * Sum(w) + (lo + hi) * x;
      assert |v| as real * (lo * hi) == |w| as real * (lo * hi) + lo * hi;
    }
  }

  lemma ChordAt(x: real, lo: real, hi: real)
    requires lo <= x <= hi
    ensures x * x <= (lo + hi) * x - lo * hi
  {
    MulMonotone(0.0, x - lo, hi - x);
    assert (hi - x) * (x - lo) == (lo + hi) * x - lo * hi - x * x;
  }

  lemma ChordGap(q: real, n: real, m: real, lo: real, hi: real)
    requires q <= (lo + hi) * (m * n) - n * (lo * hi)
    ensures q - n * (m * m) <= n * ((hi - m) * (m - lo))
  {
    assert (hi - m) * (m - lo) == (lo + hi) * m - lo * hi - m * m;
    assert n * ((lo + hi) * m - lo * hi - m * m) == n * ((lo + hi) * m) - n * (lo * hi) - n * (m * m);
    assert n * ((lo + hi) * m) == (lo + hi) * (m * n);
  }

  /** The squared deviations are bounded by n (max - mean) (mean - min). */
  lemma DeviationsBound(v: seq<real>)
    requires v != []
    ensures SquaredDeviations(v, Mean(v)) <= |v| as real * ((Max(v) - Mean(v)) * (Mean(v) - Min(v)))
  {
    hide Mean, Min, Max, Sum, SumSquares, SquaredDeviations, Within;
    TwoPassIdentity(v);
    ExtremesEnclose(v);
    SquaresBelowChord(v, Min(v), Max(v));
    MeanTimesCount(v);
    ChordGap(SumSquares(v), |v| as real, Mean(v), Min(v), Max(v));
  }

  lemma ProductOfParts(a: real, b: real)
    ensures 4.0 * (a * b) <= (a + b) * (a + b)
  {
    SquareNonNegative(a - b);
    assert (a - b) * (a - b) == (a + b) * (a + b) - 4.0 * (a * b);
  }

  /** Hence the variance is at most n / (n - 1) times a quarter of the squared range. */
  lemma VarianceBound(v: seq<real>)
    requires |v| > 1
    ensures 4.0 * ((|v| - 1) as real * Variance(v)) <= |v| as real * ((Max(v) - Min(v)) * (Max(v) - Min(v)))
  {
    hide Mean, Min, Max, SquaredDeviations, Variance;
    DeviationsBound(v);
    VarianceTimesCount(v);
    QuarterSquare(|v| as real, Max(v) - Mean(v), Mean(v) - Min(v), Max(v) - Min(v));
  }

  lemma QuarterSquare(n: real, a: real, b: real, c: real)
    requires n >= 0.0 && a + b == c
    ensures 4.0 * (n * (a * b)) <= n * (c * c)
  {
    ProductOfParts(a, b);
    MulMonotone(4.0 * (a * b), (a + b) * (a + b), n);
    assert n * (4.0 * (a * b)) == 4.0 * (n * (a * b));
  }

  lemma VarianceTimesCount(v: seq<real>)
    requires |v| > 1
    ensures (|v| - 1) as real * Variance(v) == SquaredDeviations(v, Mean(v))
  {
  }

  // ----- when the deviation is zero

  lemma SquareZeroIff(a: real)
    ensures a * a >= 0.0
    ensures a * a == 0.0 <==> a == 0.0
  {
    SquareNonNegative(a);
    if a * a == 0.0 {
      SquareIsZero(a);
    }
  }

  lemma {:induction false} DeviationsZeroIff(v: seq<real>, m: real)
    ensures SquaredDeviations(v, m) >= 0.0
    ensures SquaredDeviations(v, m) == 0.0 <==> Within(v, m, m)
  {
    if v != [] {
      var w, x := v[..|v| - 1], v[|v| - 1];
      DeviationsZeroIff(w, m);
      SquareZeroIff(x - m);
      assert Within(v, m, m) <==> Within(w, m, m) && x == m;
      assert SquaredDeviations(v, m) == SquaredDeviations(w, m) + (x - m) * (x - m);
    }
  }

  lemma VarianceSign(v: seq<real>)
    requires |v| > 1
    ensures Variance(v) >= 0.0
    ensures Variance(v) == 0.0 <==> SquaredDeviations(v, Mean(v)) == 0.0
  {
    DeviationsZeroIff(v, Mean(v));
    VarianceTimesCount(v);
    var d := (|v| - 1) as real;
    CancelPositiveLe(0.0, Variance(v), d);
  }

  /** With two or more runs the reported deviation is zero exactly when all runs are equal. */
  lemma DeviationZeroIffEqual(v: seq<real>)
    requires |v| > 1
    ensures Deviation(v) >= 0.0
    ensures Deviation(v) == 0.0 <==> forall i, j :: 0 <= i < j < |v| ==> v[i] == v[j]
  {
    hide Newton.Iterate;
    VarianceSign(v);
    DeviationsZeroIff(v, Mean(v));
    if forall i, j :: 0 <= i < j < |v| ==> v[i] == v[j] {
      MeanBetweenExtremes(v);
      assert Min(v) == v[0] == Max(v);
    }
  }

  /** The reported deviation squares back to the variance exactly when that variance is 0 or 1. */
  lemma DeviationExactIff(v: seq<real>)
    requires |v| > 1
    ensures Deviation(v) * Deviation(v) == Variance(v) <==> Variance(v) == 0.0 || Variance(v) == 1.0
  {
    hide Newton.Iterate;
    VarianceSign(v);
    if Variance(v) > 0.0 {
      Newton.ExactOnlyAtOne(Variance(v));
    }
  }

  lemma VariancePositive(v: seq<real>, s: real)
    requires |v| > 1 && Variance(v) == s * s && s > 0.0
    ensures Variance(v) > 0.0
    ensures Deviation(v) == Newton.Iterate(Variance(v), Variance(v), Newton.STEPS)
  {
    hide Newton.Iterate, Variance;
    MulMonotone(0.0, s, s);
    if s * s == 0.0 {
      SquareIsZero(s);
    }
  }

  /** A true deviation s from 1/129 to 129 is reported as s, up to one part in 2^62 and never below. */
  lemma DeviationAccurate(v: seq<real>, s: real)
    requires |v| > 1 && Variance(v) == s * s && s > 0.0
    requires 1.0 <= 129.0 * s && s <= 129.0
    ensures 0.0 <= Deviation(v) - s
    ensures (Deviation(v) - s) * Pow(2.0, 62) <= s
  {
    hide Newton.Iterate, Pow, Variance, Deviation;
    VariancePositive(v, s);
    Newton.AccurateWithin129(Variance(v), s);
  }

  /** A true deviation above 8192 or below 1/8192 is reported more than twice too large. */
  lemma DeviationUnconverged(v: seq<real>, s: real)
    requires |v| > 1 && Variance(v) == s * s && s > 0.0
    requires s > 8192.0 || 8192.0 * s < 1.0
    ensures Deviation(v) > 2.0 * s
  {
    hide Newton.Iterate, Variance, Deviation;
    VariancePositive(v, s);
    Newton.UnconvergedOutside8192(Variance(v), s);
  }

  lemma SumOfOne(a: real, g: real -> real)
    ensures SumOf([a], g) == g(a)
  {
    assert [a][..0] == [];
  }

  lemma SumOfThree(a: real, b: real, c: real, g: real -> real)
    ensures SumOf([a, b, c], g) == g(a) + g(b) + g(c)
  {
    assert [a, b, c][..2] == [a, b] && [a, b][..1] == [a];
    SumOfOne(a, g);
  }

  /** For instance: the runs -9000, 0 and 9000 have deviation 9000 and are reported with more than 18000. */
  lemma UnconvergedExample()
    ensures Variance([-9000.0, 0.0, 9000.0]) == 9000.0 * 9000.0
    ensures Deviation([-9000.0, 0.0, 9000.0]) > 18000.0
  {
    hide SumOf, Deviation;
    var v := [-9000.0, 0.0, 9000.0];
    SumOfThree(-9000.0, 0.0, 9000.0, x => x);
    assert Mean(v) == 0.0;
    SumOfThree(-9000.0, 0.0, 9000.0, x => (x - 0.0) * (x - 0.0));
    assert SquaredDeviations(v, 0.0) == 2.0 * (9000.0 * 9000.0);
    DeviationUnconverged(v, 9000.0);
  }

  /**
   Between and beyond these: the report of a true deviation s is within a relative error e exactly if
   (2 + e) (s - 1)^4096 <= e (s + 1)^4096.
   */
  lemma DeviationErrorIff(v: seq<real>, s: real, e: real)
    requires |v| > 1 && Variance(v) == s * s && s > 0.0 && e >= 0.0
    ensures Deviation(v) >= s
    ensures Deviation(v) - s <= e * s <==> (2.0 + e) * Pow(s - 1.0, 4096) <= e * Pow(s + 1.0, 4096)
  {
    hide Newton.Iterate, Pow, Variance, Deviation;
    VariancePositive(v, s);
    Newton.StepCount();
    Newton.AboveRoot(Variance(v), Variance(v), s, Newton.STEPS);
    Newton.RelativeErrorIff(Variance(v), s, e);
  }

  // ----- the order of the runs does not matter

  lemma {:induction false} SumOfAppend(u: seq<real>, v: seq<real>, g: real -> real)
    ensures SumOf(u + v, g) == SumOf(u, g) + SumOf(v, g)
  {
    if v == [] {
      assert u + v == u;
    } else {
      var w := v[..|v| - 1];
      SumOfAppend(u, w, g);
      assert (u + v)[..|u + v| - 1] == u + w;
    }
  }

  /** v without the value at k. */
  function Without(v: seq<real>, k: nat): seq<real>
    requires k < |v|
  {
    v[..k] + v[k + 1..]
  }

  lemma SumOfRemove(v: seq<real>, k: nat, g: real -> real)
    requires k < |v|
    ensures SumOf(v, g) == SumOf(Without(v, k), g) + g(v[k])
  {
    hide SumOf;
    SumOfInsert(v[..k], v[k], v[k + 1..], g);
    assert v == v[..k] + [v[k]] + v[k + 1..];
  }

  lemma ValuesOfRemove(v: seq<real>, k: nat)
    requires k < |v|
    ensures multiset(Without(v, k)) == multiset(v) - multiset{v[k]}
  {
    assert v == v[..k] + ([v[k]] + v[k + 1..]);
  }

  lemma SumOfInsert(a: seq<real>, x: real, b: seq<real>, g: real -> real)
    ensures SumOf(a + [x] + b, g) == SumOf(a + b, g) + g(x)
  {
    assert (a + [x])[..|a|] == a;
    SumOfAppend(a, b, g);
    SumOfAppend(a + [x], b, g);
  }

  lemma {:induction false} SumOfPermutation(u: seq<real>, v: seq<real>, g: real -> real)
    requires multiset(u) == multiset(v)
    ensures SumOf(u, g) == SumOf(v, g)
    decreases |u|
  {
    hide Without;
    assert |u| == |multiset(u)| == |multiset(v)| == |v|;
    if u != [] {
      var k := SameValue(u, v);
      SumOfRemove(u, 0, g);
      SumOfRemove(v, k, g);
      ValuesOfRemove(u, 0);
      ValuesOfRemove(v, k);
      ShorterWithout(u, 0);
      SumOfPermutation(Without(u, 0), Without(v, k), g);
    }
  }

  lemma ShorterWithout(v: seq<real>, k: nat)
    requires k < |v|
    ensures |Without(v, k)| == |v| - 1
  {
  }

  lemma SameValue(u: seq<real>, v: seq<real>) returns (k: nat)
    requires u != [] && multiset(u) == multiset(v)
    ensures k < |v| && v[k] == u[0]
  {
    assert u[0] in multiset(v);
    k :| 0 <= k < |v| && v[k] == u[0];
  }

  lemma ExtremesPermutation(u: seq<real>, v: seq<real>)
    requires multiset(u) == multiset(v) && u != [] && v != []
    ensures Min(u) == Min(v) && Max(u) == Max(v)
  {
    assert forall x :: x in u <==> x in multiset(u);
    assert forall x :: x in v <==> x in multiset(v);
  }

  /** All four statistics depend on the multiset of values only. */
  lemma StatsPermutation(u: seq<real>, v: seq<real>)
    requires multiset(u) == multiset(v)
    ensures StatsOf(u) == StatsOf(v)
  {
    hide Newton.Iterate;
    assert |u| == |multiset(u)| == |multiset(v)| == |v|;
    if u != [] {
      ExtremesPermutation(u, v);
      SumOfPermutation(u, v, x => x);
      assert Mean(u) == Mean(v);
      var m := Mean(u);
      SumOfPermutation(u, v, x => (x - m) * (x - m));
      assert SquaredDeviations(u, m) == SquaredDeviations(v, m);
    }
  }
}
