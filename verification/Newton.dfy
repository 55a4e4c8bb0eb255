/**
 The square root inside compute_stats: exactly twelve Newton steps r := (r + x / r) / 2,
 started at the radicand x itself.
 */
module Newton {
  import opened Powers

  /** The number of steps the loop performs, whatever the radicand. */
  const STEPS: nat := 12

  function Step(r: real, x: real): (r': real)
    requires r > 0.0 && x > 0.0
    ensures r' > 0.0
  {
    assert x / r > 0.0;
    0.5 * (r + x / r)
  }

  /** The value of r after k steps from r0. */
  function Iterate(r0: real, x: real, k: nat): (r: real)
    requires r0 > 0.0 && x > 0.0
    ensures r > 0.0
    decreases r0, x, k
  {
    if k == 0 then r0 else Step(Iterate(r0, x, k - 1), x)
  }

  /** The loop itself. */
  method Root(x: real) returns (r: real)
    requires x > 0.0
    ensures r == Iterate(x, x, STEPS)
  {
    r := x;
    for i := 0 to STEPS
      invariant r > 0.0 && r == Iterate(x, x, i)
    {
      r := 0.5 * (r + x / r);
    }
  }

  // ----- one step

  lemma StepDistances(r: real, x: real, s: real)
    requires r > 0.0 && s > 0.0 && x > 0.0 && s * s == x
    ensures (Step(r, x) - s) * (2.0 * r) == (r - s) * (r - s)
    ensures (Step(r, x) + s) * (2.0 * r) == (r + s) * (r + s)
  {
    var q := x / r;
    assert q * r == x;
    assert Step(r, x) * (2.0 * r) == r * r + q * r;
  }

  // ----- the closed form

  lemma SquareBoth(u: real, a: real, v: real, b: real)
    requires u * a == v * b
    ensures (u * u) * (a * a) == (v * v) * (b * b)
  {
    assert (u * u) * (a * a) == (u * a) * (u * a);
    assert (v * v) * (b * b) == (v * b) * (v * b);
  }

  lemma ClosedFormStep(r: real, x: real, s: real, t: real, a: real, b: real, e: real, f: real)
    requires r > 0.0 && s > 0.0 && x > 0.0 && s * s == x
    requires (r - s) * a == (r + s) * b
    requires t == Step(r, x) && e == a * a && f == b * b
    ensures (t - s) * e == (t + s) * f
  {
    StepDistances(r, x, s);
    SquareBoth(r - s, a, r + s, b);
    CrossMultiply(t - s, e, t + s, f, 2.0 * r);
  }

  lemma CrossMultiply(u: real, e: real, v: real, f: real, c: real)
    requires c > 0.0
    requires (u * c) * e == (v * c) * f
    ensures u * e == v * f
  {
    assert (u * c) * e == (u * e) * c;
    assert (v * c) * f == (v * f) * c;
    CancelPositive(u * e, v * f, c);
  }

  lemma PowOne(b: real)
    ensures Pow(b, Pow2(0)) == b
  {
    assert Pow(b, 1) == b * Pow(b, 0);
  }

  lemma PowDouble(b: real, k: nat)
    requires k >= 1
    ensures Pow(b, Pow2(k)) == Pow(b, Pow2(k - 1)) * Pow(b, Pow2(k - 1))
  {
    PowAdd(b, Pow2(k - 1), Pow2(k - 1));
  }

  /** Error recurrence in closed form: (r_k - s) (r0 + s)^(2^k) = (r_k + s) (r0 - s)^(2^k). */
  lemma {:induction false} ClosedForm(r0: real, x: real, s: real, k: nat)
    requires r0 > 0.0 && s > 0.0 && x > 0.0 && s * s == x
    ensures (Iterate(r0, x, k) - s) * Pow(r0 + s, Pow2(k)) == (Iterate(r0, x, k) + s) * Pow(r0 - s, Pow2(k))
    decreases k
  {
    hide Step, Pow, Pow2;
    if k == 0 {
      PowOne(r0 + s);
      PowOne(r0 - s);
    } else {
      ClosedForm(r0, x, s, k - 1);
      assert Iterate(r0, x, k) == Step(Iterate(r0, x, k - 1), x);
      PowDouble(r0 + s, k);
      PowDouble(r0 - s, k);
      ClosedFormStep(Iterate(r0, x, k - 1), x, s, Iterate(r0, x, k),
                     Pow(r0 + s, Pow2(k - 1)), Pow(r0 - s, Pow2(k - 1)),
                     Pow(r0 + s, Pow2(k)), Pow(r0 - s, Pow2(k)));
    }
  }

  // ----- bounds that need no closed form

  /** From the first step on, an iterate is never below the true root. */
  lemma AboveRoot(r0: real, x: real, s: real, k: nat)
    requires r0 > 0.0 && s > 0.0 && x > 0.0 && s * s == x && k >= 1
    ensures Iterate(r0, x, k) >= s
  {
    var r := Iterate(r0, x, k - 1);
    StepDistances(r, x, s);
    SquareNonNegative(r - s);
    CancelPositiveLe(0.0, Iterate(r0, x, k) - s, 2.0 * r);
  }

  /** From the first step on, the iterates do not grow. */
  lemma NonIncreasing(r0: real, x: real, s: real, k: nat)
    requires r0 > 0.0 && s > 0.0 && x > 0.0 && s * s == x && k >= 1
    ensures Iterate(r0, x, k + 1) <= Iterate(r0, x, k)
  {
    var r := Iterate(r0, x, k);
    AboveRoot(r0, x, s, k);
    QuotientBelow(r, x, s);
  }

  lemma QuotientBelow(r: real, x: real, s: real)
    requires 0.0 < s <= r && s * s == x
    ensures x / r <= r
  {
    MulMonotone(s, r, s);
    MulMonotone(s, r, r);
    ExactQuotient(x, r);
    CancelPositiveLe(x / r, r, r);
  }

  lemma ExactQuotient(x: real, r: real)
    requires r > 0.0
    ensures (x / r) * r == x
  {
  }

  lemma HalvingStep(r: real, q: real, p: real, r0: real)
    requires q > 0.0 && p > 0.0 && r * p >= r0
    ensures (0.5 * (r + q)) * (2.0 * p) >= r0
  {
    MulPositive(q, p);
    assert (0.5 * (r + q)) * (2.0 * p) == r * p + q * p;
  }

  /** A step at most halves r, so k steps leave at least r0 / 2^k. */
  lemma {:induction false} HalvesAtMost(r0: real, x: real, k: nat)
    requires r0 > 0.0 && x > 0.0
    ensures Iterate(r0, x, k) * Pow2(k) as real >= r0
    decreases k
  {
    if k != 0 {
      HalvesAtMost(r0, x, k - 1);
      var r := Iterate(r0, x, k - 1);
      HalvingStep(r, x / r, Pow2(k - 1) as real, r0);
    }
  }

  // ----- the iteration seen relative to the true root

  /** The error ratio r_k / s, which starts at s itself when the loop starts at s * s. */
  function Ratio(s: real, k: nat): (t: real)
    requires s > 0.0
    ensures t > 0.0
  {
    Iterate(s, 1.0, k)
  }

  lemma StepScales(r: real, x: real, s: real, t: real)
    requires t > 0.0 && s > 0.0 && x > 0.0 && s * s == x && r > 0.0 && r == s * t
    ensures Step(r, x) == s * Step(t, 1.0)
  {
    var q, w := 1.0 / t, x / r;
    assert q * t == 1.0;
    assert w * r == x;
    assert (s * q) * r == (s * s) * (q * t);
    CancelPositive(w, s * q, r);
  }

  /** What the loop returns for variance x = s * s is s times Ratio(s, 12). */
  lemma {:induction false} IterateIsScaledRatio(x: real, s: real, k: nat)
    requires s > 0.0 && x > 0.0 && s * s == x
    ensures Iterate(x, x, k) == s * Ratio(s, k)
    decreases k
  {
    hide Step;
    if k != 0 {
      IterateIsScaledRatio(x, s, k - 1);
      StepScales(Iterate(x, x, k - 1), x, s, Ratio(s, k - 1));
    }
  }

  lemma StepMonotoneAboveOne(a: real, b: real)
    requires 1.0 <= a <= b
    ensures Step(a, 1.0) <= Step(b, 1.0)
  {
    var p, q := 1.0 / a, 1.0 / b;
    ExactQuotient(1.0, a);
    ExactQuotient(1.0, b);
    ReciprocalGap(a, b, p, q);
    assert Step(a, 1.0) == 0.5 * (a + p);
    assert Step(b, 1.0) == 0.5 * (b + q);
  }

  /** (b - a) - (p - q) = (b - a) (1 - p q), and p q <= 1. */
  lemma ReciprocalGap(a: real, b: real, p: real, q: real)
    requires 1.0 <= a <= b && p * a == 1.0 && q * b == 1.0
    ensures p - q <= b - a
  {
    CancelPositiveLe(0.0, p, a);
    CancelPositiveLe(0.0, q, b);
    CancelPositiveLe(p, 1.0, a);
    CancelPositiveLe(q, 1.0, b);
    MulMonotone(p, 1.0, q);
    var d := b - a;
    MulMonotone(q * p, 1.0, d);
    assert d * (q * p) == p * (q * b) - (p * a) * q;
    assert p * (q * b) == p && (p * a) * q == q;
    assert p - q <= d * 1.0;
  }

  /** The relative error grows with the distance of the true deviation from 1: it is monotone above 1. */
  lemma {:induction false} RatioMonotone(s: real, u: real, k: nat)
    requires 1.0 <= s <= u
    ensures 1.0 <= Ratio(s, k) <= Ratio(u, k)
    decreases k
  {
    if k != 0 {
      RatioMonotone(s, u, k - 1);
      StepMonotoneAboveOne(1.0, Ratio(s, k - 1));
      StepMonotoneAboveOne(Ratio(s, k - 1), Ratio(u, k - 1));
      assert Step(1.0, 1.0) == 1.0;
    }
  }

  /** Deviations below 1 err exactly as much as their reciprocals do. */
  lemma {:induction false} RatioOfReciprocal(s: real, q: real, k: nat)
    requires s > 0.0 && q > 0.0 && s * q == 1.0 && k >= 1
    ensures Ratio(q, k) == Ratio(s, k)
    decreases k
  {
    if k == 1 {
      CancelPositive(1.0 / q, s, q);
      CancelPositive(1.0 / s, q, s);
      assert Ratio(q, 1) == Step(Iterate(q, 1.0, 0), 1.0) == 0.5 * (q + 1.0 / q);
      assert Ratio(s, 1) == Step(Iterate(s, 1.0, 0), 1.0) == 0.5 * (s + 1.0 / s);
    } else {
      RatioOfReciprocal(s, q, k - 1);
    }
  }

  // ----- accuracy of the twelve steps

  /** (s + 1)^n is at least twice (s - 1)^n as soon as 2 n >= s - 1. */
  lemma DoublingGap(s: real, n: nat)
    requires s >= 1.0 && n >= 1 && s - 1.0 <= 2.0 * n as real
    ensures 2.0 * Pow(s - 1.0, n) <= Pow(s + 1.0, n)
  {
    Bernoulli(s + 1.0, s - 1.0, n);
    PowNonNegative(s - 1.0, n - 1);
    var p := Pow(s - 1.0, n - 1);
    assert (s + 1.0) - (s - 1.0) == 2.0;
    MulMonotone(s - 1.0, 2.0 * n as real, p);
    assert Pow(s - 1.0, n) == (s - 1.0) * p;
  }

  /** Repeating the doubling m times. */
  lemma RepeatedGap(s: real, n: nat, m: nat)
    requires s >= 1.0 && n >= 1 && s - 1.0 <= 2.0 * n as real
    ensures Pow(2.0, m) * Pow(s - 1.0, n * m) <= Pow(s + 1.0, n * m)
  {
    hide Pow;
    DoublingGap(s, n);
    PowNonNegative(s - 1.0, n);
    PowMonotone(2.0 * Pow(s - 1.0, n), Pow(s + 1.0, n), m);
    PowOfProduct(2.0, Pow(s - 1.0, n), m);
    PowMul(s - 1.0, n, m);
    PowMul(s + 1.0, n, m);
  }

  lemma ErrorFromGap(t: real, a: real, b: real, g: real)
    requires t >= 1.0 && a > 0.0
    requires (t - 1.0) * a == (t + 1.0) * b
    requires g * b <= a
    ensures (t - 1.0) * (g - 1.0) <= 2.0
  {
    // (t - 1) g a = g b (t + 1) <= a (t + 1)
    MulMonotone(g * b, a, t + 1.0);
    assert ((t - 1.0) * g) * a == g * ((t - 1.0) * a);
    assert g * ((t + 1.0) * b) == (t + 1.0) * (g * b);
    CancelPositiveLe((t - 1.0) * g, t + 1.0, a);
  }

  /** The error ratio after k steps, for s between 1 and 2 n + 1 with n * m = 2^k. */
  lemma RatioErrorBound(s: real, k: nat, n: nat, m: nat)
    requires n >= 1 && n * m == Pow2(k)
    requires 1.0 <= s <= 2.0 * n as real + 1.0
    ensures 0.0 <= Ratio(s, k) - 1.0
    ensures (Ratio(s, k) - 1.0) * (Pow(2.0, m) - 1.0) <= 2.0
  {
    hide Step, Iterate, Pow;
    RatioMonotone(s, s, k);
    ClosedForm(s, 1.0, 1.0, k);
    PowPositive(s + 1.0, n * m);
    RepeatedGap(s, n, m);
    ErrorFromGap(Ratio(s, k), Pow(s + 1.0, n * m), Pow(s - 1.0, n * m), Pow(2.0, m));
  }

  lemma RescaleError(s: real, t: real, g: real, b: real)
    requires s > 0.0 && (t - 1.0) * g <= b
    ensures (s * t - s) * g <= b * s
  {
    MulMonotone((t - 1.0) * g, b, s);
    assert (s * t - s) * g == s * ((t - 1.0) * g);
  }

  /**
   Accuracy: if the true deviation s is between 1 and 2 n + 1 and n * m = 2^12, the loop's result is
   at least s and its relative error at most 2 / (2^m - 1).
   */
  lemma RelativeErrorBound(x: real, s: real, n: nat, m: nat)
    requires s > 0.0 && x > 0.0 && s * s == x
    requires n >= 1 && n * m == Pow2(STEPS)
    requires 1.0 <= s <= 2.0 * n as real + 1.0
    ensures s <= Iterate(x, x, STEPS)
    ensures (Iterate(x, x, STEPS) - s) * (Pow(2.0, m) - 1.0) <= 2.0 * s
  {
    hide Step, Iterate, Pow, Pow2, Ratio;
    RatioErrorBound(s, STEPS, n, m);
    IterateIsScaledRatio(x, s, STEPS);
    RescaleError(s, Ratio(s, STEPS), Pow(2.0, m) - 1.0, 2.0);
    AboveRoot(x, x, s, STEPS);
  }

  // ----- exactly how large the error is

  /** If d / (d + 2) is b / a, then d is at most e exactly if e / (e + 2) is at least b / a. */
  lemma Threshold(d: real, a: real, b: real, e: real)
    requires d >= 0.0 && e >= 0.0 && a > 0.0
    requires d * a == (d + 2.0) * b
    ensures d <= e <==> (2.0 + e) * b <= e * a
  {
    var low, high := (2.0 + e) * b, e * a;
    assert low * (d + 2.0) == (2.0 + e) * (d * a);
    assert high * (d + 2.0) == (2.0 + e) * (d * a) + a * (2.0 * (e - d));
    if d <= e {
      MulMonotone(0.0, 2.0 * (e - d), a);
      CancelPositiveLe(low, high, d + 2.0);
    } else {
      MulPositive(a, 2.0 * (d - e));
      if low <= high {
        MulMonotone(low, high, d + 2.0);
      }
    }
  }

  lemma RatioAtLeastOne(s: real, k: nat)
    requires s > 0.0 && k >= 1
    ensures Ratio(s, k) >= 1.0
  {
    hide Step, Iterate;
    AboveRoot(s, 1.0, 1.0, k);
  }

  /** After k steps the relative error is at most e exactly for the deviations s that meet a closed inequality. */
  lemma RatioErrorIff(s: real, k: nat, e: real)
    requires s > 0.0 && k >= 1 && e >= 0.0
    ensures Ratio(s, k) - 1.0 <= e
       <==> (2.0 + e) * Pow(s - 1.0, Pow2(k)) <= e * Pow(s + 1.0, Pow2(k))
  {
    hide Step, Iterate, Pow, Pow2;
    RatioAtLeastOne(s, k);
    ClosedForm(s, 1.0, 1.0, k);
    PowPositive(s + 1.0, Pow2(k));
    Threshold(Ratio(s, k) - 1.0, Pow(s + 1.0, Pow2(k)), Pow(s - 1.0, Pow2(k)), e);
  }

  lemma ScaleIff(d: real, e: real, s: real)
    requires s > 0.0
    ensures d * s <= e * s <==> d <= e
  {
    if d <= e {
      MulMonotone(d, e, s);
      assert d * s <= e * s;
    } else if d * s <= e * s {
      CancelPositiveLe(d, e, s);
    }
  }

  lemma ScaleComparison(s: real, t: real, r: real, e: real)
    requires s > 0.0 && r == s * t
    ensures r - s <= e * s <==> t - 1.0 <= e
  {
    var d := t - 1.0;
    ScaleIff(d, e, s);
    assert r - s == d * s;
  }

  /**
   The exact accuracy of the twelve steps, for every true deviation s, small or large, and every bound e
   on the relative error. The left power grows against the right one with the distance of s from 1.
   */
  lemma RelativeErrorIff(x: real, s: real, e: real)
    requires s > 0.0 && x > 0.0 && s * s == x && e >= 0.0
    ensures Iterate(x, x, STEPS) - s <= e * s
       <==> (2.0 + e) * Pow(s - 1.0, Pow2(STEPS)) <= e * Pow(s + 1.0, Pow2(STEPS))
  {
    hide Step, Iterate, Pow, Pow2, Ratio;
    IterateIsScaledRatio(x, s, STEPS);
    RatioErrorIff(s, STEPS, e);
    ScaleComparison(s, Ratio(s, STEPS), Iterate(x, x, STEPS), e);
  }

  lemma {:induction false} PowOfOne(n: nat)
    ensures Pow(1.0, n) == 1.0
    decreases n
  {
    if n != 0 {
      PowOfOne(n - 1);
    }
  }

  lemma StepCount()
    ensures Pow2(STEPS) == 4096
  {
    assert Pow2(3) == 8;
    assert Pow2(6) == 64;
    assert Pow2(9) == 512;
  }

  lemma RatioAccurate(s: real)
    requires 1.0 <= s <= 129.0
    ensures (Ratio(s, STEPS) - 1.0) * Pow(2.0, 62) <= 1.0
  {
    hide Step, Iterate, Ratio;
    StepCount();
    RatioErrorBound(s, STEPS, 64, 64);
    PowAdd(2.0, 2, 62);
    assert Pow(2.0, 2) == 4.0;
    PowMonotone(1.0, 2.0, 62);
    PowOfOne(62);
    HalveBound(Ratio(s, STEPS) - 1.0, Pow(2.0, 62), Pow(2.0, 64) - 1.0, 1.0);
  }

  lemma HalveBound(e: real, g: real, h: real, s: real)
    requires e >= 0.0 && 2.0 * g <= h && e * h <= 2.0 * s
    ensures e * g <= s
  {
    MulMonotone(2.0 * g, h, e);
    assert e * (2.0 * g) == 2.0 * (e * g);
  }

  /** The reciprocal of s, which errs as much as s does. */
  lemma Reciprocal(s: real) returns (q: real)
    requires s > 0.0
    ensures q > 0.0 && s * q == 1.0 && Ratio(q, STEPS) == Ratio(s, STEPS)
  {
    q := 1.0 / s;
    RatioOfReciprocal(s, q, STEPS);
  }

  lemma ReciprocalBounds(s: real, q: real, n: real)
    requires s > 0.0 && q > 0.0 && s * q == 1.0
    ensures s <= 1.0 ==> q >= 1.0
    ensures n * s >= 1.0 ==> q <= n
    ensures n * s < 1.0 ==> q > n
  {
    if s <= 1.0 {
      MulMonotone(s, 1.0, q);
    }
    if n * s >= 1.0 {
      CancelPositiveLe(q, n, s);
    } else if q <= n {
      MulMonotone(q, n, s);
    }
  }

  /** For deviations from 1/129 to 129 the result is right to better than one part in 2^62. */
  lemma AccurateWithin129(x: real, s: real)
    requires s > 0.0 && x > 0.0 && s * s == x
    requires 1.0 <= 129.0 * s && s <= 129.0
    ensures 0.0 <= Iterate(x, x, STEPS) - s
    ensures (Iterate(x, x, STEPS) - s) * Pow(2.0, 62) <= s
  {
    hide Step, Iterate, Pow, Ratio;
    if s >= 1.0 {
      RatioAccurate(s);
    } else {
      var q := Reciprocal(s);
      ReciprocalBounds(s, q, 129.0);
      RatioAccurate(q);
    }
    AboveRoot(x, x, s, STEPS);
    IterateIsScaledRatio(x, s, STEPS);
    RescaleError(s, Ratio(s, STEPS), Pow(2.0, 62), 1.0);
  }

  lemma RatioUnconverged(s: real)
    requires s > 8192.0
    ensures Ratio(s, STEPS) > 2.0
  {
    hide Step, Iterate, Pow2;
    StepCount();
    HalvesAtMost(s, 1.0, STEPS);
    assert Ratio(s, STEPS) * 4096.0 >= s;
  }

  /** Outside 1/8192 to 8192 the twelve steps run out: the reported deviation is more than twice the true one. */
  lemma UnconvergedOutside8192(x: real, s: real)
    requires s > 0.0 && x > 0.0 && s * s == x
    requires s > 8192.0 || 8192.0 * s < 1.0
    ensures Iterate(x, x, STEPS) > 2.0 * s
  {
    hide Step, Iterate, Ratio;
    if s > 8192.0 {
      RatioUnconverged(s);
    } else {
      var q := Reciprocal(s);
      ReciprocalBounds(s, q, 8192.0);
      RatioUnconverged(q);
    }
    IterateIsScaledRatio(x, s, STEPS);
    ScaleComparison(s, Ratio(s, STEPS), Iterate(x, x, STEPS), 1.0);
  }

  // ----- when the result is exact

  lemma {:induction false} FixedPointStays(r: real, x: real, k: nat)
    requires r > 0.0 && x > 0.0 && r * r == x
    ensures Iterate(r, x, k) == r
    decreases k
  {
    if k != 0 {
      FixedPointStays(r, x, k - 1);
      CancelPositive(x / r, r, r);
    }
  }

  lemma {:induction false} ExactOnlyIfStartExact(r0: real, x: real, k: nat)
    requires r0 > 0.0 && x > 0.0
    requires Iterate(r0, x, k) * Iterate(r0, x, k) == x
    ensures r0 * r0 == x
    decreases k
  {
    if k != 0 {
      var r, s := Iterate(r0, x, k - 1), Iterate(r0, x, k);
      StepDistances(r, x, s);
      SquareIsZero(r - s);
      ExactOnlyIfStartExact(r0, x, k - 1);
    }
  }

  /** The loop returns the exact root for one radicand only: 1. */
  lemma ExactOnlyAtOne(x: real)
    requires x > 0.0
    ensures Iterate(x, x, STEPS) * Iterate(x, x, STEPS) == x <==> x == 1.0
  {
    hide Step;
    if x == 1.0 {
      FixedPointStays(1.0, 1.0, STEPS);
    } else if Iterate(x, x, STEPS) * Iterate(x, x, STEPS) == x {
      ExactOnlyIfStartExact(x, x, STEPS);
      CancelPositive(x, 1.0, x);
    }
  }
}
