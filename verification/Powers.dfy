/** Natural-number powers of reals, with the few laws the numeric proofs need. */
module Powers {

  function Pow(b: real, n: nat): real {
    if n == 0 then 1.0 else b * Pow(b, n - 1)
  }

  function Pow2(k: nat): (p: nat)
    ensures p >= 1
  {
    if k == 0 then 1 else 2 * Pow2(k - 1)
  }

  lemma {:induction false} PowAdd(b: real, m: nat, n: nat)
    ensures Pow(b, m + n) == Pow(b, m) * Pow(b, n)
    decreases m
  {
    if m != 0 {
      PowAdd(b, m - 1, n);
      assert m - 1 + n == m + n - 1;
    }
  }

  lemma {:induction false} PowMul(b: real, m: nat, n: nat)
    ensures Pow(Pow(b, m), n) == Pow(b, m * n)
    decreases n
  {
    if n == 0 {
      assert m * n == 0;
    } else {
      PowMul(b, m, n - 1);
      assert m * (n - 1) + m == m * n;
      PowAdd(b, m, m * (n - 1));
    }
  }

  lemma {:induction false} PowOfProduct(a: real, b: real, n: nat)
    ensures Pow(a * b, n) == Pow(a, n) * Pow(b, n)
    decreases n
  {
    if n != 0 {
      PowOfProduct(a, b, n - 1);
      var p, q := Pow(a, n - 1), Pow(b, n - 1);
      assert (a * b) * (p * q) == (a * p) * (b * q);
    }
  }

  lemma {:induction false} PowPositive(b: real, n: nat)
    requires b > 0.0
    ensures Pow(b, n) > 0.0
    decreases n
  {
    if n != 0 {
      PowPositive(b, n - 1);
    }
  }

  lemma {:induction false} PowNonNegative(b: real, n: nat)
    requires b >= 0.0
    ensures Pow(b, n) >= 0.0
    decreases n
  {
    if n != 0 {
      PowNonNegative(b, n - 1);
    }
  }

  lemma MulPositive(a: real, b: real)
    requires a > 0.0 && b > 0.0
    ensures a * b > 0.0
  {
  }

  lemma SquareNonNegative(a: real)
    ensures a * a >= 0.0
  {
    if a > 0.0 {
      MulPositive(a, a);
    } else if a < 0.0 {
      var b := -a;
      MulPositive(b, b);
      NegatedSquare(a, b);
    }
  }

  lemma ZeroProduct(a: real, b: real)
    requires a * b == 0.0 && a > 0.0
    ensures b <= 0.0
  {
    if b > 0.0 {
      MulPositive(a, b);
    }
  }

  lemma SquareIsZero(a: real)
    requires a * a == 0.0
    ensures a == 0.0
  {
    if a > 0.0 {
      ZeroProduct(a, a);
    } else if a < 0.0 {
      var b := -a;
      NegatedSquare(a, b);
      ZeroProduct(b, b);
    }
  }

  lemma NegatedSquare(a: real, b: real)
    requires b == -a
    ensures b * b == a * a
  {
  }

  lemma CancelPositiveLe(a: real, b: real, c: real)
    requires c > 0.0 && a * c <= b * c
    ensures a <= b
  {
    if a > b {
      MulPositive(a - b, c);
    }
  }

  lemma CancelPositive(a: real, b: real, c: real)
    requires c > 0.0 && a * c == b * c
    ensures a == b
  {
    CancelPositiveLe(a, b, c);
    CancelPositiveLe(b, a, c);
  }

  lemma MulMonotone(a: real, b: real, c: real)
    requires a <= b && c >= 0.0
    ensures c * a <= c * b
  {
    if a < b && c > 0.0 {
      MulPositive(c, b - a);
    }
  }

  lemma {:induction false} PowMonotone(a: real, b: real, n: nat)
    requires 0.0 <= a <= b
    ensures Pow(a, n) <= Pow(b, n)
    decreases n
  {
    if n != 0 {
      PowMonotone(a, b, n - 1);
      PowNonNegative(a, n - 1);
      MulMonotone(Pow(a, n - 1), Pow(b, n - 1), b);
      MulMonotone(a, b, Pow(a, n - 1));
    }
  }

  /** Bernoulli's inequality without division: b^n + n * b^(n-1) * (a - b) <= a^n for a >= b >= 0. */
  lemma {:induction false} Bernoulli(a: real, b: real, n: nat)
    requires 0.0 <= b <= a && n >= 1
    ensures Pow(b, n) + n as real * Pow(b, n - 1) * (a - b) <= Pow(a, n)
    decreases n
  {
    if n == 1 {
      assert Pow(b, 0) == 1.0 && Pow(b, 1) == b && Pow(a, 1) == a;
    } else {
      Bernoulli(a, b, n - 1);
      PowNonNegative(b, n - 2);
      BernoulliStep(a, b, (n - 1) as real, Pow(b, n - 2), Pow(a, n - 1));
    }
  }

  lemma BernoulliStep(a: real, b: real, m: real, q: real, c: real)
    requires 0.0 <= b <= a && m >= 0.0 && q >= 0.0
    requires b * q + m * q * (a - b) <= c
    ensures b * (b * q) + (m + 1.0) * (b * q) * (a - b) <= a * c
  {
    var d, p := a - b, b * q;
    MulMonotone(p + m * q * d, c, a);
    MulMonotone(b, a, q);
    MulMonotone(p, a * q, m);
    MulMonotone(m * p, m * (a * q), d);
    assert a * (p + m * q * d) == a * p + d * (m * (a * q));
    assert a * p == b * p + d * p;
    assert (m + 1.0) * p * d == d * (m * p) + d * p;
  }
}
