/**
 Multiplex scaling of a counter reading (value, time enabled, time running). The same arithmetic
 appears in kernel_clock::read, dynamic_event::retrieve and __td_event::retrieve_scaled.
 */
module Scaling {

  datatype Reading = Reading(value: nat, enabled: nat, running: nat)

  /** The count reported for a reading, with exact reals in place of doubles. */
  function Scaled(r: Reading): int {
    if r.running == 0 then 0
    else if r.running == r.enabled then r.value
    else (r.value as real * (r.enabled as real / r.running as real)).Floor
  }

  lemma FloorOfQuotient(v: nat, e: nat, t: nat)
    requires t > 0
    ensures (v as real * (e as real / t as real)).Floor == v * e / t
  {
    var q, m := v * e / t, v * e % t;
    var x := v as real * (e as real / t as real);
    assert v * e == q * t + m;
    assert x * t as real == (v * e) as real by {
      var y := e as real / t as real;
      assert y * t as real == e as real;
      assert x * t as real == v as real * (y * t as real);
    }
    assert (v * e) as real == q as real * t as real + m as real;
    BetweenMultiples(x, q, t as real, m as real);
  }

  lemma BetweenMultiples(x: real, q: int, t: real, m: real)
    requires t > 0.0 && 0.0 <= m < t && x * t == q as real * t + m
    ensures x.Floor == q
  {
    var d := x - q as real;
    assert d * t == m;
    if d < 0.0 {
      MulNegative(d, t);
    }
    if d >= 1.0 {
      MulAtLeast(d, t);
    }
  }

  lemma MulNegative(d: real, t: real)
    requires d < 0.0 && t > 0.0
    ensures d * t < 0.0
  {
  }

  lemma MulAtLeast(d: real, t: real)
    requires d >= 1.0 && t > 0.0
    ensures d * t >= t
  {
    assert (d - 1.0) * t >= 0.0;
  }

  /** For a counter that ran at all, the double arithmetic is the integer quotient value * enabled / running. */
  lemma ScaledIsQuotient(r: Reading)
    requires r.running > 0
    ensures Scaled(r) == r.value * r.enabled / r.running
  {
    if r.running == r.enabled {
      DivUnique(r.value * r.enabled, r.running, r.value, 0);
    } else {
      FloorOfQuotient(r.value, r.enabled, r.running);
    }
  }

  lemma NaturalProduct(a: int, b: int)
    requires a >= 0 && b >= 0
    ensures a * b >= 0
  {
  }

  lemma DivUnique(a: int, t: int, q: int, m: int)
    requires t > 0 && a == q * t + m && 0 <= m < t
    ensures a / t == q
  {
    var d := a / t - q;
    assert (a / t) * t + a % t == a;
    assert d * t == m - a % t;
    if d >= 1 {
      NaturalProduct(d - 1, t);
    } else if d <= -1 {
      NaturalProduct(-1 - d, t);
    }
  }

  lemma DivMonotone(a: int, b: int, t: int)
    requires t > 0 && a <= b
    ensures a / t <= b / t
  {
    var p, q := a / t, b / t;
    assert p * t <= a;
    assert b < q * t + t;
    if p > q {
      NaturalProduct(p - q - 1, t);
    }
  }

  lemma ProductMonotone(v: nat, a: nat, b: nat)
    requires a <= b
    ensures v * a <= v * b
  {
    NaturalProduct(v, b - a);
  }

  /** A counter that was switched out part of the time never reports less than it counted. */
  lemma ScaledAtLeastValue(r: Reading)
    requires 0 < r.running <= r.enabled
    ensures Scaled(r) >= r.value
  {
    ScaledIsQuotient(r);
    ProductMonotone(r.value, r.running, r.enabled);
    DivMonotone(r.value * r.running, r.value * r.enabled, r.running);
    DivUnique(r.value * r.running, r.running, r.value, 0);
  }

  lemma ScaledMonotone(v: nat, w: nat, e: nat, t: nat)
    requires v <= w
    ensures Scaled(Reading(v, e, t)) <= Scaled(Reading(w, e, t))
  {
    if t > 0 {
      ScaledIsQuotient(Reading(v, e, t));
      ScaledIsQuotient(Reading(w, e, t));
      assert w * e == v * e + (w - v) * e;
      DivMonotone(v * e, w * e, t);
    }
  }

  /** Scaling two counts separately loses at most one compared with scaling their sum. */
  lemma ScaledAdds(v: nat, w: nat, e: nat, t: nat)
    ensures var sum := Scaled(Reading(v + w, e, t));
            var parts := Scaled(Reading(v, e, t)) + Scaled(Reading(w, e, t));
            parts <= sum <= parts + 1
  {
    if t > 0 {
      ScaledIsQuotient(Reading(v, e, t));
      ScaledIsQuotient(Reading(w, e, t));
      ScaledIsQuotient(Reading(v + w, e, t));
      assert (v + w) * e == v * e + w * e;
      QuotientsAdd(v * e, w * e, t);
    }
  }

  lemma QuotientsAdd(a: int, b: int, t: int)
    requires t > 0
    ensures a / t + b / t <= (a + b) / t <= a / t + b / t + 1
  {
    var m := a % t + b % t;
    assert a + b == (a / t + b / t) * t + m by {
      assert a == (a / t) * t + a % t;
      assert b == (b / t) * t + b % t;
    }
    if m < t {
      DivUnique(a + b, t, a / t + b / t, m);
    } else {
      DivUnique(a + b, t, a / t + b / t + 1, m - t);
    }
  }

  /**
   If events arrive at a constant rate, the value seen while running stands to the running time as
   the true total to the enabled time, and then scaling recovers the total exactly.
   */
  lemma ScaledExactAtConstantRate(r: Reading, total: nat)
    requires r.running > 0
    requires r.value * r.enabled == total * r.running
    ensures Scaled(r) == total
  {
    ScaledIsQuotient(r);
    DivUnique(r.value * r.enabled, r.running, total, 0);
  }
}
