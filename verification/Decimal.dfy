/**
 Decimal text: the digit loops of parse_int, __to_i64 and __to_f64, against the value of a digit string.
 A string is NUL-free; reading one past its end gives the terminating NUL.
 */
module Decimal {
  import opened Powers
  import opened Wrappers

  const INT64_MAX: int := 0x7FFF_FFFF_FFFF_FFFF
  const INT32_MAX: int := 0x7FFF_FFFF

  predicate IsDigit(c: char) {
    '0' <= c <= '9'
  }

  function Digit(c: char): (d: nat)
    requires IsDigit(c)
    ensures d <= 9
  {
    (c - '0') as nat
  }

  predicate AllDigits(ds: string) {
    forall i :: 0 <= i < |ds| ==> IsDigit(ds[i])
  }

  /** The number a digit string denotes. */
  function Val(ds: string): nat
    requires AllDigits(ds)
  {
    if ds == "" then 0 else Val(ds[..|ds| - 1]) * 10 + Digit(ds[|ds| - 1])
  }

  function At(s: string, i: nat): char {
    if i < |s| then s[i] else '\0'
  }

  // ----- scanning

  /** The end of the digits that start at i. */
  function DigitEnd(s: string, i: nat): (e: nat)
    requires i <= |s|
    ensures i <= e <= |s|
    ensures AllDigits(s[i..e]) && (e < |s| ==> !IsDigit(s[e]))
    decreases |s| - i
  {
    if i < |s| && IsDigit(s[i]) then
      var e := DigitEnd(s, i + 1);
      assert s[i..e] == [s[i]] + s[i + 1..e];
      e
    else i
  }

  lemma {:induction false} DigitEndUnique(s: string, i: nat, e: nat)
    requires i <= e <= |s| && AllDigits(s[i..e]) && (e < |s| ==> !IsDigit(s[e]))
    ensures DigitEnd(s, i) == e
    decreases |s| - i
  {
    if i < e {
      assert s[i..e][0] == s[i];
      assert s[i + 1..e] == s[i..e][1..];
      DigitEndUnique(s, i + 1, e);
    }
  }

  function SkipBlanks(s: string, i: nat, tabs: bool): (j: nat)
    requires i <= |s|
    ensures i <= j <= |s|
    decreases |s| - i
  {
    if i < |s| && (s[i] == ' ' || (tabs && s[i] == '\t')) then SkipBlanks(s, i + 1, tabs) else i
  }

  function SkipSign(s: string, i: nat): (j: nat)
    requires i <= |s|
    ensures i <= j <= |s|
  {
    if At(s, i) == '-' || At(s, i) == '+' then i + 1 else i
  }

  function Signed(neg: bool, n: int): int {
    if neg then -n else n
  }

  // ----- integers

  /** The text of an integer, without leading zeros. */
  function NatText(n: nat): (t: string)
    ensures t != "" && AllDigits(t) && Val(t) == n
    decreases n
  {
    var last := ['0' + (n % 10) as char];
    if n < 10 then
      assert last[..0] == "";
      last
    else
      var t := NatText(n / 10) + last;
      assert t[..|t| - 1] == NatText(n / 10);
      t
  }

  function IntText(n: int): string {
    if n < 0 then "-" + NatText(-n) else NatText(n)
  }

  /** What parse_int stores: blanks, a sign, at least one digit; whatever follows is ignored. */
  function ParseIntOf(s: string): Option<int> {
    var i := SkipBlanks(s, 0, false);
    var j := SkipSign(s, i);
    if IsDigit(At(s, j)) then Some(Signed(At(s, i) == '-', Val(s[j..DigitEnd(s, j)]))) else None
  }

  /** What __to_i64 returns: as above, tabs count as blanks and no digits mean 0. */
  function ToI64Of(s: string): int {
    var i := SkipBlanks(s, 0, true);
    var j := SkipSign(s, i);
    Signed(At(s, i) == '-', Val(s[j..DigitEnd(s, j)]))
  }

  method ReadDigits(s: string, from: nat) returns (acc: nat, i: nat)
    requires from <= |s|
    ensures i == DigitEnd(s, from) && acc == Val(s[from..i])
  {
    hide Val, Digit, AllDigits;
    acc, i := 0, from;
    NoDigits();
    assert s[from..from] == "";
    while i < |s| && IsDigit(s[i])
      invariant from <= i <= |s| && AllDigits(s[from..i])
      invariant acc == Val(s[from..i])
      invariant DigitEnd(s, i) == DigitEnd(s, from)
    {
      assert s[from..i + 1] == s[from..i] + [s[i]];
      ValStep(s[from..i], s[i]);
      acc := acc * 10 + Digit(s[i]);
      i := i + 1;
    }
  }

  method ReadBlanksAndSign(s: string, tabs: bool) returns (neg: bool, j: nat)
    ensures var i := SkipBlanks(s, 0, tabs); j == SkipSign(s, i) && neg == (At(s, i) == '-')
  {
    j := 0;
    while j < |s| && (s[j] == ' ' || (tabs && s[j] == '\t'))
      invariant j <= |s| && SkipBlanks(s, j, tabs) == SkipBlanks(s, 0, tabs)
    {
      j := j + 1;
    }
    neg := false;
    if At(s, j) == '-' {
      neg := true;
      j := j + 1;
    } else if At(s, j) == '+' {
      j := j + 1;
    }
  }

  method ParseInt(s: string) returns (out: Option<int>)
    ensures out == ParseIntOf(s)
  {
    if s == "" { return None; }
    var neg, j := ReadBlanksAndSign(s, false);
    if !IsDigit(At(s, j)) { return None; }
    var v, e := ReadDigits(s, j);
    out := Some(Signed(neg, v));
  }

  method ToI64(s: string) returns (r: int)
    ensures r == ToI64Of(s)
  {
    var neg, j := ReadBlanksAndSign(s, true);
    var acc, e := ReadDigits(s, j);
    r := Signed(neg, acc);
  }

  /** Printing an integer and parsing it back, also when text that starts with no digit follows. */
  lemma PrintThenParse(n: int, rest: string)
    requires rest == "" || !IsDigit(rest[0])
    ensures ParseIntOf(IntText(n) + rest) == Some(n)
    ensures ToI64Of(IntText(n) + rest) == n
  {
    var s, t := IntText(n) + rest, NatText(if n < 0 then -n else n);
    var j := if n < 0 then 1 else 0;
    assert s[j..j + |t|] == t;
    assert t[0] == s[j];
    DigitEndUnique(s, j, j + |t|);
    assert SkipBlanks(s, 0, false) == 0 && SkipBlanks(s, 0, true) == 0;
    assert SkipSign(s, 0) == j;
  }

  // ----- the range of the accumulators

  lemma {:induction false} ValBelowPower(ds: string)
    requires AllDigits(ds)
    ensures Val(ds) < PowerOfTen(|ds|)
    decreases |ds|
  {
    if ds != "" {
      ValBelowPower(ds[..|ds| - 1]);
    }
  }

  function PowerOfTen(n: nat): nat {
    if n == 0 then 1 else 10 * PowerOfTen(n - 1)
  }

  /** The accumulator after k digits. */
  function Accumulator(ds: string, k: nat): nat
    requires AllDigits(ds) && k <= |ds|
  {
    Val(ds[..k])
  }

  lemma {:induction false} AccumulatorsGrow(ds: string, k: nat)
    requires AllDigits(ds) && k <= |ds|
    ensures Accumulator(ds, k) <= Val(ds)
    decreases |ds| - k
  {
    if k == |ds| {
      assert ds[..k] == ds;
    } else {
      assert ds[..k + 1][..k] == ds[..k];
      AccumulatorsGrow(ds, k + 1);
    }
  }

  /** No intermediate accumulator exceeds a bound unless the final one does. */
  lemma AccumulatorsFitIff(ds: string, bound: int)
    requires AllDigits(ds)
    ensures (forall k :: 0 <= k <= |ds| ==> Accumulator(ds, k) <= bound) <==> Val(ds) <= bound
  {
    forall k | 0 <= k <= |ds|
      ensures Accumulator(ds, k) <= Val(ds)
    {
      AccumulatorsGrow(ds, k);
    }
    assert ds[..|ds|] == ds;
    assert Accumulator(ds, |ds|) == Val(ds);
  }

  /** Up to 18 digits fit the 64-bit accumulator, up to 9 the 32-bit exponent. */
  lemma ShortNumbersFit(ds: string)
    requires AllDigits(ds)
    ensures |ds| <= 18 ==> Val(ds) <= INT64_MAX
    ensures |ds| <= 9 ==> Val(ds) <= INT32_MAX
  {
    ValBelowPower(ds);
    if |ds| <= 18 {
      PowersGrow(|ds|, 18);
      assert PowerOfTen(18) == 1_000_000_000_000_000_000 by { TenTo18(); }
    }
    if |ds| <= 9 {
      PowersGrow(|ds|, 9);
      assert PowerOfTen(9) == 1_000_000_000 by { TenTo18(); }
    }
  }

  lemma TenTo18()
    ensures PowerOfTen(9) == 1_000_000_000
    ensures PowerOfTen(18) == 1_000_000_000_000_000_000
  {
    assert PowerOfTen(3) == 1_000;
    assert PowerOfTen(6) == 1_000_000;
    assert PowerOfTen(12) == 1_000_000_000_000;
    assert PowerOfTen(15) == 1_000_000_000_000_000;
  }

  lemma {:induction false} PowersGrow(m: nat, n: nat)
    requires m <= n
    ensures PowerOfTen(m) <= PowerOfTen(n)
    decreases n
  {
    if m < n {
      PowersGrow(m, n - 1);
    }
  }

  /**
   Of the 64-bit integers all but the least survive printing and parsing in 64-bit arithmetic: its
   magnitude, accumulated before the sign is applied, does not fit.
   */
  lemma RoundTripFitsIff(n: int)
    requires -INT64_MAX - 1 <= n <= INT64_MAX
    ensures var ds := NatText(if n < 0 then -n else n);
            (forall k :: 0 <= k <= |ds| ==> Accumulator(ds, k) <= INT64_MAX) <==> n != -INT64_MAX - 1
  {
    AccumulatorsFitIff(NatText(if n < 0 then -n else n), INT64_MAX);
  }

  // ----- floating point over exact reals

  /** The parts of a number as __to_f64 reads it. */
  datatype Float = Float(neg: bool, whole: string, frac: string, eneg: bool, exp: string)

  predicate WellFormed(f: Float) {
    AllDigits(f.whole) && AllDigits(f.frac) && AllDigits(f.exp)
  }

  datatype Mantissa = Mantissa(whole: string, frac: string, end: nat)

  /** Digits, and after a point more digits. */
  function ScanMantissa(s: string, j: nat): (m: Mantissa)
    requires j <= |s|
    ensures AllDigits(m.whole) && AllDigits(m.frac) && m.end <= |s|
  {
    var k := DigitEnd(s, j);
    if At(s, k) == '.' then
      var e := DigitEnd(s, k + 1);
      Mantissa(s[j..k], s[k + 1..e], e)
    else Mantissa(s[j..k], "", k)
  }

  datatype Exponent = Exponent(neg: bool, digits: string)

  /** 'e' or 'E', a sign and digits; without the letter the exponent is empty. */
  function ScanExponent(s: string, i: nat): (x: Exponent)
    requires i <= |s|
    ensures AllDigits(x.digits)
  {
    if At(s, i) == 'e' || At(s, i) == 'E' then
      var j := SkipSign(s, i + 1);
      Exponent(At(s, i + 1) == '-', s[j..DigitEnd(s, j)])
    else Exponent(false, "")
  }

  function ScanFloat(s: string): (f: Float)
    ensures WellFormed(f)
  {
    var i := SkipBlanks(s, 0, true);
    var m := ScanMantissa(s, SkipSign(s, i));
    var x := ScanExponent(s, m.end);
    Float(At(s, i) == '-', m.whole, m.frac, x.neg, x.digits)
  }

  function Scale(m: real, k: int): real {
    if k >= 0 then m * TenTo(k) else m / TenTo(-k)
  }

  function TenTo(k: nat): (p: real)
    ensures p > 0.0
  {
    if k == 0 then 1.0 else TenTo(k - 1) * 10.0
  }

  /** Mantissa times 10^(exponent - fraction length). */
  function FloatValue(f: Float): real
    requires WellFormed(f)
  {
    ConcatDigits(f.whole, f.frac);
    var v := Scale(Val(f.whole + f.frac) as real, Signed(f.eneg, Val(f.exp)) - |f.frac|);
    if f.neg then -v else v
  }

  lemma ConcatDigits(a: string, b: string)
    requires AllDigits(a) && AllDigits(b)
    ensures AllDigits(a + b)
  {
  }

  /** acc is the number with mantissa m and n digits after the point. */
  predicate Represents(acc: real, n: nat, m: real) {
    acc * TenTo(n) == m
  }

  lemma ScaleStep(acc: real, p: real, t: real, u: real, m: real, frac: real, d: real, sum: real,
                  tenth: real)
    requires t == p * 10.0 && u == t * 10.0 && acc * p == m && frac * t == 1.0
    requires sum == acc + d * frac && tenth == frac * 0.1
    ensures sum * t == m * 10.0 + d
    ensures tenth * u == 1.0
  {
    assert acc * t == (acc * p) * 10.0;
    assert (d * frac) * t == d * (frac * t);
    assert sum * t == acc * t + (d * frac) * t;
  }

  lemma FractionStep(acc: real, frac: real, k: nat, before: string, c: char)
    requires AllDigits(before) && IsDigit(c)
    requires Represents(acc, k, Val(before) as real) && Represents(frac, k + 1, 1.0)
    ensures AllDigits(before + [c])
    ensures Represents(acc + Digit(c) as real * frac, k + 1, Val(before + [c]) as real)
    ensures Represents(frac * 0.1, k + 2, 1.0)
  {
    hide Val, Digit, TenTo, Represents;
    ValStep(before, c);
    TenToStep(k);
    TenToStep(k + 1);
    NextDigit(acc, frac, k, Val(before) as real, Digit(c) as real, acc + Digit(c) as real * frac,
              Val(before + [c]) as real, frac * 0.1);
  }

  lemma NextDigit(acc: real, frac: real, k: nat, m: real, d: real, sum: real, next: real,
                  tenth: real)
    requires Represents(acc, k, m) && Represents(frac, k + 1, 1.0)
    requires TenTo(k + 1) == TenTo(k) * 10.0 && TenTo(k + 2) == TenTo(k + 1) * 10.0
    requires sum == acc + d * frac && next == m * 10.0 + d && tenth == frac * 0.1
    ensures Represents(sum, k + 1, next) && Represents(tenth, k + 2, 1.0)
  {
    ScaleStep(acc, TenTo(k), TenTo(k + 1), TenTo(k + 2), m, frac, d, sum, tenth);
  }

  lemma ValStep(before: string, c: char)
    requires AllDigits(before) && IsDigit(c)
    ensures AllDigits(before + [c]) && Val(before + [c]) == Val(before) * 10 + Digit(c)
    ensures Val(before + [c]) as real == Val(before) as real * 10.0 + Digit(c) as real
  {
    assert (before + [c])[..|before|] == before;
  }

  lemma TenToStep(k: nat)
    ensures TenTo(k + 1) == TenTo(k) * 10.0
  {
  }

  lemma FractionStart(v: real)
    ensures Represents(v, 0, v) && Represents(0.1, 1, 1.0)
  {
    assert TenTo(1) == 10.0;
  }

  method ReadFraction(s: string, from: nat, start: real, ghost whole: string) returns (acc: real, i: nat)
    requires from <= |s| && AllDigits(whole) && start == Val(whole) as real
    ensures i == DigitEnd(s, from)
    ensures AllDigits(whole + s[from..i]) && Represents(acc, i - from, Val(whole + s[from..i]) as real)
  {
    hide Represents, Val, Digit;
    acc, i := start, from;
    var frac := 0.1;
    FractionStart(start);
    assert whole + s[from..from] == whole;
    while i < |s| && IsDigit(s[i])
      invariant from <= i <= |s| && AllDigits(whole + s[from..i])
      invariant Represents(frac, i - from + 1, 1.0)
      invariant Represents(acc, i - from, Val(whole + s[from..i]) as real)
      invariant DigitEnd(s, i) == DigitEnd(s, from)
    {
      assert whole + s[from..i + 1] == whole + s[from..i] + [s[i]];
      FractionStep(acc, frac, i - from, whole + s[from..i], s[i]);
      acc := acc + Digit(s[i]) as real * frac;
      frac := frac * 0.1;
      i := i + 1;
    }
  }

  lemma {:induction false} TenToAdd(a: nat, b: nat)
    ensures TenTo(a + b) == TenTo(a) * TenTo(b)
    decreases b
  {
    if b != 0 {
      TenToAdd(a, b - 1);
      Reassociate(TenTo(a), TenTo(b - 1), 10.0);
    }
  }

  lemma Reassociate(a: real, b: real, c: real)
    ensures (a * b) * c == a * (b * c)
  {
  }

  lemma DivideOut(q: real, p: real, m: real)
    requires p > 0.0 && q * p == m
    ensures q == m / p
  {
    assert (m / p) * p == m;
    CancelPositive(q, m / p, p);
  }

  /** Shifting a number with n fractional digits by k shifts its mantissa by k - n. */
  lemma ScaleShift(acc: real, m: real, n: nat, k: int)
    requires Represents(acc, n, m)
    ensures Scale(acc, k) == Scale(m, k - n)
  {
    hide Represents, Scale;
    if k >= n {
      ShiftWhole(acc, m, n, k);
    } else if k >= 0 {
      ShiftPart(acc, m, n, k);
    } else {
      ShiftDown(acc, m, n, -k);
    }
  }

  lemma ShiftWhole(acc: real, m: real, n: nat, e: nat)
    requires Represents(acc, n, m) && e >= n
    ensures Scale(acc, e) == Scale(m, e - n)
  {
    hide TenTo;
    TenToAdd(n, e - n);
    Reassociate(acc, TenTo(n), TenTo(e - n));
  }

  lemma ShiftPart(acc: real, m: real, n: nat, e: nat)
    requires Represents(acc, n, m) && e < n
    ensures Scale(acc, e) == Scale(m, e - n)
  {
    hide TenTo;
    TenToAdd(e, n - e);
    Reassociate(acc, TenTo(e), TenTo(n - e));
    DivideOut(acc * TenTo(e), TenTo(n - e), m);
  }

  lemma ShiftDown(acc: real, m: real, n: nat, e: nat)
    requires Represents(acc, n, m) && e > 0
    ensures Scale(acc, 0 - e) == Scale(m, 0 - e - n)
  {
    hide TenTo;
    TenToAdd(e, n);
    var q := acc / TenTo(e);
    assert q * TenTo(e) == acc;
    Reassociate(q, TenTo(e), TenTo(n));
    DivideOut(q, TenTo(e + n), m);
  }

  lemma ScaleByPower(acc: real, e: nat)
    ensures acc * TenTo(e) == Scale(acc, e) && acc / TenTo(e) == Scale(acc, 0 - e)
  {
  }

  method ReadMantissa(s: string, j: nat) returns (acc: real, end: nat)
    requires j <= |s|
    ensures var m := ScanMantissa(s, j);
            end == m.end && AllDigits(m.whole + m.frac) && Represents(acc, |m.frac|, Val(m.whole + m.frac) as real)
  {
    hide Val, Represents;
    var w, k := ReadDigits(s, j);
    acc, end := w as real, k;
    if At(s, k) == '.' {
      acc, end := ReadFraction(s, k + 1, acc, s[j..k]);
    } else {
      FractionStart(acc);
      assert s[j..k] + "" == s[j..k];
    }
  }

  /** The exponent part: a sign, digits, and a loop that multiplies up the power of ten. */
  method ApplyExponent(s: string, from: nat, acc: real) returns (r: real)
    requires from <= |s|
    ensures var x := ScanExponent(s, from); r == Scale(acc, Signed(x.neg, Val(x.digits)))
  {
    hide Val, Scale;
    r := acc;
    if At(s, from) == 'e' || At(s, from) == 'E' {
      var eneg, x := false, from + 1;
      if At(s, x) == '-' {
        eneg := true;
        x := x + 1;
      } else if At(s, x) == '+' {
        x := x + 1;
      }
      var exp, e := ReadDigits(s, x);
      var p := 1.0;
      for i := 0 to exp
        invariant p == TenTo(i)
      {
        p := p * 10.0;
      }
      ScaleByPower(acc, exp);
      r := if eneg then acc / p else acc * p;
    } else {
      NoExponent(acc);
    }
  }

  lemma NoExponent(acc: real)
    ensures acc == Scale(acc, Signed(false, Val("")))
  {
  }

  method ToF64(s: string) returns (r: real)
    ensures r == FloatValue(ScanFloat(s))
  {
    hide Val, Represents, Scale, ScanMantissa, ScanExponent;
    var neg, j := ReadBlanksAndSign(s, true);
    var acc, end := ReadMantissa(s, j);
    r := ApplyExponent(s, end, acc);
    ghost var f := ScanFloat(s);
    ScaleShift(acc, Val(f.whole + f.frac) as real, |f.frac|, Signed(f.eneg, Val(f.exp)));
    r := if neg then -r else r;
  }

  /** A sign turns the value into its negative. */
  lemma SignNegates(f: Float)
    requires WellFormed(f)
    ensures FloatValue(f.(neg := !f.neg)) == -FloatValue(f)
  {
  }

  /**
   What the parts mean: without an exponent the value has its fraction length behind the point, and the exponent
   multiplies it up, or divides it down, by its power of ten.
   */
  lemma FloatMeans(f: Float)
    requires WellFormed(f)
    ensures AllDigits(f.whole + f.frac)
    ensures var plain := FloatValue(f.(eneg := false, exp := ""));
            && plain * TenTo(|f.frac|) == Signed(f.neg, Val(f.whole + f.frac)) as real
            && if f.eneg then FloatValue(f) * TenTo(Val(f.exp)) == plain
               else FloatValue(f) == plain * TenTo(Val(f.exp))
  {
    hide Val, Scale;
    var g := f.(neg := false);
    ConcatDigits(f.whole, f.frac);
    UnsignedMeans(g);
    if f.neg {
      SignNegates(g);
      SignNegates(g.(eneg := false, exp := ""));
      NegatedProducts(FloatValue(g), FloatValue(g.(eneg := false, exp := "")), TenTo(Val(f.exp)), TenTo(|f.frac|));
    }
  }

  lemma NegatedProducts(a: real, b: real, p: real, q: real)
    ensures (-a) * p == -(a * p) && (-b) * p == -(b * p) && (-b) * q == -(b * q)
  {
  }

  lemma UnsignedMeans(f: Float)
    requires WellFormed(f) && !f.neg
    ensures AllDigits(f.whole + f.frac)
    ensures var plain := FloatValue(f.(eneg := false, exp := ""));
            && plain * TenTo(|f.frac|) == Val(f.whole + f.frac) as real
            && if f.eneg then FloatValue(f) * TenTo(Val(f.exp)) == plain
               else FloatValue(f) == plain * TenTo(Val(f.exp))
  {
    hide Val, Scale, TenTo, Represents;
    ConcatDigits(f.whole, f.frac);
    var m, n, e := Val(f.whole + f.frac) as real, |f.frac|, Val(f.exp);
    NoDigits();
    var plain := Scale(m, 0 - n);
    ScaleDown(m, n);
    ScaleShift(plain, m, n, Signed(f.eneg, e));
    if f.eneg {
      ScaleDown(plain, e);
    } else {
      ScaleByPower(plain, e);
    }
  }

  lemma NoDigits()
    ensures AllDigits("") && Val("") == 0
  {
  }

  lemma ScaleDown(m: real, n: nat)
    ensures Scale(m, 0 - n) * TenTo(n) == m && Represents(Scale(m, 0 - n), n, m)
  {
    assert (m / TenTo(n)) * TenTo(n) == m;
  }

  lemma TenToIsPower(k: nat)
    ensures TenTo(k) == Pow(10.0, k)
  {
  }

  lemma IntScanned(n: int)
    ensures ScanFloat(IntText(n)) == Float(n < 0, NatText(if n < 0 then -n else n), "", false, "")
  {
    hide Val, SkipBlanks, SkipSign, DigitEnd, NatText;
    var s, t := IntText(n), NatText(if n < 0 then -n else n);
    var sign := if n < 0 then "-" else "";
    assert s == sign + t && s == sign + t + "";
    SignSkipped(s, n < 0, t);
    DigitsWithin(s, sign, t, "");
  }

  /** The text of an integer is read as that integer. */
  lemma IntAsFloat(n: int)
    ensures FloatValue(ScanFloat(IntText(n))) == n as real
  {
    hide Val, FloatValue, NatText, ScanFloat, IntText;
    var t := NatText(if n < 0 then -n else n);
    IntScanned(n);
    assert t + "" == t;
    FloatMeans(Float(n < 0, t, "", false, ""));
    NoDigits();
  }

  /** The text of a number with all its parts. */
  function FloatText(f: Float): string {
    (if f.neg then "-" else "") + (f.whole + "." + f.frac) + ("e" + (if f.eneg then "-" else "") + f.exp)
  }

  /** Digits in the middle of a text are found whole. */
  lemma DigitsWithin(s: string, a: string, ds: string, c: string)
    requires AllDigits(ds) && (c == "" || !IsDigit(c[0]))
    requires s == a + ds + c
    ensures DigitEnd(s, |a|) == |a| + |ds| && s[|a|..|a| + |ds|] == ds
    ensures At(s, |a| + |ds|) == if c == "" then '\0' else c[0]
    ensures ds != "" ==> At(s, |a|) == ds[0]
  {
    assert s[|a|..|a| + |ds|] == ds;
    DigitEndUnique(s, |a|, |a| + |ds|);
  }

  lemma SignSkipped(s: string, neg: bool, rest: string)
    requires s == (if neg then "-" else "") + rest
    requires rest != "" && (IsDigit(rest[0]) || rest[0] == '.')
    ensures SkipBlanks(s, 0, true) == 0
    ensures SkipSign(s, 0) == (if neg then 1 else 0) && (At(s, 0) == '-') == neg
  {
    assert s[0] == if neg then '-' else rest[0];
  }

  lemma MantissaScanned(s: string, sign: string, whole: string, frac: string, tail: string)
    requires AllDigits(whole) && AllDigits(frac)
    requires tail != "" && !IsDigit(tail[0])
    requires s == sign + whole + ("." + frac + tail) == (sign + whole + ".") + frac + tail
    ensures ScanMantissa(s, |sign|) == Mantissa(whole, frac, |sign| + |whole| + 1 + |frac|)
  {
    WholeScanned(s, sign, whole, "." + frac + tail);
    FracScanned(s, sign + whole + ".", frac, tail);
  }

  lemma WholeScanned(s: string, sign: string, whole: string, rest: string)
    requires AllDigits(whole) && rest != "" && rest[0] == '.'
    requires s == sign + whole + rest
    ensures DigitEnd(s, |sign|) == |sign| + |whole| && s[|sign|..|sign| + |whole|] == whole
    ensures At(s, |sign| + |whole|) == '.'
  {
    DigitsWithin(s, sign, whole, rest);
  }

  lemma FracScanned(s: string, head: string, frac: string, tail: string)
    requires AllDigits(frac) && tail != "" && !IsDigit(tail[0])
    requires s == head + frac + tail
    ensures DigitEnd(s, |head|) == |head| + |frac| && s[|head|..|head| + |frac|] == frac
  {
    DigitsWithin(s, head, frac, tail);
  }

  lemma ExponentScanned(s: string, before: string, neg: bool, digits: string)
    requires AllDigits(digits)
    requires s == before + ("e" + (if neg then "-" else "") + digits)
    ensures ScanExponent(s, |before|) == Exponent(neg, digits)
  {
    var head := before + "e" + (if neg then "-" else "");
    assert s == head + digits + "";
    DigitsWithin(s, head, digits, "");
    assert s[|before|] == 'e';
    assert At(s, |before| + 1) == if neg then '-' else if digits == "" then '\0' else digits[0];
  }

  lemma Regroup(sign: string, whole: string, frac: string, tail: string)
    ensures sign + (whole + "." + frac) + tail == sign + whole + ("." + frac + tail)
    ensures sign + (whole + "." + frac) + tail == (sign + whole + ".") + frac + tail
  {
  }

  /** Reading that text gives the parts back; so the value read is mantissa * 10^(exponent - fraction length). */
  lemma FloatRoundTrip(f: Float)
    requires WellFormed(f)
    ensures ScanFloat(FloatText(f)) == f
  {
    hide ScanMantissa, ScanExponent, SkipBlanks, SkipSign;
    var sign, esign := if f.neg then "-" else "", if f.eneg then "-" else "";
    var body, tail := f.whole + "." + f.frac, "e" + esign + f.exp;
    var s := FloatText(f);
    Regroup(sign, f.whole, f.frac, tail);
    assert s == sign + (body + tail);
    SignSkipped(s, f.neg, body + tail);
    MantissaScanned(s, sign, f.whole, f.frac, tail);
    ExponentScanned(s, sign + body, f.eneg, f.exp);
  }
}
