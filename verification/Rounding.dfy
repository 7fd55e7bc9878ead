/** Error analysis of a float sum of scaled terms, in exact real arithmetic. */
module Rounding {
  import opened Float64

  function Abs(x: real): real { if x < 0.0 then -x else x }

  function RealPow(x: real, n: nat): real { if n == 0 then 1.0 else x * RealPow(x, n - 1) }

  /** A binary format where it is normal: relative error at most u between lo and hi. */
  datatype Format = Format(u: real, lo: real, hi: real)

  /** Round-to-nearest (section 4.3.1 of IEEE 754-2019) of non-negative results; nothing is
      said below the normal range or above the largest finite number. */
  ghost predicate Rounds(fp: Fp, f: Format) {
    && 0.0 <= f.u <= 1.0 && 0.0 < f.lo && fp.rnd(0.0) == 0.0
    && forall x :: f.lo <= x <= f.hi ==> x - f.u * x <= fp.rnd(x) <= x + f.u * x
  }

  /** x is `exact` after at most n roundings. */
  ghost predicate Near(x: real, exact: real, u: real, n: nat) {
    exact * RealPow(1.0 - u, n) <= x <= exact * RealPow(1.0 + u, n)
  }

  /** Every value within n roundings of `exact` stays in the normal range, or is zero. */
  ghost predicate Safe(f: Format, exact: real, n: nat) {
    exact == 0.0 || (f.lo <= exact * RealPow(1.0 - f.u, n) && exact * RealPow(1.0 + f.u, n) <= f.hi)
  }

  /** The same for a whole interval, from its ends. */
  ghost predicate Spans(f: Format, least: real, most: real, n: nat) {
    f.lo <= least * RealPow(1.0 - f.u, n) && most * RealPow(1.0 + f.u, n) <= f.hi
  }

  /** x is within relative error eps of `exact`. */
  ghost predicate RelativeError(x: real, exact: real, eps: real) {
    Abs(x - exact) <= eps * exact
  }

  lemma MulNonneg(x: real, y: real)
    requires x >= 0.0 && y >= 0.0
    ensures x * y >= 0.0
  {
  }

  lemma MulLe(x: real, y: real, z: real)
    requires x <= y && z >= 0.0
    ensures x * z <= y * z
  {
    MulNonneg(y - x, z);
    assert (y - x) * z == y * z - x * z;
  }

  lemma Grow(u: real, p: real)
    requires u >= 0.0 && p >= 0.0
    ensures (1.0 + u) * p == p + u * p && u * p >= 0.0
  {
    MulNonneg(u, p);
  }

  lemma Shrink(u: real, p: real)
    requires 0.0 <= u <= 1.0 && p >= 0.0
    ensures (1.0 - u) * p == p - u * p && 0.0 <= u * p <= p
  {
    MulNonneg(u, p);
    MulNonneg(1.0 - u, p);
  }

  lemma StepOne(u: real, p: real, q: real)
    requires 0.0 <= u <= 1.0 && p >= 1.0 && 0.0 <= q <= 1.0
    ensures (1.0 + u) * p >= 1.0 && 0.0 <= (1.0 - u) * q <= 1.0
  {
    Grow(u, p);
    Shrink(u, q);
  }

  lemma {:induction false} PowOne(u: real, n: nat)
    requires 0.0 <= u <= 1.0
    ensures RealPow(1.0 + u, n) >= 1.0
    ensures 0.0 <= RealPow(1.0 - u, n) <= 1.0
  {
    if n > 0 {
      PowOne(u, n - 1);
      StepOne(u, RealPow(1.0 + u, n - 1), RealPow(1.0 - u, n - 1));
    }
  }

  lemma {:induction false} PowGrows(u: real, m: nat, n: nat)
    requires 0.0 <= u <= 1.0 && m <= n
    ensures RealPow(1.0 + u, m) <= RealPow(1.0 + u, n)
    ensures RealPow(1.0 - u, n) <= RealPow(1.0 - u, m)
    decreases n - m
  {
    if m < n {
      PowGrows(u, m, n - 1);
      PowOne(u, n - 1);
      Grow(u, RealPow(1.0 + u, n - 1));
      Shrink(u, RealPow(1.0 - u, n - 1));
    }
  }

  /** The lower factor is no further from 1 than the upper one. */
  lemma {:induction false} PowBalance(u: real, n: nat)
    requires 0.0 <= u <= 1.0
    ensures RealPow(1.0 - u, n) + RealPow(1.0 + u, n) >= 2.0
    ensures RealPow(1.0 - u, n) <= RealPow(1.0 + u, n)
  {
    if n > 0 {
      var p, q := RealPow(1.0 - u, n - 1), RealPow(1.0 + u, n - 1);
      PowBalance(u, n - 1);
      PowOne(u, n - 1);
      Grow(u, q);
      Shrink(u, p);
      MulLe(p, q, u);
      Commute(u, p);
      Commute(u, q);
    }
  }

  lemma Commute(x: real, y: real)
    ensures x * y == y * x
  {
  }

  lemma Assoc(x: real, y: real, z: real)
    ensures (x * y) * z == x * (y * z)
  {
  }

  lemma Distribute(a: real, b: real, p: real)
    ensures (a + b) * p == a * p + b * p
  {
  }

  /** One rounding of x, with the bounds of x carried along. */
  lemma RoundBetween(fp: Fp, f: Format, x: real, least: real, most: real)
    requires Rounds(fp, f) && f.lo <= least <= x <= most <= f.hi
    ensures (1.0 - f.u) * least <= fp.rnd(x) <= (1.0 + f.u) * most
  {
    var u := f.u;
    assert x - u * x <= fp.rnd(x) <= x + u * x;
    Grow(u, x);
    Shrink(u, x);
    MulLe(least, x, 1.0 - u);
    MulLe(x, most, 1.0 + u);
    Commute(x, 1.0 - u);
    Commute(least, 1.0 - u);
    Commute(x, 1.0 + u);
    Commute(most, 1.0 + u);
  }

  lemma Factor(u: real, exact: real, n: nat)
    ensures (1.0 + u) * (exact * RealPow(1.0 + u, n)) == exact * RealPow(1.0 + u, n + 1)
    ensures (1.0 - u) * (exact * RealPow(1.0 - u, n)) == exact * RealPow(1.0 - u, n + 1)
  {
    FactorOut(1.0 + u, exact, RealPow(1.0 + u, n));
    FactorOut(1.0 - u, exact, RealPow(1.0 - u, n));
  }

  lemma FactorOut(x: real, y: real, z: real)
    ensures x * (y * z) == y * (x * z)
  {
    Assoc(x, y, z);
    Commute(x, y);
    Assoc(y, x, z);
  }

  lemma NearZero(x: real, u: real, n: nat)
    ensures Near(x, 0.0, u, n) <==> x == 0.0
  {
  }

  /** One more rounding. */
  lemma RoundNear(fp: Fp, f: Format, x: real, exact: real, n: nat, limit: nat)
    requires Rounds(fp, f) && exact >= 0.0 && Near(x, exact, f.u, n)
    requires n <= limit && Safe(f, exact, limit)
    ensures Near(fp.rnd(x), exact, f.u, n + 1)
  {
    assert 0.0 <= f.u <= 1.0 && fp.rnd(0.0) == 0.0;
    hide Rounds;
    hide RealPow;
    hide Near;
    hide Safe;
    if exact == 0.0 {
      NearZero(x, f.u, n);
      NearZero(0.0, f.u, n + 1);
    } else {
      WithinRange(f, exact, n, limit);
      RoundPositive(fp, f, x, exact, n);
    }
  }

  lemma RoundPositive(fp: Fp, f: Format, x: real, exact: real, n: nat)
    requires Rounds(fp, f) && Near(x, exact, f.u, n)
    requires f.lo <= exact * RealPow(1.0 - f.u, n) && exact * RealPow(1.0 + f.u, n) <= f.hi
    ensures Near(fp.rnd(x), exact, f.u, n + 1)
  {
    hide Rounds;
    hide RealPow;
    RoundBetween(fp, f, x, exact * RealPow(1.0 - f.u, n), exact * RealPow(1.0 + f.u, n));
    Factor(f.u, exact, n);
  }

  lemma WithinRange(f: Format, exact: real, n: nat, limit: nat)
    requires 0.0 <= f.u <= 1.0 && n <= limit
    requires exact > 0.0 && Safe(f, exact, limit)
    ensures f.lo <= exact * RealPow(1.0 - f.u, n) && exact * RealPow(1.0 + f.u, n) <= f.hi
  {
    hide RealPow;
    PowGrows(f.u, n, limit);
    Squeeze(exact, f.lo, f.hi, RealPow(1.0 - f.u, limit), RealPow(1.0 + f.u, limit),
            RealPow(1.0 - f.u, n), RealPow(1.0 + f.u, n));
  }

  lemma Squeeze(e: real, lo: real, hi: real, p: real, q: real, p': real, q': real)
    requires e >= 0.0 && lo <= e * p && e * q <= hi && p <= p' && q' <= q
    ensures lo <= e * p' && e * q' <= hi
  {
    ScaleLe(e, p, p');
    ScaleLe(e, q', q);
  }

  lemma ScaleLe(e: real, x: real, y: real)
    requires e >= 0.0 && x <= y
    ensures e * x <= e * y
  {
    MulLe(x, y, e);
    Commute(e, x);
    Commute(e, y);
  }

  lemma SpansSafe(f: Format, least: real, exact: real, most: real, n: nat)
    requires 0.0 <= f.u <= 1.0 && 0.0 <= least <= exact <= most && Spans(f, least, most, n)
    ensures Safe(f, exact, n)
  {
    hide RealPow;
    PowOne(f.u, n);
    MulLe(least, exact, RealPow(1.0 - f.u, n));
    MulLe(exact, most, RealPow(1.0 + f.u, n));
  }

  lemma ScaleOne(x: real, exact: real, p: real, c: real)
    ensures (exact * c) * p == (exact * p) * c
  {
    Assoc(exact, c, p);
    Commute(c, p);
    Assoc(exact, p, c);
  }

  lemma ScaleNear(x: real, exact: real, u: real, n: nat, c: real)
    requires Near(x, exact, u, n) && c >= 0.0
    ensures Near(Times(x, c), Times(exact, c), u, n)
  {
    MulLe(exact * RealPow(1.0 - u, n), x, c);
    MulLe(x, exact * RealPow(1.0 + u, n), c);
    ScaleOne(x, exact, RealPow(1.0 - u, n), c);
    ScaleOne(x, exact, RealPow(1.0 + u, n), c);
  }

  lemma Widen(x: real, e: real, lo: real, hi: real, lo': real, hi': real)
    requires e >= 0.0 && lo' <= lo && hi <= hi' && e * lo <= x <= e * hi
    ensures e * lo' <= x <= e * hi'
  {
    ScaleLe(e, lo', lo);
    ScaleLe(e, hi, hi');
  }

  lemma WidenNear(x: real, exact: real, u: real, m: nat, n: nat)
    requires 0.0 <= u <= 1.0 && m <= n && exact >= 0.0 && Near(x, exact, u, m)
    ensures Near(x, exact, u, n)
  {
    hide RealPow;
    PowGrows(u, m, n);
    Widen(x, exact, RealPow(1.0 - u, m), RealPow(1.0 + u, m), RealPow(1.0 - u, n), RealPow(1.0 + u, n));
  }

  lemma AddNear(x: real, y: real, a: real, b: real, u: real, n: nat)
    requires Near(x, a, u, n) && Near(y, b, u, n)
    ensures Near(x + y, a + b, u, n)
  {
    Distribute(a, b, RealPow(1.0 - u, n));
    Distribute(a, b, RealPow(1.0 + u, n));
  }

  lemma ExactNear(x: real, u: real)
    ensures Near(x, x, u, 0)
  {
  }

  /** Nearness as a relative error. */
  lemma NearError(x: real, exact: real, u: real, n: nat)
    requires 0.0 <= u <= 1.0 && exact >= 0.0 && Near(x, exact, u, n)
    ensures RelativeError(x, exact, RealPow(1.0 + u, n) - 1.0)
  {
    var lo, hi := RealPow(1.0 - u, n), RealPow(1.0 + u, n);
    PowBalance(u, n);
    MulLe(1.0 - lo, hi - 1.0, exact);
    Distribute(1.0, -lo, exact);
    Distribute(hi, -1.0, exact);
    Commute(exact, lo);
    Commute(exact, hi);
  }

  lemma DivideAndRound(fp: Fp, f: Format, x: real, exact: real, n: nat, limit: nat)
    requires Rounds(fp, f) && Near(x, exact, f.u, n) && exact >= 0.0
    requires n <= limit && Safe(f, exact / 1000000000.0, limit)
    ensures Near(fp.rnd(x / 1000000000.0), exact / 1000000000.0, f.u, n + 1)
  {
    hide Rounds;
    assert Near(x / 1000000000.0, exact / 1000000000.0, f.u, n);
    RoundNear(fp, f, x / 1000000000.0, exact / 1000000000.0, n, limit);
  }

  lemma MultiplyAndRound(fp: Fp, f: Format, x: real, exact: real, n: nat, c: real, limit: nat)
    requires Rounds(fp, f) && Near(x, exact, f.u, n) && exact >= 0.0 && c >= 0.0
    requires n <= limit && Safe(f, Times(exact, c), limit)
    ensures Near(fp.rnd(Times(x, c)), Times(exact, c), f.u, n + 1)
  {
    ScaleNear(x, exact, f.u, n, c);
    MulNonneg(exact, c);
    assert Times(exact, c) >= 0.0;
    hide Rounds;
    hide Near;
    hide Safe;
    hide Times;
    RoundNear(fp, f, Times(x, c), Times(exact, c), n, limit);
  }

  lemma ThreeRoundings(fp: Fp, f: Format, b: real, rate: real, limit: nat)
    requires Rounds(fp, f) && b >= 0.0 && rate >= 0.0 && limit >= 3
    requires Safe(f, b, limit) && Safe(f, b / 1000000000.0, limit) && Safe(f, Times(b / 1000000000.0, rate), limit)
    ensures Near(fp.rnd(Times(fp.rnd(fp.rnd(b) / 1000000000.0), rate)), Times(b / 1000000000.0, rate), f.u, 3)
  {
    hide Near;
    hide Rounds;
    hide Safe;
    hide Times;
    ExactNear(b, f.u);
    RoundNear(fp, f, b, b, 0, limit);
    DivideAndRound(fp, f, fp.rnd(b), b, 1, limit);
    MultiplyAndRound(fp, f, fp.rnd(fp.rnd(b) / 1000000000.0), b / 1000000000.0, 2, rate, limit);
  }
}
