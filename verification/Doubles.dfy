/** Rounding to double precision, as far as sums of coordinates depend on it. A double is a
    53-bit integer times a power of two; a sum is rounded to a nearest double. */
module Doubles {
  const PRECISION := 0x20_0000_0000_0000

  type Round = real -> real

  function Ceil(x: real): int { -(-x).Floor }

  /** Rounding keeps the order and leaves every integer of at most 53 bits alone. */
  ghost predicate Rounding(round: Round) {
    && (forall x, y :: x <= y ==> round(x) <= round(y))
    && (forall n :: -PRECISION <= n <= PRECISION ==> Fixes(round, n))
  }

  predicate Fixes(round: Round, n: int) { round(n as real) == n as real }

  function Same(x: real): real { x }

  // ---- what it does to whole numbers ----

  /** Rounding moves a number to the next smaller whole number at most, and never past the next
      larger one. */
  lemma CeilRounded(round: Round, m: real)
    requires Rounding(round) && -PRECISION as real <= m <= PRECISION as real
    ensures Ceil(m) - 1 <= Ceil(round(m)) <= Ceil(m)
    ensures Ceil(round(m)) < Ceil(m) <==> round(m) == (Ceil(m) - 1) as real
  {
    var n := Ceil(m);
    assert (n - 1) as real < m <= n as real;
    if n - 1 >= -PRECISION {
      assert Fixes(round, n - 1);
    } else {
      assert n == -PRECISION && m == n as real;
    }
    assert Fixes(round, n);
  }

  /** A rounded number below a small whole number was below it or at most rounded down to it. */
  lemma RoundedBelow(round: Round, m: real, n: int)
    requires Rounding(round) && -PRECISION <= n < PRECISION && round(m) <= n as real
    ensures m < (n + 1) as real
  {
    assert Fixes(round, n + 1);
  }

  // ---- doubles ----

  function Power(e: int): (r: real)
    ensures r > 0.0
    decreases if e < 0 then -e else e
  {
    if e == 0 then 1.0 else if e > 0 then 2.0 * Power(e - 1) else Power(e + 1) / 2.0
  }

  predicate Scale(m: int, e: int) { -PRECISION < m < PRECISION && -1074 <= e <= 971 }

  function Value(m: int, e: int): real { m as real * Power(e) }

  ghost predicate IsDouble(x: real) { exists m, e :: Scale(m, e) && x == Value(m, e) }

  function Distance(x: real, y: real): real { if x <= y then y - x else x - y }

  ghost predicate IsNearest(r: real, x: real) {
    IsDouble(r) && forall g :: IsDouble(g) ==> Distance(x, r) <= Distance(x, g)
  }

  /** Every result is a double, and none is nearer; ties may go either way. Sums beyond the
      largest double stay there, where the program has an infinity: both are off any screen. */
  ghost predicate RoundsToNearest(round: Round) { forall x :: IsNearest(round(x), x) }

  lemma NearestOrder(x: real, y: real, a: real, b: real)
    requires x < y && IsNearest(a, x) && IsNearest(b, y)
    ensures a <= b
  {
    assert Distance(x, a) <= Distance(x, b) && Distance(y, b) <= Distance(y, a);
  }

  lemma WholeDouble(n: int)
    requires -PRECISION <= n <= PRECISION
    ensures IsDouble(n as real)
  {
    if n == PRECISION {
      assert Power(1) == 2.0 && Scale(PRECISION / 2, 1) && Value(PRECISION / 2, 1) == n as real;
    } else if n == -PRECISION {
      assert Power(1) == 2.0 && Scale(-(PRECISION / 2), 1) && Value(-(PRECISION / 2), 1) == n as real;
    } else {
      assert Power(0) == 1.0 && Scale(n, 0) && Value(n, 0) == n as real;
    }
  }

  /** Rounding to nearest is a rounding in the sense above, whatever it does with ties. */
  lemma NearestRounds(round: Round)
    requires RoundsToNearest(round)
    ensures Rounding(round)
  {
    forall x, y | x <= y ensures round(x) <= round(y) {
      assert IsNearest(round(x), x) && IsNearest(round(y), y);
      if x < y {
        NearestOrder(x, y, round(x), round(y));
      }
    }
    forall n | -PRECISION <= n <= PRECISION ensures Fixes(round, n) {
      WholeDouble(n);
      assert IsNearest(round(n as real), n as real);
      assert Distance(n as real, round(n as real)) <= Distance(n as real, n as real);
    }
  }

  // ---- there is such a rounding ----

  ghost function AllDoubles(): set<real> {
    set m: int, e: int | -PRECISION < m < PRECISION && -1074 <= e <= 971 :: Value(m, e)
  }

  lemma AllDoublesIff(x: real)
    ensures x in AllDoubles() <==> IsDouble(x)
  {
    if IsDouble(x) {
      var m, e :| Scale(m, e) && x == Value(m, e);
    }
    if x in AllDoubles() {
      var m, e :| -PRECISION < m < PRECISION && -1074 <= e <= 971 && x == Value(m, e);
      assert Scale(m, e);
    }
  }

  lemma Inhabited(s: set<real>)
    ensures s == {} || exists g :: g in s
  {
    if forall g :: g !in s {
      assert s == {};
    }
  }

  lemma Closest(s: set<real>, x: real) returns (r: real)
    requires s != {}
    ensures r in s && forall g :: g in s ==> Distance(x, r) <= Distance(x, g)
    decreases s
  {
    Inhabited(s);
    r :| r in s;
    var rest := s - {r};
    if rest != {} {
      var other := Closest(rest, x);
      if Distance(x, other) < Distance(x, r) {
        r := other;
      }
    }
  }

  lemma NearestExists(x: real)
    ensures exists r :: IsNearest(r, x)
  {
    WholeDouble(0);
    AllDoublesIff(0.0);
    var r := Closest(AllDoubles(), x);
    AllDoublesIff(r);
    forall g | IsDouble(g) ensures Distance(x, r) <= Distance(x, g) {
      AllDoublesIff(g);
    }
    assert IsNearest(r, x);
  }

  ghost function Nearest(x: real): (r: real)
    ensures IsNearest(r, x)
  {
    NearestExists(x);
    var r :| IsNearest(r, x); r
  }

  lemma NearestIsOne()
    ensures RoundsToNearest((x: real) => Nearest(x))
  {
  }

  // ---- the doubles around one hundred ----

  lemma PowerSplit(e: int, k: nat)
    ensures Power(e + k) == Power(e) * Power(k)
    decreases k
  {
    hide Power;
    if k == 0 {
      PowerNone();
    } else {
      PowerSplit(e, k - 1);
      PowerNext(e + k - 1);
      PowerNext(k - 1);
      assert Power(e) * (2.0 * Power(k - 1)) == 2.0 * (Power(e) * Power(k - 1));
    }
  }

  lemma PowerNone()
    ensures Power(0) == 1.0
  {
  }

  lemma PowerNext(e: int)
    ensures Power(e + 1) == 2.0 * Power(e)
  {
  }

  function Two(k: nat): (r: nat)
    ensures r > 0
  {
    if k == 0 then 1 else 2 * Two(k - 1)
  }

  lemma PowerWhole(k: nat)
    ensures Power(k) == Two(k) as real
  {
    if k > 0 {
      PowerWhole(k - 1);
    }
  }

  lemma PowerGrows(e: int, f: int)
    requires e <= f
    ensures Power(e) <= Power(f)
    decreases f - e
  {
    if e < f {
      PowerGrows(e, f - 1);
      PowerNext(f - 1);
    }
  }

  /** The spacing of doubles between 64 and 128. */
  function Spacing(): (r: real)
    ensures r > 0.0
  {
    Power(-46)
  }

  /** No double lies strictly between one hundred and the next one. */
  lemma GapAboveHundred(g: real)
    requires IsDouble(g) && g > 100.0
    ensures g >= 100.0 + Spacing()
  {
    hide Power;
    var m, e :| Scale(m, e) && g == Value(m, e);
    StepSize();
    if e >= -46 {
      CoarseDouble(m, e);
      MultipleGap(m * Two(e + 46));
    } else {
      PowerGrows(e, -47);
      PowerNext(-47);
      SmallDouble(m, Power(e));
    }
  }

  /** A double that is not finer than the step is a multiple of it. */
  lemma CoarseDouble(m: int, e: int)
    requires e >= -46
    ensures Value(m, e) == (m * Two(e + 46)) as real * Spacing()
  {
    hide Power;
    var k := e + 46;
    PowerSplit(-46, k);
    PowerWhole(k);
    Regroup(m, Spacing(), Two(k));
  }

  lemma Regroup(m: int, s: real, t: int)
    ensures m as real * (s * t as real) == (m * t) as real * s
  {
    assert (m * t) as real == m as real * t as real;
  }

  /** A double finer than the step is too small. */
  lemma SmallDouble(m: int, p: real)
    requires m < PRECISION && 0.0 < p <= Spacing() / 2.0 && Spacing() * 0x4000_0000_0000 as real == 1.0
    ensures m as real * p <= 64.0
  {
    Larger(m as real, PRECISION as real, p);
    Larger(p, Spacing() / 2.0, PRECISION as real);
    assert PRECISION as real * (Spacing() / 2.0) == 64.0;
  }

  lemma Larger(a: real, b: real, c: real)
    requires a <= b && c >= 0.0
    ensures a * c <= b * c
  {
    assert (b - a) * c >= 0.0;
  }

  lemma StepSize()
    ensures Spacing() * 0x4000_0000_0000 as real == 1.0
  {
    PowerSplit(-46, 46);
    PowerWhole(46);
    TwoSteps();
  }

  lemma TwoSteps()
    ensures Two(46) == 0x4000_0000_0000
  {
    TwoSplit(23, 23);
    assert Two(23) == 0x80_0000 by {
      assert Two(10) == 0x400;
      TwoSplit(10, 10);
      TwoSplit(20, 3);
    }
  }

  lemma TwoSplit(a: nat, b: nat)
    ensures Two(a + b) == Two(a) * Two(b)
    decreases b
  {
    if b > 0 {
      TwoSplit(a, b - 1);
      assert a + b - 1 == a + (b - 1);
      assert Two(a) * (2 * Two(b - 1)) == 2 * (Two(a) * Two(b - 1));
    }
  }

  lemma MultipleGap(n: int)
    requires Spacing() * 0x4000_0000_0000 as real == 1.0
    ensures n as real * Spacing() > 100.0 ==> n as real * Spacing() >= 100.0 + Spacing()
  {
    var s, h := Spacing(), 100 * 0x4000_0000_0000;
    assert h as real * s == 100.0;
    if n <= h {
      assert (h - n) as real * s >= 0.0;
      assert (h - n) as real * s == h as real * s - n as real * s;
    } else {
      assert (n - h - 1) as real * s >= 0.0;
      assert (n - h - 1) as real * s == n as real * s - h as real * s - s;
    }
  }

  /** A sum that exceeds one hundred by less than half a step is rounded to one hundred. */
  lemma HundredAbsorbs(round: Round, w: real)
    requires RoundsToNearest(round) && 0.0 <= w < Spacing() / 2.0
    ensures round(100.0 + w) == 100.0
  {
    WholeDouble(100);
    var r := round(100.0 + w);
    assert IsNearest(r, 100.0 + w);
    assert Distance(100.0 + w, r) <= Distance(100.0 + w, 100.0);
    if r > 100.0 {
      GapAboveHundred(r);
    }
  }
}
