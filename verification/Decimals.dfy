/** Exact decimal arithmetic: powers of ten, magnitude, grids and rounding half away from zero.
    Doubles are modelled as reals. */
module Decimals {

  function Pow10(e: int): (p: real)
    ensures p > 0.0
    decreases if e < 0 then -e else e
  {
    if e == 0 then 1.0 else if e > 0 then 10.0 * Pow10(e - 1) else Pow10(e + 1) / 10.0
  }

  function Abs(x: real): real { if x < 0.0 then -x else x }

  predicate IsInt(x: real) { x == x.Floor as real }

  /** `std::round`: to the nearest integer, halves away from zero. */
  function RoundHalfAway(x: real): int {
    if x >= 0.0 then (x + 0.5).Floor else -((0.5 - x).Floor)
  }

  /** x is a whole number of steps p. */
  predicate OnGrid(x: real, p: real)
    requires p > 0.0
  {
    IsInt(x / p)
  }

  /** The nearest multiple of p, halves away from zero. */
  function Nearest(x: real, p: real): real
    requires p > 0.0
  {
    RoundHalfAway(x / p) as real * p
  }

  predicate Multiple(x: real, e: int) { OnGrid(x, Pow10(e)) }

  function RoundTo(x: real, e: int): real { Nearest(x, Pow10(e)) }

  /** The m with 10^m <= x < 10^(m+1), the source's floor(log10(x)). */
  function Magnitude(x: real): (m: int)
    requires x > 0.0
    ensures Pow10(m) <= x < Pow10(m + 1)
    decreases x < 1.0, if x < 1.0 then (1.0 / x).Floor else x.Floor
  {
    if x >= 10.0 then
      var m := Magnitude(x / 10.0);
      Pow10Step(m); Pow10Step(m + 1);
      m + 1
    else if x < 1.0 then
      assert 1.0 / (10.0 * x) == (1.0 / x) / 10.0;
      assert 1.0 / x > 1.0 by { Inverse(x); }
      var m := Magnitude(10.0 * x);
      Pow10Step(m - 1); Pow10Step(m);
      m - 1
    else
      assert Pow10(1) == 10.0;
      0
  }

  lemma Inverse(x: real)
    requires 0.0 < x < 1.0
    ensures 1.0 / x > 1.0
  {
    var y := 1.0 / x;
    assert y * x == 1.0;
    assert y <= 1.0 ==> y * x <= x;
  }

  // --- powers of ten ---

  lemma Pow10Step(e: int)
    ensures Pow10(e + 1) == 10.0 * Pow10(e)
  {
  }

  /** A product and a quotient, named so that proofs can keep nonlinear terms out of the way. */
  function Times(x: real, y: real): real { x * y }

  function Over(x: real, y: real): real
    requires y > 0.0
  {
    x / y
  }

  lemma Regroup(x: real, y: real, k: real)
    ensures k * (x * y) == x * (k * y) == (k * x) * y
  {
  }

  lemma TenTimes(x: real, y: real, z: real, y': real, z': real)
    requires y' == 10.0 * y && z' == 10.0 * z
    ensures z == Times(x, y) <==> z' == Times(x, y')
  {
    Regroup(x, y, 10.0);
  }

  lemma Distribute(x: real, y: real, p: real)
    ensures x * p - y * p == (x - y) * p
  {
  }

  lemma {:induction false} Pow10Add(a: int, b: int)
    ensures Pow10(a + b) == Times(Pow10(a), Pow10(b))
    decreases if b < 0 then -b else b
  {
    assert Pow10(0) == 1.0;
    assert Times(Pow10(a), 1.0) == Pow10(a);
    hide Pow10, Times;
    if b > 0 {
      Pow10Add(a, b - 1);
      Pow10Step(a + b - 1);
      Pow10Step(b - 1);
      TenTimes(Pow10(a), Pow10(b - 1), Pow10(a + b - 1), Pow10(b), Pow10(a + b));
    } else if b < 0 {
      Pow10Add(a, b + 1);
      Pow10Step(a + b);
      Pow10Step(b);
      TenTimes(Pow10(a), Pow10(b), Pow10(a + b), Pow10(b + 1), Pow10(a + b + 1));
    }
  }

  lemma {:induction false} Pow10Increases(a: int, b: int)
    requires a < b
    ensures 10.0 * Pow10(a) <= Pow10(b)
    decreases b - a
  {
    Pow10Step(b - 1);
    if a < b - 1 { Pow10Increases(a, b - 1); }
  }

  lemma Pow10Ordered(a: int, b: int)
    ensures a <= b <==> Pow10(a) <= Pow10(b)
  {
    if a < b { Pow10Increases(a, b); }
    if b < a { Pow10Increases(b, a); }
  }

  lemma {:induction false} Pow10Whole(n: nat)
    ensures IsInt(Pow10(n))
    ensures n >= 1 ==> IsInt(Pow10(n) / 2.0)
  {
    if n > 0 {
      Pow10Whole(n - 1);
      var k := Pow10(n - 1).Floor;
      assert Pow10(n) == (10 * k) as real;
      assert Pow10(n) / 2.0 == (5 * k) as real;
    }
  }

  lemma MagnitudeUnique(x: real, m: int)
    requires x > 0.0 && Pow10(m) <= x < Pow10(m + 1)
    ensures Magnitude(x) == m
  {
    var m' := Magnitude(x);
    Pow10Ordered(m + 1, m');
    Pow10Ordered(m' + 1, m);
  }

  lemma MagnitudeMonotone(x: real, y: real)
    requires 0.0 < x <= y
    ensures Magnitude(x) <= Magnitude(y)
  {
    Pow10Ordered(Magnitude(y) + 1, Magnitude(x));
  }

  // --- rounding to integers ---

  lemma RoundNear(x: real)
    ensures -0.5 <= RoundHalfAway(x) as real - x <= 0.5
    ensures RoundHalfAway(-x) == -RoundHalfAway(x)
    ensures IsInt(x) ==> RoundHalfAway(x) == x.Floor
  {
  }

  lemma RoundOrdered(x: real, y: real)
    requires x <= y
    ensures RoundHalfAway(x) <= RoundHalfAway(y)
  {
  }

  // --- grids of spacing p ---

  lemma DivMul(x: real, p: real)
    requires p > 0.0
    ensures (x / p) * p == x && (x * p) / p == x
    ensures (-x) / p == -(x / p)
  {
  }

  lemma DivOrdered(x: real, y: real, p: real)
    requires p > 0.0
    ensures x <= y <==> x / p <= y / p
    ensures x <= y <==> Times(x, p) <= Times(y, p)
  {
    DivMul(x, p);
    DivMul(y, p);
  }

  lemma GridPoint(k: int, p: real)
    requires p > 0.0
    ensures OnGrid(Times(k as real, p), p)
  {
    var x := k as real;
    DivMul(x, p);
    assert Times(x, p) / p == x;
  }

  lemma NearestOnGrid(x: real, p: real)
    requires p > 0.0
    ensures OnGrid(Nearest(x, p), p)
  {
    hide OnGrid;
    var k := RoundHalfAway(x / p);
    GridPoint(k, p);
    assert Nearest(x, p) == Times(k as real, p);
  }

  lemma NearestFixed(x: real, p: real)
    requires p > 0.0
    ensures Nearest(x, p) == x <==> OnGrid(x, p)
  {
    NearestOnGrid(x, p);
    if OnGrid(x, p) {
      RoundNear(x / p);
      DivMul(x, p);
    }
  }

  lemma NearestOrdered(x: real, y: real, p: real)
    requires p > 0.0 && x <= y
    ensures Nearest(x, p) <= Nearest(y, p)
  {
    DivOrdered(x, y, p);
    RoundOrdered(x / p, y / p);
    DivOrdered(RoundHalfAway(x / p) as real, RoundHalfAway(y / p) as real, p);
  }

  lemma HalfBound(d: real, p: real)
    requires -0.5 <= d <= 0.5 && p > 0.0
    ensures -p / 2.0 <= d * p <= p / 2.0
  {
    assert (0.5 - d) * p >= 0.0 && (d + 0.5) * p >= 0.0;
  }

  lemma ErrorBound(k: real, y: real, p: real)
    requires p > 0.0 && -0.5 <= k - y <= 0.5
    ensures Abs(k * p - y * p) <= p / 2.0
  {
    var d := k - y;
    Distribute(k, y, p);
    HalfBound(d, p);
    var e := d * p;
    assert k * p - y * p == e;
  }

  lemma NearestNear(x: real, p: real)
    requires p > 0.0
    ensures Abs(Nearest(x, p) - x) <= p / 2.0
  {
    var y, k := x / p, RoundHalfAway(x / p) as real;
    RoundNear(y);
    DivMul(x, p);
    ErrorBound(k, y, p);
    assert Nearest(x, p) == k * p && x == y * p;
  }

  lemma IntNegated(y: real)
    ensures IsInt(-y) <==> IsInt(y)
  {
    if IsInt(y) { assert -y == (-(y.Floor)) as real; }
    if IsInt(-y) { assert y == (-((-y).Floor)) as real; }
  }

  lemma ProductNegated(k: real, p: real)
    ensures (-k) * p == -(k * p)
  {
  }

  lemma NearestOdd(x: real, p: real)
    requires p > 0.0
    ensures Nearest(-x, p) == -Nearest(x, p)
    ensures OnGrid(-x, p) <==> OnGrid(x, p)
  {
    var y := x / p;
    DivMul(x, p);
    RoundNear(y);
    IntNegated(y);
    ProductNegated(RoundHalfAway(y) as real, p);
    hide RoundHalfAway, IsInt;
    assert RoundHalfAway(-y) as real == -(RoundHalfAway(y) as real);
  }

  /** Rounding to a grid never crosses a point of the grid. */
  lemma NearestStays(x: real, bound: real, p: real)
    requires p > 0.0 && OnGrid(bound, p)
    ensures x <= bound ==> Nearest(x, p) <= bound
    ensures bound <= x ==> bound <= Nearest(x, p)
  {
    hide Nearest, OnGrid;
    NearestFixed(bound, p);
    if x <= bound { NearestOrdered(x, bound, p); }
    if bound <= x { NearestOrdered(bound, x, p); }
  }

  lemma Nested(x: real, p: real, q: real, k: int, n: int)
    requires x == k as real * p && p == q * n as real
    ensures x == (k * n) as real * q
  {
    Regroup(n as real, q, k as real);
  }

  lemma FinerGrid(x: real, p: real, q: real, n: real)
    requires q > 0.0 && p > 0.0 && p == Times(q, n) && IsInt(n) && OnGrid(x, p)
    ensures OnGrid(x, q)
  {
    var k := (x / p).Floor;
    DivMul(x, p);
    Nested(x, p, q, k, n.Floor);
    DivMul((k * n.Floor) as real, q);
    assert x / q == (k * n.Floor) as real;
  }

  // --- decimal grids ---

  /** A multiple of a coarser power of ten is one of every finer power. */
  lemma MultipleFiner(x: real, e: int, f: int)
    requires f <= e && Multiple(x, e)
    ensures Multiple(x, f)
  {
    Pow10Add(f, e - f);
    Pow10Whole(e - f);
    hide Pow10, OnGrid, Times;
    FinerGrid(x, Pow10(e), Pow10(f), Pow10(e - f));
  }

  lemma Pow10Multiple(a: int, e: int)
    requires e <= a
    ensures Multiple(Pow10(a), e)
  {
    GridPoint(1, Pow10(a));
    MultipleFiner(Pow10(a), a, e);
  }
}
