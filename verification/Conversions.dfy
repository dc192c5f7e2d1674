/** Price and size rounding of tools/conversions.cpp, in exact arithmetic. */
module Conversions {
  import opened Decimals

  /** Integer prices above 100k are passed through. */
  predicate Bypasses(price: real) { price > 100000.0 && IsInt(price) }

  function PriceMagnitude(price: real): int {
    if price == 0.0 then 0 else Magnitude(Abs(price))
  }

  function MaxDecimals(isSpot: bool): int { if isSpot then 8 else 6 }

  function RoundPrice(price: real, szDecimals: int, isSpot: bool): real {
    if Bypasses(price) then price
    else
      var scale := Pow10(PriceMagnitude(price) - 4);
      var sigFigsPrice := Nearest(price, scale);
      var multiplier := Pow10(MaxDecimals(isSpot) - szDecimals);
      RoundScaled(sigFigsPrice, multiplier)
  }

  function RoundSize(size: real, szDecimals: int): real {
    RoundScaled(size, Pow10(szDecimals))
  }

  function RoundScaled(x: real, multiplier: real): real
    requires multiplier > 0.0
  {
    Over(RoundHalfAway(Times(x, multiplier)) as real, multiplier)
  }

  // --- the two stages as roundings to decimal grids ---

  function Max(a: int, b: int): int { if a < b then b else a }

  /** Exponent of the decimal grid: 10^(szDecimals - maxDecimals). */
  function GridExponent(szDecimals: int, isSpot: bool): int { szDecimals - MaxDecimals(isSpot) }

  function SigFigs(x: real): real { RoundTo(x, PriceMagnitude(x) - 4) }

  /** Five significant figures, then the grid 10^d: `RoundPrice` without the pass-through. */
  function TwoStage(x: real, d: int): real { RoundTo(SigFigs(x), d) }

  /** Exponent of the coarser of the two grids at x. */
  function TickExponent(x: real, d: int): int
    requires x != 0.0
  {
    Max(Magnitude(Abs(x)) - 4, d)
  }

  lemma ScaledRounding(x: real, m: real, p: real)
    requires m > 0.0 && p > 0.0 && Times(p, m) == 1.0
    ensures RoundScaled(x, m) == Nearest(x, p)
  {
    var y := Times(x, m);
    ByReciprocal(x, p, m);
    ByReciprocal(RoundHalfAway(y) as real, m, p);
  }

  lemma ByReciprocal(x: real, p: real, m: real)
    requires p > 0.0 && Times(p, m) == 1.0
    ensures Over(x, p) == Times(x, m)
    ensures Times(m, p) == 1.0
  {
    Regroup(x, m, p);
    DivMul(x * m, p);
  }

  lemma MultiplierForm(x: real, decimals: int)
    ensures RoundScaled(x, Pow10(decimals)) == RoundTo(x, -decimals)
  {
    Pow10Add(-decimals, decimals);
    assert Pow10(0) == 1.0;
    hide Pow10, Nearest, RoundScaled, Times;
    ScaledRounding(x, Pow10(decimals), Pow10(-decimals));
  }

  lemma RoundPriceForm(price: real, szDecimals: int, isSpot: bool)
    requires !Bypasses(price)
    ensures RoundPrice(price, szDecimals, isSpot) == TwoStage(price, GridExponent(szDecimals, isSpot))
  {
    hide Pow10, Nearest, RoundScaled;
    MultiplierForm(SigFigs(price), MaxDecimals(isSpot) - szDecimals);
  }

  // --- stage one ---

  lemma SigFigsRange(x: real)
    requires x > 0.0
    ensures var m := Magnitude(x);
            && Pow10(m) <= SigFigs(x) <= Pow10(m + 1)
            && Multiple(SigFigs(x), m - 4)
  {
    hide Pow10, Nearest, OnGrid;
    var m := Magnitude(x);
    Pow10Multiple(m, m - 4);
    Pow10Multiple(m + 1, m - 4);
    NearestStays(x, Pow10(m), Pow10(m - 4));
    NearestStays(x, Pow10(m + 1), Pow10(m - 4));
    NearestOnGrid(x, Pow10(m - 4));
  }

  lemma TwoStageOdd(x: real, d: int)
    ensures TwoStage(-x, d) == -TwoStage(x, d) && SigFigs(-x) == -SigFigs(x)
  {
    hide Pow10, Nearest;
    NearestOdd(x, Pow10(PriceMagnitude(x) - 4));
    NearestOdd(SigFigs(x), Pow10(d));
  }

  lemma TwoStageOfZero(d: int)
    ensures TwoStage(0.0, d) == 0.0 && SigFigs(0.0) == 0.0
  {
    hide Pow10;
    ZeroFixed(Pow10(-4));
    ZeroFixed(Pow10(d));
  }

  lemma ZeroFixed(p: real)
    requires p > 0.0
    ensures Nearest(0.0, p) == 0.0 && OnGrid(0.0, p)
  {
    assert 0.0 / p == 0.0;
  }

  // --- where results lie ---

  /** x lies on both grids, that is on the coarser one. */
  predicate OnTick(x: real, d: int) {
    x != 0.0 ==> Multiple(x, TickExponent(x, d))
  }

  lemma PositiveOnTick(x: real, d: int)
    requires x > 0.0
    ensures TwoStage(x, d) >= 0.0 && OnTick(TwoStage(x, d), d)
  {
    hide Pow10, Nearest, OnGrid;
    var m, v, r := Magnitude(x), SigFigs(x), TwoStage(x, d);
    SigFigsRange(x);
    NearestOnGrid(v, Pow10(d));
    ZeroFixed(Pow10(d));
    NearestStays(v, 0.0, Pow10(d));
    if r > 0.0 {
      if d <= m - 4 {
        MultipleFiner(v, m - 4, d);
        NearestFixed(v, Pow10(d));
        if v < Pow10(m + 1) {
          MagnitudeUnique(v, m);
        } else {
          Pow10Step(m + 1);
          MagnitudeUnique(v, m + 1);
          Pow10Multiple(m + 1, m - 3);
        }
      } else {
        var top := Max(m + 1, d);
        Pow10Ordered(m + 1, top);
        Pow10Multiple(top, d);
        NearestStays(v, Pow10(top), Pow10(d));
        Pow10Ordered(Magnitude(r), top);
      }
    }
  }

  /** Every rounded price that is not passed through lies on both grids at its own magnitude, also
      when rounding carries it into the next decade. */
  lemma ResultOnTick(price: real, szDecimals: int, isSpot: bool)
    requires !Bypasses(price)
    ensures OnTick(RoundPrice(price, szDecimals, isSpot), GridExponent(szDecimals, isSpot))
  {
    hide Pow10, Nearest, OnGrid, TwoStage, SigFigs, RoundPrice;
    var d := GridExponent(szDecimals, isSpot);
    RoundPriceForm(price, szDecimals, isSpot);
    if price > 0.0 {
      PositiveOnTick(price, d);
    } else if price < 0.0 {
      PositiveOnTick(-price, d);
      var r := TwoStage(-price, d);
      TwoStageOdd(-price, d);
      if r != 0.0 { NearestOdd(r, Pow10(TickExponent(r, d))); }
    } else {
      TwoStageOfZero(d);
    }
  }

  lemma OnTickFixed(x: real, d: int)
    requires OnTick(x, d)
    ensures TwoStage(x, d) == x
  {
    if x == 0.0 {
      TwoStageOfZero(d);
    } else {
      hide Pow10, Nearest, OnGrid;
      var t := TickExponent(x, d);
      MultipleFiner(x, t, PriceMagnitude(x) - 4);
      MultipleFiner(x, t, d);
      NearestFixed(x, Pow10(PriceMagnitude(x) - 4));
      NearestFixed(x, Pow10(d));
    }
  }

  /** The fixed points are exactly the passed-through prices and the points of the coarser grid. */
  lemma RoundPriceFixedIff(price: real, szDecimals: int, isSpot: bool)
    ensures RoundPrice(price, szDecimals, isSpot) == price
       <==> Bypasses(price) || OnTick(price, GridExponent(szDecimals, isSpot))
  {
    hide Pow10, Nearest, OnGrid, TwoStage, OnTick;
    if !Bypasses(price) {
      RoundPriceForm(price, szDecimals, isSpot);
      ResultOnTick(price, szDecimals, isSpot);
      if OnTick(price, GridExponent(szDecimals, isSpot)) {
        OnTickFixed(price, GridExponent(szDecimals, isSpot));
      }
    }
  }

  /** Rounding twice is rounding once, for every price, any number of size decimals. */
  lemma RoundPriceIdempotent(price: real, szDecimals: int, isSpot: bool)
    ensures var r := RoundPrice(price, szDecimals, isSpot);
            RoundPrice(r, szDecimals, isSpot) == r
  {
    hide Pow10, Nearest, OnGrid, TwoStage, OnTick;
    if !Bypasses(price) {
      ResultOnTick(price, szDecimals, isSpot);
      RoundPriceFixedIff(RoundPrice(price, szDecimals, isSpot), szDecimals, isSpot);
    }
  }

  // --- order ---

  lemma SigFigsOrderedPositive(x: real, y: real)
    requires 0.0 < x <= y
    ensures 0.0 < SigFigs(x) <= SigFigs(y)
  {
    hide Pow10, Nearest, OnGrid;
    SigFigsRange(x);
    SigFigsRange(y);
    MagnitudeMonotone(x, y);
    if Magnitude(x) == Magnitude(y) {
      NearestOrdered(x, y, Pow10(Magnitude(x) - 4));
    } else {
      Pow10Ordered(Magnitude(x) + 1, Magnitude(y));
    }
  }

  lemma SigFigsOrdered(x: real, y: real)
    requires x <= y
    ensures SigFigs(x) <= SigFigs(y)
  {
    hide SigFigs;
    TwoStageOdd(x, 0);
    TwoStageOdd(y, 0);
    TwoStageOfZero(0);
    if 0.0 < x {
      SigFigsOrderedPositive(x, y);
    } else if y < 0.0 {
      SigFigsOrderedPositive(-y, -x);
    } else {
      if x < 0.0 { SigFigsOrderedPositive(-x, -x); }
      if 0.0 < y { SigFigsOrderedPositive(y, y); }
    }
  }

  lemma TwoStageOrdered(x: real, y: real, d: int)
    requires x <= y
    ensures TwoStage(x, d) <= TwoStage(y, d)
  {
    hide SigFigs, Pow10, Nearest;
    SigFigsOrdered(x, y);
    NearestOrdered(SigFigs(x), SigFigs(y), Pow10(d));
  }

  /** Rounding keeps order across decades and both stages, for all prices that are not passed
      through, negative ones included. */
  lemma RoundPriceMonotone(x: real, y: real, szDecimals: int, isSpot: bool)
    requires x <= y && !Bypasses(x) && !Bypasses(y)
    ensures RoundPrice(x, szDecimals, isSpot) <= RoundPrice(y, szDecimals, isSpot)
  {
    hide TwoStage, RoundPrice, Bypasses;
    RoundPriceForm(x, szDecimals, isSpot);
    RoundPriceForm(y, szDecimals, isSpot);
    TwoStageOrdered(x, y, GridExponent(szDecimals, isSpot));
  }

  /** How far rounding can move a price. When the five-figure grid is at least as coarse as the decimal
      grid, half a step of it; otherwise half a step of the decimal grid and a twentieth of a step on top,
      from the first stage. */
  lemma RoundPriceError(price: real, szDecimals: int, isSpot: bool)
    requires price != 0.0 && !Bypasses(price)
    ensures var e, d := Magnitude(Abs(price)) - 4, GridExponent(szDecimals, isSpot);
            Abs(RoundPrice(price, szDecimals, isSpot) - price)
              <= if d <= e then Pow10(e) / 2.0 else 0.55 * Pow10(d)
  {
    hide Pow10, Nearest, OnGrid, RoundPrice;
    var e, d, v := Magnitude(Abs(price)) - 4, GridExponent(szDecimals, isSpot), SigFigs(price);
    RoundPriceForm(price, szDecimals, isSpot);
    NearestNear(price, Pow10(e));
    NearestNear(v, Pow10(d));
    if d <= e {
      NearestOnGrid(price, Pow10(e));
      MultipleFiner(v, e, d);
      NearestFixed(v, Pow10(d));
    } else {
      Pow10Increases(e, d);
    }
  }

  /** The bound is reached: 100.045 with one decimal goes to 100.05 and then to 100.1. */
  lemma RoundPriceErrorReached()
    ensures RoundPrice(100.045, 5, false) == 100.1
    ensures Abs(RoundPrice(100.045, 5, false) - 100.045) == 0.55 * Pow10(GridExponent(5, false))
  {
    assert Pow10(2) == 100.0 && Pow10(3) == 1000.0 && Pow10(-2) == 0.01 && Pow10(1) == 10.0 && Pow10(-1) == 0.1;
    MagnitudeUnique(100.045, 2);
    assert Nearest(100.045, 0.01) == 100.05;
  }

  /** Sizes go to the nearest multiple of 10^-szDecimals, multiples stay, order is kept. */
  lemma RoundSizeNearest(size: real, other: real, szDecimals: int)
    ensures Multiple(RoundSize(size, szDecimals), -szDecimals)
    ensures Abs(RoundSize(size, szDecimals) - size) <= Pow10(-szDecimals) / 2.0
    ensures RoundSize(size, szDecimals) == size <==> Multiple(size, -szDecimals)
    ensures size <= other ==> RoundSize(size, szDecimals) <= RoundSize(other, szDecimals)
  {
    hide Pow10, Nearest, OnGrid, RoundScaled;
    MultiplierForm(size, szDecimals);
    MultiplierForm(other, szDecimals);
    NearestOnGrid(size, Pow10(-szDecimals));
    NearestNear(size, Pow10(-szDecimals));
    NearestFixed(size, Pow10(-szDecimals));
    if size <= other { NearestOrdered(size, other, Pow10(-szDecimals)); }
  }

  // --- order around a passed-through price ---

  /** Rounding never moves a price across p, where p itself is passed through unchanged. */
  ghost predicate OrderKeptAround(p: real, szDecimals: int, isSpot: bool) {
    forall q :: !Bypasses(q) ==>
      && (p <= q ==> p <= RoundPrice(q, szDecimals, isSpot))
      && (q <= p ==> RoundPrice(q, szDecimals, isSpot) <= p)
  }

  lemma DivBelow(x: real, y: real, p: real)
    requires p > 0.0
    ensures x < y <==> x / p < y / p
  {
    DivOrdered(x, y, p);
    DivOrdered(y, x, p);
  }

  lemma AboveHundredThousand(x: real)
    requires x >= 100000.0
    ensures Magnitude(x) >= 5
  {
    assert Pow10(5) == 100000.0;
    Pow10Ordered(6, 5);
    Pow10Ordered(Magnitude(x) + 1, 5);
  }

  /** When the decimal grid is no coarser than the five-figure grid, the second stage does nothing. */
  lemma CoarseStage(x: real, d: int)
    requires x > 0.0 && d <= Magnitude(x) - 4
    ensures TwoStage(x, d) == SigFigs(x)
  {
    hide Pow10, Nearest, OnGrid;
    SigFigsRange(x);
    MultipleFiner(SigFigs(x), Magnitude(x) - 4, d);
    NearestFixed(SigFigs(x), Pow10(d));
  }

  lemma WholeDifference(x: real, y: real)
    requires IsInt(x) && IsInt(y)
    ensures IsInt(x - y)
    ensures x < y ==> x + 1.0 <= y
  {
    assert x - y == (x.Floor - y.Floor) as real;
  }

  lemma FloorToGrid(p: real, g: real) returns (base: real)
    requires g > 0.0 && IsInt(g)
    ensures OnGrid(base, g) && IsInt(base) && base <= p < base + g
  {
    var y, j := p / g, (p / g).Floor;
    base := Times(j as real, g);
    GridPoint(j, g);
    WholeProduct(j, g);
    DivMul(p, g);
    assert Times(y, g) == p;
    hide Times, OnGrid, IsInt;
    BetweenSteps(j as real, y, g);
  }

  lemma WholeProduct(j: int, g: real)
    requires IsInt(g)
    ensures IsInt(Times(j as real, g))
  {
    var n := j * g.Floor;
    assert Times(j as real, g) == n as real;
    assert (n as real).Floor == n;
  }

  lemma BetweenSteps(a: real, y: real, g: real)
    requires g > 0.0 && a <= y < a + 1.0
    ensures Times(a, g) <= Times(y, g) < Times(a, g) + g
  {
    StepUp(a, g);
    hide Times;
    DivOrdered(a, y, g);
    DivOrdered(a + 1.0, y, g);
  }

  lemma StepUp(a: real, g: real)
    ensures Times(a + 1.0, g) == Times(a, g) + g
  {
  }

  lemma StepAbove(a: real, b: real, g: real)
    requires g > 0.0 && a + 1.0 <= b
    ensures Times(a, g) + g <= Times(b, g)
  {
    var d := b - a - 1.0;
    assert d * g == b * g - a * g - g;
    assert d * g >= 0.0;
  }

  lemma GridIndex(x: real, g: real) returns (k: int)
    requires g > 0.0 && OnGrid(x, g)
    ensures x == Times(k as real, g)
  {
    k := (x / g).Floor;
    DivMul(x, g);
  }

  lemma StepsApart(j: int, k: int, g: real)
    requires g > 0.0 && Times(j as real, g) < Times(k as real, g)
    ensures Times(j as real, g) + g <= Times(k as real, g)
  {
    if j < k {
      assert j as real + 1.0 == (j + 1) as real;
      StepAbove(j as real, k as real, g);
    } else {
      DivOrdered(k as real, j as real, g);
    }
  }

  lemma GridPointsApart(x: real, y: real, g: real)
    requires g > 0.0 && OnGrid(x, g) && OnGrid(y, g) && x < y
    ensures x + g <= y
  {
    var j := GridIndex(x, g);
    var k := GridIndex(y, g);
    hide Times, OnGrid;
    StepsApart(j, k, g);
  }

  /** p split at its own five-figure grid: a grid point and a whole rest. */
  lemma SplitAtGrid(p: real) returns (m: int, g: real, base: real)
    requires Bypasses(p)
    ensures m == Magnitude(p) && m >= 5 && g == Pow10(m - 4)
    ensures OnGrid(base, g) && base <= p < base + g
    ensures 100000.0 <= Pow10(m) <= base
    ensures IsInt(p - base) && IsInt(g / 2.0) && IsInt(g)
  {
    m := Magnitude(p);
    AboveHundredThousand(p);
    Pow10Whole(m - 4);
    g := Pow10(m - 4);
    Pow10Multiple(m, m - 4);
    assert Pow10(5) == 100000.0;
    Pow10Ordered(5, m);
    hide Pow10, OnGrid;
    base := FloorToGrid(p, g);
    if base < Pow10(m) { GridPointsApart(base, Pow10(m), g); }
    WholeDifference(p, base);
  }

  lemma WholeShift(k: int, r: real)
    requires 0.0 <= r < 2.0
    ensures IsInt(k as real + r) <==> r == 0.0 || r == 1.0
  {
    var x := k as real + r;
    if IsInt(x) {
      var n := x.Floor;
      assert r == (n - k) as real;
      assert n - k == 0 || n - k == 1;
    }
    if r == 1.0 { assert x == (k + 1) as real; }
  }

  lemma RatioBelowTwo(u: real, g: real)
    requires g > 0.0 && 0.0 <= u < 2.0 * g
    ensures 0.0 <= u / g < 2.0
    ensures u / g == 0.0 <==> u == 0.0
    ensures u / g == 1.0 <==> u == g
  {
    DivMul(u, g);
    DivMul(2.0, g);
    DivOrdered(0.0, u, g);
    DivBelow(u, 2.0 * g, g);
  }

  lemma TwiceOnGrid(base: real, rest: real, g: real)
    requires g > 0.0 && OnGrid(base, g) && 0.0 <= rest < g
    ensures OnGrid(2.0 * (base + rest), g) <==> rest == 0.0 || 2.0 * rest == g
  {
    var j, u := (base / g).Floor, 2.0 * rest;
    RatioBelowTwo(u, g);
    WholeShift(2 * j, u / g);
    DivMul(base, g);
    SumOver(base, base, g);
    SumOver(2.0 * base, u, g);
    assert 2.0 * (base + rest) == 2.0 * base + u;
  }

  lemma SumOver(x: real, y: real, g: real)
    requires g > 0.0
    ensures (x + y) / g == x / g + y / g
  {
    DivMul(x, g);
    DivMul(y, g);
    DivMul(x + y, g);
    Distribute(x / g + y / g, (x + y) / g, g);
  }

  lemma BetweenGridPoints(base: real, rest: real, p: real)
    requires p > 0.0 && OnGrid(base, p) && 0.0 < rest < p
    ensures !OnGrid(base + rest, p)
  {
    hide OnGrid;
    if OnGrid(base + rest, p) { GridPointsApart(base, base + rest, p); }
  }

  lemma GridSum(x: real, y: real, p: real)
    requires p > 0.0 && OnGrid(x, p) && OnGrid(y, p)
    ensures OnGrid(x + y, p)
  {
    SumOver(x, y, p);
    assert x / p + y / p == ((x / p).Floor + (y / p).Floor) as real;
  }

  lemma NearestSplit(base: real, t: real, p: real)
    requires p > 0.0 && base >= 0.0 && OnGrid(base, p) && 0.0 <= t < p
    ensures Nearest(base + t, p) == if t < p / 2.0 then base else base + p
  {
    var k, f := (base / p).Floor, t / p;
    SumOver(base, t, p);
    DivMul(base, p);
    DivOrdered(0.0, base, p);
    DivOrdered(0.0, t, p);
    DivBelow(t, p / 2.0, p);
    DivBelow(t, p, p);
    DivMul(0.5, p);
    FloorOfSum(k, f);
    Distribute((k + 1) as real, k as real, p);
  }

  lemma FloorOfSum(k: int, f: real)
    requires 0.0 <= f < 1.0 && k >= 0
    ensures RoundHalfAway(k as real + f) == if f < 0.5 then k else k + 1
  {
  }

  lemma HalfIsNotWhole(x: real)
    requires IsInt(x)
    ensures !IsInt(x + 0.5) && !IsInt(x - 0.5)
  {
  }

  /** Between two neighbours of a grid rounding is a single step up, at t. */
  ghost predicate StepsAt(base: real, top: real, t: real, d: int) {
    forall q :: q > 0.0 && base <= q < top ==> TwoStage(q, d) == if q < t then base else top
  }

  /** Order is kept around p exactly when p is the lower neighbour or the place of the step: any other
      integer has a fractional price next to it on the same side of the step. */
  lemma StepDecides(p: real, base: real, top: real, t: real, szDecimals: int, isSpot: bool)
    requires var d := GridExponent(szDecimals, isSpot); StepsAt(base, top, t, d) && TwoStage(base, d) == base
    requires Bypasses(p) && IsInt(t) && 0.0 <= base <= p < top && base < t <= top
    ensures OrderKeptAround(p, szDecimals, isSpot) <==> p == base || p == t
  {
    var d := GridExponent(szDecimals, isSpot);
    hide TwoStage, RoundPrice;
    WholeDifference(p, t);
    WholeDifference(t, p);
    HalfIsNotWhole(p);
    if p == base || p == t {
      forall q | !Bypasses(q)
        ensures p <= q ==> p <= RoundPrice(q, szDecimals, isSpot)
        ensures q <= p ==> RoundPrice(q, szDecimals, isSpot) <= p
      {
        RoundPriceForm(q, szDecimals, isSpot);
        if p <= q {
          TwoStageOrdered(p, q, d);
        } else if q <= base {
          TwoStageOrdered(q, base, d);
        }
      }
    } else {
      var q := if p < t then p + 0.5 else p - 0.5;
      RoundPriceForm(q, szDecimals, isSpot);
    }
  }

  /** Five figures decide: the step is half-way. */
  lemma StepOfFigures(m: int, base: real, d: int)
    requires var g := Pow10(m - 4); d <= m - 4 && OnGrid(base, g) && Pow10(m) <= base < Pow10(m + 1)
    ensures var g := Pow10(m - 4); StepsAt(base, base + g, base + g / 2.0, d) && TwoStage(base, d) == base
  {
    var g := Pow10(m - 4);
    Pow10Multiple(m + 1, m - 4);
    hide Pow10, Nearest, OnGrid, TwoStage, SigFigs;
    GridPointsApart(base, Pow10(m + 1), g);
    forall q | q > 0.0 && base <= q < base + g
      ensures TwoStage(q, d) == if q < base + g / 2.0 then base else base + g
    {
      MagnitudeUnique(q, m);
      CoarseStage(q, d);
      NearestSplit(base, q - base, g);
      FiguresOf(q, m);
      assert base + (q - base) == q;
    }
  }

  lemma FiguresOf(x: real, m: int)
    requires x > 0.0 && Magnitude(x) == m
    ensures SigFigs(x) == Nearest(x, Pow10(m - 4))
  {
  }

  // --- the decimal grid is the coarser one ---

  /** The point half-way between two decimal grid points is no power of ten. */
  lemma HalfwayMagnitude(base: real, d: int)
    requires base >= 0.0 && Multiple(base, d)
    ensures var mid := base + Pow10(d) / 2.0; mid > 0.0 && Multiple(mid, d - 1)
    ensures var mid := base + Pow10(d) / 2.0; Pow10(Magnitude(mid)) < mid && !Multiple(mid, d)
  {
    var p := Pow10(d);
    var mid := base + p / 2.0;
    Pow10Step(d - 1);
    GridPoint(5, Pow10(d - 1));
    assert Times(5 as real, Pow10(d - 1)) == p / 2.0;
    MultipleFiner(base, d, d - 1);
    hide Pow10, OnGrid, Times;
    GridSum(base, p / 2.0, Pow10(d - 1));
    BetweenGridPoints(base, p / 2.0, p);
    var m := Magnitude(mid);
    if d <= m {
      Pow10Multiple(m, d);
    } else {
      Pow10Ordered(m, d - 1);
    }
  }

  lemma SigFigsFixed(x: real, d: int)
    requires x >= 0.0 && Multiple(x, d) && (x > 0.0 ==> Magnitude(x) - 4 <= d)
    ensures SigFigs(x) == x && TwoStage(x, d) == x
  {
    if x == 0.0 {
      TwoStageOfZero(d);
    } else {
      hide Pow10, Nearest, OnGrid;
      MultipleFiner(x, d, Magnitude(x) - 4);
      FiguresOf(x, Magnitude(x));
      NearestFixed(x, Pow10(Magnitude(x) - 4));
      NearestFixed(x, Pow10(d));
    }
  }

  /** mid lies half-way between base and the next decimal grid point, and the decimal grid is coarser
      there than its five-figure grid, of step 10^k. */
  predicate Halfway(base: real, d: int, mid: real, k: int) {
    && base >= 0.0 && Multiple(base, d) && mid == base + Pow10(d) / 2.0
    && mid > 0.0 && k == Magnitude(mid) - 4 && k < d
  }

  /** The step g of five figures around the half-way point mid: mid and mid - g keep their figures. */
  lemma AroundHalfway(base: real, d: int, mid: real, k: int)
    requires Halfway(base, d, mid, k)
    ensures var g := Pow10(k);
            && base < mid - g && Pow10(k + 4) <= mid - g && Magnitude(mid - g) == k + 4
            && OnGrid(mid, g) && OnGrid(mid - g, g)
            && SigFigs(mid) == mid && SigFigs(mid - g) == mid - g
  {
    var g := Pow10(k);
    HalfwayMagnitude(base, d);
    Pow10Multiple(k + 4, k);
    Pow10Increases(k, d);
    hide Pow10, Nearest, OnGrid, SigFigs, TwoStage;
    MultipleFiner(mid, d - 1, k);
    GridPointsApart(Pow10(k + 4), mid, g);
    GridBelow(mid, g);
    MagnitudeUnique(mid - g, k + 4);
    SigFigsFixed(mid, k);
    SigFigsFixed(mid - g, k);
  }

  lemma GridBelow(x: real, g: real)
    requires g > 0.0 && OnGrid(x, g)
    ensures OnGrid(x - g, g)
  {
    GridPoint(-1, g);
    assert Times(-1 as real, g) == -g;
    hide OnGrid, Times;
    GridSum(x, -g, g);
    assert x + -g == x - g;
  }

  lemma GridAbove(x: real, p: real)
    requires p > 0.0 && OnGrid(x, p)
    ensures OnGrid(x + p, p)
  {
    GridPoint(1, p);
    assert Times(1 as real, p) == p;
    hide OnGrid, Times;
    GridSum(x, p, p);
  }

  /** Both neighbours on the decimal grid stay where they are. */
  lemma NeighboursFixed(base: real, d: int, mid: real, k: int)
    requires Halfway(base, d, mid, k)
    ensures var top := base + Pow10(d);
            && SigFigs(base) == base && TwoStage(base, d) == base
            && SigFigs(top) == top && TwoStage(top, d) == top
  {
    var top := base + Pow10(d);
    Pow10Step(k + 5);
    hide Pow10, OnGrid, SigFigs, TwoStage;
    GridAbove(base, Pow10(d));
    Pow10Ordered(Magnitude(top), k + 5);
    Pow10Ordered(k + 6, Magnitude(top));
    if base > 0.0 { MagnitudeMonotone(base, mid); }
    SigFigsFixed(base, d);
    SigFigsFixed(top, d);
  }

  lemma DecadeAbove(base: real, d: int, mid: real, k: int)
    requires Halfway(base, d, mid, k)
    ensures Pow10(k + 4) <= mid - Pow10(k) && mid < Pow10(k + 5)
  {
    AroundHalfway(base, d, mid, k);
    hide Pow10, OnGrid, SigFigs;
  }

  /** Within one five-figure step below a grid point, the first stage goes to one of its ends. */
  lemma FiguresInStep(mid: real, m: int, q: real)
    requires var g := Pow10(m - 4); OnGrid(mid - g, g) && Pow10(m) <= mid - g <= q < mid < Pow10(m + 1)
    ensures SigFigs(q) == if q < mid - Pow10(m - 4) / 2.0 then mid - Pow10(m - 4) else mid
  {
    hide Pow10, Nearest, OnGrid, SigFigs;
    var g := Pow10(m - 4);
    var low, t := mid - g, q - (mid - g);
    MagnitudeUnique(q, m);
    FiguresOf(q, m);
    hide Magnitude;
    NearestSplit(low, t, g);
    assert low + t == q;
  }

  /** Within g below mid, the first stage goes to mid - g or mid. */
  lemma FiguresNearMid(base: real, d: int, mid: real, k: int, q: real)
    requires Halfway(base, d, mid, k) && mid - Pow10(k) <= q < mid
    ensures q > 0.0 && SigFigs(q) == if q < mid - Pow10(k) / 2.0 then mid - Pow10(k) else mid
  {
    hide Pow10, OnGrid, SigFigs, Halfway;
    AroundHalfway(base, d, mid, k);
    DecadeAbove(base, d, mid, k);
    FiguresInStep(mid, k + 4, q);
  }

  lemma StepRange(base: real, d: int, mid: real, k: int)
    requires Halfway(base, d, mid, k)
    ensures base < mid - Pow10(k) / 2.0 <= base + Pow10(d)
  {
    AroundHalfway(base, d, mid, k);
    hide Pow10, OnGrid, SigFigs;
  }

  lemma FiguresBelow(base: real, d: int, mid: real, k: int, q: real)
    requires Halfway(base, d, mid, k) && q > 0.0 && base <= q < mid - Pow10(k) / 2.0
    ensures base <= SigFigs(q) < mid
  {
    hide Pow10, OnGrid, SigFigs, TwoStage, Halfway, Multiple;
    AroundHalfway(base, d, mid, k);
    NeighboursFixed(base, d, mid, k);
    if mid - Pow10(k) <= q { FiguresNearMid(base, d, mid, k, q); }
    SigFigsOrdered(base, q);
    if q < mid - Pow10(k) { SigFigsOrdered(q, mid - Pow10(k)); }
  }

  lemma FiguresAbove(base: real, d: int, mid: real, k: int, q: real)
    requires Halfway(base, d, mid, k) && mid - Pow10(k) / 2.0 <= q < base + Pow10(d)
    ensures q > 0.0 && mid <= SigFigs(q) <= base + Pow10(d)
  {
    hide Pow10, OnGrid, SigFigs, TwoStage, Multiple;
    StepRange(base, d, mid, k);
    AroundHalfway(base, d, mid, k);
    NeighboursFixed(base, d, mid, k);
    if q < mid { FiguresNearMid(base, d, mid, k, q); }
    SigFigsOrdered(q, base + Pow10(d));
    if mid <= q { SigFigsOrdered(mid, q); }
  }

  /** The second stage, from a value on either side of mid. */
  lemma SecondStage(base: real, v: real, p: real)
    requires p > 0.0 && base >= 0.0 && OnGrid(base, p) && OnGrid(base + p, p) && base <= v <= base + p
    ensures Nearest(v, p) == if v < base + p / 2.0 then base else base + p
  {
    hide Nearest, OnGrid;
    if v < base + p {
      NearestSplit(base, v - base, p);
      assert base + (v - base) == v;
    } else {
      NearestFixed(v, p);
    }
  }

  lemma StepAt(base: real, d: int, mid: real, k: int, q: real)
    requires Halfway(base, d, mid, k) && q > 0.0 && base <= q < base + Pow10(d)
    ensures TwoStage(q, d) == if q < mid - Pow10(k) / 2.0 then base else base + Pow10(d)
  {
    var p := Pow10(d);
    hide Pow10, Nearest, OnGrid, SigFigs;
    GridAbove(base, p);
    if q < mid - Pow10(k) / 2.0 {
      FiguresBelow(base, d, mid, k, q);
    } else {
      FiguresAbove(base, d, mid, k, q);
    }
    SecondStage(base, SigFigs(q), p);
  }

  /** The decimal grid decides: the step is half a five-figure step in front of the half-way point,
      because the first stage already rounds up to it. */
  lemma StepOfDecimals(base: real, d: int, mid: real, k: int)
    requires Halfway(base, d, mid, k)
    ensures StepsAt(base, base + Pow10(d), mid - Pow10(k) / 2.0, d) && TwoStage(base, d) == base
    ensures base < mid - Pow10(k) / 2.0 <= base + Pow10(d)
  {
    hide Pow10, TwoStage, SigFigs, Halfway, Multiple, OnGrid;
    NeighboursFixed(base, d, mid, k);
    StepRange(base, d, mid, k);
    var top, t := base + Pow10(d), mid - Pow10(k) / 2.0;
    forall q | q > 0.0 && base <= q < top
      ensures TwoStage(q, d) == if q < t then base else top
    {
      StepAt(base, d, mid, k, q);
    }
  }

  /** Where an integer price keeps its order to its rounded neighbours: on its five-figure grid or
      half-way between two of its points; or, when the decimal grid is the coarser one, on that grid
      or half a five-figure step in front of the half-way point. */
  predicate PlacedForOrder(p: real, d: int)
    requires p > 0.0
  {
    var e := Magnitude(p) - 4;
    if d <= e then OnGrid(2.0 * p, Pow10(e))
    else Multiple(p, d) || Multiple(p - Pow10(d) / 2.0 + Pow10(e) / 2.0, d)
  }

  lemma OrderIffFigures(p: real, szDecimals: int, isSpot: bool)
    requires Bypasses(p) && GridExponent(szDecimals, isSpot) <= Magnitude(p) - 4
    ensures OrderKeptAround(p, szDecimals, isSpot) <==> OnGrid(2.0 * p, Pow10(Magnitude(p) - 4))
  {
    hide Pow10, OnGrid, OrderKeptAround, TwoStage, StepsAt;
    var m, g, base := SplitAtGrid(p);
    var rest := p - base;
    assert base + rest == p && p - rest == base;
    WholeDifference(p, rest);
    WholeSum(base, g / 2.0);
    TwiceOnGrid(base, rest, g);
    hide IsInt;
    StepOfFigures(m, base, GridExponent(szDecimals, isSpot));
    StepDecides(p, base, base + g, base + g / 2.0, szDecimals, isSpot);
  }

  lemma WholeSum(x: real, y: real)
    requires IsInt(x) && IsInt(y)
    ensures IsInt(x + y)
  {
    assert x + y == (x.Floor + y.Floor) as real;
  }

  lemma HalfwayLarge(p: real, d: int, base: real)
    requires Bypasses(p) && Multiple(base, d) && 0.0 <= base <= p < base + Pow10(d)
    ensures base + Pow10(d) / 2.0 >= 100000.0
  {
    assert Pow10(5) == 100000.0;
    Pow10Step(d - 1);
    hide OnGrid;
    if d <= 5 {
      Pow10Multiple(5, d);
      if base < Pow10(5) { GridPointsApart(base, Pow10(5), Pow10(d)); }
    } else {
      Pow10Ordered(5, d - 1);
    }
  }

  /** The half-way point around p: large, and its five-figure step is finer than the decimal grid. */
  lemma HalfwayBounds(p: real, d: int, base: real, mid: real)
    requires Bypasses(p) && Magnitude(p) - 4 < d && Multiple(base, d)
    requires 0.0 <= base <= p < base + Pow10(d) && mid == base + Pow10(d) / 2.0
    ensures mid > 0.0 && 5 <= Magnitude(mid) < d + 4
  {
    HalfwayLarge(p, d, base);
    hide Pow10, OnGrid;
    AboveHundredThousand(mid);
    var m := Magnitude(mid);
    if mid <= p {
      MagnitudeMonotone(mid, p);
    } else if d <= m {
      Pow10Multiple(m, d);
      if base < Pow10(m) {
        GridPointsApart(base, Pow10(m), Pow10(d));
      } else {
        Pow10Ordered(m, Magnitude(p));
        Pow10Ordered(Magnitude(p) + 1, m);
      }
    }
  }

  /** The only decimal grid point around x. */
  lemma OnlyPoint(x: real, base: real, p: real)
    requires p > 0.0 && OnGrid(base, p) && base - p < x < base + p
    ensures OnGrid(x, p) <==> x == base
  {
    hide OnGrid;
    if OnGrid(x, p) && x < base { GridPointsApart(x, base, p); }
    if OnGrid(x, p) && base < x { GridPointsApart(base, x, p); }
  }

  /** A p half of its own five-figure step below mid is in the decade of mid, and conversely. */
  lemma SameDecade(p: real, base: real, d: int, mid: real, k: int)
    requires p > 0.0 && Halfway(base, d, mid, k)
    ensures p == mid - Pow10(k) / 2.0 <==> p == mid - Pow10(Magnitude(p) - 4) / 2.0
  {
    DecadeAbove(base, d, mid, k);
    var e := Magnitude(p) - 4;
    assert Pow10(e + 4) <= p < Pow10(e + 5);
    hide Pow10, Halfway, Magnitude;
    if p == mid - Pow10(k) / 2.0 {
      MagnitudeUnique(p, k + 4);
    } else if p == mid - Pow10(e) / 2.0 {
      if e < k {
        Pow10Increases(e, k);
        Pow10Ordered(e + 5, k + 4);
      } else if k < e {
        Pow10Ordered(k + 5, e + 4);
      }
    }
  }

  /** The place of the step, in terms of p alone. */
  lemma PlaceOfStep(p: real, d: int, base: real, mid: real)
    requires Bypasses(p) && Magnitude(p) - 4 < d && Multiple(base, d)
    requires 0.0 <= base <= p < base + Pow10(d) && mid == base + Pow10(d) / 2.0
    ensures mid > 0.0
    ensures p == base || p == mid - Pow10(Magnitude(mid) - 4) / 2.0 <==> PlacedForOrder(p, d)
  {
    HalfwayBounds(p, d, base, mid);
    var e := Magnitude(p) - 4;
    Pow10Increases(e, d);
    hide Pow10, OnGrid;
    SameDecade(p, base, d, mid, Magnitude(mid) - 4);
    OnlyPoint(p, base, Pow10(d));
    OnlyPoint(p - Pow10(d) / 2.0 + Pow10(e) / 2.0, base, Pow10(d));
  }

  lemma OrderIffDecimals(p: real, szDecimals: int, isSpot: bool)
    requires Bypasses(p) && Magnitude(p) - 4 < GridExponent(szDecimals, isSpot)
    ensures OrderKeptAround(p, szDecimals, isSpot) <==> PlacedForOrder(p, GridExponent(szDecimals, isSpot))
  {
    hide Pow10, OnGrid, OrderKeptAround, TwoStage, PlacedForOrder, StepsAt;
    var d := GridExponent(szDecimals, isSpot);
    AboveHundredThousand(p);
    var base := DecimalFloor(p, d);
    var mid := base + Pow10(d) / 2.0;
    PlaceOfStep(p, d, base, mid);
    HalfwayBounds(p, d, base, mid);
    var k := Magnitude(mid) - 4;
    Pow10Whole(d);
    Pow10Whole(k);
    WholeSum(base, Pow10(d) / 2.0);
    WholeDifference(mid, Pow10(k) / 2.0);
    StepOfDecimals(base, d, mid, k);
    hide IsInt, Magnitude;
    StepDecides(p, base, base + Pow10(d), mid - Pow10(k) / 2.0, szDecimals, isSpot);
  }

  /** The decimal grid point at or below p. */
  lemma DecimalFloor(p: real, d: nat) returns (base: real)
    requires p > 0.0
    ensures Multiple(base, d) && IsInt(base) && 0.0 <= base <= p < base + Pow10(d)
  {
    hide Pow10, OnGrid;
    Pow10Whole(d);
    ZeroFixed(Pow10(d));
    base := FloorToGrid(p, Pow10(d));
    if base < 0.0 { GridPointsApart(base, 0.0, Pow10(d)); }
  }

  /** The pass-through keeps order around an integer price exactly when it is placed as `PlacedForOrder`
      says; any other one is jumped over by a fractional neighbour. For any size decimals. */
  lemma PassThroughOrderIff(p: real, szDecimals: int, isSpot: bool)
    requires Bypasses(p)
    ensures OrderKeptAround(p, szDecimals, isSpot) <==> PlacedForOrder(p, GridExponent(szDecimals, isSpot))
  {
    hide OrderKeptAround, OnGrid;
    if GridExponent(szDecimals, isSpot) <= Magnitude(p) - 4 {
      OrderIffFigures(p, szDecimals, isSpot);
    } else {
      OrderIffDecimals(p, szDecimals, isSpot);
    }
  }

  /** Exactly the whole prices above 100000 are passed through. */
  lemma WholePricesPass(price: real, szDecimals: int, isSpot: bool)
    requires price > 100000.0 && price == price.Floor as real
    ensures RoundPrice(price, szDecimals, isSpot) == price
  {
  }

  /** On either side of the threshold: 100001 is kept, 99999.5 and 100000.5 are rounded. */
  lemma AroundThreshold()
    ensures RoundPrice(100001.0, 0, false) == 100001.0
    ensures RoundPrice(100000.5, 0, false) == 100000.0 && RoundPrice(99999.5, 0, false) == 100000.0
  {
    assert Pow10(5) == 100000.0 && Pow10(6) == 1000000.0 && Pow10(4) == 10000.0 && Pow10(1) == 10.0 && Pow10(0) == 1.0;
    assert !Bypasses(100000.5) && !Bypasses(99999.5);
    MagnitudeUnique(100000.5, 5);
    MagnitudeUnique(99999.5, 4);
    MagnitudeUnique(100000.0, 5);
    assert Nearest(100000.5, 10.0) == 100000.0 && Nearest(99999.5, 1.0) == 100000.0;
    hide Pow10, Nearest, RoundPrice;
    ThresholdSecondStage();
    RoundPriceForm(100000.5, 0, false);
    RoundPriceForm(99999.5, 0, false);
  }

  lemma ThresholdSecondStage()
    ensures RoundTo(100000.0, -6) == 100000.0
  {
    assert Pow10(5) == 100000.0;
    hide Pow10, Nearest, OnGrid;
    Pow10Multiple(5, -6);
    NearestFixed(100000.0, Pow10(-6));
  }

  /** One such neighbour: 123456.5 rounds above the larger price 123457. */
  lemma PassThroughBreaksOrder()
    ensures RoundPrice(123456.5, 0, false) == 123460.0
    ensures RoundPrice(123457.0, 0, false) == 123457.0
  {
    assert Pow10(5) == 100000.0 && Pow10(6) == 1000000.0 && Pow10(1) == 10.0;
    MagnitudeUnique(123456.5, 5);
    assert Nearest(123456.5, 10.0) == 123460.0;
  }
}
