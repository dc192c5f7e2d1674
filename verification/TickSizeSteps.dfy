/** The published tick tables for perps: tools/tick_size_steps.cpp. */
module TickSizeSteps {
  import opened Decimals
  import opened Conversions

  /** A row applies from its minimum price up; the first row of a table has no minimum. */
  datatype MinPrice = NegativeInfinity | From(price: real)

  datatype TickSizeStep = TickSizeStep(minPrice: MinPrice, tickSize: real)

  const PERPS_0 := [
    TickSizeStep(NegativeInfinity, 0.000001),
    TickSizeStep(From(0.1), 0.00001),
    TickSizeStep(From(1.0), 0.0001),
    TickSizeStep(From(10.0), 0.001),
    TickSizeStep(From(100.0), 0.01),
    TickSizeStep(From(1000.0), 0.1),
    TickSizeStep(From(10000.0), 1.0),
    TickSizeStep(From(100000.0), 10.0)]

  const PERPS_1 := [
    TickSizeStep(NegativeInfinity, 0.00001),
    TickSizeStep(From(1.0), 0.0001),
    TickSizeStep(From(10.0), 0.001),
    TickSizeStep(From(100.0), 0.01),
    TickSizeStep(From(1000.0), 0.1),
    TickSizeStep(From(10000.0), 1.0),
    TickSizeStep(From(100000.0), 10.0)]

  const PERPS_2 := [
    TickSizeStep(NegativeInfinity, 0.0001),
    TickSizeStep(From(10.0), 0.001),
    TickSizeStep(From(100.0), 0.01),
    TickSizeStep(From(1000.0), 0.1),
    TickSizeStep(From(10000.0), 1.0),
    TickSizeStep(From(100000.0), 10.0)]

  const PERPS_3 := [
    TickSizeStep(NegativeInfinity, 0.001),
    TickSizeStep(From(100.0), 0.01),
    TickSizeStep(From(1000.0), 0.1),
    TickSizeStep(From(10000.0), 1.0),
    TickSizeStep(From(100000.0), 10.0)]

  const PERPS_4 := [
    TickSizeStep(NegativeInfinity, 0.01),
    TickSizeStep(From(1000.0), 0.1),
    TickSizeStep(From(10000.0), 1.0),
    TickSizeStep(From(100000.0), 10.0)]

  const PERPS_5 := [
    TickSizeStep(NegativeInfinity, 0.1),
    TickSizeStep(From(10000.0), 1.0),
    TickSizeStep(From(100000.0), 10.0)]

  datatype Lookup = Table(steps: seq<TickSizeStep>) | Fatal

  /** `get` for perps; other numbers of size decimals are fatal. */
  function Perps(szDecimals: int): Lookup {
    match szDecimals
    case 0 => Table(PERPS_0)
    case 1 => Table(PERPS_1)
    case 2 => Table(PERPS_2)
    case 3 => Table(PERPS_3)
    case 4 => Table(PERPS_4)
    case 5 => Table(PERPS_5)
    case _ => Fatal
  }

  predicate AppliesAt(step: TickSizeStep, price: real) {
    step.minPrice.NegativeInfinity? || step.minPrice.price <= price
  }

  /** The tick of the last row whose minimum the price reaches. */
  function TickAt(steps: seq<TickSizeStep>, price: real): real
    requires steps != [] && AppliesAt(steps[0], price)
  {
    var last := steps[|steps| - 1];
    if |steps| == 1 || AppliesAt(last, price) then last.tickSize
    else TickAt(steps[..|steps| - 1], price)
  }

  function PerpTick(szDecimals: int, price: real): real
    requires 0 <= szDecimals <= 5
  {
    TickAt(Perps(szDecimals).steps, price)
  }

  /** Exponent of the tick from the documented rule: five significant figures, but no more than
      6 - szDecimals decimals; capped where the table ends. */
  function RuleExponent(szDecimals: int, magnitude: int): int {
    var e := Max(magnitude - 4, GridExponent(szDecimals, false));
    if 1 < e then 1 else e
  }

  lemma SmallPowers()
    ensures Pow10(-6) == 0.000001 && Pow10(-5) == 0.00001 && Pow10(-4) == 0.0001
    ensures Pow10(-3) == 0.001 && Pow10(-2) == 0.01 && Pow10(-1) == 0.1
    ensures Pow10(0) == 1.0 && Pow10(1) == 10.0 && Pow10(2) == 100.0 && Pow10(3) == 1000.0
    ensures Pow10(4) == 10000.0 && Pow10(5) == 100000.0 && Pow10(6) == 1000000.0
  {
  }

  /** All six tables follow one pattern: 8 - s rows, row i from 10^(s-2+i) with tick 10^(s-6+i). */
  lemma TableRow(szDecimals: int, i: nat)
    requires 0 <= szDecimals <= 5 && i < 8 - szDecimals
    ensures |Perps(szDecimals).steps| == 8 - szDecimals
    ensures var row := Perps(szDecimals).steps[i];
            && row.tickSize == Pow10(szDecimals - 6 + i)
            && row.minPrice == if i == 0 then NegativeInfinity else From(Pow10(szDecimals - 2 + i))
  {
    SmallPowers();
    hide Pow10;
    match i
    case 0 => case 1 => case 2 => case 3 => case 4 => case 5 => case 6 => case 7 =>
  }

  lemma {:induction false} TickAtRow(steps: seq<TickSizeStep>, price: real, i: nat)
    requires i < |steps| && AppliesAt(steps[0], price) && AppliesAt(steps[i], price)
    requires forall j :: i < j < |steps| ==> !AppliesAt(steps[j], price)
    ensures TickAt(steps, price) == steps[i].tickSize
  {
    if i < |steps| - 1 { TickAtRow(steps[..|steps| - 1], price, i); }
  }

  lemma ReachesPower(price: real, e: int)
    requires price > 0.0
    ensures Pow10(e) <= price <==> e <= Magnitude(price)
  {
    Pow10Ordered(e, Magnitude(price));
    Pow10Ordered(Magnitude(price) + 1, e);
  }

  /** Every table is the documented rule, for every positive price. */
  lemma TableIsRule(szDecimals: int, price: real)
    requires 0 <= szDecimals <= 5 && price > 0.0
    ensures PerpTick(szDecimals, price) == Pow10(RuleExponent(szDecimals, Magnitude(price)))
  {
    var steps, m := Perps(szDecimals).steps, Magnitude(price);
    hide Pow10, Perps;
    TableRow(szDecimals, 0);
    var i := Max(0, if m - szDecimals + 2 < 8 - szDecimals then m - szDecimals + 2 else 7 - szDecimals);
    forall j | 0 <= j < |steps|
      ensures AppliesAt(steps[j], price) <==> j == 0 || szDecimals - 2 + j <= m
    {
      TableRow(szDecimals, j);
      ReachesPower(price, szDecimals - 2 + j);
    }
    TickAtRow(steps, price, i);
    TableRow(szDecimals, i);
  }

  /** Below a million the table is max(10^-(6-s), 10^(magnitude-4)). */
  lemma TableBelowMillion(szDecimals: int, price: real)
    requires 0 <= szDecimals <= 5 && 0.0 < price < 1000000.0
    ensures PerpTick(szDecimals, price) == Pow10(TickExponent(price, GridExponent(szDecimals, false)))
  {
    SmallPowers();
    ReachesPower(price, 6);
    TableIsRule(szDecimals, price);
  }

  lemma PositiveMultiple(x: real, szDecimals: int)
    requires x > 0.0 && 0 <= szDecimals <= 5 && OnTick(x, GridExponent(szDecimals, false))
    ensures PerpTick(szDecimals, x) > 0.0 && OnGrid(x, PerpTick(szDecimals, x))
  {
    hide Pow10, OnGrid, Perps, PerpTick;
    TableIsRule(szDecimals, x);
    MultipleFiner(x, TickExponent(x, GridExponent(szDecimals, false)), RuleExponent(szDecimals, Magnitude(x)));
  }

  /** Every positive price that is not passed through rounds to a whole number of the ticks that
      the published table gives at the rounded price, also when rounding crosses a power of ten. */
  lemma RoundedPriceOnTable(price: real, szDecimals: int)
    requires price > 0.0 && !Bypasses(price) && 0 <= szDecimals <= 5
    ensures var r := RoundPrice(price, szDecimals, false);
            r >= 0.0 && PerpTick(szDecimals, r) > 0.0 && OnGrid(r, PerpTick(szDecimals, r))
  {
    hide Pow10, OnGrid, PerpTick, RoundPrice, Nearest;
    var r := RoundPrice(price, szDecimals, false);
    ResultOnTick(price, szDecimals, false);
    RoundPriceForm(price, szDecimals, false);
    PositiveOnTick(price, GridExponent(szDecimals, false));
    if r > 0.0 {
      TableIsRule(szDecimals, r);
      PositiveMultiple(r, szDecimals);
    } else {
      TickOfZero(szDecimals);
      ZeroFixed(PerpTick(szDecimals, 0.0));
    }
  }

  lemma TickOfZero(szDecimals: int)
    requires 0 <= szDecimals <= 5
    ensures PerpTick(szDecimals, 0.0) == Pow10(GridExponent(szDecimals, false))
  {
    var steps := Perps(szDecimals).steps;
    hide Pow10, Perps;
    TableRow(szDecimals, 0);
    forall j | 1 <= j < |steps|
      ensures !AppliesAt(steps[j], 0.0)
    {
      TableRow(szDecimals, j);
    }
    TickAtRow(steps, 0.0, 0);
  }

  // --- perps that are rounded as spot ---

  /** x is a whole number of the ticks the table gives at x. */
  predicate OnTable(x: real, szDecimals: int)
    requires 0 <= szDecimals <= 5 && x >= 0.0
  {
    PerpTick(szDecimals, x) > 0.0 && OnGrid(x, PerpTick(szDecimals, x))
  }

  /** From 10^(szDecimals - 2) up five significant figures decide, and rounding as spot or as a perp
      is the same. */
  lemma SpotRoundsAsPerp(price: real, szDecimals: int)
    requires price > 0.0 && szDecimals - 2 <= Magnitude(price)
    ensures RoundPrice(price, szDecimals, true) == RoundPrice(price, szDecimals, false)
  {
    if !Bypasses(price) {
      hide Pow10, Nearest, OnGrid, RoundPrice;
      var m, v := Magnitude(price), SigFigs(price);
      RoundPriceForm(price, szDecimals, true);
      RoundPriceForm(price, szDecimals, false);
      SigFigsRange(price);
      MultipleFiner(v, m - 4, szDecimals - 6);
      MultipleFiner(v, m - 4, szDecimals - 8);
      NearestFixed(v, Pow10(szDecimals - 6));
      NearestFixed(v, Pow10(szDecimals - 8));
    }
  }

  lemma NotBypassed(x: real)
    requires 0.0 < x && Magnitude(x) < 5
    ensures !Bypasses(x)
  {
    assert Pow10(5) == 100000.0;
    Pow10Ordered(Magnitude(x) + 1, 5);
  }

  /** Below a tenth of the spot unit every price becomes zero. */
  lemma SpotRoundsToZero(price: real, szDecimals: int)
    requires 0 <= szDecimals <= 5 && price > 0.0 && Magnitude(price) < szDecimals - 9
    ensures !Bypasses(price) && RoundPrice(price, szDecimals, true) == 0.0
  {
    var m, v, p := Magnitude(price), SigFigs(price), Pow10(szDecimals - 8);
    Pow10Step(szDecimals - 9);
    hide Pow10, Nearest, OnGrid, RoundPrice;
    Pow10Ordered(m + 1, szDecimals - 9);
    ZeroFixed(p);
    NotBypassed(price);
    SigFigsRange(price);
    RoundPriceForm(price, szDecimals, true);
    NearestSplit(0.0, v, p);
    assert 0.0 + v == v;
  }

  /** A price that is its own rounding as spot lies between two ticks of the table. */
  lemma OffTable(x: real, base: real, szDecimals: int, m: int)
    requires 0 <= szDecimals <= 5 && x > 0.0 && Magnitude(x) == m && m <= szDecimals - 3
    requires Multiple(base, szDecimals - 6) && base < x < base + Pow10(szDecimals - 6)
    ensures !OnTable(x, szDecimals)
  {
    hide Pow10, OnGrid, PerpTick;
    TableIsRule(szDecimals, x);
    BetweenGridPoints(base, x - base, Pow10(szDecimals - 6));
    assert base + (x - base) == x;
  }

  /** 9 * 10^m keeps its figures and rounds up to 10^(m+1). */
  lemma NineTenths(m: int) returns (price: real)
    ensures price > 0.0 && Magnitude(price) == m && TwoStage(price, m + 1) == Pow10(m + 1)
  {
    var p := Pow10(m + 1);
    price := Times(9 as real, Pow10(m));
    Pow10Step(m);
    GridPoint(9, Pow10(m));
    assert price == 9.0 * Pow10(m);
    ZeroFixed(p);
    hide Pow10, Nearest, OnGrid, Times;
    MagnitudeUnique(price, m);
    MultipleFiner(price, m, m - 4);
    NearestFixed(price, Pow10(m - 4));
    NearestSplit(0.0, price, p);
    assert 0.0 + price == price;
  }

  /** 9 * 10^(s-9) becomes one spot unit. */
  lemma MissesBelowUnit(szDecimals: int) returns (price: real)
    requires 0 <= szDecimals <= 5
    ensures price > 0.0 && Magnitude(price) == szDecimals - 9 && !Bypasses(price)
    ensures var r := RoundPrice(price, szDecimals, true); r > 0.0 && !OnTable(r, szDecimals)
  {
    var m := szDecimals - 9;
    price := NineTenths(m);
    var p := Pow10(m + 1);
    Pow10Increases(m + 1, m + 2);
    Pow10Increases(m + 1, m + 3);
    ZeroFixed(Pow10(m + 3));
    hide Pow10, OnGrid, RoundPrice, TwoStage, OnTable;
    NotBypassed(price);
    RoundPriceForm(price, szDecimals, true);
    MagnitudeUnique(p, m + 1);
    OffTable(p, 0.0, szDecimals, m + 1);
  }

  /** A power of ten below the perp unit is kept by the spot rounding, and off the table. */
  lemma MissesBelowPerpUnit(szDecimals: int, m: int) returns (price: real)
    requires 0 <= szDecimals <= 5 && szDecimals - 8 <= m < szDecimals - 6
    ensures price > 0.0 && Magnitude(price) == m && !Bypasses(price)
    ensures RoundPrice(price, szDecimals, true) == price && !OnTable(price, szDecimals)
  {
    hide OnGrid, RoundPrice, OnTable, Pow10;
    price := Pow10(m);
    Pow10Increases(m, m + 1);
    Pow10Increases(m, szDecimals - 6);
    ZeroFixed(Pow10(szDecimals - 6));
    MagnitudeUnique(price, m);
    NotBypassed(price);
    Pow10Multiple(m, Max(m - 4, szDecimals - 8));
    RoundPriceFixedIff(price, szDecimals, true);
    OffTable(price, 0.0, szDecimals, m);
  }

  /** From the perp unit up to 10^(s-3), 10^m and a tenth of a perp unit is such a price. */
  lemma MissesAbovePerpUnit(szDecimals: int, m: int) returns (price: real)
    requires 0 <= szDecimals <= 5 && szDecimals - 6 <= m <= szDecimals - 3
    ensures price > 0.0 && Magnitude(price) == m && !Bypasses(price)
    ensures RoundPrice(price, szDecimals, true) == price && !OnTable(price, szDecimals)
  {
    hide OnGrid, RoundPrice, OnTable, Pow10;
    var f, t := szDecimals - 7, Max(m - 4, szDecimals - 8);
    price := Pow10(m) + Pow10(f);
    Pow10Increases(m, m + 1);
    Pow10Increases(f, szDecimals - 6);
    Pow10Ordered(f, m);
    MagnitudeUnique(price, m);
    NotBypassed(price);
    Pow10Multiple(m, szDecimals - 6);
    Pow10Multiple(m, t);
    Pow10Multiple(f, t);
    GridSum(Pow10(m), Pow10(f), Pow10(t));
    RoundPriceFixedIff(price, szDecimals, true);
    OffTable(price, Pow10(m), szDecimals, m);
  }

  /** Every price of a decade that is not passed through rounds to a point of the perp table. */
  ghost predicate DecadeOnTable(szDecimals: int, isSpot: bool, m: int)
    requires 0 <= szDecimals <= 5
  {
    forall price :: price > 0.0 && Magnitude(price) == m && !Bypasses(price) ==>
      var r := RoundPrice(price, szDecimals, isSpot); r >= 0.0 && OnTable(r, szDecimals)
  }

  /** Rounded as perps all prices land on the perp table. Rounded as spot those of a decade do iff the
      decade is at least 10^(s-2), where both roundings agree, or so low that they become zero. */
  lemma DecadeOnTableIff(szDecimals: int, isSpot: bool, m: int)
    requires 0 <= szDecimals <= 5
    ensures DecadeOnTable(szDecimals, isSpot, m) <==> !isSpot || szDecimals - 2 <= m || m < szDecimals - 9
  {
    hide RoundPrice, PerpTick, Pow10;
    if !isSpot || szDecimals - 2 <= m || m < szDecimals - 9 {
      forall price | price > 0.0 && Magnitude(price) == m && !Bypasses(price)
        ensures var r := RoundPrice(price, szDecimals, isSpot); r >= 0.0 && OnTable(r, szDecimals)
      {
        if isSpot && m < szDecimals - 9 {
          SpotRoundsToZero(price, szDecimals);
          TickOfZero(szDecimals);
          ZeroFixed(PerpTick(szDecimals, 0.0));
        } else {
          if isSpot { SpotRoundsAsPerp(price, szDecimals); }
          RoundedPriceOnTable(price, szDecimals);
        }
      }
    } else if m == szDecimals - 9 {
      var price := MissesBelowUnit(szDecimals);
    } else if m < szDecimals - 6 {
      var price := MissesBelowPerpUnit(szDecimals, m);
    } else {
      var price := MissesAbovePerpUnit(szDecimals, m);
    }
  }

  /** A passed-through price is on the table, whose last tick is 10, iff it is a multiple of 10. */
  lemma PassedThroughOnTableIff(price: real, szDecimals: int, isSpot: bool)
    requires 0 <= szDecimals <= 5 && Bypasses(price)
    ensures OnTable(RoundPrice(price, szDecimals, isSpot), szDecimals) <==> Multiple(price, 1)
  {
    hide OnGrid, PerpTick;
    AboveHundredThousand(price);
    TableIsRule(szDecimals, price);
  }

  /** 123457 is passed through, and is no multiple of 10. */
  lemma PassedThroughMissesTable()
    ensures RoundPrice(123457.0, 0, false) == 123457.0 && !OnTable(123457.0, 0)
  {
    assert Pow10(1) == 10.0 && Bypasses(123457.0);
    assert 123457.0 / 10.0 == 12345.7;
    hide Pow10, OnTable;
    PassedThroughOnTableIff(123457.0, 0, false);
  }

  lemma SampleMagnitude()
    ensures Magnitude(0.0012345) == -3
  {
    assert Pow10(-3) == 0.001 && Pow10(-2) == 0.01;
    MagnitudeUnique(0.0012345, -3);
  }

  lemma SampleGrids()
    ensures Multiple(0.0012345, -7) && Pow10(-6) == 0.000001 && !OnGrid(0.0012345, 0.000001)
  {
    assert Pow10(-7) == 0.0000001;
    assert 0.0012345 / 0.0000001 == 12345.0 && 0.0012345 / 0.000001 == 1234.5;
  }

  /** A price the spot rounding keeps and the perp table, with tick 10^-6 there, has not. */
  lemma SpotRoundedPerpMissesTable()
    ensures RoundPrice(0.0012345, 0, true) == 0.0012345
    ensures PerpTick(0, 0.0012345) == 0.000001 && !OnTable(0.0012345, 0)
  {
    SampleMagnitude();
    SampleGrids();
    hide Pow10, OnGrid, RoundPrice, Magnitude, PerpTick;
    RoundPriceFixedIff(0.0012345, 0, true);
    TableIsRule(0, 0.0012345);
  }
}
