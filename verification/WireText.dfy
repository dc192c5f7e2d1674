/** Decimal text on the wire: tools/conversions.cpp `floatToWire`.

    The stream prints eight decimals of the nearest value; on an exact tie any choice is refused by
    the rounding check that follows, so the tie rule does not matter. */
module WireText {
  import opened Decimals
  import opened Conversions

  datatype WireResult = Text(text: string) | CausesRounding

  const ONE: int := 100_000_000

  // --- digits ---

  function Digit(d: int): char
    requires 0 <= d < 10
  {
    '0' + d as char
  }

  predicate IsDigit(c: char) { '0' <= c <= '9' }

  predicate AllDigits(s: string) { forall i :: 0 <= i < |s| ==> IsDigit(s[i]) }

  /** Decimal digits of n without leading zeros. */
  function Digits(n: nat): (s: string)
    ensures |s| >= 1 && AllDigits(s)
    ensures |s| > 1 ==> s[0] != '0'
  {
    if n < 10 then [Digit(n)] else Digits(n / 10) + [Digit(n % 10)]
  }

  /** The `width` low digits of n. */
  function Padded(n: nat, width: nat): (s: string)
    ensures |s| == width && AllDigits(s)
  {
    if width == 0 then "" else Padded(n / 10, width - 1) + [Digit(n % 10)]
  }

  function DigitsValue(s: string): nat
    requires AllDigits(s)
  {
    if s == "" then 0 else 10 * DigitsValue(s[..|s| - 1]) + (s[|s| - 1] - '0') as int
  }

  function TenTo(k: nat): (p: int)
    ensures p >= 1
  {
    if k == 0 then 1 else 10 * TenTo(k - 1)
  }

  lemma {:induction false} ValueOfDigits(n: nat)
    ensures DigitsValue(Digits(n)) == n
  {
    var s := Digits(n);
    if n >= 10 {
      ValueOfDigits(n / 10);
      assert s[..|s| - 1] == Digits(n / 10);
    } else {
      assert s[..|s| - 1] == "";
    }
  }

  lemma {:induction false} ValueOfPadded(n: nat, width: nat)
    requires n < TenTo(width)
    ensures DigitsValue(Padded(n, width)) == n
    decreases width
  {
    if width > 0 {
      var s := Padded(n, width);
      assert s[..width - 1] == Padded(n / 10, width - 1);
      ValueOfPadded(n / 10, width - 1);
    }
  }

  lemma TenStep(v: int, k: nat)
    ensures v * TenTo(k + 1) == 10 * (v * TenTo(k))
  {
    assert v * (10 * TenTo(k)) == 10 * (v * TenTo(k));
  }

  lemma {:induction false} ValueOfConcat(s: string, t: string)
    requires AllDigits(s) && AllDigits(t)
    ensures AllDigits(s + t)
    ensures DigitsValue(s + t) == DigitsValue(s) * TenTo(|t|) + DigitsValue(t)
  {
    if t == "" {
      assert s + t == s;
    } else {
      var t' := t[..|t| - 1];
      ValueOfConcat(s, t');
      assert (s + t)[..|s + t| - 1] == s + t';
      TenStep(DigitsValue(s), |t'|);
    }
  }

  /** Drops trailing zeros. */
  function Trim(s: string): string {
    if s != "" && s[|s| - 1] == '0' then Trim(s[..|s| - 1]) else s
  }

  lemma {:induction false} TrimPrefix(s: string, k: nat)
    requires k <= |s| && (forall i :: k <= i < |s| ==> s[i] == '0') && (k > 0 ==> s[k - 1] != '0')
    ensures Trim(s) == s[..k]
    decreases |s|
  {
    if k < |s| {
      TrimPrefix(s[..|s| - 1], k);
      assert s[..|s| - 1][..k] == s[..k];
    } else {
      assert s[..k] == s;
    }
  }

  lemma {:induction false} TrimValue(s: string)
    requires AllDigits(s)
    ensures AllDigits(Trim(s)) && |Trim(s)| <= |s|
    ensures Trim(s) != "" ==> Trim(s)[|Trim(s)| - 1] != '0'
    ensures DigitsValue(s) == DigitsValue(Trim(s)) * TenTo(|s| - |Trim(s)|)
  {
    if s != "" && s[|s| - 1] == '0' {
      TrimValue(s[..|s| - 1]);
      TenStep(DigitsValue(Trim(s)), |s| - 1 - |Trim(s)|);
    }
  }

  // --- printing ---

  /** The value in units of 10^-8. */
  function Units(value: real): int { RoundHalfAway(value * ONE as real) }

  function Sign(negative: bool): string { if negative then "-" else "" }

  /** `std::fixed << std::setprecision(8)`. */
  function Fixed8(value: real): string {
    var n := if Units(value) < 0 then -Units(value) else Units(value);
    Sign(value < 0.0) + Digits(n / ONE) + "." + Padded(n % ONE, 8)
  }

  /** The text for a number of units: an integer part, and a fraction only when there is one. */
  function Wire(units: int): string {
    var n := if units < 0 then -units else units;
    var fraction := Trim(Padded(n % ONE, 8));
    Sign(units < 0) + Digits(n / ONE) + if fraction == "" then "" else "." + fraction
  }

  predicate Exact(value: real) {
    Abs(Units(value) as real / ONE as real - value) < 0.000000000001
  }

  lemma {:induction false} PaddedZero(width: nat)
    ensures forall i :: 0 <= i < width ==> Padded(0, width)[i] == '0'
  {
    if width > 0 { PaddedZero(width - 1); }
  }

  lemma ZeroText()
    ensures Digits(0) + "." + Padded(0, 8) == "0.00000000"
  {
    PaddedZero(8);
    assert Digits(0) == "0";
    hide Padded, Digits;
    assert Padded(0, 8) == "00000000";
  }

  lemma OnlyZeroPrintsZero(n: nat)
    requires Digits(n / ONE) + "." + Padded(n % ONE, 8) == "0.00000000"
    ensures n == 0
  {
    var whole, fraction := Digits(n / ONE), Padded(n % ONE, 8);
    assert |whole + "." + fraction| == |whole| + 9;
    assert whole == (whole + "." + fraction)[..1] == "0";
    assert fraction == (whole + "." + fraction)[2..];
    ZerosValue(whole);
    ZerosValue(fraction);
    ValueOfDigits(n / ONE);
    TenToEight();
    ValueOfPadded(n % ONE, 8);
  }

  /** The minus-zero repair makes the printed sign the sign of the rounded value. */
  lemma RepairedText(value: real)
    ensures var n := if Units(value) < 0 then -Units(value) else Units(value);
            (if Fixed8(value) == "-0.00000000" then "0.00000000" else Fixed8(value))
              == Sign(Units(value) < 0) + Digits(n / ONE) + "." + Padded(n % ONE, 8)
  {
    var n := if Units(value) < 0 then -Units(value) else Units(value);
    var body := Digits(n / ONE) + "." + Padded(n % ONE, 8);
    ZeroText();
    PrintedAs(value, n, body);
    BodyStartsWithDigit(n, body);
    hide Digits, Padded, Fixed8, Units;
    if value < 0.0 {
      assert ("-" + body)[1..] == body;
      assert "-0.00000000"[1..] == "0.00000000";
      if Fixed8(value) == "-0.00000000" { OnlyZeroPrintsZero(n); }
    }
  }

  lemma PrintedAs(value: real, n: nat, body: string)
    requires n == (if Units(value) < 0 then -Units(value) else Units(value))
    requires body == Digits(n / ONE) + "." + Padded(n % ONE, 8)
    ensures Fixed8(value) == if value < 0.0 then "-" + body else body
    ensures Sign(Units(value) < 0) + Digits(n / ONE) + "." + Padded(n % ONE, 8)
         == if Units(value) < 0 then "-" + body else body
    ensures value >= 0.0 ==> Units(value) >= 0
    ensures value < 0.0 ==> Units(value) <= 0
  {
    hide Digits, Padded;
    assert Sign(true) + Digits(n / ONE) + "." + Padded(n % ONE, 8) == "-" + body;
    assert Sign(false) + Digits(n / ONE) + "." + Padded(n % ONE, 8) == body;
  }

  lemma BodyStartsWithDigit(n: nat, body: string)
    requires body == Digits(n / ONE) + "." + Padded(n % ONE, 8)
    ensures body != "" && body[0] != '-'
    ensures n == 0 ==> body == "0.00000000"
  {
    if n == 0 { ZeroText(); }
    var whole, rest := Digits(n / ONE), "." + Padded(n % ONE, 8);
    assert IsDigit(whole[0]);
    hide Digits, Padded;
    assert body == whole + rest;
    assert body[0] == whole[0];
  }

  lemma TenToEight()
    ensures TenTo(8) == ONE
  {
    assert TenTo(2) == 100 && TenTo(4) == 10_000 && TenTo(6) == 1_000_000;
  }

  lemma {:induction false} ZerosValue(s: string)
    requires forall i :: 0 <= i < |s| ==> s[i] == '0'
    ensures AllDigits(s) && DigitsValue(s) == 0
  {
    if s != "" { ZerosValue(s[..|s| - 1]); }
  }

  /** Prints, refuses values that are not (nearly) a multiple of 10^-8, repairs minus zero, and
      trims the text in place. */
  method FloatToWire(value: real) returns (r: WireResult)
    ensures r == if Exact(value) then Text(Wire(Units(value))) else CausesRounding
  {
    var rounded := Fixed8(value);
    var back := Units(value) as real / ONE as real;
    if Abs(back - value) >= 0.000000000001 {
      return CausesRounding;
    }
    if rounded == "-0.00000000" {
      rounded := "0.00000000";
    }
    RepairedText(value);
    ghost var n := if Units(value) < 0 then -Units(value) else Units(value);
    ghost var head, fraction := Sign(Units(value) < 0) + Digits(n / ONE), Padded(n % ONE, 8);
    assert rounded == head + "." + fraction;
    hide Digits, Padded, Fixed8, Units;
    rounded := TrimZeros(rounded, head, fraction);
    r := Text(rounded);
  }

  lemma LastNonzero(text: string, head: string, fraction: string, last: nat)
    requires text == head + "." + fraction && AllDigits(fraction)
    requires |head| <= last < |text| && text[last] != '0'
    requires forall i :: last < i < |text| ==> text[i] == '0'
    ensures text[..last + 1] == head + ("." + Trim(fraction))
    ensures text[last] == '.' <==> Trim(fraction) == ""
    ensures Trim(fraction) == "" ==> text[..last + 1] == head + "."
  {
    hide Trim;
    var k := last - |head|;
    assert forall i :: 0 <= i < |fraction| ==> fraction[i] == text[|head| + 1 + i];
    TrimPrefix(fraction, k);
    if k == 0 {
      assert text[..last + 1] == head + ".";
    } else {
      assert text[last] == fraction[k - 1];
    }
    assert text[..last + 1] == head + ("." + fraction[..k]);
  }

  /** Removes trailing zeros and then a bare point. */
  method TrimZeros(text: string, ghost head: string, ghost fraction: string) returns (rounded: string)
    requires text == head + "." + fraction && AllDigits(fraction)
    ensures rounded == head + if Trim(fraction) == "" then "" else "." + Trim(fraction)
  {
    hide Trim, AllDigits;
    rounded := text;
    var decimalPos := 0;
    while decimalPos < |rounded| && rounded[decimalPos] != '.'
      invariant decimalPos <= |head|
    {
      decimalPos := decimalPos + 1;
    }
    if decimalPos < |rounded| {
      var lastNonzero := |rounded| - 1;
      while rounded[lastNonzero] == '0'
        invariant |head| <= lastNonzero < |rounded|
        invariant forall i :: lastNonzero < i < |rounded| ==> rounded[i] == '0'
        decreases lastNonzero
      {
        lastNonzero := lastNonzero - 1;
      }
      LastNonzero(rounded, head, fraction, lastNonzero);
      if lastNonzero >= decimalPos {
        rounded := rounded[..lastNonzero + 1];
      }
      if rounded[|rounded| - 1] == '.' {
        rounded := rounded[..|rounded| - 1];
      }
    }
  }

  // --- what the text means ---

  /** Index of the decimal point, or the length. */
  function Point(s: string): (i: nat)
    ensures i <= |s|
  {
    if s == "" || s[0] == '.' then 0 else 1 + Point(s[1..])
  }

  function Unsigned(text: string): string {
    if text != "" && text[0] == '-' then text[1..] else text
  }

  function Whole(text: string): string {
    Unsigned(text)[..Point(Unsigned(text))]
  }

  function Fraction(text: string): string {
    var s := Unsigned(text);
    if Point(s) < |s| then s[Point(s) + 1..] else ""
  }

  /** Digits, and a point only in front of more digits. */
  predicate WellFormed(text: string) {
    var s := Unsigned(text);
    && text != "" && Whole(text) != "" && AllDigits(Whole(text)) && AllDigits(Fraction(text))
    && (Point(s) < |s| ==> Fraction(text) != "")
  }

  datatype Parsed = Number(value: real) | NotANumber

  function Parse(text: string): Parsed {
    if !WellFormed(text) then NotANumber
    else
      var scale := TenTo(|Fraction(text)|);
      Number(Ratio(text[0] == '-', Join(DigitsValue(Whole(text)), scale, DigitsValue(Fraction(text))), scale))
  }

  /** The digits in front of and behind the point as one integer. */
  function Join(whole: int, scale: int, fraction: int): int { whole * scale + fraction }

  function Ratio(negative: bool, digits: int, scale: int): real
    requires scale > 0
  {
    (if negative then -digits else digits) as real / scale as real
  }

  /** No integer zero too many, no trailing fraction zero, at most 8 decimals, no minus zero. */
  predicate Canonical(text: string) {
    && WellFormed(text)
    && (|Whole(text)| > 1 ==> Whole(text)[0] != '0')
    && (Fraction(text) != "" ==> Fraction(text)[|Fraction(text)| - 1] != '0')
    && |Fraction(text)| <= 8
    && (text[0] == '-' ==> Parse(text) != Number(0.0))
  }

  lemma {:induction false} PointAfterDigits(digits: string, rest: string)
    requires AllDigits(digits) && (rest == "" || rest[0] == '.')
    ensures Point(digits + rest) == |digits|
  {
    if digits != "" {
      assert (digits + rest)[1..] == digits[1..] + rest;
      PointAfterDigits(digits[1..], rest);
    } else {
      assert digits + rest == rest;
    }
  }

  lemma SplitAtPoint(whole: string, fraction: string)
    requires AllDigits(whole) && AllDigits(fraction)
    ensures var s := whole + if fraction == "" then "" else "." + fraction;
            && Point(s) == |whole|
            && s[..|whole|] == whole
            && (|whole| < |s| <==> fraction != "")
            && (|whole| < |s| ==> s[|whole| + 1..] == fraction)
  {
    hide Point;
    var rest := if fraction == "" then "" else "." + fraction;
    PointAfterDigits(whole, rest);
    assert (whole + rest)[..|whole|] == whole;
    if fraction != "" { assert (whole + rest)[|whole| + 1..] == fraction; }
  }

  lemma WireSign(units: int)
    ensures var n := if units < 0 then -units else units;
            var fraction := Trim(Padded(n % ONE, 8));
            && Wire(units) != "" && (Wire(units)[0] == '-' <==> units < 0)
            && Unsigned(Wire(units)) == Digits(n / ONE) + if fraction == "" then "" else "." + fraction
  {
    var n := if units < 0 then -units else units;
    var whole, fraction := Digits(n / ONE), Trim(Padded(n % ONE, 8));
    var rest := if fraction == "" then "" else "." + fraction;
    assert whole[0] == Digits(n / ONE)[0] && IsDigit(whole[0]);
    hide Digits, Padded, Trim;
    assert Wire(units) == Sign(units < 0) + whole + rest;
    assert "" + whole + rest == whole + rest;
    assert ("-" + whole + rest)[1..] == whole + rest;
  }

  lemma WireParts(units: int)
    ensures var n := if units < 0 then -units else units;
            && Whole(Wire(units)) == Digits(n / ONE)
            && Fraction(Wire(units)) == Trim(Padded(n % ONE, 8))
            && (Wire(units) != "" && (Wire(units)[0] == '-' <==> units < 0))
            && WellFormed(Wire(units))
  {
    var n := if units < 0 then -units else units;
    WireSign(units);
    TrimValue(Padded(n % ONE, 8));
    hide Digits, Padded, Trim, Point, Unsigned, Wire;
    SplitAtPoint(Digits(n / ONE), Trim(Padded(n % ONE, 8)));
  }

  lemma {:induction false} TenToAdd(a: nat, b: nat)
    ensures TenTo(a + b) == TenTo(a) * TenTo(b)
  {
    if b > 0 {
      TenToAdd(a, b - 1);
      TenStep(TenTo(a), b - 1);
    }
  }

  lemma Cancel(x: int, t: int, u: int)
    requires t > 0 && u > 0
    ensures x as real / t as real == (x * u) as real / (t * u) as real
  {
    var q := x as real / t as real;
    assert q * t as real == x as real;
    assert (x * u) as real == x as real * u as real;
    assert (t * u) as real == t as real * u as real;
    assert q * (t as real * u as real) == x as real * u as real;
  }

  lemma TrimmedRatio(n: int, negative: bool)
    requires n >= 0
    ensures var fraction := Trim(Padded(n % ONE, 8));
            && AllDigits(fraction)
            && Ratio(negative, Join(n / ONE, TenTo(|fraction|), DigitsValue(fraction)), TenTo(|fraction|))
               == (if negative then -n else n) as real / ONE as real
  {
    TenToEight();
    ValueOfPadded(n % ONE, 8);
    TrimValue(Padded(n % ONE, 8));
    hide Padded, Trim, DigitsValue, TenTo, Ratio;
    var fraction := Trim(Padded(n % ONE, 8));
    var t, u := TenTo(|fraction|), TenTo(8 - |fraction|);
    TenToAdd(|fraction|, 8 - |fraction|);
    Expand(n / ONE, t, DigitsValue(fraction), u);
    SignedRatio(n, Join(n / ONE, t, DigitsValue(fraction)), t, u, negative);
  }

  lemma Expand(w: int, t: int, f: int, u: int)
    ensures Join(w, t, f) * u == w * (t * u) + f * u
  {
  }

  lemma SignedRatio(n: int, digits: int, t: int, u: int, negative: bool)
    requires t > 0 && u > 0 && t * u == ONE && n == digits * u
    ensures Ratio(negative, digits, t) == (if negative then -n else n) as real / ONE as real
  {
    var e := if negative then -digits else digits;
    assert e * u == if negative then -n else n;
    Cancel(e, t, u);
  }

  /** The text reads back as the rounded value. */
  lemma WireParses(units: int)
    ensures Parse(Wire(units)) == Number(units as real / ONE as real)
  {
    hide Digits, Padded, Trim, DigitsValue, TenTo, Wire, Whole, Fraction, WellFormed, Ratio, Join;
    var n := if units < 0 then -units else units;
    WireParts(units);
    TrimmedRatio(n, units < 0);
    ValueOfDigits(n / ONE);
  }

  /** Every wire text is in canonical form. */
  lemma WireCanonical(units: int)
    ensures Canonical(Wire(units))
  {
    WireParts(units);
    WireParses(units);
    TrimValue(Padded((if units < 0 then -units else units) % ONE, 8));
  }

  lemma WireAscii(units: int)
    ensures forall i :: 0 <= i < |Wire(units)| ==> Wire(units)[i] <= '9'
  {
    TrimValue(Padded((if units < 0 then -units else units) % ONE, 8));
    hide Digits, Padded, Trim;
  }

  /** Equal text exactly for equal rounded values. */
  lemma WireInjective(a: int, b: int)
    ensures Wire(a) == Wire(b) <==> a == b
  {
    WireParses(a);
    WireParses(b);
  }

  // --- which values print ---

  /** The value prints iff it lies within 10^-12 of a whole number of units of 10^-8. */
  lemma ExactIff(value: real)
    ensures Exact(value) <==> exists k: int :: NearUnits(value, k)
  {
    assert Exact(value) ==> NearUnits(value, Units(value));
    if exists k: int :: NearUnits(value, k) {
      var k: int :| NearUnits(value, k);
      assert -0.0001 < value * 100000000.0 - k as real < 0.0001;
      RoundNear(value * 100000000.0);
      assert Units(value) == k;
    }
  }

  predicate NearUnits(value: real, k: int) { Abs(k as real / 100000000.0 - value) < 0.000000000001 }

  lemma PaddedFive()
    ensures Padded(5, 8) == "00000005" && Trim("00000005") == "00000005"
  {
    PaddedZero(7);
    assert Padded(5, 8) == Padded(0, 7) + ['5'];
    hide Padded;
    assert Padded(0, 7) == "0000000";
  }

  /** Three texts: a negative fraction with leading zeros, an integer part, zero. */
  lemma WireSamples()
    ensures Wire(-5) == "-0.00000005" && Wire(1200000005) == "12.00000005" && Wire(0) == "0"
  {
    assert Digits(1) == "1";
    assert Digits(0) == "0" && Digits(12) == "12";
    hide Digits, Padded, Trim;
    PaddedFive();
    PaddedZero(8);
    TrimPrefix(Padded(0, 8), 0);
    assert 1200000005 / ONE == 12 && 1200000005 % ONE == 5;
    assert "-" + "0" + ("." + "00000005") == "-0.00000005";
    assert "" + "12" + ("." + "00000005") == "12.00000005";
  }

  lemma WholeUnits(value: real, p: real, m: real)
    requires p > 0.0 && Times(p, m) == 1.0 && OnGrid(value, p)
    ensures IsInt(value * m)
  {
    ByReciprocal(value, p, m);
  }

  lemma ExactOnGrid(value: real)
    requires Multiple(value, -8)
    ensures Exact(value) && Units(value) as real / ONE as real == value
  {
    var p, m := 0.00000001, ONE as real;
    assert Pow10(-8) == p && Times(p, m) == 1.0;
    WholeUnits(value, p, m);
    hide Pow10, OnGrid;
    RoundNear(value * m);
    assert Units(value) as real == value * m;
    DivMul(value, m);
    hide Units;
  }

  /** Prices rounded to at most 8 decimals always print, and the text reads back as the rounded price. */
  lemma RoundedPricePrints(price: real, szDecimals: int, isSpot: bool)
    requires -8 <= GridExponent(szDecimals, isSpot)
    ensures var r := RoundPrice(price, szDecimals, isSpot);
            Exact(r) && Parse(Wire(Units(r))) == Number(r)
  {
    assert Bypasses(price) ==> RoundPrice(price, szDecimals, isSpot) == price;
    hide Pow10, OnGrid, RoundPrice, Nearest, Wire, Parse;
    var r, d := RoundPrice(price, szDecimals, isSpot), GridExponent(szDecimals, isSpot);
    if Bypasses(price) {
      WholeMultiple(price);
    } else {
      ResultOnTick(price, szDecimals, isSpot);
      if r == 0.0 {
        ZeroFixed(Pow10(-8));
      } else {
        MultipleFiner(r, TickExponent(r, d), -8);
      }
    }
    ExactOnGrid(r);
    WireParses(Units(r));
  }

  lemma WholeMultiple(x: real)
    requires IsInt(x)
    ensures Multiple(x, -8)
  {
    assert Pow10(0) == 1.0;
    MultipleFiner(x, 0, -8);
  }

  /** Sizes print for up to 8 size decimals. */
  lemma RoundedSizePrints(size: real, szDecimals: int)
    requires szDecimals <= 8
    ensures var r := RoundSize(size, szDecimals);
            Exact(r) && Parse(Wire(Units(r))) == Number(r)
  {
    hide Pow10, OnGrid, RoundSize, Wire, Parse;
    RoundSizeNearest(size, size, szDecimals);
    var r := RoundSize(size, szDecimals);
    MultipleFiner(r, -szDecimals, -8);
    ExactOnGrid(r);
    WireParses(Units(r));
  }

  /** A price of nine decimals that no text shows. */
  lemma NineDecimals(e: int)
    requires e <= -9
    ensures !Exact(0.000000005) && Multiple(0.000000005, e)
  {
    assert Pow10(-9) == 0.000000001;
    assert 0.000000005 / 0.000000001 == 5.0;
    MultipleFiner(0.000000005, -9, e);
  }

  /** Every rounded price prints iff the rounding leaves at most 8 decimals: for perps from -2 size
      decimals up, for spot from 0 up. */
  lemma PricesPrintIff(szDecimals: int, isSpot: bool)
    ensures (forall price :: Exact(RoundPrice(price, szDecimals, isSpot))) <==> -8 <= GridExponent(szDecimals, isSpot)
  {
    var d, x := GridExponent(szDecimals, isSpot), 0.000000005;
    hide Exact, RoundPrice, Multiple, GridExponent;
    if -8 <= d {
      forall price ensures Exact(RoundPrice(price, szDecimals, isSpot)) {
        RoundedPricePrints(price, szDecimals, isSpot);
      }
    } else {
      SmallMagnitude();
      NineDecimals(TickExponent(x, d));
      RoundPriceFixedIff(x, szDecimals, isSpot);
      assert RoundPrice(x, szDecimals, isSpot) == x;
    }
  }

  lemma SmallMagnitude()
    ensures Magnitude(0.000000005) == -9
  {
    assert Pow10(-9) == 0.000000001 && Pow10(-8) == 0.00000001;
    MagnitudeUnique(0.000000005, -9);
  }

  /** Every rounded size prints iff there are at most 8 size decimals. */
  lemma SizesPrintIff(szDecimals: int)
    ensures (forall size :: Exact(RoundSize(size, szDecimals))) <==> szDecimals <= 8
  {
    var x := 0.000000005;
    hide Exact, RoundSize, Multiple;
    if szDecimals <= 8 {
      forall size ensures Exact(RoundSize(size, szDecimals)) {
        RoundedSizePrints(size, szDecimals);
      }
    } else {
      NineDecimals(-szDecimals);
      RoundSizeNearest(x, x, szDecimals);
      assert RoundSize(x, szDecimals) == x;
    }
  }
}
