// What each row of an admitted forecast says, in real arithmetic: whether it is projected,
// why it is unavailable when it is, and how near its ratios are to the quotients they stand
// for.
module ForecastRows {
  import opened Wrappers
  import opened Digits
  import opened Decimals
  import opened Division
  import opened CashFlow
  import opened CashFlowExact
  import opened ForecastMoney
  import opened ForecastRequest
  import opened ForecastAdmission

  /* ----- a ratio ----- */

  function Size(x: real): real { if x < 0.0 then -x else x }

  predicate Nearby(x: real, y: real, gap: real) { x - y <= gap && y - x <= gap }

  // A quotient computed to a number of digits and then brought to four places: within half a
  // place of the true one, but for one part in ten to one digit fewer.
  predicate NearQuotient(prec: nat, value: int, numerator: int, denominator: int)
    requires prec >= 1
  {
    var apart := value * denominator - 10_000 * numerator;
    Shift(2 * Abs(apart), prec - 1) <= Shift(denominator, prec - 1) + 20_000 * Abs(numerator)
  }

  // Adding up so many times, and moving up so many places, are linear.
  lemma {:induction false} ManyAdd(n: nat, x: real, y: real)
    ensures Many(n, x + y) == Many(n, x) + Many(n, y)
    ensures Many(n, x - y) == Many(n, x) - Many(n, y)
    ensures Many(n, 2.0 * x) == 2.0 * Many(n, x)
    ensures Many(n, 0.0) == 0.0
  {
    if n > 0 {
      ManyAdd(n - 1, x, y);
    }
  }

  lemma {:induction false} ManyParts(n: nat, x: real)
    ensures 10000.0 * Many(n, x / 10000.0) == Many(n, x)
    ensures 20000.0 * Many(n, 0.00005) == n as real
  {
    if n > 0 {
      ManyParts(n - 1, x);
    }
  }

  lemma ManySize(n: nat, x: real)
    ensures Many(n, Size(x)) == Size(Many(n, x))
  {
    ManyAdd(n, 0.0, x);
    if x < 0.0 {
      assert Many(n, 0.0 - x) == Many(n, 0.0) - Many(n, x);
      ManyMono(n, x, 0.0);
    } else {
      ManyMono(n, 0.0, x);
    }
  }

  lemma {:induction false} LevelMany(n: nat, x: real, e: int)
    ensures Level(Many(n, x), e) == Many(n, Level(x, e))
  {
    if n > 0 {
      LevelMany(n - 1, x, e);
      LevelSum(x, Many(n - 1, x), e);
    } else {
      LevelZero(e);
    }
  }

  lemma {:induction false} LevelScales(x: real, k: nat)
    ensures Level(20000.0 * x, k) == 20000.0 * Level(x, k)
    ensures Level(2.0 * x, k) == 2.0 * Level(x, k)
    ensures x >= 0.0 ==> Level(x, k) >= x && (k > 0 ==> Level(x, k) >= 10.0 * x)
  {
    if k > 0 {
      LevelScales(x, k - 1);
    }
  }

  lemma LevelDifference(x: real, y: real, e: int)
    ensures Level(x - y, e) == Level(x, e) - Level(y, e)
  {
    LevelSum(x - y, y, e);
    assert (x - y) + y == x;
  }

  // How far a quotient rounded twice is from the one it stands for, the divisor's times.
  lemma SizesAdd(d: nat, n: real, x: real, y: real, z: real)
    ensures Size(Many(d, z) - n) <= Many(d, Size(z - y)) + Many(d, Size(y - x)) + Size(Many(d, x) - n)
    ensures Many(d, y) <= n + Size(Many(d, x) - n) + Many(d, Size(y - x))
  {
    ManySize(d, z - y);
    ManySize(d, y - x);
    ManyAdd(d, z, y);
    ManyAdd(d, y, x);
  }

  // Rounding before the last: `second` is its error and `third` the division's, both times
  // the divisor, and `w` and `v` are `t` times them.
  lemma RoundingIsSmall(n: real, third: real, second: real, v: real, w: real)
    requires n >= 0.0 && second >= 0.0 && third >= 0.0
    requires 2.0 * w <= n + third + second && 10.0 * second <= w && 10.0 * third <= v && 10.0 * v <= n
    ensures w + v <= n
  {
  }

  // The last rounding's error: half a place, the divisor's times.
  lemma FirstError(d: nat, e: real, k: nat)
    requires e <= 0.00005
    ensures 20000.0 * Level(Many(d, e), k) <= Level(d as real, k)
  {
    ManyMono(d, e, 0.00005);
    ManyParts(d, 0.0);
    LevelMono(Many(d, e), Many(d, 0.00005), k);
    LevelScales(Many(d, 0.00005), k);
  }

  // The errors of the rounding before it and of the division.
  lemma SecondError(d: nat, n: real, y: real, e: real, third: real, k: nat)
    requires k >= 1 && n >= 0.0 && e >= 0.0 && third >= 0.0
    requires Level(2.0 * e, k) <= y && Level(third, k + 1) <= n && Many(d, y) <= n + third + Many(d, e)
    ensures Level(Many(d, e), k) + Level(third, k) <= n
  {
    var second := Many(d, e);
    ManyMono(d, 0.0, e);
    ManyAdd(d, e, 0.0);
    ManyMono(d, Level(2.0 * e, k), y);
    LevelMany(d, 2.0 * e, k);
    LevelScales(second, k);
    LevelScales(third, k);
    LevelTen(third, k);
    RoundingIsSmall(n, third, second, Level(third, k), Level(second, k));
  }

  // All three together, `all` being no more than they come to.
  lemma ErrorsAdd(d: nat, n: real, y: real, e1: real, e2: real, e3: real, all: real, k: nat)
    requires k >= 1 && n >= 0.0 && e2 >= 0.0 && e3 >= 0.0 && e1 <= 0.00005
    requires Level(2.0 * e2, k) <= y && Level(e3, k + 1) <= n && Many(d, y) <= n + e3 + Many(d, e2)
    requires all <= Many(d, e1) + Many(d, e2) + e3
    ensures 20000.0 * Level(all, k) <= Level(d as real, k) + 20000.0 * n
  {
    var a, b := Many(d, e1), Many(d, e2);
    LevelMono(all, a + b + e3, k);
    LevelSum(a + b, e3, k);
    LevelSum(a, b, k);
    FirstError(d, e1, k);
    SecondError(d, n, y, e2, e3, k);
  }

  lemma ValueIsNear(d: nat, n: nat, x: real, y: real, z: real, k: nat)
    requires k >= 1 && Nearby(z, y, 0.00005)
    requires Level(2.0 * Size(y - x), k) <= y && Level(Size(Many(d, x) - n as real), k + 1) <= n as real
    ensures 20000.0 * Level(Size(Many(d, z) - n as real), k) <= Level(d as real, k) + 20000.0 * n as real
  {
    SizesAdd(d, n as real, x, y, z);
    ErrorsAdd(d, n as real, y, Size(z - y), Size(y - x), Size(Many(d, x) - n as real), Size(Many(d, z) - n as real), k);
  }

  // A division, before it is rounded: no further from the quotient than its last place, which
  // is past the digits kept.
  lemma DivisionIsNear(prec: nat, n: nat, d: nat)
    requires prec >= 1 && n > 0 && d > 0 && Width(n) <= prec + 1
    ensures Level(Size(Many(d, Value(RawQuotient(prec, Dec(n, -6), Dec(d, -6)))) - n as real), prec) <= n as real
  {
    var shift := Width(d) as int - Width(n) as int + prec + 1;
    var q, product, top := RawDigits(prec, n, d, shift);
    WideEnough(prec, n, d, shift);
    DigitsAreNear(prec, n, d, q, product, top, shift);
  }

  lemma DigitsAreNear(prec: nat, n: nat, d: nat, q: nat, product: nat, top: nat, shift: nat)
    requires top == Shift(n, shift) && Many(d, q as real) == product as real
    requires Abs(product - top) <= d && Shift(d, prec) <= top
    ensures Level(Size(Many(d, Level(q as real, -(shift as int))) - n as real), prec) <= n as real
  {
    var e := -(shift as int);
    LevelShift(n, shift, e);
    LevelMany(d, q as real, e);
    LevelGap(product as real, top as real, d as real, e);
    ShiftBelow(d, prec, top, e);
    LevelMono(Size(Level(product as real, e) - Level(top as real, e)), Level(d as real, e), prec);
  }

  // The digits a division gives, at the place it is carried to, and what they stand for.
  lemma RawDigits(prec: nat, n: nat, d: nat, shift: int) returns (q: nat, product: nat, top: nat)
    requires prec >= 1 && n > 0 && d > 0 && shift >= 0 && shift == Width(d) as int - Width(n) as int + prec + 1
    ensures top == Shift(n, shift) && Abs(product - top) <= d && Many(d, q as real) == product as real
    ensures Value(RawQuotient(prec, Dec(n, -6), Dec(d, -6))) == Level(q as real, -shift)
  {
    ShiftGrows(n, shift);
    top := Shift(n, shift);
    QuotientIsSigned(top, d);
    q, product := StickyDigits(top, d, top / d, top % d);
    StrippedValue(top / d, -shift, 0);
  }

  lemma StickyDigits(top: nat, d: nat, whole: nat, rest: nat) returns (q: nat, product: nat)
    requires d > 0 && whole == top / d && rest == top % d
    ensures q == if rest != 0 && whole % 5 == 0 then whole + 1 else whole
    ensures Abs(product - top) <= d && Many(d, q as real) == product as real
  {
    q := if rest != 0 && whole % 5 == 0 then whole + 1 else whole;
    QuotientError(top, d, q);
    product := q * d;
    ManyProduct(d, q);
    assert d * q == q * d;
  }

  lemma QuotientError(top: nat, d: nat, q: nat)
    requires d > 0 && (q == top / d || (q == top / d + 1 && top % d != 0))
    ensures Abs(q * d - top) <= d
  {
    assert top == (top / d) * d + top % d;
    assert (top / d + 1) * d == (top / d) * d + d;
  }

  lemma LevelGap(x: real, y: real, gap: real, e: int)
    requires x - y <= gap && y - x <= gap
    ensures Size(Level(x, e) - Level(y, e)) <= Level(gap, e)
  {
    LevelDifference(x, y, e);
    LevelDifference(y, x, e);
    LevelMono(x - y, gap, e);
    LevelMono(y - x, gap, e);
  }

  lemma WideEnough(prec: nat, n: nat, d: nat, shift: int)
    requires n > 0 && d > 0 && shift >= 0 && shift == Width(d) as int - Width(n) as int + prec + 1
    ensures Shift(d, prec) <= Shift(n, shift)
  {
    WidthBounds(n);
    WidthBounds(d);
    ShiftMono(d, Pow10(Width(d)), prec);
    TenTo(Width(d), prec);
    ShiftMono(Pow10(Width(n) - 1), n, shift);
    TenTo(Width(n) - 1, shift);
  }

  lemma ShiftBelow(c: nat, k: nat, top: int, e: int)
    requires Shift(c, k) <= top
    ensures Level(Level(c as real, e), k) <= Level(top as real, e)
  {
    LevelShift(c, k, e);
    LevelMono(Shift(c, k) as real, top as real, e);
    LevelLevel(c as real, e, k);
  }

  // Four places, half to even.
  lemma PlacesAreNear(prec: nat, f: Dec, exp: int)
    requires exp == -4 && f.coef >= 0 && Quantize(prec, f, exp).Some?
    ensures Quantize(prec, f, exp).value.coef >= 0
    ensures Nearby(Quantize(prec, f, exp).value.coef as real / 10000.0, Value(f), 0.00005)
  {
    var v := Quantize(prec, f, exp).value.coef;
    FourPlaces(v as real);
    if f.exp >= exp {
      ShiftMono(0, f.coef, f.exp - exp);
      ShiftSum(0, 0, f.exp - exp);
      ValueAt(f, exp);
    } else {
      var k := exp - f.exp;
      HalfEvenBounds(f.coef, k);
      var kept, n := Shift(v, k), f.coef;
      LevelShift(v, k, f.exp);
      LevelShift(1, k, f.exp);
      ShiftOne(k);
      FourPlaces(1.0);
      HalfLevel(kept, n, Pow10(k), f.exp);
    }
  }

  lemma FourPlaces(x: real)
    ensures Level(x, -4) == x / 10000.0
  {
    assert Level(x, -1) == Level(x, 0) / 10.0 && Level(x, -2) == Level(x, -1) / 10.0;
    assert Level(x, -3) == Level(x, -2) / 10.0 && Level(x, -4) == Level(x, -3) / 10.0;
  }

  lemma HalfLevel(kept: int, n: int, unit: nat, e: int)
    requires Abs(2 * (kept - n)) <= unit
    ensures 2.0 * (Level(kept as real, e) - Level(n as real, e)) <= Level(unit as real, e)
    ensures 2.0 * (Level(n as real, e) - Level(kept as real, e)) <= Level(unit as real, e)
  {
    LevelTwice(kept as real, n as real, e);
    LevelTwice(n as real, kept as real, e);
    LevelMono(2.0 * (kept as real - n as real), unit as real, e);
    LevelMono(2.0 * (n as real - kept as real), unit as real, e);
  }

  lemma RoundingIsNear(prec: nat, raw: Dec)
    requires prec >= 1 && raw.coef >= 0
    ensures Level(2.0 * Size(Value(Fix(prec, raw)) - Value(raw)), prec - 1) <= Value(Fix(prec, raw))
    ensures Fix(prec, raw).coef >= 0
  {
    FixValue(prec, raw);
    FixBounds(prec, raw);
    var f := Fix(prec, raw);
    ShiftMono(0, f.coef, f.exp - raw.exp);
    ShiftSum(0, 0, f.exp - raw.exp);
  }

  lemma RatioParts(prec: nat, n: nat, d: nat) returns (raw: Dec, value: nat)
    requires prec >= 2 && n > 0 && d > 0 && Width(n) <= prec + 1 && !RatioOf(prec, n, d).Trapped?
    ensures raw == RawQuotient(prec, Dec(n, -6), Dec(d, -6)) && raw.coef >= 0 && Fix(prec, raw).coef >= 0
    ensures RatioOf(prec, n, d) == Ratio(value)
    ensures Quantize(prec, Fix(prec, raw), -4).Some? && value == Quantize(prec, Fix(prec, raw), -4).value.coef
  {
    raw := RawQuotient(prec, Dec(n, -6), Dec(d, -6));
    RoundingIsNear(prec, raw);
    PlacesAreNear(prec, Fix(prec, raw), -4);
    value := Quantize(prec, Fix(prec, raw), -4).value.coef;
  }

  lemma SignedRatio(prec: nat, numerator: int, denominator: int)
    requires prec >= 1
    ensures RatioOf(prec, Abs(numerator), denominator).Trapped? <==> RatioOf(prec, numerator, denominator).Trapped?
    ensures RatioOf(prec, numerator, denominator).Ratio? ==>
              && RatioOf(prec, Abs(numerator), denominator).Ratio?
              && RatioOf(prec, numerator, denominator).value == Signed(numerator, RatioOf(prec, Abs(numerator), denominator).value)
  {
  }

  // In whole numbers: `apart` ten-thousandths, the divisor's times.
  lemma InWholeNumbers(value: nat, n: nat, d: nat, product: nat, k: nat)
    requires product == d * value
    requires 20000.0 * Level(Size(Many(d, value as real / 10000.0) - n as real), k) <= Level(d as real, k) + 20000.0 * n as real
    ensures Shift(2 * Abs(product - 10_000 * n), k) <= Shift(d, k) + 20_000 * n
  {
    var apart := Abs(product - 10_000 * n);
    ManyProduct(d, value);
    ManyParts(d, value as real);
    var size := Size(Many(d, value as real / 10000.0) - n as real);
    assert 10000.0 * size == apart as real;
    LevelScales(size, k);
    assert 20000.0 * size == (2 * apart) as real;
    LevelShift(2 * apart, k, 0);
    LevelShift(d, k, 0);
  }

  lemma WholeIsNear(prec: nat, value: nat, n: nat, d: nat)
    requires prec >= 1
    requires 20000.0 * Level(Size(Many(d, value as real / 10000.0) - n as real), prec - 1)
             <= Level(d as real, prec - 1) + 20000.0 * n as real
    ensures NearQuotient(prec, value, n, d)
  {
    var product := d * value;
    assert product == value * d;
    InWholeNumbers(value, n, d, product, prec - 1);
  }

  lemma PositiveRatioIsNear(prec: nat, n: nat, d: nat) returns (value: nat)
    requires prec >= 2 && n > 0 && d > 0 && Width(n) <= prec + 1 && !RatioOf(prec, n, d).Trapped?
    ensures RatioOf(prec, n, d) == Ratio(value)
    ensures NearQuotient(prec, value, n, d)
  {
    var raw;
    raw, value := RatioParts(prec, n, d);
    RoundedIsNear(prec, n, d, raw, Fix(prec, raw), value);
    WholeIsNear(prec, value, n, d);
  }

  lemma RoundedIsNear(prec: nat, n: nat, d: nat, raw: Dec, fixed: Dec, value: nat)
    requires prec >= 2 && n > 0 && d > 0 && Width(n) <= prec + 1
    requires raw == RawQuotient(prec, Dec(n, -6), Dec(d, -6)) && fixed == Fix(prec, raw) && fixed.coef >= 0
    requires Quantize(prec, fixed, -4).Some? && value == Quantize(prec, fixed, -4).value.coef
    ensures 20000.0 * Level(Size(Many(d, value as real / 10000.0) - n as real), prec - 1)
            <= Level(d as real, prec - 1) + 20000.0 * n as real
  {
    PlacesAreNear(prec, fixed, -4);
    RoundingIsNear(prec, raw);
    DivisionIsNear(prec, n, d);
    ValueIsNear(d, n, Value(raw), Value(fixed), value as real / 10000.0, prec - 1);
  }

  // A ratio is within half a place of the quotient it stands for, but for one part in ten to
  // the context's digits; there is none exactly when there is nothing to divide by.
  lemma RatioIsNear(prec: nat, numerator: int, denominator: int)
    requires prec >= 2 && Width(Abs(numerator)) <= prec + 1 && !RatioOf(prec, numerator, denominator).Trapped?
    ensures RatioOf(prec, numerator, denominator).NoRatio? <==> denominator <= 0
    ensures denominator > 0 ==>
              && RatioOf(prec, numerator, denominator).Ratio?
              && NearQuotient(prec, RatioOf(prec, numerator, denominator).value, numerator, denominator)
  {
    if denominator > 0 {
      SignedRatio(prec, numerator, denominator);
      var n := Abs(numerator);
      if n == 0 {
        NothingIsNear(prec, denominator);
      } else {
        var value := PositiveRatioIsNear(prec, n, denominator);
        NearEitherSign(prec, value, numerator, denominator);
      }
    }
  }

  lemma NearEitherSign(prec: nat, value: nat, numerator: int, d: nat)
    requires prec >= 1 && NearQuotient(prec, value, Abs(numerator), d)
    ensures NearQuotient(prec, Signed(numerator, value), numerator, d)
  {
    assert Signed(numerator, value) * d - 10_000 * numerator == Signed(numerator, value * d - 10_000 * Abs(numerator));
  }

  lemma NothingIsNear(prec: nat, d: nat)
    requires prec >= 2 && d > 0
    ensures RatioOf(prec, 0, d) == Ratio(0) && NearQuotient(prec, 0, 0, d)
  {
    assert Fix(prec, Dec(0, 0)) == Dec(0, 0);
    ShiftSum(0, 0, 4);
    ShiftSum(0, 0, prec - 1);
    ShiftMono(0, d, prec - 1);
    assert Quantize(prec, Dec(0, 0), -4) == Some(Dec(0, -4));
  }

  /* ----- where a row of a case stands ----- */

  // A row opens where the rows before it left its case, and is unavailable from the start
  // exactly when one of them is.
  lemma CaseRowIs(prec: nat, inputs: Inputs, periods: seq<Period>, opening: Balance, k: nat)
    requires prec >= 1 && k < |periods|
    ensures var rows := CaseRows(prec, inputs, periods, opening, false);
            rows[k] == RowOf(prec, inputs, periods[k], LastClosing(rows[..k], opening), AnyUnavailable(rows[..k]))
  {
    var p, q := periods[..k], periods[k..];
    var rows, first := CaseRows(prec, inputs, periods, opening, false), CaseRows(prec, inputs, p, opening, false);
    assert p + q == periods;
    ForecastSplits(prec, inputs, p, q, opening, false);
    assert rows[..k] == first;
    UnavailableStays(prec, inputs, p, opening);
    ChainUnfolds(prec, inputs, q, LastClosing(first, opening), EndsUnavailable(first, false));
  }

  predicate AnyUnavailable(rows: seq<Row>) { exists j :: 0 <= j < |rows| && rows[j].reason.Some? }

  lemma UnavailableStays(prec: nat, inputs: Inputs, periods: seq<Period>, opening: Balance)
    requires prec >= 1
    ensures var rows := CaseRows(prec, inputs, periods, opening, false);
            EndsUnavailable(rows, false) <==> AnyUnavailable(rows)
  {
    var rows := CaseRows(prec, inputs, periods, opening, false);
    if rows != [] {
      assert rows[|rows| - 1].reason.Some? ==> AnyUnavailable(rows);
      if j :| 0 <= j < |rows| && rows[j].reason.Some? {
        if j < |rows| - 1 {
          UnavailableLatches(prec, inputs, periods, opening, false, j, |rows| - 1);
        }
      }
    }
  }

  /* ----- room in the context ----- */

  // A row of an admitted forecast is exact, none of its amounts or ratios traps, and its
  // balances leave room to be taken from one another.
  ghost predicate Roomy(prec: nat, p: Projection, owned: bool)
    requires prec >= 1
  {
    IsExact(p, owned) && NeverTraps(prec, p) && Abs(p.closing.debt - p.closing.cash) < Pow10(prec)
  }

  lemma ReachIsRoomy(prec: nat, p: Projection, owned: bool, reach: nat, most: nat)
    requires prec >= 6 && IsExact(p, owned) && NeverTraps(prec, p) && BalanceWithin(p.closing, reach)
    requires 2 * (reach + most) < Pow10(prec - 5)
    ensures Roomy(prec, p, owned)
  {
    Pow10Grows(prec - 5, prec);
  }

  lemma CaseHasRoom(prec: nat, inputs: Inputs, periods: seq<Period>, most: nat, size: nat, k: nat)
    requires prec >= 6 && InputsWithin(inputs, most) && BalanceWithin(inputs.opening, size) && k < |periods|
    requires 2 * (Reach(size, most, k + 1) + most) < Pow10(prec - 5)
    ensures var row := CaseRows(prec, inputs, periods, inputs.opening, false)[k];
            row.projection.Some? ==> Roomy(prec, row.projection.value, inputs.owned)
  {
    CaseIsExact(prec, inputs, periods, inputs.opening, false, most, size, k);
    var row := CaseRows(prec, inputs, periods, inputs.opening, false)[k];
    if row.projection.Some? {
      ReachIsRoomy(prec, row.projection.value, inputs.owned, Reach(size, most, k + 1), most);
    }
  }

  lemma ShortCaseHasRoom(prec: nat, inputs: Inputs, periods: seq<Period>, most: nat, size: nat, k: nat)
    requires prec >= 6 && InputsWithin(inputs, most) && BalanceWithin(inputs.opening, size)
    requires k < |periods| <= MAX_FORECAST_PERIODS
    requires forall j: nat :: j <= MAX_FORECAST_PERIODS ==> 2 * (Reach(size, most, j) + most) < Pow10(prec - 5)
    ensures var row := CaseRows(prec, inputs, periods, inputs.opening, false)[k];
            row.projection.Some? ==> Roomy(prec, row.projection.value, inputs.owned)
  {
    CaseHasRoom(prec, inputs, periods, most, size, k);
  }

  lemma AdmittedHasRoom(request: Request, inputs: Inputs, own: seq<Period>, case_: string, k: nat)
    requires Admitted(request) && ParsesTo(request, inputs) && case_ in CasesOf(request.periods)
    requires own == PeriodsOf(ReadPeriods(request.periods), case_) && k < |own|
    ensures var row := CaseRows(CONTEXT_DIGITS, inputs, own, inputs.opening, false)[k];
            row.projection.Some? ==> Roomy(CONTEXT_DIGITS, row.projection.value, inputs.owned)
  {
    var places := WHOLE_DIGITS + PLACES;
    var most, size := MAX_AMORTISATION * Pow10(places), MAX_FORECAST_FACILITIES * Pow10(places);
    ParsedIsSmall(request, inputs, places);
    CaseIsShort(request, case_);
    forall j: nat | j <= MAX_FORECAST_PERIODS
      ensures 2 * (Reach(size, most, j) + most) < Pow10(CONTEXT_DIGITS - 5)
    {
      FortyPeriodsFit(j, places);
    }
    ShortCaseHasRoom(CONTEXT_DIGITS, inputs, own, most, size, k);
  }

  /* ----- the drivers as they were stated ----- */

  lemma {:induction false} DriversRead(rows: seq<RawDriver>, pair: Pair)
    requires forall i, j :: 0 <= i < j < |rows| ==> rows[i].pair != rows[j].pair
    ensures pair in ReadDrivers(rows) <==> exists i :: 0 <= i < |rows| && rows[i].pair == pair
    ensures forall i :: 0 <= i < |rows| && rows[i].pair == pair ==> ReadDrivers(rows)[pair] == ReadDriver(rows[i])
  {
    if rows != [] {
      DriversRead(rows[..|rows| - 1], pair);
    }
  }

  // The driver a request states for a period, if it states one.
  ghost predicate StatesDriver(request: Request, pair: Pair, driver: RawDriver) {
    driver in request.drivers && driver.pair == pair
  }

  // A move a driver may leave out.
  const OPTIONAL := {NetEquity, OtherInvestingFinancing, RestrictedCash, CarryingValue}

  predicate StatesEveryMove(driver: RawDriver) {
    forall move :: move !in OPTIONAL ==> move in driver.moves
  }

  lemma RequiredOrOptional(move: Move)
    ensures move in REQUIRED <==> move !in OPTIONAL
  {
    match move
    case NetEquity => assert move in OPTIONAL;
    case OtherInvestingFinancing => assert move in OPTIONAL;
    case RestrictedCash => assert move in OPTIONAL;
    case CarryingValue => assert move in OPTIONAL;
    case _ =>
      assert move in REQUIRED;
  }

  lemma RequiredAreTheRest(driver: RawDriver)
    ensures REQUIRED <= ReadDriver(driver).moves.Keys <==> StatesEveryMove(driver)
  {
    forall move: Move
      ensures move in REQUIRED <==> move !in OPTIONAL
    {
      RequiredOrOptional(move);
    }
    assert ReadDriver(driver).moves.Keys == driver.moves.Keys;
  }

  /* ----- why a row is unavailable ----- */

  // A stated balance is further from the one reached than the tolerance, or than a thousandth of
  // the one opened with.
  predicate Misses(stated: real, closing: real, tolerance: real, opening: real) {
    Size(stated - closing) > tolerance || Size(stated - closing) > Size(opening) / 1000.0
  }

  predicate MissesEither(p: Projection, tolerance: int) {
    || Misses(p.driver.statedDebt as real, p.closing.debt as real, tolerance as real, p.opening.debt as real)
    || Misses(p.driver.statedCash as real, p.closing.cash as real, tolerance as real, p.opening.cash as real)
  }

  lemma ReconcilesWhenNear(prec: nat, stated: int, closing: int, tolerance: int, opening: int)
    requires prec >= 1 && Prints(prec, opening)
    ensures Reconciles(prec, stated - closing, tolerance, opening)
            <==> !Misses(stated as real, closing as real, tolerance as real, opening as real)
  {
    WidthBounds(Abs(opening));
    Pow10Grows(Width(Abs(opening)), prec);
    KeptIsExact(prec, Abs(opening));
    assert Size(stated as real - closing as real) == Abs(stated - closing) as real;
    assert Size(opening as real) == Abs(opening) as real;
  }

  lemma UnreconciledExactly(prec: nat, inputs: Inputs, period: Period, opening: Balance)
    requires prec >= 1
    requires var row := RowOf(prec, inputs, period, opening, false);
             row.projection.Some? && Roomy(prec, row.projection.value, inputs.owned)
    ensures var row := RowOf(prec, inputs, period, opening, false);
            && row.projection.value.opening == opening
            && row.reason == if MissesEither(row.projection.value, inputs.tolerance) then Some(Unreconciled) else None
  {
    ProjectedRow(prec, inputs, period, opening, false);
    var p := RowOf(prec, inputs, period, opening, false).projection.value;
    assert Amounts(p)[2] == p.opening.debt && Amounts(p)[3] == p.opening.cash;
    assert Prints(prec, Amounts(p)[2]) && Prints(prec, Amounts(p)[3]);
    ReconcilesWhenNear(prec, p.driver.statedDebt, p.closing.debt, inputs.tolerance, opening.debt);
    ReconcilesWhenNear(prec, p.driver.statedCash, p.closing.cash, inputs.tolerance, opening.cash);
  }

  // The rows of a case up to one of them, and that one.
  datatype Standing = Standing(row: Row, opening: Balance, earlier: bool)

  // What a row says, all of it against the request as it was written.
  ghost predicate Tells(request: Request, standing: Standing, tolerance: int) {
    var row, pair := standing.row, standing.row.period.pair;
    && (row.reason == Some(PriorUnavailable) <==> standing.earlier)
    && (row.reason == Some(DriverMissing) <==>
          !standing.earlier && !exists driver :: StatesDriver(request, pair, driver))
    && (row.reason == Some(DriverNotReady) <==>
          !standing.earlier && exists driver :: StatesDriver(request, pair, driver) && driver.status != "READY")
    && (row.reason == Some(DriverFieldMissing) <==>
          && !standing.earlier
          && exists driver :: StatesDriver(request, pair, driver) && driver.status == "READY" && !StatesEveryMove(driver))
    && (row.projection.Some? <==>
          && !standing.earlier
          && exists driver :: StatesDriver(request, pair, driver) && driver.status == "READY" && StatesEveryMove(driver))
    && (row.projection.Some? ==>
          var p := row.projection.value;
          && (exists driver :: StatesDriver(request, pair, driver) && p.driver == ReadDriver(driver))
          && p.opening == standing.opening
          && (row.reason == Some(Unreconciled) <==> MissesEither(p, tolerance))
          && (row.reason == None <==> !MissesEither(p, tolerance)))
  }

  lemma OneDriver(request: Request, pair: Pair, a: RawDriver, b: RawDriver)
    requires Admitted(request) && StatesDriver(request, pair, a) && StatesDriver(request, pair, b)
    ensures a == b
  {
    var i :| 0 <= i < |request.drivers| && request.drivers[i] == a;
    var j :| 0 <= j < |request.drivers| && request.drivers[j] == b;
  }

  // The driver a period is read with is the one the request states for it.
  lemma StatedIsRead(request: Request, inputs: Inputs, pair: Pair, driver: RawDriver)
    requires Admitted(request) && ParsesTo(request, inputs) && StatesDriver(request, pair, driver)
    ensures pair in inputs.drivers && inputs.drivers[pair] == ReadDriver(driver)
  {
    var i :| 0 <= i < |request.drivers| && request.drivers[i] == driver;
    DriversRead(request.drivers, pair);
  }

  lemma ReadIsStated(request: Request, inputs: Inputs, pair: Pair)
    requires Admitted(request) && ParsesTo(request, inputs) && pair in inputs.drivers
    ensures exists driver :: StatesDriver(request, pair, driver)
  {
    DriversRead(request.drivers, pair);
    var i :| 0 <= i < |request.drivers| && request.drivers[i].pair == pair;
    assert StatesDriver(request, pair, request.drivers[i]);
  }

  lemma RowTellsOfItsDriver(prec: nat, request: Request, inputs: Inputs, period: Period, opening: Balance, driver: RawDriver)
    requires prec >= 1 && Admitted(request) && ParsesTo(request, inputs) && StatesDriver(request, period.pair, driver)
    requires var row := RowOf(prec, inputs, period, opening, false);
             row.projection.Some? ==> Roomy(prec, row.projection.value, inputs.owned)
    ensures Tells(request, Standing(RowOf(prec, inputs, period, opening, false), opening, false), inputs.tolerance)
  {
    var row, pair := RowOf(prec, inputs, period, opening, false), period.pair;
    StatedIsRead(request, inputs, pair, driver);
    RequiredAreTheRest(driver);
    RowKeepsPeriod(prec, inputs, period, opening, false);
    forall other | StatesDriver(request, pair, other)
      ensures other == driver
    {
      OneDriver(request, pair, other, driver);
    }
    if row.projection.Some? {
      ProjectedRow(prec, inputs, period, opening, false);
      UnreconciledExactly(prec, inputs, period, opening);
    }
  }

  lemma RowTellsOfNoDriver(prec: nat, request: Request, inputs: Inputs, period: Period, opening: Balance)
    requires prec >= 1 && Admitted(request) && ParsesTo(request, inputs)
    requires !exists driver :: StatesDriver(request, period.pair, driver)
    ensures Tells(request, Standing(RowOf(prec, inputs, period, opening, false), opening, false), inputs.tolerance)
  {
    if period.pair in inputs.drivers {
      ReadIsStated(request, inputs, period.pair);
    }
    assert RowOf(prec, inputs, period, opening, false) == Row(period, Some(DriverMissing), None);
  }

  lemma RowTells(prec: nat, request: Request, inputs: Inputs, period: Period, opening: Balance, earlier: bool)
    requires prec >= 1 && Admitted(request) && ParsesTo(request, inputs)
    requires var row := RowOf(prec, inputs, period, opening, earlier);
             row.projection.Some? ==> Roomy(prec, row.projection.value, inputs.owned)
    ensures Tells(request, Standing(RowOf(prec, inputs, period, opening, earlier), opening, earlier), inputs.tolerance)
  {
    if earlier {
      assert RowOf(prec, inputs, period, opening, earlier) == Row(period, Some(PriorUnavailable), None);
    } else if driver :| StatesDriver(request, period.pair, driver) {
      RowTellsOfItsDriver(prec, request, inputs, period, opening, driver);
    } else {
      RowTellsOfNoDriver(prec, request, inputs, period, opening);
    }
  }

  // Every row of every admitted forecast says what its request states of its period, and no
  // more than that: it is projected exactly when no earlier row of its case is unavailable and
  // its driver is there, ready and whole; it gives the reason that fails otherwise; and, where
  // it is projected, it reconciles exactly when neither stated balance misses the one reached.
  lemma AdmittedRowTells(request: Request, inputs: Inputs, rows: seq<Row>, case_: string, k: nat)
    requires Admitted(request) && ParsesTo(request, inputs) && case_ in CasesOf(request.periods)
    requires rows == RowsOf(Forecast(CONTEXT_DIGITS, inputs, ReadPeriods(request.periods), FRESH), case_) && k < |rows|
    ensures Tells(request, Standing(rows[k], LastClosing(rows[..k], inputs.opening), AnyUnavailable(rows[..k])),
              inputs.tolerance)
  {
    var own := PeriodsOf(ReadPeriods(request.periods), case_);
    CaseIsIndependent(CONTEXT_DIGITS, inputs, ReadPeriods(request.periods), FRESH, case_);
    CaseRowIs(CONTEXT_DIGITS, inputs, own, inputs.opening, k);
    AdmittedHasRoom(request, inputs, own, case_, k);
    RowTells(CONTEXT_DIGITS, request, inputs, own[k], LastClosing(rows[..k], inputs.opening), AnyUnavailable(rows[..k]));
  }

  /* ----- the ratios of a row ----- */

  // A ratio printed for a quotient: near it, and none where there is nothing to divide by.
  predicate Stands(prec: nat, ratio: Ratio, numerator: int, denominator: int)
    requires prec >= 1
  {
    if denominator <= 0 then ratio == NoRatio
    else ratio.Ratio? && NearQuotient(prec, ratio.value, numerator, denominator)
  }

  lemma PrintedIsNarrow(prec: nat, x: int)
    requires prec >= 2 && Abs(x) < Pow10(prec)
    ensures Width(Abs(x)) <= prec + 1
  {
    WidthIs(Abs(x), prec);
  }

  lemma RatioStands(prec: nat, numerator: int, denominator: int)
    requires prec >= 2 && Width(Abs(numerator)) <= prec + 1 && !RatioOf(prec, numerator, denominator).Trapped?
    ensures Stands(prec, RatioOf(prec, numerator, denominator), numerator, denominator)
  {
    RatioIsNear(prec, numerator, denominator);
  }

  lemma MoveIsNarrow(prec: nat, p: Projection, move: Move)
    requires prec >= 1 && NeverTraps(prec, p)
    ensures Width(Abs(Moved(p.driver, move))) <= prec + 1
  {
    if move in p.driver.moves {
      assert Prints(prec, p.driver.moves[move]);
    }
  }

  // What the five ratios of a row stand for: the margin, gross and net leverage, the coverage of
  // interest, and free cash flow to debt.
  function Quotients(p: Projection): seq<(int, int)> {
    [(Moved(p.driver, Ebitda), Moved(p.driver, Revenue)),
     (p.closing.debt, Moved(p.driver, Ebitda)),
     (p.closing.debt - p.closing.cash, Moved(p.driver, Ebitda)),
     (Moved(p.driver, Ebitda), Moved(p.driver, CashInterest)),
     (p.fcf, p.closing.debt)]
  }

  ghost predicate AllStand(prec: nat, p: Projection)
    requires prec >= 1
  {
    forall i :: 0 <= i < 5 ==> Stands(prec, Ratios(prec, p)[i], Quotients(p)[i].0, Quotients(p)[i].1)
  }

  lemma QuotientsAreTaken(prec: nat, p: Projection, ratios: seq<Ratio>, i: nat)
    requires prec >= 1 && ratios == Ratios(prec, p) && i < 5
    requires Kept(prec, p.closing.debt - p.closing.cash) == p.closing.debt - p.closing.cash
    ensures ratios[i] == RatioOf(prec, Quotients(p)[i].0, Quotients(p)[i].1)
  {
    if i == 0 {
      assert ratios[0] == RatioOf(prec, Moved(p.driver, Ebitda), Moved(p.driver, Revenue));
    } else if i == 3 {
      assert ratios[3] == RatioOf(prec, Moved(p.driver, Ebitda), Moved(p.driver, CashInterest));
    } else if i == 4 {
      assert ratios[4] == RatioOf(prec, p.fcf, p.closing.debt);
    }
  }

  lemma QuotientsAreNarrow(prec: nat, p: Projection, owned: bool, i: nat)
    requires prec >= 2 && i < 5 && Roomy(prec, p, owned)
    ensures Width(Abs(Quotients(p)[i].0)) <= prec + 1
  {
    MoveIsNarrow(prec, p, Ebitda);
    assert Prints(prec, Amounts(p)[4]) && Prints(prec, Amounts(p)[7]);
    PrintedIsNarrow(prec, p.closing.debt - p.closing.cash);
  }

  // Each ratio of a row with room stands for its own quotient.
  lemma RatiosStand(prec: nat, p: Projection, owned: bool)
    requires prec >= 2 && Roomy(prec, p, owned)
    ensures AllStand(prec, p)
  {
    KeptIsExact(prec, p.closing.debt - p.closing.cash);
    forall i: nat | i < 5
      ensures Stands(prec, Ratios(prec, p)[i], Quotients(p)[i].0, Quotients(p)[i].1)
    {
      QuotientsAreTaken(prec, p, Ratios(prec, p), i);
      QuotientsAreNarrow(prec, p, owned, i);
      RatioStands(prec, Quotients(p)[i].0, Quotients(p)[i].1);
    }
  }

  lemma CaseRatiosStand(prec: nat, request: Request, inputs: Inputs, rows: seq<Row>, case_: string, k: nat)
    requires prec == CONTEXT_DIGITS
    requires Admitted(request) && ParsesTo(request, inputs) && case_ in CasesOf(request.periods)
    requires rows == RowsOf(Forecast(prec, inputs, ReadPeriods(request.periods), FRESH), case_) && k < |rows|
    ensures rows[k].projection.Some? ==> AllStand(prec, rows[k].projection.value)
  {
    CaseIsIndependent(prec, inputs, ReadPeriods(request.periods), FRESH, case_);
    AdmittedHasRoom(request, inputs, PeriodsOf(ReadPeriods(request.periods), case_), case_, k);
    if rows[k].projection.Some? {
      RatiosStand(prec, rows[k].projection.value, inputs.owned);
    }
  }

  // So does every ratio of every admitted forecast.
  lemma AdmittedRatiosStand(request: Request, inputs: Inputs, rows: seq<Row>, case_: string, k: nat)
    requires Admitted(request) && ParsesTo(request, inputs) && case_ in CasesOf(request.periods)
    requires rows == RowsOf(Forecast(CONTEXT_DIGITS, inputs, ReadPeriods(request.periods), FRESH), case_) && k < |rows|
    ensures rows[k].projection.Some? ==> AllStand(CONTEXT_DIGITS, rows[k].projection.value)
  {
    CaseRatiosStand(CONTEXT_DIGITS, request, inputs, rows, case_, k);
  }
}
