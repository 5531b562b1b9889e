// The spend figures a Copilot session states: how the host adds them up, in decimal
// arithmetic of 28 digits, and how each is held against a total.
module CopilotFigures {
  import opened Wrappers
  import opened Digits
  import opened Decimals
  import opened CopilotTrace

  // The precision of Python's default decimal context.
  const PRECISION: nat := 28

  const NANO_PER_CREDIT := 1_000_000_000

  /* ----- adding figures up ----- */

  const TOTAL := "totalNanoAiu"

  // `total` with the blocks' figures added in turn. A block without a figure is passed over;
  // one that cannot be read -- no object, or a figure that is no count -- loses everything.
  function SummedOnto(prec: nat, total: Dec, blocks: seq<Json>): Option<Dec>
    requires prec >= 1
    decreases |blocks|
  {
    if blocks == [] then Some(total)
    else if !blocks[0].Obj? then None
    else
      var figure := Get(blocks[0], TOTAL);
      if figure.Null? then SummedOnto(prec, total, blocks[1..])
      else if !FiniteCount(figure) then None
      else SummedOnto(prec, Fix(prec, Sum(total, DecimalOf(figure.n))), blocks[1..])
  }

  function Summed(blocks: seq<Json>): Option<Dec> { SummedOnto(PRECISION, Dec(0, 0), blocks) }

  method SumBlocks(blocks: seq<Json>) returns (sum: Option<Dec>)
    ensures sum == Summed(blocks)
  {
    var total := Dec(0, 0);
    for i := 0 to |blocks|
      invariant SummedOnto(PRECISION, total, blocks[i..]) == Summed(blocks)
    {
      assert blocks[i..][1..] == blocks[i + 1..];
      if !blocks[i].Obj? {
        return None;
      }
      var figure := Get(blocks[i], TOTAL);
      if !figure.Null? {
        if !FiniteCount(figure) {
          return None;
        }
        total := Fix(PRECISION, Sum(total, DecimalOf(figure.n)));
      }
    }
    sum := Some(total);
  }

  // The figures the blocks state.
  function Figures(blocks: seq<Json>): seq<Json> {
    if blocks == [] then []
    else
      var figure := Get(blocks[0], TOTAL);
      (if figure.Null? then [] else [figure]) + Figures(blocks[1..])
  }

  // What figures come to, exactly.
  function ExactSum(figures: seq<Json>): real {
    if figures == [] then 0.0
    else (if FiniteCount(figures[0]) then Figure(figures[0]) else 0.0) + ExactSum(figures[1..])
  }

  // A computed sum and the exact one lie within one part in twice ten to the 27 for each
  // of `n` additions.
  ghost predicate Near(prec: nat, sum: real, exact: real, n: nat)
    requires prec >= 1
  {
    && Level(2.0 * (exact - sum), prec - 1) <= Many(n, sum)
    && Level(2.0 * (sum - exact), prec - 1) <= Many(n, sum)
  }

  lemma NearGrows(prec: nat, total: real, exact: real, n: nat, figure: real, next: real)
    requires prec >= 1 && Near(prec, total, exact, n) && total <= next
    requires Level(2.0 * (total + figure - next), prec - 1) <= next
    requires Level(2.0 * (next - (total + figure)), prec - 1) <= next
    ensures Near(prec, next, exact + figure, n + 1)
  {
    var k := prec - 1;
    ManyMono(n, total, next);
    LevelSum(2.0 * (exact - total), 2.0 * (total + figure - next), k);
    LevelSum(2.0 * (total - exact), 2.0 * (next - (total + figure)), k);
    assert 2.0 * (exact + figure - next) == 2.0 * (exact - total) + 2.0 * (total + figure - next);
    assert 2.0 * (next - (exact + figure)) == 2.0 * (total - exact) + 2.0 * (next - (total + figure));
  }

  lemma SumIsAbove(a: Dec, b: Dec)
    requires a.coef >= 0 && b.coef >= 0
    ensures var sum := Sum(a, b); sum.exp <= a.exp && 0 <= At(a, sum.exp) <= sum.coef
  {
    var exp := Sum(a, b).exp;
    ShiftMono(0, a.coef, a.exp - exp);
    ShiftMono(0, b.coef, b.exp - exp);
    ShiftSum(0, 0, a.exp - exp);
    ShiftSum(0, 0, b.exp - exp);
  }

  lemma AdditionStaysNear(prec: nat, total: Dec, exact: real, n: nat, figure: Json)
    requires prec >= 1 && total.coef >= 0 && Width(total.coef) <= prec
    requires FiniteCount(figure) && Near(prec, Value(total), exact, n)
    ensures var next := Fix(prec, Sum(total, DecimalOf(figure.n)));
            && next.coef >= 0 && Width(next.coef) <= prec
            && Value(total) <= Value(next)
            && Near(prec, Value(next), exact + Figure(figure), n + 1)
  {
    var f := DecimalOf(figure.n);
    var raw := Sum(total, f);
    FigureIsNonNegative(figure);
    SumIsAbove(total, f);
    SumValue(total, f);
    FixAt(prec, raw);
    FixSigned(prec, raw);
    FixValue(prec, raw);
    FixKeepsAbove(prec, total, raw);
    NearGrows(prec, Value(total), exact, n, Figure(figure), Value(Fix(prec, raw)));
  }

  lemma FixSigned(prec: nat, d: Dec)
    requires prec >= 1 && d.coef >= 0
    ensures Fix(prec, d).coef >= 0
  {
  }

  // A first block's figure is the first of the figures, and the first term of their sum.
  lemma FirstFigure(blocks: seq<Json>)
    requires blocks != [] && FiniteCount(Get(blocks[0], TOTAL))
    ensures var figure, rest := Get(blocks[0], TOTAL), Figures(blocks[1..]);
            && Figures(blocks) == [figure] + rest && |Figures(blocks)| == 1 + |rest|
            && ExactSum(Figures(blocks)) == Figure(figure) + ExactSum(rest)
  {
    assert Figures(blocks)[1..] == Figures(blocks[1..]);
  }

  // With `n` figures added that come to `exact`, and the blocks' still to add, `m` in all that
  // come to `whole`.
  lemma {:induction false} SumStaysNear(prec: nat, total: Dec, blocks: seq<Json>, exact: real, n: nat, whole: real, m: nat)
    requires prec >= 1 && total.coef >= 0 && Width(total.coef) <= prec
    requires Near(prec, Value(total), exact, n) && SummedOnto(prec, total, blocks).Some?
    requires whole == exact + ExactSum(Figures(blocks)) && m == n + |Figures(blocks)|
    ensures Near(prec, Value(SummedOnto(prec, total, blocks).value), whole, m)
    decreases |blocks|
  {
    if blocks != [] {
      var figure := Get(blocks[0], TOTAL);
      if figure.Null? {
        assert Figures(blocks) == Figures(blocks[1..]);
        SumStaysNear(prec, total, blocks[1..], exact, n, whole, m);
      } else {
        FirstFigure(blocks);
        AdditionStaysNear(prec, total, exact, n, figure);
        SumStaysNear(prec, Fix(prec, Sum(total, DecimalOf(figure.n))), blocks[1..], exact + Figure(figure), n + 1, whole, m);
      }
    }
  }

  lemma {:induction false} FiguresAreCounts(prec: nat, total: Dec, blocks: seq<Json>)
    requires prec >= 1 && SummedOnto(prec, total, blocks).Some?
    ensures forall figure :: figure in Figures(blocks) ==> FiniteCount(figure)
    decreases |blocks|
  {
    if blocks != [] {
      var figure := Get(blocks[0], TOTAL);
      FiguresAreCounts(prec, if figure.Null? then total else Fix(prec, Sum(total, DecimalOf(figure.n))), blocks[1..]);
    }
  }

  // The computed sum is never far from the exact one, whatever figures are stated.
  lemma SummedIsNear(blocks: seq<Json>)
    requires Summed(blocks).Some?
    ensures Near(PRECISION, Value(Summed(blocks).value), ExactSum(Figures(blocks)), |Figures(blocks)|)
    ensures forall figure :: figure in Figures(blocks) ==> FiniteCount(figure)
  {
    LevelZero(PRECISION - 1);
    SumStaysNear(PRECISION, Dec(0, 0), blocks, 0.0, 0, ExactSum(Figures(blocks)), |Figures(blocks)|);
    FiguresAreCounts(PRECISION, Dec(0, 0), blocks);
  }

  // The figures exceed the total by no more than one part in twice ten to the `prec - 1`
  // of it for each of them.
  ghost predicate CloselyHeld(prec: nat, figures: seq<Json>, total: nat)
    requires prec >= 1
  {
    Level(2.0 * (ExactSum(figures) - total as real), prec - 1) <= (|figures| * total) as real
  }

  lemma NearIsClose(prec: nat, figures: seq<Json>, sum: real, total: nat)
    requires prec >= 1 && Near(prec, sum, ExactSum(figures), |figures|) && sum <= total as real
    ensures CloselyHeld(prec, figures, total)
  {
    LevelMono(2.0 * (ExactSum(figures) - total as real), 2.0 * (ExactSum(figures) - sum), prec - 1);
    ManyMono(|figures|, sum, total as real);
    ManyProduct(|figures|, total);
  }

  // Held to a total, the figures come to no more than it, but for that rounding.
  lemma HeldSumIsClose(blocks: seq<Json>, total: nat)
    requires Summed(blocks).Some? && Value(Summed(blocks).value) <= total as real
    ensures CloselyHeld(PRECISION, Figures(blocks), total)
  {
    SummedIsNear(blocks);
    NearIsClose(PRECISION, Figures(blocks), Value(Summed(blocks).value), total);
  }

  /* ----- when the rounding cannot matter ----- */

  // `x` times two to the `k`.
  function Scaled(x: real, k: nat): real { if k == 0 then x else 2.0 * Scaled(x, k - 1) }

  lemma {:induction false} ScaledSum(x: real, y: real, k: nat)
    ensures Scaled(x + y, k) == Scaled(x, k) + Scaled(y, k)
    ensures Scaled(-x, k) == -Scaled(x, k)
    ensures x <= y <==> Scaled(x, k) <= Scaled(y, k)
  {
    if k > 0 {
      ScaledSum(x, y, k - 1);
    }
  }

  lemma {:induction false} ScaledLevel(x: real, k: nat, e: nat)
    ensures Scaled(Level(x, e), k) == Level(Scaled(x, k), e)
  {
    if k > 0 {
      ScaledLevel(x, k - 1, e);
      LevelSum(Scaled(x, k - 1), Scaled(x, k - 1), e);
    }
  }

  lemma {:induction false} ScaledWhole(c: int, k: nat)
    ensures Scaled(c as real, k) == Doubled(c, k) as real
  {
    if k > 0 {
      ScaledWhole(c, k - 1);
    }
  }

  lemma {:induction false} ScaledOnce(x: real, k: nat)
    ensures Scaled(2.0 * x, k) == Scaled(x, k + 1)
  {
    if k > 0 {
      ScaledOnce(x, k - 1);
    }
  }

  // A figure whose last binary place is no lower than the `k`-th.
  predicate NoFinerThan(value: Json, k: nat) {
    value.Num? && (value.n.Int? || (value.n.Float? && value.n.e >= -(k as int)))
  }

  // Such a figure, in units of that place.
  function InUnits(value: Json, k: nat): int
    requires NoFinerThan(value, k)
  {
    if value.n.Int? then Doubled(value.n.i, k) else Doubled(value.n.m, value.n.e + k)
  }

  lemma {:induction false} DoubledJoin(m: int, j: nat, k: nat)
    ensures Doubled(Doubled(m, j), k) == Doubled(m, j + k)
  {
    if k > 0 {
      DoubledJoin(m, j, k - 1);
    }
  }

  lemma {:induction false} FloatInUnits(m: int, e: nat, k: nat)
    requires e <= k
    ensures Scaled(Level(Fives(m, e) as real, -(e as int)), k) == Doubled(m, k - e) as real
    decreases e
  {
    if e == 0 {
      ScaledWhole(m, k);
    } else {
      FloatInUnits(m, e - 1, k - 1);
      FivesHalve(m, e - 1);
      ScaledOnce(Level(Fives(m, e) as real, -(e as int)), k - 1);
    }
  }

  lemma InUnitsIsValue(value: Json, k: nat)
    requires FiniteCount(value) && NoFinerThan(value, k)
    ensures Scaled(Figure(value), k) == InUnits(value, k) as real
  {
    match value.n
    case Int(i) => ScaledWhole(i, k);
    case Float(m, e) =>
      if e >= 0 {
        ScaledWhole(Doubled(m, e), k);
        DoubledJoin(m, e, k);
      } else {
        FloatInUnits(m, -e, k);
      }
  }

  function UnitsOf(figures: seq<Json>, k: nat): int
    requires forall figure :: figure in figures ==> NoFinerThan(figure, k)
  {
    if figures == [] then 0 else InUnits(figures[0], k) + UnitsOf(figures[1..], k)
  }

  lemma {:induction false} SumInUnits(figures: seq<Json>, k: nat)
    requires forall figure :: figure in figures ==> FiniteCount(figure) && NoFinerThan(figure, k)
    ensures Scaled(ExactSum(figures), k) == UnitsOf(figures, k) as real
  {
    if figures == [] {
      ScaledWhole(0, k);
      ScaledSum(0.0, 0.0, k);
    } else {
      SumInUnits(figures[1..], k);
      InUnitsIsValue(figures[0], k);
      ScaledSum(Figure(figures[0]), ExactSum(figures[1..]), k);
    }
  }

  // Past a whole total by whole units is past it by one unit at least.
  lemma PastByAUnit(exact: real, total: nat, k: nat, units: int)
    requires Scaled(exact, k) == units as real && exact > total as real
    ensures Scaled(2.0 * (exact - total as real), k) >= 2.0
  {
    var t := total as real;
    ScaledWhole(total, k);
    ScaledSum(t, exact, k);
    ScaledSum(exact, t, k);
    assert units >= Doubled(total, k) + 1;
    ScaledSum(t, t, k);
    ScaledSum(exact, -t, k);
    ScaledSum(exact - t, exact - t, k);
  }

  lemma LevelTwo(k: nat)
    ensures Level(2.0, k) == (2 * Pow10(k)) as real
  {
    LevelShift(2, k, 0);
    ShiftSum(1, 1, k);
    ShiftOne(k);
  }

  lemma GapInUnits(places: nat, gap: real, k: nat)
    requires Scaled(gap, k) >= 2.0
    ensures Scaled(Level(gap, places), k) >= (2 * Pow10(places)) as real
  {
    ScaledLevel(gap, k, places);
    LevelMono(2.0, Scaled(gap, k), places);
    LevelTwo(places);
  }

  lemma ManyInUnits(n: nat, total: nat, k: nat)
    ensures Scaled(Many(n, total as real), k) == (n * Doubled(total, k)) as real
  {
    ScaledMany(n, total as real, k);
    ScaledWhole(total, k);
    ManyProduct(n, Doubled(total, k));
  }

  lemma ScaledApart(x: real, y: real, k: nat, low: int, high: int)
    requires Scaled(x, k) >= low as real && Scaled(y, k) == high as real && high < low
    ensures y < x
  {
    ScaledSum(x, y, k);
  }

  // A sum of whole units, near a computed sum no greater than a whole total, is itself no
  // greater than the total when the error is under one unit.
  lemma UnderOneUnit(places: nat, exact: real, sum: real, total: nat, n: nat, k: nat, units: int)
    requires Scaled(exact, k) == units as real
    requires Level(2.0 * (exact - sum), places) <= Many(n, sum) && sum <= total as real
    requires n * Doubled(total, k) < 2 * Pow10(places)
    ensures exact <= total as real
  {
    var t := total as real;
    var gap := 2.0 * (exact - t);
    assert Level(gap, places) <= Many(n, t) by {
      LevelMono(gap, 2.0 * (exact - sum), places);
      ManyMono(n, sum, t);
    }
    if exact > t {
      PastByAUnit(exact, total, k, units);
      GapInUnits(places, gap, k);
      ManyInUnits(n, total, k);
      ScaledApart(Level(gap, places), Many(n, t), k, 2 * Pow10(places), n * Doubled(total, k));
    }
  }

  lemma {:induction false} ScaledMany(n: nat, x: real, k: nat)
    ensures Scaled(Many(n, x), k) == Many(n, Scaled(x, k))
  {
    if n == 0 {
      ScaledSum(0.0, 0.0, k);
    } else {
      ScaledMany(n - 1, x, k);
      ScaledSum(x, Many(n - 1, x), k);
    }
  }

  // Few enough figures no finer than the `k`-th binary place are held exactly, however fine
  // that is: a sum the host finds within the total is within it.
  lemma FewSumsAreHeld(blocks: seq<Json>, total: nat, k: nat)
    requires Summed(blocks).Some? && Value(Summed(blocks).value) <= total as real
    requires forall figure :: figure in Figures(blocks) ==> NoFinerThan(figure, k)
    requires |Figures(blocks)| * Doubled(total, k) < 2 * Pow10(PRECISION - 1)
    ensures ExactSum(Figures(blocks)) <= total as real
  {
    SummedIsNear(blocks);
    FewAreHeld(PRECISION, Figures(blocks), Value(Summed(blocks).value), total, k);
  }

  lemma FewAreHeld(prec: nat, figures: seq<Json>, sum: real, total: nat, k: nat)
    requires prec >= 1 && Near(prec, sum, ExactSum(figures), |figures|) && sum <= total as real
    requires forall figure :: figure in figures ==> FiniteCount(figure) && NoFinerThan(figure, k)
    requires |figures| * Doubled(total, k) < 2 * Pow10(prec - 1)
    ensures ExactSum(figures) <= total as real
  {
    SumInUnits(figures, k);
    UnderOneUnit(prec - 1, ExactSum(figures), sum, total, |figures|, k, UnitsOf(figures, k));
  }

  /* ----- sums that never round ----- */

  // A number no greater than a whole limit, of no more places than the context has left
  // beside the limit's digits, is kept as it is.
  lemma SmallIsKept(prec: nat, d: Dec, limit: nat, places: nat)
    requires prec >= 1 && d.coef >= 0 && -(places as int) <= d.exp <= 0 && Width(limit) + places <= prec
    requires Value(d) <= limit as real
    ensures Fix(prec, d) == d
  {
    var j := -d.exp;
    CoefBelow(d, limit);
    WidthBounds(limit);
    ShiftMono(limit, Pow10(Width(limit)), j);
    TenTo(Width(limit), j);
    Pow10Grows(Width(limit) + j, prec);
    ShiftMono(0, limit, j);
    ShiftMono(Pow10(Width(limit)), limit, j);
    WidthIs(d.coef, prec);
  }

  lemma CoefBelow(d: Dec, limit: int)
    requires d.exp <= 0
    ensures Value(d) <= limit as real <==> d.coef <= Shift(limit, -d.exp)
  {
    var whole := Dec(limit, 0);
    ValueAt(whole, d.exp);
    LevelMono(d.coef as real, At(whole, d.exp) as real, d.exp);
  }

  // Past a whole limit, rounding leaves a number past it.
  lemma PastIsKeptPast(prec: nat, d: Dec, limit: nat, places: nat)
    requires prec >= 1 && d.coef >= 0 && -(places as int) <= d.exp <= 0 && Width(limit + 1) + places <= prec
    requires Value(d) > limit as real
    ensures Value(Fix(prec, d)) > limit as real
  {
    var j := -d.exp;
    CoefBelow(d, limit);
    ShiftMono(0, limit, j);
    ShiftSum(0, 0, j);
    var held := Dec(Shift(limit, j) + 1, d.exp);
    ShiftSum(limit, 1, j);
    ShiftOne(j);
    WidthBounds(limit + 1);
    ShiftMono(limit + 2, Pow10(Width(limit + 1)) + 1, j);
    ShiftMono(limit + 1, Pow10(Width(limit + 1)), j);
    TenTo(Width(limit + 1), j);
    Pow10Grows(Width(limit + 1) + j, prec);
    AtMostIsNarrow(prec, held.coef, Width(limit + 1) + j);
    FixKeepsAbove(prec, held, d);
    CoefBelow(held, limit);
  }

  lemma AtMostIsNarrow(prec: nat, c: nat, w: nat)
    requires 1 <= w <= prec && c < Pow10(w)
    ensures Width(c) <= prec
  {
    WidthIs(c, w);
  }

  lemma {:induction false} SumsRise(prec: nat, total: Dec, blocks: seq<Json>)
    requires prec >= 1 && total.coef >= 0 && Width(total.coef) <= prec && SummedOnto(prec, total, blocks).Some?
    ensures Value(total) <= Value(SummedOnto(prec, total, blocks).value)
    decreases |blocks|
  {
    if blocks != [] {
      var figure := Get(blocks[0], TOTAL);
      if figure.Null? {
        SumsRise(prec, total, blocks[1..]);
      } else {
        SumRises(prec, total, figure);
        SumsRise(prec, Fix(prec, Sum(total, DecimalOf(figure.n))), blocks[1..]);
      }
    }
  }

  lemma SumRises(prec: nat, total: Dec, figure: Json)
    requires prec >= 1 && total.coef >= 0 && Width(total.coef) <= prec && FiniteCount(figure)
    ensures var next := Fix(prec, Sum(total, DecimalOf(figure.n)));
            next.coef >= 0 && Width(next.coef) <= prec && Value(total) <= Value(next)
  {
    var raw := Sum(total, DecimalOf(figure.n));
    FigureIsNonNegative(figure);
    SumIsAbove(total, DecimalOf(figure.n));
    FixAt(prec, raw);
    FixSigned(prec, raw);
    FixKeepsAbove(prec, total, raw);
  }

  lemma {:induction false} ExactSumIsNonNegative(figures: seq<Json>)
    ensures ExactSum(figures) >= 0.0
  {
    if figures != [] {
      ExactSumIsNonNegative(figures[1..]);
      if FiniteCount(figures[0]) {
        FigureIsNonNegative(figures[0]);
      }
    }
  }

  // A running sum of figures of few places is exact for as long as it is within the limit,
  // and past the limit as soon as the exact one is: it says of the whole what the exact sum
  // says.
  lemma {:induction false} CoarseSumsOn(prec: nat, total: Dec, blocks: seq<Json>, limit: nat, places: nat)
    requires prec >= 1 && total.coef >= 0 && -(places as int) <= total.exp <= 0 && Width(total.coef) <= prec
    requires Width(limit) + places <= prec && Width(limit + 1) + places <= prec
    requires forall figure :: figure in Figures(blocks) ==> NoFinerThan(figure, places)
    requires SummedOnto(prec, total, blocks).Some?
    ensures Value(SummedOnto(prec, total, blocks).value) <= limit as real
            <==> Value(total) + ExactSum(Figures(blocks)) <= limit as real
    decreases |blocks|
  {
    if blocks != [] {
      var figure, rest := Get(blocks[0], TOTAL), blocks[1..];
      if figure.Null? {
        assert Figures(blocks) == Figures(rest);
        CoarseSumsOn(prec, total, rest, limit, places);
      } else {
        assert Figures(blocks) == [figure] + Figures(rest) && Figures(blocks)[1..] == Figures(rest);
        assert figure in Figures(blocks);
        var raw := Sum(total, DecimalOf(figure.n));
        FigureIsNonNegative(figure);
        SumIsAbove(total, DecimalOf(figure.n));
        SumValue(total, DecimalOf(figure.n));
        SumRises(prec, total, figure);
        if Value(raw) <= limit as real {
          SmallIsKept(prec, raw, limit, places);
          CoarseSumsOn(prec, raw, rest, limit, places);
        } else {
          PastIsKeptPast(prec, raw, limit, places);
          SumsRise(prec, Fix(prec, raw), rest);
          ExactSumIsNonNegative(Figures(rest));
        }
      }
    }
  }

  // The finest binary place whose figures are never rounded: as many as the precision leaves
  // beside the sixteen digits of a total.
  const COARSE_PLACES: nat := 12

  lemma UnitsAreNarrow(total: nat)
    requires total < MOST_UNITS
    ensures Width(total) <= 16 && Width(total + 1) <= 16
  {
    PowersOfTen();
    WidthIs(total, 16);
    WidthIs(total + 1, 16);
  }

  // A computed sum that says of a total what the exact one does.
  predicate SaysExactly(blocks: seq<Json>, total: nat) {
    Summed(blocks).Some? ==>
      (Value(Summed(blocks).value) <= total as real <==> ExactSum(Figures(blocks)) <= total as real)
  }

  // However many they are, figures of at most twelve binary places -- whole ones have none --
  // are held to a total exactly as their exact sum is.
  lemma CoarseSumIsHeld(blocks: seq<Json>, total: nat, k: nat)
    requires total < MOST_UNITS && k <= COARSE_PLACES
    requires forall figure :: figure in Figures(blocks) ==> NoFinerThan(figure, k)
    ensures SaysExactly(blocks, total)
  {
    if Summed(blocks).Some? {
      UnitsAreNarrow(total);
      LevelZero(0);
      CoarseSumsOn(PRECISION, Dec(0, 0), blocks, total, COARSE_PLACES);
    }
  }

  /* ----- AI credits held in nano-AIU ----- */

  // A credit figure in nano-AIU, as it is computed.
  function InNano(value: Json): Dec
    requires FiniteCount(value)
  {
    Fix(PRECISION, Times(NANO_PER_CREDIT, DecimalOf(value.n)))
  }

  function Places(value: Json): nat
    requires value.Num?
  {
    if value.n.Float? && value.n.e < 0 then -value.n.e else 0
  }

  // A double past a whole total below 2**53 shows it within few enough binary places.
  lemma CreditUnits(value: Json, total: nat)
    requires FiniteCount(value) && IsDouble(value.n) && total < MOST_UNITS
    requires NANO_PER_CREDIT as real * Figure(value) > total as real
    ensures var k := Places(value);
            && NoFinerThan(value, k)
            && Scaled(NANO_PER_CREDIT as real * Figure(value), k) == (NANO_PER_CREDIT * InUnits(value, k)) as real
            && Doubled(total, k) < NANO_PER_CREDIT * MOST_UNITS
  {
    var k := Places(value);
    InUnitsIsValue(value, k);
    ScaledTimes(NANO_PER_CREDIT, Figure(value), k);
    ScaledWhole(total, k);
    ScaledSum(NANO_PER_CREDIT as real * Figure(value), total as real, k);
    if k > 0 {
      assert InUnits(value, k) == value.n.m;
    }
  }

  lemma {:induction false} ScaledTimes(n: int, x: real, k: nat)
    ensures Scaled(n as real * x, k) == n as real * Scaled(x, k)
  {
    if k > 0 {
      ScaledTimes(n, x, k - 1);
    }
  }

  lemma HoldsWhole(prec: nat, d: Dec, total: nat)
    requires prec >= 1 && d.exp <= 0 && d.coef >= 0 && Width(total) <= prec && Value(d) <= total as real
    ensures Value(Fix(prec, d)) <= total as real
  {
    var held := Dec(total, 0);
    ValueAt(held, d.exp);
    LevelMono(d.coef as real, At(held, d.exp) as real, d.exp);
    FixKeepsBelow(prec, held, d);
  }

  lemma NanoStaysWithin(prec: nat, value: Json, total: nat)
    requires prec >= 16 && FiniteCount(value) && total < MOST_UNITS
    requires NANO_PER_CREDIT as real * Figure(value) <= total as real
    ensures Value(Fix(prec, Times(NANO_PER_CREDIT, DecimalOf(value.n)))) <= total as real
  {
    FigureIsNonNegative(value);
    TimesValue(NANO_PER_CREDIT, DecimalOf(value.n));
    UnitsAreNarrow(total);
    HoldsWhole(prec, Times(NANO_PER_CREDIT, DecimalOf(value.n)), total);
  }

  lemma NanoShowsExcess(prec: nat, value: Json, total: nat)
    requires prec >= 1 && NANO_PER_CREDIT * MOST_UNITS < 2 * Pow10(prec - 1)
    requires FiniteCount(value) && IsDouble(value.n) && total < MOST_UNITS
    requires Value(Fix(prec, Times(NANO_PER_CREDIT, DecimalOf(value.n)))) <= total as real
    ensures NANO_PER_CREDIT as real * Figure(value) <= total as real
  {
    var raw := Times(NANO_PER_CREDIT, DecimalOf(value.n));
    var exact, sum, k := NANO_PER_CREDIT as real * Figure(value), Value(Fix(prec, raw)), Places(value);
    TimesValue(NANO_PER_CREDIT, DecimalOf(value.n));
    if exact > total as real {
      CreditUnits(value, total);
      FigureIsNonNegative(value);
      FixValue(prec, raw);
      assert Many(1, sum) == sum + Many(0, sum);
      UnderOneUnit(prec - 1, exact, sum, total, 1, k, NANO_PER_CREDIT * InUnits(value, k));
    }
  }

  // However the product is rounded, a credit figure is held to the total exactly.
  lemma CreditsHeldExactly(value: Json, total: nat)
    requires FiniteCount(value) && IsDouble(value.n) && total < MOST_UNITS
    ensures Value(InNano(value)) <= total as real <==> NANO_PER_CREDIT as real * Figure(value) <= total as real
  {
    PowersOfTen();
    if NANO_PER_CREDIT as real * Figure(value) <= total as real {
      NanoStaysWithin(PRECISION, value, total);
    } else if Value(InNano(value)) <= total as real {
      NanoShowsExcess(PRECISION, value, total);
    }
  }

  /* ----- where the rounding does matter ----- */

  function Block(n: Number): Json { Obj([Field(TOTAL, Num(n))]) }

  lemma DropsRest(a: nat, rest: nat, k: nat)
    requires 2 * rest < Pow10(k)
    ensures Shift(a, k) >= 0
    ensures DropDigits(Shift(a, k) + rest, k) == a && HalfEven(Shift(a, k) + rest, k) == a
  {
    ShiftMono(0, a, k);
    ShiftSum(0, 0, k);
    var n := Shift(a, k) + rest;
    DropBounds(n, k);
    ShiftOne(k);
    ShiftSum(a, 1, k);
    ShiftMono(a + 1, DropDigits(n, k), k);
    ShiftMono(DropDigits(n, k) + 1, a, k);
  }

  lemma ShiftedWidth(c: nat, k: nat, rest: nat)
    requires c > 0 && rest < Pow10(k)
    ensures Shift(c, k) >= 0 && Width(Shift(c, k) + rest) == Width(c) + k
  {
    var w := Width(c);
    WidthBounds(c);
    TenTo(w - 1, k);
    TenTo(w, k);
    ShiftMono(Pow10(w - 1), c, k);
    ShiftMono(c + 1, Pow10(w), k);
    ShiftSum(c, 1, k);
    ShiftOne(k);
    WidthIs(Shift(c, k) + rest, w + k);
  }

  lemma FixDrops(prec: nat, n: nat, k: nat, exp: int)
    requires prec >= 1 && k > 0 && Width(n) == prec + k && HalfEven(n, k) != Pow10(prec)
    ensures Fix(prec, Dec(n, exp)) == Dec(HalfEven(n, k), exp + k)
  {
  }

  // A fraction below half a unit of the last digit kept is lost whole.
  lemma LostDigits(c: nat, rest: nat, kept: nat, lost: nat)
    requires c > 0 && lost > 0 && 2 * rest < Pow10(lost)
    ensures Fix(Width(c) + kept, Dec(Shift(c, kept + lost) + rest, -(kept + lost))) == Dec(Shift(c, kept), -(kept as int))
  {
    var all, prec := kept + lost, Width(c) + kept;
    ShiftedWidth(c, all, 0);
    var n := Shift(c, all) + rest;
    assert Width(n) == prec + lost by {
      Pow10Grows(lost, all);
      ShiftedWidth(c, all, rest);
    }
    assert HalfEven(n, lost) == Shift(c, kept) by {
      ShiftShift(c, kept, lost);
      ShiftedWidth(c, kept, 0);
      DropsRest(Shift(c, kept), rest, lost);
    }
    assert Shift(c, kept) < Pow10(prec) by {
      ShiftedWidth(c, kept, 0);
      WidthBounds(Shift(c, kept));
    }
    FixDrops(prec, n, lost, -all);
  }

  lemma SumAtFraction(c: int, rest: int, places: nat)
    ensures Sum(Dec(c, 0), Dec(rest, -(places as int))) == Dec(Shift(c, places) + rest, -(places as int))
  {
  }

  lemma OneBlock(prec: nat, total: Dec, n: Number, rest: seq<Json>)
    requires prec >= 1 && FiniteCount(Num(n))
    ensures SummedOnto(prec, total, [Block(n)] + rest) == SummedOnto(prec, Fix(prec, Sum(total, DecimalOf(n))), rest)
    ensures Figures([Block(n)] + rest) == [Num(n)] + Figures(rest)
  {
    var blocks := [Block(n)] + rest;
    assert blocks[1..] == rest;
    assert Get(blocks[0], TOTAL) == Num(n);
  }

  lemma FivesToThe41()
    ensures 0 < Fives(1, 41) && 2 * Fives(1, 41) < Pow10(29)
  {
    PowersOfTen();
    assert Fives(1, 5) == 3125;
    FivesProduct(3125, 5);
    FivesJoin(1, 5, 5);
    FivesProduct(9765625, 10);
    FivesJoin(1, 10, 10);
    FivesProduct(95367431640625, 20);
    FivesJoin(1, 20, 20);
  }

  lemma {:induction false} FivesProduct(m: int, k: nat)
    ensures Fives(m, k) == m * Fives(1, k)
  {
    if k > 0 {
      FivesProduct(m, k - 1);
    }
  }

  lemma {:induction false} FivesJoin(m: int, j: nat, k: nat)
    ensures Fives(Fives(m, j), k) == Fives(m, j + k)
  {
    if k > 0 {
      FivesJoin(m, j, k - 1);
    }
  }

  lemma FineIsPositive(k: nat)
    requires Fives(1, k) > 0
    ensures Value(Dec(Fives(1, k), -(k as int))) > 0.0
  {
    var e := -(k as int);
    LevelMono(Fives(1, k) as real, 0.0, e);
    LevelZero(e);
  }

  const MOST := MOST_UNITS - 1
  const COARSE := Int(MOST)
  const FINE := Float(1, -41)

  lemma MostIsSixteenDigits(n: nat)
    requires n == MOST
    ensures Width(n) == 16
  {
    PowersOfTen();
    assert Pow10(15) == Pow10(16) / 10;
    WidthIs(n, 16);
  }

  // The fine figure is lost: adding it leaves the largest count as it was.
  lemma FineIsLost(prec: nat, most: nat)
    requires prec == PRECISION && most == MOST
    ensures Fix(prec, Sum(Dec(most, 0), DecimalOf(FINE))) == Dec(Shift(most, 12), -12)
  {
    MostIsSixteenDigits(most);
    FivesToThe41();
    LostDigits(most, Fives(1, 41), 12, 29);
    SumAtFraction(most, Fives(1, 41), 41);
  }

  lemma MostIsKept(prec: nat, most: nat)
    requires prec == PRECISION && most == MOST
    ensures Fix(prec, Sum(Dec(0, 0), Dec(most, 0))) == Dec(most, 0)
  {
    MostIsSixteenDigits(most);
    assert Sum(Dec(0, 0), Dec(most, 0)) == Dec(most, 0);
  }

  lemma TwoBlocks(prec: nat, a: Number, b: Number)
    requires prec >= 1 && FiniteCount(Num(a)) && FiniteCount(Num(b))
    ensures SummedOnto(prec, Dec(0, 0), [Block(a), Block(b)])
            == Some(Fix(prec, Sum(Fix(prec, Sum(Dec(0, 0), DecimalOf(a))), DecimalOf(b))))
    ensures Figures([Block(a), Block(b)]) == [Num(a)] + ([Num(b)] + [])
  {
    OneBlock(prec, Dec(0, 0), a, [Block(b)]);
    assert [Block(a), Block(b)] == [Block(a)] + [Block(b)] && [Block(b)] == [Block(b)] + [];
    OneBlock(prec, Fix(prec, Sum(Dec(0, 0), DecimalOf(a))), b, []);
  }

  // A computed sum can hold where the exact one does not: a figure under half a unit of the
  // 28th digit is lost beside one of the largest.
  lemma RoundedSumCanFallShort()
    ensures Summed([Block(COARSE), Block(FINE)]) == Some(Dec(Shift(MOST, 12), -12))
    ensures Value(Dec(Shift(MOST, 12), -12)) == MOST as real
    ensures MOST as real < ExactSum(Figures([Block(COARSE), Block(FINE)]))
  {
    TwoBlocks(PRECISION, COARSE, FINE);
    MostIsKept(PRECISION, MOST);
    FineIsLost(PRECISION, MOST);
    ShiftedBack(MOST, 12);
    FivesToThe41();
    FineIsPositive(41);
    TwoFigures(Num(COARSE), Num(FINE));
  }

  lemma FineIsSmall()
    ensures FiniteCount(Num(FINE)) && Figure(Num(FINE)) <= MOST as real
  {
    FivesToThe41();
    var d := DecimalOf(FINE);
    CoefBelow(d, MOST);
    ShiftMono(1, MOST, 41);
    ShiftOne(41);
    Pow10Grows(29, 41);
  }

  lemma ShiftedBack(c: int, k: nat)
    ensures Value(Dec(Shift(c, k), -(k as int))) == c as real
  {
    LevelShift(c, k, -(k as int));
  }

  lemma TwoFigures(a: Json, b: Json)
    requires FiniteCount(a) && FiniteCount(b)
    ensures ExactSum([a] + ([b] + [])) == Figure(a) + Figure(b)
  {
    var figures := [a] + ([b] + []);
    assert figures[0] == a && figures[1..] == [b] && [b][1..] == [];
    assert ExactSum([b]) == Figure(b);
  }

  /* ----- the coarsest figures that are rounded ----- */

  // The coarsest figure with a thirteenth binary place, and its digits: the last is a five.
  const THIRTEENTH := Float(1, -13)
  const LOW_DIGITS: nat := 122_070_312

  lemma ThirteenthIs()
    ensures DecimalOf(THIRTEENTH) == Dec(10 * LOW_DIGITS + 5, -13)
  {
    assert Fives(1, 5) == 3125;
    FivesProduct(3125, 8);
    assert Fives(1, 4) == 625;
    FivesProduct(625, 4);
    FivesJoin(1, 4, 4);
    FivesJoin(1, 5, 8);
  }

  function Repeated(n: nat, b: Json): seq<Json> { if n == 0 then [] else [b] + Repeated(n - 1, b) }

  // A running sum of twenty-eight digits, twelve of them places, whose last is even.
  predicate EvenAndFull(prec: nat, c: nat) { c % 2 == 0 && Width(c) == prec }

  // Adding one loses its five: half a unit beside an even digit is rounded away.
  lemma FiveIsLost(prec: nat, c: nat)
    requires EvenAndFull(prec, c) && EvenAndFull(prec, c + LOW_DIGITS)
    ensures Fix(prec, Dec(10 * (c + LOW_DIGITS) + 5, -13)) == Dec(c + LOW_DIGITS, -12)
  {
    var q := c + LOW_DIGITS;
    var n := 10 * q + 5;
    assert n / 10 == q && Width(n) == prec + 1;
    assert DropDigits(n, 1) == DropDigits(q, 0) == q;
    assert Shift(q, 1) == 10 * q && Pow10(1) == 10;
    assert HalfEven(n, 1) == q;
    WidthBounds(q);
    FixDrops(prec, n, 1, -13);
  }

  lemma {:induction false} FivesAreLost(prec: nat, c: nat, n: nat)
    requires prec >= 1 && c % 2 == 0 && Width(c) == prec && Width(c + n * LOW_DIGITS) == prec
    ensures SummedOnto(prec, Dec(c, -12), Repeated(n, Block(THIRTEENTH))) == Some(Dec(c + n * LOW_DIGITS, -12))
    ensures Figures(Repeated(n, Block(THIRTEENTH))) == Repeated(n, Num(THIRTEENTH))
    decreases n
  {
    if n > 0 {
      var c' := c + LOW_DIGITS;
      assert c + n * LOW_DIGITS == c' + (n - 1) * LOW_DIGITS;
      WidthBetween(c, c', c + n * LOW_DIGITS);
      ThirteenthIs();
      assert Sum(Dec(c, -12), Dec(10 * LOW_DIGITS + 5, -13)) == Dec(10 * c' + 5, -13) by {
        assert Shift(c, 1) == 10 * c;
      }
      FiveIsLost(prec, c);
      FivesAreLost(prec, c', n - 1);
      OneBlock(prec, Dec(c, -12), THIRTEENTH, Repeated(n - 1, Block(THIRTEENTH)));
    }
  }

  lemma WidthBetween(a: nat, b: nat, c: nat)
    requires a <= b <= c && Width(a) == Width(c)
    ensures Width(b) == Width(a)
  {
    WidthBounds(c);
    WidthIs(b, Width(c));
    WidthBounds(b);
    WidthIs(a, Width(b));
  }

  lemma {:induction false} ManyThirteenths(n: nat)
    ensures forall figure :: figure in Repeated(n, Num(THIRTEENTH)) ==> figure == Num(THIRTEENTH)
    ensures UnitsOf(Repeated(n, Num(THIRTEENTH)), 13) == n
  {
    if n > 0 {
      ManyThirteenths(n - 1);
      assert Repeated(n, Num(THIRTEENTH))[1..] == Repeated(n - 1, Num(THIRTEENTH));
    }
  }

  // A first figure short of the largest total by this many, and so many thirteenths as come
  // to one more than that: 8192 to the unit.
  const SHORT_BY: nat := 29_803
  const TIMES: nat := 244_146_177

  function ManyFine(first: nat, times: nat): seq<Json> { [Block(Int(first))] + Repeated(times, Block(THIRTEENTH)) }

  // The sum as it is computed: each addition loses five of the thirteenth place.
  lemma ManyFineSum(prec: nat, first: nat, times: nat, c: nat)
    requires prec >= 1 && c == Shift(first, 12) && c % 2 == 0 && times > 0
    requires Width(first) <= prec && Width(c) == prec && Width(c + times * LOW_DIGITS) == prec
    ensures SummedOnto(prec, Dec(0, 0), ManyFine(first, times)) == Some(Dec(c + times * LOW_DIGITS, -12))
    ensures Figures(ManyFine(first, times)) == [Num(Int(first))] + Repeated(times, Num(THIRTEENTH))
  {
    var rest := Repeated(times, Block(THIRTEENTH));
    OneBlock(prec, Dec(0, 0), Int(first), rest);
    assert Sum(Dec(0, 0), Dec(first, 0)) == Dec(first, 0);
    assert Fix(prec, Dec(first, 0)) == Dec(first, 0);
    FivesAreLost(prec, c, times);
    FirstThirteenth(prec, first, times, c);
  }

  // The first of them is added to a whole number, and comes to the same as to its places.
  lemma FirstThirteenth(prec: nat, first: nat, times: nat, c: nat)
    requires prec >= 1 && c == Shift(first, 12) && times > 0
    ensures var rest := Repeated(times, Block(THIRTEENTH));
            SummedOnto(prec, Dec(first, 0), rest) == SummedOnto(prec, Dec(c, -12), rest)
  {
    ThirteenthIs();
    var fine, left := Block(THIRTEENTH), Repeated(times - 1, Block(THIRTEENTH));
    OneBlock(prec, Dec(first, 0), THIRTEENTH, left);
    OneBlock(prec, Dec(c, -12), THIRTEENTH, left);
    assert Shift(first, 13) == 10 * c && Shift(c, 1) == 10 * c;
    SumAtFraction(first, 10 * LOW_DIGITS + 5, 13);
    assert Sum(Dec(c, -12), DecimalOf(THIRTEENTH)) == Dec(10 * c + 10 * LOW_DIGITS + 5, -13);
  }

  // What it comes to exactly, in thirteenths.
  lemma ManyFineUnits(first: nat, times: nat)
    ensures var figures := [Num(Int(first))] + Repeated(times, Num(THIRTEENTH));
            && (forall figure :: figure in figures ==> FiniteCount(figure) && NoFinerThan(figure, 13))
            && Scaled(ExactSum(figures), 13) == (Doubled(first, 13) + times) as real
  {
    var figures := [Num(Int(first))] + Repeated(times, Num(THIRTEENTH));
    ManyThirteenths(times);
    assert figures[1..] == Repeated(times, Num(THIRTEENTH));
    SumInUnits(figures, 13);
  }

  lemma {:induction false} ShiftIsTimes(c: int, k: nat)
    ensures Shift(c, k) == c * Pow10(k)
  {
    if k > 0 {
      ShiftIsTimes(c, k - 1);
    }
  }

  lemma TwelvePlaces(first: nat)
    ensures Shift(first, 12) == 1_000_000_000_000 * first
  {
    assert Pow10(3) == 1_000;
    Pow10Add(3, 3);
    Pow10Add(6, 6);
    ShiftIsTimes(first, 12);
  }

  lemma TwentyEight(c: nat)
    requires 1_000_000_000_000_000_000_000_000_000 <= c < 10_000_000_000_000_000_000_000_000_000
    ensures Width(c) == 28
  {
    PowersOfTen();
    WidthIs(c, 28);
  }

  // Figures of thirteen binary places can be held to a total their exact sum exceeds.
  lemma ThirteenPlacesFallShort(prec: nat)
    requires prec == PRECISION
    ensures var blocks := ManyFine(MOST - SHORT_BY, TIMES);
            && SummedOnto(prec, Dec(0, 0), blocks).Some?
            && Value(SummedOnto(prec, Dec(0, 0), blocks).value) <= MOST as real < ExactSum(Figures(blocks))
            && forall figure :: figure in Figures(blocks) ==> NoFinerThan(figure, 13)
  {
    var first: nat := MOST - SHORT_BY;
    var c: nat := 1_000_000_000_000 * first;
    TwelvePlaces(first);
    TwelvePlaces(MOST);
    MostIsSixteenDigits(MOST);
    WidthMonotone(first, MOST);
    TwentyEight(c);
    TwentyEight(c + TIMES * LOW_DIGITS);
    ManyFineSum(prec, first, TIMES, c);
    CoefBelow(Dec(c + TIMES * LOW_DIGITS, -12), MOST);
    ManyFineUnits(first, TIMES);
    ThirteenDoublings(first);
    ThirteenDoublings(MOST);
    ScaledWhole(MOST, 13);
    ScaledSum(ExactSum(Figures(ManyFine(first, TIMES))), MOST as real, 13);
  }

  lemma WidthMonotone(a: nat, b: nat)
    requires a <= b
    ensures Width(a) <= Width(b)
  {
    WidthBounds(b);
    WidthIs(a, Width(b));
  }

  lemma {:induction false} DoubledIsTimes(n: int, k: nat)
    ensures Doubled(n, k) == n * Doubled(1, k)
  {
    if k > 0 {
      DoubledIsTimes(n, k - 1);
    }
  }

  lemma ThirteenDoublings(n: int)
    ensures Doubled(n, 13) == 8192 * n
  {
    assert Doubled(1, 13) == 8192;
    DoubledIsTimes(n, 13);
  }

  // So twelve binary places is exactly how fine figures may be for every sum of them to say of
  // every total what the exact sum says.
  lemma CoarseIsTwelvePlaces(k: nat)
    ensures (forall blocks, total: nat ::
               total < MOST_UNITS && (forall figure :: figure in Figures(blocks) ==> NoFinerThan(figure, k)) ==>
                 SaysExactly(blocks, total))
            <==> k <= COARSE_PLACES
  {
    if k <= COARSE_PLACES {
      forall blocks, total: nat | total < MOST_UNITS && (forall figure :: figure in Figures(blocks) ==> NoFinerThan(figure, k))
        ensures SaysExactly(blocks, total)
      {
        CoarseSumIsHeld(blocks, total, k);
      }
    } else {
      ThirteenPlacesFallShort(PRECISION);
      assert !SaysExactly(ManyFine(MOST - SHORT_BY, TIMES), MOST);
    }
  }
}
