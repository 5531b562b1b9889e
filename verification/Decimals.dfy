// Decimal numbers as Python's `decimal` computes with them: a whole coefficient and an
// exponent, and results rounded half to even to the context's precision.
module Decimals {
  import opened Digits

  datatype Dec = Dec(coef: int, exp: int)

  function Abs(n: int): nat { if n < 0 then -n else n }

  function Min(a: int, b: int): int { if a < b then a else b }

  /* ----- values ----- */

  // `x` times ten to the `e`.
  function Level(x: real, e: int): real
    decreases Abs(e)
  {
    if e == 0 then x else if e > 0 then 10.0 * Level(x, e - 1) else Level(x, e + 1) / 10.0
  }

  function Value(d: Dec): real { Level(d.coef as real, d.exp) }

  lemma {:induction false} LevelSum(x: real, y: real, e: int)
    ensures Level(x + y, e) == Level(x, e) + Level(y, e)
    ensures Level(-x, e) == -Level(x, e)
    decreases Abs(e)
  {
    if e > 0 {
      LevelSum(x, y, e - 1);
    } else if e < 0 {
      LevelSum(x, y, e + 1);
    }
  }

  lemma {:induction false} LevelTen(x: real, e: int)
    ensures Level(10.0 * x, e) == 10.0 * Level(x, e)
    ensures Level(x, e + 1) == 10.0 * Level(x, e)
    decreases Abs(e)
  {
    if e > 0 {
      LevelTen(x, e - 1);
    } else if e < 0 {
      LevelTen(x, e + 1);
    }
  }

  lemma {:induction false} LevelMono(x: real, y: real, e: int)
    ensures x <= y <==> Level(x, e) <= Level(y, e)
    decreases Abs(e)
  {
    if e > 0 {
      LevelMono(x, y, e - 1);
    } else if e < 0 {
      LevelMono(x, y, e + 1);
    }
  }

  lemma {:induction false} LevelShift(c: int, k: nat, e: int)
    ensures Level(Shift(c, k) as real, e) == Level(c as real, e + k)
  {
    if k > 0 {
      LevelShift(c, k - 1, e);
      LevelTen(Shift(c, k - 1) as real, e);
      LevelTen(c as real, e + k - 1);
    }
  }

  lemma {:induction false} LevelLevel(x: real, j: int, e: int)
    ensures Level(Level(x, j), e) == Level(x, j + e)
    decreases Abs(e)
  {
    if e > 0 {
      LevelLevel(x, j, e - 1);
      LevelTen(x, j + e - 1);
    } else if e < 0 {
      LevelLevel(x, j, e + 1);
      LevelTen(x, j + e);
    }
  }

  // The coefficient a number has when written at a lower exponent.
  function At(d: Dec, exp: int): int
    requires exp <= d.exp
  {
    Shift(d.coef, d.exp - exp)
  }

  lemma ValueAt(d: Dec, exp: int)
    requires exp <= d.exp
    ensures Value(d) == Level(At(d, exp) as real, exp)
  {
    LevelShift(d.coef, d.exp - exp, exp);
  }

  // The exact sum.
  function Sum(a: Dec, b: Dec): Dec {
    var exp := Min(a.exp, b.exp);
    Dec(At(a, exp) + At(b, exp), exp)
  }

  lemma SumValue(a: Dec, b: Dec)
    ensures Value(Sum(a, b)) == Value(a) + Value(b)
  {
    var exp := Min(a.exp, b.exp);
    ValueAt(a, exp);
    ValueAt(b, exp);
    LevelSum(At(a, exp) as real, At(b, exp) as real, exp);
  }

  // The exact product with a whole number.
  function Times(n: int, d: Dec): Dec { Dec(n * d.coef, d.exp) }

  lemma {:induction false} LevelTimes(n: int, x: real, e: int)
    ensures Level((n as real) * x, e) == (n as real) * Level(x, e)
    decreases Abs(e)
  {
    if e > 0 {
      LevelTimes(n, x, e - 1);
    } else if e < 0 {
      LevelTimes(n, x, e + 1);
    }
  }

  lemma TimesValue(n: int, d: Dec)
    ensures Value(Times(n, d)) == (n as real) * Value(d)
  {
    CastProduct(n, d.coef);
    LevelTimes(n, d.coef as real, d.exp);
  }

  lemma CastProduct(a: int, b: int)
    ensures (a * b) as real == (a as real) * (b as real)
  {
  }

  // `n` times `x`.
  function Many(n: nat, x: real): real { if n == 0 then 0.0 else x + Many(n - 1, x) }

  lemma {:induction false} ManyMono(n: nat, x: real, y: real)
    requires x <= y
    ensures Many(n, x) <= Many(n, y)
  {
    if n > 0 {
      ManyMono(n - 1, x, y);
    }
  }

  lemma {:induction false} ManyProduct(n: nat, c: int)
    ensures Many(n, c as real) == (n * c) as real
  {
    if n > 0 {
      ManyProduct(n - 1, c);
      assert n * c == c + (n - 1) * c;
    }
  }

  lemma {:induction false} ManyGrows(n: nat, m: nat, x: real)
    requires n <= m && x >= 0.0
    ensures Many(n, x) <= Many(m, x)
  {
    if n < m {
      ManyGrows(n, m - 1, x);
    }
  }

  lemma {:induction false} ManyTimes(n: nat, x: real)
    ensures Many(n, x) == n as real * x
  {
    if n > 0 {
      ManyTimes(n - 1, x);
      assert n as real * x == x + (n - 1) as real * x;
    }
  }

  /* ----- rounding ----- */

  // `n` without its last `k` digits, rounded to the nearest, ties to even.
  function HalfEven(n: nat, k: nat): nat {
    var q := DropDigits(n, k);
    var rest := n - Shift(q, k);
    if 2 * rest > Pow10(k) || (2 * rest == Pow10(k) && q % 2 == 1) then q + 1 else q
  }

  // How many digits of a coefficient a precision drops.
  function Dropped(prec: nat, coef: int): nat {
    var w := Width(Abs(coef));
    if w <= prec then 0 else w - prec
  }

  function Signed(like: int, n: int): int { if like < 0 then -n else n }

  // A number as a context of that precision keeps it.
  function Fix(prec: nat, d: Dec): Dec
    requires prec >= 1
  {
    var k := Dropped(prec, d.coef);
    var q := HalfEven(Abs(d.coef), k);
    if k == 0 then d
    else if q == Pow10(prec) then Dec(Signed(d.coef, Pow10(prec - 1)), d.exp + k + 1)
    else Dec(Signed(d.coef, q), d.exp + k)
  }

  // Whether keeping a number drops a digit that is not zero: what the `Inexact` signal says.
  predicate Inexact(prec: nat, d: Dec) {
    var k := Dropped(prec, d.coef);
    Shift(DropDigits(Abs(d.coef), k), k) != Abs(d.coef)
  }

  lemma HalfEvenBounds(n: nat, k: nat)
    ensures Abs(2 * (Shift(HalfEven(n, k), k) - n)) <= Pow10(k)
    ensures Shift(HalfEven(n, k), k) == n <==> Shift(DropDigits(n, k), k) == n
    ensures DropDigits(n, k) <= HalfEven(n, k) <= DropDigits(n, k) + 1
  {
    var q := DropDigits(n, k);
    DropBounds(n, k);
    ShiftSum(q, 1, k);
    ShiftOne(k);
  }

  lemma {:induction false} ShiftedApart(q: nat, other: nat, k: nat)
    ensures other < q ==> Shift(other, k) + Pow10(k) <= Shift(q, k)
  {
    if other < q {
      ShiftMono(other + 1, q, k);
      ShiftSum(other, 1, k);
      ShiftOne(k);
    }
  }

  // Of two places around a number, the nearer, or the one told of two as near.
  lemma NearestOfTwo(low: int, unit: nat, n: int, up: bool, other: int)
    requires low <= n < low + unit && (2 * (n - low) > unit ==> up) && (2 * (n - low) < unit ==> !up)
    requires other <= low - unit || other == low || other == low + unit || other >= low + 2 * unit
    ensures var kept := if up then low + unit else low;
            && Abs(kept - n) <= Abs(other - n)
            && (Abs(kept - n) == Abs(other - n) && kept != other ==> 2 * (n - low) == unit)
  {
  }

  lemma HalfEvenGoesUp(n: nat, k: nat) returns (up: bool)
    ensures var q := DropDigits(n, k);
            var low := Shift(q, k);
            && HalfEven(n, k) == (if up then q + 1 else q) && Shift(HalfEven(n, k), k) == (if up then low + Pow10(k) else low)
            && low <= n < low + Pow10(k)
            && (2 * (n - low) > Pow10(k) ==> up) && (2 * (n - low) < Pow10(k) ==> !up)
            && (2 * (n - low) == Pow10(k) ==> HalfEven(n, k) % 2 == 0)
  {
    var q := DropDigits(n, k);
    DropBounds(n, k);
    ShiftSum(q, 1, k);
    ShiftOne(k);
    up := HalfEven(n, k) == q + 1;
  }

  // The nearest there is, and of two as near the even one.
  lemma HalfEvenIsNearest(n: nat, k: nat, other: nat)
    ensures var kept := HalfEven(n, k);
            && Abs(Shift(kept, k) - n) <= Abs(Shift(other, k) - n)
            && (Abs(Shift(kept, k) - n) == Abs(Shift(other, k) - n) && Shift(kept, k) != Shift(other, k) ==> kept % 2 == 0)
  {
    var q := DropDigits(n, k);
    var up := HalfEvenGoesUp(n, k);
    ShiftSum(q, 1, k);
    ShiftOne(k);
    ShiftedApart(q, other, k);
    ShiftedApart(other, q + 1, k);
    ShiftedApart(other, q, k);
    ShiftedApart(q + 1, other, k);
    NearestOfTwo(Shift(q, k), Pow10(k), n, up, Shift(other, k));
  }

  lemma FixAt(prec: nat, d: Dec)
    requires prec >= 1
    ensures var k := Dropped(prec, d.coef);
            && d.exp <= Fix(prec, d).exp
            && At(Fix(prec, d), d.exp) == Signed(d.coef, Shift(HalfEven(Abs(d.coef), k), k))
            && Width(Abs(Fix(prec, d).coef)) <= prec
  {
    var n, k := Abs(d.coef), Dropped(prec, d.coef);
    var q := HalfEven(n, k);
    if k == 0 {
      HalfEvenBounds(n, 0);
      assert Shift(q, 0) == q;
      assert Pow10(0) == 1;
    } else {
      KeptDigits(prec, n);
      HalfEvenBounds(n, k);
      ShiftSum(q, 0, k);
      if q == Pow10(prec) {
        ShiftShift(Pow10(prec - 1), 1, k);
        assert Shift(Pow10(prec - 1), 1) == 10 * Shift(Pow10(prec - 1), 0);
        ShiftSum(Pow10(prec - 1), 0, k + 1);
        WidthIs(Pow10(prec - 1), prec);
      } else {
        WidthIs(q, prec);
      }
    }
  }

  // The number kept is within one part in twice ten to the digits after the first, and is
  // the number itself exactly when the digits dropped are zeros.
  lemma FixBounds(prec: nat, d: Dec)
    requires prec >= 1
    ensures d.exp <= Fix(prec, d).exp
    ensures var kept := At(Fix(prec, d), d.exp);
            && Shift(Abs(2 * (kept - d.coef)), prec - 1) <= Abs(kept)
            && (kept == d.coef <==> !Inexact(prec, d))
            && (d.coef >= 0 ==> kept >= 0) && (d.coef <= 0 ==> kept <= 0)
  {
    var n, k := Abs(d.coef), Dropped(prec, d.coef);
    var q := HalfEven(n, k);
    FixAt(prec, d);
    HalfEvenBounds(n, k);
    ShiftMono(0, q, k);
    ShiftSum(0, 0, k);
    var gap := Abs(2 * (Shift(q, k) - n));
    assert Abs(2 * (At(Fix(prec, d), d.exp) - d.coef)) == gap;
    if k == 0 {
      assert gap == 0;
      ShiftSum(0, 0, prec - 1);
    } else {
      KeptDigits(prec, n);
      ShiftOne(k);
      ShiftMono(gap, Pow10(k), prec - 1);
      ShiftShift(1, k, prec - 1);
      ShiftShift(1, prec - 1, k);
      ShiftOne(prec - 1);
      ShiftMono(Pow10(prec - 1), q, k);
    }
  }

  lemma FixValue(prec: nat, d: Dec)
    requires prec >= 1 && d.coef >= 0
    ensures var kept := Value(Fix(prec, d));
            && kept >= 0.0
            && Level(2.0 * (Value(d) - kept), prec - 1) <= kept
            && Level(2.0 * (kept - Value(d)), prec - 1) <= kept
            && (kept == Value(d) <==> !Inexact(prec, d))
  {
    FixBounds(prec, d);
    var f := Fix(prec, d);
    var kept, k := At(f, d.exp), prec - 1;
    ValueAt(f, d.exp);
    LevelMono(0.0, kept as real, d.exp);
    LevelZero(d.exp);
    LevelMono(kept as real, d.coef as real, d.exp);
    LevelMono(d.coef as real, kept as real, d.exp);
    var gap := 2 * (kept - d.coef);
    ShiftMono(gap, Abs(gap), k);
    ShiftMono(-gap, Abs(gap), k);
    GapLevel(gap, kept, k, d.exp);
    GapLevel(-gap, kept, k, d.exp);
    LevelTwice(kept as real, d.coef as real, d.exp);
    LevelTwice(d.coef as real, kept as real, d.exp);
  }

  lemma LevelZero(e: int)
    ensures Level(0.0, e) == 0.0
  {
    LevelSum(0.0, 0.0, e);
  }

  lemma LevelTwice(x: real, y: real, e: int)
    ensures Level(2.0 * (x - y), e) == 2.0 * (Level(x, e) - Level(y, e))
  {
    LevelSum(x, -y, e);
    LevelSum(y, y, e);
    LevelSum(x - y, x - y, e);
  }

  lemma GapLevel(gap: int, kept: int, k: nat, e: int)
    requires Shift(gap, k) <= kept
    ensures Level(Level(gap as real, e), k) <= Level(kept as real, e)
  {
    LevelShift(gap, k, e);
    LevelMono(Shift(gap, k) as real, kept as real, e);
    LevelLevel(gap as real, e, k);
  }

  // A number of at most `prec` digits, moved up `j` places, that is no greater than `n` is no
  // greater than what `n` keeps after dropping `k` digits.
  lemma CoarseStaysBelow(c: nat, j: nat, n: nat, k: nat)
    requires k <= j && Shift(c, j) <= n
    ensures Shift(c, j) <= Shift(DropDigits(n, k), k)
  {
    var top := DropDigits(n, k);
    DropBounds(n, k);
    ShiftShift(c, j - k, k);
    ShiftMono(top + 1, Shift(c, j - k), k);
    ShiftMono(Shift(c, j - k), top, k);
  }

  lemma FineStaysBelow(prec: nat, c: nat, j: nat, n: nat)
    requires prec >= 1 && Width(c) <= prec && Width(n) > prec && j < Width(n) - prec
    ensures Shift(c, j) <= Shift(DropDigits(n, Width(n) - prec), Width(n) - prec)
  {
    var k := Width(n) - prec;
    KeptDigits(prec, n);
    WidthBounds(c);
    Pow10Grows(Width(c), prec);
    ShiftMono(c, Pow10(prec), j);
    TenTo(prec, j);
    Pow10Grows(prec + j, prec - 1 + k);
    TenTo(prec - 1, k);
    ShiftMono(Pow10(prec - 1), DropDigits(n, k), k);
  }

  lemma TenTo(a: nat, b: nat)
    ensures Shift(Pow10(a), b) == Pow10(a + b)
  {
    ShiftOne(a);
    ShiftShift(1, a, b);
    ShiftOne(a + b);
  }

  lemma KeepsAbove(prec: nat, c: nat, j: nat, n: nat)
    requires prec >= 1 && Width(c) <= prec && Shift(c, j) <= n
    ensures var k := Dropped(prec, n); Shift(c, j) <= Shift(HalfEven(n, k), k)
  {
    var k := Dropped(prec, n);
    HalfEvenBounds(n, k);
    ShiftMono(DropDigits(n, k), HalfEven(n, k), k);
    if k <= j {
      CoarseStaysBelow(c, j, n, k);
    } else {
      FineStaysBelow(prec, c, j, n);
    }
  }

  // Rounding never passes below a number the precision can hold.
  lemma FixKeepsAbove(prec: nat, held: Dec, d: Dec)
    requires prec >= 1 && held.coef >= 0 && Width(held.coef) <= prec
    requires d.exp <= held.exp && At(held, d.exp) <= d.coef
    ensures Value(held) <= Value(Fix(prec, d))
  {
    var j := held.exp - d.exp;
    ShiftMono(0, held.coef, j);
    ShiftSum(0, 0, j);
    KeepsAbove(prec, held.coef, j, d.coef);
    FixAt(prec, d);
    ValueAt(held, d.exp);
    ValueAt(Fix(prec, d), d.exp);
    LevelMono(At(held, d.exp) as real, At(Fix(prec, d), d.exp) as real, d.exp);
  }

  lemma KeepsBelow(prec: nat, c: nat, j: nat, n: nat)
    requires prec >= 1 && Width(c) <= prec && n <= Shift(c, j)
    ensures var k := Dropped(prec, n); Shift(HalfEven(n, k), k) <= Shift(c, j)
  {
    var k := Dropped(prec, n);
    var top := DropDigits(n, k);
    HalfEvenBounds(n, k);
    DropBounds(n, k);
    if k <= j {
      ShiftShift(c, j - k, k);
      ShiftMono(top, Shift(c, j - k), k);
      ShiftMono(HalfEven(n, k), Shift(c, j - k), k);
    } else {
      KeptDigits(prec, n);
      WidthBounds(c);
      Pow10Grows(Width(c), prec);
      ShiftMono(Pow10(prec), c, j);
      TenTo(prec, j);
      TenTo(prec - 1, k);
      Pow10Grows(prec + j, prec - 1 + k);
      ShiftMono(Pow10(prec - 1), top, k);
    }
  }

  // Nor above one.
  lemma FixKeepsBelow(prec: nat, held: Dec, d: Dec)
    requires prec >= 1 && held.coef >= 0 && Width(held.coef) <= prec
    requires d.exp <= held.exp && 0 <= d.coef <= At(held, d.exp)
    ensures Value(Fix(prec, d)) <= Value(held)
  {
    KeepsBelow(prec, held.coef, held.exp - d.exp, d.coef);
    FixAt(prec, d);
    ValueAt(held, d.exp);
    ValueAt(Fix(prec, d), d.exp);
    LevelMono(At(Fix(prec, d), d.exp) as real, At(held, d.exp) as real, d.exp);
  }
}
