// Division and rescaling as Python's `decimal` computes them.
module Division {
  import opened Wrappers
  import opened Digits
  import opened Decimals

  // A coefficient and exponent brought as near an ideal exponent as zeros allow.
  function Stripped(coef: nat, exp: int, ideal: int): Dec
    decreases coef, if exp < ideal then ideal - exp else 0
  {
    if exp < ideal && coef % 10 == 0 && coef > 0 then Stripped(coef / 10, exp + 1, ideal) else Dec(coef, exp)
  }

  // A quotient as `decimal` computes it before rounding: enough digits, a sticky last digit
  // when it does not come out, trailing zeros taken off when it does.
  function RawQuotient(prec: nat, a: Dec, b: Dec): (q: Dec)
    requires a.coef >= 0 && b.coef > 0
    ensures q.coef >= 0
  {
    if a.coef == 0 then Dec(0, a.exp - b.exp)
    else
      var shift := Width(b.coef) as int - Width(a.coef) as int + prec + 1;
      ShiftedIsSigned(a.coef, shift);
      ShiftedIsSigned(b.coef, -shift);
      var top := if shift >= 0 then Shift(a.coef, shift) else a.coef;
      var bottom := if shift >= 0 then b.coef else Shift(b.coef, -shift);
      var exp := a.exp - b.exp - shift;
      QuotientIsSigned(top, bottom);
      if top % bottom != 0 then
        Dec(if (top / bottom) % 5 == 0 then top / bottom + 1 else top / bottom, exp)
      else
        StrippedValue(top / bottom, exp, a.exp - b.exp);
        Stripped(top / bottom, exp, a.exp - b.exp)
  }

  lemma QuotientIsSigned(top: nat, bottom: nat)
    requires bottom > 0
    ensures 0 <= top / bottom
  {
  }

  lemma MultiplesApart(a: nat, b: nat, n: nat)
    requires n > 0
    ensures a > b ==> a * n >= b * n + n
  {
    if a > b {
      TimesAtLeast(n, a - b);
      assert n * (a - b) == a * n - b * n;
    }
  }

  lemma TimesOver(q: nat, b: nat)
    requires b > 0
    ensures (q * b) % b == 0 && (q * b) / b == q
  {
    var d := (q * b) / b;
    assert q * b == d * b + (q * b) % b;
    MultiplesApart(q, d, b);
    MultiplesApart(d, q, b);
  }

  // A division that comes out.
  lemma QuotientComesOut(prec: nat, a: Dec, b: Dec, shift: nat, q: nat)
    requires a.coef > 0 && b.coef > 0 && shift == Width(b.coef) as int - Width(a.coef) as int + prec + 1
    requires Shift(a.coef, shift) == q * b.coef
    ensures RawQuotient(prec, a, b) == Stripped(q, a.exp - b.exp - shift, a.exp - b.exp)
  {
    TimesOver(q, b.coef);
  }

  lemma ShiftedIsSigned(c: int, k: int)
    ensures k >= 0 && c >= 0 ==> Shift(c, k) >= c
  {
    if k >= 0 && c >= 0 {
      ShiftGrows(c, k);
    }
  }

  lemma {:induction false} ShiftGrows(c: nat, k: nat)
    ensures Shift(c, k) >= c
  {
    if k > 0 {
      ShiftGrows(c, k - 1);
    }
  }

  lemma {:induction false} StrippedValue(coef: nat, exp: int, ideal: int)
    ensures Value(Stripped(coef, exp, ideal)) == Value(Dec(coef, exp))
    ensures 0 <= Stripped(coef, exp, ideal).coef <= coef
    ensures Stripped(coef, exp, ideal).exp >= exp
    ensures coef > 0 ==> Stripped(coef, exp, ideal).coef > 0
    decreases coef, if exp < ideal then ideal - exp else 0
  {
    if exp < ideal && coef % 10 == 0 && coef > 0 {
      StrippedValue(coef / 10, exp + 1, ideal);
      LevelTen((coef / 10) as real, exp);
      assert coef as real == 10.0 * (coef / 10) as real;
    }
  }

  // However many zeros a coefficient was given, no more are left than bring it to the ideal.
  lemma {:induction false} StrippedDigits(c: nat, j: nat, exp: int, ideal: int)
    requires c > 0 && exp + j <= ideal
    ensures Shift(c, j) >= 0
    ensures var s := Stripped(Shift(c, j), exp, ideal);
            s.coef <= c && exp + j <= s.exp <= ideal
    decreases j
  {
    ShiftGrows(c, j);
    if j == 0 {
      StrippedValue(c, exp, ideal);
      StrippedStops(c, exp, ideal);
    } else {
      assert Shift(c, j) / 10 == Shift(c, j - 1) && Shift(c, j) % 10 == 0;
      ShiftGrows(c, j - 1);
      StrippedDigits(c, j - 1, exp + 1, ideal);
    }
  }

  lemma {:induction false} StrippedStops(coef: nat, exp: int, ideal: int)
    requires exp <= ideal
    ensures Stripped(coef, exp, ideal).exp <= ideal
    decreases coef
  {
    if exp < ideal && coef % 10 == 0 && coef > 0 {
      StrippedStops(coef / 10, exp + 1, ideal);
    }
  }

  // The zeros a number ends in.
  function Zeros(n: nat): nat
    requires n > 0
  {
    if n % 10 == 0 then 1 + Zeros(n / 10) else 0
  }

  // Stripping takes off a number's own zeros, no more than bring it to the ideal, and moves
  // its first digit nowhere.
  lemma {:induction false} StrippedIs(coef: nat, exp: int, ideal: int)
    requires coef > 0 && exp <= ideal
    ensures var s := Stripped(coef, exp, ideal);
            && s.exp == exp + Min(ideal - exp, Zeros(coef)) && s.coef > 0
            && s.exp + Width(s.coef) == exp + Width(coef)
    decreases coef
  {
    if exp < ideal && coef % 10 == 0 {
      StrippedIs(coef / 10, exp + 1, ideal);
    }
  }

  lemma {:induction false} ShiftedDigits(c: nat, k: nat)
    requires c > 0
    ensures Shift(c, k) >= c
    ensures Zeros(Shift(c, k)) == Zeros(c) + k && Width(Shift(c, k)) == Width(c) + k
  {
    if k > 0 {
      ShiftedDigits(c, k - 1);
      assert Shift(c, k) / 10 == Shift(c, k - 1);
    }
  }

  lemma {:induction false} ZerosOfProduct(a: nat, b: nat)
    requires a > 0 && b > 0
    ensures a * b > 0 && Zeros(a * b) >= Zeros(b)
    decreases b
  {
    TimesAtLeast(a, b);
    if b % 10 == 0 {
      ZerosOfProduct(a, b / 10);
      assert a * b == 10 * (a * (b / 10));
      assert (a * b) / 10 == a * (b / 10);
    }
  }

  /* ----- how large a quotient is ----- */

  // A number no greater than ten to the `p`.
  predicate AtMostTen(d: Dec, p: nat) {
    d.exp <= p && 0 <= d.coef <= Pow10(p - d.exp)
  }

  lemma QuotientBelow(a: nat, b: nat, shift: nat, w: nat)
    requires b > 0 && a < Pow10(w)
    ensures Shift(a, shift) >= 0 && Shift(a, shift) / b <= Pow10(w + shift) - 1
  {
    ShiftGrows(a, shift);
    ShiftMono(a + 1, Pow10(w), shift);
    ShiftSum(a, 1, shift);
    ShiftOne(shift);
    TenTo(w, shift);
    DividesDown(Shift(a, shift), b);
  }

  lemma DividesDown(top: nat, b: nat)
    requires b > 0
    ensures top / b <= top
  {
    TimesAtLeast(top / b, b);
  }

  lemma {:induction false} TimesAtLeast(q: nat, b: nat)
    requires b > 0
    ensures q * b >= q
  {
    if b > 1 {
      TimesAtLeast(q, b - 1);
      assert q * b == q * (b - 1) + q;
    }
  }

  // A whole number divided by one that is not below one comes to no more than it, rounded up.
  lemma RawIsBelow(prec: nat, a: Dec, b: Dec, p: nat)
    requires a.coef >= 0 && b.coef > 0 && a.exp == b.exp && Width(a.coef) <= p && Width(b.coef) <= prec + 1
    ensures Width(a.coef) <= Width(b.coef) + prec + 1
            ==> AtMostTen(RawQuotient(prec, a, b), p)
  {
    if a.coef > 0 && Width(a.coef) <= Width(b.coef) + prec + 1 {
      var shift := Width(b.coef) - Width(a.coef) + prec + 1;
      WidthBounds(a.coef);
      QuotientBelow(a.coef, b.coef, shift, Width(a.coef));
      Pow10Grows(Width(a.coef) + shift, p + shift);
      var q := Shift(a.coef, shift) / b.coef;
      if Shift(a.coef, shift) % b.coef == 0 {
        StrippedIsBelow(q, -shift, 0, p);
      }
    }
  }

  lemma {:induction false} StrippedIsBelow(coef: nat, exp: int, ideal: int, p: nat)
    requires exp <= ideal <= p && coef <= Pow10(p - exp)
    ensures AtMostTen(Stripped(coef, exp, ideal), p)
    decreases coef
  {
    if exp < ideal && coef % 10 == 0 && coef > 0 {
      StrippedIsBelow(coef / 10, exp + 1, ideal, p);
    }
  }

  // Rounding keeps a number at most ten to the `p` so.
  lemma FixIsBelow(prec: nat, d: Dec, p: nat)
    requires prec >= 1 && AtMostTen(d, p)
    ensures Fix(prec, d).coef >= 0
    ensures Fix(prec, d).exp <= p ==> AtMostTen(Fix(prec, d), p)
    ensures Fix(prec, d).exp <= p || Fix(prec, d).coef == 0
  {
    var f := Fix(prec, d);
    var j := f.exp - d.exp;
    ShiftOne(p - d.exp);
    WidthIs(1, 1);
    assert Pow10(1) == 10;
    KeepsBelow(prec, 1, p - d.exp, d.coef);
    FixAt(prec, d);
    assert At(f, d.exp) <= Pow10(p - d.exp);
    assert At(f, d.exp) == Shift(f.coef, j);
    if f.exp <= p {
      TenTo(p - f.exp, j);
      ShiftMono(f.coef, Pow10(p - f.exp), j);
    } else if f.coef > 0 {
      ShiftMono(1, f.coef, j);
      ShiftOne(j);
      PowersDiffer(p - d.exp, j);
      assert false;
    }
  }

  lemma PowersDiffer(a: nat, b: nat)
    requires a < b
    ensures Pow10(a) < Pow10(b)
  {
    Pow10Grows(a, b - 1);
  }

  // A number brought to an exponent, half to even; an invalid operation when that takes more
  // digits than the context has.
  function Quantize(prec: nat, d: Dec, exp: int): Option<Dec> {
    var n := Abs(d.coef);
    var q := if d.exp >= exp then Shift(n, d.exp - exp) else HalfEven(n, exp - d.exp);
    if Width(Abs(q)) > prec then None else Some(Dec(Signed(d.coef, q), exp))
  }

  // A number at most ten to the `p` takes at most `p` and the places asked for, and one more.
  lemma QuantizeFits(prec: nat, d: Dec, places: nat, p: nat)
    requires d.exp <= p && Abs(d.coef) <= Pow10(p - d.exp) && p + places + 1 <= prec
    ensures Quantize(prec, d, -(places as int)).Some?
  {
    var n, exp := Abs(d.coef), -(places as int);
    PowersDiffer(p + places, p + places + 1);
    if d.exp >= exp {
      ShiftMono(0, n, d.exp - exp);
      ShiftSum(0, 0, d.exp - exp);
      ShiftMono(n, Pow10(p - d.exp), d.exp - exp);
      TenTo(p - d.exp, d.exp - exp);
      WidthIs(Shift(n, d.exp - exp), p + places + 1);
    } else {
      var k := exp - d.exp;
      HalfEvenBounds(n, k);
      DropBounds(n, k);
      TenTo(p + places, k);
      ShiftMono(DropDigits(n, k), Pow10(p + places), k);
      WidthIs(HalfEven(n, k), p + places + 1);
    }
  }

  // A whole number brought to some places traps exactly when that takes more digits than the
  // context has.
  lemma QuantizeTraps(prec: nat, n: nat, places: nat)
    requires n > 0
    ensures Quantize(prec, Dec(n, 0), -(places as int)).None? <==> Width(n) + places > prec
  {
    ShiftedDigits(n, places);
  }
}
