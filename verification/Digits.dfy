// Powers of ten, decimal digit counts, and natural numbers written in ASCII digits.
module Digits {

  function Pow10(n: nat): (p: nat)
    ensures p >= 1
  {
    if n == 0 then 1 else 10 * Pow10(n - 1)
  }

  lemma {:induction false} Pow10Add(a: nat, b: nat)
    ensures Pow10(a + b) == Pow10(a) * Pow10(b)
  {
    if a == 0 {
    } else {
      Pow10Add(a - 1, b);
      calc {
        Pow10(a + b);
        10 * Pow10((a - 1) + b);
        10 * (Pow10(a - 1) * Pow10(b));
        Pow10(a) * Pow10(b);
      }
    }
  }

  lemma {:induction false} Pow10Grows(a: nat, b: nat)
    requires a <= b
    ensures Pow10(a) <= Pow10(b)
  {
    if a < b {
      Pow10Grows(a, b - 1);
    }
  }

  lemma PowersOfTen()
    ensures Pow10(16) == 10_000_000_000_000_000
    ensures Pow10(27) == 1_000_000_000_000_000_000_000_000_000
    ensures Pow10(29) == 100_000_000_000_000_000_000_000_000_000
  {
    assert Pow10(3) == 1_000;
    Pow10Add(5, 3);
    Pow10Add(8, 8);
    Pow10Add(16, 8);
    Pow10Add(24, 3);
    Pow10Add(24, 5);
  }

  // How many decimal digits `n` is written with; zero is written with one.
  function Width(n: nat): (w: nat)
    ensures w >= 1
  {
    if n < 10 then 1 else 1 + Width(n / 10)
  }

  lemma {:induction false} WidthBounds(n: nat)
    ensures n < Pow10(Width(n))
    ensures n > 0 ==> Pow10(Width(n) - 1) <= n
  {
    if n < 10 {
      assert Pow10(1) == 10;
    } else {
      WidthBounds(n / 10);
    }
  }

  // The width is the only exponent between whose powers a positive number lies.
  lemma WidthIs(n: nat, w: nat)
    requires w >= 1 && n < Pow10(w)
    ensures Width(n) <= w
    ensures n > 0 && Pow10(w - 1) <= n ==> Width(n) == w
  {
    WidthBounds(n);
    if Width(n) > w {
      if n < 10 {
        assert false;
      }
      Pow10Grows(w, Width(n) - 1);
    }
    if n > 0 && Pow10(w - 1) <= n && Width(n) < w {
      Pow10Grows(Width(n), w - 1);
    }
  }

  predicate IsDigit(c: char) { '0' <= c <= '9' }

  predicate AllDigits(s: string) { forall i :: 0 <= i < |s| ==> IsDigit(s[i]) }

  function Digit(d: nat): (c: char)
    requires d < 10
    ensures IsDigit(c)
  {
    ('0' as int + d) as char
  }

  // A whole number as `str` writes it.
  function Written(n: nat): (s: string)
    ensures |s| == Width(n)
    ensures AllDigits(s)
  {
    if n < 10 then [Digit(n)] else Written(n / 10) + [Digit(n % 10)]
  }

  // The number a run of ASCII digits states, as `int` reads it.
  function Read(s: string): nat
    requires AllDigits(s)
  {
    if s == [] then 0 else 10 * Read(s[..|s| - 1]) + (s[|s| - 1] as int - '0' as int)
  }

  // A whole number in its one canonical form: no leading zero.
  predicate Canonical(s: string) {
    |s| > 0 && AllDigits(s) && (s[0] == '0' ==> |s| == 1)
  }

  lemma {:induction false} ReadWritten(n: nat)
    ensures Read(Written(n)) == n
    ensures Canonical(Written(n))
  {
    if n >= 10 {
      ReadWritten(n / 10);
      var s := Written(n);
      assert s[..|s| - 1] == Written(n / 10);
      assert s[0] == Written(n / 10)[0];
    }
  }

  lemma {:induction false} WrittenRead(s: string)
    requires Canonical(s)
    ensures Written(Read(s)) == s
    ensures Read(s) < Pow10(|s|)
    ensures s[0] != '0' ==> Read(s) > 0
  {
    if |s| == 1 {
      assert Read(s[..0]) == 0;
      assert Pow10(1) == 10;
    } else {
      var rest := s[..|s| - 1];
      assert rest[0] == s[0];
      WrittenRead(rest);
      assert Read(s) / 10 == Read(rest);
      assert s == rest + [s[|s| - 1]];
    }
  }

  lemma {:induction false} ReadBelow(s: string)
    requires AllDigits(s)
    ensures Read(s) < Pow10(|s|)
  {
    if s != "" {
      ReadBelow(s[..|s| - 1]);
    }
  }

  // A number in exactly `w` digits, leading zeros and all.
  function Padded(n: nat, w: nat): (s: string)
    ensures |s| == w && AllDigits(s)
  {
    if w == 0 then "" else Padded(n / 10, w - 1) + [Digit(n % 10)]
  }

  lemma {:induction false} ReadPadded(n: nat, w: nat)
    requires n < Pow10(w)
    ensures Read(Padded(n, w)) == n
  {
    if w > 0 {
      ReadPadded(n / 10, w - 1);
      var s := Padded(n, w);
      assert s[..|s| - 1] == Padded(n / 10, w - 1);
    }
  }

  /* ----- shifting by decimal places ----- */

  // `c` times ten to the `k`.
  function Shift(c: int, k: nat): int {
    if k == 0 then c else 10 * Shift(c, k - 1)
  }

  lemma {:induction false} ShiftOne(k: nat)
    ensures Shift(1, k) == Pow10(k)
  {
    if k > 0 {
      ShiftOne(k - 1);
    }
  }

  lemma {:induction false} ShiftSum(a: int, b: int, k: nat)
    ensures Shift(a + b, k) == Shift(a, k) + Shift(b, k)
    ensures Shift(-a, k) == -Shift(a, k)
  {
    if k > 0 {
      ShiftSum(a, b, k - 1);
    }
  }

  lemma {:induction false} ShiftShift(c: int, j: nat, k: nat)
    ensures Shift(Shift(c, j), k) == Shift(c, j + k)
  {
    if k > 0 {
      ShiftShift(c, j, k - 1);
    }
  }

  lemma {:induction false} ShiftMono(a: int, b: int, k: nat)
    ensures a <= b <==> Shift(a, k) <= Shift(b, k)
  {
    if k > 0 {
      ShiftMono(a, b, k - 1);
    }
  }

  // `n` without its last `k` digits.
  function DropDigits(n: nat, k: nat): nat {
    if k == 0 then n else DropDigits(n / 10, k - 1)
  }

  lemma {:induction false} DropBounds(n: nat, k: nat)
    ensures Shift(DropDigits(n, k), k) <= n < Shift(DropDigits(n, k) + 1, k)
  {
    if k > 0 {
      DropBounds(n / 10, k - 1);
    }
  }

  // A number too wide keeps exactly its first digits.
  lemma {:induction false} KeptDigits(prec: nat, n: nat)
    requires prec >= 1 && Width(n) > prec
    ensures Pow10(prec - 1) <= DropDigits(n, Width(n) - prec) < Pow10(prec)
  {
    if Width(n) == prec + 1 {
      WidthBounds(n / 10);
      assert DropDigits(n, 1) == DropDigits(n / 10, 0);
    } else {
      KeptDigits(prec, n / 10);
    }
  }
}
