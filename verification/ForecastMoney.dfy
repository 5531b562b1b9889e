// Money as a forecast request writes it and its answer prints it: a bounded decimal grammar,
// read as whole millionths.
module ForecastMoney {
  import opened Wrappers
  import opened Digits
  import opened Decimals
  import opened Texts

  const WHOLE_DIGITS: nat := 18
  const PLACES: nat := 6
  const MOST_CHARACTERS: nat := 26

  // The fraction after a point, in millionths.
  function FractionOf(digits: string): Option<nat> {
    if 1 <= |digits| <= PLACES && AllDigits(digits) then Some(Raised(Read(digits), PLACES - |digits|)) else None
  }

  // `n` with `k` zeros after it.
  function Raised(n: nat, k: nat): nat { if k == 0 then n else 10 * Raised(n, k - 1) }

  // An amount without its sign.
  function MagnitudeOf(s: string): Option<nat> {
    var dot := FirstOf(s, '.');
    var whole := s[..dot];
    if !Canonical(whole) || |whole| > WHOLE_DIGITS then None
    else if dot == |s| then Some(Raised(Read(whole), PLACES))
    else
      var fraction := FractionOf(s[dot + 1..]);
      if fraction.None? then None else Some(Raised(Read(whole), PLACES) + fraction.value)
  }

  // An amount, or nothing when it is not written as one. Only a signed one may be below zero.
  function AmountOf(s: string, signed: bool): Option<int> {
    if |s| > MOST_CHARACTERS then None
    else
      var negative := s != "" && s[0] == '-';
      var magnitude := MagnitudeOf(if negative then s[1..] else s);
      if magnitude.None? then None
      else if negative && !signed && magnitude.value != 0 then None
      else Some(if negative then -(magnitude.value as int) else magnitude.value)
  }

  // The text of an amount without its sign.
  function Body(n: nat): string { Written(n / 1_000_000) + "." + Padded(n % 1_000_000, PLACES) }

  // What is printed: the sign, the whole part and six places.
  function Printed(x: int): string {
    (if x < 0 then "-" else "") + Body(Abs(x))
  }

  lemma {:induction false} RaisedBelow(n: nat, k: nat, w: nat)
    requires n < Pow10(w)
    ensures Raised(n, k) + Pow10(k) <= Pow10(w + k)
  {
    if k > 0 {
      RaisedBelow(n, k - 1, w);
    }
  }

  lemma MagnitudeIsSmall(s: string)
    requires MagnitudeOf(s).Some?
    ensures MagnitudeOf(s).value < Pow10(WHOLE_DIGITS + PLACES)
  {
    var dot := FirstOf(s, '.');
    var whole := s[..dot];
    ReadBelow(whole);
    RaisedBelow(Read(whole), PLACES, |whole|);
    Pow10Grows(|whole| + PLACES, WHOLE_DIGITS + PLACES);
    if dot < |s| {
      var digits := s[dot + 1..];
      ReadBelow(digits);
      RaisedBelow(Read(digits), PLACES - |digits|, |digits|);
    }
  }

  lemma AmountIsSmall(s: string, signed: bool)
    requires AmountOf(s, signed).Some?
    ensures Abs(AmountOf(s, signed).value) < Pow10(WHOLE_DIGITS + PLACES)
    ensures !signed ==> AmountOf(s, signed).value >= 0
  {
    MagnitudeIsSmall(if s != "" && s[0] == '-' then s[1..] else s);
  }

  lemma FindsTheDot(whole: string, rest: string)
    requires AllDigits(whole)
    ensures FirstOf(whole + "." + rest, '.') == |whole|
  {
    var s := whole + "." + rest;
    assert s[|whole|] == '.';
    assert forall j :: 0 <= j < |whole| ==> s[j] == whole[j];
  }

  lemma SplitAtDot(s: string, whole: string, digits: string)
    requires AllDigits(whole) && s == whole + "." + digits
    ensures FirstOf(s, '.') == |whole| < |s| && s[..|whole|] == whole && s[|whole| + 1..] == digits
  {
    FindsTheDot(whole, digits);
  }

  lemma FullFraction(digits: string)
    requires AllDigits(digits) && |digits| == PLACES
    ensures FractionOf(digits) == Some(Read(digits))
  {
    assert Raised(Read(digits), PLACES - |digits|) == Read(digits);
  }

  lemma MagnitudeOfSplit(s: string, whole: string, digits: string, r: nat)
    requires FirstOf(s, '.') == |whole| < |s| && s[..|whole|] == whole && s[|whole| + 1..] == digits
    requires Canonical(whole) && |whole| <= WHOLE_DIGITS && FractionOf(digits) == Some(r)
    ensures MagnitudeOf(s) == Some(Raised(Read(whole), PLACES) + r)
  {
  }

  lemma Million()
    ensures Pow10(PLACES) == 1_000_000
  {
    assert Pow10(3) == 1000;
    Pow10Add(3, 3);
  }

  lemma RaisedMillion(q: nat)
    ensures Raised(q, PLACES) == 1_000_000 * q
  {
    assert Raised(q, 1) == 10 * q;
    assert Raised(q, 2) == 100 * q;
    assert Raised(q, 3) == 1000 * q;
    assert Raised(q, 4) == 10000 * q;
  }

  lemma Parts(n: nat)
    requires n < Pow10(WHOLE_DIGITS + PLACES)
    ensures Width(n / 1_000_000) <= WHOLE_DIGITS && n % 1_000_000 < Pow10(PLACES)
    ensures Raised(n / 1_000_000, PLACES) + n % 1_000_000 == n
  {
    Million();
    Pow10Add(WHOLE_DIGITS, PLACES);
    RaisedMillion(n / 1_000_000);
    NarrowQuotient(n, Pow10(WHOLE_DIGITS));
    WidthIs(n / 1_000_000, WHOLE_DIGITS);
  }

  lemma NarrowQuotient(n: nat, top: nat)
    requires n < top * 1_000_000
    ensures n / 1_000_000 < top
  {
  }

  lemma WholeReadsBack(n: nat)
    requires n < Pow10(WHOLE_DIGITS + PLACES)
    ensures var whole := Written(n / 1_000_000);
            Canonical(whole) && |whole| <= WHOLE_DIGITS && Read(whole) == n / 1_000_000
  {
    Parts(n);
    ReadWritten(n / 1_000_000);
  }

  lemma FractionReadsBack(r: nat, w: nat)
    requires r < Pow10(w)
    ensures Read(Padded(r, w)) == r
  {
    ReadPadded(r, w);
  }

  lemma BodySplits(n: nat, s: string, whole: string, digits: string)
    requires s == Body(n) && whole == Written(n / 1_000_000) && digits == Padded(n % 1_000_000, PLACES)
    ensures FirstOf(s, '.') == |whole| < |s| && s[..|whole|] == whole && s[|whole| + 1..] == digits
    ensures |s| == |whole| + 1 + PLACES && s[0] == whole[0]
  {
    SplitAtDot(s, whole, digits);
  }

  lemma BodyReadsBack(n: nat)
    requires n < Pow10(WHOLE_DIGITS + PLACES)
    ensures MagnitudeOf(Body(n)) == Some(n) && Body(n)[0] != '-' && |Body(n)| <= WHOLE_DIGITS + 1 + PLACES
  {
    var whole, digits := Written(n / 1_000_000), Padded(n % 1_000_000, PLACES);
    WholeReadsBack(n);
    Parts(n);
    FractionReadsBack(n % 1_000_000, PLACES);
    BodySplits(n, Body(n), whole, digits);
    FullFraction(digits);
    MagnitudeOfSplit(Body(n), whole, digits, n % 1_000_000);
  }

  // A body whose whole part is too wide is no amount.
  lemma WideBodyIsNone(n: nat)
    requires n >= Pow10(WHOLE_DIGITS + PLACES)
    ensures MagnitudeOf(Body(n)) == None && Body(n)[0] != '-'
  {
    var whole, digits := Written(n / 1_000_000), Padded(n % 1_000_000, PLACES);
    Million();
    Pow10Add(WHOLE_DIGITS, PLACES);
    WideQuotient(n, Pow10(WHOLE_DIGITS));
    WidthBounds(n / 1_000_000);
    if Width(n / 1_000_000) <= WHOLE_DIGITS {
      Pow10Grows(Width(n / 1_000_000), WHOLE_DIGITS);
    }
    ReadWritten(n / 1_000_000);
    SplitAtDot(Body(n), whole, digits);
    assert Body(n)[0] == whole[0];
  }

  lemma WideQuotient(n: nat, top: nat)
    requires n >= top * 1_000_000
    ensures n / 1_000_000 >= top
  {
  }

  // What is printed reads back as the amount it was printed from, and is refused exactly when
  // the amount has outgrown the grammar's eighteen digits.
  lemma PrintedReadsBack(x: int)
    ensures AmountOf(Printed(x), true) == if Abs(x) < Pow10(WHOLE_DIGITS + PLACES) then Some(x) else None
    ensures x >= 0 ==> AmountOf(Printed(x), false) == AmountOf(Printed(x), true)
  {
    if Abs(x) < Pow10(WHOLE_DIGITS + PLACES) {
      BodyReadsBack(Abs(x));
    } else {
      WideBodyIsNone(Abs(x));
    }
    if x < 0 {
      assert Printed(x)[1..] == Body(Abs(x));
    } else {
      assert Printed(x) == Body(Abs(x));
    }
  }
}
