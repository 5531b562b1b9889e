// What an admitted forecast request says, row by row, and what every projected row of its
// forecast is read from: the request's own texts, at the amounts they spell.
module ForecastReading {
  import opened Wrappers
  import opened Digits
  import opened Decimals
  import opened Texts
  import opened ForecastMoney
  import opened CashFlow
  import opened CashFlowExact
  import opened ForecastRequest
  import opened ForecastAdmission
  import opened ForecastRows

  /* ----- the amounts texts spell ----- */

  // A sign or none, a whole part without leading zeros, and a point and some places or none.
  ghost predicate Spells(s: string, negative: bool, whole: string, fraction: string) {
    && Canonical(whole) && |whole| <= 18 && AllDigits(fraction) && |fraction| <= 6
    && s == (if negative then "-" else "") + whole + (if fraction == "" then "" else "." + fraction)
  }

  // The millionths such a text stands for.
  function StandsAt(negative: bool, whole: string, fraction: string): int
    requires AllDigits(whole) && AllDigits(fraction) && |fraction| <= 6
  {
    var magnitude := Read(whole + fraction + Zeros6(6 - |fraction|));
    if negative then -(magnitude as int) else magnitude
  }

  function Zeros6(k: nat): (s: string)
    ensures |s| == k && AllDigits(s)
  {
    if k == 0 then "" else Zeros6(k - 1) + "0"
  }

  lemma {:induction false} ReadJoins(a: string, b: string)
    requires AllDigits(a) && AllDigits(b)
    ensures Read(a + b) == Shift(Read(a), |b|) + Read(b)
  {
    if b == "" {
      assert a + b == a;
    } else {
      assert (a + b)[..|a + b| - 1] == a + b[..|b| - 1];
      ReadJoins(a, b[..|b| - 1]);
    }
  }

  lemma {:induction false} ReadZeros(k: nat)
    ensures Read(Zeros6(k)) == 0
  {
    if k > 0 {
      ReadZeros(k - 1);
      assert Zeros6(k)[..k - 1] == Zeros6(k - 1);
    }
  }

  lemma {:induction false} RaisedIsShifted(n: nat, k: nat)
    ensures Raised(n, k) == Shift(n, k)
  {
    if k > 0 {
      RaisedIsShifted(n, k - 1);
    }
  }

  lemma DigitsJoin(a: string, b: string)
    requires AllDigits(a) && AllDigits(b)
    ensures AllDigits(a + b)
  {
  }

  // Digits, more digits, and zeros after them.
  lemma PlacesJoin(w: nat, f: nat, j: nat, head: string, zeros: string)
    requires AllDigits(head) && AllDigits(zeros) && AllDigits(head + zeros)
    requires Read(head) == Shift(w, j) + f && Read(zeros) == 0
    ensures Read(head + zeros) == Shift(w, j + |zeros|) + Shift(f, |zeros|)
  {
    ReadJoins(head, zeros);
    ShiftsJoin(w, f, j, |zeros|);
  }

  lemma ShiftsJoin(a: int, b: int, j: nat, k: nat)
    ensures Shift(Shift(a, j) + b, k) == Shift(a, j + k) + Shift(b, k)
  {
    ShiftSum(Shift(a, j), b, k);
    ShiftShift(a, j, k);
  }

  lemma StandsFor(negative: bool, whole: string, fraction: string, places: nat)
    requires AllDigits(whole) && AllDigits(fraction) && |fraction| <= places == 6
    ensures var magnitude := Raised(Read(whole), places) + Raised(Read(fraction), places - |fraction|);
            StandsAt(negative, whole, fraction) == if negative then -(magnitude as int) else magnitude
  {
    var k := places - |fraction|;
    var head, zeros := whole + fraction, Zeros6(k);
    DigitsJoin(whole, fraction);
    DigitsJoin(head, zeros);
    ReadJoins(whole, fraction);
    ReadZeros(k);
    PlacesJoin(Read(whole), Read(fraction), |fraction|, head, zeros);
    RaisedIsShifted(Read(whole), places);
    RaisedIsShifted(Read(fraction), k);
  }

  // Where the point is in a text without its sign.
  lemma PointOf(body: string, whole: string, fraction: string)
    requires AllDigits(whole) && body == whole + (if fraction == "" then "" else "." + fraction)
    ensures FirstOf(body, '.') == |whole| && body[..|whole|] == whole
    ensures fraction != "" ==> |whole| < |body| && body[|whole| + 1..] == fraction
    ensures fraction == "" ==> |body| == |whole|
  {
    assert forall j :: 0 <= j < |whole| ==> body[j] == whole[j];
    if fraction != "" {
      SplitAtDot(body, whole, fraction);
    }
  }

  lemma MagnitudeSpelled(body: string, whole: string, fraction: string, places: nat)
    requires Canonical(whole) && |whole| <= WHOLE_DIGITS && AllDigits(fraction) && |fraction| <= places == PLACES
    requires body == whole + (if fraction == "" then "" else "." + fraction)
    ensures MagnitudeOf(body) == Some(Raised(Read(whole), places) + Raised(Read(fraction), places - |fraction|))
    ensures body != "" && body[0] != '-' && |body| <= WHOLE_DIGITS + 1 + places
  {
    PointOf(body, whole, fraction);
    if fraction == "" {
      RaisedIsShifted(0, places);
      ShiftSum(0, 0, places);
      assert Read(fraction) == 0;
      assert FirstOf(body, '.') == |body|;
    }
  }

  lemma SignedAmount(s: string, negative: bool, body: string, magnitude: nat, signed: bool)
    requires s == (if negative then "-" else "") + body && body != "" && body[0] != '-' && |s| <= MOST_CHARACTERS
    requires MagnitudeOf(body) == Some(magnitude)
    ensures AmountOf(s, signed)
            == if negative && magnitude > 0 && !signed then None else Some(if negative then -(magnitude as int) else magnitude)
  {
    if negative {
      assert s[0] == '-' && s[1..] == body;
    } else {
      assert s == body;
    }
  }

  // A text so spelled is the amount it stands for, unless it is below zero where nothing may be.
  lemma SpelledIsAmount(s: string, negative: bool, whole: string, fraction: string, signed: bool)
    requires Spells(s, negative, whole, fraction)
    ensures var amount := StandsAt(negative, whole, fraction);
            AmountOf(s, signed) == if amount < 0 && !signed then None else Some(amount)
  {
    SpelledTo(s, negative, whole, fraction, signed, PLACES);
  }

  lemma SpelledTo(s: string, negative: bool, whole: string, fraction: string, signed: bool, places: nat)
    requires Spells(s, negative, whole, fraction) && places == PLACES
    ensures var amount := StandsAt(negative, whole, fraction);
            AmountOf(s, signed) == if amount < 0 && !signed then None else Some(amount)
  {
    var body := whole + (if fraction == "" then "" else "." + fraction);
    StandsFor(negative, whole, fraction, places);
    MagnitudeSpelled(body, whole, fraction, places);
    SignMatters(s, negative, body, StandsAt(negative, whole, fraction), signed);
  }

  lemma SignMatters(s: string, negative: bool, body: string, amount: int, signed: bool)
    requires s == (if negative then "-" else "") + body && body != "" && body[0] != '-' && |body| < MOST_CHARACTERS
    requires MagnitudeOf(body) == Some(Abs(amount)) && (if negative then amount <= 0 else amount >= 0)
    ensures AmountOf(s, signed) == if amount < 0 && !signed then None else Some(amount)
  {
    SignedAmount(s, negative, body, Abs(amount), signed);
  }

  lemma MagnitudeIsSpelled(body: string, places: nat) returns (whole: string, fraction: string)
    requires places == PLACES && MagnitudeOf(body).Some?
    ensures Canonical(whole) && |whole| <= WHOLE_DIGITS && AllDigits(fraction) && |fraction| <= places
    ensures body == whole + (if fraction == "" then "" else "." + fraction)
  {
    var dot := FirstOf(body, '.');
    whole := body[..dot];
    if dot == |body| {
      fraction := "";
      assert whole + "" == body;
    } else {
      fraction := body[dot + 1..];
      assert FractionOf(fraction).Some?;
      assert "." + fraction == body[dot..];
    }
  }

  lemma SpelledWithItsSign(s: string, negative: bool, body: string, whole: string, fraction: string)
    requires if negative then s != "" && s[0] == '-' && body == s[1..] else body == s
    requires Canonical(whole) && |whole| <= 18 && AllDigits(fraction) && |fraction| <= 6
    requires body == whole + (if fraction == "" then "" else "." + fraction)
    ensures Spells(s, negative, whole, fraction)
  {
    assert s == (if negative then "-" else "") + body;
    assert (if negative then "-" else "") + whole + (if fraction == "" then "" else "." + fraction)
           == (if negative then "-" else "") + body;
  }

  // And no other text is an amount.
  lemma AmountIsSpelled(s: string, signed: bool) returns (negative: bool, whole: string, fraction: string)
    requires AmountOf(s, signed).Some?
    ensures Spells(s, negative, whole, fraction)
  {
    negative := s != "" && s[0] == '-';
    var body := if negative then s[1..] else s;
    whole, fraction := MagnitudeIsSpelled(body, PLACES);
    SpelledWithItsSign(s, negative, body, whole, fraction);
  }

  // A text is an amount if and only if it is spelled as one, below zero only where it may be;
  // and the amount is what it stands for.
  lemma AmountsAreSpelled(s: string, signed: bool, amount: int)
    ensures AmountOf(s, signed) == Some(amount) <==>
              && (amount < 0 ==> signed)
              && exists negative, whole, fraction ::
                   Spells(s, negative, whole, fraction) && StandsAt(negative, whole, fraction) == amount
  {
    if AmountOf(s, signed) == Some(amount) {
      var negative, whole, fraction := AmountIsSpelled(s, signed);
      SpelledIsAmount(s, negative, whole, fraction, signed);
    }
    if negative, whole, fraction :| Spells(s, negative, whole, fraction) && StandsAt(negative, whole, fraction) == amount {
      SpelledIsAmount(s, negative, whole, fraction, signed);
    }
  }

  /* ----- years and days ----- */

  lemma WrittenBounds(s: string)
    requires Canonical(s) && s[0] != '0'
    ensures Pow10(|s| - 1) <= Read(s) < Pow10(|s|)
  {
    WrittenRead(s);
    WidthBounds(Read(s));
  }

  lemma SmallPowers()
    ensures Pow10(1) == 10 && Pow10(2) == 100 && Pow10(3) == 1000 && Pow10(4) == 10000
  {
  }

  // A year is written as a number of four digits, and read as that number.
  lemma YearsAreWritten(s: string)
    ensures IsYear(s) <==> WritesWithin(s, 1000, 9999)
    ensures IsYear(s) ==> s == Written(Read(s))
  {
    SmallPowers();
    if IsYear(s) {
      WrittenBounds(s);
      WrittenRead(s);
    }
    if WritesWithin(s, 1000, 9999) {
      var year: nat :| 1000 <= year <= 9999 && s == Written(year);
      ReadWritten(year);
      WidthIs(year, 4);
    }
  }

  lemma WholeAmount(d: nat)
    requires d < 1000
    ensures AmountOf(Written(d), false) == Some(1_000_000 * d) && FirstOf(Written(d), '.') == |Written(d)|
  {
    SmallPowers();
    WidthIs(d, 3);
    ReadWritten(d);
    assert Written(d) + "" == Written(d);
    PointOf(Written(d), Written(d), "");
    SpelledIsAmount(Written(d), false, Written(d), "", false);
    StandsFor(false, Written(d), "", PLACES);
    RaisedMillion(d);
    RaisedIsShifted(0, 6);
    ShiftSum(0, 0, 6);
  }

  // The days of a period are written as a whole number of them, a year's at most.
  lemma DaysAreWritten(s: string)
    ensures IsDays(s) <==> WritesWithin(s, 1, 366)
  {
    if IsDays(s) {
      var negative, whole, fraction := AmountIsSpelled(s, false);
      SpelledIsAmount(s, negative, whole, fraction, false);
      PointAtTheEnd(s, negative, whole, fraction);
      StandsFor(negative, whole, "", PLACES);
      RaisedMillion(Read(whole));
      RaisedIsShifted(0, 6);
      ShiftSum(0, 0, 6);
      WrittenRead(whole);
      assert s == whole;
    }
    if WritesWithin(s, 1, 366) {
      var days: nat :| 1 <= days <= 366 && s == Written(days);
      WholeAmount(days);
    }
  }

  lemma PointAtTheEnd(s: string, negative: bool, whole: string, fraction: string)
    requires Spells(s, negative, whole, fraction) && FirstOf(s, '.') == |s|
    ensures fraction == ""
  {
    assert fraction != "" ==> '.' in s;
  }

  /* ----- what is admitted ----- */

  // How much a request may hold: forty periods in each of six cases, a driver and an aggregate
  // row a period, forty facilities, two thousand instalments and one bridge.
  ghost predicate HoldsNoMore(request: Request) {
    && 1 <= |request.periods| <= 240
    && |CasesOf(request.periods)| <= 6
    && (forall row :: row in request.periods ==> |PeriodsOf(ReadPeriods(request.periods), row.pair.case_)| <= 40)
    && |request.drivers| <= |request.periods| && |request.aggregates| <= |request.periods|
    && |request.facilities| <= 40 && |request.instalments| <= 2000 && |request.bridges| <= 1
  }

  const DIGITS := "0123456789"
  const LOWER := "abcdefghijklmnopqrstuvwxyz"
  const UPPER := "ABCDEFGHIJKLMNOPQRSTUVWXYZ"

  predicate LetterOrDigit(c: char) { c in DIGITS || c in LOWER || c in UPPER }

  // A segment's label: at most sixty-four letters, digits, points, dashes and underscores, the
  // first a letter or a digit.
  predicate IsLabel(s: string) {
    && 1 <= |s| <= 64 && LetterOrDigit(s[0])
    && forall i :: 0 <= i < |s| ==> LetterOrDigit(s[i]) || s[i] == '.' || s[i] == '-' || s[i] == '_'
  }

  lemma InDigits(c: char)
    ensures c in DIGITS <==> '0' <= c <= '9'
  {
    if '0' <= c <= '9' {
      assert DIGITS[c as int - '0' as int] == c;
    }
  }

  lemma InLower(c: char)
    ensures c in LOWER <==> 'a' <= c <= 'z'
  {
    if 'a' <= c <= 'z' {
      assert LOWER[c as int - 'a' as int] == c;
    }
  }

  lemma InUpper(c: char)
    ensures c in UPPER <==> 'A' <= c <= 'Z'
  {
    if 'A' <= c <= 'Z' {
      assert UPPER[c as int - 'A' as int] == c;
    }
  }

  lemma LabelIs(s: string)
    ensures IsSegmentId(s) <==> IsLabel(s)
  {
    forall i | 0 <= i < |s|
      ensures IsAlphanumeric(s[i]) <==> LetterOrDigit(s[i])
    {
      InDigits(s[i]);
      InLower(s[i]);
      InUpper(s[i]);
    }
  }

  // What may be below zero: the balances, the bridge, and of a driver's moves the two that are
  // signed and the four that may be left out.
  predicate MayBeNegative(move: Move) {
    || move == AcquisitionsDisposals || move == FxPerimeter
    || move == NetEquity || move == OtherInvestingFinancing || move == RestrictedCash || move == CarryingValue
  }

  ghost predicate SpellsPeriod(row: RawPeriod) { WritesWithin(row.year, 1000, 9999) && WritesWithin(row.days, 1, 366) }

  // A whole number within two others, as it is written.
  ghost predicate WritesWithin(s: string, least: nat, most: nat) {
    exists n: nat :: least <= n <= most && s == Written(n)
  }

  ghost predicate SpellsDriver(driver: RawDriver) {
    && (forall move :: move in driver.moves ==> AmountOf(driver.moves[move], MayBeNegative(move)).Some?)
    && AmountOf(driver.statedDebt, true).Some? && AmountOf(driver.statedCash, true).Some?
    && (driver.segments.Some? ==>
          && 1 <= |driver.segments.value| <= 40
          && forall segment :: segment in driver.segments.value ==> IsLabel(segment.id) && AmountOf(segment.amount, true).Some?)
  }

  // Every text a request is read from spells what it should.
  ghost predicate SpellsEverything(request: Request) {
    && AmountOf(request.cash, true).Some?
    && (AmountOf(request.tolerance, false).Some? && AmountOf(request.tolerance, false).value <= 1000 * 1_000_000)
    && (forall row :: row in request.facilities ==> AmountOf(row.amount, true).Some?)
    && (forall row :: row in request.periods ==> SpellsPeriod(row))
    && (forall driver :: driver in request.drivers ==> SpellsDriver(driver))
    && (forall row :: row in request.instalments ==> AmountOf(row.amount, false).Some?)
    && (forall row :: row in request.aggregates ==> AmountOf(row.amount, false).Some?)
    && (forall row :: row in request.bridges ==> AmountOf(row.amount, true).Some?)
  }

  // The years written for one case never fall.
  ghost predicate YearsRise(rows: seq<RawPeriod>) {
    forall i, j, a: nat, b: nat ::
      0 <= i < j < |rows| && rows[i].pair.case_ == rows[j].pair.case_ ==>
        rows[i].year == Written(a) && rows[j].year == Written(b) ==> a <= b
  }

  // Some amounts, added up.
  ghost function Added(rows: seq<Labelled>): int {
    if rows == [] then 0
    else (if AmountOf(rows[0].amount, true).Some? then AmountOf(rows[0].amount, true).value else 0) + Added(rows[1..])
  }

  ghost predicate SegmentsComeToRevenue(driver: RawDriver) {
    driver.segments.Some? && Revenue in driver.moves ==>
      AmountOf(driver.moves[Revenue], false) == Some(Added(driver.segments.value))
  }

  // Nothing is stated twice, or of what is not there, or out of order.
  ghost predicate AgreesWithItself(request: Request) {
    && |request.currency| == 3 && (forall i :: 0 <= i < 3 ==> 'A' <= request.currency[i] <= 'Z')
    && (request.scale == "units" || request.scale == "thousands" || request.scale == "millions" || request.scale == "billions")
    && (forall i, j :: 0 <= i < j < |request.periods| ==> request.periods[i].pair != request.periods[j].pair)
    && (forall row :: row in request.periods ==> row.pair.id != request.asOf)
    && YearsRise(request.periods)
    && (forall i, j :: 0 <= i < j < |request.facilities| ==> request.facilities[i].id != request.facilities[j].id)
    && (forall i, j :: 0 <= i < j < |request.drivers| ==> request.drivers[i].pair != request.drivers[j].pair)
    && (forall driver :: driver in request.drivers ==> exists row :: row in request.periods && row.pair == driver.pair)
    && (forall driver :: driver in request.drivers ==> SegmentsComeToRevenue(driver))
  }

  lemma SignedMoves(move: Move)
    ensures move in SIGNED <==> MayBeNegative(move)
  {
    match move
    case AcquisitionsDisposals => assert move in SIGNED;
    case FxPerimeter => assert move in SIGNED;
    case NetEquity => assert move in SIGNED;
    case OtherInvestingFinancing => assert move in SIGNED;
    case RestrictedCash => assert move in SIGNED;
    case CarryingValue => assert move in SIGNED;
    case _ => assert move !in SIGNED;
  }

  lemma CountsAre(request: Request)
    ensures WithinCeilings(request) <==> HoldsNoMore(request)
  {
    forall case_
      ensures case_ in CasesOf(request.periods) <==> exists row :: row in request.periods && row.pair.case_ == case_
    {
      if row :| row in request.periods && row.pair.case_ == case_ {
        var i :| 0 <= i < |request.periods| && request.periods[i] == row;
      }
    }
  }

  lemma DriverIsSpelled(driver: RawDriver)
    ensures DriverInShape(driver) <==> SpellsDriver(driver)
  {
    forall move: Move
      ensures move in SIGNED <==> MayBeNegative(move)
    {
      SignedMoves(move);
    }
    if driver.segments.Some? {
      SegmentsAreSpelled(driver.segments.value);
    }
  }

  lemma SegmentsAreSpelled(rows: seq<Labelled>)
    ensures SegmentsInShape(rows) <==>
              1 <= |rows| <= 40 && forall segment :: segment in rows ==> IsLabel(segment.id) && AmountOf(segment.amount, true).Some?
  {
    forall s: string
      ensures IsSegmentId(s) <==> IsLabel(s)
    {
      LabelIs(s);
    }
  }

  lemma DriversAreSpelled(rows: seq<RawDriver>)
    ensures DriversInShape(rows) <==> forall driver :: driver in rows ==> SpellsDriver(driver)
  {
    forall driver: RawDriver
      ensures DriverInShape(driver) <==> SpellsDriver(driver)
    {
      DriverIsSpelled(driver);
    }
  }

  lemma PeriodIsSpelled(row: RawPeriod)
    ensures IsDays(row.days) && IsYear(row.year) <==> SpellsPeriod(row)
  {
    YearsAreWritten(row.year);
    DaysAreWritten(row.days);
  }

  lemma PeriodsAreSpelled(rows: seq<RawPeriod>)
    ensures (forall i :: 0 <= i < |rows| ==> IsDays(rows[i].days) && IsYear(rows[i].year)) <==>
              forall row :: row in rows ==> SpellsPeriod(row)
  {
    forall i | 0 <= i < |rows|
      ensures IsDays(rows[i].days) && IsYear(rows[i].year) <==> SpellsPeriod(rows[i])
    {
      PeriodIsSpelled(rows[i]);
    }
  }

  lemma DriversAreOfPeriods(request: Request)
    ensures (forall i :: 0 <= i < |request.drivers| ==> request.drivers[i].pair in PairSet(request.periods)) <==>
              forall driver :: driver in request.drivers ==> exists row :: row in request.periods && row.pair == driver.pair
  {
    forall pair
      ensures pair in PairSet(request.periods) <==> exists row :: row in request.periods && row.pair == pair
    {
      if row :| row in request.periods && row.pair == pair {
        var i :| 0 <= i < |request.periods| && request.periods[i] == row;
      }
    }
  }

  lemma AmountsAre(request: Request)
    ensures (forall i :: 0 <= i < |request.facilities| ==> IsAmount(request.facilities[i].amount, true)) <==>
              forall row :: row in request.facilities ==> AmountOf(row.amount, true).Some?
    ensures (forall i :: 0 <= i < |request.instalments| ==> IsAmount(request.instalments[i].amount, false)) <==>
              forall row :: row in request.instalments ==> AmountOf(row.amount, false).Some?
    ensures (forall i :: 0 <= i < |request.aggregates| ==> IsAmount(request.aggregates[i].amount, false)) <==>
              forall row :: row in request.aggregates ==> AmountOf(row.amount, false).Some?
    ensures (forall i :: 0 <= i < |request.bridges| ==> IsAmount(request.bridges[i].amount, true)) <==>
              forall row :: row in request.bridges ==> AmountOf(row.amount, true).Some?
  {
  }

  lemma ToleranceIs(s: string)
    ensures IsAmount(s, false) && Amt(s, false) <= MAX_TOLERANCE
            <==> AmountOf(s, false).Some? && AmountOf(s, false).value <= 1000 * 1_000_000
  {
  }

  lemma ShapesAre(request: Request)
    ensures InShape(request) && Amt(request.tolerance, false) <= MAX_TOLERANCE <==> SpellsEverything(request)
  {
    ToleranceIs(request.tolerance);
    AmountsAre(request);
    PeriodsAreSpelled(request.periods);
    DriversAreSpelled(request.drivers);
  }

  lemma YearIsRead(row: RawPeriod, year: nat)
    requires row.year == Written(year)
    ensures ReadPeriod(row).year == year
  {
    ReadWritten(year);
  }

  lemma YearsAreInOrder(rows: seq<RawPeriod>, asOf: string)
    requires forall row :: row in rows ==> SpellsPeriod(row)
    ensures InOrder(ReadPeriods(rows), asOf) <==> (forall row :: row in rows ==> row.pair.id != asOf) && YearsRise(rows)
  {
    var periods := ReadPeriods(rows);
    forall i | 0 <= i < |rows|
      ensures rows[i].year == Written(periods[i].year) && periods[i].pair == rows[i].pair
    {
      assert SpellsPeriod(rows[i]);
      var year: nat :| 1000 <= year <= 9999 && rows[i].year == Written(year);
      YearIsRead(rows[i], year);
    }
    forall i, year: nat | 0 <= i < |rows| && rows[i].year == Written(year)
      ensures periods[i].year == year
    {
      YearIsRead(rows[i], year);
    }
    if InOrder(periods, asOf) {
      forall row | row in rows
        ensures row.pair.id != asOf
      {
        var i :| 0 <= i < |rows| && rows[i] == row;
        assert periods[i].pair.id != asOf;
      }
    }
  }

  lemma {:induction false} AddedIs(rows: seq<Labelled>)
    ensures Total(ReadAmounts(rows)) == Added(rows)
  {
    if rows != [] {
      AddedIs(rows[1..]);
      assert ReadAmounts(rows)[1..] == ReadAmounts(rows[1..]);
    }
  }

  lemma SegmentsAre(driver: RawDriver)
    requires SpellsDriver(driver)
    ensures SegmentsAgree(driver) <==> SegmentsComeToRevenue(driver)
  {
    SignedMoves(Revenue);
    if driver.segments.Some? {
      AddedIs(driver.segments.value);
    }
  }

  lemma AllSegmentsAre(rows: seq<RawDriver>)
    requires forall driver :: driver in rows ==> SpellsDriver(driver)
    ensures AllSegmentsAgree(rows) <==> forall driver :: driver in rows ==> SegmentsComeToRevenue(driver)
  {
    forall i | 0 <= i < |rows|
      ensures SegmentsAgree(rows[i]) <==> SegmentsComeToRevenue(rows[i])
    {
      SegmentsAre(rows[i]);
    }
  }

  lemma ConsistentIs(request: Request)
    requires SpellsEverything(request)
    ensures Consistent(request) && AllSegmentsAgree(request.drivers)
            <==> AgreesWithItself(request) && Amt(request.tolerance, false) <= MAX_TOLERANCE
  {
    DriversAreOfPeriods(request);
    AllSegmentsAre(request.drivers);
    YearsAreInOrder(request.periods, request.asOf);
  }

  // A request is admitted if and only if it holds no more than it may, every text spells what it
  // should, it agrees with itself, and its basis holds.
  lemma AdmittedExactly(request: Request)
    ensures Admitted(request) <==>
              HoldsNoMore(request) && SpellsEverything(request) && AgreesWithItself(request) && BasisHolds(request)
  {
    CountsAre(request);
    ShapesAre(request);
    if SpellsEverything(request) {
      ConsistentIs(request);
    }
  }

  /* ----- what a row is read from ----- */

  // A projected row takes each move and each stated balance of its driver at the amount its text
  // spells, and nothing for a move left out.
  ghost predicate TakesItsDriver(p: Projection, driver: RawDriver) {
    && (forall move :: move in driver.moves ==> AmountOf(driver.moves[move], MayBeNegative(move)) == Some(Moved(p.driver, move)))
    && (forall move :: move !in driver.moves ==> Moved(p.driver, move) == 0)
    && AmountOf(driver.statedDebt, true) == Some(p.driver.statedDebt)
    && AmountOf(driver.statedCash, true) == Some(p.driver.statedCash)
  }

  // The instalments of a period, added up.
  ghost function Instalments(rows: seq<RawInstalment>, pair: Pair): int {
    if rows == [] then 0
    else
      var last := rows[|rows| - 1];
      var amount := AmountOf(last.amount, false);
      Instalments(rows[..|rows| - 1], pair) + (if last.pair == pair && amount.Some? then amount.value else 0)
  }

  // It repays what the period's aggregate row states on the owned basis, and the total of its
  // instalments on the other; and takes the bridge to its period, where there is one.
  ghost predicate TakesItsDebtService(request: Request, p: Projection, pair: Pair) {
    if request.owned then
      && (forall row :: row in request.aggregates && row.pair == pair ==> AmountOf(row.amount, false) == Some(p.repayment))
      && ((forall row :: row in request.aggregates ==> row.pair != pair) ==> p.repayment == 0)
      && (forall bridge :: bridge in request.bridges && bridge.id == pair.id ==> AmountOf(bridge.amount, true) == Some(p.actual))
      && ((forall bridge :: bridge in request.bridges ==> bridge.id != pair.id) ==> p.actual == 0)
    else p.repayment == Instalments(request.instalments, pair) && p.actual == 0
  }

  lemma DriverIsTaken(p: Projection, driver: RawDriver)
    requires p.driver == ReadDriver(driver) && SpellsDriver(driver)
    ensures TakesItsDriver(p, driver)
  {
    forall move: Move
      ensures move in SIGNED <==> MayBeNegative(move)
    {
      SignedMoves(move);
    }
  }

  lemma {:induction false} InstalmentsAre(rows: seq<RawInstalment>, pair: Pair)
    requires forall row :: row in rows ==> AmountOf(row.amount, false).Some?
    ensures SumFor(ReadInstalments(rows), pair) == Instalments(rows, pair)
  {
    if rows != [] {
      var before := rows[..|rows| - 1];
      InstalmentsAre(before, pair);
      assert ReadInstalments(rows)[..|rows| - 1] == ReadInstalments(before);
    }
  }

  lemma {:induction false} AggregatesRead(rows: seq<Aggregate>, pair: Pair)
    requires forall i, j :: 0 <= i < j < |rows| ==> rows[i].pair != rows[j].pair
    ensures pair in ReadAggregates(rows) <==> exists i :: 0 <= i < |rows| && rows[i].pair == pair
    ensures forall i :: 0 <= i < |rows| && rows[i].pair == pair ==> ReadAggregates(rows)[pair] == Amt(rows[i].amount, false)
  {
    if rows != [] {
      AggregatesRead(rows[..|rows| - 1], pair);
    }
  }

  lemma BridgesRead(rows: seq<Labelled>, id: string)
    requires |rows| <= 1
    ensures id in ReadBridges(rows) <==> exists i :: 0 <= i < |rows| && rows[i].id == id
    ensures forall i :: 0 <= i < |rows| && rows[i].id == id ==> ReadBridges(rows)[id] == Amt(rows[i].amount, true)
  {
    if rows != [] {
      var before := rows[..|rows| - 1];
      assert before == [];
      assert ReadBridges(before) == map[];
      assert ReadBridges(rows) == map[][rows[0].id := Amt(rows[0].amount, true)];
    }
  }

  lemma AggregateIsTaken(request: Request, inputs: Inputs, row: Aggregate)
    requires Admitted(request) && ParsesTo(request, inputs) && request.owned && row in request.aggregates
    ensures AmountOf(row.amount, false) == Some(RepaymentOf(inputs, row.pair))
  {
    AggregatesRead(request.aggregates, row.pair);
    var i :| 0 <= i < |request.aggregates| && request.aggregates[i] == row;
    assert IsAmount(request.aggregates[i].amount, false);
  }

  lemma NoAggregateIsTaken(request: Request, inputs: Inputs, pair: Pair)
    requires Admitted(request) && ParsesTo(request, inputs) && request.owned
    requires forall row :: row in request.aggregates ==> row.pair != pair
    ensures RepaymentOf(inputs, pair) == 0
  {
    AggregatesRead(request.aggregates, pair);
  }

  lemma BridgeIsTaken(request: Request, inputs: Inputs, bridge: Labelled, pair: Pair)
    requires Admitted(request) && ParsesTo(request, inputs) && bridge in request.bridges && bridge.id == pair.id
    ensures AmountOf(bridge.amount, true) == Some(ActualOf(inputs, pair))
  {
    BridgesRead(request.bridges, pair.id);
    var i :| 0 <= i < |request.bridges| && request.bridges[i] == bridge;
    assert IsAmount(request.bridges[i].amount, true);
  }

  lemma NoBridgeIsTaken(request: Request, inputs: Inputs, pair: Pair)
    requires Admitted(request) && ParsesTo(request, inputs)
    requires forall bridge :: bridge in request.bridges ==> bridge.id != pair.id
    ensures ActualOf(inputs, pair) == 0
  {
    BridgesRead(request.bridges, pair.id);
  }

  lemma OwnedServiceIsTaken(request: Request, inputs: Inputs, p: Projection, pair: Pair)
    requires Admitted(request) && ParsesTo(request, inputs) && request.owned
    requires p.repayment == RepaymentOf(inputs, pair) && p.actual == ActualOf(inputs, pair)
    ensures TakesItsDebtService(request, p, pair)
  {
    forall row | row in request.aggregates && row.pair == pair
      ensures AmountOf(row.amount, false) == Some(p.repayment)
    {
      AggregateIsTaken(request, inputs, row);
    }
    forall bridge | bridge in request.bridges && bridge.id == pair.id
      ensures AmountOf(bridge.amount, true) == Some(p.actual)
    {
      BridgeIsTaken(request, inputs, bridge, pair);
    }
    if forall row :: row in request.aggregates ==> row.pair != pair {
      NoAggregateIsTaken(request, inputs, pair);
    }
    if forall bridge :: bridge in request.bridges ==> bridge.id != pair.id {
      NoBridgeIsTaken(request, inputs, pair);
    }
  }

  lemma OtherServiceIsTaken(request: Request, inputs: Inputs, p: Projection, pair: Pair)
    requires Admitted(request) && ParsesTo(request, inputs) && !request.owned
    requires p.repayment == RepaymentOf(inputs, pair) && p.actual == ActualOf(inputs, pair)
    ensures TakesItsDebtService(request, p, pair)
  {
    InstalmentsAre(request.instalments, pair);
    if pair !in inputs.repayments {
      NoneFor(ReadInstalments(request.instalments), pair);
    }
    assert ReadBridges(request.bridges) == map[];
  }

  lemma RowTakes(prec: nat, request: Request, inputs: Inputs, period: Period, opening: Balance, earlier: bool) returns (driver: RawDriver)
    requires prec >= 1 && Admitted(request) && ParsesTo(request, inputs)
    requires RowOf(prec, inputs, period, opening, earlier).projection.Some?
    ensures var p := RowOf(prec, inputs, period, opening, earlier).projection.value;
            && StatesDriver(request, period.pair, driver)
            && TakesItsDriver(p, driver) && TakesItsDebtService(request, p, period.pair)
  {
    var p := RowOf(prec, inputs, period, opening, earlier).projection.value;
    ProjectedRow(prec, inputs, period, opening, earlier);
    ProjectionHolds(prec, inputs.drivers[period.pair], RepaymentOf(inputs, period.pair), inputs.owned,
      ActualOf(inputs, period.pair), opening);
    ReadIsStated(request, inputs, period.pair);
    driver :| StatesDriver(request, period.pair, driver);
    StatedIsRead(request, inputs, period.pair, driver);
    AdmittedExactly(request);
    DriverIsTaken(p, driver);
    if request.owned {
      OwnedServiceIsTaken(request, inputs, p, period.pair);
    } else {
      OtherServiceIsTaken(request, inputs, p, period.pair);
    }
  }

  lemma ProjectionHolds(prec: nat, driver: Driver, repayment: int, owned: bool, actual: int, opening: Balance)
    requires prec >= 1
    ensures var p := Project(prec, driver, repayment, owned, actual, opening);
            p.driver == driver && p.repayment == repayment && p.actual == actual && p.opening == opening
  {
  }

  // Every projected row of every admitted forecast takes its moves, its stated balances, its
  // repayment and its bridge from the request's own rows for its period, at the amounts their
  // texts spell.
  lemma AdmittedRowTakes(request: Request, inputs: Inputs, rows: seq<Row>, case_: string, k: nat)
    requires Admitted(request) && ParsesTo(request, inputs)
    requires rows == RowsOf(Forecast(CONTEXT_DIGITS, inputs, ReadPeriods(request.periods), FRESH), case_) && k < |rows|
    requires rows[k].projection.Some?
    ensures var p, pair := rows[k].projection.value, rows[k].period.pair;
            && TakesItsDebtService(request, p, pair)
            && exists driver :: StatesDriver(request, pair, driver) && TakesItsDriver(p, driver)
  {
    var own := PeriodsOf(ReadPeriods(request.periods), case_);
    var opening, earlier := LastClosing(rows[..k], inputs.opening), AnyUnavailable(rows[..k]);
    CaseIsIndependent(CONTEXT_DIGITS, inputs, ReadPeriods(request.periods), FRESH, case_);
    CaseRowIs(CONTEXT_DIGITS, inputs, own, inputs.opening, k);
    RowKeepsPeriod(CONTEXT_DIGITS, inputs, own[k], opening, earlier);
    var driver := RowTakes(CONTEXT_DIGITS, request, inputs, own[k], opening, earlier);
  }
}
