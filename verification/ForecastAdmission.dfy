// A whole forecast request: what admits it, what it is parsed to, and what being admitted
// guarantees of its forecast.
module ForecastAdmission {
  import opened Wrappers
  import opened Digits
  import opened Decimals
  import opened Texts
  import opened ForecastMoney
  import opened CashFlow
  import opened CashFlowExact
  import opened ForecastRequest

  // An amount under the id of a facility, a segment or the period a bridge leads to.
  datatype Labelled = Labelled(id: string, amount: string)
  datatype RawPeriod = RawPeriod(pair: Pair, year: string, days: string, start: Date, end: Date)
  datatype RawDriver = RawDriver(
    pair: Pair, status: string, moves: map<Move, string>, statedDebt: string, statedCash: string,
    segments: Option<seq<Labelled>>)
  datatype RawInstalment = RawInstalment(pair: Pair, facility: string, amount: string)

  // A request whose texts and fields are in shape; dates stand for nothing off the owned basis.
  datatype Request = Request(
    cash: string, asOf: string, facilities: seq<Labelled>, periods: seq<RawPeriod>, drivers: seq<RawDriver>,
    instalments: seq<RawInstalment>, aggregates: seq<Aggregate>, bridges: seq<Labelled>, tolerance: string, owned: bool,
    currency: string, scale: string)

  /* ----- reading ----- */

  const SIGNED := {AcquisitionsDisposals, FxPerimeter, NetEquity, OtherInvestingFinancing, RestrictedCash, CarryingValue}

  // An amount where one is written, nothing where none is.
  function Amt(s: string, signed: bool): int {
    if AmountOf(s, signed).Some? then AmountOf(s, signed).value else 0
  }

  predicate IsAmount(s: string, signed: bool) { AmountOf(s, signed).Some? }

  predicate IsYear(s: string) { |s| == 4 && AllDigits(s) && s[0] != '0' }

  predicate IsDays(s: string) {
    IsAmount(s, false) && FirstOf(s, '.') == |s| && 1_000_000 <= Amt(s, false) <= 366_000_000
  }

  function ReadPeriod(row: RawPeriod): Period {
    Period(row.pair, if AllDigits(row.year) then Read(row.year) else 0, Amt(row.days, false) / 1_000_000)
  }

  function ReadPeriods(rows: seq<RawPeriod>): (periods: seq<Period>)
    ensures |periods| == |rows| && forall i :: 0 <= i < |rows| ==> periods[i] == ReadPeriod(rows[i])
  {
    seq(|rows|, i requires 0 <= i < |rows| => ReadPeriod(rows[i]))
  }

  function ReadDates(rows: seq<RawPeriod>): (dated: seq<Dated>)
    ensures |dated| == |rows|
    ensures forall i :: 0 <= i < |rows| ==> dated[i] == Dated(ReadPeriod(rows[i]), rows[i].start, rows[i].end)
  {
    seq(|rows|, i requires 0 <= i < |rows| => Dated(ReadPeriod(rows[i]), rows[i].start, rows[i].end))
  }

  function ReadDriver(row: RawDriver): Driver {
    Driver(row.status, map move | move in row.moves :: Amt(row.moves[move], move in SIGNED),
           Amt(row.statedDebt, true), Amt(row.statedCash, true))
  }

  function ReadDrivers(rows: seq<RawDriver>): map<Pair, Driver> {
    if rows == [] then map[] else ReadDrivers(rows[..|rows| - 1])[rows[|rows| - 1].pair := ReadDriver(rows[|rows| - 1])]
  }

  function ReadInstalments(rows: seq<RawInstalment>): (read: seq<Instalment>)
    ensures |read| == |rows|
    ensures forall i :: 0 <= i < |rows| ==> read[i] == Instalment(rows[i].pair, rows[i].facility, Amt(rows[i].amount, false))
  {
    seq(|rows|, i requires 0 <= i < |rows| => Instalment(rows[i].pair, rows[i].facility, Amt(rows[i].amount, false)))
  }

  function ReadAggregates(rows: seq<Aggregate>): map<Pair, int> {
    if rows == [] then map[] else ReadAggregates(rows[..|rows| - 1])[rows[|rows| - 1].pair := Amt(rows[|rows| - 1].amount, false)]
  }

  function ReadBridges(rows: seq<Labelled>): map<string, int> {
    if rows == [] then map[] else ReadBridges(rows[..|rows| - 1])[rows[|rows| - 1].id := Amt(rows[|rows| - 1].amount, true)]
  }

  function ReadAmounts(rows: seq<Labelled>): (amounts: seq<int>)
    ensures |amounts| == |rows| && forall i :: 0 <= i < |rows| ==> amounts[i] == Amt(rows[i].amount, true)
  {
    seq(|rows|, i requires 0 <= i < |rows| => Amt(rows[i].amount, true))
  }

  /* ----- admission ----- */

  function CasesOf(periods: seq<RawPeriod>): set<string> { set i | 0 <= i < |periods| :: periods[i].pair.case_ }

  function PairSet(periods: seq<RawPeriod>): set<Pair> { set i | 0 <= i < |periods| :: periods[i].pair }

  function FacilitySet(facilities: seq<Labelled>): set<string> { set i | 0 <= i < |facilities| :: facilities[i].id }

  // The ceilings on what a request may hold.
  predicate WithinCeilings(request: Request) {
    && request.periods != [] && |request.periods| <= MAX_FORECAST_PERIODS * MAX_FORECAST_CASES
    && |CasesOf(request.periods)| <= MAX_FORECAST_CASES
    && (forall case_ :: case_ in CasesOf(request.periods) ==>
          |PeriodsOf(ReadPeriods(request.periods), case_)| <= MAX_FORECAST_PERIODS)
    && |request.drivers| <= |request.periods|
    && |request.facilities| <= MAX_FORECAST_FACILITIES
    && |request.instalments| <= MAX_AMORTISATION
    && |request.aggregates| <= |request.periods|
    && |request.bridges| <= 1
  }

  predicate IsAlphanumeric(c: char) { IsDigit(c) || 'a' <= c <= 'z' || 'A' <= c <= 'Z' }

  predicate IsSegmentId(s: string) {
    1 <= |s| <= 64 && IsAlphanumeric(s[0]) && forall i :: 0 <= i < |s| ==> IsAlphanumeric(s[i]) || s[i] in {'_', '.', '-'}
  }

  const MAX_FORECAST_SEGMENTS: nat := 40

  predicate SegmentsInShape(rows: seq<Labelled>) {
    1 <= |rows| <= MAX_FORECAST_SEGMENTS && forall i :: 0 <= i < |rows| ==> IsSegmentId(rows[i].id) && IsAmount(rows[i].amount, true)
  }

  predicate DriverInShape(row: RawDriver) {
    && (forall move :: move in row.moves ==> IsAmount(row.moves[move], move in SIGNED))
    && IsAmount(row.statedDebt, true) && IsAmount(row.statedCash, true)
    && (row.segments.Some? ==> SegmentsInShape(row.segments.value))
  }

  predicate DriversInShape(rows: seq<RawDriver>) { forall i :: 0 <= i < |rows| ==> DriverInShape(rows[i]) }

  // A driver's segments come to its revenue, where it states both.
  predicate SegmentsAgree(row: RawDriver) {
    row.segments.Some? && Revenue in row.moves ==>
      Total(ReadAmounts(row.segments.value)) == Amt(row.moves[Revenue], Revenue in SIGNED)
  }

  predicate IsCurrency(s: string) { |s| == 3 && forall i :: 0 <= i < |s| ==> 'A' <= s[i] <= 'Z' }

  const SCALES := {"units", "thousands", "millions", "billions"}

  // Every amount is written as one.
  predicate InShape(request: Request) {
    && IsAmount(request.cash, true) && IsAmount(request.tolerance, false)
    && (forall i :: 0 <= i < |request.facilities| ==> IsAmount(request.facilities[i].amount, true))
    && (forall i :: 0 <= i < |request.periods| ==> IsDays(request.periods[i].days) && IsYear(request.periods[i].year))
    && DriversInShape(request.drivers)
    && (forall i :: 0 <= i < |request.instalments| ==> IsAmount(request.instalments[i].amount, false))
    && (forall i :: 0 <= i < |request.aggregates| ==> IsAmount(request.aggregates[i].amount, false))
    && (forall i :: 0 <= i < |request.bridges| ==> IsAmount(request.bridges[i].amount, true))
  }

  const MAX_TOLERANCE := 1_000_000_000

  predicate Consistent(request: Request) {
    && IsCurrency(request.currency) && request.scale in SCALES
    && DistinctPairs(ReadPeriods(request.periods))
    && InOrder(ReadPeriods(request.periods), request.asOf)
    && (forall i, j :: 0 <= i < j < |request.facilities| ==> request.facilities[i].id != request.facilities[j].id)
    && (forall i :: 0 <= i < |request.drivers| ==> request.drivers[i].pair in PairSet(request.periods))
    && (forall i, j :: 0 <= i < j < |request.drivers| ==> request.drivers[i].pair != request.drivers[j].pair)
    && Amt(request.tolerance, false) <= MAX_TOLERANCE
  }

  // On the owned basis there are no instalments, the bridge is the first period's, and the
  // calendars and the aggregate rows fit; otherwise there is nothing owned.
  predicate BasisHolds(request: Request) {
    var dated := ReadDates(request.periods);
    if request.owned then
      && request.periods != [] && request.instalments == []
      && (forall i :: 0 <= i < |request.bridges| ==> request.bridges[i].id == request.periods[0].pair.id)
      && GoodCalendars(dated)
      && GoodAggregates(request.aggregates, CalendarMap(dated), request.periods[0].pair.id, request.bridges != [])
    else
      && request.aggregates == [] && request.bridges == []
      && GoodInstalments(ReadInstalments(request.instalments), PairSet(request.periods), FacilitySet(request.facilities))
  }

  predicate AllSegmentsAgree(rows: seq<RawDriver>) { forall i :: 0 <= i < |rows| ==> SegmentsAgree(rows[i]) }

  predicate Admitted(request: Request) {
    && WithinCeilings(request) && InShape(request) && Consistent(request)
    && AllSegmentsAgree(request.drivers) && BasisHolds(request)
  }

  // What an admitted request is parsed to.
  ghost predicate ParsesTo(request: Request, inputs: Inputs) {
    && inputs.drivers == ReadDrivers(request.drivers)
    && inputs.opening == Balance(Total(ReadAmounts(request.facilities)), Amt(request.cash, true))
    && inputs.tolerance == Amt(request.tolerance, false)
    && inputs.owned == request.owned
    && inputs.actual == ReadBridges(request.bridges)
    && (if request.owned then inputs.repayments == ReadAggregates(request.aggregates)
        else TotalsOf(inputs.repayments, ReadInstalments(request.instalments)))
  }

  /* ----- amounts admitted are small ----- */

  lemma AmtIsSmall(s: string, signed: bool, places: nat)
    requires places == WHOLE_DIGITS + PLACES
    ensures Abs(Amt(s, signed)) <= Pow10(places)
  {
    if AmountOf(s, signed).Some? {
      AmountIsSmall(s, signed);
    }
  }

  lemma {:induction false} DriversAreSmall(rows: seq<RawDriver>, places: nat)
    requires places == WHOLE_DIGITS + PLACES
    ensures forall pair :: pair in ReadDrivers(rows) ==> MovesWithin(ReadDrivers(rows)[pair], Pow10(places))
  {
    if rows != [] {
      DriversAreSmall(rows[..|rows| - 1], places);
      DriverIsSmall(rows[|rows| - 1], places);
    }
  }

  lemma DriverIsSmall(row: RawDriver, places: nat)
    requires places == WHOLE_DIGITS + PLACES
    ensures MovesWithin(ReadDriver(row), Pow10(places))
  {
    AmtIsSmall(row.statedDebt, true, places);
    AmtIsSmall(row.statedCash, true, places);
    forall move | move in row.moves
      ensures Abs(Amt(row.moves[move], move in SIGNED)) <= Pow10(places)
    {
      AmtIsSmall(row.moves[move], move in SIGNED, places);
    }
  }

  lemma {:induction false} AggregatesAreSmall(rows: seq<Aggregate>, places: nat)
    requires places == WHOLE_DIGITS + PLACES
    ensures forall pair :: pair in ReadAggregates(rows) ==> Abs(ReadAggregates(rows)[pair]) <= Pow10(places)
  {
    if rows != [] {
      AggregatesAreSmall(rows[..|rows| - 1], places);
      AmtIsSmall(rows[|rows| - 1].amount, false, places);
    }
  }

  lemma {:induction false} BridgesAreSmall(rows: seq<Labelled>, places: nat)
    requires places == WHOLE_DIGITS + PLACES
    ensures forall id :: id in ReadBridges(rows) ==> Abs(ReadBridges(rows)[id]) <= Pow10(places)
  {
    if rows != [] {
      BridgesAreSmall(rows[..|rows| - 1], places);
      AmtIsSmall(rows[|rows| - 1].amount, true, places);
    }
  }

  lemma InstalmentsAreSmall(rows: seq<RawInstalment>, places: nat)
    requires places == WHOLE_DIGITS + PLACES
    ensures forall i :: 0 <= i < |rows| ==> Abs(ReadInstalments(rows)[i].amount) <= Pow10(places)
  {
    forall i | 0 <= i < |rows|
      ensures Abs(ReadInstalments(rows)[i].amount) <= Pow10(places)
    {
      AmtIsSmall(rows[i].amount, false, places);
    }
  }

  lemma AmountsAreSmall(rows: seq<Labelled>, places: nat)
    requires places == WHOLE_DIGITS + PLACES
    ensures Within(ReadAmounts(rows), Pow10(places))
  {
    forall i | 0 <= i < |rows|
      ensures Abs(ReadAmounts(rows)[i]) <= Pow10(places)
    {
      AmtIsSmall(rows[i].amount, true, places);
    }
  }

  // With at most so many instalments and facilities, no amount of the parsed request is past
  // that many of the largest.
  lemma ParsedIsSmall(request: Request, inputs: Inputs, places: nat)
    requires places == WHOLE_DIGITS + PLACES && ParsesTo(request, inputs)
    requires |request.instalments| <= MAX_AMORTISATION && |request.facilities| <= MAX_FORECAST_FACILITIES
    ensures InputsWithin(inputs, MAX_AMORTISATION * Pow10(places))
    ensures BalanceWithin(inputs.opening, MAX_FORECAST_FACILITIES * Pow10(places))
  {
    var one := Pow10(places);
    DriversAreSmall(request.drivers, places);
    BridgesAreSmall(request.bridges, places);
    AggregatesAreSmall(request.aggregates, places);
    TotalsAreSmall(request, inputs, places);
    AmountsAreSmall(request.facilities, places);
    TotalIsBounded(ReadAmounts(request.facilities), one);
    RepeatGrows(|request.facilities|, MAX_FORECAST_FACILITIES, one);
    RepeatIs(MAX_FORECAST_FACILITIES, one);
    AmtIsSmall(request.cash, true, places);
    forall pair | pair in inputs.drivers
      ensures MovesWithin(inputs.drivers[pair], MAX_AMORTISATION * one)
    {
      MovesWithinMore(inputs.drivers[pair], one, MAX_AMORTISATION * one);
    }
  }

  lemma TotalsAreSmall(request: Request, inputs: Inputs, places: nat)
    requires places == WHOLE_DIGITS + PLACES && ParsesTo(request, inputs) && |request.instalments| <= MAX_AMORTISATION
    ensures !request.owned ==>
              forall pair :: pair in inputs.repayments ==> Abs(inputs.repayments[pair]) <= MAX_AMORTISATION * Pow10(places)
  {
    var rows, one := ReadInstalments(request.instalments), Pow10(places);
    InstalmentsAreSmall(request.instalments, places);
    RepeatGrows(|rows|, MAX_AMORTISATION, one);
    RepeatIs(MAX_AMORTISATION, one);
    forall pair
      ensures Abs(SumFor(rows, pair)) <= MAX_AMORTISATION * one
    {
      SumForIsBounded(rows, pair, one);
    }
  }

  /* ----- what admission guarantees ----- */

  lemma {:induction false} ReachIs(size: nat, most: nat, k: nat)
    ensures Reach(size, most, k) == size + Repeat(k, STEP * most)
  {
    if k > 0 {
      ReachIs(size, most, k - 1);
    }
  }

  // The room forty periods take of the context.
  lemma FortyPeriodsFit(k: nat, places: nat)
    requires k <= MAX_FORECAST_PERIODS && places == WHOLE_DIGITS + PLACES
    ensures 2 * (Reach(MAX_FORECAST_FACILITIES * Pow10(places), MAX_AMORTISATION * Pow10(places), k) + MAX_AMORTISATION * Pow10(places))
            < Pow10(CONTEXT_DIGITS - 5)
  {
    var one := Pow10(places);
    var most := MAX_AMORTISATION * one;
    ReachIs(MAX_FORECAST_FACILITIES * one, most, k);
    RepeatGrows(k, MAX_FORECAST_PERIODS, STEP * most);
    RepeatIs(MAX_FORECAST_PERIODS, STEP * most);
    Pow10Add(places, 9);
    NineDigits();
  }

  lemma NineDigits()
    ensures Pow10(9) == 1_000_000_000
  {
    assert Pow10(3) == 1000;
    Pow10Add(3, 3);
    Pow10Add(6, 3);
  }

  // Where a row of the whole forecast stands in its own case's.
  lemma {:induction false} RowInItsCase(rows: seq<Row>, i: nat) returns (k: nat)
    requires i < |rows|
    ensures var own := RowsOf(rows, rows[i].period.pair.case_); k < |own| && own[k] == rows[i]
  {
    var case_ := rows[i].period.pair.case_;
    if i == 0 {
      k := 0;
    } else {
      k := RowInItsCase(rows[1..], i - 1);
      assert rows[1..][i - 1] == rows[i];
      var rest := RowsOf(rows[1..], case_);
      if rows[0].period.pair.case_ == case_ {
        assert RowsOf(rows, case_) == [rows[0]] + rest;
        k := k + 1;
      } else {
        assert RowsOf(rows, case_) == [] + rest == rest;
      }
    }
  }

  lemma {:induction false} ReachGrows(size: nat, most: nat, j: nat, k: nat)
    requires j <= k
    ensures Reach(size, most, j) <= Reach(size, most, k)
  {
    if j < k {
      ReachGrows(size, most, j, k - 1);
    }
  }

  // A row of the whole forecast is exact when its case's periods leave room in the context.
  lemma ForecastIsExact(prec: nat, inputs: Inputs, periods: seq<Period>, most: nat, size: nat, rows: seq<Row>, i: nat)
    requires prec >= 6 && InputsWithin(inputs, most) && BalanceWithin(inputs.opening, size)
    requires rows == Forecast(prec, inputs, periods, FRESH) && i < |rows|
    requires 2 * (Reach(size, most, |PeriodsOf(periods, rows[i].period.pair.case_)|) + most) < Pow10(prec - 5)
    ensures rows[i].projection.Some? ==>
              IsExact(rows[i].projection.value, inputs.owned) && NeverTraps(prec, rows[i].projection.value)
  {
    var case_ := rows[i].period.pair.case_;
    var own := PeriodsOf(periods, case_);
    var k := RowInItsCase(rows, i);
    CaseIsIndependent(prec, inputs, periods, FRESH, case_);
    ReachGrows(size, most, k + 1, |own|);
    CaseIsExact(prec, inputs, own, inputs.opening, false, most, size, k);
  }

  lemma RowsStandForPeriods(prec: nat, request: Request, inputs: Inputs, rows: seq<Row>, i: nat)
    requires prec >= 1 && rows == Forecast(prec, inputs, ReadPeriods(request.periods), FRESH) && i < |rows|
    ensures rows[i].period.pair.case_ in CasesOf(request.periods)
  {
    RowsKeepPeriods(prec, inputs, ReadPeriods(request.periods), FRESH);
    assert request.periods[i].pair.case_ == rows[i].period.pair.case_;
  }

  lemma CaseIsShort(request: Request, case_: string)
    requires Admitted(request) && case_ in CasesOf(request.periods)
    ensures |PeriodsOf(ReadPeriods(request.periods), case_)| <= MAX_FORECAST_PERIODS
  {
  }

  lemma AdmittedIn(prec: nat, request: Request, inputs: Inputs, most: nat, size: nat, rows: seq<Row>, i: nat)
    requires prec >= 6 && Admitted(request) && InputsWithin(inputs, most) && BalanceWithin(inputs.opening, size)
    requires forall k: nat :: k <= MAX_FORECAST_PERIODS ==> 2 * (Reach(size, most, k) + most) < Pow10(prec - 5)
    requires rows == Forecast(prec, inputs, ReadPeriods(request.periods), FRESH) && i < |rows|
    ensures rows[i].projection.Some? ==>
              IsExact(rows[i].projection.value, inputs.owned) && NeverTraps(prec, rows[i].projection.value)
  {
    RowsStandForPeriods(prec, request, inputs, rows, i);
    CaseIsShort(request, rows[i].period.pair.case_);
    ForecastIsExact(prec, inputs, ReadPeriods(request.periods), most, size, rows, i);
  }

  // No forecast the ceilings admit rounds or traps: every row that projects is the exact
  // arithmetic of its period, and every amount and ratio of it can be printed.
  lemma AdmittedForecastIsExact(request: Request, inputs: Inputs, rows: seq<Row>, i: nat)
    requires Admitted(request) && ParsesTo(request, inputs)
    requires rows == Forecast(CONTEXT_DIGITS, inputs, ReadPeriods(request.periods), FRESH) && i < |rows|
    ensures rows[i].projection.Some? ==>
              IsExact(rows[i].projection.value, inputs.owned) && NeverTraps(CONTEXT_DIGITS, rows[i].projection.value)
  {
    var places := WHOLE_DIGITS + PLACES;
    var most, size := MAX_AMORTISATION * Pow10(places), MAX_FORECAST_FACILITIES * Pow10(places);
    ParsedIsSmall(request, inputs, places);
    forall k: nat | k <= MAX_FORECAST_PERIODS
      ensures 2 * (Reach(size, most, k) + most) < Pow10(CONTEXT_DIGITS - 5)
    {
      FortyPeriodsFit(k, places);
    }
    AdmittedIn(CONTEXT_DIGITS, request, inputs, most, size, rows, i);
  }

  lemma ConservesIn(prec: nat, request: Request, inputs: Inputs, places: nat, rows: seq<Row>, case_: string)
    requires prec == CONTEXT_DIGITS && places == WHOLE_DIGITS + PLACES
    requires Admitted(request) && ParsesTo(request, inputs) && case_ in CasesOf(request.periods)
    requires rows == Forecast(prec, inputs, ReadPeriods(request.periods), FRESH)
    ensures Balanced(inputs.opening, RowsOf(rows, case_), inputs.owned)
  {
    var most, size := MAX_AMORTISATION * Pow10(places), MAX_FORECAST_FACILITIES * Pow10(places);
    var own := PeriodsOf(ReadPeriods(request.periods), case_);
    ParsedIsSmall(request, inputs, places);
    CaseIsShort(request, case_);
    FortyPeriodsFit(|own|, places);
    CaseIsIndependent(prec, inputs, ReadPeriods(request.periods), FRESH, case_);
    BalancesAreConserved(prec, inputs, own, inputs.opening, false, most, size, RowsOf(rows, case_));
  }

  // In every forecast the ceilings admit, a case's closing debt and cash are the opening plus
  // every projected move of its rows, and its net debt moves by no issuance, repayment or
  // bridge.
  lemma AdmittedForecastConserves(request: Request, inputs: Inputs, rows: seq<Row>, case_: string)
    requires Admitted(request) && ParsesTo(request, inputs) && case_ in CasesOf(request.periods)
    requires rows == Forecast(CONTEXT_DIGITS, inputs, ReadPeriods(request.periods), FRESH)
    ensures Balanced(inputs.opening, RowsOf(rows, case_), inputs.owned)
  {
    ConservesIn(CONTEXT_DIGITS, request, inputs, WHOLE_DIGITS + PLACES, rows, case_);
  }

  /* ----- the bridge enters once ----- */

  lemma {:induction false} PeriodsOfAre(periods: seq<Period>, case_: string, k: nat) returns (i: nat)
    requires k < |PeriodsOf(periods, case_)|
    ensures i < |periods| && periods[i] == PeriodsOf(periods, case_)[k] && periods[i].pair.case_ == case_
    ensures k == 0 <==> forall j :: 0 <= j < i ==> periods[j].pair.case_ != case_
  {
    if periods[0].pair.case_ == case_ && k == 0 {
      i := 0;
    } else if periods[0].pair.case_ == case_ {
      i := PeriodsOfAre(periods[1..], case_, k - 1);
      i := i + 1;
      assert periods[0].pair.case_ == case_;
    } else {
      i := PeriodsOfAre(periods[1..], case_, k);
      assert forall j :: 0 < j < i + 1 ==> periods[j] == periods[1..][j - 1];
      if k != 0 {
        var j :| 0 <= j < i && periods[1..][j].pair.case_ == case_;
        assert periods[j + 1].pair.case_ == case_;
      }
      i := i + 1;
    }
  }

  lemma OneBridge(rows: seq<Labelled>)
    requires |rows| == 1
    ensures ReadBridges(rows) == map[rows[0].id := Amt(rows[0].amount, true)]
  {
    assert rows[..0] == [];
  }

  lemma OwnedIsBridgedFirst(request: Request)
    requires Admitted(request) && request.owned
    ensures request.periods != [] && GoodCalendars(ReadDates(request.periods))
    ensures forall i :: 0 <= i < |request.bridges| ==> request.bridges[i].id == request.periods[0].pair.id
  {
  }

  lemma BridgedIn(inputs: Inputs, bridges: seq<Labelled>, pair: Pair)
    requires inputs.actual == ReadBridges(bridges) && |bridges| == 1
    ensures ActualOf(inputs, pair) == if pair.id == bridges[0].id then Amt(bridges[0].amount, true) else 0
  {
    OneBridge(bridges);
  }

  lemma OpensWhereItsCaseDoes(rows: seq<RawPeriod>, case_: string, k: nat)
    requires GoodCalendars(ReadDates(rows)) && k < |PeriodsOf(ReadPeriods(rows), case_)|
    ensures rows != [] && (PeriodsOf(ReadPeriods(rows), case_)[k].pair.id == rows[0].pair.id <==> k == 0)
  {
    var i := PeriodsOfAre(ReadPeriods(rows), case_, k);
    FirstPeriodOpensEachCase(ReadDates(rows), i);
  }

  // A bridge moves each case exactly once, in the case's first period, by the amount stated;
  // without one, or off the owned basis, nothing enters.
  lemma BridgeEntersEachCaseOnce(request: Request, inputs: Inputs, case_: string, k: nat)
    requires Admitted(request) && ParsesTo(request, inputs)
    requires k < |PeriodsOf(ReadPeriods(request.periods), case_)|
    ensures ActualOf(inputs, PeriodsOf(ReadPeriods(request.periods), case_)[k].pair)
            == if request.owned && request.bridges != [] && k == 0 then Amt(request.bridges[0].amount, true) else 0
  {
    if request.bridges != [] {
      OwnedIsBridgedFirst(request);
      OpensWhereItsCaseDoes(request.periods, case_, k);
      BridgedIn(inputs, request.bridges, PeriodsOf(ReadPeriods(request.periods), case_)[k].pair);
    }
  }

  /* ----- parsing ----- */

  lemma InstalmentsFit(rows: seq<RawInstalment>, places: nat)
    requires |rows| <= MAX_AMORTISATION && places == WHOLE_DIGITS + PLACES
    ensures forall i :: 0 <= i < |rows| ==> Abs(ReadInstalments(rows)[i].amount) <= Pow10(places)
    ensures Repeat(|rows|, Pow10(places)) < Pow10(CONTEXT_DIGITS)
  {
    InstalmentsAreSmall(rows, places);
    RepeatGrows(|rows|, MAX_AMORTISATION, Pow10(places));
    RepeatIs(MAX_AMORTISATION, Pow10(places));
    TwoThousandFit(places);
  }

  lemma TwoThousandFit(places: nat)
    requires places == WHOLE_DIGITS + PLACES
    ensures MAX_AMORTISATION * Pow10(places) < Pow10(CONTEXT_DIGITS)
  {
    Pow10Add(places, 9);
    NineDigits();
    Pow10Grows(places + 9, CONTEXT_DIGITS);
  }

  // As many amounts as a request may have facilities, or a driver segments, add up exactly.
  lemma AmountsAddExactly(prec: nat, rows: seq<Labelled>, places: nat)
    requires prec >= 1 && places == WHOLE_DIGITS + PLACES
    requires |rows| <= MAX_FORECAST_FACILITIES || |rows| <= MAX_FORECAST_SEGMENTS
    requires MAX_AMORTISATION * Pow10(places) < Pow10(prec)
    ensures Chain(prec, 0, ReadAmounts(rows)) == Total(ReadAmounts(rows))
  {
    AmountsAreSmall(rows, places);
    RepeatIs(MAX_FORECAST_FACILITIES, Pow10(places));
    ChainStaysExact(prec, 0, ReadAmounts(rows), MAX_FORECAST_FACILITIES, Pow10(places));
  }

  // The repayments a request states, when its basis holds.
  method ReadRepayments(request: Request) returns (repayments: Option<map<Pair, int>>)
    requires request.periods != [] && |request.instalments| <= MAX_AMORTISATION
    ensures repayments.Some? <==> BasisHolds(request)
    ensures repayments.Some? ==>
              if request.owned then repayments.value == ReadAggregates(request.aggregates)
              else TotalsOf(repayments.value, ReadInstalments(request.instalments))
  {
    var first := request.periods[0].pair.id;
    if request.owned {
      if request.instalments != [] || exists i :: 0 <= i < |request.bridges| && request.bridges[i].id != first {
        return None;
      }
      var calendars := OwnedCalendars(ReadDates(request.periods));
      if calendars.None? {
        return None;
      }
      var fits := AggregateShape(request.aggregates, calendars.value, first, request.bridges != []);
      return if fits then Some(ReadAggregates(request.aggregates)) else None;
    }
    if request.aggregates != [] || request.bridges != [] {
      return None;
    }
    InstalmentsFit(request.instalments, WHOLE_DIGITS + PLACES);
    repayments := Contractual(CONTEXT_DIGITS, ReadInstalments(request.instalments), PairSet(request.periods),
      FacilitySet(request.facilities), Pow10(WHOLE_DIGITS + PLACES));
  }

  predicate FewSegments(row: RawDriver) { row.segments.Some? ==> |row.segments.value| <= MAX_FORECAST_SEGMENTS }

  // A driver's segments added up in the context, exactly, and held against its revenue.
  method SegmentsComeTo(prec: nat, row: RawDriver, ghost places: nat) returns (ok: bool)
    requires prec >= 1 && places == WHOLE_DIGITS + PLACES && MAX_AMORTISATION * Pow10(places) < Pow10(prec)
    requires FewSegments(row)
    ensures ok <==> SegmentsAgree(row)
  {
    ok := true;
    if row.segments.Some? && Revenue in row.moves {
      AmountsAddExactly(prec, row.segments.value, places);
      ok := Chain(prec, 0, ReadAmounts(row.segments.value)) == Amt(row.moves[Revenue], Revenue in SIGNED);
    }
  }

  lemma ShapelySegmentsAreFew(rows: seq<RawDriver>)
    requires DriversInShape(rows)
    ensures forall i :: 0 <= i < |rows| ==> FewSegments(rows[i])
  {
    forall i | 0 <= i < |rows|
      ensures FewSegments(rows[i])
    {
      assert DriverInShape(rows[i]);
    }
  }

  method SegmentsHold(prec: nat, rows: seq<RawDriver>, ghost places: nat) returns (ok: bool)
    requires prec >= 1 && places == WHOLE_DIGITS + PLACES && MAX_AMORTISATION * Pow10(places) < Pow10(prec)
    requires forall i :: 0 <= i < |rows| ==> FewSegments(rows[i])
    ensures ok <==> AllSegmentsAgree(rows)
  {
    for i := 0 to |rows|
      invariant forall j :: 0 <= j < i ==> SegmentsAgree(rows[j])
    {
      ok := SegmentsComeTo(prec, rows[i], places);
      if !ok {
        return;
      }
    }
    ok := true;
  }

  // A request admitted is parsed; any other is refused.
  method ParseRequest(request: Request) returns (inputs: Option<Inputs>)
    ensures inputs.Some? <==> Admitted(request)
    ensures inputs.Some? ==> ParsesTo(request, inputs.value)
  {
    if !WithinCeilings(request) || !InShape(request) {
      return None;
    }
    var inOrder := Chronological(ReadPeriods(request.periods), request.asOf);
    if !inOrder || !Consistent(request) {
      return None;
    }
    TwoThousandFit(WHOLE_DIGITS + PLACES);
    ShapelySegmentsAreFew(request.drivers);
    var segmentsHold := SegmentsHold(CONTEXT_DIGITS, request.drivers, WHOLE_DIGITS + PLACES);
    if !segmentsHold {
      return None;
    }
    var repayments := ReadRepayments(request);
    if repayments.None? {
      return None;
    }
    AmountsAddExactly(CONTEXT_DIGITS, request.facilities, WHOLE_DIGITS + PLACES);
    var debt := Chain(CONTEXT_DIGITS, 0, ReadAmounts(request.facilities));
    inputs := Some(Inputs(ReadDrivers(request.drivers), repayments.value, Balance(debt, Amt(request.cash, true)),
      Amt(request.tolerance, false), request.owned, ReadBridges(request.bridges)));
  }

  // The whole calculation: refused, or one row per period, every projected one exact and none
  // trapping.
  method RunForecast(request: Request) returns (rows: Option<seq<Row>>, complete: bool)
    ensures rows.Some? <==> Admitted(request)
    ensures rows.Some? ==>
              && |rows.value| == |request.periods|
              && (complete <==> Available(rows.value))
              && (exists inputs :: ParsesTo(request, inputs)
                    && rows.value == Forecast(CONTEXT_DIGITS, inputs, ReadPeriods(request.periods), FRESH))
              && forall i :: 0 <= i < |rows.value| && rows.value[i].projection.Some? ==>
                   IsExact(rows.value[i].projection.value, request.owned)
                   && NeverTraps(CONTEXT_DIGITS, rows.value[i].projection.value)
  {
    var inputs := ParseRequest(request);
    if inputs.None? {
      return None, false;
    }
    var made, all := CashFlowForecast(inputs.value, ReadPeriods(request.periods));
    RowsKeepPeriods(CONTEXT_DIGITS, inputs.value, ReadPeriods(request.periods), FRESH);
    forall i | 0 <= i < |made| && made[i].projection.Some?
      ensures IsExact(made[i].projection.value, request.owned) && NeverTraps(CONTEXT_DIGITS, made[i].projection.value)
    {
      AdmittedForecastIsExact(request, inputs.value, made, i);
    }
    return Some(made), all;
  }
}
