// The two bases a forecast request may stand on, row by row: instalments of stated facilities,
// or calendar years with one aggregate row each.
module ForecastBasis {
  import opened Wrappers
  import opened Digits
  import opened ForecastMoney
  import opened CashFlow
  import opened ForecastRequest
  import opened ForecastAdmission
  import opened ForecastReading

  /* ----- instalments ----- */

  lemma OtherBasisIs(request: Request, read: seq<Instalment>, pairs: set<Pair>, facilities: set<string>)
    requires !request.owned && read == ReadInstalments(request.instalments)
    requires pairs == PairSet(request.periods) && facilities == FacilitySet(request.facilities)
    ensures BasisHolds(request) <==>
              && request.aggregates == [] && request.bridges == []
              && (forall i :: 0 <= i < |read| ==> read[i].pair in pairs && read[i].facility in facilities) && NoneAgain(read)
  {
  }

  // A period and a facility that the request states.
  ghost predicate IsStated(request: Request, row: RawInstalment) {
    && (exists period :: period in request.periods && period.pair == row.pair)
    && (exists facility :: facility in request.facilities && facility.id == row.facility)
  }

  lemma StatedIs(request: Request, row: RawInstalment)
    ensures IsStated(request, row) <==> row.pair in PairSet(request.periods) && row.facility in FacilitySet(request.facilities)
  {
    if period :| period in request.periods && period.pair == row.pair {
      var i :| 0 <= i < |request.periods| && request.periods[i] == period;
    }
    if facility :| facility in request.facilities && facility.id == row.facility {
      var i :| 0 <= i < |request.facilities| && request.facilities[i] == facility;
    }
  }

  lemma AllStated(request: Request, read: seq<Instalment>, pairs: set<Pair>, facilities: set<string>)
    requires read == ReadInstalments(request.instalments)
    requires pairs == PairSet(request.periods) && facilities == FacilitySet(request.facilities)
    ensures (forall i :: 0 <= i < |read| ==> read[i].pair in pairs && read[i].facility in facilities)
            <==> forall row :: row in request.instalments ==> IsStated(request, row)
  {
    forall i | 0 <= i < |read|
      ensures read[i].pair in pairs && read[i].facility in facilities <==> IsStated(request, request.instalments[i])
    {
      StatedIs(request, request.instalments[i]);
    }
  }

  // Off the owned basis nothing is owned, and every instalment is of a period and a facility the
  // request states, and no whole row again.
  lemma OtherBasisHolds(request: Request)
    requires !request.owned && SpellsEverything(request)
    ensures BasisHolds(request) <==>
              && request.aggregates == [] && request.bridges == []
              && (forall row :: row in request.instalments ==> IsStated(request, row))
              && (forall i, j :: 0 <= i < j < |request.instalments| ==>
                    !SameInstalment(request.instalments[i], request.instalments[j]))
  {
    var read, pairs, facilities := ReadInstalments(request.instalments), PairSet(request.periods), FacilitySet(request.facilities);
    OtherBasisIs(request, read, pairs, facilities);
    AllStated(request, read, pairs, facilities);
    RepeatsAre(request.instalments, read);
  }

  /* ----- the owned basis ----- */

  // Dates in their order: one and only one way round, and further on in the same month, a later
  // month or a later year.
  lemma DatesAreOrdered(a: Date, b: Date, c: Date)
    ensures Before(a, b) || Before(b, a)
    ensures Before(a, b) && Before(b, a) <==> a == b
    ensures Before(a, b) && Before(b, c) ==> Before(a, c)
    ensures a.year < b.year ==> Before(a, b)
    ensures a.year == b.year && a.month < b.month ==> Before(a, b)
    ensures a.year == b.year && a.month == b.month && a.day < b.day ==> Before(a, b)
  {
  }

  // A calendar year, stated as such: its first day and its last, its number and its days.
  ghost predicate StatesYear(row: RawPeriod, year: nat) {
    && row.start == Date(year, 1, 1) && row.end == Date(year, 12, 31) && row.year == Written(year)
    && row.days == Written(DaysIn(year))
  }

  // Calendar years, no period twice; one after another within a case; and every case from the
  // first row's period and year on.
  ghost predicate RunsOnYears(rows: seq<RawPeriod>) {
    AllStateYears(rows) && NoPeriodTwice(rows) && YearsFollow(rows) && CasesOpenTogether(rows)
  }

  ghost predicate AllStateYears(rows: seq<RawPeriod>) { forall row :: row in rows ==> exists year :: StatesYear(row, year) }

  predicate NoPeriodTwice(rows: seq<RawPeriod>) { forall i, j :: 0 <= i < j < |rows| ==> rows[i].pair != rows[j].pair }

  predicate YearsFollow(rows: seq<RawPeriod>) {
    forall i, j :: 0 <= i < j < |rows| && NextOfCase(rows, i, j) ==> rows[j].start.year == rows[i].start.year + 1
  }

  predicate CasesOpenTogether(rows: seq<RawPeriod>) {
    forall j :: 0 <= j < |rows| && OpensItsCase(rows, j) ==>
      rows[j].pair.id == rows[0].pair.id && rows[j].start.year == rows[0].start.year
  }

  // The `j`-th row is the next of its case after the `i`-th.
  predicate NextOfCase(rows: seq<RawPeriod>, i: nat, j: nat)
    requires i < j < |rows|
  {
    rows[i].pair.case_ == rows[j].pair.case_ && forall k :: i < k < j ==> rows[k].pair.case_ != rows[j].pair.case_
  }

  predicate OpensItsCase(rows: seq<RawPeriod>, j: nat)
    requires j < |rows|
  {
    forall i :: 0 <= i < j ==> rows[i].pair.case_ != rows[j].pair.case_
  }

  lemma {:induction false} LatestYearIs(dated: seq<Dated>, case_: string) returns (i: int)
    ensures -1 <= i < |dated| && (LatestYear(dated, case_).Some? <==> 0 <= i)
    ensures 0 <= i < |dated| ==>
              && dated[i].period.pair.case_ == case_ && LatestYear(dated, case_) == Some(dated[i].start.year)
              && forall k :: i < k < |dated| ==> dated[k].period.pair.case_ != case_
    ensures LatestYear(dated, case_).None? ==> forall k :: 0 <= k < |dated| ==> dated[k].period.pair.case_ != case_
  {
    i := -1;
    if dated != [] {
      var last := |dated| - 1;
      if dated[last].period.pair.case_ == case_ {
        i := last;
      } else {
        i := LatestYearIs(dated[..last], case_);
        assert forall k :: 0 <= k < last ==> dated[..last][k] == dated[k];
      }
    }
  }

  // A whole year as it is read, and as it is stated.
  lemma WholeYearIs(row: RawPeriod)
    requires SpellsPeriod(row)
    ensures WholeYear(Dated(ReadPeriod(row), row.start, row.end)) <==> exists year :: StatesYear(row, year)
  {
    var year: nat :| 1000 <= year <= 9999 && row.year == Written(year);
    var days: nat :| 1 <= days <= 366 && row.days == Written(days);
    YearIsRead(row, year);
    DaysAreRead(row, days);
    ReadYearIs(row, ReadPeriod(row), year, days);
  }

  lemma ReadYearIs(row: RawPeriod, period: Period, year: nat, days: nat)
    requires period.year == year && period.days == days && row.year == Written(year) && row.days == Written(days)
    ensures WholeYear(Dated(period, row.start, row.end)) <==> exists year :: StatesYear(row, year)
  {
    if WholeYear(Dated(period, row.start, row.end)) {
      assert StatesYear(row, year);
    }
    if stated: nat :| StatesYear(row, stated) {
      WrittenOnce(year, stated);
      WrittenOnce(days, DaysIn(stated));
    }
  }

  function DaysIn(year: nat): nat { if (year % 4 == 0 && year % 100 != 0) || year % 400 == 0 then 366 else 365 }

  lemma WrittenOnce(a: nat, b: int)
    ensures b >= 0 && Written(a) == Written(b) ==> a == b
  {
    if b >= 0 {
      ReadWritten(a);
      ReadWritten(b);
    }
  }

  lemma DaysAreRead(row: RawPeriod, days: nat)
    requires row.days == Written(days) && days < 1000
    ensures ReadPeriod(row).days == days
  {
    WholeAmount(days);
  }

  // A row next in its case, or opening it with the first row's period and year, and of a period
  // not stated before.
  ghost predicate FollowsOn(rows: seq<RawPeriod>, j: nat)
    requires j < |rows|
  {
    && (forall i :: 0 <= i < j ==> rows[i].pair != rows[j].pair)
    && (forall i :: 0 <= i < j && NextOfCase(rows, i, j) ==> rows[j].start.year == rows[i].start.year + 1)
    && (OpensItsCase(rows, j) ==> rows[j].pair.id == rows[0].pair.id && rows[j].start.year == rows[0].start.year)
  }

  lemma OneIsNext(rows: seq<RawPeriod>, i: nat, j: nat, other: nat)
    requires i < j < |rows| && other < j && NextOfCase(rows, i, j) && NextOfCase(rows, other, j)
    ensures other == i
  {
  }

  lemma FollowsIs(rows: seq<RawPeriod>, dated: seq<Dated>, j: nat)
    requires dated == ReadDates(rows) && j < |rows|
    ensures MayFollow(dated[..j], dated[j]) <==> WholeYear(dated[j]) && FollowsOn(rows, j)
  {
    var case_ := rows[j].pair.case_;
    var before := dated[..j];
    var i := LatestYearIs(before, case_);
    assert forall k :: 0 <= k < j ==> before[k] == dated[k] && dated[k].period.pair == rows[k].pair && dated[k].start == rows[k].start;
    if i >= 0 {
      assert NextOfCase(rows, i, j) && !OpensItsCase(rows, j);
      forall other | 0 <= other < j && NextOfCase(rows, other, j)
        ensures other == i
      {
        OneIsNext(rows, i, j, other);
      }
    } else {
      assert OpensItsCase(rows, j);
    }
  }

  ghost predicate RunsAt(rows: seq<RawPeriod>, j: nat)
    requires j < |rows|
  {
    (exists year :: StatesYear(rows[j], year)) && FollowsOn(rows, j)
  }

  lemma RunsIs(rows: seq<RawPeriod>)
    ensures RunsOnYears(rows) <==> forall j :: 0 <= j < |rows| ==> RunsAt(rows, j)
  {
    if RunsOnYears(rows) {
      forall j | 0 <= j < |rows|
        ensures RunsAt(rows, j)
      {
        assert rows[j] in rows;
      }
    }
    if forall j :: 0 <= j < |rows| ==> RunsAt(rows, j) {
      YearsThen(rows);
      PairsThen(rows);
    }
  }

  lemma RunsPair(rows: seq<RawPeriod>, i: nat, j: nat)
    requires i < j < |rows| && RunsAt(rows, j)
    ensures rows[i].pair != rows[j].pair
    ensures NextOfCase(rows, i, j) ==> rows[j].start.year == rows[i].start.year + 1
  {
  }

  lemma RunsFirst(rows: seq<RawPeriod>, j: nat)
    requires j < |rows| && RunsAt(rows, j)
    ensures exists year :: StatesYear(rows[j], year)
    ensures OpensItsCase(rows, j) ==> rows[j].pair.id == rows[0].pair.id && rows[j].start.year == rows[0].start.year
  {
  }

  lemma YearsThen(rows: seq<RawPeriod>)
    requires forall j :: 0 <= j < |rows| ==> RunsAt(rows, j)
    ensures AllStateYears(rows) && CasesOpenTogether(rows)
  {
    forall row | row in rows
      ensures exists year :: StatesYear(row, year)
    {
      var j :| 0 <= j < |rows| && rows[j] == row;
      RunsFirst(rows, j);
    }
    forall j | 0 <= j < |rows| && OpensItsCase(rows, j)
      ensures rows[j].pair.id == rows[0].pair.id && rows[j].start.year == rows[0].start.year
    {
      RunsFirst(rows, j);
    }
  }

  lemma PairsThen(rows: seq<RawPeriod>)
    requires forall j :: 0 <= j < |rows| ==> RunsAt(rows, j)
    ensures NoPeriodTwice(rows) && YearsFollow(rows)
  {
    forall i, j | 0 <= i < j < |rows|
      ensures rows[i].pair != rows[j].pair
      ensures NextOfCase(rows, i, j) ==> rows[j].start.year == rows[i].start.year + 1
    {
      RunsPair(rows, i, j);
    }
  }

  lemma CalendarsAre(rows: seq<RawPeriod>)
    requires forall row :: row in rows ==> SpellsPeriod(row)
    ensures GoodCalendars(ReadDates(rows)) <==> RunsOnYears(rows)
  {
    var dated := ReadDates(rows);
    forall j | 0 <= j < |rows|
      ensures MayFollow(dated[..j], dated[j]) <==> RunsAt(rows, j)
    {
      WholeYearIs(rows[j]);
      FollowsIs(rows, dated, j);
    }
    RunsIs(rows);
  }

  // An aggregate row within its period: it ends with it, and starts with it but where the
  // bridge covers the start of the first.
  predicate WithinPeriod(row: Aggregate, period: RawPeriod, bridgedFrom: Option<string>) {
    && row.pair == period.pair
    && Before(period.start, row.start) && Before(row.start, row.end) && row.end == period.end
    && (row.start == period.start <==> bridgedFrom != Some(period.pair.id))
  }

  // The first period, where a bridge leads to it.
  function BridgedFrom(request: Request): Option<string> {
    if request.bridges != [] && request.periods != [] then Some(request.periods[0].pair.id) else None
  }

  ghost predicate IsWithin(request: Request, row: Aggregate) {
    exists period :: period in request.periods && WithinPeriod(row, period, BridgedFrom(request))
  }

  // One aggregate row a period, each within its own; and those that follow a bridge start
  // together.
  ghost predicate OneRowAPeriod(request: Request) {
    var rows := request.aggregates;
    && (forall row :: row in rows ==> IsWithin(request, row))
    && (forall i, j :: 0 <= i < j < |rows| ==> rows[i].pair != rows[j].pair)
    && (forall period :: period in request.periods ==> period.pair in PairsOf(rows))
    && StartTogether(rows, BridgedFrom(request))
  }

  ghost predicate StartTogether(rows: seq<Aggregate>, bridgedFrom: Option<string>) {
    forall a, b :: a in rows && b in rows && Some(a.pair.id) == bridgedFrom && Some(b.pair.id) == bridgedFrom ==> a.start == b.start
  }

  lemma {:induction false} CalendarRead(rows: seq<RawPeriod>, dated: seq<Dated>, pair: Pair)
    requires dated == ReadDates(rows) && forall i, j :: 0 <= i < j < |rows| ==> rows[i].pair != rows[j].pair
    ensures pair in CalendarMap(dated) <==> exists i :: 0 <= i < |rows| && rows[i].pair == pair
    ensures forall i :: 0 <= i < |rows| && rows[i].pair == pair ==> CalendarMap(dated)[pair] == (rows[i].start, rows[i].end)
  {
    if rows != [] {
      var before := rows[..|rows| - 1];
      assert dated[..|dated| - 1] == ReadDates(before);
      CalendarRead(before, dated[..|dated| - 1], pair);
    }
  }

  lemma FitsIs(request: Request, row: Aggregate)
    requires request.periods != []
    requires forall i, j :: 0 <= i < j < |request.periods| ==> request.periods[i].pair != request.periods[j].pair
    ensures FitsCalendar(row, CalendarMap(ReadDates(request.periods)), request.periods[0].pair.id, request.bridges != [])
            <==> exists period :: period in request.periods && WithinPeriod(row, period, BridgedFrom(request))
  {
    CalendarRead(request.periods, ReadDates(request.periods), row.pair);
    if period :| period in request.periods && WithinPeriod(row, period, BridgedFrom(request)) {
      var i :| 0 <= i < |request.periods| && request.periods[i] == period;
    }
    if i :| 0 <= i < |request.periods| && request.periods[i].pair == row.pair {
      assert request.periods[i] in request.periods;
    }
  }

  lemma DatedPairs(request: Request, pair: Pair)
    requires forall i, j :: 0 <= i < j < |request.periods| ==> request.periods[i].pair != request.periods[j].pair
    ensures pair in CalendarMap(ReadDates(request.periods)) <==> exists period :: period in request.periods && period.pair == pair
  {
    CalendarRead(request.periods, ReadDates(request.periods), pair);
    if period :| period in request.periods && period.pair == pair {
      var i :| 0 <= i < |request.periods| && request.periods[i] == period;
    }
  }

  lemma PairsAre(request: Request, calendars: set<Pair>)
    requires calendars == CalendarMap(ReadDates(request.periods)).Keys && NoPeriodTwice(request.periods)
    requires forall row :: row in request.aggregates ==> row.pair in calendars
    ensures PairsOf(request.aggregates) == calendars <==>
              forall period :: period in request.periods ==> period.pair in PairsOf(request.aggregates)
  {
    forall pair
      ensures pair in calendars <==> exists period :: period in request.periods && period.pair == pair
    {
      DatedPairs(request, pair);
    }
  }

  lemma WithinIsDated(request: Request, row: Aggregate)
    requires NoPeriodTwice(request.periods) && IsWithin(request, row)
    ensures row.pair in CalendarMap(ReadDates(request.periods))
  {
    DatedPairs(request, row.pair);
  }

  lemma AllWithinIs(request: Request)
    requires request.periods != []
    requires forall i, j :: 0 <= i < j < |request.periods| ==> request.periods[i].pair != request.periods[j].pair
    ensures (forall row :: row in request.aggregates ==> IsWithin(request, row)) <==>
              forall i :: 0 <= i < |request.aggregates| ==>
                FitsCalendar(request.aggregates[i], CalendarMap(ReadDates(request.periods)), request.periods[0].pair.id,
                  request.bridges != [])
  {
    forall i | 0 <= i < |request.aggregates|
      ensures FitsCalendar(request.aggregates[i], CalendarMap(ReadDates(request.periods)), request.periods[0].pair.id,
                request.bridges != [])
              <==> IsWithin(request, request.aggregates[i])
    {
      FitsIs(request, request.aggregates[i]);
    }
  }

  lemma StartsAre(rows: seq<Aggregate>, first: string, bridged: bool)
    ensures (forall i, j :: 0 <= i < |rows| && 0 <= j < |rows| && rows[i].pair.id == first && rows[j].pair.id == first && bridged ==>
               rows[i].start == rows[j].start)
            <==> StartTogether(rows, if bridged then Some(first) else None)
  {
  }

  lemma GoodIsOneAPeriod(request: Request, calendars: map<Pair, (Date, Date)>, first: string)
    requires request.periods != [] && first == request.periods[0].pair.id && NoPeriodTwice(request.periods)
    requires calendars == CalendarMap(ReadDates(request.periods))
    requires GoodAggregates(request.aggregates, calendars, first, request.bridges != [])
    ensures OneRowAPeriod(request)
  {
    AllWithinIs(request);
    StartsAre(request.aggregates, first, request.bridges != []);
    forall row | row in request.aggregates
      ensures row.pair in calendars
    {
      WithinIsDated(request, row);
    }
    PairsAre(request, calendars.Keys);
  }

  lemma OneAPeriodIsGood(request: Request, calendars: map<Pair, (Date, Date)>, first: string)
    requires request.periods != [] && first == request.periods[0].pair.id && NoPeriodTwice(request.periods)
    requires calendars == CalendarMap(ReadDates(request.periods))
    requires OneRowAPeriod(request)
    ensures GoodAggregates(request.aggregates, calendars, first, request.bridges != [])
  {
    AllWithinIs(request);
    StartsAre(request.aggregates, first, request.bridges != []);
    forall row | row in request.aggregates
      ensures row.pair in calendars
    {
      WithinIsDated(request, row);
    }
    PairsAre(request, calendars.Keys);
  }

  lemma AggregatesAre(request: Request)
    requires request.periods != [] && NoPeriodTwice(request.periods)
    ensures GoodAggregates(request.aggregates, CalendarMap(ReadDates(request.periods)), request.periods[0].pair.id, request.bridges != [])
            <==> OneRowAPeriod(request)
  {
    var calendars, first := CalendarMap(ReadDates(request.periods)), request.periods[0].pair.id;
    if GoodAggregates(request.aggregates, calendars, first, request.bridges != []) {
      GoodIsOneAPeriod(request, calendars, first);
    }
    if OneRowAPeriod(request) {
      OneAPeriodIsGood(request, calendars, first);
    }
  }

  lemma OwnedRowsHold(request: Request)
    requires request.periods != [] && SpellsEverything(request)
    ensures var dated := ReadDates(request.periods);
            GoodCalendars(dated)
            && GoodAggregates(request.aggregates, CalendarMap(dated), request.periods[0].pair.id, request.bridges != [])
            <==> RunsOnYears(request.periods) && OneRowAPeriod(request)
  {
    CalendarsAre(request.periods);
    if RunsOnYears(request.periods) {
      AggregatesAre(request);
    }
  }

  lemma OwnedBasisIs(request: Request, dated: seq<Dated>)
    requires request.owned && dated == ReadDates(request.periods)
    ensures BasisHolds(request) <==>
              && request.periods != [] && request.instalments == []
              && (forall i :: 0 <= i < |request.bridges| ==> request.bridges[i].id == request.periods[0].pair.id)
              && GoodCalendars(dated)
              && GoodAggregates(request.aggregates, CalendarMap(dated), request.periods[0].pair.id, request.bridges != [])
  {
  }

  // On the owned basis there are no instalments, a bridge leads to the first period, the periods
  // run on calendar years, and each has one aggregate row.
  lemma OwnedBasisHolds(request: Request)
    requires request.owned && SpellsEverything(request)
    ensures BasisHolds(request) <==>
              && request.periods != [] && request.instalments == []
              && (forall bridge :: bridge in request.bridges ==> bridge.id == request.periods[0].pair.id)
              && RunsOnYears(request.periods) && OneRowAPeriod(request)
  {
    OwnedBasisIs(request, ReadDates(request.periods));
    if request.periods != [] {
      OwnedRowsHold(request);
    }
  }

  predicate NoneAgain(read: seq<Instalment>) { forall i :: 0 <= i < |read| ==> read[i] !in read[..i] }

  predicate SameInstalment(a: RawInstalment, b: RawInstalment) {
    a.pair == b.pair && a.facility == b.facility && AmountOf(a.amount, false) == AmountOf(b.amount, false)
  }

  lemma RepeatsAre(rows: seq<RawInstalment>, read: seq<Instalment>)
    requires read == ReadInstalments(rows) && forall row :: row in rows ==> AmountOf(row.amount, false).Some?
    ensures NoneAgain(read) <==> forall i, j :: 0 <= i < j < |rows| ==> !SameInstalment(rows[i], rows[j])
  {
    forall i, j | 0 <= i < j < |rows|
      ensures read[i] == read[j] <==> SameInstalment(rows[i], rows[j])
    {
      assert rows[i] in rows && rows[j] in rows;
    }
    if NoneAgain(read) {
      forall i, j | 0 <= i < j < |rows|
        ensures !SameInstalment(rows[i], rows[j])
      {
        assert read[j] !in read[..j];
        assert read[..j][i] == read[i];
      }
    }
  }
}
