// A forecast request before it is computed: its ceilings, the order of its periods, its
// contractual totals and its owned calendars; and what its being admitted means for the chain.
module ForecastRequest {
  import opened Wrappers
  import opened Digits
  import opened Decimals
  import opened CashFlow

  const MAX_FORECAST_PERIODS: nat := 40
  const MAX_FORECAST_CASES: nat := 6
  const MAX_FORECAST_FACILITIES: nat := 40
  const MAX_AMORTISATION: nat := 2000

  /* ----- contractual totals ----- */

  // One instalment of one facility in one period, its amount read.
  datatype Instalment = Instalment(pair: Pair, facility: string, amount: int)

  function SumFor(rows: seq<Instalment>, pair: Pair): int {
    if rows == [] then 0
    else SumFor(rows[..|rows| - 1], pair) + (if rows[|rows| - 1].pair == pair then rows[|rows| - 1].amount else 0)
  }

  lemma {:induction false} SumForIsBounded(rows: seq<Instalment>, pair: Pair, most: nat)
    requires forall i :: 0 <= i < |rows| ==> Abs(rows[i].amount) <= most
    ensures Abs(SumFor(rows, pair)) <= Repeat(|rows|, most)
  {
    if rows != [] {
      SumForIsBounded(rows[..|rows| - 1], pair, most);
    }
  }

  predicate Mentions(rows: seq<Instalment>, pair: Pair) {
    rows != [] && (rows[|rows| - 1].pair == pair || Mentions(rows[..|rows| - 1], pair))
  }

  // An instalment that may join the others: of a period and a facility known, and not the
  // whole of an earlier one again.
  predicate MayJoin(rows: seq<Instalment>, row: Instalment, pairs: set<Pair>, facilities: set<string>) {
    row.pair in pairs && row.facility in facilities && row !in rows
  }

  predicate GoodInstalments(rows: seq<Instalment>, pairs: set<Pair>, facilities: set<string>) {
    forall i :: 0 <= i < |rows| ==> MayJoin(rows[..i], rows[i], pairs, facilities)
  }

  lemma GoodSoFar(rows: seq<Instalment>, i: nat, pairs: set<Pair>, facilities: set<string>)
    requires i < |rows| && GoodInstalments(rows[..i], pairs, facilities)
    ensures GoodInstalments(rows[..i + 1], pairs, facilities) <==> MayJoin(rows[..i], rows[i], pairs, facilities)
  {
    var all := rows[..i + 1];
    assert all[..i] == rows[..i] && all[i] == rows[i];
    assert forall k {:trigger all[k]} :: 0 <= k < i ==> all[..k] == rows[..i][..k] && all[k] == rows[..i][k];
  }

  // A total for each period mentioned, and for no other.
  ghost predicate TotalsOf(totals: map<Pair, int>, rows: seq<Instalment>) {
    && (forall pair :: pair in totals <==> Mentions(rows, pair))
    && (forall pair :: pair in totals ==> totals[pair] == SumFor(rows, pair))
  }

  lemma {:induction false} NoneFor(rows: seq<Instalment>, pair: Pair)
    requires !Mentions(rows, pair)
    ensures SumFor(rows, pair) == 0
  {
    if rows != [] {
      NoneFor(rows[..|rows| - 1], pair);
    }
  }

  function SoFar(totals: map<Pair, int>, pair: Pair): int { if pair in totals then totals[pair] else 0 }

  lemma TotalsGrow(totals: map<Pair, int>, rows: seq<Instalment>, row: Instalment)
    requires TotalsOf(totals, rows)
    ensures SumFor(rows + [row], row.pair) == SoFar(totals, row.pair) + row.amount
    ensures TotalsOf(totals[row.pair := SumFor(rows + [row], row.pair)], rows + [row])
  {
    assert (rows + [row])[..|rows|] == rows;
    if row.pair !in totals {
      NoneFor(rows, row.pair);
    }
  }

  lemma AddsExactly(prec: nat, rows: seq<Instalment>, i: nat, most: nat)
    requires prec >= 1 && i < |rows| && forall k :: 0 <= k < |rows| ==> Abs(rows[k].amount) <= most
    requires Repeat(|rows|, most) < Pow10(prec)
    ensures Kept(prec, SumFor(rows[..i + 1], rows[i].pair)) == SumFor(rows[..i + 1], rows[i].pair)
  {
    SumForIsBounded(rows[..i + 1], rows[i].pair, most);
    RepeatGrows(i + 1, |rows|, most);
    KeptIsExact(prec, SumFor(rows[..i + 1], rows[i].pair));
  }

  // What each period repays: its instalments added up in the context, exactly; refused for a
  // period or facility not known, or a row repeated whole.
  method Contractual(prec: nat, rows: seq<Instalment>, pairs: set<Pair>, facilities: set<string>, most: nat)
    returns (totals: Option<map<Pair, int>>)
    requires prec >= 1 && (forall i :: 0 <= i < |rows| ==> Abs(rows[i].amount) <= most)
    requires Repeat(|rows|, most) < Pow10(prec)
    ensures totals.Some? <==> GoodInstalments(rows, pairs, facilities)
    ensures totals.Some? ==> TotalsOf(totals.value, rows)
  {
    var made: map<Pair, int> := map[];
    var seen: set<Instalment> := {};
    for i := 0 to |rows|
      invariant GoodInstalments(rows[..i], pairs, facilities)
      invariant forall row :: row in seen <==> row in rows[..i]
      invariant TotalsOf(made, rows[..i])
    {
      var row := rows[i];
      assert rows[..i + 1] == rows[..i] + [row];
      GoodSoFar(rows, i, pairs, facilities);
      if row.pair !in pairs || row.facility !in facilities || row in seen {
        assert !MayJoin(rows[..i], rows[i], pairs, facilities);
        return None;
      }
      assert forall r :: r in rows[..i + 1] <==> r in rows[..i] || r == row;
      seen := seen + {row};
      TotalsGrow(made, rows[..i], row);
      AddsExactly(prec, rows, i, most);
      made := made[row.pair := Kept(prec, SoFar(made, row.pair) + row.amount)];
    }
    assert rows[..|rows|] == rows;
    totals := Some(made);
  }

  /* ----- the order of periods ----- */

  // Within a case the years never fall, and no period is the one the opening is as of.
  predicate InOrder(periods: seq<Period>, asOf: string) {
    && (forall i :: 0 <= i < |periods| ==> periods[i].pair.id != asOf)
    && (forall i, j :: 0 <= i < j < |periods| && periods[i].pair.case_ == periods[j].pair.case_ ==>
          periods[i].year <= periods[j].year)
  }

  // The last year stated for a case.
  function LatestOf(periods: seq<Period>, case_: string): Option<int> {
    if periods == [] then None
    else if periods[|periods| - 1].pair.case_ == case_ then Some(periods[|periods| - 1].year)
    else LatestOf(periods[..|periods| - 1], case_)
  }

  // In order, a case's last year is its greatest.
  lemma {:induction false} LatestIsGreatest(periods: seq<Period>, asOf: string, case_: string)
    requires InOrder(periods, asOf)
    ensures forall i :: 0 <= i < |periods| && periods[i].pair.case_ == case_ ==>
              LatestOf(periods, case_).Some? && periods[i].year <= LatestOf(periods, case_).value
    ensures LatestOf(periods, case_).Some? ==>
              exists i :: 0 <= i < |periods| && periods[i].pair.case_ == case_ && periods[i].year == LatestOf(periods, case_).value
  {
    if periods != [] {
      LatestIsGreatest(periods[..|periods| - 1], asOf, case_);
    }
  }

  lemma OrderGrows(periods: seq<Period>, period: Period, asOf: string)
    requires InOrder(periods, asOf)
    ensures var latest := LatestOf(periods, period.pair.case_);
            InOrder(periods + [period], asOf) <==>
              period.pair.id != asOf && (latest.Some? ==> latest.value <= period.year)
  {
    var all := periods + [period];
    LatestIsGreatest(periods, asOf, period.pair.case_);
    assert all[|periods|] == period && forall k :: 0 <= k < |periods| ==> all[k] == periods[k];
  }

  lemma OrderOfPrefix(periods: seq<Period>, i: nat, asOf: string)
    requires i <= |periods| && InOrder(periods, asOf)
    ensures InOrder(periods[..i], asOf)
  {
  }

  method Chronological(periods: seq<Period>, asOf: string) returns (ok: bool)
    ensures ok <==> InOrder(periods, asOf)
  {
    var latest: map<string, int> := map[];
    for i := 0 to |periods|
      invariant InOrder(periods[..i], asOf)
      invariant forall case_ :: LatestOf(periods[..i], case_) == if case_ in latest then Some(latest[case_]) else None
    {
      var period := periods[i];
      var case_ := period.pair.case_;
      assert periods[..i + 1] == periods[..i] + [period];
      OrderGrows(periods[..i], period, asOf);
      if period.pair.id == asOf || (case_ in latest && period.year < latest[case_]) {
        if InOrder(periods, asOf) {
          OrderOfPrefix(periods, i + 1, asOf);
        }
        return false;
      }
      assert periods[..i + 1][..i] == periods[..i];
      latest := latest[case_ := period.year];
    }
    assert periods[..|periods|] == periods;
    ok := true;
  }

  predicate DistinctPairs(periods: seq<Period>) {
    forall i, j :: 0 <= i < j < |periods| ==> periods[i].pair != periods[j].pair
  }

  // A case whose two halves are in order together is in order again from the first's end.
  lemma OrderSplits(p: seq<Period>, q: seq<Period>, asOf: string, case_: string)
    requires p != [] && InOrder(p + q, asOf) && DistinctPairs(p + q)
    requires forall i :: 0 <= i < |p + q| ==> (p + q)[i].pair.case_ == case_
    ensures InOrder(p, asOf) && InOrder(q, p[|p| - 1].pair.id)
  {
    var all := p + q;
    forall i | 0 <= i < |q|
      ensures q[i].pair.id != p[|p| - 1].pair.id
    {
      assert all[|p| - 1] == p[|p| - 1] && all[|p| + i] == q[i];
    }
    assert forall i :: 0 <= i < |q| ==> all[|p| + i] == q[i];
    assert forall i :: 0 <= i < |p| ==> all[i] == p[i];
  }

  /* ----- owned calendars ----- */

  datatype Date = Date(year: int, month: int, day: int)

  predicate Leap(year: int) { year % 4 == 0 && (year % 100 != 0 || year % 400 == 0) }

  function DaysOf(year: int): int { if Leap(year) then 366 else 365 }

  // A period of the owned basis, with its dates read.
  datatype Dated = Dated(period: Period, start: Date, end: Date)

  // One whole calendar year, stated as such.
  predicate WholeYear(row: Dated) {
    && row.start == Date(row.start.year, 1, 1) && row.end == Date(row.start.year, 12, 31)
    && row.period.year == row.start.year && row.period.days == DaysOf(row.start.year)
  }

  // The last year stated for a case.
  function LatestYear(rows: seq<Dated>, case_: string): Option<int> {
    if rows == [] then None
    else if rows[|rows| - 1].period.pair.case_ == case_ then Some(rows[|rows| - 1].start.year)
    else LatestYear(rows[..|rows| - 1], case_)
  }

  // A row that may follow the others: a whole year, a period not yet stated, a year after its
  // case's last -- or, opening its case, the period and year the first row opened with.
  predicate MayFollow(rows: seq<Dated>, row: Dated) {
    && WholeYear(row)
    && (forall i :: 0 <= i < |rows| ==> rows[i].period.pair != row.period.pair)
    && var latest := LatestYear(rows, row.period.pair.case_);
       if latest.Some? then row.start.year == latest.value + 1
       else rows == [] || (rows[0].period.pair.id == row.period.pair.id && rows[0].start.year == row.start.year)
  }

  predicate GoodCalendars(rows: seq<Dated>) {
    forall i :: 0 <= i < |rows| ==> MayFollow(rows[..i], rows[i])
  }

  predicate Dates(rows: seq<Dated>, pair: Pair) {
    rows != [] && (rows[|rows| - 1].period.pair == pair || Dates(rows[..|rows| - 1], pair))
  }

  lemma {:induction false} DatesIs(rows: seq<Dated>, pair: Pair)
    ensures Dates(rows, pair) <==> exists i :: 0 <= i < |rows| && rows[i].period.pair == pair
  {
    if rows != [] {
      DatesIs(rows[..|rows| - 1], pair);
      if i :| 0 <= i < |rows| && rows[i].period.pair == pair {
        if i < |rows| - 1 {
          assert rows[..|rows| - 1][i].period.pair == pair;
        }
      }
    }
  }

  // The calendar of each period stated.
  function CalendarMap(rows: seq<Dated>): map<Pair, (Date, Date)> {
    if rows == [] then map[]
    else CalendarMap(rows[..|rows| - 1])[rows[|rows| - 1].period.pair := (rows[|rows| - 1].start, rows[|rows| - 1].end)]
  }

  lemma {:induction false} CalendarWhereDated(rows: seq<Dated>, pair: Pair)
    ensures pair in CalendarMap(rows) <==> Dates(rows, pair)
  {
    if rows != [] {
      CalendarWhereDated(rows[..|rows| - 1], pair);
    }
  }

  lemma GoodCalendarsSoFar(rows: seq<Dated>, i: nat)
    requires i < |rows| && GoodCalendars(rows[..i])
    ensures GoodCalendars(rows[..i + 1]) <==> MayFollow(rows[..i], rows[i])
  {
    var all := rows[..i + 1];
    assert all[..i] == rows[..i] && all[i] == rows[i];
    assert forall k {:trigger all[k]} :: 0 <= k < i ==> all[..k] == rows[..i][..k] && all[k] == rows[..i][k];
  }

  // The calendars of the owned basis, or nothing when the rows are no run of whole years.
  method OwnedCalendars(rows: seq<Dated>) returns (calendars: Option<map<Pair, (Date, Date)>>)
    ensures calendars.Some? <==> GoodCalendars(rows)
    ensures calendars.Some? ==> calendars.value == CalendarMap(rows)
  {
    var made: map<Pair, (Date, Date)> := map[];
    var latest: map<string, int> := map[];
    var first: Option<(string, int)> := None;
    for i := 0 to |rows|
      invariant GoodCalendars(rows[..i])
      invariant made == CalendarMap(rows[..i])
      invariant forall case_ :: LatestYear(rows[..i], case_) == if case_ in latest then Some(latest[case_]) else None
      invariant first == if i == 0 then None else Some((rows[0].period.pair.id, rows[0].start.year))
    {
      var row := rows[i];
      var pair := row.period.pair;
      assert rows[..i + 1][..i] == rows[..i];
      GoodCalendarsSoFar(rows, i);
      CalendarWhereDated(rows[..i], pair);
      DatesIs(rows[..i], pair);
      var follows := if pair.case_ in latest then row.start.year == latest[pair.case_] + 1
        else first.None? || first.value == (pair.id, row.start.year);
      if !WholeYear(row) || pair in made || !follows {
        assert !MayFollow(rows[..i], row);
        return None;
      }
      if pair.case_ !in latest {
        first := Some((pair.id, row.start.year));
      }
      latest := latest[pair.case_ := row.start.year];
      made := made[pair := (row.start, row.end)];
    }
    assert rows[..|rows|] == rows;
    calendars := Some(made);
  }

  /* ----- owned calendars: what they mean ----- */

  lemma {:induction false} NoYearWithoutARow(rows: seq<Dated>, case_: string)
    ensures LatestYear(rows, case_).Some? <==> exists i :: 0 <= i < |rows| && rows[i].period.pair.case_ == case_
  {
    if rows != [] {
      NoYearWithoutARow(rows[..|rows| - 1], case_);
      if i :| 0 <= i < |rows| && rows[i].period.pair.case_ == case_ {
        if i < |rows| - 1 {
          assert rows[..|rows| - 1][i].period.pair.case_ == case_;
        }
      }
    }
  }

  // A case opens on the first row's period, and on it alone.
  lemma FirstPeriodOpensEachCase(rows: seq<Dated>, i: nat)
    requires GoodCalendars(rows) && i < |rows|
    ensures rows[i].period.pair.id == rows[0].period.pair.id <==>
              forall j :: 0 <= j < i ==> rows[j].period.pair.case_ != rows[i].period.pair.case_
  {
    var case_ := rows[i].period.pair.case_;
    assert MayFollow(rows[..i], rows[i]);
    NoYearWithoutARow(rows[..i], case_);
    if LatestYear(rows[..i], case_).Some? {
      var k := OpensCase(rows, i);
      assert rows[..i][k].period.pair != rows[i].period.pair;
      assert rows[k].period.pair.id == rows[0].period.pair.id;
    } else {
      forall j | 0 <= j < i
        ensures rows[j].period.pair.case_ != case_
      {
        assert rows[..i][j].period.pair.case_ != case_;
      }
    }
  }

  // The row that opened the case of an earlier one.
  lemma {:induction false} OpensCase(rows: seq<Dated>, i: nat) returns (k: nat)
    requires GoodCalendars(rows) && i < |rows| && LatestYear(rows[..i], rows[i].period.pair.case_).Some?
    ensures k < i && rows[k].period.pair.case_ == rows[i].period.pair.case_
    ensures rows[k].period.pair.id == rows[0].period.pair.id
    decreases i
  {
    var case_ := rows[i].period.pair.case_;
    NoYearWithoutARow(rows[..i], case_);
    var j :| 0 <= j < i && rows[..i][j].period.pair.case_ == case_;
    assert MayFollow(rows[..j], rows[j]);
    if LatestYear(rows[..j], case_).Some? {
      k := OpensCase(rows, j);
    } else {
      k := j;
      assert j > 0 ==> rows[..j][0] == rows[0];
    }
  }

  /* ----- aggregate amortisation ----- */

  predicate Before(a: Date, b: Date) {
    a.year < b.year || (a.year == b.year && (a.month < b.month || (a.month == b.month && a.day <= b.day)))
  }

  datatype Aggregate = Aggregate(pair: Pair, start: Date, end: Date, amount: string)

  // A row within its period's calendar, ending with it; opening with it too, unless a bridge
  // covers the start of the first period.
  predicate FitsCalendar(row: Aggregate, calendars: map<Pair, (Date, Date)>, first: string, bridged: bool) {
    && row.pair in calendars
    && Before(calendars[row.pair].0, row.start) && Before(row.start, row.end) && row.end == calendars[row.pair].1
    && (row.start == calendars[row.pair].0 <==> !(row.pair.id == first && bridged))
  }

  function PairsOf(rows: seq<Aggregate>): set<Pair> { set i | 0 <= i < |rows| :: rows[i].pair }

  predicate GoodAggregates(rows: seq<Aggregate>, calendars: map<Pair, (Date, Date)>, first: string, bridged: bool) {
    && (forall i :: 0 <= i < |rows| ==> FitsCalendar(rows[i], calendars, first, bridged))
    && (forall i, j :: 0 <= i < j < |rows| ==> rows[i].pair != rows[j].pair)
    && PairsOf(rows) == calendars.Keys
    && (forall i, j :: 0 <= i < |rows| && 0 <= j < |rows| && rows[i].pair.id == first && rows[j].pair.id == first && bridged ==>
          rows[i].start == rows[j].start)
  }

  // The starts the first period's rows state under a bridge.
  function FirstStarts(rows: seq<Aggregate>, first: string, bridged: bool): set<Date> {
    set i | 0 <= i < |rows| && rows[i].pair.id == first && bridged :: rows[i].start
  }

  lemma FewStarts(starts: set<Date>)
    ensures |starts| <= 1 <==> forall a, b :: a in starts && b in starts ==> a == b
  {
    if |starts| > 1 {
      var a :| a in starts;
      assert |starts - {a}| == |starts| - 1;
      var b :| b in starts - {a};
    } else if |starts| == 1 {
      var a :| a in starts;
      assert |starts - {a}| == 0;
      assert starts == {a};
    }
  }

  method AggregateShape(rows: seq<Aggregate>, calendars: map<Pair, (Date, Date)>, first: string, bridged: bool)
    returns (ok: bool)
    ensures ok <==> GoodAggregates(rows, calendars, first, bridged)
  {
    var seen: set<Pair> := {};
    var firstStarts: set<Date> := {};
    for i := 0 to |rows|
      invariant seen == PairsOf(rows[..i]) && firstStarts == FirstStarts(rows[..i], first, bridged)
      invariant forall k :: 0 <= k < i ==> FitsCalendar(rows[k], calendars, first, bridged)
      invariant forall j, k :: 0 <= j < k < i ==> rows[j].pair != rows[k].pair
    {
      var row := rows[i];
      assert rows[..i + 1] == rows[..i] + [row];
      if row.pair in seen {
        ghost var k :| 0 <= k < i && rows[..i][k].pair == row.pair;
        assert rows[k].pair == rows[i].pair;
        return false;
      }
      if !FitsCalendar(row, calendars, first, bridged) {
        return false;
      }
      forall k | 0 <= k < i
        ensures rows[k].pair != row.pair
      {
        assert rows[..i][k].pair in PairsOf(rows[..i]);
      }
      PairsGrow(rows[..i], row, first, bridged);
      seen := seen + {row.pair};
      if row.pair.id == first && bridged {
        firstStarts := firstStarts + {row.start};
      }
    }
    assert rows[..|rows|] == rows;
    FewStarts(firstStarts);
    StartsAgree(rows, first, bridged);
    ok := seen == calendars.Keys && |firstStarts| <= 1;
  }

  lemma PairsGrow(rows: seq<Aggregate>, row: Aggregate, first: string, bridged: bool)
    ensures PairsOf(rows + [row]) == PairsOf(rows) + {row.pair}
    ensures FirstStarts(rows + [row], first, bridged)
            == FirstStarts(rows, first, bridged) + (if row.pair.id == first && bridged then {row.start} else {})
  {
    var all := rows + [row];
    assert all[|rows|] == row && forall k :: 0 <= k < |rows| ==> all[k] == rows[k];
  }

  lemma StartsAgree(rows: seq<Aggregate>, first: string, bridged: bool)
    ensures (forall a, b :: a in FirstStarts(rows, first, bridged) && b in FirstStarts(rows, first, bridged) ==> a == b) <==>
              forall i, j :: 0 <= i < |rows| && 0 <= j < |rows| && rows[i].pair.id == first && rows[j].pair.id == first && bridged ==>
                rows[i].start == rows[j].start
  {
    forall i | 0 <= i < |rows| && rows[i].pair.id == first && bridged
      ensures rows[i].start in FirstStarts(rows, first, bridged)
    {
    }
  }
}
