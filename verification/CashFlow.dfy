// The forecast chain: interleaved cases folded over their periods, each opening from its
// case's last closing, in a decimal context that rounds to so many digits. Money is whole
// millionths.
module CashFlow {
  import opened Wrappers
  import opened Digits
  import opened Decimals
  import opened Division

  // The context's precision.
  const CONTEXT_DIGITS: nat := 38

  /* ----- money in the context ----- */

  // Millionths as a context of that precision keeps them.
  function Kept(prec: nat, x: int): int
    requires prec >= 1
  {
    var kept := Fix(prec, Dec(x, -6));
    Shift(kept.coef, Abs(kept.exp + 6))
  }

  lemma KeptIsExact(prec: nat, x: int)
    requires prec >= 1 && Abs(x) < Pow10(prec)
    ensures Kept(prec, x) == x
  {
    WidthIs(Abs(x), prec);
  }

  // Terms added one after another, each sum kept.
  function Chain(prec: nat, start: int, terms: seq<int>): int
    requires prec >= 1
    decreases |terms|
  {
    if terms == [] then start else Chain(prec, Kept(prec, start + terms[0]), terms[1..])
  }

  function Total(terms: seq<int>): int {
    if terms == [] then 0 else terms[0] + Total(terms[1..])
  }

  // Every term within a bound.
  predicate Within(terms: seq<int>, bound: nat) {
    forall i :: 0 <= i < |terms| ==> Abs(terms[i]) <= bound
  }

  // `n` times `bound`, added up.
  function Repeat(n: nat, bound: nat): nat { if n == 0 then 0 else bound + Repeat(n - 1, bound) }

  lemma {:induction false} RepeatIs(n: nat, bound: nat)
    ensures Repeat(n, bound) == n * bound
  {
    if n > 0 {
      RepeatIs(n - 1, bound);
      assert n * bound == (n - 1) * bound + bound;
    }
  }

  lemma {:induction false} TotalIsBounded(terms: seq<int>, bound: nat)
    requires Within(terms, bound)
    ensures Abs(Total(terms)) <= Repeat(|terms|, bound)
  {
    if terms != [] {
      TotalIsBounded(terms[1..], bound);
    }
  }

  // Small enough terms are added exactly.
  lemma {:induction false} ChainIsExact(prec: nat, start: int, terms: seq<int>, bound: nat)
    requires prec >= 1 && Within(terms, bound) && Abs(start) + Repeat(|terms|, bound) < Pow10(prec)
    ensures Chain(prec, start, terms) == start + Total(terms)
    decreases |terms|
  {
    if terms != [] {
      KeptIsExact(prec, start + terms[0]);
      ChainIsExact(prec, start + terms[0], terms[1..], bound);
    }
  }

  lemma {:induction false} RepeatGrows(n: nat, m: nat, bound: nat)
    requires n <= m
    ensures Repeat(n, bound) <= Repeat(m, bound)
  {
    if n < m {
      RepeatGrows(n, m - 1, bound);
    }
  }

  lemma ChainStaysExact(prec: nat, start: int, terms: seq<int>, n: nat, bound: nat)
    requires prec >= 1 && Within(terms, bound) && |terms| <= n && Abs(start) + Repeat(n, bound) < Pow10(prec)
    ensures Chain(prec, start, terms) == start + Total(terms) && Abs(Total(terms)) <= Repeat(n, bound)
  {
    RepeatGrows(|terms|, n, bound);
    TotalIsBounded(terms, bound);
    ChainIsExact(prec, start, terms, bound);
  }

  // An amount is printed to six places: an invalid operation when it has too many digits.
  predicate Prints(prec: nat, x: int) { Width(Abs(x)) <= prec }

  // A ratio in ten-thousandths.
  datatype Ratio = NoRatio | Trapped | Ratio(value: int)

  function RatioOf(prec: nat, numerator: int, denominator: int): Ratio
    requires prec >= 1
  {
    if denominator <= 0 then NoRatio
    else
      var quotient := Fix(prec, RawQuotient(prec, Dec(Abs(numerator), -6), Dec(denominator, -6)));
      var value := Quantize(prec, quotient, -4);
      if value.None? then Trapped else Ratio(Signed(numerator, value.value.coef))
  }

  lemma QuotientIsBelow(prec: nat, numerator: nat, denominator: nat, p: nat)
    requires prec >= 1 && denominator > 0 && Width(numerator) <= p <= prec && Width(denominator) <= prec + 1
    ensures var quotient := Fix(prec, RawQuotient(prec, Dec(numerator, -6), Dec(denominator, -6)));
            quotient.coef == 0 || (quotient.coef > 0 && AtMostTen(quotient, p))
  {
    RawIsBelow(prec, Dec(numerator, -6), Dec(denominator, -6), p);
    FixIsBelow(prec, RawQuotient(prec, Dec(numerator, -6), Dec(denominator, -6)), p);
  }

  lemma NothingQuantizes(prec: nat, exp: int, to: int)
    requires prec >= 1
    ensures Quantize(prec, Dec(0, exp), to).Some?
  {
    if exp >= to {
      ShiftSum(0, 0, exp - to);
    } else {
      HalfEvenBounds(0, to - exp);
      DropBounds(0, to - exp);
      ShiftMono(1, DropDigits(0, to - exp), to - exp);
      ShiftOne(to - exp);
    }
  }

  // Bringing a ratio to four places never traps when its numerator leaves them room.
  lemma RatioNeverTraps(prec: nat, numerator: int, denominator: int)
    requires prec >= 6 && Width(Abs(numerator)) <= prec - 5
    requires denominator > 0 ==> Width(denominator) <= prec + 1
    ensures !RatioOf(prec, numerator, denominator).Trapped?
  {
    if denominator > 0 {
      var quotient := Fix(prec, RawQuotient(prec, Dec(Abs(numerator), -6), Dec(denominator, -6)));
      QuotientIsBelow(prec, Abs(numerator), denominator, prec - 5);
      if quotient.coef == 0 {
        NothingQuantizes(prec, quotient.exp, -4);
      } else {
        QuantizeFits(prec, quotient, 4, prec - 5);
      }
    }
  }

  /* ----- what a period is projected from ----- */

  datatype Move =
    | Revenue | Ebitda | Cfo | Capex | AcquisitionsDisposals | CashInterest | CashTaxes | Distributions
    | Issuance | OptionalRepayment | Pik | CapitalisedInterest | FxPerimeter
    | NetEquity | OtherInvestingFinancing | RestrictedCash | CarryingValue

  const REQUIRED := {Revenue, Ebitda, Cfo, Capex, AcquisitionsDisposals, CashInterest, CashTaxes, Distributions,
                     Issuance, OptionalRepayment, Pik, CapitalisedInterest, FxPerimeter}

  datatype Driver = Driver(status: string, moves: map<Move, int>, statedDebt: int, statedCash: int)

  datatype Pair = Pair(case_: string, id: string)

  datatype Period = Period(pair: Pair, year: int, days: int)

  datatype Balance = Balance(debt: int, cash: int)

  // What a request states once parsed. The bridge of actual debt cash is by period id, and is
  // used on the owned basis alone.
  datatype Inputs = Inputs(
    drivers: map<Pair, Driver>, repayments: map<Pair, int>, opening: Balance,
    tolerance: int, owned: bool, actual: map<string, int>)

  function Moved(driver: Driver, move: Move): int {
    if move in driver.moves then driver.moves[move] else 0
  }

  function RepaymentOf(inputs: Inputs, pair: Pair): int {
    if pair in inputs.repayments then inputs.repayments[pair] else 0
  }

  function ActualOf(inputs: Inputs, pair: Pair): int {
    if pair.id in inputs.actual then inputs.actual[pair.id] else 0
  }

  /* ----- one period ----- */

  datatype Reason = PriorUnavailable | DriverMissing | DriverNotReady | DriverFieldMissing | Unreconciled

  function UnavailableReason(inputs: Inputs, pair: Pair, prior: bool): Option<Reason> {
    if prior then Some(PriorUnavailable)
    else if pair !in inputs.drivers then Some(DriverMissing)
    else if inputs.drivers[pair].status != "READY" then Some(DriverNotReady)
    else if !(REQUIRED <= inputs.drivers[pair].moves.Keys) then Some(DriverFieldMissing)
    else None
  }

  datatype Projection = Projection(
    driver: Driver, repayment: int, actual: int, opening: Balance, closing: Balance,
    financing: int, fcf: int, residualDebt: int, residualCash: int)

  function DebtTerms(driver: Driver, repayment: int, owned: bool, actual: int): seq<int> {
    [Moved(driver, Issuance), Moved(driver, Pik), Moved(driver, CapitalisedInterest), -repayment,
     -Moved(driver, OptionalRepayment), Moved(driver, FxPerimeter), Moved(driver, CarryingValue)]
    + if owned then [actual] else []
  }

  function FinancingTerms(driver: Driver, repayment: int, owned: bool, actual: int): seq<int> {
    [-repayment, -Moved(driver, OptionalRepayment), -Moved(driver, AcquisitionsDisposals)]
    + if owned then [actual] else []
  }

  function FreeTerms(driver: Driver): seq<int> {
    [-Moved(driver, Capex), -Moved(driver, CashInterest), -Moved(driver, CashTaxes)]
  }

  function CashTerms(driver: Driver, fcf: int, financing: int): seq<int> {
    [fcf, -Moved(driver, Distributions), financing, Moved(driver, NetEquity),
     Moved(driver, OtherInvestingFinancing), -Moved(driver, RestrictedCash)]
  }

  function Project(prec: nat, driver: Driver, repayment: int, owned: bool, actual: int, opening: Balance): Projection
    requires prec >= 1
  {
    var debt := Chain(prec, opening.debt, DebtTerms(driver, repayment, owned, actual));
    var financing := Chain(prec, Moved(driver, Issuance), FinancingTerms(driver, repayment, owned, actual));
    var fcf := Chain(prec, Moved(driver, Cfo), FreeTerms(driver));
    var cash := Chain(prec, opening.cash, CashTerms(driver, fcf, financing));
    Projection(driver, repayment, actual, opening, Balance(debt, cash), financing, fcf,
      Kept(prec, driver.statedDebt - debt), Kept(prec, driver.statedCash - cash))
  }

  // A residual passes when neither bound is exceeded -- the request's tolerance, or a
  // thousandth of the opening balance it belongs to -- all in thousand-millionths.
  predicate Reconciles(prec: nat, residual: int, tolerance: int, opening: int)
    requires prec >= 1
  {
    && Abs(residual) * 1000 <= tolerance * 1000
    && Abs(residual) * 1000 <= Kept(prec, Abs(opening))
  }

  datatype Row = Row(period: Period, reason: Option<Reason>, projection: Option<Projection>)

  // A case's next row, from its opening and whether it is already unavailable.
  function RowOf(prec: nat, inputs: Inputs, period: Period, opening: Balance, prior: bool): Row
    requires prec >= 1
  {
    var pair := period.pair;
    var reason := UnavailableReason(inputs, pair, prior);
    if reason.Some? then Row(period, reason, None)
    else
      var p := Project(prec, inputs.drivers[pair], RepaymentOf(inputs, pair), inputs.owned, ActualOf(inputs, pair), opening);
      var reconciled :=
        && Reconciles(prec, p.residualDebt, inputs.tolerance, opening.debt)
        && Reconciles(prec, p.residualCash, inputs.tolerance, opening.cash);
      Row(period, if reconciled then None else Some(Unreconciled), Some(p))
  }

  // Where a row leaves its case.
  function ClosingOf(row: Row, opening: Balance): Balance {
    if row.projection.Some? then row.projection.value.closing else opening
  }

  /* ----- every case at once ----- */

  datatype Chains = Chains(openings: map<string, Balance>, unavailable: set<string>)

  function OpeningOf(chains: Chains, inputs: Inputs, case_: string): Balance {
    if case_ in chains.openings then chains.openings[case_] else inputs.opening
  }

  function Next(chains: Chains, row: Row): Chains {
    var case_ := row.period.pair.case_;
    Chains(if row.projection.Some? then chains.openings[case_ := row.projection.value.closing] else chains.openings,
           if row.reason.Some? then chains.unavailable + {case_} else chains.unavailable)
  }

  function RowIn(prec: nat, inputs: Inputs, period: Period, chains: Chains): Row
    requires prec >= 1
  {
    var case_ := period.pair.case_;
    RowOf(prec, inputs, period, OpeningOf(chains, inputs, case_), case_ in chains.unavailable)
  }

  // One row per period, in the caller's order.
  function Forecast(prec: nat, inputs: Inputs, periods: seq<Period>, chains: Chains): seq<Row>
    requires prec >= 1
    decreases |periods|
  {
    if periods == [] then []
    else
      var row := RowIn(prec, inputs, periods[0], chains);
      [row] + Forecast(prec, inputs, periods[1..], Next(chains, row))
  }

  const FRESH := Chains(map[], {})

  lemma OneRowOn(prec: nat, inputs: Inputs, done: seq<Row>, periods: seq<Period>, i: nat, chains: Chains)
    requires prec >= 1 && i < |periods|
    ensures var row := RowIn(prec, inputs, periods[i], chains);
            done + Forecast(prec, inputs, periods[i..], chains)
            == (done + [row]) + Forecast(prec, inputs, periods[i + 1..], Next(chains, row))
  {
    assert periods[i..][1..] == periods[i + 1..];
  }

  // The forecast as it is run: openings and unavailable cases updated row by row, and whether
  // any case became unavailable.
  method ForecastIn(prec: nat, inputs: Inputs, periods: seq<Period>) returns (rows: seq<Row>, complete: bool)
    requires prec >= 1
    ensures rows == Forecast(prec, inputs, periods, FRESH)
    ensures complete <==> Available(rows)
  {
    rows := [];
    var openings: map<string, Balance> := map[];
    var unavailable: set<string> := {};
    for i := 0 to |periods|
      invariant rows + Forecast(prec, inputs, periods[i..], Chains(openings, unavailable))
                == Forecast(prec, inputs, periods, FRESH)
      invariant unavailable == {} <==> Available(rows)
    {
      var case_ := periods[i].pair.case_;
      var opening := if case_ in openings then openings[case_] else inputs.opening;
      var row := RowOf(prec, inputs, periods[i], opening, case_ in unavailable);
      OneRowOn(prec, inputs, rows, periods, i, Chains(openings, unavailable));
      RowKeepsPeriod(prec, inputs, periods[i], opening, case_ in unavailable);
      OneMore(rows, row);
      if row.projection.Some? {
        openings := openings[case_ := row.projection.value.closing];
      }
      if row.reason.Some? {
        unavailable := unavailable + {case_};
        assert case_ in unavailable;
      }
      rows := rows + [row];
    }
    assert rows + [] == rows;
    complete := unavailable == {};
  }

  method CashFlowForecast(inputs: Inputs, periods: seq<Period>) returns (rows: seq<Row>, complete: bool)
    ensures rows == Forecast(CONTEXT_DIGITS, inputs, periods, FRESH)
    ensures complete <==> Available(rows)
  {
    rows, complete := ForecastIn(CONTEXT_DIGITS, inputs, periods);
  }

  predicate Available(rows: seq<Row>) { forall i :: 0 <= i < |rows| ==> rows[i].reason.None? }

  lemma OneMore(rows: seq<Row>, row: Row)
    ensures Available(rows + [row]) <==> Available(rows) && row.reason.None?
  {
    assert (rows + [row])[|rows|] == row;
    assert forall i :: 0 <= i < |rows| ==> (rows + [row])[i] == rows[i];
  }

  /* ----- a case on its own ----- */

  function PeriodsOf(periods: seq<Period>, case_: string): seq<Period> {
    if periods == [] then []
    else (if periods[0].pair.case_ == case_ then [periods[0]] else []) + PeriodsOf(periods[1..], case_)
  }

  function RowsOf(rows: seq<Row>, case_: string): seq<Row> {
    if rows == [] then []
    else (if rows[0].period.pair.case_ == case_ then [rows[0]] else []) + RowsOf(rows[1..], case_)
  }

  // One case's chain.
  function CaseRows(prec: nat, inputs: Inputs, periods: seq<Period>, opening: Balance, prior: bool): (rows: seq<Row>)
    requires prec >= 1
    ensures |rows| == |periods|
    decreases |periods|
  {
    if periods == [] then []
    else
      var row := RowOf(prec, inputs, periods[0], opening, prior);
      [row] + CaseRows(prec, inputs, periods[1..], ClosingOf(row, opening), row.reason.Some?)
  }

  lemma ChainUnfolds(prec: nat, inputs: Inputs, periods: seq<Period>, opening: Balance, prior: bool)
    requires prec >= 1 && periods != []
    ensures var row := RowOf(prec, inputs, periods[0], opening, prior);
            CaseRows(prec, inputs, periods, opening, prior)
            == [row] + CaseRows(prec, inputs, periods[1..], ClosingOf(row, opening), row.reason.Some?)
  {
  }

  // The `i`-th row of a chain: the first period's, or one of the rest's.
  lemma RowAt(prec: nat, inputs: Inputs, periods: seq<Period>, opening: Balance, prior: bool, i: nat)
    requires prec >= 1 && i < |periods|
    ensures var row := RowOf(prec, inputs, periods[0], opening, prior);
            CaseRows(prec, inputs, periods, opening, prior)[i]
            == if i == 0 then row
               else CaseRows(prec, inputs, periods[1..], ClosingOf(row, opening), row.reason.Some?)[i - 1]
  {
    ChainUnfolds(prec, inputs, periods, opening, prior);
  }

  lemma RowKeepsPeriod(prec: nat, inputs: Inputs, period: Period, opening: Balance, prior: bool)
    requires prec >= 1
    ensures var row := RowOf(prec, inputs, period, opening, prior);
            row.period == period && (prior ==> row == Row(period, Some(PriorUnavailable), None))
  {
  }

  // A row moves its own case alone.
  lemma NextMovesItsCase(inputs: Inputs, chains: Chains, row: Row, case_: string)
    ensures OpeningOf(Next(chains, row), inputs, case_)
            == if row.period.pair.case_ == case_ then ClosingOf(row, OpeningOf(chains, inputs, case_))
               else OpeningOf(chains, inputs, case_)
    ensures case_ in Next(chains, row).unavailable <==>
              case_ in chains.unavailable || (row.period.pair.case_ == case_ && row.reason.Some?)
  {
  }

  // The rows of one case are its own chain's, whatever other cases are interleaved with it.
  lemma {:induction false} CaseIsIndependent(prec: nat, inputs: Inputs, periods: seq<Period>, chains: Chains, case_: string)
    requires prec >= 1
    ensures RowsOf(Forecast(prec, inputs, periods, chains), case_)
            == CaseRows(prec, inputs, PeriodsOf(periods, case_), OpeningOf(chains, inputs, case_), case_ in chains.unavailable)
    decreases |periods|
  {
    if periods != [] {
      var period := periods[0];
      var row := RowIn(prec, inputs, period, chains);
      var rest := Forecast(prec, inputs, periods[1..], Next(chains, row));
      assert ([row] + rest)[1..] == rest;
      CaseIsIndependent(prec, inputs, periods[1..], Next(chains, row), case_);
      RowKeepsPeriod(prec, inputs, period, OpeningOf(chains, inputs, period.pair.case_),
        period.pair.case_ in chains.unavailable);
      NextMovesItsCase(inputs, chains, row, case_);
      assert Forecast(prec, inputs, periods, chains) == [row] + rest;
      if period.pair.case_ == case_ {
        var own := PeriodsOf(periods, case_);
        assert own[0] == period && own[1..] == PeriodsOf(periods[1..], case_);
        assert row == RowOf(prec, inputs, period, OpeningOf(chains, inputs, case_), case_ in chains.unavailable);
        assert RowsOf([row] + rest, case_) == [row] + RowsOf(rest, case_);
      } else {
        assert PeriodsOf(periods, case_) == PeriodsOf(periods[1..], case_);
        assert RowsOf([row] + rest, case_) == RowsOf(rest, case_);
      }
    }
  }

  // Two requests state the same of a period.
  predicate SameOf(a: Inputs, b: Inputs, pair: Pair) {
    && (pair in a.drivers <==> pair in b.drivers)
    && (pair in a.drivers ==> a.drivers[pair] == b.drivers[pair])
    && RepaymentOf(a, pair) == RepaymentOf(b, pair)
    && ActualOf(a, pair) == ActualOf(b, pair)
    && a.tolerance == b.tolerance && a.owned == b.owned
  }

  lemma SameInputsSameRow(prec: nat, a: Inputs, b: Inputs, period: Period, opening: Balance, prior: bool)
    requires prec >= 1 && SameOf(a, b, period.pair)
    ensures RowOf(prec, a, period, opening, prior) == RowOf(prec, b, period, opening, prior)
  {
    assert UnavailableReason(a, period.pair, prior) == UnavailableReason(b, period.pair, prior);
  }

  lemma {:induction false} SameInputsSameRows(prec: nat, a: Inputs, b: Inputs, periods: seq<Period>, opening: Balance, prior: bool)
    requires prec >= 1 && forall i :: 0 <= i < |periods| ==> SameOf(a, b, periods[i].pair)
    ensures CaseRows(prec, a, periods, opening, prior) == CaseRows(prec, b, periods, opening, prior)
    decreases |periods|
  {
    if periods != [] {
      SameInputsSameRow(prec, a, b, periods[0], opening, prior);
      var row := RowOf(prec, a, periods[0], opening, prior);
      SameInputsSameRows(prec, a, b, periods[1..], ClosingOf(row, opening), row.reason.Some?);
    }
  }

  // Two forecasts that state the same of a case's periods, in the same order, and open alike,
  // give it the same rows, whatever else either of them holds.
  lemma CaseDependsOnItselfAlone(prec: nat, a: Inputs, b: Inputs, ps: seq<Period>, qs: seq<Period>, case_: string)
    requires prec >= 1 && PeriodsOf(ps, case_) == PeriodsOf(qs, case_) && a.opening == b.opening
    requires forall i :: 0 <= i < |PeriodsOf(ps, case_)| ==> SameOf(a, b, PeriodsOf(ps, case_)[i].pair)
    ensures RowsOf(Forecast(prec, a, ps, FRESH), case_) == RowsOf(Forecast(prec, b, qs, FRESH), case_)
  {
    CaseIsIndependent(prec, a, ps, FRESH, case_);
    CaseIsIndependent(prec, b, qs, FRESH, case_);
    SameInputsSameRows(prec, a, b, PeriodsOf(ps, case_), a.opening, false);
  }

  /* ----- splitting, and the latch ----- */

  function LastClosing(rows: seq<Row>, opening: Balance): Balance
    decreases |rows|
  {
    if rows == [] then opening else LastClosing(rows[1..], ClosingOf(rows[0], opening))
  }

  // Whether a case is unavailable once its rows are done.
  predicate EndsUnavailable(rows: seq<Row>, prior: bool) {
    if rows == [] then prior else rows[|rows| - 1].reason.Some?
  }

  // Forecasting `p` then `q` is forecasting `p`, then `q` from where `p` left the case -- and
  // from its being unavailable, when `p` ended so.
  lemma {:induction false} ForecastSplits(prec: nat, inputs: Inputs, p: seq<Period>, q: seq<Period>, opening: Balance, prior: bool)
    requires prec >= 1
    ensures var first := CaseRows(prec, inputs, p, opening, prior);
            CaseRows(prec, inputs, p + q, opening, prior)
            == first + CaseRows(prec, inputs, q, LastClosing(first, opening), EndsUnavailable(first, prior))
    decreases |p|
  {
    if p == [] {
      assert p + q == q;
      assert [] + CaseRows(prec, inputs, q, opening, prior) == CaseRows(prec, inputs, q, opening, prior);
    } else {
      var row := RowOf(prec, inputs, p[0], opening, prior);
      var mid, closed := ClosingOf(row, opening), row.reason.Some?;
      assert (p + q)[0] == p[0] && (p + q)[1..] == p[1..] + q;
      ChainUnfolds(prec, inputs, p + q, opening, prior);
      ChainUnfolds(prec, inputs, p, opening, prior);
      ForecastSplits(prec, inputs, p[1..], q, mid, closed);
      SplitOn(prec, inputs, row, CaseRows(prec, inputs, p[1..], mid, closed), q, opening, prior);
    }
  }

  // One row before the rows of `p` changes nothing of where they leave the case for `q`.
  lemma SplitOn(prec: nat, inputs: Inputs, row: Row, rest: seq<Row>, q: seq<Period>, opening: Balance, prior: bool)
    requires prec >= 1
    ensures var mid := ClosingOf(row, opening);
            [row] + (rest + CaseRows(prec, inputs, q, LastClosing(rest, mid), EndsUnavailable(rest, row.reason.Some?)))
            == ([row] + rest)
               + CaseRows(prec, inputs, q, LastClosing([row] + rest, opening), EndsUnavailable([row] + rest, prior))
  {
    LastOfCons(row, rest, opening);
    Regrouped([row], rest,
      CaseRows(prec, inputs, q, LastClosing([row] + rest, opening), EndsUnavailable([row] + rest, prior)));
  }

  lemma Regrouped(a: seq<Row>, b: seq<Row>, c: seq<Row>)
    ensures a + (b + c) == (a + b) + c
  {
  }

  lemma LastOfCons(row: Row, rest: seq<Row>, opening: Balance)
    ensures LastClosing([row] + rest, opening) == LastClosing(rest, ClosingOf(row, opening))
    ensures forall prior :: EndsUnavailable([row] + rest, prior) == EndsUnavailable(rest, row.reason.Some?)
  {
    assert ([row] + rest)[1..] == rest;
    assert ([row] + rest)[|rest|] == if rest == [] then row else rest[|rest| - 1];
  }

  // So a second request that opens where an available first one closed, and states the same of
  // its own periods, gives the rows one request for both would have given.
  lemma SecondRequestGoesOn(prec: nat, inputs: Inputs, later: Inputs, p: seq<Period>, q: seq<Period>, case_: string)
    requires prec >= 1
    requires (forall i :: 0 <= i < |p| ==> p[i].pair.case_ == case_) && (forall i :: 0 <= i < |q| ==> q[i].pair.case_ == case_)
    requires Available(Forecast(prec, inputs, p, FRESH))
    requires later.opening == LastClosing(Forecast(prec, inputs, p, FRESH), inputs.opening)
    requires forall i :: 0 <= i < |q| ==> SameOf(inputs, later, q[i].pair)
    ensures Forecast(prec, inputs, p + q, FRESH) == Forecast(prec, inputs, p, FRESH) + Forecast(prec, later, q, FRESH)
  {
    OneCaseOnly(prec, inputs, p, case_);
    OneCaseOnly(prec, inputs, p + q, case_);
    OneCaseOnly(prec, later, q, case_);
    ForecastSplits(prec, inputs, p, q, inputs.opening, false);
    SameInputsSameRows(prec, inputs, later, q, later.opening, false);
  }

  lemma {:induction false} AllOfCase(periods: seq<Period>, case_: string)
    requires forall i :: 0 <= i < |periods| ==> periods[i].pair.case_ == case_
    ensures PeriodsOf(periods, case_) == periods
  {
    if periods != [] {
      AllOfCase(periods[1..], case_);
    }
  }

  lemma {:induction false} RowsKeepPeriods(prec: nat, inputs: Inputs, periods: seq<Period>, chains: Chains)
    requires prec >= 1
    ensures |Forecast(prec, inputs, periods, chains)| == |periods|
    ensures forall i :: 0 <= i < |periods| ==> Forecast(prec, inputs, periods, chains)[i].period == periods[i]
    decreases |periods|
  {
    if periods != [] {
      var row := RowIn(prec, inputs, periods[0], chains);
      RowKeepsPeriod(prec, inputs, periods[0], OpeningOf(chains, inputs, periods[0].pair.case_),
        periods[0].pair.case_ in chains.unavailable);
      RowsKeepPeriods(prec, inputs, periods[1..], Next(chains, row));
    }
  }

  lemma {:induction false} AllRowsOfCase(rows: seq<Row>, case_: string)
    requires forall i :: 0 <= i < |rows| ==> rows[i].period.pair.case_ == case_
    ensures RowsOf(rows, case_) == rows
  {
    if rows != [] {
      AllRowsOfCase(rows[1..], case_);
    }
  }

  lemma OneCaseOnly(prec: nat, inputs: Inputs, periods: seq<Period>, case_: string)
    requires prec >= 1 && forall i :: 0 <= i < |periods| ==> periods[i].pair.case_ == case_
    ensures Forecast(prec, inputs, periods, FRESH) == CaseRows(prec, inputs, periods, inputs.opening, false)
  {
    CaseIsIndependent(prec, inputs, periods, FRESH, case_);
    AllOfCase(periods, case_);
    RowsKeepPeriods(prec, inputs, periods, FRESH);
    AllRowsOfCase(Forecast(prec, inputs, periods, FRESH), case_);
  }

  // Once a case is unavailable, every later row of it is, for that reason alone.
  lemma {:induction false} UnavailableLatches(prec: nat, inputs: Inputs, periods: seq<Period>, opening: Balance, prior: bool, i: nat, j: nat)
    requires prec >= 1 && i < j < |periods|
    requires CaseRows(prec, inputs, periods, opening, prior)[i].reason.Some?
    ensures CaseRows(prec, inputs, periods, opening, prior)[j] == Row(periods[j], Some(PriorUnavailable), None)
    decreases |periods|
  {
    var row := RowOf(prec, inputs, periods[0], opening, prior);
    RowAt(prec, inputs, periods, opening, prior, i);
    RowAt(prec, inputs, periods, opening, prior, j);
    if i > 0 {
      UnavailableLatches(prec, inputs, periods[1..], ClosingOf(row, opening), row.reason.Some?, i - 1, j - 1);
    } else {
      StaysUnavailable(prec, inputs, periods[1..], ClosingOf(row, opening), j - 1);
    }
  }

  lemma {:induction false} StaysUnavailable(prec: nat, inputs: Inputs, periods: seq<Period>, opening: Balance, j: nat)
    requires prec >= 1 && j < |periods|
    ensures CaseRows(prec, inputs, periods, opening, true)[j] == Row(periods[j], Some(PriorUnavailable), None)
    decreases |periods|
  {
    RowKeepsPeriod(prec, inputs, periods[0], opening, true);
    RowAt(prec, inputs, periods, opening, true, j);
    if j > 0 {
      StaysUnavailable(prec, inputs, periods[1..], opening, j - 1);
    }
  }
}
