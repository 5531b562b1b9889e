// What the forecast chain keeps: its stated closings never feed it, nothing in it rounds or
// traps while its money stays small enough, and its balances are conserved.
module CashFlowExact {
  import opened Digits
  import opened Decimals
  import opened CashFlow

  /* ----- stated closings never feed the chain ----- */

  // A projection apart from what its stated closings decide.
  function Figures(p: Projection): Projection {
    p.(driver := p.driver.(statedDebt := 0, statedCash := 0), residualDebt := 0, residualCash := 0)
  }

  predicate SameButStated(a: Inputs, b: Inputs, pair: Pair) {
    && (pair in a.drivers <==> pair in b.drivers)
    && (pair in a.drivers ==>
          && a.drivers[pair].status == b.drivers[pair].status
          && a.drivers[pair].moves == b.drivers[pair].moves)
    && RepaymentOf(a, pair) == RepaymentOf(b, pair)
    && ActualOf(a, pair) == ActualOf(b, pair)
    && a.owned == b.owned
  }

  lemma RowIgnoresStated(prec: nat, a: Inputs, b: Inputs, period: Period, opening: Balance)
    requires prec >= 1 && SameButStated(a, b, period.pair)
    ensures var x, y := RowOf(prec, a, period, opening, false), RowOf(prec, b, period, opening, false);
            && (x.projection.Some? <==> y.projection.Some?)
            && (x.projection.Some? ==> Figures(x.projection.value) == Figures(y.projection.value))
            && ClosingOf(x, opening) == ClosingOf(y, opening)
  {
    var pair := period.pair;
    if UnavailableReason(a, pair, false).None? {
      ProjectIgnoresStated(prec, a.drivers[pair], b.drivers[pair], RepaymentOf(a, pair), a.owned, ActualOf(a, pair), opening);
    }
  }

  lemma ProjectIgnoresStated(prec: nat, a: Driver, b: Driver, repayment: int, owned: bool, actual: int, opening: Balance)
    requires prec >= 1 && a.status == b.status && a.moves == b.moves
    ensures Figures(Project(prec, a, repayment, owned, actual, opening)) == Figures(Project(prec, b, repayment, owned, actual, opening))
    ensures Project(prec, a, repayment, owned, actual, opening).closing == Project(prec, b, repayment, owned, actual, opening).closing
  {
    assert DebtTerms(a, repayment, owned, actual) == DebtTerms(b, repayment, owned, actual);
    assert FinancingTerms(a, repayment, owned, actual) == FinancingTerms(b, repayment, owned, actual);
    assert FreeTerms(a) == FreeTerms(b);
  }

  lemma {:induction false} NoneProjected(prec: nat, inputs: Inputs, periods: seq<Period>, opening: Balance, i: nat)
    requires prec >= 1 && i < |periods|
    ensures CaseRows(prec, inputs, periods, opening, true)[i].projection.None?
  {
    StaysUnavailable(prec, inputs, periods, opening, i);
  }

  // Whatever closings are stated, two chains that otherwise state the same show the same
  // figures wherever both project.
  lemma {:induction false} StatedClosingsNeverFeed(prec: nat, a: Inputs, b: Inputs, periods: seq<Period>, opening: Balance, i: nat)
    requires prec >= 1 && i < |periods|
    requires forall k :: 0 <= k < |periods| ==> SameButStated(a, b, periods[k].pair)
    ensures var x, y := CaseRows(prec, a, periods, opening, false)[i].projection, CaseRows(prec, b, periods, opening, false)[i].projection;
            x.Some? && y.Some? ==> Figures(x.value) == Figures(y.value)
    decreases |periods|
  {
    var x, y := RowOf(prec, a, periods[0], opening, false), RowOf(prec, b, periods[0], opening, false);
    RowIgnoresStated(prec, a, b, periods[0], opening);
    RowAt(prec, a, periods, opening, false, i);
    RowAt(prec, b, periods, opening, false, i);
    if i > 0 {
      var closing := ClosingOf(x, opening);
      if x.reason.Some? {
        NoneProjected(prec, a, periods[1..], closing, i - 1);
      } else if y.reason.Some? {
        NoneProjected(prec, b, periods[1..], closing, i - 1);
      } else {
        StatedClosingsNeverFeed(prec, a, b, periods[1..], closing, i - 1);
      }
    }
  }

  /* ----- nothing rounds ----- */

  // Every amount a period takes is within `most`.
  predicate MovesWithin(driver: Driver, most: nat) {
    && (forall move :: move in driver.moves ==> Abs(driver.moves[move]) <= most)
    && Abs(driver.statedDebt) <= most && Abs(driver.statedCash) <= most
  }

  predicate BalanceWithin(balance: Balance, most: nat) {
    Abs(balance.debt) <= most && Abs(balance.cash) <= most
  }

  // The period as whole-number arithmetic has it.
  function ExactFinancing(driver: Driver, repayment: int, owned: bool, actual: int): int {
    Moved(driver, Issuance) + Total(FinancingTerms(driver, repayment, owned, actual))
  }

  function ExactFree(driver: Driver): int { Moved(driver, Cfo) + Total(FreeTerms(driver)) }

  function ExactClosing(driver: Driver, repayment: int, owned: bool, actual: int, opening: Balance): Balance {
    Balance(opening.debt + Total(DebtTerms(driver, repayment, owned, actual)),
            opening.cash + Total(CashTerms(driver, ExactFree(driver), ExactFinancing(driver, repayment, owned, actual))))
  }

  predicate IsExact(p: Projection, owned: bool) {
    && p.financing == ExactFinancing(p.driver, p.repayment, owned, p.actual)
    && p.fcf == ExactFree(p.driver)
    && p.closing == ExactClosing(p.driver, p.repayment, owned, p.actual, p.opening)
    && p.residualDebt == p.driver.statedDebt - p.closing.debt
    && p.residualCash == p.driver.statedCash - p.closing.cash
  }

  lemma DebtIsExact(prec: nat, driver: Driver, repayment: int, owned: bool, actual: int, start: int, most: nat)
    requires prec >= 1 && MovesWithin(driver, most) && Abs(repayment) <= most && Abs(actual) <= most
    requires Abs(start) + 8 * most < Pow10(prec)
    ensures var terms := DebtTerms(driver, repayment, owned, actual);
            Chain(prec, start, terms) == start + Total(terms) && Abs(Total(terms)) <= 8 * most
  {
    RepeatIs(8, most);
    ChainStaysExact(prec, start, DebtTerms(driver, repayment, owned, actual), 8, most);
  }

  lemma FinancingIsExact(prec: nat, driver: Driver, repayment: int, owned: bool, actual: int, most: nat)
    requires prec >= 1 && MovesWithin(driver, most) && Abs(repayment) <= most && Abs(actual) <= most
    requires 5 * most < Pow10(prec)
    ensures Chain(prec, Moved(driver, Issuance), FinancingTerms(driver, repayment, owned, actual))
            == ExactFinancing(driver, repayment, owned, actual)
    ensures Abs(ExactFinancing(driver, repayment, owned, actual)) <= 5 * most
  {
    RepeatIs(4, most);
    ChainStaysExact(prec, Moved(driver, Issuance), FinancingTerms(driver, repayment, owned, actual), 4, most);
  }

  lemma FreeIsExact(prec: nat, driver: Driver, most: nat)
    requires prec >= 1 && MovesWithin(driver, most) && 4 * most < Pow10(prec)
    ensures Chain(prec, Moved(driver, Cfo), FreeTerms(driver)) == ExactFree(driver)
    ensures Abs(ExactFree(driver)) <= 4 * most
  {
    RepeatIs(3, most);
    ChainStaysExact(prec, Moved(driver, Cfo), FreeTerms(driver), 3, most);
  }

  lemma CashIsExact(prec: nat, driver: Driver, fcf: int, financing: int, start: int, most: nat)
    requires prec >= 1 && MovesWithin(driver, most) && Abs(fcf) <= 5 * most && Abs(financing) <= 5 * most
    requires Abs(start) + 30 * most < Pow10(prec)
    ensures var terms := CashTerms(driver, fcf, financing);
            Chain(prec, start, terms) == start + Total(terms) && Abs(Total(terms)) <= 30 * most
  {
    RepeatIs(6, 5 * most);
    ChainStaysExact(prec, start, CashTerms(driver, fcf, financing), 6, 5 * most);
  }

  // How far a period moves a balance at most.
  const STEP: nat := 30

  lemma ClosingIsExact(prec: nat, driver: Driver, repayment: int, owned: bool, actual: int, opening: Balance, most: nat, size: nat)
    requires prec >= 1 && MovesWithin(driver, most) && Abs(repayment) <= most && Abs(actual) <= most
    requires BalanceWithin(opening, size) && size + STEP * most + most < Pow10(prec)
    ensures var p := Project(prec, driver, repayment, owned, actual, opening);
            && p.financing == ExactFinancing(driver, repayment, owned, actual) && p.fcf == ExactFree(driver)
            && p.closing == ExactClosing(driver, repayment, owned, actual, opening)
            && BalanceWithin(p.closing, size + STEP * most)
            && Abs(p.fcf) <= 5 * most && Abs(p.financing) <= 5 * most
  {
    DebtIsExact(prec, driver, repayment, owned, actual, opening.debt, most);
    FinancingIsExact(prec, driver, repayment, owned, actual, most);
    FreeIsExact(prec, driver, most);
    CashIsExact(prec, driver, ExactFree(driver), ExactFinancing(driver, repayment, owned, actual), opening.cash, most);
  }

  lemma ResidualIsExact(prec: nat, stated: int, closing: int, most: nat, size: nat)
    requires prec >= 1 && Abs(stated) <= most && Abs(closing) <= size && size + most < Pow10(prec)
    ensures Kept(prec, stated - closing) == stated - closing && Abs(stated - closing) <= size + most
  {
    KeptIsExact(prec, stated - closing);
  }

  // A period's sums are exact when its amounts and openings leave room for them.
  lemma ProjectIsExact(prec: nat, driver: Driver, repayment: int, owned: bool, actual: int, opening: Balance, most: nat, size: nat)
    requires prec >= 1 && MovesWithin(driver, most) && Abs(repayment) <= most && Abs(actual) <= most
    requires BalanceWithin(opening, size) && size + STEP * most + most < Pow10(prec)
    ensures var p := Project(prec, driver, repayment, owned, actual, opening);
            && IsExact(p, owned)
            && BalanceWithin(p.closing, size + STEP * most)
            && Abs(p.fcf) <= 5 * most && Abs(p.financing) <= 5 * most
            && Abs(p.residualDebt) <= size + STEP * most + most && Abs(p.residualCash) <= size + STEP * most + most
  {
    ClosingIsExact(prec, driver, repayment, owned, actual, opening, most, size);
    var closing := Project(prec, driver, repayment, owned, actual, opening).closing;
    ResidualIsExact(prec, driver.statedDebt, closing.debt, most, size + STEP * most);
    ResidualIsExact(prec, driver.statedCash, closing.cash, most, size + STEP * most);
  }

  /* ----- nothing traps ----- */

  // The amounts a row prints.
  function Amounts(p: Projection): seq<int> {
    [p.repayment, p.actual, p.opening.debt, p.opening.cash, p.closing.debt, p.closing.cash,
     p.financing, p.fcf, p.residualDebt, p.residualCash]
  }

  function Ratios(prec: nat, p: Projection): seq<Ratio>
    requires prec >= 1
  {
    var ebitda := Moved(p.driver, Ebitda);
    [RatioOf(prec, ebitda, Moved(p.driver, Revenue)),
     RatioOf(prec, p.closing.debt, ebitda),
     RatioOf(prec, Kept(prec, p.closing.debt - p.closing.cash), ebitda),
     RatioOf(prec, ebitda, Moved(p.driver, CashInterest)),
     RatioOf(prec, p.fcf, p.closing.debt)]
  }

  predicate NeverTraps(prec: nat, p: Projection)
    requires prec >= 1
  {
    && (forall move :: move in p.driver.moves ==> Prints(prec, p.driver.moves[move]))
    && (forall i :: 0 <= i < |Amounts(p)| ==> Prints(prec, Amounts(p)[i]))
    && (forall i :: 0 <= i < |Ratios(prec, p)| ==> !Ratios(prec, p)[i].Trapped?)
  }

  lemma SmallPrints(prec: nat, x: int, limit: nat)
    requires limit >= 1 && Abs(x) < Pow10(limit) && limit <= prec
    ensures Prints(prec, x) && Width(Abs(x)) <= limit
  {
    WidthIs(Abs(x), limit);
  }

  lemma SmallRatio(prec: nat, numerator: int, denominator: int)
    requires prec >= 6 && Abs(numerator) < Pow10(prec - 5) && Abs(denominator) < Pow10(prec - 5)
    ensures !RatioOf(prec, numerator, denominator).Trapped?
  {
    SmallPrints(prec, numerator, prec - 5);
    SmallPrints(prec, denominator, prec - 5);
    RatioNeverTraps(prec, numerator, denominator);
  }

  lemma SmallAmountsPrint(prec: nat, p: Projection, size: nat)
    requires prec >= 6 && size < Pow10(prec - 5)
    requires MovesWithin(p.driver, size) && (forall i :: 0 <= i < |Amounts(p)| ==> Abs(Amounts(p)[i]) <= size)
    ensures forall move :: move in p.driver.moves ==> Prints(prec, p.driver.moves[move])
    ensures forall i :: 0 <= i < |Amounts(p)| ==> Prints(prec, Amounts(p)[i])
  {
    forall move | move in p.driver.moves
      ensures Prints(prec, p.driver.moves[move])
    {
      SmallPrints(prec, p.driver.moves[move], prec - 5);
    }
    forall i | 0 <= i < |Amounts(p)|
      ensures Prints(prec, Amounts(p)[i])
    {
      SmallPrints(prec, Amounts(p)[i], prec - 5);
    }
  }

  lemma SmallRatiosFit(prec: nat, p: Projection, size: nat)
    requires prec >= 6 && 2 * size < Pow10(prec - 5) && MovesWithin(p.driver, size)
    requires Abs(p.closing.debt) <= size && Abs(p.closing.cash) <= size && Abs(p.fcf) <= size
    ensures forall i :: 0 <= i < |Ratios(prec, p)| ==> !Ratios(prec, p)[i].Trapped?
  {
    var ebitda, net := Moved(p.driver, Ebitda), p.closing.debt - p.closing.cash;
    Pow10Grows(prec - 5, prec);
    KeptIsExact(prec, net);
    SmallRatio(prec, ebitda, Moved(p.driver, Revenue));
    SmallRatio(prec, p.closing.debt, ebitda);
    SmallRatio(prec, net, ebitda);
    SmallRatio(prec, ebitda, Moved(p.driver, CashInterest));
    SmallRatio(prec, p.fcf, p.closing.debt);
  }

  lemma SmallNeverTraps(prec: nat, p: Projection, size: nat)
    requires prec >= 6 && 2 * size < Pow10(prec - 5)
    requires MovesWithin(p.driver, size) && (forall i :: 0 <= i < |Amounts(p)| ==> Abs(Amounts(p)[i]) <= size)
    ensures NeverTraps(prec, p)
  {
    SmallAmountsPrint(prec, p, size);
    assert Amounts(p)[4] == p.closing.debt && Amounts(p)[5] == p.closing.cash && Amounts(p)[7] == p.fcf;
    SmallRatiosFit(prec, p, size);
  }

  /* ----- over a whole case ----- */

  // Every amount a request states is within `most`.
  ghost predicate InputsWithin(inputs: Inputs, most: nat) {
    && (forall pair :: pair in inputs.drivers ==> MovesWithin(inputs.drivers[pair], most))
    && (forall pair :: pair in inputs.repayments ==> Abs(inputs.repayments[pair]) <= most)
    && (forall id :: id in inputs.actual ==> Abs(inputs.actual[id]) <= most)
  }

  // After `k` periods no balance is past this.
  function Reach(size: nat, most: nat, k: nat): nat { if k == 0 then size else Reach(size, most, k - 1) + STEP * most }

  lemma {:induction false} ReachOn(size: nat, most: nat, k: nat)
    ensures Reach(size + STEP * most, most, k) == Reach(size, most, k + 1)
    ensures size <= Reach(size, most, k)
  {
    if k > 0 {
      ReachOn(size, most, k - 1);
    }
  }

  ghost predicate ExactRow(prec: nat, row: Row, owned: bool, reach: nat)
    requires prec >= 1
  {
    row.projection.Some? ==>
      && IsExact(row.projection.value, owned)
      && NeverTraps(prec, row.projection.value)
      && BalanceWithin(row.projection.value.closing, reach)
  }

  lemma ProjectedRow(prec: nat, inputs: Inputs, period: Period, opening: Balance, prior: bool)
    requires prec >= 1 && RowOf(prec, inputs, period, opening, prior).projection.Some?
    ensures period.pair in inputs.drivers
    ensures RowOf(prec, inputs, period, opening, prior).projection.value
            == Project(prec, inputs.drivers[period.pair], RepaymentOf(inputs, period.pair), inputs.owned,
                 ActualOf(inputs, period.pair), opening)
  {
  }

  lemma StatedWithin(inputs: Inputs, pair: Pair, most: nat)
    requires InputsWithin(inputs, most) && pair in inputs.drivers
    ensures MovesWithin(inputs.drivers[pair], most)
    ensures Abs(RepaymentOf(inputs, pair)) <= most && Abs(ActualOf(inputs, pair)) <= most
  {
  }

  lemma MovesWithinMore(driver: Driver, most: nat, size: nat)
    requires MovesWithin(driver, most) && most <= size
    ensures MovesWithin(driver, size)
  {
  }

  lemma ProjectKeeps(prec: nat, driver: Driver, repayment: int, owned: bool, actual: int, opening: Balance)
    requires prec >= 1
    ensures var p := Project(prec, driver, repayment, owned, actual, opening);
            p.driver == driver && p.repayment == repayment && p.actual == actual && p.opening == opening
  {
  }

  lemma AmountsWithin(p: Projection, size: nat)
    requires Abs(p.repayment) <= size && Abs(p.actual) <= size && BalanceWithin(p.opening, size) && BalanceWithin(p.closing, size)
    requires Abs(p.financing) <= size && Abs(p.fcf) <= size && Abs(p.residualDebt) <= size && Abs(p.residualCash) <= size
    ensures forall i :: 0 <= i < |Amounts(p)| ==> Abs(Amounts(p)[i]) <= size
  {
  }

  lemma SmallProjectionNeverTraps(prec: nat, p: Projection, owned: bool, most: nat, size: nat)
    requires prec >= 6 && MovesWithin(p.driver, most) && Abs(p.repayment) <= most && Abs(p.actual) <= most
    requires BalanceWithin(p.opening, size) && BalanceWithin(p.closing, size + STEP * most)
    requires Abs(p.financing) <= 5 * most && Abs(p.fcf) <= 5 * most
    requires Abs(p.residualDebt) <= size + STEP * most + most && Abs(p.residualCash) <= size + STEP * most + most
    requires 2 * (size + STEP * most + most) < Pow10(prec - 5)
    ensures NeverTraps(prec, p)
  {
    MovesWithinMore(p.driver, most, size + STEP * most + most);
    AmountsWithin(p, size + STEP * most + most);
    SmallNeverTraps(prec, p, size + STEP * most + most);
  }

  lemma ProjectNeverTraps(prec: nat, driver: Driver, repayment: int, owned: bool, actual: int, opening: Balance, most: nat, size: nat)
    requires prec >= 6 && MovesWithin(driver, most) && Abs(repayment) <= most && Abs(actual) <= most
    requires BalanceWithin(opening, size) && 2 * (size + STEP * most + most) < Pow10(prec - 5)
    ensures var p := Project(prec, driver, repayment, owned, actual, opening);
            IsExact(p, owned) && NeverTraps(prec, p) && BalanceWithin(p.closing, size + STEP * most)
  {
    Pow10Grows(prec - 5, prec);
    ProjectIsExact(prec, driver, repayment, owned, actual, opening, most, size);
    ProjectKeeps(prec, driver, repayment, owned, actual, opening);
    SmallProjectionNeverTraps(prec, Project(prec, driver, repayment, owned, actual, opening), owned, most, size);
  }

  lemma RowIsExact(prec: nat, inputs: Inputs, period: Period, opening: Balance, prior: bool, most: nat, size: nat)
    requires prec >= 6 && InputsWithin(inputs, most) && BalanceWithin(opening, size)
    requires 2 * (size + STEP * most + most) < Pow10(prec - 5)
    ensures var row := RowOf(prec, inputs, period, opening, prior);
            && ExactRow(prec, row, inputs.owned, size + STEP * most)
            && BalanceWithin(ClosingOf(row, opening), size + STEP * most)
  {
    var pair := period.pair;
    if RowOf(prec, inputs, period, opening, prior).projection.Some? {
      ProjectedRow(prec, inputs, period, opening, prior);
      StatedWithin(inputs, pair, most);
      ProjectNeverTraps(prec, inputs.drivers[pair], RepaymentOf(inputs, pair), inputs.owned, ActualOf(inputs, pair), opening, most, size);
    }
  }

  // While the reach of a case's periods leaves room in the context, every row of it is exact
  // and none traps.
  lemma {:induction false} CaseIsExact(prec: nat, inputs: Inputs, periods: seq<Period>, opening: Balance, prior: bool,
                                      most: nat, size: nat, i: nat)
    requires prec >= 6 && InputsWithin(inputs, most) && BalanceWithin(opening, size) && i < |periods|
    requires 2 * (Reach(size, most, i + 1) + most) < Pow10(prec - 5)
    ensures ExactRow(prec, CaseRows(prec, inputs, periods, opening, prior)[i], inputs.owned, Reach(size, most, i + 1))
    decreases |periods|
  {
    ReachOn(size, most, i);
    ReachOn(size + STEP * most, most, i);
    var row, rest := FirstRowIsExact(prec, inputs, periods, opening, prior, most, size);
    if i > 0 {
      CaseIsExact(prec, inputs, periods[1..], ClosingOf(row, opening), row.reason.Some?, most, size + STEP * most, i - 1);
    }
  }

  // A chain's first row is exact, and the rest goes on from where it leaves the case.
  lemma FirstRowIsExact(prec: nat, inputs: Inputs, periods: seq<Period>, opening: Balance, prior: bool, most: nat, size: nat)
    returns (row: Row, rest: seq<Row>)
    requires prec >= 6 && InputsWithin(inputs, most) && BalanceWithin(opening, size) && periods != []
    requires 2 * (size + STEP * most + most) < Pow10(prec - 5)
    ensures CaseRows(prec, inputs, periods, opening, prior) == [row] + rest
    ensures rest == CaseRows(prec, inputs, periods[1..], ClosingOf(row, opening), row.reason.Some?)
    ensures ExactRow(prec, row, inputs.owned, size + STEP * most)
    ensures BalanceWithin(ClosingOf(row, opening), size + STEP * most)
  {
    row := RowOf(prec, inputs, periods[0], opening, prior);
    rest := CaseRows(prec, inputs, periods[1..], ClosingOf(row, opening), row.reason.Some?);
    ChainUnfolds(prec, inputs, periods, opening, prior);
    RowIsExact(prec, inputs, periods[0], opening, prior, most, size);
  }

  /* ----- conservation ----- */

  // What a row adds to its case's debt and cash, and to its net debt, each move by itself.
  function DebtMoved(p: Projection, owned: bool): int {
    Moved(p.driver, Issuance) + Moved(p.driver, Pik) + Moved(p.driver, CapitalisedInterest)
    - p.repayment - Moved(p.driver, OptionalRepayment) + Moved(p.driver, FxPerimeter)
    + Moved(p.driver, CarryingValue) + (if owned then p.actual else 0)
  }

  function CashMoved(p: Projection, owned: bool): int {
    Moved(p.driver, Cfo) - Moved(p.driver, Capex) - Moved(p.driver, CashInterest) - Moved(p.driver, CashTaxes)
    - Moved(p.driver, Distributions)
    + Moved(p.driver, Issuance) - p.repayment - Moved(p.driver, OptionalRepayment)
    - Moved(p.driver, AcquisitionsDisposals) + (if owned then p.actual else 0)
    + Moved(p.driver, NetEquity) + Moved(p.driver, OtherInvestingFinancing) - Moved(p.driver, RestrictedCash)
  }

  // No issuance, repayment or bridge: they move debt and cash alike.
  function NetMoved(p: Projection): int {
    Moved(p.driver, Pik) + Moved(p.driver, CapitalisedInterest) + Moved(p.driver, FxPerimeter)
    + Moved(p.driver, CarryingValue) + Moved(p.driver, AcquisitionsDisposals) + Moved(p.driver, Distributions)
    - Moved(p.driver, Cfo) + Moved(p.driver, Capex) + Moved(p.driver, CashInterest) + Moved(p.driver, CashTaxes)
    - Moved(p.driver, NetEquity) - Moved(p.driver, OtherInvestingFinancing) + Moved(p.driver, RestrictedCash)
  }

  function SumDebt(rows: seq<Row>, owned: bool): int {
    if rows == [] then 0
    else (if rows[0].projection.Some? then DebtMoved(rows[0].projection.value, owned) else 0) + SumDebt(rows[1..], owned)
  }

  function SumCash(rows: seq<Row>, owned: bool): int {
    if rows == [] then 0
    else (if rows[0].projection.Some? then CashMoved(rows[0].projection.value, owned) else 0) + SumCash(rows[1..], owned)
  }

  function SumNet(rows: seq<Row>): int {
    if rows == [] then 0
    else (if rows[0].projection.Some? then NetMoved(rows[0].projection.value) else 0) + SumNet(rows[1..])
  }

  lemma DebtTotal(p: Projection, owned: bool)
    ensures Total(DebtTerms(p.driver, p.repayment, owned, p.actual)) == DebtMoved(p, owned)
  {
    var d := p.driver;
    Totals7(Moved(d, Issuance), Moved(d, Pik), Moved(d, CapitalisedInterest), -p.repayment,
      -Moved(d, OptionalRepayment), Moved(d, FxPerimeter), Moved(d, CarryingValue), if owned then [p.actual] else []);
    assert Total([p.actual]) == p.actual;
  }

  lemma Totals7(a: int, b: int, c: int, d: int, e: int, f: int, g: int, rest: seq<int>)
    ensures Total([a, b, c, d, e, f, g] + rest) == a + b + c + d + e + f + g + Total(rest)
  {
    Totals3(a, b, c, [d, e, f, g] + rest);
    Totals3(d, e, f, [g] + rest);
    assert ([g] + rest)[1..] == rest;
    assert [a, b, c, d, e, f, g] + rest == [a, b, c] + ([d, e, f, g] + rest);
    assert [d, e, f, g] + rest == [d, e, f] + ([g] + rest);
  }

  lemma Totals3(a: int, b: int, c: int, rest: seq<int>)
    ensures Total([a, b, c] + rest) == a + b + c + Total(rest)
  {
    var all := [a, b, c] + rest;
    assert all[1..] == [b, c] + rest;
    assert all[1..][1..] == [c] + rest;
    assert all[1..][1..][1..] == rest;
    assert Total(all) == a + Total(all[1..]);
    assert Total(all[1..]) == b + Total(all[1..][1..]);
    assert Total(all[1..][1..]) == c + Total(rest);
  }

  lemma FinancingTotal(p: Projection, owned: bool)
    ensures ExactFinancing(p.driver, p.repayment, owned, p.actual)
            == Moved(p.driver, Issuance) - p.repayment - Moved(p.driver, OptionalRepayment)
               - Moved(p.driver, AcquisitionsDisposals) + (if owned then p.actual else 0)
  {
    Totals3(-p.repayment, -Moved(p.driver, OptionalRepayment), -Moved(p.driver, AcquisitionsDisposals),
      if owned then [p.actual] else []);
    assert Total([p.actual]) == p.actual;
  }

  lemma FreeTotal(d: Driver)
    ensures ExactFree(d) == Moved(d, Cfo) - Moved(d, Capex) - Moved(d, CashInterest) - Moved(d, CashTaxes)
  {
    Totals3(-Moved(d, Capex), -Moved(d, CashInterest), -Moved(d, CashTaxes), []);
    assert FreeTerms(d) == FreeTerms(d) + [];
  }

  lemma CashTermsTotal(d: Driver, fcf: int, financing: int)
    ensures Total(CashTerms(d, fcf, financing))
            == fcf - Moved(d, Distributions) + financing + Moved(d, NetEquity) + Moved(d, OtherInvestingFinancing)
               - Moved(d, RestrictedCash)
  {
    var last := [Moved(d, NetEquity), Moved(d, OtherInvestingFinancing), -Moved(d, RestrictedCash)];
    Totals3(fcf, -Moved(d, Distributions), financing, last);
    Totals3(Moved(d, NetEquity), Moved(d, OtherInvestingFinancing), -Moved(d, RestrictedCash), []);
    assert last == last + [];
    assert CashTerms(d, fcf, financing) == [fcf, -Moved(d, Distributions), financing] + last;
  }

  lemma CashTotal(p: Projection, owned: bool)
    ensures Total(CashTerms(p.driver, ExactFree(p.driver), ExactFinancing(p.driver, p.repayment, owned, p.actual)))
            == CashMoved(p, owned)
  {
    FinancingTotal(p, owned);
    FreeTotal(p.driver);
    CashTermsTotal(p.driver, ExactFree(p.driver), ExactFinancing(p.driver, p.repayment, owned, p.actual));
  }

  lemma NetIsTheDifference(p: Projection, owned: bool)
    ensures DebtMoved(p, owned) - CashMoved(p, owned) == NetMoved(p)
  {
  }

  // Where a row leaves its case, move by move.
  function MovedBy(opening: Balance, row: Row, owned: bool): Balance {
    if row.projection.None? then opening
    else Balance(opening.debt + DebtMoved(row.projection.value, owned), opening.cash + CashMoved(row.projection.value, owned))
  }

  lemma RowConserves(prec: nat, inputs: Inputs, period: Period, opening: Balance, prior: bool, most: nat, size: nat)
    requires prec >= 6 && InputsWithin(inputs, most) && BalanceWithin(opening, size)
    requires 2 * (size + STEP * most + most) < Pow10(prec - 5)
    ensures var row := RowOf(prec, inputs, period, opening, prior);
            && ClosingOf(row, opening) == MovedBy(opening, row, inputs.owned)
            && BalanceWithin(ClosingOf(row, opening), size + STEP * most)
  {
    RowIsExact(prec, inputs, period, opening, prior, most, size);
    if RowOf(prec, inputs, period, opening, prior).projection.Some? {
      var p := RowOf(prec, inputs, period, opening, prior).projection.value;
      ProjectedRow(prec, inputs, period, opening, prior);
      ProjectKeeps(prec, inputs.drivers[period.pair], RepaymentOf(inputs, period.pair), inputs.owned,
        ActualOf(inputs, period.pair), opening);
      DebtTotal(p, inputs.owned);
      CashTotal(p, inputs.owned);
    }
  }

  // Each row leaves its case where its moves put it.
  predicate Conserves(opening: Balance, rows: seq<Row>, owned: bool)
    decreases |rows|
  {
    rows == [] ||
    (ClosingOf(rows[0], opening) == MovedBy(opening, rows[0], owned)
     && Conserves(ClosingOf(rows[0], opening), rows[1..], owned))
  }

  lemma {:induction false} ConservedSums(opening: Balance, rows: seq<Row>, owned: bool)
    requires Conserves(opening, rows, owned)
    ensures LastClosing(rows, opening)
            == Balance(opening.debt + SumDebt(rows, owned), opening.cash + SumCash(rows, owned))
    decreases |rows|
  {
    if rows != [] {
      ConservedSums(ClosingOf(rows[0], opening), rows[1..], owned);
    }
  }

  lemma {:induction false} NetIsDebtLessCash(rows: seq<Row>, owned: bool)
    ensures SumDebt(rows, owned) - SumCash(rows, owned) == SumNet(rows)
  {
    if rows != [] {
      NetIsDebtLessCash(rows[1..], owned);
      if rows[0].projection.Some? {
        NetIsTheDifference(rows[0].projection.value, owned);
      }
    }
  }

  lemma RoomForTheRest(prec: nat, size: nat, most: nat, k: nat)
    requires prec >= 6 && k > 0 && 2 * (Reach(size, most, k) + most) < Pow10(prec - 5)
    ensures 2 * (size + STEP * most + most) < Pow10(prec - 5)
    ensures 2 * (Reach(size + STEP * most, most, k - 1) + most) < Pow10(prec - 5)
  {
    ReachOn(size, most, k - 1);
    ReachOn(size + STEP * most, most, k - 1);
  }

  lemma ConservesOn(opening: Balance, row: Row, rest: seq<Row>, owned: bool)
    requires ClosingOf(row, opening) == MovedBy(opening, row, owned)
    requires Conserves(ClosingOf(row, opening), rest, owned)
    ensures Conserves(opening, [row] + rest, owned)
  {
    assert ([row] + rest)[1..] == rest;
  }

  // A chain's first row conserves, and leaves room for the rest.
  lemma FirstRowConserves(prec: nat, inputs: Inputs, periods: seq<Period>, opening: Balance, prior: bool, most: nat, size: nat)
    returns (row: Row, rest: seq<Row>)
    requires prec >= 6 && InputsWithin(inputs, most) && BalanceWithin(opening, size) && periods != []
    requires 2 * (Reach(size, most, |periods|) + most) < Pow10(prec - 5)
    ensures CaseRows(prec, inputs, periods, opening, prior) == [row] + rest
    ensures rest == CaseRows(prec, inputs, periods[1..], ClosingOf(row, opening), row.reason.Some?)
    ensures ClosingOf(row, opening) == MovedBy(opening, row, inputs.owned)
    ensures BalanceWithin(ClosingOf(row, opening), size + STEP * most)
    ensures 2 * (Reach(size + STEP * most, most, |periods[1..]|) + most) < Pow10(prec - 5)
  {
    row := RowOf(prec, inputs, periods[0], opening, prior);
    rest := CaseRows(prec, inputs, periods[1..], ClosingOf(row, opening), row.reason.Some?);
    ChainUnfolds(prec, inputs, periods, opening, prior);
    RoomForTheRest(prec, size, most, |periods|);
    RowConserves(prec, inputs, periods[0], opening, prior, most, size);
  }

  lemma {:induction false} RowsConserve(prec: nat, inputs: Inputs, periods: seq<Period>, opening: Balance, prior: bool,
                                       most: nat, size: nat, rows: seq<Row>)
    requires prec >= 6 && InputsWithin(inputs, most) && BalanceWithin(opening, size)
    requires 2 * (Reach(size, most, |periods|) + most) < Pow10(prec - 5)
    requires rows == CaseRows(prec, inputs, periods, opening, prior)
    ensures Conserves(opening, rows, inputs.owned)
    decreases |periods|
  {
    if periods != [] {
      var row, rest := FirstRowConserves(prec, inputs, periods, opening, prior, most, size);
      RowsConserve(prec, inputs, periods[1..], ClosingOf(row, opening), row.reason.Some?, most, size + STEP * most, rest);
      ConservesOn(opening, row, rest, inputs.owned);
    }
  }

  // Rows whose closing debt and cash are the opening plus every projected move, and whose net
  // debt moves by no issuance, no repayment and no bridge.
  predicate Balanced(opening: Balance, rows: seq<Row>, owned: bool) {
    var closing := LastClosing(rows, opening);
    && closing == Balance(opening.debt + SumDebt(rows, owned), opening.cash + SumCash(rows, owned))
    && closing.debt - closing.cash == opening.debt - opening.cash + SumNet(rows)
  }

  // Whatever periods are projected, a case's closing debt and cash are its opening plus every
  // projected move, and its net debt moves by no issuance, no repayment and no bridge.
  lemma BalancesAreConserved(prec: nat, inputs: Inputs, periods: seq<Period>, opening: Balance, prior: bool, most: nat, size: nat,
                             rows: seq<Row>)
    requires prec >= 6 && InputsWithin(inputs, most) && BalanceWithin(opening, size)
    requires 2 * (Reach(size, most, |periods|) + most) < Pow10(prec - 5)
    requires rows == CaseRows(prec, inputs, periods, opening, prior)
    ensures Balanced(opening, rows, inputs.owned)
  {
    RowsConserve(prec, inputs, periods, opening, prior, most, size, rows);
    ConservedSums(opening, rows, inputs.owned);
    NetIsDebtLessCash(rows, inputs.owned);
  }
}
