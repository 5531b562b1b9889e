// Three amounts of money around a Copilot call: the charge its AI units settle to, the credit
// cap that follows from its reservation, and the per-token floors under a model's price.
module Settlement {
  import opened Wrappers
  import opened Digits
  import opened Decimals
  import opened Division
  import opened CopilotTrace
  import opened CopilotFigures
  import opened Pricing

  /* ----- settled charges ----- */

  // A quotient kept exactly, or trapped.
  function Quotient(prec: nat, a: Dec, b: Dec): Option<Dec>
    requires prec >= 1 && a.coef >= 0 && b.coef > 0
  {
    Exactly(prec, RawQuotient(prec, a, b))
  }

  const UNIT_DIGITS: nat := 16

  // The charge of so many AI units at a credit price, or unknown.
  function SettledTo(prec: nat, units: Json, credit: Option<Dec>): Option<Dec>
    requires prec >= 1
  {
    if !(units.Num? && units.n.Int? && 0 <= units.n.i < MOST_UNITS) then None
    else if credit.None? || !ValidSpend(credit.value) then None
    else if credit.value.coef == 0 || Width(credit.value.coef) + UNIT_DIGITS > prec then None
    else
      var product := Exactly(prec, Product(Dec(units.n.i, 0), credit.value));
      if product.None? || product.value.coef < 0 then None
      else
        var amount := Quotient(prec, product.value, Dec(NANO_PER_CREDIT, 0));
        if amount.Some? && ValidSpend(amount.value) then amount else None
  }

  function SettledCharge(units: Json, credit: Option<Dec>): Option<Dec> {
    SettledTo(EXACT_DIGITS, units, credit)
  }

  lemma ProductBelow(a: nat, b: nat, x: nat, y: nat)
    requires a < x && b < y
    ensures a * b < x * y
  {
    assert a * b <= a * y;
    assert a * y < x * y;
  }

  lemma WidthOfProduct(a: nat, b: nat)
    ensures Width(a * b) <= Width(a) + Width(b)
  {
    WidthBounds(a);
    WidthBounds(b);
    Pow10Add(Width(a), Width(b));
    ProductBelow(a, b, Pow10(Width(a)), Pow10(Width(b)));
    NarrowEnough(a * b, Width(a) + Width(b));
  }

  lemma NarrowEnough(n: nat, w: nat)
    requires w >= 1 && n < Pow10(w)
    ensures Width(n) <= w
  {
    WidthIs(n, w);
  }

  lemma NarrowIsKept(prec: nat, d: Dec)
    requires prec >= 1 && Width(Abs(d.coef)) <= prec
    ensures Exactly(prec, d) == Some(d)
  {
  }

  lemma {:induction false} NineZeros(c: int)
    ensures Shift(c, 9) == c * NANO_PER_CREDIT
  {
    ThreeZeros(c);
    ThreeZeros(Shift(c, 3));
    ThreeZeros(Shift(c, 6));
    ShiftShift(c, 3, 3);
    ShiftShift(c, 6, 3);
  }

  lemma ThreeZeros(c: int)
    ensures Shift(c, 3) == 1000 * c
  {
    assert Shift(c, 1) == 10 * c;
  }

  lemma TenDigits()
    ensures Width(NANO_PER_CREDIT) == 10
  {
    assert Pow10(3) == 1000;
    Pow10Add(3, 3);
    Pow10Add(6, 3);
    WidthIs(NANO_PER_CREDIT, 10);
  }

  // The division comes out: what is stripped is the number itself, moved up.
  lemma NanoComesOut(prec: nat, p: Dec)
    requires prec >= 1 && p.coef > 0 && Width(p.coef) <= prec
    ensures var k := 2 - Width(p.coef) + prec;
            && k >= 2 && Shift(p.coef, k) > 0
            && RawQuotient(prec, p, Dec(NANO_PER_CREDIT, 0)) == Stripped(Shift(p.coef, k), p.exp - k - 9, p.exp)
  {
    TenDigits();
    var k := 2 - Width(p.coef) + prec;
    ShiftShift(p.coef, k, 9);
    NineZeros(Shift(p.coef, k));
    ShiftGrows(p.coef, k);
    QuotientComesOut(prec, p, Dec(NANO_PER_CREDIT, 0), k + 9, Shift(p.coef, k));
  }

  // Dividing by a thousand million a number the context holds never traps and never rounds:
  // it only moves the exponent.
  lemma NanoQuotient(prec: nat, p: Dec)
    requires prec >= 1 && p.coef >= 0 && Width(p.coef) <= prec
    ensures var q := Quotient(prec, p, Dec(NANO_PER_CREDIT, 0));
            && q.Some? && q.value.coef >= 0
            && Value(q.value) == Level(p.coef as real, p.exp - 9)
            && q.value.exp == (if p.coef == 0 then p.exp else p.exp - 9 + Min(9, Zeros(p.coef)))
            && q.value.exp + Width(q.value.coef) == (if p.coef == 0 then p.exp + 1 else p.exp - 9 + Width(p.coef))
  {
    if p.coef == 0 {
      NarrowIsKept(prec, Dec(0, p.exp));
      LevelZero(p.exp);
      LevelZero(p.exp - 9);
    } else {
      var k := 2 - Width(p.coef) + prec;
      NanoComesOut(prec, p);
      StrippedDigits(p.coef, k, p.exp - k - 9, p.exp);
      StrippedValue(Shift(p.coef, k), p.exp - k - 9, p.exp);
      ShiftedDigits(p.coef, k);
      StrippedIs(Shift(p.coef, k), p.exp - k - 9, p.exp);
      var s := Stripped(Shift(p.coef, k), p.exp - k - 9, p.exp);
      WidthMono(s.coef, p.coef);
      NarrowIsKept(prec, s);
      LevelShift(p.coef, k, p.exp - k - 9);
    }
  }

  lemma WidthMono(a: nat, b: nat)
    requires a <= b
    ensures Width(a) <= Width(b)
  {
    WidthBounds(b);
    WidthIs(a, Width(b));
  }

  // The quotient the host computes.
  function Amount(prec: nat, units: nat, credit: Dec): Option<Dec>
    requires prec >= 1 && credit.coef >= 0
  {
    Quotient(prec, Dec(units * credit.coef, credit.exp), Dec(NANO_PER_CREDIT, 0))
  }

  lemma ProductIsNarrow(prec: nat, units: nat, credit: Dec)
    requires units < MOST_UNITS && credit.coef >= 0 && Width(credit.coef) + UNIT_DIGITS <= prec
    ensures Width(units * credit.coef) <= Width(credit.coef) + UNIT_DIGITS
    ensures Exactly(prec, Product(Dec(units, 0), credit)) == Some(Dec(units * credit.coef, credit.exp))
  {
    UnitsAreNarrow(units);
    WidthOfProduct(units, credit.coef);
    NarrowIsKept(prec, Product(Dec(units, 0), credit));
  }

  lemma AmountIsExact(prec: nat, units: nat, credit: Dec)
    requires units < MOST_UNITS && credit.coef >= 0 && Width(credit.coef) + UNIT_DIGITS <= prec
    ensures Amount(prec, units, credit).Some?
    ensures Many(NANO_PER_CREDIT, Value(Amount(prec, units, credit).value)) == Many(units, Value(credit))
  {
    ProductIsNarrow(prec, units, credit);
    NanoQuotient(prec, Dec(units * credit.coef, credit.exp));
    ProductValue(units, credit);
    NineLevels((units * credit.coef) as real, credit.exp);
  }

  lemma SettledIsAmount(prec: nat, units: nat, credit: Dec)
    requires units < MOST_UNITS && ValidSpend(credit) && credit.coef > 0 && Width(credit.coef) + UNIT_DIGITS <= prec
    ensures var amount := Amount(prec, units, credit);
            SettledTo(prec, Num(Int(units)), Some(credit))
            == if amount.Some? && ValidSpend(amount.value) then amount else None
  {
    ProductIsNarrow(prec, units, credit);
  }

  // A price that charges every count exactly: spendable, not free, and of few enough digits.
  predicate GoodCredit(credit: Dec) {
    ValidSpend(credit) && credit.coef > 0 && Width(credit.coef) + UNIT_DIGITS <= EXACT_DIGITS
  }

  lemma NineLevels(x: real, e: int)
    ensures Many(NANO_PER_CREDIT, Level(x, e - 9)) == Level(x, e)
  {
    ManyTimes(NANO_PER_CREDIT, Level(x, e - 9));
    LevelTen(x, e - 9);
    LevelTen(x, e - 8);
    LevelTen(x, e - 7);
    LevelTen(x, e - 6);
    LevelTen(x, e - 5);
    LevelTen(x, e - 4);
    LevelTen(x, e - 3);
    LevelTen(x, e - 2);
    LevelTen(x, e - 1);
  }

  // Whether the ledger holds the charge of so many units: the place of its last digit and of
  // its first, read off the product.
  predicate Settles(units: nat, credit: Dec)
    requires credit.coef > 0
  {
    units > 0 ==>
      && units * credit.coef > 0
      && credit.exp - 9 + Min(9, Zeros(units * credit.coef)) >= LEAST_EXPONENT
      && credit.exp + Width(units * credit.coef) - 10 < TOP_PLACE
  }

  lemma AmountIsHeld(prec: nat, units: nat, credit: Dec)
    requires units < MOST_UNITS && ValidSpend(credit) && credit.coef > 0 && Width(credit.coef) + UNIT_DIGITS <= prec
    ensures Amount(prec, units, credit).Some?
    ensures ValidSpend(Amount(prec, units, credit).value) <==> Settles(units, credit)
  {
    ProductIsNarrow(prec, units, credit);
    NanoQuotient(prec, Dec(units * credit.coef, credit.exp));
    if units > 0 {
      ZerosOfProduct(units, credit.coef);
    } else {
      assert Width(0) == 1;
    }
  }

  // Past the price's checks, neither the product nor the quotient traps or rounds: the charge
  // is the units' exact value, and unknown exactly when its last digit or its first would
  // stand outside the ledger's places.
  lemma SettlementIsExact(units: nat, credit: Dec)
    requires units < MOST_UNITS && GoodCredit(credit)
    ensures var charge := SettledCharge(Num(Int(units)), Some(credit));
            && (charge.Some? <==> Settles(units, credit))
            && (charge.Some? ==> Many(NANO_PER_CREDIT, Value(charge.value)) == Many(units, Value(credit)))
  {
    AmountIsExact(EXACT_DIGITS, units, credit);
    SettledIsAmount(EXACT_DIGITS, units, credit);
    AmountIsHeld(EXACT_DIGITS, units, credit);
  }

  // A charge is known exactly for a whole count small enough, at a price that charges every
  // count exactly, when the ledger holds it.
  lemma SettledExactlyWhen(units: Json, credit: Option<Dec>)
    ensures SettledCharge(units, credit).Some? <==>
              && (exists n: nat :: n < MOST_UNITS && units == Num(Int(n)) && credit.Some? && GoodCredit(credit.value)
                                   && Settles(n, credit.value))
  {
    if units.Num? && units.n.Int? && 0 <= units.n.i < MOST_UNITS && credit.Some? && GoodCredit(credit.value) {
      SettlementIsExact(units.n.i, credit.value);
    }
  }

  // The ledger holds the charge of one unit's last digit and of the most units' first.
  predicate HoldsUpTo(most: nat, credit: Dec) {
    && credit.coef > 0
    && credit.exp - 9 + Min(9, Zeros(credit.coef)) >= LEAST_EXPONENT
    && credit.exp + Width(most * credit.coef) - 10 < TOP_PLACE
  }

  lemma HeldUpTo(units: nat, most: nat, credit: Dec)
    requires units <= most && HoldsUpTo(most, credit)
    ensures Settles(units, credit)
  {
    if units > 0 {
      ZerosOfProduct(units, credit.coef);
      ProductGrows(units, most, credit.coef);
      WidthMono(units * credit.coef, most * credit.coef);
    }
  }

  lemma ProductGrows(a: nat, b: nat, c: nat)
    requires a <= b
    ensures a * c <= b * c
  {
  }

  lemma EveryCountIsHeld(most: nat, credit: Dec)
    requires most >= 1 && credit.coef > 0
    ensures (forall units: nat :: units <= most ==> Settles(units, credit)) <==> HoldsUpTo(most, credit)
  {
    if HoldsUpTo(most, credit) {
      forall units: nat | units <= most
        ensures Settles(units, credit)
      {
        HeldUpTo(units, most, credit);
      }
    } else {
      assert 1 * credit.coef == credit.coef;
      assert !Settles(1, credit) || !Settles(most, credit);
    }
  }

  // A price settles every count if and only if the ledger holds the last digit of what one
  // unit costs and the first of what the most do.
  lemma EveryCountSettles(credit: Dec)
    requires GoodCredit(credit)
    ensures (forall units: nat :: units <= MOST_UNITS - 1 ==> SettledCharge(Num(Int(units)), Some(credit)).Some?)
            <==> HoldsUpTo(MOST_UNITS - 1, credit)
  {
    forall units: nat | units <= MOST_UNITS - 1
      ensures SettledCharge(Num(Int(units)), Some(credit)).Some? <==> Settles(units, credit)
    {
      SettlementIsExact(units, credit);
    }
    EveryCountIsHeld(MOST_UNITS - 1, credit);
  }

  // One unit at a price the checks pass can have no charge the ledger holds: a credit of one
  // at the least exponent it knows.
  lemma ALeastCreditSettlesNothing()
    ensures GoodCredit(Dec(1, LEAST_EXPONENT))
    ensures SettledCharge(Num(Int(1)), Some(Dec(1, LEAST_EXPONENT))).None?
    ensures SettledCharge(Num(Int(0)), Some(Dec(1, LEAST_EXPONENT))).Some?
  {
    SettlementIsExact(1, Dec(1, LEAST_EXPONENT));
    SettlementIsExact(0, Dec(1, LEAST_EXPONENT));
  }

  /* ----- the session's credit cap ----- */

  const MIN_CREDIT_CAP := 30

  function Ceiling(x: real): int { -((-x).Floor) }

  // Whole credits, rounded up and never below the runtime's floor; no cap without a
  // reservation that names a positive price.
  function CreditCap(amount: Option<Dec>, credit: Option<Dec>): Option<int> {
    if amount.None? || credit.None? || Value(credit.value) == 0.0 then None
    else
      var credits := Ceiling(Value(amount.value) / Value(credit.value));
      Some(if credits > MIN_CREDIT_CAP then credits else MIN_CREDIT_CAP)
  }

  lemma QuotientCovers(x: real, y: real, n: int)
    requires y > 0.0
    ensures x / y <= n as real <==> x <= n as real * y
  {
    assert x / y * y == x;
  }

  // The cap covers the reservation, and no smaller whole number the runtime takes does.
  lemma CapIsTheLeast(amount: Dec, credit: Dec, n: int)
    requires Value(credit) > 0.0
    ensures CreditCap(Some(amount), Some(credit)).Some?
    ensures var cap := CreditCap(Some(amount), Some(credit)).value;
            && cap >= MIN_CREDIT_CAP
            && Value(amount) <= cap as real * Value(credit)
            && (n >= MIN_CREDIT_CAP && Value(amount) <= n as real * Value(credit) ==> cap <= n)
  {
    var x, y := Value(amount), Value(credit);
    var cap := CreditCap(Some(amount), Some(credit)).value;
    QuotientCovers(x, y, cap);
    QuotientCovers(x, y, n);
    assert x / y <= Ceiling(x / y) as real;
  }

  // There is no cap exactly without a reservation, or one that names no price or a price of zero.
  lemma CappedExactlyWhen(amount: Option<Dec>, credit: Option<Dec>)
    ensures CreditCap(amount, credit).Some? <==> amount != None && credit != None && Value(credit.value) != 0.0
  {
  }

  /* ----- price floors ----- */

  // A figure a model listing states: none, something that is no rate, or a rate.
  datatype Listed = Unstated | NoRate | Rate(rate: real)

  predicate Sensible(listed: Listed) { listed.Rate? ==> listed.rate >= 0.0 }

  datatype Tier = Tier(input: Listed, cache: Listed, cacheRead: Listed, cacheWrite: Listed, cacheWriteHour: Listed, output: Listed)

  // What a listing bills at: per batch of tokens, in credits, scaled by its multiplier.
  datatype Billing = Billing(batch: Option<int>, multiplier: Listed, default: Tier, long: Option<Tier>)

  function InputRates(tier: Tier): seq<Listed> {
    [tier.input, tier.cache, tier.cacheRead, tier.cacheWrite, tier.cacheWriteHour]
  }

  // The greatest rate stated; nothing when none is, or any figure stated is no rate.
  function Highest(listed: seq<Listed>): Option<real> {
    if NoRate in listed then None else Greatest(listed)
  }

  function Greatest(listed: seq<Listed>): Option<real> {
    if listed == [] then None
    else
      var rest := Greatest(listed[1..]);
      if !listed[0].Rate? then rest
      else if rest.None? || rest.value < listed[0].rate then Some(listed[0].rate) else rest
  }

  lemma {:induction false} GreatestBounds(listed: seq<Listed>, i: nat)
    requires i < |listed| && listed[i].Rate?
    ensures Greatest(listed).Some? && listed[i].rate <= Greatest(listed).value
  {
    if i > 0 {
      GreatestBounds(listed[1..], i - 1);
      assert listed[1..][i - 1] == listed[i];
    }
  }

  lemma {:induction false} GreatestIsListed(listed: seq<Listed>)
    requires Greatest(listed).Some?
    ensures Rate(Greatest(listed).value) in listed
  {
    if Greatest(listed[1..]).Some? {
      GreatestIsListed(listed[1..]);
    }
  }

  datatype Floors = Floors(input: real, output: real)

  function PriceFloors(billing: Billing, credit: Dec): Option<Floors> {
    if billing.long.None? then None
    else
      var tiers := [billing.default, billing.long.value];
      var multiplier := if billing.multiplier.Unstated? then Rate(1.0) else billing.multiplier;
      var inputs := Highest(InputRates(tiers[0]) + InputRates(tiers[1]));
      var outputs := Highest([tiers[0].output, tiers[1].output]);
      if billing.batch.None? || billing.batch.value <= 0 then None
      else if !multiplier.Rate? || multiplier.rate == 0.0 then None
      else if inputs.None? || outputs.None? then None
      else if tiers[0].input.Unstated? || tiers[0].output.Unstated?
              || tiers[1].input.Unstated? || tiers[1].output.Unstated? then None
      else
        var scale := Value(credit) * multiplier.rate / billing.batch.value as real;
        Some(Floors(inputs.value * scale, outputs.value * scale))
  }

  // Tokens billed at one listed rate.
  datatype Share = Share(tokens: nat, rate: real)

  function Tokens(shares: seq<Share>): nat {
    if shares == [] then 0 else shares[0].tokens + Tokens(shares[1..])
  }

  // A listed rate in dollars a token.
  function Dollars(rate: real, scale: real): real { rate * scale }

  // What the shares cost, each token at its rate.
  function Billed(shares: seq<Share>, scale: real): real {
    if shares == [] then 0.0 else Many(shares[0].tokens, Dollars(shares[0].rate, scale)) + Billed(shares[1..], scale)
  }

  // Every share is at a rate the tiers list.
  predicate ListedAt(shares: seq<Share>, listed: seq<Listed>) {
    forall i :: 0 <= i < |shares| ==> Rate(shares[i].rate) in listed
  }

  lemma {:induction false} ManyJoin(n: nat, m: nat, x: real)
    ensures Many(n + m, x) == Many(n, x) + Many(m, x)
  {
    if n > 0 {
      ManyJoin(n - 1, m, x);
    }
  }

  lemma ListedCostsAtMost(rate: real, listed: seq<Listed>, scale: real)
    requires Rate(rate) in listed && Highest(listed).Some? && scale >= 0.0
    ensures Dollars(rate, scale) <= Dollars(Highest(listed).value, scale)
  {
    var i :| 0 <= i < |listed| && listed[i] == Rate(rate);
    GreatestBounds(listed, i);
  }

  lemma {:induction false} SharesCostAtMost(shares: seq<Share>, listed: seq<Listed>, scale: real, pin: real)
    requires ListedAt(shares, listed) && Highest(listed).Some? && scale >= 0.0
    requires Dollars(Highest(listed).value, scale) <= pin
    ensures Billed(shares, scale) <= Many(Tokens(shares), pin)
  {
    if shares == [] {
      assert Many(0, pin) == 0.0;
    } else {
      var share := shares[0];
      ListedCostsAtMost(share.rate, listed, scale);
      ManyMono(share.tokens, Dollars(share.rate, scale), pin);
      SharesCostAtMost(shares[1..], listed, scale, pin);
      ManyJoin(share.tokens, Tokens(shares[1..]), pin);
    }
  }

  predicate Covers(price: Price, floors: Floors) {
    Value(price.input) >= floors.input && Value(price.output) >= floors.output
  }

  function Scale(billing: Billing, credit: Dec): real
    requires billing.batch.Some? && billing.batch.value > 0
  {
    Value(credit) * (if billing.multiplier.Rate? then billing.multiplier.rate else 1.0) / billing.batch.value as real
  }

  lemma ScaleIsNonNegative(billing: Billing, credit: Dec)
    requires billing.batch.Some? && billing.batch.value > 0 && Sensible(billing.multiplier) && Value(credit) >= 0.0
    ensures Scale(billing, credit) >= 0.0
  {
    var m := if billing.multiplier.Rate? then billing.multiplier.rate else 1.0;
    assert Value(credit) * m >= 0.0;
  }

  function ListedInputs(billing: Billing): seq<Listed>
    requires billing.long.Some?
  {
    InputRates(billing.default) + InputRates(billing.long.value)
  }

  function ListedOutputs(billing: Billing): seq<Listed>
    requires billing.long.Some?
  {
    [billing.default.output, billing.long.value.output]
  }

  // What floors are, when there are any.
  lemma FloorsAre(billing: Billing, credit: Dec)
    requires PriceFloors(billing, credit).Some?
    ensures Highest(ListedInputs(billing)).Some? && Highest(ListedOutputs(billing)).Some?
    ensures PriceFloors(billing, credit).value
            == Floors(Dollars(Highest(ListedInputs(billing)).value, Scale(billing, credit)),
                      Dollars(Highest(ListedOutputs(billing)).value, Scale(billing, credit)))
  {
  }

  lemma {:induction false} HighestIsThere(listed: seq<Listed>)
    ensures Greatest(listed).Some? <==> exists i :: 0 <= i < |listed| && listed[i].Rate?
  {
    if listed != [] {
      HighestIsThere(listed[1..]);
      if i :| 0 <= i < |listed[1..]| && listed[1..][i].Rate? {
        assert listed[i + 1].Rate?;
      }
      if i :| 0 <= i < |listed| && listed[i].Rate? {
        assert i > 0 ==> listed[1..][i - 1].Rate?;
      }
    }
  }

  // Every rate a tier lists is one or is not stated, and its own input and output are.
  predicate Quoted(tier: Tier) {
    && tier.input.Rate? && tier.output.Rate?
    && !tier.cache.NoRate? && !tier.cacheRead.NoRate? && !tier.cacheWrite.NoRate? && !tier.cacheWriteHour.NoRate?
  }

  lemma QuotedInputs(tier: Tier)
    ensures Quoted(tier) <==>
              tier.input.Rate? && tier.output.Rate? && NoRate !in InputRates(tier)
  {
    var listed := InputRates(tier);
    assert listed[0] == tier.input && listed[1] == tier.cache && listed[2] == tier.cacheRead;
    assert listed[3] == tier.cacheWrite && listed[4] == tier.cacheWriteHour;
  }

  // A listing has floors exactly when it states a batch of some tokens, a multiplier that is not
  // zero or none, and both tiers' rates.
  lemma FlooredExactlyWhen(billing: Billing, credit: Dec)
    ensures PriceFloors(billing, credit).Some? <==>
              && billing.batch.Some? && billing.batch.value > 0
              && (billing.multiplier == Unstated || (billing.multiplier.Rate? && billing.multiplier.rate != 0.0))
              && Quoted(billing.default) && billing.long.Some? && Quoted(billing.long.value)
  {
    if billing.long.Some? {
      var a, b := billing.default, billing.long.value;
      var inputs, outputs := InputRates(a) + InputRates(b), [a.output, b.output];
      QuotedInputs(a);
      QuotedInputs(b);
      assert inputs[0] == a.input && outputs[0] == a.output && outputs[1] == b.output;
      assert NoRate in inputs <==> NoRate in InputRates(a) || NoRate in InputRates(b);
      HighestIsThere(inputs);
      HighestIsThere(outputs);
    }
  }

  // A price covers the floors exactly when no token, billed at any rate of either tier, costs
  // more than it.
  lemma CoversExactlyWhen(billing: Billing, credit: Dec, price: Price)
    requires Sensible(billing.multiplier) && Value(credit) >= 0.0 && PriceFloors(billing, credit).Some?
    ensures Covers(price, PriceFloors(billing, credit).value) <==>
              && (forall rate :: Rate(rate) in ListedInputs(billing) ==> Dollars(rate, Scale(billing, credit)) <= Value(price.input))
              && (forall rate :: Rate(rate) in ListedOutputs(billing) ==> Dollars(rate, Scale(billing, credit)) <= Value(price.output))
  {
    var scale := Scale(billing, credit);
    ScaleIsNonNegative(billing, credit);
    FloorsAre(billing, credit);
    GreatestIsListed(ListedInputs(billing));
    GreatestIsListed(ListedOutputs(billing));
    forall rate | Rate(rate) in ListedInputs(billing)
      ensures Dollars(rate, scale) <= Dollars(Highest(ListedInputs(billing)).value, scale)
    {
      ListedCostsAtMost(rate, ListedInputs(billing), scale);
    }
    forall rate | Rate(rate) in ListedOutputs(billing)
      ensures Dollars(rate, scale) <= Dollars(Highest(ListedOutputs(billing)).value, scale)
    {
      ListedCostsAtMost(rate, ListedOutputs(billing), scale);
    }
  }

  lemma SharesAreReserved(shares: seq<Share>, listed: seq<Listed>, scale: real, pin: Dec, most: nat)
    requires ListedAt(shares, listed) && Highest(listed).Some? && scale >= 0.0
    requires Dollars(Highest(listed).value, scale) <= Value(pin) && pin.coef >= 0
    requires Tokens(shares) <= most
    ensures Billed(shares, scale) <= Many(most, Value(pin))
  {
    SharesCostAtMost(shares, listed, scale, Value(pin));
    SpendIsNonNegative(pin);
    ManyGrows(Tokens(shares), most, Value(pin));
  }

  // A pinned price that covers the floors reserves at least what the listing can bill: however
  // a call's tokens are split over every listed rate of both tiers, within the request's bytes
  // and the output cap, they cost no more than the reservation.
  lemma CoveredPinReservesTheBill(billing: Billing, credit: Dec, price: Price, bytes: nat, cap: nat,
                                  inputs: seq<Share>, outputs: seq<Share>)
    requires Sensible(billing.multiplier) && Value(credit) >= 0.0
    requires PriceFloors(billing, credit).Some? && Covers(price, PriceFloors(billing, credit).value)
    requires ListedAt(inputs, ListedInputs(billing)) && ListedAt(outputs, ListedOutputs(billing))
    requires Tokens(inputs) <= bytes && Tokens(outputs) <= cap
    requires PricedRequest(price, bytes, cap).Ok?
    ensures var scale := Scale(billing, credit);
            Billed(inputs, scale) + Billed(outputs, scale) <= Value(PricedRequest(price, bytes, cap).value)
  {
    var scale := Scale(billing, credit);
    ScaleIsNonNegative(billing, credit);
    FloorsAre(billing, credit);
    SharesAreReserved(inputs, ListedInputs(billing), scale, price.input, bytes);
    SharesAreReserved(outputs, ListedOutputs(billing), scale, price.output, cap);
    ReservationIsExact(price, bytes, cap);
  }

  // One token billed at one of the listed rates costs exactly so much.
  ghost predicate IsBilled(listed: seq<Listed>, scale: real, dollars: real) {
    exists rate :: Rate(rate) in listed && Billed([Share(1, rate)], scale) == dollars
  }

  // And no lower floor would do: each is what some token of the listing is billed.
  lemma FloorsAreBilled(billing: Billing, credit: Dec)
    requires PriceFloors(billing, credit).Some?
    ensures IsBilled(ListedInputs(billing), Scale(billing, credit), PriceFloors(billing, credit).value.input)
    ensures IsBilled(ListedOutputs(billing), Scale(billing, credit), PriceFloors(billing, credit).value.output)
  {
    FloorsAre(billing, credit);
    HighestIsBilled(ListedInputs(billing), Scale(billing, credit));
    HighestIsBilled(ListedOutputs(billing), Scale(billing, credit));
  }

  lemma HighestIsBilled(listed: seq<Listed>, scale: real)
    requires Highest(listed).Some?
    ensures IsBilled(listed, scale, Dollars(Highest(listed).value, scale))
  {
    var rate := Highest(listed).value;
    GreatestIsListed(listed);
    assert [Share(1, rate)][1..] == [];
    assert Billed([Share(1, rate)], scale) == Many(1, Dollars(rate, scale)) + Billed([], scale);
    assert Many(1, Dollars(rate, scale)) == Dollars(rate, scale) + Many(0, Dollars(rate, scale));
  }
}
