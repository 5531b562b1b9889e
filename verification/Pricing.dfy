// Prices, reservations and token charges, computed in one exact decimal context: of a
// thousand digits, and refused rather than rounded.
module Pricing {
  import opened Wrappers
  import opened Digits
  import opened Decimals

  const MAX_REQUEST_BYTES: nat := 4_194_304
  const MAX_COMPLETION_TOKENS: nat := 65_536
  const EXACT_DIGITS: nat := 1000

  datatype Refusal = ProviderNotConfigured | MoneyInvalid | ContextOverCeiling

  /* ----- the exact context ----- */

  // A result kept exactly, or the trap of one that would be rounded.
  function Exactly(prec: nat, d: Dec): Option<Dec>
    requires prec >= 1
  {
    if Inexact(prec, d) then None else Some(Fix(prec, d))
  }

  function Product(a: Dec, b: Dec): Dec { Dec(a.coef * b.coef, a.exp + b.exp) }

  lemma ExactlyIsExact(prec: nat, d: Dec)
    requires prec >= 1 && d.coef >= 0 && Exactly(prec, d).Some?
    ensures Exactly(prec, d).value.coef >= 0
    ensures Value(Exactly(prec, d).value) == Value(d)
  {
    FixValue(prec, d);
  }

  lemma ProductValue(n: nat, d: Dec)
    ensures Value(Product(Dec(n, 0), d)) == Many(n, Value(d))
  {
    TimesValue(n, d);
    ManyTimes(n, Value(d));
  }

  /* ----- spend ----- */

  // The ledger's numbers: the least exponent, and the place their first digit stays below.
  const LEAST_EXPONENT := -16383
  const TOP_PLACE := 131072

  // What the ledger can hold: not negative, and within the store's numeric envelope.
  predicate ValidSpend(d: Dec) {
    && d.coef >= 0
    && d.exp >= LEAST_EXPONENT
    && d.exp + Width(Abs(d.coef)) - 1 < TOP_PLACE
  }

  lemma SpendIsNonNegative(d: Dec)
    requires d.coef >= 0
    ensures Value(d) >= 0.0
  {
    LevelMono(0.0, d.coef as real, d.exp);
    LevelZero(d.exp);
  }

  // A dated price of one model, per token.
  datatype Price = Price(model: string, input: Dec, output: Dec)

  // So many tokens of input and output at a price, exactly, or trapped.
  function PricedTo(prec: nat, price: Price, input: nat, output: nat): Option<Dec>
    requires prec >= 1
  {
    var a := Exactly(prec, Product(price.input, Dec(input, 0)));
    var b := Exactly(prec, Product(price.output, Dec(output, 0)));
    if a.None? || b.None? then None else Exactly(prec, Sum(a.value, b.value))
  }

  function Priced(price: Price, input: nat, output: nat): Option<Dec> {
    PricedTo(EXACT_DIGITS, price, input, output)
  }

  function At(price: Price, input: nat, output: nat): real {
    Many(input, Value(price.input)) + Many(output, Value(price.output))
  }

  lemma SumSigned(a: Dec, b: Dec)
    requires a.coef >= 0 && b.coef >= 0
    ensures Sum(a, b).coef >= 0
  {
    var exp := Min(a.exp, b.exp);
    ShiftMono(0, a.coef, a.exp - exp);
    ShiftMono(0, b.coef, b.exp - exp);
    ShiftSum(0, 0, a.exp - exp);
    ShiftSum(0, 0, b.exp - exp);
  }

  lemma TermIsExact(prec: nat, rate: Dec, n: nat)
    requires prec >= 1 && rate.coef >= 0 && Exactly(prec, Product(rate, Dec(n, 0))).Some?
    ensures var term := Exactly(prec, Product(rate, Dec(n, 0))).value;
            term.coef >= 0 && Value(term) == Many(n, Value(rate))
  {
    assert Product(rate, Dec(n, 0)) == Product(Dec(n, 0), rate);
    assert Product(rate, Dec(n, 0)).coef >= 0;
    ExactlyIsExact(prec, Product(rate, Dec(n, 0)));
    ProductValue(n, rate);
  }

  lemma SumIsExact(prec: nat, a: Dec, b: Dec)
    requires prec >= 1 && a.coef >= 0 && b.coef >= 0 && Exactly(prec, Sum(a, b)).Some?
    ensures Value(Exactly(prec, Sum(a, b)).value) == Value(a) + Value(b)
  {
    SumSigned(a, b);
    ExactlyIsExact(prec, Sum(a, b));
    SumValue(a, b);
  }

  lemma PricedParts(prec: nat, price: Price, input: nat, output: nat) returns (a: Dec, b: Dec)
    requires prec >= 1 && PricedTo(prec, price, input, output).Some?
    ensures Exactly(prec, Product(price.input, Dec(input, 0))) == Some(a)
    ensures Exactly(prec, Product(price.output, Dec(output, 0))) == Some(b)
    ensures PricedTo(prec, price, input, output) == Exactly(prec, Sum(a, b))
  {
    a := Exactly(prec, Product(price.input, Dec(input, 0))).value;
    b := Exactly(prec, Product(price.output, Dec(output, 0))).value;
  }

  // A priced amount is the price of those tokens, to the last digit.
  lemma PricedIsExact(prec: nat, price: Price, input: nat, output: nat)
    requires prec >= 1 && price.input.coef >= 0 && price.output.coef >= 0
    requires PricedTo(prec, price, input, output).Some?
    ensures Value(PricedTo(prec, price, input, output).value) == At(price, input, output)
  {
    var a, b := PricedParts(prec, price, input, output);
    TermIsExact(prec, price.input, input);
    TermIsExact(prec, price.output, output);
    SumIsExact(prec, a, b);
  }

  // And one that fits the context comes out: at rates of one exponent, when both coefficients' sum
  // has no more digits than it.
  lemma WhatFitsIsPriced(prec: nat, price: Price, input: nat, output: nat, a: nat, b: nat)
    requires prec >= 1 && price.input.coef >= 0 && price.output.coef >= 0 && price.input.exp == price.output.exp
    requires a == price.input.coef * input && b == price.output.coef * output && a + b < Pow10(prec)
    ensures PricedTo(prec, price, input, output) == Some(Dec(a + b, price.input.exp))
  {
    NarrowIsExact(prec, a, price.input.exp);
    NarrowIsExact(prec, b, price.input.exp);
    NarrowIsExact(prec, a + b, price.input.exp);
    assert Sum(Dec(a, price.input.exp), Dec(b, price.input.exp)) == Dec(a + b, price.input.exp);
  }

  lemma NarrowIsExact(prec: nat, coef: nat, exp: int)
    requires prec >= 1 && coef < Pow10(prec)
    ensures Exactly(prec, Dec(coef, exp)) == Some(Dec(coef, exp))
  {
    WidthIs(coef, prec);
  }

  // The most a call sending so many bytes can cost: what it reserves.
  function PricedRequest(price: Price, requestBytes: int, outputTokens: int): Result<Dec, Refusal> {
    if price.model == "" then Err(ProviderNotConfigured)
    else if !ValidSpend(price.input) || !ValidSpend(price.output) then Err(MoneyInvalid)
    else if requestBytes < 0 then Err(MoneyInvalid)
    else if requestBytes > MAX_REQUEST_BYTES then Err(ContextOverCeiling)
    else if outputTokens < 1 then Err(MoneyInvalid)
    else
      var amount := Priced(price, requestBytes, outputTokens);
      if amount.None? || !ValidSpend(amount.value) || amount.value.coef == 0 then Err(MoneyInvalid)
      else Ok(amount.value)
  }

  // A request is reserved for exactly when it names a model at prices the ledger can hold, sends
  // no more than may be sent, asks for some output, and comes to an amount that is not zero and
  // can be kept; it is over the ceiling exactly for its bytes.
  lemma ReservedExactly(price: Price, requestBytes: int, outputTokens: int)
    ensures var reserved := PricedRequest(price, requestBytes, outputTokens);
            && (reserved.Ok? <==>
                  && price.model != "" && ValidSpend(price.input) && ValidSpend(price.output)
                  && 0 <= requestBytes <= 4 * 1024 * 1024 && outputTokens >= 1
                  && Priced(price, requestBytes, outputTokens).Some?
                  && ValidSpend(Priced(price, requestBytes, outputTokens).value)
                  && Priced(price, requestBytes, outputTokens).value.coef > 0)
            && (reserved == Err(ProviderNotConfigured) <==> price.model == "")
            && (reserved == Err(ContextOverCeiling) <==>
                  && price.model != "" && ValidSpend(price.input) && ValidSpend(price.output)
                  && requestBytes > 4 * 1024 * 1024)
  {
  }

  function WorstCase(price: Price): Result<Dec, Refusal> {
    PricedRequest(price, MAX_REQUEST_BYTES, MAX_COMPLETION_TOKENS)
  }

  /* ----- charges ----- */

  // The token counts a reply states, each absent when it is no whole number.
  datatype Usage = Usage(input: Option<int>, output: Option<int>)

  predicate Counted(count: Option<int>, most: nat) { count.Some? && 0 <= count.value <= most }

  function Charge(usage: Option<Usage>, sent: nat, answered: bool, price: Price): Option<Dec> {
    if usage.None? then None
    else
      var input, output := usage.value.input, usage.value.output;
      if !Counted(input, sent) || !Counted(output, MAX_COMPLETION_TOKENS) then None
      else if input.value == 0 || (answered && output.value == 0) then None
      else
        var amount := Priced(price, input.value, output.value);
        if amount.Some? && ValidSpend(amount.value) then amount else None
  }

  // A charge is known exactly when both counts are stated and possible -- some input and no more
  // than was sent, some output where there was an answer and no more than the cap -- and their
  // price comes out and can be kept.
  lemma ChargedExactly(usage: Option<Usage>, sent: nat, answered: bool, price: Price)
    ensures Charge(usage, sent, answered, price).Some? <==>
              && usage.Some? && usage.value.input.Some? && usage.value.output.Some?
              && 1 <= usage.value.input.value <= sent
              && (if answered then 1 else 0) <= usage.value.output.value <= MAX_COMPLETION_TOKENS
              && Priced(price, usage.value.input.value, usage.value.output.value).Some?
              && ValidSpend(Priced(price, usage.value.input.value, usage.value.output.value).value)
  {
  }

  lemma AtMono(price: Price, input: nat, output: nat, input': nat, output': nat)
    requires price.input.coef >= 0 && price.output.coef >= 0
    requires input <= input' && output <= output'
    ensures At(price, input, output) <= At(price, input', output')
  {
    SpendIsNonNegative(price.input);
    SpendIsNonNegative(price.output);
    ManyGrows(input, input', Value(price.input));
    ManyGrows(output, output', Value(price.output));
  }

  // A reservation is worth exactly its bytes and its output cap, and is never free.
  lemma ReservationIsExact(price: Price, requestBytes: int, outputTokens: int)
    requires PricedRequest(price, requestBytes, outputTokens).Ok?
    ensures 0 <= requestBytes <= MAX_REQUEST_BYTES && outputTokens >= 1
    ensures Value(PricedRequest(price, requestBytes, outputTokens).value) == At(price, requestBytes, outputTokens)
    ensures Value(PricedRequest(price, requestBytes, outputTokens).value) > 0.0
  {
    var amount := PricedRequest(price, requestBytes, outputTokens).value;
    PricedIsExact(EXACT_DIGITS, price, requestBytes, outputTokens);
    LevelMono(amount.coef as real, 0.0, amount.exp);
    LevelZero(amount.exp);
  }

  // A charge accepted for a reply is the price of the tokens it states, and at most what its
  // request reserved.
  lemma ChargeIsReserved(usage: Option<Usage>, sent: nat, answered: bool, price: Price)
    requires Charge(usage, sent, answered, price).Some?
    requires PricedRequest(price, sent, MAX_COMPLETION_TOKENS).Ok?
    ensures Value(Charge(usage, sent, answered, price).value)
            == At(price, usage.value.input.value, usage.value.output.value)
    ensures Value(Charge(usage, sent, answered, price).value)
            <= Value(PricedRequest(price, sent, MAX_COMPLETION_TOKENS).value)
  {
    var input, output := usage.value.input.value, usage.value.output.value;
    PricedIsExact(EXACT_DIGITS, price, input, output);
    ReservationIsExact(price, sent, MAX_COMPLETION_TOKENS);
    AtMono(price, input, output, sent, MAX_COMPLETION_TOKENS);
  }

  // A reservation is at most the worst case a run is admitted against.
  lemma ReservationIsAffordable(price: Price, requestBytes: int)
    requires PricedRequest(price, requestBytes, MAX_COMPLETION_TOKENS).Ok? && WorstCase(price).Ok?
    ensures Value(PricedRequest(price, requestBytes, MAX_COMPLETION_TOKENS).value) <= Value(WorstCase(price).value)
  {
    ReservationIsExact(price, requestBytes, MAX_COMPLETION_TOKENS);
    ReservationIsExact(price, MAX_REQUEST_BYTES, MAX_COMPLETION_TOKENS);
    AtMono(price, requestBytes, MAX_COMPLETION_TOKENS, MAX_REQUEST_BYTES, MAX_COMPLETION_TOKENS);
  }

  /* ----- the models a run may be started on ----- */

  // One listed price as it parses: the model it is for, and the price when it is a good one.
  datatype Entry = Entry(text: string, name: string, price: Option<Price>)

  const MAX_MODEL_CHOICES: nat := 16

  predicate Skipped(entry: Entry, configured: string) { entry.text == "" || entry.text == configured }

  // The listed entries that are read, in order.
  function ReadEntries(listed: seq<Entry>, configured: string): seq<Entry> {
    if listed == [] then []
    else (if Skipped(listed[0], configured) then [] else [listed[0]]) + ReadEntries(listed[1..], configured)
  }

  // The entries read are those with a text of their own, the configured one's apart.
  lemma {:induction false} EntriesReadAre(listed: seq<Entry>, configured: string, entry: Entry)
    ensures entry in ReadEntries(listed, configured) <==>
              entry in listed && entry.text != "" && entry.text != configured
  {
    if listed != [] {
      EntriesReadAre(listed[1..], configured, entry);
      assert listed == [listed[0]] + listed[1..];
    }
  }

  // Every choice is the configured endpoint's price or that of one listed entry, and no
  // model is priced twice.
  predicate Chosen(choices: map<string, Price>, endpoint: string, own: Price, entries: seq<Entry>) {
    && (forall i :: 0 <= i < |entries| ==> entries[i].name != endpoint)
    && (forall i, j :: 0 <= i < j < |entries| ==> entries[i].name != entries[j].name)
    && (forall i :: 0 <= i < |entries| ==> entries[i].price.Some?)
    && endpoint in choices && choices[endpoint] == own
    && (forall i :: 0 <= i < |entries| ==>
          entries[i].name in choices && choices[entries[i].name] == entries[i].price.value)
    && (forall name :: name in choices ==> name == endpoint || Names(entries, name))
    && |choices| == |entries| + 1
  }

  predicate Names(entries: seq<Entry>, name: string) { exists i :: 0 <= i < |entries| && entries[i].name == name }

  predicate Repeats(entries: seq<Entry>) {
    exists i, j :: 0 <= i < j < |entries| && entries[i].name == entries[j].name
  }

  lemma ChosenGrows(choices: map<string, Price>, endpoint: string, own: Price, entries: seq<Entry>, entry: Entry)
    requires Chosen(choices, endpoint, own, entries) && entry.name !in choices && entry.price.Some?
    ensures Chosen(choices[entry.name := entry.price.value], endpoint, own, entries + [entry])
  {
    var made, all := choices[entry.name := entry.price.value], entries + [entry];
    assert made.Keys == choices.Keys + {entry.name};
    forall name | name in made
      ensures name == endpoint || Names(all, name)
    {
      if name in choices && name != endpoint {
        var i :| 0 <= i < |entries| && entries[i].name == name;
        assert all[i].name == name;
      } else {
        assert all[|entries|] == entry;
      }
    }
  }

  // Why an entry stops the list: it prices a model already chosen.
  lemma TwicePriced(choices: map<string, Price>, endpoint: string, own: Price, done: seq<Entry>, all: seq<Entry>)
    requires Chosen(choices, endpoint, own, done)
    requires |done| < |all| && all[..|done|] == done && all[|done|].name in choices
    ensures Names(all, endpoint) || Repeats(all)
  {
    var name := all[|done|].name;
    if name != endpoint {
      var i :| 0 <= i < |done| && done[i].name == name;
      assert all[i] == done[i];
    }
  }

  // One entry more of those listed: passed over, or read next.
  lemma ReadOn(done: seq<Entry>, listed: seq<Entry>, k: nat, configured: string)
    requires k < |listed|
    ensures var all, rest := done + ReadEntries(listed[k..], configured), ReadEntries(listed[k + 1..], configured);
            if Skipped(listed[k], configured) then all == done + rest
            else all == (done + [listed[k]]) + rest && all[|done|] == listed[k] && all[..|done|] == done
  {
    assert listed[k..][1..] == listed[k + 1..];
    var rest := ReadEntries(listed[k + 1..], configured);
    assert done + ([listed[k]] + rest) == (done + [listed[k]]) + rest;
    assert ReadEntries(listed[k..], configured) == (if Skipped(listed[k], configured) then [] else [listed[k]]) + rest;
  }

  // The choices a deployment's list makes, or nothing when an entry is no price, prices a
  // model again, or there are too many: exactly then.
  method ModelChoices(endpoint: string, configured: Entry, listed: seq<Entry>)
    returns (choices: Option<map<string, Price>>)
    ensures var entries := ReadEntries(listed, configured.text);
            && (choices.Some? ==>
                  && configured.price.Some? && |entries| < MAX_MODEL_CHOICES
                  && Chosen(choices.value, endpoint, configured.price.value, entries))
            && (choices.None? ==>
                  || configured.price.None? || |entries| >= MAX_MODEL_CHOICES
                  || (exists i :: 0 <= i < |entries| && entries[i].price.None?)
                  || Names(entries, endpoint) || Repeats(entries))
  {
    if configured.price.None? {
      return None;
    }
    ghost var own := configured.price.value;
    var made := map[endpoint := configured.price.value];
    ghost var all := ReadEntries(listed, configured.text);
    ghost var done: seq<Entry> := [];
    for k := 0 to |listed|
      invariant done + ReadEntries(listed[k..], configured.text) == all
      invariant Chosen(made, endpoint, own, done)
    {
      var entry := listed[k];
      ReadOn(done, listed, k, configured.text);
      if !Skipped(entry, configured.text) {
        if entry.name in made {
          TwicePriced(made, endpoint, own, done, all);
          return None;
        }
        if entry.price.None? {
          return None;
        }
        ChosenGrows(made, endpoint, own, done, entry);
        made := made[entry.name := entry.price.value];
        done := done + [entry];
      }
    }
    assert done == all;
    if |made| > MAX_MODEL_CHOICES {
      return None;
    }
    choices := Some(made);
  }
}
