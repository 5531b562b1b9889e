// A Copilot session's events as the runtime writes them: a type, an agent's envelope, and
// data of any shape. How fields are looked up and walked, and what counts as a figure.
module CopilotTrace {
  import opened Wrappers
  import opened Decimals

  // A number as JSON carries it: a whole number, or a binary float `m` times two to `e`.
  datatype Number = Int(i: int) | Float(m: int, e: int) | NonFinite

  datatype Json =
    | Null
    | Bool(b: bool)
    | Num(n: Number)
    | Str(s: string)
    | List(items: seq<Json>)
    | Obj(fields: seq<Field>)

  datatype Field = Field(key: string, value: Json)

  // The event types this model tells apart; any other keeps its name, and a type that is
  // not text is unreadable.
  datatype Kind =
    | SessionStart | SessionIdle | SessionShutdown | SessionInfo | SessionWarning
    | TitleChanged | UsageInfo | UsageCheckpoint | ModelChange
    | McpServersLoaded | McpServerStatusChanged | SkillsLoaded | ExtensionsLoaded | CustomAgentsUpdated
    | ManagedSettingsResolved | ManagedSettingsEnforced
    | UserMessage | TurnStart | TurnEnd | TurnRetry | AssistantIdle | Reasoning | AssistantMessage | AssistantUsage
    | CallStart | CallFinished | CallFinalResult | CallFailure
    | SessionError | PromptCacheBreak
    | FusionPhaseCompleted | FusionPhaseFailed
    | Other(name: string)
    | Unreadable

  datatype Event = Event(kind: Kind, agentId: Json, data: Json)

  /* ----- fields ----- */

  function Lookup(fields: seq<Field>, key: string): Json {
    if fields == [] then Null
    else if fields[0].key == key then fields[0].value
    else Lookup(fields[1..], key)
  }

  // A field of an object, `Null` when it is absent.
  function Get(value: Json, key: string): Json {
    if value.Obj? then Lookup(value.fields, key) else Null
  }

  // An event's fields, taken as none where its data is no object.
  function DataOf(event: Event): Json {
    if event.data.Obj? then event.data else Obj([])
  }

  // Python's truth of a value.
  predicate Truthy(value: Json) {
    match value
    case Null => false
    case Bool(b) => b
    case Num(Int(i)) => i != 0
    case Num(Float(m, _)) => m != 0
    case Num(NonFinite) => true
    case Str(s) => s != ""
    case List(items) => items != []
    case Obj(fields) => fields != []
  }

  // Every field of a value, at any depth.
  function Pairs(value: Json): seq<Field>
    decreases value, 1
  {
    match value
    case Obj(fields) => PairsOfFields(fields)
    case List(items) => PairsOfItems(items)
    case _ => []
  }

  function PairsOfFields(fields: seq<Field>): seq<Field>
    decreases fields, 0
  {
    if fields == [] then [] else [fields[0]] + Pairs(fields[0].value) + PairsOfFields(fields[1..])
  }

  function PairsOfItems(items: seq<Json>): seq<Field>
    decreases items, 0
  {
    if items == [] then [] else Pairs(items[0]) + PairsOfItems(items[1..])
  }

  lemma OneMoreField(found: seq<Field>, fields: seq<Field>, i: nat)
    requires i < |fields|
    ensures found + PairsOfFields(fields[i..])
            == (found + [fields[i]] + Pairs(fields[i].value)) + PairsOfFields(fields[i + 1..])
  {
    var field, rest := fields[i], PairsOfFields(fields[i + 1..]);
    assert fields[i..][0] == field && fields[i..][1..] == fields[i + 1..];
    assert PairsOfFields(fields[i..]) == [field] + Pairs(field.value) + rest;
    assert found + ([field] + Pairs(field.value) + rest) == (found + [field] + Pairs(field.value)) + rest;
  }

  lemma OneMoreItem(found: seq<Field>, items: seq<Json>, i: nat)
    requires i < |items|
    ensures found + PairsOfItems(items[i..]) == (found + Pairs(items[i])) + PairsOfItems(items[i + 1..])
  {
    var rest := PairsOfItems(items[i + 1..]);
    assert items[i..][0] == items[i] && items[i..][1..] == items[i + 1..];
    assert PairsOfItems(items[i..]) == Pairs(items[i]) + rest;
    assert found + (Pairs(items[i]) + rest) == (found + Pairs(items[i])) + rest;
  }

  // The walk as it is run: a list grown field by field.
  method CollectPairs(value: Json) returns (found: seq<Field>)
    ensures found == Pairs(value)
    decreases value
  {
    found := [];
    if value.Obj? {
      var fields := value.fields;
      assert found + PairsOfFields(fields[0..]) == Pairs(value) by {
        assert fields[0..] == fields;
      }
      for i := 0 to |fields|
        invariant found + PairsOfFields(fields[i..]) == Pairs(value)
      {
        OneMoreField(found, fields, i);
        assert fields[i] in fields;
        var inner := CollectPairs(fields[i].value);
        found := found + [fields[i]] + inner;
      }
      assert found + [] == found;
    } else if value.List? {
      var items := value.items;
      assert found + PairsOfItems(items[0..]) == Pairs(value) by {
        assert items[0..] == items;
      }
      for i := 0 to |items|
        invariant found + PairsOfItems(items[i..]) == Pairs(value)
      {
        OneMoreItem(found, items, i);
        assert items[i] in items;
        var inner := CollectPairs(items[i]);
        found := found + inner;
      }
      assert found + [] == found;
    }
  }

  /* ----- the walk reaches every depth ----- */

  // The value reached by entering, at each step, the field or item of that index.
  function Reached(value: Json, path: seq<nat>): Option<Json> {
    if path == [] then Some(value)
    else if value.Obj? && path[0] < |value.fields| then Reached(value.fields[path[0]].value, path[1..])
    else if value.List? && path[0] < |value.items| then Reached(value.items[path[0]], path[1..])
    else None
  }

  // A field stands at the end of some path into the value.
  ghost predicate StatedIn(value: Json, field: Field) {
    exists path: seq<nat>, i: nat :: HoldsAt(value, path, i, field)
  }

  predicate HoldsAt(value: Json, path: seq<nat>, i: nat, field: Field) {
    var at := Reached(value, path);
    at.Some? && at.value.Obj? && i < |at.value.fields| && at.value.fields[i] == field
  }

  lemma {:induction false} FieldIsWalked(fields: seq<Field>, i: nat)
    requires i < |fields|
    ensures fields[i] in PairsOfFields(fields)
    ensures forall field :: field in Pairs(fields[i].value) ==> field in PairsOfFields(fields)
  {
    if i > 0 {
      FieldIsWalked(fields[1..], i - 1);
      assert fields[1..][i - 1] == fields[i];
    }
  }

  lemma {:induction false} ItemIsWalked(items: seq<Json>, i: nat)
    requires i < |items|
    ensures forall field :: field in Pairs(items[i]) ==> field in PairsOfItems(items)
  {
    if i > 0 {
      ItemIsWalked(items[1..], i - 1);
      assert items[1..][i - 1] == items[i];
    }
  }

  lemma {:induction false} PathIsWalked(value: Json, path: seq<nat>, i: nat, field: Field)
    requires HoldsAt(value, path, i, field)
    ensures field in Pairs(value)
    decreases |path|
  {
    if path == [] {
      FieldIsWalked(value.fields, i);
    } else if value.Obj? {
      PathIsWalked(value.fields[path[0]].value, path[1..], i, field);
      FieldIsWalked(value.fields, path[0]);
    } else {
      PathIsWalked(value.items[path[0]], path[1..], i, field);
      ItemIsWalked(value.items, path[0]);
    }
  }

  lemma {:induction false} WalkedIsStated(value: Json, field: Field)
    requires field in Pairs(value)
    ensures StatedIn(value, field)
    decreases value, 1
  {
    match value
    case Obj(fields) =>
      var k, path, i := WalkedField(fields, field);
      if k == |fields| {
        assert HoldsAt(value, [], i, field);
      } else {
        assert ([k] + path)[1..] == path;
        assert HoldsAt(value, [k] + path, i, field);
      }
    case List(items) =>
      var k, path, i := WalkedItem(items, field);
      assert ([k] + path)[1..] == path;
      assert HoldsAt(value, [k] + path, i, field);
    case _ =>
  }

  // Where a field walked among some fields stands: itself the `i`-th of them (and then
  // `k` is their number), or at a path into the `k`-th's value.
  lemma {:induction false} WalkedField(fields: seq<Field>, field: Field) returns (k: nat, path: seq<nat>, i: nat)
    requires field in PairsOfFields(fields)
    ensures if k == |fields| then i < |fields| && fields[i] == field
            else k < |fields| && HoldsAt(fields[k].value, path, i, field)
    decreases fields, 0
  {
    if field == fields[0] {
      return |fields|, [], 0;
    } else if field in Pairs(fields[0].value) {
      WalkedIsStated(fields[0].value, field);
      path, i :| HoldsAt(fields[0].value, path, i, field);
      k := 0;
    } else {
      k, path, i := WalkedField(fields[1..], field);
      if k == |fields[1..]| {
        i := i + 1;
      } else {
        assert fields[1..][k] == fields[k + 1];
      }
      k := k + 1;
    }
  }

  lemma {:induction false} WalkedItem(items: seq<Json>, field: Field) returns (k: nat, path: seq<nat>, i: nat)
    requires field in PairsOfItems(items)
    ensures k < |items| && HoldsAt(items[k], path, i, field)
    decreases items, 0
  {
    if field in Pairs(items[0]) {
      WalkedIsStated(items[0], field);
      path, i :| HoldsAt(items[0], path, i, field);
      k := 0;
    } else {
      k, path, i := WalkedItem(items[1..], field);
      assert items[1..][k] == items[k + 1];
      k := k + 1;
    }
  }

  // The walk lists exactly the fields stated at some depth: none is missed, none invented.
  lemma WalkIsComplete(value: Json, field: Field)
    ensures field in Pairs(value) <==> StatedIn(value, field)
  {
    if field in Pairs(value) {
      WalkedIsStated(value, field);
    }
    if StatedIn(value, field) {
      var path: seq<nat>, i: nat :| HoldsAt(value, path, i, field);
      PathIsWalked(value, path, i, field);
    }
  }

  /* ----- figures ----- */

  function Doubled(m: int, k: nat): int { if k == 0 then m else 2 * Doubled(m, k - 1) }

  function Fives(m: int, k: nat): int { if k == 0 then m else 5 * Fives(m, k - 1) }

  // A finite number as `Decimal` converts it: exactly.
  function DecimalOf(n: Number): Dec
    requires !n.NonFinite?
  {
    match n
    case Int(i) => Dec(i, 0)
    case Float(m, e) => if e >= 0 then Dec(Doubled(m, e), 0) else Dec(Fives(m, -e), e)
  }

  // A number as a double holds it: 53 bits, and the fraction in its lowest terms.
  predicate IsDouble(n: Number) {
    n.Float? ==> Abs(n.m) < 0x20_0000_0000_0000 && (n.e < 0 ==> n.m % 2 != 0)
  }

  // A finite number that is not negative; a truth value is no number.
  predicate FiniteCount(value: Json) {
    value.Num? && !value.n.NonFinite? && (if value.n.Int? then value.n.i else value.n.m) >= 0
  }

  const MOST_UNITS := 0x20_0000_0000_0000

  // A float's whole value, if it has one.
  function WholeFloat(m: int, e: int): Option<int>
    decreases if e < 0 then -e else 0
  {
    if e >= 0 then Some(Doubled(m, e))
    else if m % 2 == 0 then WholeFloat(m / 2, e + 1)
    else None
  }

  // A whole, non-negative count small enough to be exact, from a number or an integral float.
  function WholeUnits(value: Json): Option<nat> {
    if !value.Num? || value.n.NonFinite? then None
    else
      var whole := if value.n.Int? then Some(value.n.i) else WholeFloat(value.n.m, value.n.e);
      if whole.Some? && 0 <= whole.value < MOST_UNITS then Some(whole.value) else None
  }

  // The real number a figure states.
  function Figure(value: Json): real
    requires FiniteCount(value)
  {
    Value(DecimalOf(value.n))
  }

  lemma {:induction false} FivesHalve(m: int, k: nat)
    ensures 2.0 * Level(Fives(m, k + 1) as real, -(k + 1)) == Level(Fives(m, k) as real, -(k as int))
    ensures m >= 0 ==> Fives(m, k) >= 0
  {
    var x := Fives(m, k) as real;
    assert Fives(m, k + 1) as real == 5.0 * x;
    LevelSum(x, x, -(k + 1));
    LevelSum(x + x, x + x, -(k + 1));
    LevelSum(x + x + x + x, x, -(k + 1));
    LevelTen(x, -(k + 1));
    if k > 0 {
      FivesHalve(m, k - 1);
    }
  }

  // `x` times two to the `e`: what a binary float's parts mean.
  function Binary(x: real, e: int): real
    decreases Abs(e)
  {
    if e == 0 then x else if e > 0 then 2.0 * Binary(x, e - 1) else Binary(x, e + 1) / 2.0
  }

  lemma {:induction false} DoubledIsBinary(m: int, e: nat)
    ensures Doubled(m, e) as real == Binary(m as real, e)
  {
    if e > 0 {
      DoubledIsBinary(m, e - 1);
    }
  }

  lemma {:induction false} FivesAreBinary(m: int, k: nat)
    ensures Level(Fives(m, k) as real, -(k as int)) == Binary(m as real, -(k as int))
  {
    if k > 0 {
      FivesAreBinary(m, k - 1);
      FivesHalve(m, k - 1);
    }
  }

  // The decimal a number is converted to is the number: a whole number itself, a binary float
  // its mantissa times its power of two, to the last digit.
  lemma ConversionIsExact(n: Number)
    requires !n.NonFinite?
    ensures Value(DecimalOf(n)) == match n case Int(i) => i as real case Float(m, e) => Binary(m as real, e)
  {
    match n
    case Int(_) =>
    case Float(m, e) =>
      if e >= 0 {
        DoubledIsBinary(m, e);
      } else {
        FivesAreBinary(m, -e);
      }
  }

  lemma {:induction false} BinaryDoubles(x: real, e: int)
    ensures Binary(2.0 * x, e) == Binary(x, e + 1)
    decreases Abs(e)
  {
    if e > 0 {
      BinaryDoubles(x, e - 1);
    } else if e < 0 {
      BinaryDoubles(x, e + 1);
    }
  }

  lemma {:induction false} BinaryMono(x: real, y: real, e: int)
    ensures x < y ==> Binary(x, e) < Binary(y, e)
    decreases Abs(e)
  {
    if e > 0 {
      BinaryMono(x, y, e - 1);
    } else if e < 0 {
      BinaryMono(x, y, e + 1);
    }
  }

  lemma {:induction false} DoubledFloat(k: int, e: nat)
    ensures Binary(Doubled(k, e) as real, -(e as int)) == k as real
  {
    if e > 0 {
      DoubledFloat(k, e - 1);
      assert Doubled(k, e) as real == 2.0 * (Doubled(k, e - 1) as real);
      BinaryDoubles(Doubled(k, e - 1) as real, -(e as int));
    }
  }

  // A float has a whole value exactly when it is one.
  lemma {:induction false} WholeFloatIs(m: int, e: int, k: int)
    ensures WholeFloat(m, e) == Some(k) <==> Binary(m as real, e) == k as real
    decreases if e < 0 then -e else 0
  {
    if e >= 0 {
      DoubledIsBinary(m, e);
    } else if m % 2 == 0 {
      WholeFloatIs(m / 2, e + 1, k);
      assert m as real == 2.0 * ((m / 2) as real);
      BinaryDoubles((m / 2) as real, e);
    } else {
      OddIsNotWhole(m, e, k);
    }
  }

  // A whole number's mantissa at a lower exponent is even.
  lemma EvenFloat(k: int, n: nat) returns (half: int)
    requires n > 0
    ensures Binary((2 * half) as real, -(n as int)) == k as real
  {
    half := Doubled(k, n - 1);
    DoubledFloat(k, n);
  }

  lemma OddIsNotWhole(m: int, e: int, k: int)
    requires e < 0 && m % 2 != 0
    ensures Binary(m as real, e) != k as real
  {
    var half := EvenFloat(k, -e);
    BinaryMono(m as real, (2 * half) as real, e);
    BinaryMono((2 * half) as real, m as real, e);
  }

  lemma {:induction false} DoubledSigned(m: int, k: nat)
    ensures m >= 0 ==> Doubled(m, k) >= m
  {
    if k > 0 {
      DoubledSigned(m, k - 1);
    }
  }

  lemma FigureIsNonNegative(value: Json)
    requires FiniteCount(value)
    ensures DecimalOf(value.n).coef >= 0 && Figure(value) >= 0.0
  {
    if value.n.Float? {
      if value.n.e >= 0 {
        DoubledSigned(value.n.m, value.n.e);
      } else {
        FivesHalve(value.n.m, -value.n.e);
      }
    }
    var d := DecimalOf(value.n);
    LevelMono(0.0, d.coef as real, d.exp);
    LevelZero(d.exp);
  }
}
