// The bill a Copilot session states: its last checkpoint, when nothing was running before
// it and nothing worked after it, and no figure stated anywhere says otherwise.
module CopilotBill {
  import opened Wrappers
  import opened Digits
  import opened Decimals
  import opened Texts
  import opened CopilotTrace
  import opened CopilotFigures

  /* ----- events by type ----- */

  // What the events of a kind carry, first to last.
  function OfKind(seen: seq<Event>, kind: Kind): seq<Json> {
    if seen == [] then []
    else OfKind(seen[..|seen| - 1], kind)
         + (if seen[|seen| - 1].kind == kind then [DataOf(seen[|seen| - 1])] else [])
  }

  // Where the last event of one type is; before the start when there is none.
  function LastAt(seen: seq<Event>, kind: Kind): (at: int)
    ensures -1 <= at < |seen|
    ensures at >= 0 ==> seen[at].kind == kind
    ensures forall i :: at < i < |seen| ==> seen[i].kind != kind
  {
    if seen == [] then -1
    else if seen[|seen| - 1].kind == kind then |seen| - 1
    else LastAt(seen[..|seen| - 1], kind)
  }

  lemma {:induction false} OfKindJoins(a: seq<Event>, b: seq<Event>, kind: Kind)
    ensures OfKind(a + b, kind) == OfKind(a, kind) + OfKind(b, kind)
  {
    if b == [] {
      assert a + b == a;
    } else {
      assert (a + b)[..|a + b| - 1] == a + b[..|b| - 1];
      OfKindJoins(a, b[..|b| - 1], kind);
    }
  }

  lemma {:induction false} OfKindIs(seen: seq<Event>, kind: Kind)
    ensures forall data :: data in OfKind(seen, kind) <==> exists i :: 0 <= i < |seen| && seen[i].kind == kind && DataOf(seen[i]) == data
  {
    if seen != [] {
      OfKindIs(seen[..|seen| - 1], kind);
    }
  }

  lemma {:induction false} LastOfKind(seen: seq<Event>, kind: Kind)
    ensures OfKind(seen, kind) == [] <==> LastAt(seen, kind) == -1
    ensures LastAt(seen, kind) >= 0 ==>
              OfKind(seen, kind)[|OfKind(seen, kind)| - 1] == DataOf(seen[LastAt(seen, kind)])
  {
    if seen != [] {
      LastOfKind(seen[..|seen| - 1], kind);
    }
  }

  /* ----- dispatches ----- */

  // How many dispatches are running: a finish with none running closes nothing.
  function Running(seen: seq<Event>): nat {
    if seen == [] then 0
    else
      var before := Running(seen[..|seen| - 1]);
      match seen[|seen| - 1].kind
      case CallStart => before + 1
      case CallFinished => if before > 0 then before - 1 else 0
      case _ => before
  }

  predicate DispatchOpen(seen: seq<Event>) { Running(seen) > 0 }

  method FindDispatchOpen(seen: seq<Event>) returns (open: bool)
    ensures open == DispatchOpen(seen)
  {
    var running := 0;
    for i := 0 to |seen|
      invariant running == Running(seen[..i])
    {
      assert seen[..i + 1][..i] == seen[..i];
      if seen[i].kind.CallStart? {
        running := running + 1;
      } else if seen[i].kind.CallFinished? {
        running := if running > 0 then running - 1 else 0;
      }
    }
    assert seen[..|seen|] == seen;
    open := running > 0;
  }

  /* ----- settlement ----- */

  predicate Settles(event: Event) {
    && (event.kind.SessionIdle? || event.kind.SessionError? || event.kind.SessionShutdown?)
    && event.data.Obj?
    && Get(event.data, "eligibleForAutoSwitch") != Bool(true)
  }

  predicate Aborted(event: Event) {
    event.kind.SessionIdle? && Get(DataOf(event), "aborted") == Bool(true)
  }

  predicate SettledAfter(seen: seq<Event>, at: nat)
    requires at < |seen|
  {
    var after := seen[at + 1..];
    && !DispatchOpen(seen[..at])
    && (forall event :: event in after ==> Settles(event))
    && (forall event :: event in seen ==> !Aborted(event))
    && exists event :: event in after && (event.kind.SessionIdle? || event.kind.SessionError?)
  }

  /* ----- figures ----- */

  datatype Unit = Nano | Credits | Premium | NoUnit

  function UnitOf(key: string): Unit {
    if EndsWith(key, "NanoAiu") then Nano
    else if EndsWith(key, "AiCredits") && StartsWith(key, "used") then Credits
    else if EndsWith(key, "PremiumRequests") then Premium
    else NoUnit
  }

  // A field that passes against a total and a premium count: one that states no unit, or whose
  // count, converted to its unit's bound, does not exceed it.
  predicate Held(field: Field, total: nat, premium: Json) {
    var unit, value := UnitOf(field.key), field.value;
    unit.NoUnit? ||
    (FiniteCount(value) &&
     match unit
     case Nano => Figure(value) <= total as real
     case Credits => Value(InNano(value)) <= total as real
     case _ => !Truthy(value) || (FiniteCount(premium) && Figure(value) <= Figure(premium)))
  }

  predicate SubAgentField(field: Field) {
    || field.key == "consumedNanoAiu"
    || ((field.key == "agentMetrics" || field.key == "consumedSubagents") && Truthy(field.value))
  }

  predicate SubAgent(event: Event) {
    || !event.agentId.Null?
    || (event.kind.Other? && (StartsWith(event.kind.name, "subagent.") || StartsWith(event.kind.name, "workflow.")))
    || exists field :: field in Pairs(event.data) && SubAgentField(field)
  }

  const USAGE := "copilotUsage"

  function ValuesNamed(fields: seq<Field>, key: string): seq<Json> {
    if fields == [] then []
    else (if fields[0].key == key && !fields[0].value.Null? then [fields[0].value] else []) + ValuesNamed(fields[1..], key)
  }

  predicate IsPhase(kind: Kind) { kind.FusionPhaseCompleted? || kind.FusionPhaseFailed? }

  // The per-request spend blocks one event states.
  function Asked(event: Event): seq<Json> {
    ValuesNamed(Pairs(event.data), USAGE)
    + if IsPhase(event.kind) && event.data.Obj? && !Get(event.data, "usage").Null? then [Get(event.data, "usage")] else []
  }

  function Requests(seen: seq<Event>): seq<Json> {
    if seen == [] then [] else Requests(seen[..|seen| - 1]) + Asked(seen[|seen| - 1])
  }

  function Values(fields: seq<Field>): seq<Json> {
    if fields == [] then [] else [fields[0].value] + Values(fields[1..])
  }

  predicate ShutdownAgrees(data: Json, total: nat) {
    var stated, metrics := Get(data, TOTAL), Get(data, "modelMetrics");
    && (stated.Null? || WholeUnits(stated) == Some(total))
    && metrics.Obj?
    && Summed(Values(metrics.fields)).Some?
    && Value(Summed(Values(metrics.fields)).value) <= total as real
  }

  predicate FiguresAgree(seen: seq<Event>, total: nat, premium: Json) {
    && (forall event :: event in seen ==> !SubAgent(event))
    && Summed(Requests(seen)).Some?
    && Value(Summed(Requests(seen)).value) <= total as real
    && (forall event :: event in seen ==> forall field :: field in Pairs(event.data) ==> Held(field, total, premium))
    && (forall data :: data in OfKind(seen, SessionShutdown) ==> ShutdownAgrees(data, total))
  }

  /* ----- the bill ----- */

  function Stated(mark: Json): Option<nat> { WholeUnits(Get(mark, TOTAL)) }

  // Checkpoints that can be read and never fall.
  predicate Climbing(marks: seq<Json>) {
    && (forall i :: 0 <= i < |marks| ==> Stated(marks[i]).Some?)
    && (forall i :: 0 < i < |marks| ==> Stated(marks[i - 1]).value <= Stated(marks[i]).value)
  }

  function AiUnits(seen: seq<Event>): Option<nat> {
    var marks := OfKind(seen, UsageCheckpoint);
    var at := LastAt(seen, UsageCheckpoint);
    if at < 0 || marks == [] || !Climbing(marks) then None
    else
      var last := marks[|marks| - 1];
      var total := Stated(last).value;
      if SettledAfter(seen, at) && FiguresAgree(seen, total, Get(last, "totalPremiumRequests")) then Some(total) else None
  }

  // The figures a reply carries: none when there was no checkpoint to read them from, and no
  // zero count beside work that may have cost something.
  datatype Line = NoBill | Line(nano: Option<nat>, premium: Option<Number>)

  function Bill(seen: seq<Event>, worked: bool): Line {
    var marks := OfKind(seen, UsageCheckpoint);
    if marks == [] then NoBill
    else
      var units := AiUnits(seen);
      var premium := Get(marks[|marks| - 1], "totalPremiumRequests");
      Line(if units.Some? && (units.value > 0 || !worked) then units else None,
           if FiniteCount(premium) then Some(premium.n) else None)
  }

  // Whether a session is settled after its checkpoint and no figure says otherwise.
  predicate Reconciled(seen: seq<Event>, at: nat, total: nat, premium: Json)
    requires at < |seen|
  {
    SettledAfter(seen, at) && FiguresAgree(seen, total, premium)
  }

  // The checkpoints' totals, each read in turn; nothing once one is no whole count, or falls.
  method ReadTotals(marks: seq<Json>) returns (totals: Option<seq<nat>>)
    ensures totals.Some? <==> Climbing(marks)
    ensures totals.Some? ==> |totals.value| == |marks| && forall j :: 0 <= j < |marks| ==> Stated(marks[j]) == Some(totals.value[j])
  {
    var made: seq<nat> := [];
    for i := 0 to |marks|
      invariant |made| == i
      invariant forall j :: 0 <= j < i ==> Stated(marks[j]) == Some(made[j])
      invariant forall j :: 0 < j < i ==> made[j - 1] <= made[j]
    {
      var total := Stated(marks[i]);
      if total.None? || (made != [] && total.value < made[|made| - 1]) {
        return None;
      }
      made := made + [total.value];
    }
    totals := Some(made);
  }

  // The units as they are read: the checkpoints, then the session as a whole.
  method ReadUnits(seen: seq<Event>) returns (units: Option<nat>)
    requires LastAt(seen, UsageCheckpoint) >= 0
    ensures units == AiUnits(seen)
  {
    var marks, at := OfKind(seen, UsageCheckpoint), LastAt(seen, UsageCheckpoint);
    LastOfKind(seen, UsageCheckpoint);
    var totals := ReadTotals(marks);
    if totals.None? {
      return None;
    }
    var total := totals.value[|totals.value| - 1];
    UnitsAre(seen, at, marks, total);
    var agreed := Reconciled(seen, at, total, Get(marks[|marks| - 1], "totalPremiumRequests"));
    units := if agreed then Some(total) else None;
  }

  /* ----- never the lower figure ----- */

  lemma {:induction false} ClimbsTo(marks: seq<Json>, i: nat)
    requires Climbing(marks) && i < |marks|
    ensures Stated(marks[i]).value <= Stated(marks[|marks| - 1]).value
    decreases |marks| - i
  {
    if i + 1 < |marks| {
      ClimbsTo(marks, i + 1);
    }
  }

  // The bill is the last checkpoint's total and the greatest of them all.
  lemma BillIsTheGreatestCheckpoint(seen: seq<Event>)
    requires AiUnits(seen).Some?
    ensures var marks := OfKind(seen, UsageCheckpoint);
            && marks != [] && Stated(marks[|marks| - 1]) == AiUnits(seen)
            && forall i :: 0 <= i < |marks| ==> Stated(marks[i]).Some? && Stated(marks[i]).value <= AiUnits(seen).value
  {
    var marks := OfKind(seen, UsageCheckpoint);
    forall i | 0 <= i < |marks|
      ensures Stated(marks[i]).Some? && Stated(marks[i]).value <= AiUnits(seen).value
    {
      ClimbsTo(marks, i);
    }
  }

  lemma BillIsSmall(seen: seq<Event>)
    requires AiUnits(seen).Some?
    ensures AiUnits(seen).value < MOST_UNITS
  {
  }

  // However deep in an event a figure is nested, the bill is no less: nano-AIU as they are, AI
  // credits at a thousand million nano-AIU each.
  lemma BillCoversEveryFigure(seen: seq<Event>, event: Event, field: Field)
    requires AiUnits(seen).Some? && event in seen && StatedIn(event.data, field)
    ensures UnitOf(field.key).Nano? ==> FiniteCount(field.value) && Figure(field.value) <= AiUnits(seen).value as real
    ensures UnitOf(field.key).Credits? ==>
              && FiniteCount(field.value)
              && (IsDouble(field.value.n) ==>
                    NANO_PER_CREDIT as real * Figure(field.value) <= AiUnits(seen).value as real)
  {
    WalkIsComplete(event.data, field);
    assert field in Pairs(event.data);
    BillIsSmall(seen);
    if UnitOf(field.key).Credits? && IsDouble(field.value.n) {
      CreditsHeldExactly(field.value, AiUnits(seen).value);
    }
  }

  // The requests' figures come to no more than it, but for the rounding of the sum.
  lemma BillCoversTheRequests(seen: seq<Event>)
    requires AiUnits(seen).Some?
    ensures forall figure :: figure in Figures(Requests(seen)) ==> FiniteCount(figure)
    ensures CloselyHeld(PRECISION, Figures(Requests(seen)), AiUnits(seen).value)
  {
    SummedIsNear(Requests(seen));
    HeldSumIsClose(Requests(seen), AiUnits(seen).value);
  }

  // And to no more at all when they are coarse enough -- at most twelve binary places, whole
  // counts always -- however many there are.
  lemma BillCoversCoarseRequests(seen: seq<Event>)
    requires AiUnits(seen).Some?
    requires forall figure :: figure in Figures(Requests(seen)) ==> NoFinerThan(figure, COARSE_PLACES)
    ensures ExactSum(Figures(Requests(seen))) <= AiUnits(seen).value as real
  {
    BillIsSmall(seen);
    CoarseSumIsHeld(Requests(seen), AiUnits(seen).value, COARSE_PLACES);
  }

  // Or when they are few enough for how fine they are.
  lemma BillCoversFewRequests(seen: seq<Event>, k: nat)
    requires AiUnits(seen).Some?
    requires forall figure :: figure in Figures(Requests(seen)) ==> NoFinerThan(figure, k)
    requires |Figures(Requests(seen))| * Doubled(AiUnits(seen).value, k) < 2 * Pow10(PRECISION - 1)
    ensures ExactSum(Figures(Requests(seen))) <= AiUnits(seen).value as real
  {
    FewSumsAreHeld(Requests(seen), AiUnits(seen).value, k);
  }

  // Every session total a shutdown states is the bill itself.
  lemma BillIsTheSessionTotal(seen: seq<Event>, event: Event)
    requires AiUnits(seen).Some? && event in seen && event.kind.SessionShutdown?
    ensures !Get(DataOf(event), TOTAL).Null? ==> WholeUnits(Get(DataOf(event), TOTAL)) == AiUnits(seen)
  {
    OfKindIs(seen, SessionShutdown);
    var i :| 0 <= i < |seen| && seen[i] == event;
    assert DataOf(event) in OfKind(seen, SessionShutdown);
  }

  /* ----- the bill is the meter ----- */

  // What the runtime's own meter shows, and which dispatches it has running.
  datatype Reading = Reading(meter: nat, running: set<nat>)

  // One event of a metered runtime: a dispatch starts and finishes once; a checkpoint states
  // the meter; the meter moves only at an event that works, or while a dispatch runs.
  ghost predicate MeterStep(before: Reading, event: Event, after: Reading) {
    && (after.meter == before.meter || !Settles(event) || before.running != {})
    && (event.kind.UsageCheckpoint? && Stated(DataOf(event)).Some? ==> Stated(DataOf(event)).value == after.meter)
    && (match event.kind
        case CallStart => exists id :: id !in before.running && after.running == before.running + {id}
        case CallFinished => exists id :: id in before.running && after.running == before.running - {id}
        case _ => after.running == before.running)
  }

  ghost predicate MeteredRun(seen: seq<Event>, readings: seq<Reading>) {
    && |readings| == |seen| + 1
    && readings[0].running == {}
    && forall i :: 0 <= i < |seen| ==> MeterStep(readings[i], seen[i], readings[i + 1])
  }

  // How one event moves the count of dispatches.
  function Counted(kind: Kind, before: nat): nat {
    match kind
    case CallStart => before + 1
    case CallFinished => if before > 0 then before - 1 else 0
    case _ => before
  }

  lemma StepCounts(before: Reading, event: Event, after: Reading)
    requires MeterStep(before, event, after)
    ensures |after.running| == Counted(event.kind, |before.running|)
  {
  }

  lemma RunningCounts(seen: seq<Event>, i: nat)
    requires i < |seen|
    ensures Running(seen[..i + 1]) == Counted(seen[i].kind, Running(seen[..i]))
  {
    assert seen[..i + 1][..i] == seen[..i];
  }

  lemma {:induction false} CounterIsOpenSet(seen: seq<Event>, readings: seq<Reading>, i: nat)
    requires MeteredRun(seen, readings) && i <= |seen|
    ensures Running(seen[..i]) == |readings[i].running|
  {
    if i > 0 {
      CounterIsOpenSet(seen, readings, i - 1);
      RunningCounts(seen, i - 1);
      StepCounts(readings[i - 1], seen[i - 1], readings[i]);
    }
  }

  lemma {:induction false} MeterRests(seen: seq<Event>, readings: seq<Reading>, from: nat, i: nat)
    requires MeteredRun(seen, readings) && from <= i <= |seen|
    requires readings[from].running == {}
    requires forall k :: from <= k < |seen| ==> Settles(seen[k])
    ensures readings[i] == readings[from]
  {
    if i > from {
      MeterRests(seen, readings, from, i - 1);
      assert MeterStep(readings[i - 1], seen[i - 1], readings[i]);
    }
  }

  // Units are read only of a session settled after its last checkpoint, which states them.
  lemma UnitsAreSettled(seen: seq<Event>) returns (at: nat)
    requires AiUnits(seen).Some?
    ensures at == LastAt(seen, UsageCheckpoint) && at < |seen| && seen[at].kind == UsageCheckpoint
    ensures Stated(DataOf(seen[at])) == AiUnits(seen)
    ensures !DispatchOpen(seen[..at]) && forall k :: at + 1 <= k < |seen| ==> Settles(seen[k])
  {
    at := LastAt(seen, UsageCheckpoint);
    LastOfKind(seen, UsageCheckpoint);
    forall k | at + 1 <= k < |seen|
      ensures Settles(seen[k])
    {
      assert seen[k] == seen[at + 1..][k - at - 1];
    }
  }

  // Sound: whatever the runtime did, units the host reads are what its meter shows at the end.
  lemma BillIsTheMeter(seen: seq<Event>, readings: seq<Reading>)
    requires MeteredRun(seen, readings) && AiUnits(seen).Some?
    ensures AiUnits(seen).value == readings[|seen|].meter
  {
    var at := UnitsAreSettled(seen);
    CounterIsOpenSet(seen, readings, at);
    assert MeterStep(readings[at], seen[at], readings[at + 1]);
    assert readings[at + 1].running == {};
    MeterRests(seen, readings, at + 1, |seen|);
  }

  /* ----- a quiet ending leaves the bill as it was ----- */

  predicate StatesNoFigure(event: Event) {
    forall field :: field in Pairs(event.data) ==> UnitOf(field.key).NoUnit?
  }

  // A settling event that is no sub-agent's, aborts nothing and states no figure.
  predicate CleanEnding(event: Event) {
    Settles(event) && !SubAgent(event) && !Aborted(event) && StatesNoFigure(event)
  }

  // Its usage blocks, and a shutdown's metrics, are objects.
  predicate ReadableEnding(event: Event) {
    && (forall block :: block in Asked(event) ==> block.Obj?)
    && (event.kind.SessionShutdown? ==>
          && Get(event.data, "modelMetrics").Obj?
          && forall block :: block in Values(Get(event.data, "modelMetrics").fields) ==> block.Obj?)
  }

  lemma {:induction false} PairsNest(value: Json, outer: Field, inner: Field)
    requires outer in Pairs(value) && inner in Pairs(outer.value)
    ensures inner in Pairs(value)
    decreases value, 1
  {
    match value
    case Obj(fields) => PairsNestInFields(fields, outer, inner);
    case List(items) => PairsNestInItems(items, outer, inner);
    case _ =>
  }

  lemma {:induction false} PairsNestInFields(fields: seq<Field>, outer: Field, inner: Field)
    requires outer in PairsOfFields(fields) && inner in Pairs(outer.value)
    ensures inner in PairsOfFields(fields)
    decreases fields, 0
  {
    if outer == fields[0] {
    } else if outer in Pairs(fields[0].value) {
      PairsNest(fields[0].value, outer, inner);
    } else {
      PairsNestInFields(fields[1..], outer, inner);
    }
  }

  lemma {:induction false} PairsNestInItems(items: seq<Json>, outer: Field, inner: Field)
    requires outer in PairsOfItems(items) && inner in Pairs(outer.value)
    ensures inner in PairsOfItems(items)
    decreases items, 0
  {
    if outer in Pairs(items[0]) {
      PairsNest(items[0], outer, inner);
    } else {
      PairsNestInItems(items[1..], outer, inner);
    }
  }

  lemma {:induction false} LookupIsAField(fields: seq<Field>, key: string)
    requires !Lookup(fields, key).Null?
    ensures Field(key, Lookup(fields, key)) in fields
  {
    if fields[0].key != key {
      LookupIsAField(fields[1..], key);
    }
  }

  lemma GotIsWalked(value: Json, key: string)
    requires !Get(value, key).Null?
    ensures Field(key, Get(value, key)) in Pairs(value)
  {
    LookupIsAField(value.fields, key);
    var i :| 0 <= i < |value.fields| && value.fields[i] == Field(key, Get(value, key));
    FieldIsWalked(value.fields, i);
  }

  lemma {:induction false} ValueIsNamed(fields: seq<Field>, key: string, block: Json)
    requires block in ValuesNamed(fields, key)
    ensures Field(key, block) in fields
  {
    if !(fields[0].key == key && fields[0].value == block) {
      ValueIsNamed(fields[1..], key, block);
    }
  }

  lemma {:induction false} ValueIsAField(fields: seq<Field>, block: Json)
    requires block in Values(fields)
    ensures exists i :: 0 <= i < |fields| && fields[i].value == block
  {
    if fields[0].value != block {
      ValueIsAField(fields[1..], block);
    }
  }

  predicate FigureFree(block: Json) { Get(block, TOTAL).Null? }

  lemma NoFigureInside(event: Event, key: string, block: Json)
    requires StatesNoFigure(event) && Field(key, block) in Pairs(event.data)
    ensures FigureFree(block)
  {
    if !FigureFree(block) {
      GotIsWalked(block, TOTAL);
      PairsNest(event.data, Field(key, block), Field(TOTAL, Get(block, TOTAL)));
    }
  }

  lemma EndingAsksNothing(event: Event)
    requires CleanEnding(event)
    ensures forall block :: block in Asked(event) ==> FigureFree(block)
  {
    forall block | block in Asked(event)
      ensures FigureFree(block)
    {
      ValueIsNamed(Pairs(event.data), USAGE, block);
      NoFigureInside(event, USAGE, block);
    }
  }

  lemma {:induction false} FigureFreeSum(prec: nat, total: Dec, blocks: seq<Json>)
    requires prec >= 1
    requires forall block :: block in blocks ==> FigureFree(block)
    ensures SummedOnto(prec, total, blocks)
            == if (forall block :: block in blocks ==> block.Obj?) then Some(total) else None
    decreases |blocks|
  {
    if blocks != [] && blocks[0].Obj? {
      assert FigureFree(blocks[0]);
      FigureFreeSum(prec, total, blocks[1..]);
      assert forall block :: block in blocks <==> block == blocks[0] || block in blocks[1..];
    }
  }

  lemma {:induction false} SummedJoins(prec: nat, total: Dec, a: seq<Json>, b: seq<Json>)
    requires prec >= 1
    ensures SummedOnto(prec, total, a + b)
            == if SummedOnto(prec, total, a).None? then None else SummedOnto(prec, SummedOnto(prec, total, a).value, b)
    decreases |a|
  {
    if a == [] {
      assert a + b == b;
    } else {
      assert (a + b)[1..] == a[1..] + b;
      var figure := Get(a[0], TOTAL);
      if figure.Null? {
        SummedJoins(prec, total, a[1..], b);
      } else if FiniteCount(figure) {
        SummedJoins(prec, Fix(prec, Sum(total, DecimalOf(figure.n))), a[1..], b);
      }
    }
  }

  lemma MetricsAreFree(event: Event)
    requires CleanEnding(event) && Get(event.data, "modelMetrics").Obj?
    ensures forall block :: block in Values(Get(event.data, "modelMetrics").fields) ==> FigureFree(block)
  {
    var metrics := Get(event.data, "modelMetrics");
    GotIsWalked(event.data, "modelMetrics");
    forall block | block in Values(metrics.fields)
      ensures FigureFree(block)
    {
      ValueIsAField(metrics.fields, block);
      var i :| 0 <= i < |metrics.fields| && metrics.fields[i].value == block;
      FieldIsWalked(metrics.fields, i);
      PairsNest(event.data, Field("modelMetrics", metrics), metrics.fields[i]);
      NoFigureInside(event, metrics.fields[i].key, block);
    }
  }

  lemma FreeMetricsSum(blocks: seq<Json>, total: nat)
    requires forall block :: block in blocks ==> FigureFree(block)
    ensures Summed(blocks).Some? && Value(Summed(blocks).value) <= total as real <==> forall block :: block in blocks ==> block.Obj?
  {
    FigureFreeSum(PRECISION, Dec(0, 0), blocks);
    LevelZero(0);
  }

  // What a shutdown that states no figure adds: it agrees exactly when it can be read.
  lemma EndingShutdownAgrees(event: Event, total: nat)
    requires CleanEnding(event) && event.kind.SessionShutdown?
    ensures ShutdownAgrees(DataOf(event), total) <==>
              var metrics := Get(event.data, "modelMetrics");
              metrics.Obj? && forall block :: block in Values(metrics.fields) ==> block.Obj?
  {
    var metrics := Get(event.data, "modelMetrics");
    if !FigureFree(event.data) {
      GotIsWalked(event.data, TOTAL);
    }
    if metrics.Obj? {
      MetricsAreFree(event);
      FreeMetricsSum(Values(metrics.fields), total);
    }
  }

  lemma {:induction false} RequestsJoin(a: seq<Event>, b: seq<Event>)
    ensures Requests(a + b) == Requests(a) + Requests(b)
    decreases |b|
  {
    if b == [] {
      assert a + b == a;
    } else {
      assert (a + b)[..|a + b| - 1] == a + b[..|b| - 1];
      RequestsJoin(a, b[..|b| - 1]);
    }
  }

  lemma {:induction false} AskedIsRequested(seen: seq<Event>, i: nat, block: Json)
    requires i < |seen| && block in Asked(seen[i])
    ensures block in Requests(seen)
  {
    if i < |seen| - 1 {
      AskedIsRequested(seen[..|seen| - 1], i, block);
    }
  }

  lemma {:induction false} RequestIsAsked(seen: seq<Event>, block: Json) returns (i: nat)
    requires block in Requests(seen)
    ensures i < |seen| && block in Asked(seen[i])
  {
    if block in Asked(seen[|seen| - 1]) {
      i := |seen| - 1;
    } else {
      i := RequestIsAsked(seen[..|seen| - 1], block);
    }
  }

  lemma EndingRequestsAreFree(more: seq<Event>)
    requires forall event :: event in more ==> CleanEnding(event)
    ensures forall block :: block in Requests(more) ==> FigureFree(block)
  {
    forall block | block in Requests(more)
      ensures FigureFree(block)
    {
      var i := RequestIsAsked(more, block);
      EndingAsksNothing(more[i]);
    }
  }

  lemma {:induction false} EndingHasNoMarks(seen: seq<Event>, more: seq<Event>)
    requires forall event :: event in more ==> Settles(event)
    ensures OfKind(seen + more, UsageCheckpoint) == OfKind(seen, UsageCheckpoint)
    ensures LastAt(seen + more, UsageCheckpoint) == LastAt(seen, UsageCheckpoint)
    decreases |more|
  {
    if more == [] {
      assert seen + more == seen;
    } else {
      assert (seen + more)[..|seen + more| - 1] == seen + more[..|more| - 1];
      assert more[|more| - 1] in more;
      EndingHasNoMarks(seen, more[..|more| - 1]);
    }
  }

  lemma EndingStaysSettled(seen: seq<Event>, more: seq<Event>, at: nat)
    requires at < |seen| && SettledAfter(seen, at)
    requires forall event :: event in more ==> CleanEnding(event)
    ensures SettledAfter(seen + more, at)
  {
    assert (seen + more)[..at] == seen[..at];
    assert (seen + more)[at + 1..] == seen[at + 1..] + more;
  }

  lemma EndingFiguresAgree(seen: seq<Event>, more: seq<Event>, total: nat, premium: Json)
    requires FiguresAgree(seen, total, premium)
    requires forall event :: event in more ==> CleanEnding(event)
    ensures FiguresAgree(seen + more, total, premium) <==>
              && (forall block :: block in Requests(more) ==> block.Obj?)
              && (forall data :: data in OfKind(more, SessionShutdown) ==> ShutdownAgrees(data, total))
  {
    RequestsJoin(seen, more);
    EndingRequestsAreFree(more);
    SummedJoins(PRECISION, Dec(0, 0), Requests(seen), Requests(more));
    FigureFreeSum(PRECISION, Summed(Requests(seen)).value, Requests(more));
    OfKindJoins(seen, more, SessionShutdown);
  }

  lemma ReadableEndings(more: seq<Event>, total: nat)
    requires forall event :: event in more ==> CleanEnding(event)
    ensures (forall event :: event in more ==> ReadableEnding(event)) <==>
              && (forall block :: block in Requests(more) ==> block.Obj?)
              && (forall data :: data in OfKind(more, SessionShutdown) ==> ShutdownAgrees(data, total))
  {
    forall event | event in more
      ensures ReadableEnding(event) <==>
                && (forall block :: block in Asked(event) ==> block.Obj?)
                && (event.kind.SessionShutdown? ==> ShutdownAgrees(DataOf(event), total))
    {
      if event.kind.SessionShutdown? {
        EndingShutdownAgrees(event, total);
      }
    }
    OfKindIs(more, SessionShutdown);
    forall block
      ensures block in Requests(more) <==> exists event :: event in more && block in Asked(event)
    {
      if block in Requests(more) {
        var i := RequestIsAsked(more, block);
      }
      if event :| event in more && block in Asked(event) {
        var i :| 0 <= i < |more| && more[i] == event;
        AskedIsRequested(more, i, block);
      }
    }
  }

  // What units are, once their session's checkpoints climb to a total.
  lemma UnitsAre(seen: seq<Event>, at: nat, marks: seq<Json>, total: nat)
    requires LastAt(seen, UsageCheckpoint) == at && OfKind(seen, UsageCheckpoint) == marks
    requires marks != [] && Climbing(marks) && Stated(marks[|marks| - 1]) == Some(total)
    ensures AiUnits(seen) ==
            if SettledAfter(seen, at) && FiguresAgree(seen, total, Get(marks[|marks| - 1], "totalPremiumRequests"))
            then Some(total) else None
  {
  }

  lemma UnitsCameFrom(seen: seq<Event>) returns (at: nat, marks: seq<Json>, total: nat)
    requires AiUnits(seen).Some?
    ensures LastAt(seen, UsageCheckpoint) == at < |seen| && OfKind(seen, UsageCheckpoint) == marks
    ensures marks != [] && Climbing(marks) && Stated(marks[|marks| - 1]) == Some(total) == AiUnits(seen)
    ensures SettledAfter(seen, at) && FiguresAgree(seen, total, Get(marks[|marks| - 1], "totalPremiumRequests"))
  {
    at, marks := LastAt(seen, UsageCheckpoint), OfKind(seen, UsageCheckpoint);
    total := AiUnits(seen).value;
  }

  // Agreeing figures go on agreeing after an ending exactly when the ending can be read.
  lemma EndingAgrees(seen: seq<Event>, more: seq<Event>, total: nat, premium: Json)
    requires FiguresAgree(seen, total, premium)
    requires forall event :: event in more ==> CleanEnding(event)
    ensures FiguresAgree(seen + more, total, premium) <==> forall event :: event in more ==> ReadableEnding(event)
  {
    EndingFiguresAgree(seen, more, total, premium);
    ReadableEndings(more, total);
  }

  // Settling events that state no figure leave a bill exactly as it was when each can be
  // read -- usage blocks, and a shutdown's metrics, being objects -- and lose it otherwise.
  lemma CleanEndingKeepsTheBill(seen: seq<Event>, more: seq<Event>)
    requires AiUnits(seen).Some?
    requires forall event :: event in more ==> CleanEnding(event)
    ensures AiUnits(seen + more) ==
            if (forall event :: event in more ==> ReadableEnding(event)) then AiUnits(seen) else None
  {
    var at, marks, total := UnitsCameFrom(seen);
    EndingHasNoMarks(seen, more);
    UnitsAre(seen + more, at, marks, total);
    EndingStaysSettled(seen, more, at);
    EndingAgrees(seen, more, total, Get(marks[|marks| - 1], "totalPremiumRequests"));
  }

  /* ----- and a plain session is billed ----- */

  // Work whose figures are all within a total, and that is no sub-agent's.
  predicate Ordinary(event: Event, total: nat, premium: Json) {
    && !SubAgent(event) && !Aborted(event) && !event.kind.UsageCheckpoint? && !event.kind.SessionShutdown?
    && forall field :: field in Pairs(event.data) ==> Held(field, total, premium)
  }

  predicate AllOrdinary(work: seq<Event>, total: nat, premium: Json) {
    forall event :: event in work ==> Ordinary(event, total, premium)
  }

  lemma {:induction false} OrdinaryWorkMarksNothing(work: seq<Event>, total: nat, premium: Json)
    requires AllOrdinary(work, total, premium)
    ensures OfKind(work, UsageCheckpoint) == [] && OfKind(work, SessionShutdown) == []
  {
    if work != [] {
      assert Ordinary(work[|work| - 1], total, premium);
      OrdinaryWorkMarksNothing(work[..|work| - 1], total, premium);
    }
  }

  // A checkpoint that states a total, and nothing above it.
  predicate StatesTotal(mark: Event, total: nat) {
    && mark.kind.UsageCheckpoint? && !SubAgent(mark) && Asked(mark) == []
    && Stated(DataOf(mark)) == Some(total)
    && forall field :: field in Pairs(mark.data) ==> Held(field, total, PremiumOf(mark))
  }

  function PremiumOf(mark: Event): Json { Get(DataOf(mark), "totalPremiumRequests") }

  predicate PlainIdle(event: Event) {
    event.kind.SessionIdle? && CleanEnding(event) && Asked(event) == []
  }

  lemma RequestsOfThree(work: seq<Event>, mark: Event, idle: Event)
    ensures Requests(work + [mark, idle]) == Requests(work) + Asked(mark) + Asked(idle)
  {
    assert (work + [mark, idle])[..|work| + 1] == work + [mark];
    assert (work + [mark])[..|work|] == work;
  }

  lemma KindsOfThree(work: seq<Event>, mark: Event, idle: Event, kind: Kind)
    ensures OfKind(work + [mark, idle], kind)
            == OfKind(work, kind) + (if mark.kind == kind then [DataOf(mark)] else [])
               + (if idle.kind == kind then [DataOf(idle)] else [])
  {
    assert (work + [mark, idle])[..|work| + 1] == work + [mark];
    assert (work + [mark])[..|work|] == work;
  }

  lemma MarkIsLast(work: seq<Event>, mark: Event, idle: Event)
    requires mark.kind.UsageCheckpoint? && idle.kind.SessionIdle?
    ensures LastAt(work + [mark, idle], UsageCheckpoint) == |work|
  {
    var seen := work + [mark, idle];
    assert seen[|work|] == mark && seen[|work| + 1] == idle;
  }

  lemma EitherOfThree(work: seq<Event>, mark: Event, idle: Event)
    ensures forall event :: event in work + [mark, idle] ==> event in work || event == mark || event == idle
  {
  }

  lemma SessionSettles(work: seq<Event>, mark: Event, idle: Event, total: nat)
    requires AllOrdinary(work, total, PremiumOf(mark)) && !DispatchOpen(work)
    requires mark.kind.UsageCheckpoint? && PlainIdle(idle)
    ensures SettledAfter(work + [mark, idle], |work|)
  {
    var seen := work + [mark, idle];
    assert seen[..|work|] == work && seen[|work| + 1..] == [idle];
    EitherOfThree(work, mark, idle);
    assert idle in [idle];
  }

  lemma IdleStatesNothing(idle: Event, total: nat, premium: Json)
    requires PlainIdle(idle)
    ensures !SubAgent(idle) && forall field :: field in Pairs(idle.data) ==> Held(field, total, premium)
  {
    forall field | field in Pairs(idle.data)
      ensures Held(field, total, premium)
    {
      assert UnitOf(field.key).NoUnit?;
    }
  }

  // No event is a sub-agent's, and every field is within the total.
  predicate AllHeld(seen: seq<Event>, total: nat, premium: Json) {
    forall event :: event in seen ==>
      !SubAgent(event) && forall field :: field in Pairs(event.data) ==> Held(field, total, premium)
  }

  lemma SessionIsHeld(work: seq<Event>, mark: Event, idle: Event, total: nat)
    requires AllOrdinary(work, total, PremiumOf(mark)) && StatesTotal(mark, total) && PlainIdle(idle)
    ensures AllHeld(work + [mark, idle], total, PremiumOf(mark))
  {
    EitherOfThree(work, mark, idle);
    IdleStatesNothing(idle, total, PremiumOf(mark));
  }

  lemma HeldAgrees(seen: seq<Event>, total: nat, premium: Json)
    requires AllHeld(seen, total, premium) && OfKind(seen, SessionShutdown) == []
    ensures FiguresAgree(seen, total, premium)
            <==> Summed(Requests(seen)).Some? && Value(Summed(Requests(seen)).value) <= total as real
  {
  }

  lemma SessionAgrees(work: seq<Event>, mark: Event, idle: Event, total: nat)
    requires AllOrdinary(work, total, PremiumOf(mark)) && StatesTotal(mark, total) && PlainIdle(idle)
    ensures FiguresAgree(work + [mark, idle], total, PremiumOf(mark))
            <==> Summed(Requests(work)).Some? && Value(Summed(Requests(work)).value) <= total as real
  {
    SessionIsHeld(work, mark, idle, total);
    KindsOfThree(work, mark, idle, SessionShutdown);
    OrdinaryWorkMarksNothing(work, total, PremiumOf(mark));
    HeldAgrees(work + [mark, idle], total, PremiumOf(mark));
    RequestsOfThree(work, mark, idle);
    assert Requests(work) + [] + [] == Requests(work);
  }

  // Ordinary work that finished, a checkpoint and an idle are billed at the checkpoint, when
  // what the requests come to, as it is computed, is within it; and not at all otherwise.
  lemma PlainSessionIsBilled(work: seq<Event>, mark: Event, idle: Event, total: nat)
    requires AllOrdinary(work, total, PremiumOf(mark)) && !DispatchOpen(work)
    requires StatesTotal(mark, total) && PlainIdle(idle)
    ensures AiUnits(work + [mark, idle])
            == if Summed(Requests(work)).Some? && Value(Summed(Requests(work)).value) <= total as real then Some(total)
               else None
  {
    MarkIsLast(work, mark, idle);
    KindsOfThree(work, mark, idle, UsageCheckpoint);
    OrdinaryWorkMarksNothing(work, total, PremiumOf(mark));
    SessionSettles(work, mark, idle, total);
    SessionAgrees(work, mark, idle, total);
    UnitsAre(work + [mark, idle], |work|, [DataOf(mark)], total);
  }

  /* ----- a bill below its requests ----- */

  // One request's usage, a checkpoint of a total, and an idle.
  function UsageOf(n: Number): Event { Event(AssistantUsage, Null, Obj([Field(USAGE, Block(n))])) }

  function MarkOf(total: nat): Event { Event(UsageCheckpoint, Null, Obj([Field(TOTAL, Num(Int(total)))])) }

  const IDLE := Event(SessionIdle, Null, Obj([]))

  lemma OneField(field: Field)
    ensures Pairs(Obj([field])) == [field] + Pairs(field.value)
  {
    assert PairsOfFields([field][1..]) == [];
    assert PairsOfFields([field]) == [field] + Pairs(field.value) + PairsOfFields([field][1..]);
  }

  lemma UsagePairs(n: Number)
    ensures Pairs(UsageOf(n).data) == [Field(USAGE, Block(n)), Field(TOTAL, Num(n))]
  {
    var inner, outer := Field(TOTAL, Num(n)), Field(USAGE, Block(n));
    OneField(inner);
    OneField(outer);
    assert [outer] + ([inner] + []) == [outer, inner];
  }

  lemma ValuesNamedFirst(field: Field, rest: seq<Field>, key: string)
    ensures ValuesNamed([field] + rest, key)
            == (if field.key == key && !field.value.Null? then [field.value] else []) + ValuesNamed(rest, key)
  {
    assert ([field] + rest)[1..] == rest;
  }

  lemma UsageFields(n: Number)
    ensures Pairs(UsageOf(n).data) == [Field(USAGE, Block(n)), Field(TOTAL, Num(n))]
    ensures Asked(UsageOf(n)) == [Block(n)]
  {
    var inner, outer := Field(TOTAL, Num(n)), Field(USAGE, Block(n));
    UsagePairs(n);
    UsageKeys();
    ValuesNamedFirst(outer, [inner], USAGE);
    ValuesNamedFirst(inner, [], USAGE);
    assert [outer] + [inner] == [outer, inner] && [inner] + [] == [inner];
    assert [Block(n)] + ([] + []) == [Block(n)];
  }

  lemma UsageIsOrdinary(n: Number, total: nat, premium: Json)
    requires FiniteCount(Num(n)) && Figure(Num(n)) <= total as real
    ensures Ordinary(UsageOf(n), total, premium)
  {
    UsageFields(n);
    UsageKeys();
    var outer, inner := Field(USAGE, Block(n)), Field(TOTAL, Num(n));
    assert Held(outer, total, premium) && Held(inner, total, premium);
    assert !SubAgentField(outer) && !SubAgentField(inner);
  }

  lemma UsageKeys()
    ensures UnitOf(TOTAL).Nano? && UnitOf(USAGE).NoUnit? && TOTAL != USAGE
  {
    assert TOTAL[|TOTAL| - 7..] == "NanoAiu";
    assert |USAGE| == 12 && |TOTAL| == 12 && TOTAL[0] != USAGE[0];
    assert USAGE[|USAGE| - 7..][0] != "NanoAiu"[0];
    assert USAGE[|USAGE| - 9..][0] != "AiCredits"[0];
    assert |"PremiumRequests"| == 15;
  }

  lemma MarkStatesItsTotal(total: nat)
    requires total < MOST_UNITS
    ensures StatesTotal(MarkOf(total), total)
  {
    var field := Field(TOTAL, Num(Int(total)));
    OneField(field);
    assert Pairs(MarkOf(total).data) == [field] && [field][1..] == [];
    UsageKeys();
    assert Figure(field.value) == total as real;
    assert ValuesNamed([field], USAGE) == [];
  }

  lemma MarkNamesNoPremium(total: nat)
    ensures PremiumOf(MarkOf(total)) == Null
  {
    var field := Field(TOTAL, Num(Int(total)));
    assert |TOTAL| == 12 && |"totalPremiumRequests"| == 20;
    assert [field][1..] == [];
    assert Lookup([field], "totalPremiumRequests") == Lookup([field][1..], "totalPremiumRequests");
  }

  lemma TwoRequests(a: Number, b: Number)
    ensures Requests([UsageOf(a), UsageOf(b)]) == Asked(UsageOf(a)) + Asked(UsageOf(b))
    ensures !DispatchOpen([UsageOf(a), UsageOf(b)])
  {
    var work := [UsageOf(a), UsageOf(b)];
    assert work[..1] == [UsageOf(a)] && work[..1][..0] == [];
    assert Requests(work[..1]) == [] + Asked(UsageOf(a));
    assert Running(work[..1]) == 0;
  }

  lemma TwoAreOrdinary(a: Number, b: Number, total: nat)
    requires FiniteCount(Num(a)) && FiniteCount(Num(b))
    requires Figure(Num(a)) <= total as real && Figure(Num(b)) <= total as real
    ensures AllOrdinary([UsageOf(a), UsageOf(b)], total, Null)
    ensures Requests([UsageOf(a), UsageOf(b)]) == [Block(a), Block(b)]
  {
    UsageIsOrdinary(a, total, Null);
    UsageIsOrdinary(b, total, Null);
    UsageFields(a);
    UsageFields(b);
    TwoRequests(a, b);
    assert [Block(a)] + [Block(b)] == [Block(a), Block(b)];
  }

  lemma IdleIsPlain()
    ensures PlainIdle(IDLE) && Asked(IDLE) == []
  {
  }

  lemma TwoRequestsAreBilled(a: Number, b: Number, total: nat)
    requires FiniteCount(Num(a)) && FiniteCount(Num(b)) && total < MOST_UNITS
    requires Figure(Num(a)) <= total as real && Figure(Num(b)) <= total as real
    requires Summed([Block(a), Block(b)]).Some? && Value(Summed([Block(a), Block(b)]).value) <= total as real
    ensures var seen := [UsageOf(a), UsageOf(b)] + [MarkOf(total), IDLE];
            AiUnits(seen) == Some(total) && Requests(seen) == [Block(a), Block(b)]
  {
    var work := [UsageOf(a), UsageOf(b)];
    TwoAreOrdinary(a, b, total);
    TwoRequests(a, b);
    MarkStatesItsTotal(total);
    MarkNamesNoPremium(total);
    IdleIsPlain();
    RequestsOfThree(work, MarkOf(total), IDLE);
    assert [Block(a), Block(b)] + [] + [] == [Block(a), Block(b)];
    PlainSessionIsBilled(work, MarkOf(total), IDLE, total);
  }

  // A session of two requests, both within the bill, that come to more than it between them:
  // the smaller is lost when it is added to the greater.
  lemma ABillBelowItsRequests()
    ensures var seen := [UsageOf(COARSE), UsageOf(FINE)] + [MarkOf(MOST), IDLE];
            && AiUnits(seen) == Some(MOST)
            && ExactSum(Figures(Requests(seen))) > MOST as real
  {
    RoundedSumCanFallShort();
    FineIsSmall();
    CoarseIsMost();
    TwoRequestsAreBilled(COARSE, FINE, MOST);
  }

  lemma CoarseIsMost()
    ensures FiniteCount(Num(COARSE)) && Figure(Num(COARSE)) == MOST as real
  {
  }

  /* ----- a bill lost to its ending ----- */

  // A shutdown that states no figure, and no metrics.
  const BARE := Event(SessionShutdown, Null, Obj([]))

  lemma BareIsClean()
    ensures CleanEnding(BARE) && !ReadableEnding(BARE)
  {
  }

  lemma WholeRequests(a: nat, b: nat, total: nat)
    requires a + b <= total < MOST_UNITS
    ensures var blocks := [Block(Int(a)), Block(Int(b))];
            Summed(blocks).Some? && Value(Summed(blocks).value) <= total as real
  {
    var blocks := [Block(Int(a)), Block(Int(b))];
    TwoBlocks(PRECISION, Int(a), Int(b));
    TwoFigures(Num(Int(a)), Num(Int(b)));
    CoarseSumIsHeld(blocks, total, 0);
  }

  // Two requests of whole figures and any total that covers them are a session billed at it;
  // a shutdown that states nothing, coming after, loses the bill.
  lemma ABareEndingLosesTheBill(a: nat, b: nat, total: nat)
    requires a + b <= total < MOST_UNITS
    ensures var seen := [UsageOf(Int(a)), UsageOf(Int(b))] + [MarkOf(total), IDLE];
            && AiUnits(seen) == Some(total)
            && CleanEnding(BARE) && !ReadableEnding(BARE)
            && AiUnits(seen + [BARE]) == None
  {
    WholeRequests(a, b, total);
    TwoRequestsAreBilled(Int(a), Int(b), total);
    BareIsClean();
    CleanEndingKeepsTheBill([UsageOf(Int(a)), UsageOf(Int(b))] + [MarkOf(total), IDLE], [BARE]);
    assert BARE in [BARE];
  }
}
