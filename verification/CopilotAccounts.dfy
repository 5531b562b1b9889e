// What a session that is billed holds, event by event, and that every session that holds it is
// billed: the units read are never the lower figure of two that were stated.
module CopilotAccounts {
  import opened Wrappers
  import opened Decimals
  import opened Digits
  import opened Texts
  import opened CopilotTrace
  import opened CopilotFigures
  import opened CopilotBill

  /* ----- what a shutdown meters ----- */

  lemma {:induction false} SummedAreObjects(prec: nat, total: Dec, blocks: seq<Json>)
    requires prec >= 1 && SummedOnto(prec, total, blocks).Some?
    ensures forall block :: block in blocks ==> block.Obj?
    decreases |blocks|
  {
    if blocks != [] {
      var figure := Get(blocks[0], TOTAL);
      SummedAreObjects(prec, if figure.Null? then total else Fix(prec, Sum(total, DecimalOf(figure.n))), blocks[1..]);
    }
  }

  lemma {:induction false} FieldHasItsValue(fields: seq<Field>, field: Field)
    requires field in fields
    ensures field.value in Values(fields)
  {
    if fields[0] != field {
      FieldHasItsValue(fields[1..], field);
    }
  }

  // A shutdown's metrics, as blocks of figures; none where it has no metrics to read.
  function Metered(event: Event): seq<Json> {
    var metrics := Get(DataOf(event), "modelMetrics");
    if metrics.Obj? then Values(metrics.fields) else []
  }

  lemma ShutdownIsHeld(seen: seq<Event>, event: Event)
    requires AiUnits(seen).Some? && event in seen && event.kind.SessionShutdown?
    ensures ShutdownAgrees(DataOf(event), AiUnits(seen).value)
  {
    OfKindIs(seen, SessionShutdown);
    var i :| 0 <= i < |seen| && seen[i] == event;
    assert DataOf(event) in OfKind(seen, SessionShutdown);
  }

  // In a billed session a shutdown's metrics are an object of objects, whose figures are counts
  // that come to no more than the bill, but for the rounding of the sum.
  lemma BillCoversEveryShutdown(seen: seq<Event>, event: Event)
    requires AiUnits(seen).Some? && event in seen && event.kind.SessionShutdown?
    ensures var metrics := Get(DataOf(event), "modelMetrics");
            metrics.Obj? && forall field :: field in metrics.fields ==> field.value.Obj?
    ensures forall figure :: figure in Figures(Metered(event)) ==> FiniteCount(figure)
    ensures CloselyHeld(PRECISION, Figures(Metered(event)), AiUnits(seen).value)
  {
    var blocks := Metered(event);
    ShutdownIsHeld(seen, event);
    SummedAreObjects(PRECISION, Dec(0, 0), blocks);
    var fields := Get(DataOf(event), "modelMetrics").fields;
    forall field | field in fields
      ensures field.value.Obj?
    {
      FieldHasItsValue(fields, field);
    }
    SummedIsNear(blocks);
    HeldSumIsClose(blocks, AiUnits(seen).value);
  }

  // And to no more at all when the figures are coarse, or few enough for how fine they are.
  lemma BillCoversACoarseShutdown(seen: seq<Event>, event: Event)
    requires AiUnits(seen).Some? && event in seen && event.kind.SessionShutdown?
    requires forall figure :: figure in Figures(Metered(event)) ==> NoFinerThan(figure, COARSE_PLACES)
    ensures ExactSum(Figures(Metered(event))) <= AiUnits(seen).value as real
  {
    ShutdownIsHeld(seen, event);
    BillIsSmall(seen);
    CoarseSumIsHeld(Metered(event), AiUnits(seen).value, COARSE_PLACES);
  }

  lemma BillCoversAFewMetrics(seen: seq<Event>, event: Event, k: nat)
    requires AiUnits(seen).Some? && event in seen && event.kind.SessionShutdown?
    requires forall figure :: figure in Figures(Metered(event)) ==> NoFinerThan(figure, k)
    requires |Figures(Metered(event))| * Doubled(AiUnits(seen).value, k) < 2 * Pow10(PRECISION - 1)
    ensures ExactSum(Figures(Metered(event))) <= AiUnits(seen).value as real
  {
    ShutdownIsHeld(seen, event);
    FewSumsAreHeld(Metered(event), AiUnits(seen).value, k);
  }

  /* ----- what is asked for, request by request ----- */

  lemma {:induction false} NamedIsAValue(fields: seq<Field>, key: string, block: Json)
    requires Field(key, block) in fields && !block.Null?
    ensures block in ValuesNamed(fields, key)
  {
    if fields[0] != Field(key, block) {
      NamedIsAValue(fields[1..], key, block);
    }
  }

  // The requests' blocks are every `copilotUsage` stated, however deep in an event, and every
  // fusion phase's `usage`.
  ghost predicate AsksFor(event: Event, block: Json) {
    && !block.Null?
    && (|| StatedIn(event.data, Field("copilotUsage", block))
        || ((event.kind.FusionPhaseCompleted? || event.kind.FusionPhaseFailed?)
            && event.data.Obj? && Get(event.data, "usage") == block))
  }

  lemma AskedIs(event: Event, block: Json)
    ensures block in Asked(event) <==> AsksFor(event, block)
  {
    WalkIsComplete(event.data, Field(USAGE, block));
    if block in ValuesNamed(Pairs(event.data), USAGE) {
      ValueIsNamed(Pairs(event.data), USAGE, block);
      NamedIsPresent(Pairs(event.data), USAGE, block);
    }
    if Field(USAGE, block) in Pairs(event.data) && !block.Null? {
      NamedIsAValue(Pairs(event.data), USAGE, block);
    }
  }

  lemma {:induction false} NamedIsPresent(fields: seq<Field>, key: string, block: Json)
    requires block in ValuesNamed(fields, key)
    ensures !block.Null?
  {
    if fields[0].key != key || fields[0].value.Null? || fields[0].value != block {
      NamedIsPresent(fields[1..], key, block);
    }
  }

  lemma EveryRequestIsSummed(seen: seq<Event>, block: Json)
    ensures block in Requests(seen) <==> exists event :: event in seen && AsksFor(event, block)
  {
    if block in Requests(seen) {
      var i := RequestIsAsked(seen, block);
      AskedIs(seen[i], block);
      assert seen[i] in seen;
    }
    if event :| event in seen && AsksFor(event, block) {
      AskedIs(event, block);
      var i :| 0 <= i < |seen| && seen[i] == event;
      AskedIsRequested(seen, i, block);
    }
  }

  /* ----- a session's own account ----- */

  // An event of a sub-agent's own, or that tells of what sub-agents or workflows did.
  ghost predicate OfASubAgent(event: Event) {
    || event.agentId != Null
    || (event.kind.Other? && StartsWith(event.kind.name, "subagent."))
    || (event.kind.Other? && StartsWith(event.kind.name, "workflow."))
    || exists field :: StatedIn(event.data, field) && TellsOfASubAgent(field)
  }

  predicate TellsOfASubAgent(field: Field) {
    || field.key == "consumedNanoAiu"
    || (field.key == "agentMetrics" && Truthy(field.value))
    || (field.key == "consumedSubagents" && Truthy(field.value))
  }

  lemma SubAgentIs(event: Event)
    ensures SubAgent(event) <==> OfASubAgent(event)
  {
    forall field
      ensures field in Pairs(event.data) <==> StatedIn(event.data, field)
    {
      WalkIsComplete(event.data, field);
    }
    if field :| field in Pairs(event.data) && SubAgentField(field) {
      assert StatedIn(event.data, field) && TellsOfASubAgent(field);
    }
    if field :| StatedIn(event.data, field) && TellsOfASubAgent(field) {
      assert field in Pairs(event.data) && SubAgentField(field);
    }
  }

  // What the runtime may still do once its work is metered: idle, fail for good, shut down.
  predicate Rests(event: Event) {
    && (event.kind == SessionIdle || event.kind == SessionError || event.kind == SessionShutdown)
    && event.data.Obj? && Get(event.data, "eligibleForAutoSwitch") != Bool(true)
  }

  // The last checkpoint, everything before it finished and nothing but rest after it, to an
  // idle or an error; and no idle aborted.
  ghost predicate EndsSettled(seen: seq<Event>, at: nat) {
    && at < |seen| && seen[at].kind == UsageCheckpoint && Running(seen[..at]) == 0
    && (forall k :: at < k < |seen| ==> Rests(seen[k]))
    && (exists k :: at < k < |seen| && (seen[k].kind == SessionIdle || seen[k].kind == SessionError))
    && (forall k :: 0 <= k < |seen| && seen[k].kind == SessionIdle ==> Get(DataOf(seen[k]), "aborted") != Bool(true))
  }

  lemma NoneAborted(seen: seq<Event>)
    ensures (forall event :: event in seen ==> !Aborted(event)) <==>
              forall k :: 0 <= k < |seen| && seen[k].kind == SessionIdle ==> Get(DataOf(seen[k]), "aborted") != Bool(true)
  {
    if forall event :: event in seen ==> !Aborted(event) {
      forall k | 0 <= k < |seen| && seen[k].kind == SessionIdle
        ensures Get(DataOf(seen[k]), "aborted") != Bool(true)
      {
        assert !Aborted(seen[k]);
      }
    }
  }

  lemma SettledIs(seen: seq<Event>, at: nat)
    requires at < |seen| && seen[at].kind == UsageCheckpoint
    ensures SettledAfter(seen, at) <==> EndsSettled(seen, at)
  {
    var after := seen[at + 1..];
    forall k | at < k < |seen|
      ensures after[k - at - 1] == seen[k] && seen[k] in after
    {
    }
    forall event | event in after
      ensures exists k :: at < k < |seen| && seen[k] == event
    {
      var j :| 0 <= j < |after| && after[j] == event;
      assert seen[at + 1 + j] == event;
    }
    NoneAborted(seen);
  }

  lemma RestsEnd(seen: seq<Event>, at: nat)
    requires EndsSettled(seen, at)
    ensures LastAt(seen, UsageCheckpoint) == at
  {
    assert forall k :: at < k < |seen| ==> seen[k].kind != UsageCheckpoint;
  }

  // The totals checkpoints state: whole, and never falling.
  ghost predicate NeverFalls(seen: seq<Event>) {
    && (forall k :: 0 <= k < |seen| && seen[k].kind == UsageCheckpoint ==> Stated(DataOf(seen[k])).Some?)
    && (forall j, k :: 0 <= j < k < |seen| && seen[j].kind == UsageCheckpoint && seen[k].kind == UsageCheckpoint ==>
          Stated(DataOf(seen[j])).value <= Stated(DataOf(seen[k])).value)
  }

  lemma OneMoreMark(marks: seq<Json>, mark: Json)
    ensures Climbing(marks + [mark]) <==>
              && Climbing(marks) && Stated(mark).Some?
              && (marks != [] ==> Stated(marks[|marks| - 1]).value <= Stated(mark).value)
  {
    var all := marks + [mark];
    assert all[|marks|] == mark;
    assert forall i :: 0 <= i < |marks| ==> all[i] == marks[i];
    if Climbing(all) {
      forall i | 0 <= i < |marks|
        ensures Stated(marks[i]).Some?
      {
        assert Stated(all[i]).Some?;
      }
      forall i | 0 < i < |marks|
        ensures Stated(marks[i - 1]).value <= Stated(marks[i]).value
      {
        assert Stated(all[i - 1]).value <= Stated(all[i]).value;
      }
    }
  }

  lemma OtherEventsOn(before: seq<Event>, event: Event)
    requires event.kind != UsageCheckpoint
    ensures NeverFalls(before + [event]) <==> NeverFalls(before)
    ensures OfKind(before + [event], UsageCheckpoint) == OfKind(before, UsageCheckpoint)
  {
    var seen := before + [event];
    assert seen[..|before|] == before;
    assert forall k :: 0 <= k < |before| ==> seen[k] == before[k];
  }

  lemma MarkOn(before: seq<Event>, mark: Event)
    requires mark.kind == UsageCheckpoint && (Climbing(OfKind(before, UsageCheckpoint)) <==> NeverFalls(before))
    ensures Climbing(OfKind(before + [mark], UsageCheckpoint)) <==> NeverFalls(before + [mark])
  {
    assert (before + [mark])[..|before|] == before;
    OneMoreMark(OfKind(before, UsageCheckpoint), DataOf(mark));
    LastOfKind(before, UsageCheckpoint);
    LastIsGreatest(before);
    NeverFallsOn(before, mark);
  }

  lemma {:induction false} ClimbingIs(seen: seq<Event>)
    ensures Climbing(OfKind(seen, UsageCheckpoint)) <==> NeverFalls(seen)
  {
    if seen != [] {
      var before, last := seen[..|seen| - 1], seen[|seen| - 1];
      ClimbingIs(before);
      assert seen == before + [last];
      if last.kind == UsageCheckpoint {
        MarkOn(before, last);
      } else {
        OtherEventsOn(before, last);
      }
    }
  }

  lemma LastIsGreatest(seen: seq<Event>)
    requires NeverFalls(seen) ==> Climbing(OfKind(seen, UsageCheckpoint))
    ensures NeverFalls(seen) && OfKind(seen, UsageCheckpoint) != [] ==>
              forall k :: 0 <= k < |seen| && seen[k].kind == UsageCheckpoint ==>
                Stated(DataOf(seen[k])).value <= Stated(OfKind(seen, UsageCheckpoint)[|OfKind(seen, UsageCheckpoint)| - 1]).value
  {
    LastOfKind(seen, UsageCheckpoint);
  }

  // One checkpoint more never falls when it is no lower than the last before it.
  lemma NeverFallsOn(before: seq<Event>, mark: Event)
    requires mark.kind == UsageCheckpoint
    ensures NeverFalls(before + [mark]) <==>
              && NeverFalls(before) && Stated(DataOf(mark)).Some?
              && (LastAt(before, UsageCheckpoint) >= 0 ==>
                    Stated(DataOf(before[LastAt(before, UsageCheckpoint)])).value <= Stated(DataOf(mark)).value)
  {
    var seen := before + [mark];
    assert seen[|before|] == mark && forall k :: 0 <= k < |before| ==> seen[k] == before[k];
  }

  // A field's figure, in the unit its name states, within a total or a premium count.
  predicate WithinBill(field: Field, total: nat, premium: Json) {
    && (EndsWith(field.key, "NanoAiu") ==> FiniteCount(field.value) && Figure(field.value) <= total as real)
    && (StartsWith(field.key, "used") && EndsWith(field.key, "AiCredits") ==>
          FiniteCount(field.value) && Value(InNano(field.value)) <= total as real)
    && (EndsWith(field.key, "PremiumRequests") ==>
          && FiniteCount(field.value)
          && (Truthy(field.value) ==> FiniteCount(premium) && Figure(field.value) <= Figure(premium)))
  }

  lemma EndingsDiffer(key: string)
    ensures EndsWith(key, "NanoAiu") ==> !EndsWith(key, "AiCredits") && !EndsWith(key, "PremiumRequests")
    ensures EndsWith(key, "AiCredits") ==> !EndsWith(key, "PremiumRequests")
  {
    if EndsWith(key, "NanoAiu") {
      assert key[|key| - 7..][6] == 'u';
    }
    if EndsWith(key, "AiCredits") {
      assert key[|key| - 9..][7] == 't' && key[|key| - 9..][8] == 's' && key[|key| - 9..][6] == 'i';
    }
    if EndsWith(key, "PremiumRequests") {
      assert key[|key| - 15..][14] == 's' && key[|key| - 15..][12] == 's';
    }
  }

  lemma HeldIs(field: Field, total: nat, premium: Json)
    ensures Held(field, total, premium) <==> WithinBill(field, total, premium)
  {
    EndingsDiffer(field.key);
  }

  // All a session states agrees with a total and a premium count.
  ghost predicate StatesNoMore(seen: seq<Event>, total: nat, premium: Json) {
    && (forall event :: event in seen ==> !OfASubAgent(event))
    && (forall event, field :: event in seen && StatedIn(event.data, field) ==> WithinBill(field, total, premium))
    && SumsWithin(Requests(seen), total)
    && (forall event :: event in seen && event.kind == SessionShutdown ==> ShutsDownWithin(event, total))
  }

  // The blocks can be summed, and their sum, as it is computed, is within the total.
  predicate SumsWithin(blocks: seq<Json>, total: nat) {
    Summed(blocks).Some? && Value(Summed(blocks).value) <= total as real
  }

  predicate ShutsDownWithin(event: Event, total: nat) {
    var stated := Get(DataOf(event), "totalNanoAiu");
    && (stated == Null || WholeUnits(stated) == Some(total))
    && Get(DataOf(event), "modelMetrics").Obj? && SumsWithin(Metered(event), total)
  }

  lemma AgreeIs(seen: seq<Event>, total: nat, premium: Json)
    ensures FiguresAgree(seen, total, premium) <==> StatesNoMore(seen, total, premium)
  {
    forall event
      ensures SubAgent(event) <==> OfASubAgent(event)
    {
      SubAgentIs(event);
    }
    FieldsAgreeIs(seen, total, premium);
    ShutdownsAgreeIs(seen, total);
  }

  lemma FieldsAgreeIs(seen: seq<Event>, total: nat, premium: Json)
    ensures (forall event :: event in seen ==> forall field :: field in Pairs(event.data) ==> Held(field, total, premium))
            <==> forall event, field :: event in seen && StatedIn(event.data, field) ==> WithinBill(field, total, premium)
  {
    forall event: Event, field
      ensures field in Pairs(event.data) <==> StatedIn(event.data, field)
      ensures Held(field, total, premium) <==> WithinBill(field, total, premium)
    {
      WalkIsComplete(event.data, field);
      HeldIs(field, total, premium);
    }
  }

  lemma ShutdownsAgreeIs(seen: seq<Event>, total: nat)
    ensures (forall data :: data in OfKind(seen, SessionShutdown) ==> ShutdownAgrees(data, total))
            <==> forall event :: event in seen && event.kind == SessionShutdown ==> ShutsDownWithin(event, total)
  {
    OfKindIs(seen, SessionShutdown);
    forall event | event in seen && event.kind == SessionShutdown
      ensures DataOf(event) in OfKind(seen, SessionShutdown)
      ensures ShutdownAgrees(DataOf(event), total) <==> ShutsDownWithin(event, total)
    {
      var i :| 0 <= i < |seen| && seen[i] == event;
    }
    if forall event :: event in seen && event.kind == SessionShutdown ==> ShutsDownWithin(event, total) {
      forall data | data in OfKind(seen, SessionShutdown)
        ensures ShutdownAgrees(data, total)
      {
        var i :| 0 <= i < |seen| && seen[i].kind == SessionShutdown && DataOf(seen[i]) == data;
        assert seen[i] in seen;
      }
    }
  }

  // A session accounted for at a total: it ends settled after a checkpoint of that total, its
  // checkpoints never fell, and nothing it states says otherwise.
  ghost predicate AccountedAt(seen: seq<Event>, total: nat, at: nat) {
    && EndsSettled(seen, at) && NeverFalls(seen) && Stated(DataOf(seen[at])) == Some(total)
    && StatesNoMore(seen, total, Get(DataOf(seen[at]), "totalPremiumRequests"))
  }

  // A session is billed a total if and only if it is accounted for at it.
  lemma BilledExactly(seen: seq<Event>, total: nat)
    ensures AiUnits(seen) == Some(total) <==> exists at :: AccountedAt(seen, total, at)
  {
    ClimbingIs(seen);
    LastOfKind(seen, UsageCheckpoint);
    var marks := OfKind(seen, UsageCheckpoint);
    if AiUnits(seen) == Some(total) {
      var at := LastAt(seen, UsageCheckpoint);
      SettledIs(seen, at);
      AgreeIs(seen, total, Get(marks[|marks| - 1], "totalPremiumRequests"));
      assert AccountedAt(seen, total, at);
    }
    if at :| AccountedAt(seen, total, at) {
      RestsEnd(seen, at);
      SettledIs(seen, at);
      AgreeIs(seen, total, Get(marks[|marks| - 1], "totalPremiumRequests"));
      UnitsAre(seen, at, marks, total);
    }
  }
}
