// The verdicts a Copilot session's events are given -- was it exactly the call asked for,
// can it have cost anything, how did it fail -- and how they exclude each other.
module CopilotVerdicts {
  import opened Wrappers
  import opened Digits
  import opened Texts
  import opened CopilotTrace
  import opened CopilotFigures
  import opened CopilotBill

  // The model asked for and the effort it is asked at.
  datatype Target = Target(name: string, effort: Option<string>)

  /* ----- fields that must agree with the call asked for ----- */

  datatype Family = Model | Models | Effort | Mode | Initiator | Byok | Absent | Unruled

  // Which rule a name falls under; whole names are looked up before endings and parts.
  function FamilyOf(key: string): Family {
    if key == "model" || key == "modelId" || key == "modelTo" || key == "modelFrom" then Model
    else if key == "models" then Models
    else if key == "effort" then Effort
    else if key == "agentMode" || key == "mode" then Mode
    else if key == "initiator" then Initiator
    else if key == "isByok" then Byok
    else if key == "isAuto" || key == "autoTier" || key == "interactionType"
            || key == "containsBuiltInFileEditRequest" then Absent
    else if EndsWith(key, "Model") || EndsWith(key, "ModelId") then Model
    else if EndsWith(key, "Models") then Models
    else if EndsWith(key, "Effort") then Effort
    else if EndsWith(key, "AutoTier") || StartsWith(key, "agent") || StartsWith(key, "tool") then Absent
    else if Contains(key, "Agent") || Contains(key, "ubagent") || Contains(key, "Tool") then Absent
    else Unruled
  }

  function EffortOf(reported: Json): Option<string> {
    if reported.Str? && reported.s != "" && reported.s != "none" then Some(reported.s) else None
  }

  predicate Obeys(family: Family, value: Json, target: Target) {
    match family
    case Model => value.Null? || value == Str(target.name)
    case Models => value.Null? || (value.List? && forall item :: item in value.items ==> item == Str(target.name))
    case Effort => value.Null? || EffortOf(value) == target.effort
    case Mode => value.Null? || value == Str("interactive")
    case Initiator => value.Null? || value == Str("user")
    case Byok => value != Bool(true)
    case Absent => !Truthy(value)
    case Unruled => true
  }

  predicate NestedAgree(value: Json, target: Target)
    decreases value, 1
  {
    match value
    case Obj(fields) => FieldsAgree(fields, target)
    case List(items) => forall i :: 0 <= i < |items| ==> NestedAgree(items[i], target)
    case _ => true
  }

  // A ruled field is held to its rule and not entered; any other is entered.
  predicate FieldsAgree(fields: seq<Field>, target: Target)
    decreases fields, 0
  {
    forall i :: 0 <= i < |fields| ==>
      var family := FamilyOf(fields[i].key);
      if family.Unruled? then NestedAgree(fields[i].value, target) else Obeys(family, fields[i].value, target)
  }

  // The value reached by a path that enters no ruled field.
  function Entered(value: Json, path: seq<nat>): Option<Json> {
    if path == [] then Some(value)
    else if value.Obj? && path[0] < |value.fields| && FamilyOf(value.fields[path[0]].key).Unruled? then
      Entered(value.fields[path[0]].value, path[1..])
    else if value.List? && path[0] < |value.items| then Entered(value.items[path[0]], path[1..])
    else None
  }

  // The `i`-th field of what a path enters obeys its rule.
  predicate ObeysAt(value: Json, path: seq<nat>, i: nat, target: Target) {
    var at := Entered(value, path);
    at.Some? && at.value.Obj? && i < |at.value.fields| ==>
      Obeys(FamilyOf(at.value.fields[i].key), at.value.fields[i].value, target)
  }

  lemma {:induction false} AgreedObeys(value: Json, path: seq<nat>, i: nat, target: Target)
    requires NestedAgree(value, target)
    ensures ObeysAt(value, path, i, target)
    decreases |path|
  {
    if path != [] {
      if value.Obj? && path[0] < |value.fields| && FamilyOf(value.fields[path[0]].key).Unruled? {
        AgreedObeys(value.fields[path[0]].value, path[1..], i, target);
      } else if value.List? && path[0] < |value.items| {
        AgreedObeys(value.items[path[0]], path[1..], i, target);
      }
    }
  }

  lemma EnteredBelow(value: Json, k: nat, path: seq<nat>)
    ensures Entered(value, [k] + path)
            == if value.Obj? && k < |value.fields| && FamilyOf(value.fields[k].key).Unruled? then
                 Entered(value.fields[k].value, path)
               else if value.List? && k < |value.items| then Entered(value.items[k], path)
               else None
  {
    assert ([k] + path)[1..] == path;
  }

  lemma {:induction false} ObeyedAgrees(value: Json, target: Target)
    requires forall path: seq<nat>, i: nat :: ObeysAt(value, path, i, target)
    ensures NestedAgree(value, target)
    decreases value
  {
    if value.Obj? {
      forall k | 0 <= k < |value.fields|
        ensures var family := FamilyOf(value.fields[k].key);
                if family.Unruled? then NestedAgree(value.fields[k].value, target)
                else Obeys(family, value.fields[k].value, target)
      {
        assert value.fields[k] in value.fields;
        assert ObeysAt(value, [], k, target);
        if FamilyOf(value.fields[k].key).Unruled? {
          forall path: seq<nat>, i: nat
            ensures ObeysAt(value.fields[k].value, path, i, target)
          {
            EnteredBelow(value, k, path);
            assert ObeysAt(value, [k] + path, i, target);
          }
          ObeyedAgrees(value.fields[k].value, target);
        }
      }
    } else if value.List? {
      forall k | 0 <= k < |value.items|
        ensures NestedAgree(value.items[k], target)
      {
        assert value.items[k] in value.items;
        forall path: seq<nat>, i: nat
          ensures ObeysAt(value.items[k], path, i, target)
        {
          EnteredBelow(value, k, path);
          assert ObeysAt(value, [k] + path, i, target);
        }
        ObeyedAgrees(value.items[k], target);
      }
    }
  }

  // The walk holds exactly the fields reached without entering a ruled one to their rules.
  lemma WalkHoldsWhatItEnters(value: Json, target: Target)
    ensures NestedAgree(value, target) <==> forall path: seq<nat>, i: nat :: ObeysAt(value, path, i, target)
  {
    if NestedAgree(value, target) {
      forall path: seq<nat>, i: nat
        ensures ObeysAt(value, path, i, target)
      {
        AgreedObeys(value, path, i, target);
      }
    }
    if forall path: seq<nat>, i: nat :: ObeysAt(value, path, i, target) {
      ObeyedAgrees(value, target);
    }
  }

  // Below a ruled field nothing is held: another model named there is not seen.
  lemma NothingHeldBelowARuledField(target: Target, other: string)
    requires other != target.name
    ensures var inner := Field("model", Str(other));
            var data := Obj([Field("isByok", Obj([inner]))]);
            NestedAgree(data, target) && inner in Pairs(data) && !Obeys(FamilyOf(inner.key), inner.value, target)
  {
    var inner := Field("model", Str(other));
    var outer := Field("isByok", Obj([inner]));
    FieldIsWalked([inner], 0);
    FieldIsWalked([outer], 0);
  }

  /* ----- exactly the call asked for ----- */

  predicate Allowed(kind: Kind) {
    !kind.Other? && !kind.Unreadable? && !IsPhase(kind)
  }

  predicate LoadedNothing(loaded: Json) { loaded == List([]) }

  predicate Chosen(source: Json) {
    source.Null? ||
    (source.Str? && source.s in {"model_command", "settings_command", "config_command", "model_picker",
                                 "changeboarding_shortcut", "managed_settings", "repo_settings", "startup", "sdk"})
  }

  predicate ConditionHolds(kind: Kind, data: Json) {
    match kind
    case McpServerStatusChanged => !Truthy(Get(data, "serverName"))
    case CallFailure => Get(data, "source") == Str("top_level")
    case ModelChange => Chosen(Get(data, "source"))
    case SessionStart => !Get(data, "selectedModel").Null?
    case CallStart => !Get(data, "model").Null?
    case McpServersLoaded => LoadedNothing(Get(data, "servers"))
    case SkillsLoaded => LoadedNothing(Get(data, "skills"))
    case ExtensionsLoaded => LoadedNothing(Get(data, "extensions"))
    case CustomAgentsUpdated => LoadedNothing(Get(data, "agents"))
    case _ => true
  }

  predicate Admitted(event: Event, target: Target) {
    && event.data.Obj?
    && Allowed(event.kind)
    && Get(event.data, "fusion").Null? && event.agentId.Null?
    && NestedAgree(event.data, target) && ConditionHolds(event.kind, event.data)
  }

  // Python's `value == k`, which a truth value and an integral float can meet.
  predicate EqualsWhole(value: Json, k: int) {
    match value
    case Bool(b) => (if b then 1 else 0) == k
    case Num(Int(i)) => i == k
    case Num(Float(m, e)) => WholeFloat(m, e) == Some(k)
    case _ => false
  }

  predicate OneAnswer(answers: seq<Json>, target: Target) {
    && |answers| == 1
    && Get(answers[0], "model") == Str(target.name)
    && (Get(answers[0], "chunkCount").Null? || EqualsWhole(Get(answers[0], "chunkCount"), 1))
    && (Get(answers[0], "chunkIndex").Null? || EqualsWhole(Get(answers[0], "chunkIndex"), 0))
  }

  predicate OneOperation(seen: seq<Event>, target: Target) {
    var finals := OfKind(seen, CallFinalResult);
    && |finals| == 1
    && Get(finals[0], "model") == Str(target.name)
    && Get(finals[0], "result") == Str("success")
    && Get(finals[0], "isByok") == Bool(false)
    && (forall data :: data in OfKind(seen, CallFinished) ==> Get(data, "outcome") == Str("success"))
    && OfKind(seen, SessionError) == []
    && LastAt(seen, CallFailure) < LastAt(seen, CallFinalResult)
  }

  predicate UsageAgrees(usages: seq<Json>, target: Target) {
    usages == [] ||
    (&& |usages| == 1
     && var usage := usages[0];
        var capi := Get(usage, USAGE);
        && Get(usage, "model") == Str(target.name)
        && (capi.Null? || (capi.Obj? && Get(capi, "model") == Str(target.name)))
        && Get(usage, "isByok") == Bool(false)
        && EffortOf(Get(usage, "reasoningEffort")) == target.effort
        && Get(usage, "contentFilterTriggered") != Bool(true))
  }

  predicate ShutdownNamesThePin(data: Json, target: Target) {
    var metrics := Get(data, "modelMetrics");
    && Get(data, "shutdownType") == Str("routine")
    && metrics.Obj?
    && forall i :: 0 <= i < |metrics.fields| ==> metrics.fields[i].key == target.name
  }

  predicate SessionAgrees(seen: seq<Event>, usages: seq<Json>, target: Target) {
    && (usages == [] ==> OfKind(seen, SessionStart) != [])
    && (forall data :: data in OfKind(seen, SessionStart) + OfKind(seen, ModelChange) ==>
          EffortOf(Get(data, "reasoningEffort")) == target.effort)
    && |OfKind(seen, UserMessage)| <= 1
    && (forall data :: data in OfKind(seen, UserMessage) ==> !Truthy(Get(data, "isAutopilotContinuation")))
    && (forall data :: data in OfKind(seen, SessionShutdown) ==> ShutdownNamesThePin(data, target))
  }

  predicate AfterTurn(kind: Kind) {
    kind.UsageCheckpoint? || kind.SessionIdle? || kind.SessionShutdown?
  }

  predicate Ended(seen: seq<Event>) {
    var end := LastAt(seen, TurnEnd);
    && |OfKind(seen, TurnEnd)| == 1 && |OfKind(seen, TurnStart)| == 1
    && (forall event :: event in seen ==> !Aborted(event))
    && end < LastAt(seen, SessionIdle)
    && forall i :: end < i < |seen| ==> AfterTurn(seen[i].kind)
  }

  predicate Witnessed(seen: seq<Event>, target: Target) {
    var usages := OfKind(seen, AssistantUsage);
    && (forall event :: event in seen ==> Admitted(event, target))
    && OneAnswer(OfKind(seen, AssistantMessage), target)
    && OneOperation(seen, target)
    && UsageAgrees(usages, target)
    && SessionAgrees(seen, usages, target)
    && Ended(seen)
  }

  /* ----- can it have cost anything ----- */

  predicate StatedZero(value: Json) {
    match value
    case Num(Int(i)) => i == 0
    case Num(Float(m, _)) => m == 0
    case _ => false
  }

  predicate NoneOrZero(value: Json) { value.Null? || StatedZero(value) }

  predicate QuietKind(kind: Kind) {
    match kind
    case SessionStart | UserMessage | TurnStart | TurnEnd | CallStart | SessionError | SessionIdle | SessionInfo
       | SessionWarning | ManagedSettingsResolved | ManagedSettingsEnforced => true
    case _ => false
  }

  predicate QuietWhen(kind: Kind, data: Json) {
    match kind
    case CallFinalResult => Get(data, "result").Str? && Get(data, "result") != Str("success")
    case CallFinished => Get(data, "outcome") == Str("error")
    case CallFailure => Get(data, "source") == Str("top_level")
    case UsageCheckpoint => StatedZero(Get(data, TOTAL)) && NoneOrZero(Get(data, "totalPremiumRequests"))
    case SessionShutdown =>
      && Get(data, "modelMetrics") == Obj([])
      && !Truthy(Get(data, "agentMetrics"))
      && NoneOrZero(Get(data, TOTAL))
      && NoneOrZero(Get(data, "totalPremiumRequests"))
    case _ => false
  }

  predicate Quiet(event: Event) {
    event.data.Obj? && event.agentId.Null? && (QuietKind(event.kind) || QuietWhen(event.kind, event.data))
  }

  predicate Spent(seen: seq<Event>) {
    (exists event :: event in seen && !Quiet(event)) || DispatchOpen(seen)
  }

  /* ----- how it failed ----- */

  datatype Raised = TimedOut | Status(code: Option<int>, declared: Json)

  function StatusOf(data: Json): Option<int> {
    var status := Get(data, "statusCode");
    if status.Num? && status.n.Int? then Some(status.n.i) else None
  }

  function Last(datas: seq<Json>): Option<Json> {
    if datas == [] then None else Some(datas[|datas| - 1])
  }

  function SettledResult(seen: seq<Event>): Json {
    var final := Last(OfKind(seen, CallFinalResult));
    if final.None? then Null else Get(final.value, "result")
  }

  function FromResult(settled: Json): Raised {
    if settled == Str("http_400") then Status(Some(400), Null)
    else if settled == Str("http_413") then Status(Some(413), Null)
    else if settled == Str("http_429") then Status(Some(429), Null)
    else Status(None, settled)
  }

  // A settled result of a status the host tells apart is raised as that status.
  lemma ResultNamesItsStatus(digits: string)
    requires AllDigits(digits) && digits in {"400", "413", "429"}
    ensures FromResult(Str("http_" + digits)) == Status(Some(Read(digits)), Null)
  {
    ThreeDigits(digits);
    NamedResult("http_" + digits, digits);
  }

  lemma NamedResult(result: string, digits: string)
    requires result == "http_" + digits
    ensures digits == "400" ==> FromResult(Str(result)) == Status(Some(400), Null)
    ensures digits == "413" ==> FromResult(Str(result)) == Status(Some(413), Null)
    ensures digits == "429" ==> FromResult(Str(result)) == Status(Some(429), Null)
  {
    assert "http_400" == "http_" + "400" && "http_413" == "http_" + "413" && "http_429" == "http_" + "429";
    assert "http_400"[6] != "http_413"[6] && "http_400"[6] != "http_429"[6] && "http_413"[6] != "http_429"[6];
  }

  lemma ThreeDigits(s: string)
    requires |s| == 3 && AllDigits(s)
    ensures Read(s) == 100 * (s[0] as int - '0' as int) + 10 * (s[1] as int - '0' as int) + (s[2] as int - '0' as int)
  {
    assert s[..2][..1] == s[..1] && s[..1][..0] == [];
    assert Read(s[..1]) == s[0] as int - '0' as int;
    assert Read(s[..2]) == 10 * Read(s[..1]) + (s[1] as int - '0' as int);
  }

  function Failure(seen: seq<Event>): Option<Raised> {
    var errors := Last(OfKind(seen, SessionError));
    var failure := Last(OfKind(seen, CallFailure));
    var stated := if errors.Some? then StatusOf(errors.value) else None;
    if exists event :: event in seen && Aborted(event) then Some(TimedOut)
    else if stated.None? && failure.Some? && Get(failure.value, "failureKind") != Str("api") then
      Some(Status(None, Null))
    else
      var status := if stated.None? && failure.Some? then StatusOf(failure.value) else stated;
      if status.Some? then Some(Status(status, Null))
      else if errors.Some? || failure.Some? || !SettledResult(seen).Null? then Some(FromResult(SettledResult(seen)))
      else if OfKind(seen, SessionIdle) != [] then None
      else Some(TimedOut)
  }

  /* ----- what the caller is given ----- */

  datatype Reply = Reply(content: string, witnessed: bool, bill: Line)

  datatype Outcome = Raise(error: Raised) | Return(reply: Reply)

  function ReplyTo(seen: seq<Event>, target: Target): Reply {
    var answer := Last(OfKind(seen, AssistantMessage));
    var content := if answer.Some? then Get(answer.value, "content") else Null;
    Reply(if content.Str? then content.s else "", Witnessed(seen, target), Bill(seen, Spent(seen)))
  }

  function Answer(seen: seq<Event>, target: Target): Outcome {
    if !Spent(seen) && Failure(seen).Some? then Raise(Failure(seen).value) else Return(ReplyTo(seen, target))
  }

  /* ----- the verdicts exclude each other ----- */

  lemma {:induction false} KindStands(seen: seq<Event>, kind: Kind)
    requires OfKind(seen, kind) != []
    ensures 0 <= LastAt(seen, kind) < |seen|
  {
    LastOfKind(seen, kind);
  }

  lemma AnsweredIsSpent(seen: seq<Event>)
    requires OfKind(seen, AssistantMessage) != []
    ensures Spent(seen)
  {
    KindStands(seen, AssistantMessage);
    var answer := seen[LastAt(seen, AssistantMessage)];
    assert answer in seen && !Quiet(answer);
  }

  lemma WorkedBillIsPositive(seen: seq<Event>)
    ensures var bill := Bill(seen, true);
            bill.Line? && bill.nano.Some? ==> bill.nano.value > 0 && bill.nano == AiUnits(seen)
  {
  }

  // A call witnessed as the one asked for spent: it is returned, never raised, and never
  // settled at zero.
  lemma WitnessedIsSpent(seen: seq<Event>, target: Target)
    requires Witnessed(seen, target)
    ensures Spent(seen)
    ensures Answer(seen, target).Return? && Answer(seen, target).reply.witnessed
    ensures var bill := Answer(seen, target).reply.bill;
            bill.Line? && bill.nano.Some? ==> bill.nano.value > 0 && bill.nano == AiUnits(seen)
  {
    assert OneAnswer(OfKind(seen, AssistantMessage), target);
    AnsweredIsSpent(seen);
    WorkedBillIsPositive(seen);
    assert Bill(seen, Spent(seen)) == Bill(seen, true);
  }

  lemma QuietData(seen: seq<Event>, kind: Kind, data: Json)
    requires !Spent(seen) && data in OfKind(seen, kind)
    ensures QuietKind(kind) || QuietWhen(kind, data)
  {
    OfKindIs(seen, kind);
    var i :| 0 <= i < |seen| && seen[i].kind == kind && DataOf(seen[i]) == data;
    assert Quiet(seen[i]);
  }

  lemma NoneOfKind(seen: seq<Event>, kind: Kind)
    requires !Spent(seen) && (kind.AssistantMessage? || kind.AssistantUsage?)
    ensures OfKind(seen, kind) == []
  {
    if OfKind(seen, kind) != [] {
      QuietData(seen, kind, OfKind(seen, kind)[0]);
      assert false;
    }
  }

  // A call that spent nothing gave no answer and no usage, succeeded at nothing, closed every
  // dispatch, ran no sub-agent, and can only be billed zero.
  lemma UnspentDidNothing(seen: seq<Event>)
    requires !Spent(seen)
    ensures OfKind(seen, AssistantMessage) == [] && OfKind(seen, AssistantUsage) == []
    ensures forall data :: data in OfKind(seen, CallFinalResult) ==>
              Get(data, "result").Str? && Get(data, "result") != Str("success")
    ensures forall data :: data in OfKind(seen, CallFinished) ==> Get(data, "outcome") == Str("error")
    ensures Running(seen) == 0
    ensures forall event :: event in seen ==> event.agentId.Null?
  {
    NoneOfKind(seen, AssistantMessage);
    NoneOfKind(seen, AssistantUsage);
    forall data | data in OfKind(seen, CallFinalResult)
      ensures Get(data, "result").Str? && Get(data, "result") != Str("success")
    {
      QuietData(seen, CallFinalResult, data);
    }
    forall data | data in OfKind(seen, CallFinished)
      ensures Get(data, "outcome") == Str("error")
    {
      QuietData(seen, CallFinished, data);
    }
  }

  lemma {:induction false} ZeroDoubles(k: nat)
    ensures Doubled(0, k) == 0
  {
    if k > 0 {
      ZeroDoubles(k - 1);
    }
  }

  lemma {:induction false} ZeroFloat(e: int)
    ensures WholeFloat(0, e) == Some(0)
    decreases if e < 0 then -e else 0
  {
    if e >= 0 {
      ZeroDoubles(e);
    } else {
      ZeroFloat(e + 1);
    }
  }

  lemma UnspentBillIsZero(seen: seq<Event>)
    requires !Spent(seen) && AiUnits(seen).Some?
    ensures AiUnits(seen) == Some(0)
  {
    var marks := OfKind(seen, UsageCheckpoint);
    var last := marks[|marks| - 1];
    QuietData(seen, UsageCheckpoint, last);
    var value := Get(last, TOTAL);
    if value.n.Float? {
      ZeroFloat(value.n.e);
    }
  }

  // The result a call that spent nothing settled at, if any, names a failure.
  lemma UnspentResultIsAFailure(seen: seq<Event>)
    requires !Spent(seen)
    ensures SettledResult(seen).Null? <==> OfKind(seen, CallFinalResult) == []
    ensures SettledResult(seen) != Str("success")
  {
    UnspentDidNothing(seen);
    var finals := OfKind(seen, CallFinalResult);
    if finals != [] {
      assert finals[|finals| - 1] in finals;
    }
  }

  // Of the calls that spent nothing, exactly those that idled, unaborted, with no error, no
  // failed attempt and no settled result raise nothing.
  lemma OnlyAQuietIdleRaisesNothing(seen: seq<Event>)
    requires !Spent(seen)
    ensures Failure(seen).None? <==>
              && OfKind(seen, SessionIdle) != []
              && (forall event :: event in seen ==> !Aborted(event))
              && OfKind(seen, SessionError) == [] && OfKind(seen, CallFailure) == []
              && OfKind(seen, CallFinalResult) == []
  {
    UnspentResultIsAFailure(seen);
  }

  // What is raised never answered and never cost; what was not witnessed carries no finish.
  lemma RaisedCostNothing(seen: seq<Event>, target: Target)
    requires Answer(seen, target).Raise?
    ensures !Spent(seen) && !Witnessed(seen, target)
    ensures ReplyTo(seen, target).content == ""
    ensures AiUnits(seen).Some? ==> AiUnits(seen) == Some(0)
  {
    if Witnessed(seen, target) {
      WitnessedIsSpent(seen, target);
    }
    UnspentDidNothing(seen);
    if AiUnits(seen).Some? {
      UnspentBillIsZero(seen);
    }
  }

  /* ----- what a witnessed call is ----- */

  // What answers, dispatches or settles.
  predicate Works(kind: Kind) {
    kind.AssistantMessage? || kind.CallStart? || kind.CallFinished? || kind.CallFinalResult? || kind.CallFailure?
  }

  lemma WorkIsNotAfterTurn(kind: Kind)
    ensures Works(kind) ==> !AfterTurn(kind) && kind != TurnEnd
  {
  }

  lemma EndedOrder(seen: seq<Event>, end: int, i: nat)
    requires end == LastAt(seen, TurnEnd) && i < |seen|
    requires forall k :: end < k < |seen| ==> AfterTurn(seen[k].kind)
    ensures Works(seen[i].kind) ==> i < end
  {
    WorkIsNotAfterTurn(seen[i].kind);
    if i == end {
      assert seen[i].kind == TurnEnd;
    }
  }

  lemma FailuresComeFirst(seen: seq<Event>, target: Target, i: nat)
    requires OneOperation(seen, target) && i < |seen|
    ensures seen[i].kind.CallFailure? ==> i < LastAt(seen, CallFinalResult)
  {
  }

  // In a witnessed call every answer, dispatch, settled result and failed attempt stands
  // before the turn's one end, and every failed attempt before the settled result.
  lemma WitnessedOrder(seen: seq<Event>, target: Target, i: nat)
    requires Witnessed(seen, target) && i < |seen|
    ensures Works(seen[i].kind) ==> i < LastAt(seen, TurnEnd)
    ensures seen[i].kind.CallFailure? ==> i < LastAt(seen, CallFinalResult)
    ensures LastAt(seen, TurnEnd) < LastAt(seen, SessionIdle)
  {
    assert Ended(seen) && OneOperation(seen, target);
    EndedOrder(seen, LastAt(seen, TurnEnd), i);
    FailuresComeFirst(seen, target, i);
  }

  lemma AdmittedRunsOnlyThePin(event: Event, target: Target)
    requires Admitted(event, target)
    ensures event.kind.CallStart? ==> Get(event.data, "model") == Str(target.name)
    ensures event.kind.SessionStart? ==> Get(event.data, "selectedModel") == Str(target.name)
    ensures Get(event.data, "newModel").Null? || Get(event.data, "newModel") == Str(target.name)
  {
    AgreedFieldObeys(event.data, "model", target);
    AgreedFieldObeys(event.data, "selectedModel", target);
    AgreedFieldObeys(event.data, "newModel", target);
    assert EndsWith("selectedModel", "Model") && EndsWith("newModel", "Model");
  }

  // Every dispatch of a witnessed call named the model asked for, no event moved to another,
  // and its session started on it.
  lemma WitnessedRanOnlyThePin(seen: seq<Event>, target: Target, event: Event)
    requires Witnessed(seen, target) && event in seen
    ensures event.kind.CallStart? ==> Get(event.data, "model") == Str(target.name)
    ensures event.kind.SessionStart? ==> Get(event.data, "selectedModel") == Str(target.name)
    ensures Get(event.data, "newModel").Null? || Get(event.data, "newModel") == Str(target.name)
  {
    assert Admitted(event, target);
    AdmittedRunsOnlyThePin(event, target);
  }

  lemma AgreedFieldObeys(data: Json, key: string, target: Target)
    requires data.Obj? && NestedAgree(data, target)
    ensures Get(data, key).Null? || Obeys(FamilyOf(key), Get(data, key), target)
  {
    if !Get(data, key).Null? {
      LookupIsAField(data.fields, key);
      var i :| 0 <= i < |data.fields| && data.fields[i] == Field(key, Get(data, key));
      AgreedObeys(data, [], i, target);
    }
  }

  /* ----- and a plain call is witnessed ----- */

  function EffortField(effort: Option<string>): Json { if effort.Some? then Str(effort.value) else Null }

  function StartOf(target: Target): Event {
    Event(SessionStart, Null, Obj([Field("selectedModel", Str(target.name)), Field("reasoningEffort", EffortField(target.effort))]))
  }

  function DispatchOf(target: Target): Event { Event(CallStart, Null, Obj([Field("model", Str(target.name))])) }

  function AnswerOf(target: Target): Event { Event(AssistantMessage, Null, Obj([Field("model", Str(target.name))])) }

  function SuccessOf(target: Target): Event {
    Event(CallFinalResult, Null,
      Obj([Field("model", Str(target.name)), Field("result", Str("success")), Field("isByok", Bool(false))]))
  }

  function Bare(kind: Kind): Event { Event(kind, Null, Obj([])) }

  // One turn on the model asked for, answered and settled, and then idle.
  function PlainCall(target: Target): seq<Event> {
    [StartOf(target), Bare(UserMessage), Bare(TurnStart), DispatchOf(target), AnswerOf(target), SuccessOf(target),
     Bare(TurnEnd), Bare(SessionIdle)]
  }

  lemma PartHas(s: string, part: string, c: char)
    requires c in part
    ensures StartsWith(s, part) || EndsWith(s, part) ==> c in s
  {
    var k :| 0 <= k < |part| && part[k] == c;
    if StartsWith(s, part) {
      assert s[..|part|][k] == c;
    } else if EndsWith(s, part) {
      assert s[|s| - |part|..][k] == c;
    }
  }

  // A text without one of a part's characters does not contain the part.
  lemma {:induction false} NotIn(s: string, part: string, c: char)
    requires c in part && c !in s
    ensures !Contains(s, part) && !StartsWith(s, part) && !EndsWith(s, part)
  {
    PartHas(s, part, c);
    if s != "" {
      NotIn(s[1..], part, c);
    }
  }

  // A name none of whose characters is a capital, and with neither an `a` nor an `o`, is in no
  // family but by its exact name.
  lemma NoFamily(key: string)
    requires forall c :: c in {'M', 'E', 'A', 'T', 'a', 'o'} ==> c !in key
    requires key !in {"model", "modelId", "modelTo", "modelFrom", "models", "effort", "agentMode", "mode", "initiator",
                      "isByok", "isAuto", "autoTier", "interactionType", "containsBuiltInFileEditRequest"}
    ensures FamilyOf(key).Unruled?
  {
    NotIn(key, "Model", 'M');
    NotIn(key, "ModelId", 'M');
    NotIn(key, "Models", 'M');
    NotIn(key, "Effort", 'E');
    NotIn(key, "AutoTier", 'A');
    NotIn(key, "agent", 'a');
    NotIn(key, "tool", 'o');
    NotIn(key, "Agent", 'A');
    NotIn(key, "ubagent", 'a');
    NotIn(key, "Tool", 'T');
  }

  lemma ResultIsUnruled(key: string)
    requires key == "result"
    ensures FamilyOf(key).Unruled?
  {
    assert |key| == 6 && key[0] == 'r' && key[1] == 'e' && key[2] == 's' && key[3] == 'u' && key[4] == 'l' && key[5] == 't';
    assert forall c :: c in key ==> c in {'r', 'e', 's', 'u', 'l', 't'};
    NoFamily(key);
  }

  lemma LookupPast(first: Field, rest: seq<Field>, key: string)
    ensures Lookup([first] + rest, key) == if first.key == key then first.value else Lookup(rest, key)
  {
    assert ([first] + rest)[1..] == rest;
  }

  predicate StatesEffort(target: Target) {
    target.effort.Some? ==> target.effort.value != "" && target.effort.value != "none"
  }

  // What a start's two fields are found to be.
  lemma StartFields(target: Target, model: string, effort: string, other: string)
    requires model == "selectedModel" && effort == "reasoningEffort" && other == "fusion"
    ensures var data := DataOf(StartOf(target));
            && Get(data, model) == Str(target.name) && Get(data, effort) == EffortField(target.effort)
            && Get(data, other).Null?
  {
    var a, b := Field(model, Str(target.name)), Field(effort, EffortField(target.effort));
    assert |model| == 13 && |effort| == 15 && |other| == 6;
    assert [a, b] == [a] + [b] && [b] == [b] + [];
    forall key
      ensures Lookup([a, b], key) == if key == model then a.value else if key == effort then b.value else Null
    {
      LookupPast(a, [b], key);
      LookupPast(b, [], key);
    }
  }

  lemma TwoAgree(a: Field, b: Field, target: Target)
    requires FamilyOf(a.key).Model? && Obeys(Model, a.value, target)
    requires FamilyOf(b.key).Effort? && Obeys(Effort, b.value, target)
    ensures NestedAgree(Obj([a, b]), target)
  {
  }

  lemma StartFamilies(model: string, effort: string)
    requires model == "selectedModel" && effort == "reasoningEffort"
    ensures FamilyOf(model).Model? && FamilyOf(effort).Effort?
  {
    assert model[8..] == "Model" && effort[9..] == "Effort";
  }

  lemma StartAdmittedAs(target: Target, event: Event, model: string, effort: string, other: string)
    requires StatesEffort(target) && event == StartOf(target)
    requires model == "selectedModel" && effort == "reasoningEffort" && other == "fusion"
    ensures Admitted(event, target) && EffortOf(Get(DataOf(event), effort)) == target.effort
  {
    StartFields(target, model, effort, other);
    StartFamilies(model, effort);
    TwoAgree(Field(model, Str(target.name)), Field(effort, EffortField(target.effort)), target);
  }

  lemma StartIsAdmitted(target: Target)
    requires StatesEffort(target)
    ensures Admitted(StartOf(target), target)
    ensures EffortOf(Get(DataOf(StartOf(target)), "reasoningEffort")) == target.effort
  {
    StartAdmittedAs(target, StartOf(target), "selectedModel", "reasoningEffort", "fusion");
  }

  lemma ModelFieldIsAdmitted(target: Target, kind: Kind)
    requires kind == CallStart || kind == AssistantMessage
    ensures Admitted(Event(kind, Null, Obj([Field("model", Str(target.name))])), target)
    ensures Get(Obj([Field("model", Str(target.name))]), "model") == Str(target.name)
    ensures Get(Obj([Field("model", Str(target.name))]), "chunkCount").Null?
    ensures Get(Obj([Field("model", Str(target.name))]), "chunkIndex").Null?
  {
    var a := Field("model", Str(target.name));
    assert [a] == [a] + [];
    assert |"model"| == 5 && |"fusion"| == 6 && |"chunkCount"| == 10 && |"chunkIndex"| == 10;
    LookupPast(a, [], "fusion");
    LookupPast(a, [], "model");
    LookupPast(a, [], "chunkCount");
    LookupPast(a, [], "chunkIndex");
  }

  lemma SuccessFields(target: Target)
    ensures var data := DataOf(SuccessOf(target));
            && Get(data, "model") == Str(target.name) && Get(data, "result") == Str("success")
            && Get(data, "isByok") == Bool(false) && Get(data, "fusion").Null?
  {
    var a, b, c := Field("model", Str(target.name)), Field("result", Str("success")), Field("isByok", Bool(false));
    assert [a, b, c] == [a] + [b, c] && [b, c] == [b] + [c] && [c] == [c] + [];
    assert |"model"| == 5 && |"result"| == 6 && |"isByok"| == 6 && |"fusion"| == 6;
    assert "result"[0] != "isByok"[0] && "result"[0] != "fusion"[0] && "isByok"[0] != "fusion"[0];
    forall key
      ensures Lookup([a, b, c], key) == if key == a.key then a.value else if key == b.key then b.value
                                        else if key == c.key then c.value else Null
    {
      LookupPast(a, [b, c], key);
      LookupPast(b, [c], key);
      LookupPast(c, [], key);
    }
  }

  // Three fields that each agree, one of them of a name in no family.
  lemma ThreeAgree(a: Field, b: Field, c: Field, target: Target)
    requires FamilyOf(a.key).Model? && Obeys(Model, a.value, target)
    requires FamilyOf(b.key).Unruled? && b.value.Str?
    requires FamilyOf(c.key).Byok? && c.value == Bool(false)
    ensures NestedAgree(Obj([a, b, c]), target)
  {
  }

  lemma SuccessAgrees(target: Target, key: string)
    requires key == "result"
    ensures NestedAgree(Obj([Field("model", Str(target.name)), Field(key, Str("success")), Field("isByok", Bool(false))]), target)
  {
    ResultIsUnruled(key);
    ThreeAgree(Field("model", Str(target.name)), Field(key, Str("success")), Field("isByok", Bool(false)), target);
  }

  lemma SuccessIsAdmitted(target: Target)
    ensures Admitted(SuccessOf(target), target)
  {
    SuccessFields(target);
    SuccessAgrees(target, "result");
  }

  lemma BareIsAdmitted(target: Target, kind: Kind)
    requires kind in {UserMessage, TurnStart, TurnEnd, SessionIdle}
    ensures Admitted(Bare(kind), target) && !Aborted(Bare(kind))
  {
  }

  function Only(event: Event, kind: Kind): seq<Json> { if event.kind == kind then [DataOf(event)] else [] }

  lemma KindsOfTwo(a: Event, b: Event, kind: Kind)
    ensures OfKind([a, b], kind) == Only(a, kind) + Only(b, kind)
  {
    assert [a, b][..1] == [a] && [a][..0] == [];
    assert OfKind([a], kind) == Only(a, kind);
  }

  lemma KindsOfFour(a: Event, b: Event, c: Event, d: Event, kind: Kind)
    ensures OfKind([a, b, c, d], kind) == Only(a, kind) + Only(b, kind) + Only(c, kind) + Only(d, kind)
  {
    KindsOfTwo(a, b, kind);
    KindsOfTwo(c, d, kind);
    OfKindJoins([a, b], [c, d], kind);
    assert [a, b, c, d] == [a, b] + [c, d];
  }

  // The data of each type the call holds.
  lemma PlainKinds(target: Target, kind: Kind)
    ensures OfKind(PlainCall(target), kind)
            == (Only(StartOf(target), kind) + Only(Bare(UserMessage), kind) + Only(Bare(TurnStart), kind) + Only(DispatchOf(target), kind))
               + (Only(AnswerOf(target), kind) + Only(SuccessOf(target), kind) + Only(Bare(TurnEnd), kind) + Only(Bare(SessionIdle), kind))
  {
    var first := [StartOf(target), Bare(UserMessage), Bare(TurnStart), DispatchOf(target)];
    var second := [AnswerOf(target), SuccessOf(target), Bare(TurnEnd), Bare(SessionIdle)];
    KindsOfFour(StartOf(target), Bare(UserMessage), Bare(TurnStart), DispatchOf(target), kind);
    KindsOfFour(AnswerOf(target), SuccessOf(target), Bare(TurnEnd), Bare(SessionIdle), kind);
    OfKindJoins(first, second, kind);
    assert PlainCall(target) == first + second;
  }

  // The call's events, one by one.
  predicate IsPlain(seen: seq<Event>, target: Target) {
    && |seen| == 8 && seen[0] == StartOf(target) && seen[1] == Bare(UserMessage) && seen[2] == Bare(TurnStart)
    && seen[3] == DispatchOf(target) && seen[4] == AnswerOf(target) && seen[5] == SuccessOf(target)
    && seen[6] == Bare(TurnEnd) && seen[7] == Bare(SessionIdle)
  }

  lemma LastIs(seen: seq<Event>, kind: Kind, k: int)
    requires -1 <= k < |seen| && (k >= 0 ==> seen[k].kind == kind)
    requires forall i :: k < i < |seen| ==> seen[i].kind != kind
    ensures LastAt(seen, kind) == k
  {
  }

  lemma PlainEnds(seen: seq<Event>, target: Target)
    requires IsPlain(seen, target)
    ensures LastAt(seen, TurnEnd) == 6 && LastAt(seen, SessionIdle) == 7
    ensures LastAt(seen, CallFailure) == -1 && LastAt(seen, CallFinalResult) == 5
  {
    LastIs(seen, TurnEnd, 6);
    LastIs(seen, SessionIdle, 7);
    LastIs(seen, CallFailure, -1);
    LastIs(seen, CallFinalResult, 5);
  }

  lemma PlainIsAdmitted(seen: seq<Event>, target: Target, i: nat)
    requires StatesEffort(target)
    requires IsPlain(seen, target) && i < 8
    ensures Admitted(seen[i], target) && !Aborted(seen[i])
  {
    if i == 0 {
      StartIsAdmitted(target);
    } else if i == 3 {
      ModelFieldIsAdmitted(target, CallStart);
    } else if i == 4 {
      ModelFieldIsAdmitted(target, AssistantMessage);
    } else if i == 5 {
      SuccessIsAdmitted(target);
    } else {
      BareIsAdmitted(target, seen[i].kind);
    }
  }

  lemma PlainAnswers(target: Target)
    ensures OneAnswer(OfKind(PlainCall(target), AssistantMessage), target)
    ensures OfKind(PlainCall(target), AssistantUsage) == []
  {
    PlainKinds(target, AssistantMessage);
    PlainKinds(target, AssistantUsage);
    ModelFieldIsAdmitted(target, AssistantMessage);
  }

  lemma PlainStates(target: Target)
    ensures OfKind(PlainCall(target), SessionStart) == [DataOf(StartOf(target))]
    ensures OfKind(PlainCall(target), ModelChange) == [] && OfKind(PlainCall(target), SessionShutdown) == []
    ensures OfKind(PlainCall(target), UserMessage) == [Obj([])]
  {
    PlainKinds(target, SessionStart);
    PlainKinds(target, ModelChange);
    PlainKinds(target, UserMessage);
    PlainKinds(target, SessionShutdown);
  }

  lemma PlainAgrees(target: Target)
    requires StatesEffort(target)
    ensures SessionAgrees(PlainCall(target), [], target)
  {
    PlainStates(target);
    StartIsAdmitted(target);
  }

  lemma PlainOperates(target: Target)
    ensures OneOperation(PlainCall(target), target)
  {
    PlainKinds(target, CallFinalResult);
    PlainKinds(target, CallFinished);
    PlainKinds(target, SessionError);
    PlainEnds(PlainCall(target), target);
    SuccessFields(target);
  }

  lemma PlainTurns(target: Target)
    ensures |OfKind(PlainCall(target), TurnEnd)| == 1 && |OfKind(PlainCall(target), TurnStart)| == 1
  {
    PlainKinds(target, TurnEnd);
    PlainKinds(target, TurnStart);
  }

  lemma PlainEnded(seen: seq<Event>, target: Target)
    requires IsPlain(seen, target) && (forall event :: event in seen ==> !Aborted(event))
    requires |OfKind(seen, TurnEnd)| == 1 && |OfKind(seen, TurnStart)| == 1
    ensures Ended(seen)
  {
    PlainEnds(seen, target);
  }

  lemma PlainAllAdmitted(seen: seq<Event>, target: Target)
    requires IsPlain(seen, target) && StatesEffort(target)
    ensures forall event :: event in seen ==> Admitted(event, target) && !Aborted(event)
  {
    forall event | event in seen
      ensures Admitted(event, target) && !Aborted(event)
    {
      var i :| 0 <= i < |seen| && seen[i] == event;
      PlainIsAdmitted(seen, target, i);
    }
  }

  lemma PlainCallEnded(seen: seq<Event>, target: Target)
    requires seen == PlainCall(target) && StatesEffort(target)
    ensures Ended(seen)
  {
    PlainAllAdmitted(seen, target);
    PlainTurns(target);
    PlainEnded(seen, target);
  }

  // One turn on the model asked for, at its effort, answered and settled, is witnessed.
  lemma APlainCallIsWitnessed(target: Target)
    requires StatesEffort(target)
    ensures Witnessed(PlainCall(target), target)
  {
    PlainAllAdmitted(PlainCall(target), target);
    PlainAnswers(target);
    PlainAgrees(target);
    PlainOperates(target);
    PlainCallEnded(PlainCall(target), target);
  }
}
