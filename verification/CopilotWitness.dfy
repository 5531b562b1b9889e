// What a witnessed call is, event by event: exactly the call that was asked for, answered and
// settled once, on the model and at the effort asked for, in one turn of one prompt.
module CopilotWitness {
  import opened Wrappers
  import opened Texts
  import opened CopilotTrace
  import opened CopilotBill
  import opened CopilotVerdicts

  // The `i`-th event is the only one of its kind.
  ghost predicate OnlyAt(seen: seq<Event>, kind: Kind, i: int) {
    0 <= i < |seen| && seen[i].kind == kind && forall j :: 0 <= j < |seen| && seen[j].kind == kind ==> j == i
  }

  ghost predicate NoneOf(seen: seq<Event>, kind: Kind) { forall event :: event in seen ==> event.kind != kind }

  lemma {:induction false} NoneIs(seen: seq<Event>, kind: Kind)
    ensures OfKind(seen, kind) == [] <==> NoneOf(seen, kind)
  {
    if seen != [] {
      var before, last := seen[..|seen| - 1], seen[|seen| - 1];
      NoneIs(before, kind);
      assert seen == before + [last];
    }
  }

  lemma OneMore(before: seq<Event>, last: Event, kind: Kind)
    ensures OfKind(before + [last], kind) == OfKind(before, kind) + (if last.kind == kind then [DataOf(last)] else [])
  {
    assert (before + [last])[..|before|] == before;
  }

  lemma OnlyAmongOthers(before: seq<Event>, last: Event, kind: Kind, i: int)
    requires last.kind != kind
    ensures OnlyAt(before, kind, i) <==> OnlyAt(before + [last], kind, i)
  {
    var seen := before + [last];
    assert seen[|before|] == last && forall j :: 0 <= j < |before| ==> seen[j] == before[j];
  }

  lemma OnlyTheLast(before: seq<Event>, last: Event, kind: Kind, i: int)
    requires last.kind == kind
    ensures OnlyAt(before + [last], kind, i) <==> i == |before| && NoneOf(before, kind)
  {
    var seen := before + [last];
    assert seen[|before|] == last && forall j :: 0 <= j < |before| ==> seen[j] == before[j];
    if OnlyAt(seen, kind, i) {
      assert i == |before|;
      forall event | event in before
        ensures event.kind != kind
      {
        var j :| 0 <= j < |before| && before[j] == event;
        assert seen[j] == event;
      }
    }
  }

  // The data of a kind is one event's exactly when that is the only event of the kind.
  ghost predicate OneOf(seen: seq<Event>, kind: Kind) {
    && (|OfKind(seen, kind)| == 1 <==> exists i :: OnlyAt(seen, kind, i))
    && (forall i :: OnlyAt(seen, kind, i) ==> OfKind(seen, kind) == [DataOf(seen[i])])
  }

  lemma OneAmongOthers(before: seq<Event>, last: Event, kind: Kind)
    requires last.kind != kind && OneOf(before, kind)
    ensures OneOf(before + [last], kind)
  {
    OneMore(before, last, kind);
    forall i
      ensures OnlyAt(before, kind, i) <==> OnlyAt(before + [last], kind, i)
      ensures OnlyAt(before, kind, i) ==> (before + [last])[i] == before[i]
    {
      OnlyAmongOthers(before, last, kind, i);
    }
  }

  lemma OneTheLast(before: seq<Event>, last: Event, kind: Kind)
    requires last.kind == kind
    ensures OneOf(before + [last], kind)
  {
    OneMore(before, last, kind);
    NoneIs(before, kind);
    OnlyTheLast(before, last, kind, |before|);
    forall i
      ensures OnlyAt(before + [last], kind, i) <==> i == |before| && NoneOf(before, kind)
    {
      OnlyTheLast(before, last, kind, i);
    }
  }

  lemma {:induction false} OneIs(seen: seq<Event>, kind: Kind)
    ensures OneOf(seen, kind)
  {
    if seen != [] {
      var before, last := seen[..|seen| - 1], seen[|seen| - 1];
      OneIs(before, kind);
      assert seen == before + [last];
      if last.kind == kind {
        OneTheLast(before, last, kind);
      } else {
        OneAmongOthers(before, last, kind);
      }
    }
  }

  /* ----- the answer, the result, the usage ----- */

  // One answer, of the model asked for, all in one piece: the only chunk, if it is one.
  ghost predicate AnsweredOnce(seen: seq<Event>, target: Target) {
    exists i ::
      && OnlyAt(seen, AssistantMessage, i)
      && Get(DataOf(seen[i]), "model") == Str(target.name)
      && (Get(DataOf(seen[i]), "chunkCount") == Null || EqualsWhole(Get(DataOf(seen[i]), "chunkCount"), 1))
      && (Get(DataOf(seen[i]), "chunkIndex") == Null || EqualsWhole(Get(DataOf(seen[i]), "chunkIndex"), 0))
  }

  // One settled result, a success on the model asked for and stated not the user's own key, that
  // every failed attempt stands before.
  ghost predicate SettledOnce(seen: seq<Event>, target: Target) {
    exists i ::
      && OnlyAt(seen, CallFinalResult, i)
      && Get(DataOf(seen[i]), "model") == Str(target.name)
      && Get(DataOf(seen[i]), "result") == Str("success")
      && Get(DataOf(seen[i]), "isByok") == Bool(false)
      && forall j :: 0 <= j < |seen| && seen[j].kind == CallFailure ==> j < i
  }

  // Every dispatch finished in success, and the session had no error.
  ghost predicate NothingFailed(seen: seq<Event>) {
    && (forall event :: event in seen && event.kind == CallFinished ==> Get(DataOf(event), "outcome") == Str("success"))
    && (forall event :: event in seen ==> event.kind != SessionError)
  }

  // A usage on the model asked for, by the provider's own account too, at its effort, not the
  // user's own key, and not filtered.
  predicate UsedAsAsked(usage: Json, target: Target) {
    && Get(usage, "model") == Str(target.name)
    && (Get(usage, "copilotUsage") == Null
        || (Get(usage, "copilotUsage").Obj? && Get(Get(usage, "copilotUsage"), "model") == Str(target.name)))
    && Get(usage, "isByok") == Bool(false)
    && EffortOf(Get(usage, "reasoningEffort")) == target.effort
    && Get(usage, "contentFilterTriggered") != Bool(true)
  }

  // At most one usage, as asked for.
  ghost predicate UsedOnce(seen: seq<Event>, target: Target) {
    NoneOf(seen, AssistantUsage)
    || exists i :: OnlyAt(seen, AssistantUsage, i) && UsedAsAsked(DataOf(seen[i]), target)
  }

  /* ----- the session and its turn ----- */

  // The effort asked for is stated by every start and model change, and by one of them at
  // least where no usage witnesses it.
  ghost predicate StatesTheEffort(seen: seq<Event>, target: Target) {
    && (NoneOf(seen, AssistantUsage) ==> exists event :: event in seen && event.kind == SessionStart)
    && (forall event :: event in seen && (event.kind == SessionStart || event.kind == ModelChange) ==>
          EffortOf(Get(DataOf(event), "reasoningEffort")) == target.effort)
  }

  // At most one prompt, and no continuation of the runtime's own.
  ghost predicate PromptedOnce(seen: seq<Event>) {
    && (NoneOf(seen, UserMessage) || exists i :: OnlyAt(seen, UserMessage, i))
    && (forall event :: event in seen && event.kind == UserMessage ==>
          !Truthy(Get(DataOf(event), "isAutopilotContinuation")))
  }

  // Every shutdown is routine, and meters the model asked for alone.
  ghost predicate ShutsDownOnThePin(seen: seq<Event>, target: Target) {
    forall event :: event in seen && event.kind == SessionShutdown ==>
      && Get(DataOf(event), "shutdownType") == Str("routine")
      && Get(DataOf(event), "modelMetrics").Obj?
      && forall field :: field in Get(DataOf(event), "modelMetrics").fields ==> field.key == target.name
  }

  // One turn, whose end nothing follows but a checkpoint, an idle or a shutdown, and an idle
  // does; no idle is aborted.
  ghost predicate TurnedOnce(seen: seq<Event>) {
    && (exists i :: OnlyAt(seen, TurnStart, i))
    && (exists end ::
          && OnlyAt(seen, TurnEnd, end)
          && (forall j :: end < j < |seen| ==> seen[j].kind in {UsageCheckpoint, SessionIdle, SessionShutdown})
          && exists j :: end < j < |seen| && seen[j].kind == SessionIdle)
    && (forall event :: event in seen && event.kind == SessionIdle ==> Get(DataOf(event), "aborted") != Bool(true))
  }

  /* ----- exactly the call asked for ----- */

  lemma AnswerIs(seen: seq<Event>, target: Target)
    ensures OneAnswer(OfKind(seen, AssistantMessage), target) <==> AnsweredOnce(seen, target)
  {
    OneIs(seen, AssistantMessage);
  }

  lemma FailuresBefore(seen: seq<Event>, i: int)
    ensures LastAt(seen, CallFailure) < i <==> 0 <= i && forall j :: 0 <= j < |seen| && seen[j].kind == CallFailure ==> j < i
  {
  }

  lemma OnlyIsLast(seen: seq<Event>, kind: Kind, i: int)
    requires OnlyAt(seen, kind, i)
    ensures LastAt(seen, kind) == i
  {
  }

  lemma SettledIs(seen: seq<Event>, target: Target)
    ensures OneOperation(seen, target) <==> SettledOnce(seen, target) && NothingFailed(seen)
  {
    OneIs(seen, CallFinalResult);
    NoneIs(seen, SessionError);
    FinishesAre(seen);
    forall i | OnlyAt(seen, CallFinalResult, i)
      ensures LastAt(seen, CallFinalResult) == i
      ensures LastAt(seen, CallFailure) < i <==> forall j :: 0 <= j < |seen| && seen[j].kind == CallFailure ==> j < i
    {
      OnlyIsLast(seen, CallFinalResult, i);
      FailuresBefore(seen, i);
    }
  }

  lemma DataOfEvents(seen: seq<Event>, kind: Kind, data: Json)
    ensures data in OfKind(seen, kind) <==> exists event :: event in seen && event.kind == kind && DataOf(event) == data
  {
    OfKindIs(seen, kind);
    if event :| event in seen && event.kind == kind && DataOf(event) == data {
      var i :| 0 <= i < |seen| && seen[i] == event;
    }
    if data in OfKind(seen, kind) {
      var i :| 0 <= i < |seen| && seen[i].kind == kind && DataOf(seen[i]) == data;
      assert seen[i] in seen;
    }
  }

  // What holds of a kind's data holds of its events.
  lemma AllOfKind(seen: seq<Event>, kind: Kind, p: Json -> bool)
    ensures (forall data :: data in OfKind(seen, kind) ==> p(data))
            <==> forall event :: event in seen && event.kind == kind ==> p(DataOf(event))
  {
    forall data
      ensures data in OfKind(seen, kind) <==> exists event :: event in seen && event.kind == kind && DataOf(event) == data
    {
      DataOfEvents(seen, kind, data);
    }
  }

  lemma FinishesAre(seen: seq<Event>)
    ensures (forall data :: data in OfKind(seen, CallFinished) ==> Get(data, "outcome") == Str("success"))
            <==> forall event :: event in seen && event.kind == CallFinished ==> Get(DataOf(event), "outcome") == Str("success")
  {
    AllOfKind(seen, CallFinished, data => Get(data, "outcome") == Str("success"));
  }

  lemma UsageIs(seen: seq<Event>, target: Target)
    ensures UsageAgrees(OfKind(seen, AssistantUsage), target) <==> UsedOnce(seen, target)
  {
    NoneIs(seen, AssistantUsage);
    OneIs(seen, AssistantUsage);
  }

  lemma EffortIs(seen: seq<Event>, target: Target)
    ensures && (OfKind(seen, AssistantUsage) == [] ==> OfKind(seen, SessionStart) != [])
            && (forall data :: data in OfKind(seen, SessionStart) + OfKind(seen, ModelChange) ==>
                  EffortOf(Get(data, "reasoningEffort")) == target.effort)
            <==> StatesTheEffort(seen, target)
  {
    NoneIs(seen, AssistantUsage);
    NoneIs(seen, SessionStart);
    AllOfKind(seen, SessionStart, data => EffortOf(Get(data, "reasoningEffort")) == target.effort);
    AllOfKind(seen, ModelChange, data => EffortOf(Get(data, "reasoningEffort")) == target.effort);
  }

  lemma PromptIs(seen: seq<Event>)
    ensures && |OfKind(seen, UserMessage)| <= 1
            && (forall data :: data in OfKind(seen, UserMessage) ==> !Truthy(Get(data, "isAutopilotContinuation")))
            <==> PromptedOnce(seen)
  {
    NoneIs(seen, UserMessage);
    OneIs(seen, UserMessage);
    AllOfKind(seen, UserMessage, data => !Truthy(Get(data, "isAutopilotContinuation")));
  }

  lemma ShutdownsAre(seen: seq<Event>, target: Target)
    ensures (forall data :: data in OfKind(seen, SessionShutdown) ==> ShutdownNamesThePin(data, target))
            <==> ShutsDownOnThePin(seen, target)
  {
    AllOfKind(seen, SessionShutdown, data => ShutdownNamesThePin(data, target));
  }

  lemma SessionIs(seen: seq<Event>, target: Target)
    ensures CopilotVerdicts.SessionAgrees(seen, OfKind(seen, AssistantUsage), target)
            <==> StatesTheEffort(seen, target) && PromptedOnce(seen) && ShutsDownOnThePin(seen, target)
  {
    EffortIs(seen, target);
    PromptIs(seen);
    ShutdownsAre(seen, target);
  }

  lemma EndIs(seen: seq<Event>)
    ensures Ended(seen) <==> TurnedOnce(seen)
  {
    OneIs(seen, TurnStart);
    OneIs(seen, TurnEnd);
    forall end | OnlyAt(seen, TurnEnd, end)
      ensures LastAt(seen, TurnEnd) == end
      ensures end < LastAt(seen, SessionIdle) <==> exists j :: end < j < |seen| && seen[j].kind == SessionIdle
    {
      OnlyIsLast(seen, TurnEnd, end);
    }
    assert (forall event :: event in seen ==> !Aborted(event)) <==>
             forall event :: event in seen && event.kind == SessionIdle ==> Get(DataOf(event), "aborted") != Bool(true);
  }

  // A call is witnessed if and only if every event of it is admitted, it was answered and
  // settled once and used at most once, nothing failed, and its session stated the effort, took
  // one prompt and ended its one turn -- all on the model asked for.
  lemma WitnessedExactly(seen: seq<Event>, target: Target)
    ensures Witnessed(seen, target) <==>
              && (forall event :: event in seen ==> Admitted(event, target))
              && AnsweredOnce(seen, target) && SettledOnce(seen, target) && NothingFailed(seen)
              && UsedOnce(seen, target) && StatesTheEffort(seen, target)
              && PromptedOnce(seen) && ShutsDownOnThePin(seen, target) && TurnedOnce(seen)
  {
    AnswerIs(seen, target);
    SettledIs(seen, target);
    UsageIs(seen, target);
    SessionIs(seen, target);
    EndIs(seen);
  }

  /* ----- every event, and every field of it ----- */

  // The field at the end of a path that enters no ruled field.
  ghost predicate Meets(event: Event, path: seq<nat>, i: nat, field: Field) {
    var at := Entered(event.data, path);
    at.Some? && at.value.Obj? && i < |at.value.fields| && at.value.fields[i] == field
  }

  // What a field that names something of the call may say: the model asked for, the effort
  // asked for, a user's own interactive turn, no key of the user's own, and nothing at all of
  // agents, tools, automatic tiers or kinds of interaction.
  predicate SaysAsAsked(field: Field, target: Target) {
    var key, value := field.key, field.value;
    && (key in {"model", "modelId", "modelTo", "modelFrom", "selectedModel", "newModel", "previousModel"} ==>
          value == Null || value == Str(target.name))
    && (key == "models" ==> value == Null || (value.List? && forall item :: item in value.items ==> item == Str(target.name)))
    && (key in {"effort", "reasoningEffort"} ==> value == Null || EffortOf(value) == target.effort)
    && (key in {"mode", "agentMode"} ==> value == Null || value == Str("interactive"))
    && (key == "initiator" ==> value == Null || value == Str("user"))
    && (key == "isByok" ==> value != Bool(true))
    && (key in {"isAuto", "autoTier", "interactionType", "containsBuiltInFileEditRequest"} ==> !Truthy(value))
  }

  lemma NamedFamilies(key: string)
    ensures key in {"model", "modelId", "modelTo", "modelFrom"} ==> FamilyOf(key).Model?
    ensures key == "models" ==> FamilyOf(key).Models?
    ensures key == "effort" ==> FamilyOf(key).Effort?
    ensures key in {"mode", "agentMode"} ==> FamilyOf(key).Mode?
    ensures key == "initiator" ==> FamilyOf(key).Initiator?
    ensures key == "isByok" ==> FamilyOf(key).Byok?
    ensures key in {"isAuto", "autoTier", "interactionType", "containsBuiltInFileEditRequest"} ==> FamilyOf(key).Absent?
  {
  }

  lemma EndsAsAModel(key: string)
    requires EndsWith(key, "Model") && key in {"selectedModel", "newModel", "previousModel"}
    ensures FamilyOf(key).Model?
  {
  }

  lemma EndsAsAnEffort(key: string)
    requires key == "reasoningEffort"
    ensures FamilyOf(key).Effort?
  {
    assert key[9..] == "Effort";
  }

  lemma NamesEnd(key: string)
    ensures key in {"selectedModel", "newModel", "previousModel"} ==> EndsWith(key, "Model")
  {
    if key in {"selectedModel", "previousModel"} {
      assert key[8..] == "Model";
    } else if key == "newModel" {
      assert key[3..] == "Model";
    }
  }

  // Beyond those names, a name's ending or part decides.
  lemma OtherFamilies(key: string)
    requires FamilyOf(key).Unruled?
    ensures !EndsWith(key, "Model") && !EndsWith(key, "ModelId") && !EndsWith(key, "Models") && !EndsWith(key, "Effort")
    ensures !EndsWith(key, "AutoTier") && !StartsWith(key, "agent") && !StartsWith(key, "tool")
    ensures !Contains(key, "Agent") && !Contains(key, "ubagent") && !Contains(key, "Tool")
  {
  }

  // Every field of a witnessed call that is reached says what was asked for.
  lemma WitnessedSaysAsAsked(seen: seq<Event>, target: Target, event: Event, path: seq<nat>, i: nat, field: Field)
    requires Witnessed(seen, target) && event in seen && Meets(event, path, i, field)
    ensures SaysAsAsked(field, target)
  {
    assert Admitted(event, target);
    AgreedObeys(event.data, path, i, target);
    NamedFamilies(field.key);
    NamesEnd(field.key);
    if field.key in {"selectedModel", "newModel", "previousModel"} {
      EndsAsAModel(field.key);
    } else if field.key == "reasoningEffort" {
      EndsAsAnEffort(field.key);
    }
  }

  lemma ChoicesAreOwn(source: Json)
    requires Chosen(source)
    ensures source !in {Str("automatic"), Str("agent"), Str("plan_mode"), Str("auto_tier_recommendation")}
  {
  }

  lemma LoadsAreEmpty(kind: Kind, data: Json)
    requires ConditionHolds(kind, data)
    ensures kind == McpServersLoaded ==> Get(data, "servers") == List([])
    ensures kind == SkillsLoaded ==> Get(data, "skills") == List([])
    ensures kind == ExtensionsLoaded ==> Get(data, "extensions") == List([])
    ensures kind == CustomAgentsUpdated ==> Get(data, "agents") == List([])
  {
  }

  // Every event of a witnessed call is the host's own: no sub-agent's, no fusion's, none of a
  // type unread; what it loaded was nothing, and what it chose was chosen for it.
  lemma WitnessedEventsAre(seen: seq<Event>, target: Target, event: Event)
    requires Witnessed(seen, target) && event in seen
    ensures event.data.Obj? && event.agentId == Null && Get(event.data, "fusion") == Null
    ensures !event.kind.Other? && event.kind != Unreadable && event.kind != FusionPhaseCompleted && event.kind != FusionPhaseFailed
    ensures event.kind == McpServerStatusChanged ==> !Truthy(Get(event.data, "serverName"))
    ensures event.kind == McpServersLoaded ==> Get(event.data, "servers") == List([])
    ensures event.kind == SkillsLoaded ==> Get(event.data, "skills") == List([])
    ensures event.kind == ExtensionsLoaded ==> Get(event.data, "extensions") == List([])
    ensures event.kind == CustomAgentsUpdated ==> Get(event.data, "agents") == List([])
    ensures event.kind == CallFailure ==> Get(event.data, "source") == Str("top_level")
    ensures event.kind == ModelChange ==>
              Get(event.data, "source") !in {Str("automatic"), Str("agent"), Str("plan_mode"), Str("auto_tier_recommendation")}
  {
    assert Admitted(event, target);
    LoadsAreEmpty(event.kind, event.data);
    if event.kind == ModelChange {
      ChoicesAreOwn(Get(event.data, "source"));
    }
  }

  // What an effort states: itself, or none where it is no text, or the text of none.
  lemma EffortsStated(value: Json, effort: Option<string>)
    ensures EffortOf(value) == effort <==>
              if effort == None then value == Str("") || value == Str("none") || !value.Str?
              else value == Str(effort.value) && effort.value != "" && effort.value != "none"
  {
  }

  // And the call that was asked for breaks no rule: its model, alone or listed, its effort, an
  // interactive turn of the user's, one chunk of one.
  lemma RulesAdmitTheCall(target: Target)
    ensures Obeys(Model, Str(target.name), target) && Obeys(Models, List([Str(target.name)]), target)
    ensures Obeys(Mode, Str("interactive"), target) && Obeys(Initiator, Str("user"), target)
    ensures Obeys(Byok, Bool(false), target) && Obeys(Absent, List([]), target)
    ensures forall value :: EffortOf(value) == target.effort ==> Obeys(Effort, value, target)
    ensures forall family :: family != Absent ==> Obeys(family, Null, target)
    ensures EqualsWhole(Num(Int(1)), 1) && EqualsWhole(Bool(true), 1) && EqualsWhole(Bool(false), 0)
    ensures !EqualsWhole(Num(Int(2)), 1) && !EqualsWhole(Bool(false), 1) && !EqualsWhole(Bool(true), 0)
  {
  }
}
