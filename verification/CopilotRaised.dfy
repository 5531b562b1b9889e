// What a call that cost nothing is, event by event; what it is then raised as; and what a
// reply's bill says.
module CopilotRaised {
  import opened Wrappers
  import opened CopilotTrace
  import opened CopilotBill
  import opened CopilotVerdicts

  /* ----- that cost nothing ----- */

  // Zero, as a number states it.
  ghost predicate IsZero(value: Json) { value == Num(Int(0)) || exists e :: value == Num(Float(0, e)) }

  ghost predicate IsZeroOrUnstated(value: Json) { value == Null || IsZero(value) }

  predicate AlwaysQuiet(kind: Kind) {
    || kind == SessionStart || kind == UserMessage || kind == TurnStart || kind == TurnEnd || kind == CallStart
    || kind == SessionError || kind == SessionIdle || kind == SessionInfo || kind == SessionWarning
    || kind == ManagedSettingsResolved || kind == ManagedSettingsEnforced
  }

  // An event with nothing of a cost in it: of a type that never is, a result that failed, a
  // finish in error, a failed attempt of the host's own, a checkpoint of zero, or a shutdown
  // that metered nothing.
  ghost predicate CostsNothing(event: Event) {
    var data := event.data;
    && data.Obj? && event.agentId == Null
    && (|| AlwaysQuiet(event.kind)
        || (event.kind == CallFinalResult && exists result :: Get(data, "result") == Str(result) && result != "success")
        || (event.kind == CallFinished && Get(data, "outcome") == Str("error"))
        || (event.kind == CallFailure && Get(data, "source") == Str("top_level"))
        || (event.kind == UsageCheckpoint
            && IsZero(Get(data, "totalNanoAiu")) && IsZeroOrUnstated(Get(data, "totalPremiumRequests")))
        || (event.kind == SessionShutdown
            && Get(data, "modelMetrics") == Obj([]) && !Truthy(Get(data, "agentMetrics"))
            && IsZeroOrUnstated(Get(data, "totalNanoAiu")) && IsZeroOrUnstated(Get(data, "totalPremiumRequests"))))
  }

  lemma ZeroIs(value: Json)
    ensures StatedZero(value) <==> IsZero(value)
    ensures NoneOrZero(value) <==> IsZeroOrUnstated(value)
  {
    if StatedZero(value) && value.n.Float? {
      assert value == Num(Float(0, value.n.e));
    }
  }

  lemma QuietKindIs(kind: Kind)
    ensures QuietKind(kind) <==> AlwaysQuiet(kind)
  {
  }

  lemma QuietIs(event: Event)
    ensures Quiet(event) <==> CostsNothing(event)
  {
    QuietKindIs(event.kind);
    ZeroIs(Get(event.data, "totalNanoAiu"));
    ZeroIs(Get(event.data, "totalPremiumRequests"));
    var result := Get(event.data, "result");
    assert result.Str? ==> result == Str(result.s);
  }

  // A call cost nothing if and only if no event of it can have, and every dispatch closed.
  lemma UnspentExactly(seen: seq<Event>)
    ensures !Spent(seen) <==> Running(seen) == 0 && forall event :: event in seen ==> CostsNothing(event)
  {
    forall event
      ensures Quiet(event) <==> CostsNothing(event)
    {
      QuietIs(event);
    }
  }

  /* ----- how it is raised ----- */

  // The last event of a kind, if there is one.
  ghost predicate IsLast(seen: seq<Event>, kind: Kind, i: int) {
    if i < 0 then forall j :: 0 <= j < |seen| ==> seen[j].kind != kind
    else i < |seen| && seen[i].kind == kind && forall j :: i < j < |seen| ==> seen[j].kind != kind
  }

  function StatusIn(data: Json): Option<int> {
    match Get(data, "statusCode")
    case Num(Int(code)) => Some(code)
    case _ => None
  }

  lemma LastIsData(seen: seq<Event>, kind: Kind, i: int)
    requires IsLast(seen, kind, i)
    ensures Last(OfKind(seen, kind)) == if i < 0 then None else Some(DataOf(seen[i]))
  {
    LastOfKind(seen, kind);
  }

  // A failure is raised as the status its last session error states; else, for an attempt that
  // failed in the provider's own interface, as the status that states, and as none for one that
  // failed elsewhere; else as what the last settled result says; else, where the session idled,
  // not at all. A session that was aborted, or never idled, timed out.
  lemma FailureIs(seen: seq<Event>, error: int, attempt: int, final: int, idle: int)
    requires IsLast(seen, SessionError, error) && IsLast(seen, CallFailure, attempt)
    requires IsLast(seen, CallFinalResult, final) && IsLast(seen, SessionIdle, idle)
    ensures var stated := if error < 0 then None else StatusIn(DataOf(seen[error]));
            var tried := if attempt < 0 then None else StatusIn(DataOf(seen[attempt]));
            var result := if final < 0 then Null else Get(DataOf(seen[final]), "result");
            Failure(seen) ==
            if exists event :: event in seen && Aborted(event) then Some(TimedOut)
            else if stated.Some? then Some(Status(stated, Null))
            else if attempt >= 0 && Get(DataOf(seen[attempt]), "failureKind") != Str("api") then Some(Status(None, Null))
            else if tried.Some? then Some(Status(tried, Null))
            else if error >= 0 || attempt >= 0 || result != Null then Some(FromResult(result))
            else if idle >= 0 then None else Some(TimedOut)
  {
    LastIsData(seen, SessionError, error);
    LastIsData(seen, CallFailure, attempt);
    LastIsData(seen, CallFinalResult, final);
    LastIsData(seen, SessionIdle, idle);
  }

  lemma OtherResultsAreDeclared(result: Json)
    requires result !in {Str("http_400"), Str("http_413"), Str("http_429")}
    ensures FromResult(result) == Status(None, result)
  {
  }

  // A call is raised exactly when it cost nothing and failed; otherwise it is returned, with the
  // text of its last answer if that is text.
  lemma AnswerIs(seen: seq<Event>, target: Target, answer: int)
    requires IsLast(seen, AssistantMessage, answer)
    ensures Answer(seen, target) ==
            if !Spent(seen) && Failure(seen) != None then Raise(Failure(seen).value)
            else
              var content := if answer < 0 then Null else Get(DataOf(seen[answer]), "content");
              Return(Reply(if content.Str? then content.s else "", Witnessed(seen, target), Bill(seen, Spent(seen))))
  {
    LastIsData(seen, AssistantMessage, answer);
  }

  /* ----- what a bill says ----- */

  // There is a bill exactly where there is a checkpoint; it carries the units read, but for a
  // zero beside work that may have cost something, and the premium requests of the last
  // checkpoint where that counts them.
  lemma BillSays(seen: seq<Event>, worked: bool, mark: int)
    requires IsLast(seen, UsageCheckpoint, mark)
    ensures Bill(seen, worked) ==
            if mark < 0 then NoBill
            else
              var units, premium := AiUnits(seen), Get(DataOf(seen[mark]), "totalPremiumRequests");
              Line(if units == Some(0) && worked then None else units,
                   if FiniteCount(premium) then Some(premium.n) else None)
  {
    LastIsData(seen, UsageCheckpoint, mark);
    LastOfKind(seen, UsageCheckpoint);
  }
}
