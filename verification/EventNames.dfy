// The names of a case stream: at most one for each kind of row, and none for the rows a
// client would have nothing to refetch for.
module EventNames {
  import opened Wrappers

  datatype RunEvent =
    | RoutePinned | InputPinned | AttemptStarted | CallOutcomeRecorded | AttemptAccepted
    | RunComplete | RunFailed | RunBlocked | RunCancelled | RunParked

  datatype Action =
    | SourceWithdrawn | SourcesAdmitted
    | GateReleasedSourceSet | GateReleasedResearchPlan
    | RunCreated | RunInputPinned | RunEnqueued | RunRequeued | RunCancelRequested
    | CaseCreated | RevisionSaved
    | OpinionSigned | DeliverableFrozen | DeliverableFiled
    | StandingGranted | StandingRevoked
    | BookEntryAdded | BookEntryWithdrawn
    | Unlisted(name: string)

  datatype EventName =
    | RunProgress | HandoffAccepted | RunTerminal | SourcesChanged | RunsChanged | FilingChanged

  function OfRunEvent(event: RunEvent): Option<EventName> {
    match event
    case RoutePinned | InputPinned | AttemptStarted | CallOutcomeRecorded | RunParked => Some(RunProgress)
    case AttemptAccepted => Some(HandoffAccepted)
    case RunComplete | RunFailed | RunBlocked | RunCancelled => Some(RunTerminal)
  }

  function OfAction(action: Action): Option<EventName> {
    match action
    case SourceWithdrawn | SourcesAdmitted => Some(SourcesChanged)
    case GateReleasedSourceSet | GateReleasedResearchPlan => Some(RunsChanged)
    case RunCreated | RunInputPinned | RunEnqueued | RunRequeued | RunCancelRequested => Some(RunsChanged)
    case OpinionSigned | DeliverableFrozen | DeliverableFiled => Some(FilingChanged)
    case CaseCreated | RevisionSaved | StandingGranted | StandingRevoked => None
    case BookEntryAdded | BookEntryWithdrawn | Unlisted(_) => None
  }

  // After one of these a run has nothing more to tell.
  predicate Terminal(event: RunEvent) {
    event in {RunComplete, RunFailed, RunBlocked, RunCancelled}
  }

  function Spelled(name: EventName): string {
    match name
    case RunProgress => "run_progress"
    case HandoffAccepted => "handoff_accepted"
    case RunTerminal => "run_terminal"
    case SourcesChanged => "sources_changed"
    case RunsChanged => "runs_changed"
    case FilingChanged => "filing_changed"
  }
}
