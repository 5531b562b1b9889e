# A verification model of CAOS

CAOS is a host that runs paid model calls and credit forecasts. This project models its small
decision engines in Dafny and proves what they promise:

- **The case stream.** Two append-only logs, audit actions and run events, are tailed through one
  composite cursor over server-sent events (section 9.2 of the WHATWG HTML standard). Polls are
  paged, some rows are silent, a terminal row closes one half, standing can be lost between rows,
  connections are cut and clients reconnect from the last id. `CaseStream` is that system of
  steps, `ExactlyOnce` its invariant and promises, `CaseTail` the loop the server runs, shown to
  be a run of the system. `Markers` and `Frames` are the cursor and the bytes, read back by the
  deployment check's reader and by a browser; `StreamBytes` runs the whole system over those
  bytes, lost after any of them. `StreamSlots` counts the streams open.
- **The Copilot judge and bill.** `CopilotTrace` holds a session's events, `CopilotFigures` the
  28-digit decimal sums of what they state, `CopilotBill` the bill and its soundness against the
  runtime's own meter, `CopilotVerdicts` the three verdicts and how they exclude each other.
  `CopilotAccounts` and `CopilotWitness` say, event by event, exactly which sessions are billed
  and which are witnessed, and `CopilotRaised` which cost nothing and what those are raised as.
  `Settlement` turns AI units into money and prices a listing; `RuntimeEncoding` and
  `StagedRuntime` are the verified copy of the runtime that is started.
- **The forecast.** `CashFlow` folds interleaved cases over their periods in a 38-digit context,
  `CashFlowExact` shows that nothing rounds and that balances are conserved, `ForecastMoney` is
  the money grammar, and `ForecastRequest` and `ForecastAdmission` are what admits a request.
  `ForecastRows` says of every row, against the request as it was written, whether and why it is
  unavailable, and how near its ratios are to their quotients; `ForecastReading` and
  `ForecastBasis` exactly what is admitted, and what each row is read from.
- **Hidden characters.** `BoundaryText` decides which characters of a text hide.
- **One model call.** `Pricing` reserves and charges it, `ResendLoop` sends it.
- **Identity, filing, blobs.** `IdentityCache` and `SingleFlight` share one lookup per token,
  `Filing` keeps signers, freezer and filer apart, `Blobs` stores bytes under their own digest.

`Decimals`, `Division` and `Digits` model Python's `decimal` where the programs use it: whole
coefficients and exponents, rounding half to even to a precision, the division algorithm and
`quantize`. Clocks, the provider, the workspace, the source directory and the disk are arbitrary:
readings that only rise, answers of any kind, blocks that need not agree, crashes at any step. A
hash is a parameter, and where two contents of one hash would matter the statement says so.

`dafny verify dfyconfig.toml` checks the whole project.

## Findings

Where the code does not do what its own text, or a natural reading of it, says, the code is kept
and the exact condition is proved:

- `caos/copilot.py:1840-1845` says request figures are summed exactly. Each addition is in the
  default 28-digit context, so a session can be billed below what its requests come to
  (`CopilotBill.ABillBelowItsRequests`). Sums of figures of at most twelve binary places -- whole
  counts among them -- say exactly what their exact sum says, and no finer figures always do
  (`CopilotFigures.CoarseIsTwelvePlaces`); for the rest the error is bounded
  (`CopilotBill.BillCoversTheRequests`).
- A settling event that states no figure does not always leave the bill as it was: a shutdown
  whose `modelMetrics` is not an object of objects, or a `copilotUsage` that is no object, loses
  it, and nothing else does (`CopilotBill.CleanEndingKeepsTheBill`). A session of two whole
  requests and a checkpoint that covers them loses its bill to a bare shutdown
  (`CopilotBill.ABareEndingLosesTheBill`).
- `_fields_agree` says "every field, at any depth" (`caos/copilot.py:1350-1357`), but the walk does
  not enter a ruled field (`CopilotVerdicts.NothingHeldBelowARuledField`). What it holds is exactly
  the fields reached without entering one (`CopilotVerdicts.WalkHoldsWhatItEnters`).
- A settled charge is exact whenever there is one, but a price that passes every check can leave a
  count without any (`Settlement.ALeastCreditSettlesNothing`). A count settles exactly when the
  ledger holds its charge's last digit and its first (`Settlement.SettlementIsExact`), and a price
  settles every count exactly when it does so for one unit and for the most
  (`Settlement.EveryCountSettles`).
- A re-send is let go by a look that finds half of the one deadline left, but the clock is read
  again before it starts and that reading is not compared (`caos/models.py:171` and `:449`). It
  starts no later than half the deadline and whatever passes in between
  (`ResendLoop.ReSendsAreLetGoInTime`), and every such delay is attained by a call that meets it
  (`ResendLoop.AReSendMayStartLate`).
- `put` makes a blob's name durable in its shard, and never the shard's name in the root
  (`caos/blobs.py:186-191`). A put that returned can be lost with a shard it made
  (`Blobs.AReturnedPutCanBeLost`); it lasts exactly when the root would already keep its shard
  (`Blobs.PutLasts`).
- `put_both` calls its two blobs accepted together or not at all. Its caller sees both digests or
  neither, but half of a pair can stay stored: when the second blob cannot be written
  (`Blobs.HalfAPairStays`), and when the first put is renamed into place and then faults, so that
  the second is never tried (`Blobs.AFaultedFirstStays`). Both blobs are stored or nothing has
  changed exactly when the first put did not get as far as its rename, or the second did, or one
  of the two was there before, or they are one blob (`Blobs.PairIsWhole`).
- A remembered blob is served again after the stored one has gone or changed
  (`Blobs.RememberedOutlivesTheStore`). A remembered read says what a plain one would exactly when
  no earlier read verified the digest, or the store still holds bytes of it
  (`Blobs.RememberedAgrees`).
- A marker resumes at itself exactly when both halves have at most 16 digits and neither is ahead
  of the store, or it is the heads themselves (`Markers.ResumesAtItself`).
- An amount a forecast prints is refused by the forecast's own grammar exactly when it has outgrown
  eighteen whole digits (`ForecastMoney.PrintedReadsBack`).

## Model

| member | source | states |
|---|---|---|
| `Markers.MatchedText` | caos/api/events.py:69-100 | Printing a marker and reading it back gives the marker exactly when both halves fit 16 digits. |
| `Markers.TextMatched` | caos/api/events.py:69-100 | Every text the reader accepts is the canonical text of the marker it reads. |
| `Markers.ResumesAtItself` | caos/api/events.py:86-100 | A marker resumes at itself if and only if it is readable and not ahead of the heads, or is the heads. |
| `Markers.NeverAhead` | caos/api/events.py:86-100 | Whatever a client sends, the tail never starts ahead of the store. |
| `Markers.TextInjective` | caos/api/events.py:75-83 | Two markers that print alike are one marker. |
| `CaseStream.CoversJoin` | caos/api/stream.py:254-316 | Telling of what lies between two cursors, then between the second and a third, is telling of what lies between the first and the third. |
| `CaseStream.AuditLine` | caos/api/stream.py:297-316 | Each pending action carries the cursor after it: what it tells is exactly what lies between the cursor before it and its own. |
| `CaseStream.RunLine` | caos/api/stream.py:297-316 | The same of pending run events, which stop at the run's terminal. |
| `StreamLogs.TerminalsAreTold` | caos/api/stream.py:178-190 | A run is over with exactly the rows told as its terminal; no action is told so. |
| `StreamLogs.ActionsAreTold` | caos/api/events.py:27-66 | Of the actions, exactly those that change what a section shows are told, each by what it changes. |
| `CaseStream.AppendsGrow` | caos/api/stream.py:203-350 | The logs take every append past their heads that a marker can hold. |
| `CaseStream.StepsInTheirOrder` | caos/api/stream.py:254-274 | Deliveries and the end of a poll wait for both reads, and the reads for their turn. |
| `CaseTail.TailStarts` | caos/api/stream.py:226-238 | A tail starts at the marker its client's id resumes at, its run half open as the store says, with the cursor frame sent and all its turns to come. |
| `CaseTail.TailNeedsStanding` | caos/api/stream.py:231-238 | Without standing a tail yields nothing and connects nothing; with it the first frame is the cursor it starts at. |
| `CaseTail.ReadActionRows` | caos/api/stream.py:297-316 | The loop over the actions read gives each the cursor after it. |
| `CaseTail.ReadRunRows` | caos/api/stream.py:297-316 | The loop over the run's events gives each the cursor after it and stops at the terminal. |
| `CaseTail.ReadPending` | caos/api/stream.py:297-316 | One poll's queue: a page of actions, then a page of the run's events from the cursor the actions end at. |
| `CaseTail.Poll` | caos/api/stream.py:254-274 | What a poll does to the cursor, sends and answers is the sweep of its queue. |
| `CaseTail.SweepStops` | caos/api/stream.py:254-274 | A sweep asks for standing once before each row it tells and once more at its end, tells a row only on a yes, stops at the first no, and keeps the last answer; the cursor is past every row passed, silent ones too, and the run half is closed by a terminal passed. |
| `CaseTail.KeptIsEveryYes` | caos/api/stream.py:254-274 | Standing is kept exactly when every question a whole sweep asks is answered yes, the last one included; and then every named row has been told. |
| `CaseTail.GoesOnWithStanding` | caos/api/stream.py:239-244 | A turn is followed by another exactly while every such question is answered yes and the deadline leaves time. |
| `CaseTail.Tail` | caos/api/stream.py:203-244 | For any id a client sends and any turns, the frames are the cursor and then each turn's sweep, to the first turn where standing is lost or the deadline passes; nothing without standing; and the steps are that many turns' of the system. |
| `CaseTail.TurnTaken` | caos/api/stream.py:239-244 | One turn more keeps the loop's place: what is done and what is left make up the whole tail, which ends exactly when standing is lost or the turn says no more. |
| `CaseTail.SweepIsDeliveries` | caos/api/stream.py:254-274 | Working through a queue is a sequence of single deliveries, each with the answer standing gave it. |
| `CaseTail.TurnIsSteps` | caos/api/stream.py:203-274 | One turn of the loop -- appends, the first read, appends, the second read, deliveries, the end -- is exactly those steps of the system. |
| `ExactlyOnce.StepKeeps` | caos/api/stream.py:203-350 | Every step -- append, connect, read, deliver, end, receive, cut -- keeps the invariant that ties the client's frames, the wire and the server's queue to the logs. |
| `ExactlyOnce.EveryRunIsSound` | caos/api/stream.py:203-350 | The invariant holds after any sequence of steps from an empty store. |
| `ExactlyOnce.ExactlyOnceEach` | caos/api/stream.py:203-350 | Under every interleaving, and whatever id it first connects with, the client holds exactly the named rows of each log after its first cursor up to its last frame, once and in order; of the run, only those up to its first terminal. |
| `ExactlyOnce.NeverFallsBack` | caos/api/events.py:86-100 | No marker the server has issued, received or still in flight, ever falls back. |
| `ExactlyOnce.CaughtUp` | caos/api/stream.py:203-350 | With nothing left to read and nothing in flight, everything named after the first cursor has been told. |
| `ExactlyOnce.EachPollMovesAPage` | caos/api/stream.py:254-316 | Each poll worked through leaves a whole page less of each log, so polls catch up. |
| `Frames.CutKeepsWholeFrames` | caos/api/app.py:641-659 | Cut after any byte, the stream holds exactly the frames that lie whole before the cut. |
| `Frames.NextFrame` | scripts/enterprise_deploy.py:811-825 | A frame is returned exactly when a blank line ended it; a timed-out wait or the stream's end returns none. |
| `Frames.StrippedIs` | scripts/enterprise_deploy.py:811-825 | A line is read without every carriage return and newline at its end, and nothing else. |
| `Frames.EventId` | scripts/enterprise_deploy.py:1000-1009 | Only a whole frame moves the resume cursor, to its last id line. |
| `Frames.ReadTail` | scripts/enterprise_deploy.py:1036-1051 | A tail read to its end or first silence resumes after the last frame that came whole and carried an id. |
| `Frames.CursorAfterCut` | scripts/enterprise_deploy.py:1000-1009 | Whatever byte the stream is cut after, the cursor folded is the id of the last whole frame carrying one. |
| `Frames.WireInjective` | caos/api/app.py:641-659 | Two streams of the same bytes are the same frames. |
| `Frames.BrowserAfterCut` | caos/api/app.py:641-659 | A browser reading a cut stream fires exactly the whole named frames, in order, each under its own id, and resumes from the same id. |
| `StreamBytes.BytesAreARun` | caos/api/app.py:641-659 | A run whose client is a browser of bytes, its connections lost after any byte, is a run of the system of steps whose cuts drop the frames that did not come whole. |
| `StreamBytes.BytesAreToldOnce` | caos/api/stream.py:203-350 | In every such run the browser has fired exactly the named rows of each log between its first cursor and the id it will ask from, once and in order, each under its own id. |
| `StreamSlots.TakeKeeps` | caos/api/stream.py:147-176 | A slot taken keeps the pool balanced and within both caps; a refusal happens only at a cap. |
| `StreamSlots.ReleaseKeeps` | caos/api/stream.py:110-144 | A release gives back one slot and one share of its actor, and drops an actor that holds none. |
| `StreamSlots.ReleasedOnce` | caos/api/stream.py:110-144 | A second release, from any site, changes nothing. |
| `StreamSlots.AlwaysBalanced` | caos/api/stream.py:95-176 | Over any takes and releases, `open` counts the live slots, `held` has exactly the actors holding one with the true count, and both caps hold. |
| `StreamSlots.EachUseCounts` | caos/api/stream.py:110-176 | One use more hands out one slot below both caps and none at either, or takes one back, and touches no other. |
| `StreamSlots.Slots.TakeStreamSlot` | caos/api/stream.py:147-176 | The shared counters change as the specification says, and a fresh slot is made only then. |
| `StreamSlots.StreamSlot.Release` | caos/api/stream.py:110-144 | The one-shot release, as the specification says. |
| `BoundaryText.VisibleHidesNothing` | caos/boundary_text.py:130-206 | What is left after hiding never hides text, though every decision read neighbours that may be gone. |
| `BoundaryText.VisibleIsFixedExactly` | caos/boundary_text.py:148-206 | A text is left as it is if and only if it hides nothing. |
| `BoundaryText.VisibleIsIdempotent` | caos/boundary_text.py:171-195 | Hiding twice is hiding once. |
| `BoundaryText.VisibleKeepsSolid` | caos/boundary_text.py:119-206 | Every drawn and space character is kept, in order. |
| `BoundaryText.HidingIsBounded` | caos/boundary_text.py:119-206 | In a text that hides nothing, a maximal run of undrawn, non-space characters follows a drawn character and is at most three long. |
| `BoundaryText.RunsThatAreText` | caos/boundary_text.py:130-143 | A run of undrawn characters hides nothing if and only if it follows a drawn one and is one shaping character, one selector on its own base, the two joiners either way round, a joiner after a presentation selector, joiner non-joiner joiner, or one grapheme joiner between two marks. |
| `BoundaryText.HidesNothingExactly` | caos/boundary_text.py:148-190 | A text hides nothing if and only if every undrawn run of it is one of those. |
| `BoundaryText.KindsApart` | caos/boundary_text.py:40-127 | Every character is of one kind alone: hidden by itself, a selector, one of the three that shape, a space, or drawn. |
| `BoundaryText.AsciiHidesNothing` | caos/boundary_text.py:148-186 | ASCII text hides nothing, so the early return agrees with the rule. |
| `CopilotTrace.CollectPairs` | caos/copilot.py:1757-1767 | The walk that grows a list gives every field, in the recursion's order. |
| `CopilotTrace.WalkIsComplete` | caos/copilot.py:1757-1767 | A field is walked if and only if it stands at the end of some path into the value. |
| `CopilotTrace.ConversionIsExact` | caos/copilot.py:1858-1864 | A finite number converts to exactly its own value: a float's mantissa times its power of two, to the last digit. |
| `CopilotTrace.WholeFloatIs` | caos/copilot.py:1826-1838 | A float states a whole count exactly when it is one. |
| `CopilotFigures.SumBlocks` | caos/copilot.py:1840-1855 | The loop that sums blocks: nothing for a block stating none, lost for one that is no object or no count. |
| `CopilotFigures.SummedIsNear` | caos/copilot.py:1840-1855 | The computed sum lies within one part in 2x10^27 of the exact one for each figure added. |
| `CopilotFigures.CoarseSumIsHeld` | caos/copilot.py:1712-1733 | However many they are, figures of at most twelve binary places are held to a total exactly as their exact sum is. |
| `CopilotFigures.CoarseIsTwelvePlaces` | caos/copilot.py:1840-1855 | Every sum of figures no finer than the k-th binary place says of every total what the exact sum says if and only if k is at most twelve. |
| `CopilotFigures.FewSumsAreHeld` | caos/copilot.py:1712-1733 | Finer figures, few enough for the total, are held to it exactly. |
| `CopilotFigures.CreditsHeldExactly` | caos/copilot.py:1784-1796 | A credit figure passes if and only if its exact worth in nano-AIU is within the total, however the product was rounded. |
| `CopilotFigures.RoundedSumCanFallShort` | caos/copilot.py:1840-1855 | Two figures whose computed sum is within a total their exact sum exceeds. |
| `CopilotBill.FindDispatchOpen` | caos/copilot.py:1697-1709 | The loop counts dispatches as the specification does: a finish with none running closes nothing. |
| `CopilotBill.ReadTotals` | caos/copilot.py:1652-1668 | The checkpoints are read if and only if each is a whole count and none falls. |
| `CopilotBill.ReadUnits` | caos/copilot.py:1652-1673 | The units read are those of the specification. |
| `CopilotBill.BillIsTheGreatestCheckpoint` | caos/copilot.py:1652-1673 | The bill is the last checkpoint's total and the greatest of all. |
| `CopilotBill.BillCoversEveryFigure` | caos/copilot.py:1712-1796 | No nano-AIU or AI-credit figure at any depth of any event exceeds the bill. |
| `CopilotBill.BillCoversTheRequests` | caos/copilot.py:1712-1749 | The per-request figures sum to no more than the bill, but for the rounding of the sum. |
| `CopilotBill.BillCoversCoarseRequests` | caos/copilot.py:1712-1749 | Requests' figures of at most twelve binary places -- whole counts always -- sum to no more than the bill at all, however many there are. |
| `CopilotBill.BillCoversFewRequests` | caos/copilot.py:1712-1749 | Nor do finer ones, when there are few enough of them. |
| `CopilotBill.ABillBelowItsRequests` | caos/copilot.py:1652-1855 | A whole session that is billed below what its two requests come to. |
| `CopilotBill.BillIsTheSessionTotal` | caos/copilot.py:1817-1823 | A session total a shutdown states is the bill itself. |
| `CopilotAccounts.BilledExactly` | caos/copilot.py:1652-1825 | A session is billed a total if and only if, event by event, it ends settled after a checkpoint of that total, its checkpoints never fell, and no figure stated at any depth, no request, no shutdown and no sub-agent says otherwise. |
| `CopilotRaised.BillSays` | caos/copilot.py:1635-1649 | There is a bill exactly where there is a checkpoint, with the units read but for a zero beside work, and the last checkpoint's premium requests where it counts them. |
| `CopilotAccounts.BillCoversEveryShutdown` | caos/copilot.py:1817-1823 | In a billed session every shutdown meters an object of objects, whose figures are counts that come to no more than the bill but for the sum's rounding. |
| `CopilotAccounts.BillCoversACoarseShutdown` | caos/copilot.py:1817-1823 | And to no more at all when they are coarse. |
| `CopilotAccounts.BillCoversAFewMetrics` | caos/copilot.py:1817-1823 | Or few enough for how fine they are. |
| `CopilotAccounts.EveryRequestIsSummed` | caos/copilot.py:1736-1755 | The requests summed are every `copilotUsage` stated at any depth and every fusion phase's usage, and nothing else. |
| `CopilotBill.CounterIsOpenSet` | caos/copilot.py:1697-1709 | In a run whose finishes each close an open dispatch, the counter is the number open. |
| `CopilotBill.BillIsTheMeter` | caos/copilot.py:1652-1709 | For every run of a metered runtime whose meter moves only at an event that works or while a dispatch runs, a bill read equals the final meter. |
| `CopilotBill.CleanEndingKeepsTheBill` | caos/copilot.py:1652-1855 | Settling events that state no figure leave a bill unchanged if and only if each can be read; otherwise it is lost. |
| `CopilotBill.ABareEndingLosesTheBill` | caos/copilot.py:1817-1823 | Two requests of whole figures and a total that covers them are billed at it, and not at all once a shutdown without figures or metrics follows. |
| `CopilotBill.PlainSessionIsBilled` | caos/copilot.py:1635-1673 | Ordinary finished work, a checkpoint and an idle are billed at the checkpoint exactly when the requests' computed sum is within it. |
| `CopilotVerdicts.WalkHoldsWhatItEnters` | caos/copilot.py:1350-1372 | Fields agree if and only if every field reached without entering a ruled one obeys its rule. |
| `CopilotVerdicts.NothingHeldBelowARuledField` | caos/copilot.py:1350-1372 | Another model named below a ruled field is not seen. |
| `CopilotVerdicts.WitnessedIsSpent` | caos/copilot.py:1296-1312 | A witnessed call is spent, returned and never raised, and never settled at zero. |
| `CopilotVerdicts.UnspentDidNothing` | caos/copilot.py:1875-1946 | A call that spent nothing gave no answer and no usage, succeeded at nothing, and closed every dispatch. |
| `CopilotRaised.UnspentExactly` | caos/copilot.py:1890-1960 | A call cost nothing if and only if every dispatch closed and, event by event, nothing of a cost is in it. |
| `CopilotVerdicts.UnspentBillIsZero` | caos/copilot.py:1875-1946 | It can only be billed zero. |
| `CopilotVerdicts.UnspentResultIsAFailure` | caos/copilot.py:1980-1985 | Its settled result, if any, names a failure. |
| `CopilotVerdicts.OnlyAQuietIdleRaisesNothing` | caos/copilot.py:1949-1970 | It raises nothing if and only if it idled, unaborted, with no error, failed attempt or settled result. |
| `CopilotRaised.FailureIs` | caos/copilot.py:1940-1999 | A failure is raised as the last error's status, else the last attempt's, else what the last settled result says, else a timeout unless the session idled unaborted. |
| `CopilotRaised.AnswerIs` | caos/copilot.py:880-910 | A call is raised exactly when it cost nothing and failed, and returned with its last answer's text otherwise. |
| `CopilotVerdicts.RaisedCostNothing` | caos/copilot.py:877-902 | What is raised was never witnessed, gave no content and cost nothing. |
| `CopilotVerdicts.WitnessedOrder` | caos/copilot.py:1509-1603 | In a witnessed call all work stands before the turn's one end, failed attempts before the settled result, and the idle after. |
| `CopilotWitness.WitnessedExactly` | caos/copilot.py:1296-1600 | A call is witnessed if and only if every event is admitted and, event by event, it was answered once and whole, settled once in success on the pin with no key of the user's own, failed nothing, used at most once as asked, stated the effort, took one prompt, shut down on the pin alone and ended its one turn. |
| `CopilotWitness.WitnessedSaysAsAsked` | caos/copilot.py:1350-1470 | Whatever field a witnessed call states of models, efforts, modes, initiators or keys says what was asked for, where the walk reaches it. |
| `CopilotWitness.WitnessedEventsAre` | caos/copilot.py:1330-1347 | Every event of a witnessed call is the host's own: no sub-agent's, nothing loaded, no model chosen by the runtime. |
| `CopilotVerdicts.ResultNamesItsStatus` | caos/copilot.py:1993-1999 | A settled result of a status told apart is raised as that status. |
| `CopilotVerdicts.WitnessedRanOnlyThePin` | caos/copilot.py:1315-1394 | Every dispatch named the model asked for, the session started on it, and nothing moved to another. |
| `CopilotVerdicts.APlainCallIsWitnessed` | caos/copilot.py:1296-1603 | One turn on the model asked for, at its effort, answered and settled, is witnessed. |
| `Pricing.PricedIsExact` | caos/pricing.py:88-131 | A priced amount is the price of those tokens to the last digit, or is refused. |
| `Pricing.WhatFitsIsPriced` | caos/pricing.py:88-131 | Tokens at rates of one exponent are priced, exactly, whenever the context holds their sum. |
| `Pricing.ChargedExactly` | caos/models.py:246-275 | A charge is known exactly when both counts are stated and possible and their price comes out and can be kept. |
| `Pricing.ReservationIsExact` | caos/pricing.py:88-131 | A reservation is worth exactly its bytes and its output cap, and is never free. |
| `Pricing.ReservedExactly` | caos/pricing.py:88-131 | A request is reserved for exactly when its model is named, its prices and amount can be kept, its bytes are within the ceiling and some output is asked for; each refusal names its reason. |
| `Pricing.ChargeIsReserved` | caos/models.py:247-281 | A charge accepted is the price of the tokens stated, and at most what the request reserved. |
| `Pricing.ReservationIsAffordable` | caos/pricing.py:166-173 | A reservation is at most the worst case a run is admitted against. |
| `Pricing.ModelChoices` | caos/pricing.py:221-247 | The choices are the configured endpoint and each listed entry once; refused exactly when an entry is no price, prices a model again, or there are too many. |
| `Settlement.NanoQuotient` | caos/copilot.py:1240-1251 | Dividing by a thousand million a number the context holds never traps or rounds: it only moves the exponent. |
| `Settlement.SettlementIsExact` | caos/copilot.py:1224-1251 | Past the price's checks a charge is the units' exact value, and there is one if and only if the ledger's places hold the last digit and the first of the product's worth. |
| `Settlement.SettledExactlyWhen` | caos/copilot.py:1224-1254 | A charge is known exactly for a whole count small enough, at a price that charges every count exactly, when the ledger holds it. |
| `Settlement.EveryCountSettles` | caos/copilot.py:1224-1251 | A price settles every count below 2^53 if and only if it leaves room for one unit's last digit and the most units' first. |
| `Settlement.ALeastCreditSettlesNothing` | caos/copilot.py:1224-1251 | A price that passes every check and settles no single unit. |
| `Settlement.CapIsTheLeast` | caos/copilot.py:515-524 | The session cap covers the reservation, is never under 30 credits, and no smaller such number covers it. |
| `Settlement.CappedExactlyWhen` | caos/copilot.py:515-524 | There is no cap exactly without a reservation that names a price other than zero. |
| `Settlement.CoveredPinReservesTheBill` | caos/copilot.py:1082-1148 | When a pinned price covers the floors, any split of tokens over every listed rate of both tiers, within the bytes and the output cap, costs no more than the reservation. |
| `Settlement.FloorsAreBilled` | caos/copilot.py:1111-1148 | No lower floor would do: each is what some token of the listing is billed. |
| `Settlement.FlooredExactlyWhen` | caos/copilot.py:1111-1148 | A listing has floors exactly when it states a batch of some tokens, a multiplier that is not zero or none, and both tiers' rates, nothing listed being no rate. |
| `Settlement.CoversExactlyWhen` | caos/copilot.py:1082-1088 | A price covers the floors exactly when no token, billed at any rate of either tier, costs more than it. |
| `ResendLoop.ContentIsBilled` | caos/models.py:188-231 | Content is kept exactly from a finished reply of known charge whose text is there and fits, with a generation id and no refusal. |
| `ResendLoop.RefusedAsItFinished` | caos/models.py:188-231 | A reply is refused as cut off exactly for its length, and as refused exactly for a content filter. |
| `ResendLoop.UnansweredAsItFailed` | caos/models.py:166-186 | A call that was not answered is told it was invalid exactly for a status never retried, that the response was exactly for a strange one, and that the provider is unavailable otherwise; nothing of it is charged. |
| `ResendLoop.WaitIsAsAsked` | caos/models.py:473-489 | The wait is the nearest there is, between none and the cap, to what the gateway asks for. |
| `ResendLoop.CheckResend` | caos/provider.py:300-304 | What asking does to the log is the specification's: the installed checks outermost first, up to the first that does not stand. |
| `ResendLoop.WaitedOut` | caos/models.py:452-464 | One look, and the wait it allows, exactly as the specification's `WaitsOut`: a readable rate limit within the tries, whose capped wait leaves half of the deadline. |
| `ResendLoop.SendsAgain` | caos/models.py:437-449 | What is done after a failure, and what comes of it, are the specification's: another try only when waited out, every check standing, and a last look finding half of the one deadline left. |
| `ResendLoop.Complete` | caos/models.py:148-186 | For every clock, provider and set of checks, the call's whole log and its outcome are the specification's `CallOf`. |
| `ResendLoop.CallKeeps` | caos/models.py:148-186 | Every call has one deadline, taken as it starts, that every look is at; sends at most three times, each try given what a look just found left; waits at most twice the cap; re-sends only when ready; is refused exactly for a nameless model or an unfit prompt; ends with the last answer's completion, and gives up a rate limit only when tries, checks or time ran out. |
| `ResendLoop.ReSendsAreLetGoInTime` | caos/models.py:162-171 | A re-send is let go no later than half the deadline after the start, begins no later than that and what passes before its two last acts, and is given what one more look finds left. |
| `ResendLoop.ReSendsFollowARateLimit` | caos/models.py:437-471 | Every re-send follows a readable 429, after the wait it asked for. |
| `ResendLoop.AReSendMayStartLate` | caos/models.py:166-171 | For every delay there is a call whose re-send starts that much past half its deadline. |
| `ResendLoop.TheDeadlineBoundsTheCall` | caos/models.py:161-171 | When no try takes longer than it is given, every wait, and every try given what was left, is over by the one deadline and the pause before it. |
| `CashFlow.ChainIsExact` | caos/calculators/cash_flow.py:591-641 | Terms small enough are added exactly in the context. |
| `CashFlow.RatioNeverTraps` | caos/calculators/cash_flow.py:584-588 | Bringing a ratio to four places never traps when its numerator leaves them room. |
| `CashFlow.CashFlowForecast` | caos/calculators/cash_flow.py:104-148 | The loop that updates openings and unavailable cases gives the rows of the specification, complete if and only if every row is available. |
| `ForecastRows.AdmittedRowTells` | caos/calculators/cash_flow.py:565-641 | Every row of every admitted forecast, against its request: it is projected exactly when no earlier row of its case is unavailable and its driver is stated, ready and whole, it gives the one reason that fails otherwise, and where projected it is unreconciled exactly when a stated balance is further from the one reached than the tolerance or a thousandth of its own opening. |
| `ForecastReading.AdmittedRowTakes` | caos/calculators/cash_flow.py:104-148 | Every projected row takes its moves, stated balances, repayment and bridge from the request's own rows for its period, at the amounts their texts spell. |
| `ForecastRows.AdmittedRatiosStand` | caos/calculators/cash_flow.py:584-588 | Each ratio of every admitted row stands for its own quotient; there is none exactly where there is nothing to divide by. |
| `ForecastRows.RatioIsNear` | caos/calculators/cash_flow.py:584-588 | A ratio is within half a ten-thousandth of the true quotient, but for one part in ten to the context's digits. |
| `CashFlow.CaseIsIndependent` | caos/calculators/cash_flow.py:104-148 | The rows of one case are its own chain's, whatever cases are interleaved with it. |
| `CashFlow.CaseDependsOnItselfAlone` | caos/calculators/cash_flow.py:104-148 | Two requests that state the same of a case give it the same rows, whatever else they hold. |
| `CashFlow.ForecastSplits` | caos/calculators/cash_flow.py:104-148 | Forecasting p then q is forecasting p, then q from where p left the case. |
| `CashFlow.SecondRequestGoesOn` | caos/calculators/cash_flow.py:104-148 | A second request opening where an available first one closed gives the rows one request for both gives. |
| `CashFlow.UnavailableLatches` | caos/calculators/cash_flow.py:565-577 | Once a case is unavailable, every later row of it is, for that reason alone. |
| `CashFlowExact.StatedClosingsNeverFeed` | caos/calculators/cash_flow.py:591-641 | Chains that differ only in their stated closings show the same figures wherever both project. |
| `CashFlowExact.CaseIsExact` | caos/calculators/cash_flow.py:580-641 | While a case's reach leaves room in the context, every row is exact and none traps. |
| `CashFlowExact.BalancesAreConserved` | caos/calculators/cash_flow.py:591-641 | Where the context has room, closing debt and cash are the opening plus every projected move, and net debt moves by no issuance, repayment or bridge. |
| `ForecastAdmission.AdmittedForecastConserves` | caos/calculators/cash_flow.py:104-148 | Every case of every forecast the ceilings admit is so conserved. |
| `ForecastMoney.AmountIsSmall` | caos/calculators/cash_flow.py:197-211 | An amount the grammar admits is below 10^18, and below zero only when signed. |
| `ForecastMoney.PrintedReadsBack` | caos/calculators/cash_flow.py:580-581 | A printed amount reads back as the amount, and is refused exactly past the grammar's eighteen digits. |
| `ForecastReading.AmountsAreSpelled` | caos/calculators/cash_flow.py:197-211 | A text is an amount if and only if it is a sign or none, a whole part without leading zeros, and a point and up to six places or none, below zero only where it may be; and the amount is what it stands for. |
| `ForecastRequest.Contractual` | caos/calculators/cash_flow.py:536-553 | The loop totals each period's instalments exactly, and refuses exactly an unknown period or facility or a whole row repeated. |
| `ForecastRequest.Chronological` | caos/calculators/cash_flow.py:456-469 | The loop accepts exactly the requests whose years never fall within a case and none of whose periods is the opening's. |
| `ForecastRequest.OrderSplits` | caos/calculators/cash_flow.py:456-469 | A case in order can be split: its second half is in order after its first's last period. |
| `ForecastRequest.OwnedCalendars` | caos/calculators/cash_flow.py:314-341 | The loop accepts exactly whole, consecutive years with every case starting on the same period. |
| `ForecastRequest.FirstPeriodOpensEachCase` | caos/calculators/cash_flow.py:314-359 | A row is of the first period if and only if it opens its case. |
| `ForecastRequest.AggregateShape` | caos/calculators/cash_flow.py:362-389 | The loop accepts exactly one row per period within its calendar, the first starting late exactly under a bridge. |
| `ForecastAdmission.ParseRequest` | caos/calculators/cash_flow.py:214-453 | A request is parsed if and only if it is admitted. |
| `ForecastReading.AdmittedExactly` | caos/calculators/cash_flow.py:214-556 | A request is admitted if and only if it holds no more than it may, every text of it spells what it should, it agrees with itself, and its basis holds. |
| `ForecastBasis.OwnedBasisHolds` | caos/calculators/cash_flow.py:314-389 | The owned basis holds exactly without instalments, with a bridge to the first period alone, periods that are whole calendar years running on within each case from the first row's, and one aggregate row a period within it, starting late exactly under the bridge and together. |
| `ForecastBasis.OtherBasisHolds` | caos/calculators/cash_flow.py:536-553 | The other holds exactly with nothing owned, and instalments of periods and facilities the request states, none repeated whole. |
| `ForecastBasis.DatesAreOrdered` | caos/calculators/cash_flow.py:362-389 | Dates are held in one order: the same month's days, then months, then years. |
| `ForecastAdmission.RunForecast` | caos/calculators/cash_flow.py:104-148 | The whole calculation: refused, or one row per period, every projected one exact and none trapping. |
| `ForecastAdmission.AdmittedForecastIsExact` | caos/calculators/cash_flow.py:42-58 | No forecast the ceilings admit rounds or traps. |
| `ForecastAdmission.SegmentsHold` | caos/calculators/cash_flow.py:525-535 | The loop accepts exactly the drivers whose segments add up, exactly, to the revenue stated. |
| `ForecastAdmission.BridgeEntersEachCaseOnce` | caos/calculators/cash_flow.py:344-359 | A bridge enters each case once, in its first period; without one nothing enters. |
| `IdentityCache.WritesStayBounded` | caos/api/identity.py:393-416 | Neither cache ever holds more than its capacity. |
| `IdentityCache.RememberedIsRecalled` | caos/api/identity.py:318-329 | An actor just remembered is recalled for the whole of its time, unless the cache was full. |
| `IdentityCache.RecallIsTheHistory` | caos/api/identity.py:318-329 | After any writes on a rising clock, what is recalled was written for that digest within its time; and while there was room for every write, an actor written within its time is always recalled. |
| `IdentityCache.RefusalsAreTheHistory` | caos/api/identity.py:318-329 | While there was room for every write, a refusal is recalled exactly when one was written within its time and no actor was. |
| `IdentityCache.Memory.Deny` | caos/api/identity.py:393-405 | Stale refusals go, and the new one is added within the capacity. |
| `IdentityCache.Memory.Remember` | caos/api/identity.py:408-416 | Stale entries of both caches go, and the actor is added within the capacity. |
| `SingleFlight.StepKeeps` | caos/api/identity.py:266-390 | Every step of any request keeps the invariant over caches, flights, lookups and the wait list. |
| `SingleFlight.NoRequestIsStuck` | caos/api/identity.py:266-366 | Wherever a request stands, some step of its own takes it on. |
| `SingleFlight.AskersLeadOrShare` | caos/api/identity.py:299-351 | A request is answered from the cache if it can be, else leads a flight exactly when its digest has none open and shares the open one otherwise; a lookup is remembered as it ends. |
| `SingleFlight.FlightsAreSettled` | caos/api/identity.py:299-366 | A finished lookup settles and closes its flight and answers its leader. |
| `SingleFlight.SharersAreAnswered` | caos/api/identity.py:357-372 | Whoever shares a settled flight is answered with it, and may give up before. |
| `SingleFlight.TurnedAwayAtTheLimit` | caos/api/identity.py:288-296 | A request is turned away exactly when so many already wait as may. |
| `SingleFlight.OneLookupPerDigest` | caos/api/identity.py:332-351 | At most one lookup is outstanding per digest, and every open flight has exactly one leader. |
| `SingleFlight.EverythingIsBounded` | caos/api/identity.py:237-296 | Waiters never exceed the limit and bound the open flights; both caches stay within capacity. |
| `SingleFlight.CachedActorsAreFresh` | caos/api/identity.py:318-329 | An actor served from the cache came from a lookup of that digest finished less than the cache's time before. |
| `SingleFlight.SharersAreToldTheSame` | caos/api/identity.py:299-366 | A request that waited a flight out is told what its leader was, or that the workspace is unavailable. |
| `RuntimeEncoding.ReadsBack` | caos/copilot.py:527-538 | Lines joined read back as the files they were written from, whatever their paths hold. |
| `RuntimeEncoding.ListingOrderIsLost` | caos/copilot.py:527-538 | The same lines sort the same, however they were listed. |
| `RuntimeEncoding.EncodingIsInjective` | caos/copilot.py:527-538 | Equal encodings are of the same files. |
| `StagedRuntime.Copied` | caos/copilot.py:628-638 | A file's hash is of exactly the bytes written, whatever blocks the source gives. |
| `StagedRuntime.WrittenIsWhatWasRead` | caos/copilot.py:628-638 | What is written is every block read before the first empty one, and nothing after it. |
| `StagedRuntime.CopyAll` | caos/copilot.py:606-613 | One line per file of the bytes written; refused for a vanished file, failed for a path met twice. |
| `StagedRuntime.DigestOfDirectory` | caos/copilot.py:527-538 | A directory has one digest, however it is listed. |
| `StagedRuntime.SameDigestSameFiles` | caos/copilot.py:527-538 | Two directories have one digest if and only if they hold the same paths and file hashes, or their encodings are two different texts of one hash. |
| `StagedRuntime.Staged` | caos/copilot.py:591-625 | An entry is returned only of a copy whose digest, under any listing, is the pin and whose entry is native; it is refused only for a stated reason. |
| `Filing.ThreeIndependentActors` | caos/deliverable/filing.py:55-187 | Over every run, signers, freezer and filer are pairwise distinct and no signer is the author. |
| `Filing.SignaturesStopAtTheFreeze` | caos/deliverable/filing.py:55-124 | After the freeze no signature is added, and a filing is final. |
| `Filing.PublishedWasProven` | caos/deliverable/filing.py:85-124 | Over every run, whatever is published was re-proved as it was frozen, to the digest it is published under, and rendered. |
| `Filing.SignedExactly` | caos/deliverable/filing.py:55-82 | A signature is taken exactly from someone not the author who has not signed, while the revision is saved and unpublished; every refusal names a reason that holds. |
| `Filing.FrozenExactly` | caos/deliverable/filing.py:85-124 | A freeze succeeds exactly on a signed, unmoved, unpublished revision, by no signer, re-proved to its own digest. |
| `Filing.FiledExactly` | caos/deliverable/filing.py:132-187 | A filing succeeds exactly once, on a frozen, signed, unmoved revision, by neither a signer nor the freezer, who is no signer. |
| `Filing.ActsAreRecorded` | caos/deliverable/filing.py:55-187 | An act not refused leaves its own record and no other. |
| `Filing.ReceiptsNameIndependentActors` | caos/deliverable/filing.py:132-187 | A receipt names independent actors even over tables altered from outside. |
| `Filing.CaseFile.RevisionSignatures` | caos/deliverable/filing.py:251-259 | The opinions on a revision, the latest first. |
| `Filing.CaseFile.SignOpinion` | caos/deliverable/filing.py:55-82 | A signature is refused for each stated reason and otherwise added, binding the revision's digest. |
| `Filing.CaseFile.FreezeRevision` | caos/deliverable/filing.py:85-124 | A freeze is refused for each stated reason and otherwise recorded. |
| `Filing.CaseFile.FileDeliverable` | caos/deliverable/filing.py:132-187 | A filing is refused for each stated reason and otherwise recorded once. |
| `Blobs.AddressesAreDistinct` | caos/blobs.py:165-169 | An address names one digest and can name no path. |
| `Blobs.OnlyDigestsHaveAddresses` | caos/blobs.py:165-169 | Exactly sixty-four lower-case hexadecimal digits have an address, in the shard of their first two. |
| `Blobs.StepKeeps` | caos/blobs.py:171-240 | Every step of any number of puts, and any crash, keeps addresses whole and durable files unwritten. |
| `Blobs.CrashLeavesEither` | caos/blobs.py:171-240 | A crash leaves each name as readers saw it or as its shard kept it, durable files whole, and of the puts those that returned. |
| `Blobs.NoPartialBlob` | caos/blobs.py:171-240 | An address holds a whole blob of its own hash or nothing, as seen and as a crash would leave it. |
| `Blobs.PutLasts` | caos/blobs.py:171-192 | A put that returns has its blob named; no later puts and crashes take it away if and only if the root would already keep its shard. |
| `Blobs.AddressLasts` | caos/blobs.py:171-240 | An address outlasts everything if and only if its shard would keep it and the root its shard. |
| `Blobs.AReturnedPutCanBeLost` | caos/blobs.py:186-191 | The first put into a shard returns, and a crash right after it loses the blob. |
| `Blobs.Remembering.Read` | caos/blobs.py:243-265 | A remembered read gives what was verified, else what the plain read gives; refusals are not kept. |
| `Blobs.RememberedAgrees` | caos/blobs.py:133-146 | Whatever becomes of the store between reads, a remembered read gives bytes of the digest asked for or what the plain read gives, and says the same as it if and only if no earlier read verified the digest or the store still holds bytes of it. |
| `Blobs.RememberedOutlivesTheStore` | caos/blobs.py:133-146 | A verified blob is served again after the store has lost it. |
| `Blobs.BlobStore.Put` | caos/blobs.py:171-192 | A put takes its six steps and returns its digest, or faults after some of them, a write cut short cleared away. |
| `Blobs.BlobStore.PutBoth` | caos/blobs.py:194-212 | Both digests are returned exactly when both puts returned; the second is not tried when the first faults; and however it ends, the addresses added are the first's exactly when it was renamed and the second's exactly when it was. |
| `Blobs.PairIsWhole` | caos/blobs.py:194-212 | A pair leaves both blobs stored or no address changed if and only if the first was not renamed, or the second was, or one was stored before, or the two are one blob. |
| `Blobs.PutNames` | caos/blobs.py:171-192 | However a put ends, the one address it adds is its blob's, and exactly when it got as far as the rename. |
| `Blobs.HalfAPairStays` | caos/blobs.py:194-212 | A refused pair may leave its first blob stored: its put returned and the second's did not. |
| `Blobs.AFaultedFirstStays` | caos/blobs.py:186-212 | Or its own put faulted after the rename, and the second was never tried. |

## Left out

- ExactlyOnce.ExactlyOnceEach: positions stay below 10^16, the most the marker reader's digits hold; heartbeats and the deadline are outside the step system and end a poll arbitrarily.
- Frames.NextFrame: lines end with a newline; the other breaks Python's `splitlines` knows never occur in what `_frame` writes.
- Frames.ReadTail: one tail's cursor; the run read after each event frame and the reopening between tails are outside it, and `ExactlyOnce` takes a reopened tail as a new connection from that cursor.
- StreamBytes.BytesAreToldOnce: a connection's bytes are read when it is lost, and the browser keeps its last id across connections, as its id buffer.
- StreamSlots.AlwaysBalanced: threads and the lock are one step at a time; the three release sites are repeated releases of one slot.
- BoundaryText.KindsApart: the tables of characters are taken over range by range as they stand, and nothing is proved of which characters Unicode puts in them.
- BoundaryText.VisibleHidesNothing: the regular-expression engine, NFC and the Unicode mark table; "is a mark" is any predicate of drawable characters.
- CopilotTrace.WalkIsComplete: a value is a finite tree; an event type is the named kind or any other text.
- CopilotFigures.FewSumsAreHeld: one way only, since rounding errors of finer figures can cancel; the bound on every sum is `SummedIsNear`.
- CopilotBill.ReadUnits: a whole number past a double's range is read as the number it is, where Python's finiteness test would raise on it (`caos/copilot.py:1862`).
- CopilotVerdicts.WitnessedIsSpent: the refusing prefixes are not modelled apart, since no allowed type starts with one; the call id and finish-reason vocabulary are left out.
- Settlement.CapIsTheLeast: the cap is stated over real numbers, as the fractions compute it.
- Settlement.CoveredPinReservesTheBill: a listed figure is taken as the number its shortest decimal states; the printing of floors is left out.
- Pricing.ModelChoices: parsing a price from its text, its date and the environment.
- ResendLoop.Complete: threads, stderr lines and the drop kind of an unanswered call; the text of a message is given as the client's text; how soon an abandoned try gives way is left to the clock.
- CashFlow.CashFlowForecast: the JSON around the rows, and the segment amounts it repeats.
- ForecastAdmission.ParseRequest: unknown or missing keys, the shapes of names and the perimeter, and the strings dates are written as, all refused with the one code the model gives.
- IdentityCache.RecallIsTheHistory: the SCIM exchange itself, and the helper-thread semaphore around it.
- SingleFlight.SharersAreToldTheSame: how long a sharer waits before it gives up; it may do so at any step.
- StagedRuntime.Staged: what counts as a native executable, and file modes.
- Filing.CaseFile.FreezeRevision: re-proving and rendering a revision is an answer given to the act; receipts' bytes and packages.
- Blobs.NoPartialBlob: the volume backend's upload, bytes changed by anything but a crash, and the root directory's own name in the directory above it.
- Transport, sessions, environments, executable sniffing and readiness listings of `caos/copilot.py`.
- The store's own tables and queries: logs and tables are sequences and maps.
- `request_ceiling`, context notices, edge headers, health probes and the release scripts.
