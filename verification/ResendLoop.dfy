// One model call: how often it is tried, what must hold before another try, the single
// deadline all of it is measured against, and what of the answer is kept.
module ResendLoop {
  import opened Wrappers
  import opened Decimals
  import opened Pricing

  const RATE_LIMITED := 429
  const RATE_LIMIT_TRIES: nat := 3
  const RETRY_AFTER_SECONDS := 2.0
  const RETRY_AFTER_CAP_SECONDS := 20.0
  const TIMEOUT_SECONDS := 720.0
  const MIN_RESEND_SECONDS := TIMEOUT_SECONDS / 2.0
  const MAX_RESPONSE_BYTES: nat := 4_194_304

  datatype Code =
    | ProviderNotConfigured | ProviderCallInvalid | ProviderUnavailable
    | ProviderResponseInvalid | ProviderOutputTruncated | ProviderRefused

  /* ----- what a try gives back ----- */

  // One fact of a vendor error: reading it may itself fail.
  datatype Fact<T> = Unreadable | Read(value: T)

  // A status is a whole number or something else.
  datatype Status = Whole(code: int) | NotWhole

  // What the gateway asks to be waited; nothing, or no finite number, is the default.
  datatype RetryAfter = Default | Seconds(seconds: real)

  // A vendor error: its status is read when deciding whether to send again, and again when it
  // ends the call.
  datatype VendorError = VendorError(status: Fact<Status>, retryAfter: Fact<RetryAfter>, statusAgain: Fact<Status>)

  // A message as the client reads it: its text if it has any, the call's charge if it is
  // known, the id the provider claimed and the finish reason it states.
  datatype Message = Message(text: Option<string>, charge: Option<Dec>, claimed: Option<string>, finish: Option<string>)

  datatype Answer = Nothing | Raised | Failed(error: VendorError) | Answered(message: Message) | Strange

  datatype Completion = Completion(content: Option<string>, charge: Option<Dec>, generation: Option<string>, refusal: Option<Code>)

  // Calls end in a completion, in a refusal before anything is sent, or in what a check raises.
  datatype Outcome = Done(completion: Completion) | Refused(code: Code) | Stopped(check: nat)

  /* ----- reading an answer ----- */

  function FinishRefusal(finish: string): Option<Code> {
    if finish == "stop" then None
    else if finish == "length" then Some(ProviderOutputTruncated)
    else if finish == "content_filter" then Some(ProviderRefused)
    else Some(ProviderResponseInvalid)
  }

  // A text's length in UTF-8, surrogates passed through.
  function Utf8Bytes(text: string): nat {
    if text == "" then 0
    else
      var c := text[0] as int;
      (if c < 0x80 then 1 else if c < 0x800 then 2 else if c < 0x1_0000 then 3 else 4) + Utf8Bytes(text[1..])
  }

  // One to four bytes a character, more the further along it is.
  lemma Utf8Takes(c: char, rest: string)
    ensures Utf8Bytes([c] + rest) == Utf8Bytes([c]) + Utf8Bytes(rest)
    ensures 1 <= Utf8Bytes([c]) <= 4
    ensures Utf8Bytes([c]) == 1 <==> c as int < 0x80
    ensures Utf8Bytes([c]) <= 2 <==> c as int < 0x800
    ensures Utf8Bytes([c]) <= 3 <==> c as int < 0x1_0000
  {
    assert ([c] + rest)[1..] == rest && [c][1..] == [];
  }

  // `minted` is the id the host gives a reply that claims none.
  function CompletionOf(message: Message, minted: string): Completion {
    var generation := Some(if message.claimed.Some? then message.claimed.value else minted);
    var refusal :=
      if message.finish.Some? && message.finish.value != "" then FinishRefusal(message.finish.value)
      else Some(ProviderResponseInvalid);
    if refusal.Some? then Completion(None, message.charge, generation, refusal)
    else if message.text.None? || message.text.value == "" || message.charge.None? then
      Completion(None, message.charge, generation, Some(ProviderResponseInvalid))
    else if Utf8Bytes(message.text.value) > MAX_RESPONSE_BYTES then
      Completion(None, message.charge, generation, Some(ProviderResponseInvalid))
    else Completion(message.text, message.charge, generation, None)
  }

  // Content is kept exactly from a reply that finished, whose charge is known, and whose text
  // is there and fits; it is then the text itself, under a generation id and no refusal.
  lemma ContentIsBilled(message: Message, minted: string)
    ensures var kept := CompletionOf(message, minted);
            && kept.charge == message.charge
            && kept.generation == Some(if message.claimed == None then minted else message.claimed.value)
            && (kept.content.Some? <==> kept.refusal.None?)
            && (kept.content.Some? <==>
                  && message.finish == Some("stop") && message.charge.Some?
                  && message.text.Some? && 0 < Utf8Bytes(message.text.value) <= MAX_RESPONSE_BYTES)
            && (kept.content.Some? ==> kept.content == message.text)
  {
  }

  const NEVER_RETRIED := {400, 401, 402, 403, 404, 413, 422}

  function Unanswered(code: Code): Completion { Completion(None, None, None, Some(code)) }

  function StatusRefusal(status: Fact<Status>): Code {
    match status
    case Read(Whole(code)) => if code in NEVER_RETRIED then ProviderCallInvalid else ProviderUnavailable
    case _ => ProviderUnavailable
  }

  // What a call that ends with this answer, the `sent`-th, is given.
  function Ending(answer: Answer, sent: nat, minted: string): Completion {
    match answer
    case Nothing => Unanswered(ProviderUnavailable)
    case Raised => Unanswered(ProviderUnavailable)
    case Strange => Unanswered(ProviderResponseInvalid)
    case Answered(message) => CompletionOf(message, minted)
    case Failed(error) =>
      if error.status.Unreadable? then Unanswered(ProviderUnavailable)
      else if IsRateLimit(answer) && sent < RATE_LIMIT_TRIES && error.retryAfter.Unreadable? then
        Unanswered(ProviderUnavailable)
      else Unanswered(StatusRefusal(error.statusAgain))
  }

  // What a call that was not answered is told: that it was invalid exactly for a status the
  // provider never retries, read where every fact of the failure could be; that the response
  // was, exactly for something that is neither an answer nor a failure; and otherwise that
  // the provider is unavailable. None of it is charged or kept.
  lemma UnansweredAsItFailed(answer: Answer, sent: nat, minted: string)
    requires !answer.Answered?
    ensures var told := Ending(answer, sent, minted);
            && told.content == None && told.charge == None && told.generation == None && told.refusal.Some?
            && (told.refusal == Some(ProviderCallInvalid) <==>
                  && answer.Failed? && answer.error.status != Unreadable
                  && answer.error.statusAgain.Read? && answer.error.statusAgain.value.Whole?
                  && answer.error.statusAgain.value.code in {400, 401, 402, 403, 404, 413, 422}
                  && (answer.error.status == Read(Whole(429)) && sent < 3 ==> answer.error.retryAfter != Unreadable))
            && (told.refusal == Some(ProviderResponseInvalid) <==> answer == Strange)
            && (told.refusal == Some(ProviderCallInvalid) || told.refusal == Some(ProviderResponseInvalid)
                || told.refusal == Some(ProviderUnavailable))
  {
  }

  predicate IsRateLimit(answer: Answer) {
    answer.Failed? && answer.error.status == Read(Whole(RATE_LIMITED))
  }

  // The wait a rate limit asks for, between none and the cap.
  function WaitOf(asked: RetryAfter): (wait: real)
    ensures 0.0 <= wait <= RETRY_AFTER_CAP_SECONDS
  {
    var seconds := if asked.Seconds? then asked.seconds else RETRY_AFTER_SECONDS;
    if seconds < 0.0 then 0.0 else if seconds > RETRY_AFTER_CAP_SECONDS then RETRY_AFTER_CAP_SECONDS else seconds
  }

  // The wait is the nearest there is, between none and the cap, to what is asked for: itself,
  // when it lies between them.
  lemma WaitIsAsAsked(asked: RetryAfter, other: real)
    requires 0.0 <= other <= RETRY_AFTER_CAP_SECONDS
    ensures asked.Seconds? ==>
              var wait, seconds := WaitOf(asked), asked.seconds;
              && (0.0 <= seconds <= RETRY_AFTER_CAP_SECONDS ==> wait == seconds)
              && (seconds < wait ==> wait <= other) && (seconds > wait ==> other <= wait)
    ensures asked.Default? ==> WaitOf(asked) == WaitOf(Seconds(RETRY_AFTER_SECONDS))
  {
  }

  // A reply is refused as cut off exactly when its length ended it, and as refused exactly when
  // a content filter did.
  lemma RefusedAsItFinished(message: Message, minted: string)
    ensures var kept := CompletionOf(message, minted);
            && (kept.refusal == Some(ProviderOutputTruncated) <==> message.finish == Some("length"))
            && (kept.refusal == Some(ProviderRefused) <==> message.finish == Some("content_filter"))
  {
  }

  /* ----- what a call does, and when ----- */

  // A look at the time left, a try with the time it is given and the time it took, a wait, a
  // check asked; each with the instant it began.
  datatype Act =
    | Look(at: real, left: real)
    | Send(at: real, given: real, took: real, answer: Answer)
    | Wait(at: real, seconds: real)
    | Ask(at: real, check: nat, stands: bool)

  // When an act is over.
  function Over(act: Act): real {
    match act
    case Send(at, _, took, _) => at + took
    case Wait(at, seconds) => at + seconds
    case _ => act.at
  }

  type Pause = x: real | x >= 0.0 witness 0.0

  // What a call meets: when it starts, how many checks are installed, and, for its `n`-th act,
  // how long passes before it begins, and what a try there takes and answers or a check there
  // says.
  datatype Surroundings = Surroundings(
    started: real, checks: nat, pause: nat -> Pause, took: nat -> Pause, answer: nat -> Answer, stands: nat -> bool)

  // The one deadline.
  function Deadline(around: Surroundings): real { around.started + TIMEOUT_SECONDS }

  function Now(around: Surroundings, acts: seq<Act>): real {
    if acts == [] then around.started else Over(acts[|acts| - 1])
  }

  // When the next act begins.
  function Due(around: Surroundings, acts: seq<Act>): real { Now(around, acts) + around.pause(|acts|) }

  function LeftAt(around: Surroundings, acts: seq<Act>): real { Deadline(around) - Due(around, acts) }

  function Looked(around: Surroundings, acts: seq<Act>): seq<Act> {
    acts + [Look(Due(around, acts), LeftAt(around, acts))]
  }

  function Tried(around: Surroundings, acts: seq<Act>): seq<Act> {
    var looked, left := Looked(around, acts), LeftAt(around, acts);
    looked + [Send(Due(around, looked), if left > 0.0 then left else 0.0, around.took(|looked|), around.answer(|looked|))]
  }

  function Rested(around: Surroundings, acts: seq<Act>, seconds: real): seq<Act> {
    acts + [Wait(Due(around, acts), seconds)]
  }

  function AskedOnce(around: Surroundings, acts: seq<Act>, check: nat): seq<Act> {
    acts + [Ask(Due(around, acts), check, around.stands(|acts|))]
  }

  // The checks asked from the `k`-th on, up to the first that does not stand.
  datatype Asking = Asking(acts: seq<Act>, failed: Option<nat>)

  function Asked(around: Surroundings, acts: seq<Act>, k: nat): Asking
    requires k <= around.checks
    decreases around.checks - k
  {
    if k == around.checks then Asking(acts, None)
    else if around.stands(|acts|) then Asked(around, AskedOnce(around, acts, k), k + 1)
    else Asking(AskedOnce(around, acts, k), Some(k))
  }

  // A rate limit that may be sent again: it can be read, and tries are left.
  predicate MayResend(error: VendorError, sent: nat) {
    IsRateLimit(Failed(error)) && sent < RATE_LIMIT_TRIES && error.retryAfter.Read?
  }

  // The wait after a rate limit, where there is to be one.
  datatype Waiting = Waiting(acts: seq<Act>, waited: bool)

  function WaitsOut(around: Surroundings, acts: seq<Act>, error: VendorError, sent: nat): Waiting {
    if !MayResend(error, sent) then Waiting(acts, false)
    else
      var wait := WaitOf(error.retryAfter.value);
      if wait + MIN_RESEND_SECONDS > LeftAt(around, acts) then Waiting(Looked(around, acts), false)
      else Waiting(Rested(around, Looked(around, acts), wait), true)
  }

  // Whether another try follows, the call ends, or a check stops it.
  datatype Next = Again | Ends | Stops(check: nat)

  datatype Going = Going(acts: seq<Act>, next: Next)

  function GoesAgain(around: Surroundings, acts: seq<Act>, error: VendorError, sent: nat): Going {
    var waiting := WaitsOut(around, acts, error, sent);
    if !waiting.waited then Going(waiting.acts, Ends)
    else
      var asking := Asked(around, waiting.acts, 0);
      if asking.failed.Some? then Going(asking.acts, Stops(asking.failed.value))
      else
        Going(Looked(around, asking.acts), if LeftAt(around, asking.acts) >= MIN_RESEND_SECONDS then Again else Ends)
  }

  // A try, the `sent`-th, and what comes of it.
  function Turn(around: Surroundings, acts: seq<Act>, sent: nat): Going {
    var tried := Tried(around, acts);
    var answer := around.answer(|acts| + 1);
    if answer.Failed? then GoesAgain(around, tried, answer.error, sent) else Going(tried, Ends)
  }

  // A request as the caller makes it: whether its model and prompt are fit to send, its size,
  // and the id minted for a reply that claims none.
  datatype Request = Request(modelNamed: bool, promptIsText: bool, bytes: nat, minted: string)

  datatype Ran = Ran(acts: seq<Act>, outcome: Outcome)

  function TriesFrom(around: Surroundings, acts: seq<Act>, sent: nat, minted: string): Ran
    requires sent < RATE_LIMIT_TRIES
    decreases RATE_LIMIT_TRIES - sent
  {
    var turn := Turn(around, acts, sent + 1);
    match turn.next
    case Ends => Ran(turn.acts, Done(Ending(around.answer(|acts| + 1), sent + 1, minted)))
    case Stops(check) => Ran(turn.acts, Stopped(check))
    case Again =>
      GoesAgainWithinTries(around, acts, sent + 1);
      TriesFrom(around, turn.acts, sent + 1, minted)
  }

  lemma GoesAgainWithinTries(around: Surroundings, acts: seq<Act>, sent: nat)
    ensures Turn(around, acts, sent).next.Again? ==> sent < RATE_LIMIT_TRIES
  {
  }

  // The whole call: all it does, and how it ends.
  function CallOf(around: Surroundings, request: Request): Ran {
    if !request.modelNamed then Ran([], Refused(Code.ProviderNotConfigured))
    else if !request.promptIsText || request.bytes > MAX_REQUEST_BYTES then Ran([], Refused(ProviderCallInvalid))
    else TriesFrom(around, [], 0, request.minted)
  }

  /* ----- the call as it is run ----- */

  // The clock, the provider and the checks of one call, and the log of what it has done.
  class World {
    const around: Surroundings
    var log: seq<Act>

    constructor (around: Surroundings)
      ensures this.around == around && log == []
    {
      this.around := around;
      log := [];
    }

    method Left(deadline: real) returns (left: real)
      modifies this
      ensures left == deadline - Due(around, old(log)) && log == old(log) + [Look(Due(around, old(log)), left)]
    {
      left := deadline - Due(around, log);
      log := log + [Look(Due(around, log), left)];
    }

    method Sleep(seconds: real)
      modifies this
      ensures log == Rested(around, old(log), seconds)
    {
      log := Rested(around, log, seconds);
    }

    method Invoke(given: real) returns (answer: Answer)
      modifies this
      ensures answer == around.answer(|old(log)|)
      ensures log == old(log) + [Send(Due(around, old(log)), given, around.took(|old(log)|), answer)]
    {
      answer := around.answer(|log|);
      log := log + [Send(Due(around, log), given, around.took(|log|), answer)];
    }

    method Check(check: nat) returns (stands: bool)
      modifies this
      ensures stands == around.stands(|old(log)|) && log == AskedOnce(around, old(log), check)
    {
      stands := around.stands(|log|);
      log := AskedOnce(around, log, check);
    }
  }

  // Every installed check is asked, outermost first, up to the first that does not stand.
  method CheckResend(world: World) returns (failed: Option<nat>)
    modifies world
    ensures Asking(world.log, failed) == Asked(world.around, old(world.log), 0)
  {
    for k := 0 to world.around.checks
      invariant Asked(world.around, world.log, k) == Asked(world.around, old(world.log), 0)
    {
      var stands := world.Check(k);
      if !stands {
        return Some(k);
      }
    }
    failed := None;
  }

  // The wait before another try, made only where there may be one and half the deadline will
  // be left after it.
  method WaitedOut(world: World, error: VendorError, sent: nat, deadline: real) returns (waited: bool)
    requires deadline == Deadline(world.around)
    modifies world
    ensures Waiting(world.log, waited) == WaitsOut(world.around, old(world.log), error, sent)
  {
    if !MayResend(error, sent) {
      return false;
    }
    var wait := WaitOf(error.retryAfter.value);
    var left := world.Left(deadline);
    if wait + MIN_RESEND_SECONDS > left {
      return false;
    }
    world.Sleep(wait);
    waited := true;
  }

  // What comes of a vendor error: another try, once the wait is over, no check objects and a
  // second look finds half the deadline still there; the end; or the check that objects.
  method SendsAgain(world: World, error: VendorError, sent: nat, deadline: real) returns (next: Next)
    requires deadline == Deadline(world.around)
    modifies world
    ensures Going(world.log, next) == GoesAgain(world.around, old(world.log), error, sent)
  {
    var waited := WaitedOut(world, error, sent, deadline);
    if !waited {
      return Ends;
    }
    var failed := CheckResend(world);
    if failed.Some? {
      return Stops(failed.value);
    }
    var left := world.Left(deadline);
    next := if left >= MIN_RESEND_SECONDS then Again else Ends;
  }

  // A try, given what a look finds, and what comes of it.
  method TryOnce(world: World, sent: nat, deadline: real) returns (answer: Answer, next: Next)
    requires deadline == Deadline(world.around)
    modifies world
    ensures Going(world.log, next) == Turn(world.around, old(world.log), sent)
    ensures answer == world.around.answer(|old(world.log)| + 1)
  {
    var left := world.Left(deadline);
    answer := world.Invoke(if left > 0.0 then left else 0.0);
    next := Ends;
    if answer.Failed? {
      next := SendsAgain(world, answer.error, sent, deadline);
    }
  }

  // A call does what its surroundings make it do, and so keeps all that every call keeps:
  // `CallKeeps`, below, says what.
  method Complete(world: World, request: Request) returns (outcome: Outcome)
    requires world.log == []
    modifies world
    ensures Ran(world.log, outcome) == CallOf(world.around, request)
  {
    if !request.modelNamed {
      return Refused(Code.ProviderNotConfigured);
    }
    if !request.promptIsText || request.bytes > MAX_REQUEST_BYTES {
      return Refused(ProviderCallInvalid);
    }
    var deadline := world.around.started + TIMEOUT_SECONDS;
    var sent := 0;
    while true
      invariant sent < RATE_LIMIT_TRIES
      invariant TriesFrom(world.around, world.log, sent, request.minted) == CallOf(world.around, request)
      decreases RATE_LIMIT_TRIES - sent
    {
      GoesAgainWithinTries(world.around, world.log, sent + 1);
      sent := sent + 1;
      var answer, next := TryOnce(world, sent, deadline);
      if next.Ends? {
        return Done(Ending(answer, sent, request.minted));
      }
      if next.Stops? {
        return Stopped(next.check);
      }
    }
  }

  /* ----- counting ----- */

  function TotalWait(acts: seq<Act>): real {
    if acts == [] then 0.0
    else TotalWait(acts[..|acts| - 1]) + (if acts[|acts| - 1].Wait? then acts[|acts| - 1].seconds else 0.0)
  }

  function Sends(acts: seq<Act>): nat {
    if acts == [] then 0 else Sends(acts[..|acts| - 1]) + (if acts[|acts| - 1].Send? then 1 else 0)
  }

  // The last answer a run of acts was given.
  function LastAnswer(acts: seq<Act>): Option<Answer> {
    if acts == [] then None
    else if acts[|acts| - 1].Send? then Some(acts[|acts| - 1].answer)
    else LastAnswer(acts[..|acts| - 1])
  }

  lemma OneMoreCounts(acts: seq<Act>, act: Act)
    ensures TotalWait(acts + [act]) == TotalWait(acts) + (if act.Wait? then act.seconds else 0.0)
    ensures Sends(acts + [act]) == Sends(acts) + (if act.Send? then 1 else 0)
    ensures LastAnswer(acts + [act]) == if act.Send? then Some(act.answer) else LastAnswer(acts)
  {
    assert (acts + [act])[..|acts|] == acts;
  }

  /* ----- what every call keeps ----- */

  // Each act begins so long after the one before is over, every look is at the deadline, no
  // wait is longer than the cap, and tries take and answer what the surroundings say.
  ghost predicate PacedAt(around: Surroundings, acts: seq<Act>, i: nat)
    requires i < |acts|
  {
    && acts[i].at == Now(around, acts[..i]) + around.pause(i)
    && match acts[i]
       case Look(at, left) => left == Deadline(around) - at
       case Send(_, _, took, answer) => took == around.took(i) && answer == around.answer(i)
       case Wait(_, seconds) => 0.0 <= seconds <= RETRY_AFTER_CAP_SECONDS
       case Ask(_, _, stands) => stands == around.stands(i)
  }

  ghost predicate Paced(around: Surroundings, acts: seq<Act>) {
    forall i :: 0 <= i < |acts| ==> PacedAt(around, acts, i)
  }

  predicate AllStood(asks: seq<Act>, from: nat, to: nat) {
    from <= to && |asks| == to - from
    && forall j :: 0 <= j < |asks| ==> asks[j].Ask? && asks[j].check == from + j && asks[j].stands
  }

  // A rate limit that states the wait before another try.
  predicate IsReadable(act: Act) {
    act.Send? && IsRateLimit(act.answer) && act.answer.error.retryAfter.Read?
  }

  function WaitAfter(act: Act): real
    requires IsReadable(act)
  {
    WaitOf(act.answer.error.retryAfter.value)
  }

  // Acts that end ready to send again: a rate limit, a look that leaves its wait time to
  // spare, the wait, every check standing since, and enough of the deadline still left.
  ghost predicate Ready(acts: seq<Act>, checks: nat) {
    var from := |acts| as int - checks - 3;
    && from >= 1 && IsReadable(acts[from - 1])
    && acts[from].Look? && WaitAfter(acts[from - 1]) + MIN_RESEND_SECONDS <= acts[from].left
    && acts[from + 1].Wait? && acts[from + 1].seconds == WaitAfter(acts[from - 1])
    && AllStood(acts[from + 2..|acts| - 1], 0, checks)
    && acts[|acts| - 1].Look? && acts[|acts| - 1].left >= MIN_RESEND_SECONDS
  }

  // A try is given what a look just found left, and is the first or was ready; and a wait
  // follows a look that leaves it time to spare.
  ghost predicate Proper(acts: seq<Act>, i: nat, checks: nat)
    requires i < |acts|
  {
    && (acts[i].Send? ==>
          && i >= 1 && acts[i - 1].Look?
          && acts[i].given == (if acts[i - 1].left > 0.0 then acts[i - 1].left else 0.0)
          && (i == 1 || Ready(acts[..i - 1], checks)))
    && (acts[i].Wait? ==> i >= 1 && acts[i - 1].Look? && acts[i].seconds + MIN_RESEND_SECONDS <= acts[i - 1].left)
  }

  ghost predicate Kept(around: Surroundings, acts: seq<Act>) {
    Paced(around, acts) && forall i :: 0 <= i < |acts| ==> Proper(acts, i, around.checks)
  }

  lemma OneMorePaced(around: Surroundings, acts: seq<Act>, act: Act)
    requires Paced(around, acts) && PacedAt(around, acts + [act], |acts|)
    ensures Paced(around, acts + [act])
  {
    var all := acts + [act];
    forall i | 0 <= i < |all|
      ensures PacedAt(around, all, i)
    {
      if i < |acts| {
        assert PacedAt(around, acts, i) && all[i] == acts[i] && all[..i] == acts[..i];
      }
    }
  }

  lemma OneMoreKept(around: Surroundings, acts: seq<Act>, act: Act)
    requires Kept(around, acts) && Paced(around, acts + [act]) && Proper(acts + [act], |acts|, around.checks)
    ensures Kept(around, acts + [act])
  {
    var all := acts + [act];
    forall i | 0 <= i < |all|
      ensures Proper(all, i, around.checks)
    {
      if i < |acts| {
        assert Proper(acts, i, around.checks) && all[i] == acts[i];
        if i >= 1 {
          assert all[i - 1] == acts[i - 1] && all[..i - 1] == acts[..i - 1];
        }
      }
    }
  }

  // What a log keeps of an earlier one of the same call that holds the same tries.
  ghost predicate SameTries(acts: seq<Act>, all: seq<Act>) {
    acts <= all && Sends(all) == Sends(acts) && LastAnswer(all) == LastAnswer(acts)
  }

  lemma LookKeeps(around: Surroundings, acts: seq<Act>)
    requires Kept(around, acts)
    ensures var all := Looked(around, acts);
            Kept(around, all) && SameTries(acts, all) && TotalWait(all) == TotalWait(acts)
  {
    var act := Look(Due(around, acts), LeftAt(around, acts));
    assert (acts + [act])[..|acts|] == acts;
    OneMorePaced(around, acts, act);
    OneMoreKept(around, acts, act);
    OneMoreCounts(acts, act);
  }

  lemma RestKeeps(around: Surroundings, acts: seq<Act>, seconds: real)
    requires Kept(around, acts) && 0.0 <= seconds <= RETRY_AFTER_CAP_SECONDS
    requires acts != [] && acts[|acts| - 1].Look? && seconds + MIN_RESEND_SECONDS <= acts[|acts| - 1].left
    ensures var all := Rested(around, acts, seconds);
            Kept(around, all) && SameTries(acts, all) && TotalWait(all) == TotalWait(acts) + seconds
  {
    var act := Wait(Due(around, acts), seconds);
    assert (acts + [act])[..|acts|] == acts;
    OneMorePaced(around, acts, act);
    OneMoreKept(around, acts, act);
    OneMoreCounts(acts, act);
  }

  lemma AskKeeps(around: Surroundings, acts: seq<Act>, check: nat)
    requires Kept(around, acts)
    ensures var all := AskedOnce(around, acts, check);
            Kept(around, all) && SameTries(acts, all) && TotalWait(all) == TotalWait(acts)
  {
    var act := Ask(Due(around, acts), check, around.stands(|acts|));
    assert (acts + [act])[..|acts|] == acts;
    OneMorePaced(around, acts, act);
    OneMoreKept(around, acts, act);
    OneMoreCounts(acts, act);
  }

  // The last thing done was to ask a check that did not stand.
  ghost predicate StoppedBy(acts: seq<Act>, check: nat) {
    acts != [] && acts[|acts| - 1].Ask? && acts[|acts| - 1].check == check && !acts[|acts| - 1].stands
  }

  // One check that stood, and those asked after it.
  lemma StoodOn(acts: seq<Act>, once: seq<Act>, all: seq<Act>, k: nat, checks: nat)
    requires |once| == |acts| + 1 && once <= all && k < checks
    requires once[|acts|].Ask? && once[|acts|].check == k && once[|acts|].stands
    requires AllStood(all[|once|..], k + 1, checks)
    ensures AllStood(all[|acts|..], k, checks)
  {
    var rest := all[|acts|..];
    assert rest[0] == once[|acts|] && rest[1..] == all[|once|..];
    forall j | 0 <= j < |rest|
      ensures rest[j].Ask? && rest[j].check == k + j && rest[j].stands
    {
      if j > 0 {
        assert rest[j] == all[|once|..][j - 1];
      }
    }
  }

  lemma {:induction false} AskingKeeps(around: Surroundings, acts: seq<Act>, k: nat)
    requires Kept(around, acts) && k <= around.checks
    ensures var asking := Asked(around, acts, k);
            && Kept(around, asking.acts) && SameTries(acts, asking.acts) && TotalWait(asking.acts) == TotalWait(acts)
            && (asking.failed.None? ==> AllStood(asking.acts[|acts|..], k, around.checks))
            && (asking.failed.Some? ==> asking.failed.value < around.checks && StoppedBy(asking.acts, asking.failed.value))
    decreases around.checks - k
  {
    if k < around.checks {
      var once := AskedOnce(around, acts, k);
      AskKeeps(around, acts, k);
      if around.stands(|acts|) {
        AskingKeeps(around, once, k + 1);
        var asking := Asked(around, once, k + 1);
        if asking.failed.None? {
          StoodOn(acts, once, asking.acts, k, around.checks);
        }
      }
    }
  }

  // Why a call that ended after a readable rate limit within the tries was not sent again: a
  // look found no time to wait, or to generate.
  ghost predicate OutOfTime(acts: seq<Act>, error: VendorError) {
    && acts != [] && acts[|acts| - 1].Look? && error.retryAfter.Read?
    && acts[|acts| - 1].left < WaitOf(error.retryAfter.value) + MIN_RESEND_SECONDS
  }

  // A log whose last try is a rate limit, waited out since.
  ghost predicate HasWaited(before: seq<Act>, rested: seq<Act>) {
    && before != [] && before <= rested && |rested| == |before| + 2 && IsReadable(before[|before| - 1])
    && rested[|before|].Look? && WaitAfter(before[|before| - 1]) + MIN_RESEND_SECONDS <= rested[|before|].left
    && rested[|before| + 1].Wait? && rested[|before| + 1].seconds == WaitAfter(before[|before| - 1])
  }

  lemma WaitsOutKeeps(around: Surroundings, acts: seq<Act>, error: VendorError, sent: nat)
    requires Kept(around, acts) && acts != [] && acts[|acts| - 1].Send? && acts[|acts| - 1].answer == Failed(error)
    ensures var waiting := WaitsOut(around, acts, error, sent);
            && Kept(around, waiting.acts) && SameTries(acts, waiting.acts)
            && TotalWait(waiting.acts) <= TotalWait(acts) + (if waiting.waited then RETRY_AFTER_CAP_SECONDS else 0.0)
            && (waiting.waited ==> MayResend(error, sent) && HasWaited(acts, waiting.acts))
            && (!waiting.waited && MayResend(error, sent) ==> OutOfTime(waiting.acts, error))
  {
    if MayResend(error, sent) {
      LookKeeps(around, acts);
      var wait := WaitOf(error.retryAfter.value);
      if wait + MIN_RESEND_SECONDS <= LeftAt(around, acts) {
        RestKeeps(around, Looked(around, acts), wait);
      }
    }
  }

  // It is ready once every check has stood and a last look leaves enough.
  lemma WaitedIsReady(before: seq<Act>, rested: seq<Act>, asked: seq<Act>, last: Act, checks: nat)
    requires HasWaited(before, rested) && rested <= asked && AllStood(asked[|rested|..], 0, checks)
    requires last.Look? && last.left >= MIN_RESEND_SECONDS
    ensures Ready(asked + [last], checks)
  {
    var acts := asked + [last];
    assert acts[|before| - 1] == rested[|before| - 1] == before[|before| - 1];
    assert acts[|before|] == rested[|before|] && acts[|before| + 1] == rested[|before| + 1];
    assert acts[|before| + 2..|acts| - 1] == asked[|rested|..];
  }

  // What a rate limit that was waited out comes to.
  lemma AfterWait(around: Surroundings, before: seq<Act>, rested: seq<Act>, asking: Asking)
    requires Kept(around, rested) && HasWaited(before, rested) && asking == Asked(around, rested, 0)
    ensures Kept(around, asking.acts) && SameTries(rested, asking.acts) && TotalWait(asking.acts) == TotalWait(rested)
    ensures asking.failed.Some? ==> StoppedBy(asking.acts, asking.failed.value)
    ensures asking.failed.None? ==>
              var all := Looked(around, asking.acts);
              && Kept(around, all) && SameTries(rested, all) && TotalWait(all) == TotalWait(rested)
              && (LeftAt(around, asking.acts) >= MIN_RESEND_SECONDS ==> Ready(all, around.checks))
              && all[|all| - 1] == Look(Due(around, asking.acts), LeftAt(around, asking.acts))
  {
    AskingKeeps(around, rested, 0);
    LookKeeps(around, asking.acts);
    var last := Look(Due(around, asking.acts), LeftAt(around, asking.acts));
    if asking.failed.None? && last.left >= MIN_RESEND_SECONDS {
      WaitedIsReady(before, rested, asking.acts, last, around.checks);
    }
  }

  lemma GoesAgainKeeps(around: Surroundings, acts: seq<Act>, error: VendorError, sent: nat)
    requires Kept(around, acts) && acts != [] && acts[|acts| - 1].Send? && acts[|acts| - 1].answer == Failed(error)
    ensures var going := GoesAgain(around, acts, error, sent);
            && Kept(around, going.acts) && SameTries(acts, going.acts)
            && TotalWait(going.acts) <= TotalWait(acts) + (if MayResend(error, sent) then RETRY_AFTER_CAP_SECONDS else 0.0)
            && (going.next.Again? ==> MayResend(error, sent) && Ready(going.acts, around.checks))
            && (going.next.Ends? && MayResend(error, sent) ==> OutOfTime(going.acts, error))
            && (going.next.Stops? ==> MayResend(error, sent) && StoppedBy(going.acts, going.next.check))
  {
    WaitsOutKeeps(around, acts, error, sent);
    var waiting := WaitsOut(around, acts, error, sent);
    if waiting.waited {
      AfterWait(around, acts, waiting.acts, Asked(around, waiting.acts, 0));
    }
  }

  lemma TryKeeps(around: Surroundings, acts: seq<Act>)
    requires Kept(around, acts) && (acts == [] || Ready(acts, around.checks))
    ensures var all, answer := Tried(around, acts), around.answer(|acts| + 1);
            && Kept(around, all) && Sends(all) == Sends(acts) + 1 && TotalWait(all) == TotalWait(acts)
            && LastAnswer(all) == Some(answer)
            && all[|all| - 1].Send? && all[|all| - 1].answer == answer
  {
    var looked := Looked(around, acts);
    LookKeeps(around, acts);
    var act := Tried(around, acts)[|looked|];
    assert Tried(around, acts) == looked + [act];
    assert (looked + [act])[..|acts|] == acts;
    assert (looked + [act])[..|looked|] == looked;
    OneMorePaced(around, looked, act);
    OneMoreKept(around, looked, act);
    OneMoreCounts(looked, act);
  }

  // How a call that sent something ends.
  ghost predicate EndsWell(ran: Ran, minted: string) {
    && !ran.outcome.Refused?
    && 1 <= Sends(ran.acts) <= RATE_LIMIT_TRIES
    && TotalWait(ran.acts) <= 2.0 * RETRY_AFTER_CAP_SECONDS
    && LastAnswer(ran.acts).Some?
    && var answer := LastAnswer(ran.acts).value;
       && (ran.outcome.Done? ==>
             && ran.outcome.completion == Ending(answer, Sends(ran.acts), minted)
             && (answer.Failed? && MayResend(answer.error, Sends(ran.acts)) ==> OutOfTime(ran.acts, answer.error)))
       && (ran.outcome.Stopped? ==> IsRateLimit(answer) && StoppedBy(ran.acts, ran.outcome.check))
  }

  // What one turn of the loop, the `sent`-th, keeps of what the turns before it kept.
  ghost predicate TurnHolds(around: Surroundings, acts: seq<Act>, sent: nat, turn: Going, answer: Answer) {
    && Kept(around, turn.acts) && Sends(turn.acts) == Sends(acts) + 1 && LastAnswer(turn.acts) == Some(answer)
    && TotalWait(turn.acts) <= TotalWait(acts) + (if sent < RATE_LIMIT_TRIES then RETRY_AFTER_CAP_SECONDS else 0.0)
    && (turn.next.Again? ==> sent < RATE_LIMIT_TRIES && Ready(turn.acts, around.checks))
    && (turn.next.Ends? && answer.Failed? && MayResend(answer.error, sent) ==> OutOfTime(turn.acts, answer.error))
    && (turn.next.Stops? ==> IsRateLimit(answer) && StoppedBy(turn.acts, turn.next.check))
  }

  lemma TurnKeeps(around: Surroundings, acts: seq<Act>, sent: nat, turn: Going, answer: Answer)
    requires Kept(around, acts) && (acts == [] || Ready(acts, around.checks))
    requires turn == Turn(around, acts, sent) && answer == around.answer(|acts| + 1)
    ensures TurnHolds(around, acts, sent, turn, answer)
  {
    TryKeeps(around, acts);
    if answer.Failed? {
      GoesAgainKeeps(around, Tried(around, acts), answer.error, sent);
    }
  }

  // How a call ends whose turn is the last.
  function EndedBy(turn: Going, answer: Answer, sent: nat, minted: string): Ran {
    Ran(turn.acts, if turn.next.Stops? then Stopped(turn.next.check) else Done(Ending(answer, sent, minted)))
  }

  lemma LastTurn(around: Surroundings, acts: seq<Act>, sent: nat, turn: Going, answer: Answer, minted: string)
    requires sent == Sends(acts) < RATE_LIMIT_TRIES && TotalWait(acts) <= sent as real * RETRY_AFTER_CAP_SECONDS
    requires TurnHolds(around, acts, sent + 1, turn, answer) && !turn.next.Again?
    ensures EndsWell(EndedBy(turn, answer, sent + 1, minted), minted)
  {
  }

  lemma TriesUnfold(around: Surroundings, acts: seq<Act>, sent: nat, minted: string) returns (turn: Going, answer: Answer)
    requires Kept(around, acts) && (acts == [] || Ready(acts, around.checks)) && sent < RATE_LIMIT_TRIES
    ensures TurnHolds(around, acts, sent + 1, turn, answer)
    ensures TriesFrom(around, acts, sent, minted)
            == if turn.next.Again? then TriesFrom(around, turn.acts, sent + 1, minted) else EndedBy(turn, answer, sent + 1, minted)
  {
    turn, answer := Turn(around, acts, sent + 1), around.answer(|acts| + 1);
    TurnKeeps(around, acts, sent + 1, turn, answer);
  }

  lemma {:induction false} TriesKeep(around: Surroundings, acts: seq<Act>, sent: nat, minted: string, ran: Ran)
    requires Kept(around, acts) && (acts == [] || Ready(acts, around.checks))
    requires sent == Sends(acts) < RATE_LIMIT_TRIES && TotalWait(acts) <= sent as real * RETRY_AFTER_CAP_SECONDS
    requires ran == TriesFrom(around, acts, sent, minted)
    ensures Kept(around, ran.acts) && EndsWell(ran, minted)
    decreases RATE_LIMIT_TRIES - sent
  {
    var turn, answer := TriesUnfold(around, acts, sent, minted);
    if turn.next.Again? {
      TriesKeep(around, turn.acts, sent + 1, minted, ran);
    } else {
      LastTurn(around, acts, sent, turn, answer, minted);
    }
  }

  // What every call keeps, whatever the clock, the provider and the checks do: one deadline,
  // taken when it started; at most three tries, each after the first ready; at most two capped
  // waits; and the outcome is the last answer's, given up only when the tries, the checks or
  // the time ran out.
  lemma CallKeeps(around: Surroundings, request: Request)
    ensures var ran := CallOf(around, request);
            && Kept(around, ran.acts)
            && (ran.outcome.Refused? <==> !request.modelNamed || !request.promptIsText || request.bytes > MAX_REQUEST_BYTES)
            && (if ran.outcome.Refused? then ran.acts == [] else EndsWell(ran, request.minted))
  {
    if request.modelNamed && request.promptIsText && request.bytes <= MAX_REQUEST_BYTES {
      TriesKeep(around, [], 0, request.minted, CallOf(around, request));
    }
  }

  /* ----- the one deadline ----- */

  lemma ReSendIsLetGo(around: Surroundings, acts: seq<Act>, i: nat)
    requires Kept(around, acts) && 1 < i < |acts| && acts[i].Send?
    ensures acts[i - 2].Look? && acts[i - 1].Look? && acts[i - 2].left >= MIN_RESEND_SECONDS
    ensures acts[i].given == 0.0 || acts[i].given == acts[i - 1].left
  {
    assert Proper(acts, i, around.checks);
    assert acts[..i - 1][i - 2] == acts[i - 2];
  }

  lemma BeginsAfter(around: Surroundings, acts: seq<Act>, i: nat)
    requires Kept(around, acts) && 1 <= i < |acts|
    ensures acts[i].at == Over(acts[i - 1]) + around.pause(i)
    ensures acts[i - 1].Look? ==> acts[i - 1].left == Deadline(around) - acts[i - 1].at
  {
    assert PacedAt(around, acts, i) && PacedAt(around, acts, i - 1);
  }

  // A try is sent again only on a look that found half of the one deadline left. Between that
  // look and the start of the try nothing is done but one more look, so it starts no later
  // than half the deadline after the call did and what passes before those two acts; and it
  // is given what is then left of the deadline, never more.
  lemma ReSendsAreLetGoInTime(around: Surroundings, request: Request, acts: seq<Act>, i: nat)
    requires acts == CallOf(around, request).acts && 1 < i < |acts| && acts[i].Send?
    ensures var half := Deadline(around) - MIN_RESEND_SECONDS;
            && acts[i - 2].Look? && acts[i - 1].Look?
            && acts[i - 2].at <= half
            && acts[i].at <= half + around.pause(i - 1) + around.pause(i)
            && (acts[i].given == 0.0 || acts[i - 1].at + acts[i].given == Deadline(around))
  {
    CallKeeps(around, request);
    ReSendIsLetGo(around, acts, i);
    BeginsAfter(around, acts, i);
    BeginsAfter(around, acts, i - 1);
  }

  // It follows a rate limit that could be read, after the wait that asked for: what it stated,
  // between none and the cap, or the default.
  lemma ReSendsFollowARateLimit(around: Surroundings, request: Request, acts: seq<Act>, i: nat) returns (from: nat)
    requires acts == CallOf(around, request).acts && 1 < i < |acts| && acts[i].Send?
    ensures from + 2 < i && acts[from].Send? && acts[from + 1].Look? && acts[from + 2].Wait?
    ensures acts[from].answer.Failed? && acts[from].answer.error.status == Read(Whole(429))
    ensures var asked := acts[from].answer.error.retryAfter;
            && asked.Read?
            && (asked.value == Default ==> acts[from + 2].seconds == 2.0)
            && (asked.value.Seconds? && 0.0 <= asked.value.seconds <= 20.0 ==> acts[from + 2].seconds == asked.value.seconds)
  {
    CallKeeps(around, request);
    assert Proper(acts, i, around.checks);
    var before := acts[..i - 1];
    from := |before| - around.checks - 4;
    assert before[from] == acts[from] && before[from + 1] == acts[from + 1] && before[from + 2] == acts[from + 2];
  }

  // Surroundings without a pause but before the fifth act and the sixth: a rate limit that
  // states no wait is answered at once, and the look that lets it go finds exactly half the
  // deadline left.
  const LIMITED := Failed(VendorError(Read(Whole(RATE_LIMITED)), Read(Default), Read(Whole(RATE_LIMITED))))

  function Late(delay: Pause): Surroundings {
    Surroundings(0.0, 0,
      n => if n == 4 then MIN_RESEND_SECONDS - RETRY_AFTER_SECONDS else if n == 5 then delay else 0.0,
      n => 0.0, n => if n == 1 then LIMITED else Answer.Nothing, n => true)
  }

  ghost predicate IsLate(around: Surroundings, delay: Pause) {
    && around.started == 0.0 && around.checks == 0
    && around.pause(0) == around.pause(1) == around.pause(2) == around.pause(3) == around.pause(6) == 0.0
    && around.pause(4) == MIN_RESEND_SECONDS - RETRY_AFTER_SECONDS && around.pause(5) == delay
    && around.took(1) == 0.0 && around.answer(1) == LIMITED && around.answer(6) == Answer.Nothing
  }

  lemma DueNext(around: Surroundings, acts: seq<Act>, seconds: real)
    ensures Due(around, Looked(around, acts)) == Due(around, acts) + around.pause(|acts| + 1)
    ensures Due(around, Rested(around, acts, seconds)) == Due(around, acts) + seconds + around.pause(|acts| + 1)
  {
  }

  lemma DueTried(around: Surroundings, acts: seq<Act>)
    ensures var all := Tried(around, acts);
            && |all| == |acts| + 2 && all[|acts| + 1].Send? && all[|acts| + 1].at == Due(around, Looked(around, acts))
            && Due(around, all) == Due(around, Looked(around, acts)) + around.took(|acts| + 1) + around.pause(|acts| + 2)
  {
  }

  lemma WaitsOutIs(around: Surroundings, acts: seq<Act>, error: VendorError, sent: nat)
    requires MayResend(error, sent) && WaitOf(error.retryAfter.value) + MIN_RESEND_SECONDS <= LeftAt(around, acts)
    ensures WaitsOut(around, acts, error, sent)
            == Waiting(Rested(around, Looked(around, acts), WaitOf(error.retryAfter.value)), true)
  {
  }

  lemma GoesAgainIs(around: Surroundings, acts: seq<Act>, error: VendorError, sent: nat, rested: seq<Act>)
    requires WaitsOut(around, acts, error, sent) == Waiting(rested, true) && around.checks == 0
    requires LeftAt(around, rested) >= MIN_RESEND_SECONDS
    ensures GoesAgain(around, acts, error, sent) == Going(Looked(around, rested), Again)
  {
  }

  // What the late call does up to the look that lets the second try go.
  function Readied(around: Surroundings): seq<Act> {
    Looked(around, Rested(around, Looked(around, Tried(around, [])), RETRY_AFTER_SECONDS))
  }

  // The second act is over as the call starts, and the wait begins then.
  lemma DueAfterFirst(around: Surroundings)
    ensures |Tried(around, [])| == 2
    ensures Due(around, Tried(around, []))
            == around.started + around.pause(0) + around.pause(1) + around.took(1) + around.pause(2)
  {
    DueNext(around, [], 0.0);
    DueTried(around, []);
  }

  lemma LateIsLimited(around: Surroundings, limited: seq<Act>, due: real)
    requires around.pause(0) == 0.0 && around.pause(1) == 0.0 && around.pause(2) == 0.0 && around.pause(3) == 0.0
    requires |limited| == 2 && around.took(1) == 0.0 && Due(around, limited) == due
    requires due == around.started + around.pause(0) + around.pause(1) + around.took(1) + around.pause(2)
    ensures Due(around, limited) == around.started && Due(around, Looked(around, limited)) == around.started
  {
    DueNext(around, limited, 0.0);
  }

  lemma LateHasRested(around: Surroundings, delay: Pause, looked: seq<Act>, rested: seq<Act>)
    requires IsLate(around, delay) && |looked| == 3 && Due(around, looked) == around.started
    requires rested == Rested(around, looked, RETRY_AFTER_SECONDS)
    ensures Due(around, rested) == Deadline(around) - MIN_RESEND_SECONDS
    ensures Due(around, Looked(around, rested)) == Deadline(around) - MIN_RESEND_SECONDS + delay
  {
    DueNext(around, looked, RETRY_AFTER_SECONDS);
    DueNext(around, rested, 0.0);
  }

  lemma LateIsReady(around: Surroundings, delay: Pause)
    requires IsLate(around, delay)
    ensures GoesAgain(around, Tried(around, []), LIMITED.error, 1) == Going(Readied(around), Again)
    ensures |Readied(around)| == 5 && Due(around, Readied(around)) == Deadline(around) - MIN_RESEND_SECONDS + delay
  {
    var limited := Tried(around, []);
    DueAfterFirst(around);
    LateIsLimited(around, limited, Due(around, limited));
    WaitsOutIs(around, limited, LIMITED.error, 1);
    var rested := Rested(around, Looked(around, limited), RETRY_AFTER_SECONDS);
    LateHasRested(around, delay, Looked(around, limited), rested);
    GoesAgainIs(around, limited, LIMITED.error, 1, rested);
  }

  lemma TwoTurns(around: Surroundings, minted: string, ready: seq<Act>)
    requires around.answer(1) == LIMITED && |ready| == 5 && around.answer(6) == Answer.Nothing
    requires GoesAgain(around, Tried(around, []), LIMITED.error, 1) == Going(ready, Again)
    ensures TriesFrom(around, [], 0, minted).acts == Tried(around, ready)
  {
    assert Turn(around, [], 1) == Going(ready, Again);
    assert Turn(around, ready, 2) == Going(Tried(around, ready), Ends);
    assert TriesFrom(around, ready, 1, minted).acts == Tried(around, ready);
  }

  // That bound is met for every delay: the clock is read once more when a try is given its
  // time, and what that reading finds is not compared again.
  lemma AReSendMayStartLate(delay: Pause, request: Request)
    requires request.modelNamed && request.promptIsText && request.bytes <= MAX_REQUEST_BYTES
    ensures var around := Late(delay);
            var acts := CallOf(around, request).acts;
            && |acts| == 7 && acts[6].Send? && around.pause(5) + around.pause(6) == delay
            && acts[6].at == Deadline(around) - MIN_RESEND_SECONDS + delay
  {
    var around := Late(delay);
    assert IsLate(around, delay);
    LateIsReady(around, delay);
    TwoTurns(around, request.minted, Readied(around));
    DueNext(around, Readied(around), 0.0);
    DueTried(around, Readied(around));
  }

  lemma AllowedByALook(around: Surroundings, acts: seq<Act>, i: nat)
    requires Kept(around, acts) && i < |acts|
    ensures acts[i].Wait? || acts[i].Send? ==> i >= 1 && acts[i - 1].Look?
    ensures acts[i].Wait? ==> acts[i].seconds + MIN_RESEND_SECONDS <= acts[i - 1].left
    ensures acts[i].Send? && acts[i - 1].left >= 0.0 ==> acts[i].given == acts[i - 1].left
  {
    assert Proper(acts, i, around.checks);
  }

  // A call whose tries each give way within the time they are given has no try and no wait
  // going on after the deadline, but for what passes between the look that allows it and its
  // start.
  lemma TheDeadlineBoundsTheCall(around: Surroundings, request: Request, acts: seq<Act>, i: nat)
    requires acts == CallOf(around, request).acts && i < |acts|
    requires forall j :: 0 <= j < |acts| && acts[j].Send? ==> acts[j].took <= acts[j].given
    ensures acts[i].Wait? || acts[i].Send? ==> i >= 1 && acts[i - 1].Look?
    ensures acts[i].Wait? || (acts[i].Send? && acts[i - 1].left >= 0.0) ==> Over(acts[i]) <= Deadline(around) + around.pause(i)
  {
    CallKeeps(around, request);
    AllowedByALook(around, acts, i);
    if i >= 1 {
      BeginsAfter(around, acts, i);
    }
  }
}
