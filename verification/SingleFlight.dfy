// Requests for cold tokens sharing one lookup per digest, under every interleaving of their
// steps: a process of arrivals, cache reads, a bounded wait list, flights and lookups.
module SingleFlight {
  import opened Wrappers
  import opened IdentityCache

  const SCIM_WAITING_LIMIT: nat := 16

  // How a lookup ends: an actor, a refusal, or something that is neither.
  datatype Outcome = Found(actor: Actor) | Refused(code: Code) | Broke

  // One lookup finished: whose digest, how, and when.
  datatype Lookup = Lookup(key: string, outcome: Outcome, at: real)

  // A flight: the digest it is for, the request that opened it, and what it was settled with.
  datatype Flight = Flight(key: string, leader: nat, settled: Option<nat>)

  datatype Answer = Told(result: Result<Actor, Code>) | Fault

  datatype How = FromCache(at: real) | TurnedAway | Led(flight: nat) | Shared(flight: nat) | GaveUp(flight: nat)

  // Where a request has got to.
  datatype Pc =
    | Arrived | Cold | Waiting
    | Leading(flight: nat) | Looked(flight: nat, lookup: nat)
    | Sharing(flight: nat)
    | Ended(answer: Answer, how: How)

  datatype Request = Request(key: string, pc: Pc)

  datatype State = State(
    now: real, caches: Caches, inflight: map<string, nat>, waiting: nat,
    flights: seq<Flight>, lookups: seq<Lookup>, requests: seq<Request>)

  const START := State(0.0, Caches(map[], map[]), map[], 0, [], [], [])

  datatype Step =
    | Tick(seconds: real)
    | Arrive(key: string)
    | Recall(r: nat)
    | Admit(r: nat)
    | Join(r: nat)
    | LookUp(r: nat, outcome: Outcome)
    | Settle(r: nat)
    | Wake(r: nat)
    | GiveUp(r: nat)

  /* ----- what a flight tells ----- */

  // What the request that made the lookup answers.
  function LeaderAnswer(outcome: Outcome): Answer {
    match outcome
    case Found(actor) => Told(Ok(actor))
    case Refused(code) => Told(Err(code))
    case Broke => Fault
  }

  // What a request sharing it answers: the actor found, else the code of the refusal, else
  // that the workspace is unavailable -- as it is while nothing is settled.
  function SharedAnswer(flight: Flight, lookups: seq<Lookup>): Answer
    requires flight.settled.Some? ==> flight.settled.value < |lookups|
  {
    if flight.settled.None? then Told(Err(IdentityUnavailable))
    else
      match lookups[flight.settled.value].outcome
      case Found(actor) => Told(Ok(actor))
      case Refused(code) => Told(Err(code))
      case Broke => Told(Err(IdentityUnavailable))
  }

  /* ----- steps ----- */

  function At(s: State, r: nat): Pc
  {
    if r < |s.requests| then s.requests[r].pc else Ended(Fault, TurnedAway)
  }

  function Put(s: State, r: nat, pc: Pc): State
    requires r < |s.requests|
  {
    s.(requests := s.requests[r := s.requests[r].(pc := pc)])
  }

  // The request leaves the wait list with an answer.
  function Leave(s: State, r: nat, answer: Answer, how: How): State
    requires r < |s.requests|
  {
    Put(s, r, Ended(answer, how)).(waiting := if s.waiting > 0 then s.waiting - 1 else 0)
  }

  function Remembered(caches: Caches, key: string, outcome: Outcome, now: real): Caches {
    match outcome
    case Found(actor) => Remembering(caches, key, actor, now)
    case Refused(code) => if code.NotAuthenticated? then Denying(caches, key, now) else caches
    case Broke => caches
  }

  // One step; a step that is not possible where its request stands changes nothing.
  function Apply(s: State, step: Step): State {
    match step
    case Tick(seconds) => if seconds > 0.0 then s.(now := s.now + seconds) else s
    case Arrive(key) => s.(requests := s.requests + [Request(key, Arrived)])
    case Recall(r) =>
      if !At(s, r).Arrived? then s
      else
        var known := Recalled(s.caches, s.requests[r].key, s.now);
        if known.Some? then Put(s, r, Ended(Told(known.value), FromCache(s.now))) else Put(s, r, Cold)
    case Admit(r) =>
      if !At(s, r).Cold? then s
      else if s.waiting >= SCIM_WAITING_LIMIT then Put(s, r, Ended(Told(Err(IdentityUnavailable)), TurnedAway))
      else Put(s, r, Waiting).(waiting := s.waiting + 1)
    case Join(r) =>
      if !At(s, r).Waiting? then s
      else
        var key := s.requests[r].key;
        if key in s.inflight then Put(s, r, Sharing(s.inflight[key]))
        else
          var f := |s.flights|;
          Put(s, r, Leading(f)).(inflight := s.inflight[key := f], flights := s.flights + [Flight(key, r, None)])
    case LookUp(r, outcome) =>
      if !At(s, r).Leading? then s
      else
        var key := s.requests[r].key;
        Put(s, r, Looked(s.requests[r].pc.flight, |s.lookups|)).(
          lookups := s.lookups + [Lookup(key, outcome, s.now)],
          caches := Remembered(s.caches, key, outcome, s.now))
    case Settle(r) =>
      if !At(s, r).Looked? then s
      else
        var key, f, l := s.requests[r].key, s.requests[r].pc.flight, s.requests[r].pc.lookup;
        if f >= |s.flights| || l >= |s.lookups| then s
        else
          var gone := if key in s.inflight && s.inflight[key] == f then s.inflight - {key} else s.inflight;
          Leave(s, r, LeaderAnswer(s.lookups[l].outcome), Led(f)).(
            inflight := gone, flights := s.flights[f := s.flights[f].(settled := Some(l))])
    case Wake(r) =>
      if !At(s, r).Sharing? || s.requests[r].pc.flight >= |s.flights| then s
      else
        var f := s.requests[r].pc.flight;
        if s.flights[f].settled.None? || s.flights[f].settled.value >= |s.lookups| then s
        else Leave(s, r, SharedAnswer(s.flights[f], s.lookups), Shared(f))
    case GiveUp(r) =>
      if !At(s, r).Sharing? || s.requests[r].pc.flight >= |s.flights| then s
      else
        var f := s.requests[r].pc.flight;
        if s.flights[f].settled.Some? && s.flights[f].settled.value >= |s.lookups| then s
        else Leave(s, r, SharedAnswer(s.flights[f], s.lookups), GaveUp(f))
  }

  function Steps(s: State, steps: seq<Step>): State {
    if steps == [] then s else Apply(Steps(s, steps[..|steps| - 1]), steps[|steps| - 1])
  }

  /* ----- what every run keeps ----- */

  predicate Holds(pc: Pc) { pc.Waiting? || pc.Leading? || pc.Looked? || pc.Sharing? }

  predicate Leads(pc: Pc) { pc.Leading? || pc.Looked? }

  function Holders(s: State): set<nat> { set r | 0 <= r < |s.requests| && Holds(s.requests[r].pc) }

  // The wait list counts exactly the requests on it.
  predicate ListHolds(s: State) { s.waiting == |Holders(s)| && s.waiting <= SCIM_WAITING_LIMIT }

  // A flight open for a digest is for it, is not settled, and its leader is leading it.
  predicate OpenFlight(s: State, key: string)
    requires key in s.inflight
  {
    var f := s.inflight[key];
    f < |s.flights| &&
    var flight := s.flights[f];
    && flight.key == key && flight.settled.None?
    && flight.leader < |s.requests| && s.requests[flight.leader].key == key
    && Leads(s.requests[flight.leader].pc) && s.requests[flight.leader].pc.flight == f
  }

  predicate FlightHolds(s: State, f: nat)
    requires f < |s.flights|
  {
    var flight := s.flights[f];
    flight.settled.Some? ==>
      flight.settled.value < |s.lookups| && s.lookups[flight.settled.value].key == flight.key
  }

  // A lookup of that digest found that actor, and the entry is its.
  ghost predicate KnownFrom(lookups: seq<Lookup>, key: string, entry: Entry, now: real) {
    exists l :: 0 <= l < |lookups| && lookups[l].key == key && lookups[l].outcome == Found(entry.actor)
      && lookups[l].at <= now && entry.until == lookups[l].at + CACHE_SECONDS
  }

  ghost predicate DeniedFrom(lookups: seq<Lookup>, key: string, until: real, now: real) {
    exists l :: 0 <= l < |lookups| && lookups[l].key == key && lookups[l].outcome == Refused(NotAuthenticated)
      && lookups[l].at <= now && until == lookups[l].at + NEGATIVE_SECONDS
  }

  // Served at a moment within the cache's time of a lookup that had finished by then.
  ghost predicate ServedFresh(lookups: seq<Lookup>, key: string, actor: Actor, at: real) {
    exists l :: 0 <= l < |lookups| && lookups[l].key == key && lookups[l].outcome == Found(actor)
      && lookups[l].at <= at < lookups[l].at + CACHE_SECONDS
  }

  ghost predicate RefusedFresh(lookups: seq<Lookup>, key: string, at: real) {
    exists l :: 0 <= l < |lookups| && lookups[l].key == key && lookups[l].outcome == Refused(NotAuthenticated)
      && lookups[l].at <= at < lookups[l].at + NEGATIVE_SECONDS
  }

  ghost predicate CachesHold(s: State) {
    && Bounded(s.caches)
    && (forall key :: key in s.caches.known ==> KnownFrom(s.lookups, key, s.caches.known[key], s.now))
    && (forall key :: key in s.caches.denied ==> DeniedFrom(s.lookups, key, s.caches.denied[key], s.now))
  }

  ghost predicate EndHolds(flights: seq<Flight>, lookups: seq<Lookup>, key: string, answer: Answer, how: How) {
    match how
    case FromCache(at) =>
      answer.Told? && (if answer.result.Ok? then ServedFresh(lookups, key, answer.result.value, at)
                       else answer.result.error.NotAuthenticated? && RefusedFresh(lookups, key, at))
    case TurnedAway => answer == Told(Err(IdentityUnavailable))
    case Led(f) =>
      && f < |flights| && flights[f].key == key && flights[f].settled.Some? && flights[f].settled.value < |lookups|
      && answer == LeaderAnswer(lookups[flights[f].settled.value].outcome)
    case Shared(f) =>
      && f < |flights| && flights[f].key == key && flights[f].settled.Some? && flights[f].settled.value < |lookups|
      && answer == SharedAnswer(flights[f], lookups)
    case GaveUp(f) =>
      && f < |flights| && flights[f].key == key
      && (answer == Told(Err(IdentityUnavailable))
          || (flights[f].settled.Some? && flights[f].settled.value < |lookups| && answer == SharedAnswer(flights[f], lookups)))
  }

  ghost predicate RequestHolds(s: State, r: nat)
    requires r < |s.requests|
  {
    var key, pc := s.requests[r].key, s.requests[r].pc;
    match pc
    case Arrived => true
    case Cold => true
    case Waiting => true
    case Leading(f) => f < |s.flights| && s.flights[f].leader == r && key in s.inflight && s.inflight[key] == f
    case Looked(f, l) =>
      && f < |s.flights| && s.flights[f].leader == r && key in s.inflight && s.inflight[key] == f
      && l < |s.lookups| && s.lookups[l].key == key
    case Sharing(f) => f < |s.flights| && s.flights[f].key == key
    case Ended(answer, how) => EndHolds(s.flights, s.lookups, key, answer, how)
  }

  ghost predicate Sound(s: State) {
    && ListHolds(s)
    && CachesHold(s)
    && (forall key :: key in s.inflight ==> OpenFlight(s, key))
    && (forall f :: 0 <= f < |s.flights| ==> FlightHolds(s, f))
    && (forall r :: 0 <= r < |s.requests| ==> RequestHolds(s, r))
  }

  /* ----- growing ----- */

  // Lookups and flights are only added, and a flight is settled at most once.
  predicate Grown(flights: seq<Flight>, lookups: seq<Lookup>, flights': seq<Flight>, lookups': seq<Lookup>) {
    && lookups <= lookups' && |flights| <= |flights'|
    && forall f :: 0 <= f < |flights| ==>
         && flights'[f].key == flights[f].key && flights'[f].leader == flights[f].leader
         && (flights[f].settled.Some? ==> flights'[f].settled == flights[f].settled)
  }

  lemma FromGrows(lookups: seq<Lookup>, lookups': seq<Lookup>, now: real, now': real)
    requires lookups <= lookups' && now <= now'
    ensures forall key, entry :: KnownFrom(lookups, key, entry, now) ==> KnownFrom(lookups', key, entry, now')
    ensures forall key, until :: DeniedFrom(lookups, key, until, now) ==> DeniedFrom(lookups', key, until, now')
    ensures forall key, actor, at :: ServedFresh(lookups, key, actor, at) ==> ServedFresh(lookups', key, actor, at)
    ensures forall key, at :: RefusedFresh(lookups, key, at) ==> RefusedFresh(lookups', key, at)
  {
    assert forall l :: 0 <= l < |lookups| ==> lookups'[l] == lookups[l];
  }

  lemma EndGrows(flights: seq<Flight>, lookups: seq<Lookup>, flights': seq<Flight>, lookups': seq<Lookup>,
                 key: string, answer: Answer, how: How)
    requires Grown(flights, lookups, flights', lookups') && EndHolds(flights, lookups, key, answer, how)
    ensures EndHolds(flights', lookups', key, answer, how)
  {
    FromGrows(lookups, lookups', 0.0, 0.0);
  }

  /* ----- counting ----- */

  lemma PutCounts(s: State, r: nat, pc: Pc)
    requires r < |s.requests|
    ensures Holders(Put(s, r, pc)) == if Holds(pc) then Holders(s) + {r} else Holders(s) - {r}
  {
  }

  lemma ListKeeps(s: State, r: nat, pc: Pc, s': State)
    requires ListHolds(s) && r < |s.requests| && s'.requests == Put(s, r, pc).requests
    requires s'.waiting == s.waiting + (if Holds(pc) then 1 else 0) - (if Holds(s.requests[r].pc) then 1 else 0)
    requires s'.waiting <= SCIM_WAITING_LIMIT
    ensures ListHolds(s')
  {
    PutCounts(s, r, pc);
    assert Holders(s') == Holders(Put(s, r, pc));
    if Holds(s.requests[r].pc) {
      assert r in Holders(s);
    }
  }

  // A request on the list means the list counts at least one.
  lemma OnTheList(s: State, r: nat)
    requires ListHolds(s) && r < |s.requests| && Holds(s.requests[r].pc)
    ensures s.waiting > 0
  {
    assert r in Holders(s);
  }

  /* ----- one step ----- */

  // One request moved, without a flight opened, led or settled.
  lemma MoveKeeps(s: State, r: nat, pc: Pc, s': State)
    requires Sound(s) && r < |s.requests| && !Leads(pc) && !Leads(s.requests[r].pc)
    requires s' == Put(s, r, pc).(waiting := s'.waiting)
    requires s'.waiting == s.waiting + (if Holds(pc) then 1 else 0) - (if Holds(s.requests[r].pc) then 1 else 0)
    requires s'.waiting <= SCIM_WAITING_LIMIT
    requires RequestHolds(s', r)
    ensures Sound(s')
  {
    ListKeeps(s, r, pc, s');
    forall key | key in s'.inflight
      ensures OpenFlight(s', key)
    {
      assert OpenFlight(s, key);
    }
    forall f | 0 <= f < |s'.flights|
      ensures FlightHolds(s', f)
    {
      assert FlightHolds(s, f);
    }
    forall q | 0 <= q < |s'.requests|
      ensures RequestHolds(s', q)
    {
      if q != r {
        assert RequestHolds(s, q);
      }
    }
  }

  lemma TickKeeps(s: State, seconds: real)
    requires Sound(s)
    ensures Sound(Apply(s, Tick(seconds)))
  {
    var s' := Apply(s, Tick(seconds));
    FromGrows(s.lookups, s.lookups, s.now, s'.now);
    assert Holders(s') == Holders(s);
    forall key | key in s'.inflight
      ensures OpenFlight(s', key)
    {
      assert OpenFlight(s, key);
    }
    forall r | 0 <= r < |s'.requests|
      ensures RequestHolds(s', r)
    {
      assert RequestHolds(s, r);
    }
    forall f | 0 <= f < |s'.flights|
      ensures FlightHolds(s', f)
    {
      assert FlightHolds(s, f);
    }
  }

  lemma ArriveKeeps(s: State, key: string)
    requires Sound(s)
    ensures Sound(Apply(s, Arrive(key)))
  {
    var s' := Apply(s, Arrive(key));
    assert Holders(s') == Holders(s);
    forall k | k in s'.inflight
      ensures OpenFlight(s', k)
    {
      assert OpenFlight(s, k);
    }
    forall r | 0 <= r < |s'.requests|
      ensures RequestHolds(s', r)
    {
      if r < |s.requests| {
        assert RequestHolds(s, r);
      }
    }
    forall f | 0 <= f < |s'.flights|
      ensures FlightHolds(s', f)
    {
      assert FlightHolds(s, f);
    }
  }

  lemma RecalledIsFresh(s: State, key: string)
    requires CachesHold(s) && Recalled(s.caches, key, s.now).Some?
    ensures EndHolds(s.flights, s.lookups, key, Told(Recalled(s.caches, key, s.now).value), FromCache(s.now))
  {
    var known := Recalled(s.caches, key, s.now).value;
    if known.Ok? {
      assert KnownFrom(s.lookups, key, s.caches.known[key], s.now);
    } else {
      assert DeniedFrom(s.lookups, key, s.caches.denied[key], s.now);
    }
  }

  lemma RecallKeeps(s: State, r: nat)
    requires Sound(s)
    ensures Sound(Apply(s, Recall(r)))
  {
    if At(s, r).Arrived? {
      var key := s.requests[r].key;
      var s' := Apply(s, Recall(r));
      if Recalled(s.caches, key, s.now).Some? {
        RecalledIsFresh(s, key);
        MoveKeeps(s, r, Ended(Told(Recalled(s.caches, key, s.now).value), FromCache(s.now)), s');
      } else {
        MoveKeeps(s, r, Cold, s');
      }
    }
  }

  lemma AdmitKeeps(s: State, r: nat)
    requires Sound(s)
    ensures Sound(Apply(s, Admit(r)))
  {
    if At(s, r).Cold? {
      var s' := Apply(s, Admit(r));
      if s.waiting >= SCIM_WAITING_LIMIT {
        MoveKeeps(s, r, Ended(Told(Err(IdentityUnavailable)), TurnedAway), s');
      } else {
        MoveKeeps(s, r, Waiting, s');
      }
    }
  }

  // A request not moved still holds, its flight still open if it leads one.
  lemma OtherHolds(s: State, s': State, q: nat)
    requires q < |s.requests| && q < |s'.requests| && s'.requests[q] == s.requests[q] && RequestHolds(s, q)
    requires Grown(s.flights, s.lookups, s'.flights, s'.lookups)
    requires Leads(s.requests[q].pc) && s.requests[q].key in s.inflight ==>
               s.requests[q].key in s'.inflight && s'.inflight[s.requests[q].key] == s.inflight[s.requests[q].key]
    ensures RequestHolds(s', q)
  {
    if s.requests[q].pc.Ended? {
      EndGrows(s.flights, s.lookups, s'.flights, s'.lookups, s.requests[q].key, s.requests[q].pc.answer, s.requests[q].pc.how);
    }
  }

  lemma KnownKeep(s: State, key: string, actor: Actor)
    requires CachesHold(s)
    ensures var all := s.lookups + [Lookup(key, Found(actor), s.now)];
            var caches := Remembering(s.caches, key, actor, s.now);
            && (forall k :: k in caches.known ==> KnownFrom(all, k, caches.known[k], s.now))
            && (forall k :: k in caches.denied ==> DeniedFrom(all, k, caches.denied[k], s.now))
  {
    var all := s.lookups + [Lookup(key, Found(actor), s.now)];
    var caches := Remembering(s.caches, key, actor, s.now);
    FromGrows(s.lookups, all, s.now, s.now);
    assert all[|s.lookups|] == Lookup(key, Found(actor), s.now);
    forall k | k in caches.known
      ensures KnownFrom(all, k, caches.known[k], s.now)
    {
      if k in s.caches.known && caches.known[k] == s.caches.known[k] {
        assert KnownFrom(s.lookups, k, s.caches.known[k], s.now);
      }
    }
  }

  lemma DeniedKeep(s: State, key: string)
    requires CachesHold(s)
    ensures var all := s.lookups + [Lookup(key, Refused(NotAuthenticated), s.now)];
            var caches := Denying(s.caches, key, s.now);
            && (forall k :: k in caches.known ==> KnownFrom(all, k, caches.known[k], s.now))
            && (forall k :: k in caches.denied ==> DeniedFrom(all, k, caches.denied[k], s.now))
  {
    var all := s.lookups + [Lookup(key, Refused(NotAuthenticated), s.now)];
    var caches := Denying(s.caches, key, s.now);
    FromGrows(s.lookups, all, s.now, s.now);
    assert all[|s.lookups|] == Lookup(key, Refused(NotAuthenticated), s.now);
    forall k | k in caches.denied
      ensures DeniedFrom(all, k, caches.denied[k], s.now)
    {
      if k in s.caches.denied && caches.denied[k] == s.caches.denied[k] {
        assert DeniedFrom(s.lookups, k, s.caches.denied[k], s.now);
      }
    }
  }

  // The state a finished lookup leaves, its request apart.
  function LookedUp(s: State, key: string, outcome: Outcome): State {
    s.(lookups := s.lookups + [Lookup(key, outcome, s.now)], caches := Remembered(s.caches, key, outcome, s.now))
  }

  lemma CachesKeep(s: State, key: string, outcome: Outcome)
    requires CachesHold(s)
    ensures CachesHold(LookedUp(s, key, outcome))
  {
    FromGrows(s.lookups, LookedUp(s, key, outcome).lookups, s.now, s.now);
    match outcome
    case Found(actor) =>
      WritesStayBounded(s.caches, key, actor, s.now);
      KnownKeep(s, key, actor);
    case Refused(code) =>
      WritesStayBounded(s.caches, key, Actor("", ""), s.now);
      DeniedKeep(s, key);
    case Broke =>
  }

  lemma LookedFlights(s: State, r: nat, outcome: Outcome)
    requires Sound(s) && At(s, r).Leading?
    ensures var s' := Apply(s, LookUp(r, outcome));
            && (forall k :: k in s'.inflight ==> OpenFlight(s', k))
            && (forall g :: 0 <= g < |s'.flights| ==> FlightHolds(s', g))
  {
    var s' := Apply(s, LookUp(r, outcome));
    assert RequestHolds(s, r);
    forall k | k in s'.inflight
      ensures OpenFlight(s', k)
    {
      assert OpenFlight(s, k);
    }
    forall g | 0 <= g < |s'.flights|
      ensures FlightHolds(s', g)
    {
      assert FlightHolds(s, g);
    }
  }

  lemma LookedRequests(s: State, r: nat, outcome: Outcome)
    requires Sound(s) && At(s, r).Leading?
    ensures var s' := Apply(s, LookUp(r, outcome));
            forall q :: 0 <= q < |s'.requests| ==> RequestHolds(s', q)
  {
    var s' := Apply(s, LookUp(r, outcome));
    assert RequestHolds(s, r);
    forall q | 0 <= q < |s'.requests|
      ensures RequestHolds(s', q)
    {
      if q != r {
        OtherHolds(s, s', q);
      }
    }
  }

  lemma LookUpKeeps(s: State, r: nat, outcome: Outcome)
    requires Sound(s)
    ensures Sound(Apply(s, LookUp(r, outcome)))
  {
    if At(s, r).Leading? {
      var s' := Apply(s, LookUp(r, outcome));
      LookedFlights(s, r, outcome);
      LookedRequests(s, r, outcome);
      ListKeeps(s, r, Looked(s.requests[r].pc.flight, |s.lookups|), s');
      CachesKeep(s, s.requests[r].key, outcome);
      SameCaches(LookedUp(s, s.requests[r].key, outcome), s');
    }
  }

  lemma SameCaches(a: State, b: State)
    requires CachesHold(a) && b.caches == a.caches && b.lookups == a.lookups && b.now == a.now
    ensures CachesHold(b)
  {
  }

  lemma OpenedFlights(s: State, r: nat)
    requires Sound(s) && At(s, r).Waiting? && s.requests[r].key !in s.inflight
    ensures var s' := Apply(s, Join(r));
            && (forall k :: k in s'.inflight ==> OpenFlight(s', k))
            && (forall g :: 0 <= g < |s'.flights| ==> FlightHolds(s', g))
  {
    var s' := Apply(s, Join(r));
    forall k | k in s'.inflight
      ensures OpenFlight(s', k)
    {
      if k != s.requests[r].key {
        assert OpenFlight(s, k);
      }
    }
    forall g | 0 <= g < |s'.flights|
      ensures FlightHolds(s', g)
    {
      if g < |s.flights| {
        assert FlightHolds(s, g);
      }
    }
  }

  lemma OpenedRequests(s: State, r: nat)
    requires Sound(s) && At(s, r).Waiting? && s.requests[r].key !in s.inflight
    ensures var s' := Apply(s, Join(r));
            forall q :: 0 <= q < |s'.requests| ==> RequestHolds(s', q)
  {
    var s' := Apply(s, Join(r));
    forall q | 0 <= q < |s'.requests|
      ensures RequestHolds(s', q)
    {
      if q != r {
        OtherHolds(s, s', q);
      }
    }
  }

  lemma OpenKeeps(s: State, r: nat)
    requires Sound(s) && At(s, r).Waiting? && s.requests[r].key !in s.inflight
    ensures Sound(Apply(s, Join(r)))
  {
    var s' := Apply(s, Join(r));
    OpenedFlights(s, r);
    OpenedRequests(s, r);
    ListKeeps(s, r, Leading(|s.flights|), s');
    SameCaches(s, s');
  }

  lemma JoinKeeps(s: State, r: nat)
    requires Sound(s)
    ensures Sound(Apply(s, Join(r)))
  {
    if At(s, r).Waiting? {
      var key := s.requests[r].key;
      var s' := Apply(s, Join(r));
      if key in s.inflight {
        assert OpenFlight(s, key);
        MoveKeeps(s, r, Sharing(s.inflight[key]), s');
      } else {
        OpenKeeps(s, r);
      }
    }
  }

  // A request ready to settle: its flight is the one open for its digest, and it leads it.
  lemma ReadyToSettle(s: State, r: nat)
    requires Sound(s) && At(s, r).Looked?
    ensures var key, f, l := s.requests[r].key, s.requests[r].pc.flight, s.requests[r].pc.lookup;
            && f < |s.flights| && l < |s.lookups| && key in s.inflight && s.inflight[key] == f
            && s.flights[f] == Flight(key, r, None) && s.lookups[l].key == key && s.waiting > 0
  {
    assert RequestHolds(s, r);
    assert OpenFlight(s, s.requests[r].key);
    OnTheList(s, r);
  }

  lemma SettledFlights(s: State, r: nat)
    requires Sound(s) && At(s, r).Looked?
    ensures var s' := Apply(s, Settle(r));
            && (forall k :: k in s'.inflight ==> OpenFlight(s', k))
            && (forall g :: 0 <= g < |s'.flights| ==> FlightHolds(s', g))
  {
    ReadyToSettle(s, r);
    var s' := Apply(s, Settle(r));
    forall k | k in s'.inflight
      ensures OpenFlight(s', k)
    {
      assert OpenFlight(s, k);
    }
    forall g | 0 <= g < |s'.flights|
      ensures FlightHolds(s', g)
    {
      assert FlightHolds(s, g);
    }
  }

  lemma SettledRequests(s: State, r: nat)
    requires Sound(s) && At(s, r).Looked?
    ensures var s' := Apply(s, Settle(r));
            forall q :: 0 <= q < |s'.requests| ==> RequestHolds(s', q)
  {
    ReadyToSettle(s, r);
    var s' := Apply(s, Settle(r));
    forall q | 0 <= q < |s'.requests|
      ensures RequestHolds(s', q)
    {
      if q != r {
        assert RequestHolds(s, q);
        if Leads(s.requests[q].pc) {
          assert s.requests[q].key != s.requests[r].key;
        }
        OtherHolds(s, s', q);
      }
    }
  }

  lemma SettleKeeps(s: State, r: nat)
    requires Sound(s)
    ensures Sound(Apply(s, Settle(r)))
  {
    if At(s, r).Looked? {
      ReadyToSettle(s, r);
      var s' := Apply(s, Settle(r));
      var f, l := s.requests[r].pc.flight, s.requests[r].pc.lookup;
      ListKeeps(s, r, Ended(LeaderAnswer(s.lookups[l].outcome), Led(f)), s');
      SettledFlights(s, r);
      SettledRequests(s, r);
    }
  }

  lemma LeaveKeeps(s: State, r: nat, how: How)
    requires Sound(s) && At(s, r).Sharing?
    requires how == GaveUp(s.requests[r].pc.flight)
             || (how == Shared(s.requests[r].pc.flight)
                 && how.flight < |s.flights| && s.flights[how.flight].settled.Some?)
    ensures var f := s.requests[r].pc.flight;
            && f < |s.flights| && FlightHolds(s, f)
            && Sound(Leave(s, r, SharedAnswer(s.flights[f], s.lookups), how))
  {
    assert RequestHolds(s, r);
    var f := s.requests[r].pc.flight;
    assert FlightHolds(s, f);
    OnTheList(s, r);
    var answer := SharedAnswer(s.flights[f], s.lookups);
    MoveKeeps(s, r, Ended(answer, how), Leave(s, r, answer, how));
  }

  lemma StepKeeps(s: State, step: Step)
    requires Sound(s)
    ensures Sound(Apply(s, step))
  {
    match step
    case Tick(seconds) => TickKeeps(s, seconds);
    case Arrive(key) => ArriveKeeps(s, key);
    case Recall(r) => RecallKeeps(s, r);
    case Admit(r) => AdmitKeeps(s, r);
    case Join(r) => JoinKeeps(s, r);
    case LookUp(r, outcome) => LookUpKeeps(s, r, outcome);
    case Settle(r) => SettleKeeps(s, r);
    case Wake(r) =>
      if At(s, r).Sharing? && s.requests[r].pc.flight < |s.flights| && s.flights[s.requests[r].pc.flight].settled.Some? {
        LeaveKeeps(s, r, Shared(s.requests[r].pc.flight));
      }
    case GiveUp(r) =>
      if At(s, r).Sharing? {
        LeaveKeeps(s, r, GaveUp(s.requests[r].pc.flight));
      }
  }

  lemma {:induction false} EveryRunIsSound(steps: seq<Step>)
    ensures Sound(Steps(START, steps))
    decreases |steps|
  {
    if steps != [] {
      EveryRunIsSound(steps[..|steps| - 1]);
      StepKeeps(Steps(START, steps[..|steps| - 1]), steps[|steps| - 1]);
    } else {
      assert Holders(START) == {};
    }
  }

  /* ----- the promises ----- */

  // At most one lookup is outstanding per digest, and every open flight has exactly one leader.
  lemma OneLookupPerDigest(steps: seq<Step>, a: nat, b: nat)
    ensures var s := Steps(START, steps);
            && (a < |s.requests| && b < |s.requests| && Leads(s.requests[a].pc) && Leads(s.requests[b].pc) ==>
                  (s.requests[a].key == s.requests[b].key || s.requests[a].pc.flight == s.requests[b].pc.flight ==> a == b))
            && (forall key :: key in s.inflight ==> OpenFlight(s, key))
  {
    EveryRunIsSound(steps);
    var s := Steps(START, steps);
    if a < |s.requests| && b < |s.requests| {
      assert RequestHolds(s, a) && RequestHolds(s, b);
    }
  }

  function LeaderOf(s: State, key: string): nat
    requires key in s.inflight && s.inflight[key] < |s.flights|
  {
    s.flights[s.inflight[key]].leader
  }

  // Flights are led by distinct requests on the list, so there are no more of them.
  lemma {:induction false} FlightsAreHeld(s: State, keys: set<string>, holders: set<nat>)
    requires Sound(s) && keys <= s.inflight.Keys
    requires forall key :: key in keys ==> s.inflight[key] < |s.flights| && LeaderOf(s, key) in holders
    ensures |keys| <= |holders|
    decreases |keys|
  {
    if keys != {} {
      var key :| key in keys;
      var leader := LeaderOf(s, key);
      forall other | other in keys - {key}
        ensures LeaderOf(s, other) in holders - {leader}
      {
        assert OpenFlight(s, key) && OpenFlight(s, other);
      }
      FlightsAreHeld(s, keys - {key}, holders - {leader});
    }
  }

  // No more than so many requests wait, no more flights are open than that, and both caches
  // stay within their capacity.
  lemma EverythingIsBounded(steps: seq<Step>)
    ensures var s := Steps(START, steps);
            && s.waiting == |Holders(s)| <= SCIM_WAITING_LIMIT
            && |s.inflight| <= s.waiting
            && |s.caches.known| <= CACHE_CAPACITY && |s.caches.denied| <= CACHE_CAPACITY
  {
    EveryRunIsSound(steps);
    var s := Steps(START, steps);
    forall key | key in s.inflight
      ensures s.inflight[key] < |s.flights| && LeaderOf(s, key) in Holders(s)
    {
      assert OpenFlight(s, key);
    }
    FlightsAreHeld(s, s.inflight.Keys, Holders(s));
    assert |s.inflight| == |s.inflight.Keys|;
  }

  /* ----- what each step does ----- */

  lemma OneMoreStep(steps: seq<Step>, step: Step)
    ensures Steps(START, steps + [step]) == Apply(Steps(START, steps), step)
  {
    assert (steps + [step])[..|steps|] == steps;
  }

  // A cold request on the list leads a flight of its own exactly when its digest has none open,
  // and shares the one that is; a leader looks up once, and its cache keeps what it finds.
  lemma AskersLeadOrShare(steps: seq<Step>, r: nat, outcome: Outcome)
    requires r < |Steps(START, steps).requests|
    ensures var s := Steps(START, steps);
            var key := s.requests[r].key;
            && (At(s, r) == Arrived ==>
                  At(Apply(s, Recall(r)), r) == match Recalled(s.caches, key, s.now)
                                                case None => Cold
                                                case Some(known) => Ended(Told(known), FromCache(s.now)))
            && (At(s, r) == Waiting ==>
                  At(Apply(s, Join(r)), r)
                  == if key in s.inflight then Sharing(s.inflight[key]) else Leading(|s.flights|))
            && (At(s, r).Leading? ==>
                  var s' := Apply(s, LookUp(r, outcome));
                  && At(s', r) == Looked(At(s, r).flight, |s.lookups|)
                  && s'.lookups == s.lookups + [Lookup(key, outcome, s.now)]
                  && s'.caches == match outcome
                                  case Found(actor) => Remembering(s.caches, key, actor, s.now)
                                  case Refused(code) =>
                                    if code == NotAuthenticated then Denying(s.caches, key, s.now) else s.caches
                                  case Broke => s.caches)
  {
  }

  // A finished lookup settles its flight, closes it and answers its leader.
  lemma FlightsAreSettled(steps: seq<Step>, r: nat)
    requires r < |Steps(START, steps).requests| && At(Steps(START, steps), r).Looked?
    ensures var s := Steps(START, steps);
            var s', f, l := Apply(s, Settle(r)), At(s, r).flight, At(s, r).lookup;
            && f < |s.flights| && l < |s.lookups|
            && At(s', r) == Ended(LeaderAnswer(s.lookups[l].outcome), Led(f))
            && s'.flights[f].settled == Some(l) && s'.inflight == s.inflight - {s.requests[r].key}
  {
    EveryRunIsSound(steps);
    ReadyToSettle(Steps(START, steps), r);
  }

  lemma SharedFlight(steps: seq<Step>, r: nat)
    requires r < |Steps(START, steps).requests| && At(Steps(START, steps), r).Sharing?
    ensures var s := Steps(START, steps);
            At(s, r).flight < |s.flights| && FlightHolds(s, At(s, r).flight)
  {
    EveryRunIsSound(steps);
    var s := Steps(START, steps);
    assert RequestHolds(s, r);
    assert FlightHolds(s, At(s, r).flight);
  }

  lemma SharerIsAnswered(s: State, r: nat, f: nat)
    requires r < |s.requests| && At(s, r) == Sharing(f) && f < |s.flights| && FlightHolds(s, f)
    ensures At(Apply(s, GiveUp(r)), r) == Ended(SharedAnswer(s.flights[f], s.lookups), GaveUp(f))
    ensures s.flights[f].settled.Some? ==>
              At(Apply(s, Wake(r)), r) == Ended(SharedAnswer(s.flights[f], s.lookups), Shared(f))
  {
  }

  // Whoever shares it can then be answered with it, and may give up at any time before.
  lemma SharersAreAnswered(steps: seq<Step>, r: nat)
    requires r < |Steps(START, steps).requests| && At(Steps(START, steps), r).Sharing?
    ensures var s := Steps(START, steps);
            var f := At(s, r).flight;
            && f < |s.flights| && FlightHolds(s, f)
            && At(Apply(s, GiveUp(r)), r) == Ended(SharedAnswer(s.flights[f], s.lookups), GaveUp(f))
            && (s.flights[f].settled.Some? ==>
                  At(Apply(s, Wake(r)), r) == Ended(SharedAnswer(s.flights[f], s.lookups), Shared(f)))
  {
    SharedFlight(steps, r);
    SharerIsAnswered(Steps(START, steps), r, At(Steps(START, steps), r).flight);
  }

  // So no request is ever stuck: wherever it stands, some step of its own takes it on, and time
  // and arrivals go on beside it.
  lemma NoRequestIsStuck(steps: seq<Step>, r: nat)
    requires r < |Steps(START, steps).requests| && !Steps(START, steps).requests[r].pc.Ended?
    ensures var s := Steps(START, steps);
            exists step :: r < |Apply(s, step).requests| && Apply(s, step).requests[r].pc != s.requests[r].pc
  {
    var s := Steps(START, steps);
    AskersLeadOrShare(steps, r, Broke);
    match s.requests[r].pc
    case Arrived => MovesOn(s, Recall(r), r);
    case Cold => MovesOn(s, Admit(r), r);
    case Waiting => MovesOn(s, Join(r), r);
    case Leading(_) => MovesOn(s, LookUp(r, Broke), r);
    case Looked(_, _) =>
      FlightsAreSettled(steps, r);
      MovesOn(s, Settle(r), r);
    case Sharing(_) =>
      SharersAreAnswered(steps, r);
      MovesOn(s, GiveUp(r), r);
  }

  lemma MovesOn(s: State, step: Step, r: nat)
    requires r < |s.requests| && At(Apply(s, step), r) != At(s, r)
    ensures |Apply(s, step).requests| >= |s.requests|
    ensures Apply(s, step).requests[r].pc != s.requests[r].pc
  {
  }

  lemma ClockAndArrivals(steps: seq<Step>, seconds: real, key: string)
    requires seconds > 0.0
    ensures var s := Steps(START, steps);
            && Steps(START, steps + [Tick(seconds)]).now == s.now + seconds
            && Steps(START, steps + [Arrive(key)]).requests == s.requests + [Request(key, Arrived)]
  {
    OneMoreStep(steps, Tick(seconds));
    OneMoreStep(steps, Arrive(key));
  }

  // A request is turned away exactly when so many already wait as may, and joins them otherwise.
  lemma TurnedAwayAtTheLimit(steps: seq<Step>, r: nat)
    requires r < |Steps(START, steps).requests| && At(Steps(START, steps), r).Cold?
    ensures var s := Steps(START, steps);
            var s' := Apply(s, Admit(r));
            && (At(s', r) == Ended(Told(Err(IdentityUnavailable)), TurnedAway) <==> |Holders(s)| == SCIM_WAITING_LIMIT)
            && (At(s', r) == Waiting <==> |Holders(s)| < SCIM_WAITING_LIMIT)
  {
    EveryRunIsSound(steps);
  }

  // An actor served from the cache was found by a lookup of that digest that had finished, less
  // than the cache's time before.
  lemma CachedActorsAreFresh(steps: seq<Step>, r: nat)
    ensures var s := Steps(START, steps);
            r < |s.requests| && s.requests[r].pc.Ended? && s.requests[r].pc.how.FromCache? ==>
              var answer, at := s.requests[r].pc.answer, s.requests[r].pc.how.at;
              && answer.Told?
              && (if answer.result.Ok? then ServedFresh(s.lookups, s.requests[r].key, answer.result.value, at)
                  else answer.result.error.NotAuthenticated? && RefusedFresh(s.lookups, s.requests[r].key, at))
  {
    EveryRunIsSound(steps);
    var s := Steps(START, steps);
    if r < |s.requests| {
      assert RequestHolds(s, r);
    }
  }

  // A request that waited a flight out was told what its leader was, or, when the leader met no
  // actor and no refusal, that the workspace is unavailable; one that gave up waiting was told
  // the same, or that it is unavailable.
  lemma SharersAreToldTheSame(steps: seq<Step>, a: nat, b: nat)
    ensures var s := Steps(START, steps);
            a < |s.requests| && b < |s.requests| && s.requests[a].pc.Ended? && s.requests[b].pc.Ended?
            && s.requests[a].pc.how.Led? ==>
              var f, told, answer := s.requests[a].pc.how.flight, s.requests[a].pc.answer, s.requests[b].pc.answer;
              var same := if told.Told? then told else Told(Err(IdentityUnavailable));
              && (s.requests[b].pc.how == Shared(f) ==> s.requests[b].key == s.requests[a].key && answer == same)
              && (s.requests[b].pc.how == GaveUp(f) ==>
                    s.requests[b].key == s.requests[a].key && (answer == same || answer == Told(Err(IdentityUnavailable))))
  {
    EveryRunIsSound(steps);
    var s := Steps(START, steps);
    if a < |s.requests| && b < |s.requests| {
      assert RequestHolds(s, a) && RequestHolds(s, b);
    }
  }
}
