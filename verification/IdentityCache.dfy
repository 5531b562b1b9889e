// What one process remembers of the token digests the workspace has answered for: actors for
// a while, refusals for a moment, both bounded.
module IdentityCache {
  import opened Wrappers

  const CACHE_SECONDS := 300.0
  const NEGATIVE_SECONDS := 5.0
  const CACHE_CAPACITY: nat := 4096

  datatype Actor = Actor(subject: string, role: string)

  datatype Code = NotAuthenticated | IdentityUnavailable | Other(name: string)

  datatype Entry = Entry(actor: Actor, until: real)

  datatype Caches = Caches(known: map<string, Entry>, denied: map<string, real>)

  function LiveKnown(known: map<string, Entry>, now: real): map<string, Entry> {
    map key | key in known && known[key].until > now :: known[key]
  }

  function LiveDenied(denied: map<string, real>, now: real): map<string, real> {
    map key | key in denied && denied[key] > now :: denied[key]
  }

  // An actor remembered: stale entries of both caches go first, and nothing is added past
  // the capacity.
  function Remembering(caches: Caches, key: string, actor: Actor, now: real): Caches {
    var known := LiveKnown(caches.known, now);
    Caches(if |known| < CACHE_CAPACITY then known[key := Entry(actor, now + CACHE_SECONDS)] else known,
           LiveDenied(caches.denied, now))
  }

  function Denying(caches: Caches, key: string, now: real): Caches {
    var denied := LiveDenied(caches.denied, now);
    caches.(denied := if |denied| < CACHE_CAPACITY then denied[key := now + NEGATIVE_SECONDS] else denied)
  }

  // What is known of a digest without asking: an actor, a refusal, or nothing.
  function Recalled(caches: Caches, key: string, now: real): Option<Result<Actor, Code>> {
    if key in caches.known && caches.known[key].until > now then Some(Ok(caches.known[key].actor))
    else if key in caches.denied && caches.denied[key] > now then Some(Err(NotAuthenticated))
    else None
  }

  predicate Bounded(caches: Caches) {
    |caches.known| <= CACHE_CAPACITY && |caches.denied| <= CACHE_CAPACITY
  }

  lemma FewerKeys<T>(a: set<T>, b: set<T>)
    requires a <= b
    ensures |a| <= |b|
  {
    if a < b {
      assert |b| == |a| + |b - a| by {
        assert b == a + (b - a);
      }
    } else {
      assert a == b;
    }
  }

  lemma LiveIsFewer(caches: Caches, now: real)
    ensures |LiveKnown(caches.known, now)| <= |caches.known|
    ensures |LiveDenied(caches.denied, now)| <= |caches.denied|
  {
    FewerKeys(LiveKnown(caches.known, now).Keys, caches.known.Keys);
    FewerKeys(LiveDenied(caches.denied, now).Keys, caches.denied.Keys);
    assert |LiveKnown(caches.known, now)| == |LiveKnown(caches.known, now).Keys|;
    assert |LiveDenied(caches.denied, now)| == |LiveDenied(caches.denied, now).Keys|;
    assert |caches.known| == |caches.known.Keys| && |caches.denied| == |caches.denied.Keys|;
  }

  lemma AddOne<V>(m: map<string, V>, key: string, value: V)
    ensures |m[key := value]| <= |m| + 1
  {
    assert m[key := value].Keys == m.Keys + {key};
    assert |m[key := value]| == |m[key := value].Keys| && |m| == |m.Keys|;
  }

  lemma WritesStayBounded(caches: Caches, key: string, actor: Actor, now: real)
    requires Bounded(caches)
    ensures Bounded(Remembering(caches, key, actor, now)) && Bounded(Denying(caches, key, now))
  {
    LiveIsFewer(caches, now);
    AddOne(LiveKnown(caches.known, now), key, Entry(actor, now + CACHE_SECONDS));
    AddOne(LiveDenied(caches.denied, now), key, now + NEGATIVE_SECONDS);
  }

  // A digest is recalled as an actor exactly while an entry for it is live, and what was just
  // remembered is recalled so for the whole of its time, unless the cache was full.
  lemma RememberedIsRecalled(caches: Caches, key: string, actor: Actor, now: real, later: real)
    requires now <= later < now + CACHE_SECONDS && |LiveKnown(caches.known, now)| < CACHE_CAPACITY
    ensures Recalled(Remembering(caches, key, actor, now), key, later) == Some(Ok(actor))
  {
  }

  /* ----- what is recalled is what was written ----- */

  // The writes a process makes, in order.
  datatype Write = Knew(key: string, actor: Actor, at: real) | Barred(key: string, at: real)

  function Written(writes: seq<Write>): Caches {
    if writes == [] then Caches(map[], map[])
    else
      var before, last := Written(writes[..|writes| - 1]), writes[|writes| - 1];
      match last
      case Knew(key, actor, at) => Remembering(before, key, actor, at)
      case Barred(key, at) => Denying(before, key, at)
  }

  // A clock that never goes back.
  predicate Rising(writes: seq<Write>, now: real) {
    && (forall i :: 0 <= i < |writes| ==> writes[i].at <= now)
    && (forall i, j :: 0 <= i < j < |writes| ==> writes[i].at <= writes[j].at)
  }

  // A digest an actor was written for, or a refusal, and not too long ago.
  ghost predicate KnewLately(writes: seq<Write>, key: string, actor: Actor, now: real) {
    exists i :: 0 <= i < |writes| && writes[i].Knew? && writes[i].key == key && writes[i].actor == actor
                && now < writes[i].at + CACHE_SECONDS
  }

  ghost predicate BarredLately(writes: seq<Write>, key: string, now: real) {
    exists i :: 0 <= i < |writes| && writes[i].Barred? && writes[i].key == key && now < writes[i].at + NEGATIVE_SECONDS
  }

  lemma {:induction false} EntriesWereWritten(writes: seq<Write>, key: string, now: real)
    ensures var caches := Written(writes);
            && (key in caches.known && now < caches.known[key].until ==> KnewLately(writes, key, caches.known[key].actor, now))
            && (key in caches.denied && now < caches.denied[key] ==> BarredLately(writes, key, now))
  {
    if writes != [] {
      var before, last := writes[..|writes| - 1], writes[|writes| - 1];
      EntriesWereWritten(before, key, now);
      LatelyGrows(before, last, key, now);
      assert writes == before + [last] && writes[|before|] == last;
    }
  }

  lemma LatelyGrows(before: seq<Write>, last: Write, key: string, now: real)
    ensures forall actor :: KnewLately(before, key, actor, now) ==> KnewLately(before + [last], key, actor, now)
    ensures BarredLately(before, key, now) ==> BarredLately(before + [last], key, now)
  {
    assert forall i :: 0 <= i < |before| ==> (before + [last])[i] == before[i];
  }

  lemma {:induction false} RoomLeft(writes: seq<Write>)
    ensures |Written(writes).known| <= |writes|
  {
    if writes != [] {
      var before, last := Written(writes[..|writes| - 1]), writes[|writes| - 1];
      RoomLeft(writes[..|writes| - 1]);
      LiveIsFewer(before, last.at);
      if last.Knew? {
        AddOne(LiveKnown(before.known, last.at), last.key, Entry(last.actor, last.at + CACHE_SECONDS));
      }
    }
  }

  // While the writes are no more than the cache has room for, each lasts its whole time.
  lemma {:induction false} WritesLast(writes: seq<Write>, i: nat, now: real)
    requires i < |writes| <= CACHE_CAPACITY && Rising(writes, now)
    requires writes[i].Knew? && now < writes[i].at + CACHE_SECONDS
    ensures var known := Written(writes).known;
            writes[i].key in known && known[writes[i].key].until >= writes[i].at + CACHE_SECONDS
  {
    var before, last := writes[..|writes| - 1], writes[|writes| - 1];
    RoomLeft(before);
    LiveIsFewer(Written(before), last.at);
    if i < |before| {
      assert before[i] == writes[i];
      WritesLast(before, i, now);
    }
  }

  lemma {:induction false} DenialsLeft(writes: seq<Write>)
    ensures |Written(writes).denied| <= |writes|
  {
    if writes != [] {
      var before, last := Written(writes[..|writes| - 1]), writes[|writes| - 1];
      DenialsLeft(writes[..|writes| - 1]);
      LiveIsFewer(before, last.at);
      if last.Barred? {
        AddOne(LiveDenied(before.denied, last.at), last.key, last.at + NEGATIVE_SECONDS);
      }
    }
  }

  lemma {:induction false} DenialsLast(writes: seq<Write>, i: nat, now: real)
    requires i < |writes| <= CACHE_CAPACITY && Rising(writes, now)
    requires writes[i].Barred? && now < writes[i].at + NEGATIVE_SECONDS
    ensures var denied := Written(writes).denied;
            writes[i].key in denied && denied[writes[i].key] >= writes[i].at + NEGATIVE_SECONDS
  {
    var before, last := writes[..|writes| - 1], writes[|writes| - 1];
    DenialsLeft(before);
    LiveIsFewer(Written(before), last.at);
    if i < |before| {
      assert before[i] == writes[i];
      DenialsLast(before, i, now);
    }
  }

  // And a refusal written within its own time is, unless an actor is.
  lemma RefusalsAreTheHistory(writes: seq<Write>, key: string, now: real)
    requires Rising(writes, now) && |writes| <= CACHE_CAPACITY
    ensures Recalled(Written(writes), key, now) == Some(Err(NotAuthenticated)) <==>
              BarredLately(writes, key, now) && !exists actor :: KnewLately(writes, key, actor, now)
  {
    RecallIsTheHistory(writes, key, now);
    if BarredLately(writes, key, now) {
      var i :| 0 <= i < |writes| && writes[i].Barred? && writes[i].key == key && now < writes[i].at + NEGATIVE_SECONDS;
      DenialsLast(writes, i, now);
    }
  }

  // Whatever was written before, an actor is recalled only if it was written for that digest
  // within its time, and a refusal only if one was within its own and no actor was; and while
  // there was room for every write, an actor written within its time is always recalled.
  lemma RecallIsTheHistory(writes: seq<Write>, key: string, now: real)
    requires Rising(writes, now)
    ensures var recalled := Recalled(Written(writes), key, now);
            && (recalled.Some? && recalled.value.Ok? ==> KnewLately(writes, key, recalled.value.value, now))
            && (recalled.Some? && recalled.value.Err? ==> BarredLately(writes, key, now))
            && (|writes| <= CACHE_CAPACITY ==>
                  ((exists actor :: KnewLately(writes, key, actor, now)) <==> recalled.Some? && recalled.value.Ok?))
  {
    EntriesWereWritten(writes, key, now);
    if |writes| <= CACHE_CAPACITY {
      forall actor | KnewLately(writes, key, actor, now)
        ensures key in Written(writes).known && Written(writes).known[key].until > now
      {
        var i :| 0 <= i < |writes| && writes[i].Knew? && writes[i].key == key && writes[i].actor == actor
                 && now < writes[i].at + CACHE_SECONDS;
        WritesLast(writes, i, now);
      }
    }
  }

  // The caches a process holds, changed in place.
  class Memory {
    var known: map<string, Entry>
    var denied: map<string, real>

    constructor ()
      ensures Value() == Caches(map[], map[])
    {
      known := map[];
      denied := map[];
    }

    function Value(): Caches
      reads this
    {
      Caches(known, denied)
    }

    method Remembered(key: string, now: real) returns (found: Option<Result<Actor, Code>>)
      ensures found == Recalled(Value(), key, now)
    {
      if key in known && known[key].until > now {
        return Some(Ok(known[key].actor));
      }
      if key in denied && denied[key] > now {
        return Some(Err(NotAuthenticated));
      }
      found := None;
    }

    method DropStaleDenied(now: real)
      modifies this`denied
      ensures denied == LiveDenied(old(denied), now)
    {
      var stale := set key | key in denied && denied[key] <= now;
      while stale != {}
        invariant stale == set key | key in denied && denied[key] <= now
        invariant denied == map key | key in old(denied) && (old(denied)[key] > now || key in stale) :: old(denied)[key]
        decreases |stale|
      {
        var key :| key in stale;
        denied := denied - {key};
        stale := stale - {key};
      }
    }

    method DropStaleKnown(now: real)
      modifies this`known
      ensures known == LiveKnown(old(known), now)
    {
      var stale := set key | key in known && known[key].until <= now;
      while stale != {}
        invariant stale == set key | key in known && known[key].until <= now
        invariant known == map key | key in old(known) && (old(known)[key].until > now || key in stale) :: old(known)[key]
        decreases |stale|
      {
        var key :| key in stale;
        known := known - {key};
        stale := stale - {key};
      }
    }

    method Deny(key: string, now: real)
      modifies this
      ensures Value() == Denying(old(Value()), key, now)
    {
      DropStaleDenied(now);
      if |denied| < CACHE_CAPACITY {
        denied := denied[key := now + NEGATIVE_SECONDS];
      }
    }

    method Remember(key: string, actor: Actor, now: real)
      modifies this
      ensures Value() == Remembering(old(Value()), key, actor, now)
    {
      DropStaleKnown(now);
      DropStaleDenied(now);
      if |known| < CACHE_CAPACITY {
        known := known[key := Entry(actor, now + CACHE_SECONDS)];
      }
    }
  }
}
