// The tail slots: a counter of open tails under a global cap, a share of it per actor, and
// slots given back exactly once however many of their release sites run.
module StreamSlots {
  import opened Wrappers

  type Actor = nat

  const STREAM_LIMIT: nat := 24
  const ACTOR_STREAM_LIMIT: nat := 4

  /* ----- the slots as a value ----- */

  // A slot handed out: to whom, and whether it is still held.
  datatype Token = Token(actor: Option<Actor>, live: bool)

  // The counters, and every slot ever handed out.
  datatype Pool = Pool(open: int, held: map<Actor, int>, tokens: seq<Token>)

  function HeldBy(held: map<Actor, int>, actor: Actor): int {
    if actor in held then held[actor] else 0
  }

  // The pool after one take, or `None` for `STREAM_LIMIT_REACHED`.
  function Take(p: Pool, limit: nat, actor: Option<Actor>, actorLimit: nat): Option<Pool> {
    if p.open >= limit then None
    else if actor.Some? && HeldBy(p.held, actor.value) >= actorLimit then None
    else Some(Pool(
      p.open + 1,
      if actor.Some? then p.held[actor.value := HeldBy(p.held, actor.value) + 1] else p.held,
      p.tokens + [Token(actor, true)]))
  }

  function GiveBack(p: Pool, i: nat): Pool
    requires i < |p.tokens|
  {
    var token := p.tokens[i];
    if !token.live then p
    else
      var held :=
        if token.actor.None? then p.held
        else
          var remaining := HeldBy(p.held, token.actor.value) - 1;
          if remaining > 0 then p.held[token.actor.value := remaining]
          else p.held - {token.actor.value};
      Pool(p.open - 1, held, p.tokens[i := token.(live := false)])
  }

  function Live(tokens: seq<Token>): nat {
    if tokens == [] then 0 else Live(tokens[..|tokens| - 1]) + if tokens[|tokens| - 1].live then 1 else 0
  }

  function LiveOf(tokens: seq<Token>, actor: Actor): nat {
    if tokens == [] then 0
    else LiveOf(tokens[..|tokens| - 1], actor) + if tokens[|tokens| - 1] == Token(Some(actor), true) then 1 else 0
  }

  // The counters tell the truth: `open` is the slots held, and an actor has an entry
  // exactly while it holds one, stating how many.
  ghost predicate Balanced(p: Pool) {
    && p.open == Live(p.tokens)
    && (forall actor: Actor :: actor in p.held <==> LiveOf(p.tokens, actor) > 0)
    && (forall actor: Actor :: actor in p.held ==> p.held[actor] == LiveOf(p.tokens, actor))
  }

  ghost predicate WithinCaps(p: Pool, limit: nat, actorLimit: nat) {
    && Live(p.tokens) <= limit
    && forall actor: Actor :: LiveOf(p.tokens, actor) <= actorLimit
  }

  lemma TakenTokens(tokens: seq<Token>, token: Token)
    ensures Live(tokens + [token]) == Live(tokens) + if token.live then 1 else 0
    ensures forall actor: Actor :: LiveOf(tokens + [token], actor)
                            == LiveOf(tokens, actor) + if token == Token(Some(actor), true) then 1 else 0
  {
    assert (tokens + [token])[..|tokens|] == tokens;
  }

  lemma {:induction false} ReleasedToken(tokens: seq<Token>, i: nat)
    requires i < |tokens| && tokens[i].live
    ensures Live(tokens[i := tokens[i].(live := false)]) == Live(tokens) - 1
    ensures forall actor: Actor :: LiveOf(tokens[i := tokens[i].(live := false)], actor)
                            == LiveOf(tokens, actor) - if tokens[i].actor == Some(actor) then 1 else 0
  {
    var after, last := tokens[i := tokens[i].(live := false)], |tokens| - 1;
    if i == last {
      assert after[..last] == tokens[..last];
    } else {
      assert after[..last] == tokens[..last][i := tokens[i].(live := false)];
      ReleasedToken(tokens[..last], i);
    }
  }

  // A take keeps the counters true, refuses exactly at a cap, and hands out one held slot.
  lemma TakeKeeps(p: Pool, limit: nat, actor: Option<Actor>, actorLimit: nat)
    requires Balanced(p)
    ensures var after := Take(p, limit, actor, actorLimit);
            && (after.None? <==> Live(p.tokens) >= limit
                                 || (actor.Some? && LiveOf(p.tokens, actor.value) >= actorLimit))
            && (after.Some? ==> Balanced(after.value) && Live(after.value.tokens) == Live(p.tokens) + 1)
  {
    TakenTokens(p.tokens, Token(actor, true));
  }

  lemma ReleaseKeeps(p: Pool, i: nat)
    requires Balanced(p) && i < |p.tokens|
    ensures var after := GiveBack(p, i);
            && Balanced(after)
            && |after.tokens| == |p.tokens| && !after.tokens[i].live
            && Live(after.tokens) == Live(p.tokens) - (if p.tokens[i].live then 1 else 0)
            && (forall actor: Actor :: LiveOf(after.tokens, actor) <= LiveOf(p.tokens, actor))
  {
    if p.tokens[i].live {
      ReleasedToken(p.tokens, i);
    }
  }

  // A second release, from whichever site, changes nothing.
  lemma ReleasedOnce(p: Pool, i: nat)
    requires i < |p.tokens|
    ensures GiveBack(GiveBack(p, i), i) == GiveBack(p, i)
  {
  }

  /* ----- any sequence of takes and releases ----- */

  datatype Use = Taken(actor: Option<Actor>) | Released(i: nat)

  function Used(p: Pool, use: Use, limit: nat, actorLimit: nat): Pool {
    match use
    case Taken(actor) =>
      var after := Take(p, limit, actor, actorLimit);
      if after.Some? then after.value else p
    case Released(i) => if i < |p.tokens| then GiveBack(p, i) else p
  }

  function AfterUses(uses: seq<Use>, limit: nat, actorLimit: nat): Pool {
    if uses == [] then Pool(0, map[], [])
    else Used(AfterUses(uses[..|uses| - 1], limit, actorLimit), uses[|uses| - 1], limit, actorLimit)
  }

  // Over any sequence of takes and releases, repeated releases included, the counters stay
  // true and within both caps.
  lemma {:induction false} AlwaysBalanced(uses: seq<Use>, limit: nat, actorLimit: nat)
    ensures var p := AfterUses(uses, limit, actorLimit);
            Balanced(p) && WithinCaps(p, limit, actorLimit)
    ensures var p := AfterUses(uses, limit, actorLimit); |p.held| <= p.open <= limit
  {
    if uses != [] {
      var p := AfterUses(uses[..|uses| - 1], limit, actorLimit);
      AlwaysBalanced(uses[..|uses| - 1], limit, actorLimit);
      match uses[|uses| - 1]
      case Taken(actor) =>
        TakeKeeps(p, limit, actor, actorLimit);
        TakenTokens(p.tokens, Token(actor, true));
      case Released(i) =>
        if i < |p.tokens| {
          ReleaseKeeps(p, i);
        }
    }
    var p := AfterUses(uses, limit, actorLimit);
    HoldersAreFew(p.tokens, p.held.Keys);
  }

  // One use more hands out one slot below both caps and none at either, or takes one back; and
  // touches no other.
  lemma EachUseCounts(uses: seq<Use>, use: Use, limit: nat, actorLimit: nat)
    ensures var before, after := AfterUses(uses, limit, actorLimit).tokens, AfterUses(uses + [use], limit, actorLimit).tokens;
            && (use.Taken? ==> after == Handed(before, use.actor, limit, actorLimit))
            && (use.Released? ==> after == Returned(before, use.i))
  {
    assert (uses + [use])[..|uses|] == uses;
    var p := AfterUses(uses, limit, actorLimit);
    AlwaysBalanced(uses, limit, actorLimit);
    if use.Taken? {
      TakeKeeps(p, limit, use.actor, actorLimit);
    } else if use.i < |p.tokens| && !p.tokens[use.i].live {
      assert p.tokens[use.i := p.tokens[use.i]] == p.tokens;
    }
  }

  // The slots with one more handed out, where both caps leave one.
  function Handed(tokens: seq<Token>, actor: Option<Actor>, limit: nat, actorLimit: nat): seq<Token> {
    if Live(tokens) < limit && (actor == None || LiveOf(tokens, actor.value) < actorLimit) then tokens + [Token(actor, true)]
    else tokens
  }

  function Returned(tokens: seq<Token>, i: nat): seq<Token> {
    if i < |tokens| then tokens[i := Token(tokens[i].actor, false)] else tokens
  }

  // Every holder holds at least one of the slots counted.
  lemma {:induction false} HoldersAreFew(tokens: seq<Token>, holders: set<Actor>)
    requires forall actor: Actor :: actor in holders ==> LiveOf(tokens, actor) > 0
    ensures |holders| <= Live(tokens)
  {
    if tokens == [] {
      assert forall actor: Actor :: LiveOf(tokens, actor) == 0;
      assert holders == {};
    } else {
      var last := tokens[|tokens| - 1];
      if last.live && last.actor.Some? {
        HoldersAreFew(tokens[..|tokens| - 1], holders - {last.actor.value});
        assert |holders| <= |holders - {last.actor.value}| + 1;
      } else {
        HoldersAreFew(tokens[..|tokens| - 1], holders);
      }
    }
  }

  /* ----- the slots as the server keeps them ----- */

  class Slots {
    var open: int
    var held: map<Actor, int>
    ghost var issued: seq<StreamSlot>
    ghost var tokens: seq<Token>

    ghost function State(): Pool
      reads this
    {
      Pool(open, held, tokens)
    }

    // Each slot handed out is the one its token records.
    ghost predicate Owns()
      reads this, issued
    {
      && |tokens| == |issued|
      && (forall i :: 0 <= i < |issued| ==>
            issued[i].slots == this && issued[i].i == i && tokens[i] == Token(issued[i].actor, issued[i].live))
    }

    ghost predicate Valid()
      reads this, issued
    {
      Owns() && Balanced(State())
    }

    constructor ()
      ensures Valid() && State() == Pool(0, map[], [])
    {
      open, held, issued, tokens := 0, map[], [], [];
    }

    // The counters moved for one slot more, unless either cap is reached.
    method Count(actor: Option<Actor>, limit: nat, actorLimit: nat) returns (counted: bool)
      modifies this`open, this`held
      ensures var after := Take(old(State()), limit, actor, actorLimit);
              && (counted <==> after.Some?)
              && (if counted then open == after.value.open && held == after.value.held
                  else open == old(open) && held == old(held))
    {
      if open >= limit {
        return false;
      }
      if actor.Some? && HeldBy(held, actor.value) >= actorLimit {
        return false;
      }
      open := open + 1;
      if actor.Some? {
        held := held[actor.value := HeldBy(held, actor.value) + 1];
      }
      counted := true;
    }

    // A slot handed out, and recorded.
    method HandOut(actor: Option<Actor>) returns (taken: StreamSlot)
      requires Owns()
      modifies this`issued, this`tokens
      ensures Owns() && fresh(taken)
      ensures issued == old(issued) + [taken] && tokens == old(tokens) + [Token(actor, true)]
    {
      taken := new StreamSlot(this, actor, |issued|);
      ghost var handed, before := issued, tokens;
      issued := handed + [taken];
      tokens := before + [Token(actor, true)];
      OwnsOneMore(handed, before, taken);
    }

    // Take one of the slots; `None` is the refusal `STREAM_LIMIT_REACHED`.
    method TakeStreamSlot(actor: Option<Actor>, limit: nat := STREAM_LIMIT, actorLimit: nat := ACTOR_STREAM_LIMIT)
      returns (slot: Option<StreamSlot>)
      requires Valid()
      modifies this
      ensures Valid()
      ensures var after := Take(old(State()), limit, actor, actorLimit);
              if after.None? then slot.None? && State() == old(State()) && issued == old(issued)
              else slot.Some? && fresh(slot.value) && State() == after.value
                   && issued == old(issued) + [slot.value]
    {
      TakeKeeps(State(), limit, actor, actorLimit);
      var counted := Count(actor, limit, actorLimit);
      if !counted {
        return None;
      }
      var taken := HandOut(actor);
      slot := Some(taken);
    }

    // The slots handed out are owned with one more.
    lemma OwnsOneMore(handed: seq<StreamSlot>, before: seq<Token>, taken: StreamSlot)
      requires |before| == |handed|
      requires forall i :: 0 <= i < |handed| ==>
                 handed[i].slots == this && handed[i].i == i && before[i] == Token(handed[i].actor, handed[i].live)
      requires taken.slots == this && taken.i == |handed| && taken.live
      requires issued == handed + [taken] && tokens == before + [Token(taken.actor, true)]
      ensures Owns()
    {
      forall i | 0 <= i < |issued|
        ensures issued[i].slots == this && issued[i].i == i && tokens[i] == Token(issued[i].actor, issued[i].live)
      {
        if i < |handed| {
          assert issued[i] == handed[i] && tokens[i] == before[i];
        }
      }
    }
  }

  class StreamSlot {
    const slots: Slots
    const actor: Option<Actor>
    ghost const i: nat
    var live: bool

    constructor (slots: Slots, actor: Option<Actor>, ghost i: nat)
      ensures this.slots == slots && this.actor == actor && this.i == i && live
    {
      this.slots, this.actor, this.i, live := slots, actor, i, true;
    }

    // Give the slot back. Called from the response, from the generator and from its
    // finalizer; only the first call counts.
    method Release()
      requires slots.Valid() && i < |slots.issued| && slots.issued[i] == this
      modifies this, slots
      ensures slots.Valid() && slots.issued == old(slots.issued)
      ensures slots.State() == GiveBack(old(slots.State()), i)
    {
      ReleaseKeeps(slots.State(), i);
      if !live {
        return;
      }
      slots.open := slots.open - 1;
      live := false;
      slots.tokens := slots.tokens[i := Token(actor, false)];
      if actor.None? {
        return;
      }
      var remaining := HeldBy(slots.held, actor.value) - 1;
      if remaining > 0 {
        slots.held := slots.held[actor.value := remaining];
      } else {
        slots.held := slots.held - {actor.value};
      }
    }
  }
}
