// Signing, freezing and filing a saved revision: three acts under one case's lock, over the
// tables they leave behind, whose actors stay independent of one another.
module Filing {
  import opened Wrappers

  type Actor = nat
  type RevisionId = nat

  // A saved revision: immutable, with the digest of its payload and who saved it.
  datatype Revision = Revision(digest: string, savedBy: Actor)

  datatype Opinion = Opinion(revision: RevisionId, signer: Actor, digest: string)

  datatype Publication = Publication(frozenBy: Actor, digest: string, filedBy: Option<Actor>)

  datatype Tables = Tables(
    revisions: map<RevisionId, Revision>, opinions: seq<Opinion>, publications: map<RevisionId, Publication>)

  datatype Code =
    | DeliverableNotFound | ApproverNotIndependent | AlreadyFrozen | AlreadySigned
    | NotSigned | NotFrozen | MovedSinceSigning | AlreadyFiled | Unproven(code: string)

  // What re-proving a revision gives: a refusal, or its bytes' digest and whether they render.
  datatype Proof = Refused(code: string) | Proven(digest: string, renders: bool)

  datatype Receipt = Receipt(revision: RevisionId, digest: string, signedBy: Actor, frozenBy: Actor, filedBy: Actor)

  /* ----- what the tables say ----- */

  // The opinions on a revision, the latest first.
  function OpinionsOn(opinions: seq<Opinion>, revision: RevisionId): seq<Opinion> {
    if opinions == [] then []
    else
      var last := opinions[|opinions| - 1];
      (if last.revision == revision then [last] else []) + OpinionsOn(opinions[..|opinions| - 1], revision)
  }

  function SignersOf(opinions: seq<Opinion>, revision: RevisionId): set<Actor> {
    set i | 0 <= i < |opinions| && opinions[i].revision == revision :: opinions[i].signer
  }

  lemma {:induction false} OpinionsOnAre(opinions: seq<Opinion>, revision: RevisionId)
    ensures forall o :: o in OpinionsOn(opinions, revision) <==> o in opinions && o.revision == revision
  {
    if opinions != [] {
      var last := opinions[|opinions| - 1];
      OpinionsOnAre(opinions[..|opinions| - 1], revision);
      assert opinions == opinions[..|opinions| - 1] + [last];
    }
  }

  predicate AllBind(opinions: seq<Opinion>, revision: RevisionId, digest: string) {
    forall i :: 0 <= i < |opinions| && opinions[i].revision == revision ==> opinions[i].digest == digest
  }

  /* ----- the three acts ----- */

  function Signed(t: Tables, actor: Actor, revision: RevisionId): Result<string, Code> {
    if revision !in t.revisions then Err(DeliverableNotFound)
    else if actor == t.revisions[revision].savedBy then Err(ApproverNotIndependent)
    else if revision in t.publications then Err(AlreadyFrozen)
    else if actor in SignersOf(t.opinions, revision) then Err(AlreadySigned)
    else Ok(t.revisions[revision].digest)
  }

  function Frozen(t: Tables, actor: Actor, revision: RevisionId, proof: Proof): Result<string, Code> {
    if revision !in t.revisions then Err(DeliverableNotFound)
    else if revision in t.publications then Err(AlreadyFrozen)
    else if OpinionsOn(t.opinions, revision) == [] then Err(NotSigned)
    else if !AllBind(t.opinions, revision, t.revisions[revision].digest) then Err(MovedSinceSigning)
    else if actor in SignersOf(t.opinions, revision) then Err(ApproverNotIndependent)
    else if proof.Refused? then Err(Unproven(proof.code))
    else if proof.digest != t.revisions[revision].digest then Err(MovedSinceSigning)
    else if !proof.renders then Err(Unproven("render"))
    else Ok(t.revisions[revision].digest)
  }

  function Filed(t: Tables, actor: Actor, revision: RevisionId): Result<Receipt, Code> {
    if revision !in t.revisions then Err(DeliverableNotFound)
    else if revision !in t.publications then Err(NotFrozen)
    else
      var digest, publication := t.revisions[revision].digest, t.publications[revision];
      var signatures, signers := OpinionsOn(t.opinions, revision), SignersOf(t.opinions, revision);
      if publication.digest != digest then Err(MovedSinceSigning)
      else if signatures == [] || !AllBind(t.opinions, revision, digest) then Err(NotSigned)
      else if publication.frozenBy in signers || actor in signers + {publication.frozenBy} then Err(ApproverNotIndependent)
      else if publication.filedBy.Some? then Err(AlreadyFiled)
      else Ok(Receipt(revision, digest, signatures[0].signer, publication.frozenBy, actor))
  }

  datatype Act =
    | Save(revision: RevisionId, saved: Revision)
    | Sign(actor: Actor, revision: RevisionId)
    | Freeze(actor: Actor, revision: RevisionId, proof: Proof)
    | File(actor: Actor, revision: RevisionId)

  // The tables an act leaves: as they were when it is refused.
  function Apply(t: Tables, act: Act): Tables {
    match act
    case Save(revision, saved) => if revision in t.revisions then t else t.(revisions := t.revisions[revision := saved])
    case Sign(actor, revision) =>
      var signed := Signed(t, actor, revision);
      if signed.Err? then t else t.(opinions := t.opinions + [Opinion(revision, actor, signed.value)])
    case Freeze(actor, revision, proof) =>
      var frozen := Frozen(t, actor, revision, proof);
      if frozen.Err? then t
      else t.(publications := t.publications[revision := Publication(actor, frozen.value, None)])
    case File(actor, revision) =>
      if Filed(t, actor, revision).Err? then t
      else t.(publications := t.publications[revision := t.publications[revision].(filedBy := Some(actor))])
  }

  function Acts(t: Tables, acts: seq<Act>): Tables {
    if acts == [] then t else Apply(Acts(t, acts[..|acts| - 1]), acts[|acts| - 1])
  }

  const EMPTY := Tables(map[], [], map[])

  /* ----- what every run keeps ----- */

  // Every opinion binds its revision's digest, by someone other than its author, once each.
  ghost predicate OpinionsHold(t: Tables) {
    && (forall i :: 0 <= i < |t.opinions| ==>
          && t.opinions[i].revision in t.revisions
          && t.opinions[i].digest == t.revisions[t.opinions[i].revision].digest
          && t.opinions[i].signer != t.revisions[t.opinions[i].revision].savedBy)
    && (forall i, j :: 0 <= i < j < |t.opinions| && t.opinions[i].revision == t.opinions[j].revision ==>
          t.opinions[i].signer != t.opinions[j].signer)
  }

  // A revision's signers, freezer and filer are pairwise distinct, and there is a signer.
  ghost predicate Independent(t: Tables, revision: RevisionId)
    requires revision in t.publications
  {
    var signers, publication := SignersOf(t.opinions, revision), t.publications[revision];
    && revision in t.revisions && publication.digest == t.revisions[revision].digest
    && signers != {} && t.revisions[revision].savedBy !in signers
    && publication.frozenBy !in signers
    && (publication.filedBy.Some? ==>
          publication.filedBy.value !in signers && publication.filedBy.value != publication.frozenBy)
  }

  ghost predicate Holds(t: Tables) {
    OpinionsHold(t) && forall revision :: revision in t.publications ==> Independent(t, revision)
  }

  lemma SignersGrow(opinions: seq<Opinion>, more: Opinion, revision: RevisionId)
    ensures SignersOf(opinions + [more], revision)
            == SignersOf(opinions, revision) + (if more.revision == revision then {more.signer} else {})
  {
    var all := opinions + [more];
    assert all[|opinions|] == more && forall i :: 0 <= i < |opinions| ==> all[i] == opinions[i];
  }

  lemma SomeoneSigned(opinions: seq<Opinion>, revision: RevisionId)
    requires OpinionsOn(opinions, revision) != []
    ensures SignersOf(opinions, revision) != {}
  {
    OpinionsOnAre(opinions, revision);
    var o := OpinionsOn(opinions, revision)[0];
    assert o in OpinionsOn(opinions, revision);
    var i :| 0 <= i < |opinions| && opinions[i] == o;
    assert o.signer in SignersOf(opinions, revision);
  }

  lemma AuthorNeverSigned(t: Tables, revision: RevisionId)
    requires OpinionsHold(t) && revision in t.revisions
    ensures t.revisions[revision].savedBy !in SignersOf(t.opinions, revision)
  {
  }

  lemma SaveKeeps(t: Tables, revision: RevisionId, saved: Revision)
    requires Holds(t)
    ensures Holds(Apply(t, Save(revision, saved)))
  {
    var t' := Apply(t, Save(revision, saved));
    forall r | r in t'.publications
      ensures Independent(t', r)
    {
      assert Independent(t, r);
    }
  }

  lemma SignKeeps(t: Tables, actor: Actor, revision: RevisionId)
    requires Holds(t) && Signed(t, actor, revision).Ok?
    ensures Holds(Apply(t, Sign(actor, revision)))
  {
    var opinion := Opinion(revision, actor, t.revisions[revision].digest);
    var t' := t.(opinions := t.opinions + [opinion]);
    forall r | r in t'.publications
      ensures Independent(t', r)
    {
      assert Independent(t, r);
      SignersGrow(t.opinions, opinion, r);
    }
    forall i | 0 <= i < |t.opinions| && t.opinions[i].revision == revision
      ensures t.opinions[i].signer != actor
    {
      assert t.opinions[i].signer in SignersOf(t.opinions, revision);
    }
  }

  lemma FreezeKeeps(t: Tables, actor: Actor, revision: RevisionId, proof: Proof)
    requires Holds(t) && Frozen(t, actor, revision, proof).Ok?
    ensures Holds(Apply(t, Freeze(actor, revision, proof)))
  {
    var t' := Apply(t, Freeze(actor, revision, proof));
    SomeoneSigned(t.opinions, revision);
    AuthorNeverSigned(t, revision);
    forall r | r in t'.publications
      ensures Independent(t', r)
    {
      if r != revision {
        assert Independent(t, r);
      }
    }
  }

  lemma FileKeeps(t: Tables, actor: Actor, revision: RevisionId)
    requires Holds(t) && Filed(t, actor, revision).Ok?
    ensures Holds(Apply(t, File(actor, revision)))
  {
    var t' := Apply(t, File(actor, revision));
    forall r | r in t'.publications
      ensures Independent(t', r)
    {
      assert Independent(t, r);
    }
  }

  lemma ActKeeps(t: Tables, act: Act)
    requires Holds(t)
    ensures Holds(Apply(t, act))
  {
    match act
    case Save(revision, saved) => SaveKeeps(t, revision, saved);
    case Sign(actor, revision) =>
      if Signed(t, actor, revision).Ok? {
        SignKeeps(t, actor, revision);
      }
    case Freeze(actor, revision, proof) =>
      if Frozen(t, actor, revision, proof).Ok? {
        FreezeKeeps(t, actor, revision, proof);
      }
    case File(actor, revision) =>
      if Filed(t, actor, revision).Ok? {
        FileKeeps(t, actor, revision);
      }
  }

  lemma {:induction false} ActsKeep(acts: seq<Act>)
    ensures Holds(Acts(EMPTY, acts))
    decreases |acts|
  {
    if acts != [] {
      ActsKeep(acts[..|acts| - 1]);
      ActKeeps(Acts(EMPTY, acts[..|acts| - 1]), acts[|acts| - 1]);
    }
  }

  // Over every run, whatever is published was signed by someone other than its author, frozen
  // by no signer, and filed, if it is, by neither a signer nor its freezer.
  lemma ThreeIndependentActors(acts: seq<Act>, revision: RevisionId)
    ensures var t := Acts(EMPTY, acts); revision in t.publications ==> Independent(t, revision)
  {
    ActsKeep(acts);
  }

  // What stays of a published revision: its signatures, digest and freezer, and its filer once
  // it is filed.
  ghost predicate StaysPublished(t: Tables, t': Tables, revision: RevisionId) {
    && revision in t.publications && revision in t'.publications
    && OpinionsOn(t'.opinions, revision) == OpinionsOn(t.opinions, revision)
    && t'.publications[revision].frozenBy == t.publications[revision].frozenBy
    && t'.publications[revision].digest == t.publications[revision].digest
    && (t.publications[revision].filedBy.Some? ==>
          t'.publications[revision].filedBy == t.publications[revision].filedBy)
  }

  lemma PublishedStays(t: Tables, act: Act, revision: RevisionId)
    requires revision in t.publications && revision in t.revisions
    ensures StaysPublished(t, Apply(t, act), revision)
  {
    var t' := Apply(t, act);
    if act.Sign? && t' != t {
      assert t'.opinions[..|t'.opinions| - 1] == t.opinions;
      assert [] + OpinionsOn(t.opinions, revision) == OpinionsOn(t.opinions, revision);
    }
  }

  lemma OneMoreAct(t: Tables, acts: seq<Act>, act: Act)
    ensures Acts(t, acts + [act]) == Apply(Acts(t, acts), act)
  {
    assert (acts + [act])[..|acts|] == acts;
  }

  lemma StaysOn(t: Tables, mid: Tables, end: Tables, revision: RevisionId)
    requires StaysPublished(t, mid, revision) && StaysPublished(mid, end, revision)
    ensures StaysPublished(t, end, revision)
  {
  }

  // Signatures stop at the freeze, and a filing is final: whatever is done after, a published
  // revision keeps its signatures, its freezer and its filer.
  lemma {:induction false} SignaturesStopAtTheFreeze(before: seq<Act>, after: seq<Act>, revision: RevisionId)
    requires revision in Acts(EMPTY, before).publications
    ensures StaysPublished(Acts(EMPTY, before), Acts(EMPTY, before + after), revision)
    decreases |after|
  {
    if after == [] {
      assert before + after == before;
    } else {
      var init, act := after[..|after| - 1], after[|after| - 1];
      SignaturesStopAtTheFreeze(before, init, revision);
      ThreeIndependentActors(before + init, revision);
      OneMoreAct(EMPTY, before + init, act);
      assert before + after == (before + init) + [act];
      var mid := Acts(EMPTY, before + init);
      PublishedStays(mid, act, revision);
      StaysOn(Acts(EMPTY, before), mid, Apply(mid, act), revision);
    }
  }

  // A revision is signed exactly by someone who is not its author and has not signed it, while
  // it is saved and not yet published; and what is refused is refused for a reason that holds.
  lemma SignedExactly(t: Tables, actor: Actor, revision: RevisionId)
    ensures var signed := Signed(t, actor, revision);
            && (signed.Ok? <==>
                  && revision in t.revisions && revision !in t.publications && actor != t.revisions[revision].savedBy
                  && forall o :: o in t.opinions && o.revision == revision ==> o.signer != actor)
            && (signed.Ok? ==> signed.value == t.revisions[revision].digest)
            && (signed == Err(DeliverableNotFound) <==> revision !in t.revisions)
            && (signed == Err(ApproverNotIndependent) ==> actor == t.revisions[revision].savedBy)
            && (signed == Err(AlreadyFrozen) ==> revision in t.publications)
            && (signed == Err(AlreadySigned) ==> actor in SignersOf(t.opinions, revision))
  {
    OpinionsOnAre(t.opinions, revision);
    OpinionsAreSigned(t.opinions, revision);
  }

  // It is filed exactly once, when it is published under the digest it has, its signatures are
  // there and bind that digest, and neither its freezer nor its filer is one of its signers, nor
  // the filer its freezer.
  lemma FiledExactly(t: Tables, actor: Actor, revision: RevisionId)
    ensures Filed(t, actor, revision).Ok? <==>
              && revision in t.revisions && revision in t.publications
              && t.publications[revision].digest == t.revisions[revision].digest
              && (exists o :: o in t.opinions && o.revision == revision)
              && (forall o :: o in t.opinions && o.revision == revision ==>
                    && o.digest == t.revisions[revision].digest
                    && o.signer != actor && o.signer != t.publications[revision].frozenBy)
              && actor != t.publications[revision].frozenBy && t.publications[revision].filedBy == None
    ensures Filed(t, actor, revision) == Err(AlreadyFiled) ==>
              revision in t.publications && t.publications[revision].filedBy.Some?
    ensures Filed(t, actor, revision) == Err(NotFrozen) <==> revision in t.revisions && revision !in t.publications
    ensures Filed(t, actor, revision) == Err(DeliverableNotFound) <==> revision !in t.revisions
  {
    OpinionsOnAre(t.opinions, revision);
    if OpinionsOn(t.opinions, revision) != [] {
      assert OpinionsOn(t.opinions, revision)[0] in OpinionsOn(t.opinions, revision);
    }
    OpinionsAreSigned(t.opinions, revision);
  }

  // An act that is not refused leaves its own record, and no other.
  lemma ActsAreRecorded(t: Tables, actor: Actor, revision: RevisionId, saved: Revision, proof: Proof)
    ensures revision !in t.revisions ==>
              Apply(t, Save(revision, saved)) == Tables(t.revisions[revision := saved], t.opinions, t.publications)
    ensures revision in t.revisions ==> Apply(t, Save(revision, saved)) == t
    ensures Signed(t, actor, revision).Ok? ==>
              Apply(t, Sign(actor, revision))
              == Tables(t.revisions, t.opinions + [Opinion(revision, actor, t.revisions[revision].digest)], t.publications)
    ensures Frozen(t, actor, revision, proof).Ok? ==>
              Apply(t, Freeze(actor, revision, proof))
              == Tables(t.revisions, t.opinions, t.publications[revision := Publication(actor, t.revisions[revision].digest, None)])
    ensures Filed(t, actor, revision).Ok? ==>
              var p := t.publications[revision];
              Apply(t, File(actor, revision))
              == Tables(t.revisions, t.opinions, t.publications[revision := Publication(p.frozenBy, p.digest, Some(actor))])
  {
  }

  // A revision is frozen exactly when it is saved and not yet published, its signatures are there
  // and bind the digest it has, the freezer is none of its signers, and re-proving it gives that
  // same digest and renders.
  lemma FrozenExactly(t: Tables, actor: Actor, revision: RevisionId, proof: Proof)
    ensures Frozen(t, actor, revision, proof).Ok? <==>
              && revision in t.revisions && revision !in t.publications
              && (exists o :: o in t.opinions && o.revision == revision)
              && (forall o :: o in t.opinions && o.revision == revision ==>
                    o.digest == t.revisions[revision].digest && o.signer != actor)
              && proof == Proven(t.revisions[revision].digest, true)
  {
    OpinionsOnAre(t.opinions, revision);
    if OpinionsOn(t.opinions, revision) != [] {
      assert OpinionsOn(t.opinions, revision)[0] in OpinionsOn(t.opinions, revision);
    }
    OpinionsAreSigned(t.opinions, revision);
  }

  // Over every run, whatever is published was re-proved as it was frozen: its bytes' digest was
  // the one it is published under, and they rendered.
  ghost predicate FrozenFrom(acts: seq<Act>, revision: RevisionId, publication: Publication) {
    Freeze(publication.frozenBy, revision, Proven(publication.digest, true)) in acts
  }

  lemma {:induction false} PublishedWasProven(acts: seq<Act>, revision: RevisionId)
    ensures var t := Acts(EMPTY, acts);
            revision in t.publications ==> FrozenFrom(acts, revision, t.publications[revision])
    decreases |acts|
  {
    if acts != [] {
      var before, act := acts[..|acts| - 1], acts[|acts| - 1];
      PublishedWasProven(before, revision);
      assert acts == before + [act];
      if act.Freeze? {
        FrozenExactly(Acts(EMPTY, before), act.actor, act.revision, act.proof);
      }
    }
  }

  // A receipt is only ever written of independent actors, even over tables altered from outside.
  lemma ReceiptsNameIndependentActors(t: Tables, actor: Actor, revision: RevisionId)
    requires Filed(t, actor, revision).Ok?
    ensures var receipt, signers := Filed(t, actor, revision).value, SignersOf(t.opinions, revision);
            && receipt.filedBy == actor && receipt.digest == t.revisions[revision].digest
            && receipt.signedBy in signers && receipt.frozenBy !in signers && actor !in signers
            && actor != receipt.frozenBy
            && AllBind(t.opinions, revision, receipt.digest)
  {
    OpinionsOnAre(t.opinions, revision);
    var o := OpinionsOn(t.opinions, revision)[0];
    assert o in OpinionsOn(t.opinions, revision);
    var i :| 0 <= i < |t.opinions| && t.opinions[i] == o;
    assert o.signer in SignersOf(t.opinions, revision);
  }

  /* ----- the acts as they are run ----- */

  // One case's tables, changed in place under its lock.
  class CaseFile {
    var revisions: map<RevisionId, Revision>
    var opinions: seq<Opinion>
    var publications: map<RevisionId, Publication>

    constructor ()
      ensures Value() == EMPTY
    {
      revisions := map[];
      opinions := [];
      publications := map[];
    }

    function Value(): Tables
      reads this
    {
      Tables(revisions, opinions, publications)
    }

    // The opinions on a revision, the latest first, gathered in one pass.
    method RevisionSignatures(revision: RevisionId) returns (signatures: seq<Opinion>)
      ensures signatures == OpinionsOn(opinions, revision)
    {
      signatures := [];
      for i := 0 to |opinions|
        invariant signatures == OpinionsOn(opinions[..i], revision)
      {
        assert opinions[..i + 1][..i] == opinions[..i];
        if opinions[i].revision == revision {
          signatures := [opinions[i]] + signatures;
        }
      }
      assert opinions[..|opinions|] == opinions;
    }

    method SignOpinion(actor: Actor, revision: RevisionId) returns (signed: Result<string, Code>)
      modifies this
      ensures signed == Signed(old(Value()), actor, revision)
      ensures Value() == Apply(old(Value()), Sign(actor, revision))
      ensures old(Holds(Value())) ==> Holds(Value())
    {
      if revision !in revisions {
        return Err(DeliverableNotFound);
      }
      var row := revisions[revision];
      if actor == row.savedBy {
        return Err(ApproverNotIndependent);
      }
      if revision in publications {
        return Err(AlreadyFrozen);
      }
      var signatures := RevisionSignatures(revision);
      OpinionsAreSigned(opinions, revision);
      if exists o :: o in signatures && o.signer == actor {
        return Err(AlreadySigned);
      }
      if Holds(Value()) {
        ActKeeps(Value(), Sign(actor, revision));
      }
      opinions := opinions + [Opinion(revision, actor, row.digest)];
      signed := Ok(row.digest);
    }

    method FreezeRevision(actor: Actor, revision: RevisionId, proof: Proof) returns (frozen: Result<string, Code>)
      modifies this
      ensures frozen == Frozen(old(Value()), actor, revision, proof)
      ensures Value() == Apply(old(Value()), Freeze(actor, revision, proof))
      ensures old(Holds(Value())) ==> Holds(Value())
    {
      if revision !in revisions {
        return Err(DeliverableNotFound);
      }
      var digest := revisions[revision].digest;
      if revision in publications {
        return Err(AlreadyFrozen);
      }
      var signatures := RevisionSignatures(revision);
      OpinionsAreSigned(opinions, revision);
      if signatures == [] {
        return Err(NotSigned);
      }
      if exists o :: o in signatures && o.digest != digest {
        return Err(MovedSinceSigning);
      }
      if exists o :: o in signatures && o.signer == actor {
        return Err(ApproverNotIndependent);
      }
      if proof.Refused? {
        return Err(Unproven(proof.code));
      }
      if proof.digest != digest {
        return Err(MovedSinceSigning);
      }
      if !proof.renders {
        return Err(Unproven("render"));
      }
      if Holds(Value()) {
        ActKeeps(Value(), Freeze(actor, revision, proof));
      }
      publications := publications[revision := Publication(actor, digest, None)];
      frozen := Ok(digest);
    }

    method FileDeliverable(actor: Actor, revision: RevisionId) returns (filed: Result<Receipt, Code>)
      modifies this
      ensures filed == Filed(old(Value()), actor, revision)
      ensures Value() == Apply(old(Value()), File(actor, revision))
      ensures old(Holds(Value())) ==> Holds(Value())
    {
      if revision !in revisions {
        return Err(DeliverableNotFound);
      }
      if revision !in publications {
        return Err(NotFrozen);
      }
      var digest, publication := revisions[revision].digest, publications[revision];
      if publication.digest != digest {
        return Err(MovedSinceSigning);
      }
      var signatures := RevisionSignatures(revision);
      OpinionsAreSigned(opinions, revision);
      if signatures == [] || exists o :: o in signatures && o.digest != digest {
        return Err(NotSigned);
      }
      if exists o :: o in signatures && (o.signer == publication.frozenBy || o.signer == actor) {
        return Err(ApproverNotIndependent);
      }
      if actor == publication.frozenBy {
        return Err(ApproverNotIndependent);
      }
      if publication.filedBy.Some? {
        return Err(AlreadyFiled);
      }
      if Holds(Value()) {
        ActKeeps(Value(), File(actor, revision));
      }
      publications := publications[revision := publication.(filedBy := Some(actor))];
      filed := Ok(Receipt(revision, digest, signatures[0].signer, publication.frozenBy, actor));
    }
  }

  lemma OpinionsAreSigned(opinions: seq<Opinion>, revision: RevisionId)
    ensures forall actor :: actor in SignersOf(opinions, revision) <==>
              exists o :: o in OpinionsOn(opinions, revision) && o.signer == actor
    ensures forall digest :: AllBind(opinions, revision, digest) <==>
              forall o :: o in OpinionsOn(opinions, revision) ==> o.digest == digest
  {
    OpinionsOnAre(opinions, revision);
    forall actor
      ensures actor in SignersOf(opinions, revision) <==>
                exists o :: o in OpinionsOn(opinions, revision) && o.signer == actor
    {
      if actor in SignersOf(opinions, revision) {
        var i :| 0 <= i < |opinions| && opinions[i].revision == revision && opinions[i].signer == actor;
        assert opinions[i] in OpinionsOn(opinions, revision);
      }
      if o :| o in OpinionsOn(opinions, revision) && o.signer == actor {
        var i :| 0 <= i < |opinions| && opinions[i] == o;
      }
    }
    forall digest
      ensures AllBind(opinions, revision, digest) <==>
                forall o :: o in OpinionsOn(opinions, revision) ==> o.digest == digest
    {
      if forall o :: o in OpinionsOn(opinions, revision) ==> o.digest == digest {
        forall i | 0 <= i < |opinions| && opinions[i].revision == revision
          ensures opinions[i].digest == digest
        {
          assert opinions[i] in OpinionsOn(opinions, revision);
        }
      }
    }
  }
}
