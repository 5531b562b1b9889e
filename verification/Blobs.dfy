// The content-addressed store as a file system keeps it: blobs staged under a temporary name,
// made durable and renamed into place, with crashes at any point; and reads that verify what
// they return, remembered or not.
module Blobs {
  import opened Wrappers

  type Bytes = seq<bv8>

  datatype Code = BlobNotFound | BlobDigestMismatch | BlobAddressInvalid | StoreUnavailable

  /* ----- addresses ----- */

  const DIGEST_LENGTH: nat := 64

  // What a digest is written as: lower-case hexadecimal, and nothing that could name a path.
  predicate IsDigest(s: string) {
    |s| == DIGEST_LENGTH && forall i :: 0 <= i < |s| ==> '0' <= s[i] <= '9' || 'a' <= s[i] <= 'f'
  }

  // Where a digest lives: its first two characters name its shard.
  function PathOf(digest: string): Result<seq<string>, Code> {
    if IsDigest(digest) then Ok([digest[..2], digest]) else Err(BlobAddressInvalid)
  }

  const HEXADECIMAL := "0123456789abcdef"

  // Only sixty-four lower-case hexadecimal digits have an address: their first two as its
  // shard, and all of them.
  lemma OnlyDigestsHaveAddresses(s: string)
    ensures PathOf(s) ==
            if |s| == 64 && (forall i :: 0 <= i < |s| ==> s[i] in HEXADECIMAL) then Ok([s[..2], s]) else Err(BlobAddressInvalid)
    ensures PathOf(s).Ok? ==> Shard(Address(s)) == PathOf(s).value[0]
  {
    forall i | 0 <= i < |s|
      ensures s[i] in HEXADECIMAL <==> '0' <= s[i] <= '9' || 'a' <= s[i] <= 'f'
    {
      HexadecimalIs(s[i]);
    }
  }

  lemma HexadecimalIs(c: char)
    ensures c in HEXADECIMAL <==> '0' <= c <= '9' || 'a' <= c <= 'f'
  {
    if '0' <= c <= '9' {
      assert HEXADECIMAL[c as int - '0' as int] == c;
    } else if 'a' <= c <= 'f' {
      assert HEXADECIMAL[c as int - 'a' as int + 10] == c;
    }
  }

  // An address names its digest and no other, one shard below the root.
  lemma AddressesAreDistinct(a: string, b: string)
    requires PathOf(a).Ok? && PathOf(b).Ok?
    ensures PathOf(a) == PathOf(b) <==> a == b
    ensures forall i, j :: 0 <= i < |PathOf(a).value| && 0 <= j < |PathOf(a).value[i]| ==> PathOf(a).value[i][j] !in {'/', '.', '\\'}
  {
    assert PathOf(a).value[1] == a && PathOf(b).value[1] == b;
  }

  /* ----- a file system ----- */

  // A name is a blob's address or a staging file's, each in a shard.
  datatype Name = Address(digest: string) | Temp(put: nat, shard: string)

  // The shard of an address: a digest's first two characters.
  function ShardOf(digest: string): string { if |digest| < 2 then digest else digest[..2] }

  function Shard(name: Name): string {
    match name
    case Address(digest) => ShardOf(digest)
    case Temp(_, shard) => shard
  }

  // The files: what each holds and which are durable; the names readers see in the shards and
  // those a shard would keep over a crash; the shards the root shows, and those it would keep.
  datatype Disk = Disk(
    held: seq<Bytes>, durable: set<nat>,
    names: map<Name, nat>, lasting: map<Name, nat>,
    shards: set<string>, lastingShards: set<string>)

  // Where one `put` has got to.
  datatype Pc = Begun | Staging(file: nat) | Staged(file: nat) | Placed(file: nat) | Done | Gone

  datatype Put = Put(data: Bytes, pc: Pc)

  datatype Store = Store(disk: Disk, puts: seq<Put>)

  const EMPTY := Store(Disk([], {}, map[], map[], {}, {}), [])

  // What can happen: a put begins by making its shard, opens its staging file, writes some of
  // its bytes, makes them durable, renames the file, makes the shard's names durable, or fails
  // and removes the file; something other than the store makes the root's names durable; or
  // the machine crashes, keeping some names and shards not yet durable and leaving anything in
  // files that were not.
  datatype Step =
    | Begin(data: Bytes)
    | Open(p: nat)
    | Write(p: nat, upTo: nat)
    | Sync(p: nat)
    | Replace(p: nat)
    | SyncDirectory(p: nat)
    | Fail(p: nat)
    | RootSynced
    | Crash(kept: set<Name>, keptShards: set<string>, left: seq<Bytes>)

  function At(s: Store, p: nat): Pc { if p < |s.puts| then s.puts[p].pc else Gone }

  function Moved(s: Store, p: nat, pc: Pc): seq<Put>
    requires p < |s.puts|
  {
    s.puts[p := s.puts[p].(pc := pc)]
  }

  function AddressOf(s: Store, p: nat, hash: Bytes -> string): Name
    requires p < |s.puts|
  {
    Address(hash(s.puts[p].data))
  }

  // The shards a crash leaves, and what it leaves under each name in them: what lasted, or
  // what was there when the rename made it.
  function ShardsLeft(disk: Disk, kept: set<string>): set<string> { disk.lastingShards + disk.shards * kept }

  function Survivors(disk: Disk, kept: set<Name>, shards: set<string>): map<Name, nat> {
    (map name | name in disk.lasting && name !in kept && Shard(name) in shards :: disk.lasting[name])
    + (map name | name in disk.names && name in kept && Shard(name) in shards :: disk.names[name])
  }

  function Crashed(disk: Disk, kept: set<Name>, keptShards: set<string>, left: seq<Bytes>): Disk {
    var shards := ShardsLeft(disk, keptShards);
    var names := Survivors(disk, kept, shards);
    Disk(seq(|disk.held|, i requires 0 <= i < |disk.held| =>
               if i in disk.durable || i >= |left| then disk.held[i] else left[i]),
         disk.durable, names, names, shards, shards)
  }

  function Apply(s: Store, step: Step, hash: Bytes -> string): Store {
    match step
    case Begin(data) =>
      Store(s.disk.(shards := s.disk.shards + {ShardOf(hash(data))}), s.puts + [Put(data, Begun)])
    case Open(p) =>
      if !At(s, p).Begun? then s
      else
        var file := |s.disk.held|;
        Store(s.disk.(held := s.disk.held + [[]], names := s.disk.names[Temp(p, Shard(AddressOf(s, p, hash))) := file]),
              Moved(s, p, Staging(file)))
    case Write(p, upTo) =>
      if !At(s, p).Staging? || At(s, p).file >= |s.disk.held| || upTo > |s.puts[p].data| then s
      else s.(disk := s.disk.(held := s.disk.held[At(s, p).file := s.puts[p].data[..upTo]]))
    case Sync(p) =>
      if !At(s, p).Staging? || At(s, p).file >= |s.disk.held| || s.disk.held[At(s, p).file] != s.puts[p].data then s
      else Store(s.disk.(durable := s.disk.durable + {At(s, p).file}), Moved(s, p, Staged(At(s, p).file)))
    case Replace(p) =>
      if !At(s, p).Staged? then s
      else
        var file, address := At(s, p).file, AddressOf(s, p, hash);
        Store(s.disk.(names := (s.disk.names - {Temp(p, Shard(address))})[address := file]), Moved(s, p, Placed(file)))
    case SyncDirectory(p) =>
      if !At(s, p).Placed? then s
      else
        var shard := Shard(AddressOf(s, p, hash));
        var synced := map name | name in s.disk.names && Shard(name) == shard :: s.disk.names[name];
        var others := map name | name in s.disk.lasting && Shard(name) != shard :: s.disk.lasting[name];
        Store(s.disk.(lasting := synced + others), Moved(s, p, Done))
    case Fail(p) =>
      if !At(s, p).Staging? then s
      else Store(s.disk.(names := s.disk.names - {Temp(p, Shard(AddressOf(s, p, hash)))}), Moved(s, p, Gone))
    case RootSynced => s.(disk := s.disk.(lastingShards := s.disk.shards))
    case Crash(kept, keptShards, left) =>
      Store(Crashed(s.disk, kept, keptShards, left),
            seq(|s.puts|, i requires 0 <= i < |s.puts| => s.puts[i].(pc := if s.puts[i].pc.Done? then Done else Gone)))
  }

  // A crash leaves each name, in a shard it leaves, either as readers saw it or as its shard
  // would keep it; every durable file as it was, and anything in the others; and of the puts only
  // those that returned.
  lemma CrashLeavesEither(s: Store, kept: set<Name>, keptShards: set<string>, left: seq<Bytes>, hash: Bytes -> string, name: Name)
    ensures var s' := Apply(s, Crash(kept, keptShards, left), hash);
            var before := if name in kept then s.disk.names else s.disk.lasting;
            && (name in s'.disk.names <==>
                  name in before && (Shard(name) in s.disk.lastingShards || Shard(name) in s.disk.shards * keptShards))
            && (name in s'.disk.names ==> s'.disk.names[name] == before[name])
            && s'.disk.lasting == s'.disk.names && s'.disk.lastingShards == s'.disk.shards
            && |s'.disk.held| == |s.disk.held|
            && (forall i :: 0 <= i < |s.disk.held| ==>
                  s'.disk.held[i] == if i !in s.disk.durable && i < |left| then left[i] else s.disk.held[i])
            && |s'.puts| == |s.puts|
            && (forall p :: 0 <= p < |s.puts| ==> s'.puts[p] == Put(s.puts[p].data, if s.puts[p].pc == Done then Done else Gone))
  {
  }

  function Steps(s: Store, steps: seq<Step>, hash: Bytes -> string): Store {
    if steps == [] then s else Apply(Steps(s, steps[..|steps| - 1], hash), steps[|steps| - 1], hash)
  }

  lemma {:induction false} StepsJoin(s: Store, a: seq<Step>, b: seq<Step>, hash: Bytes -> string)
    ensures Steps(s, a + b, hash) == Steps(Steps(s, a, hash), b, hash)
    decreases |b|
  {
    if b == [] {
      assert a + b == a;
    } else {
      assert (a + b)[..|a + b| - 1] == a + b[..|b| - 1];
      StepsJoin(s, a, b[..|b| - 1], hash);
    }
  }

  /* ----- no partial blob at an address ----- */

  // An address, where there is one, names a durable file of exactly the bytes it is the hash of.
  ghost predicate Whole(disk: Disk, names: map<Name, nat>, hash: Bytes -> string) {
    forall name :: name in names && name.Address? ==>
      && names[name] < |disk.held| && names[name] in disk.durable
      && hash(disk.held[names[name]]) == name.digest
  }

  // Names are in shards the root shows; an address that would outlast a crash of its shard is
  // still named; and so is the address of what has been placed.
  ghost predicate Found(s: Store, hash: Bytes -> string) {
    && s.disk.lastingShards <= s.disk.shards
    && (forall name :: name in s.disk.names ==> Shard(name) in s.disk.shards)
    && (forall name :: name in s.disk.lasting && name.Address? ==> name in s.disk.names)
    && (forall p :: 0 <= p < |s.puts| && !s.puts[p].pc.Done? && !s.puts[p].pc.Gone? ==>
          Shard(AddressOf(s, p, hash)) in s.disk.shards)
    && (forall p :: 0 <= p < |s.puts| && s.puts[p].pc.Placed? ==> AddressOf(s, p, hash) in s.disk.names)
  }

  // A put's own file is its alone until it is placed, and holds its bytes once they are durable.
  ghost predicate PutHolds(s: Store, p: nat)
    requires p < |s.puts|
  {
    match s.puts[p].pc
    case Staging(file) =>
      && file < |s.disk.held| && file !in s.disk.durable
      && (forall q :: 0 <= q < |s.puts| && q != p && s.puts[q].pc.Staging? ==> s.puts[q].pc.file != file)
    case Staged(file) => file < |s.disk.held| && file in s.disk.durable && s.disk.held[file] == s.puts[p].data
    case _ => true
  }

  ghost predicate Sound(s: Store, hash: Bytes -> string) {
    && Whole(s.disk, s.disk.names, hash) && Whole(s.disk, s.disk.lasting, hash)
    && (forall file :: file in s.disk.durable ==> file < |s.disk.held|)
    && (forall p :: 0 <= p < |s.puts| ==> PutHolds(s, p))
    && Found(s, hash)
  }

  // Durable files are never written again, and only more become so.
  ghost predicate Kept(disk: Disk, disk': Disk) {
    && |disk.held| <= |disk'.held| && disk.durable <= disk'.durable
    && forall file :: file in disk.durable && file < |disk.held| ==> disk'.held[file] == disk.held[file]
  }

  lemma StepKeeps(s: Store, step: Step, hash: Bytes -> string)
    requires Sound(s, hash)
    ensures Sound(Apply(s, step, hash), hash)
    ensures Kept(s.disk, Apply(s, step, hash).disk)
  {
    var s' := Apply(s, step, hash);
    assert Kept(s.disk, s'.disk) by {
      match step
      case Write(p, upTo) =>
        if p < |s.puts| {
          assert PutHolds(s, p);
        }
      case _ =>
    }
    NamesKeep(s, step, hash);
    PutsKeep(s, step, hash);
    FoundKeeps(s, step, hash);
  }

  lemma FoundKeeps(s: Store, step: Step, hash: Bytes -> string)
    requires Found(s, hash)
    ensures Found(Apply(s, step, hash), hash)
  {
  }

  lemma NamesKeep(s: Store, step: Step, hash: Bytes -> string)
    requires Sound(s, hash) && Kept(s.disk, Apply(s, step, hash).disk)
    ensures var d := Apply(s, step, hash).disk; Whole(d, d.names, hash) && Whole(d, d.lasting, hash)
  {
    var d := Apply(s, step, hash).disk;
    assert Whole(d, s.disk.names, hash) && Whole(d, s.disk.lasting, hash);
    match step
    case Replace(p) =>
      if At(s, p).Staged? {
        assert PutHolds(s, p);
      }
    case _ =>
  }

  lemma PutsKeep(s: Store, step: Step, hash: Bytes -> string)
    requires Sound(s, hash) && Kept(s.disk, Apply(s, step, hash).disk)
    ensures var s' := Apply(s, step, hash);
            && (forall file :: file in s'.disk.durable ==> file < |s'.disk.held|)
            && (forall p :: 0 <= p < |s'.puts| ==> PutHolds(s', p))
  {
    var s' := Apply(s, step, hash);
    forall q | 0 <= q < |s.puts| && s.puts[q].pc.Staging?
      ensures s.puts[q].pc.file < |s.disk.held|
    {
      assert PutHolds(s, q);
    }
    forall p | 0 <= p < |s'.puts|
      ensures PutHolds(s', p)
    {
      if p < |s.puts| {
        assert PutHolds(s, p);
      }
    }
    match step
    case Sync(p) =>
      if At(s, p).Staging? {
        assert PutHolds(s, p);
      }
    case _ =>
  }

  lemma {:induction false} RunKeeps(s: Store, steps: seq<Step>, hash: Bytes -> string)
    requires Sound(s, hash)
    ensures Sound(Steps(s, steps, hash), hash) && Kept(s.disk, Steps(s, steps, hash).disk)
    decreases |steps|
  {
    if steps != [] {
      RunKeeps(s, steps[..|steps| - 1], hash);
      StepKeeps(Steps(s, steps[..|steps| - 1], hash), steps[|steps| - 1], hash);
    }
  }

  // Whatever was put, by however many at once, and wherever it crashed, an address holds a
  // whole blob of its own hash or nothing -- as readers see it and as a crash would leave it.
  lemma NoPartialBlob(steps: seq<Step>, hash: Bytes -> string, digest: string)
    ensures var disk := Steps(EMPTY, steps, hash).disk;
            && (Address(digest) in disk.names ==>
                  disk.names[Address(digest)] < |disk.held| && hash(disk.held[disk.names[Address(digest)]]) == digest)
            && (Address(digest) in disk.lasting ==>
                  disk.lasting[Address(digest)] < |disk.held| && hash(disk.held[disk.lasting[Address(digest)]]) == digest)
  {
    RunKeeps(EMPTY, steps, hash);
  }

  /* ----- when a put lasts ----- */

  // An address that its shard would keep, in a shard that the root would keep.
  predicate Lasts(disk: Disk, digest: string) {
    Address(digest) in disk.lasting && ShardOf(digest) in disk.lastingShards
  }

  lemma StepLasts(s: Store, step: Step, hash: Bytes -> string, digest: string)
    requires Sound(s, hash) && Lasts(s.disk, digest)
    ensures Lasts(Apply(s, step, hash).disk, digest)
  {
    assert Shard(Address(digest)) == ShardOf(digest);
  }

  lemma {:induction false} LastingStays(s: Store, more: seq<Step>, hash: Bytes -> string, digest: string)
    requires Sound(s, hash) && Lasts(s.disk, digest)
    ensures Lasts(Steps(s, more, hash).disk, digest)
    decreases |more|
  {
    if more != [] {
      var before := more[..|more| - 1];
      LastingStays(s, before, hash, digest);
      RunKeeps(s, before, hash);
      StepLasts(Steps(s, before, hash), more[|more| - 1], hash, digest);
    }
  }

  predicate NamedAfter(s: Store, more: seq<Step>, hash: Bytes -> string, digest: string) {
    Address(digest) in Steps(s, more, hash).disk.names
  }

  // Nothing that can happen takes an address away if and only if the shard would keep the
  // address and the root the shard.
  lemma AddressLasts(s: Store, hash: Bytes -> string, digest: string)
    requires Sound(s, hash)
    ensures (forall more :: NamedAfter(s, more, hash, digest)) <==> Lasts(s.disk, digest)
  {
    if Lasts(s.disk, digest) {
      forall more
        ensures NamedAfter(s, more, hash, digest)
      {
        LastingStays(s, more, hash, digest);
        RunKeeps(s, more, hash);
      }
    } else {
      var crash := [Crash({}, {}, [])];
      assert crash[..0] == [];
      assert Steps(s, crash, hash) == Apply(s, crash[0], hash);
      assert Shard(Address(digest)) == ShardOf(digest);
      assert !NamedAfter(s, crash, hash, digest);
    }
  }

  // A put that returns leaves its blob for good, whatever follows, if and only if the root
  // would already keep its shard: returning makes the shard's names durable, never the root's.
  lemma PutLasts(steps: seq<Step>, hash: Bytes -> string, p: nat)
    requires At(Steps(EMPTY, steps, hash), p).Placed?
    ensures var s := Steps(EMPTY, steps, hash);
            var done, digest := Apply(s, SyncDirectory(p), hash), hash(s.puts[p].data);
            && At(done, p).Done? && Address(digest) in done.disk.names
            && ((forall more :: NamedAfter(done, more, hash, digest)) <==> ShardOf(digest) in s.disk.lastingShards)
  {
    var s := Steps(EMPTY, steps, hash);
    RunKeeps(EMPTY, steps, hash);
    StepKeeps(s, SyncDirectory(p), hash);
    var digest := hash(s.puts[p].data);
    assert Shard(Address(digest)) == ShardOf(digest);
    AddressLasts(Apply(s, SyncDirectory(p), hash), hash, digest);
  }

  // One put from its first step to its last.
  function WholePut(p: nat, data: Bytes): seq<Step> {
    [Begin(data), Open(p), Write(p, |data|), Sync(p), Replace(p), SyncDirectory(p)]
  }

  lemma OneStep(s: Store, steps: seq<Step>, step: Step, hash: Bytes -> string)
    ensures Steps(s, steps + [step], hash) == Apply(Steps(s, steps, hash), step, hash)
  {
    assert (steps + [step])[..|steps|] == steps;
  }

  // A put's bytes are durable once it has written them all.
  lemma PutIsStaged(s: Store, data: Bytes, hash: Bytes -> string) returns (staged: Store)
    ensures var p := |s.puts|;
            staged == Apply(Apply(Apply(Apply(s, Begin(data), hash), Open(p), hash), Write(p, |data|), hash), Sync(p), hash)
    ensures staged.puts == s.puts + [Put(data, Staged(|s.disk.held|))] && staged.disk.lastingShards == s.disk.lastingShards
    ensures forall digest :: Address(digest) in staged.disk.names <==> Address(digest) in s.disk.names
  {
    var p := |s.puts|;
    var s1 := Apply(s, Begin(data), hash);
    var s2 := Apply(s1, Open(p), hash);
    assert s2.puts == s.puts + [Put(data, Staging(|s.disk.held|))];
    var s3 := Apply(s2, Write(p, |data|), hash);
    assert data[..|data|] == data;
    assert s3.disk.held[|s.disk.held|] == data;
    staged := Apply(s3, Sync(p), hash);
  }

  lemma PutIsPlaced(s: Store, p: nat, hash: Bytes -> string)
    requires At(s, p).Staged?
    ensures var placed := Apply(s, Replace(p), hash);
            var done := Apply(placed, SyncDirectory(p), hash);
            && done.puts == s.puts[p := Put(s.puts[p].data, Done)] && done.disk.lastingShards == s.disk.lastingShards
            && AddressOf(s, p, hash) in done.disk.names && AddressOf(s, p, hash) in done.disk.lasting
            && forall digest :: digest != hash(s.puts[p].data) ==>
                 (Address(digest) in done.disk.names <==> Address(digest) in s.disk.names)
  {
  }

  lemma SixSteps(s: Store, all: seq<Step>, hash: Bytes -> string)
    requires |all| == 6
    ensures Steps(s, all, hash)
            == Apply(Apply(Apply(Apply(Apply(Apply(s, all[0], hash), all[1], hash), all[2], hash), all[3], hash), all[4], hash),
                     all[5], hash)
  {
    forall k: nat | k < 6
      ensures Steps(s, all[..k + 1], hash) == Apply(Steps(s, all[..k], hash), all[k], hash)
    {
      assert all[..k + 1] == all[..k] + [all[k]];
      OneStep(s, all[..k], all[k], hash);
    }
    assert all[..0] == [] && all[..6] == all;
    assert all[..1] == [all[0]];
  }

  // A put run to its end returns, and its blob is there for readers.
  lemma WholePutIsDone(s: Store, data: Bytes, hash: Bytes -> string)
    ensures var done := Steps(s, WholePut(|s.puts|, data), hash);
            && done.puts == s.puts + [Put(data, Done)] && done.disk.lastingShards == s.disk.lastingShards
            && Address(hash(data)) in done.disk.names && Address(hash(data)) in done.disk.lasting
            && (forall digest :: digest != hash(data) ==>
                  (Address(digest) in done.disk.names <==> Address(digest) in s.disk.names))
  {
    var p := |s.puts|;
    SixSteps(s, WholePut(p, data), hash);
    var staged := PutIsStaged(s, data, hash);
    PutIsPlaced(staged, p, hash);
  }

  // The first put into a shard may return and be lost: a crash right after it can drop the
  // shard the put made from the root, and the blob with it.
  lemma AReturnedPutCanBeLost(data: Bytes, hash: Bytes -> string)
    ensures var done := Steps(EMPTY, WholePut(0, data), hash);
            && done.puts == [Put(data, Done)] && Address(hash(data)) in done.disk.names
            && Address(hash(data)) !in Steps(EMPTY, WholePut(0, data) + [Crash({}, {}, [])], hash).disk.names
  {
    WholePutIsDone(EMPTY, data, hash);
    OneStep(EMPTY, WholePut(0, data), Crash({}, {}, []), hash);
    assert Shard(Address(hash(data))) == ShardOf(hash(data));
  }

  /* ----- reading ----- */

  // What a read finds stored under each digest: whatever has become of it.
  type Files = map<string, Bytes>

  function Get(files: Files, digest: string, hash: Bytes -> string): Result<Bytes, Code> {
    if !IsDigest(digest) then Err(BlobAddressInvalid)
    else if digest !in files then Err(BlobNotFound)
    else if hash(files[digest]) != digest then Err(BlobDigestMismatch)
    else Ok(files[digest])
  }

  // What has been verified, by digest: each the hash of its bytes.
  ghost predicate Verified(verified: Files, hash: Bytes -> string) {
    forall digest :: digest in verified ==> IsDigest(digest) && hash(verified[digest]) == digest
  }

  // The store as one request reads it, keeping every blob it verifies.
  class Remembering {
    var verified: Files

    constructor ()
      ensures verified == map[]
    {
      verified := map[];
    }

    // A read, over what the store holds at that moment: what the plain read gives, but for a
    // blob already verified, which is given again. A refusal is never kept.
    method Read(files: Files, digest: string, hash: Bytes -> string) returns (read: Result<Bytes, Code>)
      requires Verified(verified, hash)
      modifies this
      ensures Verified(verified, hash)
      ensures read == if digest in old(verified) then Ok(old(verified)[digest]) else Get(files, digest, hash)
      ensures verified == if read.Ok? then old(verified)[digest := read.value] else old(verified)
    {
      if !IsDigest(digest) {
        return Err(BlobAddressInvalid);
      }
      if digest in verified {
        return Ok(verified[digest]);
      }
      if digest !in files {
        return Err(BlobNotFound);
      }
      var data := files[digest];
      if hash(data) != digest {
        return Err(BlobDigestMismatch);
      }
      verified := verified[digest := data];
      read := Ok(data);
    }
  }

  // The reads of one request, each over what the store then holds.
  datatype Reading = Reading(files: Files, digest: string)

  function Plain(reading: Reading, hash: Bytes -> string): Result<Bytes, Code> {
    Get(reading.files, reading.digest, hash)
  }

  function ReadOnce(reading: Reading, verified: Files, hash: Bytes -> string): Result<Bytes, Code> {
    if reading.digest in verified then Ok(verified[reading.digest]) else Plain(reading, hash)
  }

  // What has been verified once the readings are done.
  function Known(readings: seq<Reading>, verified: Files, hash: Bytes -> string): Files
    decreases |readings|
  {
    if readings == [] then verified
    else
      var known := Known(readings[..|readings| - 1], verified, hash);
      var read := ReadOnce(readings[|readings| - 1], known, hash);
      if read.Ok? then known[readings[|readings| - 1].digest := read.value] else known
  }

  // What the `i`-th read of a request gives, remembering what those before it verified.
  function Remembered(readings: seq<Reading>, i: nat, hash: Bytes -> string): Result<Bytes, Code>
    requires i < |readings|
  {
    ReadOnce(readings[i], Known(readings[..i], map[], hash), hash)
  }

  // A digest an earlier plain read of the request would have verified.
  ghost predicate ReadBefore(readings: seq<Reading>, digest: string, hash: Bytes -> string) {
    exists j :: 0 <= j < |readings| && readings[j].digest == digest && Plain(readings[j], hash).Ok?
  }

  lemma {:induction false} KnownIsReadBefore(readings: seq<Reading>, digest: string, hash: Bytes -> string)
    ensures Verified(Known(readings, map[], hash), hash)
    ensures digest in Known(readings, map[], hash) <==> ReadBefore(readings, digest, hash)
    decreases |readings|
  {
    if readings != [] {
      var before, last := readings[..|readings| - 1], readings[|readings| - 1];
      KnownIsReadBefore(before, digest, hash);
      KnownIsReadBefore(before, last.digest, hash);
      assert readings == before + [last];
      if ReadBefore(before, digest, hash) {
        var j :| 0 <= j < |before| && before[j].digest == digest && Plain(before[j], hash).Ok?;
        assert readings[j] == before[j];
      }
      if ReadBefore(readings, digest, hash) {
        var j :| 0 <= j < |readings| && readings[j].digest == digest && Plain(readings[j], hash).Ok?;
        assert j < |before| ==> before[j] == readings[j];
      }
    }
  }

  // Two reads of one digest that say the same: the same refusal, or bytes of one hash.
  predicate Agree(a: Result<Bytes, Code>, b: Result<Bytes, Code>, hash: Bytes -> string) {
    if a.Ok? && b.Ok? then hash(a.value) == hash(b.value) else a == b
  }

  // Whatever becomes of the store between reads, a remembered read gives bytes of the digest
  // asked for or what the plain read gives; and it says what the plain read says if and only if
  // no earlier read of the request verified the digest, or the store still holds bytes of it.
  lemma RememberedAgrees(readings: seq<Reading>, i: nat, hash: Bytes -> string)
    requires i < |readings|
    ensures var read, plain := Remembered(readings, i, hash), Plain(readings[i], hash);
            && (read.Ok? ==> IsDigest(readings[i].digest) && hash(read.value) == readings[i].digest)
            && (Agree(read, plain, hash) <==> !ReadBefore(readings[..i], readings[i].digest, hash) || plain.Ok?)
  {
    KnownIsReadBefore(readings[..i], readings[i].digest, hash);
  }

  // A blob verified once is served again after the store has lost it.
  lemma RememberedOutlivesTheStore(data: Bytes, hash: Bytes -> string)
    requires IsDigest(hash(data))
    ensures var readings := [Reading(map[hash(data) := data], hash(data)), Reading(map[], hash(data))];
            && Remembered(readings, 1, hash) == Ok(data)
            && Plain(readings[1], hash) == Err(BlobNotFound)
  {
    var readings := [Reading(map[hash(data) := data], hash(data)), Reading(map[], hash(data))];
    assert readings[..1] == [readings[0]] && readings[..1][..0] == [];
    assert Known([], map[], hash) == map[];
    assert ReadOnce(readings[0], map[], hash) == Ok(data);
    assert Known(readings[..1], map[], hash) == map[][hash(data) := data];
  }

  /* ----- two blobs at once ----- */

  // How far a put got when it faulted: some whole steps, or a write cut short and cleared away.
  predicate Faulted(steps: seq<Step>, p: nat, data: Bytes) {
    || ((|steps| <= 1 || 4 <= |steps| <= 5) && steps == WholePut(p, data)[..|steps|])
    || (|steps| == 4 && steps[2].Write? && steps[2].upTo <= |data| && steps == CutShort(p, data, steps[2].upTo))
  }

  // A put cut short.
  function CutShort(p: nat, data: Bytes, upTo: nat): seq<Step> { [Begin(data), Open(p), Write(p, upTo), Fail(p)] }

  // A put is tried when it took its steps or faulted after some of them.
  predicate PutTried(steps: seq<Step>, p: nat, data: Bytes) { steps == WholePut(p, data) || Faulted(steps, p, data) }

  lemma FourSteps(s: Store, all: seq<Step>, hash: Bytes -> string)
    requires |all| == 4
    ensures Steps(s, all, hash) == Apply(Apply(Apply(Apply(s, all[0], hash), all[1], hash), all[2], hash), all[3], hash)
  {
    forall k: nat | k < 4
      ensures Steps(s, all[..k + 1], hash) == Apply(Steps(s, all[..k], hash), all[k], hash)
    {
      assert all[..k + 1] == all[..k] + [all[k]];
      OneStep(s, all[..k], all[k], hash);
    }
    assert all[..0] == [] && all[..4] == all;
    assert all[..1] == [all[0]];
  }

  // A put cut short leaves every address as it was.
  lemma CutShortChangesNothing(s: Store, data: Bytes, upTo: nat, hash: Bytes -> string)
    requires upTo <= |data|
    ensures var cut := Steps(s, CutShort(|s.puts|, data, upTo), hash);
            && cut.puts == s.puts + [Put(data, Gone)]
            && forall digest :: Address(digest) in cut.disk.names <==> Address(digest) in s.disk.names
  {
    var p := |s.puts|;
    FourSteps(s, CutShort(p, data, upTo), hash);
    var s2 := Apply(Apply(s, Begin(data), hash), Open(p), hash);
    assert s2.puts == s.puts + [Put(data, Staging(|s.disk.held|))];
    var s3 := Apply(s2, Write(p, upTo), hash);
    assert s3.puts == s2.puts;
  }

  lemma StagedPrefix(s: Store, data: Bytes, hash: Bytes -> string) returns (staged: Store)
    ensures staged == Steps(s, WholePut(|s.puts|, data)[..4], hash)
    ensures staged.puts == s.puts + [Put(data, Staged(|s.disk.held|))]
    ensures forall digest :: Address(digest) in staged.disk.names <==> Address(digest) in s.disk.names
  {
    FourSteps(s, WholePut(|s.puts|, data)[..4], hash);
    staged := PutIsStaged(s, data, hash);
  }

  lemma PlacedPrefix(s: Store, data: Bytes, hash: Bytes -> string)
    ensures var placed := Steps(s, WholePut(|s.puts|, data)[..5], hash);
            && placed.puts == s.puts + [Put(data, Placed(|s.disk.held|))]
            && forall digest :: Address(digest) in placed.disk.names
                 <==> Address(digest) in s.disk.names || digest == hash(data)
  {
    var p := |s.puts|;
    var all := WholePut(p, data);
    var staged := StagedPrefix(s, data, hash);
    assert all[..5] == all[..4] + [all[4]];
    OneStep(s, all[..4], all[4], hash);
  }

  // However a put ends, the one address it adds is its own, and it has added it exactly when
  // it got as far as the rename.
  lemma PutNames(s: Store, data: Bytes, steps: seq<Step>, hash: Bytes -> string)
    requires PutTried(steps, |s.puts|, data)
    ensures forall digest :: Address(digest) in Steps(s, steps, hash).disk.names
              <==> Address(digest) in s.disk.names || (digest == hash(data) && |steps| >= 5)
  {
    var all := WholePut(|s.puts|, data);
    if steps == all {
      WholePutIsDone(s, data, hash);
    } else if steps == all[..|steps|] {
      if |steps| == 1 {
        OneStep(s, [], Begin(data), hash);
        assert steps == [] + [Begin(data)];
      } else if |steps| == 4 {
        var staged := StagedPrefix(s, data, hash);
      } else if |steps| == 5 {
        PlacedPrefix(s, data, hash);
      }
    } else {
      CutShortChangesNothing(s, data, steps[2].upTo, hash);
    }
  }

  // Two puts, the second tried only when the first returned.
  predicate PairTried(tried: seq<Step>, rest: seq<Step>, p: nat, first: Bytes, second: Bytes) {
    && PutTried(tried, p, first)
    && if tried == WholePut(p, first) then PutTried(rest, p + 1, second) else rest == []
  }

  // What a second put leaves, whatever the first left.
  lemma SecondNames(before: Store, half: Store, first: Bytes, second: Bytes, rest: seq<Step>, hash: Bytes -> string)
    requires PutTried(rest, |half.puts|, second)
    requires forall digest :: Address(digest) in half.disk.names
               <==> Address(digest) in before.disk.names || digest == hash(first)
    ensures forall digest :: Address(digest) in Steps(half, rest, hash).disk.names
              <==> || Address(digest) in before.disk.names
                   || digest == hash(first) || (digest == hash(second) && |rest| >= 5)
  {
    PutNames(half, second, rest, hash);
  }

  // A whole first put, as the second finds it.
  lemma FirstNames(s: Store, data: Bytes, hash: Bytes -> string) returns (half: Store)
    ensures half == Steps(s, WholePut(|s.puts|, data), hash) && |half.puts| == |s.puts| + 1
    ensures forall digest :: Address(digest) in half.disk.names
              <==> Address(digest) in s.disk.names || digest == hash(data)
  {
    half := Steps(s, WholePut(|s.puts|, data), hash);
    WholePutIsDone(s, data, hash);
  }

  // What readers find after a pair, at every address, however it ended.
  ghost predicate NamesOfPair(before: Store, after: Store, first: string, second: string, tried: nat, rest: nat) {
    forall digest :: Address(digest) in after.disk.names
      <==> || Address(digest) in before.disk.names
           || (digest == first && tried >= 5) || (digest == second && rest >= 5)
  }

  lemma PairNamesOnceTried(s: Store, first: Bytes, second: Bytes, rest: seq<Step>, hash: Bytes -> string)
    requires PutTried(rest, |s.puts| + 1, second)
    ensures NamesOfPair(s, Steps(s, WholePut(|s.puts|, first) + rest, hash), hash(first), hash(second), 6, |rest|)
  {
    var half := FirstNames(s, first, hash);
    StepsJoin(s, WholePut(|s.puts|, first), rest, hash);
    SecondNames(s, half, first, second, rest, hash);
  }

  lemma PairNamesWhenFaulted(s: Store, first: Bytes, second: Bytes, tried: seq<Step>, hash: Bytes -> string)
    requires PutTried(tried, |s.puts|, first)
    ensures NamesOfPair(s, Steps(s, tried + [], hash), hash(first), hash(second), |tried|, 0)
  {
    assert tried + [] == tried;
    PutNames(s, first, tried, hash);
  }

  lemma PairNames(s: Store, first: Bytes, second: Bytes, tried: seq<Step>, rest: seq<Step>, hash: Bytes -> string)
    requires PairTried(tried, rest, |s.puts|, first, second)
    ensures NamesOfPair(s, Steps(s, tried + rest, hash), hash(first), hash(second), |tried|, |rest|)
  {
    if tried == WholePut(|s.puts|, first) {
      PairNamesOnceTried(s, first, second, rest, hash);
    } else {
      PairNamesWhenFaulted(s, first, second, tried, hash);
    }
  }

  // Both blobs are stored, or no address has changed.
  ghost predicate BothOrNeither(before: Store, after: Store, first: string, second: string) {
    || (Address(first) in after.disk.names && Address(second) in after.disk.names)
    || (forall digest :: Address(digest) in after.disk.names <==> Address(digest) in before.disk.names)
  }

  // A pair leaves both or neither if and only if the first put did not get as far as its
  // rename, or the second did, or the store held one of them already, or the two are one
  // blob. Half a pair is left by all the rest: whenever a new first blob was renamed -- whether
  // or not its put then returned -- and a new second was not.
  lemma PairIsWhole(s: Store, first: Bytes, second: Bytes, tried: seq<Step>, rest: seq<Step>, hash: Bytes -> string)
    requires PairTried(tried, rest, |s.puts|, first, second)
    ensures BothOrNeither(s, Steps(s, tried + rest, hash), hash(first), hash(second)) <==>
              || |tried| < 5 || |rest| >= 5 || hash(first) == hash(second)
              || Address(hash(first)) in s.disk.names || Address(hash(second)) in s.disk.names
  {
    PairNames(s, first, second, tried, rest, hash);
    assert |tried| < 5 ==> rest == [];
  }

  // The store as one process writes it, any of its calls on the disk faulting.
  class BlobStore {
    var store: Store

    constructor ()
      ensures store == EMPTY
    {
      store := EMPTY;
    }

    method Take(step: Step, hash: Bytes -> string, ghost from: Store, ghost steps: seq<Step>) returns (faults: bool)
      requires store == Steps(from, steps, hash)
      modifies this
      ensures if faults then store == old(store) else store == Steps(from, steps + [step], hash)
    {
      faults := *;
      if !faults {
        OneStep(from, steps, step, hash);
        store := Apply(store, step, hash);
      }
    }

    // Opens a put's temporary file, writes to it and makes it durable; or faults, and clears
    // away whatever was written.
    method Stage(data: Bytes, p: nat, hash: Bytes -> string, ghost from: Store, ghost steps: seq<Step>)
      returns (faults: bool, ghost more: seq<Step>)
      requires store == Steps(from, steps, hash)
      modifies this
      ensures store == Steps(from, steps + more, hash)
      ensures !faults ==> more == [Open(p), Write(p, |data|), Sync(p)]
      ensures faults ==>
                || more == []
                || (|more| == 3 && more[1].Write? && more[1].upTo <= |data|
                    && more == [Open(p), Write(p, more[1].upTo), Fail(p)])
    {
      more := [];
      assert steps + more == steps;
      faults := Take(Open(p), hash, from, steps);
      if faults {
        return;
      }
      var upTo: nat := *;
      if upTo > |data| {
        upTo := |data|;
      }
      store := Apply(store, Write(p, upTo), hash);
      OneStep(from, steps + [Open(p)], Write(p, upTo), hash);
      ghost var written := steps + [Open(p)] + [Write(p, upTo)];
      faults := true;
      if upTo == |data| {
        faults := Take(Sync(p), hash, from, written);
      }
      if faults {
        store := Apply(store, Fail(p), hash);
        OneStep(from, written, Fail(p), hash);
        more := [Open(p), Write(p, upTo), Fail(p)];
        assert steps + more == written + [Fail(p)];
      } else {
        more := [Open(p), Write(p, |data|), Sync(p)];
        assert steps + more == written + [Sync(p)];
      }
    }

    // A blob staged, renamed and made durable; its digest, or the fault that stopped it.
    method Put(data: Bytes, hash: Bytes -> string) returns (digest: Result<string, Code>, ghost steps: seq<Step>)
      modifies this
      ensures store == Steps(old(store), steps, hash)
      ensures digest.Ok? ==> digest.value == hash(data) && steps == WholePut(|old(store).puts|, data)
      ensures digest.Err? ==> Faulted(steps, |old(store).puts|, data)
    {
      ghost var from := store;
      var p := |store.puts|;
      ghost var all := WholePut(p, data);
      digest, steps := Err(StoreUnavailable), [];
      assert all[..0] == [];
      var faults := Take(Begin(data), hash, from, steps);
      if faults {
        return;
      }
      steps := [Begin(data)];
      assert all[..1] == steps;
      ghost var more;
      faults, more := Stage(data, p, hash, from, steps);
      steps := steps + more;
      if faults {
        return;
      }
      assert all[..4] == steps;
      faults := Take(Replace(p), hash, from, steps);
      if faults {
        return;
      }
      steps := steps + [Replace(p)];
      assert all[..5] == steps;
      faults := Take(SyncDirectory(p), hash, from, steps);
      if faults {
        return;
      }
      steps := steps + [SyncDirectory(p)];
      assert all == steps;
      digest := Ok(hash(data));
    }

    // Both digests once both puts have returned, else a refusal: the second is not tried when
    // the first faults, and nothing stored is taken back.
    method PutBoth(first: Bytes, second: Bytes, hash: Bytes -> string)
      returns (stored: Result<(string, string), Code>, ghost tried: seq<Step>, ghost rest: seq<Step>)
      modifies this
      ensures store == Steps(old(store), tried + rest, hash)
      ensures PairTried(tried, rest, |old(store).puts|, first, second)
      ensures stored.Ok? <==> |tried| == 6 && |rest| == 6
      ensures stored.Ok? ==> stored.value == (hash(first), hash(second))
      ensures stored.Err? ==> stored.error == StoreUnavailable
      ensures NamesOfPair(old(store), store, hash(first), hash(second), |tried|, |rest|)
      ensures Sound(old(store), hash) ==> Sound(store, hash)
    {
      stored, rest := Err(StoreUnavailable), [];
      ghost var from := store;
      var a;
      a, tried := Put(first, hash);
      assert tried + [] == tried;
      if a.Ok? {
        WholePutIsDone(from, first, hash);
        var b;
        b, rest := Put(second, hash);
        StepsJoin(from, tried, rest, hash);
        if b.Ok? {
          stored := Ok((a.value, b.value));
        }
      }
      PairNames(from, first, second, tried, rest, hash);
      if Sound(from, hash) {
        RunKeeps(from, tried + rest, hash);
      }
    }
  }

  // A refused pair may leave half of itself: the first blob, stored and returned, stays when
  // the second cannot be written.
  lemma HalfAPairStays(first: Bytes, second: Bytes, hash: Bytes -> string)
    requires hash(first) != hash(second)
    ensures PairTried(WholePut(0, first), CutShort(1, second, 0), 0, first, second)
    ensures var s := Steps(EMPTY, WholePut(0, first) + CutShort(1, second, 0), hash);
            && At(s, 0).Done? && At(s, 1).Gone?
            && Address(hash(first)) in s.disk.names && Address(hash(second)) !in s.disk.names
  {
    WholePutIsDone(EMPTY, first, hash);
    StepsJoin(EMPTY, WholePut(0, first), CutShort(1, second, 0), hash);
    CutShortChangesNothing(Steps(EMPTY, WholePut(0, first), hash), second, 0, hash);
  }

  // And so does a first blob whose own put faulted, when only its last step did: it is renamed,
  // and the second is never tried.
  lemma AFaultedFirstStays(first: Bytes, second: Bytes, hash: Bytes -> string)
    requires hash(first) != hash(second)
    ensures PairTried(WholePut(0, first)[..5], [], 0, first, second)
    ensures var s := Steps(EMPTY, WholePut(0, first)[..5] + [], hash);
            && |s.puts| == 1 && At(s, 0).Placed?
            && Address(hash(first)) in s.disk.names && Address(hash(second)) !in s.disk.names
  {
    assert WholePut(0, first)[..5] + [] == WholePut(0, first)[..5];
    PlacedPrefix(EMPTY, first, hash);
  }
}
