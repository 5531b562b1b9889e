// Staging the runtime a call starts: files copied one by one out of a directory that may be
// changing, each hashed by the bytes that went into the copy, and an entry handed back only
// when the copy's own digest is the operator's.
module StagedRuntime {
  import opened Wrappers
  import opened Texts
  import opened RuntimeEncoding

  type Bytes = seq<bv8>

  // A hash of bytes and a hash of text, both in hexadecimal.
  datatype Hashes = Hashes(ofBytes: Bytes -> string, ofText: string -> string)

  ghost predicate Hexadecimal(hashes: Hashes) {
    forall bytes: Bytes :: |hashes.ofBytes(bytes)| == HASH_LENGTH
  }

  // What opening and reading a source file gives: nothing there, or blocks read one at a time
  // until an empty one, none of them promised to agree with anything read before.
  datatype Source = Missing | Readable(blocks: seq<Bytes>)

  // What is written of the blocks read: all up to the first empty one.
  function Written(blocks: seq<Bytes>): Bytes {
    if blocks == [] || blocks[0] == [] then [] else blocks[0] + Written(blocks[1..])
  }

  // Some blocks, one after another.
  function Flat(blocks: seq<Bytes>): Bytes {
    if blocks == [] then [] else Flat(blocks[..|blocks| - 1]) + blocks[|blocks| - 1]
  }

  lemma {:induction false} FlatOn(first: Bytes, rest: seq<Bytes>)
    ensures Flat([first] + rest) == first + Flat(rest)
    decreases |rest|
  {
    if rest == [] {
      assert [first] + rest == [first] && [first][..0] == [];
    } else {
      assert ([first] + rest)[..|rest|] == [first] + rest[..|rest| - 1];
      FlatOn(first, rest[..|rest| - 1]);
    }
  }

  // What is written is every block before the first empty one, and nothing after it.
  lemma {:induction false} WrittenIsWhatWasRead(blocks: seq<Bytes>, k: nat)
    requires k <= |blocks| && (forall i :: 0 <= i < k ==> blocks[i] != []) && (k < |blocks| ==> blocks[k] == [])
    ensures Written(blocks) == Flat(blocks[..k])
  {
    if k > 0 {
      WrittenIsWhatWasRead(blocks[1..], k - 1);
      assert blocks[..k] == [blocks[0]] + blocks[1..][..k - 1];
      FlatOn(blocks[0], blocks[1..][..k - 1]);
    }
  }

  // Copies one file, hashing exactly the bytes it writes.
  method Copied(blocks: seq<Bytes>, hashes: Hashes) returns (written: Bytes, hash: string)
    ensures written == Written(blocks) && hash == hashes.ofBytes(written)
  {
    var hashed: Bytes := [];
    written := [];
    var i := 0;
    while i < |blocks| && blocks[i] != []
      invariant i <= |blocks| && hashed == written
      invariant written + Written(blocks[i..]) == Written(blocks)
      decreases |blocks| - i
    {
      assert blocks[i..][1..] == blocks[i + 1..];
      assert written + (blocks[i] + Written(blocks[i + 1..])) == (written + blocks[i]) + Written(blocks[i + 1..]);
      hashed := hashed + blocks[i];
      written := written + blocks[i];
      i := i + 1;
    }
    assert written + [] == written;
    hash := hashes.ofBytes(hashed);
  }

  /* ----- the digest of a directory ----- */

  // The files of a directory, by path.
  type Directory = map<string, Bytes>

  function FileOf(directory: Directory, path: string, hashes: Hashes): File
    requires path in directory
  {
    File(path, hashes.ofBytes(directory[path]))
  }

  // A listing names each file of the directory once.
  predicate Lists(listing: seq<string>, directory: Directory) {
    && (forall path :: path in listing ==> path in directory)
    && (forall path :: path in directory ==> path in listing)
    && (forall i, j :: 0 <= i < j < |listing| ==> listing[i] != listing[j])
  }

  function FilesIn(listing: seq<string>, directory: Directory, hashes: Hashes): (files: seq<File>)
    requires forall path :: path in listing ==> path in directory
    ensures |files| == |listing|
    ensures forall i :: 0 <= i < |listing| ==> files[i] == FileOf(directory, listing[i], hashes)
  {
    seq(|listing|, i requires 0 <= i < |listing| && listing[i] in directory => FileOf(directory, listing[i], hashes))
  }

  function RuntimeDigest(listing: seq<string>, directory: Directory, hashes: Hashes): string
    requires forall path :: path in listing ==> path in directory
  {
    hashes.ofText(Encoding(FilesIn(listing, directory, hashes)))
  }

  // Where a listing holds the first path of another of the same paths.
  lemma PlaceOf(a: seq<string>, b: seq<string>) returns (before: seq<string>, after: seq<string>)
    requires a != [] && multiset(a) == multiset(b)
    ensures b == before + [a[0]] + after && multiset(a[1..]) == multiset(before + after)
    ensures |a[1..]| < |a|
  {
    assert a[0] in multiset(b);
    var k :| 0 <= k < |b| && b[k] == a[0];
    before, after := b[..k], b[k + 1..];
    assert a == [a[0]] + a[1..];
    assert b == before + [b[k]] + after;
    assert multiset(a) == multiset{a[0]} + multiset(a[1..]);
    assert multiset(b) == multiset(before) + multiset{b[k]} + multiset(after);
    assert multiset(before + after) == multiset(before) + multiset(after);
    assert multiset(a[1..]) == multiset(a) - multiset{a[0]};
    assert multiset(before + after) == multiset(b) - multiset{b[k]};
  }

  lemma {:induction false} LinesMatch(a: seq<string>, b: seq<string>, directory: Directory, hashes: Hashes)
    requires forall path :: path in a ==> path in directory
    requires forall path :: path in b ==> path in directory
    requires multiset(a) == multiset(b)
    ensures multiset(Lines(FilesIn(a, directory, hashes))) == multiset(Lines(FilesIn(b, directory, hashes)))
    decreases |a|
  {
    if a == [] {
      assert |multiset(b)| == |b|;
      assert b == [];
    } else {
      var before, after := PlaceOf(a, b);
      LinesMatch(a[1..], before + after, directory, hashes);
      LinesOfSplit(a[0], [], a[1..], directory, hashes);
      LinesOfSplit(a[0], before, after, directory, hashes);
      assert [] + [a[0]] + a[1..] == a && [] + a[1..] == a[1..];
    }
  }

  lemma {:induction false} LinesJoin(a: seq<File>, b: seq<File>)
    ensures Lines(a + b) == Lines(a) + Lines(b)
  {
    if a == [] {
      assert a + b == b;
    } else {
      assert (a + b)[1..] == a[1..] + b;
      LinesJoin(a[1..], b);
    }
  }

  lemma LinesOfOne(path: string, directory: Directory, hashes: Hashes)
    requires path in directory
    ensures Lines(FilesIn([path], directory, hashes)) == [Line(FileOf(directory, path, hashes))]
  {
    var one := FilesIn([path], directory, hashes);
    assert one == [FileOf(directory, path, hashes)] && one[1..] == [];
    assert Lines(one[1..]) == [];
  }

  lemma LinesOfParts(a: seq<string>, b: seq<string>, directory: Directory, hashes: Hashes)
    requires (forall p :: p in a ==> p in directory) && (forall p :: p in b ==> p in directory)
    ensures Lines(FilesIn(a + b, directory, hashes)) == Lines(FilesIn(a, directory, hashes)) + Lines(FilesIn(b, directory, hashes))
  {
    assert FilesIn(a + b, directory, hashes) == FilesIn(a, directory, hashes) + FilesIn(b, directory, hashes);
    LinesJoin(FilesIn(a, directory, hashes), FilesIn(b, directory, hashes));
  }

  // Where a path stands in a listing makes no difference to the lines it has.
  lemma LinesOfSplit(path: string, before: seq<string>, after: seq<string>, directory: Directory, hashes: Hashes)
    requires path in directory
    requires forall p :: p in before ==> p in directory
    requires forall p :: p in after ==> p in directory
    ensures multiset(Lines(FilesIn(before + [path] + after, directory, hashes)))
            == multiset(Lines(FilesIn(before + after, directory, hashes))) + multiset{Line(FileOf(directory, path, hashes))}
  {
    LinesOfOne(path, directory, hashes);
    LinesOfParts(before + [path], after, directory, hashes);
    LinesOfParts(before, [path], directory, hashes);
    LinesOfParts(before, after, directory, hashes);
  }

  lemma {:induction false} CountedOnce(listing: seq<string>, path: string)
    requires forall i, j :: 0 <= i < j < |listing| ==> listing[i] != listing[j]
    ensures multiset(listing)[path] == if path in listing then 1 else 0
  {
    if listing != [] {
      CountedOnce(listing[1..], path);
      assert listing == [listing[0]] + listing[1..];
      assert multiset(listing) == multiset{listing[0]} + multiset(listing[1..]);
    }
  }

  // A directory has one digest, however it is listed.
  lemma DigestOfDirectory(a: seq<string>, b: seq<string>, directory: Directory, hashes: Hashes)
    requires Lists(a, directory) && Lists(b, directory)
    ensures RuntimeDigest(a, directory, hashes) == RuntimeDigest(b, directory, hashes)
  {
    forall path
      ensures multiset(a)[path] == multiset(b)[path]
    {
      CountedOnce(a, path);
      CountedOnce(b, path);
    }
    assert multiset(a) == multiset(b);
    LinesMatch(a, b, directory, hashes);
    ListingOrderIsLost(Lines(FilesIn(a, directory, hashes)), Lines(FilesIn(b, directory, hashes)));
  }

  predicate IsPath(path: string) { FirstOf(path, NUL) == |path| }

  // A file of one directory is in another's listing when their files are the same.
  lemma FileIsThere(a: seq<string>, x: Directory, b: seq<string>, y: Directory, hashes: Hashes, path: string)
    requires Lists(a, x) && Lists(b, y) && path in x
    requires forall file :: file in FilesIn(a, x, hashes) ==> file in FilesIn(b, y, hashes)
    ensures path in y && hashes.ofBytes(x[path]) == hashes.ofBytes(y[path])
  {
    var i :| 0 <= i < |a| && a[i] == path;
    assert FilesIn(a, x, hashes)[i] == FileOf(x, path, hashes);
    assert FileOf(x, path, hashes) in FilesIn(b, y, hashes);
    var j :| 0 <= j < |FilesIn(b, y, hashes)| && FilesIn(b, y, hashes)[j] == FileOf(x, path, hashes);
    assert FileOf(y, b[j], hashes) == FileOf(x, path, hashes);
  }

  lemma FilesAreEncodable(listing: seq<string>, directory: Directory, hashes: Hashes)
    requires Hexadecimal(hashes) && Lists(listing, directory) && forall path :: path in listing ==> IsPath(path)
    ensures forall i :: 0 <= i < |listing| ==> Encodable(FilesIn(listing, directory, hashes)[i])
  {
    forall i | 0 <= i < |listing|
      ensures Encodable(FilesIn(listing, directory, hashes)[i])
    {
      assert listing[i] in listing;
      assert FilesIn(listing, directory, hashes)[i] == FileOf(directory, listing[i], hashes);
    }
  }

  // The same paths and, at each, contents of the same hash.
  predicate SameContents(x: Directory, y: Directory, hashes: Hashes) {
    x.Keys == y.Keys && forall path :: path in x && path in y ==> hashes.ofBytes(x[path]) == hashes.ofBytes(y[path])
  }

  lemma SameFilesSameDigest(a: seq<string>, x: Directory, b: seq<string>, y: Directory, hashes: Hashes)
    requires Lists(a, x) && Lists(b, y) && SameContents(x, y, hashes)
    ensures RuntimeDigest(a, x, hashes) == RuntimeDigest(b, y, hashes)
  {
    assert Lists(b, x);
    forall i | 0 <= i < |b|
      ensures FilesIn(b, x, hashes)[i] == FilesIn(b, y, hashes)[i]
    {
      assert b[i] in x && b[i] in y;
    }
    assert FilesIn(b, x, hashes) == FilesIn(b, y, hashes);
    DigestOfDirectory(a, b, x, hashes);
  }

  // Directories of the same files have one digest, and directories of one digest hold the same
  // files, or else their two encodings are different texts of one hash.
  lemma SameDigestSameFiles(a: seq<string>, x: Directory, b: seq<string>, y: Directory, hashes: Hashes)
    requires Hexadecimal(hashes) && Lists(a, x) && Lists(b, y)
    requires (forall path :: path in a ==> IsPath(path)) && (forall path :: path in b ==> IsPath(path))
    ensures var text, other := Encoding(FilesIn(a, x, hashes)), Encoding(FilesIn(b, y, hashes));
            RuntimeDigest(a, x, hashes) == RuntimeDigest(b, y, hashes)
            <==> SameContents(x, y, hashes) || (text != other && hashes.ofText(text) == hashes.ofText(other))
  {
    if SameContents(x, y, hashes) {
      SameFilesSameDigest(a, x, b, y, hashes);
    } else if Encoding(FilesIn(a, x, hashes)) == Encoding(FilesIn(b, y, hashes)) {
      SameTextSameFiles(a, x, b, y, hashes);
    }
  }

  lemma SameTextSameFiles(a: seq<string>, x: Directory, b: seq<string>, y: Directory, hashes: Hashes)
    requires Hexadecimal(hashes) && Lists(a, x) && Lists(b, y)
    requires (forall path :: path in a ==> IsPath(path)) && (forall path :: path in b ==> IsPath(path))
    requires Encoding(FilesIn(a, x, hashes)) == Encoding(FilesIn(b, y, hashes))
    ensures SameContents(x, y, hashes)
  {
    FilesAreEncodable(a, x, hashes);
    FilesAreEncodable(b, y, hashes);
    EncodingIsInjective(FilesIn(a, x, hashes), FilesIn(b, y, hashes));
    forall path | path in x
      ensures path in y && hashes.ofBytes(x[path]) == hashes.ofBytes(y[path])
    {
      FileIsThere(a, x, b, y, hashes, path);
    }
    forall path | path in y
      ensures path in x
    {
      FileIsThere(b, y, a, x, hashes, path);
    }
  }

  /* ----- staging ----- */

  // One name the walk of the source found: a regular file, or a link or anything else.
  datatype Found = Found(path: string, regular: bool, source: Source)

  datatype Outcome = Refused | Failed | Started(entry: string, copy: Directory)

  // The copy made of the files found: exactly the bytes read of each.
  predicate IsCopy(copy: Directory, found: seq<Found>) {
    && (forall i :: 0 <= i < |found| ==>
          found[i].path in copy && found[i].source.Readable? && copy[found[i].path] == Written(found[i].source.blocks))
    && (forall path :: path in copy ==> exists i :: 0 <= i < |found| && found[i].path == path)
  }

  predicate CanCopy(found: seq<Found>) {
    && (forall i :: 0 <= i < |found| ==> found[i].source.Readable?)
    && (forall i, j :: 0 <= i < j < |found| ==> found[i].path != found[j].path)
  }

  function Paths(found: seq<Found>): (paths: seq<string>)
    ensures |paths| == |found| && forall i :: 0 <= i < |found| ==> paths[i] == found[i].path
  {
    seq(|found|, i requires 0 <= i < |found| => found[i].path)
  }

  // Copies what was found into a new directory: a line for each file of the bytes written. A
  // file that has vanished is refused; a path met twice fails, since its copy exists.
  method CopyAll(found: seq<Found>, hashes: Hashes) returns (copy: Result<Directory, Outcome>, lines: seq<string>)
    ensures copy.Ok? <==> CanCopy(found)
    ensures copy.Err? ==> copy.error == Refused || copy.error == Failed
    ensures copy.Ok? ==> CopiedWith(copy.value, found, lines, hashes)
  {
    var made: Directory := map[];
    lines := [];
    for i := 0 to |found|
      invariant CanCopy(found[..i]) && CopiedWith(made, found[..i], lines, hashes)
    {
      var here := found[i];
      assert found[..i + 1] == found[..i] + [here];
      if here.source.Missing? {
        return Err(Refused), lines;
      }
      if here.path in made {
        MetTwice(made, found, i, lines, hashes);
        return Err(Failed), lines;
      }
      var written, hash := Copied(here.source.blocks, hashes);
      CopyGrows(made, found[..i], here, lines, hashes);
      made := made[here.path := written];
      lines := lines + [Line(File(here.path, hash))];
    }
    assert found[..|found|] == found;
    copy := Ok(made);
  }

  // The copy of some files, and a line for each of the bytes written.
  ghost predicate CopiedWith(copy: Directory, found: seq<Found>, lines: seq<string>, hashes: Hashes) {
    IsCopy(copy, found) && Lists(Paths(found), copy) && lines == Lines(FilesIn(Paths(found), copy, hashes))
  }

  lemma MetTwice(made: Directory, found: seq<Found>, i: nat, lines: seq<string>, hashes: Hashes)
    requires i < |found| && CopiedWith(made, found[..i], lines, hashes) && found[i].path in made
    ensures !CanCopy(found)
  {
    var k :| 0 <= k < i && found[..i][k].path == found[i].path;
    assert found[k].path == found[i].path;
  }

  lemma ListGrows(made: Directory, found: seq<Found>, here: Found, written: Bytes)
    requires CanCopy(found) && IsCopy(made, found) && Lists(Paths(found), made)
    requires here.source.Readable? && here.path !in made && written == Written(here.source.blocks)
    ensures CanCopy(found + [here]) && IsCopy(made[here.path := written], found + [here])
  {
    var next, all := made[here.path := written], found + [here];
    assert all[|found|] == here && forall i :: 0 <= i < |found| ==> all[i] == found[i];
    forall path | path in next
      ensures exists i :: 0 <= i < |all| && all[i].path == path
    {
      if path in made {
        var i :| 0 <= i < |found| && found[i].path == path;
        assert all[i].path == path;
      } else {
        assert all[|found|].path == path;
      }
    }
  }

  lemma CopyIsListed(copy: Directory, found: seq<Found>)
    requires CanCopy(found) && IsCopy(copy, found)
    ensures Lists(Paths(found), copy)
  {
    forall path | path in copy
      ensures path in Paths(found)
    {
      var i :| 0 <= i < |found| && found[i].path == path;
      assert Paths(found)[i] == path;
    }
  }

  lemma LinesGrow(made: Directory, paths: seq<string>, path: string, written: Bytes, hashes: Hashes)
    requires (forall p :: p in paths ==> p in made) && path !in made
    ensures forall p :: p in paths + [path] ==> p in made[path := written]
    ensures Lines(FilesIn(paths + [path], made[path := written], hashes))
            == Lines(FilesIn(paths, made, hashes)) + [Line(File(path, hashes.ofBytes(written)))]
  {
    var one := [File(path, hashes.ofBytes(written))];
    assert FilesIn(paths + [path], made[path := written], hashes) == FilesIn(paths, made, hashes) + one;
    LinesJoin(FilesIn(paths, made, hashes), one);
    assert Lines(one) == [Line(one[0])] + Lines(one[1..]) && one[1..] == [];
  }

  lemma CopyGrows(made: Directory, found: seq<Found>, here: Found, lines: seq<string>, hashes: Hashes)
    requires CanCopy(found) && CopiedWith(made, found, lines, hashes)
    requires here.source.Readable? && here.path !in made
    ensures var written := Written(here.source.blocks);
            && CanCopy(found + [here])
            && CopiedWith(made[here.path := written], found + [here],
                 lines + [Line(File(here.path, hashes.ofBytes(written)))], hashes)
  {
    var written := Written(here.source.blocks);
    ListGrows(made, found, here, written);
    CopyIsListed(made[here.path := written], found + [here]);
    LinesGrow(made, Paths(found), here.path, written, hashes);
    assert Paths(found + [here]) == Paths(found) + [here.path];
  }

  // The call's copy, verified: started only when everything found was a file that could be
  // copied, the entry is native code, and the digest of what was written is the pinned one.
  method Staged(found: seq<Found>, entry: string, native: Bytes -> bool, pinned: string, hashes: Hashes)
    returns (outcome: Outcome)
    ensures outcome.Started? ==>
              && outcome.entry == entry && IsCopy(outcome.copy, found)
              && (forall i :: 0 <= i < |found| ==> found[i].regular)
              && entry in outcome.copy && native(outcome.copy[entry])
              && (forall listing :: Lists(listing, outcome.copy) ==> RuntimeDigest(listing, outcome.copy, hashes) == pinned)
    ensures !outcome.Started? ==>
              || (exists i :: 0 <= i < |found| && !found[i].regular)
              || !CanCopy(found)
              || (forall copy :: IsCopy(copy, found) ==>
                    entry !in copy || !native(copy[entry]) || RuntimeDigest(Paths(found), copy, hashes) != pinned)
  {
    if exists i :: 0 <= i < |found| && !found[i].regular {
      return Refused;
    }
    var copied, lines := CopyAll(found, hashes);
    if copied.Err? {
      return copied.error;
    }
    var copy := copied.value;
    forall other | IsCopy(other, found)
      ensures other == copy
    {
      OneCopy(copy, other, found);
    }
    if entry !in copy || !native(copy[entry]) {
      return Refused;
    }
    if hashes.ofText(Joined(Sorted(lines))) != pinned {
      return Refused;
    }
    forall listing | Lists(listing, copy)
      ensures RuntimeDigest(listing, copy, hashes) == pinned
    {
      DigestOfDirectory(listing, Paths(found), copy, hashes);
    }
    outcome := Started(entry, copy);
  }

  lemma OneCopy(a: Directory, b: Directory, found: seq<Found>)
    requires IsCopy(a, found) && IsCopy(b, found)
    ensures a == b
  {
    forall path
      ensures path in a <==> path in b
      ensures path in a ==> a[path] == b[path]
    {
      if path in a {
        var i :| 0 <= i < |found| && found[i].path == path;
      }
      if path in b {
        var i :| 0 <= i < |found| && found[i].path == path;
      }
    }
  }
}
