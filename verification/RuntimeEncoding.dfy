// The text a runtime directory is pinned by: one line per file, its path, a NUL, the hash of
// its bytes and a line feed; sorted, so that no listing order shows in it.
module RuntimeEncoding {
  import opened Texts

  const NUL: char := 0 as char
  const LF: char := '\n'

  // A hash in hexadecimal has so many characters.
  const HASH_LENGTH: nat := 64

  datatype File = File(path: string, hash: string)

  // A path is any text without a NUL -- line feeds and all.
  predicate Encodable(file: File) {
    |file.hash| == HASH_LENGTH && FirstOf(file.path, NUL) == |file.path|
  }

  function Line(file: File): string { file.path + [NUL] + file.hash + [LF] }

  function Joined(lines: seq<string>): string {
    if lines == [] then "" else lines[0] + Joined(lines[1..])
  }

  function Lines(files: seq<File>): seq<string> {
    if files == [] then [] else [Line(files[0])] + Lines(files[1..])
  }

  /* ----- reading the text back ----- */

  lemma FindsTheNul(path: string, rest: string)
    requires FirstOf(path, NUL) == |path|
    ensures FirstOf(path + [NUL] + rest, NUL) == |path|
  {
    var s := path + [NUL] + rest;
    assert s[|path|] == NUL;
    assert forall j :: 0 <= j < |path| ==> s[j] == path[j];
  }

  // The files a text encodes, read line by line; the rest when it is cut short.
  function FilesOf(text: string): seq<File>
    decreases |text|
  {
    var nul := FirstOf(text, NUL);
    if |text| < nul + HASH_LENGTH + 2 then []
    else [File(text[..nul], text[nul + 1..nul + 1 + HASH_LENGTH])] + FilesOf(text[nul + HASH_LENGTH + 2..])
  }

  lemma FirstLine(file: File, rest: string)
    requires Encodable(file)
    ensures FilesOf(Line(file) + rest) == [file] + FilesOf(rest)
  {
    var text := Line(file) + rest;
    assert text == file.path + [NUL] + (file.hash + [LF] + rest);
    FindsTheNul(file.path, file.hash + [LF] + rest);
    FirstParts(text, file.path, file.hash, rest);
  }

  lemma FirstParts(text: string, path: string, hash: string, rest: string)
    requires text == path + [NUL] + (hash + [LF] + rest) && |hash| == HASH_LENGTH
    ensures text[..|path|] == path
    ensures |text| == |path| + HASH_LENGTH + 2 + |rest|
    ensures text[|path| + 1..|path| + 1 + HASH_LENGTH] == hash && text[|path| + HASH_LENGTH + 2..] == rest
  {
    var after := hash + [LF] + rest;
    assert text[|path| + 1..] == after;
    assert after[..|hash|] == hash && after[|hash| + 1..] == rest;
  }

  // Lines joined read back as the files they were written from.
  lemma {:induction false} ReadsBack(files: seq<File>)
    requires forall i :: 0 <= i < |files| ==> Encodable(files[i])
    ensures FilesOf(Joined(Lines(files))) == files
  {
    if files != [] {
      ReadsBack(files[1..]);
      assert Lines(files)[1..] == Lines(files[1..]);
      FirstLine(files[0], Joined(Lines(files[1..])));
    }
  }

  /* ----- sorting ----- */

  // Whether one text is no greater than another, character by character.
  predicate NoGreater(a: string, b: string) {
    a == "" || (b != "" && (a[0] < b[0] || (a[0] == b[0] && NoGreater(a[1..], b[1..]))))
  }

  lemma {:induction false} TotalOrder(a: string, b: string)
    ensures NoGreater(a, b) || NoGreater(b, a)
    ensures NoGreater(a, b) && NoGreater(b, a) ==> a == b
  {
    if a != "" && b != "" {
      TotalOrder(a[1..], b[1..]);
      if a[0] == b[0] && a[1..] == b[1..] {
        assert a == [a[0]] + a[1..] && b == [b[0]] + b[1..];
      }
    }
  }

  lemma {:induction false} OrderChains(a: string, b: string, c: string)
    requires NoGreater(a, b) && NoGreater(b, c)
    ensures NoGreater(a, c)
  {
    if a != "" && a[0] == b[0] && b[0] == c[0] {
      OrderChains(a[1..], b[1..], c[1..]);
    }
  }

  predicate InOrder(lines: seq<string>) {
    forall i, j :: 0 <= i < j < |lines| ==> NoGreater(lines[i], lines[j])
  }

  function Inserted(line: string, lines: seq<string>): seq<string> {
    if lines == [] || NoGreater(line, lines[0]) then [line] + lines
    else [lines[0]] + Inserted(line, lines[1..])
  }

  function Sorted(lines: seq<string>): seq<string> {
    if lines == [] then [] else Inserted(lines[0], Sorted(lines[1..]))
  }

  lemma {:induction false} InsertedHas(line: string, lines: seq<string>)
    ensures multiset(Inserted(line, lines)) == multiset(lines) + multiset{line}
  {
    if lines == [] || NoGreater(line, lines[0]) {
    } else {
      InsertedHas(line, lines[1..]);
      assert lines == [lines[0]] + lines[1..];
    }
  }

  lemma {:induction false} InsertedInOrder(line: string, lines: seq<string>)
    requires InOrder(lines)
    ensures InOrder(Inserted(line, lines))
  {
    if lines == [] {
    } else if NoGreater(line, lines[0]) {
      forall j | 0 <= j < |lines|
        ensures NoGreater(line, lines[j])
      {
        if j > 0 {
          OrderChains(line, lines[0], lines[j]);
        }
      }
    } else {
      InsertedInOrder(line, lines[1..]);
      TotalOrder(line, lines[0]);
      var rest := Inserted(line, lines[1..]);
      InsertedHas(line, lines[1..]);
      forall j | 0 <= j < |rest|
        ensures NoGreater(lines[0], rest[j])
      {
        assert rest[j] in multiset(rest);
        assert rest[j] == line || rest[j] in lines[1..];
      }
    }
  }

  // Sorting keeps the lines and orders them.
  lemma {:induction false} SortedIsOrdered(lines: seq<string>)
    ensures InOrder(Sorted(lines)) && multiset(Sorted(lines)) == multiset(lines)
  {
    if lines != [] {
      SortedIsOrdered(lines[1..]);
      InsertedInOrder(lines[0], Sorted(lines[1..]));
      InsertedHas(lines[0], Sorted(lines[1..]));
      assert lines == [lines[0]] + lines[1..];
    }
  }

  lemma {:induction false} InBoth(lines: seq<string>, other: seq<string>)
    requires multiset(lines) == multiset(other)
    ensures forall line :: line in lines <==> line in other
  {
    forall line
      ensures line in lines <==> line in other
    {
      assert line in lines <==> line in multiset(lines);
      assert line in other <==> line in multiset(other);
    }
  }

  lemma HeadsAgree(a: seq<string>, b: seq<string>)
    requires InOrder(a) && InOrder(b) && a != [] && b != []
    requires forall line :: line in a <==> line in b
    ensures a[0] == b[0]
  {
    assert a[0] in b && b[0] in a;
    var i :| 0 <= i < |b| && b[i] == a[0];
    var j :| 0 <= j < |a| && a[j] == b[0];
    TotalOrder(a[0], b[0]);
  }

  lemma TailsAgree(a: seq<string>, b: seq<string>)
    requires a != [] && b != [] && a[0] == b[0] && multiset(a) == multiset(b)
    ensures multiset(a[1..]) == multiset(b[1..])
  {
    assert a == [a[0]] + a[1..] && b == [b[0]] + b[1..];
    assert multiset(a[1..]) == multiset(a) - multiset{a[0]};
    assert multiset(b[1..]) == multiset(b) - multiset{b[0]};
  }

  lemma {:induction false} OneOrder(a: seq<string>, b: seq<string>)
    requires InOrder(a) && InOrder(b) && multiset(a) == multiset(b)
    ensures a == b
  {
    assert |a| == |multiset(a)| && |b| == |multiset(b)|;
    if a != [] {
      InBoth(a, b);
      HeadsAgree(a, b);
      TailsAgree(a, b);
      OneOrder(a[1..], b[1..]);
      assert a == [a[0]] + a[1..] && b == [b[0]] + b[1..];
    }
  }

  // The same lines sort the same, however they were listed.
  lemma ListingOrderIsLost(a: seq<string>, b: seq<string>)
    requires multiset(a) == multiset(b)
    ensures Sorted(a) == Sorted(b)
  {
    SortedIsOrdered(a);
    SortedIsOrdered(b);
    OneOrder(Sorted(a), Sorted(b));
  }

  /* ----- the encoding of a set of files ----- */

  function Encoding(files: seq<File>): string { Joined(Sorted(Lines(files))) }

  predicate AreLines(lines: seq<string>, files: seq<File>) {
    |lines| == |files| && forall i :: 0 <= i < |lines| ==> lines[i] == Line(files[i])
  }

  lemma {:induction false} LinesAre(files: seq<File>)
    ensures AreLines(Lines(files), files)
  {
    if files != [] {
      LinesAre(files[1..]);
    }
  }

  lemma {:induction false} AreTheLines(lines: seq<string>, files: seq<File>)
    requires AreLines(lines, files)
    ensures lines == Lines(files)
  {
    if files != [] {
      AreTheLines(lines[1..], files[1..]);
    }
  }

  // Every line of some files is one file's.
  lemma {:induction false} SourceOf(files: seq<File>, line: string) returns (i: nat)
    requires line in Lines(files)
    ensures i < |files| && line == Line(files[i])
  {
    LinesAre(files);
    i :| 0 <= i < |files| && Lines(files)[i] == line;
  }

  // Sorted lines are the lines of the same files in some order.
  lemma {:induction false} SortedFiles(lines: seq<string>, files: seq<File>) returns (sorted: seq<File>)
    requires forall line :: line in lines ==> line in Lines(files)
    requires forall i :: 0 <= i < |files| ==> Encodable(files[i])
    ensures lines == Lines(sorted)
    ensures forall i :: 0 <= i < |sorted| ==> sorted[i] in files
    decreases |lines|
  {
    if lines == [] {
      sorted := [];
    } else {
      var i := SourceOf(files, lines[0]);
      var rest := SortedFiles(lines[1..], files);
      sorted := [files[i]] + rest;
    }
  }

  lemma LineInjective(a: File, b: File)
    requires Encodable(a) && Encodable(b) && Line(a) == Line(b)
    ensures a == b
  {
    FirstLine(a, "");
    FirstLine(b, "");
    assert Line(a) + "" == Line(a) && Line(b) + "" == Line(b);
    assert ([a] + FilesOf(""))[0] == a && ([b] + FilesOf(""))[0] == b;
  }

  // Equal encodings are of the same files: no two sets of files, whatever their paths hold,
  // share a text.
  lemma EncodingIsInjective(a: seq<File>, b: seq<File>)
    requires (forall i :: 0 <= i < |a| ==> Encodable(a[i])) && (forall i :: 0 <= i < |b| ==> Encodable(b[i]))
    ensures Encoding(a) == Encoding(b) <==> multiset(Lines(a)) == multiset(Lines(b))
    ensures Encoding(a) == Encoding(b) ==> forall file :: file in a <==> file in b
  {
    SortedIsOrdered(Lines(a));
    SortedIsOrdered(Lines(b));
    InBoth(Sorted(Lines(a)), Lines(a));
    InBoth(Sorted(Lines(b)), Lines(b));
    var x := SortedFiles(Sorted(Lines(a)), a);
    var y := SortedFiles(Sorted(Lines(b)), b);
    if multiset(Lines(a)) == multiset(Lines(b)) {
      ListingOrderIsLost(Lines(a), Lines(b));
    }
    if Encoding(a) == Encoding(b) {
      ReadsBack(x);
      ReadsBack(y);
      assert x == y;
      SameFiles(a, b);
      SameFiles(b, a);
    }
  }

  lemma SameFiles(a: seq<File>, b: seq<File>)
    requires (forall i :: 0 <= i < |a| ==> Encodable(a[i])) && (forall i :: 0 <= i < |b| ==> Encodable(b[i]))
    requires multiset(Lines(a)) == multiset(Lines(b))
    ensures forall file :: file in a ==> file in b
  {
    InBoth(Lines(a), Lines(b));
    forall file | file in a
      ensures file in b
    {
      LinesAre(a);
      var i :| 0 <= i < |a| && a[i] == file;
      assert Lines(a)[i] in Lines(a);
      var j := SourceOf(b, Line(file));
      LineInjective(file, b[j]);
    }
  }
}
