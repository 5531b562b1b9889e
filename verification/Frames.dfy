// The frames of a case stream as bytes, and two readers of them: the deployment check's
// line reader with its resume cursor, and a browser following section 9.2 of the WHATWG
// HTML standard. A stream may be cut after any byte.
module Frames {
  import opened Wrappers
  import opened EventNames
  import opened Digits
  import opened Markers
  import opened Texts

  // What one yield of the tail puts on the wire.
  datatype Sent =
    | Beat
    | CursorFrame(id: Marker)
    | NamedFrame(id: Marker, name: EventName)

  const RETRY_MS := "500"

  function FrameText(sent: Sent): string {
    match sent
    case Beat => ":\n\n"
    case CursorFrame(id) => "retry: " + RETRY_MS + "\nid: " + id.Text() + "\n\n"
    case NamedFrame(id, name) => "id: " + id.Text() + "\nevent: " + Spelled(name) + "\ndata: {}\n\n"
  }

  function Wire(sent: seq<Sent>): string {
    if sent == [] then "" else FrameText(sent[0]) + Wire(sent[1..])
  }

  /* ----- lines ----- */

  // The stream's lines as they are read, each with its newline; the last may lack one.
  function Lines(s: string): seq<string> {
    if s == "" then []
    else
      var end := FirstOf(s, '\n');
      if end == |s| then [s] else [s[..end + 1]] + Lines(s[end + 1..])
  }

  // A line without its trailing carriage returns and newlines.
  function Stripped(line: string): string {
    if line != "" && (line[|line| - 1] == '\n' || line[|line| - 1] == '\r')
    then Stripped(line[..|line| - 1])
    else line
  }

  // The whole frames among some lines, each as its lines; lines that no blank one follows make
  // up none.
  function WholeFrames(lines: seq<string>, got: seq<string>): seq<seq<string>> {
    if lines == [] then []
    else if Stripped(lines[0]) == "" then [got] + WholeFrames(lines[1..], [])
    else WholeFrames(lines[1..], got + [Stripped(lines[0])])
  }

  // The lines one frame is written as, its closing blank line apart.
  function LinesOf(sent: Sent): seq<string> {
    match sent
    case Beat => [":"]
    case CursorFrame(id) => ["retry: " + RETRY_MS, "id: " + id.Text()]
    case NamedFrame(id, name) => ["id: " + id.Text(), "event: " + Spelled(name), "data: {}"]
  }

  function AllLines(sent: seq<Sent>): (all: seq<seq<string>>)
    ensures |all| == |sent|
  {
    if sent == [] then [] else [LinesOf(sent[0])] + AllLines(sent[1..])
  }

  predicate CleanLine(line: string) {
    line != "" && '\n' !in line && '\r' !in line
  }

  function Joined(lines: seq<string>): string {
    if lines == [] then "" else lines[0] + "\n" + Joined(lines[1..])
  }

  lemma MarkerTextIsClean(id: Marker)
    ensures CleanLine(id.Text())
    ensures ':' !in id.Text() && ' ' !in id.Text()
  {
    var a, b := Written(id.auditSeq), Written(id.runSeq);
    assert forall i :: 0 <= i < |a| ==> IsDigit(a[i]);
    assert forall i :: 0 <= i < |b| ==> IsDigit(b[i]);
  }

  lemma SpelledIsClean(name: EventName)
    ensures CleanLine("event: " + Spelled(name))
  {
    match name
    case RunProgress =>
    case HandoffAccepted =>
    case RunTerminal =>
    case SourcesChanged =>
    case RunsChanged =>
    case FilingChanged =>
  }

  lemma {:induction false} JoinedTwo(a: string, b: string)
    ensures Joined([a, b]) == a + "\n" + b + "\n"
  {
    assert [a, b][1..] == [b];
    assert [b][1..] == [];
    assert Joined([b]) == b + "\n";
  }

  lemma {:induction false} JoinedThree(a: string, b: string, c: string)
    ensures Joined([a, b, c]) == a + "\n" + b + "\n" + c + "\n"
  {
    assert [a, b, c][1..] == [b, c];
    JoinedTwo(b, c);
  }

  lemma CursorSplits(t: string)
    ensures "retry: " + RETRY_MS + "\nid: " + t + "\n\n" == ("retry: " + RETRY_MS) + "\n" + ("id: " + t) + "\n" + "\n"
  {
    assert "\nid: " == "\n" + "id: ";
    assert "\n\n" == "\n" + "\n";
  }

  lemma NamedSplits(t: string, n: string)
    ensures "id: " + t + "\nevent: " + n + "\ndata: {}\n\n"
            == ("id: " + t) + "\n" + ("event: " + n) + "\n" + "data: {}" + "\n" + "\n"
  {
    var a, b, c := "id: " + t, "\nevent: ", "\ndata: {}\n\n";
    assert b == "\n" + "event: ";
    assert c == "\n" + "data: {}" + "\n" + "\n";
    assert a + b + n == a + "\n" + ("event: " + n);
    var x := a + "\n" + ("event: " + n);
    assert x + c == x + "\n" + "data: {}" + "\n" + "\n";
  }

  lemma FrameIsLines(sent: Sent)
    ensures FrameText(sent) == Joined(LinesOf(sent)) + "\n"
    ensures forall i :: 0 <= i < |LinesOf(sent)| ==> CleanLine(LinesOf(sent)[i])
  {
    match sent
    case Beat =>
      assert Joined([":"]) == ":\n";
    case CursorFrame(id) =>
      MarkerTextIsClean(id);
      CursorSplits(id.Text());
      JoinedTwo("retry: " + RETRY_MS, "id: " + id.Text());
    case NamedFrame(id, name) =>
      MarkerTextIsClean(id);
      SpelledIsClean(name);
      NamedSplits(id.Text(), Spelled(name));
      JoinedThree("id: " + id.Text(), "event: " + Spelled(name), "data: {}");
  }

  /* ----- cuts ----- */

  lemma StrippedClean(line: string)
    requires CleanLine(line)
    ensures Stripped(line) == line
    ensures Stripped(line + "\n") == line
  {
    assert line[|line| - 1] in line;
    assert (line + "\n")[..|line|] == line;
  }

  lemma FirstLine(line: string, rest: string)
    requires CleanLine(line)
    ensures Lines(line + "\n" + rest) == [line + "\n"] + Lines(rest)
  {
    var s := line + "\n" + rest;
    assert s[|line|] == '\n';
    assert forall j :: 0 <= j < |line| ==> s[j] == line[j] && line[j] in line;
    assert FirstOf(s, '\n') == |line|;
    assert s[..|line| + 1] == line + "\n";
    assert s[|line| + 1..] == rest;
  }

  // A text cut anywhere inside a frame's lines holds no whole frame.
  // Stripping takes off every carriage return and newline at a line's end, and nothing else.
  lemma {:induction false} StrippedIs(line: string, end: string)
    requires forall i :: 0 <= i < |end| ==> end[i] == '\n' || end[i] == '\r'
    requires line == "" || (line[|line| - 1] != '\n' && line[|line| - 1] != '\r')
    ensures Stripped(line + end) == line
    decreases |end|
  {
    if end == "" {
      assert line + end == line;
    } else {
      assert (line + end)[..|line + end| - 1] == line + end[..|end| - 1];
      StrippedIs(line, end[..|end| - 1]);
    }
  }

  lemma {:induction false} NoWholeFrame(lines: seq<string>, n: nat, got: seq<string>)
    requires forall i :: 0 <= i < |lines| ==> CleanLine(lines[i])
    requires n <= |Joined(lines)|
    ensures WholeFrames(Lines(Joined(lines)[..n]), got) == []
  {
    if lines == [] || n == 0 {
      assert Joined(lines)[..n] == "";
    } else {
      var line, s := lines[0], Joined(lines)[..n];
      if n <= |line| {
        assert s == line[..n];
        assert CleanLine(s);
        NoNewline(s);
        StrippedClean(s);
        assert Lines(s) == [s];
      } else {
        var k := n - |line| - 1;
        assert s == line + "\n" + Joined(lines[1..])[..k];
        FirstLine(line, Joined(lines[1..])[..k]);
        StrippedClean(line);
        NoWholeFrame(lines[1..], k, got + [line]);
      }
    }
  }

  lemma NoNewline(s: string)
    requires '\n' !in s
    ensures FirstOf(s, '\n') == |s|
  {
    assert forall i :: 0 <= i < |s| ==> s[i] in s;
  }

  lemma BlankLine(rest: string)
    ensures Lines("\n" + rest) == ["\n"] + Lines(rest)
    ensures Stripped("\n") == ""
  {
    var s := "\n" + rest;
    assert s[..1] == "\n" && s[1..] == rest;
    assert "\n"[..0] == "";
  }

  lemma Regroup(line: string, more: string, rest: string)
    ensures (line + "\n" + more) + "\n" + rest == line + "\n" + (more + "\n" + rest)
  {
  }

  lemma LineThenRest(s: string, line: string, tail: string, got: seq<string>)
    requires CleanLine(line) && Stripped(line + "\n") == line
    requires Lines(s) == [line + "\n"] + Lines(tail)
    ensures WholeFrames(Lines(s), got) == WholeFrames(Lines(tail), got + [line])
  {
    assert Lines(s)[1..] == Lines(tail);
  }

  // One clean line read, the rest of the frame still to come.
  lemma LineOfFrame(lines: seq<string>, rest: string, got: seq<string>)
    requires lines != [] && CleanLine(lines[0])
    ensures WholeFrames(Lines(Joined(lines) + "\n" + rest), got)
            == WholeFrames(Lines(Joined(lines[1..]) + "\n" + rest), got + [lines[0]])
  {
    var line, tail := lines[0], Joined(lines[1..]) + "\n" + rest;
    Regroup(line, Joined(lines[1..]), rest);
    var s := Joined(lines) + "\n" + rest;
    assert s == line + "\n" + tail;
    FirstLine(line, tail);
    StrippedClean(line);
    LineThenRest(s, line, tail, got);
  }

  lemma FrameEnds(rest: string, got: seq<string>)
    ensures WholeFrames(Lines(Joined([]) + "\n" + rest), got) == [got] + WholeFrames(Lines(rest), [])
  {
    assert Joined([]) + "\n" + rest == "\n" + rest;
    BlankLine(rest);
  }

  // Whole frames read once a frame's lines, a blank line and the rest follow.
  function ReadOn(lines: seq<string>, rest: string, got: seq<string>): seq<seq<string>> {
    WholeFrames(Lines(Joined(lines) + "\n" + rest), got)
  }

  lemma {:induction false} FrameThenRest(lines: seq<string>, rest: string, got: seq<string>)
    requires forall i :: 0 <= i < |lines| ==> CleanLine(lines[i])
    ensures ReadOn(lines, rest, got) == [got + lines] + WholeFrames(Lines(rest), [])
  {
    if lines == [] {
      FrameEnds(rest, got);
      assert got + lines == got;
    } else {
      calc {
        ReadOn(lines, rest, got);
        { LineOfFrame(lines, rest, got); }
        ReadOn(lines[1..], rest, got + [lines[0]]);
        { FrameThenRest(lines[1..], rest, got + [lines[0]]); }
        [got + [lines[0]] + lines[1..]] + WholeFrames(Lines(rest), []);
        { assert got + lines == got + [lines[0]] + lines[1..]; }
        [got + lines] + WholeFrames(Lines(rest), []);
      }
    }
  }

  // How many frames lie whole within the first `n` bytes.
  function WholeCount(sent: seq<Sent>, n: nat): (k: nat)
    ensures k <= |sent|
  {
    if sent == [] || n < |FrameText(sent[0])| then 0
    else 1 + WholeCount(sent[1..], n - |FrameText(sent[0])|)
  }

  lemma CutInsideFirst(sent: seq<Sent>, n: nat)
    requires sent != [] && n < |FrameText(sent[0])|
    ensures WholeFrames(Lines(Wire(sent)[..n]), []) == []
  {
    var lines := LinesOf(sent[0]);
    FrameIsLines(sent[0]);
    assert Wire(sent)[..n] == Joined(lines)[..n];
    NoWholeFrame(lines, n, []);
  }

  lemma CutAfterFirst(sent: seq<Sent>, n: nat)
    requires sent != [] && |FrameText(sent[0])| <= n <= |Wire(sent)|
    ensures WholeFrames(Lines(Wire(sent)[..n]), [])
            == [LinesOf(sent[0])] + WholeFrames(Lines(Wire(sent[1..])[..n - |FrameText(sent[0])|]), [])
  {
    var text, lines := FrameText(sent[0]), LinesOf(sent[0]);
    var rest := Wire(sent[1..])[..n - |text|];
    FrameIsLines(sent[0]);
    assert Wire(sent)[..n] == text + rest;
    FrameThenRest(lines, rest, []);
    assert [] + lines == lines;
  }

  // Cut after any byte, the stream holds exactly the frames that lie whole before the cut.
  lemma {:induction false} CutKeepsWholeFrames(sent: seq<Sent>, n: nat)
    requires n <= |Wire(sent)|
    ensures WholeFrames(Lines(Wire(sent)[..n]), []) == AllLines(sent[..WholeCount(sent, n)])
  {
    if sent == [] {
    } else if n < |FrameText(sent[0])| {
      CutInsideFirst(sent, n);
    } else {
      var m := n - |FrameText(sent[0])|;
      CutAfterFirst(sent, n);
      CutKeepsWholeFrames(sent[1..], m);
      var k := WholeCount(sent[1..], m);
      assert sent[..k + 1][1..] == sent[1..][..k];
      assert sent[..k + 1][0] == sent[0];
    }
  }

  /* ----- the deployment check's reader ----- */

  datatype Ended = WholeFrame | Closed | Silent

  function Trimmed(s: string): string {
    if s != "" && s[0] in " \t\r\n" then Trimmed(s[1..])
    else if s != "" && s[|s| - 1] in " \t\r\n" then Trimmed(s[..|s| - 1])
    else s
  }

  // The last id a frame's lines give, or the one from before when they give none.
  function IdOf(frame: seq<string>, seen: Option<string>): Option<string> {
    if frame == [] then seen
    else if "id:" <= frame[0] then IdOf(frame[1..], Some(Trimmed(frame[0][3..])))
    else IdOf(frame[1..], seen)
  }

  function IdsOf(frames: seq<seq<string>>, seen: Option<string>): Option<string> {
    if frames == [] then seen else IdsOf(frames[1..], IdOf(frames[0], seen))
  }

  // The id of the last frame carrying one.
  function LastId(sent: seq<Sent>): Option<Marker> {
    if sent == [] then None
    else if sent[|sent| - 1].Beat? then LastId(sent[..|sent| - 1])
    else Some(sent[|sent| - 1].id)
  }

  // Lines none of which is blank, and what they strip to.
  ghost predicate Unfinished(read: seq<string>, got: seq<string>) {
    |read| == |got| && forall i :: 0 <= i < |read| ==> got[i] == Stripped(read[i]) && got[i] != ""
  }

  lemma {:induction false} UnfinishedIsNoFrame(read: seq<string>, got: seq<string>, before: seq<string>)
    requires Unfinished(read, got)
    ensures WholeFrames(read, before) == []
    decreases |read|
  {
    if read != [] {
      UnfinishedIsNoFrame(read[1..], got[1..], before + [got[0]]);
    }
  }

  lemma {:induction false} BlankFinishes(read: seq<string>, got: seq<string>, blank: string, before: seq<string>)
    requires Unfinished(read, got) && Stripped(blank) == ""
    ensures WholeFrames(read + [blank], before) == [before + got]
    decreases |read|
  {
    if read == [] {
      assert read + [blank] == [blank];
      assert before + got == before;
    } else {
      assert (read + [blank])[1..] == read[1..] + [blank];
      BlankFinishes(read[1..], got[1..], blank, before + [got[0]]);
      assert before + got == before + [got[0]] + got[1..];
    }
  }

  // The lines a stretch of the queue gives, its timeouts and its end apart.
  function Given(lines: seq<Option<string>>): seq<string> {
    if lines == [] then []
    else
      var last := lines[|lines| - 1];
      Given(lines[..|lines| - 1]) + if last.Some? && last.value != "" then [last.value] else []
  }

  predicate EndsBlank(read: seq<string>) {
    read == [] || Stripped(read[|read| - 1]) == ""
  }

  lemma {:induction false} FramesJoin(a: seq<string>, b: seq<string>, got: seq<string>)
    requires EndsBlank(a) && (a == [] ==> got == [])
    ensures WholeFrames(a + b, got) == WholeFrames(a, got) + WholeFrames(b, [])
    decreases |a|
  {
    if a == [] {
      assert a + b == b;
    } else {
      assert (a + b)[1..] == a[1..] + b;
      if Stripped(a[0]) == "" {
        FramesJoin(a[1..], b, []);
      } else {
        FramesJoin(a[1..], b, got + [Stripped(a[0])]);
      }
    }
  }

  lemma {:induction false} GivenJoins(a: seq<Option<string>>, b: seq<Option<string>>)
    ensures Given(a + b) == Given(a) + Given(b)
    decreases |b|
  {
    if b == [] {
      assert a + b == a;
    } else {
      assert (a + b)[..|a + b| - 1] == a + b[..|b| - 1];
      GivenJoins(a, b[..|b| - 1]);
    }
  }

  lemma {:induction false} IdsJoin(a: seq<seq<string>>, b: seq<seq<string>>, seen: Option<string>)
    ensures IdsOf(a + b, seen) == IdsOf(b, IdsOf(a, seen))
    decreases |a|
  {
    if a == [] {
      assert a + b == b;
    } else {
      assert (a + b)[1..] == a[1..] + b;
      IdsJoin(a[1..], b, IdOf(a[0], seen));
    }
  }

  lemma OneMoreGiven(lines: seq<Option<string>>, from: nat, next: nat)
    requires from <= next < |lines|
    ensures Given(lines[from..next + 1])
            == if lines[next].Some? && lines[next].value != "" then Given(lines[from..next]) + [lines[next].value]
               else Given(lines[from..next])
  {
    assert lines[from..next + 1][..next - from] == lines[from..next];
    assert Given(lines[from..next]) + [] == Given(lines[from..next]);
  }

  lemma BlankEnds(before: seq<string>, blank: string, frame: seq<string>)
    requires Unfinished(before, frame) && Stripped(blank) == ""
    ensures WholeFrames(before + [blank], []) == [frame] && EndsBlank(before + [blank])
  {
    BlankFinishes(before, frame, blank, []);
    assert [] + frame == frame;
  }

  // One frame from the queue of lines: `None` is a wait that timed out, an empty line the
  // stream's end. A frame is returned exactly when a blank line ended it.
  method NextFrame(lines: seq<Option<string>>, from: nat)
    returns (ended: Ended, frame: seq<string>, next: nat)
    requires from <= |lines|
    ensures from <= next <= |lines|
    ensures WholeFrames(Given(lines[from..next]), []) == if ended.WholeFrame? then [frame] else []
    ensures ended.WholeFrame? ==> from < next && EndsBlank(Given(lines[from..next]))
    ensures ended.Closed? ==> from < next && lines[next - 1] == Some("")
    ensures ended.Silent? ==> next == |lines| || (from < next && lines[next - 1] == None)
  {
    frame := [];
    next := from;
    while next < |lines|
      invariant from <= next <= |lines|
      invariant Unfinished(Given(lines[from..next]), frame)
    {
      var arrived := lines[next];
      ghost var before := Given(lines[from..next]);
      OneMoreGiven(lines, from, next);
      next := next + 1;
      if arrived.None? || arrived.value == "" {
        UnfinishedIsNoFrame(before, frame, []);
        return if arrived.None? then Silent else Closed, frame, next;
      }
      var line := Stripped(arrived.value);
      if line == "" {
        BlankEnds(before, arrived.value, frame);
        return WholeFrame, frame, next;
      }
      frame := frame + [line];
    }
    UnfinishedIsNoFrame(Given(lines[from..next]), frame, []);
    return Silent, frame, next;
  }

  // The resume cursor after one read: only a whole frame's id is one to resume after.
  method EventId(ended: Ended, frame: seq<string>, seen: Option<string>) returns (id: Option<string>)
    ensures id == if ended.WholeFrame? then IdOf(frame, seen) else seen
  {
    id := seen;
    if !ended.WholeFrame? {
      return;
    }
    for i := 0 to |frame|
      invariant IdOf(frame[i..], id) == IdOf(frame, seen)
    {
      assert frame[i..][1..] == frame[i + 1..];
      if "id:" <= frame[i] {
        id := Some(Trimmed(frame[i][3..]));
      }
    }
  }

  // The cursor the first lines of a queue leave: that of their last whole frame with an id.
  ghost function CursorOf(lines: seq<Option<string>>, n: nat, seen: Option<string>): Option<string>
    requires n <= |lines|
  {
    IdsOf(WholeFrames(Given(lines[..n]), []), seen)
  }

  // One more frame read moves the cursor by that frame, or not at all when it did not come whole.
  lemma TailOn(lines: seq<Option<string>>, read: nat, next: nat, whole: bool, frame: seq<string>, seen: Option<string>)
    requires read <= next <= |lines| && EndsBlank(Given(lines[..read]))
    requires WholeFrames(Given(lines[read..next]), []) == if whole then [frame] else []
    requires whole ==> EndsBlank(Given(lines[read..next]))
    ensures CursorOf(lines, next, seen)
            == if whole then IdOf(frame, CursorOf(lines, read, seen)) else CursorOf(lines, read, seen)
    ensures whole ==> EndsBlank(Given(lines[..next]))
  {
    ReadFurther(lines, read, next, seen);
    assert [frame][1..] == [];
  }

  // One tail, read until it ends or a wait runs out. The id that comes of it is that of the
  // last frame that arrived whole.
  method ReadTail(lines: seq<Option<string>>, seen: Option<string>) returns (id: Option<string>, read: nat)
    ensures read <= |lines|
    ensures id == CursorOf(lines, read, seen)
    ensures read == |lines| || (read > 0 && lines[read - 1] in {None, Some("")})
  {
    id, read := seen, 0;
    while true
      invariant read <= |lines|
      invariant EndsBlank(Given(lines[..read]))
      invariant id == CursorOf(lines, read, seen)
      decreases |lines| - read
    {
      var ended, frame, next := NextFrame(lines, read);
      TailOn(lines, read, next, ended.WholeFrame?, frame, seen);
      id := EventId(ended, frame, id);
      read := next;
      if !ended.WholeFrame? {
        return;
      }
    }
  }

  lemma ReadFurther(lines: seq<Option<string>>, read: nat, next: nat, seen: Option<string>)
    requires read <= next <= |lines| && EndsBlank(Given(lines[..read]))
    ensures IdsOf(WholeFrames(Given(lines[..next]), []), seen)
            == IdsOf(WholeFrames(Given(lines[read..next]), []), IdsOf(WholeFrames(Given(lines[..read]), []), seen))
    ensures EndsBlank(Given(lines[read..next])) ==> EndsBlank(Given(lines[..next]))
  {
    var a, b := Given(lines[..read]), Given(lines[read..next]);
    assert lines[..next] == lines[..read] + lines[read..next];
    GivenJoins(lines[..read], lines[read..next]);
    FramesJoin(a, b, []);
    IdsJoin(WholeFrames(a, []), WholeFrames(b, []), seen);
    if b == [] {
      assert a + b == a;
    } else {
      assert (a + b)[|a + b| - 1] == b[|b| - 1];
    }
  }

  lemma {:induction false} TrimmedMarker(s: string)
    requires CleanLine(s) && ' ' !in s && '\t' !in s
    ensures Trimmed(s) == s && Trimmed(" " + s) == s
  {
    assert s[0] in s && s[|s| - 1] in s;
    assert (" " + s)[1..] == s;
  }

  lemma IdLine(id: Marker, seen: Option<string>, rest: seq<string>)
    ensures IdOf(["id: " + id.Text()] + rest, seen) == IdOf(rest, Some(id.Text()))
  {
    var line := "id: " + id.Text();
    MarkerTextIsClean(id);
    TabFree(id);
    TrimmedMarker(id.Text());
    assert line[..3] == "id:";
    assert line[3..] == " " + id.Text();
    assert ([line] + rest)[1..] == rest;
  }

  lemma OtherLine(line: string, seen: Option<string>, rest: seq<string>)
    requires line != "" && line[0] != 'i'
    ensures IdOf([line] + rest, seen) == IdOf(rest, seen)
  {
    assert ([line] + rest)[1..] == rest;
  }

  lemma IdOfFrame(sent: Sent, seen: Option<string>)
    ensures IdOf(LinesOf(sent), seen) == if sent.Beat? then seen else Some(sent.id.Text())
  {
    match sent
    case Beat =>
      OtherLine(":", seen, []);
    case CursorFrame(id) =>
      OtherLine("retry: " + RETRY_MS, seen, ["id: " + id.Text()]);
      IdLine(id, seen, []);
    case NamedFrame(id, name) =>
      var event := "event: " + Spelled(name);
      IdLine(id, seen, [event, "data: {}"]);
      OtherLine(event, Some(id.Text()), ["data: {}"]);
      OtherLine("data: {}", Some(id.Text()), []);
      assert LinesOf(sent) == ["id: " + id.Text()] + [event, "data: {}"];
      assert [event, "data: {}"] == [event] + ["data: {}"];
  }

  lemma TabFree(id: Marker)
    ensures '\t' !in id.Text()
  {
    var a, b := Written(id.auditSeq), Written(id.runSeq);
    assert forall i :: 0 <= i < |a| ==> IsDigit(a[i]);
    assert forall i :: 0 <= i < |b| ==> IsDigit(b[i]);
  }

  lemma {:induction false} IdsOfFrames(sent: seq<Sent>, seen: Option<string>)
    ensures IdsOf(AllLines(sent), seen) == match LastId(sent) case None => seen case Some(id) => Some(id.Text())
    decreases |sent|
  {
    if sent != [] {
      IdOfFrame(sent[0], seen);
      IdsOfFrames(sent[1..], IdOf(LinesOf(sent[0]), seen));
      LastIdFirst(sent);
    }
  }

  lemma {:induction false} LastIdFirst(sent: seq<Sent>)
    requires sent != []
    ensures LastId(sent) ==
            if LastId(sent[1..]).Some? then LastId(sent[1..])
            else if sent[0].Beat? then None else Some(sent[0].id)
    decreases |sent|
  {
    if |sent| > 1 {
      assert sent[1..][|sent[1..]| - 1] == sent[|sent| - 1];
      assert sent[1..][..|sent[1..]| - 1] == sent[..|sent| - 1][1..];
      LastIdFirst(sent[..|sent| - 1]);
    }
  }

  // Cut after any byte, the cursor folded from what arrived is the id of the last frame
  // that arrived whole and carried one -- never that of a frame the cut went through.
  lemma CursorAfterCut(sent: seq<Sent>, n: nat, seen: Option<string>)
    requires n <= |Wire(sent)|
    ensures IdsOf(WholeFrames(Lines(Wire(sent)[..n]), []), seen)
            == match LastId(sent[..WholeCount(sent, n)]) case None => seen case Some(id) => Some(id.Text())
  {
    CutKeepsWholeFrames(sent, n);
    IdsOfFrames(sent[..WholeCount(sent, n)], seen);
  }

  /* ----- no two streams share their bytes ----- */

  lemma {:induction false} AllWhole(sent: seq<Sent>)
    ensures WholeCount(sent, |Wire(sent)|) == |sent|
  {
    if sent != [] {
      AllWhole(sent[1..]);
    }
  }

  lemma SpelledInjective(a: EventName, b: EventName)
    requires Spelled(a) == Spelled(b)
    ensures a == b
  {
    assert forall n: EventName :: |Spelled(n)| in {12, 16, 15, 14} ;
    assert Spelled(RunProgress)[4] == 'p' && Spelled(RunTerminal)[4] == 't' && Spelled(RunsChanged)[4] == '_';
  }

  lemma LinesOfInjective(a: Sent, b: Sent)
    requires LinesOf(a) == LinesOf(b)
    ensures a == b
  {
    assert |LinesOf(a)| == |LinesOf(b)|;
    if a.CursorFrame? {
      assert LinesOf(a)[1][4..] == a.id.Text() && LinesOf(b)[1][4..] == b.id.Text();
      TextInjective(a.id, b.id);
    } else if a.NamedFrame? {
      assert LinesOf(a)[0][4..] == a.id.Text() && LinesOf(b)[0][4..] == b.id.Text();
      TextInjective(a.id, b.id);
      assert LinesOf(a)[1][7..] == Spelled(a.name) && LinesOf(b)[1][7..] == Spelled(b.name);
      SpelledInjective(a.name, b.name);
    }
  }

  lemma {:induction false} AllLinesInjective(a: seq<Sent>, b: seq<Sent>)
    requires AllLines(a) == AllLines(b)
    ensures a == b
  {
    if a != [] {
      assert AllLines(a)[0] == AllLines(b)[0];
      LinesOfInjective(a[0], b[0]);
      assert AllLines(a)[1..] == AllLines(b)[1..];
      AllLinesInjective(a[1..], b[1..]);
      assert a == [a[0]] + a[1..] && b == [b[0]] + b[1..];
    }
  }

  // The bytes give the frames back: two streams of the same bytes are the same frames.
  lemma WireInjective(a: seq<Sent>, b: seq<Sent>)
    requires Wire(a) == Wire(b)
    ensures a == b
  {
    AllWhole(a);
    AllWhole(b);
    CutKeepsWholeFrames(a, |Wire(a)|);
    CutKeepsWholeFrames(b, |Wire(b)|);
    assert a[..|a|] == a && b[..|b|] == b;
    AllLinesInjective(a, b);
  }

  /* ----- a browser's reader ----- */

  datatype Fired = Fired(event: string, data: string, id: string)

  // An event source: its buffers, the id it will resume from, and what it has fired.
  datatype Browser = Browser(idBuffer: string, lastId: string, event: string, data: string, fired: seq<Fired>)

  // One line that is not blank, as section 9.2.6 processes it.
  function Fed(b: Browser, line: string): Browser {
    var colon := FirstOf(line, ':');
    if colon == 0 && line != "" then b
    else
      var field := line[..colon];
      var rest := if colon < |line| then line[colon + 1..] else "";
      var value := if rest != "" && rest[0] == ' ' then rest[1..] else rest;
      if field == "event" then b.(event := value)
      else if field == "data" then b.(data := b.data + value + "\n")
      else if field == "id" then (if '\0' in value then b else b.(idBuffer := value))
      else b
  }

  // A blank line: the id takes effect, and an event fires if it carried data.
  function Dispatched(b: Browser): Browser {
    if b.data == "" then b.(lastId := b.idBuffer, event := "", data := "")
    else
      var kind := if b.event == "" then "message" else b.event;
      b.(lastId := b.idBuffer, event := "", data := "",
         fired := b.fired + [Fired(kind, b.data[..|b.data| - 1], b.idBuffer)])
  }

  function FedAll(b: Browser, lines: seq<string>): Browser
    decreases |lines|
  {
    if lines == [] then b else FedAll(Fed(b, lines[0]), lines[1..])
  }

  // Lines after the last blank one change nothing that lasts: at the end of the stream
  // what is pending is discarded.
  function Browsed(b: Browser, frames: seq<seq<string>>): Browser
    decreases |frames|
  {
    if frames == [] then b else Browsed(Dispatched(FedAll(b, frames[0])), frames[1..])
  }

  function FiredBy(sent: seq<Sent>): seq<Fired> {
    if sent == [] then []
    else if sent[0].NamedFrame? then
      [Fired(Spelled(sent[0].name), "{}", sent[0].id.Text())] + FiredBy(sent[1..])
    else FiredBy(sent[1..])
  }

  lemma FieldLine(b: Browser, field: string, value: string)
    requires ':' !in field && field != ""
    ensures Fed(b, field + ": " + value) ==
            if field == "event" then b.(event := value)
            else if field == "data" then b.(data := b.data + value + "\n")
            else if field == "id" then (if '\0' in value then b else b.(idBuffer := value))
            else b
  {
    var line := field + ": " + value;
    assert forall i :: 0 <= i < |field| ==> line[i] == field[i] && field[i] in field;
    assert line[|field|] == ':';
    assert FirstOf(line, ':') == |field|;
    assert line[..|field|] == field;
    assert line[|field| + 1..] == " " + value;
    assert (" " + value)[1..] == value;
  }

  // Nothing is pending: the next line starts a frame.
  // A line that starts with a colon says nothing; a field without one is empty; a value loses
  // one space before it and no more; and an event of no name is a message.
  lemma LinesAsTheStandardReadsThem(b: Browser, rest: string, value: string)
    requires value != "" && value[0] != ' ' && '\0' !in value
    ensures Fed(b, ":" + rest) == b
    ensures Fed(b, "event") == b.(event := "") && Fed(b, "data") == b.(data := b.data + "\n")
    ensures Fed(b, "id:" + value) == b.(idBuffer := value)
    ensures Fed(b, "id: " + value) == b.(idBuffer := value)
    ensures b.event == "" && b.data != "" ==>
              Dispatched(b).fired == b.fired + [Fired("message", b.data[..|b.data| - 1], b.idBuffer)]
  {
    FirstColon("", rest);
    NoColon("event");
    NoColon("data");
    FirstColon("id", value);
    FirstColon("id", " " + value);
    assert "id:" + value == "id" + ":" + value;
    assert "id: " + value == "id" + ":" + (" " + value);
    assert (" " + value)[1..] == value;
  }

  lemma NoColon(field: string)
    requires ':' !in field
    ensures FirstOf(field, ':') == |field| && field[..|field|] == field
  {
  }

  lemma FirstColon(field: string, rest: string)
    requires ':' !in field
    ensures var line := field + ":" + rest;
            FirstOf(line, ':') == |field| < |line| && line[..|field|] == field && line[|field| + 1..] == rest
  {
    var line := field + ":" + rest;
    assert line[|field|] == ':';
    assert forall j :: 0 <= j < |field| ==> line[j] == field[j];
  }

  predicate AtRest(b: Browser) {
    b.event == "" && b.data == "" && b.idBuffer == b.lastId
  }

  function AfterFrame(b: Browser, sent: Sent): Browser {
    match sent
    case Beat => b
    case CursorFrame(id) => b.(idBuffer := id.Text(), lastId := id.Text())
    case NamedFrame(id, name) =>
      b.(idBuffer := id.Text(), lastId := id.Text(),
         fired := b.fired + [Fired(Spelled(name), "{}", id.Text())])
  }

  lemma BrowsedCursor(b: Browser, id: Marker)
    requires AtRest(b)
    ensures Dispatched(FedAll(b, LinesOf(CursorFrame(id)))) == AfterFrame(b, CursorFrame(id))
  {
    NulFree(id);
    FieldLine(b, "retry", RETRY_MS);
    FieldLine(b, "id", id.Text());
    FedTwo(b, "retry" + ": " + RETRY_MS, "id" + ": " + id.Text());
    assert "retry" + ": " == "retry: " && "id" + ": " == "id: ";
  }

  lemma IdFed(b: Browser, id: Marker)
    ensures Fed(b, "id: " + id.Text()) == b.(idBuffer := id.Text())
  {
    NulFree(id);
    FieldLine(b, "id", id.Text());
    assert "id" + ": " == "id: ";
  }

  lemma EventFed(b: Browser, name: EventName)
    ensures Fed(b, "event: " + Spelled(name)) == b.(event := Spelled(name))
  {
    FieldLine(b, "event", Spelled(name));
    assert "event" + ": " == "event: ";
  }

  lemma DataFed(b: Browser)
    requires b.data == ""
    ensures Fed(b, "data: {}") == b.(data := "{}\n")
  {
    FieldLine(b, "data", "{}");
    assert "data" + ": " + "{}" == "data: {}";
    assert b.data + "{}" + "\n" == "{}\n";
  }

  lemma NamedIsFed(b: Browser, id: Marker, name: EventName)
    requires AtRest(b)
    ensures FedAll(b, LinesOf(NamedFrame(id, name))) ==
            b.(idBuffer := id.Text(), event := Spelled(name), data := "{}\n")
  {
    var one := b.(idBuffer := id.Text());
    var two := one.(event := Spelled(name));
    IdFed(b, id);
    EventFed(one, name);
    DataFed(two);
    FedThree(b, "id: " + id.Text(), "event: " + Spelled(name), "data: {}");
  }

  lemma NamedFires(b: Browser, id: Marker, name: EventName)
    requires AtRest(b)
    ensures Dispatched(b.(idBuffer := id.Text(), event := Spelled(name), data := "{}\n")) == AfterFrame(b, NamedFrame(id, name))
  {
    assert "{}\n"[..2] == "{}";
    assert Spelled(name) != "";
  }

  lemma BrowsedFrame(b: Browser, sent: Sent)
    requires AtRest(b)
    ensures Dispatched(FedAll(b, LinesOf(sent))) == AfterFrame(b, sent)
  {
    match sent
    case Beat =>
      FedOne(b, ":");
    case CursorFrame(id) =>
      BrowsedCursor(b, id);
    case NamedFrame(id, name) =>
      NamedIsFed(b, id, name);
      NamedFires(b, id, name);
  }

  lemma FedOne(b: Browser, x: string)
    ensures FedAll(b, [x]) == Fed(b, x)
  {
    assert [x][1..] == [];
  }

  lemma FedTwo(b: Browser, x: string, y: string)
    ensures FedAll(b, [x, y]) == Fed(Fed(b, x), y)
  {
    assert [x, y][1..] == [y];
    FedOne(Fed(b, x), y);
  }

  lemma FedThree(b: Browser, x: string, y: string, z: string)
    ensures FedAll(b, [x, y, z]) == Fed(Fed(Fed(b, x), y), z)
  {
    assert [x, y, z][1..] == [y, z];
    FedTwo(Fed(b, x), y, z);
  }

  lemma NulFree(id: Marker)
    ensures '\0' !in id.Text()
  {
    var a, b := Written(id.auditSeq), Written(id.runSeq);
    assert forall i :: 0 <= i < |a| ==> IsDigit(a[i]);
    assert forall i :: 0 <= i < |b| ==> IsDigit(b[i]);
  }

  function FiredOf(sent: Sent): seq<Fired> {
    if sent.NamedFrame? then [Fired(Spelled(sent.name), "{}", sent.id.Text())] else []
  }

  lemma AfterFrameRests(b: Browser, sent: Sent)
    requires AtRest(b)
    ensures AtRest(AfterFrame(b, sent)) && AfterFrame(b, sent).fired == b.fired + FiredOf(sent)
    ensures AfterFrame(b, sent).lastId == if sent.Beat? then b.lastId else sent.id.Text()
  {
  }

  lemma {:induction false} BrowsedFrames(b: Browser, sent: seq<Sent>)
    requires AtRest(b)
    ensures var after := Browsed(b, AllLines(sent));
            && after.fired == b.fired + FiredBy(sent)
            && after.lastId == (match LastId(sent) case None => b.lastId case Some(id) => id.Text())
    decreases |sent|
  {
    if sent != [] {
      BrowsedFrame(b, sent[0]);
      AfterFrameRests(b, sent[0]);
      BrowsedFrames(AfterFrame(b, sent[0]), sent[1..]);
      LastIdFirst(sent);
      assert AllLines(sent)[1..] == AllLines(sent[1..]);
      assert FiredBy(sent) == FiredOf(sent[0]) + FiredBy(sent[1..]);
    }
  }

  lemma {:induction false} BrowsedRests(b: Browser, sent: seq<Sent>)
    requires AtRest(b)
    ensures AtRest(Browsed(b, AllLines(sent)))
    decreases |sent|
  {
    if sent != [] {
      BrowsedFrame(b, sent[0]);
      AfterFrameRests(b, sent[0]);
      BrowsedRests(AfterFrame(b, sent[0]), sent[1..]);
      assert AllLines(sent)[1..] == AllLines(sent[1..]);
    }
  }

  // Cut after any byte, a browser has fired exactly the named frames that arrived whole,
  // in order, each under its own id, and resumes from the last whole frame's id -- the
  // cursor the deployment check resumes from too.
  lemma BrowserAfterCut(sent: seq<Sent>, n: nat, b: Browser)
    requires n <= |Wire(sent)|
    requires AtRest(b)
    ensures var after := Browsed(b, WholeFrames(Lines(Wire(sent)[..n]), []));
            && after.fired == b.fired + FiredBy(sent[..WholeCount(sent, n)])
            && Some(after.lastId) == IdsOf(WholeFrames(Lines(Wire(sent)[..n]), []), Some(b.lastId))
  {
    CutKeepsWholeFrames(sent, n);
    BrowsedFrames(b, sent[..WholeCount(sent, n)]);
    CursorAfterCut(sent, n, Some(b.lastId));
  }
}
