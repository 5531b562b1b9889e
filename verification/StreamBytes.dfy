// The case stream as its client has it: bytes. What a tail yields -- frames, and beats between
// them -- is written out, the connection is lost after any byte of it, and a browser keeps the
// frames that came whole. Every such run is a run of the system of steps, whose cut drops the
// frames that did not; so what the browser has fired is told exactly once.
module StreamBytes {
  import opened Wrappers
  import opened EventNames
  import opened Markers
  import opened CaseStream
  import opened ExactlyOnce
  import F = Frames

  datatype Yield = Beating | Framed(frame: Frame)

  // A row without a name is never framed.
  function Written(sent: Yield): F.Sent {
    if sent.Beating? then F.Beat
    else if sent.frame.Cursor? then F.CursorFrame(sent.frame.id)
    else if sent.frame.row.name.Some? then F.NamedFrame(sent.frame.row.id, sent.frame.row.name.value)
    else F.Beat
  }

  function AllWritten(yielded: seq<Yield>): seq<F.Sent> {
    if yielded == [] then [] else AllWritten(yielded[..|yielded| - 1]) + [Written(yielded[|yielded| - 1])]
  }

  function FramesOf(yielded: seq<Yield>): seq<Frame> {
    if yielded == [] then []
    else FramesOf(yielded[..|yielded| - 1])
         + (if yielded[|yielded| - 1].Framed? then [yielded[|yielded| - 1].frame] else [])
  }

  // The store and the server's tail, what it has yielded since the client connected, and the
  // client, which is nothing but a browser.
  datatype Link = Link(server: System, yielded: seq<Yield>, browser: F.Browser)

  datatype Act =
    | Serve(step: Step)
    | BeatOnce
    | Lose(upTo: nat)   // the connection is lost, that many bytes of it received

  const FRESH := F.Browser("", "", "", "", [])

  function Opened(hasRun: bool): Link { Link(Start(hasRun), [], FRESH) }

  // A browser asks for what follows the id it has, once it has one.
  function Asked(browser: F.Browser, step: Step): Step {
    if step.Connect? && browser.lastId != "" then step.(given := Some(browser.lastId)) else step
  }

  function Served(link: Link, step: Step): Link {
    var next := Apply(link.server, Asked(link.browser, step));
    var more := if |next.wire| > |link.server.wire| then [Framed(next.wire[|next.wire| - 1])] else [];
    Link(next, link.yielded + more, link.browser)
  }

  // The bytes that came before the connection was lost.
  function Heard(yielded: seq<Yield>, upTo: nat): string {
    var bytes := F.Wire(AllWritten(yielded));
    if upTo < |bytes| then bytes[..upTo] else bytes
  }

  function Lost(link: Link, upTo: nat): Link {
    Link(Apply(link.server, Cut), [], Read(link.browser, Heard(link.yielded, upTo)))
  }

  // What a browser makes of a connection's bytes.
  function Read(browser: F.Browser, bytes: string): F.Browser {
    F.Browsed(browser, F.WholeFrames(F.Lines(bytes), []))
  }

  function Acted(link: Link, act: Act): Link {
    match act
    case Serve(step) => if step.Receive? || step.Cut? then link else Served(link, step)
    case BeatOnce => if link.server.conn.Up? then link.(yielded := link.yielded + [Beating]) else link
    case Lose(upTo) => Lost(link, upTo)
  }

  function Acts(link: Link, acts: seq<Act>): Link {
    if acts == [] then link else Acted(Acts(link, acts[..|acts| - 1]), acts[|acts| - 1])
  }

  /* ----- the steps of a run of bytes ----- */

  function Receives(n: nat): seq<Step> { seq(n, _ => Receive) }

  // How many of the yields came whole.
  function CameWhole(yielded: seq<Yield>, upTo: nat): (k: nat)
    ensures k <= |yielded|
  {
    WrittenAlike(yielded);
    F.WholeCount(AllWritten(yielded), |Heard(yielded, upTo)|)
  }

  function WholeFrames(yielded: seq<Yield>, upTo: nat): seq<Frame> { FramesOf(yielded[..CameWhole(yielded, upTo)]) }

  // A lost connection is the receipt of the frames that came whole, and a cut.
  function StepsOf(link: Link, act: Act): seq<Step> {
    match act
    case Serve(step) => if step.Receive? || step.Cut? then [] else [step]
    case BeatOnce => []
    case Lose(upTo) => Receives(|WholeFrames(link.yielded, upTo)|) + [Cut]
  }

  function AllSteps(link: Link, acts: seq<Act>): seq<Step> {
    if acts == [] then []
    else
      var before := acts[..|acts| - 1];
      AllSteps(link, before) + StepsOf(Acts(link, before), acts[|acts| - 1])
  }

  lemma {:induction false} WrittenAlike(yielded: seq<Yield>)
    ensures |AllWritten(yielded)| == |yielded|
    ensures forall k :: 0 <= k <= |yielded| ==> AllWritten(yielded[..k]) == AllWritten(yielded)[..k]
  {
    if yielded != [] {
      var before := yielded[..|yielded| - 1];
      WrittenAlike(before);
      forall k | 0 <= k <= |yielded|
        ensures AllWritten(yielded[..k]) == AllWritten(yielded)[..k]
      {
        if k < |yielded| {
          assert yielded[..k] == before[..k];
        } else {
          assert yielded[..k] == yielded;
        }
      }
    }
  }

  lemma {:induction false} FramesBefore(yielded: seq<Yield>, k: nat)
    requires k <= |yielded|
    ensures FramesOf(yielded[..k]) <= FramesOf(yielded)
  {
    if k == |yielded| {
      assert yielded[..k] == yielded;
    } else {
      assert yielded[..|yielded| - 1][..k] == yielded[..k];
      FramesBefore(yielded[..|yielded| - 1], k);
    }
  }

  /* ----- what a client and a browser hold alike ----- */

  function NamedIn(frames: seq<Frame>): seq<Pending> {
    if frames == [] then []
    else NamedIn(frames[..|frames| - 1])
         + (if frames[|frames| - 1].Named? then [frames[|frames| - 1].row] else [])
  }

  function LastOf(last: Option<Marker>, frames: seq<Frame>): Option<Marker> {
    if frames == [] then last else Some(FrameId(frames[|frames| - 1]))
  }

  // What a browser fires of some rows: each named one under its own id.
  function FiredRows(rows: seq<Pending>): seq<F.Fired> {
    if rows == [] then []
    else FiredRows(rows[..|rows| - 1]) + FiredRow(rows[|rows| - 1])
  }

  function FiredRow(row: Pending): seq<F.Fired> {
    if row.name.Some? then [F.Fired(Spelled(row.name.value), "{}", row.id.Text())] else []
  }

  predicate AllNamed(frames: seq<Frame>) {
    forall i :: 0 <= i < |frames| ==> frames[i].Named? ==> frames[i].row.name.Some?
  }

  lemma {:induction false} ReceivesTake(s: System, n: nat)
    requires n <= |s.wire|
    ensures var t := Steps(s, Receives(n));
            && t == s.(wire := s.wire[n..], first := t.first, last := LastOf(s.last, s.wire[..n]),
                       got := s.got + NamedIn(s.wire[..n]))
  {
    if n > 0 {
      ReceivesTake(s, n - 1);
      assert Receives(n)[..n - 1] == Receives(n - 1);
      assert s.wire[..n][..n - 1] == s.wire[..n - 1];
      assert s.wire[n - 1..][1..] == s.wire[n..];
      assert Steps(s, Receives(n)) == Received(Steps(s, Receives(n - 1)));
    } else {
      assert s.got + [] == s.got;
    }
  }

  lemma {:induction false} FiredJoin(a: seq<Pending>, b: seq<Pending>)
    ensures FiredRows(a + b) == FiredRows(a) + FiredRows(b)
    decreases |b|
  {
    if b == [] {
      assert a + b == a;
    } else {
      assert (a + b)[..|a + b| - 1] == a + b[..|b| - 1];
      FiredJoin(a, b[..|b| - 1]);
    }
  }

  lemma {:induction false} FiredByJoin(a: seq<F.Sent>, last: F.Sent)
    ensures F.FiredBy(a + [last]) == F.FiredBy(a) + F.FiredOf(last)
    decreases |a|
  {
    if a == [] {
      assert a + [last] == [last] && [last][1..] == [];
    } else {
      assert (a + [last])[1..] == a[1..] + [last];
      FiredByJoin(a[1..], last);
    }
  }

  lemma FramedLast(before: seq<Yield>, frame: Frame)
    ensures var frames := FramesOf(before + [Framed(frame)]);
            && frames == FramesOf(before) + [frame]
            && NamedIn(frames) == NamedIn(FramesOf(before)) + (if frame.Named? then [frame.row] else [])
            && LastOf(None, frames) == Some(FrameId(frame))
  {
    assert (before + [Framed(frame)])[..|before|] == before;
    assert (FramesOf(before) + [frame])[..|FramesOf(before)|] == FramesOf(before);
  }

  lemma FiredOne(row: Pending)
    ensures FiredRows([row]) == FiredRow(row)
  {
    assert [row][..0] == [];
  }

  lemma FiresOn(sent: seq<F.Sent>, frames: seq<Frame>, last: Yield)
    requires F.FiredBy(sent) == FiredRows(NamedIn(frames))
    ensures F.FiredBy(sent + [Written(last)]) == FiredRows(NamedIn(if last.Framed? then frames + [last.frame] else frames))
  {
    FiredByJoin(sent, Written(last));
    if last.Framed? && last.frame.Named? {
      assert (frames + [last.frame])[..|frames|] == frames;
      FiredJoin(NamedIn(frames), [last.frame.row]);
      FiredOne(last.frame.row);
    } else {
      assert F.FiredOf(Written(last)) == [];
      if last.Framed? {
        assert (frames + [last.frame])[..|frames|] == frames;
        assert NamedIn(frames) + [] == NamedIn(frames);
      }
    }
  }

  lemma LastOn(sent: seq<F.Sent>, frames: seq<Frame>, last: Yield)
    requires F.LastId(sent) == LastOf(None, frames)
    requires last.Framed? && last.frame.Named? ==> last.frame.row.name.Some?
    ensures F.LastId(sent + [Written(last)]) == LastOf(None, if last.Framed? then frames + [last.frame] else frames)
  {
    assert (sent + [Written(last)])[..|sent|] == sent;
  }

  // The bytes fire what the frames tell, and their last id is the frames'.
  lemma {:induction false} WrittenTells(yielded: seq<Yield>)
    requires AllNamed(FramesOf(yielded))
    ensures F.FiredBy(AllWritten(yielded)) == FiredRows(NamedIn(FramesOf(yielded)))
    ensures F.LastId(AllWritten(yielded)) == LastOf(None, FramesOf(yielded))
  {
    if yielded != [] {
      var before, last := yielded[..|yielded| - 1], yielded[|yielded| - 1];
      FramesBefore(yielded, |yielded| - 1);
      WrittenTells(before);
      assert last.Framed? ==> last.frame == FramesOf(yielded)[|FramesOf(before)|];
      assert FramesOf(yielded) == if last.Framed? then FramesOf(before) + [last.frame] else FramesOf(before);
      FiresOn(AllWritten(before), FramesOf(before), last);
      LastOn(AllWritten(before), FramesOf(before), last);
    }
  }

  // A system as its server and store leave it, whatever its client holds.
  function Server(s: System): System { s.(first := None, last := None, got := []) }

  // The server is the one of the steps, and what it has yielded is what is in flight.
  ghost predicate SameServer(link: Link, s: System) {
    && link.server == Server(s)
    && s.wire == FramesOf(link.yielded) && AllNamed(s.wire)
    && (s.wire == [] ==> link.yielded == [])
    && (s.conn.Up? ==> s.wire != [])
  }

  // The client of the steps and the browser of the bytes have come to the same.
  ghost predicate SameClient(browser: F.Browser, last: Option<Marker>, got: seq<Pending>) {
    && F.AtRest(browser)
    && browser.lastId == (if last.Some? then last.value.Text() else "")
    && browser.fired == FiredRows(got)
  }

  ghost predicate Same(link: Link, s: System) {
    SameServer(link, s) && SameClient(link.browser, s.last, s.got)
  }

  // What the server does depends on its client by the id it asks with alone.
  lemma ServerIsApart(s: System, step: Step, asked: Step)
    requires !step.Receive? && !step.Cut?
    requires if step.Connect? && s.last.Some? then asked == step.(given := Some(s.last.value.Text())) else asked == step
    ensures Apply(Server(s), asked) == Server(Apply(s, step))
  {
  }

  // A step that the server takes yields one frame at most, and tells its client nothing.
  lemma ServedWire(s: System, step: Step)
    requires !step.Receive? && !step.Cut? && AllNamed(s.wire) && (s.conn.Up? ==> s.wire != [])
    ensures var next := Apply(s, step);
            && next.last == s.last && next.got == s.got
            && (next.conn.Up? ==> next.wire != [])
            && (next.wire == s.wire || Lengthened(s.wire, next.wire))
  {
  }

  predicate Lengthened(wire: seq<Frame>, more: seq<Frame>) {
    |more| == |wire| + 1 && more == wire + [more[|wire|]] && AllNamed(more)
  }

  lemma ServeIsAStep(link: Link, s: System, step: Step)
    requires Same(link, s) && !step.Receive? && !step.Cut?
    ensures Same(Served(link, step), Apply(s, step))
  {
    if s.last.Some? {
      assert s.last.value.Text() != "";
    }
    ServerIsApart(s, step, Asked(link.browser, step));
    ServedWire(s, step);
    ServedSame(link, s, Apply(s, step), Served(link, step));
  }

  lemma ServedSame(link: Link, s: System, next: System, served: Link)
    requires SameServer(link, s)
    requires next.wire == s.wire || Lengthened(s.wire, next.wire)
    requires next.conn.Up? ==> next.wire != []
    requires served.server == Server(next)
    requires served.yielded
             == link.yielded + (if |next.wire| > |s.wire| then [Framed(next.wire[|next.wire| - 1])] else [])
    ensures SameServer(served, next)
  {
    if next.wire != s.wire {
      FramedLast(link.yielded, next.wire[|s.wire|]);
    } else {
      assert link.yielded + [] == link.yielded;
    }
  }

  // The bytes that came hold the yields that came whole, and no more.
  lemma HeardIs(yielded: seq<Yield>, upTo: nat)
    ensures var whole := yielded[..CameWhole(yielded, upTo)];
            F.WholeFrames(F.Lines(Heard(yielded, upTo)), []) == F.AllLines(AllWritten(whole))
  {
    var sent, n := AllWritten(yielded), |Heard(yielded, upTo)|;
    assert Heard(yielded, upTo) == F.Wire(sent)[..n];
    WrittenAlike(yielded);
    F.CutKeepsWholeFrames(sent, n);
  }

  lemma WholeTells(browser: F.Browser, whole: seq<Yield>, frames: seq<Frame>)
    requires F.AtRest(browser) && frames == FramesOf(whole) && AllNamed(frames)
    ensures var after := F.Browsed(browser, F.AllLines(AllWritten(whole)));
            && F.AtRest(after)
            && after.fired == browser.fired + FiredRows(NamedIn(frames))
            && after.lastId == (if frames == [] then browser.lastId else FrameId(frames[|frames| - 1]).Text())
  {
    F.BrowsedFrames(browser, AllWritten(whole));
    F.BrowsedRests(browser, AllWritten(whole));
    WrittenTells(whole);
  }

  // A browser makes of the bytes that came the frames that came whole, and no more.
  lemma HeardTells(browser: F.Browser, yielded: seq<Yield>, upTo: nat)
    requires F.AtRest(browser) && AllNamed(FramesOf(yielded))
    ensures var frames := WholeFrames(yielded, upTo);
            var after := Read(browser, Heard(yielded, upTo));
            && frames <= FramesOf(yielded)
            && F.AtRest(after)
            && after.fired == browser.fired + FiredRows(NamedIn(frames))
            && after.lastId == (if frames == [] then browser.lastId else FrameId(frames[|frames| - 1]).Text())
  {
    var whole := yielded[..CameWhole(yielded, upTo)];
    HeardIs(yielded, upTo);
    FramesBefore(yielded, CameWhole(yielded, upTo));
    WholeTells(browser, whole, WholeFrames(yielded, upTo));
  }

  // Some frames received, and the rest lost.
  lemma ReceiptThenCut(s: System, frames: seq<Frame>) returns (t: System)
    requires frames <= s.wire
    ensures t == Steps(s, Receives(|frames|) + [Cut])
    ensures t == s.(conn := Down, wire := [], first := t.first, last := LastOf(s.last, frames),
                    got := s.got + NamedIn(frames))
  {
    t := Steps(s, Receives(|frames|) + [Cut]);
    ReceivesTake(s, |frames|);
    assert s.wire[..|frames|] == frames;
    assert (Receives(|frames|) + [Cut])[..|frames|] == Receives(|frames|);
  }

  lemma HeardSame(before: F.Browser, last: Option<Marker>, got: seq<Pending>, frames: seq<Frame>, after: F.Browser)
    requires SameClient(before, last, got)
    requires F.AtRest(after) && after.fired == before.fired + FiredRows(NamedIn(frames))
    requires after.lastId == (if frames == [] then before.lastId else FrameId(frames[|frames| - 1]).Text())
    ensures SameClient(after, LastOf(last, frames), got + NamedIn(frames))
  {
    FiredJoin(got, NamedIn(frames));
  }

  lemma LostServer(link: Link, s: System, upTo: nat, cut: System)
    requires SameServer(link, s) && cut.conn.Down? && cut.wire == []
    requires cut == s.(conn := Down, wire := [], first := cut.first, last := cut.last, got := cut.got)
    ensures SameServer(Lost(link, upTo), cut)
  {
  }

  lemma LoseIsReceiptAndCut(link: Link, s: System, upTo: nat)
    requires Same(link, s)
    ensures Same(Lost(link, upTo), Steps(s, StepsOf(link, Lose(upTo))))
  {
    var frames := WholeFrames(link.yielded, upTo);
    HeardTells(link.browser, link.yielded, upTo);
    var cut := ReceiptThenCut(s, frames);
    HeardSame(link.browser, s.last, s.got, frames, Lost(link, upTo).browser);
    LostServer(link, s, upTo, cut);
  }

  lemma ActIsSteps(link: Link, s: System, act: Act)
    requires Same(link, s)
    ensures Same(Acted(link, act), Steps(s, StepsOf(link, act)))
  {
    match act
    case Serve(step) =>
      if !step.Receive? && !step.Cut? {
        ServeIsAStep(link, s, step);
        assert [step][..0] == [];
        assert Steps(s, [step]) == Apply(s, step);
      }
    case BeatOnce =>
      assert (link.yielded + [Beating])[..|link.yielded|] == link.yielded;
    case Lose(upTo) =>
      LoseIsReceiptAndCut(link, s, upTo);
  }

  // Every run over bytes, however its connections are lost, is a run of the system.
  lemma {:induction false} BytesAreARun(hasRun: bool, acts: seq<Act>)
    ensures Same(Acts(Opened(hasRun), acts), Steps(Start(hasRun), AllSteps(Opened(hasRun), acts)))
    decreases |acts|
  {
    if acts != [] {
      var before, last := acts[..|acts| - 1], acts[|acts| - 1];
      BytesAreARun(hasRun, before);
      var link := Acts(Opened(hasRun), before);
      ActIsSteps(link, Steps(Start(hasRun), AllSteps(Opened(hasRun), before)), last);
      StepsJoin(Start(hasRun), AllSteps(Opened(hasRun), before), StepsOf(link, last));
    }
  }

  // Exactly once, in bytes: wherever its connections are lost, and whatever it first asks
  // with, a browser with an id has fired exactly the named rows of each log between some first
  // cursor and the one it will ask from, once and in order, each under its own id; without an
  // id it has fired nothing.
  lemma BytesAreToldOnce(hasRun: bool, acts: seq<Act>)
    ensures var link := Acts(Opened(hasRun), acts);
            if link.browser.lastId == "" then link.browser.fired == []
            else exists first: Marker, last: Marker, got: seq<Pending> :: last.Text() == link.browser.lastId
                   && link.browser.fired == FiredRows(got)
                   && Covers(link.server.audit, link.server.run, first, last, got)
  {
    BytesAreARun(hasRun, acts);
    EveryRunIsSound(hasRun, AllSteps(Opened(hasRun), acts));
    var s := Steps(Start(hasRun), AllSteps(Opened(hasRun), acts));
    if s.last.Some? {
      assert Covers(s.audit, s.run, s.first.value, s.last.value, s.got);
    }
  }
}
