// The case stream as a system of steps: two logs grow, a server tails them through one
// composite cursor, frames cross a wire that may be cut at any moment, and the client
// reconnects from the last frame it received.
module CaseStream {
  import opened Wrappers
  import opened EventNames
  import opened Digits
  import opened Markers
  import opened StreamLogs

  // How many rows one poll reads of each log.
  const ACTIONS_PAGE: nat := 500
  const RUN_PAGE: nat := 500

  // Which log a row came from. The wire does not carry it: a run frame's id may have
  // moved in both halves, past silent actions read before it.
  datatype Half = Audit | Run

  // A row waiting to be delivered: where a client that has it resumes, its name, the log it
  // is of, and whether the run's tail is over with it.
  datatype Pending = Pending(id: Marker, name: Option<EventName>, half: Half, closes: bool)

  datatype Frame = Cursor(id: Marker) | Named(row: Pending)

  /* ----- one poll ----- */

  function AuditPending(rows: seq<Row>, at: Marker): (pending: seq<Pending>)
    ensures |pending| == |rows|
  {
    if rows == [] then []
    else
      var next := Marker(rows[0].at, at.runSeq);
      [Pending(next, rows[0].name, Audit, false)] + AuditPending(rows[1..], next)
  }

  // Of the run's rows, none is queued past one that closes.
  function RunPending(rows: seq<Row>, at: Marker): seq<Pending> {
    if rows == [] then []
    else
      var next := Marker(at.auditSeq, rows[0].at);
      [Pending(next, rows[0].name, Run, rows[0].closes)]
      + if rows[0].closes then [] else RunPending(rows[1..], next)
  }

  // Where a cursor stands once a queue has been worked through.
  function EndOf(at: Marker, queue: seq<Pending>): Marker {
    if queue == [] then at else queue[|queue| - 1].id
  }

  // The outcome of working through a queue: the cursor and the run half it ends with, the rows
  // sent, how often standing was asked, and its last answer. Silent rows ask nothing; the
  // first named row refused ends it.
  datatype Swept = Swept(at: Marker, open: bool, sent: seq<Pending>, asked: nat, kept: bool)

  function Sweep(queue: seq<Pending>, at: Marker, open: bool, standing: nat -> bool, asked: nat): Swept {
    if queue == [] then Swept(at, open, [], asked + 1, standing(asked))
    else
      var row := queue[0];
      if row.name.None? then
        Sweep(queue[1..], row.id, open && !row.closes, standing, asked)
      else if !standing(asked) then
        Swept(row.id, open, [], asked + 1, false)
      else
        var rest := Sweep(queue[1..], row.id, open && !row.closes, standing, asked + 1);
        rest.(sent := [row] + rest.sent)
  }

  /* ----- the system ----- */

  datatype Phase = Idle | AuditRead | Sending

  datatype Conn = Down | Up(at: Marker, open: bool, queue: seq<Pending>, phase: Phase)

  datatype System = System(
    audit: seq<Row>, run: seq<Row>, hasRun: bool,   // the store, and whether a run is named
    conn: Conn, wire: seq<Frame>,                   // the server's tail, and what is in flight
    first: Option<Marker>, last: Option<Marker>, got: seq<Pending>)  // the client

  datatype Step =
    | AppendAction(at: nat, action: Action)
    | AppendEvent(at: nat, event: RunEvent)
    | Connect(mayWatch: bool, given: Option<string>)
    | ReadActions
    | ReadEvents
    | Deliver(mayWatch: bool)
    | EndPoll(goOn: bool)
    | Receive
    | Cut

  function Start(hasRun: bool): System {
    System([], [], hasRun, Down, [], None, None, [])
  }

  function Heads(s: System): Marker {
    Marker(Head(s.audit), Head(s.run))
  }

  // What a client connects with: the id of the last frame it has, or, before it has any,
  // whatever it was given -- nothing, a marker of an earlier tail, or anything at all.
  function LastEventId(s: System, given: Option<string>): Option<string> {
    if s.last.None? then given else Some(s.last.value.Text())
  }

  // A tail starts where its client resumes, its run half open unless that is past the run's
  // terminal, and its first frame is the cursor it starts at.
  function Joined(s: System, given: Option<string>): System {
    var at := ParseMarker(LastEventId(s, given), Heads(s));
    s.(conn := Up(at, s.hasRun && OpenAt(s.run, at.runSeq), [], Idle), wire := [Cursor(at)])
  }

  // The first read of a poll queues a page of actions; the second, a page of the run's events
  // from where the actions end, unless the run half is closed.
  function ActionsRead(s: System): System
    requires s.conn.Up?
  {
    var at := s.conn.at;
    s.(conn := Up(at, s.conn.open, AuditPending(Page(s.audit, at.auditSeq, ACTIONS_PAGE), at), AuditRead))
  }

  function EventsRead(s: System): System
    requires s.conn.Up?
  {
    var end := EndOf(s.conn.at, s.conn.queue);
    var events := if s.conn.open then RunPending(Page(s.run, end.runSeq, RUN_PAGE), end) else [];
    s.(conn := Up(s.conn.at, s.conn.open, s.conn.queue + events, Sending))
  }

  // The queue's first row passed, and sent when it is named.
  function Passed(s: System): System
    requires s.conn.Up? && s.conn.queue != []
  {
    var row := s.conn.queue[0];
    s.(conn := Up(row.id, s.conn.open && !row.closes, s.conn.queue[1..], Sending),
       wire := if row.name.Some? then s.wire + [Named(row)] else s.wire)
  }

  // The first frame in flight, received.
  function Received(s: System): System
    requires s.wire != []
  {
    match s.wire[0]
    case Cursor(id) =>
      s.(wire := s.wire[1..], last := Some(id), first := if s.first.None? then Some(id) else s.first)
    case Named(row) =>
      s.(wire := s.wire[1..], last := Some(row.id), got := s.got + [row])
  }

  // One step; a step that is not possible where the system stands changes nothing.
  function Apply(s: System, step: Step): System {
    match step
    case AppendAction(at, action) =>
      if Head(s.audit) < at < Pow10(MARKER_DIGITS) then s.(audit := s.audit + [AuditRow(at, action)]) else s
    case AppendEvent(at, event) =>
      if s.hasRun && Head(s.run) < at < Pow10(MARKER_DIGITS) then s.(run := s.run + [RunRow(at, event)]) else s
    case Connect(mayWatch, given) =>
      if s.conn.Up? || s.wire != [] || !mayWatch then s else Joined(s, given)
    case ReadActions => if s.conn.Up? && s.conn.phase.Idle? then ActionsRead(s) else s
    case ReadEvents => if s.conn.Up? && s.conn.phase.AuditRead? then EventsRead(s) else s
    case Deliver(mayWatch) =>
      if s.conn.Up? && s.conn.phase.Sending? && s.conn.queue != [] then
        if s.conn.queue[0].name.Some? && !mayWatch then s.(conn := Down) else Passed(s)
      else s
    case EndPoll(goOn) =>
      if s.conn.Up? && s.conn.phase.Sending? && s.conn.queue == [] then
        s.(conn := if goOn then s.conn.(phase := Idle) else Down)
      else s
    case Receive => if s.wire == [] then s else Received(s)
    case Cut => s.(conn := Down, wire := [])
  }

  // The logs grow by every append past their heads that a marker can hold.
  lemma AppendsGrow(s: System, at: nat, action: Action, event: RunEvent)
    ensures Apply(s, AppendAction(at, action)).audit
            == if Head(s.audit) < at && at < Pow10(16) then s.audit + [AuditRow(at, action)] else s.audit
    ensures Apply(s, AppendEvent(at, event)).run
            == if s.hasRun && Head(s.run) < at && at < Pow10(16) then s.run + [RunRow(at, event)] else s.run
  {
  }

  // The server takes its steps in their order: deliveries, and the end of a poll, only once both
  // reads are done.
  lemma StepsInTheirOrder(s: System, ok: bool)
    ensures !(s.conn.Up? && s.conn.phase == Sending) ==> Apply(s, Deliver(ok)) == s && Apply(s, EndPoll(ok)) == s
    ensures !(s.conn.Up? && s.conn.phase == Idle) ==> Apply(s, ReadActions) == s
    ensures !(s.conn.Up? && s.conn.phase == AuditRead) ==> Apply(s, ReadEvents) == s
    ensures Apply(s, Connect(false, None)) == s
  {
  }

  function Steps(s: System, steps: seq<Step>): System {
    if steps == [] then s else Apply(Steps(s, steps[..|steps| - 1]), steps[|steps| - 1])
  }

  lemma {:induction false} StepsJoin(s: System, a: seq<Step>, b: seq<Step>)
    ensures Steps(s, a + b) == Steps(Steps(s, a), b)
    decreases |b|
  {
    if b == [] {
      assert a + b == a;
    } else {
      assert (a + b)[..|a + b| - 1] == a + b[..|b| - 1];
      StepsJoin(s, a, b[..|b| - 1]);
    }
  }

  /* ----- what has been told ----- */

  // The named rows of one log among the pending rows, as log positions and names.
  function OfHalf(rows: seq<Pending>, half: Half): seq<Row> {
    if rows == [] then []
    else if rows[0].half == half && rows[0].name.Some? then
      [Row(if half.Audit? then rows[0].id.auditSeq else rows[0].id.runSeq, rows[0].name, rows[0].closes)]
      + OfHalf(rows[1..], half)
    else OfHalf(rows[1..], half)
  }

  lemma {:induction false} OfHalfJoins(a: seq<Pending>, b: seq<Pending>, half: Half)
    ensures OfHalf(a + b, half) == OfHalf(a, half) + OfHalf(b, half)
  {
    if a == [] {
      assert a + b == b;
    } else {
      assert (a + b)[1..] == a[1..] + b;
      OfHalfJoins(a[1..], b, half);
    }
  }

  // The rows tell of exactly the named rows strictly after `from` and up to `to`, of each
  // log, once and in order -- of the run, only those up to its first terminal.
  ghost predicate Covers(audit: seq<Row>, run: seq<Row>, from: Marker, to: Marker, rows: seq<Pending>) {
    && from.AtMost(to)
    && OfHalf(rows, Audit) == Told(audit, from.auditSeq, to.auditSeq)
    && OfHalf(rows, Run) == Told(Feed(run), from.runSeq, to.runSeq)
  }

  lemma CoversJoin(audit: seq<Row>, run: seq<Row>, a: Marker, b: Marker, c: Marker, xs: seq<Pending>, ys: seq<Pending>)
    requires Ascending(audit) && Ascending(run)
    requires Covers(audit, run, a, b, xs) && Covers(audit, run, b, c, ys)
    ensures Covers(audit, run, a, c, xs + ys)
  {
    OfHalfJoins(xs, ys, Audit);
    OfHalfJoins(xs, ys, Run);
    FeedIsPrefix(run);
    ToldSplit(audit, a.auditSeq, b.auditSeq, c.auditSeq);
    ToldSplit(Feed(run), a.runSeq, b.runSeq, c.runSeq);
  }

  // Rows that each tell of exactly what lies between the cursor before them and their own.
  ghost predicate Line(audit: seq<Row>, run: seq<Row>, at: Marker, rows: seq<Pending>, top: Marker)
    decreases |rows|
  {
    rows == [] ||
    (&& Covers(audit, run, at, rows[0].id, [rows[0]])
     && rows[0].id.AtMost(top)
     && Line(audit, run, rows[0].id, rows[1..], top))
  }

  lemma {:induction false} LineJoin(audit: seq<Row>, run: seq<Row>, at: Marker, a: seq<Pending>, b: seq<Pending>, top: Marker)
    requires Line(audit, run, at, a, top) && Line(audit, run, EndOf(at, a), b, top)
    ensures Line(audit, run, at, a + b, top)
    decreases |a|
  {
    if a == [] {
      assert a + b == b;
    } else {
      assert (a + b)[1..] == a[1..] + b;
      assert EndOf(at, a) == EndOf(a[0].id, a[1..]);
      LineJoin(audit, run, a[0].id, a[1..], b, top);
    }
  }

  // What both logs keep: rising positions the marker reader can hold, named terminals.
  ghost predicate LogsHold(audit: seq<Row>, run: seq<Row>) {
    && Ascending(audit) && Ascending(run)
    && Head(audit) < Pow10(MARKER_DIGITS) && Head(run) < Pow10(MARKER_DIGITS)
    && (forall i :: 0 <= i < |audit| ==> !audit[i].closes)
  }

  // One log has grown by a row past its head, or neither has.
  ghost predicate Grown(audit: seq<Row>, run: seq<Row>, audit': seq<Row>, run': seq<Row>) {
    || (run' == run && |audit'| == |audit| + 1 && audit' == audit + [audit'[|audit|]] && Head(audit) < audit'[|audit|].at)
    || (audit' == audit && |run'| == |run| + 1 && run' == run + [run'[|run|]] && Head(run) < run'[|run|].at)
  }

  lemma CoversGrow(audit: seq<Row>, run: seq<Row>, audit': seq<Row>, run': seq<Row>, a: Marker, b: Marker, rows: seq<Pending>)
    requires Grown(audit, run, audit', run')
    requires Covers(audit, run, a, b, rows) && b.AtMost(Marker(Head(audit), Head(run)))
    ensures Covers(audit', run', a, b, rows)
  {
    if run' == run {
      ToldGrows(audit, audit'[|audit|], a.auditSeq, b.auditSeq);
    } else {
      FeedGrows(run, run'[|run|]);
      ToldGrows(Feed(run), run'[|run|], a.runSeq, b.runSeq);
    }
  }

  lemma {:induction false} LineGrow(audit: seq<Row>, run: seq<Row>, audit': seq<Row>, run': seq<Row>, at: Marker, rows: seq<Pending>)
    requires Grown(audit, run, audit', run')
    requires Line(audit, run, at, rows, Marker(Head(audit), Head(run)))
    ensures Line(audit', run', at, rows, Marker(Head(audit'), Head(run')))
    decreases |rows|
  {
    if rows != [] {
      CoversGrow(audit, run, audit', run', at, rows[0].id, [rows[0]]);
      LineGrow(audit, run, audit', run', rows[0].id, rows[1..]);
    }
  }

  /* ----- a poll's rows form a line ----- */

  lemma AuditStep(audit: seq<Row>, run: seq<Row>, at: Marker)
    requires LogsHold(audit, run) && After(audit, at.auditSeq) != []
    ensures var row := After(audit, at.auditSeq)[0];
            var next := Marker(row.at, at.runSeq);
            && Covers(audit, run, at, next, [Pending(next, row.name, Audit, false)])
            && After(audit, next.auditSeq) == After(audit, at.auditSeq)[1..]
            && row.at <= Head(audit)
  {
    AfterStep(audit, at.auditSeq);
    AfterIsSorted(audit, at.auditSeq);
    HeadIsLast(audit);
    ToldNone(Feed(run), at.runSeq, at.runSeq);
    var row := After(audit, at.auditSeq)[0];
    assert row in After(audit, at.auditSeq);
    assert row in audit;
    var next := Marker(row.at, at.runSeq);
    var rows := [Pending(next, row.name, Audit, false)];
    assert rows[1..] == [];
    assert OfHalf(rows, Audit) == if row.name.Some? then [row] else [];
  }

  lemma LineOn(audit: seq<Row>, run: seq<Row>, at: Marker, first: Pending, rest: seq<Pending>, top: Marker)
    requires Covers(audit, run, at, first.id, [first]) && first.id.AtMost(top)
    requires Line(audit, run, first.id, rest, top)
    ensures Line(audit, run, at, [first] + rest, top)
    ensures EndOf(at, [first] + rest) == EndOf(first.id, rest)
  {
    assert ([first] + rest)[1..] == rest;
  }

  lemma {:induction false} AuditLine(audit: seq<Row>, run: seq<Row>, rows: seq<Row>, at: Marker)
    requires LogsHold(audit, run)
    requires Prefix(rows, After(audit, at.auditSeq))
    ensures Line(audit, run, at, AuditPending(rows, at), Marker(Head(audit), at.runSeq))
    ensures EndOf(at, AuditPending(rows, at)).runSeq == at.runSeq
    decreases |rows|
  {
    if rows != [] {
      AuditStep(audit, run, at);
      assert rows[0] == After(audit, at.auditSeq)[0];
      var next := Marker(rows[0].at, at.runSeq);
      AuditLine(audit, run, rows[1..], next);
      LineOn(audit, run, at, Pending(next, rows[0].name, Audit, false), AuditPending(rows[1..], next),
        Marker(Head(audit), at.runSeq));
    }
  }

  lemma RunStep(audit: seq<Row>, run: seq<Row>, at: Marker)
    requires LogsHold(audit, run) && OpenAt(run, at.runSeq) && After(run, at.runSeq) != []
    ensures var row := After(run, at.runSeq)[0];
            var next := Marker(at.auditSeq, row.at);
            && Covers(audit, run, at, next, [Pending(next, row.name, Run, row.closes)])
            && After(run, next.runSeq) == After(run, at.runSeq)[1..]
            && row.at <= Head(run)
            && (OpenAt(run, next.runSeq) <==> !row.closes)
  {
    FeedAfter(run, at.runSeq);
    FeedIsPrefix(run);
    AfterStep(Feed(run), at.runSeq);
    AfterStep(run, at.runSeq);
    AfterIsSorted(run, at.runSeq);
    HeadIsLast(run);
    OpenStep(run, at.runSeq);
    ToldNone(audit, at.auditSeq, at.auditSeq);
    var row := After(run, at.runSeq)[0];
    assert row in After(run, at.runSeq);
    assert row in run;
    var next := Marker(at.auditSeq, row.at);
    var rows := [Pending(next, row.name, Run, row.closes)];
    assert rows[1..] == [];
    assert OfHalf(rows, Run) == if row.name.Some? then [row] else [];
  }

  lemma {:induction false} RunLine(audit: seq<Row>, run: seq<Row>, rows: seq<Row>, at: Marker)
    requires LogsHold(audit, run)
    requires Prefix(rows, After(run, at.runSeq)) && OpenAt(run, at.runSeq)
    ensures Line(audit, run, at, RunPending(rows, at), Marker(at.auditSeq, Head(run)))
    decreases |rows|
  {
    if rows != [] {
      RunStep(audit, run, at);
      assert rows[0] == After(run, at.runSeq)[0];
      var next := Marker(at.auditSeq, rows[0].at);
      var queue := RunPending(rows, at);
      if !rows[0].closes {
        RunLine(audit, run, rows[1..], next);
        assert queue[1..] == RunPending(rows[1..], next);
      } else {
        assert queue[1..] == [];
      }
    }
  }

  lemma {:induction false} LineHigher(audit: seq<Row>, run: seq<Row>, at: Marker, rows: seq<Pending>, low: Marker, high: Marker)
    requires Line(audit, run, at, rows, low) && low.AtMost(high)
    ensures Line(audit, run, at, rows, high)
    ensures at.AtMost(high) ==> EndOf(at, rows).AtMost(high)
    decreases |rows|
  {
    if rows != [] {
      LineHigher(audit, run, rows[0].id, rows[1..], low, high);
      assert EndOf(at, rows) == EndOf(rows[0].id, rows[1..]);
    }
  }
}
