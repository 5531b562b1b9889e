// Over every run of the case stream -- any interleaving of appends, reads, deliveries,
// lost standing, cuts and reconnects -- the client has been told of each log exactly
// what lies between its first cursor and its last frame, once and in order.
module ExactlyOnce {
  import opened Wrappers
  import opened Digits
  import opened Markers
  import opened StreamLogs
  import opened CaseStream

  // The named rows in flight, the opening cursor frame apart.
  function Body(wire: seq<Frame>): seq<Frame> {
    if wire != [] && wire[0].Cursor? then wire[1..] else wire
  }

  function RowsOf(frames: seq<Frame>): (rows: seq<Pending>)
    requires forall i :: 0 <= i < |frames| ==> frames[i].Named?
    ensures |rows| == |frames|
    ensures forall i :: 0 <= i < |frames| ==> rows[i] == frames[i].row
  {
    seq(|frames|, i requires 0 <= i < |frames| => frames[i].row)
  }

  // The position the frames in flight continue from.
  function Opening(s: System): Option<Marker> {
    if s.wire != [] && s.wire[0].Cursor? then Some(s.wire[0].id) else s.last
  }

  ghost predicate ClientHolds(s: System) {
    match (s.first, s.last)
    case (None, None) => s.got == []
    case (Some(first), Some(last)) => Covers(s.audit, s.run, first, last, s.got) && last.AtMost(Heads(s))
    case _ => false
  }

  ghost predicate WireHolds(s: System) {
    && (forall i :: 0 <= i < |Body(s.wire)| ==> Body(s.wire)[i].Named?)
    && (match Opening(s)
        case None => s.wire == [] && s.conn.Down?
        case Some(m) =>
          && m.AtMost(Heads(s))
          && (s.last.Some? ==> m == s.last.value)
          && Line(s.audit, s.run, m, RowsOf(Body(s.wire)), Heads(s)))
  }

  // The run half closes at each queued row exactly when that row is the terminal.
  ghost predicate Closing(run: seq<Row>, at: Marker, queue: seq<Pending>)
    decreases |queue|
  {
    queue == [] ||
    (&& (OpenAt(run, queue[0].id.runSeq) <==> OpenAt(run, at.runSeq) && !queue[0].closes)
     && Closing(run, queue[0].id, queue[1..]))
  }

  ghost predicate ServerHolds(s: System) {
    s.conn.Up? ==>
      && Opening(s).Some?
      && (forall i :: 0 <= i < |Body(s.wire)| ==> Body(s.wire)[i].Named?)
      && var at := s.conn.at;
         && Covers(s.audit, s.run, EndOf(Opening(s).value, RowsOf(Body(s.wire))), at, [])
         && at.AtMost(Heads(s))
         && (s.conn.open <==> s.hasRun && OpenAt(s.run, at.runSeq))
         && Line(s.audit, s.run, at, s.conn.queue, Heads(s))
         && Closing(s.run, at, s.conn.queue)
         && (s.conn.phase.Idle? ==> s.conn.queue == [])
         && (s.conn.phase.AuditRead? ==> EndOf(at, s.conn.queue).runSeq == at.runSeq)
  }

  ghost predicate Sound(s: System) {
    && LogsHold(s.audit, s.run)
    && (!s.hasRun ==> s.run == [])
    && ClientHolds(s)
    && WireHolds(s)
    && ServerHolds(s)
  }

  /* ----- appends ----- */

  lemma {:induction false} ClosingGrow(run: seq<Row>, row: Row, at: Marker, queue: seq<Pending>, audit: seq<Row>)
    requires Head(run) < row.at && at.runSeq <= Head(run)
    requires Closing(run, at, queue) && Line(audit, run, at, queue, Marker(Head(audit), Head(run)))
    ensures Closing(run + [row], at, queue)
    decreases |queue|
  {
    TerminalGrows(run, row);
    if queue != [] {
      ClosingGrow(run, row, queue[0].id, queue[1..], audit);
    }
  }

  lemma {:induction false} AscendingGrows(log: seq<Row>, row: Row)
    requires Ascending(log) && Head(log) < row.at
    ensures Ascending(log + [row]) && Head(log + [row]) == row.at
  {
    HeadIsLast(log);
  }

  lemma LineEndsLow(audit: seq<Row>, run: seq<Row>, m: Marker, rows: seq<Pending>, top: Marker)
    requires Line(audit, run, m, rows, top) && m.AtMost(top)
    ensures EndOf(m, rows).AtMost(top)
  {
    LineHigher(audit, run, m, rows, top, top);
  }

  lemma WireGrows(s: System, s': System)
    requires Sound(s) && s' == s.(audit := s'.audit, run := s'.run)
    requires Grown(s.audit, s.run, s'.audit, s'.run) && Heads(s).AtMost(Heads(s'))
    ensures WireHolds(s')
  {
    if Opening(s).Some? {
      LineGrow(s.audit, s.run, s'.audit, s'.run, Opening(s).value, RowsOf(Body(s.wire)));
    }
  }

  lemma ServerGrows(s: System, s': System)
    requires Sound(s) && s' == s.(audit := s'.audit, run := s'.run)
    requires Grown(s.audit, s.run, s'.audit, s'.run) && Heads(s).AtMost(Heads(s'))
    ensures ServerHolds(s')
  {
    if s.conn.Up? {
      var m, rows := Opening(s).value, RowsOf(Body(s.wire));
      CoversGrow(s.audit, s.run, s'.audit, s'.run, EndOf(m, rows), s.conn.at, []);
      LineGrow(s.audit, s.run, s'.audit, s'.run, s.conn.at, s.conn.queue);
      if s'.run != s.run {
        var row := s'.run[|s.run|];
        ClosingGrow(s.run, row, s.conn.at, s.conn.queue, s.audit);
        TerminalGrows(s.run, row);
      }
    }
  }

  lemma GrowKeeps(s: System, s': System)
    requires Sound(s) && s' == s.(audit := s'.audit, run := s'.run)
    requires Grown(s.audit, s.run, s'.audit, s'.run)
    requires LogsHold(s'.audit, s'.run) && (!s.hasRun ==> s'.run == [])
    requires Heads(s).AtMost(Heads(s'))
    ensures Sound(s')
  {
    if s.last.Some? {
      CoversGrow(s.audit, s.run, s'.audit, s'.run, s.first.value, s.last.value, s.got);
    }
    WireGrows(s, s');
    ServerGrows(s, s');
  }

  lemma ActionKeeps(s: System, row: Row)
    requires Sound(s) && Head(s.audit) < row.at < Pow10(MARKER_DIGITS) && !row.closes
    ensures Sound(s.(audit := s.audit + [row]))
  {
    AscendingGrows(s.audit, row);
    GrowKeeps(s, s.(audit := s.audit + [row]));
  }

  lemma EventKeeps(s: System, row: Row)
    requires Sound(s) && s.hasRun && Head(s.run) < row.at < Pow10(MARKER_DIGITS)
    ensures Sound(s.(run := s.run + [row]))
  {
    AscendingGrows(s.run, row);
    GrowKeeps(s, s.(run := s.run + [row]));
  }

  lemma AppendKeeps(s: System, step: Step)
    requires Sound(s) && (step.AppendAction? || step.AppendEvent?)
    ensures Sound(Apply(s, step))
  {
    if Apply(s, step) != s {
      match step
      case AppendAction(at, action) => ActionKeeps(s, AuditRow(at, action));
      case AppendEvent(at, event) => EventKeeps(s, RunRow(at, event));
    }
  }

  /* ----- the server's steps ----- */

  lemma NothingBetween(audit: seq<Row>, run: seq<Row>, m: Marker)
    ensures Covers(audit, run, m, m, [])
  {
    ToldNone(audit, m.auditSeq, m.auditSeq);
    ToldNone(Feed(run), m.runSeq, m.runSeq);
  }

  // Every marker the client holds resumes at itself: it is behind the heads, which only
  // rise, and short enough to be read.
  lemma IssuedMarkerResumes(s: System)
    requires Sound(s) && s.last.Some?
    ensures ParseMarker(Some(s.last.value.Text()), Heads(s)) == s.last.value
  {
    ResumesAtItself(s.last.value, Heads(s));
  }

  lemma ConnectKeeps(s: System, given: Option<string>)
    requires Sound(s)
    ensures Sound(Joined(s, given))
  {
    NeverAhead(LastEventId(s, given), Heads(s));
    if s.last.Some? {
      IssuedMarkerResumes(s);
    }
    assert Body(Joined(s, given).wire) == [];
    NothingBetween(s.audit, s.run, Joined(s, given).conn.at);
  }

  lemma {:induction false} AuditClosing(run: seq<Row>, rows: seq<Row>, at: Marker)
    ensures Closing(run, at, AuditPending(rows, at))
    decreases |rows|
  {
    if rows != [] {
      var next := Marker(rows[0].at, at.runSeq);
      AuditClosing(run, rows[1..], next);
      assert AuditPending(rows, at)[1..] == AuditPending(rows[1..], next);
    }
  }

  lemma {:induction false} RunClosing(audit: seq<Row>, run: seq<Row>, rows: seq<Row>, at: Marker)
    requires LogsHold(audit, run)
    requires Prefix(rows, After(run, at.runSeq)) && OpenAt(run, at.runSeq)
    ensures Closing(run, at, RunPending(rows, at))
    decreases |rows|
  {
    if rows != [] {
      RunStep(audit, run, at);
      assert rows[0] == After(run, at.runSeq)[0];
      var next := Marker(at.auditSeq, rows[0].at);
      var queue := RunPending(rows, at);
      if !rows[0].closes {
        RunClosing(audit, run, rows[1..], next);
        assert queue[1..] == RunPending(rows[1..], next);
      } else {
        assert queue[1..] == [];
      }
    }
  }

  lemma {:induction false} ClosingJoin(run: seq<Row>, at: Marker, a: seq<Pending>, b: seq<Pending>)
    requires Closing(run, at, a) && Closing(run, EndOf(at, a), b)
    ensures Closing(run, at, a + b)
    decreases |a|
  {
    if a == [] {
      assert a + b == b;
    } else {
      assert (a + b)[1..] == a[1..] + b;
      assert EndOf(at, a) == EndOf(a[0].id, a[1..]);
      ClosingJoin(run, a[0].id, a[1..], b);
    }
  }

  lemma ReadActionsKeeps(s: System)
    requires Sound(s) && s.conn.Up? && s.conn.phase.Idle?
    ensures Sound(ActionsRead(s))
  {
    var at := s.conn.at;
    var rows := Page(s.audit, at.auditSeq, ACTIONS_PAGE);
    AuditLine(s.audit, s.run, rows, at);
    LineHigher(s.audit, s.run, at, AuditPending(rows, at), Marker(Head(s.audit), at.runSeq), Heads(s));
    AuditClosing(s.run, rows, at);
  }

  // What a run read adds to the queue carries on from where the actions left it.
  lemma EventsQueued(s: System)
    requires Sound(s) && s.conn.Up? && s.conn.phase.AuditRead? && s.conn.open
    ensures var end := EndOf(s.conn.at, s.conn.queue);
            var queue := s.conn.queue + RunPending(Page(s.run, end.runSeq, RUN_PAGE), end);
            Line(s.audit, s.run, s.conn.at, queue, Heads(s)) && Closing(s.run, s.conn.at, queue)
  {
    var at := s.conn.at;
    var end := EndOf(at, s.conn.queue);
    var rows := Page(s.run, end.runSeq, RUN_PAGE);
    var events := RunPending(rows, end);
    LineEndsLow(s.audit, s.run, at, s.conn.queue, Heads(s));
    RunLine(s.audit, s.run, rows, end);
    LineHigher(s.audit, s.run, end, events, Marker(end.auditSeq, Head(s.run)), Heads(s));
    LineJoin(s.audit, s.run, at, s.conn.queue, events, Heads(s));
    RunClosing(s.audit, s.run, rows, end);
    ClosingJoin(s.run, at, s.conn.queue, events);
  }

  lemma QueueKeeps(s: System, queue: seq<Pending>)
    requires Sound(s) && s.conn.Up?
    requires Line(s.audit, s.run, s.conn.at, queue, Heads(s)) && Closing(s.run, s.conn.at, queue)
    ensures Sound(s.(conn := Up(s.conn.at, s.conn.open, queue, Sending)))
  {
  }

  lemma ReadEventsKeeps(s: System)
    requires Sound(s) && s.conn.Up? && s.conn.phase.AuditRead?
    ensures Sound(EventsRead(s))
  {
    if s.conn.open {
      EventsQueued(s);
    }
    assert s.conn.queue + [] == s.conn.queue;
    QueueKeeps(s, EventsRead(s).conn.queue);
  }

  // The queue's first row tells of exactly what lies between the frames in flight and it.
  lemma DeliveredRow(s: System, end: Marker)
    requires LogsHold(s.audit, s.run) && s.conn.Up? && s.conn.queue != []
    requires Covers(s.audit, s.run, end, s.conn.at, [])
    requires Line(s.audit, s.run, s.conn.at, s.conn.queue, Heads(s))
    ensures var row := s.conn.queue[0];
            && Covers(s.audit, s.run, end, row.id, [row])
            && row.id.AtMost(Heads(s))
            && Line(s.audit, s.run, row.id, s.conn.queue[1..], Heads(s))
  {
    var row := s.conn.queue[0];
    CoversJoin(s.audit, s.run, end, s.conn.at, row.id, [], [row]);
    assert [] + [row] == [row];
  }

  lemma NamedJoinsWire(s: System, row: Pending)
    requires WireHolds(s) && Opening(s).Some? && row.name.Some? && row.id.AtMost(Heads(s))
    requires Covers(s.audit, s.run, EndOf(Opening(s).value, RowsOf(Body(s.wire))), row.id, [row])
    ensures var s' := s.(wire := s.wire + [Named(row)]);
            && WireHolds(s') && Opening(s') == Opening(s)
            && EndOf(Opening(s').value, RowsOf(Body(s'.wire))) == row.id
  {
    var m, sent := Opening(s).value, RowsOf(Body(s.wire));
    var s' := s.(wire := s.wire + [Named(row)]);
    assert Body(s'.wire) == Body(s.wire) + [Named(row)];
    assert RowsOf(Body(s'.wire)) == sent + [row];
    assert [row][1..] == [];
    LineJoin(s.audit, s.run, m, sent, [row], Heads(s));
  }

  lemma NamedDelivered(s: System)
    requires Sound(s) && s.conn.Up? && s.conn.queue != [] && s.conn.queue[0].name.Some?
    ensures Sound(Passed(s))
  {
    var row := s.conn.queue[0];
    var end := EndOf(Opening(s).value, RowsOf(Body(s.wire)));
    DeliveredRow(s, end);
    NamedJoinsWire(s, row);
    NothingBetween(s.audit, s.run, row.id);
  }

  lemma SilentPassed(s: System)
    requires Sound(s) && s.conn.Up? && s.conn.queue != [] && s.conn.queue[0].name.None?
    ensures Sound(Passed(s))
  {
    var end := EndOf(Opening(s).value, RowsOf(Body(s.wire)));
    DeliveredRow(s, end);
    SilentTellsNothing(s.audit, s.run, end, s.conn.queue[0]);
  }

  lemma DeliverKeeps(s: System)
    requires Sound(s) && s.conn.Up? && s.conn.queue != []
    ensures Sound(Passed(s))
  {
    if s.conn.queue[0].name.None? {
      SilentPassed(s);
    } else {
      NamedDelivered(s);
    }
  }

  // A connection that is gone, with what it sent still in flight or not, keeps the rest.
  lemma DownKeeps(s: System)
    requires Sound(s)
    ensures Sound(s.(conn := Down)) && Sound(s.(conn := Down, wire := []))
  {
    var s' := s.(conn := Down, wire := []);
    assert Body(s'.wire) == [];
  }

  lemma SilentTellsNothing(audit: seq<Row>, run: seq<Row>, end: Marker, row: Pending)
    requires row.name.None? && Covers(audit, run, end, row.id, [row])
    ensures Covers(audit, run, end, row.id, [])
  {
    assert [row][1..] == [];
    assert OfHalf([row], Audit) == [] && OfHalf([row], Run) == [];
  }

  /* ----- the client's steps ----- */

  lemma CursorReceived(s: System, id: Marker)
    requires Sound(s) && s.wire != [] && s.wire[0] == Cursor(id)
    ensures Sound(s.(wire := s.wire[1..], last := Some(id), first := if s.first.None? then Some(id) else s.first))
  {
    var rest := s.wire[1..];
    assert Body(s.wire) == rest;
    assert Body(rest) == rest;
    NothingBetween(s.audit, s.run, id);
  }

  // What is left in flight once its first named frame is received.
  lemma NamedTaken(wire: seq<Frame>, m: Marker)
    requires wire != [] && (forall i :: 0 <= i < |wire| ==> wire[i].Named?)
    ensures Body(wire) == wire && Body(wire[1..]) == wire[1..]
    ensures RowsOf(wire[1..]) == RowsOf(wire)[1..] && RowsOf(wire)[0] == wire[0].row
    ensures EndOf(m, RowsOf(wire)) == EndOf(wire[0].row.id, RowsOf(wire)[1..])
  {
    assert forall i :: 0 <= i < |wire[1..]| ==> RowsOf(wire[1..])[i] == RowsOf(wire)[1..][i];
  }

  lemma NamedReceived(s: System, row: Pending)
    requires Sound(s) && s.wire != [] && s.wire[0] == Named(row)
    ensures Sound(s.(wire := s.wire[1..], last := Some(row.id), got := s.got + [row]))
  {
    assert Body(s.wire) == s.wire;
    NamedTaken(s.wire, s.last.value);
    CoversJoin(s.audit, s.run, s.first.value, s.last.value, row.id, s.got, [row]);
  }

  lemma ReceiveKeeps(s: System)
    requires Sound(s) && s.wire != []
    ensures Sound(Received(s))
  {
    match s.wire[0]
    case Cursor(id) => CursorReceived(s, id);
    case Named(row) => NamedReceived(s, row);
  }

  lemma PollEndKeeps(s: System)
    requires Sound(s) && s.conn.Up? && s.conn.queue == []
    ensures Sound(s.(conn := s.conn.(phase := Idle)))
  {
  }

  lemma StepKeeps(s: System, step: Step)
    requires Sound(s)
    ensures Sound(Apply(s, step))
  {
    match step
    case AppendAction(at, action) => AppendKeeps(s, step);
    case AppendEvent(at, event) => AppendKeeps(s, step);
    case _ =>
      if Apply(s, step) != s {
        ServedStepKeeps(s, step);
      }
  }

  lemma ServedStepKeeps(s: System, step: Step)
    requires Sound(s) && Apply(s, step) != s && !step.AppendAction? && !step.AppendEvent?
    ensures Sound(Apply(s, step))
  {
    match step
    case Connect(mayWatch, given) => ConnectKeeps(s, given);
    case ReadActions => ReadActionsKeeps(s);
    case ReadEvents => ReadEventsKeeps(s);
    case Deliver(mayWatch) =>
      DownKeeps(s);
      DeliverKeeps(s);
    case EndPoll(goOn) =>
      DownKeeps(s);
      PollEndKeeps(s);
    case Receive => ReceiveKeeps(s);
    case Cut => DownKeeps(s);
  }

  lemma {:induction false} StepsKeep(s: System, steps: seq<Step>)
    requires Sound(s)
    ensures Sound(Steps(s, steps))
    decreases |steps|
  {
    if steps != [] {
      StepsKeep(s, steps[..|steps| - 1]);
      StepKeeps(Steps(s, steps[..|steps| - 1]), steps[|steps| - 1]);
    }
  }

  lemma EveryRunIsSound(hasRun: bool, steps: seq<Step>)
    ensures Sound(Steps(Start(hasRun), steps))
  {
    StepsKeep(Start(hasRun), steps);
  }

  /* ----- the promises ----- */

  // Exactly once: whatever id a client first connects with, of the actions, and of the run's
  // events up to its first terminal, it holds the named rows after its first cursor up to its
  // last frame, in order.
  lemma ExactlyOnceEach(hasRun: bool, steps: seq<Step>)
    ensures var s := Steps(Start(hasRun), steps);
            s.first.Some? ==>
              && s.last.Some? && s.first.value.AtMost(s.last.value)
              && OfHalf(s.got, Audit) == Told(s.audit, s.first.value.auditSeq, s.last.value.auditSeq)
              && OfHalf(s.got, Run) == Told(Feed(s.run), s.first.value.runSeq, s.last.value.runSeq)
  {
    EveryRunIsSound(hasRun, steps);
  }

  // No marker the server has issued -- received or still in flight -- ever falls back.
  lemma NeverFallsBack(hasRun: bool, steps: seq<Step>)
    ensures var s := Steps(Start(hasRun), steps);
            && (s.last.Some? ==> ParseMarker(Some(s.last.value.Text()), Heads(s)) == s.last.value)
            && forall i :: 0 <= i < |s.wire| ==>
                 var id := FrameId(s.wire[i]);
                 ParseMarker(Some(id.Text()), Heads(s)) == id
  {
    EveryRunIsSound(hasRun, steps);
    var s := Steps(Start(hasRun), steps);
    if s.last.Some? {
      IssuedMarkerResumes(s);
    }
    forall i | 0 <= i < |s.wire|
      ensures var id := FrameId(s.wire[i]);
              ParseMarker(Some(id.Text()), Heads(s)) == id
    {
      FrameIsLow(s, i);
      ResumesAtItself(FrameId(s.wire[i]), Heads(s));
    }
  }

  function FrameId(frame: Frame): Marker {
    if frame.Cursor? then frame.id else frame.row.id
  }

  lemma FrameIsLow(s: System, i: nat)
    requires Sound(s) && i < |s.wire|
    ensures FrameId(s.wire[i]).AtMost(Heads(s))
  {
    if !(i == 0 && s.wire[0].Cursor?) {
      var k := if s.wire[0].Cursor? then i - 1 else i;
      assert Body(s.wire)[k] == s.wire[i];
      LineIsLow(s.audit, s.run, Opening(s).value, RowsOf(Body(s.wire)), Heads(s), k);
    }
  }

  lemma {:induction false} LineIsLow(audit: seq<Row>, run: seq<Row>, m: Marker, rows: seq<Pending>, top: Marker, k: nat)
    requires Line(audit, run, m, rows, top) && k < |rows|
    ensures rows[k].id.AtMost(top)
    decreases k
  {
    if k > 0 {
      LineIsLow(audit, run, rows[0].id, rows[1..], top, k - 1);
    }
  }

  // Nothing left to read, nothing queued, nothing in flight.
  predicate Drained(s: System) {
    && s.conn.Up? && s.conn.queue == [] && s.wire == []
    && After(s.audit, s.conn.at.auditSeq) == []
    && (s.conn.open ==> After(s.run, s.conn.at.runSeq) == [])
  }

  lemma NoneLeftOfRun(s: System)
    requires Sound(s) && Drained(s)
    ensures Told(Feed(s.run), s.conn.at.runSeq, Head(s.run)) == []
  {
    var at := s.conn.at.runSeq;
    if s.hasRun && !OpenAt(s.run, at) {
      FeedDone(s.run, at);
    } else {
      HeadIsLast(s.run);
      FeedIsPrefix(s.run);
      assert forall i :: 0 <= i < |Feed(s.run)| ==> Feed(s.run)[i] == s.run[i];
    }
    ToldNone(Feed(s.run), at, Head(s.run));
  }

  lemma DrainedHasTold(s: System)
    requires Sound(s) && Drained(s)
    ensures s.first.Some?
    ensures OfHalf(s.got, Audit) == Told(s.audit, s.first.value.auditSeq, Head(s.audit))
    ensures OfHalf(s.got, Run) == Told(Feed(s.run), s.first.value.runSeq, Head(s.run))
  {
    var first, at := s.first.value, s.conn.at;
    assert RowsOf(Body(s.wire)) == [];
    HeadIsLast(s.audit);
    CoversJoin(s.audit, s.run, first, s.last.value, at, s.got, []);
    assert s.got + [] == s.got;
    FeedIsPrefix(s.run);
    ToldSplit(Feed(s.run), first.runSeq, at.runSeq, Head(s.run));
    NoneLeftOfRun(s);
  }

  // A tail with nothing left to read and nothing in flight has told everything: every
  // named action after the first cursor, and every named event up to the run's terminal.
  lemma CaughtUp(hasRun: bool, steps: seq<Step>)
    ensures var s := Steps(Start(hasRun), steps);
            Drained(s) ==>
              && s.first.Some?
              && OfHalf(s.got, Audit) == Told(s.audit, s.first.value.auditSeq, Head(s.audit))
              && OfHalf(s.got, Run) == Told(Feed(s.run), s.first.value.runSeq, Head(s.run))
  {
    EveryRunIsSound(hasRun, steps);
    if Drained(Steps(Start(hasRun), steps)) {
      DrainedHasTold(Steps(Start(hasRun), steps));
    }
  }

  /* ----- polls make progress ----- */

  lemma {:induction false} ActionsMove(audit: seq<Row>, run: seq<Row>, rows: seq<Row>, at: Marker)
    requires LogsHold(audit, run) && Prefix(rows, After(audit, at.auditSeq))
    ensures After(audit, EndOf(at, AuditPending(rows, at)).auditSeq) == After(audit, at.auditSeq)[|rows|..]
    decreases |rows|
  {
    if rows != [] {
      AuditStep(audit, run, at);
      assert rows[0] == After(audit, at.auditSeq)[0];
      var next := Marker(rows[0].at, at.runSeq);
      ActionsMove(audit, run, rows[1..], next);
      assert AuditPending(rows, at)[1..] == AuditPending(rows[1..], next);
      assert EndOf(at, AuditPending(rows, at)) == EndOf(next, AuditPending(rows[1..], next));
    }
  }

  // One row further along the feed: the rest of it, or nothing past the terminal.
  lemma FeedStep(audit: seq<Row>, run: seq<Row>, at: Marker)
    requires LogsHold(audit, run) && OpenAt(run, at.runSeq) && After(run, at.runSeq) != []
    ensures var row := After(run, at.runSeq)[0];
            && After(Feed(run), at.runSeq) == [row] + After(Feed(run), row.at)
            && (row.closes ==> After(Feed(run), row.at) == [])
  {
    var row := After(run, at.runSeq)[0];
    RunStep(audit, run, at);
    FeedAfter(run, at.runSeq);
    if row.closes {
      FeedDone(run, row.at);
      NoneAfter(Feed(run), row.at);
    } else {
      FeedAfter(run, row.at);
    }
  }

  lemma {:induction false} EventsMove(audit: seq<Row>, run: seq<Row>, rows: seq<Row>, at: Marker)
    requires LogsHold(audit, run) && OpenAt(run, at.runSeq) && Prefix(rows, After(run, at.runSeq))
    ensures var queue := RunPending(rows, at);
            var feed := After(Feed(run), at.runSeq);
            && |queue| == (if |rows| < |feed| then |rows| else |feed|)
            && After(Feed(run), EndOf(at, queue).runSeq) == feed[|queue|..]
    decreases |rows|
  {
    if rows != [] {
      var row := rows[0];
      assert row == After(run, at.runSeq)[0];
      RunStep(audit, run, at);
      FeedStep(audit, run, at);
      if !row.closes {
        var next := Marker(at.auditSeq, row.at);
        EventsMove(audit, run, rows[1..], next);
        OneRunPending(rows, at);
      }
    }
  }

  lemma OneRunPending(rows: seq<Row>, at: Marker)
    requires rows != [] && !rows[0].closes
    ensures var next := Marker(at.auditSeq, rows[0].at);
            && RunPending(rows, at)[1..] == RunPending(rows[1..], next)
            && |RunPending(rows, at)| == 1 + |RunPending(rows[1..], next)|
            && EndOf(at, RunPending(rows, at)) == EndOf(next, RunPending(rows[1..], next))
  {
    var next := Marker(at.auditSeq, rows[0].at);
    assert RunPending(rows, at)[1..] == RunPending(rows[1..], next);
  }

  function Dropped(rows: seq<Row>, n: nat): seq<Row> {
    if |rows| <= n then [] else rows[n..]
  }

  // What one poll queues.
  function Polled(s: System): seq<Pending>
    requires s.conn.Up?
  {
    var at := s.conn.at;
    var actions := AuditPending(Page(s.audit, at.auditSeq, ACTIONS_PAGE), at);
    var mid := EndOf(at, actions);
    actions + if s.conn.open then RunPending(Page(s.run, mid.runSeq, RUN_PAGE), mid) else []
  }

  lemma PollReads(s: System)
    requires s.conn.Up? && s.conn.phase.Idle?
    ensures Apply(Apply(s, ReadActions), ReadEvents).conn == Up(s.conn.at, s.conn.open, Polled(s), Sending)
  {
    var at := s.conn.at;
    var mid := s.(conn := Up(at, s.conn.open, AuditPending(Page(s.audit, at.auditSeq, ACTIONS_PAGE), at), AuditRead));
    assert Apply(s, ReadActions) == mid;
  }

  lemma PolledEnd(s: System)
    requires Sound(s) && s.conn.Up?
    ensures var end := EndOf(s.conn.at, Polled(s));
            && After(s.audit, end.auditSeq) == Dropped(After(s.audit, s.conn.at.auditSeq), ACTIONS_PAGE)
            && (s.conn.open ==>
                  After(Feed(s.run), end.runSeq) == Dropped(After(Feed(s.run), s.conn.at.runSeq), RUN_PAGE))
  {
    var at := s.conn.at;
    var actions := Page(s.audit, at.auditSeq, ACTIONS_PAGE);
    var queue := AuditPending(actions, at);
    var mid := EndOf(at, queue);
    ActionsMove(s.audit, s.run, actions, at);
    AuditLine(s.audit, s.run, actions, at);
    if s.conn.open {
      var rows := Page(s.run, mid.runSeq, RUN_PAGE);
      EventsMove(s.audit, s.run, rows, mid);
      FeedAfter(s.run, at.runSeq);
      FeedIsPrefix(After(s.run, at.runSeq));
      RunKeepsActions(rows, mid);
      EndJoin(at, queue, RunPending(rows, mid));
    } else {
      assert queue + [] == queue;
    }
  }

  lemma EndJoin(at: Marker, a: seq<Pending>, b: seq<Pending>)
    ensures EndOf(at, a + b) == EndOf(EndOf(at, a), b)
  {
  }

  // One poll whose queue is worked through leaves a whole page less of each log -- the
  // run's counted up to its terminal -- so as many polls as pages catch up.
  lemma EachPollMovesAPage(s: System)
    requires Sound(s) && s.conn.Up? && s.conn.phase.Idle?
    ensures var read := Apply(Apply(s, ReadActions), ReadEvents);
            read.conn.Up? &&
            var end := EndOf(s.conn.at, read.conn.queue);
            && After(s.audit, end.auditSeq) == Dropped(After(s.audit, s.conn.at.auditSeq), ACTIONS_PAGE)
            && (s.conn.open ==>
                  After(Feed(s.run), end.runSeq) == Dropped(After(Feed(s.run), s.conn.at.runSeq), RUN_PAGE))
  {
    PollReads(s);
    PolledEnd(s);
  }

  lemma {:induction false} RunKeepsActions(rows: seq<Row>, at: Marker)
    ensures EndOf(at, RunPending(rows, at)).auditSeq == at.auditSeq
    decreases |rows|
  {
    if rows != [] && !rows[0].closes {
      var next := Marker(at.auditSeq, rows[0].at);
      RunKeepsActions(rows[1..], next);
      assert RunPending(rows, at)[1..] == RunPending(rows[1..], next);
      assert EndOf(at, RunPending(rows, at)) == EndOf(next, RunPending(rows[1..], next));
    }
  }
}
