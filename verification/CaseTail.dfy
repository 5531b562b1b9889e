// The tail as the server runs it: a cursor moved in place by each poll, and a loop that
// polls until standing is lost or the deadline passes. Every execution of the loop is a
// run of the system in `CaseStream`, so what holds of those runs holds of it.
module CaseTail {
  import opened Wrappers
  import opened Markers
  import opened StreamLogs
  import opened CaseStream
  import opened ExactlyOnce

  // A tail's place in both logs, updated row by row.
  class TailCursor {
    var at: Marker
    var runOpen: bool

    constructor (at: Marker, runOpen: bool)
      ensures this.at == at && this.runOpen == runOpen
    {
      this.at := at;
      this.runOpen := runOpen;
    }
  }

  function QueueOf(audit: seq<Row>, run: Option<seq<Row>>, at: Marker): seq<Pending> {
    var actions := AuditPending(Page(audit, at.auditSeq, ACTIONS_PAGE), at);
    var end := EndOf(at, actions);
    actions + if run.None? then [] else RunPending(Page(run.value, end.runSeq, RUN_PAGE), end)
  }

  // The actions read, each with the cursor after it, and where that cursor ends.
  method ReadActionRows(actions: seq<Row>, at: Marker) returns (pending: seq<Pending>, here: Marker)
    ensures pending == AuditPending(actions, at) && here == EndOf(at, pending)
  {
    pending, here := [], at;
    for i := 0 to |actions|
      invariant here == EndOf(at, pending)
      invariant pending + AuditPending(actions[i..], here) == AuditPending(actions, at)
    {
      ghost var rest := AuditPending(actions[i..], here);
      assert actions[i..][1..] == actions[i + 1..];
      here := Marker(actions[i].at, here.runSeq);
      var row := Pending(here, actions[i].name, Audit, false);
      assert pending + rest == (pending + [row]) + AuditPending(actions[i + 1..], here);
      pending := pending + [row];
    }
    assert pending + [] == pending;
  }

  // The run's rows read, each with the cursor after it, up to the one that ends the run.
  method ReadRunRows(events: seq<Row>, at: Marker) returns (pending: seq<Pending>)
    ensures pending == RunPending(events, at)
  {
    pending := [];
    var here := at;
    for i := 0 to |events|
      invariant pending + RunPending(events[i..], here) == RunPending(events, at)
    {
      ghost var rest := RunPending(events[i..], here);
      assert events[i..][1..] == events[i + 1..];
      here := Marker(here.auditSeq, events[i].at);
      var row := Pending(here, events[i].name, Run, events[i].closes);
      if events[i].closes {
        assert rest == [row];
        return pending + [row];
      }
      assert pending + rest == (pending + [row]) + RunPending(events[i + 1..], here);
      pending := pending + [row];
    }
    assert pending + [] == pending;
  }

  // The two reads of a poll, as one queue. No `run` is given once the run half is closed: that
  // log is then left alone.
  method ReadPending(audit: seq<Row>, run: Option<seq<Row>>, at: Marker) returns (pending: seq<Pending>)
    ensures pending == QueueOf(audit, run, at)
  {
    var actions, here := ReadActionRows(Page(audit, at.auditSeq, ACTIONS_PAGE), at);
    if run.None? {
      assert actions + [] == actions;
      return actions;
    }
    var events := ReadRunRows(Page(run.value, here.runSeq, RUN_PAGE), here);
    pending := actions + events;
  }

  // The rows a queue has to tell, in order.
  function NamedRows(queue: seq<Pending>): seq<Pending> {
    if queue == [] then []
    else (if queue[0].name.Some? then [queue[0]] else []) + NamedRows(queue[1..])
  }

  predicate NoneCloses(rows: seq<Pending>) { forall i :: 0 <= i < |rows| ==> !rows[i].closes }

  // A queue worked through as far as its `stop`-th row, from which on nothing is told. Before
  // each named row standing is asked once, and the row is told only on a yes; the row refused
  // is passed and ends it; and with every row passed standing is asked once more. What is kept
  // is the last answer.
  ghost predicate StopsAt(queue: seq<Pending>, at: Marker, open: bool, standing: nat -> bool, asked: nat,
                    stop: nat, end: Marker, left: bool, sent: seq<Pending>, kept: bool)
  {
    && stop <= |queue| && sent == NamedRows(queue[..stop])
    && (forall k :: asked <= k < asked + |sent| ==> standing(k))
    && kept == standing(asked + |sent|)
    && (stop < |queue| ==> queue[stop].name.Some? && !kept)
    && end == (if stop < |queue| then queue[stop].id else EndOf(at, queue))
    && left == (open && NoneCloses(queue[..stop]))
  }

  lemma StopsOn(queue: seq<Pending>, at: Marker, open: bool, standing: nat -> bool, asked: nat,
                stop: nat, end: Marker, left: bool, sent: seq<Pending>, kept: bool)
    requires queue != []
    requires queue[0].name.Some? ==> standing(asked)
    requires var row := queue[0];
             StopsAt(queue[1..], row.id, open && !row.closes, standing, if row.name.None? then asked else asked + 1,
               stop, end, left, sent, kept)
    ensures StopsAt(queue, at, open, standing, asked, stop + 1, end, left,
              (if queue[0].name.Some? then [queue[0]] else []) + sent, kept)
  {
    var row := queue[0];
    var all := (if row.name.Some? then [row] else []) + sent;
    assert queue[..stop + 1][1..] == queue[1..][..stop];
    assert queue[..stop + 1] == [row] + queue[1..][..stop];
    assert row.name.None? ==> all == sent;
    assert EndOf(at, queue) == EndOf(row.id, queue[1..]);
  }

  // However standing answers, a sweep asks before each row it tells and once more, and stops at
  // the first no.
  lemma {:induction false} SweepStops(queue: seq<Pending>, at: Marker, open: bool, standing: nat -> bool, asked: nat)
    returns (stop: nat)
    ensures var swept := Sweep(queue, at, open, standing, asked);
            && StopsAt(queue, at, open, standing, asked, stop, swept.at, swept.open, swept.sent, swept.kept)
            && swept.asked == asked + |swept.sent| + 1
    decreases |queue|
  {
    stop := 0;
    if queue != [] {
      var row := queue[0];
      var asked' := if row.name.None? then asked else asked + 1;
      if row.name.None? || standing(asked) {
        var before := SweepStops(queue[1..], row.id, open && !row.closes, standing, asked');
        var rest := Sweep(queue[1..], row.id, open && !row.closes, standing, asked');
        StopsOn(queue, at, open, standing, asked, before, rest.at, rest.open, rest.sent, rest.kept);
        stop := before + 1;
        assert [] + rest.sent == rest.sent;
      }
    }
  }

  lemma {:induction false} NamedBefore(queue: seq<Pending>, stop: nat)
    requires stop <= |queue|
    ensures NamedRows(queue[..stop]) <= NamedRows(queue)
    ensures stop < |queue| && queue[stop].name.Some? ==> |NamedRows(queue[..stop])| < |NamedRows(queue)|
  {
    if stop > 0 {
      NamedBefore(queue[1..], stop - 1);
      assert queue[..stop][1..] == queue[1..][..stop - 1];
    }
  }

  // Standing is kept exactly when every question a whole sweep asks is answered yes: one for
  // each row it has to tell, and the last.
  lemma KeptIsEveryYes(queue: seq<Pending>, at: Marker, open: bool, standing: nat -> bool, asked: nat)
    ensures var swept := Sweep(queue, at, open, standing, asked);
            && (swept.kept <==> forall k :: asked <= k <= asked + |NamedRows(queue)| ==> standing(k))
            && (swept.kept ==> swept.sent == NamedRows(queue) && swept.at == EndOf(at, queue))
  {
    var swept := Sweep(queue, at, open, standing, asked);
    var stop := SweepStops(queue, at, open, standing, asked);
    NamedBefore(queue, stop);
    if stop == |queue| {
      assert queue[..stop] == queue;
    } else {
      assert !standing(asked + |swept.sent|);
    }
  }

  // A queue worked through: told up to the first no, and kept exactly when every question a
  // whole sweep asks is answered yes.
  ghost predicate WorkedThrough(queue: seq<Pending>, at: Marker, open: bool, standing: nat -> bool,
                                end: Marker, left: bool, sent: seq<Pending>, kept: bool)
  {
    && (exists stop :: StopsAt(queue, at, open, standing, 0, stop, end, left, sent, kept))
    && (kept <==> forall k :: 0 <= k <= |NamedRows(queue)| ==> standing(k))
  }

  lemma SweepWorksThrough(queue: seq<Pending>, at: Marker, open: bool, standing: nat -> bool)
    ensures var swept := Sweep(queue, at, open, standing, 0);
            WorkedThrough(queue, at, open, standing, swept.at, swept.open, swept.sent, swept.kept)
  {
    var stop := SweepStops(queue, at, open, standing, 0);
    KeptIsEveryYes(queue, at, open, standing, 0);
  }

  // A poll queued and swept in place: `standing(k)` is the answer to its `k`-th question, and
  // what the cursor, the rows sent and the last answer come to is the sweep of the queue.
  method Poll(audit: seq<Row>, run: seq<Row>, cursor: TailCursor, standing: nat -> bool)
    returns (sent: seq<Pending>, kept: bool)
    modifies cursor
    ensures var queue := QueueOf(audit, if old(cursor.runOpen) then Some(run) else None, old(cursor.at));
            var swept := Sweep(queue, old(cursor.at), old(cursor.runOpen), standing, 0);
            && cursor.at == swept.at && cursor.runOpen == swept.open && sent == swept.sent && kept == swept.kept
  {
    var queue := ReadPending(audit, if cursor.runOpen then Some(run) else None, cursor.at);
    ghost var all := Sweep(queue, cursor.at, cursor.runOpen, standing, 0);
    var asked := 0;
    sent := [];
    for i := 0 to |queue|
      invariant Extended(sent, Sweep(queue[i..], cursor.at, cursor.runOpen, standing, asked)) == all
    {
      var row := queue[i];
      SweepFirst(queue[i..], cursor.at, cursor.runOpen, standing, asked, sent);
      assert queue[i..][1..] == queue[i + 1..];
      cursor.at := row.id;
      if row.name.Some? {
        if !standing(asked) {
          return sent, false;
        }
        asked := asked + 1;
        sent := sent + [row];
      }
      cursor.runOpen := cursor.runOpen && !row.closes;
    }
    kept := standing(asked);
  }

  function Extended(sent: seq<Pending>, swept: Swept): Swept {
    swept.(sent := sent + swept.sent)
  }

  lemma SweepFirst(queue: seq<Pending>, at: Marker, open: bool, standing: nat -> bool, asked: nat, sent: seq<Pending>)
    requires queue != []
    ensures var row := queue[0];
            Extended(sent, Sweep(queue, at, open, standing, asked)) ==
            if row.name.None? then Extended(sent, Sweep(queue[1..], row.id, open && !row.closes, standing, asked))
            else if !standing(asked) then Swept(row.id, open, sent, asked + 1, false)
            else Extended(sent + [row], Sweep(queue[1..], row.id, open && !row.closes, standing, asked + 1))
  {
    var rest := Sweep(queue[1..], queue[0].id, open && !queue[0].closes, standing, asked + 1);
    assert sent + ([queue[0]] + rest.sent) == (sent + [queue[0]]) + rest.sent;
  }

  /* ----- the loop is a run of the system ----- */

  lemma OneStep(s: System, step: Step)
    ensures Steps(s, [step]) == Apply(s, step)
  {
    assert [step][..0] == [];
  }

  predicate OnlyAppends(steps: seq<Step>) {
    forall i :: 0 <= i < |steps| ==> steps[i].AppendAction? || steps[i].AppendEvent?
  }

  lemma {:induction false} AppendsTouchLogsOnly(s: System, steps: seq<Step>, conn: Conn, wire: seq<Frame>)
    requires OnlyAppends(steps)
    ensures Steps(s.(conn := conn, wire := wire), steps) == Steps(s, steps).(conn := conn, wire := wire)
    ensures Steps(s, steps) == s.(audit := Steps(s, steps).audit, run := Steps(s, steps).run)
    decreases |steps|
  {
    if steps != [] {
      AppendsTouchLogsOnly(s, steps[..|steps| - 1], conn, wire);
    }
  }

  // The deliveries a sweep makes of its queue, each with the answer standing gave it.
  function Deliveries(queue: seq<Pending>, standing: nat -> bool, asked: nat): seq<Step> {
    if queue == [] then []
    else if queue[0].name.None? then [Deliver(true)] + Deliveries(queue[1..], standing, asked)
    else if !standing(asked) then [Deliver(false)]
    else [Deliver(true)] + Deliveries(queue[1..], standing, asked + 1)
  }

  function Frames(rows: seq<Pending>): (frames: seq<Frame>)
    ensures |frames| == |rows|
  {
    if rows == [] then [] else [Named(rows[0])] + Frames(rows[1..])
  }

  // Whether standing is lost before one of the queue's named rows.
  predicate LostMidway(queue: seq<Pending>, standing: nat -> bool, asked: nat) {
    queue != [] &&
    if queue[0].name.None? then LostMidway(queue[1..], standing, asked)
    else !standing(asked) || LostMidway(queue[1..], standing, asked + 1)
  }

  // Where the sweep of a sending tail leaves the system.
  function SweptTo(s: System, standing: nat -> bool, asked: nat): System
    requires s.conn.Up?
  {
    var swept := Sweep(s.conn.queue, s.conn.at, s.conn.open, standing, asked);
    s.(conn := if LostMidway(s.conn.queue, standing, asked) then Down else Up(swept.at, swept.open, [], Sending),
       wire := s.wire + Frames(swept.sent))
  }

  lemma SweptPast(s: System, standing: nat -> bool, asked: nat)
    requires s.conn.Up? && s.conn.queue != []
    requires s.conn.queue[0].name.None? || standing(asked)
    ensures SweptTo(s, standing, asked)
            == SweptTo(Passed(s), standing, if s.conn.queue[0].name.None? then asked else asked + 1)
  {
    var row := s.conn.queue[0];
    var next := Passed(s);
    var asked' := if row.name.None? then asked else asked + 1;
    var sent := Sweep(next.conn.queue, next.conn.at, next.conn.open, standing, asked').sent;
    if row.name.Some? {
      assert ([row] + sent)[1..] == sent;
      assert s.wire + ([Named(row)] + Frames(sent)) == (s.wire + [Named(row)]) + Frames(sent);
    }
  }

  lemma {:induction false} SweepIsDeliveries(s: System, standing: nat -> bool, asked: nat)
    requires s.conn.Up? && s.conn.phase.Sending?
    ensures Steps(s, Deliveries(s.conn.queue, standing, asked)) == SweptTo(s, standing, asked)
    decreases |s.conn.queue|
  {
    var queue := s.conn.queue;
    if queue == [] {
      assert s.wire + [] == s.wire;
    } else if queue[0].name.None? || standing(asked) {
      var asked' := if queue[0].name.None? then asked else asked + 1;
      DeliverPasses(s);
      SweepIsDeliveries(Passed(s), standing, asked');
      StepsJoin(s, [Deliver(true)], Deliveries(queue[1..], standing, asked'));
      SweptPast(s, standing, asked);
    } else {
      OneStep(s, Deliver(false));
      assert s.wire + [] == s.wire;
    }
  }

  lemma DeliverPasses(s: System)
    requires s.conn.Up? && s.conn.phase.Sending? && s.conn.queue != []
    ensures Steps(s, [Deliver(true)]) == Passed(s)
  {
    OneStep(s, Deliver(true));
  }

  lemma {:induction false} LostMidwayIsNotKept(queue: seq<Pending>, at: Marker, open: bool, standing: nat -> bool, asked: nat)
    requires LostMidway(queue, standing, asked)
    ensures !Sweep(queue, at, open, standing, asked).kept
    decreases |queue|
  {
    var row := queue[0];
    if row.name.None? {
      LostMidwayIsNotKept(queue[1..], row.id, open && !row.closes, standing, asked);
    } else if standing(asked) {
      LostMidwayIsNotKept(queue[1..], row.id, open && !row.closes, standing, asked + 1);
    }
  }

  // What one poll of the loop meets: what the logs gain before its first read and between
  // its two, the answers standing gives, and whether the deadline leaves another poll.
  datatype Turn = Turn(before: seq<Step>, between: seq<Step>, standing: nat -> bool, more: bool)

  predicate Appends(turn: Turn) { OnlyAppends(turn.before) && OnlyAppends(turn.between) }

  // The store as a turn's second read finds it.
  function Grown(store: System, turn: Turn): System { Steps(Steps(store, turn.before), turn.between) }

  // What a turn's two reads queue, and what its sweep makes of that.
  function Queued(store: System, at: Marker, open: bool, turn: Turn): seq<Pending> {
    QueueOf(Steps(store, turn.before).audit, if open then Some(Grown(store, turn).run) else None, at)
  }

  function SweptBy(store: System, at: Marker, open: bool, turn: Turn): Swept {
    Sweep(Queued(store, at, open, turn), at, open, turn.standing, 0)
  }

  // A turn is followed by another while standing is kept and the deadline leaves one.
  predicate GoesOn(store: System, at: Marker, open: bool, turn: Turn) {
    SweptBy(store, at, open, turn).kept && turn.more
  }

  // That is, exactly while every question a whole poll asks -- one a row it has to tell, and
  // one at its end -- is answered yes, and the deadline leaves time.
  lemma GoesOnWithStanding(store: System, at: Marker, open: bool, turn: Turn)
    ensures GoesOn(store, at, open, turn) <==>
              turn.more && forall k :: 0 <= k <= |NamedRows(Queued(store, at, open, turn))| ==> turn.standing(k)
  {
    KeptIsEveryYes(Queued(store, at, open, turn), at, open, turn.standing, 0);
  }

  // The steps of one turn.
  function TurnSteps(store: System, at: Marker, open: bool, turn: Turn): seq<Step> {
    (turn.before + [ReadActions] + turn.between + [ReadEvents])
    + (Deliveries(Queued(store, at, open, turn), turn.standing, 0) + [EndPoll(GoesOn(store, at, open, turn))])
  }

  // The tail between polls, over the store as it then stands.
  function Between(store: System, at: Marker, open: bool, wire: seq<Frame>): System {
    WithTail(store, Up(at, open, [], Idle), wire)
  }

  // The system after a turn.
  function Turned(store: System, at: Marker, open: bool, wire: seq<Frame>, turn: Turn): System {
    var swept := SweptBy(store, at, open, turn);
    WithTail(Grown(store, turn),
      if GoesOn(store, at, open, turn) then Up(swept.at, swept.open, [], Idle) else Down, wire + Frames(swept.sent))
  }

  lemma Chain(s: System, a: seq<Step>, mid: System, b: seq<Step>, end: System)
    requires Steps(s, a) == mid && Steps(mid, b) == end
    ensures Steps(s, a + b) == end
  {
    StepsJoin(s, a, b);
  }

  function WithTail(store: System, conn: Conn, wire: seq<Frame>): System {
    store.(conn := conn, wire := wire)
  }

  lemma ReadsActions(read: System, at: Marker, open: bool, wire: seq<Frame>)
    ensures var actions := AuditPending(Page(read.audit, at.auditSeq, ACTIONS_PAGE), at);
            Steps(WithTail(read, Up(at, open, [], Idle), wire), [ReadActions])
            == WithTail(read, Up(at, open, actions, AuditRead), wire)
  {
    OneStep(WithTail(read, Up(at, open, [], Idle), wire), ReadActions);
  }

  lemma ReadsEvents(grown: System, at: Marker, open: bool, wire: seq<Frame>, actions: seq<Pending>)
    ensures var end := EndOf(at, actions);
            var events := if open then RunPending(Page(grown.run, end.runSeq, RUN_PAGE), end) else [];
            Steps(WithTail(grown, Up(at, open, actions, AuditRead), wire), [ReadEvents])
            == WithTail(grown, Up(at, open, actions + events, Sending), wire)
  {
    OneStep(WithTail(grown, Up(at, open, actions, AuditRead), wire), ReadEvents);
  }

  lemma ReadsAreSteps(store: System, at: Marker, open: bool, wire: seq<Frame>, turn: Turn)
    requires Appends(turn)
    ensures Steps(Between(store, at, open, wire), turn.before + [ReadActions] + turn.between + [ReadEvents])
            == WithTail(Grown(store, turn), Up(at, open, Queued(store, at, open, turn), Sending), wire)
  {
    var read, grown := Steps(store, turn.before), Grown(store, turn);
    var actions := AuditPending(Page(read.audit, at.auditSeq, ACTIONS_PAGE), at);
    var idle, midway := Up(at, open, [], Idle), Up(at, open, actions, AuditRead);
    var s0 := WithTail(store, idle, wire);
    AppendsTouchLogsOnly(store, turn.before, idle, wire);
    ReadsActions(read, at, open, wire);
    Chain(s0, turn.before, WithTail(read, idle, wire), [ReadActions], WithTail(read, midway, wire));
    AppendsTouchLogsOnly(read, turn.between, midway, wire);
    Chain(s0, turn.before + [ReadActions], WithTail(read, midway, wire), turn.between, WithTail(grown, midway, wire));
    ReadsEvents(grown, at, open, wire, actions);
    Chain(s0, turn.before + [ReadActions] + turn.between, WithTail(grown, midway, wire),
      [ReadEvents], WithTail(grown, Up(at, open, Queued(store, at, open, turn), Sending), wire));
  }

  // A poll from its reads on: deliveries, then its end.
  lemma SendsAreSteps(s: System, standing: nat -> bool, more: bool)
    requires s.conn.Up? && s.conn.phase.Sending?
    ensures var swept := Sweep(s.conn.queue, s.conn.at, s.conn.open, standing, 0);
            var goOn := swept.kept && more;
            Steps(s, Deliveries(s.conn.queue, standing, 0) + [EndPoll(goOn)])
            == s.(conn := if goOn then Up(swept.at, swept.open, [], Idle) else Down,
                  wire := s.wire + Frames(swept.sent))
  {
    var swept := Sweep(s.conn.queue, s.conn.at, s.conn.open, standing, 0);
    var goOn := swept.kept && more;
    var sends := Deliveries(s.conn.queue, standing, 0);
    SweepIsDeliveries(s, standing, 0);
    if LostMidway(s.conn.queue, standing, 0) {
      LostMidwayIsNotKept(s.conn.queue, s.conn.at, s.conn.open, standing, 0);
    }
    StepsJoin(s, sends, [EndPoll(goOn)]);
    OneStep(SweptTo(s, standing, 0), EndPoll(goOn));
  }

  lemma SentAreSteps(grown: System, at: Marker, open: bool, queue: seq<Pending>, wire: seq<Frame>, standing: nat -> bool, more: bool)
    ensures var swept := Sweep(queue, at, open, standing, 0);
            var goOn := swept.kept && more;
            Steps(WithTail(grown, Up(at, open, queue, Sending), wire), Deliveries(queue, standing, 0) + [EndPoll(goOn)])
            == WithTail(grown, if goOn then Up(swept.at, swept.open, [], Idle) else Down, wire + Frames(swept.sent))
  {
    SendsAreSteps(WithTail(grown, Up(at, open, queue, Sending), wire), standing, more);
  }

  // One turn of the loop is its steps of the system.
  lemma TurnIsSteps(store: System, at: Marker, open: bool, wire: seq<Frame>, turn: Turn)
    requires Appends(turn)
    ensures Steps(Between(store, at, open, wire), TurnSteps(store, at, open, turn)) == Turned(store, at, open, wire, turn)
  {
    var queue := Queued(store, at, open, turn);
    ReadsAreSteps(store, at, open, wire, turn);
    SentAreSteps(Grown(store, turn), at, open, queue, wire, turn.standing, turn.more);
    Chain(Between(store, at, open, wire), turn.before + [ReadActions] + turn.between + [ReadEvents],
      WithTail(Grown(store, turn), Up(at, open, queue, Sending), wire),
      Deliveries(queue, turn.standing, 0) + [EndPoll(GoesOn(store, at, open, turn))],
      Turned(store, at, open, wire, turn));
  }

  // Only the server and the store have moved.
  predicate ServerSide(steps: seq<Step>) {
    forall i :: 0 <= i < |steps| ==> !steps[i].Receive? && !steps[i].Cut?
  }

  lemma {:induction false} DeliveriesDeliver(queue: seq<Pending>, standing: nat -> bool, asked: nat)
    ensures ServerSide(Deliveries(queue, standing, asked))
    decreases |queue|
  {
    if queue != [] {
      DeliveriesDeliver(queue[1..], standing, asked);
      DeliveriesDeliver(queue[1..], standing, asked + 1);
    }
  }

  lemma ServerSideJoin(a: seq<Step>, b: seq<Step>)
    requires ServerSide(a) && ServerSide(b)
    ensures ServerSide(a + b)
  {
  }

  lemma TurnIsServerSide(store: System, at: Marker, open: bool, turn: Turn)
    requires Appends(turn)
    ensures ServerSide(TurnSteps(store, at, open, turn))
  {
    DeliveriesDeliver(Queued(store, at, open, turn), turn.standing, 0);
    ServerSideJoin(turn.before, [ReadActions]);
    ServerSideJoin(turn.before + [ReadActions], turn.between);
    ServerSideJoin(turn.before + [ReadActions] + turn.between, [ReadEvents]);
    var sends := Deliveries(Queued(store, at, open, turn), turn.standing, 0);
    ServerSideJoin(sends, [EndPoll(GoesOn(store, at, open, turn))]);
    ServerSideJoin(turn.before + [ReadActions] + turn.between + [ReadEvents],
      sends + [EndPoll(GoesOn(store, at, open, turn))]);
  }

  // What a tail does and sends turn by turn, to the first that is not followed by another.
  datatype Ran = Ran(steps: seq<Step>, sent: seq<Frame>)

  function RunOf(store: System, at: Marker, open: bool, turns: seq<Turn>): Ran
    decreases |turns|
  {
    if turns == [] then Ran([], [])
    else
      var swept := SweptBy(store, at, open, turns[0]);
      var rest :=
        if GoesOn(store, at, open, turns[0]) then RunOf(Grown(store, turns[0]), swept.at, swept.open, turns[1..])
        else Ran([], []);
      Ran(TurnSteps(store, at, open, turns[0]) + rest.steps, Frames(swept.sent) + rest.sent)
  }

  // Where a client's tail starts: the marker it resumes at, and whether the run half is open.
  function StartsAt(joined: System, given: Option<string>): Marker {
    ParseMarker(LastEventId(joined, given), Heads(joined))
  }

  function StartsOpen(joined: System, given: Option<string>): bool {
    joined.hasRun && OpenAt(joined.run, StartsAt(joined, given).runSeq)
  }

  // A tail's frames, and the steps it takes: nothing without standing; else the cursor it
  // starts at and what its turns send.
  function TailOf(joined: System, mayWatch: bool, given: Option<string>, turns: seq<Turn>): Ran {
    var at := StartsAt(joined, given);
    var ran := RunOf(joined, at, StartsOpen(joined, given), turns);
    if mayWatch then Ran([Connect(true, given)] + ran.steps, [Cursor(at)] + ran.sent)
    else Ran([Connect(false, given)], [])
  }

  // Without standing a tail sends nothing and connects nothing; with it the first frame is the
  // cursor it starts at.
  lemma TailNeedsStanding(joined: System, given: Option<string>, turns: seq<Turn>)
    ensures var refused := TailOf(joined, false, given, turns);
            refused.sent == [] && Steps(joined, refused.steps) == joined
    ensures var begun := TailOf(joined, true, given, turns);
            begun.sent != [] && begun.sent[0] == Cursor(StartsAt(joined, given))
  {
    OneStep(joined, Connect(false, given));
  }

  // One turn more of a run still going on.
  lemma TurnOn(store: System, at: Marker, open: bool, turns: seq<Turn>, steps: seq<Step>, frames: seq<Frame>)
    requires turns != []
    ensures var all := RunOf(store, at, open, turns);
            var swept := SweptBy(store, at, open, turns[0]);
            var steps', frames' := steps + TurnSteps(store, at, open, turns[0]), frames + Frames(swept.sent);
            if GoesOn(store, at, open, turns[0]) then
              var rest := RunOf(Grown(store, turns[0]), swept.at, swept.open, turns[1..]);
              steps + all.steps == steps' + rest.steps && frames + all.sent == frames' + rest.sent
            else steps + all.steps == steps' && frames + all.sent == frames'
  {
    var swept := SweptBy(store, at, open, turns[0]);
    var taken, sent := TurnSteps(store, at, open, turns[0]), Frames(swept.sent);
    var rest :=
      if GoesOn(store, at, open, turns[0]) then RunOf(Grown(store, turns[0]), swept.at, swept.open, turns[1..])
      else Ran([], []);
    assert RunOf(store, at, open, turns) == Ran(taken + rest.steps, sent + rest.sent);
    Regrouped(steps, taken, rest.steps);
    Regrouped(frames, sent, rest.sent);
  }

  lemma Regrouped<T>(a: seq<T>, b: seq<T>, c: seq<T>)
    ensures (a + b) + c == a + (b + c)
    ensures c == [] ==> a + (b + c) == a + b
  {
  }

  // The loop's place in the tail: what it has done and sent so far is a run of the system,
  // and with what its turns left would do and send it is the whole tail.
  ghost predicate Underway(joined: System, all: Ran, steps: seq<Step>, frames: seq<Frame>,
                           store: System, at: Marker, open: bool, left: seq<Turn>)
  {
    var rest := RunOf(store, at, open, left);
    && ServerSide(steps) && Steps(joined, steps) == Between(store, at, open, frames)
    && steps + rest.steps == all.steps && frames + rest.sent == all.sent
  }

  lemma TurnTaken(joined: System, all: Ran, steps: seq<Step>, frames: seq<Frame>,
                  store: System, at: Marker, open: bool, left: seq<Turn>)
    requires left != [] && Appends(left[0]) && Underway(joined, all, steps, frames, store, at, open, left)
    ensures var swept := SweptBy(store, at, open, left[0]);
            var steps', frames' := steps + TurnSteps(store, at, open, left[0]), frames + Frames(swept.sent);
            if GoesOn(store, at, open, left[0]) then
              Underway(joined, all, steps', frames', Grown(store, left[0]), swept.at, swept.open, left[1..])
            else
              && ServerSide(steps') && Steps(joined, steps').wire == frames'
              && steps' == all.steps && frames' == all.sent
  {
    TurnIsSteps(store, at, open, frames, left[0]);
    StepsJoin(joined, steps, TurnSteps(store, at, open, left[0]));
    TurnIsServerSide(store, at, open, left[0]);
    ServerSideJoin(steps, TurnSteps(store, at, open, left[0]));
    TurnOn(store, at, open, left, steps, frames);
  }

  lemma TailStarts(joined: System, given: Option<string>, turns: seq<Turn>)
    requires joined.conn.Down? && joined.wire == []
    ensures var at := StartsAt(joined, given);
            Underway(joined, TailOf(joined, true, given, turns), [Connect(true, given)], [Cursor(at)],
              joined, at, StartsOpen(joined, given), turns)
  {
    OneStep(joined, Connect(true, given));
  }

  // The whole tail, from the store it connects to: the cursor frame, then each turn's named
  // frames, until standing is lost, a turn is the last, or no more turns are given.
  method Tail(joined: System, mayWatch: bool, given: Option<string>, turns: seq<Turn>)
    returns (frames: seq<Frame>, ghost steps: seq<Step>)
    requires joined.conn.Down? && joined.wire == []
    requires forall i :: 0 <= i < |turns| ==> Appends(turns[i])
    ensures frames == TailOf(joined, mayWatch, given, turns).sent
    ensures steps == TailOf(joined, mayWatch, given, turns).steps
    ensures ServerSide(steps) && Steps(joined, steps).wire == frames
    ensures Sound(joined) ==> Sound(Steps(joined, steps))
  {
    var at := StartsAt(joined, given);
    var cursor := new TailCursor(at, StartsOpen(joined, given));
    if !mayWatch {
      OneStep(joined, Connect(false, given));
      assert Steps(joined, [Connect(false, given)]) == joined;
      return [], [Connect(false, given)];
    }
    TailStarts(joined, given, turns);
    ghost var all := TailOf(joined, mayWatch, given, turns);
    steps := [Connect(true, given)];
    frames := [Cursor(at)];
    var store := joined;
    for i := 0 to |turns|
      invariant Underway(joined, all, steps, frames, store, cursor.at, cursor.runOpen, turns[i..])
    {
      var turn := turns[i];
      assert turns[i..][0] == turn && turns[i..][1..] == turns[i + 1..];
      TurnTaken(joined, all, steps, frames, store, cursor.at, cursor.runOpen, turns[i..]);
      steps := steps + TurnSteps(store, cursor.at, cursor.runOpen, turn);
      var read := Steps(store, turn.before);
      store := Steps(read, turn.between);
      var sent, kept := Poll(read.audit, store.run, cursor, turn.standing);
      frames := frames + Frames(sent);
      if !kept || !turn.more {
        RunIsSound(joined, steps);
        return;
      }
    }
    assert steps + [] == steps && frames + [] == frames;
    RunIsSound(joined, steps);
  }

  lemma RunIsSound(s: System, steps: seq<Step>)
    ensures Sound(s) ==> Sound(Steps(s, steps))
  {
    if Sound(s) {
      StepsKeep(s, steps);
    }
  }
}
