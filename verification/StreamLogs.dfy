// The two append-only logs behind a case stream, and which of their rows a reader
// positioned between two markers is to be told of.
module StreamLogs {
  import opened Wrappers
  import opened EventNames

  // A row as stored: its position, the name it is told under if any, and whether a run is over
  // with it.
  datatype Row = Row(at: nat, name: Option<EventName>, closes: bool)

  function AuditRow(at: nat, action: Action): Row {
    Row(at, OfAction(action), false)
  }

  function RunRow(at: nat, event: RunEvent): Row {
    Row(at, OfRunEvent(event), Terminal(event))
  }

  // A run is over with exactly the rows told as its terminal, and no action is told so; every
  // event of a run is told, an accepted attempt as a handoff.
  lemma TerminalsAreTold(at: nat, event: RunEvent, action: Action)
    ensures RunRow(at, event).closes <==> RunRow(at, event).name == Some(RunTerminal)
    ensures RunRow(at, event).name.Some? && (RunRow(at, event).name == Some(HandoffAccepted) <==> event == AttemptAccepted)
    ensures !AuditRow(at, action).closes && AuditRow(at, action).name != Some(RunTerminal)
  {
  }

  // Of the actions, those that change what a section shows are told, by what they change.
  lemma ActionsAreTold(at: nat, action: Action)
    ensures AuditRow(at, action).name == Some(SourcesChanged) <==> action == SourceWithdrawn || action == SourcesAdmitted
    ensures AuditRow(at, action).name == Some(FilingChanged) <==>
              action == OpinionSigned || action == DeliverableFrozen || action == DeliverableFiled
    ensures AuditRow(at, action).name == None <==>
              || action.Unlisted? || action == CaseCreated || action == RevisionSaved
              || action == StandingGranted || action == StandingRevoked
              || action == BookEntryAdded || action == BookEntryWithdrawn
  {
  }

  // Positions start at one and only rise.
  ghost predicate Ascending(log: seq<Row>) {
    && (forall i :: 0 <= i < |log| ==> 1 <= log[i].at)
    && (forall i, j :: 0 <= i < j < |log| ==> log[i].at < log[j].at)
  }

  // The last position held, zero for an empty log.
  function Head(log: seq<Row>): nat {
    if log == [] then 0 else log[|log| - 1].at
  }

  // The position of the first row that ends the run.
  function FirstTerminal(log: seq<Row>): Option<nat> {
    if log == [] then None
    else if log[0].closes then Some(log[0].at)
    else FirstTerminal(log[1..])
  }

  // The rows strictly after a position.
  function After(log: seq<Row>, at: nat): seq<Row> {
    if log == [] then []
    else if log[0].at > at then [log[0]] + After(log[1..], at)
    else After(log[1..], at)
  }

  // One read: at most `limit` of them.
  function Page(log: seq<Row>, at: nat, limit: nat): seq<Row> {
    var rows := After(log, at);
    if |rows| <= limit then rows else rows[..limit]
  }

  // The rows up to and including the first that ends the run.
  function Feed(log: seq<Row>): seq<Row> {
    if log == [] then []
    else if log[0].closes then [log[0]]
    else [log[0]] + Feed(log[1..])
  }

  // The named rows strictly after `lo` and no later than `hi`, in order.
  function Told(log: seq<Row>, lo: nat, hi: nat): seq<Row> {
    if log == [] then []
    else if lo < log[0].at <= hi && log[0].name.Some? then [log[0]] + Told(log[1..], lo, hi)
    else Told(log[1..], lo, hi)
  }

  ghost predicate Prefix(a: seq<Row>, b: seq<Row>) {
    |a| <= |b| && a == b[..|a|]
  }

  lemma {:induction false} ToldNone(log: seq<Row>, lo: nat, hi: nat)
    requires forall i :: 0 <= i < |log| ==> log[i].at <= lo || hi < log[i].at
    ensures Told(log, lo, hi) == []
  {
    if log != [] {
      ToldNone(log[1..], lo, hi);
    }
  }

  lemma ToldFirst(log: seq<Row>, lo: nat, hi: nat)
    requires log != []
    ensures Told(log, lo, hi)
            == (if lo < log[0].at <= hi && log[0].name.Some? then [log[0]] else []) + Told(log[1..], lo, hi)
  {
  }

  lemma {:induction false} ToldSplit(log: seq<Row>, lo: nat, mid: nat, hi: nat)
    requires Ascending(log) && lo <= mid <= hi
    ensures Told(log, lo, hi) == Told(log, lo, mid) + Told(log, mid, hi)
  {
    if log != [] {
      ToldSplit(log[1..], lo, mid, hi);
      if mid < log[0].at {
        ToldNone(log, lo, mid);
        ToldNone(log[1..], lo, mid);
      } else {
        ToldFirst(log, lo, hi);
        ToldFirst(log, lo, mid);
      }
    }
  }

  lemma {:induction false} ToldGrows(log: seq<Row>, row: Row, lo: nat, hi: nat)
    requires hi < row.at
    ensures Told(log + [row], lo, hi) == Told(log, lo, hi)
  {
    if log == [] {
      assert log + [row] == [row];
    } else {
      assert (log + [row])[1..] == log[1..] + [row];
      ToldGrows(log[1..], row, lo, hi);
    }
  }

  lemma {:induction false} AfterHolds(log: seq<Row>, at: nat, row: Row)
    ensures row in After(log, at) <==> row in log && row.at > at
  {
    if log != [] {
      AfterHolds(log[1..], at, row);
      assert log == [log[0]] + log[1..];
    }
  }

  lemma {:induction false} AfterAscends(log: seq<Row>, at: nat)
    requires Ascending(log)
    ensures Ascending(After(log, at))
  {
    if log != [] {
      AfterAscends(log[1..], at);
      var rest := After(log[1..], at);
      forall i | 0 <= i < |rest|
        ensures rest[i].at > log[0].at
      {
        AfterHolds(log[1..], at, rest[i]);
      }
    }
  }

  lemma AfterIsSorted(log: seq<Row>, at: nat)
    requires Ascending(log)
    ensures Ascending(After(log, at))
    ensures forall row :: row in After(log, at) <==> row in log && row.at > at
  {
    AfterAscends(log, at);
    forall row
      ensures row in After(log, at) <==> row in log && row.at > at
    {
      AfterHolds(log, at, row);
    }
  }

  // Moving to the first row after a position leaves the rows after that one, and the
  // step tells of that row alone.
  lemma {:induction false} AfterStep(log: seq<Row>, at: nat)
    requires Ascending(log) && After(log, at) != []
    ensures var row := After(log, at)[0];
            && row.at > at
            && After(log, row.at) == After(log, at)[1..]
            && Told(log, at, row.at) == if row.name.Some? then [row] else []
  {
    if log[0].at > at {
      AllAfter(log[1..], at);
      AllAfter(log[1..], log[0].at);
      ToldNone(log[1..], at, log[0].at);
    } else {
      AfterStep(log[1..], at);
      AfterIsSorted(log[1..], at);
      assert After(log, at)[0] in log[1..];
    }
  }

  lemma {:induction false} AllAfter(log: seq<Row>, at: nat)
    requires forall i :: 0 <= i < |log| ==> log[i].at > at
    ensures After(log, at) == log
  {
    if log != [] {
      AllAfter(log[1..], at);
    }
  }

  lemma {:induction false} NoneAfter(log: seq<Row>, at: nat)
    requires forall i :: 0 <= i < |log| ==> log[i].at <= at
    ensures After(log, at) == []
  {
    if log != [] {
      NoneAfter(log[1..], at);
    }
  }

  lemma {:induction false} FeedIsPrefix(log: seq<Row>)
    ensures Prefix(Feed(log), log)
    ensures Ascending(log) ==> Ascending(Feed(log))
  {
    if log != [] {
      FeedIsPrefix(log[1..]);
      assert Prefix(Feed(log), log);
    }
  }

  lemma {:induction false} FeedOfPrefix(a: seq<Row>, b: seq<Row>)
    requires Prefix(a, b)
    ensures Prefix(Feed(a), Feed(b))
  {
    if a != [] && !a[0].closes {
      assert a[0] == b[0];
      FeedOfPrefix(a[1..], b[1..]);
    }
  }

  lemma {:induction false} FeedGrows(log: seq<Row>, row: Row)
    ensures Feed(log + [row]) == if FirstTerminal(log).Some? then Feed(log) else Feed(log) + [row]
  {
    if log == [] {
      assert log + [row] == [row];
    } else if !log[0].closes {
      assert (log + [row])[1..] == log[1..] + [row];
      FeedGrows(log[1..], row);
    }
  }

  lemma {:induction false} TerminalGrows(log: seq<Row>, row: Row)
    ensures FirstTerminal(log + [row]) ==
            if FirstTerminal(log).Some? then FirstTerminal(log)
            else if row.closes then Some(row.at) else None
  {
    if log == [] {
      assert log + [row] == [row];
    } else if !log[0].closes {
      assert (log + [row])[1..] == log[1..] + [row];
      TerminalGrows(log[1..], row);
    }
  }

  // Whether the run half is still to be read from `at`: its terminal is not behind it.
  predicate OpenAt(run: seq<Row>, at: nat) {
    var terminal := FirstTerminal(run);
    terminal.None? || at < terminal.value
  }

  // Reading on and stopping at the terminal is reading on in the feed.
  lemma {:induction false} FeedAfter(log: seq<Row>, at: nat)
    requires Ascending(log) && OpenAt(log, at)
    ensures After(Feed(log), at) == Feed(After(log, at))
  {
    if log != [] {
      if log[0].at > at {
        AllAfter(log, at);
        FeedIsPrefix(log);
        AllAfter(Feed(log), at);
      } else {
        FeedAfter(log[1..], at);
      }
    }
  }

  // Past the terminal, or up to the head, there is nothing of the feed left to tell.
  lemma {:induction false} FeedDone(log: seq<Row>, at: nat)
    requires Ascending(log) && !OpenAt(log, at)
    ensures forall i :: 0 <= i < |Feed(log)| ==> Feed(log)[i].at <= at
  {
    if log != [] && !log[0].closes {
      FeedDone(log[1..], at);
      TerminalLater(log[1..], log[0].at);
    }
  }

  lemma {:induction false} TerminalLater(log: seq<Row>, at: nat)
    requires forall i :: 0 <= i < |log| ==> log[i].at > at
    ensures FirstTerminal(log).Some? ==> FirstTerminal(log).value > at
  {
    if log != [] {
      TerminalLater(log[1..], at);
    }
  }

  // One row further, the run half is open unless that row closed it.
  lemma {:induction false} OpenStep(log: seq<Row>, at: nat)
    requires Ascending(log) && OpenAt(log, at) && After(log, at) != []
    ensures OpenAt(log, After(log, at)[0].at) <==> !After(log, at)[0].closes
  {
    if log[0].at > at {
      TerminalLater(log[1..], log[0].at);
    } else {
      OpenStep(log[1..], at);
    }
  }

  lemma {:induction false} HeadIsLast(log: seq<Row>)
    requires Ascending(log)
    ensures forall i :: 0 <= i < |log| ==> log[i].at <= Head(log)
    ensures forall at: nat :: After(log, at) == [] <==> Head(log) <= at
  {
    forall at: nat
      ensures After(log, at) == [] <==> Head(log) <= at
    {
      AfterIsSorted(log, at);
      if log != [] {
        assert log[|log| - 1] in log;
        if After(log, at) != [] {
          assert After(log, at)[0] in After(log, at);
        }
      }
    }
  }
}
