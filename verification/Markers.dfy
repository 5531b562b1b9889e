// The resume marker of a case stream: a position in both of its sequences, its
// printed form, and how a client's `Last-Event-ID` is read back.
module Markers {
  import opened Wrappers
  import opened Digits
  import opened Texts

  datatype Marker = Marker(auditSeq: nat, runSeq: nat) {
    // At or behind `other` in both sequences.
    predicate AtMost(other: Marker) {
      auditSeq <= other.auditSeq && runSeq <= other.runSeq
    }

    function Text(): string {
      Written(auditSeq) + "." + Written(runSeq)
    }
  }

  // The most digits either half of a marker may be written with.
  const MARKER_DIGITS: nat := 16

  predicate Half(s: string) {
    Canonical(s) && |s| <= MARKER_DIGITS
  }

  // The marker a text states in full, if it states one.
  function Matched(s: string): Option<Marker> {
    var dot := FirstOf(s, '.');
    if dot < |s| && Half(s[..dot]) && Half(s[dot + 1..])
    then Some(Marker(Read(s[..dot]), Read(s[dot + 1..])))
    else None
  }

  // The client's marker, or `heads` when it is missing, malformed, oversized or ahead.
  function ParseMarker(value: Option<string>, heads: Marker): Marker {
    match value
    case None => heads
    case Some(s) =>
      match Matched(s)
      case None => heads
      case Some(m) => if m.AtMost(heads) then m else heads
  }

  // Whether both halves of a marker have as few digits as the reader accepts.
  predicate Readable(m: Marker) {
    m.auditSeq < Pow10(MARKER_DIGITS) && m.runSeq < Pow10(MARKER_DIGITS)
  }

  lemma TextSplits(m: Marker)
    ensures var s := m.Text();
            FirstOf(s, '.') == Width(m.auditSeq)
            && s[..FirstOf(s, '.')] == Written(m.auditSeq)
            && s[FirstOf(s, '.') + 1..] == Written(m.runSeq)
  {
    var s, a := m.Text(), Written(m.auditSeq);
    assert s[|a|] == '.';
    assert forall j :: 0 <= j < |a| ==> s[j] == a[j] && IsDigit(a[j]);
    assert FirstOf(s, '.') >= |a|;
  }

  // Printing then matching gives the marker back exactly when both halves fit.
  lemma MatchedText(m: Marker)
    ensures Matched(m.Text()) == if Readable(m) then Some(m) else None
  {
    TextSplits(m);
    ReadWritten(m.auditSeq);
    ReadWritten(m.runSeq);
    WidthFits(m.auditSeq);
    WidthFits(m.runSeq);
  }

  lemma WidthFits(n: nat)
    ensures Width(n) <= MARKER_DIGITS <==> n < Pow10(MARKER_DIGITS)
  {
    WidthBounds(n);
    if Width(n) <= MARKER_DIGITS {
      Pow10Grows(Width(n), MARKER_DIGITS);
    }
    if n < Pow10(MARKER_DIGITS) {
      WidthIs(n, MARKER_DIGITS);
    }
  }

  lemma HalfIsBack(s: string)
    requires Half(s)
    ensures Written(Read(s)) == s && Read(s) < Pow10(MARKER_DIGITS)
  {
    WrittenRead(s);
    Pow10Grows(|s|, MARKER_DIGITS);
  }

  // Matching then printing gives the text back: every accepted text is canonical.
  lemma TextMatched(s: string)
    requires Matched(s).Some?
    ensures Matched(s).value.Text() == s
    ensures Readable(Matched(s).value)
  {
    var dot := FirstOf(s, '.');
    var a, b := s[..dot], s[dot + 1..];
    SplitsAt(s, dot);
    HalfIsBack(a);
    HalfIsBack(b);
    assert Matched(s).value == Marker(Read(a), Read(b));
  }

  lemma SplitsAt(s: string, dot: nat)
    requires dot < |s| && s[dot] == '.'
    ensures s == s[..dot] + "." + s[dot + 1..]
  {
  }

  // A marker the server issued resumes at itself -- and at itself only -- when it
  // is not ahead of the heads and fits the reader's digits; the one other way to
  // come back is to be the heads it would fall back on.
  lemma ResumesAtItself(m: Marker, heads: Marker)
    ensures ParseMarker(Some(m.Text()), heads) == m
            <==> (Readable(m) && m.AtMost(heads)) || m == heads
  {
    MatchedText(m);
  }

  // Whatever a client sends, the tail never starts ahead of the store.
  lemma NeverAhead(value: Option<string>, heads: Marker)
    ensures ParseMarker(value, heads).AtMost(heads)
  {
  }

  // Two markers that print alike are one marker.
  lemma TextInjective(a: Marker, b: Marker)
    requires a.Text() == b.Text()
    ensures a == b
  {
    TextSplits(a);
    TextSplits(b);
    ReadWritten(a.auditSeq);
    ReadWritten(a.runSeq);
    ReadWritten(b.auditSeq);
    ReadWritten(b.runSeq);
  }
}
