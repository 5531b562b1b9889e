// Text with no character a reader cannot see. Whether a selector, a joiner or a soft
// hyphen is text is decided by up to three characters before it -- and, for the grapheme
// joiner, the one after it too -- so taking characters out moves the context of those
// left. `Visible` is a normal form all the same.
module BoundaryText {

  // Characters as code points.
  type Code = c: nat | c < 0x110000

  type Text = seq<Code>

  const ZWNJ: Code := 0x200C
  const ZWJ: Code := 0x200D
  const SOFT_HYPHEN: Code := 0x00AD
  const GRAPHEME_JOINER: Code := 0x034F

  /* ----- character classes, as the source's tables give them ----- */

  predicate IsShaping(c: Code) { c == ZWNJ || c == ZWJ || c == SOFT_HYPHEN }

  // Every format character (Unicode category Cf) but the three that shape.
  predicate IsFormat(c: Code) {
    || 0x0600 <= c <= 0x0605 || c == 0x061C || c == 0x06DD || c == 0x070F
    || 0x0890 <= c <= 0x0891 || c == 0x08E2 || c == 0x180E || c == 0x200B
    || 0x200E <= c <= 0x200F || 0x202A <= c <= 0x202E || 0x2060 <= c <= 0x2064
    || 0x2066 <= c <= 0x206F || c == 0xFEFF || 0xFFF9 <= c <= 0xFFFB
    || c == 0x110BD || c == 0x110CD || 0x13430 <= c <= 0x1343F
    || 0x1BCA0 <= c <= 0x1BCA3 || 0x1D173 <= c <= 0x1D17A
    || c == 0xE0001 || 0xE0020 <= c <= 0xE007F
  }

  predicate IsIgnorable(c: Code) {
    || 0x115F <= c <= 0x1160 || 0x17B4 <= c <= 0x17B5 || c == 0x2065 || c == 0x2800
    || c == 0x3164 || c == 0xFFA0 || 0xFFF0 <= c <= 0xFFF8
    || 0xE0000 <= c <= 0xE00FF || 0xE01F0 <= c <= 0xE0FFF
  }

  predicate IsAlwaysHidden(c: Code) { IsFormat(c) || IsIgnorable(c) }

  predicate IsPresentation(c: Code) { 0xFE0E <= c <= 0xFE0F }

  predicate IsVariation(c: Code) { 0xFE00 <= c <= 0xFE0F }

  predicate IsIdeographicSelector(c: Code) { 0xE0100 <= c <= 0xE01EF }

  predicate IsMongolianSelector(c: Code) { 0x180B <= c <= 0x180D || c == 0x180F }

  predicate IsSelector(c: Code) {
    IsVariation(c) || c == GRAPHEME_JOINER || IsIdeographicSelector(c) || IsMongolianSelector(c)
  }

  predicate IsIdeograph(c: Code) {
    || 0x3400 <= c <= 0x4DBF || 0x4E00 <= c <= 0x9FFF || 0xF900 <= c <= 0xFA6D
    || 0xFA70 <= c <= 0xFAD9 || 0x20000 <= c <= 0x2A6DF || 0x2A700 <= c <= 0x2B739
    || 0x2B740 <= c <= 0x2B81D || 0x2B820 <= c <= 0x2CEA1 || 0x2CEB0 <= c <= 0x2EBE0
    || 0x2EBF0 <= c <= 0x2EE5D || 0x2F800 <= c <= 0x2FA1D || 0x30000 <= c <= 0x3134A
    || 0x31350 <= c <= 0x323AF
  }

  predicate IsMongolianLetter(c: Code) {
    0x1820 <= c <= 0x1878 || 0x1880 <= c <= 0x1884 || 0x1887 <= c <= 0x18A8 || c == 0x18AA
  }

  predicate IsPunctuationBase(c: Code) {
    || 0x3001 <= c <= 0x3002 || c == 0xFF01 || c == 0xFF0C || c == 0xFF0E
    || 0xFF1A <= c <= 0xFF1B || c == 0xFF1F
  }

  predicate IsMathBase(c: Code) {
    || c == 0x2205 || 0x2229 <= c <= 0x222A || 0x2268 <= c <= 0x2269
    || 0x2272 <= c <= 0x2273 || 0x228A <= c <= 0x228B || 0x2293 <= c <= 0x2295
    || c == 0x2297 || c == 0x229C || 0x22DA <= c <= 0x22DB || 0x2A3C <= c <= 0x2A3D
    || 0x2A9D <= c <= 0x2A9E || 0x2AAC <= c <= 0x2AAD || 0x2ACB <= c <= 0x2ACC
  }

  // What the second and the first variation selector may change.
  predicate IsVs2Base(c: Code) { IsIdeograph(c) || IsPunctuationBase(c) }

  predicate IsVs1Base(c: Code) { IsVs2Base(c) || IsMathBase(c) }

  // What `\s` matches in text.
  predicate IsSpace(c: Code) {
    || 0x09 <= c <= 0x0D || 0x1C <= c <= 0x20 || c == 0x85 || c == 0xA0 || c == 0x1680
    || 0x2000 <= c <= 0x200A || 0x2028 <= c <= 0x2029 || c == 0x202F || c == 0x205F
    || c == 0x3000
  }

  predicate IsDrawn(c: Code) {
    !IsAlwaysHidden(c) && !IsSelector(c) && !IsShaping(c) && !IsSpace(c)
  }

  // Every character is of one kind alone: hidden by itself, a selector, one of the three that
  // shape, a space, or drawn.
  lemma KindsApart(c: Code)
    ensures IsShaping(c) <==> c == 0x200C || c == 0x200D || c == 0xAD
    ensures IsAlwaysHidden(c) ==> !IsSelector(c) && !IsShaping(c) && !IsSpace(c) && !IsDrawn(c)
    ensures IsSelector(c) ==> !IsShaping(c) && !IsSpace(c) && !IsDrawn(c)
    ensures IsShaping(c) ==> !IsSpace(c) && !IsDrawn(c)
    ensures IsSpace(c) ==> !IsDrawn(c)
    ensures IsAlwaysHidden(c) || IsSelector(c) || IsShaping(c) || IsSpace(c) || IsDrawn(c)
  {
  }

  // Which characters are combining marks is a table of Unicode's own (category M), of which
  // only this much is used: spaces are no marks, nor are the shaping characters.
  type Marks = mark: Code -> bool | MarksAreDrawable(mark) witness c => false

  ghost predicate MarksAreDrawable(mark: Code -> bool) {
    forall c: Code :: IsShaping(c) || IsSpace(c) ==> !mark(c)
  }

  /* ----- the rule ----- */

  // The character `back` places before `at`, when there is one, meets `p`.
  predicate Before(text: Text, at: nat, back: nat, p: Code -> bool) {
    back <= at <= |text| && back > 0 && p(text[at - back])
  }

  predicate Is(text: Text, at: nat, back: nat, c: Code) {
    back <= at <= |text| && back > 0 && text[at - back] == c
  }

  // Both neighbours of the place exist and are marks, neither hidden by itself nor a selector.
  predicate JoinsMarks(text: Text, at: nat, mark: Marks)
    requires at < |text|
  {
    0 < at < |text| - 1 && IsJoinable(text[at - 1], mark) && IsJoinable(text[at + 1], mark)
  }

  predicate IsJoinable(c: Code, mark: Marks) {
    mark(c) && !IsAlwaysHidden(c) && !IsSelector(c)
  }

  // Whether a shaping character follows something it can shape.
  predicate Shapes(text: Text, at: nat)
    requires at < |text|
  {
    || Before(text, at, 1, IsDrawn)
    || (text[at] == ZWNJ && Is(text, at, 1, ZWJ) && Before(text, at, 2, IsDrawn))
    || (text[at] == ZWJ && (Is(text, at, 1, ZWNJ) || Before(text, at, 1, IsPresentation))
        && Before(text, at, 2, IsDrawn))
    || (text[at] == ZWJ && Is(text, at, 1, ZWNJ) && Is(text, at, 2, ZWJ) && Before(text, at, 3, IsDrawn))
  }

  // Whether the character at `at` renders as nothing where it stands.
  predicate HiddenAt(text: Text, at: nat, mark: Marks)
    requires at < |text|
  {
    var c := text[at];
    || IsAlwaysHidden(c)
    || (IsPresentation(c) && !Before(text, at, 1, IsDrawn))
    || (c == 0xFE00 && !Before(text, at, 1, IsVs1Base))
    || (c == 0xFE01 && !Before(text, at, 1, IsVs2Base))
    || (0xFE02 <= c <= 0xFE0D && !Before(text, at, 1, IsIdeograph))
    || (IsIdeographicSelector(c) && !Before(text, at, 1, IsIdeograph))
    || (IsMongolianSelector(c) && !Before(text, at, 1, IsMongolianLetter))
    || (IsShaping(c) && !Shapes(text, at))
    || (c == GRAPHEME_JOINER && !JoinsMarks(text, at, mark))
  }

  predicate IsAscii(text: Text) { forall i :: 0 <= i < |text| ==> text[i] < 0x80 }

  predicate HidesText(text: Text, mark: Marks) {
    !IsAscii(text) && exists i :: 0 <= i < |text| && HiddenAt(text, i, mark)
  }

  // The characters before `end` that are not hidden, in order.
  function Shown(text: Text, end: nat, mark: Marks): Text
    requires end <= |text|
  {
    if end == 0 then []
    else Shown(text, end - 1, mark) + if HiddenAt(text, end - 1, mark) then [] else [text[end - 1]]
  }

  function Visible(text: Text, mark: Marks): Text {
    if IsAscii(text) then text else Shown(text, |text|, mark)
  }

  /* ----- what no context hides ----- */

  lemma BasesAreDrawn(c: Code)
    ensures IsVs1Base(c) || IsMongolianLetter(c) ==> IsDrawn(c)
  {
  }

  // A drawn character, a space and a joinable mark are text wherever they stand.
  lemma NeverHidden(text: Text, at: nat, mark: Marks)
    requires at < |text|
    requires IsDrawn(text[at]) || IsSpace(text[at]) || IsJoinable(text[at], mark)
    ensures !HiddenAt(text, at, mark)
  {
  }

  // The source's short cut: plain ASCII carries nothing hidden.
  lemma AsciiHidesNothing(text: Text, mark: Marks)
    requires IsAscii(text)
    ensures forall i :: 0 <= i < |text| ==> !HiddenAt(text, i, mark)
  {
  }

  /* ----- where the characters kept end up ----- */

  lemma {:induction false} KeptStands(text: Text, end: nat, i: nat, mark: Marks)
    requires i < end <= |text| && !HiddenAt(text, i, mark)
    ensures |Shown(text, i, mark)| < |Shown(text, end, mark)|
    ensures Shown(text, end, mark)[|Shown(text, i, mark)|] == text[i]
  {
    if i < end - 1 {
      KeptStands(text, end - 1, i, mark);
    }
  }

  // Every place in what is shown is that of one character kept.
  lemma {:induction false} PlaceOfKept(text: Text, end: nat, j: nat, mark: Marks) returns (i: nat)
    requires end <= |text| && j < |Shown(text, end, mark)|
    ensures i < end && !HiddenAt(text, i, mark) && |Shown(text, i, mark)| == j
  {
    if j < |Shown(text, end - 1, mark)| {
      i := PlaceOfKept(text, end - 1, j, mark);
    } else {
      i := end - 1;
    }
  }

  // A character kept keeps the kept character before it as its neighbour.
  lemma KeptNeighbour(text: Text, i: nat, mark: Marks)
    requires 0 < i < |text| && !HiddenAt(text, i, mark) && !HiddenAt(text, i - 1, mark)
    ensures var out, j := Shown(text, |text|, mark), |Shown(text, i, mark)|;
            && 0 < j < |out| && out[j] == text[i] && out[j - 1] == text[i - 1]
            && j - 1 == |Shown(text, i - 1, mark)|
  {
    KeptStands(text, |text|, i, mark);
    KeptStands(text, |text|, i - 1, mark);
  }

  /* ----- a character kept is still shown among the characters kept ----- */

  // A selector keeps its base.
  lemma SelectorStands(text: Text, i: nat, mark: Marks, base: Code -> bool)
    requires i < |text| && !HiddenAt(text, i, mark) && Before(text, i, 1, base)
    requires forall c: Code :: base(c) ==> IsDrawn(c)
    ensures var out, j := Shown(text, |text|, mark), |Shown(text, i, mark)|;
            j < |out| && out[j] == text[i] && Before(out, j, 1, base)
  {
    NeverHidden(text, i - 1, mark);
    KeptNeighbour(text, i, mark);
  }

  // A shaping character two after the drawn one it shapes: what lies between was kept for
  // that drawn character too.
  lemma SecondStands(text: Text, i: nat, mark: Marks)
    requires i < |text| && Before(text, i, 2, IsDrawn) && !HiddenAt(text, i, mark)
    requires Is(text, i, 1, ZWJ) || Is(text, i, 1, ZWNJ) || Before(text, i, 1, IsPresentation)
    ensures var out, j := Shown(text, |text|, mark), |Shown(text, i, mark)|;
            && !HiddenAt(text, i - 1, mark)
            && j < |out| && out[j] == text[i]
            && Before(out, j, 2, IsDrawn) && out[j - 1] == text[i - 1]
  {
    NeverHidden(text, i - 2, mark);
    assert Before(text, i - 1, 1, IsDrawn);
    assert !HiddenAt(text, i - 1, mark);
    KeptNeighbour(text, i - 1, mark);
    KeptNeighbour(text, i, mark);
  }

  lemma MiddleIsKept(text: Text, i: nat, mark: Marks)
    requires i < |text| && Before(text, i, 3, IsDrawn) && Is(text, i, 1, ZWNJ) && Is(text, i, 2, ZWJ)
    ensures Before(text, i - 1, 2, IsDrawn) && Is(text, i - 1, 1, ZWJ) && !HiddenAt(text, i - 1, mark)
  {
    assert Shapes(text, i - 1);
  }

  lemma ThirdStands(text: Text, i: nat, mark: Marks)
    requires i < |text| && Before(text, i, 3, IsDrawn) && !HiddenAt(text, i, mark)
    requires Is(text, i, 1, ZWNJ) && Is(text, i, 2, ZWJ)
    ensures var out, j := Shown(text, |text|, mark), |Shown(text, i, mark)|;
            && j < |out| && out[j] == text[i]
            && Before(out, j, 3, IsDrawn) && out[j - 1] == ZWNJ && out[j - 2] == ZWJ
  {
    MiddleIsKept(text, i, mark);
    SecondStands(text, i - 1, mark);
    KeptNeighbour(text, i, mark);
  }

  // What follows alike is shaped alike.
  lemma ShapesAlike(text: Text, i: nat, out: Text, j: nat)
    requires i < |text| && j < |out| && out[j] == text[i] && Shapes(text, i)
    requires Before(text, i, 1, IsDrawn) ==> Before(out, j, 1, IsDrawn)
    requires !Before(text, i, 1, IsDrawn) && Before(text, i, 2, IsDrawn) ==>
               Before(out, j, 2, IsDrawn) && out[j - 1] == text[i - 1]
    requires !Before(text, i, 1, IsDrawn) && !Before(text, i, 2, IsDrawn) ==>
               Before(out, j, 3, IsDrawn) && out[j - 1] == ZWNJ && out[j - 2] == ZWJ
    ensures Shapes(out, j)
  {
  }

  lemma FirstShapingStands(text: Text, i: nat, mark: Marks)
    requires i < |text| && IsShaping(text[i]) && !HiddenAt(text, i, mark) && Before(text, i, 1, IsDrawn)
    ensures var out, j := Shown(text, |text|, mark), |Shown(text, i, mark)|;
            j < |out| && out[j] == text[i] && Shapes(out, j)
  {
    SelectorStands(text, i, mark, IsDrawn);
  }

  lemma SecondShapingStands(text: Text, i: nat, mark: Marks)
    requires i < |text| && IsShaping(text[i]) && Shapes(text, i) && !HiddenAt(text, i, mark)
    requires !Before(text, i, 1, IsDrawn) && Before(text, i, 2, IsDrawn)
    ensures var out, j := Shown(text, |text|, mark), |Shown(text, i, mark)|;
            j < |out| && out[j] == text[i] && Shapes(out, j)
  {
    SecondStands(text, i, mark);
    ShapesAlike(text, i, Shown(text, |text|, mark), |Shown(text, i, mark)|);
  }

  lemma ThirdShapingStands(text: Text, i: nat, mark: Marks)
    requires i < |text| && IsShaping(text[i]) && Shapes(text, i) && !HiddenAt(text, i, mark)
    requires !Before(text, i, 1, IsDrawn) && !Before(text, i, 2, IsDrawn)
    ensures var out, j := Shown(text, |text|, mark), |Shown(text, i, mark)|;
            j < |out| && out[j] == text[i] && Shapes(out, j)
  {
    ThirdStands(text, i, mark);
    ShapesAlike(text, i, Shown(text, |text|, mark), |Shown(text, i, mark)|);
  }

  lemma ShapingStands(text: Text, i: nat, mark: Marks)
    requires i < |text| && IsShaping(text[i]) && !HiddenAt(text, i, mark)
    ensures var out, j := Shown(text, |text|, mark), |Shown(text, i, mark)|;
            j < |out| && out[j] == text[i] && Shapes(out, j)
  {
    assert Shapes(text, i);
    if Before(text, i, 1, IsDrawn) {
      FirstShapingStands(text, i, mark);
    } else if Before(text, i, 2, IsDrawn) {
      SecondShapingStands(text, i, mark);
    } else {
      ThirdShapingStands(text, i, mark);
    }
  }

  lemma JoinerStands(text: Text, i: nat, mark: Marks)
    requires i < |text| && text[i] == GRAPHEME_JOINER && !HiddenAt(text, i, mark)
    ensures var out, j := Shown(text, |text|, mark), |Shown(text, i, mark)|;
            j < |out| && out[j] == text[i] && JoinsMarks(out, j, mark)
  {
    NeverHidden(text, i - 1, mark);
    NeverHidden(text, i + 1, mark);
    KeptNeighbour(text, i, mark);
    KeptNeighbour(text, i + 1, mark);
  }

  lemma KeptIsStillShown(text: Text, i: nat, mark: Marks)
    requires i < |text| && !HiddenAt(text, i, mark)
    ensures var out, j := Shown(text, |text|, mark), |Shown(text, i, mark)|;
            j < |out| && !HiddenAt(out, j, mark)
  {
    var c := text[i];
    forall b: Code ensures IsVs1Base(b) || IsMongolianLetter(b) ==> IsDrawn(b) {
      BasesAreDrawn(b);
    }
    KeptStands(text, |text|, i, mark);
    if IsPresentation(c) {
      SelectorStands(text, i, mark, IsDrawn);
    } else if c == 0xFE00 {
      SelectorStands(text, i, mark, IsVs1Base);
    } else if c == 0xFE01 {
      SelectorStands(text, i, mark, IsVs2Base);
    } else if IsVariation(c) || IsIdeographicSelector(c) {
      SelectorStands(text, i, mark, IsIdeograph);
    } else if IsMongolianSelector(c) {
      SelectorStands(text, i, mark, IsMongolianLetter);
    } else if IsShaping(c) {
      ShapingStands(text, i, mark);
    } else if c == GRAPHEME_JOINER {
      JoinerStands(text, i, mark);
    }
  }

  /* ----- the normal form ----- */

  // What is shown never hides text: no deletion makes another character hidden.
  lemma VisibleHidesNothing(text: Text, mark: Marks)
    ensures !HidesText(Visible(text, mark), mark)
  {
    if !IsAscii(text) {
      var out := Shown(text, |text|, mark);
      forall j | 0 <= j < |out| ensures !HiddenAt(out, j, mark) {
        var i := PlaceOfKept(text, |text|, j, mark);
        KeptIsStillShown(text, i, mark);
      }
    }
  }

  lemma {:induction false} ShownAll(text: Text, end: nat, mark: Marks)
    requires end <= |text|
    ensures |Shown(text, end, mark)| <= end
    ensures (forall i :: 0 <= i < end ==> !HiddenAt(text, i, mark)) ==> Shown(text, end, mark) == text[..end]
    ensures (exists i :: 0 <= i < end && HiddenAt(text, i, mark)) ==> |Shown(text, end, mark)| < end
  {
    if end > 0 {
      ShownAll(text, end - 1, mark);
      assert text[..end] == text[..end - 1] + [text[end - 1]];
    }
  }

  // Text is its own visible form exactly when it hides nothing.
  lemma VisibleIsFixedExactly(text: Text, mark: Marks)
    ensures Visible(text, mark) == text <==> !HidesText(text, mark)
  {
    ShownAll(text, |text|, mark);
  }

  lemma VisibleIsIdempotent(text: Text, mark: Marks)
    ensures Visible(Visible(text, mark), mark) == Visible(text, mark)
  {
    VisibleHidesNothing(text, mark);
    VisibleIsFixedExactly(Visible(text, mark), mark);
  }

  // The drawn characters and the spaces of a text, in order.
  function Solid(text: Text): Text {
    if text == [] then []
    else
      var c := text[|text| - 1];
      Solid(text[..|text| - 1]) + if IsDrawn(c) || IsSpace(c) then [c] else []
  }

  lemma SolidGrows(text: Text, c: Code)
    ensures Solid(text + [c]) == Solid(text) + if IsDrawn(c) || IsSpace(c) then [c] else []
  {
    assert (text + [c])[..|text|] == text;
  }

  lemma HiddenIsNotSolid(text: Text, at: nat, mark: Marks)
    requires at < |text| && HiddenAt(text, at, mark)
    ensures !IsDrawn(text[at]) && !IsSpace(text[at])
  {
    if IsDrawn(text[at]) || IsSpace(text[at]) {
      NeverHidden(text, at, mark);
    }
  }

  lemma {:induction false} ShownKeepsSolid(text: Text, end: nat, mark: Marks)
    requires end <= |text|
    ensures Solid(Shown(text, end, mark)) == Solid(text[..end])
  {
    if end > 0 {
      var c := text[end - 1];
      ShownKeepsSolid(text, end - 1, mark);
      SolidGrows(text[..end - 1], c);
      assert text[..end] == text[..end - 1] + [c];
      if HiddenAt(text, end - 1, mark) {
        HiddenIsNotSolid(text, end - 1, mark);
        assert Shown(text, end, mark) == Shown(text, end - 1, mark);
      } else {
        SolidGrows(Shown(text, end - 1, mark), c);
      }
    }
  }

  // Nothing drawn and no space is lost, and none moves past another.
  lemma VisibleKeepsSolid(text: Text, mark: Marks)
    ensures Solid(Visible(text, mark)) == Solid(text)
  {
    ShownKeepsSolid(text, |text|, mark);
    assert text[..|text|] == text;
  }

  /* ----- how much text that hides nothing can carry undrawn ----- */

  predicate IsUndrawn(c: Code) { !IsDrawn(c) && !IsSpace(c) }

  lemma UndrawnFollows(text: Text, at: nat, mark: Marks)
    requires at < |text| && IsUndrawn(text[at]) && !HiddenAt(text, at, mark)
    ensures Before(text, at, 1, IsDrawn) || (IsShaping(text[at]) && Shapes(text, at))
  {
    if at > 0 {
      BasesAreDrawn(text[at - 1]);
    }
  }

  // In text that hides nothing, every maximal run of undrawn characters that are no space
  // starts directly after a drawn one and is at most three long, and three only as joiner,
  // non-joiner, joiner.
  lemma HidingIsBounded(text: Text, mark: Marks, a: nat, b: nat)
    requires !HidesText(text, mark)
    requires a < b <= |text| && forall i :: a <= i < b ==> IsUndrawn(text[i])
    requires a == 0 || !IsUndrawn(text[a - 1])
    ensures a > 0 && IsDrawn(text[a - 1])
    ensures b - a <= 3
    ensures b - a == 3 ==> text[a..b] == [ZWJ, ZWNJ, ZWJ]
  {
    forall i | 0 <= i < |text| ensures !HiddenAt(text, i, mark) {
      if IsAscii(text) {
        AsciiHidesNothing(text, mark);
      }
    }
    UndrawnFollows(text, a, mark);
    if b - a >= 3 {
      UndrawnFollows(text, a + 1, mark);
      UndrawnFollows(text, a + 2, mark);
    }
    if b - a >= 4 {
      UndrawnFollows(text, a + 3, mark);
      assert false;
    }
  }

  /* ----- exactly which runs are text ----- */

  // A run of undrawn characters that nothing undrawn stands beside.
  predicate MaximalRun(text: Text, a: nat, b: nat) {
    && a < b <= |text| && (forall i :: a <= i < b ==> IsUndrawn(text[i]))
    && (a == 0 || !IsUndrawn(text[a - 1])) && (b == |text| || !IsUndrawn(text[b]))
  }

  // One selector, and a base of its own kind.
  predicate Selects(base: Code, c: Code) {
    || c == 0xFE0E || c == 0xFE0F
    || (c == 0xFE00 && (IsIdeograph(base) || IsPunctuationBase(base) || IsMathBase(base)))
    || (c == 0xFE01 && (IsIdeograph(base) || IsPunctuationBase(base)))
    || ((0xFE02 <= c <= 0xFE0D || 0xE0100 <= c <= 0xE01EF) && IsIdeograph(base))
    || ((0x180B <= c <= 0x180D || c == 0x180F) && IsMongolianLetter(base))
  }

  // What may follow a drawn character undrawn: one shaping character; one selector on its own
  // base; the two joiners, either way round; a joiner after a presentation selector; joiner,
  // non-joiner, joiner; or one grapheme joiner between two marks.
  predicate RunIsText(text: Text, a: nat, b: nat, mark: Marks)
    requires a <= b <= |text|
  {
    var run := text[a..b];
    && a > 0 && IsDrawn(text[a - 1])
    && (|| (|run| == 1 && run[0] in {ZWNJ, ZWJ, SOFT_HYPHEN})
        || (|run| == 1 && Selects(text[a - 1], run[0]))
        || run == [ZWJ, ZWNJ] || run == [ZWNJ, ZWJ] || run == [ZWJ, ZWNJ, ZWJ]
        || run == [0xFE0E, ZWJ] || run == [0xFE0F, ZWJ]
        || (run == [GRAPHEME_JOINER] && mark(text[a - 1]) && b < |text| && mark(text[b])))
  }

  // The first of a run, after a drawn character.
  lemma FirstIsText(text: Text, at: nat, mark: Marks)
    requires 0 < at < |text| && IsDrawn(text[at - 1]) && IsUndrawn(text[at])
    ensures !HiddenAt(text, at, mark) <==>
              || text[at] in {ZWNJ, ZWJ, SOFT_HYPHEN} || Selects(text[at - 1], text[at])
              || (text[at] == GRAPHEME_JOINER && mark(text[at - 1]) && at + 1 < |text| && IsJoinable(text[at + 1], mark))
  {
  }

  lemma SecondIsText(text: Text, at: nat, mark: Marks)
    requires 1 < at < |text| && IsDrawn(text[at - 2]) && IsUndrawn(text[at - 1]) && IsUndrawn(text[at])
    ensures !HiddenAt(text, at, mark) <==>
              || (text[at] == ZWNJ && text[at - 1] == ZWJ)
              || (text[at] == ZWJ && text[at - 1] in {ZWNJ, 0xFE0E, 0xFE0F})
  {
    BasesAreDrawn(text[at - 1]);
  }

  lemma ThirdIsText(text: Text, at: nat, mark: Marks)
    requires 2 < at < |text| && IsDrawn(text[at - 3])
    requires IsUndrawn(text[at - 2]) && IsUndrawn(text[at - 1]) && IsUndrawn(text[at])
    ensures !HiddenAt(text, at, mark) <==> text[at] == ZWJ && text[at - 1] == ZWNJ && text[at - 2] == ZWJ
  {
    BasesAreDrawn(text[at - 1]);
  }

  // What stands past a run is a mark it may be joined to, or none.
  lemma PastTheRun(text: Text, at: nat, mark: Marks)
    requires at < |text|
    ensures !IsUndrawn(text[at]) ==> (IsJoinable(text[at], mark) <==> mark(text[at]))
    ensures IsUndrawn(text[at]) ==> !IsJoinable(text[at], mark)
  {
  }

  predicate ShowsAll(text: Text, a: nat, b: nat, mark: Marks)
    requires a <= b <= |text|
  {
    forall i :: a <= i < b ==> !HiddenAt(text, i, mark)
  }

  lemma OneIsText(text: Text, a: nat, mark: Marks)
    requires MaximalRun(text, a, a + 1) && a > 0 && IsDrawn(text[a - 1])
    ensures ShowsAll(text, a, a + 1, mark) <==> RunIsText(text, a, a + 1, mark)
  {
    FirstIsText(text, a, mark);
    if a + 1 < |text| {
      PastTheRun(text, a + 1, mark);
    }
    assert text[a..a + 1] == [text[a]];
  }

  lemma TwoAreText(text: Text, a: nat, mark: Marks)
    requires MaximalRun(text, a, a + 2) && a > 0 && IsDrawn(text[a - 1])
    ensures ShowsAll(text, a, a + 2, mark) <==> RunIsText(text, a, a + 2, mark)
  {
    FirstIsText(text, a, mark);
    SecondIsText(text, a + 1, mark);
    PastTheRun(text, a + 1, mark);
    assert text[a..a + 2] == [text[a], text[a + 1]];
  }

  lemma ThreeAreText(text: Text, a: nat, mark: Marks)
    requires MaximalRun(text, a, a + 3) && a > 0 && IsDrawn(text[a - 1])
    ensures ShowsAll(text, a, a + 3, mark) <==> RunIsText(text, a, a + 3, mark)
  {
    FirstIsText(text, a, mark);
    SecondIsText(text, a + 1, mark);
    ThirdIsText(text, a + 2, mark);
    assert text[a..a + 3] == [text[a], text[a + 1], text[a + 2]];
  }

  lemma LongRunsHide(text: Text, a: nat, b: nat, mark: Marks)
    requires MaximalRun(text, a, b) && a > 0 && IsDrawn(text[a - 1]) && b > a + 3
    ensures !ShowsAll(text, a, b, mark)
  {
    if !HiddenAt(text, a + 2, mark) {
      ThirdIsText(text, a + 2, mark);
      if !HiddenAt(text, a + 3, mark) {
        UndrawnFollows(text, a + 3, mark);
        assert false;
      }
    }
  }

  lemma TextRunsAreShort(text: Text, a: nat, b: nat, mark: Marks)
    requires a <= b <= |text| && RunIsText(text, a, b, mark)
    ensures b - a <= 3
  {
  }

  lemma LooseRunsHide(text: Text, a: nat, b: nat, mark: Marks)
    requires MaximalRun(text, a, b) && (a == 0 || !IsDrawn(text[a - 1]))
    ensures !ShowsAll(text, a, b, mark)
  {
    if !HiddenAt(text, a, mark) {
      UndrawnFollows(text, a, mark);
      assert false;
    }
  }

  // A run of undrawn characters hides nothing if and only if it is one of those.
  lemma RunsThatAreText(text: Text, a: nat, b: nat, mark: Marks)
    requires MaximalRun(text, a, b)
    ensures ShowsAll(text, a, b, mark) <==> RunIsText(text, a, b, mark)
  {
    if a == 0 || !IsDrawn(text[a - 1]) {
      LooseRunsHide(text, a, b, mark);
    } else if b == a + 1 {
      OneIsText(text, a, mark);
    } else if b == a + 2 {
      TwoAreText(text, a, mark);
    } else if b == a + 3 {
      ThreeAreText(text, a, mark);
    } else {
      LongRunsHide(text, a, b, mark);
      if RunIsText(text, a, b, mark) {
        TextRunsAreShort(text, a, b, mark);
      }
    }
  }

  lemma {:induction false} RunStart(text: Text, i: nat) returns (a: nat)
    requires i < |text| && IsUndrawn(text[i])
    ensures a <= i && (forall k :: a <= k <= i ==> IsUndrawn(text[k])) && (a == 0 || !IsUndrawn(text[a - 1]))
  {
    a := i;
    if i > 0 && IsUndrawn(text[i - 1]) {
      a := RunStart(text, i - 1);
    }
  }

  lemma {:induction false} RunEnd(text: Text, i: nat) returns (b: nat)
    requires i < |text| && IsUndrawn(text[i])
    ensures i < b <= |text| && (forall k :: i <= k < b ==> IsUndrawn(text[k])) && (b == |text| || !IsUndrawn(text[b]))
    decreases |text| - i
  {
    b := i + 1;
    if i + 1 < |text| && IsUndrawn(text[i + 1]) {
      b := RunEnd(text, i + 1);
    }
  }

  // So a text hides nothing if and only if every undrawn run of it is one of those.
  lemma HidesNothingExactly(text: Text, mark: Marks)
    ensures !HidesText(text, mark) <==>
              forall a: nat, b: nat :: MaximalRun(text, a, b) ==> RunIsText(text, a, b, mark)
  {
    if !HidesText(text, mark) {
      if IsAscii(text) {
        AsciiHidesNothing(text, mark);
      }
      forall a: nat, b: nat | MaximalRun(text, a, b)
        ensures RunIsText(text, a, b, mark)
      {
        RunsThatAreText(text, a, b, mark);
      }
    } else {
      var i :| 0 <= i < |text| && HiddenAt(text, i, mark);
      HiddenIsNotSolid(text, i, mark);
      var a := RunStart(text, i);
      var b := RunEnd(text, i);
      RunsThatAreText(text, a, b, mark);
    }
  }
}
