/** The two tests of whether the letter's markup (the editable area's
    `innerHTML`) is empty: the placeholder test, which decides whether the
    `editable-area-empty` class is shown, and the weaker test that the
    "send letter" and "send email" handlers use to refuse an empty letter. */
module LetterContent {
  import opened JsString

  /** The nine serialisations the placeholder test treats as an empty area:
      nothing, a bare line break, an empty paragraph, and a bold, italic or
      underline wrapper that is empty or holds only a line break. */
  predicate IsVisuallyEmpty(t: string) {
    t == "" || t == "<br>" || t == "<p></p>" ||
    t == "<b><br></b>" || t == "<i><br></i>" || t == "<u><br></u>" ||
    t == "<b></b>" || t == "<i></i>" || t == "<u></u>"
  }

  /** The placeholder class is shown for this content. */
  predicate ShowsPlaceholder(content: string) {
    IsVisuallyEmpty(Trim(content))
  }

  /** The gate of both send handlers: the trimmed content is empty or `<br>`. */
  predicate IsBlankLetter(content: string) {
    var t := Trim(content);
    t == "" || t == "<br>"
  }

  /** Every letter the send gate refuses also shows the placeholder. */
  lemma BlankLetterShowsPlaceholder(content: string)
    requires IsBlankLetter(content)
    ensures ShowsPlaceholder(content)
  {
  }

  /** On content without whitespace at its ends both tests compare the
      content itself against their lists. */
  lemma TestsOnTrimmedContent(t: string)
    requires IsTrimmed(t)
    ensures ShowsPlaceholder(t) == IsVisuallyEmpty(t)
    ensures IsBlankLetter(t) == (t == "" || t == "<br>")
  {
    TrimOfTrimmed(t);
  }

  /** ... but not the other way round: an empty bold wrapper or an empty
      paragraph shows the placeholder and still passes the send gate. */
  lemma SendGateIsWeaker()
    ensures ShowsPlaceholder("<b></b>") && !IsBlankLetter("<b></b>")
    ensures ShowsPlaceholder("<p></p>") && !IsBlankLetter("<p></p>")
  {
    TestsOnTrimmedContent("<b></b>");
    TestsOnTrimmedContent("<p></p>");
  }

  /** Neither test looks past the whitespace at the ends of the content. */
  lemma TestsIgnoreSurroundingWhitespace(w1: string, content: string, w2: string)
    requires AllWhitespace(w1) && AllWhitespace(w2)
    ensures ShowsPlaceholder(w1 + content + w2) == ShowsPlaceholder(content)
    ensures IsBlankLetter(w1 + content + w2) == IsBlankLetter(content)
  {
    TrimIgnoresSurroundingWhitespace(w1, content, w2);
  }

  /** Re-running the placeholder test on its own trimmed input gives the same
      answer, so refreshing the class twice is the same as once. */
  lemma PlaceholderTestStable(content: string)
    ensures ShowsPlaceholder(Trim(content)) == ShowsPlaceholder(content)
  {
    TrimIdempotent(content);
  }

  /** The rest of `s` after the first `>`, or nothing when there is none. */
  function SkipTag(s: string): (r: string)
    ensures |r| <= |s|
    ensures r == s[|s| - |r|..]
  {
    if s == [] then []
    else if s[0] == '>' then s[1..]
    else SkipTag(s[1..])
  }

  /** The characters of `s` outside its tags: an independent reading of the
      "no text nodes" idea behind both emptiness tests. */
  function VisibleText(s: string): (r: string)
    ensures |r| <= |s|
    decreases |s|
  {
    if s == [] then []
    else if s[0] == '<' then VisibleText(SkipTag(s[1..]))
    else [s[0]] + VisibleText(s[1..])
  }

  /** `SkipTag` stops right after the first `>`, at index `e`. */
  lemma {:induction false} SkipTagAt(s: string, e: int)
    requires 0 <= e < |s| && s[e] == '>'
    requires forall k :: 0 <= k < e ==> s[k] != '>'
    ensures SkipTag(s) == s[e + 1..]
  {
    if e > 0 {
      SkipTagAt(s[1..], e - 1);
    }
  }

  /** A leading tag `s[..e + 1]` contributes no visible text. */
  lemma StripTagAt(s: string, e: int)
    requires 0 < e < |s| && s[0] == '<' && s[e] == '>'
    requires forall k :: 1 <= k < e ==> s[k] != '>'
    ensures VisibleText(s) == VisibleText(s[e + 1..])
  {
    SkipTagAt(s[1..], e - 1);
  }

  /** A single tag of four characters, such as `<br>`, has no text. */
  lemma OneTagNoText(t: string)
    requires |t| == 4 && t[0] == '<' && t[1] != '>' && t[2] != '>' && t[3] == '>'
    ensures VisibleText(t) == []
  {
    StripTagAt(t, 3);
    assert t[4..] == [];
  }

  /** A content made of two tags, the first ending at index `e`, has no text. */
  lemma TwoTagsNoText(s: string, e: int)
    requires 0 < e && e + 2 < |s| - 1 && s[0] == '<' && s[e] == '>' && s[e + 1] == '<'
    requires s[|s| - 1] == '>'
    requires forall k :: 1 <= k < e ==> s[k] != '>'
    requires forall k :: e + 2 <= k < |s| - 1 ==> s[k] != '>'
    ensures VisibleText(s) == []
  {
    StripTagAt(s, e);
    var u := s[e + 1..];
    StripTagAt(u, |u| - 1);
    assert u[|u|..] == [];
  }

  /** An empty one-letter element, such as `<b></b>`, has no text. */
  lemma EmptyElementNoText(t: string)
    requires |t| == 7 && t[0] == '<' && t[1] != '>' && t[2] == '>'
    requires t[3] == '<' && t[4] != '>' && t[5] != '>' && t[6] == '>'
    ensures VisibleText(t) == []
  {
    TwoTagsNoText(t, 2);
  }

  /** A one-letter element around a line break, such as `<b><br></b>`, has no text. */
  lemma WrappedBreakNoText(t: string)
    requires |t| == 11 && t[0] == '<' && t[1] != '>' && t[2] == '>'
    requires t[3] == '<' && t[4] != '>' && t[5] != '>' && t[6] == '>'
    requires t[7] == '<' && t[8] != '>' && t[9] != '>' && t[10] == '>'
    ensures VisibleText(t) == []
  {
    StripTagAt(t, 2);
    TwoTagsNoText(t[3..], 3);
  }

  /** Every content the placeholder test treats as empty holds only tags. */
  lemma VisuallyEmptyHasNoText(t: string)
    requires IsVisuallyEmpty(t)
    ensures VisibleText(t) == []
  {
    if t == "<br>" {
      OneTagNoText(t);
    } else if t == "<p></p>" || t == "<b></b>" || t == "<i></i>" || t == "<u></u>" {
      EmptyElementNoText(t);
    } else if t != "" {
      WrappedBreakNoText(t);
    }
  }

  /** The placeholder list is not every tag-only content: an empty `div`, and
      a `div` holding only a line break, are tag-only but not on the list. */
  lemma TagOnlyContentMissedByPlaceholder()
    ensures VisibleText("<div></div>") == [] && !ShowsPlaceholder("<div></div>")
    ensures VisibleText("<div><br></div>") == [] && !ShowsPlaceholder("<div><br></div>")
  {
    DivNoText();
    DivNoPlaceholder();
    DivBreakNoText();
    DivBreakNoPlaceholder();
  }

  lemma DivNoText()
    ensures VisibleText("<div></div>") == []
  {
    TwoTagsNoText("<div></div>", 4);
  }

  lemma DivNoPlaceholder()
    ensures !ShowsPlaceholder("<div></div>")
  {
    TestsOnTrimmedContent("<div></div>");
  }

  /** A `div` around a line break, `<div><br></div>`, has no text. */
  lemma DivWrappedBreakNoText(t: string)
    requires |t| == 15 && t[0] == '<' && t[4] == '>'
    requires t[1] != '>' && t[2] != '>' && t[3] != '>'
    requires t[5] == '<' && t[6] != '>' && t[7] != '>' && t[8] == '>'
    requires t[9] == '<' && t[14] == '>'
    requires t[10] != '>' && t[11] != '>' && t[12] != '>' && t[13] != '>'
    ensures VisibleText(t) == []
  {
    StripTagAt(t, 4);
    TwoTagsNoText(t[5..], 3);
  }

  lemma DivBreakNoText()
    ensures VisibleText("<div><br></div>") == []
  {
    DivWrappedBreakNoText("<div><br></div>");
  }

  lemma DivBreakNoPlaceholder()
    ensures !ShowsPlaceholder("<div><br></div>")
  {
    TestsOnTrimmedContent("<div><br></div>");
  }
}
