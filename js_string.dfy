/** JavaScript's `String.prototype.trim` and the whitespace class `\s` of its
    regular expressions.  Both use the same set of characters: the
    ECMAScript WhiteSpace code points plus the LineTerminator code points. */
module JsString {

  /** The ECMAScript WhiteSpace and LineTerminator characters: TAB, LF, VT, FF,
      CR, SPACE, NO-BREAK SPACE, the BOM and the remaining space separators
      (Unicode category Zs), LINE SEPARATOR and PARAGRAPH SEPARATOR. */
  predicate IsWhitespace(c: char) {
    c == '\t' || c == '\n' || c == '\U{000B}' || c == '\U{000C}' || c == '\r' ||
    c == ' ' || c == '\U{00A0}' || c == '\U{1680}' ||
    ('\U{2000}' <= c <= '\U{200A}') ||
    c == '\U{2028}' || c == '\U{2029}' || c == '\U{202F}' || c == '\U{205F}' ||
    c == '\U{3000}' || c == '\U{FEFF}'
  }

  predicate AllWhitespace(s: string) {
    forall k :: 0 <= k < |s| ==> IsWhitespace(s[k])
  }

  /** Neither end of `s` is whitespace. */
  predicate IsTrimmed(s: string) {
    s == [] || (!IsWhitespace(s[0]) && !IsWhitespace(s[|s| - 1]))
  }

  /** `s` is whitespace up to index `i`, then `r`, then whitespace again. */
  predicate SurroundedAt(r: string, s: string, i: int) {
    0 <= i && i + |r| <= |s| && r == s[i..i + |r|] &&
    AllWhitespace(s[..i]) && AllWhitespace(s[i + |r|..])
  }

  /** `r` is what is left of `s` once the whitespace at both of its ends is
      removed: `s` is whitespace, then `r`, then whitespace, and `r` is trimmed. */
  ghost predicate IsTrimOf(r: string, s: string) {
    IsTrimmed(r) && exists i :: SurroundedAt(r, s, i)
  }

  /** Drops the leading whitespace. */
  function TrimStart(s: string): string {
    if s != [] && IsWhitespace(s[0]) then TrimStart(s[1..]) else s
  }

  /** Drops the trailing whitespace. */
  function TrimEnd(s: string): string {
    if s != [] && IsWhitespace(s[|s| - 1]) then TrimEnd(s[..|s| - 1]) else s
  }

  /** `TrimStart` keeps the longest suffix of `s` that does not start with
      whitespace: what it drops is whitespace. */
  lemma {:induction false} TrimStartDropsLeadingWhitespace(s: string)
    ensures |TrimStart(s)| <= |s| && TrimStart(s) == s[|s| - |TrimStart(s)|..]
    ensures AllWhitespace(s[..|s| - |TrimStart(s)|])
    ensures TrimStart(s) == [] || !IsWhitespace(TrimStart(s)[0])
  {
    if s != [] && IsWhitespace(s[0]) {
      TrimStartDropsLeadingWhitespace(s[1..]);
      var n := |s| - |TrimStart(s)|;
      assert s[..n] == [s[0]] + s[1..][..n - 1];
    }
  }

  /** `TrimEnd` keeps the longest prefix of `s` that does not end with
      whitespace: what it drops is whitespace. */
  lemma {:induction false} TrimEndDropsTrailingWhitespace(s: string)
    ensures |TrimEnd(s)| <= |s| && TrimEnd(s) == s[..|TrimEnd(s)|]
    ensures AllWhitespace(s[|TrimEnd(s)|..])
    ensures TrimEnd(s) == [] || !IsWhitespace(TrimEnd(s)[|TrimEnd(s)| - 1])
  {
    if s != [] && IsWhitespace(s[|s| - 1]) {
      var p := s[..|s| - 1];
      TrimEndDropsTrailingWhitespace(p);
      var n := |TrimEnd(s)|;
      assert s[n..] == p[n..] + [s[|s| - 1]];
    }
  }

  /** `String.prototype.trim`. */
  function Trim(s: string): string {
    TrimEnd(TrimStart(s))
  }

  /** `Trim` removes exactly the whitespace at both ends of `s`. */
  lemma TrimRemovesSurroundingWhitespace(s: string)
    ensures IsTrimOf(Trim(s), s)
  {
    var a := TrimStart(s);
    var r := TrimEnd(a);
    var i := |s| - |a|;
    TrimStartDropsLeadingWhitespace(s);
    TrimEndDropsTrailingWhitespace(a);
    assert r == s[i..i + |r|];
    assert s[i + |r|..] == a[|r|..];
    assert r != [] ==> r[0] == a[0];
    assert SurroundedAt(r, s, i);
  }

  /** A character of `s` before index `i`, where `s[..i]` is whitespace. */
  lemma WhitespaceBefore(s: string, i: int, p: int)
    requires 0 <= p < i <= |s| && AllWhitespace(s[..i])
    ensures IsWhitespace(s[p])
  {
    assert s[..i][p] == s[p];
  }

  /** A character of `s` from index `i` on, where `s[i..]` is whitespace. */
  lemma WhitespaceFrom(s: string, i: int, p: int)
    requires 0 <= i <= p < |s| && AllWhitespace(s[i..])
    ensures IsWhitespace(s[p])
  {
    assert s[i..][p - i] == s[p];
  }

  lemma AllWhitespaceConcat(a: string, b: string)
    requires AllWhitespace(a) && AllWhitespace(b)
    ensures AllWhitespace(a + b)
  {
    forall k | 0 <= k < |a + b| ensures IsWhitespace((a + b)[k]) {
      if k < |a| { assert (a + b)[k] == a[k]; } else { assert (a + b)[k] == b[k - |a|]; }
    }
  }

  /** Two trimmed infixes of `s` surrounded by whitespace are the same. */
  lemma {:induction false} SurroundedUnique(r1: string, i1: int, r2: string, i2: int, s: string)
    requires IsTrimmed(r1) && SurroundedAt(r1, s, i1)
    requires IsTrimmed(r2) && SurroundedAt(r2, s, i2)
    ensures r1 == r2
  {
    if r1 != [] && r2 == [] {
      // s is whitespace throughout, yet r1 starts with a non-whitespace character
      assert s[i1] == r1[0];
      if i1 < i2 { WhitespaceBefore(s, i2, i1); } else { WhitespaceFrom(s, i2, i1); }
    } else if r1 == [] && r2 != [] {
      assert s[i2] == r2[0];
      if i2 < i1 { WhitespaceBefore(s, i1, i2); } else { WhitespaceFrom(s, i1, i2); }
    } else if r1 != [] && r2 != [] {
      // both start at the first non-whitespace character of s ...
      assert s[i1] == r1[0] && s[i2] == r2[0];
      if i1 < i2 { WhitespaceBefore(s, i2, i1); }
      if i2 < i1 { WhitespaceBefore(s, i1, i2); }
      // ... and end at the last one
      var e1, e2 := i1 + |r1|, i2 + |r2|;
      assert s[e1 - 1] == r1[|r1| - 1] && s[e2 - 1] == r2[|r2| - 1];
      if e1 < e2 { WhitespaceFrom(s, e1, e2 - 1); }
      if e2 < e1 { WhitespaceFrom(s, e2, e1 - 1); }
    }
  }

  /** There is only one way to trim a string. */
  lemma {:induction false} TrimOfUnique(r1: string, r2: string, s: string)
    requires IsTrimOf(r1, s) && IsTrimOf(r2, s)
    ensures r1 == r2
  {
    var i1 :| SurroundedAt(r1, s, i1);
    var i2 :| SurroundedAt(r2, s, i2);
    SurroundedUnique(r1, i1, r2, i2, s);
  }

  /** A trimmed string is its own trim. */
  lemma {:induction false} TrimOfTrimmed(s: string)
    requires IsTrimmed(s)
    ensures Trim(s) == s
  {
    assert s[0..0 + |s|] == s && s[..0] == [] && s[0 + |s|..] == [];
    assert SurroundedAt(s, s, 0);
    TrimRemovesSurroundingWhitespace(s);
    TrimOfUnique(Trim(s), s, s);
  }

  /** Trimming twice is trimming once. */
  lemma TrimIdempotent(s: string)
    ensures Trim(Trim(s)) == Trim(s)
  {
    TrimRemovesSurroundingWhitespace(s);
    TrimOfTrimmed(Trim(s));
  }

  /** Padding `s` with whitespace keeps a surrounded infix surrounded. */
  lemma {:induction false} SurroundedPadded(r: string, s: string, i: int, w1: string, w2: string)
    requires SurroundedAt(r, s, i) && AllWhitespace(w1) && AllWhitespace(w2)
    ensures SurroundedAt(r, w1 + s + w2, |w1| + i)
  {
    var t := w1 + s + w2;
    var j := |w1| + i;
    assert t[j..j + |r|] == s[i..i + |r|] by {
      assert t == w1 + (s + w2);
      assert t[|w1|..] == s + w2;
    }
    assert AllWhitespace(t[..j]) by {
      assert t[..j] == w1 + s[..i];
      AllWhitespaceConcat(w1, s[..i]);
    }
    assert AllWhitespace(t[j + |r|..]) by {
      assert t[j + |r|..] == s[i + |r|..] + w2;
      AllWhitespaceConcat(s[i + |r|..], w2);
    }
  }

  /** Whitespace added at either end does not change the trim. */
  lemma TrimIgnoresSurroundingWhitespace(w1: string, s: string, w2: string)
    requires AllWhitespace(w1) && AllWhitespace(w2)
    ensures Trim(w1 + s + w2) == Trim(s)
  {
    var r := Trim(s);
    TrimRemovesSurroundingWhitespace(s);
    TrimRemovesSurroundingWhitespace(w1 + s + w2);
    var i :| SurroundedAt(r, s, i);
    SurroundedPadded(r, s, i, w1, w2);
    TrimOfUnique(Trim(w1 + s + w2), r, w1 + s + w2);
  }
}
