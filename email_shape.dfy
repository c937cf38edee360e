/** The email-shape test of the send-email handler, the regular expression
    `^[^\s@]+@[^\s@]+\.[^\s@]+$`, written three ways: what it accepts in plain
    words (WellShaped), the split the regular expression looks for
    (MatchesPattern), and a left-to-right scanner (IsEmailShaped). */
module EmailShape {
  import opened JsString

  /** A character of the class `[^\s@]`. */
  predicate IsPlain(c: char) {
    !IsWhitespace(c) && c != '@'
  }

  predicate AllPlain(s: string) {
    forall k :: 0 <= k < |s| ==> IsPlain(s[k])
  }

  predicate NoWhitespace(s: string) {
    forall k :: 0 <= k < |s| ==> !IsWhitespace(s[k])
  }

  /** `s[k]` is the one and only `@` of `s`. */
  predicate SoleAt(s: string, k: int) {
    0 <= k < |s| && s[k] == '@' &&
    forall m :: 0 <= m < |s| && s[m] == '@' ==> m == k
  }

  /** No whitespace, exactly one `@`, something before it, and after it a `.`
      with at least one character on each side. */
  ghost predicate WellShaped(s: string) {
    NoWhitespace(s) &&
    exists k :: SoleAt(s, k) && 0 < k &&
      exists j :: k + 1 < j < |s| - 1 && s[j] == '.'
  }

  /** The regular expression matches: `s` splits into a non-empty run of
      `[^\s@]`, an `@`, a non-empty run, a `.` and a non-empty run. */
  ghost predicate MatchesPattern(s: string) {
    exists i, j :: 0 < i && i + 1 < j && j + 1 < |s| &&
      s[i] == '@' && s[j] == '.' &&
      AllPlain(s[..i]) && AllPlain(s[i + 1..j]) && AllPlain(s[j + 1..])
  }

  lemma PlainSlice(s: string, lo: int, hi: int)
    requires 0 <= lo <= hi <= |s|
    requires forall p :: lo <= p < hi ==> IsPlain(s[p])
    ensures AllPlain(s[lo..hi])
  {
    var t := s[lo..hi];
    forall p | 0 <= p < |t| ensures IsPlain(t[p]) { assert t[p] == s[lo + p]; }
  }

  /** The plain-words reading and the regular expression accept the same strings. */
  lemma WellShapedIffMatchesPattern(s: string)
    ensures WellShaped(s) <==> MatchesPattern(s)
  {
    if WellShaped(s) {
      var k :| SoleAt(s, k) && 0 < k && exists j :: k + 1 < j < |s| - 1 && s[j] == '.';
      var j :| k + 1 < j < |s| - 1 && s[j] == '.';
      forall p | 0 <= p < |s| && p != k ensures IsPlain(s[p]) { }
      PlainSlice(s, 0, k);
      PlainSlice(s, k + 1, j);
      PlainSlice(s, j + 1, |s|);
      assert s[0..k] == s[..k] && s[j + 1..|s|] == s[j + 1..];
    }
    if MatchesPattern(s) {
      var i, j :| 0 < i && i + 1 < j && j + 1 < |s| &&
        s[i] == '@' && s[j] == '.' &&
        AllPlain(s[..i]) && AllPlain(s[i + 1..j]) && AllPlain(s[j + 1..]);
      forall p | 0 <= p < |s| && p != i ensures IsPlain(s[p]) {
        if p < i { assert s[..i][p] == s[p]; }
        else if p < j { assert s[i + 1..j][p - (i + 1)] == s[p]; }
        else if p > j { assert s[j + 1..][p - (j + 1)] == s[p]; }
      }
      assert SoleAt(s, i);
    }
  }

  /** The scanner: one pass over `s`, remembering where the `@` was and whether
      a `.` with a character on each side has been seen after it. */
  method IsEmailShaped(s: string) returns (ok: bool)
    ensures ok == WellShaped(s)
  {
    var at := -1;
    var dotInDomain := false;
    var i := 0;
    while i < |s|
      invariant 0 <= i <= |s|
      invariant forall k :: 0 <= k < i ==> !IsWhitespace(s[k])
      invariant -1 <= at < i
      invariant at == -1 ==> forall k :: 0 <= k < i ==> s[k] != '@'
      invariant at >= 0 ==> s[at] == '@' && forall k :: 0 <= k < i && s[k] == '@' ==> k == at
      invariant dotInDomain <==> at >= 0 && exists j :: at + 1 < j && j + 1 < i && s[j] == '.'
    {
      var c := s[i];
      if IsWhitespace(c) {
        assert !NoWhitespace(s);
        return false;
      }
      if c == '@' {
        if at >= 0 {
          assert !SoleAt(s, at) && forall k :: k != at ==> !SoleAt(s, k);
          return false;
        }
        at, dotInDomain := i, false;
      } else if at >= 0 && at + 1 < i - 1 && s[i - 1] == '.' {
        dotInDomain := true;
      }
      i := i + 1;
    }
    if at >= 0 {
      assert SoleAt(s, at);
      assert forall k :: SoleAt(s, k) ==> k == at;
    }
    ok := at > 0 && dotInDomain;
  }

  /** Typical addresses are accepted. */
  lemma AcceptsCommonAddresses()
    ensures WellShaped("a@b.com") && WellShaped("c@d.com") && WellShaped("x.y@mail.example.org")
  {
    assert SoleAt("a@b.com", 1) && "a@b.com"[3] == '.';
    assert SoleAt("c@d.com", 1) && "c@d.com"[3] == '.';
    var s := "x.y@mail.example.org";
    assert SoleAt(s, 3) && s[8] == '.';
  }

  /** A missing domain dot, an empty local part, a `.` right after the `@`, a
      trailing `.`, two `@`s and inner whitespace are all refused. */
  lemma RejectsMalformedAddresses()
    ensures !WellShaped("a@b") && !WellShaped("@b.c") && !WellShaped("a@.c")
    ensures !WellShaped("a@b.") && !WellShaped("a@@b.c") && !WellShaped("a b@c.d")
  {
    assert "@b.c"[0] == '@';
    assert "a@@b.c"[1] == '@' && "a@@b.c"[2] == '@';
    assert "a b@c.d"[1] == ' ';
  }
}
