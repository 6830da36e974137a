/** Site identifiers: `VALID_SITE_ID = ^[a-zA-Z]\w{0,23}$`, shared by all
    three generations of the tool. */
module SiteIds {
  import opened Text

  /** Longest identifier the pattern admits: one letter and up to 23 word characters. */
  const MaxLength: nat := 24

  /** The identifier pattern matched against the whole string: an ASCII letter
      followed by 0 to 23 ASCII word characters. This is the predicate the
      rest of the model uses. */
  predicate IsValid(s: string): (ok: bool)
    ensures ok ==> 0 < |s| <= MaxLength && AllWordChars(s) && !IsAsciiDigit(s[0]) && s[0] != '_'
  {
    1 <= |s| <= MaxLength && IsAsciiLetter(s[0]) && AllWordChars(s[1..])
  }

  /** What `VALID_SITE_ID.match(s)` accepts as written: Python's `$` matches
      at the end of the string and also just before a final newline. */
  predicate MatchesAsWritten(s: string) {
    IsValid(s) || (|s| >= 2 && s[|s| - 1] == '\n' && IsValid(s[..|s| - 1]))
  }

  /** The pattern as written admits an identifier ending in a newline, which
      the error message's `[a-zA-Z][a-zA-Z0-9_]{0,23}` excludes. */
  lemma TrailingNewlineAccepted()
    ensures MatchesAsWritten("a\n") && !IsValid("a\n")
  {
    assert "a\n"[..1] == "a";
    assert !IsWordChar("a\n"[1]);
  }

  /** Apart from that one newline, the written pattern and the intended one
      agree: the written pattern accepts a valid identifier, optionally
      followed by one newline, and nothing else. */
  lemma AsWrittenDiffersOnlyByNewline(s: string)
    ensures MatchesAsWritten(s) <==> exists t :: IsValid(t) && (s == t || s == t + "\n")
  {
    if MatchesAsWritten(s) && !IsValid(s) {
      var t := s[..|s| - 1];
      assert s == t + "\n";
    }
    forall t | IsValid(t) && s == t + "\n"
      ensures MatchesAsWritten(s)
    {
      NewlineAfterValid(t);
    }
  }

  /** A valid identifier followed by a newline matches as written. */
  lemma NewlineAfterValid(t: string)
    requires IsValid(t)
    ensures MatchesAsWritten(t + "\n")
  {
    assert (t + "\n")[..|t|] == t;
  }

  /** An accepted identifier is 1 to 24 word characters long, and so holds
      neither `-` (the separator of directory names) nor `/` nor a newline. */
  lemma ValidShape(s: string)
    requires IsValid(s)
    ensures 1 <= |s| <= 24 && AllWordChars(s)
    ensures '-' !in s && '/' !in s && '\n' !in s && '.' !in s
  {
    assert forall i :: 1 <= i < |s| ==> s[i] == s[1..][i - 1];
  }

  /** A character-by-character matcher for the identifier pattern. */
  method CheckSiteId(s: string) returns (ok: bool)
    ensures ok <==> IsValid(s)
  {
    if |s| == 0 || |s| > MaxLength || !IsAsciiLetter(s[0]) {
      return false;
    }
    var i := 1;
    while i < |s|
      invariant 1 <= i <= |s|
      invariant forall k :: 1 <= k < i ==> IsWordChar(s[k])
    {
      if !IsWordChar(s[i]) {
        assert s[1..][i - 1] == s[i];
        return false;
      }
      i := i + 1;
    }
    assert forall k :: 0 <= k < |s| - 1 ==> s[1..][k] == s[k + 1];
    return true;
  }
}
