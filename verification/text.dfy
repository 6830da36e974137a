/** Character classes, splitting and joining, decimal conversion, as the
    Python standard library does them on ASCII text. */
module Text {
  import opened Wrappers

  predicate IsAsciiLetter(c: char) {
    ('a' <= c <= 'z') || ('A' <= c <= 'Z')
  }

  predicate IsAsciiDigit(c: char) {
    '0' <= c <= '9'
  }

  /** The regular-expression class `\w`, restricted to ASCII. */
  predicate IsWordChar(c: char) {
    IsAsciiLetter(c) || IsAsciiDigit(c) || c == '_'
  }

  /** Whitespace as `str.split()`, `str.strip()` and `int()` see it among the
      ASCII characters: space, `\t`, `\n`, `\v`, `\f`, `\r` and the four
      separators `\x1c` to `\x1f`. */
  predicate IsSpace(c: char) {
    || c == ' ' || c == '\t' || c == '\n' || c == '\r' || c == '\U{000B}' || c == '\U{000C}'
    || ('\U{001C}' <= c <= '\U{001F}')
  }

  predicate AllWordChars(s: string) {
    forall i :: 0 <= i < |s| ==> IsWordChar(s[i])
  }

  /** Whether `bytes(s, 'ASCII')` encodes `s` rather than raising
      UnicodeEncodeError: every character is below 128. */
  predicate IsAscii(s: string) {
    forall i :: 0 <= i < |s| ==> s[i] <= '\U{007F}'
  }

  /** A text is ASCII exactly when both of its halves are. */
  lemma AsciiConcat(a: string, b: string)
    ensures IsAscii(a + b) <==> IsAscii(a) && IsAscii(b)
  {
    if IsAscii(a + b) {
      assert forall i :: 0 <= i < |a| ==> a[i] == (a + b)[i];
      assert forall i :: 0 <= i < |b| ==> b[i] == (a + b)[|a| + i];
    }
  }

  /** Joining ASCII pieces with an ASCII separator gives ASCII text. */
  lemma {:induction false} JoinAscii(parts: seq<string>, sep: string)
    requires IsAscii(sep) && forall k :: 0 <= k < |parts| ==> IsAscii(parts[k])
    ensures IsAscii(Join(parts, sep))
    decreases |parts|
  {
    if |parts| > 1 {
      JoinAscii(parts[1..], sep);
      AsciiConcat(parts[0], sep);
      AsciiConcat(parts[0] + sep, Join(parts[1..], sep));
    }
  }

  /** Word characters are ASCII ones. */
  lemma WordsAreAscii(s: string)
    requires AllWordChars(s)
    ensures IsAscii(s)
  {
  }

  predicate AllDigits(s: string) {
    forall i :: 0 <= i < |s| ==> IsAsciiDigit(s[i])
  }

  predicate NoSpace(s: string) {
    forall i :: 0 <= i < |s| ==> !IsSpace(s[i])
  }

  predicate StartsWith(s: string, prefix: string) {
    |prefix| <= |s| && s[..|prefix|] == prefix
  }

  predicate EndsWith(s: string, suffix: string) {
    |suffix| <= |s| && s[|s| - |suffix|..] == suffix
  }

  predicate OccursAt(s: string, pat: string, i: int) {
    0 <= i && i + |pat| <= |s| && s[i..i + |pat|] == pat
  }

  /** `pat in s` for strings. */
  predicate Occurs(s: string, pat: string) {
    exists i :: 0 <= i <= |s| && OccursAt(s, pat, i)
  }

  function ToUpper(c: char): char {
    if 'a' <= c <= 'z' then (c as int - 32) as char else c
  }

  function ToLower(c: char): char {
    if 'A' <= c <= 'Z' then (c as int + 32) as char else c
  }

  function LowerAll(s: string): string {
    seq(|s|, i requires 0 <= i < |s| => ToLower(s[i]))
  }

  /** `s.replace(a, b)` for one-character `a` and `b`. */
  function ReplaceChar(s: string, a: char, b: char): string {
    seq(|s|, i requires 0 <= i < |s| => if s[i] == a then b else s[i])
  }

  // ---------------------------------------------------------------------------
  // Splitting on one character, and joining

  /** `s.split(sep)` for a one-character separator: the maximal pieces between
      separators, empty pieces included. */
  function Split(s: string, sep: char): (parts: seq<string>)
    ensures |parts| >= 1
    ensures forall k :: 0 <= k < |parts| ==> sep !in parts[k]
    decreases |s|
  {
    if |s| == 0 then [""]
    else
      var rest := Split(s[1..], sep);
      if s[0] == sep then [""] + rest else [[s[0]] + rest[0]] + rest[1..]
  }

  /** `sep.join(parts)`. */
  function Join(parts: seq<string>, sep: string): string
    decreases |parts|
  {
    if |parts| == 0 then ""
    else if |parts| == 1 then parts[0]
    else parts[0] + sep + Join(parts[1..], sep)
  }

  /** A piece free of the separator splits to itself. */
  lemma {:induction false} SplitNoSep(s: string, sep: char)
    requires sep !in s
    ensures Split(s, sep) == [s]
    decreases |s|
  {
    if |s| > 0 {
      assert sep !in s[1..];
      SplitNoSep(s[1..], sep);
      assert [s[0]] + s[1..] == s;
    }
  }

  /** Splitting at the first separator. */
  lemma {:induction false} SplitAtFirst(a: string, b: string, sep: char)
    requires sep !in a
    ensures Split(a + [sep] + b, sep) == [a] + Split(b, sep)
    decreases |a|
  {
    var s := a + [sep] + b;
    if |a| == 0 {
      assert s == [sep] + b;
      assert s[1..] == b;
    } else {
      assert s[1..] == a[1..] + [sep] + b;
      assert sep !in a[1..];
      SplitAtFirst(a[1..], b, sep);
      assert [a[0]] + a[1..] == a;
    }
  }

  /** Joining with the separator undoes splitting. */
  lemma {:induction false} JoinSplit(s: string, sep: char)
    ensures Join(Split(s, sep), [sep]) == s
    decreases |s|
  {
    if |s| > 0 {
      var rest := Split(s[1..], sep);
      JoinSplit(s[1..], sep);
      if s[0] == sep {
        assert ([""] + rest)[1..] == rest;
      } else if |rest| > 1 {
        var parts := [[s[0]] + rest[0]] + rest[1..];
        assert parts[1..] == rest[1..];
        assert Join(rest, [sep]) == rest[0] + [sep] + Join(rest[1..], [sep]);
      }
      assert [s[0]] + s[1..] == s;
    }
  }

  /** Splitting recovers the pieces a join was built from, when none holds the separator. */
  lemma {:induction false} SplitJoin(parts: seq<string>, sep: char)
    requires |parts| >= 1
    requires forall k :: 0 <= k < |parts| ==> sep !in parts[k]
    ensures Split(Join(parts, [sep]), sep) == parts
    decreases |parts|
  {
    if |parts| == 1 {
      SplitNoSep(parts[0], sep);
    } else {
      SplitJoin(parts[1..], sep);
      SplitAtFirst(parts[0], Join(parts[1..], [sep]), sep);
      assert [parts[0]] + parts[1..] == parts;
    }
  }

  // ---------------------------------------------------------------------------
  // Decimal numerals

  function Pow10(k: nat): (r: nat)
    ensures r >= 1
  {
    if k == 0 then 1 else 10 * Pow10(k - 1)
  }

  function DigitChar(d: nat): char
    requires d < 10
  {
    ('0' as int + d) as char
  }

  function DigitValue(c: char): nat
    requires IsAsciiDigit(c)
  {
    c as int - '0' as int
  }

  /** `str(n)` for a non-negative integer. */
  function NatToString(n: nat): (s: string)
    ensures |s| >= 1 && AllDigits(s)
    decreases n
  {
    if n < 10 then [DigitChar(n)] else NatToString(n / 10) + [DigitChar(n % 10)]
  }

  /** `str(i)`. */
  function IntToString(i: int): string {
    if i < 0 then "-" + NatToString(-i) else NatToString(i)
  }

  /** The number a string of ASCII digits denotes, leading zeros allowed. */
  function DigitsValue(s: string): nat
    requires AllDigits(s)
    decreases |s|
  {
    if |s| == 0 then 0 else 10 * DigitsValue(s[..|s| - 1]) + DigitValue(s[|s| - 1])
  }

  /** `s.strip()`. */
  function Strip(s: string): (t: string)
    ensures |t| <= |s|
    decreases |s|
  {
    if |s| > 0 && IsSpace(s[0]) then Strip(s[1..])
    else if |s| > 0 && IsSpace(s[|s| - 1]) then Strip(s[..|s| - 1])
    else s
  }

  /** `int(s)` on a string: surrounding whitespace, an optional sign, then at
      least one digit; anything else is a ValueError, here None. */
  function ParseInt(s: string): (r: Option<int>)
    ensures |s| > 0 && AllDigits(s) ==> r == Some(DigitsValue(s))
  {
    StripDigits(s);
    var t := Strip(s);
    if |t| >= 2 && t[0] == '-' && AllDigits(t[1..]) then Some(-(DigitsValue(t[1..]) as int))
    else if |t| >= 2 && t[0] == '+' && AllDigits(t[1..]) then Some(DigitsValue(t[1..]))
    else if |t| >= 1 && AllDigits(t) then Some(DigitsValue(t))
    else None
  }

  lemma {:induction false} NatToStringValue(n: nat)
    ensures DigitsValue(NatToString(n)) == n
    decreases n
  {
    var s := NatToString(n);
    if n >= 10 {
      NatToStringValue(n / 10);
      assert s[..|s| - 1] == NatToString(n / 10);
    }
  }

  /** `k` digits are worth less than `10^k`. */
  lemma {:induction false} DigitsValueBound(s: string)
    requires AllDigits(s)
    ensures DigitsValue(s) < Pow10(|s|)
    decreases |s|
  {
    if |s| > 0 {
      DigitsValueBound(s[..|s| - 1]);
      assert DigitValue(s[|s| - 1]) <= 9;
    }
  }

  /** Digits have no whitespace around them to strip. */
  lemma StripDigits(s: string)
    ensures |s| > 0 && AllDigits(s) ==> Strip(s) == s
  {
    if |s| > 0 && AllDigits(s) {
      assert IsAsciiDigit(s[0]) && IsAsciiDigit(s[|s| - 1]);
    }
  }

  /** `s.strip()` drops a final whitespace character. */
  lemma {:induction false} StripTrailingSpace(s: string, c: char)
    requires IsSpace(c)
    ensures Strip(s + [c]) == Strip(s)
    decreases |s|
  {
    var t := s + [c];
    if |s| == 0 {
      assert t[1..] == s;
    } else if IsSpace(s[0]) {
      assert t[1..] == s[1..] + [c];
      StripTrailingSpace(s[1..], c);
    } else {
      assert t[..|t| - 1] == s;
    }
  }

  /** `int` ignores a final whitespace character, a newline say. */
  lemma ParseIntTrailingSpace(s: string, c: char)
    requires IsSpace(c)
    ensures ParseInt(s + [c]) == ParseInt(s)
  {
    StripTrailingSpace(s, c);
  }

  /** `int(str(i)) == i` for every integer. */
  lemma ParseIntRoundTrip(i: int)
    ensures ParseInt(IntToString(i)) == Some(i)
  {
    var s := IntToString(i);
    if i < 0 {
      var d := NatToString(-i);
      NatToStringValue(-i);
      assert s[0] == '-' && !IsSpace(s[|s| - 1]);
      assert Strip(s) == s;
      assert s[1..] == d;
    } else {
      NatToStringValue(i);
      assert IsAsciiDigit(s[0]) && IsAsciiDigit(s[|s| - 1]);
      assert Strip(s) == s;
    }
  }

  /** `str(n)` has at most `k` digits exactly when `n < 10^k`. */
  lemma {:induction false} NatToStringLength(n: nat, k: nat)
    requires k >= 1
    ensures |NatToString(n)| <= k <==> n < Pow10(k)
    decreases n
  {
    if n >= 10 {
      if k == 1 {
        assert Pow10(1) == 10;
        assert |NatToString(n)| >= 2 by {
          assert NatToString(n) == NatToString(n / 10) + [DigitChar(n % 10)];
        }
      } else {
        NatToStringLength(n / 10, k - 1);
      }
    } else {
      assert Pow10(k) >= 10 by {
        assert Pow10(k) == 10 * Pow10(k - 1);
      }
    }
  }

  /** `str(n)` starts with `0` only for zero itself. */
  lemma {:induction false} NoLeadingZero(n: nat)
    ensures |NatToString(n)| > 1 ==> NatToString(n)[0] != '0'
    decreases n
  {
    if n >= 10 {
      var s := NatToString(n);
      assert s[0] == NatToString(n / 10)[0];
      if n / 10 >= 10 {
        NoLeadingZero(n / 10);
      }
    }
  }

  /** Whether every string of `ss` starts with `prefix`, checked one after
      another as a `for` loop with an early `return` does. */
  function AllStartWith(ss: seq<string>, prefix: string): (b: bool)
    ensures b <==> forall k :: 0 <= k < |ss| ==> StartsWith(ss[k], prefix)
    decreases |ss|
  {
    if |ss| == 0 then true
    else if !StartsWith(ss[0], prefix) then false
    else
      assert forall k :: 1 <= k < |ss| ==> ss[k] == ss[1..][k - 1];
      AllStartWith(ss[1..], prefix)
  }

  // ---------------------------------------------------------------------------
  // Whitespace-separated words

  /** Length of the leading run of non-whitespace characters. */
  function WordLength(s: string): (n: nat)
    ensures n <= |s|
    ensures forall i :: 0 <= i < n ==> !IsSpace(s[i])
    ensures n < |s| ==> IsSpace(s[n])
    decreases |s|
  {
    if |s| == 0 || IsSpace(s[0]) then 0 else 1 + WordLength(s[1..])
  }

  /** `s.split()` with no argument: the maximal runs of non-whitespace, in order. */
  function Words(s: string): (ws: seq<string>)
    ensures forall k :: 0 <= k < |ws| ==> |ws[k]| > 0 && NoSpace(ws[k])
    decreases |s|
  {
    if |s| == 0 then []
    else if IsSpace(s[0]) then Words(s[1..])
    else
      var n := WordLength(s);
      [s[..n]] + Words(s[n..])
  }

  /** `w.capitalize()`: first character upper-case, the rest lower-case. */
  function Capitalize(w: string): string {
    if |w| == 0 then "" else [ToUpper(w[0])] + LowerAll(w[1..])
  }

  /** `string.capwords(s)`: split into words, capitalize each, join with one
      space. The result is single-spaced, splits back into the capitalized
      words of `s`, and holds no character that neither `s`, a space nor a
      letter accounts for. */
  function CapWords(s: string): (r: string)
    ensures SingleSpaced(r)
    ensures var ws := Words(s);
      Words(r) == seq(|ws|, k requires 0 <= k < |ws| => Capitalize(ws[k]))
    ensures forall c :: c != ' ' && !IsAsciiLetter(c) && c !in s ==> c !in r
  {
    var ws := Words(s);
    var caps := seq(|ws|, k requires 0 <= k < |ws| => Capitalize(ws[k]));
    forall k | 0 <= k < |ws|
      ensures |caps[k]| > 0 && NoSpace(caps[k]) && IsCapitalized(caps[k])
    {
      CapitalizeWord(ws[k]);
    }
    JoinSingleSpaced(caps);
    WordsOfJoin(caps);
    forall c | c != ' ' && !IsAsciiLetter(c) && c !in s
      ensures c !in Join(caps, " ")
    {
      WordsAvoid(s, c);
      forall k | 0 <= k < |ws|
        ensures c !in caps[k]
      {
        CapitalizeWord(ws[k]);
      }
      JoinAvoids(caps, " ", c);
    }
    Join(caps, " ")
  }

  predicate IsCapitalized(w: string) {
    |w| > 0 && w[0] == ToUpper(w[0]) && forall i :: 1 <= i < |w| ==> w[i] == ToLower(w[i])
  }

  /** No space at either end and never two spaces in a row. */
  predicate SingleSpaced(s: string) {
    && (|s| > 0 ==> s[0] != ' ' && s[|s| - 1] != ' ')
    && forall i :: 0 <= i < |s| - 1 ==> !(s[i] == ' ' && s[i + 1] == ' ')
  }

  predicate ProperWords(ws: seq<string>) {
    forall k :: 0 <= k < |ws| ==> |ws[k]| > 0 && NoSpace(ws[k])
  }

  lemma WordLengthOfWord(w: string, t: string)
    requires NoSpace(w)
    requires |t| == 0 || IsSpace(t[0])
    ensures WordLength(w + t) == |w|
  {
    assert forall i :: 0 <= i < |w| ==> (w + t)[i] == w[i];
    assert |t| > 0 ==> (w + t)[|w|] == t[0];
  }

  /** Splitting a single-spaced join of words recovers the words. */
  lemma {:induction false} WordsOfJoin(ws: seq<string>)
    requires ProperWords(ws)
    ensures Words(Join(ws, " ")) == ws
    decreases |ws|
  {
    if |ws| == 1 {
      var w := ws[0];
      WordLengthOfWord(w, "");
      assert w + "" == w;
      assert w[|w|..] == "";
    } else if |ws| > 1 {
      var w := ws[0];
      var rest := Join(ws[1..], " ");
      var s := w + " " + rest;
      assert s == w + (" " + rest);
      WordLengthOfWord(w, " " + rest);
      assert s[..|w|] == w;
      assert s[|w|..] == " " + rest;
      assert (" " + rest)[1..] == rest;
      WordsOfJoin(ws[1..]);
      assert [ws[0]] + ws[1..] == ws;
    }
  }

  /** A single-space join of non-empty, space-free words is single-spaced. */
  lemma {:induction false} JoinSingleSpaced(ws: seq<string>)
    requires ProperWords(ws)
    ensures SingleSpaced(Join(ws, " "))
    ensures |ws| > 0 ==> |Join(ws, " ")| > 0
    decreases |ws|
  {
    if |ws| > 1 {
      var w := ws[0];
      var rest := Join(ws[1..], " ");
      JoinSingleSpaced(ws[1..]);
      var s := w + " " + rest;
      assert w[0] != ' ' && w[|w| - 1] != ' ';
      assert s[0] == w[0];
      assert s[|s| - 1] == rest[|rest| - 1];
      forall i | 0 <= i < |s| - 1
        ensures !(s[i] == ' ' && s[i + 1] == ' ')
      {
        if i < |w| - 1 {
          assert s[i] == w[i];
        } else if i == |w| - 1 {
          assert s[i] == w[|w| - 1];
        } else if i == |w| {
          assert s[i + 1] == rest[0];
        } else {
          assert s[i] == rest[i - |w| - 1] && s[i + 1] == rest[i - |w|];
        }
      }
    } else if |ws| == 1 {
      var w := ws[0];
      assert w[0] != ' ' && w[|w| - 1] != ' ';
    }
  }

  /** A character absent from a text is absent from each of its words. */
  lemma {:induction false} WordsAvoid(s: string, c: char)
    requires c !in s
    ensures forall k :: 0 <= k < |Words(s)| ==> c !in Words(s)[k]
    decreases |s|
  {
    if |s| > 0 {
      if IsSpace(s[0]) {
        WordsAvoid(s[1..], c);
      } else {
        var n := WordLength(s);
        WordsAvoid(s[n..], c);
        assert c !in s[..n];
        assert Words(s) == [s[..n]] + Words(s[n..]);
      }
    }
  }

  /** Joining pieces that avoid a character with a separator that avoids it
      gives a text that avoids it. */
  lemma {:induction false} JoinAvoids(parts: seq<string>, sep: string, c: char)
    requires c !in sep
    requires forall k :: 0 <= k < |parts| ==> c !in parts[k]
    ensures c !in Join(parts, sep)
    decreases |parts|
  {
    if |parts| > 1 {
      JoinAvoids(parts[1..], sep, c);
    }
  }

  /** Capitalizing keeps a word non-empty and space-free, never introduces a
      character that is not a letter, and yields a capitalized word. */
  lemma CapitalizeWord(w: string)
    requires |w| > 0 && NoSpace(w)
    ensures |Capitalize(w)| == |w| && NoSpace(Capitalize(w)) && IsCapitalized(Capitalize(w))
    ensures forall c :: !IsAsciiLetter(c) && c !in w ==> c !in Capitalize(w)
  {
    var cw := Capitalize(w);
    assert forall i :: 1 <= i < |w| ==> cw[i] == ToLower(w[i]);
    assert forall i :: 1 <= i < |w| ==> w[i] == w[1..][i - 1];
  }
}
