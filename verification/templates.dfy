/** The two template engines: the older `***KEY***` tag replacement of the
    monolithic scripts, and `string.Template.safe_substitute` of the package. */
module Templates {
  import opened Wrappers
  import opened Text

  // ---------------------------------------------------------------------------
  // str.replace and str.split on a string separator

  /** `s.replace(pat, rep)` for a non-empty `pat`: scanning left to right,
      every occurrence that does not overlap an already replaced one. */
  function ReplaceAll(s: string, pat: string, rep: string): string
    requires |pat| > 0
    decreases |s|
  {
    if |s| < |pat| then s
    else if s[..|pat|] == pat then rep + ReplaceAll(s[|pat|..], pat, rep)
    else [s[0]] + ReplaceAll(s[1..], pat, rep)
  }

  /** First index at or after `from` where `pat` occurs. */
  function FirstOccurrenceFrom(s: string, pat: string, from: nat): (r: Option<nat>)
    ensures r.Some? ==> from <= r.value && OccursAt(s, pat, r.value)
    ensures r.Some? ==> forall j :: from <= j < r.value ==> !OccursAt(s, pat, j)
    ensures r.None? ==> forall j :: from <= j ==> !OccursAt(s, pat, j)
    decreases |s| - from
  {
    if from + |pat| > |s| then None
    else if s[from..from + |pat|] == pat then Some(from)
    else FirstOccurrenceFrom(s, pat, from + 1)
  }

  /** `s.split(pat)` for a non-empty `pat`: the pieces between the leftmost
      non-overlapping occurrences, found by searching for each in turn. */
  function SplitOn(s: string, pat: string): (parts: seq<string>)
    requires |pat| > 0
    ensures |parts| >= 1
    decreases |s|
  {
    match FirstOccurrenceFrom(s, pat, 0)
    case None => [s]
    case Some(i) => [s[..i]] + SplitOn(s[i + |pat|..], pat)
  }

  lemma NotOccursInTail(s: string, pat: string, k: nat)
    requires k <= |s|
    requires forall j :: k <= j ==> !OccursAt(s, pat, j)
    ensures !Occurs(s[k..], pat)
  {
    forall j | 0 <= j <= |s[k..]|
      ensures !OccursAt(s[k..], pat, j)
    {
      if j + |pat| <= |s[k..]| {
        assert s[k..][j..j + |pat|] == s[k + j..k + j + |pat|];
        assert !OccursAt(s, pat, k + j);
      }
    }
  }

  /** A string without the pattern is left unchanged. */
  lemma {:induction false} ReplaceAbsent(s: string, pat: string, rep: string)
    requires |pat| > 0
    requires !Occurs(s, pat)
    ensures ReplaceAll(s, pat, rep) == s
    decreases |s|
  {
    if |s| >= |pat| {
      assert !OccursAt(s, pat, 0);
      assert forall j :: 1 <= j ==> !OccursAt(s, pat, j);
      NotOccursInTail(s, pat, 1);
      ReplaceAbsent(s[1..], pat, rep);
      assert [s[0]] + s[1..] == s;
    }
  }

  lemma ConsAssoc(c: char, a: string, b: string, d: string)
    ensures [c] + (a + b + d) == ([c] + a) + b + d
  {
  }

  lemma EmptyPrefix(a: string, b: string, c: string)
    requires |a| == 0
    ensures a + b + c == b + c
  {
    assert a + b == b;
  }

  /** Where the pattern starts the string, replacement puts `rep` in its
      place and goes on after it. */
  lemma ReplaceHit(s: string, pat: string, rep: string)
    requires |pat| > 0 && OccursAt(s, pat, 0)
    ensures ReplaceAll(s, pat, rep) == rep + ReplaceAll(s[|pat|..], pat, rep)
  {
  }

  /** Where the pattern does not start the string, replacement keeps the
      first character and goes on with the rest. */
  lemma ReplaceSkip(s: string, pat: string, rep: string)
    requires |pat| > 0 && |s| >= |pat| && !OccursAt(s, pat, 0)
    ensures ReplaceAll(s, pat, rep) == [s[0]] + ReplaceAll(s[1..], pat, rep)
  {
    assert s[..|pat|] != pat;
  }

  /** The suffix from an occurrence of the pattern. */
  lemma ReplaceFromHit(s: string, pat: string, rep: string, i: nat)
    requires |pat| > 0 && OccursAt(s, pat, i)
    ensures ReplaceAll(s[i..], pat, rep) == s[i..i] + rep + ReplaceAll(s[i + |pat|..], pat, rep)
  {
    var tail := ReplaceAll(s[i + |pat|..], pat, rep);
    var u := s[i..];
    assert OccursAt(u, pat, 0) by {
      assert u[0..|pat|] == s[i..i + |pat|];
    }
    ReplaceHit(u, pat, rep);
    assert u[|pat|..] == s[i + |pat|..];
    EmptyPrefix(s[i..i], rep, tail);
  }

  /** The suffix from a position `k` where the pattern does not occur, given
      what replacement does from `k + 1`. */
  lemma ReplaceFromSkip(s: string, pat: string, rep: string, k: nat, i: nat)
    requires |pat| > 0 && k < i && OccursAt(s, pat, i) && !OccursAt(s, pat, k)
    requires ReplaceAll(s[k + 1..], pat, rep) == s[k + 1..i] + rep + ReplaceAll(s[i + |pat|..], pat, rep)
    ensures ReplaceAll(s[k..], pat, rep) == s[k..i] + rep + ReplaceAll(s[i + |pat|..], pat, rep)
  {
    var tail := ReplaceAll(s[i + |pat|..], pat, rep);
    var u := s[k..];
    assert !OccursAt(u, pat, 0) by {
      assert u[0..|pat|] == s[k..k + |pat|];
    }
    ReplaceSkip(u, pat, rep);
    assert u[1..] == s[k + 1..];
    assert s[k..i] == [s[k]] + s[k + 1..i];
    ConsAssoc(s[k], s[k + 1..i], rep, tail);
  }

  /** Replacing in the suffix from `k` scans past everything before the
      first occurrence at or after `k`. */
  lemma {:induction false} ReplaceFrom(s: string, pat: string, rep: string, k: nat, i: nat)
    requires |pat| > 0 && k <= i
    requires OccursAt(s, pat, i)
    requires forall j :: k <= j < i ==> !OccursAt(s, pat, j)
    ensures ReplaceAll(s[k..], pat, rep) == s[k..i] + rep + ReplaceAll(s[i + |pat|..], pat, rep)
    decreases i - k
  {
    if k == i {
      ReplaceFromHit(s, pat, rep, i);
    } else {
      ReplaceFrom(s, pat, rep, k + 1, i);
      ReplaceFromSkip(s, pat, rep, k, i);
    }
  }

  /** Replacement scans past everything before the first occurrence. */
  lemma ReplaceAtFirst(s: string, pat: string, rep: string, i: nat)
    requires |pat| > 0
    requires OccursAt(s, pat, i)
    requires forall j :: 0 <= j < i ==> !OccursAt(s, pat, j)
    ensures ReplaceAll(s, pat, rep) == s[..i] + rep + ReplaceAll(s[i + |pat|..], pat, rep)
  {
    ReplaceFrom(s, pat, rep, 0, i);
    assert s[0..] == s;
    assert s[0..i] == s[..i];
  }

  /** Python's documented identity `s.replace(old, new) == new.join(s.split(old))`:
      every occurrence is replaced, and only those. */
  lemma {:induction false} ReplaceIsJoinOfSplit(s: string, pat: string, rep: string)
    requires |pat| > 0
    ensures ReplaceAll(s, pat, rep) == Join(SplitOn(s, pat), rep)
    decreases |s|
  {
    match FirstOccurrenceFrom(s, pat, 0)
    case None =>
      NotOccursInTail(s, pat, 0);
      assert s[0..] == s;
      ReplaceAbsent(s, pat, rep);
    case Some(i) =>
      ReplaceAtFirst(s, pat, rep, i);
      var rest := s[i + |pat|..];
      ReplaceIsJoinOfSplit(rest, pat, rep);
      var parts := SplitOn(s, pat);
      assert parts == [s[..i]] + SplitOn(rest, pat);
      assert parts[1..] == SplitOn(rest, pat);
  }

  // ---------------------------------------------------------------------------
  // Tag replacement: `generate_configuration` of the monolithic scripts

  /** The tag a key is written as in a template. */
  function Marker(key: string): string {
    "***" + key + "***"
  }

  /** `generate_configuration(template, values)`: replaces every `***KEY***`
      by `str(value)`, one pair after another in list order. Values arrive
      here already converted with `str`. */
  function GenerateConfiguration(template: string, values: seq<(string, string)>): (r: string)
    ensures |values| == 1 ==> r == Join(SplitOn(template, Marker(values[0].0)), values[0].1)
    decreases |values|
  {
    if |values| == 0 then template
    else
      ReplaceIsJoinOfSplit(template, Marker(values[0].0), values[0].1);
      GenerateConfiguration(ReplaceAll(template, Marker(values[0].0), values[0].1), values[1..])
  }

  /** Replacement happens in list order: a list is the first part followed by the rest. */
  lemma {:induction false} GenerateInOrder(t: string, a: seq<(string, string)>, b: seq<(string, string)>)
    ensures GenerateConfiguration(t, a + b) == GenerateConfiguration(GenerateConfiguration(t, a), b)
    decreases |a|
  {
    if |a| == 0 {
      assert a + b == b;
    } else {
      assert (a + b)[0] == a[0];
      assert (a + b)[1..] == a[1..] + b;
      GenerateInOrder(ReplaceAll(t, Marker(a[0].0), a[0].1), a[1..], b);
    }
  }

  /** A key whose marker does not occur changes nothing. */
  lemma GenerateSkipsAbsentTag(t: string, key: string, value: string, rest: seq<(string, string)>)
    requires !Occurs(t, Marker(key))
    ensures GenerateConfiguration(t, [(key, value)] + rest) == GenerateConfiguration(t, rest)
  {
    ReplaceAbsent(t, Marker(key), value);
    assert ([(key, value)] + rest)[1..] == rest;
  }

  /** A template without `*` has no tag, and comes out unchanged whatever the values. */
  lemma {:induction false} GenerateWithoutTags(t: string, values: seq<(string, string)>)
    requires '*' !in t
    ensures GenerateConfiguration(t, values) == t
    decreases |values|
  {
    if |values| > 0 {
      var m := Marker(values[0].0);
      forall j | 0 <= j <= |t|
        ensures !OccursAt(t, m, j)
      {
        if j + |m| <= |t| {
          assert t[j..j + |m|][0] == t[j] != '*';
        }
      }
      ReplaceAbsent(t, m, values[0].1);
      GenerateWithoutTags(t, values[1..]);
    }
  }

  /** The value the first pair naming `key` binds; the later pairs for the
      same key find no marker left to replace. */
  function Lookup(values: seq<(string, string)>, key: string): (r: Option<string>)
    ensures r.Some? ==> (key, r.value) in values
    ensures r.None? <==> forall i :: 0 <= i < |values| ==> values[i].0 != key
    decreases |values|
  {
    if |values| == 0 then None
    else if values[0].0 == key then Some(values[0].1)
    else Lookup(values[1..], key)
  }

  /** The first pair naming `key` decides what `Lookup` returns. */
  lemma {:induction false} LookupFirst(values: seq<(string, string)>, key: string, i: nat)
    requires i < |values| && values[i].0 == key
    requires forall j :: 0 <= j < i ==> values[j].0 != key
    ensures Lookup(values, key) == Some(values[i].1)
    decreases i
  {
    if i > 0 {
      LookupFirst(values[1..], key, i - 1);
    }
  }

  /** A marker replaced in a string that is nothing but that marker. */
  lemma ReplaceWhole(pat: string, rep: string)
    requires |pat| > 0
    ensures ReplaceAll(pat, pat, rep) == rep
  {
    assert pat[..|pat|] == pat && pat[|pat|..] == [];
    assert ReplaceAll([], pat, rep) == [];
  }

  /** A template holding only the tag of `key` renders as the value of the
      first pair naming it, provided the tags replaced before leave that
      marker alone and the value holds no `*` a later tag could match. */
  lemma {:induction false} RenderSingleTag(key: string, values: seq<(string, string)>, i: nat)
    requires i < |values| && values[i].0 == key
    requires forall j :: 0 <= j < i ==> !Occurs(Marker(key), Marker(values[j].0))
    requires '*' !in values[i].1
    ensures GenerateConfiguration(Marker(key), values) == values[i].1
    decreases i
  {
    if i == 0 {
      ReplaceWhole(Marker(key), values[0].1);
      GenerateWithoutTags(values[0].1, values[1..]);
    } else {
      ReplaceAbsent(Marker(key), Marker(values[0].0), values[0].1);
      RenderSingleTag(key, values[1..], i - 1);
    }
  }

  // ---------------------------------------------------------------------------
  // string.Template.safe_substitute, reduced to `$$`, `$KEY` and `${KEY}`

  /** First character of a `string.Template` identifier. */
  predicate IsIdentStart(c: char) {
    IsAsciiLetter(c) || c == '_'
  }

  /** `[_a-z][_a-z0-9]*`, case-insensitive. */
  predicate IsIdentifier(k: string) {
    |k| > 0 && IsIdentStart(k[0]) && AllWordChars(k)
  }

  /** Length of the leading run of word characters. */
  function IdentLength(s: string): (n: nat)
    ensures n <= |s|
    ensures forall i :: 0 <= i < n ==> IsWordChar(s[i])
    ensures n < |s| ==> !IsWordChar(s[n])
    decreases |s|
  {
    if |s| == 0 || !IsWordChar(s[0]) then 0 else 1 + IdentLength(s[1..])
  }

  /** Whether `t` starts with `${`, an identifier and `}`. */
  predicate BracedAt(t: string) {
    |t| >= 3 && t[0] == '$' && t[1] == '{' && IsIdentStart(t[2])
    && 3 + IdentLength(t[3..]) < |t| && t[3 + IdentLength(t[3..])] == '}'
  }

  /** What the leading placeholder or character of a template turns into,
      and how many characters of the template it spans. */
  datatype Piece = Piece(text: string, width: nat)

  /** The leading piece of `Template(t).safe_substitute(m)`: `$$` becomes `$`;
      `$KEY` (longest identifier) and `${KEY}` become `m[KEY]` when the key is
      bound and stay verbatim when it is not; any other `$` stays as it is. */
  function FirstPiece(t: string, m: map<string, string>): (p: Piece)
    requires |t| > 0
    ensures 1 <= p.width <= |t|
  {
    if t[0] != '$' then Piece([t[0]], 1)
    else if |t| >= 2 && t[1] == '$' then Piece("$", 2)
    else if |t| >= 2 && IsIdentStart(t[1]) then
      var n := 1 + IdentLength(t[2..]);
      var key := t[1..1 + n];
      Piece(if key in m then m[key] else "$" + key, 1 + n)
    else if BracedAt(t) then
      var n := 1 + IdentLength(t[3..]);
      var key := t[2..2 + n];
      Piece(if key in m then m[key] else "${" + key + "}", 3 + n)
    else Piece("$", 1)
  }

  /** `Template(t).safe_substitute(m)`, piece after piece. It never fails,
      and text without `$` comes out unchanged. */
  function SafeSubstitute(t: string, m: map<string, string>): (r: string)
    ensures '$' !in t ==> r == t
    decreases |t|
  {
    if |t| == 0 then ""
    else
      var p := FirstPiece(t, m);
      assert '$' !in t ==> '$' !in t[p.width..] && [t[0]] + t[1..] == t;
      p.text + SafeSubstitute(t[p.width..], m)
  }

  lemma NoDoubleDollarInTail(t: string, k: nat)
    requires k <= |t|
    requires !Occurs(t, "$$")
    ensures !Occurs(t[k..], "$$")
  {
    forall j | 0 <= j <= |t[k..]|
      ensures !OccursAt(t[k..], "$$", j)
    {
      if j + 2 <= |t[k..]| {
        assert t[k..][j..j + 2] == t[k + j..k + j + 2];
        assert !OccursAt(t, "$$", k + j);
      }
    }
  }

  /** With nothing bound, a piece other than `$$` is copied verbatim. */
  lemma UnboundPieceVerbatim(t: string)
    requires |t| > 0
    requires !(|t| >= 2 && t[0] == '$' && t[1] == '$')
    ensures FirstPiece(t, map[]).text == t[..FirstPiece(t, map[]).width]
  {
    var m: map<string, string> := map[];
    if t[0] == '$' && |t| >= 2 && IsIdentStart(t[1]) {
      var n := 1 + IdentLength(t[2..]);
      assert "$" + t[1..1 + n] == t[..1 + n];
    } else if t[0] == '$' && BracedAt(t) {
      var n := 1 + IdentLength(t[3..]);
      assert t[2 + n] == '}';
      assert "${" + t[2..2 + n] + "}" == t[..3 + n];
    }
  }

  /** With nothing bound, every placeholder is left verbatim: a template
      without `$$` comes out unchanged. */
  lemma {:induction false} SafeSubstituteNothingBound(t: string)
    requires !Occurs(t, "$$")
    ensures SafeSubstitute(t, map[]) == t
    decreases |t|
  {
    if |t| > 0 {
      var w := UnboundStep(t);
      NoDoubleDollarInTail(t, w);
      SafeSubstituteNothingBound(t[w..]);
    }
  }

  /** With nothing bound, one step of `safe_substitute` copies the first
      piece of a template without `$$`. */
  lemma UnboundStep(t: string) returns (w: nat)
    requires |t| > 0
    requires !Occurs(t, "$$")
    ensures 1 <= w <= |t|
    ensures SafeSubstitute(t, map[]) == t[..w] + SafeSubstitute(t[w..], map[])
    ensures SafeSubstitute(t[w..], map[]) == t[w..] ==> SafeSubstitute(t, map[]) == t
  {
    assert !OccursAt(t, "$$", 0);
    w := FirstPiece(t, map[]).width;
    UnboundPieceVerbatim(t);
    assert t[..w] + t[w..] == t;
  }

  /** `${KEY}` becomes the bound value, or stays verbatim when the key is unbound. */
  lemma SafeSubstituteBraced(key: string, m: map<string, string>, rest: string)
    requires IsIdentifier(key)
    ensures SafeSubstitute("${" + key + "}" + rest, m)
         == (if key in m then m[key] else "${" + key + "}") + SafeSubstitute(rest, m)
  {
    var t := "${" + key + "}" + rest;
    assert t[3..] == key[1..] + "}" + rest;
    var n := IdentLength(t[3..]);
    assert forall i :: 0 <= i < |key| - 1 ==> t[3..][i] == key[1..][i] == key[i + 1];
    assert t[3..][|key| - 1] == '}';
    assert n == |key| - 1;
    assert t[2..2 + |key|] == key;
    assert t[3 + n] == '}';
    assert BracedAt(t);
    assert FirstPiece(t, m).width == 3 + n + 1;
    assert t[3 + n + 1..] == rest;
  }

  /** `$KEY` followed by a non-word character becomes the bound value, or stays
      verbatim when the key is unbound. */
  lemma SafeSubstituteNamed(key: string, m: map<string, string>, rest: string)
    requires IsIdentifier(key)
    requires |rest| == 0 || !IsWordChar(rest[0])
    ensures SafeSubstitute("$" + key + rest, m)
         == (if key in m then m[key] else "$" + key) + SafeSubstitute(rest, m)
  {
    var t := "$" + key + rest;
    assert t[2..] == key[1..] + rest;
    var n := IdentLength(t[2..]);
    assert forall i :: 0 <= i < |key| - 1 ==> t[2..][i] == key[1..][i] == key[i + 1];
    if |rest| > 0 {
      assert t[2..][|key| - 1] == rest[0];
    }
    assert n == |key| - 1;
    assert t[1..1 + |key|] == key;
    assert FirstPiece(t, m).width == 1 + |key|;
    assert t[1 + |key|..] == rest;
  }
}
