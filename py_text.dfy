/** The pieces of Python's str and re behaviour that the two parsers rely on,
    restated over Dafny strings: character classes, strip, split, character
    removal and replacement, and the handful of regular-expression shapes the
    parsers use (anchored wildcard prefixes, ".*"-prefixed searches, the
    dd-dd-dddd row test and the embedded execution-date search). */
module PyText {
  import opened Wrappers

  // ---------------------------------------------------------------------
  // Character classes

  /** `\d`, restricted to the ASCII digits. */
  predicate IsDigit(c: char) { '0' <= c <= '9' }

  predicate AllDigits(s: string) { forall i | 0 <= i < |s| :: IsDigit(s[i]) }

  /** The characters for which Python's `str.isspace()` holds; these are the
      characters `str.strip()` removes when given no argument. */
  predicate IsSpace(c: char) {
    || c == ' '
    || ('\t' <= c <= '\r')
    || ('\U{1c}' <= c <= '\U{1f}')
    || c == '\U{85}' || c == '\U{a0}' || c == '\U{1680}'
    || ('\U{2000}' <= c <= '\U{200a}')
    || c == '\U{2028}' || c == '\U{2029}' || c == '\U{202f}'
    || c == '\U{205f}' || c == '\U{3000}'
  }

  /** The decimal value of a string of digits, most significant first. */
  function DigitValue(s: string): nat
    requires AllDigits(s)
  {
    if |s| == 0 then 0 else DigitValue(s[..|s| - 1]) * 10 + (s[|s| - 1] as int - '0' as int)
  }

  // ---------------------------------------------------------------------
  // str methods

  /** The first index at or after `i` that does not hold whitespace, or
      `|s|`. */
  function SkipSpaces(s: string, i: nat): (r: nat)
    requires i <= |s|
    ensures i <= r <= |s|
    decreases |s| - i
  {
    if i < |s| && IsSpace(s[i]) then SkipSpaces(s, i + 1) else i
  }

  /** The end of `s[lo..j]` without its trailing whitespace. */
  function TrimEnd(s: string, lo: nat, j: nat): (r: nat)
    requires lo <= j <= |s|
    ensures lo <= r <= j
    decreases j
  {
    if j > lo && IsSpace(s[j - 1]) then TrimEnd(s, lo, j - 1) else j
  }

  /** Where `strip()` starts: after the leading whitespace. */
  function StripStart(s: string): nat {
    SkipSpaces(s, 0)
  }

  /** `s.strip()`: `s` without the whitespace at either end. */
  function Strip(s: string): string {
    s[StripStart(s)..TrimEnd(s, StripStart(s), |s|)]
  }

  /** `SkipSpaces` passes exactly the whitespace before the next other
      character. */
  lemma {:induction false} SkipSpacesSpec(s: string, i: nat)
    requires i <= |s|
    ensures forall k | i <= k < SkipSpaces(s, i) :: IsSpace(s[k])
    ensures SkipSpaces(s, i) == |s| || !IsSpace(s[SkipSpaces(s, i)])
    decreases |s| - i
  {
    if i < |s| && IsSpace(s[i]) {
      SkipSpacesSpec(s, i + 1);
    }
  }

  /** `TrimEnd` drops exactly the whitespace after the last other
      character. */
  lemma {:induction false} TrimEndSpec(s: string, lo: nat, j: nat)
    requires lo <= j <= |s|
    ensures forall k | TrimEnd(s, lo, j) <= k < j :: IsSpace(s[k])
    ensures TrimEnd(s, lo, j) == lo || !IsSpace(s[TrimEnd(s, lo, j) - 1])
    decreases j
  {
    if j > lo && IsSpace(s[j - 1]) {
      TrimEndSpec(s, lo, j - 1);
    }
  }

  /** What `strip()` promises: the result is the slice of `s` that starts
      after the leading whitespace, only whitespace follows it, and it
      neither starts nor ends with whitespace. */
  lemma StripSpec(s: string)
    ensures var r := Strip(s);
            var i := StripStart(s);
            && (r == [] || (!IsSpace(r[0]) && !IsSpace(r[|r| - 1])))
            && i + |r| <= |s| && s[i..i + |r|] == r
            && (forall k | 0 <= k < i :: IsSpace(s[k]))
            && (forall k | i + |r| <= k < |s| :: IsSpace(s[k]))
  {
    var i := StripStart(s);
    var e := TrimEnd(s, i, |s|);
    SkipSpacesSpec(s, 0);
    TrimEndSpec(s, i, |s|);
    var r := s[i..e];
    if r != [] {
      assert r[0] == s[i];
      assert r[|r| - 1] == s[e - 1];
    }
  }

  /** `s.split(sep)[0]`: everything before the first `sep`, or all of `s`. */
  function FirstSegment(s: string, sep: char): (r: string)
    ensures |r| <= |s| && r == s[..|r|]
    ensures sep !in r
    ensures |r| == |s| || s[|r|] == sep
  {
    if |s| == 0 || s[0] == sep then [] else [s[0]] + FirstSegment(s[1..], sep)
  }

  /** `re.sub("[...]", "", s)` for a character class `drop`: every character
      of `drop` removed, the others kept in their order. */
  function Without(s: string, drop: set<char>): string {
    if |s| == 0 then []
    else (if s[0] in drop then [] else [s[0]]) + Without(s[1..], drop)
  }

  /** No character of `drop` is left. */
  lemma {:induction false} WithoutChars(s: string, drop: set<char>)
    ensures forall i | 0 <= i < |Without(s, drop)| :: Without(s, drop)[i] !in drop
  {
    if |s| > 0 {
      var head: string := if s[0] in drop then [] else [s[0]];
      var rest := Without(s[1..], drop);
      WithoutChars(s[1..], drop);
      assert Without(s, drop) == head + rest;
      forall i | 0 <= i < |head + rest| ensures (head + rest)[i] !in drop {
        if i >= |head| {
          assert (head + rest)[i] == rest[i - |head|];
        }
      }
    }
  }

  /** Every other character is kept as often as it was. */
  lemma {:induction false} WithoutCounts(s: string, drop: set<char>)
    ensures var r := Without(s, drop);
            forall c | c !in drop :: multiset(r)[c] == multiset(s)[c]
  {
    if |s| > 0 {
      WithoutCounts(s[1..], drop);
      assert s == [s[0]] + s[1..];
    }
  }

  /** Removal works piece by piece: the kept characters of `s + t` are
      those of `s` followed by those of `t`, so their order is kept. */
  lemma {:induction false} WithoutAppend(s: string, t: string, drop: set<char>)
    ensures Without(s + t, drop) == Without(s, drop) + Without(t, drop)
    decreases |s|
  {
    if |s| == 0 {
      assert s + t == t;
    } else {
      WithoutAppend(s[1..], t, drop);
      assert (s + t)[0] == s[0];
      assert (s + t)[1..] == s[1..] + t;
    }
  }

  /** A single character is dropped exactly when it is in `drop`. */
  lemma WithoutOne(c: char, drop: set<char>)
    ensures Without([c], drop) == if c in drop then [] else [c]
  {
    assert [c][1..] == [];
  }

  /** `s.replace(a, b)` for single characters `a` and `b`. */
  function ReplaceChar(s: string, a: char, b: char): (r: string)
  {
    seq(|s|, i requires 0 <= i < |s| => if s[i] == a then b else s[i])
  }

  /** Replacing `a` by `b` leaves no `a`, adds one `b` per `a`, and keeps
      every other character as often as it was. */
  lemma {:induction false} ReplaceCharCounts(s: string, a: char, b: char)
    requires a != b
    ensures var r := ReplaceChar(s, a, b);
            && a !in r
            && multiset(r)[b] == multiset(s)[b] + multiset(s)[a]
            && forall c | c != a && c != b :: multiset(r)[c] == multiset(s)[c]
  {
    if |s| > 0 {
      var n := |s| - 1;
      ReplaceCharCounts(s[..n], a, b);
      assert ReplaceChar(s, a, b) == ReplaceChar(s[..n], a, b) + [if s[n] == a then b else s[n]];
      assert s == s[..n] + [s[n]];
    }
  }

  /** Replacement works piece by piece. */
  lemma ReplaceCharAppend(s: string, t: string, a: char, b: char)
    ensures ReplaceChar(s + t, a, b) == ReplaceChar(s, a, b) + ReplaceChar(t, a, b)
  {
  }

  // ---------------------------------------------------------------------
  // Regular-expression shapes

  /** One pattern character against one input character: in Python's `re`
      without DOTALL, `.` matches anything but a line break. */
  predicate CharFits(p: char, c: char) { if p == '.' then c != '\n' else c == p }

  /** `pat` (literal characters and `.`) matches `s` starting at index `i`. */
  predicate FitsAt(pat: string, s: string, i: nat) {
    i + |pat| <= |s| && forall k | 0 <= k < |pat| :: CharFits(pat[k], s[i + k])
  }

  /** `re.match(r"^" + pat, s)`. */
  predicate StartsWithPattern(pat: string, s: string) { FitsAt(pat, s, 0) }

  /** No line break among the first `i` characters of `s`. */
  predicate NoBreakBefore(s: string, i: nat)
    requires i <= |s|
  {
    forall k | 0 <= k < i :: s[k] != '\n'
  }

  /** `re.match(r".*" + pat, s)`: `.*` cannot cross a line break, so `pat`
      must fit somewhere on the first line of `s`. */
  predicate FitsOnFirstLine(pat: string, s: string) {
    exists i | 0 <= i <= |s| :: NoBreakBefore(s, i) && FitsAt(pat, s, i)
  }

  /** `re.match(r"^\d{2}-\d{2}-\d{4}$", s)`; `$` also matches just before a
      single final line break. */
  predicate DateShaped(s: string) {
    && (|s| == 10 || (|s| == 11 && s[10] == '\n'))
    && IsDigit(s[0]) && IsDigit(s[1]) && s[2] == '-'
    && IsDigit(s[3]) && IsDigit(s[4]) && s[5] == '-'
    && IsDigit(s[6]) && IsDigit(s[7]) && IsDigit(s[8]) && IsDigit(s[9])
  }

  /** Length of the run of digits at the front of `t`. */
  function DigitRun(t: string): (n: nat)
    ensures n <= |t|
  {
    if |t| > 0 && IsDigit(t[0]) then 1 + DigitRun(t[1..]) else 0
  }

  /** The run `DigitRun` measures is made of digits and is maximal. */
  lemma {:induction false} DigitRunSpec(t: string)
    ensures AllDigits(t[..DigitRun(t)])
    ensures DigitRun(t) == |t| || !IsDigit(t[DigitRun(t)])
  {
    if |t| > 0 && IsDigit(t[0]) {
      DigitRunSpec(t[1..]);
      var n := DigitRun(t[1..]);
      assert t[..n + 1] == [t[0]] + t[1..][..n];
    }
  }

  /** A digit run is as long as the digits before the first non-digit. */
  lemma {:induction false} DigitRunUnique(t: string, w: string, rest: string)
    requires t == w + rest && AllDigits(w)
    requires rest == [] || !IsDigit(rest[0])
    ensures DigitRun(t) == |w|
  {
    if |w| > 0 {
      assert t[0] == w[0];
      assert t[1..] == w[1..] + rest;
      DigitRunUnique(t[1..], w[1..], rest);
    } else {
      assert t == rest;
    }
  }

  /** The three `(\d+)` groups of `marker + r"(\d+)-(\d+)-(\d+)"`. */
  datatype Groups = Groups(first: string, second: string, third: string)

  /** The text the pattern `marker(\d+)-(\d+)-(\d+)` consumes for groups `g`. */
  function Matched(marker: string, g: Groups): string {
    marker + (g.first + ("-" + (g.second + ("-" + g.third))))
  }

  /** Each group is a non-empty run of digits. */
  predicate DigitGroups(g: Groups) {
    && |g.first| > 0 && |g.second| > 0 && |g.third| > 0
    && AllDigits(g.first) && AllDigits(g.second) && AllDigits(g.third)
  }

  /** Declaratively: `re.match(marker + r"(\d+)-(\d+)-(\d+)", t)` succeeds with
      groups `g`. The greedy last group takes every digit that follows; the
      first two end at their dash. */
  predicate GroupsPrefix(marker: string, t: string, g: Groups) {
    var m := Matched(marker, g);
    && DigitGroups(g)
    && |m| <= |t| && t[..|m|] == m
    && (|m| == |t| || !IsDigit(t[|m|]))
  }

  /** The pattern matches at index `i` of `s` with groups `g`. */
  predicate GroupsAt(marker: string, s: string, i: nat, g: Groups)
    requires i <= |s|
  {
    GroupsPrefix(marker, s[i..], g)
  }

  /** The match of `marker(\d+)-(\d+)-(\d+)` at the front of `t`, if any. */
  function MatchPrefix(marker: string, t: string): Option<Groups> {
    if |marker| <= |t| && t[..|marker|] == marker then
      var r1 := t[|marker|..];
      var n1 := DigitRun(r1);
      if 0 < n1 < |r1| && r1[n1] == '-' then
        var r2 := r1[n1 + 1..];
        var n2 := DigitRun(r2);
        if 0 < n2 < |r2| && r2[n2] == '-' then
          var r3 := r2[n2 + 1..];
          var n3 := DigitRun(r3);
          if n3 > 0 then Some(Groups(r1[..n1], r2[..n2], r3[..n3])) else None
        else None
      else None
    else None
  }

  /** The match of the pattern anchored at index `i` of `s`, if any. */
  function GroupsMatchAt(marker: string, s: string, i: nat): Option<Groups>
    requires i <= |s|
  {
    MatchPrefix(marker, s[i..])
  }

  lemma AppendAssoc(x: string, y: string, z: string)
    ensures x + (y + z) == (x + y) + z
  {
  }

  /** The text a match consumes, followed by what comes after it, rebuilt
      piece by piece. */
  lemma MatchedThen(marker: string, g: Groups, rest: string)
    ensures marker + (g.first + ("-" + (g.second + ("-" + (g.third + rest))))) == Matched(marker, g) + rest
  {
    var t3 := "-" + g.third;
    var t2 := g.second + t3;
    var t1 := "-" + t2;
    var t0 := g.first + t1;
    AppendAssoc("-", g.third, rest);
    AppendAssoc(g.second, t3, rest);
    AppendAssoc("-", t2, rest);
    AppendAssoc(g.first, t1, rest);
    AppendAssoc(marker, t0, rest);
  }

  /** Cutting `s` at a dash at index `k`. */
  lemma SplitAtDash(s: string, k: nat)
    requires k < |s| && s[k] == '-'
    ensures s == s[..k] + ("-" + s[k + 1..])
  {
  }

  /** Putting `w`, a dash and `r` together and cutting at the dash again. */
  lemma JoinAtDash(w: string, r: string)
    ensures var s := w + ("-" + r);
            |w| < |s| && s[|w|] == '-' && s[..|w|] == w && s[|w| + 1..] == r
  {
    var s := w + ("-" + r);
    assert s[..|w|] == w;
    assert s[|w| + 1..] == r;
  }

  /** What `MatchPrefix` returns is a match. */
  lemma MatchPrefixSound(marker: string, t: string, g: Groups)
    requires MatchPrefix(marker, t) == Some(g)
    ensures GroupsPrefix(marker, t, g)
  {
    var r1 := t[|marker|..];
    var n1 := DigitRun(r1);
    var r2 := r1[n1 + 1..];
    var n2 := DigitRun(r2);
    var r3 := r2[n2 + 1..];
    var n3 := DigitRun(r3);
    var rest := r3[n3..];
    assert g == Groups(r1[..n1], r2[..n2], r3[..n3]);
    assert r3 == g.third + rest;
    SplitAtDash(r2, n2);
    SplitAtDash(r1, n1);
    assert t == marker + r1;
    MatchedThen(marker, g, rest);
    var m := Matched(marker, g);
    assert t == m + rest;
    assert t[..|m|] == m;
    assert |m| < |t| ==> t[|m|] == rest[0];
    DigitRunSpec(r1);
    DigitRunSpec(r2);
    DigitRunSpec(r3);
  }

  /** A run of digits, a dash and the rest: the run ends at the dash. */
  lemma RunThenDash(w: string, r: string)
    requires AllDigits(w)
    ensures var s := w + ("-" + r);
            && DigitRun(s) == |w| && |w| < |s| && s[|w|] == '-' && s[..|w|] == w && s[|w| + 1..] == r
  {
    JoinAtDash(w, r);
    DigitRunUnique(w + ("-" + r), w, "-" + r);
  }

  /** A run of digits followed by a non-digit, or by nothing. */
  lemma RunThenRest(w: string, rest: string)
    requires AllDigits(w)
    requires rest == [] || !IsDigit(rest[0])
    ensures DigitRun(w + rest) == |w| && (w + rest)[..|w|] == w
  {
    DigitRunUnique(w + rest, w, rest);
  }

  /** Any match at the front of `t` is what `MatchPrefix` returns. */
  lemma MatchPrefixComplete(marker: string, t: string, g: Groups)
    requires GroupsPrefix(marker, t, g)
    ensures MatchPrefix(marker, t) == Some(g)
  {
    var m := Matched(marker, g);
    var rest := t[|m|..];
    assert t == m + rest;
    assert rest == [] || rest[0] == t[|m|];
    var r3 := g.third + rest;
    var r2 := g.second + ("-" + r3);
    var r1 := g.first + ("-" + r2);
    MatchedThen(marker, g, rest);
    assert t == marker + r1;
    assert t[..|marker|] == marker && t[|marker|..] == r1;
    RunThenDash(g.first, r2);
    RunThenDash(g.second, r3);
    RunThenRest(g.third, rest);
  }

  /** `GroupsMatchAt` finds exactly the match `GroupsAt` describes. */
  lemma GroupsMatchAtSpec(marker: string, s: string, i: nat)
    requires i <= |s|
    ensures GroupsMatchAt(marker, s, i).Some? ==> GroupsAt(marker, s, i, GroupsMatchAt(marker, s, i).value)
    ensures forall g :: GroupsAt(marker, s, i, g) ==> GroupsMatchAt(marker, s, i) == Some(g)
  {
    var r := GroupsMatchAt(marker, s, i);
    if r.Some? {
      MatchPrefixSound(marker, s[i..], r.value);
    }
    forall g | GroupsAt(marker, s, i, g) ensures r == Some(g) {
      MatchPrefixComplete(marker, s[i..], g);
    }
  }

  /** Where `re.search` finds the pattern, and the groups it captures. */
  datatype Hit = Hit(pos: nat, groups: Groups)

  /** `re.search(marker + r"(\d+)-(\d+)-(\d+)", s)`, trying positions from
      `from` on. */
  function SearchGroupsFrom(marker: string, s: string, from: nat): Option<Hit>
    requires from <= |s|
    decreases |s| - from
  {
    match GroupsMatchAt(marker, s, from)
    case Some(g) => Some(Hit(from, g))
    case None => if from == |s| then None else SearchGroupsFrom(marker, s, from + 1)
  }

  /** When the search reports a position, the pattern matches there, at
      or after `from`, with the groups reported. */
  lemma {:induction false} SearchGroupsFromHit(marker: string, s: string, from: nat)
    requires from <= |s|
    requires SearchGroupsFrom(marker, s, from).Some?
    ensures var h := SearchGroupsFrom(marker, s, from).value;
            from <= h.pos <= |s| && GroupsMatchAt(marker, s, h.pos) == Some(h.groups)
    decreases |s| - from
  {
    var m := GroupsMatchAt(marker, s, from);
    if m.None? {
      assert SearchGroupsFrom(marker, s, from) == SearchGroupsFrom(marker, s, from + 1);
      SearchGroupsFromHit(marker, s, from + 1);
    } else {
      assert SearchGroupsFrom(marker, s, from) == Some(Hit(from, m.value));
    }
  }

  /** When the search reports a position, no earlier position at or after
      `from` matches. */
  lemma {:induction false} SearchGroupsFromLeftmost(marker: string, s: string, from: nat)
    requires from <= |s|
    requires SearchGroupsFrom(marker, s, from).Some?
    ensures var h := SearchGroupsFrom(marker, s, from).value;
            forall j | from <= j < h.pos && j <= |s| :: GroupsMatchAt(marker, s, j).None?
    decreases |s| - from
  {
    var m := GroupsMatchAt(marker, s, from);
    if m.None? {
      var h := SearchGroupsFrom(marker, s, from).value;
      assert SearchGroupsFrom(marker, s, from) == SearchGroupsFrom(marker, s, from + 1);
      SearchGroupsFromLeftmost(marker, s, from + 1);
      forall j | from <= j < h.pos && j <= |s| ensures GroupsMatchAt(marker, s, j).None? {
        if j == from {
          assert GroupsMatchAt(marker, s, j) == m;
        }
      }
    }
  }

  /** The search reports nothing only when no position at or after `from`
      matches. */
  lemma {:induction false} SearchGroupsFromNone(marker: string, s: string, from: nat)
    requires from <= |s|
    requires SearchGroupsFrom(marker, s, from).None?
    ensures forall j | from <= j <= |s| :: GroupsMatchAt(marker, s, j).None?
    decreases |s| - from
  {
    if from < |s| {
      SearchGroupsFromNone(marker, s, from + 1);
    }
  }

  /** The search reports the leftmost position at or after `from` where the
      pattern matches, with that match's groups; it reports nothing only
      when no position matches. */
  lemma SearchGroupsFromSpec(marker: string, s: string, from: nat)
    requires from <= |s|
    ensures var r := SearchGroupsFrom(marker, s, from);
            && (r.Some? ==> && from <= r.value.pos <= |s|
                            && GroupsMatchAt(marker, s, r.value.pos) == Some(r.value.groups)
                            && forall j | from <= j < r.value.pos :: GroupsMatchAt(marker, s, j).None?)
            && (r.None? ==> forall j | from <= j <= |s| :: GroupsMatchAt(marker, s, j).None?)
  {
    if SearchGroupsFrom(marker, s, from).Some? {
      SearchGroupsFromHit(marker, s, from);
      SearchGroupsFromLeftmost(marker, s, from);
    } else {
      SearchGroupsFromNone(marker, s, from);
    }
  }

  /** `re.search(marker + r"(\d+)-(\d+)-(\d+)", s)`. */
  function SearchGroups(marker: string, s: string): Option<Hit> {
    SearchGroupsFrom(marker, s, 0)
  }
}
