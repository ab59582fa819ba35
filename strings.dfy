/**
 * The parts of Python's `str` and `int` behaviour that the modelled code relies on:
 * the ASCII character classes of its regular expressions, `str(n)`, `int(s)`,
 * `startswith`, `in`, `replace`, `split`, `join`, `strip`, `lower` and `split()`.
 */
module Strings {
  import opened Wrappers

  // ---------------------------------------------------------------------------
  // Character classes (`[A-Za-z]`, and the ASCII reading of `\d` and `\w`)

  predicate IsLetter(c: char) { 'A' <= c <= 'Z' || 'a' <= c <= 'z' }
  predicate IsDigit(c: char) { '0' <= c <= '9' }
  predicate IsWordChar(c: char) { IsLetter(c) || IsDigit(c) || c == '_' }
  /** The characters for which Python's `str.isspace()` holds (and which `\s` matches). */
  predicate IsSpace(c: char) {
    || c == ' ' || '\t' <= c <= '\r' || '\U{1C}' <= c <= '\U{1F}'
    || c == '\U{85}' || c == '\U{A0}' || c == '\U{1680}' || '\U{2000}' <= c <= '\U{200A}'
    || c == '\U{2028}' || c == '\U{2029}' || c == '\U{202F}' || c == '\U{205F}' || c == '\U{3000}'
  }

  predicate AllLetters(s: string) { forall i :: 0 <= i < |s| ==> IsLetter(s[i]) }
  predicate AllDigits(s: string) { forall i :: 0 <= i < |s| ==> IsDigit(s[i]) }
  predicate NoDigits(s: string) { forall i :: 0 <= i < |s| ==> !IsDigit(s[i]) }
  predicate NoSpaces(s: string) { forall i :: 0 <= i < |s| ==> !IsSpace(s[i]) }

  /** Length of the longest prefix of `s` made of letters. */
  function LetterRun(s: string): (n: nat)
    ensures n <= |s| && AllLetters(s[..n])
    ensures n < |s| ==> !IsLetter(s[n])
  {
    if |s| > 0 && IsLetter(s[0]) then
      var m := LetterRun(s[1..]);
      assert s[1..][..m] == s[1..m + 1];
      1 + m
    else 0
  }

  /** Length of the longest prefix of `s` made of digits. */
  function DigitRun(s: string): (n: nat)
    ensures n <= |s| && AllDigits(s[..n])
    ensures n < |s| ==> !IsDigit(s[n])
  {
    if |s| > 0 && IsDigit(s[0]) then
      var m := DigitRun(s[1..]);
      assert s[1..][..m] == s[1..m + 1];
      1 + m
    else 0
  }

  lemma LetterRunOfLetters(s: string, t: string)
    requires AllLetters(s) && (|t| > 0 ==> !IsLetter(t[0]))
    ensures LetterRun(s + t) == |s|
  {
    if |s| > 0 {
      assert (s + t)[1..] == s[1..] + t;
      LetterRunOfLetters(s[1..], t);
    }
  }

  lemma DigitRunOfDigits(s: string, t: string)
    requires AllDigits(s) && (|t| > 0 ==> !IsDigit(t[0]))
    ensures DigitRun(s + t) == |s|
  {
    if |s| > 0 {
      assert (s + t)[1..] == s[1..] + t;
      DigitRunOfDigits(s[1..], t);
    }
  }

  // ---------------------------------------------------------------------------
  // Decimal numerals: `int(s)` on ASCII digits and `str(n)`

  function DigitValue(c: char): nat
    requires IsDigit(c)
  {
    (c as int - '0' as int) as nat
  }

  function DigitChar(d: nat): (c: char)
    requires d < 10
    ensures IsDigit(c) && DigitValue(c) == d
  {
    ('0' as int + d) as char
  }

  /** The value of a string of ASCII digits, read most significant digit first. */
  function DigitsValue(s: string): nat
    requires AllDigits(s)
  {
    if |s| == 0 then 0
    else DigitsValue(s[..|s| - 1]) * 10 + DigitValue(s[|s| - 1])
  }

  /** Python's `str(n)` for a non-negative integer. */
  function NatToString(n: nat): (s: string)
    ensures |s| > 0 && AllDigits(s)
    ensures s[0] != '0' || n == 0
    decreases n
  {
    if n < 10 then [DigitChar(n)]
    else NatToString(n / 10) + [DigitChar(n % 10)]
  }

  /** Python's `str(i)` for any integer. */
  function IntToString(i: int): string {
    if i < 0 then "-" + NatToString(-i) else NatToString(i)
  }

  /** A numeral is canonical when it has no leading zero (the numeral "0" itself is canonical). */
  predicate Canonical(s: string) {
    |s| > 0 && AllDigits(s) && (s[0] != '0' || |s| == 1)
  }

  lemma {:induction false} ValueOfNatToString(n: nat)
    ensures DigitsValue(NatToString(n)) == n
    decreases n
  {
    if n >= 10 {
      var s := NatToString(n);
      assert s[..|s| - 1] == NatToString(n / 10);
      ValueOfNatToString(n / 10);
    }
  }

  lemma DigitsValueLeadingZero(s: string)
    requires |s| > 0 && AllDigits(s) && s[0] == '0'
    ensures DigitsValue(s) == DigitsValue(s[1..])
    decreases |s|
  {
    if |s| > 1 {
      assert s[..|s| - 1][1..] == s[1..][..|s| - 2];
      DigitsValueLeadingZero(s[..|s| - 1]);
    }
  }

  lemma DigitsValueLowerBound(s: string)
    requires |s| > 1 && AllDigits(s) && s[0] != '0'
    ensures DigitsValue(s) >= 10
    decreases |s|
  {
    if |s| > 2 {
      DigitsValueLowerBound(s[..|s| - 1]);
    } else {
      assert s[..1] == [s[0]];
    }
  }

  lemma {:induction false} NatToStringOfValue(s: string)
    requires Canonical(s)
    ensures NatToString(DigitsValue(s)) == s
    decreases |s|
  {
    if |s| > 1 {
      var init := s[..|s| - 1];
      assert Canonical(init);
      NatToStringOfValue(init);
      DigitsValueLowerBound(s);
      var n := DigitsValue(s);
      assert n / 10 == DigitsValue(init) && n % 10 == DigitValue(s[|s| - 1]);
      assert s == init + [s[|s| - 1]];
    } else {
      assert s == [s[0]];
    }
  }

  lemma NatToStringInjective(m: nat, n: nat)
    requires NatToString(m) == NatToString(n)
    ensures m == n
  {
    ValueOfNatToString(m);
    ValueOfNatToString(n);
  }

  // ---------------------------------------------------------------------------
  // Python's `int(s)`: surrounding whitespace, an optional sign, and digits
  // where single underscores may separate digits

  predicate DigitGroups(s: string) {
    && |s| > 0 && IsDigit(s[0]) && IsDigit(s[|s| - 1])
    && (forall i :: 0 <= i < |s| ==> IsDigit(s[i]) || s[i] == '_')
    && (forall i :: 0 <= i < |s| - 1 && s[i] == '_' ==> s[i + 1] != '_')
  }

  function DropUnderscores(s: string): (r: string)
    requires forall i :: 0 <= i < |s| ==> IsDigit(s[i]) || s[i] == '_'
    ensures AllDigits(r)
  {
    if |s| == 0 then ""
    else if s[0] == '_' then DropUnderscores(s[1..])
    else [s[0]] + DropUnderscores(s[1..])
  }

  function PyInt(s: string): Option<int>
  {
    SignedDigits(Strip(s))
  }

  /** `int` on a string without surrounding whitespace. */
  function SignedDigits(t: string): Option<int>
  {
    if |t| > 0 && (t[0] == '-' || t[0] == '+') then
      var body := t[1..];
      if DigitGroups(body) then
        var v: int := DigitsValue(DropUnderscores(body));
        Some(if t[0] == '-' then -v else v)
      else None
    else if DigitGroups(t) then Some(DigitsValue(DropUnderscores(t)))
    else None
  }

  lemma DropUnderscoresOfDigits(s: string)
    requires AllDigits(s)
    ensures DropUnderscores(s) == s
  {
    if |s| > 0 {
      assert AllDigits(s[1..]);
      DropUnderscoresOfDigits(s[1..]);
    }
  }

  /** `int(s) == DigitsValue(s)` for a non-empty string of ASCII digits. */
  lemma PyIntOfDigits(s: string)
    requires |s| > 0 && AllDigits(s)
    ensures PyInt(s) == Some(DigitsValue(s))
  {
    StripOfDigits(s);
    SignedDigitsOfDigits(s);
  }

  lemma SignedDigitsOfDigits(s: string)
    requires |s| > 0 && AllDigits(s)
    ensures SignedDigits(s) == Some(DigitsValue(s))
  {
    DigitGroupsOfDigits(s);
    assert IsDigit(s[0]);
    assert s[0] != '-' && s[0] != '+';
  }

  lemma DigitGroupsOfDigits(s: string)
    requires |s| > 0 && AllDigits(s)
    ensures DigitGroups(s) && DropUnderscores(s) == s
  {
    DropUnderscoresOfDigits(s);
  }

  lemma StripOfDigits(s: string)
    requires AllDigits(s)
    ensures Strip(s) == s
  {
    assert NoSpaces(s) by {
      forall i | 0 <= i < |s| ensures !IsSpace(s[i]) {
        assert IsDigit(s[i]);
      }
    }
    StripOfNoSpaces(s);
  }

  lemma StripOfSignedDigits(s: string)
    requires |s| > 0 && (s[0] == '-' || s[0] == '+') && AllDigits(s[1..])
    ensures Strip(s) == s
  {
    assert NoSpaces(s) by {
      forall i | 0 <= i < |s| ensures !IsSpace(s[i]) {
        if i > 0 { assert s[i] == s[1..][i - 1]; }
      }
    }
    StripOfNoSpaces(s);
  }

  /** `int("-" + d) == -int(d)` for a non-empty string of ASCII digits. */
  lemma PyIntOfNegated(d: string)
    requires |d| > 0 && AllDigits(d)
    ensures PyInt("-" + d) == Some(-(DigitsValue(d) as int))
  {
    var t := "-" + d;
    assert t[0] == '-' && t[1..] == d;
    StripOfSignedDigits(t);
    DigitGroupsOfDigits(d);
    SignedDigitsNegative(t, d);
  }

  lemma SignedDigitsNegative(t: string, d: string)
    requires |t| > 0 && t[0] == '-' && t[1..] == d
    requires DigitGroups(d) && DropUnderscores(d) == d
    ensures SignedDigits(t) == Some(-(DigitsValue(d) as int))
  {
  }

  /** `int(str(i)) == i` for every integer. */
  lemma PyIntOfIntToString(i: int)
    ensures PyInt(IntToString(i)) == Some(i)
  {
    var n: nat := if i < 0 then -i else i;
    ValueOfNatToString(n);
    if i < 0 {
      PyIntOfNegated(NatToString(n));
    } else {
      PyIntOfDigits(NatToString(n));
    }
  }

  // ---------------------------------------------------------------------------
  // Anchored patterns `^...$`: Python's `$` matches at the end of the string and
  // also just before a final newline

  /** The text a `^...$` pattern is matched against when the pattern itself cannot match a newline. */
  function DollarBody(s: string): (b: string)
    ensures b == s || (s == b + "\n")
    ensures '\n' !in s ==> b == s
  {
    if |s| > 0 && s[|s| - 1] == '\n' then s[..|s| - 1] else s
  }

  // ---------------------------------------------------------------------------
  // Prefixes and substrings

  predicate StartsWith(s: string, prefix: string) {
    |prefix| <= |s| && s[..|prefix|] == prefix
  }

  /** Python's `sub in s` for strings. */
  predicate Contains(s: string, sub: string)
    decreases |s|
  {
    StartsWith(s, sub) || (|s| > 0 && Contains(s[1..], sub))
  }

  /** Index of the leftmost occurrence of `sub` in `s`. */
  function IndexOf(s: string, sub: string): (r: Option<nat>)
    ensures r.Some? ==> r.value + |sub| <= |s| && s[r.value..r.value + |sub|] == sub
    ensures r.Some? <==> Contains(s, sub)
    decreases |s|
  {
    if StartsWith(s, sub) then Some(0)
    else if |s| == 0 then None
    else match IndexOf(s[1..], sub)
      case None => None
      case Some(i) => Some(i + 1)
  }

  lemma ContainsAt(s: string, sub: string, i: nat)
    requires i + |sub| <= |s| && s[i..i + |sub|] == sub
    ensures Contains(s, sub)
    decreases i
  {
    if i > 0 {
      assert s[1..][i - 1..i - 1 + |sub|] == sub;
      ContainsAt(s[1..], sub, i - 1);
    }
  }

  /** No occurrence can begin inside a prefix that lacks the pattern's first character. */
  lemma {:induction false} NotContainsAppend(p: string, body: string, w: string)
    requires |w| > 0 && w[0] !in p && !Contains(body, w)
    ensures !Contains(p + body, w)
    decreases |p|
  {
    if |p| == 0 {
      assert p + body == body;
    } else {
      assert (p + body)[0] == p[0];
      assert (p + body)[1..] == p[1..] + body;
      assert w[0] !in p[1..];
      NotContainsAppend(p[1..], body, w);
    }
  }

  /** A text without the pattern's first character does not contain the pattern. */
  lemma NotContainsFirstChar(s: string, w: string)
    requires |w| > 0 && w[0] !in s
    ensures !Contains(s, w)
  {
    NotContainsAppend(s, "", w);
    assert s + "" == s;
  }

  /** `sub` occurs in `s` at `p` and nowhere else. */
  ghost predicate OccursOnlyAt(s: string, sub: string, p: nat) {
    OccursAt(s, sub, p) && forall i: nat :: OccursAt(s, sub, i) ==> i == p
  }

  predicate OccursAt(s: string, sub: string, i: nat) {
    i + |sub| <= |s| && s[i..i + |sub|] == sub
  }

  /** A pattern whose first character appears in `l + w + r` only where it starts occurs only there. */
  lemma OccursOnlyAtFirstChar(l: string, w: string, r: string)
    requires |w| > 0 && w[0] !in l && w[0] !in w[1..] && w[0] !in r
    ensures OccursOnlyAt(l + w + r, w, |l|)
  {
    var s := l + w + r;
    assert s[|l|..|l| + |w|] == w;
    forall i: nat | OccursAt(s, w, i)
      ensures i == |l|
    {
      assert s[i] == w[0];
    }
  }

  /** Splitting on a pattern that occurs once gives the text before it and the text after it. */
  lemma SplitOnUnique(l: string, w: string, r: string)
    requires |w| > 0 && OccursOnlyAt(l + w + r, w, |l|)
    ensures SplitOn(l + w + r, w) == [l, r]
  {
    var s := l + w + r;
    LeftmostIndex(s, w, |l|);
    assert OccursAt(s, w, IndexOf(s, w).value);
    assert s[..|l|] == l && s[|l| + |w|..] == r;
    NoLaterOccurrence(l, w, r);
    assert SplitOn(r, w) == [r];
  }

  lemma NoLaterOccurrence(l: string, w: string, r: string)
    requires |w| > 0 && OccursOnlyAt(l + w + r, w, |l|)
    ensures !Contains(r, w)
  {
    if Contains(r, w) {
      var s := l + w + r;
      var j := IndexOf(r, w).value;
      assert s[|l| + |w| + j..|l| + |w| + j + |w|] == r[j..j + |w|];
      assert OccursAt(s, w, |l| + |w| + j);
    }
  }

  lemma ContainsCharIn(s: string, c: char)
    ensures Contains(s, [c]) <==> c in s
  {
    if Contains(s, [c]) {
      var i := IndexOf(s, [c]).value;
      assert s[i] == s[i..i + 1][0];
    }
    if c in s {
      var i :| 0 <= i < |s| && s[i] == c;
      assert s[i..i + 1] == [c];
      ContainsAt(s, [c], i);
    }
  }

  // ---------------------------------------------------------------------------
  // `s.replace(pat, rep)`: every leftmost, non-overlapping occurrence, left to right

  function ReplaceAll(s: string, pat: string, rep: string): string
    requires |pat| > 0
    decreases |s|
  {
    if |s| < |pat| then s
    else if s[..|pat|] == pat then rep + ReplaceAll(s[|pat|..], pat, rep)
    else [s[0]] + ReplaceAll(s[1..], pat, rep)
  }

  /** Replacing a whole text replaces it once. */
  lemma ReplaceAllWhole(s: string, rep: string)
    requires |s| > 0
    ensures ReplaceAll(s, s, rep) == rep
  {
    assert s[..|s|] == s && s[|s|..] == "";
    assert ReplaceAll("", s, rep) == "";
    assert rep + "" == rep;
  }

  /** A pattern at the start of a text that holds it nowhere else is removed once. */
  lemma ReplaceAllLeading(pat: string, rest: string)
    requires |pat| > 0 && !Contains(rest, pat)
    ensures ReplaceAll(pat + rest, pat, "") == rest
  {
    var s := pat + rest;
    assert s[..|pat|] == pat && s[|pat|..] == rest;
    ReplaceAllAbsent(rest, pat, "");
    assert "" + rest == rest;
  }

  lemma ReplaceAllAbsent(s: string, pat: string, rep: string)
    requires |pat| > 0 && !Contains(s, pat)
    ensures ReplaceAll(s, pat, rep) == s
    decreases |s|
  {
    if |s| >= |pat| {
      ReplaceAllAbsent(s[1..], pat, rep);
    }
  }

  /** Removing a run of digits from the end of a digit-free text, the only place it occurs. */
  lemma {:induction false} ReplaceDigitSuffix(f: string, d: string)
    requires NoDigits(f) && |d| > 0 && AllDigits(d)
    ensures ReplaceAll(f + d, d, "") == f
    decreases |f|
  {
    var s := f + d;
    if |f| == 0 {
      assert s == d;
      assert s[|d|..] == "";
    } else {
      assert s[..|d|][0] == f[0];
      assert s[1..] == f[1..] + d;
      ReplaceDigitSuffix(f[1..], d);
    }
  }

  /** `s.replace(" ", "")` */
  function RemoveSpaces(s: string): (r: string)
    ensures forall i :: 0 <= i < |r| ==> r[i] != ' '
    ensures forall i :: 0 <= i < |s| && s[i] != ' ' ==> s[i] in r
    ensures (forall i :: 0 <= i < |s| ==> s[i] != ' ') ==> r == s
  {
    if |s| == 0 then ""
    else if s[0] == ' ' then RemoveSpaces(s[1..])
    else [s[0]] + RemoveSpaces(s[1..])
  }

  /** `"".join(filter(lambda x: x.isdigit(), s))` */
  function KeepDigits(s: string): (r: string)
    ensures AllDigits(r)
    ensures NoDigits(s) ==> r == ""
  {
    if |s| == 0 then ""
    else if IsDigit(s[0]) then [s[0]] + KeepDigits(s[1..])
    else KeepDigits(s[1..])
  }

  lemma KeepDigitsAppend(s: string, t: string)
    ensures KeepDigits(s + t) == KeepDigits(s) + KeepDigits(t)
  {
    if |s| == 0 {
      assert s + t == t;
    } else {
      assert (s + t)[0] == s[0];
      assert (s + t)[1..] == s[1..] + t;
      KeepDigitsAppend(s[1..], t);
    }
  }

  lemma KeepDigitsOfDigits(s: string)
    requires AllDigits(s)
    ensures KeepDigits(s) == s
  {
    if |s| > 0 {
      KeepDigitsOfDigits(s[1..]);
    }
  }

  /** No occurrence starts inside a prefix that lacks the pattern's first character, so the prefix is kept. */
  lemma {:induction false} ReplaceAllSkip(p: string, rest: string, pat: string, rep: string)
    requires |pat| > 0 && pat[0] !in p
    ensures ReplaceAll(p + rest, pat, rep) == p + ReplaceAll(rest, pat, rep)
    decreases |p|
  {
    if |p| > 0 {
      var s := p + rest;
      assert s[0] == p[0] && s[1..] == p[1..] + rest;
      if |s| >= |pat| {
        assert s[..|pat|][0] == p[0];
      }
      ReplaceAllSkip(p[1..], rest, pat, rep);
      assert [p[0]] + (p[1..] + ReplaceAll(rest, pat, rep)) == p + ReplaceAll(rest, pat, rep);
    } else {
      assert p + rest == rest;
    }
  }

  /** A pattern that opens a text and reappears once, after a piece without its first character, is removed both times. */
  lemma ReplaceAllTwice(pat: string, p: string, rest: string)
    requires |pat| > 0 && pat[0] !in p && !Contains(rest, pat)
    ensures ReplaceAll(pat + p + pat + rest, pat, "") == p + rest
  {
    var s := pat + (p + (pat + rest));
    assert pat + p + pat + rest == s;
    assert s[..|pat|] == pat && s[|pat|..] == p + (pat + rest);
    ReplaceAllSkip(p, pat + rest, pat, "");
    ReplaceAllLeading(pat, rest);
    assert "" + (p + rest) == p + rest;
  }

  /**
   * A pattern whose first character does not recur in it cannot overlap itself,
   * so after a piece that does not hold it, the next occurrence is the one that follows.
   */
  lemma {:induction false} ReplaceAllAfter(p: string, rest: string, pat: string, rep: string)
    requires |pat| > 0 && pat[0] !in pat[1..] && !Contains(p, pat)
    ensures ReplaceAll(p + pat + rest, pat, rep) == p + rep + ReplaceAll(rest, pat, rep)
    decreases |p|
  {
    var s := p + pat + rest;
    if |p| == 0 {
      assert s == pat + rest;
      assert s[..|pat|] == pat && s[|pat|..] == rest;
    } else {
      assert s[..|pat|] != pat by {
        if |p| >= |pat| {
          assert s[..|pat|] == p[..|pat|];
        } else {
          assert s[|p|] == pat[0];
          assert pat[|p|] == pat[1..][|p| - 1];
        }
      }
      assert s[1..] == p[1..] + pat + rest;
      ReplaceAllAfter(p[1..], rest, pat, rep);
      assert [p[0]] + (p[1..] + rep + ReplaceAll(rest, pat, rep)) == p + rep + ReplaceAll(rest, pat, rep);
    }
  }

  /** Replacing a separator that cannot overlap itself, when no part holds it, joins with the replacement. */
  lemma {:induction false} ReplaceJoinParts(parts: seq<string>, pat: string, rep: string)
    requires |pat| > 0 && pat[0] !in pat[1..]
    requires |parts| > 0 && forall k :: 0 <= k < |parts| ==> !Contains(parts[k], pat)
    ensures ReplaceAll(Join(parts, pat), pat, rep) == Join(parts, rep)
    decreases |parts|
  {
    if |parts| == 1 {
      ReplaceAllAbsent(parts[0], pat, rep);
    } else {
      var rest := Join(parts[1..], pat);
      ReplaceAllAfter(parts[0], rest, pat, rep);
      ReplaceJoinParts(parts[1..], pat, rep);
    }
  }

  /** A separator none of whose characters is in `w` keeps `w` out of the text after it. */
  lemma {:induction false} NotContainsAfterSep(sep: string, b: string, w: string)
    requires |w| > 0 && (forall i :: 0 <= i < |sep| ==> sep[i] !in w) && !Contains(b, w)
    ensures !Contains(sep + b, w)
    decreases |sep|
  {
    if |sep| == 0 {
      assert sep + b == b;
    } else {
      var s := sep + b;
      assert s[0] == sep[0];
      if |w| <= |s| {
        assert s[..|w|][0] == sep[0];
      }
      assert s[1..] == sep[1..] + b;
      NotContainsAfterSep(sep[1..], b, w);
    }
  }

  /** An occurrence of `w` in `a + sep + b` would lie in `a`, in `b` or across a character of `sep`. */
  lemma {:induction false} NotContainsSplice(a: string, sep: string, b: string, w: string)
    requires |w| > 0 && |sep| > 0 && forall i :: 0 <= i < |sep| ==> sep[i] !in w
    requires !Contains(a, w) && !Contains(b, w)
    ensures !Contains(a + sep + b, w)
    decreases |a|
  {
    var s := a + sep + b;
    if |a| == 0 {
      assert s == sep + b;
      NotContainsAfterSep(sep, b, w);
    } else {
      assert !StartsWith(s, w) by {
        if |a| >= |w| {
          assert s[..|w|] == a[..|w|];
        } else if |w| <= |s| {
          assert s[|a|] == sep[0];
          assert s[..|w|][|a|] == sep[0];
        }
      }
      assert s[1..] == a[1..] + sep + b;
      NotContainsSplice(a[1..], sep, b, w);
    }
  }

  /** A join holds `w` only if a part does, when the separator shares no character with `w`. */
  lemma {:induction false} NotContainsJoin(parts: seq<string>, sep: string, w: string)
    requires |w| > 0 && |sep| > 0 && forall i :: 0 <= i < |sep| ==> sep[i] !in w
    requires forall k :: 0 <= k < |parts| ==> !Contains(parts[k], w)
    ensures !Contains(Join(parts, sep), w)
    decreases |parts|
  {
    if |parts| == 0 {
      assert !StartsWith("", w);
    } else if |parts| > 1 {
      NotContainsJoin(parts[1..], sep, w);
      NotContainsSplice(parts[0], sep, Join(parts[1..], sep), w);
    }
  }

  /** A join of non-empty parts begins with the first part's first character and ends with the last part's last. */
  lemma {:induction false} JoinEnds(parts: seq<string>, sep: string)
    requires |parts| > 0 && forall k :: 0 <= k < |parts| ==> |parts[k]| > 0
    ensures var j := Join(parts, sep);
      |j| > 0 && j[0] == parts[0][0] && j[|j| - 1] == parts[|parts| - 1][|parts[|parts| - 1]| - 1]
    decreases |parts|
  {
    if |parts| > 1 {
      JoinEnds(parts[1..], sep);
      var rest := Join(parts[1..], sep);
      assert Join(parts, sep) == parts[0] + sep + rest;
    }
  }

  // ---------------------------------------------------------------------------
  // `s.split(sep)` and `sep.join(parts)`

  function SplitOn(s: string, sep: string): (parts: seq<string>)
    requires |sep| > 0
    ensures |parts| > 0
    ensures Contains(s, sep) <==> |parts| >= 2
    decreases |s|
  {
    match IndexOf(s, sep)
    case None => [s]
    case Some(i) => [s[..i]] + SplitOn(s[i + |sep|..], sep)
  }

  function Join(parts: seq<string>, sep: string): string
  {
    if |parts| == 0 then ""
    else if |parts| == 1 then parts[0]
    else parts[0] + sep + Join(parts[1..], sep)
  }

  lemma {:induction false} JoinSplitOn(s: string, sep: string)
    requires |sep| > 0
    ensures Join(SplitOn(s, sep), sep) == s
    decreases |s|
  {
    match IndexOf(s, sep)
    case None =>
    case Some(i) =>
      var rest := s[i + |sep|..];
      JoinSplitOn(rest, sep);
      assert s == s[..i] + sep + rest;
  }

  /** A text with a separator at two places splits into at least three pieces. */
  lemma SplitOnTwice(s: string, c: char, i: nat, j: nat)
    requires i < j < |s| && s[i] == c && s[j] == c
    ensures |SplitOn(s, [c])| >= 3
  {
    assert s[i..i + 1] == [c];
    ContainsAt(s, [c], i);
    var k := IndexOf(s, [c]).value;
    LeftmostIndex(s, [c], i);
    var rest := s[k + |[c]|..];
    assert rest[j - k - 1..j - k] == [c];
    ContainsAt(rest, [c], j - k - 1);
    assert SplitOn(s, [c]) == [s[..k]] + SplitOn(rest, [c]);
  }

  /** A text is what comes before an occurrence, the occurrence, and what comes after. */
  lemma AroundIndex(s: string, i: nat, sub: string)
    requires i + |sub| <= |s| && s[i..i + |sub|] == sub
    ensures s == s[..i] + sub + s[i + |sub|..]
  {
    assert s == s[..i] + s[i..i + |sub|] + s[i + |sub|..];
  }

  lemma NoCharIndexOf(s: string, c: char)
    requires c !in s
    ensures IndexOf(s, [c]) == None
  {
    ContainsCharIn(s, c);
  }

  lemma IndexOfChar(s: string, c: char, i: nat)
    requires i < |s| && s[i] == c && c !in s[..i]
    ensures IndexOf(s, [c]) == Some(i)
    decreases i
  {
    if i > 0 {
      assert s[0] in s[..i];
      assert s[1..][..i - 1] == s[..i][1..];
      IndexOfChar(s[1..], c, i - 1);
    } else {
      assert s[..1] == [c];
    }
  }

  /** A character in no part and not in the separator is not in the join. */
  lemma {:induction false} JoinChars(parts: seq<string>, sep: string, c: char)
    requires c !in sep && forall k :: 0 <= k < |parts| ==> c !in parts[k]
    ensures c !in Join(parts, sep)
    decreases |parts|
  {
    if |parts| > 1 {
      JoinChars(parts[1..], sep, c);
    }
  }

  /** Splitting on one character undoes joining on it, when no part contains it. */
  lemma {:induction false} SplitOnJoin(parts: seq<string>, c: char)
    requires |parts| > 0
    requires forall k :: 0 <= k < |parts| ==> c !in parts[k]
    ensures SplitOn(Join(parts, [c]), [c]) == parts
    decreases |parts|
  {
    if |parts| == 1 {
      NoCharIndexOf(parts[0], c);
    } else {
      var s := Join(parts, [c]);
      var p := parts[0];
      var rest := Join(parts[1..], [c]);
      assert s == p + [c] + rest;
      assert s[..|p|] == p;
      IndexOfChar(s, c, |p|);
      assert s[|p| + 1..] == rest;
      SplitOnJoin(parts[1..], c);
    }
  }

  /** No piece of a split on one character contains that character. */
  lemma {:induction false} SplitOnCharPieces(s: string, c: char)
    ensures forall k :: 0 <= k < |SplitOn(s, [c])| ==> c !in SplitOn(s, [c])[k]
    decreases |s|
  {
    match IndexOf(s, [c])
    case None =>
      ContainsCharIn(s, c);
    case Some(i) =>
      SplitOnCharPieces(s[i + 1..], c);
      if c in s[..i] {
        var j :| 0 <= j < i && s[..i][j] == c;
        assert s[j..j + 1] == [c];
        ContainsAt(s, [c], j);
        LeftmostIndex(s, [c], j);
      }
  }

  lemma LeftmostIndex(s: string, sub: string, j: nat)
    requires j + |sub| <= |s| && s[j..j + |sub|] == sub
    ensures IndexOf(s, sub).Some? && IndexOf(s, sub).value <= j
    decreases j
  {
    if j > 0 && !StartsWith(s, sub) {
      assert s[1..][j - 1..j - 1 + |sub|] == sub;
      LeftmostIndex(s[1..], sub, j - 1);
    }
  }

  // ---------------------------------------------------------------------------
  // `s.strip()`, `s.lower()` and `s.split()`

  function StripLeft(s: string): (r: string)
    ensures |r| <= |s|
    ensures |r| > 0 ==> !IsSpace(r[0])
  {
    if |s| > 0 && IsSpace(s[0]) then StripLeft(s[1..]) else s
  }

  function StripRight(s: string): (r: string)
    ensures |r| <= |s| && forall i :: 0 <= i < |r| ==> r[i] == s[i]
    ensures |r| > 0 ==> !IsSpace(r[|r| - 1])
  {
    if |s| > 0 && IsSpace(s[|s| - 1]) then StripRight(s[..|s| - 1]) else s
  }

  function Strip(s: string): (r: string)
    ensures |r| <= |s|
    ensures |r| > 0 ==> !IsSpace(r[0]) && !IsSpace(r[|r| - 1])
  {
    StripRight(StripLeft(s))
  }

  /** A text with no whitespace at either end, as `strip` leaves it. */
  predicate Stripped(s: string) {
    |s| == 0 || (!IsSpace(s[0]) && !IsSpace(s[|s| - 1]))
  }

  lemma StripOfStripped(s: string)
    requires Stripped(s)
    ensures Strip(s) == s
  {
  }

  /** `strip` is idempotent. */
  lemma StripStrip(s: string)
    ensures Strip(Strip(s)) == Strip(s)
  {
    StripOfStripped(Strip(s));
  }

  /** Whitespace around a stripped, non-empty text is what `strip` removes. */
  lemma {:induction false} StripAround(pre: string, t: string, post: string)
    requires |t| > 0 && Stripped(t)
    requires forall i :: 0 <= i < |pre| ==> IsSpace(pre[i])
    requires forall i :: 0 <= i < |post| ==> IsSpace(post[i])
    ensures Strip(pre + t + post) == t
  {
    assert pre + t + post == pre + (t + post);
    StripLeftSpaces(pre, t + post);
    StripRightSpaces(t, post);
  }

  lemma {:induction false} StripLeftSpaces(pre: string, t: string)
    requires |t| > 0 && !IsSpace(t[0])
    requires forall i :: 0 <= i < |pre| ==> IsSpace(pre[i])
    ensures StripLeft(pre + t) == t
    decreases |pre|
  {
    if |pre| == 0 {
      assert pre + t == t;
    } else {
      assert (pre + t)[1..] == pre[1..] + t;
      StripLeftSpaces(pre[1..], t);
    }
  }

  lemma {:induction false} StripRightSpaces(t: string, post: string)
    requires |t| > 0 && !IsSpace(t[|t| - 1])
    requires forall i :: 0 <= i < |post| ==> IsSpace(post[i])
    ensures StripRight(t + post) == t
    decreases |post|
  {
    if |post| == 0 {
      assert t + post == t;
    } else {
      var init := post[..|post| - 1];
      assert (t + post)[..|t + post| - 1] == t + init;
      StripRightSpaces(t, init);
    }
  }

  /** `strip` keeps a run of the text, so it brings in no character the text lacks. */
  lemma StripChars(s: string, c: char)
    requires c !in s
    ensures c !in Strip(s)
  {
    StripLeftChars(s, c);
  }

  lemma {:induction false} StripLeftChars(s: string, c: char)
    requires c !in s
    ensures c !in StripLeft(s)
    decreases |s|
  {
    if |s| > 0 && IsSpace(s[0]) {
      assert forall i :: 0 <= i < |s| - 1 ==> s[1..][i] == s[i + 1];
      StripLeftChars(s[1..], c);
    }
  }

  lemma StripOfNoSpaces(s: string)
    requires NoSpaces(s)
    ensures Strip(s) == s
  {
  }

  function LowerChar(c: char): char {
    if 'A' <= c <= 'Z' then (c as int - 'A' as int + 'a' as int) as char else c
  }

  function Lower(s: string): (r: string)
    ensures |r| == |s| && forall i :: 0 <= i < |s| ==> r[i] == LowerChar(s[i])
  {
    if |s| == 0 then "" else [LowerChar(s[0])] + Lower(s[1..])
  }

  /** `\d*:?\d*` matching the whole text: digits, an optional colon, digits. */
  predicate DigitsColonDigits(s: string) {
    var tail := s[DigitRun(s)..];
    tail == "" || (tail[0] == ':' && AllDigits(tail[1..]))
  }

  /** Such a text is all digits, or two texts of digits around its one colon. */
  lemma DigitsColonDigitsPieces(s: string)
    requires DigitsColonDigits(s)
    ensures var p := SplitOn(s, ":");
      || (':' !in s && AllDigits(s) && p == [s])
      || (|p| == 2 && AllDigits(p[0]) && AllDigits(p[1]) && s == p[0] + ":" + p[1])
  {
    var d := DigitRun(s);
    var tail := s[d..];
    if tail == "" {
      assert s[..d] == s;
      DigitsAlone(s);
    } else {
      var a := s[..d];
      var b := tail[1..];
      assert s == a + ":" + b;
      DigitsAroundColon(a, b);
    }
  }

  /** A text of digits has no colon, so splitting at colons leaves it whole. */
  lemma DigitsAlone(s: string)
    requires AllDigits(s)
    ensures ':' !in s && SplitOn(s, ":") == [s]
  {
    assert ':' !in s by {
      assert forall i :: 0 <= i < |s| ==> IsDigit(s[i]);
    }
    NoCharIndexOf(s, ':');
  }

  /** Two texts of digits around a colon split at it into the two texts. */
  lemma DigitsAroundColon(a: string, b: string)
    requires AllDigits(a) && AllDigits(b)
    ensures SplitOn(a + ":" + b, ":") == [a, b]
  {
    assert ':' !in a by {
      assert forall i :: 0 <= i < |a| ==> IsDigit(a[i]);
    }
    assert ':' !in b by {
      assert forall i :: 0 <= i < |b| ==> IsDigit(b[i]);
    }
    assert Join([a, b], ":") == a + ":" + b;
    SplitOnJoin([a, b], ':');
  }

  lemma DigitsColonDigitsOf(a: string, b: string)
    requires AllDigits(a) && AllDigits(b)
    ensures DigitsColonDigits(a + ":" + b)
  {
    var s := a + ":" + b;
    assert s == a + (":" + b);
    DigitRunOfDigits(a, ":" + b);
    assert s[|a|..] == ":" + b;
    assert (":" + b)[1..] == b;
  }

  /** A text without upper-case letters is its own lower-case form. */
  lemma LowerOfNoUpper(s: string)
    requires forall i :: 0 <= i < |s| ==> !('A' <= s[i] <= 'Z')
    ensures Lower(s) == s
  {
    assert forall i :: 0 <= i < |s| ==> Lower(s)[i] == s[i];
  }

  /** `s.split()`: the maximal runs of non-whitespace characters, in order. */
  function Words(s: string): (ws: seq<string>)
    ensures forall k :: 0 <= k < |ws| ==> |ws[k]| > 0 && NoSpaces(ws[k])
    decreases |s|
  {
    var t := StripLeft(s);
    if |t| == 0 then []
    else
      var n := NonSpaceRun(t);
      var w := t[..n];
      var rest := Words(t[n..]);
      assert |w| > 0 && NoSpaces(w);
      [w] + rest
  }

  /** The length of the run of non-whitespace characters at the front of `s`. */
  function NonSpaceRun(s: string): (n: nat)
    ensures n <= |s| && NoSpaces(s[..n])
    ensures |s| > 0 && !IsSpace(s[0]) ==> n > 0
  {
    if |s| > 0 && !IsSpace(s[0]) then
      var m := NonSpaceRun(s[1..]);
      assert s[1..][..m] == s[1..m + 1];
      1 + m
    else 0
  }
}
