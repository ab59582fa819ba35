/**
 * The text stages of `Cut._parse_expression` (hml/approaches/cuts/cut.py):
 * the `veto` and `any` prefixes, the `and`/`or` spelling, and the split of the
 * expression into atomic clauses.
 */
module CutText {
  import opened Strings
  import opened CutSkeleton

  /** The prefixes, `veto` first and then `any`; each one found removes every occurrence of its word. */
  function Prefixes(expression: string): (r: (bool, bool, string))
    ensures r.0 <==> StartsWith(Strip(expression), "veto")
    ensures !r.0 ==> (r.1 <==> StartsWith(Strip(expression), "any"))
    ensures !r.0 && !r.1 ==> r.2 == Strip(expression)
    ensures Stripped(r.2)
    ensures var e1 := if r.0 then Strip(ReplaceAll(Strip(expression), "veto", "")) else Strip(expression);
      && (r.1 <==> StartsWith(e1, "any"))
      && r.2 == if r.1 then Strip(ReplaceAll(e1, "any", "")) else e1
  {
    PrefixWords(expression, "veto", "any")
  }

  /** The two prefix steps, for the words `v` and then `a`. */
  function PrefixWords(expression: string, v: string, a: string): (bool, bool, string)
    requires |v| > 0 && |a| > 0
  {
    var (isV, e1) := DropPrefix(Strip(expression), v);
    var (isA, e2) := DropPrefix(e1, a);
    (isV, isA, e2)
  }

  /** One prefix word: when the text starts with it, every occurrence of it is removed and the rest stripped. */
  function DropPrefix(e: string, word: string): (r: (bool, string))
    requires |word| > 0
    ensures r.0 == StartsWith(e, word)
    ensures !r.0 ==> r.1 == e
    ensures r.0 ==> Stripped(r.1) && r.1 == Strip(ReplaceAll(e, word, ""))
  {
    if StartsWith(e, word) then (true, Strip(ReplaceAll(e, word, ""))) else (false, e)
  }

  /** A word, a space and a stripped text holding the word nowhere: the word is found and the text kept. */
  lemma DropPrefixOf(word: string, t: string)
    requires |word| > 0 && !Contains(" " + t, word)
    requires |t| > 0 && Stripped(t)
    ensures DropPrefix(word + " " + t, word) == (true, t)
  {
    var rest := " " + t;
    assert word + " " + t == word + rest;
    ReplaceAllLeading(word, rest);
    StripAround(" ", t, "");
    assert " " + t + "" == rest;
  }

  /** A word, a space and a stripped body without the word: the word is found and the body kept. */
  lemma DropPrefixBefore(word: string, body: string)
    requires |word| > 0 && !IsSpace(word[0])
    requires |body| > 0 && Stripped(body) && !Contains(body, word)
    ensures DropPrefix(word + " " + body, word) == (true, body)
  {
    NotContainsAppend(" ", body, word);
    DropPrefixOf(word, body);
  }

  /** Two prefix words in a row, neither found in the body: the first is found and the rest kept. */
  lemma DropPrefixesOf(v: string, a: string, body: string)
    requires |v| > 0 && |a| > 0 && !IsSpace(v[0]) && v[0] !in a && !IsSpace(a[0])
    requires |body| > 0 && Stripped(body) && !Contains(body, v) && !Contains(body, a)
    ensures DropPrefix(v + " " + (a + " " + body), v) == (true, a + " " + body)
  {
    NotContainsAfterWord(v, a, body);
    DropPrefixOf(v, a + " " + body);
  }

  lemma NotContainsAfterWord(v: string, a: string, body: string)
    requires |v| > 0 && !IsSpace(v[0]) && v[0] !in a && !Contains(body, v)
    ensures !Contains(" " + (a + " " + body), v)
  {
    NotContainsAppend(" " + a + " ", body, v);
    assert " " + a + " " + body == " " + (a + " " + body);
  }

  /** For words that cannot overlap, the two prefix steps find both words and keep the body. */
  lemma PrefixWordsBoth(v: string, a: string, body: string)
    requires |v| > 0 && |a| > 0 && !IsSpace(v[0]) && v[0] !in a && !IsSpace(a[0])
    requires |body| > 0 && Stripped(body) && !Contains(body, v) && !Contains(body, a)
    ensures PrefixWords(v + " " + (a + " " + body), v, a) == (true, true, body)
  {
    StripOfStripped(v + " " + (a + " " + body));
    DropPrefixesOf(v, a, body);
    DropPrefixBefore(a, body);
  }

  /** The first word alone is found and removed, and the body kept. */
  lemma PrefixWordsFirst(v: string, a: string, body: string)
    requires |v| > 0 && |a| > 0 && !IsSpace(v[0])
    requires |body| > 0 && Stripped(body) && !Contains(body, v) && !Contains(body, a)
    ensures PrefixWords(v + " " + body, v, a) == (true, false, body)
  {
    StripOfStripped(v + " " + body);
    DropPrefixBefore(v, body);
  }

  /** The second word alone is found and removed, and the body kept. */
  lemma PrefixWordsSecond(v: string, a: string, body: string)
    requires |v| > 0 && |a| > 0 && v[0] != a[0] && !IsSpace(a[0])
    requires |body| > 0 && Stripped(body) && !Contains(body, a)
    ensures PrefixWords(a + " " + body, v, a) == (false, true, body)
  {
    StripOfStripped(a + " " + body);
    assert !StartsWith(a + " " + body, v) by {
      assert (a + " " + body)[0] == a[0];
    }
    DropPrefixBefore(a, body);
  }

  /**
   * The prefixes are recognised and removed, and what follows them is kept: for a
   * stripped body holding neither word, `veto any body` gives both flags and `body`.
   */
  lemma PrefixesVetoAny(body: string)
    requires |body| > 0 && Stripped(body) && !Contains(body, "veto") && !Contains(body, "any")
    ensures Prefixes("veto" + " " + ("any" + " " + body)) == (true, true, body)
  {
    PrefixWordsBoth("veto", "any", body);
  }

  /** `veto body` gives the veto flag alone and `body`. */
  lemma PrefixesVeto(body: string)
    requires |body| > 0 && Stripped(body) && !Contains(body, "veto") && !Contains(body, "any")
    ensures Prefixes("veto" + " " + body) == (true, false, body)
  {
    PrefixWordsFirst("veto", "any", body);
  }

  /** `any body` gives the any flag alone and `body`. */
  lemma PrefixesAny(body: string)
    requires |body| > 0 && Stripped(body) && !Contains(body, "veto") && !Contains(body, "any")
    ensures Prefixes("any" + " " + body) == (false, true, body)
  {
    PrefixWordsSecond("veto", "any", body);
  }

  /**
   * Every `veto` goes, not only the prefix: `veto b1veto b2`, with no `v` in
   * either piece, keeps `b1` and `b2` run together.
   */
  lemma PrefixesDropEveryVeto(b1: string, b2: string)
    requires |b1| > 0 && 'v' !in b1 && 'v' !in b2 && b1[0] != 'a'
    requires Stripped(b1 + b2)
    ensures Prefixes("veto " + b1 + "veto" + b2) == (true, false, b1 + b2)
  {
    var e := "veto " + b1 + "veto" + b2;
    if |b2| > 0 {
      assert e[|e| - 1] == (b1 + b2)[|b1 + b2| - 1];
    }
    assert Stripped(e);
    StripOfStripped(e);
    ReplaceEveryVeto(b1, b2);
    StripAround(" ", b1 + b2, "");
    assert (b1 + b2)[0] == b1[0];
    PrefixesOfVeto(e, b1 + b2);
  }

  /** A stripped text opening with `veto` whose veto-free rest does not open with `any` gives the veto flag alone. */
  lemma PrefixesOfVeto(e: string, rest: string)
    requires Stripped(e) && StartsWith(e, "veto")
    requires Strip(ReplaceAll(e, "veto", "")) == rest && !StartsWith(rest, "any")
    ensures Prefixes(e) == (true, false, rest)
  {
    StripOfStripped(e);
  }

  /** Removing `veto` from `veto b1veto b2` leaves a space and the two pieces. */
  lemma ReplaceEveryVeto(b1: string, b2: string)
    requires 'v' !in b1 && 'v' !in b2
    ensures ReplaceAll("veto " + b1 + "veto" + b2, "veto", "") == " " + (b1 + b2) + ""
  {
    var v := "veto";
    VetoText(v, b1, b2);
    NotContainsFirstChar(b2, v);
    ReplaceAllTwice(v, " " + b1, b2);
  }

  lemma VetoText(v: string, b1: string, b2: string)
    requires v == "veto"
    ensures v[0] == 'v' && "veto " + b1 + "veto" + b2 == v + (" " + b1) + v + b2
    ensures " " + b1 + b2 == " " + (b1 + b2) + ""
  {
  }



  /** A body without either word gives neither flag and itself, whitespace around it stripped. */
  lemma PrefixesNone(body: string)
    requires !Contains(Strip(body), "veto") && !Contains(Strip(body), "any")
    ensures Prefixes(body) == (false, false, Strip(body))
  {
  }

  /** `and` and `or` become `&` and `|`, wherever they occur. */
  function Rewrite(e: string): string {
    ReplaceAll(ReplaceAll(e, "and", "&"), "or", "|")
  }

  /** A text the connective rewrite leaves alone: it holds neither `and` nor `or`. */
  predicate NoConnectives(t: string) {
    !Contains(t, "and") && !Contains(t, "or")
  }

  /** A text that opens with neither prefix word. */
  predicate NoPrefixWord(e: string) {
    !StartsWith(e, "veto") && !StartsWith(e, "any")
  }

  /** Words joined by `and` become words joined by `&`, when no word holds `and` or `or`. */
  lemma RewriteAndJoin(ps: seq<string>)
    requires |ps| > 0 && forall k :: 0 <= k < |ps| ==> NoConnectives(ps[k])
    ensures Rewrite(Join(ps, "and")) == Join(ps, "&")
  {
    ConnectiveChars("and", "&", "or", "|");
    ReplaceJoinThenAbsent(ps, "and", "&", "or", "|");
  }

  /** Words joined by `or` become words joined by `|`, when no word holds `and` or `or`. */
  lemma RewriteOrJoin(ps: seq<string>)
    requires |ps| > 0 && forall k :: 0 <= k < |ps| ==> NoConnectives(ps[k])
    ensures Rewrite(Join(ps, "or")) == Join(ps, "|")
  {
    ConnectiveChars("and", "&", "or", "|");
    AbsentThenReplaceJoin(ps, "and", "&", "or", "|");
  }

  /** Neither connective word overlaps itself, and neither shares a character with the other's separator. */
  lemma ConnectiveChars(and: string, amp: string, or: string, bar: string)
    requires and == "and" && amp == "&" && or == "or" && bar == "|"
    ensures and[0] !in and[1..] && or[0] !in or[1..]
    ensures (forall i :: 0 <= i < |amp| ==> amp[i] !in or) && forall i :: 0 <= i < |or| ==> or[i] !in and
  {
  }

  /** Replacing the separator of a join, then a word that neither the parts nor the new separator hold. */
  lemma ReplaceJoinThenAbsent(ps: seq<string>, pat: string, rep: string, w: string, wrep: string)
    requires |pat| > 0 && pat[0] !in pat[1..] && |rep| > 0 && |w| > 0 && forall i :: 0 <= i < |rep| ==> rep[i] !in w
    requires |ps| > 0 && forall k :: 0 <= k < |ps| ==> !Contains(ps[k], pat) && !Contains(ps[k], w)
    ensures ReplaceAll(ReplaceAll(Join(ps, pat), pat, rep), w, wrep) == Join(ps, rep)
  {
    ReplaceJoinParts(ps, pat, rep);
    NotContainsJoin(ps, rep, w);
    ReplaceAllAbsent(Join(ps, rep), w, wrep);
  }

  /** Replacing a word that neither the parts nor the separator hold, then the separator of the join. */
  lemma AbsentThenReplaceJoin(ps: seq<string>, w: string, wrep: string, pat: string, rep: string)
    requires |pat| > 0 && pat[0] !in pat[1..] && |w| > 0 && forall i :: 0 <= i < |pat| ==> pat[i] !in w
    requires |ps| > 0 && forall k :: 0 <= k < |ps| ==> !Contains(ps[k], pat) && !Contains(ps[k], w)
    ensures ReplaceAll(ReplaceAll(Join(ps, pat), w, wrep), pat, rep) == Join(ps, rep)
  {
    NotContainsJoin(ps, pat, w);
    ReplaceAllAbsent(Join(ps, pat), w, wrep);
    ReplaceJoinParts(ps, pat, rep);
  }

  /** A text without the letters `a`, `o` and `v` holds no connective and opens with no prefix word. */
  lemma PlainLetters(t: string)
    requires 'a' !in t && 'o' !in t && 'v' !in t
    ensures NoConnectives(t) && NoPrefixWord(t)
  {
    NotContainsFirstChar(t, "and");
    NotContainsFirstChar(t, "or");
    if |t| > 0 {
      assert t[0] in t;
    }
  }

  /** The rewrite is a substring replacement: an `and` inside a name is rewritten too. */
  lemma RewriteInsideName(l: string, r: string)
    requires 'a' !in l && !Contains(r, "and") && 'o' !in l && 'o' !in r
    ensures Rewrite(l + "and" + r) == l + "&" + r
  {
    NotContainsFirstChar(l, "and");
    ReplaceAllAfter(l, r, "and", "&");
    ReplaceAllAbsent(r, "and", "&");
    NotContainsFirstChar(l, "or");
    NotContainsFirstChar(r, "or");
    NotContainsSplice(l, "&", r, "or");
    ReplaceAllAbsent(l + "&" + r, "or", "|");
  }

  /** `s.replace(c, "")` for a one-character `c`. */
  function DropChar(s: string, c: char): (r: string)
    ensures c !in r
    ensures forall x :: x in r ==> x in s
    ensures forall x :: x != c ==> multiset(r)[x] == multiset(s)[x]
    ensures c !in s ==> r == s
  {
    if |s| == 0 then ""
    else
      assert s == [s[0]] + s[1..];
      if s[0] == c then DropChar(s[1..], c)
      else [s[0]] + DropChar(s[1..], c)
  }

  /** `DropChar` is `str.replace` of the one-character text by the empty one. */
  lemma {:induction false} DropCharReplace(s: string, c: char)
    ensures DropChar(s, c) == ReplaceAll(s, [c], "")
    decreases |s|
  {
    if |s| > 0 {
      DropCharReplace(s[1..], c);
      assert s[..1] == [s[0]];
      assert s[1..] == s[|[c]|..];
      assert "" + ReplaceAll(s[1..], [c], "") == ReplaceAll(s[1..], [c], "");
    }
  }

  /** Dropping a character works piece by piece, so the other characters keep their order. */
  lemma {:induction false} DropCharAppend(a: string, b: string, c: char)
    ensures DropChar(a + b, c) == DropChar(a, c) + DropChar(b, c)
    decreases |a|
  {
    if |a| == 0 {
      assert a + b == b;
    } else {
      assert (a + b)[0] == a[0] && (a + b)[1..] == a[1..] + b;
      DropCharAppend(a[1..], b, c);
    }
  }

  /** The concatenation of lists, as the nested comprehension builds it. */
  function Flatten(xss: seq<seq<string>>): seq<string> {
    if |xss| == 0 then [] else xss[0] + Flatten(xss[1..])
  }

  /**
   * The atomic clauses: the pieces between `&`, each stripped and split on `|`, each
   * of those stripped and freed of parentheses.
   */
  function Clauses(e: string): (cs: seq<string>)
    ensures forall c :: c in cs ==> '(' !in c && ')' !in c
  {
    Cleaned(Flatten(OrSplit(SplitOn(e, "&"))))
  }

  /** `[cut.strip().split("|") for cut in cuts]`. */
  function OrSplit(byAnd: seq<string>): (r: seq<seq<string>>)
    ensures |r| == |byAnd|
  {
    if |byAnd| == 0 then [] else [SplitOn(Strip(byAnd[0]), "|")] + OrSplit(byAnd[1..])
  }

  /** `[c.strip()...]` and `[cut.replace("(", "").replace(")", "")...]`, one clause at a time. */
  function Cleaned(byOr: seq<string>): (r: seq<string>)
    ensures |r| == |byOr|
    ensures forall c :: c in r ==> '(' !in c && ')' !in c
  {
    if |byOr| == 0 then [] else [DropChar(DropChar(Strip(byOr[0]), '('), ')')] + Cleaned(byOr[1..])
  }

  /** A flattened list of one-element lists is the list of their elements. */
  lemma {:induction false} FlattenSingletons(xss: seq<seq<string>>, xs: seq<string>)
    requires |xss| == |xs| && forall i :: 0 <= i < |xss| ==> xss[i] == [xs[i]]
    ensures Flatten(xss) == xs
    decreases |xss|
  {
    if |xss| > 0 {
      FlattenSingletons(xss[1..], xs[1..]);
    }
  }

  /** Pieces without operators are each split on `|` into themselves, stripped. */
  lemma {:induction false} OrSplitPlain(ps: seq<string>)
    requires forall k :: 0 <= k < |ps| ==> NoOperators(ps[k])
    ensures forall i :: 0 <= i < |ps| ==> OrSplit(ps)[i] == [Strip(ps[i])]
    decreases |ps|
  {
    if |ps| > 0 {
      OrSplitPlain(ps[1..]);
      StripChars(ps[0], '|');
      NoCharIndexOf(Strip(ps[0]), '|');
    }
  }

  /** Cleaning pieces without operators only strips them. */
  lemma {:induction false} CleanedPlain(ps: seq<string>)
    requires forall k :: 0 <= k < |ps| ==> NoOperators(ps[k])
    ensures forall i :: 0 <= i < |ps| ==> Cleaned(ps)[i] == Strip(ps[i])
    decreases |ps|
  {
    if |ps| > 0 {
      CleanedPlain(ps[1..]);
      StripChars(ps[0], '(');
      StripChars(ps[0], ')');
    }
  }

  /** Clauses joined by `&` come back as those clauses, stripped and in order. */
  lemma ClausesOfAndJoin(ps: seq<string>)
    requires |ps| > 0 && forall k :: 0 <= k < |ps| ==> NoOperators(ps[k])
    ensures var cs := Clauses(Join(ps, "&"));
      |cs| == |ps| && forall i :: 0 <= i < |ps| ==> cs[i] == Strip(ps[i])
  {
    SplitOnJoin(ps, '&');
    OrSplitPlain(ps);
    var stripped := seq(|ps|, i requires 0 <= i < |ps| => Strip(ps[i]));
    FlattenSingletons(OrSplit(ps), stripped);
    forall k | 0 <= k < |ps|
      ensures NoOperators(stripped[k]) && Strip(stripped[k]) == stripped[k]
    {
      StripChars(ps[k], '&');
      StripChars(ps[k], '|');
      StripChars(ps[k], '(');
      StripChars(ps[k], ')');
      StripStrip(ps[k]);
    }
    CleanedPlain(stripped);
  }

  /** Clauses joined by `|`, with nothing to strip around the whole, come back as those clauses, stripped. */
  lemma ClausesOfOrJoin(ps: seq<string>)
    requires |ps| > 0 && forall k :: 0 <= k < |ps| ==> NoOperators(ps[k])
    requires Stripped(Join(ps, "|"))
    ensures var cs := Clauses(Join(ps, "|"));
      |cs| == |ps| && forall i :: 0 <= i < |ps| ==> cs[i] == Strip(ps[i])
  {
    var e := Join(ps, "|");
    JoinChars(ps, "|", '&');
    NoCharIndexOf(e, '&');
    assert SplitOn(e, "&") == [e];
    StripOfStripped(e);
    SplitOnJoin(ps, '|');
    assert OrSplit([e]) == [ps];
    assert Flatten([ps]) == ps + Flatten([]);
    assert Flatten(OrSplit(SplitOn(e, "&"))) == ps;
    CleanedPlain(ps);
  }

  /** Groups of clauses joined by `|`, the groups joined by `&`. */
  function JoinAndOfOrs(pss: seq<seq<string>>): string {
    Join(seq(|pss|, i requires 0 <= i < |pss| => Join(pss[i], "|")), "&")
  }

  /** Element by element, the `|` split of each stripped piece. */
  lemma {:induction false} OrSplitAt(byAnd: seq<string>, i: nat)
    requires i < |byAnd|
    ensures OrSplit(byAnd)[i] == SplitOn(Strip(byAnd[i]), "|")
    decreases i
  {
    if i > 0 {
      OrSplitAt(byAnd[1..], i - 1);
    }
  }

  /** The pieces of a flattened list of operator-free groups are operator-free. */
  lemma {:induction false} FlattenNoOperators(pss: seq<seq<string>>)
    requires forall i, j :: 0 <= i < |pss| && 0 <= j < |pss[i]| ==> NoOperators(pss[i][j])
    ensures forall k :: 0 <= k < |Flatten(pss)| ==> NoOperators(Flatten(pss)[k])
    decreases |pss|
  {
    if |pss| > 0 {
      FlattenNoOperators(pss[1..]);
      var f := Flatten(pss);
      assert f == pss[0] + Flatten(pss[1..]);
      forall k | 0 <= k < |f|
        ensures NoOperators(f[k])
      {
        if k < |pss[0]| {
          assert f[k] == pss[0][k];
        } else {
          assert f[k] == Flatten(pss[1..])[k - |pss[0]|];
        }
      }
    }
  }

  /**
   * The clauses are the pieces between `&`, each split on `|`, in order and
   * stripped: groups of clauses joined by `|`, the groups joined by `&`, come
   * back as all the clauses, group after group.
   */
  lemma ClausesOfAndOfOrs(pss: seq<seq<string>>)
    requires |pss| > 0 && forall i :: 0 <= i < |pss| ==> |pss[i]| > 0 && Stripped(Join(pss[i], "|"))
    requires forall i, j :: 0 <= i < |pss| && 0 <= j < |pss[i]| ==> NoOperators(pss[i][j])
    ensures Clauses(JoinAndOfOrs(pss)) == Strips(Flatten(pss))
  {
    var qs := seq(|pss|, i requires 0 <= i < |pss| => Join(pss[i], "|"));
    forall i | 0 <= i < |qs|
      ensures '&' !in qs[i] && OrSplit(qs)[i] == pss[i]
    {
      assert forall j :: 0 <= j < |pss[i]| ==> NoOperators(pss[i][j]);
      JoinChars(pss[i], "|", '&');
      OrSplitAt(qs, i);
      StripOfStripped(qs[i]);
      SplitOnJoin(pss[i], '|');
    }
    SplitOnJoin(qs, '&');
    assert OrSplit(SplitOn(JoinAndOfOrs(pss), "&")) == pss;
    FlattenNoOperators(pss);
    CleanedPlain(Flatten(pss));
  }
}
