/**
 * The boolean skeleton of a cut expression (hml/approaches/cuts/cut.py, `read`):
 * after each clause is replaced by its result, Python evaluates a text made of
 * clause results joined by `&` and `|` with parentheses. Here that text is
 * tokenised and parsed with Python's precedence (`&` over `|`, both
 * left-associative), and evaluated over awkward-style columns of optional booleans.
 */
module CutSkeleton {
  import opened Wrappers
  import opened Strings
  import opened Dicts

  // ---------------------------------------------------------------------------
  // Tokens

  datatype Token = TAnd | TOr | TOpen | TClose | TText(text: string)

  /** The text gathered since the last operator, as a token when it is not blank. */
  function Flush(buf: string): (ts: seq<Token>)
    ensures |ts| <= 1
    ensures |ts| == 1 ==> ts[0] == TText(Strip(buf)) && |Strip(buf)| > 0
  {
    var t := Strip(buf);
    if |t| == 0 then [] else [TText(t)]
  }

  /** Operators end the text gathered in `buf`; every other character joins it. */
  function Lex(s: string, buf: string): (ts: seq<Token>)
    ensures forall k :: 0 <= k < |ts| && ts[k].TText? ==> |ts[k].text| > 0
    decreases |s|
  {
    if |s| == 0 then Flush(buf)
    else if s[0] == '&' then Flush(buf) + [TAnd] + Lex(s[1..], "")
    else if s[0] == '|' then Flush(buf) + [TOr] + Lex(s[1..], "")
    else if s[0] == '(' then Flush(buf) + [TOpen] + Lex(s[1..], "")
    else if s[0] == ')' then Flush(buf) + [TClose] + Lex(s[1..], "")
    else Lex(s[1..], buf + [s[0]])
  }

  function Tokenize(s: string): seq<Token> {
    Lex(s, "")
  }

  /** A text holding no `&`, `|` or parenthesis: the tokenizer reads it as plain text. */
  predicate NoOperators(s: string) {
    '&' !in s && '|' !in s && '(' !in s && ')' !in s
  }

  /** Plain text joins the gathered buffer. */
  lemma {:induction false} LexText(s: string, rest: string, buf: string)
    requires NoOperators(s)
    ensures Lex(s + rest, buf) == Lex(rest, buf + s)
    decreases |s|
  {
    if |s| == 0 {
      assert s + rest == rest && buf + s == buf;
    } else {
      assert (s + rest)[0] == s[0] && (s + rest)[1..] == s[1..] + rest;
      assert s[0] in s;
      assert NoOperators(s[1..]) by {
        assert forall c :: c in s[1..] ==> c in s;
      }
      LexText(s[1..], rest, buf + [s[0]]);
      assert buf + [s[0]] + s[1..] == buf + s;
    }
  }

  /**
   * The rewrite of a clause bounded on both sides, `(a & b)`, is read as the two
   * halves joined by `&` inside parentheses.
   */
  lemma LexSplitClause(a: string, b: string)
    requires |a| > 0 && |b| > 0 && Stripped(a) && Stripped(b) && NoOperators(a) && NoOperators(b)
    ensures Tokenize("(" + a + " & " + b + ")") == [TOpen, TText(a), TAnd, TText(b), TClose]
  {
    var tail := " " + b + ")";
    var afterOpen := a + " " + ("&" + tail);
    assert ("(" + a + " & " + b + ")")[0] == '(';
    assert ("(" + a + " & " + b + ")")[1..] == afterOpen;
    assert Lex("(" + a + " & " + b + ")", "") == Flush("") + [TOpen] + Lex(afterOpen, "");
    LexLeftHalf(a, tail);
    LexRightHalf(b);
  }

  lemma LexLeftHalf(a: string, tail: string)
    requires |a| > 0 && Stripped(a) && NoOperators(a)
    ensures Lex(a + " " + ("&" + tail), "") == [TText(a), TAnd] + Lex(tail, "")
  {
    var head := a + " ";
    var rest := "&" + tail;
    assert a + " " + ("&" + tail) == a + " " + rest;
    LexPadded(a, rest);
    LexAndFirst(head, tail);
    FlushTrailingSpace(a);
    TwoTokens(TText(a), TAnd, Lex(tail, ""));
  }

  /** Two one-token lists and a rest make the two-token list and that rest. */
  lemma TwoTokens(x: Token, y: Token, rest: seq<Token>)
    ensures [x] + [y] + rest == [x, y] + rest
  {
  }

  /** A stripped text with a space after it is flushed as that text. */
  lemma FlushTrailingSpace(a: string)
    requires |a| > 0 && Stripped(a)
    ensures Flush(a + " ") == [TText(a)]
  {
    FlushPadded("", a, " ");
    assert "" + a + " " == a + " ";
  }

  /** A stripped text with a space before it is flushed as that text. */
  lemma FlushLeadingSpace(b: string)
    requires |b| > 0 && Stripped(b)
    ensures Flush(" " + b) == [TText(b)]
  {
    FlushPadded(" ", b, "");
    assert " " + b + "" == " " + b;
  }

  /** A stripped text followed by a space joins an empty buffer. */
  lemma LexPadded(a: string, rest: string)
    requires NoOperators(a)
    ensures Lex(a + " " + rest, "") == Lex(rest, a + " ")
  {
    var head := a + " ";
    assert NoOperators(head) by {
      assert forall c :: c in head ==> c in a || c == ' ';
    }
    LexText(head, rest, "");
    assert "" + head == head;
  }

  /** An `&` ends the gathered text. */
  lemma LexAndFirst(buf: string, tail: string)
    ensures Lex("&" + tail, buf) == Flush(buf) + [TAnd] + Lex(tail, "")
  {
    var s := "&" + tail;
    assert s[0] == '&' && s[1..] == tail;
  }

  lemma LexRightHalf(b: string)
    requires |b| > 0 && Stripped(b) && NoOperators(b)
    ensures Lex(" " + b + ")", "") == [TText(b), TClose]
  {
    LexPaddedClose(b);
    LexCloseLast(" " + b);
    FlushLeadingSpace(b);
  }

  /** Plain text before a closing parenthesis is gathered. */
  lemma LexPaddedClose(b: string)
    requires NoOperators(b)
    ensures Lex(" " + b + ")", "") == Lex(")", " " + b)
  {
    assert NoOperators(" " + b);
    LexText(" " + b, ")", "");
    assert "" + (" " + b) == " " + b;
  }

  /** A final `)` ends the gathered text. */
  lemma LexCloseLast(buf: string)
    ensures Lex(")", buf) == Flush(buf) + [TClose]
  {
    var s := ")";
    assert s[0] == ')' && s[1..] == "";
    assert Lex("", "") == [];
  }

  /** Whitespace around a stripped text is flushed as that text. */
  lemma FlushPadded(pre: string, t: string, post: string)
    requires |t| > 0 && Stripped(t)
    requires forall i :: 0 <= i < |pre| ==> IsSpace(pre[i])
    requires forall i :: 0 <= i < |post| ==> IsSpace(post[i])
    ensures Flush(pre + t + post) == [TText(t)]
  {
    StripAround(pre, t, post);
  }

  /** So the rewritten clause parses to the conjunction of its two halves. */
  lemma ParseSplitClause(a: string, b: string)
    requires |a| > 0 && |b| > 0 && Stripped(a) && Stripped(b) && NoOperators(a) && NoOperators(b)
    ensures ParseSkeleton("(" + a + " & " + b + ")") == Ok(And(Leaf(a), Leaf(b)))
  {
    LexSplitClause(a, b);
    assert Render(And(Leaf(a), Leaf(b))) == [TOpen, TText(a), TAnd, TText(b), TClose];
    ParseRender(And(Leaf(a), Leaf(b)));
  }

  // ---------------------------------------------------------------------------
  // Parsing

  datatype Skel = Leaf(text: string) | And(left: Skel, right: Skel) | Or(left: Skel, right: Skel)

  /** `a | b | ...`: the last index reached is past `k`. */
  function ParseOr(ts: seq<Token>, k: nat): (r: Result<(Skel, nat)>)
    ensures r.Ok? ==> k < r.value.1 <= |ts|
    ensures r.Err? ==> r.error == SyntaxError
    decreases |ts| - k, 3
  {
    var (left, j) :- ParseAnd(ts, k);
    OrTail(ts, j, left)
  }

  function OrTail(ts: seq<Token>, j: nat, left: Skel): (r: Result<(Skel, nat)>)
    requires j <= |ts|
    ensures r.Ok? ==> j <= r.value.1 <= |ts|
    ensures r.Err? ==> r.error == SyntaxError
    decreases |ts| - j, 4
  {
    if j < |ts| && ts[j] == TOr then
      var (right, j') :- ParseAnd(ts, j + 1);
      OrTail(ts, j', Or(left, right))
    else Ok((left, j))
  }

  /** `a & b & ...` */
  function ParseAnd(ts: seq<Token>, k: nat): (r: Result<(Skel, nat)>)
    ensures r.Ok? ==> k < r.value.1 <= |ts|
    ensures r.Err? ==> r.error == SyntaxError
    decreases |ts| - k, 2
  {
    var (left, j) :- Atom(ts, k);
    AndTail(ts, j, left)
  }

  function AndTail(ts: seq<Token>, j: nat, left: Skel): (r: Result<(Skel, nat)>)
    requires j <= |ts|
    ensures r.Ok? ==> j <= r.value.1 <= |ts|
    ensures r.Err? ==> r.error == SyntaxError
    decreases |ts| - j, 1
  {
    if j < |ts| && ts[j] == TAnd then
      var (right, j') :- Atom(ts, j + 1);
      AndTail(ts, j', And(left, right))
    else Ok((left, j))
  }

  /** A clause, or a parenthesised expression. */
  function Atom(ts: seq<Token>, k: nat): (r: Result<(Skel, nat)>)
    ensures r.Ok? ==> k < r.value.1 <= |ts|
    ensures r.Err? ==> r.error == SyntaxError
    decreases |ts| - k, 0
  {
    if k >= |ts| then Err(SyntaxError)
    else match ts[k]
      case TText(t) => Ok((Leaf(t), k + 1))
      case TOpen =>
        var (inner, j) :- ParseOr(ts, k + 1);
        if j < |ts| && ts[j] == TClose then Ok((inner, j + 1)) else Err(SyntaxError)
      case _ => Err(SyntaxError)
  }

  /** A whole token sequence as one expression: SyntaxError for anything left over. */
  function ParseTokens(ts: seq<Token>): (r: Result<Skel>)
    ensures r.Err? ==> r.error == SyntaxError
  {
    var (sk, j) :- ParseOr(ts, 0);
    if j == |ts| then Ok(sk) else Err(SyntaxError)
  }

  function ParseSkeleton(expr: string): (r: Result<Skel>)
    ensures r.Err? ==> r.error == SyntaxError
  {
    ParseTokens(Tokenize(expr))
  }

  /** The fully parenthesised tokens of a skeleton. */
  function Render(sk: Skel): seq<Token> {
    match sk
    case Leaf(t) => [TText(t)]
    case And(l, r) => [TOpen] + Render(l) + [TAnd] + Render(r) + [TClose]
    case Or(l, r) => [TOpen] + Render(l) + [TOr] + Render(r) + [TClose]
  }

  /** `( l & r )` after its two operands have been parsed. */
  lemma AtomOfAnd(ts: seq<Token>, k: nat, l: Skel, k1: nat, r: Skel, k2: nat)
    requires k < k1 < k2 < |ts| && ts[k] == TOpen && ts[k1] == TAnd && ts[k2] == TClose
    requires Atom(ts, k + 1) == Ok((l, k1)) && Atom(ts, k1 + 1) == Ok((r, k2))
    ensures Atom(ts, k) == Ok((And(l, r), k2 + 1))
  {
    assert AndTail(ts, k2, And(l, r)) == Ok((And(l, r), k2));
    assert AndTail(ts, k1, l) == Ok((And(l, r), k2));
    assert ParseAnd(ts, k + 1) == Ok((And(l, r), k2));
    assert OrTail(ts, k2, And(l, r)) == Ok((And(l, r), k2));
    assert ParseOr(ts, k + 1) == Ok((And(l, r), k2));
  }

  /** `( l | r )` after its two operands have been parsed. */
  lemma AtomOfOr(ts: seq<Token>, k: nat, l: Skel, k1: nat, r: Skel, k2: nat)
    requires k < k1 < k2 < |ts| && ts[k] == TOpen && ts[k1] == TOr && ts[k2] == TClose
    requires Atom(ts, k + 1) == Ok((l, k1)) && Atom(ts, k1 + 1) == Ok((r, k2))
    ensures Atom(ts, k) == Ok((Or(l, r), k2 + 1))
  {
    assert AndTail(ts, k1, l) == Ok((l, k1));
    assert ParseAnd(ts, k + 1) == Ok((l, k1));
    assert AndTail(ts, k2, r) == Ok((r, k2));
    assert ParseAnd(ts, k1 + 1) == Ok((r, k2));
    assert OrTail(ts, k2, Or(l, r)) == Ok((Or(l, r), k2));
    assert OrTail(ts, k1, l) == Ok((Or(l, r), k2));
    assert ParseOr(ts, k + 1) == Ok((Or(l, r), k2));
  }

  /** A rendered skeleton, wherever it sits in a token sequence, parses back as one atom ending at `j`. */
  lemma {:induction false} AtomOfRender(sk: Skel, ts: seq<Token>, k: nat, j: nat)
    requires j == k + |Render(sk)| && j <= |ts| && ts[k..j] == Render(sk)
    ensures Atom(ts, k) == Ok((sk, j))
    decreases sk, 1
  {
    match sk
    case Leaf(t) =>
      assert ts[k] == Render(sk)[0] == TText(t);
    case And(l, r) => AtomOfRenderAnd(l, r, ts, k, j);
    case Or(l, r) => AtomOfRenderOr(l, r, ts, k, j);
  }

  lemma {:induction false} AtomOfRenderAnd(l: Skel, r: Skel, ts: seq<Token>, k: nat, j: nat)
    requires j == k + |Render(And(l, r))| && j <= |ts| && ts[k..j] == Render(And(l, r))
    ensures Atom(ts, k) == Ok((And(l, r), j))
    decreases And(l, r), 0
  {
    var k1 := k + 1 + |Render(l)|;
    var k2 := k1 + 1 + |Render(r)|;
    OperandsOfRender(ts, k, j, Render(And(l, r)), Render(l), TAnd, Render(r), k1, k2);
    AtomOfRender(l, ts, k + 1, k1);
    AtomOfRender(r, ts, k1 + 1, k2);
    AtomOfAnd(ts, k, l, k1, r, k2);
  }

  lemma {:induction false} AtomOfRenderOr(l: Skel, r: Skel, ts: seq<Token>, k: nat, j: nat)
    requires j == k + |Render(Or(l, r))| && j <= |ts| && ts[k..j] == Render(Or(l, r))
    ensures Atom(ts, k) == Ok((Or(l, r), j))
    decreases Or(l, r), 0
  {
    var k1 := k + 1 + |Render(l)|;
    var k2 := k1 + 1 + |Render(r)|;
    OperandsOfRender(ts, k, j, Render(Or(l, r)), Render(l), TOr, Render(r), k1, k2);
    AtomOfRender(l, ts, k + 1, k1);
    AtomOfRender(r, ts, k1 + 1, k2);
    AtomOfOr(ts, k, l, k1, r, k2);
  }

  /** Where the pieces of `( l op r )` sit when it occurs at `k`. */
  lemma OperandsOfRender(ts: seq<Token>, k: nat, j: nat, rs: seq<Token>, l: seq<Token>, op: Token, r: seq<Token>, k1: nat, k2: nat)
    requires rs == [TOpen] + l + [op] + r + [TClose]
    requires j == k + |rs| && j <= |ts| && ts[k..j] == rs
    requires k1 == k + 1 + |l| && k2 == k1 + 1 + |r|
    ensures j == k2 + 1
    ensures ts[k] == TOpen && ts[k1] == op && ts[k2] == TClose
    ensures ts[k + 1..k1] == l
    ensures ts[k1 + 1..k2] == r
  {
    var x3 := [TOpen] + l + [op];
    SliceConcat(ts, k, x3 + r, [TClose]);
    SliceConcat(ts, k, x3, r);
    SliceConcat(ts, k, [TOpen] + l, [op]);
    SliceConcat(ts, k, [TOpen], l);
    SliceSingle(ts, k, TOpen);
    SliceSingle(ts, k1, op);
    SliceSingle(ts, k2, TClose);
  }

  /** Where `a + b` occurs, `a` and then `b` occur. */
  lemma SliceConcat(ts: seq<Token>, k: nat, a: seq<Token>, b: seq<Token>)
    requires k + |a| + |b| <= |ts| && ts[k..k + |a| + |b|] == a + b
    ensures ts[k..k + |a|] == a && ts[k + |a|..k + |a| + |b|] == b
  {
    var w := ts[k..k + |a| + |b|];
    assert ts[k..k + |a|] == w[..|a|];
    assert ts[k + |a|..k + |a| + |b|] == w[|a|..];
    assert (a + b)[..|a|] == a && (a + b)[|a|..] == b;
  }

  lemma SliceSingle(ts: seq<Token>, k: nat, t: Token)
    requires k + 1 <= |ts| && ts[k..k + 1] == [t]
    ensures ts[k] == t
  {
    assert ts[k..k + 1][0] == ts[k];
  }

  /** Parsing undoes rendering. */
  lemma ParseRender(sk: Skel)
    ensures ParseTokens(Render(sk)) == Ok(sk)
  {
    var ts := Render(sk);
    assert ts[0..|ts|] == ts;
    AtomOfRender(sk, ts, 0, |ts|);
    assert AndTail(ts, |ts|, sk) == Ok((sk, |ts|));
    assert ParseAnd(ts, 0) == Ok((sk, |ts|));
    assert OrTail(ts, |ts|, sk) == Ok((sk, |ts|));
    assert ParseOr(ts, 0) == Ok((sk, |ts|));
  }

  /** `a | b & c` groups as `a | (b & c)`. */
  lemma AndBindsTighter(a: string, b: string, c: string)
    ensures ParseTokens([TText(a), TOr, TText(b), TAnd, TText(c)]) == Ok(Or(Leaf(a), And(Leaf(b), Leaf(c))))
  {
    var ts := [TText(a), TOr, TText(b), TAnd, TText(c)];
    var bc := And(Leaf(b), Leaf(c));
    assert Atom(ts, 0) == Ok((Leaf(a), 1));
    assert AndTail(ts, 1, Leaf(a)) == Ok((Leaf(a), 1));
    assert ParseAnd(ts, 0) == Ok((Leaf(a), 1));
    assert Atom(ts, 2) == Ok((Leaf(b), 3));
    assert Atom(ts, 4) == Ok((Leaf(c), 5));
    assert AndTail(ts, 5, bc) == Ok((bc, 5));
    assert AndTail(ts, 3, Leaf(b)) == Ok((bc, 5));
    assert ParseAnd(ts, 2) == Ok((bc, 5));
    assert OrTail(ts, 5, Or(Leaf(a), bc)) == Ok((Or(Leaf(a), bc), 5));
    assert OrTail(ts, 1, Leaf(a)) == Ok((Or(Leaf(a), bc), 5));
    assert ParseOr(ts, 0) == Ok((Or(Leaf(a), bc), 5));
  }

  /** `a & b & c` groups as `(a & b) & c`. */
  lemma AndLeftAssociative(a: string, b: string, c: string)
    ensures ParseTokens([TText(a), TAnd, TText(b), TAnd, TText(c)]) == Ok(And(And(Leaf(a), Leaf(b)), Leaf(c)))
  {
    var ts := [TText(a), TAnd, TText(b), TAnd, TText(c)];
    var ab := And(Leaf(a), Leaf(b));
    var abc := And(ab, Leaf(c));
    assert Atom(ts, 0) == Ok((Leaf(a), 1));
    assert Atom(ts, 2) == Ok((Leaf(b), 3));
    assert Atom(ts, 4) == Ok((Leaf(c), 5));
    assert AndTail(ts, 5, abc) == Ok((abc, 5));
    assert AndTail(ts, 3, ab) == Ok((abc, 5));
    assert AndTail(ts, 1, Leaf(a)) == Ok((abc, 5));
    assert ParseAnd(ts, 0) == Ok((abc, 5));
    assert OrTail(ts, 5, abc) == Ok((abc, 5));
    assert ParseOr(ts, 0) == Ok((abc, 5));
  }

  /** An unclosed parenthesis is a SyntaxError. */
  lemma UnclosedParenthesis(a: string)
    ensures ParseTokens([TOpen, TText(a)]) == Err(SyntaxError)
  {
    var ts := [TOpen, TText(a)];
    assert Atom(ts, 1) == Ok((Leaf(a), 2));
    assert AndTail(ts, 2, Leaf(a)) == Ok((Leaf(a), 2));
    assert ParseAnd(ts, 1) == Ok((Leaf(a), 2));
    assert OrTail(ts, 2, Leaf(a)) == Ok((Leaf(a), 2));
    assert ParseOr(ts, 1) == Ok((Leaf(a), 2));
    assert Atom(ts, 0) == Err(SyntaxError);
    assert ParseAnd(ts, 0) == Err(SyntaxError);
  }

  // ---------------------------------------------------------------------------
  // Expressions joined by one operator

  /** The tokens of texts joined by one operator: text, operator, text, ... */
  function Interleave(op: Token, xs: seq<string>): (ts: seq<Token>)
    requires |xs| > 0
    ensures |ts| == 2 * |xs| - 1
    ensures forall i :: 0 <= i < |xs| ==> ts[2 * i] == TText(xs[i])
    ensures forall i :: 0 <= i < |xs| - 1 ==> ts[2 * i + 1] == op
  {
    if |xs| == 1 then [TText(xs[0])]
    else
      var tail := Interleave(op, xs[1..]);
      var ts := [TText(xs[0]), op] + tail;
      forall i | 1 <= i < |xs|
        ensures ts[2 * i] == TText(xs[i])
      {
        assert ts[2 * i] == tail[2 * (i - 1)];
      }
      forall i | 0 <= i < |xs| - 1
        ensures ts[2 * i + 1] == op
      {
        if i > 0 {
          assert ts[2 * i + 1] == tail[2 * (i - 1) + 1];
        }
      }
      ts
  }

  function OpToken(op: Op): Token {
    if op == AndOp then TAnd else TOr
  }

  function OpChar(op: Op): char {
    if op == AndOp then '&' else '|'
  }

  function Node(op: Op, l: Skel, r: Skel): Skel {
    if op == AndOp then And(l, r) else Or(l, r)
  }

  /** Clauses joined by one operator, grouped to the left as Python groups them. */
  function Chain(op: Op, xs: seq<string>): (sk: Skel)
    requires |xs| > 0
    ensures Leaves(sk) == set x | x in xs
  {
    if |xs| == 1 then Leaf(xs[0])
    else
      var init := xs[..|xs| - 1];
      assert xs == init + [xs[|xs| - 1]];
      Node(op, Chain(op, init), Leaf(xs[|xs| - 1]))
  }

  /** The stripped texts. */
  function Strips(ps: seq<string>): (r: seq<string>)
    ensures |r| == |ps| && forall i :: 0 <= i < |ps| ==> r[i] == Strip(ps[i])
  {
    seq(|ps|, i requires 0 <= i < |ps| => Strip(ps[i]))
  }

  /** A sequence holding each part stripped, in order, is `Strips` of the parts. */
  lemma StripsOfPointwise(cs: seq<string>, ps: seq<string>)
    requires |cs| == |ps| && forall i :: 0 <= i < |ps| ==> cs[i] == Strip(ps[i])
    ensures cs == Strips(ps)
  {
    assert forall i :: 0 <= i < |cs| ==> cs[i] == Strips(ps)[i];
  }

  /** Texts joined by an operator are read as their stripped selves between operator tokens. */
  lemma {:induction false} LexJoin(op: Op, ps: seq<string>)
    requires |ps| > 0 && forall k :: 0 <= k < |ps| ==> NoOperators(ps[k]) && |Strip(ps[k])| > 0
    ensures Tokenize(Join(ps, [OpChar(op)])) == Interleave(OpToken(op), Strips(ps))
    decreases |ps|
  {
    var c := [OpChar(op)];
    if |ps| == 1 {
      LexText(ps[0], "", "");
      assert ps[0] + "" == ps[0] && "" + ps[0] == ps[0];
    } else {
      var tail := ps[1..];
      assert forall k :: 0 <= k < |tail| ==> tail[k] == ps[k + 1];
      LexJoin(op, tail);
      var rest := Join(tail, c);
      assert Join(ps, c) == ps[0] + (c + rest);
      LexJoinStep(op, ps[0], rest);
      InterleaveCons(OpToken(op), Strips(ps));
      assert Strips(ps)[1..] == Strips(tail);
    }
  }

  lemma LexJoinStep(op: Op, p: string, rest: string)
    requires NoOperators(p) && |Strip(p)| > 0
    ensures Lex(p + ([OpChar(op)] + rest), "") == [TText(Strip(p)), OpToken(op)] + Lex(rest, "")
  {
    LexText(p, [OpChar(op)] + rest, "");
    assert "" + p == p;
    LexOpFirst(op, p, rest);
  }

  lemma InterleaveCons(op: Token, xs: seq<string>)
    requires |xs| > 1
    ensures Interleave(op, xs) == [TText(xs[0]), op] + Interleave(op, xs[1..])
  {
  }

  /** An operator ends the gathered text. */
  lemma LexOpFirst(op: Op, buf: string, rest: string)
    requires |Strip(buf)| > 0
    ensures Lex([OpChar(op)] + rest, buf) == [TText(Strip(buf)), OpToken(op)] + Lex(rest, "")
  {
    var s := [OpChar(op)] + rest;
    assert s[0] == OpChar(op) && s[1..] == rest;
  }

  /** The rest of an `&` chain, from the operator before clause `i + 1`. */
  lemma {:induction false} AndTailChain(xs: seq<string>, i: nat)
    requires i < |xs|
    ensures var ts := Interleave(TAnd, xs);
      AndTail(ts, 2 * i + 1, Chain(AndOp, xs[..i + 1])) == Ok((Chain(AndOp, xs), |ts|))
    decreases |xs| - i
  {
    if i + 1 == |xs| {
      AndTailEnd(xs);
      assert xs[..i + 1] == xs && 2 * i + 1 == |Interleave(TAnd, xs)|;
    } else {
      AndTailStep(xs, i);
      AndTailChain(xs, i + 1);
    }
  }

  /** The chain of all the texts ends the tokens. */
  lemma AndTailEnd(xs: seq<string>)
    requires |xs| > 0
    ensures var ts := Interleave(TAnd, xs);
      AndTail(ts, |ts|, Chain(AndOp, xs)) == Ok((Chain(AndOp, xs), |ts|))
  {
  }

  /** One `& text` more joins the chain. */
  lemma AndTailStep(xs: seq<string>, i: nat)
    requires i + 1 < |xs|
    ensures var ts := Interleave(TAnd, xs);
      AndTail(ts, 2 * i + 1, Chain(AndOp, xs[..i + 1])) == AndTail(ts, 2 * (i + 1) + 1, Chain(AndOp, xs[..i + 1 + 1]))
  {
    var ts := Interleave(TAnd, xs);
    assert ts[2 * i + 1] == TAnd;
    assert ts[2 * (i + 1)] == TText(xs[i + 1]);
    AndTailOne(ts, 2 * i + 1, Chain(AndOp, xs[..i + 1]), xs[i + 1]);
    ChainSnoc(AndOp, xs, i);
  }

  /** An `&` followed by a text joins the text to the conjunction. */
  lemma AndTailOne(ts: seq<Token>, j: nat, left: Skel, t: string)
    requires j + 1 < |ts| && ts[j] == TAnd && ts[j + 1] == TText(t)
    ensures AndTail(ts, j, left) == AndTail(ts, j + 2, And(left, Leaf(t)))
  {
  }

  /** A chain one text longer has that text as its right operand. */
  lemma ChainSnoc(op: Op, xs: seq<string>, i: nat)
    requires i + 1 < |xs|
    ensures Chain(op, xs[..i + 1 + 1]) == Node(op, Chain(op, xs[..i + 1]), Leaf(xs[i + 1]))
  {
    assert xs[..i + 2][..i + 1] == xs[..i + 1];
  }

  lemma {:induction false} OrTailChain(xs: seq<string>, i: nat)
    requires i < |xs|
    ensures var ts := Interleave(TOr, xs);
      OrTail(ts, 2 * i + 1, Chain(OrOp, xs[..i + 1])) == Ok((Chain(OrOp, xs), |ts|))
    decreases |xs| - i
  {
    if i + 1 == |xs| {
      OrTailEnd(xs);
      assert xs[..i + 1] == xs && 2 * i + 1 == |Interleave(TOr, xs)|;
    } else {
      OrTailStep(xs, i);
      OrTailChain(xs, i + 1);
    }
  }

  /** The chain of all the texts ends the tokens. */
  lemma OrTailEnd(xs: seq<string>)
    requires |xs| > 0
    ensures var ts := Interleave(TOr, xs);
      OrTail(ts, |ts|, Chain(OrOp, xs)) == Ok((Chain(OrOp, xs), |ts|))
  {
  }

  /** One `| text` more joins the chain. */
  lemma OrTailStep(xs: seq<string>, i: nat)
    requires i + 1 < |xs|
    ensures var ts := Interleave(TOr, xs);
      OrTail(ts, 2 * i + 1, Chain(OrOp, xs[..i + 1])) == OrTail(ts, 2 * (i + 1) + 1, Chain(OrOp, xs[..i + 1 + 1]))
  {
    var ts := Interleave(TOr, xs);
    assert ts[2 * i + 1] == TOr;
    assert ts[2 * (i + 1)] == TText(xs[i + 1]);
    if i + 2 < |xs| {
      assert ts[2 * (i + 1) + 1] == TOr;
    }
    OrTailOne(ts, 2 * i + 1, Chain(OrOp, xs[..i + 1]), xs[i + 1]);
    ChainSnoc(OrOp, xs, i);
  }

  /** A `|` followed by a text that ends the tokens or precedes another `|` joins the text to the disjunction. */
  lemma OrTailOne(ts: seq<Token>, j: nat, left: Skel, t: string)
    requires j + 1 < |ts| && ts[j] == TOr && ts[j + 1] == TText(t)
    requires j + 2 == |ts| || ts[j + 2] == TOr
    ensures OrTail(ts, j, left) == OrTail(ts, j + 2, Or(left, Leaf(t)))
  {
    assert Atom(ts, j + 1) == Ok((Leaf(t), j + 2));
    ParseAndOf(ts, j + 1);
    TailsStop(ts, j + 2, Leaf(t));
  }


  /** Clauses joined by `&` parse as their left-grouped conjunction. */
  lemma ParseAndChain(xs: seq<string>)
    requires |xs| > 0
    ensures ParseTokens(Interleave(TAnd, xs)) == Ok(Chain(AndOp, xs))
  {
    var ts := Interleave(TAnd, xs);
    AtomFirst(TAnd, xs);
    ParseAndOf(ts, 0);
    AndTailFromFirst(xs);
    assert ParseAnd(ts, 0) == Ok((Chain(AndOp, xs), |ts|));
    ParseOrOf(ts, 0);
    TailsStop(ts, |ts|, Chain(AndOp, xs));
    ParseTokensOf(ts);
  }

  /** After the first text, the conjunction parser takes the rest of the texts joined by `&`. */
  lemma AndTailFromFirst(xs: seq<string>)
    requires |xs| > 0
    ensures var ts := Interleave(TAnd, xs);
      AndTail(ts, 1, Leaf(xs[0])) == Ok((Chain(AndOp, xs), |ts|))
  {
    ChainOfFirst(AndOp, xs);
    AndTailChain(xs, 0);
  }

  /** Clauses joined by `|` parse as their left-grouped disjunction. */
  lemma ParseOrChain(xs: seq<string>)
    requires |xs| > 0
    ensures ParseTokens(Interleave(TOr, xs)) == Ok(Chain(OrOp, xs))
  {
    var ts := Interleave(TOr, xs);
    AtomFirst(TOr, xs);
    ParseAndOf(ts, 0);
    OrFirstStops(xs);
    assert ParseAnd(ts, 0) == Ok((Leaf(xs[0]), 1));
    OrTailFromFirst(xs);
    ParseOrOf(ts, 0);
    ParseTokensOf(ts);
  }

  /** Among texts joined by `|`, the conjunction parser stops after the first text. */
  lemma OrFirstStops(xs: seq<string>)
    requires |xs| > 0
    ensures AndTail(Interleave(TOr, xs), 1, Leaf(xs[0])) == Ok((Leaf(xs[0]), 1))
  {
    var ts := Interleave(TOr, xs);
    if |xs| > 1 {
      assert ts[2 * 0 + 1] == TOr;
    }
    TailsStop(ts, 1, Leaf(xs[0]));
  }

  /** After the first text, the disjunction parser takes the rest of the texts joined by `|`. */
  lemma OrTailFromFirst(xs: seq<string>)
    requires |xs| > 0
    ensures var ts := Interleave(TOr, xs);
      OrTail(ts, 1, Leaf(xs[0])) == Ok((Chain(OrOp, xs), |ts|))
  {
    ChainOfFirst(OrOp, xs);
    OrTailChain(xs, 0);
  }

  /** The first of the interleaved texts is read as a leaf. */
  lemma AtomFirst(op: Token, xs: seq<string>)
    requires |xs| > 0
    ensures Atom(Interleave(op, xs), 0) == Ok((Leaf(xs[0]), 1))
  {
    assert Interleave(op, xs)[2 * 0] == TText(xs[0]);
  }

  /** The chain of the first text alone is its leaf. */
  lemma ChainOfFirst(op: Op, xs: seq<string>)
    requires |xs| > 0
    ensures Chain(op, xs[..0 + 1]) == Leaf(xs[0])
  {
    assert xs[..0 + 1] == [xs[0]];
  }

  /** A whole token sequence read by one disjunction is that expression. */
  lemma ParseTokensOf(ts: seq<Token>)
    requires ParseOr(ts, 0).Ok? && ParseOr(ts, 0).value.1 == |ts|
    ensures ParseTokens(ts) == Ok(ParseOr(ts, 0).value.0)
  {
  }

  /** A disjunction starts with a conjunction. */
  lemma ParseOrOf(ts: seq<Token>, k: nat)
    requires ParseAnd(ts, k).Ok?
    ensures ParseOr(ts, k) == OrTail(ts, ParseAnd(ts, k).value.1, ParseAnd(ts, k).value.0)
  {
  }

  /** A conjunction starts with an atom. */
  lemma ParseAndOf(ts: seq<Token>, k: nat)
    requires Atom(ts, k).Ok?
    ensures ParseAnd(ts, k) == AndTail(ts, Atom(ts, k).value.1, Atom(ts, k).value.0)
  {
  }

  /** At the end, or before `|`, a conjunction stops; at the end a disjunction stops too. */
  lemma TailsStop(ts: seq<Token>, j: nat, left: Skel)
    requires j <= |ts| && (j == |ts| || ts[j] == TOr)
    ensures AndTail(ts, j, left) == Ok((left, j))
    ensures j == |ts| ==> OrTail(ts, j, left) == Ok((left, j))
  {
  }

  /** Texts joined by `&` or `|` parse as the chain of their stripped selves. */
  lemma ParseJoin(op: Op, ps: seq<string>)
    requires |ps| > 0 && forall k :: 0 <= k < |ps| ==> NoOperators(ps[k]) && |Strip(ps[k])| > 0
    ensures ParseSkeleton(Join(ps, [OpChar(op)])) == Ok(Chain(op, Strips(ps)))
  {
    var strips := Strips(ps);
    LexJoin(op, ps);
    if op == AndOp {
      ParseAndChain(strips);
    } else {
      ParseOrChain(strips);
    }
  }

  // ---------------------------------------------------------------------------
  // Evaluation over columns

  /** A column of per-event booleans, missing where the observable was missing; or one list per event. */
  datatype Column = Flat(cells: seq<Option<bool>>) | Jagged(rows: seq<seq<Option<bool>>>)

  datatype Op = AndOp | OrOp

  /** One cell of `a & b` or `a | b`: missing when either side is. */
  function Apply(op: Op, x: Option<bool>, y: Option<bool>): (z: Option<bool>)
    ensures z.None? <==> x.None? || y.None?
    ensures z.Some? && op == AndOp ==> (z.value <==> x.value && y.value)
    ensures z.Some? && op == OrOp ==> (z.value <==> x.value || y.value)
  {
    if x.None? || y.None? then None
    else if op == AndOp then Some(x.value && y.value)
    else Some(x.value || y.value)
  }

  function ApplyCells(op: Op, xs: seq<Option<bool>>, ys: seq<Option<bool>>): (zs: seq<Option<bool>>)
    requires |xs| == |ys|
    ensures |zs| == |xs| && forall i :: 0 <= i < |xs| ==> zs[i] == Apply(op, xs[i], ys[i])
  {
    seq(|xs|, i requires 0 <= i < |xs| => Apply(op, xs[i], ys[i]))
  }

  /** Whether two columns have the same layout, so that an elementwise operator applies. */
  predicate SameLayout(a: Column, b: Column) {
    match (a, b)
    case (Flat(xs), Flat(ys)) => |xs| == |ys|
    case (Jagged(xs), Jagged(ys)) => |xs| == |ys| && forall i :: 0 <= i < |xs| ==> |xs[i]| == |ys[i]|
    case _ => false
  }

  /** Elementwise `&` or `|`: ValueError when the layouts differ. */
  function Combine(op: Op, a: Column, b: Column): (r: Result<Column>)
    ensures r.Ok? <==> SameLayout(a, b)
    ensures r.Err? ==> r.error == ValueError
    ensures r.Ok? && a.Flat? ==> (r.value.Flat? && |r.value.cells| == |a.cells|
      && forall i :: 0 <= i < |a.cells| ==> r.value.cells[i] == Apply(op, a.cells[i], b.cells[i]))
    ensures r.Ok? && a.Jagged? ==> (r.value.Jagged? && |r.value.rows| == |a.rows|
      && forall i :: 0 <= i < |a.rows| ==> (|r.value.rows[i]| == |a.rows[i]|
           && forall k :: 0 <= k < |a.rows[i]| ==> r.value.rows[i][k] == Apply(op, a.rows[i][k], b.rows[i][k])))
  {
    if !SameLayout(a, b) then Err(ValueError)
    else match (a, b)
      case (Flat(xs), Flat(ys)) => Ok(Flat(ApplyCells(op, xs, ys)))
      case (Jagged(xs), Jagged(ys)) =>
        Ok(Jagged(seq(|xs|, i requires 0 <= i < |xs| => ApplyCells(op, xs[i], ys[i]))))
  }

  /** The clause texts a skeleton names. */
  function Leaves(sk: Skel): set<string> {
    match sk
    case Leaf(t) => {t}
    case And(l, r) => Leaves(l) + Leaves(r)
    case Or(l, r) => Leaves(l) + Leaves(r)
  }

  /**
   * The expression with each clause replaced by its result: NameError for a clause
   * without a result, ValueError for operands of different layouts.
   */
  function Evaluate(sk: Skel, results: Dict<string, Column>): (r: Result<Column>)
    ensures r.Err? ==> r.error == NameError || r.error == ValueError
    ensures r == Err(NameError) ==> exists t :: t in Leaves(sk) && !HasKey(results, t)
  {
    match sk
    case Leaf(t) =>
      var c := Get(results, t);
      if c.None? then Err(NameError) else Ok(c.value)
    case And(l, r) =>
      var a :- Evaluate(l, results);
      var b :- Evaluate(r, results);
      Combine(AndOp, a, b)
    case Or(l, r) =>
      var a :- Evaluate(l, results);
      var b :- Evaluate(r, results);
      Combine(OrOp, a, b)
  }

  /** `a & b` and `b & a` agree, and so do `a | b` and `b | a`. */
  lemma CombineCommutes(op: Op, a: Column, b: Column)
    ensures Combine(op, a, b) == Combine(op, b, a)
  {
    match (Combine(op, a, b), Combine(op, b, a))
    case (Ok(x), Ok(y)) =>
      if a.Flat? {
        assert x.cells == y.cells;
      } else {
        assert forall i :: 0 <= i < |a.rows| ==> x.rows[i] == y.rows[i];
        assert x.rows == y.rows;
      }
    case _ =>
  }

  // ---------------------------------------------------------------------------
  // After evaluation: `fill_none(..., False)`, `any`/`all` along axis 1, `~` for a veto

  /** `ak.any` of one filled row. */
  function AnyTrue(row: seq<Option<bool>>): (b: bool)
    ensures b <==> exists k :: 0 <= k < |row| && row[k] == Some(true)
  {
    if |row| == 0 then false
    else row[0] == Some(true) || (assert forall k :: 1 <= k < |row| ==> row[k] == row[1..][k - 1]; AnyTrue(row[1..]))
  }

  /** `ak.all` of one filled row: true of an empty row. */
  function AllTrue(row: seq<Option<bool>>): (b: bool)
    ensures b <==> forall k :: 0 <= k < |row| ==> row[k] == Some(true)
  {
    if |row| == 0 then true
    else row[0] == Some(true) && (assert forall k :: 1 <= k < |row| ==> row[k] == row[1..][k - 1]; AllTrue(row[1..]))
  }

  /** The final per-event booleans. */
  function Finish(c: Column, isAny: bool, isVeto: bool): (v: seq<bool>) {
    var passed := match c
      case Flat(xs) => seq(|xs|, i requires 0 <= i < |xs| => xs[i] == Some(true))
      case Jagged(xs) => seq(|xs|, i requires 0 <= i < |xs| => if isAny then AnyTrue(xs[i]) else AllTrue(xs[i]));
    if isVeto then seq(|passed|, i requires 0 <= i < |passed| => !passed[i]) else passed
  }

  /** A flat column: an event passes when its cell is true; a missing cell fails. */
  lemma FinishFlat(xs: seq<Option<bool>>, isAny: bool)
    ensures var v := Finish(Flat(xs), isAny, false);
      |v| == |xs| && forall i :: 0 <= i < |xs| ==> (v[i] <==> xs[i] == Some(true))
  {
  }

  /** A jagged column under `any`: an event passes when one of its cells is true. */
  lemma FinishAny(xs: seq<seq<Option<bool>>>)
    ensures var v := Finish(Jagged(xs), true, false);
      |v| == |xs| && forall i :: 0 <= i < |xs| ==> (v[i] <==> exists k :: 0 <= k < |xs[i]| && xs[i][k] == Some(true))
  {
  }

  /** A jagged column otherwise: an event passes when all of its cells are true, which an empty list is. */
  lemma FinishAll(xs: seq<seq<Option<bool>>>)
    ensures var v := Finish(Jagged(xs), false, false);
      |v| == |xs| && forall i :: 0 <= i < |xs| ==> (v[i] <==> forall k :: 0 <= k < |xs[i]| ==> xs[i][k] == Some(true))
  {
  }

  /** A veto selects exactly the events the same cut without `veto` rejects. */
  lemma FinishVeto(c: Column, isAny: bool)
    ensures var v := Finish(c, isAny, true);
      var w := Finish(c, isAny, false);
      |v| == |w| && forall i :: 0 <= i < |v| ==> v[i] == !w[i]
  {
  }
}
