/**
 * `Cut` (hml/approaches/cuts/cut.py): a textual cut such as
 * `veto 10 < Jet0.PT < 100 and MissingET0.MET > 20`, split into atomic clauses
 * bound to the observable each one names, then evaluated per event to one
 * boolean. The result of one clause is a parameter, and so is the shape of an
 * observable; Python's `eval` of the combined expression is the skeleton of
 * `CutSkeleton`.
 */
module Cuts {
  import opened Wrappers
  import opened Strings
  import opened Dicts
  import opened CutSkeleton
  import opened CutText

  // ---------------------------------------------------------------------------
  // The observable of a clause: the first match of
  // `\b(?!\d+\b)(?!\d*\.\d+\b)\S+\b`, with `\w` and `\d` read as ASCII

  /** Whether `s[i]` exists and is a word character. */
  predicate WordAt(s: string, i: int) {
    0 <= i < |s| && IsWordChar(s[i])
  }

  /** `\b` at position `i`: a word character on exactly one side. */
  predicate BoundaryAt(s: string, i: int) {
    WordAt(s, i - 1) != WordAt(s, i)
  }

  /**
   * `(?=\d+\b)` at `p`: the digit run starting there is not empty and ends at a
   * boundary. Inside a run of digits there is no boundary, so the whole run is the
   * only candidate.
   */
  predicate IntegerAhead(s: string, p: nat)
    requires p <= |s|
  {
    var d := DigitRun(s[p..]);
    d > 0 && BoundaryAt(s, p + d)
  }

  /** `(?=\d*\.\d+\b)` at `p`: the digit run there, a period, then a non-empty digit run ending at a boundary. */
  predicate FloatAhead(s: string, p: nat)
    requires p <= |s|
  {
    var d := DigitRun(s[p..]);
    p + d < |s| && s[p + d] == '.' &&
    var e := DigitRun(s[p + d + 1..]);
    e > 0 && BoundaryAt(s, p + d + 1 + e)
  }

  /** The greatest `q` with `lo < q <= hi` and a boundary at `q`: where `\S+\b` stops after backtracking. */
  function LastBoundary(s: string, lo: nat, hi: nat): (q: Option<nat>)
    requires lo <= hi <= |s|
    ensures q.Some? ==> lo < q.value <= hi && BoundaryAt(s, q.value)
    ensures q.Some? ==> forall j :: q.value < j <= hi ==> !BoundaryAt(s, j)
    ensures q.None? ==> forall j :: lo < j <= hi ==> !BoundaryAt(s, j)
    decreases hi
  {
    if hi == lo then None
    else if BoundaryAt(s, hi) then Some(hi)
    else LastBoundary(s, lo, hi - 1)
  }

  /** The end of the match that starts at `p`, if one does. */
  function MatchAt(s: string, p: nat): (q: Option<nat>)
    requires p <= |s|
    ensures q.Some? ==> p < q.value <= |s| && NoSpaces(s[p..q.value]) && BoundaryAt(s, p) && BoundaryAt(s, q.value)
  {
    if BoundaryAt(s, p) && !IntegerAhead(s, p) && !FloatAhead(s, p) then
      var run := NonSpaceRun(s[p..]);
      var q := LastBoundary(s, p, p + run);
      if q.Some? then
        assert s[p..q.value] == s[p..][..run][..q.value - p];
        q
      else None
    else None
  }

  /** The first match at or after `p`, scanning left to right as `re.findall` does. */
  function FirstMatch(s: string, p: nat): (r: Option<(nat, nat)>)
    requires p <= |s|
    ensures r.Some? ==> p <= r.value.0 < r.value.1 <= |s| && MatchAt(s, r.value.0) == Some(r.value.1)
    ensures r.Some? ==> forall j :: p <= j < r.value.0 ==> MatchAt(s, j).None?
    ensures r.None? ==> forall j :: p <= j <= |s| ==> MatchAt(s, j).None?
    decreases |s| - p
  {
    match MatchAt(s, p)
    case Some(q) => Some((p, q))
    case None => if p == |s| then None else FirstMatch(s, p + 1)
  }

  /** `re.findall(obs_pattern, cut)[0]`: IndexError when nothing matches. */
  function ObservableToken(cut: string): (r: Result<string>)
    ensures r.Err? <==> forall j :: 0 <= j <= |cut| ==> MatchAt(cut, j).None?
    ensures r.Err? ==> r.error == IndexError
    ensures r.Ok? ==> |r.value| > 0 && NoSpaces(r.value) && Contains(cut, r.value)
  {
    match FirstMatch(cut, 0)
    case None => Err(IndexError)
    case Some((p, q)) =>
      ContainsAt(cut, cut[p..q], p);
      Ok(cut[p..q])
  }

  // ---------------------------------------------------------------------------
  // `_parse_expression`: the loop over the clauses

  /** The two half-clauses `left + obs` and `obs + right`, when no piece of `cut.split(obs)` is empty. */
  function Halves(cut: string, obs: string): (r: Option<(string, string)>)
    requires |obs| > 0 && Contains(cut, obs)
    ensures r.Some? <==> "" !in SplitOn(cut, obs)
    ensures r.Some? ==> |r.value.0| > |obs| && r.value.0[|r.value.0| - |obs|..] == obs
    ensures r.Some? ==> |r.value.1| > |obs| && r.value.1[..|obs|] == obs
  {
    var pieces := SplitOn(cut, obs);
    if "" !in pieces then Some((pieces[0] + obs, obs + pieces[1])) else None
  }

  /**
   * One clause of the loop: a clause bounded on both sides becomes its two halves,
   * both bound to its observable, and is replaced in the expression by
   * `(a & b)`; any other clause is bound to its observable as it is.
   */
  function CutStep(cuts: Dict<string, string>, expr: string, cut: string): (r: Result<(Dict<string, string>, string)>)
    ensures r.Err? <==> ObservableToken(cut).Err?
    ensures r.Err? ==> r.error == IndexError
  {
    var obs :- ObservableToken(cut);
    assert IndexOf(cut, obs).Some?;
    match Halves(cut, obs)
    case Some((a, b)) => Ok((Set(Set(cuts, a, obs), b, obs), ReplaceAll(expr, cut, "(" + a + " & " + b + ")")))
    case None => Ok((Set(cuts, cut, obs), expr))
  }

  /** The loop over the clauses, stopping at the first clause without an observable. */
  function CutSteps(expr: string, cuts: seq<string>): (r: Result<(Dict<string, string>, string)>)
    ensures r.Err? ==> r.error == IndexError
  {
    if |cuts| == 0 then Ok(([], expr))
    else
      var (d, e) :- CutSteps(expr, cuts[..|cuts| - 1]);
      CutStep(d, e, cuts[|cuts| - 1])
  }

  /** After clauses that all have an observable, the next step fails exactly when the last clause has none. */
  lemma LastStep(expr: string, cuts: seq<string>)
    requires |cuts| > 0 && CutSteps(expr, cuts[..|cuts| - 1]).Ok?
    ensures CutSteps(expr, cuts).Err? <==> ObservableToken(cuts[|cuts| - 1]).Err?
  {
  }

  /** A failure in the clauses before the last is a failure of the loop. */
  lemma InitFails(expr: string, cuts: seq<string>)
    requires |cuts| > 0 && CutSteps(expr, cuts[..|cuts| - 1]).Err?
    ensures CutSteps(expr, cuts).Err?
  {
  }

  /** Every clause has an observable when those before the last and the last one do. */
  lemma AllTokens(cuts: seq<string>, init: seq<string>)
    requires |cuts| > 0 && init == cuts[..|cuts| - 1]
    requires forall k :: 0 <= k < |init| ==> ObservableToken(init[k]).Ok?
    requires ObservableToken(cuts[|cuts| - 1]).Ok?
    ensures forall k :: 0 <= k < |cuts| ==> ObservableToken(cuts[k]).Ok?
  {
    assert forall k :: 0 <= k < |init| ==> init[k] == cuts[k];
  }

  /** The loop fails exactly when some clause has no observable. */
  lemma {:induction false} CutStepsFail(expr: string, cuts: seq<string>)
    ensures CutSteps(expr, cuts).Err? <==> exists k :: 0 <= k < |cuts| && ObservableToken(cuts[k]).Err?
  {
    if |cuts| > 0 {
      var init := cuts[..|cuts| - 1];
      CutStepsFail(expr, init);
      if CutSteps(expr, init).Err? {
        InitFails(expr, cuts);
        var k :| 0 <= k < |init| && ObservableToken(init[k]).Err?;
        assert init[k] == cuts[k];
      } else {
        LastStep(expr, cuts);
        if ObservableToken(cuts[|cuts| - 1]).Ok? {
          AllTokens(cuts, init);
        }
      }
    }
  }

  /** One step keeps the clauses distinct keys of the dict. */
  lemma CutStepDistinct(cuts: Dict<string, string>, expr: string, cut: string)
    requires DistinctKeys(cuts) && CutStep(cuts, expr, cut).Ok?
    ensures DistinctKeys(CutStep(cuts, expr, cut).value.0)
  {
    var obs := ObservableToken(cut).value;
    assert IndexOf(cut, obs).Some?;
    match Halves(cut, obs)
    case Some((a, b)) =>
      SetKeepsDistinct(cuts, a, obs);
      SetKeepsDistinct(Set(cuts, a, obs), b, obs);
    case None =>
      SetKeepsDistinct(cuts, cut, obs);
  }

  /** No clause is a key of the dict twice. */
  lemma {:induction false} CutStepsDistinct(expr: string, cuts: seq<string>)
    requires CutSteps(expr, cuts).Ok?
    ensures DistinctKeys(CutSteps(expr, cuts).value.0)
  {
    if |cuts| > 0 {
      var init := cuts[..|cuts| - 1];
      CutStepsDistinct(expr, init);
      var (d, e) := CutSteps(expr, init).value;
      CutStepDistinct(d, e, cuts[|cuts| - 1]);
    }
  }

  /** The loop over one more clause is one more step. */
  lemma CutStepsNext(expr: string, cuts: seq<string>, k: nat)
    requires k < |cuts| && CutSteps(expr, cuts[..k]).Ok?
    ensures CutSteps(expr, cuts[..k + 1])
      == CutStep(CutSteps(expr, cuts[..k]).value.0, CutSteps(expr, cuts[..k]).value.1, cuts[k])
  {
    assert cuts[..k + 1][..k] == cuts[..k];
  }

  /** A failure in the first `k` clauses is the failure of the whole loop. */
  lemma CutStepsStops(expr: string, cuts: seq<string>, k: nat)
    requires k <= |cuts| && CutSteps(expr, cuts[..k]).Err?
    ensures CutSteps(expr, cuts) == Err(IndexError)
  {
    CutStepsFail(expr, cuts[..k]);
    var j :| 0 <= j < k && ObservableToken(cuts[..k][j]).Err?;
    assert cuts[j] == cuts[..k][j];
    CutStepsFail(expr, cuts);
  }

  /** What `_parse_expression` leaves in the fields. */
  datatype Parsed = Parsed(isVeto: bool, isAny: bool, cuts: Dict<string, string>, expr: string)

  function ParseExpression(expression: string): (r: Result<Parsed>)
    ensures r.Ok? ==> DistinctKeys(r.value.cuts)
    ensures r.Ok? ==> r.value.isVeto == Prefixes(expression).0 && r.value.isAny == Prefixes(expression).1
    ensures var cs := Clauses(Rewrite(Prefixes(expression).2));
      r.Err? <==> exists k :: 0 <= k < |cs| && ObservableToken(cs[k]).Err?
    ensures r.Err? ==> r.error == IndexError
  {
    var (isVeto, isAny, e) := Prefixes(expression);
    var rewritten := Rewrite(e);
    var steps := CutSteps(rewritten, Clauses(rewritten));
    CutStepsFail(rewritten, Clauses(rewritten));
    if steps.Err? then Err(IndexError)
    else
      CutStepsDistinct(rewritten, Clauses(rewritten));
      Ok(Parsed(isVeto, isAny, steps.value.0, steps.value.1))
  }

  // ---------------------------------------------------------------------------
  // `read`, once the clause results are known

  /** `len(set(shapes)) == 1` over the observables the clauses name. */
  predicate OneShape(observables: seq<string>, shape: string -> string) {
    |set o | o in observables :: shape(o)| == 1
  }

  /** The result of each clause, keyed by the clause, in the order of the clause dict. */
  function ClauseResults(cuts: Dict<string, string>, evalClause: (string, string) -> Column): (rs: Dict<string, Column>)
    ensures Keys(rs) == Keys(cuts)
    ensures |rs| == |cuts| && forall i :: 0 <= i < |cuts| ==> rs[i] == (cuts[i].0, evalClause(cuts[i].0, cuts[i].1))
  {
    var rs := seq(|cuts|, i requires 0 <= i < |cuts| => (cuts[i].0, evalClause(cuts[i].0, cuts[i].1)));
    assert forall i :: 0 <= i < |cuts| ==> Keys(rs)[i] == Keys(cuts)[i];
    rs
  }

  /**
   * `read` from the parsed fields: ValueError unless the observables share one
   * shape, then the expression over the clause results, nulls made False, the
   * inner axis reduced with `any` or `all`, and the veto applied.
   */
  function ReadValue(p: Parsed, evalClause: (string, string) -> Column, shape: string -> string): (r: Result<seq<bool>>)
    ensures !OneShape(Values(p.cuts), shape) ==> r == Err(ValueError)
    ensures r.Err? ==> r.error == ValueError || r.error == SyntaxError || r.error == NameError
  {
    if !OneShape(Values(p.cuts), shape) then Err(ValueError)
    else
      var skeleton :- ParseSkeleton(p.expr);
      var column :- Evaluate(skeleton, ClauseResults(p.cuts, evalClause));
      Ok(Finish(column, p.isAny, p.isVeto))
  }

  /** The body of the loop for a clause whose observable is `obs`. */
  method OneClause(d: Dict<string, string>, ex: string, cut: string, obs: string)
    returns (d': Dict<string, string>, ex': string)
    requires ObservableToken(cut) == Ok(obs)
    ensures CutStep(d, ex, cut) == Ok((d', ex'))
  {
    assert IndexOf(cut, obs).Some?;
    var pieces := SplitOn(cut, obs);
    if "" !in pieces {
      var a := pieces[0] + obs;
      var b := obs + pieces[1];
      assert Halves(cut, obs) == Some((a, b));
      d' := Set(Set(d, a, obs), b, obs);
      ex' := ReplaceAll(ex, cut, "(" + a + " & " + b + ")");
    } else {
      assert Halves(cut, obs) == None;
      d' := Set(d, cut, obs);
      ex' := ex;
    }
  }

  /** The loop of `_parse_expression` over the clauses, filling the dict and rewriting the expression. */
  method ClauseLoop(e: string, clauses: seq<string>) returns (r: Result<(Dict<string, string>, string)>)
    ensures r == CutSteps(e, clauses)
  {
    var d: Dict<string, string> := [];
    var ex := e;
    var i := 0;
    assert clauses[..0] == [];
    while i < |clauses|
      invariant 0 <= i <= |clauses|
      invariant CutSteps(e, clauses[..i]) == Ok((d, ex))
    {
      var cut := clauses[i];
      var obs := ObservableToken(cut);
      if obs.Err? {
        assert clauses[..i + 1][i] == cut;
        CutStepsStops(e, clauses, i + 1);
        return Err(IndexError);
      }
      CutStepsNext(e, clauses, i);
      var o := obs.value;
      var d', ex' := OneClause(d, ex, cut, o);
      d, ex := d', ex';
      i := i + 1;
    }
    assert clauses[..i] == clauses;
    return Ok((d, ex));
  }

  // ---------------------------------------------------------------------------
  // The class

  class Cut {
    const expression: string
    var isVeto: bool
    var isAny: bool
    var cuts: Dict<string, string>
    var expr: string
    var value: Option<seq<bool>>

    /** The object before `_parse_expression` has run. */
    constructor(expression: string)
      ensures this.expression == expression
      ensures !isVeto && !isAny && cuts == [] && expr == "" && value == None
    {
      this.expression := expression;
      isVeto := false;
      isAny := false;
      cuts := [];
      expr := "";
      value := None;
    }

    function State(): Parsed
      reads this
    {
      Parsed(isVeto, isAny, cuts, expr)
    }

    /**
     * `_parse_expression`: the flags, the rewritten expression, then one dict entry
     * per half-clause or clause, stopping with IndexError at the first clause
     * without an observable.
     */
    method Parse() returns (r: Outcome)
      modifies this`isVeto, this`isAny, this`cuts, this`expr
      ensures ParseExpression(expression).Ok? ==> r == Pass && State() == ParseExpression(expression).value
      ensures ParseExpression(expression).Err? ==> r == Fail(IndexError)
    {
      var e := Strip(expression);
      isVeto := false;
      if StartsWith(e, "veto") {
        isVeto := true;
        e := Strip(ReplaceAll(e, "veto", ""));
      }
      isAny := false;
      if StartsWith(e, "any") {
        isAny := true;
        e := Strip(ReplaceAll(e, "any", ""));
      }
      assert (isVeto, isAny, e) == Prefixes(expression);
      e := Rewrite(e);
      var steps := ClauseLoop(e, Clauses(e));
      if steps.Err? {
        return Fail(IndexError);
      }
      cuts, expr := steps.value.0, steps.value.1;
      return Pass;
    }

    /**
     * `read`: each clause evaluated, then ValueError unless the observables share one
     * shape, then the combined value stored.
     */
    method Read(evalClause: (string, string) -> Column, shape: string -> string) returns (r: Outcome)
      modifies this`value
      ensures ReadValue(State(), evalClause, shape).Ok? ==>
        r == Pass && value == Some(ReadValue(State(), evalClause, shape).value)
      ensures ReadValue(State(), evalClause, shape).Err? ==>
        r == Fail(ReadValue(State(), evalClause, shape).error) && value == old(value)
    {
      var results: Dict<string, Column> := [];
      var i := 0;
      while i < |cuts|
        invariant 0 <= i <= |cuts|
        invariant |results| == i
        invariant forall j :: 0 <= j < i ==> results[j] == (cuts[j].0, evalClause(cuts[j].0, cuts[j].1))
      {
        var (cut, obs) := cuts[i];
        results := results + [(cut, evalClause(cut, obs))];
        i := i + 1;
      }
      assert results == ClauseResults(cuts, evalClause);
      var shapes := set o | o in Values(cuts) :: shape(o);
      if |shapes| != 1 {
        return Fail(ValueError);
      }
      var skeleton := ParseSkeleton(expr);
      if skeleton.Err? {
        return Fail(skeleton.error);
      }
      var column := Evaluate(skeleton.value, results);
      if column.Err? {
        return Fail(column.error);
      }
      value := Some(Finish(column.value, isAny, isVeto));
      return Pass;
    }
  }

  /** `Cut(expression)`: the object with its clauses parsed, or the IndexError `_parse_expression` raises. */
  method NewCut(expression: string) returns (r: Result<Cut>)
    ensures ParseExpression(expression).Err? ==> r == Err(IndexError)
    ensures ParseExpression(expression).Ok? ==>
      (r.Ok? && fresh(r.value) && r.value.expression == expression
       && r.value.State() == ParseExpression(expression).value && r.value.value == None)
  {
    var c := new Cut(expression);
    var outcome := c.Parse();
    if outcome.Fail? {
      return Err(IndexError);
    }
    return Ok(c);
  }

  // ---------------------------------------------------------------------------
  // Properties

  /** `set(shapes)` has one element exactly when there is an observable and all shapes agree. */
  lemma OneShapeAgree(observables: seq<string>, shape: string -> string)
    ensures OneShape(observables, shape) <==>
      |observables| > 0 && forall i :: 0 <= i < |observables| ==> shape(observables[i]) == shape(observables[0])
  {
    var s := set o | o in observables :: shape(o);
    if |observables| == 0 {
      assert s == {};
    } else {
      var x := shape(observables[0]);
      assert x in s;
      if forall i :: 0 <= i < |observables| ==> shape(observables[i]) == x {
        assert s == {x};
      }
      if |s| == 1 {
        assert |s - {x}| == 0;
        assert s - {x} == {};
        forall i | 0 <= i < |observables|
          ensures shape(observables[i]) == x
        {
          assert shape(observables[i]) in s;
        }
      }
    }
  }

  /** A veto passes exactly the events the same cut without it rejects, and fails where it fails. */
  lemma ReadVeto(isAny: bool, cuts: Dict<string, string>, expr: string, evalClause: (string, string) -> Column, shape: string -> string)
    ensures var v := ReadValue(Parsed(true, isAny, cuts, expr), evalClause, shape);
      var w := ReadValue(Parsed(false, isAny, cuts, expr), evalClause, shape);
      (v.Ok? <==> w.Ok?) && (v.Err? ==> v == w)
      && (v.Ok? ==> |v.value| == |w.value| && forall i :: 0 <= i < |v.value| ==> v.value[i] == !w.value[i])
  {
    var w := ReadValue(Parsed(false, isAny, cuts, expr), evalClause, shape);
    if w.Ok? {
      var column := Evaluate(ParseSkeleton(expr).value, ClauseResults(cuts, evalClause)).value;
      FinishVeto(column, isAny);
    }
  }

  /** A position after which a match can start: the start of the text, or after a non-word character. */
  predicate OpenBefore(s: string, p: nat)
    requires p <= |s|
  {
    p == 0 || !IsWordChar(s[p - 1])
  }

  /** A name usable as an observable: a letter first, a word character last, no whitespace. */
  predicate NameLike(name: string) {
    |name| > 0 && IsLetter(name[0]) && IsWordChar(name[|name| - 1]) && NoSpaces(name)
  }

  /** The non-whitespace run starting at a name followed by whitespace (or the end) stops at the name's end. */
  lemma {:induction false} NonSpaceRunOfName(name: string, rest: string)
    requires NoSpaces(name) && (rest == "" || IsSpace(rest[0]))
    ensures NonSpaceRun(name + rest) == |name|
    decreases |name|
  {
    if |name| == 0 {
      assert name + rest == rest;
    } else {
      assert (name + rest)[1..] == name[1..] + rest;
      NonSpaceRunOfName(name[1..], rest);
    }
  }

  /** A name that starts after a non-word character and ends before whitespace or the end is matched whole. */
  lemma MatchOfName(s: string, p: nat, name: string)
    requires p + |name| <= |s| && s[p..p + |name|] == name && NameLike(name) && OpenBefore(s, p)
    requires p + |name| == |s| || IsSpace(s[p + |name|])
    ensures MatchAt(s, p) == Some(p + |name|)
  {
    var t := s[p..];
    var rest := s[p + |name|..];
    assert t == name + rest;
    assert s[p] == name[0];
    assert s[p + |name| - 1] == name[|name| - 1];
    assert !IsDigit(t[0]);
    assert DigitRun(t) == 0;
    NonSpaceRunOfName(name, rest);
    assert BoundaryAt(s, p + |name|);
  }

  /** The leftmost match: when none starts in `[p, q)` and one starts at `q`, `FirstMatch` from `p` finds it. */
  lemma FirstMatchIs(s: string, p: nat, q: nat, e: nat)
    requires p <= q <= |s| && forall j :: p <= j < q ==> MatchAt(s, j).None?
    requires MatchAt(s, q) == Some(e)
    ensures FirstMatch(s, p) == Some((q, e))
  {
  }

  /** A clause that starts with an observable's name, such as `Jet0.PT > 100`, binds that name. */
  lemma TokenOfLeadingName(name: string, rest: string)
    requires NameLike(name) && (rest == "" || IsSpace(rest[0]))
    ensures ObservableToken(name + rest) == Ok(name)
  {
    var s := name + rest;
    assert s[0..|name|] == name;
    MatchOfName(s, 0, name);
  }

  /**
   * No match starts inside or just after a run of digits `s[m..n]` that follows a
   * non-word character (or the start) and ends at whitespace or at the end.
   */
  lemma NumberHasNoMatch(s: string, m: nat, n: nat, j: nat)
    requires m < n <= |s| && AllDigits(s[m..n]) && m <= j <= n
    requires m == 0 || !IsWordChar(s[m - 1])
    requires n == |s| || IsSpace(s[n])
    ensures MatchAt(s, j).None?
  {
    if j < n {
      if j > m {
        assert IsDigit(s[m..n][j - 1 - m]) && IsDigit(s[m..n][j - m]);
        assert s[j - 1] == s[m..n][j - 1 - m] && s[j] == s[m..n][j - m];
        assert !BoundaryAt(s, j);
      } else {
        assert s[m..] == s[m..n] + s[n..];
        DigitRunOfDigits(s[m..n], s[n..]);
        assert s[n - 1] == s[m..n][n - 1 - m];
        assert BoundaryAt(s, n);
      }
    } else {
      assert DigitRun(s[n..]) == 0;
      assert NonSpaceRun(s[n..]) == 0;
    }
  }

  /** A clause made of a number alone has no observable: IndexError. */
  lemma NumberHasNoToken(num: string)
    requires |num| > 0 && AllDigits(num)
    ensures ObservableToken(num) == Err(IndexError)
  {
    assert num[0..|num|] == num;
    forall j | 0 <= j <= |num|
      ensures MatchAt(num, j).None?
    {
      NumberHasNoMatch(num, 0, |num|, j);
    }
  }

  /** An operator of symbols, such as `<`, `>=` or `==`. */
  predicate Symbols(op: string) {
    |op| > 0 && forall i :: 0 <= i < |op| ==> !IsWordChar(op[i]) && !IsSpace(op[i])
  }

  /** No match starts inside ` op `, the symbols between a number and a name. */
  lemma OperatorHasNoMatch(s: string, n: nat, op: string, j: nat)
    requires n + |op| + 2 <= |s| && Symbols(op) && n < j < n + |op| + 2
    requires s[n] == ' ' && s[n + 1 + |op|] == ' '
    requires forall i :: 0 <= i < |op| ==> s[n + 1 + i] == op[i]
    ensures MatchAt(s, j).None?
  {
    if j - 1 > n { assert s[j - 1] == op[j - 2 - n]; }
    if j < n + 1 + |op| { assert s[j] == op[j - 1 - n]; }
    assert !IsWordChar(s[j - 1]) && !IsWordChar(s[j]);
  }

  /** The half-clause `10 < Jet0.PT` binds the name after the number and the operator. */
  lemma TokenAfterNumber(num: string, op: string, name: string, rest: string)
    requires |num| > 0 && AllDigits(num) && Symbols(op) && NameLike(name)
    requires rest == "" || IsSpace(rest[0])
    ensures ObservableToken(num + " " + op + " " + name + rest) == Ok(name)
  {
    var s := num + " " + op + " " + name + rest;
    var n := |num|;
    var start := n + |op| + 2;
    assert s[0..n] == num;
    assert s[n] == ' ' && s[n + 1 + |op|] == ' ';
    assert forall i :: 0 <= i < |op| ==> s[n + 1 + i] == op[i];
    forall j | 0 <= j < start
      ensures MatchAt(s, j).None?
    {
      if j <= n {
        NumberHasNoMatch(s, 0, n, j);
      } else {
        OperatorHasNoMatch(s, n, op, j);
      }
    }
    assert s[start..start + |name|] == name;
    assert s[start - 1] == ' ';
    MatchOfName(s, start, name);
    FirstMatchIs(s, 0, start, start + |name|);
  }

  /** The half-clause `-2 < Jet0.Phi` binds the name after the signed number and the operator. */
  lemma TokenAfterNegative(num: string, op: string, name: string, rest: string)
    requires |num| > 0 && AllDigits(num) && Symbols(op) && NameLike(name)
    requires rest == "" || IsSpace(rest[0])
    ensures ObservableToken("-" + num + " " + op + " " + name + rest) == Ok(name)
  {
    var s := "-" + num + " " + op + " " + name + rest;
    var n := |num| + 1;
    var start := n + |op| + 2;
    assert s[1..n] == num;
    assert s[0] == '-' && s[n] == ' ' && s[n + 1 + |op|] == ' ';
    assert forall i :: 0 <= i < |op| ==> s[n + 1 + i] == op[i];
    forall j | 0 <= j < start
      ensures MatchAt(s, j).None?
    {
      if j == 0 {
        assert !BoundaryAt(s, 0);
      } else if j <= n {
        NumberHasNoMatch(s, 1, n, j);
      } else {
        OperatorHasNoMatch(s, n, op, j);
      }
    }
    assert s[start..start + |name|] == name;
    assert s[start - 1] == ' ';
    MatchOfName(s, start, name);
    FirstMatchIs(s, 0, start, start + |name|);
  }

  // ---------------------------------------------------------------------------
  // What the parse builds

  /** A clause with text on both sides of its observable splits into `left + obs` and `obs + right`. */
  lemma HalvesOfBounded(l: string, obs: string, r: string)
    requires |obs| > 0 && |l| > 0 && |r| > 0 && OccursOnlyAt(l + obs + r, obs, |l|)
    ensures Contains(l + obs + r, obs)
    ensures Halves(l + obs + r, obs) == Some((l + obs, obs + r))
  {
    ContainsAt(l + obs + r, obs, |l|);
    SplitOnUnique(l, obs, r);
  }

  /** A clause that starts with its observable does not split. */
  lemma HalvesOfLeading(obs: string, r: string)
    requires |obs| > 0
    ensures Contains(obs + r, obs)
    ensures Halves(obs + r, obs) == None
  {
    var s := obs + r;
    assert s[..|obs|] == obs;
    assert IndexOf(s, obs) == Some(0);
    assert SplitOn(s, obs)[0] == "";
  }

  /** A clause that ends with its only occurrence of the observable does not split. */
  lemma HalvesOfTrailing(l: string, obs: string)
    requires |obs| > 0 && OccursOnlyAt(l + obs + "", obs, |l|)
    ensures Contains(l + obs, obs)
    ensures Halves(l + obs, obs) == None
  {
    assert l + obs + "" == l + obs;
    ContainsAt(l + obs, obs, |l|);
    SplitOnUnique(l, obs, "");
  }

  /**
   * A double-bounded clause such as `10 < Jet0.PT < 100` becomes the two keys
   * `10 < Jet0.PT` and `Jet0.PT < 100`, both bound to the observable, and the
   * expression has the clause replaced by `(10 < Jet0.PT & Jet0.PT < 100)`.
   */
  lemma CutStepBounded(d: Dict<string, string>, expr: string, l: string, obs: string, r: string)
    requires ObservableToken(l + obs + r) == Ok(obs)
    requires |l| > 0 && |r| > 0 && OccursOnlyAt(l + obs + r, obs, |l|)
    ensures CutStep(d, expr, l + obs + r)
      == Ok((Set(Set(d, l + obs, obs), obs + r, obs), ReplaceAll(expr, l + obs + r, "(" + (l + obs) + " & " + (obs + r) + ")")))
  {
    HalvesOfBounded(l, obs, r);
  }

  /** A clause that starts with its observable, such as `Jet0.PT > 100`, is a key as it is and leaves the expression alone. */
  lemma CutStepLeading(d: Dict<string, string>, expr: string, obs: string, r: string)
    requires ObservableToken(obs + r) == Ok(obs)
    ensures CutStep(d, expr, obs + r) == Ok((Set(d, obs + r, obs), expr))
  {
    HalvesOfLeading(obs, r);
  }

  /** A clause that ends with its observable, such as `100 < Jet0.PT`, is a key as it is and leaves the expression alone. */
  lemma CutStepTrailing(d: Dict<string, string>, expr: string, l: string, obs: string)
    requires ObservableToken(l + obs) == Ok(obs) && OccursOnlyAt(l + obs + "", obs, |l|)
    ensures CutStep(d, expr, l + obs) == Ok((Set(d, l + obs, obs), expr))
  {
    HalvesOfTrailing(l, obs);
  }

  /** A one-sided clause is a key as it is and leaves the expression alone. */
  lemma CutStepOneSided(d: Dict<string, string>, expr: string, cut: string, obs: string)
    requires ObservableToken(cut) == Ok(obs) && Halves(cut, obs).None?
    ensures CutStep(d, expr, cut) == Ok((Set(d, cut, obs), expr))
  {
  }

  /** The last clause is handled by one step on the result of the others. */
  lemma CutStepsUnfold(expr: string, cuts: seq<string>)
    requires |cuts| > 0 && CutSteps(expr, cuts[..|cuts| - 1]).Ok?
    ensures var p := CutSteps(expr, cuts[..|cuts| - 1]).value;
      CutSteps(expr, cuts) == CutStep(p.0, p.1, cuts[|cuts| - 1])
  {
  }

  /** Binding the last text keeps every earlier binding that agrees with it. */
  lemma GetAfterLast(d: Dict<string, string>, cuts: seq<string>, tokens: seq<string>)
    requires |cuts| > 0 && |tokens| == |cuts|
    requires forall k :: 0 <= k < |cuts| - 1 ==> Get(d, cuts[k]) == Some(tokens[k])
    requires forall k :: 0 <= k < |cuts| - 1 ==> cuts[k] == cuts[|cuts| - 1] ==> tokens[k] == tokens[|cuts| - 1]
    ensures forall k :: 0 <= k < |cuts| ==> Get(Set(d, cuts[|cuts| - 1], tokens[|cuts| - 1]), cuts[k]) == Some(tokens[k])
  {
    forall k | 0 <= k < |cuts|
      ensures Get(Set(d, cuts[|cuts| - 1], tokens[|cuts| - 1]), cuts[k]) == Some(tokens[k])
    {
      GetSet(d, cuts[|cuts| - 1], tokens[|cuts| - 1], cuts[k]);
    }
  }

  /** After `d[k] = v`, the keys are the old ones and `k`. */
  lemma HasKeySet(d: Dict<string, string>, k: string, v: string, j: string)
    ensures HasKey(Set(d, k, v), j) <==> HasKey(d, j) || j == k
  {
    GetSet(d, k, v, j);
  }

  /** One-sided clauses leave the expression as it is and are each bound to their own observable. */
  lemma {:induction false} CutStepsOneSided(expr: string, cuts: seq<string>, tokens: seq<string>)
    requires |tokens| == |cuts|
    requires forall k :: 0 <= k < |cuts| ==> ObservableToken(cuts[k]) == Ok(tokens[k]) && Halves(cuts[k], tokens[k]).None?
    ensures CutSteps(expr, cuts).Ok? && CutSteps(expr, cuts).value.1 == expr
    ensures forall k :: 0 <= k < |cuts| ==> Get(CutSteps(expr, cuts).value.0, cuts[k]) == Some(tokens[k])
    decreases |cuts|
  {
    if |cuts| > 0 {
      var n := |cuts| - 1;
      CutStepsOneSided(expr, cuts[..n], tokens[..n]);
      var d := CutSteps(expr, cuts[..n]).value.0;
      CutStepsUnfold(expr, cuts);
      CutStepOneSided(d, expr, cuts[n], tokens[n]);
      forall k | 0 <= k < n
        ensures Get(d, cuts[k]) == Some(tokens[k]) && (cuts[k] == cuts[n] ==> tokens[k] == tokens[n])
      {
        assert cuts[..n][k] == cuts[k] && tokens[..n][k] == tokens[k];
      }
      GetAfterLast(d, cuts, tokens);
    }
  }


  /** Neither prefix: the expression is only stripped. */
  lemma PrefixesPlain(e: string)
    requires Stripped(e) && NoPrefixWord(e)
    ensures Prefixes(e) == (false, false, e)
  {
    StripOfStripped(e);
  }

  /** An expression without prefixes whose clauses are all one-sided parses to its rewritten text. */
  lemma ParseOfOneSided(e: string, x: string, clauses: seq<string>, tokens: seq<string>)
    requires Prefixes(e) == (false, false, e) && Rewrite(e) == x && Clauses(x) == clauses
    requires |tokens| == |clauses|
    requires forall k :: 0 <= k < |clauses| ==> ObservableToken(clauses[k]) == Ok(tokens[k]) && Halves(clauses[k], tokens[k]).None?
    ensures var r := ParseExpression(e);
      r.Ok? && !r.value.isVeto && !r.value.isAny && r.value.expr == x
      && forall k :: 0 <= k < |clauses| ==> Get(r.value.cuts, clauses[k]) == Some(tokens[k])
  {
    CutStepsOneSided(x, clauses, tokens);
  }

  /** Each clause of a join, stripped, is non-empty when its observable exists. */
  lemma PartsNonEmpty(ps: seq<string>, tokens: seq<string>)
    requires |tokens| == |ps|
    requires forall k :: 0 <= k < |ps| ==> ObservableToken(Strip(ps[k])) == Ok(tokens[k])
    ensures forall k :: 0 <= k < |ps| ==> |ps[k]| > 0 && |Strip(ps[k])| > 0
  {
    forall k | 0 <= k < |ps|
      ensures |ps[k]| > 0 && |Strip(ps[k])| > 0
    {
      assert Contains(Strip(ps[k]), tokens[k]);
    }
  }

  /**
   * An expression without prefixes that rewrites to stripped clauses joined by
   * one operator, each one-sided, parses to those clauses as keys and to the
   * rewritten text, whose skeleton is the chain of the clauses.
   */
  lemma ParseOfJoin(op: Op, sep: string, e: string, ps: seq<string>, tokens: seq<string>)
    requires sep == [OpChar(op)]
    requires |ps| > 0 && |tokens| == |ps| && forall k :: 0 <= k < |ps| ==> NoOperators(ps[k])
    requires Prefixes(e) == (false, false, e) && Rewrite(e) == Join(ps, sep)
    requires Clauses(Join(ps, sep)) == Strips(ps)
    requires forall k :: 0 <= k < |ps| ==> ObservableToken(Strip(ps[k])) == Ok(tokens[k]) && Halves(Strip(ps[k]), tokens[k]).None?
    ensures var r := ParseExpression(e);
      r.Ok? && !r.value.isVeto && !r.value.isAny && r.value.expr == Join(ps, sep)
      && (forall k :: 0 <= k < |ps| ==> Get(r.value.cuts, Strip(ps[k])) == Some(tokens[k]))
      && ParseSkeleton(r.value.expr) == Ok(Chain(op, Strips(ps)))
      && forall t :: t in Leaves(Chain(op, Strips(ps))) ==> HasKey(r.value.cuts, t)
  {
    var strips := Strips(ps);
    PartsNonEmpty(ps, tokens);
    ParseOfOneSided(e, Join(ps, sep), strips, tokens);
    ParseJoin(op, ps);
    assert Join(ps, sep) == Join(ps, [OpChar(op)]);
    LeavesAreKeys(ParseExpression(e).value.cuts, strips, tokens);
  }

  /** The clauses of operator-free parts joined by `&` are the stripped parts. */
  lemma ClausesOfAndJoinStrips(ps: seq<string>)
    requires |ps| > 0 && forall k :: 0 <= k < |ps| ==> NoOperators(ps[k])
    ensures Clauses(Join(ps, "&")) == Strips(ps)
  {
    ClausesOfAndJoin(ps);
    StripsOfPointwise(Clauses(Join(ps, "&")), ps);
  }

  /** The clauses of operator-free parts joined by `|`, with nothing to strip, are the stripped parts. */
  lemma ClausesOfOrJoinStrips(ps: seq<string>, tokens: seq<string>)
    requires |ps| > 0 && |tokens| == |ps| && forall k :: 0 <= k < |ps| ==> NoOperators(ps[k])
    requires forall k :: 0 <= k < |ps| ==> ObservableToken(Strip(ps[k])) == Ok(tokens[k])
    requires Stripped(Join(ps, "or"))
    ensures Clauses(Join(ps, "|")) == Strips(ps)
  {
    PartsNonEmpty(ps, tokens);
    JoinEnds(ps, "or");
    JoinEnds(ps, "|");
    ClausesOfOrJoin(ps);
    StripsOfPointwise(Clauses(Join(ps, "|")), ps);
  }

  /** Clauses joined by `and`: no prefix, the rewrite gives `&`, and the clauses are the stripped parts. */
  lemma AndJoinText(ps: seq<string>, tokens: seq<string>)
    requires |ps| > 0 && |tokens| == |ps|
    requires forall k :: 0 <= k < |ps| ==> NoOperators(ps[k]) && NoConnectives(ps[k])
    requires forall k :: 0 <= k < |ps| ==> ObservableToken(Strip(ps[k])) == Ok(tokens[k])
    requires Stripped(Join(ps, "and")) && NoPrefixWord(Join(ps, "and"))
    ensures var e := Join(ps, "and");
      Prefixes(e) == (false, false, e) && Rewrite(e) == Join(ps, "&") && Clauses(Join(ps, "&")) == Strips(ps)
  {
    PrefixesPlain(Join(ps, "and"));
    RewriteAndJoin(ps);
    ClausesOfAndJoinStrips(ps);
  }

  /** Clauses joined by `or`: no prefix, the rewrite gives `|`, and the clauses are the stripped parts. */
  lemma OrJoinText(ps: seq<string>, tokens: seq<string>)
    requires |ps| > 0 && |tokens| == |ps|
    requires forall k :: 0 <= k < |ps| ==> NoOperators(ps[k]) && NoConnectives(ps[k])
    requires forall k :: 0 <= k < |ps| ==> ObservableToken(Strip(ps[k])) == Ok(tokens[k])
    requires Stripped(Join(ps, "or")) && NoPrefixWord(Join(ps, "or"))
    ensures var e := Join(ps, "or");
      Prefixes(e) == (false, false, e) && Rewrite(e) == Join(ps, "|") && Clauses(Join(ps, "|")) == Strips(ps)
  {
    PrefixesPlain(Join(ps, "or"));
    RewriteOrJoin(ps);
    ClausesOfOrJoinStrips(ps, tokens);
  }

  /**
   * Clauses joined by `and` parse to one key per clause, bound to its observable,
   * and an expression whose skeleton is the conjunction of those keys: every leaf
   * of the skeleton is a key of the clause dict.
   */
  lemma ParseAndOnly(ps: seq<string>, tokens: seq<string>)
    requires |ps| > 0 && |tokens| == |ps|
    requires forall k :: 0 <= k < |ps| ==> NoOperators(ps[k]) && NoConnectives(ps[k])
    requires forall k :: 0 <= k < |ps| ==> ObservableToken(Strip(ps[k])) == Ok(tokens[k]) && Halves(Strip(ps[k]), tokens[k]).None?
    requires Stripped(Join(ps, "and")) && NoPrefixWord(Join(ps, "and"))
    ensures var r := ParseExpression(Join(ps, "and"));
      r.Ok? && !r.value.isVeto && !r.value.isAny && r.value.expr == Join(ps, "&")
      && (forall k :: 0 <= k < |ps| ==> Get(r.value.cuts, Strip(ps[k])) == Some(tokens[k]))
      && ParseSkeleton(r.value.expr) == Ok(Chain(AndOp, Strips(ps)))
      && forall t :: t in Leaves(Chain(AndOp, Strips(ps))) ==> HasKey(r.value.cuts, t)
  {
    var e := Join(ps, "and");
    AndJoinText(ps, tokens);
    ParseOfJoin(AndOp, "&", e, ps, tokens);
  }

  /**
   * Clauses joined by `or` parse to one key per clause, bound to its observable,
   * and an expression whose skeleton is the disjunction of those keys.
   */
  lemma ParseOrOnly(ps: seq<string>, tokens: seq<string>)
    requires |ps| > 0 && |tokens| == |ps|
    requires forall k :: 0 <= k < |ps| ==> NoOperators(ps[k]) && NoConnectives(ps[k])
    requires forall k :: 0 <= k < |ps| ==> ObservableToken(Strip(ps[k])) == Ok(tokens[k]) && Halves(Strip(ps[k]), tokens[k]).None?
    requires Stripped(Join(ps, "or")) && NoPrefixWord(Join(ps, "or"))
    ensures var r := ParseExpression(Join(ps, "or"));
      r.Ok? && !r.value.isVeto && !r.value.isAny && r.value.expr == Join(ps, "|")
      && (forall k :: 0 <= k < |ps| ==> Get(r.value.cuts, Strip(ps[k])) == Some(tokens[k]))
      && ParseSkeleton(r.value.expr) == Ok(Chain(OrOp, Strips(ps)))
      && forall t :: t in Leaves(Chain(OrOp, Strips(ps))) ==> HasKey(r.value.cuts, t)
  {
    var e := Join(ps, "or");
    OrJoinText(ps, tokens);
    ParseOfJoin(OrOp, "|", e, ps, tokens);
  }

  /** Keys bound for every text of a chain cover the chain's leaves. */
  lemma LeavesAreKeys(d: Dict<string, string>, xs: seq<string>, tokens: seq<string>)
    requires |xs| > 0 && |tokens| == |xs|
    requires forall k :: 0 <= k < |xs| ==> Get(d, xs[k]) == Some(tokens[k])
    ensures forall op, t :: t in Leaves(Chain(op, xs)) ==> HasKey(d, t)
  {
    forall op, t | t in Leaves(Chain(op, xs))
      ensures HasKey(d, t)
    {
      var k :| 0 <= k < |xs| && xs[k] == t;
      assert Get(d, xs[k]).Some?;
    }
  }

  /** One clause without prefixes, connectives or padding is its own rewrite and its only clause. */
  lemma PlainClause(cut: string)
    requires |cut| > 0 && Stripped(cut) && NoOperators(cut) && NoConnectives(cut) && NoPrefixWord(cut)
    ensures Prefixes(cut) == (false, false, cut) && Rewrite(cut) == cut && Clauses(cut) == [cut]
  {
    PrefixesPlain(cut);
    assert Join([cut], "and") == cut && Join([cut], "&") == cut;
    RewriteAndJoin([cut]);
    ClausesOfAndJoin([cut]);
    StripOfStripped(cut);
  }

  /** The steps over a single clause are the one step. */
  lemma CutStepsSingle(expr: string, cut: string)
    ensures CutSteps(expr, [cut]) == CutStep([], expr, cut)
  {
    assert [cut][..0] == [];
  }

  /** Without prefixes, the parse is the dict and expression the clause steps give. */
  lemma ParseOfSteps(e: string, d: Dict<string, string>, x: string)
    requires Prefixes(e) == (false, false, e) && CutSteps(Rewrite(e), Clauses(Rewrite(e))) == Ok((d, x))
    ensures ParseExpression(e) == Ok(Parsed(false, false, d, x))
  {
  }

  /** The clause steps over a double-bounded clause. */
  lemma StepsOfBounded(l: string, obs: string, r: string)
    requires ObservableToken(l + obs + r) == Ok(obs)
    requires |l| > 0 && |r| > 0 && OccursOnlyAt(l + obs + r, obs, |l|)
    ensures CutSteps(l + obs + r, [l + obs + r])
      == Ok((Set(Set([], l + obs, obs), obs + r, obs), "(" + (l + obs) + " & " + (obs + r) + ")"))
  {
    var cut := l + obs + r;
    CutStepsSingle(cut, cut);
    CutStepBounded([], cut, l, obs, r);
    ReplaceAllWhole(cut, "(" + (l + obs) + " & " + (obs + r) + ")");
  }

  /** The two halves of a double-bounded clause are plain texts, so the expression reads as their conjunction. */
  lemma SkeletonOfBounded(l: string, obs: string, r: string)
    requires |l| > 0 && |r| > 0 && |obs| > 0 && NoSpaces(obs)
    requires Stripped(l + obs + r) && NoOperators(l + obs + r)
    ensures ParseSkeleton("(" + (l + obs) + " & " + (obs + r) + ")") == Ok(And(Leaf(l + obs), Leaf(obs + r)))
  {
    var cut := l + obs + r;
    assert cut == l + (obs + r);
    assert (l + obs)[0] == cut[0] && (l + obs)[|l + obs| - 1] == obs[|obs| - 1];
    assert (obs + r)[0] == obs[0] && (obs + r)[|obs + r| - 1] == cut[|cut| - 1];
    ParseSplitClause(l + obs, obs + r);
  }

  /**
   * A double-bounded clause `l obs r` parses to the two half-clauses as keys,
   * both bound to the observable, and to the expression `(l obs & obs r)`,
   * whose skeleton is the conjunction of the two keys.
   */
  lemma ParseDoubleBounded(l: string, obs: string, r: string)
    requires ObservableToken(l + obs + r) == Ok(obs)
    requires |l| > 0 && |r| > 0 && OccursOnlyAt(l + obs + r, obs, |l|)
    requires Stripped(l + obs + r) && NoOperators(l + obs + r)
    requires NoConnectives(l + obs + r) && NoPrefixWord(l + obs + r)
    ensures ParseExpression(l + obs + r)
      == Ok(Parsed(false, false, Set(Set([], l + obs, obs), obs + r, obs), "(" + (l + obs) + " & " + (obs + r) + ")"))
    ensures ParseSkeleton("(" + (l + obs) + " & " + (obs + r) + ")") == Ok(And(Leaf(l + obs), Leaf(obs + r)))
  {
    var cut := l + obs + r;
    PlainClause(cut);
    StepsOfBounded(l, obs, r);
    ParseOfSteps(cut, Set(Set([], l + obs, obs), obs + r, obs), "(" + (l + obs) + " & " + (obs + r) + ")");
    SkeletonOfBounded(l, obs, r);
  }

  /** The observable of `10 < Jet0.PT < 100` is `Jet0.PT`. */
  lemma TokenOfTenToHundred(l: string, obs: string, r: string)
    requires l == "10 < " && obs == "Jet0.PT" && r == " < 100"
    ensures ObservableToken(l + obs + r) == Ok(obs)
  {
    assert "10" + " " + "<" + " " + obs + r == l + obs + r;
    assert NameLike(obs) && Symbols("<") && AllDigits("10");
    TokenAfterNumber("10", "<", obs, r);
  }

  /** `Jet0.PT` occurs once in `10 < Jet0.PT < 100`. */
  lemma OccursOnceTenToHundred(l: string, obs: string, r: string)
    requires l == "10 < " && obs == "Jet0.PT" && r == " < 100"
    ensures OccursOnlyAt(l + obs + r, obs, |l|)
  {
    assert obs[0] == 'J' && obs[1..] == "et0.PT";
    OccursOnlyAtFirstChar(l, obs, r);
  }

  /** `10 < Jet0.PT < 100` is stripped and has no connective, parenthesis or prefix letter. */
  lemma CharsOfTenToHundred(cut: string)
    requires cut == "10 < Jet0.PT < 100"
    ensures Stripped(cut) && NoOperators(cut) && 'a' !in cut && 'o' !in cut && 'v' !in cut
  {
  }

  /** The halves of `10 < Jet0.PT < 100`, the dict they make and the expression that joins them. */
  lemma HalvesOfTenToHundred(l: string, obs: string, r: string)
    requires l == "10 < " && obs == "Jet0.PT" && r == " < 100"
    ensures l + obs == "10 < Jet0.PT" && obs + r == "Jet0.PT < 100"
    ensures "(" + (l + obs) + " & " + (obs + r) + ")" == "(10 < Jet0.PT & Jet0.PT < 100)"
    ensures Set(Set([], l + obs, obs), obs + r, obs) == [("10 < Jet0.PT", "Jet0.PT"), ("Jet0.PT < 100", "Jet0.PT")]
  {
    assert l + obs == "10 < Jet0.PT" && obs + r == "Jet0.PT < 100";
    assert Set([], l + obs, obs) == [(l + obs, obs)];
    assert (l + obs)[0] != (obs + r)[0];
    assert !HasKey([(l + obs, obs)], obs + r);
  }

  /** `10 < Jet0.PT < 100` reads as `10 < Jet0.PT` and `Jet0.PT < 100`, both on `Jet0.PT`. */
  lemma ParseTenToHundred(cut: string, expr: string)
    requires cut == "10 < Jet0.PT < 100" && expr == "(10 < Jet0.PT & Jet0.PT < 100)"
    ensures ParseExpression(cut) == Ok(Parsed(false, false, [("10 < Jet0.PT", "Jet0.PT"), ("Jet0.PT < 100", "Jet0.PT")], expr))
    ensures ParseSkeleton(expr) == Ok(And(Leaf("10 < Jet0.PT"), Leaf("Jet0.PT < 100")))
  {
    var l, obs, r := cut[..5], cut[5..12], cut[12..];
    assert l == "10 < " && obs == "Jet0.PT" && r == " < 100";
    assert cut == l + obs + r;
    TokenOfTenToHundred(l, obs, r);
    OccursOnceTenToHundred(l, obs, r);
    CharsOfTenToHundred(cut);
    PlainLetters(cut);
    ParseDoubleBounded(l, obs, r);
    HalvesOfTenToHundred(l, obs, r);
  }

  // ---------------------------------------------------------------------------
  // From the parse to the read

  /** A clause's result is looked up under the clause, with the clause's observable. */
  lemma {:induction false} GetClauseResults(d: Dict<string, string>, evalClause: (string, string) -> Column, k: string)
    ensures Get(ClauseResults(d, evalClause), k)
      == if Get(d, k).Some? then Some(evalClause(k, Get(d, k).value)) else None
    decreases |d|
  {
    var rs := ClauseResults(d, evalClause);
    if |d| > 0 && d[0].0 != k {
      assert rs[1..] == ClauseResults(d[1..], evalClause);
      GetClauseResults(d[1..], evalClause, k);
    }
  }

  /** When every leaf is a key of the clause dict, the read raises neither NameError nor SyntaxError. */
  lemma ReadOfKeyedLeaves(p: Parsed, sk: Skel, evalClause: (string, string) -> Column, shape: string -> string)
    requires ParseSkeleton(p.expr) == Ok(sk)
    requires forall t :: t in Leaves(sk) ==> HasKey(p.cuts, t)
    ensures var r := ReadValue(p, evalClause, shape);
      r.Err? ==> r.error == ValueError
  {
    var rs := ClauseResults(p.cuts, evalClause);
    forall t | t in Leaves(sk)
      ensures HasKey(rs, t)
    {
      GetClauseResults(p.cuts, evalClause, t);
    }
  }

  /** Clauses joined by `and` read without NameError or SyntaxError: only differing layouts fail. */
  lemma ReadAndOnly(ps: seq<string>, tokens: seq<string>, evalClause: (string, string) -> Column, shape: string -> string)
    requires |ps| > 0 && |tokens| == |ps|
    requires forall k :: 0 <= k < |ps| ==> NoOperators(ps[k]) && NoConnectives(ps[k])
    requires forall k :: 0 <= k < |ps| ==> ObservableToken(Strip(ps[k])) == Ok(tokens[k]) && Halves(Strip(ps[k]), tokens[k]).None?
    requires Stripped(Join(ps, "and")) && NoPrefixWord(Join(ps, "and"))
    ensures ParseExpression(Join(ps, "and")).Ok?
    ensures var r := ReadValue(ParseExpression(Join(ps, "and")).value, evalClause, shape);
      r.Err? ==> r.error == ValueError
  {
    ParseAndOnly(ps, tokens);
    ReadOfKeyedLeaves(ParseExpression(Join(ps, "and")).value, Chain(AndOp, Strips(ps)), evalClause, shape);
  }

  /** Clauses joined by `or` read without NameError or SyntaxError: only differing layouts fail. */
  lemma ReadOrOnly(ps: seq<string>, tokens: seq<string>, evalClause: (string, string) -> Column, shape: string -> string)
    requires |ps| > 0 && |tokens| == |ps|
    requires forall k :: 0 <= k < |ps| ==> NoOperators(ps[k]) && NoConnectives(ps[k])
    requires forall k :: 0 <= k < |ps| ==> ObservableToken(Strip(ps[k])) == Ok(tokens[k]) && Halves(Strip(ps[k]), tokens[k]).None?
    requires Stripped(Join(ps, "or")) && NoPrefixWord(Join(ps, "or"))
    ensures ParseExpression(Join(ps, "or")).Ok?
    ensures var r := ReadValue(ParseExpression(Join(ps, "or")).value, evalClause, shape);
      r.Err? ==> r.error == ValueError
  {
    ParseOrOnly(ps, tokens);
    ReadOfKeyedLeaves(ParseExpression(Join(ps, "or")).value, Chain(OrOp, Strips(ps)), evalClause, shape);
  }

  /** An expression that reads as the conjunction of two keyed clauses on one observable. */
  lemma ReadOfPair(p: Parsed, a: string, b: string, obs: string, evalClause: (string, string) -> Column, shape: string -> string)
    requires ParseSkeleton(p.expr) == Ok(And(Leaf(a), Leaf(b))) && !p.isVeto && !p.isAny
    requires Get(p.cuts, a) == Some(obs) && Get(p.cuts, b) == Some(obs) && OneShape(Values(p.cuts), shape)
    ensures ReadValue(p, evalClause, shape)
      == match Combine(AndOp, evalClause(a, obs), evalClause(b, obs))
         case Ok(c) => Ok(Finish(c, false, false))
         case Err(e) => Err(e)
  {
    var rs := ClauseResults(p.cuts, evalClause);
    GetClauseResults(p.cuts, evalClause, a);
    GetClauseResults(p.cuts, evalClause, b);
    EvaluatePair(a, b, rs, evalClause(a, obs), evalClause(b, obs));
  }

  /** The conjunction of two clauses evaluates to the `&` of their results. */
  lemma EvaluatePair(a: string, b: string, rs: Dict<string, Column>, x: Column, y: Column)
    requires Get(rs, a) == Some(x) && Get(rs, b) == Some(y)
    ensures Evaluate(And(Leaf(a), Leaf(b)), rs) == Combine(AndOp, x, y)
  {
  }

  /** The clause dict of a double-bounded clause binds both halves to the observable, and nothing else. */
  lemma DictOfBounded(a: string, b: string, obs: string, shape: string -> string)
    ensures var d := Set(Set([], a, obs), b, obs);
      Get(d, a) == Some(obs) && Get(d, b) == Some(obs) && OneShape(Values(d), shape)
  {
    var d := Set(Set([], a, obs), b, obs);
    GetSet([], a, obs, a);
    GetSet(Set([], a, obs), b, obs, a);
    GetSet(Set([], a, obs), b, obs, b);
    if a == b {
      assert d == [(a, obs)];
    } else {
      assert d == [(a, obs), (b, obs)];
    }
    OneShapeAgree(Values(d), shape);
  }

  /**
   * A double-bounded clause reads as the elementwise `&` of its two halves'
   * results, reduced per event: ValueError exactly when their layouts differ.
   */
  lemma ReadOfBounded(l: string, obs: string, r: string, evalClause: (string, string) -> Column, shape: string -> string)
    requires ObservableToken(l + obs + r) == Ok(obs)
    requires |l| > 0 && |r| > 0 && OccursOnlyAt(l + obs + r, obs, |l|)
    requires Stripped(l + obs + r) && NoOperators(l + obs + r)
    requires NoConnectives(l + obs + r) && NoPrefixWord(l + obs + r)
    ensures ParseExpression(l + obs + r).Ok?
    ensures ReadValue(ParseExpression(l + obs + r).value, evalClause, shape)
      == match Combine(AndOp, evalClause(l + obs, obs), evalClause(obs + r, obs))
         case Ok(c) => Ok(Finish(c, false, false))
         case Err(e) => Err(e)
  {
    ParseDoubleBounded(l, obs, r);
    DictOfBounded(l + obs, obs + r, obs, shape);
    ReadOfPair(ParseExpression(l + obs + r).value, l + obs, obs + r, obs, evalClause, shape);
  }

  // ---------------------------------------------------------------------------
  // The substitution of clause results, as written

  /**
   * The read puts each clause's result into the expression with a regular
   * expression that brackets the clause in word boundaries. A clause in the
   * expression follows `(`, a space, an operator or the start of the text and
   * precedes `)`, a space, an operator or the end, so the brackets match only
   * when the clause begins and ends with a word character.
   */
  predicate WordEnds(t: string) {
    |t| > 0 && IsWordChar(t[0]) && IsWordChar(t[|t| - 1])
  }

  /** The results the substitution loop actually places: those of clauses with word ends. */
  function Substituted(results: Dict<string, Column>): (r: Dict<string, Column>)
    ensures forall t :: Get(r, t) == if WordEnds(t) then Get(results, t) else None
  {
    if |results| == 0 then []
    else
      var rest := Substituted(results[1..]);
      if WordEnds(results[0].0) then
        assert ([results[0]] + rest)[1..] == rest;
        [results[0]] + rest
      else rest
  }

  /** Every result is placed when every clause has word ends. */
  lemma {:induction false} SubstitutedAll(results: Dict<string, Column>)
    requires forall i :: 0 <= i < |results| ==> WordEnds(results[i].0)
    ensures Substituted(results) == results
    decreases |results|
  {
    if |results| > 0 {
      SubstitutedAll(results[1..]);
      assert [results[0]] + results[1..] == results;
    }
  }

  /** The read as written: a clause that was not substituted stays as text and its name is unbound. */
  function ReadValueAsWritten(p: Parsed, evalClause: (string, string) -> Column, shape: string -> string): (r: Result<seq<bool>>)
    ensures !OneShape(Values(p.cuts), shape) ==> r == Err(ValueError)
    ensures (forall i :: 0 <= i < |p.cuts| ==> WordEnds(p.cuts[i].0)) ==> r == ReadValue(p, evalClause, shape)
  {
    if !OneShape(Values(p.cuts), shape) then Err(ValueError)
    else
      var skeleton :- ParseSkeleton(p.expr);
      var results := ClauseResults(p.cuts, evalClause);
      assert (forall i :: 0 <= i < |p.cuts| ==> WordEnds(p.cuts[i].0)) ==> Substituted(results) == results by {
        if forall i :: 0 <= i < |p.cuts| ==> WordEnds(p.cuts[i].0) {
          SubstitutedAll(results);
        }
      }
      var column :- Evaluate(skeleton, Substituted(results));
      Ok(Finish(column, p.isAny, p.isVeto))
  }

  /** A double-bounded clause whose lower bound starts with a symbol, such as a sign, fails the read as written. */
  lemma ReadAsWrittenOfBounded(l: string, obs: string, r: string, evalClause: (string, string) -> Column, shape: string -> string)
    requires ObservableToken(l + obs + r) == Ok(obs)
    requires |l| > 0 && |r| > 0 && OccursOnlyAt(l + obs + r, obs, |l|)
    requires Stripped(l + obs + r) && NoOperators(l + obs + r)
    requires NoConnectives(l + obs + r) && NoPrefixWord(l + obs + r)
    requires !IsWordChar(l[0])
    ensures ParseExpression(l + obs + r).Ok?
    ensures ReadValueAsWritten(ParseExpression(l + obs + r).value, evalClause, shape) == Err(NameError)
  {
    ParseDoubleBounded(l, obs, r);
    DictOfBounded(l + obs, obs + r, obs, shape);
    assert (l + obs)[0] == l[0];
    ReadAsWrittenOfPair(ParseExpression(l + obs + r).value, l + obs, obs + r, evalClause, shape);
  }

  /** A conjunction whose first clause lacks word ends is not fully substituted, and the read as written fails. */
  lemma ReadAsWrittenOfPair(p: Parsed, a: string, b: string, evalClause: (string, string) -> Column, shape: string -> string)
    requires ParseSkeleton(p.expr) == Ok(And(Leaf(a), Leaf(b))) && OneShape(Values(p.cuts), shape) && !WordEnds(a)
    ensures ReadValueAsWritten(p, evalClause, shape) == Err(NameError)
  {
    var rs := Substituted(ClauseResults(p.cuts, evalClause));
    assert Get(rs, a) == None;
    assert Evaluate(And(Leaf(a), Leaf(b)), rs) == Err(NameError);
  }

  /** The observable of `-2 < Jet0.Phi < 2` is `Jet0.Phi`. */
  lemma TokenOfSignedBound(l: string, obs: string, r: string)
    requires l == "-2 < " && obs == "Jet0.Phi" && r == " < 2"
    ensures ObservableToken(l + obs + r) == Ok(obs)
  {
    assert "-" + "2" + " " + "<" + " " + obs + r == l + obs + r;
    assert NameLike(obs) && Symbols("<") && AllDigits("2");
    TokenAfterNegative("2", "<", obs, r);
  }

  /** `Jet0.Phi` occurs once in `-2 < Jet0.Phi < 2`. */
  lemma OccursOnceSignedBound(l: string, obs: string, r: string)
    requires l == "-2 < " && obs == "Jet0.Phi" && r == " < 2"
    ensures OccursOnlyAt(l + obs + r, obs, |l|)
  {
    assert obs[0] == 'J' && obs[1..] == "et0.Phi";
    OccursOnlyAtFirstChar(l, obs, r);
  }

  /** `-2 < Jet0.Phi < 2` is stripped and has no connective, parenthesis or prefix letter. */
  lemma CharsOfSignedBound(cut: string)
    requires cut == "-2 < Jet0.Phi < 2"
    ensures Stripped(cut) && NoOperators(cut) && 'a' !in cut && 'o' !in cut && 'v' !in cut
    ensures !IsWordChar(cut[0])
  {
    LettersOfSignedBound(cut);
    OperatorsOfSignedBound(cut);
  }

  /** `-2 < Jet0.Phi < 2` holds no `a`, `o` or `v`. */
  lemma LettersOfSignedBound(cut: string)
    requires cut == "-2 < Jet0.Phi < 2"
    ensures 'a' !in cut && 'o' !in cut && 'v' !in cut
  {
  }

  /** `-2 < Jet0.Phi < 2` holds no connective or parenthesis. */
  lemma OperatorsOfSignedBound(cut: string)
    requires cut == "-2 < Jet0.Phi < 2"
    ensures NoOperators(cut)
  {
  }

  /** The halves of `-2 < Jet0.Phi < 2`. */
  lemma HalvesOfSignedBound(l: string, obs: string, r: string)
    requires l == "-2 < " && obs == "Jet0.Phi" && r == " < 2"
    ensures l + obs == "-2 < Jet0.Phi" && obs + r == "Jet0.Phi < 2"
  {
  }

  /**
   * `-2 < Jet0.Phi < 2` splits into `-2 < Jet0.Phi` and `Jet0.Phi < 2`. The
   * first half begins with `-`, so the read as written never substitutes it
   * and fails with NameError, whatever the event data; the corrected read
   * evaluates both halves and fails only when their layouts differ.
   */
  lemma ReadSignedBound(cut: string, evalClause: (string, string) -> Column, shape: string -> string)
    requires cut == "-2 < Jet0.Phi < 2"
    ensures ParseExpression(cut).Ok?
    ensures ReadValueAsWritten(ParseExpression(cut).value, evalClause, shape) == Err(NameError)
    ensures ReadValue(ParseExpression(cut).value, evalClause, shape).Ok?
      <==> SameLayout(evalClause("-2 < Jet0.Phi", "Jet0.Phi"), evalClause("Jet0.Phi < 2", "Jet0.Phi"))
  {
    var l, obs, r := cut[..5], cut[5..13], cut[13..];
    assert l == "-2 < " && obs == "Jet0.Phi" && r == " < 2";
    assert cut == l + obs + r;
    TokenOfSignedBound(l, obs, r);
    OccursOnceSignedBound(l, obs, r);
    CharsOfSignedBound(cut);
    PlainLetters(cut);
    assert l[0] == cut[0];
    ReadAsWrittenOfBounded(l, obs, r, evalClause, shape);
    ReadOfBounded(l, obs, r, evalClause, shape);
    HalvesOfSignedBound(l, obs, r);
  }
}
