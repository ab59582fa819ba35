/** Option, Result and the Python exception classes the modelled code raises. */
module Wrappers {

  datatype Option<+T> = None | Some(value: T) {
    function GetOr(default: T): T {
      match this
      case Some(v) => v
      case None => default
    }
  }

  /** The built-in exception classes raised by the modelled code (messages are not modelled). */
  datatype Error =
    | ValueError
    | IndexError
    | KeyError
    | TypeError
    | AttributeError
    | UnboundLocalError
    | ZeroDivisionError
    | SyntaxError
    | NameError
    | FileNotFoundError

  /** The outcome of a Python call that returns a value or raises. */
  datatype Result<+T> = Ok(value: T) | Err(error: Error) {
    predicate IsFailure() { Err? }
    function PropagateFailure<U>(): Result<U>
      requires Err?
    {
      Err(error)
    }
    function Extract(): T
      requires Ok?
    {
      value
    }
  }

  /** The outcome of a Python call that returns nothing or raises. */
  datatype Outcome = Pass | Fail(error: Error)

  /**
   * Applying `f` to each element in order, as a loop that appends each result and
   * stops at the first exception.
   */
  function MapResult<A, B>(f: A -> Result<B>, xs: seq<A>): (r: Result<seq<B>>)
    ensures r.Ok? ==> |r.value| == |xs| && forall i :: 0 <= i < |xs| ==> f(xs[i]) == Ok(r.value[i])
    ensures r.Err? ==> exists i :: 0 <= i < |xs| && f(xs[i]) == Err(r.error)
    ensures (forall i :: 0 <= i < |xs| ==> f(xs[i]).Ok?) ==> r.Ok?
  {
    if |xs| == 0 then Ok([])
    else
      match f(xs[0])
      case Err(e) => Err(e)
      case Ok(y) =>
        match MapResult(f, xs[1..])
        case Err(e) =>
          assert exists i :: 0 <= i < |xs| - 1 && f(xs[1..][i]) == Err(e);
          var i :| 0 <= i < |xs| - 1 && f(xs[1..][i]) == Err(e);
          assert f(xs[i + 1]) == Err(e);
          Err(e)
        case Ok(ys) =>
          assert forall i :: 1 <= i < |xs| ==> f(xs[i]) == Ok(ys[i - 1]) by {
            forall i | 1 <= i < |xs| ensures f(xs[i]) == Ok(ys[i - 1]) {
              assert xs[1..][i - 1] == xs[i];
            }
          }
          assert (forall i :: 0 <= i < |xs| ==> f(xs[i]).Ok?) ==> (forall i :: 0 <= i < |xs| - 1 ==> f(xs[1..][i]).Ok?);
          Ok([y] + ys)
  }

  /** `prefix` followed by the outcome of the rest of a loop. */
  function Prepend<T>(prefix: seq<T>, rest: Result<seq<T>>): Result<seq<T>> {
    match rest
    case Ok(ys) => Ok(prefix + ys)
    case Err(e) => Err(e)
  }

  lemma PrependNothing<T>(rest: Result<seq<T>>)
    ensures Prepend([], rest) == rest
  {
    if rest.Ok? {
      assert [] + rest.value == rest.value;
    }
  }

  /** One loop step: the element at `i` is mapped and appended. */
  lemma MapResultStep<A, B>(f: A -> Result<B>, xs: seq<A>, i: nat, done: seq<B>)
    requires i < |xs|
    ensures f(xs[i]).Ok? ==>
      Prepend(done, MapResult(f, xs[i..])) == Prepend(done + [f(xs[i]).value], MapResult(f, xs[i + 1..]))
    ensures f(xs[i]).Err? ==> MapResult(f, xs[i..]) == Err(f(xs[i]).error)
  {
    assert xs[i..][0] == xs[i] && xs[i..][1..] == xs[i + 1..];
    match MapResult(f, xs[i + 1..])
    case Ok(ys) =>
      if f(xs[i]).Ok? {
        assert done + [f(xs[i]).value] + ys == done + ([f(xs[i]).value] + ys);
      }
    case Err(_) =>
  }

  /** `MapResult` gives exactly `ys` when `f` maps each element of `xs` to the matching one of `ys`. */
  lemma MapResultAll<A, B>(f: A -> Result<B>, xs: seq<A>, ys: seq<B>)
    requires |xs| == |ys| && forall i :: 0 <= i < |xs| ==> f(xs[i]) == Ok(ys[i])
    ensures MapResult(f, xs) == Ok(ys)
  {
    assert forall i :: 0 <= i < |xs| ==> f(xs[i]).Ok?;
    var r := MapResult(f, xs);
    assert r.Ok?;
    assert forall i :: 0 <= i < |xs| ==> f(xs[i]) == Ok(r.value[i]);
    assert forall i :: 0 <= i < |xs| ==> r.value[i] == ys[i];
    assert r.value == ys;
  }
}
