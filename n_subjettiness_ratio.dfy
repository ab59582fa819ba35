/**
 * `NSubjettinessRatio` (hml/observables/n_subjettiness_ratio.py) and its alias
 * `TauMN`: the ratio `Tau[m-1] / Tau[n-1]` of each main object's N-subjettiness
 * values, nan for a missing object or a zero denominator. The `Tau` list of an
 * object is a parameter.
 */
module NSubjettinessRatio {
  import opened Wrappers
  import opened Events
  import opened Types
  import opened Kinematics

  /** `xs[k]` on a Python list: a negative index counts from the end, and one out of range raises IndexError. */
  function PyIndex(xs: seq<real>, k: int): (r: Result<real>)
    ensures r.Ok? <==> -|xs| <= k < |xs|
    ensures 0 <= k < |xs| ==> r == Ok(xs[k])
    ensures -|xs| <= k < 0 ==> r == Ok(xs[|xs| + k])
  {
    if 0 <= k < |xs| then Ok(xs[k])
    else if -|xs| <= k < 0 then Ok(xs[|xs| + k])
    else Err(IndexError)
  }

  class NSubjettinessRatio {
    const m: int
    const n: int

    /**
     * `__init__(name, m, n)`: the two 1-based orders. The identifier the base class
     * parses is the `name` argument.
     */
    constructor(m: int, n: int)
      ensures this.m == m && this.n == n
    {
      this.m := m;
      this.n := n;
    }

    /** The value of one main slot: nan when missing or when `Tau[n-1]` is zero, else the ratio. */
    function RatioOf(o: Option<Obj>, tau: Obj -> seq<real>): (r: Result<Val>)
      ensures o.None? ==> r == Ok(NaN)
      ensures o.Some? ==> (r.Err? <==>
        !(-|tau(o.value)| <= n - 1 < |tau(o.value)|)
        || (PyIndex(tau(o.value), n - 1) != Ok(0.0) && !(-|tau(o.value)| <= m - 1 < |tau(o.value)|)))
      ensures r.Err? ==> r.error == IndexError
    {
      if o.None? then Ok(NaN)
      else
        var t := tau(o.value);
        var denominator :- PyIndex(t, n - 1);
        if denominator == 0.0 then Ok(NaN)
        else
          var numerator :- PyIndex(t, m - 1);
          Ok(Num(numerator / denominator))
    }

    function RatioFn(tau: Obj -> seq<real>): (f: Option<Obj> -> Result<Val>)
      ensures forall o :: f(o) == RatioOf(o, tau)
    {
      o => RatioOf(o, tau)
    }

    /**
     * `get_value`: None (`Ok(None)`) unless there is exactly one component and it has
     * no sub; otherwise one value per main slot, in order.
     */
    function Ratios(mains: seq<Selection>, subs: seq<seq<Selection>>, tau: Obj -> seq<real>): (r: Result<Option<seq<Val>>>)
      ensures |mains| != 1 ==> r == Ok(None)
      ensures |mains| == 1 && |subs| == 0 ==> r == Err(IndexError)
      ensures |mains| == 1 && |subs| > 0 && |subs[0]| != 0 ==> r == Ok(None)
      ensures r.Ok? && r.value.Some? ==>
        |r.value.value| == |mains[0]| && forall k :: 0 <= k < |mains[0]| ==> RatioOf(mains[0][k], tau) == Ok(r.value.value[k])
      ensures |mains| == 1 && |subs| > 0 && |subs[0]| == 0 ==>
        (r.Ok? <==> forall k :: 0 <= k < |mains[0]| ==> RatioOf(mains[0][k], tau).Ok?)
      ensures r.Err? ==> r.error == IndexError
    {
      if |mains| != 1 then Ok(None)
      else if |subs| == 0 then Err(IndexError)
      else if |subs[0]| != 0 then Ok(None)
      else
        var f := RatioFn(tau);
        assert (forall k :: 0 <= k < |mains[0]| ==> RatioOf(mains[0][k], tau).Ok?)
          ==> (forall k :: 0 <= k < |mains[0]| ==> f(mains[0][k]).Ok?);
        var values :- MapResult(f, mains[0]);
        Ok(Some(values))
    }

    /** The loop of `get_value`: one guarded value appended per main slot. */
    method GetValue(mains: seq<Selection>, subs: seq<seq<Selection>>, tau: Obj -> seq<real>)
      returns (r: Result<Option<seq<Val>>>)
      ensures r == Ratios(mains, subs, tau)
    {
      if |mains| != 1 {
        return Ok(None);
      }
      if |subs| == 0 {
        return Err(IndexError);
      }
      if |subs[0]| != 0 {
        return Ok(None);
      }
      var f := RatioFn(tau);
      var objs := mains[0];
      var values: seq<Val> := [];
      var i := 0;
      assert objs[i..] == objs;
      PrependNothing(MapResult(f, objs));
      while i < |objs|
        invariant 0 <= i <= |objs|
        invariant MapResult(f, objs) == Prepend(values, MapResult(f, objs[i..]))
      {
        MapResultStep(f, objs, i, values);
        var value: Val;
        if objs[i].None? {
          value := NaN;
        } else {
          var t := tau(objs[i].value);
          var denominator := PyIndex(t, n - 1);
          if denominator.Err? {
            return Err(denominator.error);
          }
          if denominator.value == 0.0 {
            value := NaN;
          } else {
            var numerator := PyIndex(t, m - 1);
            if numerator.Err? {
              return Err(numerator.error);
            }
            value := Num(numerator.value / denominator.value);
          }
        }
        assert f(objs[i]) == Ok(value);
        values := values + [value];
        i := i + 1;
      }
      assert objs[i..] == [];
      assert values + [] == values;
      return Ok(Some(values));
    }
  }

  /** For a present object with enough `Tau` values and a non-zero `Tau[n-1]`, the value is `Tau[m-1] / Tau[n-1]`. */
  lemma RatioOfPresent(r: NSubjettinessRatio, o: Obj, tau: Obj -> seq<real>)
    requires 1 <= r.m <= |tau(o)| && 1 <= r.n <= |tau(o)| && tau(o)[r.n - 1] != 0.0
    ensures r.RatioOf(Some(o), tau) == Ok(Num(tau(o)[r.m - 1] / tau(o)[r.n - 1]))
  {
  }

  /** With `m = 2, n = 1` the value is `Tau[1] / Tau[0]`. */
  lemma TauTwoOverOne(r: NSubjettinessRatio, o: Obj, tau: Obj -> seq<real>)
    requires r.m == 2 && r.n == 1 && |tau(o)| >= 2 && tau(o)[0] != 0.0
    ensures r.RatioOf(Some(o), tau) == Ok(Num(tau(o)[1] / tau(o)[0]))
  {
    RatioOfPresent(r, o, tau);
  }

  /**
   * After a read of one component with a sub, such as `FatJet0.Constituents`, the
   * value is None as soon as the main selection has a slot.
   */
  lemma SubGivesNone(r: NSubjettinessRatio, event: Event, items: seq<Item>, tau: Obj -> seq<real>)
    requires |items| == 1 && items[0].sub.Some? && items[0].sub.value.Some?
    requires ReadItems(event, items).failure.None? && |ReadItems(event, items).mains[0]| > 0
    ensures r.Ratios(ReadItems(event, items).mains, ReadItems(event, items).subs, tau) == Ok(None)
  {
    ReadEntries(event, items);
  }

  /**
   * After a read of one component without a sub, such as `FatJet:2`, there is one
   * value per main slot, in order, unless a `Tau` index is out of range.
   */
  lemma OneValuePerSlot(r: NSubjettinessRatio, event: Event, items: seq<Item>, tau: Obj -> seq<real>)
    requires |items| == 1 && (items[0].sub.None? || items[0].sub.value.None?)
    requires ReadItems(event, items).failure.None?
    ensures var st := ReadItems(event, items);
      var v := r.Ratios(st.mains, st.subs, tau);
      v.Ok? ==> v.value.Some? && |v.value.value| == |st.mains[0]|
  {
    ReadEntries(event, items);
  }
}
