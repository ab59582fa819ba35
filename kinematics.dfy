/**
 * The shape-preserving value builder shared by the four-vector observables
 * (hml/observables/momentum_x.py and hml/observables/pseudo_rapidity.py): one value
 * per main object, or one list of values per main object when a sub is read, with
 * nan standing for a missing object. The kinematic quantity itself (`Px()`,
 * `Eta()` ...) is a parameter: nothing here depends on its numbers.
 */
module Kinematics {
  import opened Wrappers
  import opened Events
  import opened Types

  /** A float value: a real number or the `float("nan")` of a missing object. */
  datatype Val = NaN | Num(x: real)

  /** What `get_value` returns when it returns a list: flat, or one list per main object. */
  datatype Values = Flat(values: seq<Val>) | PerMain(lists: seq<seq<Val>>)

  /** The value of one slot: the quantity of a present object, nan for a missing one. */
  function ValueOf(o: Option<Obj>, quantity: Obj -> real): (v: Val)
    ensures v.NaN? <==> o.None?
  {
    if o.Some? then Num(quantity(o.value)) else NaN
  }

  /** One value per slot of a selection, in order; each depends only on its own slot. */
  function ValuesOf(sel: Selection, quantity: Obj -> real): (vs: seq<Val>)
    ensures |vs| == |sel| && forall k :: 0 <= k < |sel| ==> vs[k] == ValueOf(sel[k], quantity)
  {
    seq(|sel|, k requires 0 <= k < |sel| => ValueOf(sel[k], quantity))
  }

  /**
   * `get_value`: None (here `Ok(None)`) unless there is exactly one component;
   * without a sub, one value per main slot; with one, a list per main slot that
   * mirrors that slot's sub selection. `sub_objs[0]` raises IndexError when there
   * are no sub lists at all, which a successful `read` never leaves.
   */
  function KinematicValues(mains: seq<Selection>, subs: seq<seq<Selection>>, quantity: Obj -> real): (r: Result<Option<Values>>)
    ensures |mains| != 1 ==> r == Ok(None)
    ensures |mains| == 1 && |subs| == 0 ==> r == Err(IndexError)
    ensures |mains| == 1 && |subs| > 0 && |subs[0]| == 0 ==>
      r.Ok? && r.value.Some? && r.value.value.Flat?
      && |r.value.value.values| == |mains[0]|
      && forall k :: 0 <= k < |mains[0]| ==> r.value.value.values[k] == ValueOf(mains[0][k], quantity)
    ensures |mains| == 1 && |subs| > 0 && |subs[0]| != 0 ==>
      r.Ok? && r.value.Some? && r.value.value.PerMain?
      && |r.value.value.lists| == |subs[0]|
      && forall i :: 0 <= i < |subs[0]| ==>
           |r.value.value.lists[i]| == |subs[0][i]|
           && forall k :: 0 <= k < |subs[0][i]| ==> r.value.value.lists[i][k] == ValueOf(subs[0][i][k], quantity)
  {
    if |mains| != 1 then Ok(None)
    else if |subs| == 0 then Err(IndexError)
    else if |subs[0]| == 0 then Ok(Some(Flat(ValuesOf(mains[0], quantity))))
    else Ok(Some(PerMain(seq(|subs[0]|, i requires 0 <= i < |subs[0]| => ValuesOf(subs[0][i], quantity)))))
  }

  /** The loops of `get_value`: values appended one by one, per main object when there is a sub. */
  method GetValue(mains: seq<Selection>, subs: seq<seq<Selection>>, quantity: Obj -> real)
    returns (r: Result<Option<Values>>)
    ensures r == KinematicValues(mains, subs, quantity)
  {
    if |mains| != 1 {
      return Ok(None);
    }
    if |subs| == 0 {
      return Err(IndexError);
    }
    if |subs[0]| == 0 {
      var values := ValuesLoop(mains[0], quantity);
      return Ok(Some(Flat(values)));
    }
    var lists: seq<seq<Val>> := [];
    var i := 0;
    while i < |subs[0]|
      invariant 0 <= i <= |subs[0]|
      invariant |lists| == i
      invariant forall j :: 0 <= j < i ==> lists[j] == ValuesOf(subs[0][j], quantity)
    {
      var perMain := ValuesLoop(subs[0][i], quantity);
      lists := lists + [perMain];
      i := i + 1;
    }
    assert lists == seq(|subs[0]|, j requires 0 <= j < |subs[0]| => ValuesOf(subs[0][j], quantity));
    return Ok(Some(PerMain(lists)));
  }

  /** One value appended per slot, a missing object giving nan. */
  method ValuesLoop(sel: Selection, quantity: Obj -> real) returns (values: seq<Val>)
    ensures values == ValuesOf(sel, quantity)
  {
    values := [];
    var k := 0;
    while k < |sel|
      invariant 0 <= k <= |sel|
      invariant |values| == k
      invariant forall j :: 0 <= j < k ==> values[j] == ValueOf(sel[j], quantity)
    {
      var value := if sel[k].Some? then Num(quantity(sel[k].value)) else NaN;
      values := values + [value];
      k := k + 1;
    }
  }

  // ---------------------------------------------------------------------------
  // The value builder after `read`

  /**
   * On `read`'s lists, an identifier of several components gives None: a
   * successful read leaves one main list per component.
   */
  lemma SeveralComponentsGiveNone(event: Event, items: seq<Item>, quantity: Obj -> real)
    requires |items| != 1 && ReadItems(event, items).failure.None?
    ensures KinematicValues(ReadItems(event, items).mains, ReadItems(event, items).subs, quantity) == Ok(None)
  {
    ReadEntries(event, items);
  }

  /**
   * A bounded main of `p > 0` slots with a bounded sub of `q` slots, such as
   * `Jet:2.Constituents:10`, gives a `p` by `q` list of lists whenever every object
   * of the main field has the sub field: missing main objects pad with `q` nans.
   */
  lemma BoundedShape(event: Event, main: string, p: nat, sub: string, q: nat, quantity: Obj -> real)
    requires p > 0 && main in event.branches
    requires forall o :: o in event.branches[main] ==> sub in o.attrs
    ensures var item := Item(Some(Branch(main, 0, Some(p))), Some(Some(Branch(sub, 0, Some(q)))));
      var st := ReadItems(event, [item]);
      && st.failure.None?
      && var r := KinematicValues(st.mains, st.subs, quantity);
      && r.Ok? && r.value.Some? && r.value.value.PerMain?
      && |r.value.value.lists| == p
      && (forall i :: 0 <= i < p ==> |r.value.value.lists[i]| == q)
      && forall i, k :: |event.branches[main]| <= i < p && 0 <= k < q ==> r.value.value.lists[i][k] == NaN
  {
    var mb := Branch(main, 0, Some(p));
    var sb := Branch(sub, 0, Some(q));
    var item := Item(Some(mb), Some(Some(sb)));
    var objs := event.branches[main];
    var sel := Select(objs, 0, Some(p));
    SelectBounded(objs, 0, p);
    assert |sel| == p;
    var perMain := seq(p, i requires 0 <= i < p => SubEntry(sel[i], sb).value);
    forall i | 0 <= i < p
      ensures SubEntry(sel[i], sb).Ok? && |SubEntry(sel[i], sb).value| == q
    {
      if sel[i].Some? {
        assert sel[i].value == objs[i];
        assert objs[i] in objs;
      }
      SubEntryLength(sel[i], sb);
    }
    forall i, k | |objs| <= i < p && 0 <= k < q
      ensures perMain[i][k] == None
    {
      SubEntryOfNone(sb);
    }
    MapResultAll(SubEntryFn(sb), sel, perMain);
    ReadOfEntries(event, [item], [sel], [perMain]);
    PaddedLists([sel], [perMain], quantity, q, |objs|);
  }

  /** One main list of `p` slots whose sub lists all have `q` slots, empty from slot `pad` on, gives a `p` by `q` list of lists with nans from row `pad` on. */
  lemma PaddedLists(mains: seq<Selection>, subs: seq<seq<Selection>>, quantity: Obj -> real, q: nat, pad: nat)
    requires |mains| == 1 && |subs| == 1 && |subs[0]| > 0
    requires forall i :: 0 <= i < |subs[0]| ==> |subs[0][i]| == q
    requires forall i, k :: pad <= i < |subs[0]| && 0 <= k < q ==> subs[0][i][k] == None
    ensures var r := KinematicValues(mains, subs, quantity);
      && r.Ok? && r.value.Some? && r.value.value.PerMain?
      && |r.value.value.lists| == |subs[0]|
      && (forall i :: 0 <= i < |subs[0]| ==> |r.value.value.lists[i]| == q)
      && forall i, k :: pad <= i < |subs[0]| && 0 <= k < q ==> r.value.value.lists[i][k] == NaN
  {
  }

  /**
   * An unbounded sub, such as `Jet:2.Constituents`, gives one list per main slot,
   * each as long as that slot's sub selection: a variable inner length.
   */
  lemma UnboundedSubShape(event: Event, items: seq<Item>, quantity: Obj -> real)
    requires |items| == 1 && ReadItems(event, items).failure.None?
    requires items[0].sub.Some? && items[0].sub.value.Some?
    ensures var st := ReadItems(event, items);
      var r := KinematicValues(st.mains, st.subs, quantity);
      |st.mains[0]| > 0 ==>
        && r.Ok? && r.value.Some? && r.value.value.PerMain?
        && |r.value.value.lists| == |st.mains[0]|
        && forall i :: 0 <= i < |st.mains[0]| ==> |r.value.value.lists[i]| == |st.subs[0][i]|
  {
    ReadEntries(event, items);
  }
}
