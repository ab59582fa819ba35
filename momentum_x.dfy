/**
 * `MomentumX` (hml/observables/momentum_x.py) and its alias `Px`: the x component
 * of each object's four-momentum, in the shape of the selection read.
 */
module MomentumX {
  import opened Wrappers
  import opened Events
  import opened Types
  import opened Kinematics

  /** `get_value`, with `px` standing for `obj.P4().Px()`. */
  method GetValue(mains: seq<Selection>, subs: seq<seq<Selection>>, px: Obj -> real)
    returns (r: Result<Option<Values>>)
    ensures r == KinematicValues(mains, subs, px)
  {
    r := Kinematics.GetValue(mains, subs, px);
  }

  /**
   * `Px("Jet:2.Constituents:10")` read on an event whose jets all carry
   * constituents gives two lists of ten values each.
   */
  lemma TwoByTen(event: Event, px: Obj -> real)
    requires "Jet" in event.branches
    requires forall o :: o in event.branches["Jet"] ==> "Constituents" in o.attrs
    ensures ParsePhysicsObject("Jet:2.Constituents:10").Ok?
    ensures var st := ReadItems(event, ParsePhysicsObject("Jet:2.Constituents:10").value);
      && st.failure.None?
      && var r := KinematicValues(st.mains, st.subs, px);
      && r.Ok? && r.value.Some? && r.value.value.PerMain?
      && |r.value.value.lists| == 2
      && forall i :: 0 <= i < 2 ==> |r.value.value.lists[i]| == 10
  {
    ParseJetsConstituents();
    BoundedShape(event, "Jet", 2, "Constituents", 10, px);
  }

  /** `Px("Jet:200.Constituents:200")`: two hundred lists of two hundred values, however few jets there are. */
  lemma TwoHundredSquared(event: Event, px: Obj -> real)
    requires "Jet" in event.branches
    requires forall o :: o in event.branches["Jet"] ==> "Constituents" in o.attrs
    ensures var item := Item(Some(Branch("Jet", 0, Some(200))), Some(Some(Branch("Constituents", 0, Some(200)))));
      var st := ReadItems(event, [item]);
      && st.failure.None?
      && var r := KinematicValues(st.mains, st.subs, px);
      && r.Ok? && r.value.Some? && r.value.value.PerMain?
      && |r.value.value.lists| == 200
      && forall i :: 0 <= i < 200 ==> |r.value.value.lists[i]| == 200
  {
    BoundedShape(event, "Jet", 200, "Constituents", 200, px);
  }
}
