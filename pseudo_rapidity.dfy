/**
 * `PseudoRapidity` (hml/observables/pseudo_rapidity.py) and its alias `Eta`: the
 * pseudo-rapidity of each object, in the shape of the selection read.
 */
module PseudoRapidity {
  import opened Wrappers
  import opened Events
  import opened Types
  import opened Kinematics

  /** `get_value`, with `eta` standing for `obj.P4().Eta()`. */
  method GetValue(mains: seq<Selection>, subs: seq<seq<Selection>>, eta: Obj -> real)
    returns (r: Result<Option<Values>>)
    ensures r == KinematicValues(mains, subs, eta)
  {
    r := Kinematics.GetValue(mains, subs, eta);
  }

  /**
   * Each value depends only on its own slot: two selections that agree at a slot
   * give the same value there.
   */
  lemma Elementwise(sel1: Selection, sel2: Selection, k: nat, eta: Obj -> real)
    requires k < |sel1| && k < |sel2| && sel1[k] == sel2[k]
    ensures ValuesOf(sel1, eta)[k] == ValuesOf(sel2, eta)[k]
  {
  }
}
