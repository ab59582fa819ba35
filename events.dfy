/**
 * The event a physics object is read from, and the Python list operations the
 * readers apply to its collections: slicing with non-negative bounds, `[None] * k`
 * and padding a slice with `None` up to a required length.
 */
module Events {
  import opened Wrappers

  /**
   * An object stored in an event (a jet, a track, a tower ...). `key` stands for the
   * object's identity and `attrs` holds its named sub-collections, such as a jet's
   * `Constituents`.
   */
  datatype Obj = Obj(key: nat, attrs: map<string, seq<Obj>>)

  /**
   * One event of a tree: its branches by name (each a collection of objects) and the
   * names of its leaves, written `Branch.Leaf`.
   */
  datatype Event = Event(branches: map<string, seq<Obj>>, leaves: set<string>)

  function Min(a: int, b: int): int { if a <= b then a else b }
  function Max(a: int, b: int): int { if a >= b then a else b }

  /** `xs[start:stop]` for non-negative bounds; `None` stands for an omitted stop. */
  function Slice<T>(xs: seq<T>, start: nat, stop: Option<nat>): (r: seq<T>)
    ensures stop.None? ==> r == if start <= |xs| then xs[start..] else []
    ensures stop.Some? ==> |r| == Max(0, Min(stop.value, |xs|) - start)
    ensures forall k :: 0 <= k < |r| ==> start + k < |xs| && r[k] == xs[start + k]
  {
    var lo := Min(start, |xs|);
    var hi := if stop.Some? then Min(stop.value, |xs|) else |xs|;
    if hi < lo then [] else xs[lo..hi]
  }

  /** `[None] * k`; a negative count gives the empty list. */
  function Nones<T>(k: int): (r: seq<Option<T>>)
    ensures |r| == Max(0, k) && forall i :: 0 <= i < |r| ==> r[i].None?
  {
    if k <= 0 then [] else [None] + Nones(k - 1)
  }

  /** Wraps every element as present. */
  function Present<T>(xs: seq<T>): (r: seq<Option<T>>)
    ensures |r| == |xs| && forall i :: 0 <= i < |xs| ==> r[i] == Some(xs[i])
  {
    if |xs| == 0 then [] else [Some(xs[0])] + Present(xs[1..])
  }

  /** `xs + [None] * (k - len(xs))` when `k > len(xs)`, otherwise `xs` unchanged. */
  function PadTo<T>(xs: seq<Option<T>>, k: int): (r: seq<Option<T>>)
    ensures |r| == Max(|xs|, k)
    ensures r[..|xs|] == xs && forall i :: |xs| <= i < |r| ==> r[i].None?
  {
    if k > |xs| then xs + Nones(k - |xs|) else xs
  }

  /**
   * A selection `start:stop` of a collection, padded with `None` up to `stop - start`
   * entries when the stop is given.
   */
  function Select<T>(xs: seq<T>, start: nat, stop: Option<nat>): seq<Option<T>>
  {
    var clipped := Present(Slice(xs, start, stop));
    if stop.Some? then PadTo(clipped, stop.value - start) else clipped
  }

  /**
   * A bounded selection has exactly `max(0, stop - start)` entries: the collection's
   * objects in slice order, then `None` for every index past its end.
   */
  lemma SelectBounded<T>(xs: seq<T>, start: nat, stop: nat)
    ensures |Select(xs, start, Some(stop))| == Max(0, stop - start)
    ensures forall k :: 0 <= k < Max(0, stop - start) ==>
      Select(xs, start, Some(stop))[k] == if start + k < |xs| then Some(xs[start + k]) else None
  {
    var clipped := Present(Slice(xs, start, Some(stop)));
    var r := Select(xs, start, Some(stop));
    forall k | 0 <= k < Max(0, stop - start)
      ensures r[k] == if start + k < |xs| then Some(xs[start + k]) else None
    {
      if k < |clipped| {
        assert r[..|clipped|][k] == clipped[k];
      }
    }
  }

  /** An unbounded selection is exactly `xs[start:]`, with no padding. */
  lemma SelectUnbounded<T>(xs: seq<T>, start: nat)
    ensures Select(xs, start, None) == Present(if start <= |xs| then xs[start..] else [])
  {
  }
}
