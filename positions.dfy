/** Ascending index selection over a boolean mask. Both filters of the import
    (the lines of one invoice, the failed responses) are characterised through
    it: "exactly the positions that qualify, in their original order". */
module Positions {

  /** The positions `i` with `mask[i]`, in ascending order. */
  function Selected(mask: seq<bool>): seq<nat>
  {
    if mask == [] then []
    else Selected(mask[..|mask| - 1]) + (if mask[|mask| - 1] then [|mask| - 1] else [])
  }

  /** Strictly increasing: the selection keeps the original order and repeats nothing. */
  ghost predicate Ascending(idx: seq<nat>)
  {
    forall a, b :: 0 <= a < b < |idx| ==> idx[a] < idx[b]
  }

  /** `Selected(mask)` lists every marked position, only marked positions, once
      each and in ascending order. */
  lemma {:induction false} SelectedExact(mask: seq<bool>)
    ensures Ascending(Selected(mask))
    ensures forall k :: 0 <= k < |Selected(mask)| ==>
              Selected(mask)[k] < |mask| && mask[Selected(mask)[k]]
    ensures forall i :: 0 <= i < |mask| && mask[i] ==> i in Selected(mask)
  {
    if mask != [] {
      var init := mask[..|mask| - 1];
      SelectedExact(init);
      assert forall i :: 0 <= i < |init| ==> init[i] == mask[i];
    }
  }
}
