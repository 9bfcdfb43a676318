/**
 * The "closest hit wins" fold shared by the cube-face test (intersects.h)
 * and hover selection (gui.h, interface.h): scan left to right, keeping a
 * candidate that is replaced only by a STRICTLY smaller distance, starting
 * from +infinity (here: no candidate). Absent distances are skipped.
 */
module Nearest {
  import opened Wrappers

  /** `i` holds a distance no later entry undercuts and every earlier entry exceeds. */
  ghost predicate IsFirstMinimum(xs: seq<Option<real>>, i: int) {
    && 0 <= i < |xs|
    && xs[i].Some?
    && (forall j :: 0 <= j < i && xs[j].Some? ==> xs[i].value < xs[j].value)
    && (forall j :: i < j < |xs| && xs[j].Some? ==> xs[i].value <= xs[j].value)
  }

  ghost predicate NoneHit(xs: seq<Option<real>>) {
    forall j :: 0 <= j < |xs| ==> xs[j].None?
  }

  /** The index the source's loop ends on: the earliest of the smallest present distances. */
  function FirstMinimum(xs: seq<Option<real>>): (r: Option<nat>)
    ensures r.None? <==> NoneHit(xs)
    ensures r.Some? ==> IsFirstMinimum(xs, r.value)
    decreases |xs|
  {
    if |xs| == 0 then None
    else
      var prev := FirstMinimum(xs[..|xs| - 1]);
      var last := xs[|xs| - 1];
      if last.Some? && (prev.None? || last.value < xs[prev.value].value) then Some(|xs| - 1)
      else prev
  }

  /** The specification pins the winner down: at most one index is the first minimum. */
  lemma FirstMinimumUnique(xs: seq<Option<real>>, i: int, j: int)
    requires IsFirstMinimum(xs, i) && IsFirstMinimum(xs, j)
    ensures i == j
  {
  }

  /** Ties go to the earlier entry. */
  lemma FirstMinimumTieBreak(xs: seq<Option<real>>, i: int, j: int)
    requires 0 <= i < j < |xs|
    requires xs[i].Some? && xs[j].Some? && xs[i].value == xs[j].value
    requires forall k :: 0 <= k < |xs| && xs[k].Some? ==> xs[i].value <= xs[k].value
    ensures FirstMinimum(xs) != Some(j)
  {
  }
}
