/** Optional values and the first-match search that several exporter helpers share. */
module Maybe {

  /** Python's `None` or a present value. */
  datatype Option<+T> = None | Some(value: T)

  /**
   * Index of the first element satisfying `p`, or `None` when no element
   * does: the first-match search the exporter's lookups perform.
   */
  function FirstIndex<T>(xs: seq<T>, p: T -> bool): (r: Option<nat>)
    ensures r.Some? ==> r.value < |xs| && p(xs[r.value])
    ensures r.Some? ==> forall j :: 0 <= j < r.value ==> !p(xs[j])
    ensures r.None? <==> forall j :: 0 <= j < |xs| ==> !p(xs[j])
    decreases |xs|
  {
    if |xs| == 0 then None
    else if p(xs[0]) then Some(0)
    else
      match FirstIndex(xs[1..], p)
      case None => None
      case Some(i) => Some(i + 1)
  }
}
