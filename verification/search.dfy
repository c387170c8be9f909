/** `Array.prototype.find`, reduced to the index it stops at. */
module Search {

  /**
   * The index of the first element satisfying `p`, or `|xs|` when there is
   * none: everything before the result fails `p`, and the result (if in
   * range) satisfies it.
   */
  function FindFirst<T>(xs: seq<T>, p: T -> bool): (k: nat)
    ensures k <= |xs|
    ensures forall j :: 0 <= j < k ==> !p(xs[j])
    ensures k < |xs| ==> p(xs[k])
    decreases |xs|
  {
    if xs == [] then 0
    else if p(xs[0]) then 0
    else 1 + FindFirst(xs[1..], p)
  }

  /** The first-match index is determined by the two halves of its contract. */
  lemma FindFirstUnique<T>(xs: seq<T>, p: T -> bool, k: nat)
    requires k <= |xs|
    requires forall j :: 0 <= j < k ==> !p(xs[j])
    requires k < |xs| ==> p(xs[k])
    ensures FindFirst(xs, p) == k
  {
  }
}
