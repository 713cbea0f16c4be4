/**
 * Choosing the splice index: the layer at which the output switches from the
 * first file to the second. In the source this is inline in `main`.
 */
module SplicePlanner {
  import opened Wrappers

  /** The index tried and the largest index allowed. */
  datatype PlanError = OutOfRange(index: int, total: nat)

  function Min(a: nat, b: nat): (m: nat)
    ensures m <= a && m <= b && (m == a || m == b)
  {
    if a <= b then a else b
  }

  /**
   * Defaults to half the smaller layer count; accepts an index exactly when it
   * lies in 0 ..= the smaller layer count, both ends included.
   */
  function Plan(countA: nat, countB: nat, requested: Option<int>): (r: Result<nat, PlanError>)
    ensures r.Success? <==> (requested.None? || 0 <= requested.value <= Min(countA, countB))
    ensures r.Success? ==> r.value <= countA && r.value <= countB
    ensures requested.None? ==> r == Success(Min(countA, countB) / 2)
    ensures requested.Some? && r.Success? ==> r.value == requested.value
    ensures r.Failure? ==> r.error == OutOfRange(requested.value, Min(countA, countB))
  {
    var total := Min(countA, countB);
    var splice := if requested.Some? then requested.value else total / 2;
    if 0 <= splice <= total then Success(splice) else Failure(OutOfRange(splice, total))
  }
}
