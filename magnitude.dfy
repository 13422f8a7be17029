/**
 * The per-sample magnitude and delta of `onSensorChanged`: the SVM (signal
 * vector magnitude) of an accelerometer reading, and its distance from the
 * previous reading's SVM, 0 for the very first reading.
 */
module Magnitude {

  import opened Wrappers
  import opened Statistics

  /** An accelerometer reading; readings from other sensors are ignored. */
  datatype SensorEvent = SensorEvent(isAccelerometer: bool, x: real, y: real, z: real)

  /** `svm` is the non-negative square root of the sum of the squared axes of the reading. */
  ghost predicate IsSvm(svm: real, e: SensorEvent)
  {
    svm >= 0.0 && svm * svm == e.x * e.x + e.y * e.y + e.z * e.z
  }

  function Abs(r: real): real
  {
    if r < 0.0 then -r else r
  }

  /** The distance from the previous SVM, or 0 when there is none. */
  function Delta(previous: Option<real>, svm: real): (d: real)
    ensures d >= 0.0
    ensures previous == None ==> d == 0.0
    ensures previous.Some? ==> d == svm - previous.value || d == previous.value - svm
  {
    match previous
    case None => 0.0
    case Some(p) => Abs(svm - p)
  }

  /** `previousSVM` once the SVMs `svms` have been fed: the last of them, or none. */
  function LastOf(svms: seq<real>): Option<real>
  {
    if svms == [] then None else Some(svms[|svms| - 1])
  }

  /** The delta of every sample of a stream of SVMs: 0 for the first, the distance to its predecessor after. */
  function Deltas(svms: seq<real>): (ds: seq<real>)
    ensures |ds| == |svms|
    ensures forall i :: 0 <= i < |ds| ==> ds[i] >= 0.0
  {
    seq(|svms|, i requires 0 <= i < |svms| => if i == 0 then 0.0 else Abs(svms[i] - svms[i - 1]))
  }

  /** Feeding one more SVM appends the delta that the per-sample step computes from `previousSVM`. */
  lemma DeltasExtend(svms: seq<real>, v: real)
    ensures Deltas(svms + [v]) == Deltas(svms) + [Delta(LastOf(svms), v)]
  {
    var t := svms + [v];
    assert forall i :: 0 <= i < |svms| ==> t[i] == svms[i];
  }

  /** A stream of equal SVMs has every delta 0. */
  lemma SteadyStreamHasZeroDeltas(svms: seq<real>, c: real)
    requires forall i :: 0 <= i < |svms| ==> svms[i] == c
    ensures forall i :: 0 <= i < |svms| ==> Deltas(svms)[i] == 0.0
  {
  }

  /** A reading has only one SVM, so the SVM given beside an event is not a free choice. */
  lemma SvmUnique(e: SensorEvent, s1: real, s2: real)
    requires IsSvm(s1, e) && IsSvm(s2, e)
    ensures s1 == s2
  {
    NonNegativeRootUnique(s1, s2);
  }
}
