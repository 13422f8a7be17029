/**
 * The three-tier classifier `determineStatus`: a window is dangerous when
 * the mean delta, the standard deviation of the deltas and the mean SVM all
 * reach their thresholds, calls for caution when some but not all of them
 * do, and is safe when none does.
 */
module Classifier {

  datatype Status = Safe | Caution | Danger

  const MeanDeltaThreshold: real := 2.0
  const StdDeltaThreshold: real := 2.5
  const MeanSvmThreshold: real := 13.0

  /** The strings the service broadcasts and writes to its log. */
  function Label(st: Status): string
  {
    match st
    case Safe => "안전"
    case Caution => "주의"
    case Danger => "위험"
  }

  /** safe < caution < danger */
  function Severity(st: Status): (n: nat)
    ensures n <= 2
  {
    match st
    case Safe => 0
    case Caution => 1
    case Danger => 2
  }

  /** How many of the three threshold conditions a window meets. */
  function ConditionsMet(meanSvm: real, meanDelta: real, stdDelta: real): (n: nat)
    ensures n <= 3
  {
    (if meanDelta >= MeanDeltaThreshold then 1 else 0)
    + (if stdDelta >= StdDeltaThreshold then 1 else 0)
    + (if meanSvm >= MeanSvmThreshold then 1 else 0)
  }

  /** The three-tier classification of the mean SVM, the mean delta and the spread of the deltas. */
  function DetermineStatus(meanSvm: real, meanDelta: real, stdDelta: real): (st: Status)
    ensures st == Danger <==> ConditionsMet(meanSvm, meanDelta, stdDelta) == 3
    ensures st == Caution <==> 1 <= ConditionsMet(meanSvm, meanDelta, stdDelta) <= 2
    ensures st == Safe <==> ConditionsMet(meanSvm, meanDelta, stdDelta) == 0
  {
    if meanDelta >= MeanDeltaThreshold && stdDelta >= StdDeltaThreshold && meanSvm >= MeanSvmThreshold then Danger
    else if meanDelta >= MeanDeltaThreshold || stdDelta >= StdDeltaThreshold || meanSvm >= MeanSvmThreshold then Caution
    else Safe
  }

  /** The three labels are distinct, so the label identifies the status. */
  lemma LabelInjective(a: Status, b: Status)
    requires Label(a) == Label(b)
    ensures a == b
  {
  }

  /** Raising the mean SVM, the mean delta or their spread never lowers the severity. */
  lemma StatusMonotone(m1: real, d1: real, s1: real, m2: real, d2: real, s2: real)
    requires m1 <= m2 && d1 <= d2 && s1 <= s2
    ensures Severity(DetermineStatus(m1, d1, s1)) <= Severity(DetermineStatus(m2, d2, s2))
  {
  }

  /** The same classification taken from the variance of the deltas instead of their standard deviation. */
  function StatusFromVariance(meanSvm: real, meanDelta: real, varDelta: real): Status
  {
    var spread := varDelta >= StdDeltaThreshold * StdDeltaThreshold;
    if meanDelta >= MeanDeltaThreshold && spread && meanSvm >= MeanSvmThreshold then Danger
    else if meanDelta >= MeanDeltaThreshold || spread || meanSvm >= MeanSvmThreshold then Caution
    else Safe
  }

  lemma SquareAtLeastThreshold(sd: real)
    requires sd >= 2.5
    ensures sd * sd >= 6.25
  {
  }

  lemma SquareBelowThreshold(sd: real)
    requires 0.0 <= sd < 2.5
    ensures sd * sd < 6.25
  {
    assert sd * sd <= sd * 2.5;
  }

  /** For a non-negative standard deviation, reaching 2.5 is the same as its square reaching 6.25. */
  lemma StdThresholdBySquare(sd: real)
    requires sd >= 0.0
    ensures sd >= StdDeltaThreshold <==> sd * sd >= StdDeltaThreshold * StdDeltaThreshold
  {
    if sd >= 2.5 {
      SquareAtLeastThreshold(sd);
    } else {
      SquareBelowThreshold(sd);
    }
  }

  /** Classifying by the variance agrees with `determineStatus` on its square root. */
  lemma StatusFromVarianceAgrees(meanSvm: real, meanDelta: real, sd: real, varDelta: real)
    requires sd >= 0.0 && sd * sd == varDelta
    ensures StatusFromVariance(meanSvm, meanDelta, varDelta) == DetermineStatus(meanSvm, meanDelta, sd)
  {
    StdThresholdBySquare(sd);
  }
}
