/**
 * The per-sample pipeline of the IMU sensor service (`onSensorChanged`):
 * derive the SVM's delta, push both values into their windows, count the
 * sample, and when the scheduler says so evaluate the windows, classify
 * them, advance the window index and raise the danger alert.
 *
 * Vibration, notification, broadcast and the CSV row are the service's
 * side effects; here they are replaced by the returned evaluation record
 * and the `alert` flag.
 */
module SensorService {

  import opened Wrappers
  import opened SlidingWindow
  import opened Statistics
  import opened Classifier
  import opened Scheduler
  import opened Magnitude

  /**
   * What an evaluation reports (the CSV row and the broadcast). The standard
   * deviation of the deltas is the non-negative square root of `varianceDelta`.
   */
  datatype Evaluation = Evaluation(index: nat, meanSvm: real, meanDelta: real, varianceDelta: real, status: Status)

  class IMUSensorService {
    var svmList: seq<real>
    var deltaList: seq<real>
    var sampleCounter: nat
    var windowIndex: nat
    var previousSvm: Option<real>

    /** Every SVM fed so far, in arrival order. */
    ghost var fed: seq<real>

    /** The whole state is a function of the SVMs fed so far. */
    ghost predicate Valid()
      reads this
      ensures Valid() ==> |svmList| == |deltaList| <= WindowSize
      ensures Valid() ==> (|svmList| == WindowSize <==> |fed| >= WindowSize)
    {
      && svmList == LastN(fed, WindowSize)
      && deltaList == LastN(Deltas(fed), WindowSize)
      && previousSvm == LastOf(fed)
      && sampleCounter == CounterAfter(|fed|)
      && windowIndex == IndexAfter(|fed|)
    }

    constructor ()
      ensures Valid() && fed == []
      ensures svmList == [] && deltaList == [] && previousSvm == None
      ensures sampleCounter == 0 && windowIndex == 0
    {
      svmList, deltaList := [], [];
      sampleCounter, windowIndex := 0, 0;
      previousSvm := None;
      fed := [];
    }

    /** `onSensorChanged`, given the event and the SVM of its reading. */
    method OnSensorChanged(e: SensorEvent, svm: real) returns (evaluation: Option<Evaluation>, alert: bool)
      requires Valid()
      requires IsSvm(svm, e)
      modifies this
      ensures Valid()
      ensures !e.isAccelerometer ==> unchanged(this) && evaluation == None && !alert
      ensures e.isAccelerometer ==> fed == old(fed) + [svm] && previousSvm == Some(svm)
      ensures e.isAccelerometer ==> svmList == Push(old(svmList), svm, WindowSize)
      ensures e.isAccelerometer ==> deltaList == Push(old(deltaList), Delta(old(previousSvm), svm), WindowSize)
      ensures evaluation.Some? <==> e.isAccelerometer && Fires(|fed|)
      ensures evaluation.Some? <==> e.isAccelerometer && |svmList| == WindowSize && old(sampleCounter) + 1 >= StepSize
      ensures e.isAccelerometer ==> sampleCounter == if evaluation.Some? then 0 else old(sampleCounter) + 1
      ensures windowIndex == if evaluation.Some? then old(windowIndex) + 1 else old(windowIndex)
      ensures evaluation.Some? ==>
        && |svmList| == |deltaList| == WindowSize
        && evaluation.value.index == windowIndex
        && evaluation.value.meanSvm == Mean(svmList)
        && evaluation.value.meanDelta == Mean(deltaList)
        && evaluation.value.varianceDelta == Variance(deltaList)
        && evaluation.value.status == StatusFromVariance(Mean(svmList), Mean(deltaList), Variance(deltaList))
      ensures evaluation.Some? ==> forall sd :: IsStdDev(sd, deltaList) ==>
        evaluation.value.status == DetermineStatus(evaluation.value.meanSvm, evaluation.value.meanDelta, sd)
      ensures alert <==> evaluation.Some? && evaluation.value.status == Danger
    {
      evaluation, alert := None, false;
      if !e.isAccelerometer {
        return;
      }

      ghost var fed0 := fed;
      var delta := PushSample(svm);
      sampleCounter := sampleCounter + 1;

      fed := fed + [svm];
      WindowsFollowStream(fed0, svm);
      TickStep(|fed0|);

      if |svmList| == WindowSize && sampleCounter >= StepSize {
        sampleCounter := 0;
        windowIndex := windowIndex + 1;
        var ev := EvaluateWindows(windowIndex);
        evaluation := Some(ev);
        alert := ev.status == Danger;
      }
    }

    /** The first half of the per-sample step: the delta, `previousSVM`, and the push into both windows. */
    method PushSample(svm: real) returns (delta: real)
      requires |svmList| <= WindowSize && |deltaList| <= WindowSize
      modifies this`previousSvm, this`svmList, this`deltaList
      ensures delta == Delta(old(previousSvm), svm) && previousSvm == Some(svm)
      ensures svmList == Push(old(svmList), svm, WindowSize)
      ensures deltaList == Push(old(deltaList), delta, WindowSize)
    {
      delta := if previousSvm.Some? then Abs(svm - previousSvm.value) else 0.0;
      previousSvm := Some(svm);

      svmList := svmList + [svm];
      deltaList := deltaList + [delta];

      if |svmList| > WindowSize {
        svmList := svmList[1..];
      }
      if |deltaList| > WindowSize {
        deltaList := deltaList[1..];
      }
    }

    /** The window statistics and their status, as an evaluation computes them. */
    method EvaluateWindows(index: nat) returns (ev: Evaluation)
      requires |svmList| == |deltaList| == WindowSize
      ensures ev.index == index
      ensures ev.meanSvm == Mean(svmList) && ev.meanDelta == Mean(deltaList)
      ensures ev.varianceDelta == Variance(deltaList)
      ensures ev.status == StatusFromVariance(ev.meanSvm, ev.meanDelta, ev.varianceDelta)
      ensures forall sd :: IsStdDev(sd, deltaList) ==> ev.status == DetermineStatus(ev.meanSvm, ev.meanDelta, sd)
    {
      var meanSvm := Mean(svmList);
      var meanDelta := Mean(deltaList);
      var varianceDelta := Variance(deltaList);
      var status := StatusFromVariance(meanSvm, meanDelta, varianceDelta);
      ev := Evaluation(index, meanSvm, meanDelta, varianceDelta, status);

      forall sd | IsStdDev(sd, deltaList)
        ensures status == DetermineStatus(meanSvm, meanDelta, sd)
      {
        StatusFromVarianceAgrees(meanSvm, meanDelta, sd, varianceDelta);
      }
    }
  }

  /** Both windows stay the last 350 values of their streams when one more SVM arrives. */
  lemma WindowsFollowStream(fed: seq<real>, svm: real)
    ensures Push(LastN(fed, WindowSize), svm, WindowSize) == LastN(fed + [svm], WindowSize)
    ensures Push(LastN(Deltas(fed), WindowSize), Delta(LastOf(fed), svm), WindowSize)
         == LastN(Deltas(fed + [svm]), WindowSize)
  {
    PushKeepsSuffix(fed, svm, WindowSize);
    DeltasExtend(fed, svm);
    PushKeepsSuffix(Deltas(fed), Delta(LastOf(fed), svm), WindowSize);
  }

  /**
   * A device at rest: once a steady stream of SVMs below 13.0 has filled the
   * window, the evaluation is safe (mean delta 0, variance 0, mean SVM `c`).
   */
  lemma SteadyStreamIsSafe(svms: seq<real>, c: real)
    requires |svms| >= WindowSize
    requires c < MeanSvmThreshold
    requires forall i :: 0 <= i < |svms| ==> svms[i] == c
    ensures var w := LastN(svms, WindowSize);
            var d := LastN(Deltas(svms), WindowSize);
            StatusFromVariance(Mean(w), Mean(d), Variance(d)) == Safe
  {
    var w := LastN(svms, WindowSize);
    var d := LastN(Deltas(svms), WindowSize);
    assert AllEqualTo(w, c);
    MeanConstant(w, c);
    SteadyStreamHasZeroDeltas(svms, c);
    assert AllEqualTo(d, 0.0);
    MeanConstant(d, 0.0);
    ConstantHasZeroVariance(d, 0.0);
  }
}
