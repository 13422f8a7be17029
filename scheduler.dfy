/**
 * The evaluation cadence of `onSensorChanged`: every sample bumps
 * `sampleCounter`; when the SVM window is full and at least `stepSize`
 * samples have arrived since the last evaluation, the window is evaluated,
 * `sampleCounter` goes back to 0 and `windowIndex` goes up by one.
 */
module Scheduler {

  const WindowSize: nat := 350
  const StepSize: nat := 175

  datatype Counters = Counters(sampleCounter: nat, windowIndex: nat)

  /**
   * The bookkeeping for one sample, given the length of the SVM window after
   * the sample was pushed: the new counters, and whether the window is evaluated.
   */
  function Tick(c: Counters, windowLength: nat): (Counters, bool)
  {
    var counter := c.sampleCounter + 1;
    if windowLength == WindowSize && counter >= StepSize then (Counters(0, c.windowIndex + 1), true)
    else (Counters(counter, c.windowIndex), false)
  }

  /** The counters after `n` samples, by running `Tick` from the initial state. */
  function Run(n: nat): Counters
  {
    if n == 0 then Counters(0, 0)
    else Tick(Run(n - 1), if n < WindowSize then n else WindowSize).0
  }

  /** Whether the `n`-th sample (counting from 1) triggers an evaluation. */
  predicate Fires(n: nat)
  {
    n >= WindowSize && (n - WindowSize) % StepSize == 0
  }

  /** `sampleCounter` after `n` samples, in closed form. */
  function CounterAfter(n: nat): nat
  {
    if n < WindowSize then n else (n - WindowSize) % StepSize
  }

  /** `windowIndex` after `n` samples, in closed form: the number of evaluations so far. */
  function IndexAfter(n: nat): nat
  {
    if n < WindowSize then 0 else (n - WindowSize) / StepSize + 1
  }

  /** The number of samples among the first `n` that trigger an evaluation. */
  function CountFires(n: nat): nat
  {
    if n == 0 then 0 else CountFires(n - 1) + (if Fires(n) then 1 else 0)
  }

  /**
   * One `Tick` from the closed-form counters after `n` samples gives the closed-form
   * counters after `n + 1` samples, and it evaluates exactly when sample `n + 1` fires.
   */
  lemma TickStep(n: nat)
    ensures Tick(Counters(CounterAfter(n), IndexAfter(n)), if n + 1 < WindowSize then n + 1 else WindowSize)
         == (Counters(CounterAfter(n + 1), IndexAfter(n + 1)), Fires(n + 1))
  {
    if n + 1 > WindowSize {
      var k := n - WindowSize;
      assert k + 1 == n + 1 - WindowSize;
      if k % StepSize == StepSize - 1 {
        assert (k + 1) % StepSize == 0 && (k + 1) / StepSize == k / StepSize + 1;
      } else {
        assert (k + 1) % StepSize == k % StepSize + 1 && (k + 1) / StepSize == k / StepSize;
      }
    }
  }

  /** Running the per-sample bookkeeping yields the closed forms. */
  lemma {:induction false} RunClosedForm(n: nat)
    ensures Run(n) == Counters(CounterAfter(n), IndexAfter(n))
  {
    if n > 0 {
      RunClosedForm(n - 1);
      TickStep(n - 1);
    }
  }

  /** `windowIndex` counts the evaluations: after `n` samples it equals the number of samples that fired. */
  lemma {:induction false} IndexCountsEvaluations(n: nat)
    ensures CountFires(n) == IndexAfter(n)
  {
    if n > 0 {
      IndexCountsEvaluations(n - 1);
      TickStep(n - 1);
    }
  }

  /** The first evaluation happens at sample 350, and never before. */
  lemma FirstEvaluation(n: nat)
    ensures Fires(WindowSize)
    ensures n < WindowSize ==> !Fires(n)
  {
  }

  /** After an evaluation, the next one comes exactly 175 samples later. */
  lemma EvaluationSpacing(n: nat, k: nat)
    requires Fires(n)
    ensures Fires(n + StepSize)
    ensures n < k < n + StepSize ==> !Fires(k)
  {
    var q := (n - WindowSize) / StepSize;
    assert n - WindowSize == q * StepSize;
    assert n + StepSize - WindowSize == (q + 1) * StepSize;
    if n < k < n + StepSize {
      assert (k - WindowSize) / StepSize == q;
    }
  }
}
