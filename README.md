# IMU risk monitor: per-sample pipeline, verified in Dafny

This project models the part of the Android IMU logging service that turns
accelerometer readings into risk levels (`IMUSensorService.onSensorChanged`
with its helpers `stdDev` and `determineStatus`). For each accelerometer
reading the service:

1. takes the signal vector magnitude (SVM) and its delta: the distance to the
   previous reading's SVM, or 0 for the very first reading;
2. appends both values to two sliding windows (`svmList`, `deltaList`) of
   capacity 350 and drops the head of a window that has grown past 350;
3. counts the sample and, once the SVM window is full and at least 175 samples
   have arrived since the last evaluation, evaluates the windows. An evaluation
   resets the counter, increments the window index and computes the mean SVM,
   the mean delta and the population standard deviation of the deltas;
4. classifies those three numbers as safe (`안전`), caution (`주의`) or
   danger (`위험`), and on danger vibrates and posts a notification.

Modules, one per component:

- `Wrappers`: `Option`, for Kotlin's nullable `previousSVM`.
- `Magnitude`: the sensor event, the SVM as the square root of `x² + y² + z²`,
  the delta of one sample, and the deltas of a whole stream.
- `SlidingWindow`: push with single head eviction, and the last-n view of a stream.
- `Statistics`: sum, mean, squared deviations and population variance, all over
  `real`. The standard deviation is the one `sd >= 0` with `sd * sd == Variance`.
- `Classifier`: the three-tier `determineStatus`, its labels and severity order,
  and the same classification read off the variance.
- `Scheduler`: the step counter and the window index. It has a per-sample
  `Tick`, the closed forms after `n` samples, and the cadence (first
  evaluation at sample 350, then every 175 samples).
- `SensorService`: the class `IMUSensorService`. It holds the source's fields
  (`svmList`, `deltaList`, `sampleCounter`, `windowIndex`, `previousSvm`) and
  a ghost record `fed` of every SVM fed so far. `Valid()` says that every
  field is a function of `fed`. `OnSensorChanged` updates the fields step by
  step, as the source does. It returns the evaluation record, if any, and an
  `alert` flag that stands for the vibration and the notification.

Two behaviours of the code worth knowing, both modelled as written:

- The alert fires on every evaluation whose status is danger, also when the
  previous evaluation was already danger.
- The new value is appended first, and the head is removed once the window
  holds 351 values; the window then holds the same 350 values as evicting
  first would give.

## Model

| member | source | states |
|---|---|---|
| `SensorService.IMUSensorService.Valid` | app/src/main/java/com/example/imu_0324_2/IMUSensorService.kt:19-25 | the two windows always have equal length, at most 350, and are full exactly when at least 350 samples have been fed |
| `SensorService.IMUSensorService.constructor` | app/src/main/java/com/example/imu_0324_2/IMUSensorService.kt:19-25 | a new service has empty windows, counter and index 0 and no previous SVM |
| `SensorService.IMUSensorService.OnSensorChanged` | app/src/main/java/com/example/imu_0324_2/IMUSensorService.kt:74-121 | other sensors change nothing; an accelerometer sample is pushed into both windows and sets `previousSVM`; an evaluation happens exactly when the window is full and the incremented counter reaches 175, which is exactly at samples 350, 525, 700, …; it then resets the counter, adds one to the index and reports the window means, the delta variance and the status read off that variance, which is the status `determineStatus` gives for the deltas' standard deviation; the index is unchanged otherwise; the alert is raised exactly on an evaluation whose status is danger |
| `SensorService.IMUSensorService.PushSample` | app/src/main/java/com/example/imu_0324_2/IMUSensorService.kt:86-93 | the delta is the step's delta from the previous SVM, `previousSVM` becomes the new SVM, and each window is the old window with the value pushed |
| `SensorService.IMUSensorService.EvaluateWindows` | app/src/main/java/com/example/imu_0324_2/IMUSensorService.kt:98-102 | the record holds the mean of each window and the variance of the deltas; its status is the classification of those three values, and equals `determineStatus(meanSVM, meanDelta, sd)` for the standard deviation `sd` of the delta window |
| `SensorService.WindowsFollowStream` | app/src/main/java/com/example/imu_0324_2/IMUSensorService.kt:86-93 | pushing the next SVM and its delta keeps each window equal to the last 350 values of its stream |
| `SensorService.SteadyStreamIsSafe` | app/src/main/java/com/example/imu_0324_2/IMUSensorService.kt:96-102 | a full window fed a steady SVM below 13.0 (a device at rest) is classified safe |
| `Magnitude.IsSvm` | app/src/main/java/com/example/imu_0324_2/IMUSensorService.kt:85 | no contract of its own: it characterises the SVM as the non-negative root of x² + y² + z²; `Magnitude.SvmUnique` proves that this pins exactly one value |
| `Magnitude.Delta` | app/src/main/java/com/example/imu_0324_2/IMUSensorService.kt:86 | the delta is never negative; it is 0 without a previous SVM and the distance between the two SVMs otherwise |
| `Magnitude.LastOf` | app/src/main/java/com/example/imu_0324_2/IMUSensorService.kt:87 | no contract of its own: `previousSVM` after a stream is its last SVM, or none for an empty stream; `SensorService.IMUSensorService.Valid` keeps the field equal to it and `Magnitude.DeltasExtend` uses it for the next delta |
| `Magnitude.Deltas` | app/src/main/java/com/example/imu_0324_2/IMUSensorService.kt:85-87 | a stream has one delta per SVM and every delta is at least 0 |
| `Magnitude.DeltasExtend` | app/src/main/java/com/example/imu_0324_2/IMUSensorService.kt:86-87 | the stream's deltas grow by exactly the delta that the per-sample step computes from `previousSVM` |
| `Magnitude.SteadyStreamHasZeroDeltas` | app/src/main/java/com/example/imu_0324_2/IMUSensorService.kt:86 | a stream of equal SVMs has only zero deltas |
| `Magnitude.SvmUnique` | app/src/main/java/com/example/imu_0324_2/IMUSensorService.kt:84-85 | a reading has at most one SVM: two non-negative roots of x² + y² + z² are equal |
| `SlidingWindow.LastN` | app/src/main/java/com/example/imu_0324_2/IMUSensorService.kt:89-93 | the view of the last n values has length min(length, n) |
| `SlidingWindow.Push` | app/src/main/java/com/example/imu_0324_2/IMUSensorService.kt:89-93 | a push keeps the window within capacity; below capacity it only appends; at capacity the length stays at capacity, the head is dropped and the value appended |
| `SlidingWindow.PushAll` | app/src/main/java/com/example/imu_0324_2/IMUSensorService.kt:89-93 | any number of pushes keeps the window within capacity |
| `SlidingWindow.PushKeepsSuffix` | app/src/main/java/com/example/imu_0324_2/IMUSensorService.kt:89-93 | pushing onto the last n values of a stream gives the last n values of the extended stream |
| `SlidingWindow.PushAllIsSuffix` | app/src/main/java/com/example/imu_0324_2/IMUSensorService.kt:89-93 | an empty window fed a stream holds exactly the stream's last `capacity` values, in arrival order |
| `SlidingWindow.FifoEviction` | app/src/main/java/com/example/imu_0324_2/IMUSensorService.kt:89-93 | after pushing v1..v(capacity+k) the window holds v(k+1)..v(capacity+k); before that it holds everything pushed; its length is min(pushed, capacity) |
| `Statistics.Mean` | app/src/main/java/com/example/imu_0324_2/IMUSensorService.kt:98-99 | no contract of its own: `average()` as the sum divided by the count, defined for non-empty windows; `Statistics.MeanBounds`, `Statistics.MeanNonNegative` and `Statistics.MeanConstant` carry its properties |
| `Statistics.Variance` | app/src/main/java/com/example/imu_0324_2/IMUSensorService.kt:211-213 | no contract of its own: the mean of the squared deviations from the mean (population variance, divided by n); `Statistics.VarianceNonNegative`, `Statistics.ConstantHasZeroVariance` and `Statistics.SmallWindowExample` carry its properties |
| `Statistics.IsStdDev` | app/src/main/java/com/example/imu_0324_2/IMUSensorService.kt:211-214 | no contract of its own: what `stdDev` returns, the non-negative square root of the variance; `Statistics.StdDevUnique` proves there is only one |
| `Statistics.SquaredDeviations` | app/src/main/java/com/example/imu_0324_2/IMUSensorService.kt:213 | one squared deviation per window value, and none of them is negative |
| `Statistics.SumBounds` | app/src/main/java/com/example/imu_0324_2/IMUSensorService.kt:98-99 | the sum of n values between lo and hi is between n·lo and n·hi |
| `Statistics.MeanBounds` | app/src/main/java/com/example/imu_0324_2/IMUSensorService.kt:98-99 | `average()` lies between any lower and upper bound of the values |
| `Statistics.SumNonNegative` | app/src/main/java/com/example/imu_0324_2/IMUSensorService.kt:98-99 | a sum of non-negative values is non-negative, and it is 0 only when every value is 0 |
| `Statistics.MeanNonNegative` | app/src/main/java/com/example/imu_0324_2/IMUSensorService.kt:99 | the mean of non-negative values, such as the deltas, is non-negative |
| `Statistics.SumConstant` | app/src/main/java/com/example/imu_0324_2/IMUSensorService.kt:98-99 | the sum of n copies of c is n·c |
| `Statistics.MeanConstant` | app/src/main/java/com/example/imu_0324_2/IMUSensorService.kt:98-99 | a window of equal values has that value as its mean |
| `Statistics.StdDevUnique` | app/src/main/java/com/example/imu_0324_2/IMUSensorService.kt:211-214 | a window has at most one standard deviation, so a status stated for every standard deviation is stated for the one `stdDev` returns |
| `Statistics.VarianceNonNegative` | app/src/main/java/com/example/imu_0324_2/IMUSensorService.kt:211-214 | the population variance under `stdDev` is never negative, so its square root exists |
| `Statistics.ConstantHasZeroVariance` | app/src/main/java/com/example/imu_0324_2/IMUSensorService.kt:211-214 | a window whose values all equal some c has variance 0, and so standard deviation 0 |
| `Statistics.SmallWindowExample` | app/src/main/java/com/example/imu_0324_2/IMUSensorService.kt:211-214 | the window [1, 2, 3, 4] has mean 2.5 and variance 1.25: the squared deviations are divided by n, not by n − 1 |
| `Classifier.Label` | app/src/main/java/com/example/imu_0324_2/IMUSensorService.kt:218-220 | no contract of its own: the three status strings `위험`, `주의`, `안전`; `Classifier.LabelInjective` proves they are distinct |
| `Classifier.Severity` | app/src/main/java/com/example/imu_0324_2/IMUSensorService.kt:216-222 | severities run from 0 to 2 |
| `Classifier.ConditionsMet` | app/src/main/java/com/example/imu_0324_2/IMUSensorService.kt:218-219 | at most three threshold conditions can hold |
| `Classifier.DetermineStatus` | app/src/main/java/com/example/imu_0324_2/IMUSensorService.kt:216-222 | danger exactly when all three conditions hold (mean delta ≥ 2.0, std delta ≥ 2.5, mean SVM ≥ 13.0); caution exactly when one or two hold; safe exactly when none holds |
| `Classifier.LabelInjective` | app/src/main/java/com/example/imu_0324_2/IMUSensorService.kt:218-220 | the three status strings are distinct, so comparing labels is comparing statuses |
| `Classifier.StatusMonotone` | app/src/main/java/com/example/imu_0324_2/IMUSensorService.kt:216-222 | raising the mean SVM, the mean delta or the std delta never lowers the severity |
| `Classifier.StdThresholdBySquare` | app/src/main/java/com/example/imu_0324_2/IMUSensorService.kt:218-219 | for a non-negative standard deviation, reaching 2.5 is the same as its square reaching 6.25 |
| `Classifier.StatusFromVariance` | app/src/main/java/com/example/imu_0324_2/IMUSensorService.kt:102 | no contract of its own: the status the service computes for a window, with the spread test on the variance against 2.5²; `Classifier.StatusFromVarianceAgrees` proves it equals `determineStatus` at the standard deviation |
| `Classifier.StatusFromVarianceAgrees` | app/src/main/java/com/example/imu_0324_2/IMUSensorService.kt:211-222 | classifying with the variance of the deltas gives the same status as `determineStatus` with its square root |
| `Scheduler.Tick` | app/src/main/java/com/example/imu_0324_2/IMUSensorService.kt:94-103 | no contract of its own: the counter bookkeeping of one sample; `Scheduler.TickStep`, `Scheduler.RunClosedForm`, `Scheduler.IndexCountsEvaluations` and `Scheduler.EvaluationSpacing` carry its properties |
| `Scheduler.TickStep` | app/src/main/java/com/example/imu_0324_2/IMUSensorService.kt:94-103 | one sample takes the counter and the index from their values after n samples to their values after n + 1 samples, and evaluates exactly when sample n + 1 fires |
| `Scheduler.RunClosedForm` | app/src/main/java/com/example/imu_0324_2/IMUSensorService.kt:94-103 | after n samples the counter is n below 350, and (n − 350) mod 175 after that; the index is 0 below 350, and (n − 350) div 175 + 1 after that |
| `Scheduler.IndexCountsEvaluations` | app/src/main/java/com/example/imu_0324_2/IMUSensorService.kt:96-103 | after n samples the window index equals the number of evaluations so far |
| `Scheduler.FirstEvaluation` | app/src/main/java/com/example/imu_0324_2/IMUSensorService.kt:96 | the first evaluation is at sample 350 and none comes earlier |
| `Scheduler.EvaluationSpacing` | app/src/main/java/com/example/imu_0324_2/IMUSensorService.kt:94-97 | after an evaluation the next one comes exactly 175 samples later, with none in between |

## Left out

- Android service plumbing: wake lock, sensor registration, the foreground notification, `onDestroy` and the activity re-open timer. These are platform calls.
- The logging of the interval between sensor timestamps. It only logs and never gates a sample.
- The CSV log: creating the file, the header, and the `%.2f` row with a wall-clock timestamp. This is file I/O and float formatting. The evaluation record carries the row's numbers.
- The status broadcast, the vibration and the danger notification. These are foreign Android calls. The returned evaluation and the `alert` flag stand for them.
- Floating point: all values are Dafny `real`. There is no rounding, no NaN and no infinity. `sqrt`, `average` and `pow` are exact.
- Square roots: Dafny has no `sqrt`. `OnSensorChanged` receives the reading's SVM beside the event, and its requires clause says that this SVM is the non-negative root of x² + y² + z². The standard deviation is characterised by `IsStdDev`, not computed.
- SensorService.IMUSensorService.EvaluateWindows: the record holds the variance of the deltas, not `stdDelta`, because there is no square root to compute. Its ensures gives the status as the classification of the variance, and relates it to the standard deviation of the window, which `Statistics.StdDevUnique` shows is unique.
- Statistics.Mean: requires a non-empty window. On an empty collection Kotlin's `average()` returns NaN, but the service only averages full windows.
- `sampleCounter` and `windowIndex` are Kotlin `Int`s and are modelled as unbounded `nat`. The counter never exceeds 350. The index would need about 2³¹ evaluations, one every 7 seconds, to wrap.
- Concurrency is not modelled. Android delivers sensor events one at a time on one thread, so each call is sequential.
- `MainActivity` (status labels on screen, start/stop buttons, copying the log) and `AlertActivity` (lock-screen alert display). These are user interface.
- The service has no escalation state machine, cooldown, quartile statistics or rate gate, so none is modelled.
