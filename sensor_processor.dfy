/**
 * The hazard detector: speed- and vehicle-dependent thresholds, a bounded
 * window of vertical accelerations and speeds, a 2000 ms cooldown after every
 * detection, and a first-match classifier (speed breaker, then pothole, then
 * broken patch).
 *
 * The detector's state is modelled twice: as the class SensorProcessor, whose
 * method DetectEvent updates the buffers in place as the source does, and as
 * the value DetectorState with the function Detect, which specifies one call
 * of DetectEvent. The properties of the detector are lemmas about Detect and
 * about Run, which feeds a whole sequence of samples through it.
 */
module SensorProcessing {
  import opened RoadTypes

  const CooldownMs: int := 2000
  const WindowCapacity: nat := 10
  const MinFill: nat := 5
  /** Speed (km/h) above which the thresholds are raised. */
  const BaseSpeedKmh: real := 20.0
  const ScalingFactor: real := 0.05

  /** A pair of detection thresholds, in m/s^2. */
  datatype Thresholds = Thresholds(speedBreaker: real, pothole: real)

  // ---------------------------------------------------------------------------
  // Thresholds
  // ---------------------------------------------------------------------------

  /** Base thresholds per vehicle class; stiffer vehicles get lower ones. */
  function BaseThresholds(vehicleType: VehicleType): (t: Thresholds)
    ensures 0.0 < t.pothole < t.speedBreaker
  {
    match vehicleType
    case TWO_WHEELER => Thresholds(1.8, 0.714)
    case THREE_WHEELER => Thresholds(1.47, 0.612)
    case FOUR_WHEELER => Thresholds(1.08, 0.41)
  }

  /** The factor applied to both base thresholds at a given speed (km/h). */
  function SpeedFactor(speed: real): (f: real)
    ensures f >= 1.0
    ensures f > 1.0 <==> speed > BaseSpeedKmh
  {
    if speed > BaseSpeedKmh then 1.0 + (speed - BaseSpeedKmh) * ScalingFactor / 20.0 else 1.0
  }

  function CalculateDynamicThreshold(speed: real, vehicleType: VehicleType): (t: Thresholds)
    ensures speed <= BaseSpeedKmh ==> t == BaseThresholds(vehicleType)
    ensures speed > BaseSpeedKmh ==>
              t.speedBreaker > BaseThresholds(vehicleType).speedBreaker &&
              t.pothole > BaseThresholds(vehicleType).pothole
    // both thresholds are scaled by the same factor, so their ratio is kept
    ensures t.speedBreaker * BaseThresholds(vehicleType).pothole
            == t.pothole * BaseThresholds(vehicleType).speedBreaker
    ensures 0.0 < t.pothole < t.speedBreaker
  {
    var base := BaseThresholds(vehicleType);
    var factor := SpeedFactor(speed);
    Thresholds(base.speedBreaker * factor, base.pothole * factor)
  }

  /** Raising the speed never lowers either threshold. */
  lemma ThresholdsMonotoneInSpeed(slower: real, faster: real, vehicleType: VehicleType)
    requires slower <= faster
    ensures CalculateDynamicThreshold(slower, vehicleType).speedBreaker
            <= CalculateDynamicThreshold(faster, vehicleType).speedBreaker
    ensures CalculateDynamicThreshold(slower, vehicleType).pothole
            <= CalculateDynamicThreshold(faster, vehicleType).pothole
  {
    var base := BaseThresholds(vehicleType);
    assert SpeedFactor(slower) <= SpeedFactor(faster);
    assert base.speedBreaker * SpeedFactor(slower) <= base.speedBreaker * SpeedFactor(faster);
    assert base.pothole * SpeedFactor(slower) <= base.pothole * SpeedFactor(faster);
  }

  // ---------------------------------------------------------------------------
  // Window statistics
  // ---------------------------------------------------------------------------

  function Max(s: seq<real>): real
    requires |s| > 0
  {
    if |s| == 1 then s[0]
    else
      var rest := Max(s[1..]);
      if s[0] > rest then s[0] else rest
  }

  function Min(s: seq<real>): real
    requires |s| > 0
  {
    if |s| == 1 then s[0]
    else
      var rest := Min(s[1..]);
      if s[0] < rest then s[0] else rest
  }

  /** Max is an element of the window and no element exceeds it. */
  lemma {:induction false} MaxIsLargest(s: seq<real>)
    requires |s| > 0
    ensures forall i :: 0 <= i < |s| ==> s[i] <= Max(s)
    ensures exists i :: 0 <= i < |s| && s[i] == Max(s)
  {
    if |s| > 1 {
      MaxIsLargest(s[1..]);
      assert forall i :: 1 <= i < |s| ==> s[i] == s[1..][i - 1];
      var k :| 0 <= k < |s[1..]| && s[1..][k] == Max(s[1..]);
      if s[0] > Max(s[1..]) {
        assert s[0] == Max(s);
      } else {
        assert s[k + 1] == Max(s);
      }
    } else {
      assert s[0] == Max(s);
    }
  }

  /** Min is an element of the window and no element is below it. */
  lemma {:induction false} MinIsSmallest(s: seq<real>)
    requires |s| > 0
    ensures forall i :: 0 <= i < |s| ==> Min(s) <= s[i]
    ensures exists i :: 0 <= i < |s| && s[i] == Min(s)
  {
    if |s| > 1 {
      MinIsSmallest(s[1..]);
      assert forall i :: 1 <= i < |s| ==> s[i] == s[1..][i - 1];
      var k :| 0 <= k < |s[1..]| && s[1..][k] == Min(s[1..]);
      if s[0] < Min(s[1..]) {
        assert s[0] == Min(s);
      } else {
        assert s[k + 1] == Min(s);
      }
    } else {
      assert s[0] == Min(s);
    }
  }

  function Sum(s: seq<real>): real
  {
    if s == [] then 0.0 else s[0] + Sum(s[1..])
  }

  function Average(s: seq<real>): real
    requires |s| > 0
  {
    Sum(s) / (|s| as real)
  }

  lemma {:induction false} SumAtMost(s: seq<real>, bound: real)
    requires forall i :: 0 <= i < |s| ==> s[i] <= bound
    ensures Sum(s) <= (|s| as real) * bound
  {
    if s != [] {
      assert forall i :: 0 <= i < |s| - 1 ==> s[1..][i] == s[i + 1];
      SumAtMost(s[1..], bound);
      assert (|s| as real) * bound == bound + ((|s| - 1) as real) * bound;
    }
  }

  lemma DivAtMost(x: real, n: real, bound: real)
    requires n > 0.0 && x <= n * bound
    ensures x / n <= bound
  {
  }

  /** The average of a window is at most its largest element. */
  lemma AverageAtMostMax(s: seq<real>)
    requires |s| > 0
    ensures Average(s) <= Max(s)
  {
    var m := Max(s);
    MaxIsLargest(s);
    SumAtMost(s, m);
    DivAtMost(Sum(s), |s| as real, m);
  }

  /** max - min over the last three speeds; 0 when there are at most three. */
  function SpeedVariation(speeds: seq<real>): (v: real)
    ensures v >= 0.0
    ensures |speeds| <= 3 ==> v == 0.0
    ensures |speeds| > 3 ==>
              (forall i, j :: |speeds| - 3 <= i < |speeds| && |speeds| - 3 <= j < |speeds| ==>
                 speeds[i] - speeds[j] <= v) &&
              (exists i, j :: |speeds| - 3 <= i < |speeds| && |speeds| - 3 <= j < |speeds| &&
                 speeds[i] - speeds[j] == v)
  {
    if |speeds| > 3 then
      var last3 := speeds[|speeds| - 3..];
      assert forall i :: |speeds| - 3 <= i < |speeds| ==> speeds[i] == last3[i - (|speeds| - 3)];
      var hi := Max(last3);
      var lo := Min(last3);
      MaxIsLargest(last3);
      MinIsSmallest(last3);
      ghost var a :| 0 <= a < 3 && last3[a] == hi;
      ghost var b :| 0 <= b < 3 && last3[b] == lo;
      assert speeds[a + |speeds| - 3] - speeds[b + |speeds| - 3] == hi - lo;
      hi - lo
    else 0.0
  }

  function Abs(x: real): real
  {
    if x < 0.0 then -x else x
  }

  // ---------------------------------------------------------------------------
  // Classification
  // ---------------------------------------------------------------------------

  /** Some sample rises above the speed-breaker threshold and some sample
      falls below minus half of it. */
  ghost predicate SpeedBreakerSignature(zs: seq<real>, t: Thresholds)
  {
    (exists i :: 0 <= i < |zs| && zs[i] > t.speedBreaker) &&
    (exists j :: 0 <= j < |zs| && zs[j] < -t.speedBreaker * 0.5)
  }

  /** Some sample dips below minus the pothole threshold. */
  ghost predicate PotholeDip(zs: seq<real>, t: Thresholds)
  {
    exists i :: 0 <= i < |zs| && zs[i] < -t.pothole
  }

  /** The first-match classifier over a window of at least one sample;
      zAccel is the newest sample. */
  function Classify(zs: seq<real>, speeds: seq<real>, zAccel: real, t: Thresholds): Option<EventType>
    requires |zs| > 0 && |speeds| > 0
  {
    var maxZ := Max(zs);
    var minZ := Min(zs);
    var avgSpeed := Average(speeds);
    if maxZ > t.speedBreaker && minZ < -t.speedBreaker * 0.5 then Some(SPEED_BREAKER)
    else if minZ < -t.pothole && avgSpeed > 10.0 then Some(POTHOLE)
    else if SpeedVariation(speeds) > 15.0 && avgSpeed < 20.0 && Abs(zAccel) > 0.8 then Some(BROKEN_PATCH)
    else None
  }

  /** The classifier is first-match over three signatures stated on the
      samples themselves: a speed breaker needs a rise above the threshold and
      a fall below minus half of it, a pothole a dip below minus its threshold
      at an average speed above 10 km/h, a broken patch a spread of more than
      15 km/h over the last three speeds, an average below 20 km/h and a
      newest sample above 0.8 in magnitude. It never yields the aggregated type. */
  lemma ClassifyIsFirstMatch(zs: seq<real>, speeds: seq<real>, zAccel: real, t: Thresholds)
    requires |zs| > 0 && |speeds| > 0
    ensures var r := Classify(zs, speeds, zAccel, t);
            && (r == Some(SPEED_BREAKER) <==> SpeedBreakerSignature(zs, t))
            && (r == Some(POTHOLE) <==>
                  !SpeedBreakerSignature(zs, t) && PotholeDip(zs, t) && Average(speeds) > 10.0)
            && (r == Some(BROKEN_PATCH) <==>
                  !SpeedBreakerSignature(zs, t) && !(PotholeDip(zs, t) && Average(speeds) > 10.0) &&
                  SpeedVariation(speeds) > 15.0 && Average(speeds) < 20.0 && Abs(zAccel) > 0.8)
            && r != Some(MULTIPLE_SPEED_BREAKERS)
  {
    MaxIsLargest(zs);
    MinIsSmallest(zs);
  }

  /** A window whose speeds never exceed 10 km/h is never classified as a
      pothole, however deep the dip. */
  lemma NoPotholeAtLowSpeed(zs: seq<real>, speeds: seq<real>, zAccel: real, t: Thresholds)
    requires |zs| > 0 && |speeds| > 0
    requires forall i :: 0 <= i < |speeds| ==> speeds[i] <= 10.0
    ensures Classify(zs, speeds, zAccel, t) != Some(POTHOLE)
  {
    AverageAtMostMax(speeds);
    MaxIsLargest(speeds);
    ClassifyIsFirstMatch(zs, speeds, zAccel, t);
  }

  // ---------------------------------------------------------------------------
  // One detector step, as a function of the state
  // ---------------------------------------------------------------------------

  datatype DetectorState = DetectorState(zAxisBuffer: seq<real>, speedBuffer: seq<real>, lastEventTime: int)

  /** The two buffers run in parallel and never exceed the window capacity. */
  ghost predicate WellFormed(s: DetectorState)
  {
    |s.zAxisBuffer| == |s.speedBuffer| <= WindowCapacity
  }

  /** Append x and, once the window overflows, drop the oldest element. */
  function Push(buffer: seq<real>, x: real): (r: seq<real>)
    ensures |buffer| < WindowCapacity ==> r == buffer + [x]
    ensures |buffer| == WindowCapacity ==> r == buffer[1..] + [x]
  {
    var appended := buffer + [x];
    if |appended| > WindowCapacity then appended[1..] else appended
  }

  /** One call of detectEvent: the new state and the detected type, if any. */
  function Detect(s: DetectorState, zAccel: real, speed: real, vehicleType: VehicleType, timestamp: int)
    : (r: (DetectorState, Option<EventType>))
    requires WellFormed(s)
    ensures WellFormed(r.0)
  {
    if timestamp - s.lastEventTime < CooldownMs then (s, None)
    else
      var t := CalculateDynamicThreshold(speed, vehicleType);
      var zs := Push(s.zAxisBuffer, zAccel);
      var speeds := Push(s.speedBuffer, speed);
      if |zs| < MinFill then (DetectorState(zs, speeds, s.lastEventTime), None)
      else
        match Classify(zs, speeds, zAccel, t)
        case Some(e) => (DetectorState([], [], timestamp), Some(e))
        case None => (DetectorState(zs, speeds, s.lastEventTime), None)
  }

  /** Within the cooldown nothing is detected and nothing changes. */
  lemma CooldownSuppresses(s: DetectorState, zAccel: real, speed: real, vehicleType: VehicleType, timestamp: int)
    requires WellFormed(s)
    requires timestamp - s.lastEventTime < CooldownMs
    ensures Detect(s, zAccel, speed, vehicleType, timestamp) == (s, None)
  {
  }

  /** A call that passes the cooldown and detects nothing only appends the
      sample to both buffers, evicting the oldest entries once ten are held. */
  lemma QuietStepAppends(s: DetectorState, zAccel: real, speed: real, vehicleType: VehicleType, timestamp: int)
    requires WellFormed(s)
    requires timestamp - s.lastEventTime >= CooldownMs
    requires Detect(s, zAccel, speed, vehicleType, timestamp).1 == None
    ensures var s' := Detect(s, zAccel, speed, vehicleType, timestamp).0;
            s'.lastEventTime == s.lastEventTime &&
            (|s.zAxisBuffer| < WindowCapacity ==>
               s'.zAxisBuffer == s.zAxisBuffer + [zAccel] && s'.speedBuffer == s.speedBuffer + [speed]) &&
            (|s.zAxisBuffer| == WindowCapacity ==>
               s'.zAxisBuffer == s.zAxisBuffer[1..] + [zAccel] && s'.speedBuffer == s.speedBuffer[1..] + [speed])
  {
  }

  /** With fewer than five samples buffered after the append, nothing is
      detected and the new sample stays buffered. */
  lemma MinimumFillSuppresses(s: DetectorState, zAccel: real, speed: real, vehicleType: VehicleType, timestamp: int)
    requires WellFormed(s)
    requires timestamp - s.lastEventTime >= CooldownMs
    requires |s.zAxisBuffer| + 1 < MinFill
    ensures Detect(s, zAccel, speed, vehicleType, timestamp)
            == (DetectorState(s.zAxisBuffer + [zAccel], s.speedBuffer + [speed], s.lastEventTime), None)
  {
  }

  /** Every detection passed the cooldown and the minimum fill, follows the
      classifier's priority, records its timestamp and clears both buffers. */
  lemma DetectionClearsWindow(s: DetectorState, zAccel: real, speed: real, vehicleType: VehicleType, timestamp: int)
    requires WellFormed(s)
    requires Detect(s, zAccel, speed, vehicleType, timestamp).1.Some?
    ensures timestamp - s.lastEventTime >= CooldownMs
    ensures |s.zAxisBuffer| + 1 >= MinFill
    ensures Detect(s, zAccel, speed, vehicleType, timestamp).0 == DetectorState([], [], timestamp)
    ensures Detect(s, zAccel, speed, vehicleType, timestamp).1
            == Classify(Push(s.zAxisBuffer, zAccel), Push(s.speedBuffer, speed), zAccel,
                        CalculateDynamicThreshold(speed, vehicleType))
    ensures Detect(s, zAccel, speed, vehicleType, timestamp).1 != Some(MULTIPLE_SPEED_BREAKERS)
  {
  }

  /** Detect once the sample has passed the cooldown and the window holds at
      least five samples: the classifier's verdict decides between a
      detection that clears the window and a quiet step that keeps it. */
  lemma DetectWithFullWindow(s: DetectorState, zAccel: real, speed: real, vehicleType: VehicleType, timestamp: int)
    requires WellFormed(s)
    requires timestamp - s.lastEventTime >= CooldownMs
    requires |Push(s.zAxisBuffer, zAccel)| >= MinFill
    ensures var zs := Push(s.zAxisBuffer, zAccel);
            var speeds := Push(s.speedBuffer, speed);
            var c := Classify(zs, speeds, zAccel, CalculateDynamicThreshold(speed, vehicleType));
            Detect(s, zAccel, speed, vehicleType, timestamp)
            == if c.Some? then (DetectorState([], [], timestamp), c)
               else (DetectorState(zs, speeds, s.lastEventTime), None)
  {
  }

  // ---------------------------------------------------------------------------
  // Runs of several samples
  // ---------------------------------------------------------------------------

  /** The arguments of one detectEvent call. */
  datatype Sample = Sample(zAccel: real, speed: real, vehicleType: VehicleType, timestamp: int)

  /** Feeds the samples in order; returns the final state and one result per sample. */
  function Run(s: DetectorState, samples: seq<Sample>): (r: (DetectorState, seq<Option<EventType>>))
    requires WellFormed(s)
    ensures WellFormed(r.0)
    ensures |r.1| == |samples|
    decreases |samples|
  {
    if samples == [] then (s, [])
    else
      var before := Run(s, samples[..|samples| - 1]);
      var x := samples[|samples| - 1];
      var step := Detect(before.0, x.zAccel, x.speed, x.vehicleType, x.timestamp);
      (step.0, before.1 + [step.1])
  }

  /** Running a + b is running a, then b from where a stopped. */
  lemma {:induction false} RunAppend(s: DetectorState, a: seq<Sample>, b: seq<Sample>)
    requires WellFormed(s)
    ensures Run(s, a + b).0 == Run(Run(s, a).0, b).0
    ensures Run(s, a + b).1 == Run(s, a).1 + Run(Run(s, a).0, b).1
    decreases |b|
  {
    if b == [] {
      assert a + b == a;
    } else {
      var b' := b[..|b| - 1];
      assert (a + b)[..|a + b| - 1] == a + b';
      assert (a + b)[|a + b| - 1] == b[|b| - 1];
      RunAppend(s, a, b');
    }
  }

  /** The detection timestamps of a run never exceed the final lastEventTime,
      and lastEventTime never decreases. */
  lemma {:induction false} RunDetectionsBeforeLastEvent(s: DetectorState, samples: seq<Sample>)
    requires WellFormed(s)
    ensures s.lastEventTime <= Run(s, samples).0.lastEventTime
    ensures forall i :: 0 <= i < |samples| && Run(s, samples).1[i].Some? ==>
              samples[i].timestamp <= Run(s, samples).0.lastEventTime
    decreases |samples|
  {
    if samples != [] {
      var init := samples[..|samples| - 1];
      RunDetectionsBeforeLastEvent(s, init);
      var before := Run(s, init);
      var x := samples[|samples| - 1];
      var step := Detect(before.0, x.zAccel, x.speed, x.vehicleType, x.timestamp);
      if step.1.Some? {
        DetectionClearsWindow(before.0, x.zAccel, x.speed, x.vehicleType, x.timestamp);
      }
      forall i | 0 <= i < |init| && Run(s, samples).1[i].Some?
        ensures samples[i].timestamp <= Run(s, samples).0.lastEventTime
      {
        assert Run(s, samples).1[i] == before.1[i];
        assert samples[i] == init[i];
      }
    }
  }

  /** Any two detections of one detector are at least 2000 ms apart. */
  lemma {:induction false} DetectionsAreSpaced(s: DetectorState, samples: seq<Sample>)
    requires WellFormed(s)
    ensures forall i, j :: 0 <= i < j < |samples| && Run(s, samples).1[i].Some? && Run(s, samples).1[j].Some? ==>
              samples[j].timestamp >= samples[i].timestamp + CooldownMs
    decreases |samples|
  {
    if samples != [] {
      var n := |samples| - 1;
      var init := samples[..n];
      DetectionsAreSpaced(s, init);
      RunDetectionsBeforeLastEvent(s, init);
      var before := Run(s, init);
      var x := samples[n];
      var step := Detect(before.0, x.zAccel, x.speed, x.vehicleType, x.timestamp);
      if step.1.Some? {
        DetectionClearsWindow(before.0, x.zAccel, x.speed, x.vehicleType, x.timestamp);
      }
      forall i, j | 0 <= i < j < |samples| && Run(s, samples).1[i].Some? && Run(s, samples).1[j].Some?
        ensures samples[j].timestamp >= samples[i].timestamp + CooldownMs
      {
        assert Run(s, samples).1[i] == before.1[i];
        assert samples[i] == init[i];
        if j < n {
          assert Run(s, samples).1[j] == before.1[j];
          assert samples[j] == init[j];
        }
      }
    }
  }

  /** The number of samples whose timestamp passes the cooldown against a
      fixed lastEventTime. */
  function CountPassing(samples: seq<Sample>, lastEventTime: int): nat
    decreases |samples|
  {
    if samples == [] then 0
    else
      CountPassing(samples[..|samples| - 1], lastEventTime) +
      (if samples[|samples| - 1].timestamp - lastEventTime >= CooldownMs then 1 else 0)
  }

  function MinNat(a: nat, b: nat): nat
  {
    if a < b then a else b
  }

  /** While nothing is detected, lastEventTime stays put and each sample that
      passes the cooldown adds one entry to the window, up to its capacity. */
  lemma {:induction false} QuietRunFillsWindow(s: DetectorState, samples: seq<Sample>)
    requires WellFormed(s)
    requires forall i :: 0 <= i < |samples| ==> Run(s, samples).1[i] == None
    ensures Run(s, samples).0.lastEventTime == s.lastEventTime
    ensures |Run(s, samples).0.zAxisBuffer|
            == MinNat(WindowCapacity, |s.zAxisBuffer| + CountPassing(samples, s.lastEventTime))
    decreases |samples|
  {
    if samples != [] {
      var n := |samples| - 1;
      var init := samples[..n];
      forall i | 0 <= i < |init| ensures Run(s, init).1[i] == None {
        assert Run(s, samples).1[i] == Run(s, init).1[i];
      }
      QuietRunFillsWindow(s, init);
      assert Run(s, samples).1[n] == None;
    }
  }

  /** A prefix of a run yields a prefix of its results. */
  lemma RunPrefix(s: DetectorState, samples: seq<Sample>, k: nat)
    requires WellFormed(s)
    requires k <= |samples|
    ensures Run(s, samples[..k]).1 == Run(s, samples).1[..k]
  {
    RunAppend(s, samples[..k], samples[k..]);
    assert samples[..k] + samples[k..] == samples;
  }

  /** Right after a detection the window is empty and lastEventTime is the
      detection's timestamp. */
  lemma StateAfterDetection(s: DetectorState, samples: seq<Sample>, i: nat)
    requires WellFormed(s)
    requires i < |samples| && Run(s, samples).1[i].Some?
    ensures Run(s, samples[..i + 1]).0 == DetectorState([], [], samples[i].timestamp)
  {
    RunPrefix(s, samples, i + 1);
    var a := samples[..i + 1];
    assert a[..i] == samples[..i];
    var x := samples[i];
    DetectionClearsWindow(Run(s, a[..i]).0, x.zAccel, x.speed, x.vehicleType, x.timestamp);
  }

  /** A run that is quiet until a detection on its last sample had at least
      five samples in its window, counting those it started with. */
  lemma DetectionAfterQuietRun(s: DetectorState, samples: seq<Sample>)
    requires WellFormed(s)
    requires |samples| > 0
    requires forall k :: 0 <= k < |samples| - 1 ==> Run(s, samples).1[k] == None
    requires Run(s, samples).1[|samples| - 1].Some?
    ensures |s.zAxisBuffer| + CountPassing(samples, s.lastEventTime) >= MinFill
  {
    var m := |samples| - 1;
    var init := samples[..m];
    var before := Run(s, init);
    forall k | 0 <= k < m ensures before.1[k] == None {
      assert Run(s, samples).1[k] == before.1[k];
    }
    QuietRunFillsWindow(s, init);
    var y := samples[m];
    DetectionClearsWindow(before.0, y.zAccel, y.speed, y.vehicleType, y.timestamp);
  }

  /** Between two successive detections of one run, at least five calls pass
      the cooldown: the detector restarts from an empty window. */
  lemma SuccessiveDetectionsNeedMinimumFill(s: DetectorState, samples: seq<Sample>, i: nat, j: nat)
    requires WellFormed(s)
    requires i < j < |samples|
    requires Run(s, samples).1[i].Some? && Run(s, samples).1[j].Some?
    requires forall k :: i < k < j ==> Run(s, samples).1[k] == None
    ensures CountPassing(samples[i + 1..j + 1], samples[i].timestamp) >= MinFill
  {
    var a := samples[..i + 1];
    var b := samples[i + 1..j + 1];
    StateAfterDetection(s, samples, i);
    var mid := Run(s, a).0;
    assert a + b == samples[..j + 1];
    RunAppend(s, a, b);
    RunPrefix(s, samples, j + 1);
    var outs := Run(s, samples).1;
    var bOuts := Run(mid, b).1;
    assert Run(s, a).1 + bOuts == outs[..j + 1];
    assert bOuts == outs[i + 1..j + 1];
    DetectionAfterQuietRun(mid, b);
  }

  // ---------------------------------------------------------------------------
  // The detector object
  // ---------------------------------------------------------------------------

  /** The detector as the source keeps it: two lists it appends to, evicts
      from and clears, and the time of the last detection. */
  class SensorProcessor {
    var zAxisBuffer: seq<real>
    var speedBuffer: seq<real>
    var lastEventTime: int

    function State(): DetectorState
      reads this
    {
      DetectorState(zAxisBuffer, speedBuffer, lastEventTime)
    }

    ghost predicate Valid()
      reads this
    {
      WellFormed(State())
    }

    constructor ()
      ensures Valid()
      ensures State() == DetectorState([], [], 0)
    {
      zAxisBuffer := [];
      speedBuffer := [];
      lastEventTime := 0;
    }

    method DetectEvent(zAccel: real, speed: real, vehicleType: VehicleType, timestamp: int)
      returns (detected: Option<EventType>)
      requires Valid()
      modifies this
      ensures Valid()
      ensures (State(), detected) == Detect(old(State()), zAccel, speed, vehicleType, timestamp)
    {
      ghost var before := State();
      if timestamp - lastEventTime < CooldownMs {
        CooldownSuppresses(before, zAccel, speed, vehicleType, timestamp);
        return None;
      }
      var thresholds := CalculateDynamicThreshold(speed, vehicleType);

      zAxisBuffer := zAxisBuffer + [zAccel];
      speedBuffer := speedBuffer + [speed];
      if |zAxisBuffer| > WindowCapacity {
        zAxisBuffer := zAxisBuffer[1..];
        speedBuffer := speedBuffer[1..];
      }

      if |zAxisBuffer| < MinFill {
        MinimumFillSuppresses(before, zAccel, speed, vehicleType, timestamp);
        return None;
      }

      var maxZ := Max(zAxisBuffer);
      var minZ := Min(zAxisBuffer);
      var avgSpeed := Average(speedBuffer);
      assert zAxisBuffer == Push(before.zAxisBuffer, zAccel) && speedBuffer == Push(before.speedBuffer, speed);
      DetectWithFullWindow(before, zAccel, speed, vehicleType, timestamp);

      if maxZ > thresholds.speedBreaker && minZ < -thresholds.speedBreaker * 0.5 {
        lastEventTime := timestamp;
        zAxisBuffer := [];
        speedBuffer := [];
        return Some(SPEED_BREAKER);
      }

      if minZ < -thresholds.pothole && avgSpeed > 10.0 {
        lastEventTime := timestamp;
        zAxisBuffer := [];
        speedBuffer := [];
        return Some(POTHOLE);
      }

      var speedVariation := SpeedVariation(speedBuffer);
      if speedVariation > 15.0 && avgSpeed < 20.0 && Abs(zAccel) > 0.8 {
        lastEventTime := timestamp;
        zAxisBuffer := [];
        speedBuffer := [];
        return Some(BROKEN_PATCH);
      }

      return None;
    }
  }
}
