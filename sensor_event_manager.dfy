/**
 * The adapter between the platform's sensor callbacks and the detector: it
 * remembers the latest location, speed and vehicle settings, feeds each
 * reoriented vertical acceleration to its SensorProcessor while a location is
 * known, and wraps every detection into a RoadEvent for the listener.
 *
 * The listener callback is modelled by returning the emitted event (or the
 * sequence of emitted events for the simulations); the wall clock and the
 * random event id are parameters.
 */
module SensorEvents {
  import opened RoadTypes
  import opened SensorProcessing

  /** The confidence attached to every detected event. */
  const DetectionConfidence: real := 0.8

  datatype SensorKind = Accelerometer | Gyroscope

  /** A raw sensor callback: the sensor that fired and its three axis values. */
  datatype SensorEvent = SensorEvent(sensor: SensorKind, x: real, y: real, z: real)

  class SensorEventManager {
    const sensorProcessor: SensorProcessor
    var currentLocation: Option<Fix>
    var currentSpeed: real
    var selectedVehicleType: VehicleType
    var selectedOrientation: PhoneOrientation

    ghost predicate Valid()
      reads this, sensorProcessor
    {
      sensorProcessor.Valid()
    }

    constructor ()
      ensures Valid() && fresh(sensorProcessor)
      ensures sensorProcessor.State() == DetectorState([], [], 0)
      ensures currentLocation == None && currentSpeed == 0.0
      ensures selectedVehicleType == TWO_WHEELER && selectedOrientation == MOUNTER
    {
      sensorProcessor := new SensorProcessor();
      currentLocation := None;
      currentSpeed := 0.0;
      selectedVehicleType := TWO_WHEELER;
      selectedOrientation := MOUNTER;
    }

    method UpdateVehicleSettings(vehicleType: VehicleType, orientation: PhoneOrientation)
      modifies this
      ensures selectedVehicleType == vehicleType && selectedOrientation == orientation
      ensures currentLocation == old(currentLocation) && currentSpeed == old(currentSpeed)
    {
      selectedVehicleType := vehicleType;
      selectedOrientation := orientation;
    }

    method UpdateLocationAndSpeed(location: Option<Fix>, speed: real)
      modifies this
      ensures currentLocation == location && currentSpeed == speed
      ensures selectedVehicleType == old(selectedVehicleType)
      ensures selectedOrientation == old(selectedOrientation)
    {
      currentLocation := location;
      currentSpeed := speed;
    }

    /** One reoriented vertical acceleration at wall-clock time now. Without
        a known location the detector is not consulted at all; otherwise it
        sees the current speed and vehicle type (never the orientation), and
        exactly its detections are emitted, as events at the current fix. */
    method ProcessSensorData(reorientedZ: real, now: int, id: EventId) returns (emitted: Option<RoadEvent>)
      requires Valid()
      modifies sensorProcessor
      ensures Valid()
      ensures currentLocation.None? ==> emitted == None && sensorProcessor.State() == old(sensorProcessor.State())
      ensures currentLocation.Some? ==>
                var step := Detect(old(sensorProcessor.State()), reorientedZ, currentSpeed, selectedVehicleType, now);
                && sensorProcessor.State() == step.0
                && (emitted.Some? <==> step.1.Some?)
                && (emitted.Some? ==>
                      && emitted.value.id == id
                      && emitted.value.eventType == step.1.value
                      && emitted.value.latitude == currentLocation.value.latitude
                      && emitted.value.longitude == currentLocation.value.longitude
                      && emitted.value.timestamp == now
                      && emitted.value.confidence == DetectionConfidence
                      && emitted.value.speed == currentSpeed
                      && !emitted.value.confirmed)
    {
      emitted := None;
      if currentLocation.Some? {
        var location := currentLocation.value;
        var detectedType := sensorProcessor.DetectEvent(reorientedZ, currentSpeed, selectedVehicleType, now);
        if detectedType.Some? {
          emitted := Some(RoadEvent(id, detectedType.value, location.latitude, location.longitude,
                                    now, DetectionConfidence, currentSpeed, false));
        }
      }
    }

    /** A platform sensor callback. Only accelerometer samples reach the
        detector, through the reorientation given as a parameter; a missing
        event and gyroscope samples change nothing. */
    method OnSensorChanged(event: Option<SensorEvent>, reorientZ: (real, real, real) -> real, now: int, id: EventId)
      returns (emitted: Option<RoadEvent>)
      requires Valid()
      modifies sensorProcessor
      ensures Valid()
      ensures (event.None? || event.value.sensor != Accelerometer) ==>
                emitted == None && sensorProcessor.State() == old(sensorProcessor.State())
      ensures event.Some? && event.value.sensor == Accelerometer && currentLocation.Some? ==>
                var step := Detect(old(sensorProcessor.State()), reorientZ(event.value.x, event.value.y, event.value.z),
                                   currentSpeed, selectedVehicleType, now);
                sensorProcessor.State() == step.0 && (emitted.Some? <==> step.1.Some?) &&
                (emitted.Some? ==> emitted.value.eventType == step.1.value)
      ensures currentLocation.None? ==> emitted == None && sensorProcessor.State() == old(sensorProcessor.State())
    {
      emitted := None;
      if event.Some? && event.value.sensor == Accelerometer {
        var e := event.value;
        emitted := ProcessSensorData(reorientZ(e.x, e.y, e.z), now, id);
      }
    }

    /** The simulated speed breaker: a +25 spike then a -15 spike, read at
        two successive clock readings; the events come out in that order. */
    method SimulateSpeedBreaker(now1: int, now2: int, id1: EventId, id2: EventId) returns (emitted: seq<RoadEvent>)
      requires Valid()
      modifies sensorProcessor
      ensures Valid()
      ensures currentLocation.None? ==> emitted == [] && sensorProcessor.State() == old(sensorProcessor.State())
      ensures currentLocation.Some? ==>
                var first := Detect(old(sensorProcessor.State()), 25.0, currentSpeed, selectedVehicleType, now1);
                var second := Detect(first.0, -15.0, currentSpeed, selectedVehicleType, now2);
                sensorProcessor.State() == second.0 &&
                EventTypes(emitted) == OptionToSeq(first.1) + OptionToSeq(second.1)
    {
      var first := ProcessSensorData(25.0, now1, id1);
      var second := ProcessSensorData(-15.0, now2, id2);
      emitted := OptionToSeq(first) + OptionToSeq(second);
    }

    /** The simulated pothole: a single -20 spike. */
    method SimulatePothole(now: int, id: EventId) returns (emitted: seq<RoadEvent>)
      requires Valid()
      modifies sensorProcessor
      ensures Valid()
      ensures currentLocation.None? ==> emitted == [] && sensorProcessor.State() == old(sensorProcessor.State())
      ensures currentLocation.Some? ==>
                var only := Detect(old(sensorProcessor.State()), -20.0, currentSpeed, selectedVehicleType, now);
                sensorProcessor.State() == only.0 && EventTypes(emitted) == OptionToSeq(only.1)
    {
      var only := ProcessSensorData(-20.0, now, id);
      emitted := OptionToSeq(only);
    }

    /** The simulated broken patch: five random jolts, one after another,
        each read at its own clock reading. The jolts, the clock readings and
        the event ids are parameters. While a location is known the detector
        runs over the five samples, and exactly its detections are emitted,
        in order. */
    method SimulateBrokenPatch(jolts: seq<real>, nows: seq<int>, ids: seq<EventId>) returns (emitted: seq<RoadEvent>)
      requires Valid()
      requires |jolts| == BrokenPatchJolts && |nows| == BrokenPatchJolts && |ids| == BrokenPatchJolts
      modifies sensorProcessor
      ensures Valid()
      ensures currentLocation.None? ==> emitted == [] && sensorProcessor.State() == old(sensorProcessor.State())
      ensures currentLocation.Some? ==>
                var run := Run(old(sensorProcessor.State()), Samples(jolts, nows, currentSpeed, selectedVehicleType));
                sensorProcessor.State() == run.0 && EventTypes(emitted) == Detections(run.1)
    {
      ghost var start := sensorProcessor.State();
      ghost var samples := Samples(jolts, nows, currentSpeed, selectedVehicleType);
      emitted := [];
      var i := 0;
      while i < BrokenPatchJolts
        invariant 0 <= i <= BrokenPatchJolts
        invariant Valid()
        invariant currentLocation.None? ==> emitted == [] && sensorProcessor.State() == start
        invariant currentLocation.Some? ==>
                    sensorProcessor.State() == Run(start, samples[..i]).0
                    && EventTypes(emitted) == Detections(Run(start, samples[..i]).1)
      {
        var one := ProcessSensorData(jolts[i], nows[i], ids[i]);
        assert samples[..i + 1][..i] == samples[..i];
        emitted := emitted + OptionToSeq(one);
        i := i + 1;
      }
      assert samples[..BrokenPatchJolts] == samples;
    }
  }

  /** The number of jolts in a simulated broken patch. */
  const BrokenPatchJolts: nat := 5

  /** The detector calls made for a series of readings at one speed and
      vehicle type. */
  function Samples(zs: seq<real>, nows: seq<int>, speed: real, vehicleType: VehicleType): (r: seq<Sample>)
    requires |zs| == |nows|
    ensures |r| == |zs|
    ensures forall k :: 0 <= k < |zs| ==> r[k] == Sample(zs[k], speed, vehicleType, nows[k])
  {
    seq(|zs|, k requires 0 <= k < |zs| => Sample(zs[k], speed, vehicleType, nows[k]))
  }

  /** The detections among a run's results, in order. */
  function Detections(outcomes: seq<Option<EventType>>): seq<EventType>
  {
    if outcomes == [] then []
    else Detections(outcomes[..|outcomes| - 1]) + OptionToSeq(outcomes[|outcomes| - 1])
  }

  function OptionToSeq<T>(o: Option<T>): seq<T>
  {
    if o.Some? then [o.value] else []
  }

  function EventTypes(events: seq<RoadEvent>): seq<EventType>
  {
    seq(|events|, k requires 0 <= k < |events| => events[k].eventType)
  }
}
