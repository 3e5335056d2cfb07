/**
 * The view model's part of the pipeline: the speed gate and speed-breaker
 * aggregation applied to every detected event, the user's confirmation of the
 * pending event, and the mappings between event types, the hazard-type
 * strings of the backend, the local type names and the warning names.
 *
 * The coroutine that waits 2000 ms after the first buffered speed breaker is
 * modelled by the flag timerPending and an explicit step TimerFired, which the
 * scheduler may take only while the flag is set. The aggregation state is
 * also given as a value, Aggregation, with the functions OnDetected and
 * OnTimerFired that specify the two steps.
 */
module ViewModel {
  import opened RoadTypes
  import opened SensorProcessing
  import opened SensorEvents

  /** Detected events are dropped while the vehicle is slower than this (km/h). */
  const MinEventSpeedKmh: real := 7.0

  // ---------------------------------------------------------------------------
  // Speed gate and speed-breaker aggregation
  // ---------------------------------------------------------------------------

  datatype Aggregation = Aggregation(pendingEvent: Option<RoadEvent>, recentSpeedBreakers: seq<RoadEvent>, timerPending: bool)

  /** A timer is outstanding exactly while speed breakers are buffered, and
      only speed breakers are buffered. */
  ghost predicate AggregationInvariant(a: Aggregation)
  {
    && (a.timerPending <==> a.recentSpeedBreakers != [])
    && forall k :: 0 <= k < |a.recentSpeedBreakers| ==> a.recentSpeedBreakers[k].eventType == SPEED_BREAKER
  }

  /** The detection callback, at the view model's current speed. */
  function OnDetected(a: Aggregation, currentSpeed: real, event: RoadEvent): Aggregation
  {
    if currentSpeed < MinEventSpeedKmh then a
    else
      match event.eventType
      case SPEED_BREAKER => Aggregation(a.pendingEvent, a.recentSpeedBreakers + [event], true)
      case _ => a.(pendingEvent := Some(event))
  }

  /** The body of the aggregation timer. */
  function OnTimerFired(a: Aggregation): Aggregation
  {
    var buffered := a.recentSpeedBreakers;
    var pending :=
      if |buffered| > 1 then Some(buffered[|buffered| - 1].(eventType := MULTIPLE_SPEED_BREAKERS))
      else if |buffered| == 1 then Some(buffered[0])
      else a.pendingEvent;
    Aggregation(pending, [], false)
  }

  /** Below 7 km/h an event is discarded and nothing changes. */
  lemma SpeedGateDiscards(a: Aggregation, currentSpeed: real, event: RoadEvent)
    requires currentSpeed < MinEventSpeedKmh
    ensures OnDetected(a, currentSpeed, event) == a
  {
  }

  /** Any event other than a speed breaker becomes the pending event at once,
      replacing the previous one; the speed-breaker buffer and timer stay. */
  lemma OtherEventsPassThrough(a: Aggregation, currentSpeed: real, event: RoadEvent)
    requires currentSpeed >= MinEventSpeedKmh && event.eventType != SPEED_BREAKER
    ensures OnDetected(a, currentSpeed, event)
            == Aggregation(Some(event), a.recentSpeedBreakers, a.timerPending)
  {
  }

  /** A speed breaker is appended to the buffer; the pending event is kept and
      a timer is started only when none was outstanding, so the window is
      anchored to the first buffered event. */
  lemma SpeedBreakerIsBuffered(a: Aggregation, currentSpeed: real, event: RoadEvent)
    requires AggregationInvariant(a)
    requires currentSpeed >= MinEventSpeedKmh && event.eventType == SPEED_BREAKER
    ensures var r := OnDetected(a, currentSpeed, event);
            && r.recentSpeedBreakers == a.recentSpeedBreakers + [event]
            && r.pendingEvent == a.pendingEvent
            && r.timerPending
            && (!a.timerPending ==> r.recentSpeedBreakers == [event])
  {
  }

  /** The detection step keeps the aggregation invariant. */
  lemma DetectionKeepsInvariant(a: Aggregation, currentSpeed: real, event: RoadEvent)
    requires AggregationInvariant(a)
    ensures AggregationInvariant(OnDetected(a, currentSpeed, event))
  {
  }

  /** The timer step keeps the aggregation invariant. */
  lemma TimerFireKeepsInvariant(a: Aggregation)
    requires AggregationInvariant(a)
    ensures AggregationInvariant(OnTimerFired(a))
  {
  }

  /** When the timer fires, two or more buffered events collapse into the last
      one retyped as MULTIPLE_SPEED_BREAKERS (all its other fields kept), one
      event is passed on unchanged, and an empty buffer leaves the pending
      event alone; the buffer is emptied and the timer is gone. */
  lemma TimerFireCollapsesBuffer(a: Aggregation)
    ensures var r := OnTimerFired(a);
            var buffered := a.recentSpeedBreakers;
            && r.recentSpeedBreakers == [] && !r.timerPending
            && (|buffered| >= 2 ==>
                  && r.pendingEvent.Some?
                  && r.pendingEvent.value.eventType == MULTIPLE_SPEED_BREAKERS
                  && r.pendingEvent.value.(eventType := SPEED_BREAKER) == buffered[|buffered| - 1].(eventType := SPEED_BREAKER))
            && (|buffered| == 1 ==> r.pendingEvent == Some(buffered[0]))
            && (buffered == [] ==> r.pendingEvent == a.pendingEvent)
  {
  }

  /** Feeds a sequence of events at one speed. */
  function OnDetectedAll(a: Aggregation, currentSpeed: real, events: seq<RoadEvent>): Aggregation
    decreases |events|
  {
    if events == [] then a
    else OnDetected(OnDetectedAll(a, currentSpeed, events[..|events| - 1]), currentSpeed, events[|events| - 1])
  }

  /** A burst of speed breakers at or above 7 km/h, arriving while no timer is
      outstanding and before the timer fires, ends in exactly one pending
      event: the last of them as MULTIPLE_SPEED_BREAKERS if there were several,
      the single one unchanged otherwise. */
  lemma {:induction false} SpeedBreakerBurstCollapses(a: Aggregation, currentSpeed: real, events: seq<RoadEvent>)
    requires AggregationInvariant(a) && !a.timerPending
    requires currentSpeed >= MinEventSpeedKmh
    requires |events| > 0
    requires forall k :: 0 <= k < |events| ==> events[k].eventType == SPEED_BREAKER
    ensures OnDetectedAll(a, currentSpeed, events).recentSpeedBreakers == events
    ensures OnTimerFired(OnDetectedAll(a, currentSpeed, events)).pendingEvent
            == Some(if |events| > 1 then events[|events| - 1].(eventType := MULTIPLE_SPEED_BREAKERS) else events[0])
    decreases |events|
  {
    var init := events[..|events| - 1];
    if init != [] {
      SpeedBreakerBurstCollapses(a, currentSpeed, init);
    }
  }

  // ---------------------------------------------------------------------------
  // Type strings
  // ---------------------------------------------------------------------------

  /** The hazard type reported to the backend for a confirmed event. */
  function ApiType(eventType: EventType): string
  {
    match eventType
    case POTHOLE => "POTHOLE"
    case SPEED_BREAKER => "SINGLE_SPEED_BUMP"
    case MULTIPLE_SPEED_BREAKERS => "MULTIPLE_SPEED_BUMP"
    case BROKEN_PATCH => "ROAD_PATCH"
  }

  /** The local type name of a hazard fetched from the backend. */
  function LocalType(apiType: string): string
  {
    if apiType == "SINGLE_SPEED_BUMP" then "speed_breaker"
    else if apiType == "MULTIPLE_SPEED_BUMP" then "speed_breaker"
    else if apiType == "POTHOLE" then "pothole"
    else if apiType == "ROAD_PATCH" then "broken_patch"
    else "unknown"
  }

  /** The name shown in the proximity warning for a local type name. */
  function WarningName(localType: string): string
  {
    if localType == "speed_breaker" then "Speed Breaker"
    else if localType == "pothole" then "Pothole"
    else if localType == "broken_patch" then "Broken Patch"
    else "Hazard"
  }

  /** The text of the proximity warning. */
  function WarningText(localType: string): string
  {
    "\U{26A0}\U{FE0F} " + WarningName(localType) + " Ahead \U{26A0}\U{FE0F}"
  }

  /** Distinct event types are reported under distinct backend strings. */
  lemma ApiTypeInjective(t1: EventType, t2: EventType)
    requires ApiType(t1) == ApiType(t2)
    ensures t1 == t2
  {
  }

  /** The backend strings the local map understands are exactly the ones the
      app reports. */
  lemma LocalTypeKnownExactlyForApiTypes(apiType: string)
    ensures LocalType(apiType) != "unknown" <==> exists t :: ApiType(t) == apiType
  {
    if LocalType(apiType) != "unknown" {
      if apiType == "SINGLE_SPEED_BUMP" { assert ApiType(SPEED_BREAKER) == apiType; }
      else if apiType == "MULTIPLE_SPEED_BUMP" { assert ApiType(MULTIPLE_SPEED_BREAKERS) == apiType; }
      else if apiType == "POTHOLE" { assert ApiType(POTHOLE) == apiType; }
      else { assert ApiType(BROKEN_PATCH) == apiType; }
    }
  }

  /** Whatever the app reports comes back from a fetch with a known local type
      and a specific warning name; the round trip forgets only the difference
      between a single and multiple speed breakers. */
  lemma ReportedTypesRoundTrip(t1: EventType, t2: EventType)
    ensures LocalType(ApiType(t1)) != "unknown"
    ensures WarningName(LocalType(ApiType(t1))) != "Hazard"
    ensures LocalType(ApiType(t1)) == LocalType(ApiType(t2)) <==>
              t1 == t2 || (t1 in {SPEED_BREAKER, MULTIPLE_SPEED_BREAKERS} && t2 in {SPEED_BREAKER, MULTIPLE_SPEED_BREAKERS})
  {
  }

  /** The first hazard satisfying the distance test, if any. */
  function FirstInRange(events: seq<EventResponse>, withinRange: EventResponse -> bool): (r: Option<nat>)
    ensures r.Some? ==> r.value < |events| && withinRange(events[r.value])
    ensures r.None? ==> forall k :: 0 <= k < |events| ==> !withinRange(events[k])
  {
    if events == [] then None
    else if withinRange(events[0]) then Some(0)
    else match FirstInRange(events[1..], withinRange)
      case None => None
      case Some(k) => Some(k + 1)
  }

  /** FirstInRange finds the least index that passes the test, and finds
      nothing exactly when no hazard passes it. */
  lemma {:induction false} FirstInRangeIsFirst(events: seq<EventResponse>, withinRange: EventResponse -> bool, i: nat)
    requires i <= |events|
    requires forall k :: 0 <= k < i ==> !withinRange(events[k])
    requires i < |events| ==> withinRange(events[i])
    ensures FirstInRange(events, withinRange) == if i < |events| then Some(i) else None
    decreases i
  {
    if events != [] && i > 0 {
      FirstInRangeIsFirst(events[1..], withinRange, i - 1);
    }
  }

  /** The warning shown for a list of map hazards. */
  function ProximityWarning(events: seq<EventResponse>, withinRange: EventResponse -> bool): Option<string>
  {
    match FirstInRange(events, withinRange)
    case None => None
    case Some(k) => Some(WarningText(events[k].hazardType))
  }

  // ---------------------------------------------------------------------------
  // The view model object
  // ---------------------------------------------------------------------------

  /** A hazard as the backend delivers it. */
  datatype RemoteHazard = RemoteHazard(latitude: real, longitude: real, hazardType: string)

  /** The arguments of one report sent to the backend. */
  datatype HazardReport = HazardReport(latitude: real, longitude: real, hazardType: string)

  function ToMapEvent(h: RemoteHazard): EventResponse
  {
    EventResponse(h.latitude, h.longitude, LocalType(h.hazardType))
  }

  class MainViewModel {
    const sensorEventManager: SensorEventManager
    var currentLocation: Option<Fix>
    var currentSpeed: real
    var detectedEvents: seq<RoadEvent>
    var mapEvents: seq<EventResponse>
    var pendingEvent: Option<RoadEvent>
    var activeWarning: Option<string>
    var recentSpeedBreakers: seq<RoadEvent>
    var timerPending: bool

    function AggregationState(): Aggregation
      reads this
    {
      Aggregation(pendingEvent, recentSpeedBreakers, timerPending)
    }

    ghost predicate Valid()
      reads this, sensorEventManager, sensorEventManager.sensorProcessor
    {
      sensorEventManager.Valid() && AggregationInvariant(AggregationState())
    }

    constructor ()
      ensures Valid() && fresh(sensorEventManager) && fresh(sensorEventManager.sensorProcessor)
      ensures currentLocation == None && currentSpeed == 0.0
      ensures detectedEvents == [] && mapEvents == [] && activeWarning == None
      ensures AggregationState() == Aggregation(None, [], false)
      ensures sensorEventManager.currentLocation == None && sensorEventManager.currentSpeed == 0.0
      ensures sensorEventManager.selectedVehicleType == TWO_WHEELER && sensorEventManager.selectedOrientation == MOUNTER
      ensures sensorEventManager.sensorProcessor.State() == DetectorState([], [], 0)
    {
      sensorEventManager := new SensorEventManager();
      currentLocation := None;
      currentSpeed := 0.0;
      detectedEvents := [];
      mapEvents := [];
      pendingEvent := None;
      activeWarning := None;
      recentSpeedBreakers := [];
      timerPending := false;
    }

    /** The location callback: record the fix and speed here and in the
        sensor manager, then check for nearby hazards. */
    method OnLocationUpdate(location: Fix, speed: real, withinRange: EventResponse -> bool)
      requires Valid()
      modifies this, sensorEventManager
      ensures Valid()
      ensures currentLocation == Some(location) && currentSpeed == speed
      ensures sensorEventManager.currentLocation == Some(location) && sensorEventManager.currentSpeed == speed
      ensures sensorEventManager.selectedVehicleType == old(sensorEventManager.selectedVehicleType)
      ensures sensorEventManager.selectedOrientation == old(sensorEventManager.selectedOrientation)
      ensures activeWarning == ProximityWarning(mapEvents, withinRange)
      ensures AggregationState() == old(AggregationState())
      ensures detectedEvents == old(detectedEvents) && mapEvents == old(mapEvents)
    {
      currentLocation := Some(location);
      currentSpeed := speed;
      sensorEventManager.UpdateLocationAndSpeed(Some(location), speed);
      CheckProximityToHazards(withinRange);
    }

    /** The warning names the first map hazard within range of the current
        location, or is cleared when there is none. The 30 m geodesic
        distance test is the parameter withinRange. */
    method CheckProximityToHazards(withinRange: EventResponse -> bool)
      modifies this
      ensures activeWarning == ProximityWarning(mapEvents, withinRange)
      ensures currentLocation == old(currentLocation) && currentSpeed == old(currentSpeed)
      ensures AggregationState() == old(AggregationState())
      ensures detectedEvents == old(detectedEvents) && mapEvents == old(mapEvents)
    {
      var i := 0;
      while i < |mapEvents| && !withinRange(mapEvents[i])
        invariant 0 <= i <= |mapEvents|
        invariant forall k :: 0 <= k < i ==> !withinRange(mapEvents[k])
      {
        i := i + 1;
      }
      FirstInRangeIsFirst(mapEvents, withinRange, i);
      if i < |mapEvents| {
        activeWarning := Some(WarningText(mapEvents[i].hazardType));
      } else {
        activeWarning := None;
      }
    }

    /** The detection callback: the speed gate, then pass-through or
        speed-breaker buffering. */
    method OnEventDetected(event: RoadEvent)
      requires Valid()
      modifies this
      ensures Valid()
      ensures AggregationState() == OnDetected(old(AggregationState()), currentSpeed, event)
      ensures currentSpeed == old(currentSpeed) && currentLocation == old(currentLocation)
      ensures detectedEvents == old(detectedEvents) && mapEvents == old(mapEvents)
      ensures activeWarning == old(activeWarning)
    {
      DetectionKeepsInvariant(AggregationState(), currentSpeed, event);
      if currentSpeed < MinEventSpeedKmh {
        return;
      }
      match event.eventType {
        case POTHOLE =>
          pendingEvent := Some(event);
        case SPEED_BREAKER =>
          recentSpeedBreakers := recentSpeedBreakers + [event];
          if !timerPending {
            timerPending := true;
          }
        case _ =>
          pendingEvent := Some(event);
      }
    }

    /** The aggregation timer fires. */
    method SpeedBreakerTimerFired()
      requires Valid()
      requires timerPending
      modifies this
      ensures Valid()
      ensures AggregationState() == OnTimerFired(old(AggregationState()))
      ensures currentSpeed == old(currentSpeed) && currentLocation == old(currentLocation)
      ensures detectedEvents == old(detectedEvents) && mapEvents == old(mapEvents)
      ensures activeWarning == old(activeWarning)
    {
      TimerFireKeepsInvariant(AggregationState());
      if |recentSpeedBreakers| > 1 {
        var representative := recentSpeedBreakers[|recentSpeedBreakers| - 1];
        pendingEvent := Some(representative.(eventType := MULTIPLE_SPEED_BREAKERS));
      } else if |recentSpeedBreakers| == 1 {
        pendingEvent := Some(recentSpeedBreakers[0]);
      }
      recentSpeedBreakers := [];
      timerPending := false;
    }

    /** A reoriented sample reaches the sensor manager, and any event it
        emits is handed to the detection callback. */
    method ProcessSample(reorientedZ: real, now: int, id: EventId)
      requires Valid()
      modifies this, sensorEventManager.sensorProcessor
      ensures Valid()
      ensures sensorEventManager.currentLocation.None? ==>
                && sensorEventManager.sensorProcessor.State() == old(sensorEventManager.sensorProcessor.State())
                && AggregationState() == old(AggregationState())
      ensures sensorEventManager.currentLocation.Some? ==>
                var fix := sensorEventManager.currentLocation.value;
                var step := Detect(old(sensorEventManager.sensorProcessor.State()), reorientedZ,
                                   sensorEventManager.currentSpeed, sensorEventManager.selectedVehicleType, now);
                && sensorEventManager.sensorProcessor.State() == step.0
                && (step.1.None? ==> AggregationState() == old(AggregationState()))
                && (step.1.Some? ==>
                      AggregationState()
                      == OnDetected(old(AggregationState()), currentSpeed,
                                    RoadEvent(id, step.1.value, fix.latitude, fix.longitude, now,
                                              DetectionConfidence, sensorEventManager.currentSpeed, false)))
      ensures currentSpeed == old(currentSpeed) && currentLocation == old(currentLocation)
      ensures detectedEvents == old(detectedEvents) && mapEvents == old(mapEvents)
      ensures activeWarning == old(activeWarning)
    {
      var emitted := sensorEventManager.ProcessSensorData(reorientedZ, now, id);
      if emitted.Some? {
        OnEventDetected(emitted.value);
      }
    }

    /** The user answers the confirmation prompt. With nothing pending nothing
        happens; otherwise the pending event is cleared and, when confirmed,
        recorded once as confirmed and reported under its backend type. */
    method ConfirmEvent(confirm: bool) returns (report: Option<HazardReport>)
      requires Valid()
      modifies this
      ensures Valid()
      ensures old(pendingEvent).None? ==>
                report == None && pendingEvent == None && detectedEvents == old(detectedEvents)
      ensures old(pendingEvent).Some? ==>
                var event := old(pendingEvent).value;
                && pendingEvent == None
                && (confirm ==> detectedEvents == old(detectedEvents) + [event.(confirmed := true)])
                && (!confirm ==> detectedEvents == old(detectedEvents))
                && report == (if confirm then Some(HazardReport(event.latitude, event.longitude, ApiType(event.eventType))) else None)
      ensures recentSpeedBreakers == old(recentSpeedBreakers) && timerPending == old(timerPending)
      ensures mapEvents == old(mapEvents) && activeWarning == old(activeWarning)
      ensures currentSpeed == old(currentSpeed) && currentLocation == old(currentLocation)
    {
      report := None;
      if pendingEvent.Some? {
        var event := pendingEvent.value;
        if confirm {
          var confirmedEvent := event.(confirmed := true);
          detectedEvents := detectedEvents + [confirmedEvent];
          var apiType := ApiType(event.eventType);
          report := Some(HazardReport(event.latitude, event.longitude, apiType));
        }
        pendingEvent := None;
      }
    }

    /** The hazards delivered by a fetch replace the map's hazards, one entry
        per hazard in delivery order, each with its local type name. */
    method FetchHazards(remoteHazards: seq<RemoteHazard>)
      requires Valid()
      modifies this
      ensures Valid()
      ensures |mapEvents| == |remoteHazards|
      ensures forall k :: 0 <= k < |remoteHazards| ==> mapEvents[k] == ToMapEvent(remoteHazards[k])
      ensures AggregationState() == old(AggregationState()) && detectedEvents == old(detectedEvents)
      ensures activeWarning == old(activeWarning)
      ensures currentSpeed == old(currentSpeed) && currentLocation == old(currentLocation)
    {
      mapEvents := [];
      var i := 0;
      while i < |remoteHazards|
        invariant 0 <= i <= |remoteHazards|
        invariant |mapEvents| == i
        invariant forall k :: 0 <= k < i ==> mapEvents[k] == ToMapEvent(remoteHazards[k])
        invariant AggregationState() == old(AggregationState()) && detectedEvents == old(detectedEvents)
        invariant activeWarning == old(activeWarning)
        invariant currentSpeed == old(currentSpeed) && currentLocation == old(currentLocation)
      {
        var hazard := remoteHazards[i];
        var mappedType := LocalType(hazard.hazardType);
        mapEvents := mapEvents + [EventResponse(hazard.latitude, hazard.longitude, mappedType)];
        i := i + 1;
      }
    }
  }
}
