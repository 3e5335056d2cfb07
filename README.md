# RoadHazard hazard-detection pipeline in Dafny

RoadHazard is an Android app that detects road hazards from the phone's
accelerometer while driving. The hazards are speed breakers, potholes and
broken patches. It asks the driver by voice to confirm each one and reports
the confirmed hazards to a backend. This project models the app's detection
pipeline and the decision rules around it, and proves properties of that
model.

- **Detector** (`sensor_processor.dfy`, module `SensorProcessing`):
  - The detector has two parts.
    - The vehicle- and speed-dependent thresholds.
    - `SensorProcessor.detectEvent`, with its 2000 ms cooldown, its parallel ten-sample windows of vertical acceleration and speed, its minimum fill of five, and its first-match classifier (speed breaker, pothole, broken patch), which clears the windows on every hit.
  - The class `SensorProcessor` updates its buffers in place, as the app does.
  - Its method `DetectEvent` is proved equal to the function `Detect` on the value `DetectorState`.
  - `Run` feeds a sequence of samples through `Detect`. The properties of whole runs are lemmas about `Run`: spacing of detections and refill after each one.
- **Adapter** (`sensor_event_manager.dfy`, module `SensorEvents`):
  - `SensorEventManager` feeds the detector only while a location is known.
  - It wraps each detection into a `RoadEvent` with confidence 0.8.
  - It holds the vehicle and location setters and the accelerometer filter.
  - It holds the three simulated event sequences.
- **Location source** (`location_manager.dfy`, module `Locations`):
  - The m/s to km/h conversion.
  - The choice of the more recent last-known GPS or network fix.
  - The guards on the active flag.
- **View model** (`main_view_model.dfy`, module `ViewModel`):
  - The 7 km/h speed gate.
  - Speed-breaker aggregation under one 2 s timer. The timer is an explicit step, `SpeedBreakerTimerFired`, allowed only while `timerPending` is set.
  - Confirmation of the pending event.
  - The first-hazard-in-range warning.
  - The hazard fetch.
  - The three type-string mappings.
  - The functions `OnDetected` and `OnTimerFired` on the value `Aggregation` specify the two aggregation steps. The class methods are proved against them.
- **Voice confirmation** (`event_confirmation_dialog.dfy`, module `ConfirmationDialog`):
  - The question asked for each event type.
  - The decision taken from the way a speech round ended.
- **Shared types** (`road_types.dfy`, module `RoadTypes`):
  - The app's data model: `RoadEvent`, `EventResponse`, the enumerations, and a location fix.

Floats are modelled as `real` and millisecond timestamps as `int`. Wall-clock
readings, event ids, the platform's answers (permission, provider
registration, last-known fixes, recognition outcome) and the geodesic
distance test are parameters of the operations that use them.

Notes on the code, which the model follows:
- The thresholds are scaled by the instantaneous speed of the current sample, not by an average over the window.
- Events are dropped below 7 km/h, although the log message there says 5 km/h.
- There are three vehicle classes: two-, three- and four-wheelers.
- Orientation is recomputed from every sample, and the selected phone orientation never reaches the detector.
- A pothole needs an average window speed above 10 km/h; a broken patch has no such speed floor, only an average below 20 km/h.
- The type-enumeration declaration in `data/DataModels.kt` lists three event types, while the view model and the dialog use a fourth, `MULTIPLE_SPEED_BREAKERS`. The model has all four.

## Model

| member | source | states |
|---|---|---|
| SensorProcessing.BaseThresholds | app/src/main/java/com/drive/roadhazard/sensors/SensorProcessor.kt:23-27 | each vehicle class has positive thresholds, with the pothole threshold below the speed-breaker threshold |
| SensorProcessing.SpeedFactor | app/src/main/java/com/drive/roadhazard/sensors/SensorProcessor.kt:29-32 | the scaling factor is at least 1, and above 1 exactly when the speed exceeds 20 km/h |
| SensorProcessing.CalculateDynamicThreshold | app/src/main/java/com/drive/roadhazard/sensors/SensorProcessor.kt:22-46 | at up to 20 km/h the thresholds are the base pair; above it both are strictly larger; the two keep the base ratio and their order |
| SensorProcessing.ThresholdsMonotoneInSpeed | app/src/main/java/com/drive/roadhazard/sensors/SensorProcessor.kt:29-35 | raising the speed never lowers either threshold |
| SensorProcessing.MaxIsLargest | app/src/main/java/com/drive/roadhazard/sensors/SensorProcessor.kt:103 | the window maximum bounds every sample and is one of them |
| SensorProcessing.MinIsSmallest | app/src/main/java/com/drive/roadhazard/sensors/SensorProcessor.kt:104 | the window minimum bounds every sample from below and is one of them |
| SensorProcessing.AverageAtMostMax | app/src/main/java/com/drive/roadhazard/sensors/SensorProcessor.kt:105 | the average speed of a window is at most its largest speed |
| SensorProcessing.SpeedVariation | app/src/main/java/com/drive/roadhazard/sensors/SensorProcessor.kt:135-139 | with more than three speeds, the variation is the largest difference between two of the last three speeds; otherwise it is 0 |
| SensorProcessing.ClassifyIsFirstMatch | app/src/main/java/com/drive/roadhazard/sensors/SensorProcessor.kt:111-152 | each verdict holds exactly when its own signature holds and no earlier one does: speed breaker, then pothole, then broken patch; the aggregated type never comes out |
| SensorProcessing.NoPotholeAtLowSpeed | app/src/main/java/com/drive/roadhazard/sensors/SensorProcessor.kt:123 | a window whose speeds are all at most 10 km/h is never a pothole |
| SensorProcessing.Push | app/src/main/java/com/drive/roadhazard/sensors/SensorProcessor.kt:93-99 | a sample is appended, and at capacity the oldest entry is evicted (first in, first out) |
| SensorProcessing.Detect | app/src/main/java/com/drive/roadhazard/sensors/SensorProcessor.kt:79-155 | after every call the two buffers have equal length of at most ten |
| SensorProcessing.CooldownSuppresses | app/src/main/java/com/drive/roadhazard/sensors/SensorProcessor.kt:86 | within 2000 ms of the last detection the result is nothing and the state is unchanged |
| SensorProcessing.QuietStepAppends | app/src/main/java/com/drive/roadhazard/sensors/SensorProcessor.kt:93-99 | a call that passes the cooldown and detects nothing only appends to both buffers, evicting the oldest entry once ten are held |
| SensorProcessing.MinimumFillSuppresses | app/src/main/java/com/drive/roadhazard/sensors/SensorProcessor.kt:101 | with fewer than five samples after the append nothing is detected and the sample stays buffered |
| SensorProcessing.DetectionClearsWindow | app/src/main/java/com/drive/roadhazard/sensors/SensorProcessor.kt:111-152 | a detection passed the cooldown and the fill, is the classifier's verdict, records its timestamp and empties both buffers |
| SensorProcessing.DetectWithFullWindow | app/src/main/java/com/drive/roadhazard/sensors/SensorProcessor.kt:101-154 | once the window is full enough, the classifier decides between clearing the window with a detection and keeping it without one |
| SensorProcessing.Run | app/src/main/java/com/drive/roadhazard/sensors/SensorProcessor.kt:79-155 | a run keeps the buffers well formed and yields one result per call |
| SensorProcessing.RunDetectionsBeforeLastEvent | app/src/main/java/com/drive/roadhazard/sensors/SensorProcessor.kt:116-151 | the last-event time never decreases, and no detection of a run is later than the final last-event time |
| SensorProcessing.DetectionsAreSpaced | app/src/main/java/com/drive/roadhazard/sensors/SensorProcessor.kt:86-152 | any two detections of one detector are at least 2000 ms apart |
| SensorProcessing.QuietRunFillsWindow | app/src/main/java/com/drive/roadhazard/sensors/SensorProcessor.kt:86-101 | while nothing is detected, each call that passes the cooldown adds one sample to the window, up to ten |
| SensorProcessing.StateAfterDetection | app/src/main/java/com/drive/roadhazard/sensors/SensorProcessor.kt:116-151 | right after a detection the buffers are empty and the last-event time is that detection's timestamp |
| SensorProcessing.DetectionAfterQuietRun | app/src/main/java/com/drive/roadhazard/sensors/SensorProcessor.kt:101 | a detection at the end of a quiet run needs at least five buffered samples, counting those the run started with |
| SensorProcessing.SuccessiveDetectionsNeedMinimumFill | app/src/main/java/com/drive/roadhazard/sensors/SensorProcessor.kt:86-118 | between two successive detections at least five calls pass the cooldown |
| SensorProcessing.SensorProcessor.constructor | app/src/main/java/com/drive/roadhazard/sensors/SensorProcessor.kt:13-15 | a new detector has empty buffers and last-event time 0 |
| SensorProcessing.SensorProcessor.DetectEvent | app/src/main/java/com/drive/roadhazard/sensors/SensorProcessor.kt:79-155 | the in-place update of the buffers and the last-event time, and the result, are those of Detect on the old state |
| SensorEvents.SensorEventManager.constructor | app/src/main/java/com/drive/roadhazard/managers/SensorEventManager.kt:27-35 | a new manager has a fresh detector, no location, speed 0, a two-wheeler and a mounted phone |
| SensorEvents.SensorEventManager.UpdateVehicleSettings | app/src/main/java/com/drive/roadhazard/managers/SensorEventManager.kt:113-116 | the vehicle type and the orientation are overwritten, and location and speed are kept |
| SensorEvents.SensorEventManager.UpdateLocationAndSpeed | app/src/main/java/com/drive/roadhazard/managers/SensorEventManager.kt:118-121 | location and speed are overwritten, and the vehicle settings are kept |
| SensorEvents.SensorEventManager.ProcessSensorData | app/src/main/java/com/drive/roadhazard/managers/SensorEventManager.kt:133-151 | without a location the detector is untouched and nothing is emitted; otherwise the detector takes one step at the current speed and vehicle type, and an event is emitted exactly on a detection, carrying its type, the fix's position, the time, confidence 0.8 and the current speed, unconfirmed |
| SensorEvents.SensorEventManager.OnSensorChanged | app/src/main/java/com/drive/roadhazard/managers/SensorEventManager.kt:125-131 | a missing or non-accelerometer event changes nothing; an accelerometer event takes one detector step on its reoriented vertical value |
| SensorEvents.SensorEventManager.SimulateSpeedBreaker | app/src/main/java/com/drive/roadhazard/managers/SensorEventManager.kt:82-88 | the detector sees +25 and then -15, and the emitted types are its two verdicts in that order |
| SensorEvents.SensorEventManager.SimulatePothole | app/src/main/java/com/drive/roadhazard/managers/SensorEventManager.kt:90-94 | the detector sees one -20 sample, and the emitted types are its verdict |
| SensorEvents.SensorEventManager.SimulateBrokenPatch | app/src/main/java/com/drive/roadhazard/managers/SensorEventManager.kt:96-104 | the detector runs over the five jolts in order, and the emitted types are exactly its detections, in order |
| Locations.SpeedKmh | app/src/main/java/com/drive/roadhazard/managers/LocationManager.kt:220-224 | the reported speed is the fix's m/s speed times 3.6, or 0 when the fix has no speed |
| Locations.BestFix | app/src/main/java/com/drive/roadhazard/managers/LocationManager.kt:199-207 | of two fixes, the one with the later time is chosen, and a tie goes to network; a single fix is used as it is; nothing is chosen only when both are missing |
| Locations.BestFixIsMostRecent | app/src/main/java/com/drive/roadhazard/managers/LocationManager.kt:199-203 | for fixes with different times the choice does not depend on which provider delivered which |
| Locations.LocationManager.constructor | app/src/main/java/com/drive/roadhazard/managers/LocationManager.kt:40-41 | no location and updates inactive at start |
| Locations.LocationManager.StartLocationUpdates | app/src/main/java/com/drive/roadhazard/managers/LocationManager.kt:74-97 | a no-op when already active or without permission; otherwise active exactly when a provider accepted, and after a system-manager registration the best last-known system fix becomes the current location and is passed to the listener |
| Locations.LocationManager.StopLocationUpdates | app/src/main/java/com/drive/roadhazard/managers/LocationManager.kt:233-256 | updates are inactive afterwards, and the location is kept |
| Locations.LocationManager.HandleLocationUpdate | app/src/main/java/com/drive/roadhazard/managers/LocationManager.kt:218-231 | the fix becomes the current location, after which GetCurrentLocation returns it and IsLocationAvailable holds, and the listener gets that fix with its km/h speed |
| Locations.LocationManager.GetLastKnownLocationFromSystem | app/src/main/java/com/drive/roadhazard/managers/LocationManager.kt:189-216 | without permission or any remembered fix nothing happens; otherwise the best fix is handled as an update |
| ViewModel.SpeedGateDiscards | app/src/main/java/com/drive/roadhazard/viewmodels/MainViewModel.kt:63-66 | below 7 km/h an event changes nothing |
| ViewModel.OtherEventsPassThrough | app/src/main/java/com/drive/roadhazard/viewmodels/MainViewModel.kt:68-95 | any other type becomes the pending event at once, and the speed-breaker buffer and timer are kept |
| ViewModel.SpeedBreakerIsBuffered | app/src/main/java/com/drive/roadhazard/viewmodels/MainViewModel.kt:74-79 | a speed breaker is appended and the pending event kept; a timer is outstanding; an idle aggregator starts its window with that event |
| ViewModel.DetectionKeepsInvariant | app/src/main/java/com/drive/roadhazard/viewmodels/MainViewModel.kt:62-97 | the detection step keeps "a timer is outstanding exactly while speed breakers are buffered, and only speed breakers are" |
| ViewModel.TimerFireKeepsInvariant | app/src/main/java/com/drive/roadhazard/viewmodels/MainViewModel.kt:78-89 | the timer step keeps the same invariant |
| ViewModel.TimerFireCollapsesBuffer | app/src/main/java/com/drive/roadhazard/viewmodels/MainViewModel.kt:80-88 | two or more buffered events become the last one retyped as multiple (all else kept), one is passed on unchanged, none leaves the pending event; the buffer empties |
| ViewModel.SpeedBreakerBurstCollapses | app/src/main/java/com/drive/roadhazard/viewmodels/MainViewModel.kt:74-89 | a burst of speed breakers from idle is buffered in order, and the firing yields the last one as multiple, or the single one |
| ViewModel.ApiTypeInjective | app/src/main/java/com/drive/roadhazard/viewmodels/MainViewModel.kt:228-233 | distinct event types are reported under distinct backend strings |
| ViewModel.LocalTypeKnownExactlyForApiTypes | app/src/main/java/com/drive/roadhazard/viewmodels/MainViewModel.kt:137-143 | a backend string maps to a known local type exactly when the app itself reports that string |
| ViewModel.ReportedTypesRoundTrip | app/src/main/java/com/drive/roadhazard/viewmodels/MainViewModel.kt:120-143 | a reported type comes back known and with a specific warning name; the round trip merges exactly single and multiple speed breakers |
| ViewModel.FirstInRange | app/src/main/java/com/drive/roadhazard/viewmodels/MainViewModel.kt:111-117 | the index found passes the distance test, and nothing is found only when no hazard passes |
| ViewModel.FirstInRangeIsFirst | app/src/main/java/com/drive/roadhazard/viewmodels/MainViewModel.kt:111-117 | the index found is the least one that passes the distance test |
| ViewModel.MainViewModel.constructor | app/src/main/java/com/drive/roadhazard/viewmodels/MainViewModel.kt:37-51 | empty lists, no location, no pending event, no warning, an idle aggregator, and a new sensor manager with no location, speed 0, a two-wheeler, a mounted phone and an empty detector |
| ViewModel.MainViewModel.OnLocationUpdate | app/src/main/java/com/drive/roadhazard/viewmodels/MainViewModel.kt:54-60 | the fix and speed are stored here and in the sensor manager, whose vehicle settings are kept, and the warning is recomputed |
| ViewModel.MainViewModel.CheckProximityToHazards | app/src/main/java/com/drive/roadhazard/viewmodels/MainViewModel.kt:109-128 | the warning names the first map hazard in range, or is cleared |
| ViewModel.MainViewModel.OnEventDetected | app/src/main/java/com/drive/roadhazard/viewmodels/MainViewModel.kt:62-97 | the aggregation state changes as OnDetected says, and the invariant is kept |
| ViewModel.MainViewModel.SpeedBreakerTimerFired | app/src/main/java/com/drive/roadhazard/viewmodels/MainViewModel.kt:78-89 | the aggregation state changes as OnTimerFired says, and the invariant is kept |
| ViewModel.MainViewModel.ProcessSample | app/src/main/java/com/drive/roadhazard/managers/SensorEventManager.kt:133-151 | without a location neither the detector nor the aggregation changes; otherwise the detector takes one step, and on a detection the aggregation takes the OnDetected step with the event built from the fix, the time, confidence 0.8 and the manager's speed |
| ViewModel.MainViewModel.ConfirmEvent | app/src/main/java/com/drive/roadhazard/viewmodels/MainViewModel.kt:219-244 | no pending event: nothing changes. Otherwise the pending event is cleared; on confirm exactly one confirmed copy is recorded and reported under its backend type, and on reject nothing is recorded; the rest of the state is kept |
| ViewModel.MainViewModel.FetchHazards | app/src/main/java/com/drive/roadhazard/viewmodels/MainViewModel.kt:130-155 | the map holds exactly one entry per remote hazard, in order, with its local type; the rest of the state is kept |
| ConfirmationDialog.QuestionsAreDistinct | app/src/main/java/com/drive/roadhazard/ui/presentation/EventConfirmationDialog.kt:109-114 | each event type is asked its own question |
| ConfirmationDialog.Lowercase | app/src/main/java/com/drive/roadhazard/ui/presentation/EventConfirmationDialog.kt:127 | lower-casing keeps the length and maps each character on its own |
| ConfirmationDialog.LowercaseIdempotent | app/src/main/java/com/drive/roadhazard/ui/presentation/EventConfirmationDialog.kt:127 | lower-casing twice is lower-casing once |
| ConfirmationDialog.ContainsIffOccurs | app/src/main/java/com/drive/roadhazard/ui/presentation/EventConfirmationDialog.kt:130-131 | the substring test holds exactly when the word occurs at some position |
| ConfirmationDialog.NopeContainsNo | app/src/main/java/com/drive/roadhazard/ui/presentation/EventConfirmationDialog.kt:131 | a reply with "nope" in it also has "no" in it |
| ConfirmationDialog.ConfirmsExactlyOnYes | app/src/main/java/com/drive/roadhazard/ui/presentation/EventConfirmationDialog.kt:123-137 | one decision per round; it confirms exactly when the first recognised phrase, lower-cased, contains "yes" or "yeah" |
| ConfirmationDialog.FailuresReject | app/src/main/java/com/drive/roadhazard/ui/presentation/EventConfirmationDialog.kt:134-143 | a missing or empty result list, a recognition error, a speech error or a failed start rejects |
| ConfirmationDialog.YesWinsOverNo | app/src/main/java/com/drive/roadhazard/ui/presentation/EventConfirmationDialog.kt:129-131 | a reply that contains both "yes" and "no" confirms |
| ConfirmationDialog.OnlyFirstPhraseCounts | app/src/main/java/com/drive/roadhazard/ui/presentation/EventConfirmationDialog.kt:126-127 | a "yes" in a later alternative does not confirm |
| ConfirmationDialog.AnswerIgnoresCase | app/src/main/java/com/drive/roadhazard/ui/presentation/EventConfirmationDialog.kt:127-130 | a first phrase is answered as its lower-cased form is, whatever its letter case |

## Left out

- Reorientation of the accelerometer axes (`SensorProcessor.kt:49-77`) is floating-point trigonometry. `OnSensorChanged` takes it as a function parameter.
- IEEE `Float` and `Double` rounding is not modelled. Accelerations, speeds, thresholds and coordinates are exact `real`s.
- Timestamps are unbounded `int`s. The 64-bit wrap-around of `Long` cannot occur with wall-clock values.
- The aggregation timer's `delay(2000)` and its coroutine `Job` are not modelled. The timer is the explicit step `SpeedBreakerTimerFired`, which the environment may take while a timer is pending. How much wall-clock time passed before it is not modelled.
- In the simulation, the random choice, the random delays and the random jolt values of the broken-patch simulation are not modelled. They are parameters of `SimulateBrokenPatch`, and the 150 ms pauses are not modelled.
- Sensor registration and unregistration, and the simulation loop in `startSensorCollection`/`stopSensorCollection`, are platform I/O.
- Registration with the fused and system location providers is platform I/O, as are the permission check and the `SecurityException` paths. `StartLocationUpdates` takes the permission, the registration outcome and the remembered system fixes as parameters.
- StartLocationUpdates: the fused provider's last-location request after a Play Services registration is asynchronous and is not modelled, so on that route the location is not updated by the call. The source sets the active flag on that route only in the asynchronous success listener, so until it runs a second start is not a no-op; the model sets the flag within the call. Likewise, a Play Services refusal that arrives later and falls back to the system manager is modelled as happening within the call.
- `Location.distanceTo` is not modelled. The 30 m test of `checkProximityToHazards` is the parameter `withinRange`.
- Networking, sign-in, sign-up, the JWT and shared preferences are not modelled, nor is sending the report. `ConfirmEvent` returns the report it would send. `FetchHazards` takes the fetched hazards as a parameter and omits the check that a JWT is present.
- `ProcessSensorData` reads the clock once. The source reads it twice, once for the detector and once for the event timestamp, and the model uses one reading for both.
- Random UUID event ids are parameters.
- Logging and the Compose user interface are not modelled. This includes the dialog's listening indicator and the text-to-speech and speech-recognition engines; the engines' outcome is the value `RecognitionOutcome`.
- `ConfirmationDialog.Lowercase`: only the letters A-Z are lower-cased. Root-locale lower-casing of other characters is not modelled.
