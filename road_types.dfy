/**
 * The value types shared by the detection pipeline: the event and vehicle
 * enumerations, the road event record handed to the confirmation and upload
 * layers, the hazard record shown on the map, and a location fix.
 */
module RoadTypes {

  datatype Option<+T> = None | Some(value: T)

  /** The kinds of road event. MULTIPLE_SPEED_BREAKERS is only ever produced
      by the speed-breaker aggregation, never by the detector itself. */
  datatype EventType = SPEED_BREAKER | POTHOLE | BROKEN_PATCH | MULTIPLE_SPEED_BREAKERS

  datatype VehicleType = TWO_WHEELER | THREE_WHEELER | FOUR_WHEELER

  datatype PhoneOrientation = POCKET | MOUNTER | DASHBOARD

  /** Events are identified by a random UUID string, opaque to the model. */
  type EventId = string

  /** A detected road event. Latitude and longitude are in degrees, the
      timestamp in milliseconds, the speed in km/h. */
  datatype RoadEvent = RoadEvent(
    id: EventId,
    eventType: EventType,
    latitude: real,
    longitude: real,
    timestamp: int,
    confidence: real,
    speed: real,
    confirmed: bool)

  /** A hazard as the map layer keeps it: a position and a local type name. */
  datatype EventResponse = EventResponse(latitude: real, longitude: real, hazardType: string)

  /** A location fix: position, fix time in milliseconds, and the ground speed
      in m/s when the provider reported one. */
  datatype Fix = Fix(latitude: real, longitude: real, time: int, speed: Option<real>)
}
