/**
 * The location source: it keeps the latest fix, turns the provider's ground
 * speed into km/h for the listener, chooses the more recent of the two
 * last-known system fixes, and tracks whether updates are active.
 *
 * The platform is outside the model: whether the app holds the location
 * permission, whether a provider accepted the registration and which fixes
 * the system remembers are parameters. The listener callback is modelled by
 * returning its arguments.
 */
module Locations {
  import opened RoadTypes

  /** The speed handed to the listener, in km/h: the provider's m/s speed
      times 3.6, or 0 when the fix carries no speed. */
  function SpeedKmh(fix: Fix): (r: real)
    ensures fix.speed.None? ==> r == 0.0
    ensures fix.speed.Some? ==> r / 3.6 == fix.speed.value
    ensures fix.speed.Some? && fix.speed.value >= 0.0 ==> r >= fix.speed.value
  {
    if fix.speed.Some? then fix.speed.value * 3.6 else 0.0
  }

  /** The last-known fix to use: the GPS fix when it is strictly newer than
      the network fix, otherwise the network fix; a single remembered fix is
      used as it is. */
  function BestFix(gps: Option<Fix>, network: Option<Fix>): (r: Option<Fix>)
    ensures r.None? <==> gps.None? && network.None?
    ensures r == gps || r == network
    ensures gps.Some? && network.Some? ==>
              r.value.time >= gps.value.time && r.value.time >= network.value.time
    ensures gps.Some? && network.Some? && gps.value.time == network.value.time ==> r == network
    ensures gps.None? ==> r == network
    ensures network.None? ==> r == gps
  {
    if gps.Some? && network.Some? then
      if gps.value.time > network.value.time then gps else network
    else if gps.Some? then gps
    else network
  }

  /** The choice does not depend on anything but the fix times: swapping the
      providers of two fixes with different times picks the same fix. */
  lemma BestFixIsMostRecent(a: Fix, b: Fix)
    requires a.time != b.time
    ensures BestFix(Some(a), Some(b)) == BestFix(Some(b), Some(a))
  {
  }

  /** How the platform answered a registration for location updates. */
  datatype StartRoute =
    | PlayServices                    // the fused provider accepted the request
    | SystemManager(accepted: bool)   // the system manager was used; false when it refused

  class LocationManager {
    var currentLocation: Option<Fix>
    var isLocationUpdatesActive: bool

    constructor ()
      ensures currentLocation == None && !isLocationUpdatesActive
    {
      currentLocation := None;
      isLocationUpdatesActive := false;
    }

    /** Registers for updates unless they are already active or the
        permission is missing. The route says how the platform answered:
        Play Services accepted the registration, or the system manager was
        used (because Play Services was not ready or refused) and accepted or
        refused it. After a successful system-manager registration the best
        last-known system fix is handled at once; the result is that listener
        call, if any. */
    method StartLocationUpdates(permitted: bool, route: StartRoute, gps: Option<Fix>, network: Option<Fix>)
      returns (callback: Option<(Fix, real)>)
      modifies this
      ensures old(isLocationUpdatesActive) || !permitted ==>
                && isLocationUpdatesActive == old(isLocationUpdatesActive)
                && currentLocation == old(currentLocation) && callback == None
      ensures !old(isLocationUpdatesActive) && permitted ==>
                && isLocationUpdatesActive == (route.PlayServices? || route.accepted)
                && (route.PlayServices? || !route.accepted || BestFix(gps, network).None? ==>
                      currentLocation == old(currentLocation) && callback == None)
                && (route.SystemManager? && route.accepted && BestFix(gps, network).Some? ==>
                      var best := BestFix(gps, network).value;
                      currentLocation == Some(best) && callback == Some((best, SpeedKmh(best))))
    {
      callback := None;
      if isLocationUpdatesActive {
        return;
      }
      if !permitted {
        return;
      }
      match route {
        case PlayServices =>
          isLocationUpdatesActive := true;
        case SystemManager(accepted) =>
          if accepted {
            isLocationUpdatesActive := true;
            callback := GetLastKnownLocationFromSystem(permitted, gps, network);
          }
      }
    }

    /** Unregisters from both providers; nothing happens when updates are
        not active. */
    method StopLocationUpdates()
      modifies this
      ensures !isLocationUpdatesActive
      ensures currentLocation == old(currentLocation)
    {
      if !isLocationUpdatesActive {
        return;
      }
      isLocationUpdatesActive := false;
    }

    /** A new fix from either provider: it becomes the current location and
        is passed on with its speed in km/h. */
    method HandleLocationUpdate(location: Fix) returns (callbackLocation: Fix, callbackSpeed: real)
      modifies this
      ensures currentLocation == Some(location)
      ensures callbackLocation == location && callbackSpeed == SpeedKmh(location)
      ensures GetCurrentLocation() == Some(location) && IsLocationAvailable()
      ensures isLocationUpdatesActive == old(isLocationUpdatesActive)
    {
      currentLocation := Some(location);
      var speed := if location.speed.Some? then location.speed.value * 3.6 else 0.0;
      callbackLocation, callbackSpeed := location, speed;
    }

    /** Uses the more recent of the system's last-known GPS and network
        fixes, when the permission is held and either exists; the result is
        the listener call made, if any. */
    method GetLastKnownLocationFromSystem(permitted: bool, gps: Option<Fix>, network: Option<Fix>)
      returns (callback: Option<(Fix, real)>)
      modifies this
      ensures !permitted || BestFix(gps, network).None? ==>
                callback == None && currentLocation == old(currentLocation)
      ensures permitted && BestFix(gps, network).Some? ==>
                var best := BestFix(gps, network).value;
                currentLocation == Some(best) && callback == Some((best, SpeedKmh(best)))
      ensures isLocationUpdatesActive == old(isLocationUpdatesActive)
    {
      callback := None;
      if !permitted {
        return;
      }
      var bestLocation := BestFix(gps, network);
      if bestLocation.Some? {
        var location, speed := HandleLocationUpdate(bestLocation.value);
        callback := Some((location, speed));
      }
    }

    function GetCurrentLocation(): Option<Fix>
      reads this
    {
      currentLocation
    }

    function IsLocationAvailable(): bool
      reads this
    {
      currentLocation != None
    }
  }
}
