/** The driver location tracker: the last reported position per driver, and
    the lookup of a ride's driver position. */
module Tracker {
  import opened Wrappers
  import opened Domain
  import opened Lists
  import RideStore

  /** A location report: the answer and the tracker afterwards. Latitude and
      longitude are only required to be present, so a zero coordinate is accepted. */
  function UpdateLocation(loc: map<int, Location>, driverId: Option<int>,
                          lat: Option<Coord>, lng: Option<Coord>, now: Time)
    : (out: (Result<(), Error>, map<int, Location>))
    ensures out.0.Err? <==> !(Truthy(driverId) && lat.Some? && lng.Some?)
    ensures out.0.Err? ==> out.0.error == LocationFieldsRequired && out.1 == loc
    ensures out.0.Ok? ==>
      && out.1.Keys == loc.Keys + {driverId.value}
      && out.1[driverId.value] == Location(lat.value, lng.value, now)
      && forall k :: k in loc && k != driverId.value ==> out.1[k] == loc[k]
  {
    if !(Truthy(driverId) && lat.Some? && lng.Some?) then (Err(LocationFieldsRequired), loc)
    else (Ok(()), loc[driverId.value := Location(lat.value, lng.value, now)])
  }

  /** The three answers of the location lookup. */
  datatype Lookup = Found(location: Location) | NoLocationYet | RideNotFoundOrNoDriver

  /** The ride the lookup scan stops at: it has the id and a truthy driver id. */
  predicate Assigned(r: Ride, rideId: int) {
    r.id == rideId && Truthy(r.driverId)
  }

  /** The position of the first ride with this id that has a driver. */
  function FindAssigned(rides: seq<Ride>, rideId: int): (k: Option<nat>)
    ensures k.Some? ==> k.value < |rides| && Assigned(rides[k.value], rideId)
    ensures k.Some? ==> forall j :: 0 <= j < k.value ==> !Assigned(rides[j], rideId)
    ensures k.None? <==> forall j :: 0 <= j < |rides| ==> !Assigned(rides[j], rideId)
  {
    FirstIndex(rides, (r: Ride) => Assigned(r, rideId))
  }

  /** The lookup of the driver position for a ride. */
  function LocateForRide(rides: seq<Ride>, loc: map<int, Location>, rideId: int): (res: Lookup)
    ensures res.RideNotFoundOrNoDriver? <==> forall j :: 0 <= j < |rides| ==> !Assigned(rides[j], rideId)
    ensures res.Found? ==> res.location in loc.Values
  {
    match FindAssigned(rides, rideId)
    case None => RideNotFoundOrNoDriver
    case Some(i) =>
      var d := rides[i].driverId.value;
      if d in loc then Found(loc[d]) else NoLocationYet
  }

  /** In a numbered store the lookup has three outcomes: no such ride or no
      driver on it; a driver who never reported; that driver's last report. */
  lemma LocateNumbered(rides: seq<Ride>, loc: map<int, Location>, rideId: int)
    requires RideStore.Numbered(rides)
    ensures !(1 <= rideId <= |rides|) ==> LocateForRide(rides, loc, rideId) == RideNotFoundOrNoDriver
    ensures 1 <= rideId <= |rides| ==>
      var r := rides[rideId - 1];
      LocateForRide(rides, loc, rideId) ==
        if !Truthy(r.driverId) then RideNotFoundOrNoDriver
        else if r.driverId.value in loc then Found(loc[r.driverId.value])
        else NoLocationYet
  {
  }

  /** A report is what the next lookup for any ride of that driver answers. */
  lemma LocateAfterUpdate(rides: seq<Ride>, loc: map<int, Location>, rideId: int,
                          d: int, lat: Coord, lng: Coord, now: Time)
    requires RideStore.Numbered(rides)
    requires 1 <= rideId <= |rides| && rides[rideId - 1].driverId == Some(d) && d != 0
    ensures
      var loc' := UpdateLocation(loc, Some(d), Some(lat), Some(lng), now).1;
      LocateForRide(rides, loc', rideId) == Found(Location(lat, lng, now))
  {
  }

  /** A report by one driver does not change the lookup for a ride of another driver. */
  lemma LocateOtherDriver(rides: seq<Ride>, loc: map<int, Location>, rideId: int,
                          d: Option<int>, lat: Option<Coord>, lng: Option<Coord>, now: Time)
    requires RideStore.Numbered(rides)
    requires 1 <= rideId <= |rides| && rides[rideId - 1].driverId != d
    ensures LocateForRide(rides, UpdateLocation(loc, d, lat, lng, now).1, rideId)
         == LocateForRide(rides, loc, rideId)
  {
  }
}
