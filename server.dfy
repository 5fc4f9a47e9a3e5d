/** The application object: the three in-memory stores and one method per
    endpoint. Each method changes the stores as the matching store function
    says, and keeps the stores numbered and consistent. */
module Server {
  import opened Wrappers
  import opened Domain
  import Registry
  import RideStore
  import Tracker

  class App {
    var users: seq<User>
    var rides: seq<Ride>
    var driverLoc: map<int, Location>

    /** Users and rides sit at the position their id names, and no ride with a
        driver is waiting. */
    ghost predicate Valid()
      reads this
    {
      && Registry.Numbered(users)
      && RideStore.Numbered(rides)
      && RideStore.DriverInv(rides)
    }

    /** A freshly started process: all three stores empty. */
    constructor ()
      ensures Valid()
      ensures users == [] && rides == [] && driverLoc == map[]
    {
      users, rides, driverLoc := [], [], map[];
    }

    /** POST /register. */
    method Register(name: Option<string>, phone: Option<string>, isDriver: bool)
      returns (res: Result<int, Error>)
      requires Valid()
      modifies this
      ensures Valid()
      ensures (res, users) == Registry.Register(old(users), name, phone, isDriver)
      ensures rides == old(rides) && driverLoc == old(driverLoc)
    {
      if !NonEmpty(name) {
        return Err(NameRequired);
      }
      var uid := Registry.NewUserId(users);
      users := users + [User(uid, name.value, phone, isDriver)];
      res := Ok(uid);
    }

    /** GET /users: every user in registration order, user `i` with id `i + 1`. */
    function ListUsers(): (r: seq<User>)
      requires Valid()
      reads this
      ensures |r| == |users|
      ensures forall i :: 0 <= i < |r| ==> r[i].id == i + 1
    {
      users
    }

    /** POST /request_ride. */
    method RequestRide(riderId: Option<int>, origin: Option<Place>, destination: Option<Place>, now: Time)
      returns (res: Result<Ride, Error>)
      requires Valid()
      modifies this
      ensures Valid() && RideStore.Evolves(old(rides), rides)
      ensures (res, rides) == RideStore.RequestRide(old(rides), riderId, origin, destination, now)
      ensures users == old(users) && driverLoc == old(driverLoc)
    {
      RideStore.RequestRidePreserves(rides, riderId, origin, destination, now);
      if !(Truthy(riderId) && origin.Some? && destination.Some?) {
        return Err(RideFieldsRequired);
      }
      var ride := Ride(RideStore.NewRideId(rides), riderId.value, None, origin.value, destination.value, Waiting, now);
      rides := rides + [ride];
      res := Ok(ride);
    }

    /** GET /available_rides. */
    function AvailableRides(): (r: seq<Ride>)
      reads this
      ensures forall x :: x in r <==> x in rides && x.status == Waiting
    {
      RideStore.Available(rides)
    }

    /** POST /accept_ride: scan for the ride, refuse it unless it is waiting,
        otherwise set its driver and mark it accepted. */
    method AcceptRide(driverId: Option<int>, rideId: Option<int>) returns (res: Result<Ride, Error>)
      requires Valid()
      modifies this
      ensures Valid() && RideStore.Evolves(old(rides), rides)
      ensures (res, rides) == RideStore.Accept(old(rides), driverId, rideId)
      ensures users == old(users) && driverLoc == old(driverLoc)
    {
      RideStore.AcceptPreserves(rides, driverId, rideId);
      if !(Truthy(driverId) && Truthy(rideId)) {
        return Err(AcceptFieldsRequired);
      }
      var i := 0;
      while i < |rides|
        invariant 0 <= i <= |rides|
        invariant forall j :: 0 <= j < i ==> rides[j].id != rideId.value
      {
        if rides[i].id == rideId.value {
          RideStore.AcceptAt(rides, driverId, rideId, i);
          if rides[i].status != Waiting {
            return Err(RideNotAvailable);
          }
          var r := rides[i].(driverId := driverId, status := Accepted);
          rides := rides[i := r];
          return Ok(r);
        }
        i := i + 1;
      }
      return Err(RideNotFound);
    }

    /** The scan shared by start_ride and complete_ride: overwrite the status of
        the first ride with the id, whatever its status was. */
    method OverwriteStatus(rideId: Option<int>, s: Status) returns (res: Result<Ride, Error>)
      requires Valid() && s != Waiting
      modifies this
      ensures Valid() && RideStore.Evolves(old(rides), rides)
      ensures (res, rides) == RideStore.SetStatus(old(rides), rideId, s)
      ensures users == old(users) && driverLoc == old(driverLoc)
    {
      RideStore.SetStatusPreserves(rides, rideId, s);
      var i := 0;
      while i < |rides|
        invariant 0 <= i <= |rides|
        invariant forall j :: 0 <= j < i ==> Some(rides[j].id) != rideId
      {
        if Some(rides[i].id) == rideId {
          RideStore.SetStatusAt(rides, rideId.value, s, i);
          var r := rides[i].(status := s);
          rides := rides[i := r];
          return Ok(r);
        }
        i := i + 1;
      }
      return Err(RideNotFound);
    }

    /** POST /start_ride. */
    method StartRide(rideId: Option<int>) returns (res: Result<Ride, Error>)
      requires Valid()
      modifies this
      ensures Valid() && RideStore.Evolves(old(rides), rides)
      ensures (res, rides) == RideStore.StartRide(old(rides), rideId)
      ensures users == old(users) && driverLoc == old(driverLoc)
    {
      res := OverwriteStatus(rideId, Started);
    }

    /** POST /complete_ride. */
    method CompleteRide(rideId: Option<int>) returns (res: Result<Ride, Error>)
      requires Valid()
      modifies this
      ensures Valid() && RideStore.Evolves(old(rides), rides)
      ensures (res, rides) == RideStore.CompleteRide(old(rides), rideId)
      ensures users == old(users) && driverLoc == old(driverLoc)
    {
      res := OverwriteStatus(rideId, Completed);
    }

    /** GET /ride_history/<user_id>. */
    function RideHistory(u: int): (h: RideStore.History)
      reads this
      ensures forall x :: x in h.asRider <==> x in rides && x.riderId == u
      ensures forall x :: x in h.asDriver <==> x in rides && x.driverId == Some(u)
    {
      RideStore.RideHistory(rides, u)
    }

    /** POST /update_location. */
    method UpdateLocation(driverId: Option<int>, lat: Option<Coord>, lng: Option<Coord>, now: Time)
      returns (res: Result<(), Error>)
      requires Valid()
      modifies this
      ensures Valid()
      ensures (res, driverLoc) == Tracker.UpdateLocation(old(driverLoc), driverId, lat, lng, now)
      ensures users == old(users) && rides == old(rides)
    {
      if !(Truthy(driverId) && lat.Some? && lng.Some?) {
        return Err(LocationFieldsRequired);
      }
      driverLoc := driverLoc[driverId.value := Location(lat.value, lng.value, now)];
      res := Ok(());
    }

    /** GET /get_driver_location/<ride_id>: scan for the first ride with the id
        and a driver, and answer with that driver's last report if there is one. */
    method GetDriverLocation(rideId: int) returns (res: Tracker.Lookup)
      ensures res == Tracker.LocateForRide(rides, driverLoc, rideId)
    {
      var i := 0;
      while i < |rides|
        invariant 0 <= i <= |rides|
        invariant forall j :: 0 <= j < i ==> !Tracker.Assigned(rides[j], rideId)
      {
        if rides[i].id == rideId && Truthy(rides[i].driverId) {
          var d := rides[i].driverId.value;
          if d in driverLoc {
            return Tracker.Found(driverLoc[d]);
          }
          return Tracker.NoLocationYet;
        }
        i := i + 1;
      }
      return Tracker.RideNotFoundOrNoDriver;
    }
  }

  /** A session from a fresh process: Alice registers as a rider and Bob as a
      driver, Alice asks for a ride, Bob accepts it, a second acceptance is
      refused, Bob reports a position, and the lookup for the ride answers
      with that report. */
  method Walkthrough()
    returns (alice: Result<int, Error>, bob: Result<int, Error>, ride: Result<Ride, Error>,
             accepted: Result<Ride, Error>, again: Result<Ride, Error>, where: Tracker.Lookup)
    ensures alice == Ok(1) && bob == Ok(2)
    ensures ride.Ok? && ride.value.id == 1 && ride.value.status == Waiting && ride.value.driverId == None
    ensures accepted.Ok? && accepted.value.driverId == Some(2) && accepted.value.status == Accepted
    ensures again == Err(RideNotAvailable)
    ensures where == Tracker.Found(Location(10, 20, "t1"))
  {
    var app := new App();
    alice := app.Register(Some("Alice"), None, false);
    bob := app.Register(Some("Bob"), None, true);
    ride := app.RequestRide(Some(1), Some(Place(0, 0)), Some(Place(1, 1)), "t0");
    RideStore.FindRideNumbered(app.rides, 1);
    accepted := app.AcceptRide(Some(2), Some(1));
    RideStore.FindRideNumbered(app.rides, 1);
    again := app.AcceptRide(Some(2), Some(1));
    var _ := app.UpdateLocation(Some(2), Some(10), Some(20), "t1");
    where := app.GetDriverLocation(1);
    Tracker.LocateNumbered(app.rides, app.driverLoc, 1);
  }
}
