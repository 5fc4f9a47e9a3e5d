/** The ride store: an append-only list of rides, the waiting list, driver
    acceptance, the two unguarded status overwrites, and per-user history. */
module RideStore {
  import opened Wrappers
  import opened Domain
  import opened Lists

  /** Ride `i` (counting from 0) carries id `i + 1`. Holds of every reachable store. */
  ghost predicate Numbered(rides: seq<Ride>) {
    forall i :: 0 <= i < |rides| ==> rides[i].id == i + 1
  }

  /** A ride that has a driver holds a truthy driver id and is no longer waiting. */
  predicate Consistent(r: Ride) {
    r.driverId.Some? ==> r.driverId.value != 0 && r.status != Waiting
  }

  /** Every ride in the store is consistent. */
  ghost predicate DriverInv(rides: seq<Ride>) {
    forall i :: 0 <= i < |rides| ==> Consistent(rides[i])
  }

  /** How one ride may change between two moments: its id, rider, places and
      creation time never change, a driver once set stays, and a ride that
      has left `Waiting` never returns to it. */
  predicate Successor(r: Ride, r': Ride) {
    && r'.id == r.id
    && r'.riderId == r.riderId
    && r'.origin == r.origin
    && r'.destination == r.destination
    && r'.createdAt == r.createdAt
    && (r.driverId.Some? ==> r'.driverId == r.driverId)
    && (r.status != Waiting ==> r'.status != Waiting)
  }

  /** How the store may change: rides are only appended, and each existing ride
      changes only as `Successor` allows. */
  ghost predicate Evolves(before: seq<Ride>, after: seq<Ride>) {
    && |before| <= |after|
    && forall i :: 0 <= i < |before| ==> Successor(before[i], after[i])
  }

  /** Nothing in the store has this id. */
  ghost predicate NoRideWithId(rides: seq<Ride>, id: int) {
    forall j :: 0 <= j < |rides| ==> rides[j].id != id
  }

  /** `i` is the first position holding a ride with this id: the ride a scan of
      the store stops at. */
  ghost predicate FirstWithId(rides: seq<Ride>, id: int, i: nat) {
    i < |rides| && rides[i].id == id && forall j :: 0 <= j < i ==> rides[j].id != id
  }

  /** The id the next ride request receives: larger than the number of rides
      stored, and truthy, so later requests can name the ride by it. */
  function NewRideId(rides: seq<Ride>): (id: int)
    ensures id > |rides|
    ensures Truthy(Some(id))
  {
    |rides| + 1
  }

  /** The position a scan for `id` stops at. */
  function FindRide(rides: seq<Ride>, id: int): (k: Option<nat>)
    ensures k.Some? ==> FirstWithId(rides, id, k.value)
    ensures k.None? <==> NoRideWithId(rides, id)
  {
    FirstIndex(rides, (r: Ride) => r.id == id)
  }

  /** A ride request: the answer and the store afterwards. */
  function RequestRide(rides: seq<Ride>, riderId: Option<int>, origin: Option<Place>,
                       destination: Option<Place>, now: Time)
    : (out: (Result<Ride, Error>, seq<Ride>))
    ensures out.0.Err? <==> !(Truthy(riderId) && origin.Some? && destination.Some?)
    ensures out.0.Err? ==> out.0.error == RideFieldsRequired && out.1 == rides
    ensures out.0.Ok? ==>
      && |out.1| == |rides| + 1
      && rides <= out.1
      && out.1[|rides|] == out.0.value
      && out.0.value.id == |rides| + 1
      && out.0.value.riderId == riderId.value
      && out.0.value.driverId == None
      && out.0.value.status == Waiting
      && out.0.value.origin == origin.value
      && out.0.value.destination == destination.value
      && out.0.value.createdAt == now
  {
    if !(Truthy(riderId) && origin.Some? && destination.Some?) then
      (Err(RideFieldsRequired), rides)
    else
      var ride := Ride(NewRideId(rides), riderId.value, None, origin.value, destination.value, Waiting, now);
      (Ok(ride), rides + [ride])
  }

  predicate IsWaiting(r: Ride) {
    r.status == Waiting
  }

  /** The rides a driver may still accept, in storage order. */
  function Available(rides: seq<Ride>): (r: seq<Ride>)
    ensures forall x :: x in r <==> x in rides && x.status == Waiting
    ensures |r| <= |rides|
  {
    Filter(rides, IsWaiting)
  }

  /** Acceptance by a driver: the answer and the store afterwards. */
  function Accept(rides: seq<Ride>, driverId: Option<int>, rideId: Option<int>)
    : (out: (Result<Ride, Error>, seq<Ride>))
    ensures !(Truthy(driverId) && Truthy(rideId)) ==> out == (Err(AcceptFieldsRequired), rides)
    ensures Truthy(driverId) && Truthy(rideId) && NoRideWithId(rides, rideId.value) ==>
      out == (Err(RideNotFound), rides)
    ensures out.0.Err? ==> out.1 == rides
    ensures out.0.Ok? ==> Truthy(driverId) && Truthy(rideId) && !NoRideWithId(rides, rideId.value)
  {
    if !(Truthy(driverId) && Truthy(rideId)) then (Err(AcceptFieldsRequired), rides)
    else match FindRide(rides, rideId.value)
      case None => (Err(RideNotFound), rides)
      case Some(i) =>
        if rides[i].status != Waiting then (Err(RideNotAvailable), rides)
        else
          var r := rides[i].(driverId := driverId, status := Accepted);
          (Ok(r), rides[i := r])
  }

  /** Overwrite the status of the first ride with this id, whatever it was. */
  function SetStatus(rides: seq<Ride>, rideId: Option<int>, s: Status)
    : (out: (Result<Ride, Error>, seq<Ride>))
    ensures out.0.Err? <==> rideId.None? || NoRideWithId(rides, rideId.value)
    ensures out.0.Err? ==> out.0.error == RideNotFound && out.1 == rides
    ensures out.0.Ok? ==> |out.1| == |rides| && out.0.value.status == s
  {
    match rideId
    case None => (Err(RideNotFound), rides)
    case Some(id) =>
      match FindRide(rides, id)
      case None => (Err(RideNotFound), rides)
      case Some(i) =>
        var r := rides[i].(status := s);
        (Ok(r), rides[i := r])
  }

  /** start_ride. */
  function StartRide(rides: seq<Ride>, rideId: Option<int>): (out: (Result<Ride, Error>, seq<Ride>))
    ensures out.0.Err? <==> rideId.None? || NoRideWithId(rides, rideId.value)
    ensures out.0.Err? ==> out.0.error == RideNotFound && out.1 == rides
    ensures out.0.Ok? ==> |out.1| == |rides| && out.0.value.status == Started
  {
    SetStatus(rides, rideId, Started)
  }

  /** complete_ride. */
  function CompleteRide(rides: seq<Ride>, rideId: Option<int>): (out: (Result<Ride, Error>, seq<Ride>))
    ensures out.0.Err? <==> rideId.None? || NoRideWithId(rides, rideId.value)
    ensures out.0.Err? ==> out.0.error == RideNotFound && out.1 == rides
    ensures out.0.Ok? ==> |out.1| == |rides| && out.0.value.status == Completed
  {
    SetStatus(rides, rideId, Completed)
  }

  /** The two lists ride_history answers with. */
  datatype History = History(asRider: seq<Ride>, asDriver: seq<Ride>)

  /** The rides a user took part in, as rider and as driver, each in storage order. */
  function RideHistory(rides: seq<Ride>, u: int): (h: History)
    ensures forall x :: x in h.asRider <==> x in rides && x.riderId == u
    ensures forall x :: x in h.asDriver <==> x in rides && x.driverId == Some(u)
  {
    History(Filter(rides, (r: Ride) => r.riderId == u),
            Filter(rides, (r: Ride) => r.driverId == Some(u)))
  }

  // ---------- Properties ----------

  /** The waiting list keeps storage order: it distributes over concatenation. */
  lemma AvailableConcat(a: seq<Ride>, b: seq<Ride>)
    ensures Available(a + b) == Available(a) + Available(b)
  {
    FilterConcat(a, b, IsWaiting);
  }

  /** Both history lists keep storage order: they distribute over concatenation. */
  lemma HistoryConcat(a: seq<Ride>, b: seq<Ride>, u: int)
    ensures RideHistory(a + b, u).asRider == RideHistory(a, u).asRider + RideHistory(b, u).asRider
    ensures RideHistory(a + b, u).asDriver == RideHistory(a, u).asDriver + RideHistory(b, u).asDriver
  {
    FilterConcat(a, b, (r: Ride) => r.riderId == u);
    FilterConcat(a, b, (r: Ride) => r.driverId == Some(u));
  }

  /** In a numbered store the ride with id `k` is the one at position `k - 1`. */
  lemma FindRideNumbered(rides: seq<Ride>, id: int)
    requires Numbered(rides)
    ensures FindRide(rides, id) == if 1 <= id <= |rides| then Some(id - 1) else None
  {
    if 1 <= id <= |rides| {
      assert rides[id - 1].id == id;
    }
  }

  /** Once the scan has reached the ride with the requested id, acceptance
      fails if that ride is not waiting and otherwise changes only that ride,
      setting its driver and the status `Accepted`. */
  lemma AcceptAt(rides: seq<Ride>, driverId: Option<int>, rideId: Option<int>, i: nat)
    requires Truthy(driverId) && Truthy(rideId)
    requires FirstWithId(rides, rideId.value, i)
    ensures rides[i].status != Waiting ==> Accept(rides, driverId, rideId) == (Err(RideNotAvailable), rides)
    ensures rides[i].status == Waiting ==>
      var r := rides[i].(driverId := driverId, status := Accepted);
      Accept(rides, driverId, rideId) == (Ok(r), rides[i := r])
  {
  }

  /** Overwriting a status changes only the first ride with that id, and only its status. */
  lemma SetStatusAt(rides: seq<Ride>, id: int, s: Status, i: nat)
    requires FirstWithId(rides, id, i)
    ensures SetStatus(rides, Some(id), s) == (Ok(rides[i].(status := s)), rides[i := rides[i].(status := s)])
  {
  }

  /** Splitting the waiting list around one position. */
  lemma AvailableAround(s: seq<Ride>, i: nat)
    requires i < |s|
    ensures Available(s) == Available(s[..i]) + (if IsWaiting(s[i]) then [s[i]] else []) + Available(s[i + 1..])
  {
    assert s == s[..i] + [s[i]] + s[i + 1..];
    AvailableConcat(s[..i] + [s[i]], s[i + 1..]);
    AvailableConcat(s[..i], [s[i]]);
    FilterSingleton(s[i], IsWaiting);
  }

  /** Replacing a ride by one that is not waiting leaves the waiting list of
      the rides before it and after it. */
  lemma AvailableAfterUpdate(s: seq<Ride>, i: nat, r: Ride)
    requires i < |s| && !IsWaiting(r)
    ensures Available(s[i := r]) == Available(s[..i]) + Available(s[i + 1..])
  {
    var t := s[i := r];
    AvailableAround(t, i);
    assert t[..i] == s[..i];
    assert t[i + 1..] == s[i + 1..];
  }

  /** A successful acceptance removes exactly the accepted ride from the waiting
      list and leaves the rest of it, in order. */
  lemma AcceptLeavesAvailable(rides: seq<Ride>, driverId: Option<int>, rideId: Option<int>)
    requires Numbered(rides)
    requires Accept(rides, driverId, rideId).0.Ok?
    ensures 1 <= rideId.value <= |rides|
    ensures var i := rideId.value - 1;
      && Available(rides) == Available(rides[..i]) + [rides[i]] + Available(rides[i + 1..])
      && Available(Accept(rides, driverId, rideId).1) == Available(rides[..i]) + Available(rides[i + 1..])
    ensures forall x :: x in Available(Accept(rides, driverId, rideId).1) ==> x.id != rideId.value
  {
    FindRideNumbered(rides, rideId.value);
    var i := rideId.value - 1;
    var r := rides[i].(driverId := driverId, status := Accepted);
    var next := rides[i := r];
    assert Accept(rides, driverId, rideId).1 == next;
    AvailableAround(rides, i);
    AvailableAfterUpdate(rides, i, r);
    forall x | x in Available(next) ensures x.id != rideId.value {
      var j :| 0 <= j < |next| && next[j] == x;
      assert j != i;
    }
  }

  /** A request keeps the store numbered and consistent, and only appends. */
  lemma RequestRidePreserves(rides: seq<Ride>, riderId: Option<int>, origin: Option<Place>,
                             destination: Option<Place>, now: Time)
    requires Numbered(rides) && DriverInv(rides)
    ensures var next := RequestRide(rides, riderId, origin, destination, now).1;
      Numbered(next) && DriverInv(next) && Evolves(rides, next)
  {
  }

  /** An acceptance keeps the store numbered and consistent; existing drivers
      are never overwritten and no ride goes back to waiting. */
  lemma AcceptPreserves(rides: seq<Ride>, driverId: Option<int>, rideId: Option<int>)
    requires Numbered(rides) && DriverInv(rides)
    ensures var next := Accept(rides, driverId, rideId).1;
      Numbered(next) && DriverInv(next) && Evolves(rides, next)
  {
  }

  /** A driver is assigned at most once: acceptance succeeds only on a ride that
      had no driver, and the ride it answers with is that driver's. */
  lemma AcceptAssignsOnce(rides: seq<Ride>, driverId: Option<int>, rideId: Option<int>)
    requires DriverInv(rides)
    requires Accept(rides, driverId, rideId).0.Ok?
    ensures var i := FindRide(rides, rideId.value).value;
      && rides[i].driverId == None
      && Accept(rides, driverId, rideId).0.value == rides[i].(driverId := driverId, status := Accepted)
  {
  }

  /** Start and complete keep the store numbered and consistent, for any
      status other than `Waiting` (the code never writes `Waiting` back). */
  lemma SetStatusPreserves(rides: seq<Ride>, rideId: Option<int>, s: Status)
    requires Numbered(rides) && DriverInv(rides)
    requires s != Waiting
    ensures var next := SetStatus(rides, rideId, s).1;
      Numbered(next) && DriverInv(next) && Evolves(rides, next)
  {
  }

  /** start_ride does not require a driver: a ride without one, for instance
      a waiting ride, can be started, and then has status `Started` and still
      no driver. */
  lemma StartWithoutDriver(rides: seq<Ride>, id: int, i: nat)
    requires FirstWithId(rides, id, i)
    requires rides[i].driverId == None
    ensures var (res, next) := StartRide(rides, Some(id));
      res.Ok? && next[i].status == Started && next[i].driverId == None
  {
  }
}
