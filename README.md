# Ride-hailing coordination store, modelled in Dafny

This project models the core of a small ride-hailing API (`app.py`). The
process keeps three in-memory stores:

- the **user registry** (`USERS`): an append-only list; a new user gets id
  `len(USERS) + 1`; registration is refused when the name is missing or empty;
- the **ride store** (`RIDES`): an append-only list of rides. A request
  creates a `waiting` ride with no driver. `accept_ride` is the only guarded
  transition (`waiting → accepted`, setting the driver). `start_ride` and
  `complete_ride` overwrite the status of the first ride with the id,
  whatever it was. `available_rides` and `ride_history` are filters over the list;
- the **driver location tracker** (`DRIVER_LOC`): a map from driver id to the
  last reported position, overwritten on every report. The lookup for a ride
  answers with the position, "no location yet" or "ride not found or no driver".

Layout:

- `wrappers.dfy`: `Option` and `Result`.
- `lists.dfy`: the two list shapes the endpoints use. `FirstIndex` is the
  scan that stops at its first match. `Filter` is the list comprehension,
  with its membership and order lemmas.
- `domain.dfy`: users, rides, locations, the error answers, and the Python
  truthiness tests applied to request fields. `Truthy` means an integer
  that is present and non-zero. `NonEmpty` means a string that is present
  and not empty.
- `registry.dfy`, `ride_store.dfy`, `tracker.dfy`: each store's endpoints as pure
  functions of the store and the request fields. A function for a
  state-changing endpoint returns the answer and the new store. The
  read-only ones (`Available`, `RideHistory`, `LocateForRide`) return only
  the answer. The lemmas beside them state what the source promises.
- `server.dfy`: class `App`, with the three stores as fields `users`,
  `rides` and `driverLoc`. There is one method per state-changing endpoint.
  The scans in `accept_ride`, `start_ride`/`complete_ride` and
  `get_driver_location` are `while` loops. Each method is proved to give
  the answer and new state of the matching store function. Each also keeps
  the object invariant `Valid()`: users and rides sit at the position their
  id names, and no ride with a driver is waiting.
  The read-only endpoints `available_rides` and `ride_history` are the
  functions `App.AvailableRides` and `App.RideHistory`. They delegate to
  `RideStore.Available` and `RideStore.RideHistory`, whose contracts are
  listed below. `Walkthrough` runs one session on a fresh `App` using only
  the method contracts: Alice registers (id 1) and Bob registers as a
  driver (id 2); Alice requests ride 1, which is waiting; Bob accepts it;
  a second accept is refused; Bob reports (10, 20); the lookup for ride 1
  answers with that report.

Request bodies are modelled field by field as `Option` values. `None`
stands for a field that is absent or JSON `null`, and also for an empty
body (`request.json or {}`). Ids are `int`. Coordinates are plain
integers (`Coord`) that no operation inspects; integers let a session use
literal values. Timestamps are a `Time` value the caller passes in as `now`.

Points where the code's behaviour is easy to misread, and which the model
follows as written:

- One might expect a ride to have a driver exactly when its status is
  accepted, started or completed. The code lets `start_ride` (and
  `complete_ride`) move a waiting ride that has no driver. Only one
  direction is proved: a ride with a driver is never waiting. The other
  direction fails, as `RideStore.StartWithoutDriver` shows.
- Acceptance refuses a missing `driver_id` or `ride_id` by Python
  truthiness, so the value 0 is refused as well.
- A location report checks the coordinates with `is not None`, so a
  coordinate of 0 is accepted. The driver id, by contrast, must be truthy.
- The lookup scan stops at the first ride that has the requested id and a
  truthy driver. It does not stop at the first ride that merely has the
  id. Ids are unique, so the two scans agree, and `Tracker.LocateNumbered`
  states the lookup in that form.

## Model

| member | source | states |
|---|---|---|
| `Lists.FirstIndex` | app.py:75-82 | the scan's stopping point: a position whose element matches and no earlier element matches; "none" exactly when no element matches |
| `Lists.Filter` | app.py:66 | a comprehension keeps exactly the elements satisfying the condition, never more elements than the input |
| `Lists.FilterConcat` | app.py:106-107 | comprehensions keep storage order: filtering `a + b` is filtering `a` followed by filtering `b` |
| `Registry.Register` | app.py:26-36 | an error exactly when the name is missing or empty, with the registry unchanged; otherwise exactly one user appended with the given name, phone and driver flag, id old length + 1, that id returned, and earlier users untouched |
| `Registry.NewUserId` | app.py:14-15 | the next user id exceeds the number of registered users and is truthy, so it passes the rider_id and driver_id checks |
| `Registry.NewUserIdFresh` | app.py:14-15 | the next user id is larger than every id already handed out |
| `Registry.NumberedIdsIncrease` | app.py:34-35 | user ids are strictly increasing in registration order, hence unique |
| `Registry.RegisterKeepsNumbered` | app.py:32-35 | after any registration call, user `i` still has id `i + 1` |
| `Registry.SuccessiveIdsIncrease` | app.py:34-36 | two successful registrations in a row return strictly increasing ids |
| `RideStore.NewRideId` | app.py:17-18 | the next ride id exceeds the number of stored rides and is truthy, so accept_ride can name the ride by it |
| `RideStore.FindRide` | app.py:75-76 | the ride lookup stops at the first ride with the id, and finds nothing exactly when no ride has it |
| `RideStore.FindRideNumbered` | app.py:17-18 | in a store built by requests, the ride with id `k` is at position `k - 1`, and ids outside `1..len` are not found |
| `RideStore.RequestRide` | app.py:42-62 | an error exactly when rider_id, origin or destination is missing or falsy, with the store unchanged; otherwise exactly one ride appended with id old length + 1, the given rider and places, status waiting, no driver and the creation time, and earlier rides untouched |
| `RideStore.RequestRidePreserves` | app.py:50-61 | a request keeps rides numbered, keeps every ride with a driver out of waiting, and only appends |
| `RideStore.Available` | app.py:64-66 | the waiting list holds exactly the stored rides whose status is waiting |
| `RideStore.AvailableConcat` | app.py:66 | the waiting list is in storage order |
| `RideStore.AvailableAround` | app.py:66 | the waiting list splits around any position into the part before it, that ride if it is waiting, and the part after it |
| `RideStore.AvailableAfterUpdate` | app.py:79-80 | replacing a ride by one that is not waiting leaves the waiting lists of the rides before and after it, in order |
| `RideStore.Accept` | app.py:68-82 | a missing or falsy driver_id or ride_id gives the fields error; an id no ride has gives not-found; every error leaves the store unchanged; success needs both fields and an existing ride |
| `RideStore.AcceptAt` | app.py:75-81 | at the first ride with the id: if it is not waiting, "not available" with the store unchanged; otherwise only that ride changes, getting the driver and status accepted, and that ride is returned |
| `RideStore.AcceptLeavesAvailable` | app.py:75-81 | after a successful accept the accepted ride (id `k`, position `k - 1`) is gone from the waiting list, the rest of the list is unchanged and in order, and no waiting ride has that id |
| `RideStore.AcceptPreserves` | app.py:77-80 | acceptance keeps rides numbered, keeps every ride with a driver out of waiting, never overwrites a driver and never returns a ride to waiting |
| `RideStore.AcceptAssignsOnce` | app.py:77-80 | acceptance succeeds only on a ride that had no driver, so a driver is assigned at most once |
| `RideStore.SetStatus` | app.py:84-102 | not-found exactly when the id is missing or no ride has it, with the store unchanged; otherwise the store keeps its length and the returned ride has the new status |
| `RideStore.StartRide` | app.py:84-92 | not-found exactly when the id is missing or no ride has it, with the store unchanged; otherwise the store keeps its length and the returned ride is started |
| `RideStore.CompleteRide` | app.py:94-102 | not-found exactly when the id is missing or no ride has it, with the store unchanged; otherwise the store keeps its length and the returned ride is completed |
| `RideStore.SetStatusAt` | app.py:88-91 | at the first ride with the id, only that ride changes, and only its status, whatever it was before |
| `RideStore.SetStatusPreserves` | app.py:98-101 | overwriting with started or completed keeps rides numbered, keeps every ride with a driver out of waiting, and never returns a ride to waiting |
| `RideStore.StartWithoutDriver` | app.py:88-91 | start_ride moves a ride that has no driver to started, so "started implies driver set" does not hold |
| `RideStore.RideHistory` | app.py:104-108 | `asRider` holds exactly the stored rides with that rider; `asDriver` holds exactly those with that driver |
| `RideStore.HistoryConcat` | app.py:106-107 | both history lists are in storage order |
| `Tracker.UpdateLocation` | app.py:111-120 | an error exactly when driver_id is missing or falsy or a coordinate is missing, with the map unchanged; otherwise that driver's entry is overwritten with the new report and every other entry is unchanged |
| `Tracker.FindAssigned` | app.py:124-125 | the lookup scan stops at the first ride with the id and a truthy driver, and finds nothing exactly when there is none |
| `Tracker.LocateForRide` | app.py:122-130 | "ride not found or no driver" exactly when no ride has the id together with a driver; a found location is a stored report |
| `Tracker.LocateNumbered` | app.py:124-130 | with numbered rides: an unknown id or a driverless ride gives "not found or no driver"; a driver with no report gives "no location yet"; otherwise the answer is that driver's last report |
| `Tracker.LocateAfterUpdate` | app.py:119-128 | after a driver reports, the lookup for that driver's ride answers with exactly that report |
| `Tracker.LocateOtherDriver` | app.py:119-130 | a report (or refused report) by another driver does not change the lookup for a ride |
| `Server.App.constructor` | app.py:10-12 | the process starts with three empty stores, which satisfy the invariant |
| `Server.App.Register` | app.py:26-36 | the answer and new registry are those of `Registry.Register`; rides and locations are unchanged; the invariant is kept |
| `Server.App.ListUsers` | app.py:38-40 | every registered user, in registration order, user `i` with id `i + 1` |
| `Server.App.RequestRide` | app.py:42-62 | the answer and new ride list are those of `RideStore.RequestRide`; no existing ride changes; users and locations are unchanged; the invariant is kept |
| `Server.App.AvailableRides` | app.py:64-66 | the answer holds exactly the stored rides whose status is waiting |
| `Server.App.AcceptRide` | app.py:68-82 | the loop gives the answer and new ride list of `RideStore.Accept`; rides evolve only as allowed; the invariant is kept |
| `Server.App.OverwriteStatus` | app.py:88-92 | the loop gives the answer and new ride list of `RideStore.SetStatus` |
| `Server.App.StartRide` | app.py:84-92 | the answer and new ride list are those of `RideStore.StartRide`; the invariant is kept |
| `Server.App.CompleteRide` | app.py:94-102 | the answer and new ride list are those of `RideStore.CompleteRide`; the invariant is kept |
| `Server.App.RideHistory` | app.py:104-108 | `asRider` holds exactly the stored rides with that rider; `asDriver` exactly those with that driver |
| `Server.App.UpdateLocation` | app.py:111-120 | the answer and new map are those of `Tracker.UpdateLocation`; users and rides are unchanged |
| `Server.App.GetDriverLocation` | app.py:122-130 | the early-return loop answers exactly `Tracker.LocateForRide` of the current rides and map |
| `Server.Walkthrough` | app.py:26-130 | a session from empty stores: users get ids 1 and 2, ride 1 is waiting with no driver, acceptance by driver 2 sets driver and status, a second acceptance is refused as not available, and after driver 2 reports (10, 20) the lookup for ride 1 answers with that report |

## Left out

- HTTP routing, `request.json` parsing, `jsonify`, status codes, CORS,
  `/ping` and `app.run`. These are I/O wrappers with no logic. The error
  answers are the `Error` values; `RideNotFound` is the one returned with 404.
- The clock (`datetime.utcnow().isoformat()`): the method that stamps a
  record takes the timestamp as the parameter `now`.
- `float(lat)`, `float(lng)` and coordinate contents: coordinates are plain
  integers that no operation inspects, because the values are floating point.
- The `int(...)` coercions and str-versus-int id comparisons: all ids are
  `int`, because these are dynamic-typing effects. For the same reason,
  `bool(data.get("is_driver"))` is a `bool` parameter.
- JSON values other than the modelled ones. Falsy values of other types,
  such as an empty object given as origin, are folded into `None`.
- The `fare` field and the `cancelled` status: no code ever sets them.
- Concurrency around the check-then-set in `accept_ride`. Requests run
  one at a time.
