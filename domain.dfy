/** The records kept by the three stores, the errors the endpoints report, and
    the truthiness tests the handlers apply to request fields. */
module Domain {
  import opened Wrappers

  /** An ISO-8601 UTC timestamp, taken from the clock by the caller and stored as is. */
  type Time = string

  /** A coordinate. The source stores JSON numbers (floats); here they are plain
      integers, which no operation inspects, so that example sessions can use literals. */
  type Coord = int

  /** A pick-up or drop-off point: a JSON object with `lat` and `lng`. */
  datatype Place = Place(lat: Coord, lng: Coord)

  /** A registered participant. Never changed or removed once appended. */
  datatype User = User(id: int, name: string, phone: Option<string>, isDriver: bool)

  /** The statuses the code assigns to a ride. */
  datatype Status = Waiting | Accepted | Started | Completed

  /** A ride record. `driverId` is `None` until a driver accepts the ride. */
  datatype Ride = Ride(
    id: int,
    riderId: int,
    driverId: Option<int>,
    origin: Place,
    destination: Place,
    status: Status,
    createdAt: Time)

  /** The last position a driver reported. */
  datatype Location = Location(lat: Coord, lng: Coord, updatedAt: Time)

  /** The error answers. `RideNotFound` is answered with HTTP 404, all the others with 400. */
  datatype Error =
    | NameRequired            // "name required"
    | RideFieldsRequired      // "rider_id, origin and destination required"
    | AcceptFieldsRequired    // "driver_id and ride_id required"
    | RideNotAvailable        // "ride not available"
    | RideNotFound            // "ride not found"
    | LocationFieldsRequired  // "driver_id, lat, lng required"

  /** Python truthiness of an integer field: present, not null and not zero. */
  predicate Truthy(x: Option<int>) {
    x.Some? && x.value != 0
  }

  /** Python truthiness of a string field: present, not null and not empty. */
  predicate NonEmpty(s: Option<string>) {
    s.Some? && |s.value| > 0
  }
}
