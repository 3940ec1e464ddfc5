/** Entities shared by every component: drivers, rides, and the driver state machine. */
module Domain {

  datatype Option<+T> = None | Some(value: T)

  predicate Distinct<T(==)>(s: seq<T>) {
    forall i, j :: 0 <= i < j < |s| ==> s[i] != s[j]
  }

  datatype DriverStatus = Idle | Matching | Busy | Offline

  datatype DriverResponse = Accept | Reject

  /** The relation every status change has to follow. */
  predicate CanTransition(from: DriverStatus, to: DriverStatus) {
    match from
    case Offline => to == Idle
    case Idle => to == Matching || to == Offline
    case Matching => to == Busy || to == Idle
    case Busy => to == Idle
  }

  datatype Location = Location(lat: real, lng: real)

  /** A soft reservation; `SetIntent` leaves the expiry at the zero time. */
  datatype MatchIntent = MatchIntent(riderId: string, expiresAt: int)

  datatype Driver = Driver(
    id: string,
    location: Location,
    status: DriverStatus,
    updatedAt: int,
    matchingSince: Option<int>,
    intent: Option<MatchIntent>)

  /** The part of a driver record that matching decides on. */
  datatype Core = Core(status: DriverStatus, matchingSince: Option<int>, intent: Option<MatchIntent>)

  const IDLE_CORE := Core(Idle, None, None)

  function CoreOf(d: Driver): Core {
    Core(d.status, d.matchingSince, d.intent)
  }

  /** A record is coherent when it carries a matching time exactly while Matching,
      and an intent only while Matching. */
  predicate Coherent(c: Core) {
    && (c.matchingSince.Some? <==> c.status == Matching)
    && (c.intent.Some? ==> c.status == Matching)
  }

  datatype RideStatus = Assigned | Ongoing | Completed | Canceled

  datatype Ride = Ride(id: string, riderId: string, driverId: string, status: RideStatus, createdAt: int, updatedAt: int)

  predicate Active(s: RideStatus) {
    s == Assigned || s == Ongoing
  }
}
