/** The in-memory ride repository: durable, exactly-once ride creation per rider. */
module RideRepository {
  import opened Domain

  /** Keyed by rider id. */
  type Rides = map<string, Ride>

  predicate HasActive(rs: Rides, rider: string) {
    rider in rs && Active(rs[rider].status)
  }

  function NewRide(rideId: string, rider: string, driver: string, now: int): Ride {
    Ride(rideId, rider, driver, Assigned, now, now)
  }

  function CreatedIfAbsent(rs: Rides, rider: string, driver: string, rideId: string, now: int): Rides {
    if HasActive(rs, rider) then rs else rs[rider := NewRide(rideId, rider, driver, now)]
  }

  /** No driver is booked twice. */
  predicate OneDriverEach(rs: Rides) {
    forall r1, r2 :: r1 in rs && r2 in rs && rs[r1].driverId == rs[r2].driverId ==> r1 == r2
  }

  datatype Lookup = Cancelled | NoActiveRide | ActiveRide(ride: Ride)

  class MemoryRepo {
    var rides: Rides

    constructor ()
      ensures rides == map[]
    {
      rides := map[];
    }

    /** `cancelled` is the state of the caller's context. */
    method CreateIfAbsent(cancelled: bool, rider: string, driver: string, rideId: string, now: int)
      returns (ride: Option<Ride>, created: bool)
      modifies this
      ensures cancelled ==> ride == None && !created && rides == old(rides)
      ensures !cancelled ==> created == !HasActive(old(rides), rider)
      ensures !cancelled ==> rides == CreatedIfAbsent(old(rides), rider, driver, rideId, now)
      ensures !cancelled ==> rider in rides && ride == Some(rides[rider]) && Active(rides[rider].status)
      ensures !cancelled ==>
                var booked := rider in old(rides) && (old(rides)[rider].status == Assigned || old(rides)[rider].status == Ongoing);
                && (created <==> !booked)
                && rides == if booked then old(rides) else old(rides)[rider := Ride(rideId, rider, driver, Assigned, now, now)]
    {
      if cancelled {
        return None, false;
      }
      if rider in rides {
        var r := rides[rider];
        if r.status == Assigned || r.status == Ongoing {
          return Some(r), false;
        }
      }
      var r := Ride(rideId, rider, driver, Assigned, now, now);
      rides := rides[rider := r];
      return Some(r), true;
    }

    method GetActiveByRider(cancelled: bool, rider: string) returns (found: Lookup)
      ensures found == if cancelled then Cancelled else if rider in rides && (rides[rider].status == Assigned || rides[rider].status == Ongoing) then ActiveRide(rides[rider])
                       else NoActiveRide
    {
      if cancelled {
        return Cancelled;
      }
      if rider !in rides {
        return NoActiveRide;
      }
      var r := rides[rider];
      if r.status != Assigned && r.status != Ongoing {
        return NoActiveRide;
      }
      return ActiveRide(r);
    }
  }
}
