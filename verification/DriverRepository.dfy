/** The in-memory driver repository: the driver-side gate of matching and the
    timestamp discipline of ingestion. Clock readings are parameters, in nanoseconds. */
module DriverRepository {
  import opened Domain

  datatype Entry = Entry(driver: Driver, lastSeenAt: int)

  type Drivers = map<string, Entry>

  const MAX_SKEW := 2_000_000_000

  // ---- what each method computes, as functions of the map ----

  /** Late packets and packets too far in the future are dropped. */
  predicate UpsertAccepts(ds: Drivers, incoming: Driver, now: int) {
    && !(incoming.id in ds && incoming.updatedAt < ds[incoming.id].driver.updatedAt)
    && !(incoming.updatedAt > now + MAX_SKEW)
  }

  function Upserted(ds: Drivers, incoming: Driver, now: int): Drivers {
    if UpsertAccepts(ds, incoming, now) then ds[incoming.id := Entry(incoming, now)] else ds
  }

  predicate TransitionAllowed(ds: Drivers, id: string, to: DriverStatus) {
    id in ds && CanTransition(ds[id].driver.status, to)
  }

  /** The status change with its side effects; the clock is read twice. */
  function Moved(d: Driver, to: DriverStatus, now: int, later: int): Driver {
    var d1 := match to
              case Matching => d.(matchingSince := Some(now))
              case Busy => d.(matchingSince := None, intent := None)
              case Idle => d.(matchingSince := None, intent := None)
              case Offline => d;
    d1.(status := to, updatedAt := later)
  }

  function Transitioned(ds: Drivers, id: string, to: DriverStatus, now: int, later: int): Drivers {
    if TransitionAllowed(ds, id, to) then ds[id := ds[id].(driver := Moved(ds[id].driver, to, now, later))] else ds
  }

  predicate IntentAllowed(ds: Drivers, id: string) {
    id in ds && ds[id].driver.status == Matching
  }

  function IntentSet(ds: Drivers, id: string, rider: string, now: int): Drivers {
    if IntentAllowed(ds, id) then
      ds[id := ds[id].(driver := ds[id].driver.(intent := Some(MatchIntent(rider, 0)), updatedAt := now))]
    else ds
  }

  function IntentCleared(ds: Drivers, id: string, now: int): Drivers {
    if id in ds then ds[id := ds[id].(driver := ds[id].driver.(intent := None, updatedAt := now))] else ds
  }

  /** The record a location update sends to `Upsert`: what `Get` returned, or a new Idle driver,
      with the new location and the time read before the `Get`. */
  function LocationReport(ds: Drivers, id: string, location: Location, at: int): Driver {
    var found := if id in ds then ds[id].driver else Driver(id, location, Idle, at, None, None);
    found.(location := location, updatedAt := at)
  }

  predicate IsExpired(e: Entry, ttl: int, now: int) {
    now - e.lastSeenAt > ttl
  }

  /** Of all that is stored, only the driver part of the entry of `id` may differ. */
  predicate OnlyDriverChanged(ds: Drivers, ds': Drivers, id: string) {
    && ds'.Keys == ds.Keys && (forall x :: x in ds && x != id ==> ds'[x] == ds[x])
    && (id in ds ==> ds'[id].lastSeenAt == ds[id].lastSeenAt)
  }

  datatype RepoError = DriverNotFound | InvalidTransition | NotMatching

  class InMemoryDriverRepository {
    var drivers: Drivers

    constructor ()
      ensures drivers == map[]
    {
      drivers := map[];
    }

    method Upsert(incoming: Driver, now: int) returns (accepted: bool)
      modifies this
      ensures accepted == UpsertAccepts(old(drivers), incoming, now)
      ensures drivers == Upserted(old(drivers), incoming, now)
      ensures accepted <==> (incoming.id in old(drivers) ==> old(drivers)[incoming.id].driver.updatedAt <= incoming.updatedAt)
                            && incoming.updatedAt <= now + 2_000_000_000
      ensures drivers == if accepted then old(drivers)[incoming.id := Entry(incoming, now)] else old(drivers)
    {
      if incoming.id in drivers && incoming.updatedAt < drivers[incoming.id].driver.updatedAt {
        return false;
      }
      if incoming.updatedAt > now + MAX_SKEW {
        return false;
      }
      drivers := drivers[incoming.id := Entry(incoming, now)];
      return true;
    }

    method Get(id: string) returns (d: Option<Driver>)
      ensures d == if id in drivers then Some(drivers[id].driver) else None
    {
      if id in drivers {
        return Some(drivers[id].driver);
      }
      return None;
    }

    method Delete(id: string)
      modifies this
      ensures drivers == old(drivers) - {id}
    {
      drivers := drivers - {id};
    }

    /** The ids silent for longer than `ttl`, each once; the map's order is unspecified. */
    method Expired(ttl: int, now: int) returns (expired: seq<string>)
      ensures Distinct(expired)
      ensures forall id :: id in expired <==> id in drivers && now - drivers[id].lastSeenAt > ttl
    {
      expired := [];
      var todo := drivers.Keys;
      while todo != {}
        invariant todo <= drivers.Keys
        invariant Distinct(expired)
        invariant forall id :: id in expired <==> id in drivers && id !in todo && IsExpired(drivers[id], ttl, now)
      {
        var id :| id in todo;
        if now - drivers[id].lastSeenAt > ttl {
          expired := expired + [id];
        }
        todo := todo - {id};
      }
    }

    method TransitionStatus(id: string, to: DriverStatus, now: int, later: int) returns (err: Option<RepoError>)
      modifies this
      ensures err.None? <==> TransitionAllowed(old(drivers), id, to)
      ensures err == Some(DriverNotFound) <==> id !in old(drivers)
      ensures drivers == Transitioned(old(drivers), id, to, now, later)
      ensures id !in old(drivers) ==> err.Some?
      ensures id in old(drivers) ==>
                (err.None? <==> (old(drivers)[id].driver.status, to)
                                in {(Offline, Idle), (Idle, Matching), (Idle, Offline), (Matching, Busy), (Matching, Idle), (Busy, Idle)})
      ensures err.Some? ==> drivers == old(drivers)
      ensures err.None? ==>
                && OnlyDriverChanged(old(drivers), drivers, id)
                && var d, d' := old(drivers)[id].driver, drivers[id].driver;
                   d' == Driver(d.id, d.location, to, later,
                                if to == Matching then Some(now) else if to == Offline then d.matchingSince else None,
                                if to == Busy || to == Idle then None else d.intent)
    {
      if id !in drivers {
        return Some(DriverNotFound);
      }
      var entry := drivers[id];
      if !CanTransition(entry.driver.status, to) {
        return Some(InvalidTransition);
      }
      var d := entry.driver;
      match to {
        case Matching =>
          d := d.(matchingSince := Some(now));
        case Busy =>
          d := d.(matchingSince := None);
          d := d.(intent := None);
        case Idle =>
          d := d.(matchingSince := None);
          d := d.(intent := None);
        case Offline =>
      }
      d := d.(status := to);
      d := d.(updatedAt := later);
      drivers := drivers[id := entry.(driver := d)];
      return None;
    }

    method SetIntent(id: string, rider: string, now: int) returns (err: Option<RepoError>)
      modifies this
      ensures err.None? <==> IntentAllowed(old(drivers), id)
      ensures err == Some(DriverNotFound) <==> id !in old(drivers)
      ensures drivers == IntentSet(old(drivers), id, rider, now)
      ensures err.None? <==> id in old(drivers) && old(drivers)[id].driver.status == Matching
      ensures err.Some? ==> drivers == old(drivers)
      ensures err.None? ==>
                && OnlyDriverChanged(old(drivers), drivers, id)
                && drivers[id].driver == old(drivers)[id].driver.(intent := Some(MatchIntent(rider, 0)), updatedAt := now)
    {
      if id !in drivers {
        return Some(DriverNotFound);
      }
      var entry := drivers[id];
      if entry.driver.status != Matching {
        return Some(NotMatching);
      }
      drivers := drivers[id := entry.(driver := entry.driver.(intent := Some(MatchIntent(rider, 0)), updatedAt := now))];
      return None;
    }

    method ClearIntent(id: string, now: int)
      modifies this
      ensures drivers == IntentCleared(old(drivers), id, now)
      ensures id !in old(drivers) ==> drivers == old(drivers)
      ensures id in old(drivers) ==>
                && OnlyDriverChanged(old(drivers), drivers, id)
                && drivers[id].driver == old(drivers)[id].driver.(intent := None, updatedAt := now)
    {
      if id !in drivers {
        return;
      }
      var entry := drivers[id];
      drivers := drivers[id := entry.(driver := entry.driver.(intent := None, updatedAt := now))];
    }
  }
}
