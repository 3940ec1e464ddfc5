/** Location ingestion and eviction, run one after the other: the spatial index mirrors what
    the repository holds. */
module Ingestion {
  import opened Domain
  import opened DriverRepository
  import opened SpatialIndex
  import opened H3IndexObject

  /** The repository next to the plain map that the index stands for. */
  datatype Pair = Pair(ds: Drivers, indexed: map<string, Driver>)

  /** Same ids, each snapshot under its own id at the location the repository has. */
  ghost predicate Mirrors(s: Pair) {
    && s.ds.Keys == s.indexed.Keys
    && forall id :: id in s.ds ==>
         && s.ds[id].driver.id == id && s.indexed[id].id == id
         && s.indexed[id].location == s.ds[id].driver.location
  }

  /** What the index always keeps: nothing is indexed at a location without a cell. */
  ghost predicate Located(indexed: map<string, Driver>, g: Geometry) {
    forall id :: id in indexed ==> g.cellOf(indexed[id].location).Some?
  }

  lemma PlacedIsLocated(x: Index, g: Geometry)
    requires Inverse(x) && Placed(x, g)
    ensures Located(Contents(x), g)
  {
  }

  function AfterUpdate(s: Pair, id: string, location: Location, now: int, later: int, g: Geometry): Pair {
    var d := LocationReport(s.ds, id, location, now);
    if UpsertAccepts(s.ds, d, later) then Pair(Upserted(s.ds, d, later), MapStep(s.indexed, DoUpdate(d), g)) else s
  }

  function ExpiredIds(ds: Drivers, ttl: int, now: int): set<string> {
    set id | id in ds && IsExpired(ds[id], ttl, now)
  }

  function AfterEviction(s: Pair, ttl: int, now: int): Pair {
    Pair(s.ds - ExpiredIds(s.ds, ttl, now), s.indexed - ExpiredIds(s.ds, ttl, now))
  }

  /** A location update keeps ids and locations the same exactly when the location has a cell or the
      repository drops the packet: a location without a cell is stored but silently not indexed. */
  lemma UpdateMirrorsIffLocated(s: Pair, id: string, location: Location, now: int, later: int, g: Geometry)
    requires Mirrors(s) && Located(s.indexed, g)
    ensures Mirrors(AfterUpdate(s, id, location, now, later, g))
            <==> g.cellOf(location).Some? || !UpsertAccepts(s.ds, LocationReport(s.ds, id, location, now), later)
    ensures Located(AfterUpdate(s, id, location, now, later, g).indexed, g)
  {
    var s' := AfterUpdate(s, id, location, now, later, g);
    if g.cellOf(location).None? && UpsertAccepts(s.ds, LocationReport(s.ds, id, location, now), later) {
      assert id in s'.ds && s'.ds[id].driver.location == location;
      assert s'.indexed == s.indexed;
    }
  }

  lemma EvictionMirrors(s: Pair, ttl: int, now: int, g: Geometry)
    requires Mirrors(s) && Located(s.indexed, g)
    ensures Mirrors(AfterEviction(s, ttl, now)) && Located(AfterEviction(s, ttl, now).indexed, g)
    ensures forall id :: id in AfterEviction(s, ttl, now).ds <==> id in s.ds && now - s.ds[id].lastSeenAt <= ttl
  {
  }

  datatype Job = ReportJob(id: string, location: Location, now: int, later: int) | EvictJob(ttl: int, at: int)

  function Worked(s: Pair, jobs: seq<Job>, g: Geometry): Pair
    decreases |jobs|
  {
    if jobs == [] then s else
    var next := match jobs[0]
                case ReportJob(id, location, now, later) => AfterUpdate(s, id, location, now, later, g)
                case EvictJob(ttl, at) => AfterEviction(s, ttl, at);
    Worked(next, jobs[1..], g)
  }

  /** Any sequential run of updates with locatable positions and evictions keeps the mirror. */
  lemma {:induction false} RunMirrors(s: Pair, jobs: seq<Job>, g: Geometry)
    requires Mirrors(s) && Located(s.indexed, g)
    requires forall i :: 0 <= i < |jobs| && jobs[i].ReportJob? ==> g.cellOf(jobs[i].location).Some?
    ensures Mirrors(Worked(s, jobs, g)) && Located(Worked(s, jobs, g).indexed, g)
    decreases |jobs|
  {
    if jobs == [] {
    } else {
      match jobs[0] {
        case ReportJob(id, location, now, later) =>
          UpdateMirrorsIffLocated(s, id, location, now, later, g);
          RunMirrors(AfterUpdate(s, id, location, now, later, g), jobs[1..], g);
        case EvictJob(ttl, at) =>
          EvictionMirrors(s, ttl, at, g);
          RunMirrors(AfterEviction(s, ttl, at), jobs[1..], g);
      }
    }
  }

  /** Under the mirror the two maps of the index file exactly the repository's drivers, each in the cell
      of the location that the repository has. */
  lemma MirroredCells(x: Index, ds: Drivers, g: Geometry, id: string)
    requires Inverse(x) && Placed(x, g) && Mirrors(Pair(ds, Contents(x)))
    ensures id in ds <==> id in x.homes
    ensures id in ds ==> g.cellOf(ds[id].driver.location) == Some(x.homes[id])
                         && x.cells[x.homes[id]][id].location == ds[id].driver.location
  {
    assert id in Contents(x) <==> id in x.homes;
  }

  /** `m'` is `m` without exactly the drivers that the repository has not seen for longer than `ttl`. */
  ghost predicate KeepsSeen<T(!new)>(ds: Drivers, m: map<string, T>, m': map<string, T>, ttl: int, now: int) {
    forall id :: (id in m' <==> id in m && (id in ds ==> now - ds[id].lastSeenAt <= ttl)) && (id in m' ==> m'[id] == m[id])
  }

  lemma EvictionKeepsSeen(s: Pair, ttl: int, now: int)
    ensures KeepsSeen(s.ds, s.ds, AfterEviction(s, ttl, now).ds, ttl, now)
    ensures KeepsSeen(s.ds, s.indexed, AfterEviction(s, ttl, now).indexed, ttl, now)
  {
  }

  lemma WithoutOneMore<T>(m: map<string, T>, gone: set<string>, id: string)
    ensures (m - gone) - {id} == m - (gone + {id})
  {
  }

  ghost predicate OthersUntouched(ds: Drivers, ds': Drivers, id: string) {
    forall x :: x != id ==> (x in ds' <==> x in ds) && (x in ds ==> ds'[x] == ds[x])
  }

  class DriverIngestionService {
    const repo: InMemoryDriverRepository
    const index: H3Index

    constructor (repo: InMemoryDriverRepository, index: H3Index)
      ensures this.repo == repo && this.index == index
    {
      this.repo := repo;
      this.index := index;
    }

    /** `now` is read before the record is fetched, `later` inside the repository. */
    method UpdateLocation(driverID: string, location: Location, now: int, later: int)
      requires index.Valid()
      modifies repo, index
      ensures index.Valid()
      ensures Pair(repo.drivers, Contents(index.Value())) ==
              AfterUpdate(Pair(old(repo.drivers), old(Contents(index.Value()))), driverID, location, now, later, index.geo)
      ensures (driverID in old(repo.drivers) ==> old(repo.drivers)[driverID].driver.id == driverID) ==>
                var ds, indexed := old(repo.drivers), old(Contents(index.Value()));
                var late := driverID in ds && ds[driverID].driver.updatedAt > now;
                if late || now > later + 2_000_000_000 then repo.drivers == ds && Contents(index.Value()) == indexed
                else
                  && driverID in repo.drivers && OthersUntouched(ds, repo.drivers, driverID)
                  && var e := repo.drivers[driverID];
                     && e.driver.location == location && e.driver.updatedAt == now && e.lastSeenAt == later
                     && CoreOf(e.driver) == (if driverID in ds then CoreOf(ds[driverID].driver) else Core(Idle, None, None))
                     && Contents(index.Value()) == if index.geo.cellOf(location).Some? then indexed[driverID := e.driver] else indexed
    {
      var found := repo.Get(driverID);
      var driver := if found.Some? then found.value else Driver(driverID, location, Idle, now, None, None);
      driver := driver.(location := location);
      driver := driver.(updatedAt := now);
      var accepted := repo.Upsert(driver, later);
      if !accepted {
        return;
      }
      index.Update(driver);
    }
  }

  class TTLEvictionService {
    const repo: InMemoryDriverRepository
    const index: H3Index
    const ttl: int

    constructor (repo: InMemoryDriverRepository, index: H3Index, ttl: int)
      ensures this.repo == repo && this.index == index && this.ttl == ttl
    {
      this.repo := repo;
      this.index := index;
      this.ttl := ttl;
    }

    method RunOnce(now: int)
      requires index.Valid()
      modifies repo, index
      ensures index.Valid()
      ensures Pair(repo.drivers, Contents(index.Value())) ==
              AfterEviction(Pair(old(repo.drivers), old(Contents(index.Value()))), ttl, now)
      ensures KeepsSeen(old(repo.drivers), old(repo.drivers), repo.drivers, ttl, now)
      ensures KeepsSeen(old(repo.drivers), old(Contents(index.Value())), Contents(index.Value()), ttl, now)
    {
      var expired := repo.Expired(ttl, now);
      ghost var ds, indexed, gone := repo.drivers, Contents(index.Value()), {};
      for i := 0 to |expired|
        invariant index.Valid()
        invariant forall id :: id in gone <==> id in expired[..i]
        invariant repo.drivers == ds - gone && Contents(index.Value()) == indexed - gone
      {
        assert expired[..i + 1] == expired[..i] + [expired[i]];
        WithoutOneMore(ds, gone, expired[i]);
        WithoutOneMore(indexed, gone, expired[i]);
        repo.Delete(expired[i]);
        index.Remove(expired[i]);
        gone := gone + {expired[i]};
      }
      assert expired[..|expired|] == expired;
      assert gone == ExpiredIds(ds, ttl, now);
      EvictionKeepsSeen(Pair(ds, indexed), ttl, now);
    }
  }
}
