/** The matching service as an object over the stores. Its two operations are proved to be
    the solo runs of the step system, so what `Protocol` splits into atomic steps is what
    the code does; the environment's contribution to each atomic step is a parameter. */
module MatchService {
  import opened Domain
  import opened DriverRepository
  import opened OfferGroups
  import opened RideRepository
  import opened Dispatcher
  import opened SpatialIndex
  import opened H3IndexObject
  import opened Protocol
  import opened ProtocolOwnership
  import opened SoloRuns

  datatype MatchRequest = MatchRequest(riderId: string, lat: real, lng: real, k: int, maxDist: real)

  datatype Candidate = Candidate(driverId: string, distance: real)

  datatype MatchError = NoCellForRider | NoDriversAvailable | GroupNotCreated

  predicate Nearer(cs: seq<Candidate>) {
    forall i, j :: 0 <= i < j < |cs| ==> cs[i].distance <= cs[j].distance
  }

  function DriverIds(cs: seq<Candidate>): (ids: seq<string>)
    ensures |ids| == |cs|
  {
    seq(|cs|, i requires 0 <= i < |cs| => cs[i].driverId)
  }

  lemma DriverIdsAppend(cs: seq<Candidate>, c: Candidate)
    ensures DriverIds(cs + [c]) == DriverIds(cs) + [c.driverId]
  {
  }

  function InsertRanked(cs: seq<Candidate>, c: Candidate): seq<Candidate> {
    if cs == [] || c.distance < cs[0].distance then [c] + cs else [cs[0]] + InsertRanked(cs[1..], c)
  }

  lemma {:induction false} InsertRankedKeepsElements(cs: seq<Candidate>, c: Candidate)
    ensures multiset(InsertRanked(cs, c)) == multiset(cs) + multiset{c}
  {
    if cs == [] {
    } else {
      assert cs == [cs[0]] + cs[1..];
      if c.distance >= cs[0].distance {
        InsertRankedKeepsElements(cs[1..], c);
      }
    }
  }

  lemma {:induction false} InsertRankedKeepsOrder(cs: seq<Candidate>, c: Candidate)
    requires Nearer(cs)
    ensures Nearer(InsertRanked(cs, c))
  {
    if cs == [] || c.distance < cs[0].distance {
    } else {
      InsertRankedKeepsOrder(cs[1..], c);
      InsertRankedKeepsElements(cs[1..], c);
      var rest := InsertRanked(cs[1..], c);
      forall j | 0 <= j < |rest| ensures cs[0].distance <= rest[j].distance {
        assert rest[j] in multiset(rest);
        if rest[j] != c {
          assert rest[j] in cs[1..];
        }
      }
    }
  }

  function Sorted(cs: seq<Candidate>): seq<Candidate> {
    if cs == [] then [] else InsertRanked(Sorted(cs[..|cs| - 1]), cs[|cs| - 1])
  }

  lemma {:induction false} SortedIsRanking(cs: seq<Candidate>)
    ensures Nearer(Sorted(cs)) && multiset(Sorted(cs)) == multiset(cs)
  {
    if cs == [] {
    } else {
      var init, last := cs[..|cs| - 1], cs[|cs| - 1];
      assert cs == init + [last];
      SortedIsRanking(init);
      InsertRankedKeepsOrder(Sorted(init), last);
      InsertRankedKeepsElements(Sorted(init), last);
    }
  }

  /** Stands for the library sort: some ordering by distance; which of two equally distant candidates
      comes first is not specified. */
  method SortByDistance(cs: seq<Candidate>) returns (sorted: seq<Candidate>)
    ensures Nearer(sorted) && multiset(sorted) == multiset(cs)
  {
    sorted := [];
    for i := 0 to |cs|
      invariant sorted == Sorted(cs[..i])
    {
      assert cs[..i + 1][..i] == cs[..i];
      sorted := InsertRanked(sorted, cs[i]);
    }
    assert cs[..|cs|] == cs;
    SortedIsRanking(cs);
  }

  lemma {:induction false} CountedOnce(s: seq<Candidate>, x: Candidate)
    requires Distinct(DriverIds(s))
    ensures multiset(s)[x] <= 1
  {
    if s == [] {
    } else {
      var rest, last := s[..|s| - 1], s[|s| - 1];
      assert s == rest + [last];
      DriverIdsAppend(rest, last);
      DistinctLast(DriverIds(rest), last.driverId);
      CountedOnce(rest, x);
      forall i | 0 <= i < |rest| ensures rest[i] != last {
        assert DriverIds(rest)[i] == rest[i].driverId;
      }
    }
  }

  /** Reordered, candidates with distinct ids still have distinct ids. */
  lemma ReorderedIsDistinct(s: seq<Candidate>, t: seq<Candidate>)
    requires Distinct(DriverIds(s)) && multiset(t) == multiset(s)
    ensures Distinct(DriverIds(t))
  {
    forall i, j | 0 <= i < j < |t| ensures DriverIds(t)[i] != DriverIds(t)[j] {
      CountedOnce(s, t[j]);
      assert t == t[..j] + [t[j]] + t[j + 1..];
      assert t[i] in t[..j];
      assert t[i] in multiset(t) && t[j] in multiset(t);
      var a :| 0 <= a < |s| && s[a] == t[i];
      var b :| 0 <= b < |s| && s[b] == t[j];
      assert DriverIds(s)[a] == t[i].driverId && DriverIds(s)[b] == t[j].driverId;
    }
  }

  /** The first three, or all if there are fewer. */
  function Nearest(ranked: seq<Candidate>): (ids: seq<string>)
    ensures |ids| <= FANOUT
  {
    DriverIds(if |ranked| < FANOUT then ranked else ranked[..FANOUT])
  }

  lemma NearestAreDistinct(ranked: seq<Candidate>)
    requires Distinct(DriverIds(ranked))
    ensures Distinct(Nearest(ranked))
  {
    assert forall i :: 0 <= i < |Nearest(ranked)| ==> Nearest(ranked)[i] == DriverIds(ranked)[i];
  }

  class Service {
    const drivers: InMemoryDriverRepository
    const spatial: H3Index
    const events: AsyncDispatcher
    const offerGroups: RedisOfferGroupStore
    const rides: MemoryRepo
    /** The great-circle distance in metres. */
    const distance: (Location, Location) -> real

    constructor (drivers: InMemoryDriverRepository, spatial: H3Index, events: AsyncDispatcher, offerGroups: RedisOfferGroupStore,
                 rides: MemoryRepo, distance: (Location, Location) -> real)
      ensures this.drivers == drivers && this.spatial == spatial && this.events == events
      ensures this.offerGroups == offerGroups && this.rides == rides && this.distance == distance
    {
      this.drivers, this.spatial, this.events := drivers, spatial, events;
      this.offerGroups, this.rides, this.distance := offerGroups, rides, distance;
    }

    /** What the stores hold, as a world in which only this Match call runs. */
    ghost function Around(c: MatchCall): World
      reads drivers, offerGroups, rides, events
    {
      World(0, drivers.drivers, offerGroups.groups, rides.rides, events.queue, events.capacity, [c], [], [])
    }

    /** An Idle snapshot within k rings of `cell` and within the request's distance. */
    ghost predicate InRange(c: Candidate, cell: Cell, req: MatchRequest)
      reads spatial
      requires Inverse(spatial.Value())
    {
      && req.k >= 0 && c.driverId in spatial.driverToCell
      && var d := Contents(spatial.Value())[c.driverId];
         && d.status == Idle && Ring(spatial.Value(), spatial.geo, cell, c.driverId) <= req.k
         && c.distance == distance(Location(req.lat, req.lng), d.location) && c.distance <= req.maxDist
    }

    /** `cs` lists exactly the candidates in range, each driver once, nearest first. */
    ghost predicate Ranks(cs: seq<Candidate>, cell: Cell, req: MatchRequest)
      reads spatial
      requires Inverse(spatial.Value())
    {
      Nearer(cs) && Distinct(DriverIds(cs)) && forall c :: c in cs <==> InRange(c, cell, req)
    }

    /** Indexed, Idle in its snapshot, within K rings and within the distance. */
    ghost predicate InReach(id: string, cell: Cell, req: MatchRequest)
      reads spatial
      requires Inverse(spatial.Value())
    {
      && req.k >= 0 && id in spatial.driverToCell
      && Contents(spatial.Value())[id].status == Idle
      && spatial.geo.gridDistance(cell, spatial.driverToCell[id]) <= req.k && Away(id, req) <= req.maxDist
    }

    ghost function Away(id: string, req: MatchRequest): real
      reads spatial
      requires Inverse(spatial.Value()) && id in spatial.driverToCell
    {
      distance(Location(req.lat, req.lng), Contents(spatial.Value())[id].location)
    }

    /** `tried` are the three nearest drivers in reach, or all if there are fewer, nearest first. */
    ghost predicate ClosestThree(tried: seq<string>, cell: Cell, req: MatchRequest)
      reads spatial
      requires Inverse(spatial.Value())
    {
      var reach := set id | id in spatial.driverToCell && InReach(id, cell, req);
      && Distinct(tried) && (forall i :: 0 <= i < |tried| ==> tried[i] in reach)
      && |tried| == (if |reach| < 3 then |reach| else 3)
      && (forall i, j :: 0 <= i < j < |tried| ==> Away(tried[i], req) <= Away(tried[j], req))
      && (forall a, b :: a in tried && b in reach && b !in tried ==> Away(a, req) <= Away(b, req))
    }

    lemma RankedAreReach(ranked: seq<Candidate>, cell: Cell, req: MatchRequest)
      requires spatial.Valid() && Ranks(ranked, cell, req)
      ensures (set id | id in spatial.driverToCell && InReach(id, cell, req)) == set id | id in DriverIds(ranked)
      ensures forall i :: 0 <= i < |ranked| ==> ranked[i].driverId in spatial.driverToCell && ranked[i].distance == Away(ranked[i].driverId, req)
    {
      forall i | 0 <= i < |ranked|
        ensures ranked[i].driverId in spatial.driverToCell && InReach(ranked[i].driverId, cell, req)
        ensures ranked[i].distance == Away(ranked[i].driverId, req)
      {
        assert ranked[i] in ranked && InRange(ranked[i], cell, req);
      }
      forall id | id in spatial.driverToCell && InReach(id, cell, req) ensures id in DriverIds(ranked) {
        var c := Candidate(id, Away(id, req));
        assert InRange(c, cell, req) && c in ranked;
        var i :| 0 <= i < |ranked| && ranked[i] == c;
        assert DriverIds(ranked)[i] == id;
      }
    }

    lemma NearestAreClosest(ranked: seq<Candidate>, cell: Cell, req: MatchRequest)
      requires spatial.Valid() && Ranks(ranked, cell, req)
      ensures ClosestThree(Nearest(ranked), cell, req)
    {
      var tried, ids := Nearest(ranked), DriverIds(ranked);
      RankedAreReach(ranked, cell, req);
      DistinctSize(ids);
      NearestAreDistinct(ranked);
      assert forall i :: 0 <= i < |tried| ==> tried[i] == ids[i] == ranked[i].driverId;
      forall a, b | a in tried && b in ids && b !in tried ensures Away(a, req) <= Away(b, req) {
        var i :| 0 <= i < |tried| && tried[i] == a;
        var j :| 0 <= j < |ids| && ids[j] == b;
        assert ranked[i].distance <= ranked[j].distance;
      }
    }

    method Rank(cell: Cell, req: MatchRequest) returns (ranked: seq<Candidate>)
      requires spatial.Valid()
      ensures Ranks(ranked, cell, req)
    {
      var candidates := spatial.Nearby(cell, req.k);
      var inRange := KeepInRange(candidates, req);
      ranked := SortByDistance(inRange);
      ReorderedIsDistinct(inRange, ranked);
      forall c: Candidate ensures c in inRange <==> InRange(c, cell, req) {
        if c.driverId in spatial.driverToCell {
          FoundInCell(spatial.Value(), spatial.driverToCell[c.driverId], c.driverId);
        }
      }
      assert forall c :: c in ranked <==> c in multiset(inRange);
    }

    /** The candidates within the request's distance, in the order found. */
    method KeepInRange(candidates: seq<Driver>, req: MatchRequest) returns (inRange: seq<Candidate>)
      requires Distinct(Ids(candidates))
      ensures Distinct(DriverIds(inRange))
      ensures forall c :: c in inRange <==> exists d :: d in candidates && c == CandidateOf(d, req) && c.distance <= req.maxDist
    {
      inRange := [];
      for i := 0 to |candidates|
        invariant Distinct(DriverIds(inRange))
        invariant forall id :: id in DriverIds(inRange) ==> id in Ids(candidates)[..i]
        invariant forall c :: c in inRange <==> exists d :: d in candidates[..i] && c == CandidateOf(d, req) && c.distance <= req.maxDist
      {
        var c := CandidateOf(candidates[i], req);
        assert candidates[..i + 1] == candidates[..i] + [candidates[i]];
        assert Ids(candidates)[..i + 1] == Ids(candidates)[..i] + [candidates[i].id];
        if c.distance <= req.maxDist {
          assert c.driverId == Ids(candidates)[i];
          assert c.driverId !in DriverIds(inRange);
          DriverIdsAppend(inRange, c);
          inRange := inRange + [c];
        }
      }
      assert candidates[..|candidates|] == candidates;
    }

    function CandidateOf(d: Driver, req: MatchRequest): Candidate {
      Candidate(d.id, distance(Location(req.lat, req.lng), d.location))
    }

    /** Re-validates one candidate against the repository and reserves it: status first, then intent. */
    method TryLock(id: string, rider: string, lock: Io, attach: Io, free: Io) returns (ok: bool)
      modifies drivers
      ensures ok <==> id in old(drivers.drivers) && old(drivers.drivers)[id].driver.status == Idle
      ensures drivers.drivers == AfterTry(old(drivers.drivers), id, rider, lock, attach)
    {
      var driver := drivers.Get(id);
      if driver.None? || driver.value.status != Idle {
        return false;
      }
      var err := drivers.TransitionStatus(id, Matching, lock.now, lock.later);
      if err.Some? {
        return false;
      }
      ok := AttachOrFree(id, rider, attach, free);
    }

    /** Attaches the intent, or else lets the driver go; with nothing else running it is always attached. */
    method AttachOrFree(id: string, rider: string, attach: Io, free: Io) returns (ok: bool)
      modifies drivers
      ensures ok <==> IntentAllowed(old(drivers.drivers), id)
      ensures drivers.drivers == if ok then IntentSet(old(drivers.drivers), id, rider, attach.now)
                                 else Transitioned(old(drivers.drivers), id, Idle, free.now, free.later)
    {
      var err := drivers.SetIntent(id, rider, attach.now);
      if err.Some? {
        err := drivers.TransitionStatus(id, Idle, free.now, free.later);
        return false;
      }
      return true;
    }

    /** Tries the nearest candidates in turn; `n` is the number of readings used. */
    method LockEach(ids: seq<string>, rider: string, ios: seq<Io>) returns (locked: seq<string>, n: nat)
      requires 3 * |ids| < |ios|
      modifies drivers
      ensures Progress(drivers.drivers, locked, n) == TriedAll(Progress(old(drivers.drivers), [], 0), ids, rider, ios)
    {
      locked, n := [], 0;
      assert ids[0..] == ids;
      for i := 0 to |ids|
        invariant n <= 3 * i
        invariant TriedAll(Progress(drivers.drivers, locked, n), ids[i..], rider, ios) == TriedAll(Progress(old(drivers.drivers), [], 0), ids, rider, ios)
      {
        assert ids[i..][0] == ids[i] && ids[i..][1..] == ids[i + 1..];
        ghost var next := Tried(Progress(drivers.drivers, locked, n), ids[i..], rider, ios);
        var ok := TryLock(ids[i], rider, ios[n + 1], ios[n + 2], ios[n + 3]);
        assert next.locked == if ok then locked + [ids[i]] else locked;
        if ok {
          locked := locked + [ids[i]];
        }
        n := n + if ok then 3 else 1;
        assert next == Progress(drivers.drivers, locked, n);
      }
    }

    method RollBack(locked: seq<string>, ios: seq<Io>, first: nat)
      requires first + 2 * |locked| <= |ios|
      modifies drivers
      ensures drivers.drivers == UndoneAll(old(drivers.drivers), locked, ios, first)
    {
      assert locked[0..] == locked;
      for i := 0 to |locked|
        invariant UndoneAll(drivers.drivers, locked[i..], ios, first + 2 * i) == UndoneAll(old(drivers.drivers), locked, ios, first)
      {
        var n := first + 2 * i;
        drivers.ClearIntent(locked[i], ios[n].now);
        var err := drivers.TransitionStatus(locked[i], Idle, ios[n + 1].now, ios[n + 1].later);
        assert locked[i..][0] == locked[i] && locked[i..][1..] == locked[i + 1..];
      }
    }

    /** A full queue is only logged. */
    method EnqueueEach(locked: seq<string>, rider: string)
      modifies events`queue
      ensures events.queue == PushedAll(old(events.queue), events.capacity, locked, rider)
    {
      assert locked[0..] == locked;
      for i := 0 to |locked|
        invariant PushedAll(events.queue, events.capacity, locked[i..], rider) == PushedAll(old(events.queue), events.capacity, locked, rider)
      {
        assert locked[i..][0] == locked[i] && locked[i..][1..] == locked[i + 1..];
        var queued := events.EnqueueDriverOffer(locked[i], rider);
      }
    }

    /** `ios` is what the outside contributes to each atomic step, in order. `tried` is the list that the
        lock loop goes through. */
    method Match(req: MatchRequest, ios: seq<Io>) returns (err: Option<MatchError>, ghost tried: seq<string>, ghost locked: seq<string>)
      requires spatial.Valid() && |ios| >= MATCH_STEPS
      modifies drivers, offerGroups, events`queue
      ensures err == Some(NoCellForRider) <==> spatial.geo.cellOf(Location(req.lat, req.lng)).None?
      ensures err == Some(NoCellForRider) ==> Around(MatchCall(req.riderId, [], Done(false))) == old(Around(MatchCall(req.riderId, [], Done(false))))
      ensures err != Some(NoCellForRider) ==>
                && ClosestThree(tried, spatial.geo.cellOf(Location(req.lat, req.lng)).value, req) && |tried| <= FANOUT
                && (err == Some(NoDriversAvailable) <==> locked == [])
                && var w, w' := old(Around(MatchCall(req.riderId, [], Checking(tried)))), Around(MatchCall(req.riderId, locked, Done(err.None?)));
                   && Matched(w, 0, ios) == w'
                   && LocksAndOffers(w, 0, ios, tried, locked, err.None?, w')
                   && (AllCoherent(old(drivers.drivers)) ==> FansOutOrRollsBack(w, 0, ios, w'))
    {
      tried, locked := [], [];
      var cell := spatial.CellIDForLocation(Location(req.lat, req.lng));
      if cell.None? {
        return Some(NoCellForRider), tried, locked;
      }
      var candidates := Rank(cell.value, req);
      tried := Nearest(candidates);
      NearestAreClosest(candidates, cell.value, req);
      err, locked := LockAndOffer(Nearest(candidates), req.riderId, ios);
    }

    method LockAndOffer(ids: seq<string>, rider: string, ios: seq<Io>) returns (err: Option<MatchError>, ghost locked: seq<string>)
      requires |ids| <= FANOUT && |ios| >= MATCH_STEPS
      modifies drivers, offerGroups, events`queue
      ensures err != Some(NoCellForRider) && (err == Some(NoDriversAvailable) <==> locked == [])
      ensures var w, w' := old(Around(MatchCall(rider, [], Checking(ids)))), Around(MatchCall(rider, locked, Done(err.None?)));
              && Matched(w, 0, ios) == w'
              && (Distinct(ids) ==> LocksAndOffers(w, 0, ios, ids, locked, err.None?, w'))
              && (Distinct(ids) && AllCoherent(old(drivers.drivers)) ==> FansOutOrRollsBack(w, 0, ios, w'))
    {
      LoneMatch(ids, rider, ios);
      err, locked := LockThenOffer(ids, rider, ios);
    }

    /** What the call is about to do, said of the world before it. */
    lemma LoneMatch(ids: seq<string>, rider: string, ios: seq<Io>)
      requires |ids| <= FANOUT && |ios| >= MATCH_STEPS
      ensures var w := Around(MatchCall(rider, [], Checking(ids)));
              var w' := Matched(w, 0, ios);
              && (Distinct(ids) ==> |w'.matches| == 1 && w'.matches[0].pc.Done?
                                    && LocksAndOffers(w, 0, ios, ids, w'.matches[0].locked, w'.matches[0].pc.ok, w'))
              && (Distinct(ids) && AllCoherent(drivers.drivers) ==> FansOutOrRollsBack(w, 0, ios, w'))
    {
      var w := Around(MatchCall(rider, [], Checking(ids)));
      if Distinct(ids) {
        MatchedLocksAndOffers(w, 0, ios);
        if AllCoherent(drivers.drivers) {
          MatchedFansOut(w, 0, ios);
        }
      }
    }

    method LockThenOffer(ids: seq<string>, rider: string, ios: seq<Io>) returns (err: Option<MatchError>, ghost locked: seq<string>)
      requires |ids| <= FANOUT && |ios| >= MATCH_STEPS
      modifies drivers, offerGroups, events`queue
      ensures err != Some(NoCellForRider) && (err == Some(NoDriversAvailable) <==> locked == [])
      ensures Matched(old(Around(MatchCall(rider, [], Checking(ids)))), 0, ios) == Around(MatchCall(rider, locked, Done(err.None?)))
    {
      ghost var w := Around(MatchCall(rider, [], Checking(ids)));
      var reserved, n := LockEach(ids, rider, ios);
      locked := reserved;
      ghost var l := Candidates(w, 0, ios);
      assert l == Progress(drivers.drivers, reserved, n);
      if reserved == [] {
        return Some(NoDriversAvailable), locked;
      }
      assert Around(MatchCall(rider, locked, Creating)) == Locked(w, 0, l);
      var created := Offer(reserved, rider, ios, n + 1);
      return if created then None else Some(GroupNotCreated), locked;
    }

    /** Creates the group and offers the ride to every locked driver, or releases them all. */
    method Offer(locked: seq<string>, rider: string, ios: seq<Io>, at: nat) returns (created: bool)
      requires at + 10 <= |ios| && |locked| <= FANOUT
      modifies drivers, offerGroups, events`queue
      ensures Finished(old(Around(MatchCall(rider, locked, Creating))), 0, ios, at) == Around(MatchCall(rider, locked, Done(created)))
    {
      var commands;
      created, commands := offerGroups.Create(rider, GROUP_TTL, ios[at + 1].now, ReplyOf(ios[at]), ReplyOf(ios[at + 1]), ReplyOf(ios[at + 2]));
      if !created {
        RollBack(locked, ios, at + commands);
        return;
      }
      EnqueueEach(locked, rider);
    }

    /** What a dispatcher worker runs once a driver has answered the offer. */
    method HandleDriverResponse(driver: string, rider: string, response: DriverResponse, ios: seq<Io>, ghost attempts: nat) returns (failed: bool)
      requires |ios| >= HANDLER_STEPS && ios[0].response == response
      modifies drivers, offerGroups, rides
      ensures var ev := OfferEvent(driver, rider, attempts);
              HandlerEnd(if failed then Retrying(ev) else Waiting, drivers.drivers, offerGroups.groups, rides.rides)
              == Handled(ev, old(drivers.drivers), old(offerGroups.groups), old(rides.rides), ios)
      ensures var ev := OfferEvent(driver, rider, attempts);
              && Settles(ev, old(drivers.drivers), old(rides.rides), Wins(old(offerGroups.groups), old(rides.rides), ev, ios),
                         response == Accept && ios[1].redisFails, Ride(ios[2].rideId, rider, driver, Assigned, ios[2].now, ios[2].now),
                         HandlerEnd(if failed then Retrying(ev) else Waiting, drivers.drivers, offerGroups.groups, rides.rides))
              && Arbitrates(ev, old(offerGroups.groups), ios, offerGroups.groups)
    {
      HandledSettles(OfferEvent(driver, rider, attempts), drivers.drivers, offerGroups.groups, rides.rides, ios);
      if response == Reject {
        Release(driver, ios[1], ios[2]);
        return false;
      }
      var answer := offerGroups.Accept(rider, driver, ReplyOf(ios[1]));
      if answer != Answer(true) {
        // An expired group or a lost race is expected; only a transport error is reported.
        Release(driver, ios[2], ios[3]);
        return answer == TransportError;
      }
      failed := Finalize(false, driver, rider, ios, attempts);
    }

    /** From a won arbitration to the end. The finalizer fails only when its context is cancelled, which
        the handler's never is. */
    method Finalize(cancelled: bool, driver: string, rider: string, ios: seq<Io>, ghost attempts: nat) returns (failed: bool)
      requires |ios| >= HANDLER_STEPS
      modifies drivers, rides
      ensures cancelled ==> failed && rides.rides == old(rides.rides) && drivers.drivers == AfterUndo(old(drivers.drivers), driver, ios[3], ios[4])
      ensures !cancelled ==>
                var ev := OfferEvent(driver, rider, attempts);
                HandlerEnd(if failed then Retrying(ev) else Waiting, drivers.drivers, offerGroups.groups, rides.rides)
                == Finalized(ev, old(drivers.drivers), offerGroups.groups, old(rides.rides), ios)
    {
      var ride, created := rides.CreateIfAbsent(cancelled, rider, driver, ios[2].rideId, ios[2].now);
      if ride.None? {
        Release(driver, ios[3], ios[4]);
        return true;
      }
      if !created {
        Release(driver, ios[3], ios[4]);
        return false;
      }
      var err := drivers.TransitionStatus(driver, Busy, ios[3].now, ios[3].later);
      return err.Some?;
    }

    method Release(driver: string, clear: Io, free: Io)
      modifies drivers
      ensures drivers.drivers == AfterUndo(old(drivers.drivers), driver, clear, free)
    {
      drivers.ClearIntent(driver, clear.now);
      var err := drivers.TransitionStatus(driver, Idle, free.now, free.later);
    }
  }

  /** A dispatcher worker next to the service that its sender hands the driver's answer to. */
  class OfferWorker {
    const dispatcher: AsyncDispatcher
    const service: Service

    constructor (dispatcher: AsyncDispatcher, service: Service)
      ensures this.dispatcher == dispatcher && this.service == service
    {
      this.dispatcher, this.service := dispatcher, service;
    }

    /** One round of the worker's loop: receive an offer, send it, and retry it after an error. */
    method Deliver(ios: seq<Io>)
      requires dispatcher.queue != [] && |ios| >= HANDLER_STEPS
      modifies dispatcher`queue, service.drivers, service.offerGroups, service.rides
      ensures var e := Handled(old(dispatcher.queue)[0], old(service.drivers.drivers), old(service.offerGroups.groups), old(service.rides.rides), ios);
              && service.drivers.drivers == e.drivers && service.offerGroups.groups == e.groups && service.rides.rides == e.rides
              && dispatcher.queue == QueueAfter(old(dispatcher.queue), dispatcher.capacity, e)
              && var ev, rest := old(dispatcher.queue)[0], old(dispatcher.queue)[1..];
                 dispatcher.queue == if e.worker.Retrying? && ev.attempts < 2 && |rest| < dispatcher.capacity
                                     then rest + [ev.(attempts := ev.attempts + 1)] else rest
    {
      var event := dispatcher.Receive();
      var failed := service.HandleDriverResponse(event.driver, event.rider, ios[0].response, ios, event.attempts);
      if failed {
        var outcome := dispatcher.Retry(event);
      }
    }
  }
}
