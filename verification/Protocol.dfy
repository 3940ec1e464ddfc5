/** The offer/accept protocol as an interleaved step system.

    Match calls, dispatcher workers and location updates run concurrently; nothing holds
    a lock from one step to the next. Every repository call, Redis command, script run,
    ride-repository call, channel operation and clock reading is one atomic step. */
module Protocol {
  import opened Domain
  import opened DriverRepository
  import opened OfferGroups
  import opened RideRepository
  import opened Dispatcher

  const FANOUT := 3
  const GROUP_TTL := 5

  /** Where a Match call stands. `todo` are candidates not yet tried, `left` locked
      drivers not yet enqueued or rolled back. */
  datatype MatchPc =
    | Checking(todo: seq<string>)
    | Locking(id: string, todo: seq<string>)
    | Intending(id: string, todo: seq<string>)
    | Unlocking(id: string, todo: seq<string>)
    | Creating
    | Stamping
    | Arming
    | Undoing(left: seq<string>)
    | Freeing(id: string, left: seq<string>)
    | Enqueuing(left: seq<string>)
    | Done(ok: bool)

  datatype MatchCall = MatchCall(rider: string, locked: seq<string>, pc: MatchPc)

  /** Where a dispatcher worker stands with the event it received. `failed` says whether
      the handler is going to report an error to the dispatcher. */
  datatype Worker =
    | Waiting
    | Sending(ev: OfferEvent)
    | Accepting(ev: OfferEvent)
    | Finalizing(ev: OfferEvent)
    | Committing(ev: OfferEvent)
    | Clearing(ev: OfferEvent, failed: bool)
    | Releasing(ev: OfferEvent, failed: bool)
    | Retrying(ev: OfferEvent)

  /** Where a location update stands: not started, clock read, record fetched, finished. */
  datatype Ingest =
    | Arrived(id: string, location: Location)
    | Stamped(id: string, location: Location, at: int)
    | Fetched(driver: Driver, existed: bool)
    | Stored

  datatype World = World(
    clock: int,
    drivers: Drivers,
    groups: Groups,
    rides: Rides,
    queue: seq<OfferEvent>,
    capacity: nat,
    matches: seq<MatchCall>,
    workers: seq<Worker>,
    ingests: seq<Ingest>)

  /** What the outside contributes to one step: two clock readings, whether a Redis
      command fails and whether the server had already applied it, the driver's answer
      to an offer, and a fresh ride id. */
  datatype Io = Io(now: int, later: int, redisFails: bool, applied: bool, response: DriverResponse, rideId: string)

  datatype Step =
    | StartMatch(rider: string, cands: seq<string>)
    | MatchStep(m: nat, mio: Io)
    | WorkerStep(k: nat, wio: Io)
    | StartIngest(id: string, location: Location)
    | IngestStep(i: nat, iio: Io)
    | ExpireGroup(key: string)

  predicate Ticks(w: World, io: Io) {
    w.clock < io.now < io.later
  }

  predicate Enabled(w: World, s: Step) {
    match s
    case StartMatch(_, cands) => |cands| <= FANOUT
    case MatchStep(m, io) => m < |w.matches| && !w.matches[m].pc.Done? && Ticks(w, io)
    case WorkerStep(k, io) => k < |w.workers| && (w.workers[k].Waiting? ==> w.queue != []) && Ticks(w, io)
    case StartIngest(_, _) => true
    case IngestStep(i, io) => i < |w.ingests| && !w.ingests[i].Stored? && Ticks(w, io)
    case ExpireGroup(_) => true
  }

  function Apply(w: World, s: Step): World
    requires Enabled(w, s)
  {
    match s
    case StartMatch(rider, cands) => w.(matches := w.matches + [MatchCall(rider, [], Checking(cands))])
    case MatchStep(m, io) => MatchNext(w.(clock := io.later), m, io)
    case WorkerStep(k, io) => WorkerNext(w.(clock := io.later), k, io)
    case StartIngest(id, location) => w.(ingests := w.ingests + [Arrived(id, location)])
    case IngestStep(i, io) => IngestNext(w.(clock := io.later), i, io)
    case ExpireGroup(key) => w.(groups := w.groups - {key})
  }

  // ---- a Match call, after its candidates have been ranked ----

  /** What a step asks of the driver repository. */
  datatype Request = Nothing | Move(id: string, to: DriverStatus) | Attach(id: string, rider: string) | Detach(id: string)

  function Performed(ds: Drivers, r: Request, now: int, later: int): Drivers {
    match r
    case Nothing => ds
    case Move(id, to) => Transitioned(ds, id, to, now, later)
    case Attach(id, rider) => IntentSet(ds, id, rider, now)
    case Detach(id) => IntentCleared(ds, id, now)
  }

  function CallRequest(c: MatchCall): Request {
    match c.pc
    case Locking(id, _) => Move(id, Matching)
    case Intending(id, _) => Attach(id, c.rider)
    case Unlocking(id, _) => Move(id, Idle)
    case Undoing(left) => if left == [] then Nothing else Detach(left[0])
    case Freeing(id, _) => Move(id, Idle)
    case _ => Nothing
  }

  /** What it does to Redis; a failing command may have been applied all the same. */
  function MatchGroups(gs: Groups, c: MatchCall, io: Io): Groups {
    if io.redisFails && !io.applied then gs else
    match c.pc
    case Creating => AfterHSetNX(gs, c.rider)
    case Stamping => AfterHSet(gs, c.rider, io.now)
    case Arming => AfterExpire(gs, c.rider, GROUP_TTL)
    case _ => gs
  }

  function MatchQueue(queue: seq<OfferEvent>, capacity: nat, c: MatchCall): seq<OfferEvent> {
    if c.pc.Enqueuing? && c.pc.left != [] then Pushed(queue, capacity, OfferEvent(c.pc.left[0], c.rider, 0)) else queue
  }

  /** Where the call goes next, given what the step found. */
  function MatchAfter(ds: Drivers, gs: Groups, c: MatchCall, io: Io): MatchCall {
    match c.pc
    case Checking(todo) =>
      if todo == [] then c.(pc := if c.locked == [] then Done(false) else Creating)
      else if todo[0] in ds && ds[todo[0]].driver.status == Idle then c.(pc := Locking(todo[0], todo[1..]))
      else c.(pc := Checking(todo[1..]))
    case Locking(id, todo) =>
      c.(pc := if TransitionAllowed(ds, id, Matching) then Intending(id, todo) else Checking(todo))
    case Intending(id, todo) =>
      if IntentAllowed(ds, id) then c.(locked := c.locked + [id], pc := Checking(todo))
      else c.(pc := Unlocking(id, todo))
    case Unlocking(id, todo) => c.(pc := Checking(todo))
    case Creating =>
      c.(pc := if io.redisFails then Undoing(c.locked) else if Creates(gs, c.rider) then Stamping else Enqueuing(c.locked))
    case Stamping => c.(pc := if io.redisFails then Undoing(c.locked) else Arming)
    case Arming => c.(pc := if io.redisFails then Undoing(c.locked) else Enqueuing(c.locked))
    case Undoing(left) => c.(pc := if left == [] then Done(false) else Freeing(left[0], left[1..]))
    case Freeing(_, left) => c.(pc := Undoing(left))
    case Enqueuing(left) => c.(pc := if left == [] then Done(true) else Enqueuing(left[1..]))
    case Done(_) => c
  }

  function MatchNext(w: World, m: nat, io: Io): World
    requires m < |w.matches|
  {
    var c := w.matches[m];
    w.(matches := w.matches[m := MatchAfter(w.drivers, w.groups, c, io)],
       drivers := Performed(w.drivers, CallRequest(c), io.now, io.later),
       groups := MatchGroups(w.groups, c, io),
       queue := MatchQueue(w.queue, w.capacity, c))
  }

  // ---- a worker: receive, send the offer, handle the response, retry ----

  function WorkerRequest(t: Worker): Request {
    match t
    case Committing(ev) => Move(ev.driver, Busy)
    case Clearing(ev, _) => Detach(ev.driver)
    case Releasing(ev, _) => Move(ev.driver, Idle)
    case _ => Nothing
  }

  function WorkerGroups(gs: Groups, t: Worker, io: Io): Groups {
    if t.Accepting? && !(io.redisFails && !io.applied) then Decided(gs, t.ev.rider, t.ev.driver) else gs
  }

  function WorkerRides(rs: Rides, t: Worker, io: Io): Rides {
    if t.Finalizing? then CreatedIfAbsent(rs, t.ev.rider, t.ev.driver, io.rideId, io.now) else rs
  }

  function WorkerQueue(queue: seq<OfferEvent>, capacity: nat, t: Worker): seq<OfferEvent>
    requires t.Waiting? ==> queue != []
  {
    if t.Waiting? then queue[1..]
    else if t.Retrying? then Retried(queue, capacity, t.ev)
    else queue
  }

  function WorkerAfter(w: World, t: Worker, io: Io): Worker
    requires t.Waiting? ==> w.queue != []
  {
    match t
    case Waiting => Sending(w.queue[0])
    case Sending(ev) => if io.response == Reject then Clearing(ev, false) else Accepting(ev)
    case Accepting(ev) =>
      if io.redisFails then Clearing(ev, true)
      else if Decide(w.groups, ev.rider, ev.driver) == Won then Finalizing(ev)
      else Clearing(ev, false)
    case Finalizing(ev) => if HasActive(w.rides, ev.rider) then Clearing(ev, false) else Committing(ev)
    case Committing(ev) => if TransitionAllowed(w.drivers, ev.driver, Busy) then Waiting else Retrying(ev)
    case Clearing(ev, failed) => Releasing(ev, failed)
    case Releasing(ev, failed) => if failed then Retrying(ev) else Waiting
    case Retrying(_) => Waiting
  }

  function WorkerNext(w: World, k: nat, io: Io): World
    requires k < |w.workers| && (w.workers[k].Waiting? ==> w.queue != [])
  {
    var t := w.workers[k];
    w.(workers := w.workers[k := WorkerAfter(w, t, io)],
       drivers := Performed(w.drivers, WorkerRequest(t), io.now, io.later),
       groups := WorkerGroups(w.groups, t, io),
       rides := WorkerRides(w.rides, t, io),
       queue := WorkerQueue(w.queue, w.capacity, t))
  }

  /** One step of a location update: read the clock, then fetch, then upsert. */
  function IngestNext(w: World, i: nat, io: Io): World
    requires i < |w.ingests|
  {
    match w.ingests[i]
    case Arrived(id, location) => w.(ingests := w.ingests[i := Stamped(id, location, io.now)])
    case Stamped(id, location, at) =>
      w.(ingests := w.ingests[i := Fetched(LocationReport(w.drivers, id, location, at), id in w.drivers)])
    case Fetched(driver, _) =>
      w.(ingests := w.ingests[i := Stored], drivers := Upserted(w.drivers, driver, io.now))
    case Stored => w
  }

  // ---- runs ----

  /** Every driver seeded Idle or Offline with nothing attached; no ride, no group, nothing running. */
  predicate Init(w: World) {
    && (forall id :: id in w.drivers ==>
          var d := w.drivers[id].driver;
          d.id == id && d.updatedAt <= w.clock && (d.status == Idle || d.status == Offline) && d.matchingSince == None && d.intent == None)
    && w.groups == map[] && w.rides == map[] && w.queue == [] && w.matches == [] && w.ingests == []
    && forall k :: 0 <= k < |w.workers| ==> w.workers[k] == Waiting
  }

  ghost predicate Legal(w: World, ss: seq<Step>)
    decreases |ss|
  {
    ss == [] || (Enabled(w, ss[0]) && Legal(Apply(w, ss[0]), ss[1..]))
  }

  ghost function Exec(w: World, ss: seq<Step>): World
    requires Legal(w, ss)
    decreases |ss|
  {
    if ss == [] then w else Exec(Apply(w, ss[0]), ss[1..])
  }

  /** How many steps of the run satisfy `p` in the world they are taken from. */
  ghost function Count(w: World, ss: seq<Step>, p: (World, Step) -> bool): nat
    requires Legal(w, ss)
    decreases |ss|
  {
    if ss == [] then 0 else (if p(w, ss[0]) then 1 else 0) + Count(Apply(w, ss[0]), ss[1..], p)
  }
}
