# A Dafny model of AtlasRide

The project models four connected cores of AtlasRide and proves properties of them:

1. **The offer/accept protocol.** `Match` reserves up to three nearest drivers, opens an offer group in
   Redis and enqueues offers; dispatcher workers deliver them to `HandleDriverResponse`, which arbitrates in
   the Lua script, then in the ride repository, and finally makes the driver Busy or releases it. `Protocol`
   is a step system in which every repository call, Redis command, script run, ride-repository call, channel
   operation and clock reading is one atomic step, and any number of Match calls, workers and location
   updates interleave. No lock spans two steps. Groups may expire at any point, also before `EXPIRE` has been
   sent; Redis commands may fail, having been applied or not; drivers may reject; enqueues may find the queue
   full.
2. **The quadtree**: insertion in place, lazy subdivision without redistribution, overlapping closed
   quadrants, pruned range search (`Quadtree` for values, `QtreeHeap` for the heap).
3. **The H3 index**: two mutually inverse maps and three searches (`SpatialIndex`, `H3IndexObject`).
4. **Ingestion and eviction** against the driver repository (`ProtocolRecords` interleaved, `Ingestion`
   sequential).

How the files fit together: `Domain`, `DriverRepository`, `OfferGroups`, `RideRepository` and `Dispatcher`
hold one store each, as a function per operation plus a class whose methods are proved to compute it.
`Protocol` builds its atomic steps from those functions. `ProtocolRecords`, `ProtocolOwnership`,
`ProtocolLeaks`, `ProtocolExclusivity`, `ProtocolRides`, `ProtocolDelivery` and `ProtocolQuiescence` prove what
runs keep, and exactly when they stop keeping it; `ProtocolFaults` exhibits runs that go wrong. `SoloRuns` proves what the steps of one call or one handler add
up to when nothing else moves, and `MatchService` is the service object, proved to do exactly that.

## Reading the protocol theorems

- A run is any sequence of enabled steps from a world in which every driver is Idle or Offline with nothing
  attached, and there is no ride, group, queued offer or call (`Init`). Each step reads the clock later than
  every step before it.
- Exclusivity is carried by a map from each held driver to its one holder: a Match call, the queue, or a
  worker. `OwnerAfter` says how each step moves that right. The map is a witness in the proofs only; no step
  looks at it.
- The handler releases the driver on a transport error of the accept call and reports the error as well, so the
  dispatcher retries an offer whose driver may by then belong to somebody else; a single accept error is enough
  to book one driver for two riders (`OneAcceptFaultDoubleBooks`). So exclusivity and no double booking are
  stated with their exact conditions, over all runs with faults, expiry and full queues:
  - The world is exclusive after every step if and only if no step puts back an offer whose driver is not free
    for it (`AlwaysExclusiveIffNeverClashes`). As long as no enqueue has met a full queue, that is the same as
    putting back no failed offer at all (`AlwaysExclusiveIffNeverRequeues`), and a run without accept errors
    never does that (`NoAcceptFaultNoRequeue`).
  - No two rides name one driver if and only if no handler finalizes, for a rider without an active ride, a driver
    that a ride already names (`OneDriverEachIffNeverDoubles`). The handler could look that up before it
    finalizes.
- A driver is Matching in nobody's hands if and only if some step offered it to a full queue
  (`StrandedIffDropped`, for runs that put nothing back; `StrandedIffStillLost` for all that never clash; faults,
  rejections and expiry are allowed). It can happen without any fault (`FaultlessRunStrandsDriver`).
- What needs no condition is proved without one: coherent records, the optimistic lock, Busy implies
  ride, one ride per rider, conservation, bounded delivery, and that runs end.

## Where the code and its own words part

- The dispatcher's comment says that a full queue slows Match down. The code logs and goes on: the driver of
  an offer that finds the queue full stays Matching and in nobody's hands (`StrandedIffQueueFull`), for as
  long as no failed offer is put back (`StrandedIffDropped`), while Match reports success. The recovery
  service that would free it is not started by `cmd/api/main.go`.
- `H3Index.Insert` of a driver that is indexed in another cell leaves the old entry behind:
  `InsertRefinesIffNewOrUnmoved` gives the exact condition. `Update` has no such case.
- A location update at a position without a cell is stored in the repository but silently not indexed:
  `UpdateMirrorsIffLocated`.
- A quadtree of capacity zero or less never comes back from inserting a point inside its boundary:
  `ReturnsIffThereIsRoom`.
- `MemoryRepo.UpdateStatus` looks up a ride id in a map keyed by rider id, so rides stay assigned. The field
  `activeByRider` is never used.
- The interfaces `repository.DriverRepository` (methods `Alll`, `ListByCell`) and `spatial.SpatialIndex`
  (`Nearby` by cell string) do not fit the concrete types; the model follows the concrete types.

## Assumptions

- Coordinates, distances and extents are exact reals. Ids are strings, times are integers in nanoseconds.
- H3 is a cell function that may fail, a grid distance, and disks that list each cell within a radius once
  (`GridOk`); a negative radius is an error. The great-circle distance is an arbitrary function.
- Clock readings, Redis failures, drivers' answers and fresh ride ids come in from outside, one `Io` a step.
- The order in which Go iterates over a map is arbitrary; the methods that do so choose any order.

## Model

| member | source | states |
|---|---|---|
| ProtocolRides.OneDriverEachIffNeverDoubles | internal/matching/service.go:314-318 | Over every run, faults, retries and full queues included: no two rides name one driver at the end if and only if no handler finalized, for a rider without an active ride, a driver that some ride already named |
| ProtocolRides.StepDoublesOrNot | internal/ride/repo_memory.go:39-57 | Step by step: rides name distinct drivers after a step exactly when they did before and the step does not double |
| ProtocolExclusivity.AlwaysExclusiveIffNeverClashes | internal/events/async_dispatcher.go:101-119 | Over every run: after every step some map gives each held driver its one holder, if and only if no step puts back a failed offer whose driver is no longer reserved for its rider or is in somebody's hands |
| ProtocolExclusivity.AlwaysExclusiveIffNeverRequeues | internal/events/async_dispatcher.go:101-119 | If no enqueue of the run meets a full queue, the same holds if and only if no failed offer is put back at all |
| ProtocolExclusivity.ExclusiveIffNoClash | internal/events/async_dispatcher.go:112-113 | The step form, with the drivers stranded so far as a parameter |
| ProtocolExclusivity.ClashBreaksOwnership | internal/events/async_dispatcher.go:112-113 | After a clash of an exclusive world no owner map at all witnesses exclusivity |
| ProtocolExclusivity.FreeRequeueKeepsOwnership | internal/events/async_dispatcher.go:112-113 | Putting back an offer whose driver is free for it hands the right to the queue |
| ProtocolExclusivity.RunKeepsExclusive | internal/matching/service.go:115-365 | The ownership invariant holds over every run that never clashes |
| ProtocolExclusivity.NoDoubleBooking | internal/matching/service.go:115-365 | In every world reachable by any interleaving that never clashes, the rides of two riders name two drivers, and a ride's driver is Busy, or Matching and in the hands of the worker that has just created that ride |
| ProtocolExclusivity.AtMostOneHolder | internal/matching/service.go:138-209 | In every such world two places (Match call, queue entry, worker) that hold a driver are one place; the driver is Matching, and its intent, when set, names that holder's rider |
| ProtocolExclusivity.NeverRequeuesNeverClashes | internal/events/async_dispatcher.go:101-119 | A run that puts no offer back never clashes |
| ProtocolOwnership.NoAcceptFaultNoRequeue | internal/matching/service.go:286-297 | A run in which no accept call fails in transport never puts an offer back into the queue |
| ProtocolOwnership.RunKeepsOwnership | internal/matching/service.go:115-365 | The ownership invariant holds over every run that puts no offer back, with the owner map moved along as `OwnerAfter` says |
| ProtocolOwnership.StepKeepsOwnership | internal/matching/service.go:115-365 | Each single step that does not requeue keeps it |
| ProtocolOwnership.MatchStepKeepsOwnership | internal/matching/service.go:115-209 | Steps of a Match call keep exclusivity: locking takes the right, enqueuing hands it on, rollback gives it up |
| ProtocolOwnership.WorkerStepKeepsOwnership | internal/matching/service.go:251-365 | Steps of a worker other than putting an offer back keep exclusivity: receiving takes the right, committing or releasing gives it up |
| ProtocolOwnership.OutsideStepKeepsOwnership | internal/service/driver_ingetion_service.go:26-57 | Starting calls, location updates and expiring groups move no right |
| ProtocolOwnership.HeldAfter | internal/matching/service.go:113-209 | Which drivers a Match call holds after each of its steps |
| ProtocolOwnership.StepKeepsCalm | internal/matching/service.go:286-356 | Under exclusivity only a failing accept call makes a handler report an error; committing to Busy never fails |
| ProtocolFaults.OneAcceptFaultDoubleBooks | internal/matching/service.go:286-297 | There is a run with exactly one transport error of an accept call at whose end two riders' rides name one driver |
| ProtocolFaults.ExpiryCrownsTwo | internal/ride/repo_memory.go:39-57 | There is a run without any fault in which, after its group has expired, the script crowns a second driver for a rider whose ride names the first |
| ProtocolFaults.ExpiryForgetsOneGroup | internal/offer/redis_offer_group_store.go:48-49 | An expired group is gone with status and winner; no other group and no store notices |
| ProtocolFaults.FullQueueIsReached | internal/events/async_dispatcher.go:54-64 | There is a run without any fault that reaches an enqueue into a full queue |
| ProtocolFaults.FaultlessRunStrandsDriver | internal/matching/service.go:201-213 | There is a run without any fault that comes to rest with its one Match call successful and a driver stranded |
| ProtocolLeaks.StrandedIffDropped | internal/matching/service.go:201-209 | In every world reachable without putting offers back, faults, rejections and expiry included, a driver is Matching in nobody's hands if and only if some step of the run offered it to a full queue |
| ProtocolExclusivity.StrandedIffStillLost | internal/matching/service.go:201-209 | The same for every run that never clashes: offered to a full queue by some step and not put back by a later one |
| ProtocolLeaks.MatchingAtRestIffDropped | internal/matching/service.go:201-209 | At rest the Matching drivers are exactly those |
| ProtocolLeaks.StepLeaksOnlyDrops | internal/matching/service.go:138-209 | Whatever the step, the Matching drivers without a holder afterwards are those before, plus one offered to a full queue, minus one put back; every other right stays in somebody's hands |
| ProtocolLeaks.StrandedIffQueueFull | internal/events/async_dispatcher.go:54-64 | A Match call's enqueue leaves its driver Matching, and in nobody's hands if and only if the queue is full |
| ProtocolLeaks.StrandedStays | internal/matching/service.go:115-365 | No step changes the status of a Matching driver that has no holder |
| ProtocolLeaks.DroppedOfferStrandsDriver | internal/matching/service.go:201-209 | The driver of an offer that found the queue full is still Matching at the end of every continuation that puts no offer back |
| ProtocolRides.OneRideOneBusyDriver | internal/ride/repo_memory.go:39-57 | Over any run, however often a rider's group expires and is recreated, at most one handler is told it created that rider's ride and at most one driver turns Busy for the rider; a ride exists at the end exactly when one was told so |
| ProtocolRides.BusyImpliesRide | internal/matching/service.go:314-356 | In every reachable world, transport errors and retries included, a Busy driver is named by some ride |
| ProtocolRides.RunKeepsRidesOk | internal/matching/service.go:314-356 | Every run keeps: rides are assigned and filed under their rider, a committing worker's ride exists and names its driver, Busy drivers have rides |
| ProtocolRides.StepKeepsRides | internal/ride/repo_memory.go:39-57 | No step forgets or rewrites a ride |
| ProtocolRides.BusyComesFromCommit | internal/matching/service.go:346-356 | A driver turns Busy only in the step that commits a worker's own offer |
| ProtocolRecords.LocationUpdatesLoseNoStatusChange | internal/service/driver_ingetion_service.go:30-53 | In every reachable world the step that stores a location update leaves status, intent and matching time of every known driver as they are, whatever happened since the update read its clock |
| ProtocolRecords.StoredIffNotOvertaken | internal/service/driver_ingetion_service.go:30-53 | In every reachable world, whatever happened since it read the clock, the storing step of a location update writes the reported location, the time read and the time seen, if and only if no step since that reading wrote the record under a later time; otherwise nothing changes; no other driver is touched |
| ProtocolRecords.SoloUpdateIsStored | internal/service/driver_ingetion_service.go:26-57 | Run alone in any reachable world, an update of a known or new driver is stored in three steps and leaves status, intent and matching time as they were, or makes a new Idle driver |
| ProtocolRecords.AcceptedUpsertKeepsCores | internal/repository/inmemory_driver_repo.go:38-55 | The timestamp check as optimistic lock: an upsert that is accepted carries the very status, intent and matching time the record has |
| ProtocolRecords.RewriteKeepsIngests | internal/repository/inmemory_driver_repo.go:146-147 | A status step moves the record's time past every pending location update, which is then either dropped or still up to date |
| ProtocolRecords.RunKeepsRecords | internal/repository/inmemory_driver_repo.go:109-152 | Every run keeps the records coherent and every pending update trustworthy |
| ProtocolRecords.ReachableRecordsAreCoherent | internal/domain/driver.go:17-18 | In every reachable world a record has a matching time exactly while Matching, and an intent only while Matching |
| ProtocolRecords.HistoryFollowsFsm | internal/domain/driver_fsm.go:10-23 | Over any run each driver's statuses form a path of the state machine, entered at Idle |
| ProtocolRecords.StatusesFollowOneAnother | internal/domain/driver_fsm.go:10-23 | Spelled out pair by pair: no step takes an Idle driver to Busy, a Busy one to anything but Idle, or a driver away |
| ProtocolRecords.StatusStepsKeepLocations | internal/repository/inmemory_driver_repo.go:109-152 | Calls and workers change no location and no time seen |
| ProtocolRecords.RequestsKeepRecords | internal/repository/inmemory_driver_repo.go:109-152 | Every repository request of a call or worker leaves the map alone or rewrites the one record it names, coherently and along the state machine |
| ProtocolQuiescence.QuiescentAgreement | internal/matching/match_cuncurrenncy_test.go:134-146 | With drivers accepting, no expiry, no Redis failure and no full queue, any run that comes to rest leaves no driver Matching; each rider whose Match succeeded has a ride, and each ride's driver is Busy, the one GetWinner names, and has no other ride; each Busy driver has a ride |
| ProtocolQuiescence.RunAgrees | internal/matching/service.go:180-364 | The invariant behind it over every such run: groups, offers, workers and rides agree, and no right is lost |
| ProtocolQuiescence.LateAcceptorLoses | internal/offer/lua/accept_offer.lua:12-18 | A driver that accepts when its rider's group is decided is not the recorded winner |
| ProtocolQuiescence.OneFinalizer | internal/matching/service.go:314-318 | Two workers are never finalizing for one rider |
| ProtocolDelivery.OffersAreConserved | internal/events/async_dispatcher.go:47-119 | Over any run, accepted enqueues equal queued plus in flight plus delivered plus permanently failed plus dropped on retry |
| ProtocolDelivery.QueueStaysBounded | internal/events/async_dispatcher.go:54-64 | In every reachable world the queue is within its capacity and a queued event carries at most two attempts |
| ProtocolDelivery.EachOfferIsSentAtMostThreeTimes | internal/events/async_dispatcher.go:93-108 | An offer accepted in a reachable world, followed through queue, workers and retries, is sent at most three times in whatever comes after |
| ProtocolDelivery.FailingOfferIsSentThreeTimes | internal/events/async_dispatcher.go:93-119 | An accepted offer that is never delivered and never finds the queue full on its way back has been sent exactly three times when it is given up |
| ProtocolDelivery.FollowedIsTheSameOffer | internal/events/async_dispatcher.go:81-119 | Following an offer's place through a step leads to an offer of the same driver to the same rider |
| ProtocolDelivery.RunsEnd | internal/matching/service.go:115-209 | The steps of any run number at most 130 for each Match call started and 3 for each location update, whatever faults and retries happen |
| ProtocolDelivery.NothingIsStuck | internal/events/async_dispatcher.go:73-91 | Nothing waits for anything else: if and only if every call, update and worker is finished and no offer waits for a worker, no working step can be taken |
| ProtocolDelivery.StepWorks | internal/events/async_dispatcher.go:93-119 | The measure behind it: every step of a call, worker or update makes the work left smaller |
| OfferGroups.FirstAcceptWins | internal/offer/lua/accept_offer.lua:4-29 | Once a driver has been told it won, then after any further accepts the winner is that driver, it alone is told so again, and the group is found |
| OfferGroups.CreateIsIdempotent | internal/offer/redis_offer_group_store.go:24-50 | Creating succeeds if and only if none of the commands sent failed, so without failures always, for new, pending and decided groups; a group with a status is left as it is; a new one gets status, creation time and expiry one after the other, as far as the commands were applied; no other rider is touched |
| OfferGroups.RedisOfferGroupStore.Create | internal/offer/redis_offer_group_store.go:24-50 | The same of the operation: when it succeeds, how many commands it sends, and the whole keyspace afterwards |
| OfferGroups.RedisOfferGroupStore.Accept | internal/offer/redis_offer_group_store.go:52-70 | By the status of the group: pending wins, accepted wins for its winner only, any other loses, none is expired; or a transport error, after which a pending group may be decided all the same |
| OfferGroups.RedisOfferGroupStore.RunScript | internal/offer/lua/accept_offer.lua:4-29 | The script by the status of the group: the answer, and that only a pending group changes, to accepted with this winner |
| OfferGroups.RedisOfferGroupStore.GetWinner | internal/offer/redis_offer_group_store.go:72-88 | The winner field of the rider's hash, none, or an error |
| RideRepository.MemoryRepo.CreateIfAbsent | internal/ride/repo_memory.go:25-58 | Created exactly when the rider has no active ride; otherwise the active ride is returned and nothing changes; a cancelled context changes nothing |
| RideRepository.MemoryRepo.GetActiveByRider | internal/ride/repo_memory.go:73-97 | The rider's ride if it is assigned or ongoing, none, or an error for a cancelled context |
| DriverRepository.InMemoryDriverRepository.Upsert | internal/repository/inmemory_driver_repo.go:29-58 | Accepted if and only if no stored record is newer and the packet is at most two seconds ahead; accepted, it replaces that record; dropped, nothing changes |
| DriverRepository.InMemoryDriverRepository.TransitionStatus | internal/repository/inmemory_driver_repo.go:109-152 | Succeeds exactly for the six allowed pairs of statuses; then status, matching time, intent and update time are as stated, and location, time seen and all other records as they were; otherwise nothing changes |
| DriverRepository.InMemoryDriverRepository.SetIntent | internal/repository/inmemory_driver_repo.go:299-321 | Succeeds exactly for a Matching driver; then only its intent and update time change |
| DriverRepository.InMemoryDriverRepository.ClearIntent | internal/repository/inmemory_driver_repo.go:233-245 | Only the intent and the update time of that driver change |
| DriverRepository.InMemoryDriverRepository.Expired | internal/repository/inmemory_driver_repo.go:75-88 | Each id silent for longer than the time to live, once, and no other |
| DriverRepository.InMemoryDriverRepository.Get | internal/repository/inmemory_driver_repo.go:60-66 | The record, if any |
| DriverRepository.InMemoryDriverRepository.Delete | internal/repository/inmemory_driver_repo.go:68-73 | That record and no other is gone |
| Dispatcher.AsyncDispatcher.EnqueueDriverOffer | internal/events/async_dispatcher.go:47-65 | Appends a fresh event exactly when there is room, never blocks, keeps the queue within capacity |
| Dispatcher.AsyncDispatcher.Retry | internal/events/async_dispatcher.go:101-119 | Requeued, failed for good, or dropped, and exactly when |
| Dispatcher.AsyncDispatcher.Receive | internal/events/async_dispatcher.go:81-87 | First in, first out |
| SoloRuns.SoloMatch | internal/matching/service.go:115-213 | The atomic steps of a Match call run alone on a coherent repository lock exactly the Idle ones among its candidates, in order; with none nothing changes; it succeeds exactly when no command it sent to Redis failed, whatever group the rider had; then all of them are offered the ride as far as the queue has room, and the group is the one there was or a new one, pending, expiring in 5 seconds; if not, every driver's status, intent and matching time is as before |
| SoloRuns.SoloMatchLocksAndOffers | internal/matching/service.go:115-213 | On any repository: the drivers locked are exactly those tried that were Idle, in their order; with none the call fails and changes nothing; otherwise, without a Redis failure, it succeeds whatever group the rider had; offers are queued, in order and as room allows, only if it succeeds |
| SoloRuns.MatchedLocksAndOffers | internal/matching/service.go:115-213 | The same of the big step |
| SoloRuns.MatchedIsRun | internal/matching/service.go:115-213 | The big step of a Match call equals the run of its atomic steps, on every repository |
| SoloRuns.LocksTheIdle | internal/matching/service.go:115-173 | The candidate loop locks exactly the drivers that are Idle to begin with, though it looks at each only when its turn comes |
| SoloRuns.LockedAreTheIdle | internal/matching/service.go:115-173 | On any repository the candidate loop locks the drivers that are Idle to begin with, in order, and with none changes nothing |
| SoloRuns.RollbackRestores | internal/matching/service.go:185-195 | The rollback loop restores every driver's status, intent and matching time |
| SoloRuns.OffersAsRoomAllows | internal/matching/service.go:201-209 | The enqueue loop queues the offers in order up to the first that finds the queue full |
| SoloRuns.CreateSteps | internal/offer/redis_offer_group_store.go:32-49 | The protocol's three separate creation steps are exactly `Create` |
| SoloRuns.SoloHandler | internal/matching/service.go:251-365 | Run alone on any stores: the answer wins exactly if it accepts, Redis answers, the group is pending or already won by this driver, and the rider has no active ride; then the ride is created and a Matching driver turns Busy, while any other is left alone and an error reported; if it does not win the driver ends Idle without an intent and the rides are as they were; Redis failing is reported; the group is decided exactly if it was pending and the script ran |
| SoloRuns.HandledIsRun | internal/matching/service.go:251-365 | The big step of the handler equals the run of its atomic steps |
| SoloRuns.HandledSettles | internal/matching/service.go:251-365 | The same outcome for the big step |
| MatchService.Service.Match | internal/matching/service.go:69-214 | The drivers it tries are the three nearest, or all, of those indexed, Idle in their snapshot, within K rings and MaxDist, nearest first; the ones it locks are exactly those of them Idle in the repository, in that order; without a Redis failure and with somebody locked it succeeds and queues the offers as room allows; the stores are as the big step leaves them, and on a coherent repository it fans out or rolls back as above; the three errors and when |
| MatchService.Service.Rank | internal/matching/service.go:81-106 | The ranked list: exactly the candidates in range, each driver once, nearest first |
| MatchService.Service.NearestAreClosest | internal/matching/service.go:104-117 | The list handed to the lock loop has exactly min(3, number in reach) drivers, in order of distance, and nobody in reach left out is nearer than one of them |
| MatchService.Service.TryLock | internal/matching/service.go:117-159 | One candidate is locked exactly when the repository has it Idle |
| MatchService.Service.AttachOrFree | internal/matching/service.go:146-157 | The intent is attached exactly to a Matching driver; otherwise the driver is let go |
| MatchService.Service.LockEach | internal/matching/service.go:113-173 | The candidate loop computes the repository, the locked list and the number of steps of the specification |
| MatchService.Service.LockAndOffer | internal/matching/service.go:113-213 | From the candidates to the end: exactly the big step |
| MatchService.Service.Offer | internal/matching/service.go:178-213 | From group creation to the end: offers enqueued, or rollback |
| MatchService.Service.RollBack | internal/matching/service.go:187-193 | The rollback loop |
| MatchService.Service.EnqueueEach | internal/matching/service.go:201-209 | The enqueue loop; a full queue is only logged |
| MatchService.Service.HandleDriverResponse | internal/matching/service.go:251-365 | The handler does to the stores exactly the big step, which is spelled out as for SoloHandler, and reports an error exactly when its worker is to retry |
| MatchService.Service.Finalize | internal/matching/service.go:314-364 | From a won arbitration to the end, also when the finalizer fails: then the driver is released, no ride changes, and the error is reported |
| MatchService.OfferWorker.Deliver | internal/events/async_dispatcher.go:81-119 | One round of a worker: receive, handle, and after an error one retry if fewer than two attempts are used up and there is room; the stores and the queue afterwards |
| SoloRuns.DeliveryIsRun | internal/events/async_dispatcher.go:81-119 | The atomic steps of a worker from receiving an offer to waiting again add up to exactly that round |
| MatchService.ReorderedIsDistinct | internal/matching/service.go:104-106 | Sorting keeps the candidates' ids distinct |
| Quadtree.QueryRefinesLinearScan | qtree/qtree.go:92-138 | After any insertions into a fresh tree, range search returns, as a multiset, the linear scan of the points accepted |
| Quadtree.HistoryCounts | qtree/qtree.go:92-138 | After any insertions into a fresh tree search finds a point as often as it was inserted if closed root and closed range have it, and never otherwise |
| Quadtree.BorderPointsAreKept | qtree/qtree.go:92-138 | A point on any border of a fresh tree is accepted, and a search whose border passes through it finds it |
| Quadtree.QueryCounts | qtree/qtree.go:121-138 | In any well-formed tree each point comes out as often as it is stored if the range contains it, and never otherwise: pruning loses nothing |
| Quadtree.QueryFindsClosePoints | qtree/qtree.go:121-138 | Search finds each stored point as often as it is stored if it is that close to the range's centre, and never otherwise |
| Quadtree.InsertIsExact | qtree/qtree.go:92-119 | Insertion succeeds exactly on points in the root's boundary; it then adds the point once despite overlapping quadrants; otherwise the whole tree is unchanged; the shape invariant is kept |
| Quadtree.InsertAcceptsClosePoints | qtree/qtree.go:92-119 | In any well-formed tree insertion succeeds exactly on points at most the root's half extents away from its centre |
| Quadtree.InsertTakesFirstTurn | qtree/qtree.go:113-117 | An overflowing point goes to the first quadrant, in the order tried, that contains it, and no other changes |
| Quadtree.BuiltHolds | qtree/qtree.go:92-119 | After any insertions the tree is well formed and holds exactly the points that were within its boundary |
| Quadtree.QuartersCoverExactly | qtree/qtree.go:63-88 | The four closed quadrants together contain exactly what their parent contains |
| Quadtree.ContainsIsCloseness | qtree/qtree.go:28-33 | A rectangle contains exactly the points at most its half extents away from its centre, borders included |
| Quadtree.CornersAreContained | qtree/qtree.go:28-33 | Its four corners belong to it |
| Quadtree.ContainsIsIntersectionWithPoint | qtree/qtree.go:28-40 | Containing a point is intersecting the rectangle without extent at that point |
| Quadtree.IntersectsIffSharedPoint | qtree/qtree.go:35-40 | Rectangles intersect if and only if they share a point, be it on their borders only |
| Quadtree.QuartersAreSides | qtree/qtree.go:63-88 | Each quarter is the part of its parent on its side of the centre lines, the lines included |
| Quadtree.QuartersHaveDisjointInteriors | qtree/qtree.go:63-88 | They overlap in nothing but their borders |
| Quadtree.SharedPointMeansIntersection | qtree/qtree.go:28-40 | Rectangles that share a point intersect, which makes pruning safe |
| Quadtree.BuiltSizeBounds | qtree/qtree.go:92-119 | After any insertions there are 1 + 4 x divided nodes, and divided nodes x capacity is at most the number of points accepted |
| Quadtree.DivisionsPaidFor | qtree/qtree.go:103-111 | Every divided node is paid for by a full one |
| Quadtree.NodesInside | qtree/qtree.go:63-88 | Every node is well formed and lies inside the root |
| Quadtree.DepthDividesExtents | qtree/qtree.go:63-88 | A node at depth n has the root's half extents divided by 2^n |
| Quadtree.ReturnsIffThereIsRoom | qtree/qtree.go:92-117 | In any tree that insertions can lead to, an insertion comes back, with the answer of `Insert`, if and only if the capacity is positive or the point is outside |
| Quadtree.WithinIsInsert | qtree/qtree.go:92-117 | On a well-formed tree the depth-bounded run answers what `Insert` answers, for every depth above the height |
| QtreeHeap.Qtree.Insert | qtree/qtree.go:92-119 | Insertion in place does to the heap exactly what `Quadtree.Insert` does to the tree it stands for, and answers true exactly on points at most the half extents away from the centre |
| QtreeHeap.Qtree.Subdivide | qtree/qtree.go:63-90 | Four fresh, separate, empty children become the quarters; the points stay |
| QtreeHeap.Qtree.Query | qtree/qtree.go:121-138 | Appends to what was found so far, keeping it as a prefix, exactly `Quadtree.Query` of the tree: every stored point in the closed range as often as it is stored, and nothing else |
| SpatialIndex.ReplayRefinesMap | internal/spatial/h3_index.go:51-135 | After any sequence of updates, removals and inserts of new drivers the two maps are inverse, together they are the plain map the sequence builds, and each snapshot sits in the cell of its location |
| SpatialIndex.UpdateRefines | internal/spatial/h3_index.go:72-103 | An update keeps the maps inverse and is one assignment to the plain map, whether the driver is new, stays or moves |
| SpatialIndex.RemoveRefines | internal/spatial/h3_index.go:118-135 | A removal keeps them inverse and removes one key |
| SpatialIndex.InsertRefinesIffNewOrUnmoved | internal/spatial/h3_index.go:51-70 | An insert keeps them inverse if and only if the driver is new to the index or stays in its cell |
| SpatialIndex.LineIsGridOk | internal/spatial/h3_index.go:144-148 | The assumption on disks and distances can be met: cells on a line do |
| SpatialIndex.NobodyNearerIsLeftOut | internal/spatial/h3_index.go:276-298 | From the contract of the searches: no eligible driver left out is in a nearer ring than any returned |
| SpatialIndex.AsManyAsPossible | internal/spatial/h3_index.go:276-298 | From the same contract: as many drivers as there are within reach, up to the target |
| SpatialIndex.SweepNextRing | internal/spatial/h3_index.go:276-297 | A ring swept completely leaves the search ready for the next |
| H3IndexObject.H3Index.Insert | internal/spatial/h3_index.go:51-70 | Fails exactly when the location has no cell, changing nothing; otherwise files the snapshot under its id in that cell |
| H3IndexObject.H3Index.Update | internal/spatial/h3_index.go:72-103 | A location without a cell changes nothing; otherwise the plain map and the homes are updated at that id, and the index stays valid |
| H3IndexObject.H3Index.Remove | internal/spatial/h3_index.go:118-135 | The whole new state, emptied cells dropped, and the index stays valid |
| H3IndexObject.H3Index.Nearby | internal/spatial/h3_index.go:137-167 | Exactly the Idle snapshots within K rings, each once; nothing for a negative K |
| H3IndexObject.H3Index.NearbyProgressive | internal/spatial/h3_index.go:169-197 | Distinct ids, nearest rings first, no ring skipped or left incomplete before a farther one, at most the target, and all there are within maxRings if fewer |
| H3IndexObject.H3Index.NearbyAdaptive | internal/spatial/h3_index.go:258-299 | The same for Idle drivers within 5 rings if fewer than 5 drivers are indexed in the origin's cell, 3 if fewer than 15, 2 if fewer than 50, and 1 otherwise |
| H3IndexObject.DenserMeansNarrower | internal/spatial/h3_index.go:243-255 | A denser origin never makes the search wider, and makes it narrower exactly across 5, 15 and 50 drivers |
| Ingestion.RunMirrors | internal/service/driver_ingetion_service.go:26-57 | Any sequential run of locatable updates and evictions keeps the indexed ids equal to the repository's, with the same locations |
| Ingestion.UpdateMirrorsIffLocated | internal/service/driver_ingetion_service.go:42-56 | Where nothing is indexed without a cell, an update keeps ids and locations equal if and only if the new location has a cell or the repository drops the packet |
| Ingestion.EvictionMirrors | internal/service/ttl_eviction.go:24-31 | An eviction keeps it, and keeps exactly the drivers seen within the time to live |
| Ingestion.MirroredCells | internal/spatial/h3_index.go:72-135 | Under the mirror each driver of the repository is filed in the cell of the location the repository has, and nobody else is filed |
| Ingestion.DriverIngestionService.UpdateLocation | internal/service/driver_ingetion_service.go:26-57 | Unless the record is newer than the time read or that time is over two seconds ahead, the record has the reported location, the time read and the time seen, its status, intent and matching time as they were, and the index has its snapshot if the location has a cell; otherwise nothing changes; no other driver is touched |
| Ingestion.TTLEvictionService.RunOnce | internal/service/ttl_eviction.go:24-31 | Repository and index lose exactly the drivers not seen for longer than the time to live; all others are as they were |

## Left out

- `RecoveryService`, `FindStuckMatching`, `TryLockIntent`, `RespondToIntent`: not wired in `cmd/api/main.go`, and they bypass the discipline that the theorems rest on.
- `UpdateRideStatus`, `MemoryRepo.UpdateStatus` and the Postgres repository: rides stay assigned for the reason given above, and SQL is not part of this model.
- Redis client, script loading, error strings and `Remove`: a command is one step that may fail and may have been applied.
- Eviction running beside matching: `Delete` is not a step of the protocol, because the optimistic lock is claimed for runs without eviction; it is part of the sequential model.
- Agreement of the index with the repository under concurrency: the index update is a step of its own and status changes never reach the index.
- ProtocolExclusivity.NoDoubleBooking: holds for runs that never clash; the exact condition for the rides alone is `OneDriverEachIffNeverDoubles`.
- ProtocolExclusivity.AtMostOneHolder: holds for runs that never clash, which is exactly when the ownership invariant holds throughout (`AlwaysExclusiveIffNeverClashes`).
- ProtocolOwnership.RunKeepsOwnership: the special case of `RunKeepsExclusive` for runs that put no offer back.
- ProtocolQuiescence.QuiescentAgreement: claims nothing for runs with expiry, Redis failures, rejections or a full queue, in which a rider may be left without a ride.
- MatchService.Service.HandleDriverResponse: the finalizer runs on a background context, so its error branch (`Finalize`) is never taken, and the protocol has no step for it.
- MatchService.Service.Rank: Go's sort is replaced by one particular sort; the contract fixes no order among equal distances.
- A dispatcher queue of size zero hands over only to a waiting worker in Go; the model treats it as always full.
- IEEE rounding in the quadtree and in distances, H3 internals, the Haversine formula, sleeps, shutdown, logging, HTTP, the viewers, benchmarks and the multi-factor scoring that only the documents describe.
- The quadtree's points are values rather than pointers; the model does not capture that a caller may later change a point through the pointer it was handed.
