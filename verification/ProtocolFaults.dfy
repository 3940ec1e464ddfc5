/** Runs of the protocol that go wrong, step by step: one transport error of the accept call books one
    driver for two riders; a full queue, without any fault, strands a driver for good; an expired group crowns two. */
module ProtocolFaults {
  import opened Domain
  import opened DriverRepository
  import opened OfferGroups
  import opened Dispatcher
  import opened Protocol
  import opened ProtocolOwnership
  import opened ProtocolLeaks

  lemma {:induction false} Extend(w: World, ss: seq<Step>, s: Step)
    requires Legal(w, ss) && Enabled(Exec(w, ss), s)
    ensures Legal(w, ss + [s]) && Exec(w, ss + [s]) == Apply(Exec(w, ss), s)
    decreases |ss|
  {
    if ss == [] {
      assert [s][1..] == [];
      assert ss + [s] == [s];
      assert Legal(Apply(w, s), []);
    } else {
      assert (ss + [s])[0] == ss[0] && (ss + [s])[1..] == ss[1..] + [s];
      Extend(Apply(w, ss[0]), ss[1..], s);
    }
  }

  function Faults(ss: seq<Step>): nat {
    if ss == [] then 0 else Faults(ss[..|ss| - 1]) + (if AcceptFault(ss[|ss| - 1]) then 1 else 0)
  }

  /** A run so far: from `w`, legal, with `n` accept faults, having reached `at`. */
  ghost predicate Reaches(w: World, ss: seq<Step>, n: nat, at: World) {
    Legal(w, ss) && Exec(w, ss) == at && Faults(ss) == n
  }

  lemma Advance(w: World, ss: seq<Step>, n: nat, at: World, s: Step) returns (ss': seq<Step>)
    requires Reaches(w, ss, n, at) && Enabled(at, s)
    ensures Reaches(w, ss', n + (if AcceptFault(s) then 1 else 0), Apply(at, s))
  {
    Extend(w, ss, s);
    ss' := ss + [s];
    assert ss'[..|ss'| - 1] == ss;
  }

  lemma {:induction false} FaultlessHasNoFault(ss: seq<Step>)
    requires Faults(ss) == 0
    ensures NoAcceptFault(ss)
  {
    if ss == [] {
    } else {
      var init, last := ss[..|ss| - 1], ss[|ss| - 1];
      assert ss == init + [last];
      FaultlessHasNoFault(init);
    }
  }

  // ---- the scene: Idle drivers and one worker ----

  const D := "driver"
  const E := "another driver"
  const R1 := "rider-1"
  const R2 := "rider-2"
  const HERE := Location(12.0, 77.0)

  /** A step without faults: the clock moves by two. */
  function Tick(w: World): Io {
    Io(w.clock + 1, w.clock + 2, false, false, Accept, "ride")
  }

  function Start(ids: set<string>, capacity: nat): World {
    World(0, map id | id in ids :: Entry(Driver(id, HERE, Idle, 0, None, None), 0), map[], map[], [], capacity, [], [Waiting], [])
  }

  /** One more fault-free step of call m. */
  lemma CallGoesOn(w: World, ss: seq<Step>, n: nat, at: World, m: nat) returns (ss': seq<Step>, end: World)
    requires Reaches(w, ss, n, at) && m < |at.matches| && !at.matches[m].pc.Done?
    ensures Reaches(w, ss', n, end) && end == MatchNext(at.(clock := Tick(at).later), m, Tick(at))
  {
    ss' := Advance(w, ss, n, at, MatchStep(m, Tick(at)));
    end := Apply(at, MatchStep(m, Tick(at)));
  }

  /** One more fault-free step of the worker. */
  lemma WorkerGoesOn(w: World, ss: seq<Step>, n: nat, at: World) returns (ss': seq<Step>, end: World)
    requires Reaches(w, ss, n, at) && |at.workers| > 0 && (at.workers[0].Waiting? ==> at.queue != [])
    ensures Reaches(w, ss', n, end) && end == WorkerNext(at.(clock := Tick(at).later), 0, Tick(at))
  {
    ss' := Advance(w, ss, n, at, WorkerStep(0, Tick(at)));
    end := Apply(at, WorkerStep(0, Tick(at)));
  }

  /** A candidate that is Idle is locked. */
  lemma LockNext(w: World, ss: seq<Step>, n: nat, at: World, m: nat) returns (ss': seq<Step>, end: World)
    requires Reaches(w, ss, n, at)
    requires m < |at.matches| && at.matches[m].pc.Checking? && at.matches[m].pc.todo != []
    requires var d := at.matches[m].pc.todo[0]; d in at.drivers && at.drivers[d].driver.status == Idle
    ensures Reaches(w, ss', n, end)
    ensures var c := at.matches[m];
            var d := c.pc.todo[0];
            && end == at.(clock := end.clock, drivers := end.drivers, matches := at.matches[m := MatchCall(c.rider, c.locked + [d], Checking(c.pc.todo[1..]))])
            && end.drivers.Keys == at.drivers.Keys && end.drivers[d].driver.status == Matching
            && forall x :: x in at.drivers && x != d ==> end.drivers[x] == at.drivers[x]
  {
    var c := at.matches[m];
    var d, rest := c.pc.todo[0], c.pc.todo[1..];
    ss', end := CallGoesOn(w, ss, n, at, m);
    assert end.matches[m] == c.(pc := MatchPc.Locking(d, rest));
    ss', end := CallGoesOn(w, ss', n, end, m);
    assert end.matches[m] == c.(pc := Intending(d, rest));
    ss', end := CallGoesOn(w, ss', n, end, m);
    assert end.matches[m] == MatchCall(c.rider, c.locked + [d], Checking(rest));
  }

  /** Then the group is opened. */
  lemma OpenGroup(w: World, ss: seq<Step>, n: nat, at: World, m: nat) returns (ss': seq<Step>, end: World)
    requires Reaches(w, ss, n, at)
    requires m < |at.matches| && at.matches[m].pc == Checking([]) && at.matches[m].locked != [] && at.matches[m].rider !in at.groups
    ensures Reaches(w, ss', n, end)
    ensures var c := at.matches[m];
            && end == at.(clock := end.clock, groups := end.groups, matches := at.matches[m := c.(pc := Enqueuing(c.locked))])
            && end.groups.Keys == at.groups.Keys + {c.rider} && end.groups[c.rider].status == Some(Pending)
            && forall x :: x in at.groups ==> end.groups[x] == at.groups[x]
  {
    var c := at.matches[m];
    ss', end := CallGoesOn(w, ss, n, at, m);
    assert end.matches[m] == c.(pc := Creating);
    ss', end := CallGoesOn(w, ss', n, end, m);
    assert end.matches[m] == c.(pc := Stamping);
    ss', end := ArmGroup(w, ss', n, end, m);
  }

  lemma ArmGroup(w: World, ss: seq<Step>, n: nat, at: World, m: nat) returns (ss': seq<Step>, end: World)
    requires Reaches(w, ss, n, at)
    requires m < |at.matches| && at.matches[m].pc.Stamping? && at.matches[m].rider in at.groups
    ensures Reaches(w, ss', n, end)
    ensures var c := at.matches[m];
            && end == at.(clock := end.clock, groups := end.groups, matches := at.matches[m := c.(pc := Enqueuing(c.locked))])
            && end.groups.Keys == at.groups.Keys && end.groups[c.rider].status == at.groups[c.rider].status
            && forall x :: x in at.groups && x != c.rider ==> end.groups[x] == at.groups[x]
  {
    var c := at.matches[m];
    ss', end := CallGoesOn(w, ss, n, at, m);
    assert end.matches[m] == c.(pc := Arming);
    ss', end := CallGoesOn(w, ss', n, end, m);
  }

  /** An offer for which there is room is queued. */
  lemma EnqueueNext(w: World, ss: seq<Step>, n: nat, at: World, m: nat) returns (ss': seq<Step>, end: World)
    requires Reaches(w, ss, n, at) && m < |at.matches| && at.matches[m].pc.Enqueuing? && at.matches[m].pc.left != []
    requires HasRoom(at.queue, at.capacity)
    ensures Reaches(w, ss', n, end)
    ensures var c := at.matches[m];
            end == at.(clock := end.clock, queue := at.queue + [OfferEvent(c.pc.left[0], c.rider, 0)],
                       matches := at.matches[m := c.(pc := Enqueuing(c.pc.left[1..]))])
  {
    ss', end := CallGoesOn(w, ss, n, at, m);
  }

  /** A Match call with one candidate, Idle, locks it, opens the rider's group and enqueues the offer. */
  lemma MatchAlone(w: World, ss: seq<Step>, n: nat, at: World, r: string, d: string) returns (ss': seq<Step>, end: World)
    requires Reaches(w, ss, n, at)
    requires d in at.drivers && at.drivers[d].driver.status == Idle && r !in at.groups && |at.queue| < at.capacity
    ensures Reaches(w, ss', n, end)
    ensures end.queue == at.queue + [OfferEvent(d, r, 0)] && end.workers == at.workers && end.rides == at.rides
    ensures end.capacity == at.capacity
    ensures end.groups.Keys == at.groups.Keys + {r} && end.groups[r].status == Some(Pending)
    ensures forall x :: x in at.groups ==> end.groups[x] == at.groups[x]
    ensures end.drivers.Keys == at.drivers.Keys && end.drivers[d].driver.status == Matching
    ensures forall x :: x in at.drivers && x != d ==> end.drivers[x] == at.drivers[x]
  {
    var m := |at.matches|;
    ss' := Advance(w, ss, n, at, StartMatch(r, [d]));
    end := Apply(at, StartMatch(r, [d]));
    ss', end := LockNext(w, ss', n, end, m);
    assert [] + [d] == [d] && [d][1..] == [];
    assert end.matches[m] == MatchCall(r, [d], Checking([]));
    ss', end := OpenGroup(w, ss', n, end, m);
    ss', end := EnqueueNext(w, ss', n, end, m);
  }

  /** The worker takes an offer whose accept call fails: the driver goes back to Idle, and the offer
      goes back to the queue. */
  lemma FaultyDelivery(w: World, ss: seq<Step>, n: nat, at: World) returns (ss': seq<Step>, end: World)
    requires Reaches(w, ss, n, at)
    requires at.workers == [Waiting] && |at.queue| == 1 && at.queue[0].driver == D && at.queue[0].attempts == 0 && at.capacity > 0
    requires D in at.drivers && at.drivers[D].driver.status == Matching
    ensures Reaches(w, ss', n + 1, end)
    ensures end == at.(clock := end.clock, drivers := end.drivers, queue := [at.queue[0].(attempts := 1)])
    ensures end.drivers.Keys == at.drivers.Keys && end.drivers[D].driver.status == Idle
  {
    ss', end := AcceptFails(w, ss, n, at);
    ss', end := OfferReturns(w, ss', n + 1, end);
  }

  lemma AcceptFails(w: World, ss: seq<Step>, n: nat, at: World) returns (ss': seq<Step>, end: World)
    requires Reaches(w, ss, n, at)
    requires at.workers == [Waiting] && |at.queue| == 1
    ensures Reaches(w, ss', n + 1, end)
    ensures end == at.(clock := end.clock, queue := [], workers := [Clearing(at.queue[0], true)])
  {
    ss', end := ss, at;
    var ev := at.queue[0];
    ss', end := WorkerGoesOn(w, ss', n, end);
    assert end.workers == [Sending(ev)] && end.queue == [];
    ss', end := WorkerGoesOn(w, ss', n, end);
    assert end.workers == [Accepting(ev)];
    var s3 := WorkerStep(0, Tick(end).(redisFails := true));
    ss' := Advance(w, ss', n, end, s3);
    end := Apply(end, s3);
    assert end.workers == [Clearing(ev, true)];
  }

  lemma OfferReturns(w: World, ss: seq<Step>, n: nat, at: World) returns (ss': seq<Step>, end: World)
    requires Reaches(w, ss, n, at)
    requires |at.workers| == 1 && at.workers[0].Clearing? && at.workers[0].failed && at.queue == [] && at.capacity > 0
    requires at.workers[0].ev.driver == D && at.workers[0].ev.attempts == 0
    requires D in at.drivers && at.drivers[D].driver.status == Matching
    ensures Reaches(w, ss', n, end)
    ensures end == at.(clock := end.clock, drivers := end.drivers, workers := [Waiting], queue := [at.workers[0].ev.(attempts := 1)])
    ensures end.drivers.Keys == at.drivers.Keys && end.drivers[D].driver.status == Idle
  {
    ss', end := ss, at;
    var ev := at.workers[0].ev;
    ss', end := WorkerGoesOn(w, ss', n, end);
    assert end.workers == [Releasing(ev, true)];
    ss', end := WorkerGoesOn(w, ss', n, end);
    assert end.workers == [Retrying(ev)];
    ss', end := WorkerGoesOn(w, ss', n, end);
  }

  /** The worker takes an offer, the driver accepts, the group is still open: the ride is created. */
  lemma WinningDelivery(w: World, ss: seq<Step>, n: nat, at: World) returns (ss': seq<Step>, end: World)
    requires Reaches(w, ss, n, at)
    requires at.workers == [Waiting] && at.queue != []
    requires at.queue[0].rider in at.groups && at.groups[at.queue[0].rider].status == Some(Pending)
    requires at.queue[0].rider !in at.rides
    ensures Reaches(w, ss', n, end)
    ensures end == at.(clock := end.clock, groups := end.groups, rides := end.rides, queue := at.queue[1..], workers := [Committing(at.queue[0])])
    ensures end.groups.Keys == at.groups.Keys && forall r :: r in at.groups && r != at.queue[0].rider ==> end.groups[r] == at.groups[r]
    ensures end.rides.Keys == at.rides.Keys + {at.queue[0].rider} && end.rides[at.queue[0].rider].driverId == at.queue[0].driver
    ensures end.rides[at.queue[0].rider].status == Assigned
    ensures forall r :: r in at.rides ==> end.rides[r] == at.rides[r]
  {
    ss', end := ss, at;
    var ev := at.queue[0];
    ss', end := WorkerGoesOn(w, ss', n, end);
    assert end.workers == [Sending(ev)];
    ss', end := WorkerGoesOn(w, ss', n, end);
    assert end.workers == [Accepting(ev)];
    ss', end := WorkerGoesOn(w, ss', n, end);
    assert end.workers == [Finalizing(ev)];
    ss', end := WorkerGoesOn(w, ss', n, end);
  }

  /** After the fault both riders' offers of the one driver are queued. */
  lemma BothOffersQueued() returns (ss: seq<Step>, at: World)
    ensures Reaches(Start({D}, 10), ss, 1, at)
    ensures at.queue == [OfferEvent(D, R1, 1), OfferEvent(D, R2, 0)] && at.workers == [Waiting] && at.rides == map[]
    ensures R1 in at.groups && at.groups[R1].status == Some(Pending) && R2 in at.groups && at.groups[R2].status == Some(Pending)
    ensures D in at.drivers && at.drivers[D].driver.status == Matching
  {
    var w := Start({D}, 10);
    assert Reaches(w, [], 0, w);
    ss, at := MatchAlone(w, [], 0, w, R1, D);
    ss, at := FaultyDelivery(w, ss, 0, at);
    ss, at := MatchAlone(w, ss, 1, at, R2, D);
  }

  lemma BothRidesCreated() returns (ss: seq<Step>, at: World)
    ensures Reaches(Start({D}, 10), ss, 1, at)
    ensures R1 in at.rides && at.rides[R1].driverId == D && R2 in at.rides && at.rides[R2].driverId == D
  {
    var w := Start({D}, 10);
    ss, at := BothOffersQueued();
    ss, at := WinningDelivery(w, ss, 1, at);
    ss, at := WorkerGoesOn(w, ss, 1, at);
    ss, at := WinningDelivery(w, ss, 1, at);
  }

  /** A single transport error of one accept call lets a run book one driver for two riders: the handler
      releases the driver and reports the error, the dispatcher retries the offer, and by then the driver
      is reserved for somebody else. */
  lemma OneAcceptFaultDoubleBooks()
    ensures exists w, ss :: Init(w) && Legal(w, ss) && Faults(ss) == 1
                            && R1 in Exec(w, ss).rides && R2 in Exec(w, ss).rides
                            && Exec(w, ss).rides[R1].driverId == Exec(w, ss).rides[R2].driverId
  {
    var ss, at := BothRidesCreated();
    assert Init(Start({D}, 10));
  }

  // ---- an expired group ----

  /** An expired group is forgotten, status and winner; no other group and no store notices. */
  lemma ExpiryForgetsOneGroup(w: World, key: string, r: string, d: string)
    ensures var w' := Apply(w, ExpireGroup(key));
            && key !in w'.groups && Decide(w'.groups, key, d) == NotFound
            && (r != key ==> (r in w'.groups <==> r in w.groups) && (r in w.groups ==> w'.groups[r] == w.groups[r]))
            && w'.drivers == w.drivers && w'.rides == w.rides && w'.queue == w.queue && w'.matches == w.matches && w'.workers == w.workers
  {
  }

  /** The rider's first driver has won and turned Busy, and then the group has expired. */
  lemma FirstWinnerThenExpiry() returns (ss: seq<Step>, at: World)
    ensures Reaches(Start({D, E}, 10), ss, 0, at)
    ensures R1 in at.rides && at.rides[R1].driverId == D && at.rides[R1].status == Assigned && R1 !in at.groups
    ensures at.queue == [] && at.workers == [Waiting] && at.capacity == 10
    ensures E in at.drivers && at.drivers[E].driver.status == Idle
  {
    var w := Start({D, E}, 10);
    assert Reaches(w, [], 0, w);
    ss, at := MatchAlone(w, [], 0, w, R1, D);
    ss, at := WinningDelivery(w, ss, 0, at);
    ss, at := WorkerGoesOn(w, ss, 0, at);
    ss := Advance(w, ss, 0, at, ExpireGroup(R1));
    at := Apply(at, ExpireGroup(R1));
  }

  /** Without any fault, once a group has expired the script crowns a second driver for a rider whose ride
      names the first; the ride repository is what stops the second. */
  lemma ExpiryCrownsTwo()
    ensures exists w, ss :: Init(w) && Legal(w, ss) && NoAcceptFault(ss)
                            && R1 in Exec(w, ss).rides && Exec(w, ss).rides[R1].driverId == D
                            && Winner(Exec(w, ss).groups, R1) == Some(E) && Exec(w, ss).workers == [Finalizing(OfferEvent(E, R1, 0))]
  {
    var w := Start({D, E}, 10);
    var ss, at := FirstWinnerThenExpiry();
    ss, at := MatchAlone(w, ss, 0, at, R1, E);
    ss, at := WorkerGoesOn(w, ss, 0, at);
    assert at.workers == [Sending(OfferEvent(E, R1, 0))];
    ss, at := WorkerGoesOn(w, ss, 0, at);
    assert at.workers == [Accepting(OfferEvent(E, R1, 0))];
    ss, at := WorkerGoesOn(w, ss, 0, at);
    FaultlessHasNoFault(ss);
    assert Init(w);
  }

  // ---- a full queue ----

  /** One call, two Idle drivers, room for one offer. */
  lemma FirstOfferFillsQueue() returns (ss: seq<Step>, at: World)
    ensures Reaches(Start({D, E}, 1), ss, 0, at)
    ensures at.matches == [MatchCall(R1, [D, E], Enqueuing([E]))] && at.queue == [OfferEvent(D, R1, 0)] && at.capacity == 1
    ensures at.workers == [Waiting] && at.rides == map[] && R1 in at.groups && at.groups[R1].status == Some(Pending)
    ensures D in at.drivers && at.drivers[D].driver.status == Matching && E in at.drivers && at.drivers[E].driver.status == Matching
  {
    var w := Start({D, E}, 1);
    assert Reaches(w, [], 0, w);
    ss := Advance(w, [], 0, w, StartMatch(R1, [D, E]));
    at := Apply(w, StartMatch(R1, [D, E]));
    ss, at := LockNext(w, ss, 0, at, 0);
    assert [] + [D] == [D] && [D, E][1..] == [E];
    assert at.matches == [MatchCall(R1, [D], Checking([E]))];
    ss, at := LockNext(w, ss, 0, at, 0);
    assert [D] + [E] == [D, E] && [E][1..] == [];
    assert at.matches == [MatchCall(R1, [D, E], Checking([]))];
    ss, at := OpenGroup(w, ss, 0, at, 0);
    ss, at := EnqueueNext(w, ss, 0, at, 0);
    assert [D, E][1..] == [E];
  }

  /** The call succeeds all the same, the first driver is delivered and wins, and everything rests. */
  lemma RestAfterFullQueue() returns (ss: seq<Step>, at: World)
    ensures Reaches(Start({D, E}, 1), ss, 0, at) && AtRest(at)
    ensures at.matches == [MatchCall(R1, [D, E], Done(true))] && E in at.drivers && at.drivers[E].driver.status == Matching
  {
    var w := Start({D, E}, 1);
    ss, at := FirstOfferFillsQueue();
    ss, at := CallGoesOn(w, ss, 0, at, 0);
    assert [E][1..] == [];
    assert at.matches == [MatchCall(R1, [D, E], Enqueuing([]))];
    ss, at := CallGoesOn(w, ss, 0, at, 0);
    assert at.matches == [MatchCall(R1, [D, E], Done(true))];
    ss, at := WinningDelivery(w, ss, 0, at);
    ss, at := WorkerGoesOn(w, ss, 0, at);
  }

  /** A run without any fault reaches a full queue. */
  lemma FullQueueIsReached()
    ensures exists w, ss, s :: Init(w) && Legal(w, ss) && NoAcceptFault(ss) && Enabled(Exec(w, ss), s) && Drops(Exec(w, ss), s)
  {
    var ss, at := FirstOfferFillsQueue();
    FaultlessHasNoFault(ss);
    assert Init(Start({D, E}, 1)) && Enabled(at, MatchStep(0, Tick(at))) && Drops(at, MatchStep(0, Tick(at)));
  }

  /** And one that then comes to rest leaves a driver Matching although its call reported success. */
  lemma FaultlessRunStrandsDriver()
    ensures exists w, ss, d :: Init(w) && Legal(w, ss) && NoAcceptFault(ss) && AtRest(Exec(w, ss))
                               && Exec(w, ss).matches == [MatchCall(R1, [D, E], Done(true))] && d in EverDropped(w, ss)
  {
    var w := Start({D, E}, 1);
    var ss, at := RestAfterFullQueue();
    FaultlessHasNoFault(ss);
    NoAcceptFaultNoRequeue(w, ss);
    MatchingAtRestIffDropped(w, ss, E);
    assert Init(w) && E in EverDropped(w, ss);
  }
}
