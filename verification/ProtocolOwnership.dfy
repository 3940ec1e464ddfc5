/** Who may act on a driver. No lock spans two steps; exclusivity comes from a right that
    passes from a Match call to a queue entry to a worker. `owner` is the witness of that
    right: a map from each held driver to its one holder. */
module ProtocolOwnership {
  import opened Domain
  import opened DriverRepository
  import opened OfferGroups
  import opened RideRepository
  import opened Dispatcher
  import opened Protocol
  import opened ProtocolRecords

  datatype Holder = ByMatch(m: nat) | ByQueue | ByWorker(k: nat)

  type Owners = map<string, Holder>

  /** The drivers a Match call has locked and not yet handed on or released. */
  function Held(c: MatchCall): seq<string> {
    match c.pc
    case Intending(id, _) => c.locked + [id]
    case Unlocking(id, _) => c.locked + [id]
    case Undoing(left) => left
    case Freeing(id, left) => [id] + left
    case Enqueuing(left) => left
    case Done(_) => []
    case _ => c.locked
  }

  lemma DistinctHead(x: string, s: seq<string>)
    requires Distinct([x] + s)
    ensures x !in s && Distinct(s) && forall d :: d in [x] + s <==> d == x || d in s
  {
    var t := [x] + s;
    assert forall i :: 0 <= i < |s| ==> s[i] == t[i + 1];
    assert t[0] == x;
  }

  lemma DistinctLast(s: seq<string>, x: string)
    requires Distinct(s + [x])
    ensures x !in s && Distinct(s) && forall d :: d in s + [x] <==> d == x || d in s
  {
    var t := s + [x];
    assert forall i :: 0 <= i < |s| ==> s[i] == t[i];
    assert t[|s|] == x;
  }

  predicate Holding(t: Worker) {
    !t.Waiting? && !t.Retrying?
  }

  ghost predicate Keeps(ds: Drivers, owner: Owners, d: string, h: Holder, rider: string) {
    && d in owner && owner[d] == h
    && d in ds && ds[d].driver.status == Matching
    && (ds[d].driver.intent.Some? ==> ds[d].driver.intent.value.riderId == rider)
  }

  ghost predicate MatchesOwn(w: World, owner: Owners) {
    forall m :: 0 <= m < |w.matches| ==> CallOwns(w.drivers, owner, m, w.matches[m])
  }

  ghost predicate CallOwns(ds: Drivers, owner: Owners, m: nat, c: MatchCall) {
    Distinct(Held(c)) && forall d :: d in Held(c) ==> Keeps(ds, owner, d, ByMatch(m), c.rider)
  }

  ghost predicate QueueOwns(w: World, owner: Owners) {
    && (forall i :: 0 <= i < |w.queue| ==> Keeps(w.drivers, owner, w.queue[i].driver, ByQueue, w.queue[i].rider))
    && forall i, j :: 0 <= i < j < |w.queue| ==> w.queue[i].driver != w.queue[j].driver
  }

  ghost predicate WorkersOwn(w: World, owner: Owners) {
    forall k :: 0 <= k < |w.workers| ==>
      Holding(w.workers[k]) ==> Keeps(w.drivers, owner, w.workers[k].ev.driver, ByWorker(k), w.workers[k].ev.rider)
  }

  ghost predicate OwnersMatching(w: World, owner: Owners) {
    forall d :: d in owner ==> d in w.drivers && w.drivers[d].driver.status == Matching
  }

  /** The inductive form of "no double booking": a ride's driver is Busy, or it is Matching and
      held by the very worker that has just created that ride. */
  ghost predicate RideHeld(w: World, owner: Owners, r: string) {
    && r in w.rides && w.rides[r].riderId == r && w.rides[r].status == Assigned
    && var d := w.rides[r].driverId;
       && d in w.drivers
       && (w.drivers[d].driver.status != Busy ==>
             && d in owner && owner[d].ByWorker? && owner[d].k < |w.workers|
             && w.workers[owner[d].k].Committing?
             && w.workers[owner[d].k].ev.rider == r && w.workers[owner[d].k].ev.driver == d)
  }

  ghost predicate RidesOwn(w: World, owner: Owners) {
    && (forall r :: r in w.rides ==> RideHeld(w, owner, r))
    && OneDriverEach(w.rides)
  }

  ghost predicate Exclusive(w: World, owner: Owners) {
    && Records(w)
    && MatchesOwn(w, owner) && QueueOwns(w, owner) && WorkersOwn(w, owner)
    && OwnersMatching(w, owner) && RidesOwn(w, owner)
  }

  /** What a call holds after a step: one driver more when it locks, one less when it hands on or releases. */
  lemma HeldAfter(ds: Drivers, gs: Groups, c: MatchCall, io: Io)
    ensures Held(MatchAfter(ds, gs, c, io)) ==
            match c.pc
            case Locking(id, _) => if TransitionAllowed(ds, id, Matching) then c.locked + [id] else c.locked
            case Unlocking(_, _) => c.locked
            case Freeing(_, left) => left
            case Enqueuing(left) => if left == [] then [] else left[1..]
            case _ => Held(c)
  {
    if c.pc.Undoing? && c.pc.left != [] {
      assert [c.pc.left[0]] + c.pc.left[1..] == c.pc.left;
    }
  }

  /** How the right to act moves with a step. */
  function OwnerAfter(w: World, s: Step, owner: Owners): Owners
    requires Enabled(w, s)
  {
    if s.MatchStep? then
      match w.matches[s.m].pc
      case Locking(id, _) => if TransitionAllowed(w.drivers, id, Matching) then owner[id := ByMatch(s.m)] else owner
      case Unlocking(id, _) => owner - {id}
      case Freeing(id, _) => owner - {id}
      case Enqueuing(left) =>
        if left == [] then owner
        else if HasRoom(w.queue, w.capacity) then owner[left[0] := ByQueue]
        else owner - {left[0]}
      case _ => owner
    else if s.WorkerStep? then
      match w.workers[s.k]
      case Waiting => owner[w.queue[0].driver := ByWorker(s.k)]
      case Committing(ev) => owner - {ev.driver}
      case Releasing(ev, _) => owner - {ev.driver}
      case Retrying(ev) => if Requeues(w, s) then owner[ev.driver := ByQueue] else owner
      case _ => owner
    else owner
  }

  /** The dispatcher puts an offer back whose handler has already let go of the driver. */
  predicate Requeues(w: World, s: Step) {
    s.WorkerStep? && s.k < |w.workers| && w.workers[s.k].Retrying? && GoesBack(w.queue, w.capacity, w.workers[s.k].ev)
  }

  // ---- frames ----

  /** Drivers and owners agree for everyone but `x`. */
  ghost predicate OnlyAt(ds: Drivers, ds': Drivers, owner: Owners, owner': Owners, x: string) {
    forall d :: d != x ==>
      && (d in ds <==> d in ds') && (d in ds ==> ds'[d] == ds[d])
      && (d in owner <==> d in owner') && (d in owner ==> owner'[d] == owner[d])
  }

  lemma FrameCalls(w: World, w': World, owner: Owners, owner': Owners, x: string, m: nat)
    requires MatchesOwn(w, owner) && OnlyAt(w.drivers, w'.drivers, owner, owner', x)
    requires m < |w.matches| ==> |w'.matches| == |w.matches| && w'.matches == w.matches[m := w'.matches[m]]
    requires m >= |w.matches| ==> w'.matches == w.matches
    requires x in owner ==> !owner[x].ByMatch? || owner[x].m == m
    requires m < |w.matches| ==> CallOwns(w'.drivers, owner', m, w'.matches[m])
    ensures MatchesOwn(w', owner')
  {
    forall n | 0 <= n < |w'.matches| ensures CallOwns(w'.drivers, owner', n, w'.matches[n]) {
      if n != m {
        assert w'.matches[n] == w.matches[n];
        assert CallOwns(w.drivers, owner, n, w.matches[n]);
      }
    }
  }

  lemma FrameQueue(w: World, w': World, owner: Owners, owner': Owners, x: string)
    requires QueueOwns(w, owner) && OnlyAt(w.drivers, w'.drivers, owner, owner', x)
    requires w'.queue == w.queue
    requires x in owner ==> owner[x] != ByQueue
    ensures QueueOwns(w', owner')
  {
  }

  lemma FrameWorkers(w: World, w': World, owner: Owners, owner': Owners, x: string, k: nat)
    requires WorkersOwn(w, owner) && OnlyAt(w.drivers, w'.drivers, owner, owner', x)
    requires k < |w.workers| ==> |w'.workers| == |w.workers| && w'.workers == w.workers[k := w'.workers[k]]
    requires k >= |w.workers| ==> w'.workers == w.workers
    requires x in owner ==> !owner[x].ByWorker? || owner[x].k == k
    requires k < |w.workers| ==>
               Holding(w'.workers[k]) ==> Keeps(w'.drivers, owner', w'.workers[k].ev.driver, ByWorker(k), w'.workers[k].ev.rider)
    ensures WorkersOwn(w', owner')
  {
    forall n | 0 <= n < |w'.workers|
      ensures Holding(w'.workers[n]) ==> Keeps(w'.drivers, owner', w'.workers[n].ev.driver, ByWorker(n), w'.workers[n].ev.rider)
    {
      if n != k {
        assert w'.workers[n] == w.workers[n];
      }
    }
  }

  /** Rides stay as they are while a driver that no ride names is touched. */
  lemma FrameRides(w: World, w': World, owner: Owners, owner': Owners, x: string, k: nat)
    requires RidesOwn(w, owner) && OnlyAt(w.drivers, w'.drivers, owner, owner', x)
    requires w'.rides == w.rides
    requires k < |w.workers| ==> |w'.workers| == |w.workers| && w'.workers == w.workers[k := w'.workers[k]]
                                 && !w.workers[k].Committing?
    requires k >= |w.workers| ==> w'.workers == w.workers
    requires forall r :: r in w.rides ==> w.rides[r].driverId != x
    ensures RidesOwn(w', owner')
  {
    forall r | r in w'.rides ensures RideHeld(w', owner', r) {
      assert RideHeld(w, owner, r);
    }
  }

  /** A Matching driver held by anyone but a committing worker has no ride. */
  lemma NoRideYet(w: World, owner: Owners, x: string)
    requires RidesOwn(w, owner)
    requires x in w.drivers && w.drivers[x].driver.status != Busy
    requires x in owner && owner[x].ByWorker? && owner[x].k < |w.workers| ==> !w.workers[owner[x].k].Committing?
    ensures forall r :: r in w.rides ==> w.rides[r].driverId != x
  {
    forall r | r in w.rides ensures w.rides[r].driverId != x {
      assert RideHeld(w, owner, r);
    }
  }

  // ---- Match steps ----

  /** The last owner clause for any step that rewrites only `x`. */
  lemma OwnersAfterTouch(w: World, w': World, owner: Owners, owner': Owners, x: string)
    requires OwnersMatching(w, owner) && OnlyAt(w.drivers, w'.drivers, owner, owner', x)
    requires x in owner' ==> x in w'.drivers && w'.drivers[x].driver.status == Matching
    ensures OwnersMatching(w', owner')
  {
  }

  /** The driver a Match step may touch: the one it is locking, or one that it holds. */
  lemma TouchedIsHeld(w: World, m: nat, owner: Owners)
    requires MatchesOwn(w, owner) && m < |w.matches|
    ensures var c := w.matches[m];
            && (!c.pc.Locking? && !CallRequest(c).Nothing? ==> CallRequest(c).id in owner && owner[CallRequest(c).id] == ByMatch(m))
            && (c.pc.Enqueuing? && c.pc.left != [] ==> c.pc.left[0] in owner && owner[c.pc.left[0]] == ByMatch(m))
  {
    var c := w.matches[m];
    assert CallOwns(w.drivers, owner, m, c);
    match c.pc {
      case Intending(id, _) => DistinctLast(c.locked, id);
      case Unlocking(id, _) => DistinctLast(c.locked, id);
      case Freeing(id, left) => DistinctHead(id, left);
      case Undoing(left) => assert left != [] ==> left[0] in Held(c);
      case Enqueuing(left) => assert left != [] ==> left[0] in Held(c);
      case _ =>
    }
  }

  lemma MatchStepKeepsOwnership(w: World, s: Step, owner: Owners)
    requires Exclusive(w, owner) && Enabled(w, s) && s.MatchStep?
    ensures Exclusive(Apply(w, s), OwnerAfter(w, s, owner))
  {
    StepKeepsRecords(w, s);
    var c := w.matches[s.m];
    TouchedIsHeld(w, s.m, owner);
    if c.pc.Enqueuing? && c.pc.left != [] {
      EnqueueStep(w, s, owner);
    } else if CallRequest(c).Nothing? || (c.pc.Locking? && !TransitionAllowed(w.drivers, c.pc.id, Matching)) {
      QuietMatchStep(w, s, owner);
    } else {
      MatchTouches(w, s, owner, CallRequest(c).id);
    }
  }

  lemma QuietMatchStep(w: World, s: Step, owner: Owners)
    requires Exclusive(w, owner) && Enabled(w, s) && s.MatchStep?
    requires var c := w.matches[s.m];
             && !(c.pc.Enqueuing? && c.pc.left != [])
             && (CallRequest(c).Nothing? || (c.pc.Locking? && !TransitionAllowed(w.drivers, c.pc.id, Matching)))
    ensures OwnerAfter(w, s, owner) == owner
    ensures MatchesOwn(Apply(w, s), owner) && QueueOwns(Apply(w, s), owner) && WorkersOwn(Apply(w, s), owner)
    ensures OwnersMatching(Apply(w, s), owner) && RidesOwn(Apply(w, s), owner)
  {
    var w' := Apply(w, s);
    HeldAfter(w.drivers, w.groups, w.matches[s.m], s.mio);
    forall n | 0 <= n < |w'.matches| ensures CallOwns(w'.drivers, owner, n, w'.matches[n]) {
      assert CallOwns(w.drivers, owner, n, w.matches[n]);
    }
    forall r | r in w'.rides ensures RideHeld(w', owner, r) {
      assert RideHeld(w, owner, r);
    }
  }

  lemma MatchTouches(w: World, s: Step, owner: Owners, x: string)
    requires Exclusive(w, owner) && Enabled(w, s) && s.MatchStep? && !w.matches[s.m].pc.Enqueuing?
    requires CallRequest(w.matches[s.m]) != Nothing && CallRequest(w.matches[s.m]).id == x
    requires if w.matches[s.m].pc.Locking? then x !in owner && TransitionAllowed(w.drivers, x, Matching) else x in owner && owner[x] == ByMatch(s.m)
    ensures var w', owner' := Apply(w, s), OwnerAfter(w, s, owner);
            && MatchesOwn(w', owner') && QueueOwns(w', owner') && WorkersOwn(w', owner')
            && OwnersMatching(w', owner') && RidesOwn(w', owner')
  {
    var w', owner' := Apply(w, s), OwnerAfter(w, s, owner);
    assert x in w.drivers && w.drivers[x].driver.status != Busy;
    assert x in owner ==> owner[x] == ByMatch(s.m);
    assert OnlyAt(w.drivers, w'.drivers, owner, owner', x);
    CallAfterTouch(w, s, owner, x);
    FrameCalls(w, w', owner, owner', x, s.m);
    FrameQueue(w, w', owner, owner', x);
    FrameWorkers(w, w', owner, owner', x, |w.workers|);
    NoRideYet(w, owner, x);
    FrameRides(w, w', owner, owner', x, |w.workers|);
    OwnersAfterTouch(w, w', owner, owner', x);
  }

  /** A step neither doubles a held driver nor, when it releases one, goes on holding it. */
  lemma HeldStaysDistinct(ds: Drivers, gs: Groups, c: MatchCall, io: Io)
    requires Distinct(Held(c))
    requires c.pc.Locking? ==> c.pc.id !in c.locked
    ensures var c' := MatchAfter(ds, gs, c, io);
            && Distinct(Held(c'))
            && (forall d :: d in Held(c') ==> d in Held(c) || (c.pc.Locking? && d == c.pc.id && TransitionAllowed(ds, d, Matching)))
            && (c.pc.Unlocking? || c.pc.Freeing? ==> c.pc.id !in Held(c'))
  {
    HeldAfter(ds, gs, c, io);
    match c.pc {
      case Unlocking(id, _) => DistinctLast(c.locked, id);
      case Freeing(id, left) => DistinctHead(id, left);
      case _ =>
    }
  }

  lemma CallAfterTouch(w: World, s: Step, owner: Owners, x: string)
    requires Records(w) && MatchesOwn(w, owner) && Enabled(w, s) && s.MatchStep? && !w.matches[s.m].pc.Enqueuing?
    requires CallRequest(w.matches[s.m]) != Nothing && CallRequest(w.matches[s.m]).id == x
    requires if w.matches[s.m].pc.Locking? then x !in owner && TransitionAllowed(w.drivers, x, Matching) else x in owner && owner[x] == ByMatch(s.m)
    requires OwnersMatching(w, owner)
    ensures CallOwns(Apply(w, s).drivers, OwnerAfter(w, s, owner), s.m, Apply(w, s).matches[s.m])
    ensures x in OwnerAfter(w, s, owner) ==> x in Apply(w, s).drivers && Apply(w, s).drivers[x].driver.status == Matching
  {
    var w', owner' := Apply(w, s), OwnerAfter(w, s, owner);
    var c, c' := w.matches[s.m], w'.matches[s.m];
    assert CallOwns(w.drivers, owner, s.m, c);
    HeldStaysDistinct(w.drivers, w.groups, c, s.mio);
    assert Coherent(CoreOf(w.drivers[x].driver));
    forall d | d in Held(c') ensures Keeps(w'.drivers, owner', d, ByMatch(s.m), c.rider) {
      if d != x {
        assert d in Held(c);
      }
    }
  }

  lemma EnqueueStep(w: World, s: Step, owner: Owners)
    requires Exclusive(w, owner) && Enabled(w, s) && s.MatchStep?
    requires w.matches[s.m].pc.Enqueuing? && w.matches[s.m].pc.left != []
    ensures var w', owner' := Apply(w, s), OwnerAfter(w, s, owner);
            && MatchesOwn(w', owner') && QueueOwns(w', owner') && WorkersOwn(w', owner')
            && OwnersMatching(w', owner') && RidesOwn(w', owner')
  {
    var w', owner' := Apply(w, s), OwnerAfter(w, s, owner);
    var c := w.matches[s.m];
    var x := c.pc.left[0];
    assert CallOwns(w.drivers, owner, s.m, c) && x in Held(c);
    assert OnlyAt(w.drivers, w'.drivers, owner, owner', x);
    assert [x] + c.pc.left[1..] == c.pc.left;
    DistinctHead(x, c.pc.left[1..]);
    assert CallOwns(w'.drivers, owner', s.m, w'.matches[s.m]);
    FrameCalls(w, w', owner, owner', x, s.m);
    FrameWorkers(w, w', owner, owner', x, |w.workers|);
    NoRideYet(w, owner, x);
    FrameRides(w, w', owner, owner', x, |w.workers|);
    OwnersAfterTouch(w, w', owner, owner', x);
    FrameQueue(w, w'.(queue := w.queue), owner, owner', x);
  }

  // ---- worker steps ----

  lemma WorkerStepKeepsOwnership(w: World, s: Step, owner: Owners)
    requires Exclusive(w, owner) && Enabled(w, s) && s.WorkerStep? && !Requeues(w, s)
    ensures Exclusive(Apply(w, s), OwnerAfter(w, s, owner))
  {
    StepKeepsRecords(w, s);
    match w.workers[s.k] {
      case Waiting => ReceiveStep(w, s, owner);
      case Sending(_) => QuietWorkerStep(w, s, owner);
      case Accepting(_) => QuietWorkerStep(w, s, owner);
      case Finalizing(_) => FinalizeStep(w, s, owner);
      case Committing(_) => CommitStep(w, s, owner);
      case Clearing(_, _) => ReleaseStep(w, s, owner);
      case Releasing(_, _) => ReleaseStep(w, s, owner);
      case Retrying(_) => QuietWorkerStep(w, s, owner);
    }
  }

  lemma ReceiveStep(w: World, s: Step, owner: Owners)
    requires Exclusive(w, owner) && Enabled(w, s) && s.WorkerStep? && w.workers[s.k].Waiting?
    ensures var w', owner' := Apply(w, s), OwnerAfter(w, s, owner);
            && MatchesOwn(w', owner') && QueueOwns(w', owner') && WorkersOwn(w', owner')
            && OwnersMatching(w', owner') && RidesOwn(w', owner')
  {
    var w', owner' := Apply(w, s), OwnerAfter(w, s, owner);
    var x := w.queue[0].driver;
    assert Keeps(w.drivers, owner, x, ByQueue, w.queue[0].rider);
    assert OnlyAt(w.drivers, w'.drivers, owner, owner', x);
    FrameCalls(w, w', owner, owner', x, |w.matches|);
    FrameWorkers(w, w', owner, owner', x, s.k);
    NoRideYet(w, owner, x);
    FrameRides(w, w', owner, owner', x, s.k);
    OwnersAfterTouch(w, w', owner, owner', x);
    forall i | 0 <= i < |w'.queue| ensures Keeps(w'.drivers, owner', w'.queue[i].driver, ByQueue, w'.queue[i].rider) {
      assert w'.queue[i] == w.queue[i + 1];
      assert w.queue[i + 1].driver != w.queue[0].driver;
    }
  }

  lemma QuietWorkerStep(w: World, s: Step, owner: Owners)
    requires Exclusive(w, owner) && Enabled(w, s) && s.WorkerStep?
    requires w.workers[s.k].Sending? || w.workers[s.k].Accepting? || w.workers[s.k].Retrying?
    requires !Requeues(w, s)
    ensures MatchesOwn(Apply(w, s), owner) && QueueOwns(Apply(w, s), owner) && WorkersOwn(Apply(w, s), owner)
    ensures OwnersMatching(Apply(w, s), owner) && RidesOwn(Apply(w, s), owner)
  {
    var w' := Apply(w, s);
    forall m | 0 <= m < |w'.matches| ensures CallOwns(w'.drivers, owner, m, w'.matches[m]) {
      assert CallOwns(w.drivers, owner, m, w.matches[m]);
    }
    forall r | r in w'.rides ensures RideHeld(w', owner, r) {
      assert RideHeld(w, owner, r);
    }
  }

  lemma FinalizeStep(w: World, s: Step, owner: Owners)
    requires Exclusive(w, owner) && Enabled(w, s) && s.WorkerStep? && w.workers[s.k].Finalizing?
    ensures MatchesOwn(Apply(w, s), owner) && QueueOwns(Apply(w, s), owner) && WorkersOwn(Apply(w, s), owner)
    ensures OwnersMatching(Apply(w, s), owner) && RidesOwn(Apply(w, s), owner)
  {
    var w' := Apply(w, s);
    var ev := w.workers[s.k].ev;
    FrameCalls(w, w', owner, owner, ev.driver, |w.matches|);
    FrameWorkers(w, w', owner, owner, ev.driver, s.k);
    NoRideYet(w, owner, ev.driver);
    forall r | r in w'.rides ensures RideHeld(w', owner, r) {
      if r in w.rides {
        assert RideHeld(w, owner, r);
      }
    }
  }

  lemma CommitStep(w: World, s: Step, owner: Owners)
    requires Exclusive(w, owner) && Enabled(w, s) && s.WorkerStep? && w.workers[s.k].Committing?
    ensures var w', owner' := Apply(w, s), OwnerAfter(w, s, owner);
            && MatchesOwn(w', owner') && QueueOwns(w', owner') && WorkersOwn(w', owner')
            && OwnersMatching(w', owner') && RidesOwn(w', owner')
  {
    var w', owner' := Apply(w, s), OwnerAfter(w, s, owner);
    var x := w.workers[s.k].ev.driver;
    assert OnlyAt(w.drivers, w'.drivers, owner, owner', x);
    FrameCalls(w, w', owner, owner', x, |w.matches|);
    FrameQueue(w, w', owner, owner', x);
    FrameWorkers(w, w', owner, owner', x, s.k);
    OwnersAfterTouch(w, w', owner, owner', x);
    forall r | r in w'.rides ensures RideHeld(w', owner', r) {
      assert RideHeld(w, owner, r);
    }
  }

  lemma ReleaseStep(w: World, s: Step, owner: Owners)
    requires Exclusive(w, owner) && Enabled(w, s) && s.WorkerStep?
    requires w.workers[s.k].Clearing? || w.workers[s.k].Releasing?
    ensures var w', owner' := Apply(w, s), OwnerAfter(w, s, owner);
            && MatchesOwn(w', owner') && QueueOwns(w', owner') && WorkersOwn(w', owner')
            && OwnersMatching(w', owner') && RidesOwn(w', owner')
  {
    var w', owner' := Apply(w, s), OwnerAfter(w, s, owner);
    var x := w.workers[s.k].ev.driver;
    assert OnlyAt(w.drivers, w'.drivers, owner, owner', x);
    FrameCalls(w, w', owner, owner', x, |w.matches|);
    FrameQueue(w, w', owner, owner', x);
    FrameWorkers(w, w', owner, owner', x, s.k);
    NoRideYet(w, owner, x);
    FrameRides(w, w', owner, owner', x, s.k);
    OwnersAfterTouch(w, w', owner, owner', x);
  }

  // ---- the remaining steps, and runs ----

  lemma KeptAlong(ds: Drivers, ds': Drivers, owner: Owners, d: string, h: Holder, rider: string)
    requires SameCores(ds, ds') && Keeps(ds, owner, d, h, rider)
    ensures Keeps(ds', owner, d, h, rider)
  {
    assert CoreOf(ds'[d].driver) == CoreOf(ds[d].driver);
  }

  lemma OutsideStepKeepsRights(w: World, w': World, owner: Owners)
    requires MatchesOwn(w, owner) && QueueOwns(w, owner) && WorkersOwn(w, owner) && SameCores(w.drivers, w'.drivers)
    requires w'.queue == w.queue && w'.workers == w.workers && w.matches <= w'.matches
    requires forall m :: |w.matches| <= m < |w'.matches| ==> Held(w'.matches[m]) == []
    ensures MatchesOwn(w', owner) && QueueOwns(w', owner) && WorkersOwn(w', owner)
  {
    forall m | 0 <= m < |w'.matches| ensures CallOwns(w'.drivers, owner, m, w'.matches[m]) {
      var c := w'.matches[m];
      if m < |w.matches| {
        assert CallOwns(w.drivers, owner, m, c);
        forall d | d in Held(c) ensures Keeps(w'.drivers, owner, d, ByMatch(m), c.rider) {
          KeptAlong(w.drivers, w'.drivers, owner, d, ByMatch(m), c.rider);
        }
      }
    }
    forall i | 0 <= i < |w.queue| ensures Keeps(w'.drivers, owner, w.queue[i].driver, ByQueue, w.queue[i].rider) {
      KeptAlong(w.drivers, w'.drivers, owner, w.queue[i].driver, ByQueue, w.queue[i].rider);
    }
    forall k | 0 <= k < |w.workers| && Holding(w.workers[k])
      ensures Keeps(w'.drivers, owner, w.workers[k].ev.driver, ByWorker(k), w.workers[k].ev.rider)
    {
      KeptAlong(w.drivers, w'.drivers, owner, w.workers[k].ev.driver, ByWorker(k), w.workers[k].ev.rider);
    }
  }

  lemma OutsideStepKeepsRides(w: World, w': World, owner: Owners)
    requires OwnersMatching(w, owner) && RidesOwn(w, owner) && SameCores(w.drivers, w'.drivers)
    requires w'.rides == w.rides && w'.workers == w.workers
    ensures OwnersMatching(w', owner) && RidesOwn(w', owner)
  {
    forall d | d in owner ensures d in w'.drivers && w'.drivers[d].driver.status == Matching {
      assert CoreOf(w'.drivers[d].driver) == CoreOf(w.drivers[d].driver);
    }
    forall r | r in w'.rides ensures RideHeld(w', owner, r) {
      assert RideHeld(w, owner, r);
      assert CoreOf(w'.drivers[w.rides[r].driverId].driver) == CoreOf(w.drivers[w.rides[r].driverId].driver);
    }
  }

  /** Starting calls, location updates and expiring groups move no right. */
  lemma OutsideStepKeepsOwnership(w: World, s: Step, owner: Owners)
    requires Exclusive(w, owner) && Enabled(w, s) && !s.MatchStep? && !s.WorkerStep?
    ensures Exclusive(Apply(w, s), owner)
  {
    StepKeepsRecords(w, s);
    var w' := Apply(w, s);
    if s.IngestStep? {
      IngestStepKeepsRecords(w, s);
    }
    OutsideStepKeepsRights(w, w', owner);
    OutsideStepKeepsRides(w, w', owner);
  }

  lemma StepKeepsOwnership(w: World, s: Step, owner: Owners)
    requires Exclusive(w, owner) && Enabled(w, s) && !Requeues(w, s)
    ensures Exclusive(Apply(w, s), OwnerAfter(w, s, owner))
  {
    if s.MatchStep? {
      MatchStepKeepsOwnership(w, s, owner);
    } else if s.WorkerStep? {
      WorkerStepKeepsOwnership(w, s, owner);
    } else {
      OutsideStepKeepsOwnership(w, s, owner);
    }
  }

  /** No step of the run puts a failed offer back into the queue. */
  ghost predicate NeverRequeues(w: World, ss: seq<Step>)
    requires Legal(w, ss)
    decreases |ss|
  {
    ss == [] || (!Requeues(w, ss[0]) && NeverRequeues(Apply(w, ss[0]), ss[1..]))
  }

  /** The owners at the end of a run. */
  ghost function OwnersAfter(w: World, ss: seq<Step>, owner: Owners): Owners
    requires Legal(w, ss)
    decreases |ss|
  {
    if ss == [] then owner else OwnersAfter(Apply(w, ss[0]), ss[1..], OwnerAfter(w, ss[0], owner))
  }

  lemma {:induction false} RunKeepsOwnership(w: World, ss: seq<Step>, owner: Owners)
    requires Exclusive(w, owner) && Legal(w, ss) && NeverRequeues(w, ss)
    ensures Exclusive(Exec(w, ss), OwnersAfter(w, ss, owner))
    decreases |ss|
  {
    if ss == [] {
    } else {
      StepKeepsOwnership(w, ss[0], owner);
      RunKeepsOwnership(Apply(w, ss[0]), ss[1..], OwnerAfter(w, ss[0], owner));
    }
  }

  lemma InitIsExclusive(w: World)
    requires Init(w)
    ensures Exclusive(w, map[])
  {
  }

  // ---- without transport errors nothing is put back ----

  /** An accept call that never reaches Redis, or whose answer is lost. */
  predicate AcceptFault(s: Step) {
    s.WorkerStep? && s.wio.redisFails
  }

  ghost predicate NoAcceptFault(ss: seq<Step>) {
    forall i :: 0 <= i < |ss| ==> !AcceptFault(ss[i])
  }

  /** No worker is on its way to report an error. */
  ghost predicate Calm(w: World) {
    forall k :: 0 <= k < |w.workers| ==>
      var t := w.workers[k];
      !t.Retrying? && (t.Clearing? ==> !t.failed) && (t.Releasing? ==> !t.failed)
  }

  /** A worker holding its driver always commits: only a faulty accept call makes a handler fail. */
  lemma StepKeepsCalm(w: World, s: Step, owner: Owners)
    requires Exclusive(w, owner) && Calm(w) && Enabled(w, s) && !AcceptFault(s)
    ensures Calm(Apply(w, s)) && !Requeues(w, s)
  {
  }

  lemma {:induction false} FaultlessRunsNeverRequeue(w: World, ss: seq<Step>, owner: Owners)
    requires Exclusive(w, owner) && Calm(w) && Legal(w, ss) && NoAcceptFault(ss)
    ensures NeverRequeues(w, ss)
    decreases |ss|
  {
    if ss == [] {
    } else {
      StepKeepsCalm(w, ss[0], owner);
      StepKeepsOwnership(w, ss[0], owner);
      FaultlessRunsNeverRequeue(Apply(w, ss[0]), ss[1..], OwnerAfter(w, ss[0], owner));
    }
  }

  /** Runs in which every accept call gets its answer are covered by the theorems below. */
  lemma NoAcceptFaultNoRequeue(w: World, ss: seq<Step>)
    requires Init(w) && Legal(w, ss) && NoAcceptFault(ss)
    ensures NeverRequeues(w, ss)
  {
    InitIsExclusive(w);
    FaultlessRunsNeverRequeue(w, ss, map[]);
  }
}
