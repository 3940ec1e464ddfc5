/** Agreement at rest. When every driver accepts, no group expires, no Redis command fails
    and no enqueue finds the queue full, a run that comes to rest leaves no driver Matching,
    and the ride repository, the driver repository and Redis agree on the winner. */
module ProtocolQuiescence {
  import opened Domain
  import opened DriverRepository
  import opened OfferGroups
  import opened RideRepository
  import opened Dispatcher
  import opened Protocol
  import opened ProtocolOwnership
  import opened ProtocolLeaks
  import opened ProtocolRides

  ghost predicate Smooth(w: World, s: Step)
    requires Enabled(w, s)
  {
    match s
    case ExpireGroup(_) => false
    case MatchStep(m, io) =>
      !io.redisFails && (w.matches[m].pc.Enqueuing? && w.matches[m].pc.left != [] ==> HasRoom(w.queue, w.capacity))
    case WorkerStep(_, io) => !io.redisFails && io.response == Accept
    case _ => true
  }

  ghost predicate SmoothRun(w: World, ss: seq<Step>)
    requires Legal(w, ss)
    decreases |ss|
  {
    ss == [] || (Smooth(w, ss[0]) && SmoothRun(Apply(w, ss[0]), ss[1..]))
  }

  // ---- groups, offers and rides agree ----

  predicate HasGroup(gs: Groups, r: string) {
    r in gs && gs[r].status.Some?
  }

  /** A call that has created or found its rider's group and has offers to enqueue. */
  predicate Offering(c: MatchCall, r: string) {
    c.rider == r && (c.pc.Stamping? || c.pc.Arming? || (c.pc.Enqueuing? && c.pc.left != []))
  }

  predicate Proposing(t: Worker, r: string) {
    (t.Sending? || t.Accepting?) && t.ev.rider == r
  }

  /** Some offer for `r` is still to reach the accept script. */
  ghost predicate Outstanding(w: World, r: string) {
    || (exists m :: 0 <= m < |w.matches| && Offering(w.matches[m], r))
    || (exists i :: 0 <= i < |w.queue| && w.queue[i].rider == r)
    || (exists k :: 0 <= k < |w.workers| && Proposing(w.workers[k], r))
  }

  ghost predicate FinalizingFor(w: World, r: string) {
    exists k :: 0 <= k < |w.workers| && w.workers[k].Finalizing? && w.workers[k].ev.rider == r
  }

  ghost predicate GroupAgrees(w: World, r: string) {
    && HasGroup(w.groups, r)
    && match w.groups[r].status.value
       case Pending => w.groups[r].winner == None && r !in w.rides && Outstanding(w, r)
       case Accepted => w.groups[r].winner.Some? && (r !in w.rides ==> FinalizingFor(w, r))
       case Expired => false
  }

  predicate RideAgrees(w: World, r: string)
    requires r in w.rides
  {
    HasGroup(w.groups, r) && w.groups[r].status == Some(Accepted) && w.groups[r].winner == Some(w.rides[r].driverId)
  }

  predicate CallAgrees(gs: Groups, c: MatchCall) {
    && (c.pc.Creating? || c.pc.Stamping? || c.pc.Arming? ==> c.locked != [])
    && (c.pc.Stamping? || c.pc.Arming? || c.pc.Enqueuing? || c.pc == Done(true) ==> HasGroup(gs, c.rider))
  }

  predicate WorkerAgrees(w: World, t: Worker) {
    && (t.Sending? || t.Accepting? ==> HasGroup(w.groups, t.ev.rider))
    && (t.Finalizing? ==>
          && HasGroup(w.groups, t.ev.rider) && w.groups[t.ev.rider].status == Some(Accepted)
          && w.groups[t.ev.rider].winner == Some(t.ev.driver) && t.ev.rider !in w.rides)
  }

  ghost predicate Agreement(w: World) {
    && (forall r :: r in w.groups ==> GroupAgrees(w, r))
    && (forall r :: r in w.rides ==> RideAgrees(w, r))
    && (forall m :: 0 <= m < |w.matches| ==> CallAgrees(w.groups, w.matches[m]))
    && (forall i :: 0 <= i < |w.queue| ==> HasGroup(w.groups, w.queue[i].rider))
    && (forall k :: 0 <= k < |w.workers| ==> WorkerAgrees(w, w.workers[k]))
  }

  /** A driver that is proposed for a rider whose group is already decided is not the winner. */
  lemma LateAcceptorLoses(w: World, owner: Owners, k: nat)
    requires Exclusive(w, owner) && Agreement(w) && k < |w.workers| && w.workers[k].Accepting?
    requires w.workers[k].ev.rider in w.groups && w.groups[w.workers[k].ev.rider].status == Some(Accepted)
    ensures w.groups[w.workers[k].ev.rider].winner != Some(w.workers[k].ev.driver)
  {
    var ev := w.workers[k].ev;
    assert WorkerAgrees(w, w.workers[k]) && GroupAgrees(w, ev.rider);
    if ev.rider in w.rides {
      assert RideAgrees(w, ev.rider) && RideHeld(w, owner, ev.rider);
    } else {
      var j :| 0 <= j < |w.workers| && w.workers[j].Finalizing? && w.workers[j].ev.rider == ev.rider;
      assert WorkerAgrees(w, w.workers[j]);
    }
  }

  /** Two workers never finalize for one rider. */
  lemma OneFinalizer(w: World, owner: Owners, k: nat, j: nat)
    requires Exclusive(w, owner) && Agreement(w) && k < |w.workers| && j < |w.workers|
    requires w.workers[k].Finalizing? && w.workers[j].Finalizing? && w.workers[k].ev.rider == w.workers[j].ev.rider
    ensures k == j
  {
    assert WorkerAgrees(w, w.workers[k]) && WorkerAgrees(w, w.workers[j]);
  }

  /** Outstanding offers stay outstanding except in the step that takes one to the script. */
  lemma StillOutstanding(w: World, s: Step, r: string)
    requires Enabled(w, s) && Smooth(w, s) && Outstanding(w, r)
    requires s.WorkerStep? ==> !(w.workers[s.k].Accepting? && w.workers[s.k].ev.rider == r)
    requires s.MatchStep? ==> CallAgrees(w.groups, w.matches[s.m])
    ensures Outstanding(Apply(w, s), r)
  {
    var w' := Apply(w, s);
    if m :| 0 <= m < |w.matches| && Offering(w.matches[m], r) {
      if s.MatchStep? && m == s.m && w.matches[m].pc.Enqueuing? {
        assert w'.queue[|w.queue|].rider == r;
      } else {
        assert Offering(w'.matches[m], r);
      }
    } else if i :| 0 <= i < |w.queue| && w.queue[i].rider == r {
      if s.WorkerStep? && w.workers[s.k].Waiting? {
        if i == 0 {
          assert Proposing(w'.workers[s.k], r);
        } else {
          assert w'.queue[i - 1].rider == r;
        }
      } else {
        assert w'.queue[i].rider == r;
      }
    } else {
      var k :| 0 <= k < |w.workers| && Proposing(w.workers[k], r);
      assert Proposing(w'.workers[k], r);
    }
  }

  // -- Match steps --

  /** A call's Redis command keeps every group that has a status as it is, or opens the rider's own. */
  lemma CallStepAgrees(ds: Drivers, gs: Groups, c: MatchCall, io: Io)
    requires CallAgrees(gs, c) && !io.redisFails
    ensures var gs' := MatchGroups(gs, c, io);
            && CallAgrees(gs', MatchAfter(ds, gs, c, io))
            && (forall r :: HasGroup(gs, r) ==> HasGroup(gs', r) && gs'[r].status == gs[r].status && gs'[r].winner == gs[r].winner)
            && (forall r :: r in gs' && r !in gs ==>
                  r == c.rider && gs'[r].status == Some(Pending) && gs'[r].winner == None && Offering(MatchAfter(ds, gs, c, io), r))
  {
  }

  lemma GroupAfterMatchStep(w: World, s: Step, r: string)
    requires Agreement(w) && Enabled(w, s) && Smooth(w, s) && s.MatchStep? && r in Apply(w, s).groups
    ensures GroupAgrees(Apply(w, s), r)
  {
    var w' := Apply(w, s);
    assert CallAgrees(w.groups, w.matches[s.m]);
    CallStepAgrees(w.drivers, w.groups, w.matches[s.m], s.mio);
    assert w'.rides == w.rides && w'.workers == w.workers;
    if r in w.groups {
      assert GroupAgrees(w, r);
      if w.groups[r].status == Some(Pending) {
        StillOutstanding(w, s, r);
      } else if r !in w.rides {
        assert FinalizingFor(w, r) ==> FinalizingFor(w', r);
      }
    } else {
      assert r !in w.rides;
      assert Offering(w'.matches[s.m], r);
    }
  }

  lemma MatchStepAgrees(w: World, s: Step)
    requires Agreement(w) && Enabled(w, s) && Smooth(w, s) && s.MatchStep?
    ensures Agreement(Apply(w, s))
  {
    var w' := Apply(w, s);
    assert CallAgrees(w.groups, w.matches[s.m]);
    CallStepAgrees(w.drivers, w.groups, w.matches[s.m], s.mio);
    assert w'.rides == w.rides && w'.workers == w.workers;
    forall r | r in w'.groups ensures GroupAgrees(w', r) {
      GroupAfterMatchStep(w, s, r);
    }
    forall r | r in w'.rides ensures RideAgrees(w', r) {
      assert RideAgrees(w, r);
    }
    forall m | 0 <= m < |w'.matches| ensures CallAgrees(w'.groups, w'.matches[m]) {
      assert CallAgrees(w.groups, w.matches[m]);
    }
    forall k | 0 <= k < |w'.workers| ensures WorkerAgrees(w', w'.workers[k]) {
      assert WorkerAgrees(w, w.workers[k]);
    }
  }

  // -- worker steps --

  lemma AcceptStepAgrees(w: World, s: Step, owner: Owners)
    requires Exclusive(w, owner) && Agreement(w) && Enabled(w, s) && Smooth(w, s) && s.WorkerStep?
    requires w.workers[s.k].Accepting?
    ensures Agreement(Apply(w, s))
  {
    var w' := Apply(w, s);
    var ev := w.workers[s.k].ev;
    assert WorkerAgrees(w, w.workers[s.k]) && GroupAgrees(w, ev.rider);
    if w.groups[ev.rider].status == Some(Accepted) {
      LateAcceptorLoses(w, owner, s.k);
      assert w'.groups == w.groups;
    }
    forall r | r in w'.groups ensures GroupAgrees(w', r) {
      assert GroupAgrees(w, r);
      if w.groups[r].status == Some(Pending) {
        if r == ev.rider {
          assert w'.workers[s.k].Finalizing? && w'.workers[s.k].ev.rider == r;
        } else {
          StillOutstanding(w, s, r);
        }
      } else if r !in w.rides {
        OtherFinalizersStay(w, s, r);
      }
    }
    forall r | r in w'.rides ensures RideAgrees(w', r) {
      assert RideAgrees(w, r);
    }
    forall m | 0 <= m < |w'.matches| ensures CallAgrees(w'.groups, w'.matches[m]) {
      assert CallAgrees(w.groups, w.matches[m]);
    }
    forall k | 0 <= k < |w'.workers| ensures WorkerAgrees(w', w'.workers[k]) {
      assert WorkerAgrees(w, w.workers[k]);
    }
  }

  lemma OtherFinalizersStay(w: World, s: Step, r: string)
    requires Enabled(w, s) && s.WorkerStep? && FinalizingFor(w, r)
    requires !(w.workers[s.k].Finalizing? && w.workers[s.k].ev.rider == r)
    ensures FinalizingFor(Apply(w, s), r)
  {
    var k :| 0 <= k < |w.workers| && w.workers[k].Finalizing? && w.workers[k].ev.rider == r;
    assert Apply(w, s).workers[k] == w.workers[k];
  }

  lemma FinalizeStepAgrees(w: World, s: Step, owner: Owners)
    requires Exclusive(w, owner) && Agreement(w) && Enabled(w, s) && Smooth(w, s) && s.WorkerStep?
    requires w.workers[s.k].Finalizing?
    ensures Agreement(Apply(w, s))
  {
    var w' := Apply(w, s);
    var ev := w.workers[s.k].ev;
    assert WorkerAgrees(w, w.workers[s.k]);
    forall r | r in w'.groups ensures GroupAgrees(w', r) {
      assert GroupAgrees(w, r);
      if w.groups[r].status == Some(Pending) {
        StillOutstanding(w, s, r);
      } else if r !in w'.rides {
        OtherFinalizersStay(w, s, r);
      }
    }
    forall r | r in w'.rides ensures RideAgrees(w', r) {
      if r in w.rides {
        assert RideAgrees(w, r);
      }
    }
    forall m | 0 <= m < |w'.matches| ensures CallAgrees(w'.groups, w'.matches[m]) {
      assert CallAgrees(w.groups, w.matches[m]);
    }
    forall k | 0 <= k < |w'.workers| ensures WorkerAgrees(w', w'.workers[k]) {
      assert WorkerAgrees(w, w.workers[k]);
      if k != s.k && w.workers[k].Finalizing? && w.workers[k].ev.rider == ev.rider {
        OneFinalizer(w, owner, k, s.k);
      }
    }
  }

  lemma OtherWorkerStepAgrees(w: World, s: Step, owner: Owners)
    requires Exclusive(w, owner) && Agreement(w) && Enabled(w, s) && Smooth(w, s) && s.WorkerStep?
    requires !w.workers[s.k].Accepting? && !w.workers[s.k].Finalizing? && Calm(w)
    ensures Agreement(Apply(w, s))
  {
    var w' := Apply(w, s);
    assert w'.groups == w.groups && w'.rides == w.rides && w'.matches == w.matches;
    forall r | r in w'.groups ensures GroupAgrees(w', r) {
      assert GroupAgrees(w, r);
      if w.groups[r].status == Some(Pending) {
        StillOutstanding(w, s, r);
      } else if r !in w.rides {
        OtherFinalizersStay(w, s, r);
      }
    }
    forall r | r in w'.rides ensures RideAgrees(w', r) {
      assert RideAgrees(w, r);
    }
    forall k | 0 <= k < |w'.workers| ensures WorkerAgrees(w', w'.workers[k]) {
      assert WorkerAgrees(w, w.workers[k]);
    }
  }

  lemma OutsideStepAgrees(w: World, s: Step)
    requires Agreement(w) && Enabled(w, s) && Smooth(w, s) && !s.MatchStep? && !s.WorkerStep?
    ensures Agreement(Apply(w, s))
  {
    var w' := Apply(w, s);
    forall r | r in w'.groups ensures GroupAgrees(w', r) {
      assert GroupAgrees(w, r);
      if w.groups[r].status == Some(Pending) {
        StillOutstanding(w, s, r);
      }
    }
    forall r | r in w'.rides ensures RideAgrees(w', r) {
      assert RideAgrees(w, r);
    }
    forall k | 0 <= k < |w'.workers| ensures WorkerAgrees(w', w'.workers[k]) {
      assert WorkerAgrees(w, w.workers[k]);
    }
  }

  lemma StepAgrees(w: World, s: Step, owner: Owners)
    requires Exclusive(w, owner) && Agreement(w) && Calm(w) && Enabled(w, s) && Smooth(w, s)
    ensures Agreement(Apply(w, s))
  {
    if s.MatchStep? {
      MatchStepAgrees(w, s);
    } else if !s.WorkerStep? {
      OutsideStepAgrees(w, s);
    } else if w.workers[s.k].Accepting? {
      AcceptStepAgrees(w, s, owner);
    } else if w.workers[s.k].Finalizing? {
      FinalizeStepAgrees(w, s, owner);
    } else {
      OtherWorkerStepAgrees(w, s, owner);
    }
  }

  lemma {:induction false} RunAgrees(w: World, ss: seq<Step>, owner: Owners)
    requires Exclusive(w, owner) && LeaksOnly(w, owner, {}) && Agreement(w) && Calm(w)
    requires Legal(w, ss) && SmoothRun(w, ss)
    ensures Agreement(Exec(w, ss)) && Exclusive(Exec(w, ss), OwnersAfter(w, ss, owner))
    ensures LeaksOnly(Exec(w, ss), OwnersAfter(w, ss, owner), {})
    decreases |ss|
  {
    if ss == [] {
    } else {
      StepAgrees(w, ss[0], owner);
      StepKeepsCalm(w, ss[0], owner);
      StepKeepsOwnership(w, ss[0], owner);
      StepLeaksOnlyDrops(w, ss[0], owner, {});
      RunAgrees(Apply(w, ss[0]), ss[1..], OwnerAfter(w, ss[0], owner));
    }
  }

  // ---- the theorem ----

  /** No driver is Matching; every rider whose Match succeeded has a ride; each ride's driver is Busy,
      is the one that `GetWinner` names, and has no other ride; each Busy driver has a ride. */
  ghost predicate StoresAgree(w: World) {
    && (forall d :: d in w.drivers ==> w.drivers[d].driver.status != Matching)
    && (forall m :: 0 <= m < |w.matches| && w.matches[m].pc == Done(true) ==> w.matches[m].rider in w.rides)
    && (forall r :: r in w.rides ==>
          && w.rides[r].riderId == r
          && w.rides[r].driverId in w.drivers && w.drivers[w.rides[r].driverId].driver.status == Busy
          && Winner(w.groups, r) == Some(w.rides[r].driverId))
    && OneDriverEach(w.rides)
    && (forall d :: d in w.drivers && w.drivers[d].driver.status == Busy ==> RideNames(w.rides, d))
  }

  lemma RidesAgreeAtRest(w: World, owner: Owners, r: string)
    requires Exclusive(w, owner) && LeaksOnly(w, owner, {}) && Agreement(w) && AtRest(w) && r in w.rides
    ensures w.rides[r].riderId == r && w.rides[r].driverId in w.drivers
    ensures w.drivers[w.rides[r].driverId].driver.status == Busy && Winner(w.groups, r) == Some(w.rides[r].driverId)
  {
    assert RideAgrees(w, r) && RideHeld(w, owner, r);
  }

  lemma RestAgrees(w: World, owner: Owners)
    requires Exclusive(w, owner) && LeaksOnly(w, owner, {}) && Agreement(w) && RidesOk(w) && AtRest(w)
    ensures StoresAgree(w)
  {
    forall d | d in w.drivers ensures w.drivers[d].driver.status != Matching {
      RestLeavesNoMatching(w, owner, d);
    }
    forall m | 0 <= m < |w.matches| && w.matches[m].pc == Done(true) ensures w.matches[m].rider in w.rides {
      assert CallAgrees(w.groups, w.matches[m]);
      assert GroupAgrees(w, w.matches[m].rider);
    }
    forall r | r in w.rides
      ensures w.rides[r].riderId == r && w.rides[r].driverId in w.drivers
      ensures w.drivers[w.rides[r].driverId].driver.status == Busy && Winner(w.groups, r) == Some(w.rides[r].driverId)
    {
      RidesAgreeAtRest(w, owner, r);
    }
  }

  /** Whatever the interleaving, a smooth run that comes to rest leaves the stores in agreement. */
  lemma QuiescentAgreement(w: World, ss: seq<Step>)
    requires Init(w) && Legal(w, ss) && SmoothRun(w, ss) && AtRest(Exec(w, ss))
    ensures StoresAgree(Exec(w, ss))
  {
    InitIsExclusive(w);
    RunAgrees(w, ss, map[]);
    RunKeepsRidesOk(w, ss);
    RestAgrees(Exec(w, ss), OwnersAfter(w, ss, map[]));
  }
}
