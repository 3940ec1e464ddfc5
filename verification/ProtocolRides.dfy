/** What every run keeps about rides, with transport errors and retries allowed: the ride
    comes before the Busy driver, and one rider gets one ride however many drivers win. */
module ProtocolRides {
  import opened Domain
  import opened DriverRepository
  import opened RideRepository
  import opened Protocol
  import opened ProtocolRecords
  import opened Sums

  ghost predicate RideNames(rs: Rides, d: string) {
    exists r :: r in rs && rs[r].driverId == d
  }

  ghost predicate RidesOk(w: World) {
    && (forall r :: r in w.rides ==> w.rides[r].riderId == r && w.rides[r].status == Assigned)
    && (forall k :: 0 <= k < |w.workers| && w.workers[k].Committing? ==>
          w.workers[k].ev.rider in w.rides && w.rides[w.workers[k].ev.rider].driverId == w.workers[k].ev.driver)
    && (forall d :: d in w.drivers && w.drivers[d].driver.status == Busy ==> RideNames(w.rides, d))
  }

  /** No step forgets or rewrites a ride. */
  lemma StepKeepsRides(w: World, s: Step, r: string)
    requires RidesOk(w) && Enabled(w, s) && r in w.rides
    ensures r in Apply(w, s).rides && Apply(w, s).rides[r] == w.rides[r]
  {
  }

  /** A driver turns Busy only in the step that commits its ride. */
  lemma BusyComesFromCommit(w: World, s: Step, d: string)
    requires Records(w) && Enabled(w, s)
    requires d in Apply(w, s).drivers && Apply(w, s).drivers[d].driver.status == Busy
    ensures (d in w.drivers && w.drivers[d].driver.status == Busy)
            || (s.WorkerStep? && w.workers[s.k].Committing? && w.workers[s.k].ev.driver == d)
  {
    if s.IngestStep? {
      IngestStepKeepsRecords(w, s);
    } else if s.MatchStep? || s.WorkerStep? {
      ThreadStepOnRecords(w, s);
    }
  }

  /** A worker about to commit has created the ride that names its driver. */
  lemma CommittersHaveRides(w: World, s: Step, k: nat)
    requires RidesOk(w) && Enabled(w, s) && k < |w.workers| && Apply(w, s).workers[k].Committing?
    ensures var ev := Apply(w, s).workers[k].ev; ev.rider in Apply(w, s).rides && Apply(w, s).rides[ev.rider].driverId == ev.driver
  {
  }

  lemma StepKeepsRidesOk(w: World, s: Step)
    requires Records(w) && RidesOk(w) && Enabled(w, s)
    ensures RidesOk(Apply(w, s))
  {
    var w' := Apply(w, s);
    assert forall r :: r in w.rides ==> r in w'.rides && w'.rides[r] == w.rides[r];
    forall k | 0 <= k < |w'.workers| && w'.workers[k].Committing?
      ensures w'.workers[k].ev.rider in w'.rides && w'.rides[w'.workers[k].ev.rider].driverId == w'.workers[k].ev.driver
    {
      CommittersHaveRides(w, s, k);
    }
    forall d | d in w'.drivers && w'.drivers[d].driver.status == Busy ensures RideNames(w'.rides, d) {
      BusyComesFromCommit(w, s, d);
      if d in w.drivers && w.drivers[d].driver.status == Busy {
        var r :| r in w.rides && w.rides[r].driverId == d;
        assert r in w'.rides && w'.rides[r].driverId == d;
      } else {
        assert w.workers[s.k].ev.rider in w'.rides;
      }
    }
  }

  lemma {:induction false} RunKeepsRidesOk(w: World, ss: seq<Step>)
    requires Records(w) && RidesOk(w) && Legal(w, ss)
    ensures RidesOk(Exec(w, ss))
    decreases |ss|
  {
    if ss == [] {
    } else {
      StepKeepsRecords(w, ss[0]);
      StepKeepsRidesOk(w, ss[0]);
      RunKeepsRidesOk(Apply(w, ss[0]), ss[1..]);
    }
  }

  /** In every reachable world, transport errors and retries included, a Busy driver is named by a ride. */
  lemma BusyImpliesRide(w: World, ss: seq<Step>, d: string)
    requires Init(w) && Legal(w, ss)
    requires d in Exec(w, ss).drivers && Exec(w, ss).drivers[d].driver.status == Busy
    ensures exists r :: r in Exec(w, ss).rides && Exec(w, ss).rides[r].driverId == d
  {
    RunKeepsRidesOk(w, ss);
    assert RideNames(Exec(w, ss).rides, d);
  }

  // ---- two-level arbitration ----

  /** The step in which a handler is told that it created the ride of `r`. */
  function CreatesRideFor(r: string): (World, Step) -> bool {
    (w: World, s: Step) => s.WorkerStep? && s.k < |w.workers| && w.workers[s.k].Finalizing?
              && w.workers[s.k].ev.rider == r && !HasActive(w.rides, r)
  }

  /** The step in which a driver turns Busy for `r`. */
  function TurnsBusyFor(r: string): (World, Step) -> bool {
    (w: World, s: Step) => s.WorkerStep? && s.k < |w.workers| && w.workers[s.k].Committing?
              && w.workers[s.k].ev.rider == r && TransitionAllowed(w.drivers, w.workers[s.k].ev.driver, Busy)
  }

  function CommitsFor(r: string): Worker -> nat {
    (t: Worker) => if t.Committing? && t.ev.rider == r then 1 else 0
  }

  lemma CreationOnce(w: World, s: Step, r: string)
    requires RidesOk(w) && Enabled(w, s)
    ensures (if r in w.rides then 1 else 0) + (if CreatesRideFor(r)(w, s) then 1 else 0) == (if r in Apply(w, s).rides then 1 else 0)
  {
  }

  lemma CommitsBounded(w: World, s: Step, r: string)
    requires RidesOk(w) && Enabled(w, s)
    ensures Sum(Apply(w, s).workers, CommitsFor(r)) + (if TurnsBusyFor(r)(w, s) then 1 else 0)
            <= Sum(w.workers, CommitsFor(r)) + (if CreatesRideFor(r)(w, s) then 1 else 0)
  {
    if s.WorkerStep? {
      SumUpdate(w.workers, s.k, Apply(w, s).workers[s.k], CommitsFor(r));
    }
  }

  lemma {:induction false} ArbitrationOverRun(w: World, ss: seq<Step>, r: string)
    requires Records(w) && RidesOk(w) && Legal(w, ss)
    ensures (if r in w.rides then 1 else 0) + Count(w, ss, CreatesRideFor(r)) == (if r in Exec(w, ss).rides then 1 else 0)
    ensures Count(w, ss, TurnsBusyFor(r)) <= Sum(w.workers, CommitsFor(r)) + Count(w, ss, CreatesRideFor(r))
    decreases |ss|
  {
    if ss == [] {
    } else {
      CreationOnce(w, ss[0], r);
      CommitsBounded(w, ss[0], r);
      StepKeepsRecords(w, ss[0]);
      StepKeepsRidesOk(w, ss[0]);
      ArbitrationOverRun(Apply(w, ss[0]), ss[1..], r);
    }
  }

  /** Two-level arbitration: over a whole run, however often a rider's group expires and is created
      again, one handler at most is told that it created the ride, and one driver at most turns Busy
      for that rider; a ride exists at the end exactly when one handler was told so. */
  lemma OneRideOneBusyDriver(w: World, ss: seq<Step>, r: string)
    requires Init(w) && Legal(w, ss)
    ensures Count(w, ss, TurnsBusyFor(r)) <= Count(w, ss, CreatesRideFor(r)) <= 1
    ensures Count(w, ss, CreatesRideFor(r)) == 1 <==> r in Exec(w, ss).rides
  {
    ArbitrationOverRun(w, ss, r);
    SumZero(w.workers, CommitsFor(r));
  }

  // ---- exactly when a driver is booked twice ----

  /** A handler is about to finalize, for a rider without a ride, a driver that some ride names already. */
  ghost predicate Doubles(w: World, s: Step) {
    && s.WorkerStep? && s.k < |w.workers| && w.workers[s.k].Finalizing?
    && !HasActive(w.rides, w.workers[s.k].ev.rider) && RideNames(w.rides, w.workers[s.k].ev.driver)
  }

  ghost predicate NeverDoubles(w: World, ss: seq<Step>)
    requires Legal(w, ss)
    decreases |ss|
  {
    ss == [] || (!Doubles(w, ss[0]) && NeverDoubles(Apply(w, ss[0]), ss[1..]))
  }

  lemma StepDoublesOrNot(w: World, s: Step)
    requires RidesOk(w) && Enabled(w, s)
    ensures OneDriverEach(Apply(w, s).rides) <==> OneDriverEach(w.rides) && !Doubles(w, s)
  {
    var w' := Apply(w, s);
    assert forall r :: r in w.rides ==> r in w'.rides && w'.rides[r] == w.rides[r];
    if Doubles(w, s) {
      var ev := w.workers[s.k].ev;
      var r :| r in w.rides && w.rides[r].driverId == ev.driver;
      assert r != ev.rider && w'.rides[r].driverId == w'.rides[ev.rider].driverId;
    } else if w'.rides != w.rides {
      assert forall r :: r in w'.rides && r !in w.rides ==> r == w.workers[s.k].ev.rider;
    }
  }

  lemma {:induction false} DoublesOverRun(w: World, ss: seq<Step>)
    requires Records(w) && RidesOk(w) && Legal(w, ss)
    ensures OneDriverEach(Exec(w, ss).rides) <==> OneDriverEach(w.rides) && NeverDoubles(w, ss)
    decreases |ss|
  {
    if ss == [] {
    } else {
      StepDoublesOrNot(w, ss[0]);
      StepKeepsRecords(w, ss[0]);
      StepKeepsRidesOk(w, ss[0]);
      DoublesOverRun(Apply(w, ss[0]), ss[1..]);
    }
  }

  /** Over every run, faults, retries and full queues included: no two rides name one driver at the end
      if and only if no handler finalized a driver that was already named by a ride. */
  lemma OneDriverEachIffNeverDoubles(w: World, ss: seq<Step>)
    requires Init(w) && Legal(w, ss)
    ensures OneDriverEach(Exec(w, ss).rides) <==> NeverDoubles(w, ss)
  {
    DoublesOverRun(w, ss);
  }
}
