/** What every run keeps about offers in the dispatcher, with transport errors allowed:
    none is lost or duplicated, each is sent a bounded number of times, and runs end. */
module ProtocolDelivery {
  import opened Domain
  import opened DriverRepository
  import opened OfferGroups
  import opened Dispatcher
  import opened Protocol
  import opened Sums

  /** The queue respects its capacity, and no event in it or with a worker has used up its retries. */
  ghost predicate Bounded(w: World) {
    && |w.queue| <= w.capacity
    && (forall i :: 0 <= i < |w.queue| ==> w.queue[i].attempts < MAX_RETRIES)
    && (forall k :: 0 <= k < |w.workers| && !w.workers[k].Waiting? ==> w.workers[k].ev.attempts < MAX_RETRIES)
  }

  lemma StepKeepsBounded(w: World, s: Step)
    requires Bounded(w) && Enabled(w, s)
    ensures Bounded(Apply(w, s))
  {
  }

  lemma {:induction false} RunKeepsBounded(w: World, ss: seq<Step>)
    requires Bounded(w) && Legal(w, ss)
    ensures Bounded(Exec(w, ss))
    decreases |ss|
  {
    if ss == [] {
    } else {
      StepKeepsBounded(w, ss[0]);
      RunKeepsBounded(Apply(w, ss[0]), ss[1..]);
    }
  }

  /** In every reachable world the queue is within its capacity and a queued event carries at most two attempts. */
  lemma QueueStaysBounded(w: World, ss: seq<Step>, i: nat)
    requires Init(w) && Legal(w, ss)
    ensures |Exec(w, ss).queue| <= w.capacity
    ensures i < |Exec(w, ss).queue| ==> Exec(w, ss).queue[i].attempts <= 2
  {
    RunKeepsBounded(w, ss);
    CapacityIsFixed(w, ss);
  }

  lemma {:induction false} CapacityIsFixed(w: World, ss: seq<Step>)
    requires Legal(w, ss)
    ensures Exec(w, ss).capacity == w.capacity
    decreases |ss|
  {
    if ss == [] {
    } else {
      CapacityIsFixed(Apply(w, ss[0]), ss[1..]);
    }
  }

  // ---- conservation ----

  /** An enqueue that the dispatcher accepted. */
  predicate AcceptedOffer(w: World, s: Step) {
    s.MatchStep? && s.m < |w.matches| && w.matches[s.m].pc.Enqueuing? && w.matches[s.m].pc.left != [] && HasRoom(w.queue, w.capacity)
  }

  /** The sender has returned without an error. */
  predicate Delivered(w: World, s: Step) {
    s.WorkerStep? && s.k < |w.workers|
    && match w.workers[s.k]
       case Committing(ev) => TransitionAllowed(w.drivers, ev.driver, Busy)
       case Releasing(_, failed) => !failed
       case _ => false
  }

  predicate GivenUp(w: World, s: Step) {
    s.WorkerStep? && s.k < |w.workers| && w.workers[s.k].Retrying? && w.workers[s.k].ev.attempts + 1 >= MAX_RETRIES
  }

  predicate DroppedOnRetry(w: World, s: Step) {
    s.WorkerStep? && s.k < |w.workers| && w.workers[s.k].Retrying? && w.workers[s.k].ev.attempts + 1 < MAX_RETRIES
    && !HasRoom(w.queue, w.capacity)
  }

  function InFlight(t: Worker): nat {
    if t.Waiting? then 0 else 1
  }

  lemma StepConservesOffers(w: World, s: Step)
    requires Enabled(w, s)
    ensures var w' := Apply(w, s);
            |w'.queue| + Sum(w'.workers, InFlight)
            + (if Delivered(w, s) then 1 else 0) + (if GivenUp(w, s) then 1 else 0) + (if DroppedOnRetry(w, s) then 1 else 0)
            == |w.queue| + Sum(w.workers, InFlight) + (if AcceptedOffer(w, s) then 1 else 0)
  {
    if s.WorkerStep? {
      SumUpdate(w.workers, s.k, Apply(w, s).workers[s.k], InFlight);
    }
  }

  lemma {:induction false} RunConservesOffers(w: World, ss: seq<Step>)
    requires Legal(w, ss)
    ensures |Exec(w, ss).queue| + Sum(Exec(w, ss).workers, InFlight)
            + Count(w, ss, Delivered) + Count(w, ss, GivenUp) + Count(w, ss, DroppedOnRetry)
            == |w.queue| + Sum(w.workers, InFlight) + Count(w, ss, AcceptedOffer)
    decreases |ss|
  {
    if ss == [] {
    } else {
      StepConservesOffers(w, ss[0]);
      RunConservesOffers(Apply(w, ss[0]), ss[1..]);
    }
  }

  /** Every accepted enqueue is queued, in flight, delivered, failed for good, or dropped on retry. */
  lemma OffersAreConserved(w: World, ss: seq<Step>)
    requires Init(w) && Legal(w, ss)
    ensures Count(w, ss, AcceptedOffer) ==
            |Exec(w, ss).queue| + Sum(Exec(w, ss).workers, InFlight)
            + Count(w, ss, Delivered) + Count(w, ss, GivenUp) + Count(w, ss, DroppedOnRetry)
  {
    SumZero(w.workers, InFlight);
    RunConservesOffers(w, ss);
  }

  // ---- how often one offer is sent ----

  /** Where one particular offer is. */
  datatype Spot = InQueue(i: nat) | WithWorker(k: nat) | Gone

  ghost predicate SpotOk(w: World, at: Spot) {
    match at
    case InQueue(i) => i < |w.queue|
    case WithWorker(k) => k < |w.workers| && !w.workers[k].Waiting?
    case Gone => true
  }

  /** Where it is after a step: the queue is first in, first out, and a retry goes to its end. */
  function Followed(w: World, s: Step, at: Spot): Spot
    requires Enabled(w, s)
  {
    match at
    case Gone => Gone
    case InQueue(i) =>
      if s.WorkerStep? && w.workers[s.k].Waiting? then (if i == 0 then WithWorker(s.k) else InQueue(i - 1)) else at
    case WithWorker(k) =>
      if s.WorkerStep? && s.k == k && Apply(w, s).workers[k].Waiting? then
        if w.workers[k].Retrying? && GoesBack(w.queue, w.capacity, w.workers[k].ev) then InQueue(|w.queue|)
        else Gone
      else at
  }

  function OfferAt(w: World, at: Spot): OfferEvent
    requires at != Gone
    requires match at case InQueue(i) => i < |w.queue| case WithWorker(k) => k < |w.workers| && !w.workers[k].Waiting?
  {
    match at
    case InQueue(i) => w.queue[i]
    case WithWorker(k) => w.workers[k].ev
  }

  /** How many times the run sends the offer that is at `at` now. */
  ghost function Sends(w: World, ss: seq<Step>, at: Spot): nat
    requires Legal(w, ss)
    decreases |ss|
  {
    if ss == [] then 0
    else (if SendsIt(w, ss[0], at) then 1 else 0) + Sends(Apply(w, ss[0]), ss[1..], Followed(w, ss[0], at))
  }

  ghost predicate SendsIt(w: World, s: Step, at: Spot) {
    s.WorkerStep? && at == WithWorker(s.k) && s.k < |w.workers| && w.workers[s.k].Sending?
  }

  /** Sends still possible. */
  ghost function SendsLeft(w: World, at: Spot): nat
    requires SpotOk(w, at) && Bounded(w)
  {
    match at
    case Gone => 0
    case InQueue(i) => MAX_RETRIES - w.queue[i].attempts
    case WithWorker(k) => MAX_RETRIES - w.workers[k].ev.attempts - (if w.workers[k].Sending? then 0 else 1)
  }

  /** Following an offer really follows it: same driver, same rider, whatever the step. */
  lemma FollowedIsTheSameOffer(w: World, s: Step, at: Spot)
    requires Enabled(w, s) && Bounded(w) && SpotOk(w, at)
    ensures SpotOk(Apply(w, s), Followed(w, s, at))
    ensures at != Gone && Followed(w, s, at) != Gone ==>
              OfferAt(Apply(w, s), Followed(w, s, at)).driver == OfferAt(w, at).driver
              && OfferAt(Apply(w, s), Followed(w, s, at)).rider == OfferAt(w, at).rider
  {
  }

  lemma StepUsesUpSends(w: World, s: Step, at: Spot)
    requires Enabled(w, s) && Bounded(w) && SpotOk(w, at)
    requires SpotOk(Apply(w, s), Followed(w, s, at)) && Bounded(Apply(w, s))
    ensures SendsLeft(Apply(w, s), Followed(w, s, at)) + (if SendsIt(w, s, at) then 1 else 0) <= SendsLeft(w, at)
  {
  }

  lemma {:induction false} SendsAreBounded(w: World, ss: seq<Step>, at: Spot)
    requires Legal(w, ss) && Bounded(w) && SpotOk(w, at)
    ensures Sends(w, ss, at) <= SendsLeft(w, at)
    decreases |ss|
  {
    if ss == [] {
    } else {
      StepKeepsBounded(w, ss[0]);
      FollowedIsTheSameOffer(w, ss[0], at);
      StepUsesUpSends(w, ss[0], at);
      SendsAreBounded(Apply(w, ss[0]), ss[1..], Followed(w, ss[0], at));
    }
  }

  /** An offer accepted in a reachable world is sent at most three times in whatever follows. */
  lemma EachOfferIsSentAtMostThreeTimes(w: World, before: seq<Step>, s: Step, after: seq<Step>)
    requires Init(w) && Legal(w, before) && Enabled(Exec(w, before), s) && AcceptedOffer(Exec(w, before), s)
    requires Legal(Apply(Exec(w, before), s), after)
    ensures var w1 := Apply(Exec(w, before), s);
            && SpotOk(w1, InQueue(|w1.queue| - 1)) && w1.queue[|w1.queue| - 1].attempts == 0
            && Sends(w1, after, InQueue(|w1.queue| - 1)) <= 3
  {
    RunKeepsBounded(w, before);
    StepKeepsBounded(Exec(w, before), s);
    var w1 := Apply(Exec(w, before), s);
    SendsAreBounded(w1, after, InQueue(|w1.queue| - 1));
  }

  // ---- an offer that always fails ----

  /** This step does not end the offer's life by delivering it or for want of room. */
  predicate KeepsFailing(w: World, s: Step, at: Spot) {
    s.WorkerStep? && at == WithWorker(s.k) ==> !Delivered(w, s) && !DroppedOnRetry(w, s)
  }

  ghost predicate AlwaysFails(w: World, ss: seq<Step>, at: Spot)
    requires Legal(w, ss)
    decreases |ss|
  {
    ss == [] || (KeepsFailing(w, ss[0], at) && AlwaysFails(Apply(w, ss[0]), ss[1..], Followed(w, ss[0], at)))
  }

  /** Where the offer is at the end of the run. */
  ghost function FollowedAll(w: World, ss: seq<Step>, at: Spot): Spot
    requires Legal(w, ss)
    decreases |ss|
  {
    if ss == [] then at else FollowedAll(Apply(w, ss[0]), ss[1..], Followed(w, ss[0], at))
  }

  lemma FailingStepUsesOneSend(w: World, s: Step, at: Spot)
    requires Enabled(w, s) && Bounded(w) && SpotOk(w, at) && KeepsFailing(w, s, at)
    requires SpotOk(Apply(w, s), Followed(w, s, at)) && Bounded(Apply(w, s))
    ensures SendsLeft(Apply(w, s), Followed(w, s, at)) + (if SendsIt(w, s, at) then 1 else 0) == SendsLeft(w, at)
  {
  }

  lemma {:induction false} FailingSendsAddUp(w: World, ss: seq<Step>, at: Spot)
    requires Legal(w, ss) && Bounded(w) && SpotOk(w, at) && AlwaysFails(w, ss, at)
    ensures Bounded(Exec(w, ss)) && SpotOk(Exec(w, ss), FollowedAll(w, ss, at))
    ensures Sends(w, ss, at) + SendsLeft(Exec(w, ss), FollowedAll(w, ss, at)) == SendsLeft(w, at)
    decreases |ss|
  {
    if ss == [] {
    } else {
      StepKeepsBounded(w, ss[0]);
      FollowedIsTheSameOffer(w, ss[0], at);
      FailingStepUsesOneSend(w, ss[0], at);
      FailingSendsAddUp(Apply(w, ss[0]), ss[1..], Followed(w, ss[0], at));
    }
  }

  /** An accepted offer that is never delivered and never finds the queue full on its way back is, by the
      time the dispatcher has given it up, sent exactly three times. */
  lemma FailingOfferIsSentThreeTimes(w: World, before: seq<Step>, s: Step, after: seq<Step>)
    requires Init(w) && Legal(w, before) && Enabled(Exec(w, before), s) && AcceptedOffer(Exec(w, before), s)
    requires Legal(Apply(Exec(w, before), s), after)
    requires var w1 := Apply(Exec(w, before), s);
             |w1.queue| > 0 && AlwaysFails(w1, after, InQueue(|w1.queue| - 1)) && FollowedAll(w1, after, InQueue(|w1.queue| - 1)) == Gone
    ensures var w1 := Apply(Exec(w, before), s);
            Sends(w1, after, InQueue(|w1.queue| - 1)) == 3
  {
    RunKeepsBounded(w, before);
    StepKeepsBounded(Exec(w, before), s);
    var w1 := Apply(Exec(w, before), s);
    FailingSendsAddUp(w1, after, InQueue(|w1.queue| - 1));
  }

  // ---- runs end ----

  const ROUND := 10
  const PER_LOCK := 32
  const PER_CANDIDATE := 40

  function Rounds(attempts: nat): nat {
    if attempts < MAX_RETRIES then ROUND * (MAX_RETRIES - attempts) else 0
  }

  function EventWork(ev: OfferEvent): nat {
    Rounds(ev.attempts)
  }

  function WorkerWork(t: Worker): nat {
    if t.Waiting? || t.ev.attempts >= MAX_RETRIES then 0 else
    Rounds(t.ev.attempts) -
    match t
    case Sending(_) => 1
    case Accepting(_) => 2
    case Finalizing(_) => 3
    case Committing(_) => 4
    case Clearing(_, _) => 5
    case Releasing(_, _) => 6
    case Retrying(_) => 7
  }

  function CallWork(c: MatchCall): nat {
    match c.pc
    case Checking(todo) => PER_CANDIDATE * |todo| + PER_LOCK * |c.locked| + 10
    case Locking(_, todo) => PER_CANDIDATE * |todo| + 39 + PER_LOCK * |c.locked| + 10
    case Intending(_, todo) => PER_CANDIDATE * |todo| + 38 + PER_LOCK * |c.locked| + 10
    case Unlocking(_, todo) => PER_CANDIDATE * |todo| + 37 + PER_LOCK * |c.locked| + 10
    case Creating => PER_LOCK * |c.locked| + 9
    case Stamping => PER_LOCK * |c.locked| + 8
    case Arming => PER_LOCK * |c.locked| + 7
    case Undoing(left) => PER_LOCK * |left| + 5
    case Freeing(_, left) => PER_LOCK * |left| + 6
    case Enqueuing(left) => PER_LOCK * |left| + 5
    case Done(_) => 0
  }

  function IngestWork(g: Ingest): nat {
    match g
    case Arrived(_, _) => 3
    case Stamped(_, _, _) => 2
    case Fetched(_, _) => 1
    case Stored => 0
  }

  /** The work that is left: every step of a call, a worker or a location update makes it smaller. */
  ghost function Work(w: World): nat {
    Sum(w.matches, CallWork) + Sum(w.queue, EventWork) + Sum(w.workers, WorkerWork) + Sum(w.ingests, IngestWork)
  }

  predicate Working(w: World, s: Step) {
    s.MatchStep? || s.WorkerStep? || s.IngestStep?
  }

  predicate StartsMatch(w: World, s: Step) {
    s.StartMatch?
  }

  predicate StartsIngest(w: World, s: Step) {
    s.StartIngest?
  }

  lemma PushedWork(queue: seq<OfferEvent>, capacity: nat, ev: OfferEvent)
    ensures Sum(Pushed(queue, capacity, ev), EventWork) <= Sum(queue, EventWork) + EventWork(ev)
  {
    SumAppend(queue, [ev], EventWork);
  }

  /** A call's step pays for itself and for the offer it may enqueue. */
  lemma CallStepWorks(ds: Drivers, gs: Groups, c: MatchCall, io: Io)
    requires !c.pc.Done?
    ensures CallWork(MatchAfter(ds, gs, c, io)) + (if c.pc.Enqueuing? && c.pc.left != [] then EventWork(OfferEvent(c.pc.left[0], c.rider, 0)) else 0)
            < CallWork(c)
  {
  }

  lemma MatchStepWorks(w: World, s: Step)
    requires Enabled(w, s) && s.MatchStep?
    ensures Work(Apply(w, s)) < Work(w)
  {
    var c := w.matches[s.m];
    CallStepWorks(w.drivers, w.groups, c, s.mio);
    SumUpdate(w.matches, s.m, Apply(w, s).matches[s.m], CallWork);
    if c.pc.Enqueuing? && c.pc.left != [] {
      PushedWork(w.queue, w.capacity, OfferEvent(c.pc.left[0], c.rider, 0));
    }
  }

  lemma WorkerStepWorks(w: World, s: Step)
    requires Bounded(w) && Enabled(w, s) && s.WorkerStep?
    ensures Work(Apply(w, s)) < Work(w)
  {
    var t := w.workers[s.k];
    SumUpdate(w.workers, s.k, Apply(w, s).workers[s.k], WorkerWork);
    if t.Retrying? {
      PushedWork(w.queue, w.capacity, t.ev.(attempts := t.ev.attempts + 1));
    }
  }

  lemma IngestStepWorks(w: World, s: Step)
    requires Enabled(w, s) && s.IngestStep?
    ensures Work(Apply(w, s)) < Work(w)
  {
    SumUpdate(w.ingests, s.i, Apply(w, s).ingests[s.i], IngestWork);
  }

  lemma ArrivalsAddWork(w: World, s: Step)
    requires Enabled(w, s) && !Working(w, s)
    ensures Work(Apply(w, s)) <= Work(w) + (if StartsMatch(w, s) then 130 else 0) + (if StartsIngest(w, s) then 3 else 0)
  {
    if s.StartMatch? {
      var c := MatchCall(s.rider, [], Checking(s.cands));
      SumAppend(w.matches, [c], CallWork);
      assert Sum([c], CallWork) == CallWork(c);
    } else if s.StartIngest? {
      var g := Arrived(s.id, s.location);
      SumAppend(w.ingests, [g], IngestWork);
      assert Sum([g], IngestWork) == IngestWork(g);
    }
  }

  lemma StepWorks(w: World, s: Step)
    requires Bounded(w) && Enabled(w, s)
    ensures Work(Apply(w, s)) + (if Working(w, s) then 1 else 0)
            <= Work(w) + (if StartsMatch(w, s) then 130 else 0) + (if StartsIngest(w, s) then 3 else 0)
  {
    if s.MatchStep? {
      MatchStepWorks(w, s);
    } else if s.WorkerStep? {
      WorkerStepWorks(w, s);
    } else if s.IngestStep? {
      IngestStepWorks(w, s);
    } else {
      ArrivalsAddWork(w, s);
    }
  }

  lemma {:induction false} WorkOverRun(w: World, ss: seq<Step>)
    requires Bounded(w) && Legal(w, ss)
    ensures Count(w, ss, Working) + Work(Exec(w, ss)) <= Work(w) + 130 * Count(w, ss, StartsMatch) + 3 * Count(w, ss, StartsIngest)
    decreases |ss|
  {
    if ss == [] {
    } else {
      StepWorks(w, ss[0]);
      StepKeepsBounded(w, ss[0]);
      WorkOverRun(Apply(w, ss[0]), ss[1..]);
    }
  }

  /** Finitely many Match calls and location updates give only finite runs: whatever faults, retries and
      expiries happen, the steps taken are at most 130 per call and 3 per update. */
  lemma RunsEnd(w: World, ss: seq<Step>)
    requires Init(w) && Legal(w, ss)
    ensures Count(w, ss, Working) <= 130 * Count(w, ss, StartsMatch) + 3 * Count(w, ss, StartsIngest)
  {
    SumZero(w.workers, WorkerWork);
    WorkOverRun(w, ss);
  }

  /** Everything that was started is finished. */
  ghost predicate AllDone(w: World) {
    && (forall m :: 0 <= m < |w.matches| ==> w.matches[m].pc.Done?)
    && (forall k :: 0 <= k < |w.workers| ==> w.workers[k].Waiting?)
    && (forall i :: 0 <= i < |w.ingests| ==> w.ingests[i].Stored?)
    && (w.queue == [] || w.workers == [])
  }

  /** Nothing ever waits for somebody else: a call, an update or a worker that is not finished can take
      its next step, and so can any worker while an offer is queued. With `RunsEnd`, every run can be
      continued to the end and no run goes on for ever. */
  lemma NothingIsStuck(w: World)
    ensures AllDone(w) <==> forall s :: Working(w, s) ==> !Enabled(w, s)
  {
    var io := Io(w.clock + 1, w.clock + 2, false, false, Accept, "");
    if AllDone(w) {
    } else if m :| 0 <= m < |w.matches| && !w.matches[m].pc.Done? {
      assert Working(w, MatchStep(m, io)) && Enabled(w, MatchStep(m, io));
    } else if i :| 0 <= i < |w.ingests| && !w.ingests[i].Stored? {
      assert Working(w, IngestStep(i, io)) && Enabled(w, IngestStep(i, io));
    } else {
      var k :| 0 <= k < |w.workers| && (w.queue != [] || !w.workers[k].Waiting?);
      assert Working(w, WorkerStep(k, io)) && Enabled(w, WorkerStep(k, io));
    }
  }
}
