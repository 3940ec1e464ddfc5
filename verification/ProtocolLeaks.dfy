/** When a driver is left Matching in nobody's hands: exactly when a Match call offers it to a full
    queue. Faults, rejections and expiring groups are all allowed. */
module ProtocolLeaks {
  import opened Domain
  import opened DriverRepository
  import opened Dispatcher
  import opened Protocol
  import opened ProtocolRecords
  import opened ProtocolOwnership

  /** Match calls finished, queue empty, workers idle. */
  ghost predicate AtRest(w: World) {
    && (forall m :: 0 <= m < |w.matches| ==> w.matches[m].pc.Done?)
    && w.queue == []
    && forall k :: 0 <= k < |w.workers| ==> w.workers[k].Waiting?
  }

  ghost predicate Queued(queue: seq<OfferEvent>, d: string) {
    exists i :: 0 <= i < |queue| && queue[i].driver == d
  }

  ghost predicate ReallyHeld(w: World, h: Holder, d: string) {
    match h
    case ByMatch(m) => m < |w.matches| && d in Held(w.matches[m])
    case ByQueue => Queued(w.queue, d)
    case ByWorker(k) => k < |w.workers| && Holding(w.workers[k]) && w.workers[k].ev.driver == d
  }

  predicate Enqueues(w: World, s: Step) {
    s.MatchStep? && s.m < |w.matches| && w.matches[s.m].pc.Enqueuing? && w.matches[s.m].pc.left != []
  }

  /** A Match call offers its next driver to a full queue. */
  predicate Drops(w: World, s: Step) {
    Enqueues(w, s) && !HasRoom(w.queue, w.capacity)
  }

  // ---- one enqueue ----

  /** A call hands its driver over to somebody exactly when the queue has room. Otherwise the driver
      is left Matching and in nobody's hands, and Match succeeds all the same. */
  lemma StrandedIffQueueFull(w: World, s: Step, owner: Owners)
    requires Exclusive(w, owner) && Enabled(w, s) && Enqueues(w, s)
    ensures var w', d := Apply(w, s), w.matches[s.m].pc.left[0];
            && d in w'.drivers && w'.drivers[d].driver.status == Matching
            && ((forall h :: !ReallyHeld(w', h, d)) <==> !HasRoom(w.queue, w.capacity))
  {
    var w', left := Apply(w, s), w.matches[s.m].pc.left;
    var d := left[0];
    TouchedIsHeld(w, s.m, owner);
    assert CallOwns(w.drivers, owner, s.m, w.matches[s.m]) && left == [d] + left[1..] && d in Held(w.matches[s.m]);
    if HasRoom(w.queue, w.capacity) {
      assert w'.queue[|w.queue|].driver == d;
      assert ReallyHeld(w', ByQueue, d);
    } else {
      DistinctHead(d, left[1..]);
      forall h ensures !ReallyHeld(w', h, d) {
        if h.ByMatch? && h.m < |w.matches| {
          assert CallOwns(w.drivers, owner, h.m, w.matches[h.m]);
        }
      }
    }
  }

  // ---- the stranded drivers of a world ----

  /** Matching without a holder. */
  ghost predicate Stranded(w: World, owner: Owners, d: string) {
    d in w.drivers && w.drivers[d].driver.status == Matching && d !in owner
  }

  /** Every right on record is in somebody's hands, and the Matching drivers without one are `lost`. */
  ghost predicate LeaksOnly(w: World, owner: Owners, lost: set<string>) {
    && (forall d :: d in owner ==> ReallyHeld(w, owner[d], d))
    && forall d :: d in lost <==> Stranded(w, owner, d)
  }

  function DroppedBy(w: World, s: Step): set<string> {
    if Drops(w, s) then {w.matches[s.m].pc.left[0]} else {}
  }

  function TakenBackBy(w: World, s: Step): set<string> {
    if Requeues(w, s) then {w.workers[s.k].ev.driver} else {}
  }

  function LostAfter(w: World, s: Step, lost: set<string>): set<string> {
    lost + DroppedBy(w, s) - TakenBackBy(w, s)
  }

  /** Only the holder of a Matching driver moves it, so one without a holder stays Matching, and
      without a holder unless an old offer of it is put back. */
  lemma StrandedStays(w: World, s: Step, owner: Owners, d: string)
    requires Exclusive(w, owner) && Enabled(w, s) && Stranded(w, owner, d)
    ensures d in Apply(w, s).drivers && Apply(w, s).drivers[d].driver.status == Matching
    ensures d !in TakenBackBy(w, s) ==> Stranded(Apply(w, s), OwnerAfter(w, s, owner), d)
  {
    if s.IngestStep? {
      IngestStepKeepsRecords(w, s);
    } else if s.MatchStep? {
      TouchedIsHeld(w, s.m, owner);
    }
  }

  /** The driver whose right a step moves. */
  function Moving(w: World, s: Step): Option<string>
    requires Enabled(w, s)
  {
    if s.MatchStep? then
      if w.matches[s.m].pc.Enqueuing? then (if w.matches[s.m].pc.left == [] then None else Some(w.matches[s.m].pc.left[0]))
      else if CallRequest(w.matches[s.m]).Nothing? then None else Some(CallRequest(w.matches[s.m]).id)
    else if s.WorkerStep? then
      match w.workers[s.k]
      case Waiting => Some(w.queue[0].driver)
      case Retrying(ev) => if Requeues(w, s) then Some(ev.driver) else None
      case t => Some(t.ev.driver)
    else None
  }

  lemma HeldBarOne(w: World, s: Step, d: string)
    requires Enabled(w, s) && s.MatchStep? && d in Held(w.matches[s.m]) && Moving(w, s) != Some(d)
    ensures d in Held(Apply(w, s).matches[s.m])
  {
    HeldAfter(w.drivers, w.groups, w.matches[s.m], s.mio);
  }

  lemma QueuedBarOne(w: World, s: Step, d: string)
    requires Enabled(w, s) && Queued(w.queue, d) && Moving(w, s) != Some(d)
    ensures Queued(Apply(w, s).queue, d)
  {
    var i :| 0 <= i < |w.queue| && w.queue[i].driver == d;
    if s.WorkerStep? && w.workers[s.k].Waiting? {
      assert Apply(w, s).queue[i - 1] == w.queue[i];
    } else {
      assert Apply(w, s).queue[i] == w.queue[i];
    }
  }

  /** A worker's step moves no right but the one it is about. */
  lemma WorkersStayHeld(w: World, s: Step, k: nat, d: string)
    requires Enabled(w, s) && ReallyHeld(w, ByWorker(k), d) && Moving(w, s) != Some(d)
    ensures ReallyHeld(Apply(w, s), ByWorker(k), d)
  {
  }

  lemma CallsStayHeld(w: World, s: Step, m: nat, d: string)
    requires Enabled(w, s) && ReallyHeld(w, ByMatch(m), d) && Moving(w, s) != Some(d)
    ensures ReallyHeld(Apply(w, s), ByMatch(m), d)
  {
    if s.MatchStep? && m == s.m {
      HeldBarOne(w, s, d);
    }
  }

  lemma OthersStayHeld(w: World, s: Step, owner: Owners, lost: set<string>, d: string)
    requires LeaksOnly(w, owner, lost) && Enabled(w, s)
    requires d in owner && Moving(w, s) != Some(d)
    ensures d in OwnerAfter(w, s, owner) && OwnerAfter(w, s, owner)[d] == owner[d] && ReallyHeld(Apply(w, s), owner[d], d)
  {
    match owner[d] {
      case ByQueue => QueuedBarOne(w, s, d);
      case ByMatch(m) => CallsStayHeld(w, s, m, d);
      case ByWorker(k) => WorkersStayHeld(w, s, k, d);
    }
  }

  /** The moved driver's right is in somebody's hands, and if it has none although Matching, then it
      was stranded before or has been dropped. */
  ghost predicate MovedIsHeld(w: World, s: Step, owner: Owners, x: string)
    requires Enabled(w, s)
  {
    var w', owner' := Apply(w, s), OwnerAfter(w, s, owner);
    && (x in owner' ==> ReallyHeld(w', owner'[x], x))
    && (Stranded(w', owner', x) ==> Stranded(w, owner, x) || Drops(w, s))
  }

  lemma MovedByMatchIsHeld(w: World, s: Step, owner: Owners, lost: set<string>, x: string)
    requires Exclusive(w, owner) && LeaksOnly(w, owner, lost) && Enabled(w, s) && s.MatchStep? && Moving(w, s) == Some(x)
    ensures MovedIsHeld(w, s, owner, x)
  {
    var c := w.matches[s.m];
    assert CallOwns(w.drivers, owner, s.m, c);
    HeldAfter(w.drivers, w.groups, c, s.mio);
    match c.pc {
      case Locking(_, _) => LockedIsHeld(w, s, owner, lost, x);
      case Intending(_, _) => DistinctLast(c.locked, x);
      case Unlocking(_, _) => DistinctLast(c.locked, x);
      case Undoing(left) => assert x in left;
      case Freeing(_, left) => DistinctHead(x, left);
      case Enqueuing(left) =>
        assert x in left;
        assert HasRoom(w.queue, w.capacity) ==> Apply(w, s).queue[|w.queue|].driver == x;
      case _ =>
    }
  }

  lemma LockedIsHeld(w: World, s: Step, owner: Owners, lost: set<string>, x: string)
    requires Exclusive(w, owner) && LeaksOnly(w, owner, lost) && Enabled(w, s) && s.MatchStep? && Moving(w, s) == Some(x)
    requires w.matches[s.m].pc.Locking?
    ensures MovedIsHeld(w, s, owner, x)
  {
    var c := w.matches[s.m];
    HeldAfter(w.drivers, w.groups, c, s.mio);
    if TransitionAllowed(w.drivers, x, Matching) {
      assert x in Held(Apply(w, s).matches[s.m]);
    } else if x in owner {
      match owner[x] {
        case ByQueue =>
        case ByMatch(m) => assert m != s.m ==> Apply(w, s).matches[m] == w.matches[m];
        case ByWorker(k) =>
      }
    }
  }

  lemma MovedByWorkerIsHeld(w: World, s: Step, owner: Owners, x: string)
    requires Exclusive(w, owner) && Enabled(w, s) && s.WorkerStep? && Moving(w, s) == Some(x)
    ensures MovedIsHeld(w, s, owner, x)
  {
    if Requeues(w, s) {
      assert Apply(w, s).queue[|w.queue|].driver == x;
    }
  }

  lemma MovedStaysHeld(w: World, s: Step, owner: Owners, lost: set<string>, x: string)
    requires Exclusive(w, owner) && LeaksOnly(w, owner, lost) && Enabled(w, s) && Moving(w, s) == Some(x)
    ensures MovedIsHeld(w, s, owner, x)
  {
    if s.MatchStep? {
      MovedByMatchIsHeld(w, s, owner, lost, x);
    } else {
      MovedByWorkerIsHeld(w, s, owner, x);
    }
  }

  lemma OnlyTheMovedIsRewritten(w: World, s: Step, d: string)
    requires Records(w) && Enabled(w, s) && Moving(w, s) != Some(d)
    requires d in Apply(w, s).drivers && Apply(w, s).drivers[d].driver.status == Matching
    ensures d in w.drivers && w.drivers[d].driver.status == Matching
  {
    if s.IngestStep? {
      IngestStepKeepsRecords(w, s);
    } else if s.MatchStep? || s.WorkerStep? {
      ThreadStepOnRecords(w, s);
    }
  }

  /** Whatever the step: a driver that is stranded after it was stranded before, or was dropped by it. */
  lemma NewlyStrandedWasDropped(w: World, s: Step, owner: Owners, lost: set<string>, d: string)
    requires Exclusive(w, owner) && LeaksOnly(w, owner, lost) && Enabled(w, s)
    requires Stranded(Apply(w, s), OwnerAfter(w, s, owner), d)
    ensures d in LostAfter(w, s, lost)
  {
    if Moving(w, s) == Some(d) {
      MovedStaysHeld(w, s, owner, lost, d);
    } else {
      OnlyTheMovedIsRewritten(w, s, d);
      if d in owner {
        OthersStayHeld(w, s, owner, lost, d);
      }
    }
  }

  lemma DroppedIsStranded(w: World, s: Step, owner: Owners)
    requires Exclusive(w, owner) && Enabled(w, s) && Drops(w, s)
    ensures Stranded(Apply(w, s), OwnerAfter(w, s, owner), w.matches[s.m].pc.left[0])
  {
    TouchedIsHeld(w, s.m, owner);
  }

  /** No step loses a right but one that offers a driver to a full queue. */
  lemma StepLeaksOnlyDrops(w: World, s: Step, owner: Owners, lost: set<string>)
    requires Exclusive(w, owner) && LeaksOnly(w, owner, lost) && Enabled(w, s)
    ensures LeaksOnly(Apply(w, s), OwnerAfter(w, s, owner), LostAfter(w, s, lost))
  {
    var w', owner', lost' := Apply(w, s), OwnerAfter(w, s, owner), LostAfter(w, s, lost);
    forall d | d in owner' ensures ReallyHeld(w', owner'[d], d) {
      if Moving(w, s) == Some(d) {
        MovedStaysHeld(w, s, owner, lost, d);
      } else {
        OthersStayHeld(w, s, owner, lost, d);
      }
    }
    forall d ensures d in lost' <==> Stranded(w', owner', d) {
      if Stranded(w', owner', d) {
        NewlyStrandedWasDropped(w, s, owner, lost, d);
      } else if d in lost {
        StrandedStays(w, s, owner, d);
      } else if Drops(w, s) {
        DroppedIsStranded(w, s, owner);
      }
    }
  }

  // ---- runs ----

  /** The drivers that some step of the run offered to a full queue. */
  ghost function EverDropped(w: World, ss: seq<Step>): set<string>
    requires Legal(w, ss)
    decreases |ss|
  {
    if ss == [] then {} else DroppedBy(w, ss[0]) + EverDropped(Apply(w, ss[0]), ss[1..])
  }

  lemma {:induction false} RunLeaksOnlyDrops(w: World, ss: seq<Step>, owner: Owners, lost: set<string>)
    requires Exclusive(w, owner) && LeaksOnly(w, owner, lost) && Legal(w, ss) && NeverRequeues(w, ss)
    ensures LeaksOnly(Exec(w, ss), OwnersAfter(w, ss, owner), lost + EverDropped(w, ss))
    decreases |ss|
  {
    if ss == [] {
      assert lost + {} == lost;
    } else {
      StepLeaksOnlyDrops(w, ss[0], owner, lost);
      StepKeepsOwnership(w, ss[0], owner);
      RunLeaksOnlyDrops(Apply(w, ss[0]), ss[1..], OwnerAfter(w, ss[0], owner), LostAfter(w, ss[0], lost));
      var rest := EverDropped(Apply(w, ss[0]), ss[1..]);
      assert LostAfter(w, ss[0], lost) + rest == lost + (DroppedBy(w, ss[0]) + rest);
    }
  }

  lemma HeldHasRight(w: World, owner: Owners, h: Holder, d: string)
    requires Exclusive(w, owner) && ReallyHeld(w, h, d)
    ensures d in owner
  {
    if h.ByMatch? {
      assert CallOwns(w.drivers, owner, h.m, w.matches[h.m]);
    }
  }

  ghost predicate MatchingUnheld(w: World, d: string) {
    d in w.drivers && w.drivers[d].driver.status == Matching && forall h :: !ReallyHeld(w, h, d)
  }

  lemma LostAreUnheld(w: World, owner: Owners, lost: set<string>, d: string)
    requires Exclusive(w, owner) && LeaksOnly(w, owner, lost)
    ensures MatchingUnheld(w, d) <==> d in lost
  {
    if d in owner {
      assert ReallyHeld(w, owner[d], d);
    } else {
      forall h ensures !ReallyHeld(w, h, d) {
        if ReallyHeld(w, h, d) {
          HeldHasRight(w, owner, h, d);
        }
      }
    }
  }

  /** In every reachable world, faults, rejections and expiry included: a driver is Matching in
      nobody's hands if and only if some step of the run offered it to a full queue. */
  lemma StrandedIffDropped(w: World, ss: seq<Step>, d: string)
    requires Init(w) && Legal(w, ss) && NeverRequeues(w, ss)
    ensures MatchingUnheld(Exec(w, ss), d) <==> d in EverDropped(w, ss)
  {
    InitIsExclusive(w);
    RunKeepsOwnership(w, ss, map[]);
    RunLeaksOnlyDrops(w, ss, map[], {});
    assert {} + EverDropped(w, ss) == EverDropped(w, ss);
    LostAreUnheld(Exec(w, ss), OwnersAfter(w, ss, map[]), EverDropped(w, ss), d);
  }

  lemma RestHoldsNobody(w: World)
    requires AtRest(w)
    ensures forall h, d :: !ReallyHeld(w, h, d)
  {
  }

  lemma RestLeavesNoMatching(w: World, owner: Owners, d: string)
    requires AtRest(w) && LeaksOnly(w, owner, {}) && d in w.drivers
    ensures w.drivers[d].driver.status != Matching
  {
    RestHoldsNobody(w);
    assert !Stranded(w, owner, d);
  }

  /** At rest the drivers still Matching are exactly those once offered to a full queue. */
  lemma MatchingAtRestIffDropped(w: World, ss: seq<Step>, d: string)
    requires Init(w) && Legal(w, ss) && NeverRequeues(w, ss) && AtRest(Exec(w, ss))
    ensures d in Exec(w, ss).drivers && Exec(w, ss).drivers[d].driver.status == Matching <==> d in EverDropped(w, ss)
  {
    StrandedIffDropped(w, ss, d);
    RestHoldsNobody(Exec(w, ss));
  }

  lemma {:induction false} StrandedForever(w: World, ss: seq<Step>, owner: Owners, d: string)
    requires Exclusive(w, owner) && Stranded(w, owner, d) && Legal(w, ss) && NeverRequeues(w, ss)
    ensures Stranded(Exec(w, ss), OwnersAfter(w, ss, owner), d)
    decreases |ss|
  {
    if ss == [] {
    } else {
      StrandedStays(w, ss[0], owner, d);
      StepKeepsOwnership(w, ss[0], owner);
      StrandedForever(Apply(w, ss[0]), ss[1..], OwnerAfter(w, ss[0], owner), d);
    }
  }

  /** The driver of an offer that finds the queue full is still Matching at the end of whatever follows. */
  lemma DroppedOfferStrandsDriver(w: World, before: seq<Step>, s: Step, after: seq<Step>)
    requires Init(w) && Legal(w, before) && NeverRequeues(w, before)
    requires Enabled(Exec(w, before), s) && Drops(Exec(w, before), s)
    requires Legal(Apply(Exec(w, before), s), after) && NeverRequeues(Apply(Exec(w, before), s), after)
    ensures var end, d := Exec(Apply(Exec(w, before), s), after), Exec(w, before).matches[s.m].pc.left[0];
            d in end.drivers && end.drivers[d].driver.status == Matching
  {
    InitIsExclusive(w);
    RunKeepsOwnership(w, before, map[]);
    var w1, owner := Exec(w, before), OwnersAfter(w, before, map[]);
    DroppedIsStranded(w1, s, owner);
    StepKeepsOwnership(w1, s, owner);
    StrandedForever(Apply(w1, s), after, OwnerAfter(w1, s, owner), w1.matches[s.m].pc.left[0]);
  }
}
