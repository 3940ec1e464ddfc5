/** Exactly when every right to act on a driver has one holder, over every run: unless the dispatcher
    puts back a failed offer whose driver is no longer free for it. */
module ProtocolExclusivity {
  import opened Domain
  import opened Protocol
  import opened ProtocolRecords
  import opened ProtocolOwnership
  import opened ProtocolLeaks

  // ---- one step ----

  /** The driver is still reserved, in nobody's hands, and for no other rider. */
  ghost predicate FreeFor(w: World, d: string, rider: string) {
    && d in w.drivers && w.drivers[d].driver.status == Matching
    && (w.drivers[d].driver.intent.Some? ==> w.drivers[d].driver.intent.value.riderId == rider)
    && forall h :: !ReallyHeld(w, h, d)
  }

  /** A failed offer is put back although its driver is not free for it. */
  ghost predicate Clashes(w: World, s: Step) {
    Requeues(w, s) && !FreeFor(w, w.workers[s.k].ev.driver, w.workers[s.k].ev.rider)
  }

  /** A clash breaks exclusivity at once, whatever witness is tried: the driver is either no longer
      reserved, or reserved for somebody else, or in somebody's hands already. */
  lemma ClashBreaksOwnership(w: World, s: Step, owner: Owners, owner': Owners)
    requires Exclusive(w, owner) && Enabled(w, s) && Clashes(w, s)
    ensures !Exclusive(Apply(w, s), owner')
  {
    var w', ev := Apply(w, s), w.workers[s.k].ev;
    var d := ev.driver;
    assert w'.queue[|w.queue|] == ev.(attempts := ev.attempts + 1);
    if h :| ReallyHeld(w, h, d) {
      match h {
        case ByMatch(m) => assert w'.matches[m] == w.matches[m];
        case ByWorker(k) => assert w'.workers[k] == w.workers[k];
        case ByQueue =>
          var i :| 0 <= i < |w.queue| && w.queue[i].driver == d;
          assert w'.queue[i].driver == d;
      }
    }
  }

  /** Putting back an offer whose driver is free for it gives the right to the queue. */
  lemma FreeRequeueKeepsOwnership(w: World, s: Step, owner: Owners, lost: set<string>)
    requires Exclusive(w, owner) && LeaksOnly(w, owner, lost) && Enabled(w, s) && Requeues(w, s) && !Clashes(w, s)
    ensures Exclusive(Apply(w, s), OwnerAfter(w, s, owner))
  {
    StepKeepsRecords(w, s);
    var w', owner' := Apply(w, s), OwnerAfter(w, s, owner);
    var x := w.workers[s.k].ev.driver;
    assert x !in owner;
    assert OnlyAt(w.drivers, w'.drivers, owner, owner', x);
    FrameCalls(w, w', owner, owner', x, |w.matches|);
    FrameWorkers(w, w', owner, owner', x, s.k);
    NoRideYet(w, owner, x);
    FrameRides(w, w', owner, owner', x, s.k);
    OwnersAfterTouch(w, w', owner, owner', x);
    FrameQueue(w, w'.(queue := w.queue), owner, owner', x);
  }

  lemma StepKeepsExclusive(w: World, s: Step, owner: Owners, lost: set<string>)
    requires Exclusive(w, owner) && LeaksOnly(w, owner, lost) && Enabled(w, s) && !Clashes(w, s)
    ensures Exclusive(Apply(w, s), OwnerAfter(w, s, owner)) && LeaksOnly(Apply(w, s), OwnerAfter(w, s, owner), LostAfter(w, s, lost))
  {
    StepLeaksOnlyDrops(w, s, owner, lost);
    if Requeues(w, s) {
      FreeRequeueKeepsOwnership(w, s, owner, lost);
    } else {
      StepKeepsOwnership(w, s, owner);
    }
  }

  ghost predicate HasOwners(w: World) {
    exists owner :: Exclusive(w, owner)
  }

  /** A step leaves an exclusive world behind exactly when it does not clash. */
  lemma ExclusiveIffNoClash(w: World, s: Step, owner: Owners, lost: set<string>)
    requires Exclusive(w, owner) && LeaksOnly(w, owner, lost) && Enabled(w, s)
    ensures HasOwners(Apply(w, s)) <==> !Clashes(w, s)
  {
    if Clashes(w, s) {
      forall owner': Owners ensures !Exclusive(Apply(w, s), owner') {
        ClashBreaksOwnership(w, s, owner, owner');
      }
    } else {
      StepKeepsExclusive(w, s, owner, lost);
    }
  }

  // ---- runs ----

  ghost predicate NeverClashes(w: World, ss: seq<Step>)
    requires Legal(w, ss)
    decreases |ss|
  {
    ss == [] || (!Clashes(w, ss[0]) && NeverClashes(Apply(w, ss[0]), ss[1..]))
  }

  /** At the start and after every step some map gives each held driver its one holder. */
  ghost predicate AlwaysExclusive(w: World, ss: seq<Step>)
    requires Legal(w, ss)
    decreases |ss|
  {
    HasOwners(w) && (ss == [] || AlwaysExclusive(Apply(w, ss[0]), ss[1..]))
  }

  /** Of `lost` and the drivers that the run offers to a full queue, those not put back since. */
  ghost function StillLost(w: World, ss: seq<Step>, lost: set<string>): set<string>
    requires Legal(w, ss)
    decreases |ss|
  {
    if ss == [] then lost else StillLost(Apply(w, ss[0]), ss[1..], LostAfter(w, ss[0], lost))
  }

  lemma {:induction false} RunKeepsExclusive(w: World, ss: seq<Step>, owner: Owners, lost: set<string>)
    requires Exclusive(w, owner) && LeaksOnly(w, owner, lost) && Legal(w, ss) && NeverClashes(w, ss)
    ensures Exclusive(Exec(w, ss), OwnersAfter(w, ss, owner))
    ensures LeaksOnly(Exec(w, ss), OwnersAfter(w, ss, owner), StillLost(w, ss, lost))
    decreases |ss|
  {
    if ss == [] {
    } else {
      StepKeepsExclusive(w, ss[0], owner, lost);
      RunKeepsExclusive(Apply(w, ss[0]), ss[1..], OwnerAfter(w, ss[0], owner), LostAfter(w, ss[0], lost));
    }
  }

  lemma {:induction false} ExclusiveAlongRun(w: World, ss: seq<Step>, owner: Owners, lost: set<string>)
    requires Exclusive(w, owner) && LeaksOnly(w, owner, lost) && Legal(w, ss)
    ensures AlwaysExclusive(w, ss) <==> NeverClashes(w, ss)
    decreases |ss|
  {
    if ss == [] {
    } else {
      ExclusiveIffNoClash(w, ss[0], owner, lost);
      if !Clashes(w, ss[0]) {
        StepKeepsExclusive(w, ss[0], owner, lost);
        ExclusiveAlongRun(Apply(w, ss[0]), ss[1..], OwnerAfter(w, ss[0], owner), LostAfter(w, ss[0], lost));
      }
    }
  }

  /** Over every run, faults and full queues included: the world is exclusive after every step if and
      only if no step puts back an offer whose driver is not free for it. */
  lemma AlwaysExclusiveIffNeverClashes(w: World, ss: seq<Step>)
    requires Init(w) && Legal(w, ss)
    ensures AlwaysExclusive(w, ss) <==> NeverClashes(w, ss)
  {
    InitIsExclusive(w);
    ExclusiveAlongRun(w, ss, map[], {});
  }

  lemma {:induction false} NeverRequeuesNeverClashes(w: World, ss: seq<Step>)
    requires Legal(w, ss) && NeverRequeues(w, ss)
    ensures NeverClashes(w, ss)
    decreases |ss|
  {
    if ss == [] {
    } else {
      NeverRequeuesNeverClashes(Apply(w, ss[0]), ss[1..]);
    }
  }

  /** Where every Matching driver is in somebody's hands, every requeue clashes. */
  lemma {:induction false} ClashesAreRequeues(w: World, ss: seq<Step>, owner: Owners)
    requires Exclusive(w, owner) && LeaksOnly(w, owner, {}) && Legal(w, ss) && EverDropped(w, ss) == {}
    ensures NeverClashes(w, ss) <==> NeverRequeues(w, ss)
    decreases |ss|
  {
    if ss == [] {
    } else {
      var w' := Apply(w, ss[0]);
      assert DroppedBy(w, ss[0]) == {} && EverDropped(w', ss[1..]) == {};
      if Requeues(w, ss[0]) {
        var d := w.workers[ss[0].k].ev.driver;
        assert !Stranded(w, owner, d);
      } else {
        StepKeepsExclusive(w, ss[0], owner, {});
        assert LostAfter(w, ss[0], {}) == {};
        ClashesAreRequeues(w', ss[1..], OwnerAfter(w, ss[0], owner));
      }
    }
  }

  /** If no enqueue of a run meets a full queue, the run is exclusive throughout if and only if no
      failed offer is put back at all. */
  lemma AlwaysExclusiveIffNeverRequeues(w: World, ss: seq<Step>)
    requires Init(w) && Legal(w, ss) && EverDropped(w, ss) == {}
    ensures AlwaysExclusive(w, ss) <==> NeverRequeues(w, ss)
  {
    InitIsExclusive(w);
    AlwaysExclusiveIffNeverClashes(w, ss);
    ClashesAreRequeues(w, ss, map[]);
  }

  // ---- the theorems ----

  /** A place that can hold a driver, told apart from every other such place. */
  datatype Place = AtMatch(m: nat) | AtQueue(i: nat) | AtWorker(k: nat)

  ghost predicate Holds(w: World, p: Place, d: string) {
    match p
    case AtMatch(m) => m < |w.matches| && d in Held(w.matches[m])
    case AtQueue(i) => i < |w.queue| && w.queue[i].driver == d
    case AtWorker(k) => k < |w.workers| && Holding(w.workers[k]) && w.workers[k].ev.driver == d
  }

  ghost function RiderAt(w: World, p: Place): string
    requires exists d :: Holds(w, p, d)
  {
    match p
    case AtMatch(m) => w.matches[m].rider
    case AtQueue(i) => w.queue[i].rider
    case AtWorker(k) => w.workers[k].ev.rider
  }

  lemma HolderIsOwner(w: World, owner: Owners, p: Place, d: string)
    requires Exclusive(w, owner) && Holds(w, p, d)
    ensures Keeps(w.drivers, owner, d, match p case AtMatch(m) => ByMatch(m) case AtQueue(_) => ByQueue case AtWorker(k) => ByWorker(k), RiderAt(w, p))
  {
    if p.AtMatch? {
      assert CallOwns(w.drivers, owner, p.m, w.matches[p.m]);
    }
  }

  /** At most one holder, whatever Match calls, workers and location updates interleave, with
      groups expiring and Redis commands failing at will, as long as no offer is put back that clashes: two
      places that hold a driver are the same place, the driver is Matching, and its intent, when set,
      names the holder's rider. */
  lemma AtMostOneHolder(w: World, ss: seq<Step>, p: Place, q: Place, d: string)
    requires Init(w) && Legal(w, ss) && NeverClashes(w, ss)
    requires Holds(Exec(w, ss), p, d) && Holds(Exec(w, ss), q, d)
    ensures p == q
    ensures d in Exec(w, ss).drivers && Exec(w, ss).drivers[d].driver.status == Matching
    ensures Exec(w, ss).drivers[d].driver.intent.Some? ==>
              Exec(w, ss).drivers[d].driver.intent.value.riderId == RiderAt(Exec(w, ss), p)
  {
    InitIsExclusive(w);
    RunKeepsExclusive(w, ss, map[], {});
    HolderIsOwner(Exec(w, ss), OwnersAfter(w, ss, map[]), p, d);
    HolderIsOwner(Exec(w, ss), OwnersAfter(w, ss, map[]), q, d);
  }

  /** No double booking: in every reachable world the rides of two riders name two drivers, and
      the driver of a ride is Busy, or Matching and in the hands of the worker that has just
      created that ride. */
  lemma NoDoubleBooking(w: World, ss: seq<Step>, r1: string, r2: string)
    requires Init(w) && Legal(w, ss) && NeverClashes(w, ss)
    requires r1 in Exec(w, ss).rides && r2 in Exec(w, ss).rides && r1 != r2
    ensures Exec(w, ss).rides[r1].driverId != Exec(w, ss).rides[r2].driverId
    ensures var w' := Exec(w, ss); var d := w'.rides[r1].driverId;
            d in w'.drivers
            && (w'.drivers[d].driver.status == Busy
                || (w'.drivers[d].driver.status == Matching
                    && exists k :: 0 <= k < |w'.workers| && w'.workers[k].Committing?
                                   && w'.workers[k].ev.driver == d && w'.workers[k].ev.rider == r1))
  {
    InitIsExclusive(w);
    RunKeepsExclusive(w, ss, map[], {});
    assert RideHeld(Exec(w, ss), OwnersAfter(w, ss, map[]), r1);
  }

  /** In every such world a driver is Matching in nobody's hands if and only if some step offered it to
      a full queue and no later step put an old offer of it back. */
  lemma StrandedIffStillLost(w: World, ss: seq<Step>, d: string)
    requires Init(w) && Legal(w, ss) && NeverClashes(w, ss)
    ensures MatchingUnheld(Exec(w, ss), d) <==> d in StillLost(w, ss, {})
  {
    InitIsExclusive(w);
    RunKeepsExclusive(w, ss, map[], {});
    LostAreUnheld(Exec(w, ss), OwnersAfter(w, ss, map[]), StillLost(w, ss, {}), d);
  }
}
