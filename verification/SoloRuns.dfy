/** A Match call and a response handler run alone: what the atomic steps of `Protocol` add up to
    when nothing else moves in between. */
module SoloRuns {
  import opened Domain
  import opened DriverRepository
  import opened OfferGroups
  import opened RideRepository
  import opened Dispatcher
  import opened Protocol
  import opened ProtocolOwnership

  /** The steps of call m, one environment reading each, until it is done. */
  function RunCall(w: World, m: nat, ios: seq<Io>): World
    requires m < |w.matches|
    decreases |ios|
  {
    if ios == [] || w.matches[m].pc.Done? then w else RunCall(MatchNext(w, m, ios[0]), m, ios[1..])
  }

  /** The steps of worker k from the offer it is sending until the handler returns. */
  function RunHandler(w: World, k: nat, ios: seq<Io>): World
    requires k < |w.workers|
    decreases |ios|
  {
    if ios == [] || w.workers[k].Waiting? || w.workers[k].Retrying? then w else RunHandler(WorkerNext(w, k, ios[0]), k, ios[1..])
  }

  lemma CallStep(w: World, m: nat, ios: seq<Io>, n: nat)
    requires m < |w.matches| && n < |ios| && !w.matches[m].pc.Done?
    ensures RunCall(w, m, ios[n..]) == RunCall(MatchNext(w, m, ios[n]), m, ios[n + 1..])
  {
    assert ios[n..][0] == ios[n] && ios[n..][1..] == ios[n + 1..];
  }

  lemma HandlerStep(w: World, k: nat, ios: seq<Io>, n: nat)
    requires k < |w.workers| && n < |ios| && !w.workers[k].Waiting? && !w.workers[k].Retrying?
    ensures RunHandler(w, k, ios[n..]) == RunHandler(WorkerNext(w, k, ios[n]), k, ios[n + 1..])
  {
    assert ios[n..][0] == ios[n] && ios[n..][1..] == ios[n + 1..];
  }

  // ---- what a Match call does alone ----

  /** Those of `ids` that the repository has Idle, in order. */
  function IdleOf(ds: Drivers, ids: seq<string>): seq<string> {
    if ids == [] then [] else IdleFirst(ds, ids) + IdleOf(ds, ids[1..])
  }

  function IdleFirst(ds: Drivers, ids: seq<string>): seq<string>
    requires ids != []
  {
    if ids[0] in ds && ds[ids[0]].driver.status == Idle then [ids[0]] else []
  }

  lemma {:induction false} IdleOfMembers(ds: Drivers, ids: seq<string>)
    requires Distinct(ids)
    ensures Distinct(IdleOf(ds, ids)) && |IdleOf(ds, ids)| <= |ids|
    ensures forall id :: id in IdleOf(ds, ids) <==> id in ids && id in ds && ds[id].driver.status == Idle
  {
    if ids == [] {
    } else {
      assert ids == [ids[0]] + ids[1..];
      DistinctHead(ids[0], ids[1..]);
      IdleOfMembers(ds, ids[1..]);
    }
  }

  /** Only `id` may tell the two repositories apart. */
  lemma {:induction false} IdleOfFrame(ds: Drivers, ds': Drivers, ids: seq<string>, id: string)
    requires id !in ids && ds'.Keys == ds.Keys && forall x :: x in ds && x != id ==> ds'[x] == ds[x]
    ensures IdleOf(ds', ids) == IdleOf(ds, ids)
  {
    if ids == [] {
    } else {
      IdleOfFrame(ds, ds', ids[1..], id);
    }
  }

  ghost predicate AllCoherent(ds: Drivers) {
    forall id :: id in ds ==> Coherent(CoreOf(ds[id].driver))
  }

  /** `ds'` is `ds` with exactly the drivers of `locked` moved from Idle to Matching for `rider`. */
  ghost predicate LockedFor(ds: Drivers, ds': Drivers, locked: seq<string>, rider: string) {
    && ds'.Keys == ds.Keys
    && (forall id :: id in ds && id !in locked ==> ds'[id] == ds[id])
    && forall id :: id in locked ==>
         && id in ds && CoreOf(ds[id].driver) == IDLE_CORE
         && ds'[id].driver.status == Matching && ds'[id].driver.matchingSince.Some?
         && ds'[id].driver.intent == Some(MatchIntent(rider, 0))
  }

  /** The world with call m's own state, and what it may touch, replaced. */
  function With(w: World, m: nat, c: MatchCall, ds: Drivers, gs: Groups, q: seq<OfferEvent>): World
    requires m < |w.matches|
  {
    w.(matches := w.matches[m := c], drivers := ds, groups := gs, queue := q)
  }

  lemma WithTwice(w: World, m: nat, c1: MatchCall, ds1: Drivers, gs1: Groups, q1: seq<OfferEvent>, c2: MatchCall, ds2: Drivers, gs2: Groups, q2: seq<OfferEvent>)
    requires m < |w.matches|
    ensures With(With(w, m, c1, ds1, gs1, q1), m, c2, ds2, gs2, q2) == With(w, m, c2, ds2, gs2, q2)
  {
    assert w.matches[m := c1][m := c2] == w.matches[m := c2];
  }

  /** Call m goes on from reading n in `w` exactly as it does from reading n' in `w'`. */
  ghost predicate Continues(w: World, n: nat, w': World, n': nat, m: nat, ios: seq<Io>) {
    m < |w.matches| && m < |w'.matches| && n <= |ios| && n' <= |ios| && RunCall(w, m, ios[n..]) == RunCall(w', m, ios[n'..])
  }

  lemma OneStep(w: World, m: nat, ios: seq<Io>, n: nat)
    requires m < |w.matches| && n < |ios| && !w.matches[m].pc.Done?
    ensures Continues(w, n, MatchNext(w, m, ios[n]), n + 1, m, ios)
  {
    CallStep(w, m, ios, n);
  }

  /** The repository after trying to lock `id`: unchanged, or moved to Matching and given the rider's intent. */
  function AfterTry(ds: Drivers, id: string, rider: string, lock: Io, attach: Io): Drivers {
    if id in ds && ds[id].driver.status == Idle then
      IntentSet(Transitioned(ds, id, Matching, lock.now, lock.later), id, rider, attach.now)
    else ds
  }

  lemma AfterTryLocks(ds: Drivers, ids: seq<string>, rider: string, lock: Io, attach: Io)
    requires ids != [] && AllCoherent(ds)
    ensures LockedFor(ds, AfterTry(ds, ids[0], rider, lock, attach), IdleFirst(ds, ids), rider)
  {
    assert ids[0] in ds ==> Coherent(CoreOf(ds[ids[0]].driver));
  }

  /** A driver that is Idle when its turn comes is locked in two steps. */
  lemma LockOne(w: World, m: nat, ios: seq<Io>, n: nat) returns (w': World)
    requires m < |w.matches| && w.matches[m].pc.Locking? && n + 2 <= |ios|
    requires var id := w.matches[m].pc.id; id in w.drivers && w.drivers[id].driver.status == Idle
    ensures Continues(w, n, w', n + 2, m, ios)
    ensures var c := w.matches[m];
            w' == With(w, m, MatchCall(c.rider, c.locked + [c.pc.id], Checking(c.pc.todo)),
                       AfterTry(w.drivers, c.pc.id, c.rider, ios[n], ios[n + 1]), w.groups, w.queue)
  {
    var c := w.matches[m];
    var id := c.pc.id;
    OneStep(w, m, ios, n);
    var w1 := MatchNext(w, m, ios[n]);
    assert w1 == With(w, m, c.(pc := Intending(id, c.pc.todo)), w1.drivers, w.groups, w.queue);
    OneStep(w1, m, ios, n + 1);
    w' := MatchNext(w1, m, ios[n + 1]);
  }

  /** One candidate: skipped in one step, or locked in three. */
  lemma TryOne(w: World, m: nat, ios: seq<Io>, n: nat) returns (w': World, n': nat)
    requires m < |w.matches| && w.matches[m].pc.Checking? && w.matches[m].pc.todo != [] && n + 3 <= |ios|
    ensures n' == n + (if IdleFirst(w.drivers, w.matches[m].pc.todo) != [] then 3 else 1)
    ensures Continues(w, n, w', n', m, ios)
    ensures var c := w.matches[m];
            w' == With(w, m, MatchCall(c.rider, c.locked + IdleFirst(w.drivers, c.pc.todo), Checking(c.pc.todo[1..])),
                       AfterTry(w.drivers, c.pc.todo[0], c.rider, ios[n + 1], ios[n + 2]), w.groups, w.queue)
  {
    var c := w.matches[m];
    var id := c.pc.todo[0];
    OneStep(w, m, ios, n);
    w', n' := MatchNext(w, m, ios[n]), n + 1;
    if id in w.drivers && w.drivers[id].driver.status == Idle {
      assert w' == With(w, m, c.(pc := Locking(id, c.pc.todo[1..])), w.drivers, w.groups, w.queue);
      w' := LockOne(w', m, ios, n + 1);
      n' := n + 3;
    } else {
      assert c.locked + [] == c.locked;
    }
  }

  lemma LocksAddUp(ds: Drivers, ds1: Drivers, ds2: Drivers, a: seq<string>, b: seq<string>, rider: string)
    requires LockedFor(ds, ds1, a, rider) && LockedFor(ds1, ds2, b, rider)
    requires forall id :: id in a ==> id !in b
    ensures LockedFor(ds, ds2, a + b, rider)
  {
  }

  /** Trying the first of `ids` does not change which of the others are Idle. */
  lemma IdleOfRest(ds: Drivers, ds1: Drivers, ids: seq<string>, rider: string)
    requires ids != [] && Distinct(ids) && LockedFor(ds, ds1, IdleFirst(ds, ids), rider)
    ensures IdleOf(ds, ids) == IdleFirst(ds, ids) + IdleOf(ds1, ids[1..])
    ensures ids[0] !in IdleOf(ds1, ids[1..]) && Distinct(ids[1..])
  {
    assert ids == [ids[0]] + ids[1..];
    DistinctHead(ids[0], ids[1..]);
    IdleOfFrame(ds, ds1, ids[1..], ids[0]);
    IdleOfMembers(ds1, ids[1..]);
  }

  lemma CoherentAfterLock(ds: Drivers, ds': Drivers, locked: seq<string>, rider: string)
    requires AllCoherent(ds) && LockedFor(ds, ds', locked, rider)
    ensures AllCoherent(ds')
  {
  }

  /** Where the candidate loop stands: the repository, the drivers locked, the readings used. */
  datatype Progress = Progress(drivers: Drivers, locked: seq<string>, used: nat)

  /** One candidate uses one reading when skipped and three when locked. */
  function Tried(l: Progress, todo: seq<string>, rider: string, ios: seq<Io>): Progress
    requires todo != [] && l.used + 3 <= |ios|
  {
    var first := IdleFirst(l.drivers, todo);
    Progress(AfterTry(l.drivers, todo[0], rider, ios[l.used + 1], ios[l.used + 2]), l.locked + first, l.used + if first != [] then 3 else 1)
  }

  /** The rest of the candidate loop. */
  function TriedAll(l: Progress, todo: seq<string>, rider: string, ios: seq<Io>): (r: Progress)
    requires l.used + 3 * |todo| <= |ios|
    ensures l.used <= r.used <= l.used + 3 * |todo| && |r.locked| <= |l.locked| + |todo|
    decreases |todo|
  {
    if todo == [] then l else TriedAll(Tried(l, todo, rider, ios), todo[1..], rider, ios)
  }

  lemma {:induction false} CandidateSteps(w: World, m: nat, ios: seq<Io>, n: nat)
    requires m < |w.matches| && w.matches[m].pc.Checking? && n + 3 * |w.matches[m].pc.todo| <= |ios|
    ensures var c := w.matches[m];
            var l := TriedAll(Progress(w.drivers, c.locked, n), c.pc.todo, c.rider, ios);
            Continues(w, n, With(w, m, MatchCall(c.rider, l.locked, Checking([])), l.drivers, w.groups, w.queue), l.used, m, ios)
    decreases |w.matches[m].pc.todo|
  {
    var c := w.matches[m];
    if c.pc.todo == [] {
      assert w == With(w, m, MatchCall(c.rider, c.locked, Checking([])), w.drivers, w.groups, w.queue);
    } else {
      var w1, n1 := TryOne(w, m, ios, n);
      CandidateSteps(w1, m, ios, n1);
      var l1 := Tried(Progress(w.drivers, c.locked, n), c.pc.todo, c.rider, ios);
      assert l1 == Progress(w1.drivers, w1.matches[m].locked, n1);
      var l := TriedAll(l1, c.pc.todo[1..], c.rider, ios);
      WithTwice(w, m, w1.matches[m], w1.drivers, w.groups, w.queue, MatchCall(c.rider, l.locked, Checking([])), l.drivers, w.groups, w.queue);
    }
  }

  lemma AfterTryFrame(ds: Drivers, id: string, rider: string, lock: Io, attach: Io)
    ensures var ds' := AfterTry(ds, id, rider, lock, attach);
            ds'.Keys == ds.Keys && forall x :: x in ds && x != id ==> ds'[x] == ds[x]
  {
  }

  /** On any repository the drivers locked are those that are Idle to begin with, in order; with none
      nothing changes. */
  lemma {:induction false} LockedAreTheIdle(l: Progress, todo: seq<string>, rider: string, ios: seq<Io>)
    requires l.used + 3 * |todo| <= |ios| && Distinct(todo)
    ensures var r := TriedAll(l, todo, rider, ios);
            r.locked == l.locked + IdleOf(l.drivers, todo) && (IdleOf(l.drivers, todo) == [] ==> r.drivers == l.drivers)
    decreases |todo|
  {
    if todo == [] {
      assert l.locked + [] == l.locked;
    } else {
      var first, l1 := IdleFirst(l.drivers, todo), Tried(l, todo, rider, ios);
      assert todo == [todo[0]] + todo[1..];
      DistinctHead(todo[0], todo[1..]);
      AfterTryFrame(l.drivers, todo[0], rider, ios[l.used + 1], ios[l.used + 2]);
      IdleOfFrame(l.drivers, l1.drivers, todo[1..], todo[0]);
      LockedAreTheIdle(l1, todo[1..], rider, ios);
      var more := IdleOf(l.drivers, todo[1..]);
      assert l.locked + (first + more) == (l.locked + first) + more;
    }
  }

  /** `small` is what is left of `large` when some elements are taken out. */
  ghost predicate InOrderOf(small: seq<string>, large: seq<string>) {
    forall i, j :: 0 <= i < j < |small| ==> Precedes(large, small[i], small[j])
  }

  ghost predicate Precedes(s: seq<string>, x: string, y: string) {
    exists a, b :: 0 <= a < b < |s| && s[a] == x && s[b] == y
  }

  lemma PrecedesLater(s: seq<string>, x: string, y: string)
    requires s != [] && (Precedes(s[1..], x, y) || (s[0] == x && y in s[1..]))
    ensures Precedes(s, x, y)
  {
    if Precedes(s[1..], x, y) {
      var a, b :| 0 <= a < b < |s[1..]| && s[1..][a] == x && s[1..][b] == y;
      assert s[a + 1] == x && s[b + 1] == y;
    } else {
      var b :| 0 <= b < |s[1..]| && s[1..][b] == y;
      assert s[b + 1] == y;
    }
  }

  lemma {:induction false} IdleKeepsOrder(ds: Drivers, ids: seq<string>)
    requires Distinct(ids)
    ensures InOrderOf(IdleOf(ds, ids), ids)
  {
    if ids == [] {
    } else {
      assert ids == [ids[0]] + ids[1..];
      DistinctHead(ids[0], ids[1..]);
      IdleKeepsOrder(ds, ids[1..]);
      IdleOfMembers(ds, ids[1..]);
      var all, first, rest := IdleOf(ds, ids), IdleFirst(ds, ids), IdleOf(ds, ids[1..]);
      forall i, j | 0 <= i < j < |all| ensures Precedes(ids, all[i], all[j]) {
        assert all[j] == rest[j - |first|];
        if i >= |first| {
          assert all[i] == rest[i - |first|];
        }
        PrecedesLater(ids, all[i], all[j]);
      }
    }
  }

  /** The candidate loop locks exactly the drivers that are Idle to begin with. */
  lemma {:induction false} LocksTheIdle(l: Progress, todo: seq<string>, rider: string, ios: seq<Io>)
    requires l.used + 3 * |todo| <= |ios| && Distinct(todo) && AllCoherent(l.drivers)
    ensures var r := TriedAll(l, todo, rider, ios); var idle := IdleOf(l.drivers, todo);
            r.locked == l.locked + idle && LockedFor(l.drivers, r.drivers, idle, rider)
    decreases |todo|
  {
    if todo == [] {
      assert l.locked + [] == l.locked;
    } else {
      var first, l1 := IdleFirst(l.drivers, todo), Tried(l, todo, rider, ios);
      AfterTryLocks(l.drivers, todo, rider, ios[l.used + 1], ios[l.used + 2]);
      IdleOfRest(l.drivers, l1.drivers, todo, rider);
      CoherentAfterLock(l.drivers, l1.drivers, first, rider);
      LocksTheIdle(l1, todo[1..], rider, ios);
      var r, more := TriedAll(l1, todo[1..], rider, ios), IdleOf(l1.drivers, todo[1..]);
      LocksAddUp(l.drivers, l1.drivers, r.drivers, first, more, rider);
      assert l.locked + (first + more) == (l.locked + first) + more;
    }
  }

  /** Every driver's core is as it was. */
  ghost predicate CoresRestored(ds: Drivers, ds': Drivers) {
    ds'.Keys == ds.Keys && forall id :: id in ds ==> CoreOf(ds'[id].driver) == CoreOf(ds[id].driver)
  }

  /** One round of the rollback loop. */
  function AfterUndo(ds: Drivers, id: string, clear: Io, free: Io): Drivers {
    Transitioned(IntentCleared(ds, id, clear.now), id, Idle, free.now, free.later)
  }

  lemma UndoOne(w: World, m: nat, ios: seq<Io>, n: nat)
    requires m < |w.matches| && w.matches[m].pc.Undoing? && w.matches[m].pc.left != [] && n + 2 <= |ios|
    ensures var c := w.matches[m];
            Continues(w, n, With(w, m, c.(pc := Undoing(c.pc.left[1..])), AfterUndo(w.drivers, c.pc.left[0], ios[n], ios[n + 1]), w.groups, w.queue), n + 2, m, ios)
  {
    var c := w.matches[m];
    OneStep(w, m, ios, n);
    var w1 := MatchNext(w, m, ios[n]);
    assert w1 == With(w, m, c.(pc := Freeing(c.pc.left[0], c.pc.left[1..])), IntentCleared(w.drivers, c.pc.left[0], ios[n].now), w.groups, w.queue);
    OneStep(w1, m, ios, n + 1);
    assert MatchNext(w1, m, ios[n + 1]) == With(w, m, c.(pc := Undoing(c.pc.left[1..])), AfterUndo(w.drivers, c.pc.left[0], ios[n], ios[n + 1]), w.groups, w.queue);
  }

  /** The rest of the rollback loop. */
  function UndoneAll(ds: Drivers, left: seq<string>, ios: seq<Io>, n: nat): Drivers
    requires n + 2 * |left| <= |ios|
    decreases |left|
  {
    if left == [] then ds else UndoneAll(AfterUndo(ds, left[0], ios[n], ios[n + 1]), left[1..], ios, n + 2)
  }

  lemma {:induction false} RollbackSteps(w: World, m: nat, ios: seq<Io>, n: nat)
    requires m < |w.matches| && w.matches[m].pc.Undoing? && n + 2 * |w.matches[m].pc.left| + 1 <= |ios|
    ensures RunCall(w, m, ios[n..]) == With(w, m, w.matches[m].(pc := Done(false)), UndoneAll(w.drivers, w.matches[m].pc.left, ios, n), w.groups, w.queue)
    decreases |w.matches[m].pc.left|
  {
    var c := w.matches[m];
    if c.pc.left == [] {
      CallStep(w, m, ios, n);
    } else {
      UndoOne(w, m, ios, n);
      var ds := AfterUndo(w.drivers, c.pc.left[0], ios[n], ios[n + 1]);
      RollbackSteps(With(w, m, c.(pc := Undoing(c.pc.left[1..])), ds, w.groups, w.queue), m, ios, n + 2);
      WithTwice(w, m, c.(pc := Undoing(c.pc.left[1..])), ds, w.groups, w.queue,
                c.(pc := Done(false)), UndoneAll(ds, c.pc.left[1..], ios, n + 2), w.groups, w.queue);
    }
  }

  /** The rollback loop, from a repository that differs from `before` in that exactly `left` is locked. */
  lemma {:induction false} RollbackRestores(before: Drivers, ds: Drivers, left: seq<string>, ios: seq<Io>, n: nat)
    requires n + 2 * |left| <= |ios| && Distinct(left) && ds.Keys == before.Keys
    requires forall id :: id in before && id !in left ==> CoreOf(ds[id].driver) == CoreOf(before[id].driver)
    requires forall id :: id in left ==> id in before && CoreOf(before[id].driver) == IDLE_CORE && ds[id].driver.status == Matching
    ensures CoresRestored(before, UndoneAll(ds, left, ios, n))
    decreases |left|
  {
    if left == [] {
    } else {
      var id, rest, ds1 := left[0], left[1..], AfterUndo(ds, left[0], ios[n], ios[n + 1]);
      assert left == [id] + rest;
      DistinctHead(id, rest);
      assert CoreOf(ds1[id].driver) == IDLE_CORE;
      RollbackRestores(before, ds1, rest, ios, n + 2);
    }
  }

  /** The offers of `left` pushed in order, as far as the queue has room. */
  function PushedAll(queue: seq<OfferEvent>, capacity: nat, left: seq<string>, rider: string): seq<OfferEvent>
    decreases |left|
  {
    if left == [] then queue else PushedAll(Pushed(queue, capacity, OfferEvent(left[0], rider, 0)), capacity, left[1..], rider)
  }

  /** The offers are queued in order, up to the first that finds the queue full, and none after it. */
  lemma {:induction false} OffersAsRoomAllows(queue: seq<OfferEvent>, capacity: nat, left: seq<string>, rider: string)
    requires |queue| <= capacity
    ensures var n := if |left| <= capacity - |queue| then |left| else capacity - |queue|;
            PushedAll(queue, capacity, left, rider) == queue + seq(n, i requires 0 <= i < n => OfferEvent(left[i], rider, 0))
    decreases |left|
  {
    if left == [] {
    } else {
      OffersAsRoomAllows(Pushed(queue, capacity, OfferEvent(left[0], rider, 0)), capacity, left[1..], rider);
    }
  }

  lemma {:induction false} EnqueueSteps(w: World, m: nat, ios: seq<Io>, n: nat)
    requires m < |w.matches| && w.matches[m].pc.Enqueuing? && n + |w.matches[m].pc.left| + 1 <= |ios|
    ensures RunCall(w, m, ios[n..])
            == With(w, m, w.matches[m].(pc := Done(true)), w.drivers, w.groups, PushedAll(w.queue, w.capacity, w.matches[m].pc.left, w.matches[m].rider))
    decreases |w.matches[m].pc.left|
  {
    CallStep(w, m, ios, n);
    if w.matches[m].pc.left == [] {
    } else {
      EnqueueSteps(MatchNext(w, m, ios[n]), m, ios, n + 1);
    }
  }

  function ReplyOf(io: Io): Reply {
    Reply(io.redisFails, io.applied)
  }

  /** The three commands of group creation are exactly `Create`. */
  lemma CreateSteps(w: World, m: nat, ios: seq<Io>, n: nat) returns (w': World, n': nat)
    requires m < |w.matches| && w.matches[m].pc.Creating? && n + 3 <= |ios|
    ensures n' == n + CommandsSent(w.groups, w.matches[m].rider, ReplyOf(ios[n]), ReplyOf(ios[n + 1]))
    ensures Continues(w, n, w', n', m, ios)
    ensures var c := w.matches[m];
            var (gs, ok) := CreateOutcome(w.groups, c.rider, GROUP_TTL, ios[n + 1].now, ReplyOf(ios[n]), ReplyOf(ios[n + 1]), ReplyOf(ios[n + 2]));
            w' == With(w, m, c.(pc := if ok then Enqueuing(c.locked) else Undoing(c.locked)), w.drivers, gs, w.queue)
  {
    var c := w.matches[m];
    OneStep(w, m, ios, n);
    w', n' := MatchNext(w, m, ios[n]), n + 1;
    if !ios[n].redisFails && Creates(w.groups, c.rider) {
      assert w' == With(w, m, c.(pc := Stamping), w.drivers, AfterHSetNX(w.groups, c.rider), w.queue);
      w', n' := StampSteps(w', m, ios, n + 1);
    }
  }

  lemma StampSteps(w: World, m: nat, ios: seq<Io>, n: nat) returns (w': World, n': nat)
    requires m < |w.matches| && w.matches[m].pc.Stamping? && n + 2 <= |ios|
    ensures n' == n + (if ios[n].redisFails then 1 else 2) && Continues(w, n, w', n', m, ios)
    ensures var c := w.matches[m];
            var gs := if Effective(ReplyOf(ios[n])) then AfterHSet(w.groups, c.rider, ios[n].now) else w.groups;
            w' == if ios[n].redisFails then With(w, m, c.(pc := Undoing(c.locked)), w.drivers, gs, w.queue)
                  else With(w, m, c.(pc := if ios[n + 1].redisFails then Undoing(c.locked) else Enqueuing(c.locked)), w.drivers,
                            if Effective(ReplyOf(ios[n + 1])) then AfterExpire(gs, c.rider, GROUP_TTL) else gs, w.queue)
  {
    var c := w.matches[m];
    OneStep(w, m, ios, n);
    w', n' := MatchNext(w, m, ios[n]), n + 1;
    if !ios[n].redisFails {
      assert w' == With(w, m, c.(pc := Arming), w.drivers, AfterHSet(w.groups, c.rider, ios[n].now), w.queue);
      OneStep(w', m, ios, n + 1);
      w', n' := MatchNext(w', m, ios[n + 1]), n + 2;
    }
  }

  const MATCH_STEPS := 20

  /** From group creation, at reading `at`, to the end. */
  function Finished(w: World, m: nat, ios: seq<Io>, at: nat): World
    requires m < |w.matches| && at + 10 <= |ios| && |w.matches[m].locked| <= FANOUT
  {
    var c := w.matches[m];
    var (gs, ok) := CreateOutcome(w.groups, c.rider, GROUP_TTL, ios[at + 1].now, ReplyOf(ios[at]), ReplyOf(ios[at + 1]), ReplyOf(ios[at + 2]));
    var n := at + CommandsSent(w.groups, c.rider, ReplyOf(ios[at]), ReplyOf(ios[at + 1]));
    if ok then With(w, m, c.(pc := Done(true)), w.drivers, gs, PushedAll(w.queue, w.capacity, c.locked, c.rider))
    else With(w, m, c.(pc := Done(false)), UndoneAll(w.drivers, c.locked, ios, n), gs, w.queue)
  }

  lemma FinishSteps(w: World, m: nat, ios: seq<Io>, at: nat)
    requires m < |w.matches| && w.matches[m].pc.Creating? && at + 10 <= |ios| && |w.matches[m].locked| <= FANOUT
    ensures RunCall(w, m, ios[at..]) == Finished(w, m, ios, at)
  {
    var c := w.matches[m];
    var w1, n1 := CreateSteps(w, m, ios, at);
    if w1.matches[m].pc.Enqueuing? {
      EnqueueSteps(w1, m, ios, n1);
      WithTwice(w, m, w1.matches[m], w.drivers, w1.groups, w.queue,
                c.(pc := Done(true)), w.drivers, w1.groups, PushedAll(w.queue, w.capacity, c.locked, c.rider));
    } else {
      RollbackSteps(w1, m, ios, n1);
      WithTwice(w, m, w1.matches[m], w.drivers, w1.groups, w.queue,
                c.(pc := Done(false)), UndoneAll(w.drivers, c.locked, ios, n1), w1.groups, w.queue);
    }
  }

  function Candidates(w: World, m: nat, ios: seq<Io>): Progress
    requires m < |w.matches| && w.matches[m].pc.Checking? && |w.matches[m].pc.todo| <= FANOUT && |ios| >= MATCH_STEPS
  {
    TriedAll(Progress(w.drivers, [], 0), w.matches[m].pc.todo, w.matches[m].rider, ios)
  }

  /** Where group creation is tried when some candidate could be locked. */
  function Locked(w: World, m: nat, l: Progress): World
    requires m < |w.matches|
  {
    With(w, m, MatchCall(w.matches[m].rider, l.locked, Creating), l.drivers, w.groups, w.queue)
  }

  /** What a whole Match call leaves behind. */
  function Matched(w: World, m: nat, ios: seq<Io>): World
    requires m < |w.matches| && w.matches[m].pc.Checking? && |w.matches[m].pc.todo| <= FANOUT && |ios| >= MATCH_STEPS
  {
    var rider, l := w.matches[m].rider, Candidates(w, m, ios);
    if l.locked == [] then With(w, m, MatchCall(rider, [], Done(false)), l.drivers, w.groups, w.queue)
    else Finished(Locked(w, m, l), m, ios, l.used + 1)
  }

  lemma LockedSteps(w: World, m: nat, ios: seq<Io>, l: Progress)
    requires m < |w.matches| && l.used + 11 <= |ios| && |l.locked| <= FANOUT
    ensures var rider := w.matches[m].rider;
            RunCall(With(w, m, MatchCall(rider, l.locked, Checking([])), l.drivers, w.groups, w.queue), m, ios[l.used..])
            == if l.locked == [] then With(w, m, MatchCall(rider, [], Done(false)), l.drivers, w.groups, w.queue)
               else Finished(Locked(w, m, l), m, ios, l.used + 1)
  {
    var rider := w.matches[m].rider;
    var w1 := With(w, m, MatchCall(rider, l.locked, Checking([])), l.drivers, w.groups, w.queue);
    CallStep(w1, m, ios, l.used);
    var w2 := MatchNext(w1, m, ios[l.used]);
    if l.locked == [] {
      assert w2 == With(w, m, MatchCall(rider, [], Done(false)), l.drivers, w.groups, w.queue);
    } else {
      assert w2 == Locked(w, m, l);
      FinishSteps(w2, m, ios, l.used + 1);
    }
  }

  /** The big step is what the atomic steps add up to. */
  lemma MatchedIsRun(w: World, m: nat, ios: seq<Io>)
    requires m < |w.matches| && w.matches[m].pc.Checking? && w.matches[m].locked == []
    requires |w.matches[m].pc.todo| <= FANOUT && |ios| >= MATCH_STEPS
    ensures RunCall(w, m, ios) == Matched(w, m, ios)
  {
    assert ios[0..] == ios;
    CandidateSteps(w, m, ios, 0);
    LockedSteps(w, m, ios, Candidates(w, m, ios));
  }

  /** After locking `locked` in `w`, with the replies from reading `at` on: the call succeeds exactly when
      none of the commands it sent has failed, whatever group the rider had. Then the ride is offered to
      all of them, and the rider has the group it had or a new one, pending and expiring in 5 seconds.
      Otherwise every driver's status, intent and matching time is as before the call. */
  ghost predicate OffersOrRestores(w: World, m: nat, locked: seq<string>, ios: seq<Io>, at: nat, w': World)
    requires m < |w.matches| && at + 3 <= |ios|
  {
    var rider := w.matches[m].rider;
    var open := rider in w.groups && w.groups[rider].status.Some?;
    var ok := !ios[at].redisFails && (open || (!ios[at + 1].redisFails && !ios[at + 2].redisFails));
    && w' == With(w, m, MatchCall(rider, locked, Done(ok)), w'.drivers, w'.groups, w'.queue)
    && w'.groups - {rider} == w.groups - {rider}
    && (open ==> w'.groups == w.groups)
    && (ok && !open ==> w'.groups == w.groups[rider := Hash(Some(Pending), HashOf(w.groups, rider).winner, Some(ios[at + 1].now), Some(5))])
    && if ok then LockedFor(w.drivers, w'.drivers, locked, rider) && w'.queue == PushedAll(w.queue, w.capacity, locked, rider)
       else CoresRestored(w.drivers, w'.drivers) && w'.queue == w.queue
  }

  lemma CreationInWorld(w: World, m: nat, ios: seq<Io>, at: nat)
    requires m < |w.matches| && at + 3 <= |ios|
    ensures var rider := w.matches[m].rider;
            var open := rider in w.groups && w.groups[rider].status.Some?;
            var (gs, ok) := CreateOutcome(w.groups, rider, GROUP_TTL, ios[at + 1].now, ReplyOf(ios[at]), ReplyOf(ios[at + 1]), ReplyOf(ios[at + 2]));
            && (ok <==> !ios[at].redisFails && (open || (!ios[at + 1].redisFails && !ios[at + 2].redisFails)))
            && gs - {rider} == w.groups - {rider}
            && (open ==> gs == w.groups)
            && (ok && !open ==> gs == w.groups[rider := Hash(Some(Pending), HashOf(w.groups, rider).winner, Some(ios[at + 1].now), Some(5))])
  {
    var rider := w.matches[m].rider;
    CreateIsIdempotent(w.groups, rider, GROUP_TTL, ios[at + 1].now, ReplyOf(ios[at]), ReplyOf(ios[at + 1]), ReplyOf(ios[at + 2]));
  }

  lemma SoloFinish(w: World, m: nat, ios: seq<Io>, l: Progress)
    requires m < |w.matches| && l.used + 11 <= |ios| && |l.locked| <= FANOUT && Distinct(l.locked)
    requires LockedFor(w.drivers, l.drivers, l.locked, w.matches[m].rider)
    ensures OffersOrRestores(w, m, l.locked, ios, l.used + 1, Finished(Locked(w, m, l), m, ios, l.used + 1))
  {
    var rider, at, w1 := w.matches[m].rider, l.used + 1, Locked(w, m, l);
    assert w1.matches[m] == MatchCall(rider, l.locked, Creating);
    CreationInWorld(w, m, ios, at);
    var n := at + CommandsSent(w.groups, rider, ReplyOf(ios[at]), ReplyOf(ios[at + 1]));
    RollbackRestores(w.drivers, l.drivers, l.locked, ios, n);
    var w' := Finished(w1, m, ios, at);
    WithTwice(w, m, w1.matches[m], l.drivers, w.groups, w.queue, w'.matches[m], w'.drivers, w'.groups, w'.queue);
  }

  /** What a lone Match call may do from `w`, leaving `w'`: with no candidate Idle it changes nothing,
      and otherwise it locks exactly the Idle ones, in order. */
  ghost predicate FansOutOrRollsBack(w: World, m: nat, ios: seq<Io>, w': World)
    requires m < |w.matches| && w.matches[m].pc.Checking? && |w.matches[m].pc.todo| <= FANOUT && |ios| >= MATCH_STEPS
  {
    var idle := IdleOf(w.drivers, w.matches[m].pc.todo);
    if idle == [] then w' == With(w, m, MatchCall(w.matches[m].rider, [], Done(false)), w.drivers, w.groups, w.queue)
    else OffersOrRestores(w, m, idle, ios, Candidates(w, m, ios).used + 1, w')
  }

  lemma CandidatesLocked(w: World, m: nat, ios: seq<Io>)
    requires m < |w.matches| && w.matches[m].pc.Checking? && |w.matches[m].pc.todo| <= FANOUT && |ios| >= MATCH_STEPS
    requires Distinct(w.matches[m].pc.todo) && AllCoherent(w.drivers)
    ensures var l, idle := Candidates(w, m, ios), IdleOf(w.drivers, w.matches[m].pc.todo);
            l.locked == idle && LockedFor(w.drivers, l.drivers, idle, w.matches[m].rider) && Distinct(idle) && |idle| <= FANOUT
  {
    var todo := w.matches[m].pc.todo;
    LocksTheIdle(Progress(w.drivers, [], 0), todo, w.matches[m].rider, ios);
    assert [] + IdleOf(w.drivers, todo) == IdleOf(w.drivers, todo);
    IdleOfMembers(w.drivers, todo);
  }

  lemma MatchedFinishes(w: World, m: nat, ios: seq<Io>, l: Progress)
    requires m < |w.matches| && w.matches[m].pc.Checking? && |w.matches[m].pc.todo| <= FANOUT && |ios| >= MATCH_STEPS
    requires l == Candidates(w, m, ios) && l.locked != [] && |l.locked| <= FANOUT
    ensures Matched(w, m, ios) == Finished(Locked(w, m, l), m, ios, l.used + 1)
  {
  }

  lemma MatchedOffers(w: World, m: nat, ios: seq<Io>, l: Progress)
    requires m < |w.matches| && w.matches[m].pc.Checking? && |w.matches[m].pc.todo| <= FANOUT && |ios| >= MATCH_STEPS
    requires l == Candidates(w, m, ios) && l.locked != [] && |l.locked| <= FANOUT && Distinct(l.locked)
    requires LockedFor(w.drivers, l.drivers, l.locked, w.matches[m].rider)
    ensures OffersOrRestores(w, m, l.locked, ios, l.used + 1, Matched(w, m, ios))
  {
    MatchedFinishes(w, m, ios, l);
    SoloFinish(w, m, ios, l);
  }

  lemma FansOutFrom(w: World, m: nat, ios: seq<Io>, l: Progress, w': World)
    requires m < |w.matches| && w.matches[m].pc.Checking? && |w.matches[m].pc.todo| <= FANOUT && |ios| >= MATCH_STEPS
    requires l == Candidates(w, m, ios) && l.locked == IdleOf(w.drivers, w.matches[m].pc.todo)
    requires if l.locked == [] then w' == With(w, m, MatchCall(w.matches[m].rider, [], Done(false)), w.drivers, w.groups, w.queue)
             else OffersOrRestores(w, m, l.locked, ios, l.used + 1, w')
    ensures FansOutOrRollsBack(w, m, ios, w')
  {
  }

  /** Run alone on a coherent repository, for candidates that name no driver twice. */
  lemma MatchedFansOut(w: World, m: nat, ios: seq<Io>)
    requires m < |w.matches| && w.matches[m].pc.Checking? && |ios| >= MATCH_STEPS
    requires |w.matches[m].pc.todo| <= FANOUT && Distinct(w.matches[m].pc.todo) && AllCoherent(w.drivers)
    ensures FansOutOrRollsBack(w, m, ios, Matched(w, m, ios))
  {
    CandidatesLocked(w, m, ios);
    var l := Candidates(w, m, ios);
    if l.locked == [] {
      assert l.drivers == w.drivers;
    } else {
      MatchedOffers(w, m, ios, l);
    }
    FansOutFrom(w, m, ios, l, Matched(w, m, ios));
  }

  /** The same of the atomic steps. */
  lemma SoloMatch(w: World, m: nat, ios: seq<Io>)
    requires m < |w.matches| && w.matches[m].pc.Checking? && w.matches[m].locked == [] && |ios| >= MATCH_STEPS
    requires |w.matches[m].pc.todo| <= FANOUT && Distinct(w.matches[m].pc.todo) && AllCoherent(w.drivers)
    ensures FansOutOrRollsBack(w, m, ios, RunCall(w, m, ios))
  {
    MatchedIsRun(w, m, ios);
    MatchedFansOut(w, m, ios);
  }

  /** The offers of `locked` at the end of the queue, in order, up to the first that finds it full. */
  ghost predicate OffersQueued(queue: seq<OfferEvent>, capacity: nat, locked: seq<string>, rider: string, queue': seq<OfferEvent>) {
    && |queue'| == |queue| + (if |locked| <= capacity - |queue| then |locked| else capacity - |queue|)
    && queue <= queue'
    && forall i :: |queue| <= i < |queue'| && i - |queue| < |locked| ==> queue'[i] == OfferEvent(locked[i - |queue|], rider, 0)
  }

  /** What a lone call that tries `tried` does on any repository: it locks exactly those Idle to begin with,
      in their order; with none it fails and changes nothing; without a Redis failure it otherwise
      succeeds, whatever group the rider had; and only if it succeeds are offers queued. */
  ghost predicate LocksAndOffers(w: World, m: nat, ios: seq<Io>, tried: seq<string>, locked: seq<string>, ok: bool, w': World)
    requires m < |w.matches|
  {
    && Distinct(locked) && InOrderOf(locked, tried)
    && (forall id :: id in locked <==> id in tried && id in w.drivers && w.drivers[id].driver.status == Idle)
    && (locked == [] ==> !ok && w'.drivers == w.drivers && w'.groups == w.groups)
    && (locked != [] && (forall i :: 0 <= i < |ios| ==> !ios[i].redisFails) ==> ok)
    && (ok && |w.queue| <= w.capacity ==> OffersQueued(w.queue, w.capacity, locked, w.matches[m].rider, w'.queue))
    && (!ok ==> w'.queue == w.queue)
  }

  lemma MatchedLocksAndOffers(w: World, m: nat, ios: seq<Io>)
    requires m < |w.matches| && w.matches[m].pc.Checking? && |ios| >= MATCH_STEPS
    requires |w.matches[m].pc.todo| <= FANOUT && Distinct(w.matches[m].pc.todo)
    ensures var todo, w' := w.matches[m].pc.todo, Matched(w, m, ios);
            && |w'.matches| == |w.matches| && w'.matches[m].pc.Done?
            && LocksAndOffers(w, m, ios, todo, w'.matches[m].locked, w'.matches[m].pc.ok, w')
  {
    var todo, l := w.matches[m].pc.todo, Candidates(w, m, ios);
    LockedAreTheIdle(Progress(w.drivers, [], 0), todo, w.matches[m].rider, ios);
    assert [] + IdleOf(w.drivers, todo) == IdleOf(w.drivers, todo);
    IdleOfMembers(w.drivers, todo);
    IdleKeepsOrder(w.drivers, todo);
    if l.locked != [] {
      MatchedFinishes(w, m, ios, l);
      FinishedOffers(w, m, ios, l);
    }
  }

  lemma FinishedOffers(w: World, m: nat, ios: seq<Io>, l: Progress)
    requires m < |w.matches| && l.used + 11 <= |ios| && |l.locked| <= FANOUT
    ensures var w' := Finished(Locked(w, m, l), m, ios, l.used + 1);
            && |w'.matches| == |w.matches| && w'.matches[m].pc.Done? && w'.matches[m].locked == l.locked
            && ((forall i :: 0 <= i < |ios| ==> !ios[i].redisFails) ==> w'.matches[m].pc.ok)
            && (w'.matches[m].pc.ok && |w.queue| <= w.capacity ==> OffersQueued(w.queue, w.capacity, l.locked, w.matches[m].rider, w'.queue))
            && (!w'.matches[m].pc.ok ==> w'.queue == w.queue)
  {
    CreationInWorld(Locked(w, m, l), m, ios, l.used + 1);
    if |w.queue| <= w.capacity {
      OffersAsRoomAllows(w.queue, w.capacity, l.locked, w.matches[m].rider);
    }
  }

  /** The same of the atomic steps. */
  lemma SoloMatchLocksAndOffers(w: World, m: nat, ios: seq<Io>)
    requires m < |w.matches| && w.matches[m].pc.Checking? && w.matches[m].locked == [] && |ios| >= MATCH_STEPS
    requires |w.matches[m].pc.todo| <= FANOUT && Distinct(w.matches[m].pc.todo)
    ensures var todo, w' := w.matches[m].pc.todo, RunCall(w, m, ios);
            && |w'.matches| == |w.matches| && w'.matches[m].pc.Done?
            && LocksAndOffers(w, m, ios, todo, w'.matches[m].locked, w'.matches[m].pc.ok, w')
  {
    MatchedIsRun(w, m, ios);
    MatchedLocksAndOffers(w, m, ios);
  }

  // ---- what a response handler does alone ----

  const HANDLER_STEPS := 5

  /** What a handler leaves in the stores, and where its worker goes on. */
  datatype HandlerEnd = HandlerEnd(worker: Worker, drivers: Drivers, groups: Groups, rides: Rides)

  function Ended(w: World, k: nat, e: HandlerEnd): World
    requires k < |w.workers|
  {
    w.(workers := w.workers[k := e.worker], drivers := e.drivers, groups := e.groups, rides := e.rides)
  }

  lemma EndedTwice(w: World, k: nat, e1: HandlerEnd, e2: HandlerEnd)
    requires k < |w.workers|
    ensures Ended(Ended(w, k, e1), k, e2) == Ended(w, k, e2)
  {
    assert w.workers[k := e1.worker][k := e2.worker] == w.workers[k := e2.worker];
  }

  /** The driver is let go. */
  function Released(ev: OfferEvent, failed: bool, ds: Drivers, gs: Groups, rs: Rides, clear: Io, free: Io): HandlerEnd {
    HandlerEnd(if failed then Retrying(ev) else Waiting, AfterUndo(ds, ev.driver, clear, free), gs, rs)
  }

  /** From a won arbitration to the end. */
  function Finalized(ev: OfferEvent, ds: Drivers, gs: Groups, rs: Rides, ios: seq<Io>): HandlerEnd
    requires |ios| >= HANDLER_STEPS
  {
    if HasActive(rs, ev.rider) then Released(ev, false, ds, gs, rs, ios[3], ios[4])
    else HandlerEnd(if TransitionAllowed(ds, ev.driver, Busy) then Waiting else Retrying(ev),
                    Transitioned(ds, ev.driver, Busy, ios[3].now, ios[3].later), gs,
                    CreatedIfAbsent(rs, ev.rider, ev.driver, ios[2].rideId, ios[2].now))
  }

  /** From an acceptance to the end. */
  function Arbitrated(ev: OfferEvent, ds: Drivers, gs: Groups, rs: Rides, ios: seq<Io>): HandlerEnd
    requires |ios| >= HANDLER_STEPS
  {
    var gs' := if Effective(ReplyOf(ios[1])) then Decided(gs, ev.rider, ev.driver) else gs;
    if !ios[1].redisFails && Decide(gs, ev.rider, ev.driver) == Won then Finalized(ev, ds, gs', rs, ios)
    else Released(ev, ios[1].redisFails, ds, gs', rs, ios[2], ios[3])
  }

  /** The whole handler, once the driver has answered. */
  function Handled(ev: OfferEvent, ds: Drivers, gs: Groups, rs: Rides, ios: seq<Io>): HandlerEnd
    requires |ios| >= HANDLER_STEPS
  {
    if ios[0].response == Reject then Released(ev, false, ds, gs, rs, ios[1], ios[2]) else Arbitrated(ev, ds, gs, rs, ios)
  }

  lemma ReleaseSteps(w: World, k: nat, ios: seq<Io>, n: nat)
    requires k < |w.workers| && w.workers[k].Clearing? && n + 2 <= |ios|
    ensures var t := w.workers[k];
            RunHandler(w, k, ios[n..]) == Ended(w, k, Released(t.ev, t.failed, w.drivers, w.groups, w.rides, ios[n], ios[n + 1]))
  {
    var t := w.workers[k];
    HandlerStep(w, k, ios, n);
    var e1 := HandlerEnd(Releasing(t.ev, t.failed), IntentCleared(w.drivers, t.ev.driver, ios[n].now), w.groups, w.rides);
    var w1 := WorkerNext(w, k, ios[n]);
    assert w1 == Ended(w, k, e1);
    HandlerStep(w1, k, ios, n + 1);
    var e := Released(t.ev, t.failed, w.drivers, w.groups, w.rides, ios[n], ios[n + 1]);
    assert WorkerNext(w1, k, ios[n + 1]) == Ended(w1, k, e);
    EndedTwice(w, k, e1, e);
  }

  lemma FinalizeSteps(w: World, k: nat, ios: seq<Io>)
    requires k < |w.workers| && w.workers[k].Finalizing? && |ios| >= HANDLER_STEPS
    ensures RunHandler(w, k, ios[2..]) == Ended(w, k, Finalized(w.workers[k].ev, w.drivers, w.groups, w.rides, ios))
  {
    var ev := w.workers[k].ev;
    var e := Finalized(ev, w.drivers, w.groups, w.rides, ios);
    HandlerStep(w, k, ios, 2);
    var w1 := WorkerNext(w, k, ios[2]);
    var e1 := HandlerEnd(w1.workers[k], w.drivers, w.groups, w1.rides);
    assert w1 == Ended(w, k, e1);
    EndedTwice(w, k, e1, e);
    if HasActive(w.rides, ev.rider) {
      ReleaseSteps(w1, k, ios, 3);
    } else {
      HandlerStep(w1, k, ios, 3);
      assert WorkerNext(w1, k, ios[3]) == Ended(w1, k, e);
    }
  }

  lemma AcceptSteps(w: World, k: nat, ios: seq<Io>)
    requires k < |w.workers| && w.workers[k].Accepting? && |ios| >= HANDLER_STEPS
    ensures RunHandler(w, k, ios[1..]) == Ended(w, k, Arbitrated(w.workers[k].ev, w.drivers, w.groups, w.rides, ios))
  {
    HandlerStep(w, k, ios, 1);
    var w1 := WorkerNext(w, k, ios[1]);
    var e1 := HandlerEnd(w1.workers[k], w.drivers, w1.groups, w.rides);
    assert w1 == Ended(w, k, e1);
    EndedTwice(w, k, e1, Arbitrated(w.workers[k].ev, w.drivers, w.groups, w.rides, ios));
    if w1.workers[k].Finalizing? {
      FinalizeSteps(w1, k, ios);
    } else {
      ReleaseSteps(w1, k, ios, 2);
    }
  }

  /** The big step is what the atomic steps add up to. */
  lemma HandledIsRun(w: World, k: nat, ios: seq<Io>)
    requires k < |w.workers| && w.workers[k].Sending? && |ios| >= HANDLER_STEPS
    ensures RunHandler(w, k, ios) == Ended(w, k, Handled(w.workers[k].ev, w.drivers, w.groups, w.rides, ios))
  {
    assert ios[0..] == ios;
    HandlerStep(w, k, ios, 0);
    var w1 := WorkerNext(w, k, ios[0]);
    var e1 := HandlerEnd(w1.workers[k], w.drivers, w.groups, w.rides);
    assert w1 == Ended(w, k, e1);
    EndedTwice(w, k, e1, Handled(w.workers[k].ev, w.drivers, w.groups, w.rides, ios));
    if ios[0].response == Reject {
      ReleaseSteps(w1, k, ios, 1);
    } else {
      AcceptSteps(w1, k, ios);
    }
  }

  /** The answer that makes a driver Busy: accepted, heard by Redis, first, and with no ride yet. */
  predicate Wins(gs: Groups, rs: Rides, ev: OfferEvent, ios: seq<Io>)
    requires |ios| >= HANDLER_STEPS
  {
    && ios[0].response == Accept && !ios[1].redisFails
    && ev.rider in gs && (gs[ev.rider].status == Some(Pending) || (gs[ev.rider].status == Some(Accepted) && gs[ev.rider].winner == Some(ev.driver)))
    && !(ev.rider in rs && (rs[ev.rider].status == Assigned || rs[ev.rider].status == Ongoing))
  }

  /** The rider's new ride names the driver if the answer wins, and otherwise the rides are as they were.
      A winning driver turns Busy if it is Matching and is left alone if not, which is an error; any other
      ends Idle without an intent, whatever it was. No other driver is touched. */
  ghost predicate Settles(ev: OfferEvent, ds: Drivers, rs: Rides, wins: bool, faulty: bool, ride: Ride, e: HandlerEnd) {
    var matching := ev.driver in ds && ds[ev.driver].driver.status == Matching;
    && e.drivers.Keys == ds.Keys && (forall id :: id in ds && id != ev.driver ==> e.drivers[id] == ds[id])
    && (ev.driver in ds ==>
          var d, d' := ds[ev.driver].driver, e.drivers[ev.driver].driver;
          if wins && !matching then d' == d
          else CoreOf(d') == Core(if wins then Busy else Idle, if d.status == Idle then d.matchingSince else None, None))
    && e.rides == (if wins then rs[ev.rider := ride] else rs)
    && e.worker == if faulty || (wins && !matching) then Retrying(ev) else Waiting
  }

  /** An accepted answer that reaches Redis decides a pending group for the driver; nothing else changes one. */
  ghost predicate Arbitrates(ev: OfferEvent, gs: Groups, ios: seq<Io>, gs': Groups)
    requires |ios| >= HANDLER_STEPS
  {
    gs' == if ios[0].response == Accept && (!ios[1].redisFails || ios[1].applied) && ev.rider in gs && gs[ev.rider].status == Some(Pending)
           then gs[ev.rider := gs[ev.rider].(status := Some(Accepted), winner := Some(ev.driver))] else gs
  }

  lemma ReleasedSettles(ev: OfferEvent, failed: bool, ds: Drivers, gs: Groups, rs: Rides, clear: Io, free: Io, ride: Ride)
    ensures Settles(ev, ds, rs, false, failed, ride, Released(ev, failed, ds, gs, rs, clear, free))
  {
  }

  lemma FinalizedSettles(ev: OfferEvent, ds: Drivers, gs: Groups, rs: Rides, ios: seq<Io>)
    requires |ios| >= HANDLER_STEPS
    ensures Settles(ev, ds, rs, !HasActive(rs, ev.rider), false, Ride(ios[2].rideId, ev.rider, ev.driver, Assigned, ios[2].now, ios[2].now), Finalized(ev, ds, gs, rs, ios))
  {
    if HasActive(rs, ev.rider) {
      ReleasedSettles(ev, false, ds, gs, rs, ios[3], ios[4], Ride(ios[2].rideId, ev.rider, ev.driver, Assigned, ios[2].now, ios[2].now));
    }
  }

  /** The whole handler, on any stores. */
  lemma HandledSettles(ev: OfferEvent, ds: Drivers, gs: Groups, rs: Rides, ios: seq<Io>)
    requires |ios| >= HANDLER_STEPS
    ensures Settles(ev, ds, rs, Wins(gs, rs, ev, ios), ios[0].response == Accept && ios[1].redisFails,
                    Ride(ios[2].rideId, ev.rider, ev.driver, Assigned, ios[2].now, ios[2].now), Handled(ev, ds, gs, rs, ios))
    ensures Arbitrates(ev, gs, ios, Handled(ev, ds, gs, rs, ios).groups)
  {
    var ride := Ride(ios[2].rideId, ev.rider, ev.driver, Assigned, ios[2].now, ios[2].now);
    var gs' := if Effective(ReplyOf(ios[1])) then Decided(gs, ev.rider, ev.driver) else gs;
    if ios[0].response == Reject {
      ReleasedSettles(ev, false, ds, gs, rs, ios[1], ios[2], ride);
    } else if !ios[1].redisFails && Decide(gs, ev.rider, ev.driver) == Won {
      FinalizedSettles(ev, ds, gs', rs, ios);
    } else {
      ReleasedSettles(ev, ios[1].redisFails, ds, gs', rs, ios[2], ios[3], ride);
    }
  }

  /** The same of the atomic steps, run alone. */
  lemma SoloHandler(w: World, k: nat, ios: seq<Io>)
    requires k < |w.workers| && w.workers[k].Sending? && |ios| >= HANDLER_STEPS
    ensures var ev, w' := w.workers[k].ev, RunHandler(w, k, ios);
            && |w'.workers| == |w.workers| && w' == Ended(w, k, HandlerEnd(w'.workers[k], w'.drivers, w'.groups, w'.rides))
            && Settles(ev, w.drivers, w.rides, Wins(w.groups, w.rides, ev, ios), ios[0].response == Accept && ios[1].redisFails,
                       Ride(ios[2].rideId, ev.rider, ev.driver, Assigned, ios[2].now, ios[2].now),
                       HandlerEnd(w'.workers[k], w'.drivers, w'.groups, w'.rides))
            && Arbitrates(ev, w.groups, ios, w'.groups)
  {
    HandledIsRun(w, k, ios);
    HandledSettles(w.workers[k].ev, w.drivers, w.groups, w.rides, ios);
  }

  // ---- what a worker does with one offer, from receiving it to waiting again ----

  function RunDelivery(w: World, k: nat, ios: seq<Io>): World
    requires k < |w.workers| && w.workers[k].Waiting? && w.queue != [] && |ios| >= HANDLER_STEPS + 2
  {
    var handled := RunHandler(WorkerNext(w, k, ios[0]), k, ios[1..HANDLER_STEPS + 1]);
    if k < |handled.workers| && handled.workers[k].Retrying? then WorkerNext(handled, k, ios[HANDLER_STEPS + 1]) else handled
  }

  /** The queue after a delivery: the offer is gone, or back at the end if the handler reported an error. */
  function QueueAfter(queue: seq<OfferEvent>, capacity: nat, e: HandlerEnd): seq<OfferEvent>
    requires queue != []
  {
    if e.worker.Retrying? then Retried(queue[1..], capacity, queue[0]) else queue[1..]
  }

  /** The steps from receiving an offer to waiting for the next add up to the handler's big step and,
      after an error, one retry. */
  lemma DeliveryIsRun(w: World, k: nat, ios: seq<Io>)
    requires k < |w.workers| && w.workers[k].Waiting? && w.queue != [] && |ios| >= HANDLER_STEPS + 2
    ensures var e := Handled(w.queue[0], w.drivers, w.groups, w.rides, ios[1..HANDLER_STEPS + 1]);
            && e.worker == (if e.worker.Retrying? then Retrying(w.queue[0]) else Waiting)
            && RunDelivery(w, k, ios) == w.(drivers := e.drivers, groups := e.groups, rides := e.rides, queue := QueueAfter(w.queue, w.capacity, e))
  {
    var ev, answers := w.queue[0], ios[1..HANDLER_STEPS + 1];
    var e := Handled(ev, w.drivers, w.groups, w.rides, answers);
    var w1 := w.(workers := w.workers[k := Sending(ev)], queue := w.queue[1..]);
    assert WorkerNext(w, k, ios[0]) == w1;
    HandledIsRun(w1, k, answers);
    var w2 := Ended(w1, k, e);
    assert w2.workers == w.workers[k := e.worker];
    if e.worker.Retrying? {
      assert WorkerNext(w2, k, ios[HANDLER_STEPS + 1]).workers == w.workers;
    } else {
      assert w2.workers == w.workers;
    }
  }
}
