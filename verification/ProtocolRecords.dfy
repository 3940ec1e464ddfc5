/** What every run keeps about the driver records: they stay coherent, every status
    change follows the state machine, and location updates never lose a status change. */
module ProtocolRecords {
  import opened Domain
  import opened DriverRepository
  import opened Protocol

  ghost predicate RecordsOk(ds: Drivers, clock: int) {
    forall id :: id in ds ==>
      ds[id].driver.id == id && ds[id].driver.updatedAt <= clock && Coherent(CoreOf(ds[id].driver))
  }

  /** A pending location update is still trustworthy as long as the repository would accept it:
      a record no newer than its timestamp has the very core that it fetched. */
  ghost predicate IngestOk(ds: Drivers, clock: int, g: Ingest) {
    match g
    case Arrived(_, _) => true
    case Stamped(id, _, at) => at <= clock
    case Fetched(d, existed) =>
      && d.updatedAt <= clock
      && (existed ==> d.id in ds)
      && (d.id in ds && ds[d.id].driver.updatedAt <= d.updatedAt ==> CoreOf(ds[d.id].driver) == CoreOf(d))
      && (d.id !in ds ==> CoreOf(d) == IDLE_CORE)
    case Stored => true
  }

  ghost predicate Records(w: World) {
    && RecordsOk(w.drivers, w.clock)
    && forall i :: 0 <= i < |w.ingests| ==> IngestOk(w.drivers, w.clock, w.ingests[i])
  }

  /** No driver disappears, and nothing about a known driver changes but its location and times;
      a new driver starts Idle. */
  ghost predicate SameCores(ds: Drivers, ds': Drivers) {
    && (forall id :: id in ds ==> id in ds' && CoreOf(ds'[id].driver) == CoreOf(ds[id].driver))
    && (forall id :: id in ds' && id !in ds ==> CoreOf(ds'[id].driver) == IDLE_CORE)
  }

  /** A status step: one record rewritten at a time later than every reading before it. */
  ghost predicate Rewrites(ds: Drivers, ds': Drivers, id: string, clock: int) {
    && id in ds && ds'.Keys == ds.Keys
    && (forall x :: x in ds && x != id ==> ds'[x] == ds[x])
    && ds'[id].driver.id == ds[id].driver.id && clock < ds'[id].driver.updatedAt
  }

  lemma RewriteKeepsIngests(ds: Drivers, ds': Drivers, id: string, clock: int, clock': int, g: Ingest)
    requires Rewrites(ds, ds', id, clock) && clock < clock'
    requires IngestOk(ds, clock, g)
    ensures IngestOk(ds', clock', g)
  {
  }

  /** One record rewritten coherently keeps all records coherent. */
  lemma RewriteKeepsRecords(ds: Drivers, id: string, e: Entry, clock: int, later: int)
    requires RecordsOk(ds, clock) && clock < later && id in ds
    requires e.driver.id == id && clock < e.driver.updatedAt <= later && Coherent(CoreOf(e.driver))
    ensures RecordsOk(ds[id := e], later) && Rewrites(ds, ds[id := e], id, clock)
  {
  }

  /** Every request leaves the repository alone or rewrites the one record it names,
      coherently and along the state machine. */
  lemma RequestsKeepRecords(ds: Drivers, clock: int, r: Request, now: int, later: int)
    requires RecordsOk(ds, clock) && clock < now < later
    ensures RecordsOk(Performed(ds, r, now, later), later)
    ensures var ds' := Performed(ds, r, now, later);
            ds' == ds || (!r.Nothing? && Rewrites(ds, ds', r.id, clock)
                          && (ds'[r.id].driver.status == ds[r.id].driver.status
                              || CanTransition(ds[r.id].driver.status, ds'[r.id].driver.status)))
  {
    var ds' := Performed(ds, r, now, later);
    if !r.Nothing? && r.id in ds {
      var d := ds[r.id].driver;
      assert d.id == r.id && Coherent(CoreOf(d));
      var d' := match r case Move(_, to) => Moved(d, to, now, later)
                        case Attach(_, rider) => d.(intent := Some(MatchIntent(rider, 0)), updatedAt := now)
                        case _ => d.(intent := None, updatedAt := now);
      if ds' != ds {
        RewriteKeepsRecords(ds, r.id, ds[r.id].(driver := d'), clock, later);
      }
    }
  }

  /** The optimistic lock: an upsert that the repository accepts changes no core. */
  lemma AcceptedUpsertKeepsCores(ds: Drivers, clock: int, d: Driver, existed: bool, now: int)
    requires RecordsOk(ds, clock) && clock < now
    requires IngestOk(ds, clock, Fetched(d, existed))
    ensures SameCores(ds, Upserted(ds, d, now))
    ensures RecordsOk(Upserted(ds, d, now), now)
  {
  }

  lemma UpsertKeepsIngests(ds: Drivers, clock: int, d: Driver, existed: bool, now: int, g: Ingest)
    requires RecordsOk(ds, clock) && clock < now
    requires IngestOk(ds, clock, Fetched(d, existed)) && IngestOk(ds, clock, g)
    ensures IngestOk(Upserted(ds, d, now), now, g)
  {
  }

  lemma IngestStepKeepsRecords(w: World, s: Step)
    requires Records(w) && Enabled(w, s) && s.IngestStep?
    ensures Records(Apply(w, s))
    ensures SameCores(w.drivers, Apply(w, s).drivers)
  {
    var w' := Apply(w, s);
    var g := w.ingests[s.i];
    if g.Fetched? {
      AcceptedUpsertKeepsCores(w.drivers, w.clock, g.driver, g.existed, s.iio.now);
      forall i | 0 <= i < |w'.ingests| ensures IngestOk(w'.drivers, w'.clock, w'.ingests[i]) {
        UpsertKeepsIngests(w.drivers, w.clock, g.driver, g.existed, s.iio.now, w.ingests[i]);
      }
    }
  }

  function RequestOf(w: World, s: Step): Request
    requires Enabled(w, s) && (s.MatchStep? || s.WorkerStep?)
  {
    if s.MatchStep? then CallRequest(w.matches[s.m]) else WorkerRequest(w.workers[s.k])
  }

  /** A Match or worker step touches the repository only through its request. */
  lemma ThreadStepOnRecords(w: World, s: Step)
    requires Records(w) && Enabled(w, s) && (s.MatchStep? || s.WorkerStep?)
    ensures var w', r := Apply(w, s), RequestOf(w, s);
            && w'.ingests == w.ingests && w.clock < w'.clock
            && RecordsOk(w'.drivers, w'.clock)
            && (w'.drivers == w.drivers
                || (!r.Nothing? && Rewrites(w.drivers, w'.drivers, r.id, w.clock)
                    && (w'.drivers[r.id].driver.status == w.drivers[r.id].driver.status
                        || CanTransition(w.drivers[r.id].driver.status, w'.drivers[r.id].driver.status))))
  {
    var io := if s.MatchStep? then s.mio else s.wio;
    RequestsKeepRecords(w.drivers, w.clock, RequestOf(w, s), io.now, io.later);
  }

  lemma StepKeepsRecords(w: World, s: Step)
    requires Records(w) && Enabled(w, s)
    ensures Records(Apply(w, s))
  {
    if s.IngestStep? {
      IngestStepKeepsRecords(w, s);
    } else if s.MatchStep? || s.WorkerStep? {
      ThreadStepKeepsRecords(w, s);
    }
  }

  lemma ThreadStepKeepsRecords(w: World, s: Step)
    requires Records(w) && Enabled(w, s) && (s.MatchStep? || s.WorkerStep?)
    ensures Records(Apply(w, s))
  {
    ThreadStepOnRecords(w, s);
    var w' := Apply(w, s);
    var r := RequestOf(w, s);
    forall i | 0 <= i < |w'.ingests| ensures IngestOk(w'.drivers, w'.clock, w'.ingests[i]) {
      if w'.drivers != w.drivers {
        RewriteKeepsIngests(w.drivers, w'.drivers, r.id, w.clock, w'.clock, w.ingests[i]);
      }
    }
  }

  lemma {:induction false} RunKeepsRecords(w: World, ss: seq<Step>)
    requires Records(w) && Legal(w, ss)
    ensures Records(Exec(w, ss))
    decreases |ss|
  {
    if ss == [] {
    } else {
      StepKeepsRecords(w, ss[0]);
      RunKeepsRecords(Apply(w, ss[0]), ss[1..]);
    }
  }

  /** In every reachable world, whatever Match calls, workers and other location updates
      are doing, a location update loses no status change: the step that stores it leaves
      status, intent and matching time of every known driver as they are. */
  lemma LocationUpdatesLoseNoStatusChange(w: World, ss: seq<Step>, s: Step)
    requires Init(w) && Legal(w, ss) && Enabled(Exec(w, ss), s) && s.IngestStep?
    ensures SameCores(Exec(w, ss).drivers, Apply(Exec(w, ss), s).drivers)
  {
    RunKeepsRecords(w, ss);
    IngestStepKeepsRecords(Exec(w, ss), s);
  }

  lemma ReachableRecordsAreCoherent(w: World, ss: seq<Step>, id: string)
    requires Init(w) && Legal(w, ss) && id in Exec(w, ss).drivers
    ensures var d := Exec(w, ss).drivers[id].driver;
            && (d.matchingSince.Some? <==> d.status == Matching)
            && (d.intent.Some? ==> d.status == Matching)
  {
    RunKeepsRecords(w, ss);
  }

  // ---- status histories ----

  /** The statuses `id` goes through along a run, None while it is not known. */
  ghost function History(w: World, ss: seq<Step>, id: string): (h: seq<Option<DriverStatus>>)
    requires Legal(w, ss)
    ensures |h| == |ss| + 1 && h[0] == StatusOf(w, id)
    decreases |ss|
  {
    [StatusOf(w, id)] + (if ss == [] then [] else History(Apply(w, ss[0]), ss[1..], id))
  }

  ghost function StatusOf(w: World, id: string): Option<DriverStatus> {
    if id in w.drivers then Some(w.drivers[id].driver.status) else None
  }

  ghost predicate MayFollow(a: Option<DriverStatus>, b: Option<DriverStatus>) {
    || a == b
    || (a.None? && b == Some(Idle))
    || (a.Some? && b.Some? && CanTransition(a.value, b.value))
  }

  lemma StepFollowsFsm(w: World, s: Step, id: string)
    requires Records(w) && Enabled(w, s)
    ensures MayFollow(StatusOf(w, id), StatusOf(Apply(w, s), id))
  {
    if s.IngestStep? {
      IngestStepKeepsRecords(w, s);
    } else if s.MatchStep? || s.WorkerStep? {
      ThreadStepOnRecords(w, s);
    }
  }

  /** Over any run, every status history is a path of the state machine, entered at Idle. */
  lemma {:induction false} HistoryFollowsFsm(w: World, ss: seq<Step>, id: string, n: nat)
    requires Records(w) && Legal(w, ss) && n < |ss|
    ensures MayFollow(History(w, ss, id)[n], History(w, ss, id)[n + 1])
    decreases |ss|
  {
    if n == 0 {
      StepFollowsFsm(w, ss[0], id);
    } else {
      StepKeepsRecords(w, ss[0]);
      HistoryFollowsFsm(Apply(w, ss[0]), ss[1..], id, n - 1);
    }
  }

  /** The same spelled out: along a run a driver may appear, Idle; go to work, offline, and back; be
      reserved when Idle; and from there turn Busy or Idle. In particular no step takes an Idle driver
      to Busy, a Busy driver to Matching or Offline, or a driver away. */
  lemma StatusesFollowOneAnother(w: World, ss: seq<Step>, id: string, n: nat)
    requires Init(w) && Legal(w, ss) && n < |ss|
    ensures var before, now := History(w, ss, id)[n], History(w, ss, id)[n + 1];
            before == now
            || (before, now) in {(None, Some(Idle)), (Some(Offline), Some(Idle)), (Some(Idle), Some(Matching)), (Some(Idle), Some(Offline)),
                                 (Some(Matching), Some(Busy)), (Some(Matching), Some(Idle)), (Some(Busy), Some(Idle))}
  {
    HistoryFollowsFsm(w, ss, id, n);
  }

  /** Calls and workers change no driver's location and do not count as having seen it. */
  lemma StatusStepsKeepLocations(w: World, s: Step)
    requires Enabled(w, s) && (s.MatchStep? || s.WorkerStep?)
    ensures var ds, ds' := w.drivers, Apply(w, s).drivers;
            ds'.Keys == ds.Keys
            && forall id :: id in ds ==> ds'[id].lastSeenAt == ds[id].lastSeenAt && ds'[id].driver.location == ds[id].driver.location
  {
  }

  // ---- when a location update is stored ----

  /** The step writes the record of `id`, stamping it later than `at`. */
  predicate Overtakes(w: World, s: Step, id: string, at: int)
    requires Enabled(w, s)
  {
    var ds, ds' := w.drivers, Apply(w, s).drivers;
    id in ds' && (id in ds ==> ds'[id] != ds[id]) && ds'[id].driver.updatedAt > at
  }

  ghost predicate Overtaken(w: World, ss: seq<Step>, id: string, at: int)
    requires Legal(w, ss)
    decreases |ss|
  {
    ss != [] && (Overtakes(w, ss[0], id, at) || Overtaken(Apply(w, ss[0]), ss[1..], id, at))
  }

  predicate StampedLater(ds: Drivers, id: string, at: int) {
    id in ds && ds[id].driver.updatedAt > at
  }

  /** Update i is still the one that read `at` for `id`. */
  predicate Carries(w: World, i: nat, id: string, location: Location, at: int) {
    i < |w.ingests|
    && match w.ingests[i]
       case Arrived(_, _) => false
       case Stamped(x, l, t) => x == id && l == location && t == at
       case Fetched(d, _) => d.id == id && d.location == location && d.updatedAt == at
       case Stored => true
  }

  lemma StepCarries(w: World, s: Step, i: nat, id: string, location: Location, at: int)
    requires Records(w) && Enabled(w, s) && Carries(w, i, id, location, at)
    ensures Carries(Apply(w, s), i, id, location, at)
  {
  }

  /** Stamps of one record never go back. */
  lemma StampsGrow(w: World, s: Step, id: string)
    requires Records(w) && Enabled(w, s) && id in w.drivers
    ensures id in Apply(w, s).drivers && w.drivers[id].driver.updatedAt <= Apply(w, s).drivers[id].driver.updatedAt
  {
    if s.MatchStep? || s.WorkerStep? {
      ThreadStepOnRecords(w, s);
    }
  }

  lemma {:induction false} LaterStampMeansOvertaken(w: World, ss: seq<Step>, i: nat, id: string, location: Location, at: int)
    requires Records(w) && Legal(w, ss) && Carries(w, i, id, location, at)
    ensures Records(Exec(w, ss)) && Carries(Exec(w, ss), i, id, location, at)
    ensures StampedLater(Exec(w, ss).drivers, id, at) <==> StampedLater(w.drivers, id, at) || Overtaken(w, ss, id, at)
    decreases |ss|
  {
    if ss == [] {
    } else {
      StepKeepsRecords(w, ss[0]);
      StepCarries(w, ss[0], i, id, location, at);
      if id in w.drivers {
        StampsGrow(w, ss[0], id);
      }
      LaterStampMeansOvertaken(Apply(w, ss[0]), ss[1..], i, id, location, at);
    }
  }

  /** A location update that reads the clock in a reachable world, fetches, and comes to its storing
      step after whatever else has happened: it stores the reported location, under the time it read and
      seen now, if and only if no step since that reading wrote the record under a later time. If one did,
      nothing changes. Either way no other driver is touched. */
  lemma StoredIffNotOvertaken(w: World, before: seq<Step>, s1: Step, mid: seq<Step>, s2: Step)
    requires Init(w) && Legal(w, before) && Enabled(Exec(w, before), s1)
    requires s1.IngestStep? && Exec(w, before).ingests[s1.i].Arrived?
    requires Legal(Apply(Exec(w, before), s1), mid)
    requires var w3 := Exec(Apply(Exec(w, before), s1), mid);
             Enabled(w3, s2) && s2.IngestStep? && s2.i == s1.i && w3.ingests[s1.i].Fetched?
    ensures var w1 := Exec(w, before);
            var g, w2 := w1.ingests[s1.i], Apply(w1, s1);
            var ds := Exec(w2, mid).drivers;
            var ds' := Apply(Exec(w2, mid), s2).drivers;
            var stored := g.id in ds' && ds'[g.id].driver.location == g.location
                          && ds'[g.id].driver.updatedAt == s1.iio.now && ds'[g.id].lastSeenAt == s2.iio.now;
            && (stored <==> !Overtaken(w2, mid, g.id, s1.iio.now))
            && (!stored ==> ds' == ds)
            && forall x :: x != g.id ==> (x in ds' <==> x in ds) && (x in ds ==> ds'[x] == ds[x])
  {
    var w1 := Exec(w, before);
    var g, w2 := w1.ingests[s1.i], Apply(w1, s1);
    RunKeepsRecords(w, before);
    StepKeepsRecords(w1, s1);
    LaterStampMeansOvertaken(w2, mid, s1.i, g.id, g.location, s1.iio.now);
    assert !StampedLater(w2.drivers, g.id, s1.iio.now);
  }

  /** Alone, a location update of any driver, known or new, is stored: it can be started in every reachable
      world, takes three steps, and leaves the record with the reported location and the time read first. */
  lemma SoloUpdateIsStored(w: World, before: seq<Step>, id: string, location: Location, io1: Io, io2: Io, io3: Io)
    requires Init(w) && Legal(w, before)
    requires Exec(w, before).clock < io1.now < io1.later < io2.now < io2.later < io3.now < io3.later
    ensures var w1 := Exec(w, before);
            var i := |w1.ingests|;
            var ss := [StartIngest(id, location), IngestStep(i, io1), IngestStep(i, io2), IngestStep(i, io3)];
            Legal(w1, ss)
            && var ds := Exec(w1, ss).drivers;
               && id in ds && ds[id].driver.location == location && ds[id].driver.updatedAt == io1.now && ds[id].lastSeenAt == io3.now
               && CoreOf(ds[id].driver) == if id in w1.drivers then CoreOf(w1.drivers[id].driver) else Core(Idle, None, None)
  {
    RunKeepsRecords(w, before);
    var w1 := Exec(w, before);
    var i := |w1.ingests|;
    var s0, s1, s2, s3 := StartIngest(id, location), IngestStep(i, io1), IngestStep(i, io2), IngestStep(i, io3);
    var a := Apply(w1, s0);
    var b := Apply(a, s1);
    var c := Apply(b, s2);
    assert a.ingests[i] == Arrived(id, location) && b.ingests[i] == Stamped(id, location, io1.now) && c.ingests[i].Fetched?;
    var d := Apply(c, s3);
    FourSteps(w1, s0, s1, s2, s3);
  }

  lemma OneMoreStep(w: World, s: Step, rest: seq<Step>)
    requires Enabled(w, s) && Legal(Apply(w, s), rest)
    ensures Legal(w, [s] + rest) && Exec(w, [s] + rest) == Exec(Apply(w, s), rest)
  {
    var ss := [s] + rest;
    assert ss[0] == s && ss[1..] == rest;
  }

  lemma FourSteps(w: World, s0: Step, s1: Step, s2: Step, s3: Step)
    requires Enabled(w, s0) && Enabled(Apply(w, s0), s1) && Enabled(Apply(Apply(w, s0), s1), s2)
    requires Enabled(Apply(Apply(Apply(w, s0), s1), s2), s3)
    ensures Legal(w, [s0, s1, s2, s3])
    ensures Exec(w, [s0, s1, s2, s3]) == Apply(Apply(Apply(Apply(w, s0), s1), s2), s3)
  {
    var a := Apply(w, s0);
    var b := Apply(a, s1);
    var c := Apply(b, s2);
    OneMoreStep(c, s3, []);
    OneMoreStep(b, s2, [s3] + []);
    OneMoreStep(a, s1, [s2] + ([s3] + []));
    OneMoreStep(w, s0, [s1] + ([s2] + ([s3] + [])));
    assert [s0] + ([s1] + ([s2] + ([s3] + []))) == [s0, s1, s2, s3];
  }
}
