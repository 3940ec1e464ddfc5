/** Offer groups: one Redis hash per rider, created by three separate commands
    and decided by one atomic script. */
module OfferGroups {
  import opened Domain

  datatype GroupStatus = Pending | Accepted | Expired

  /** The hash fields; `ttl` is set once EXPIRE has been applied to the key. */
  datatype Hash = Hash(status: Option<GroupStatus>, winner: Option<string>, createdAt: Option<int>, ttl: Option<nat>)

  type Groups = map<string, Hash>

  const EMPTY_HASH := Hash(None, None, None, None)

  function HashOf(gs: Groups, rider: string): Hash {
    if rider in gs then gs[rider] else EMPTY_HASH
  }

  /** The status field, if the key is there and has one. */
  function GroupStatusOf(gs: Groups, rider: string): Option<GroupStatus> {
    if rider in gs then gs[rider].status else None
  }

  /** HSETNX status pending: it writes only when the field is not there. */
  predicate Creates(gs: Groups, rider: string) {
    HashOf(gs, rider).status.None?
  }

  function AfterHSetNX(gs: Groups, rider: string): Groups {
    if Creates(gs, rider) then gs[rider := HashOf(gs, rider).(status := Some(Pending))] else gs
  }

  /** HSET created_at; on a key that has gone it makes a hash without a status. */
  function AfterHSet(gs: Groups, rider: string, now: int): Groups {
    gs[rider := HashOf(gs, rider).(createdAt := Some(now))]
  }

  /** EXPIRE does nothing to a missing key. */
  function AfterExpire(gs: Groups, rider: string, ttl: nat): Groups {
    if rider in gs then gs[rider := gs[rider].(ttl := Some(ttl))] else gs
  }

  /** What became of one command sent to Redis: whether the caller saw an error, and if so whether
      the server had applied the command all the same. */
  datatype Reply = Reply(fails: bool, applied: bool)

  predicate Effective(r: Reply) {
    !r.fails || r.applied
  }

  /** `Create` as its three commands, stopping at the first error, or early when the group exists. */
  function CreateOutcome(gs: Groups, rider: string, ttl: nat, now: int, r1: Reply, r2: Reply, r3: Reply): (Groups, bool) {
    var gs1 := if Effective(r1) then AfterHSetNX(gs, rider) else gs;
    if r1.fails then (gs1, false)
    else if !Creates(gs, rider) then (gs1, true)
    else
      var gs2 := if Effective(r2) then AfterHSet(gs1, rider, now) else gs1;
      if r2.fails then (gs2, false)
      else (if Effective(r3) then AfterExpire(gs2, rider, ttl) else gs2, !r3.fails)
  }

  function CommandsSent(gs: Groups, rider: string, r1: Reply, r2: Reply): nat {
    if r1.fails || !Creates(gs, rider) then 1 else if r2.fails then 2 else 3
  }

  /** The outcome of creation, command by command: the pending status, the creation time and the expiry go
      in one after the other; a failing command is the last one and may have been applied all the same. */
  ghost predicate Creation(gs: Groups, rider: string, ttl: nat, now: int, r1: Reply, r2: Reply, r3: Reply, gs': Groups, ok: bool) {
    var was := if rider in gs then gs[rider] else Hash(None, None, None, None);
    var pending := was.(status := Some(Pending));
    var stamped := pending.(createdAt := Some(now));
    var armed := stamped.(ttl := Some(ttl));
    && (ok <==> !r1.fails && (was.status.Some? || (!r2.fails && !r3.fails)))
    && (was.status.Some? ==> gs' == gs)
    && (was.status.None? ==>
          if r1.fails then gs' == (if r1.applied then gs[rider := pending] else gs)
          else if r2.fails then gs' == gs[rider := if r2.applied then stamped else pending]
          else gs' == gs[rider := if !r3.fails || r3.applied then armed else stamped])
  }

  /** Creating succeeds exactly when none of the commands sent has failed: without failures always,
      for new, pending and decided groups alike. It is idempotent and touches no other rider: a group
      that is there is left as it is; a new one is pending and expires. */
  lemma CreateIsIdempotent(gs: Groups, rider: string, ttl: nat, now: int, r1: Reply, r2: Reply, r3: Reply)
    ensures var (gs', ok) := CreateOutcome(gs, rider, ttl, now, r1, r2, r3);
            Creation(gs, rider, ttl, now, r1, r2, r3, gs', ok)
  {
  }

  datatype Verdict = Won | Lost | NotFound

  /** The answer of the accept script. */
  function Decide(gs: Groups, rider: string, driver: string): Verdict {
    match HashOf(gs, rider).status
    case None => NotFound
    case Some(Accepted) => if gs[rider].winner == Some(driver) then Won else Lost
    case Some(Expired) => Lost
    case Some(Pending) => Won
  }

  /** What the accept script leaves behind. */
  function Decided(gs: Groups, rider: string, driver: string): Groups {
    if HashOf(gs, rider).status == Some(Pending) then
      gs[rider := gs[rider].(status := Some(Accepted), winner := Some(driver))]
    else gs
  }

  function Winner(gs: Groups, rider: string): Option<string> {
    HashOf(gs, rider).winner
  }

  /** The accept script is first-accept-wins: once some driver has been told it won,
      then for as long as the key lives that driver, and no other, is told so again,
      and `GetWinner` names it. */
  lemma FirstAcceptWins(gs: Groups, rider: string, first: string, later: seq<string>, d: string)
    requires Decide(gs, rider, first) == Won
    ensures var gs' := DecidedAll(Decided(gs, rider, first), rider, later);
            Winner(gs', rider) == Some(first) && (Decide(gs', rider, d) == Won <==> d == first) && Decide(gs', rider, d) != NotFound
  {
    var gs1 := Decided(gs, rider, first);
    LaterAcceptsChangeNothing(gs1, rider, later);
  }

  /** The script run for each of `ds` in turn. */
  function DecidedAll(gs: Groups, rider: string, ds: seq<string>): Groups {
    if ds == [] then gs else DecidedAll(Decided(gs, rider, ds[0]), rider, ds[1..])
  }

  lemma {:induction false} LaterAcceptsChangeNothing(gs: Groups, rider: string, ds: seq<string>)
    requires HashOf(gs, rider).status == Some(Accepted)
    ensures DecidedAll(gs, rider, ds) == gs
  {
    if ds == [] {
    } else {
      LaterAcceptsChangeNothing(gs, rider, ds[1..]);
    }
  }

  datatype AcceptResult = Answer(won: bool) | OfferExpired | TransportError

  datatype WinnerResult = WinnerIs(driver: string) | NoWinner | WinnerUnread

  class RedisOfferGroupStore {
    /** The keyspace of the Redis server. */
    var groups: Groups

    constructor ()
      ensures groups == map[]
    {
      groups := map[];
    }

    method Create(rider: string, ttl: nat, now: int, r1: Reply, r2: Reply, r3: Reply) returns (ok: bool, commands: nat)
      modifies this
      ensures (groups, ok) == CreateOutcome(old(groups), rider, ttl, now, r1, r2, r3)
      ensures commands == CommandsSent(old(groups), rider, r1, r2)
      ensures Creation(old(groups), rider, ttl, now, r1, r2, r3, groups, ok)
      ensures commands == (if r1.fails || (rider in old(groups) && old(groups)[rider].status.Some?) then 1 else if r2.fails then 2 else 3)
    {
      var created := Creates(groups, rider);
      if Effective(r1) {
        groups := AfterHSetNX(groups, rider);
      }
      if r1.fails {
        return false, 1;
      }
      if !created {
        return true, 1;
      }
      if Effective(r2) {
        groups := AfterHSet(groups, rider, now);
      }
      if r2.fails {
        return false, 2;
      }
      if Effective(r3) {
        groups := AfterExpire(groups, rider, ttl);
      }
      return !r3.fails, 3;
    }

    method Accept(rider: string, driver: string, reply: Reply) returns (res: AcceptResult)
      modifies this
      ensures res == if reply.fails then TransportError else
                     match Decide(old(groups), rider, driver)
                     case Won => Answer(true)
                     case Lost => Answer(false)
                     case NotFound => OfferExpired
      ensures groups == if Effective(reply) then Decided(old(groups), rider, driver) else old(groups)
      ensures reply.fails ==> res == TransportError
      ensures !reply.fails ==>
                match GroupStatusOf(old(groups), rider)
                case None => res == OfferExpired
                case Some(Pending) => res == Answer(true)
                case Some(Accepted) => res == Answer(old(groups)[rider].winner == Some(driver))
                case Some(Expired) => res == Answer(false)
      ensures GroupStatusOf(old(groups), rider) == Some(Pending) && (!reply.fails || reply.applied) ==>
                groups == old(groups)[rider := old(groups)[rider].(status := Some(Accepted), winner := Some(driver))]
      ensures GroupStatusOf(old(groups), rider) != Some(Pending) || (reply.fails && !reply.applied) ==> groups == old(groups)
    {
      if !Effective(reply) {
        return TransportError;
      }
      var script := RunScript(rider, driver);
      if reply.fails {
        return TransportError;
      }
      return match script case Won => Answer(true) case Lost => Answer(false) case NotFound => OfferExpired;
    }

    /** The accept script, atomic on the server. */
    method RunScript(rider: string, driver: string) returns (verdict: Verdict)
      modifies this
      ensures verdict == Decide(old(groups), rider, driver) && groups == Decided(old(groups), rider, driver)
      ensures match GroupStatusOf(old(groups), rider)
              case None => verdict == NotFound && groups == old(groups)
              case Some(Pending) => verdict == Won
                                    && groups == old(groups)[rider := old(groups)[rider].(status := Some(Accepted), winner := Some(driver))]
              case Some(Accepted) => verdict == (if old(groups)[rider].winner == Some(driver) then Won else Lost) && groups == old(groups)
              case Some(Expired) => verdict == Lost && groups == old(groups)
    {
      var h := HashOf(groups, rider);
      if h.status.None? {
        return NotFound;
      }
      if h.status == Some(Accepted) {
        return if h.winner == Some(driver) then Won else Lost;
      }
      if h.status != Some(Pending) {
        return Lost;
      }
      groups := groups[rider := h.(status := Some(Accepted), winner := Some(driver))];
      return Won;
    }

    /** `fails` is a command that Redis did not answer. */
    method GetWinner(rider: string, fails: bool) returns (res: WinnerResult)
      ensures res == if fails then WinnerUnread
                     else if rider in groups && groups[rider].winner.Some? then WinnerIs(groups[rider].winner.value)
                     else NoWinner
    {
      if fails {
        return WinnerUnread;
      }
      if rider !in groups || groups[rider].winner.None? {
        return NoWinner;
      }
      return WinnerIs(groups[rider].winner.value);
    }
  }
}
