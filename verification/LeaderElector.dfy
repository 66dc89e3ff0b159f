/** The elector object itself, one tick at a time, and its place in the protocol of module `Lease`. */
module LeaderElector {
  import opened Options
  import opened Lease

  /** The lease endpoint of the API server. */
  class LeaseServer {
    var lease: Option<LeaseRecord>

    constructor ()
      ensures lease == None
    {
      lease := None;
    }

    /** POST; refused when the lease exists. */
    method CreateLease(identity: string, seconds: nat, stamp: int) returns (ok: bool)
      modifies this
      ensures ok <==> old(lease).None?
      ensures lease == if ok then Some(Created(identity, seconds, stamp)) else old(lease)
    {
      ok := lease.None?;
      if ok {
        lease := Some(Created(identity, seconds, stamp));
      }
    }

    /** PATCH with a resource version; refused when the version is not current. */
    method PatchLease(seen: LeaseRecord, identity: string, seconds: nat, stamp: int) returns (ok: bool)
      modifies this
      ensures ok <==> old(lease).Some? && old(lease).value.version == seen.version
      ensures lease == if ok then Some(Patched(old(lease).value, seen, identity, seconds, stamp)) else old(lease)
    {
      ok := lease.Some? && lease.value.version == seen.version;
      if ok {
        lease := Some(Patched(lease.value, seen, identity, seconds, stamp));
      }
    }
  }

  datatype Status = Status(
    running: bool,
    leader: bool,
    lastAttemptAt: Option<int>,
    lastRenewAt: Option<int>,
    observedHolder: Option<string>,
    lastError: Option<string>,
    leadershipChanges: nat,
    lastLeadershipChangeAt: Option<int>)

  datatype Attempt = Decided(leader: bool) | Threw(message: string)

  datatype Event = Gained | Lost | Unchanged

  /** The lease and the verdict after an attempt that nothing interrupts. */
  function AttemptOn(lease: Option<LeaseRecord>, identity: string, seconds: nat, stamp: int, now: int): (Option<LeaseRecord>, bool) {
    match Decide(identity, lease, now)
    case SendCreate => (Some(Created(identity, seconds, stamp)), true)
    case SendPatch(seen) => (Some(Patched(seen, seen, identity, seconds, stamp)), true)
    case StandBack => (lease, false)
  }

  class KubernetesLeaderElector {
    const identity: string
    const leaseDurationMs: nat
    const renewIntervalMs: nat
    const retryIntervalMs: nat
    var running: bool
    var closed: bool
    var leader: bool
    var status: Status

    ghost predicate Valid()
      reads this
    {
      status.leader == leader && status.running == running
    }

    constructor (identity: string, leaseDurationMs: nat, renewIntervalMs: nat, retryIntervalMs: nat)
      ensures Valid() && !leader && !running && !closed && status.leadershipChanges == 0
      ensures this.identity == identity && this.leaseDurationMs == leaseDurationMs
      ensures this.renewIntervalMs == renewIntervalMs && this.retryIntervalMs == retryIntervalMs
    {
      this.identity, this.leaseDurationMs := identity, leaseDurationMs;
      this.renewIntervalMs, this.retryIntervalMs := renewIntervalMs, retryIntervalMs;
      running, closed, leader := false, false, false;
      status := Status(false, false, None, None, None, None, 0, None);
    }

    method Start() returns (ticks: bool)
      requires Valid()
      modifies this
      ensures Valid() && leader == old(leader) && closed == old(closed)
      ensures ticks == (!old(running) && !old(closed))
      ensures running == (old(running) || ticks)
      ensures status == old(status).(running := running)
    {
      if running || closed {
        return false;
      }
      running := true;
      status := status.(running := true);
      return true;
    }

    /** Between the answer to the GET and the next request. */
    method HandleGetResponse(answer: Option<LeaseRecord>, now: int) returns (d: Decision)
      requires Valid()
      modifies this`status
      ensures Valid() && d == Decide(identity, answer, now)
      ensures status == if answer.Some? then old(status).(observedHolder := answer.value.holder) else old(status)
    {
      if answer.None? {
        return SendCreate;
      }
      var lease := answer.value;
      status := status.(observedHolder := lease.holder);
      var sameHolder := lease.holder == Some(identity);
      var expired := IsLeaseExpired(lease, now);
      if !sameHolder && !expired {
        return StandBack;
      }
      return SendPatch(lease);
    }

    /** `#acquireOrRenewLeadership`, when no other request comes between its own. */
    method AcquireOrRenew(server: LeaseServer, stamp: int, now: int) returns (won: bool)
      requires Valid()
      modifies this`status, server
      ensures Valid()
      ensures (server.lease, won) == AttemptOn(old(server.lease), identity, CeilSeconds(leaseDurationMs), stamp, now)
      ensures won ==> status.lastRenewAt == Some(stamp) && status.observedHolder == Some(identity)
      ensures !won ==> status.lastRenewAt == old(status).lastRenewAt
      ensures status.leadershipChanges == old(status).leadershipChanges
    {
      var d := HandleGetResponse(server.lease, now);
      match d {
        case SendCreate =>
          won := server.CreateLease(identity, CeilSeconds(leaseDurationMs), stamp);
        case SendPatch(seen) =>
          won := server.PatchLease(seen, identity, CeilSeconds(leaseDurationMs), stamp);
        case StandBack =>
          won := false;
      }
      if won {
        status := status.(lastRenewAt := Some(stamp), observedHolder := Some(identity));
      }
    }

    /** The rest of `#tick`: the belief, the counters, whom to tell, and when to try again. */
    method FinishTick(attemptAt: int, attempt: Attempt, now: int) returns (event: Event, delayMs: nat)
      requires Valid()
      modifies this`leader, this`status
      ensures Valid()
      ensures leader == (attempt.Decided? && attempt.leader)
      ensures event == if !old(leader) && leader then Gained else if old(leader) && !leader then Lost else Unchanged
      ensures delayMs == if leader then renewIntervalMs else retryIntervalMs
      ensures status.leadershipChanges == old(status).leadershipChanges + if event == Gained then 1 else 0
      ensures status.lastLeadershipChangeAt == if event == Unchanged then old(status).lastLeadershipChangeAt else Some(now)
      ensures status.lastAttemptAt == Some(attemptAt)
      ensures status.lastError == if attempt.Threw? then Some(attempt.message) else None
      ensures status.lastRenewAt == old(status).lastRenewAt && status.observedHolder == old(status).observedHolder
    {
      var won, lastError := false, None;
      match attempt {
        case Decided(l) => won := l;
        case Threw(message) => lastError := Some(message);
      }
      var wasLeader := leader;
      leader := won;
      status := status.(running := running, leader := won, lastAttemptAt := Some(attemptAt), lastError := lastError);
      event := Unchanged;
      if !wasLeader && won {
        status := status.(leadershipChanges := status.leadershipChanges + 1, lastLeadershipChangeAt := Some(now));
        event := Gained;
      } else if wasLeader && !won {
        status := status.(lastLeadershipChangeAt := Some(now));
        event := Lost;
      }
      delayMs := if won then renewIntervalMs else retryIntervalMs;
    }
  }

  // ---- the tick as steps of the protocol ----------------------------------------------------------------------

  /** The protocol steps of a tick that is not interrupted and takes `elapsed` to get its first answer. */
  function TickSteps(s: State, id: string, elapsed: nat): seq<Step> {
    [StartTick(id), ServeGet(id), Advance(elapsed), HandleGet(id)] +
    (if Decide(id, s.lease, s.now + elapsed).StandBack? then [] else [ServeWrite(s.nextTicket), FinishTick(id)])
  }

  lemma RunSnoc(s: State, steps: seq<Step>, step: Step)
    requires IsRun(s, steps) && Enabled(After(s, steps), step)
    ensures IsRun(s, steps + [step]) && After(s, steps + [step]) == Take(After(s, steps), step)
  {
    assert (steps + [step])[..|steps|] == steps;
  }

  lemma ReadingRun(s: State, id: string, elapsed: nat)
    requires id in s.electors && s.electors[id].phase == Idle
    ensures var steps := [StartTick(id), ServeGet(id), Advance(elapsed)];
      && IsRun(s, steps)
      && After(s, steps) == s.(now := s.now + elapsed, electors := s.electors[id := s.electors[id].(phase := GotGet(s.now, s.lease))])
  {
    RunSnoc(s, [], StartTick(id));
    assert [] + [StartTick(id)] == [StartTick(id)];
    RunSnoc(s, [StartTick(id)], ServeGet(id));
    assert [StartTick(id)] + [ServeGet(id)] == [StartTick(id), ServeGet(id)];
    RunSnoc(s, [StartTick(id), ServeGet(id)], Advance(elapsed));
    assert [StartTick(id), ServeGet(id)] + [Advance(elapsed)] == [StartTick(id), ServeGet(id), Advance(elapsed)];
  }

  lemma HandlingRun(s: State, id: string, elapsed: nat)
    requires id in s.electors && s.electors[id].phase == Idle
    ensures var steps := [StartTick(id), ServeGet(id), Advance(elapsed), HandleGet(id)];
      && IsRun(s, steps)
      && After(s, steps) ==
           Handle(s.(now := s.now + elapsed, electors := s.electors[id := s.electors[id].(phase := GotGet(s.now, s.lease))]), id)
  {
    ReadingRun(s, id, elapsed);
    var steps := [StartTick(id), ServeGet(id), Advance(elapsed)];
    RunSnoc(s, steps, HandleGet(id));
    assert steps + [HandleGet(id)] == [StartTick(id), ServeGet(id), Advance(elapsed), HandleGet(id)];
  }

  /** An uninterrupted attempt of the elector object is a run of the protocol, with the same lease and belief. */
  lemma UninterruptedTick(s: State, id: string, elapsed: nat)
    requires id in s.electors && s.electors[id].phase == Idle && s.nextTicket !in s.requests
    ensures var steps := TickSteps(s, id, elapsed);
      && IsRun(s, steps)
      && id in After(s, steps).electors && After(s, steps).electors[id].phase == Idle
      && (After(s, steps).lease, After(s, steps).electors[id].leader)
           == AttemptOn(s.lease, id, s.electors[id].seconds, s.now, s.now + elapsed)
  {
    HandlingRun(s, id, elapsed);
    var steps := [StartTick(id), ServeGet(id), Advance(elapsed), HandleGet(id)];
    if Decide(id, s.lease, s.now + elapsed).StandBack? {
      assert steps + [] == steps;
    } else {
      var ticket := s.nextTicket;
      var u := After(s, steps);
      RunSnoc(s, steps, ServeWrite(ticket));
      RunSnoc(s, steps + [ServeWrite(ticket)], FinishTick(id));
      assert steps + [ServeWrite(ticket)] + [FinishTick(id)] == TickSteps(s, id, elapsed);
    }
  }
}
