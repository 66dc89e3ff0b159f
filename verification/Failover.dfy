/** When a tick that nothing interrupts ends leading, said of the stored lease and the clock alone. */
module Failover {
  import opened Options
  import opened Lease
  import opened LeaderElector

  /** The state after the tick of `id` that takes `elapsed` to get its first answer. */
  ghost function Ticked(s: State, id: string, elapsed: nat): State
    requires id in s.electors && s.electors[id].phase == Idle && s.nextTicket !in s.requests
  {
    UninterruptedTick(s, id, elapsed);
    After(s, TickSteps(s, id, elapsed))
  }

  ghost predicate Leads(s: State, id: string) {
    id in s.electors && s.electors[id].leader
  }

  /** A lease of another live-looking holder: it names someone, and says from when and for how long. */
  predicate HeldByOther(l: LeaseRecord, id: string, from: int, seconds: int) {
    && l.holder.Some? && l.holder.value != "" && l.holder.value != id
    && (l.renewTime == Some(At(from)) || (l.renewTime == None && l.acquireTime == Some(At(from))))
    && l.durationSeconds == Some(seconds) && seconds != 0
  }

  /** A lease that names no holder, or says no readable time, or no duration. */
  predicate Unheld(l: LeaseRecord) {
    || l.holder == None || l.holder == Some("")
    || l.durationSeconds == None || l.durationSeconds == Some(0)
    || l.renewTime == Some(Unreadable)
    || (l.renewTime == None && (l.acquireTime == None || l.acquireTime == Some(Unreadable)))
  }

  /** Every lease of someone else is one or the other. */
  lemma HeldOrUnheld(l: LeaseRecord, id: string)
    requires l.holder != Some(id)
    ensures Unheld(l) <==> !exists from, seconds :: HeldByOther(l, id, from, seconds)
  {
    if !Unheld(l) {
      var from := if l.renewTime.Some? then l.renewTime.value.ms else l.acquireTime.value.ms;
      assert HeldByOther(l, id, from, l.durationSeconds.value);
    }
  }

  /** Failover: against a holder that stopped renewing, a tick wins exactly from the end of the lease on; it
      takes the lease over with its own times and duration, or else leaves it alone. */
  lemma TakesOverIff(s: State, id: string, elapsed: nat, from: int, seconds: int)
    requires id in s.electors && s.electors[id].phase == Idle && s.nextTicket !in s.requests
    requires s.lease.Some? && HeldByOther(s.lease.value, id, from, seconds)
    ensures Leads(Ticked(s, id, elapsed), id) <==> from + seconds * 1000 <= s.now + elapsed
    ensures Ticked(s, id, elapsed).lease == Some(
      if from + seconds * 1000 <= s.now + elapsed
      then LeaseRecord(s.lease.value.version + 1, Some(id), Some(At(s.now)), Some(At(s.now)), Some(s.electors[id].seconds),
                       Some(1 + match s.lease.value.transitions case Some(n) => n case None => 0))
      else s.lease.value)
  {
    UninterruptedTick(s, id, elapsed);
  }

  /** Without a lease, or with one that nobody holds, a tick always leads. */
  lemma TakesUnheld(s: State, id: string, elapsed: nat)
    requires id in s.electors && s.electors[id].phase == Idle && s.nextTicket !in s.requests
    requires s.lease.None? || Unheld(s.lease.value)
    ensures Leads(Ticked(s, id, elapsed), id)
    ensures var l := Ticked(s, id, elapsed).lease;
      && l.Some? && l.value.holder == Some(id) && l.value.renewTime == Some(At(s.now))
      && l.value.durationSeconds == Some(s.electors[id].seconds)
      && (s.lease.None? ==> l.value.acquireTime == Some(At(s.now)) && l.value.transitions == Some(1))
  {
    UninterruptedTick(s, id, elapsed);
  }

  /** The holder renews its own lease, run out or not, and stays its holder since the same time. */
  lemma RenewsOwn(s: State, id: string, elapsed: nat)
    requires id in s.electors && s.electors[id].phase == Idle && s.nextTicket !in s.requests
    requires s.lease.Some? && s.lease.value.holder == Some(id)
    ensures Leads(Ticked(s, id, elapsed), id)
    ensures Ticked(s, id, elapsed).lease == Some(s.lease.value.(
      version := s.lease.value.version + 1, renewTime := Some(At(s.now)), durationSeconds := Some(s.electors[id].seconds)))
  {
    UninterruptedTick(s, id, elapsed);
  }

  /** The holder is gone for good: whoever ticks once the lease has run out leads, and then holds a lease no other
      elector can take before its own duration is over. */
  lemma NextHolderIsSafe(s: State, id: string, other: string, elapsed: nat, later: nat)
    requires id in s.electors && s.electors[id].phase == Idle && s.nextTicket !in s.requests
    requires s.electors[id].seconds > 0 && id != "" && id != other
    requires Leads(Ticked(s, id, elapsed), id)
    requires other in Ticked(s, id, elapsed).electors && Ticked(s, id, elapsed).electors[other].phase == Idle
    requires Ticked(s, id, elapsed).nextTicket !in Ticked(s, id, elapsed).requests
    ensures Leads(Ticked(Ticked(s, id, elapsed), other, later), other)
       <==> s.now + s.electors[id].seconds * 1000 <= Ticked(s, id, elapsed).now + later
  {
    UninterruptedTick(s, id, elapsed);
    var u := Ticked(s, id, elapsed);
    TakesOverIff(u, other, later, s.now, s.electors[id].seconds);
  }
}
