/** Mutual exclusion of the lease protocol, over every interleaving of reads, writes, lost answers
    and late requests. */
module LeaseProofs {
  import opened Options
  import opened Lease

  // ---- the invariant ----------------------------------------------------------------------------------------

  /** A lease someone read earlier: either outdated or the current one. */
  predicate Consistent(s: State, seen: LeaseRecord) {
    s.lease.Some? && seen.version <= s.lease.value.version && (seen.version == s.lease.value.version ==> seen == s.lease.value)
  }

  /** A patch was sent by the holder or after the lease it read had run out. */
  predicate Justified(s: State, r: Request) {
    r.Patch? ==>
      && Consistent(s, r.seen) && r.judgedAt <= s.now
      && (r.seen.holder == Some(r.owner) || IsLeaseExpired(r.seen, r.judgedAt))
  }

  ghost predicate AllJustified(s: State) {
    && (forall t :: t in s.requests ==> t < s.nextTicket && s.requests[t].owner in s.electors && Justified(s, s.requests[t]))
    && (forall id :: id in s.electors && s.electors[id].phase.GotGet? && s.electors[id].phase.answer.Some? ==>
          Consistent(s, s.electors[id].phase.answer.value))
  }

  /** The time a success at `stamp` entitles the elector to lead. */
  function Deadline(e: Elector, stamp: int): int {
    stamp + e.seconds * 1000
  }

  /** As long as the entitlement lasts, the stored lease is the elector's own and at least as fresh. */
  predicate Secure(s: State, id: string, stamp: int)
    requires id in s.electors
  {
    || Deadline(s.electors[id], stamp) <= s.now
    || (&& s.lease.Some? && s.lease.value.holder == Some(id)
        && s.lease.value.durationSeconds == Some(s.electors[id].seconds)
        && s.lease.value.renewTime.Some? && s.lease.value.renewTime.value.At?
        && s.lease.value.renewTime.value.ms >= stamp)
  }

  /** A patch of this elector that the server would still take. */
  predicate Acceptable(s: State, r: Request, id: string) {
    r.Patch? && r.owner == id && Accepted(s.lease, r)
  }

  /** Patches of this elector that could still be accepted carry no older stamp. */
  ghost predicate NoOlderPatch(s: State, id: string, stamp: int) {
    forall t :: t in s.requests && Acceptable(s, s.requests[t], id) ==> s.requests[t].stamp >= stamp
  }

  ghost predicate Claim(s: State, id: string, stamp: int) {
    id in s.electors && Secure(s, id, stamp) && NoOlderPatch(s, id, stamp)
  }

  predicate PhaseStampOk(s: State, e: Elector) {
    e.phase.Idle? || (e.phase.stamp <= s.now && (e.leader ==> e.renewedAt <= e.phase.stamp))
  }

  ghost predicate TicketOk(s: State, id: string, e: Elector) {
    e.phase.AwaitWrite? ==>
      && e.phase.ticket < s.nextTicket
      && (e.phase.ticket in s.requests ==> s.requests[e.phase.ticket].owner == id && s.requests[e.phase.ticket].stamp == e.phase.stamp)
  }

  ghost predicate ElectorOk(s: State, id: string)
    requires id in s.electors
  {
    var e := s.electors[id];
    && id != "" && e.seconds > 0
    && PhaseStampOk(s, e) && TicketOk(s, id, e)
    && (e.leader ==> e.renewedAt <= s.now && Claim(s, id, e.renewedAt))
    && (e.phase.Answered? && e.phase.won ==> Claim(s, id, e.phase.stamp))
  }

  ghost predicate Inv(s: State) {
    && AllJustified(s)
    && (forall id :: id in s.electors ==> ElectorOk(s, id))
  }

  lemma InitialInv(s: State)
    requires Initial(s)
    ensures Inv(s)
  {
  }

  // ---- keeping it ---------------------------------------------------------------------------------------------

  lemma AdvanceKeeps(s: State, elapsed: nat)
    requires Inv(s)
    ensures Inv(Take(s, Advance(elapsed)))
  {
    var u := Take(s, Advance(elapsed));
    forall t | t in u.requests ensures t < u.nextTicket && u.requests[t].owner in u.electors && Justified(u, u.requests[t]) {
      assert Justified(s, s.requests[t]);
    }
    forall id | id in u.electors ensures ElectorOk(u, id) {
      assert ElectorOk(s, id);
    }
  }

  /** Steps that change one elector only. */
  lemma ElectorStepKeeps(s: State, id: string, e: Elector)
    requires Inv(s) && id in s.electors
    requires e.seconds == s.electors[id].seconds
    requires PhaseStampOk(s, e) && TicketOk(s, id, e)
    requires e.leader ==> e.renewedAt <= s.now && Claim(s, id, e.renewedAt)
    requires e.phase.Answered? && e.phase.won ==> Claim(s, id, e.phase.stamp)
    requires e.phase.GotGet? && e.phase.answer.Some? ==> Consistent(s, e.phase.answer.value)
    ensures Inv(SetElector(s, id, e))
  {
    var u := SetElector(s, id, e);
    forall t | t in u.requests ensures t < u.nextTicket && u.requests[t].owner in u.electors && Justified(u, u.requests[t]) {
      assert Justified(s, s.requests[t]);
    }
    forall other | other in u.electors ensures ElectorOk(u, other) {
      assert ElectorOk(s, other);
    }
  }

  lemma LoseKeeps(s: State, ticket: nat)
    requires Inv(s) && Enabled(s, LoseWrite(ticket))
    ensures Inv(Take(s, LoseWrite(ticket)))
  {
    var u := Take(s, LoseWrite(ticket));
    forall t | t in u.requests ensures t < u.nextTicket && u.requests[t].owner in u.electors && Justified(u, u.requests[t]) {
      assert Justified(s, s.requests[t]);
    }
    forall id | id in u.electors ensures ElectorOk(u, id) {
      assert ElectorOk(s, id);
    }
  }

  lemma SendKeeps(s: State, id: string, r: Request)
    requires Inv(s) && id in s.electors && s.electors[id].phase.GotGet?
    requires r.owner == id && r.stamp == s.electors[id].phase.stamp && Justified(s, r)
    ensures Inv(Send(s, id, s.electors[id], s.electors[id].phase.stamp, r))
  {
    var e := s.electors[id];
    var u := Send(s, id, e, e.phase.stamp, r);
    forall t | t in u.requests ensures t < u.nextTicket && u.requests[t].owner in u.electors && Justified(u, u.requests[t]) {
      if t != s.nextTicket { assert Justified(s, s.requests[t]); }
    }
    forall other | other in u.electors ensures ElectorOk(u, other) {
      assert ElectorOk(s, other);
    }
  }

  lemma HandleKeeps(s: State, id: string)
    requires Inv(s) && Enabled(s, HandleGet(id))
    ensures Inv(Take(s, HandleGet(id)))
  {
    assert ElectorOk(s, id);
    var e := s.electors[id];
    match Decide(id, e.phase.answer, s.now)
    case SendCreate => SendKeeps(s, id, Create(id, e.phase.stamp));
    case SendPatch(seen) => SendKeeps(s, id, Patch(id, e.phase.stamp, seen, s.now));
    case StandBack => ElectorStepKeeps(s, id, e.(phase := Idle, leader := false));
  }

  // ---- a served write -------------------------------------------------------------------------------------------

  /** The store after an accepted or refused write, before the owner hears of it. */
  function Stored(s: State, ticket: nat): State
    requires Enabled(s, ServeWrite(ticket))
  {
    Serve(s, ticket).(electors := s.electors)
  }

  /** An accepted write does not take the lease from an elector whose entitlement still runs. */
  lemma WriteRespects(s: State, ticket: nat, id: string, stamp: int)
    requires Inv(s) && Enabled(s, ServeWrite(ticket)) && Claim(s, id, stamp)
    ensures Claim(Stored(s, ticket), id, stamp)
  {
    var r := s.requests[ticket];
    var u := Stored(s, ticket);
    assert Justified(s, r);
    if Accepted(s.lease, r) {
      forall t | t in u.requests && Acceptable(u, u.requests[t], id) ensures u.requests[t].stamp >= stamp {
        assert Justified(s, s.requests[t]);
      }
    }
  }

  lemma StoredJustified(s: State, ticket: nat)
    requires Inv(s) && Enabled(s, ServeWrite(ticket))
    ensures AllJustified(Stored(s, ticket))
  {
    var u := Stored(s, ticket);
    forall t | t in u.requests ensures t < u.nextTicket && u.requests[t].owner in u.electors && Justified(u, u.requests[t]) {
      assert Justified(s, s.requests[t]);
    }
  }

  lemma StoredInv(s: State, ticket: nat)
    requires Inv(s) && Enabled(s, ServeWrite(ticket))
    ensures Inv(Stored(s, ticket))
  {
    StoredJustified(s, ticket);
    var u := Stored(s, ticket);
    forall id | id in u.electors ensures ElectorOk(u, id) {
      assert ElectorOk(s, id);
      var e := s.electors[id];
      if e.leader { WriteRespects(s, ticket, id, e.renewedAt); }
      if e.phase.Answered? && e.phase.won { WriteRespects(s, ticket, id, e.phase.stamp); }
    }
  }

  /** The writer of an accepted request holds a fresh lease. */
  lemma WriterClaims(s: State, ticket: nat)
    requires Inv(s) && Enabled(s, ServeWrite(ticket)) && Accepted(s.lease, s.requests[ticket])
    ensures Claim(Stored(s, ticket), s.requests[ticket].owner, s.requests[ticket].stamp)
  {
    var u := Stored(s, ticket);
    forall t | t in u.requests && u.requests[t].Patch? ensures u.requests[t].seen.version != u.lease.value.version {
      assert Justified(s, s.requests[t]);
    }
  }

  lemma ServeKeeps(s: State, ticket: nat)
    requires Inv(s) && Enabled(s, ServeWrite(ticket))
    ensures Inv(Take(s, ServeWrite(ticket)))
  {
    StoredInv(s, ticket);
    var u := Stored(s, ticket);
    var id := s.requests[ticket].owner;
    var e := s.electors[id];
    var won := Accepted(s.lease, s.requests[ticket]);
    if won { WriterClaims(s, ticket); }
    if e.phase.AwaitWrite? && e.phase.ticket == ticket {
      assert ElectorOk(s, id) && ElectorOk(u, id);
      ElectorStepKeeps(u, id, e.(phase := Answered(e.phase.stamp, won)));
      assert SetElector(u, id, e.(phase := Answered(e.phase.stamp, won))) == Serve(s, ticket);
    } else {
      assert u == Serve(s, ticket);
    }
  }

  lemma StepKeepsInv(s: State, step: Step)
    requires Inv(s) && Enabled(s, step)
    ensures Inv(Take(s, step))
  {
    match step
    case Advance(elapsed) => AdvanceKeeps(s, elapsed);
    case StartTick(id) =>
      assert ElectorOk(s, id);
      ElectorStepKeeps(s, id, s.electors[id].(phase := AwaitGet(s.now)));
    case ServeGet(id) =>
      assert ElectorOk(s, id);
      ElectorStepKeeps(s, id, s.electors[id].(phase := GotGet(s.electors[id].phase.stamp, s.lease)));
    case HandleGet(id) => HandleKeeps(s, id);
    case ServeWrite(ticket) => ServeKeeps(s, ticket);
    case LoseWrite(ticket) => LoseKeeps(s, ticket);
    case FailTick(id) =>
      ElectorStepKeeps(s, id, s.electors[id].(phase := Idle, leader := false));
    case FinishTick(id) =>
      assert ElectorOk(s, id);
      var e := s.electors[id];
      ElectorStepKeeps(s, id, e.(phase := Idle, leader := e.phase.won, renewedAt := if e.phase.won then e.phase.stamp else e.renewedAt));
  }

  lemma {:induction false} RunKeepsInv(s: State, steps: seq<Step>)
    requires Initial(s) && IsRun(s, steps)
    ensures Inv(After(s, steps))
    decreases |steps|
  {
    if steps == [] {
      InitialInv(s);
    } else {
      RunKeepsInv(s, steps[..|steps| - 1]);
      StepKeepsInv(After(s, steps[..|steps| - 1]), steps[|steps| - 1]);
    }
  }

  // ---- mutual exclusion -----------------------------------------------------------------------------------------

  /** The elector leads, and its last renewal plus the stored duration is still ahead. */
  predicate LeadsInTime(s: State, id: string) {
    id in s.electors && s.electors[id].leader && s.now < Deadline(s.electors[id], s.electors[id].renewedAt)
  }

  /** In every reachable state at most one elector leads within its time, and the stored lease names it. */
  lemma MutualExclusion(s: State, steps: seq<Step>, a: string, b: string)
    requires Initial(s) && IsRun(s, steps)
    requires LeadsInTime(After(s, steps), a)
    ensures After(s, steps).lease.Some? && After(s, steps).lease.value.holder == Some(a)
    ensures LeadsInTime(After(s, steps), b) ==> a == b
  {
    RunKeepsInv(s, steps);
    var u := After(s, steps);
    assert ElectorOk(u, a);
    if LeadsInTime(u, b) {
      assert ElectorOk(u, b);
    }
  }

  /** Hence, if no leader's time ever runs out before its next tick finishes, two electors never lead at once. */
  lemma NeverTwoLeaders(s: State, steps: seq<Step>)
    requires Initial(s) && IsRun(s, steps)
    requires forall id :: id in After(s, steps).electors && After(s, steps).electors[id].leader ==> LeadsInTime(After(s, steps), id)
    ensures var u := After(s, steps);
      forall a, b :: a in u.electors && b in u.electors && u.electors[a].leader && u.electors[b].leader ==> a == b
  {
    var u := After(s, steps);
    forall a, b | a in u.electors && b in u.electors && u.electors[a].leader && u.electors[b].leader ensures a == b {
      MutualExclusion(s, steps, a, b);
    }
  }

  // ---- transitions ---------------------------------------------------------------------------------------------------

  function HolderOf(s: State): Option<string> {
    match s.lease case None => None case Some(l) => l.holder
  }

  /** How often the holder of an existing lease was replaced by another. */
  ghost function HolderChanges(s: State, steps: seq<Step>): nat
    requires IsRun(s, steps)
    decreases |steps|
  {
    if steps == [] then 0
    else
      var before := After(s, steps[..|steps| - 1]);
      var after := After(s, steps);
      HolderChanges(s, steps[..|steps| - 1]) + if before.lease.Some? && HolderOf(before) != HolderOf(after) then 1 else 0
  }

  /** One step: the counter moves exactly with the holder. */
  lemma StepCounts(s: State, step: Step)
    requires Inv(s) && Enabled(s, step)
    ensures var u := Take(s, step);
      && (s.lease.Some? ==> u.lease.Some?)
      && (s.lease.Some? ==> OrZero(u.lease.value.transitions) == OrZero(s.lease.value.transitions) + if HolderOf(s) != HolderOf(u) then 1 else 0)
      && (s.lease.Some? && s.lease.value.transitions.Some? ==> u.lease.value.transitions.Some?)
      && (s.lease.None? && u.lease.Some? ==> u.lease.value.transitions == Some(1))
  {
    if step.ServeWrite? {
      assert Justified(s, s.requests[step.ticket]);
    }
  }

  /** The counter stands for so many holder changes since the lease was created. */
  predicate Counted(s: State, changes: nat) {
    if s.lease.Some? then s.lease.value.transitions == Some(1 + changes) else changes == 0
  }

  lemma NextCounts(s: State, step: Step, changes: nat)
    requires Inv(s) && Enabled(s, step) && Counted(s, changes)
    ensures Counted(Take(s, step), changes + if s.lease.Some? && HolderOf(s) != HolderOf(Take(s, step)) then 1 else 0)
  {
    StepCounts(s, step);
  }

  /** From an absent lease, in every run: the stored counter is one more than the number of holder changes. */
  lemma {:induction false} TransitionsCountHolders(s: State, steps: seq<Step>)
    requires Initial(s) && IsRun(s, steps) && s.lease.None?
    ensures Counted(After(s, steps), HolderChanges(s, steps))
    decreases |steps|
  {
    if steps != [] {
      var init := steps[..|steps| - 1];
      TransitionsCountHolders(s, init);
      RunKeepsInv(s, init);
      NextCounts(After(s, init), steps[|steps| - 1], HolderChanges(s, init));
    }
  }
}
