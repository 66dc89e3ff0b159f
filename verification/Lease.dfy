/** Controller leader election (leader-election.ts): many electors compete for one lease through
    GET, POST and PATCH with a resource version. */
module Lease {
  import opened Options

  // ---- the lease -------------------------------------------------------------------------------------------

  /** A time field as `Date.parse` reads it. */
  datatype Stamp = At(ms: int) | Unreadable

  datatype LeaseRecord = LeaseRecord(
    version: nat,
    holder: Option<string>,
    renewTime: Option<Stamp>,
    acquireTime: Option<Stamp>,
    durationSeconds: Option<int>,
    transitions: Option<int>)

  /** `isLeaseExpired`. */
  predicate IsLeaseExpired(l: LeaseRecord, now: int) {
    if l.holder.None? || l.holder.value == "" then true
    else
      var renew := if l.renewTime.Some? then l.renewTime else l.acquireTime;
      if renew.None? || l.durationSeconds.None? || l.durationSeconds.value == 0 then true
      else if renew.value.Unreadable? then true
      else renew.value.ms + l.durationSeconds.value * 1000 <= now
  }

  /** `Math.ceil(ms / 1000)`. */
  function CeilSeconds(ms: nat): (seconds: nat)
    ensures ms <= seconds * 1000 < ms + 1000
  {
    (ms + 999) / 1000
  }

  function Created(identity: string, seconds: nat, stamp: int): LeaseRecord {
    LeaseRecord(1, Some(identity), Some(At(stamp)), Some(At(stamp)), Some(seconds), Some(1))
  }

  function OrZero(n: Option<int>): int {
    if n.Some? then n.value else 0
  }

  /** The merge patch sent after reading `seen`, applied to the stored lease. */
  function Patched(stored: LeaseRecord, seen: LeaseRecord, identity: string, seconds: nat, stamp: int): LeaseRecord {
    var same := seen.holder == Some(identity);
    LeaseRecord(stored.version + 1, Some(identity), Some(At(stamp)),
                if same then stored.acquireTime else Some(At(stamp)),
                Some(seconds),
                if same then stored.transitions else Some(OrZero(seen.transitions) + 1))
  }

  // ---- electors, requests, states ------------------------------------------------------------------------------

  datatype Request =
    | Create(owner: string, stamp: int)
    | Patch(owner: string, stamp: int, seen: LeaseRecord, judgedAt: int)

  /** Where an elector is in its tick; `stamp` is the time the tick started. */
  datatype Phase =
    | Idle
    | AwaitGet(stamp: int)
    | GotGet(stamp: int, answer: Option<LeaseRecord>)
    | AwaitWrite(stamp: int, ticket: nat)
    | Answered(stamp: int, won: bool)

  /** `renewedAt` is the stamp of the elector's last successful tick. */
  datatype Elector = Elector(seconds: nat, phase: Phase, leader: bool, renewedAt: int)

  /** Electors by identity. Requests in flight outlive the ticks that gave up on them. */
  datatype State = State(
    now: int,
    lease: Option<LeaseRecord>,
    electors: map<string, Elector>,
    requests: map<nat, Request>,
    nextTicket: nat)

  datatype Decision = SendCreate | SendPatch(seen: LeaseRecord) | StandBack

  /** What an elector does with the answer to its GET. */
  function Decide(identity: string, answer: Option<LeaseRecord>, now: int): Decision {
    match answer
    case None => SendCreate
    case Some(l) => if l.holder == Some(identity) || IsLeaseExpired(l, now) then SendPatch(l) else StandBack
  }

  // ---- steps ------------------------------------------------------------------------------------------------------

  datatype Step =
    | Advance(elapsed: nat)
    | StartTick(id: string)
    | ServeGet(id: string)
    | HandleGet(id: string)
    | ServeWrite(ticket: nat)
    | LoseWrite(ticket: nat)
    | FailTick(id: string)
    | FinishTick(id: string)

  predicate Enabled(s: State, step: Step) {
    match step
    case Advance(_) => true
    case StartTick(id) => id in s.electors && s.electors[id].phase.Idle?
    case ServeGet(id) => id in s.electors && s.electors[id].phase.AwaitGet?
    case HandleGet(id) => id in s.electors && s.electors[id].phase.GotGet?
    case ServeWrite(ticket) => ticket in s.requests && s.requests[ticket].owner in s.electors
    case LoseWrite(ticket) => ticket in s.requests
    case FailTick(id) => id in s.electors && !s.electors[id].phase.Idle?
    case FinishTick(id) => id in s.electors && s.electors[id].phase.Answered?
  }

  function SetElector(s: State, id: string, e: Elector): State {
    s.(electors := s.electors[id := e])
  }

  function Send(s: State, id: string, e: Elector, stamp: int, r: Request): State {
    s.(electors := s.electors[id := e.(phase := AwaitWrite(stamp, s.nextTicket))],
       requests := s.requests[s.nextTicket := r],
       nextTicket := s.nextTicket + 1)
  }

  function Handle(s: State, id: string): State
    requires Enabled(s, HandleGet(id))
  {
    var e := s.electors[id];
    var stamp := e.phase.stamp;
    match Decide(id, e.phase.answer, s.now)
    case SendCreate => Send(s, id, e, stamp, Create(id, stamp))
    case SendPatch(seen) => Send(s, id, e, stamp, Patch(id, stamp, seen, s.now))
    case StandBack => SetElector(s, id, e.(phase := Idle, leader := false))
  }

  /** The API server accepts a create when there is no lease, and a patch when the version is current. */
  predicate Accepted(lease: Option<LeaseRecord>, r: Request) {
    match r
    case Create(_, _) => lease.None?
    case Patch(_, _, seen, _) => lease.Some? && lease.value.version == seen.version
  }

  function Written(lease: Option<LeaseRecord>, r: Request, seconds: nat): LeaseRecord
    requires Accepted(lease, r)
  {
    match r
    case Create(owner, stamp) => Created(owner, seconds, stamp)
    case Patch(owner, stamp, seen, _) => Patched(lease.value, seen, owner, seconds, stamp)
  }

  /** The owner hears the result if it is still waiting for this very request. */
  function Notify(s: State, ticket: nat, won: bool): map<string, Elector>
    requires Enabled(s, ServeWrite(ticket))
  {
    var id := s.requests[ticket].owner;
    var e := s.electors[id];
    if e.phase.AwaitWrite? && e.phase.ticket == ticket
    then s.electors[id := e.(phase := Answered(e.phase.stamp, won))]
    else s.electors
  }

  function Serve(s: State, ticket: nat): State
    requires Enabled(s, ServeWrite(ticket))
  {
    var r := s.requests[ticket];
    var won := Accepted(s.lease, r);
    s.(lease := if won then Some(Written(s.lease, r, s.electors[r.owner].seconds)) else s.lease,
       electors := Notify(s, ticket, won),
       requests := s.requests - {ticket})
  }

  function Take(s: State, step: Step): State
    requires Enabled(s, step)
  {
    match step
    case Advance(elapsed) => s.(now := s.now + elapsed)
    case StartTick(id) => SetElector(s, id, s.electors[id].(phase := AwaitGet(s.now)))
    case ServeGet(id) => SetElector(s, id, s.electors[id].(phase := GotGet(s.electors[id].phase.stamp, s.lease)))
    case HandleGet(id) => Handle(s, id)
    case ServeWrite(ticket) => Serve(s, ticket)
    case LoseWrite(ticket) => s.(requests := s.requests - {ticket})
    case FailTick(id) => SetElector(s, id, s.electors[id].(phase := Idle, leader := false))
    case FinishTick(id) =>
      var e := s.electors[id];
      SetElector(s, id, e.(phase := Idle, leader := e.phase.won, renewedAt := if e.phase.won then e.phase.stamp else e.renewedAt))
  }

  // ---- runs --------------------------------------------------------------------------------------------------------

  /** No elector leads or has a request under way; the lease may be absent or left over from earlier. */
  predicate Initial(s: State) {
    && s.requests == map[]
    && (forall id :: id in s.electors ==> id != "" && s.electors[id].phase == Idle && !s.electors[id].leader && s.electors[id].seconds > 0)
  }

  ghost predicate IsRun(s: State, steps: seq<Step>)
    decreases |steps|, 0
  {
    steps == [] ||
    (IsRun(s, steps[..|steps| - 1]) && Enabled(After(s, steps[..|steps| - 1]), steps[|steps| - 1]))
  }

  ghost function After(s: State, steps: seq<Step>): State
    requires IsRun(s, steps)
    decreases |steps|, 1
  {
    if steps == [] then s else Take(After(s, steps[..|steps| - 1]), steps[|steps| - 1])
  }
}
