/** Safety and completeness of the placement plan, for any scoring of candidates. */
module PlacementProofs {
  import opened Options
  import opened Fleet
  import opened Placement

  function Ids(ps: seq<Fleet.Placement>): set<string> {
    set p | p in ps :: p.workspaceId
  }

  ghost predicate DistinctIds(ps: seq<Fleet.Placement>) {
    forall i, j :: 0 <= i < j < |ps| ==> ps[i].workspaceId != ps[j].workspaceId
  }

  // ---- the selected worker ------------------------------------------------------------------------------------

  ghost predicate Eligible(env: Env, excluded: set<string>, t: Target) {
    exists w :: w in env.workers && w.health == Healthy && w.state != Stopping
      && w.workerId == t.workerId && Reference(w) == t.reference
      && t.workerId !in excluded && t.reference !in excluded
  }

  lemma SelectedIsEligible(env: Env, plan: Plan, p: Fleet.Placement, excluded: set<string>, loadAware: bool)
    ensures var t := SelectTarget(env, plan, p, excluded, loadAware);
      t.Some? ==> Eligible(env, excluded, t.value)
  {
    var candidates := Candidates(env.workers, excluded);
    if candidates != [] {
      var pick := env.choose(p, candidates, loadAware, RefLoads(Tracked(env.placements)), plan.loads);
      if pick.Some? {
        var w := FindWorker(candidates, pick.value);
        if w.Some? {
          assert w.value in candidates;
        }
      }
    }
  }

  // ---- one operation -----------------------------------------------------------------------------------------------

  predicate MustRelease(env: Env, p: Fleet.Placement) {
    p.state != Evicted && OwnerOf(p).Some? &&
    match LastWorker(env.workers, OwnerOf(p).value)
    case None => true
    case Some(w) => p.state == Draining || w.state == Stopping || (w.health == Late && p.state != Active)
  }

  /** Why an operation of this kind exists. */
  predicate Warranted(env: Env, p: Fleet.Placement, op: Operation) {
    && p.state != Evicted && op.workspaceId == p.workspaceId && op.state == p.state
    && match op.kind
       case AssignUnassigned => OwnerOf(p).None? && op.action == SetPreferredWorker && op.target.Some?
       case RecoverMissingOwner => MustRelease(env, p) && LastWorker(env.workers, OwnerOf(p).value).None? && op.action == ReleaseOwnership
       case FinishDrainingOwner =>
         && MustRelease(env, p) && LastWorker(env.workers, OwnerOf(p).value).Some?
         && (p.state == Draining || LastWorker(env.workers, OwnerOf(p).value).value.state == Stopping)
         && op.action == ReleaseOwnership
       case ReassignLateOwner =>
         && OwnerOf(p).Some? && LastWorker(env.workers, OwnerOf(p).value).Some?
         && LastWorker(env.workers, OwnerOf(p).value).value.health == Late
         && (op.action == ReleaseOwnership <==> MustRelease(env, p))
         && (op.action == SetPreferredWorker ==> p.state == Active && op.target.Some?)
       case ConsolidateOwnerAffinity =>
         (p.state == Idle || p.state == Unassigned) && p.owner.Some? && |OwnerWorkers(env, p.owner.value)| > 1
         && op.action == SetPreferredWorker && op.target.Some?
       case RebalanceCapacity =>
         p.state == Idle && OwnerOf(p).Some? && OwnerOf(p).value in Overloaded(env)
         && op.action == SetPreferredWorker && op.target.Some?
  }

  /** The operation points at a worker that can take the workspace, and never at its owner. */
  ghost predicate WellAimed(env: Env, p: Fleet.Placement, op: Operation, reference: Option<string>) {
    && (op.target.None? <==> reference.None?)
    && (op.target.Some? ==>
          && (OwnerOf(p).Some? ==> op.target != OwnerOf(p) && reference != OwnerOf(p))
          && (op.kind == RebalanceCapacity ==> op.target.value !in Overloaded(env))
          && Aimed(env, op, reference.value))
  }

  ghost predicate Aimed(env: Env, op: Operation, reference: string)
    requires op.target.Some?
  {
    exists w :: w in env.workers && w.health == Healthy && w.state != Stopping && Reference(w) == reference
      && op.target.value == if op.action == ReleaseOwnership then w.workerId else reference
  }

  ghost predicate Sound(env: Env, op: Operation, reference: Option<string>) {
    exists p :: p in env.placements && Warranted(env, p, op) && WellAimed(env, p, op, reference)
  }

  ghost predicate AllSound(env: Env, plan: Plan) {
    && |plan.picked| == |plan.operations|
    && forall i :: 0 <= i < |plan.operations| ==> Sound(env, plan.operations[i], plan.picked[i])
  }

  lemma EmitSound(env: Env, plan: Plan, p: Fleet.Placement, op: Operation, t: Option<Target>, handled: bool)
    requires AllSound(env, plan) && p in env.placements
    requires Warranted(env, p, op) && WellAimed(env, p, op, match t case None => None case Some(x) => Some(x.reference))
    ensures AllSound(env, Emit(plan, op, t, handled))
  {
  }

  lemma AimedByRelease(env: Env, p: Fleet.Placement, kind: Kind, t: Option<Target>, owner: string)
    requires OwnerOf(p) == Some(owner) && kind != RebalanceCapacity
    requires t.Some? ==> Eligible(env, {owner}, t.value)
    ensures WellAimed(env, p, Release(kind, p, t), match t case None => None case Some(x) => Some(x.reference))
  {
  }

  lemma AimedByHint(env: Env, p: Fleet.Placement, kind: Kind, t: Target, excluded: set<string>)
    requires Eligible(env, excluded, t)
    requires OwnerOf(p).Some? ==> OwnerOf(p).value in excluded || OwnerOf(p) != Some(t.reference)
    requires kind == RebalanceCapacity ==> Overloaded(env) <= excluded
    ensures WellAimed(env, p, Hint(kind, p, t), Some(t.reference))
  {
  }

  lemma FirstStepSound(env: Env, plan: Plan, p: Fleet.Placement)
    requires AllSound(env, plan) && p in env.placements
    ensures AllSound(env, FirstStep(env, plan, p))
  {
    if p.state != Evicted {
      match OwnerOf(p)
      case None =>
        SelectedIsEligible(env, plan, p, {}, p.owner.None?);
        var t := SelectTarget(env, plan, p, {}, p.owner.None?);
        if t.Some? && !Preferred(p, t.value) {
          EmitSound(env, plan, p, Operation(AssignUnassigned, p.workspaceId, None, p.state, SetPreferredWorker, Some(t.value.reference)), t, true);
        }
      case Some(owner) =>
        SelectedIsEligible(env, plan, p, {owner}, p.owner.None?);
        OwnedStepSound(env, plan, p, owner);
    }
  }

  lemma OwnedStepSound(env: Env, plan: Plan, p: Fleet.Placement, owner: string)
    requires AllSound(env, plan) && p in env.placements && p.state != Evicted && OwnerOf(p) == Some(owner)
    requires var t := SelectTarget(env, plan, p, {owner}, p.owner.None?); t.Some? ==> Eligible(env, {owner}, t.value)
    ensures AllSound(env, FirstStep(env, plan, p))
  {
    var t := SelectTarget(env, plan, p, {owner}, p.owner.None?);
    var op := OwnedOperation(env, p, owner, t);
    if op.Some? {
      OwnedIsWarranted(env, p, owner, t);
      OwnedIsAimed(env, p, owner, t);
      EmitSound(env, plan, p, op.value, t, true);
    }
  }

  lemma OwnedIsWarranted(env: Env, p: Fleet.Placement, owner: string, t: Option<Target>)
    requires p.state != Evicted && OwnerOf(p) == Some(owner)
    ensures var op := OwnedOperation(env, p, owner, t); op.Some? ==> Warranted(env, p, op.value)
  {
  }

  lemma OwnedIsAimed(env: Env, p: Fleet.Placement, owner: string, t: Option<Target>)
    requires OwnerOf(p) == Some(owner) && (t.Some? ==> Eligible(env, {owner}, t.value))
    ensures var op := OwnedOperation(env, p, owner, t);
      op.Some? ==> WellAimed(env, p, op.value, match t case None => None case Some(x) => Some(x.reference))
  {
    AimedByRelease(env, p, RecoverMissingOwner, t, owner);
    AimedByRelease(env, p, FinishDrainingOwner, t, owner);
    AimedByRelease(env, p, ReassignLateOwner, t, owner);
    if t.Some? { AimedByHint(env, p, ReassignLateOwner, t.value, {owner}); }
  }

  lemma SecondStepSound(env: Env, plan: Plan, p: Fleet.Placement)
    requires AllSound(env, plan) && p in env.placements && p.state != Evicted
    ensures AllSound(env, SecondStep(env, plan, p))
  {
    var t := SelectTarget(env, plan, p, {}, false);
    SelectedIsEligible(env, plan, p, {}, false);
    if SecondStep(env, plan, p) != plan {
      AimedByHint(env, p, ConsolidateOwnerAffinity, t.value, {});
      EmitSound(env, plan, p, Hint(ConsolidateOwnerAffinity, p, t.value), t, true);
    }
  }

  lemma ThirdStepSound(env: Env, plan: Plan, p: Fleet.Placement)
    requires AllSound(env, plan) && p in env.placements && p.state != Evicted
    ensures AllSound(env, ThirdStep(env, plan, p))
  {
    if p.worker.Some? {
      var excluded := Overloaded(env) + {p.worker.value};
      var t := SelectTarget(env, plan, p, excluded, true);
      SelectedIsEligible(env, plan, p, excluded, true);
      if ThirdStep(env, plan, p) != plan {
        AimedByHint(env, p, RebalanceCapacity, t.value, excluded);
        EmitSound(env, plan, p, Hint(RebalanceCapacity, p, t.value), t, false);
      }
    }
  }

  lemma {:induction false} FirstPassSound(env: Env, ps: seq<Fleet.Placement>)
    requires forall p :: p in ps ==> p in env.placements
    ensures AllSound(env, FirstPass(env, ps))
    decreases |ps|
  {
    if ps != [] {
      FirstPassSound(env, ps[..|ps| - 1]);
      FirstStepSound(env, FirstPass(env, ps[..|ps| - 1]), ps[|ps| - 1]);
    }
  }

  lemma {:induction false} SecondPassSound(env: Env, plan: Plan, ps: seq<Fleet.Placement>)
    requires AllSound(env, plan) && forall p :: p in ps ==> p in env.placements && p.state != Evicted
    ensures AllSound(env, SecondPass(env, plan, ps))
    decreases |ps|
  {
    if ps != [] {
      SecondPassSound(env, plan, ps[..|ps| - 1]);
      SecondStepSound(env, SecondPass(env, plan, ps[..|ps| - 1]), ps[|ps| - 1]);
    }
  }

  lemma {:induction false} ThirdPassSound(env: Env, plan: Plan, ps: seq<Fleet.Placement>)
    requires AllSound(env, plan) && forall p :: p in ps ==> p in env.placements && p.state != Evicted
    ensures AllSound(env, ThirdPass(env, plan, ps))
    decreases |ps|
  {
    if ps != [] {
      ThirdPassSound(env, plan, ps[..|ps| - 1]);
      ThirdStepSound(env, ThirdPass(env, plan, ps[..|ps| - 1]), ps[|ps| - 1]);
    }
  }

  /** Every operation of the plan has its reason and a sound target. */
  lemma PlanIsSound(env: Env)
    ensures AllSound(env, BuildPlan(env))
  {
    var tracked := Tracked(env.placements);
    FirstPassSound(env, env.placements);
    SecondPassSound(env, FirstPass(env, env.placements), tracked);
    ThirdPassSound(env, SecondPass(env, FirstPass(env, env.placements), tracked), tracked);
  }

  // ---- one operation per workspace ---------------------------------------------------------------------------------

  function OpIds(ops: seq<Operation>): set<string> {
    set op | op in ops :: op.workspaceId
  }

  ghost predicate OnePerWorkspace(ops: seq<Operation>) {
    forall i, j :: 0 <= i < j < |ops| ==> ops[i].workspaceId != ops[j].workspaceId
  }

  lemma AppendDistinct(ops: seq<Operation>, op: Operation)
    requires OnePerWorkspace(ops) && op.workspaceId !in OpIds(ops)
    ensures OnePerWorkspace(ops + [op]) && OpIds(ops + [op]) == OpIds(ops) + {op.workspaceId}
  {
    forall i | 0 <= i < |ops| ensures ops[i].workspaceId != op.workspaceId {
      assert ops[i] in ops;
    }
    assert forall x :: x in ops + [op] <==> x in ops || x == op;
  }

  lemma LastIsNew(ps: seq<Fleet.Placement>)
    requires ps != [] && DistinctIds(ps)
    ensures ps[|ps| - 1].workspaceId !in Ids(ps[..|ps| - 1]) && DistinctIds(ps[..|ps| - 1])
    ensures Ids(ps) == Ids(ps[..|ps| - 1]) + {ps[|ps| - 1].workspaceId}
  {
    assert ps == ps[..|ps| - 1] + [ps[|ps| - 1]];
  }

  ghost predicate Fresh(plan: Plan, bound: set<string>) {
    OnePerWorkspace(plan.operations) && OpIds(plan.operations) <= bound
  }

  /** A step appends at most one operation, for its own workspace. */
  ghost predicate AtMostOne(before: Plan, after: Plan, id: string) {
    || after == before
    || exists op: Operation, target: Option<Target>, handled: bool :: op.workspaceId == id && after == Emit(before, op, target, handled)
  }

  lemma FirstStepAtMostOne(env: Env, plan: Plan, p: Fleet.Placement)
    ensures AtMostOne(plan, FirstStep(env, plan, p), p.workspaceId)
    ensures plan.scheduled == OpIds(plan.operations) ==> FirstStep(env, plan, p).scheduled == OpIds(FirstStep(env, plan, p).operations)
  {
    var after := FirstStep(env, plan, p);
    if after != plan {
      var op := after.operations[|after.operations| - 1];
      assert forall x :: x in plan.operations + [op] <==> x in plan.operations || x == op;
    }
  }

  lemma {:induction false} FirstPassDistinct(env: Env, ps: seq<Fleet.Placement>)
    requires DistinctIds(ps)
    ensures Fresh(FirstPass(env, ps), Ids(ps))
    ensures FirstPass(env, ps).scheduled == OpIds(FirstPass(env, ps).operations)
    decreases |ps|
  {
    if ps != [] {
      LastIsNew(ps);
      FirstPassDistinct(env, ps[..|ps| - 1]);
      var before := FirstPass(env, ps[..|ps| - 1]);
      FirstStepAtMostOne(env, before, ps[|ps| - 1]);
      StepStaysFresh(before, FirstPass(env, ps), ps[|ps| - 1].workspaceId, Ids(ps[..|ps| - 1]));
    }
  }

  lemma StepStaysFresh(before: Plan, after: Plan, id: string, bound: set<string>)
    requires Fresh(before, bound) && AtMostOne(before, after, id) && (after == before || id !in OpIds(before.operations))
    ensures Fresh(after, bound + {id})
  {
    if after != before {
      var op: Operation, target: Option<Target>, handled: bool :| op.workspaceId == id && after == Emit(before, op, target, handled);
      AppendDistinct(before.operations, op);
    }
  }

  lemma {:induction false} SecondPassDistinct(env: Env, plan: Plan, ps: seq<Fleet.Placement>, bound: set<string>)
    requires Fresh(plan, bound) && plan.scheduled == OpIds(plan.operations) && Ids(ps) <= bound
    ensures Fresh(SecondPass(env, plan, ps), bound)
    ensures SecondPass(env, plan, ps).scheduled == OpIds(SecondPass(env, plan, ps).operations)
    decreases |ps|
  {
    if ps != [] {
      var init, p := ps[..|ps| - 1], ps[|ps| - 1];
      assert forall x :: x in init ==> x in ps;
      SecondPassDistinct(env, plan, init, bound);
      var before, after := SecondPass(env, plan, init), SecondPass(env, plan, ps);
      if after != before {
        AppendDistinct(before.operations, after.operations[|after.operations| - 1]);
      }
    }
  }

  lemma {:induction false} ThirdPassDistinct(env: Env, plan: Plan, ps: seq<Fleet.Placement>)
    requires OnePerWorkspace(plan.operations) && plan.scheduled == OpIds(plan.operations) && DistinctIds(ps)
    ensures Fresh(ThirdPass(env, plan, ps), plan.scheduled + Ids(ps))
    ensures ThirdPass(env, plan, ps).scheduled == plan.scheduled
    decreases |ps|
  {
    if ps != [] {
      var init, p := ps[..|ps| - 1], ps[|ps| - 1];
      LastIsNew(ps);
      ThirdPassDistinct(env, plan, init);
      var before, after := ThirdPass(env, plan, init), ThirdPass(env, plan, ps);
      if after != before {
        AppendDistinct(before.operations, after.operations[|after.operations| - 1]);
      }
    }
  }

  lemma {:induction false} TrackedDistinct(ps: seq<Fleet.Placement>)
    requires DistinctIds(ps)
    ensures DistinctIds(Tracked(ps)) && Ids(Tracked(ps)) <= Ids(ps)
    decreases |ps|
  {
    if ps != [] {
      LastIsNew(ps);
      TrackedDistinct(ps[..|ps| - 1]);
      var t := Tracked(ps[..|ps| - 1]);
      forall i | 0 <= i < |t| ensures t[i].workspaceId != ps[|ps| - 1].workspaceId {
        assert t[i] in t;
        assert t[i].workspaceId in Ids(t);
      }
    }
  }

  /** The plan has at most one operation per workspace. */
  lemma PlanOnePerWorkspace(env: Env)
    requires DistinctIds(env.placements)
    ensures OnePerWorkspace(BuildPlan(env).operations)
  {
    var tracked := Tracked(env.placements);
    TrackedDistinct(env.placements);
    FirstPassDistinct(env, env.placements);
    SecondPassDistinct(env, FirstPass(env, env.placements), tracked, Ids(env.placements));
    ThirdPassDistinct(env, SecondPass(env, FirstPass(env, env.placements), tracked), tracked);
  }

  // ---- scheduled loads --------------------------------------------------------------------------------------------------

  function Picks(picked: seq<Option<string>>, reference: string): nat {
    if picked == [] then 0
    else Picks(picked[..|picked| - 1], reference) + if picked[|picked| - 1] == Some(reference) then 1 else 0
  }

  ghost predicate LoadsCount(plan: Plan) {
    forall r :: Get(plan.loads, r) == Picks(plan.picked, r)
  }

  lemma EmitCounts(plan: Plan, op: Operation, t: Option<Target>, handled: bool)
    requires LoadsCount(plan)
    ensures LoadsCount(Emit(plan, op, t, handled))
  {
    var after := Emit(plan, op, t, handled);
    assert after.picked[..|after.picked| - 1] == plan.picked;
  }

  lemma AtMostOneCounts(before: Plan, after: Plan, id: string)
    requires LoadsCount(before) && AtMostOne(before, after, id)
    ensures LoadsCount(after)
  {
    if after != before {
      var op: Operation, target: Option<Target>, handled: bool :| op.workspaceId == id && after == Emit(before, op, target, handled);
      EmitCounts(before, op, target, handled);
    }
  }

  lemma LaterStepsAtMostOne(env: Env, plan: Plan, p: Fleet.Placement)
    ensures AtMostOne(plan, SecondStep(env, plan, p), p.workspaceId)
    ensures AtMostOne(plan, ThirdStep(env, plan, p), p.workspaceId)
  {
  }

  lemma {:induction false} PassesCount(env: Env, plan: Plan, ps: seq<Fleet.Placement>)
    requires LoadsCount(plan)
    ensures LoadsCount(FirstPass(env, ps)) && LoadsCount(SecondPass(env, plan, ps)) && LoadsCount(ThirdPass(env, plan, ps))
    decreases |ps|
  {
    if ps != [] {
      var init, p := ps[..|ps| - 1], ps[|ps| - 1];
      PassesCount(env, plan, init);
      FirstStepAtMostOne(env, FirstPass(env, init), p);
      AtMostOneCounts(FirstPass(env, init), FirstPass(env, ps), p.workspaceId);
      LaterStepsAtMostOne(env, SecondPass(env, plan, init), p);
      AtMostOneCounts(SecondPass(env, plan, init), SecondPass(env, plan, ps), p.workspaceId);
      LaterStepsAtMostOne(env, ThirdPass(env, plan, init), p);
      AtMostOneCounts(ThirdPass(env, plan, init), ThirdPass(env, plan, ps), p.workspaceId);
    }
  }

  /** The scheduled loads count, worker by worker, the operations aimed there. */
  lemma PlanLoadsCount(env: Env)
    ensures LoadsCount(BuildPlan(env))
  {
    var tracked := Tracked(env.placements);
    var empty := Plan([], [], {}, map[]);
    assert LoadsCount(empty);
    PassesCount(env, empty, env.placements);
    PassesCount(env, FirstPass(env, env.placements), tracked);
    PassesCount(env, SecondPass(env, FirstPass(env, env.placements), tracked), tracked);
  }

  // ---- who is left alone, who is released -----------------------------------------------------------------------------------

  predicate SettledOwner(env: Env, p: Fleet.Placement) {
    p.state == Active && OwnerOf(p).Some? &&
    match LastWorker(env.workers, OwnerOf(p).value) case None => false case Some(w) => w.health == Healthy && w.state != Stopping
  }

  lemma SameIdSamePlacement(ps: seq<Fleet.Placement>, p: Fleet.Placement, q: Fleet.Placement)
    requires DistinctIds(ps) && p in ps && q in ps && p.workspaceId == q.workspaceId
    ensures p == q
  {
  }

  lemma WarrantedNotSettled(env: Env, p: Fleet.Placement, op: Operation)
    requires Warranted(env, p, op)
    ensures p.state != Evicted && !SettledOwner(env, p)
  {
  }

  lemma SoundForAnother(env: Env, p: Fleet.Placement, op: Operation, reference: Option<string>)
    requires DistinctIds(env.placements) && p in env.placements && (p.state == Evicted || SettledOwner(env, p))
    requires Sound(env, op, reference)
    ensures op.workspaceId != p.workspaceId
  {
    var q :| q in env.placements && Warranted(env, q, op) && WellAimed(env, q, op, reference);
    WarrantedNotSettled(env, q, op);
    if q.workspaceId == p.workspaceId { SameIdSamePlacement(env.placements, p, q); }
  }

  /** Evicted workspaces, and active ones on a healthy worker that stays, get no operation. */
  lemma LeftAlone(env: Env, p: Fleet.Placement)
    requires DistinctIds(env.placements) && p in env.placements && (p.state == Evicted || SettledOwner(env, p))
    ensures p.workspaceId !in OpIds(BuildPlan(env).operations)
  {
    PlanIsSound(env);
    var plan := BuildPlan(env);
    forall i | 0 <= i < |plan.operations| ensures plan.operations[i].workspaceId != p.workspaceId {
      SoundForAnother(env, p, plan.operations[i], plan.picked[i]);
    }
  }

  ghost predicate Extends(before: Plan, after: Plan) {
    before.operations <= after.operations
  }

  lemma {:induction false} PassesExtend(env: Env, plan: Plan, ps: seq<Fleet.Placement>)
    ensures Extends(plan, SecondPass(env, plan, ps)) && Extends(plan, ThirdPass(env, plan, ps))
    decreases |ps|
  {
    if ps != [] {
      PassesExtend(env, plan, ps[..|ps| - 1]);
    }
  }

  predicate Releases(ops: seq<Operation>, id: string) {
    exists op :: op in ops && op.workspaceId == id && op.action == ReleaseOwnership
  }

  lemma FirstStepReleases(env: Env, plan: Plan, p: Fleet.Placement)
    requires MustRelease(env, p)
    ensures Releases(FirstStep(env, plan, p).operations, p.workspaceId)
  {
    var t := SelectTarget(env, plan, p, {OwnerOf(p).value}, p.owner.None?);
    var op := OwnedOperation(env, p, OwnerOf(p).value, t).value;
    assert op in FirstStep(env, plan, p).operations;
  }

  lemma {:induction false} FirstPassReleases(env: Env, ps: seq<Fleet.Placement>, p: Fleet.Placement)
    requires p in ps && MustRelease(env, p)
    ensures Releases(FirstPass(env, ps).operations, p.workspaceId)
    decreases |ps|
  {
    var init, last := ps[..|ps| - 1], ps[|ps| - 1];
    assert ps == init + [last];
    if p in init {
      FirstPassReleases(env, init, p);
      var op :| op in FirstPass(env, init).operations && op.workspaceId == p.workspaceId && op.action == ReleaseOwnership;
      assert op in FirstPass(env, ps).operations;
    } else {
      FirstStepReleases(env, FirstPass(env, init), p);
    }
  }

  /** A workspace is released if and only if its owner is gone, draining, stopping, or late while the
      workspace is not active. */
  lemma ReleasedIff(env: Env, p: Fleet.Placement)
    requires DistinctIds(env.placements) && p in env.placements
    ensures Releases(BuildPlan(env).operations, p.workspaceId) <==> MustRelease(env, p)
  {
    var plan := BuildPlan(env);
    if MustRelease(env, p) {
      var tracked := Tracked(env.placements);
      var first := FirstPass(env, env.placements);
      FirstPassReleases(env, env.placements, p);
      PassesExtend(env, first, tracked);
      PassesExtend(env, SecondPass(env, first, tracked), tracked);
      var op :| op in first.operations && op.workspaceId == p.workspaceId && op.action == ReleaseOwnership;
      assert op in plan.operations;
    }
    if Releases(plan.operations, p.workspaceId) {
      PlanIsSound(env);
      var op :| op in plan.operations && op.workspaceId == p.workspaceId && op.action == ReleaseOwnership;
      var i :| 0 <= i < |plan.operations| && plan.operations[i] == op;
      assert Sound(env, op, plan.picked[i]);
      var q :| q in env.placements && Warranted(env, q, op) && WellAimed(env, q, op, plan.picked[i]);
      SameIdSamePlacement(env.placements, p, q);
    }
  }
}
