/** What the plan must do: who is assigned, hinted away, consolidated and rebalanced, said of the workers and
    workspaces alone. */
module PlacementLaws {
  import opened Options
  import opened Fleet
  import opened Placement
  import opened PlacementProofs

  // ---- the fleet ------------------------------------------------------------------------------------------------

  /** A worker that can take a workspace. */
  predicate Usable(w: Worker) {
    w.health == Healthy && w.state != Stopping
  }

  /** A usable worker that goes neither by its id nor by its reference under one of these names. */
  predicate Free(w: Worker, names: set<string>) {
    Usable(w) && w.workerId !in names && Reference(w) !in names
  }

  ghost predicate SomeFree(workers: seq<Worker>, names: set<string>) {
    exists w :: w in workers && Free(w, names)
  }

  ghost predicate Names(workers: seq<Worker>, id: string) {
    exists w :: w in workers && w.workerId == id
  }

  /** The ranking names a candidate whenever there is one. */
  ghost predicate AlwaysChooses(choose: Chooser) {
    forall p, ws, aware, loads, scheduled :: ws != [] ==>
      (choose(p, ws, aware, loads, scheduled).Some? && Names(ws, choose(p, ws, aware, loads, scheduled).value))
  }

  /** The preference is none of the free workers. */
  ghost predicate Unpreferred(p: Fleet.Placement, workers: seq<Worker>, names: set<string>) {
    forall w :: w in workers && Free(w, names) ==> p.preferred != Some(Reference(w)) && p.preferred != Some(w.workerId)
  }

  /** `i` is the last entry of the worker with this reference. */
  ghost predicate LastEntry(workers: seq<Worker>, reference: string, i: int) {
    0 <= i < |workers| && Reference(workers[i]) == reference && forall j :: i < j < |workers| ==> Reference(workers[j]) != reference
  }

  lemma {:induction false} LastEntryFound(workers: seq<Worker>, reference: string, i: int)
    requires LastEntry(workers, reference, i)
    ensures LastWorker(workers, reference) == Some(workers[i])
    decreases |workers|
  {
    if i < |workers| - 1 {
      LastEntryFound(workers[..|workers| - 1], reference, i);
    }
  }

  /** The owner is there, healthy and staying. */
  ghost predicate WellOwned(env: Env, p: Fleet.Placement) {
    p.worker.Some? && p.state != Unassigned && exists i :: LastEntry(env.workers, p.worker.value, i) && Usable(env.workers[i])
  }

  /** The owner is there and staying, but late. */
  ghost predicate LateOwned(env: Env, p: Fleet.Placement) {
    p.worker.Some? && p.state != Unassigned &&
    exists i :: LastEntry(env.workers, p.worker.value, i) && env.workers[i].health == Late && env.workers[i].state != Stopping
  }

  // ---- the selected worker --------------------------------------------------------------------------------------------

  lemma {:induction false} NamedIsFound(workers: seq<Worker>, id: string)
    requires Names(workers, id)
    ensures FindWorker(workers, id).Some?
    decreases |workers|
  {
    if workers[0].workerId != id {
      var w :| w in workers && w.workerId == id;
      assert workers == [workers[0]] + workers[1..];
      assert w in workers[1..];
      NamedIsFound(workers[1..], id);
    }
  }

  lemma FreeIsSelected(env: Env, plan: Plan, p: Fleet.Placement, names: set<string>, aware: bool)
    requires AlwaysChooses(env.choose) && SomeFree(env.workers, names)
    ensures SelectTarget(env, plan, p, names, aware).Some?
  {
    var w :| w in env.workers && Free(w, names);
    var candidates := Candidates(env.workers, names);
    assert w in candidates;
    var pick := env.choose(p, candidates, aware, RefLoads(Tracked(env.placements)), plan.loads);
    assert pick.Some? && Names(candidates, pick.value);
    NamedIsFound(candidates, pick.value);
  }

  /** The hint points at a free worker. */
  ghost predicate PointsAt(env: Env, op: Operation, names: set<string>) {
    op.action == SetPreferredWorker && exists w :: w in env.workers && Free(w, names) && op.target == Some(Reference(w))
  }

  /** The selected worker is free and not the preferred one, so a hint to it is due. */
  lemma SelectedIsNew(env: Env, plan: Plan, p: Fleet.Placement, names: set<string>, aware: bool)
    requires AlwaysChooses(env.choose) && SomeFree(env.workers, names) && Unpreferred(p, env.workers, names)
    ensures var t := SelectTarget(env, plan, p, names, aware);
      t.Some? && !Preferred(p, t.value) && exists w :: w in env.workers && Free(w, names) && t.value.reference == Reference(w)
  {
    FreeIsSelected(env, plan, p, names, aware);
    SelectedIsEligible(env, plan, p, names, aware);
  }

  // ---- finding the step of a workspace -----------------------------------------------------------------------------------

  /** The plan has one operation for the workspace, and this is it. */
  ghost predicate OnlyOperation(plan: Plan, id: string, op: Operation) {
    exists i :: 0 <= i < |plan.operations| && plan.operations[i] == op && op.workspaceId == id &&
      forall j :: 0 <= j < |plan.operations| && j != i ==> plan.operations[j].workspaceId != id
  }

  lemma OnlyOne(env: Env, op: Operation)
    requires DistinctIds(env.placements) && op in BuildPlan(env).operations
    ensures OnlyOperation(BuildPlan(env), op.workspaceId, op)
  {
    PlanOnePerWorkspace(env);
    var ops := BuildPlan(env).operations;
    var i :| 0 <= i < |ops| && ops[i] == op;
    forall j | 0 <= j < |ops| && j != i ensures ops[j].workspaceId != op.workspaceId {
      assert j < i || i < j;
    }
  }

  lemma {:induction false} FirstStepOf(env: Env, ps: seq<Fleet.Placement>, p: Fleet.Placement) returns (before: Plan)
    requires p in ps
    ensures FirstStep(env, before, p).operations <= FirstPass(env, ps).operations
    decreases |ps|
  {
    var init, last := ps[..|ps| - 1], ps[|ps| - 1];
    assert ps == init + [last];
    if p == last {
      before := FirstPass(env, init);
    } else {
      before := FirstStepOf(env, init, p);
      FirstStepAtMostOne(env, FirstPass(env, init), last);
    }
  }

  ghost predicate KnownById(ps: seq<Fleet.Placement>, p: Fleet.Placement) {
    forall q :: q in ps && q.workspaceId == p.workspaceId ==> q == p
  }

  lemma {:induction false} SecondStepOf(env: Env, plan: Plan, ps: seq<Fleet.Placement>, p: Fleet.Placement) returns (before: Plan)
    requires p in ps && DistinctIds(ps) && p.workspaceId !in plan.scheduled
    ensures SecondStep(env, before, p).operations <= SecondPass(env, plan, ps).operations
    ensures p.workspaceId !in before.scheduled
    decreases |ps|
  {
    var init, last := ps[..|ps| - 1], ps[|ps| - 1];
    assert ps == init + [last];
    LastIsNew(ps);
    if p == last {
      before := SecondPass(env, plan, init);
      SecondPassSchedules(env, plan, init);
    } else {
      before := SecondStepOf(env, plan, init, p);
      LaterStepsAtMostOne(env, SecondPass(env, plan, init), last);
    }
  }

  lemma {:induction false} SecondPassSchedules(env: Env, plan: Plan, ps: seq<Fleet.Placement>)
    ensures SecondPass(env, plan, ps).scheduled <= plan.scheduled + Ids(ps)
    decreases |ps|
  {
    if ps != [] {
      var init, last := ps[..|ps| - 1], ps[|ps| - 1];
      assert ps == init + [last];
      SecondPassSchedules(env, plan, init);
      assert Ids(ps) == Ids(init) + {last.workspaceId};
    }
  }

  lemma {:induction false} ThirdStepOf(env: Env, plan: Plan, ps: seq<Fleet.Placement>, p: Fleet.Placement) returns (before: Plan)
    requires p in ps && p.workspaceId !in plan.scheduled
    ensures ThirdStep(env, before, p).operations <= ThirdPass(env, plan, ps).operations
    ensures p.workspaceId !in before.scheduled
    ensures ThirdPass(env, plan, ps).scheduled == plan.scheduled
    decreases |ps|
  {
    var init, last := ps[..|ps| - 1], ps[|ps| - 1];
    assert ps == init + [last];
    ThirdPassSchedules(env, plan, ps);
    ThirdPassSchedules(env, plan, init);
    if p == last {
      before := ThirdPass(env, plan, init);
    } else {
      before := ThirdStepOf(env, plan, init, p);
      LaterStepsAtMostOne(env, ThirdPass(env, plan, init), last);
    }
  }

  lemma {:induction false} ThirdPassSchedules(env: Env, plan: Plan, ps: seq<Fleet.Placement>)
    ensures ThirdPass(env, plan, ps).scheduled == plan.scheduled
    decreases |ps|
  {
    if ps != [] {
      ThirdPassSchedules(env, plan, ps[..|ps| - 1]);
    }
  }

  lemma WellOwnedSkipsFirst(env: Env, plan: Plan, p: Fleet.Placement)
    requires WellOwned(env, p) && p.state == Idle
    ensures FirstStep(env, plan, p) == plan
  {
    var i :| LastEntry(env.workers, p.worker.value, i) && Usable(env.workers[i]);
    LastEntryFound(env.workers, p.worker.value, i);
  }

  lemma {:induction false} FirstPassSkips(env: Env, ps: seq<Fleet.Placement>, p: Fleet.Placement)
    requires KnownById(ps, p) && WellOwned(env, p) && p.state == Idle
    ensures p.workspaceId !in FirstPass(env, ps).scheduled
    decreases |ps|
  {
    if ps != [] {
      var init, last := ps[..|ps| - 1], ps[|ps| - 1];
      assert ps == init + [last];
      FirstPassSkips(env, init, p);
      if last == p {
        WellOwnedSkipsFirst(env, FirstPass(env, init), p);
      } else {
        assert last in ps;
        FirstStepAtMostOne(env, FirstPass(env, init), last);
      }
    }
  }

  lemma FirstIsKept(env: Env)
    ensures FirstPass(env, env.placements).operations <= BuildPlan(env).operations
    ensures SecondPass(env, FirstPass(env, env.placements), Tracked(env.placements)).operations <= BuildPlan(env).operations
  {
    var first, tracked := FirstPass(env, env.placements), Tracked(env.placements);
    PassesExtend(env, first, tracked);
    PassesExtend(env, SecondPass(env, first, tracked), tracked);
  }

  lemma InPrefix(ops: seq<Operation>, all: seq<Operation>, op: Operation)
    requires op in ops && ops <= all
    ensures op in all
  {
    var i :| 0 <= i < |ops| && ops[i] == op;
    assert all[i] == op;
  }

  /** An operation a step emits ends up alone in the plan. */
  lemma Planned(env: Env, ops: seq<Operation>, pass: seq<Operation>, op: Operation)
    requires DistinctIds(env.placements) && op in ops && ops <= pass && pass <= BuildPlan(env).operations
    ensures OnlyOperation(BuildPlan(env), op.workspaceId, op)
  {
    InPrefix(ops, pass, op);
    InPrefix(pass, BuildPlan(env).operations, op);
    OnlyOne(env, op);
  }

  // ---- assignment ----------------------------------------------------------------------------------------------------------

  lemma AssignEmits(env: Env, plan: Plan, p: Fleet.Placement) returns (op: Operation)
    requires AlwaysChooses(env.choose) && p.state != Evicted && (p.worker.None? || p.state == Unassigned)
    requires SomeFree(env.workers, {}) && Unpreferred(p, env.workers, {})
    ensures op in FirstStep(env, plan, p).operations && op.workspaceId == p.workspaceId
    ensures op.kind == AssignUnassigned && PointsAt(env, op, {})
  {
    SelectedIsNew(env, plan, p, {}, p.owner.None?);
    var t := SelectTarget(env, plan, p, {}, p.owner.None?);
    op := Operation(AssignUnassigned, p.workspaceId, None, p.state, SetPreferredWorker, Some(t.value.reference));
    assert FirstStep(env, plan, p) == Emit(plan, op, t, true);
  }

  /** A workspace without an owner that counts is assigned to a usable worker, by its only operation, provided
      there is one and the preference does not name one already. */
  lemma Assigned(env: Env, p: Fleet.Placement)
    requires DistinctIds(env.placements) && p in env.placements && AlwaysChooses(env.choose)
    requires p.state != Evicted && (p.worker.None? || p.state == Unassigned)
    requires SomeFree(env.workers, {}) && Unpreferred(p, env.workers, {})
    ensures exists op :: OnlyOperation(BuildPlan(env), p.workspaceId, op) && op.kind == AssignUnassigned && PointsAt(env, op, {})
  {
    var before := FirstStepOf(env, env.placements, p);
    var op := AssignEmits(env, before, p);
    FirstIsKept(env);
    Planned(env, FirstStep(env, before, p).operations, FirstPass(env, env.placements).operations, op);
  }

  ghost predicate OnlyReleases(plan: Plan) {
    forall i :: 0 <= i < |plan.operations| ==> plan.operations[i].action == ReleaseOwnership && plan.operations[i].target == None
  }

  /** Without a usable worker nothing is assigned or hinted, only released without a target. */
  lemma NobodyToHintAt(env: Env)
    requires !SomeFree(env.workers, {})
    ensures OnlyReleases(BuildPlan(env))
  {
    PlanIsSound(env);
    var plan := BuildPlan(env);
    forall i | 0 <= i < |plan.operations|
      ensures plan.operations[i].action == ReleaseOwnership && plan.operations[i].target == None
    {
      assert Sound(env, plan.operations[i], plan.picked[i]);
      var p :| p in env.placements && Warranted(env, p, plan.operations[i]) && WellAimed(env, p, plan.operations[i], plan.picked[i]);
      if plan.operations[i].target.Some? {
        assert Aimed(env, plan.operations[i], plan.picked[i].value);
        var w :| w in env.workers && w.health == Healthy && w.state != Stopping && Reference(w) == plan.picked[i].value;
        assert Free(w, {});
      }
    }
  }

  /** Without a preference, a workspace without an owner is assigned exactly if there is a usable worker. */
  lemma AssignedIff(env: Env, p: Fleet.Placement)
    requires DistinctIds(env.placements) && p in env.placements && AlwaysChooses(env.choose)
    requires p.state != Evicted && (p.worker.None? || p.state == Unassigned) && p.preferred == None
    ensures (exists op :: OnlyOperation(BuildPlan(env), p.workspaceId, op) && op.kind == AssignUnassigned && PointsAt(env, op, {}))
       <==> SomeFree(env.workers, {})
  {
    if SomeFree(env.workers, {}) {
      Assigned(env, p);
    } else {
      NobodyToHintAt(env);
    }
  }

  // ---- late owners -----------------------------------------------------------------------------------------------------------

  lemma LateEmits(env: Env, plan: Plan, p: Fleet.Placement) returns (op: Operation)
    requires AlwaysChooses(env.choose) && p.state == Active && LateOwned(env, p)
    requires SomeFree(env.workers, {p.worker.value}) && Unpreferred(p, env.workers, {p.worker.value})
    ensures op in FirstStep(env, plan, p).operations && op.workspaceId == p.workspaceId
    ensures op.kind == ReassignLateOwner && PointsAt(env, op, {p.worker.value})
  {
    var owner := p.worker.value;
    var i :| LastEntry(env.workers, owner, i) && env.workers[i].health == Late && env.workers[i].state != Stopping;
    LastEntryFound(env.workers, owner, i);
    SelectedIsNew(env, plan, p, {owner}, p.owner.None?);
    var t := SelectTarget(env, plan, p, {owner}, p.owner.None?);
    op := Hint(ReassignLateOwner, p, t.value);
    assert OwnedOperation(env, p, owner, t) == Some(op);
    assert FirstStep(env, plan, p) == Emit(plan, op, t, true);
  }

  /** An active workspace of a late owner is hinted to another worker by its only operation. */
  lemma LateIsHinted(env: Env, p: Fleet.Placement)
    requires DistinctIds(env.placements) && p in env.placements && AlwaysChooses(env.choose)
    requires p.state == Active && LateOwned(env, p)
    requires SomeFree(env.workers, {p.worker.value}) && Unpreferred(p, env.workers, {p.worker.value})
    ensures exists op :: OnlyOperation(BuildPlan(env), p.workspaceId, op) && op.kind == ReassignLateOwner && PointsAt(env, op, {p.worker.value})
  {
    var before := FirstStepOf(env, env.placements, p);
    var op := LateEmits(env, before, p);
    FirstIsKept(env);
    Planned(env, FirstStep(env, before, p).operations, FirstPass(env, env.placements).operations, op);
  }

  // ---- spread owners -----------------------------------------------------------------------------------------------------------

  predicate OwnedAt(p: Fleet.Placement, owner: string, worker: string) {
    p.state != Evicted && p.state != Unassigned && p.owner == Some(owner) && p.worker == Some(worker)
  }

  /** The owner has workspaces on two workers. */
  ghost predicate Spread(ps: seq<Fleet.Placement>, owner: string) {
    exists v, w :: v != w && Resident(ps, owner, v) && Resident(ps, owner, w)
  }

  ghost predicate Resident(ps: seq<Fleet.Placement>, owner: string, worker: string) {
    exists p :: p in ps && OwnedAt(p, owner, worker)
  }

  lemma SpreadIff(env: Env, owner: string)
    ensures |OwnerWorkers(env, owner)| > 1 <==> Spread(env.placements, owner)
  {
    var ws := OwnerWorkers(env, owner);
    forall w ensures w in ws <==> Resident(env.placements, owner, w) {
      ResidentIff(env, owner, w);
    }
    if |ws| > 1 {
      var v :| v in ws;
      assert |ws - {v}| > 0;
      var w :| w in ws - {v};
      assert v != w && Resident(env.placements, owner, v) && Resident(env.placements, owner, w);
    }
    if Spread(env.placements, owner) {
      var v, w :| v != w && Resident(env.placements, owner, v) && Resident(env.placements, owner, w);
      assert {v, w} <= ws;
      MoreThanOne(v, w, ws);
    }
  }

  lemma MoreThanOne(v: string, w: string, ws: set<string>)
    requires v != w && {v, w} <= ws
    ensures |ws| > 1
  {
    assert w in ws - {v};
    assert |ws| == |ws - {v}| + 1;
  }

  lemma ResidentIff(env: Env, owner: string, w: string)
    ensures w in OwnerWorkers(env, owner) <==> Resident(env.placements, owner, w)
  {
    if Resident(env.placements, owner, w) {
      var p :| p in env.placements && OwnedAt(p, owner, w);
      assert p in Tracked(env.placements);
    }
  }

  /** Whatever is scheduled, the worker chosen among all usable ones is neither the workspace's own nor its
      preferred one. */
  ghost predicate ChosenElsewhere(env: Env, p: Fleet.Placement) {
    forall loads, scheduled, w | w in env.workers && Usable(w) ::
      (env.choose(p, Candidates(env.workers, {}), false, loads, scheduled) == Some(w.workerId) ==>
        (p.worker != Some(Reference(w)) && p.preferred != Some(Reference(w)) && p.preferred != Some(w.workerId)))
  }

  lemma ElsewhereSelected(env: Env, plan: Plan, p: Fleet.Placement)
    requires AlwaysChooses(env.choose) && SomeFree(env.workers, {}) && ChosenElsewhere(env, p)
    ensures var t := SelectTarget(env, plan, p, {}, false);
      && t.Some? && p.worker != Some(t.value.reference) && !Preferred(p, t.value)
      && exists w :: w in env.workers && Free(w, {}) && t.value.reference == Reference(w)
  {
    FreeIsSelected(env, plan, p, {}, false);
    SelectedIsEligible(env, plan, p, {}, false);
    var t := SelectTarget(env, plan, p, {}, false).value;
    assert env.choose(p, Candidates(env.workers, {}), false, RefLoads(Tracked(env.placements)), plan.loads) == Some(t.workerId);
  }

  ghost predicate Consolidates(env: Env, p: Fleet.Placement, op: Operation) {
    op.kind == ConsolidateOwnerAffinity && PointsAt(env, op, {}) && op.target != p.worker
  }

  lemma SpreadEmits(env: Env, plan: Plan, p: Fleet.Placement) returns (op: Operation)
    requires AlwaysChooses(env.choose) && SomeFree(env.workers, {}) && ChosenElsewhere(env, p)
    requires p.state == Idle && p.owner.Some? && Spread(env.placements, p.owner.value) && p.workspaceId !in plan.scheduled
    ensures op in SecondStep(env, plan, p).operations && op.workspaceId == p.workspaceId
    ensures Consolidates(env, p, op)
  {
    SpreadIff(env, p.owner.value);
    ElsewhereSelected(env, plan, p);
    var t := SelectTarget(env, plan, p, {}, false);
    op := Hint(ConsolidateOwnerAffinity, p, t.value);
    assert SecondStep(env, plan, p) == Emit(plan, op, t, true);
  }

  /** An idle workspace of an owner spread over several workers is hinted to where the ranking wants it, by its
      only operation. */
  lemma SpreadIsConsolidated(env: Env, p: Fleet.Placement)
    requires DistinctIds(env.placements) && p in env.placements && AlwaysChooses(env.choose)
    requires p.state == Idle && WellOwned(env, p) && p.owner.Some? && Spread(env.placements, p.owner.value)
    requires SomeFree(env.workers, {}) && ChosenElsewhere(env, p)
    ensures exists op :: OnlyOperation(BuildPlan(env), p.workspaceId, op) && Consolidates(env, p, op)
  {
    var first, tracked := FirstPass(env, env.placements), Tracked(env.placements);
    TrackedDistinct(env.placements);
    FirstPassSkips(env, env.placements, p);
    var before := SecondStepOf(env, first, tracked, p);
    var op := SpreadEmits(env, before, p);
    FirstIsKept(env);
    Planned(env, SecondStep(env, before, p).operations, SecondPass(env, first, tracked).operations, op);
  }

  // ---- overloaded workers --------------------------------------------------------------------------------------------------------

  /** The references the workspaces put on a worker: their counts, one for an unknown count, none for a negative one. */
  function LoadOn(ps: seq<Fleet.Placement>, worker: string): int {
    if ps == [] then 0
    else
      var p := ps[|ps| - 1];
      LoadOn(ps[..|ps| - 1], worker) +
      (if p.state == Evicted || p.state == Unassigned || p.worker != Some(worker) then 0
       else match p.refCount case None => 1 case Some(n) => if n < 0 then 0 else n)
  }

  lemma LoadGrows(tracked: seq<Fleet.Placement>, p: Fleet.Placement, worker: string)
    requires p.state != Evicted
    ensures Get(RefLoads(tracked + [p]), worker) == Get(RefLoads(tracked), worker) + LoadOn([p], worker)
  {
    assert (tracked + [p])[..|tracked|] == tracked;
  }

  lemma LoadsSnoc(ps: seq<Fleet.Placement>, p: Fleet.Placement, worker: string)
    requires Get(RefLoads(Tracked(ps)), worker) == LoadOn(ps, worker)
    ensures Get(RefLoads(Tracked(ps + [p])), worker) == LoadOn(ps + [p], worker)
  {
    assert (ps + [p])[..|ps|] == ps;
    assert LoadOn(ps + [p], worker) == LoadOn(ps, worker) + LoadOn([p], worker);
    if p.state != Evicted {
      LoadGrows(Tracked(ps), p, worker);
    }
  }

  lemma NoLoads(worker: string)
    ensures Get(RefLoads(Tracked([])), worker) == LoadOn([], worker)
  {
  }

  lemma {:induction false} LoadsAre(ps: seq<Fleet.Placement>, worker: string)
    ensures Get(RefLoads(Tracked(ps)), worker) == LoadOn(ps, worker)
    decreases |ps|
  {
    if ps == [] {
      NoLoads(worker);
    } else {
      var init, last := ps[..|ps| - 1], ps[|ps| - 1];
      assert init + [last] == ps;
      LoadsAre(init, worker);
      LoadsSnoc(init, last, worker);
    }
  }

  lemma OverloadedIff(env: Env, worker: string)
    ensures worker in Overloaded(env) <==> LoadOn(env.placements, worker) > env.capacity
  {
    LoadsAre(env.placements, worker);
  }

  /** A usable worker other than this one and not over capacity, by whichever name. */
  ghost predicate HasRoom(env: Env, w: Worker, other: string) {
    && Usable(w) && w.workerId != other && Reference(w) != other
    && LoadOn(env.placements, w.workerId) <= env.capacity && LoadOn(env.placements, Reference(w)) <= env.capacity
  }

  lemma RoomIsFree(env: Env, w: Worker, other: string)
    ensures HasRoom(env, w, other) <==> Free(w, Overloaded(env) + {other})
  {
    OverloadedIff(env, w.workerId);
    OverloadedIff(env, Reference(w));
  }

  lemma SecondPassSkips(env: Env, plan: Plan, ps: seq<Fleet.Placement>, p: Fleet.Placement)
    requires KnownById(ps, p) && (p.owner.None? || !Spread(env.placements, p.owner.value))
    requires p.workspaceId !in plan.scheduled
    ensures p.workspaceId !in SecondPass(env, plan, ps).scheduled
    decreases |ps|
  {
    if ps != [] {
      var init, last := ps[..|ps| - 1], ps[|ps| - 1];
      assert ps == init + [last];
      SecondPassSkips(env, plan, init, p);
      if last == p {
        if p.owner.Some? { SpreadIff(env, p.owner.value); }
      } else {
        assert last in ps;
        LaterStepsAtMostOne(env, SecondPass(env, plan, init), last);
      }
    }
  }

  ghost predicate SomeRoom(env: Env, other: string) {
    exists w :: w in env.workers && HasRoom(env, w, other)
  }

  /** The preference is none of the workers with room. */
  ghost predicate RoomUnpreferred(env: Env, p: Fleet.Placement, other: string) {
    forall w :: w in env.workers && HasRoom(env, w, other) ==> p.preferred != Some(Reference(w)) && p.preferred != Some(w.workerId)
  }

  ghost predicate PointsAtRoom(env: Env, op: Operation, other: string) {
    op.action == SetPreferredWorker && exists w :: w in env.workers && HasRoom(env, w, other) && op.target == Some(Reference(w))
  }

  lemma OverloadEmits(env: Env, plan: Plan, p: Fleet.Placement) returns (op: Operation)
    requires AlwaysChooses(env.choose) && p.state == Idle && p.worker.Some? && p.workspaceId !in plan.scheduled
    requires LoadOn(env.placements, p.worker.value) > env.capacity
    requires SomeRoom(env, p.worker.value) && RoomUnpreferred(env, p, p.worker.value)
    ensures op in ThirdStep(env, plan, p).operations && op.workspaceId == p.workspaceId
    ensures op.kind == RebalanceCapacity && PointsAtRoom(env, op, p.worker.value)
  {
    var names := Overloaded(env) + {p.worker.value};
    forall w ensures HasRoom(env, w, p.worker.value) <==> Free(w, names) {
      RoomIsFree(env, w, p.worker.value);
    }
    OverloadedIff(env, p.worker.value);
    SelectedIsNew(env, plan, p, names, true);
    var t := SelectTarget(env, plan, p, names, true);
    op := Hint(RebalanceCapacity, p, t.value);
    assert ThirdStep(env, plan, p) == Emit(plan, op, t, false);
  }

  /** An idle workspace on a worker over capacity, whose owner is not spread, is hinted to a worker with room, by
      its only operation. */
  lemma OverloadIsRebalanced(env: Env, p: Fleet.Placement)
    requires DistinctIds(env.placements) && p in env.placements && AlwaysChooses(env.choose)
    requires p.state == Idle && WellOwned(env, p) && (p.owner.None? || !Spread(env.placements, p.owner.value))
    requires LoadOn(env.placements, p.worker.value) > env.capacity
    requires SomeRoom(env, p.worker.value) && RoomUnpreferred(env, p, p.worker.value)
    ensures exists op :: OnlyOperation(BuildPlan(env), p.workspaceId, op) && op.kind == RebalanceCapacity && PointsAtRoom(env, op, p.worker.value)
  {
    var first, tracked := FirstPass(env, env.placements), Tracked(env.placements);
    FirstPassSkips(env, env.placements, p);
    SecondPassSkips(env, first, tracked, p);
    var second := SecondPass(env, first, tracked);
    var before := ThirdStepOf(env, second, tracked, p);
    var op := OverloadEmits(env, before, p);
    Planned(env, ThirdStep(env, before, p).operations, BuildPlan(env).operations, op);
  }
}
