/** The placement plan (`buildPlacementExecutionOperations`): three passes over the workspaces that
    share the set of handled workspaces and the loads already scheduled. */
module Placement {
  import opened Options
  import opened Orders
  import opened Fleet

  datatype Kind = AssignUnassigned | RecoverMissingOwner | FinishDrainingOwner | ReassignLateOwner | ConsolidateOwnerAffinity | RebalanceCapacity

  datatype Action = SetPreferredWorker | ReleaseOwnership

  datatype Operation = Operation(kind: Kind, workspaceId: string, ownerWorker: Option<string>, state: PlacementState, action: Action, target: Option<string>)

  /** The scoring and ranking of candidates: it names the worker to take, if any. */
  type Chooser = (Placement, seq<Worker>, bool, map<string, nat>, map<string, nat>) -> Option<string>

  datatype Env = Env(workers: seq<Worker>, placements: seq<Placement>, capacity: nat, choose: Chooser)

  datatype Target = Target(workerId: string, reference: string)

  /** `operations`, `scheduledWorkspaceIds`, `scheduledWorkerLoads`. `picked` records, beside each
      operation, the reference of the worker selected for it. */
  datatype Plan = Plan(operations: seq<Operation>, picked: seq<Option<string>>, scheduled: set<string>, loads: map<string, nat>)

  // ---- lookups ------------------------------------------------------------------------------------------------

  /** The last worker with this reference: later entries overwrite earlier ones in the lookup maps. */
  function LastWorker(workers: seq<Worker>, reference: string): (r: Option<Worker>)
    ensures r.Some? ==> r.value in workers && Reference(r.value) == reference
    ensures r.None? <==> forall w :: w in workers ==> Reference(w) != reference
  {
    if workers == [] then None
    else
      var last := workers[|workers| - 1];
      assert workers == workers[..|workers| - 1] + [last];
      if Reference(last) == reference then Some(last) else LastWorker(workers[..|workers| - 1], reference)
  }

  function Candidates(workers: seq<Worker>, excluded: set<string>): (r: seq<Worker>)
    ensures forall w :: w in r <==> w in workers && w.health == Healthy && w.state != Stopping && w.workerId !in excluded && Reference(w) !in excluded
  {
    if workers == [] then []
    else
      var w := workers[0];
      var rest := Candidates(workers[1..], excluded);
      if w.health == Healthy && w.state != Stopping && w.workerId !in excluded && Reference(w) !in excluded then [w] + rest else rest
  }

  function FindWorker(workers: seq<Worker>, workerId: string): (r: Option<Worker>)
    ensures r.Some? ==> r.value in workers && r.value.workerId == workerId
  {
    if workers == [] then None
    else if workers[0].workerId == workerId then Some(workers[0])
    else FindWorker(workers[1..], workerId)
  }

  /** `selectTargetWorker`. */
  function SelectTarget(env: Env, plan: Plan, p: Placement, excluded: set<string>, loadAware: bool): Option<Target> {
    var candidates := Candidates(env.workers, excluded);
    if candidates == [] then None
    else
      match env.choose(p, candidates, loadAware, RefLoads(Tracked(env.placements)), plan.loads)
      case None => None
      case Some(id) =>
        match FindWorker(candidates, id)
        case None => None
        case Some(w) => Some(Target(id, Reference(w)))
  }

  function Overloaded(env: Env): set<string> {
    var loads := RefLoads(Tracked(env.placements));
    set r | r in loads && loads[r] > env.capacity
  }

  /** The workers that own something of this owner. */
  function OwnerWorkers(env: Env, owner: string): set<string> {
    set p | p in Tracked(env.placements) && p.owner == Some(owner) && OwnerOf(p).Some? :: p.worker.value
  }

  // ---- one workspace at a time -------------------------------------------------------------------------------------

  function Emit(plan: Plan, op: Operation, target: Option<Target>, handled: bool): Plan {
    Plan(plan.operations + [op],
         plan.picked + [match target case None => None case Some(t) => Some(t.reference)],
         if handled then plan.scheduled + {op.workspaceId} else plan.scheduled,
         match target case None => plan.loads case Some(t) => plan.loads[t.reference := Get(plan.loads, t.reference) + 1])
  }

  predicate Preferred(p: Placement, t: Target) {
    p.preferred == Some(t.reference) || p.preferred == Some(t.workerId)
  }

  function IdOf(t: Option<Target>): Option<string> {
    match t case None => None case Some(x) => Some(x.workerId)
  }

  function Release(kind: Kind, p: Placement, t: Option<Target>): Operation {
    Operation(kind, p.workspaceId, p.worker, p.state, ReleaseOwnership, IdOf(t))
  }

  function Hint(kind: Kind, p: Placement, t: Target): Operation {
    Operation(kind, p.workspaceId, p.worker, p.state, SetPreferredWorker, Some(t.reference))
  }

  /** What the first pass does for a workspace whose owner counts. */
  function OwnedOperation(env: Env, p: Placement, owner: string, t: Option<Target>): Option<Operation> {
    match LastWorker(env.workers, owner)
    case None => Some(Release(RecoverMissingOwner, p, t))
    case Some(w) =>
      if p.state == Draining || w.state == Stopping then Some(Release(FinishDrainingOwner, p, t))
      else if w.health == Late then
        if p.state == Active then
          if t.Some? && !Preferred(p, t.value) then Some(Hint(ReassignLateOwner, p, t.value)) else None
        else Some(Release(ReassignLateOwner, p, t))
      else None
  }

  function AssignStep(env: Env, plan: Plan, p: Placement): Plan {
    var t := SelectTarget(env, plan, p, {}, p.owner.None?);
    if t.Some? && !Preferred(p, t.value)
    then Emit(plan, Operation(AssignUnassigned, p.workspaceId, None, p.state, SetPreferredWorker, Some(t.value.reference)), t, true)
    else plan
  }

  function FirstStep(env: Env, plan: Plan, p: Placement): Plan {
    if p.state == Evicted then plan
    else
      match OwnerOf(p)
      case None => AssignStep(env, plan, p)
      case Some(owner) =>
        var t := SelectTarget(env, plan, p, {owner}, p.owner.None?);
        match OwnedOperation(env, p, owner, t)
        case None => plan
        case Some(op) => Emit(plan, op, t, true)
  }

  function SecondStep(env: Env, plan: Plan, p: Placement): Plan {
    if p.workspaceId in plan.scheduled || p.owner.None? || |OwnerWorkers(env, p.owner.value)| <= 1 || (p.state != Idle && p.state != Unassigned) then plan
    else
      var t := SelectTarget(env, plan, p, {}, false);
      if t.None? || p.worker == Some(t.value.reference) || Preferred(p, t.value) then plan
      else Emit(plan, Hint(ConsolidateOwnerAffinity, p, t.value), t, true)
  }

  function ThirdStep(env: Env, plan: Plan, p: Placement): Plan {
    if p.workspaceId in plan.scheduled || p.worker.None? || p.worker.value !in Overloaded(env) || p.state != Idle then plan
    else
      var t := SelectTarget(env, plan, p, Overloaded(env) + {p.worker.value}, true);
      if t.None? || Preferred(p, t.value) then plan
      else Emit(plan, Hint(RebalanceCapacity, p, t.value), t, false)
  }

  function FirstPass(env: Env, ps: seq<Placement>): Plan {
    if ps == [] then Plan([], [], {}, map[])
    else FirstStep(env, FirstPass(env, ps[..|ps| - 1]), ps[|ps| - 1])
  }

  function SecondPass(env: Env, plan: Plan, ps: seq<Placement>): Plan {
    if ps == [] then plan
    else SecondStep(env, SecondPass(env, plan, ps[..|ps| - 1]), ps[|ps| - 1])
  }

  function ThirdPass(env: Env, plan: Plan, ps: seq<Placement>): Plan {
    if ps == [] then plan
    else ThirdStep(env, ThirdPass(env, plan, ps[..|ps| - 1]), ps[|ps| - 1])
  }

  function BuildPlan(env: Env): Plan {
    var tracked := Tracked(env.placements);
    ThirdPass(env, SecondPass(env, FirstPass(env, env.placements), tracked), tracked)
  }

  // ---- the planner -----------------------------------------------------------------------------------------------------

  ghost predicate CountsOwners(env: Env, affinity: map<string, set<string>>) {
    forall o :: (if o in affinity then affinity[o] else {}) == OwnerWorkers(env, o)
  }

  /** The loop that fills `ownerAffinityWorkers`. */
  method CountOwnerWorkers(env: Env) returns (affinity: map<string, set<string>>)
    ensures CountsOwners(env, affinity)
  {
    var tracked := Tracked(env.placements);
    affinity := map[];
    var i := 0;
    while i < |tracked|
      invariant 0 <= i <= |tracked|
      invariant forall o :: (if o in affinity then affinity[o] else {}) == OwnerWorkersIn(tracked[..i], o)
    {
      var p := tracked[i];
      ghost var before := affinity;
      if p.owner.Some? && p.worker.Some? && p.state != Unassigned {
        var workers := if p.owner.value in affinity then affinity[p.owner.value] else {};
        affinity := affinity[p.owner.value := workers + {p.worker.value}];
      }
      forall o ensures (if o in affinity then affinity[o] else {}) == OwnerWorkersIn(tracked[..i + 1], o) {
        OwnerWorkersSnoc(tracked, i, o);
      }
      i := i + 1;
    }
    assert tracked[..i] == tracked;
  }

  function OwnerWorkersIn(ps: seq<Placement>, owner: string): set<string> {
    set p | p in ps && p.owner == Some(owner) && OwnerOf(p).Some? :: p.worker.value
  }

  lemma OwnerWorkersSnoc(ps: seq<Placement>, i: nat, o: string)
    requires i < |ps|
    ensures OwnerWorkersIn(ps[..i + 1], o)
         == OwnerWorkersIn(ps[..i], o) + if ps[i].owner == Some(o) && OwnerOf(ps[i]).Some? then {ps[i].worker.value} else {}
  {
    assert ps[..i + 1] == ps[..i] + [ps[i]];
  }

  method RunFirstPass(env: Env) returns (plan: Plan)
    ensures plan == FirstPass(env, env.placements)
  {
    plan := Plan([], [], {}, map[]);
    var i := 0;
    while i < |env.placements|
      invariant 0 <= i <= |env.placements|
      invariant plan == FirstPass(env, env.placements[..i])
    {
      assert env.placements[..i + 1][..i] == env.placements[..i];
      plan := Examine(env, plan, env.placements[i]);
      i := i + 1;
    }
    assert env.placements[..i] == env.placements;
  }

  /** The body of the first loop. */
  method Examine(env: Env, plan0: Plan, p: Placement) returns (plan: Plan)
    ensures plan == FirstStep(env, plan0, p)
  {
    plan := plan0;
    if p.state == Evicted {
      return;
    }
    if p.worker.None? || p.state == Unassigned {
      var target := SelectTarget(env, plan, p, {}, p.owner.None?);
      if target.Some? && !Preferred(p, target.value) {
        var op := Operation(AssignUnassigned, p.workspaceId, None, p.state, SetPreferredWorker, Some(target.value.reference));
        plan := Emit(plan, op, target, true);
      }
      return;
    }
    var owner := p.worker.value;
    var worker := LastWorker(env.workers, owner);
    var target := SelectTarget(env, plan, p, {owner}, p.owner.None?);
    if worker.None? {
      plan := Emit(plan, Release(RecoverMissingOwner, p, target), target, true);
    } else if p.state == Draining || worker.value.state == Stopping {
      plan := Emit(plan, Release(FinishDrainingOwner, p, target), target, true);
    } else if worker.value.health == Late {
      if p.state == Active {
        if target.Some? && !Preferred(p, target.value) {
          plan := Emit(plan, Hint(ReassignLateOwner, p, target.value), target, true);
        }
      } else {
        plan := Emit(plan, Release(ReassignLateOwner, p, target), target, true);
      }
    }
  }

  method RunSecondPass(env: Env, plan0: Plan) returns (plan: Plan)
    ensures plan == SecondPass(env, plan0, Tracked(env.placements))
  {
    var affinity := CountOwnerWorkers(env);
    var tracked := Tracked(env.placements);
    plan := plan0;
    var i := 0;
    while i < |tracked|
      invariant 0 <= i <= |tracked|
      invariant plan == SecondPass(env, plan0, tracked[..i])
    {
      assert tracked[..i + 1][..i] == tracked[..i];
      plan := Consolidate(env, plan, affinity, tracked[i]);
      i := i + 1;
    }
    assert tracked[..i] == tracked;
  }

  /** The body of the second loop. */
  method Consolidate(env: Env, plan0: Plan, affinity: map<string, set<string>>, p: Placement) returns (plan: Plan)
    requires CountsOwners(env, affinity)
    ensures plan == SecondStep(env, plan0, p)
  {
    plan := plan0;
    if p.workspaceId !in plan.scheduled && p.owner.Some? && |if p.owner.value in affinity then affinity[p.owner.value] else {}| > 1 &&
       (p.state == Idle || p.state == Unassigned)
    {
      var target := SelectTarget(env, plan, p, {}, false);
      if target.Some? && p.worker != Some(target.value.reference) && !Preferred(p, target.value) {
        plan := Emit(plan, Hint(ConsolidateOwnerAffinity, p, target.value), target, true);
      }
    }
  }

  method RunThirdPass(env: Env, plan0: Plan) returns (plan: Plan)
    ensures plan == ThirdPass(env, plan0, Tracked(env.placements))
  {
    var tracked := Tracked(env.placements);
    var loads := CountLoads(tracked);
    var overloaded := set r | r in loads && loads[r] > env.capacity;
    plan := plan0;
    var i := 0;
    while i < |tracked|
      invariant 0 <= i <= |tracked|
      invariant plan == ThirdPass(env, plan0, tracked[..i])
    {
      assert tracked[..i + 1][..i] == tracked[..i];
      plan := Rebalance(env, plan, overloaded, tracked[i]);
      i := i + 1;
    }
    assert tracked[..i] == tracked;
  }

  /** The body of the third loop. */
  method Rebalance(env: Env, plan0: Plan, overloaded: set<string>, p: Placement) returns (plan: Plan)
    requires overloaded == Overloaded(env)
    ensures plan == ThirdStep(env, plan0, p)
  {
    plan := plan0;
    if p.workspaceId !in plan.scheduled && p.worker.Some? && p.worker.value in overloaded && p.state == Idle {
      var target := SelectTarget(env, plan, p, overloaded + {p.worker.value}, true);
      if target.Some? && !Preferred(p, target.value) {
        plan := Emit(plan, Hint(RebalanceCapacity, p, target.value), target, false);
      }
    }
  }

  // ---- the order of the operations ----------------------------------------------------------------------------------

  function KindText(kind: Kind): string {
    match kind
    case AssignUnassigned => "assign_unassigned"
    case RecoverMissingOwner => "recover_missing_owner"
    case FinishDrainingOwner => "finish_draining_owner"
    case ReassignLateOwner => "reassign_late_owner"
    case ConsolidateOwnerAffinity => "consolidate_owner_affinity"
    case RebalanceCapacity => "rebalance_workspace_capacity"
  }

  function OperationId(op: Operation): string {
    KindText(op.kind) + ":" + op.workspaceId
  }

  /** The operations with this id, in their order. */
  function WithId(ops: seq<Operation>, id: string): seq<Operation> {
    if ops == [] then []
    else
      var init := WithId(ops[..|ops| - 1], id);
      if OperationId(ops[|ops| - 1]) == id then init + [ops[|ops| - 1]] else init
  }

  predicate MayPrecede(less: (string, string) -> bool, a: Operation, b: Operation) {
    !less(OperationId(b), OperationId(a))
  }

  ghost predicate OrderedById(less: (string, string) -> bool, ops: seq<Operation>) {
    forall i, j :: 0 <= i < j < |ops| ==> MayPrecede(less, ops[i], ops[j])
  }

  /** In the order of the ids; operations with one id keep their order. */
  ghost predicate StableSortOf(less: (string, string) -> bool, ordered: seq<Operation>, ops: seq<Operation>) {
    OrderedById(less, ordered) && multiset(ordered) == multiset(ops) && forall id :: WithId(ordered, id) == WithId(ops, id)
  }

  lemma {:induction false} WithIdConcat(a: seq<Operation>, b: seq<Operation>, id: string)
    ensures WithId(a + b, id) == WithId(a, id) + WithId(b, id)
    decreases |b|
  {
    if b == [] {
      assert a + b == a;
    } else {
      WithIdConcat(a, b[..|b| - 1], id);
      assert (a + b)[..|a + b| - 1] == a + b[..|b| - 1];
    }
  }

  lemma {:induction false} NoneWithId(ops: seq<Operation>, id: string)
    requires forall k :: 0 <= k < |ops| ==> OperationId(ops[k]) != id
    ensures WithId(ops, id) == []
  {
    if ops != [] {
      NoneWithId(ops[..|ops| - 1], id);
    }
  }

  /** An operation put behind all that are not greater keeps the lists by id. */
  lemma InsertedById(less: (string, string) -> bool, a: seq<Operation>, op: Operation, b: seq<Operation>, id: string)
    requires StrictTotal(less) && AllGreater(less, op, b)
    ensures WithId(a + [op] + b, id) == WithId(a + b + [op], id)
  {
    WithIdConcat(a, b, id);
    WithIdConcat(a + b, [op], id);
    WithIdConcat(a, [op], id);
    WithIdConcat(a + [op], b, id);
    if id == OperationId(op) {
      NoneWithId(b, id);
    } else {
      NoneWithId([op], id);
    }
  }

  /** One insertion of the sort. */
  method InsertById(less: (string, string) -> bool, s: seq<Operation>, op: Operation) returns (r: seq<Operation>)
    requires StrictTotal(less) && OrderedById(less, s)
    ensures StableSortOf(less, r, s + [op])
  {
    var at := |s|;
    while at > 0 && less(OperationId(op), OperationId(s[at - 1]))
      invariant 0 <= at <= |s|
      invariant AllGreater(less, op, s[at..])
    {
      GreaterOneMore(less, op, s, at - 1);
      at := at - 1;
    }
    InsertedAt(less, s, op, at);
    r := s[..at] + [op] + s[at..];
  }

  lemma InsertedAt(less: (string, string) -> bool, s: seq<Operation>, op: Operation, at: nat)
    requires at <= |s| && StrictTotal(less) && OrderedById(less, s) && AllGreater(less, op, s[at..])
    requires at > 0 ==> MayPrecede(less, s[at - 1], op)
    ensures StableSortOf(less, s[..at] + [op] + s[at..], s + [op])
  {
    assert s[..at] + s[at..] == s;
    InsertedIsStable(less, s[..at], op, s[at..]);
  }

  lemma GreaterOneMore(less: (string, string) -> bool, op: Operation, s: seq<Operation>, at: nat)
    requires at < |s| && less(OperationId(op), OperationId(s[at])) && AllGreater(less, op, s[at + 1..])
    ensures AllGreater(less, op, s[at..])
  {
    assert s[at..] == [s[at]] + s[at + 1..];
  }

  ghost predicate AllGreater(less: (string, string) -> bool, op: Operation, ops: seq<Operation>) {
    forall k :: 0 <= k < |ops| ==> less(OperationId(op), OperationId(ops[k]))
  }

  lemma InsertedIsStable(less: (string, string) -> bool, a: seq<Operation>, op: Operation, b: seq<Operation>)
    requires StrictTotal(less) && OrderedById(less, a + b) && AllGreater(less, op, b)
    requires a != [] ==> MayPrecede(less, a[|a| - 1], op)
    ensures StableSortOf(less, a + [op] + b, a + b + [op])
  {
    InsertKeepsOrder(less, a, op, b);
    forall id ensures WithId(a + [op] + b, id) == WithId(a + b + [op], id) {
      InsertedById(less, a, op, b, id);
    }
  }

  ghost predicate AllMayPrecede(less: (string, string) -> bool, a: seq<Operation>, b: seq<Operation>) {
    forall i, j :: 0 <= i < |a| && 0 <= j < |b| ==> MayPrecede(less, a[i], b[j])
  }

  lemma OrderedConcat(less: (string, string) -> bool, a: seq<Operation>, b: seq<Operation>)
    requires OrderedById(less, a) && OrderedById(less, b) && AllMayPrecede(less, a, b)
    ensures OrderedById(less, a + b)
  {
  }

  lemma OrderedParts(less: (string, string) -> bool, a: seq<Operation>, b: seq<Operation>)
    requires OrderedById(less, a + b)
    ensures OrderedById(less, a) && OrderedById(less, b) && AllMayPrecede(less, a, b)
  {
    var s := a + b;
    forall i, j | 0 <= i < j < |a| ensures MayPrecede(less, a[i], a[j]) {
      assert MayPrecede(less, s[i], s[j]);
    }
    forall i, j | 0 <= i < j < |b| ensures MayPrecede(less, b[i], b[j]) {
      assert MayPrecede(less, s[|a| + i], s[|a| + j]);
    }
    forall i, j | 0 <= i < |a| && 0 <= j < |b| ensures MayPrecede(less, a[i], b[j]) {
      assert MayPrecede(less, s[i], s[|a| + j]);
    }
  }

  lemma AllBefore(less: (string, string) -> bool, a: seq<Operation>, op: Operation)
    requires StrictTotal(less) && OrderedById(less, a) && (a != [] ==> MayPrecede(less, a[|a| - 1], op))
    ensures AllMayPrecede(less, a, [op])
  {
    forall i | 0 <= i < |a| ensures MayPrecede(less, a[i], op) {
      assert i < |a| - 1 ==> MayPrecede(less, a[i], a[|a| - 1]);
    }
  }

  lemma InsertKeepsOrder(less: (string, string) -> bool, a: seq<Operation>, op: Operation, b: seq<Operation>)
    requires StrictTotal(less) && OrderedById(less, a + b) && AllGreater(less, op, b)
    requires a != [] ==> MayPrecede(less, a[|a| - 1], op)
    ensures OrderedById(less, a + [op] + b)
  {
    OrderedParts(less, a, b);
    AllBefore(less, a, op);
    OrderedConcat(less, a, [op]);
    assert AllMayPrecede(less, a + [op], b);
    OrderedConcat(less, a + [op], b);
  }

  /** `operations.sort(...)`, which is stable; stands for the built-in sort. */
  method SortById(less: (string, string) -> bool, ops: seq<Operation>) returns (ordered: seq<Operation>)
    requires StrictTotal(less)
    ensures StableSortOf(less, ordered, ops)
  {
    ordered := [];
    var i := 0;
    while i < |ops|
      invariant 0 <= i <= |ops|
      invariant StableSortOf(less, ordered, ops[..i])
    {
      ghost var before := ordered;
      ordered := InsertById(less, ordered, ops[i]);
      SortedOneMore(less, before, ops, i, ordered);
      i := i + 1;
    }
    assert ops[..i] == ops;
  }

  lemma SortedOneMore(less: (string, string) -> bool, before: seq<Operation>, ops: seq<Operation>, i: nat, after: seq<Operation>)
    requires i < |ops| && StableSortOf(less, before, ops[..i]) && StableSortOf(less, after, before + [ops[i]])
    ensures StableSortOf(less, after, ops[..i + 1])
  {
    assert ops[..i + 1] == ops[..i] + [ops[i]];
    forall id ensures WithId(after, id) == WithId(ops[..i + 1], id) {
      WithIdConcat(before, [ops[i]], id);
      WithIdConcat(ops[..i], [ops[i]], id);
    }
  }

  /** The whole plan, in the order of the operation ids. */
  method BuildPlacementOperations(env: Env, less: (string, string) -> bool) returns (operations: seq<Operation>)
    requires StrictTotal(less)
    ensures StableSortOf(less, operations, BuildPlan(env).operations)
  {
    var plan := RunFirstPass(env);
    plan := RunSecondPass(env, plan);
    plan := RunThirdPass(env, plan);
    operations := SortById(less, plan.operations);
  }
}
