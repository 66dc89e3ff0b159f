/** Workspaces and workers as the controller sees them (controller-placement.ts). */
module Fleet {
  import opened Options

  datatype PlacementState = Active | Idle | Draining | Evicted | Unassigned

  /** `owner` is the trimmed owner id, `worker` the placement reference of the owning worker; empty
      strings read as absent. */
  datatype Placement = Placement(
    workspaceId: string,
    owner: Option<string>,
    worker: Option<string>,
    preferred: Option<string>,
    state: PlacementState,
    refCount: Option<int>)

  datatype Health = Healthy | Late

  datatype WorkerState = Starting | Waiting | Busy | Stopping

  datatype Worker = Worker(workerId: string, runtimeInstanceId: Option<string>, health: Health, state: WorkerState)

  /** `workerPlacementReference`. */
  function Reference(w: Worker): string {
    if w.runtimeInstanceId.Some? then w.runtimeInstanceId.value else w.workerId
  }

  /** `workspacePlacementLoad`. */
  function PlacementLoad(p: Placement): nat {
    if p.state == Evicted || p.state == Unassigned then 0
    else if p.refCount.Some? then (if p.refCount.value > 0 then p.refCount.value else 0)
    else 1
  }

  /** The worker that counts as the owner of the workspace. */
  function OwnerOf(p: Placement): Option<string> {
    if p.state == Unassigned then None else p.worker
  }

  function Tracked(ps: seq<Placement>): (r: seq<Placement>)
    ensures forall p :: p in r <==> p in ps && p.state != Evicted
  {
    if ps == [] then []
    else
      var init := Tracked(ps[..|ps| - 1]);
      var last := ps[|ps| - 1];
      assert ps == ps[..|ps| - 1] + [last];
      if last.state == Evicted then init else init + [last]
  }

  function Get(m: map<string, nat>, key: string): nat {
    if key in m then m[key] else 0
  }

  /** The load on each worker reference. */
  function RefLoads(ps: seq<Placement>): map<string, nat> {
    if ps == [] then map[]
    else
      var loads := RefLoads(ps[..|ps| - 1]);
      var p := ps[|ps| - 1];
      match OwnerOf(p)
      case None => loads
      case Some(w) => loads[w := Get(loads, w) + PlacementLoad(p)]
  }

  /** The loop that fills `workerRefLoads`. */
  method CountLoads(ps: seq<Placement>) returns (loads: map<string, nat>)
    ensures loads == RefLoads(ps)
  {
    loads := map[];
    var i := 0;
    while i < |ps|
      invariant 0 <= i <= |ps|
      invariant loads == RefLoads(ps[..i])
    {
      var p := ps[i];
      assert ps[..i + 1][..i] == ps[..i];
      if p.worker.Some? && p.state != Unassigned {
        loads := loads[p.worker.value := Get(loads, p.worker.value) + PlacementLoad(p)];
      }
      i := i + 1;
    }
    assert ps[..i] == ps;
  }
}
