/** `runWithConcurrency`: workers that claim items from a shared index, interleaved at their awaits
    (object-storage-sync-utils.ts). */
module WorkerPool {
  import opened Options

  /** What the workers share. */
  class ItemQueue {
    const size: nat
    var nextIndex: nat

    constructor (size: nat)
      ensures this.size == size && nextIndex == 0
    {
      this.size := size;
      nextIndex := 0;
    }

    /** The synchronous head of a worker's loop. */
    method Claim() returns (item: Option<nat>)
      modifies this
      ensures nextIndex == old(nextIndex) + 1
      ensures item == ClaimAt(size, old(nextIndex))
    {
      var index := nextIndex;
      nextIndex := nextIndex + 1;
      if index >= size {
        return None;
      }
      return Some(index);
    }
  }

  function ClaimAt(size: nat, index: nat): Option<nat> {
    if index >= size then None else Some(index)
  }

  // ---- the pool as a state machine ----------------------------------------------------------------------------------

  datatype Slot = Waiting | Running(item: nat) | Finished

  /** `started` and `done` record the items in the order they were started and completed. */
  datatype Pool = Pool(size: nat, nextIndex: nat, slots: seq<Slot>, started: seq<nat>, done: seq<nat>)

  function Limit(size: nat, concurrency: int): nat {
    var least := if size < concurrency then size else concurrency;
    if least > 1 then least else 1
  }

  function Initial(size: nat, concurrency: int): Pool {
    Pool(size, 0, seq(Limit(size, concurrency), _ => Waiting), [], [])
  }

  /** A worker starts, or the item it runs completes; either way it claims the next item. */
  datatype Step = Start(worker: nat) | Complete(worker: nat)

  predicate Enabled(p: Pool, step: Step) {
    match step
    case Start(w) => w < |p.slots| && p.slots[w].Waiting?
    case Complete(w) => w < |p.slots| && p.slots[w].Running?
  }

  function ClaimFor(p: Pool, w: nat): Pool
    requires w < |p.slots|
  {
    match ClaimAt(p.size, p.nextIndex)
    case None => p.(nextIndex := p.nextIndex + 1, slots := p.slots[w := Finished])
    case Some(item) => p.(nextIndex := p.nextIndex + 1, slots := p.slots[w := Running(item)], started := p.started + [item])
  }

  function Take(p: Pool, step: Step): Pool
    requires Enabled(p, step)
  {
    match step
    case Start(w) => ClaimFor(p, w)
    case Complete(w) => ClaimFor(p.(done := p.done + [p.slots[w].item]), w)
  }

  ghost predicate IsRun(p: Pool, steps: seq<Step>)
    decreases |steps|, 0
  {
    steps == [] || (IsRun(p, steps[..|steps| - 1]) && Enabled(After(p, steps[..|steps| - 1]), steps[|steps| - 1]))
  }

  ghost function After(p: Pool, steps: seq<Step>): Pool
    requires IsRun(p, steps)
    decreases |steps|, 1
  {
    if steps == [] then p else Take(After(p, steps[..|steps| - 1]), steps[|steps| - 1])
  }

  // ---- what every run keeps ---------------------------------------------------------------------------------------------

  function Claimed(p: Pool): nat {
    if p.nextIndex < p.size then p.nextIndex else p.size
  }

  ghost predicate IsRunning(p: Pool, item: nat) {
    exists w :: 0 <= w < |p.slots| && p.slots[w] == Running(item)
  }

  ghost predicate Inv(p: Pool) {
    && |p.started| == Claimed(p) && (forall i :: 0 <= i < |p.started| ==> p.started[i] == i)
    && (forall w :: 0 <= w < |p.slots| && p.slots[w].Running? ==> p.slots[w].item < Claimed(p) && p.slots[w].item !in p.done)
    && (forall w, v :: 0 <= w < v < |p.slots| && p.slots[w].Running? && p.slots[v].Running? ==> p.slots[w].item != p.slots[v].item)
    && (forall w :: 0 <= w < |p.slots| && p.slots[w].Finished? ==> p.nextIndex >= p.size)
    && (forall i, j :: 0 <= i < j < |p.done| ==> p.done[i] != p.done[j])
    && (forall item :: item in p.done ==> item < Claimed(p))
    && (forall item :: 0 <= item < Claimed(p) ==> item in p.done || IsRunning(p, item))
  }

  /** Everything but worker `w`, which is between two items. */
  ghost predicate InvBut(p: Pool, w: nat)
    requires w < |p.slots|
  {
    && |p.started| == Claimed(p) && (forall i :: 0 <= i < |p.started| ==> p.started[i] == i)
    && (forall v :: 0 <= v < |p.slots| && v != w && p.slots[v].Running? ==> p.slots[v].item < Claimed(p) && p.slots[v].item !in p.done)
    && (forall u, v :: 0 <= u < v < |p.slots| && u != w && v != w && p.slots[u].Running? && p.slots[v].Running? ==> p.slots[u].item != p.slots[v].item)
    && (forall v :: 0 <= v < |p.slots| && v != w && p.slots[v].Finished? ==> p.nextIndex >= p.size)
    && (forall i, j :: 0 <= i < j < |p.done| ==> p.done[i] != p.done[j])
    && (forall item :: item in p.done ==> item < Claimed(p))
    && (forall item :: 0 <= item < Claimed(p) ==> item in p.done || RunningElsewhere(p, w, item))
  }

  ghost predicate RunningElsewhere(p: Pool, w: nat, item: nat) {
    exists v :: 0 <= v < |p.slots| && v != w && p.slots[v] == Running(item)
  }

  lemma ClaimKeeps(p: Pool, w: nat)
    requires w < |p.slots| && InvBut(p, w)
    ensures Inv(ClaimFor(p, w))
  {
    var q := ClaimFor(p, w);
    forall item | 0 <= item < Claimed(q) ensures item in q.done || IsRunning(q, item) {
      if item < Claimed(p) {
        if item !in p.done {
          var v :| 0 <= v < |p.slots| && v != w && p.slots[v] == Running(item);
          assert q.slots[v] == Running(item);
        }
      } else {
        assert q.slots[w] == Running(item);
      }
    }
  }

  lemma StartOpens(p: Pool, w: nat)
    requires Inv(p) && Enabled(p, Start(w))
    ensures InvBut(p, w)
  {
    forall item | 0 <= item < Claimed(p) && item !in p.done ensures RunningElsewhere(p, w, item) {
      assert IsRunning(p, item);
    }
  }

  lemma CompleteOpens(p: Pool, w: nat)
    requires Inv(p) && Enabled(p, Complete(w))
    ensures InvBut(p.(done := p.done + [p.slots[w].item]), w)
  {
    var q := p.(done := p.done + [p.slots[w].item]);
    forall item | 0 <= item < Claimed(q) && item !in q.done ensures RunningElsewhere(q, w, item) {
      assert item !in p.done && IsRunning(p, item);
    }
  }

  lemma StepKeepsInv(p: Pool, step: Step)
    requires Inv(p) && Enabled(p, step)
    ensures Inv(Take(p, step))
  {
    match step
    case Start(w) => StartOpens(p, w); ClaimKeeps(p, w);
    case Complete(w) => CompleteOpens(p, w); ClaimKeeps(p.(done := p.done + [p.slots[w].item]), w);
  }

  lemma {:induction false} RunKeepsInv(p: Pool, steps: seq<Step>)
    requires Inv(p) && IsRun(p, steps)
    ensures Inv(After(p, steps)) && |After(p, steps).slots| == |p.slots| && After(p, steps).size == p.size
    decreases |steps|
  {
    if steps != [] {
      RunKeepsInv(p, steps[..|steps| - 1]);
      StepKeepsInv(After(p, steps[..|steps| - 1]), steps[|steps| - 1]);
    }
  }

  // ---- theorems -------------------------------------------------------------------------------------------------------------

  function InFlight(p: Pool): set<nat> {
    set w | 0 <= w < |p.slots| && p.slots[w].Running? :: p.slots[w].item
  }

  lemma {:induction false} SlotsBound(slots: seq<Slot>)
    ensures |set w | 0 <= w < |slots| && slots[w].Running? :: slots[w].item| <= |slots|
    decreases |slots|
  {
    if slots != [] {
      var init, last := slots[..|slots| - 1], slots[|slots| - 1];
      SlotsBound(init);
      var all, before := set w | 0 <= w < |slots| && slots[w].Running? :: slots[w].item,
                         set w | 0 <= w < |init| && init[w].Running? :: init[w].item;
      forall x ensures x in all <==> x in before || (last.Running? && x == last.item) {
        if x in before {
          var w :| 0 <= w < |init| && init[w].Running? && init[w].item == x;
          assert slots[w] == init[w];
        }
        if x in all {
          var w :| 0 <= w < |slots| && slots[w].Running? && slots[w].item == x;
          assert w < |init| ==> init[w] == slots[w];
        }
      }
      assert all == before + if last.Running? then {last.item} else {};
    }
  }

  /** In every interleaving: items start in order and once each, never more than the limit are in
      flight, and nothing completes twice. */
  lemma EveryRun(size: nat, concurrency: int, steps: seq<Step>)
    requires size > 0 && IsRun(Initial(size, concurrency), steps)
    ensures var p := After(Initial(size, concurrency), steps);
      && |p.started| <= size && (forall i :: 0 <= i < |p.started| ==> p.started[i] == i)
      && |InFlight(p)| <= Limit(size, concurrency) <= size
      && (forall i, j :: 0 <= i < j < |p.done| ==> p.done[i] != p.done[j])
      && (forall item :: item in p.started <==> item in p.done || item in InFlight(p))
  {
    RunKeepsInv(Initial(size, concurrency), steps);
    var p := After(Initial(size, concurrency), steps);
    SlotsBound(p.slots);
    forall item ensures item in p.started <==> item in p.done || item in InFlight(p) {
      assert item in p.started <==> 0 <= item < Claimed(p) by {
        if 0 <= item < Claimed(p) { assert p.started[item] == item; }
      }
      if 0 <= item < Claimed(p) && item !in p.done { assert IsRunning(p, item); }
    }
  }

  /** The pool returns when every worker has finished: then every item ran and completed exactly once. */
  lemma ReturnsWhenDone(size: nat, concurrency: int, steps: seq<Step>)
    requires size > 0 && IsRun(Initial(size, concurrency), steps)
    requires var p := After(Initial(size, concurrency), steps); forall w :: 0 <= w < |p.slots| ==> p.slots[w].Finished?
    ensures var p := After(Initial(size, concurrency), steps);
      && |p.started| == size
      && (forall item :: 0 <= item < size <==> item in p.done)
      && (forall i, j :: 0 <= i < j < |p.done| ==> p.done[i] != p.done[j])
  {
    RunKeepsInv(Initial(size, concurrency), steps);
    var p := After(Initial(size, concurrency), steps);
    assert p.slots[0].Finished?;
    forall item | 0 <= item < size ensures item in p.done {
      assert item in p.done || IsRunning(p, item);
    }
  }

  /** Until then some worker can move: nothing blocks the pool. */
  lemma NeverStuck(p: Pool)
    requires exists w :: 0 <= w < |p.slots| && !p.slots[w].Finished?
    ensures exists step :: Enabled(p, step)
  {
    var w :| 0 <= w < |p.slots| && !p.slots[w].Finished?;
    assert Enabled(p, if p.slots[w].Waiting? then Start(w) else Complete(w));
  }
}
