/** How many sandboxes the tracked workspaces need (`summarizeSandboxFleet`), and that the count is
    the least possible. */
module Sandboxes {
  import opened Arith
  import opened Options
  import opened Fleet

  datatype SandboxConfig = SandboxConfig(
    maxWorkspacesPerSandbox: nat,
    dedicated: bool,
    managedByController: bool,
    warmEmptyCount: nat,
    minCount: nat,
    maxCount: nat)

  /** The owners of the tracked workspaces, in order; `None` for an ownerless workspace. */
  function Owners(ps: seq<Placement>): (r: seq<Option<string>>)
    ensures |r| == |ps|
  {
    seq(|ps|, i requires 0 <= i < |ps| => ps[i].owner)
  }

  function Members(ws: seq<Option<string>>, g: Option<string>): set<nat> {
    set i: nat | i < |ws| && ws[i] == g
  }

  function Groups(ws: seq<Option<string>>): set<Option<string>> {
    set g | g in ws
  }

  /** Sandboxes one group of `count` workspaces is given. */
  function Need(cfg: SandboxConfig, g: Option<string>, count: nat): nat
    requires cfg.maxWorkspacesPerSandbox > 0
  {
    if g.None? && cfg.dedicated then count else CeilDiv(count, cfg.maxWorkspacesPerSandbox)
  }

  ghost function Pick<T>(xs: set<T>): T
    requires xs != {}
  {
    var x :| x in xs; x
  }

  ghost function TotalNeed(cfg: SandboxConfig, ws: seq<Option<string>>, gs: set<Option<string>>): nat
    requires cfg.maxWorkspacesPerSandbox > 0
  {
    if gs == {} then 0
    else
      var g := Pick(gs);
      Need(cfg, g, |Members(ws, g)|) + TotalNeed(cfg, ws, gs - {g})
  }

  /** The order of summation does not matter. */
  lemma {:induction false} TotalNeedAny(cfg: SandboxConfig, ws: seq<Option<string>>, gs: set<Option<string>>, g: Option<string>)
    requires cfg.maxWorkspacesPerSandbox > 0 && g in gs
    ensures TotalNeed(cfg, ws, gs) == Need(cfg, g, |Members(ws, g)|) + TotalNeed(cfg, ws, gs - {g})
    decreases gs
  {
    var h := Pick(gs);
    if g != h {
      TotalNeedAny(cfg, ws, gs - {h}, g);
      TotalNeedAny(cfg, ws, gs - {g}, h);
      assert gs - {h} - {g} == gs - {g} - {h};
    }
  }

  /** `logicalSandboxes`. */
  ghost function LogicalSandboxes(cfg: SandboxConfig, ws: seq<Option<string>>): nat
    requires cfg.maxWorkspacesPerSandbox > 0
  {
    TotalNeed(cfg, ws, Groups(ws))
  }

  // ---- lawful assignments ------------------------------------------------------------------------------------

  function Holding<L(==)>(a: seq<L>, sandbox: L): set<nat> {
    set i: nat | i < |a| && a[i] == sandbox
  }

  /** Workspace `i` goes to sandbox `a[i]`: nobody is crowded and nobody shares who may not. */
  ghost predicate Lawful<L(!new)>(cfg: SandboxConfig, ws: seq<Option<string>>, a: seq<L>) {
    && |a| == |ws|
    && (forall l :: |Holding(a, l)| <= cfg.maxWorkspacesPerSandbox)
    && (forall i, j :: 0 <= i < |a| && 0 <= j < |a| && a[i] == a[j] ==> ws[i] == ws[j])
    && (cfg.dedicated ==> forall i, j :: 0 <= i < |a| && 0 <= j < |a| && a[i] == a[j] && ws[i].None? ==> i == j)
  }

  function Used<L>(a: seq<L>): set<L> {
    set l | l in a
  }

  function UsedBy<L>(ws: seq<Option<string>>, a: seq<L>, gs: set<Option<string>>): set<L>
    requires |a| == |ws|
  {
    set i | 0 <= i < |a| && ws[i] in gs :: a[i]
  }

  // ---- no assignment uses fewer ---------------------------------------------------------------------------------

  function HoldingAny<L(==)>(a: seq<L>, ls: set<L>): set<nat> {
    set i: nat | i < |a| && a[i] in ls
  }

  lemma {:induction false} CapacityOf<L(!new)>(a: seq<L>, ls: set<L>, k: nat)
    requires forall l :: |Holding(a, l)| <= k
    ensures |HoldingAny(a, ls)| <= Times(|ls|, k)
    decreases ls
  {
    if ls == {} {
      assert HoldingAny(a, ls) == {};
    } else {
      var l := Pick(ls);
      CapacityOf(a, ls - {l}, k);
      assert HoldingAny(a, ls) == HoldingAny(a, ls - {l}) + Holding(a, l);
      assert |HoldingAny(a, ls)| == |HoldingAny(a, ls - {l})| + |Holding(a, l)|;
    }
  }

  lemma CeilIsLeast(count: nat, n: nat, k: nat)
    requires k > 0 && count <= Times(n, k)
    ensures CeilDiv(count, k) <= n
  {
    TimesIsProduct(n, k);
    var q, r := (count + k - 1) / k, (count + k - 1) % k;
    assert count + k - 1 == q * k + r;
    SmallProduct(q - n, k);
    assert (q - n) * k == q * k - n * k;
  }

  lemma SubsetCount<T>(a: set<T>, b: set<T>)
    requires a <= b
    ensures |a| <= |b|
  {
    assert b == a + (b - a);
  }

  /** One group needs at least its share. */
  lemma GroupUses<L(!new)>(cfg: SandboxConfig, ws: seq<Option<string>>, a: seq<L>, g: Option<string>)
    requires cfg.maxWorkspacesPerSandbox > 0 && Lawful(cfg, ws, a)
    ensures Need(cfg, g, |Members(ws, g)|) <= |UsedBy(ws, a, {g})|
  {
    var ls := UsedBy(ws, a, {g});
    if g.None? && cfg.dedicated {
      OnePerSandbox(cfg, ws, a, Members(ws, g));
      assert (set i | i in Members(ws, g) :: a[i]) == ls;
    } else {
      CapacityOf(a, ls, cfg.maxWorkspacesPerSandbox);
      assert Members(ws, g) <= HoldingAny(a, ls);
      SubsetCount(Members(ws, g), HoldingAny(a, ls));
      CeilIsLeast(|Members(ws, g)|, |ls|, cfg.maxWorkspacesPerSandbox);
    }
  }

  lemma {:induction false} OnePerSandbox<L(!new)>(cfg: SandboxConfig, ws: seq<Option<string>>, a: seq<L>, members: set<nat>)
    requires Lawful(cfg, ws, a) && cfg.dedicated
    requires forall i :: i in members ==> i < |a| && ws[i].None?
    ensures |set i | i in members :: a[i]| == |members|
    decreases members
  {
    if members != {} {
      var i := Pick(members);
      OnePerSandbox(cfg, ws, a, members - {i});
      assert (set j | j in members :: a[j]) == (set j | j in members - {i} :: a[j]) + {a[i]};
      assert a[i] !in (set j | j in members - {i} :: a[j]);
    }
  }

  lemma {:induction false} GroupsUse<L(!new)>(cfg: SandboxConfig, ws: seq<Option<string>>, a: seq<L>, gs: set<Option<string>>)
    requires cfg.maxWorkspacesPerSandbox > 0 && Lawful(cfg, ws, a)
    ensures TotalNeed(cfg, ws, gs) <= |UsedBy(ws, a, gs)|
    decreases gs
  {
    if gs != {} {
      var g := Pick(gs);
      GroupsUse(cfg, ws, a, gs - {g});
      GroupUses(cfg, ws, a, g);
      var x, y := UsedBy(ws, a, gs - {g}), UsedBy(ws, a, {g});
      assert UsedBy(ws, a, gs) == x + y;
      assert x !! y;
    }
  }

  /** No lawful assignment uses fewer sandboxes. */
  lemma NoneUsesFewer<L(!new)>(cfg: SandboxConfig, ws: seq<Option<string>>, a: seq<L>)
    requires cfg.maxWorkspacesPerSandbox > 0 && Lawful(cfg, ws, a)
    ensures LogicalSandboxes(cfg, ws) <= |Used(a)|
  {
    GroupsUse(cfg, ws, a, Groups(ws));
    assert UsedBy(ws, a, Groups(ws)) <= Used(a);
    SubsetCount(UsedBy(ws, a, Groups(ws)), Used(a));
  }

  // ---- an assignment that uses exactly so many ----------------------------------------------------------------------

  /** A sandbox of one group. */
  datatype Seat = Seat(group: Option<string>, index: nat)

  /** How many of the first `n` workspaces belong to the group. */
  function Count(ws: seq<Option<string>>, g: Option<string>, n: nat): nat {
    if n == 0 || n > |ws| then 0
    else Count(ws, g, n - 1) + if ws[n - 1] == g then 1 else 0
  }

  function MembersBelow(ws: seq<Option<string>>, g: Option<string>, n: nat): set<nat> {
    set i: nat | i < n && i < |ws| && ws[i] == g
  }

  lemma {:induction false} CountIsMembers(ws: seq<Option<string>>, g: Option<string>, n: nat)
    requires n <= |ws|
    ensures Count(ws, g, n) == |MembersBelow(ws, g, n)|
  {
    if n == 0 {
      assert MembersBelow(ws, g, n) == {};
    } else {
      CountIsMembers(ws, g, n - 1);
      assert MembersBelow(ws, g, n) == MembersBelow(ws, g, n - 1) + if ws[n - 1] == g then {n - 1} else {};
    }
  }

  lemma {:induction false} CountGrows(ws: seq<Option<string>>, g: Option<string>, i: nat, n: nat)
    requires n <= |ws| && i < |ws| && ws[i] == g
    ensures i < n ==> Count(ws, g, i) < Count(ws, g, n)
  {
    if i < n - 1 {
      CountGrows(ws, g, i, n - 1);
    }
  }

  /** Every rank below the size of the group is taken. */
  lemma {:induction false} RankTaken(ws: seq<Option<string>>, g: Option<string>, n: nat, r: nat) returns (i: nat)
    requires n <= |ws| && r < Count(ws, g, n)
    ensures i < n && ws[i] == g && Count(ws, g, i) == r
  {
    if r < Count(ws, g, n - 1) {
      i := RankTaken(ws, g, n - 1, r);
    } else {
      i := n - 1;
    }
  }

  function SeatFor(cfg: SandboxConfig, ws: seq<Option<string>>, i: nat): Seat
    requires cfg.maxWorkspacesPerSandbox > 0 && i < |ws|
  {
    var rank := Count(ws, ws[i], i);
    Seat(ws[i], if ws[i].None? && cfg.dedicated then rank else rank / cfg.maxWorkspacesPerSandbox)
  }

  /** Each group fills one sandbox after the other. */
  function FillInOrder(cfg: SandboxConfig, ws: seq<Option<string>>): (a: seq<Seat>)
    requires cfg.maxWorkspacesPerSandbox > 0
    ensures |a| == |ws|
  {
    seq(|ws|, i requires 0 <= i < |ws| => SeatFor(cfg, ws, i))
  }

  lemma RanksDiffer(ws: seq<Option<string>>, i: nat, j: nat)
    requires i < |ws| && j < |ws| && ws[i] == ws[j] && Count(ws, ws[i], i) == Count(ws, ws[i], j)
    ensures i == j
  {
    CountGrows(ws, ws[i], i, j);
    CountGrows(ws, ws[i], j, i);
  }

  lemma {:induction false} ImageSize(xs: set<nat>, f: nat -> nat)
    requires forall x, y :: x in xs && y in xs && f(x) == f(y) ==> x == y
    ensures |set x | x in xs :: f(x)| == |xs|
    decreases xs
  {
    if xs != {} {
      var x := Pick(xs);
      ImageSize(xs - {x}, f);
      assert (set y | y in xs :: f(y)) == (set y | y in xs - {x} :: f(y)) + {f(x)};
      assert f(x) !in (set y | y in xs - {x} :: f(y));
    }
  }

  function Interval(lo: nat, k: nat): set<nat> {
    if k == 0 then {} else Interval(lo, k - 1) + {lo + k - 1}
  }

  lemma {:induction false} IntervalIs(lo: nat, k: nat)
    ensures |Interval(lo, k)| == k
    ensures forall i :: i in Interval(lo, k) <==> lo <= i < lo + k
  {
    if k > 0 {
      IntervalIs(lo, k - 1);
    }
  }

  /** Workspaces of one group with ranks in a window of size `k` are at most `k`. */
  lemma WindowBound(ws: seq<Option<string>>, g: Option<string>, xs: set<nat>, lo: nat, k: nat)
    requires forall i :: i in xs ==> i < |ws| && ws[i] == g && lo <= Count(ws, g, i) < lo + k
    ensures |xs| <= k
  {
    var rank := (i: nat) => Count(ws, g, i);
    forall x, y | x in xs && y in xs && rank(x) == rank(y) ensures x == y {
      RanksDiffer(ws, x, y);
    }
    ImageSize(xs, rank);
    IntervalIs(lo, k);
    SubsetCount(set x | x in xs :: rank(x), Interval(lo, k));
  }

  lemma DivWindow(r: nat, k: nat)
    requires k > 0
    ensures r / k * k <= r < r / k * k + k
  {
    assert r == r / k * k + r % k;
  }

  lemma SandboxNotCrowded(cfg: SandboxConfig, ws: seq<Option<string>>, l: Seat)
    requires cfg.maxWorkspacesPerSandbox > 0
    ensures |Holding(FillInOrder(cfg, ws), l)| <= cfg.maxWorkspacesPerSandbox
  {
    var k := cfg.maxWorkspacesPerSandbox;
    var xs := Holding(FillInOrder(cfg, ws), l);
    if l.group.None? && cfg.dedicated {
      WindowBound(ws, l.group, xs, l.index, 1);
    } else {
      forall i | i in xs ensures l.index * k <= Count(ws, l.group, i) < l.index * k + k {
        DivWindow(Count(ws, l.group, i), k);
      }
      WindowBound(ws, l.group, xs, l.index * k, k);
    }
  }

  lemma FillIsLawful(cfg: SandboxConfig, ws: seq<Option<string>>)
    requires cfg.maxWorkspacesPerSandbox > 0
    ensures Lawful(cfg, ws, FillInOrder(cfg, ws))
  {
    var a := FillInOrder(cfg, ws);
    forall l ensures |Holding(a, l)| <= cfg.maxWorkspacesPerSandbox {
      SandboxNotCrowded(cfg, ws, l);
    }
    if cfg.dedicated {
      forall i, j | 0 <= i < |a| && 0 <= j < |a| && a[i] == a[j] && ws[i].None? ensures i == j {
        RanksDiffer(ws, i, j);
      }
    }
  }

  function SeatsOf(g: Option<string>, n: nat): set<Seat> {
    set q: nat | q < n :: Seat(g, q)
  }

  lemma {:induction false} SeatsSize(g: Option<string>, n: nat)
    ensures |SeatsOf(g, n)| == n
  {
    if n > 0 {
      SeatsSize(g, n - 1);
      assert SeatsOf(g, n) == SeatsOf(g, n - 1) + {Seat(g, n - 1)};
    } else {
      assert SeatsOf(g, n) == {};
    }
  }

  lemma QuotientBelow(r: nat, c: nat, k: nat)
    requires k > 0
    ensures r < c ==> r / k < CeilDiv(c, k)
  {
    DivWindow(r, k);
    DivWindow(c + k - 1, k);
    var d := r / k - CeilDiv(c, k);
    assert d * k == r / k * k - CeilDiv(c, k) * k;
    SmallProduct(d, k);
  }

  lemma MultipleBelow(r: nat, c: nat, k: nat)
    requires k > 0
    ensures r < CeilDiv(c, k) ==> r * k < c
  {
    DivWindow(c + k - 1, k);
    var d := CeilDiv(c, k) - r;
    assert d * k == CeilDiv(c, k) * k - r * k;
    SmallProduct(d, k);
  }

  lemma CeilBounds(r: nat, c: nat, k: nat)
    requires k > 0
    ensures r < c ==> r / k < CeilDiv(c, k)
    ensures r < CeilDiv(c, k) ==> r * k < c && (r * k) / k == r
  {
    QuotientBelow(r, c, k);
    MultipleBelow(r, c, k);
    DivUnique(r * k, k, r, 0);
  }

  lemma GroupSeats(cfg: SandboxConfig, ws: seq<Option<string>>, g: Option<string>)
    requires cfg.maxWorkspacesPerSandbox > 0
    ensures UsedBy(ws, FillInOrder(cfg, ws), {g}) == SeatsOf(g, Need(cfg, g, |Members(ws, g)|))
  {
    var a, k, c := FillInOrder(cfg, ws), cfg.maxWorkspacesPerSandbox, |Members(ws, g)|;
    CountIsMembers(ws, g, |ws|);
    assert Members(ws, g) == MembersBelow(ws, g, |ws|);
    var n := Need(cfg, g, c);
    forall i | 0 <= i < |a| && ws[i] == g ensures a[i] in SeatsOf(g, n) {
      CountGrows(ws, g, i, |ws|);
      CeilBounds(Count(ws, g, i), c, k);
    }
    forall q: nat | q < n ensures Seat(g, q) in UsedBy(ws, a, {g}) {
      CeilBounds(q, c, k);
      var i := RankTaken(ws, g, |ws|, if g.None? && cfg.dedicated then q else q * k);
      assert a[i] == Seat(g, q);
    }
  }

  lemma {:induction false} FillUses(cfg: SandboxConfig, ws: seq<Option<string>>, gs: set<Option<string>>)
    requires cfg.maxWorkspacesPerSandbox > 0
    ensures |UsedBy(ws, FillInOrder(cfg, ws), gs)| == TotalNeed(cfg, ws, gs)
    decreases gs
  {
    var a := FillInOrder(cfg, ws);
    if gs == {} {
      assert UsedBy(ws, a, gs) == {};
    } else {
      var g := Pick(gs);
      FillUses(cfg, ws, gs - {g});
      GroupSeats(cfg, ws, g);
      SeatsSize(g, Need(cfg, g, |Members(ws, g)|));
      var x, y := UsedBy(ws, a, gs - {g}), UsedBy(ws, a, {g});
      assert UsedBy(ws, a, gs) == x + y;
      assert x !! y;
    }
  }

  /** The count is the optimum: an assignment with exactly so many sandboxes exists. */
  lemma OptimumIsReached(cfg: SandboxConfig, ws: seq<Option<string>>)
    requires cfg.maxWorkspacesPerSandbox > 0
    ensures Lawful(cfg, ws, FillInOrder(cfg, ws)) && |Used(FillInOrder(cfg, ws))| == LogicalSandboxes(cfg, ws)
  {
    FillIsLawful(cfg, ws);
    FillUses(cfg, ws, Groups(ws));
    assert UsedBy(ws, FillInOrder(cfg, ws), Groups(ws)) == Used(FillInOrder(cfg, ws));
  }

  // ---- the summary ------------------------------------------------------------------------------------------------------

  ghost predicate CountsSoFar(ws: seq<Option<string>>, n: nat, counts: map<string, nat>, ownerless: nat) {
    && (forall o :: o in counts ==> counts[o] == Count(ws, Some(o), n) && counts[o] > 0)
    && (forall o :: o !in counts ==> Count(ws, Some(o), n) == 0)
    && ownerless == Count(ws, None, n)
  }

  method CountOwners(ps: seq<Placement>) returns (counts: map<string, nat>, ownerless: nat)
    ensures CountsSoFar(Owners(ps), |ps|, counts, ownerless)
  {
    counts, ownerless := map[], 0;
    var i := 0;
    while i < |ps|
      invariant 0 <= i <= |ps|
      invariant CountsSoFar(Owners(ps), i, counts, ownerless)
    {
      match ps[i].owner {
        case Some(o) => counts := counts[o := Get(counts, o) + 1];
        case None => ownerless := ownerless + 1;
      }
      i := i + 1;
    }
  }

  function Owned(os: set<string>): set<Option<string>> {
    set o | o in os :: Some(o)
  }

  lemma OwnedStep(cfg: SandboxConfig, ws: seq<Option<string>>, todo: set<string>, o: string)
    requires cfg.maxWorkspacesPerSandbox > 0 && o in todo
    ensures TotalNeed(cfg, ws, Owned(todo)) == CeilDiv(|Members(ws, Some(o))|, cfg.maxWorkspacesPerSandbox) + TotalNeed(cfg, ws, Owned(todo - {o}))
  {
    TotalNeedAny(cfg, ws, Owned(todo), Some(o));
    assert Owned(todo) - {Some(o)} == Owned(todo - {o});
  }

  lemma MembersCount(ws: seq<Option<string>>, g: Option<string>)
    ensures |Members(ws, g)| == Count(ws, g, |ws|)
  {
    CountIsMembers(ws, g, |ws|);
    assert Members(ws, g) == MembersBelow(ws, g, |ws|);
  }

  lemma CeilAtLeastOne(c: nat, k: nat)
    requires c > 0 && k > 0
    ensures CeilDiv(c, k) >= 1
  {
    CeilBounds(0, c, k);
  }

  method OwnerScoped(cfg: SandboxConfig, ghost ws: seq<Option<string>>, counts: map<string, nat>) returns (n: nat)
    requires cfg.maxWorkspacesPerSandbox > 0
    requires forall o :: o in counts ==> counts[o] == Count(ws, Some(o), |ws|) && counts[o] > 0
    ensures n == TotalNeed(cfg, ws, Owned(counts.Keys))
  {
    n := 0;
    var todo := counts.Keys;
    while todo != {}
      invariant todo <= counts.Keys
      invariant n + TotalNeed(cfg, ws, Owned(todo)) == TotalNeed(cfg, ws, Owned(counts.Keys))
      decreases todo
    {
      var o :| o in todo;
      OwnedStep(cfg, ws, todo, o);
      MembersCount(ws, Some(o));
      CeilAtLeastOne(counts[o], cfg.maxWorkspacesPerSandbox);
      var share := CeilDiv(counts[o], cfg.maxWorkspacesPerSandbox);
      n := n + if share > 1 then share else 1;
      todo := todo - {o};
    }
    assert Owned({}) == {};
  }

  lemma {:induction false} CountPositive(ws: seq<Option<string>>, g: Option<string>, n: nat)
    requires n <= |ws|
    ensures Count(ws, g, n) > 0 <==> exists i :: 0 <= i < n && ws[i] == g
  {
    if n > 0 {
      CountPositive(ws, g, n - 1);
      assert ws[n - 1] == g ==> exists i :: 0 <= i < n && ws[i] == g;
      if exists i :: 0 <= i < n - 1 && ws[i] == g {
        var i :| 0 <= i < n - 1 && ws[i] == g;
        assert 0 <= i < n;
      }
    }
  }

  lemma GroupsSplit(cfg: SandboxConfig, ws: seq<Option<string>>, counts: map<string, nat>, ownerless: nat)
    requires cfg.maxWorkspacesPerSandbox > 0 && CountsSoFar(ws, |ws|, counts, ownerless)
    ensures LogicalSandboxes(cfg, ws) == TotalNeed(cfg, ws, Owned(counts.Keys)) + if ownerless == 0 then 0 else Need(cfg, None, ownerless)
  {
    forall g ensures g in Groups(ws) <==> g in Owned(counts.Keys) || (g == None && ownerless > 0) {
      CountPositive(ws, g, |ws|);
    }
    MembersCount(ws, None);
    if ownerless == 0 {
      assert Groups(ws) == Owned(counts.Keys);
    } else {
      assert Groups(ws) - {None} == Owned(counts.Keys);
      TotalNeedAny(cfg, ws, Groups(ws), None);
    }
  }

  function LoadedRefs(loads: map<string, nat>, refs: set<string>): set<string> {
    set r | r in refs && Get(loads, r) > 0
  }

  /** The workspace weighs on the worker with this reference. */
  predicate WeighsOn(p: Placement, r: string) {
    p.state != Evicted && p.state != Unassigned && p.worker == Some(r) && (p.refCount.Some? ==> p.refCount.value > 0)
  }

  /** The references among these on which some workspace weighs. */
  ghost function Burdened(placements: seq<Placement>, refs: set<string>): set<string> {
    set r | r in refs && Weighed(placements, r)
  }

  ghost predicate Weighed(placements: seq<Placement>, r: string) {
    exists p :: p in placements && WeighsOn(p, r)
  }

  lemma WeighedSnoc(placements: seq<Placement>, p: Placement, r: string)
    ensures Weighed(placements + [p], r) <==> Weighed(placements, r) || WeighsOn(p, r)
  {
    if Weighed(placements, r) {
      var q :| q in placements && WeighsOn(q, r);
      assert q in placements + [p];
    }
    assert p in placements + [p];
  }

  lemma LoadSnoc(placements: seq<Placement>, p: Placement, r: string)
    ensures Get(RefLoads(placements + [p]), r) == Get(RefLoads(placements), r) + if OwnerOf(p) == Some(r) then PlacementLoad(p) else 0
  {
    assert (placements + [p])[..|placements|] == placements;
  }

  lemma TrackedSnoc(placements: seq<Placement>, p: Placement)
    ensures Tracked(placements + [p]) == if p.state == Evicted then Tracked(placements) else Tracked(placements) + [p]
  {
    assert (placements + [p])[..|placements|] == placements;
  }

  lemma LoadGrows(tracked: seq<Placement>, p: Placement, r: string)
    requires p.state != Evicted
    ensures Get(RefLoads(tracked + [p]), r) > 0 <==> Get(RefLoads(tracked), r) > 0 || WeighsOn(p, r)
  {
    LoadSnoc(tracked, p, r);
  }

  lemma LoadedSnoc(placements: seq<Placement>, p: Placement, r: string)
    requires Get(RefLoads(Tracked(placements)), r) > 0 <==> Weighed(placements, r)
    ensures Get(RefLoads(Tracked(placements + [p])), r) > 0 <==> Weighed(placements + [p], r)
  {
    WeighedSnoc(placements, p, r);
    TrackedSnoc(placements, p);
    if p.state != Evicted {
      LoadGrows(Tracked(placements), p, r);
    }
  }

  lemma {:induction false} LoadedIff(placements: seq<Placement>, r: string)
    ensures Get(RefLoads(Tracked(placements)), r) > 0 <==> Weighed(placements, r)
    decreases |placements|
  {
    if placements == [] {
      assert Tracked(placements) == [];
    } else {
      var init, last := placements[..|placements| - 1], placements[|placements| - 1];
      LoadedIff(init, r);
      LoadedSnoc(init, last, r);
      assert placements == init + [last];
    }
  }

  lemma LoadedAreBurdened(placements: seq<Placement>, refs: set<string>)
    ensures LoadedRefs(RefLoads(Tracked(placements)), refs) == Burdened(placements, refs)
  {
    forall r ensures Get(RefLoads(Tracked(placements)), r) > 0 <==> Weighed(placements, r) {
      LoadedIff(placements, r);
    }
  }

  datatype SandboxSummary = SandboxSummary(ownerScoped: nat, ownerless: nat, logical: nat, reserve: nat, target: nat, desired: nat)

  function Clamp(n: nat, low: nat, high: nat): nat {
    var m := if n < high then n else high;
    if low > m then low else m
  }

  /** `pressured` are the references of healthy standalone workers whose resource pressure exceeds a threshold. */
  method SummarizeSandboxFleet(cfg: SandboxConfig, placements: seq<Placement>, pressured: set<string>) returns (r: SandboxSummary)
    requires cfg.maxWorkspacesPerSandbox > 0
    ensures r.logical == LogicalSandboxes(cfg, Owners(Tracked(placements)))
    ensures r.logical == r.ownerScoped + r.ownerless
    ensures r.reserve == if cfg.managedByController then |Burdened(placements, pressured)| else 0
    ensures r.target == r.logical + r.reserve + if cfg.managedByController then cfg.warmEmptyCount else 0
    ensures !cfg.managedByController ==> r.desired == 0
    ensures cfg.managedByController && cfg.minCount <= cfg.maxCount ==>
      && cfg.minCount <= r.desired <= cfg.maxCount
      && (r.desired < r.target <==> cfg.maxCount < r.target)
      && (r.target < r.desired <==> r.target < cfg.minCount)
    ensures cfg.managedByController && cfg.maxCount < cfg.minCount ==> r.desired == cfg.minCount
  {
    var tracked := Tracked(placements);
    var counts, ownerlessCount := CountOwners(tracked);
    var loads := CountLoads(tracked);
    var ownerScoped := OwnerScoped(cfg, Owners(tracked), counts);
    GroupsSplit(cfg, Owners(tracked), counts, ownerlessCount);
    var ownerless :=
      if ownerlessCount == 0 then 0
      else if cfg.dedicated then ownerlessCount
      else CeilDiv(ownerlessCount, cfg.maxWorkspacesPerSandbox);
    var logical := ownerScoped + ownerless;
    var warm := if cfg.managedByController then cfg.warmEmptyCount else 0;
    var loaded := LoadedRefs(loads, pressured);
    LoadedAreBurdened(placements, pressured);
    var reserve := if cfg.managedByController then |loaded| else 0;
    var target := logical + warm + reserve;
    var desired := if cfg.managedByController then Clamp(target, cfg.minCount, cfg.maxCount) else 0;
    r := SandboxSummary(ownerScoped, ownerless, logical, reserve, target, desired);
  }
}
