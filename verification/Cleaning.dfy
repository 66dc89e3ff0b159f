/** Removing local entries the remote does not have (`removeUnexpectedLocalEntries`). */
module Cleaning {
  import opened Orders
  import opened Paths
  import opened Storage
  import opened LocalTree

  /** What a pull aims at: the sync options, the remote files and the directories that hold them. */
  datatype Mirror = Mirror(exclude: Filter, preserve: set<string>, files: set<Path>, dirs: set<Path>)

  datatype Verdict = KeepAll | DropAll | Open

  /** What the walk does with one entry before it looks at the remote sets. */
  function VerdictOn(m: Mirror, c: Path): Verdict
    requires c != []
  {
    if m.exclude(c) then KeepAll
    else if Ignored(c) then DropAll
    else if c[0] in m.preserve then KeepAll
    else Open
  }

  /** The verdict that reaches `p` on the way down from `d`: that of the first entry that is not open. */
  function Fate(m: Mirror, d: Path, p: Path): Verdict
    decreases |p| - |d|
  {
    if |p| <= |d| then Open
    else
      var c: Path := p[..|d| + 1];
      if VerdictOn(m, c) == Open then Fate(m, c, p) else VerdictOn(m, c)
  }

  /** An entry the walk leaves in place for its own sake. */
  ghost predicate Anchor(m: Mirror, t: Tree, d: Path, q: Path)
    requires q in t
  {
    match Fate(m, d, q)
    case KeepAll => true
    case DropAll => false
    case Open => if t[q].File? then q in m.files else q in m.dirs
  }

  predicate AtOrUnder(p: Path, q: Path) {
    p == q || Under(p, q)
  }

  /** An entry survives for its own sake or because something below it does. */
  ghost predicate Alive(m: Mirror, t: Tree, d: Path, p: Path) {
    exists q :: q in t && AtOrUnder(p, q) && Anchor(m, t, d, q)
  }

  ghost function CleanedBelow(m: Mirror, t: Tree, d: Path): Tree {
    map p | p in t && (Under(d, p) ==> Alive(m, t, d, p)) :: t[p]
  }

  ghost function CleanedThrough(m: Mirror, t: Tree, d: Path, done: set<Path>): Tree {
    map p | p in t && (Under(d, p) && Toward(d, p) in done ==> Alive(m, t, d, p)) :: t[p]
  }

  /** The entries removed one by one: dead ones the walk gets to. */
  ghost predicate Struck(m: Mirror, t: Tree, d: Path, p: Path) {
    p in t && Under(d, p) && !Alive(m, t, d, p) && Fate(m, d, p[..|p| - 1]) == Open
  }

  ghost function StruckThrough(m: Mirror, t: Tree, d: Path, done: set<Path>): set<Path> {
    set p | p in t && Struck(m, t, d, p) && Toward(d, p) in done
  }

  ghost function StruckBelow(m: Mirror, t: Tree, d: Path): set<Path> {
    set p | p in t && Struck(m, t, d, p)
  }

  // ---- one child ---------------------------------------------------------------------------------------

  lemma FateThroughChild(m: Mirror, d: Path, c: Path, p: Path)
    requires IsChild(d, c) && AtOrUnder(c, p)
    ensures Fate(m, d, p) == if VerdictOn(m, c) == Open then Fate(m, c, p) else VerdictOn(m, c)
  {
    UnderTransitive(d, c, p);
    assert p[..|d| + 1] == c;
  }

  lemma ParentBelow(c: Path, p: Path)
    requires Under(c, p)
    ensures AtOrUnder(c, p[..|p| - 1])
  {
    var a := p[..|p| - 1];
    if |p| == |c| + 1 { assert a == c; } else { assert a[..|c|] == p[..|c|]; }
  }

  lemma UnderChain(p: Path, q: Path, r: Path)
    requires AtOrUnder(p, q) && AtOrUnder(q, r)
    ensures AtOrUnder(p, r)
  {
    if p != q && q != r {
      assert r[..|p|] == r[..|q|][..|p|];
    }
  }

  /** Cleaning other children leaves what lies at and under `c`. */
  lemma CleanedThroughSame(m: Mirror, t: Tree, d: Path, done: set<Path>, c: Path, p: Path)
    requires c in Children(t, d) && c !in done && AtOrUnder(c, p)
    ensures var u := CleanedThrough(m, t, d, done); (p in u <==> p in t) && (p in t ==> u[p] == t[p])
  {
    UnderTransitive(d, c, p);
  }

  /** Under an open child, survival can be judged from the child and from the partly cleaned tree. */
  lemma AliveThroughChild(m: Mirror, t: Tree, d: Path, done: set<Path>, c: Path, p: Path)
    requires c in Children(t, d) && c !in done && VerdictOn(m, c) == Open && AtOrUnder(c, p)
    ensures Alive(m, CleanedThrough(m, t, d, done), c, p) <==> Alive(m, t, d, p)
  {
    var u := CleanedThrough(m, t, d, done);
    forall q | AtOrUnder(p, q)
      ensures q in u <==> q in t
      ensures q in t ==> (Anchor(m, u, c, q) <==> Anchor(m, t, d, q))
    {
      UnderChain(c, p, q);
      CleanedThroughSame(m, t, d, done, c, q);
      FateThroughChild(m, d, c, q);
    }
  }

  lemma CleanedThroughWellFormed(m: Mirror, t: Tree, d: Path, done: set<Path>)
    requires WellFormed(t)
    ensures WellFormed(CleanedThrough(m, t, d, done))
  {
    var u := CleanedThrough(m, t, d, done);
    forall p, k | p in u && 0 < k < |p| ensures p[..k] in u && u[p[..k]] == Dir {
      var a := p[..k];
      assert Under(a, p);
      if Under(d, a) && Toward(d, a) in done {
        assert p[..|d|] == a[..|d|] && p[..|d| + 1] == a[..|d| + 1];
        assert Alive(m, t, d, p);
        var q :| q in t && AtOrUnder(p, q) && Anchor(m, t, d, q);
        UnderChain(a, p, q);
        assert Alive(m, t, d, a);
      }
    }
  }

  lemma CleanedIsThroughAll(m: Mirror, t: Tree, d: Path)
    requires WellFormed(t)
    ensures CleanedThrough(m, t, d, Children(t, d)) == CleanedBelow(m, t, d)
    ensures StruckThrough(m, t, d, Children(t, d)) == StruckBelow(m, t, d)
  {
    forall p | p in t && Under(d, p) ensures Toward(d, p) in Children(t, d) {
      TowardIsChild(t, d, p);
    }
  }

  /** The same tree with only `c` treated. */
  lemma TreatedAway(m: Mirror, t: Tree, d: Path, done: set<Path>, c: Path, p: Path)
    requires c in Children(t, d) && c !in done && !AtOrUnder(c, p)
    ensures p in CleanedThrough(m, t, d, done + {c}) <==> p in CleanedThrough(m, t, d, done)
    ensures p in StruckThrough(m, t, d, done + {c}) <==> p in StruckThrough(m, t, d, done)
  {
  }

  lemma TreatedAt(m: Mirror, t: Tree, d: Path, done: set<Path>, c: Path, p: Path)
    requires c in Children(t, d) && c !in done && AtOrUnder(c, p)
    ensures p in CleanedThrough(m, t, d, done + {c}) <==> p in t && Alive(m, t, d, p)
    ensures p in StruckThrough(m, t, d, done + {c}) <==> Struck(m, t, d, p)
    ensures p !in StruckThrough(m, t, d, done)
  {
    UnderTransitive(d, c, p);
  }

  lemma ChildKept(m: Mirror, t: Tree, d: Path, done: set<Path>, c: Path)
    requires c in Children(t, d) && c !in done && VerdictOn(m, c) == KeepAll
    ensures CleanedThrough(m, t, d, done + {c}) == CleanedThrough(m, t, d, done)
    ensures StruckThrough(m, t, d, done + {c}) == StruckThrough(m, t, d, done)
  {
    forall p: Path
      ensures p in CleanedThrough(m, t, d, done + {c}) <==> p in CleanedThrough(m, t, d, done)
      ensures p in StruckThrough(m, t, d, done + {c}) <==> p in StruckThrough(m, t, d, done)
    {
      if AtOrUnder(c, p) {
        TreatedAt(m, t, d, done, c, p);
        CleanedThroughSame(m, t, d, done, c, p);
        FateThroughChild(m, d, c, p);
        assert p in t ==> Anchor(m, t, d, p);
      } else {
        TreatedAway(m, t, d, done, c, p);
      }
    }
  }

  lemma DeadUnderDropped(m: Mirror, t: Tree, d: Path, c: Path, p: Path)
    requires IsChild(d, c) && VerdictOn(m, c) == DropAll && AtOrUnder(c, p)
    ensures !Alive(m, t, d, p)
  {
    forall q | q in t && AtOrUnder(p, q) ensures !Anchor(m, t, d, q) {
      UnderChain(c, p, q);
      FateThroughChild(m, d, c, q);
    }
  }

  lemma FateOfParent(m: Mirror, d: Path, c: Path, p: Path)
    requires IsChild(d, c) && Under(c, p)
    ensures Fate(m, d, p[..|p| - 1]) == if VerdictOn(m, c) == Open then Fate(m, c, p[..|p| - 1]) else VerdictOn(m, c)
  {
    ParentBelow(c, p);
    FateThroughChild(m, d, c, p[..|p| - 1]);
  }

  lemma ChildDropped(m: Mirror, t: Tree, d: Path, done: set<Path>, c: Path)
    requires c in Children(t, d) && c !in done && VerdictOn(m, c) == DropAll
    ensures CleanedThrough(m, t, d, done + {c}) == RemoveSubtree(CleanedThrough(m, t, d, done), c)
    ensures StruckThrough(m, t, d, done + {c}) == StruckThrough(m, t, d, done) + {c}
  {
    UnderTransitive(d, c, c);
    forall p: Path
      ensures p in CleanedThrough(m, t, d, done + {c}) <==> p in RemoveSubtree(CleanedThrough(m, t, d, done), c)
      ensures p in StruckThrough(m, t, d, done + {c}) <==> p in StruckThrough(m, t, d, done) + {c}
    {
      if AtOrUnder(c, p) {
        TreatedAt(m, t, d, done, c, p);
        DeadUnderDropped(m, t, d, c, p);
        if p != c {
          FateOfParent(m, d, c, p);
        }
      } else {
        TreatedAway(m, t, d, done, c, p);
      }
    }
  }

  lemma FileAlive(m: Mirror, t: Tree, d: Path, c: Path)
    requires WellFormed(t) && c in Children(t, d) && VerdictOn(m, c) == Open && t[c].File?
    ensures Alive(m, t, d, c) <==> c in m.files
    ensures forall p :: p in t ==> !Under(c, p)
  {
    FateThroughChild(m, d, c, c);
    forall p | p in t ensures !Under(c, p) {
      assert |c| < |p| ==> p[..|c|] in t && t[p[..|c|]] == Dir;
    }
    if c in m.files { assert AtOrUnder(c, c) && Anchor(m, t, d, c); }
  }

  lemma ChildFile(m: Mirror, t: Tree, d: Path, done: set<Path>, c: Path)
    requires WellFormed(t) && c in Children(t, d) && c !in done && VerdictOn(m, c) == Open && t[c].File?
    ensures CleanedThrough(m, t, d, done + {c})
         == if c in m.files then CleanedThrough(m, t, d, done) else RemoveSubtree(CleanedThrough(m, t, d, done), c)
    ensures StruckThrough(m, t, d, done + {c}) == StruckThrough(m, t, d, done) + if c in m.files then {} else {c}
  {
    UnderTransitive(d, c, c);
    FileAlive(m, t, d, c);
    var u := CleanedThrough(m, t, d, done);
    forall p: Path
      ensures p in CleanedThrough(m, t, d, done + {c}) <==> p in u && (p != c || c in m.files)
      ensures p in StruckThrough(m, t, d, done + {c}) <==> p in StruckThrough(m, t, d, done) || (p == c && c !in m.files)
    {
      if AtOrUnder(c, p) {
        TreatedAt(m, t, d, done, c, p);
        CleanedThroughSame(m, t, d, done, c, p);
      } else {
        TreatedAway(m, t, d, done, c, p);
      }
    }
  }

  // ---- an open subdirectory ----------------------------------------------------------------------------------

  lemma ChildDirTree(m: Mirror, t: Tree, d: Path, done: set<Path>, c: Path)
    requires WellFormed(t) && c in Children(t, d) && c !in done && VerdictOn(m, c) == Open && t[c] == Dir
    ensures var v := CleanedBelow(m, CleanedThrough(m, t, d, done), c);
      CleanedThrough(m, t, d, done + {c}) == if Alive(m, t, d, c) then v else RemoveSubtree(v, c)
  {
    var u := CleanedThrough(m, t, d, done);
    var v := CleanedBelow(m, u, c);
    UnderTransitive(d, c, c);
    forall p: Path
      ensures p in CleanedThrough(m, t, d, done + {c}) <==> p in v && (p == c ==> Alive(m, t, d, c))
      ensures Under(c, p) && p in v ==> Alive(m, t, d, c)
    {
      if AtOrUnder(c, p) {
        TreatedAt(m, t, d, done, c, p);
        CleanedThroughSame(m, t, d, done, c, p);
        AliveThroughChild(m, t, d, done, c, p);
        if Under(c, p) && p in v { AliveUpward(m, t, d, c, p); }
      } else {
        TreatedAway(m, t, d, done, c, p);
      }
    }
  }

  lemma AliveUpward(m: Mirror, t: Tree, d: Path, c: Path, p: Path)
    requires AtOrUnder(c, p) && Alive(m, t, d, p)
    ensures Alive(m, t, d, c)
  {
    var q :| q in t && AtOrUnder(p, q) && Anchor(m, t, d, q);
    UnderChain(c, p, q);
  }

  /** A walked directory is kept when the remote has it or something in it was kept. */
  lemma ChildDirAlive(m: Mirror, t: Tree, d: Path, done: set<Path>, c: Path)
    requires WellFormed(t) && c in Children(t, d) && c !in done && VerdictOn(m, c) == Open && t[c] == Dir
    ensures var v := CleanedBelow(m, CleanedThrough(m, t, d, done), c);
      && c in v && (Alive(m, t, d, c) <==> c in m.dirs || Children(v, c) != {})
  {
    var u := CleanedThrough(m, t, d, done);
    var v := CleanedBelow(m, u, c);
    CleanedThroughSame(m, t, d, done, c, c);
    CleanedThroughWellFormed(m, t, d, done);
    CleanedIsThroughAll(m, u, c);
    CleanedThroughWellFormed(m, u, c, Children(u, c));
    ChildlessMeansNoChildren(v, c);
    FateThroughChild(m, d, c, c);
    if c in m.dirs {
      assert AtOrUnder(c, c) && Anchor(m, t, d, c);
    }
    if !Childless(v, c) {
      var p :| p in v && Under(c, p);
      AliveThroughChild(m, t, d, done, c, p);
      AliveUpward(m, t, d, c, p);
    }
    if Alive(m, t, d, c) && c !in m.dirs {
      var q :| q in t && AtOrUnder(c, q) && Anchor(m, t, d, q);
      assert q != c;
      assert AtOrUnder(q, q) && Alive(m, t, d, q);
      AliveThroughChild(m, t, d, done, c, q);
      CleanedThroughSame(m, t, d, done, c, q);
      assert q in v;
    }
  }

  lemma ChildDirStruck(m: Mirror, t: Tree, d: Path, done: set<Path>, c: Path)
    requires WellFormed(t) && c in Children(t, d) && c !in done && VerdictOn(m, c) == Open && t[c] == Dir
    ensures StruckThrough(m, t, d, done + {c})
         == StruckThrough(m, t, d, done) + StruckBelow(m, CleanedThrough(m, t, d, done), c) + if Alive(m, t, d, c) then {} else {c}
    ensures StruckThrough(m, t, d, done) !! StruckBelow(m, CleanedThrough(m, t, d, done), c)
    ensures c !in StruckThrough(m, t, d, done) && c !in StruckBelow(m, CleanedThrough(m, t, d, done), c)
  {
    var u := CleanedThrough(m, t, d, done);
    UnderTransitive(d, c, c);
    forall p: Path
      ensures p in StruckThrough(m, t, d, done + {c})
          <==> p in StruckThrough(m, t, d, done) || p in StruckBelow(m, u, c) || (p == c && !Alive(m, t, d, c))
      ensures AtOrUnder(c, p) ==> p !in StruckThrough(m, t, d, done)
    {
      if AtOrUnder(c, p) {
        TreatedAt(m, t, d, done, c, p);
        CleanedThroughSame(m, t, d, done, c, p);
        AliveThroughChild(m, t, d, done, c, p);
        UnderTransitive(d, c, p);
        if p != c {
          FateOfParent(m, d, c, p);
        }
      } else {
        TreatedAway(m, t, d, done, c, p);
      }
    }
  }

  // ---- the walk ------------------------------------------------------------------------------------------------

  lemma BelowCleaned(m: Mirror, t: Tree, d: Path, done: set<Path>, c: Path)
    requires c in Children(t, d)
    ensures Below(CleanedThrough(m, t, d, done), c) < Below(t, d)
  {
    BelowShrinks(t, d, c);
    assert Below(CleanedThrough(m, t, d, done), c) <= Below(t, c);
  }

  lemma CleaningStarts(m: Mirror, t: Tree, d: Path)
    ensures CleanedThrough(m, t, d, {}) == t && StruckThrough(m, t, d, {}) == {}
  {
  }

  /** `removeUnexpectedLocalEntries`. */
  method RemoveUnexpected(dir: LocalDirectory, m: Mirror) returns (removed: nat)
    requires WellFormed(dir.tree)
    modifies dir
    ensures dir.tree == CleanedBelow(m, old(dir.tree), []) && WellFormed(dir.tree)
    ensures removed == |StruckBelow(m, old(dir.tree), [])|
  {
    ghost var t := dir.tree;
    removed := CleanWalk(dir, m, []);
    CleanedThroughWellFormed(m, t, [], Children(t, []));
    CleanedIsThroughAll(m, t, []);
  }

  method CleanWalk(dir: LocalDirectory, m: Mirror, d: Path) returns (removed: nat)
    requires WellFormed(dir.tree)
    modifies dir
    ensures dir.tree == CleanedBelow(m, old(dir.tree), d)
    ensures removed == |StruckBelow(m, old(dir.tree), d)|
    decreases Below(dir.tree, d), 1
  {
    ghost var t := dir.tree;
    removed := 0;
    var todo := Children(dir.tree, d);
    ghost var done: set<Path> := {};
    CleaningStarts(m, t, d);
    while todo != {}
      invariant todo + done == Children(t, d) && todo !! done
      invariant dir.tree == CleanedThrough(m, t, d, done)
      invariant removed == |StruckThrough(m, t, d, done)|
      decreases todo
    {
      var c :| c in todo;
      var n := CleanChild(dir, m, t, d, done, c);
      removed := removed + n;
      todo := todo - {c};
      done := done + {c};
    }
    CleanedIsThroughAll(m, t, d);
  }

  /** One entry of the walk. */
  method CleanChild(dir: LocalDirectory, m: Mirror, ghost t: Tree, ghost d: Path, ghost done: set<Path>, c: Path) returns (n: nat)
    requires WellFormed(t) && c in Children(t, d) && c !in done
    requires dir.tree == CleanedThrough(m, t, d, done)
    modifies dir
    ensures dir.tree == CleanedThrough(m, t, d, done + {c})
    ensures |StruckThrough(m, t, d, done + {c})| == |StruckThrough(m, t, d, done)| + n
    decreases Below(t, d), 0, 1
  {
    UnderTransitive(d, c, c);
    CleanedThroughSame(m, t, d, done, c, c);
    assert c !in StruckThrough(m, t, d, done);
    n := 0;
    if m.exclude(c) {
      ChildKept(m, t, d, done, c);
    } else if Ignored(c) {
      ChildDropped(m, t, d, done, c);
      dir.tree := RemoveSubtree(dir.tree, c);
      n := 1;
    } else if c[0] in m.preserve {
      ChildKept(m, t, d, done, c);
    } else if dir.tree[c] == Dir {
      n := CleanDirectory(dir, m, t, d, done, c);
    } else {
      ChildFile(m, t, d, done, c);
      if c !in m.files {
        dir.tree := RemoveSubtree(dir.tree, c);
        n := 1;
      }
    }
  }

  lemma CountTwo<T>(a: set<T>, b: set<T>, c: T)
    requires a !! b && c !in a && c !in b
    ensures |a + b| == |a| + |b| && |a + b + {c}| == |a| + |b| + 1 && |a + b + {}| == |a| + |b|
  {
    assert a + b + {} == a + b;
  }

  method CleanDirectory(dir: LocalDirectory, m: Mirror, ghost t: Tree, ghost d: Path, ghost done: set<Path>, c: Path) returns (n: nat)
    requires WellFormed(t) && c in Children(t, d) && c !in done
    requires dir.tree == CleanedThrough(m, t, d, done)
    requires VerdictOn(m, c) == Open && t[c] == Dir
    modifies dir
    ensures dir.tree == CleanedThrough(m, t, d, done + {c})
    ensures |StruckThrough(m, t, d, done + {c})| == |StruckThrough(m, t, d, done)| + n
    decreases Below(t, d), 0, 0
  {
    ghost var u := dir.tree;
    CleanedThroughWellFormed(m, t, d, done);
    BelowCleaned(m, t, d, done, c);
    ChildDirTree(m, t, d, done, c);
    ChildDirAlive(m, t, d, done, c);
    ChildDirStruck(m, t, d, done, c);
    CountTwo(StruckThrough(m, t, d, done), StruckBelow(m, u, c), c);
    n := CleanWalk(dir, m, c);
    if c in m.dirs {
      return;
    }
    if Children(dir.tree, c) == {} {
      dir.tree := RemoveSubtree(dir.tree, c);
      n := n + 1;
    }
  }
}
