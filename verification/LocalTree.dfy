/** The local directory: scanning it and pruning it
    (object-storage-local-snapshot.ts and `pruneEmptyDirectories`). */
module LocalTree {
  import opened Orders
  import opened Paths
  import opened Storage

  datatype FileData = FileData(data: seq<byte>, mtimeMs: real)

  datatype Node = Dir | File(file: FileData)

  /** A directory tree by relative path; the root itself is not an entry. */
  type Tree = map<Path, Node>

  type Filter = seq<string> -> bool

  /** Every entry sits in a directory that is itself an entry. */
  ghost predicate WellFormed(t: Tree) {
    && [] !in t
    && (forall p, k :: p in t && 0 < k < |p| ==> p[..k] in t && t[p[..k]] == Dir)
  }

  predicate IsChild(d: seq<string>, p: seq<string>) {
    |p| == |d| + 1 && p[..|d|] == d
  }

  function Children(t: Tree, d: Path): set<Path> {
    set p | p in t && IsChild(d, p)
  }

  ghost function Below(t: Tree, d: Path): set<Path> {
    set p | p in t && Under(d, p)
  }

  ghost predicate Childless(t: Tree, d: Path) {
    forall p :: p in t ==> !Under(d, p)
  }

  /** The entry of `d` through which a deeper path passes. */
  function Toward(d: Path, p: Path): Path
    requires Under(d, p)
  {
    p[..|d| + 1]
  }

  lemma TowardIsChild(t: Tree, d: Path, p: Path)
    requires WellFormed(t) && p in t && Under(d, p)
    ensures Toward(d, p) in Children(t, d)
    ensures p == Toward(d, p) || (Under(Toward(d, p), p) && t[Toward(d, p)] == Dir)
  {
    var c := Toward(d, p);
    assert c[..|d|] == d;
    if |p| == |d| + 1 {
      assert p == c;
    } else {
      assert p[..|d| + 1] in t;
    }
  }

  lemma UnderTransitive(d: Path, c: Path, p: Path)
    requires IsChild(d, c) && (Under(c, p) || p == c)
    ensures Under(d, p) && Toward(d, p) == c
  {
    assert p[..|d|] == p[..|c|][..|d|] by { assert p[..|c|] == c; }
    assert p[..|c|] == c;
  }

  lemma BelowShrinks(t: Tree, d: Path, c: Path)
    requires c in Children(t, d)
    ensures Below(t, c) < Below(t, d)
  {
    forall p | p in Below(t, c) ensures p in Below(t, d) {
      UnderTransitive(d, c, p);
    }
    UnderTransitive(d, c, c);
    assert c in Below(t, d) && c !in Below(t, c);
  }

  // ---- scanning --------------------------------------------------------------------------------

  datatype Snapshot = Snapshot(files: map<Path, FileData>, emptyDirectories: set<Path>)

  predicate Suppressed(exclude: Filter, p: seq<string>) {
    Ignored(p) || exclude(p)
  }

  /** Nothing on the way from `d` (exclusive) down to `p` (inclusive) is ignored or excluded. */
  ghost predicate VisibleFrom(exclude: Filter, d: Path, p: Path) {
    forall k :: |d| < k <= |p| ==> !Suppressed(exclude, p[..k])
  }

  ghost function FilesUnder(t: Tree, exclude: Filter, d: Path): map<Path, FileData> {
    map p | p in t && Under(d, p) && t[p].File? && VisibleFrom(exclude, d, p) :: t[p].file
  }

  ghost function EmptyUnder(t: Tree, exclude: Filter, d: Path): set<Path> {
    set p | p in t && Under(d, p) && t[p] == Dir && VisibleFrom(exclude, d, p) && Childless(t, p)
  }

  /** What a scan of the whole directory finds. */
  ghost function Scan(t: Tree, exclude: Filter): Snapshot {
    Snapshot(FilesUnder(t, exclude, []), EmptyUnder(t, exclude, []))
  }

  ghost function FilesThrough(t: Tree, exclude: Filter, d: Path, done: set<Path>): map<Path, FileData> {
    map p | p in FilesUnder(t, exclude, d) && Toward(d, p) in done :: FilesUnder(t, exclude, d)[p]
  }

  ghost function EmptyThrough(t: Tree, exclude: Filter, d: Path, done: set<Path>): set<Path> {
    set p | p in EmptyUnder(t, exclude, d) && Toward(d, p) in done
  }

  /** The part of a scan that one child of `d` contributes. */
  ghost function ChildFiles(t: Tree, exclude: Filter, c: Path): map<Path, FileData>
    requires c in t
  {
    if Suppressed(exclude, c) then map[]
    else if t[c].File? then map[c := t[c].file]
    else FilesUnder(t, exclude, c)
  }

  ghost function ChildEmpties(t: Tree, exclude: Filter, c: Path): set<Path>
    requires c in t
  {
    if Suppressed(exclude, c) || t[c].File? then {}
    else EmptyUnder(t, exclude, c) + if Childless(t, c) then {c} else {}
  }

  lemma VisibleThroughChild(exclude: Filter, d: Path, c: Path, p: Path)
    requires IsChild(d, c) && (Under(c, p) || p == c)
    ensures VisibleFrom(exclude, d, p) <==> !Suppressed(exclude, c) && VisibleFrom(exclude, c, p)
  {
    UnderTransitive(d, c, p);
    assert p[..|c|] == c;
  }

  lemma FilesOfChild(t: Tree, exclude: Filter, d: Path, c: Path, p: Path)
    requires WellFormed(t) && c in Children(t, d)
    ensures p in FilesUnder(t, exclude, d) && Toward(d, p) == c <==> p in ChildFiles(t, exclude, c)
  {
    if p in t && Under(d, p) && Toward(d, p) == c {
      TowardIsChild(t, d, p);
      VisibleThroughChild(exclude, d, c, p);
    }
    if p in ChildFiles(t, exclude, c) {
      UnderTransitive(d, c, p);
      VisibleThroughChild(exclude, d, c, p);
    }
  }

  lemma EmptiesOfChild(t: Tree, exclude: Filter, d: Path, c: Path, p: Path)
    requires WellFormed(t) && c in Children(t, d)
    ensures p in EmptyUnder(t, exclude, d) && Toward(d, p) == c <==> p in ChildEmpties(t, exclude, c)
  {
    if p in t && Under(d, p) && Toward(d, p) == c {
      TowardIsChild(t, d, p);
      VisibleThroughChild(exclude, d, c, p);
    }
    if p in ChildEmpties(t, exclude, c) {
      UnderTransitive(d, c, p);
      VisibleThroughChild(exclude, d, c, p);
    }
  }

  lemma ScanStep(t: Tree, exclude: Filter, d: Path, done: set<Path>, c: Path)
    requires WellFormed(t) && c in Children(t, d)
    ensures FilesThrough(t, exclude, d, done + {c}) == FilesThrough(t, exclude, d, done) + ChildFiles(t, exclude, c)
    ensures EmptyThrough(t, exclude, d, done + {c}) == EmptyThrough(t, exclude, d, done) + ChildEmpties(t, exclude, c)
  {
    forall p: Path
      ensures p in FilesThrough(t, exclude, d, done + {c})
          <==> p in FilesThrough(t, exclude, d, done) || p in ChildFiles(t, exclude, c)
      ensures p in EmptyThrough(t, exclude, d, done + {c})
          <==> p in EmptyThrough(t, exclude, d, done) || p in ChildEmpties(t, exclude, c)
    {
      FilesOfChild(t, exclude, d, c, p);
      EmptiesOfChild(t, exclude, d, c, p);
    }
    ChildFileValues(t, exclude, c);
  }

  lemma ChildFileValues(t: Tree, exclude: Filter, c: Path)
    requires c in t
    ensures forall p :: p in ChildFiles(t, exclude, c) ==> p in t && t[p].File? && ChildFiles(t, exclude, c)[p] == t[p].file
  {
  }

  lemma ScanComplete(t: Tree, exclude: Filter, d: Path)
    requires WellFormed(t)
    ensures FilesThrough(t, exclude, d, Children(t, d)) == FilesUnder(t, exclude, d)
    ensures EmptyThrough(t, exclude, d, Children(t, d)) == EmptyUnder(t, exclude, d)
  {
    forall p | p in t && Under(d, p) ensures Toward(d, p) in Children(t, d) {
      TowardIsChild(t, d, p);
    }
  }

  lemma ChildlessMeansNoChildren(t: Tree, d: Path)
    requires WellFormed(t)
    ensures Childless(t, d) <==> Children(t, d) == {}
  {
    if !Childless(t, d) {
      var p :| p in t && Under(d, p);
      TowardIsChild(t, d, p);
    }
    if Children(t, d) != {} {
      var c :| c in Children(t, d);
      UnderTransitive(d, c, c);
    }
  }

  ghost function FilesSoFar(t: Tree, exclude: Filter, d: Path, done: set<Path>, files0: map<Path, FileData>): map<Path, FileData> {
    files0 + FilesThrough(t, exclude, d, done)
  }

  ghost function EmptySoFar(t: Tree, exclude: Filter, d: Path, done: set<Path>, empty0: set<Path>): set<Path> {
    empty0 + EmptyThrough(t, exclude, d, done)
  }

  lemma MapUnionAssociates<K, V>(a: map<K, V>, b: map<K, V>, c: map<K, V>)
    ensures a + b + c == a + (b + c)
  {
  }

  lemma AccumulateChild(t: Tree, exclude: Filter, d: Path, done: set<Path>, c: Path, files0: map<Path, FileData>, empty0: set<Path>)
    requires WellFormed(t) && c in Children(t, d)
    ensures FilesSoFar(t, exclude, d, done + {c}, files0) == FilesSoFar(t, exclude, d, done, files0) + ChildFiles(t, exclude, c)
    ensures EmptySoFar(t, exclude, d, done + {c}, empty0) == EmptySoFar(t, exclude, d, done, empty0) + ChildEmpties(t, exclude, c)
    ensures Suppressed(exclude, c) ==> FilesSoFar(t, exclude, d, done + {c}, files0) == FilesSoFar(t, exclude, d, done, files0)
    ensures Suppressed(exclude, c) ==> EmptySoFar(t, exclude, d, done + {c}, empty0) == EmptySoFar(t, exclude, d, done, empty0)
  {
    ScanStep(t, exclude, d, done, c);
    var f, g := FilesThrough(t, exclude, d, done), ChildFiles(t, exclude, c);
    MapUnionAssociates(files0, f, g);
    if Suppressed(exclude, c) {
      assert f + g == f;
    }
  }

  /** `walk` of `collectLocalDirectorySnapshot`. The visiting order does not matter. */
  method ScanDirectory(t: Tree, exclude: Filter, d: Path, files0: map<Path, FileData>, empty0: set<Path>)
      returns (files: map<Path, FileData>, empty: set<Path>)
    requires WellFormed(t)
    ensures files == files0 + FilesUnder(t, exclude, d)
    ensures empty == empty0 + EmptyUnder(t, exclude, d) + if d != [] && Childless(t, d) then {d} else {}
    decreases Below(t, d), 1
  {
    files, empty := files0, empty0;
    var visibleChildren, suppressedChildren := 0, false;
    var todo := Children(t, d);
    ghost var done: set<Path> := {};
    while todo != {}
      invariant todo + done == Children(t, d) && todo !! done
      invariant files == FilesSoFar(t, exclude, d, done, files0)
      invariant empty == EmptySoFar(t, exclude, d, done, empty0)
      invariant visibleChildren == 0 && !suppressedChildren <==> done == {}
      decreases todo
    {
      var c :| c in todo;
      AccumulateChild(t, exclude, d, done, c, files0, empty0);
      todo := todo - {c};
      done := done + {c};
      if Suppressed(exclude, c) {
        suppressedChildren := true;
      } else {
        visibleChildren := visibleChildren + 1;
        files, empty := ScanChild(t, exclude, d, c, files, empty);
      }
    }
    ScanComplete(t, exclude, d);
    ChildlessMeansNoChildren(t, d);
    if visibleChildren == 0 && d != [] && !suppressedChildren {
      empty := empty + {d};
    }
  }

  method ScanChild(t: Tree, exclude: Filter, ghost d: Path, c: Path, files0: map<Path, FileData>, empty0: set<Path>)
      returns (files: map<Path, FileData>, empty: set<Path>)
    requires WellFormed(t) && c in Children(t, d) && !Suppressed(exclude, c)
    ensures files == files0 + ChildFiles(t, exclude, c)
    ensures empty == empty0 + ChildEmpties(t, exclude, c)
    decreases Below(t, d), 0
  {
    if t[c] == Dir {
      BelowShrinks(t, d, c);
      files, empty := ScanDirectory(t, exclude, c, files0, empty0);
    } else {
      files, empty := files0[c := t[c].file], empty0;
    }
  }

  method CollectSnapshot(t: Tree, exclude: Filter) returns (s: Snapshot)
    requires WellFormed(t)
    ensures s == Scan(t, exclude)
  {
    var files, empty := ScanDirectory(t, exclude, [], map[], {});
    assert map[] + FilesUnder(t, exclude, []) == FilesUnder(t, exclude, []);
    s := Snapshot(files, empty);
  }

  // ---- pruning -----------------------------------------------------------------------------------

  ghost predicate HasFileUnder(t: Tree, d: Path) {
    exists p :: p in t && Under(d, p) && t[p].File?
  }

  ghost predicate Barren(t: Tree, p: Path)
    requires p in t
  {
    t[p] == Dir && !HasFileUnder(t, p)
  }

  /** The tree without the directories that hold no file at any depth. */
  ghost function Pruned(t: Tree): Tree {
    PrunedBelow(t, [])
  }

  ghost function PrunedBelow(t: Tree, d: Path): Tree {
    map p | p in t && !(Under(d, p) && Barren(t, p)) :: t[p]
  }

  ghost function PrunedThrough(t: Tree, d: Path, done: set<Path>): Tree {
    map p | p in t && !(Under(d, p) && Toward(d, p) in done && Barren(t, p)) :: t[p]
  }

  lemma FileUnderChild(t: Tree, d: Path, c: Path)
    requires IsChild(d, c) && c in t && (t[c].File? || HasFileUnder(t, c))
    ensures HasFileUnder(t, d)
  {
    var p :| p in t && (p == c || Under(c, p)) && t[p].File?;
    UnderTransitive(d, c, p);
  }

  /** Pruning other children does not change what lies under `c`. */
  lemma PrunedThroughKeeps(t: Tree, d: Path, done: set<Path>, c: Path)
    requires WellFormed(t) && c in Children(t, d) && c !in done
    ensures var u := PrunedThrough(t, d, done);
      && WellFormed(u) && c in u && u[c] == t[c]
      && (HasFileUnder(u, c) <==> HasFileUnder(t, c))
  {
    var u := PrunedThrough(t, d, done);
    UnderTransitive(d, c, c);
    forall p, k | p in u && 0 < k < |p| ensures p[..k] in u && u[p[..k]] == Dir {
      var a := p[..k];
      assert Under(a, p);
      if Under(d, a) && Toward(d, a) in done {
        assert p[..|d|] == a[..|d|] && p[..|d| + 1] == a[..|d| + 1];
        if t[p].File? {
        } else {
          var f :| f in t && Under(p, f) && t[f].File?;
          assert f[..|a|] == p[..|a|] by { assert f[..|p|] == p; }
        }
        assert HasFileUnder(t, a);
      }
    }
    if HasFileUnder(t, c) {
      var f :| f in t && Under(c, f) && t[f].File?;
      assert f in u;
    }
  }

  lemma PrunedStep(t: Tree, d: Path, done: set<Path>, c: Path)
    requires WellFormed(t) && c in Children(t, d) && c !in done
    ensures var u := PrunedThrough(t, d, done);
      var v := if t[c] == Dir then PrunedBelow(u, c) else u;
      PrunedThrough(t, d, done + {c}) == if Barren(t, c) then v - {c} else v
  {
    var u := PrunedThrough(t, d, done);
    PrunedThroughKeeps(t, d, done, c);
    var v := if t[c] == Dir then PrunedBelow(u, c) else u;
    var w := if Barren(t, c) then v - {c} else v;
    forall p: Path ensures p in w <==> p in PrunedThrough(t, d, done + {c}) {
      if p in t && Under(d, p) && Toward(d, p) == c {
        TowardIsChild(t, d, p);
        PrunedDescendant(t, d, done, c, p);
      } else if p in t && (p == c || Under(c, p)) {
        UnderTransitive(d, c, p);
      }
    }
  }

  lemma PrunedDescendant(t: Tree, d: Path, done: set<Path>, c: Path, p: Path)
    requires WellFormed(t) && c in Children(t, d) && c !in done
    requires p in t && Under(d, p) && Toward(d, p) == c
    ensures var u := PrunedThrough(t, d, done); p in u && (Barren(u, p) <==> Barren(t, p))
  {
    var u := PrunedThrough(t, d, done);
    if HasFileUnder(t, p) {
      var f :| f in t && Under(p, f) && t[f].File?;
      assert f in u;
    }
  }

  lemma PrunedComplete(t: Tree, d: Path)
    requires WellFormed(t)
    ensures PrunedThrough(t, d, Children(t, d)) == PrunedBelow(t, d)
  {
    forall p | p in t && Under(d, p) ensures Toward(d, p) in Children(t, d) {
      TowardIsChild(t, d, p);
    }
  }

  /** `rm` with `recursive`. */
  function RemoveSubtree(t: Tree, c: Path): Tree {
    map p | p in t && p != c && !Under(c, p) :: t[p]
  }

  lemma RemoveBarren(t: Tree, d: Path, done: set<Path>, c: Path)
    requires WellFormed(t) && c in Children(t, d) && c !in done && Barren(t, c)
    ensures RemoveSubtree(PrunedBelow(PrunedThrough(t, d, done), c), c) == PrunedThrough(t, d, done + {c})
  {
    var u := PrunedThrough(t, d, done);
    var v := PrunedBelow(u, c);
    PrunedStep(t, d, done, c);
    PrunedThroughKeeps(t, d, done, c);
    forall p | p in u && Under(c, p) ensures !Barren(u, p) ==> HasFileUnder(u, c) {
      FileBelow(u, c, p);
    }
  }

  lemma FileBelow(t: Tree, c: Path, p: Path)
    requires p in t && Under(c, p)
    ensures !Barren(t, p) ==> HasFileUnder(t, c)
  {
    if t[p] == Dir && HasFileUnder(t, p) {
      var f :| f in t && Under(p, f) && t[f].File?;
      assert f[..|c|] == p[..|c|] by { assert f[..|p|] == p; }
      assert Under(c, f);
    }
  }

  // ---- a local directory ---------------------------------------------------------------------------

  class LocalDirectory {
    var tree: Tree

    constructor ()
      ensures tree == map[]
    {
      tree := map[];
    }

    /** `pruneEmptyDirectories`: drop every directory without a file in it. */
    method PruneEmptyDirectories()
      requires WellFormed(tree)
      modifies this
      ensures tree == Pruned(old(tree))
    {
      var keep := PruneWalk([]);
    }

    method PruneWalk(d: Path) returns (hasChildren: bool)
      requires WellFormed(tree)
      modifies this
      ensures tree == PrunedBelow(old(tree), d)
      ensures hasChildren <==> HasFileUnder(old(tree), d)
      decreases Below(tree, d), 1
    {
      ghost var t := tree;
      hasChildren := false;
      var todo := Children(tree, d);
      ghost var done: set<Path> := {};
      assert PrunedThrough(t, d, {}) == t;
      while todo != {}
        invariant todo + done == Children(t, d) && todo !! done
        invariant tree == PrunedThrough(t, d, done)
        invariant hasChildren <==> exists c :: c in done && !Barren(t, c)
        decreases todo
      {
        var c :| c in todo;
        var keep := PruneChild(t, d, done, c);
        hasChildren := hasChildren || keep;
        todo := todo - {c};
        done := done + {c};
      }
      PrunedComplete(t, d);
      FilesThroughChildren(t, d);
    }

    /** One iteration of the loop: walk a subdirectory, remove it when nothing is kept. */
    method PruneChild(ghost t: Tree, ghost d: Path, ghost done: set<Path>, c: Path) returns (keep: bool)
      requires WellFormed(t) && c in Children(t, d) && c !in done
      requires tree == PrunedThrough(t, d, done)
      modifies this
      ensures tree == PrunedThrough(t, d, done + {c})
      ensures keep <==> !Barren(t, c)
      decreases Below(t, d), 0
    {
      PrunedThroughKeeps(t, d, done, c);
      PrunedStep(t, d, done, c);
      if tree[c] == Dir {
        BelowPruned(t, d, done, c);
        keep := PruneWalk(c);
        if !keep {
          RemoveBarren(t, d, done, c);
          tree := RemoveSubtree(tree, c);
        }
      } else {
        keep := true;
      }
    }
  }

  lemma BelowPruned(t: Tree, d: Path, done: set<Path>, c: Path)
    requires c in Children(t, d)
    ensures Below(PrunedThrough(t, d, done), c) < Below(t, d)
  {
    BelowShrinks(t, d, c);
    assert Below(PrunedThrough(t, d, done), c) <= Below(t, c);
  }

  lemma FilesThroughChildren(t: Tree, d: Path)
    requires WellFormed(t)
    ensures HasFileUnder(t, d) <==> exists c :: c in Children(t, d) && !Barren(t, c)
  {
    if HasFileUnder(t, d) {
      var p :| p in t && Under(d, p) && t[p].File?;
      TowardIsChild(t, d, p);
      assert !Barren(t, Toward(d, p));
    }
    if exists c :: c in Children(t, d) && !Barren(t, c) {
      var c :| c in Children(t, d) && !Barren(t, c);
      FileUnderChild(t, d, c);
    }
  }

  /** Pruning keeps what a scan finds, except that no empty directory is left. */
  lemma PrunedScan(t: Tree, exclude: Filter)
    requires WellFormed(t)
    ensures WellFormed(Pruned(t))
    ensures Scan(Pruned(t), exclude) == Snapshot(Scan(t, exclude).files, {})
  {
    var u := Pruned(t);
    forall p, k | p in u && 0 < k < |p| ensures p[..k] in u && u[p[..k]] == Dir {
      var a := p[..k];
      if t[p].File? {
        assert Under(a, p);
      } else {
        var f :| f in t && Under(p, f) && t[f].File?;
        assert f[..|a|] == p[..|a|] by { assert f[..|p|] == p; }
        assert Under(a, f);
      }
    }
    forall p | p in u && u[p] == Dir ensures !Childless(u, p) {
      assert Under([], p);
      var f :| f in t && Under(p, f) && t[f].File?;
      assert f in u;
    }
    assert FilesUnder(u, exclude, []) == FilesUnder(t, exclude, []);
  }

  // ---- stamps ------------------------------------------------------------------------------------------

  function StampOf(f: FileData): FileEntry {
    FileEntry(|f.data|, Trunc(f.mtimeMs))
  }

  function Stamps(files: map<Path, FileData>): map<Path, FileEntry> {
    map p | p in files :: StampOf(files[p])
  }
}
