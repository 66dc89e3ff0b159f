/** What a pull does to the local directory: it converges to the remote tree, leaves protected
    entries alone, and a second pull finds nothing to do. */
module PullProofs {
  import opened Orders
  import opened Options
  import opened Paths
  import opened Storage
  import opened Manifest
  import opened LocalTree
  import opened Push
  import opened Cleaning
  import opened Pull
  import opened PullRun

  /** The options of the workspace mirror: everything below the preserved names is excluded, nothing
      else is. Without options nothing is preserved and nothing excluded. */
  ghost predicate MirrorOptions(exclude: Filter, preserve: set<string>) {
    forall p :: exclude(p) <==> p != [] && p[0] in preserve
  }

  predicate Protected(preserve: set<string>, p: seq<string>) {
    p != [] && p[0] in preserve
  }

  /** A remote tree that can be laid out and stays clear of the protected names. */
  ghost predicate Sound(r: RemoteSet, preserve: set<string>) {
    && [] !in r.files
    && TreeConsistent(r)
    && (forall p :: p in r.files ==> !Protected(preserve, p) && !Ignored(p))
    && (forall d :: d in r.markers ==> !Protected(preserve, d))
  }

  lemma RemoteIsSound(cfg: SyncConfig, paged: bool, prefix: string, exclude: Filter, preserve: set<string>, objects: ObjectMap)
    requires cfg.Valid() && Layable(cfg, paged, prefix, exclude, objects) && MirrorOptions(exclude, preserve)
    ensures Sound(PullRemote(cfg, paged, prefix, exclude, objects), preserve)
  {
    RemoteBacked(cfg, paged, prefix, exclude, objects);
    var r := PullRemote(cfg, paged, prefix, exclude, objects);
    var keys := Sorted(cfg.keyLess, PullListing(paged, prefix, exclude, objects).Keys);
    forall p | p in r.files ensures p != [] && !Protected(preserve, p) && !Ignored(p) {
      assert FileBacked(prefix, exclude, keys, PullListing(paged, prefix, exclude, objects), p, r.files[p]);
    }
    forall d | d in r.markers ensures !Protected(preserve, d) {
      assert MarkerBacked(prefix, exclude, keys, d);
    }
  }

  lemma DirsUnprotected(r: RemoteSet, preserve: set<string>)
    requires Sound(r, preserve)
    ensures forall d :: d in DirsOf(r) ==> d != [] && !Protected(preserve, d)
  {
    forall d | d in DirsOf(r) ensures d != [] && !Protected(preserve, d) {
      if d in MarkerDirs(r.markers) {
        var e, i :| e in r.markers && 0 < i <= |e| && e[..i] == d;
        assert d[0] == e[0];
      } else {
        var f, i :| f in r.files.Keys && 0 < i < |f| && f[..i] == d;
        assert d[0] == f[0];
      }
    }
  }

  // ---- the shape of the result -----------------------------------------------------------------------------------

  /** The protected part of the old tree, the remote directories and the remote files. */
  function Laid(t: Tree, preserve: set<string>, dirs: set<Path>, files: map<Path, FileData>): Tree {
    (map p | p in t && Protected(preserve, p) :: t[p]) + (map d | d in dirs :: Dir) + (map p | p in files :: File(files[p]))
  }

  lemma {:induction false} NothingKeptOutside(m: Mirror, d: Path, q: Path)
    requires MirrorOptions(m.exclude, m.preserve) && !Protected(m.preserve, q)
    ensures Fate(m, d, q) != KeepAll
    decreases |q| - |d|
  {
    if |d| < |q| {
      var c: Path := q[..|d| + 1];
      assert c[0] == q[0];
      NothingKeptOutside(m, c, q);
    }
  }

  lemma ProtectedIsKept(m: Mirror, t: Tree, p: Path)
    requires MirrorOptions(m.exclude, m.preserve) && Protected(m.preserve, p) && p in t
    ensures Alive(m, t, [], p)
  {
    var c: Path := p[..1];
    assert VerdictOn(m, c) == KeepAll;
    assert Fate(m, [], p) == KeepAll;
    assert AtOrUnder(p, p) && Anchor(m, t, [], p);
  }

  /** Outside the protected names only remote paths survive. */
  lemma SurvivorsAreRemote(r: RemoteSet, m: Mirror, t: Tree, p: Path)
    requires MirrorOptions(m.exclude, m.preserve) && m.files == r.files.Keys && m.dirs == DirsOf(r)
    requires p in t && p != [] && !Protected(m.preserve, p) && Alive(m, t, [], p)
    ensures p in r.files || p in DirsOf(r)
  {
    var q :| q in t && AtOrUnder(p, q) && Anchor(m, t, [], q);
    assert q[0] == p[0] by { if p != q { assert q[..|p|][0] == p[0]; } }
    NothingKeptOutside(m, [], q);
    assert q in r.files || q in DirsOf(r);
    DirsAreParentClosed(r);
    if p != q {
      assert q[..|p|] == p;
    }
  }

  lemma FilesCoverNoDir(r: RemoteSet, preserve: set<string>, p: Path)
    requires Sound(r, preserve)
    ensures p in DirsOf(r) || (Protected(preserve, p) && p !in r.files) ==> !Covered(r.files.Keys, p)
  {
    DirsAreParentClosed(r);
    forall f | f in r.files.Keys ensures AtOrUnder(f, p) ==> !(p in DirsOf(r)) && !(Protected(preserve, p) && p !in r.files) {
      assert f != [];
      assert Under(f, p) ==> p[..|f|] == f && f[0] == p[0];
    }
  }

  lemma PreparedAt(r: RemoteSet, m: Mirror, t: Tree, p: Path)
    requires MirrorOptions(m.exclude, m.preserve) && m.files == r.files.Keys && m.dirs == DirsOf(r)
    requires WellFormed(t) && Sound(r, m.preserve)
    ensures p in DirsOf(r) ==> p in Prepared(m, t) && Prepared(m, t)[p] == Dir
    ensures Protected(m.preserve, p) ==> (p in Prepared(m, t) <==> p in t)
    ensures Protected(m.preserve, p) && p in t ==> Prepared(m, t)[p] == t[p]
    ensures p in Prepared(m, t) ==> Protected(m.preserve, p) || p in DirsOf(r) || p in r.files
    ensures p in r.files && p in Prepared(m, t) ==> p in t && Prepared(m, t)[p] == t[p]
  {
    DirsUnprotected(r, m.preserve);
    if p in t {
      if Protected(m.preserve, p) {
        ProtectedIsKept(m, t, p);
      } else if Alive(m, t, [], p) {
        SurvivorsAreRemote(r, m, t, p);
      }
    }
    if p in t { RootAbove(p); }
  }

  lemma RootAbove(p: Path)
    ensures p != [] ==> Under([], p)
  {
  }

  /** A pull leaves the protected entries as they were and makes the rest exactly the remote files and
      the directories that hold them. */
  lemma PullShape(r: RemoteSet, m: Mirror, t: Tree, files: map<Path, FileData>)
    requires MirrorOptions(m.exclude, m.preserve) && m.files == r.files.Keys && m.dirs == DirsOf(r)
    requires WellFormed(t) && Sound(r, m.preserve) && files.Keys == r.files.Keys
    ensures WithFiles(Prepared(m, t), files) == Laid(t, m.preserve, DirsOf(r), files)
  {
    var u, v := WithFiles(Prepared(m, t), files), Laid(t, m.preserve, DirsOf(r), files);
    forall p: Path ensures p in u <==> p in v ensures p in u && p in v ==> u[p] == v[p] {
      InWithFiles(Prepared(m, t), files, p);
      PreparedAt(r, m, t, p);
      FilesCoverNoDir(r, m.preserve, p);
      DirsUnprotected(r, m.preserve);
    }
  }

  lemma LaidWellFormed(r: RemoteSet, preserve: set<string>, t: Tree, files: map<Path, FileData>)
    requires WellFormed(t) && Sound(r, preserve) && files.Keys == r.files.Keys
    ensures WellFormed(Laid(t, preserve, DirsOf(r), files))
  {
    var u := Laid(t, preserve, DirsOf(r), files);
    DirsUnprotected(r, preserve);
    DirsAreParentClosed(r);
    forall p, k | p in u && 0 < k < |p| ensures p[..k] in u && u[p[..k]] == Dir {
      var a := p[..k];
      assert a[0] == p[0];
      NotAboveOthers(r, preserve, a, p);
    }
  }

  lemma AboveRemote(r: RemoteSet, a: Path, p: Path)
    ensures a != [] && Under(a, p) && (p in r.files || p in DirsOf(r)) ==> a in DirsOf(r)
    ensures a != [] && Under(a, p) ==> a[0] == p[0]
  {
    DirsAreParentClosed(r);
  }

  /** Nothing of a sound remote tree, and nothing protected, lies below a remote file. */
  lemma NotAboveOthers(r: RemoteSet, preserve: set<string>, a: Path, p: Path)
    requires Sound(r, preserve)
    ensures a in r.files && (p in r.files || p in DirsOf(r) || Protected(preserve, p)) ==> !Under(a, p)
  {
    AboveRemote(r, a, p);
  }

  // ---- pulling again -------------------------------------------------------------------------------------------------

  ghost predicate NoIgnoredAbove(d: Path, p: Path) {
    forall k :: |d| < k <= |p| ==> !Ignored(p[..k])
  }

  lemma {:induction false} OpenAllTheWay(m: Mirror, d: Path, p: Path)
    requires MirrorOptions(m.exclude, m.preserve) && !Protected(m.preserve, p) && NoIgnoredAbove(d, p)
    ensures Fate(m, d, p) == Open
    decreases |p| - |d|
  {
    if |d| < |p| {
      var c: Path := p[..|d| + 1];
      assert c[0] == p[0];
      assert !Ignored(c);
      OpenAllTheWay(m, c, p);
    }
  }

  /** Below an ignored entry reached from an open one everything is dropped. */
  lemma {:induction false} DroppedFrom(m: Mirror, a: Path, d: Path, q: Path)
    requires MirrorOptions(m.exclude, m.preserve) && !Protected(m.preserve, d)
    requires |a| < |d| && AtOrUnder(d, q) && Ignored(d) && NoIgnoredAbove(a, d[..|d| - 1])
    ensures Fate(m, a, q) == DropAll
    decreases |d| - |a|
  {
    var c: Path := q[..|a| + 1];
    assert c == d[..|a| + 1];
    assert c[0] == d[0];
    if |c| < |d| {
      assert d[..|d| - 1][..|c|] == c;
      assert !Ignored(c);
      DroppedFrom(m, c, d, q);
    } else {
      assert c == d;
    }
  }

  lemma {:induction false} IgnoredIsStruck(r: RemoteSet, m: Mirror, u: Tree, d: Path)
    requires MirrorOptions(m.exclude, m.preserve) && m.files == r.files.Keys && m.dirs == DirsOf(r)
    requires Sound(r, m.preserve) && d in DirsOf(r) && Ignored(d)
    requires forall x :: x in DirsOf(r) ==> x in u
    ensures StruckBelow(m, u, []) != {}
    decreases |d|
  {
    DirsUnprotected(r, m.preserve);
    DirsAreParentClosed(r);
    var a: Path := d[..|d| - 1];
    if NoIgnoredAbove([], a) {
      forall q | q in u && AtOrUnder(d, q) ensures !Anchor(m, u, [], q) {
        DroppedFrom(m, [], d, q);
      }
      if a != [] { assert a[0] == d[0]; }
      OpenAllTheWay(m, [], a);
      RootAbove(d);
      assert d in StruckBelow(m, u, []);
    } else {
      var k :| 0 < k <= |a| && Ignored(a[..k]);
      assert a[..k] == d[..k];
      IgnoredIsStruck(r, m, u, d[..k]);
    }
  }

  /** Without ignored directories every entry of a laid-out tree survives a second cleaning. */
  lemma LaidSurvives(r: RemoteSet, m: Mirror, t: Tree, files: map<Path, FileData>, p: Path)
    requires MirrorOptions(m.exclude, m.preserve) && m.files == r.files.Keys && m.dirs == DirsOf(r)
    requires Sound(r, m.preserve) && files.Keys == r.files.Keys
    requires forall d :: d in DirsOf(r) ==> !Ignored(d)
    requires p in Laid(t, m.preserve, DirsOf(r), files)
    ensures Alive(m, Laid(t, m.preserve, DirsOf(r), files), [], p)
  {
    var u := Laid(t, m.preserve, DirsOf(r), files);
    if Protected(m.preserve, p) {
      ProtectedIsKept(m, u, p);
    } else {
      DirsAreParentClosed(r);
      forall k | 0 < k <= |p| ensures !Ignored(p[..k]) {
        if k == |p| {
          assert p[..k] == p;
        } else {
          assert p[..k] in DirsOf(r);
        }
      }
      OpenAllTheWay(m, [], p);
      assert AtOrUnder(p, p) && Anchor(m, u, [], p);
    }
  }

  lemma NothingToPrepare(r: RemoteSet, m: Mirror, t: Tree, files: map<Path, FileData>)
    requires MirrorOptions(m.exclude, m.preserve) && m.files == r.files.Keys && m.dirs == DirsOf(r)
    requires Sound(r, m.preserve) && files.Keys == r.files.Keys
    requires forall d :: d in DirsOf(r) ==> !Ignored(d)
    ensures var u := Laid(t, m.preserve, DirsOf(r), files);
      && CleanedBelow(m, u, []) == u && StruckBelow(m, u, []) == {}
      && MissingDirs(u, m.dirs) == {} && Prepared(m, u) == u
  {
    var u := Laid(t, m.preserve, DirsOf(r), files);
    forall p | p in u ensures Alive(m, u, [], p) {
      LaidSurvives(r, m, t, files, p);
    }
    AllAlive(m, u);
    assert forall d :: d in m.dirs ==> d in u && u[d] == Dir by { FilesCoverNothing(r, m.preserve, t, files); }
    DirsPresent(u, m.dirs);
  }

  lemma FilesCoverNothing(r: RemoteSet, preserve: set<string>, t: Tree, files: map<Path, FileData>)
    requires Sound(r, preserve) && files.Keys == r.files.Keys
    ensures forall d :: d in DirsOf(r) ==> d in Laid(t, preserve, DirsOf(r), files) && Laid(t, preserve, DirsOf(r), files)[d] == Dir
  {
  }

  lemma AllAlive(m: Mirror, u: Tree)
    requires forall p :: p in u ==> Alive(m, u, [], p)
    ensures CleanedBelow(m, u, []) == u && StruckBelow(m, u, []) == {}
  {
  }

  lemma DirsPresent(u: Tree, dirs: set<Path>)
    requires forall d :: d in dirs ==> d in u && u[d] == Dir
    ensures MissingDirs(u, dirs) == {} && WithDirs(u, dirs) == u
  {
  }

  /** The entry tells the truth about an object that is there. */
  predicate Trusted(objects: ObjectMap, known: map<Path, FileEntry>, p: Path, e: RemoteEntry) {
    && e.key in objects
    && e.size == |Content(objects[e.key].body)|
    && (|| objects[e.key].mtimeMs.Some?
        || e.lastModified == Some(objects[e.key].lastModified)
        || (p in known && known[p].size == e.size && e.lastModified == Some(known[p].mtimeMs)))
  }

  lemma SettledAfter(objects: ObjectMap, known: map<Path, FileEntry>, p: Path, e: RemoteEntry, t: Tree, u: Tree, now: int)
    requires Trusted(objects, known, p, e)
    requires p in u && u[p] == File(Materialized(objects, known, p, e, t, now))
    ensures Settled(objects, known, p, e, u)
  {
  }

  ghost predicate AllTrusted(objects: ObjectMap, known: map<Path, FileEntry>, files: map<Path, RemoteEntry>) {
    forall p :: p in files ==> Trusted(objects, known, p, files[p])
  }

  lemma SettledArrives(objects: ObjectMap, known: map<Path, FileEntry>, files: map<Path, RemoteEntry>, arrived: map<Path, FileData>,
                       u: Tree, later: int)
    requires arrived.Keys == files.Keys
    requires forall p :: p in files ==> p in u && u[p] == File(arrived[p]) && Settled(objects, known, p, files[p], u)
    ensures Arrived(objects, known, files, u, later) == arrived && Downloads(objects, known, files, u) == {}
  {
  }

  /** The tree a pull leaves, and that everything in it is settled. */
  lemma PullResult(r: RemoteSet, m: Mirror, known: map<Path, FileEntry>, objects: ObjectMap, t: Tree, now: int)
    requires MirrorOptions(m.exclude, m.preserve) && m.files == r.files.Keys && m.dirs == DirsOf(r)
    requires WellFormed(t) && Sound(r, m.preserve) && AllTrusted(objects, known, r.files)
    ensures AllObtainable(objects, known, r.files, Prepared(m, t))
    ensures var arrived := Arrived(objects, known, r.files, Prepared(m, t), now);
      var u := PulledTree(m, r.files, known, objects, t, now);
      && arrived.Keys == r.files.Keys
      && u == Laid(t, m.preserve, DirsOf(r), arrived)
      && (forall p :: p in r.files ==> p in u && u[p] == File(arrived[p]) && Settled(objects, known, p, r.files[p], u))
  {
    var arrived := Arrived(objects, known, r.files, Prepared(m, t), now);
    var u := PulledTree(m, r.files, known, objects, t, now);
    assert arrived.Keys == r.files.Keys;
    PullShape(r, m, t, arrived);
    forall p | p in r.files ensures p in u && u[p] == File(arrived[p]) && Settled(objects, known, p, r.files[p], u) {
      SettledAfter(objects, known, p, r.files[p], Prepared(m, t), u, now);
    }
  }

  lemma LaidAgain(t: Tree, preserve: set<string>, dirs: set<Path>, files: map<Path, FileData>)
    requires forall d :: d in dirs ==> !Protected(preserve, d)
    requires forall p :: p in files ==> !Protected(preserve, p)
    ensures Laid(Laid(t, preserve, dirs, files), preserve, dirs, files) == Laid(t, preserve, dirs, files)
  {
  }

  /** A second pull removes, creates and downloads nothing if and only if the remote tree has no
      directory with an ignored name; then it also leaves the tree as it is. */
  lemma SecondPullIff(r: RemoteSet, m: Mirror, known: map<Path, FileEntry>, objects: ObjectMap, t: Tree, now: int, later: int)
    requires MirrorOptions(m.exclude, m.preserve) && m.files == r.files.Keys && m.dirs == DirsOf(r)
    requires WellFormed(t) && Sound(r, m.preserve) && AllTrusted(objects, known, r.files)
    ensures var u := PulledTree(m, r.files, known, objects, t, now);
      && WellFormed(u)
      && (PullCountsOf(m, r.files, known, objects, u) == PullCounts(0, 0, 0) <==> forall d :: d in DirsOf(r) ==> !Ignored(d))
      && ((forall d :: d in DirsOf(r) ==> !Ignored(d)) ==> PulledTree(m, r.files, known, objects, u, later) == u)
  {
    var u := PulledTree(m, r.files, known, objects, t, now);
    var arrived := Arrived(objects, known, r.files, Prepared(m, t), now);
    PullResult(r, m, known, objects, t, now);
    LaidWellFormed(r, m.preserve, t, arrived);
    if forall d :: d in DirsOf(r) ==> !Ignored(d) {
      NothingToPrepare(r, m, t, arrived);
      SettledArrives(objects, known, r.files, arrived, u, later);
      PullShape(r, m, u, arrived);
      DirsUnprotected(r, m.preserve);
      LaidAgain(t, m.preserve, DirsOf(r), arrived);
    } else {
      var d :| d in DirsOf(r) && Ignored(d);
      IgnoredIsStruck(r, m, u, d);
    }
  }
}
