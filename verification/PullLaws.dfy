/** Which local files a pull keeps and what the others become, said of sizes, times and bytes alone. */
module PullLaws {
  import opened Orders
  import opened Options
  import opened Paths
  import opened Storage
  import opened Manifest
  import opened LocalTree
  import opened Push
  import opened PushProofs
  import opened SyncRuns
  import opened Cleaning
  import opened Pull
  import opened PullRun
  import opened PullProofs
  import opened RoundTrip
  import PushLaws

  /** Less than a millisecond apart. */
  predicate Near(x: real, n: int) {
    -1.0 < x - n as real < 1.0
  }

  // ---- one file ---------------------------------------------------------------------------------------------------

  /** The time of an object: its metadata, or else its date. */
  function ObjectTime(o: StoredObject): int {
    match o.mtimeMs case Some(m) => m case None => o.lastModified
  }

  /** The local file has the listed size and is within a millisecond of the recorded or the stored time. */
  predicate UpToDate(objects: ObjectMap, known: map<Path, FileEntry>, p: Path, e: RemoteEntry, f: FileData) {
    && |f.data| == e.size
    && (|| (p in known && known[p].size == e.size && Near(f.mtimeMs, known[p].mtimeMs))
        || (e.key in objects && Near(f.mtimeMs, ObjectTime(objects[e.key]))))
  }

  /** A file is kept if it is up to date; otherwise it becomes the stored bytes, with the time of the object's
      metadata or else the listed one. */
  lemma FileAfterPull(objects: ObjectMap, known: map<Path, FileEntry>, p: Path, e: RemoteEntry, t: Tree, now: int)
    requires e.key in objects && objects[e.key].body.Bytes?
    ensures Materialized(objects, known, p, e, t, now)
         == if p in t && t[p].File? && UpToDate(objects, known, p, e, t[p].file) then t[p].file
            else FileData(objects[e.key].body.data,
                          (match objects[e.key].mtimeMs
                           case Some(m) => m
                           case None => match e.lastModified case Some(m) => m case None => now) as real)
  {
  }

  /** The files a pull downloads. */
  lemma DownloadsAre(objects: ObjectMap, known: map<Path, FileEntry>, files: map<Path, RemoteEntry>, t: Tree)
    ensures Downloads(objects, known, files, t)
         == set p | p in files && !(p in t && t[p].File? && UpToDate(objects, known, p, files[p], t[p].file))
  {
  }

  // ---- any prefix ----------------------------------------------------------------------------------------------------

  /** The manifest has this size, and a time less than a millisecond from this one. */
  predicate RecordedNear(prefix: string, objects: ObjectMap, p: Path, size: int, time: real) {
    match Load(objects, prefix)
    case None => false
    case Some(doc) => p in doc.files && doc.files[p].size == size >= 0 && doc.files[p].mtimeMs > 0 && Near(time, doc.files[p].mtimeMs)
  }

  predicate StoredNear(objects: ObjectMap, key: string, time: real) {
    key in objects && Near(time, ObjectTime(objects[key]))
  }

  lemma PullKnows(paged: bool, prefix: string, exclude: Filter, objects: ObjectMap)
    requires ValidPrefix(prefix)
    ensures PullKnown(paged, prefix, exclude, objects) == match Load(objects, prefix) case None => map[] case Some(doc) => ValidFiles(doc)
  {
    PushLaws.ManifestIsListed(prefix, objects);
  }

  lemma RecordedIff(prefix: string, objects: ObjectMap, known: map<Path, FileEntry>, p: Path, e: RemoteEntry, f: FileData)
    requires p != [] && known == match Load(objects, prefix) case None => map[] case Some(doc) => ValidFiles(doc)
    ensures UpToDate(objects, known, p, e, f)
       <==> |f.data| == e.size && (RecordedNear(prefix, objects, p, e.size, f.mtimeMs) || StoredNear(objects, e.key, f.mtimeMs))
  {
  }

  /** Pulling any prefix downloads a listed file unless the local tree has one of its size whose time is near the
      one the manifest records or the object carries. */
  lemma DownloadedIff(cfg: SyncConfig, paged: bool, prefix: string, exclude: Filter, objects: ObjectMap, v: Tree, p: Path)
    requires cfg.Valid() && ValidPrefix(prefix) && Layable(cfg, paged, prefix, exclude, objects) && p != []
    requires p in PullRemote(cfg, paged, prefix, exclude, objects).files
    ensures var files := PullRemote(cfg, paged, prefix, exclude, objects).files;
      p in Downloads(objects, PullKnown(paged, prefix, exclude, objects), files, v) <==>
        !(&& p in v && v[p].File? && |v[p].file.data| == files[p].size
          && (RecordedNear(prefix, objects, p, files[p].size, v[p].file.mtimeMs) || StoredNear(objects, files[p].key, v[p].file.mtimeMs)))
  {
    var known, files := PullKnown(paged, prefix, exclude, objects), PullRemote(cfg, paged, prefix, exclude, objects).files;
    PullKnows(paged, prefix, exclude, objects);
    DownloadsAre(objects, known, files, v);
    if p in v && v[p].File? {
      RecordedIff(prefix, objects, known, p, files[p], v[p].file);
    }
  }

  // ---- a prefix that holds a directory ---------------------------------------------------------------------------------

  /** The local file at `p` has the size of `f` and its time to within a millisecond. */
  predicate Same(t: Tree, p: Path, f: FileData) {
    p in t && t[p].File? && |t[p].file.data| == |f.data| && Near(t[p].file.mtimeMs, Trunc(f.mtimeMs))
  }

  lemma KeptIff(t: Tree, s: Snapshot, p: Path)
    requires p in s.files
    ensures KeptLocally(t, s, p) <==> Same(t, p, s.files[p])
  {
  }

  /** The files downloaded: none of the directory's files that the local tree has, all the others. */
  ghost predicate Fetches(t: Tree, s: Snapshot, downloads: set<Path>) {
    downloads == set p | p in s.files && !Same(t, p, s.files[p])
  }

  /** The pulled tree: the files already there as they were, the others with the bytes of `s` and whole milliseconds. */
  ghost predicate Pulled(t: Tree, s: Snapshot, u: Tree) {
    forall p :: p in s.files ==>
      (p in u && u[p] == (if Same(t, p, s.files[p]) then t[p] else File(FileData(s.files[p].data, Trunc(s.files[p].mtimeMs) as real))))
  }

  lemma FetchedFiles(prefix: string, objects: ObjectMap, known: map<Path, FileEntry>, files: map<Path, RemoteEntry>, s: Snapshot, t: Tree, v: Tree)
    requires files.Keys == s.files.Keys && SameFiles(files.Keys, t, v)
    requires forall p :: p in s.files ==> files[p].key == FileKey(prefix, p) && files[p].size == |s.files[p].data|
    requires forall p :: p in s.files ==> StoredFile(prefix, objects, p, s.files[p])
    requires forall p :: p in s.files && p in known ==> known[p] == StampOf(s.files[p])
    ensures Fetches(t, s, Downloads(objects, known, files, v))
  {
    forall p | p in s.files ensures Settled(objects, known, p, files[p], v) <==> Same(t, p, s.files[p]) {
      SettledIsKept(objects, s, p, files[p], known, t, v);
      KeptIff(t, s, p);
    }
  }

  lemma PlacedFiles(t: Tree, s: Snapshot, v: Tree)
    ensures Pulled(t, s, WithFiles(v, GivenBack(t, s)))
  {
    forall p | p in s.files
      ensures p in GivenBack(t, s) && GivenBack(t, s)[p] ==
        (if Same(t, p, s.files[p]) then t[p].file else FileData(s.files[p].data, Trunc(s.files[p].mtimeMs) as real))
    {
      KeptIff(t, s, p);
      InWithFiles(v, GivenBack(t, s), p);
    }
  }

  /** Pulling a prefix that holds `s`: just the files of the same size and time are not downloaded and stay as
      they are; the others get the bytes of `s` and its time in whole milliseconds. */
  lemma FirstPull(cfg: SyncConfig, paged: bool, prefix: string, exclude: Filter, preserve: set<string>, objects: ObjectMap, s: Snapshot,
                  t: Tree, now: int)
    requires cfg.Valid() && ValidPrefix(prefix) && MirrorOptions(exclude, preserve) && WellFormed(t)
    requires Holds(prefix, exclude, objects, s) && ScanLike(exclude, s)
    ensures Layable(cfg, paged, prefix, exclude, objects)
    ensures var r := PullRemote(cfg, paged, prefix, exclude, objects);
      var known, m := PullKnown(paged, prefix, exclude, objects), MirrorOf(r, exclude, preserve);
      && Fetches(t, s, Downloads(objects, known, r.files, Prepared(m, t)))
      && Pulled(t, s, PulledTree(m, r.files, known, objects, t, now))
  {
    HeldRemote(cfg, paged, prefix, exclude, preserve, objects, s);
    var r := PullRemote(cfg, paged, prefix, exclude, objects);
    var known, m := PullKnown(paged, prefix, exclude, objects), MirrorOf(r, exclude, preserve);
    LocalFilesSurvive(r, m, t);
    forall p | p in s.files ensures StoredFile(prefix, objects, p, s.files[p]) {
      HeldFile(prefix, exclude, objects, s, p);
    }
    FetchedFiles(prefix, objects, known, r.files, s, t, Prepared(m, t));
    AllGivenBack(prefix, objects, s, r.files, known, t, Prepared(m, t), now);
    PlacedFiles(t, s, Prepared(m, t));
  }

  lemma OwnTimeIsNear(x: real)
    ensures Near(x, Trunc(x))
  {
  }

  /** After any lawful run of pushes, a pull into a directory that has the pushed files, such as the one pushed
      last, downloads nothing and leaves them as they are, fractions of milliseconds included. */
  lemma PullIntoSource(cfg: SyncConfig, paged: bool, prefix: string, exclude: Filter, preserve: set<string>, objects: ObjectMap,
                       events: seq<PushEvent>, t: Tree, now: int)
    requires cfg.Valid() && ValidPrefix(prefix) && MirrorOptions(exclude, preserve) && Unused(prefix, objects)
    requires Lawful(exclude, events) && Faithful(exclude, events) && WellFormed(t)
    requires forall i :: 0 <= i < |events| ==> WellFormed(events[i].tree)
    requires forall p :: p in Seen(exclude, events).files ==> p in t && t[p] == File(Seen(exclude, events).files[p])
    ensures var store := RunStore(cfg, paged, prefix, exclude, objects, events);
      && Layable(cfg, paged, prefix, exclude, store)
      && var r := PullRemote(cfg, paged, prefix, exclude, store);
         var known, m := PullKnown(paged, prefix, exclude, store), MirrorOf(r, exclude, preserve);
         && Downloads(store, known, r.files, Prepared(m, t)) == {}
         && forall p :: p in Seen(exclude, events).files ==>
              p in PulledTree(m, r.files, known, store, t, now) && PulledTree(m, r.files, known, store, t, now)[p] == t[p]
  {
    var s := Seen(exclude, events);
    RunHoldsLast(cfg, paged, prefix, exclude, objects, events);
    if events != [] {
      ScanIsScanLike(events[|events| - 1].tree, exclude);
    }
    FirstPull(cfg, paged, prefix, exclude, preserve, RunStore(cfg, paged, prefix, exclude, objects, events), s, t, now);
    forall p | p in s.files ensures Same(t, p, s.files[p]) {
      OwnTimeIsNear(s.files[p].mtimeMs);
    }
  }

  /** The directory pushed last, as the push leaves it, has the pushed files. */
  lemma SourceKeepsFiles(t: Tree, exclude: Filter, p: Path)
    requires p in Scan(t, exclude).files
    ensures p in t && t[p] == File(Scan(t, exclude).files[p])
    ensures p in Pruned(t) && Pruned(t)[p] == t[p]
  {
  }

  // ---- what a scan finds after a pull -----------------------------------------------------------------------------------

  lemma NothingBelowLeaf(r: RemoteSet, e: Path, p: Path)
    requires e in EmptyRemoteDirs(r)
    ensures p in DirsOf(r) || p in r.files ==> !Under(e, p)
  {
    DirAbove(r, p);
    if Under(e, p) && p in DirsOf(r) {
      if exists q :: q in r.markers && AtOrUnder(p, q) {
        var q :| q in r.markers && AtOrUnder(p, q);
        UnderChain(e, p, q);
      } else {
        var q :| q in r.files.Keys && Under(p, q);
        UnderChain(e, p, q);
      }
    }
  }

  lemma LeafIsChildless(r: RemoteSet, exclude: Filter, preserve: set<string>, t: Tree, files: map<Path, FileData>, e: Path)
    requires MirrorOptions(exclude, preserve) && Sound(r, preserve)
    requires files.Keys == r.files.Keys && e in EmptyRemoteDirs(r) && e != []
    ensures Childless(Laid(t, preserve, DirsOf(r), files), e)
  {
    var u := Laid(t, preserve, DirsOf(r), files);
    forall p | p in u ensures !Under(e, p) {
      AboveRemote(r, e, p);
      NothingBelowLeaf(r, e, p);
    }
  }

  lemma OtherDirHoldsSomething(r: RemoteSet, preserve: set<string>, t: Tree, files: map<Path, FileData>, d: Path)
    requires files.Keys == r.files.Keys && d in DirsOf(r) && d !in EmptyRemoteDirs(r) && [] !in r.markers
    ensures !Childless(Laid(t, preserve, DirsOf(r), files), d)
  {
    var u := Laid(t, preserve, DirsOf(r), files);
    if d !in r.markers {
      InnerDirHoldsSomething(r, preserve, t, files, d);
    } else if f :| f in r.files && Under(d, f) {
      assert f in u;
    } else {
      var e :| e in r.markers && Under(d, e);
      MarkerIsDir(r, e);
      assert e in u;
    }
  }

  lemma PulledEmptyIff(r: RemoteSet, exclude: Filter, preserve: set<string>, t: Tree, files: map<Path, FileData>, d: Path)
    requires MirrorOptions(exclude, preserve) && Sound(r, preserve)
    requires files.Keys == r.files.Keys && AllVisible(exclude, r.markers) && [] !in r.markers
    ensures d in EmptyUnder(Laid(t, preserve, DirsOf(r), files), exclude, []) <==> d in EmptyRemoteDirs(r)
  {
    ProtectedIsHidden(exclude, preserve, d);
    RootAbove(d);
    if d in EmptyRemoteDirs(r) {
      MarkerIsDir(r, d);
      LeafIsChildless(r, exclude, preserve, t, files, d);
    } else if d in DirsOf(r) {
      OtherDirHoldsSomething(r, preserve, t, files, d);
    }
  }

  /** After a pull of any prefix whose paths are all visible a scan finds the files pulled and the empty
      directories that go into the fingerprint, so that the fingerprint is that of the scan. */
  lemma PullScansAs(r: RemoteSet, m: Mirror, t: Tree, files: map<Path, FileData>)
    requires MirrorOptions(m.exclude, m.preserve) && m.files == r.files.Keys && m.dirs == DirsOf(r)
    requires WellFormed(t) && Sound(r, m.preserve) && files.Keys == r.files.Keys
    requires AllVisible(m.exclude, r.files.Keys) && AllVisible(m.exclude, r.markers) && [] !in r.markers
    ensures Scan(WithFiles(Prepared(m, t), files), m.exclude) == Snapshot(files, EmptyRemoteDirs(r))
  {
    PullShape(r, m, t, files);
    LaidFiles(r, m.exclude, m.preserve, t, files);
    var u := Laid(t, m.preserve, DirsOf(r), files);
    forall d: Path ensures d in EmptyUnder(u, m.exclude, []) <==> d in EmptyRemoteDirs(r) {
      PulledEmptyIff(r, m.exclude, m.preserve, t, files, d);
    }
  }

  // ---- what a pull reports as removed -----------------------------------------------------------------------------------

  lemma {:induction false} FateExtends(m: Mirror, d: Path, a: Path, p: Path)
    requires |d| <= |a| <= |p| && a[..|d|] == d && p[..|a|] == a && Fate(m, d, a) != Open
    ensures Fate(m, d, p) == Fate(m, d, a)
    decreases |a| - |d|
  {
    var c: Path := a[..|d| + 1];
    assert p[..|d| + 1] == c;
    if VerdictOn(m, c) == Open {
      FateExtends(m, c, a, p);
    }
  }

  lemma {:induction false} OpenAllTheWay(m: Mirror, d: Path, p: Path)
    requires |d| <= |p| && p[..|d|] == d
    ensures Fate(m, d, p) == Open <==> forall k :: |d| < k <= |p| ==> VerdictOn(m, p[..k]) == Open
    ensures Fate(m, d, p) == DropAll ==> exists k :: |d| < k <= |p| && Ignored(p[..k])
    decreases |p| - |d|
  {
    if |d| < |p| {
      var c: Path := p[..|d| + 1];
      if VerdictOn(m, c) == Open {
        OpenAllTheWay(m, c, p);
      } else {
        assert VerdictOn(m, p[..|d| + 1]) != Open;
      }
    }
  }

  /** The path lies in a directory with an ignored name. */
  predicate BelowIgnored(p: Path) {
    exists k :: 0 < k < |p| && Ignored(p[..k])
  }

  lemma KeptIsAlive(m: Mirror, t: Tree, a: Path, p: Path)
    requires p in t && |a| <= |p| && p[..|a|] == a && Fate(m, [], a) == KeepAll
    ensures Alive(m, t, [], p)
  {
    FateExtends(m, [], a, p);
    assert AtOrUnder(p, p) && Anchor(m, t, [], p);
  }

  lemma DeadIsCounted(m: Mirror, t: Tree, p: Path)
    requires p in t && p != [] && !Alive(m, t, [], p)
    ensures Struck(m, t, [], p) <==> !BelowIgnored(p)
  {
    var a: Path := p[..|p| - 1];
    OpenAllTheWay(m, [], a);
    assert forall k :: 0 < k <= |a| ==> a[..k] == p[..k];
    if Fate(m, [], a) == KeepAll {
      KeptIsAlive(m, t, a, p);
    }
    if BelowIgnored(p) {
      var k :| 0 < k < |p| && Ignored(p[..k]);
      assert VerdictOn(m, a[..k]) != Open;
    }
  }

  /** A pull counts each entry that goes, a directory with an ignored name together with all below it as one. */
  lemma RemovedCount(m: Mirror, files: map<Path, RemoteEntry>, known: map<Path, FileEntry>, objects: ObjectMap, t: Tree)
    requires WellFormed(t)
    ensures PullCountsOf(m, files, known, objects, t).removed == |set p | p in t && p !in CleanedBelow(m, t, []) && !BelowIgnored(p)|
  {
    forall p | p in t ensures p in StruckBelow(m, t, []) <==> p !in CleanedBelow(m, t, []) && !BelowIgnored(p) {
      if !Alive(m, t, [], p) {
        DeadIsCounted(m, t, p);
      }
    }
    assert StruckBelow(m, t, []) == set p | p in t && p !in CleanedBelow(m, t, []) && !BelowIgnored(p);
  }
}
