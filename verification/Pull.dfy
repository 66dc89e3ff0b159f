/** Pulling a prefix into a local directory, object by object
    (`syncRemotePrefixToLocal` in object-storage-remote-to-local.ts). */
module Pull {
  import opened Orders
  import opened Options
  import opened Paths
  import opened Storage
  import opened Manifest
  import opened LocalTree
  import opened Push
  import opened PushRun
  import opened Cleaning

  // ---- what the remote holds --------------------------------------------------------------------------------

  /** Files by path, and the directories that have a marker of their own. */
  datatype RemoteSet = RemoteSet(files: map<Path, RemoteEntry>, markers: set<Path>)

  /** The listed keys the pull looks at have paths a file system can hold. */
  ghost predicate ProperKeys(prefix: string, exclude: Filter, listing: Listing) {
    forall k :: k in listing && Managed(prefix, exclude, k) ==> ValidPath(KeyPath(prefix, k).value)
  }

  /** One turn of the loop over the entries. */
  function AddEntry(prefix: string, exclude: Filter, r: RemoteSet, e: RemoteEntry): RemoteSet
    requires Managed(prefix, exclude, e.key) ==> ValidPath(KeyPath(prefix, e.key).value)
  {
    if !Managed(prefix, exclude, e.key) || KeyPath(prefix, e.key).value == [] then r
    else
      var p: Path := KeyPath(prefix, e.key).value;
      if IsMarker(e.key) then r.(markers := r.markers + {p}) else r.(files := r.files[p := e])
  }

  ghost function Gathered(prefix: string, exclude: Filter, keys: seq<string>, listing: Listing): RemoteSet
    requires ProperKeys(prefix, exclude, listing)
    requires forall k :: k in keys ==> k in listing && listing[k].key == k
  {
    if keys == [] then RemoteSet(map[], {})
    else AddEntry(prefix, exclude, Gathered(prefix, exclude, keys[..|keys| - 1], listing), listing[keys[|keys| - 1]])
  }

  ghost predicate OwnKeys(listing: Listing) {
    forall k :: k in listing ==> listing[k].key == k
  }

  ghost function RemoteOf(cfg: SyncConfig, prefix: string, exclude: Filter, listing: Listing): RemoteSet
    requires cfg.Valid() && ProperKeys(prefix, exclude, listing) && OwnKeys(listing)
  {
    SortedListing(cfg, listing);
    Gathered(prefix, exclude, Sorted(cfg.keyLess, listing.Keys), listing)
  }

  /** `p` and every directory above it. */
  function WithParents(p: Path): set<Path> {
    set i | 0 < i <= |p| :: p[..i]
  }

  function Parent(p: Path): Path {
    if p == [] then [] else p[..|p| - 1]
  }

  function MarkerDirs(markers: set<Path>): set<Path> {
    set d, i | d in markers && 0 < i <= |d| :: d[..i]
  }

  function FileDirs(files: set<Path>): set<Path> {
    set f, i | f in files && 0 < i < |f| :: f[..i]
  }

  /** All directories the pull creates: those with a marker, those that hold a file, and their parents. */
  function DirsOf(r: RemoteSet): set<Path> {
    MarkerDirs(r.markers) + FileDirs(r.files.Keys)
  }

  /** No path is wanted both as a file and as a directory. */
  ghost predicate TreeConsistent(r: RemoteSet) {
    r.files.Keys !! DirsOf(r)
  }

  lemma AddParents(r: RemoteSet, p: Path, e: RemoteEntry)
    requires p != []
    ensures DirsOf(r.(markers := r.markers + {p})) == DirsOf(r) + WithParents(p)
    ensures DirsOf(r.(files := r.files[p := e])) == DirsOf(r) + WithParents(Parent(p))
  {
    AddMarkerDir(r.markers, p);
    AddFileDir(r.files.Keys, p);
    assert r.files[p := e].Keys == r.files.Keys + {p};
  }

  lemma AddMarkerDir(markers: set<Path>, p: Path)
    ensures MarkerDirs(markers + {p}) == MarkerDirs(markers) + WithParents(p)
  {
    forall x ensures x in MarkerDirs(markers + {p}) <==> x in MarkerDirs(markers) + WithParents(p) {
      if x in MarkerDirs(markers + {p}) {
        var d, i :| d in markers + {p} && 0 < i <= |d| && d[..i] == x;
      }
      if x in WithParents(p) {
        assert p in markers + {p};
      }
    }
  }

  lemma AddFileDir(files: set<Path>, p: Path)
    requires p != []
    ensures FileDirs(files + {p}) == FileDirs(files) + WithParents(Parent(p))
  {
    var a := Parent(p);
    forall x ensures x in FileDirs(files + {p}) <==> x in FileDirs(files) + WithParents(a) {
      if x in FileDirs(files + {p}) {
        var f, i :| f in files + {p} && 0 < i < |f| && f[..i] == x;
        if f == p { assert a[..i] == x; }
      }
      if x in WithParents(a) {
        var i :| 0 < i <= |a| && a[..i] == x;
        assert p in files + {p} && p[..i] == x;
      }
    }
  }

  /** `addDirectoryWithParents`. */
  method AddDirectoryWithParents(p: Path, dirs0: set<Path>) returns (dirs: set<Path>)
    ensures dirs == dirs0 + WithParents(p)
  {
    dirs := dirs0;
    var index := 0;
    while index < |p|
      invariant 0 <= index <= |p|
      invariant dirs == dirs0 + set i | 0 < i <= index :: p[..i]
    {
      dirs := dirs + {p[..index + 1]};
      index := index + 1;
    }
  }

  /** The loop over the remote entries. */
  method GatherRemote(cfg: SyncConfig, prefix: string, exclude: Filter, listing: Listing) returns (r: RemoteSet, dirs: set<Path>)
    requires cfg.Valid() && ProperKeys(prefix, exclude, listing) && OwnKeys(listing)
    ensures r == RemoteOf(cfg, prefix, exclude, listing) && dirs == DirsOf(r)
  {
    SortedListing(cfg, listing);
    var keys := Sort(cfg.keyLess, listing.Keys);
    r, dirs := RemoteSet(map[], {}), {};
    var i := 0;
    assert keys[..0] == [];
    while i < |keys|
      invariant 0 <= i <= |keys|
      invariant r == Gathered(prefix, exclude, keys[..i], listing) && dirs == DirsOf(r)
    {
      assert keys[..i + 1][..i] == keys[..i];
      r, dirs := GatherOne(prefix, exclude, listing[keys[i]], r, dirs);
      i := i + 1;
    }
    assert keys[..i] == keys;
  }

  method GatherOne(prefix: string, exclude: Filter, entry: RemoteEntry, r0: RemoteSet, dirs0: set<Path>) returns (r: RemoteSet, dirs: set<Path>)
    requires Managed(prefix, exclude, entry.key) ==> ValidPath(KeyPath(prefix, entry.key).value)
    requires dirs0 == DirsOf(r0)
    ensures r == AddEntry(prefix, exclude, r0, entry) && dirs == DirsOf(r)
  {
    r, dirs := r0, dirs0;
    if !Managed(prefix, exclude, entry.key) {
      return;
    }
    var p: Path := KeyPath(prefix, entry.key).value;
    if p == [] {
      return;
    }
    AddParents(r0, p, entry);
    if IsMarker(entry.key) {
      dirs := AddDirectoryWithParents(p, dirs);
      r := r.(markers := r.markers + {p});
      return;
    }
    r := r.(files := r.files[p := entry]);
    dirs := AddDirectoryWithParents(Parent(p), dirs);
  }

  // ---- directories ------------------------------------------------------------------------------------------------

  function WithDirs(t: Tree, dirs: set<Path>): Tree {
    t + map d | d in dirs :: Dir
  }

  /** Directories of the remote that are not there yet. */
  function MissingDirs(t: Tree, dirs: set<Path>): set<Path> {
    set d | d in dirs && !(d in t && t[d] == Dir)
  }

  ghost predicate ParentClosed(dirs: set<Path>) {
    forall d, i :: d in dirs && 0 < i < |d| ==> d[..i] in dirs
  }

  lemma DirsAreParentClosed(r: RemoteSet)
    ensures ParentClosed(DirsOf(r))
    ensures forall f, i :: f in r.files && 0 < i < |f| ==> f[..i] in DirsOf(r)
    ensures [] !in DirsOf(r)
  {
    forall d, i | d in DirsOf(r) && 0 < i < |d| ensures d[..i] in DirsOf(r) {
      if d in MarkerDirs(r.markers) {
        var e, j :| e in r.markers && 0 < j <= |e| && e[..j] == d;
        assert d[..i] == e[..i];
      } else {
        var f, j :| f in r.files.Keys && 0 < j < |f| && f[..j] == d;
        assert d[..i] == f[..i];
      }
    }
  }

  /** The directory-creating loop. Parents come before children; the order does not matter to the result. */
  method CreateDirectories(dir: LocalDirectory, dirs: set<Path>) returns (created: nat)
    modifies dir
    ensures dir.tree == WithDirs(old(dir.tree), dirs)
    ensures created == |MissingDirs(old(dir.tree), dirs)|
  {
    ghost var t, done := dir.tree, {};
    created := 0;
    var todo := dirs;
    assert WithDirs(t, {}) == t;
    while todo != {}
      invariant todo + done == dirs && todo !! done
      invariant dir.tree == WithDirs(t, done)
      invariant created == |MissingDirs(t, done)|
      decreases todo
    {
      var d :| d in todo;
      created := CreateDirectory(dir, d, created, t, done);
      done := done + {d};
      todo := todo - {d};
    }
    assert done == dirs;
  }

  /** One directory, replacing a file in the way. */
  method CreateDirectory(dir: LocalDirectory, d: Path, created0: nat, ghost t: Tree, ghost done: set<Path>) returns (created: nat)
    requires d !in done && dir.tree == WithDirs(t, done) && created0 == |MissingDirs(t, done)|
    modifies dir
    ensures dir.tree == WithDirs(t, done + {d}) && created == |MissingDirs(t, done + {d})|
  {
    DirStep(t, done, d);
    created := if d in dir.tree && dir.tree[d] == Dir then created0 else created0 + 1;
    dir.tree := dir.tree[d := Dir];
  }

  lemma DirStep(t: Tree, done: set<Path>, d: Path)
    requires d !in done
    ensures WithDirs(t, done + {d}) == WithDirs(t, done)[d := Dir]
    ensures MissingDirs(t, done + {d}) == MissingDirs(t, done) + if d in t && t[d] == Dir then {} else {d}
    ensures d !in MissingDirs(t, done)
    ensures d in WithDirs(t, done) && WithDirs(t, done)[d] == Dir <==> d in t && t[d] == Dir
  {
  }

  // ---- files ---------------------------------------------------------------------------------------------------------

  function Content(body: Body): seq<byte> {
    match body case Bytes(data) => data case Document(_) => []
  }

  function Abs(r: real): real {
    if r < 0.0 then -r else r
  }

  /** `isMaterializedMtimeMatch`. */
  predicate MtimeMatches(current: real, target: int) {
    Abs(current - target as real) < 1.0
  }

  predicate ManifestMatches(known: map<Path, FileEntry>, p: Path, e: RemoteEntry, f: FileData) {
    p in known && known[p].size == e.size && MtimeMatches(f.mtimeMs, known[p].mtimeMs)
  }

  /** The local file is taken to be the remote one. */
  predicate Settled(objects: ObjectMap, known: map<Path, FileEntry>, p: Path, e: RemoteEntry, t: Tree) {
    && p in t && t[p].File? && |t[p].file.data| == e.size
    && (|| ManifestMatches(known, p, e, t[p].file)
        || (e.key in objects && MtimeMatches(t[p].file.mtimeMs, ResolvedMtime(objects[e.key]))))
  }

  /** The time a downloaded file gets. */
  function FetchedMtime(o: StoredObject, e: RemoteEntry, now: int): int {
    match o.mtimeMs
    case Some(m) => m
    case None => match e.lastModified case Some(m) => m case None => now
  }

  function Fetched(o: StoredObject, e: RemoteEntry, now: int): FileData {
    FileData(Content(o.body), FetchedMtime(o, e, now) as real)
  }

  /** The file at `p` after its turn. */
  function Materialized(objects: ObjectMap, known: map<Path, FileEntry>, p: Path, e: RemoteEntry, t: Tree, now: int): FileData
    requires e.key in objects || Settled(objects, known, p, e, t)
  {
    if Settled(objects, known, p, e, t) then t[p].file else Fetched(objects[e.key], e, now)
  }

  predicate Obtainable(objects: ObjectMap, known: map<Path, FileEntry>, p: Path, e: RemoteEntry, t: Tree) {
    e.key in objects || Settled(objects, known, p, e, t)
  }

  /** Every object asked about or downloaded is there. */
  ghost predicate AllObtainable(objects: ObjectMap, known: map<Path, FileEntry>, files: map<Path, RemoteEntry>, t: Tree) {
    forall p :: p in files ==> Obtainable(objects, known, p, files[p], t)
  }

  ghost function Downloads(objects: ObjectMap, known: map<Path, FileEntry>, files: map<Path, RemoteEntry>, t: Tree): set<Path> {
    set p | p in files && !Settled(objects, known, p, files[p], t)
  }

  /** The files as they stand after the downloads. */
  ghost function Arrived(objects: ObjectMap, known: map<Path, FileEntry>, files: map<Path, RemoteEntry>, t: Tree, now: int): map<Path, FileData> {
    map p | p in files && Obtainable(objects, known, p, files[p], t) :: Materialized(objects, known, p, files[p], t, now)
  }

  ghost predicate Covered(paths: set<Path>, p: Path) {
    exists f :: f in paths && AtOrUnder(f, p)
  }

  /** A tree with these files put in place; a directory in the way goes with all it holds. */
  ghost function WithFiles(t: Tree, files: map<Path, FileData>): Tree {
    (map p | p in t && !Covered(files.Keys, p) :: t[p]) + (map p | p in files :: File(files[p]))
  }

  function PutFile(t: Tree, p: Path, f: FileData): Tree {
    RemoveSubtree(t, p)[p := File(f)]
  }

  ghost predicate Antichain(paths: set<Path>) {
    forall p, q :: p in paths && q in paths ==> !Under(p, q)
  }

  lemma CoveredStep(paths: set<Path>, p: Path, q: Path)
    ensures Covered(paths + {p}, q) <==> Covered(paths, q) || AtOrUnder(p, q)
  {
    if AtOrUnder(p, q) { assert p in paths + {p}; }
    if Covered(paths, q) {
      var g :| g in paths && AtOrUnder(g, q);
      assert g in paths + {p};
    }
  }

  lemma InWithFiles(t: Tree, files: map<Path, FileData>, q: Path)
    ensures q in WithFiles(t, files) <==> q in files || (q in t && !Covered(files.Keys, q))
    ensures q in files ==> WithFiles(t, files)[q] == File(files[q])
    ensures q !in files && q in WithFiles(t, files) ==> WithFiles(t, files)[q] == t[q]
  {
  }

  lemma WithFilesStep(t: Tree, files: map<Path, FileData>, p: Path, f: FileData)
    requires p !in files && Antichain(files.Keys + {p})
    ensures WithFiles(t, files[p := f]) == PutFile(WithFiles(t, files), p, f)
  {
    var u, v := WithFiles(t, files), WithFiles(t, files[p := f]);
    var w := PutFile(u, p, f);
    assert files[p := f].Keys == files.Keys + {p};
    forall q: Path ensures q in v <==> q in w ensures q in v && q in w ==> v[q] == w[q] {
      CoveredStep(files.Keys, p, q);
      InWithFiles(t, files, q);
      InWithFiles(t, files[p := f], q);
      assert q in files ==> q in files.Keys + {p} && p in files.Keys + {p};
    }
  }

  /** The entry at `p` is not touched while other files arrive. */
  lemma EntryUntouched(t: Tree, files: map<Path, FileData>, p: Path)
    requires p !in files && Antichain(files.Keys + {p})
    ensures var u := WithFiles(t, files); (p in u <==> p in t) && (p in t ==> u[p] == t[p])
  {
    assert p in files.Keys + {p};
    forall f | f in files.Keys ensures !AtOrUnder(f, p) {
      assert f in files.Keys + {p};
    }
  }

  lemma FileHasNothingUnder(t: Tree, p: Path, q: Path)
    requires WellFormed(t) && p in t && t[p].File? && q in t
    ensures !Under(p, q)
  {
    assert 0 < |p|;
    assert |p| < |q| ==> q[..|p|] in t && t[q[..|p|]] == Dir;
  }

  /** A settled file stays as it is. */
  lemma SettledStep(t: Tree, files: map<Path, FileData>, p: Path)
    requires WellFormed(t) && p !in files && Antichain(files.Keys + {p}) && p in t && t[p].File?
    ensures WithFiles(t, files[p := t[p].file]) == WithFiles(t, files)
  {
    EntryUntouched(t, files, p);
    WithFilesStep(t, files, p, t[p].file);
    var u := WithFiles(t, files);
    forall q | q in u ensures !Under(p, q) {
      if q in files {
        assert q in files.Keys + {p} && p in files.Keys + {p};
      } else {
        FileHasNothingUnder(t, p, q);
      }
    }
  }

  ghost function Part(files: map<Path, RemoteEntry>, todo: set<Path>): map<Path, RemoteEntry> {
    files - todo
  }

  lemma ArrivedStep(objects: ObjectMap, known: map<Path, FileEntry>, files: map<Path, RemoteEntry>, t: Tree, now: int, todo: set<Path>, p: Path)
    requires p in todo && todo <= files.Keys && Obtainable(objects, known, p, files[p], t)
    ensures p !in Arrived(objects, known, Part(files, todo), t, now)
    ensures Arrived(objects, known, Part(files, todo - {p}), t, now)
         == Arrived(objects, known, Part(files, todo), t, now)[p := Materialized(objects, known, p, files[p], t, now)]
    ensures Downloads(objects, known, Part(files, todo - {p}), t)
         == Downloads(objects, known, Part(files, todo), t) + if Settled(objects, known, p, files[p], t) then {} else {p}
    ensures p !in Downloads(objects, known, Part(files, todo), t)
  {
  }

  lemma PartEnds(objects: ObjectMap, known: map<Path, FileEntry>, files: map<Path, RemoteEntry>, t: Tree, now: int)
    ensures Arrived(objects, known, Part(files, files.Keys), t, now) == map[]
    ensures Downloads(objects, known, Part(files, files.Keys), t) == {}
    ensures WithFiles(t, map[]) == t
    ensures Part(files, {}) == files
  {
  }

  lemma StampsStep(files: map<Path, FileData>, p: Path, f: FileData)
    ensures Stamps(files[p := f]) == Stamps(files)[p := StampOf(f)]
  {
  }

  lemma PartAntichain(objects: ObjectMap, known: map<Path, FileEntry>, files: map<Path, RemoteEntry>, t: Tree, now: int, todo: set<Path>, p: Path)
    requires p in todo && todo <= files.Keys && Antichain(files.Keys)
    ensures Antichain(Arrived(objects, known, Part(files, todo), t, now).Keys + {p})
  {
  }

  /** `syncRemoteFile`: `None` when the service does not know the object. The parent directories are
      there already. */
  method SyncRemoteFile(store: ObjectStore, known: map<Path, FileEntry>, p: Path, e: RemoteEntry, dir: LocalDirectory, now: int)
      returns (sent: Option<(bool, FileEntry)>)
    modifies dir
    ensures sent.None? <==> !Obtainable(store.objects, known, p, e, old(dir.tree))
    ensures sent.Some? ==>
      && sent.value == (!Settled(store.objects, known, p, e, old(dir.tree)), StampOf(Materialized(store.objects, known, p, e, old(dir.tree), now)))
      && dir.tree == if Settled(store.objects, known, p, e, old(dir.tree)) then old(dir.tree)
                     else PutFile(old(dir.tree), p, Materialized(store.objects, known, p, e, old(dir.tree), now))
  {
    if p in dir.tree && dir.tree[p].File? && |dir.tree[p].file.data| == e.size {
      var current := dir.tree[p].file;
      if p in known && known[p].size == e.size && MtimeMatches(current.mtimeMs, known[p].mtimeMs) {
        return Some((false, FileEntry(e.size, Trunc(current.mtimeMs))));
      }
      if e.key !in store.objects {
        return None;
      }
      if MtimeMatches(current.mtimeMs, ResolvedMtime(store.objects[e.key])) {
        return Some((false, FileEntry(e.size, Trunc(current.mtimeMs))));
      }
    }
    if e.key !in store.objects {
      return None;
    }
    var o := store.objects[e.key];
    var file := FileData(Content(o.body), FetchedMtime(o, e, now) as real);
    dir.tree := RemoveSubtree(dir.tree, p);
    dir.tree := dir.tree[p := File(file)];
    return Some((true, FileEntry(|file.data|, Trunc(file.mtimeMs))));
  }

  method SyncRemoteFiles(store: ObjectStore, known: map<Path, FileEntry>, files: map<Path, RemoteEntry>, dir: LocalDirectory, now: int)
      returns (ok: bool, downloaded: nat, stamps: map<Path, FileEntry>)
    requires WellFormed(dir.tree) && Antichain(files.Keys)
    modifies dir
    ensures ok <==> AllObtainable(store.objects, known, files, old(dir.tree))
    ensures ok ==>
      && dir.tree == WithFiles(old(dir.tree), Arrived(store.objects, known, files, old(dir.tree), now))
      && downloaded == |Downloads(store.objects, known, files, old(dir.tree))|
      && stamps == Stamps(Arrived(store.objects, known, files, old(dir.tree), now))
  {
    ghost var t := dir.tree;
    downloaded, stamps := 0, map[];
    var todo := files.Keys;
    PartEnds(store.objects, known, files, t, now);
    while todo != {}
      invariant todo <= files.Keys
      invariant dir.tree == WithFiles(t, Arrived(store.objects, known, Part(files, todo), t, now))
      invariant downloaded == |Downloads(store.objects, known, Part(files, todo), t)|
      invariant stamps == Stamps(Arrived(store.objects, known, Part(files, todo), t, now))
      invariant forall p :: p in files && p !in todo ==> Obtainable(store.objects, known, p, files[p], t)
      decreases todo
    {
      var p :| p in todo;
      ghost var part := Arrived(store.objects, known, Part(files, todo), t, now);
      PartAntichain(store.objects, known, files, t, now, todo, p);
      NotArrivedYet(store.objects, known, files, t, now, todo, p);
      EntryUntouched(t, part, p);
      var sent := SyncRemoteFile(store, known, p, files[p], dir, now);
      if sent.None? {
        return false, downloaded, stamps;
      }
      ArrivedStep(store.objects, known, files, t, now, todo, p);
      NextTree(store.objects, known, files[p], t, part, p, now);
      StampsStep(part, p, Materialized(store.objects, known, p, files[p], t, now));
      stamps := stamps[p := sent.value.1];
      if sent.value.0 {
        downloaded := downloaded + 1;
      }
      todo := todo - {p};
    }
    return true, downloaded, stamps;
  }

  lemma NotArrivedYet(objects: ObjectMap, known: map<Path, FileEntry>, files: map<Path, RemoteEntry>, t: Tree, now: int, todo: set<Path>, p: Path)
    requires p in todo
    ensures p !in Arrived(objects, known, Part(files, todo), t, now)
  {
  }

  lemma NextTree(objects: ObjectMap, known: map<Path, FileEntry>, e: RemoteEntry, t: Tree, part: map<Path, FileData>, p: Path, now: int)
    requires WellFormed(t) && p !in part && Antichain(part.Keys + {p}) && Obtainable(objects, known, p, e, t)
    ensures var f := Materialized(objects, known, p, e, t, now);
      WithFiles(t, part[p := f]) == if Settled(objects, known, p, e, t) then WithFiles(t, part) else PutFile(WithFiles(t, part), p, f)
  {
    if Settled(objects, known, p, e, t) {
      SettledStep(t, part, p);
    } else {
      WithFilesStep(t, part, p, Fetched(objects[e.key], e, now));
    }
  }
}
