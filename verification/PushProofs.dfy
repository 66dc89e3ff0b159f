/** The manifest as an index: what every push keeps, and exactly when the index stays true. */
module PushProofs {
  import opened Orders
  import opened Options
  import opened Paths
  import opened Storage
  import opened Manifest
  import opened ManifestProofs
  import opened LocalTree
  import opened Push
  import opened PushRun

  // ---- scans ----------------------------------------------------------------------------------------

  predicate Clean(exclude: Filter, p: Path) {
    p != [] && !Ignored(p) && !exclude(p)
  }

  ghost predicate GoodPaths(exclude: Filter, files: set<Path>, dirs: set<Path>) {
    && (forall p :: p in files || p in dirs ==> Clean(exclude, p))
    && files !! dirs
  }

  lemma ScanIsGood(t: Tree, exclude: Filter)
    ensures var s := Scan(t, exclude); GoodPaths(exclude, s.files.Keys, s.emptyDirectories)
  {
    var s := Scan(t, exclude);
    forall p | p in s.files || p in s.emptyDirectories ensures Clean(exclude, p) {
      assert p[..|p|] == p;
      assert !Suppressed(exclude, p[..|p|]);
    }
  }

  predicate AllStamped(files: map<Path, FileData>) {
    forall p :: p in files ==> Trunc(files[p].mtimeMs) > 0
  }

  /** No path turns from a file into an empty directory or back. */
  predicate NoSwap(files0: set<Path>, dirs0: set<Path>, s: Snapshot) {
    files0 !! s.emptyDirectories && dirs0 !! s.files.Keys
  }

  predicate ValidPrefix(prefix: string) {
    Normalize(prefix) == prefix
  }

  // ---- the invariant -----------------------------------------------------------------------------------

  /** A key that stands for a user file or directory marker. */
  predicate UserKey(prefix: string, key: string) {
    match KeyPath(prefix, key) case None => false case Some(p) => p != [] && !Ignored(p)
  }

  /** The user objects are exactly these files and markers. */
  ghost predicate ExactKeys(prefix: string, objects: ObjectMap, files: set<Path>, dirs: set<Path>) {
    forall k :: k in objects && UserKey(prefix, k) <==> k in FileKeys(prefix, files) || k in DirKeys(prefix, dirs)
  }

  ghost predicate FilesStored(prefix: string, objects: ObjectMap, stamps: map<Path, FileEntry>) {
    forall p :: p in stamps ==>
      && stamps[p].mtimeMs > 0
      && FileKey(prefix, p) in objects
      && BodySize(objects[FileKey(prefix, p)].body) == stamps[p].size
      && objects[FileKey(prefix, p)].mtimeMs == Some(stamps[p].mtimeMs)
  }

  predicate ManifestRecords(manifest: Option<ManifestDoc>, stamps: map<Path, FileEntry>, dirs: set<Path>) {
    match manifest
    case None => stamps == map[] && dirs == {}
    case Some(doc) =>
      && !(stamps == map[] && dirs == {})
      && ValidFiles(doc) == stamps && ListedDirs(doc) == dirs && ModeOf(doc) == ObjectsMode
  }

  /** The prefix holds a directory with these file stamps and empty directories, and its manifest says so. */
  ghost predicate Indexed(prefix: string, exclude: Filter, objects: ObjectMap, stamps: map<Path, FileEntry>, dirs: set<Path>) {
    && GoodPaths(exclude, stamps.Keys, dirs)
    && ExactKeys(prefix, objects, stamps.Keys, dirs)
    && FilesStored(prefix, objects, stamps)
    && (forall k :: k in objects ==> KeyPath(prefix, k) != Some([]))
    && Tidy(prefix, objects)
    && ManifestRecords(Load(objects, prefix), stamps, dirs)
  }

  lemma EmptyPrefixIsIndexed(prefix: string, exclude: Filter, objects: ObjectMap)
    requires forall k :: k in objects ==> KeyPath(prefix, k) == None
    ensures Indexed(prefix, exclude, objects, map[], {})
  {
    EmptyPrefixIsTidy(prefix, objects);
    EmptyKeySets(prefix);
    var none: map<Path, FileEntry> := map[];
    assert none.Keys == {};
  }

  lemma EmptyKeySets(prefix: string)
    ensures FileKeys(prefix, {}) == {} && DirKeys(prefix, {}) == {}
  {
  }

  lemma EmptyPrefixIsTidy(prefix: string, objects: ObjectMap)
    requires forall k :: k in objects ==> KeyPath(prefix, k) == None
    ensures Tidy(prefix, objects) && Load(objects, prefix) == None
  {
    NoManifest(prefix, objects);
    forall k | k in objects ensures !IsShardKey(prefix, k) {
    }
  }

  lemma NoManifest(prefix: string, objects: ObjectMap)
    requires forall k :: k in objects ==> KeyPath(prefix, k) == None
    ensures ManifestKey(prefix) !in objects && Load(objects, prefix) == None
  {
    ReservedKeys(prefix, 0);
  }

  // ---- what a push observes ------------------------------------------------------------------------------

  /** The managed keys of the listing are these files and markers, with these sizes. */
  ghost predicate ListingFor(prefix: string, exclude: Filter, listing: Listing, stamps: map<Path, FileEntry>, dirs: set<Path>) {
    && (forall k :: k in listing && Managed(prefix, exclude, k) <==> k in FileKeys(prefix, stamps.Keys) || k in DirKeys(prefix, dirs))
    && (forall k :: k in listing ==> listing[k].key == k)
    && (forall p :: p in stamps && FileKey(prefix, p) in listing ==> listing[FileKey(prefix, p)].size == stamps[p].size)
  }

  ghost predicate IndexFor(prefix: string, index: Index, stamps: map<Path, FileEntry>, dirs: set<Path>) {
    && (forall p :: p in index <==> p in stamps || p in dirs)
    && (forall p :: p in stamps ==> index[p].key == FileKey(prefix, p) && index[p].size == stamps[p].size)
    && (forall d :: d in dirs ==> index[d].key == DirKey(prefix, d))
  }

  lemma KeyOfPath(prefix: string, files: set<Path>, dirs: set<Path>, k: string)
    requires [] !in files && [] !in dirs
    requires k in FileKeys(prefix, files) || k in DirKeys(prefix, dirs)
    ensures KeyPath(prefix, k).Some?
    ensures var p := KeyPath(prefix, k).value;
      || (p in files && k == FileKey(prefix, p))
      || (p in dirs && k == DirKey(prefix, p))
  {
    if k in FileKeys(prefix, files) {
      var p :| p in files && FileKey(prefix, p) == k;
      KeyRoundTrip(prefix, p);
    } else {
      var d :| d in dirs && DirKey(prefix, d) == k;
      KeyRoundTrip(prefix, d);
    }
  }

  lemma ListingGivesIndex(cfg: SyncConfig, prefix: string, exclude: Filter, listing: Listing, stamps: map<Path, FileEntry>, dirs: set<Path>)
    requires cfg.Valid() && GoodPaths(exclude, stamps.Keys, dirs)
    requires ListingFor(prefix, exclude, listing, stamps, dirs)
    ensures IndexFor(prefix, IndexListing(cfg, prefix, exclude, listing), stamps, dirs)
  {
    forall j, k | j in listing && k in listing && Managed(prefix, exclude, j) && Managed(prefix, exclude, k)
        && KeyPath(prefix, j) == KeyPath(prefix, k)
      ensures j == k
    {
      KeyOfPath(prefix, stamps.Keys, dirs, j);
      KeyOfPath(prefix, stamps.Keys, dirs, k);
    }
    SortedListing(cfg, listing);
    var keys := Sorted(cfg.keyLess, listing.Keys);
    IndexOfDistinct(prefix, exclude, keys, listing);
    var index := IndexListing(cfg, prefix, exclude, listing);
    forall p | p in index ensures p in stamps || p in dirs {
      assert Represented(prefix, exclude, keys, p);
      var k :| k in keys && Managed(prefix, exclude, k) && KeyPath(prefix, k) == Some(p);
      KeyOfPath(prefix, stamps.Keys, dirs, k);
    }
    forall p | p in stamps ensures p in index && index[p].key == FileKey(prefix, p) && index[p].size == stamps[p].size {
      KeyRoundTrip(prefix, p);
      assert FileKey(prefix, p) in FileKeys(prefix, stamps.Keys);
    }
    forall d | d in dirs ensures d in index && index[d].key == DirKey(prefix, d) {
      KeyRoundTrip(prefix, d);
      assert DirKey(prefix, d) in DirKeys(prefix, dirs);
    }
  }

  lemma SyntheticListingFor(prefix: string, exclude: Filter, doc: ManifestDoc, stamps: map<Path, FileEntry>, dirs: set<Path>)
    requires GoodPaths(exclude, stamps.Keys, dirs)
    requires ValidFiles(doc) == stamps && ListedDirs(doc) == dirs
    ensures Synthetic(prefix, doc, exclude).Keys == FileKeys(prefix, stamps.Keys) + DirKeys(prefix, dirs)
    ensures ListingFor(prefix, exclude, Synthetic(prefix, doc, exclude), stamps, dirs)
  {
    assert SyntheticFiles(doc, exclude) == stamps.Keys;
    assert SyntheticDirs(doc, exclude) == dirs;
    var listing := Synthetic(prefix, doc, exclude);
    forall k | k in listing ensures Managed(prefix, exclude, k) && listing[k].key == k {
      KeyOfPath(prefix, stamps.Keys, dirs, k);
    }
    forall p | p in stamps ensures listing[FileKey(prefix, p)].size == stamps[p].size {
      KeyRoundTrip(prefix, p);
      assert FileKey(prefix, p) in FileKeys(prefix, stamps.Keys);
      assert p in doc.files && doc.files[p] == stamps[p];
    }
  }

  lemma RealListingFor(prefix: string, exclude: Filter, objects: ObjectMap, stamps: map<Path, FileEntry>, dirs: set<Path>)
    requires ValidPrefix(prefix) && Indexed(prefix, exclude, objects, stamps, dirs)
    ensures ListingFor(prefix, exclude, ListPrefix(objects, prefix), stamps, dirs)
  {
    var listing := ListPrefix(objects, prefix);
    forall k ensures k in listing && Managed(prefix, exclude, k) <==> k in FileKeys(prefix, stamps.Keys) || k in DirKeys(prefix, dirs) {
      if k in FileKeys(prefix, stamps.Keys) || k in DirKeys(prefix, dirs) {
        KeyOfPath(prefix, stamps.Keys, dirs, k);
        KeyRoundTrip(prefix, KeyPath(prefix, k).value);
      }
    }
  }

  lemma ObservedIndex(cfg: SyncConfig, paged: bool, prefix: string, exclude: Filter, objects: ObjectMap, stamps: map<Path, FileEntry>, dirs: set<Path>)
    requires cfg.Valid() && ValidPrefix(prefix) && Indexed(prefix, exclude, objects, stamps, dirs)
    ensures var remote := Observe(cfg, paged, prefix, exclude, objects);
      && IndexFor(prefix, remote.index, stamps, dirs)
      && remote.manifest == Load(objects, prefix)
      && Known(remote) == stamps
  {
    ReservedKeys(prefix, 0);
    var first := if paged then Load(objects, prefix) else None;
    if first.Some? {
      SyntheticListingFor(prefix, exclude, first.value, stamps, dirs);
      ListingGivesIndex(cfg, prefix, exclude, Synthetic(prefix, first.value, exclude), stamps, dirs);
    } else {
      RealListingFor(prefix, exclude, objects, stamps, dirs);
      ListingGivesIndex(cfg, prefix, exclude, ListPrefix(objects, prefix), stamps, dirs);
    }
  }

  // ---- the plan on an indexed prefix ------------------------------------------------------------------------

  predicate Stale(stamps: map<Path, FileEntry>, p: Path, f: FileData) {
    !(p in stamps && stamps[p] == StampOf(f))
  }

  /** A file goes up exactly when its stamp is not the recorded one. */
  lemma UploadDecision(prefix: string, exclude: Filter, objects: ObjectMap, remote: Remote, stamps: map<Path, FileEntry>, dirs: set<Path>,
                       p: Path, f: FileData)
    requires Indexed(prefix, exclude, objects, stamps, dirs) && p != []
    requires IndexFor(prefix, remote.index, stamps, dirs) && Known(remote) == stamps
    ensures NeedsHead(remote, p, f) ==> remote.index[p].key in objects
    ensures NeedsUpload(objects, remote, p, f) <==> Stale(stamps, p, f)
  {
    KeyRoundTrip(prefix, p);
    if p in stamps {
      assert remote.index[p].key == FileKey(prefix, p);
    } else if p in dirs {
      assert remote.index[p].key == DirKey(prefix, p);
    }
  }

  /** Markers and deletions are the differences between the record and the scan. */
  lemma DirectoryPlan(prefix: string, exclude: Filter, remote: Remote, stamps: map<Path, FileEntry>, dirs: set<Path>, s: Snapshot)
    requires GoodPaths(exclude, stamps.Keys, dirs) && IndexFor(prefix, remote.index, stamps, dirs)
    ensures NewMarkers(remote, s.emptyDirectories) == s.emptyDirectories - dirs
    ensures Gone(remote, s) == (stamps.Keys + dirs) - s.files.Keys - s.emptyDirectories
  {
    forall p | p in stamps || p in dirs
      ensures p in stamps ==> !IsMarker(FileKey(prefix, p))
      ensures p in dirs ==> IsMarker(DirKey(prefix, p))
    {
      KeyRoundTrip(prefix, p);
    }
  }

  lemma PlanOnIndexed(prefix: string, exclude: Filter, objects: ObjectMap, remote: Remote, stamps: map<Path, FileEntry>, dirs: set<Path>, s: Snapshot)
    requires Indexed(prefix, exclude, objects, stamps, dirs)
    requires IndexFor(prefix, remote.index, stamps, dirs) && Known(remote) == stamps
    requires [] !in s.files
    ensures HeadsSucceed(objects, remote, s.files)
    ensures Uploads(objects, remote, s.files) == set p | p in s.files && Stale(stamps, p, s.files[p])
  {
    forall p | p in s.files
      ensures NeedsHead(remote, p, s.files[p]) ==> remote.index[p].key in objects
      ensures NeedsUpload(objects, remote, p, s.files[p]) <==> Stale(stamps, p, s.files[p])
    {
      UploadDecision(prefix, exclude, objects, remote, stamps, dirs, p, s.files[p]);
    }
  }
}
