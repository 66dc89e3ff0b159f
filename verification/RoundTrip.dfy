/** Pushing and pulling together: a pull of a prefix that holds a directory gives that directory back. */
module RoundTrip {
  import opened Orders
  import opened Options
  import opened Paths
  import opened Storage
  import opened Manifest
  import opened LocalTree
  import opened Fingerprints
  import opened Push
  import opened PushProofs
  import opened IndexProofs
  import opened IndexTheorems
  import opened SyncRuns
  import opened Cleaning
  import opened Pull
  import opened PullRun
  import opened PullProofs

  // ---- what the pull reads from an indexed prefix ---------------------------------------------------------------

  lemma {:induction false} GatheredComplete(prefix: string, exclude: Filter, keys: seq<string>, listing: Listing, k: string)
    requires ProperKeys(prefix, exclude, listing) && OwnKeys(listing)
    requires forall j :: j in keys ==> j in listing
    requires k in keys && Managed(prefix, exclude, k) && KeyPath(prefix, k) != Some([])
    ensures var r := Gathered(prefix, exclude, keys, listing); var p := KeyPath(prefix, k).value;
      if IsMarker(k) then p in r.markers else p in r.files
    decreases |keys|
  {
    var init := keys[..|keys| - 1];
    assert keys == init + [keys[|keys| - 1]];
    if k in init {
      GatheredComplete(prefix, exclude, init, listing, k);
    }
  }

  /** The remote set is the recorded directory. */
  ghost predicate RemoteFor(prefix: string, r: RemoteSet, listing: Listing, stamps: map<Path, FileEntry>, dirs: set<Path>) {
    && r.files.Keys == stamps.Keys && r.markers == dirs
    && (forall p :: p in stamps ==>
          && FileKey(prefix, p) in listing && r.files[p] == listing[FileKey(prefix, p)]
          && r.files[p].key == FileKey(prefix, p) && r.files[p].size == stamps[p].size)
  }

  lemma ListingForIsProper(prefix: string, exclude: Filter, listing: Listing, stamps: map<Path, FileEntry>, dirs: set<Path>)
    requires GoodPaths(exclude, stamps.Keys, dirs) && ListingFor(prefix, exclude, listing, stamps, dirs)
    ensures ProperKeys(prefix, exclude, listing) && OwnKeys(listing)
  {
    forall k | k in listing && Managed(prefix, exclude, k) ensures ValidPath(KeyPath(prefix, k).value) {
      KeyOfPath(prefix, stamps.Keys, dirs, k);
    }
  }

  lemma BackedFile(prefix: string, exclude: Filter, keys: seq<string>, listing: Listing, stamps: map<Path, FileEntry>, dirs: set<Path>, p: Path, e: RemoteEntry)
    requires GoodPaths(exclude, stamps.Keys, dirs) && ListingFor(prefix, exclude, listing, stamps, dirs)
    requires FileBacked(prefix, exclude, keys, listing, p, e)
    ensures p in stamps && e.key == FileKey(prefix, p) && e == listing[e.key] && e.size == stamps[p].size
  {
    KeyOfPath(prefix, stamps.Keys, dirs, e.key);
    KeyRoundTrip(prefix, p);
  }

  lemma BackedMarker(prefix: string, exclude: Filter, keys: seq<string>, listing: Listing, stamps: map<Path, FileEntry>, dirs: set<Path>, d: Path)
    requires GoodPaths(exclude, stamps.Keys, dirs) && ListingFor(prefix, exclude, listing, stamps, dirs)
    requires forall k :: k in keys ==> k in listing
    requires MarkerBacked(prefix, exclude, keys, d)
    ensures d in dirs
  {
    var k :| k in keys && Managed(prefix, exclude, k) && IsMarker(k) && KeyPath(prefix, k) == Some(d);
    KeyOfPath(prefix, stamps.Keys, dirs, k);
    KeyRoundTrip(prefix, d);
  }

  lemma ListingGivesRemote(cfg: SyncConfig, prefix: string, exclude: Filter, listing: Listing, stamps: map<Path, FileEntry>, dirs: set<Path>)
    requires cfg.Valid() && GoodPaths(exclude, stamps.Keys, dirs) && ListingFor(prefix, exclude, listing, stamps, dirs)
    requires forall p :: p in stamps ==> FileKey(prefix, p) in listing
    requires forall d :: d in dirs ==> DirKey(prefix, d) in listing
    ensures ProperKeys(prefix, exclude, listing) && OwnKeys(listing)
    ensures RemoteFor(prefix, RemoteOf(cfg, prefix, exclude, listing), listing, stamps, dirs)
  {
    ListingForIsProper(prefix, exclude, listing, stamps, dirs);
    SortedListing(cfg, listing);
    GatheredGivesRemote(prefix, exclude, Sorted(cfg.keyLess, listing.Keys), listing, stamps, dirs);
  }

  lemma GatheredGivesRemote(prefix: string, exclude: Filter, keys: seq<string>, listing: Listing, stamps: map<Path, FileEntry>, dirs: set<Path>)
    requires GoodPaths(exclude, stamps.Keys, dirs) && ListingFor(prefix, exclude, listing, stamps, dirs)
    requires ProperKeys(prefix, exclude, listing) && OwnKeys(listing)
    requires forall k :: k in keys <==> k in listing
    requires forall p :: p in stamps ==> FileKey(prefix, p) in listing
    requires forall d :: d in dirs ==> DirKey(prefix, d) in listing
    ensures RemoteFor(prefix, Gathered(prefix, exclude, keys, listing), listing, stamps, dirs)
  {
    GatheredIsBacked(prefix, exclude, keys, listing, stamps, dirs);
    AllGathered(prefix, exclude, keys, listing, stamps, dirs);
  }

  lemma AllGathered(prefix: string, exclude: Filter, keys: seq<string>, listing: Listing, stamps: map<Path, FileEntry>, dirs: set<Path>)
    requires GoodPaths(exclude, stamps.Keys, dirs)
    requires ProperKeys(prefix, exclude, listing) && OwnKeys(listing)
    requires forall k :: k in keys <==> k in listing
    requires forall p :: p in stamps ==> FileKey(prefix, p) in listing
    requires forall d :: d in dirs ==> DirKey(prefix, d) in listing
    ensures stamps.Keys <= Gathered(prefix, exclude, keys, listing).files.Keys && dirs <= Gathered(prefix, exclude, keys, listing).markers
  {
    forall p | p in stamps ensures p in Gathered(prefix, exclude, keys, listing).files {
      CleanKeyGathered(prefix, exclude, keys, listing, p);
    }
    forall d | d in dirs ensures d in Gathered(prefix, exclude, keys, listing).markers {
      CleanKeyGathered(prefix, exclude, keys, listing, d);
    }
  }

  lemma GatheredIsBacked(prefix: string, exclude: Filter, keys: seq<string>, listing: Listing, stamps: map<Path, FileEntry>, dirs: set<Path>)
    requires GoodPaths(exclude, stamps.Keys, dirs) && ListingFor(prefix, exclude, listing, stamps, dirs)
    requires ProperKeys(prefix, exclude, listing) && OwnKeys(listing)
    requires forall k :: k in keys <==> k in listing
    ensures var r := Gathered(prefix, exclude, keys, listing);
      && (forall p :: p in r.files ==> p in stamps && r.files[p].key == FileKey(prefix, p) && r.files[p] == listing[FileKey(prefix, p)]
                                       && r.files[p].size == stamps[p].size)
      && r.markers <= dirs
  {
    var r := Gathered(prefix, exclude, keys, listing);
    GatheredBacked(prefix, exclude, keys, listing);
    forall p | p in r.files ensures p in stamps && r.files[p].key == FileKey(prefix, p) && r.files[p] == listing[FileKey(prefix, p)] && r.files[p].size == stamps[p].size {
      assert FileBacked(prefix, exclude, keys, listing, p, r.files[p]);
      BackedFile(prefix, exclude, keys, listing, stamps, dirs, p, r.files[p]);
    }
    forall d | d in r.markers ensures d in dirs {
      BackedMarker(prefix, exclude, keys, listing, stamps, dirs, d);
    }
  }

  lemma CleanKeyGathered(prefix: string, exclude: Filter, keys: seq<string>, listing: Listing, p: Path)
    requires ProperKeys(prefix, exclude, listing) && OwnKeys(listing)
    requires forall k :: k in keys <==> k in listing
    requires Clean(exclude, p)
    ensures FileKey(prefix, p) in listing ==> p in Gathered(prefix, exclude, keys, listing).files
    ensures DirKey(prefix, p) in listing ==> p in Gathered(prefix, exclude, keys, listing).markers
  {
    KeyRoundTrip(prefix, p);
    if FileKey(prefix, p) in listing { GatheredComplete(prefix, exclude, keys, listing, FileKey(prefix, p)); }
    if DirKey(prefix, p) in listing { GatheredComplete(prefix, exclude, keys, listing, DirKey(prefix, p)); }
  }

  lemma ManagedKeysListed(prefix: string, exclude: Filter, listing: Listing, stamps: map<Path, FileEntry>, dirs: set<Path>)
    requires ListingFor(prefix, exclude, listing, stamps, dirs)
    ensures forall p :: p in stamps ==> FileKey(prefix, p) in listing
    ensures forall d :: d in dirs ==> DirKey(prefix, d) in listing
  {
    forall p | p in stamps ensures FileKey(prefix, p) in listing {
      assert FileKey(prefix, p) in FileKeys(prefix, stamps.Keys);
    }
    forall d | d in dirs ensures DirKey(prefix, d) in listing {
      assert DirKey(prefix, d) in DirKeys(prefix, dirs);
    }
  }

  lemma PullListingFor(paged: bool, prefix: string, exclude: Filter, objects: ObjectMap, stamps: map<Path, FileEntry>, dirs: set<Path>)
    requires ValidPrefix(prefix) && Indexed(prefix, exclude, objects, stamps, dirs)
    ensures ListingFor(prefix, exclude, PullListing(paged, prefix, exclude, objects), stamps, dirs)
  {
    if paged && Load(objects, prefix).Some? {
      SyntheticListingFor(prefix, exclude, Load(objects, prefix).value, stamps, dirs);
    } else {
      RealListingFor(prefix, exclude, objects, stamps, dirs);
    }
  }

  /** Files and empty directories fit together as a tree. */
  ghost predicate TreeLike(files: set<Path>, dirs: set<Path>) {
    && (forall f, p :: f in files && (p in files || p in dirs) ==> !Under(f, p))
    && (forall d, p :: d in dirs && (p in files || p in dirs) ==> !Under(d, p))
    && files !! dirs
  }

  lemma ScanIsTreeLike(t: Tree, exclude: Filter)
    requires WellFormed(t)
    ensures TreeLike(Scan(t, exclude).files.Keys, Scan(t, exclude).emptyDirectories)
  {
    var s := Scan(t, exclude);
    forall f, p | f in s.files && p in t ensures !Under(f, p) {
      FileHasNothingUnder(t, f, p);
    }
  }

  lemma TreeLikeIsConsistent(r: RemoteSet)
    requires TreeLike(r.files.Keys, r.markers)
    ensures TreeConsistent(r)
  {
    forall p | p in r.files.Keys ensures p !in DirsOf(r) {
      DirAbove(r, p);
    }
  }

  lemma DirAbove(r: RemoteSet, d: Path)
    ensures d in DirsOf(r) ==> (exists p :: p in r.markers && AtOrUnder(d, p)) || (exists p :: p in r.files.Keys && Under(d, p))
  {
    if d in MarkerDirs(r.markers) {
      var e, i :| e in r.markers && 0 < i <= |e| && e[..i] == d;
      assert AtOrUnder(d, e);
    } else if d in FileDirs(r.files.Keys) {
      var f, i :| f in r.files.Keys && 0 < i < |f| && f[..i] == d;
      assert Under(d, f);
    }
  }

  /** An indexed prefix can be pulled, and yields its record. */
  lemma IndexedIsLayable(cfg: SyncConfig, paged: bool, prefix: string, exclude: Filter, objects: ObjectMap, stamps: map<Path, FileEntry>, dirs: set<Path>)
    requires cfg.Valid() && ValidPrefix(prefix)
    requires Indexed(prefix, exclude, objects, stamps, dirs) && TreeLike(stamps.Keys, dirs)
    ensures Layable(cfg, paged, prefix, exclude, objects)
    ensures RemoteFor(prefix, PullRemote(cfg, paged, prefix, exclude, objects), PullListing(paged, prefix, exclude, objects), stamps, dirs)
  {
    var listing := PullListing(paged, prefix, exclude, objects);
    PullListingOwnKeys(paged, prefix, exclude, objects);
    PullListingFor(paged, prefix, exclude, objects, stamps, dirs);
    ManagedKeysListed(prefix, exclude, listing, stamps, dirs);
    ListingGivesRemote(cfg, prefix, exclude, listing, stamps, dirs);
    TreeLikeIsConsistent(RemoteOf(cfg, prefix, exclude, listing));
  }

  lemma IndexedIsTrusted(cfg: SyncConfig, paged: bool, prefix: string, exclude: Filter, objects: ObjectMap, stamps: map<Path, FileEntry>, dirs: set<Path>)
    requires cfg.Valid() && ValidPrefix(prefix)
    requires Indexed(prefix, exclude, objects, stamps, dirs) && TreeLike(stamps.Keys, dirs)
    requires Layable(cfg, paged, prefix, exclude, objects)
    ensures AllTrusted(objects, PullKnown(paged, prefix, exclude, objects), PullRemote(cfg, paged, prefix, exclude, objects).files)
  {
    IndexedIsLayable(cfg, paged, prefix, exclude, objects, stamps, dirs);
    StoredIsTrusted(prefix, objects, stamps, PullRemote(cfg, paged, prefix, exclude, objects).files, PullKnown(paged, prefix, exclude, objects));
  }

  lemma StoredIsTrusted(prefix: string, objects: ObjectMap, stamps: map<Path, FileEntry>, files: map<Path, RemoteEntry>, known: map<Path, FileEntry>)
    requires FilesStored(prefix, objects, stamps) && files.Keys == stamps.Keys
    requires forall p :: p in stamps ==> files[p].key == FileKey(prefix, p) && files[p].size == stamps[p].size
    ensures AllTrusted(objects, known, files)
  {
    forall p | p in files ensures Trusted(objects, known, p, files[p]) {
      assert p in stamps;
    }
  }

  /** Without a manifest to read from, the listing itself is trusted, whatever the prefix holds. */
  lemma RealListingIsTrusted(cfg: SyncConfig, paged: bool, prefix: string, exclude: Filter, objects: ObjectMap)
    requires cfg.Valid() && Layable(cfg, paged, prefix, exclude, objects)
    requires !paged || Load(objects, prefix) == None
    ensures AllTrusted(objects, PullKnown(paged, prefix, exclude, objects), PullRemote(cfg, paged, prefix, exclude, objects).files)
  {
    RemoteBacked(cfg, paged, prefix, exclude, objects);
    var r := PullRemote(cfg, paged, prefix, exclude, objects);
    var listing := PullListing(paged, prefix, exclude, objects);
    forall p | p in r.files ensures Trusted(objects, PullKnown(paged, prefix, exclude, objects), p, r.files[p]) {
      assert FileBacked(prefix, exclude, Sorted(cfg.keyLess, listing.Keys), listing, p, r.files[p]);
    }
  }

  /** A pull twice, from a listing that is read directly or a manifest that tells the truth about the stored
      objects: the second finds nothing to do exactly when no remote directory has an ignored name. */
  lemma PullTwice(cfg: SyncConfig, paged: bool, prefix: string, exclude: Filter, preserve: set<string>, objects: ObjectMap, t: Tree, now: int, later: int)
    requires cfg.Valid() && MirrorOptions(exclude, preserve) && WellFormed(t)
    requires Layable(cfg, paged, prefix, exclude, objects)
    requires (paged && Load(objects, prefix).Some?) ==>
      AllTrusted(objects, PullKnown(paged, prefix, exclude, objects), PullRemote(cfg, paged, prefix, exclude, objects).files)
    ensures var r := PullRemote(cfg, paged, prefix, exclude, objects);
      var known, m := PullKnown(paged, prefix, exclude, objects), MirrorOf(r, exclude, preserve);
      var u := PulledTree(m, r.files, known, objects, t, now);
      && AllObtainable(objects, known, r.files, Prepared(m, t))
      && u == Laid(t, preserve, DirsOf(r), Arrived(objects, known, r.files, Prepared(m, t), now))
      && (PullCountsOf(m, r.files, known, objects, u) == PullCounts(0, 0, 0) <==> forall d :: d in DirsOf(r) ==> !Ignored(d))
      && ((forall d :: d in DirsOf(r) ==> !Ignored(d)) ==> PulledTree(m, r.files, known, objects, u, later) == u)
  {
    if !paged || Load(objects, prefix) == None {
      RealListingIsTrusted(cfg, paged, prefix, exclude, objects);
    }
    RemoteIsSound(cfg, paged, prefix, exclude, preserve, objects);
    var r := PullRemote(cfg, paged, prefix, exclude, objects);
    var known, m := PullKnown(paged, prefix, exclude, objects), MirrorOf(r, exclude, preserve);
    PullResult(r, m, known, objects, t, now);
    SecondPullIff(r, m, known, objects, t, now, later);
  }

  // ---- scanning what was pulled ------------------------------------------------------------------------------------

  ghost predicate AllVisible(exclude: Filter, paths: set<Path>) {
    forall p :: p in paths ==> VisibleFrom(exclude, [], p)
  }

  lemma ProtectedIsHidden(exclude: Filter, preserve: set<string>, p: Path)
    requires MirrorOptions(exclude, preserve)
    ensures Protected(preserve, p) ==> !VisibleFrom(exclude, [], p)
  {
    if Protected(preserve, p) {
      assert exclude(p[..1]);
      assert Suppressed(exclude, p[..1]);
    }
  }

  lemma LaidFiles(r: RemoteSet, exclude: Filter, preserve: set<string>, t: Tree, files: map<Path, FileData>)
    requires MirrorOptions(exclude, preserve) && Sound(r, preserve)
    requires files.Keys == r.files.Keys && AllVisible(exclude, files.Keys)
    ensures FilesUnder(Laid(t, preserve, DirsOf(r), files), exclude, []) == files
  {
    var found := FilesUnder(Laid(t, preserve, DirsOf(r), files), exclude, []);
    forall p: Path ensures p in found <==> p in files ensures p in found && p in files ==> found[p] == files[p] {
      LaidFileAt(r, exclude, preserve, t, files, p);
    }
    SameMap(found, files);
  }

  lemma SameMap(a: map<Path, FileData>, b: map<Path, FileData>)
    requires forall p: Path :: (p in a <==> p in b) && (p in a && p in b ==> a[p] == b[p])
    ensures a == b
  {
  }

  lemma LaidFileAt(r: RemoteSet, exclude: Filter, preserve: set<string>, t: Tree, files: map<Path, FileData>, p: Path)
    requires MirrorOptions(exclude, preserve) && Sound(r, preserve)
    requires files.Keys == r.files.Keys && AllVisible(exclude, files.Keys)
    ensures var found := FilesUnder(Laid(t, preserve, DirsOf(r), files), exclude, []);
      (p in found <==> p in files) && (p in files ==> found[p] == files[p])
  {
    ProtectedIsHidden(exclude, preserve, p);
    RootAbove(p);
  }

  /** A directory made for a file or for a deeper marker is not empty. */
  lemma InnerDirHoldsSomething(r: RemoteSet, preserve: set<string>, t: Tree, files: map<Path, FileData>, d: Path)
    requires files.Keys == r.files.Keys && d in DirsOf(r) && d !in r.markers
    ensures !Childless(Laid(t, preserve, DirsOf(r), files), d)
  {
    var u := Laid(t, preserve, DirsOf(r), files);
    DirAbove(r, d);
    if exists p :: p in r.files.Keys && Under(d, p) {
      var p :| p in r.files.Keys && Under(d, p);
      assert p in u;
    } else {
      var e :| e in r.markers && AtOrUnder(d, e);
      MarkerIsDir(r, e);
      assert e in u && Under(d, e);
    }
  }

  lemma MarkerIsDir(r: RemoteSet, e: Path)
    requires e in r.markers && e != []
    ensures e in DirsOf(r)
  {
    assert e[..|e|] == e;
    assert e in MarkerDirs(r.markers);
  }

  lemma MarkerIsChildless(r: RemoteSet, exclude: Filter, preserve: set<string>, t: Tree, files: map<Path, FileData>, e: Path)
    requires MirrorOptions(exclude, preserve) && Sound(r, preserve) && TreeLike(r.files.Keys, r.markers)
    requires files.Keys == r.files.Keys && e in r.markers && e != []
    ensures Childless(Laid(t, preserve, DirsOf(r), files), e)
  {
    var u := Laid(t, preserve, DirsOf(r), files);
    forall p | p in u ensures !Under(e, p) {
      AboveRemote(r, e, p);
      NothingBelowMarker(r, e, p);
    }
  }

  lemma NothingBelowMarker(r: RemoteSet, e: Path, p: Path)
    requires TreeLike(r.files.Keys, r.markers) && e in r.markers
    ensures p in DirsOf(r) || p in r.files ==> !Under(e, p)
  {
    DirAbove(r, p);
    if Under(e, p) && p in DirsOf(r) {
      if exists q :: q in r.markers && AtOrUnder(p, q) {
        var q :| q in r.markers && AtOrUnder(p, q);
        UnderChain(e, p, q);
      } else {
        var q :| q in r.files.Keys && Under(p, q);
        UnderChain(e, p, q);
      }
    }
  }

  lemma LaidEmpties(r: RemoteSet, exclude: Filter, preserve: set<string>, t: Tree, files: map<Path, FileData>)
    requires MirrorOptions(exclude, preserve) && Sound(r, preserve) && TreeLike(r.files.Keys, r.markers)
    requires files.Keys == r.files.Keys && AllVisible(exclude, r.markers) && [] !in r.markers
    ensures EmptyUnder(Laid(t, preserve, DirsOf(r), files), exclude, []) == r.markers
  {
    var u := Laid(t, preserve, DirsOf(r), files);
    forall d: Path ensures d in EmptyUnder(u, exclude, []) <==> d in r.markers {
      LaidEmptyIff(r, exclude, preserve, t, files, d);
    }
  }

  lemma LaidEmptyIff(r: RemoteSet, exclude: Filter, preserve: set<string>, t: Tree, files: map<Path, FileData>, d: Path)
    requires MirrorOptions(exclude, preserve) && Sound(r, preserve) && TreeLike(r.files.Keys, r.markers)
    requires files.Keys == r.files.Keys && AllVisible(exclude, r.markers) && [] !in r.markers
    ensures d in EmptyUnder(Laid(t, preserve, DirsOf(r), files), exclude, []) <==> d in r.markers
  {
    ProtectedIsHidden(exclude, preserve, d);
    RootAbove(d);
    if d in r.markers {
      MarkerIsDir(r, d);
      MarkerIsChildless(r, exclude, preserve, t, files, d);
    } else if d in DirsOf(r) {
      InnerDirHoldsSomething(r, preserve, t, files, d);
    }
  }

  lemma MarkersAreEmptyRemoteDirs(r: RemoteSet)
    requires TreeLike(r.files.Keys, r.markers)
    ensures EmptyRemoteDirs(r) == r.markers
  {
  }

  // ---- the theorem ---------------------------------------------------------------------------------------------------

  /** A local file that a pull of `s` takes to be up to date. */
  predicate KeptLocally(t: Tree, s: Snapshot, p: Path)
    requires p in s.files
  {
    p in t && t[p].File? && |t[p].file.data| == |s.files[p].data| && MtimeMatches(t[p].file.mtimeMs, Trunc(s.files[p].mtimeMs))
  }

  /** What a pull gives back of a pushed directory: files judged up to date stay, the others arrive
      with whole-millisecond times. */
  function GivenBack(t: Tree, s: Snapshot): map<Path, FileData> {
    map p | p in s.files :: if KeptLocally(t, s, p) then t[p].file else FileData(s.files[p].data, Trunc(s.files[p].mtimeMs) as real)
  }

  ghost predicate ScanLike(exclude: Filter, s: Snapshot) {
    && TreeLike(s.files.Keys, s.emptyDirectories)
    && AllVisible(exclude, s.files.Keys) && AllVisible(exclude, s.emptyDirectories)
  }

  lemma ScanIsScanLike(t: Tree, exclude: Filter)
    requires WellFormed(t)
    ensures ScanLike(exclude, Scan(t, exclude))
  {
    ScanIsTreeLike(t, exclude);
  }

  /** A visible local file the remote also has survives the cleaning. */
  lemma VisibleSurvives(r: RemoteSet, m: Mirror, t: Tree, p: Path)
    requires MirrorOptions(m.exclude, m.preserve) && m.files == r.files.Keys && m.dirs == DirsOf(r)
    requires WellFormed(t) && Sound(r, m.preserve) && p in r.files && VisibleFrom(m.exclude, [], p)
    ensures p in t && t[p].File? <==> p in Prepared(m, t) && Prepared(m, t)[p].File?
    ensures p in t && t[p].File? ==> Prepared(m, t)[p] == t[p]
  {
    PreparedAt(r, m, t, p);
    forall k | 0 < k <= |p| ensures !Ignored(p[..k]) {
      assert !Suppressed(m.exclude, p[..k]);
    }
    OpenAllTheWay(m, [], p);
    if p in t && t[p].File? {
      assert AtOrUnder(p, p) && Anchor(m, t, [], p);
      assert p in CleanedBelow(m, t, []);
    }
  }

  /** The object of one file of the directory. */
  predicate StoredFile(prefix: string, objects: ObjectMap, p: Path, f: FileData) {
    var k := FileKey(prefix, p);
    k in objects && objects[k].body == Bytes(f.data) && objects[k].mtimeMs == Some(Trunc(f.mtimeMs))
  }

  lemma HeldFile(prefix: string, exclude: Filter, objects: ObjectMap, s: Snapshot, p: Path)
    requires Holds(prefix, exclude, objects, s) && p in s.files
    ensures StoredFile(prefix, objects, p, s.files[p])
  {
    assert p in Stamps(s.files);
  }

  lemma SettledIsKept(objects: ObjectMap, s: Snapshot, p: Path, e: RemoteEntry, known: map<Path, FileEntry>, t: Tree, v: Tree)
    requires p in s.files && e.key in objects && e.size == |s.files[p].data|
    requires objects[e.key].mtimeMs == Some(Trunc(s.files[p].mtimeMs))
    requires p in known ==> known[p] == StampOf(s.files[p])
    requires p in t && t[p].File? <==> p in v && v[p].File?
    requires p in t && t[p].File? ==> v[p] == t[p]
    ensures Settled(objects, known, p, e, v) <==> KeptLocally(t, s, p)
  {
  }

  lemma FileGivenBack(prefix: string, objects: ObjectMap, s: Snapshot, p: Path, e: RemoteEntry, known: map<Path, FileEntry>, t: Tree, v: Tree, now: int)
    requires p in s.files && e.key == FileKey(prefix, p) && e.size == |s.files[p].data|
    requires StoredFile(prefix, objects, p, s.files[p])
    requires p in known ==> known[p] == StampOf(s.files[p])
    requires p in t && t[p].File? <==> p in v && v[p].File?
    requires p in t && t[p].File? ==> v[p] == t[p]
    ensures Obtainable(objects, known, p, e, v)
    ensures Materialized(objects, known, p, e, v, now) == GivenBack(t, s)[p]
  {
    SettledIsKept(objects, s, p, e, known, t, v);
  }

  lemma KnownIsRecorded(paged: bool, prefix: string, exclude: Filter, objects: ObjectMap, stamps: map<Path, FileEntry>, dirs: set<Path>)
    requires Indexed(prefix, exclude, objects, stamps, dirs)
    ensures PullKnown(paged, prefix, exclude, objects) == stamps || PullKnown(paged, prefix, exclude, objects) == map[]
  {
  }

  /** File by file, a pull gives back what the prefix holds. */
  lemma ArrivedIsGivenBack(cfg: SyncConfig, paged: bool, prefix: string, exclude: Filter, preserve: set<string>, objects: ObjectMap, s: Snapshot, t: Tree, now: int)
    requires cfg.Valid() && ValidPrefix(prefix) && MirrorOptions(exclude, preserve) && WellFormed(t)
    requires Holds(prefix, exclude, objects, s) && ScanLike(exclude, s)
    ensures Layable(cfg, paged, prefix, exclude, objects)
    ensures var r := PullRemote(cfg, paged, prefix, exclude, objects);
      var known, m := PullKnown(paged, prefix, exclude, objects), MirrorOf(r, exclude, preserve);
      && AllObtainable(objects, known, r.files, Prepared(m, t))
      && Arrived(objects, known, r.files, Prepared(m, t), now) == GivenBack(t, s)
  {
    HeldRemote(cfg, paged, prefix, exclude, preserve, objects, s);
    var r := PullRemote(cfg, paged, prefix, exclude, objects);
    var known, m := PullKnown(paged, prefix, exclude, objects), MirrorOf(r, exclude, preserve);
    LocalFilesSurvive(r, m, t);
    forall p | p in s.files ensures StoredFile(prefix, objects, p, s.files[p]) {
      HeldFile(prefix, exclude, objects, s, p);
    }
    AllGivenBack(prefix, objects, s, r.files, known, t, Prepared(m, t), now);
  }

  ghost predicate SameFiles(paths: set<Path>, t: Tree, v: Tree) {
    forall p :: p in paths ==> (p in t && t[p].File? <==> p in v && v[p].File?) && (p in t && t[p].File? && p in v ==> v[p] == t[p])
  }

  lemma LocalFilesSurvive(r: RemoteSet, m: Mirror, t: Tree)
    requires MirrorOptions(m.exclude, m.preserve) && m.files == r.files.Keys && m.dirs == DirsOf(r)
    requires WellFormed(t) && Sound(r, m.preserve) && AllVisible(m.exclude, r.files.Keys)
    ensures SameFiles(r.files.Keys, t, Prepared(m, t))
  {
    forall p | p in r.files.Keys
      ensures p in t && t[p].File? <==> p in Prepared(m, t) && Prepared(m, t)[p].File?
      ensures p in t && t[p].File? ==> Prepared(m, t)[p] == t[p]
    {
      VisibleSurvives(r, m, t, p);
    }
  }

  lemma AllGivenBack(prefix: string, objects: ObjectMap, s: Snapshot, files: map<Path, RemoteEntry>, known: map<Path, FileEntry>, t: Tree, v: Tree, now: int)
    requires files.Keys == s.files.Keys && SameFiles(files.Keys, t, v)
    requires forall p :: p in s.files ==> files[p].key == FileKey(prefix, p) && files[p].size == |s.files[p].data|
    requires forall p :: p in s.files ==> StoredFile(prefix, objects, p, s.files[p])
    requires forall p :: p in s.files && p in known ==> known[p] == StampOf(s.files[p])
    ensures AllObtainable(objects, known, files, v)
    ensures Arrived(objects, known, files, v, now) == GivenBack(t, s)
  {
    forall p | p in s.files ensures ArrivesAs(objects, known, files, v, now, p, GivenBack(t, s)[p]) {
      FileGivenBack(prefix, objects, s, p, files[p], known, t, v, now);
    }
    ArrivedIs(objects, known, files, v, now, GivenBack(t, s));
  }

  predicate ArrivesAs(objects: ObjectMap, known: map<Path, FileEntry>, files: map<Path, RemoteEntry>, v: Tree, now: int, p: Path, data: FileData)
    requires p in files
  {
    Obtainable(objects, known, p, files[p], v) && Materialized(objects, known, p, files[p], v, now) == data
  }

  lemma ArrivedIs(objects: ObjectMap, known: map<Path, FileEntry>, files: map<Path, RemoteEntry>, v: Tree, now: int, all: map<Path, FileData>)
    requires files.Keys == all.Keys
    requires forall p :: p in files ==> ArrivesAs(objects, known, files, v, now, p, all[p])
    ensures AllObtainable(objects, known, files, v) && Arrived(objects, known, files, v, now) == all
  {
  }

  lemma HeldRemote(cfg: SyncConfig, paged: bool, prefix: string, exclude: Filter, preserve: set<string>, objects: ObjectMap, s: Snapshot)
    requires cfg.Valid() && ValidPrefix(prefix) && MirrorOptions(exclude, preserve)
    requires Holds(prefix, exclude, objects, s) && ScanLike(exclude, s)
    ensures Layable(cfg, paged, prefix, exclude, objects)
    ensures var r := PullRemote(cfg, paged, prefix, exclude, objects);
      && Sound(r, preserve) && r.files.Keys == s.files.Keys && r.markers == s.emptyDirectories
      && (forall p :: p in s.files ==> r.files[p].key == FileKey(prefix, p) && r.files[p].size == |s.files[p].data|)
    ensures var known := PullKnown(paged, prefix, exclude, objects);
      forall p :: p in s.files && p in known ==> known[p] == StampOf(s.files[p])
  {
    var stamps, dirs := Stamps(s.files), s.emptyDirectories;
    StampsEmpty(s.files);
    IndexedIsLayable(cfg, paged, prefix, exclude, objects, stamps, dirs);
    KnownIsRecorded(paged, prefix, exclude, objects, stamps, dirs);
    RemoteIsSound(cfg, paged, prefix, exclude, preserve, objects);
  }

  /** The tree a pull leaves when the prefix holds `s`. */
  function PulledBack(t: Tree, preserve: set<string>, s: Snapshot): Tree {
    Laid(t, preserve, DirsOf(RemoteSet(map p | p in s.files :: RemoteEntry("", 0, None), s.emptyDirectories)), GivenBack(t, s))
  }

  lemma DirsDependOnPaths(r: RemoteSet, q: RemoteSet)
    requires r.files.Keys == q.files.Keys && r.markers == q.markers
    ensures DirsOf(r) == DirsOf(q)
  {
  }

  /** Pulling a prefix that holds `s` into any directory: the protected part stays, the rest becomes the
      files and directories of `s`, and a scan finds exactly them; the fingerprint returned is that scan's. */
  lemma PullGivesBack(cfg: SyncConfig, paged: bool, prefix: string, exclude: Filter, preserve: set<string>, objects: ObjectMap, s: Snapshot, t: Tree, now: int)
    requires cfg.Valid() && ValidPrefix(prefix) && MirrorOptions(exclude, preserve) && WellFormed(t)
    requires Holds(prefix, exclude, objects, s) && ScanLike(exclude, s)
    ensures Layable(cfg, paged, prefix, exclude, objects)
    ensures var r := PullRemote(cfg, paged, prefix, exclude, objects);
      var known, m := PullKnown(paged, prefix, exclude, objects), MirrorOf(r, exclude, preserve);
      && AllObtainable(objects, known, r.files, Prepared(m, t))
      && PulledTree(m, r.files, known, objects, t, now) == PulledBack(t, preserve, s)
      && Arrived(objects, known, r.files, Prepared(m, t), now) == GivenBack(t, s)
      && EmptyRemoteDirs(r) == s.emptyDirectories
    ensures Scan(PulledBack(t, preserve, s), exclude) == Snapshot(GivenBack(t, s), s.emptyDirectories)
  {
    HeldRemote(cfg, paged, prefix, exclude, preserve, objects, s);
    ArrivedIsGivenBack(cfg, paged, prefix, exclude, preserve, objects, s, t, now);
    var r := PullRemote(cfg, paged, prefix, exclude, objects);
    ShapeGivenBack(r, MirrorOf(r, exclude, preserve), s, t);
  }

  lemma ShapeGivenBack(r: RemoteSet, m: Mirror, s: Snapshot, t: Tree)
    requires MirrorOptions(m.exclude, m.preserve) && m.files == r.files.Keys && m.dirs == DirsOf(r)
    requires WellFormed(t) && Sound(r, m.preserve) && ScanLike(m.exclude, s)
    requires r.files.Keys == s.files.Keys && r.markers == s.emptyDirectories && [] !in r.markers
    ensures WithFiles(Prepared(m, t), GivenBack(t, s)) == PulledBack(t, m.preserve, s)
    ensures Scan(PulledBack(t, m.preserve, s), m.exclude) == Snapshot(GivenBack(t, s), s.emptyDirectories)
    ensures EmptyRemoteDirs(r) == s.emptyDirectories
  {
    var q := RemoteSet(map p | p in s.files :: RemoteEntry("", 0, None), s.emptyDirectories);
    assert q.files.Keys == r.files.Keys;
    DirsDependOnPaths(r, q);
    var files := GivenBack(t, s);
    assert files.Keys == r.files.Keys;
    PullShape(r, m, t, files);
    LaidFiles(r, m.exclude, m.preserve, t, files);
    LaidEmpties(r, m.exclude, m.preserve, t, files);
    MarkersAreEmptyRemoteDirs(r);
  }

  /** Into an empty directory everything is downloaded: same paths, bytes, whole-millisecond times and
      empty directories, hence the fingerprint the push returned. */
  lemma FreshGivesBack(s: Snapshot)
    ensures GivenBack(map[], s).Keys == s.files.Keys
    ensures forall p :: p in s.files ==>
      GivenBack(map[], s)[p] == FileData(s.files[p].data, Trunc(s.files[p].mtimeMs) as real)
    ensures Stamps(GivenBack(map[], s)) == Stamps(s.files)
  {
  }

  /** Wherever the local directory has a file of the same size and time, it has the same bytes. */
  predicate SizeAndTimeTell(t: Tree, s: Snapshot) {
    forall p :: (p in s.files && p in t && t[p].File? && |t[p].file.data| == |s.files[p].data|
                 && MtimeMatches(t[p].file.mtimeMs, Trunc(s.files[p].mtimeMs))) ==> t[p].file.data == s.files[p].data
  }

  /** The bytes are right exactly when equal size and time mean equal bytes. */
  lemma BytesGivenBackIff(t: Tree, s: Snapshot)
    ensures (forall p :: p in s.files ==> GivenBack(t, s)[p].data == s.files[p].data) <==> SizeAndTimeTell(t, s)
  {
    forall p | p in s.files
      ensures GivenBack(t, s)[p].data == if KeptLocally(t, s, p) then t[p].file.data else s.files[p].data
    {
    }
  }

  lemma TruncNear(x: real, n: int)
    requires n > 0 && MtimeMatches(x, n)
    ensures Trunc(x) == n <==> x >= n as real
  {
  }

  /** The fingerprint a pull returns is the pushed one exactly when no file judged up to date is dated a
      fraction of a millisecond before its stamp. */
  lemma FingerprintGivenBackIff(less: (Path, Path) -> bool, t: Tree, s: Snapshot)
    requires StrictTotal(less) && AllStamped(s.files)
    ensures Fingerprint(less, Stamps(GivenBack(t, s)), s.emptyDirectories) == Fingerprint(less, Stamps(s.files), s.emptyDirectories)
       <==> (forall p :: p in s.files && KeptLocally(t, s, p) ==> t[p].file.mtimeMs >= Trunc(s.files[p].mtimeMs) as real)
  {
    var g := Stamps(GivenBack(t, s));
    TimesInjective(less, g, Stamps(s.files), s.emptyDirectories);
    forall p | p in s.files
      ensures p in g && (g[p] == StampOf(s.files[p])
         <==> (KeptLocally(t, s, p) ==> t[p].file.mtimeMs >= Trunc(s.files[p].mtimeMs) as real))
    {
      if KeptLocally(t, s, p) {
        TruncNear(t[p].file.mtimeMs, Trunc(s.files[p].mtimeMs));
      }
    }
    SameStampsIff(g, s);
  }

  lemma SameStampsIff(g: map<Path, FileEntry>, s: Snapshot)
    requires g.Keys == s.files.Keys
    ensures g == Stamps(s.files) <==> forall p :: p in s.files ==> g[p] == StampOf(s.files[p])
  {
    if forall p :: p in s.files ==> g[p] == StampOf(s.files[p]) {
      assert g == Stamps(s.files);
    }
  }

  /** After any lawful run of pushes from an unused prefix, a pull into an empty directory gives the
      directory pushed last: its scan, up to fractions of milliseconds, and its fingerprint. */
  lemma PullAfterRun(cfg: SyncConfig, paged: bool, prefix: string, exclude: Filter, preserve: set<string>, objects: ObjectMap,
                     events: seq<PushEvent>, now: int)
    requires cfg.Valid() && ValidPrefix(prefix) && MirrorOptions(exclude, preserve) && Unused(prefix, objects)
    requires Lawful(exclude, events) && Faithful(exclude, events)
    requires forall i :: 0 <= i < |events| ==> WellFormed(events[i].tree)
    ensures var store := RunStore(cfg, paged, prefix, exclude, objects, events);
      && Layable(cfg, paged, prefix, exclude, store)
      && var r := PullRemote(cfg, paged, prefix, exclude, store);
         var known, m := PullKnown(paged, prefix, exclude, store), MirrorOf(r, exclude, preserve);
         var u := PulledTree(m, r.files, known, store, map[], now);
         var s := Seen(exclude, events);
         && AllObtainable(store, known, r.files, Prepared(m, map[]))
         && Scan(u, exclude).files.Keys == s.files.Keys
         && (forall p :: p in s.files ==> Scan(u, exclude).files[p] == FileData(s.files[p].data, Trunc(s.files[p].mtimeMs) as real))
         && Scan(u, exclude).emptyDirectories == s.emptyDirectories
         && Fingerprint(cfg.pathLess, Stamps(Arrived(store, known, r.files, Prepared(m, map[]), now)), EmptyRemoteDirs(r))
              == Fingerprint(cfg.pathLess, Stamps(s.files), s.emptyDirectories)
  {
    var s := Seen(exclude, events);
    RunHoldsLast(cfg, paged, prefix, exclude, objects, events);
    if events != [] {
      ScanIsScanLike(events[|events| - 1].tree, exclude);
    }
    PullGivesBack(cfg, paged, prefix, exclude, preserve, RunStore(cfg, paged, prefix, exclude, objects, events), s, map[], now);
    FreshGivesBack(s);
  }

  lemma VisibleDirsNotIgnored(r: RemoteSet, exclude: Filter, d: Path)
    requires AllVisible(exclude, r.files.Keys) && AllVisible(exclude, r.markers) && d in DirsOf(r)
    ensures !Ignored(d)
  {
    if d in MarkerDirs(r.markers) {
      var e, i :| e in r.markers && 0 < i <= |e| && e[..i] == d;
      assert !Suppressed(exclude, e[..i]);
    } else {
      var f, i :| f in r.files.Keys && 0 < i < |f| && f[..i] == d;
      assert !Suppressed(exclude, f[..i]);
    }
  }

  /** Pulling a pushed directory twice: the second pull always finds nothing to do. */
  lemma PullHeldTwice(cfg: SyncConfig, paged: bool, prefix: string, exclude: Filter, preserve: set<string>, objects: ObjectMap, s: Snapshot,
                      t: Tree, now: int, later: int)
    requires cfg.Valid() && ValidPrefix(prefix) && MirrorOptions(exclude, preserve) && WellFormed(t)
    requires Holds(prefix, exclude, objects, s) && ScanLike(exclude, s)
    ensures Layable(cfg, paged, prefix, exclude, objects)
    ensures var r := PullRemote(cfg, paged, prefix, exclude, objects);
      var known, m := PullKnown(paged, prefix, exclude, objects), MirrorOf(r, exclude, preserve);
      var u := PulledTree(m, r.files, known, objects, t, now);
      && PullCountsOf(m, r.files, known, objects, u) == PullCounts(0, 0, 0)
      && PulledTree(m, r.files, known, objects, u, later) == u
  {
    HeldRemote(cfg, paged, prefix, exclude, preserve, objects, s);
    StampsEmpty(s.files);
    IndexedIsTrusted(cfg, paged, prefix, exclude, objects, Stamps(s.files), s.emptyDirectories);
    var r := PullRemote(cfg, paged, prefix, exclude, objects);
    forall d | d in DirsOf(r) ensures !Ignored(d) {
      VisibleDirsNotIgnored(r, exclude, d);
    }
    SecondPullIff(r, MirrorOf(r, exclude, preserve), PullKnown(paged, prefix, exclude, objects), objects, t, now, later);
  }
}
