/** Whole pushes, and runs of them: the manifest is a true index exactly when every file has a
    positive time stamp and no path swaps between file and empty directory. */
module RunProofs {
  import opened Orders
  import opened Options
  import opened Paths
  import opened Storage
  import opened Manifest
  import opened ManifestProofs
  import opened LocalTree
  import opened Push
  import opened PushRun
  import opened PushProofs
  import opened IndexProofs

  // ---- reserved keys -----------------------------------------------------------------------------------

  predicate Reserved(prefix: string, k: string) {
    k == ManifestKey(prefix) || IsShardKey(prefix, k)
  }

  lemma ReservedIsNotUser(prefix: string, k: string)
    requires Reserved(prefix, k) || k == BundleKey(prefix)
    ensures !UserKey(prefix, k) && KeyPath(prefix, k) != Some([])
  {
    ReservedKeys(prefix, 0);
  }

  lemma BundleIsNotReserved(prefix: string)
    ensures !Reserved(prefix, BundleKey(prefix))
  {
    ReservedKeys(prefix, 0);
  }

  ghost predicate SameReserved(prefix: string, a: ObjectMap, b: ObjectMap) {
    forall k :: Reserved(prefix, k) ==> SameAt(a, b, k)
  }

  lemma {:induction false} MergeFrame(a: ObjectMap, b: ObjectMap, keys: seq<string>, files: map<Path, FileEntry>)
    requires forall k :: k in keys ==> SameAt(a, b, k)
    ensures MergeShards(a, keys, files) == MergeShards(b, keys, files)
    decreases |keys|
  {
    if keys != [] {
      assert keys[0] in keys && SameAt(a, b, keys[0]);
      if keys[0] in a && a[keys[0]].body.Document? {
        MergeFrame(a, b, keys[1..], files + a[keys[0]].body.doc.files);
      }
    }
  }

  /** Reading the manifest depends on the reserved objects alone. */
  lemma LoadFrame(prefix: string, a: ObjectMap, b: ObjectMap)
    requires Tidy(prefix, a) && SameReserved(prefix, a, b)
    ensures Load(b, prefix) == Load(a, prefix)
  {
    var key := ManifestKey(prefix);
    assert SameAt(a, b, key);
    if key in a {
      var top := a[key].body.doc;
      assert OldShards(Load(a, prefix)) == top.manifestShards;
      MergeFrame(a, b, top.manifestShards, top.files);
    }
  }

  lemma TidyFrame(prefix: string, a: ObjectMap, b: ObjectMap)
    requires Tidy(prefix, a) && SameReserved(prefix, a, b)
    ensures Tidy(prefix, b)
  {
    LoadFrame(prefix, a, b);
    assert SameAt(a, b, ManifestKey(prefix));
    forall k | IsShardKey(prefix, k) ensures k in a <==> k in b {
      assert SameAt(a, b, k);
    }
  }

  // ---- what writing the manifest leaves alone ------------------------------------------------------------

  lemma ShardKeysAreReserved(prefix: string, n: nat, k: string)
    requires k in ShardKeys(prefix, n)
    ensures IsShardKey(prefix, k)
  {
    ShardKeyListed(prefix, n, k);
    var i :| 0 <= i < n && ShardKey(prefix, i) == k;
    ReservedKeys(prefix, i);
  }

  lemma TopOpsLeave(prefix: string, top: ManifestDoc, stale: seq<string>, now: int, before: ObjectMap, k: string)
    requires ManifestKey(prefix) !in stale && k !in stale && k != ManifestKey(prefix)
    ensures SameAt(before, ApplyAll(TopOps(prefix, top, stale, now), before), k)
  {
    AllOps(TopOps(prefix, top, stale, now));
    TopOpsCut(prefix, top, stale, now, before, |TopOps(prefix, top, stale, now)|);
  }

  lemma ShardedOpsLeave(cfg: SyncConfig, prefix: string, m: ManifestDoc, oldShards: seq<string>, now: int, before: ObjectMap, k: string)
    requires cfg.Valid() && ManifestKey(prefix) !in oldShards
    requires !Reserved(prefix, k) && k !in oldShards
    ensures SameAt(before, ApplyAll(ShardedOps(cfg, prefix, m, oldShards, now), before), k)
  {
    var chunks := ChunksOf(cfg, m);
    var shardOps := ShardOps(prefix, m.files, chunks, now);
    var stale := FilterOut(oldShards, ShardKeys(prefix, |chunks|));
    AllOps(shardOps);
    ShardPutsEffect(prefix, m.files, chunks, now, before, |chunks|);
    if k in ShardKeys(prefix, |chunks|) { ShardKeysAreReserved(prefix, |chunks|, k); }
    var mid := ApplyAll(shardOps, before);
    var top := TopDocument(prefix, m, |chunks|);
    TopOpsLeave(prefix, top, stale, now, mid, k);
    ApplyConcat(shardOps, TopOps(prefix, top, stale, now), before);
  }

  /** Writing a manifest touches only the manifest and shard objects. */
  lemma WriteLeaves(cfg: SyncConfig, prefix: string, m: ManifestDoc, now: int, before: ObjectMap, k: string)
    requires cfg.Valid() && Tidy(prefix, before) && !Reserved(prefix, k)
    ensures SameAt(before, ApplyAll(WriteOps(cfg, prefix, m, Load(before, prefix), now), before), k)
  {
    var existing := Load(before, prefix);
    var shards0 := OldShards(existing);
    TidyIsSane(prefix, before);
    assert k !in shards0;
    if IsEmptyManifest(m) {
      DeleteOpsEffect([ManifestKey(prefix)] + shards0, before);
    } else if existing.Some? && Equivalent(existing.value, m) {
    } else if |m.files| > cfg.shardFileCount {
      ShardedOpsLeave(cfg, prefix, m, shards0, now, before, k);
    } else {
      TopOpsLeave(prefix, m, shards0, now, before, k);
    }
  }

  // ---- the manifest after a write --------------------------------------------------------------------------

  function RecordedFiles(doc: Option<ManifestDoc>): map<Path, FileEntry> {
    match doc case None => map[] case Some(m) => ValidFiles(m)
  }

  function RecordedDirs(doc: Option<ManifestDoc>): set<Path> {
    match doc case None => {} case Some(m) => ListedDirs(m)
  }

  /** A reader of the written manifest sees what was asked to be recorded. */
  lemma ManifestAfterWrite(cfg: SyncConfig, prefix: string, m: ManifestDoc, now: int, before: ObjectMap)
    requires cfg.Valid() && m.manifestShards == [] && Tidy(prefix, before)
    ensures var loaded := Load(ApplyAll(WriteOps(cfg, prefix, m, Load(before, prefix), now), before), prefix);
      && RecordedFiles(loaded) == ValidFiles(m) && RecordedDirs(loaded) == ListedDirs(m)
      && (loaded.Some? <==> !IsEmptyManifest(m))
      && (loaded.Some? ==> ModeOf(loaded.value) == ModeOf(m))
  {
    var existing := Load(before, prefix);
    TidyIsSane(prefix, before);
    WriteThenLoad(cfg, prefix, m, existing, now, before);
    var ops := WriteOps(cfg, prefix, m, existing, now);
    var loaded := Load(ApplyAll(ops, before), prefix);
    if IsEmptyManifest(m) {
      AllOps(ops);
      EmptyCutUnreadable(prefix, OldShards(existing), before, |ops|);
      EmptyManifestRecordsNothing(m);
    } else if !(existing.Some? && Equivalent(existing.value, m)) {
      SameRecordSameFiles(loaded, m);
    }
  }

  lemma EmptyManifestRecordsNothing(m: ManifestDoc)
    requires IsEmptyManifest(m)
    ensures ValidFiles(m) == map[] && ListedDirs(m) == {}
  {
  }

  lemma SameRecordSameFiles(loaded: Option<ManifestDoc>, m: ManifestDoc)
    requires !IsEmptyManifest(m) && ManifestProofs.Recorded(loaded) == ManifestProofs.Recorded(Some(m))
    ensures loaded.Some? && ValidFiles(loaded.value) == ValidFiles(m) && ListedDirs(loaded.value) == ListedDirs(m)
    ensures ModeOf(loaded.value) == ModeOf(m)
  {
  }

  /** The files whose time stamp a manifest can carry. */
  function StampedFiles(files: map<Path, FileData>): map<Path, FileEntry> {
    map p | p in files && Trunc(files[p].mtimeMs) > 0 :: StampOf(files[p])
  }

  lemma PushManifestRecords(exclude: Filter, s: Snapshot)
    requires GoodPaths(exclude, s.files.Keys, s.emptyDirectories)
    ensures ValidFiles(PushManifest(s)) == StampedFiles(s.files)
    ensures ListedDirs(PushManifest(s)) == s.emptyDirectories
    ensures IsEmptyManifest(PushManifest(s)) <==> s.files == map[] && s.emptyDirectories == {}
  {
    assert PushManifest(s).files == Stamps(s.files);
    assert PushManifest(s).emptyDirectories == s.emptyDirectories;
    if s.files != map[] {
      var p :| p in s.files;
      assert p in Stamps(s.files);
    }
  }

  lemma AllStampedMeansAll(files: map<Path, FileData>)
    ensures AllStamped(files) <==> StampedFiles(files).Keys == files.Keys
    ensures AllStamped(files) ==> StampedFiles(files) == Stamps(files)
  {
    if StampedFiles(files).Keys == files.Keys {
      forall p | p in files ensures Trunc(files[p].mtimeMs) > 0 {
        assert p in StampedFiles(files).Keys;
      }
    }
  }

  // ---- one push on an indexed prefix -------------------------------------------------------------------------

  lemma ObservedSituation(cfg: SyncConfig, paged: bool, prefix: string, exclude: Filter, objects: ObjectMap,
                          stamps: map<Path, FileEntry>, dirs: set<Path>, s: Snapshot)
    requires cfg.Valid() && ValidPrefix(prefix)
    requires Indexed(prefix, exclude, objects, stamps, dirs) && GoodPaths(exclude, s.files.Keys, s.emptyDirectories)
    ensures Situation(cfg, prefix, exclude, objects, Observe(cfg, paged, prefix, exclude, objects), stamps, dirs, s)
  {
    ObservedIndex(cfg, paged, prefix, exclude, objects, stamps, dirs);
  }

  lemma TransferKeepsReserved(cfg: SyncConfig, prefix: string, exclude: Filter, objects: ObjectMap, remote: Remote,
                              stamps: map<Path, FileEntry>, dirs: set<Path>, s: Snapshot, now: int)
    requires Situation(cfg, prefix, exclude, objects, remote, stamps, dirs, s)
    ensures var mid := Transferred(prefix, objects, remote, s, now);
      Tidy(prefix, mid) && Load(mid, prefix) == remote.manifest
  {
    var mid := Transferred(prefix, objects, remote, s, now);
    forall k | Reserved(prefix, k) ensures SameAt(objects, mid, k) {
      ReservedIsNotUser(prefix, k);
      NotACleanKey(prefix, exclude, k);
      TransferredElsewhere(cfg, prefix, exclude, objects, remote, stamps, dirs, s, now, k);
    }
    LoadFrame(prefix, objects, mid);
    TidyFrame(prefix, objects, mid);
  }

  /** After the transfer a push changes nothing but the manifest, its shards and the bundle. */
  lemma PushLeaves(cfg: SyncConfig, paged: bool, prefix: string, exclude: Filter, objects: ObjectMap,
                   stamps: map<Path, FileEntry>, dirs: set<Path>, s: Snapshot, now: int, k: string)
    requires cfg.Valid() && ValidPrefix(prefix)
    requires Indexed(prefix, exclude, objects, stamps, dirs) && GoodPaths(exclude, s.files.Keys, s.emptyDirectories)
    requires !Reserved(prefix, k) && k != BundleKey(prefix)
    ensures var remote := Observe(cfg, paged, prefix, exclude, objects);
      SameAt(Transferred(prefix, objects, remote, s, now), Pushed(cfg, paged, prefix, exclude, objects, s, now), k)
  {
    var remote := Observe(cfg, paged, prefix, exclude, objects);
    ObservedSituation(cfg, paged, prefix, exclude, objects, stamps, dirs, s);
    TransferKeepsReserved(cfg, prefix, exclude, objects, remote, stamps, dirs, s, now);
    var mid := Transferred(prefix, objects, remote, s, now);
    WriteLeaves(cfg, prefix, PushManifest(s), now, mid, k);
  }

  /** From a true index, only user and reserved objects are touched. */
  lemma PushLeavesOthers(cfg: SyncConfig, paged: bool, prefix: string, exclude: Filter, objects: ObjectMap,
                  stamps: map<Path, FileEntry>, dirs: set<Path>, s: Snapshot, now: int, k: string)
    requires cfg.Valid() && ValidPrefix(prefix)
    requires Indexed(prefix, exclude, objects, stamps, dirs) && GoodPaths(exclude, s.files.Keys, s.emptyDirectories)
    requires !UserKey(prefix, k) && !Reserved(prefix, k) && k != BundleKey(prefix)
    ensures SameAt(objects, Pushed(cfg, paged, prefix, exclude, objects, s, now), k)
  {
    var remote := Observe(cfg, paged, prefix, exclude, objects);
    ObservedSituation(cfg, paged, prefix, exclude, objects, stamps, dirs, s);
    NotACleanKey(prefix, exclude, k);
    TransferredElsewhere(cfg, prefix, exclude, objects, remote, stamps, dirs, s, now, k);
    PushLeaves(cfg, paged, prefix, exclude, objects, stamps, dirs, s, now, k);
  }

  /** The manifest a push leaves behind, and the tidiness of its shards. */
  lemma PushedManifest(cfg: SyncConfig, paged: bool, prefix: string, exclude: Filter, objects: ObjectMap,
                       stamps: map<Path, FileEntry>, dirs: set<Path>, s: Snapshot, now: int)
    requires cfg.Valid() && ValidPrefix(prefix)
    requires Indexed(prefix, exclude, objects, stamps, dirs) && GoodPaths(exclude, s.files.Keys, s.emptyDirectories)
    ensures var after := Pushed(cfg, paged, prefix, exclude, objects, s, now);
      var loaded := Load(after, prefix);
      && Tidy(prefix, after)
      && RecordedFiles(loaded) == StampedFiles(s.files) && RecordedDirs(loaded) == s.emptyDirectories
      && (loaded.Some? <==> !(s.files == map[] && s.emptyDirectories == {}))
      && (loaded.Some? ==> ModeOf(loaded.value) == ObjectsMode)
  {
    var remote := Observe(cfg, paged, prefix, exclude, objects);
    ObservedSituation(cfg, paged, prefix, exclude, objects, stamps, dirs, s);
    TransferKeepsReserved(cfg, prefix, exclude, objects, remote, stamps, dirs, s, now);
    var mid := Transferred(prefix, objects, remote, s, now);
    PushedOrBundleDropped(cfg, paged, prefix, exclude, objects, s, now);
    WrittenManifest(cfg, prefix, exclude, mid, s, now);
  }

  lemma PushedOrBundleDropped(cfg: SyncConfig, paged: bool, prefix: string, exclude: Filter, objects: ObjectMap, s: Snapshot, now: int)
    requires cfg.Valid()
    ensures var remote := Observe(cfg, paged, prefix, exclude, objects);
      var written := ApplyAll(WriteOps(cfg, prefix, PushManifest(s), remote.manifest, now), Transferred(prefix, objects, remote, s, now));
      var after := Pushed(cfg, paged, prefix, exclude, objects, s, now);
      Tidy(prefix, written) ==> Tidy(prefix, after) && Load(after, prefix) == Load(written, prefix)
  {
    var remote := Observe(cfg, paged, prefix, exclude, objects);
    var written := ApplyAll(WriteOps(cfg, prefix, PushManifest(s), remote.manifest, now), Transferred(prefix, objects, remote, s, now));
    WithoutBundle(prefix, written);
  }

  lemma WithoutBundle(prefix: string, written: ObjectMap)
    ensures var after := written - {BundleKey(prefix)};
      Tidy(prefix, written) ==> Tidy(prefix, after) && Load(after, prefix) == Load(written, prefix)
  {
    BundleIsNotReserved(prefix);
    if Tidy(prefix, written) {
      WithoutKey(prefix, written, BundleKey(prefix));
    }
  }

  lemma WrittenManifest(cfg: SyncConfig, prefix: string, exclude: Filter, mid: ObjectMap, s: Snapshot, now: int)
    requires cfg.Valid() && Tidy(prefix, mid) && GoodPaths(exclude, s.files.Keys, s.emptyDirectories)
    ensures var written := ApplyAll(WriteOps(cfg, prefix, PushManifest(s), Load(mid, prefix), now), mid);
      var loaded := Load(written, prefix);
      && Tidy(prefix, written)
      && RecordedFiles(loaded) == StampedFiles(s.files) && RecordedDirs(loaded) == s.emptyDirectories
      && (loaded.Some? <==> !(s.files == map[] && s.emptyDirectories == {}))
      && (loaded.Some? ==> ModeOf(loaded.value) == ObjectsMode)
  {
    var m := PushManifest(s);
    assert m.manifestShards == [] && ModeOf(m) == ObjectsMode;
    ManifestAfterWrite(cfg, prefix, m, now, mid);
    WriteKeepsTidy(cfg, prefix, m, now, mid);
    PushManifestRecords(exclude, s);
  }

  lemma WithoutKey(prefix: string, written: ObjectMap, key: string)
    requires Tidy(prefix, written) && !Reserved(prefix, key)
    ensures Tidy(prefix, written - {key}) && Load(written - {key}, prefix) == Load(written, prefix)
  {
    forall k | Reserved(prefix, k) ensures SameAt(written, written - {key}, k) {
      assert k != key;
    }
    LoadFrame(prefix, written, written - {key});
    TidyFrame(prefix, written, written - {key});
  }

  /** The user objects a push leaves behind: those of the scan, and those stranded by a swap. */
  lemma PushedKeys(cfg: SyncConfig, paged: bool, prefix: string, exclude: Filter, objects: ObjectMap,
                   stamps: map<Path, FileEntry>, dirs: set<Path>, s: Snapshot, now: int)
    requires cfg.Valid() && ValidPrefix(prefix)
    requires Indexed(prefix, exclude, objects, stamps, dirs) && GoodPaths(exclude, s.files.Keys, s.emptyDirectories)
    ensures ExactKeys(prefix, Pushed(cfg, paged, prefix, exclude, objects, s, now), FilesAfter(stamps, s), DirsAfter(dirs, s))
  {
    var remote := Observe(cfg, paged, prefix, exclude, objects);
    ObservedSituation(cfg, paged, prefix, exclude, objects, stamps, dirs, s);
    TransferredKeys(cfg, prefix, exclude, objects, remote, stamps, dirs, s, now);
    var mid := Transferred(prefix, objects, remote, s, now);
    var after := Pushed(cfg, paged, prefix, exclude, objects, s, now);
    var fs, ds := FilesAfter(stamps, s), DirsAfter(dirs, s);
    forall k ensures k in after && UserKey(prefix, k) <==> k in FileKeys(prefix, fs) || k in DirKeys(prefix, ds) {
      SameUserKey(cfg, paged, prefix, exclude, objects, stamps, dirs, s, now, k);
      assert k in mid && UserKey(prefix, k) <==> k in FileKeys(prefix, fs) || k in DirKeys(prefix, ds);
    }
  }

  lemma SameUserKey(cfg: SyncConfig, paged: bool, prefix: string, exclude: Filter, objects: ObjectMap,
                    stamps: map<Path, FileEntry>, dirs: set<Path>, s: Snapshot, now: int, k: string)
    requires cfg.Valid() && ValidPrefix(prefix)
    requires Indexed(prefix, exclude, objects, stamps, dirs) && GoodPaths(exclude, s.files.Keys, s.emptyDirectories)
    ensures UserKey(prefix, k) ==>
      SameAt(Transferred(prefix, objects, Observe(cfg, paged, prefix, exclude, objects), s, now),
             Pushed(cfg, paged, prefix, exclude, objects, s, now), k)
  {
    if Reserved(prefix, k) || k == BundleKey(prefix) {
      ReservedIsNotUser(prefix, k);
    } else {
      PushLeaves(cfg, paged, prefix, exclude, objects, stamps, dirs, s, now, k);
    }
  }

  /** The object of every scanned file: fresh when its stamp changed, as it was otherwise. */
  lemma PushedFile(cfg: SyncConfig, paged: bool, prefix: string, exclude: Filter, objects: ObjectMap,
                   stamps: map<Path, FileEntry>, dirs: set<Path>, s: Snapshot, now: int, p: Path)
    requires cfg.Valid() && ValidPrefix(prefix)
    requires Indexed(prefix, exclude, objects, stamps, dirs) && GoodPaths(exclude, s.files.Keys, s.emptyDirectories)
    requires p in s.files
    ensures var after := Pushed(cfg, paged, prefix, exclude, objects, s, now);
      var k := FileKey(prefix, p);
      && k in after && (!Stale(stamps, p, s.files[p]) ==> k in objects)
      && after[k] == if Stale(stamps, p, s.files[p]) then Uploaded(s.files[p], now) else objects[k]
  {
    var remote := Observe(cfg, paged, prefix, exclude, objects);
    ObservedSituation(cfg, paged, prefix, exclude, objects, stamps, dirs, s);
    TransferredFile(cfg, prefix, exclude, objects, remote, stamps, dirs, s, now, p);
    KeyRoundTrip(prefix, p);
    SameUserKey(cfg, paged, prefix, exclude, objects, stamps, dirs, s, now, FileKey(prefix, p));
  }

  lemma NoRootKey(cfg: SyncConfig, paged: bool, prefix: string, exclude: Filter, objects: ObjectMap,
                  stamps: map<Path, FileEntry>, dirs: set<Path>, s: Snapshot, now: int, k: string)
    requires cfg.Valid() && ValidPrefix(prefix)
    requires Indexed(prefix, exclude, objects, stamps, dirs) && GoodPaths(exclude, s.files.Keys, s.emptyDirectories)
    requires k in Pushed(cfg, paged, prefix, exclude, objects, s, now)
    ensures KeyPath(prefix, k) != Some([])
  {
    if Reserved(prefix, k) || k == BundleKey(prefix) {
      ReservedIsNotUser(prefix, k);
    } else if !UserKey(prefix, k) {
      PushLeavesOthers(cfg, paged, prefix, exclude, objects, stamps, dirs, s, now, k);
    }
  }

  // ---- framing, whatever the prefix holds ------------------------------------------------------------------

  predicate Leaves(op: StoreOp, k: string) {
    match op case Put(key, _) => key != k case Delete(keys) => k !in keys
  }

  ghost predicate AllLeave(ops: seq<StoreOp>, k: string) {
    forall i :: 0 <= i < |ops| ==> Leaves(ops[i], k)
  }

  lemma {:induction false} OpsLeave(ops: seq<StoreOp>, before: ObjectMap, k: string)
    requires AllLeave(ops, k)
    ensures SameAt(before, ApplyAll(ops, before), k)
    decreases |ops|
  {
    if ops != [] {
      OpsLeave(ops[..|ops| - 1], before, k);
      assert Leaves(ops[|ops| - 1], k);
    }
  }

  lemma {:induction false} DeletesLeave(keys: seq<string>, k: string)
    requires k !in keys
    ensures AllLeave(DeleteOps(keys), k)
    decreases |keys|
  {
    if |keys| > 1000 {
      DeletesLeave(keys[1000..], k);
    }
  }

  /** A manifest write touches the manifest, the shards and the old shards by name. */
  lemma WriteOpsLeave(cfg: SyncConfig, prefix: string, m: ManifestDoc, existing: Option<ManifestDoc>, now: int, k: string)
    requires cfg.Valid() && !Reserved(prefix, k) && k !in OldShards(existing)
    ensures AllLeave(WriteOps(cfg, prefix, m, existing, now), k)
  {
    var shards0, n := OldShards(existing), |ChunksOf(cfg, m)|;
    var stale := FilterOut(shards0, ShardKeys(prefix, n));
    DeletesLeave([ManifestKey(prefix)] + shards0, k);
    DeletesLeave(shards0, k);
    DeletesLeave(stale, k);
    forall i | 0 <= i < n ensures ShardKey(prefix, i) != k {
      assert ShardKeys(prefix, n)[i] == ShardKey(prefix, i);
      ShardKeysAreReserved(prefix, n, ShardKey(prefix, i));
    }
  }

  /** The key of a file or an empty directory the sync engine may write or delete. */
  predicate Touchable(prefix: string, exclude: Filter, k: string) {
    Managed(prefix, exclude, k) && KeyPath(prefix, k) != Some([])
  }

  lemma {:induction false} IndexIsManaged(prefix: string, exclude: Filter, keys: seq<string>, listing: Listing, p: seq<string>)
    requires forall k :: k in keys ==> k in listing && listing[k].key == k
    ensures p in IndexOf(prefix, exclude, keys, listing) ==>
      var k := IndexOf(prefix, exclude, keys, listing)[p].key; Managed(prefix, exclude, k) && KeyPath(prefix, k) == Some(p)
    decreases |keys|
  {
    if keys != [] {
      assert keys[|keys| - 1] in keys;
      IndexIsManaged(prefix, exclude, keys[..|keys| - 1], listing, p);
    }
  }

  lemma ObservedIsManaged(cfg: SyncConfig, paged: bool, prefix: string, exclude: Filter, objects: ObjectMap, p: seq<string>)
    requires cfg.Valid()
    ensures var index := Observe(cfg, paged, prefix, exclude, objects).index;
      p in index ==> Managed(prefix, exclude, index[p].key) && KeyPath(prefix, index[p].key) == Some(p)
  {
    var first := if paged then Load(objects, prefix) else None;
    var listing := if first.Some? then Synthetic(prefix, first.value, exclude) else ListPrefix(objects, prefix);
    SortedListing(cfg, listing);
    IndexIsManaged(prefix, exclude, Sorted(cfg.keyLess, listing.Keys), listing, p);
  }

  lemma TransferLeaves(cfg: SyncConfig, paged: bool, prefix: string, exclude: Filter, objects: ObjectMap, s: Snapshot, now: int, k: string)
    requires cfg.Valid() && GoodPaths(exclude, s.files.Keys, s.emptyDirectories) && !Touchable(prefix, exclude, k)
    ensures SameAt(objects, Transferred(prefix, objects, Observe(cfg, paged, prefix, exclude, objects), s, now), k)
  {
    var remote := Observe(cfg, paged, prefix, exclude, objects);
    forall p: Path | Clean(exclude, p) ensures k != FileKey(prefix, p) && k != DirKey(prefix, p) {
      KeyRoundTrip(prefix, p);
    }
    NotAmongCleanKeys(prefix, exclude, k, Uploads(objects, remote, s.files));
    NotAmongCleanKeys(prefix, exclude, k, NewMarkers(remote, s.emptyDirectories));
    forall p | p in Gone(remote, s) ensures remote.index[p].key != k {
      ObservedIsManaged(cfg, paged, prefix, exclude, objects, p);
    }
  }

  /** Whatever the prefix holds, a push of a scan leaves every object alone that is not the file or marker of
      a path it manages, not reserved, and not named as a shard by the manifest it read. */
  lemma PushFrame(cfg: SyncConfig, paged: bool, prefix: string, exclude: Filter, objects: ObjectMap, s: Snapshot, now: int, k: string)
    requires cfg.Valid() && GoodPaths(exclude, s.files.Keys, s.emptyDirectories)
    requires !Touchable(prefix, exclude, k) && !Reserved(prefix, k) && k != BundleKey(prefix)
    requires k !in OldShards(Observe(cfg, paged, prefix, exclude, objects).manifest)
    ensures SameAt(objects, Pushed(cfg, paged, prefix, exclude, objects, s, now), k)
  {
    var remote := Observe(cfg, paged, prefix, exclude, objects);
    TransferLeaves(cfg, paged, prefix, exclude, objects, s, now, k);
    WriteOpsLeave(cfg, prefix, PushManifest(s), remote.manifest, now, k);
    OpsLeave(WriteOps(cfg, prefix, PushManifest(s), remote.manifest, now), Transferred(prefix, objects, remote, s, now), k);
  }
}
