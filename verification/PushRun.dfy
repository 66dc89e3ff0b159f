/** The push itself, against the plan of module `Push`. Workers run in any order. */
module PushRun {
  import opened Orders
  import opened Options
  import opened Paths
  import opened Storage
  import opened Manifest
  import opened LocalTree
  import opened Fingerprints
  import opened Push

  /** Each index entry carries a key of its own path. */
  ghost predicate IndexKeysFit(prefix: string, index: Index) {
    forall p :: p in index ==> KeyPath(prefix, index[p].key) == Some(p)
  }

  lemma {:induction false} IndexKeysFitAll(prefix: string, exclude: Filter, keys: seq<string>, listing: Listing)
    requires forall k :: k in keys ==> k in listing
    requires forall k :: k in listing ==> listing[k].key == k
    ensures IndexKeysFit(prefix, IndexOf(prefix, exclude, keys, listing))
    decreases |keys|
  {
    if keys != [] {
      IndexKeysFitAll(prefix, exclude, keys[..|keys| - 1], listing);
    }
  }

  lemma ObservedKeysFit(cfg: SyncConfig, paged: bool, prefix: string, exclude: Filter, objects: ObjectMap)
    requires cfg.Valid()
    ensures IndexKeysFit(prefix, Observe(cfg, paged, prefix, exclude, objects).index)
  {
    var first := if paged then Load(objects, prefix) else None;
    var listing := if first.Some? then Synthetic(prefix, first.value, exclude) else ListPrefix(objects, prefix);
    SortedListing(cfg, listing);
    IndexKeysFitAll(prefix, exclude, Sorted(cfg.keyLess, listing.Keys), listing);
  }

  // ---- single loops -------------------------------------------------------------------------------

  lemma AddUpload(prefix: string, objects: ObjectMap, files: map<Path, FileData>, up: set<Path>, p: Path, now: int)
    requires p in files && p != []
    ensures WithUploads(prefix, objects, files, up + {p}, now)
         == WithUploads(prefix, objects, files, up, now)[FileKey(prefix, p) := Uploaded(files[p], now)]
  {
    var before := WithUploads(prefix, objects, files, up, now);
    var after := WithUploads(prefix, objects, files, up + {p}, now);
    forall k ensures k in after <==> k in before || k == FileKey(prefix, p)
      ensures k in after && k != FileKey(prefix, p) && k in before ==> after[k] == before[k]
      ensures k == FileKey(prefix, p) && k in after ==> after[k] == Uploaded(files[p], now)
    {
      AddUploadAt(prefix, objects, files, up, p, now, k);
    }
    OneMore(before, after, FileKey(prefix, p), Uploaded(files[p], now));
  }

  lemma OneMore(before: ObjectMap, after: ObjectMap, key: string, stored: StoredObject)
    requires forall k :: k in after <==> k in before || k == key
    requires forall k :: k in after && k != key && k in before ==> after[k] == before[k]
    requires key in after && after[key] == stored
    ensures after == before[key := stored]
  {
  }

  lemma AddUploadAt(prefix: string, objects: ObjectMap, files: map<Path, FileData>, up: set<Path>, p: Path, now: int, k: string)
    requires p in files && p != []
    ensures var before, after := WithUploads(prefix, objects, files, up, now), WithUploads(prefix, objects, files, up + {p}, now);
      && (k in after <==> k in before || k == FileKey(prefix, p))
      && (k in after && k != FileKey(prefix, p) && k in before ==> after[k] == before[k])
      && (k == FileKey(prefix, p) ==> after[k] == Uploaded(files[p], now))
  {
    KeyRoundTrip(prefix, p);
    UploadsAtKey(prefix, objects, files, up + {p}, now, k);
    UploadsAtKey(prefix, objects, files, up, now, k);
    AddFileKey(prefix, up, p, k);
  }

  lemma UploadsAtKey(prefix: string, objects: ObjectMap, files: map<Path, FileData>, up: set<Path>, now: int, k: string)
    ensures var after := WithUploads(prefix, objects, files, up, now);
      && (k in after <==> k in objects || k in FileKeys(prefix, up))
      && (k in FileKeys(prefix, up) ==> after[k] == UploadAt(prefix, files, k, now))
      && (k in objects && k !in FileKeys(prefix, up) ==> after[k] == objects[k])
  {
  }

  lemma AddFileKey(prefix: string, paths: set<Path>, p: Path, k: string)
    ensures k in FileKeys(prefix, paths + {p}) <==> k in FileKeys(prefix, paths) || k == FileKey(prefix, p)
  {
    if k in FileKeys(prefix, paths) {
      var q :| q in paths && FileKey(prefix, q) == k;
      assert q in paths + {p};
    }
    if k == FileKey(prefix, p) { assert p in paths + {p}; }
  }

  /** Uploading other paths does not touch the objects of `p`. */
  lemma UploadsLeaveOthers(prefix: string, objects: ObjectMap, files: map<Path, FileData>, up: set<Path>, now: int, key: string, p: seq<string>)
    requires KeyPath(prefix, key) == Some(p) && p !in up && [] !in up
    ensures var after := WithUploads(prefix, objects, files, up, now);
      (key in after <==> key in objects) && (key in objects ==> after[key] == objects[key])
  {
    if key in FileKeys(prefix, up) {
      var q :| q in up && FileKey(prefix, q) == key;
      KeyRoundTrip(prefix, q);
    }
  }

  /** The uploads whose turn is over. */
  ghost function UploadsExcept(before: ObjectMap, remote: Remote, files: map<Path, FileData>, todo: set<Path>): set<Path> {
    Uploads(before, remote, files) - todo
  }

  lemma UploadsEnds(prefix: string, before: ObjectMap, remote: Remote, files: map<Path, FileData>, now: int)
    ensures UploadsExcept(before, remote, files, files.Keys) == {}
    ensures UploadsExcept(before, remote, files, {}) == Uploads(before, remote, files)
    ensures WithUploads(prefix, before, files, {}, now) == before
  {
  }

  lemma UploadsStep(before: ObjectMap, remote: Remote, files: map<Path, FileData>, todo: set<Path>, p: Path)
    requires p in todo && todo <= files.Keys
    ensures var done := UploadsExcept(before, remote, files, todo);
      && p !in done && done <= files.Keys
      && UploadsExcept(before, remote, files, todo - {p}) == if NeedsUpload(before, remote, p, files[p]) then done + {p} else done
  {
  }

  method UploadFiles(store: ObjectStore, prefix: string, remote: Remote, files: map<Path, FileData>)
      returns (ok: bool, uploaded: nat)
    requires [] !in files && IndexKeysFit(prefix, remote.index)
    modifies store`objects, store`log
    ensures ok <==> HeadsSucceed(old(store.objects), remote, files)
    ensures ok ==>
      var up := Uploads(old(store.objects), remote, files);
      store.objects == WithUploads(prefix, old(store.objects), files, up, store.clock) && uploaded == |up|
  {
    ghost var before := store.objects;
    ghost var up: set<Path> := {};
    uploaded := 0;
    var todo := files.Keys;
    UploadsEnds(prefix, before, remote, files, store.clock);
    while todo != {}
      invariant todo <= files.Keys
      invariant up == UploadsExcept(before, remote, files, todo)
      invariant store.objects == WithUploads(prefix, before, files, up, store.clock)
      invariant uploaded == |up|
      invariant forall p :: p in files && p !in todo && NeedsHead(remote, p, files[p]) ==> remote.index[p].key in before
      decreases todo
    {
      var p :| p in todo;
      UploadsStep(before, remote, files, todo, p);
      var sent := UploadOne(store, prefix, remote, p, files, before, up);
      if sent.None? {
        return false, uploaded;
      }
      todo := todo - {p};
      if sent.value {
        up := up + {p};
        uploaded := uploaded + 1;
      }
    }
    return true, uploaded;
  }

  /** One upload worker. */
  method UploadOne(store: ObjectStore, prefix: string, remote: Remote, p: Path, files: map<Path, FileData>,
                   ghost before: ObjectMap, ghost up: set<Path>)
      returns (sent: Option<bool>)
    requires IndexKeysFit(prefix, remote.index) && p in files && [] !in files && up <= files.Keys
    requires p !in up && store.objects == WithUploads(prefix, before, files, up, store.clock)
    modifies store`objects, store`log
    ensures sent.None? <==> NeedsHead(remote, p, files[p]) && remote.index[p].key !in before
    ensures sent.Some? ==> (sent.value <==> NeedsUpload(before, remote, p, files[p]))
    ensures sent.Some? ==>
      store.objects == WithUploads(prefix, before, files, if sent.value then up + {p} else up, store.clock)
  {
    sent := ShouldUpload(store, prefix, remote, p, files[p], before, files, up);
    if sent.Some? && sent.value {
      AddUpload(prefix, before, files, up, p, store.clock);
      store.PutObject(FileKey(prefix, p), Bytes(files[p].data), MtimeMetadata(files[p].mtimeMs));
    }
  }

  /** The test at the head of each upload worker; `None` when the service does not know the key. */
  method ShouldUpload(store: ObjectStore, prefix: string, remote: Remote, p: Path, f: FileData,
                      ghost before: ObjectMap, ghost files: map<Path, FileData>, ghost up: set<Path>)
      returns (go: Option<bool>)
    requires IndexKeysFit(prefix, remote.index)
    requires p !in up && [] !in up && store.objects == WithUploads(prefix, before, files, up, store.clock)
    ensures go.None? <==> NeedsHead(remote, p, f) && remote.index[p].key !in before
    ensures go.Some? ==> (go.value <==> NeedsUpload(before, remote, p, f))
  {
    if p in remote.index && !IsMarker(remote.index[p].key) && remote.index[p].size == |f.data| {
      var known := Known(remote);
      if p in known && known[p] == StampOf(f) {
        return Some(false);
      }
      var key := remote.index[p].key;
      UploadsLeaveOthers(prefix, before, files, up, store.clock, key, p);
      if key !in store.objects {
        return None;
      }
      return Some(ResolvedMtime(store.objects[key]) != Trunc(f.mtimeMs));
    }
    return Some(true);
  }

  lemma AddDirKey(prefix: string, paths: set<Path>, d: Path)
    ensures DirKeys(prefix, paths + {d}) == DirKeys(prefix, paths) + {DirKey(prefix, d)}
  {
  }

  lemma AddMarker(prefix: string, objects: ObjectMap, dirs: set<Path>, d: Path, now: int)
    ensures WithMarkers(prefix, objects, dirs + {d}, now)
         == WithMarkers(prefix, objects, dirs, now)[DirKey(prefix, d) := MarkerObject(now)]
  {
    AddDirKey(prefix, dirs, d);
  }

  ghost function MarkersExcept(remote: Remote, dirs: set<Path>, todo: set<Path>): set<Path> {
    NewMarkers(remote, dirs) - todo
  }

  lemma MarkersEnds(prefix: string, before: ObjectMap, remote: Remote, dirs: set<Path>, now: int)
    ensures MarkersExcept(remote, dirs, dirs) == {}
    ensures MarkersExcept(remote, dirs, {}) == NewMarkers(remote, dirs)
    ensures WithMarkers(prefix, before, {}, now) == before
  {
  }

  lemma MarkersStep(remote: Remote, dirs: set<Path>, todo: set<Path>, d: Path)
    requires d in todo && todo <= dirs
    ensures var done := MarkersExcept(remote, dirs, todo);
      && d !in done
      && MarkersExcept(remote, dirs, todo - {d}) == if d in remote.index && IsMarker(remote.index[d].key) then done else done + {d}
  {
  }

  method CreateMarkers(store: ObjectStore, prefix: string, remote: Remote, dirs: set<Path>) returns (created: nat)
    modifies store`objects, store`log
    ensures store.objects == WithMarkers(prefix, old(store.objects), NewMarkers(remote, dirs), store.clock)
    ensures created == |NewMarkers(remote, dirs)|
  {
    ghost var before := store.objects;
    ghost var added: set<Path> := {};
    created := 0;
    var todo := dirs;
    MarkersEnds(prefix, before, remote, dirs, store.clock);
    while todo != {}
      invariant todo <= dirs
      invariant added == MarkersExcept(remote, dirs, todo)
      invariant store.objects == WithMarkers(prefix, before, added, store.clock)
      invariant created == |added|
      decreases todo
    {
      var d :| d in todo;
      MarkersStep(remote, dirs, todo, d);
      todo := todo - {d};
      if !(d in remote.index && IsMarker(remote.index[d].key)) {
        AddMarker(prefix, before, added, d, store.clock);
        store.PutObject(DirKey(prefix, d), Bytes([]), None);
        added := added + {d};
        created := created + 1;
      }
    }
  }

  /** The keys of these index entries, one for each. */
  ghost predicate KeysListed(remote: Remote, keys: seq<string>, paths: set<seq<string>>) {
    paths <= remote.index.Keys && Elements(keys) == KeysOf(remote, paths) && |keys| == |paths|
  }

  function KeysOf(remote: Remote, paths: set<seq<string>>): set<string>
    requires paths <= remote.index.Keys
  {
    set p | p in paths :: remote.index[p].key
  }

  lemma KeysListedSnoc(remote: Remote, keys: seq<string>, seen: set<seq<string>>, p: seq<string>)
    requires KeysListed(remote, keys, seen) && p in remote.index && p !in seen
    ensures KeysListed(remote, keys + [remote.index[p].key], seen + {p})
  {
    assert Elements(keys + [remote.index[p].key]) == Elements(keys) + {remote.index[p].key};
    assert KeysOf(remote, seen + {p}) == KeysOf(remote, seen) + {remote.index[p].key};
  }

  lemma GoneStep(remote: Remote, s: Snapshot, todo: set<seq<string>>, p: seq<string>)
    requires p in todo && todo <= remote.index.Keys
    ensures var all := Gone(remote, s);
      all - (todo - {p}) == (all - todo) + if p != [] && p !in s.files && p !in s.emptyDirectories then {p} else {}
  {
  }

  method KeysToDelete(remote: Remote, s: Snapshot) returns (keys: seq<string>)
    ensures Elements(keys) == GoneKeys(remote, s) && |keys| == |Gone(remote, s)|
  {
    keys := [];
    var todo := remote.index.Keys;
    ghost var seen: set<seq<string>> := {};
    assert Gone(remote, s) - remote.index.Keys == {};
    while todo != {}
      invariant todo <= remote.index.Keys
      invariant seen == Gone(remote, s) - todo
      invariant KeysListed(remote, keys, seen)
      decreases todo
    {
      var p :| p in todo;
      GoneStep(remote, s, todo, p);
      if p != [] && p !in s.files && p !in s.emptyDirectories {
        KeysListedSnoc(remote, keys, seen, p);
        keys := keys + [remote.index[p].key];
        seen := seen + {p};
      }
      todo := todo - {p};
    }
    assert seen == Gone(remote, s);
  }

  // ---- the push ---------------------------------------------------------------------------------------

  datatype PushOutcome = PushFailed | PushDone(fingerprint: string, counts: PushCounts)

  ghost function CanPush(cfg: SyncConfig, paged: bool, prefix: string, exclude: Filter, objects: ObjectMap, s: Snapshot): bool
    requires cfg.Valid()
  {
    HeadsSucceed(objects, Observe(cfg, paged, prefix, exclude, objects), s.files)
  }

  method ObserveRemote(cfg: SyncConfig, store: ObjectStore, prefix: string, exclude: Filter) returns (remote: Remote)
    requires cfg.Valid()
    ensures remote == Observe(cfg, store.paged, prefix, exclude, store.objects)
  {
    var manifest: Option<ManifestDoc> := None;
    if store.paged {
      manifest := LoadManifest(store, prefix);
    }
    var listing: Listing;
    if manifest.Some? {
      listing := BuildSynthetic(prefix, manifest.value, exclude);
    } else {
      listing := ListPrefix(store.objects, prefix);
      if ManifestKey(prefix) in listing {
        manifest := LoadManifest(store, prefix);
      }
    }
    var index := BuildIndex(cfg, prefix, exclude, listing);
    remote := Remote(index, manifest);
  }

  method Transfer(cfg: SyncConfig, store: ObjectStore, prefix: string, remote: Remote, s: Snapshot)
      returns (ok: bool, counts: PushCounts)
    requires [] !in s.files && IndexKeysFit(prefix, remote.index)
    modifies store`objects, store`log
    ensures ok <==> HeadsSucceed(old(store.objects), remote, s.files)
    ensures ok ==> store.objects == Transferred(prefix, old(store.objects), remote, s, store.clock)
    ensures ok ==> counts == CountsOf(old(store.objects), remote, s)
  {
    var uploaded;
    ok, uploaded := UploadFiles(store, prefix, remote, s.files);
    counts := PushCounts(uploaded, 0, 0);
    if ok {
      var created := CreateMarkers(store, prefix, remote, s.emptyDirectories);
      var keys := KeysToDelete(remote, s);
      store.DeleteObjects(keys);
      counts := PushCounts(uploaded, |keys|, created);
    }
  }

  /** Write the manifest and, after a change, drop the bundle. */
  method RecordPush(cfg: SyncConfig, store: ObjectStore, prefix: string, s: Snapshot, existing: Option<ManifestDoc>, mutated: bool)
    requires cfg.Valid()
    modifies store`objects, store`log
    ensures var after := ApplyAll(WriteOps(cfg, prefix, PushManifest(s), existing, store.clock), old(store.objects));
      store.objects == if mutated then after - {BundleKey(prefix)} else after
  {
    WriteManifest(cfg, store, prefix, Stamps(s.files), s.emptyDirectories, Some(ObjectsMode), existing);
    if mutated {
      store.DeleteObjects([BundleKey(prefix)]);
      assert Elements([BundleKey(prefix)]) == {BundleKey(prefix)};
    }
  }

  method PushDirectory(cfg: SyncConfig, store: ObjectStore, prefix: string, exclude: Filter, dir: LocalDirectory)
      returns (outcome: PushOutcome)
    requires cfg.Valid() && WellFormed(dir.tree)
    modifies store`objects, store`log, dir
    ensures outcome.PushDone? <==> CanPush(cfg, store.paged, prefix, exclude, old(store.objects), Scan(old(dir.tree), exclude))
    ensures outcome.PushDone? ==>
      var s := Scan(old(dir.tree), exclude);
      && store.objects == Pushed(cfg, store.paged, prefix, exclude, old(store.objects), s, store.clock)
      && dir.tree == Pruned(old(dir.tree))
      && outcome.fingerprint == Fingerprint(cfg.pathLess, Stamps(s.files), s.emptyDirectories)
      && outcome.counts == CountsOf(old(store.objects), Observe(cfg, store.paged, prefix, exclude, old(store.objects)), s)
  {
    var s := CollectSnapshot(dir.tree, exclude);
    var fingerprint := CreateFingerprint(cfg.pathLess, Stamps(s.files), s.emptyDirectories);
    var remote := ObserveRemote(cfg, store, prefix, exclude);
    ObservedKeysFit(cfg, store.paged, prefix, exclude, store.objects);
    var ok, counts := Transfer(cfg, store, prefix, remote, s);
    if !ok {
      return PushFailed;
    }
    RecordPush(cfg, store, prefix, s, remote.manifest, Mutated(counts));
    dir.PruneEmptyDirectories();
    return PushDone(fingerprint, counts);
  }
}
