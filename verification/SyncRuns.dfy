/** Runs of pushes of arbitrary directories to one prefix, the bytes they leave there, and
    the push that finds nothing to do. */
module SyncRuns {
  import opened Orders
  import opened Options
  import opened Paths
  import opened Storage
  import opened Manifest
  import opened ManifestProofs
  import opened LocalTree
  import opened Push
  import opened PushRun
  import opened PushProofs
  import opened IndexProofs
  import opened RunProofs
  import opened IndexTheorems

  // ---- contents --------------------------------------------------------------------------------------------

  ghost predicate BytesMatch(prefix: string, objects: ObjectMap, files: map<Path, FileData>) {
    forall p :: p in files ==> FileKey(prefix, p) in objects && objects[FileKey(prefix, p)].body == Bytes(files[p].data)
  }

  /** A file whose size and truncated time did not change was not rewritten. */
  predicate SameStampSameBytes(files0: map<Path, FileData>, files: map<Path, FileData>) {
    forall p :: p in files0 && p in files && StampOf(files0[p]) == StampOf(files[p]) ==> files0[p].data == files[p].data
  }

  /** The prefix holds exactly this directory: true index, true bytes. */
  ghost predicate Holds(prefix: string, exclude: Filter, objects: ObjectMap, s: Snapshot) {
    && Indexed(prefix, exclude, objects, Stamps(s.files), s.emptyDirectories)
    && BytesMatch(prefix, objects, s.files)
  }

  lemma StaleIff(files0: map<Path, FileData>, p: Path, f: FileData)
    ensures Stale(Stamps(files0), p, f) <==> !(p in files0 && StampOf(files0[p]) == StampOf(f))
  {
    assert p in Stamps(files0) <==> p in files0;
  }

  /** The stored bytes are right after a push exactly when stamps tell changed files from unchanged ones. */
  lemma BytesAfterIff(cfg: SyncConfig, paged: bool, prefix: string, exclude: Filter, objects: ObjectMap,
                      s0: Snapshot, s: Snapshot, now: int)
    requires cfg.Valid() && ValidPrefix(prefix)
    requires Holds(prefix, exclude, objects, s0) && GoodPaths(exclude, s.files.Keys, s.emptyDirectories)
    ensures BytesMatch(prefix, Pushed(cfg, paged, prefix, exclude, objects, s, now), s.files)
       <==> SameStampSameBytes(s0.files, s.files)
  {
    var after := Pushed(cfg, paged, prefix, exclude, objects, s, now);
    forall p | p in s.files
      ensures FileKey(prefix, p) in after
      ensures after[FileKey(prefix, p)].body == Bytes(s.files[p].data)
         <==> (p in s0.files && StampOf(s0.files[p]) == StampOf(s.files[p]) ==> s0.files[p].data == s.files[p].data)
    {
      PushedFile(cfg, paged, prefix, exclude, objects, Stamps(s0.files), s0.emptyDirectories, s, now, p);
      StaleIff(s0.files, p, s.files[p]);
    }
  }

  // ---- runs --------------------------------------------------------------------------------------------------

  /** One push: the local directory at that moment and the time the store stamps its objects with. */
  datatype PushEvent = PushEvent(tree: Tree, now: int)

  ghost function Seen(exclude: Filter, events: seq<PushEvent>): Snapshot {
    if events == [] then Snapshot(map[], {}) else Scan(events[|events| - 1].tree, exclude)
  }

  ghost function RunStore(cfg: SyncConfig, paged: bool, prefix: string, exclude: Filter, objects: ObjectMap, events: seq<PushEvent>): ObjectMap
    requires cfg.Valid()
  {
    if events == [] then objects
    else
      var last := events[|events| - 1];
      Pushed(cfg, paged, prefix, exclude, RunStore(cfg, paged, prefix, exclude, objects, events[..|events| - 1]),
             Scan(last.tree, exclude), last.now)
  }

  ghost predicate LawfulStep(s0: Snapshot, s: Snapshot) {
    AllStamped(s.files) && NoSwap(s0.files.Keys, s0.emptyDirectories, s)
  }

  /** Every push sees stamped files, and no path swaps from one push to the next. */
  ghost predicate Lawful(exclude: Filter, events: seq<PushEvent>) {
    events == [] ||
    (Lawful(exclude, events[..|events| - 1]) && LawfulStep(Seen(exclude, events[..|events| - 1]), Seen(exclude, events)))
  }

  /** ... and no file is rewritten behind an unchanged stamp. */
  ghost predicate Faithful(exclude: Filter, events: seq<PushEvent>) {
    events == [] ||
    (Faithful(exclude, events[..|events| - 1]) &&
     SameStampSameBytes(Seen(exclude, events[..|events| - 1]).files, Seen(exclude, events).files))
  }

  ghost predicate Unused(prefix: string, objects: ObjectMap) {
    forall k :: k in objects ==> KeyPath(prefix, k) == None
  }

  /** After any lawful run the prefix is a true index of the directory pushed last. */
  lemma {:induction false} RunKeepsIndex(cfg: SyncConfig, paged: bool, prefix: string, exclude: Filter, objects: ObjectMap, events: seq<PushEvent>)
    requires cfg.Valid() && ValidPrefix(prefix) && Unused(prefix, objects)
    requires Lawful(exclude, events)
    ensures var s := Seen(exclude, events);
      Indexed(prefix, exclude, RunStore(cfg, paged, prefix, exclude, objects, events), Stamps(s.files), s.emptyDirectories)
    decreases |events|
  {
    if events == [] {
      EmptyPrefixIsIndexed(prefix, exclude, objects);
      StampsEmpty(map[]);
    } else {
      var init, last := events[..|events| - 1], events[|events| - 1];
      RunKeepsIndex(cfg, paged, prefix, exclude, objects, init);
      var s0 := Seen(exclude, init);
      ScanIsGood(last.tree, exclude);
      StampsEmpty(s0.files);
      PushKeepsIndex(cfg, paged, prefix, exclude, RunStore(cfg, paged, prefix, exclude, objects, init),
                     Stamps(s0.files), s0.emptyDirectories, Scan(last.tree, exclude), last.now);
    }
  }

  /** ... and holds its bytes. */
  lemma {:induction false} RunHoldsLast(cfg: SyncConfig, paged: bool, prefix: string, exclude: Filter, objects: ObjectMap, events: seq<PushEvent>)
    requires cfg.Valid() && ValidPrefix(prefix) && Unused(prefix, objects)
    requires Lawful(exclude, events) && Faithful(exclude, events)
    ensures Holds(prefix, exclude, RunStore(cfg, paged, prefix, exclude, objects, events), Seen(exclude, events))
    decreases |events|
  {
    RunKeepsIndex(cfg, paged, prefix, exclude, objects, events);
    if events != [] {
      var init, last := events[..|events| - 1], events[|events| - 1];
      RunHoldsLast(cfg, paged, prefix, exclude, objects, init);
      ScanIsGood(last.tree, exclude);
      BytesAfterIff(cfg, paged, prefix, exclude, RunStore(cfg, paged, prefix, exclude, objects, init),
                    Seen(exclude, init), Scan(last.tree, exclude), last.now);
    }
  }

  ghost predicate AlwaysAgrees(cfg: SyncConfig, paged: bool, prefix: string, exclude: Filter, objects: ObjectMap, events: seq<PushEvent>)
    requires cfg.Valid()
  {
    && Agrees(prefix, exclude, RunStore(cfg, paged, prefix, exclude, objects, events))
    && (events == [] || AlwaysAgrees(cfg, paged, prefix, exclude, objects, events[..|events| - 1]))
  }

  lemma UnusedAgrees(prefix: string, exclude: Filter, objects: ObjectMap)
    requires Unused(prefix, objects)
    ensures Agrees(prefix, exclude, objects)
  {
    EmptyPrefixIsTidy(prefix, objects);
  }

  /** Over every run from an unused prefix: the manifest agrees with the objects after each push
      if and only if all files are stamped and no path ever swaps. */
  lemma {:induction false} RunAgreesIff(cfg: SyncConfig, paged: bool, prefix: string, exclude: Filter, objects: ObjectMap, events: seq<PushEvent>)
    requires cfg.Valid() && ValidPrefix(prefix) && Unused(prefix, objects)
    ensures AlwaysAgrees(cfg, paged, prefix, exclude, objects, events) <==> Lawful(exclude, events)
    decreases |events|
  {
    if events == [] {
      UnusedAgrees(prefix, exclude, objects);
    } else {
      var init := events[..|events| - 1];
      RunAgreesIff(cfg, paged, prefix, exclude, objects, init);
      if Lawful(exclude, init) {
        LastPushAgreesIff(cfg, paged, prefix, exclude, objects, events);
      }
    }
  }

  lemma LastPushAgreesIff(cfg: SyncConfig, paged: bool, prefix: string, exclude: Filter, objects: ObjectMap, events: seq<PushEvent>)
    requires cfg.Valid() && ValidPrefix(prefix) && Unused(prefix, objects)
    requires events != [] && Lawful(exclude, events[..|events| - 1])
    ensures Agrees(prefix, exclude, RunStore(cfg, paged, prefix, exclude, objects, events))
       <==> LawfulStep(Seen(exclude, events[..|events| - 1]), Seen(exclude, events))
  {
    var init, last := events[..|events| - 1], events[|events| - 1];
    var s0 := Seen(exclude, init);
    RunKeepsIndex(cfg, paged, prefix, exclude, objects, init);
    ScanIsGood(last.tree, exclude);
    StampsEmpty(s0.files);
    AgreesIff(cfg, paged, prefix, exclude, RunStore(cfg, paged, prefix, exclude, objects, init),
              Stamps(s0.files), s0.emptyDirectories, Scan(last.tree, exclude), last.now);
  }

  // ---- nothing to do ---------------------------------------------------------------------------------------------

  lemma NothingPlanned(prefix: string, exclude: Filter, objects: ObjectMap, remote: Remote, stamps: map<Path, FileEntry>, dirs: set<Path>, s: Snapshot)
    requires Indexed(prefix, exclude, objects, stamps, dirs) && GoodPaths(exclude, s.files.Keys, s.emptyDirectories)
    requires IndexFor(prefix, remote.index, stamps, dirs) && Known(remote) == stamps
    ensures Uploads(objects, remote, s.files) == {} && NewMarkers(remote, s.emptyDirectories) == {} && Gone(remote, s) == {}
       <==> Stamps(s.files) == stamps && s.emptyDirectories == dirs
  {
    PlanOnIndexed(prefix, exclude, objects, remote, stamps, dirs, s);
    DirectoryPlan(prefix, exclude, remote, stamps, dirs, s);
    StampsEmpty(s.files);
    if Uploads(objects, remote, s.files) == {} {
      AllFresh(objects, remote, stamps, s);
      NoDifference(stamps, dirs, s);
    }
    if Stamps(s.files) == stamps {
      NoneStale(s.files, stamps);
    }
  }

  lemma NoDifference(stamps: map<Path, FileEntry>, dirs: set<Path>, s: Snapshot)
    requires stamps.Keys !! dirs && s.files.Keys !! s.emptyDirectories
    requires forall p :: p in s.files ==> p in stamps && stamps[p] == StampOf(s.files[p])
    ensures s.emptyDirectories - dirs == {} && (stamps.Keys + dirs) - s.files.Keys - s.emptyDirectories == {}
       ==> Stamps(s.files) == stamps && s.emptyDirectories == dirs
  {
    if s.emptyDirectories - dirs == {} && (stamps.Keys + dirs) - s.files.Keys - s.emptyDirectories == {} {
      forall p: Path ensures p in stamps ==> p in s.files ensures p in dirs <==> p in s.emptyDirectories {
        assert p !in s.emptyDirectories - dirs;
        assert p !in (stamps.Keys + dirs) - s.files.Keys - s.emptyDirectories;
      }
    }
  }

  lemma AllFresh(objects: ObjectMap, remote: Remote, stamps: map<Path, FileEntry>, s: Snapshot)
    requires Uploads(objects, remote, s.files) == {}
    requires Uploads(objects, remote, s.files) == set p | p in s.files && Stale(stamps, p, s.files[p])
    ensures forall p :: p in s.files ==> p in stamps && stamps[p] == StampOf(s.files[p])
  {
    forall p | p in s.files ensures p in stamps && stamps[p] == StampOf(s.files[p]) {
      assert p !in Uploads(objects, remote, s.files);
    }
  }

  lemma NoneStale(files: map<Path, FileData>, stamps: map<Path, FileEntry>)
    requires Stamps(files) == stamps
    ensures (set p | p in files && Stale(stamps, p, files[p])) == {}
  {
    forall p | p in files ensures !Stale(stamps, p, files[p]) {
      assert p in Stamps(files);
    }
  }

  /** A push reports no change exactly when the directory is the recorded one. */
  lemma QuietIff(cfg: SyncConfig, paged: bool, prefix: string, exclude: Filter, objects: ObjectMap,
                 stamps: map<Path, FileEntry>, dirs: set<Path>, s: Snapshot)
    requires cfg.Valid() && ValidPrefix(prefix)
    requires Indexed(prefix, exclude, objects, stamps, dirs) && GoodPaths(exclude, s.files.Keys, s.emptyDirectories)
    ensures !Mutated(CountsOf(objects, Observe(cfg, paged, prefix, exclude, objects), s))
       <==> Stamps(s.files) == stamps && s.emptyDirectories == dirs
  {
    var remote := Observe(cfg, paged, prefix, exclude, objects);
    ObservedIndex(cfg, paged, prefix, exclude, objects, stamps, dirs);
    NothingPlanned(prefix, exclude, objects, remote, stamps, dirs, s);
  }

  lemma NothingTransferred(prefix: string, objects: ObjectMap, remote: Remote, s: Snapshot, now: int)
    requires Uploads(objects, remote, s.files) == {} && NewMarkers(remote, s.emptyDirectories) == {} && Gone(remote, s) == {}
    ensures Transferred(prefix, objects, remote, s, now) == objects
  {
    EmptyKeySets(prefix);
    assert WithUploads(prefix, objects, s.files, {}, now) == objects;
    assert WithMarkers(prefix, objects, {}, now) == objects;
    assert GoneKeys(remote, s) == {};
  }

  lemma DeleteAbsentManifest(prefix: string, objects: ObjectMap)
    requires Tidy(prefix, objects) && Load(objects, prefix).None?
    ensures ApplyAll(DeleteOps([ManifestKey(prefix)] + OldShards(Load(objects, prefix))), objects) == objects
  {
    var keys := [ManifestKey(prefix)] + OldShards(Load(objects, prefix));
    assert keys == [ManifestKey(prefix)];
    DeleteOpsEffect(keys, objects);
    assert objects - Elements(keys) == objects;
  }

  lemma AlreadyRecorded(prefix: string, exclude: Filter, objects: ObjectMap, stamps: map<Path, FileEntry>, dirs: set<Path>, s: Snapshot)
    requires Indexed(prefix, exclude, objects, stamps, dirs) && GoodPaths(exclude, s.files.Keys, s.emptyDirectories)
    requires Stamps(s.files) == stamps && s.emptyDirectories == dirs && !(stamps == map[] && dirs == {})
    ensures Load(objects, prefix).Some? && Equivalent(Load(objects, prefix).value, PushManifest(s))
  {
    PushManifestRecords(exclude, s);
    forall p | p in s.files ensures Trunc(s.files[p].mtimeMs) > 0 {
      assert p in Stamps(s.files);
    }
    AllStampedMeansAll(s.files);
  }

  lemma NothingWritten(cfg: SyncConfig, prefix: string, exclude: Filter, objects: ObjectMap,
                       stamps: map<Path, FileEntry>, dirs: set<Path>, s: Snapshot, now: int)
    requires cfg.Valid()
    requires Indexed(prefix, exclude, objects, stamps, dirs) && GoodPaths(exclude, s.files.Keys, s.emptyDirectories)
    requires Stamps(s.files) == stamps && s.emptyDirectories == dirs
    ensures ApplyAll(WriteOps(cfg, prefix, PushManifest(s), Load(objects, prefix), now), objects) == objects
  {
    var m := PushManifest(s);
    PushManifestRecords(exclude, s);
    StampsEmpty(s.files);
    if s.files == map[] && dirs == {} {
      DeleteAbsentManifest(prefix, objects);
    } else {
      AlreadyRecorded(prefix, exclude, objects, stamps, dirs, s);
    }
  }

  /** Such a push leaves every object as it is, manifest and shards included. */
  lemma QuietPushChangesNothing(cfg: SyncConfig, paged: bool, prefix: string, exclude: Filter, objects: ObjectMap, s: Snapshot, now: int)
    requires cfg.Valid() && ValidPrefix(prefix)
    requires Indexed(prefix, exclude, objects, Stamps(s.files), s.emptyDirectories)
    ensures Pushed(cfg, paged, prefix, exclude, objects, s, now) == objects
  {
    var stamps, dirs := Stamps(s.files), s.emptyDirectories;
    StampsEmpty(s.files);
    var remote := Observe(cfg, paged, prefix, exclude, objects);
    ObservedIndex(cfg, paged, prefix, exclude, objects, stamps, dirs);
    NothingPlanned(prefix, exclude, objects, remote, stamps, dirs, s);
    NothingTransferred(prefix, objects, remote, s, now);
    NothingWritten(cfg, prefix, exclude, objects, stamps, dirs, s, now);
  }

  /** Pushing the same directory twice: the first push pruned it, so the second finds nothing to do
      if and only if there was no empty directory to prune; then it changes no object. */
  lemma PushTwice(cfg: SyncConfig, paged: bool, prefix: string, exclude: Filter, objects: ObjectMap,
                  stamps: map<Path, FileEntry>, dirs: set<Path>, t: Tree, now: int, later: int)
    requires cfg.Valid() && ValidPrefix(prefix) && WellFormed(t)
    requires Indexed(prefix, exclude, objects, stamps, dirs)
    requires AllStamped(Scan(t, exclude).files) && NoSwap(stamps.Keys, dirs, Scan(t, exclude))
    ensures var once := Pushed(cfg, paged, prefix, exclude, objects, Scan(t, exclude), now);
      var again := Scan(Pruned(t), exclude);
      && (!Mutated(CountsOf(once, Observe(cfg, paged, prefix, exclude, once), again)) <==> Scan(t, exclude).emptyDirectories == {})
      && (Scan(t, exclude).emptyDirectories == {} ==> Pushed(cfg, paged, prefix, exclude, once, again, later) == once)
  {
    var s := Scan(t, exclude);
    ScanIsGood(t, exclude);
    PushKeepsIndex(cfg, paged, prefix, exclude, objects, stamps, dirs, s, now);
    PrunedScan(t, exclude);
    var once := Pushed(cfg, paged, prefix, exclude, objects, s, now);
    var again := Scan(Pruned(t), exclude);
    QuietIff(cfg, paged, prefix, exclude, once, Stamps(s.files), s.emptyDirectories, again);
    if s.emptyDirectories == {} {
      QuietPushChangesNothing(cfg, paged, prefix, exclude, once, again, later);
    }
  }
}
