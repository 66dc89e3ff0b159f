/** After a push: the objects, the manifest that indexes them, and runs of pushes. */
module IndexProofs {
  import opened Orders
  import opened Paths
  import opened Storage
  import opened Manifest
  import opened ManifestProofs
  import opened LocalTree
  import opened Push
  import opened PushRun
  import opened PushProofs

  // ---- the objects after the transfer ----------------------------------------------------------------

  /** Paths that end up with a file object: the files, and old files that are empty directories now. */
  function FilesAfter(stamps: map<Path, FileEntry>, s: Snapshot): set<Path> {
    s.files.Keys + (stamps.Keys * s.emptyDirectories)
  }

  function DirsAfter(dirs: set<Path>, s: Snapshot): set<Path> {
    s.emptyDirectories + (dirs * s.files.Keys)
  }

  ghost predicate Situation(cfg: SyncConfig, prefix: string, exclude: Filter, objects: ObjectMap, remote: Remote,
                            stamps: map<Path, FileEntry>, dirs: set<Path>, s: Snapshot) {
    && cfg.Valid() && ValidPrefix(prefix)
    && Indexed(prefix, exclude, objects, stamps, dirs)
    && GoodPaths(exclude, s.files.Keys, s.emptyDirectories)
    && IndexFor(prefix, remote.index, stamps, dirs)
    && Known(remote) == stamps
    && remote.manifest == Load(objects, prefix)
  }

  /** The keys the plan writes or deletes. */
  lemma GoneKeysOf(cfg: SyncConfig, prefix: string, exclude: Filter, objects: ObjectMap, remote: Remote,
                   stamps: map<Path, FileEntry>, dirs: set<Path>, s: Snapshot)
    requires Situation(cfg, prefix, exclude, objects, remote, stamps, dirs, s)
    ensures GoneKeys(remote, s) == FileKeys(prefix, stamps.Keys - s.files.Keys - s.emptyDirectories)
                                 + DirKeys(prefix, dirs - s.files.Keys - s.emptyDirectories)
  {
    DirectoryPlan(prefix, exclude, remote, stamps, dirs, s);
    var fs, ds := stamps.Keys - s.files.Keys - s.emptyDirectories, dirs - s.files.Keys - s.emptyDirectories;
    forall k ensures k in GoneKeys(remote, s) <==> k in FileKeys(prefix, fs) + DirKeys(prefix, ds) {
      if k in GoneKeys(remote, s) {
        var p :| p in Gone(remote, s) && remote.index[p].key == k;
        assert p in fs || p in ds;
      }
      if k in FileKeys(prefix, fs) {
        var p :| p in fs && FileKey(prefix, p) == k;
        assert p in Gone(remote, s) && remote.index[p].key == k;
      }
      if k in DirKeys(prefix, ds) {
        var p :| p in ds && DirKey(prefix, p) == k;
        assert p in Gone(remote, s) && remote.index[p].key == k;
      }
    }
  }

  lemma FileKeyIn(prefix: string, paths: set<Path>, p: Path)
    requires p != [] && [] !in paths
    ensures FileKey(prefix, p) in FileKeys(prefix, paths) <==> p in paths
    ensures FileKey(prefix, p) !in DirKeys(prefix, paths)
    ensures DirKey(prefix, p) in DirKeys(prefix, paths) <==> p in paths
    ensures DirKey(prefix, p) !in FileKeys(prefix, paths)
  {
    forall q | q in paths
      ensures FileKey(prefix, q) == FileKey(prefix, p) ==> p == q
      ensures DirKey(prefix, q) == DirKey(prefix, p) ==> p == q
      ensures FileKey(prefix, q) != DirKey(prefix, p) && FileKey(prefix, p) != DirKey(prefix, q)
    {
      KeysDistinct(prefix, p, q);
      KeysDistinct(prefix, q, p);
    }
  }

  /** The file object at one path after the transfer. */
  lemma TransferredFile(cfg: SyncConfig, prefix: string, exclude: Filter, objects: ObjectMap, remote: Remote,
                        stamps: map<Path, FileEntry>, dirs: set<Path>, s: Snapshot, now: int, p: Path)
    requires Situation(cfg, prefix, exclude, objects, remote, stamps, dirs, s) && p != []
    ensures var after := Transferred(prefix, objects, remote, s, now);
      var k := FileKey(prefix, p);
      && (k in after <==> p in FilesAfter(stamps, s) || (k in objects && !(p in stamps)))
      && (p in s.files ==> after[k] == if Stale(stamps, p, s.files[p]) then Uploaded(s.files[p], now) else objects[k])
      && (p !in s.files && k in after ==> k in objects && after[k] == objects[k])
  {
    PlanOnIndexed(prefix, exclude, objects, remote, stamps, dirs, s);
    DirectoryPlan(prefix, exclude, remote, stamps, dirs, s);
    GoneKeysOf(cfg, prefix, exclude, objects, remote, stamps, dirs, s);
    KeyRoundTrip(prefix, p);
    FileKeyIn(prefix, Uploads(objects, remote, s.files), p);
    FileKeyIn(prefix, NewMarkers(remote, s.emptyDirectories), p);
    FileKeyIn(prefix, stamps.Keys - s.files.Keys - s.emptyDirectories, p);
    FileKeyIn(prefix, dirs - s.files.Keys - s.emptyDirectories, p);
  }

  lemma TransferredMarker(cfg: SyncConfig, prefix: string, exclude: Filter, objects: ObjectMap, remote: Remote,
                          stamps: map<Path, FileEntry>, dirs: set<Path>, s: Snapshot, now: int, d: Path)
    requires Situation(cfg, prefix, exclude, objects, remote, stamps, dirs, s) && d != []
    ensures var after := Transferred(prefix, objects, remote, s, now);
      var k := DirKey(prefix, d);
      k in after <==> d in DirsAfter(dirs, s) || (k in objects && d !in dirs)
  {
    DirectoryPlan(prefix, exclude, remote, stamps, dirs, s);
    GoneKeysOf(cfg, prefix, exclude, objects, remote, stamps, dirs, s);
    PlanOnIndexed(prefix, exclude, objects, remote, stamps, dirs, s);
    FileKeyIn(prefix, Uploads(objects, remote, s.files), d);
    FileKeyIn(prefix, NewMarkers(remote, s.emptyDirectories), d);
    FileKeyIn(prefix, stamps.Keys - s.files.Keys - s.emptyDirectories, d);
    FileKeyIn(prefix, dirs - s.files.Keys - s.emptyDirectories, d);
    FileKeyIn(prefix, dirs, d);
    if d in dirs { assert DirKey(prefix, d) in DirKeys(prefix, dirs); }
  }

  /** No clean path owns this key. */
  ghost predicate NoCleanKey(prefix: string, exclude: Filter, k: string) {
    forall p: Path :: Clean(exclude, p) ==> k != FileKey(prefix, p) && k != DirKey(prefix, p)
  }

  lemma NotAmongCleanKeys(prefix: string, exclude: Filter, k: string, paths: set<Path>)
    requires NoCleanKey(prefix, exclude, k)
    requires forall p :: p in paths ==> Clean(exclude, p)
    ensures k !in FileKeys(prefix, paths) && k !in DirKeys(prefix, paths)
  {
  }

  /** Anything that is not the key of a clean path is left alone by the transfer. */
  lemma TransferredElsewhere(cfg: SyncConfig, prefix: string, exclude: Filter, objects: ObjectMap, remote: Remote,
                             stamps: map<Path, FileEntry>, dirs: set<Path>, s: Snapshot, now: int, k: string)
    requires Situation(cfg, prefix, exclude, objects, remote, stamps, dirs, s)
    requires NoCleanKey(prefix, exclude, k)
    ensures var after := Transferred(prefix, objects, remote, s, now);
      (k in after <==> k in objects) && (k in after ==> after[k] == objects[k])
  {
    GoneKeysOf(cfg, prefix, exclude, objects, remote, stamps, dirs, s);
    NotAmongCleanKeys(prefix, exclude, k, Uploads(objects, remote, s.files));
    NotAmongCleanKeys(prefix, exclude, k, NewMarkers(remote, s.emptyDirectories));
    NotAmongCleanKeys(prefix, exclude, k, stamps.Keys - s.files.Keys - s.emptyDirectories);
    NotAmongCleanKeys(prefix, exclude, k, dirs - s.files.Keys - s.emptyDirectories);
  }

  lemma NotACleanKey(prefix: string, exclude: Filter, k: string)
    requires !UserKey(prefix, k)
    ensures NoCleanKey(prefix, exclude, k)
  {
    forall p: Path | Clean(exclude, p) ensures k != FileKey(prefix, p) && k != DirKey(prefix, p) {
      KeyRoundTrip(prefix, p);
    }
  }

  /** The user objects after the transfer, swaps included. */
  lemma TransferredKeys(cfg: SyncConfig, prefix: string, exclude: Filter, objects: ObjectMap, remote: Remote,
                        stamps: map<Path, FileEntry>, dirs: set<Path>, s: Snapshot, now: int)
    requires Situation(cfg, prefix, exclude, objects, remote, stamps, dirs, s)
    ensures ExactKeys(prefix, Transferred(prefix, objects, remote, s, now), FilesAfter(stamps, s), DirsAfter(dirs, s))
  {
    var after := Transferred(prefix, objects, remote, s, now);
    var fs, ds := FilesAfter(stamps, s), DirsAfter(dirs, s);
    forall k ensures k in after && UserKey(prefix, k) <==> k in FileKeys(prefix, fs) || k in DirKeys(prefix, ds) {
      if k in FileKeys(prefix, fs) || k in DirKeys(prefix, ds) {
        ListedObjectIsThere(cfg, prefix, exclude, objects, remote, stamps, dirs, s, now, k);
      } else if k in after && UserKey(prefix, k) {
        UserObjectIsListed(cfg, prefix, exclude, objects, remote, stamps, dirs, s, now, k);
      }
    }
  }

  lemma ListedObjectIsThere(cfg: SyncConfig, prefix: string, exclude: Filter, objects: ObjectMap, remote: Remote,
                            stamps: map<Path, FileEntry>, dirs: set<Path>, s: Snapshot, now: int, k: string)
    requires Situation(cfg, prefix, exclude, objects, remote, stamps, dirs, s)
    requires k in FileKeys(prefix, FilesAfter(stamps, s)) || k in DirKeys(prefix, DirsAfter(dirs, s))
    ensures k in Transferred(prefix, objects, remote, s, now) && UserKey(prefix, k)
  {
    KeyOfPath(prefix, FilesAfter(stamps, s), DirsAfter(dirs, s), k);
    var p: Path := KeyPath(prefix, k).value;
    TransferredFile(cfg, prefix, exclude, objects, remote, stamps, dirs, s, now, p);
    TransferredMarker(cfg, prefix, exclude, objects, remote, stamps, dirs, s, now, p);
  }

  lemma UserObjectIsListed(cfg: SyncConfig, prefix: string, exclude: Filter, objects: ObjectMap, remote: Remote,
                           stamps: map<Path, FileEntry>, dirs: set<Path>, s: Snapshot, now: int, k: string)
    requires Situation(cfg, prefix, exclude, objects, remote, stamps, dirs, s)
    requires k in Transferred(prefix, objects, remote, s, now) && UserKey(prefix, k)
    ensures k in FileKeys(prefix, FilesAfter(stamps, s)) || k in DirKeys(prefix, DirsAfter(dirs, s))
  {
    PlanOnIndexed(prefix, exclude, objects, remote, stamps, dirs, s);
    DirectoryPlan(prefix, exclude, remote, stamps, dirs, s);
    var up, marks := Uploads(objects, remote, s.files), NewMarkers(remote, s.emptyDirectories);
    if k in FileKeys(prefix, up) {
      var p :| p in up && FileKey(prefix, p) == k;
      assert p in FilesAfter(stamps, s);
    } else if k in DirKeys(prefix, marks) {
      var d :| d in marks && DirKey(prefix, d) == k;
      assert d in DirsAfter(dirs, s);
    } else {
      assert k in objects;
      KeyOfPath(prefix, stamps.Keys, dirs, k);
      var p: Path := KeyPath(prefix, k).value;
      TransferredFile(cfg, prefix, exclude, objects, remote, stamps, dirs, s, now, p);
      TransferredMarker(cfg, prefix, exclude, objects, remote, stamps, dirs, s, now, p);
    }
  }
}
