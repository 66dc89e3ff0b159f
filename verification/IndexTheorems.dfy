/** The index theorems: what one push keeps, exactly when the manifest stays a true index, and the
    same over every run of pushes. */
module IndexTheorems {
  import opened Orders
  import opened Options
  import opened Paths
  import opened Storage
  import opened Manifest
  import opened LocalTree
  import opened Push
  import opened PushRun
  import opened PushProofs
  import opened IndexProofs
  import opened RunProofs

  // ---- one push ------------------------------------------------------------------------------------------

  lemma PushedFilesStored(cfg: SyncConfig, paged: bool, prefix: string, exclude: Filter, objects: ObjectMap,
                          stamps: map<Path, FileEntry>, dirs: set<Path>, s: Snapshot, now: int)
    requires cfg.Valid() && ValidPrefix(prefix)
    requires Indexed(prefix, exclude, objects, stamps, dirs) && GoodPaths(exclude, s.files.Keys, s.emptyDirectories)
    ensures AllStamped(s.files) ==> FilesStored(prefix, Pushed(cfg, paged, prefix, exclude, objects, s, now), Stamps(s.files))
  {
    var after := Pushed(cfg, paged, prefix, exclude, objects, s, now);
    if AllStamped(s.files) {
      forall p | p in Stamps(s.files)
        ensures FileKey(prefix, p) in after
        ensures BodySize(after[FileKey(prefix, p)].body) == Stamps(s.files)[p].size
        ensures after[FileKey(prefix, p)].mtimeMs == Some(Stamps(s.files)[p].mtimeMs)
      {
        PushedFile(cfg, paged, prefix, exclude, objects, stamps, dirs, s, now, p);
      }
    }
  }

  /** Index agreement is kept by every push whose files are stamped and whose paths do not swap. */
  lemma PushKeepsIndex(cfg: SyncConfig, paged: bool, prefix: string, exclude: Filter, objects: ObjectMap,
                       stamps: map<Path, FileEntry>, dirs: set<Path>, s: Snapshot, now: int)
    requires cfg.Valid() && ValidPrefix(prefix)
    requires Indexed(prefix, exclude, objects, stamps, dirs) && GoodPaths(exclude, s.files.Keys, s.emptyDirectories)
    requires AllStamped(s.files) && NoSwap(stamps.Keys, dirs, s)
    ensures CanPush(cfg, paged, prefix, exclude, objects, s)
    ensures Indexed(prefix, exclude, Pushed(cfg, paged, prefix, exclude, objects, s, now), Stamps(s.files), s.emptyDirectories)
  {
    var after := Pushed(cfg, paged, prefix, exclude, objects, s, now);
    PushNeverFails(cfg, paged, prefix, exclude, objects, stamps, dirs, s);
    PushedKeys(cfg, paged, prefix, exclude, objects, stamps, dirs, s, now);
    SwapFree(stamps, dirs, s);
    PushedFilesStored(cfg, paged, prefix, exclude, objects, stamps, dirs, s, now);
    PushedManifest(cfg, paged, prefix, exclude, objects, stamps, dirs, s, now);
    AllStampedMeansAll(s.files);
    StampsEmpty(s.files);
    forall k | k in after ensures KeyPath(prefix, k) != Some([]) {
      NoRootKey(cfg, paged, prefix, exclude, objects, stamps, dirs, s, now, k);
    }
  }

  lemma StampsEmpty(files: map<Path, FileData>)
    ensures Stamps(files) == map[] <==> files == map[]
    ensures Stamps(files).Keys == files.Keys
  {
    if files != map[] {
      var p :| p in files;
      assert p in Stamps(files);
    }
  }

  lemma SwapFree(stamps: map<Path, FileEntry>, dirs: set<Path>, s: Snapshot)
    requires s.files.Keys !! s.emptyDirectories
    ensures NoSwap(stamps.Keys, dirs, s)
       <==> FilesAfter(stamps, s) == s.files.Keys && DirsAfter(dirs, s) == s.emptyDirectories
  {
  }

  lemma PushNeverFails(cfg: SyncConfig, paged: bool, prefix: string, exclude: Filter, objects: ObjectMap,
                       stamps: map<Path, FileEntry>, dirs: set<Path>, s: Snapshot)
    requires cfg.Valid() && ValidPrefix(prefix)
    requires Indexed(prefix, exclude, objects, stamps, dirs) && GoodPaths(exclude, s.files.Keys, s.emptyDirectories)
    ensures CanPush(cfg, paged, prefix, exclude, objects, s)
  {
    ObservedSituation(cfg, paged, prefix, exclude, objects, stamps, dirs, s);
    PlanOnIndexed(prefix, exclude, objects, Observe(cfg, paged, prefix, exclude, objects), stamps, dirs, s);
  }

  // ---- agreement -------------------------------------------------------------------------------------------

  /** The listing a paged reader works from. */
  function ManifestListing(prefix: string, exclude: Filter, objects: ObjectMap): Listing {
    match Load(objects, prefix) case None => map[] case Some(doc) => Synthetic(prefix, doc, exclude)
  }

  ghost predicate SameSizes(listing: Listing, objects: ObjectMap) {
    forall k :: k in listing && k in objects && !IsMarker(k) ==> listing[k].size == BodySize(objects[k].body)
  }

  /** The manifest lists exactly the user objects that are there, with their sizes. */
  ghost predicate Agrees(prefix: string, exclude: Filter, objects: ObjectMap) {
    var listing := ManifestListing(prefix, exclude, objects);
    && (forall k :: k in objects && UserKey(prefix, k) <==> k in listing)
    && SameSizes(listing, objects)
  }

  lemma KeySetsDetermine(prefix: string, files: set<Path>, dirs: set<Path>, files2: set<Path>, dirs2: set<Path>)
    requires [] !in files && [] !in dirs && [] !in files2 && [] !in dirs2
    requires FileKeys(prefix, files) + DirKeys(prefix, dirs) == FileKeys(prefix, files2) + DirKeys(prefix, dirs2)
    ensures files == files2 && dirs == dirs2
  {
    forall p: Path ensures p in files <==> p in files2 ensures p in dirs <==> p in dirs2 {
      if p != [] {
        FileKeyIn(prefix, files, p);
        FileKeyIn(prefix, dirs, p);
        FileKeyIn(prefix, files2, p);
        FileKeyIn(prefix, dirs2, p);
        var a, b := FileKeys(prefix, files) + DirKeys(prefix, dirs), FileKeys(prefix, files2) + DirKeys(prefix, dirs2);
        assert FileKey(prefix, p) in a <==> FileKey(prefix, p) in b;
        assert DirKey(prefix, p) in a <==> DirKey(prefix, p) in b;
      }
    }
  }

  lemma PushedListing(cfg: SyncConfig, paged: bool, prefix: string, exclude: Filter, objects: ObjectMap,
                      stamps: map<Path, FileEntry>, dirs: set<Path>, s: Snapshot, now: int)
    requires cfg.Valid() && ValidPrefix(prefix)
    requires Indexed(prefix, exclude, objects, stamps, dirs) && GoodPaths(exclude, s.files.Keys, s.emptyDirectories)
    ensures var listing := ManifestListing(prefix, exclude, Pushed(cfg, paged, prefix, exclude, objects, s, now));
      && listing.Keys == FileKeys(prefix, StampedFiles(s.files).Keys) + DirKeys(prefix, s.emptyDirectories)
      && (forall p :: p in StampedFiles(s.files) && FileKey(prefix, p) in listing ==>
            listing[FileKey(prefix, p)].size == StampedFiles(s.files)[p].size)
  {
    var after := Pushed(cfg, paged, prefix, exclude, objects, s, now);
    PushedManifest(cfg, paged, prefix, exclude, objects, stamps, dirs, s, now);
    match Load(after, prefix)
    case None =>
      EmptyKeySets(prefix);
      var none: map<Path, FileEntry> := map[];
      assert none.Keys == {};
    case Some(doc) =>
      SyntheticListingFor(prefix, exclude, doc, StampedFiles(s.files), s.emptyDirectories);
  }

  lemma PushedSizes(cfg: SyncConfig, paged: bool, prefix: string, exclude: Filter, objects: ObjectMap,
                    stamps: map<Path, FileEntry>, dirs: set<Path>, s: Snapshot, now: int)
    requires cfg.Valid() && ValidPrefix(prefix)
    requires Indexed(prefix, exclude, objects, stamps, dirs) && GoodPaths(exclude, s.files.Keys, s.emptyDirectories)
    ensures var after := Pushed(cfg, paged, prefix, exclude, objects, s, now);
      SameSizes(ManifestListing(prefix, exclude, after), after)
  {
    var after := Pushed(cfg, paged, prefix, exclude, objects, s, now);
    var listing := ManifestListing(prefix, exclude, after);
    PushedListing(cfg, paged, prefix, exclude, objects, stamps, dirs, s, now);
    forall k | k in listing && k in after && !IsMarker(k) ensures listing[k].size == BodySize(after[k].body) {
      KeyOfPath(prefix, StampedFiles(s.files).Keys, s.emptyDirectories, k);
      var p: Path := KeyPath(prefix, k).value;
      KeyRoundTrip(prefix, p);
      PushedFile(cfg, paged, prefix, exclude, objects, stamps, dirs, s, now, p);
    }
  }

  /** After a push on a true index, the index is true if and only if every file is stamped and no path swapped. */
  lemma AgreesIff(cfg: SyncConfig, paged: bool, prefix: string, exclude: Filter, objects: ObjectMap,
                  stamps: map<Path, FileEntry>, dirs: set<Path>, s: Snapshot, now: int)
    requires cfg.Valid() && ValidPrefix(prefix)
    requires Indexed(prefix, exclude, objects, stamps, dirs) && GoodPaths(exclude, s.files.Keys, s.emptyDirectories)
    ensures Agrees(prefix, exclude, Pushed(cfg, paged, prefix, exclude, objects, s, now))
       <==> AllStamped(s.files) && NoSwap(stamps.Keys, dirs, s)
  {
    var after := Pushed(cfg, paged, prefix, exclude, objects, s, now);
    PushedListing(cfg, paged, prefix, exclude, objects, stamps, dirs, s, now);
    PushedKeys(cfg, paged, prefix, exclude, objects, stamps, dirs, s, now);
    PushedSizes(cfg, paged, prefix, exclude, objects, stamps, dirs, s, now);
    var fs, ds := FilesAfter(stamps, s), DirsAfter(dirs, s);
    AgreesOnSets(prefix, exclude, after, fs, ds, StampedFiles(s.files).Keys, s.emptyDirectories);
    SetsIff(stamps, dirs, s);
  }

  lemma SetsIff(stamps: map<Path, FileEntry>, dirs: set<Path>, s: Snapshot)
    requires s.files.Keys !! s.emptyDirectories
    ensures FilesAfter(stamps, s) == StampedFiles(s.files).Keys && DirsAfter(dirs, s) == s.emptyDirectories
       <==> AllStamped(s.files) && NoSwap(stamps.Keys, dirs, s)
  {
    AllStampedMeansAll(s.files);
    SwapFree(stamps, dirs, s);
    if FilesAfter(stamps, s) == StampedFiles(s.files).Keys {
      assert s.files.Keys <= FilesAfter(stamps, s);
      assert StampedFiles(s.files).Keys <= s.files.Keys;
    }
  }

  lemma AgreesOnSets(prefix: string, exclude: Filter, after: ObjectMap, files: set<Path>, dirs: set<Path>, files2: set<Path>, dirs2: set<Path>)
    requires [] !in files && [] !in dirs && [] !in files2 && [] !in dirs2
    requires ExactKeys(prefix, after, files, dirs)
    requires ManifestListing(prefix, exclude, after).Keys == FileKeys(prefix, files2) + DirKeys(prefix, dirs2)
    requires SameSizes(ManifestListing(prefix, exclude, after), after)
    ensures Agrees(prefix, exclude, after) <==> files == files2 && dirs == dirs2
  {
    SameKeysIff(prefix, after, ManifestListing(prefix, exclude, after), files, dirs, files2, dirs2);
  }

  lemma SameKeysIff(prefix: string, after: ObjectMap, listing: Listing, files: set<Path>, dirs: set<Path>, files2: set<Path>, dirs2: set<Path>)
    requires [] !in files && [] !in dirs && [] !in files2 && [] !in dirs2
    requires ExactKeys(prefix, after, files, dirs)
    requires listing.Keys == FileKeys(prefix, files2) + DirKeys(prefix, dirs2)
    ensures (forall k :: k in after && UserKey(prefix, k) <==> k in listing) <==> files == files2 && dirs == dirs2
  {
    if forall k :: k in after && UserKey(prefix, k) <==> k in listing {
      forall k ensures k in FileKeys(prefix, files) + DirKeys(prefix, dirs) <==> k in FileKeys(prefix, files2) + DirKeys(prefix, dirs2) {
        assert k in after && UserKey(prefix, k) <==> k in listing;
        assert k in listing <==> k in listing.Keys;
      }
      KeySetsDetermine(prefix, files, dirs, files2, dirs2);
    }
  }
}
