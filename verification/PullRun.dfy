/** The whole pull, against functions of the local tree and the stored objects. */
module PullRun {
  import opened Orders
  import opened Options
  import opened Paths
  import opened Storage
  import opened Manifest
  import opened LocalTree
  import opened Fingerprints
  import opened Push
  import opened PushRun
  import opened Cleaning
  import opened Pull

  // ---- what the pull reads -----------------------------------------------------------------------------------

  function PullListing(paged: bool, prefix: string, exclude: Filter, objects: ObjectMap): Listing {
    if paged && Load(objects, prefix).Some? then Synthetic(prefix, Load(objects, prefix).value, exclude)
    else ListPrefix(objects, prefix)
  }

  function PullKnown(paged: bool, prefix: string, exclude: Filter, objects: ObjectMap): map<Path, FileEntry> {
    if (paged || ManifestKey(prefix) in PullListing(paged, prefix, exclude, objects)) && Load(objects, prefix).Some?
    then ValidFiles(Load(objects, prefix).value) else map[]
  }

  /** The objects below the prefix can be laid out as a directory tree, and are not bundled. */
  ghost predicate Layable(cfg: SyncConfig, paged: bool, prefix: string, exclude: Filter, objects: ObjectMap)
    requires cfg.Valid()
  {
    PullListingOwnKeys(paged, prefix, exclude, objects);
    && ProperKeys(prefix, exclude, PullListing(paged, prefix, exclude, objects))
    && TreeConsistent(RemoteOf(cfg, prefix, exclude, PullListing(paged, prefix, exclude, objects)))
    && (Load(objects, prefix).Some? ==> ModeOf(Load(objects, prefix).value) == ObjectsMode)
  }

  ghost function PullRemote(cfg: SyncConfig, paged: bool, prefix: string, exclude: Filter, objects: ObjectMap): RemoteSet
    requires cfg.Valid() && Layable(cfg, paged, prefix, exclude, objects)
  {
    PullListingOwnKeys(paged, prefix, exclude, objects);
    RemoteOf(cfg, prefix, exclude, PullListing(paged, prefix, exclude, objects))
  }

  lemma PullListingOwnKeys(paged: bool, prefix: string, exclude: Filter, objects: ObjectMap)
    ensures OwnKeys(PullListing(paged, prefix, exclude, objects))
  {
  }

  method ReadRemote(cfg: SyncConfig, store: ObjectStore, prefix: string, exclude: Filter)
      returns (r: RemoteSet, dirs: set<Path>, known: map<Path, FileEntry>)
    requires cfg.Valid() && Layable(cfg, store.paged, prefix, exclude, store.objects)
    ensures r == PullRemote(cfg, store.paged, prefix, exclude, store.objects) && dirs == DirsOf(r)
    ensures known == PullKnown(store.paged, prefix, exclude, store.objects)
  {
    PullListingOwnKeys(store.paged, prefix, exclude, store.objects);
    var manifest: Option<ManifestDoc> := None;
    if store.paged {
      manifest := LoadManifest(store, prefix);
    }
    var listing: Listing;
    if manifest.Some? {
      listing := BuildSynthetic(prefix, manifest.value, exclude);
    } else {
      listing := ListPrefix(store.objects, prefix);
      if ManifestKey(prefix) in listing {
        manifest := LoadManifest(store, prefix);
      }
    }
    known := if manifest.Some? then ValidFiles(manifest.value) else map[];
    r, dirs := GatherRemote(cfg, prefix, exclude, listing);
  }

  // ---- the resulting tree ---------------------------------------------------------------------------------------

  function MirrorOf(r: RemoteSet, exclude: Filter, preserve: set<string>): Mirror {
    Mirror(exclude, preserve, r.files.Keys, DirsOf(r))
  }

  /** After removing and creating, before downloading. */
  ghost function Prepared(m: Mirror, t: Tree): Tree {
    WithDirs(CleanedBelow(m, t, []), m.dirs)
  }

  ghost function PulledTree(m: Mirror, files: map<Path, RemoteEntry>, known: map<Path, FileEntry>, objects: ObjectMap, t: Tree, now: int): Tree {
    WithFiles(Prepared(m, t), Arrived(objects, known, files, Prepared(m, t), now))
  }

  /** `resolveEmptyRemoteDirectories`: markers with neither a file nor another marker below them. */
  function EmptyRemoteDirs(r: RemoteSet): set<Path> {
    set d | d in r.markers && (forall f :: f in r.files ==> !Under(d, f)) && (forall e :: e in r.markers ==> !Under(d, e))
  }

  datatype PullCounts = PullCounts(removed: nat, created: nat, downloaded: nat)

  ghost function PullCountsOf(m: Mirror, files: map<Path, RemoteEntry>, known: map<Path, FileEntry>, objects: ObjectMap, t: Tree): PullCounts {
    PullCounts(|StruckBelow(m, t, [])|,
               |MissingDirs(CleanedBelow(m, t, []), m.dirs)|,
               |Downloads(objects, known, files, Prepared(m, t))|)
  }

  datatype PullOutcome = PullFailed | PullDone(fingerprint: string, counts: PullCounts)

  ghost predicate AllBacked(prefix: string, exclude: Filter, keys: seq<string>, listing: Listing, files: map<Path, RemoteEntry>) {
    forall p :: p in files ==> FileBacked(prefix, exclude, keys, listing, p, files[p])
  }

  /** A path stands in the gathered set only because of a key of its own. */
  ghost predicate FileBacked(prefix: string, exclude: Filter, keys: seq<string>, listing: Listing, p: Path, e: RemoteEntry) {
    e.key in keys && e.key in listing && e == listing[e.key] && Managed(prefix, exclude, e.key) && !IsMarker(e.key)
    && p != [] && KeyPath(prefix, e.key) == Some(p)
  }

  ghost predicate MarkerBacked(prefix: string, exclude: Filter, keys: seq<string>, d: Path) {
    d != [] && exists k :: k in keys && Managed(prefix, exclude, k) && IsMarker(k) && KeyPath(prefix, k) == Some(d)
  }

  lemma {:induction false} GatheredBacked(prefix: string, exclude: Filter, keys: seq<string>, listing: Listing)
    requires ProperKeys(prefix, exclude, listing) && OwnKeys(listing)
    requires forall k :: k in keys ==> k in listing
    ensures var r := Gathered(prefix, exclude, keys, listing);
      && AllBacked(prefix, exclude, keys, listing, r.files)
      && (forall d :: d in r.markers ==> MarkerBacked(prefix, exclude, keys, d))
    decreases |keys|
  {
    if keys != [] {
      var init := keys[..|keys| - 1];
      assert keys == init + [keys[|keys| - 1]];
      GatheredBacked(prefix, exclude, init, listing);
      var last := keys[|keys| - 1];
      AddEntryBacked(prefix, exclude, init, keys, listing, Gathered(prefix, exclude, init, listing), last);
    }
  }

  lemma AddEntryBacked(prefix: string, exclude: Filter, init: seq<string>, keys: seq<string>, listing: Listing, r0: RemoteSet, last: string)
    requires ProperKeys(prefix, exclude, listing) && keys == init + [last] && last in listing && listing[last].key == last
    requires AllBacked(prefix, exclude, init, listing, r0.files)
    requires forall d :: d in r0.markers ==> MarkerBacked(prefix, exclude, init, d)
    ensures var r := AddEntry(prefix, exclude, r0, listing[last]);
      && AllBacked(prefix, exclude, keys, listing, r.files)
      && (forall d :: d in r.markers ==> MarkerBacked(prefix, exclude, keys, d))
  {
    var r := AddEntry(prefix, exclude, r0, listing[last]);
    assert last in keys;
    forall p | p in r.files ensures FileBacked(prefix, exclude, keys, listing, p, r.files[p]) {
      assert p in r0.files && r.files[p] == r0.files[p] ==> FileBacked(prefix, exclude, init, listing, p, r0.files[p]);
    }
    forall d | d in r.markers ensures MarkerBacked(prefix, exclude, keys, d) {
      if d in r0.markers {
        assert MarkerBacked(prefix, exclude, init, d);
        var k :| k in init && Managed(prefix, exclude, k) && IsMarker(k) && KeyPath(prefix, k) == Some(d);
        assert k in keys;
      }
    }
  }

  lemma RemoteBacked(cfg: SyncConfig, paged: bool, prefix: string, exclude: Filter, objects: ObjectMap)
    requires cfg.Valid() && Layable(cfg, paged, prefix, exclude, objects)
    ensures var r := PullRemote(cfg, paged, prefix, exclude, objects);
      var listing := PullListing(paged, prefix, exclude, objects);
      var keys := Sorted(cfg.keyLess, listing.Keys);
      && AllBacked(prefix, exclude, keys, listing, r.files)
      && (forall d :: d in r.markers ==> MarkerBacked(prefix, exclude, keys, d))
  {
    var listing := PullListing(paged, prefix, exclude, objects);
    SortedListing(cfg, listing);
    GatheredBacked(prefix, exclude, Sorted(cfg.keyLess, listing.Keys), listing);
  }

  lemma RemoteWithoutRoot(cfg: SyncConfig, paged: bool, prefix: string, exclude: Filter, objects: ObjectMap)
    requires cfg.Valid() && Layable(cfg, paged, prefix, exclude, objects)
    ensures [] !in PullRemote(cfg, paged, prefix, exclude, objects).files
  {
    RemoteBacked(cfg, paged, prefix, exclude, objects);
  }

  lemma AboveFile(files: set<Path>, p: Path, q: Path)
    requires p != [] && q in files
    ensures Under(p, q) ==> p in FileDirs(files)
  {
  }

  lemma ConsistentAntichain(r: RemoteSet)
    requires TreeConsistent(r) && [] !in r.files
    ensures Antichain(r.files.Keys)
  {
    forall p, q | p in r.files.Keys && q in r.files.Keys ensures !Under(p, q) {
      AboveFile(r.files.Keys, p, q);
    }
  }

  lemma PreparedWellFormed(m: Mirror, t: Tree)
    requires WellFormed(t) && ParentClosed(m.dirs) && [] !in m.dirs
    ensures WellFormed(Prepared(m, t))
  {
    CleanedThroughWellFormed(m, t, [], Children(t, []));
    CleanedIsThroughAll(m, t, []);
  }

  method PullDirectory(cfg: SyncConfig, store: ObjectStore, prefix: string, exclude: Filter, preserve: set<string>, dir: LocalDirectory, now: int)
      returns (outcome: PullOutcome)
    requires cfg.Valid() && WellFormed(dir.tree) && Layable(cfg, store.paged, prefix, exclude, store.objects)
    modifies dir
    ensures var r := PullRemote(cfg, store.paged, prefix, exclude, store.objects);
      var known := PullKnown(store.paged, prefix, exclude, store.objects);
      var m := MirrorOf(r, exclude, preserve);
      && (outcome.PullDone? <==> AllObtainable(store.objects, known, r.files, Prepared(m, old(dir.tree))))
      && (outcome.PullDone? ==>
            && dir.tree == PulledTree(m, r.files, known, store.objects, old(dir.tree), now)
            && outcome.counts == PullCountsOf(m, r.files, known, store.objects, old(dir.tree))
            && outcome.fingerprint == Fingerprint(cfg.pathLess,
                 Stamps(Arrived(store.objects, known, r.files, Prepared(m, old(dir.tree)), now)), EmptyRemoteDirs(r)))
  {
    var r, dirs, known := ReadRemote(cfg, store, prefix, exclude);
    RemoteWithoutRoot(cfg, store.paged, prefix, exclude, store.objects);
    ConsistentAntichain(r);
    DirsAreParentClosed(r);
    var m := Mirror(exclude, preserve, r.files.Keys, dirs);
    PreparedWellFormed(m, dir.tree);
    var removed := RemoveUnexpected(dir, m);
    var created := CreateDirectories(dir, dirs);
    var ok, downloaded, stamps := SyncRemoteFiles(store, known, r.files, dir, now);
    if !ok {
      return PullFailed;
    }
    var fingerprint := CreateFingerprint(cfg.pathLess, stamps, EmptyRemoteDirs(r));
    return PullDone(fingerprint, PullCounts(removed, created, downloaded));
  }
}
