/** Pushing to a prefix whatever it holds: which files go up, which objects stay, and when a push fails,
    said of the stored objects and the loaded manifest alone. */
module PushLaws {
  import opened Orders
  import opened Options
  import opened Paths
  import opened Storage
  import opened Manifest
  import opened ManifestProofs
  import opened LocalTree
  import opened Push
  import opened PushRun
  import opened PushProofs
  import opened IndexProofs
  import opened RunProofs

  // ---- what the prefix says of one path ------------------------------------------------------------------------

  /** The entries a push compares with: those of the manifest on a paged store, else the stored ones. */
  function PushListing(paged: bool, prefix: string, exclude: Filter, objects: ObjectMap): Listing {
    if paged && Load(objects, prefix).Some? then Synthetic(prefix, Load(objects, prefix).value, exclude) else ListPrefix(objects, prefix)
  }

  /** No key stands for `p` but its file key, or else its directory marker. */
  predicate OneKey(prefix: string, listing: Listing, p: Path) {
    forall k :: k in listing && KeyPath(prefix, k) == Some(p) ==>
      k == FileKey(prefix, p) || (k == DirKey(prefix, p) && FileKey(prefix, p) !in listing)
  }

  /** A file of this size is listed at `p`. */
  predicate ShowsFile(paged: bool, prefix: string, objects: ObjectMap, p: Path, size: int) {
    match (paged, Load(objects, prefix))
    case (true, Some(doc)) => p in doc.files && doc.files[p].size == size >= 0 && doc.files[p].mtimeMs > 0
    case _ =>
      FileKey(prefix, p) in objects &&
      match objects[FileKey(prefix, p)].body case Bytes(data) => |data| == size case Document(_) => size == 0
  }

  /** The manifest records this size and this time in whole milliseconds. */
  predicate RecordedAs(prefix: string, objects: ObjectMap, p: Path, f: FileData) {
    match Load(objects, prefix)
    case None => false
    case Some(doc) => p in doc.files && doc.files[p].size == |f.data| && doc.files[p].mtimeMs == Trunc(f.mtimeMs) > 0
  }

  /** The object carries this time, in its metadata or else as its date. */
  predicate DatedAs(prefix: string, objects: ObjectMap, p: Path, f: FileData) {
    FileKey(prefix, p) in objects &&
    match objects[FileKey(prefix, p)].mtimeMs
    case Some(m) => m == Trunc(f.mtimeMs)
    case None => objects[FileKey(prefix, p)].lastModified == Trunc(f.mtimeMs)
  }

  /** What the prefix has at `p` passes for the file. */
  predicate PassesFor(paged: bool, prefix: string, objects: ObjectMap, p: Path, f: FileData) {
    ShowsFile(paged, prefix, objects, p, |f.data|) && (RecordedAs(prefix, objects, p, f) || DatedAs(prefix, objects, p, f))
  }

  // ---- the index at one path --------------------------------------------------------------------------------------

  lemma {:induction false} IndexAt(prefix: string, exclude: Filter, keys: seq<string>, listing: Listing, p: Path, key: string)
    requires forall k :: k in keys ==> k in listing
    requires Managed(prefix, exclude, key) && KeyPath(prefix, key) == Some(p)
    requires forall k :: k in keys && KeyPath(prefix, k) == Some(p) ==> k == key
    ensures p in IndexOf(prefix, exclude, keys, listing) <==> key in keys
    ensures key in keys ==> IndexOf(prefix, exclude, keys, listing)[p] == listing[key]
    decreases |keys|
  {
    if keys != [] {
      assert keys == keys[..|keys| - 1] + [keys[|keys| - 1]];
      IndexAt(prefix, exclude, keys[..|keys| - 1], listing, p, key);
    }
  }

  lemma ListingIndexAt(cfg: SyncConfig, prefix: string, exclude: Filter, listing: Listing, p: Path)
    requires cfg.Valid() && Clean(exclude, p) && OneKey(prefix, listing, p)
    ensures var index := IndexListing(cfg, prefix, exclude, listing);
      && (p in index <==> FileKey(prefix, p) in listing || DirKey(prefix, p) in listing)
      && (FileKey(prefix, p) in listing ==> index[p] == listing[FileKey(prefix, p)])
      && (FileKey(prefix, p) !in listing && DirKey(prefix, p) in listing ==> index[p] == listing[DirKey(prefix, p)])
  {
    KeyRoundTrip(prefix, p);
    SortedListing(cfg, listing);
    var key := if FileKey(prefix, p) in listing then FileKey(prefix, p) else DirKey(prefix, p);
    IndexAt(prefix, exclude, Sorted(cfg.keyLess, listing.Keys), listing, p, key);
  }

  lemma SyntheticFile(prefix: string, exclude: Filter, doc: ManifestDoc, p: Path, size: int)
    requires Clean(exclude, p)
    ensures var listing, k := Synthetic(prefix, doc, exclude), FileKey(prefix, p);
      && (k in listing && listing[k].size == size <==> p in doc.files && doc.files[p].size == size >= 0 && doc.files[p].mtimeMs > 0)
      && (k in listing ==> listing[k].key == k)
      && (DirKey(prefix, p) in listing ==> listing[DirKey(prefix, p)].key == DirKey(prefix, p))
  {
    KeyRoundTrip(prefix, p);
    FileKeyIn(prefix, SyntheticFiles(doc, exclude), p);
    FileKeyIn(prefix, SyntheticDirs(doc, exclude), p);
    InSyntheticPart(prefix, doc, SyntheticFiles(doc, exclude), SyntheticDirs(doc, exclude), FileKey(prefix, p));
    InSyntheticPart(prefix, doc, SyntheticFiles(doc, exclude), SyntheticDirs(doc, exclude), DirKey(prefix, p));
  }

  /** An entry of a push's listing at a path. */
  lemma ListedFile(paged: bool, prefix: string, exclude: Filter, objects: ObjectMap, p: Path, size: int)
    requires ValidPrefix(prefix) && Clean(exclude, p)
    ensures var listing, k := PushListing(paged, prefix, exclude, objects), FileKey(prefix, p);
      && (k in listing && listing[k].size == size <==> ShowsFile(paged, prefix, objects, p, size))
      && (k in listing ==> listing[k].key == k)
      && (DirKey(prefix, p) in listing ==> listing[DirKey(prefix, p)].key == DirKey(prefix, p))
  {
    if paged && Load(objects, prefix).Some? {
      SyntheticFile(prefix, exclude, Load(objects, prefix).value, p, size);
    } else {
      KeyRoundTrip(prefix, p);
    }
  }

  /** The comparison at the head of an upload, in terms of the prefix. */
  lemma ObservedFile(cfg: SyncConfig, paged: bool, prefix: string, exclude: Filter, objects: ObjectMap, p: Path, size: int)
    requires cfg.Valid() && ValidPrefix(prefix) && Clean(exclude, p)
    requires OneKey(prefix, PushListing(paged, prefix, exclude, objects), p)
    ensures var index := Observe(cfg, paged, prefix, exclude, objects).index;
      && (p in index && !IsMarker(index[p].key) && index[p].size == size <==> ShowsFile(paged, prefix, objects, p, size))
      && (p in index && !IsMarker(index[p].key) ==> index[p].key == FileKey(prefix, p))
  {
    KeyRoundTrip(prefix, p);
    ListingIndexAt(cfg, prefix, exclude, PushListing(paged, prefix, exclude, objects), p);
    ListedFile(paged, prefix, exclude, objects, p, size);
  }

  lemma ManifestIsListed(prefix: string, objects: ObjectMap)
    requires ValidPrefix(prefix)
    ensures Load(objects, prefix).Some? ==> ManifestKey(prefix) in ListPrefix(objects, prefix)
  {
    ReservedKeys(prefix, 0);
  }

  lemma KnownFile(cfg: SyncConfig, paged: bool, prefix: string, exclude: Filter, objects: ObjectMap, p: Path, f: FileData)
    requires cfg.Valid() && ValidPrefix(prefix) && p != []
    ensures Observe(cfg, paged, prefix, exclude, objects).manifest == Load(objects, prefix)
    ensures var known := Known(Observe(cfg, paged, prefix, exclude, objects));
      p in known && known[p] == StampOf(f) <==> RecordedAs(prefix, objects, p, f)
  {
    ManifestIsListed(prefix, objects);
  }

  // ---- which files go up --------------------------------------------------------------------------------------------

  ghost predicate OneKeyEach(prefix: string, listing: Listing, files: set<Path>) {
    forall p :: p in files ==> OneKey(prefix, listing, p)
  }

  /** A push fails exactly when an entry it has to ask about, listed with the right size but not recorded with
      the right time, has no object. */
  lemma CanPushIff(cfg: SyncConfig, paged: bool, prefix: string, exclude: Filter, objects: ObjectMap, s: Snapshot)
    requires cfg.Valid() && ValidPrefix(prefix) && GoodPaths(exclude, s.files.Keys, s.emptyDirectories)
    requires OneKeyEach(prefix, PushListing(paged, prefix, exclude, objects), s.files.Keys)
    ensures CanPush(cfg, paged, prefix, exclude, objects, s) <==>
      forall p :: p in s.files && ShowsFile(paged, prefix, objects, p, |s.files[p].data|) && !RecordedAs(prefix, objects, p, s.files[p]) ==>
        FileKey(prefix, p) in objects
  {
    var remote := Observe(cfg, paged, prefix, exclude, objects);
    forall p | p in s.files
      ensures NeedsHead(remote, p, s.files[p]) <==>
        ShowsFile(paged, prefix, objects, p, |s.files[p].data|) && !RecordedAs(prefix, objects, p, s.files[p])
      ensures NeedsHead(remote, p, s.files[p]) ==> remote.index[p].key == FileKey(prefix, p)
    {
      ObservedFile(cfg, paged, prefix, exclude, objects, p, |s.files[p].data|);
      KnownFile(cfg, paged, prefix, exclude, objects, p, s.files[p]);
    }
  }

  /** A file goes up unless what the prefix has passes for it. */
  lemma UploadIff(cfg: SyncConfig, paged: bool, prefix: string, exclude: Filter, objects: ObjectMap, s: Snapshot, p: Path)
    requires cfg.Valid() && ValidPrefix(prefix) && Clean(exclude, p) && p in s.files
    requires OneKey(prefix, PushListing(paged, prefix, exclude, objects), p)
    requires CanPush(cfg, paged, prefix, exclude, objects, s)
    ensures NeedsUpload(objects, Observe(cfg, paged, prefix, exclude, objects), p, s.files[p])
       <==> !PassesFor(paged, prefix, objects, p, s.files[p])
  {
    ObservedFile(cfg, paged, prefix, exclude, objects, p, |s.files[p].data|);
    KnownFile(cfg, paged, prefix, exclude, objects, p, s.files[p]);
  }

  /** The files a push reports as uploaded. */
  lemma UploadCount(cfg: SyncConfig, paged: bool, prefix: string, exclude: Filter, objects: ObjectMap, s: Snapshot)
    requires cfg.Valid() && ValidPrefix(prefix) && GoodPaths(exclude, s.files.Keys, s.emptyDirectories)
    requires OneKeyEach(prefix, PushListing(paged, prefix, exclude, objects), s.files.Keys)
    requires CanPush(cfg, paged, prefix, exclude, objects, s)
    ensures CountsOf(objects, Observe(cfg, paged, prefix, exclude, objects), s).uploaded
         == |set p | p in s.files && !PassesFor(paged, prefix, objects, p, s.files[p])|
  {
    var remote := Observe(cfg, paged, prefix, exclude, objects);
    forall p | p in s.files ensures NeedsUpload(objects, remote, p, s.files[p]) <==> !PassesFor(paged, prefix, objects, p, s.files[p]) {
      UploadIff(cfg, paged, prefix, exclude, objects, s, p);
    }
    assert Uploads(objects, remote, s.files) == set p | p in s.files && !PassesFor(paged, prefix, objects, p, s.files[p]);
  }

  // ---- what is stored afterwards ---------------------------------------------------------------------------------------

  lemma NotGone(cfg: SyncConfig, paged: bool, prefix: string, exclude: Filter, objects: ObjectMap, s: Snapshot, p: Path)
    requires cfg.Valid() && p in s.files && p != []
    ensures FileKey(prefix, p) !in GoneKeys(Observe(cfg, paged, prefix, exclude, objects), s)
  {
    KeyRoundTrip(prefix, p);
    var remote := Observe(cfg, paged, prefix, exclude, objects);
    forall q | q in Gone(remote, s) ensures remote.index[q].key != FileKey(prefix, p) {
      ObservedIsManaged(cfg, paged, prefix, exclude, objects, q);
    }
  }

  lemma TransferredAt(cfg: SyncConfig, paged: bool, prefix: string, exclude: Filter, objects: ObjectMap, s: Snapshot, now: int, p: Path)
    requires cfg.Valid() && GoodPaths(exclude, s.files.Keys, s.emptyDirectories) && p in s.files
    ensures var remote := Observe(cfg, paged, prefix, exclude, objects);
      var after := Transferred(prefix, objects, remote, s, now);
      var k := FileKey(prefix, p);
      if NeedsUpload(objects, remote, p, s.files[p]) then k in after && after[k] == Uploaded(s.files[p], now) else SameAt(objects, after, k)
  {
    KeyRoundTrip(prefix, p);
    NotGone(cfg, paged, prefix, exclude, objects, s, p);
    TransferAt(prefix, objects, Observe(cfg, paged, prefix, exclude, objects), s, now, p);
  }

  lemma TransferAt(prefix: string, objects: ObjectMap, remote: Remote, s: Snapshot, now: int, p: Path)
    requires p in s.files && [] !in s.files && [] !in s.emptyDirectories && KeyPath(prefix, FileKey(prefix, p)) == Some(p)
    requires FileKey(prefix, p) !in GoneKeys(remote, s)
    ensures var after := Transferred(prefix, objects, remote, s, now);
      var k := FileKey(prefix, p);
      if NeedsUpload(objects, remote, p, s.files[p]) then k in after && after[k] == Uploaded(s.files[p], now) else SameAt(objects, after, k)
  {
    FileKeyIn(prefix, Uploads(objects, remote, s.files), p);
    FileKeyIn(prefix, NewMarkers(remote, s.emptyDirectories), p);
  }

  /** Writing the manifest and dropping the bundle do not touch a user object. */
  lemma PushedAt(cfg: SyncConfig, paged: bool, prefix: string, exclude: Filter, objects: ObjectMap, s: Snapshot, now: int, k: string)
    requires cfg.Valid() && UserKey(prefix, k)
    requires k !in OldShards(Observe(cfg, paged, prefix, exclude, objects).manifest)
    ensures SameAt(Transferred(prefix, objects, Observe(cfg, paged, prefix, exclude, objects), s, now),
                   Pushed(cfg, paged, prefix, exclude, objects, s, now), k)
  {
    var remote := Observe(cfg, paged, prefix, exclude, objects);
    UserKeyNotReserved(prefix, k);
    WriteOpsLeave(cfg, prefix, PushManifest(s), remote.manifest, now, k);
    OpsLeave(WriteOps(cfg, prefix, PushManifest(s), remote.manifest, now), Transferred(prefix, objects, remote, s, now), k);
  }

  lemma UserKeyNotReserved(prefix: string, k: string)
    requires UserKey(prefix, k)
    ensures !Reserved(prefix, k) && k != BundleKey(prefix)
  {
    if Reserved(prefix, k) || k == BundleKey(prefix) {
      ReservedIsNotUser(prefix, k);
    }
  }

  /** The object of each scanned file after a push to any prefix: what passed for the file is untouched, and
      everything else is the file's bytes and time. */
  lemma PushedAnywhere(cfg: SyncConfig, paged: bool, prefix: string, exclude: Filter, objects: ObjectMap, s: Snapshot, now: int, p: Path)
    requires cfg.Valid() && ValidPrefix(prefix) && GoodPaths(exclude, s.files.Keys, s.emptyDirectories) && p in s.files
    requires OneKey(prefix, PushListing(paged, prefix, exclude, objects), p)
    requires CanPush(cfg, paged, prefix, exclude, objects, s)
    requires FileKey(prefix, p) !in OldShards(Load(objects, prefix))
    ensures var after := Pushed(cfg, paged, prefix, exclude, objects, s, now);
      var k, f := FileKey(prefix, p), s.files[p];
      if PassesFor(paged, prefix, objects, p, f) then SameAt(objects, after, k)
      else
        && k in after && after[k].body == Bytes(f.data) && after[k].lastModified == now
        && after[k].mtimeMs == if Trunc(f.mtimeMs) > 0 then Some(Trunc(f.mtimeMs)) else None
  {
    UploadIff(cfg, paged, prefix, exclude, objects, s, p);
    TransferredAt(cfg, paged, prefix, exclude, objects, s, now, p);
    KnownFile(cfg, paged, prefix, exclude, objects, p, s.files[p]);
    KeyRoundTrip(prefix, p);
    PushedAt(cfg, paged, prefix, exclude, objects, s, now, FileKey(prefix, p));
  }

  /** After a push to a prefix without a manifest every stamped file's object has its size and time. */
  lemma PushedUnindexed(cfg: SyncConfig, paged: bool, prefix: string, exclude: Filter, objects: ObjectMap, s: Snapshot, now: int, p: Path)
    requires cfg.Valid() && ValidPrefix(prefix) && GoodPaths(exclude, s.files.Keys, s.emptyDirectories) && p in s.files
    requires OneKey(prefix, ListPrefix(objects, prefix), p) && Load(objects, prefix) == None
    requires CanPush(cfg, paged, prefix, exclude, objects, s) && Trunc(s.files[p].mtimeMs) > 0
    ensures var after := Pushed(cfg, paged, prefix, exclude, objects, s, now);
      var f := s.files[p];
      && FileKey(prefix, p) in after && BodySize(after[FileKey(prefix, p)].body) == |f.data|
      && DatedAs(prefix, after, p, f)
  {
    PushedAnywhere(cfg, paged, prefix, exclude, objects, s, now, p);
  }

  // ---- what is removed and what is marked -------------------------------------------------------------------------------

  /** The listed key of a path: its file, or else its marker. */
  function ListedKey(prefix: string, listing: Listing, q: Path): Option<string> {
    if FileKey(prefix, q) in listing then Some(FileKey(prefix, q))
    else if DirKey(prefix, q) in listing then Some(DirKey(prefix, q)) else None
  }

  lemma ListedKeyIsIndexed(cfg: SyncConfig, paged: bool, prefix: string, exclude: Filter, objects: ObjectMap, q: Path)
    requires cfg.Valid() && ValidPrefix(prefix) && Clean(exclude, q)
    requires OneKey(prefix, PushListing(paged, prefix, exclude, objects), q)
    ensures var listed := ListedKey(prefix, PushListing(paged, prefix, exclude, objects), q);
      var index := Observe(cfg, paged, prefix, exclude, objects).index;
      (q in index <==> listed.Some?) && (q in index ==> index[q].key == listed.value)
  {
    ListingIndexAt(cfg, prefix, exclude, PushListing(paged, prefix, exclude, objects), q);
    ListedFile(paged, prefix, exclude, objects, q, 0);
  }

  lemma GoneIsAbsent(prefix: string, objects: ObjectMap, remote: Remote, s: Snapshot, now: int, q: Path)
    requires q in remote.index && q != [] && q !in s.files && q !in s.emptyDirectories
    ensures remote.index[q].key !in Transferred(prefix, objects, remote, s, now)
  {
    assert q in Gone(remote, s);
    assert remote.index[q].key in GoneKeys(remote, s);
  }

  lemma ListedIsUserKey(prefix: string, listing: Listing, q: Path)
    requires q != [] && !Ignored(q) && ListedKey(prefix, listing, q).Some?
    ensures UserKey(prefix, ListedKey(prefix, listing, q).value)
  {
    KeyRoundTrip(prefix, q);
  }

  /** A listed path that the scan did not find loses its object. */
  lemma StaleRemoved(cfg: SyncConfig, paged: bool, prefix: string, exclude: Filter, objects: ObjectMap, s: Snapshot, now: int, q: Path)
    requires cfg.Valid() && ValidPrefix(prefix) && Clean(exclude, q) && q !in s.files && q !in s.emptyDirectories
    requires OneKey(prefix, PushListing(paged, prefix, exclude, objects), q)
    requires ListedKey(prefix, PushListing(paged, prefix, exclude, objects), q).Some?
    ensures ListedKey(prefix, PushListing(paged, prefix, exclude, objects), q).value !in Pushed(cfg, paged, prefix, exclude, objects, s, now)
  {
    var remote, k := Observe(cfg, paged, prefix, exclude, objects), ListedKey(prefix, PushListing(paged, prefix, exclude, objects), q).value;
    ListedKeyIsIndexed(cfg, paged, prefix, exclude, objects, q);
    GoneIsAbsent(prefix, objects, remote, s, now, q);
    ListedIsUserKey(prefix, PushListing(paged, prefix, exclude, objects), q);
    UserKeyNotReserved(prefix, k);
    NotWritten(cfg, prefix, PushManifest(s), remote.manifest, now, Transferred(prefix, objects, remote, s, now), k);
  }

  predicate CannotAppear(op: StoreOp, k: string) {
    op.Put? ==> op.key != k
  }

  lemma {:induction false} StaysAbsent(ops: seq<StoreOp>, before: ObjectMap, k: string)
    requires k !in before && forall i :: 0 <= i < |ops| ==> CannotAppear(ops[i], k)
    ensures k !in ApplyAll(ops, before)
    decreases |ops|
  {
    if ops != [] {
      StaysAbsent(ops[..|ops| - 1], before, k);
      assert CannotAppear(ops[|ops| - 1], k);
    }
  }

  lemma {:induction false} DeletesOnly(keys: seq<string>, k: string)
    ensures forall i :: 0 <= i < |DeleteOps(keys)| ==> CannotAppear(DeleteOps(keys)[i], k)
    decreases |keys|
  {
    if |keys| > 1000 {
      DeletesOnly(keys[1000..], k);
    }
  }

  /** A manifest write brings no user object back. */
  lemma NotWritten(cfg: SyncConfig, prefix: string, m: ManifestDoc, existing: Option<ManifestDoc>, now: int, before: ObjectMap, k: string)
    requires cfg.Valid() && !Reserved(prefix, k) && k !in before
    ensures k !in ApplyAll(WriteOps(cfg, prefix, m, existing, now), before)
  {
    var shards0, n := OldShards(existing), |ChunksOf(cfg, m)|;
    DeletesOnly([ManifestKey(prefix)] + shards0, k);
    DeletesOnly(shards0, k);
    DeletesOnly(FilterOut(shards0, ShardKeys(prefix, n)), k);
    forall i | 0 <= i < n ensures ShardKey(prefix, i) != k {
      assert ShardKeys(prefix, n)[i] == ShardKey(prefix, i);
      ShardKeysAreReserved(prefix, n, ShardKey(prefix, i));
    }
    StaysAbsent(WriteOps(cfg, prefix, m, existing, now), before, k);
  }

  /** Each scanned empty directory has its marker, unless a manifest lists it and the object is missing. */
  lemma MarkerMade(cfg: SyncConfig, paged: bool, prefix: string, exclude: Filter, objects: ObjectMap, s: Snapshot, now: int, d: Path)
    requires cfg.Valid() && ValidPrefix(prefix) && GoodPaths(exclude, s.files.Keys, s.emptyDirectories) && d in s.emptyDirectories
    requires OneKey(prefix, PushListing(paged, prefix, exclude, objects), d)
    requires DirKey(prefix, d) !in OldShards(Load(objects, prefix))
    ensures DirKey(prefix, d) in Pushed(cfg, paged, prefix, exclude, objects, s, now)
       <==> (DirKey(prefix, d) in objects || ListedKey(prefix, PushListing(paged, prefix, exclude, objects), d) != Some(DirKey(prefix, d)))
  {
    var remote, k := Observe(cfg, paged, prefix, exclude, objects), DirKey(prefix, d);
    ListedKeyIsIndexed(cfg, paged, prefix, exclude, objects, d);
    KeyRoundTrip(prefix, d);
    KnownFile(cfg, paged, prefix, exclude, objects, d, FileData([], 0.0));
    MarkerNotGone(cfg, paged, prefix, exclude, objects, s, d);
    MarkerTransferred(prefix, objects, remote, s, now, d);
    PushedAt(cfg, paged, prefix, exclude, objects, s, now, k);
  }

  lemma MarkerNotGone(cfg: SyncConfig, paged: bool, prefix: string, exclude: Filter, objects: ObjectMap, s: Snapshot, d: Path)
    requires cfg.Valid() && d in s.emptyDirectories && d != []
    ensures DirKey(prefix, d) !in GoneKeys(Observe(cfg, paged, prefix, exclude, objects), s)
  {
    KeyRoundTrip(prefix, d);
    var remote := Observe(cfg, paged, prefix, exclude, objects);
    forall q | q in Gone(remote, s) ensures remote.index[q].key != DirKey(prefix, d) {
      ObservedIsManaged(cfg, paged, prefix, exclude, objects, q);
    }
  }

  lemma MarkerTransferred(prefix: string, objects: ObjectMap, remote: Remote, s: Snapshot, now: int, d: Path)
    requires d in s.emptyDirectories && [] !in s.files && [] !in s.emptyDirectories
    requires DirKey(prefix, d) !in GoneKeys(remote, s)
    ensures (DirKey(prefix, d) in Transferred(prefix, objects, remote, s, now))
       <==> (DirKey(prefix, d) in objects || !(d in remote.index && IsMarker(remote.index[d].key)))
  {
    FileKeyIn(prefix, Uploads(objects, remote, s.files), d);
    FileKeyIn(prefix, NewMarkers(remote, s.emptyDirectories), d);
  }

  // ---- the other counts and the bundle -----------------------------------------------------------------------------------

  /** The paths a push finds listed. */
  function ListedPaths(prefix: string, exclude: Filter, listing: Listing): set<seq<string>> {
    set k | k in listing && Managed(prefix, exclude, k) :: KeyPath(prefix, k).value
  }

  predicate StandsFor(prefix: string, exclude: Filter, k: string, p: seq<string>) {
    Managed(prefix, exclude, k) && KeyPath(prefix, k) == Some(p)
  }

  ghost predicate SomeStandsFor(prefix: string, exclude: Filter, keys: seq<string>, p: seq<string>) {
    exists k :: k in keys && StandsFor(prefix, exclude, k, p)
  }

  lemma StandsSnoc(prefix: string, exclude: Filter, keys: seq<string>, last: string, p: seq<string>)
    ensures SomeStandsFor(prefix, exclude, keys + [last], p) <==> SomeStandsFor(prefix, exclude, keys, p) || StandsFor(prefix, exclude, last, p)
  {
    if SomeStandsFor(prefix, exclude, keys, p) {
      var k :| k in keys && StandsFor(prefix, exclude, k, p);
      assert k in keys + [last];
    }
    assert last in keys + [last];
  }

  lemma {:induction false} IndexedIff(prefix: string, exclude: Filter, keys: seq<string>, listing: Listing, p: seq<string>)
    requires forall k :: k in keys ==> k in listing
    ensures p in IndexOf(prefix, exclude, keys, listing) <==> SomeStandsFor(prefix, exclude, keys, p)
    decreases |keys|
  {
    if keys != [] {
      var init, last := keys[..|keys| - 1], keys[|keys| - 1];
      assert init + [last] == keys;
      IndexedIff(prefix, exclude, init, listing, p);
      StandsSnoc(prefix, exclude, init, last, p);
    }
  }

  lemma IndexedPaths(cfg: SyncConfig, paged: bool, prefix: string, exclude: Filter, objects: ObjectMap)
    requires cfg.Valid()
    ensures Observe(cfg, paged, prefix, exclude, objects).index.Keys == ListedPaths(prefix, exclude, PushListing(paged, prefix, exclude, objects))
  {
    var listing := PushListing(paged, prefix, exclude, objects);
    var keys := Sorted(cfg.keyLess, listing.Keys);
    SortedListing(cfg, listing);
    forall p ensures p in IndexListing(cfg, prefix, exclude, listing) <==> p in ListedPaths(prefix, exclude, listing) {
      IndexedIff(prefix, exclude, keys, listing, p);
      if p in ListedPaths(prefix, exclude, listing) {
        var k :| k in listing && Managed(prefix, exclude, k) && KeyPath(prefix, k).value == p;
        assert StandsFor(prefix, exclude, k, p) && k in keys;
      }
    }
  }

  /** The paths a push reports as deleted: those listed, the root aside, that the scan did not find. */
  lemma DeletedCount(cfg: SyncConfig, paged: bool, prefix: string, exclude: Filter, objects: ObjectMap, s: Snapshot)
    requires cfg.Valid()
    ensures CountsOf(objects, Observe(cfg, paged, prefix, exclude, objects), s).deleted
         == |ListedPaths(prefix, exclude, PushListing(paged, prefix, exclude, objects)) - s.files.Keys - s.emptyDirectories - {[]}|
  {
    IndexedPaths(cfg, paged, prefix, exclude, objects);
    var remote := Observe(cfg, paged, prefix, exclude, objects);
    assert Gone(remote, s) == remote.index.Keys - s.files.Keys - s.emptyDirectories - {[]};
  }

  /** The directories a push reports as created: those scanned whose marker is not listed. */
  lemma CreatedCount(cfg: SyncConfig, paged: bool, prefix: string, exclude: Filter, objects: ObjectMap, s: Snapshot)
    requires cfg.Valid() && ValidPrefix(prefix) && GoodPaths(exclude, s.files.Keys, s.emptyDirectories)
    requires OneKeyEach(prefix, PushListing(paged, prefix, exclude, objects), s.emptyDirectories)
    ensures var listing := PushListing(paged, prefix, exclude, objects);
      CountsOf(objects, Observe(cfg, paged, prefix, exclude, objects), s).created
        == |set d | d in s.emptyDirectories && ListedKey(prefix, listing, d) != Some(DirKey(prefix, d))|
  {
    var remote, listing := Observe(cfg, paged, prefix, exclude, objects), PushListing(paged, prefix, exclude, objects);
    forall d | d in s.emptyDirectories
      ensures d in remote.index && IsMarker(remote.index[d].key) <==> ListedKey(prefix, listing, d) == Some(DirKey(prefix, d))
    {
      ListedKeyIsIndexed(cfg, paged, prefix, exclude, objects, d);
      KeyRoundTrip(prefix, d);
    }
    assert NewMarkers(remote, s.emptyDirectories)
        == set d | d in s.emptyDirectories && ListedKey(prefix, listing, d) != Some(DirKey(prefix, d));
  }

  lemma BundleIsUntouchable(prefix: string, exclude: Filter)
    ensures !Touchable(prefix, exclude, BundleKey(prefix)) && !Reserved(prefix, BundleKey(prefix))
  {
    ReservedKeys(prefix, 0);
    BundleIsNotReserved(prefix);
  }

  /** Before the bundle is dropped nothing has touched it. */
  lemma BundleRecorded(cfg: SyncConfig, paged: bool, prefix: string, exclude: Filter, objects: ObjectMap, s: Snapshot, now: int)
    requires cfg.Valid() && ValidPrefix(prefix) && GoodPaths(exclude, s.files.Keys, s.emptyDirectories)
    requires BundleKey(prefix) !in OldShards(Observe(cfg, paged, prefix, exclude, objects).manifest)
    ensures SameAt(objects, Push.Recorded(cfg, prefix, objects, Observe(cfg, paged, prefix, exclude, objects), s, now), BundleKey(prefix))
  {
    var remote, k := Observe(cfg, paged, prefix, exclude, objects), BundleKey(prefix);
    BundleIsUntouchable(prefix, exclude);
    TransferLeaves(cfg, paged, prefix, exclude, objects, s, now, k);
    WriteOpsLeave(cfg, prefix, PushManifest(s), remote.manifest, now, k);
    OpsLeave(WriteOps(cfg, prefix, PushManifest(s), remote.manifest, now), Transferred(prefix, objects, remote, s, now), k);
  }

  /** A push that reports any change drops the bundle; one that reports none leaves it. */
  lemma BundleDropped(cfg: SyncConfig, paged: bool, prefix: string, exclude: Filter, objects: ObjectMap, s: Snapshot, now: int)
    requires cfg.Valid() && ValidPrefix(prefix) && GoodPaths(exclude, s.files.Keys, s.emptyDirectories)
    requires BundleKey(prefix) !in OldShards(Load(objects, prefix))
    ensures BundleKey(prefix) in Pushed(cfg, paged, prefix, exclude, objects, s, now)
       <==> BundleKey(prefix) in objects && CountsOf(objects, Observe(cfg, paged, prefix, exclude, objects), s) == PushCounts(0, 0, 0)
  {
    KnownFile(cfg, paged, prefix, exclude, objects, [BUNDLE_NAME], FileData([], 0.0));
    BundleRecorded(cfg, paged, prefix, exclude, objects, s, now);
  }
}
