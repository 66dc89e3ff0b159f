/** Pushing a local directory to its prefix, object by object
    (`syncLocalDirectoryToRemote` in object-storage.ts, bundles switched off). */
module Push {
  import opened Orders
  import opened Options
  import opened Paths
  import opened Storage
  import opened Manifest
  import opened LocalTree

  // ---- listings ---------------------------------------------------------------------------------

  datatype RemoteEntry = RemoteEntry(key: string, size: int, lastModified: Option<int>)

  /** Entries by key. */
  type Listing = map<string, RemoteEntry>

  predicate Listed(prefix: string, key: string) {
    var n := Normalize(prefix);
    n == "" || n + "/" <= key
  }

  /** `listEntries`: what the service reports below the prefix. */
  function ListPrefix(objects: ObjectMap, prefix: string): Listing {
    map k | k in objects && Listed(prefix, k) :: RemoteEntry(k, BodySize(objects[k].body), Some(objects[k].lastModified))
  }

  function SyntheticFiles(doc: ManifestDoc, exclude: Filter): set<Path> {
    set p | p in ValidFiles(doc) && !Ignored(p) && !exclude(p)
  }

  function SyntheticDirs(doc: ManifestDoc, exclude: Filter): set<Path> {
    set d | d in ListedDirs(doc) && !exclude(d)
  }

  function FileKeys(prefix: string, paths: set<Path>): set<string> {
    set p | p in paths :: FileKey(prefix, p)
  }

  function DirKeys(prefix: string, paths: set<Path>): set<string> {
    set p | p in paths :: DirKey(prefix, p)
  }

  function SyntheticEntry(prefix: string, doc: ManifestDoc, key: string): RemoteEntry {
    match KeyPath(prefix, key)
    case None => RemoteEntry(key, 0, None)
    case Some(p) =>
      if !IsMarker(key) && p in doc.files then RemoteEntry(key, doc.files[p].size, Some(doc.files[p].mtimeMs))
      else RemoteEntry(key, 0, None)
  }

  function SyntheticPart(prefix: string, doc: ManifestDoc, files: set<Path>, dirs: set<Path>): Listing {
    map k | k in FileKeys(prefix, files) + DirKeys(prefix, dirs) :: SyntheticEntry(prefix, doc, k)
  }

  /** The listing a manifest stands for. */
  function Synthetic(prefix: string, doc: ManifestDoc, exclude: Filter): Listing {
    SyntheticPart(prefix, doc, SyntheticFiles(doc, exclude), SyntheticDirs(doc, exclude))
  }

  lemma InSyntheticPart(prefix: string, doc: ManifestDoc, files: set<Path>, dirs: set<Path>, k: string)
    ensures var listing := SyntheticPart(prefix, doc, files, dirs);
      && (k in listing <==> k in FileKeys(prefix, files) || k in DirKeys(prefix, dirs))
      && (k in listing ==> listing[k] == SyntheticEntry(prefix, doc, k))
  {
  }

  lemma OneMoreEntry(before: Listing, after: Listing, key: string, entry: RemoteEntry)
    requires forall k :: k in after <==> k in before || k == key
    requires forall k :: k in after && k != key && k in before ==> after[k] == before[k]
    requires key in after && after[key] == entry
    ensures after == before[key := entry]
  {
  }

  lemma FileKeyAdded(prefix: string, paths: set<Path>, p: Path, k: string)
    ensures k in FileKeys(prefix, paths + {p}) <==> k in FileKeys(prefix, paths) || k == FileKey(prefix, p)
    ensures k in DirKeys(prefix, paths + {p}) <==> k in DirKeys(prefix, paths) || k == DirKey(prefix, p)
  {
    assert p in paths + {p};
    assert forall q :: q in paths ==> q in paths + {p};
  }

  lemma AddSyntheticFile(prefix: string, doc: ManifestDoc, files: set<Path>, dirs: set<Path>, p: Path)
    requires p in doc.files && p != []
    ensures SyntheticPart(prefix, doc, files + {p}, dirs)
         == SyntheticPart(prefix, doc, files, dirs)
              [FileKey(prefix, p) := RemoteEntry(FileKey(prefix, p), doc.files[p].size, Some(doc.files[p].mtimeMs))]
  {
    KeyRoundTrip(prefix, p);
    var before, after := SyntheticPart(prefix, doc, files, dirs), SyntheticPart(prefix, doc, files + {p}, dirs);
    forall k ensures k in after <==> k in before || k == FileKey(prefix, p)
      ensures k in after && k in before ==> after[k] == before[k]
      ensures k in after ==> after[k] == SyntheticEntry(prefix, doc, k)
    {
      InSyntheticPart(prefix, doc, files, dirs, k);
      InSyntheticPart(prefix, doc, files + {p}, dirs, k);
      FileKeyAdded(prefix, files, p, k);
    }
    OneMoreEntry(before, after, FileKey(prefix, p), RemoteEntry(FileKey(prefix, p), doc.files[p].size, Some(doc.files[p].mtimeMs)));
  }

  lemma AddSyntheticDir(prefix: string, doc: ManifestDoc, files: set<Path>, dirs: set<Path>, d: Path)
    requires d != []
    ensures SyntheticPart(prefix, doc, files, dirs + {d})
         == SyntheticPart(prefix, doc, files, dirs)[DirKey(prefix, d) := RemoteEntry(DirKey(prefix, d), 0, None)]
  {
    KeyRoundTrip(prefix, d);
    var before, after := SyntheticPart(prefix, doc, files, dirs), SyntheticPart(prefix, doc, files, dirs + {d});
    forall k ensures k in after <==> k in before || k == DirKey(prefix, d)
      ensures k in after && k in before ==> after[k] == before[k]
      ensures k in after ==> after[k] == SyntheticEntry(prefix, doc, k)
    {
      InSyntheticPart(prefix, doc, files, dirs, k);
      InSyntheticPart(prefix, doc, files, dirs + {d}, k);
      FileKeyAdded(prefix, dirs, d, k);
    }
    OneMoreEntry(before, after, DirKey(prefix, d), RemoteEntry(DirKey(prefix, d), 0, None));
  }

  /** `buildSyntheticRemoteEntriesFromManifestDocument` for a manifest in objects mode. */
  method BuildSynthetic(prefix: string, doc: ManifestDoc, exclude: Filter) returns (listing: Listing)
    ensures listing == Synthetic(prefix, doc, exclude)
  {
    listing := map[];
    var todo := doc.files.Keys;
    ghost var added: set<Path> := {};
    while todo != {}
      invariant todo <= doc.files.Keys
      invariant added == SyntheticFiles(doc, exclude) - todo
      invariant listing == SyntheticPart(prefix, doc, added, {})
      decreases todo
    {
      var p :| p in todo;
      todo := todo - {p};
      if p != [] && ValidEntry(doc.files[p]) && !Ignored(p) && !exclude(p) {
        AddSyntheticFile(prefix, doc, added, {}, p);
        listing := listing[FileKey(prefix, p) := RemoteEntry(FileKey(prefix, p), doc.files[p].size, Some(doc.files[p].mtimeMs))];
        added := added + {p};
      }
    }
    listing := AddMarkers(prefix, doc, exclude, listing);
  }

  method AddMarkers(prefix: string, doc: ManifestDoc, exclude: Filter, files: Listing) returns (listing: Listing)
    requires files == SyntheticPart(prefix, doc, SyntheticFiles(doc, exclude), {})
    ensures listing == Synthetic(prefix, doc, exclude)
  {
    listing := files;
    var todo := doc.emptyDirectories;
    ghost var added: set<Path> := {};
    while todo != {}
      invariant todo <= doc.emptyDirectories
      invariant added == SyntheticDirs(doc, exclude) - todo
      invariant listing == SyntheticPart(prefix, doc, SyntheticFiles(doc, exclude), added)
      decreases todo
    {
      var d :| d in todo;
      todo := todo - {d};
      if d != [] && !Ignored(d) && !exclude(d) {
        AddSyntheticDir(prefix, doc, SyntheticFiles(doc, exclude), added, d);
        listing := listing[DirKey(prefix, d) := RemoteEntry(DirKey(prefix, d), 0, None)];
        added := added + {d};
      }
    }
  }

  // ---- the index by relative path -----------------------------------------------------------------

  type Index = map<seq<string>, RemoteEntry>

  /** A key the sync engine manages: below the prefix, not reserved, not excluded. */
  predicate Managed(prefix: string, exclude: Filter, key: string) {
    match KeyPath(prefix, key)
    case None => false
    case Some(p) => !Ignored(p) && !exclude(p)
  }

  /** `buildNormalizedRemoteEntryMap`: when two keys stand for one path, the later one wins. */
  function IndexOf(prefix: string, exclude: Filter, keys: seq<string>, listing: Listing): Index
    requires forall k :: k in keys ==> k in listing
  {
    if keys == [] then map[]
    else
      var last := keys[|keys| - 1];
      var rest := IndexOf(prefix, exclude, keys[..|keys| - 1], listing);
      if Managed(prefix, exclude, last) then rest[KeyPath(prefix, last).value := listing[last]] else rest
  }

  ghost function IndexListing(cfg: SyncConfig, prefix: string, exclude: Filter, listing: Listing): Index
    requires cfg.Valid()
  {
    SortedListing(cfg, listing);
    IndexOf(prefix, exclude, Sorted(cfg.keyLess, listing.Keys), listing)
  }

  lemma SortedListing(cfg: SyncConfig, listing: Listing)
    requires cfg.Valid()
    ensures forall k :: k in Sorted(cfg.keyLess, listing.Keys) <==> k in listing
  {
    SortedLists(cfg.keyLess, listing.Keys);
    assert forall k :: k in Sorted(cfg.keyLess, listing.Keys) <==> k in Elements(Sorted(cfg.keyLess, listing.Keys));
  }

  method BuildIndex(cfg: SyncConfig, prefix: string, exclude: Filter, listing: Listing) returns (index: Index)
    requires cfg.Valid()
    ensures index == IndexListing(cfg, prefix, exclude, listing)
  {
    SortedListing(cfg, listing);
    var keys := Sort(cfg.keyLess, listing.Keys);
    index := map[];
    var i := 0;
    while i < |keys|
      invariant 0 <= i <= |keys|
      invariant index == IndexOf(prefix, exclude, keys[..i], listing)
    {
      assert keys[..i + 1][..i] == keys[..i];
      if Managed(prefix, exclude, keys[i]) {
        index := index[KeyPath(prefix, keys[i]).value := listing[keys[i]]];
      }
      i := i + 1;
    }
    assert keys[..i] == keys;
  }

  /** No two managed keys of a listing stand for the same path. */
  ghost predicate DistinctPaths(prefix: string, exclude: Filter, listing: Listing) {
    forall j, k :: j in listing && k in listing && Managed(prefix, exclude, j) && Managed(prefix, exclude, k) ==>
      KeyPath(prefix, j) == KeyPath(prefix, k) ==> j == k
  }

  ghost predicate Represented(prefix: string, exclude: Filter, keys: seq<string>, p: seq<string>) {
    exists k :: k in keys && Managed(prefix, exclude, k) && KeyPath(prefix, k) == Some(p)
  }

  lemma {:induction false} IndexOfDistinct(prefix: string, exclude: Filter, keys: seq<string>, listing: Listing)
    requires forall k :: k in keys ==> k in listing
    requires DistinctPaths(prefix, exclude, listing)
    ensures var index := IndexOf(prefix, exclude, keys, listing);
      && (forall k :: k in keys && Managed(prefix, exclude, k) ==>
            KeyPath(prefix, k).value in index && index[KeyPath(prefix, k).value] == listing[k])
      && (forall p :: p in index ==> Represented(prefix, exclude, keys, p))
    decreases |keys|
  {
    if keys != [] {
      var n := |keys| - 1;
      var rest := keys[..n];
      assert keys == rest + [keys[n]];
      IndexOfDistinct(prefix, exclude, rest, listing);
      var index := IndexOf(prefix, exclude, keys, listing);
      forall p | p in index ensures Represented(prefix, exclude, keys, p) {
        if p in IndexOf(prefix, exclude, rest, listing) {
          assert Represented(prefix, exclude, rest, p);
          var k :| k in rest && Managed(prefix, exclude, k) && KeyPath(prefix, k) == Some(p);
          assert k in keys;
        } else {
          assert keys[n] in keys;
        }
      }
    }
  }

  // ---- the plan ---------------------------------------------------------------------------------------

  /** What a push sees before it changes anything. */
  datatype Remote = Remote(index: Index, manifest: Option<ManifestDoc>)

  function Known(remote: Remote): map<Path, FileEntry> {
    match remote.manifest case None => map[] case Some(doc) => ValidFiles(doc)
  }

  ghost function Observe(cfg: SyncConfig, paged: bool, prefix: string, exclude: Filter, objects: ObjectMap): Remote
    requires cfg.Valid()
  {
    var first := if paged then Load(objects, prefix) else None;
    var listing := if first.Some? then Synthetic(prefix, first.value, exclude) else ListPrefix(objects, prefix);
    var manifest :=
      if first.Some? then first
      else if ManifestKey(prefix) in listing then Load(objects, prefix)
      else None;
    Remote(IndexListing(cfg, prefix, exclude, listing), manifest)
  }

  /** A file object of the right size is indexed, and the manifest does not vouch for its time. */
  predicate NeedsHead(remote: Remote, p: Path, f: FileData) {
    && p in remote.index && !IsMarker(remote.index[p].key) && remote.index[p].size == |f.data|
    && !(p in Known(remote) && Known(remote)[p] == StampOf(f))
  }

  /** The modification time the service vouches for. */
  function ResolvedMtime(o: StoredObject): int {
    match o.mtimeMs case Some(m) => m case None => o.lastModified
  }

  predicate NeedsUpload(objects: ObjectMap, remote: Remote, p: Path, f: FileData) {
    if NeedsHead(remote, p, f) then
      remote.index[p].key in objects ==> ResolvedMtime(objects[remote.index[p].key]) != Trunc(f.mtimeMs)
    else
      !(p in remote.index && !IsMarker(remote.index[p].key) && remote.index[p].size == |f.data|)
  }

  /** The push fails when it asks about an indexed object that is not there. */
  ghost predicate HeadsSucceed(objects: ObjectMap, remote: Remote, files: map<Path, FileData>) {
    forall p :: p in files && NeedsHead(remote, p, files[p]) ==> remote.index[p].key in objects
  }

  function Uploads(objects: ObjectMap, remote: Remote, files: map<Path, FileData>): set<Path> {
    set p | p in files && NeedsUpload(objects, remote, p, files[p])
  }

  function NewMarkers(remote: Remote, dirs: set<Path>): set<Path> {
    set d | d in dirs && !(d in remote.index && IsMarker(remote.index[d].key))
  }

  /** Indexed paths, the root aside, that the scan did not find. */
  function Gone(remote: Remote, s: Snapshot): set<seq<string>> {
    set p | p in remote.index && p != [] && p !in s.files && p !in s.emptyDirectories
  }

  function GoneKeys(remote: Remote, s: Snapshot): set<string> {
    set p | p in Gone(remote, s) :: remote.index[p].key
  }

  function Uploaded(f: FileData, now: int): StoredObject {
    StoredObject(Bytes(f.data), MtimeMetadata(f.mtimeMs), now)
  }

  function MarkerObject(now: int): StoredObject {
    StoredObject(Bytes([]), None, now)
  }

  /** The object stored at a file key; the keys it is used for all stand for a file. */
  function UploadAt(prefix: string, files: map<Path, FileData>, key: string, now: int): StoredObject {
    match KeyPath(prefix, key)
    case None => MarkerObject(now)
    case Some(p) => if p in files then Uploaded(files[p], now) else MarkerObject(now)
  }

  function WithUploads(prefix: string, objects: ObjectMap, files: map<Path, FileData>, up: set<Path>, now: int): ObjectMap {
    objects + map k | k in FileKeys(prefix, up) :: UploadAt(prefix, files, k, now)
  }

  function WithMarkers(prefix: string, objects: ObjectMap, dirs: set<Path>, now: int): ObjectMap {
    objects + map k | k in DirKeys(prefix, dirs) :: MarkerObject(now)
  }

  /** The objects after uploads, new markers and deletions, before the manifest is written. */
  function Transferred(prefix: string, objects: ObjectMap, remote: Remote, s: Snapshot, now: int): ObjectMap {
    WithMarkers(prefix, WithUploads(prefix, objects, s.files, Uploads(objects, remote, s.files), now),
                NewMarkers(remote, s.emptyDirectories), now)
      - GoneKeys(remote, s)
  }

  datatype PushCounts = PushCounts(uploaded: nat, deleted: nat, created: nat)

  function CountsOf(objects: ObjectMap, remote: Remote, s: Snapshot): PushCounts {
    PushCounts(|Uploads(objects, remote, s.files)|, |Gone(remote, s)|, |NewMarkers(remote, s.emptyDirectories)|)
  }

  /** `hasDirectorySyncMutations`. */
  predicate Mutated(c: PushCounts) {
    c.uploaded > 0 || c.deleted > 0 || c.created > 0
  }

  function PushManifest(s: Snapshot): ManifestDoc {
    BuildManifest(Stamps(s.files), s.emptyDirectories, Some(ObjectsMode))
  }

  ghost function Recorded(cfg: SyncConfig, prefix: string, objects: ObjectMap, remote: Remote, s: Snapshot, now: int): ObjectMap
    requires cfg.Valid()
  {
    ApplyAll(WriteOps(cfg, prefix, PushManifest(s), remote.manifest, now), Transferred(prefix, objects, remote, s, now))
  }

  /** The objects after a whole push of the scanned directory. */
  ghost function Pushed(cfg: SyncConfig, paged: bool, prefix: string, exclude: Filter, objects: ObjectMap, s: Snapshot, now: int): ObjectMap
    requires cfg.Valid()
  {
    var remote := Observe(cfg, paged, prefix, exclude, objects);
    var after := Recorded(cfg, prefix, objects, remote, s, now);
    if Mutated(CountsOf(objects, remote, s)) then after - {BundleKey(prefix)} else after
  }
}
