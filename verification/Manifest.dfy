/** The sync manifest: building, sharding, writing, loading and comparing it
    (object-storage-manifest.ts). */
module Manifest {
  import opened Arith
  import opened Orders
  import opened Options
  import opened Paths
  import opened Storage

  /** `shardFileCount` comes from configuration and is positive; the orders stand for
      `localeCompare` on rendered paths and on keys. */
  datatype SyncConfig = SyncConfig(
    shardFileCount: nat,
    pathLess: (Path, Path) -> bool,
    keyLess: (string, string) -> bool)
  {
    ghost predicate Valid() {
      shardFileCount > 0 && StrictTotal(pathLess) && StrictTotal(keyLess)
    }
  }

  // ---- documents --------------------------------------------------------------------------

  predicate ValidEntry(e: FileEntry) {
    e.size >= 0 && e.mtimeMs > 0
  }

  /** The entries a reader accepts. */
  function ValidFiles(doc: ManifestDoc): map<Path, FileEntry> {
    map p | p in doc.files && p != [] && ValidEntry(doc.files[p]) :: doc.files[p]
  }

  /** The empty directories a reader accepts. */
  function ListedDirs(doc: ManifestDoc): set<Path> {
    set d | d in doc.emptyDirectories && d != [] && !Ignored(d)
  }

  function ModeOf(doc: ManifestDoc): StorageMode {
    match doc.storageMode case None => ObjectsMode case Some(m) => m
  }

  /** `buildDirectorySyncManifestFromFiles`; the modification times are already truncated. */
  function BuildManifest(files: map<Path, FileEntry>, dirs: set<Path>, mode: Option<StorageMode>): ManifestDoc {
    ManifestDoc(
      map p | p in files && p != [] && !Ignored(p) :: files[p],
      (set d | d in dirs && d != [] && !Ignored(d)),
      mode,
      [])
  }

  /** Two manifests record the same directory. */
  predicate Equivalent(l: ManifestDoc, r: ManifestDoc) {
    ValidFiles(l) == ValidFiles(r) && ListedDirs(l) == ListedDirs(r) && ModeOf(l) == ModeOf(r)
  }

  /** `isEquivalentDirectorySyncManifestDocument`: compare sizes, then look up every right entry. */
  method IsEquivalent(left: Option<ManifestDoc>, right: Option<ManifestDoc>) returns (same: bool)
    ensures same <==> left.Some? && right.Some? && Equivalent(left.value, right.value)
  {
    if left.None? || right.None? {
      return false;
    }
    var leftEntries, rightEntries := ValidFiles(left.value), ValidFiles(right.value);
    if |leftEntries| != |rightEntries| {
      return false;
    }
    var todo := rightEntries.Keys;
    while todo != {}
      invariant todo <= rightEntries.Keys
      invariant forall p :: p in rightEntries && p !in todo ==> p in leftEntries && leftEntries[p] == rightEntries[p]
      decreases todo
    {
      var p :| p in todo;
      if p !in leftEntries || leftEntries[p] != rightEntries[p] {
        return false;
      }
      todo := todo - {p};
    }
    SubsetOfSameSize(rightEntries.Keys, leftEntries.Keys);
    assert |rightEntries.Keys| == |rightEntries| && |leftEntries.Keys| == |leftEntries|;
    same := ListedDirs(left.value) == ListedDirs(right.value) && ModeOf(left.value) == ModeOf(right.value);
  }

  lemma SubsetOfSameSize<T>(a: set<T>, b: set<T>)
    requires a <= b && |a| == |b|
    ensures a == b
  {
    assert |b - a| == |b| - |a|;
    assert b - a == {};
  }

  // ---- shards ----------------------------------------------------------------------------------

  function Chunks(s: seq<Path>, size: nat): seq<seq<Path>>
    requires size > 0
  {
    if s == [] then []
    else if |s| <= size then [s]
    else [s[..size]] + Chunks(s[size..], size)
  }

  function Flatten(chunks: seq<seq<Path>>): seq<Path> {
    if chunks == [] then [] else chunks[0] + Flatten(chunks[1..])
  }

  function Restrict(files: map<Path, FileEntry>, s: seq<Path>): map<Path, FileEntry> {
    map p | p in s && p in files :: files[p]
  }

  function ShardObject(files: map<Path, FileEntry>, chunk: seq<Path>, now: int): StoredObject {
    StoredObject(Document(ManifestDoc(Restrict(files, chunk), {}, None, [])), None, now)
  }

  function ShardOps(prefix: string, files: map<Path, FileEntry>, chunks: seq<seq<Path>>, now: int): (ops: seq<StoreOp>)
    ensures |ops| == |chunks|
  {
    seq(|chunks|, i requires 0 <= i < |chunks| => Put(ShardKey(prefix, i), ShardObject(files, chunks[i], now)))
  }

  function ShardKeys(prefix: string, n: nat): (keys: seq<string>)
    ensures |keys| == n
  {
    seq(n, i requires 0 <= i < n => ShardKey(prefix, i))
  }

  function FilterOut(keys: seq<string>, drop: seq<string>): (r: seq<string>)
    ensures forall k :: k in r <==> k in keys && k !in drop
  {
    if keys == [] then []
    else
      var rest := FilterOut(keys[1..], drop);
      if keys[0] in drop then rest else [keys[0]] + rest
  }

  /** Pieces of this size; only the last may be shorter. */
  ghost predicate FullPieces(chunks: seq<seq<Path>>, size: nat) {
    && (forall i :: 0 <= i < |chunks| ==> 0 < |chunks[i]| <= size)
    && (forall i :: 0 <= i < |chunks| - 1 ==> |chunks[i]| == size)
  }

  lemma PieceInFront(first: seq<Path>, rest: seq<seq<Path>>, size: nat)
    requires size > 0 && |first| == size && FullPieces(rest, size)
    ensures FullPieces([first] + rest, size) && Flatten([first] + rest) == first + Flatten(rest)
  {
    assert ([first] + rest)[1..] == rest;
  }

  lemma OnePiece(s: seq<Path>)
    ensures Flatten([s]) == s
  {
    assert [s][1..] == [];
    assert s + [] == s;
  }

  /** The shards cut the sorted entries into full pieces; only the last may be shorter. */
  lemma {:induction false} ShardsPartition(s: seq<Path>, size: nat)
    requires size > 0
    ensures Flatten(Chunks(s, size)) == s && FullPieces(Chunks(s, size), size)
  {
    if |s| > size {
      ShardsPartition(s[size..], size);
      PieceInFront(s[..size], Chunks(s[size..], size), size);
      assert s == s[..size] + s[size..];
    } else if s != [] {
      OnePiece(s);
    }
  }

  // ---- loading -----------------------------------------------------------------------------------

  function MergeShards(objects: ObjectMap, keys: seq<string>, files: map<Path, FileEntry>): Option<map<Path, FileEntry>> {
    if keys == [] then Some(files)
    else if keys[0] in objects && objects[keys[0]].body.Document? then
      MergeShards(objects, keys[1..], files + objects[keys[0]].body.doc.files)
    else None
  }

  /** What a reader of the prefix gets; a missing or unreadable manifest or shard gives nothing. */
  function Load(objects: ObjectMap, prefix: string): Option<ManifestDoc> {
    var key := ManifestKey(prefix);
    if key !in objects || !objects[key].body.Document? then None
    else
      var top := objects[key].body.doc;
      if top.manifestShards == [] then Some(top)
      else
        match MergeShards(objects, top.manifestShards, top.files)
        case None => None
        case Some(files) => Some(top.(files := files))
  }

  /** `loadRemoteDirectorySyncManifestDocument`, without a listing. */
  method LoadManifest(store: ObjectStore, prefix: string) returns (doc: Option<ManifestDoc>)
    ensures doc == Load(store.objects, prefix)
  {
    var key := ManifestKey(prefix);
    if key !in store.objects || !store.objects[key].body.Document? {
      return None;
    }
    var top := store.objects[key].body.doc;
    if top.manifestShards == [] {
      return Some(top);
    }
    var files := top.files;
    var index := 0;
    while index < |top.manifestShards|
      invariant 0 <= index <= |top.manifestShards|
      invariant MergeShards(store.objects, top.manifestShards, top.files)
             == MergeShards(store.objects, top.manifestShards[index..], files)
    {
      var shardKey := top.manifestShards[index];
      if shardKey !in store.objects || !store.objects[shardKey].body.Document? {
        return None;
      }
      files := files + store.objects[shardKey].body.doc.files;
      assert top.manifestShards[index..][1..] == top.manifestShards[index + 1..];
      index := index + 1;
    }
    return Some(top.(files := files));
  }

  // ---- writing -----------------------------------------------------------------------------------

  predicate IsEmptyManifest(m: ManifestDoc) {
    m.files == map[] && m.emptyDirectories == {}
  }

  function OldShards(existing: Option<ManifestDoc>): seq<string> {
    match existing case None => [] case Some(doc) => doc.manifestShards
  }

  ghost function ChunksOf(cfg: SyncConfig, m: ManifestDoc): seq<seq<Path>>
    requires cfg.Valid()
  {
    Chunks(Sorted(cfg.pathLess, m.files.Keys), cfg.shardFileCount)
  }

  ghost function TopDocument(prefix: string, m: ManifestDoc, shards: nat): ManifestDoc {
    ManifestDoc(map[], m.emptyDirectories, m.storageMode, ShardKeys(prefix, shards))
  }

  ghost function ShardedOps(cfg: SyncConfig, prefix: string, m: ManifestDoc, oldShards: seq<string>, now: int): seq<StoreOp>
    requires cfg.Valid()
  {
    var chunks := ChunksOf(cfg, m);
    ShardOps(prefix, m.files, chunks, now) + TopOps(prefix, TopDocument(prefix, m, |chunks|), FilterOut(oldShards, ShardKeys(prefix, |chunks|)), now)
  }

  ghost function TopOps(prefix: string, top: ManifestDoc, stale: seq<string>, now: int): seq<StoreOp> {
    [Put(ManifestKey(prefix), StoredObject(Document(top), None, now))] + DeleteOps(stale)
  }

  /** The store requests of `writeRemoteDirectorySyncManifest`, in order. */
  ghost function WriteOps(cfg: SyncConfig, prefix: string, m: ManifestDoc, existing: Option<ManifestDoc>, now: int): seq<StoreOp>
    requires cfg.Valid()
  {
    var key := ManifestKey(prefix);
    var oldShards := OldShards(existing);
    if IsEmptyManifest(m) then DeleteOps([key] + oldShards)
    else if existing.Some? && Equivalent(existing.value, m) then []
    else if |m.files| > cfg.shardFileCount then ShardedOps(cfg, prefix, m, oldShards, now)
    else TopOps(prefix, m, oldShards, now)
  }

  /** The request of one turn of the upload loop: the next of `ops`. */
  method UploadShard(store: ObjectStore, prefix: string, m: ManifestDoc, index: nat, chunk: seq<Path>,
                     ghost ops: seq<StoreOp>, ghost log: seq<StoreOp>, ghost before: ObjectMap)
    requires index < |ops| && ops[index] == Put(ShardKey(prefix, index), ShardObject(m.files, chunk, store.clock))
    requires store.log == log + ops[..index] && store.objects == ApplyAll(ops[..index], before)
    modifies store`objects, store`log
    ensures store.log == log + ops[..index + 1] && store.objects == ApplyAll(ops[..index + 1], before)
  {
    ApplyPrefix(ops, index, before);
    store.PutObject(ShardKey(prefix, index), Document(ManifestDoc(Restrict(m.files, chunk), {}, None, [])), None);
  }

  /** The loop of `writeRemoteDirectorySyncManifest` that uploads the shards. */
  method WriteShards(cfg: SyncConfig, store: ObjectStore, prefix: string, m: ManifestDoc) returns (shardKeys: seq<string>)
    requires cfg.Valid()
    modifies store`objects, store`log
    ensures var chunks := ChunksOf(cfg, m);
      var ops := ShardOps(prefix, m.files, chunks, store.clock);
      && shardKeys == ShardKeys(prefix, |chunks|)
      && store.log == old(store.log) + ops
      && store.objects == ApplyAll(ops, old(store.objects))
  {
    var size := cfg.shardFileCount;
    var sortedPaths := Sort(cfg.pathLess, m.files.Keys);
    ghost var chunks := ChunksOf(cfg, m);
    ghost var ops := ShardOps(prefix, m.files, chunks, store.clock);
    shardKeys := [];
    var index := 0;
    while index < |sortedPaths|
      invariant 0 <= index <= |sortedPaths|
      invariant |shardKeys| <= |chunks|
      invariant index < |sortedPaths| ==> index == Times(|shardKeys|, size)
      invariant chunks[|shardKeys|..] == Chunks(sortedPaths[index..], size)
      invariant shardKeys == ShardKeys(prefix, |shardKeys|)
      invariant store.log == old(store.log) + ops[..|shardKeys|]
      invariant store.objects == ApplyAll(ops[..|shardKeys|], old(store.objects))
      decreases |sortedPaths| - index
    {
      ghost var n := |shardKeys|;
      var shardIndex := index / size;
      ExactDivision(n, size);
      var end := if index + size <= |sortedPaths| then index + size else |sortedPaths|;
      var chunk := sortedPaths[index..end];
      NextShard(sortedPaths, index, end, size, chunks, n);
      ShardKeysSnoc(prefix, n);
      UploadShard(store, prefix, m, shardIndex, chunk, ops, old(store.log), old(store.objects));
      shardKeys := shardKeys + [ShardKey(prefix, shardIndex)];
      index := end;
    }
    assert chunks[|shardKeys|..] == [];
    assert ops[..|shardKeys|] == ops;
  }

  lemma NextShard(s: seq<Path>, index: nat, end: nat, size: nat, chunks: seq<seq<Path>>, n: nat)
    requires size > 0 && index < |s| && n <= |chunks|
    requires end == if index + size <= |s| then index + size else |s|
    requires chunks[n..] == Chunks(s[index..], size)
    ensures n < |chunks| && chunks[n] == s[index..end] && chunks[n + 1..] == Chunks(s[end..], size)
  {
    NextChunk(s, index, end, size);
    assert chunks[n] == chunks[n..][0];
    assert chunks[n + 1..] == chunks[n..][1..];
  }

  lemma ShardKeysSnoc(prefix: string, n: nat)
    ensures ShardKeys(prefix, n) + [ShardKey(prefix, n)] == ShardKeys(prefix, n + 1)
  {
  }

  lemma NextChunk(s: seq<Path>, index: nat, end: nat, size: nat)
    requires size > 0 && index < |s|
    requires end == if index + size <= |s| then index + size else |s|
    ensures Chunks(s[index..], size) == [s[index..end]] + Chunks(s[end..], size)
  {
    var rest := s[index..];
    if |rest| <= size {
      assert s[index..end] == rest && s[end..] == [];
    } else {
      assert rest[..size] == s[index..end] && rest[size..] == s[end..];
    }
  }

  lemma Concat3<T>(a: seq<T>, b: seq<T>, c: seq<T>)
    ensures a + b + c == a + (b + c)
  {
  }

  method WriteManifest(cfg: SyncConfig, store: ObjectStore, prefix: string, files: map<Path, FileEntry>,
                       dirs: set<Path>, mode: Option<StorageMode>, existing: Option<ManifestDoc>)
    requires cfg.Valid()
    modifies store`objects, store`log
    ensures var ops := WriteOps(cfg, prefix, BuildManifest(files, dirs, mode), existing, store.clock);
      store.log == old(store.log) + ops && store.objects == ApplyAll(ops, old(store.objects))
  {
    var m := BuildManifest(files, dirs, mode);
    var oldShards := OldShards(existing);
    if |m.files| == 0 && |m.emptyDirectories| == 0 {
      store.DeleteObjects([ManifestKey(prefix)] + oldShards);
      DeleteOpsEffect([ManifestKey(prefix)] + oldShards, old(store.objects));
      return;
    }
    var same := IsEquivalent(existing, Some(m));
    if same {
      return;
    }
    if |m.files| > cfg.shardFileCount {
      WriteSharded(cfg, store, prefix, m, oldShards);
    } else {
      ghost var ops := ReplaceTop(store, prefix, m, oldShards);
    }
  }

  method WriteSharded(cfg: SyncConfig, store: ObjectStore, prefix: string, m: ManifestDoc, oldShards: seq<string>)
    requires cfg.Valid()
    modifies store`objects, store`log
    ensures var ops := ShardedOps(cfg, prefix, m, oldShards, store.clock);
      store.log == old(store.log) + ops && store.objects == ApplyAll(ops, old(store.objects))
  {
    var shardKeys := WriteShards(cfg, store, prefix, m);
    var top := ManifestDoc(map[], m.emptyDirectories, m.storageMode, shardKeys);
    var stale := FilterOut(oldShards, shardKeys);
    ghost var shardOps := ShardOps(prefix, m.files, ChunksOf(cfg, m), store.clock);
    assert top == TopDocument(prefix, m, |shardOps|);
    ghost var topOps := ReplaceTop(store, prefix, top, stale);
    ApplyConcat(shardOps, topOps, old(store.objects));
    Concat3(old(store.log), shardOps, topOps);
  }

  /** Put the top document, then drop the shards it no longer names. */
  method ReplaceTop(store: ObjectStore, prefix: string, top: ManifestDoc, stale: seq<string>) returns (ghost ops: seq<StoreOp>)
    modifies store`objects, store`log
    ensures ops == TopOps(prefix, top, stale, store.clock)
    ensures store.log == old(store.log) + ops
    ensures store.objects == ApplyAll(ops, old(store.objects))
  {
    ghost var put := Put(ManifestKey(prefix), StoredObject(Document(top), None, store.clock));
    store.PutObject(ManifestKey(prefix), Document(top), None);
    assert [put][..0] == [];
    ghost var before := store.objects;
    store.DeleteObjects(stale);
    DeleteOpsEffect(stale, before);
    ApplyConcat([put], DeleteOps(stale), old(store.objects));
    ops := [put] + DeleteOps(stale);
  }
}
