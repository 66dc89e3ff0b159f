/** What writing a manifest guarantees: it is read back, it leaves no stray shard behind, and
    a crash between two requests shows either the old manifest or the new one. */
module ManifestProofs {
  import opened Orders
  import opened Options
  import opened Paths
  import opened Storage
  import opened Manifest

  // ---- the store after some of the shards are up ---------------------------------------------

  predicate SameAt(a: ObjectMap, b: ObjectMap, k: string) {
    (k in a <==> k in b) && (k in a && k in b ==> a[k] == b[k])
  }

  predicate HoldsShard(prefix: string, files: map<Path, FileEntry>, chunk: seq<Path>, now: int, objects: ObjectMap, i: nat) {
    ShardKey(prefix, i) in objects && objects[ShardKey(prefix, i)] == ShardObject(files, chunk, now)
  }

  /** Exactly the first `n` shard keys were overwritten. */
  ghost predicate ShardsStored(prefix: string, files: map<Path, FileEntry>, chunks: seq<seq<Path>>, now: int,
                               before: ObjectMap, after: ObjectMap, n: nat)
    requires n <= |chunks|
  {
    && (forall i :: 0 <= i < n ==> HoldsShard(prefix, files, chunks[i], now, after, i))
    && (forall k :: k !in ShardKeys(prefix, n) ==> SameAt(before, after, k))
  }

  lemma ShardKeyListed(prefix: string, n: nat, k: string)
    ensures k in ShardKeys(prefix, n) <==> exists i :: 0 <= i < n && ShardKey(prefix, i) == k
  {
    if exists i :: 0 <= i < n && ShardKey(prefix, i) == k {
      var i :| 0 <= i < n && ShardKey(prefix, i) == k;
      assert ShardKeys(prefix, n)[i] == k;
    }
  }

  lemma {:induction false} ShardPutsEffect(prefix: string, files: map<Path, FileEntry>, chunks: seq<seq<Path>>, now: int,
                                           before: ObjectMap, n: nat)
    requires n <= |chunks|
    ensures ShardsStored(prefix, files, chunks, now, before,
                         ApplyAll(ShardOps(prefix, files, chunks, now)[..n], before), n)
  {
    if n == 0 {
      NoShardPut(prefix, files, chunks, now, before);
    } else {
      ShardPutsEffect(prefix, files, chunks, now, before, n - 1);
      NextShardPut(prefix, files, chunks, now, before, n - 1);
    }
  }

  lemma NoShardPut(prefix: string, files: map<Path, FileEntry>, chunks: seq<seq<Path>>, now: int, before: ObjectMap)
    ensures ShardsStored(prefix, files, chunks, now, before, ApplyAll(ShardOps(prefix, files, chunks, now)[..0], before), 0)
  {
    assert ShardOps(prefix, files, chunks, now)[..0] == [];
  }

  lemma NextShardPut(prefix: string, files: map<Path, FileEntry>, chunks: seq<seq<Path>>, now: int, before: ObjectMap, n: nat)
    requires n < |chunks|
    requires ShardsStored(prefix, files, chunks, now, before, ApplyAll(ShardOps(prefix, files, chunks, now)[..n], before), n)
    ensures ShardsStored(prefix, files, chunks, now, before, ApplyAll(ShardOps(prefix, files, chunks, now)[..n + 1], before), n + 1)
  {
    var ops := ShardOps(prefix, files, chunks, now);
    ApplyPrefix(ops, n, before);
    ShardPutStep(prefix, files, chunks, now, before, ApplyAll(ops[..n], before), n);
  }

  lemma ShardPutStep(prefix: string, files: map<Path, FileEntry>, chunks: seq<seq<Path>>, now: int,
                     before: ObjectMap, mid: ObjectMap, n: nat)
    requires n < |chunks|
    requires ShardsStored(prefix, files, chunks, now, before, mid, n)
    ensures ShardsStored(prefix, files, chunks, now, before,
                         mid[ShardKey(prefix, n) := ShardObject(files, chunks[n], now)], n + 1)
  {
    var after := mid[ShardKey(prefix, n) := ShardObject(files, chunks[n], now)];
    forall i | 0 <= i < n + 1 ensures HoldsShard(prefix, files, chunks[i], now, after, i) {
      if i < n {
        assert HoldsShard(prefix, files, chunks[i], now, mid, i);
        if ShardKey(prefix, i) == ShardKey(prefix, n) { ShardKeysDistinct(prefix, i, n); }
      }
    }
    ShardKeysSnoc(prefix, n);
    forall k | k !in ShardKeys(prefix, n + 1) ensures SameAt(before, after, k) {
      assert SameAt(before, mid, k);
    }
  }

  // ---- reading the shards back -----------------------------------------------------------------

  ghost predicate ShardsReadable(prefix: string, files: map<Path, FileEntry>, chunks: seq<seq<Path>>, now: int, objects: ObjectMap) {
    forall i :: 0 <= i < |chunks| ==>
      ShardKey(prefix, i) in objects && objects[ShardKey(prefix, i)] == ShardObject(files, chunks[i], now)
  }

  lemma RestrictConcat(files: map<Path, FileEntry>, a: seq<Path>, b: seq<Path>, acc: map<Path, FileEntry>)
    ensures acc + Restrict(files, a) + Restrict(files, b) == acc + Restrict(files, a + b)
  {
  }

  lemma {:induction false} MergeReadsFiles(prefix: string, files: map<Path, FileEntry>, chunks: seq<seq<Path>>, now: int,
                                           objects: ObjectMap, from: nat, acc: map<Path, FileEntry>)
    requires from <= |chunks| && ShardsReadable(prefix, files, chunks, now, objects)
    ensures MergeShards(objects, ShardKeys(prefix, |chunks|)[from..], acc)
         == Some(acc + Restrict(files, Flatten(chunks[from..])))
    decreases |chunks| - from
  {
    var keys := ShardKeys(prefix, |chunks|)[from..];
    if from == |chunks| {
      assert keys == [];
      assert chunks[from..] == [];
      assert acc + Restrict(files, []) == acc;
    } else {
      assert keys[0] == ShardKey(prefix, from);
      assert keys[1..] == ShardKeys(prefix, |chunks|)[from + 1..];
      assert chunks[from..][1..] == chunks[from + 1..];
      MergeReadsFiles(prefix, files, chunks, now, objects, from + 1, acc + Restrict(files, chunks[from]));
      RestrictConcat(files, chunks[from], Flatten(chunks[from + 1..]), acc);
    }
  }

  /** Sorting and cutting loses no entry. */
  lemma ChunksCoverFiles(cfg: SyncConfig, m: ManifestDoc)
    requires cfg.Valid()
    ensures Restrict(m.files, Flatten(ChunksOf(cfg, m))) == m.files
    ensures m.files != map[] ==> ChunksOf(cfg, m) != []
  {
    var s := Sorted(cfg.pathLess, m.files.Keys);
    SortedLists(cfg.pathLess, m.files.Keys);
    ShardsPartition(s, cfg.shardFileCount);
    forall p ensures p in s <==> p in m.files {
      assert p in Elements(s) <==> p in s;
    }
    if m.files != map[] {
      var p :| p in m.files;
      assert p in s;
    }
  }

  /** With the shards and the top document in place, a reader gets the manifest back. */
  lemma ShardedManifestReadable(cfg: SyncConfig, prefix: string, m: ManifestDoc, now: int, objects: ObjectMap)
    requires cfg.Valid() && m.files != map[]
    requires ShardsReadable(prefix, m.files, ChunksOf(cfg, m), now, objects)
    requires ManifestKey(prefix) in objects
    requires objects[ManifestKey(prefix)].body == Document(TopDocument(prefix, m, |ChunksOf(cfg, m)|))
    ensures Load(objects, prefix) == Some(m.(manifestShards := ShardKeys(prefix, |ChunksOf(cfg, m)|)))
  {
    var chunks := ChunksOf(cfg, m);
    var keys := ShardKeys(prefix, |chunks|);
    ChunksCoverFiles(cfg, m);
    MergeReadsFiles(prefix, m.files, chunks, now, objects, 0, map[]);
    assert keys[0..] == keys && chunks[0..] == chunks;
    assert map[] + m.files == m.files;
  }

  // ---- effect of a whole write ------------------------------------------------------------------

  /** What a manifest says about the directory, whatever its sharding; absent means empty. */
  function Recorded(doc: Option<ManifestDoc>): (map<Path, FileEntry>, set<Path>, StorageMode) {
    match doc
    case None => (map[], {}, ObjectsMode)
    case Some(m) => (m.files, m.emptyDirectories, ModeOf(m))
  }

  function Wanted(m: ManifestDoc): Option<ManifestDoc> {
    if IsEmptyManifest(m) then None else Some(m)
  }

  /** No shard list names the manifest object itself. */
  predicate SaneShardList(prefix: string, existing: Option<ManifestDoc>) {
    ManifestKey(prefix) !in OldShards(existing)
  }

  lemma ManifestKeyNotShard(prefix: string, n: nat)
    ensures ManifestKey(prefix) !in ShardKeys(prefix, n)
  {
    ReservedKeys(prefix, n);
    forall i | 0 <= i < n ensures ShardKey(prefix, i) != ManifestKey(prefix) {
      ReservedKeys(prefix, i);
    }
  }

  /** Cutting `TopOps` after its first request: the new top document with some old shards gone. */
  lemma TopOpsCut(prefix: string, top: ManifestDoc, stale: seq<string>, now: int, before: ObjectMap, n: nat)
    requires 0 < n <= |TopOps(prefix, top, stale, now)|
    requires ManifestKey(prefix) !in stale
    ensures var after := ApplyAll(TopOps(prefix, top, stale, now)[..n], before);
      && ManifestKey(prefix) in after && after[ManifestKey(prefix)].body == Document(top)
      && (forall k :: k in before && k !in stale && k != ManifestKey(prefix) ==> k in after && after[k] == before[k])
      && (forall k :: k in after && k != ManifestKey(prefix) ==> k in before && after[k] == before[k])
      && (n == |TopOps(prefix, top, stale, now)| ==> forall k :: k in stale ==> k !in after)
  {
    var put := Put(ManifestKey(prefix), StoredObject(Document(top), None, now));
    var rest := DeleteOps(stale);
    var ops := TopOps(prefix, top, stale, now);
    assert ops[..n] == [put] + rest[..n - 1];
    ApplyConcat([put], rest[..n - 1], before);
    assert [put][..0] == [];
    var mid := Apply(put, before);
    DeleteCut(stale, n - 1, mid);
    DeleteOpsEffect(stale, mid);
    if n == |ops| { assert rest[..n - 1] == rest; }
  }

  /** Shards just written are not among those dropped. */
  lemma ShardsSurvive(prefix: string, files: map<Path, FileEntry>, chunks: seq<seq<Path>>, now: int,
                      before: ObjectMap, mid: ObjectMap, after: ObjectMap, stale: seq<string>)
    requires ShardsStored(prefix, files, chunks, now, before, mid, |chunks|)
    requires forall k :: k in stale ==> k !in ShardKeys(prefix, |chunks|)
    requires forall k :: k in mid && k !in stale && k != ManifestKey(prefix) ==> k in after && after[k] == mid[k]
    ensures ShardsReadable(prefix, files, chunks, now, after)
  {
    ManifestKeyNotShard(prefix, |chunks|);
    forall i | 0 <= i < |chunks|
      ensures ShardKey(prefix, i) in after && after[ShardKey(prefix, i)] == ShardObject(files, chunks[i], now)
    {
      assert HoldsShard(prefix, files, chunks[i], now, mid, i);
      assert ShardKeys(prefix, |chunks|)[i] == ShardKey(prefix, i);
    }
  }

  /** After all the shards are up, any number of `TopOps` requests leaves the new top document and shards. */
  lemma ShardedCutStored(cfg: SyncConfig, prefix: string, m: ManifestDoc, oldShards: seq<string>, now: int,
                         before: ObjectMap, n: nat)
    requires cfg.Valid()
    requires ManifestKey(prefix) !in oldShards
    requires |ChunksOf(cfg, m)| < n <= |ShardedOps(cfg, prefix, m, oldShards, now)|
    ensures var after := ApplyAll(ShardedOps(cfg, prefix, m, oldShards, now)[..n], before);
      && ShardsReadable(prefix, m.files, ChunksOf(cfg, m), now, after)
      && ManifestKey(prefix) in after
      && after[ManifestKey(prefix)].body == Document(TopDocument(prefix, m, |ChunksOf(cfg, m)|))
  {
    var chunks := ChunksOf(cfg, m);
    var shardOps := ShardOps(prefix, m.files, chunks, now);
    var top := TopDocument(prefix, m, |chunks|);
    var stale := FilterOut(oldShards, ShardKeys(prefix, |chunks|));
    var topOps := TopOps(prefix, top, stale, now);
    var ops := ShardedOps(cfg, prefix, m, oldShards, now);
    assert ops[..n] == shardOps + topOps[..n - |chunks|];
    ApplyConcat(shardOps, topOps[..n - |chunks|], before);
    ShardPutsEffect(prefix, m.files, chunks, now, before, |chunks|);
    assert shardOps[..|chunks|] == shardOps;
    var mid := ApplyAll(shardOps, before);
    TopOpsCut(prefix, top, stale, now, mid, n - |chunks|);
    ManifestKeyNotShard(prefix, |chunks|);
    ShardsSurvive(prefix, m.files, chunks, now, before, mid, ApplyAll(topOps[..n - |chunks|], mid), stale);
  }

  lemma ShardedCutReadable(cfg: SyncConfig, prefix: string, m: ManifestDoc, oldShards: seq<string>, now: int,
                           before: ObjectMap, n: nat)
    requires cfg.Valid() && m.files != map[]
    requires ManifestKey(prefix) !in oldShards
    requires |ChunksOf(cfg, m)| < n <= |ShardedOps(cfg, prefix, m, oldShards, now)|
    ensures Load(ApplyAll(ShardedOps(cfg, prefix, m, oldShards, now)[..n], before), prefix)
         == Some(m.(manifestShards := ShardKeys(prefix, |ChunksOf(cfg, m)|)))
  {
    ShardedCutStored(cfg, prefix, m, oldShards, now, before, n);
    ShardedManifestReadable(cfg, prefix, m, now, ApplyAll(ShardedOps(cfg, prefix, m, oldShards, now)[..n], before));
  }

  /** Deleting everything: once the first request is through, nothing can be loaded. */
  lemma EmptyCutUnreadable(prefix: string, oldShards: seq<string>, before: ObjectMap, n: nat)
    requires 0 < n <= |DeleteOps([ManifestKey(prefix)] + oldShards)|
    ensures Load(ApplyAll(DeleteOps([ManifestKey(prefix)] + oldShards)[..n], before), prefix) == None
  {
    DeleteCut([ManifestKey(prefix)] + oldShards, n, before);
  }

  lemma AllOps(ops: seq<StoreOp>)
    ensures ops[..|ops|] == ops
  {
  }

  /** Write, then load: the reader gets the new manifest, or the old one when the two are equivalent. */
  lemma WriteThenLoad(cfg: SyncConfig, prefix: string, m: ManifestDoc, existing: Option<ManifestDoc>, now: int, before: ObjectMap)
    requires cfg.Valid() && m.manifestShards == []
    requires existing == Load(before, prefix) && SaneShardList(prefix, existing)
    ensures var after := ApplyAll(WriteOps(cfg, prefix, m, existing, now), before);
      var skipped := !IsEmptyManifest(m) && existing.Some? && Equivalent(existing.value, m);
      && (skipped ==> after == before)
      && (!skipped ==> Recorded(Load(after, prefix)) == Recorded(Wanted(m)))
  {
    var ops := WriteOps(cfg, prefix, m, existing, now);
    var shards0 := OldShards(existing);
    AllOps(ops);
    if IsEmptyManifest(m) {
      assert DeleteOps([ManifestKey(prefix)] + shards0) != [];
      EmptyCutUnreadable(prefix, shards0, before, |ops|);
    } else if existing.Some? && Equivalent(existing.value, m) {
    } else if |m.files| > cfg.shardFileCount {
      ShardedCutReadable(cfg, prefix, m, shards0, now, before, |ops|);
    } else {
      TopOpsCut(prefix, m, shards0, now, before, |ops|);
    }
  }

  // ---- crash atomicity ----------------------------------------------------------------------------

  /** The shards named by the manifest object as it is stored, loadable or not. */
  function StoredShards(objects: ObjectMap, prefix: string): seq<string> {
    var key := ManifestKey(prefix);
    if key in objects && objects[key].body.Document? then objects[key].body.doc.manifestShards else []
  }

  lemma ShardPutsKeepUnshardedManifest(cfg: SyncConfig, prefix: string, m: ManifestDoc, oldShards: seq<string>, now: int,
                                       before: ObjectMap, n: nat)
    requires cfg.Valid() && StoredShards(before, prefix) == []
    requires n <= |ChunksOf(cfg, m)|
    ensures n <= |ShardedOps(cfg, prefix, m, oldShards, now)|
    ensures Load(ApplyAll(ShardedOps(cfg, prefix, m, oldShards, now)[..n], before), prefix) == Load(before, prefix)
  {
    var chunks := ChunksOf(cfg, m);
    assert ShardedOps(cfg, prefix, m, oldShards, now)[..n] == ShardOps(prefix, m.files, chunks, now)[..n];
    ShardPutsEffect(prefix, m.files, chunks, now, before, n);
    ManifestKeyNotShard(prefix, n);
  }

  /** A write cut after any number of store requests shows the complete old manifest or the complete
      new one, unless it replaces shards by shards. */
  lemma ReplacementIsAtomic(cfg: SyncConfig, prefix: string, m: ManifestDoc, existing: Option<ManifestDoc>, now: int,
                            before: ObjectMap, n: nat)
    requires cfg.Valid() && m.manifestShards == []
    requires existing == Load(before, prefix) && SaneShardList(prefix, existing)
    requires StoredShards(before, prefix) == [] || |m.files| <= cfg.shardFileCount
    requires n <= |WriteOps(cfg, prefix, m, existing, now)|
    ensures var loaded := Load(ApplyAll(WriteOps(cfg, prefix, m, existing, now)[..n], before), prefix);
      loaded == existing || Recorded(loaded) == Recorded(Wanted(m))
  {
    var shards0 := OldShards(existing);
    if n == 0 {
    } else if IsEmptyManifest(m) {
      EmptyCutUnreadable(prefix, shards0, before, n);
    } else if existing.Some? && Equivalent(existing.value, m) {
    } else if |m.files| > cfg.shardFileCount {
      if n <= |ChunksOf(cfg, m)| {
        ShardPutsKeepUnshardedManifest(cfg, prefix, m, shards0, now, before, n);
      } else {
        ShardedCutReadable(cfg, prefix, m, shards0, now, before, n);
      }
    } else {
      TopOpsCut(prefix, m, shards0, now, before, n);
    }
  }

  // ---- no shard is left behind ------------------------------------------------------------------

  predicate IsShardKey(prefix: string, key: string) {
    match KeyPath(prefix, key)
    case None => false
    case Some(p) => p != [] && p[0] == SHARD_DIRECTORY
  }

  /** The manifest, if present, can be read, and the shard objects present are those it names. */
  predicate Tidy(prefix: string, objects: ObjectMap) {
    && (ManifestKey(prefix) in objects ==> Load(objects, prefix).Some?)
    && (forall k :: k in objects && IsShardKey(prefix, k) ==> k in OldShards(Load(objects, prefix)))
    && (forall k :: k in OldShards(Load(objects, prefix)) ==> k in objects && IsShardKey(prefix, k))
  }

  lemma TidyIsSane(prefix: string, objects: ObjectMap)
    requires Tidy(prefix, objects)
    ensures SaneShardList(prefix, Load(objects, prefix))
  {
    ReservedKeys(prefix, 0);
  }

  /** After any write, the shard objects present are exactly those the manifest names. */
  lemma WriteKeepsTidy(cfg: SyncConfig, prefix: string, m: ManifestDoc, now: int, before: ObjectMap)
    requires cfg.Valid() && m.manifestShards == []
    requires Tidy(prefix, before)
    ensures Tidy(prefix, ApplyAll(WriteOps(cfg, prefix, m, Load(before, prefix), now), before))
  {
    var existing := Load(before, prefix);
    var shards0 := OldShards(existing);
    var ops := WriteOps(cfg, prefix, m, existing, now);
    TidyIsSane(prefix, before);
    AllOps(ops);
    if IsEmptyManifest(m) {
      EmptyCutUnreadable(prefix, shards0, before, |ops|);
      DeleteOpsEffect([ManifestKey(prefix)] + shards0, before);
    } else if existing.Some? && Equivalent(existing.value, m) {
    } else if |m.files| > cfg.shardFileCount {
      ShardedWriteTidy(cfg, prefix, m, shards0, now, before);
    } else {
      ReservedKeys(prefix, 0);
      TopOpsCut(prefix, m, shards0, now, before, |ops|);
    }
  }

  lemma ShardedWriteTidy(cfg: SyncConfig, prefix: string, m: ManifestDoc, shards0: seq<string>, now: int, before: ObjectMap)
    requires cfg.Valid() && m.files != map[]
    requires Tidy(prefix, before) && shards0 == OldShards(Load(before, prefix))
    ensures Tidy(prefix, ApplyAll(ShardedOps(cfg, prefix, m, shards0, now), before))
  {
    TidyIsSane(prefix, before);
    var ops := ShardedOps(cfg, prefix, m, shards0, now);
    AllOps(ops);
    ShardedCutReadable(cfg, prefix, m, shards0, now, before, |ops|);
    ShardedShardsLeft(cfg, prefix, m, shards0, now, before);
    ShardsAreTidy(prefix, before, ApplyAll(ops, before), shards0, |ChunksOf(cfg, m)|);
  }

  /** After the whole write the new shards are there, and of the old ones only those that stay named. */
  lemma ShardedShardsLeft(cfg: SyncConfig, prefix: string, m: ManifestDoc, shards0: seq<string>, now: int, before: ObjectMap)
    requires cfg.Valid() && ManifestKey(prefix) !in shards0
    ensures OnlyNewShards(prefix, before, ApplyAll(ShardedOps(cfg, prefix, m, shards0, now), before), shards0, |ChunksOf(cfg, m)|)
  {
    var chunks := ChunksOf(cfg, m);
    var shardOps := ShardOps(prefix, m.files, chunks, now);
    AllOps(shardOps);
    ShardPutsEffect(prefix, m.files, chunks, now, before, |chunks|);
    var mid := ApplyAll(shardOps, before);
    var top, stale := TopDocument(prefix, m, |chunks|), FilterOut(shards0, ShardKeys(prefix, |chunks|));
    var topOps := TopOps(prefix, top, stale, now);
    AllOps(topOps);
    ApplyConcat(shardOps, topOps, before);
    TopOpsCut(prefix, top, stale, now, mid, |topOps|);
    ShardsSurvive(prefix, m.files, chunks, now, before, mid, ApplyAll(topOps, mid), stale);
  }

  ghost predicate OnlyNewShards(prefix: string, before: ObjectMap, after: ObjectMap, shards0: seq<string>, n: nat) {
    && (forall k :: k in after && k != ManifestKey(prefix) && k !in ShardKeys(prefix, n) ==> k in before && k !in shards0)
    && (forall i :: 0 <= i < n ==> ShardKey(prefix, i) in after)
  }

  lemma ShardsAreTidy(prefix: string, before: ObjectMap, after: ObjectMap, shards0: seq<string>, n: nat)
    requires Tidy(prefix, before) && shards0 == OldShards(Load(before, prefix))
    requires OnlyNewShards(prefix, before, after, shards0, n)
    requires Load(after, prefix).Some? && Load(after, prefix).value.manifestShards == ShardKeys(prefix, n)
    ensures Tidy(prefix, after)
  {
    ManifestIsNoShard(prefix);
    forall k | k in ShardKeys(prefix, n) ensures k in after && IsShardKey(prefix, k) {
      ListedIsShard(prefix, n, k, after);
    }
    forall k | k in after && IsShardKey(prefix, k) ensures k in ShardKeys(prefix, n) {
      assert k !in ShardKeys(prefix, n) ==> k in before && k !in shards0;
    }
  }

  lemma ManifestIsNoShard(prefix: string)
    ensures !IsShardKey(prefix, ManifestKey(prefix))
  {
    ReservedKeys(prefix, 0);
  }

  lemma ListedIsShard(prefix: string, n: nat, k: string, after: ObjectMap)
    requires k in ShardKeys(prefix, n) && forall i :: 0 <= i < n ==> ShardKey(prefix, i) in after
    ensures k in after && IsShardKey(prefix, k)
  {
    ShardKeyListed(prefix, n, k);
    var i :| 0 <= i < n && ShardKey(prefix, i) == k;
    ReservedKeys(prefix, i);
  }
}
