/** The object store a directory is mirrored to, and the documents kept in it.

    JSON text is abstracted: an object is either plain bytes or a manifest document. */
module Storage {
  import opened Options
  import opened Paths
  import opened Orders

  newtype byte = x: int | 0 <= x < 256

  datatype FileEntry = FileEntry(size: int, mtimeMs: int)

  datatype StorageMode = ObjectsMode | BundleMode

  /** A sync manifest or one of its shards. An absent list reads as empty. */
  datatype ManifestDoc = ManifestDoc(
    files: map<Path, FileEntry>,
    emptyDirectories: set<Path>,
    storageMode: Option<StorageMode>,
    manifestShards: seq<string>)

  datatype Body = Bytes(data: seq<byte>) | Document(doc: ManifestDoc)

  /** `mtimeMs` is the parsed `oah-mtime-ms` metadata. */
  datatype StoredObject = StoredObject(body: Body, mtimeMs: Option<int>, lastModified: int)

  type ObjectMap = map<string, StoredObject>

  /** Only user files have a size the sync engine looks at. */
  function BodySize(body: Body): nat {
    match body
    case Bytes(data) => |data|
    case Document(_) => 0
  }

  /** `Math.trunc`. */
  function Trunc(r: real): int {
    if r >= 0.0 then r.Floor else -((-r).Floor)
  }

  /** What `parseObjectMtimeMs` later reads from the metadata written for `mtimeMs`. */
  function MtimeMetadata(mtimeMs: real): Option<int> {
    if Trunc(mtimeMs) > 0 then Some(Trunc(mtimeMs)) else None
  }

  // ---- single store operations -----------------------------------------------------------

  datatype StoreOp =
    | Put(key: string, stored: StoredObject)
    | Delete(keys: seq<string>)

  function Apply(op: StoreOp, objects: ObjectMap): ObjectMap {
    match op
    case Put(key, stored) => objects[key := stored]
    case Delete(keys) => objects - Elements(keys)
  }

  function ApplyAll(ops: seq<StoreOp>, objects: ObjectMap): ObjectMap {
    if ops == [] then objects
    else Apply(ops[|ops| - 1], ApplyAll(ops[..|ops| - 1], objects))
  }

  lemma ApplySnoc(ops: seq<StoreOp>, op: StoreOp, objects: ObjectMap)
    ensures ApplyAll(ops + [op], objects) == Apply(op, ApplyAll(ops, objects))
  {
    assert (ops + [op])[..|ops|] == ops;
  }

  lemma ApplyPrefix(ops: seq<StoreOp>, n: nat, objects: ObjectMap)
    requires n < |ops|
    ensures ops[..n + 1] == ops[..n] + [ops[n]]
    ensures ApplyAll(ops[..n + 1], objects) == Apply(ops[n], ApplyAll(ops[..n], objects))
  {
    assert ops[..n + 1] == ops[..n] + [ops[n]];
    ApplySnoc(ops[..n], ops[n], objects);
  }

  lemma {:induction false} ApplyConcat(a: seq<StoreOp>, b: seq<StoreOp>, objects: ObjectMap)
    ensures ApplyAll(a + b, objects) == ApplyAll(b, ApplyAll(a, objects))
  {
    if b == [] {
      assert a + b == a;
    } else {
      var init := b[..|b| - 1];
      ApplyConcat(a, init, objects);
      assert (a + b)[..|a + b| - 1] == a + init;
    }
  }

  /** One `deleteObjects` call reaches the service in chunks of at most 1000 keys. */
  function DeleteOps(keys: seq<string>): seq<StoreOp> {
    if keys == [] then []
    else if |keys| <= 1000 then [Delete(keys)]
    else [Delete(keys[..1000])] + DeleteOps(keys[1000..])
  }

  lemma {:induction false} DeleteOpsEffect(keys: seq<string>, objects: ObjectMap)
    ensures ApplyAll(DeleteOps(keys), objects) == objects - Elements(keys)
    decreases |keys|
  {
    if keys == [] {
      assert Elements(keys) == {};
    } else if |keys| <= 1000 {
      assert [Delete(keys)][..0] == [];
    } else {
      var first := Delete(keys[..1000]);
      ApplyConcat([first], DeleteOps(keys[1000..]), objects);
      assert [first][..0] == [];
      DeleteOpsEffect(keys[1000..], objects - Elements(keys[..1000]));
      assert keys == keys[..1000] + keys[1000..];
      assert Elements(keys) == Elements(keys[..1000]) + Elements(keys[1000..]);
    }
  }

  /** Cutting a delete short removes some of the keys and nothing else. */
  lemma {:induction false} DeleteCut(keys: seq<string>, n: nat, objects: ObjectMap)
    requires n <= |DeleteOps(keys)|
    ensures var after := ApplyAll(DeleteOps(keys)[..n], objects);
      && after.Keys <= objects.Keys
      && (forall k :: k in objects && k !in keys ==> k in after)
      && (forall k :: k in after ==> after[k] == objects[k])
      && (n > 0 && keys != [] ==> keys[0] !in after)
    decreases |keys|
  {
    var ops := DeleteOps(keys);
    if n > 0 && keys != [] {
      var first := ops[0];
      var rest := if |keys| <= 1000 then [] else keys[1000..];
      assert ops == [first] + DeleteOps(rest);
      assert ops[..n] == [first] + DeleteOps(rest)[..n - 1];
      ApplyConcat([first], DeleteOps(rest)[..n - 1], objects);
      assert [first][..0] == [];
      DeleteCut(rest, n - 1, Apply(first, objects));
    }
  }

  // ---- the store itself ---------------------------------------------------------------------

  /** A bucket. `log` records every request that reached it, `clock` is the server time. */
  class ObjectStore {
    var objects: ObjectMap
    var clock: int
    const paged: bool
    ghost var log: seq<StoreOp>

    constructor (paged: bool)
      ensures objects == map[] && log == [] && this.paged == paged
    {
      objects := map[];
      clock := 0;
      log := [];
      this.paged := paged;
    }

    method PutObject(key: string, body: Body, mtimeMs: Option<int>)
      modifies this`objects, this`log
      ensures objects == old(objects)[key := StoredObject(body, mtimeMs, clock)]
      ensures log == old(log) + [Put(key, StoredObject(body, mtimeMs, clock))]
    {
      objects := objects[key := StoredObject(body, mtimeMs, clock)];
      log := log + [Put(key, StoredObject(body, mtimeMs, clock))];
    }

    method DeleteObjects(keys: seq<string>)
      modifies this`objects, this`log
      ensures objects == old(objects) - Elements(keys)
      ensures log == old(log) + DeleteOps(keys)
    {
      var index := 0;
      ghost var sent: seq<StoreOp> := [];
      while index < |keys|
        invariant 0 <= index <= |keys|
        invariant objects == old(objects) - Elements(keys[..index])
        invariant log == old(log) + sent
        invariant sent + DeleteOps(keys[index..]) == DeleteOps(keys)
        decreases |keys| - index
      {
        var end := if index + 1000 <= |keys| then index + 1000 else |keys|;
        var chunk := keys[index..end];
        objects := objects - Elements(chunk);
        log := log + [Delete(chunk)];
        ghost var rest := keys[index..];
        assert DeleteOps(rest) == [Delete(chunk)] + DeleteOps(keys[end..]) by {
          if |rest| <= 1000 {
            assert chunk == rest;
            assert keys[end..] == [];
          } else {
            assert rest[..1000] == chunk;
            assert rest[1000..] == keys[end..];
          }
        }
        assert sent + ([Delete(chunk)] + DeleteOps(keys[end..])) == sent + [Delete(chunk)] + DeleteOps(keys[end..]);
        assert keys[..end] == keys[..index] + chunk;
        assert Elements(keys[..end]) == Elements(keys[..index]) + Elements(chunk);
        sent := sent + [Delete(chunk)];
        index := end;
      }
      assert keys[..index] == keys;
      assert keys[index..] == [];
    }
  }
}
