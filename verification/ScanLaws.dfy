/** What a scan finds, said of the names on a path. */
module ScanLaws {
  import opened Paths
  import opened Storage
  import opened LocalTree

  predicate Ends(s: string, tail: string) {
    exists i :: 0 <= i <= |s| && s[i..] == tail
  }

  lemma EndsIff(s: string, tail: string)
    ensures Ends(s, tail) <==> EndsWith(s, tail)
  {
    if EndsWith(s, tail) {
      assert s[|s| - |tail|..] == tail;
    }
  }

  /** No cache, no side file of a database, no compiled script. */
  predicate PlainName(name: string) {
    && name != "__pycache__" && name != ".DS_Store"
    && !Ends(name, ".pyc") && !Ends(name, ".db-shm") && !Ends(name, ".db-wal")
  }

  /** Plain names throughout, and the first none of the names the sync keeps for itself. */
  predicate PlainPath(p: seq<string>) {
    && p != [] && (forall i :: 0 <= i < |p| ==> PlainName(p[i]))
    && p[0] != ".oah-sync-manifest.json" && p[0] != ".oah-sync-manifest-shards" && p[0] != ".oah-sync-bundle.tar"
  }

  predicate ExcludedOnTheWay(exclude: Filter, p: seq<string>) {
    exists k :: 0 < k <= |p| && exclude(p[..k])
  }

  lemma PlainNameIff(name: string)
    ensures PlainName(name) <==>
      (name != "__pycache__" && name != ".DS_Store" && !EndsWith(name, ".pyc") && !EndsWith(name, ".db-shm") && !EndsWith(name, ".db-wal"))
  {
    EndsIff(name, ".pyc");
    EndsIff(name, ".db-shm");
    EndsIff(name, ".db-wal");
  }

  lemma PlainIsNotIgnored(p: seq<string>, k: nat)
    requires PlainPath(p) && 0 < k <= |p|
    ensures !Ignored(p[..k])
  {
    assert p[..k][0] == p[0];
    assert p[..k][k - 1] == p[k - 1];
    PlainNameIff(p[k - 1]);
  }

  lemma SomethingIsIgnored(p: seq<string>)
    requires p != [] && !PlainPath(p)
    ensures exists k :: 0 < k <= |p| && Ignored(p[..k])
  {
    if i :| 0 <= i < |p| && !PlainName(p[i]) {
      PlainNameIff(p[i]);
      assert p[..i + 1][i] == p[i];
      assert Ignored(p[..i + 1]);
    } else {
      assert p[..1] == [p[0]];
      assert Ignored(p[..1]);
    }
  }

  /** Nothing on the way is suppressed exactly if the path is plain and nothing on the way is excluded. */
  lemma VisibleIff(exclude: Filter, p: Path)
    requires p != []
    ensures VisibleFrom(exclude, [], p) <==> PlainPath(p) && !ExcludedOnTheWay(exclude, p)
  {
    if PlainPath(p) {
      forall k | 0 < k <= |p| ensures !Ignored(p[..k]) {
        PlainIsNotIgnored(p, k);
      }
    } else {
      SomethingIsIgnored(p);
      var k :| 0 < k <= |p| && Ignored(p[..k]);
      assert Suppressed(exclude, p[..k]);
    }
    if PlainPath(p) && ExcludedOnTheWay(exclude, p) {
      var k :| 0 < k <= |p| && exclude(p[..k]);
      assert Suppressed(exclude, p[..k]);
    }
  }

  /** A scan finds exactly the files at plain paths that are not excluded on the way, as they are. */
  lemma ScannedIff(t: Tree, exclude: Filter, p: Path)
    requires WellFormed(t)
    ensures p in Scan(t, exclude).files <==> p in t && t[p].File? && PlainPath(p) && !ExcludedOnTheWay(exclude, p)
    ensures p in Scan(t, exclude).files ==> Scan(t, exclude).files[p] == t[p].file
  {
    if p != [] {
      VisibleIff(exclude, p);
    }
  }

  /** And exactly the directories at such paths with no entry of any kind below them. */
  lemma EmptyIff(t: Tree, exclude: Filter, d: Path)
    requires WellFormed(t)
    ensures d in Scan(t, exclude).emptyDirectories
       <==> d in t && t[d] == Dir && PlainPath(d) && !ExcludedOnTheWay(exclude, d) && !exists p :: p in t && |p| > |d| && p[..|d|] == d
  {
    if d != [] {
      VisibleIff(exclude, d);
    }
    if d in t && exists p :: p in t && |p| > |d| && p[..|d|] == d {
      var p :| p in t && |p| > |d| && p[..|d|] == d;
      assert Under(d, p);
    }
  }
}
