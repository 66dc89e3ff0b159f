/** Shards overwritten by shards: what a reader sees when the write is cut, and exactly which writes are
    atomic. Old and new manifest are cut with the same shard size. */
module TornShards {
  import opened Arith
  import opened Orders
  import opened Options
  import opened Paths
  import opened Storage
  import opened Manifest
  import opened ManifestProofs

  // ---- pieces by position -------------------------------------------------------------------------------

  /** Where piece `k` begins. */
  function At(s: seq<Path>, size: nat, k: nat): (n: nat)
    ensures n <= |s|
  {
    if Times(k, size) <= |s| then Times(k, size) else |s|
  }

  function Piece(s: seq<Path>, size: nat, i: nat): seq<Path> {
    s[At(s, size, i)..At(s, size, i + 1)]
  }

  lemma {:induction false} AtGrows(s: seq<Path>, size: nat, i: nat, j: nat)
    requires i <= j
    ensures At(s, size, i) <= At(s, size, j)
    decreases j
  {
    if i < j {
      AtGrows(s, size, i, j - 1);
    }
  }

  lemma PieceFurther(s: seq<Path>, size: nat, i: nat)
    requires i > 0 && |s| > size
    ensures Piece(s, size, i) == Piece(s[size..], size, i - 1)
    ensures Times(i, size) < |s| <==> Times(i - 1, size) < |s[size..]|
  {
    var rest := s[size..];
    assert Times(i, size) == Times(i - 1, size) + size && Times(i + 1, size) == Times(i, size) + size;
    var a, b := At(rest, size, i - 1), At(rest, size, i);
    assert At(s, size, i) == a + size && At(s, size, i + 1) == b + size;
    assert s[size..][a..b] == s[a + size..b + size];
  }

  lemma {:induction false} ChunkIsPiece(s: seq<Path>, size: nat, i: nat)
    requires size > 0
    ensures i < |Chunks(s, size)| <==> Times(i, size) < |s|
    ensures i < |Chunks(s, size)| ==> Chunks(s, size)[i] == Piece(s, size, i)
    decreases i
  {
    if i == 0 {
      assert Times(1, size) == Times(0, size) + size;
    } else if |s| > size {
      ChunkIsPiece(s[size..], size, i - 1);
      PieceFurther(s, size, i);
      assert Chunks(s, size)[1..] == Chunks(s[size..], size);
    } else {
      assert Times(i, size) == Times(i - 1, size) + size;
    }
  }

  /** Entries and their sorted paths. */
  datatype Layout = Layout(files: map<Path, FileEntry>, paths: seq<Path>)

  ghost predicate Sound(less: (Path, Path) -> bool, l: Layout) {
    StrictTotal(less) && Lists(less, l.paths, l.files.Keys)
  }

  ghost function LayoutOf(cfg: SyncConfig, m: ManifestDoc): Layout
    requires cfg.Valid()
  {
    Layout(m.files, Sorted(cfg.pathLess, m.files.Keys))
  }

  lemma LayoutSound(cfg: SyncConfig, m: ManifestDoc)
    requires cfg.Valid()
    ensures Sound(cfg.pathLess, LayoutOf(cfg, m))
  {
    SortedLists(cfg.pathLess, m.files.Keys);
  }

  // ---- what a cut shows --------------------------------------------------------------------------------------

  function Prefix(size: nat, l: Layout, k: nat): map<Path, FileEntry> {
    Restrict(l.files, l.paths[..At(l.paths, size, k)])
  }

  /** The first `k` pieces new, the others old; where both list a path, the old entry wins. */
  function Mixture(size: nat, was: Layout, will: Layout, k: nat): map<Path, FileEntry> {
    Prefix(size, will, k) + Restrict(was.files, was.paths[At(was.paths, size, k)..])
  }

  // ---- which writes are atomic -------------------------------------------------------------------------------

  /** Piece `i` has the same paths with the same stamps. */
  predicate SamePiece(size: nat, was: Layout, will: Layout, i: nat) {
    Restrict(was.files, Piece(was.paths, size, i)) == Restrict(will.files, Piece(will.paths, size, i))
  }

  predicate SameBelow(size: nat, was: Layout, will: Layout, k: nat) {
    forall i :: 0 <= i < k ==> SamePiece(size, was, will, i)
  }

  /** The first of the pieces that both manifests have and that differ. */
  predicate FirstChanged(size: nat, was: Layout, will: Layout, p: nat) {
    && Times(p, size) < |was.paths| && Times(p, size) < |will.paths|
    && !SamePiece(size, was, will, p) && SameBelow(size, was, will, p)
  }

  predicate HasEntry(was: Layout, will: Layout, q: Path) {
    q in was.files && q in will.files && will.files[q] == was.files[q]
  }

  /** From piece `k` on every old entry is also a new one, stamp included, and every new path is an old one. */
  predicate TailServes(size: nat, was: Layout, will: Layout, k: nat) {
    var before, after := was.paths[At(was.paths, size, k)..], will.paths[At(will.paths, size, k)..];
    (forall q :: q in before ==> HasEntry(was, will, q)) && (forall q :: q in after ==> q in before)
  }

  // ---- sorted lists ------------------------------------------------------------------------------------------

  /** In an ascending list every path has one position. */
  lemma InPart(less: (Path, Path) -> bool, s: seq<Path>, i: nat, a: nat, b: nat)
    requires StrictTotal(less) && Ascending(less, s) && i < |s| && a <= b <= |s|
    ensures s[i] in s[a..b] <==> a <= i < b
  {
    if s[i] in s[a..b] {
      var j :| a <= j < b && s[j] == s[i];
      assert !less(s[i], s[j]);
    }
    if a <= i < b {
      assert s[a..b][i - a] == s[i];
    }
  }

  /** Within a longer ascending list, positions only move back. */
  lemma {:induction false} NotEarlier(less: (Path, Path) -> bool, s: seq<Path>, t: seq<Path>, i: nat, j: nat)
    requires StrictTotal(less) && Ascending(less, s) && Ascending(less, t)
    requires forall x :: x in s ==> x in t
    requires i < |s| && j < |t| && s[i] == t[j]
    ensures i <= j
    decreases i
  {
    if i > 0 {
      assert s[i - 1] in t;
      var u :| 0 <= u < |t| && t[u] == s[i - 1];
      NotEarlier(less, s, t, i - 1, u);
      assert less(t[u], t[j]);
    }
  }

  lemma AscendingCount(less: (Path, Path) -> bool, s: seq<Path>)
    requires StrictTotal(less) && Ascending(less, s)
    ensures |Elements(s)| == |s|
  {
    SortedLists(less, Elements(s));
    ListingIsUnique(less, s, Sorted(less, Elements(s)));
  }

  /** An ascending list inside one that is not longer is all of it. */
  lemma InsideIsAll(less: (Path, Path) -> bool, s: seq<Path>, t: seq<Path>, x: Path)
    requires StrictTotal(less) && Ascending(less, s) && Ascending(less, t)
    requires |s| >= |t| && forall q :: q in s ==> q in t
    requires x in t
    ensures x in s
  {
    AscendingCount(less, s);
    AscendingCount(less, t);
    assert |Elements(t) - Elements(s)| == |Elements(t)| - |Elements(s)|;
    SubsetOfSameSize(Elements(s), Elements(t));
    assert x in Elements(t);
  }

  lemma PartAscending(less: (Path, Path) -> bool, s: seq<Path>, a: nat, b: nat)
    requires Ascending(less, s) && a <= b <= |s|
    ensures Ascending(less, s[a..b])
  {
  }

  lemma RestrictBoth(files: map<Path, FileEntry>, a: seq<Path>, b: seq<Path>)
    ensures Restrict(files, a + b) == Restrict(files, a) + Restrict(files, b)
  {
  }

  lemma RestrictAll(less: (Path, Path) -> bool, l: Layout)
    requires Sound(less, l)
    ensures Restrict(l.files, l.paths) == l.files
  {
    forall q ensures q in l.paths <==> q in l.files {
      assert q in Elements(l.paths) <==> q in l.paths;
    }
  }

  // ---- before the first changed piece -------------------------------------------------------------------------

  lemma {:induction false} SamePrefixTo(size: nat, was: Layout, will: Layout, k: nat, n: nat)
    requires SameBelow(size, was, will, k) && n <= k
    ensures Prefix(size, was, n) == Prefix(size, will, n)
  {
    if n == 0 {
      EmptyPrefix(size, was);
      EmptyPrefix(size, will);
    } else {
      SamePrefixTo(size, was, will, k, n - 1);
      assert SamePiece(size, was, will, n - 1);
      SameNext(size, was, will, n - 1);
    }
  }

  lemma SamePrefix(size: nat, was: Layout, will: Layout, k: nat)
    requires SameBelow(size, was, will, k)
    ensures Prefix(size, was, k) == Prefix(size, will, k)
  {
    SamePrefixTo(size, was, will, k, k);
  }

  lemma EmptyPrefix(size: nat, l: Layout)
    ensures Prefix(size, l, 0) == map[]
  {
    assert l.paths[..0] == [];
  }

  lemma SameNext(size: nat, was: Layout, will: Layout, k: nat)
    requires Prefix(size, was, k) == Prefix(size, will, k) && SamePiece(size, was, will, k)
    ensures Prefix(size, was, k + 1) == Prefix(size, will, k + 1)
  {
    PrefixGrows(size, was, k);
    PrefixGrows(size, will, k);
  }

  lemma PrefixGrows(size: nat, l: Layout, k: nat)
    ensures At(l.paths, size, k) <= At(l.paths, size, k + 1)
    ensures Prefix(size, l, k + 1) == Prefix(size, l, k) + Restrict(l.files, Piece(l.paths, size, k))
  {
    AtGrows(l.paths, size, k, k + 1);
    var a, b := At(l.paths, size, k), At(l.paths, size, k + 1);
    assert l.paths[..b] == l.paths[..a] + l.paths[a..b];
    RestrictBoth(l.files, l.paths[..a], l.paths[a..b]);
  }

  /** As long as the pieces are the same, a cut shows the old files. */
  lemma SameShowsOld(less: (Path, Path) -> bool, size: nat, was: Layout, will: Layout, k: nat)
    requires Sound(less, was) && SameBelow(size, was, will, k)
    ensures Mixture(size, was, will, k) == was.files
  {
    var a := At(was.paths, size, k);
    SamePrefix(size, was, will, k);
    assert was.paths == was.paths[..a] + was.paths[a..];
    RestrictBoth(was.files, was.paths[..a], was.paths[a..]);
    RestrictAll(less, was);
  }

  // ---- just after it ------------------------------------------------------------------------------------------

  lemma {:induction false} LeastChanged(size: nat, was: Layout, will: Layout, k: nat) returns (p: nat)
    requires !SameBelow(size, was, will, k)
    ensures p < k && !SamePiece(size, was, will, p) && SameBelow(size, was, will, p)
  {
    p :| p < k && !SamePiece(size, was, will, p);
    if !SameBelow(size, was, will, p) {
      p := LeastChanged(size, was, will, p);
    }
  }

  /** `q` is among the old paths before piece `p` if and only if it is among the new ones. */
  lemma SamePrefixPaths(less: (Path, Path) -> bool, size: nat, was: Layout, will: Layout, p: nat, q: Path)
    requires Sound(less, was) && Sound(less, will) && SameBelow(size, was, will, p)
    ensures q in was.paths[..At(was.paths, size, p)] <==> q in will.paths[..At(will.paths, size, p)]
  {
    SamePrefix(size, was, will, p);
    InFiles(less, was, At(was.paths, size, p), q);
    InFiles(less, will, At(will.paths, size, p), q);
  }

  lemma InFiles(less: (Path, Path) -> bool, l: Layout, a: nat, q: Path)
    requires Sound(less, l) && a <= |l.paths|
    ensures q in l.paths[..a] <==> q in Restrict(l.files, l.paths[..a])
    ensures q in l.paths[a..] <==> q in Restrict(l.files, l.paths[a..])
    ensures q in l.files <==> q in l.paths
  {
    assert q in Elements(l.paths) <==> q in l.paths;
  }

  /** A path is before a position or from it on, never both. */
  lemma OneSide(less: (Path, Path) -> bool, l: Layout, a: nat, q: Path)
    requires Sound(less, l) && a <= |l.paths| && q in l.files
    ensures q in l.paths[..a] <==> q !in l.paths[a..]
  {
    assert q in Elements(l.paths);
    var i :| 0 <= i < |l.paths| && l.paths[i] == q;
    InPart(less, l.paths, i, 0, a);
    InPart(less, l.paths, i, a, |l.paths|);
    assert l.paths[0..a] == l.paths[..a];
    assert l.paths[a..|l.paths|] == l.paths[a..];
  }

  lemma InPiece(less: (Path, Path) -> bool, size: nat, l: Layout, p: nat, q: Path)
    requires Sound(less, l)
    ensures q in Piece(l.paths, size, p)
       <==> q in l.paths[..At(l.paths, size, p + 1)] && q in l.paths[At(l.paths, size, p)..]
    ensures q in l.paths[..At(l.paths, size, p + 1)] <==> q in l.paths[..At(l.paths, size, p)] || q in Piece(l.paths, size, p)
  {
    AtGrows(l.paths, size, p, p + 1);
    var a, b := At(l.paths, size, p), At(l.paths, size, p + 1);
    assert l.paths[..b] == l.paths[..a] + l.paths[a..b];
    assert l.paths[a..] == l.paths[a..b] + l.paths[b..];
    if q in l.paths {
      InFiles(less, l, a, q);
      OneSide(less, l, a, q);
      OneSide(less, l, b, q);
    }
  }

  /** If the cut after piece `p` showed the old files, every old path of the piece would be in the new one. */
  lemma OldPathStays(less: (Path, Path) -> bool, size: nat, was: Layout, will: Layout, p: nat, q: Path)
    requires Sound(less, was) && Sound(less, will) && SameBelow(size, was, will, p)
    requires Mixture(size, was, will, p + 1) == was.files && q in Piece(was.paths, size, p)
    ensures q in Piece(will.paths, size, p) && HasEntry(was, will, q)
  {
    var a, b := At(was.paths, size, p), At(was.paths, size, p + 1);
    InPiece(less, size, was, p, q);
    InPiece(less, size, will, p, q);
    InFiles(less, was, a, q);
    OneSide(less, was, a, q);
    OneSide(less, was, b, q);
    SamePrefixPaths(less, size, was, will, p, q);
    assert q in Mixture(size, was, will, p + 1);
  }

  /** ... and where the old piece is the last, every new path of the piece would be an old one. */
  lemma NewPathWasThere(less: (Path, Path) -> bool, size: nat, was: Layout, will: Layout, p: nat, q: Path)
    requires Sound(less, was) && Sound(less, will) && SameBelow(size, was, will, p)
    requires Mixture(size, was, will, p + 1) == was.files && q in Piece(will.paths, size, p)
    requires At(was.paths, size, p + 1) == |was.paths|
    ensures q in Piece(was.paths, size, p)
  {
    var a := At(was.paths, size, p);
    InPiece(less, size, was, p, q);
    InPiece(less, size, will, p, q);
    InFiles(less, will, At(will.paths, size, p + 1), q);
    assert q in Mixture(size, was, will, p + 1);
    OneSide(less, was, a, q);
    OneSide(less, will, At(will.paths, size, p), q) by { InFiles(less, will, 0, q); }
    SamePrefixPaths(less, size, was, will, p, q);
    assert was.paths[..|was.paths|] == was.paths;
    InFiles(less, was, a, q);
  }

  lemma PieceSize(s: seq<Path>, size: nat, p: nat)
    ensures |Piece(s, size, p)| <= size
    ensures At(s, size, p + 1) < |s| ==> |Piece(s, size, p)| == size
  {
  }

  /** ... and where it is full, too. */
  lemma NewPathFits(less: (Path, Path) -> bool, size: nat, was: Layout, will: Layout, p: nat, q: Path)
    requires Sound(less, was) && Sound(less, will) && q in Piece(will.paths, size, p)
    requires forall x :: x in Piece(was.paths, size, p) ==> x in Piece(will.paths, size, p)
    requires At(was.paths, size, p + 1) < |was.paths|
    ensures q in Piece(was.paths, size, p)
  {
    PieceSize(was.paths, size, p);
    PieceSize(will.paths, size, p);
    PartAscending(less, was.paths, At(was.paths, size, p), At(was.paths, size, p + 1));
    PartAscending(less, will.paths, At(will.paths, size, p), At(will.paths, size, p + 1));
    InsideIsAll(less, Piece(was.paths, size, p), Piece(will.paths, size, p), q);
  }

  /** Were it so, the piece would not have changed. */
  lemma ShowsOldOnlyIfSame(less: (Path, Path) -> bool, size: nat, was: Layout, will: Layout, p: nat)
    requires Sound(less, was) && Sound(less, will) && SameBelow(size, was, will, p)
    requires Mixture(size, was, will, p + 1) == was.files
    ensures SamePiece(size, was, will, p)
  {
    var before, after := Piece(was.paths, size, p), Piece(will.paths, size, p);
    forall q | q in before ensures q in after && HasEntry(was, will, q) {
      OldPathStays(less, size, was, will, p, q);
    }
    forall q | q in after ensures q in before {
      if At(was.paths, size, p + 1) == |was.paths| {
        NewPathWasThere(less, size, was, will, p, q);
      } else {
        NewPathFits(less, size, was, will, p, q);
      }
    }
    SameRestricted(was.files, before, will.files, after);
  }

  lemma SameRestricted(f: map<Path, FileEntry>, a: seq<Path>, g: map<Path, FileEntry>, b: seq<Path>)
    requires forall q :: q in a ==> q in b && q in f && q in g && f[q] == g[q]
    requires forall q :: q in b ==> q in a
    ensures Restrict(f, a) == Restrict(g, b)
  {
  }

  // ---- when a mixture is the new manifest -----------------------------------------------------------------------

  predicate SameEntry(a: map<Path, FileEntry>, b: map<Path, FileEntry>, q: Path) {
    (q in a <==> q in b) && (q in a && q in b ==> a[q] == b[q])
  }

  lemma SameEntries(a: map<Path, FileEntry>, b: map<Path, FileEntry>)
    requires forall q :: SameEntry(a, b, q)
    ensures a == b
  {
    forall q ensures (q in a <==> q in b) && (q in a ==> a[q] == b[q]) {
      assert SameEntry(a, b, q);
    }
  }

  /** A cut before piece `k` shows the new files if and only if the old tail serves. */
  lemma ShowsNewIff(less: (Path, Path) -> bool, size: nat, was: Layout, will: Layout, k: nat)
    requires Sound(less, was) && Sound(less, will)
    ensures Mixture(size, was, will, k) == will.files <==> TailServes(size, was, will, k)
  {
    if Mixture(size, was, will, k) == will.files {
      NewNeedsTail(less, size, was, will, k);
    }
    if TailServes(size, was, will, k) {
      forall q ensures SameEntry(Mixture(size, was, will, k), will.files, q) {
        ServedEntry(less, size, was, will, k, q);
      }
      SameEntries(Mixture(size, was, will, k), will.files);
    }
  }

  lemma NewNeedsTail(less: (Path, Path) -> bool, size: nat, was: Layout, will: Layout, k: nat)
    requires Sound(less, was) && Sound(less, will) && Mixture(size, was, will, k) == will.files
    ensures TailServes(size, was, will, k)
  {
    forall q | q in was.paths[At(was.paths, size, k)..] ensures HasEntry(was, will, q) {
      InMixture(less, size, was, will, k, q);
    }
    forall q: Path ensures q in will.paths[At(will.paths, size, k)..] ==> q in was.paths[At(was.paths, size, k)..] {
      InMixture(less, size, was, will, k, q);
    }
  }

  lemma ServedEntry(less: (Path, Path) -> bool, size: nat, was: Layout, will: Layout, k: nat, q: Path)
    requires Sound(less, was) && Sound(less, will) && TailServes(size, was, will, k)
    ensures SameEntry(Mixture(size, was, will, k), will.files, q)
  {
    InMixture(less, size, was, will, k, q);
    if q in was.paths[At(was.paths, size, k)..] {
      assert HasEntry(was, will, q);
    }
  }

  lemma InMixture(less: (Path, Path) -> bool, size: nat, was: Layout, will: Layout, k: nat, q: Path)
    requires Sound(less, was) && Sound(less, will)
    ensures var a, b := At(was.paths, size, k), At(will.paths, size, k);
      var mixed := Mixture(size, was, will, k);
      && (q in mixed <==> q in will.paths[..b] || q in was.paths[a..])
      && (q in was.paths[a..] ==> q in was.files && q in mixed && mixed[q] == was.files[q])
      && (q in mixed && q !in was.paths[a..] ==> q in will.files && mixed[q] == will.files[q])
      && (q in will.files ==> (q in will.paths[..b] <==> q !in will.paths[b..]))
      && (q in will.paths[b..] ==> q in will.files)
  {
    InFiles(less, was, At(was.paths, size, k), q);
    InFiles(less, will, At(will.paths, size, k), q);
    if q in will.files { OneSide(less, will, At(will.paths, size, k), q); }
  }

  /** A tail that serves from one piece on serves from the next: a new path at some position of the tail is
      no earlier in the old tail. */
  lemma TailServesOn(less: (Path, Path) -> bool, size: nat, was: Layout, will: Layout, k: nat)
    requires Sound(less, was) && Sound(less, will) && TailServes(size, was, will, k)
    ensures TailServes(size, was, will, k + 1)
  {
    AtGrows(was.paths, size, k, k + 1);
    var a, b := At(was.paths, size, k + 1), At(will.paths, size, k + 1);
    var before := was.paths[At(was.paths, size, k)..];
    forall q | q in was.paths[a..] ensures HasEntry(was, will, q) {
      assert q in before;
    }
    forall i | b <= i < |will.paths| ensures will.paths[i] in was.paths[a..] {
      MovesBack(less, size, was, will, k, i);
    }
  }

  lemma MovesBack(less: (Path, Path) -> bool, size: nat, was: Layout, will: Layout, k: nat, i: nat)
    requires Sound(less, was) && Sound(less, will) && TailServes(size, was, will, k)
    requires At(will.paths, size, k + 1) <= i < |will.paths|
    ensures will.paths[i] in was.paths[At(was.paths, size, k + 1)..]
  {
    AtGrows(will.paths, size, k, k + 1);
    AtGrows(was.paths, size, k, k + 1);
    TailsMoveBack(less, was.paths, will.paths, At(was.paths, size, k), At(will.paths, size, k), At(was.paths, size, k + 1), i);
  }

  lemma TailsMoveBack(less: (Path, Path) -> bool, s: seq<Path>, t: seq<Path>, a: nat, b: nat, c: nat, i: nat)
    requires StrictTotal(less) && Ascending(less, s) && Ascending(less, t)
    requires a <= c <= |s| && b <= i < |t| && c - a <= i - b
    requires forall q :: q in t[b..] ==> q in s[a..]
    ensures t[i] in s[c..]
  {
    TailAscending(less, s, a);
    TailAscending(less, t, b);
    LaterInTail(less, t[b..], s[a..], i - b, c - a);
    assert s[a..][c - a..] == s[c..];
  }

  lemma LaterInTail(less: (Path, Path) -> bool, s: seq<Path>, t: seq<Path>, i: nat, n: nat)
    requires StrictTotal(less) && Ascending(less, s) && Ascending(less, t)
    requires forall q :: q in s ==> q in t
    requires n <= i < |s| && n <= |t|
    ensures s[i] in t[n..]
  {
    assert s[i] in t;
    var j :| 0 <= j < |t| && t[j] == s[i];
    NotEarlier(less, s, t, i, j);
    assert t[n..][j - n] == t[j];
  }

  lemma TailAscending(less: (Path, Path) -> bool, s: seq<Path>, a: nat)
    requires Ascending(less, s) && a <= |s|
    ensures Ascending(less, s[a..])
  {
    PartAscending(less, s, a, |s|);
    assert s[a..|s|] == s[a..];
  }

  lemma {:induction false} TailServesFrom(less: (Path, Path) -> bool, size: nat, was: Layout, will: Layout, k: nat, n: nat)
    requires Sound(less, was) && Sound(less, will) && k <= n && TailServes(size, was, will, k)
    ensures TailServes(size, was, will, n)
    decreases n
  {
    if k < n {
      TailServesFrom(less, size, was, will, k, n - 1);
      TailServesOn(less, size, was, will, n - 1);
    }
  }

  /** Just after the first changed piece a cut shows the new files if the tail serves, and never the old ones. */
  lemma ChangedCut(less: (Path, Path) -> bool, size: nat, was: Layout, will: Layout, p: nat)
    requires Sound(less, was) && Sound(less, will) && FirstChanged(size, was, will, p)
    ensures Mixture(size, was, will, p + 1) != was.files
    ensures Mixture(size, was, will, p + 1) == will.files <==> TailServes(size, was, will, p + 1)
  {
    if Mixture(size, was, will, p + 1) == was.files {
      ShowsOldOnlyIfSame(less, size, was, will, p);
    }
    ShowsNewIff(less, size, was, will, p + 1);
  }

  /** A cut before piece `k` shows the old files, or there is a first changed piece before it. */
  lemma EarlierCut(less: (Path, Path) -> bool, size: nat, was: Layout, will: Layout, k: nat) returns (p: Option<nat>)
    requires Sound(less, was) && Sound(less, will)
    ensures p.None? ==> Mixture(size, was, will, k) == was.files
    ensures p.Some? ==> p.value < k && !SamePiece(size, was, will, p.value) && SameBelow(size, was, will, p.value)
  {
    if SameBelow(size, was, will, k) {
      SameShowsOld(less, size, was, will, k);
      p := None;
    } else {
      var q := LeastChanged(size, was, will, k);
      p := Some(q);
    }
  }

  lemma LaterCut(less: (Path, Path) -> bool, size: nat, was: Layout, will: Layout, p: nat, k: nat)
    requires Sound(less, was) && Sound(less, will) && p < k && TailServes(size, was, will, p + 1)
    ensures Mixture(size, was, will, k) == will.files
  {
    TailServesFrom(less, size, was, will, p + 1, k);
    ShowsNewIff(less, size, was, will, k);
  }

  // ---- reading shards in a range ----------------------------------------------------------------------------------

  /** Shard `i` holds piece `i`, whenever it was written. */
  predicate HoldsPiece(prefix: string, size: nat, l: Layout, objects: ObjectMap, i: nat) {
    && ShardKey(prefix, i) in objects
    && objects[ShardKey(prefix, i)].body == Document(ManifestDoc(Restrict(l.files, Piece(l.paths, size, i)), {}, None, []))
  }

  predicate HoldsPieces(prefix: string, size: nat, l: Layout, objects: ObjectMap, from: nat, end: nat) {
    forall i :: from <= i < end ==> HoldsPiece(prefix, size, l, objects, i)
  }

  function Between(size: nat, l: Layout, from: nat, end: nat): map<Path, FileEntry> {
    if At(l.paths, size, from) <= At(l.paths, size, end) then
      Restrict(l.files, l.paths[At(l.paths, size, from)..At(l.paths, size, end)])
    else map[]
  }

  lemma BetweenStep(size: nat, l: Layout, from: nat, end: nat, acc: map<Path, FileEntry>)
    requires from < end
    ensures acc + Restrict(l.files, Piece(l.paths, size, from)) + Between(size, l, from + 1, end) == acc + Between(size, l, from, end)
  {
    AtGrows(l.paths, size, from, from + 1);
    AtGrows(l.paths, size, from + 1, end);
    var a, b, c := At(l.paths, size, from), At(l.paths, size, from + 1), At(l.paths, size, end);
    assert l.paths[a..c] == l.paths[a..b] + l.paths[b..c];
    RestrictConcat(l.files, l.paths[a..b], l.paths[b..c], acc);
  }

  lemma {:induction false} MergeRange(prefix: string, size: nat, l: Layout, objects: ObjectMap, total: nat,
                                      from: nat, end: nat, acc: map<Path, FileEntry>)
    requires from <= end <= total && HoldsPieces(prefix, size, l, objects, from, end)
    ensures MergeShards(objects, ShardKeys(prefix, total)[from..], acc)
         == MergeShards(objects, ShardKeys(prefix, total)[end..], acc + Between(size, l, from, end))
    decreases end - from
  {
    if from == end {
      assert l.paths[At(l.paths, size, from)..At(l.paths, size, from)] == [];
      assert acc + Between(size, l, from, end) == acc;
    } else {
      var piece := Restrict(l.files, Piece(l.paths, size, from));
      assert HoldsPiece(prefix, size, l, objects, from);
      MergeOne(objects, ShardKeys(prefix, total), from, acc);
      MergeRange(prefix, size, l, objects, total, from + 1, end, acc + piece);
      BetweenStep(size, l, from, end, acc);
    }
  }

  lemma MergeOne(objects: ObjectMap, keys: seq<string>, from: nat, acc: map<Path, FileEntry>)
    requires from < |keys| && keys[from] in objects && objects[keys[from]].body.Document?
    ensures MergeShards(objects, keys[from..], acc) == MergeShards(objects, keys[from + 1..], acc + objects[keys[from]].body.doc.files)
  {
    assert keys[from..][0] == keys[from] && keys[from..][1..] == keys[from + 1..];
  }

  // ---- the store after a cut ----------------------------------------------------------------------------------------

  ghost function Shards(cfg: SyncConfig, m: ManifestDoc): nat
    requires cfg.Valid()
  {
    |ChunksOf(cfg, m)|
  }

  /** `m` is stored in shards, cut as `cfg` cuts. */
  ghost predicate StoredInShards(cfg: SyncConfig, prefix: string, m: ManifestDoc, objects: ObjectMap)
    requires cfg.Valid()
  {
    && m.files != map[]
    && ManifestKey(prefix) in objects
    && objects[ManifestKey(prefix)].body == Document(TopDocument(prefix, m, Shards(cfg, m)))
    && HoldsPieces(prefix, cfg.shardFileCount, LayoutOf(cfg, m), objects, 0, Shards(cfg, m))
  }

  function Min(a: nat, b: nat): nat {
    if a < b then a else b
  }

  /** Cut after `j` uploads, a reader gets the mixture, with the old directories and mode. */
  lemma CutShowsMixture(cfg: SyncConfig, prefix: string, m0: ManifestDoc, m: ManifestDoc, oldShards: seq<string>, now: int,
                        before: ObjectMap, j: nat)
    requires cfg.Valid() && StoredInShards(cfg, prefix, m0, before) && j <= Shards(cfg, m)
    ensures j <= |ShardedOps(cfg, prefix, m, oldShards, now)|
    ensures Load(ApplyAll(ShardedOps(cfg, prefix, m, oldShards, now)[..j], before), prefix)
         == Some(TopDocument(prefix, m0, Shards(cfg, m0)).(
              files := Mixture(cfg.shardFileCount, LayoutOf(cfg, m0), LayoutOf(cfg, m), Min(j, Shards(cfg, m0)))))
  {
    var chunks := ChunksOf(cfg, m);
    assert ShardedOps(cfg, prefix, m, oldShards, now)[..j] == ShardOps(prefix, m.files, chunks, now)[..j];
    ShardPutsEffect(prefix, m.files, chunks, now, before, j);
    var cut := ApplyAll(ShardOps(prefix, m.files, chunks, now)[..j], before);
    PiecesAfterCut(cfg, prefix, m0, m, now, before, cut, j);
    MixtureLoaded(cfg, prefix, m0, m, cut, Min(j, Shards(cfg, m0)));
  }

  lemma PiecesAfterCut(cfg: SyncConfig, prefix: string, m0: ManifestDoc, m: ManifestDoc, now: int, before: ObjectMap, cut: ObjectMap, j: nat)
    requires cfg.Valid() && StoredInShards(cfg, prefix, m0, before) && j <= Shards(cfg, m)
    requires ShardsStored(prefix, m.files, ChunksOf(cfg, m), now, before, cut, j)
    ensures ManifestKey(prefix) in cut && cut[ManifestKey(prefix)].body == Document(TopDocument(prefix, m0, Shards(cfg, m0)))
    ensures HoldsPieces(prefix, cfg.shardFileCount, LayoutOf(cfg, m), cut, 0, j)
    ensures HoldsPieces(prefix, cfg.shardFileCount, LayoutOf(cfg, m0), cut, j, Shards(cfg, m0))
  {
    ManifestKeyNotShard(prefix, j);
    assert SameAt(before, cut, ManifestKey(prefix));
    forall i | 0 <= i < j ensures HoldsPiece(prefix, cfg.shardFileCount, LayoutOf(cfg, m), cut, i) {
      assert HoldsShard(prefix, m.files, ChunksOf(cfg, m)[i], now, cut, i);
      ChunkIsPiece(LayoutOf(cfg, m).paths, cfg.shardFileCount, i);
    }
    forall i | j <= i < Shards(cfg, m0) ensures HoldsPiece(prefix, cfg.shardFileCount, LayoutOf(cfg, m0), cut, i) {
      assert HoldsPiece(prefix, cfg.shardFileCount, LayoutOf(cfg, m0), before, i);
      LaterShardUntouched(prefix, j, i);
      assert SameAt(before, cut, ShardKey(prefix, i));
    }
  }

  lemma LaterShardUntouched(prefix: string, n: nat, i: nat)
    requires n <= i
    ensures ShardKey(prefix, i) !in ShardKeys(prefix, n)
  {
    if ShardKey(prefix, i) in ShardKeys(prefix, n) {
      ShardKeyListed(prefix, n, ShardKey(prefix, i));
      var k :| 0 <= k < n && ShardKey(prefix, k) == ShardKey(prefix, i);
      ShardKeysDistinct(prefix, k, i);
    }
  }

  lemma MixtureLoaded(cfg: SyncConfig, prefix: string, m0: ManifestDoc, m: ManifestDoc, cut: ObjectMap, k: nat)
    requires cfg.Valid() && m0.files != map[] && k <= Shards(cfg, m0)
    requires ManifestKey(prefix) in cut && cut[ManifestKey(prefix)].body == Document(TopDocument(prefix, m0, Shards(cfg, m0)))
    requires HoldsPieces(prefix, cfg.shardFileCount, LayoutOf(cfg, m), cut, 0, k)
    requires HoldsPieces(prefix, cfg.shardFileCount, LayoutOf(cfg, m0), cut, k, Shards(cfg, m0))
    ensures Load(cut, prefix) == Some(TopDocument(prefix, m0, Shards(cfg, m0)).(
              files := Mixture(cfg.shardFileCount, LayoutOf(cfg, m0), LayoutOf(cfg, m), k)))
  {
    var size, was, will, total := cfg.shardFileCount, LayoutOf(cfg, m0), LayoutOf(cfg, m), Shards(cfg, m0);
    var keys := ShardKeys(prefix, total);
    ChunksCoverFiles(cfg, m0);
    MergeRange(prefix, size, will, cut, total, 0, k, map[]);
    MergeRange(prefix, size, was, cut, total, k, total, map[] + Between(size, will, 0, k));
    assert keys[0..] == keys && keys[total..] == [];
    BetweenEnds(cfg, m0, m, k);
  }

  lemma BetweenEnds(cfg: SyncConfig, m0: ManifestDoc, m: ManifestDoc, k: nat)
    requires cfg.Valid() && k <= Shards(cfg, m0)
    ensures map[] + Between(cfg.shardFileCount, LayoutOf(cfg, m), 0, k) + Between(cfg.shardFileCount, LayoutOf(cfg, m0), k, Shards(cfg, m0))
         == Mixture(cfg.shardFileCount, LayoutOf(cfg, m0), LayoutOf(cfg, m), k)
  {
    var size, was, will, total := cfg.shardFileCount, LayoutOf(cfg, m0), LayoutOf(cfg, m), Shards(cfg, m0);
    ChunkIsPiece(was.paths, size, total);
    AtGrows(was.paths, size, k, total);
    assert At(was.paths, size, total) == |was.paths|;
    assert will.paths[0..At(will.paths, size, k)] == will.paths[..At(will.paths, size, k)];
    assert was.paths[At(was.paths, size, k)..|was.paths|] == was.paths[At(was.paths, size, k)..];
  }

  // ---- the theorem -----------------------------------------------------------------------------------------------------

  /** A stored manifest, if it has shards, was cut as `cfg` cuts. */
  ghost predicate WrittenHere(cfg: SyncConfig, prefix: string, objects: ObjectMap)
    requires cfg.Valid()
  {
    StoredShards(objects, prefix) != [] ==>
      Load(objects, prefix).Some? && StoredInShards(cfg, prefix, Load(objects, prefix).value, objects)
  }

  /** A reader sees the complete old or the complete new manifest. */
  predicate OldOrNew(prefix: string, existing: Option<ManifestDoc>, m: ManifestDoc, objects: ObjectMap) {
    Recorded(Load(objects, prefix)) == Recorded(existing) || Recorded(Load(objects, prefix)) == Recorded(Wanted(m))
  }

  ghost predicate AlwaysOldOrNew(prefix: string, existing: Option<ManifestDoc>, m: ManifestDoc, ops: seq<StoreOp>, before: ObjectMap) {
    forall n :: 0 <= n <= |ops| ==> OldOrNew(prefix, existing, m, ApplyAll(ops[..n], before))
  }

  /** Where the first piece changes, directories and mode must not, and the old pieces behind it must
      already serve the new manifest. */
  ghost predicate SafeOverwrite(cfg: SyncConfig, m0: ManifestDoc, m: ManifestDoc)
    requires cfg.Valid()
  {
    forall p: nat :: FirstChanged(cfg.shardFileCount, LayoutOf(cfg, m0), LayoutOf(cfg, m), p) ==>
      && m.emptyDirectories == m0.emptyDirectories && ModeOf(m) == ModeOf(m0)
      && TailServes(cfg.shardFileCount, LayoutOf(cfg, m0), LayoutOf(cfg, m), p + 1)
  }

  lemma AtMostShards(cfg: SyncConfig, m: ManifestDoc, p: nat)
    requires cfg.Valid()
    ensures Times(p, cfg.shardFileCount) < |LayoutOf(cfg, m).paths| <==> p < Shards(cfg, m)
  {
    ChunkIsPiece(LayoutOf(cfg, m).paths, cfg.shardFileCount, p);
  }

  /** A manifest with the old directories and mode and some files is the old one or the new one. */
  lemma ShowsOldOrNew(prefix: string, m0: ManifestDoc, m: ManifestDoc, objects: ObjectMap, shown: ManifestDoc)
    requires Load(objects, prefix) == Some(shown) && m.files != map[]
    requires shown.emptyDirectories == m0.emptyDirectories && shown.storageMode == m0.storageMode
    ensures OldOrNew(prefix, Some(m0), m, objects)
       <==> shown.files == m0.files
            || (shown.files == m.files && m.emptyDirectories == m0.emptyDirectories && ModeOf(m) == ModeOf(m0))
  {
  }

  /** The cut after the first changed piece shows neither, unless the overwrite is safe. */
  lemma CutNeedsSafety(cfg: SyncConfig, prefix: string, m0: ManifestDoc, m: ManifestDoc, oldShards: seq<string>, now: int,
                       before: ObjectMap, p: nat)
    requires cfg.Valid() && StoredInShards(cfg, prefix, m0, before) && m.files != map[]
    requires FirstChanged(cfg.shardFileCount, LayoutOf(cfg, m0), LayoutOf(cfg, m), p)
    ensures p + 1 <= |ShardedOps(cfg, prefix, m, oldShards, now)|
    ensures OldOrNew(prefix, Some(m0), m, ApplyAll(ShardedOps(cfg, prefix, m, oldShards, now)[..p + 1], before)) ==>
      && m.emptyDirectories == m0.emptyDirectories && ModeOf(m) == ModeOf(m0)
      && TailServes(cfg.shardFileCount, LayoutOf(cfg, m0), LayoutOf(cfg, m), p + 1)
  {
    ChangedMixture(cfg, m0, m, p);
    var shown := CutShows(cfg, prefix, m0, m, oldShards, now, before, p + 1);
    ShowsOldOrNew(prefix, m0, m, ApplyAll(ShardedOps(cfg, prefix, m, oldShards, now)[..p + 1], before), shown);
  }

  lemma ChangedMixture(cfg: SyncConfig, m0: ManifestDoc, m: ManifestDoc, p: nat)
    requires cfg.Valid() && FirstChanged(cfg.shardFileCount, LayoutOf(cfg, m0), LayoutOf(cfg, m), p)
    ensures p < Shards(cfg, m0) && p < Shards(cfg, m)
    ensures var mixed := Mixture(cfg.shardFileCount, LayoutOf(cfg, m0), LayoutOf(cfg, m), p + 1);
      && mixed != m0.files
      && (mixed == m.files <==> TailServes(cfg.shardFileCount, LayoutOf(cfg, m0), LayoutOf(cfg, m), p + 1))
  {
    LayoutSound(cfg, m0);
    LayoutSound(cfg, m);
    ChangedCut(cfg.pathLess, cfg.shardFileCount, LayoutOf(cfg, m0), LayoutOf(cfg, m), p);
    AtMostShards(cfg, m0, p);
    AtMostShards(cfg, m, p);
  }

  lemma CutShows(cfg: SyncConfig, prefix: string, m0: ManifestDoc, m: ManifestDoc, oldShards: seq<string>, now: int,
                 before: ObjectMap, j: nat) returns (shown: ManifestDoc)
    requires cfg.Valid() && StoredInShards(cfg, prefix, m0, before) && j <= Shards(cfg, m)
    ensures j <= |ShardedOps(cfg, prefix, m, oldShards, now)|
    ensures Load(ApplyAll(ShardedOps(cfg, prefix, m, oldShards, now)[..j], before), prefix) == Some(shown)
    ensures shown.emptyDirectories == m0.emptyDirectories && shown.storageMode == m0.storageMode
    ensures shown.files == Mixture(cfg.shardFileCount, LayoutOf(cfg, m0), LayoutOf(cfg, m), Min(j, Shards(cfg, m0)))
  {
    CutShowsMixture(cfg, prefix, m0, m, oldShards, now, before, j);
    shown := Load(ApplyAll(ShardedOps(cfg, prefix, m, oldShards, now)[..j], before), prefix).value;
  }

  lemma SafeMixture(cfg: SyncConfig, m0: ManifestDoc, m: ManifestDoc, k: nat)
    requires cfg.Valid() && SafeOverwrite(cfg, m0, m) && k <= Shards(cfg, m) && k <= Shards(cfg, m0)
    ensures var mixed := Mixture(cfg.shardFileCount, LayoutOf(cfg, m0), LayoutOf(cfg, m), k);
      mixed == m0.files || (mixed == m.files && m.emptyDirectories == m0.emptyDirectories && ModeOf(m) == ModeOf(m0))
  {
    LayoutSound(cfg, m0);
    LayoutSound(cfg, m);
    var p := EarlierCut(cfg.pathLess, cfg.shardFileCount, LayoutOf(cfg, m0), LayoutOf(cfg, m), k);
    if p.Some? {
      SafeAfter(cfg, m0, m, p.value, k);
    }
  }

  lemma SafeAfter(cfg: SyncConfig, m0: ManifestDoc, m: ManifestDoc, p: nat, k: nat)
    requires cfg.Valid() && SafeOverwrite(cfg, m0, m) && p < k <= Shards(cfg, m) && k <= Shards(cfg, m0)
    requires !SamePiece(cfg.shardFileCount, LayoutOf(cfg, m0), LayoutOf(cfg, m), p)
    requires SameBelow(cfg.shardFileCount, LayoutOf(cfg, m0), LayoutOf(cfg, m), p)
    ensures Mixture(cfg.shardFileCount, LayoutOf(cfg, m0), LayoutOf(cfg, m), k) == m.files
    ensures m.emptyDirectories == m0.emptyDirectories && ModeOf(m) == ModeOf(m0)
  {
    AtMostShards(cfg, m0, p);
    AtMostShards(cfg, m, p);
    assert FirstChanged(cfg.shardFileCount, LayoutOf(cfg, m0), LayoutOf(cfg, m), p);
    LayoutSound(cfg, m0);
    LayoutSound(cfg, m);
    LaterCut(cfg.pathLess, cfg.shardFileCount, LayoutOf(cfg, m0), LayoutOf(cfg, m), p, k);
  }

  /** A safe overwrite shows the old or the new manifest after any number of uploads. */
  lemma SafeCut(cfg: SyncConfig, prefix: string, m0: ManifestDoc, m: ManifestDoc, oldShards: seq<string>, now: int, before: ObjectMap, n: nat)
    requires cfg.Valid() && StoredInShards(cfg, prefix, m0, before) && m.files != map[]
    requires SafeOverwrite(cfg, m0, m) && n <= Shards(cfg, m)
    ensures n <= |ShardedOps(cfg, prefix, m, oldShards, now)|
    ensures OldOrNew(prefix, Some(m0), m, ApplyAll(ShardedOps(cfg, prefix, m, oldShards, now)[..n], before))
  {
    SafeMixture(cfg, m0, m, Min(n, Shards(cfg, m0)));
    var shown := CutShows(cfg, prefix, m0, m, oldShards, now, before, n);
    ShowsOldOrNew(prefix, m0, m, ApplyAll(ShardedOps(cfg, prefix, m, oldShards, now)[..n], before), shown);
  }

  lemma OverwriteAtomicIff(cfg: SyncConfig, prefix: string, m0: ManifestDoc, m: ManifestDoc, oldShards: seq<string>, now: int, before: ObjectMap)
    requires cfg.Valid() && StoredInShards(cfg, prefix, m0, before) && m.files != map[] && ManifestKey(prefix) !in oldShards
    ensures AlwaysOldOrNew(prefix, Some(m0), m, ShardedOps(cfg, prefix, m, oldShards, now), before) <==> SafeOverwrite(cfg, m0, m)
  {
    var ops := ShardedOps(cfg, prefix, m, oldShards, now);
    if AlwaysOldOrNew(prefix, Some(m0), m, ops, before) {
      forall p: nat | FirstChanged(cfg.shardFileCount, LayoutOf(cfg, m0), LayoutOf(cfg, m), p)
        ensures m.emptyDirectories == m0.emptyDirectories && ModeOf(m) == ModeOf(m0)
        ensures TailServes(cfg.shardFileCount, LayoutOf(cfg, m0), LayoutOf(cfg, m), p + 1)
      {
        CutNeedsSafety(cfg, prefix, m0, m, oldShards, now, before, p);
      }
    }
    if SafeOverwrite(cfg, m0, m) {
      forall n | 0 <= n <= |ops| ensures OldOrNew(prefix, Some(m0), m, ApplyAll(ops[..n], before)) {
        if n <= Shards(cfg, m) {
          SafeCut(cfg, prefix, m0, m, oldShards, now, before, n);
        } else {
          ShardedCutReadable(cfg, prefix, m, oldShards, now, before, n);
        }
      }
    }
  }

  /** When a write is atomic, in terms of the manifest that is stored and the one to be written. */
  ghost predicate SafeWrite(cfg: SyncConfig, prefix: string, before: ObjectMap, m: ManifestDoc)
    requires cfg.Valid()
  {
    || StoredShards(before, prefix) == []
    || |m.files| <= cfg.shardFileCount
    || Load(before, prefix).None?
    || Equivalent(Load(before, prefix).value, m)
    || SafeOverwrite(cfg, Load(before, prefix).value, m)
  }

  /** Every cut of a write shows the complete old or the complete new manifest if and only if the write is
      not one of shards over shards, changes nothing, or is a safe overwrite. */
  lemma AtomicIff(cfg: SyncConfig, prefix: string, m: ManifestDoc, now: int, before: ObjectMap)
    requires cfg.Valid() && m.manifestShards == [] && WrittenHere(cfg, prefix, before)
    ensures var existing := Load(before, prefix);
      AlwaysOldOrNew(prefix, existing, m, WriteOps(cfg, prefix, m, existing, now), before) <==> SafeWrite(cfg, prefix, before, m)
  {
    var existing := Load(before, prefix);
    SaneHere(cfg, prefix, before);
    if StoredShards(before, prefix) == [] || |m.files| <= cfg.shardFileCount {
      OtherWritesAtomic(cfg, prefix, m, now, before);
    } else if Equivalent(existing.value, m) {
      NothingWritten(prefix, m, before, existing);
    } else {
      OverwriteAtomicIff(cfg, prefix, existing.value, m, OldShards(existing), now, before);
    }
  }

  lemma SaneHere(cfg: SyncConfig, prefix: string, before: ObjectMap)
    requires cfg.Valid() && WrittenHere(cfg, prefix, before)
    ensures SaneShardList(prefix, Load(before, prefix))
  {
    if StoredShards(before, prefix) != [] {
      ManifestKeyNotShard(prefix, Shards(cfg, Load(before, prefix).value));
    }
  }

  lemma NothingWritten(prefix: string, m: ManifestDoc, before: ObjectMap, existing: Option<ManifestDoc>)
    requires existing == Load(before, prefix)
    ensures AlwaysOldOrNew(prefix, existing, m, [], before)
  {
  }

  lemma OtherWritesAtomic(cfg: SyncConfig, prefix: string, m: ManifestDoc, now: int, before: ObjectMap)
    requires cfg.Valid() && m.manifestShards == [] && SaneShardList(prefix, Load(before, prefix))
    requires StoredShards(before, prefix) == [] || |m.files| <= cfg.shardFileCount
    ensures AlwaysOldOrNew(prefix, Load(before, prefix), m, WriteOps(cfg, prefix, m, Load(before, prefix), now), before)
  {
    var existing := Load(before, prefix);
    var ops := WriteOps(cfg, prefix, m, existing, now);
    forall n | 0 <= n <= |ops| ensures OldOrNew(prefix, existing, m, ApplyAll(ops[..n], before)) {
      ReplacementIsAtomic(cfg, prefix, m, existing, now, before, n);
    }
  }

  // ---- the hypothesis is kept by writes ---------------------------------------------------------------------------------

  /** A complete write leaves a manifest cut as `cfg` cuts. */
  lemma WriteKeepsLayout(cfg: SyncConfig, prefix: string, m: ManifestDoc, now: int, before: ObjectMap)
    requires cfg.Valid() && m.manifestShards == [] && WrittenHere(cfg, prefix, before)
    ensures WrittenHere(cfg, prefix, ApplyAll(WriteOps(cfg, prefix, m, Load(before, prefix), now), before))
  {
    var existing := Load(before, prefix);
    var ops, shards0 := WriteOps(cfg, prefix, m, existing, now), OldShards(existing);
    SaneHere(cfg, prefix, before);
    AllOps(ops);
    if IsEmptyManifest(m) {
      DeleteOpsEffect([ManifestKey(prefix)] + shards0, before);
    } else if existing.Some? && Equivalent(existing.value, m) {
    } else if |m.files| > cfg.shardFileCount {
      ShardsLaidOut(cfg, prefix, m, shards0, now, before);
    } else {
      TopOpsCut(prefix, m, shards0, now, before, |ops|);
    }
  }

  lemma ShardsLaidOut(cfg: SyncConfig, prefix: string, m: ManifestDoc, shards0: seq<string>, now: int, before: ObjectMap)
    requires cfg.Valid() && m.files != map[] && ManifestKey(prefix) !in shards0
    ensures WrittenHere(cfg, prefix, ApplyAll(ShardedOps(cfg, prefix, m, shards0, now), before))
  {
    var ops := ShardedOps(cfg, prefix, m, shards0, now);
    AllOps(ops);
    ShardedCutStored(cfg, prefix, m, shards0, now, before, |ops|);
    ShardedManifestReadable(cfg, prefix, m, now, ApplyAll(ops, before));
    ReadablePieces(cfg, prefix, m, now, ApplyAll(ops, before));
  }

  lemma ReadablePieces(cfg: SyncConfig, prefix: string, m: ManifestDoc, now: int, objects: ObjectMap)
    requires cfg.Valid() && ShardsReadable(prefix, m.files, ChunksOf(cfg, m), now, objects)
    ensures HoldsPieces(prefix, cfg.shardFileCount, LayoutOf(cfg, m), objects, 0, Shards(cfg, m))
  {
    forall i | 0 <= i < Shards(cfg, m) ensures HoldsPiece(prefix, cfg.shardFileCount, LayoutOf(cfg, m), objects, i) {
      ChunkIsPiece(LayoutOf(cfg, m).paths, cfg.shardFileCount, i);
    }
  }

  // ---- an instance --------------------------------------------------------------------------------------------------------

  function PairManifest(p: Path, q: Path, e: FileEntry): ManifestDoc {
    ManifestDoc(map[p := e, q := e], {}, Some(ObjectsMode), [])
  }

  lemma PairLayout(cfg: SyncConfig, p: Path, q: Path, e: FileEntry)
    requires cfg.Valid() && cfg.shardFileCount == 1 && cfg.pathLess(p, q)
    ensures LayoutOf(cfg, PairManifest(p, q, e)) == Layout(map[p := e, q := e], [p, q])
    ensures Shards(cfg, PairManifest(p, q, e)) == 2
  {
    var m := PairManifest(p, q, e);
    assert m.files.Keys == {p, q};
    SortedPair(cfg.pathLess, p, q);
    assert Times(1, 1) == Times(0, 1) + 1 && Times(2, 1) == Times(1, 1) + 1;
    AtMostShards(cfg, m, 1);
    AtMostShards(cfg, m, 2);
  }

  lemma PairMixtures(cfg: SyncConfig, a: Path, b: Path, c: Path, e: FileEntry)
    requires cfg.Valid() && cfg.shardFileCount == 1 && cfg.pathLess(a, b) && cfg.pathLess(b, c)
    ensures var was, will := LayoutOf(cfg, PairManifest(a, b, e)), LayoutOf(cfg, PairManifest(b, c, e));
      Mixture(1, was, will, 1) == map[b := e]
  {
    PairLayout(cfg, a, b, e);
    PairLayout(cfg, b, c, e);
    assert Times(1, 1) == Times(0, 1) + 1;
    assert [b, c][..1] == [b] && [a, b][1..] == [b];
  }

  lemma PairTorn(cfg: SyncConfig, prefix: string, a: Path, b: Path, c: Path, e: FileEntry, oldShards: seq<string>,
                 now: int, before: ObjectMap)
    requires cfg.Valid() && cfg.shardFileCount == 1 && cfg.pathLess(a, b) && cfg.pathLess(b, c)
    requires StoredInShards(cfg, prefix, PairManifest(a, b, e), before)
    ensures var ops := ShardedOps(cfg, prefix, PairManifest(b, c, e), oldShards, now);
      |ops| >= 1 && Recorded(Load(ApplyAll(ops[..1], before), prefix)) == (map[b := e], {}, ObjectsMode)
  {
    PairLayout(cfg, a, b, e);
    PairLayout(cfg, b, c, e);
    PairMixtures(cfg, a, b, c, e);
    var shown := CutShows(cfg, prefix, PairManifest(a, b, e), PairManifest(b, c, e), oldShards, now, before, 1);
  }

  lemma PairUnsafe(cfg: SyncConfig, a: Path, b: Path, c: Path, e: FileEntry)
    requires cfg.Valid() && cfg.shardFileCount == 1 && cfg.pathLess(a, b) && cfg.pathLess(b, c)
    ensures !SafeOverwrite(cfg, PairManifest(a, b, e), PairManifest(b, c, e))
  {
    var m0, m := PairManifest(a, b, e), PairManifest(b, c, e);
    PairLayout(cfg, a, b, e);
    PairLayout(cfg, b, c, e);
    PairMixtures(cfg, a, b, c, e);
    assert a in m0.files && a !in map[b := e] && c in m.files && c !in map[b := e];
    if SafeOverwrite(cfg, m0, m) {
      SafeMixture(cfg, m0, m, 1);
    }
  }

  /** What is stored in shards is what a reader gets. */
  lemma StoredIsLoaded(cfg: SyncConfig, prefix: string, m0: ManifestDoc, objects: ObjectMap)
    requires cfg.Valid() && StoredInShards(cfg, prefix, m0, objects)
    ensures Load(objects, prefix) == Some(TopDocument(prefix, m0, Shards(cfg, m0)).(files := m0.files))
  {
    var l := LayoutOf(cfg, m0);
    LayoutSound(cfg, m0);
    MixtureLoaded(cfg, prefix, m0, m0, objects, 0);
    SameShowsOld(cfg.pathLess, cfg.shardFileCount, l, l, 0);
  }

  lemma NewPathNotEquivalent(l: ManifestDoc, r: ManifestDoc, a: Path)
    requires a != [] && a in l.files && ValidEntry(l.files[a]) && a !in r.files
    ensures !Equivalent(l, r)
  {
    assert a in ValidFiles(l) && a !in ValidFiles(r);
  }

  /** With one file to a shard, replacing {a, b} by {b, c} and stopping after the first upload leaves a
      manifest listing b alone. */
  lemma ShardsOverShardsCanTear(cfg: SyncConfig, prefix: string, a: Path, b: Path, c: Path, e: FileEntry, now: int, before: ObjectMap)
    requires cfg.Valid() && cfg.shardFileCount == 1 && cfg.pathLess(a, b) && cfg.pathLess(b, c)
    requires a != [] && b != [] && c != [] && ValidEntry(e)
    requires StoredInShards(cfg, prefix, PairManifest(a, b, e), before)
    ensures var ops := WriteOps(cfg, prefix, PairManifest(b, c, e), Load(before, prefix), now);
      && |ops| >= 1
      && Recorded(Load(before, prefix)) == (map[a := e, b := e], {}, ObjectsMode)
      && Recorded(Load(ApplyAll(ops[..1], before), prefix)) == (map[b := e], {}, ObjectsMode)
    ensures !SafeWrite(cfg, prefix, before, PairManifest(b, c, e))
  {
    var m := PairManifest(b, c, e);
    StoredIsLoaded(cfg, prefix, PairManifest(a, b, e), before);
    var m0 := Load(before, prefix).value;
    NewPathNotEquivalent(m0, m, a);
    assert |m.files| == |m.files.Keys| == |{b, c}| == 2;
    PairTorn(cfg, prefix, a, b, c, e, OldShards(Some(m0)), now, before);
    PairNotSafe(cfg, prefix, a, b, c, e, before);
  }

  lemma PairNotSafe(cfg: SyncConfig, prefix: string, a: Path, b: Path, c: Path, e: FileEntry, before: ObjectMap)
    requires cfg.Valid() && cfg.shardFileCount == 1 && cfg.pathLess(a, b) && cfg.pathLess(b, c)
    requires a != [] && b != [] && c != [] && ValidEntry(e)
    requires StoredInShards(cfg, prefix, PairManifest(a, b, e), before)
    ensures !SafeWrite(cfg, prefix, before, PairManifest(b, c, e))
  {
    var m := PairManifest(b, c, e);
    StoredIsLoaded(cfg, prefix, PairManifest(a, b, e), before);
    var m0 := Load(before, prefix).value;
    NewPathNotEquivalent(m0, m, a);
    PairUnsafe(cfg, a, b, c, e);
    SafeByFiles(cfg, PairManifest(a, b, e), m0, m);
    PairLayout(cfg, a, b, e);
    assert |m.files| == |m.files.Keys| == |{b, c}| == 2;
    assert StoredShards(before, prefix) == ShardKeys(prefix, 2);
  }

  /** Which names the shards have does not matter. */
  lemma SafeByFiles(cfg: SyncConfig, m0: ManifestDoc, m1: ManifestDoc, m: ManifestDoc)
    requires cfg.Valid() && m0.files == m1.files && m0.emptyDirectories == m1.emptyDirectories && ModeOf(m0) == ModeOf(m1)
    ensures SafeOverwrite(cfg, m0, m) <==> SafeOverwrite(cfg, m1, m)
  {
    assert LayoutOf(cfg, m0) == LayoutOf(cfg, m1);
  }
}
