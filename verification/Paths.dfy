/** Relative paths and the object keys that carry them.

    A relative path is the sequence of its segments, so the empty sequence is the root.
    Keys are the strings the object store sees. */
module Paths {
  import opened Options

  predicate ValidName(s: string) {
    s != "" && '/' !in s
  }

  predicate ValidPath(p: seq<string>) {
    forall i :: 0 <= i < |p| ==> ValidName(p[i])
  }

  /** A normalised relative path. */
  type Path = p: seq<string> | ValidPath(p) witness []

  /** `q` lies strictly below `p`. */
  predicate Under(p: seq<string>, q: seq<string>) {
    |p| < |q| && q[..|p|] == p
  }

  // ---- rendering and splitting -------------------------------------------------------

  function Join(p: seq<string>): string {
    if p == [] then "" else if |p| == 1 then p[0] else p[0] + "/" + Join(p[1..])
  }

  function Split(s: string): (p: seq<string>)
    ensures p != []
  {
    if s == "" then [""]
    else
      var rest := Split(s[1..]);
      if s[0] == '/' then [""] + rest else [[s[0]] + rest[0]] + rest[1..]
  }

  lemma {:induction false} SplitName(n: string)
    requires '/' !in n
    ensures Split(n) == [n]
    decreases |n|
  {
    if n != "" {
      assert n[0] in n;
      assert forall c :: c in n[1..] ==> c in n;
      SplitName(n[1..]);
      assert [n[0]] + n[1..] == n;
    }
  }

  lemma {:induction false} SplitFirst(n: string, rest: string)
    requires '/' !in n
    ensures Split(n + "/" + rest) == [n] + Split(rest)
    decreases |n|
  {
    var s := n + "/" + rest;
    if n == "" {
      assert s[1..] == rest;
    } else {
      assert n[0] in n;
      assert forall c :: c in n[1..] ==> c in n;
      assert s[1..] == n[1..] + "/" + rest;
      SplitFirst(n[1..], rest);
      assert [n[0]] + n[1..] == n;
      assert s[0] == n[0];
    }
  }

  lemma {:induction false} SplitJoin(p: Path)
    requires p != []
    ensures Split(Join(p)) == p
    ensures Join(p) != "" && Join(p)[0] != '/' && Join(p)[|Join(p)| - 1] != '/'
  {
    assert ValidName(p[0]);
    assert p[0][0] in p[0] && p[0][|p[0]| - 1] in p[0];
    if |p| == 1 {
      SplitName(p[0]);
    } else {
      var rest: Path := p[1..];
      SplitJoin(rest);
      SplitFirst(p[0], Join(rest));
      assert p == [p[0]] + rest;
    }
  }

  // ---- normalisation, as in object-storage-manifest.ts --------------------------------

  function StripLeading(s: string): string {
    if s != "" && s[0] == '/' then StripLeading(s[1..]) else s
  }

  function StripTrailing(s: string): string {
    if s != "" && s[|s| - 1] == '/' then StripTrailing(s[..|s| - 1]) else s
  }

  /** `normalizePrefix` and, on hosts whose separator is "/", `normalizeRelativePath`. */
  function Normalize(s: string): string {
    StripTrailing(StripLeading(s))
  }

  function BuildRemoteKey(prefix: string, relative: string): string {
    var n := Normalize(relative);
    if prefix == "" then n else prefix + "/" + n
  }

  function RelativePathFromRemoteKey(prefix: string, key: string): Option<string> {
    if prefix == "" then Some(Normalize(key))
    else if key == prefix then Some("")
    else if !(prefix + "/" <= key) then None
    else Some(Normalize(key[|prefix| + 1..]))
  }

  /** The segments of the relative path behind a key; the root for the prefix itself. */
  function KeyPath(prefix: string, key: string): Option<seq<string>> {
    match RelativePathFromRemoteKey(prefix, key)
    case None => None
    case Some(s) => Some(if s == "" then [] else Split(s))
  }

  function FileKey(prefix: string, p: Path): string {
    BuildRemoteKey(prefix, Join(p))
  }

  /** The marker object of an empty directory. */
  function DirKey(prefix: string, p: Path): string {
    FileKey(prefix, p) + "/"
  }

  predicate IsMarker(key: string) {
    key != "" && key[|key| - 1] == '/'
  }

  lemma NormalizeFixed(s: string)
    requires s != "" && s[0] != '/' && s[|s| - 1] != '/'
    ensures Normalize(s) == s && Normalize(s + "/") == s
  {
    var t := s + "/";
    assert StripLeading(t) == t;
    assert t[|t| - 1] == '/' && t[..|t| - 1] == s;
    assert StripTrailing(t) == StripTrailing(s) == s;
  }

  /** Keys are read back to the path they were built from, and markers are told from files. */
  lemma KeyRoundTrip(prefix: string, p: Path)
    requires p != []
    ensures KeyPath(prefix, FileKey(prefix, p)) == Some(p)
    ensures KeyPath(prefix, DirKey(prefix, p)) == Some(p)
    ensures !IsMarker(FileKey(prefix, p)) && IsMarker(DirKey(prefix, p))
    ensures prefix != "" ==> prefix + "/" <= FileKey(prefix, p) && prefix + "/" <= DirKey(prefix, p)
  {
    var s := Join(p);
    SplitJoin(p);
    NormalizeFixed(s);
    if prefix != "" {
      var k := prefix + "/" + s;
      assert k[|prefix| + 1..] == s;
      assert (k + "/")[|prefix| + 1..] == s + "/";
      assert k != prefix && k + "/" != prefix;
      assert k[|k| - 1] == s[|s| - 1];
      assert prefix + "/" <= k;
      assert prefix + "/" <= k + "/";
    }
  }

  /** Distinct objects get distinct keys. */
  lemma KeysDistinct(prefix: string, p: Path, q: Path)
    requires p != [] && q != []
    ensures FileKey(prefix, p) == FileKey(prefix, q) ==> p == q
    ensures DirKey(prefix, p) == DirKey(prefix, q) ==> p == q
    ensures FileKey(prefix, p) != DirKey(prefix, q)
  {
    KeyRoundTrip(prefix, p);
    KeyRoundTrip(prefix, q);
  }

  // ---- reserved and ignored paths --------------------------------------------------------

  const MANIFEST_NAME := ".oah-sync-manifest.json"
  const SHARD_DIRECTORY := ".oah-sync-manifest-shards"
  const BUNDLE_NAME := ".oah-sync-bundle.tar"

  predicate EndsWith(s: string, suffix: string) {
    |suffix| <= |s| && s[|s| - |suffix|..] == suffix
  }

  /** `shouldIgnoreRelativePath`: reserved sync objects, caches and database side files. */
  predicate Ignored(p: seq<string>) {
    p != [] &&
    (|| p == [MANIFEST_NAME]
     || p[0] == SHARD_DIRECTORY
     || p == [BUNDLE_NAME]
     || "__pycache__" in p
     || var base := p[|p| - 1];
        base == ".DS_Store" || EndsWith(base, ".pyc") || EndsWith(base, ".db-shm") || EndsWith(base, ".db-wal"))
  }

  function ManifestKey(prefix: string): string {
    BuildRemoteKey(prefix, MANIFEST_NAME)
  }

  function BundleKey(prefix: string): string {
    BuildRemoteKey(prefix, BUNDLE_NAME)
  }

  function Digit(d: nat): char
    requires d < 10
  {
    "0123456789"[d]
  }

  function Decimal(n: nat): (s: string)
    ensures s != "" && '/' !in s
  {
    if n < 10 then [Digit(n)] else Decimal(n / 10) + [Digit(n % 10)]
  }

  /** `padStart(5, "0")`. */
  function Pad5(s: string): string
    decreases 5 - |s|
  {
    if |s| >= 5 then s else Pad5("0" + s)
  }

  function ShardName(index: nat): string {
    Pad5(Decimal(index)) + ".json"
  }

  function ShardKey(prefix: string, index: nat): string {
    BuildRemoteKey(prefix, SHARD_DIRECTORY + "/" + ShardName(index))
  }

  function DigitsValue(s: string): int {
    if s == "" then 0 else 10 * DigitsValue(s[..|s| - 1]) + (s[|s| - 1] as int - '0' as int)
  }

  lemma {:induction false} PadKeepsValue(s: string)
    requires '/' !in s
    ensures DigitsValue(Pad5(s)) == DigitsValue(s) && '/' !in Pad5(s)
    decreases 5 - |s|
  {
    if |s| < 5 {
      LeadingZero(s);
      PadKeepsValue("0" + s);
    }
  }

  lemma {:induction false} LeadingZero(s: string)
    ensures DigitsValue("0" + s) == DigitsValue(s)
    decreases |s|
  {
    var t := "0" + s;
    if s == "" {
      assert t[..0] == "";
    } else {
      LeadingZero(s[..|s| - 1]);
      assert t[..|t| - 1] == "0" + s[..|s| - 1];
    }
  }

  lemma {:induction false} DecimalValue(n: nat)
    ensures DigitsValue(Decimal(n)) == n
  {
    if n < 10 {
      assert Decimal(n)[..0] == "";
    } else {
      DecimalValue(n / 10);
      assert Decimal(n)[..|Decimal(n)| - 1] == Decimal(n / 10);
    }
  }

  lemma ReservedNamesValid(i: nat)
    ensures ValidName(MANIFEST_NAME) && ValidName(BUNDLE_NAME) && ValidName(SHARD_DIRECTORY)
    ensures ValidName(ShardName(i))
  {
    PadKeepsValue(Decimal(i));
  }

  lemma NestedKey(prefix: string, a: string, b: string)
    requires ValidName(a) && ValidName(b)
    ensures KeyPath(prefix, BuildRemoteKey(prefix, a)) == Some([a])
    ensures KeyPath(prefix, BuildRemoteKey(prefix, a + "/" + b)) == Some([a, b])
    ensures prefix != "" ==> prefix + "/" <= BuildRemoteKey(prefix, a)
    ensures prefix != "" ==> prefix + "/" <= BuildRemoteKey(prefix, a + "/" + b)
  {
    var one: Path := [a];
    var two: Path := [a, b];
    assert two[1..] == [b];
    assert Join(two) == a + "/" + Join([b]) == a + "/" + b;
    KeyRoundTrip(prefix, one);
    KeyRoundTrip(prefix, two);
  }

  /** The manifest, the bundle and every shard sit at ignored paths, each at its own key. */
  lemma ReservedKeys(prefix: string, i: nat)
    ensures KeyPath(prefix, ManifestKey(prefix)) == Some([MANIFEST_NAME])
    ensures KeyPath(prefix, BundleKey(prefix)) == Some([BUNDLE_NAME])
    ensures KeyPath(prefix, ShardKey(prefix, i)) == Some([SHARD_DIRECTORY, ShardName(i)])
    ensures prefix != "" ==> prefix + "/" <= ManifestKey(prefix) && prefix + "/" <= ShardKey(prefix, i)
  {
    ReservedNamesValid(i);
    NestedKey(prefix, MANIFEST_NAME, MANIFEST_NAME);
    NestedKey(prefix, BUNDLE_NAME, BUNDLE_NAME);
    NestedKey(prefix, SHARD_DIRECTORY, ShardName(i));
  }

  lemma ShardKeysDistinct(prefix: string, i: nat, j: nat)
    requires ShardKey(prefix, i) == ShardKey(prefix, j)
    ensures i == j
  {
    ReservedKeys(prefix, i);
    ReservedKeys(prefix, j);
    assert [SHARD_DIRECTORY, ShardName(i)][1] == [SHARD_DIRECTORY, ShardName(j)][1];
    assert ShardName(i)[..|ShardName(i)| - 5] == Pad5(Decimal(i));
    assert ShardName(j)[..|ShardName(j)| - 5] == Pad5(Decimal(j));
    PadKeepsValue(Decimal(i));
    PadKeepsValue(Decimal(j));
    DecimalValue(i);
    DecimalValue(j);
  }
}
