/** The fingerprint of a directory (object-storage-local-snapshot.ts): the text that is hashed, and when
    equal texts mean equal directories. */
module Fingerprints {
  import opened Orders
  import opened Paths
  import opened Storage

  // ---- the text ---------------------------------------------------------------------------------------------

  /** A number in a template string. */
  function NumberText(n: int): string {
    if n < 0 then "-" + Decimal(-n) else Decimal(n)
  }

  function FileBody(p: Path, e: FileEntry): string {
    "file:" + Join(p) + ":" + NumberText(e.size) + ":" + NumberText(e.mtimeMs)
  }

  function DirBody(p: Path): string {
    "dir:" + Join(p)
  }

  function FileText(paths: seq<Path>, files: map<Path, FileEntry>): string
    requires forall p :: p in paths ==> p in files
  {
    if paths == [] then "" else FileBody(paths[0], files[paths[0]]) + "\n" + FileText(paths[1..], files)
  }

  function DirText(paths: seq<Path>): string {
    if paths == [] then "" else DirBody(paths[0]) + "\n" + DirText(paths[1..])
  }

  /** The text that is hashed: files in path order, then empty directories in path order. */
  ghost function Fingerprint(less: (Path, Path) -> bool, files: map<Path, FileEntry>, dirs: set<Path>): string
    requires StrictTotal(less)
  {
    SortedIn(less, files.Keys);
    FileText(Sorted(less, files.Keys), files) + DirText(Sorted(less, dirs))
  }

  lemma SortedIn(less: (Path, Path) -> bool, paths: set<Path>)
    requires StrictTotal(less)
    ensures forall p :: p in Sorted(less, paths) <==> p in paths
  {
    SortedLists(less, paths);
    forall p ensures p in Sorted(less, paths) <==> p in paths {
      assert p in Elements(Sorted(less, paths)) <==> p in Sorted(less, paths);
    }
  }

  /** `createDirectoryFingerprintFromEntries`; `createDirectoryFingerprint` runs the same loops. */
  method CreateFingerprint(less: (Path, Path) -> bool, files: map<Path, FileEntry>, dirs: set<Path>) returns (text: string)
    requires StrictTotal(less)
    ensures text == Fingerprint(less, files, dirs)
  {
    var fileText := HashFiles(less, files);
    var dirText := HashDirectories(less, dirs);
    text := fileText + dirText;
  }

  method HashFiles(less: (Path, Path) -> bool, files: map<Path, FileEntry>) returns (text: string)
    requires StrictTotal(less)
    ensures (forall p :: p in Sorted(less, files.Keys) ==> p in files) && text == FileText(Sorted(less, files.Keys), files)
  {
    var paths := Sort(less, files.Keys);
    SortedIn(less, files.Keys);
    text := "";
    var i := 0;
    while i < |paths|
      invariant 0 <= i <= |paths|
      invariant text + FileText(paths[i..], files) == FileText(paths, files)
    {
      assert paths[i..][1..] == paths[i + 1..];
      Regroup(text, FileBody(paths[i], files[paths[i]]) + "\n", FileText(paths[i + 1..], files));
      text := text + (FileBody(paths[i], files[paths[i]]) + "\n");
      i := i + 1;
    }
  }

  method HashDirectories(less: (Path, Path) -> bool, dirs: set<Path>) returns (text: string)
    requires StrictTotal(less)
    ensures text == DirText(Sorted(less, dirs))
  {
    var paths := Sort(less, dirs);
    text := "";
    var i := 0;
    while i < |paths|
      invariant 0 <= i <= |paths|
      invariant text + DirText(paths[i..]) == DirText(paths)
    {
      assert paths[i..][1..] == paths[i + 1..];
      Regroup(text, DirBody(paths[i]) + "\n", DirText(paths[i + 1..]));
      text := text + (DirBody(paths[i]) + "\n");
      i := i + 1;
    }
  }

  lemma Regroup(a: string, b: string, c: string)
    ensures a + (b + c) == (a + b) + c
  {
  }

  // ---- reading numbers and separators back ----------------------------------------------------------------------

  predicate IsDigit(c: char) {
    '0' <= c <= '9'
  }

  lemma {:induction false} DecimalDigits(n: nat)
    ensures forall c :: c in Decimal(n) ==> IsDigit(c)
  {
    if n >= 10 {
      DecimalDigits(n / 10);
    }
  }

  lemma NumberChars(n: int)
    ensures ':' !in NumberText(n) && '\n' !in NumberText(n) && '/' !in NumberText(n)
  {
    DecimalDigits(if n < 0 then -n else n);
  }

  lemma NumberInjective(m: int, n: int)
    requires NumberText(m) == NumberText(n)
    ensures m == n
  {
    var a: nat, b: nat := if m < 0 then -m else m, if n < 0 then -n else n;
    DecimalDigits(a);
    DecimalDigits(b);
    DecimalValue(a);
    DecimalValue(b);
    assert Decimal(a)[0] in Decimal(a) && Decimal(b)[0] in Decimal(b);
    if m < 0 { assert NumberText(m)[1..] == Decimal(a); }
    if n < 0 { assert NumberText(n)[1..] == Decimal(b); }
  }

  /** A text is cut in one way at the first separator. */
  lemma FirstSeparator(c: char, u: string, x: string, v: string, y: string)
    requires c !in u && c !in v && u + [c] + x == v + [c] + y
    ensures u == v && x == y
  {
    var s, t := u + [c] + x, v + [c] + y;
    assert s[|u|] == c && forall k :: 0 <= k < |u| ==> s[k] == u[k] != c;
    assert t[|v|] == c && forall k :: 0 <= k < |v| ==> t[k] == v[k] != c;
    assert |u| == |v|;
    assert u == s[..|u|] && v == t[..|v|];
    assert x == s[|u| + 1..] && y == t[|v| + 1..];
  }

  /** ... and in one way at the last. */
  lemma LastSeparator(c: char, x: string, u: string, y: string, v: string)
    requires c !in u && c !in v && x + [c] + u == y + [c] + v
    ensures u == v && x == y
  {
    var s, t := x + [c] + u, y + [c] + v;
    assert s[|x|] == c && forall k :: |x| < k < |s| ==> s[k] == u[k - |x| - 1] != c;
    assert t[|y|] == c && forall k :: |y| < k < |t| ==> t[k] == v[k - |y| - 1] != c;
    assert |x| == |y|;
    assert x == s[..|x|] && y == t[..|y|];
    assert u == s[|x| + 1..] && v == t[|y| + 1..];
  }

  lemma JoinInjective(p: Path, q: Path)
    requires Join(p) == Join(q)
    ensures p == q
  {
    if p != [] { SplitJoin(p); }
    if q != [] { SplitJoin(q); }
  }

  lemma FileBodyInjective(p: Path, e: FileEntry, q: Path, d: FileEntry)
    requires FileBody(p, e) == FileBody(q, d)
    ensures p == q && e == d
  {
    NumberChars(e.size);
    NumberChars(e.mtimeMs);
    NumberChars(d.size);
    NumberChars(d.mtimeMs);
    LastSeparator(':', "file:" + Join(p) + ":" + NumberText(e.size), NumberText(e.mtimeMs), "file:" + Join(q) + ":" + NumberText(d.size), NumberText(d.mtimeMs));
    LastSeparator(':', "file:" + Join(p), NumberText(e.size), "file:" + Join(q), NumberText(d.size));
    Behind("file:", Join(p), Join(q));
    JoinInjective(p, q);
    NumberInjective(e.size, d.size);
    NumberInjective(e.mtimeMs, d.mtimeMs);
  }

  lemma Behind(a: string, x: string, y: string)
    requires a + x == a + y
    ensures x == y
  {
    assert x == (a + x)[|a|..] && y == (a + y)[|a|..];
  }

  lemma DirBodyInjective(p: Path, q: Path)
    requires DirBody(p) == DirBody(q)
    ensures p == q
  {
    Behind("dir:", Join(p), Join(q));
    JoinInjective(p, q);
  }

  // ---- names without line breaks ------------------------------------------------------------------------------------

  predicate OneLine(p: Path) {
    '\n' !in Join(p)
  }

  ghost predicate AllOneLine(paths: set<Path>) {
    forall p :: p in paths ==> OneLine(p)
  }

  lemma OneLineBodies(p: Path, e: FileEntry)
    requires OneLine(p)
    ensures '\n' !in FileBody(p, e) && '\n' !in DirBody(p)
  {
    NumberChars(e.size);
    NumberChars(e.mtimeMs);
  }

  lemma {:induction false} DirTextInjective(a: seq<Path>, b: seq<Path>)
    requires forall p :: p in a || p in b ==> OneLine(p)
    requires DirText(a) == DirText(b)
    ensures a == b
  {
    if a != [] && b != [] {
      OneLineBodies(a[0], FileEntry(0, 0));
      OneLineBodies(b[0], FileEntry(0, 0));
      FirstSeparator('\n', DirBody(a[0]), DirText(a[1..]), DirBody(b[0]), DirText(b[1..]));
      DirBodyInjective(a[0], b[0]);
      DirTextInjective(a[1..], b[1..]);
      assert a == [a[0]] + a[1..] && b == [b[0]] + b[1..];
    }
  }

  /** What a fingerprint text begins with. */
  lemma TextBegins(a: seq<Path>, f: map<Path, FileEntry>, c: seq<Path>)
    requires forall p :: p in a ==> p in f
    ensures a != [] ==> FileText(a, f) + DirText(c) != "" && (FileText(a, f) + DirText(c))[0] == 'f'
    ensures a == [] && c != [] ==> FileText(a, f) + DirText(c) != "" && (FileText(a, f) + DirText(c))[0] == 'd'
  {
  }

  ghost predicate SameEntries(a: seq<Path>, f: map<Path, FileEntry>, g: map<Path, FileEntry>) {
    forall p :: p in a ==> p in f && p in g && f[p] == g[p]
  }

  ghost predicate Listed(a: seq<Path>, f: map<Path, FileEntry>) {
    forall p :: p in a ==> p in f && OneLine(p)
  }

  lemma {:induction false} TextInjective(a: seq<Path>, f: map<Path, FileEntry>, c: seq<Path>,
                                         b: seq<Path>, g: map<Path, FileEntry>, d: seq<Path>)
    requires Listed(a, f) && Listed(b, g) && forall p :: p in c || p in d ==> OneLine(p)
    requires FileText(a, f) + DirText(c) == FileText(b, g) + DirText(d)
    ensures a == b && c == d && SameEntries(a, f, g)
    decreases |a|
  {
    if a == [] || b == [] {
      NoFiles(a, f, c, b, g, d);
      DirTextInjective(c, d);
    } else {
      FirstLine(a, f, c, b, g, d);
      TextInjective(a[1..], f, c, b[1..], g, d);
      SameHeadAndTail(a, b, f, g);
    }
  }

  lemma SameHeadAndTail(a: seq<Path>, b: seq<Path>, f: map<Path, FileEntry>, g: map<Path, FileEntry>)
    requires a != [] && b != [] && a[0] == b[0] && a[1..] == b[1..]
    requires a[0] in f && a[0] in g && f[a[0]] == g[a[0]] && SameEntries(a[1..], f, g)
    ensures a == b && SameEntries(a, f, g)
  {
    assert a == [a[0]] + a[1..] && b == [b[0]] + b[1..];
  }

  lemma NoFiles(a: seq<Path>, f: map<Path, FileEntry>, c: seq<Path>, b: seq<Path>, g: map<Path, FileEntry>, d: seq<Path>)
    requires (forall p :: p in a ==> p in f) && (forall p :: p in b ==> p in g) && (a == [] || b == [])
    requires FileText(a, f) + DirText(c) == FileText(b, g) + DirText(d)
    ensures a == [] && b == [] && DirText(c) == DirText(d)
  {
    TextBegins(a, f, c);
    TextBegins(b, g, d);
    assert "" + DirText(c) == DirText(c) && "" + DirText(d) == DirText(d);
  }

  lemma FirstLine(a: seq<Path>, f: map<Path, FileEntry>, c: seq<Path>, b: seq<Path>, g: map<Path, FileEntry>, d: seq<Path>)
    requires a != [] && b != []
    requires (forall p :: p in a ==> p in f) && (forall p :: p in b ==> p in g) && OneLine(a[0]) && OneLine(b[0])
    requires FileText(a, f) + DirText(c) == FileText(b, g) + DirText(d)
    ensures a[0] == b[0] && f[a[0]] == g[b[0]]
    ensures FileText(a[1..], f) + DirText(c) == FileText(b[1..], g) + DirText(d)
  {
    var u, v := FileBody(a[0], f[a[0]]), FileBody(b[0], g[b[0]]);
    OneLineBodies(a[0], f[a[0]]);
    OneLineBodies(b[0], g[b[0]]);
    Regroup(u + "\n", FileText(a[1..], f), DirText(c));
    Regroup(v + "\n", FileText(b[1..], g), DirText(d));
    FirstSeparator('\n', u, FileText(a[1..], f) + DirText(c), v, FileText(b[1..], g) + DirText(d));
    FileBodyInjective(a[0], f[a[0]], b[0], g[b[0]]);
  }

  /** When no path holds a line break, two directories have the same text if and only if they have the same
      stamps and the same empty directories. */
  lemma FingerprintInjective(less: (Path, Path) -> bool, f: map<Path, FileEntry>, d: set<Path>, g: map<Path, FileEntry>, e: set<Path>)
    requires StrictTotal(less)
    requires AllOneLine(f.Keys) && AllOneLine(d) && AllOneLine(g.Keys) && AllOneLine(e)
    ensures Fingerprint(less, f, d) == Fingerprint(less, g, e) <==> f == g && d == e
  {
    if Fingerprint(less, f, d) == Fingerprint(less, g, e) {
      SortedIn(less, f.Keys);
      SortedIn(less, g.Keys);
      SortedIn(less, d);
      SortedIn(less, e);
      TextInjective(Sorted(less, f.Keys), f, Sorted(less, d), Sorted(less, g.Keys), g, Sorted(less, e));
      SameBySorted(less, f, g);
      forall p ensures p in d <==> p in e {
        assert p in Sorted(less, d) <==> p in Sorted(less, e);
      }
    }
  }

  lemma SameBySorted(less: (Path, Path) -> bool, f: map<Path, FileEntry>, g: map<Path, FileEntry>)
    requires StrictTotal(less) && Sorted(less, f.Keys) == Sorted(less, g.Keys) && SameEntries(Sorted(less, f.Keys), f, g)
    ensures f == g
  {
    SortedIn(less, f.Keys);
    SortedIn(less, g.Keys);
    forall p ensures p in f <==> p in g ensures p in f ==> f[p] == g[p] {
      assert p in Sorted(less, f.Keys) <==> p in f;
      assert p in Sorted(less, g.Keys) <==> p in g;
    }
  }

  /** A name that spells out one file's line and the beginning of another's. */
  function OddName(x: string, d: FileEntry, y: string): string {
    x + ":" + NumberText(d.size) + ":" + NumberText(d.mtimeMs) + "\n" + "file:" + y
  }

  lemma OddNameValid(x: string, d: FileEntry, y: string)
    requires ValidName(x) && ValidName(y)
    ensures ValidName(OddName(x, d, y))
  {
    NumberChars(d.size);
    NumberChars(d.mtimeMs);
  }

  /** With a line break in a name two directories can have one text: any two files of the root, and the one
      file with their odd name. */
  lemma FingerprintsCollide(less: (Path, Path) -> bool, x: string, d: FileEntry, y: string, e: FileEntry)
    requires StrictTotal(less) && ValidName(x) && ValidName(y) && less([x], [y])
    ensures ValidName(OddName(x, d, y))
    ensures var odd: Path := [OddName(x, d, y)];
      var a: Path, b: Path := [x], [y];
      Fingerprint(less, map[odd := e], {}) == Fingerprint(less, map[a := d, b := e], {})
  {
    OddNameValid(x, d, y);
    var odd: Path, a: Path, b: Path := [OddName(x, d, y)], [x], [y];
    var one, two := map[odd := e], map[a := d, b := e];
    assert one.Keys == {odd} && two.Keys == {a, b} && a != b;
    SortedOne(less, odd);
    SortedPair(less, a, b);
    OneFileText(odd, one);
    TwoFileText(a, b, two);
    OddBody(x, d, y, e);
  }

  lemma OneFileText(p: Path, files: map<Path, FileEntry>)
    requires p in files
    ensures FileText([p], files) == FileBody(p, files[p]) + "\n"
  {
    assert [p][1..] == [];
    assert FileText([p], files) == FileBody(p, files[p]) + "\n" + "";
  }

  lemma TwoFileText(p: Path, q: Path, files: map<Path, FileEntry>)
    requires p in files && q in files
    ensures FileText([p, q], files) == FileBody(p, files[p]) + "\n" + (FileBody(q, files[q]) + "\n")
  {
    assert [p, q][1..] == [q];
    OneFileText(q, files);
  }

  lemma OddBody(x: string, d: FileEntry, y: string, e: FileEntry)
    requires ValidName(x) && ValidName(y) && ValidName(OddName(x, d, y))
    ensures FileBody([OddName(x, d, y)], e) + "\n" == FileBody([x], d) + "\n" + (FileBody([y], e) + "\n")
  {
  }

  // ---- the same paths and sizes ---------------------------------------------------------------------------------------

  ghost predicate SameSizes(f: map<Path, FileEntry>, g: map<Path, FileEntry>) {
    f.Keys == g.Keys && forall p :: p in f ==> f[p].size == g[p].size
  }

  /** Whatever the names, a text tells two directories with the same paths and sizes apart by their times. */
  lemma TimesInjective(less: (Path, Path) -> bool, f: map<Path, FileEntry>, g: map<Path, FileEntry>, d: set<Path>)
    requires StrictTotal(less) && SameSizes(f, g)
    ensures Fingerprint(less, f, d) == Fingerprint(less, g, d) <==> f == g
  {
    SortedIn(less, f.Keys);
    if Fingerprint(less, f, d) == Fingerprint(less, g, d) {
      var paths, tail := Sorted(less, f.Keys), DirText(Sorted(less, d));
      SameTimes(paths, f, g, tail, tail);
      SameBySorted(less, f, g);
    }
  }

  lemma {:induction false} SameTimes(paths: seq<Path>, f: map<Path, FileEntry>, g: map<Path, FileEntry>, x: string, y: string)
    requires SameSizes(f, g) && forall p :: p in paths ==> p in f
    requires FileText(paths, f) + x == FileText(paths, g) + y
    ensures SameEntries(paths, f, g)
  {
    if paths != [] {
      var p, rest := paths[0], paths[1..];
      SameTime(p, f[p], g[p], FileText(rest, f) + x, FileText(rest, g) + y) by {
        Regroup(FileBody(p, f[p]) + "\n", FileText(rest, f), x);
        Regroup(FileBody(p, g[p]) + "\n", FileText(rest, g), y);
      }
      SameTimes(rest, f, g, x, y);
    }
  }

  lemma SameTime(p: Path, e: FileEntry, d: FileEntry, x: string, y: string)
    requires e.size == d.size && FileBody(p, e) + "\n" + x == FileBody(p, d) + "\n" + y
    ensures e == d && x == y
  {
    var front := "file:" + Join(p) + ":" + NumberText(e.size) + ":";
    NumberChars(e.mtimeMs);
    NumberChars(d.mtimeMs);
    assert FileBody(p, e) + "\n" + x == front + (NumberText(e.mtimeMs) + "\n" + x);
    assert FileBody(p, d) + "\n" + y == front + (NumberText(d.mtimeMs) + "\n" + y);
    Behind(front, NumberText(e.mtimeMs) + "\n" + x, NumberText(d.mtimeMs) + "\n" + y);
    FirstSeparator('\n', NumberText(e.mtimeMs), x, NumberText(d.mtimeMs), y);
    NumberInjective(e.mtimeMs, d.mtimeMs);
  }
}
