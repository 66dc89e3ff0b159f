/** Pruning exported archive bundles and their checksums (workspace-archive-export-files.ts). */
module Pruning {
  import opened Options
  import opened Orders

  datatype Entry = FileOf(size: nat) | Subdirectory

  type Directory = map<string, Entry>

  // ---- names -----------------------------------------------------------------------------------------------------

  predicate IsDigit(c: char) {
    '0' <= c <= '9'
  }

  predicate IsDate(s: string) {
    && |s| == 10 && s[4] == '-' && s[7] == '-'
    && forall i :: 0 <= i < 10 && i != 4 && i != 7 ==> IsDigit(s[i])
  }

  const BUNDLE_SUFFIX := ".sqlite"
  const CHECKSUM_SUFFIX := ".sha256"

  predicate IsBundleName(name: string) {
    |name| == 17 && IsDate(name[..10]) && name[10..] == BUNDLE_SUFFIX
  }

  predicate IsChecksumName(name: string) {
    |name| == 24 && IsBundleName(name[..17]) && name[17..] == CHECKSUM_SUFFIX
  }

  function ChecksumOf(bundle: string): string {
    bundle + CHECKSUM_SUFFIX
  }

  /** The first ten characters of either kind of name. */
  function DateOf(name: string): string
    requires IsBundleName(name) || IsChecksumName(name)
  {
    name[..10]
  }

  /** `<` on strings. */
  predicate Earlier(a: string, b: string) {
    b != [] && (a == [] || a[0] < b[0] || (a[0] == b[0] && Earlier(a[1..], b[1..])))
  }

  predicate IsFile(entries: Directory, name: string) {
    name in entries && entries[name].FileOf?
  }

  // ---- the choice ---------------------------------------------------------------------------------------------------

  function Removable(entries: Directory, before: string): set<string> {
    set name | name in entries && entries[name].FileOf? && IsBundleName(name) && Earlier(DateOf(name), before)
  }

  function Orphans(entries: Directory, before: string, bundles: set<string>): set<string> {
    set name | name in entries && entries[name].FileOf? && IsChecksumName(name) && Earlier(DateOf(name), before) && name[..17] !in bundles
  }

  function Prefix(s: seq<string>, limit: int): seq<string> {
    if limit <= 0 then [] else if limit < |s| then s[..limit] else s
  }

  ghost function Chosen(less: (string, string) -> bool, entries: Directory, before: string, limit: int): seq<string>
    requires StrictTotal(less)
  {
    Prefix(Sorted(less, Removable(entries, before)), limit)
  }

  function Checksums(names: set<string>): set<string> {
    set n | n in names :: ChecksumOf(n)
  }

  ghost function ChosenOrphans(less: (string, string) -> bool, entries: Directory, before: string, limit: int): seq<string>
    requires StrictTotal(less)
  {
    var chosen := Chosen(less, entries, before, limit);
    Prefix(Sorted(less, Orphans(entries, before, Elements(chosen))), limit - |chosen|)
  }

  /** What is left. */
  ghost function Pruned(less: (string, string) -> bool, entries: Directory, before: string, limit: int): Directory
    requires StrictTotal(less)
  {
    var bundles := Elements(Chosen(less, entries, before, limit));
    entries - bundles - Checksums(bundles) - Elements(ChosenOrphans(less, entries, before, limit))
  }

  /** A checksum name that turns out to be a directory makes the removal throw. */
  ghost predicate CanPrune(less: (string, string) -> bool, entries: Directory, before: string, limit: int)
    requires StrictTotal(less)
  {
    NoneRefused(entries, Chosen(less, entries, before, limit))
  }

  // ---- sizes ----------------------------------------------------------------------------------------------------------

  function SizeOf(e: Entry): nat {
    match e case FileOf(size) => size case Subdirectory => 0
  }

  ghost function Pick(m: Directory): string
    requires m != map[]
  {
    var k :| k in m; k
  }

  ghost function TotalSize(m: Directory): nat
    decreases |m|
  {
    if m == map[] then 0
    else
      var k := Pick(m);
      SizeOf(m[k]) + TotalSize(m - {k})
  }

  /** Removing one entry takes away its size. */
  lemma {:induction false} TotalWithout(m: Directory, k: string)
    requires k in m
    ensures TotalSize(m) == SizeOf(m[k]) + TotalSize(m - {k}) && |m| == |m - {k}| + 1
    decreases |m|
  {
    var h := Pick(m);
    if h != k {
      TotalWithout(m - {h}, k);
      assert m - {h} - {k} == m - {k} - {h};
      TotalWithout(m - {k}, h);
    }
    assert m == (m - {k})[k := m[k]];
  }

  // ---- the directory ------------------------------------------------------------------------------------------------------

  datatype Removal = Removed(size: nat) | Missing | Refused

  datatype Summary = Summary(bundles: nat, checksums: nat, bytes: nat)

  class ExportDirectory {
    var entries: Directory

    constructor ()
      ensures entries == map[]
    {
      entries := map[];
    }

    /** `removeArchiveExportFile`. */
    method RemoveFile(name: string) returns (r: Removal)
      modifies this
      ensures r == if name !in old(entries) then Missing else if old(entries)[name].FileOf? then Removed(old(entries)[name].size) else Refused
      ensures entries == if r.Removed? then old(entries) - {name} else old(entries)
    {
      if name !in entries {
        return Missing;
      }
      if entries[name].Subdirectory? {
        return Refused;
      }
      r := Removed(entries[name].size);
      entries := entries - {name};
    }

    /** One chosen bundle and its checksum. */
    method RemoveBundle(bundle: string) returns (ok: bool, s: Summary)
      requires IsFile(entries, bundle)
      modifies this
      ensures ok <==> !(ChecksumOf(bundle) in old(entries) && old(entries)[ChecksumOf(bundle)].Subdirectory?)
      ensures ok ==> entries == old(entries) - {bundle, ChecksumOf(bundle)}
      ensures ok ==> s.bundles == 1 && Tallied(old(entries), entries, s)
    {
      assert |ChecksumOf(bundle)| != |bundle|;
      TotalWithout(entries, bundle);
      ghost var before := entries;
      var first := RemoveFile(bundle);
      ghost var middle := entries;
      var name := ChecksumOf(bundle);
      if name in entries { TotalWithout(entries, name); }
      var second := RemoveFile(name);
      match second {
        case Refused => return false, Summary(1, 0, first.size);
        case Missing => s := Summary(1, 0, first.size);
        case Removed(size) => s := Summary(1, 1, first.size + size);
      }
      assert entries == before - {bundle, name};
      ok := true;
    }

    method RemoveNext(ghost before: Directory, chosen: seq<string>, i: nat, s0: Summary) returns (ok: bool, s: Summary)
      requires i < |chosen| && DistinctBundles(before, chosen) && Halfway(before, entries, chosen, i, s0)
      modifies this
      ensures !ok ==> !NoneRefused(before, chosen)
      ensures ok ==> Halfway(before, entries, chosen, i + 1, s)
    {
      NextBundle(before, chosen, i);
      RefusedSnoc(before, chosen, i);
      ghost var now := entries;
      var part;
      ok, part := RemoveBundle(chosen[i]);
      s := s0;
      if ok {
        TallyAdds(before, now, entries, s0, part);
        s := Plus(s0, part);
      }
    }

    /** The loop over the chosen bundles. */
    method RemoveBundles(chosen: seq<string>) returns (ok: bool, s: Summary)
      requires DistinctBundles(entries, chosen)
      modifies this
      ensures ok <==> NoneRefused(old(entries), chosen)
      ensures ok ==> entries == Without(old(entries), Elements(chosen)) && s.bundles == |chosen|
      ensures ok ==> Tallied(old(entries), entries, s)
    {
      ghost var before := entries;
      s := Summary(0, 0, 0);
      var i := 0;
      NothingYet(before, chosen);
      while i < |chosen|
        invariant 0 <= i <= |chosen|
        invariant Halfway(before, entries, chosen, i, s)
      {
        ok, s := RemoveNext(before, chosen, i, s);
        if !ok {
          return;
        }
        i := i + 1;
      }
      AllRemoved(before, entries, chosen, s);
      return true, s;
    }

    /** The loop over the orphaned checksums. */
    method RemoveOrphans(orphans: seq<string>) returns (s: Summary)
      requires DistinctFiles(entries, orphans)
      modifies this
      ensures entries == old(entries) - Elements(orphans) && s.bundles == 0
      ensures Tallied(old(entries), entries, s)
    {
      ghost var before := entries;
      s := Summary(0, 0, 0);
      var i := 0;
      assert orphans[..0] == [] && Elements<string>([]) == {};
      while i < |orphans|
        invariant 0 <= i <= |orphans| && s.bundles == 0
        invariant entries == before - Elements(orphans[..i])
        invariant |before| == |entries| + s.checksums
        invariant TotalSize(before) == TotalSize(entries) + s.bytes
      {
        NextOrphan(before, orphans, i);
        TotalWithout(entries, orphans[i]);
        var removed := RemoveFile(orphans[i]);
        s := Summary(0, s.checksums + 1, s.bytes + removed.size);
        i := i + 1;
      }
      assert orphans[..i] == orphans;
    }

    method PruneOrphans(less: (string, string) -> bool, names: set<string>, slots: int) returns (s: Summary)
      requires StrictTotal(less) && DistinctFiles(entries, Prefix(Sorted(less, names), slots))
      modifies this
      ensures entries == old(entries) - Elements(Prefix(Sorted(less, names), slots)) && s.bundles == 0
      ensures Tallied(old(entries), entries, s)
    {
      s := Summary(0, 0, 0);
      if slots <= 0 {
        assert entries == entries - Elements<string>([]);
        return;
      }
      var sortedNames := Sort(less, names);
      s := RemoveOrphans(Prefix(sortedNames, slots));
    }

    /** `pruneArchiveExportBundles`; `None` when a removal throws. */
    method Prune(less: (string, string) -> bool, before: string, limit: int) returns (r: Option<Summary>)
      requires StrictTotal(less)
      modifies this
      ensures r.Some? <==> CanPrune(less, old(entries), before, limit)
      ensures r.Some? ==> entries == Pruned(less, old(entries), before, limit)
      ensures r.Some? ==> r.value.bundles == |Chosen(less, old(entries), before, limit)| && Tallied(old(entries), entries, r.value)
    {
      ghost var listing := entries;
      var removable := Sort(less, Removable(entries, before));
      var chosen := Prefix(removable, limit);
      ChosenAreDistinct(less, entries, before, limit);
      var orphanNames := Orphans(entries, before, Elements(chosen));
      var ok, first := RemoveBundles(chosen);
      if !ok {
        return None;
      }
      ghost var now := entries;
      var slots := limit - first.bundles;
      OrphansReady(less, listing, before, limit, chosen, now, orphanNames, slots);
      var second := PruneOrphans(less, orphanNames, slots);
      TallyAdds(listing, now, entries, first, second);
      return Some(Plus(first, second));
    }
  }

  function Plus(a: Summary, b: Summary): Summary {
    Summary(a.bundles + b.bundles, a.checksums + b.checksums, a.bytes + b.bytes)
  }

  /** The counts are exactly what disappeared. */
  ghost predicate Tallied(before: Directory, now: Directory, s: Summary) {
    |before| == |now| + s.bundles + s.checksums && TotalSize(before) == TotalSize(now) + s.bytes
  }

  lemma TallyAdds(before: Directory, middle: Directory, now: Directory, a: Summary, b: Summary)
    requires Tallied(before, middle, a) && Tallied(middle, now, b)
    ensures Tallied(before, now, Plus(a, b))
  {
  }

  /** The first `i` bundles are gone with their checksums. */
  ghost predicate Halfway(before: Directory, now: Directory, chosen: seq<string>, i: nat, s: Summary)
    requires i <= |chosen|
  {
    && now == Without(before, Elements(chosen[..i])) && s.bundles == i
    && Tallied(before, now, s) && NoneRefused(before, chosen[..i])
  }

  lemma AllRemoved(before: Directory, now: Directory, chosen: seq<string>, s: Summary)
    requires Halfway(before, now, chosen, |chosen|, s)
    ensures now == Without(before, Elements(chosen)) && s.bundles == |chosen|
    ensures Tallied(before, now, s) && NoneRefused(before, chosen)
  {
    assert chosen[..|chosen|] == chosen;
  }

  ghost predicate NoneRefused(entries: Directory, bundles: seq<string>) {
    forall b :: b in bundles ==> !(ChecksumOf(b) in entries && entries[ChecksumOf(b)].Subdirectory?)
  }

  lemma RefusedSnoc(entries: Directory, bundles: seq<string>, i: nat)
    requires i < |bundles|
    ensures NoneRefused(entries, bundles[..i + 1])
       <==> NoneRefused(entries, bundles[..i]) && !(ChecksumOf(bundles[i]) in entries && entries[ChecksumOf(bundles[i])].Subdirectory?)
    ensures NoneRefused(entries, bundles) ==> NoneRefused(entries, bundles[..i + 1])
  {
    assert bundles[..i + 1] == bundles[..i] + [bundles[i]];
  }

  lemma NothingYet(before: Directory, names: seq<string>)
    ensures Without(before, Elements(names[..0])) == before && NoneRefused(before, names[..0]) && Tallied(before, before, Summary(0, 0, 0))
  {
    assert Elements(names[..0]) == {} && Checksums({}) == {};
  }

  function Without(entries: Directory, bundles: set<string>): Directory {
    entries - bundles - Checksums(bundles)
  }

  /** File entries, no name twice. */
  ghost predicate DistinctFiles(entries: Directory, names: seq<string>) {
    && (forall i :: 0 <= i < |names| ==> IsFile(entries, names[i]))
    && (forall i, j :: 0 <= i < j < |names| ==> names[i] != names[j])
  }

  ghost predicate DistinctBundles(entries: Directory, names: seq<string>) {
    DistinctFiles(entries, names) && forall n :: n in names ==> |n| == 17
  }

  lemma ElementsSnoc(names: seq<string>, i: nat)
    requires i < |names|
    ensures Elements(names[..i + 1]) == Elements(names[..i]) + {names[i]}
  {
    assert names[..i + 1] == names[..i] + [names[i]];
  }

  lemma ChecksumsSnoc(names: seq<string>, i: nat)
    requires i < |names|
    ensures Checksums(Elements(names[..i + 1])) == Checksums(Elements(names[..i])) + {ChecksumOf(names[i])}
  {
    ElementsSnoc(names, i);
  }

  lemma ChecksumOfInjective(a: string, b: string)
    ensures ChecksumOf(a) == ChecksumOf(b) ==> a == b
  {
    if ChecksumOf(a) == ChecksumOf(b) {
      assert ChecksumOf(a)[..|a|] == a && ChecksumOf(b)[..|b|] == b;
    }
  }

  /** The next bundle and its checksum are untouched so far. */
  lemma NextBundle(before: Directory, chosen: seq<string>, i: nat)
    requires i < |chosen| && DistinctBundles(before, chosen)
    ensures var now := Without(before, Elements(chosen[..i]));
      && IsFile(now, chosen[i])
      && (ChecksumOf(chosen[i]) in now <==> ChecksumOf(chosen[i]) in before)
      && (ChecksumOf(chosen[i]) in now ==> now[ChecksumOf(chosen[i])] == before[ChecksumOf(chosen[i])])
      && Without(before, Elements(chosen[..i + 1])) == now - {chosen[i], ChecksumOf(chosen[i])}
  {
    ElementsSnoc(chosen, i);
    ChecksumsSnoc(chosen, i);
    forall n | n in Elements(chosen[..i]) ensures n != chosen[i] && ChecksumOf(n) != chosen[i] && ChecksumOf(n) != ChecksumOf(chosen[i]) && n != ChecksumOf(chosen[i]) {
      var k :| 0 <= k < i && chosen[..i][k] == n;
      assert chosen[k] == n && chosen[k] in chosen && chosen[i] in chosen;
      ChecksumOfInjective(n, chosen[i]);
    }
  }

  lemma NextOrphan(before: Directory, orphans: seq<string>, i: nat)
    requires i < |orphans| && DistinctFiles(before, orphans)
    ensures IsFile(before - Elements(orphans[..i]), orphans[i])
    ensures before - Elements(orphans[..i + 1]) == before - Elements(orphans[..i]) - {orphans[i]}
  {
    ElementsSnoc(orphans, i);
  }

  lemma PrefixOfSorted(less: (string, string) -> bool, names: set<string>, limit: int)
    requires StrictTotal(less)
    ensures var s := Prefix(Sorted(less, names), limit);
      && (forall n :: n in s ==> n in names)
      && (forall i, j :: 0 <= i < j < |s| ==> less(s[i], s[j]) && s[i] != s[j])
      && |s| <= (if limit > 0 then limit else 0)
      && (|s| < limit ==> Elements(s) == names)
      && (forall m, n :: m in s && n in names && n !in s ==> less(m, n))
  {
    SortedLists(less, names);
    var all, s := Sorted(less, names), Prefix(Sorted(less, names), limit);
    PrefixOf(all, limit);
    forall n | n in s ensures n in names {
      assert n in Elements(all);
    }
    forall m, n | m in s && n in names && n !in s ensures less(m, n) {
      PrefixComesFirst(less, all, limit, m, n);
    }
  }

  lemma PrefixOf(all: seq<string>, limit: int)
    ensures var s := Prefix(all, limit);
      && |s| <= |all| && (forall k :: 0 <= k < |s| ==> s[k] == all[k]) && (|s| < limit ==> s == all)
  {
  }

  lemma PrefixComesFirst(less: (string, string) -> bool, all: seq<string>, limit: int, m: string, n: string)
    requires Ascending(less, all) && m in Prefix(all, limit) && n in Elements(all) && n !in Prefix(all, limit)
    ensures less(m, n)
  {
    var s := Prefix(all, limit);
    PrefixOf(all, limit);
    var i :| 0 <= i < |s| && s[i] == m;
    var j :| 0 <= j < |all| && all[j] == n;
    assert forall k :: 0 <= k < |s| ==> s[k] in s;
  }

  lemma ChosenAreDistinct(less: (string, string) -> bool, entries: Directory, before: string, limit: int)
    requires StrictTotal(less)
    ensures DistinctBundles(entries, Chosen(less, entries, before, limit))
  {
    PrefixOfSorted(less, Removable(entries, before), limit);
    var names := Chosen(less, entries, before, limit);
    forall i | 0 <= i < |names| ensures IsFile(entries, names[i]) {
      assert names[i] in names;
    }
  }

  lemma OrphansAreDistinct(less: (string, string) -> bool, entries: Directory, before: string, limit: int)
    requires StrictTotal(less)
    ensures DistinctFiles(Without(entries, Elements(Chosen(less, entries, before, limit))), ChosenOrphans(less, entries, before, limit))
  {
    var chosen := Elements(Chosen(less, entries, before, limit));
    ChosenAreDistinct(less, entries, before, limit);
    PrefixOfSorted(less, Orphans(entries, before, chosen), limit - |Chosen(less, entries, before, limit)|);
    var names := ChosenOrphans(less, entries, before, limit);
    forall i | 0 <= i < |names| ensures IsFile(Without(entries, chosen), names[i]) {
      assert names[i] in names;
      OrphanIsNoChecksum(names[i], chosen);
    }
  }

  lemma OrphansReady(less: (string, string) -> bool, listing: Directory, before: string, limit: int, chosen: seq<string>,
                     now: Directory, names: set<string>, slots: int)
    requires StrictTotal(less) && chosen == Chosen(less, listing, before, limit) && now == Without(listing, Elements(chosen))
    requires names == Orphans(listing, before, Elements(chosen)) && slots == limit - |chosen|
    ensures DistinctFiles(now, Prefix(Sorted(less, names), slots))
    ensures now - Elements(Prefix(Sorted(less, names), slots)) == Pruned(less, listing, before, limit)
  {
    OrphansAreDistinct(less, listing, before, limit);
  }

  lemma OrphanIsNoChecksum(name: string, bundles: set<string>)
    requires |name| == 24 && name[..17] !in bundles && forall b :: b in bundles ==> |b| == 17
    ensures name !in bundles && name !in Checksums(bundles)
  {
    forall b | b in bundles ensures ChecksumOf(b) != name {
      assert ChecksumOf(b)[..17] == b;
    }
  }

  // ---- what pruning promises ---------------------------------------------------------------------------------------------

  /** A dated file of either kind from before the cutoff. */
  predicate Expired(entries: Directory, name: string, before: string) {
    IsFile(entries, name) && (IsBundleName(name) || IsChecksumName(name)) && Earlier(DateOf(name), before)
  }

  lemma ChecksumIsDated(bundle: string)
    requires IsBundleName(bundle)
    ensures IsChecksumName(ChecksumOf(bundle)) && DateOf(ChecksumOf(bundle)) == DateOf(bundle)
  {
    assert ChecksumOf(bundle)[..17] == bundle && ChecksumOf(bundle)[17..] == CHECKSUM_SUFFIX;
  }

  /** Only dated files before the cutoff disappear; everything that stays is as it was. */
  lemma OnlyExpiredRemoved(less: (string, string) -> bool, entries: Directory, before: string, limit: int, name: string)
    requires StrictTotal(less) && CanPrune(less, entries, before, limit) && name in entries
    ensures var left := Pruned(less, entries, before, limit);
      (name !in left ==> Expired(entries, name, before)) && (name in left ==> left[name] == entries[name])
  {
    var chosen, orphans := Chosen(less, entries, before, limit), ChosenOrphans(less, entries, before, limit);
    PrefixOfSorted(less, Removable(entries, before), limit);
    PrefixOfSorted(less, Orphans(entries, before, Elements(chosen)), limit - |chosen|);
    if name in Checksums(Elements(chosen)) {
      var b :| b in Elements(chosen) && ChecksumOf(b) == name;
      ChecksumIsDated(b);
    }
  }

  /** At most `limit` bundles go, and they are the first in order. */
  lemma FirstBundlesGo(less: (string, string) -> bool, entries: Directory, before: string, limit: int)
    requires StrictTotal(less)
    ensures var chosen := Chosen(less, entries, before, limit);
      && |chosen| <= (if limit > 0 then limit else 0)
      && (forall a, b :: a in chosen && b in Removable(entries, before) && b !in chosen ==> less(a, b))
      && (|chosen| < limit ==> Elements(chosen) == Removable(entries, before))
  {
    PrefixOfSorted(less, Removable(entries, before), limit);
  }

  /** An order in which bundles of earlier dates come first, as `localeCompare` puts dates written in digits. */
  ghost predicate DateOrder(less: (string, string) -> bool) {
    StrictTotal(less) && forall a, b :: DatedEarlier(a, b) ==> less(a, b)
  }

  predicate DatedEarlier(a: string, b: string) {
    IsBundleName(a) && IsBundleName(b) && Earlier(DateOf(a), DateOf(b))
  }

  /** The bundles that go are older than every expired bundle that stays. */
  lemma OldestBundlesGo(less: (string, string) -> bool, entries: Directory, before: string, limit: int, gone: string, left: string)
    requires DateOrder(less)
    requires gone in Chosen(less, entries, before, limit)
    requires left in Removable(entries, before) && left !in Chosen(less, entries, before, limit)
    ensures DatedEarlier(gone, left)
  {
    FirstBundlesGo(less, entries, before, limit);
    PrefixOfSorted(less, Removable(entries, before), limit);
    assert less(gone, left);
    assert gone == DateOf(gone) + BUNDLE_SUFFIX && left == DateOf(left) + BUNDLE_SUFFIX;
    assert DateOf(gone) != DateOf(left);
    OneIsEarlier(DateOf(gone), DateOf(left));
    assert DatedEarlier(left, gone) ==> less(left, gone);
  }

  lemma {:induction false} OneIsEarlier(a: string, b: string)
    ensures a == b || Earlier(a, b) || Earlier(b, a)
    ensures !(Earlier(a, b) && Earlier(b, a)) && !Earlier(a, a)
    decreases |a|
  {
    if a != [] && b != [] {
      assert a == [a[0]] + a[1..] && b == [b[0]] + b[1..];
      OneIsEarlier(a[1..], b[1..]);
    }
    if a != [] { OneIsEarlier(a[1..], a[1..]); }
  }

  lemma {:induction false} EarlierChain(a: string, b: string, c: string)
    requires Earlier(a, b) && Earlier(b, c)
    ensures Earlier(a, c)
    decreases |a|
  {
    if a != [] && a[0] == b[0] == c[0] {
      EarlierChain(a[1..], b[1..], c[1..]);
    }
  }

  lemma {:induction false} EarlierExtends(a: string, b: string, tail: string)
    requires |a| == |b| && Earlier(a, b)
    ensures Earlier(a + tail, b + tail)
    decreases |a|
  {
    var s, t := a + tail, b + tail;
    assert s[0] == a[0] && t[0] == b[0] && s[1..] == a[1..] + tail && t[1..] == b[1..] + tail;
    if a[0] == b[0] {
      EarlierExtends(a[1..], b[1..], tail);
    }
  }

  /** There is such an order: that of the characters. */
  lemma CharactersOrderDates()
    ensures DateOrder((a: string, b: string) => Earlier(a, b))
  {
    forall a, b, c: string
      ensures !Earlier(a, a) && (a == b || Earlier(a, b) || Earlier(b, a)) && (Earlier(a, b) && Earlier(b, c) ==> Earlier(a, c))
    {
      OneIsEarlier(a, b);
      if Earlier(a, b) && Earlier(b, c) { EarlierChain(a, b, c); }
    }
    forall a, b | DatedEarlier(a, b) ensures Earlier(a, b) {
      assert a == DateOf(a) + BUNDLE_SUFFIX && b == DateOf(b) + BUNDLE_SUFFIX;
      EarlierExtends(DateOf(a), DateOf(b), BUNDLE_SUFFIX);
    }
  }

  /** A bundle that survives keeps its checksum. */
  lemma PairsSurvive(less: (string, string) -> bool, entries: Directory, before: string, limit: int, bundle: string)
    requires StrictTotal(less) && IsBundleName(bundle)
    requires IsFile(Pruned(less, entries, before, limit), bundle) && ChecksumOf(bundle) in entries
    ensures ChecksumOf(bundle) in Pruned(less, entries, before, limit)
  {
    var chosen, orphans := Chosen(less, entries, before, limit), ChosenOrphans(less, entries, before, limit);
    var name := ChecksumOf(bundle);
    ChecksumIsDated(bundle);
    PrefixOfSorted(less, Removable(entries, before), limit);
    PrefixOfSorted(less, Orphans(entries, before, Elements(chosen)), limit - |chosen|);
    ChecksumKept(less, entries, before, limit, bundle);
    OrphanKept(less, entries, before, limit, bundle);
  }

  lemma ChecksumKept(less: (string, string) -> bool, entries: Directory, before: string, limit: int, bundle: string)
    requires StrictTotal(less) && bundle !in Chosen(less, entries, before, limit)
    ensures ChecksumOf(bundle) !in Elements(Chosen(less, entries, before, limit)) || |bundle| != 17
    ensures ChecksumOf(bundle) !in Checksums(Elements(Chosen(less, entries, before, limit)))
  {
    PrefixOfSorted(less, Removable(entries, before), limit);
    forall b | b in Elements(Chosen(less, entries, before, limit)) ensures ChecksumOf(b) != ChecksumOf(bundle) {
      ChecksumOfInjective(b, bundle);
    }
  }

  /** A dated bundle that was not chosen means that the limit is used up, so no orphan is looked for. */
  lemma OrphanKept(less: (string, string) -> bool, entries: Directory, before: string, limit: int, bundle: string)
    requires StrictTotal(less) && IsBundleName(bundle) && IsFile(entries, bundle) && bundle !in Chosen(less, entries, before, limit)
    ensures ChecksumOf(bundle) !in ChosenOrphans(less, entries, before, limit)
  {
    ChecksumIsDated(bundle);
    var chosen := Chosen(less, entries, before, limit);
    PrefixOfSorted(less, Removable(entries, before), limit);
    PrefixOfSorted(less, Orphans(entries, before, Elements(chosen)), limit - |chosen|);
    assert bundle in Elements(chosen) <==> bundle in chosen;
    if Earlier(DateOf(bundle), before) {
      assert bundle in Removable(entries, before);
      assert |chosen| >= limit;
    }
  }
}
