/** How much pruning removes, counted in the directory before and after it. */
module PruneLaws {
  import opened Options
  import opened Orders
  import opened Pruning

  ghost function Gone(less: (string, string) -> bool, entries: Directory, before: string, limit: int): set<string>
    requires StrictTotal(less)
  {
    entries.Keys - Pruned(less, entries, before, limit).Keys
  }

  function BundlesAmong(names: set<string>): set<string> {
    set n | n in names && IsBundleName(n)
  }

  /** Checksums whose bundles are not among the names. */
  function LoneChecksums(names: set<string>): set<string> {
    set n | n in names && IsChecksumName(n) && n[..17] !in names
  }

  function ExpiredBundles(entries: Directory, before: string): set<string> {
    set n | n in entries && entries[n].FileOf? && IsBundleName(n) && Earlier(n[..10], before)
  }

  /** Expired checksum files whose bundles do not go. */
  function ExpiredOrphans(entries: Directory, before: string, gone: set<string>): set<string> {
    set n | n in entries && entries[n].FileOf? && IsChecksumName(n) && Earlier(n[..10], before) && n[..17] !in gone
  }

  function UpTo(limit: int, available: nat): nat {
    if limit <= 0 then 0 else if limit < available then limit else available
  }

  lemma DistinctSize(less: (string, string) -> bool, names: set<string>, limit: int)
    requires StrictTotal(less)
    ensures |Elements(Prefix(Sorted(less, names), limit))| == UpTo(limit, |names|) == |Prefix(Sorted(less, names), limit)|
  {
    SortedLists(less, names);
    PrefixOfSorted(less, names, limit);
    NoRepeats(Prefix(Sorted(less, names), limit));
  }

  lemma {:induction false} NoRepeats(s: seq<string>)
    requires forall i, j :: 0 <= i < j < |s| ==> s[i] != s[j]
    ensures |Elements(s)| == |s|
    decreases |s|
  {
    if s != [] {
      var init, last := s[..|s| - 1], s[|s| - 1];
      NoRepeats(init);
      assert s == init + [last];
      assert Elements(s) == Elements(init) + {last};
    }
  }

  lemma ChosenGone(less: (string, string) -> bool, entries: Directory, before: string, limit: int)
    requires StrictTotal(less)
    ensures BundlesAmong(Gone(less, entries, before, limit)) == Elements(Chosen(less, entries, before, limit))
    ensures Removable(entries, before) == ExpiredBundles(entries, before)
  {
    PrefixOfSorted(less, Removable(entries, before), limit);
    var chosen := Chosen(less, entries, before, limit);
    PrefixOfSorted(less, Orphans(entries, before, Elements(chosen)), limit - |chosen|);
  }

  /** As many expired bundles go as the limit allows, each with its checksum. */
  lemma BundlesGone(less: (string, string) -> bool, entries: Directory, before: string, limit: int)
    requires StrictTotal(less)
    ensures var bundles := BundlesAmong(Gone(less, entries, before, limit));
      && bundles <= ExpiredBundles(entries, before) && |bundles| == UpTo(limit, |ExpiredBundles(entries, before)|)
      && forall b :: b in bundles ==> ChecksumOf(b) !in Pruned(less, entries, before, limit)
  {
    ChosenGone(less, entries, before, limit);
    PrefixOfSorted(less, Removable(entries, before), limit);
    DistinctSize(less, Removable(entries, before), limit);
  }

  lemma NoChecksumAmong(bundles: set<string>, n: string)
    requires |n| == 24 && n[..17] !in bundles && forall b :: b in bundles ==> |b| == 17
    ensures n !in Checksums(bundles)
  {
    forall b | b in bundles ensures ChecksumOf(b) != n {
      assert ChecksumOf(b)[..17] == b;
    }
  }

  lemma OrphanChosen(less: (string, string) -> bool, entries: Directory, before: string, limit: int, n: string)
    requires StrictTotal(less)
    ensures n in LoneChecksums(Gone(less, entries, before, limit)) <==> n in Elements(ChosenOrphans(less, entries, before, limit))
  {
    ChosenGone(less, entries, before, limit);
    var chosen := Chosen(less, entries, before, limit);
    PrefixOfSorted(less, Removable(entries, before), limit);
    PrefixOfSorted(less, Orphans(entries, before, Elements(chosen)), limit - |chosen|);
    if IsChecksumName(n) {
      assert n[..17] in Gone(less, entries, before, limit) <==> n[..17] in BundlesAmong(Gone(less, entries, before, limit));
      if n[..17] !in Elements(chosen) {
        NoChecksumAmong(Elements(chosen), n);
      }
    }
  }

  lemma OrphansAre(less: (string, string) -> bool, entries: Directory, before: string, limit: int)
    requires StrictTotal(less)
    ensures Orphans(entries, before, Elements(Chosen(less, entries, before, limit)))
         == ExpiredOrphans(entries, before, Gone(less, entries, before, limit))
  {
    ChosenGone(less, entries, before, limit);
    forall n | n in entries && IsChecksumName(n)
      ensures n[..17] in Gone(less, entries, before, limit) <==> n[..17] in Elements(Chosen(less, entries, before, limit))
    {
      assert IsBundleName(n[..17]);
    }
  }

  /** What the bundles leave of the limit goes to expired checksums without them, as many as there are. */
  lemma OrphansGone(less: (string, string) -> bool, entries: Directory, before: string, limit: int)
    requires StrictTotal(less)
    ensures var gone := Gone(less, entries, before, limit);
      && LoneChecksums(gone) <= ExpiredOrphans(entries, before, gone)
      && |LoneChecksums(gone)| == UpTo(limit - |BundlesAmong(gone)|, |ExpiredOrphans(entries, before, gone)|)
  {
    var gone, chosen := Gone(less, entries, before, limit), Chosen(less, entries, before, limit);
    ChosenGone(less, entries, before, limit);
    OrphansAre(less, entries, before, limit);
    forall n ensures n in LoneChecksums(gone) <==> n in Elements(ChosenOrphans(less, entries, before, limit)) {
      OrphanChosen(less, entries, before, limit, n);
    }
    assert LoneChecksums(gone) == Elements(ChosenOrphans(less, entries, before, limit));
    PrefixOfSorted(less, Orphans(entries, before, Elements(chosen)), limit - |chosen|);
    DistinctSize(less, Removable(entries, before), limit);
    DistinctSize(less, Orphans(entries, before, Elements(chosen)), limit - |chosen|);
  }

  /** Pruning throws exactly if a bundle that would go has a directory in place of its checksum. */
  lemma ThrowsIff(less: (string, string) -> bool, entries: Directory, before: string, limit: int)
    requires StrictTotal(less)
    ensures !CanPrune(less, entries, before, limit)
       <==> exists b :: b in BundlesAmong(Gone(less, entries, before, limit)) && ChecksumOf(b) in entries && entries[ChecksumOf(b)] == Subdirectory
  {
    ChosenGone(less, entries, before, limit);
    var chosen := Chosen(less, entries, before, limit);
    assert forall b :: b in Elements(chosen) <==> b in chosen;
  }
}
