/** The streaming writers store what the batch writer stores, and the worker keeps its requests apart. */
module BundleProofs {
  import opened Options
  import opened Bundle
  import opened BundleWorker

  // ---- folding rows ---------------------------------------------------------------------------------------------

  lemma {:induction false} ApplyConcat(meta: Meta, p: Progress, a: seq<RowRecord>, b: seq<RowRecord>)
    ensures ApplyRecords(meta, p, a + b) == ApplyRecords(meta, ApplyRecords(meta, p, a), b)
    decreases |a|
  {
    if a == [] {
      assert a + b == b;
    } else {
      assert (a + b)[0] == a[0] && (a + b)[1..] == a[1..] + b;
      ApplyConcat(meta, ApplyRecord(meta, p, a[0]), a[1..], b);
    }
  }

  lemma ApplySnoc(meta: Meta, p: Progress, a: seq<RowRecord>, d: RowRecord)
    ensures ApplyRecords(meta, p, a + [d]) == ApplyRecord(meta, ApplyRecords(meta, p, a), d)
  {
    ApplyConcat(meta, p, a, [d]);
    var q := ApplyRecords(meta, p, a);
    assert [d][1..] == [];
    assert ApplyRecords(meta, q, [d]) == ApplyRecords(meta, ApplyRecord(meta, q, d), []);
  }

  lemma {:induction false} FailedStays(meta: Meta, p: Progress, ds: seq<RowRecord>)
    requires p.failed
    ensures ApplyRecords(meta, p, ds) == p
    decreases |ds|
  {
    if ds != [] {
      FailedStays(meta, p, ds[1..]);
    }
  }

  // ---- the manifest row is independent of the rest -----------------------------------------------------------------

  lemma RowAndManifest(t: Tables, m: map<string, ManifestRow>, kind: Kind, archiveId: string, row: Json)
    ensures InsertRow(t.(manifest := m), kind, archiveId, row)
         == match InsertRow(t, kind, archiveId, row) case None => None case Some(u) => Some(u.(manifest := m))
  {
  }

  lemma {:induction false} RowsAndManifest(t: Tables, m: map<string, ManifestRow>, kind: Kind, archiveId: string, rows: seq<Json>)
    ensures InsertRows(t.(manifest := m), kind, archiveId, rows)
         == match InsertRows(t, kind, archiveId, rows) case None => None case Some(u) => Some(u.(manifest := m))
    decreases |rows|
  {
    if rows != [] {
      RowAndManifest(t, m, kind, archiveId, rows[0]);
      var u := InsertRow(t, kind, archiveId, rows[0]);
      if u.Some? { RowsAndManifest(u.value, m, kind, archiveId, rows[1..]); }
    }
  }

  lemma {:induction false} KindsAndManifest(t: Tables, m: map<string, ManifestRow>, kinds: seq<Kind>, archiveId: string, archive: Json)
    ensures InsertKinds(t.(manifest := m), kinds, archiveId, archive)
         == match InsertKinds(t, kinds, archiveId, archive) case None => None case Some(u) => Some(u.(manifest := m))
    decreases |kinds|
  {
    if kinds != [] {
      match Field(archive, ArrayKey(kinds[0]))
      case Some(Arr(rows)) =>
        RowsAndManifest(t, m, kinds[0], archiveId, rows);
        var u := InsertRows(t, kinds[0], archiveId, rows);
        if u.Some? { KindsAndManifest(u.value, m, kinds[1..], archiveId, archive); }
      case _ =>
    }
  }

  lemma WholeAndManifest(t: Tables, m: map<string, ManifestRow>, meta: Meta, archive: Json)
    ensures InsertWhole(t.(manifest := m), meta, archive)
         == match InsertWhole(t, meta, archive) case None => None case Some(u) => Some(u.(manifest := m))
  {
    match (InsertArchive(t, meta, archive), Field(archive, "id"))
    case (Some(u), Some(Str(id))) => KindsAndManifest(u, m, KIND_ORDER, id, archive);
    case _ =>
  }

  lemma {:induction false} AllAndManifest(t: Tables, m: map<string, ManifestRow>, meta: Meta, archives: seq<Json>)
    ensures InsertAll(t.(manifest := m), meta, archives)
         == match InsertAll(t, meta, archives) case None => None case Some(u) => Some(u.(manifest := m))
    decreases |archives|
  {
    if archives != [] {
      WholeAndManifest(t, m, meta, archives[0]);
      var u := InsertWhole(t, meta, archives[0]);
      if u.Some? { AllAndManifest(u.value, m, meta, archives[1..]); }
    }
  }

  // ---- the sender -----------------------------------------------------------------------------------------------------

  const HEAD_KEYS := {"id", "workspaceId", "scopeType", "scopeId", "archiveDate", "archivedAt", "deletedAt", "timezone", "workspace"}

  /** The archive record sent ahead of the rows: the archive without its arrays. */
  function HeadOf(archive: Json): Json {
    if archive.Obj? then Obj(map k | k in archive.fields && k in HEAD_KEYS :: archive.fields[k]) else archive
  }

  /** What the typed sender guarantees: an id and all eight arrays. */
  predicate Sendable(archive: Json) {
    && archive.Obj? && Field(archive, "id").Some? && Field(archive, "id").value.Str?
    && forall kind: Kind :: Field(archive, ArrayKey(kind)).Some? && Field(archive, ArrayKey(kind)).value.Arr?
  }

  function IdOf(archive: Json): string
    requires Sendable(archive)
  {
    Field(archive, "id").value.s
  }

  function RowRecords(kind: Kind, archiveId: string, rows: seq<Json>): seq<RowRecord>
    decreases |rows|
  {
    if rows == [] then [] else [TableRecord(kind, archiveId, rows[0])] + RowRecords(kind, archiveId, rows[1..])
  }

  function KindRecords(kinds: seq<Kind>, archiveId: string, archive: Json): seq<RowRecord>
    requires Sendable(archive)
    decreases |kinds|
  {
    if kinds == [] then []
    else RowRecords(kinds[0], archiveId, Field(archive, ArrayKey(kinds[0])).value.items) + KindRecords(kinds[1..], archiveId, archive)
  }

  /** `writeArchiveToNativeStream`. */
  function ArchiveRecords(archive: Json): seq<RowRecord>
    requires Sendable(archive)
  {
    [ArchiveRecord(HeadOf(archive))] + KindRecords(KIND_ORDER, IdOf(archive), archive)
  }

  ghost predicate AllSendable(archives: seq<Json>) {
    forall i :: 0 <= i < |archives| ==> Sendable(archives[i])
  }

  function BundleRecords(archives: seq<Json>): seq<RowRecord>
    requires AllSendable(archives)
    decreases |archives|
  {
    if archives == [] then [] else ArchiveRecords(archives[0]) + BundleRecords(archives[1..])
  }

  // ---- the head carries everything the archive row needs -----------------------------------------------------------------

  lemma HeadField(archive: Json, key: string)
    requires key in HEAD_KEYS
    ensures Field(HeadOf(archive), key) == Field(archive, key)
  {
  }

  lemma {:induction false} ColumnsAgree(cs: seq<Column>, a: Json, b: Json)
    requires forall c :: c in cs ==> ReadColumn(c, a) == ReadColumn(c, b)
    ensures ReadColumns(cs, a) == ReadColumns(cs, b)
    decreases |cs|
  {
    if cs != [] {
      assert cs == [cs[0]] + cs[1..];
      ColumnsAgree(cs[1..], a, b);
    }
  }

  predicate HeadColumn(c: Column) {
    (c.RequiredText? || c.RequiredJson?) && c.key in HEAD_KEYS
  }

  lemma ArchiveColumnsInHead()
    ensures forall c :: c in ArchiveColumns() ==> HeadColumn(c)
  {
  }

  lemma HeadReads(archive: Json)
    ensures ReadColumns(ArchiveColumns(), HeadOf(archive)) == ReadColumns(ArchiveColumns(), archive)
  {
    ArchiveColumnsInHead();
    forall c | c in ArchiveColumns() ensures ReadColumn(c, HeadOf(archive)) == ReadColumn(c, archive) {
      HeadField(archive, c.key);
    }
    ColumnsAgree(ArchiveColumns(), HeadOf(archive), archive);
  }

  lemma HeadCells(meta: Meta, archive: Json)
    ensures ArchiveCells(meta, HeadOf(archive)) == ArchiveCells(meta, archive)
  {
    HeadReads(archive);
    HeadField(archive, "workspace");
  }

  lemma HeadSuffices(t: Tables, meta: Meta, archive: Json)
    ensures InsertArchive(t, meta, HeadOf(archive)) == InsertArchive(t, meta, archive)
    ensures ReadColumn(OptionalText("timezone"), HeadOf(archive)) == ReadColumn(OptionalText("timezone"), archive)
  {
    HeadCells(meta, archive);
    HeadField(archive, "id");
    HeadField(archive, "timezone");
  }

  // ---- streaming equals batch ------------------------------------------------------------------------------------------------

  lemma {:induction false} RowsStream(meta: Meta, p: Progress, kind: Kind, archiveId: string, rows: seq<Json>)
    requires !p.failed
    ensures ApplyRecords(meta, p, RowRecords(kind, archiveId, rows))
         == match InsertRows(p.tables, kind, archiveId, rows) case None => Fail(p) case Some(u) => p.(tables := u)
    decreases |rows|
  {
    if rows != [] {
      var ds := RowRecords(kind, archiveId, rows);
      assert ds[0] == TableRecord(kind, archiveId, rows[0]) && ds[1..] == RowRecords(kind, archiveId, rows[1..]);
      match InsertRow(p.tables, kind, archiveId, rows[0])
      case None => FailedStays(meta, Fail(p), ds[1..]);
      case Some(u) => RowsStream(meta, p.(tables := u), kind, archiveId, rows[1..]);
    }
  }

  lemma {:induction false} KindsStream(meta: Meta, p: Progress, kinds: seq<Kind>, archive: Json)
    requires !p.failed && Sendable(archive)
    ensures ApplyRecords(meta, p, KindRecords(kinds, IdOf(archive), archive))
         == match InsertKinds(p.tables, kinds, IdOf(archive), archive) case None => Fail(p) case Some(u) => p.(tables := u)
    decreases |kinds|
  {
    if kinds != [] {
      var id := IdOf(archive);
      var rows := Field(archive, ArrayKey(kinds[0])).value.items;
      ApplyConcat(meta, p, RowRecords(kinds[0], id, rows), KindRecords(kinds[1..], id, archive));
      RowsStream(meta, p, kinds[0], id, rows);
      match InsertRows(p.tables, kinds[0], id, rows)
      case None => FailedStays(meta, Fail(p), KindRecords(kinds[1..], id, archive));
      case Some(u) => KindsStream(meta, p.(tables := u), kinds[1..], archive);
    }
  }

  /** An accepted archive row has a text time zone. */
  lemma AcceptedHasTimezone(t: Tables, meta: Meta, archive: Json)
    requires InsertArchive(t, meta, archive).Some?
    ensures Field(archive, "timezone").Some? && Field(archive, "timezone").value.Str?
  {
    assert RequiredText("timezone") == ArchiveColumns()[6];
    assert RequiredText("timezone") in ArchiveColumns();
    assert ReadColumn(RequiredText("timezone"), archive).Some?;
  }

  function ZoneAfter(p: Progress, archive: Json): Option<string> {
    if p.timezone.Some? then p.timezone
    else match Field(archive, "timezone") case Some(Str(s)) => Some(s) case _ => None
  }

  lemma HeadStream(meta: Meta, p: Progress, archive: Json)
    requires !p.failed
    ensures ApplyRecord(meta, p, ArchiveRecord(HeadOf(archive)))
         == match InsertArchive(p.tables, meta, archive)
            case None => Fail(p)
            case Some(u) => Progress(u, p.archiveCount + 1, ZoneAfter(p, archive), false)
  {
    HeadSuffices(p.tables, meta, archive);
    if InsertArchive(p.tables, meta, archive).Some? {
      AcceptedHasTimezone(p.tables, meta, archive);
    }
  }

  lemma WholeStream(meta: Meta, p: Progress, archive: Json)
    requires !p.failed && Sendable(archive)
    ensures var q := ApplyRecords(meta, p, ArchiveRecords(archive));
      match InsertWhole(p.tables, meta, archive)
      case None => q.failed
      case Some(u) => q == Progress(u, p.archiveCount + 1, ZoneAfter(p, archive), false)
  {
    var ds := ArchiveRecords(archive);
    var rest := KindRecords(KIND_ORDER, IdOf(archive), archive);
    assert ds[0] == ArchiveRecord(HeadOf(archive)) && ds[1..] == rest;
    HeadStream(meta, p, archive);
    match InsertArchive(p.tables, meta, archive)
    case None => FailedStays(meta, Fail(p), rest);
    case Some(u) => KindsStream(meta, Progress(u, p.archiveCount + 1, ZoneAfter(p, archive), false), KIND_ORDER, archive);
  }

  function ZoneOfAll(p: Progress, archives: seq<Json>): Option<string> {
    if archives == [] then p.timezone else ZoneAfter(p, archives[0])
  }

  /** The stream fails when the insertions do, and otherwise holds their tables, count and zone. */
  predicate Streamed(inserted: Option<Tables>, count: nat, zone: Option<string>, q: Progress) {
    match inserted case None => q.failed case Some(u) => q == Progress(u, count, zone, false)
  }

  predicate Batched(meta: Meta, inserted: Option<Tables>, count: nat, zone: Option<string>, batch: Option<Tables>) {
    match inserted case None => batch.None? case Some(u) => batch == Some(Committed(meta, Progress(u, count, zone, false)))
  }

  /** Streaming `archives` from `p` does what inserting them does. */
  predicate StreamsAll(meta: Meta, p: Progress, archives: seq<Json>)
    requires AllSendable(archives)
  {
    Streamed(InsertAll(p.tables, meta, archives), p.archiveCount + |archives|, ZoneOfAll(p, archives), ApplyRecords(meta, p, BundleRecords(archives)))
  }

  lemma {:induction false} AllStream(meta: Meta, p: Progress, archives: seq<Json>)
    requires !p.failed && AllSendable(archives)
    ensures StreamsAll(meta, p, archives)
    decreases |archives|
  {
    if archives != [] {
      var q := ApplyRecords(meta, p, ArchiveRecords(archives[0]));
      if q.failed {
        StopsAt(meta, p, q, archives);
      } else {
        AllStream(meta, q, archives[1..]);
        GoesOn(meta, p, q, archives);
      }
    }
  }

  lemma StopsAt(meta: Meta, p: Progress, q: Progress, archives: seq<Json>)
    requires archives != [] && !p.failed && AllSendable(archives)
    requires q == ApplyRecords(meta, p, ArchiveRecords(archives[0])) && q.failed
    ensures StreamsAll(meta, p, archives)
  {
    WholeStream(meta, p, archives[0]);
    InsertAllStep(p.tables, meta, archives, 0);
    assert archives[0..] == archives;
    ApplyConcat(meta, p, ArchiveRecords(archives[0]), BundleRecords(archives[1..]));
    FailedStays(meta, q, BundleRecords(archives[1..]));
  }

  lemma GoesOn(meta: Meta, p: Progress, q: Progress, archives: seq<Json>)
    requires archives != [] && !p.failed && AllSendable(archives)
    requires q == ApplyRecords(meta, p, ArchiveRecords(archives[0])) && !q.failed && StreamsAll(meta, q, archives[1..])
    ensures StreamsAll(meta, p, archives)
  {
    ApplyConcat(meta, p, ArchiveRecords(archives[0]), BundleRecords(archives[1..]));
    FirstInserted(meta, p, q, archives);
    ZoneKept(p, q, meta, archives);
  }

  lemma FirstInserted(meta: Meta, p: Progress, q: Progress, archives: seq<Json>)
    requires archives != [] && !p.failed && AllSendable(archives)
    requires q == ApplyRecords(meta, p, ArchiveRecords(archives[0])) && !q.failed
    ensures InsertWhole(p.tables, meta, archives[0]) == Some(q.tables)
    ensures q.archiveCount == p.archiveCount + 1 && q.timezone == ZoneAfter(p, archives[0])
    ensures InsertAll(p.tables, meta, archives) == InsertAll(q.tables, meta, archives[1..])
  {
    WholeStream(meta, p, archives[0]);
    InsertAllStep(p.tables, meta, archives, 0);
    assert archives[0..] == archives;
  }

  lemma ZoneKept(p: Progress, q: Progress, meta: Meta, archives: seq<Json>)
    requires archives != [] && InsertWhole(p.tables, meta, archives[0]).Some? && q.timezone == ZoneAfter(p, archives[0])
    ensures ZoneOfAll(q, archives[1..]) == ZoneOfAll(p, archives)
  {
    WholeHasTimezone(p.tables, meta, archives[0]);
  }

  lemma WholeHasTimezone(t: Tables, meta: Meta, archive: Json)
    requires InsertWhole(t, meta, archive).Some?
    ensures Field(archive, "timezone").Some? && Field(archive, "timezone").value.Str?
  {
    AcceptedHasTimezone(t, meta, archive);
  }

  /** Both writers fail, or both commit the same tables. */
  predicate SameResult(meta: Meta, n: nat, p: Progress, batch: Option<Tables>) {
    && (p.failed <==> batch.None?)
    && (!p.failed ==> p.archiveCount == n && batch == Some(Committed(meta, p)))
  }

  /** Streaming the archives and committing stores exactly what the batch writer stores for them,
      manifest count and time zone included; one fails exactly when the other does. */
  lemma StreamEqualsBatch(meta: Meta, archives: seq<Json>)
    requires AllSendable(archives)
    ensures SameResult(meta, |archives|, Collected(meta, BundleRecords(archives)), WriteBundle(meta, archives))
  {
    AllStreamFresh(meta, archives);
    BatchIsAll(meta, archives);
    Compare(meta, |archives|, InsertAll(EMPTY_TABLES, meta, archives), ZoneOfAll(FRESH, archives),
            Collected(meta, BundleRecords(archives)), WriteBundle(meta, archives));
  }

  lemma AllStreamFresh(meta: Meta, archives: seq<Json>)
    requires AllSendable(archives)
    ensures Streamed(InsertAll(EMPTY_TABLES, meta, archives), |archives|, ZoneOfAll(FRESH, archives), Collected(meta, BundleRecords(archives)))
  {
    AllStream(meta, FRESH, archives);
  }

  lemma Compare(meta: Meta, n: nat, inserted: Option<Tables>, zone: Option<string>, p: Progress, batch: Option<Tables>)
    requires Streamed(inserted, n, zone, p) && Batched(meta, inserted, n, zone, batch)
    ensures SameResult(meta, n, p, batch)
  {
  }

  lemma BatchIsAll(meta: Meta, archives: seq<Json>)
    ensures Batched(meta, InsertAll(EMPTY_TABLES, meta, archives), |archives|, ZoneOfAll(FRESH, archives), WriteBundle(meta, archives))
  {
    var m := WriteManifest(EMPTY_TABLES, meta, BatchTimezone(archives), |archives|).manifest;
    AllAndManifest(EMPTY_TABLES, m, meta, archives);
    InsertAllKeepsManifest(EMPTY_TABLES, meta, archives);
    BatchZone(meta, archives);
  }

  lemma BatchZone(meta: Meta, archives: seq<Json>)
    ensures InsertAll(EMPTY_TABLES, meta, archives).Some? ==>
      BatchTimezone(archives) == match ZoneOfAll(FRESH, archives) case None => "UTC" case Some(z) => z
  {
    if archives != [] && InsertAll(EMPTY_TABLES, meta, archives).Some? {
      InsertAllStep(EMPTY_TABLES, meta, archives, 0);
      assert archives[0..] == archives;
      WholeHasTimezone(EMPTY_TABLES, meta, archives[0]);
    }
  }

  lemma InsertAllKeepsManifest(t: Tables, meta: Meta, archives: seq<Json>)
    ensures InsertAll(t, meta, archives).Some? ==> InsertAll(t, meta, archives).value.manifest == t.manifest
  {
    AllAndManifest(t, t.manifest, meta, archives);
    assert t.(manifest := t.manifest) == t;
  }
}
