/** What a committed bundle contains, read off the archives sent. */
module BundleContents {
  import opened Options
  import opened Bundle

  // ---- fields and cells -----------------------------------------------------------------------------------------

  predicate Has(v: Json, key: string) {
    v.Obj? && key in v.fields
  }

  predicate HasText(v: Json, key: string) {
    Has(v, key) && v.fields[key].Str?
  }

  /** An integer of 64 bits, with or without sign. */
  predicate HasInteger(v: Json, key: string) {
    Has(v, key) && v.fields[key].Int? && -0x8000_0000_0000_0000 <= v.fields[key].n < 0x1_0000_0000_0000_0000
  }

  predicate Blank(v: Json, key: string) {
    Has(v, key) ==> v.fields[key] == Null
  }

  /** The row has what the column needs. */
  predicate Readable(c: Column, row: Json) {
    match c
    case RequiredText(key) => HasText(row, key)
    case OptionalText(key) => Blank(row, key) || HasText(row, key)
    case RequiredInteger(key) => HasInteger(row, key)
    case OptionalInteger(key) => Blank(row, key) || HasInteger(row, key)
    case RequiredJson(key) => Has(row, key)
    case JsonIfPresent(_) => true
    case JsonIfNotNull(_) => true
    case WholeRow => true
  }

  /** A signed number of 64 bits with the same bits as the integer sent. */
  predicate ShowsInteger(n: int, cell: Cell) {
    cell.Number? && -0x8000_0000_0000_0000 <= cell.n < 0x8000_0000_0000_0000 && (cell.n == n || cell.n == n - 0x1_0000_0000_0000_0000)
  }

  /** The cell holds what the row has under the column's name. */
  predicate Shows(c: Column, row: Json, cell: Cell) {
    match c
    case RequiredText(key) => HasText(row, key) && cell == Text(row.fields[key].s)
    case OptionalText(key) => if Blank(row, key) then cell == Absent else HasText(row, key) && cell == Text(row.fields[key].s)
    case RequiredInteger(key) => HasInteger(row, key) && ShowsInteger(row.fields[key].n, cell)
    case OptionalInteger(key) => if Blank(row, key) then cell == Absent else HasInteger(row, key) && ShowsInteger(row.fields[key].n, cell)
    case RequiredJson(key) => Has(row, key) && cell == JsonText(row.fields[key])
    case JsonIfPresent(key) => if Has(row, key) then cell == JsonText(row.fields[key]) else cell == Absent
    case JsonIfNotNull(key) => if Blank(row, key) then cell == Absent else cell == JsonText(row.fields[key])
    case WholeRow => cell == JsonText(row)
  }

  ghost predicate AllReadable(cs: seq<Column>, row: Json) {
    forall i :: 0 <= i < |cs| ==> Readable(cs[i], row)
  }

  ghost predicate AllShown(cs: seq<Column>, row: Json, cells: seq<Cell>) {
    |cells| == |cs| && forall i :: 0 <= i < |cs| ==> Shows(cs[i], row, cells[i])
  }

  lemma ColumnRead(c: Column, row: Json)
    ensures ReadColumn(c, row).Some? <==> Readable(c, row)
    ensures ReadColumn(c, row).Some? ==> Shows(c, row, ReadColumn(c, row).value)
  {
  }

  lemma {:induction false} ColumnsRead(cs: seq<Column>, row: Json)
    ensures ReadColumns(cs, row).Some? <==> AllReadable(cs, row)
    ensures ReadColumns(cs, row).Some? ==> AllShown(cs, row, ReadColumns(cs, row).value)
    decreases |cs|
  {
    if cs != [] {
      ColumnRead(cs[0], row);
      ColumnsRead(cs[1..], row);
      assert forall i :: 0 < i < |cs| ==> cs[i] == cs[1..][i - 1];
      assert forall i :: 0 <= i < |cs[1..]| ==> cs[1..][i] == cs[i + 1];
    }
  }

  // ---- a table that keeps the last record of each key ----------------------------------------------------------------

  ghost predicate IsLast<D, K(!new)>(ds: seq<D>, key: D -> K, i: int) {
    0 <= i < |ds| && forall j {:trigger ds[j]} :: i < j < |ds| ==> key(ds[j]) != key(ds[i])
  }

  ghost predicate Names<D, K(!new)>(ds: seq<D>, key: D -> K, k: K) {
    exists i :: 0 <= i < |ds| && key(ds[i]) == k
  }

  /** `after` is `before` with the records written one by one: a key holds the last record written under it. */
  ghost predicate Holds<D, K(!new), V>(before: map<K, V>, after: map<K, V>, ds: seq<D>, key: D -> K, shows: (D, V) -> bool) {
    && (forall k :: k in after <==> k in before || Names(ds, key, k))
    && (forall i :: IsLast(ds, key, i) && key(ds[i]) in after ==> shows(ds[i], after[key(ds[i])]))
    && (forall k :: k in before && k in after && !Names(ds, key, k) ==> after[k] == before[k])
  }

  lemma HoldsNothing<D, K(!new), V>(t: map<K, V>, key: D -> K, shows: (D, V) -> bool)
    ensures Holds(t, t, [], key, shows)
  {
  }

  lemma HoldsOne<D, K(!new), V>(t: map<K, V>, d: D, v: V, key: D -> K, shows: (D, V) -> bool)
    requires shows(d, v)
    ensures Holds(t, t[key(d) := v], [d], key, shows)
  {
    assert [d][0] == d;
  }

  lemma NamesConcat<D, K(!new)>(a: seq<D>, b: seq<D>, key: D -> K, k: K)
    ensures Names(a + b, key, k) <==> Names(a, key, k) || Names(b, key, k)
  {
    if Names(a, key, k) {
      var i :| 0 <= i < |a| && key(a[i]) == k;
      assert (a + b)[i] == a[i];
    }
    if Names(b, key, k) {
      var i :| 0 <= i < |b| && key(b[i]) == k;
      assert (a + b)[|a| + i] == b[i];
    }
  }

  lemma LastInConcat<D, K(!new)>(a: seq<D>, b: seq<D>, key: D -> K, i: int)
    requires IsLast(a + b, key, i)
    ensures if i < |a| then IsLast(a, key, i) && !Names(b, key, key(a[i])) else IsLast(b, key, i - |a|)
  {
    if i < |a| {
      forall j | 0 <= j < |b| ensures key(b[j]) != key(a[i]) { assert (a + b)[|a| + j] == b[j]; }
      forall j | i < j < |a| ensures key(a[j]) != key(a[i]) { assert (a + b)[j] == a[j]; }
    } else {
      forall j | i - |a| < j < |b| ensures key(b[j]) != key(b[i - |a|]) { assert (a + b)[|a| + j] == b[j]; }
    }
  }

  lemma HoldsConcat<D, K(!new), V>(t: map<K, V>, u: map<K, V>, w: map<K, V>, a: seq<D>, b: seq<D>, key: D -> K, shows: (D, V) -> bool)
    requires Holds(t, u, a, key, shows) && Holds(u, w, b, key, shows)
    ensures Holds(t, w, a + b, key, shows)
  {
    forall k ensures Names(a + b, key, k) <==> Names(a, key, k) || Names(b, key, k) {
      NamesConcat(a, b, key, k);
    }
    forall i | IsLast(a + b, key, i) && key((a + b)[i]) in w ensures shows((a + b)[i], w[key((a + b)[i])]) {
      LastInConcat(a, b, key, i);
      if i < |a| {
        assert Names(a, key, key(a[i]));
      }
    }
  }

  // ---- the rows of the archives ----------------------------------------------------------------------------------------

  datatype Sent = Sent(kind: Kind, archiveId: string, row: Json)

  function TextOf(v: Json, key: string): string {
    if HasText(v, key) then v.fields[key].s else ""
  }

  function KeyOf(d: Sent): (Kind, string, string) {
    (d.kind, d.archiveId, TextOf(d.row, "id"))
  }

  predicate HasArray(v: Json, name: string) {
    Has(v, name) && v.fields[name].Arr?
  }

  function Rows(archive: Json, name: string): seq<Json> {
    if HasArray(archive, name) then archive.fields[name].items else []
  }

  function Tagged(kind: Kind, archiveId: string, rows: seq<Json>): seq<Sent> {
    seq(|rows|, i requires 0 <= i < |rows| => Sent(kind, archiveId, rows[i]))
  }

  function RowsIn(archive: Json, kind: Kind, name: string): seq<Sent> {
    Tagged(kind, TextOf(archive, "id"), Rows(archive, name))
  }

  /** The rows of one archive, array by array. */
  function SentOf(archive: Json): seq<Sent> {
    RowsIn(archive, Session, "sessions") + (RowsIn(archive, Run, "runs") + (RowsIn(archive, Message, "messages") +
    (RowsIn(archive, EngineMessage, "engineMessages") + (RowsIn(archive, RunStep, "runSteps") + (RowsIn(archive, ToolCall, "toolCalls") +
    (RowsIn(archive, HookRun, "hookRuns") + RowsIn(archive, Artifact, "artifacts")))))))
  }

  /** The rows of all archives in the order they are sent. */
  function SentBy(archives: seq<Json>): seq<Sent>
    decreases |archives|
  {
    if archives == [] then [] else SentOf(archives[0]) + SentBy(archives[1..])
  }

  ghost predicate RowComplete(d: Sent) {
    AllReadable(Columns(d.kind), d.row)
  }

  ghost predicate RowShown(d: Sent, cells: seq<Cell>) {
    AllShown(Columns(d.kind), d.row, cells)
  }

  ghost predicate AllComplete(ds: seq<Sent>) {
    forall i :: 0 <= i < |ds| ==> RowComplete(ds[i])
  }

  /** The row table of `u` is that of `t` with these rows written; nothing else differs. */
  ghost predicate RowsWritten(t: Tables, u: Tables, ds: seq<Sent>) {
    && Holds(t.rows, u.rows, ds, KeyOf, RowShown)
    && u.archives == t.archives && u.manifest == t.manifest
  }

  lemma FirstIsId(kind: Kind)
    ensures Columns(kind) != [] && Columns(kind)[0] == RequiredText("id")
  {
  }

  lemma IdShown(cs: seq<Column>, row: Json, cells: seq<Cell>)
    requires cs != [] && cs[0] == RequiredText("id") && AllShown(cs, row, cells)
    ensures cells != [] && cells[0] == Text(TextOf(row, "id"))
  {
    assert Shows(cs[0], row, cells[0]);
  }

  lemma RowInsert(t: Tables, d: Sent)
    ensures InsertRow(t, d.kind, d.archiveId, d.row).Some? <==> RowComplete(d)
    ensures RowComplete(d) ==> RowsWritten(t, InsertRow(t, d.kind, d.archiveId, d.row).value, [d])
  {
    ColumnsRead(Columns(d.kind), d.row);
    FirstIsId(d.kind);
    if RowComplete(d) {
      var cells := ReadColumns(Columns(d.kind), d.row).value;
      IdShown(Columns(d.kind), d.row, cells);
      HoldsOne(t.rows, d, cells, KeyOf, RowShown);
    }
  }

  lemma RowsWrittenConcat(t: Tables, u: Tables, w: Tables, a: seq<Sent>, b: seq<Sent>)
    requires RowsWritten(t, u, a) && RowsWritten(u, w, b)
    ensures RowsWritten(t, w, a + b)
  {
    HoldsConcat(t.rows, u.rows, w.rows, a, b, KeyOf, RowShown);
  }

  lemma AllCompleteConcat(a: seq<Sent>, b: seq<Sent>)
    ensures AllComplete(a + b) <==> AllComplete(a) && AllComplete(b)
  {
    if AllComplete(a + b) {
      forall i | 0 <= i < |a| ensures RowComplete(a[i]) { assert (a + b)[i] == a[i]; }
      forall i | 0 <= i < |b| ensures RowComplete(b[i]) { assert (a + b)[|a| + i] == b[i]; }
    }
  }

  /** The insertions succeed exactly if all rows are complete, and then write them. */
  ghost predicate Writes(t: Tables, result: Option<Tables>, ds: seq<Sent>) {
    (result.Some? <==> AllComplete(ds)) && (result.Some? ==> RowsWritten(t, result.value, ds))
  }

  lemma WritesNothing(t: Tables)
    ensures Writes(t, Some(t), [])
  {
    HoldsNothing(t.rows, KeyOf, RowShown);
  }

  lemma WritesOn(t: Tables, first: Option<Tables>, rest: Option<Tables>, a: seq<Sent>, b: seq<Sent>)
    requires Writes(t, first, a)
    requires first.Some? ==> Writes(first.value, rest, b)
    requires first.None? ==> rest.None?
    ensures Writes(t, rest, a + b)
  {
    AllCompleteConcat(a, b);
    if rest.Some? {
      RowsWrittenConcat(t, first.value, rest.value, a, b);
    }
  }

  lemma OneWrites(t: Tables, d: Sent)
    ensures Writes(t, InsertRow(t, d.kind, d.archiveId, d.row), [d])
  {
    RowInsert(t, d);
    assert [d][0] == d;
  }

  lemma {:induction false} ArrayWrites(t: Tables, kind: Kind, archiveId: string, rows: seq<Json>)
    ensures Writes(t, InsertRows(t, kind, archiveId, rows), Tagged(kind, archiveId, rows))
    decreases |rows|
  {
    if rows == [] {
      assert Tagged(kind, archiveId, rows) == [];
      WritesNothing(t);
    } else {
      var d, rest := Sent(kind, archiveId, rows[0]), Tagged(kind, archiveId, rows[1..]);
      assert Tagged(kind, archiveId, rows) == [d] + rest;
      OneWrites(t, d);
      var u := InsertRow(t, kind, archiveId, rows[0]);
      if u.Some? {
        ArrayWrites(u.value, kind, archiveId, rows[1..]);
      }
      WritesOn(t, u, InsertRows(t, kind, archiveId, rows), [d], rest);
    }
  }

  // ---- one archive --------------------------------------------------------------------------------------------------------

  function KindRows(kinds: seq<Kind>, archive: Json): seq<Sent>
    decreases |kinds|
  {
    if kinds == [] then [] else RowsIn(archive, kinds[0], ArrayKey(kinds[0])) + KindRows(kinds[1..], archive)
  }

  predicate ArraysPresent(kinds: seq<Kind>, archive: Json) {
    forall kind :: kind in kinds ==> HasArray(archive, ArrayKey(kind))
  }

  lemma {:induction false} KindsWrite(t: Tables, kinds: seq<Kind>, archive: Json)
    ensures InsertKinds(t, kinds, TextOf(archive, "id"), archive).Some? ==> ArraysPresent(kinds, archive)
    ensures ArraysPresent(kinds, archive) ==> Writes(t, InsertKinds(t, kinds, TextOf(archive, "id"), archive), KindRows(kinds, archive))
    decreases |kinds|
  {
    if kinds == [] {
      WritesNothing(t);
    } else {
      var id, kind := TextOf(archive, "id"), kinds[0];
      assert ArraysPresent(kinds, archive) <==> HasArray(archive, ArrayKey(kind)) && ArraysPresent(kinds[1..], archive);
      if HasArray(archive, ArrayKey(kind)) {
        var rows := Rows(archive, ArrayKey(kind));
        ArrayWrites(t, kind, id, rows);
        var u := InsertRows(t, kind, id, rows);
        if u.Some? {
          KindsWrite(u.value, kinds[1..], archive);
        }
        if ArraysPresent(kinds[1..], archive) {
          WritesOn(t, u, InsertKinds(t, kinds, id, archive), Tagged(kind, id, rows), KindRows(kinds[1..], archive));
        }
      }
    }
  }

  /** All eight arrays are there. */
  predicate ArraysComplete(archive: Json) {
    && HasArray(archive, "sessions") && HasArray(archive, "runs") && HasArray(archive, "messages") && HasArray(archive, "engineMessages")
    && HasArray(archive, "runSteps") && HasArray(archive, "toolCalls") && HasArray(archive, "hookRuns") && HasArray(archive, "artifacts")
  }

  lemma KindListed(kind: Kind)
    ensures kind in KIND_ORDER && ArrayKey(kind) == NameOf(kind)
  {
    var at := match kind
      case Session => 0 case Run => 1 case Message => 2 case EngineMessage => 3
      case RunStep => 4 case ToolCall => 5 case HookRun => 6 case Artifact => 7;
    assert KIND_ORDER[at] == kind;
  }

  lemma EachPresent(archive: Json)
    requires forall kind: Kind :: HasArray(archive, NameOf(kind))
    ensures ArraysComplete(archive)
  {
    assert HasArray(archive, NameOf(Session)) && HasArray(archive, NameOf(Run)) && HasArray(archive, NameOf(Message));
    assert HasArray(archive, NameOf(EngineMessage)) && HasArray(archive, NameOf(RunStep)) && HasArray(archive, NameOf(ToolCall));
    assert HasArray(archive, NameOf(HookRun)) && HasArray(archive, NameOf(Artifact));
  }

  lemma AllKinds(archive: Json)
    ensures ArraysPresent(KIND_ORDER, archive) <==> ArraysComplete(archive)
  {
    forall kind: Kind ensures kind in KIND_ORDER && ArrayKey(kind) == NameOf(kind) {
      KindListed(kind);
    }
    if ArraysPresent(KIND_ORDER, archive) {
      EachPresent(archive);
    }
  }

  /** The rows from the `k`th array on. */
  function RowsFrom(k: nat, archive: Json): seq<Sent>
    requires k <= |KIND_ORDER|
  {
    KindRows(KIND_ORDER[k..], archive)
  }

  lemma RowsFromStep(k: nat, kind: Kind, name: string, archive: Json)
    requires k < |KIND_ORDER| && KIND_ORDER[k] == kind && ArrayKey(kind) == name
    ensures RowsFrom(k, archive) == RowsIn(archive, kind, name) + RowsFrom(k + 1, archive)
  {
    assert KIND_ORDER[k..][1..] == KIND_ORDER[k + 1..];
  }

  lemma LastKindRows(archive: Json)
    ensures RowsFrom(4, archive) == RowsIn(archive, RunStep, "runSteps") + (RowsIn(archive, ToolCall, "toolCalls") +
      (RowsIn(archive, HookRun, "hookRuns") + RowsIn(archive, Artifact, "artifacts")))
  {
    RowsFromStep(4, RunStep, "runSteps", archive);
    RowsFromStep(5, ToolCall, "toolCalls", archive);
    RowsFromStep(6, HookRun, "hookRuns", archive);
    RowsFromStep(7, Artifact, "artifacts", archive);
    assert RowsFrom(8, archive) == [];
    assert RowsFrom(7, archive) == RowsIn(archive, Artifact, "artifacts");
  }

  lemma AllKindRows(archive: Json)
    ensures KindRows(KIND_ORDER, archive) == SentOf(archive)
  {
    assert KIND_ORDER[0..] == KIND_ORDER;
    RowsFromStep(0, Session, "sessions", archive);
    RowsFromStep(1, Run, "runs", archive);
    RowsFromStep(2, Message, "messages", archive);
    RowsFromStep(3, EngineMessage, "engineMessages", archive);
    LastKindRows(archive);
  }

  /** The archive's own fields are all there. */
  predicate HeadComplete(archive: Json) {
    && HasText(archive, "id") && HasText(archive, "workspaceId") && HasText(archive, "scopeType") && HasText(archive, "scopeId")
    && HasText(archive, "archivedAt") && HasText(archive, "deletedAt") && HasText(archive, "timezone")
    && Has(archive, "workspace")
    && HasText(archive.fields["workspace"], "name") && HasText(archive.fields["workspace"], "rootPath")
  }

  function ArchiveRow(meta: Meta, archive: Json): seq<Cell>
    requires HeadComplete(archive)
  {
    var fields, workspace := archive.fields, archive.fields["workspace"];
    [Text(fields["id"].s), Text(fields["workspaceId"].s), Text(fields["scopeType"].s), Text(fields["scopeId"].s), Text(fields["archivedAt"].s),
     Text(fields["deletedAt"].s), Text(fields["timezone"].s), JsonText(workspace), Text(workspace.fields["name"].s),
     Text(workspace.fields["rootPath"].s), Text(meta.archiveDate), Text(meta.exportedAt), Text(meta.exportPath)]
  }

  predicate OwnFields(archive: Json) {
    && HasText(archive, "id") && HasText(archive, "workspaceId") && HasText(archive, "scopeType") && HasText(archive, "scopeId")
    && HasText(archive, "archivedAt") && HasText(archive, "deletedAt") && HasText(archive, "timezone") && Has(archive, "workspace")
  }

  lemma EightColumns(cs: seq<Column>, row: Json)
    requires |cs| == 8
    ensures AllReadable(cs, row)
       <==> (Readable(cs[0], row) && Readable(cs[1], row) && Readable(cs[2], row) && Readable(cs[3], row)
             && Readable(cs[4], row) && Readable(cs[5], row) && Readable(cs[6], row) && Readable(cs[7], row))
  {
  }

  lemma TextShown(key: string, row: Json, cell: Cell)
    requires Shows(RequiredText(key), row, cell)
    ensures HasText(row, key) && cell == Text(row.fields[key].s)
  {
  }

  function OwnCells(archive: Json): seq<Cell>
    requires OwnFields(archive)
  {
    var fields := archive.fields;
    [Text(fields["id"].s), Text(fields["workspaceId"].s), Text(fields["scopeType"].s), Text(fields["scopeId"].s), Text(fields["archivedAt"].s),
     Text(fields["deletedAt"].s), Text(fields["timezone"].s), JsonText(fields["workspace"])]
  }

  lemma OwnCellsShown(archive: Json, cells: seq<Cell>)
    requires AllShown(ArchiveColumns(), archive, cells)
    ensures OwnFields(archive) && cells == OwnCells(archive)
  {
    var cs := ArchiveColumns();
    TextShown("id", archive, cells[0]);
    TextShown("workspaceId", archive, cells[1]);
    TextShown("scopeType", archive, cells[2]);
    TextShown("scopeId", archive, cells[3]);
    TextShown("archivedAt", archive, cells[4]);
    TextShown("deletedAt", archive, cells[5]);
    TextShown("timezone", archive, cells[6]);
    assert Shows(cs[7], archive, cells[7]);
  }

  lemma OwnFieldsReadable(archive: Json)
    ensures AllReadable(ArchiveColumns(), archive) <==> OwnFields(archive)
  {
    EightColumns(ArchiveColumns(), archive);
  }

  lemma OwnCellsRead(archive: Json, cells: Option<seq<Cell>>)
    requires cells.Some? <==> AllReadable(ArchiveColumns(), archive)
    requires cells.Some? ==> AllShown(ArchiveColumns(), archive, cells.value)
    ensures cells.Some? <==> OwnFields(archive)
    ensures OwnFields(archive) ==> cells == Some(OwnCells(archive))
  {
    OwnFieldsReadable(archive);
    if cells.Some? {
      OwnCellsShown(archive, cells.value);
    }
  }

  lemma OwnFieldsRead(archive: Json)
    ensures ReadColumns(ArchiveColumns(), archive).Some? <==> OwnFields(archive)
    ensures OwnFields(archive) ==> ReadColumns(ArchiveColumns(), archive) == Some(OwnCells(archive))
  {
    ColumnsRead(ArchiveColumns(), archive);
    OwnCellsRead(archive, ReadColumns(ArchiveColumns(), archive));
  }

  lemma NamesRead(workspace: Json)
    ensures ReadColumns(WorkspaceColumns(), workspace).Some? <==> (HasText(workspace, "name") && HasText(workspace, "rootPath"))
    ensures ReadColumns(WorkspaceColumns(), workspace).Some? ==>
      ReadColumns(WorkspaceColumns(), workspace).value == [Text(workspace.fields["name"].s), Text(workspace.fields["rootPath"].s)]
  {
    var cs := WorkspaceColumns();
    ColumnsRead(cs, workspace);
    assert AllReadable(cs, workspace) ==> Readable(cs[0], workspace) && Readable(cs[1], workspace);
    if AllReadable(cs, workspace) {
      var cells := ReadColumns(cs, workspace).value;
      assert Shows(cs[0], workspace, cells[0]) && Shows(cs[1], workspace, cells[1]);
    }
  }

  lemma HeadInsert(t: Tables, meta: Meta, archive: Json)
    ensures InsertArchive(t, meta, archive).Some? <==> HeadComplete(archive)
    ensures HeadComplete(archive) ==>
      InsertArchive(t, meta, archive) == Some(t.(archives := t.archives[TextOf(archive, "id") := ArchiveRow(meta, archive)]))
  {
    OwnFieldsRead(archive);
    if OwnFields(archive) {
      var workspace := archive.fields["workspace"];
      NamesRead(workspace);
      if HeadComplete(archive) {
        assert OwnCells(archive) + [Text(workspace.fields["name"].s), Text(workspace.fields["rootPath"].s)] +
          [Text(meta.archiveDate), Text(meta.exportedAt), Text(meta.exportPath)] == ArchiveRow(meta, archive);
      }
    }
  }

  // ---- the whole bundle ----------------------------------------------------------------------------------------------------

  /** The archive has its fields, its eight arrays and in them only complete rows. */
  ghost predicate Complete(archive: Json) {
    HeadComplete(archive) && ArraysComplete(archive) && AllComplete(SentOf(archive))
  }

  ghost predicate EachComplete(archives: seq<Json>) {
    forall i :: 0 <= i < |archives| ==> Complete(archives[i])
  }

  function ArchiveId(archive: Json): string {
    TextOf(archive, "id")
  }

  function ShowsArchive(meta: Meta): (Json, seq<Cell>) -> bool {
    (archive, cells) => HeadComplete(archive) && cells == ArchiveRow(meta, archive)
  }

  /** `u` is `t` with these archives and their rows written. */
  ghost predicate Written(meta: Meta, t: Tables, u: Tables, archives: seq<Json>, ds: seq<Sent>) {
    && Holds(t.rows, u.rows, ds, KeyOf, RowShown)
    && Holds(t.archives, u.archives, archives, ArchiveId, ShowsArchive(meta))
    && u.manifest == t.manifest
  }

  lemma WholeWrites(t: Tables, meta: Meta, archive: Json)
    ensures InsertWhole(t, meta, archive).Some? <==> Complete(archive)
    ensures Complete(archive) ==> Written(meta, t, InsertWhole(t, meta, archive).value, [archive], SentOf(archive))
  {
    HeadInsert(t, meta, archive);
    AllKinds(archive);
    AllKindRows(archive);
    if HeadComplete(archive) {
      var id := TextOf(archive, "id");
      var u := InsertArchive(t, meta, archive).value;
      KindsWrite(u, KIND_ORDER, archive);
      HoldsOne(t.archives, archive, ArchiveRow(meta, archive), ArchiveId, ShowsArchive(meta));
    }
  }

  lemma WrittenConcat(meta: Meta, t: Tables, u: Tables, w: Tables, a: seq<Json>, b: seq<Json>, ds: seq<Sent>, es: seq<Sent>)
    requires Written(meta, t, u, a, ds) && Written(meta, u, w, b, es)
    ensures Written(meta, t, w, a + b, ds + es)
  {
    HoldsConcat(t.rows, u.rows, w.rows, ds, es, KeyOf, RowShown);
    HoldsConcat(t.archives, u.archives, w.archives, a, b, ArchiveId, ShowsArchive(meta));
  }

  lemma {:induction false} AllWrite(t: Tables, meta: Meta, archives: seq<Json>)
    ensures InsertAll(t, meta, archives).Some? <==> EachComplete(archives)
    ensures EachComplete(archives) ==> Written(meta, t, InsertAll(t, meta, archives).value, archives, SentBy(archives))
    decreases |archives|
  {
    if archives == [] {
      HoldsNothing(t.rows, KeyOf, RowShown);
      HoldsNothing(t.archives, ArchiveId, ShowsArchive(meta));
    } else {
      var rest := archives[1..];
      assert archives == [archives[0]] + rest;
      assert EachComplete(archives) <==> Complete(archives[0]) && EachComplete(rest);
      WholeWrites(t, meta, archives[0]);
      if Complete(archives[0]) {
        var u := InsertWhole(t, meta, archives[0]).value;
        AllWrite(u, meta, rest);
        if EachComplete(rest) {
          WrittenConcat(meta, t, u, InsertAll(u, meta, rest).value, [archives[0]], rest, SentOf(archives[0]), SentBy(rest));
        }
      }
    }
  }

  // ---- what is committed ------------------------------------------------------------------------------------------------------

  /** The batch writer succeeds exactly if every archive is complete. */
  lemma WritesIff(meta: Meta, archives: seq<Json>)
    ensures WriteBundle(meta, archives).Some? <==> EachComplete(archives)
  {
    AllWrite(WriteManifest(EMPTY_TABLES, meta, BatchTimezone(archives), |archives|), meta, archives);
  }

  /** A table of rows: a row for exactly the keys sent, each with the fields of the last row sent under its key. */
  ghost predicate HoldsRows(rows: map<(Kind, string, string), seq<Cell>>, ds: seq<Sent>) {
    && (forall k :: k in rows <==> Names(ds, KeyOf, k))
    && (forall i :: IsLast(ds, KeyOf, i) ==> KeyOf(ds[i]) in rows && RowShown(ds[i], rows[KeyOf(ds[i])]))
  }

  ghost predicate HoldsArchives(meta: Meta, table: map<string, seq<Cell>>, archives: seq<Json>) {
    && (forall id :: id in table <==> Names(archives, ArchiveId, id))
    && (forall i :: IsLast(archives, ArchiveId, i) && HeadComplete(archives[i]) ==>
          ArchiveId(archives[i]) in table && table[ArchiveId(archives[i])] == ArchiveRow(meta, archives[i]))
  }

  lemma FreshRows(rows: map<(Kind, string, string), seq<Cell>>, ds: seq<Sent>)
    requires Holds(map[], rows, ds, KeyOf, RowShown)
    ensures HoldsRows(rows, ds)
  {
    forall i | IsLast(ds, KeyOf, i) ensures KeyOf(ds[i]) in rows {
      assert Names(ds, KeyOf, KeyOf(ds[i]));
    }
  }

  lemma FreshArchives(meta: Meta, table: map<string, seq<Cell>>, archives: seq<Json>)
    requires Holds(map[], table, archives, ArchiveId, ShowsArchive(meta))
    ensures HoldsArchives(meta, table, archives)
  {
    forall i | IsLast(archives, ArchiveId, i)
      ensures ArchiveId(archives[i]) in table && ShowsArchive(meta)(archives[i], table[ArchiveId(archives[i])])
    {
      assert Names(archives, ArchiveId, ArchiveId(archives[i]));
    }
  }

  /** It then stores a row for exactly the keys sent, each with the fields of the last row sent under its key,
      an archive for exactly the ids sent, and one manifest row with the first time zone and the count. */
  lemma BundleHolds(meta: Meta, archives: seq<Json>)
    requires WriteBundle(meta, archives).Some?
    ensures var t := WriteBundle(meta, archives).value;
      && HoldsRows(t.rows, SentBy(archives)) && HoldsArchives(meta, t.archives, archives)
      && t.manifest == map[meta.archiveDate := ManifestRow(FirstZone(archives), meta.exportedAt, |archives|)]
  {
    AllWrite(WriteManifest(EMPTY_TABLES, meta, BatchTimezone(archives), |archives|), meta, archives);
    var t := WriteBundle(meta, archives).value;
    FreshRows(t.rows, SentBy(archives));
    FreshArchives(meta, t.archives, archives);
  }

  function FirstZone(archives: seq<Json>): string {
    if archives == [] || !HasText(archives[0], "timezone") then "UTC" else archives[0].fields["timezone"].s
  }

  /** The row stands in the archive's array of its kind. */
  predicate ComesFrom(archive: Json, d: Sent) {
    d.archiveId == ArchiveId(archive) && d.row in Rows(archive, NameOf(d.kind))
  }

  /** The rows sent are those of the arrays of the archives. */
  lemma {:induction false} SentIff(archives: seq<Json>, d: Sent)
    ensures d in SentBy(archives) <==> exists archive :: archive in archives && ComesFrom(archive, d)
    decreases |archives|
  {
    if archives != [] {
      var first, rest := archives[0], archives[1..];
      SentIff(rest, d);
      SentByOne(first, d);
      assert archives == [first] + rest;
      assert SentBy(archives) == SentOf(first) + SentBy(rest);
    }
  }

  function NameOf(kind: Kind): string {
    match kind
    case Session => "sessions"
    case Run => "runs"
    case Message => "messages"
    case EngineMessage => "engineMessages"
    case RunStep => "runSteps"
    case ToolCall => "toolCalls"
    case HookRun => "hookRuns"
    case Artifact => "artifacts"
  }

  lemma InTagged(kind: Kind, archiveId: string, rows: seq<Json>, d: Sent)
    ensures d in Tagged(kind, archiveId, rows) <==> d.kind == kind && d.archiveId == archiveId && d.row in rows
  {
    if d.kind == kind && d.archiveId == archiveId && d.row in rows {
      var i :| 0 <= i < |rows| && rows[i] == d.row;
      assert Tagged(kind, archiveId, rows)[i] == d;
    }
  }

  lemma SentByOne(archive: Json, d: Sent)
    ensures d in SentOf(archive) <==> ComesFrom(archive, d)
  {
    var id := ArchiveId(archive);
    InTagged(Session, id, Rows(archive, "sessions"), d);
    InTagged(Run, id, Rows(archive, "runs"), d);
    InTagged(Message, id, Rows(archive, "messages"), d);
    InTagged(EngineMessage, id, Rows(archive, "engineMessages"), d);
    InTagged(RunStep, id, Rows(archive, "runSteps"), d);
    InTagged(ToolCall, id, Rows(archive, "toolCalls"), d);
    InTagged(HookRun, id, Rows(archive, "hookRuns"), d);
    InTagged(Artifact, id, Rows(archive, "artifacts"), d);
  }

  /** When no key is sent twice, every row sent is stored. */
  lemma NothingIsLost(meta: Meta, archives: seq<Json>, i: nat)
    requires EachComplete(archives) && i < |SentBy(archives)|
    requires forall j, k :: 0 <= j < k < |SentBy(archives)| ==> KeyOf(SentBy(archives)[j]) != KeyOf(SentBy(archives)[k])
    ensures WriteBundle(meta, archives).Some?
    ensures var t := WriteBundle(meta, archives).value; var d := SentBy(archives)[i]; KeyOf(d) in t.rows && RowShown(d, t.rows[KeyOf(d)])
  {
    WritesIff(meta, archives);
    BundleHolds(meta, archives);
    assert IsLast(SentBy(archives), KeyOf, i);
  }
}
