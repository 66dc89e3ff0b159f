/** Archive bundles: the JSON values sent, the tables they become (rows.rs, schema.rs), and the
    one-shot batch writer. JSON text is abstracted to the value it stands for. */
module Bundle {
  import opened Options

  datatype Json =
    | Null
    | Bool(b: bool)
    | Int(n: int)
    | Real(digits: string)
    | Str(s: string)
    | Arr(items: seq<Json>)
    | Obj(fields: map<string, Json>)

  datatype Cell = Absent | Text(s: string) | Number(n: int) | JsonText(value: Json)

  datatype Kind = Session | Run | Message | EngineMessage | RunStep | ToolCall | HookRun | Artifact

  // ---- field readers --------------------------------------------------------------------------------------------

  function Field(v: Json, key: string): Option<Json> {
    if v.Obj? && key in v.fields then Some(v.fields[key]) else None
  }

  datatype Column =
    | RequiredText(key: string)
    | OptionalText(key: string)
    | RequiredInteger(key: string)
    | OptionalInteger(key: string)
    | RequiredJson(key: string)
    | JsonIfPresent(key: string)
    | JsonIfNotNull(key: string)
    | WholeRow

  const TWO_63 := 0x8000_0000_0000_0000
  const TWO_64 := 0x1_0000_0000_0000_0000

  /** `as_i64`, or `as_u64` cast to a signed integer. */
  function Integer(v: Json): Option<int> {
    if !v.Int? then None
    else if -TWO_63 <= v.n < TWO_63 then Some(v.n)
    else if 0 <= v.n < TWO_64 then Some(v.n - TWO_64)
    else None
  }

  function IntegerCell(v: Json): Option<Cell> {
    match Integer(v) case None => None case Some(n) => Some(Number(n))
  }

  /** One value of a row, or `None` when the field is missing or of the wrong type. */
  function ReadColumn(c: Column, row: Json): Option<Cell> {
    match c
    case RequiredText(key) =>
      (match Field(row, key) case Some(Str(s)) => Some(Text(s)) case _ => None)
    case OptionalText(key) =>
      (match Field(row, key) case None => Some(Absent) case Some(Null) => Some(Absent) case Some(Str(s)) => Some(Text(s)) case _ => None)
    case RequiredInteger(key) =>
      (match Field(row, key) case None => None case Some(v) => IntegerCell(v))
    case OptionalInteger(key) =>
      (match Field(row, key) case None => Some(Absent) case Some(Null) => Some(Absent) case Some(v) => IntegerCell(v))
    case RequiredJson(key) =>
      (match Field(row, key) case None => None case Some(v) => Some(JsonText(v)))
    case JsonIfPresent(key) =>
      (match Field(row, key) case None => Some(Absent) case Some(v) => Some(JsonText(v)))
    case JsonIfNotNull(key) =>
      (match Field(row, key) case None => Some(Absent) case Some(Null) => Some(Absent) case Some(v) => Some(JsonText(v)))
    case WholeRow => Some(JsonText(row))
  }

  function Columns(kind: Kind): seq<Column> {
    match kind
    case Session =>
      [RequiredText("id"), RequiredText("workspaceId"), RequiredText("subjectRef"), OptionalText("modelRef"), OptionalText("agentName"),
       RequiredText("activeAgentName"), OptionalText("title"), RequiredText("status"), OptionalText("lastRunAt"), RequiredText("createdAt"),
       RequiredText("updatedAt"), WholeRow]
    case Run =>
      [RequiredText("id"), RequiredText("workspaceId"), OptionalText("sessionId"), OptionalText("parentRunId"), RequiredText("triggerType"),
       OptionalText("triggerRef"), OptionalText("agentName"), RequiredText("effectiveAgentName"), RequiredText("status"),
       RequiredText("createdAt"), OptionalText("startedAt"), OptionalText("heartbeatAt"), OptionalText("endedAt"), WholeRow]
    case Message =>
      [RequiredText("id"), RequiredText("sessionId"), OptionalText("runId"), RequiredText("role"), RequiredText("createdAt"),
       RequiredJson("content"), JsonIfNotNull("metadata")]
    case EngineMessage =>
      [RequiredText("id"), RequiredText("sessionId"), OptionalText("runId"), RequiredText("role"), RequiredText("kind"),
       RequiredText("createdAt"), RequiredJson("content"), JsonIfNotNull("metadata")]
    case RunStep =>
      [RequiredText("id"), RequiredText("runId"), RequiredInteger("seq"), RequiredText("stepType"), OptionalText("name"),
       OptionalText("agentName"), RequiredText("status"), OptionalText("startedAt"), OptionalText("endedAt"), JsonIfPresent("input"),
       JsonIfPresent("output")]
    case ToolCall =>
      [RequiredText("id"), RequiredText("runId"), OptionalText("stepId"), RequiredText("sourceType"), RequiredText("toolName"),
       RequiredText("status"), OptionalInteger("durationMs"), RequiredText("startedAt"), RequiredText("endedAt"), JsonIfNotNull("request"),
       JsonIfNotNull("response")]
    case HookRun =>
      [RequiredText("id"), RequiredText("runId"), RequiredText("hookName"), RequiredText("eventName"), RequiredText("status"),
       RequiredText("startedAt"), RequiredText("endedAt"), RequiredJson("capabilities"), JsonIfNotNull("patch"), OptionalText("errorMessage")]
    case Artifact =>
      [RequiredText("id"), RequiredText("runId"), RequiredText("type"), OptionalText("path"), OptionalText("contentRef"),
       RequiredText("createdAt"), JsonIfNotNull("metadata")]
  }

  function ReadColumns(cs: seq<Column>, row: Json): (r: Option<seq<Cell>>)
    ensures r.Some? ==> |r.value| == |cs|
    ensures r.Some? <==> forall c :: c in cs ==> ReadColumn(c, row).Some?
  {
    if cs == [] then Some([])
    else
      assert cs == [cs[0]] + cs[1..];
      match (ReadColumn(cs[0], row), ReadColumns(cs[1..], row))
      case (Some(cell), Some(rest)) => Some([cell] + rest)
      case _ => None
  }

  // ---- the database --------------------------------------------------------------------------------------------------

  datatype ManifestRow = ManifestRow(timezone: string, exportedAt: string, archiveCount: nat)

  /** Tables by primary key; "insert or replace" overwrites. */
  datatype Tables = Tables(
    manifest: map<string, ManifestRow>,
    archives: map<string, seq<Cell>>,
    rows: map<(Kind, string, string), seq<Cell>>)

  const EMPTY_TABLES := Tables(map[], map[], map[])

  datatype Meta = Meta(outputPath: string, archiveDate: string, exportPath: string, exportedAt: string)

  function WriteManifest(t: Tables, meta: Meta, timezone: string, count: nat): Tables {
    t.(manifest := t.manifest[meta.archiveDate := ManifestRow(timezone, meta.exportedAt, count)])
  }

  /** `insert_session_row` and its siblings. */
  function InsertRow(t: Tables, kind: Kind, archiveId: string, row: Json): Option<Tables> {
    match ReadColumns(Columns(kind), row)
    case None => None
    case Some(cells) =>
      if cells != [] && cells[0].Text? then Some(t.(rows := t.rows[(kind, archiveId, cells[0].s) := cells])) else None
  }

  function ArchiveColumns(): seq<Column> {
    [RequiredText("id"), RequiredText("workspaceId"), RequiredText("scopeType"), RequiredText("scopeId"), RequiredText("archivedAt"),
     RequiredText("deletedAt"), RequiredText("timezone"), RequiredJson("workspace")]
  }

  function WorkspaceColumns(): seq<Column> {
    [RequiredText("name"), RequiredText("rootPath")]
  }

  function ArchiveCells(meta: Meta, archive: Json): Option<seq<Cell>> {
    match ReadColumns(ArchiveColumns(), archive)
    case None => None
    case Some(cells) =>
      match Field(archive, "workspace")
      case None => None
      case Some(workspace) =>
        match ReadColumns(WorkspaceColumns(), workspace)
        case None => None
        case Some(more) => Some(cells + more + [Text(meta.archiveDate), Text(meta.exportedAt), Text(meta.exportPath)])
  }

  /** `insert_archive_row`. */
  function InsertArchive(t: Tables, meta: Meta, archive: Json): Option<Tables> {
    match (ArchiveCells(meta, archive), Field(archive, "id"))
    case (Some(cells), Some(Str(id))) => Some(t.(archives := t.archives[id := cells]))
    case _ => None
  }

  /** What `insert_archive_row` returns is decided by the archive alone. */
  predicate ArchiveAccepted(meta: Meta, archive: Json) {
    InsertArchive(EMPTY_TABLES, meta, archive).Some?
  }

  predicate RowAccepted(kind: Kind, row: Json) {
    InsertRow(EMPTY_TABLES, kind, "", row).Some?
  }

  // ---- the batch writer ------------------------------------------------------------------------------------------------

  function ArrayKey(kind: Kind): string {
    match kind
    case Session => "sessions"
    case Run => "runs"
    case Message => "messages"
    case EngineMessage => "engineMessages"
    case RunStep => "runSteps"
    case ToolCall => "toolCalls"
    case HookRun => "hookRuns"
    case Artifact => "artifacts"
  }

  const KIND_ORDER := [Session, Run, Message, EngineMessage, RunStep, ToolCall, HookRun, Artifact]

  function InsertRows(t: Tables, kind: Kind, archiveId: string, rows: seq<Json>): Option<Tables>
    decreases |rows|
  {
    if rows == [] then Some(t)
    else
      match InsertRow(t, kind, archiveId, rows[0])
      case None => None
      case Some(u) => InsertRows(u, kind, archiveId, rows[1..])
  }

  function InsertKinds(t: Tables, kinds: seq<Kind>, archiveId: string, archive: Json): Option<Tables>
    decreases |kinds|
  {
    if kinds == [] then Some(t)
    else
      match Field(archive, ArrayKey(kinds[0]))
      case Some(Arr(rows)) =>
        (match InsertRows(t, kinds[0], archiveId, rows)
         case None => None
         case Some(u) => InsertKinds(u, kinds[1..], archiveId, archive))
      case _ => None
  }

  function InsertWhole(t: Tables, meta: Meta, archive: Json): Option<Tables> {
    match (InsertArchive(t, meta, archive), Field(archive, "id"))
    case (Some(u), Some(Str(id))) => InsertKinds(u, KIND_ORDER, id, archive)
    case _ => None
  }

  function InsertAll(t: Tables, meta: Meta, archives: seq<Json>): Option<Tables>
    decreases |archives|
  {
    if archives == [] then Some(t)
    else
      match InsertWhole(t, meta, archives[0])
      case None => None
      case Some(u) => InsertAll(u, meta, archives[1..])
  }

  function BatchTimezone(archives: seq<Json>): string {
    if archives == [] then "UTC"
    else match Field(archives[0], "timezone") case Some(Str(s)) => s case _ => "UTC"
  }

  /** What `write_bundle` commits, or `None` when it fails and commits nothing. */
  function WriteBundle(meta: Meta, archives: seq<Json>): Option<Tables> {
    InsertAll(WriteManifest(EMPTY_TABLES, meta, BatchTimezone(archives), |archives|), meta, archives)
  }

  lemma InsertRowsStep(t: Tables, kind: Kind, archiveId: string, rows: seq<Json>, i: nat)
    requires i < |rows|
    ensures InsertRows(t, kind, archiveId, rows[i..])
         == match InsertRow(t, kind, archiveId, rows[i]) case None => None case Some(u) => InsertRows(u, kind, archiveId, rows[i + 1..])
  {
    assert rows[i..][1..] == rows[i + 1..];
  }

  lemma InsertAllStep(t: Tables, meta: Meta, archives: seq<Json>, i: nat)
    requires i < |archives|
    ensures InsertAll(t, meta, archives[i..])
         == match InsertWhole(t, meta, archives[i]) case None => None case Some(u) => InsertAll(u, meta, archives[i + 1..])
  {
    assert archives[i..][1..] == archives[i + 1..];
  }

  /** A connection with an open transaction. */
  class ArchiveDatabase {
    var tables: Tables

    constructor ()
      ensures tables == EMPTY_TABLES
    {
      tables := EMPTY_TABLES;
    }

    method InsertOne(kind: Kind, archiveId: string, row: Json) returns (ok: bool)
      modifies this
      ensures ok <==> InsertRow(old(tables), kind, archiveId, row).Some?
      ensures tables == if ok then InsertRow(old(tables), kind, archiveId, row).value else old(tables)
    {
      var cells := ReadColumns(Columns(kind), row);
      if cells.None? || cells.value == [] || !cells.value[0].Text? {
        return false;
      }
      tables := tables.(rows := tables.rows[(kind, archiveId, cells.value[0].s) := cells.value]);
      return true;
    }

    method InsertArray(kind: Kind, archiveId: string, rows: seq<Json>) returns (ok: bool)
      modifies this
      ensures ok <==> InsertRows(old(tables), kind, archiveId, rows).Some?
      ensures ok ==> tables == InsertRows(old(tables), kind, archiveId, rows).value
    {
      ok := true;
      var i := 0;
      while ok && i < |rows|
        invariant 0 <= i <= |rows|
        invariant InsertRows(old(tables), kind, archiveId, rows) == if ok then InsertRows(tables, kind, archiveId, rows[i..]) else None
        decreases |rows| - i, ok
      {
        InsertRowsStep(tables, kind, archiveId, rows, i);
        ok := InsertOne(kind, archiveId, rows[i]);
        i := i + 1;
      }
    }

    /** One archive: its own row, then its arrays in their fixed order. */
    method InsertArchiveAndRows(meta: Meta, archive: Json) returns (ok: bool)
      modifies this
      ensures ok <==> InsertWhole(old(tables), meta, archive).Some?
      ensures ok ==> tables == InsertWhole(old(tables), meta, archive).value
    {
      var id := Field(archive, "id");
      if id.None? || !id.value.Str? {
        return false;
      }
      var inserted := InsertArchive(tables, meta, archive);
      if inserted.None? {
        return false;
      }
      tables := inserted.value;
      ok := InsertKindsInOrder(id.value.s, archive);
    }

    method InsertKindsInOrder(archiveId: string, archive: Json) returns (ok: bool)
      modifies this
      ensures ok <==> InsertKinds(old(tables), KIND_ORDER, archiveId, archive).Some?
      ensures ok ==> tables == InsertKinds(old(tables), KIND_ORDER, archiveId, archive).value
    {
      var k := 0;
      while k < |KIND_ORDER|
        invariant 0 <= k <= |KIND_ORDER|
        invariant InsertKinds(old(tables), KIND_ORDER, archiveId, archive) == InsertKinds(tables, KIND_ORDER[k..], archiveId, archive)
      {
        assert KIND_ORDER[k..][1..] == KIND_ORDER[k + 1..];
        var rows := Field(archive, ArrayKey(KIND_ORDER[k]));
        if rows.None? || !rows.value.Arr? {
          return false;
        }
        var inserted := InsertArray(KIND_ORDER[k], archiveId, rows.value.items);
        if !inserted {
          return false;
        }
        k := k + 1;
      }
      return true;
    }

    /** `insert_archive_rows`: the manifest first, then archive by archive. */
    method InsertArchiveRows(meta: Meta, archives: seq<Json>) returns (ok: bool)
      requires tables == EMPTY_TABLES
      modifies this
      ensures ok <==> WriteBundle(meta, archives).Some?
      ensures ok ==> tables == WriteBundle(meta, archives).value
    {
      tables := WriteManifest(tables, meta, BatchTimezone(archives), |archives|);
      ghost var t := tables;
      ok := true;
      var i := 0;
      while ok && i < |archives|
        invariant 0 <= i <= |archives|
        invariant InsertAll(t, meta, archives) == if ok then InsertAll(tables, meta, archives[i..]) else None
        decreases |archives| - i, ok
      {
        InsertAllStep(tables, meta, archives, i);
        ok := InsertArchiveAndRows(meta, archives[i]);
        i := i + 1;
      }
    }
  }
}
