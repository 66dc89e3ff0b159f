/** The streaming bundle writers (bundle_writer.rs): a worker that serves request after request over
    a line protocol, and the reader of a single headed stream. */
module BundleWorker {
  import opened Options
  import opened Bundle

  // ---- the lines --------------------------------------------------------------------------------------------------

  datatype RowRecord = ArchiveRecord(archive: Json) | TableRecord(kind: Kind, archiveId: string, row: Json)

  datatype Record = RequestStart(requestId: string, meta: Meta) | RequestEnd(requestId: string) | Data(row: RowRecord)

  datatype Line = Blank | Garbled | Parsed(record: Record)

  // ---- one request ---------------------------------------------------------------------------------------------------

  /** What a request has written so far; after a failure the transaction is rolled back and nothing more is written. */
  datatype Progress = Progress(tables: Tables, archiveCount: nat, timezone: Option<string>, failed: bool)

  const FRESH := Progress(EMPTY_TABLES, 0, None, false)

  function Fail(p: Progress): Progress {
    p.(tables := EMPTY_TABLES, failed := true)
  }

  function AddArchive(meta: Meta, p: Progress, archive: Json): Progress {
    var timezone := if p.timezone.Some? then Some(Text(p.timezone.value)) else ReadColumn(OptionalText("timezone"), archive);
    match (timezone, InsertArchive(p.tables, meta, archive))
    case (Some(zone), Some(tables)) => Progress(tables, p.archiveCount + 1, if zone.Text? then Some(zone.s) else None, false)
    case _ => Fail(p)
  }

  /** `apply_serve_write_bundle_record`, and what the worker does when it fails. */
  function ApplyRecord(meta: Meta, p: Progress, d: RowRecord): Progress {
    if p.failed then p
    else
      match d
      case ArchiveRecord(archive) => AddArchive(meta, p, archive)
      case TableRecord(kind, archiveId, row) =>
        match InsertRow(p.tables, kind, archiveId, row)
        case None => Fail(p)
        case Some(tables) => p.(tables := tables)
  }

  function ApplyRecords(meta: Meta, p: Progress, ds: seq<RowRecord>): Progress
    decreases |ds|
  {
    if ds == [] then p else ApplyRecords(meta, ApplyRecord(meta, p, ds[0]), ds[1..])
  }

  function Collected(meta: Meta, ds: seq<RowRecord>): Progress {
    ApplyRecords(meta, FRESH, ds)
  }

  function Committed(meta: Meta, p: Progress): Tables {
    WriteManifest(p.tables, meta, if p.timezone.Some? then p.timezone.value else "UTC", p.archiveCount)
  }

  // ---- the worker --------------------------------------------------------------------------------------------------------

  datatype Active = Active(requestId: string, meta: Meta, progress: Progress)

  /** A response, and what the request committed. */
  datatype Outcome = Outcome(requestId: string, outputPath: string, ok: bool, archiveCount: nat, bundle: Option<Tables>)

  /** `files` is what a reader of each output path would find. */
  datatype WorkerState = WorkerState(active: Option<Active>, files: map<string, Tables>, outcomes: seq<Outcome>)

  const IDLE := WorkerState(None, map[], [])

  function OutcomeOf(requestId: string, meta: Meta, p: Progress): Outcome {
    Outcome(requestId, meta.outputPath, !p.failed, p.archiveCount, if p.failed then None else Some(Committed(meta, p)))
  }

  function Finish(s: WorkerState, requestId: string, a: Active): WorkerState {
    WorkerState(None,
                if a.progress.failed then s.files else s.files[a.meta.outputPath := Committed(a.meta, a.progress)],
                s.outcomes + [OutcomeOf(requestId, a.meta, a.progress)])
  }

  /** One line; `None` ends the worker with an error. */
  function Step(s: WorkerState, line: Line): Option<WorkerState> {
    match line
    case Blank => Some(s)
    case Garbled => None
    case Parsed(RequestStart(requestId, meta)) =>
      if s.active.Some? then None
      else Some(s.(active := Some(Active(requestId, meta, FRESH)), files := s.files[meta.outputPath := EMPTY_TABLES]))
    case Parsed(RequestEnd(requestId)) =>
      if s.active.None? || s.active.value.requestId != requestId then None
      else Some(Finish(s, requestId, s.active.value))
    case Parsed(Data(d)) =>
      if s.active.None? then None
      else Some(s.(active := Some(s.active.value.(progress := ApplyRecord(s.active.value.meta, s.active.value.progress, d)))))
  }

  /** The state when the input ends or the first bad line is met. */
  datatype Served = Served(state: WorkerState, ok: bool)

  function Feed(lines: seq<Line>): Served {
    if lines == [] then Served(IDLE, true)
    else
      var before := Feed(lines[..|lines| - 1]);
      if !before.ok then before
      else
        match Step(before.state, lines[|lines| - 1])
        case None => Served(before.state, false)
        case Some(after) => Served(after, true)
  }

  class Worker {
    var active: Option<Active>
    var files: map<string, Tables>
    var outcomes: seq<Outcome>

    ghost function Contents(): WorkerState
      reads this
    {
      WorkerState(active, files, outcomes)
    }

    constructor ()
      ensures Contents() == IDLE
    {
      active, files, outcomes := None, map[], [];
    }

    /** The body of the loop over the lines. */
    method Handle(line: Line) returns (ok: bool)
      modifies this
      ensures ok <==> Step(old(Contents()), line).Some?
      ensures Contents() == if ok then Step(old(Contents()), line).value else old(Contents())
    {
      match line {
        case Blank => return true;
        case Garbled => return false;
        case Parsed(record) =>
          match record {
            case RequestStart(requestId, meta) =>
              if active.Some? {
                return false;
              }
              files := files[meta.outputPath := EMPTY_TABLES];
              active := Some(Active(requestId, meta, FRESH));
              return true;
            case RequestEnd(requestId) =>
              ok := HandleEnd(requestId);
            case Data(row) =>
              ok := HandleRow(row);
          }
      }
    }

    method HandleEnd(requestId: string) returns (ok: bool)
      modifies this
      ensures ok <==> old(active).Some? && old(active).value.requestId == requestId
      ensures Contents() == if ok then Finish(old(Contents()), requestId, old(active).value) else old(Contents())
    {
      if active.None? || active.value.requestId != requestId {
        return false;
      }
      var request := active.value;
      active := None;
      if request.progress.failed {
        outcomes := outcomes + [Outcome(requestId, request.meta.outputPath, false, request.progress.archiveCount, None)];
      } else {
        var timezone := if request.progress.timezone.Some? then request.progress.timezone.value else "UTC";
        var bundle := WriteManifest(request.progress.tables, request.meta, timezone, request.progress.archiveCount);
        files := files[request.meta.outputPath := bundle];
        outcomes := outcomes + [Outcome(requestId, request.meta.outputPath, true, request.progress.archiveCount, Some(bundle))];
      }
      return true;
    }

    method HandleRow(row: RowRecord) returns (ok: bool)
      modifies this`active
      ensures ok <==> old(active).Some?
      ensures active == if ok then Some(old(active).value.(progress := ApplyRecord(old(active).value.meta, old(active).value.progress, row))) else old(active)
    {
      if active.None? {
        return false;
      }
      if active.value.progress.failed {
        return true;
      }
      active := Some(active.value.(progress := ApplyRecord(active.value.meta, active.value.progress, row)));
      return true;
    }

    /** `serve_write_bundle_stream_from_reader`; a request still open at the end of the input is an error. */
    method Serve(lines: seq<Line>) returns (ok: bool)
      requires Contents() == IDLE
      modifies this
      ensures Contents() == Feed(lines).state
      ensures ok <==> Feed(lines).ok && Feed(lines).state.active.None?
    {
      var i := 0;
      ok := true;
      while ok && i < |lines|
        invariant 0 <= i <= |lines|
        invariant Feed(lines[..i]) == Served(Contents(), ok)
        decreases |lines| - i, ok
      {
        assert lines[..i + 1][..i] == lines[..i];
        ok := Handle(lines[i]);
        i := i + 1;
      }
      if !ok {
        FeedStops(lines, i);
      }
      assert lines[..|lines|] == lines;
      ok := ok && active.None?;
    }
  }

  lemma {:induction false} FeedStops(lines: seq<Line>, n: nat)
    requires n <= |lines| && !Feed(lines[..n]).ok
    ensures Feed(lines) == Feed(lines[..n])
    decreases |lines|
  {
    if n < |lines| {
      assert lines[..|lines| - 1][..n] == lines[..n];
      FeedStops(lines[..|lines| - 1], n);
    } else {
      assert lines[..n] == lines;
    }
  }

  // ---- a single headed stream -----------------------------------------------------------------------------------------------

  datatype StreamLine = BlankLine | GarbledLine | Header(meta: Meta) | Row(row: RowRecord)

  /** The rows of the lines after the header, unless one of them is not a row. */
  function StreamRows(lines: seq<StreamLine>): Option<seq<RowRecord>> {
    if lines == [] then Some([])
    else
      match (StreamRows(lines[..|lines| - 1]), lines[|lines| - 1])
      case (Some(rows), BlankLine) => Some(rows)
      case (Some(rows), Row(d)) => Some(rows + [d])
      case _ => None
  }

  /** `write_bundle_stream_from_reader`: what it commits, or `None`. */
  function ReadStream(lines: seq<StreamLine>): Option<Tables> {
    if lines == [] || !lines[0].Header? then None
    else
      match StreamRows(lines[1..])
      case None => None
      case Some(rows) =>
        var p := Collected(lines[0].meta, rows);
        if p.failed then None else Some(Committed(lines[0].meta, p))
  }
}
