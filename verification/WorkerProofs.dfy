/** Over every line stream: each response belongs to one delimited request, an abandoned or failing
    request commits nothing, and well-formed requests get the batch writer's result. */
module WorkerProofs {
  import opened Options
  import opened Bundle
  import opened BundleWorker
  import opened BundleProofs

  // ---- segments -------------------------------------------------------------------------------------------------

  predicate Boundary(l: Line) {
    l.Parsed? && !l.record.Data?
  }

  /** The rows among the lines. */
  function RowsIn(lines: seq<Line>): seq<RowRecord>
    decreases |lines|
  {
    if lines == [] then []
    else
      var init, last := RowsIn(lines[..|lines| - 1]), lines[|lines| - 1];
      if last.Parsed? && last.record.Data? then init + [last.record.row] else init
  }

  predicate Quiet(lines: seq<Line>) {
    forall l :: l in lines ==> !Boundary(l) && l != Garbled
  }

  /** Lines `i` to `j` are one request: its start, rows and blanks, its end. */
  ghost predicate Delimited(lines: seq<Line>, i: nat, j: nat, requestId: string, meta: Meta) {
    && i < j < |lines|
    && lines[i] == Parsed(RequestStart(requestId, meta)) && lines[j] == Parsed(RequestEnd(requestId))
    && Quiet(lines[i + 1..j])
  }

  ghost predicate Answers(lines: seq<Line>, i: nat, j: nat, meta: Meta, o: Outcome) {
    && Delimited(lines, i, j, o.requestId, meta)
    && o == OutcomeOf(o.requestId, meta, Collected(meta, RowsIn(lines[i + 1..j])))
  }

  ghost predicate Answered(lines: seq<Line>, o: Outcome) {
    exists i: nat, j: nat, meta: Meta :: Answers(lines, i, j, meta, o)
  }

  /** The open request started at line `i` and holds exactly the rows sent since. */
  ghost predicate OpenSince(lines: seq<Line>, i: nat, a: Active) {
    && i < |lines| && lines[i] == Parsed(RequestStart(a.requestId, a.meta)) && Quiet(lines[i + 1..])
    && a.progress == Collected(a.meta, RowsIn(lines[i + 1..]))
  }

  ghost predicate CommittedBy(outcomes: seq<Outcome>, path: string, tables: Tables) {
    exists k :: 0 <= k < |outcomes| && outcomes[k].ok && outcomes[k].outputPath == path && outcomes[k].bundle == Some(tables)
  }

  ghost predicate FilesExplained(s: WorkerState) {
    forall path :: path in s.files ==> s.files[path] == EMPTY_TABLES || CommittedBy(s.outcomes, path, s.files[path])
  }

  ghost predicate History(lines: seq<Line>, s: WorkerState) {
    && (forall k :: 0 <= k < |s.outcomes| ==> Answered(lines, s.outcomes[k]))
    && (s.active.Some? ==> exists i: nat :: OpenSince(lines, i, s.active.value))
    && FilesExplained(s)
  }

  // ---- every response is one request's ------------------------------------------------------------------------------

  lemma AnsweredLater(lines: seq<Line>, l: Line, o: Outcome)
    requires Answered(lines, o)
    ensures Answered(lines + [l], o)
  {
    AnsweredIn(lines, lines + [l], o);
  }

  lemma AnsweredIn(lines: seq<Line>, more: seq<Line>, o: Outcome)
    requires lines <= more && Answered(lines, o)
    ensures Answered(more, o)
  {
    var i: nat, j: nat, meta: Meta :| Answers(lines, i, j, meta, o);
    assert more[i + 1..j] == lines[i + 1..j];
    assert Answers(more, i, j, meta, o);
  }

  lemma OpenLater(lines: seq<Line>, l: Line, i: nat, a: Active, b: Active)
    requires OpenSince(lines, i, a) && !Boundary(l) && l != Garbled
    requires b == if l.Parsed? then a.(progress := ApplyRecord(a.meta, a.progress, l.record.row)) else a
    ensures OpenSince(lines + [l], i, b)
  {
    var rest := lines[i + 1..];
    assert (lines + [l])[i + 1..] == rest + [l];
    assert (rest + [l])[..|rest|] == rest;
    if l.Parsed? {
      ApplySnoc(a.meta, FRESH, RowsIn(rest), l.record.row);
    }
  }

  lemma ClosedAnswers(lines: seq<Line>, requestId: string, i: nat, a: Active)
    requires OpenSince(lines, i, a) && a.requestId == requestId
    ensures Answered(lines + [Parsed(RequestEnd(requestId))], OutcomeOf(requestId, a.meta, a.progress))
  {
    var all := lines + [Parsed(RequestEnd(requestId))];
    assert all[i + 1..|lines|] == lines[i + 1..];
    assert Answers(all, i, |lines|, a.meta, OutcomeOf(requestId, a.meta, a.progress));
  }

  lemma JustOpened(lines: seq<Line>, requestId: string, meta: Meta)
    ensures OpenSince(lines + [Parsed(RequestStart(requestId, meta))], |lines|, Active(requestId, meta, FRESH))
  {
    var all := lines + [Parsed(RequestStart(requestId, meta))];
    assert all[|lines| + 1..] == [];
  }

  lemma OutcomesKept(lines: seq<Line>, l: Line, outcomes: seq<Outcome>)
    requires forall k :: 0 <= k < |outcomes| ==> Answered(lines, outcomes[k])
    ensures forall k :: 0 <= k < |outcomes| ==> Answered(lines + [l], outcomes[k])
  {
    forall k | 0 <= k < |outcomes| ensures Answered(lines + [l], outcomes[k]) {
      AnsweredLater(lines, l, outcomes[k]);
    }
  }

  lemma FinishExplainsFiles(s: WorkerState, requestId: string, a: Active)
    requires FilesExplained(s)
    ensures FilesExplained(Finish(s, requestId, a))
  {
    var u := Finish(s, requestId, a);
    forall path | path in u.files ensures u.files[path] == EMPTY_TABLES || CommittedBy(u.outcomes, path, u.files[path]) {
      if !a.progress.failed && path == a.meta.outputPath {
        assert u.outcomes[|s.outcomes|].bundle == Some(u.files[path]);
      } else if u.files[path] != EMPTY_TABLES {
        var k :| 0 <= k < |s.outcomes| && s.outcomes[k].ok && s.outcomes[k].outputPath == path && s.outcomes[k].bundle == Some(s.files[path]);
        assert u.outcomes[k] == s.outcomes[k];
      }
    }
  }

  lemma StepKeepsHistory(lines: seq<Line>, s: WorkerState, l: Line)
    requires History(lines, s) && Step(s, l).Some?
    ensures History(lines + [l], Step(s, l).value)
  {
    OutcomesKept(lines, l, s.outcomes);
    match l
    case Blank =>
      if s.active.Some? {
        var i: nat :| OpenSince(lines, i, s.active.value);
        OpenLater(lines, l, i, s.active.value, s.active.value);
      }
    case Parsed(RequestStart(requestId, meta)) => JustOpened(lines, requestId, meta);
    case Parsed(RequestEnd(requestId)) =>
      var i: nat :| OpenSince(lines, i, s.active.value);
      ClosedAnswers(lines, requestId, i, s.active.value);
      FinishExplainsFiles(s, requestId, s.active.value);
    case Parsed(Data(d)) =>
      var i: nat :| OpenSince(lines, i, s.active.value);
      OpenLater(lines, l, i, s.active.value, Step(s, l).value.active.value);
  }

  lemma HistoryAnswers(lines: seq<Line>, s: WorkerState, k: nat)
    requires History(lines, s) && k < |s.outcomes|
    ensures Answered(lines, s.outcomes[k])
  {
  }

  lemma StoppedStays(lines: seq<Line>)
    requires lines != [] && !Feed(lines).ok
    ensures Feed(lines).state == Feed(lines[..|lines| - 1]).state
  {
  }

  /** Until the worker stops with an error, its whole state is explained by the lines. */
  lemma {:induction false} FeedHasHistory(lines: seq<Line>)
    requires Feed(lines).ok
    ensures History(lines, Feed(lines).state)
    decreases |lines|
  {
    if lines != [] {
      var init, last := lines[..|lines| - 1], lines[|lines| - 1];
      FeedHasHistory(init);
      StepKeepsHistory(init, Feed(init).state, last);
      assert init + [last] == lines;
    }
  }

  /** Whatever is sent, every response belongs to one request delimited by its own start and end, and an
      ok response committed exactly the rows between them. */
  lemma {:induction false} EveryResponseAnswered(lines: seq<Line>, k: nat)
    requires k < |Feed(lines).state.outcomes|
    ensures Answered(lines, Feed(lines).state.outcomes[k])
    decreases |lines|
  {
    if Feed(lines).ok {
      FeedHasHistory(lines);
      HistoryAnswers(lines, Feed(lines).state, k);
    } else {
      StoppedStays(lines);
      EveryResponseAnswered(lines[..|lines| - 1], k);
      AnsweredIn(lines[..|lines| - 1], lines, Feed(lines).state.outcomes[k]);
    }
  }

  // ---- failure ---------------------------------------------------------------------------------------------------------

  lemma RowAcceptance(t: Tables, kind: Kind, archiveId: string, row: Json)
    ensures InsertRow(t, kind, archiveId, row).Some? <==> RowAccepted(kind, row)
  {
  }

  lemma ArchiveAcceptance(t: Tables, meta: Meta, archive: Json)
    ensures InsertArchive(t, meta, archive).Some? <==> ArchiveAccepted(meta, archive)
    ensures ArchiveAccepted(meta, archive) ==> ReadColumn(OptionalText("timezone"), archive).Some?
  {
    if InsertArchive(t, meta, archive).Some? {
      AcceptedHasTimezone(t, meta, archive);
    }
  }

  /** The record alone decides whether it can be written. */
  predicate BadRecord(meta: Meta, d: RowRecord) {
    match d
    case TableRecord(kind, _, row) => !RowAccepted(kind, row)
    case ArchiveRecord(archive) => !ArchiveAccepted(meta, archive)
  }

  lemma RecordFails(meta: Meta, p: Progress, d: RowRecord)
    requires !p.failed
    ensures ApplyRecord(meta, p, d).failed <==> BadRecord(meta, d)
  {
    match d
    case TableRecord(kind, archiveId, row) => RowAcceptance(p.tables, kind, archiveId, row);
    case ArchiveRecord(archive) => ArchiveAcceptance(p.tables, meta, archive);
  }

  lemma {:induction false} FailsIffBadRecord(meta: Meta, p: Progress, ds: seq<RowRecord>)
    requires !p.failed
    ensures ApplyRecords(meta, p, ds).failed <==> exists d :: d in ds && BadRecord(meta, d)
    decreases |ds|
  {
    if ds != [] {
      assert ds == [ds[0]] + ds[1..];
      RecordFails(meta, p, ds[0]);
      if BadRecord(meta, ds[0]) {
        FailedStays(meta, ApplyRecord(meta, p, ds[0]), ds[1..]);
      } else {
        FailsIffBadRecord(meta, ApplyRecord(meta, p, ds[0]), ds[1..]);
      }
    }
  }

  /** A request commits nothing if and only if one of its rows is bad; otherwise it commits them all. */
  lemma CommitsNothingIff(requestId: string, meta: Meta, ds: seq<RowRecord>)
    ensures var o := OutcomeOf(requestId, meta, Collected(meta, ds));
      && (o.bundle.None? <==> exists d :: d in ds && BadRecord(meta, d))
      && (o.ok <==> o.bundle.Some?)
  {
    FailsIffBadRecord(meta, FRESH, ds);
  }

  /** A request whose start is followed by anything but its end commits nothing: the next start, a foreign
      end or the end of the input stops the worker with the abandoned request's file empty. */
  lemma AbandonedCommitsNothing(lines: seq<Line>, next: Line)
    requires Feed(lines).ok && Feed(lines).state.active.Some?
    requires Boundary(next) && next != Parsed(RequestEnd(Feed(lines).state.active.value.requestId))
    ensures !Feed(lines + [next]).ok && Feed(lines + [next]).state == Feed(lines).state
  {
    assert (lines + [next])[..|lines|] == lines;
  }

  /** While a request is open its own output file is the empty one. */
  lemma {:induction false} OpenFileIsEmpty(lines: seq<Line>)
    ensures var s := Feed(lines).state;
      s.active.Some? ==> s.active.value.meta.outputPath in s.files && s.files[s.active.value.meta.outputPath] == EMPTY_TABLES
    decreases |lines|
  {
    if lines != [] {
      OpenFileIsEmpty(lines[..|lines| - 1]);
    }
  }

  // ---- a sender's requests ------------------------------------------------------------------------------------------------

  /** One `writeBundle` call; the worker's queue sends them one after the other. */
  datatype Job = Job(requestId: string, meta: Meta, archives: seq<Json>)

  function DataLines(ds: seq<RowRecord>): (r: seq<Line>)
    ensures |r| == |ds|
  {
    seq(|ds|, i requires 0 <= i < |ds| => Parsed(Data(ds[i])))
  }

  function JobLines(j: Job): seq<Line>
    requires AllSendable(j.archives)
  {
    [Parsed(RequestStart(j.requestId, j.meta))] + DataLines(BundleRecords(j.archives)) + [Parsed(RequestEnd(j.requestId))]
  }

  ghost predicate AllJobsSendable(jobs: seq<Job>) {
    forall i :: 0 <= i < |jobs| ==> AllSendable(jobs[i].archives)
  }

  function SentLines(jobs: seq<Job>): seq<Line>
    requires AllJobsSendable(jobs)
  {
    if jobs == [] then [] else SentLines(jobs[..|jobs| - 1]) + JobLines(jobs[|jobs| - 1])
  }

  lemma FeedSnoc(lines: seq<Line>, l: Line)
    requires Feed(lines).ok
    ensures Feed(lines + [l]) == match Step(Feed(lines).state, l) case None => Served(Feed(lines).state, false) case Some(u) => Served(u, true)
  {
    assert (lines + [l])[..|lines|] == lines;
  }

  lemma {:induction false} FeedData(lines: seq<Line>, a: Active, ds: seq<RowRecord>)
    requires Feed(lines).ok && Feed(lines).state.active == Some(a)
    ensures Feed(lines + DataLines(ds))
         == Served(Feed(lines).state.(active := Some(a.(progress := ApplyRecords(a.meta, a.progress, ds)))), true)
    decreases |ds|
  {
    if ds == [] {
      assert lines + DataLines(ds) == lines;
    } else {
      var init, last := ds[..|ds| - 1], ds[|ds| - 1];
      assert ds == init + [last];
      assert DataLines(ds) == DataLines(init) + [Parsed(Data(last))];
      assert lines + DataLines(ds) == lines + DataLines(init) + [Parsed(Data(last))];
      FeedData(lines, a, init);
      FeedSnoc(lines + DataLines(init), Parsed(Data(last)));
      ApplySnoc(a.meta, a.progress, init, last);
    }
  }

  ghost predicate IdleAfter(lines: seq<Line>) {
    Feed(lines).ok && Feed(lines).state.active.None?
  }

  lemma FeedStart(lines: seq<Line>, requestId: string, meta: Meta)
    requires IdleAfter(lines)
    ensures var u := Feed(lines + [Parsed(RequestStart(requestId, meta))]);
      u.ok && u.state.active == Some(Active(requestId, meta, FRESH)) && u.state.outcomes == Feed(lines).state.outcomes
  {
    FeedSnoc(lines, Parsed(RequestStart(requestId, meta)));
  }

  lemma FeedEnd(lines: seq<Line>, a: Active)
    requires Feed(lines).ok && Feed(lines).state.active == Some(a)
    ensures IdleAfter(lines + [Parsed(RequestEnd(a.requestId))])
    ensures Feed(lines + [Parsed(RequestEnd(a.requestId))]).state.outcomes
         == Feed(lines).state.outcomes + [OutcomeOf(a.requestId, a.meta, a.progress)]
  {
    FeedSnoc(lines, Parsed(RequestEnd(a.requestId)));
  }

  lemma FeedJob(lines: seq<Line>, j: Job)
    requires IdleAfter(lines) && AllSendable(j.archives)
    ensures IdleAfter(lines + JobLines(j))
    ensures Feed(lines + JobLines(j)).state.outcomes
         == Feed(lines).state.outcomes + [OutcomeOf(j.requestId, j.meta, Collected(j.meta, BundleRecords(j.archives)))]
  {
    var ds := BundleRecords(j.archives);
    var started := lines + [Parsed(RequestStart(j.requestId, j.meta))];
    var sent := started + DataLines(ds);
    FeedStart(lines, j.requestId, j.meta);
    FeedData(started, Active(j.requestId, j.meta, FRESH), ds);
    FeedEnd(sent, Active(j.requestId, j.meta, Collected(j.meta, ds)));
    JobLinesSplit(lines, j);
  }

  lemma JobLinesSplit(lines: seq<Line>, j: Job)
    requires AllSendable(j.archives)
    ensures lines + JobLines(j)
         == lines + [Parsed(RequestStart(j.requestId, j.meta))] + DataLines(BundleRecords(j.archives)) + [Parsed(RequestEnd(j.requestId))]
  {
    Regroup(lines, [Parsed(RequestStart(j.requestId, j.meta))], DataLines(BundleRecords(j.archives)), [Parsed(RequestEnd(j.requestId))]);
  }

  lemma Regroup(a: seq<Line>, b: seq<Line>, c: seq<Line>, d: seq<Line>)
    ensures a + (b + c + d) == a + b + c + d
  {
  }

  /** The outcome a batch writer would have reported. */
  predicate MatchesBatch(j: Job, o: Outcome) {
    && o.requestId == j.requestId && o.outputPath == j.meta.outputPath
    && o.bundle == WriteBundle(j.meta, j.archives) && (o.ok <==> o.bundle.Some?)
    && (o.ok ==> o.archiveCount == |j.archives|)
  }

  ghost predicate AllMatch(jobs: seq<Job>, outcomes: seq<Outcome>) {
    |outcomes| == |jobs| && forall k :: 0 <= k < |jobs| ==> MatchesBatch(jobs[k], outcomes[k])
  }

  lemma JobMatchesBatch(j: Job)
    requires AllSendable(j.archives)
    ensures MatchesBatch(j, OutcomeOf(j.requestId, j.meta, Collected(j.meta, BundleRecords(j.archives))))
  {
    StreamEqualsBatch(j.meta, j.archives);
  }

  /** The worker refines the batch writer: whatever requests are queued, each gets exactly the batch
      writer's result, in order, whether or not others fail. */
  lemma {:induction false} WorkerRefinesBatch(jobs: seq<Job>)
    requires AllJobsSendable(jobs)
    ensures ServedAll(jobs, SentLines(jobs))
    decreases |jobs|
  {
    if jobs == [] {
      assert Feed([]) == Served(IDLE, true);
    } else {
      var init, last := jobs[..|jobs| - 1], jobs[|jobs| - 1];
      InitAndLast(jobs);
      WorkerRefinesBatch(init);
      NextJobMatches(SentLines(init), init, last);
    }
  }

  lemma InitAndLast<T>(s: seq<T>)
    requires s != []
    ensures s[..|s| - 1] + [s[|s| - 1]] == s
  {
  }

  /** The lines are accepted, no request is left open, and each job got the batch writer's result. */
  ghost predicate ServedAll(jobs: seq<Job>, lines: seq<Line>) {
    IdleAfter(lines) && AllMatch(jobs, Feed(lines).state.outcomes)
  }

  lemma NextJobMatches(lines: seq<Line>, jobs: seq<Job>, j: Job)
    requires ServedAll(jobs, lines) && AllSendable(j.archives)
    ensures ServedAll(jobs + [j], lines + JobLines(j))
  {
    FeedJob(lines, j);
    JobMatchesBatch(j);
    AllMatchSnoc(jobs, j, Feed(lines).state.outcomes, OutcomeOf(j.requestId, j.meta, Collected(j.meta, BundleRecords(j.archives))));
  }

  lemma AllMatchSnoc(jobs: seq<Job>, j: Job, outcomes: seq<Outcome>, o: Outcome)
    requires AllMatch(jobs, outcomes) && MatchesBatch(j, o)
    ensures AllMatch(jobs + [j], outcomes + [o])
  {
  }

  // ---- the headed stream --------------------------------------------------------------------------------------------------

  function StreamLines(ds: seq<RowRecord>): (r: seq<StreamLine>)
    ensures |r| == |ds|
  {
    seq(|ds|, i requires 0 <= i < |ds| => Row(ds[i]))
  }

  lemma {:induction false} StreamRowsBack(ds: seq<RowRecord>)
    ensures StreamRows(StreamLines(ds)) == Some(ds)
    decreases |ds|
  {
    if ds != [] {
      var init := ds[..|ds| - 1];
      assert StreamLines(ds)[..|ds| - 1] == StreamLines(init);
      StreamRowsBack(init);
      assert init + [ds[|ds| - 1]] == ds;
    }
  }

  /** The one-shot stream writer stores what the batch writer stores. */
  lemma HeadedStreamEqualsBatch(meta: Meta, archives: seq<Json>)
    requires AllSendable(archives)
    ensures ReadStream([Header(meta)] + StreamLines(BundleRecords(archives))) == WriteBundle(meta, archives)
  {
    var ds := BundleRecords(archives);
    var lines := [Header(meta)] + StreamLines(ds);
    assert lines[1..] == StreamLines(ds);
    StreamRowsBack(ds);
    StreamEqualsBatch(meta, archives);
  }

  lemma {:induction false} BadLineStays(lines: seq<StreamLine>, n: nat)
    requires n <= |lines| && StreamRows(lines[..n]).None?
    ensures StreamRows(lines).None?
    decreases |lines|
  {
    if n < |lines| {
      assert lines[..|lines| - 1][..n] == lines[..n];
      BadLineStays(lines[..|lines| - 1], n);
    } else {
      assert lines[..n] == lines;
    }
  }

  lemma {:induction false} RowsGrow(lines: seq<StreamLine>, n: nat)
    requires n <= |lines| && StreamRows(lines).Some?
    ensures StreamRows(lines[..n]).Some? && StreamRows(lines[..n]).value <= StreamRows(lines).value
    decreases |lines|
  {
    if n < |lines| {
      assert lines[..|lines| - 1][..n] == lines[..n];
      RowsGrow(lines[..|lines| - 1], n);
    } else {
      assert lines[..n] == lines;
    }
  }

  lemma FailsForGood(meta: Meta, lines: seq<StreamLine>, n: nat)
    requires n <= |lines| && StreamRows(lines[..n]).Some? && Collected(meta, StreamRows(lines[..n]).value).failed
    ensures StreamRows(lines).Some? ==> Collected(meta, StreamRows(lines).value).failed
  {
    if StreamRows(lines).Some? {
      RowsGrow(lines, n);
      var a, b := StreamRows(lines[..n]).value, StreamRows(lines).value;
      assert b == a + b[|a|..];
      ApplyConcat(meta, FRESH, a, b[|a|..]);
      FailedStays(meta, Collected(meta, a), b[|a|..]);
    }
  }

  /** `write_bundle_stream_from_reader`, line by line; it stops at the first bad line or row. */
  method WriteBundleStream(lines: seq<StreamLine>) returns (bundle: Option<Tables>)
    ensures bundle == ReadStream(lines)
  {
    if lines == [] || !lines[0].Header? {
      return None;
    }
    var meta, rest := lines[0].meta, lines[1..];
    var progress := FRESH;
    var i := 0;
    while i < |rest|
      invariant 0 <= i <= |rest| && !progress.failed
      invariant StreamRows(rest[..i]).Some? && progress == Collected(meta, StreamRows(rest[..i]).value)
    {
      assert rest[..i + 1][..i] == rest[..i];
      match rest[i] {
        case BlankLine =>
        case Row(d) =>
          ApplySnoc(meta, FRESH, StreamRows(rest[..i]).value, d);
          progress := ApplyRecord(meta, progress, d);
          if progress.failed {
            FailsForGood(meta, rest, i + 1);
            return None;
          }
        case _ =>
          BadLineStays(rest, i + 1);
          return None;
      }
      i := i + 1;
    }
    assert rest[..i] == rest;
    return Some(Committed(meta, progress));
  }
}
