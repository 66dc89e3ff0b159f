/** Following `nextCursor` from page to page: when the walk ends, and exactly when it lists the whole
    filtered table. Nulls among the sort values are the only way to fail. */
module CursorWalk {
  import opened Arith
  import opened Options
  import opened Keyset
  import opened TablePages

  // ---- the walk ---------------------------------------------------------------------------------------------------------

  /** The rows received so far and the cursor of the last page. */
  datatype Walk = Walk(listed: seq<Row>, next: Option<CursorText>)

  function CursorRequest(req: Request, cursor: CursorText): Request {
    req.(cursor := Some(cursor), offset := 0)
  }

  function Gather(listed: seq<Row>, page: Response): Walk {
    if page.Page? then Walk(listed + page.rows, page.nextCursor) else Walk(listed, None)
  }

  /** One more request, with the cursor of the page before, if there is one. */
  function Ask(cfg: TableConfig, db: seq<Row>, req: Request, w: Walk): Walk {
    if w.next.None? then w else Gather(w.listed, Answer(cfg, db, CursorRequest(req, w.next.value)))
  }

  function Iterate(step: Walk -> Walk, w: Walk, n: nat): Walk {
    if n == 0 then w else step(Iterate(step, w, n - 1))
  }

  /** After the first request and up to `n` more. */
  function Visit(cfg: TableConfig, db: seq<Row>, req: Request, n: nat): Walk {
    Iterate((w: Walk) => Ask(cfg, db, req, w), Gather([], Answer(cfg, db, req)), n)
  }

  /** The walk reaches a page without a cursor, and its pages are `all`. */
  ghost predicate Lists(cfg: TableConfig, db: seq<Row>, req: Request, all: seq<Row>) {
    exists n: nat :: Visit(cfg, db, req, n) == Walk(all, None)
  }

  ghost predicate Ends(cfg: TableConfig, db: seq<Row>, req: Request) {
    exists n: nat :: Visit(cfg, db, req, n).next.None?
  }

  /** A first request that is answered. */
  predicate First(req: Request) {
    req.cursor.None? && req.offset <= 0 && !SearchIsRefused(req)
  }

  function Filtered(db: seq<Row>, req: Request): seq<Row> {
    Select(db, Matching(req))
  }

  // ---- one step of the walk --------------------------------------------------------------------------------------------------

  predicate AllNull(k: seq<Option<int>>) {
    forall i :: 0 <= i < |k| ==> k[i].None?
  }

  /** The rows a cursor leaves; one without any value compiles to no condition. */
  function Rest(terms: seq<SortTerm>, rows: seq<Row>, cursor: seq<Option<int>>): seq<Row>
    requires |cursor| == |terms|
  {
    if AllNull(cursor) then rows else Select(rows, PastCursor(terms, cursor))
  }

  lemma CursorPage(cfg: TableConfig, db: seq<Row>, req: Request, values: seq<Option<int>>)
    requires |values| == |cfg.terms| && !SearchIsRefused(req)
    ensures Answer(cfg, db, CursorRequest(req, CursorText(cfg.name, values)))
         == PageOf(cfg, Rest(cfg.terms, Filtered(db, req), values), Clamp(req.limit), 0, false)
  {
    var next := CursorRequest(req, CursorText(cfg.name, values));
    if AllNull(values) {
      SelectSame(db, Matching(req), Wanted(cfg, next, Some(values)));
    } else {
      SelectTwice(db, Matching(req), PastCursor(cfg.terms, values), Wanted(cfg, next, Some(values)));
    }
  }

  lemma FirstPage(cfg: TableConfig, db: seq<Row>, req: Request)
    requires First(req)
    ensures Answer(cfg, db, req) == PageOf(cfg, Filtered(db, req), Clamp(req.limit), 0, req.includeRowCount)
  {
    SelectSame(db, Matching(req), Wanted(cfg, req, None));
  }

  /** A cursor of this table. */
  predicate Sound(cfg: TableConfig, w: Walk) {
    w.next.Some? ==> w.next.value.CursorText? && w.next.value.table == cfg.name && |w.next.value.values| == |cfg.terms|
  }

  /** A clamped page size. */
  type Limit = n: nat | 0 < n <= 200 witness 1

  /** The next page over the filtered rows. */
  function Turn(cfg: TableConfig, rows: seq<Row>, limit: Limit, w: Walk): (u: Walk)
    ensures Sound(cfg, u)
  {
    if w.next.None? then w
    else if !Sound(cfg, w) then Walk(w.listed, None)
    else Gather(w.listed, PageOf(cfg, Rest(cfg.terms, rows, w.next.value.values), limit, 0, false))
  }

  function Turning(cfg: TableConfig, rows: seq<Row>, limit: Limit): Walk -> Walk {
    (w: Walk) => Turn(cfg, rows, limit, w)
  }

  function Start(cfg: TableConfig, rows: seq<Row>, limit: Limit): (w: Walk)
    ensures Sound(cfg, w)
  {
    Gather([], PageOf(cfg, rows, limit, 0, false))
  }

  /** The walk in terms of the filtered rows alone. */
  function Run(cfg: TableConfig, rows: seq<Row>, limit: Limit, n: nat): Walk {
    Iterate(Turning(cfg, rows, limit), Start(cfg, rows, limit), n)
  }

  lemma {:induction false} IteratesAgree(f: Walk -> Walk, g: Walk -> Walk, inv: Walk -> bool, w: Walk, n: nat)
    requires inv(w) && forall u :: inv(u) ==> f(u) == g(u) && inv(f(u))
    ensures Iterate(f, w, n) == Iterate(g, w, n) && inv(Iterate(f, w, n))
  {
    if n > 0 {
      IteratesAgree(f, g, inv, w, n - 1);
    }
  }

  /** What holds after `n` steps and is kept by each further one holds after `m`. */
  lemma {:induction false} IterateKeeps(step: Walk -> Walk, w: Walk, inv: (Walk, nat) -> bool, n: nat, m: nat)
    requires n <= m && inv(Iterate(step, w, n), n)
    requires forall u, k: nat :: n <= k < m && inv(u, k) ==> inv(step(u), k + 1)
    ensures inv(Iterate(step, w, m), m)
    decreases m - n
  {
    if n < m {
      IterateKeeps(step, w, inv, n, m - 1);
    }
  }

  lemma AskIsTurn(cfg: TableConfig, db: seq<Row>, req: Request, w: Walk)
    requires First(req) && Sound(cfg, w)
    ensures Ask(cfg, db, req, w) == Turn(cfg, Filtered(db, req), Clamp(req.limit), w)
  {
    if w.next.Some? {
      CursorPage(cfg, db, req, w.next.value.values);
    }
  }

  lemma VisitIsRun(cfg: TableConfig, db: seq<Row>, req: Request, n: nat)
    requires First(req)
    ensures Visit(cfg, db, req, n) == Run(cfg, Filtered(db, req), Clamp(req.limit), n)
  {
    var rows, limit: Limit := Filtered(db, req), Clamp(req.limit);
    FirstPage(cfg, db, req);
    var ask := (w: Walk) => Ask(cfg, db, req, w);
    forall u | Sound(cfg, u) ensures ask(u) == Turning(cfg, rows, limit)(u) && Sound(cfg, ask(u)) {
      AskIsTurn(cfg, db, req, u);
    }
    IteratesAgree(ask, Turning(cfg, rows, limit), (w: Walk) => Sound(cfg, w), Start(cfg, rows, limit), n);
  }

  lemma StaysEnded(cfg: TableConfig, rows: seq<Row>, limit: Limit, n: nat, m: nat)
    requires n <= m && Run(cfg, rows, limit, n).next.None?
    ensures Run(cfg, rows, limit, m) == Run(cfg, rows, limit, n)
  {
    var end := Run(cfg, rows, limit, n);
    IterateKeeps(Turning(cfg, rows, limit), Start(cfg, rows, limit), (w: Walk, k: nat) => w == end, n, m);
  }

  // ---- rows that stay missed -----------------------------------------------------------------------------------------------------

  /** Past a row that is past the cursor is past the cursor: what one cursor misses, every cursor
      reached from it misses too. */
  lemma PastTransitive(terms: seq<SortTerm>, cursor: seq<Option<int>>, b: Row, r: Row)
    requires |cursor| == |terms| && Past(terms, cursor, b) && Past(terms, Keys(terms, b), r)
    ensures Past(terms, cursor, r)
  {
    var i :| 0 <= i < |terms| && PastAt(terms, cursor, b, i);
    var j :| 0 <= j < |terms| && PastAt(terms, Keys(terms, b), r, j);
    PastAtIff(terms, cursor, b, i);
    PastAtIff(terms, Keys(terms, b), r, j);
    var k := if i < j then i else j;
    PastAtIff(terms, cursor, r, k);
    assert PastAt(terms, cursor, r, k);
  }

  lemma PastHasValue(terms: seq<SortTerm>, cursor: seq<Option<int>>, r: Row)
    requires |cursor| == |terms| && Past(terms, cursor, r)
    ensures !AllNull(cursor) && !AllNull(Keys(terms, r))
  {
    var i :| 0 <= i < |terms| && PastAt(terms, cursor, r, i);
    assert Keys(terms, r)[i] == Cell(r, terms[i].expression);
  }

  /** `r` is not listed and no later page will have it. */
  predicate Missed(cfg: TableConfig, w: Walk, r: Row) {
    Sound(cfg, w) && r !in w.listed
    && (w.next.Some? ==> !AllNull(w.next.value.values) && !Past(cfg.terms, w.next.value.values, r))
  }

  lemma StaysMissed(cfg: TableConfig, rows: seq<Row>, limit: Limit, w: Walk, r: Row)
    requires Missed(cfg, w, r)
    ensures Missed(cfg, Turn(cfg, rows, limit, w), r)
  {
    if w.next.Some? {
      var cursor := w.next.value.values;
      var rest := Rest(cfg.terms, rows, cursor);
      var page := PageOf(cfg, rest, limit, 0, false);
      assert rest[0..] == rest;
      forall x | x in page.rows ensures x in rest && Past(cfg.terms, cursor, x) {
        Selected(rows, PastCursor(cfg.terms, cursor), x);
      }
      if page.nextCursor.Some? {
        var b := page.rows[|page.rows| - 1];
        assert b in page.rows;
        PastHasValue(cfg.terms, cursor, b);
        if Past(cfg.terms, Keys(cfg.terms, b), r) {
          PastTransitive(cfg.terms, cursor, b, r);
        }
      }
    }
  }

  // ---- when the walk ends ----------------------------------------------------------------------------------------------------------

  /** The first page is not the last and its cursor has no value at all. */
  predicate Blind(terms: seq<SortTerm>, rows: seq<Row>, limit: Limit)
  {
    |rows| > limit && AllNull(Keys(terms, rows[limit - 1]))
  }

  lemma FirstTurn(cfg: TableConfig, rows: seq<Row>, limit: Limit, listed: seq<Row>)
    ensures Gather(listed, PageOf(cfg, rows, limit, 0, false))
         == if |rows| > limit then Walk(listed + rows[..limit], Some(CursorText(cfg.name, Keys(cfg.terms, rows[limit - 1]))))
            else Walk(listed + rows, None)
  {
    assert rows[0..] == rows;
  }

  /** A blind cursor asks for the first page again. */
  lemma BlindNeverEnds(cfg: TableConfig, rows: seq<Row>, limit: Limit, n: nat)
    requires Blind(cfg.terms, rows, limit)
    ensures Run(cfg, rows, limit, n).next == Some(CursorText(cfg.name, Keys(cfg.terms, rows[limit - 1])))
  {
    var again := Some(CursorText(cfg.name, Keys(cfg.terms, rows[limit - 1])));
    FirstTurn(cfg, rows, limit, []);
    forall w: Walk | w.next == again ensures Turn(cfg, rows, limit, w).next == again {
      FirstTurn(cfg, rows, limit, w.listed);
    }
    IterateKeeps(Turning(cfg, rows, limit), Start(cfg, rows, limit), (w: Walk, k: nat) => w.next == again, 0, n);
  }

  /** The rows still to come. */
  function Ahead(cfg: TableConfig, rows: seq<Row>, w: Walk): set<Row>
    requires Sound(cfg, w)
  {
    if w.next.None? then {} else set r | r in Rest(cfg.terms, rows, w.next.value.values)
  }

  predicate Sighted(cfg: TableConfig, w: Walk) {
    Sound(cfg, w) && (w.next.Some? ==> !AllNull(w.next.value.values))
  }

  lemma NotPastItself(terms: seq<SortTerm>, r: Row)
    ensures !Past(terms, Keys(terms, r), r)
  {
    PastIff(terms, Keys(terms, r), r);
    if SortsBefore(terms, Keys(terms, r), Keys(terms, r)) {
      NotBothWays(terms, Keys(terms, r), Keys(terms, r));
    }
  }

  /** Each page leaves fewer rows to come. */
  lemma FewerAhead(cfg: TableConfig, rows: seq<Row>, limit: Limit, w: Walk)
    requires Sighted(cfg, w) && w.next.Some?
    ensures var u := Turn(cfg, rows, limit, w);
      Sighted(cfg, u) && (u.next.Some? ==> Ahead(cfg, rows, u) < Ahead(cfg, rows, w))
  {
    var cursor := w.next.value.values;
    var rest := Rest(cfg.terms, rows, cursor);
    FirstTurn(cfg, rest, limit, w.listed);
    if |rest| > limit {
      FewerPast(cfg.terms, rows, cursor, rest[limit - 1]);
    }
  }

  lemma FewerPast(terms: seq<SortTerm>, rows: seq<Row>, cursor: seq<Option<int>>, b: Row)
    requires |cursor| == |terms| && !AllNull(cursor) && b in Rest(terms, rows, cursor)
    ensures !AllNull(Keys(terms, b))
    ensures (set r | r in Rest(terms, rows, Keys(terms, b))) < (set r | r in Rest(terms, rows, cursor))
  {
    var fewer, more := set r | r in Rest(terms, rows, Keys(terms, b)), set r | r in Rest(terms, rows, cursor);
    Selected(rows, PastCursor(terms, cursor), b);
    PastHasValue(terms, cursor, b);
    forall r | r in fewer ensures r in more {
      Selected(rows, PastCursor(terms, cursor), r);
      Selected(rows, PastCursor(terms, Keys(terms, b)), r);
      PastTransitive(terms, cursor, b, r);
    }
    NotPastItself(terms, b);
    Selected(rows, PastCursor(terms, Keys(terms, b)), b);
    assert b in more && b !in fewer;
  }

  lemma SightedFirst(cfg: TableConfig, rows: seq<Row>, limit: Limit)
    requires !Blind(cfg.terms, rows, limit)
    ensures Sighted(cfg, Run(cfg, rows, limit, 0))
  {
    FirstTurn(cfg, rows, limit, []);
  }

  lemma {:induction false} SightedEnds(cfg: TableConfig, rows: seq<Row>, limit: Limit, n: nat) returns (m: nat)
    requires Sighted(cfg, Run(cfg, rows, limit, n))
    ensures Run(cfg, rows, limit, m).next.None?
    decreases Ahead(cfg, rows, Run(cfg, rows, limit, n)), Run(cfg, rows, limit, n).next.Some?
  {
    var w := Run(cfg, rows, limit, n);
    if w.next.None? {
      return n;
    }
    FewerAhead(cfg, rows, limit, w);
    m := SightedEnds(cfg, rows, limit, n + 1);
  }

  /** Following the cursors ends if and only if the first one holds a value or is not needed. */
  lemma EndsIff(cfg: TableConfig, db: seq<Row>, req: Request)
    requires First(req)
    ensures Ends(cfg, db, req) <==> !Blind(cfg.terms, Filtered(db, req), Clamp(req.limit))
  {
    var rows, limit := Filtered(db, req), Clamp(req.limit);
    if Blind(cfg.terms, rows, limit) {
      forall n: nat ensures Visit(cfg, db, req, n).next.Some? {
        VisitIsRun(cfg, db, req, n);
        BlindNeverEnds(cfg, rows, limit, n);
      }
    } else {
      SightedFirst(cfg, rows, limit);
      var n := SightedEnds(cfg, rows, limit, 0);
      VisitIsRun(cfg, db, req, n);
    }
  }

  // ---- when it lists everything ------------------------------------------------------------------------------------------------------

  /** Behind the last row of page `k` no row lies behind a null. */
  ghost predicate CleanBreak(terms: seq<SortTerm>, rows: seq<Row>, limit: Limit, k: nat) {
    0 < Times(k, limit) < |rows| ==> SeenBehind(terms, rows, Times(k, limit))
  }

  ghost predicate CleanBreaks(terms: seq<SortTerm>, rows: seq<Row>, limit: Limit) {
    forall k: nat :: CleanBreak(terms, rows, limit, k)
  }

  ghost predicate CleanBelow(terms: seq<SortTerm>, rows: seq<Row>, limit: Limit, k: nat) {
    forall j: nat :: j < k ==> CleanBreak(terms, rows, limit, j)
  }

  /** The first `n` rows are listed, and the cursor is that of the last of them. */
  ghost predicate At(cfg: TableConfig, rows: seq<Row>, w: Walk, n: nat) {
    if n < |rows| then 0 < n && w == Walk(rows[..n], Some(CursorText(cfg.name, Keys(cfg.terms, rows[n - 1]))))
    else w == Walk(rows, None)
  }

  /** Behind a clean break there is a value in every key, and the cursor leaves just the rows behind. */
  lemma BehindHasValue(terms: seq<SortTerm>, rows: seq<Row>, n: nat, i: nat)
    requires 0 < n <= i < |rows| && InOrder(terms, rows) && SeenBehind(terms, rows, n)
    ensures !AllNull(Keys(terms, rows[n - 1])) && !AllNull(Keys(terms, rows[i]))
  {
    assert Seen(terms, rows[n - 1], rows[i]);
    KeptIff(terms, rows, n, i);
    PastHasValue(terms, Keys(terms, rows[n - 1]), rows[i]);
  }

  lemma RestBehind(terms: seq<SortTerm>, rows: seq<Row>, n: nat)
    requires 0 < n < |rows| && InOrder(terms, rows) && SeenBehind(terms, rows, n)
    ensures Rest(terms, rows, Keys(terms, rows[n - 1])) == rows[n..]
  {
    BehindHasValue(terms, rows, n, n);
    AfterRowIff(terms, rows, n);
  }

  /** The cursor of row `n - 1`, if there is one, leaves the rows from `n` on. */
  predicate Fits(terms: seq<SortTerm>, rows: seq<Row>, n: nat) {
    0 < n < |rows| ==> Rest(terms, rows, Keys(terms, rows[n - 1])) == rows[n..]
  }

  ghost predicate FitsBelow(terms: seq<SortTerm>, rows: seq<Row>, limit: Limit, k: nat) {
    forall j: nat :: j < k ==> FitsPage(terms, rows, limit, j)
  }

  predicate FitsPage(terms: seq<SortTerm>, rows: seq<Row>, limit: Limit, j: nat) {
    Fits(terms, rows, Times(j, limit))
  }

  lemma CleanFits(terms: seq<SortTerm>, rows: seq<Row>, limit: Limit, k: nat)
    requires InOrder(terms, rows) && CleanBelow(terms, rows, limit, k)
    ensures FitsBelow(terms, rows, limit, k)
  {
    forall j: nat | j < k ensures FitsPage(terms, rows, limit, j) {
      assert CleanBreak(terms, rows, limit, j);
      if 0 < Times(j, limit) < |rows| { RestBehind(terms, rows, Times(j, limit)); }
    }
  }

  lemma TurnFrom(cfg: TableConfig, rows: seq<Row>, limit: Limit, w: Walk, n: nat)
    requires At(cfg, rows, w, n) && Fits(cfg.terms, rows, n)
    ensures Sound(cfg, w) && At(cfg, rows, Turn(cfg, rows, limit, w), n + limit)
  {
    if n < |rows| {
      FirstTurn(cfg, rows[n..], limit, w.listed);
      assert rows[..n] + rows[n..] == rows;
      if n + limit < |rows| {
        assert rows[..n] + rows[n..][..limit] == rows[..n + limit];
      }
    }
  }

  lemma FirstAt(cfg: TableConfig, rows: seq<Row>, limit: Limit)
    ensures AtPage(cfg, rows, limit, Start(cfg, rows, limit), 0)
  {
    assert Times(1, limit) == Times(0, limit) + limit;
    FirstTurn(cfg, rows, limit, []);
    if |rows| > limit {
      assert [] + rows[..limit] == rows[..limit];
    } else {
      assert [] + rows == rows;
    }
  }

  /** While the cursors fit, each page adds the next `limit` rows. */
  lemma CleanUpTo(cfg: TableConfig, rows: seq<Row>, limit: Limit, k: nat)
    requires FitsBelow(cfg.terms, rows, limit, k + 1)
    ensures AtPage(cfg, rows, limit, Run(cfg, rows, limit, k), k)
  {
    FirstAt(cfg, rows, limit);
    PagesTurn(cfg, rows, limit, k);
    IterateKeeps(Turning(cfg, rows, limit), Start(cfg, rows, limit), Paged(cfg, rows, limit), 0, k);
  }

  ghost function Paged(cfg: TableConfig, rows: seq<Row>, limit: Limit): (Walk, nat) -> bool {
    (w: Walk, j: nat) => AtPage(cfg, rows, limit, w, j)
  }

  lemma PagesTurn(cfg: TableConfig, rows: seq<Row>, limit: Limit, k: nat)
    requires FitsBelow(cfg.terms, rows, limit, k + 1)
    ensures forall w, j: nat :: 0 <= j < k && Paged(cfg, rows, limit)(w, j) ==> Paged(cfg, rows, limit)(Turning(cfg, rows, limit)(w), j + 1)
  {
    forall w, j: nat | 0 <= j < k && AtPage(cfg, rows, limit, w, j) ensures AtPage(cfg, rows, limit, Turn(cfg, rows, limit, w), j + 1) {
      assert FitsPage(cfg.terms, rows, limit, j + 1);
      PageTurn(cfg, rows, limit, w, j);
    }
  }

  lemma PageTurn(cfg: TableConfig, rows: seq<Row>, limit: Limit, w: Walk, j: nat)
    requires AtPage(cfg, rows, limit, w, j) && FitsPage(cfg.terms, rows, limit, j + 1)
    ensures AtPage(cfg, rows, limit, Turn(cfg, rows, limit, w), j + 1)
  {
    TurnFrom(cfg, rows, limit, w, Times(j + 1, limit));
  }

  /** The first `j + 1` pages are listed. */
  ghost predicate AtPage(cfg: TableConfig, rows: seq<Row>, limit: Limit, w: Walk, j: nat) {
    At(cfg, rows, w, Times(j + 1, limit))
  }

  lemma MissedForGood(cfg: TableConfig, rows: seq<Row>, limit: Limit, n: nat, m: nat, r: Row)
    requires n <= m && Missed(cfg, Run(cfg, rows, limit, n), r)
    ensures Missed(cfg, Run(cfg, rows, limit, m), r)
  {
    forall w | Missed(cfg, w, r) ensures Missed(cfg, Turn(cfg, rows, limit, w), r) {
      StaysMissed(cfg, rows, limit, w, r);
    }
    IterateKeeps(Turning(cfg, rows, limit), Start(cfg, rows, limit), (w: Walk, k: nat) => Missed(cfg, w, r), n, m);
  }

  /** Behind a break that is not clean, unless its cursor is blind, a row is missed. */
  lemma SomeMissed(cfg: TableConfig, rows: seq<Row>, w: Walk, n: nat) returns (r: Row)
    requires 0 < n < |rows| && InOrder(cfg.terms, rows) && At(cfg, rows, w, n)
    requires !SeenBehind(cfg.terms, rows, n) && !AllNull(Keys(cfg.terms, rows[n - 1]))
    ensures r in rows && Missed(cfg, w, r)
  {
    var i :| n <= i < |rows| && !Seen(cfg.terms, rows[n - 1], rows[i]);
    KeptIff(cfg.terms, rows, n, i);
    NotAmong(cfg.terms, rows, n, i);
    r := rows[i];
  }

  /** At the first break that is not clean the walk loses a row for good, or starts over for ever. */
  lemma LostAt(cfg: TableConfig, rows: seq<Row>, limit: Limit, k: nat, n: nat)
    requires InOrder(cfg.terms, rows)
    requires !CleanBreak(cfg.terms, rows, limit, k) && CleanBelow(cfg.terms, rows, limit, k)
    ensures Run(cfg, rows, limit, n) != Walk(rows, None)
  {
    CleanFits(cfg.terms, rows, limit, k);
    CleanUpTo(cfg, rows, limit, k - 1);
    if n < k {
      NotYet(cfg, rows, limit, k, n);
    } else if AllNull(Keys(cfg.terms, rows[Times(k, limit) - 1])) {
      BlindIsFirst(cfg, rows, limit, k);
      BlindNeverEnds(cfg, rows, limit, n);
    } else {
      var r := SomeMissed(cfg, rows, Run(cfg, rows, limit, k - 1), Times(k, limit));
      LostBehind(cfg, rows, limit, k - 1, n, r);
    }
  }

  lemma LostBehind(cfg: TableConfig, rows: seq<Row>, limit: Limit, k: nat, n: nat, r: Row)
    requires k <= n && r in rows && Missed(cfg, Run(cfg, rows, limit, k), r)
    ensures Run(cfg, rows, limit, n) != Walk(rows, None)
  {
    MissedForGood(cfg, rows, limit, k, n, r);
  }

  lemma NotYet(cfg: TableConfig, rows: seq<Row>, limit: Limit, k: nat, n: nat)
    requires n < k && Run(cfg, rows, limit, k - 1).next.Some?
    ensures Run(cfg, rows, limit, n).next.Some?
  {
    if Run(cfg, rows, limit, n).next.None? {
      StaysEnded(cfg, rows, limit, n, k - 1);
    }
  }

  /** A cursor reached from another holds a value, so only the first can be blind. */
  lemma BlindIsFirst(cfg: TableConfig, rows: seq<Row>, limit: Limit, k: nat)
    requires InOrder(cfg.terms, rows) && CleanBelow(cfg.terms, rows, limit, k)
    requires 0 < Times(k, limit) < |rows| && AllNull(Keys(cfg.terms, rows[Times(k, limit) - 1]))
    ensures k == 1 && Blind(cfg.terms, rows, limit)
  {
    if k > 1 {
      var n := Times(k - 1, limit);
      assert n == Times(k - 2, limit) + limit;
      assert CleanBreak(cfg.terms, rows, limit, k - 1);
      BehindHasValue(cfg.terms, rows, n, n + limit - 1);
    } else {
      assert Times(1, limit) == Times(0, limit) + limit;
    }
  }

  lemma NotAmong(terms: seq<SortTerm>, rows: seq<Row>, n: nat, i: nat)
    requires n <= i < |rows| && InOrder(terms, rows)
    ensures rows[i] !in rows[..n]
  {
    if rows[i] in rows[..n] {
      var j :| 0 <= j < n && rows[j] == rows[i];
      assert Before(terms, rows[j], rows[i]);
      NotBothWays(terms, Keys(terms, rows[j]), Keys(terms, rows[i]));
    }
  }

  lemma {:induction false} FirstUnclean(terms: seq<SortTerm>, rows: seq<Row>, limit: Limit, n: nat) returns (k: nat)
    requires !CleanBreak(terms, rows, limit, n)
    ensures !CleanBreak(terms, rows, limit, k) && CleanBelow(terms, rows, limit, k)
  {
    if j: nat :| j < n && !CleanBreak(terms, rows, limit, j) {
      k := FirstUnclean(terms, rows, limit, j);
    } else {
      k := n;
    }
  }

  /** Enough pages for all the rows. */
  lemma {:induction false} Enough(n: nat, d: nat)
    requires d > 0
    ensures Times(n, d) >= n
  {
    if n > 0 {
      Enough(n - 1, d);
    }
  }

  /** Following the cursors lists the filtered table, in order and each row once, if and only if at every
      page break the rows behind differ from the last row of the page in values. */
  lemma ListsAllIff(cfg: TableConfig, db: seq<Row>, req: Request)
    requires First(req) && InOrder(cfg.terms, db)
    ensures Lists(cfg, db, req, Filtered(db, req)) <==> CleanBreaks(cfg.terms, Filtered(db, req), Clamp(req.limit))
  {
    SelectInOrder(cfg.terms, db, Matching(req));
    if CleanBreaks(cfg.terms, Filtered(db, req), Clamp(req.limit)) {
      AllListed(cfg, db, req);
    } else {
      forall n: nat ensures Visit(cfg, db, req, n) != Walk(Filtered(db, req), None) {
        VisitIsRun(cfg, db, req, n);
        NotAllListed(cfg, Filtered(db, req), Clamp(req.limit), n);
      }
    }
  }

  lemma AllListed(cfg: TableConfig, db: seq<Row>, req: Request)
    requires First(req) && InOrder(cfg.terms, Filtered(db, req)) && CleanBreaks(cfg.terms, Filtered(db, req), Clamp(req.limit))
    ensures Lists(cfg, db, req, Filtered(db, req))
  {
    var rows, limit: Limit := Filtered(db, req), Clamp(req.limit);
    CleanFits(cfg.terms, rows, limit, |rows| + 1);
    CleanUpTo(cfg, rows, limit, |rows|);
    Enough(|rows| + 1, limit);
    VisitIsRun(cfg, db, req, |rows|);
  }

  lemma NotAllListed(cfg: TableConfig, rows: seq<Row>, limit: Limit, n: nat)
    requires InOrder(cfg.terms, rows) && !CleanBreaks(cfg.terms, rows, limit)
    ensures Run(cfg, rows, limit, n) != Walk(rows, None)
  {
    var m: nat :| !CleanBreak(cfg.terms, rows, limit, m);
    var k := FirstUnclean(cfg.terms, rows, limit, m);
    LostAt(cfg, rows, limit, k, n);
  }

  /** A walk that ends lists one sequence. */
  lemma ListsOne(cfg: TableConfig, db: seq<Row>, req: Request, all: seq<Row>, rows: seq<Row>)
    requires First(req) && Lists(cfg, db, req, all) && Lists(cfg, db, req, rows)
    ensures all == rows
  {
    var n: nat :| Visit(cfg, db, req, n) == Walk(all, None);
    var m: nat :| Visit(cfg, db, req, m) == Walk(rows, None);
    VisitIsRun(cfg, db, req, n);
    VisitIsRun(cfg, db, req, m);
    if n <= m {
      StaysEnded(cfg, Filtered(db, req), Clamp(req.limit), n, m);
    } else {
      StaysEnded(cfg, Filtered(db, req), Clamp(req.limit), m, n);
    }
  }

  // ---- the caller's loop -----------------------------------------------------------------------------------------------------------------

  /** Asking for the first page and following `nextCursor` until there is none. */
  method FollowPages(cfg: TableConfig, db: seq<Row>, req: Request) returns (all: seq<Row>)
    requires First(req) && InOrder(cfg.terms, db)
    requires !Blind(cfg.terms, Filtered(db, req), Clamp(req.limit))
    ensures Lists(cfg, db, req, all)
    ensures all == Filtered(db, req) <==> CleanBreaks(cfg.terms, Filtered(db, req), Clamp(req.limit))
  {
    ghost var rows, limit: Limit, n := Filtered(db, req), Clamp(req.limit), 0;
    SightedFirst(cfg, rows, limit);
    FirstPage(cfg, db, req);
    var page := ListTable(cfg, db, req);
    all := page.rows;
    var next := page.nextCursor;
    while next.Some?
      invariant Run(cfg, rows, limit, n) == Walk(all, next) && Sighted(cfg, Walk(all, next))
      decreases Ahead(cfg, rows, Walk(all, next)), next.Some?
    {
      FewerAhead(cfg, rows, limit, Walk(all, next));
      all, next := FetchNext(cfg, db, req, all, next.value);
      n := n + 1;
    }
    VisitIsRun(cfg, db, req, n);
    WholeIff(cfg, db, req, all);
  }

  /** One turn of the loop. */
  method FetchNext(cfg: TableConfig, db: seq<Row>, req: Request, listed: seq<Row>, cursor: CursorText)
      returns (all: seq<Row>, next: Option<CursorText>)
    requires First(req) && Sound(cfg, Walk(listed, Some(cursor)))
    ensures Walk(all, next) == Turn(cfg, Filtered(db, req), Clamp(req.limit), Walk(listed, Some(cursor)))
  {
    CursorPage(cfg, db, req, cursor.values);
    var page := ListTable(cfg, db, CursorRequest(req, cursor));
    all, next := listed + page.rows, page.nextCursor;
  }

  lemma WholeIff(cfg: TableConfig, db: seq<Row>, req: Request, all: seq<Row>)
    requires First(req) && InOrder(cfg.terms, db) && Lists(cfg, db, req, all)
    ensures all == Filtered(db, req) <==> CleanBreaks(cfg.terms, Filtered(db, req), Clamp(req.limit))
  {
    ListsAllIff(cfg, db, req);
    if Lists(cfg, db, req, Filtered(db, req)) {
      ListsOne(cfg, db, req, all, Filtered(db, req));
    }
  }

  // ---- instances -------------------------------------------------------------------------------------------------------------------------

  ghost predicate AllNonNull(terms: seq<SortTerm>, rows: seq<Row>) {
    forall r :: r in rows ==> NoNulls(Keys(terms, r))
  }

  /** Without nulls among the sort values everything is listed. */
  lemma NonNullListed(cfg: TableConfig, db: seq<Row>, req: Request)
    requires First(req) && InOrder(cfg.terms, db) && AllNonNull(cfg.terms, Filtered(db, req))
    ensures Lists(cfg, db, req, Filtered(db, req))
  {
    var rows := Filtered(db, req);
    forall n | 0 < n <= |rows| ensures SeenBehind(cfg.terms, rows, n) {
    }
    ListsAllIff(cfg, db, req);
  }

  /** With a null among the sort values rows can be lost: the second page is empty although the
      undated row has not been listed. */
  lemma NullsAreMissed(name: string, t: SortTerm, dated: Row, undated: Row, req: Request)
    requires t.descending && t.nullsLast && Cell(dated, t.expression).Some? && Cell(undated, t.expression).None?
    requires First(req) && req.filters == [] && req.search.None? && req.limit == 1
    ensures InOrder([t], [dated, undated])
    ensures Select([dated, undated], PastCursor([t], Keys([t], dated))) == []
    ensures !Lists(TableConfig(name, [t]), [dated, undated], req, [dated, undated])
  {
    var rows := [dated, undated];
    NullBehind(t, dated, undated);
    SelectAll(rows, PastCursor([t], Keys([t], dated)));
    SelectAll(rows, Matching(req));
    UncleanPair(t, dated, undated);
    ListsAllIff(TableConfig(name, [t]), rows, req);
  }

  lemma NullBehind(t: SortTerm, dated: Row, undated: Row)
    requires t.descending && t.nullsLast && Cell(dated, t.expression).Some? && Cell(undated, t.expression).None?
    ensures Before([t], dated, undated) && !Seen([t], dated, undated)
    ensures !Past([t], Keys([t], dated), dated) && !Past([t], Keys([t], dated), undated)
  {
    var cursor := Keys([t], dated);
    assert SameUpTo(cursor, Keys([t], undated), 0) && CellBefore(t, cursor[0], Keys([t], undated)[0]);
    PastIff([t], cursor, undated);
    NotPastItself([t], dated);
  }

  lemma UncleanPair(t: SortTerm, dated: Row, undated: Row)
    requires !Seen([t], dated, undated)
    ensures !CleanBreaks([t], [dated, undated], 1)
  {
    assert Times(1, 1) == Times(0, 1) + 1;
    var rows := [dated, undated];
    assert !Seen([t], rows[0], rows[1]);
    assert !CleanBreak([t], rows, 1, 1);
  }
}
