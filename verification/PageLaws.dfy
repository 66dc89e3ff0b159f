/** Pages addressed by offset, said of the positions of the matching rows in the table. */
module PageLaws {
  import opened Options
  import opened Keyset
  import opened TablePages
  import opened CursorWalk

  /** The row has every value asked for and the searched text. */
  ghost predicate Fits(req: Request, row: Row) {
    && (forall i :: 0 <= i < |req.filters| && req.filters[i].column.Some? && req.filters[i].value.Some? ==>
          Cell(row, req.filters[i].column.value) == Some(req.filters[i].value.value))
    && (req.search.Some? ==> req.search.value in row.matched)
  }

  lemma FitsIff(req: Request, row: Row)
    ensures Fits(req, row) <==> Matches(req, row)
  {
    forall f | f in req.filters && f.column.Some? && f.value.Some? && Fits(req, row) ensures Cell(row, f.column.value) == f.value {
      var i :| 0 <= i < |req.filters| && req.filters[i] == f;
    }
  }

  /** How many of the first `n` rows fit. */
  ghost function Fitting(db: seq<Row>, req: Request, n: nat): nat
    requires n <= |db|
  {
    if n == 0 then 0 else Fitting(db, req, n - 1) + if Fits(req, db[n - 1]) then 1 else 0
  }

  ghost function Total(db: seq<Row>, req: Request): nat {
    Fitting(db, req, |db|)
  }

  /** `selected` are the fitting rows in their order. */
  ghost predicate Placed(db: seq<Row>, req: Request, selected: seq<Row>) {
    && |selected| == Total(db, req)
    && forall i :: 0 <= i < |db| ==> PlacedAt(db, req, selected, i)
  }

  ghost predicate PlacedAt(db: seq<Row>, req: Request, selected: seq<Row>, i: nat)
    requires i < |db|
  {
    Fits(req, db[i]) ==> Fitting(db, req, i) < |selected| && selected[Fitting(db, req, i)] == db[i]
  }

  lemma {:induction false} FittingInit(db: seq<Row>, row: Row, req: Request, n: nat)
    requires n <= |db|
    ensures Fitting(db + [row], req, n) == Fitting(db, req, n)
  {
    if n > 0 {
      FittingInit(db, row, req, n - 1);
    }
  }

  lemma StaysPlaced(db: seq<Row>, row: Row, req: Request, selected: seq<Row>, more: seq<Row>, i: nat)
    requires i < |db| && PlacedAt(db, req, selected, i) && selected <= more
    ensures PlacedAt(db + [row], req, more, i)
  {
    FittingInit(db, row, req, i);
  }

  lemma LastPlaced(db: seq<Row>, row: Row, req: Request, selected: seq<Row>)
    requires |selected| == Total(db, req)
    ensures var more := if Fits(req, row) then selected + [row] else selected;
      PlacedAt(db + [row], req, more, |db|) && |more| == Total(db + [row], req)
  {
    FittingInit(db, row, req, |db|);
  }

  lemma PlacedSnoc(db: seq<Row>, row: Row, req: Request, selected: seq<Row>)
    requires Placed(db, req, selected)
    ensures Placed(db + [row], req, if Fits(req, row) then selected + [row] else selected)
  {
    var more := if Fits(req, row) then selected + [row] else selected;
    LastPlaced(db, row, req, selected);
    forall i | 0 <= i < |db + [row]| ensures PlacedAt(db + [row], req, more, i) {
      if i < |db| { StaysPlaced(db, row, req, selected, more, i); }
    }
  }

  lemma FilteredSnoc(db: seq<Row>, row: Row, req: Request)
    ensures Filtered(db + [row], req) == if Fits(req, row) then Filtered(db, req) + [row] else Filtered(db, req)
  {
    FitsIff(req, row);
    assert (db + [row])[..|db|] == db;
  }

  /** The filtered rows are the fitting ones, each at the number of fitting rows before it. */
  lemma {:induction false} FilteredAt(db: seq<Row>, req: Request)
    ensures Placed(db, req, Filtered(db, req))
    decreases |db|
  {
    if db != [] {
      var init, last := db[..|db| - 1], db[|db| - 1];
      assert init + [last] == db;
      FilteredAt(init, req);
      FilteredSnoc(init, last, req);
      PlacedSnoc(init, last, req, Filtered(init, req));
    }
  }

  // ---- refusals -----------------------------------------------------------------------------------------------------

  predicate OtherTable(cfg: TableConfig, req: Request) {
    req.cursor.Some? && (req.cursor.value.Garbage? || req.cursor.value.table != cfg.name)
  }

  predicate TooDeep(req: Request) {
    req.cursor.None? && 0 < req.deepOffsetLimit < req.offset
  }

  predicate ForbiddenSearch(req: Request) {
    req.search.Some? && !req.fullRowAllowed
  }

  /** Which requests are refused, and for what. */
  lemma RefusedIff(cfg: TableConfig, db: seq<Row>, req: Request)
    ensures Answer(cfg, db, req).DeepOffset? <==> TooDeep(req)
    ensures Answer(cfg, db, req).SearchRefused? <==> ForbiddenSearch(req) && !TooDeep(req) && !OtherTable(cfg, req)
    ensures Answer(cfg, db, req).InvalidCursor? <==>
      (OtherTable(cfg, req) || (req.cursor.Some? && !ForbiddenSearch(req) && |req.cursor.value.values| != |cfg.terms|))
  {
  }

  // ---- pages by offset -------------------------------------------------------------------------------------------------

  /** The page size: between 1 and 200. */
  function Size(req: Request): nat {
    if req.limit <= 0 then 1 else if req.limit >= 200 then 200 else req.limit
  }

  function Skipped(req: Request): nat {
    if req.offset >= 0 then req.offset else 0
  }

  /** The rows of the page are the fitting rows from the offset on, at most as many as asked for. */
  ghost predicate ShowsFrom(db: seq<Row>, req: Request, rows: seq<Row>) {
    && |rows| == (if Total(db, req) <= Skipped(req) then 0
                  else if Total(db, req) - Skipped(req) < Size(req) then Total(db, req) - Skipped(req)
                  else Size(req))
    && (forall i :: 0 <= i < |db| && Fits(req, db[i]) && 0 <= Fitting(db, req, i) - Skipped(req) < Size(req) ==>
          (Fitting(db, req, i) - Skipped(req) < |rows| && rows[Fitting(db, req, i) - Skipped(req)] == db[i]))
  }

  lemma OffsetAnswer(cfg: TableConfig, db: seq<Row>, req: Request)
    requires req.cursor.None? && !TooDeep(req) && !ForbiddenSearch(req)
    ensures Answer(cfg, db, req) == PageOf(cfg, Filtered(db, req), Size(req), Skipped(req), req.includeRowCount)
  {
    SelectSame(db, Matching(req), Wanted(cfg, req, None));
  }

  /** The page cut out of the selected rows. */
  predicate CutFrom(selected: seq<Row>, offset: nat, limit: nat, rows: seq<Row>) {
    && |rows| == (if |selected| <= offset then 0 else if |selected| - offset < limit then |selected| - offset else limit)
    && forall k :: 0 <= k < |rows| ==> rows[k] == selected[offset + k]
  }

  lemma PageCuts(cfg: TableConfig, selected: seq<Row>, limit: nat, offset: nat, counted: bool)
    requires limit > 0
    ensures var r := PageOf(cfg, selected, limit, offset, counted);
      && r.Page? && CutFrom(selected, offset, limit, r.rows) && r.limit == limit && r.offset == offset
      && r.rowCount == (if counted then |selected| else 0)
      && (r.nextCursor.Some? <==> offset + limit < |selected|)
      && (r.nextCursor.Some? ==> r.rows != [] && CursorOf(cfg, r.rows[|r.rows| - 1], r.nextCursor.value))
  {
  }

  lemma CutShows(db: seq<Row>, req: Request, selected: seq<Row>, rows: seq<Row>)
    requires Placed(db, req, selected) && CutFrom(selected, Skipped(req), Size(req), rows)
    ensures ShowsFrom(db, req, rows)
  {
    forall i | 0 <= i < |db| && Fits(req, db[i]) && 0 <= Fitting(db, req, i) - Skipped(req) < Size(req)
      ensures Fitting(db, req, i) - Skipped(req) < |rows| && rows[Fitting(db, req, i) - Skipped(req)] == db[i]
    {
      assert PlacedAt(db, req, selected, i);
    }
  }

  /** A page by offset: its rows, whether a cursor follows and which, and the count of all fitting rows. */
  lemma OffsetPage(cfg: TableConfig, db: seq<Row>, req: Request)
    requires req.cursor.None? && !TooDeep(req) && !ForbiddenSearch(req)
    ensures var r := Answer(cfg, db, req);
      && r.Page? && ShowsFrom(db, req, r.rows) && r.limit == Size(req) && r.offset == Skipped(req)
      && r.rowCount == (if req.includeRowCount then Total(db, req) else 0)
      && (r.nextCursor.Some? <==> Skipped(req) + Size(req) < Total(db, req))
      && (r.nextCursor.Some? ==> r.rows != [] && CursorOf(cfg, r.rows[|r.rows| - 1], r.nextCursor.value))
  {
    OffsetAnswer(cfg, db, req);
    FilteredAt(db, req);
    PageCuts(cfg, Filtered(db, req), Size(req), Skipped(req), req.includeRowCount);
    CutShows(db, req, Filtered(db, req), Answer(cfg, db, req).rows);
  }

  /** The cursor names the table and holds the row's sort values. */
  predicate CursorOf(cfg: TableConfig, row: Row, cursor: CursorText) {
    && cursor.CursorText? && cursor.table == cfg.name && |cursor.values| == |cfg.terms|
    && forall j :: 0 <= j < |cfg.terms| ==> cursor.values[j] == Cell(row, cfg.terms[j].expression)
  }
}
