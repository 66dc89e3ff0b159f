/** One page of a table (storage-admin.ts): the order, the exact meaning of the cursor condition, and
    the request that answers a page. */
module TablePages {
  import opened Options
  import opened Keyset

  // ---- the order ------------------------------------------------------------------------------------------------

  function Keys(terms: seq<SortTerm>, row: Row): (k: seq<Option<int>>)
    ensures |k| == |terms|
  {
    seq(|terms|, i requires 0 <= i < |terms| => Cell(row, terms[i].expression))
  }

  /** Nulls sort last in ascending order, first in descending order unless the order says otherwise. */
  predicate NullsAtEnd(t: SortTerm) {
    !t.descending || t.nullsLast
  }

  predicate CellBefore(t: SortTerm, a: Option<int>, b: Option<int>) {
    match (a, b)
    case (Some(x), Some(y)) => if t.descending then x > y else x < y
    case (Some(_), None) => NullsAtEnd(t)
    case (None, Some(_)) => !NullsAtEnd(t)
    case (None, None) => false
  }

  predicate SameUpTo(a: seq<Option<int>>, b: seq<Option<int>>, n: nat)
    requires n <= |a| && n <= |b|
  {
    forall j :: 0 <= j < n ==> a[j] == b[j]
  }

  /** `order by`. */
  predicate SortsBefore(terms: seq<SortTerm>, a: seq<Option<int>>, b: seq<Option<int>>)
    requires |a| == |b| == |terms|
  {
    exists i :: 0 <= i < |terms| && SameUpTo(a, b, i) && CellBefore(terms[i], a[i], b[i])
  }

  /** Where the two keys first differ, neither is null. */
  predicate DiffersInValues(a: seq<Option<int>>, b: seq<Option<int>>)
    requires |a| == |b|
  {
    forall i :: 0 <= i < |a| && SameUpTo(a, b, i) && a[i] != b[i] ==> a[i].Some? && b[i].Some?
  }

  predicate NoNulls(k: seq<Option<int>>) {
    forall i :: 0 <= i < |k| ==> k[i].Some?
  }

  lemma PastAtIff(terms: seq<SortTerm>, cursor: seq<Option<int>>, row: Row, i: nat)
    requires i < |terms| == |cursor|
    ensures var k := Keys(terms, row);
      PastAt(terms, cursor, row, i) <==> SameUpTo(cursor, k, i) && cursor[i].Some? && k[i].Some? && CellBefore(terms[i], cursor[i], k[i])
  {
    var k := Keys(terms, row);
    assert k[i] == Cell(row, terms[i].expression);
    assert SameUpTo(cursor, k, i) <==> EqualUpTo(terms, cursor, row, i) by {
      forall j | 0 <= j < i ensures k[j] == Cell(row, terms[j].expression) {
      }
    }
  }

  lemma FirstDifferenceUnique(a: seq<Option<int>>, b: seq<Option<int>>, i: nat, j: nat)
    requires |a| == |b| && i < |a| && j < |a|
    requires SameUpTo(a, b, i) && a[i] != b[i] && SameUpTo(a, b, j) && a[j] != b[j]
    ensures i == j
  {
  }

  /** The compiled condition selects exactly the rows after the cursor whose first difference from it
      is between two values; rows on the far side of a null are missed. */
  lemma PastIff(terms: seq<SortTerm>, cursor: seq<Option<int>>, row: Row)
    requires |terms| == |cursor|
    ensures Past(terms, cursor, row) <==> SortsBefore(terms, cursor, Keys(terms, row)) && DiffersInValues(cursor, Keys(terms, row))
  {
    var k := Keys(terms, row);
    if Past(terms, cursor, row) {
      var i :| 0 <= i < |terms| && PastAt(terms, cursor, row, i);
      PastAtIff(terms, cursor, row, i);
      forall j | 0 <= j < |cursor| && SameUpTo(cursor, k, j) && cursor[j] != k[j] ensures cursor[j].Some? && k[j].Some? {
        FirstDifferenceUnique(cursor, k, i, j);
      }
    }
    if SortsBefore(terms, cursor, k) && DiffersInValues(cursor, k) {
      var i :| 0 <= i < |terms| && SameUpTo(cursor, k, i) && CellBefore(terms[i], cursor[i], k[i]);
      PastAtIff(terms, cursor, row, i);
      assert PastAt(terms, cursor, row, i);
    }
  }

  /** Without nulls the condition is "strictly after the cursor". */
  lemma PastIsStrictlyAfter(terms: seq<SortTerm>, cursor: seq<Option<int>>, row: Row)
    requires |terms| == |cursor| && NoNulls(cursor) && NoNulls(Keys(terms, row))
    ensures Past(terms, cursor, row) <==> SortsBefore(terms, cursor, Keys(terms, row))
  {
    PastIff(terms, cursor, row);
  }

  lemma NotBothWays(terms: seq<SortTerm>, a: seq<Option<int>>, b: seq<Option<int>>)
    requires |a| == |b| == |terms| && SortsBefore(terms, a, b)
    ensures !SortsBefore(terms, b, a) && a != b
  {
    var i :| 0 <= i < |terms| && SameUpTo(a, b, i) && CellBefore(terms[i], a[i], b[i]);
  }

  // ---- the table -----------------------------------------------------------------------------------------------------

  function Select(rows: seq<Row>, keep: Row -> bool): seq<Row> {
    if rows == [] then []
    else
      var init := Select(rows[..|rows| - 1], keep);
      var last := rows[|rows| - 1];
      if keep(last) then init + [last] else init
  }

  lemma {:induction false} Selected(rows: seq<Row>, keep: Row -> bool, x: Row)
    ensures x in Select(rows, keep) <==> x in rows && keep(x)
    decreases |rows|
  {
    if rows != [] {
      assert rows == rows[..|rows| - 1] + [rows[|rows| - 1]];
      Selected(rows[..|rows| - 1], keep, x);
    }
  }

  predicate Before(terms: seq<SortTerm>, a: Row, b: Row) {
    SortsBefore(terms, Keys(terms, a), Keys(terms, b))
  }

  /** The rows in the order of the table; its last column being unique, no two rows tie. */
  ghost predicate InOrder(terms: seq<SortTerm>, rows: seq<Row>) {
    forall i, j {:trigger Before(terms, rows[i], rows[j])} :: 0 <= i < j < |rows| ==> Before(terms, rows[i], rows[j])
  }

  lemma {:induction false} SelectTwice(rows: seq<Row>, f: Row -> bool, g: Row -> bool, both: Row -> bool)
    requires forall r :: both(r) <==> f(r) && g(r)
    ensures Select(rows, both) == Select(Select(rows, f), g)
    decreases |rows|
  {
    if rows != [] {
      var init, last := rows[..|rows| - 1], rows[|rows| - 1];
      SelectTwice(init, f, g, both);
      if f(last) {
        assert (Select(init, f) + [last])[..|Select(init, f)|] == Select(init, f);
      }
    }
  }

  lemma {:induction false} SelectAll(rows: seq<Row>, keep: Row -> bool)
    ensures (forall r :: r in rows ==> keep(r)) ==> Select(rows, keep) == rows
    ensures (forall r :: r in rows ==> !keep(r)) ==> Select(rows, keep) == []
    decreases |rows|
  {
    if rows != [] {
      assert rows == rows[..|rows| - 1] + [rows[|rows| - 1]];
      SelectAll(rows[..|rows| - 1], keep);
    }
  }

  lemma KeepsAll(rows: seq<Row>, n: nat, keep: Row -> bool)
    requires n <= |rows| && forall i :: n <= i < |rows| ==> keep(rows[i])
    ensures Select(rows[n..], keep) == rows[n..]
  {
    SelectAll(rows[n..], keep);
  }

  lemma KeepsNone(rows: seq<Row>, n: nat, keep: Row -> bool)
    requires n <= |rows| && forall i :: 0 <= i < n ==> !keep(rows[i])
    ensures Select(rows[..n], keep) == []
  {
    SelectAll(rows[..n], keep);
  }

  lemma {:induction false} SelectConcat(a: seq<Row>, b: seq<Row>, keep: Row -> bool)
    ensures Select(a + b, keep) == Select(a, keep) + Select(b, keep)
    decreases |b|
  {
    if b == [] {
      assert a + b == a;
    } else {
      var init, last := b[..|b| - 1], b[|b| - 1];
      SelectConcat(a, init, keep);
      assert (a + b)[..|a + b| - 1] == a + init;
    }
  }

  lemma {:induction false} SelectInOrder(terms: seq<SortTerm>, rows: seq<Row>, keep: Row -> bool)
    requires InOrder(terms, rows)
    ensures InOrder(terms, Select(rows, keep))
    decreases |rows|
  {
    if rows != [] {
      var init, last := rows[..|rows| - 1], rows[|rows| - 1];
      SelectInOrder(terms, init, keep);
      var s := Select(init, keep);
      forall i | 0 <= i < |s| ensures Before(terms, s[i], last) {
        Selected(init, keep, s[i]);
        var j :| 0 <= j < |init| && init[j] == s[i];
        assert rows[j] == init[j];
        assert Before(terms, rows[j], last);
      }
    }
  }

  function PastCursor(terms: seq<SortTerm>, cursor: seq<Option<int>>): Row -> bool
    requires |terms| == |cursor|
  {
    row => Past(terms, cursor, row)
  }

  /** Each row from `n` on differs from row `n - 1` first in a column where both have a value. */
  ghost predicate SeenBehind(terms: seq<SortTerm>, rows: seq<Row>, n: nat)
    requires 0 < n <= |rows|
  {
    forall i {:trigger Seen(terms, rows[n - 1], rows[i])} :: n <= i < |rows| ==> Seen(terms, rows[n - 1], rows[i])
  }

  predicate Seen(terms: seq<SortTerm>, a: Row, b: Row) {
    DiffersInValues(Keys(terms, a), Keys(terms, b))
  }

  /** Selecting past the key of row `n - 1` gives the rows from `n` on if and only if none of them lies
      behind a null. */
  lemma AfterRowIff(terms: seq<SortTerm>, rows: seq<Row>, n: nat)
    requires 0 < n <= |rows| && InOrder(terms, rows)
    ensures Select(rows, PastCursor(terms, Keys(terms, rows[n - 1]))) == rows[n..] <==> SeenBehind(terms, rows, n)
  {
    var keep := PastCursor(terms, Keys(terms, rows[n - 1]));
    forall i | 0 <= i < |rows|
      ensures keep(rows[i]) <==> i >= n && Seen(terms, rows[n - 1], rows[i])
    {
      KeptIff(terms, rows, n, i);
    }
    if SeenBehind(terms, rows, n) {
      assert rows == rows[..n] + rows[n..];
      SelectConcat(rows[..n], rows[n..], keep);
      KeepsNone(rows, n, keep);
      KeepsAll(rows, n, keep);
    } else {
      var i :| n <= i < |rows| && !Seen(terms, rows[n - 1], rows[i]);
      Selected(rows, keep, rows[i]);
      assert rows[i] in rows[n..];
    }
  }

  lemma KeptIff(terms: seq<SortTerm>, rows: seq<Row>, n: nat, i: nat)
    requires 0 < n <= |rows| && i < |rows| && InOrder(terms, rows)
    ensures PastCursor(terms, Keys(terms, rows[n - 1]))(rows[i])
       <==> i >= n && Seen(terms, rows[n - 1], rows[i])
  {
    assert i >= n ==> Before(terms, rows[n - 1], rows[i]);
    PastIff(terms, Keys(terms, rows[n - 1]), rows[i]);
    if i < n {
      NotAfterItself(terms, rows, i, n - 1);
    }
  }

  lemma NotAfterItself(terms: seq<SortTerm>, rows: seq<Row>, i: nat, j: nat)
    requires i <= j < |rows| && InOrder(terms, rows)
    ensures !SortsBefore(terms, Keys(terms, rows[j]), Keys(terms, rows[i]))
  {
    var a, b := Keys(terms, rows[i]), Keys(terms, rows[j]);
    assert i < j ==> Before(terms, rows[i], rows[j]);
    if SortsBefore(terms, b, a) {
      NotBothWays(terms, b, a);
    }
  }

  // ---- one request -------------------------------------------------------------------------------------------------------

  datatype TableConfig = TableConfig(name: string, terms: seq<SortTerm>)

  /** A decoded cursor text, or text that does not decode. */
  datatype CursorText = CursorText(table: string, values: seq<Option<int>>) | Garbage

  /** A filter column the table may lack, and a value the caller may omit. */
  datatype Filter = Filter(column: Option<string>, value: Option<int>)

  /** `search` is the pattern of a full-row search, which has to be allowed. */
  datatype Request = Request(
    filters: seq<Filter>,
    search: Option<int>,
    fullRowAllowed: bool,
    includeRowCount: bool,
    limit: int,
    offset: int,
    cursor: Option<CursorText>,
    deepOffsetLimit: int)

  datatype Response =
    | InvalidCursor
    | DeepOffset
    | SearchRefused
    | Page(rows: seq<Row>, nextCursor: Option<CursorText>, limit: nat, offset: nat, rowCount: nat)

  function Clamp(limit: int): nat {
    if limit < 1 then 1 else if limit > 200 then 200 else limit
  }

  predicate MatchesFilters(filters: seq<Filter>, row: Row) {
    forall f :: f in filters ==> f.column.Some? && f.value.Some? ==> Cell(row, f.column.value) == f.value
  }

  predicate MatchesSearch(search: Option<int>, row: Row) {
    search.Some? ==> search.value in row.matched
  }

  predicate Matches(req: Request, row: Row) {
    MatchesFilters(req.filters, row) && MatchesSearch(req.search, row)
  }

  function Matching(req: Request): Row -> bool {
    row => Matches(req, row)
  }

  function Wanted(cfg: TableConfig, req: Request, cursor: Option<seq<Option<int>>>): Row -> bool
    requires cursor.Some? ==> |cursor.value| == |cfg.terms|
  {
    row => Matches(req, row) &&
      (cursor.Some? && (exists i :: 0 <= i < |cursor.value| && cursor.value[i].Some?) ==> Past(cfg.terms, cursor.value, row))
  }

  predicate SearchIsRefused(req: Request) {
    req.search.Some? && !req.fullRowAllowed
  }

  /** The page of an answered query; the rows are counted only when pages are addressed by offset. */
  function PageOf(cfg: TableConfig, selected: seq<Row>, limit: nat, offset: nat, counted: bool): Response
    requires limit > 0
  {
    var from := if offset <= |selected| then selected[offset..] else [];
    var rows := if |from| > limit then from[..limit] else from;
    Page(rows,
         if |from| > limit then Some(CursorText(cfg.name, Keys(cfg.terms, rows[|rows| - 1]))) else None,
         limit, offset, if counted then |selected| else 0)
  }

  /** What a request answers; `db` is the table in its order. */
  function Answer(cfg: TableConfig, db: seq<Row>, req: Request): Response {
    if req.cursor.Some? && (req.cursor.value.Garbage? || req.cursor.value.table != cfg.name) then InvalidCursor
    else
      var offset := if req.cursor.Some? || req.offset < 0 then 0 else req.offset;
      if req.cursor.None? && req.deepOffsetLimit > 0 && offset > req.deepOffsetLimit then DeepOffset
      else if SearchIsRefused(req) then SearchRefused
      else if req.cursor.Some? && |req.cursor.value.values| != |cfg.terms| then InvalidCursor
      else
        var cursor := if req.cursor.Some? then Some(req.cursor.value.values) else None;
        PageOf(cfg, Select(db, Wanted(cfg, req, cursor)), Clamp(req.limit), offset, req.includeRowCount && req.cursor.None?)
  }

  // ---- building and running the query ---------------------------------------------------------------------------------------

  /** The loop of filters: each takes the next parameter number. */
  method PushFilters(filters: seq<Filter>) returns (conditions: seq<Atom>, values: seq<int>)
    ensures AllNumbered(conditions, |values|)
    ensures forall row :: AllHold(conditions, row, values) <==> MatchesFilters(filters, row)
  {
    conditions, values := [], [];
    var i := 0;
    while i < |filters|
      invariant 0 <= i <= |filters|
      invariant AllNumbered(conditions, |values|)
      invariant forall row :: AllHold(conditions, row, values) <==> MatchesFilters(filters[..i], row)
    {
      ghost var conditions0, values0 := conditions, values;
      var f := filters[i];
      if f.column.Some? && f.value.Some? {
        values := values + [f.value.value];
        conditions := conditions + [Equals(f.column.value, |values|)];
        PushedFilter(filters, i, conditions0, values0);
      } else {
        SkippedFilter(filters, i);
      }
      i := i + 1;
    }
    assert filters[..i] == filters;
  }

  lemma FilterSnoc(filters: seq<Filter>, i: nat, row: Row)
    requires i < |filters|
    ensures MatchesFilters(filters[..i + 1], row)
       <==> MatchesFilters(filters[..i], row)
            && (filters[i].column.Some? && filters[i].value.Some? ==> Cell(row, filters[i].column.value) == filters[i].value)
  {
    assert filters[..i + 1] == filters[..i] + [filters[i]];
  }

  lemma SkippedFilter(filters: seq<Filter>, i: nat)
    requires i < |filters| && !(filters[i].column.Some? && filters[i].value.Some?)
    ensures forall row :: MatchesFilters(filters[..i + 1], row) <==> MatchesFilters(filters[..i], row)
  {
    forall row ensures MatchesFilters(filters[..i + 1], row) <==> MatchesFilters(filters[..i], row) {
      FilterSnoc(filters, i, row);
    }
  }

  lemma PushedFilter(filters: seq<Filter>, i: nat, conditions: seq<Atom>, values: seq<int>)
    requires i < |filters| && filters[i].column.Some? && filters[i].value.Some?
    requires AllNumbered(conditions, |values|)
    requires forall row :: AllHold(conditions, row, values) <==> MatchesFilters(filters[..i], row)
    ensures var more := values + [filters[i].value.value];
      var grown := conditions + [Equals(filters[i].column.value, |more|)];
      && AllNumbered(grown, |more|)
      && forall row :: AllHold(grown, row, more) <==> MatchesFilters(filters[..i + 1], row)
  {
    var more := values + [filters[i].value.value];
    var a := Equals(filters[i].column.value, |more|);
    HoldsExtend(conditions, EMPTY_ROW, values, more);
    forall row ensures AllHold(conditions + [a], row, more) <==> MatchesFilters(filters[..i + 1], row) {
      HoldsExtend(conditions, row, values, more);
      AllHoldSnoc(conditions, a, row, more);
      FilterSnoc(filters, i, row);
    }
  }

  function Where(conditions: seq<Atom>, clause: Option<seq<seq<Atom>>>, values: seq<int>): Row -> bool {
    row => AllHold(conditions, row, values) && ClauseHolds(clause, row, values)
  }

  lemma {:induction false} SelectSame(rows: seq<Row>, f: Row -> bool, g: Row -> bool)
    requires forall r :: f(r) <==> g(r)
    ensures Select(rows, f) == Select(rows, g)
    decreases |rows|
  {
    if rows != [] {
      SelectSame(rows[..|rows| - 1], f, g);
    }
  }

  /** The condition of a full-row search takes the next parameter number. */
  method PushSearch(req: Request, conditions0: seq<Atom>, values0: seq<int>) returns (conditions: seq<Atom>, values: seq<int>)
    requires AllNumbered(conditions0, |values0|)
    requires forall row :: AllHold(conditions0, row, values0) <==> MatchesFilters(req.filters, row)
    ensures AllNumbered(conditions, |values|)
    ensures forall row :: AllHold(conditions, row, values) <==> Matching(req)(row)
  {
    conditions, values := conditions0, values0;
    if req.search.Some? {
      values := values + [req.search.value];
      conditions := conditions + [RowMatches(|values|)];
      HoldsExtend(conditions0, EMPTY_ROW, values0, values);
      forall row ensures AllHold(conditions, row, values) <==> Matching(req)(row) {
        HoldsExtend(conditions0, row, values0, values);
        AllHoldSnoc(conditions0, RowMatches(|values|), row, values);
      }
    }
  }

  /** `select ... where ... order by ... limit n offset m`, and `select count(*) ... where ...`. */
  method RunQuery(db: seq<Row>, conditions: seq<Atom>, clause: Option<seq<seq<Atom>>>, values: seq<int>, limit: nat, offset: nat)
      returns (rows: seq<Row>, count: nat)
    ensures var selected := Select(db, Where(conditions, clause, values));
      var from := if offset <= |selected| then selected[offset..] else [];
      (rows == if |from| > limit then from[..limit] else from) && count == |selected|
  {
    var selected := Select(db, Where(conditions, clause, values));
    var from := if offset <= |selected| then selected[offset..] else [];
    rows := if |from| > limit then from[..limit] else from;
    count := |selected|;
  }

  /** `postgresTable`. */
  method ListTable(cfg: TableConfig, db: seq<Row>, req: Request) returns (r: Response)
    ensures r == Answer(cfg, db, req)
  {
    var limit := Clamp(req.limit);
    if req.cursor.Some? && (req.cursor.value.Garbage? || req.cursor.value.table != cfg.name) {
      return InvalidCursor;
    }
    var offset := if req.cursor.Some? || req.offset < 0 then 0 else req.offset;
    if req.cursor.None? && req.deepOffsetLimit > 0 && offset > req.deepOffsetLimit {
      return DeepOffset;
    }
    var conditions, values := PushFilters(req.filters);
    if SearchIsRefused(req) {
      return SearchRefused;
    }
    conditions, values := PushSearch(req, conditions, values);
    var clause: Option<seq<seq<Atom>>> := None;
    ghost var cursor := if req.cursor.Some? then Some(req.cursor.value.values) else None;
    if req.cursor.Some? {
      ghost var values0 := values;
      var compiled := BuildKeysetWhere(cfg.terms, req.cursor.value.values, values);
      if compiled.ShapeMismatch? {
        return InvalidCursor;
      }
      clause, values := compiled.clause, compiled.values;
      ConditionsKept(conditions, values0, values);
    }
    WhereIsWanted(cfg, req, cursor, conditions, clause, values);
    SelectSame(db, Where(conditions, clause, values), Wanted(cfg, req, cursor));
    var found, count := RunQuery(db, conditions, clause, values, limit + 1, offset);
    var counted := req.includeRowCount && req.cursor.None?;
    r := SlicePage(cfg, Select(db, Wanted(cfg, req, cursor)), found, limit, offset, if counted then count else 0, counted);
  }

  lemma ConditionsKept(conditions: seq<Atom>, values: seq<int>, more: seq<int>)
    requires AllNumbered(conditions, |values|) && values <= more
    ensures forall row :: AllHold(conditions, row, values) <==> AllHold(conditions, row, more)
  {
    forall row ensures AllHold(conditions, row, values) <==> AllHold(conditions, row, more) {
      HoldsExtend(conditions, row, values, more);
    }
  }

  lemma WhereIsWanted(cfg: TableConfig, req: Request, cursor: Option<seq<Option<int>>>, conditions: seq<Atom>, clause: Option<seq<seq<Atom>>>, values: seq<int>)
    requires cursor.Some? ==> |cursor.value| == |cfg.terms|
    requires forall row :: AllHold(conditions, row, values) <==> Matching(req)(row)
    requires cursor.None? ==> clause.None?
    requires cursor.Some? ==> (clause.None? <==> forall i :: 0 <= i < |cursor.value| ==> cursor.value[i].None?)
    requires cursor.Some? && clause.Some? ==> forall row :: AnyHolds(clause.value, row, values) <==> Past(cfg.terms, cursor.value, row)
    ensures forall row :: Where(conditions, clause, values)(row) <==> Wanted(cfg, req, cursor)(row)
  {
  }

  /** Take the page and, when a row is left over, the cursor of its last row. */
  method SlicePage(cfg: TableConfig, ghost selected: seq<Row>, found: seq<Row>, limit: nat, offset: nat, count: nat, ghost counted: bool)
      returns (r: Response)
    requires limit > 0 && count == if counted then |selected| else 0
    requires var from := if offset <= |selected| then selected[offset..] else [];
      found == if |from| > limit + 1 then from[..limit + 1] else from
    ensures r == PageOf(cfg, selected, limit, offset, counted)
  {
    ghost var from := if offset <= |selected| then selected[offset..] else [];
    var rows := if |found| > limit then found[..limit] else found;
    assert rows == if |from| > limit then from[..limit] else from;
    var nextCursor := if |found| > limit && |rows| > 0 then Some(CursorText(cfg.name, Keys(cfg.terms, rows[|rows| - 1]))) else None;
    r := Page(rows, nextCursor, limit, offset, count);
  }
}
