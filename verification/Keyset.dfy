/** Keyset pagination of a database table (storage-admin-postgres.ts): compiling a sort order and a
    cursor into a numbered SQL condition. Only the order of a column's values matters, so they are integers. */
module Keyset {
  import opened Options

  /** A row by expression; a missing entry is null. `matched` holds the search patterns its text matches. */
  datatype Row = Row(cells: map<string, int>, matched: set<int>)

  const EMPTY_ROW := Row(map[], {})

  function Cell(row: Row, expression: string): Option<int> {
    if expression in row.cells then Some(row.cells[expression]) else None
  }

  datatype SortTerm = SortTerm(expression: string, descending: bool, nullsLast: bool)

  // ---- conditions ---------------------------------------------------------------------------------------------

  /** `expression = $n` and so on; parameters are numbered from 1. */
  datatype Atom =
    | Equals(expression: string, param: nat)
    | IsNull(expression: string)
    | Less(expression: string, param: nat)
    | Greater(expression: string, param: nat)
    | RowMatches(param: nat)

  predicate Numbered(a: Atom, n: nat) {
    a.IsNull? || 1 <= a.param <= n
  }

  /** The condition is true; a comparison with null is not. */
  predicate Holds(a: Atom, row: Row, values: seq<int>) {
    match a
    case IsNull(e) => Cell(row, e).None?
    case Equals(e, n) => 1 <= n <= |values| && Cell(row, e) == Some(values[n - 1])
    case Less(e, n) => 1 <= n <= |values| && Cell(row, e).Some? && Cell(row, e).value < values[n - 1]
    case Greater(e, n) => 1 <= n <= |values| && Cell(row, e).Some? && Cell(row, e).value > values[n - 1]
    case RowMatches(n) => 1 <= n <= |values| && values[n - 1] in row.matched
  }

  ghost predicate AllNumbered(atoms: seq<Atom>, n: nat) {
    forall a :: a in atoms ==> Numbered(a, n)
  }

  predicate AllHold(atoms: seq<Atom>, row: Row, values: seq<int>) {
    forall a :: a in atoms ==> Holds(a, row, values)
  }

  predicate AnyHolds(clauses: seq<seq<Atom>>, row: Row, values: seq<int>) {
    exists c :: c in clauses && AllHold(c, row, values)
  }

  ghost predicate ClausesNumbered(clauses: seq<seq<Atom>>, n: nat) {
    forall c :: c in clauses ==> AllNumbered(c, n)
  }

  /** Appending parameters does not change what numbered conditions mean. */
  lemma HoldsExtend(atoms: seq<Atom>, row: Row, values: seq<int>, more: seq<int>)
    requires AllNumbered(atoms, |values|) && values <= more
    ensures AllHold(atoms, row, values) <==> AllHold(atoms, row, more)
    ensures AllNumbered(atoms, |more|)
  {
    forall a | a in atoms ensures Numbered(a, |values|) && (Holds(a, row, values) <==> Holds(a, row, more)) {
    }
  }

  lemma AnyExtend(clauses: seq<seq<Atom>>, row: Row, values: seq<int>, more: seq<int>)
    requires ClausesNumbered(clauses, |values|) && values <= more
    ensures AnyHolds(clauses, row, values) <==> AnyHolds(clauses, row, more)
    ensures ClausesNumbered(clauses, |more|)
  {
    forall c | c in clauses ensures (AllHold(c, row, values) <==> AllHold(c, row, more)) && AllNumbered(c, |more|) {
      HoldsExtend(c, row, values, more);
    }
  }

  lemma AllHoldSnoc(atoms: seq<Atom>, a: Atom, row: Row, values: seq<int>)
    ensures AllHold(atoms + [a], row, values) <==> AllHold(atoms, row, values) && Holds(a, row, values)
  {
    assert forall x :: x in atoms + [a] <==> x in atoms || x == a;
  }

  lemma AnyHoldsSnoc(clauses: seq<seq<Atom>>, c: seq<Atom>, row: Row, values: seq<int>)
    ensures AnyHolds(clauses + [c], row, values) <==> AnyHolds(clauses, row, values) || AllHold(c, row, values)
  {
    assert forall x :: x in clauses + [c] <==> x in clauses || x == c;
  }

  // ---- what the condition means -----------------------------------------------------------------------------------

  predicate EqualUpTo(terms: seq<SortTerm>, cursor: seq<Option<int>>, row: Row, n: nat)
    requires n <= |terms| == |cursor|
  {
    forall j :: 0 <= j < n ==> Cell(row, terms[j].expression) == cursor[j]
  }

  predicate Beyond(t: SortTerm, row: Row, c: int) {
    Cell(row, t.expression).Some? && if t.descending then Cell(row, t.expression).value < c else Cell(row, t.expression).value > c
  }

  predicate PastAt(terms: seq<SortTerm>, cursor: seq<Option<int>>, row: Row, i: nat)
    requires i < |terms| == |cursor|
  {
    EqualUpTo(terms, cursor, row, i) && cursor[i].Some? && Beyond(terms[i], row, cursor[i].value)
  }

  predicate PastBelow(terms: seq<SortTerm>, cursor: seq<Option<int>>, row: Row, n: nat)
    requires n <= |terms| == |cursor|
  {
    exists i :: 0 <= i < n && PastAt(terms, cursor, row, i)
  }

  predicate Past(terms: seq<SortTerm>, cursor: seq<Option<int>>, row: Row)
    requires |terms| == |cursor|
  {
    PastBelow(terms, cursor, row, |terms|)
  }

  lemma PastStep(terms: seq<SortTerm>, cursor: seq<Option<int>>, row: Row, n: nat)
    requires n < |terms| == |cursor|
    ensures PastBelow(terms, cursor, row, n + 1) <==> PastBelow(terms, cursor, row, n) || PastAt(terms, cursor, row, n)
  {
  }

  // ---- the compiler ---------------------------------------------------------------------------------------------------

  datatype KeysetResult = ShapeMismatch | Compiled(clause: Option<seq<seq<Atom>>>, values: seq<int>)

  /** What an absent clause means: no restriction. */
  predicate ClauseHolds(clause: Option<seq<seq<Atom>>>, row: Row, values: seq<int>) {
    clause.None? || AnyHolds(clause.value, row, values)
  }

  /** The inner loop: the columns before `index` are as in the cursor. */
  method EqualityParts(terms: seq<SortTerm>, cursor: seq<Option<int>>, index: nat, values0: seq<int>)
      returns (parts: seq<Atom>, values: seq<int>)
    requires index <= |terms| == |cursor|
    ensures values0 <= values && AllNumbered(parts, |values|)
    ensures forall row :: AllHold(parts, row, values) <==> EqualUpTo(terms, cursor, row, index)
  {
    parts, values := [], values0;
    var previous := 0;
    while previous < index
      invariant 0 <= previous <= index
      invariant values0 <= values && AllNumbered(parts, |values|)
      invariant forall row :: AllHold(parts, row, values) <==> EqualUpTo(terms, cursor, row, previous)
    {
      ghost var parts0, values1 := parts, values;
      var part;
      part, values := EqualityPart(terms[previous], cursor[previous], values);
      parts := parts + [part];
      forall row ensures AllHold(parts, row, values) <==> EqualUpTo(terms, cursor, row, previous + 1) {
        HoldsExtend(parts0, row, values1, values);
        AllHoldSnoc(parts0, part, row, values);
      }
      previous := previous + 1;
    }
  }

  method EqualityPart(term: SortTerm, value: Option<int>, values0: seq<int>) returns (part: Atom, values: seq<int>)
    ensures values0 <= values && Numbered(part, |values|)
    ensures forall row :: Holds(part, row, values) <==> Cell(row, term.expression) == value
  {
    values := values0;
    if value.None? {
      part := IsNull(term.expression);
    } else {
      values := values + [value.value];
      part := Equals(term.expression, |values|);
    }
  }

  /** One turn of the outer loop for a column with a value in the cursor. */
  method Disjunct(terms: seq<SortTerm>, cursor: seq<Option<int>>, index: nat, parts: seq<Atom>, values0: seq<int>)
      returns (clause: seq<Atom>, values: seq<int>)
    requires index < |terms| == |cursor| && cursor[index].Some? && AllNumbered(parts, |values0|)
    requires forall row :: AllHold(parts, row, values0) <==> EqualUpTo(terms, cursor, row, index)
    ensures values0 <= values && AllNumbered(clause, |values|)
    ensures forall row :: AllHold(clause, row, values) <==> PastAt(terms, cursor, row, index)
  {
    values := values0 + [cursor[index].value];
    var term := terms[index];
    var comparison := if term.descending then Less(term.expression, |values|) else Greater(term.expression, |values|);
    clause := parts + [comparison];
    forall row ensures AllHold(clause, row, values) <==> PastAt(terms, cursor, row, index) {
      HoldsExtend(parts, row, values0, values);
      AllHoldSnoc(parts, comparison, row, values);
    }
    HoldsExtend(parts, EMPTY_ROW, values0, values);
  }

  /** `buildPostgresKeysetWhere`. Parameters already in use keep their numbers. */
  method BuildKeysetWhere(terms: seq<SortTerm>, cursor: seq<Option<int>>, values0: seq<int>) returns (r: KeysetResult)
    ensures r.ShapeMismatch? <==> |cursor| != |terms|
    ensures r.Compiled? ==>
      && values0 <= r.values
      && (r.clause.Some? ==> ClausesNumbered(r.clause.value, |r.values|))
      && (r.clause.None? <==> forall i :: 0 <= i < |cursor| ==> cursor[i].None?)
      && (r.clause.Some? ==> forall row :: AnyHolds(r.clause.value, row, r.values) <==> Past(terms, cursor, row))
  {
    if |cursor| != |terms| {
      return ShapeMismatch;
    }
    var disjunctions: seq<seq<Atom>> := [];
    var values := values0;
    var index := 0;
    while index < |terms|
      invariant 0 <= index <= |terms|
      invariant values0 <= values && ClausesNumbered(disjunctions, |values|)
      invariant disjunctions == [] <==> forall i :: 0 <= i < index ==> cursor[i].None?
      invariant forall row :: AnyHolds(disjunctions, row, values) <==> PastBelow(terms, cursor, row, index)
    {
      ghost var values1, before := values, disjunctions;
      var parts;
      parts, values := EqualityParts(terms, cursor, index, values);
      if cursor[index].Some? {
        var clause;
        clause, values := Disjunct(terms, cursor, index, parts, values);
        disjunctions := disjunctions + [clause];
        AddDisjunct(terms, cursor, index, before, clause, values1, values);
      } else {
        SkipDisjunct(terms, cursor, index, before, values1, values);
      }
      index := index + 1;
    }
    return Compiled(if |disjunctions| > 0 then Some(disjunctions) else None, values);
  }

  lemma AddDisjunct(terms: seq<SortTerm>, cursor: seq<Option<int>>, index: nat, before: seq<seq<Atom>>, clause: seq<Atom>, values0: seq<int>, values: seq<int>)
    requires index < |terms| == |cursor| && values0 <= values
    requires ClausesNumbered(before, |values0|) && AllNumbered(clause, |values|)
    requires forall row :: AnyHolds(before, row, values0) <==> PastBelow(terms, cursor, row, index)
    requires forall row :: AllHold(clause, row, values) <==> PastAt(terms, cursor, row, index)
    ensures ClausesNumbered(before + [clause], |values|)
    ensures forall row :: AnyHolds(before + [clause], row, values) <==> PastBelow(terms, cursor, row, index + 1)
  {
    forall row ensures AnyHolds(before + [clause], row, values) <==> PastBelow(terms, cursor, row, index + 1) {
      AnyExtend(before, row, values0, values);
      AnyHoldsSnoc(before, clause, row, values);
      PastStep(terms, cursor, row, index);
    }
    AnyExtend(before, EMPTY_ROW, values0, values);
  }

  lemma SkipDisjunct(terms: seq<SortTerm>, cursor: seq<Option<int>>, index: nat, before: seq<seq<Atom>>, values0: seq<int>, values: seq<int>)
    requires index < |terms| == |cursor| && values0 <= values && cursor[index].None?
    requires ClausesNumbered(before, |values0|)
    requires forall row :: AnyHolds(before, row, values0) <==> PastBelow(terms, cursor, row, index)
    ensures ClausesNumbered(before, |values|)
    ensures forall row :: AnyHolds(before, row, values) <==> PastBelow(terms, cursor, row, index + 1)
  {
    forall row ensures AnyHolds(before, row, values) <==> PastBelow(terms, cursor, row, index + 1) {
      AnyExtend(before, row, values0, values);
      PastStep(terms, cursor, row, index);
    }
    AnyExtend(before, EMPTY_ROW, values0, values);
  }
}
