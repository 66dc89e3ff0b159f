/** Sorting under an arbitrary strict total order.

    The source sorts paths and keys with `localeCompare`. No property of the sync engine
    depends on which order that is, so every sort here takes the order as a parameter. */
module Orders {

  ghost predicate StrictTotal<T(!new)>(less: (T, T) -> bool) {
    && (forall a :: !less(a, a))
    && (forall a, b, c :: less(a, b) && less(b, c) ==> less(a, c))
    && (forall a, b :: a == b || less(a, b) || less(b, a))
  }

  ghost predicate Ascending<T>(less: (T, T) -> bool, s: seq<T>) {
    forall i, j :: 0 <= i < j < |s| ==> less(s[i], s[j])
  }

  function Elements<T>(s: seq<T>): set<T> {
    set x | x in s
  }

  /** `s` lists the set `xs` in ascending order, each element once. */
  ghost predicate Lists<T>(less: (T, T) -> bool, s: seq<T>, xs: set<T>) {
    Ascending(less, s) && Elements(s) == xs
  }

  lemma MinimumExists<T(!new)>(less: (T, T) -> bool, xs: set<T>)
    requires StrictTotal(less) && xs != {}
    ensures exists m :: m in xs && forall x :: x in xs && x != m ==> less(m, x)
  {
    var a :| a in xs;
    var rest := xs - {a};
    if rest == {} {
      assert xs == {a};
    } else {
      MinimumExists(less, rest);
      var m :| m in rest && forall x :: x in rest && x != m ==> less(m, x);
      var best := if less(a, m) then a else m;
      forall x | x in xs && x != best ensures less(best, x) {
        assert x == a || x in rest;
      }
    }
  }

  /** The least element of a non-empty finite set. */
  ghost function Least<T(!new)>(less: (T, T) -> bool, xs: set<T>): T
    requires StrictTotal(less) && xs != {}
  {
    MinimumExists(less, xs);
    var m :| m in xs && forall x :: x in xs && x != m ==> less(m, x);
    m
  }

  /** The ascending listing of a finite set. */
  ghost function Sorted<T(!new)>(less: (T, T) -> bool, xs: set<T>): seq<T>
    requires StrictTotal(less)
    decreases |xs|
  {
    if xs == {} then []
    else
      MinimumExists(less, xs);
      var m := Least(less, xs);
      [m] + Sorted(less, xs - {m})
  }

  lemma ListsCons<T(!new)>(less: (T, T) -> bool, m: T, rest: seq<T>, xs: set<T>)
    requires m in xs && forall x :: x in xs && x != m ==> less(m, x)
    requires Lists(less, rest, xs - {m})
    ensures Lists(less, [m] + rest, xs)
  {
    var s := [m] + rest;
    forall i, j | 0 <= i < j < |s| ensures less(s[i], s[j]) {
      assert s[j] == rest[j - 1];
      if i == 0 {
        assert rest[j - 1] in Elements(rest);
      } else {
        assert s[i] == rest[i - 1];
      }
    }
    assert forall x :: x in Elements(rest) <==> x in rest;
    assert forall x :: x in s <==> x == m || x in rest;
  }

  lemma {:induction false} SortedLists<T(!new)>(less: (T, T) -> bool, xs: set<T>)
    requires StrictTotal(less)
    ensures Lists(less, Sorted(less, xs), xs)
    ensures |Sorted(less, xs)| == |xs|
    decreases |xs|
  {
    if xs != {} {
      MinimumExists(less, xs);
      var m := Least(less, xs);
      SortedLists(less, xs - {m});
      ListsCons(less, m, Sorted(less, xs - {m}), xs);
    }
  }

  lemma HasElements<T>(s: seq<T>)
    ensures s == [] <==> Elements(s) == {}
  {
    if s != [] { assert s[0] in Elements(s); }
  }

  /** A set has only one ascending listing, so any sorting algorithm computes `Sorted`. */
  lemma {:induction false} ListingIsUnique<T(!new)>(less: (T, T) -> bool, s: seq<T>, t: seq<T>)
    requires StrictTotal(less)
    requires Ascending(less, s) && Ascending(less, t) && Elements(s) == Elements(t)
    ensures s == t
    decreases |s|
  {
    if s == [] {
      HasElements(t);
    } else {
      assert s[0] in Elements(s);
      assert t != [];
      assert t[0] in Elements(t);
      assert s[0] == t[0] by {
        var i :| 0 <= i < |t| && t[i] == s[0];
        var j :| 0 <= j < |s| && s[j] == t[0];
      }
      forall x ensures x in Elements(s[1..]) <==> x in Elements(t[1..]) {
        if x in s[1..] { assert x in Elements(s); assert x in t; assert x != s[0]; }
        if x in t[1..] { assert x in Elements(t); assert x in s; assert x != t[0]; }
      }
      ListingIsUnique(less, s[1..], t[1..]);
      assert s == [s[0]] + s[1..] && t == [t[0]] + t[1..];
    }
  }

  lemma SortedOne<T(!new)>(less: (T, T) -> bool, a: T)
    requires StrictTotal(less)
    ensures Sorted(less, {a}) == [a]
  {
    SortedLists(less, {a});
    assert Elements([a]) == {a};
    ListingIsUnique(less, [a], Sorted(less, {a}));
  }

  lemma SortedPair<T(!new)>(less: (T, T) -> bool, a: T, b: T)
    requires StrictTotal(less) && less(a, b)
    ensures Sorted(less, {a, b}) == [a, b]
  {
    SortedLists(less, {a, b});
    assert Elements([a, b]) == {a, b};
    ListingIsUnique(less, [a, b], Sorted(less, {a, b}));
  }

  /** Straight insertion; stands for the built-in sort. */
  method Sort<T(!new, ==)>(less: (T, T) -> bool, xs: set<T>) returns (s: seq<T>)
    requires StrictTotal(less)
    ensures s == Sorted(less, xs)
  {
    s := [];
    var todo := xs;
    while todo != {}
      invariant Ascending(less, s)
      invariant todo <= xs && Elements(s) == xs - todo
      decreases todo
    {
      var x :| x in todo;
      var at := 0;
      while at < |s| && less(s[at], x)
        invariant 0 <= at <= |s|
        invariant forall i :: 0 <= i < at ==> less(s[i], x)
      {
        at := at + 1;
      }
      assert x !in Elements(s);
      assert forall i :: at <= i < |s| ==> less(x, s[i]) by {
        if at < |s| { assert s[at] in Elements(s); }
      }
      var t := s[..at] + [x] + s[at..];
      assert Elements(t) == Elements(s) + {x} by {
        forall y ensures y in t <==> y in s || y == x {
          if y in s { var i :| 0 <= i < |s| && s[i] == y; assert t[if i < at then i else i + 1] == y; }
          if y == x { assert t[at] == x; }
        }
      }
      s := t;
      todo := todo - {x};
    }
    SortedLists(less, xs);
    ListingIsUnique(less, s, Sorted(less, xs));
  }
}
