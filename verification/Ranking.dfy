/** Sorting by a strict order, and why the result does not depend on how it was computed. */
module Ranking {
  ghost predicate StrictOrder<R(!new)>(less: (R, R) -> bool) {
    && (forall x :: !less(x, x))
    && (forall x, y, z :: less(x, y) && less(y, z) ==> less(x, z))
  }

  predicate Ascending<R>(less: (R, R) -> bool, s: seq<R>) {
    forall i, j :: 0 <= i < j < |s| ==> less(s[i], s[j])
  }

  /** Any two elements at different places are ordered one way or the other. */
  predicate Linear<R>(less: (R, R) -> bool, s: seq<R>) {
    forall i, j :: 0 <= i < j < |s| ==> less(s[i], s[j]) || less(s[j], s[i])
  }

  function Insert<R>(less: (R, R) -> bool, x: R, s: seq<R>): seq<R> {
    if s == [] then [x]
    else if less(x, s[0]) then [x] + s
    else [s[0]] + Insert(less, x, s[1..])
  }

  /** Stands for the sort of the standard library, which is only assumed to sort. */
  function Sort<R>(less: (R, R) -> bool, s: seq<R>): seq<R> {
    if s == [] then [] else Insert(less, s[0], Sort(less, s[1..]))
  }

  lemma {:induction false} InsertAddsOne<R>(less: (R, R) -> bool, x: R, s: seq<R>)
    ensures multiset(Insert(less, x, s)) == multiset(s) + multiset{x}
  {
    if s != [] {
      InsertAddsOne(less, x, s[1..]);
      assert s == [s[0]] + s[1..];
    }
  }

  lemma InsertMembers<R(!new)>(less: (R, R) -> bool, x: R, s: seq<R>)
    ensures forall y :: y in Insert(less, x, s) <==> y == x || y in s
  {
    InsertAddsOne(less, x, s);
    forall y
      ensures y in Insert(less, x, s) <==> y == x || y in s
    {
      assert y in multiset(Insert(less, x, s)) <==> y in multiset(s) + multiset{x};
    }
  }

  lemma {:induction false} InsertKeepsAscending<R(!new)>(less: (R, R) -> bool, x: R, s: seq<R>)
    requires StrictOrder(less) && Ascending(less, s)
    requires forall y :: y in s ==> less(x, y) || less(y, x)
    ensures Ascending(less, Insert(less, x, s))
  {
    if s != [] && !less(x, s[0]) {
      assert s[0] in s && less(s[0], x);
      InsertKeepsAscending(less, x, s[1..]);
      InsertMembers(less, x, s[1..]);
      var rest := Insert(less, x, s[1..]);
      forall j | 0 <= j < |rest|
        ensures less(s[0], rest[j])
      {
        assert rest[j] in rest;
      }
    }
  }

  lemma {:induction false} SortKeepsElements<R>(less: (R, R) -> bool, s: seq<R>)
    ensures multiset(Sort(less, s)) == multiset(s)
  {
    if s != [] {
      SortKeepsElements(less, s[1..]);
      InsertAddsOne(less, s[0], Sort(less, s[1..]));
      assert s == [s[0]] + s[1..];
    }
  }

  lemma HeadIsOrdered<R(!new)>(less: (R, R) -> bool, s: seq<R>, rest: seq<R>)
    requires s != [] && Linear(less, s) && multiset(rest) == multiset(s[1..])
    ensures Linear(less, s[1..])
    ensures forall y :: y in rest ==> less(s[0], y) || less(y, s[0])
  {
    forall y | y in rest
      ensures less(s[0], y) || less(y, s[0])
    {
      assert y in multiset(rest);
      assert y in s[1..];
    }
  }

  lemma {:induction false} SortSorts<R(!new)>(less: (R, R) -> bool, s: seq<R>)
    requires StrictOrder(less) && Linear(less, s)
    ensures Ascending(less, Sort(less, s)) && multiset(Sort(less, s)) == multiset(s)
  {
    SortKeepsElements(less, s);
    if s != [] {
      SortKeepsElements(less, s[1..]);
      HeadIsOrdered(less, s, Sort(less, s[1..]));
      SortSorts(less, s[1..]);
      InsertKeepsAscending(less, s[0], Sort(less, s[1..]));
    }
  }

  lemma SortKeepsMembers<R(!new)>(less: (R, R) -> bool, s: seq<R>)
    requires StrictOrder(less) && Linear(less, s)
    ensures forall x :: x in Sort(less, s) <==> x in s
  {
    SortSorts(less, s);
    forall x
      ensures x in Sort(less, s) <==> x in s
    {
      assert x in multiset(Sort(less, s)) <==> x in multiset(s);
    }
  }

  lemma HeadIsLeast<R>(less: (R, R) -> bool, s: seq<R>, x: R)
    requires Ascending(less, s) && x in s
    ensures x == s[0] || less(s[0], x)
  {
    var i :| 0 <= i < |s| && s[i] == x;
  }

  lemma Asymmetric<R(!new)>(less: (R, R) -> bool, x: R, y: R)
    requires StrictOrder(less)
    ensures less(x, y) ==> !less(y, x)
  {
  }

  lemma EmptyBelow<R(!new)>(s: seq<R>, t: seq<R>)
    requires forall x :: x in s ==> x in t
    ensures t == [] ==> s == []
  {
    if s != [] {
      assert s[0] in s;
    }
  }

  /** Two ascending sequences with the same elements are the same sequence. */
  lemma {:induction false} AscendingIsUnique<R(!new)>(less: (R, R) -> bool, s: seq<R>, t: seq<R>)
    requires StrictOrder(less) && Ascending(less, s) && Ascending(less, t)
    requires forall x :: x in s <==> x in t
    ensures s == t
  {
    EmptyBelow(s, t);
    EmptyBelow(t, s);
    if s != [] && t != [] {
      assert s[0] in s && t[0] in t;
      Asymmetric(less, s[0], t[0]);
      HeadIsLeast(less, s, t[0]);
      HeadIsLeast(less, t, s[0]);
      forall x
        ensures x in s[1..] <==> x in t[1..]
      {
        TailMembers(less, s, x);
        TailMembers(less, t, x);
      }
      AscendingIsUnique(less, s[1..], t[1..]);
    }
  }

  lemma TailMembers<R(!new)>(less: (R, R) -> bool, s: seq<R>, x: R)
    requires StrictOrder(less) && Ascending(less, s) && s != []
    ensures x in s[1..] <==> x in s && x != s[0]
  {
    if x in s && x != s[0] {
      var i :| 0 <= i < |s| && s[i] == x;
      assert s[1..][i - 1] == x;
    }
    if x in s[1..] {
      var i :| 0 <= i < |s[1..]| && s[1..][i] == x;
      assert less(s[0], s[i + 1]);
    }
  }

  /** What is left of an ascending sequence is ascending. */
  function Filter<R(!new)>(s: seq<R>, p: R -> bool): (r: seq<R>)
    ensures forall x :: x in r <==> x in s && p(x)
  {
    if s == [] then []
    else
      assert forall x :: x in s <==> x in s[..|s| - 1] || x == s[|s| - 1];
      Filter(s[..|s| - 1], p) + if p(s[|s| - 1]) then [s[|s| - 1]] else []
  }

  lemma {:induction false} FilterKeepsAscending<R(!new)>(less: (R, R) -> bool, s: seq<R>, p: R -> bool)
    requires Ascending(less, s)
    ensures Ascending(less, Filter(s, p))
  {
    if s != [] {
      var init, last := s[..|s| - 1], s[|s| - 1];
      FilterKeepsAscending(less, init, p);
      forall i | 0 <= i < |Filter(init, p)|
        ensures less(Filter(init, p)[i], last)
      {
        assert Filter(init, p)[i] in init;
      }
    }
  }

  lemma {:induction false} FilterKeepsLinear<R(!new)>(less: (R, R) -> bool, s: seq<R>, p: R -> bool)
    requires Linear(less, s)
    ensures Linear(less, Filter(s, p))
  {
    if s != [] {
      var init, last := s[..|s| - 1], s[|s| - 1];
      FilterKeepsLinear(less, init, p);
      forall i | 0 <= i < |Filter(init, p)|
        ensures less(Filter(init, p)[i], last) || less(last, Filter(init, p)[i])
      {
        assert Filter(init, p)[i] in init;
      }
    }
  }

  // ---- text order

  /** Strings compare character by character; a proper prefix comes first. */
  predicate TextLess(a: string, b: string) {
    if b == [] then false
    else if a == [] then true
    else a[0] < b[0] || (a[0] == b[0] && TextLess(a[1..], b[1..]))
  }

  lemma {:induction false} TextLessIsStrict(a: string)
    ensures !TextLess(a, a)
  {
    if a != [] {
      TextLessIsStrict(a[1..]);
    }
  }

  lemma {:induction false} TextLessIsTransitive(a: string, b: string, c: string)
    requires TextLess(a, b) && TextLess(b, c)
    ensures TextLess(a, c)
  {
    if a != [] && a[0] == b[0] == c[0] {
      TextLessIsTransitive(a[1..], b[1..], c[1..]);
    }
  }

  lemma {:induction false} TextLessIsTotal(a: string, b: string)
    ensures a == b || TextLess(a, b) || TextLess(b, a)
  {
    if a != [] && b != [] && a[0] == b[0] {
      TextLessIsTotal(a[1..], b[1..]);
      assert a == [a[0]] + a[1..] && b == [b[0]] + b[1..];
    }
  }
}
