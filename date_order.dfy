/** The order in which the booking store keeps its dates: Python's `<` on
    `str`, i.e. lexicographic by code point with a proper prefix first. For
    `YYYY-MM-DD` strings this is chronological order. */
module DateOrder {

  /** Python's `a < b` on strings. */
  predicate Less(a: string, b: string)
    decreases |a|
  {
    if |a| == 0 then |b| > 0
    else if |b| == 0 then false
    else if a[0] != b[0] then a[0] < b[0]
    else Less(a[1..], b[1..])
  }

  lemma {:induction false} LessIrreflexive(a: string)
    ensures !Less(a, a)
    decreases |a|
  {
    if |a| > 0 {
      LessIrreflexive(a[1..]);
    }
  }

  lemma {:induction false} LessTransitive(a: string, b: string, c: string)
    requires Less(a, b) && Less(b, c)
    ensures Less(a, c)
    decreases |a|
  {
    if |a| > 0 && |b| > 0 && |c| > 0 && a[0] == b[0] && b[0] == c[0] {
      LessTransitive(a[1..], b[1..], c[1..]);
    }
  }

  /** Any two different strings are ordered one way or the other. */
  lemma {:induction false} LessTotal(a: string, b: string)
    requires a != b
    ensures Less(a, b) || Less(b, a)
    decreases |a|
  {
    if |a| > 0 && |b| > 0 && a[0] == b[0] {
      assert a == [a[0]] + a[1..] && b == [b[0]] + b[1..];
      LessTotal(a[1..], b[1..]);
    }
  }

  /** Strictly ascending: each string is below the next, so the list is
      sorted and free of duplicates. */
  predicate StrictlySorted(xs: seq<string>)
    decreases |xs|
  {
    |xs| < 2 || (Less(xs[0], xs[1]) && StrictlySorted(xs[1..]))
  }

  function Elems(xs: seq<string>): set<string>
  {
    set x | x in xs
  }

  lemma ElemsCons(a: string, s: seq<string>)
    ensures Elems([a] + s) == {a} + Elems(s)
  {
    assert forall y :: y in [a] + s <==> y == a || y in s;
  }

  lemma ElemsEmpty(xs: seq<string>)
    ensures Elems(xs) == {} ==> xs == []
  {
    if xs != [] {
      assert xs[0] in Elems(xs);
    }
  }

  /** The first string of a strictly ascending list is below all the
      others. */
  lemma {:induction false} HeadBelowRest(xs: seq<string>)
    requires StrictlySorted(xs) && |xs| > 0
    ensures forall y :: y in xs[1..] ==> Less(xs[0], y)
    decreases |xs|
  {
    if |xs| >= 2 {
      var rest := xs[1..];
      HeadBelowRest(rest);
      forall y | y in rest ensures Less(xs[0], y) {
        if y != rest[0] {
          assert rest == [rest[0]] + rest[1..];
          LessTransitive(xs[0], rest[0], y);
        }
      }
    }
  }

  /** A strictly ascending list holds each string at most once. */
  lemma {:induction false} StrictlySortedDistinct(xs: seq<string>, i: int, j: int)
    requires StrictlySorted(xs)
    requires 0 <= i < |xs| && 0 <= j < |xs| && xs[i] == xs[j]
    ensures i == j
    decreases |xs|
  {
    if i != j {
      if i == 0 || j == 0 {
        var k := if i == 0 then j else i;
        HeadBelowRest(xs);
        assert xs[k] == xs[1..][k - 1];
        LessIrreflexive(xs[0]);
      } else {
        StrictlySortedDistinct(xs[1..], i - 1, j - 1);
      }
    }
  }

  lemma ConsSorted(a: string, s: seq<string>)
    requires StrictlySorted(s)
    requires forall y :: y in s ==> Less(a, y)
    ensures StrictlySorted([a] + s)
  {
    assert ([a] + s)[1..] == s;
  }

  lemma InsertBefore(xs: seq<string>, x: string)
    requires StrictlySorted(xs) && |xs| > 0 && Less(x, xs[0])
    ensures StrictlySorted([x] + xs)
  {
    HeadBelowRest(xs);
    forall y | y in xs ensures Less(x, y) {
      if y != xs[0] {
        assert xs == [xs[0]] + xs[1..];
        LessTransitive(x, xs[0], y);
      }
    }
    ConsSorted(x, xs);
  }

  /** Adds `x` to a strictly ascending list, keeping it strictly ascending. */
  function Insert(xs: seq<string>, x: string): (r: seq<string>)
    requires StrictlySorted(xs)
    ensures StrictlySorted(r)
    ensures Elems(r) == Elems(xs) + {x}
    decreases |xs|
  {
    if xs == [] then [x]
    else if x == xs[0] then xs
    else if Less(x, xs[0]) then
      InsertBefore(xs, x);
      ElemsCons(x, xs);
      [x] + xs
    else
      HeadBelowRest(xs);
      LessTotal(x, xs[0]);
      var tail := Insert(xs[1..], x);
      assert xs == [xs[0]] + xs[1..];
      assert forall y :: y in tail ==> Less(xs[0], y) by {
        forall y | y in tail ensures Less(xs[0], y) {
          assert y in Elems(tail);
        }
      }
      ConsSorted(xs[0], tail);
      ElemsCons(xs[0], tail);
      ElemsCons(xs[0], xs[1..]);
      [xs[0]] + tail
  }

  /** Python's `sorted(set(xs))`: the distinct strings of `xs` in ascending
      order. */
  function SortedDistinct(xs: seq<string>): (r: seq<string>)
    ensures StrictlySorted(r)
    ensures Elems(r) == Elems(xs)
    decreases |xs|
  {
    if xs == [] then []
    else
      assert xs == xs[..|xs| - 1] + [xs[|xs| - 1]];
      Insert(SortedDistinct(xs[..|xs| - 1]), xs[|xs| - 1])
  }

  /** A strictly ascending list is determined by its set of elements: there
      is only one way to write a set of strings sorted without duplicates. */
  lemma {:induction false} StrictlySortedUnique(a: seq<string>, b: seq<string>)
    requires StrictlySorted(a) && StrictlySorted(b)
    requires Elems(a) == Elems(b)
    ensures a == b
    decreases |a|
  {
    if a == [] {
      ElemsEmpty(b);
    } else {
      assert a[0] in Elems(b);
      assert b != [];
      assert b[0] in Elems(a);
      HeadBelowRest(a);
      HeadBelowRest(b);
      LessIrreflexive(a[0]);
      LessIrreflexive(b[0]);
      if a[0] != b[0] {
        assert b[0] in a[1..] by { assert a == [a[0]] + a[1..]; }
        assert a[0] in b[1..] by { assert b == [b[0]] + b[1..]; }
        LessTransitive(a[0], b[0], a[0]);
        assert false;
      }
      assert a == [a[0]] + a[1..] && b == [b[0]] + b[1..];
      forall y | y in Elems(a[1..]) ensures y in Elems(b[1..]) {
        assert y in Elems(b) && y != b[0];
      }
      forall y | y in Elems(b[1..]) ensures y in Elems(a[1..]) {
        assert y in Elems(a) && y != a[0];
      }
      StrictlySortedUnique(a[1..], b[1..]);
    }
  }

  /** Sorting and de-duplicating a list that is already strictly ascending
      gives that list back. */
  lemma SortedDistinctOfSorted(xs: seq<string>)
    requires StrictlySorted(xs)
    ensures SortedDistinct(xs) == xs
  {
    StrictlySortedUnique(SortedDistinct(xs), xs);
  }

  /** Python's `sorted(list(s))` for a set of strings: the set is walked in
      whatever order it yields its elements, and the result is the ascending
      list of them. */
  method SortedList(s: set<string>) returns (r: seq<string>)
    ensures StrictlySorted(r)
    ensures Elems(r) == s
  {
    r := [];
    var rest := s;
    while rest != {}
      invariant StrictlySorted(r)
      invariant Elems(r) + rest == s
      decreases rest
    {
      var x :| x in rest;
      r := Insert(r, x);
      rest := rest - {x};
    }
  }
}
