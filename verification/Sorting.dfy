// What Go's sort.Slice promises, and why a strict total order makes its instability harmless.
module Sorting {
  ghost predicate StrictTotal<T(!new)>(less: (T, T) -> bool, xs: seq<T>) {
    && (forall x | x in xs :: !less(x, x))
    && (forall x, y | x in xs && y in xs && x != y :: less(x, y) || less(y, x))
    && (forall x, y, z | x in xs && y in xs && z in xs && less(x, y) && less(y, z) :: less(x, z))
  }

  ghost predicate Ordered<T(!new)>(less: (T, T) -> bool, xs: seq<T>) {
    forall i, j :: 0 <= i < j < |xs| ==> !less(xs[j], xs[i])
  }

  ghost predicate SortingOf<T(!new)>(less: (T, T) -> bool, xs: seq<T>, ys: seq<T>) {
    multiset(ys) == multiset(xs) && Ordered(less, ys)
  }

  // The reference result: insert each element before the first one it precedes.
  function Insert<T>(less: (T, T) -> bool, ys: seq<T>, x: T): (r: seq<T>)
    ensures multiset(r) == multiset(ys) + multiset{x}
  {
    if ys == [] then [x]
    else if less(x, ys[0]) then [x] + ys
    else
      assert ys == [ys[0]] + ys[1..];
      [ys[0]] + Insert(less, ys[1..], x)
  }

  function Sorted<T>(less: (T, T) -> bool, xs: seq<T>): (r: seq<T>)
    ensures multiset(r) == multiset(xs)
  {
    if xs == [] then [] else
      assert xs == xs[..|xs| - 1] + [xs[|xs| - 1]];
      Insert(less, Sorted(less, xs[..|xs| - 1]), xs[|xs| - 1])
  }

  // Go's sort.Slice: some sorting permutation, which one of them is left open.
  method SortSlice<T(!new)>(xs: seq<T>, less: (T, T) -> bool) returns (ys: seq<T>)
    requires StrictTotal(less, xs)
    ensures SortingOf(less, xs, ys)
  {
    ys := [];
    for n := 0 to |xs|
      invariant ys == Sorted(less, xs[..n])
    {
      ys := Insert(less, ys, xs[n]);
      assert xs[..n + 1][..n] == xs[..n];
    }
    assert xs[..|xs|] == xs;
    SortedSorts(less, xs);
  }

  lemma OrderedCons<T(!new)>(less: (T, T) -> bool, x: T, tail: seq<T>)
    requires Ordered(less, tail) && forall y | y in tail :: !less(y, x)
    ensures Ordered(less, [x] + tail)
  {
  }

  lemma HeadIsLeast<T(!new)>(less: (T, T) -> bool, xs: seq<T>, x: T)
    requires StrictTotal(less, xs) && Ordered(less, xs) && x in xs
    ensures x == xs[0] || less(xs[0], x)
    ensures !less(x, xs[0])
  {
  }

  lemma {:induction false} InsertKeeps<T(!new)>(less: (T, T) -> bool, ys: seq<T>, x: T)
    requires StrictTotal(less, ys + [x]) && Ordered(less, ys)
    ensures Ordered(less, Insert(less, ys, x))
  {
    assert forall y | y in ys :: y in ys + [x];
    assert x in ys + [x];
    if ys == [] {
    } else if less(x, ys[0]) {
      forall y | y in ys ensures !less(y, x) {
        HeadIsLeast(less, ys, y);
      }
      OrderedCons(less, x, ys);
    } else {
      var tail := ys[1..];
      assert ys == [ys[0]] + tail;
      assert forall y | y in tail + [x] :: y in ys + [x];
      InsertKeeps(less, tail, x);
      forall y | y in Insert(less, tail, x) ensures !less(y, ys[0]) {
        assert y in multiset(Insert(less, tail, x));
        if y != x {
          assert y in multiset(tail);
          HeadIsLeast(less, ys, y);
        }
      }
      OrderedCons(less, ys[0], Insert(less, tail, x));
    }
  }

  lemma {:induction false} SortedSorts<T(!new)>(less: (T, T) -> bool, xs: seq<T>)
    requires StrictTotal(less, xs)
    ensures SortingOf(less, xs, Sorted(less, xs))
  {
    if xs != [] {
      var front, x := xs[..|xs| - 1], xs[|xs| - 1];
      assert xs == front + [x];
      SortedSorts(less, front);
      var ys := Sorted(less, front);
      SameElements(front, ys);
      assert forall y | y in ys + [x] :: y in xs;
      InsertKeeps(less, ys, x);
    }
  }

  lemma SameElements<T>(xs: seq<T>, ys: seq<T>)
    requires multiset(xs) == multiset(ys)
    ensures forall x :: x in xs <==> x in ys
    ensures |xs| == |ys|
  {
    assert forall x :: x in xs <==> x in multiset(xs);
    assert |multiset(xs)| == |xs| && |multiset(ys)| == |ys|;
  }

  lemma SameHeads<T(!new)>(less: (T, T) -> bool, xs: seq<T>, ys: seq<T>)
    requires StrictTotal(less, xs) && xs != []
    requires Ordered(less, xs) && SortingOf(less, xs, ys)
    ensures ys != [] && ys[0] == xs[0]
  {
    SameElements(xs, ys);
    assert xs[0] in xs && ys[0] in ys;
    HeadIsLeast(less, xs, ys[0]);
    HeadIsLeast(less, ys, xs[0]);
  }

  lemma SameTails<T(!new)>(less: (T, T) -> bool, xs: seq<T>, ys: seq<T>)
    requires xs != [] && ys != [] && xs[0] == ys[0] && SortingOf(less, xs, ys)
    ensures SortingOf(less, xs[1..], ys[1..])
  {
    assert xs == [xs[0]] + xs[1..] && ys == [ys[0]] + ys[1..];
    assert multiset(ys[1..]) == multiset(ys) - multiset{ys[0]};
    assert multiset(xs[1..]) == multiset(xs) - multiset{xs[0]};
  }

  // Any two sortings by a strict total order are the same sequence.
  lemma {:induction false} SortingIsUnique<T(!new)>(less: (T, T) -> bool, xs: seq<T>, ys: seq<T>)
    requires StrictTotal(less, xs)
    requires Ordered(less, xs) && SortingOf(less, xs, ys)
    ensures ys == xs
    decreases |xs|
  {
    SameElements(xs, ys);
    if xs != [] {
      SameHeads(less, xs, ys);
      SameTails(less, xs, ys);
      SortingIsUnique(less, xs[1..], ys[1..]);
      assert xs == [xs[0]] + xs[1..] && ys == [ys[0]] + ys[1..];
    }
  }

  // Whatever order the candidates come in and whatever sort.Slice does with ties,
  // a strict total order leaves exactly one result: the reference one.
  lemma AnySortingIsSorted<T(!new)>(less: (T, T) -> bool, xs: seq<T>, shuffled: seq<T>, ys: seq<T>)
    requires StrictTotal(less, xs)
    requires multiset(shuffled) == multiset(xs) && SortingOf(less, shuffled, ys)
    ensures ys == Sorted(less, xs)
  {
    SortedSorts(less, xs);
    SameElements(xs, Sorted(less, xs));
    SortingIsUnique(less, Sorted(less, xs), ys);
  }
}
