/** A stable sort, as the language's own `sorted` is. */
module Sorting {

  /** `before(x, y)`: x has to come before y. What neither has to is a tie. */
  ghost predicate WeakOrder<T(!new)>(before: (T, T) -> bool) {
    && (forall x, y :: before(x, y) ==> !before(y, x))
    && (forall x, y, z :: !before(x, y) && !before(y, z) ==> !before(x, z))
  }

  ghost predicate Ordered<T>(before: (T, T) -> bool, xs: seq<T>) {
    forall i, j :: 0 <= i < j < |xs| ==> !before(xs[j], xs[i])
  }

  /** `x` goes after everything it does not have to precede. */
  function Inserted<T>(before: (T, T) -> bool, xs: seq<T>, x: T): (out: seq<T>)
    ensures |out| == |xs| + 1
  {
    if xs == [] || !before(x, xs[|xs| - 1]) then xs + [x]
    else Inserted(before, xs[..|xs| - 1], x) + [xs[|xs| - 1]]
  }

  function Sorted<T>(before: (T, T) -> bool, xs: seq<T>): (out: seq<T>)
    ensures |out| == |xs|
  {
    if xs == [] then [] else Inserted(before, Sorted(before, xs[..|xs| - 1]), xs[|xs| - 1])
  }

  lemma {:induction false} InsertedIsPermutation<T>(before: (T, T) -> bool, xs: seq<T>, x: T)
    ensures multiset(Inserted(before, xs, x)) == multiset(xs) + multiset{x}
  {
    if xs != [] && before(x, xs[|xs| - 1]) {
      InsertedIsPermutation(before, xs[..|xs| - 1], x);
      assert xs == xs[..|xs| - 1] + [xs[|xs| - 1]];
    }
  }

  lemma {:induction false} SortedIsPermutation<T>(before: (T, T) -> bool, xs: seq<T>)
    ensures multiset(Sorted(before, xs)) == multiset(xs)
    ensures forall x :: x in Sorted(before, xs) <==> x in xs
  {
    if xs != [] {
      SortedIsPermutation(before, xs[..|xs| - 1]);
      InsertedIsPermutation(before, Sorted(before, xs[..|xs| - 1]), xs[|xs| - 1]);
      assert xs == xs[..|xs| - 1] + [xs[|xs| - 1]];
    }
    assert forall x :: x in Sorted(before, xs) <==> x in multiset(Sorted(before, xs));
  }

  lemma {:induction false} InsertedIsOrdered<T(!new)>(before: (T, T) -> bool, xs: seq<T>, x: T)
    requires WeakOrder(before) && Ordered(before, xs)
    ensures Ordered(before, Inserted(before, xs, x))
  {
    var out := Inserted(before, xs, x);
    if xs != [] && before(x, xs[|xs| - 1]) {
      var start, last := xs[..|xs| - 1], xs[|xs| - 1];
      InsertedIsOrdered(before, start, x);
      InsertedIsPermutation(before, start, x);
      forall i | 0 <= i < |out| - 1 ensures !before(last, out[i]) {
        assert out[i] in multiset(Inserted(before, start, x));
        assert out[i] == x || out[i] in start;
      }
    }
  }

  lemma {:induction false} SortedIsOrdered<T(!new)>(before: (T, T) -> bool, xs: seq<T>)
    requires WeakOrder(before)
    ensures Ordered(before, Sorted(before, xs))
  {
    if xs != [] {
      SortedIsOrdered(before, xs[..|xs| - 1]);
      InsertedIsOrdered(before, Sorted(before, xs[..|xs| - 1]), xs[|xs| - 1]);
    }
  }

  /** The elements tied with `y`, in the order they stand. */
  function Ties<T>(before: (T, T) -> bool, xs: seq<T>, y: T): seq<T> {
    if xs == [] then []
    else
      var last := xs[|xs| - 1];
      Ties(before, xs[..|xs| - 1], y) + if before(last, y) || before(y, last) then [] else [last]
  }

  lemma {:induction false} TiesAppend<T>(before: (T, T) -> bool, xs: seq<T>, x: T, y: T)
    ensures Ties(before, xs + [x], y) == Ties(before, xs, y) + if before(x, y) || before(y, x) then [] else [x]
  {
    assert (xs + [x])[..|xs|] == xs;
  }

  lemma {:induction false} InsertedKeepsTies<T(!new)>(before: (T, T) -> bool, xs: seq<T>, x: T, y: T)
    requires WeakOrder(before)
    ensures Ties(before, Inserted(before, xs, x), y) == Ties(before, xs + [x], y)
  {
    TiesAppend(before, xs, x, y);
    if xs != [] && before(x, xs[|xs| - 1]) {
      var start, last := xs[..|xs| - 1], xs[|xs| - 1];
      InsertedKeepsTies(before, start, x, y);
      TiesAppend(before, start, x, y);
      TiesAppend(before, Inserted(before, start, x), last, y);
      assert start + [last] == xs;
    }
  }

  /** Elements that tie stay in the order they came. */
  lemma {:induction false} SortedIsStable<T(!new)>(before: (T, T) -> bool, xs: seq<T>, y: T)
    requires WeakOrder(before)
    ensures Ties(before, Sorted(before, xs), y) == Ties(before, xs, y)
  {
    if xs != [] {
      var start, last := xs[..|xs| - 1], xs[|xs| - 1];
      var sorted := Sorted(before, start);
      hide *;
      SortedIsStable(before, start, y);
      SortedUnfolds(before, xs);
      InsertedKeepsTies(before, sorted, last, y);
      TiesAppend(before, sorted, last, y);
      TiesAppend(before, start, last, y);
      assert start + [last] == xs;
    } else {
      assert Sorted(before, xs) == xs;
    }
  }

  lemma SortedUnfolds<T>(before: (T, T) -> bool, xs: seq<T>)
    requires xs != []
    ensures Sorted(before, xs) == Inserted(before, Sorted(before, xs[..|xs| - 1]), xs[|xs| - 1])
  {
  }

  /** What is in order already is left as it is. */
  lemma {:induction false} OrderedIsSorted<T>(before: (T, T) -> bool, xs: seq<T>)
    requires Ordered(before, xs)
    ensures Sorted(before, xs) == xs
  {
    if xs != [] {
      hide Sorted, Inserted;
      var start, last := xs[..|xs| - 1], xs[|xs| - 1];
      OrderedIsSorted(before, start);
      SortedUnfolds(before, xs);
      InsertedLast(before, start, last);
    } else {
      assert xs == [];
    }
  }

  lemma InsertedLast<T>(before: (T, T) -> bool, xs: seq<T>, x: T)
    requires xs == [] || !before(x, xs[|xs| - 1])
    ensures Inserted(before, xs, x) == xs + [x]
  {
  }
}
