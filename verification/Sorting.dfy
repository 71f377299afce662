/** Sorting by insertion under any total order. */
module Sorting {

  /** Any two compare, and comparing is transitive. */
  ghost predicate Total<T(!new)>(before: (T, T) -> bool) {
    && (forall x: T, y: T :: before(x, y) || before(y, x))
    && (forall x: T, y: T, z: T :: before(x, y) && before(y, z) ==> before(x, z))
  }

  predicate Sorted<T>(before: (T, T) -> bool, xs: seq<T>) {
    forall i, j | 0 <= i < j < |xs| :: before(xs[i], xs[j])
  }

  function Insert<T>(before: (T, T) -> bool, x: T, xs: seq<T>): seq<T> {
    if xs == [] || before(x, xs[0]) then [x] + xs else [xs[0]] + Insert(before, x, xs[1..])
  }

  function Sort<T>(before: (T, T) -> bool, xs: seq<T>): seq<T> {
    if xs == [] then [] else Insert(before, xs[0], Sort(before, xs[1..]))
  }

  lemma SortedCons<T(!new)>(before: (T, T) -> bool, x: T, xs: seq<T>)
    requires Total(before) && Sorted(before, xs) && (xs == [] || before(x, xs[0]))
    ensures Sorted(before, [x] + xs)
  {
    var all := [x] + xs;
    forall i, j | 0 <= i < j < |all| ensures before(all[i], all[j]) {
      if i > 0 {
        assert before(xs[i - 1], xs[j - 1]);
      } else if j > 1 {
        assert before(xs[0], xs[j - 1]);
      }
    }
  }

  lemma SortedTail<T>(before: (T, T) -> bool, xs: seq<T>)
    requires Sorted(before, xs) && xs != []
    ensures Sorted(before, xs[1..])
  {
    forall i, j | 0 <= i < j < |xs[1..]| ensures before(xs[1..][i], xs[1..][j]) {
      assert xs[1..][i] == xs[i + 1] && xs[1..][j] == xs[j + 1];
    }
  }

  lemma {:induction false} InsertSorted<T(!new)>(before: (T, T) -> bool, x: T, xs: seq<T>)
    requires Total(before) && Sorted(before, xs)
    ensures var all := Insert(before, x, xs);
      Sorted(before, all) && all != [] && (all[0] == x || (xs != [] && all[0] == xs[0]))
  {
    if xs == [] || before(x, xs[0]) {
      SortedCons(before, x, xs);
    } else {
      SortedTail(before, xs);
      InsertSorted(before, x, xs[1..]);
      assert xs[1..] != [] ==> before(xs[0], xs[1]);
      SortedCons(before, xs[0], Insert(before, x, xs[1..]));
    }
  }

  lemma {:induction false} SortSorted<T(!new)>(before: (T, T) -> bool, xs: seq<T>)
    requires Total(before)
    ensures Sorted(before, Sort(before, xs))
  {
    if xs == [] {
    } else {
      SortSorted(before, xs[1..]);
      InsertSorted(before, xs[0], Sort(before, xs[1..]));
    }
  }

  lemma {:induction false} InsertKeeps<T>(before: (T, T) -> bool, x: T, xs: seq<T>)
    ensures multiset(Insert(before, x, xs)) == multiset(xs) + multiset{x}
    ensures |Insert(before, x, xs)| == |xs| + 1
  {
    if xs == [] || before(x, xs[0]) {
    } else {
      InsertKeeps(before, x, xs[1..]);
      assert xs == [xs[0]] + xs[1..];
    }
  }

  /** Sorting keeps what there is, as often as it is there. */
  lemma {:induction false} SortKeeps<T>(before: (T, T) -> bool, xs: seq<T>)
    ensures multiset(Sort(before, xs)) == multiset(xs) && |Sort(before, xs)| == |xs|
  {
    if xs == [] {
    } else {
      SortKeeps(before, xs[1..]);
      InsertKeeps(before, xs[0], Sort(before, xs[1..]));
      assert xs == [xs[0]] + xs[1..];
    }
  }
}
