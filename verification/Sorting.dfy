/** The stable library sort by an integer key. */
module Sorting {
  /** Inserts behind every element whose key is not larger. */
  function InsertBy<T>(xs: seq<T>, x: T, key: T -> int): (r: seq<T>)
    ensures |r| == |xs| + 1 && multiset(r) == multiset(xs) + multiset{x}
  {
    if xs == [] then [x]
    else if key(xs[|xs| - 1]) <= key(x) then xs + [x]
    else
      assert xs == xs[..|xs| - 1] + [xs[|xs| - 1]];
      InsertBy(xs[..|xs| - 1], x, key) + [xs[|xs| - 1]]
  }

  function SortBy<T>(xs: seq<T>, key: T -> int): (r: seq<T>)
    ensures |r| == |xs| && multiset(r) == multiset(xs)
  {
    if xs == [] then []
    else
      assert xs == xs[..|xs| - 1] + [xs[|xs| - 1]];
      InsertBy(SortBy(xs[..|xs| - 1], key), xs[|xs| - 1], key)
  }

  ghost predicate OrderedBy<T>(xs: seq<T>, key: T -> int) {
    forall i, j | 0 <= i < j < |xs| :: key(xs[i]) <= key(xs[j])
  }

  lemma {:induction false} InsertByOrders<T>(xs: seq<T>, x: T, key: T -> int)
    requires OrderedBy(xs, key)
    ensures OrderedBy(InsertBy(xs, x, key), key)
  {
    if xs != [] && key(xs[|xs| - 1]) > key(x) {
      var init, last := xs[..|xs| - 1], xs[|xs| - 1];
      var r := InsertBy(init, x, key);
      InsertByOrders(init, x, key);
      forall i | 0 <= i < |r| ensures key(r[i]) <= key(last) {
        assert r[i] in multiset(r);
        assert r[i] == x || r[i] in init;
      }
    }
  }

  lemma {:induction false} SortByOrders<T>(xs: seq<T>, key: T -> int)
    ensures OrderedBy(SortBy(xs, key), key)
  {
    if xs != [] {
      SortByOrders(xs[..|xs| - 1], key);
      InsertByOrders(SortBy(xs[..|xs| - 1], key), xs[|xs| - 1], key);
    }
  }

  /** The elements of one key, in their order. */
  function OfKey<T>(xs: seq<T>, key: T -> int, k: int): seq<T> {
    if xs == [] then []
    else OfKey(xs[..|xs| - 1], key, k) + (if key(xs[|xs| - 1]) == k then [xs[|xs| - 1]] else [])
  }

  lemma {:induction false} InsertByKeepsKeys<T>(xs: seq<T>, x: T, key: T -> int, k: int)
    requires OrderedBy(xs, key)
    ensures OfKey(InsertBy(xs, x, key), key, k) == OfKey(xs, key, k) + (if key(x) == k then [x] else [])
  {
    if xs == [] {
      assert [x][..0] == [];
    } else if key(xs[|xs| - 1]) <= key(x) {
      assert (xs + [x])[..|xs|] == xs;
    } else {
      var init, last := xs[..|xs| - 1], xs[|xs| - 1];
      var r := InsertBy(init, x, key);
      InsertByKeepsKeys(init, x, key, k);
      assert (r + [last])[..|r|] == r;
    }
  }

  /** Elements of one key keep their order: the sort is stable. */
  lemma {:induction false} SortByIsStable<T>(xs: seq<T>, key: T -> int, k: int)
    ensures OfKey(SortBy(xs, key), key, k) == OfKey(xs, key, k)
  {
    if xs != [] {
      var init := xs[..|xs| - 1];
      SortByIsStable(init, key, k);
      SortByOrders(init, key);
      InsertByKeepsKeys(SortBy(init, key), xs[|xs| - 1], key, k);
    }
  }
}
