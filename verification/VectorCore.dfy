/** Similarities, scored items and the exact nearest-neighbour store.

    Vectors are sequences of exact reals, so similarities are totally ordered and
    there is no NaN. */
module VectorCore {
  type Vector = seq<real>

  /** The dot product over the common length. */
  function Dot(a: Vector, b: Vector): real {
    if a == [] || b == [] then 0.0 else a[0] * b[0] + Dot(a[1..], b[1..])
  }

  datatype Scored<T> = Scored(item: T, sim: real)

  /** Best first. */
  ghost predicate Descending<T>(xs: seq<Scored<T>>) {
    forall i, j | 0 <= i < j < |xs| :: xs[i].sim >= xs[j].sim
  }

  ghost predicate Distinct<T>(xs: seq<T>) {
    forall i, j | 0 <= i < j < |xs| :: xs[i] != xs[j]
  }

  ghost predicate DistinctItems<T>(xs: seq<Scored<T>>) {
    forall i, j | 0 <= i < j < |xs| :: xs[i].item != xs[j].item
  }

  /** The last position of a largest similarity. */
  function BestAt<T>(xs: seq<Scored<T>>): (p: nat)
    requires xs != []
    ensures p < |xs|
    ensures forall i | 0 <= i < |xs| :: xs[i].sim <= xs[p].sim
    ensures forall i | p < i < |xs| :: xs[i].sim < xs[p].sim
  {
    if |xs| == 1 then 0
    else
      var p := BestAt(xs[..|xs| - 1]);
      assert forall i | 0 <= i < |xs| - 1 :: xs[..|xs| - 1][i] == xs[i];
      if xs[|xs| - 1].sim >= xs[p].sim then |xs| - 1 else p
  }

  // --- the stable sort ---------------------------------------------------------------------

  /** Inserts behind every element that is at least as similar. */
  function Insert<T>(xs: seq<Scored<T>>, x: Scored<T>): (r: seq<Scored<T>>)
    ensures |r| == |xs| + 1
    ensures multiset(r) == multiset(xs) + multiset{x}
  {
    if xs == [] then [x]
    else if xs[|xs| - 1].sim >= x.sim then
      xs + [x]
    else
      assert xs == xs[..|xs| - 1] + [xs[|xs| - 1]];
      Insert(xs[..|xs| - 1], x) + [xs[|xs| - 1]]
  }

  lemma {:induction false} InsertDescends<T>(xs: seq<Scored<T>>, x: Scored<T>)
    requires Descending(xs)
    ensures Descending(Insert(xs, x))
  {
    if xs != [] && xs[|xs| - 1].sim < x.sim {
      var last := xs[|xs| - 1];
      var r := Insert(xs[..|xs| - 1], x);
      InsertDescends(xs[..|xs| - 1], x);
      forall i | 0 <= i < |r| ensures r[i].sim >= last.sim {
        assert r[i] in multiset(r);
        assert r[i] == x || r[i] in xs[..|xs| - 1];
      }
    }
  }

  /** Stable, descending by similarity: the library sort the stores use. */
  function SortDescending<T>(xs: seq<Scored<T>>): (r: seq<Scored<T>>)
    ensures |r| == |xs|
    ensures multiset(r) == multiset(xs)
  {
    if xs == [] then []
    else
      assert xs == xs[..|xs| - 1] + [xs[|xs| - 1]];
      Insert(SortDescending(xs[..|xs| - 1]), xs[|xs| - 1])
  }

  lemma {:induction false} SortDescends<T>(xs: seq<Scored<T>>)
    ensures Descending(SortDescending(xs))
  {
    if xs != [] {
      SortDescends(xs[..|xs| - 1]);
      InsertDescends(SortDescending(xs[..|xs| - 1]), xs[|xs| - 1]);
    }
  }

  /** The elements of one similarity, in their order. */
  function Ties<T>(xs: seq<Scored<T>>, sim: real): seq<Scored<T>> {
    if xs == [] then []
    else Ties(xs[..|xs| - 1], sim) + (if xs[|xs| - 1].sim == sim then [xs[|xs| - 1]] else [])
  }

  lemma {:induction false} InsertKeepsTies<T>(xs: seq<Scored<T>>, x: Scored<T>, sim: real)
    requires Descending(xs)
    ensures Ties(Insert(xs, x), sim) == Ties(xs, sim) + (if x.sim == sim then [x] else [])
  {
    if xs == [] {
      assert [x][..0] == [];
    } else if xs[|xs| - 1].sim >= x.sim {
      assert (xs + [x])[..|xs|] == xs;
    } else {
      var last := xs[|xs| - 1];
      var r := Insert(xs[..|xs| - 1], x);
      InsertKeepsTies(xs[..|xs| - 1], x, sim);
      assert (r + [last])[..|r|] == r;
    }
  }

  /** Equally similar elements keep their order: the sort is stable. */
  lemma {:induction false} SortIsStable<T>(xs: seq<Scored<T>>, sim: real)
    ensures Ties(SortDescending(xs), sim) == Ties(xs, sim)
  {
    if xs != [] {
      var init := xs[..|xs| - 1];
      SortIsStable(init, sim);
      SortDescends(init);
      InsertKeepsTies(SortDescending(init), xs[|xs| - 1], sim);
    }
  }

  // --- a sorted sequence is determined by what it holds ---------------------------------------

  function Sims<T>(xs: seq<Scored<T>>): seq<real> {
    seq(|xs|, i requires 0 <= i < |xs| => xs[i].sim)
  }

  /** Taking one shared element out of two arrangements. */
  lemma WithoutOne<T>(a: seq<T>, b: seq<T>, k: nat)
    requires multiset(a) == multiset(b) && a != [] && k < |b| && b[k] == a[0]
    ensures multiset(a[1..]) == multiset(b[..k] + b[k + 1..])
  {
    assert a == [a[0]] + a[1..];
    assert b == b[..k] + ([b[k]] + b[k + 1..]);
    assert multiset(a) == multiset{a[0]} + multiset(a[1..]);
    assert multiset(b) == multiset(b[..k]) + (multiset{b[k]} + multiset(b[k + 1..]));
    assert multiset(a[1..]) == multiset(a) - multiset{a[0]};
    assert multiset(b[..k] + b[k + 1..]) == multiset(b) - multiset{b[k]};
  }

  lemma SimsSplit<T>(b: seq<Scored<T>>, k: nat)
    requires k < |b|
    ensures multiset(Sims(b)) == multiset(Sims(b[..k] + b[k + 1..])) + multiset{b[k].sim}
  {
    var front, back := b[..k], b[k + 1..];
    assert Sims(b) == Sims(front) + ([b[k].sim] + Sims(back));
    assert Sims(front + back) == Sims(front) + Sims(back);
  }

  lemma {:induction false} SimsPermute<T>(a: seq<Scored<T>>, b: seq<Scored<T>>)
    requires multiset(a) == multiset(b)
    ensures multiset(Sims(a)) == multiset(Sims(b))
  {
    if a == [] {
      assert |b| == |multiset(b)| == |multiset(a)| == 0;
    } else {
      assert a[0] in multiset(b);
      var k :| 0 <= k < |b| && b[k] == a[0];
      WithoutOne(a, b, k);
      SimsPermute(a[1..], b[..k] + b[k + 1..]);
      SimsSplit(b, k);
      assert Sims(a) == [a[0].sim] + Sims(a[1..]);
    }
  }

  ghost predicate Falling(s: seq<real>) {
    forall i, j | 0 <= i < j < |s| :: s[i] >= s[j]
  }

  lemma SameHead(a: seq<real>, b: seq<real>)
    requires multiset(a) == multiset(b) && Falling(a) && Falling(b) && a != []
    ensures b != [] && a[0] == b[0]
  {
    assert a[0] in multiset(b);
    assert b[0] in multiset(a);
    var i :| 0 <= i < |b| && b[i] == a[0];
    var j :| 0 <= j < |a| && a[j] == b[0];
    assert a[0] >= a[j] && b[0] >= b[i];
  }

  lemma FallingTail(s: seq<real>)
    requires Falling(s) && s != []
    ensures Falling(s[1..]) && s == [s[0]] + s[1..]
  {
  }

  lemma {:induction false} SortedIsUnique(a: seq<real>, b: seq<real>)
    requires multiset(a) == multiset(b) && Falling(a) && Falling(b)
    ensures a == b
  {
    hide Falling;
    if a == [] {
      assert |b| == |multiset(b)| == |multiset(a)| == 0;
    } else {
      SameHead(a, b);
      WithoutOne(a, b, 0);
      assert b[..0] + b[1..] == b[1..];
      FallingTail(a);
      FallingTail(b);
      SortedIsUnique(a[1..], b[1..]);
    }
  }

  /** Two descending arrangements of the same elements show the same similarities. */
  lemma SameElementsSameSims<T>(a: seq<Scored<T>>, b: seq<Scored<T>>)
    requires Descending(a) && Descending(b) && multiset(a) == multiset(b)
    ensures Sims(a) == Sims(b)
  {
    SimsPermute(a, b);
    SortedIsUnique(Sims(a), Sims(b));
  }

  ghost predicate DistinctSims<T>(xs: seq<Scored<T>>) {
    forall i, j | 0 <= i < |xs| && 0 <= j < |xs| && xs[i].sim == xs[j].sim :: xs[i] == xs[j]
  }

  /** With distinct similarities the whole arrangement is determined. */
  lemma SameElementsSameOrder<T>(a: seq<Scored<T>>, b: seq<Scored<T>>)
    requires Descending(a) && Descending(b) && multiset(a) == multiset(b) && DistinctSims(a)
    ensures a == b
  {
    SameElementsSameSims(a, b);
    assert |a| == |Sims(a)| == |Sims(b)| == |b|;
    forall i | 0 <= i < |a| ensures a[i] == b[i] {
      assert Sims(a)[i] == Sims(b)[i];
      assert b[i] in multiset(a);
      var j :| 0 <= j < |a| && a[j] == b[i];
    }
  }

  // --- the exact store -------------------------------------------------------------------------

  datatype Item = Item(id: string, vector: Vector)

  function Score(query: Vector, items: seq<Item>): seq<Scored<string>> {
    seq(|items|, i requires 0 <= i < |items| => Scored(items[i].id, Dot(query, items[i].vector)))
  }

  function Take<T>(xs: seq<T>, k: nat): seq<T> {
    if k < |xs| then xs[..k] else xs
  }

  /** What exact search returns: everything scored, sorted, cut to k. */
  function Exact(query: Vector, items: seq<Item>, k: nat): seq<Scored<string>> {
    Take(SortDescending(Score(query, items)), k)
  }

  class FlatVectorStore {
    var items: seq<Item>

    constructor ()
      ensures items == []
    {
      items := [];
    }

    method Add(id: string, vector: Vector)
      modifies this
      ensures items == old(items) + [Item(id, vector)]
    {
      items := items + [Item(id, vector)];
    }

    method Knn(query: Vector, k: nat) returns (hits: seq<Scored<string>>)
      ensures hits == Exact(query, items, k)
    {
      var scored: seq<Scored<string>> := [];
      for i := 0 to |items|
        invariant scored == Score(query, items)[..i]
      {
        scored := scored + [Scored(items[i].id, Dot(query, items[i].vector))];
      }
      assert scored == Score(query, items);
      scored := SortDescending(scored);
      hits := Take(scored, k);
    }
  }

  /** What exact search cuts off. */
  function CutOff(query: Vector, items: seq<Item>, k: nat): seq<Scored<string>> {
    if k < |items| then SortDescending(Score(query, items))[k..] else []
  }

  /** Exact search returns the k best: nothing is lost or invented, and nothing
      cut off beats anything returned. */
  lemma ExactIsBest(query: Vector, items: seq<Item>, k: nat)
    ensures |Exact(query, items, k)| == (if k < |items| then k else |items|)
    ensures Descending(Exact(query, items, k))
    ensures multiset(Exact(query, items, k)) + multiset(CutOff(query, items, k)) == multiset(Score(query, items))
    ensures forall i, j | 0 <= i < |Exact(query, items, k)| && 0 <= j < |CutOff(query, items, k)| ::
              Exact(query, items, k)[i].sim >= CutOff(query, items, k)[j].sim
  {
    var sorted := SortDescending(Score(query, items));
    assert Descending(sorted) by { SortDescends(Score(query, items)); }
    hide SortDescending, Score;
    var r, rest := Exact(query, items, k), CutOff(query, items, k);
    assert sorted == r + rest;
    forall i, j | 0 <= i < |r| && 0 <= j < |rest| ensures r[i].sim >= rest[j].sim {
      assert sorted[|r| + j] == rest[j];
    }
  }
}
