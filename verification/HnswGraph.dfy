/** The layered neighbour graph of the HNSW index: links, walks, reachability, and
    the picking steps its beam search is made of. */
module HnswGraph {
  import opened VectorCore

  /** `neighbors[layer]` lists the connected nodes at that layer. */
  datatype HnswNode = HnswNode(id: string, vector: Vector, neighbors: seq<seq<nat>>)

  type Graph = seq<HnswNode>

  predicate HasLayer(g: Graph, i: nat, layer: nat) {
    i < |g| && layer < |g[i].neighbors|
  }

  function Links(g: Graph, i: nat, layer: nat): seq<nat>
    requires HasLayer(g, i, layer)
  {
    g[i].neighbors[layer]
  }

  function SimTo(query: Vector, g: Graph, i: nat): real
    requires i < |g|
  {
    Dot(query, g[i].vector)
  }

  /** The first n numbers. */
  function Below(n: nat): (r: set<nat>)
    ensures |r| == n
    ensures forall i: nat :: i in r <==> i < n
  {
    if n == 0 then {} else Below(n - 1) + {n - 1}
  }

  /** Every link at a layer leads to a node of that layer. */
  ghost predicate LayerClosed(g: Graph, layer: nat) {
    forall i, j {:trigger j in Links(g, i, layer)} | HasLayer(g, i, layer) && j in Links(g, i, layer) ::
      HasLayer(g, j, layer)
  }

  ghost predicate Edge(g: Graph, layer: nat, a: nat, b: nat) {
    HasLayer(g, a, layer) && b in Links(g, a, layer)
  }

  ghost predicate Walk(g: Graph, layer: nat, path: seq<nat>) {
    path != [] && forall i | 0 <= i < |path| - 1 :: Edge(g, layer, path[i], path[i + 1])
  }

  ghost predicate Reach(g: Graph, layer: nat, a: nat, b: nat) {
    exists path :: Walk(g, layer, path) && path[0] == a && path[|path| - 1] == b
  }

  lemma ReachSelf(g: Graph, layer: nat, a: nat)
    ensures Reach(g, layer, a, a)
  {
    assert Walk(g, layer, [a]);
  }

  lemma ReachStep(g: Graph, layer: nat, a: nat, b: nat, c: nat)
    requires Reach(g, layer, a, b) && Edge(g, layer, b, c)
    ensures Reach(g, layer, a, c)
  {
    var path :| Walk(g, layer, path) && path[0] == a && path[|path| - 1] == b;
    assert Walk(g, layer, path + [c]);
  }

  lemma ReachJoin(g: Graph, layer: nat, a: nat, b: nat, c: nat)
    requires Reach(g, layer, a, b) && Reach(g, layer, b, c)
    ensures Reach(g, layer, a, c)
  {
    var p :| Walk(g, layer, p) && p[0] == a && p[|p| - 1] == b;
    var q :| Walk(g, layer, q) && q[0] == b && q[|q| - 1] == c;
    var path := p + q[1..];
    forall i | 0 <= i < |path| - 1 ensures Edge(g, layer, path[i], path[i + 1]) {
      if i >= |p| - 1 {
        assert path[i] == q[i - (|p| - 1)] && path[i + 1] == q[i - (|p| - 1) + 1];
      }
    }
    assert Walk(g, layer, path);
  }

  /** A set that contains the start and all successors of its members contains
      everything reachable. */
  lemma ClosedHoldsReachable(g: Graph, layer: nat, closed: set<nat>, a: nat, b: nat)
    requires a in closed && Reach(g, layer, a, b)
    requires forall x, y | x in closed && Edge(g, layer, x, y) :: y in closed
    ensures b in closed
  {
    var path :| Walk(g, layer, path) && path[0] == a && path[|path| - 1] == b;
    var i := 0;
    while i < |path| - 1
      invariant 0 <= i < |path| && path[i] in closed
    {
      assert Edge(g, layer, path[i], path[i + 1]);
      i := i + 1;
    }
  }

  lemma ReachGrows(g: Graph, g': Graph, layer: nat, a: nat, b: nat)
    requires Reach(g, layer, a, b)
    requires forall x, y | Edge(g, layer, x, y) :: Edge(g', layer, x, y)
    ensures Reach(g', layer, a, b)
  {
    var path :| Walk(g, layer, path) && path[0] == a && path[|path| - 1] == b;
    assert Walk(g', layer, path);
  }

  // --- picking candidates -----------------------------------------------------------------

  type Beam = seq<Scored<nat>>

  /** The first position of a smallest similarity. */
  function WorstAt(xs: Beam): (p: nat)
    requires xs != []
    ensures p < |xs|
    ensures forall i | 0 <= i < |xs| :: xs[i].sim >= xs[p].sim
    ensures forall i | 0 <= i < p :: xs[i].sim > xs[p].sim
  {
    if |xs| == 1 then 0
    else
      var p := WorstAt(xs[..|xs| - 1]);
      assert forall i | 0 <= i < |xs| - 1 :: xs[..|xs| - 1][i] == xs[i];
      if xs[|xs| - 1].sim < xs[p].sim then |xs| - 1 else p
  }

  /** Removes one position by moving the last element there. */
  function SwapRemove<T>(xs: seq<T>, p: nat): seq<T>
    requires p < |xs|
  {
    xs[p := xs[|xs| - 1]][..|xs| - 1]
  }

  function Items(xs: Beam): set<nat> {
    set i | 0 <= i < |xs| :: xs[i].item
  }

  lemma SwapRemoveItems(xs: Beam, p: nat)
    requires p < |xs| && DistinctItems(xs)
    ensures |SwapRemove(xs, p)| == |xs| - 1 && DistinctItems(SwapRemove(xs, p))
    ensures Items(SwapRemove(xs, p)) == Items(xs) - {xs[p].item}
    ensures forall x | x in SwapRemove(xs, p) :: x in xs
  {
    var r := SwapRemove(xs, p);
    forall i | 0 <= i < |xs| && i != p ensures xs[i].item in Items(r) {
      if i == |xs| - 1 {
        assert r[p].item == xs[i].item;
      } else {
        assert r[i].item == xs[i].item;
      }
    }
    forall x | x in r ensures x in xs {
      var i :| 0 <= i < |r| && r[i] == x;
      assert x == xs[if i == p then |xs| - 1 else i];
    }
  }

  lemma PushItems(xs: Beam, x: Scored<nat>)
    ensures Items(xs + [x]) == Items(xs) + {x.item}
    ensures DistinctItems(xs) && x.item !in Items(xs) ==> DistinctItems(xs + [x])
  {
    assert (xs + [x])[|xs|] == x;
    forall i | 0 <= i < |xs| ensures xs[i].item in Items(xs + [x]) {
      assert (xs + [x])[i] == xs[i];
    }
    if DistinctItems(xs) && x.item !in Items(xs) {
      forall i | 0 <= i < |xs| ensures xs[i].item != x.item {
        assert xs[i].item in Items(xs);
      }
    }
  }

  lemma ItemsCount(xs: Beam)
    requires DistinctItems(xs)
    ensures |Items(xs)| == |xs|
  {
    if xs == [] {
      assert Items(xs) == {};
    } else {
      var init := xs[..|xs| - 1];
      assert xs == init + [xs[|xs| - 1]];
      assert forall i | 0 <= i < |init| :: init[i] == xs[i];
      assert xs[|xs| - 1].item !in Items(init);
      ItemsCount(init);
      PushItems(init, xs[|xs| - 1]);
    }
  }

  /** Arranging a beam differently keeps its items and their distinctness. */
  lemma RearrangedItems(xs: Beam, ys: Beam)
    requires multiset(xs) == multiset(ys) && DistinctItems(xs)
    ensures Items(xs) == Items(ys) && DistinctItems(ys) && |xs| == |ys|
  {
    assert |multiset(xs)| == |multiset(ys)|;
    forall x | x in Items(xs) ensures x in Items(ys) {
      var i :| 0 <= i < |xs| && xs[i].item == x;
      assert xs[i] in multiset(ys);
      var j :| 0 <= j < |ys| && ys[j] == xs[i];
      assert ys[j].item in Items(ys);
    }
    forall y | y in Items(ys) ensures y in Items(xs) {
      var i :| 0 <= i < |ys| && ys[i].item == y;
      assert ys[i] in multiset(xs);
      var j :| 0 <= j < |xs| && xs[j] == ys[i];
      assert xs[j].item in Items(xs);
    }
    assert Items(xs) == Items(ys);
    ItemsCount(xs);
    AllItemsDistinct(ys);
  }

  lemma OneAdded(a: set<nat>, x: nat)
    ensures |a + {x}| == if x in a then |a| else |a| + 1
  {
    if x in a {
      assert a + {x} == a;
    }
  }

  /** As many items as positions means no item is repeated. */
  lemma {:induction false} AllItemsDistinct(ys: Beam)
    requires |Items(ys)| == |ys|
    ensures DistinctItems(ys)
  {
    if ys != [] {
      var init := ys[..|ys| - 1];
      var last := ys[|ys| - 1].item;
      assert ys == init + [ys[|ys| - 1]];
      PushItems(init, ys[|ys| - 1]);
      assert Items(ys) == Items(init) + {last};
      ItemsAtMost(init);
      OneAdded(Items(init), last);
      assert |Items(init)| == |init|;
      AllItemsDistinct(init);
    }
  }

  lemma {:induction false} ItemsAtMost(xs: Beam)
    ensures |Items(xs)| <= |xs|
  {
    if xs == [] {
      assert Items(xs) == {};
    } else {
      assert xs == xs[..|xs| - 1] + [xs[|xs| - 1]];
      PushItems(xs[..|xs| - 1], xs[|xs| - 1]);
      ItemsAtMost(xs[..|xs| - 1]);
    }
  }
}
