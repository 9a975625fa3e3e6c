/** Greedy descent and beam search over one layer of the graph. */
module HnswSearch {
  import opened Subsets
  import opened VectorCore
  import opened HnswGraph

  ghost predicate Honest(q: Vector, g: Graph, layer: nat, xs: Beam) {
    forall i | 0 <= i < |xs| :: HasLayer(g, xs[i].item, layer) && xs[i].sim == SimTo(q, g, xs[i].item)
  }

  /** A visited node left out of the results is no better than any result, and the
      results are full. */
  ghost predicate Outranked(q: Vector, g: Graph, ef: nat, visited: set<nat>, results: Beam) {
    forall v | v in visited && v !in Items(results) && v < |g| ::
      |results| >= ef && forall i | 0 <= i < |results| :: SimTo(q, g, v) <= results[i].sim
  }

  ghost predicate FromStart(g: Graph, layer: nat, ep: nat, visited: set<nat>) {
    forall v | v in visited :: HasLayer(g, v, layer) && Reach(g, layer, ep, v)
  }

  ghost predicate Explored(g: Graph, layer: nat, x: nat, visited: set<nat>) {
    forall y | Edge(g, layer, x, y) :: y in visited
  }

  /** What beam search promises, for any graph and any width: distinct reachable
      nodes, best first, that are the `ef` most similar of all visited; all
      reachable nodes if there are fewer than `ef`, and otherwise no unreturned
      neighbour of a returned node beats the worst returned. */
  ghost predicate BeamResult(q: Vector, g: Graph, ep: nat, ef: nat, layer: nat, visited: set<nat>, r: Beam) {
    && 1 <= |r| && |r| <= (if ef == 0 then 1 else ef)
    && Descending(r) && DistinctItems(r) && Honest(q, g, layer, r)
    && Items(r) <= visited && FromStart(g, layer, ep, visited) && ep in visited
    && Outranked(q, g, ef, visited, r)
    && (forall x | x in Items(r) :: Explored(g, layer, x, visited))
  }

  // --- greedy walk ----------------------------------------------------------------------------

  function Better(q: Vector, g: Graph, best: real): set<nat> {
    set i | 0 <= i < |g| && SimTo(q, g, i) > best
  }

  lemma FewerBetter(q: Vector, g: Graph, a: real, i: nat)
    requires i < |g| && SimTo(q, g, i) > a
    ensures |Better(q, g, SimTo(q, g, i))| < |Better(q, g, a)|
  {
    var big, small := Better(q, g, a), Better(q, g, SimTo(q, g, i));
    assert i in big && i !in small && small <= big;
    assert small <= big - {i};
    SubsetSize(small, big - {i});
  }

  /** Walks to a node none of whose neighbours is more similar to the query. */
  method GreedyStep(g: Graph, q: Vector, start: nat, layer: nat) returns (ep: nat)
    requires HasLayer(g, start, layer) && LayerClosed(g, layer)
    ensures HasLayer(g, ep, layer) && Reach(g, layer, start, ep)
    ensures SimTo(q, g, ep) >= SimTo(q, g, start)
    ensures forall n | n in Links(g, ep, layer) :: SimTo(q, g, n) <= SimTo(q, g, ep)
  {
    ep := start;
    var best := SimTo(q, g, ep);
    ReachSelf(g, layer, start);
    while true
      invariant HasLayer(g, ep, layer) && best == SimTo(q, g, ep) && Reach(g, layer, start, ep)
      invariant best >= SimTo(q, g, start)
      decreases |Better(q, g, best)|
    {
      var improved := false;
      var at := ep;
      var links := Links(g, ep, layer);
      ghost var before := best;
      assert forall i | 0 <= i < |links| :: links[i] in Links(g, at, layer);
      for k := 0 to |links|
        invariant HasLayer(g, ep, layer) && best == SimTo(q, g, ep) && Reach(g, layer, start, ep)
        invariant best >= before && (improved <==> best > before) && (!improved ==> ep == at)
        invariant forall i | 0 <= i < k :: SimTo(q, g, links[i]) <= best
      {
        var n := links[k];
        assert n in Links(g, at, layer);
        var sim := SimTo(q, g, n);
        if sim > best {
          ReachStep(g, layer, start, at, n) by { assert Reach(g, layer, start, at); }
          best := sim;
          ep := n;
          improved := true;
        }
      }
      if !improved {
        return;
      }
      FewerBetter(q, g, before, ep);
    }
  }

  // --- beam search ----------------------------------------------------------------------------

  /** What the search knows between two expansions. `open` are the candidates
      still to expand, `busy` is the node being expanded, if any. */
  ghost predicate Searching(q: Vector, g: Graph, ep: nat, ef: nat, layer: nat, visited: set<nat>, results: Beam,
                            open: set<nat>)
  {
    && 1 <= |results| && |results| <= (if ef == 0 then 1 else ef)
    && DistinctItems(results) && Honest(q, g, layer, results)
    && Items(results) <= visited && FromStart(g, layer, ep, visited) && ep in visited
    && Outranked(q, g, ef, visited, results)
    && (forall x | x in Items(results) && x !in open :: Explored(g, layer, x, visited))
  }

  ghost predicate Queue(q: Vector, g: Graph, layer: nat, visited: set<nat>, candidates: Beam) {
    DistinctItems(candidates) && Honest(q, g, layer, candidates) && Items(candidates) <= visited
  }

  lemma HonestItems(q: Vector, g: Graph, layer: nat, xs: Beam, v: nat)
    requires Honest(q, g, layer, xs) && v in Items(xs)
    ensures exists i :: 0 <= i < |xs| && xs[i].item == v && xs[i].sim == SimTo(q, g, v)
  {
    var i :| 0 <= i < |xs| && xs[i].item == v;
  }

  /** A newly seen neighbour enters the results, and the worst leaves when they
      are over-full. */
  function Admit(results: Beam, x: Scored<nat>, ef: nat): Beam {
    var more := results + [x];
    if |more| > ef then SwapRemove(more, WorstAt(more)) else more
  }

  lemma AdmittedShape(q: Vector, g: Graph, ef: nat, layer: nat, visited: set<nat>, results: Beam, n: nat)
    requires results != [] && |results| <= (if ef == 0 then 1 else ef)
    requires DistinctItems(results) && Honest(q, g, layer, results) && n !in Items(results) && HasLayer(g, n, layer)
    requires Outranked(q, g, ef, visited, results)
    requires |results| < ef || SimTo(q, g, n) > results[WorstAt(results)].sim
    ensures var r := Admit(results, Scored(n, SimTo(q, g, n)), ef);
            && 1 <= |r| && |r| <= (if ef == 0 then 1 else ef)
            && DistinctItems(r) && Honest(q, g, layer, r)
            && Items(r) <= Items(results) + {n} && Outranked(q, g, ef, visited + {n}, r)
  {
    var x := Scored(n, SimTo(q, g, n));
    var more := results + [x];
    PushItems(results, x);
    if |more| > ef {
      Outweighed(q, g, ef, visited, results, n);
      assert Honest(q, g, layer, more);
      hide Outranked, DistinctItems, Items;
      SwapRemoveItems(more, WorstAt(more));
      HonestPart(q, g, layer, more, SwapRemove(more, WorstAt(more)));
      DropWorst(q, g, ef, layer, visited + {n}, more);
    }
  }

  lemma Admitted(q: Vector, g: Graph, ep: nat, ef: nat, layer: nat, visited: set<nat>, results: Beam, open: set<nat>,
                 n: nat)
    requires Searching(q, g, ep, ef, layer, visited, results, open) && n !in visited
    requires HasLayer(g, n, layer) && Reach(g, layer, ep, n)
    requires |results| < ef || SimTo(q, g, n) > results[WorstAt(results)].sim
    ensures Searching(q, g, ep, ef, layer, visited + {n}, Admit(results, Scored(n, SimTo(q, g, n)), ef), open + {n})
  {
    hide Reach, HasLayer, Honest, Outranked, DistinctItems, Items, Admit, Edge, WorstAt, SimTo;
    AdmittedShape(q, g, ef, layer, visited, results, n);
  }

  lemma HonestPart(q: Vector, g: Graph, layer: nat, xs: Beam, ys: Beam)
    requires Honest(q, g, layer, xs) && forall y | y in ys :: y in xs
    ensures Honest(q, g, layer, ys)
  {
    forall i | 0 <= i < |ys| ensures HasLayer(g, ys[i].item, layer) && ys[i].sim == SimTo(q, g, ys[i].item) {
      assert ys[i] in xs;
    }
  }

  /** With full results and a better newcomer, everything left out stays below. */
  lemma Outweighed(q: Vector, g: Graph, ef: nat, visited: set<nat>, results: Beam, n: nat)
    requires results != [] && Outranked(q, g, ef, visited, results) && n < |g|
    requires |results| < ef || SimTo(q, g, n) > results[WorstAt(results)].sim
    ensures var more := results + [Scored(n, SimTo(q, g, n))];
            |more| > ef ==> forall v | v in visited + {n} && v !in Items(more) && v < |g| ::
              SimTo(q, g, v) <= more[WorstAt(more)].sim
  {
    var x := Scored(n, SimTo(q, g, n));
    var more := results + [x];
    PushItems(results, x);
    if |more| > ef {
      forall v | v in visited + {n} && v !in Items(more) && v < |g| ensures SimTo(q, g, v) <= more[WorstAt(more)].sim {
        var w, worst := WorstAt(more), WorstAt(results);
        assert more[worst] == results[worst];
        assert w < |results| && more[w] == results[w];
      }
    }
  }

  /** Dropping the worst of over-full results outranks it and whatever was
      outranked before. */
  lemma DropWorst(q: Vector, g: Graph, ef: nat, layer: nat, visited: set<nat>, more: Beam)
    requires |more| > ef && |more| >= 2 && DistinctItems(more) && Honest(q, g, layer, more)
    requires forall v | v in visited && v !in Items(more) && v < |g| :: SimTo(q, g, v) <= more[WorstAt(more)].sim
    ensures Outranked(q, g, ef, visited, SwapRemove(more, WorstAt(more)))
  {
    var w := WorstAt(more);
    var r := SwapRemove(more, w);
    SwapRemoveItems(more, w);
    forall v | v in visited && v !in Items(r) && v < |g|
      ensures |r| >= ef && forall i | 0 <= i < |r| :: SimTo(q, g, v) <= r[i].sim
    {
      if v in Items(more) {
        HonestItems(q, g, layer, more, v);
      }
      forall i | 0 <= i < |r| ensures SimTo(q, g, v) <= r[i].sim {
        assert r[i] in more;
      }
    }
  }

  /** A neighbour that does not enter is outranked. */
  lemma Refused(q: Vector, g: Graph, ep: nat, ef: nat, layer: nat, visited: set<nat>, results: Beam, open: set<nat>,
                n: nat)
    requires Searching(q, g, ep, ef, layer, visited, results, open) && n !in visited
    requires HasLayer(g, n, layer) && Reach(g, layer, ep, n)
    requires !(|results| < ef || SimTo(q, g, n) > results[WorstAt(results)].sim)
    ensures Searching(q, g, ep, ef, layer, visited + {n}, results, open)
  {
    hide Reach, HasLayer;
  }

  lemma NotShared(a: set<nat>, b: set<nat>, x: nat)
    requires a * b == {} && x in a
    ensures x !in b
  {
    assert x !in a * b;
  }

  /** When no open candidate is among the results the search is complete. */
  lemma Finished(q: Vector, g: Graph, ep: nat, ef: nat, layer: nat, visited: set<nat>, results: Beam, open: set<nat>)
    requires Searching(q, g, ep, ef, layer, visited, results, open) && Items(results) * open == {}
    requires LayerClosed(g, layer)
    ensures BeamResult(q, g, ep, ef, layer, visited, SortDescending(results))
  {
    hide Reach, HasLayer, LayerClosed, Edge;
    var r := SortDescending(results);
    SortDescends(results);
    RearrangedItems(results, r);
    forall y | y in r ensures y in results {
      assert y in multiset(r);
    }
    forall y | y in results ensures y in r {
      assert y in multiset(results);
    }
    HonestPart(q, g, layer, results, r);
    forall v | v in visited && v !in Items(r) && v < |g|
      ensures |r| >= ef && forall i | 0 <= i < |r| :: SimTo(q, g, v) <= r[i].sim
    {
      forall i | 0 <= i < |r| ensures SimTo(q, g, v) <= r[i].sim {
        assert r[i] in results;
      }
    }
    forall x | x in Items(r) ensures Explored(g, layer, x, visited) {
      assert x !in open by { NotShared(Items(results), open, x); }
    }
  }

  /** Fewer results than asked for means everything reachable was returned. */
  lemma ShortMeansAll(q: Vector, g: Graph, ep: nat, ef: nat, layer: nat, visited: set<nat>, r: Beam)
    requires BeamResult(q, g, ep, ef, layer, visited, r) && |r| < ef
    ensures forall v | Reach(g, layer, ep, v) :: v in Items(r)
  {
    forall v | v in visited ensures v in Items(r) {
      assert HasLayer(g, v, layer);
    }
    forall v | Reach(g, layer, ep, v) ensures v in Items(r) {
      forall x, y | x in Items(r) && Edge(g, layer, x, y) ensures y in Items(r) {
        assert Explored(g, layer, x, visited);
      }
      ClosedHoldsReachable(g, layer, Items(r), ep, v);
    }
  }

  /** No unreturned neighbour of a returned node beats the worst returned. */
  lemma LocallyBest(q: Vector, g: Graph, ep: nat, ef: nat, layer: nat, visited: set<nat>, r: Beam)
    requires BeamResult(q, g, ep, ef, layer, visited, r)
    ensures forall x: nat, n: nat {:trigger Edge(g, layer, x, n)} |
                x in Items(r) && Edge(g, layer, x, n) && n !in Items(r) ::
              n < |g| && SimTo(q, g, n) <= r[|r| - 1].sim
  {
    forall x: nat, n: nat | x in Items(r) && Edge(g, layer, x, n) && n !in Items(r)
      ensures n < |g| && SimTo(q, g, n) <= r[|r| - 1].sim
    {
      assert Explored(g, layer, x, visited);
      assert HasLayer(g, n, layer);
    }
  }

  lemma Popped(q: Vector, g: Graph, layer: nat, visited: set<nat>, candidates: Beam, pos: nat)
    requires Queue(q, g, layer, visited, candidates) && pos < |candidates|
    ensures Queue(q, g, layer, visited, SwapRemove(candidates, pos))
    ensures Items(SwapRemove(candidates, pos)) == Items(candidates) - {candidates[pos].item}
    ensures candidates[pos].item in Items(candidates) && candidates[pos].item in visited
    ensures HasLayer(g, candidates[pos].item, layer)
  {
    SwapRemoveItems(candidates, pos);
    HonestPart(q, g, layer, candidates, SwapRemove(candidates, pos));
  }

  /** Once the best open candidate is below the worst result, none is a result. */
  lemma HopelessRest(q: Vector, g: Graph, layer: nat, visited: set<nat>, candidates: Beam, results: Beam)
    requires Queue(q, g, layer, visited, candidates) && candidates != [] && results != []
    requires Honest(q, g, layer, results)
    requires candidates[BestAt(candidates)].sim < results[WorstAt(results)].sim
    ensures Items(results) * Items(candidates) == {}
  {
    forall v | v in Items(results) && v in Items(candidates) ensures false {
      HonestItems(q, g, layer, results, v);
      HonestItems(q, g, layer, candidates, v);
    }
  }

  lemma NodeDone(q: Vector, g: Graph, ep: nat, ef: nat, layer: nat, visited: set<nat>, results: Beam, open: set<nat>,
                 node: nat)
    requires Searching(q, g, ep, ef, layer, visited, results, open + {node}) && HasLayer(g, node, layer)
    requires forall n | n in Links(g, node, layer) :: n in visited
    ensures Searching(q, g, ep, ef, layer, visited, results, open)
  {
    hide Reach, Honest, DistinctItems, Outranked, FromStart;
  }

  lemma Started(q: Vector, g: Graph, ep: nat, ef: nat, layer: nat)
    requires HasLayer(g, ep, layer)
    ensures var start := [Scored(ep, SimTo(q, g, ep))];
            Items(start) == {ep} && Queue(q, g, layer, {ep}, start) && Searching(q, g, ep, ef, layer, {ep}, start, {ep})
  {
    var start := [Scored(ep, SimTo(q, g, ep))];
    ReachSelf(g, layer, ep);
    assert [] + start == start;
    PushItems([], start[0]);
  }

  lemma NoItems()
    ensures Items([]) == {}
  {
  }

  lemma Known(q: Vector, g: Graph, ep: nat, ef: nat, layer: nat, visited: set<nat>, results: Beam, open: set<nat>)
    requires Searching(q, g, ep, ef, layer, visited, results, open)
    ensures results != [] && Honest(q, g, layer, results)
    ensures forall v | v in visited :: HasLayer(g, v, layer) && Reach(g, layer, ep, v)
  {
    hide Reach, HasLayer, Honest, Outranked, DistinctItems, Items, Explored;
  }

  /** The queue after one more neighbour was seen, with or without queueing it. */
  lemma Queued(q: Vector, g: Graph, layer: nat, visited: set<nat>, candidates: Beam, n: nat)
    requires Queue(q, g, layer, visited, candidates) && n !in visited && HasLayer(g, n, layer)
    ensures var more := candidates + [Scored(n, SimTo(q, g, n))];
            Queue(q, g, layer, visited + {n}, more) && Items(more) == Items(candidates) + {n}
    ensures Queue(q, g, layer, visited + {n}, candidates)
  {
    PushItems(candidates, Scored(n, SimTo(q, g, n)));
  }

  ghost predicate Marks(g: Graph, seen: seq<bool>, visited: set<nat>) {
    && |seen| == |g|
    && (forall v | v in visited :: v < |g|)
    && (forall v: nat | v < |g| :: seen[v] <==> v in visited)
  }

  ghost function Unseen(g: Graph, visited: set<nat>): set<nat> {
    Below(|g|) - visited
  }

  lemma FirstMark(g: Graph, ep: nat)
    requires ep < |g|
    ensures Marks(g, seq(|g|, _ => false)[ep := true], {ep})
  {
  }

  lemma LinksLead(g: Graph, node: nat, layer: nat)
    requires HasLayer(g, node, layer) && LayerClosed(g, layer)
    ensures forall k | 0 <= k < |Links(g, node, layer)| ::
              HasLayer(g, Links(g, node, layer)[k], layer) && Edge(g, layer, node, Links(g, node, layer)[k])
  {
    forall k | 0 <= k < |Links(g, node, layer)|
      ensures HasLayer(g, Links(g, node, layer)[k], layer) && Edge(g, layer, node, Links(g, node, layer)[k])
    {
      assert Links(g, node, layer)[k] in Links(g, node, layer);
    }
  }

  lemma Sized(g: Graph, seen: seq<bool>, visited: set<nat>, n: nat)
    requires Marks(g, seen, visited) && n < |g|
    ensures |seen| == |g| && (seen[n] <==> n in visited)
  {
  }

  lemma MarkOne(g: Graph, seen: seq<bool>, visited: set<nat>, n: nat)
    requires Marks(g, seen, visited) && n < |g| && !seen[n]
    ensures n !in visited && Marks(g, seen[n := true], visited + {n})
    ensures Unseen(g, visited + {n}) < Unseen(g, visited)
  {
    assert n in Unseen(g, visited) && n !in Unseen(g, visited + {n});
  }

  /** Beam search on `layer`, best first; `visited` is the set of nodes it looked
      at. */
  method SearchLayer(g: Graph, q: Vector, ep: nat, ef: nat, layer: nat) returns (r: Beam, ghost visited: set<nat>)
    requires HasLayer(g, ep, layer) && LayerClosed(g, layer)
    ensures BeamResult(q, g, ep, ef, layer, visited, r)
    ensures |r| < ef ==> forall v | Reach(g, layer, ep, v) :: v in Items(r)
    ensures forall x: nat, n: nat {:trigger Edge(g, layer, x, n)} |
                x in Items(r) && Edge(g, layer, x, n) && n !in Items(r) ::
              n < |g| && SimTo(q, g, n) <= r[|r| - 1].sim
  {
    hide Searching, Queue, Reach, BeamResult, Honest, Items, Admit, SortDescending, Dot, Unseen, LayerClosed;
    var seen := seq(|g|, _ => false)[ep := true];
    visited := {ep};
    var candidates: Beam := [Scored(ep, SimTo(q, g, ep))];
    var results: Beam := [Scored(ep, SimTo(q, g, ep))];
    FirstMark(g, ep);
    Started(q, g, ep, ef, layer);
    ghost var open := {ep};
    while candidates != []
      invariant Marks(g, seen, visited)
      invariant Queue(q, g, layer, visited, candidates) && open == Items(candidates)
      invariant Searching(q, g, ep, ef, layer, visited, results, open)
      decreases |Unseen(g, visited)|, |candidates|
    {
      hide Marks;
      var pos := BestAt(candidates);
      var best := candidates[pos];
      Popped(q, g, layer, visited, candidates, pos);
      Known(q, g, ep, ef, layer, visited, results, open);
      ghost var before := candidates;
      candidates := SwapRemove(candidates, pos);
      ghost var rest := candidates;
      if |results| >= ef && best.sim < results[WorstAt(results)].sim {
        HopelessRest(q, g, layer, visited, before, results);
        break;
      }
      var node := best.item;
      var links := Links(g, node, layer);
      ghost var unseen := Unseen(g, visited);
      assert open == Items(candidates) + {node};
      LinksLead(g, node, layer);
      for k := 0 to |links|
        invariant Marks(g, seen, visited)
        invariant Queue(q, g, layer, visited, candidates)
        invariant Searching(q, g, ep, ef, layer, visited, results, Items(candidates) + {node})
        invariant node in visited && forall j | 0 <= j < k :: links[j] in visited
        invariant Unseen(g, visited) <= unseen && (Unseen(g, visited) == unseen ==> candidates == rest)
      {
        var n := links[k];
        Sized(g, seen, visited, n);
        if !seen[n] {
          Known(q, g, ep, ef, layer, visited, results, Items(candidates) + {node});
          ReachStep(g, layer, ep, node, n);
          MarkOne(g, seen, visited, n);
          seen := seen[n := true];
          Queued(q, g, layer, visited, candidates, n);
          var sim := SimTo(q, g, n);
          if |results| < ef || sim > results[WorstAt(results)].sim {
            Admitted(q, g, ep, ef, layer, visited, results, Items(candidates) + {node}, n);
            ghost var was := Items(candidates);
            candidates := candidates + [Scored(n, sim)];
            results := Admit(results, Scored(n, sim), ef);
            assert Items(candidates) + {node} == was + {node} + {n};
          } else {
            Refused(q, g, ep, ef, layer, visited, results, Items(candidates) + {node}, n);
          }
          visited := visited + {n};
        }
      }
      NodeDone(q, g, ep, ef, layer, visited, results, Items(candidates), node);
      SubsetSize(Unseen(g, visited), unseen);
      open := Items(candidates);
    }
    if candidates == [] {
      NoItems();
    }
    r := SortDescending(results);
    Finished(q, g, ep, ef, layer, visited, results, open);
    if |r| < ef {
      ShortMeansAll(q, g, ep, ef, layer, visited, r);
    }
    LocallyBest(q, g, ep, ef, layer, visited, r);
  }
}
