/** The HNSW store: inserting with pruning, searching, the shape every insert keeps,
    and its agreement with exact search while nothing has been pruned. */
module HnswStore {
  import opened Options
  import opened Subsets
  import opened VectorCore
  import opened HnswGraph
  import opened HnswSearch

  function Cap(m: nat, layer: nat): nat {
    if layer == 0 then m * 2 else m
  }

  function Members(xs: seq<nat>): set<nat> {
    set x | x in xs
  }

  // --- pruning one list --------------------------------------------------------------------

  function ScoreLinks(g: Graph, anchor: nat, links: seq<nat>): Beam
    requires anchor < |g| && forall k | 0 <= k < |links| :: links[k] < |g|
  {
    seq(|links|, k requires 0 <= k < |links| => Scored(links[k], SimTo(g[anchor].vector, g, links[k])))
  }

  /** Drops a repeated neighbour that directly follows itself. */
  function Dedup(xs: Beam): Beam {
    if |xs| < 2 then xs
    else
      var init := Dedup(xs[..|xs| - 1]);
      if xs[|xs| - 1].item == xs[|xs| - 2].item then init else init + [xs[|xs| - 1]]
  }

  function ItemSeq(xs: Beam): seq<nat> {
    seq(|xs|, k requires 0 <= k < |xs| => xs[k].item)
  }

  /** The list a node keeps: all of it within capacity, else the most similar. */
  function PruneList(g: Graph, anchor: nat, links: seq<nat>, cap: nat): seq<nat>
    requires anchor < |g| && forall k | 0 <= k < |links| :: links[k] < |g|
  {
    if |links| <= cap then links
    else ItemSeq(Dedup(Take(SortDescending(ScoreLinks(g, anchor, links)), cap)))
  }

  lemma {:induction false} DedupDistinct(xs: Beam)
    requires DistinctItems(xs)
    ensures Dedup(xs) == xs
  {
    if |xs| >= 2 {
      DedupDistinct(xs[..|xs| - 1]);
      assert xs == xs[..|xs| - 1] + [xs[|xs| - 1]];
    }
  }

  lemma ScoreLinksDistinct(g: Graph, anchor: nat, links: seq<nat>)
    requires anchor < |g| && (forall k | 0 <= k < |links| :: links[k] < |g|) && Distinct(links)
    ensures DistinctItems(ScoreLinks(g, anchor, links))
    ensures forall x | x in ScoreLinks(g, anchor, links) ::
              x.item in links && x == Scored(x.item, SimTo(g[anchor].vector, g, x.item))
  {
  }

  /** An over-full list, best first: what pruning chooses from. */
  ghost function Ranked(g: Graph, anchor: nat, links: seq<nat>): Beam
    requires anchor < |g| && forall k | 0 <= k < |links| :: links[k] < |g|
  {
    SortDescending(ScoreLinks(g, anchor, links))
  }

  lemma RankedHolds(g: Graph, anchor: nat, links: seq<nat>)
    requires anchor < |g| && (forall k | 0 <= k < |links| :: links[k] < |g|) && Distinct(links)
    ensures var s := Ranked(g, anchor, links);
            && |s| == |links| && Descending(s) && DistinctItems(s)
            && (forall j | 0 <= j < |s| ::
                  s[j].item in links && s[j] == Scored(s[j].item, SimTo(g[anchor].vector, g, s[j].item)))
            && (forall y | y in links :: exists j :: 0 <= j < |s| && s[j].item == y)
  {
    var scored := ScoreLinks(g, anchor, links);
    var s := Ranked(g, anchor, links);
    ScoreLinksDistinct(g, anchor, links);
    SortDescends(scored);
    RearrangedItems(scored, s);
    hide SortDescending, Dot;
    forall j | 0 <= j < |s| ensures s[j] in scored {
      assert s[j] in multiset(s);
    }
    forall y | y in links ensures exists j :: 0 <= j < |s| && s[j].item == y {
      var k :| 0 <= k < |links| && links[k] == y;
      assert scored[k] in multiset(s);
      var j :| 0 <= j < |s| && s[j] == scored[k];
    }
  }

  lemma PrunedIsTop(g: Graph, anchor: nat, links: seq<nat>, cap: nat)
    requires anchor < |g| && (forall k | 0 <= k < |links| :: links[k] < |g|) && Distinct(links) && |links| > cap
    ensures |Ranked(g, anchor, links)| == |links|
    ensures PruneList(g, anchor, links, cap) == ItemSeq(Ranked(g, anchor, links)[..cap])
  {
    RankedHolds(g, anchor, links);
    hide SortDescending, Dot, ScoreLinks;
    DedupDistinct(Ranked(g, anchor, links)[..cap]);
  }

  /** Of a descending list, the front holds nothing worse than the back. */
  lemma FrontIsBest(s: Beam, cap: nat, y: nat)
    requires Descending(s) && cap <= |s| && (exists j :: 0 <= j < |s| && s[j].item == y) && y !in ItemSeq(s[..cap])
    ensures exists j :: cap <= j < |s| && s[j].item == y && forall i | 0 <= i < cap :: s[i].sim >= s[j].sim
  {
    var j :| 0 <= j < |s| && s[j].item == y;
    assert forall i | 0 <= i < cap :: ItemSeq(s[..cap])[i] == s[i].item;
    assert j >= cap;
  }

  /** Pruning keeps distinct members of the list, at most `cap`, and nothing it
      drops is more similar to the anchor than anything it keeps. */
  lemma PruneKeepsBest(g: Graph, anchor: nat, links: seq<nat>, cap: nat)
    requires anchor < |g| && (forall k | 0 <= k < |links| :: links[k] < |g|) && Distinct(links)
    ensures var r := PruneList(g, anchor, links, cap);
            && |r| == (if |links| <= cap then |links| else cap) && Distinct(r)
            && (forall x | x in r :: x in links)
            && (forall x, y | x in r && y in links && y !in r ::
                  x < |g| && y < |g| && SimTo(g[anchor].vector, g, x) >= SimTo(g[anchor].vector, g, y))
  {
    if |links| > cap {
      RankedHolds(g, anchor, links);
      PrunedIsTop(g, anchor, links, cap);
      hide Ranked, PruneList, SimTo;
      var s := Ranked(g, anchor, links);
      var r := PruneList(g, anchor, links, cap);
      assert |r| == cap && forall i | 0 <= i < cap :: r[i] == s[i].item;
      hide ItemSeq;
      forall x, y | x in r && y in links && y !in r
        ensures x < |g| && y < |g| && SimTo(g[anchor].vector, g, x) >= SimTo(g[anchor].vector, g, y)
      {
        var i :| 0 <= i < cap && r[i] == x;
        FrontIsBest(s, cap, y);
        var j :| cap <= j < |s| && s[j].item == y && forall i | 0 <= i < cap :: s[i].sim >= s[j].sim;
        assert s[i].sim >= s[j].sim;
      }
    }
  }

  // --- the shape of the graph -----------------------------------------------------------------

  /** Links at one place lead to other nodes of the same layer, without repeats and
      within capacity. */
  ghost predicate LinksSound(g: Graph, m: nat, i: nat, layer: nat)
    requires HasLayer(g, i, layer)
  {
    var links := Links(g, i, layer);
    Distinct(links) && |links| <= Cap(m, layer) && i !in links && forall j | j in links :: HasLayer(g, j, layer)
  }

  ghost predicate AllSound(g: Graph, m: nat) {
    forall i, layer | HasLayer(g, i, layer) :: LinksSound(g, m, i, layer)
  }

  /** The entry is a node of the highest layer. */
  ghost predicate EntryOnTop(g: Graph, entry: Option<nat>) {
    match entry
    case None => g == []
    case Some(e) => e < |g| && forall i | 0 <= i < |g| :: 1 <= |g[i].neighbors| <= |g[e].neighbors|
  }

  ghost predicate Shape(g: Graph, m: nat, entry: Option<nat>) {
    m >= 2 && AllSound(g, m) && EntryOnTop(g, entry)
  }

  lemma SoundIsClosed(g: Graph, m: nat, layer: nat)
    requires AllSound(g, m)
    ensures LayerClosed(g, layer)
  {
    forall i, j | HasLayer(g, i, layer) && j in Links(g, i, layer) ensures HasLayer(g, j, layer) {
      assert LinksSound(g, m, i, layer);
    }
  }

  // --- connecting --------------------------------------------------------------------------------

  function SetLinks(g: Graph, i: nat, layer: nat, links: seq<nat>): Graph
    requires HasLayer(g, i, layer)
  {
    g[i := g[i].(neighbors := g[i].neighbors[layer := links])]
  }

  /** The same nodes with the same ids, vectors and layers. */
  ghost predicate SameNodes(g: Graph, g': Graph) {
    |g'| == |g| && forall i | 0 <= i < |g| ::
      g'[i].id == g[i].id && g'[i].vector == g[i].vector && |g'[i].neighbors| == |g[i].neighbors|
  }

  /** Only the lists of `at` on `layer` may differ. */
  ghost predicate OnlyAt(g: Graph, g': Graph, layer: nat, at: set<nat>) {
    && SameNodes(g, g')
    && (forall i, l {:trigger Links(g', i, l)} | HasLayer(g, i, l) && (l != layer || i !in at) ::
          Links(g', i, l) == Links(g, i, l))
  }

  ghost predicate InGraph(g: Graph, links: seq<nat>) {
    forall k | 0 <= k < |links| :: links[k] < |g|
  }

  /** The list at one place became its pruned extension by `more`. */
  ghost predicate Extends(g: Graph, g': Graph, i: nat, layer: nat, more: seq<nat>, cap: nat) {
    && HasLayer(g, i, layer) && HasLayer(g', i, layer) && InGraph(g, Links(g, i, layer) + more)
    && Links(g', i, layer) == PruneList(g, i, Links(g, i, layer) + more, cap)
  }

  /** What connecting leaves: the node's list extended by the targets, each target's
      list by the node, all pruned to capacity; nothing else changed. */
  ghost predicate Connected(g: Graph, g': Graph, node: nat, targets: seq<nat>, layer: nat, cap: nat) {
    && OnlyAt(g, g', layer, {node} + Members(targets))
    && Extends(g, g', node, layer, targets, cap)
    && forall t | t in targets :: Extends(g, g', t, layer, [node], cap)
  }

  // --- what connecting keeps -------------------------------------------------------------------

  lemma ExtendsSound(g: Graph, g': Graph, m: nat, i: nat, layer: nat, more: seq<nat>)
    requires SameNodes(g, g') && Extends(g, g', i, layer, more, Cap(m, layer)) && LinksSound(g, m, i, layer)
    requires Distinct(Links(g, i, layer) + more) && i !in more && forall t | t in more :: HasLayer(g, t, layer)
    ensures HasLayer(g', i, layer) && LinksSound(g', m, i, layer)
  {
    var links := Links(g, i, layer) + more;
    PruneKeepsBest(g, i, links, Cap(m, layer));
    hide PruneList, Dot;
    forall j | j in Links(g', i, layer) ensures HasLayer(g', j, layer) && j != i {
      assert j in links;
      assert HasLayer(g, j, layer);
    }
  }

  lemma SameSound(g: Graph, g': Graph, m: nat, i: nat, layer: nat)
    requires SameNodes(g, g') && HasLayer(g, i, layer) && HasLayer(g', i, layer) && LinksSound(g, m, i, layer)
    requires Links(g', i, layer) == Links(g, i, layer)
    ensures LinksSound(g', m, i, layer)
  {
    forall j | j in Links(g', i, layer) ensures HasLayer(g', j, layer) {
      assert HasLayer(g, j, layer);
    }
  }

  /** Targets that are distinct, of the layer, and not yet linked to the node. */
  ghost predicate Fresh(g: Graph, node: nat, targets: seq<nat>, layer: nat) {
    && HasLayer(g, node, layer) && Links(g, node, layer) == []
    && Distinct(targets) && node !in targets
    && forall t {:trigger t in targets} | t in targets :: HasLayer(g, t, layer) && node !in Links(g, t, layer)
  }

  lemma ConnectedSound(g: Graph, g': Graph, m: nat, node: nat, targets: seq<nat>, layer: nat)
    requires AllSound(g, m) && Fresh(g, node, targets, layer) && Connected(g, g', node, targets, layer, Cap(m, layer))
    ensures AllSound(g', m)
  {
    forall i, l | HasLayer(g', i, l) ensures LinksSound(g', m, i, l) {
      assert HasLayer(g, i, l) && LinksSound(g, m, i, l);
      if l == layer && i == node {
        ExtendsSound(g, g', m, i, l, targets);
      } else if l == layer && i in targets {
        ExtendsSound(g, g', m, i, l, [node]);
      } else {
        SameSound(g, g', m, i, l);
      }
    }
  }

  // --- exactness while nothing is pruned -----------------------------------------------------------

  /** Layer 0 is symmetric and connected. */
  ghost predicate Whole(g: Graph) {
    && (forall a, b | Edge(g, 0, a, b) :: Edge(g, 0, b, a))
    && (forall a, b | 0 <= a < |g| && 0 <= b < |g| :: Reach(g, 0, a, b))
  }

  /** A list of distinct other nodes is shorter than the graph. */
  lemma ShortList(links: seq<nat>, n: nat, but: nat)
    requires Distinct(links) && but < n && forall x | x in links :: x < n && x != but
    ensures |links| < n
  {
    DistinctCount(links);
    assert Members(links) <= Below(n) - {but};
    SubsetSize(Members(links), Below(n) - {but});
    assert |Below(n) - {but}| == n - 1;
  }

  lemma {:induction false} DistinctCount(xs: seq<nat>)
    requires Distinct(xs)
    ensures |Members(xs)| == |xs|
  {
    if xs == [] {
      assert Members(xs) == {};
    } else {
      var init := xs[..|xs| - 1];
      DistinctCount(init);
      var last := xs[|xs| - 1];
      assert xs == init + [last];
      assert last !in init;
      assert Members(xs) == Members(init) + {last};
    }
  }

  /** Layer 0 after an insert that pruned nothing: the new node and its targets
      point at each other, all other lists are as before. */
  ghost predicate Grafted(g: Graph, g': Graph, targets: seq<nat>) {
    var idx := |g|;
    && |g'| == idx + 1 && targets != [] && (forall t | t in targets :: t < idx)
    && HasLayer(g', idx, 0) && Links(g', idx, 0) == targets
    && (forall i | 0 <= i < idx :: HasLayer(g, i, 0) && HasLayer(g', i, 0) &&
          Links(g', i, 0) == (if i in targets then Links(g, i, 0) + [idx] else Links(g, i, 0)))
  }

  lemma GraftedEdges(g: Graph, g': Graph, targets: seq<nat>, a: nat, b: nat)
    requires Grafted(g, g', targets)
    ensures Edge(g', 0, a, b) <==> (Edge(g, 0, a, b) || (a == |g| && b in targets) || (a in targets && b == |g|))
  {
  }

  lemma GraftedWhole(g: Graph, g': Graph, targets: seq<nat>)
    requires Grafted(g, g', targets) && Whole(g)
    ensures Whole(g')
  {
    var idx := |g|;
    forall a, b | Edge(g', 0, a, b) ensures Edge(g', 0, b, a) {
      GraftedEdges(g, g', targets, a, b);
      GraftedEdges(g, g', targets, b, a);
    }
    forall x, y | Edge(g, 0, x, y) ensures Edge(g', 0, x, y) {
      GraftedEdges(g, g', targets, x, y);
    }
    var t := targets[0];
    assert t in targets;
    GraftedEdges(g, g', targets, t, idx);
    GraftedEdges(g, g', targets, idx, t);
    ReachSelf(g', 0, idx);
    ReachStep(g', 0, idx, idx, t);
    hide Grafted, Edge, Reach;
    forall a, b | 0 <= a < |g'| && 0 <= b < |g'| ensures Reach(g', 0, a, b) {
      Through(g, g', idx, t, a);
      Through(g, g', idx, t, b);
      ReachJoin(g', 0, a, t, b);
    }
  }

  /** Every node reaches the first target and is reached from it. */
  lemma Through(g: Graph, g': Graph, idx: nat, t: nat, a: nat)
    requires Whole(g) && idx == |g| && |g'| == idx + 1 && t < idx && a <= idx
    requires forall x, y | Edge(g, 0, x, y) :: Edge(g', 0, x, y)
    requires Edge(g', 0, t, idx) && Reach(g', 0, idx, t)
    ensures Reach(g', 0, a, t) && Reach(g', 0, t, a)
  {
    hide Edge, Reach;
    if a < idx {
      ReachGrows(g, g', 0, a, t);
      ReachGrows(g, g', 0, t, a);
    } else {
      ReachSelf(g', 0, t);
      ReachStep(g', 0, t, t, idx);
    }
  }

  // --- the result of a search, in ids -------------------------------------------------------------------

  /** What the store holds, in insertion order. */
  function Contents(g: Graph): seq<Item> {
    seq(|g|, i requires 0 <= i < |g| => Item(g[i].id, g[i].vector))
  }

  function Named(g: Graph, xs: Beam): seq<Scored<string>>
    requires forall i | 0 <= i < |xs| :: xs[i].item < |g|
  {
    seq(|xs|, i requires 0 <= i < |xs| => Scored(g[xs[i].item].id, xs[i].sim))
  }

  function Everything(q: Vector, g: Graph): Beam {
    seq(|g|, i requires 0 <= i < |g| => Scored(i, SimTo(q, g, i)))
  }

  lemma {:induction false} NamesPermute(g: Graph, a: Beam, b: Beam)
    requires multiset(a) == multiset(b)
    requires (forall i | 0 <= i < |a| :: a[i].item < |g|) && (forall i | 0 <= i < |b| :: b[i].item < |g|)
    ensures multiset(Named(g, a)) == multiset(Named(g, b))
  {
    if a == [] {
      assert |b| == |multiset(b)| == |multiset(a)| == 0;
    } else {
      assert a[0] in multiset(b);
      var k :| 0 <= k < |b| && b[k] == a[0];
      WithoutOne(a, b, k);
      NamesPermute(g, a[1..], b[..k] + b[k + 1..]);
      NamesSplit(g, b, k);
      assert Named(g, a) == [Scored(g[a[0].item].id, a[0].sim)] + Named(g, a[1..]);
    }
  }

  lemma NamesSplit(g: Graph, b: Beam, k: nat)
    requires k < |b| && forall i | 0 <= i < |b| :: b[i].item < |g|
    ensures multiset(Named(g, b)) == multiset(Named(g, b[..k] + b[k + 1..])) +
              multiset{Scored(g[b[k].item].id, b[k].sim)}
  {
    var front, back := b[..k], b[k + 1..];
    assert Named(g, b) == Named(g, front) + ([Scored(g[b[k].item].id, b[k].sim)] + Named(g, back));
    assert Named(g, front + back) == Named(g, front) + Named(g, back);
  }

  lemma {:induction false} OnceEach(xs: Beam, x: Scored<nat>)
    requires DistinctItems(xs)
    ensures multiset(xs)[x] == (if x in xs then 1 else 0)
  {
    if xs != [] {
      var init := xs[..|xs| - 1];
      assert xs == init + [xs[|xs| - 1]];
      OnceEach(init, x);
      assert xs[|xs| - 1] !in init;
    }
  }

  /** Honest beams over the same nodes hold the same scored elements. */
  lemma SameNodesSameBeam(q: Vector, g: Graph, layer: nat, xs: Beam, ys: Beam)
    requires DistinctItems(xs) && DistinctItems(ys) && Items(xs) == Items(ys)
    requires Honest(q, g, layer, xs) && Honest(q, g, layer, ys)
    ensures multiset(xs) == multiset(ys)
  {
    forall x ensures multiset(xs)[x] == multiset(ys)[x] {
      OnceEach(xs, x);
      OnceEach(ys, x);
      if x in xs {
        var i :| 0 <= i < |xs| && xs[i] == x;
        assert x.item in Items(ys);
        HonestItems(q, g, layer, ys, x.item);
      }
      if x in ys {
        var i :| 0 <= i < |ys| && ys[i] == x;
        assert x.item in Items(xs);
        HonestItems(q, g, layer, xs, x.item);
      }
    }
  }

  /** On a whole layer 0 a wide enough beam search finds every node. */
  lemma WholeFindsAll(q: Vector, g: Graph, ep: nat, ef: nat, visited: set<nat>, r: Beam)
    requires BeamResult(q, g, ep, ef, 0, visited, r) && Whole(g) && ep < |g| && |g| <= ef
    requires |r| < ef ==> forall v | Reach(g, 0, ep, v) :: v in Items(r)
    ensures Items(r) == Below(|g|)
  {
    var all := Below(|g|);
    forall v | v in Items(r) ensures v in all {
      HonestItems(q, g, 0, r, v);
    }
    if |r| < ef {
      forall v | v in all ensures v in Items(r) {
        assert Reach(g, 0, ep, v);
      }
    } else {
      ItemsCount(r);
      if Items(r) != all {
        SubsetSize(Items(r), all);
      }
    }
  }

  lemma NamedDescends(g: Graph, r: Beam)
    requires Descending(r) && forall i | 0 <= i < |r| :: r[i].item < |g|
    ensures Descending(Named(g, r))
  {
  }

  /** A search that found every node holds what exact scoring holds. */
  lemma AllFoundNamed(q: Vector, g: Graph, r: Beam)
    requires DistinctItems(r) && Honest(q, g, 0, r) && Items(r) == Below(|g|)
    requires forall i | 0 <= i < |g| :: HasLayer(g, i, 0)
    ensures multiset(Named(g, r)) == multiset(Score(q, Contents(g)))
  {
    hide DistinctItems, Items, Dot;
    EverythingItems(q, g);
    SameNodesSameBeam(q, g, 0, r, Everything(q, g));
    NamesPermute(g, r, Everything(q, g));
    assert Named(g, Everything(q, g)) == Score(q, Contents(g));
  }

  /** Descending and of the same elements as the exact scores: cut alike, it shows
      what exact search shows. */
  lemma CutAlike(q: Vector, items: seq<Item>, named: seq<Scored<string>>, k: nat)
    requires Descending(named) && multiset(named) == multiset(Score(q, items))
    ensures Sims(Take(named, k)) == Sims(Exact(q, items, k))
    ensures DistinctSims(Score(q, items)) ==> Take(named, k) == Exact(q, items, k)
  {
    var sorted := SortDescending(Score(q, items));
    SortDescends(Score(q, items));
    hide SortDescending, Score, Descending, Sims, DistinctSims;
    SameElementsSameSims(named, sorted);
    TakeSims(named, k);
    TakeSims(sorted, k);
    if DistinctSims(Score(q, items)) {
      DistinctSimsPermute(Score(q, items), named);
      SameElementsSameOrder(named, sorted);
    }
  }

  /** Searching a whole store wide enough shows exactly what exact search shows. */
  lemma WholeIsExact(q: Vector, g: Graph, ep: nat, ef: nat, k: nat, visited: set<nat>, r: Beam)
    requires BeamResult(q, g, ep, ef, 0, visited, r) && Whole(g) && ep < |g| && |g| <= ef
    requires |r| < ef ==> forall v | Reach(g, 0, ep, v) :: v in Items(r)
    requires forall i | 0 <= i < |g| :: HasLayer(g, i, 0)
    ensures forall i | 0 <= i < |r| :: r[i].item < |g|
    ensures Sims(Take(Named(g, r), k)) == Sims(Exact(q, Contents(g), k))
    ensures DistinctSims(Score(q, Contents(g))) ==> Take(Named(g, r), k) == Exact(q, Contents(g), k)
  {
    WholeFindsAll(q, g, ep, ef, visited, r);
    hide Whole, Reach, Outranked, Explored, Items, Score, Named, Dot, Exact, Sims, DistinctSims, Take;
    AllFoundNamed(q, g, r);
    NamedDescends(g, r);
    CutAlike(q, Contents(g), Named(g, r), k);
  }

  lemma EverythingItems(q: Vector, g: Graph)
    requires forall i | 0 <= i < |g| :: HasLayer(g, i, 0)
    ensures Items(Everything(q, g)) == Below(|g|)
    ensures DistinctItems(Everything(q, g)) && Honest(q, g, 0, Everything(q, g))
  {
    forall v: nat | v < |g| ensures v in Items(Everything(q, g)) {
      assert Everything(q, g)[v].item == v;
    }
  }

  lemma TakeSims<T>(xs: seq<Scored<T>>, k: nat)
    ensures Sims(Take(xs, k)) == Take(Sims(xs), k)
  {
  }

  lemma DistinctSimsPermute<T>(a: seq<Scored<T>>, b: seq<Scored<T>>)
    requires multiset(a) == multiset(b) && DistinctSims(a)
    ensures DistinctSims(b)
  {
    forall i, j | 0 <= i < |b| && 0 <= j < |b| && b[i].sim == b[j].sim ensures b[i] == b[j] {
      assert b[i] in multiset(a) && b[j] in multiset(a);
    }
  }

  // --- the store -----------------------------------------------------------------------------------------

  /** While an insert works downwards, the layers below `todo` are as before and do
      not know the new node. */
  ghost predicate Inserting(g0: Graph, g: Graph, item: Item, layer: nat, todo: nat) {
    var idx := |g0|;
    && |g| == idx + 1 && SameNodes(g0, g[..idx])
    && g[idx].id == item.id && g[idx].vector == item.vector && |g[idx].neighbors| == layer + 1
    && (forall k | 0 <= k < todo && k <= layer :: g[idx].neighbors[k] == [])
    && (forall i: nat, k: nat {:trigger Links(g, i, k)} | HasLayer(g0, i, k) && k < todo ::
          Links(g, i, k) == Links(g0, i, k))
  }

  /** While layers are still to do, nobody on them links to the new node. */
  lemma Unlinked(g0: Graph, g: Graph, m: nat, item: Item, layer: nat, todo: nat, l: nat, i: nat)
    requires Inserting(g0, g, item, layer, todo) && AllSound(g0, m) && l < todo && HasLayer(g, i, l)
    ensures |g0| !in Links(g, i, l)
  {
    if i < |g0| {
      assert g[..|g0|][i] == g[i];
      assert HasLayer(g0, i, l) && LinksSound(g0, m, i, l);
    }
  }

  /** So the search from an old node finds old nodes only. */
  lemma FindsOld(g0: Graph, g: Graph, m: nat, item: Item, layer: nat, todo: nat, l: nat, ep: nat, v: nat)
    requires Inserting(g0, g, item, layer, todo) && AllSound(g0, m) && l < todo
    requires ep != |g0| && Reach(g, l, ep, v)
    ensures v != |g0|
  {
    var path :| Walk(g, l, path) && path[0] == ep && path[|path| - 1] == v;
    if |path| > 1 {
      var i := |path| - 2;
      assert Edge(g, l, path[i], path[i + 1]);
      Unlinked(g0, g, m, item, layer, todo, l, path[i]);
    }
  }

  /** The targets of one layer are fresh for the new node. */
  lemma TargetsFresh(g0: Graph, g: Graph, m: nat, q: Vector, item: Item, layer: nat, l: nat, ep: nat, ef: nat,
                     visited: set<nat>, found: Beam, targets: seq<nat>)
    requires Inserting(g0, g, item, layer, l + 1) && AllSound(g0, m) && l <= layer && ep < |g0|
    requires BeamResult(q, g, ep, ef, l, visited, found)
    requires targets == ItemSeq(Take(found, |targets|)) && |targets| <= |found|
    ensures Fresh(g, |g0|, targets, l)
    ensures forall t | t in targets :: t < |g0|
  {
    hide Reach, Outranked, Explored, Dot;
    forall t | t in targets ensures HasLayer(g, t, l) && t < |g0| && |g0| !in Links(g, t, l) {
      var i :| 0 <= i < |targets| && targets[i] == t;
      assert found[i].item == t;
      assert found[i].item in Items(found);
      FindsOld(g0, g, m, item, layer, l + 1, l, ep, t);
      Unlinked(g0, g, m, item, layer, l + 1, l, t);
    }
    assert Distinct(targets) by {
      forall i, j | 0 <= i < j < |targets| ensures targets[i] != targets[j] {
        assert targets[i] == found[i].item && targets[j] == found[j].item;
      }
    }
  }

  lemma InsertingOn(g0: Graph, g: Graph, g': Graph, item: Item, layer: nat, l: nat, targets: seq<nat>, cap: nat)
    requires Inserting(g0, g, item, layer, l + 1) && l <= layer && Connected(g, g', |g0|, targets, l, cap)
    ensures Inserting(g0, g', item, layer, l)
  {
    var idx := |g0|;
    assert forall i | 0 <= i < idx :: g[..idx][i] == g[i] && g'[..idx][i] == g'[i];
    forall k | 0 <= k < l && k <= layer ensures g'[idx].neighbors[k] == [] {
      assert Links(g', idx, k) == Links(g, idx, k);
    }
    forall i: nat, k: nat | HasLayer(g0, i, k) && k < l ensures Links(g', i, k) == Links(g0, i, k) {
      assert HasLayer(g, i, k);
      assert Links(g', i, k) == Links(g, i, k);
    }
  }

  /** In a small store connecting on layer 0 prunes nothing. */
  lemma ConnectedGrafts(g0: Graph, g: Graph, g': Graph, m: nat, item: Item, layer: nat, targets: seq<nat>)
    requires Inserting(g0, g, item, layer, 1) && AllSound(g, m) && Fresh(g, |g0|, targets, 0)
    requires targets != [] && |targets| <= Cap(m, 0) && (forall t | t in targets :: t < |g0|)
    requires forall i | 0 <= i < |g0| :: HasLayer(g0, i, 0)
    requires Connected(g, g', |g0|, targets, 0, Cap(m, 0)) && |g| <= 2 * m + 1
    ensures Grafted(g0, g', targets)
  {
    var idx := |g0|;
    assert Links(g, idx, 0) + targets == targets;
    forall i | 0 <= i < idx
      ensures HasLayer(g', i, 0) && Links(g', i, 0) ==
                (if i in targets then Links(g0, i, 0) + [idx] else Links(g0, i, 0))
    {
      assert g[..idx][i] == g[i];
      assert HasLayer(g0, i, 0) && HasLayer(g, i, 0);
      if i in targets {
        assert Extends(g, g', i, 0, [idx], Cap(m, 0));
        assert LinksSound(g, m, i, 0);
        var more := Links(g, i, 0) + [idx];
        forall x | x in more ensures x < |g| && x != i {
          assert x == idx || HasLayer(g, x, 0);
        }
        ShortList(more, |g|, i);
      }
    }
  }

  // --- one layer of an insert ------------------------------------------------------------------------

  /** Pruning looks at vectors only. */
  lemma PruneSame(g: Graph, g': Graph, anchor: nat, links: seq<nat>, cap: nat)
    requires SameNodes(g, g') && anchor < |g| && InGraph(g, links)
    ensures PruneList(g', anchor, links, cap) == PruneList(g, anchor, links, cap)
  {
    assert ScoreLinks(g', anchor, links) == ScoreLinks(g, anchor, links);
  }

  /** Some of the targets are done. */
  ghost predicate Connecting(g: Graph, g': Graph, node: nat, targets: seq<nat>, done: nat, layer: nat, cap: nat)
    requires done <= |targets|
  {
    && OnlyAt(g, g', layer, {node} + Members(targets[..done]))
    && Extends(g, g', node, layer, targets, cap)
    && forall t | t in targets[..done] :: Extends(g, g', t, layer, [node], cap)
  }

  lemma SoundInGraph(g: Graph, m: nat, i: nat, layer: nat)
    requires AllSound(g, m) && HasLayer(g, i, layer)
    ensures InGraph(g, Links(g, i, layer)) && i !in Links(g, i, layer) && Distinct(Links(g, i, layer))
  {
    assert LinksSound(g, m, i, layer);
    forall k | 0 <= k < |Links(g, i, layer)| ensures Links(g, i, layer)[k] < |g| {
      assert Links(g, i, layer)[k] in Links(g, i, layer);
    }
  }

  /** What replacing one list does. */
  lemma Replaced(g: Graph, g': Graph, i: nat, layer: nat, links: seq<nat>)
    requires HasLayer(g, i, layer) && g' == SetLinks(g, i, layer, links)
    ensures OnlyAt(g, g', layer, {i}) && HasLayer(g', i, layer) && Links(g', i, layer) == links
  {
  }

  lemma OnlyAtTwice(g: Graph, g1: Graph, g2: Graph, layer: nat, a: set<nat>, b: set<nat>)
    requires OnlyAt(g, g1, layer, a) && OnlyAt(g1, g2, layer, b)
    ensures OnlyAt(g, g2, layer, a + b)
  {
    forall i: nat, l: nat | HasLayer(g, i, l) && (l != layer || i !in a + b) ensures Links(g2, i, l) == Links(g, i, l) {
      assert HasLayer(g1, i, l) && Links(g1, i, l) == Links(g, i, l);
      assert Links(g2, i, l) == Links(g1, i, l);
    }
  }

  lemma ExtendsStays(g: Graph, g1: Graph, g2: Graph, i: nat, layer: nat, more: seq<nat>, cap: nat, b: set<nat>)
    requires Extends(g, g1, i, layer, more, cap) && OnlyAt(g1, g2, layer, b) && i !in b
    ensures Extends(g, g2, i, layer, more, cap)
  {
    assert Links(g2, i, layer) == Links(g1, i, layer);
  }

  lemma MembersNext(targets: seq<nat>, k: nat)
    requires k < |targets|
    ensures Members(targets[..k + 1]) == Members(targets[..k]) + {targets[k]}
    ensures forall x | x in targets[..k + 1] :: x == targets[k] || x in targets[..k]
    ensures targets[k] in targets
  {
  }

  lemma ConnectOne(g: Graph, g1: Graph, g2: Graph, node: nat, targets: seq<nat>, k: nat, layer: nat, cap: nat)
    requires Fresh(g, node, targets, layer) && k < |targets|
    requires Connecting(g, g1, node, targets, k, layer, cap)
    requires HasLayer(g, targets[k], layer) && Links(g1, targets[k], layer) == Links(g, targets[k], layer)
    requires InGraph(g, Links(g, targets[k], layer) + [node])
    requires g2 == SetLinks(g1, targets[k], layer, PruneList(g, targets[k], Links(g, targets[k], layer) + [node], cap))
    ensures Connecting(g, g2, node, targets, k + 1, layer, cap)
  {
    var t := targets[k];
    MembersNext(targets, k);
    assert t != node;
    hide PruneList, Links, Fresh, HasLayer;
    Replaced(g1, g2, t, layer, PruneList(g, t, Links(g, t, layer) + [node], cap));
    assert Extends(g, g2, t, layer, [node], cap);
    hide Extends, SetLinks;
    OnlyAtTwice(g, g1, g2, layer, {node} + Members(targets[..k]), {t});
    hide OnlyAt;
    assert {node} + Members(targets[..k]) + {t} == {node} + Members(targets[..k + 1]);
    ExtendsStays(g, g1, g2, node, layer, targets, cap, {t});
    forall x | x in targets[..k + 1] ensures Extends(g, g2, x, layer, [node], cap) {
      if x != t {
        ExtendsStays(g, g1, g2, x, layer, [node], cap, {t});
      }
    }
  }

  /** The next target's list is still as it was. */
  lemma NextTarget(g: Graph, g1: Graph, m: nat, node: nat, targets: seq<nat>, k: nat, layer: nat, cap: nat)
    requires AllSound(g, m) && Fresh(g, node, targets, layer) && k < |targets|
    requires Connecting(g, g1, node, targets, k, layer, cap)
    ensures HasLayer(g, targets[k], layer) && HasLayer(g1, targets[k], layer) && SameNodes(g, g1)
    ensures Links(g1, targets[k], layer) == Links(g, targets[k], layer)
    ensures InGraph(g, Links(g, targets[k], layer) + [node])
  {
    var t := targets[k];
    assert t in targets;
    assert t !in {node} + Members(targets[..k]);
    assert Links(g1, t, layer) == Links(g, t, layer);
    SoundInGraph(g, m, t, layer);
  }

  lemma ConnectNode(g: Graph, g': Graph, m: nat, node: nat, targets: seq<nat>, layer: nat, cap: nat)
    requires AllSound(g, m) && Fresh(g, node, targets, layer) && InGraph(g, Links(g, node, layer) + targets)
    requires g' == SetLinks(g, node, layer, PruneList(g, node, Links(g, node, layer) + targets, cap))
    ensures Connecting(g, g', node, targets, 0, layer, cap)
  {
    hide PruneList;
    Replaced(g, g', node, layer, PruneList(g, node, Links(g, node, layer) + targets, cap));
    assert {node} + Members(targets[..0]) == {node};
  }

  lemma Pushed(g: Graph, m: nat, item: Item, layer: nat)
    requires AllSound(g, m)
    ensures var g' := g + [HnswNode(item.id, item.vector, seq(layer + 1, _ => []))];
            AllSound(g', m) && Inserting(g, g', item, layer, layer + 1)
  {
    var g' := g + [HnswNode(item.id, item.vector, seq(layer + 1, _ => []))];
    forall i: nat, l: nat | HasLayer(g', i, l) ensures LinksSound(g', m, i, l) {
      if i < |g| {
        assert HasLayer(g, i, l) && LinksSound(g, m, i, l);
        forall j | j in Links(g', i, l) ensures HasLayer(g', j, l) {
          assert HasLayer(g, j, l);
        }
      }
    }
    assert g'[..|g|] == g;
  }

  lemma InsertedContents(g0: Graph, g: Graph, item: Item, layer: nat, todo: nat)
    requires Inserting(g0, g, item, layer, todo)
    ensures Contents(g) == Contents(g0) + [item]
  {
    assert forall i | 0 <= i < |g0| :: g[..|g0|][i] == g[i];
  }

  lemma OldLayers(g0: Graph, g: Graph, item: Item, layer: nat, todo: nat, i: nat, l: nat)
    requires Inserting(g0, g, item, layer, todo)
    ensures i < |g0| ==> (HasLayer(g, i, l) <==> HasLayer(g0, i, l))
    ensures i == |g0| ==> (HasLayer(g, i, l) <==> l <= layer)
  {
    if i < |g0| {
      assert g[..|g0|][i] == g[i];
    }
  }

  lemma InsertedEntry(g0: Graph, g: Graph, item: Item, layer: nat, e: nat)
    requires Inserting(g0, g, item, layer, 0) && EntryOnTop(g0, Some(e))
    ensures EntryOnTop(g, Some(if layer > |g0[e].neighbors| - 1 then |g0| else e))
  {
    assert forall i | 0 <= i < |g0| :: g[..|g0|][i] == g[i];
  }

  /** The nearest found node is an old one of this layer. */
  lemma NearestIsOld(g0: Graph, g: Graph, m: nat, q: Vector, item: Item, layer: nat, l: nat, ep: nat, ef: nat,
                     visited: set<nat>, found: Beam)
    requires Inserting(g0, g, item, layer, l + 1) && AllSound(g0, m) && ep < |g0|
    requires BeamResult(q, g, ep, ef, l, visited, found)
    ensures found != [] && found[0].item < |g0| && HasLayer(g0, found[0].item, l)
  {
    hide Reach, Outranked, Explored, Dot;
    assert found[0].item in Items(found);
    FindsOld(g0, g, m, item, layer, l + 1, l, ep, found[0].item);
    OldLayers(g0, g, item, layer, l + 1, found[0].item, l);
  }

  /** Connecting the new node on layer l finishes that layer. */
  lemma LayerDone(g0: Graph, g: Graph, g': Graph, m: nat, item: Item, layer: nat, l: nat, targets: seq<nat>)
    requires Inserting(g0, g, item, layer, l + 1) && AllSound(g, m) && l <= layer && m >= 1
    requires Fresh(g, |g0|, targets, l) && Connected(g, g', |g0|, targets, l, Cap(m, l))
    requires (forall t | t in targets :: t < |g0|) && 1 <= |targets| <= Cap(m, l)
    requires forall i | 0 <= i < |g0| :: HasLayer(g0, i, 0)
    ensures Inserting(g0, g', item, layer, l) && AllSound(g', m)
    ensures l == 0 && |g| <= 2 * m + 1 && Whole(g0) ==> Whole(g')
  {
    InsertingOn(g0, g, g', item, layer, l, targets, Cap(m, l));
    ConnectedSound(g, g', m, |g0|, targets, l);
    if l == 0 && |g| <= 2 * m + 1 && Whole(g0) {
      ConnectedGrafts(g0, g, g', m, item, layer, targets);
      GraftedWhole(g0, g', targets);
    }
  }

  lemma FewerToDo(g0: Graph, g: Graph, item: Item, layer: nat, todo: nat, less: nat)
    requires Inserting(g0, g, item, layer, todo) && less <= todo
    ensures Inserting(g0, g, item, layer, less)
  {
  }

  lemma LoneWhole(g: Graph, m: nat)
    requires AllSound(g, m) && |g| == 1
    ensures Whole(g)
  {
    forall a, b | Edge(g, 0, a, b) ensures Edge(g, 0, b, a) {
      assert LinksSound(g, m, a, 0);
      assert HasLayer(g, b, 0);
    }
    ReachSelf(g, 0, 0);
  }

  lemma SetTwice(g: Graph, i: nat, layer: nat, a: seq<nat>, b: seq<nat>)
    requires HasLayer(g, i, layer)
    ensures HasLayer(SetLinks(g, i, layer, a), i, layer) && SameNodes(g, SetLinks(g, i, layer, a))
    ensures Links(SetLinks(g, i, layer, a), i, layer) == a
    ensures SetLinks(SetLinks(g, i, layer, a), i, layer, b) == SetLinks(g, i, layer, b)
  {
    assert g[i].neighbors[layer := a][layer := b] == g[i].neighbors[layer := b];
  }

  function Wider(efSearch: nat, k: nat): nat {
    if efSearch < k then k else efSearch
  }

  lemma OldEntry(g: Graph, entry: Option<nat>)
    requires EntryOnTop(g, entry)
    ensures entry.None? ==> g == []
    ensures entry.Some? ==> entry.value < |g| && g[entry.value].neighbors != []
    ensures forall i | 0 <= i < |g| :: HasLayer(g, i, 0)
  {
  }

  lemma FirstEntry(g: Graph)
    requires |g| == 1 && g[0].neighbors != []
    ensures EntryOnTop(g, Some(0))
  {
  }

  lemma NothingStored(query: Vector, k: nat)
    ensures Exact(query, Contents([]), k) == []
    ensures Contents([]) == [] && Named([], []) == []
  {
  }

  /** Nothing is found twice, so no more than is stored. */
  lemma FoundFits(query: Vector, g: Graph, ep: nat, ef: nat, visited: set<nat>, r: Beam)
    requires BeamResult(query, g, ep, ef, 0, visited, r)
    ensures |r| <= |g| && forall i | 0 <= i < |r| :: r[i].item < |g|
  {
    hide Reach, Outranked, Explored, FromStart;
    forall v | v in Items(r) ensures v in Below(|g|) {
      HonestItems(query, g, 0, r, v);
    }
    ItemsCount(r);
    SubsetSize(Items(r), Below(|g|));
  }

  /** The node is stored before it is linked. */
  function WithNode(g: Graph, item: Item, layer: nat): Graph {
    g + [HnswNode(item.id, item.vector, seq(layer + 1, _ => []))]
  }

  /** The most similar nodes found on a layer, as many as a list there may hold. */
  function TargetsOf(m: nat, l: nat, found: Beam): seq<nat> {
    ItemSeq(Take(found, Cap(m, l)))
  }

  /** One layer of an insert: the node is connected to the most similar nodes a beam
      search from `ep` finds, and the search below starts at the nearest of them. */
  ghost predicate LayerInserted(g: Graph, g': Graph, m: nat, ef: nat, q: Vector, idx: nat, l: nat, ep: nat, ep': nat) {
    exists visited, found: Beam ::
      && BeamResult(q, g, ep, ef, l, visited, found) && found != [] && ep' == found[0].item
      && Connected(g, g', idx, TargetsOf(m, l, found), l, Cap(m, l))
  }

  /** The layers below `hi`, down to `lo`, one after the other. */
  ghost predicate LayersInserted(g: Graph, g': Graph, m: nat, ef: nat, q: Vector, idx: nat, hi: nat, lo: nat, ep: nat,
                                 ep': nat)
    requires lo <= hi
    decreases hi - lo
  {
    if lo == hi then g' == g && ep' == ep
    else exists mid, near ::
      LayersInserted(g, mid, m, ef, q, idx, hi, lo + 1, ep, near) &&
      LayerInserted(mid, g', m, ef, q, idx, lo, near, ep')
  }

  lemma OneLayerInserted(g: Graph, g1: Graph, g2: Graph, m: nat, ef: nat, q: Vector, idx: nat, hi: nat, lo: nat,
                         ep: nat, near: nat, visited: set<nat>, found: Beam)
    requires lo < hi && LayersInserted(g, g1, m, ef, q, idx, hi, lo + 1, ep, near)
    requires BeamResult(q, g1, near, ef, lo, visited, found) && found != []
    requires Connected(g1, g2, idx, TargetsOf(m, lo, found), lo, Cap(m, lo))
    ensures LayersInserted(g, g2, m, ef, q, idx, hi, lo, ep, found[0].item)
  {
    hide BeamResult, Connected;
    assert LayerInserted(g1, g2, m, ef, q, idx, lo, near, found[0].item);
  }

  lemma NoLayerInserted(g: Graph, m: nat, ef: nat, q: Vector, idx: nat, hi: nat, ep: nat)
    ensures LayersInserted(g, g, m, ef, q, idx, hi, hi, ep, ep)
  {
  }

  lemma CountedTargets(m: nat, l: nat, found: Beam, count: nat)
    requires count == if Cap(m, l) < |found| then Cap(m, l) else |found|
    ensures ItemSeq(Take(found, count)) == TargetsOf(m, l, found)
  {
  }

  function Lower(a: nat, b: nat): nat {
    if a < b then a else b
  }

  /** On each layer it enters the new node is linked to the most similar nodes found
      there, best first: as many as were found, up to m, or 2m on layer 0. */
  lemma LinksTheBest(g: Graph, g': Graph, m: nat, ef: nat, q: Vector, idx: nat, l: nat, ep: nat, ep': nat)
    requires LayerInserted(g, g', m, ef, q, idx, l, ep, ep') && HasLayer(g, idx, l) && Links(g, idx, l) == []
    ensures HasLayer(g', idx, l)
    ensures exists visited, found: Beam ::
              && BeamResult(q, g, ep, ef, l, visited, found) && found != [] && ep' == found[0].item
              && |Links(g', idx, l)| == Lower(if l == 0 then 2 * m else m, |found|)
              && forall i | 0 <= i < |Links(g', idx, l)| :: Links(g', idx, l)[i] == found[i].item
  {
    hide BeamResult;
    var visited, found: Beam :|
      && BeamResult(q, g, ep, ef, l, visited, found) && found != [] && ep' == found[0].item
      && Connected(g, g', idx, TargetsOf(m, l, found), l, Cap(m, l));
    var targets := TargetsOf(m, l, found);
    assert Links(g, idx, l) + targets == targets;
    assert Links(g', idx, l) == targets;
  }

  /** No node has more than m links on a layer, or 2m on layer 0. */
  lemma DegreesBounded(g: Graph, m: nat, entry: Option<nat>, i: nat, l: nat)
    requires Shape(g, m, entry) && HasLayer(g, i, l)
    ensures |Links(g, i, l)| <= if l == 0 then 2 * m else m
  {
    assert LinksSound(g, m, i, l);
  }

  /** No neighbour on the layer is more similar to the query. */
  ghost predicate LocalBest(q: Vector, g: Graph, i: nat, layer: nat) {
    && HasLayer(g, i, layer)
    && forall n | n in Links(g, i, layer) :: n < |g| && SimTo(q, g, n) <= SimTo(q, g, i)
  }

  lemma IsLocalBest(q: Vector, g: Graph, i: nat, layer: nat)
    requires HasLayer(g, i, layer) && LayerClosed(g, layer)
    requires forall n | n in Links(g, i, layer) && n < |g| :: SimTo(q, g, n) <= SimTo(q, g, i)
    ensures LocalBest(q, g, i, layer)
  {
    forall n | n in Links(g, i, layer) ensures n < |g| {
      assert HasLayer(g, n, layer);
    }
  }

  /** How a whole insert goes: down from an old node of the highest layer that the new
      node shares with the graph; if there are layers above, one the descent through
      them ends at. */
  ghost predicate InsertedBy(g: Graph, g': Graph, m: nat, ef: nat, item: Item, layer: nat, top: nat) {
    exists ep: nat, ep': nat ::
      && ep < |g| && HasLayer(g, ep, Lower(layer, top))
      && (layer < top ==> LocalBest(item.vector, WithNode(g, item, layer), ep, layer + 1))
      && InsertedFrom(g, g', m, ef, item, layer, Lower(layer, top), ep, ep')
  }

  ghost predicate InsertedFrom(g: Graph, g': Graph, m: nat, ef: nat, item: Item, layer: nat, low: nat, ep: nat,
                               ep': nat) {
    LayersInserted(WithNode(g, item, layer), g', m, ef, item.vector, |g|, low + 1, 0, ep, ep')
  }

  /** The index: every insert keeps its shape, and layer 0 stays whole as long as no
      list can overflow. */
  class HnswVectorStore {
    const m: nat
    const efConstruction: nat
    const efSearch: nat
    var nodes: Graph
    var entry: Option<nat>

    ghost predicate Valid()
      reads this
    {
      && Shape(nodes, m, entry) && efSearch >= 1
      && (|nodes| <= 2 * m + 1 ==> Whole(nodes))
    }

    constructor (m: nat, efConstruction: nat, efSearch: nat)
      ensures Valid() && nodes == []
      ensures this.m == (if m < 2 then 2 else m)
      ensures this.efConstruction == (if efConstruction < m then m else efConstruction)
      ensures this.efSearch == (if efSearch < 1 then 1 else efSearch)
    {
      this.m := if m < 2 then 2 else m;
      this.efConstruction := if efConstruction < m then m else efConstruction;
      this.efSearch := if efSearch < 1 then 1 else efSearch;
      nodes := [];
      entry := None;
    }

    method Prune(node: nat, layer: nat, cap: nat)
      requires HasLayer(nodes, node, layer) && InGraph(nodes, Links(nodes, node, layer))
      modifies this`nodes
      ensures nodes == SetLinks(old(nodes), node, layer,
                                PruneList(old(nodes), node, Links(old(nodes), node, layer), cap))
    {
      var links := Links(nodes, node, layer);
      if |links| <= cap {
        assert nodes[node].neighbors[layer := links] == nodes[node].neighbors;
        assert nodes == SetLinks(nodes, node, layer, links);
        return;
      }
      var scored := ScoreLinks(nodes, node, links);
      scored := SortDescending(scored);
      scored := Take(scored, cap);
      scored := Dedup(scored);
      nodes := SetLinks(nodes, node, layer, ItemSeq(scored));
    }

    method Connect(node: nat, targets: seq<nat>, layer: nat)
      requires AllSound(nodes, m) && Fresh(nodes, node, targets, layer)
      modifies this`nodes
      ensures Connected(old(nodes), nodes, node, targets, layer, Cap(m, layer))
    {
      hide PruneList, AllSound, OnlyAt, Extends;
      var cap := Cap(m, layer);
      ghost var was := nodes;
      assert InGraph(nodes, Links(nodes, node, layer) + targets) by {
        forall k | 0 <= k < |targets| ensures targets[k] < |nodes| {
          assert targets[k] in targets;
        }
      }
      nodes := SetLinks(nodes, node, layer, Links(nodes, node, layer) + targets);
      ghost var all := Links(was, node, layer) + targets;
      SetTwice(was, node, layer, all, PruneList(was, node, all, cap));
      PruneSame(was, nodes, node, all, cap);
      Prune(node, layer, cap);
      ConnectNode(was, nodes, m, node, targets, layer, cap);
      for k := 0 to |targets|
        invariant Connecting(was, nodes, node, targets, k, layer, cap)
      {
        var t := targets[k];
        NextTarget(was, nodes, m, node, targets, k, layer, cap);
        ghost var g1 := nodes;
        var more := Links(nodes, t, layer) + [node];
        nodes := SetLinks(nodes, t, layer, more);
        SetTwice(g1, t, layer, more, PruneList(was, t, more, cap));
        PruneSame(was, nodes, t, more, cap);
        Prune(t, layer, cap);
        ConnectOne(was, g1, nodes, node, targets, k, layer, cap);
      }
      assert targets[..|targets|] == targets;
    }

    /** The layer is sampled from a hash in the source; here it is any number. */
    method Add(id: string, vector: Vector, layer: nat)
      requires Valid()
      modifies this`nodes, this`entry
      ensures Valid()
      ensures Inserting(old(nodes), nodes, Item(id, vector), layer, 0)
      ensures old(entry).None? ==> nodes == WithNode([], Item(id, vector), layer)
      ensures old(entry).Some? && old(entry).value < |old(nodes)| && |old(nodes)[old(entry).value].neighbors| > 0 ==>
                InsertedBy(old(nodes), nodes, m, efConstruction, Item(id, vector), layer,
                           |old(nodes)[old(entry).value].neighbors| - 1)
      ensures Contents(nodes) == old(Contents(nodes)) + [Item(id, vector)]
    {
      hide AllSound, Whole, Inserting, Connected, Fresh, BeamResult, LayerClosed, Reach, EntryOnTop, Contents, Links;
      hide LayersInserted, TargetsOf, LocalBest;
      ghost var g0, item := nodes, Item(id, vector);
      OldEntry(g0, entry);
      var idx := |nodes|;
      nodes := nodes + [HnswNode(id, vector, seq(layer + 1, _ => []))];
      Pushed(g0, m, item, layer);
      if entry.None? {
        entry := Some(idx);
        FewerToDo(g0, nodes, item, layer, layer + 1, 0);
        InsertedContents(g0, nodes, item, layer, 0);
        LoneWhole(nodes, m);
        FirstEntry(nodes);
        return;
      }
      var query := vector;
      var top := |nodes[entry.value].neighbors| - 1;
      var ep: nat := entry.value;
      ghost var pushed := nodes;
      for l := (if layer < top then top else layer) + 1 downto layer + 1
        invariant nodes == pushed && entry == old(entry)
        invariant ep < idx && HasLayer(g0, ep, if l - 1 < top then l - 1 else top)
        invariant l <= top ==> LocalBest(query, nodes, ep, l)
      {
        SoundIsClosed(nodes, m, l);
        OldLayers(g0, nodes, item, layer, layer + 1, ep, l);
        ep := GreedyStep(nodes, query, ep, l);
        IsLocalBest(query, nodes, ep, l);
        OldLayers(g0, nodes, item, layer, layer + 1, ep, l);
      }
      var low := if layer < top then layer else top;
      FewerToDo(g0, nodes, item, layer, layer + 1, low + 1);
      ghost var start := ep;
      assert layer < top ==> LocalBest(query, WithNode(g0, item, layer), start, layer + 1);
      NoLayerInserted(nodes, m, efConstruction, query, idx, low + 1, ep);
      for l := low + 1 downto 0
        invariant entry == old(entry)
        invariant |nodes| == idx + 1 && Inserting(g0, nodes, item, layer, l) && AllSound(nodes, m)
        invariant ep < idx && HasLayer(g0, ep, if l == 0 then 0 else l - 1)
        invariant LayersInserted(pushed, nodes, m, efConstruction, query, idx, low + 1, l, start, ep)
        invariant l == 0 && |nodes| <= 2 * m + 1 ==> Whole(nodes)
      {
        SoundIsClosed(nodes, m, l);
        OldLayers(g0, nodes, item, layer, l + 1, ep, l);
        ghost var from := ep;
        var found, visited := SearchLayer(nodes, query, ep, efConstruction, l);
        NearestIsOld(g0, nodes, m, query, item, layer, l, ep, efConstruction, visited, found);
        ep := found[0].item;
        var count := if Cap(m, l) < |found| then Cap(m, l) else |found|;
        var targets := ItemSeq(Take(found, count));
        CountedTargets(m, l, found, count);
        TargetsFresh(g0, nodes, m, query, item, layer, l, from, efConstruction, visited, found, targets);
        ghost var g := nodes;
        Connect(idx, targets, l);
        LayerDone(g0, g, nodes, m, item, layer, l, targets);
        OneLayerInserted(pushed, g, nodes, m, efConstruction, query, idx, low + 1, l, start, from, visited, found);
      }
      assert low == Lower(layer, top);
      assert InsertedFrom(g0, nodes, m, efConstruction, item, layer, Lower(layer, top), start, ep);
      InsertedContents(g0, nodes, item, layer, 0);
      InsertedEntry(g0, nodes, item, layer, entry.value);
      if layer > top {
        entry := Some(idx);
      }
    }

    /** The k nearest by descending greedily and then searching layer 0. With
        enough width on an unpruned store this is what exact search shows. */
    method Knn(query: Vector, k: nat) returns (hits: seq<Scored<string>>, ghost found: Beam, ghost visited: set<nat>)
      requires Valid()
      ensures |found| <= |nodes| && forall i | 0 <= i < |found| :: found[i].item < |nodes|
      ensures hits == Take(Named(nodes, found), k)
      ensures nodes == [] ==> hits == []
      ensures nodes != [] ==> exists ep: nat ::
                && ep < |nodes| && BeamResult(query, nodes, ep, Wider(efSearch, k), 0, visited, found)
                && (entry.Some? && entry.value < |nodes| && |nodes[entry.value].neighbors| > 1 ==>
                      LocalBest(query, nodes, ep, 1))
      ensures |nodes| <= 2 * m + 1 && (|nodes| <= efSearch || |nodes| <= k) ==>
                && Sims(hits) == Sims(Exact(query, Contents(nodes), k))
                && (DistinctSims(Score(query, Contents(nodes))) ==> hits == Exact(query, Contents(nodes), k))
    {
      hide AllSound, Whole, BeamResult, LayerClosed, Reach, EntryOnTop, Contents, Links, Exact, Sims, Score,
           DistinctSims, Items, LocalBest;
      OldEntry(nodes, entry);
      if entry.None? {
        hits, found, visited := [], [], {};
        NothingStored(query, k);
        return;
      }
      var ep: nat := entry.value;
      for l := |nodes[entry.value].neighbors| downto 1
        invariant HasLayer(nodes, ep, l - 1)
        invariant l < |nodes[entry.value].neighbors| ==> LocalBest(query, nodes, ep, l)
      {
        SoundIsClosed(nodes, m, l);
        ep := GreedyStep(nodes, query, ep, l);
        IsLocalBest(query, nodes, ep, l);
      }
      SoundIsClosed(nodes, m, 0);
      var ef := Wider(efSearch, k);
      var r;
      r, visited := SearchLayer(nodes, query, ep, ef, 0);
      found := r;
      FoundFits(query, nodes, ep, ef, visited, r);
      hits := Named(nodes, Take(r, k));
      if |nodes| <= 2 * m + 1 && |nodes| <= ef {
        WholeIsExact(query, nodes, ep, ef, k, visited, r);
      }
    }
  }
}
