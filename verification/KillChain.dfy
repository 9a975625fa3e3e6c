/** Causal graphs over time-ordered events, and the beam search that assembles the
    kill-chain. */
module KillChain {
  import opened VectorCore
  import opened Sorting

  datatype Node = Node(eventId: string, ts: int, anomaly: real)

  datatype Edge = Edge(from: nat, to: nat, score: real)

  datatype Graph = Graph(nodes: seq<Node>, edges: seq<Edge>)

  /** A partial path and its score. */
  type Entry = Scored<seq<nat>>

  ghost predicate WellFormed(g: Graph) {
    forall k | 0 <= k < |g.edges| :: g.edges[k].from < |g.nodes| && g.edges[k].to < |g.nodes|
  }

  function Bonus(g: Graph, i: nat): real
    requires i < |g.nodes|
  {
    g.nodes[i].anomaly * 0.1
  }

  function Last(path: seq<nat>): nat
    requires path != []
  {
    path[|path| - 1]
  }

  // --- chains ---------------------------------------------------------------------------------

  /** A path along edges that visits no node twice, with its exact score: the scores of
      its edges and the bonuses of its nodes. */
  ghost predicate Chain(g: Graph, path: seq<nat>, score: real)
    decreases |path|
  {
    && path != [] && Last(path) < |g.nodes|
    && if |path| == 1 then score == Bonus(g, path[0])
       else
         var init := path[..|path| - 1];
         Last(path) !in init && exists e | e in g.edges ::
           e.from == Last(init) && e.to == Last(path) && Chain(g, init, score - e.score - Bonus(g, Last(path)))
  }

  ghost predicate Simple(path: seq<nat>) {
    forall i, j | 0 <= i < j < |path| :: path[i] != path[j]
  }

  ghost predicate Along(g: Graph, path: seq<nat>, used: seq<Edge>) {
    && |used| + 1 == |path|
    && forall k | 0 <= k < |used| :: used[k] in g.edges && used[k].from == path[k] && used[k].to == path[k + 1]
  }

  function Bonuses(g: Graph, path: seq<nat>): real
    requires forall k | 0 <= k < |path| :: path[k] < |g.nodes|
  {
    if path == [] then 0.0 else Bonuses(g, path[..|path| - 1]) + Bonus(g, Last(path))
  }

  function Scores(used: seq<Edge>): real {
    if used == [] then 0.0 else Scores(used[..|used| - 1]) + used[|used| - 1].score
  }

  lemma LastStep(g: Graph, path: seq<nat>, score: real) returns (e: Edge)
    requires Chain(g, path, score) && |path| > 1
    ensures var init := path[..|path| - 1];
            && path == init + [Last(path)] && Last(path) !in init && Last(path) < |g.nodes|
            && e in g.edges && e.from == Last(init) && e.to == Last(path)
            && Chain(g, init, score - e.score - Bonus(g, Last(path)))
  {
    var init := path[..|path| - 1];
    e :| e in g.edges && e.from == Last(init) && e.to == Last(path) &&
    Chain(g, init, score - e.score - Bonus(g, Last(path)));
  }

  lemma OneNode(g: Graph, path: seq<nat>, score: real)
    requires Chain(g, path, score)
    ensures path != [] && Last(path) < |g.nodes|
    ensures |path| == 1 ==> path[0] < |g.nodes| && score == Bonus(g, path[0]) == Bonuses(g, path)
  {
    if |path| == 1 {
      assert path[..0] == [];
    }
  }

  lemma OneMoreNode(g: Graph, init: seq<nat>, last: nat, used: seq<Edge>, e: Edge)
    requires init != [] && Simple(init) && Along(g, init, used) && forall k | 0 <= k < |init| :: init[k] < |g.nodes|
    requires last !in init && last < |g.nodes| && e in g.edges && e.from == Last(init) && e.to == last
    ensures Simple(init + [last]) && Along(g, init + [last], used + [e])
    ensures forall k | 0 <= k < |init + [last]| :: (init + [last])[k] < |g.nodes|
    ensures Bonuses(g, init + [last]) == Bonuses(g, init) + Bonus(g, last)
    ensures Scores(used + [e]) == Scores(used) + e.score
  {
    var path, all := init + [last], used + [e];
    assert path[..|path| - 1] == init && all[..|all| - 1] == used;
    hide Bonus;
    forall k | 0 <= k < |all| ensures all[k] in g.edges && all[k].from == path[k] && all[k].to == path[k + 1] {
      if k < |used| {
        assert used[k] in g.edges && used[k].from == init[k] && used[k].to == init[k + 1];
      }
    }
  }

  /** A chain is a simple path inside the graph whose score is the sum over some edges
      along it and its nodes. */
  lemma {:induction false} ChainIsPath(g: Graph, path: seq<nat>, score: real) returns (used: seq<Edge>)
    requires Chain(g, path, score)
    ensures Simple(path) && Along(g, path, used) && forall k | 0 <= k < |path| :: path[k] < |g.nodes|
    ensures path != [] && score == Scores(used) + Bonuses(g, path)
    decreases |path|
  {
    hide Chain, Bonus, Bonuses, Scores, Along, Simple;
    OneNode(g, path, score);
    if |path| == 1 {
      used := [];
      SinglePath(g, path);
    } else {
      var e := LastStep(g, path, score);
      var before := ChainIsPath(g, path[..|path| - 1], score - e.score - Bonus(g, Last(path)));
      OneMoreNode(g, path[..|path| - 1], Last(path), before, e);
      used := before + [e];
    }
  }

  lemma SinglePath(g: Graph, path: seq<nat>)
    requires |path| == 1
    ensures Simple(path) && Along(g, path, []) && Scores([]) == 0.0
  {
  }

  /** And the other way round. */
  lemma {:induction false} PathIsChain(g: Graph, path: seq<nat>, used: seq<Edge>)
    requires path != [] && Simple(path) && Along(g, path, used) && forall k | 0 <= k < |path| :: path[k] < |g.nodes|
    ensures Chain(g, path, Scores(used) + Bonuses(g, path))
    decreases |path|
  {
    var init := path[..|path| - 1];
    if |path| == 1 {
      assert path[..0] == [];
    } else {
      var before, e := used[..|used| - 1], used[|used| - 1];
      assert e in g.edges && e.from == path[|path| - 2] && e.to == path[|path| - 2 + 1];
      forall k | 0 <= k < |before|
        ensures before[k] in g.edges && before[k].from == init[k] && before[k].to == init[k + 1]
      {
        assert used[k] in g.edges && used[k].from == path[k] && used[k].to == path[k + 1];
      }
      PathIsChain(g, init, before);
      var score := Scores(used) + Bonuses(g, path);
      assert Scores(before) + Bonuses(g, init) == score - e.score - Bonus(g, Last(path));
    }
  }

  // --- one round -----------------------------------------------------------------------------------

  predicate CanExtend(x: Entry, e: Edge) {
    x.item != [] && e.from == Last(x.item) && e.to !in x.item
  }

  function Extended(g: Graph, x: Entry, e: Edge): Entry
    requires e.to < |g.nodes|
  {
    Scored(x.item + [e.to], x.sim + e.score + Bonus(g, e.to))
  }

  /** All ways to go on from one entry over the first k edges, in edge order. */
  function FromOne(g: Graph, x: Entry, k: nat): (r: seq<Entry>)
    requires WellFormed(g) && k <= |g.edges|
  {
    if k == 0 then []
    else FromOne(g, x, k - 1) + (if CanExtend(x, g.edges[k - 1]) then [Extended(g, x, g.edges[k - 1])] else [])
  }

  /** All candidates of a round. */
  function Extensions(g: Graph, beam: seq<Entry>): seq<Entry>
    requires WellFormed(g)
  {
    if beam == [] then []
    else Extensions(g, beam[..|beam| - 1]) + FromOne(g, beam[|beam| - 1], |g.edges|)
  }

  lemma {:induction false} FromOneHolds(g: Graph, x: Entry, k: nat, y: Entry)
    requires WellFormed(g) && k <= |g.edges|
    ensures y in FromOne(g, x, k) <==>
              exists j | 0 <= j < k :: CanExtend(x, g.edges[j]) && y == Extended(g, x, g.edges[j])
  {
    if k > 0 {
      FromOneHolds(g, x, k - 1, y);
    }
  }

  ghost predicate ExtendsSome(g: Graph, beam: seq<Entry>, y: Entry)
    requires WellFormed(g)
  {
    exists x | x in beam :: y in FromOne(g, x, |g.edges|)
  }

  lemma {:induction false} ExtensionsHold(g: Graph, beam: seq<Entry>, y: Entry)
    requires WellFormed(g)
    ensures y in Extensions(g, beam) <==> ExtendsSome(g, beam, y)
  {
    if beam != [] {
      var init, last := beam[..|beam| - 1], beam[|beam| - 1];
      ExtensionsHold(g, init, y);
      hide FromOne;
      assert beam == init + [last];
      if x :| x in init && y in FromOne(g, x, |g.edges|) {
        assert x in beam;
      }
      if y in FromOne(g, last, |g.edges|) {
        assert last in beam;
      }
    }
  }

  /** Every entry is a chain of the given length. */
  ghost predicate AllChains(g: Graph, beam: seq<Entry>, length: nat) {
    forall x | x in beam :: |x.item| == length && Chain(g, x.item, x.sim)
  }

  /** Every chain of the given length is an entry. */
  ghost predicate HoldsAll(g: Graph, beam: seq<Entry>, length: nat) {
    forall path, score | Chain(g, path, score) && |path| == length :: Scored(path, score) in beam
  }

  lemma ExtendedIsChain(g: Graph, x: Entry, e: Edge)
    requires WellFormed(g) && e in g.edges && CanExtend(x, e) && Chain(g, x.item, x.sim) && e.to < |g.nodes|
    ensures Chain(g, Extended(g, x, e).item, Extended(g, x, e).sim)
  {
    var y := Extended(g, x, e);
    assert y.item[..|y.item| - 1] == x.item;
    assert y.sim - e.score - Bonus(g, e.to) == x.sim;
  }

  lemma ExtensionsAreChains(g: Graph, beam: seq<Entry>, length: nat)
    requires WellFormed(g) && AllChains(g, beam, length)
    ensures AllChains(g, Extensions(g, beam), length + 1)
  {
    forall y | y in Extensions(g, beam) ensures |y.item| == length + 1 && Chain(g, y.item, y.sim) {
      ExtensionsHold(g, beam, y);
      var x :| x in beam && y in FromOne(g, x, |g.edges|);
      FromOneHolds(g, x, |g.edges|, y);
      var j :| 0 <= j < |g.edges| && CanExtend(x, g.edges[j]) && y == Extended(g, x, g.edges[j]);
      hide Chain;
      ExtendedIsChain(g, x, g.edges[j]);
    }
  }

  /** If no chain of a length is missing, no chain of the next length is missing from
      its candidates. */
  lemma ExtensionsHoldAll(g: Graph, beam: seq<Entry>, length: nat)
    requires WellFormed(g) && HoldsAll(g, beam, length) && length >= 1
    ensures HoldsAll(g, Extensions(g, beam), length + 1)
  {
    forall path, score | Chain(g, path, score) && |path| == length + 1
      ensures Scored(path, score) in Extensions(g, beam)
    {
      var init := path[..|path| - 1];
      var e :| e in g.edges && e.from == Last(init) && e.to == Last(path) &&
          Chain(g, init, score - e.score - Bonus(g, Last(path)));
      var x := Scored(init, score - e.score - Bonus(g, Last(path)));
      assert x in beam;
      var j :| 0 <= j < |g.edges| && g.edges[j] == e;
      hide Chain, HoldsAll;
      assert path == init + [e.to];
      assert CanExtend(x, e) && Extended(g, x, e) == Scored(path, score);
      FromOneHolds(g, x, |g.edges|, Scored(path, score));
      assert ExtendsSome(g, beam, Scored(path, score));
      ExtensionsHold(g, beam, Scored(path, score));
    }
  }

  // --- the rounds ------------------------------------------------------------------------------------

  function Singles(g: Graph): seq<Entry> {
    seq(|g.nodes|, i requires 0 <= i < |g.nodes| => Scored([i], Bonus(g, i)))
  }

  /** The beam after k rounds. */
  ghost function BeamAfter(g: Graph, width: nat, k: nat): seq<Entry>
    requires WellFormed(g)
  {
    if k == 0 then Singles(g) else Take(SortDescending(Extensions(g, BeamAfter(g, width, k - 1))), width)
  }

  /** No round has more candidates than the beam keeps. */
  ghost predicate NothingCut(g: Graph, width: nat)
    requires WellFormed(g)
  {
    forall k: nat :: |Extensions(g, BeamAfter(g, width, k))| <= width
  }

  /** The best entry so far: nothing seen up to round k is better. */
  ghost predicate BestSeen(g: Graph, width: nat, k: nat, best: Entry)
    requires WellFormed(g)
  {
    && Chain(g, best.item, best.sim)
    && (forall x | x in Singles(g) :: x.sim <= best.sim)
    && (forall j: nat, x | j < k && x in Extensions(g, BeamAfter(g, width, j)) :: x.sim <= best.sim)
  }

  lemma SinglesAreAll(g: Graph)
    ensures AllChains(g, Singles(g), 1) && HoldsAll(g, Singles(g), 1)
  {
    forall path, score | Chain(g, path, score) && |path| == 1 ensures Scored(path, score) in Singles(g) {
      assert path == [path[0]];
      assert Singles(g)[path[0]] == Scored(path, score);
    }
  }

  /** Cutting a sorted round keeps entries of the round, all of them if they fit. */
  lemma CutRound(round: seq<Entry>, width: nat)
    ensures forall x | x in Take(SortDescending(round), width) :: x in round
    ensures |round| <= width ==> forall x | x in round :: x in Take(SortDescending(round), width)
  {
    var sorted := SortDescending(round);
    hide SortDescending;
    forall x | x in sorted ensures x in round {
      assert x in multiset(sorted);
    }
    forall x | x in round ensures x in sorted {
      assert x in multiset(round);
    }
  }

  /** Each round keeps as many candidates as the width allows, best first, and drops
      nothing better than what it keeps. */
  lemma BeamKeepsBest(g: Graph, width: nat, k: nat) returns (dropped: seq<Entry>)
    requires WellFormed(g) && k >= 1
    ensures var round, beam := Extensions(g, BeamAfter(g, width, k - 1)), BeamAfter(g, width, k);
            && |beam| == (if width < |round| then width else |round|) && Descending(beam)
            && multiset(beam + dropped) == multiset(round)
            && forall i, j | 0 <= i < |beam| && 0 <= j < |dropped| :: beam[i].sim >= dropped[j].sim
  {
    hide *;
    var round := Extensions(g, BeamAfter(g, width, k - 1));
    SortDescends(round);
    BeamIsCut(g, width, k);
    dropped := CutOffAt(SortDescending(round), width);
  }

  lemma CutOffAt(sorted: seq<Entry>, width: nat) returns (dropped: seq<Entry>)
    requires Descending(sorted)
    ensures |Take(sorted, width)| == (if width < |sorted| then width else |sorted|) && Descending(Take(sorted, width))
    ensures multiset(Take(sorted, width) + dropped) == multiset(sorted)
    ensures forall i, j | 0 <= i < |Take(sorted, width)| && 0 <= j < |dropped| ::
              Take(sorted, width)[i].sim >= dropped[j].sim
  {
    var beam := Take(sorted, width);
    dropped := sorted[|beam|..];
    assert sorted == beam + dropped;
    forall i, j | 0 <= i < |beam| && 0 <= j < |dropped| ensures beam[i].sim >= dropped[j].sim {
      assert sorted[i] == beam[i] && sorted[|beam| + j] == dropped[j];
    }
  }

  lemma BeamIsCut(g: Graph, width: nat, k: nat)
    requires WellFormed(g) && k >= 1
    ensures BeamAfter(g, width, k) == Take(SortDescending(Extensions(g, BeamAfter(g, width, k - 1))), width)
  {
  }

  lemma {:induction false} BeamIsChains(g: Graph, width: nat, k: nat)
    requires WellFormed(g)
    ensures AllChains(g, BeamAfter(g, width, k), k + 1)
    ensures NothingCut(g, width) ==> HoldsAll(g, BeamAfter(g, width, k), k + 1)
  {
    hide Chain, Extensions, SortDescending, Take, Singles, WellFormed;
    if k == 0 {
      SinglesAreAll(g);
    } else {
      BeamIsChains(g, width, k - 1);
      var beam := BeamAfter(g, width, k - 1);
      ExtensionsAreChains(g, beam, k);
      if NothingCut(g, width) {
        ExtensionsHoldAll(g, beam, k);
      }
      CutRound(Extensions(g, beam), width);
    }
  }

  /** A chain cannot be longer than the graph has nodes. */
  lemma ChainFits(g: Graph, path: seq<nat>, score: real)
    requires Chain(g, path, score)
    ensures |path| <= |g.nodes|
  {
    var _ := ChainIsPath(g, path, score);
    Pigeonhole(path, |g.nodes|);
  }

  lemma FirstBelow(path: seq<nat>, n: nat)
    requires path != [] && forall k | 0 <= k < |path| :: path[k] < n
    ensures n > 0
  {
    assert path[0] < n;
  }

  lemma {:induction false} Pigeonhole(path: seq<nat>, n: nat)
    requires Simple(path) && forall k | 0 <= k < |path| :: path[k] < n
    ensures |path| <= n
  {
    if path != [] {
      FirstBelow(path, n);
    }
    if n == 0 {
    } else if n - 1 in path {
      var k :| 0 <= k < |path| && path[k] == n - 1;
      var rest := path[..k] + path[k + 1..];
      Pigeonhole(rest, n - 1);
    } else {
      Pigeonhole(path, n - 1);
    }
  }

  /** A longer chain starts with a chain. */
  lemma {:induction false} ChainPrefix(g: Graph, path: seq<nat>, score: real, length: nat) returns (s: real)
    requires Chain(g, path, score) && 1 <= length <= |path|
    ensures Chain(g, path[..length], s)
    decreases |path|
  {
    if length == |path| {
      assert path[..length] == path;
      s := score;
    } else {
      var init := path[..|path| - 1];
      var e :| e in g.edges && e.from == Last(init) && e.to == Last(path) &&
          Chain(g, init, score - e.score - Bonus(g, Last(path)));
      s := ChainPrefix(g, init, score - e.score - Bonus(g, Last(path)), length);
      assert init[..length] == path[..length];
    }
  }

  lemma IsIn(g: Graph, beam: seq<Entry>, length: nat, path: seq<nat>, score: real)
    requires HoldsAll(g, beam, length) && Chain(g, path, score) && |path| == length
    ensures Scored(path, score) in beam
  {
  }

  /** Without cuts the candidates of round k are all chains of k + 2 nodes. */
  lemma RoundHoldsAll(g: Graph, width: nat, k: nat)
    requires WellFormed(g) && NothingCut(g, width)
    ensures HoldsAll(g, Extensions(g, BeamAfter(g, width, k)), k + 2)
  {
    hide *;
    BeamIsChains(g, width, k);
    ExtensionsHoldAll(g, BeamAfter(g, width, k), k + 1);
  }

  /** When the rounds end and nothing was cut, every chain was seen. */
  lemma AllSeen(g: Graph, width: nat, rounds: nat, best: Entry, path: seq<nat>, score: real)
    requires WellFormed(g) && NothingCut(g, width) && BestSeen(g, width, rounds, best)
    requires Extensions(g, BeamAfter(g, width, rounds)) == [] && Chain(g, path, score)
    ensures score <= best.sim
  {
    hide WellFormed, NothingCut, Extensions, BeamAfter, Chain, HoldsAll, AllChains, Singles, Bonus;
    OneNode(g, path, score);
    if |path| == 1 {
      SinglesAreAll(g);
      IsIn(g, Singles(g), 1, path, score);
      assert Scored(path, score) in Singles(g);
    } else if |path| >= rounds + 2 {
      RoundHoldsAll(g, width, rounds);
      var s := ChainPrefix(g, path, score, rounds + 2);
      IsIn(g, Extensions(g, BeamAfter(g, width, rounds)), rounds + 2, path[..rounds + 2], s);
    } else {
      var j: nat := |path| - 2;
      RoundHoldsAll(g, width, j);
      IsIn(g, Extensions(g, BeamAfter(g, width, j)), j + 2, path, score);
      assert Scored(path, score) in Extensions(g, BeamAfter(g, width, j));
    }
  }

  // --- the search -----------------------------------------------------------------------------------------

  datatype AttackChain = AttackChain(path: seq<nat>, score: real)

  /** All candidates of one round, in beam order. */
  method Round(g: Graph, beam: seq<Entry>) returns (candidates: seq<Entry>)
    requires WellFormed(g) && forall i | 0 <= i < |beam| :: beam[i].item != []
    ensures candidates == Extensions(g, beam)
  {
    candidates := [];
    for i := 0 to |beam|
      invariant candidates == Extensions(g, beam[..i])
    {
      assert beam[..i + 1][..i] == beam[..i];
      var path, score := beam[i].item, beam[i].sim;
      var last := path[|path| - 1];
      ghost var before := candidates;
      for k := 0 to |g.edges|
        invariant candidates == before + FromOne(g, beam[i], k)
      {
        var edge := g.edges[k];
        if edge.from == last && edge.to !in path {
          candidates := candidates + [Scored(path + [edge.to], score + edge.score + Bonus(g, edge.to))];
        }
      }
    }
    assert beam[..|beam|] == beam;
  }

  /** The first strictly better candidate at each step. */
  method Improve(best: Entry, candidates: seq<Entry>) returns (r: Entry)
    ensures r == best || r in candidates
    ensures best.sim <= r.sim && forall c | c in candidates :: c.sim <= r.sim
    ensures r.sim == best.sim ==> r == best
  {
    r := best;
    for i := 0 to |candidates|
      invariant r == best || r in candidates
      invariant best.sim <= r.sim && forall c | c in candidates[..i] :: c.sim <= r.sim
      invariant r.sim == best.sim ==> r == best
    {
      assert candidates[..i + 1] == candidates[..i] + [candidates[i]];
      if candidates[i].sim > r.sim {
        r := candidates[i];
      }
    }
    assert candidates[..|candidates|] == candidates;
  }

  /** Ends with a chain of the graph, the best of all chains it looked at; the best of
      all chains if no round had to be cut. */
  method BeamSearch(g: Graph, width: nat) returns (r: AttackChain, ghost rounds: nat)
    requires WellFormed(g)
    ensures g.nodes == [] ==> r == AttackChain([], 0.0)
    ensures g.nodes != [] ==>
              && rounds < |g.nodes| && Extensions(g, BeamAfter(g, width, rounds)) == []
              && BestSeen(g, width, rounds, Scored(r.path, r.score))
              && (NothingCut(g, width) ==> forall path, score | Chain(g, path, score) :: score <= r.score)
  {
    hide Chain, Extensions, SortDescending, NothingCut, BestSeen, AllChains, HoldsAll;
    rounds := 0;
    if |g.nodes| == 0 {
      return AttackChain([], 0.0), 0;
    }
    var beam := Singles(g);
    var best := beam[BestAt(beam)];
    StartsBest(g, width, best);
    while true
      invariant beam == BeamAfter(g, width, rounds) && rounds < |g.nodes| && BestSeen(g, width, rounds, best)
      decreases |g.nodes| - rounds
    {
      Paths(g, width, rounds);
      var candidates := Round(g, beam);
      if candidates == [] {
        break;
      }
      RoundFits(g, width, rounds);
      var better := Improve(best, candidates);
      StaysBest(g, width, rounds, best, better);
      best := better;
      candidates := SortDescending(candidates);
      beam := Take(candidates, width);
      rounds := rounds + 1;
    }
    if NothingCut(g, width) {
      forall path, score | Chain(g, path, score) ensures score <= best.sim {
        AllSeen(g, width, rounds, best, path, score);
      }
    }
    r := AttackChain(best.item, best.sim);
  }

  lemma StartsBest(g: Graph, width: nat, best: Entry)
    requires WellFormed(g) && g.nodes != [] && best == Singles(g)[BestAt(Singles(g))]
    ensures BestSeen(g, width, 0, best)
  {
    SinglesAreAll(g);
    assert best in Singles(g);
  }

  lemma Paths(g: Graph, width: nat, k: nat)
    requires WellFormed(g)
    ensures forall i | 0 <= i < |BeamAfter(g, width, k)| :: BeamAfter(g, width, k)[i].item != []
  {
    BeamIsChains(g, width, k);
    hide BeamAfter;
    forall i | 0 <= i < |BeamAfter(g, width, k)| ensures BeamAfter(g, width, k)[i].item != [] {
      assert BeamAfter(g, width, k)[i] in BeamAfter(g, width, k);
    }
  }

  /** A round with candidates is not the last possible one. */
  lemma RoundFits(g: Graph, width: nat, k: nat)
    requires WellFormed(g) && Extensions(g, BeamAfter(g, width, k)) != []
    ensures k + 1 < |g.nodes|
  {
    BeamIsChains(g, width, k);
    ExtensionsAreChains(g, BeamAfter(g, width, k), k + 1);
    var c := Extensions(g, BeamAfter(g, width, k))[0];
    assert c in Extensions(g, BeamAfter(g, width, k));
    ChainFits(g, c.item, c.sim);
  }

  lemma CandidateIsChain(g: Graph, width: nat, k: nat, c: Entry)
    requires WellFormed(g) && c in Extensions(g, BeamAfter(g, width, k))
    ensures Chain(g, c.item, c.sim)
  {
    hide Chain, Extensions, BeamAfter;
    BeamIsChains(g, width, k);
    ExtensionsAreChains(g, BeamAfter(g, width, k), k + 1);
  }

  lemma StaysBest(g: Graph, width: nat, k: nat, best: Entry, better: Entry)
    requires WellFormed(g) && BestSeen(g, width, k, best) && best.sim <= better.sim
    requires better == best || better in Extensions(g, BeamAfter(g, width, k))
    requires forall c | c in Extensions(g, BeamAfter(g, width, k)) :: c.sim <= better.sim
    ensures BestSeen(g, width, k + 1, better)
  {
    hide Chain, Extensions, BeamAfter, Singles, WellFormed;
    if better != best {
      CandidateIsChain(g, width, k, better);
    }
    forall j: nat, x | j < k + 1 && x in Extensions(g, BeamAfter(g, width, j)) ensures x.sim <= better.sim {
      if j < k {
        assert x.sim <= best.sim;
      }
    }
  }

  // --- building the graph --------------------------------------------------------------------------------------

  /** An event of a campaign with its anomaly score and the entities it names. */
  datatype Event = Event(id: string, ts: int, anomaly: real, entities: seq<string>)

  function Time(e: Event): int {
    e.ts
  }

  predicate Shares(a: Event, b: Event) {
    exists k | 0 <= k < |a.entities| :: a.entities[k] in b.entities
  }

  predicate Causes(a: Event, b: Event, window: int) {
    b.ts - a.ts <= window && Shares(a, b)
  }

  /** Closer in time is closer to one, on a one-minute scale. */
  function TemporalScore(dt: int): (s: real)
    ensures 0.0 < s <= 1.0
  {
    var secs := (if dt < 0 then 0 else dt) as real / 1000000.0;
    var d := 1.0 + secs / 60.0;
    Reciprocal(d);
    1.0 / d
  }

  lemma Reciprocal(d: real)
    requires d >= 1.0
    ensures 0.0 < 1.0 / d <= 1.0
  {
  }

  function EdgeScore(a: Event, b: Event): real {
    var s := 0.45 + 0.25 * TemporalScore(b.ts - a.ts) + 0.30 * b.anomaly;
    if s < 1.0 then s else 1.0
  }

  function NodesOf(ordered: seq<Event>): seq<Node> {
    seq(|ordered|, i requires 0 <= i < |ordered| => Node(ordered[i].id, ordered[i].ts, ordered[i].anomaly))
  }

  /** The edges over the pairs before (i, j) in row order. */
  ghost predicate EdgesUpTo(ordered: seq<Event>, window: int, i: nat, j: nat, edges: seq<Edge>) {
    && (forall k | 0 <= k < |edges| ::
          var e := edges[k];
          && e.from < e.to < |ordered| && Before(e.from, e.to, i, j) && Causes(ordered[e.from], ordered[e.to], window)
          && e.score == EdgeScore(ordered[e.from], ordered[e.to]))
    && (forall a: nat, b: nat | a < b < |ordered| && Before(a, b, i, j) && Causes(ordered[a], ordered[b], window) ::
          Edge(a, b, EdgeScore(ordered[a], ordered[b])) in edges)
    && (forall k, l | 0 <= k < l < |edges| :: Before(edges[k].from, edges[k].to, edges[l].from, edges[l].to))
  }

  predicate Before(a: nat, b: nat, i: nat, j: nat) {
    a < i || (a == i && b < j)
  }

  /** Nodes in time order; an edge, once, for each earlier and later pair that is near
      in time and shares an entity. */
  ghost predicate Causal(events: seq<Event>, ordered: seq<Event>, window: int, g: Graph) {
    && multiset(ordered) == multiset(events) && OrderedBy(ordered, Time)
    && g.nodes == NodesOf(ordered) && EdgesUpTo(ordered, window, |ordered|, 0, g.edges)
  }

  method BuildCausalGraph(events: seq<Event>, window: int) returns (g: Graph, ghost ordered: seq<Event>)
    ensures Causal(events, ordered, window, g) && WellFormed(g)
    ensures ordered == SortBy(events, Time)
  {
    var sorted := SortBy(events, Time);
    SortByOrders(events, Time);
    ordered := sorted;
    hide SortBy, Causes, EdgeScore, EdgesUpTo;
    var edges: seq<Edge> := [];
    NoEdges(sorted, window);
    for i := 0 to |sorted|
      invariant EdgesUpTo(sorted, window, i, 0, edges)
    {
      RowStarts(sorted, window, i, edges);
      for j := i + 1 to |sorted|
        invariant EdgesUpTo(sorted, window, i, j, edges)
      {
        NextPair(sorted, window, i, j, edges);
        if Causes(sorted[i], sorted[j], window) {
          edges := edges + [Edge(i, j, EdgeScore(sorted[i], sorted[j]))];
        }
      }
      RowEnds(sorted, window, i, edges);
    }
    g := Graph(NodesOf(sorted), edges);
    EdgesFit(sorted, window, edges);
  }

  lemma NoEdges(ordered: seq<Event>, window: int)
    ensures EdgesUpTo(ordered, window, 0, 0, [])
  {
  }

  lemma RowStarts(ordered: seq<Event>, window: int, i: nat, edges: seq<Edge>)
    requires EdgesUpTo(ordered, window, i, 0, edges)
    ensures EdgesUpTo(ordered, window, i, i + 1, edges)
  {
    hide Causes, EdgeScore;
  }

  lemma RowEnds(ordered: seq<Event>, window: int, i: nat, edges: seq<Edge>)
    requires EdgesUpTo(ordered, window, i, |ordered|, edges)
    ensures EdgesUpTo(ordered, window, i + 1, 0, edges)
  {
    hide Causes, EdgeScore;
  }

  lemma NextPair(ordered: seq<Event>, window: int, i: nat, j: nat, edges: seq<Edge>)
    requires EdgesUpTo(ordered, window, i, j, edges) && i < j < |ordered|
    ensures Causes(ordered[i], ordered[j], window) ==>
              EdgesUpTo(ordered, window, i, j + 1, edges + [Edge(i, j, EdgeScore(ordered[i], ordered[j]))])
    ensures !Causes(ordered[i], ordered[j], window) ==> EdgesUpTo(ordered, window, i, j + 1, edges)
  {
    hide Causes, EdgeScore;
  }

  lemma EdgesFit(ordered: seq<Event>, window: int, edges: seq<Edge>)
    requires EdgesUpTo(ordered, window, |ordered|, 0, edges)
    ensures WellFormed(Graph(NodesOf(ordered), edges))
  {
    hide Causes, EdgeScore;
  }

  /** On a built graph every chain goes forward: positions rise and times do not
      fall. */
  lemma {:induction false} ChainsAreTimeOrdered(events: seq<Event>, ordered: seq<Event>, window: int, g: Graph,
                                                path: seq<nat>, score: real)
    requires Causal(events, ordered, window, g) && Chain(g, path, score)
    ensures forall k | 0 <= k < |path| :: path[k] < |g.nodes|
    ensures forall i, j | 0 <= i < j < |path| :: path[i] < path[j] && g.nodes[path[i]].ts <= g.nodes[path[j]].ts
  {
    var used := ChainIsPath(g, path, score);
    hide Chain, Simple;
    forall i, j | 0 <= i < j < |path| ensures path[i] < path[j] {
      Rising(ordered, window, g, path, used, i, j);
    }
    forall i, j | 0 <= i < j < |path| ensures g.nodes[path[i]].ts <= g.nodes[path[j]].ts {
      assert Time(ordered[path[i]]) <= Time(ordered[path[j]]);
    }
  }

  lemma {:induction false} Rising(ordered: seq<Event>, window: int, g: Graph, path: seq<nat>, used: seq<Edge>, i: nat,
                                  j: nat)
    requires EdgesUpTo(ordered, window, |ordered|, 0, g.edges) && Along(g, path, used) && i < j < |path|
    ensures path[i] < path[j]
    decreases j
  {
    assert used[j - 1] in g.edges;
    if i < j - 1 {
      Rising(ordered, window, g, path, used, i, j - 1);
    }
  }

  // --- what the edges mean for the events ------------------------------------------------------------

  lemma SharesExactly(a: Event, b: Event)
    ensures Shares(a, b) <==> exists x :: x in a.entities && x in b.entities
  {
    if x :| x in a.entities && x in b.entities {
      var k :| 0 <= k < |a.entities| && a.entities[k] == x;
    }
  }

  /** An earlier event is linked to a later one, once, exactly when the later one follows
      within the window and some entity occurs in both. */
  lemma LinkedExactly(events: seq<Event>, ordered: seq<Event>, window: int, g: Graph, a: nat, b: nat)
    requires Causal(events, ordered, window, g) && a < b < |ordered|
    ensures (exists k :: 0 <= k < |g.edges| && g.edges[k].from == a && g.edges[k].to == b) <==>
              ordered[b].ts <= ordered[a].ts + window &&
              exists x :: x in ordered[a].entities && x in ordered[b].entities
    ensures forall k, l | 0 <= k < l < |g.edges| :: (g.edges[k].from, g.edges[k].to) != (g.edges[l].from, g.edges[l].to)
  {
    SharesExactly(ordered[a], ordered[b]);
    hide Shares, EdgeScore;
    if Causes(ordered[a], ordered[b], window) {
      assert Edge(a, b, EdgeScore(ordered[a], ordered[b])) in g.edges;
      var k :| 0 <= k < |g.edges| && g.edges[k] == Edge(a, b, EdgeScore(ordered[a], ordered[b]));
    }
  }

  /** Next to each other on a chain: the later event follows within the window and names
      an entity of the earlier one. */
  lemma ChainsShareEntities(events: seq<Event>, ordered: seq<Event>, window: int, g: Graph, path: seq<nat>, score: real,
                            k: nat)
    requires Causal(events, ordered, window, g) && Chain(g, path, score) && k + 1 < |path|
    ensures path[k] < path[k + 1] < |ordered|
    ensures var a, b := ordered[path[k]], ordered[path[k + 1]];
            a.ts <= b.ts <= a.ts + window && exists x :: x in a.entities && x in b.entities
  {
    var used := ChainIsPath(g, path, score);
    assert used[k] in g.edges && used[k].from == path[k] && used[k].to == path[k + 1];
    hide Chain, Simple, EdgeScore, Shares;
    assert path[k] < path[k + 1] < |ordered| && Causes(ordered[path[k]], ordered[path[k + 1]], window);
    SharesExactly(ordered[path[k]], ordered[path[k + 1]]);
    assert Time(ordered[path[k]]) <= Time(ordered[path[k + 1]]);
  }

  /** The score of being near in time: 1 at once, a half after a minute. */
  lemma TemporalExactly(dt: int)
    requires dt >= 0
    ensures TemporalScore(dt) * (60000000 + dt) as real == 60000000.0
  {
    var x := dt as real / 60000000.0;
    assert dt as real / 1000000.0 / 60.0 == x;
    assert TemporalScore(dt) == 1.0 / (1.0 + x);
    assert (60000000 + dt) as real == 60000000.0 * (1.0 + x);
    Inverse(1.0 + x);
  }

  lemma Inverse(d: real)
    requires d >= 1.0
    ensures 1.0 / d * (60000000.0 * d) == 60000000.0
  {
    assert 1.0 / d * d == 1.0;
  }

  /** An edge's score: a base, a quarter for nearness and three tenths of the later
      event's anomaly, up to 1; the earlier event's anomaly does not count. */
  lemma EdgeScoreExactly(a: Event, b: Event, other: Event)
    ensures EdgeScore(a, b) <= 1.0
    ensures var x := 0.45 + 0.30 * b.anomaly + 0.25 * TemporalScore(b.ts - a.ts);
            if x <= 1.0 then EdgeScore(a, b) == x else EdgeScore(a, b) == 1.0
    ensures other.ts == a.ts ==> EdgeScore(other, b) == EdgeScore(a, b)
  {
  }

  /** The anomalies of a path's events, summed up. */
  function Anomalies(ordered: seq<Event>, path: seq<nat>): real
    requires forall k | 0 <= k < |path| :: path[k] < |ordered|
  {
    if path == [] then 0.0 else Anomalies(ordered, path[..|path| - 1]) + ordered[Last(path)].anomaly
  }

  lemma {:induction false} BonusesAreTenths(ordered: seq<Event>, g: Graph, path: seq<nat>)
    requires g.nodes == NodesOf(ordered) && forall k | 0 <= k < |path| :: path[k] < |ordered|
    ensures 10.0 * Bonuses(g, path) == Anomalies(ordered, path)
  {
    if path != [] {
      BonusesAreTenths(ordered, g, path[..|path| - 1]);
    }
  }

  /** The score of a chain of a built graph, in the events' own terms. */
  lemma ChainScore(events: seq<Event>, ordered: seq<Event>, window: int, g: Graph, path: seq<nat>, score: real)
    returns (used: seq<Edge>)
    requires Causal(events, ordered, window, g) && Chain(g, path, score)
    ensures |used| + 1 == |path|
    ensures forall k | 0 <= k < |path| ::
              path[k] < |ordered| && path[k] < |g.nodes| && g.nodes[path[k]].eventId == ordered[path[k]].id
    ensures forall k | 0 <= k < |used| :: used[k].score == EdgeScore(ordered[path[k]], ordered[path[k + 1]])
    ensures score == Scores(used) + 0.1 * Anomalies(ordered, path)
  {
    used := ChainIsPath(g, path, score);
    hide Chain, EdgeScore, Causes, Simple;
    BonusesAreTenths(ordered, g, path);
    forall k | 0 <= k < |used| ensures used[k].score == EdgeScore(ordered[path[k]], ordered[path[k + 1]]) {
      assert used[k] in g.edges;
    }
  }
}
