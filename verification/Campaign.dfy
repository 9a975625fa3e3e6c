/** Campaign candidates: windowed links between events, union-find over them, and the
    groups that come out. */
module Campaign {
  /** A link between two event positions, the smaller first. */
  type Link = (nat, nat)

  datatype Event = Event(id: string, ts: int, classUid: int, domain: string)

  // --- being joined by links ----------------------------------------------------------------

  ghost predicate Hop(links: set<Link>, i: nat, j: nat) {
    (i, j) in links || (j, i) in links
  }

  ghost predicate Trail(links: set<Link>, path: seq<nat>) {
    path != [] && forall k | 0 <= k < |path| - 1 :: Hop(links, path[k], path[k + 1])
  }

  ghost predicate Joined(links: set<Link>, i: nat, j: nat) {
    exists path :: Trail(links, path) && path[0] == i && path[|path| - 1] == j
  }

  lemma JoinedSelf(links: set<Link>, i: nat)
    ensures Joined(links, i, i)
  {
    assert Trail(links, [i]);
  }

  lemma JoinedHop(links: set<Link>, i: nat, j: nat, k: nat)
    requires Joined(links, i, j) && Hop(links, j, k)
    ensures Joined(links, i, k)
  {
    var path :| Trail(links, path) && path[0] == i && path[|path| - 1] == j;
    assert Trail(links, path + [k]);
  }

  /** A trail ends with a shorter trail and a hop. */
  lemma LastHop(links: set<Link>, path: seq<nat>)
    requires Trail(links, path) && |path| > 1
    ensures Trail(links, path[..|path| - 1]) && Hop(links, path[|path| - 2], path[|path| - 1])
  {
    assert Hop(links, path[|path| - 2], path[|path| - 2 + 1]);
    forall k | 0 <= k < |path| - 2 ensures Hop(links, path[k], path[k + 1]) {
    }
  }

  lemma {:induction false} TrailJoins(links: set<Link>, i: nat, path: seq<nat>)
    requires path != [] && Joined(links, i, path[0]) && Trail(links, path)
    ensures Joined(links, i, path[|path| - 1])
  {
    if |path| > 1 {
      LastHop(links, path);
      TrailJoins(links, i, path[..|path| - 1]);
      JoinedHop(links, i, path[|path| - 2], path[|path| - 1]);
    }
  }

  lemma JoinedThrough(links: set<Link>, i: nat, j: nat, k: nat)
    requires Joined(links, i, j) && Joined(links, j, k)
    ensures Joined(links, i, k)
  {
    var path :| Trail(links, path) && path[0] == j && path[|path| - 1] == k;
    TrailJoins(links, i, path);
  }

  lemma JoinedMore(links: set<Link>, more: set<Link>, i: nat, j: nat)
    requires Joined(links, i, j) && links <= more
    ensures Joined(more, i, j)
  {
    var path :| Trail(links, path) && path[0] == i && path[|path| - 1] == j;
    assert Trail(more, path);
  }

  /** What one more link can join: both ends must reach it. */
  ghost predicate Bridged(links: set<Link>, a: nat, b: nat, i: nat, j: nat) {
    || Joined(links, i, j)
    || (Joined(links, i, a) && Joined(links, b, j))
    || (Joined(links, i, b) && Joined(links, a, j))
  }

  lemma BridgedHop(links: set<Link>, a: nat, b: nat, i: nat, m: nat, j: nat)
    requires Bridged(links, a, b, i, m) && Hop(links + {(a, b)}, m, j)
    ensures Bridged(links, a, b, i, j)
  {
    hide Joined;
    JoinedSelf(links, a);
    JoinedSelf(links, b);
    if Hop(links, m, j) {
      if Joined(links, i, m) { JoinedHop(links, i, m, j); }
      if Joined(links, b, m) { JoinedHop(links, b, m, j); }
      if Joined(links, a, m) { JoinedHop(links, a, m, j); }
    } else {
      assert (m == a && j == b) || (m == b && j == a);
    }
  }

  lemma {:induction false} TrailBridged(links: set<Link>, a: nat, b: nat, path: seq<nat>)
    requires Trail(links + {(a, b)}, path)
    ensures Bridged(links, a, b, path[0], path[|path| - 1])
  {
    if |path| == 1 {
      JoinedSelf(links, path[0]);
    } else {
      LastHop(links + {(a, b)}, path);
      TrailBridged(links, a, b, path[..|path| - 1]);
      BridgedHop(links, a, b, path[0], path[|path| - 2], path[|path| - 1]);
    }
  }

  lemma OneMoreLink(links: set<Link>, a: nat, b: nat, i: nat, j: nat)
    ensures Joined(links + {(a, b)}, i, j) <==> Bridged(links, a, b, i, j)
  {
    var more := links + {(a, b)};
    if Joined(more, i, j) {
      var path :| Trail(more, path) && path[0] == i && path[|path| - 1] == j;
      TrailBridged(links, a, b, path);
    }
    if Bridged(links, a, b, i, j) {
      BridgeJoins(links, a, b, i, j);
    }
  }

  lemma BridgeJoins(links: set<Link>, a: nat, b: nat, i: nat, j: nat)
    requires Bridged(links, a, b, i, j)
    ensures Joined(links + {(a, b)}, i, j)
  {
    hide Joined;
    var more := links + {(a, b)};
    if Joined(links, i, j) {
      JoinedMore(links, more, i, j);
    } else if Joined(links, i, a) && Joined(links, b, j) {
      JoinedMore(links, more, i, a);
      JoinedMore(links, more, b, j);
      JoinedHop(more, i, a, b);
      JoinedThrough(more, i, b, j);
    } else {
      JoinedMore(links, more, i, b);
      JoinedMore(links, more, a, j);
      JoinedHop(more, i, b, a);
      JoinedThrough(more, i, a, j);
    }
  }

  // --- union-find -------------------------------------------------------------------------------

  /** `reps` names each element's representative; `rank` grows along parent links,
      below `top`. */
  ghost predicate Forest(p: seq<nat>, reps: seq<nat>, rank: seq<nat>, top: nat) {
    && |p| == |reps| == |rank|
    && forall x: nat | x < |p| :: InForest(p, reps, rank, top, x)
  }

  ghost predicate InForest(p: seq<nat>, reps: seq<nat>, rank: seq<nat>, top: nat, x: nat)
    requires |p| == |reps| == |rank| && x < |p|
  {
    && p[x] < |p| && reps[x] < |p| && rank[x] < top
    && reps[p[x]] == reps[x] && reps[reps[x]] == reps[x]
    && (p[x] == x <==> reps[x] == x)
    && (p[x] != x ==> rank[x] < rank[p[x]] && rank[x] < rank[reps[x]])
  }

  /** Shortening one path keeps the forest and its representatives. */
  lemma Compressed(p: seq<nat>, reps: seq<nat>, rank: seq<nat>, top: nat, cur: nat)
    requires Forest(p, reps, rank, top) && cur < |p| && p[cur] != reps[cur]
    ensures Forest(p[cur := reps[cur]], reps, rank, top)
  {
    var q := p[cur := reps[cur]];
    assert InForest(p, reps, rank, top, cur);
    forall x: nat | x < |q| ensures InForest(q, reps, rank, top, x) {
      assert InForest(p, reps, rank, top, x);
      assert InForest(p, reps, rank, top, reps[cur]);
    }
  }

  /** The representatives after joining two classes. */
  function Merge(reps: seq<nat>, a: nat, b: nat): seq<nat>
    requires a < |reps| && b < |reps|
  {
    seq(|reps|, i requires 0 <= i < |reps| => if reps[i] == reps[a] then reps[b] else reps[i])
  }

  /** Hanging one root under another keeps a forest. */
  lemma Merged(p: seq<nat>, reps: seq<nat>, rank: seq<nat>, top: nat, a: nat, b: nat)
    requires Forest(p, reps, rank, top) && a < |p| && b < |p| && reps[a] != reps[b]
    ensures InForest(p, reps, rank, top, a) && InForest(p, reps, rank, top, b)
    ensures Forest(p[reps[a] := reps[b]], Merge(reps, a, b), rank[reps[b] := top], top + 1)
  {
    assert InForest(p, reps, rank, top, a) && InForest(p, reps, rank, top, b);
    var ra, rb := reps[a], reps[b];
    assert InForest(p, reps, rank, top, ra) && InForest(p, reps, rank, top, rb);
    var q, reps', rank', top' := p[ra := rb], Merge(reps, a, b), rank[rb := top], top + 1;
    forall x: nat | x < |q| ensures InForest(q, reps', rank', top', x) {
      assert InForest(p, reps, rank, top, x);
      assert InForest(p, reps, rank, top, p[x]);
    }
  }

  class Dsu {
    const parent: array<nat>
    ghost var reps: seq<nat>
    ghost var rank: seq<nat>
    ghost var top: nat

    ghost predicate Valid()
      reads this, parent
    {
      Forest(parent[..], reps, rank, top)
    }

    constructor (n: nat)
      ensures Valid() && fresh(parent) && parent.Length == n
      ensures |reps| == n && forall i | 0 <= i < n :: reps[i] == i
    {
      parent := new nat[n](i => i);
      reps := seq(n, i => i);
      rank := seq(n, _ => 0);
      top := 1;
      new;
      forall x: nat | x < n ensures InForest(parent[..], reps, rank, top, x) {
      }
    }

    /** The representative of x; paths may get shorter, classes do not change. */
    method Find(x: nat) returns (root: nat)
      requires Valid() && x < parent.Length
      modifies parent
      ensures Valid() && root == reps[x] && root < parent.Length
    {
      hide Forest;
      root := x;
      Inside(x);
      while parent[root] != root
        invariant Valid() && root < parent.Length && |reps| == parent.Length
        invariant reps[root] == reps[x] && InForest(parent[..], reps, rank, top, root)
        decreases top - rank[root]
      {
        Inside(parent[root]);
        root := parent[root];
      }
      var cur: nat := x;
      Inside(x);
      while parent[cur] != root
        invariant Valid() && cur < parent.Length && |reps| == parent.Length && reps[cur] == root
        invariant root == reps[x] < parent.Length && InForest(parent[..], reps, rank, top, cur)
        decreases top - rank[cur]
      {
        var next := parent[cur];
        Compressed(parent[..], reps, rank, top, cur);
        ghost var shorter := parent[..][cur := root];
        Inside(next);
        parent[cur] := root;
        assert parent[..] == shorter;
        Inside(next);
        cur := next;
      }
    }

    lemma Inside(x: nat)
      requires Valid() && x < parent.Length
      ensures InForest(parent[..], reps, rank, top, x) && parent[x] < parent.Length && rank[x] < top
      ensures |reps| == |rank| == parent.Length && parent[..][x] == parent[x]
    {
    }

    /** Joins the classes of a and b and leaves all others. */
    method Union(a: nat, b: nat)
      requires Valid() && a < parent.Length && b < parent.Length
      modifies this`reps, this`rank, this`top, parent
      ensures Valid() && |old(reps)| == parent.Length && reps == Merge(old(reps), a, b)
    {
      hide Forest;
      Inside(a);
      var ra := Find(a);
      var rb := Find(b);
      Inside(a);
      if ra != rb {
        Merged(parent[..], reps, rank, top, a, b);
        ghost var hung := parent[..][ra := rb];
        parent[ra] := rb;
        assert parent[..] == hung;
        reps, rank, top := Merge(reps, a, b), rank[rb := top], top + 1;
      } else {
        assert reps == Merge(reps, a, b);
      }
    }
  }

  // --- groups --------------------------------------------------------------------------------------

  /** Representatives agree exactly for joined elements. */
  ghost predicate Represents(links: set<Link>, reps: seq<nat>) {
    forall i: nat, j: nat | i < |reps| && j < |reps| :: reps[i] == reps[j] <==> Joined(links, i, j)
  }

  lemma {:induction false} NothingJoined(path: seq<nat>)
    requires Trail({}, path)
    ensures path[0] == path[|path| - 1]
  {
    if |path| > 1 {
      LastHop({}, path);
    }
  }

  lemma RepresentsNone(reps: seq<nat>)
    requires forall i | 0 <= i < |reps| :: reps[i] == i
    ensures Represents({}, reps)
  {
    forall i: nat, j: nat | i < |reps| && j < |reps| ensures reps[i] == reps[j] <==> Joined({}, i, j) {
      JoinedSelf({}, i);
      if Joined({}, i, j) {
        var path :| Trail({}, path) && path[0] == i && path[|path| - 1] == j;
        NothingJoined(path);
      }
    }
  }

  lemma RepresentsMore(links: set<Link>, reps: seq<nat>, a: nat, b: nat)
    requires Represents(links, reps) && a < |reps| && b < |reps|
    ensures Represents(links + {(a, b)}, Merge(reps, a, b))
  {
    var reps' := Merge(reps, a, b);
    forall i: nat, j: nat | i < |reps| && j < |reps| ensures reps'[i] == reps'[j] <==> Joined(links + {(a, b)}, i, j) {
      OneMoreLink(links, a, b, i, j);
      hide Joined;
      assert (reps[i] == reps[j] <==> Joined(links, i, j)) && (reps[i] == reps[a] <==> Joined(links, i, a));
      assert (reps[b] == reps[j] <==> Joined(links, b, j)) && (reps[i] == reps[b] <==> Joined(links, i, b));
      assert reps[a] == reps[j] <==> Joined(links, a, j);
    }
  }

  /** The positions below i with representative r, in order. */
  function Where(reps: seq<nat>, r: nat, i: nat): (w: seq<nat>)
    requires i <= |reps|
    ensures forall k: nat :: k in w <==> k < i && reps[k] == r
    ensures Ascending(w)
  {
    if i == 0 then []
    else
      var w := Where(reps, r, i - 1);
      if reps[i - 1] == r then
        assert forall x | 0 <= x < |w| :: w[x] in w;
        w + [i - 1]
      else w
  }

  predicate Ascending(w: seq<nat>) {
    forall x, y | 0 <= x < y < |w| :: w[x] < w[y]
  }

  ghost predicate InSome(groups: map<nat, seq<nat>>, i: nat) {
    exists r :: r in groups && i in groups[r]
  }

  ghost predicate InGroup(groups: map<nat, seq<nat>>, r: nat, i: nat) {
    r in groups && i in groups[r]
  }

  /** Groups partition the positions, and two positions share a group exactly when
      they are joined by links. */
  ghost predicate ExactGroups(n: nat, links: set<Link>, groups: map<nat, seq<nat>>) {
    && (forall i: nat | i < n :: InSome(groups, i))
    && (forall r, i: nat | InGroup(groups, r, i) :: i < n)
    && (forall r, s, i: nat, j: nat | InGroup(groups, r, i) && InGroup(groups, s, j) :: r == s <==> Joined(links, i, j))
    && (forall r | r in groups :: groups[r] != [] && Ascending(groups[r]))
  }

  ghost predicate GroupedBy(reps: seq<nat>, i: nat, groups: map<nat, seq<nat>>)
    requires i <= |reps|
  {
    && (forall k | 0 <= k < i :: reps[k] in groups)
    && (forall r | r in groups :: groups[r] == Where(reps, r, i) && groups[r] != [])
  }

  lemma GroupMember(reps: seq<nat>, groups: map<nat, seq<nat>>, r: nat, i: nat)
    requires GroupedBy(reps, |reps|, groups) && InGroup(groups, r, i)
    ensures i < |reps| && reps[i] == r
  {
  }

  lemma OwnGroup(reps: seq<nat>, groups: map<nat, seq<nat>>, i: nat)
    requires GroupedBy(reps, |reps|, groups) && i < |reps|
    ensures InSome(groups, i)
  {
    assert reps[i] in groups && i in groups[reps[i]];
  }

  lemma GroupsAreExact(links: set<Link>, reps: seq<nat>, groups: map<nat, seq<nat>>)
    requires Represents(links, reps) && GroupedBy(reps, |reps|, groups)
    ensures ExactGroups(|reps|, links, groups)
  {
    forall r | r in groups ensures groups[r] != [] && Ascending(groups[r]) {
      assert groups[r] == Where(reps, r, |reps|);
    }
    hide Joined, GroupedBy, InGroup, InSome, Ascending, Where;
    forall i: nat | i < |reps| ensures InSome(groups, i) {
      OwnGroup(reps, groups, i);
    }
    forall r, i: nat | InGroup(groups, r, i) ensures i < |reps| && reps[i] == r {
      GroupMember(reps, groups, r, i);
    }
    forall r, s, i: nat, j: nat | InGroup(groups, r, i) && InGroup(groups, s, j)
      ensures r == s <==> Joined(links, i, j)
    {
      GroupMember(reps, groups, r, i);
      GroupMember(reps, groups, s, j);
    }
  }

  /** Unions the links in any order and collects the groups. */
  method Groups(n: nat, links: set<Link>) returns (groups: map<nat, seq<nat>>)
    requires forall l | l in links :: l.0 < n && l.1 < n
    ensures ExactGroups(n, links, groups)
  {
    hide Represents, ExactGroups, Merge, GroupedBy, Joined;
    var dsu := new Dsu(n);
    var left := links;
    ghost var done: set<Link> := {};
    RepresentsNone(dsu.reps);
    while left != {}
      invariant dsu.Valid() && dsu.parent.Length == |dsu.reps| == n
      invariant done + left == links && Represents(done, dsu.reps)
    {
      var l :| l in left;
      RepresentsMore(done, dsu.reps, l.0, l.1);
      dsu.Union(l.0, l.1);
      SameSize(dsu);
      assert (l.0, l.1) == l;
      left, done := left - {l}, done + {l};
    }
    groups := map[];
    NoGroups(dsu.reps);
    for i := 0 to n
      invariant dsu.Valid() && dsu.parent.Length == |dsu.reps| == n
      invariant Represents(links, dsu.reps) && GroupedBy(dsu.reps, i, groups)
    {
      var r := dsu.Find(i);
      var members := if r in groups then groups[r] else [];
      NewMember(dsu.reps, i, r, groups);
      groups := groups[r := members + [i]];
    }
    GroupsAreExact(links, dsu.reps, groups);
  }

  lemma SameSize(dsu: Dsu)
    requires dsu.Valid()
    ensures |dsu.reps| == dsu.parent.Length
  {
  }

  lemma NoGroups(reps: seq<nat>)
    ensures GroupedBy(reps, 0, map[])
  {
  }

  lemma FirstIsIn(w: seq<nat>)
    requires w != []
    ensures w[0] in w
  {
  }

  lemma NewMember(reps: seq<nat>, i: nat, r: nat, groups: map<nat, seq<nat>>)
    requires i < |reps| && r == reps[i] && GroupedBy(reps, i, groups)
    ensures GroupedBy(reps, i + 1, groups[r := (if r in groups then groups[r] else []) + [i]])
  {
    if r !in groups {
      assert forall k | 0 <= k < i :: reps[k] != r;
      if Where(reps, r, i) != [] {
        FirstIsIn(Where(reps, r, i));
      }
    }
  }

  // --- recording links -------------------------------------------------------------------------------

  const LOWEST: real := -340282346638528859811704183484516925440.0

  /** What is kept per link: its best similarity and whether it crosses classes. */
  datatype LinkInfo = LinkInfo(best: real, cross: bool)

  /** One request to link two events. */
  datatype Call = Call(a: nat, b: nat, sim: real)

  function Gap(x: int, y: int): nat {
    if x < y then y - x else x - y
  }

  function Key(a: nat, b: nat): Link {
    if a < b then (a, b) else (b, a)
  }

  predicate Linkable(events: seq<Event>, window: int, a: nat, b: nat)
    requires a < |events| && b < |events|
  {
    a != b && Gap(events[a].ts, events[b].ts) <= window
  }

  class LinkBook {
    var links: map<Link, LinkInfo>

    constructor ()
      ensures links == map[]
    {
      links := map[];
    }

    method Record(events: seq<Event>, window: int, a: nat, b: nat, sim: real)
      requires a < |events| && b < |events|
      modifies this
      ensures links == Recorded(events, window, old(links), Call(a, b, sim))
    {
      if a == b {
        return;
      }
      if Gap(events[a].ts, events[b].ts) > window {
        return;
      }
      var key := if a < b then (a, b) else (b, a);
      var cross := events[a].classUid != events[b].classUid;
      var entry := if key in links then links[key] else LinkInfo(LOWEST, cross);
      if sim > entry.best {
        entry := entry.(best := sim);
      }
      entry := entry.(cross := cross);
      links := links[key := entry];
    }
  }

  function Recorded(events: seq<Event>, window: int, links: map<Link, LinkInfo>, c: Call): map<Link, LinkInfo>
    requires c.a < |events| && c.b < |events|
  {
    if !Linkable(events, window, c.a, c.b) then links
    else
      var key := Key(c.a, c.b);
      var best := if key in links then links[key].best else LOWEST;
      links[key := LinkInfo(if c.sim > best then c.sim else best, events[c.a].classUid != events[c.b].classUid)]
  }

  ghost predicate CallsFit(events: seq<Event>, calls: seq<Call>) {
    forall i | 0 <= i < |calls| :: calls[i].a < |events| && calls[i].b < |events|
  }

  ghost function AllRecorded(events: seq<Event>, window: int, calls: seq<Call>): map<Link, LinkInfo>
    requires CallsFit(events, calls)
  {
    if calls == [] then map[]
    else Recorded(events, window, AllRecorded(events, window, calls[..|calls| - 1]), calls[|calls| - 1])
  }

  ghost predicate Requested(events: seq<Event>, window: int, c: Call, key: Link)
    requires c.a < |events| && c.b < |events|
  {
    Linkable(events, window, c.a, c.b) && Key(c.a, c.b) == key
  }

  /** An entry holds the largest requested similarity, and crosses classes exactly
      when its two events do. */
  ghost predicate BestOf(events: seq<Event>, window: int, calls: seq<Call>, key: Link, info: LinkInfo)
    requires CallsFit(events, calls)
  {
    && key.0 < key.1 < |events|
    && Gap(events[key.0].ts, events[key.1].ts) <= window
    && (info.cross <==> events[key.0].classUid != events[key.1].classUid)
    && (forall i | 0 <= i < |calls| && Requested(events, window, calls[i], key) :: calls[i].sim <= info.best)
    && LOWEST <= info.best
    && (info.best == LOWEST ||
        exists i :: 0 <= i < |calls| && Requested(events, window, calls[i], key) && calls[i].sim == info.best)
  }

  /** Whatever the order of the requests, a pair is linked exactly when some request
      for it, in either direction, was within the window, and its similarity is the
      largest requested. */
  lemma {:induction false} RecordedExactly(events: seq<Event>, window: int, calls: seq<Call>, key: Link)
    requires CallsFit(events, calls)
    ensures key in AllRecorded(events, window, calls) <==>
              exists i :: 0 <= i < |calls| && Requested(events, window, calls[i], key)
    ensures key in AllRecorded(events, window, calls) ==>
              BestOf(events, window, calls, key, AllRecorded(events, window, calls)[key])
  {
    if calls != [] {
      var init, c := calls[..|calls| - 1], calls[|calls| - 1];
      assert forall i | 0 <= i < |init| :: init[i] == calls[i];
      RecordedExactly(events, window, init, key);
      RecordedStep(events, window, init, c, key);
      assert calls == init + [c];
    }
  }

  lemma RecordedStep(events: seq<Event>, window: int, init: seq<Call>, c: Call, key: Link)
    requires CallsFit(events, init) && c.a < |events| && c.b < |events|
    requires var before := AllRecorded(events, window, init);
             && (key in before <==> exists i :: 0 <= i < |init| && Requested(events, window, init[i], key))
             && (key in before ==> BestOf(events, window, init, key, before[key]))
    ensures CallsFit(events, init + [c])
    ensures var after := Recorded(events, window, AllRecorded(events, window, init), c);
            && (key in after <==> exists i :: 0 <= i < |init + [c]| && Requested(events, window, (init + [c])[i], key))
            && (key in after ==> BestOf(events, window, init + [c], key, after[key]))
  {
    var before := AllRecorded(events, window, init);
    var after := Recorded(events, window, before, c);
    var calls := init + [c];
    assert calls[|init|] == c && forall i | 0 <= i < |init| :: calls[i] == init[i];
    hide AllRecorded;
    if key in before && before[key].best != LOWEST {
      var i :| 0 <= i < |init| && Requested(events, window, init[i], key) && init[i].sim == before[key].best;
      assert Requested(events, window, calls[i], key) && calls[i].sim == before[key].best;
    }
    if key in before {
      var i :| 0 <= i < |init| && Requested(events, window, init[i], key);
      assert Requested(events, window, calls[i], key);
    }
    if Requested(events, window, c, key) {
      assert Requested(events, window, calls[|init|], key);
    }
  }

  // --- what the groups mean for the events -----------------------------------------------------------------

  ghost predicate WindowedLinks(events: seq<Event>, window: int, links: set<Link>) {
    forall l | l in links :: l.0 < l.1 < |events| && Gap(events[l.0].ts, events[l.1].ts) <= window
  }

  ghost predicate WindowedTrail(events: seq<Event>, window: int, path: seq<nat>) {
    && (forall k | 0 <= k < |path| :: path[k] < |events|)
    && (forall k | 0 <= k < |path| - 1 :: Gap(events[path[k]].ts, events[path[k + 1]].ts) <= window)
  }

  lemma RecordedAreWindowed(events: seq<Event>, window: int, calls: seq<Call>)
    requires CallsFit(events, calls)
    ensures WindowedLinks(events, window, AllRecorded(events, window, calls).Keys)
  {
    forall l | l in AllRecorded(events, window, calls).Keys
      ensures l.0 < l.1 < |events| && Gap(events[l.0].ts, events[l.1].ts) <= window
    {
      RecordedExactly(events, window, calls, l);
    }
  }

  /** Any two members of a group are joined through members of that group by hops
      that each fit the window. */
  lemma GroupHops(events: seq<Event>, window: int, links: set<Link>, groups: map<nat, seq<nat>>, r: nat, i: nat, j: nat)
    requires WindowedLinks(events, window, links) && ExactGroups(|events|, links, groups)
    requires InGroup(groups, r, i) && InGroup(groups, r, j)
    ensures exists path :: path != [] && path[0] == i && path[|path| - 1] == j
                           && WindowedTrail(events, window, path)
                           && forall k | 0 <= k < |path| :: InGroup(groups, r, path[k])
  {
    assert Joined(links, i, j);
    var path :| Trail(links, path) && path[0] == i && path[|path| - 1] == j;
    TrailInGroup(events, window, links, groups, r, path);
  }

  lemma {:induction false} TrailInGroup(events: seq<Event>, window: int, links: set<Link>, groups: map<nat, seq<nat>>,
                                        r: nat, path: seq<nat>)
    requires WindowedLinks(events, window, links) && ExactGroups(|events|, links, groups)
    requires Trail(links, path) && InGroup(groups, r, path[0])
    ensures WindowedTrail(events, window, path) && forall k | 0 <= k < |path| :: InGroup(groups, r, path[k])
  {
    if |path| > 1 {
      var init, last := path[..|path| - 1], path[|path| - 1];
      LastHop(links, path);
      TrailInGroup(events, window, links, groups, r, init);
      assert init[|init| - 1] == path[|path| - 2];
      HopStaysInGroup(events, window, links, groups, r, path[|path| - 2], last);
      hide ExactGroups, InGroup, WindowedLinks, Trail;
      forall k | 0 <= k < |path| ensures InGroup(groups, r, path[k]) && path[k] < |events| {
        if k < |path| - 1 {
          assert path[k] == init[k];
        }
      }
      forall k | 0 <= k < |path| - 1 ensures Gap(events[path[k]].ts, events[path[k + 1]].ts) <= window {
        if k < |path| - 2 {
          assert path[k] == init[k] && path[k + 1] == init[k + 1];
        }
      }
    }
  }

  lemma HopStaysInGroup(events: seq<Event>, window: int, links: set<Link>, groups: map<nat, seq<nat>>, r: nat, i: nat,
                        j: nat)
    requires WindowedLinks(events, window, links) && ExactGroups(|events|, links, groups)
    requires InGroup(groups, r, i) && Hop(links, i, j)
    ensures InGroup(groups, r, j) && i < |events| && j < |events| && Gap(events[i].ts, events[j].ts) <= window
  {
    assert j < |events| && i < |events|;
    assert InSome(groups, j);
    var s :| s in groups && j in groups[s];
    assert InGroup(groups, s, j);
    JoinedSelf(links, i);
    JoinedHop(links, i, i, j);
  }

  /** The links inside one group. */
  function LinksIn(links: set<Link>, members: seq<nat>): set<Link> {
    set l | l in links && l.0 in members && l.1 in members
  }

  /** Every link lies in exactly one group, of at least two members. */
  lemma LinkInOneGroup(events: seq<Event>, window: int, links: set<Link>, groups: map<nat, seq<nat>>, l: Link)
    requires WindowedLinks(events, window, links) && ExactGroups(|events|, links, groups) && l in links
    ensures exists r :: r in groups && l in LinksIn(links, groups[r]) && |groups[r]| >= 2
                        && forall s | s in groups && l in LinksIn(links, groups[s]) :: s == r
  {
    assert InSome(groups, l.0);
    var r :| r in groups && l.0 in groups[r];
    assert InGroup(groups, r, l.0) && Hop(links, l.0, l.1);
    HopStaysInGroup(events, window, links, groups, r, l.0, l.1);
    assert l in LinksIn(links, groups[r]);
    forall s | s in groups && l in LinksIn(links, groups[s]) ensures s == r {
      assert InGroup(groups, s, l.0);
      JoinedSelf(links, l.0);
    }
  }

  // --- candidates --------------------------------------------------------------------------------------------

  /** A campaign candidate: its members in order, the classes it spans and the links
      holding it together. */
  datatype Candidate = Candidate(members: seq<nat>, domains: set<string>, links: nat)

  function Domains(events: seq<Event>, members: seq<nat>): set<string> {
    set i | i in members && i < |events| :: events[i].domain
  }

  predicate Kept(events: seq<Event>, crossDomain: bool, members: seq<nat>) {
    |members| >= 2 && (crossDomain ==> |Domains(events, members)| >= 2)
  }

  function CandidateOf(events: seq<Event>, links: set<Link>, members: seq<nat>): Candidate {
    Candidate(members, Domains(events, members), |LinksIn(links, members)|)
  }

  ghost predicate NoRepeats(from: seq<nat>) {
    forall x, y | 0 <= x < y < |from| :: from[x] != from[y]
  }

  /** The candidates are the kept groups among `done`, each once. */
  ghost predicate CandidatesOf(events: seq<Event>, links: set<Link>, crossDomain: bool, groups: map<nat, seq<nat>>,
                               done: set<nat>, from: seq<nat>, cands: seq<Candidate>)
  {
    && |from| == |cands| && NoRepeats(from)
    && (forall x | 0 <= x < |from| ::
          from[x] in groups && from[x] in done && Kept(events, crossDomain, groups[from[x]]) &&
          cands[x] == CandidateOf(events, links, groups[from[x]]))
    && (forall r | r in done && r in groups && Kept(events, crossDomain, groups[r]) :: r in from)
  }

  /** The candidates are the kept groups, each once, in some order. */
  ghost predicate ExactCandidates(events: seq<Event>, links: set<Link>, crossDomain: bool, groups: map<nat, seq<nat>>,
                                  cands: seq<Candidate>)
  {
    exists from :: CandidatesOf(events, links, crossDomain, groups, groups.Keys, from, cands)
  }

  /** Takes the groups in any order. */
  method Candidates(events: seq<Event>, links: set<Link>, crossDomain: bool, groups: map<nat, seq<nat>>)
    returns (cands: seq<Candidate>)
    ensures ExactCandidates(events, links, crossDomain, groups, cands)
  {
    cands := [];
    ghost var from: seq<nat> := [];
    var left := groups.Keys;
    ghost var done: set<nat> := {};
    while left != {}
      invariant done + left == groups.Keys && done !! left
      invariant CandidatesOf(events, links, crossDomain, groups, done, from, cands)
    {
      hide CandidatesOf, LinksIn, Domains;
      var r :| r in left;
      left := left - {r};
      var members := groups[r];
      NextCandidate(events, links, crossDomain, groups, done, from, cands, r);
      if |members| >= 2 {
        var domains := Domains(events, members);
        if !crossDomain || |domains| >= 2 {
          cands := cands + [Candidate(members, domains, |LinksIn(links, members)|)];
          from := from + [r];
        }
      }
      done := done + {r};
    }
    assert CandidatesOf(events, links, crossDomain, groups, groups.Keys, from, cands);
  }

  lemma NextCandidate(events: seq<Event>, links: set<Link>, crossDomain: bool, groups: map<nat, seq<nat>>,
                      done: set<nat>, from: seq<nat>, cands: seq<Candidate>, r: nat)
    requires CandidatesOf(events, links, crossDomain, groups, done, from, cands) && r in groups && r !in done
    ensures Kept(events, crossDomain, groups[r]) ==>
              CandidatesOf(events, links, crossDomain, groups, done + {r}, from + [r],
                           cands + [CandidateOf(events, links, groups[r])])
    ensures !Kept(events, crossDomain, groups[r]) ==>
              CandidatesOf(events, links, crossDomain, groups, done + {r}, from, cands)
  {
    hide LinksIn, Domains;
  }

  /** Links the events as requested, groups them and builds the candidates. */
  method BuildCampaigns(events: seq<Event>, window: int, crossDomain: bool, calls: seq<Call>)
    returns (cands: seq<Candidate>)
    requires CallsFit(events, calls)
    ensures exists groups ::
              && ExactGroups(|events|, AllRecorded(events, window, calls).Keys, groups)
              && ExactCandidates(events, AllRecorded(events, window, calls).Keys, crossDomain, groups, cands)
  {
    hide ExactGroups, ExactCandidates, Recorded;
    var book := new LinkBook();
    assert calls[..0] == [];
    for i := 0 to |calls|
      invariant CallsFit(events, calls[..i]) && book.links == AllRecorded(events, window, calls[..i])
    {
      assert calls[..i + 1][..|calls[..i + 1]| - 1] == calls[..i];
      book.Record(events, window, calls[i].a, calls[i].b, calls[i].sim);
      assert Call(calls[i].a, calls[i].b, calls[i].sim) == calls[i];
    }
    assert calls[..|calls|] == calls;
    RecordedAreWindowed(events, window, calls);
    var groups := Groups(|events|, book.links.Keys);
    cands := Candidates(events, book.links.Keys, crossDomain, groups);
  }

  function TotalLinks(cands: seq<Candidate>): nat {
    if cands == [] then 0 else TotalLinks(cands[..|cands| - 1]) + cands[|cands| - 1].links
  }

  /** The links inside the groups listed. */
  function Covered(links: set<Link>, groups: map<nat, seq<nat>>, from: seq<nat>): set<Link> {
    set l | l in links && exists x :: 0 <= x < |from| && from[x] in groups && l in LinksIn(links, groups[from[x]])
  }

  lemma {:induction false} CoveredCount(events: seq<Event>, window: int, links: set<Link>, groups: map<nat, seq<nat>>,
                                        from: seq<nat>, cands: seq<Candidate>)
    requires WindowedLinks(events, window, links) && ExactGroups(|events|, links, groups)
    requires |from| == |cands| && NoRepeats(from)
    requires forall x | 0 <= x < |from| :: from[x] in groups && cands[x].links == |LinksIn(links, groups[from[x]])|
    ensures TotalLinks(cands) == |Covered(links, groups, from)|
  {
    hide ExactGroups, WindowedLinks, LinksIn;
    if from == [] {
      assert Covered(links, groups, from) == {};
    } else {
      hide Covered;
      var init, last := from[..|from| - 1], from[|from| - 1];
      CoveredCount(events, window, links, groups, init, cands[..|cands| - 1]);
      var before, inside := Covered(links, groups, init), LinksIn(links, groups[last]);
      CoveredSplit(links, groups, init, last);
      assert from == init + [last];
      NotTwice(events, window, links, groups, init, last);
      assert |before + inside| == |before| + |inside|;
    }
  }

  lemma NotTwice(events: seq<Event>, window: int, links: set<Link>, groups: map<nat, seq<nat>>, init: seq<nat>,
                 last: nat)
    requires WindowedLinks(events, window, links) && ExactGroups(|events|, links, groups)
    requires last in groups && last !in init
    ensures Covered(links, groups, init) !! LinksIn(links, groups[last])
  {
    forall l | l in Covered(links, groups, init) && l in LinksIn(links, groups[last]) ensures false {
      hide LinksIn;
      var x :| 0 <= x < |init| && init[x] in groups && l in LinksIn(links, groups[init[x]]);
      assert init[x] in init && l in links by { Inner(links, groups[last]); }
      LinkInOneGroup(events, window, links, groups, l);
    }
  }

  lemma CoveredSplit(links: set<Link>, groups: map<nat, seq<nat>>, init: seq<nat>, last: nat)
    requires last in groups
    ensures Covered(links, groups, init + [last]) == Covered(links, groups, init) + LinksIn(links, groups[last])
  {
    var from := init + [last];
    hide LinksIn;
    assert LinksIn(links, groups[last]) <= links by { Inner(links, groups[last]); }
    forall l | l in Covered(links, groups, from)
      ensures l in Covered(links, groups, init) + LinksIn(links, groups[last])
    {
      var x :| 0 <= x < |from| && from[x] in groups && l in LinksIn(links, groups[from[x]]);
      if x < |init| {
        assert init[x] == from[x];
      }
    }
    forall l | l in Covered(links, groups, init) ensures l in Covered(links, groups, from) {
      var x :| 0 <= x < |init| && init[x] in groups && l in LinksIn(links, groups[init[x]]);
      assert from[x] == init[x];
    }
    assert from[|init|] == last;
  }

  lemma Inner(links: set<Link>, members: seq<nat>)
    ensures LinksIn(links, members) <= links
  {
  }

  /** Without the cross-domain filter no link is lost and none counted twice: the
      candidates' link counts add up to the number of links. */
  lemma LinksConserved(events: seq<Event>, window: int, links: set<Link>, groups: map<nat, seq<nat>>,
                       cands: seq<Candidate>)
    requires WindowedLinks(events, window, links) && ExactGroups(|events|, links, groups)
    requires ExactCandidates(events, links, false, groups, cands)
    ensures TotalLinks(cands) == |links|
  {
    var from :| CandidatesOf(events, links, false, groups, groups.Keys, from, cands);
    forall l | l in links ensures l in Covered(links, groups, from) {
      LinkInOneGroup(events, window, links, groups, l);
      var r :| r in groups && l in LinksIn(links, groups[r]) && |groups[r]| >= 2;
      assert Kept(events, false, groups[r]);
      assert r in from;
    }
    assert Covered(links, groups, from) == links;
    hide ExactGroups;
    CoveredCount(events, window, links, groups, from, cands);
  }

  // --- candidates in the events' own terms --------------------------------------------------------------------

  lemma DomainsExactly(events: seq<Event>, members: seq<nat>, d: string)
    requires forall i | i in members :: i < |events|
    ensures d in Domains(events, members) <==> exists i :: i in members && events[i].domain == d
  {
  }

  lemma TwoOf(s: set<string>)
    ensures |s| >= 2 <==> exists x, y :: x in s && y in s && x != y
  {
    if |s| >= 2 {
      var x :| x in s;
      var rest := s - {x};
      assert |rest| >= 1;
      var y :| y in rest;
    }
    if x, y :| x in s && y in s && x != y {
      assert s == {x, y} + (s - {x, y});
      assert |{x, y}| == 2;
    }
  }

  /** Two members of different classes. */
  ghost predicate SpansTwo(events: seq<Event>, members: seq<nat>) {
    exists i, j :: i in members && j in members && i < |events| && j < |events| && events[i].domain != events[j].domain
  }

  lemma SpansExactly(events: seq<Event>, members: seq<nat>)
    requires forall i | i in members :: i < |events|
    ensures |Domains(events, members)| >= 2 <==> SpansTwo(events, members)
  {
    var ds := Domains(events, members);
    TwoOf(ds);
    if |ds| >= 2 {
      var x, y :| x in ds && y in ds && x != y;
      DomainsExactly(events, members, x);
      DomainsExactly(events, members, y);
      var i :| i in members && events[i].domain == x;
      var j :| j in members && events[j].domain == y;
      assert SpansTwo(events, members);
    }
    if i, j :| i in members && j in members && events[i].domain != events[j].domain {
      DomainsExactly(events, members, events[i].domain);
      DomainsExactly(events, members, events[j].domain);
    }
  }

  /** A group becomes a candidate exactly when it has two members and, with the
      cross-domain filter, two members of different classes; the candidate names
      exactly its members' classes. */
  lemma CandidatesExactly(events: seq<Event>, links: set<Link>, crossDomain: bool, groups: map<nat, seq<nat>>,
                          cands: seq<Candidate>, r: nat)
    requires ExactGroups(|events|, links, groups) && ExactCandidates(events, links, crossDomain, groups, cands)
    requires r in groups
    ensures (exists c :: c in cands && c.members == groups[r]) <==>
              |groups[r]| >= 2 && (crossDomain ==> SpansTwo(events, groups[r]))
    ensures forall c, d | c in cands && c.members == groups[r] ::
              d in c.domains <==> exists i :: i in groups[r] && i < |events| && events[i].domain == d
  {
    var from :| CandidatesOf(events, links, crossDomain, groups, groups.Keys, from, cands);
    forall i | i in groups[r] ensures i < |events| {
      assert InGroup(groups, r, i);
    }
    SpansExactly(events, groups[r]);
    hide Joined, LinksIn, Domains, SpansTwo;
    if Kept(events, crossDomain, groups[r]) {
      assert r in from;
      var x :| 0 <= x < |from| && from[x] == r;
      assert cands[x] in cands && cands[x].members == groups[r];
    }
    forall c | c in cands && c.members == groups[r]
      ensures Kept(events, crossDomain, groups[r]) && c.domains == Domains(events, groups[r])
    {
      var x :| 0 <= x < |cands| && cands[x] == c;
      assert from[x] in groups;
    }
    forall d
      ensures d in Domains(events, groups[r]) <==> exists i :: i in groups[r] && i < |events| && events[i].domain == d
    {
      DomainsExactly(events, groups[r], d);
    }
  }

  /** Two events are linked exactly when some request named both, in either order, and
      their times differ by no more than the window. */
  lemma LinkedExactly(events: seq<Event>, window: int, calls: seq<Call>, i: nat, j: nat)
    requires CallsFit(events, calls) && i < j < |events|
    ensures (i, j) in AllRecorded(events, window, calls) <==>
              events[i].ts - window <= events[j].ts <= events[i].ts + window &&
              exists k :: 0 <= k < |calls| && ((calls[k].a, calls[k].b) == (i, j) || (calls[k].a, calls[k].b) == (j, i))
  {
    RecordedExactly(events, window, calls, (i, j));
    if k :| 0 <= k < |calls| && Requested(events, window, calls[k], (i, j)) {
      assert (calls[k].a, calls[k].b) == (i, j) || (calls[k].a, calls[k].b) == (j, i);
    }
    if events[i].ts - window <= events[j].ts <= events[i].ts + window {
      if k :| 0 <= k < |calls| && ((calls[k].a, calls[k].b) == (i, j) || (calls[k].a, calls[k].b) == (j, i)) {
        assert Requested(events, window, calls[k], (i, j));
      }
    }
  }

  /** A link's similarity is that of some request for it, and none for it was higher;
      similarities are no lower than the least single-precision number. */
  lemma BestIsRequested(events: seq<Event>, window: int, calls: seq<Call>, key: Link)
    requires CallsFit(events, calls) && key in AllRecorded(events, window, calls)
    requires forall i | 0 <= i < |calls| :: calls[i].sim >= -340282346638528859811704183484516925440.0
    ensures exists i :: 0 <= i < |calls| && Requested(events, window, calls[i], key) &&
                        calls[i].sim == AllRecorded(events, window, calls)[key].best
    ensures forall i | 0 <= i < |calls| && Requested(events, window, calls[i], key) ::
              calls[i].sim <= AllRecorded(events, window, calls)[key].best
  {
    RecordedExactly(events, window, calls, key);
    hide AllRecorded, Requested;
    var i :| 0 <= i < |calls| && Requested(events, window, calls[i], key);
    assert calls[i].sim <= AllRecorded(events, window, calls)[key].best;
  }
}
