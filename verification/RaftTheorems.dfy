/** The safety properties of section 5 of the Raft paper over every run of any
    cluster size, stated about the nodes alone. Each theorem names the delivery
    contract it needs. */
module RaftTheorems {
  import opened Options
  import opened RaftCore
  import opened RaftCluster
  import opened RaftHistory
  import opened RaftElection
  import opened RaftLog
  import opened RaftCommit
  import opened RaftCommitSteps
  import opened RaftSteps
  import opened RaftRuns

  // --- the invariant along a run -------------------------------------------------------------

  function NoHistory(s: Cluster): History {
    History({}, map n | n in s.nodes :: {}, map[], map[], map[])
  }

  lemma InitialReady(s: Cluster)
    requires Initial(s)
    ensures Ready(s, NoHistory(s), true)
  {
    InitialElect(s);
    InitialLog(s);
    InitialG(s);
  }

  lemma InitialElect(s: Cluster)
    requires Initial(s)
    ensures ElectInv(s, NoHistory(s))
  {
    hide GoodPeers, VoteTraffic;
  }

  lemma InitialLog(s: Cluster)
    requires Initial(s)
    ensures LogInv(s, NoHistory(s))
  {
    hide GoodPeers;
  }

  lemma InitialG(s: Cluster)
    requires Initial(s)
    ensures InvG(s, NoHistory(s))
  {
    hide GoodPeers, Chosen, Dead;
  }

  ghost predicate Follows(r: Run, hs: seq<History>, b: bool) {
    && |hs| >= 1 && |hs| <= |r.states|
    && (forall k | 0 <= k < |hs| :: Ready(r.states[k], hs[k], b))
    && (forall k | 0 < k < |hs| :: Goes(hs[k - 1], r.states[k], hs[k], b))
  }

  lemma {:induction false} Histories(r: Run, k: nat, b: bool) returns (hs: seq<History>)
    requires IsRunA(r) && (b ==> IsRunG(r)) && k < |r.states|
    ensures |hs| == k + 1 && Follows(r, hs, b)
  {
    hide InvA, InvG, Initial, Apply, Enabled, NetG, Grows, AcksRise;
    if k == 0 {
      InitialReady(r.states[0]);
      hs := [NoHistory(r.states[0])];
    } else {
      var before := Histories(r, k - 1, b);
      assert StepAt(r, k - 1);
      var h := ActionKeeps(r.states[k - 1], before[k - 1], r.actions[k - 1], b);
      hs := before + [h];
    }
  }

  lemma {:induction false} GrowsAlong(r: Run, hs: seq<History>, b: bool, i: nat, j: nat)
    requires Follows(r, hs, b) && i <= j < |hs|
    ensures Grows(hs[i], hs[j]) && (b ==> AcksRise(hs[i], hs[j]))
    decreases j
  {
    hide InvA, InvG, AckOf;
    if i < j {
      GrowsAlong(r, hs, b, i, j - 1);
      assert Goes(hs[j - 1], r.states[j], hs[j], b);
    }
  }

  lemma {:induction false} MembersStay(r: Run, k: nat)
    requires IsRunA(r) && k < |r.states|
    ensures r.states[k].nodes.Keys == r.states[0].nodes.Keys
  {
    hide InvA, InvG, Initial, Apply, Enabled, Goes;
    if k > 0 {
      MembersStay(r, k - 1);
      assert StepAt(r, k - 1);
      var hs := Histories(r, k - 1, false);
      assert Ready(r.states[k - 1], hs[k - 1], false);
      ActionMembers(r.states[k - 1], hs[k - 1], r.actions[k - 1]);
    }
  }

  lemma ActionMembers(s: Cluster, h: History, a: Action)
    requires InvA(s, h) && Enabled(s, a)
    ensures Apply(s, a).nodes.Keys == s.nodes.Keys
  {
    hide ElectInv, LogInv, Copies, Appends, TickSafe, ProposeSafe, HighestCommit, Consistent, Grants, BroadcastSafe;
    EnrolledAll(s, h);
  }

  // --- election safety -----------------------------------------------------------------------------

  predicate Leads(s: Cluster, n: NodeId, t: nat) {
    n in s.nodes && s.nodes[n].role.Leader? && s.nodes[n].term == t
  }

  /** Net-A: over a whole run, at most one node ever leads a term. */
  lemma ElectionSafety(r: Run, i: nat, j: nat, a: NodeId, b: NodeId, t: nat)
    requires IsRunA(r) && i <= j < |r.states|
    requires Leads(r.states[i], a, t) && Leads(r.states[j], b, t)
    ensures a == b
  {
    var hs := Histories(r, j, false);
    GrowsAlong(r, hs, false, i, j);
    assert Ready(r.states[i], hs[i], false) && Ready(r.states[j], hs[j], false);
    LeaderIsElected(r.states[i], hs[i], a);
    LeaderIsElected(r.states[j], hs[j], b);
  }

  // --- log matching ----------------------------------------------------------------------------------

  lemma LogCoveredLater(s: Cluster, h: History, h': History, n: NodeId)
    requires InvA(s, h) && Grows(h, h') && n in s.nodes
    ensures LogCovered(h', s.nodes[n].log)
  {
    hide ElectInv;
    CoveredGrows(h, h', s.nodes[n].log);
  }

  /** Net-A: two logs, at whatever moments of the run, that hold the same term at
      an index are identical up to it. */
  lemma LogMatching(r: Run, i: nat, j: nat, a: NodeId, b: NodeId, k: nat)
    requires IsRunA(r) && i < |r.states| && j < |r.states|
    requires a in r.states[i].nodes && b in r.states[j].nodes
    requires k < |r.states[i].nodes[a].log| && k < |r.states[j].nodes[b].log|
    requires r.states[i].nodes[a].log[k].term == r.states[j].nodes[b].log[k].term
    ensures r.states[i].nodes[a].log[..k + 1] == r.states[j].nodes[b].log[..k + 1]
  {
    var last := if i <= j then j else i;
    var hs := Histories(r, last, false);
    GrowsAlong(r, hs, false, i, last);
    GrowsAlong(r, hs, false, j, last);
    hide InvA, InvG, IsRunA;
    LogCoveredLater(r.states[i], hs[i], hs[last], a);
    LogCoveredLater(r.states[j], hs[j], hs[last], b);
    EntriesMatch(hs[last], r.states[i].nodes[a].log, r.states[j].nodes[b].log, k);
  }

  /** Net-A: a log prefix ending in term t is, then and later, a prefix of the log
      of the leader of t. */
  lemma PrefixOfItsLeader(r: Run, i: nat, j: nat, a: NodeId, l: NodeId, k: nat)
    requires IsRunA(r) && i <= j < |r.states| && a in r.states[i].nodes && k < |r.states[i].nodes[a].log|
    requires Leads(r.states[j], l, r.states[i].nodes[a].log[k].term)
    ensures r.states[i].nodes[a].log[..k + 1] <= r.states[j].nodes[l].log
  {
    hide InvA, InvG, IsRunA, LogCovered;
    var hs := Histories(r, j, false);
    GrowsAlong(r, hs, false, i, j);
    assert Ready(r.states[i], hs[i], false) && Ready(r.states[j], hs[j], false);
    HeldLog(r.states[j], hs[j], l);
    LogCoveredLater(r.states[i], hs[i], hs[j], a);
    CoveredPrefix(hs[j], r.states[i].nodes[a].log, k);
  }

  lemma CoveredPrefix(h: History, log: seq<LogEntry>, k: nat)
    requires LogCovered(h, log) && k < |log|
    ensures log[k].term in h.leaderLog && log[..k + 1] <= h.leaderLog[log[k].term]
  {
    assert Covered(h, log, k);
  }

  lemma HeldLog(s: Cluster, h: History, l: NodeId)
    requires InvA(s, h) && l in s.nodes && s.nodes[l].role.Leader?
    ensures s.nodes[l].term in h.leaderLog && h.leaderLog[s.nodes[l].term] == s.nodes[l].log
  {
    hide ElectInv;
  }

  // --- leader completeness ------------------------------------------------------------------------------

  lemma CommitBacking(s: Cluster, h: History, n: NodeId)
    requires InvG(s, h) && n in s.nodes
    ensures CommitInRange(s.nodes[n])
    ensures Backed(s.nodes.Keys, h, s.nodes[n].log, s.nodes[n].commit, s.nodes[n].term, AckOf(h, s.nodes[n].term, n))
  {
    hide AckInv, KeepInv;
    BackedAt(s.nodes, h, n);
  }

  /** A chosen entry is in the log every later term's leader was elected with. */
  lemma ChosenInLaterTerm(s: Cluster, h: History, t: nat, i: nat, u: nat)
    requires InvG(s, h) && Chosen(s.nodes.Keys, h, t, i) && u in h.elections && t < u
    ensures i <= |LogAtElection(h, u)| && LogAtElection(h, u)[..i] == h.leaderLog[t][..i]
    ensures LogAtElection(h, u) != [] ==> u in h.leaderLog && LogAtElection(h, u) <= h.leaderLog[u]
  {
    hide AckInv, CommitInv;
    ChosenLives(s.nodes, h, t, i);
    assert KeptOrDead(s.nodes, h, t, i, LogAtElection(h, u));
  }

  lemma ChosenLater(ids: set<NodeId>, h: History, h': History, t: nat, i: nat)
    requires Chosen(ids, h, t, i) && Grows(h, h') && AcksRise(h, h')
    ensures Chosen(ids, h', t, i) && h'.leaderLog[t][..i] == h.leaderLog[t][..i]
  {
    var q :| IsQuorum(ids, q) && AckedBy(h, q, t, i);
    assert AckedBy(h', q, t, i);
  }

  /** The committed prefix of a node lies in the log of term u's leader, seen from
      any moment that knows both. */
  lemma CommittedInLeaderLog(s: Cluster, h: History, n: NodeId, s': Cluster, h': History, u: nat)
    requires InvG(s, h) && InvG(s', h') && n in s.nodes && s'.nodes.Keys == s.nodes.Keys
    requires Grows(h, h') && AcksRise(h, h') && u in h'.elections && s.nodes[n].term < u
    ensures CommitInRange(s.nodes[n]) && Committed(s.nodes[n]) <= LogAtElection(h', u)
  {
    hide InvG, AckOf, LogAtElection, Grows, AcksRise, Chosen;
    CommitBacking(s, h, n);
    var x := s.nodes[n];
    var c := x.commit;
    if c > 0 {
      var t: nat, i: nat :| Backing(s.nodes.Keys, h, x.log, c, x.term, AckOf(h, x.term, n), t, i);
      ChosenLater(s.nodes.Keys, h, h', t, i);
      ChosenInLaterTerm(s', h', t, i, u);
      InRange(s.nodes.Keys, h, t, i);
      InRange(s.nodes.Keys, h', t, i);
      var early := LogAtElection(h', u);
      assert early[..c] == early[..i][..c] == h.leaderLog[t][..i][..c] == h.leaderLog[t][..c] == x.log[..c];
    }
  }

  /** Net-G: what a node ever regards as committed in term t is in the log of every
      leader of every later term, at whatever moment either is looked at. */
  lemma LeaderCompleteness(r: Run, i: nat, j: nat, n: NodeId, l: NodeId)
    requires IsRunG(r) && i < |r.states| && j < |r.states| && n in r.states[i].nodes && l in r.states[j].nodes
    requires r.states[j].nodes[l].role.Leader? && r.states[j].nodes[l].term > r.states[i].nodes[n].term
    ensures CommitInRange(r.states[i].nodes[n])
    ensures Committed(r.states[i].nodes[n]) <= r.states[j].nodes[l].log
  {
    hide StepAt, Initial, Grows, AcksRise, InvA, InvG, Goes, CommitInRange;
    var last := if i <= j then j else i;
    var hs := Histories(r, last, true);
    GrowsAlong(r, hs, true, i, last);
    GrowsAlong(r, hs, true, j, last);
    MembersStay(r, i);
    MembersStay(r, last);
    assert Ready(r.states[i], hs[i], true) && Ready(r.states[j], hs[j], true) && Ready(r.states[last], hs[last], true);
    CompleteAcross(r.states[i], hs[i], n, r.states[j], hs[j], l, r.states[last], hs[last]);
  }

  lemma CompleteAcross(s: Cluster, h: History, n: NodeId, s1: Cluster, h1: History, l: NodeId, s2: Cluster, h2: History)
    requires Ready(s, h, true) && Ready(s1, h1, true) && Ready(s2, h2, true) && n in s.nodes && l in s1.nodes
    requires s2.nodes.Keys == s.nodes.Keys && Grows(h, h2) && Grows(h1, h2) && AcksRise(h, h2)
    requires s1.nodes[l].role.Leader? && s1.nodes[l].term > s.nodes[n].term
    ensures CommitInRange(s.nodes[n]) && Committed(s.nodes[n]) <= s1.nodes[l].log
  {
    hide InvG, ElectInv, LogInv, LogAtElection, AcksRise;
    var u := s1.nodes[l].term;
    LeaderIsElected(s1, h1, l);
    HeldLog(s1, h1, l);
    CommittedInLeaderLog(s, h, n, s2, h2, u);
    ElectionLogFixed(s1, h1, s2, h2, u);
  }

  /** The log a leader was elected with never changes and starts its log forever. */
  lemma ElectionLogFixed(s: Cluster, h: History, s': Cluster, h': History, u: nat)
    requires InvA(s, h) && Grows(h, h') && u in h.elections
    ensures u in h.leaderLog && LogAtElection(h', u) <= h.leaderLog[u]
  {
    hide ElectInv;
    var b := h.elections[u].base;
    assert h'.leaderLog[u][..b] == h.leaderLog[u][..b];
  }

  // --- state machine safety -------------------------------------------------------------------------------

  predicate OneIsPrefix(a: seq<LogEntry>, b: seq<LogEntry>) {
    a <= b || b <= a
  }

  /** Two prefixes of chosen prefixes are comparable. */
  lemma BackedComparable(s: Cluster, h: History, a: seq<LogEntry>, b: seq<LogEntry>, t: nat, i: nat, u: nat, j: nat)
    requires InvA(s, h) && InvG(s, h) && Chosen(s.nodes.Keys, h, t, i) && Chosen(s.nodes.Keys, h, u, j)
    requires |a| <= i && a == h.leaderLog[t][..|a|] && |b| <= j && b == h.leaderLog[u][..|b|]
    requires t <= u
    ensures OneIsPrefix(a, b)
  {
    hide InvG, ElectInv;
    var lead := h.leaderLog[u];
    if t < u {
      assert u in h.elections;
      ChosenInLaterTerm(s, h, t, i, u);
      var early := LogAtElection(h, u);
      assert early <= lead;
      assert lead[..|a|] == early[..i][..|a|] == h.leaderLog[t][..i][..|a|] == a;
    }
    assert a == lead[..|a|] && b == lead[..|b|];
    assert if |a| <= |b| then b[..|a|] == a else a[..|b|] == b;
  }

  lemma CommittedComparable(ids: set<NodeId>, s: Cluster, h: History, h1: History, h2: History, x: NodeState,
                            y: NodeState, ax: nat, ay: nat)
    requires InvA(s, h) && InvG(s, h) && s.nodes.Keys == ids && CommitInRange(x) && CommitInRange(y)
    requires Backed(ids, h1, x.log, x.commit, x.term, ax) && Grows(h1, h) && AcksRise(h1, h)
    requires Backed(ids, h2, y.log, y.commit, y.term, ay) && Grows(h2, h) && AcksRise(h2, h)
    ensures OneIsPrefix(Committed(x), Committed(y))
  {
    hide InvA, InvG, Chosen, Grows, AcksRise;
    if x.commit == 0 || y.commit == 0 {
    } else {
      var t: nat, i: nat :| Backing(ids, h1, x.log, x.commit, x.term, ax, t, i);
      var u: nat, j: nat :| Backing(ids, h2, y.log, y.commit, y.term, ay, u, j);
      ChosenLater(ids, h1, h, t, i);
      ChosenLater(ids, h2, h, u, j);
      var a, b := Committed(x), Committed(y);
      InRange(ids, h1, t, i);
      InRange(ids, h2, u, j);
      InRange(ids, h, t, i);
      InRange(ids, h, u, j);
      assert h.leaderLog[t][..|a|] == h.leaderLog[t][..i][..|a|] == h1.leaderLog[t][..i][..|a|] ==
               h1.leaderLog[t][..|a|];
      assert h.leaderLog[u][..|b|] == h.leaderLog[u][..j][..|b|] == h2.leaderLog[u][..j][..|b|] ==
               h2.leaderLog[u][..|b|];
      if t <= u {
        BackedComparable(s, h, a, b, t, i, u, j);
      } else {
        BackedComparable(s, h, b, a, u, j, t, i);
      }
    }
  }

  lemma InRange(ids: set<NodeId>, h: History, t: nat, i: nat)
    requires Chosen(ids, h, t, i)
    ensures t in h.leaderLog && i <= |h.leaderLog[t]|
  {
  }

  /** Net-G: of any two committed sequences, of whatever nodes at whatever moments,
      one is a prefix of the other. */
  lemma StateMachineSafety(r: Run, i: nat, j: nat, a: NodeId, b: NodeId)
    requires IsRunG(r) && i < |r.states| && j < |r.states| && a in r.states[i].nodes && b in r.states[j].nodes
    ensures CommitInRange(r.states[i].nodes[a]) && CommitInRange(r.states[j].nodes[b])
    ensures OneIsPrefix(Committed(r.states[i].nodes[a]), Committed(r.states[j].nodes[b]))
  {
    var last := if i <= j then j else i;
    var hs := Histories(r, last, true);
    GrowsAlong(r, hs, true, i, last);
    GrowsAlong(r, hs, true, j, last);
    MembersStay(r, i);
    MembersStay(r, j);
    MembersStay(r, last);
    var x, y := r.states[i].nodes[a], r.states[j].nodes[b];
    assert Ready(r.states[i], hs[i], true) && Ready(r.states[j], hs[j], true) && Ready(r.states[last], hs[last], true);
    hide InvA, InvG, IsRunA, IsRunG, AcksRise, Grows, Backed, AckOf;
    CommitBacking(r.states[i], hs[i], a);
    CommitBacking(r.states[j], hs[j], b);
    CommittedComparable(r.states[0].nodes.Keys, r.states[last], hs[last], hs[i], hs[j], x, y,
                        AckOf(hs[i], x.term, a), AckOf(hs[j], y.term, b));
  }

  // --- index safety ---------------------------------------------------------------------------------------

  /** Net-G: no reachable call takes an index or a slice out of range: the commit
      index never passes the log, every `next_index` lies in 1..=len+1, and so no
      tick, proposal or delivery can panic. */
  lemma IndexSafety(r: Run, k: nat, n: NodeId)
    requires IsRunG(r) && k < |r.states| && n in r.states[k].nodes
    ensures CommitInRange(r.states[k].nodes[n]) && BroadcastSafe(r.states[k].nodes[n])
    ensures Enabled(r.states[k], Tick(n))
    ensures forall data :: Enabled(r.states[k], Propose(n, data))
    ensures forall p | p in r.states[k].net :: Enabled(r.states[k], Deliver(p))
  {
    hide InvA, InvG, IsRunA, NetG, Backed, HighestCommit;
    var hs := Histories(r, k, true);
    assert Ready(r.states[k], hs[k], true);
    CommitBacking(r.states[k], hs[k], n);
    GuardedIsFair(r);
    IndexesWithFairCounts(r);
    assert IndexesInRange(r.states[k]);
    Addressed(r.states[k], hs[k]);
    var x := r.states[k].nodes[n];
    forall data ensures Enabled(r.states[k], Propose(n, data)) {
      if x.role.Leader? {
        forall p | p in x.peers ensures 1 <= NextFor(CommitAdvanced(Extended(x, data)), p) <= |x.log| + 2 {
          assert NextFor(x, p) <= |x.log| + 1;
        }
      }
    }
  }

  lemma Addressed(s: Cluster, h: History)
    requires InvA(s, h)
    ensures forall p | p in s.net :: p.to in s.nodes
  {
    hide LogInv, AllTraffic, VotesUniqueUntilElected, QuorumsKeepTheirVote, QuorumsLoyal;
  }

  // --- when Net-A alone keeps the indexes in range ------------------------------------------------------

  /** A leader would take over an acknowledgement reaching past its log. */
  predicate Overlong(n: NodeState, m: Msg) {
    m.AppendReply? && n.role.Leader? && m.term <= n.term && m.success && m.matched > |n.log|
  }

  predicate OverlongDelivery(s: Cluster, a: Action) {
    a.Deliver? && a.packet.to in s.nodes && Overlong(s.nodes[a.packet.to], a.packet.msg)
  }

  ghost predicate IndexesInRange(s: Cluster) {
    forall n | n in s.nodes :: BroadcastSafe(s.nodes[n])
  }

  lemma TickKeepsRange(n: NodeState)
    requires TickSafe(n) && BroadcastSafe(n)
    ensures BroadcastSafe(Ticked(n).node)
  {
    hide Appends;
    if n.role.Leader? {
      assert forall p | p in n.peers :: NextFor(Ticked(n).node, p) == NextFor(n, p);
    }
  }

  lemma ProposeKeepsRange(n: NodeState, data: seq<bv8>)
    requires n.role.Leader? && ProposeSafe(n, data)
    ensures BroadcastSafe(Proposed(n, data).value.node)
  {
  }

  lemma AppendReplyKeepsRange(n: NodeState, m: Msg)
    requires BroadcastSafe(n) && m.AppendReply? && !Overlong(n, m)
    ensures BroadcastSafe(OnAppendReply(n, m).node)
  {
    hide HighestCommit;
    if n.role.Leader? && m.term <= n.term {
      var x := OnAppendReply(n, m).node;
      forall p | p in n.peers ensures 1 <= NextFor(x, p) <= |x.log| + 1 {
        assert p != m.from ==> NextFor(x, p) == NextFor(n, p);
      }
    }
  }

  lemma StepKeepsRange(n: NodeState, m: Msg)
    requires BroadcastSafe(n) && !Overlong(n, m)
    ensures BroadcastSafe(Stepped(n, m).node)
  {
    hide Appends, UpToDate, Consistent, OnAppendReply;
    match m
    case RequestVote(_, _, _, _) =>
      VoteRequestKeepsRange(n, m);
    case VoteReply(_, _, _) =>
    case AppendEntries(_, _, _, _, _, _) =>
      AppendKeepsRange(n, m);
    case AppendReply(_, _, _, _) =>
      AppendReplyKeepsRange(n, m);
  }

  lemma VoteRequestKeepsRange(n: NodeState, m: Msg)
    requires BroadcastSafe(n) && m.RequestVote?
    ensures BroadcastSafe(OnRequestVote(n, m).node)
  {
    hide UpToDate;
    var x := OnRequestVote(n, m).node;
    if x.role.Leader? {
      assert forall p | p in n.peers :: NextFor(x, p) == NextFor(n, p);
    }
  }

  lemma AppendKeepsRange(n: NodeState, m: Msg)
    requires BroadcastSafe(n) && m.AppendEntries?
    ensures BroadcastSafe(OnAppendEntries(n, m).node)
  {
    hide Consistent;
  }

  /** An overlong acknowledgement by a peer leaves its next index out of range. */
  lemma OverlongBreaksRange(n: NodeState, m: Msg)
    requires Overlong(n, m) && m.from in n.peers
    ensures !BroadcastSafe(Stepped(n, m).node)
  {
    hide HighestCommit;
    assert NextFor(Stepped(n, m).node, m.from) == m.matched + 1;
  }

  /** Replies come from peers. */
  lemma ReplyFromPeer(s: Cluster, h: History, p: Packet)
    requires InvA(s, h) && p in s.net && p.msg.AppendReply? && p.to in s.nodes
    ensures p.msg.from in s.nodes[p.to].peers
  {
    TrafficOf(s, h, p);
    hide LogInv, AllTraffic, VotesUniqueUntilElected, QuorumsKeepTheirVote, QuorumsLoyal;
    assert GoodPeers(s.nodes.Keys, p.to, s.nodes[p.to].peers);
  }

  /** Net-A: a reply to a leader that stays one keeps the leader's next indexes in
      range exactly when it is a refusal or acknowledges no more than its log. */
  lemma ReplyKeepsIndexesExactly(r: Run, k: nat, p: Packet)
    requires IsRunA(r) && k < |r.actions| && r.actions[k] == Deliver(p) && p.msg.AppendReply?
    requires p.to in r.states[k].nodes && r.states[k].nodes[p.to].role.Leader?
    requires p.to in r.states[k + 1].nodes && r.states[k + 1].nodes[p.to].role.Leader?
    requires BroadcastSafe(r.states[k].nodes[p.to])
    ensures BroadcastSafe(r.states[k + 1].nodes[p.to]) <==>
              !p.msg.success || p.msg.matched <= |r.states[k].nodes[p.to].log|
  {
    var hs := Histories(r, k, false);
    var s, x := r.states[k], r.states[k].nodes[p.to];
    assert StepAt(r, k) && Ready(s, hs[k], false);
    hide IsRunA, InvA, Copies, Initial;
    Named(s, hs[k]);
    CallKeepsId(s, Deliver(p));
    assert r.states[k + 1].nodes[p.to] == Stepped(x, p.msg).node;
    hide Stepped, BroadcastSafe;
    StaysLeader(x, p.msg);
    if Overlong(x, p.msg) {
      ReplyFromPeer(s, hs[k], p);
      OverlongBreaksRange(x, p.msg);
    } else {
      StepKeepsRange(x, p.msg);
    }
  }

  lemma StaysLeader(n: NodeState, m: Msg)
    requires m.AppendReply? && Stepped(n, m).node.role.Leader?
    ensures m.term <= n.term
  {
  }

  lemma InitialRange(s: Cluster)
    requires Initial(s)
    ensures IndexesInRange(s)
  {
    hide GoodPeers;
  }

  lemma ActionRange(s: Cluster, h: History, a: Action)
    requires InvA(s, h) && Enabled(s, a) && IndexesInRange(s)
    ensures IndexesInRange(Apply(s, a)) <==> !OverlongDelivery(s, a)
  {
    hide InvA, Copies, TickSafe, ProposeSafe, Stepped, Ticked, Proposed, BroadcastSafe, Overlong;
    Named(s, h);
    CallKeepsId(s, a);
    match a
    case Tick(n) =>
      TickKeepsRange(s.nodes[n]);
    case Propose(n, data) =>
      if s.nodes[n].role.Leader? {
        ProposeKeepsRange(s.nodes[n], data);
      }
    case Drop(p) =>
    case Deliver(p) =>
      var x := s.nodes[p.to];
      if Overlong(x, p.msg) {
        OverlongIsReply(x, p.msg);
        ReplyFromPeer(s, h, p);
        OverlongBreaksRange(x, p.msg);
        assert !BroadcastSafe(Apply(s, a).nodes[p.to]);
      } else {
        StepKeepsRange(x, p.msg);
      }
  }

  lemma OverlongIsReply(n: NodeState, m: Msg)
    requires Overlong(n, m)
    ensures m.AppendReply?
  {
  }

  lemma {:induction false} RangeUpTo(r: Run, k: nat)
    requires IsRunA(r) && k < |r.states|
    requires forall i | 0 <= i < k :: !OverlongDelivery(r.states[i], r.actions[i])
    ensures IndexesInRange(r.states[k])
  {
    hide InvA, InvG, Apply, Enabled, OverlongDelivery, IndexesInRange, Initial;
    if k == 0 {
      InitialRange(r.states[0]);
    } else {
      RangeUpTo(r, k - 1);
      var hs := Histories(r, k - 1, false);
      assert StepAt(r, k - 1) && Ready(r.states[k - 1], hs[k - 1], false);
      ActionRange(r.states[k - 1], hs[k - 1], r.actions[k - 1]);
    }
  }

  /** Net-A: throughout a run every leader's next indexes are in range exactly when
      no leader is ever delivered an acknowledgement reaching past its log. */
  lemma IndexesInRangeExactly(r: Run)
    requires IsRunA(r)
    ensures (forall k | 0 <= k < |r.states| :: IndexesInRange(r.states[k])) <==>
              forall k | 0 <= k < |r.actions| :: !OverlongDelivery(r.states[k], r.actions[k])
  {
    hide InvA, InvG, Apply, Enabled, OverlongDelivery, IndexesInRange, Initial;
    if forall k | 0 <= k < |r.actions| :: !OverlongDelivery(r.states[k], r.actions[k]) {
      forall k | 0 <= k < |r.states| ensures IndexesInRange(r.states[k]) {
        RangeUpTo(r, k);
      }
    }
    if forall k | 0 <= k < |r.states| :: IndexesInRange(r.states[k]) {
      forall k | 0 <= k < |r.actions| ensures !OverlongDelivery(r.states[k], r.actions[k]) {
        var hs := Histories(r, k, false);
        assert StepAt(r, k) && Ready(r.states[k], hs[k], false) && IndexesInRange(r.states[k + 1]);
        ActionRange(r.states[k], hs[k], r.actions[k]);
      }
    }
  }

  // --- what the indexes need ----------------------------------------------------------------

  /** A successful reply in flight acknowledges no more than its term's leader has. */
  ghost predicate RepliesFit(net: set<Packet>, h: History) {
    forall p | p in net && p.msg.AppendReply? && p.msg.success :: Fits(h, p.msg)
  }

  ghost predicate Fits(h: History, m: Msg)
    requires m.AppendReply?
  {
    m.term in h.leaderLog && m.matched <= |h.leaderLog[m.term]|
  }

  lemma {:induction false} CopyCarries(peers: seq<NodeId>, out: seq<Envelope>, x: (NodeId, Msg))
    requires x in Copies(peers, out)
    ensures exists e :: e in out && e.msg == x.1
  {
    if out[0].msg != x.1 {
      CopyCarries(peers, out[1..], x);
      var e :| e in out[1..] && e.msg == x.1;
      assert e in out;
    } else {
      assert out[0] in out;
    }
  }

  lemma NewPacket(s: Cluster, o: Outcome, q: Packet)
    requires q in Committing(s, o).net && q !in s.net
    ensures exists e :: e in o.sent && e.msg == q.msg
  {
    hide Copies;
    var copies := Copies(o.node.peers, o.sent);
    var i :| 0 <= i < |copies| && q == Packet(s.sent + i, copies[i].0, copies[i].1);
    CopyCarries(o.node.peers, o.sent, copies[i]);
  }

  predicate Acks(m: Msg) {
    m.AppendReply? && m.success
  }

  lemma OwnCallsSendNoAcks(n: NodeState)
    ensures TickSafe(n) ==> forall e | e in Ticked(n).sent :: !Acks(e.msg)
    ensures forall data | n.role.Leader? && ProposeSafe(n, data) ::
              forall e | e in Proposed(n, data).value.sent :: !Acks(e.msg)
  {
    hide BroadcastSafe;
  }

  /** A node acknowledges only what it takes over. */
  lemma StepAcks(n: NodeState, m: Msg, e: Envelope)
    requires e in Stepped(n, m).sent && Acks(e.msg)
    ensures m.AppendEntries? && e.msg.term == m.term && e.msg.matched == m.prevIndex + |m.entries|
  {
    hide BroadcastSafe, UpToDate;
  }

  lemma ActionFits(s: Cluster, h: History, a: Action, h': History)
    requires InvA(s, h) && Enabled(s, a) && RepliesFit(s.net, h) && Grows(h, h')
    ensures RepliesFit(Apply(s, a).net, h')
  {
    forall q | q in Apply(s, a).net && Acks(q.msg) ensures Fits(h', q.msg) {
      assert q in s.net ==> Fits(h, q.msg);
      if q !in s.net {
        NewAck(s, h, a, q);
      }
    }
  }

  lemma NewAck(s: Cluster, h: History, a: Action, q: Packet)
    requires InvA(s, h) && Enabled(s, a) && q in Apply(s, a).net && q !in s.net && Acks(q.msg)
    ensures Fits(h, q.msg)
  {
    hide ElectInv, Committing, Ticked, Proposed, Stepped, TickSafe, ProposeSafe, Acks;
    match a
    case Tick(n) =>
      NewPacket(s, Ticked(s.nodes[n]), q);
      OwnCallsSendNoAcks(s.nodes[n]);
      assert false;
    case Propose(n, data) =>
      ProposesNothing(s.nodes[n], data);
      NewPacket(s, Proposed(s.nodes[n], data).value, q);
      OwnCallsSendNoAcks(s.nodes[n]);
      assert false;
    case Drop(p) =>
    case Deliver(p) =>
      var o := Stepped(s.nodes[p.to], p.msg);
      NewPacket(Without(s, p), o, q);
      var e :| e in o.sent && e.msg == q.msg;
      StepAcks(s.nodes[p.to], p.msg, e);
      assert AppendTraffic(h, p.msg);
  }

  lemma ProposesNothing(n: NodeState, data: seq<bv8>)
    ensures !n.role.Leader? ==> Proposed(n, data).None?
  {
  }

  lemma {:induction false} RepliesFitUpTo(r: Run, hs: seq<History>, k: nat)
    requires IsRunA(r) && Follows(r, hs, false) && k < |hs|
    ensures RepliesFit(r.states[k].net, hs[k])
  {
    hide InvA, InvG, Initial, Apply, Enabled, RepliesFit, Grows;
    if k == 0 {
      NothingInFlight(r.states[0], hs[0]);
    } else {
      RepliesFitUpTo(r, hs, k - 1);
      assert StepAt(r, k - 1) && Ready(r.states[k - 1], hs[k - 1], false) && Goes(hs[k - 1], r.states[k], hs[k], false);
      ActionFits(r.states[k - 1], hs[k - 1], r.actions[k - 1], hs[k]);
    }
  }

  lemma NothingInFlight(s: Cluster, h: History)
    requires Initial(s)
    ensures RepliesFit(s.net, h)
  {
  }

  predicate CountsStaleAt(s: Cluster, a: Action) {
    a.Deliver? && a.packet.to in s.nodes && CountsStale(s.nodes[a.packet.to], a.packet.msg)
  }

  /** A reply of the leader's own term fits its log. */
  lemma FittingIsNotOverlong(s: Cluster, h: History, a: Action)
    requires InvA(s, h) && RepliesFit(s.net, h) && Enabled(s, a) && !CountsStaleAt(s, a)
    ensures !OverlongDelivery(s, a)
  {
    hide ElectInv;
    if a.Deliver? {
      var x, m := s.nodes[a.packet.to], a.packet.msg;
      if Acks(m) && x.role.Leader? && m.term <= x.term {
        assert Fits(h, m);
        HeldLog(s, h, a.packet.to);
      }
    }
  }

  /** Net-A, and no leader counts a stale acknowledgement for its own entries: every
      leader's next indexes are in range throughout, in whatever order appends arrive. */
  lemma IndexesWithFairCounts(r: Run)
    requires IsRunA(r) && forall k | 0 <= k < |r.actions| :: !CountsStaleAt(r.states[k], r.actions[k])
    ensures forall k | 0 <= k < |r.states| :: IndexesInRange(r.states[k])
  {
    IndexesInRangeExactly(r);
    hide InvA, InvG, Initial, Apply, Enabled, RepliesFit, OverlongDelivery, CountsStaleAt;
    forall k | 0 <= k < |r.actions| ensures !OverlongDelivery(r.states[k], r.actions[k]) {
      var hs := Histories(r, k, false);
      RepliesFitUpTo(r, hs, k);
      assert StepAt(r, k) && Ready(r.states[k], hs[k], false);
      EnabledAt(r, k);
      FittingIsNotOverlong(r.states[k], hs[k], r.actions[k]);
    }
  }

  lemma GuardedIsFair(r: Run)
    requires IsRunG(r)
    ensures forall k | 0 <= k < |r.actions| :: !CountsStaleAt(r.states[k], r.actions[k])
  {
    hide StepAt, Initial, DropsOwn, CountsStale;
    forall k | 0 <= k < |r.actions| ensures !CountsStaleAt(r.states[k], r.actions[k]) {
      assert NetG(r.states[k], r.actions[k]);
    }
  }

  /** In particular without stale replies. */
  lemma IndexesWithoutStaleReplies(r: Run)
    requires IsRunOf(NoStaleReplies, r)
    ensures forall k | 0 <= k < |r.states| :: IndexesInRange(r.states[k])
  {
    hide StepAt, Initial, CountsStale;
    forall k | 0 <= k < |r.actions| ensures !CountsStaleAt(r.states[k], r.actions[k]) {
      assert Allowed(NoStaleReplies, r.states[k], r.actions[k]);
      FreshIsFair(r.states[k], r.actions[k]);
    }
    IndexesWithFairCounts(r);
  }

  lemma FreshIsFair(s: Cluster, a: Action)
    requires Allowed(NoStaleReplies, s, a)
    ensures !CountsStaleAt(s, a)
  {
  }

  lemma EnabledAt(r: Run, k: nat)
    requires IsRunA(r) && k < |r.actions|
    ensures Enabled(r.states[k], r.actions[k])
  {
    assert StepAt(r, k);
  }

  // --- when Net-A alone keeps the commit index --------------------------------------------------------------

  /** The append cuts the log below the commit index, which stays where it is. */
  predicate CutsBelow(n: NodeState, m: Msg) {
    Takes(n, m) && EndOf(m) < n.commit && m.leaderCommit <= n.commit
  }

  /** The append cuts the log below the commit index and pulls that back with it. */
  predicate PullsBack(n: NodeState, m: Msg) {
    Takes(n, m) && EndOf(m) < n.commit && m.leaderCommit > n.commit
  }

  predicate CutsBelowAt(s: Cluster, a: Action) {
    a.Deliver? && a.packet.to in s.nodes && CutsBelow(s.nodes[a.packet.to], a.packet.msg)
  }

  predicate PullsBackAt(s: Cluster, a: Action) {
    a.Deliver? && a.packet.to in s.nodes && PullsBack(s.nodes[a.packet.to], a.packet.msg)
  }

  /** What an append taken over does to the commit index, exactly. */
  lemma TakenAppendExactly(n: NodeState, m: Msg)
    requires Takes(n, m)
    ensures CommitInRange(Stepped(n, m).node) <==> n.commit <= EndOf(m) || m.leaderCommit > n.commit
    ensures Stepped(n, m).node.commit >= n.commit <==> n.commit <= EndOf(m) || m.leaderCommit <= n.commit
  {
  }

  lemma StepKeepsCommitRange(n: NodeState, m: Msg)
    requires CommitInRange(n) && !Takes(n, m)
    ensures CommitInRange(Stepped(n, m).node)
  {
    hide Appends, BroadcastSafe, UpToDate;
  }

  lemma CallKeepsCommitRange(n: NodeState)
    requires CommitInRange(n)
    ensures TickSafe(n) ==> CommitInRange(Ticked(n).node)
    ensures forall data | n.role.Leader? && ProposeSafe(n, data) :: CommitInRange(Proposed(n, data).value.node)
  {
    hide Appends, BroadcastSafe, TickSafe;
  }

  ghost predicate CommitsInRange(s: Cluster) {
    forall n | n in s.nodes :: CommitInRange(s.nodes[n])
  }

  ghost predicate CommitsRise(s: Cluster, s': Cluster) {
    forall n | n in s.nodes :: n in s'.nodes && s.nodes[n].commit <= s'.nodes[n].commit
  }

  lemma ActionCommitRange(s: Cluster, h: History, a: Action)
    requires InvA(s, h) && Enabled(s, a) && CommitsInRange(s)
    ensures CommitsInRange(Apply(s, a)) <==> !CutsBelowAt(s, a)
  {
    hide InvA, Copies, TickSafe, ProposeSafe, Stepped, Ticked, Proposed, CommitInRange, Takes;
    Named(s, h);
    CallKeepsId(s, a);
    match a
    case Tick(n) =>
      CallKeepsCommitRange(s.nodes[n]);
    case Propose(n, data) =>
      CallKeepsCommitRange(s.nodes[n]);
    case Drop(p) =>
    case Deliver(p) =>
      var x, m := s.nodes[p.to], p.msg;
      assert Apply(s, a).nodes == s.nodes[p.to := Stepped(x, m).node];
      assert Apply(s, a).nodes[p.to] == Stepped(x, m).node;
      if Takes(x, m) {
        TakenAppendExactly(x, m);
        assert CommitInRange(Apply(s, a).nodes[p.to]) <==> !CutsBelow(x, m);
      } else {
        StepKeepsCommitRange(x, m);
      }
  }

  lemma ActionCommitRise(s: Cluster, h: History, a: Action)
    requires InvA(s, h) && Enabled(s, a)
    ensures CommitsRise(s, Apply(s, a)) <==> !PullsBackAt(s, a)
  {
    hide InvA, Copies, TickSafe, ProposeSafe, Stepped, Ticked, Proposed, CommitInRange, Takes;
    Named(s, h);
    CallKeepsId(s, a);
    match a
    case Tick(n) =>
      CallKeepsCommit(s.nodes[n]);
    case Propose(n, data) =>
      CallKeepsCommit(s.nodes[n]);
    case Drop(p) =>
    case Deliver(p) =>
      var x, m := s.nodes[p.to], p.msg;
      assert Apply(s, a).nodes == s.nodes[p.to := Stepped(x, m).node];
      if Takes(x, m) {
        TakenAppendExactly(x, m);
      } else {
        UntakenKeepsCommit(x, m);
      }
  }

  lemma UntakenKeepsCommit(n: NodeState, m: Msg)
    requires !Takes(n, m)
    ensures Stepped(n, m).node.commit >= n.commit
  {
    hide Stepped, Consistent;
    StepKeepsCommit(n, m);
  }

  lemma InitialCommits(s: Cluster)
    requires Initial(s)
    ensures CommitsInRange(s)
  {
    hide GoodPeers;
  }

  lemma {:induction false} CommitsUpTo(r: Run, k: nat)
    requires IsRunA(r) && k < |r.states|
    requires forall i | 0 <= i < k :: !CutsBelowAt(r.states[i], r.actions[i])
    ensures CommitsInRange(r.states[k])
  {
    hide InvA, InvG, Apply, Enabled, CutsBelowAt, CommitsInRange, Initial;
    if k == 0 {
      InitialCommits(r.states[0]);
    } else {
      CommitsUpTo(r, k - 1);
      var hs := Histories(r, k - 1, false);
      assert StepAt(r, k - 1) && Ready(r.states[k - 1], hs[k - 1], false);
      ActionCommitRange(r.states[k - 1], hs[k - 1], r.actions[k - 1]);
    }
  }

  /** Net-A: throughout a run every commit index is within its log exactly when no node
      takes over an append that ends below its commit index and does not move it. */
  lemma CommitsInRangeExactly(r: Run)
    requires IsRunA(r)
    ensures (forall k | 0 <= k < |r.states| :: CommitsInRange(r.states[k])) <==>
              forall k | 0 <= k < |r.actions| :: !CutsBelowAt(r.states[k], r.actions[k])
  {
    hide InvA, InvG, Apply, Enabled, CutsBelowAt, CommitsInRange, Initial;
    if forall k | 0 <= k < |r.actions| :: !CutsBelowAt(r.states[k], r.actions[k]) {
      forall k | 0 <= k < |r.states| ensures CommitsInRange(r.states[k]) {
        CommitsUpTo(r, k);
      }
    }
    if forall k | 0 <= k < |r.states| :: CommitsInRange(r.states[k]) {
      forall k | 0 <= k < |r.actions| ensures !CutsBelowAt(r.states[k], r.actions[k]) {
        var hs := Histories(r, k, false);
        assert StepAt(r, k) && Ready(r.states[k], hs[k], false) && CommitsInRange(r.states[k + 1]);
        ActionCommitRange(r.states[k], hs[k], r.actions[k]);
      }
    }
  }

  /** Net-A: throughout a run no commit index falls exactly when no node takes over an
      append that ends below its commit index and moves it. */
  lemma CommitsRiseExactly(r: Run)
    requires IsRunA(r)
    ensures (forall k | 0 <= k < |r.actions| :: CommitsRise(r.states[k], r.states[k + 1])) <==>
              forall k | 0 <= k < |r.actions| :: !PullsBackAt(r.states[k], r.actions[k])
  {
    hide InvA, InvG, Apply, Enabled, PullsBackAt, CommitsRise, Initial;
    if forall k | 0 <= k < |r.actions| :: !PullsBackAt(r.states[k], r.actions[k]) {
      forall k | 0 <= k < |r.actions| ensures CommitsRise(r.states[k], r.states[k + 1]) {
        assert !PullsBackAt(r.states[k], r.actions[k]);
        StepCommitRise(r, k);
      }
    }
    if forall k | 0 <= k < |r.actions| :: CommitsRise(r.states[k], r.states[k + 1]) {
      forall k | 0 <= k < |r.actions| ensures !PullsBackAt(r.states[k], r.actions[k]) {
        assert CommitsRise(r.states[k], r.states[k + 1]);
        StepCommitRise(r, k);
      }
    }
  }

  lemma StepCommitRise(r: Run, k: nat)
    requires IsRunA(r) && k < |r.actions|
    ensures CommitsRise(r.states[k], r.states[k + 1]) <==> !PullsBackAt(r.states[k], r.actions[k])
  {
    hide InvA, InvG, Apply, Enabled, PullsBackAt, CommitsRise, Initial;
    var hs := Histories(r, k, false);
    assert StepAt(r, k) && Ready(r.states[k], hs[k], false);
    ActionCommitRise(r.states[k], hs[k], r.actions[k]);
  }

  // --- commit stability -------------------------------------------------------------------------------------

  /** An accepted append reaches at least as far as the commit index. */
  lemma AppendCoversCommit(s: Cluster, h: History, p: Packet)
    requires InvA(s, h) && InvG(s, h) && p in s.net && p.to in s.nodes && p.msg.AppendEntries?
    requires p.msg.term >= s.nodes[p.to].term && Consistent(s.nodes[p.to], p.msg) && !CutsOwn(s.nodes[p.to].log, p.msg)
    ensures s.nodes[p.to].commit <= |Appended(s.nodes[p.to], p.msg).log|
  {
    hide ElectInv, LogInv, InvG, Backed, Consistent, Appended, CutsOwn;
    var x, t := s.nodes[p.to], p.msg.term;
    CommitBacking(s, h, p.to);
    AppendReaches(s, h, p);
    AcceptedLog(s, h, p);
    BackedOnward(s.nodes, h, s.nodes, h, x.log, x.log, x.commit, x.term, t, AckOf(h, x.term, p.to), AckOf(h, t, p.to));
    CommittedStays(s.nodes, h, x.log, x.commit, t, AckOf(h, t, p.to), EndOf(p.msg));
  }

  /** What an append in flight reaches in its leader's log. */
  lemma AppendReaches(s: Cluster, h: History, p: Packet)
    requires InvA(s, h) && InvG(s, h) && p in s.net && p.to in s.nodes && p.msg.AppendEntries?
    requires p.msg.term >= s.nodes[p.to].term && !CutsOwn(s.nodes[p.to].log, p.msg)
    ensures LaterLeadersKeep(s.nodes, h) && p.msg.term in h.elections && p.msg.term in h.leaderLog
    ensures EndOf(p.msg) <= |h.leaderLog[p.msg.term]| && h.elections[p.msg.term].base <= EndOf(p.msg)
    ensures AckOf(h, p.msg.term, p.to) <= EndOf(p.msg) && Onward(s.nodes, h, s.nodes, h)
  {
    hide ElectInv, CutsOwn;
    AckReaches(s, h, p);
    assert AppendsReach(s.net, h) && LaterLeadersKeep(s.nodes, h) && h.leaderLog.Keys == h.elections.Keys;
    assert AppendTraffic(h, p.msg);
    assert Onward(s.nodes, h, s.nodes, h) by { hide LogInv, KeepInv, CommitInv, AckInv; }
  }

  /** Only an accepted append can lower the commit index of a node. */
  lemma CallKeepsCommit(n: NodeState)
    ensures TickSafe(n) ==> Ticked(n).node.commit == n.commit
    ensures forall data | n.role.Leader? && ProposeSafe(n, data) :: Proposed(n, data).value.node.commit >= n.commit
  {
    hide Appends, BroadcastSafe, TickSafe;
  }

  lemma StepKeepsCommit(n: NodeState, m: Msg)
    ensures !(m.AppendEntries? && m.term >= n.term && Consistent(n, m)) ==> Stepped(n, m).node.commit >= n.commit
    ensures m.AppendEntries? && m.term >= n.term && Consistent(n, m) && n.commit <= |Appended(n, m).log| ==>
              Stepped(n, m).node.commit >= n.commit
  {
    hide Appends, BroadcastSafe, UpToDate;
  }

  lemma CommitNeverFalls(s: Cluster, h: History, a: Action, n: NodeId)
    requires InvA(s, h) && InvG(s, h) && Enabled(s, a) && NetG(s, a) && n in s.nodes
    ensures n in Apply(s, a).nodes && s.nodes[n].commit <= Apply(s, a).nodes[n].commit
  {
    hide InvA, InvG, Copies, TickSafe, ProposeSafe, Stepped, Ticked, Proposed, Consistent, Appended, CutsOwn;
    hide CountsStale;
    Named(s, h);
    CallKeepsCommit(s.nodes[n]);
    CallKeepsId(s, a);
    if a.Deliver? && a.packet.to == n {
      var x, m := s.nodes[n], a.packet.msg;
      StepKeepsCommit(x, m);
      if m.AppendEntries? && m.term >= x.term && Consistent(x, m) {
        AppendCoversCommit(s, h, a.packet);
      }
    }
  }

  lemma CallKeepsId(s: Cluster, a: Action)
    requires Enabled(s, a)
    ensures a.Tick? ==> Ticked(s.nodes[a.node]).node.id == s.nodes[a.node].id
    ensures a.Propose? && Proposed(s.nodes[a.node], a.data).Some? ==>
              Proposed(s.nodes[a.node], a.data).value.node.id == s.nodes[a.node].id
    ensures a.Propose? && Proposed(s.nodes[a.node], a.data).Some? ==> s.nodes[a.node].role.Leader?
    ensures a.Deliver? ==> Stepped(s.nodes[a.packet.to], a.packet.msg).node.id == s.nodes[a.packet.to].id
  {
    hide Appends, BroadcastSafe, TickSafe, ProposeSafe, UpToDate;
  }

  lemma Named(s: Cluster, h: History)
    requires InvA(s, h)
    ensures forall m | m in s.nodes :: s.nodes[m].id == m
  {
    hide ElectInv, LogInv;
    EnrolledAll(s, h);
  }

  lemma {:induction false} CommitOnlyRises(r: Run, i: nat, j: nat, n: NodeId)
    requires IsRunG(r) && i <= j < |r.states| && n in r.states[i].nodes
    ensures n in r.states[j].nodes && r.states[i].nodes[n].commit <= r.states[j].nodes[n].commit
    decreases j
  {
    hide InvA, InvG, Initial, Apply, Enabled, NetG, Grows, AcksRise;
    if i < j {
      CommitOnlyRises(r, i, j - 1, n);
      var hs := Histories(r, j - 1, true);
      assert StepAt(r, j - 1);
      assert Ready(r.states[j - 1], hs[j - 1], true);
      CommitNeverFalls(r.states[j - 1], hs[j - 1], r.actions[j - 1], n);
    }
  }

  /** Net-G: a node's committed sequence only ever grows by extension. */
  lemma CommitStability(r: Run, i: nat, j: nat, n: NodeId)
    requires IsRunG(r) && i <= j < |r.states| && n in r.states[i].nodes
    ensures n in r.states[j].nodes && CommitInRange(r.states[i].nodes[n]) && CommitInRange(r.states[j].nodes[n])
    ensures Committed(r.states[i].nodes[n]) <= Committed(r.states[j].nodes[n])
  {
    CommitOnlyRises(r, i, j, n);
    StateMachineSafety(r, i, j, n, n);
  }
}
