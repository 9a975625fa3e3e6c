/** What Net-G adds: acknowledgements are kept, committed entries are never lost
    (sections 5.4.2 and 5.4.3 of the Raft paper).

    An entry of term t at index i is *kept* by a log that agrees with the leader of
    t up to i, and *dead* when a quorum has moved past term t without having
    acknowledged it. Dead entries can never be committed, so "kept or dead" is what
    every log that matters satisfies, whether or not the entry is committed yet. */
module RaftCommit {
  import opened RaftCore
  import opened RaftCluster
  import opened RaftHistory
  import opened RaftElection
  import opened RaftLog

  // --- acknowledgements ------------------------------------------------------------

  ghost predicate AcksBounded(nodes: Nodes, h: History) {
    forall k | k in h.acks ::
      && k.term in h.leaderLog && h.acks[k] <= |h.leaderLog[k.term]|
      && k.node in nodes && k.term <= nodes[k.node].term
  }

  ghost predicate LeadersAckTheirs(nodes: Nodes, h: History) {
    forall n | n in nodes && nodes[n].role.Leader? :: AckOf(h, nodes[n].term, n) == |nodes[n].log|
  }

  /** A leader's `match_index` claims no entry of its own term that was not
      acknowledged, and its `next_index` stays in 1..=len+1. */
  ghost predicate IndexesSound(nodes: Nodes, h: History, n: NodeId)
    requires n in nodes && nodes[n].role.Leader?
  {
    var r := nodes[n].role;
    && (forall x | x in r.matchIndex ::
          && x in nodes && x != n
          && (r.matchIndex[x] <= AckOf(h, nodes[n].term, x) || Harmless(nodes[n], r.matchIndex[x])))
    && (forall x | x in r.nextIndex :: 1 <= r.nextIndex[x] <= |nodes[n].log| + 1)
  }

  ghost predicate LeadersSound(nodes: Nodes, h: History) {
    forall n | n in nodes && nodes[n].role.Leader? :: IndexesSound(nodes, h, n)
  }

  /** An append in flight reaches at least as far as what its leader had when
      elected. */
  ghost predicate AppendsReach(net: set<Packet>, h: History) {
    forall p | p in net && p.msg.AppendEntries? ::
      p.msg.term in h.elections && h.elections[p.msg.term].base <= EndOf(p.msg)
  }

  /** What a node acknowledged in its present term is still in its log. */
  ghost predicate AckInLog(h: History, n: NodeId, term: nat, log: seq<LogEntry>) {
    var a := AckOf(h, term, n);
    a > 0 ==> a <= |log| && term in h.leaderLog && a <= |h.leaderLog[term]| && log[..a] == h.leaderLog[term][..a]
  }

  ghost predicate AcksInLogs(nodes: Nodes, h: History) {
    forall n | n in nodes :: AckInLog(h, n, nodes[n].term, nodes[n].log)
  }

  ghost predicate RepliesAcked(net: set<Packet>, h: History) {
    forall p | p in net && p.msg.AppendReply? && p.msg.success :: p.msg.matched <= AckOf(h, p.msg.term, p.msg.from)
  }

  /** A vote request describes the log its candidate still has. */
  ghost predicate RequestsTruthful(nodes: Nodes, net: set<Packet>) {
    forall p | p in net && p.msg.RequestVote? && p.msg.candidate in nodes ::
      var c := nodes[p.msg.candidate];
      c.role.Candidate? && c.term == p.msg.term ==>
        p.msg.lastLogIndex == |c.log| && p.msg.lastLogTerm == LastTerm(c.log)
  }

  ghost predicate AckInv(s: Cluster, h: History) {
    && AcksBounded(s.nodes, h)
    && LeadersAckTheirs(s.nodes, h)
    && LeadersSound(s.nodes, h)
    && AppendsReach(s.net, h)
    && AcksInLogs(s.nodes, h)
    && RepliesAcked(s.net, h)
    && RequestsTruthful(s.nodes, s.net)
  }

  // --- kept or dead ------------------------------------------------------------------

  /** Index i of the log of term t's leader is an entry of term t. */
  ghost predicate IsEntryOf(h: History, t: nat, i: nat) {
    t in h.leaderLog && 1 <= i <= |h.leaderLog[t]| && h.leaderLog[t][i - 1].term == t
  }

  /** All of `q` left term t without acknowledging index i. */
  ghost predicate PassedBy(nodes: Nodes, h: History, q: set<NodeId>, t: nat, i: nat) {
    forall n | n in q :: n in nodes && nodes[n].term > t && AckOf(h, t, n) < i
  }

  ghost predicate Dead(nodes: Nodes, h: History, t: nat, i: nat) {
    exists q :: IsQuorum(nodes.Keys, q) && PassedBy(nodes, h, q, t, i)
  }

  ghost predicate Keeps(h: History, t: nat, i: nat, log: seq<LogEntry>)
    requires IsEntryOf(h, t, i)
  {
    i <= |log| && log[..i] == h.leaderLog[t][..i]
  }

  ghost predicate KeptOrDead(nodes: Nodes, h: History, t: nat, i: nat, log: seq<LogEntry>)
    requires IsEntryOf(h, t, i)
  {
    Keeps(h, t, i, log) || Dead(nodes, h, t, i)
  }

  ghost predicate AckedKept(nodes: Nodes, h: History) {
    forall n, t: nat, i: nat | n in nodes && IsEntryOf(h, t, i) && i <= AckOf(h, t, n) ::
      KeptOrDead(nodes, h, t, i, nodes[n].log)
  }

  function LogAtElection(h: History, t: nat): seq<LogEntry> {
    if t in h.elections && t in h.leaderLog && h.elections[t].base <= |h.leaderLog[t]|
    then h.leaderLog[t][..h.elections[t].base] else []
  }

  ghost predicate LaterLeadersKeep(nodes: Nodes, h: History) {
    forall t: nat, u: nat, i: nat | IsEntryOf(h, t, i) && u in h.elections && t < u ::
      KeptOrDead(nodes, h, t, i, LogAtElection(h, u))
  }

  /** A candidate's log keeps what each of its voters had acknowledged. */
  ghost predicate VotersKept(nodes: Nodes, h: History) {
    forall g, t: nat, i: nat | g in h.grants && IsEntryOf(h, t, i) && t < g.term && i <= AckOf(h, t, g.voter) &&
                     g.candidate in nodes && nodes[g.candidate].role.Candidate? &&
                     nodes[g.candidate].term == g.term ::
      KeptOrDead(nodes, h, t, i, nodes[g.candidate].log)
  }

  ghost predicate KeepInv(nodes: Nodes, h: History) {
    AckedKept(nodes, h) && LaterLeadersKeep(nodes, h) && VotersKept(nodes, h)
  }

  // --- commitment ----------------------------------------------------------------------

  ghost predicate AckedBy(h: History, q: set<NodeId>, t: nat, i: nat) {
    forall n | n in q :: AckOf(h, t, n) >= i
  }

  /** The entry is committed: a quorum acknowledged it in its own term. */
  ghost predicate Chosen(ids: set<NodeId>, h: History, t: nat, i: nat) {
    IsEntryOf(h, t, i) && exists q :: IsQuorum(ids, q) && AckedBy(h, q, t, i)
  }

  /** The first c entries of `log` are part of the chosen prefix (t, i). */
  ghost predicate Backing(ids: set<NodeId>, h: History, log: seq<LogEntry>, c: nat, term: nat, acked: nat,
                          t: nat, i: nat)
  {
    && Chosen(ids, h, t, i) && t <= term && c <= i && c <= |log|
    && log[..c] == h.leaderLog[t][..c]
    && (t == term ==> c <= acked)
  }

  ghost predicate Backed(ids: set<NodeId>, h: History, log: seq<LogEntry>, c: nat, term: nat, acked: nat) {
    c == 0 || exists t: nat, i: nat :: Backing(ids, h, log, c, term, acked, t, i)
  }

  ghost predicate NodesBacked(nodes: Nodes, h: History) {
    forall n | n in nodes ::
      Backed(nodes.Keys, h, nodes[n].log, nodes[n].commit, nodes[n].term, AckOf(h, nodes[n].term, n))
  }

  ghost predicate AppendBacked(ids: set<NodeId>, h: History, m: Msg)
    requires m.AppendEntries?
  {
    m.term in h.leaderLog &&
    Backed(ids, h, h.leaderLog[m.term], m.leaderCommit, m.term, |h.leaderLog[m.term]|)
  }

  ghost predicate AppendsBacked(ids: set<NodeId>, net: set<Packet>, h: History) {
    forall p | p in net && p.msg.AppendEntries? :: AppendBacked(ids, h, p.msg)
  }

  ghost predicate CommitInv(s: Cluster, h: History) {
    NodesBacked(s.nodes, h) && AppendsBacked(s.nodes.Keys, s.net, h)
  }

  ghost predicate InvA(s: Cluster, h: History) {
    ElectInv(s, h) && LogInv(s, h)
  }

  ghost predicate InvG(s: Cluster, h: History) {
    AckInv(s, h) && KeepInv(s.nodes, h) && CommitInv(s, h)
  }

  // --- what every step does to acknowledgements and terms -------------------------------

  /** Terms only rise, leader logs only grow, and acknowledgements of a term are
      frozen for nodes past it. */
  ghost predicate Onward(nodes: Nodes, h: History, nodes': Nodes, h': History) {
    && nodes'.Keys == nodes.Keys
    && (forall n | n in nodes :: nodes'[n].term >= nodes[n].term)
    && LogsGrow(h, h')
    && (forall t: nat, n :: n in nodes && nodes[n].term > t ==> AckOf(h', t, n) == AckOf(h, t, n))
    && (forall t: nat, n :: AckOf(h, t, n) <= AckOf(h', t, n))
  }

  lemma DeadOnward(nodes: Nodes, h: History, nodes': Nodes, h': History, t: nat, i: nat)
    requires Onward(nodes, h, nodes', h') && Dead(nodes, h, t, i)
    ensures Dead(nodes', h', t, i)
  {
    var q :| IsQuorum(nodes.Keys, q) && PassedBy(nodes, h, q, t, i);
    assert PassedBy(nodes', h', q, t, i);
  }

  lemma KeptOnward(nodes: Nodes, h: History, nodes': Nodes, h': History, t: nat, i: nat,
                   log: seq<LogEntry>, log': seq<LogEntry>)
    requires Onward(nodes, h, nodes', h') && IsEntryOf(h, t, i) && KeptOrDead(nodes, h, t, i, log)
    requires log <= log'
    ensures IsEntryOf(h', t, i) && KeptOrDead(nodes', h', t, i, log')
  {
    EntryOnward(h, h', t, i);
    if Keeps(h, t, i, log) {
      assert log'[..i] == log[..i];
    } else {
      DeadOnward(nodes, h, nodes', h', t, i);
    }
  }

  lemma EntryOnward(h: History, h': History, t: nat, i: nat)
    requires LogsGrow(h, h') && IsEntryOf(h, t, i)
    ensures IsEntryOf(h', t, i) && h'.leaderLog[t][..i] == h.leaderLog[t][..i]
  {
  }

  lemma ChosenOnward(nodes: Nodes, h: History, nodes': Nodes, h': History, t: nat, i: nat)
    requires Onward(nodes, h, nodes', h') && Chosen(nodes.Keys, h, t, i)
    ensures Chosen(nodes'.Keys, h', t, i) && h'.leaderLog[t][..i] == h.leaderLog[t][..i]
  {
    EntryOnward(h, h', t, i);
    var q :| IsQuorum(nodes.Keys, q) && AckedBy(h, q, t, i);
    assert AckedBy(h', q, t, i);
  }

  /** A chosen entry is not dead. */
  lemma ChosenLives(nodes: Nodes, h: History, t: nat, i: nat)
    requires Chosen(nodes.Keys, h, t, i)
    ensures !Dead(nodes, h, t, i)
  {
    if Dead(nodes, h, t, i) {
      var q :| IsQuorum(nodes.Keys, q) && PassedBy(nodes, h, q, t, i);
      var a :| IsQuorum(nodes.Keys, a) && AckedBy(h, a, t, i);
      var n := QuorumsMeet(nodes.Keys, q, a);
      assert false;
    }
  }

  lemma BackedOnward(nodes: Nodes, h: History, nodes': Nodes, h': History, log: seq<LogEntry>, log': seq<LogEntry>,
                     c: nat, term: nat, term': nat, acked: nat, acked': nat)
    requires Onward(nodes, h, nodes', h') && Backed(nodes.Keys, h, log, c, term, acked)
    requires log <= log' && term <= term' && (term == term' ==> acked <= acked')
    ensures Backed(nodes'.Keys, h', log', c, term', acked')
  {
    if c > 0 {
      var t: nat, i: nat :| Backing(nodes.Keys, h, log, c, term, acked, t, i);
      ChosenOnward(nodes, h, nodes', h', t, i);
      assert log'[..c] == log[..c];
      assert h'.leaderLog[t][..c] == h.leaderLog[t][..c] by {
        assert h'.leaderLog[t][..i][..c] == h'.leaderLog[t][..c];
        assert h.leaderLog[t][..i][..c] == h.leaderLog[t][..c];
      }
      assert Backing(nodes'.Keys, h', log', c, term', acked', t, i);
    }
  }
}
