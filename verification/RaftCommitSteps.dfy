/** The Net-G half of the invariant under every elementary effect. */
module RaftCommitSteps {
  import opened RaftCore
  import opened RaftCluster
  import opened RaftHistory
  import opened RaftElection
  import opened RaftLog
  import opened RaftCommit

  // --- carrying "kept or dead" over a step -------------------------------------------------

  lemma AckedOnward(nodes: Nodes, h: History, nodes': Nodes, h': History)
    requires Onward(nodes, h, nodes', h') && AckedKept(nodes, h)
    requires forall m | m in nodes :: nodes[m].log <= nodes'[m].log
    requires forall m, t: nat, i: nat | m in nodes && IsEntryOf(h', t, i) && i <= AckOf(h', t, m) ::
               (IsEntryOf(h, t, i) && i <= AckOf(h, t, m)) || Keeps(h', t, i, nodes'[m].log)
    ensures AckedKept(nodes', h')
  {
    forall m, t: nat, i: nat | m in nodes' && IsEntryOf(h', t, i) && i <= AckOf(h', t, m)
      ensures KeptOrDead(nodes', h', t, i, nodes'[m].log)
    {
      if !Keeps(h', t, i, nodes'[m].log) {
        assert IsEntryOf(h, t, i) && i <= AckOf(h, t, m);
        hide Onward, IsEntryOf, AckOf;
        KeptOnward(nodes, h, nodes', h', t, i, nodes[m].log, nodes'[m].log);
      }
    }
  }

  lemma LaterOnward(nodes: Nodes, h: History, nodes': Nodes, h': History)
    requires Onward(nodes, h, nodes', h') && LaterLeadersKeep(nodes, h)
    requires forall t: nat, u: nat, i: nat | IsEntryOf(h', t, i) && u in h'.elections && t < u ::
               (IsEntryOf(h, t, i) && u in h.elections && LogAtElection(h', u) == LogAtElection(h, u)) ||
               KeptOrDead(nodes', h', t, i, LogAtElection(h', u))
    ensures LaterLeadersKeep(nodes', h')
  {
    forall t: nat, u: nat, i: nat | IsEntryOf(h', t, i) && u in h'.elections && t < u
      ensures KeptOrDead(nodes', h', t, i, LogAtElection(h', u))
    {
      if !KeptOrDead(nodes', h', t, i, LogAtElection(h', u)) {
        assert IsEntryOf(h, t, i);
        hide Onward, IsEntryOf, LogAtElection;
        KeptOnward(nodes, h, nodes', h', t, i, LogAtElection(h, u), LogAtElection(h', u));
      }
    }
  }

  /** Nobody becomes a candidate, and candidates keep their term and log. */
  predicate NoNewCandidates(nodes: Nodes, nodes': Nodes) {
    forall n | n in nodes' && nodes'[n].role.Candidate? ::
      n in nodes && nodes[n].role.Candidate? && nodes'[n].term == nodes[n].term && nodes'[n].log == nodes[n].log
  }

  lemma VotersOnward(nodes: Nodes, h: History, nodes': Nodes, h': History)
    requires Onward(nodes, h, nodes', h') && VotersKept(nodes, h)
    requires h'.grants == h.grants && NoNewCandidates(nodes, nodes')
    requires forall g, t: nat, i: nat |
                 g in h.grants && t < g.term && IsEntryOf(h', t, i) && i <= AckOf(h', t, g.voter) ::
               IsEntryOf(h, t, i) && i <= AckOf(h, t, g.voter)
    ensures VotersKept(nodes', h')
  {
    forall g, t: nat, i: nat | g in h'.grants && IsEntryOf(h', t, i) && t < g.term && i <= AckOf(h', t, g.voter) &&
                               g.candidate in nodes' && nodes'[g.candidate].role.Candidate? &&
                               nodes'[g.candidate].term == g.term
      ensures KeptOrDead(nodes', h', t, i, nodes'[g.candidate].log)
    {
      assert IsEntryOf(h, t, i) && i <= AckOf(h, t, g.voter);
      hide Onward, IsEntryOf, AckOf;
      KeptOnward(nodes, h, nodes', h', t, i, nodes[g.candidate].log, nodes'[g.candidate].log);
    }
  }

  lemma LeadersSoundOnward(nodes: Nodes, h: History, nodes': Nodes, h': History, n: NodeId)
    requires n in nodes && LeadersSound(nodes, h) && nodes'.Keys == nodes.Keys
    requires forall m | m in nodes && m != n :: nodes'[m] == nodes[m]
    requires forall t: nat, v :: AckOf(h, t, v) <= AckOf(h', t, v)
    requires nodes'[n].role.Leader? ==> IndexesSound(nodes', h', n)
    ensures LeadersSound(nodes', h')
  {
    forall m | m in nodes' && nodes'[m].role.Leader? ensures IndexesSound(nodes', h', m) {
      if m != n {
        assert IndexesSound(nodes, h, m);
      }
    }
  }

  // --- effects that touch neither logs nor acknowledgements ------------------------------

  /** Logs and all acknowledgements stay; terms may rise; no append and no
      acknowledgement is sent. */
  ghost predicate Calm(s: Cluster, h: History, s': Cluster, h': History) {
    && s'.nodes.Keys == s.nodes.Keys
    && (forall n | n in s.nodes ::
          && s'.nodes[n].log == s.nodes[n].log && s'.nodes[n].term >= s.nodes[n].term
          && (s'.nodes[n].role.Leader? ==> s.nodes[n].role.Leader? && s'.nodes[n].term == s.nodes[n].term))
    && (forall p | p in s'.net && (p.msg.AppendEntries? || (p.msg.AppendReply? && p.msg.success)) :: p in s.net)
    && h'.acks == h.acks && h'.leaderLog == h.leaderLog && h'.elections == h.elections
  }

  predicate CommitsSame(nodes: Nodes, nodes': Nodes) {
    forall n | n in nodes && n in nodes' :: nodes'[n].commit == nodes[n].commit
  }

  predicate IndexesSame(nodes: Nodes, nodes': Nodes) {
    forall n | n in nodes && n in nodes' && nodes'[n].role.Leader? :: nodes'[n].role == nodes[n].role
  }

  /** Candidates and their requests stay as they were. */
  ghost predicate CalmVotes(s: Cluster, h: History, s': Cluster, h': History) {
    && s'.nodes.Keys == s.nodes.Keys
    && (forall n | n in s.nodes && s'.nodes[n].role.Candidate? ::
          s.nodes[n].role.Candidate? && s'.nodes[n].term == s.nodes[n].term && s'.nodes[n].log == s.nodes[n].log)
    && (forall p | p in s'.net && p.msg.RequestVote? :: p in s.net)
  }

  lemma CalmOnward(s: Cluster, h: History, s': Cluster, h': History)
    requires Calm(s, h, s', h')
    ensures Onward(s.nodes, h, s'.nodes, h')
  {
  }

  lemma CalmKeepsAcks(s: Cluster, h: History, s': Cluster, h': History)
    requires Calm(s, h, s', h') && AcksBounded(s.nodes, h) && LeadersAckTheirs(s.nodes, h)
    requires AppendsReach(s.net, h) && AcksInLogs(s.nodes, h) && RepliesAcked(s.net, h)
    ensures AcksBounded(s'.nodes, h') && LeadersAckTheirs(s'.nodes, h')
    ensures AppendsReach(s'.net, h') && AcksInLogs(s'.nodes, h') && RepliesAcked(s'.net, h')
  {
    forall n | n in s'.nodes ensures AckInLog(h', n, s'.nodes[n].term, s'.nodes[n].log) {
      assert AckInLog(h, n, s.nodes[n].term, s.nodes[n].log);
      assert Ack(s'.nodes[n].term, n) in h.acks ==> s'.nodes[n].term == s.nodes[n].term;
    }
  }

  lemma CalmKeepsSound(s: Cluster, h: History, s': Cluster, h': History)
    requires Calm(s, h, s', h') && LeadersSound(s.nodes, h) && IndexesSame(s.nodes, s'.nodes)
    ensures LeadersSound(s'.nodes, h')
  {
    forall n | n in s'.nodes && s'.nodes[n].role.Leader? ensures IndexesSound(s'.nodes, h', n) {
      assert IndexesSound(s.nodes, h, n);
    }
  }

  lemma CalmKeepsKept(s: Cluster, h: History, s': Cluster, h': History)
    requires Calm(s, h, s', h') && AckedKept(s.nodes, h) && LaterLeadersKeep(s.nodes, h)
    ensures AckedKept(s'.nodes, h') && LaterLeadersKeep(s'.nodes, h')
  {
    CalmOnward(s, h, s', h');
    AckedOnward(s.nodes, h, s'.nodes, h');
    LaterOnward(s.nodes, h, s'.nodes, h');
  }

  lemma CalmKeepsVoters(s: Cluster, h: History, s': Cluster, h': History)
    requires Calm(s, h, s', h') && CalmVotes(s, h, s', h') && h'.grants == h.grants
    requires VotersKept(s.nodes, h) && RequestsTruthful(s.nodes, s.net)
    ensures VotersKept(s'.nodes, h')
    ensures RequestsTruthful(s'.nodes, s'.net)
  {
    CalmOnward(s, h, s', h');
    VotersOnward(s.nodes, h, s'.nodes, h');
  }

  lemma CalmKeepsCommits(s: Cluster, h: History, s': Cluster, h': History)
    requires Calm(s, h, s', h') && CommitInv(s, h) && CommitsSame(s.nodes, s'.nodes)
    ensures CommitInv(s', h')
  {
    CalmOnward(s, h, s', h');
    forall n | n in s'.nodes
      ensures Backed(s'.nodes.Keys, h', s'.nodes[n].log, s'.nodes[n].commit, s'.nodes[n].term,
                     AckOf(h', s'.nodes[n].term, n))
    {
      var x, y := s.nodes[n], s'.nodes[n];
      BackedOnward(s.nodes, h, s'.nodes, h', x.log, y.log, x.commit, x.term, y.term, AckOf(h, x.term, n),
                   AckOf(h', y.term, n));
    }
    forall p | p in s'.net && p.msg.AppendEntries? ensures AppendBacked(s'.nodes.Keys, h', p.msg) {
      AppendBackedOnward(s.nodes, h, s'.nodes, h', p.msg);
    }
  }

  lemma AppendBackedOnward(nodes: Nodes, h: History, nodes': Nodes, h': History, m: Msg)
    requires Onward(nodes, h, nodes', h') && m.AppendEntries? && AppendBacked(nodes.Keys, h, m)
    ensures AppendBacked(nodes'.Keys, h', m)
  {
    var a, b := h.leaderLog[m.term], h'.leaderLog[m.term];
    BackedOnward(nodes, h, nodes', h', a, b, m.leaderCommit, m.term, m.term, |a|, |b|);
  }

  lemma CalmKeeps(s: Cluster, h: History, s': Cluster, h': History)
    requires InvG(s, h) && Calm(s, h, s', h') && CalmVotes(s, h, s', h') && h'.grants == h.grants
    requires CommitsSame(s.nodes, s'.nodes) && IndexesSame(s.nodes, s'.nodes)
    ensures InvG(s', h')
  {
    hide AcksBounded, LeadersAckTheirs, LeadersSound, AppendsReach, AcksInLogs, RepliesAcked, RequestsTruthful;
    hide AckedKept, LaterLeadersKeep, VotersKept, CommitInv, Calm, CalmVotes;
    CalmKeepsSound(s, h, s', h');
    CalmKeepsAcks(s, h, s', h');
    CalmKeepsKept(s, h, s', h');
    CalmKeepsVoters(s, h, s', h');
    CalmKeepsCommits(s, h, s', h');
  }

  // --- standing for election ---------------------------------------------------------------

  lemma StoodIsCalm(s: Cluster, h: History, n: NodeId)
    requires n in s.nodes && WellFormed(s)
    ensures Calm(s, h, Stood(s, n), StoodHistory(s, h, n))
    ensures CommitsSame(s.nodes, Stood(s, n).nodes) && IndexesSame(s.nodes, Stood(s, n).nodes)
  {
    hide GoodPeers;
    var s' := Stood(s, n);
    assert s'.nodes.Keys == s.nodes.Keys;
    forall p | p in s'.net && p !in s.net ensures p.msg.RequestVote? {
      StoodPacket(s, n, p);
    }
  }

  lemma StoodKeepsVoters(s: Cluster, h: History, n: NodeId)
    requires ElectInv(s, h) && InvG(s, h) && n in s.nodes
    ensures VotersKept(Stood(s, n).nodes, StoodHistory(s, h, n))
  {
    hide GoodPeers, IsQuorum, VotesUniqueUntilElected, QuorumsLoyal, QuorumsKeepTheirVote, AllTraffic, CountsAreVoters;
    hide VotesSentOnce, AckInv, CommitInv, LaterLeadersKeep;
    var s', h' := Stood(s, n), StoodHistory(s, h, n);
    StoodIsCalm(s, h, n);
    CalmOnward(s, h, s', h');
    forall g, t: nat, i: nat | g in h'.grants && IsEntryOf(h', t, i) && t < g.term && i <= AckOf(h', t, g.voter) &&
                               g.candidate in s'.nodes && s'.nodes[g.candidate].role.Candidate? &&
                               s'.nodes[g.candidate].term == g.term
      ensures KeptOrDead(s'.nodes, h', t, i, s'.nodes[g.candidate].log)
    {
      assert IsEntryOf(h, t, i) && i <= AckOf(h, t, g.voter);
      assert g.candidate == n ==> g.voter == n;
      KeptOnward(s.nodes, h, s'.nodes, h', t, i, s.nodes[g.candidate].log, s'.nodes[g.candidate].log);
    }
  }

  lemma StoodKeepsRequests(s: Cluster, h: History, n: NodeId)
    requires ElectInv(s, h) && n in s.nodes && RequestsTruthful(s.nodes, s.net)
    ensures RequestsTruthful(Stood(s, n).nodes, Stood(s, n).net)
  {
    hide GoodPeers, IsQuorum, VotesUniqueUntilElected, QuorumsLoyal, QuorumsKeepTheirVote, CountsAreVoters;
    var s' := Stood(s, n);
    forall p | p in s'.net && p.msg.RequestVote? && p.msg.candidate in s'.nodes &&
               s'.nodes[p.msg.candidate].role.Candidate? && s'.nodes[p.msg.candidate].term == p.msg.term
      ensures p.msg.lastLogIndex == |s'.nodes[p.msg.candidate].log|
      ensures p.msg.lastLogTerm == LastTerm(s'.nodes[p.msg.candidate].log)
    {
      if p !in s.net {
        StoodPacket(s, n, p);
      } else {
        assert VoteTraffic(s.nodes, h, p);
      }
    }
  }

  lemma StoodKeepsG(s: Cluster, h: History, n: NodeId)
    requires ElectInv(s, h) && InvG(s, h) && n in s.nodes
    ensures InvG(Stood(s, n), StoodHistory(s, h, n))
  {
    var s', h' := Stood(s, n), StoodHistory(s, h, n);
    StoodIsCalm(s, h, n);
    CalmKeepsAcks(s, h, s', h');
    CalmKeepsSound(s, h, s', h');
    CalmKeepsKept(s, h, s', h');
    CalmKeepsCommits(s, h, s', h');
    StoodKeepsVoters(s, h, n);
    StoodKeepsRequests(s, h, n);
  }

  // --- granting a vote -----------------------------------------------------------------------

  /** The election restriction at work (section 5.4.1): what the voter keeps, an
      up-to-date candidate keeps as well. */
  lemma UpToDateKeeps(nodes: Nodes, h: History, voter: NodeId, log: seq<LogEntry>, t: nat, i: nat)
    requires voter in nodes && LeaderLogsCovered(h) && LeaderLogsGrown(h) && LaterLeadersKeep(nodes, h)
    requires LogCovered(h, log) && LogCovered(h, nodes[voter].log)
    requires IsEntryOf(h, t, i) && Keeps(h, t, i, nodes[voter].log)
    requires UpToDate(nodes[voter], |log|, LastTerm(log))
    ensures KeptOrDead(nodes, h, t, i, log)
  {
    var mine := nodes[voter].log;
    var j, k := |mine| - 1, |log| - 1;
    assert mine[i - 1] == mine[..i][i - 1] == h.leaderLog[t][..i][i - 1];
    TermsAscend(h, mine, i - 1, j);
    assert LastTerm(mine) >= t;
    if log == [] {
      assert false;
    }
    var u := log[k].term;
    assert Covered(h, log, k);
    if u == t {
      assert log == log[..k + 1] == h.leaderLog[t][..k + 1];
      assert log[..i] == h.leaderLog[t][..i];
    } else {
      assert u in h.elections && t < u;
      var early := LogAtElection(h, u);
      if Keeps(h, t, i, early) {
        assert h.leaderLog[u][k] == h.leaderLog[u][..k + 1][k] == log[k];
        assert h.elections[u].base <= k;
        assert log == log[..k + 1] == h.leaderLog[u][..k + 1];
        assert log[..i] == h.leaderLog[u][..i] == early[..i];
      }
    }
  }

  lemma VotedIsCalm(s: Cluster, h: History, p: Packet)
    requires p.to in s.nodes && p.msg.RequestVote?
    ensures Calm(s, h, Voted(s, p), VotedHistory(h, p))
    ensures CalmVotes(s, h, Voted(s, p), VotedHistory(h, p))
    ensures CommitsSame(s.nodes, Voted(s, p).nodes) && IndexesSame(s.nodes, Voted(s, p).nodes)
  {
    StampedOne(s.sent, p.msg.candidate, VoteReply(s.nodes[p.to].term, p.to, true));
    assert Voted(s, p).nodes.Keys == s.nodes.Keys;
  }

  /** The new grant: what the voter acknowledged, the candidate keeps. */
  lemma GrantKeeps(s: Cluster, h: History, p: Packet, t: nat, i: nat)
    requires InvA(s, h) && InvG(s, h) && p in s.net && p.msg.RequestVote? && Grants(s.nodes[p.to], p.msg)
    requires p.msg.candidate in s.nodes && s.nodes[p.msg.candidate].role.Candidate?
    requires s.nodes[p.msg.candidate].term == p.msg.term
    requires IsEntryOf(h, t, i) && i <= AckOf(h, t, p.to)
    ensures KeptOrDead(s.nodes, h, t, i, s.nodes[p.msg.candidate].log)
  {
    hide ElectInv, CommitInv, VotersKept;
    assert KeptOrDead(s.nodes, h, t, i, s.nodes[p.to].log);
    if Keeps(h, t, i, s.nodes[p.to].log) {
      UpToDateKeeps(s.nodes, h, p.to, s.nodes[p.msg.candidate].log, t, i);
    }
  }

  lemma VotedKeepsVoters(s: Cluster, h: History, p: Packet)
    requires InvA(s, h) && InvG(s, h) && p in s.net && p.msg.RequestVote? && p.to in s.nodes
    requires Grants(s.nodes[p.to], p.msg)
    ensures VotersKept(Voted(s, p).nodes, VotedHistory(h, p))
  {
    hide ElectInv, LogInv, AckInv, CommitInv, AckedKept, LaterLeadersKeep;
    var s', h' := Voted(s, p), VotedHistory(h, p);
    VotedIsCalm(s, h, p);
    CalmOnward(s, h, s', h');
    forall g, t: nat, i: nat | g in h'.grants && IsEntryOf(h', t, i) && t < g.term && i <= AckOf(h', t, g.voter) &&
                               g.candidate in s'.nodes && s'.nodes[g.candidate].role.Candidate? &&
                               s'.nodes[g.candidate].term == g.term
      ensures KeptOrDead(s'.nodes, h', t, i, s'.nodes[g.candidate].log)
    {
      assert IsEntryOf(h, t, i) && i <= AckOf(h, t, g.voter);
      if g !in h.grants {
        GrantKeeps(s, h, p, t, i);
      }
      KeptOnward(s.nodes, h, s'.nodes, h', t, i, s.nodes[g.candidate].log, s'.nodes[g.candidate].log);
    }
  }

  lemma VotedKeepsG(s: Cluster, h: History, p: Packet)
    requires InvA(s, h) && InvG(s, h) && p in s.net && p.msg.RequestVote? && p.to in s.nodes
    requires Grants(s.nodes[p.to], p.msg)
    ensures InvG(Voted(s, p), VotedHistory(h, p))
  {
    var s', h' := Voted(s, p), VotedHistory(h, p);
    VotedIsCalm(s, h, p);
    VotedKeepsVoters(s, h, p);
    CalmKeepsAcks(s, h, s', h');
    CalmKeepsSound(s, h, s', h');
    CalmKeepsKept(s, h, s', h');
    CalmKeepsCommits(s, h, s', h');
    assert RequestsTruthful(s'.nodes, s'.net);
  }

  // --- winning an election -------------------------------------------------------------------

  /** Nothing of the new term exists before its leader is elected. */
  lemma ElectedOnward(s: Cluster, h: History, n: NodeId)
    requires n in s.nodes && n in h.counted && s.nodes[n].term !in h.elections
    requires h.leaderLog.Keys == h.elections.Keys && AcksBounded(s.nodes, h)
    requires forall i | 0 <= i < |s.nodes[n].log| :: s.nodes[n].log[i].term < s.nodes[n].term
    ensures Onward(s.nodes, h, Elected(s, n).nodes, ElectedHistory(s, h, n))
    ensures forall t: nat, i: nat | IsEntryOf(ElectedHistory(s, h, n), t, i) ::
              IsEntryOf(h, t, i) && t != s.nodes[n].term
    ensures forall t: nat, v | t != s.nodes[n].term :: AckOf(ElectedHistory(s, h, n), t, v) == AckOf(h, t, v)
  {
    var h' := ElectedHistory(s, h, n);
    var t0 := s.nodes[n].term;
    forall v ensures AckOf(h, t0, v) == 0 {
      assert Ack(t0, v) !in h.acks;
    }
    assert Elected(s, n).nodes.Keys == s.nodes.Keys;
    assert LogsGrow(h, h');
  }

  lemma ElectedKeepsAcks(s: Cluster, h: History, n: NodeId)
    requires n in s.nodes && n in h.counted && s.nodes[n].term !in h.elections && s.nodes[n].id == n
    requires AcksBounded(s.nodes, h) && LeadersAckTheirs(s.nodes, h) && RequestsTruthful(s.nodes, s.net)
    requires h.leaderLog.Keys == h.elections.Keys && LeadersElected(s.nodes, h)
    ensures AcksBounded(Elected(s, n).nodes, ElectedHistory(s, h, n))
    ensures LeadersAckTheirs(Elected(s, n).nodes, ElectedHistory(s, h, n))
    ensures RequestsTruthful(Elected(s, n).nodes, Elected(s, n).net)
  {
  }

  lemma ElectedKeepsInLogs(s: Cluster, h: History, n: NodeId)
    requires n in s.nodes && n in h.counted && s.nodes[n].term !in h.elections
    requires h.leaderLog.Keys == h.elections.Keys && AcksBounded(s.nodes, h) && AcksInLogs(s.nodes, h)
    ensures AcksInLogs(Elected(s, n).nodes, ElectedHistory(s, h, n))
  {
    var s', h' := Elected(s, n), ElectedHistory(s, h, n);
    forall m | m in s'.nodes ensures AckInLog(h', m, s'.nodes[m].term, s'.nodes[m].log) {
      assert AckInLog(h, m, s.nodes[m].term, s.nodes[m].log);
      assert Ack(s.nodes[n].term, m) !in h.acks;
    }
  }

  lemma ElectedKeepsSound(s: Cluster, h: History, n: NodeId)
    requires n in s.nodes && n in h.counted && LeadersSound(s.nodes, h) && Membership(s.nodes)
    requires forall t: nat, v :: AckOf(h, t, v) <= AckOf(ElectedHistory(s, h, n), t, v)
    ensures LeadersSound(Elected(s, n).nodes, ElectedHistory(s, h, n))
  {
    var s', h' := Elected(s, n), ElectedHistory(s, h, n);
    assert GoodPeers(s.nodes.Keys, n, s.nodes[n].peers);
    assert s'.nodes.Keys == s.nodes.Keys;
    hide AckOf, Membership;
    LeadersSoundOnward(s.nodes, h, s'.nodes, h', n);
  }

  lemma ElectedKeepsTraffic(s: Cluster, h: History, n: NodeId)
    requires n in s.nodes && n in h.counted && s.nodes[n].term !in h.elections
    requires AppendsReach(s.net, h) && RepliesAcked(s.net, h)
    requires forall t: nat, v :: AckOf(h, t, v) <= AckOf(ElectedHistory(s, h, n), t, v)
    requires forall t: nat, v | t != s.nodes[n].term :: AckOf(ElectedHistory(s, h, n), t, v) == AckOf(h, t, v)
    ensures AppendsReach(Elected(s, n).net, ElectedHistory(s, h, n))
    ensures RepliesAcked(Elected(s, n).net, ElectedHistory(s, h, n))
  {
    hide AckOf;
  }

  /** The new leader's log keeps, or the quorum it won passed by, every entry of
      an earlier term: the core of leader completeness. */
  lemma QuorumKeeps(nodes: Nodes, h: History, n: NodeId, t: nat, i: nat)
    requires n in nodes && nodes[n].role.Candidate? && n in h.counted && IsQuorum(nodes.Keys, h.counted[n])
    requires CountsAreVoters(nodes, h) && GrantsInThePast(nodes, h) && VotersKept(nodes, h)
    requires IsEntryOf(h, t, i) && t < nodes[n].term
    ensures KeptOrDead(nodes, h, t, i, nodes[n].log)
  {
    hide IsQuorum;
    var q := h.counted[n];
    if v :| v in q && i <= AckOf(h, t, v) {
      assert Grant(v, n, nodes[n].term) in h.grants;
    } else {
      forall v | v in q ensures v in nodes && nodes[v].term > t && AckOf(h, t, v) < i {
        assert Grant(v, n, nodes[n].term) in h.grants;
      }
      assert PassedBy(nodes, h, q, t, i);
    }
  }

  lemma ElectedKeepsKept(s: Cluster, h: History, n: NodeId)
    requires n in s.nodes && n in h.counted && s.nodes[n].role.Candidate? && s.nodes[n].term !in h.elections
    requires IsQuorum(s.nodes.Keys, h.counted[n]) && h.leaderLog.Keys == h.elections.Keys
    requires CountsAreVoters(s.nodes, h) && GrantsInThePast(s.nodes, h) && KeepInv(s.nodes, h)
    requires Onward(s.nodes, h, Elected(s, n).nodes, ElectedHistory(s, h, n))
    requires forall t: nat, i: nat | IsEntryOf(ElectedHistory(s, h, n), t, i) ::
               IsEntryOf(h, t, i) && t != s.nodes[n].term
    requires forall t: nat, v | t != s.nodes[n].term :: AckOf(ElectedHistory(s, h, n), t, v) == AckOf(h, t, v)
    ensures KeepInv(Elected(s, n).nodes, ElectedHistory(s, h, n))
  {
    hide CountsAreVoters, GrantsInThePast, AckedKept, LaterLeadersKeep, VotersKept, IsEntryOf, AckOf, IsQuorum, Onward;
    var s', h' := Elected(s, n), ElectedHistory(s, h, n);
    AckedOnward(s.nodes, h, s'.nodes, h');
    VotersOnward(s.nodes, h, s'.nodes, h');
    forall t: nat, u: nat, i: nat | IsEntryOf(h', t, i) && u in h'.elections && t < u
      ensures (IsEntryOf(h, t, i) && u in h.elections && LogAtElection(h', u) == LogAtElection(h, u)) ||
              KeptOrDead(s'.nodes, h', t, i, LogAtElection(h', u))
    {
      if u == s.nodes[n].term {
        QuorumKeeps(s.nodes, h, n, t, i);
        KeptOnward(s.nodes, h, s'.nodes, h', t, i, s.nodes[n].log, LogAtElection(h', u));
      }
    }
    LaterOnward(s.nodes, h, s'.nodes, h');
  }

  /** Commits stay backed when logs, commits and terms of nodes stay. */
  lemma CommitsOnward(s: Cluster, h: History, s': Cluster, h': History)
    requires CommitInv(s, h) && Onward(s.nodes, h, s'.nodes, h')
    requires forall n | n in s.nodes ::
               s.nodes[n].log <= s'.nodes[n].log && s'.nodes[n].commit == s.nodes[n].commit &&
               s'.nodes[n].term == s.nodes[n].term
    requires forall p | p in s'.net && p.msg.AppendEntries? :: p in s.net
    ensures CommitInv(s', h')
  {
    forall n | n in s'.nodes
      ensures Backed(s'.nodes.Keys, h', s'.nodes[n].log, s'.nodes[n].commit, s'.nodes[n].term,
                     AckOf(h', s'.nodes[n].term, n))
    {
      var x, y := s.nodes[n], s'.nodes[n];
      BackedOnward(s.nodes, h, s'.nodes, h', x.log, y.log, x.commit, x.term, y.term, AckOf(h, x.term, n),
                   AckOf(h', y.term, n));
    }
    forall p | p in s'.net && p.msg.AppendEntries? ensures AppendBacked(s'.nodes.Keys, h', p.msg) {
      AppendBackedOnward(s.nodes, h, s'.nodes, h', p.msg);
    }
  }

  lemma ElectedKeepsG(s: Cluster, h: History, n: NodeId)
    requires InvA(s, h) && InvG(s, h) && n in s.nodes && s.nodes[n].role.Candidate?
    requires s.nodes[n].role.votes >= Majority(|s.nodes[n].peers|)
    ensures n in h.counted
    ensures InvG(Elected(s, n), ElectedHistory(s, h, n))
  {
    hide Membership, NetAddressed, RolesOwnTheirVote, GrantsInThePast, VotesUniqueUntilElected, QuorumsAreQuorums;
    hide QuorumsLoyal, QuorumsKeepTheirVote, LeadersStay, LeadersElected, CountsAreVoters, AllTraffic, VotesSentOnce;
    hide LeaderLogsGrown, LogsCovered, LogsBounded, LeadersHoldTheirLog, AppendsCovered, LogCovered;
    hide AcksBounded, LeadersAckTheirs, LeadersSound, AppendsReach, AcksInLogs, RepliesAcked, RequestsTruthful;
    hide AckedKept, LaterLeadersKeep, VotersKept, NodesBacked, AppendsBacked, IsQuorum, AckOf, Onward;
    hide IsEntryOf;
    FirstOfItsTerm(s, h, n);
    Enrolled(s.nodes, h, n);
    NewTermIsUnused(s, h, n);
    ElectedOnward(s, h, n);
    OnwardAcks(s.nodes, h, Elected(s, n).nodes, ElectedHistory(s, h, n));
    ElectedKeepsAcks(s, h, n);
    ElectedKeepsInLogs(s, h, n);
    ElectedKeepsSound(s, h, n);
    ElectedKeepsTraffic(s, h, n);
    ElectedKeepsKept(s, h, n);
    CommitsOnward(s, h, Elected(s, n), ElectedHistory(s, h, n));
  }

  lemma Enrolled(nodes: Nodes, h: History, n: NodeId)
    requires n in nodes && CountsAreVoters(nodes, h) && Membership(nodes)
    ensures n in h.counted && nodes[n].id == n
  {
  }

  lemma OnwardAcks(nodes: Nodes, h: History, nodes': Nodes, h': History)
    requires Onward(nodes, h, nodes', h')
    ensures forall t: nat, v :: AckOf(h, t, v) <= AckOf(h', t, v)
  {
  }

  // --- a leader's own entries ------------------------------------------------------------------

  lemma GrownOnward(s: Cluster, h: History, n: NodeId, data: seq<bv8>)
    requires n in s.nodes && s.nodes[n].role.Leader?
    requires LeadersHoldTheirLog(s.nodes, h) && LeadersAckTheirs(s.nodes, h)
    ensures Onward(s.nodes, h, Grown(s, n, data).nodes, GrownHistory(s, h, n, data))
    ensures s.nodes[n].term in h.leaderLog && h.leaderLog[s.nodes[n].term] == s.nodes[n].log
    ensures forall t: nat, v | t != s.nodes[n].term || v != n ::
              AckOf(GrownHistory(s, h, n, data), t, v) == AckOf(h, t, v)
    ensures forall t: nat, i: nat | IsEntryOf(GrownHistory(s, h, n, data), t, i) && !IsEntryOf(h, t, i) ::
              t == s.nodes[n].term && i == |s.nodes[n].log| + 1
  {
    var h' := GrownHistory(s, h, n, data);
    assert Grown(s, n, data).nodes.Keys == s.nodes.Keys;
    assert LogsGrow(h, h');
  }

  lemma GrownKeepsAcks(s: Cluster, h: History, n: NodeId, data: seq<bv8>)
    requires n in s.nodes && s.nodes[n].role.Leader?
    requires AcksBounded(s.nodes, h) && LeadersAckTheirs(s.nodes, h) && LeadersHoldTheirLog(s.nodes, h)
    requires RequestsTruthful(s.nodes, s.net)
    requires forall m | m in s.nodes && s.nodes[m].role.Leader? && s.nodes[m].term == s.nodes[n].term :: m == n
    ensures AcksBounded(Grown(s, n, data).nodes, GrownHistory(s, h, n, data))
    ensures LeadersAckTheirs(Grown(s, n, data).nodes, GrownHistory(s, h, n, data))
    ensures RequestsTruthful(Grown(s, n, data).nodes, s.net)
  {
  }

  lemma GrownKeepsInLogs(s: Cluster, h: History, n: NodeId, data: seq<bv8>)
    requires n in s.nodes && s.nodes[n].role.Leader? && LeadersHoldTheirLog(s.nodes, h) && AcksInLogs(s.nodes, h)
    ensures AcksInLogs(Grown(s, n, data).nodes, GrownHistory(s, h, n, data))
  {
    var s', h' := Grown(s, n, data), GrownHistory(s, h, n, data);
    forall m | m in s'.nodes ensures AckInLog(h', m, s'.nodes[m].term, s'.nodes[m].log) {
      assert AckInLog(h, m, s.nodes[m].term, s.nodes[m].log);
    }
  }

  lemma GrownKeepsSound(s: Cluster, h: History, n: NodeId, data: seq<bv8>)
    requires n in s.nodes && s.nodes[n].role.Leader? && LeadersSound(s.nodes, h)
    requires forall t: nat, v :: AckOf(h, t, v) <= AckOf(GrownHistory(s, h, n, data), t, v)
    ensures LeadersSound(Grown(s, n, data).nodes, GrownHistory(s, h, n, data))
  {
    hide AckOf;
    var s', h' := Grown(s, n, data), GrownHistory(s, h, n, data);
    assert s'.nodes.Keys == s.nodes.Keys;
    assert IndexesSound(s.nodes, h, n);
    LeadersSoundOnward(s.nodes, h, s'.nodes, h', n);
  }

  lemma GrownKeepsTraffic(s: Cluster, h: History, n: NodeId, data: seq<bv8>)
    requires n in s.nodes && AppendsReach(s.net, h) && RepliesAcked(s.net, h)
    requires forall t: nat, v :: AckOf(h, t, v) <= AckOf(GrownHistory(s, h, n, data), t, v)
    ensures AppendsReach(s.net, GrownHistory(s, h, n, data))
    ensures RepliesAcked(s.net, GrownHistory(s, h, n, data))
  {
    hide AckOf;
  }

  /** An entry a deposed leader still adds is dead on arrival. */
  lemma LateEntryIsDead(nodes: Nodes, h: History, nodes': Nodes, h': History, n: NodeId, u: nat)
    requires n in nodes && nodes[n].term in h.leaderLog && h.leaderLog[nodes[n].term] == nodes[n].log
    requires u in h.elections && u > nodes[n].term && QuorumsAreQuorums(nodes, h) && QuorumsLoyal(h)
    requires GrantsInThePast(nodes, h) && AcksBounded(nodes, h)
    requires Onward(nodes, h, nodes', h')
    requires forall t: nat, v | t != nodes[n].term || v != n :: AckOf(h', t, v) == AckOf(h, t, v)
    ensures Dead(nodes', h', nodes[n].term, |nodes[n].log| + 1)
  {
    hide IsQuorum;
    var t, i := nodes[n].term, |nodes[n].log| + 1;
    var q := h.elections[u].quorum;
    forall v | v in q ensures v in nodes' && nodes'[v].term > t && AckOf(h', t, v) < i {
      assert Grant(v, h.elections[u].leader, u) in h.grants;
      assert v != n;
      assert Ack(t, v) in h.acks ==> h.acks[Ack(t, v)] <= |h.leaderLog[t]|;
    }
    assert PassedBy(nodes', h', q, t, i);
  }

  lemma AckedEntry(nodes: Nodes, h: History, h': History, t: nat, i: nat, v: NodeId)
    requires AcksBounded(nodes, h) && LogsGrow(h, h') && IsEntryOf(h', t, i) && i <= AckOf(h, t, v)
    ensures IsEntryOf(h, t, i)
  {
    assert Ack(t, v) in h.acks;
  }

  lemma GrownKeepsAcked(s: Cluster, h: History, n: NodeId, data: seq<bv8>)
    requires n in s.nodes && Onward(s.nodes, h, Grown(s, n, data).nodes, GrownHistory(s, h, n, data))
    requires AcksBounded(s.nodes, h) && AckedKept(s.nodes, h)
    requires forall t: nat, v | t != s.nodes[n].term || v != n ::
               AckOf(GrownHistory(s, h, n, data), t, v) == AckOf(h, t, v)
    ensures AckedKept(Grown(s, n, data).nodes, GrownHistory(s, h, n, data))
  {
    hide AckOf, AcksBounded, AckedKept;
    var s', h' := Grown(s, n, data), GrownHistory(s, h, n, data);
    forall m, t: nat, i: nat | m in s.nodes && IsEntryOf(h', t, i) && i <= AckOf(h', t, m)
      ensures (IsEntryOf(h, t, i) && i <= AckOf(h, t, m)) || Keeps(h', t, i, s'.nodes[m].log)
    {
      if t == s.nodes[n].term && m == n {
        assert h'.leaderLog[t] == s'.nodes[m].log;
      } else {
        AckedEntry(s.nodes, h, h', t, i, m);
      }
    }
    AckedOnward(s.nodes, h, s'.nodes, h');
  }

  lemma LogAtElectionFixed(h: History, h': History, u: nat)
    requires LogsGrow(h, h') && h'.elections == h.elections && u in h.elections
    requires LeaderLogsGrown(h) && h.leaderLog.Keys == h.elections.Keys
    ensures LogAtElection(h', u) == LogAtElection(h, u)
  {
    var b := h.elections[u].base;
    assert h'.leaderLog[u][..b] == h.leaderLog[u][..b];
  }

  lemma GrownKeepsLater(s: Cluster, h: History, n: NodeId, data: seq<bv8>)
    requires n in s.nodes && Onward(s.nodes, h, Grown(s, n, data).nodes, GrownHistory(s, h, n, data))
    requires s.nodes[n].term in h.leaderLog && h.leaderLog[s.nodes[n].term] == s.nodes[n].log
    requires QuorumsAreQuorums(s.nodes, h) && QuorumsLoyal(h) && GrantsInThePast(s.nodes, h) && AcksBounded(s.nodes, h)
    requires LeaderLogsGrown(h) && h.leaderLog.Keys == h.elections.Keys && LaterLeadersKeep(s.nodes, h)
    requires forall t: nat, v | t != s.nodes[n].term || v != n ::
               AckOf(GrownHistory(s, h, n, data), t, v) == AckOf(h, t, v)
    requires forall t: nat, i: nat | IsEntryOf(GrownHistory(s, h, n, data), t, i) && !IsEntryOf(h, t, i) ::
               t == s.nodes[n].term && i == |s.nodes[n].log| + 1
    ensures LaterLeadersKeep(Grown(s, n, data).nodes, GrownHistory(s, h, n, data))
  {
    hide QuorumsAreQuorums, QuorumsLoyal, GrantsInThePast, AcksBounded, LeaderLogsGrown, LaterLeadersKeep;
    hide AckOf, IsEntryOf, LogAtElection;
    var s', h' := Grown(s, n, data), GrownHistory(s, h, n, data);
    forall t: nat, u: nat, i: nat | IsEntryOf(h', t, i) && u in h'.elections && t < u
      ensures (IsEntryOf(h, t, i) && u in h.elections && LogAtElection(h', u) == LogAtElection(h, u)) ||
              KeptOrDead(s'.nodes, h', t, i, LogAtElection(h', u))
    {
      LogAtElectionFixed(h, h', u);
      if !IsEntryOf(h, t, i) {
        LateEntryIsDead(s.nodes, h, s'.nodes, h', n, u);
      }
    }
    LaterOnward(s.nodes, h, s'.nodes, h');
  }

  lemma GrownKeepsVoters(s: Cluster, h: History, n: NodeId, data: seq<bv8>)
    requires n in s.nodes && s.nodes[n].role.Leader?
    requires Onward(s.nodes, h, Grown(s, n, data).nodes, GrownHistory(s, h, n, data))
    requires GrantsInThePast(s.nodes, h) && AcksBounded(s.nodes, h) && VotersKept(s.nodes, h)
    requires forall t: nat, v | t != s.nodes[n].term || v != n ::
               AckOf(GrownHistory(s, h, n, data), t, v) == AckOf(h, t, v)
    ensures VotersKept(Grown(s, n, data).nodes, GrownHistory(s, h, n, data))
  {
    hide AckOf, AcksBounded, VotersKept, IsEntryOf;
    var s', h' := Grown(s, n, data), GrownHistory(s, h, n, data);
    forall g, t: nat, i: nat | g in h.grants && t < g.term && IsEntryOf(h', t, i) && i <= AckOf(h', t, g.voter)
      ensures IsEntryOf(h, t, i) && i <= AckOf(h, t, g.voter)
    {
      AckedEntry(s.nodes, h, h', t, i, g.voter);
    }
    VotersOnward(s.nodes, h, s'.nodes, h');
  }

  lemma GrownKeepsG(s: Cluster, h: History, n: NodeId, data: seq<bv8>)
    requires InvA(s, h) && InvG(s, h) && n in s.nodes && s.nodes[n].role.Leader?
    ensures InvG(Grown(s, n, data), GrownHistory(s, h, n, data))
  {
    hide Membership, NetAddressed, RolesOwnTheirVote, GrantsInThePast, VotesUniqueUntilElected, QuorumsAreQuorums;
    hide QuorumsLoyal, QuorumsKeepTheirVote, LeadersStay, LeadersElected, CountsAreVoters, AllTraffic, VotesSentOnce;
    hide LeaderLogsGrown, LogsCovered, LogsBounded, LeadersHoldTheirLog, AppendsCovered, LogCovered;
    hide AcksBounded, LeadersAckTheirs, LeadersSound, AppendsReach, AcksInLogs, RepliesAcked, RequestsTruthful;
    hide AckedKept, LaterLeadersKeep, VotersKept, NodesBacked, AppendsBacked, IsQuorum, AckOf, Onward;
    hide IsEntryOf;
    OnlyItLeads(s, h, n);
    LeaderIsElected(s, h, n);
    GrownOnward(s, h, n, data);
    OnwardAcks(s.nodes, h, Grown(s, n, data).nodes, GrownHistory(s, h, n, data));
    GrownKeepsAcks(s, h, n, data);
    GrownKeepsInLogs(s, h, n, data);
    GrownKeepsSound(s, h, n, data);
    GrownKeepsTraffic(s, h, n, data);
    GrownKeepsAcked(s, h, n, data);
    GrownKeepsLater(s, h, n, data);
    GrownKeepsVoters(s, h, n, data);
    CommitsOnward(s, h, Grown(s, n, data), GrownHistory(s, h, n, data));
  }

  // --- broadcasting appends ----------------------------------------------------------------------

  lemma SentPacket(s: Cluster, n: NodeId, p: Packet)
    requires n in s.nodes && s.nodes[n].role.Leader? && BroadcastSafe(s.nodes[n])
    requires p in Sent(s, n).net && p !in s.net
    ensures s.sent <= p.seqNo && p.to in s.nodes[n].peers && p.msg == AppendFor(s.nodes[n], p.to)
    ensures EndOf(p.msg) == |s.nodes[n].log|
  {
    StampedCopy(s.sent, AppendCopies(s.nodes[n]), p);
    assert s.nodes[n].peers[p.seqNo - s.sent] in s.nodes[n].peers;
  }

  lemma SentKeepsReach(s: Cluster, h: History, n: NodeId)
    requires n in s.nodes && s.nodes[n].role.Leader? && BroadcastSafe(s.nodes[n]) && AppendsReach(s.net, h)
    requires LeadersHoldTheirLog(s.nodes, h) && LeaderLogsGrown(h) && h.leaderLog.Keys == h.elections.Keys
    ensures AppendsReach(Sent(s, n).net, h)
  {
    var s' := Sent(s, n);
    forall p | p in s'.net && p.msg.AppendEntries?
      ensures p.msg.term in h.elections && h.elections[p.msg.term].base <= EndOf(p.msg)
    {
      hide Sent;
      if p !in s.net {
        SentPacket(s, n, p);
      }
    }
  }

  lemma SentKeepsBacked(s: Cluster, h: History, n: NodeId)
    requires n in s.nodes && s.nodes[n].role.Leader? && BroadcastSafe(s.nodes[n])
    requires LeadersHoldTheirLog(s.nodes, h) && LeadersAckTheirs(s.nodes, h) && CommitInv(s, h)
    ensures CommitInv(Sent(s, n), h)
  {
    hide Backed;
    var s' := Sent(s, n);
    assert s'.nodes == s.nodes;
    forall p | p in s'.net && p.msg.AppendEntries? ensures AppendBacked(s.nodes.Keys, h, p.msg) {
      if p !in s.net {
        SentPacket(s, n, p);
      }
    }
  }

  lemma SentKeepsOthers(s: Cluster, h: History, n: NodeId)
    requires n in s.nodes && s.nodes[n].role.Leader? && BroadcastSafe(s.nodes[n])
    requires RepliesAcked(s.net, h) && RequestsTruthful(s.nodes, s.net)
    ensures RepliesAcked(Sent(s, n).net, h) && RequestsTruthful(Sent(s, n).nodes, Sent(s, n).net)
  {
    var s' := Sent(s, n);
    forall p | p in s'.net && !p.msg.AppendEntries? ensures p in s.net {
      if p !in s.net {
        SentPacket(s, n, p);
      }
    }
  }

  lemma SentKeepsG(s: Cluster, h: History, n: NodeId)
    requires InvA(s, h) && InvG(s, h) && n in s.nodes && s.nodes[n].role.Leader? && BroadcastSafe(s.nodes[n])
    ensures InvG(Sent(s, n), h)
  {
    hide Membership, NetAddressed, RolesOwnTheirVote, GrantsInThePast, VotesUniqueUntilElected, QuorumsAreQuorums;
    hide QuorumsLoyal, QuorumsKeepTheirVote, LeadersStay, LeadersElected, CountsAreVoters, AllTraffic, VotesSentOnce;
    hide LeaderLogsGrown, LogsCovered, LogsBounded, LeadersHoldTheirLog, AppendsCovered, LogCovered, AppendCopies;
    hide AcksBounded, LeadersAckTheirs, LeadersSound, AppendsReach, AcksInLogs, RepliesAcked, RequestsTruthful;
    hide KeepInv, CommitInv, BroadcastSafe;
    SentKeepsReach(s, h, n);
    SentKeepsOthers(s, h, n);
    SentKeepsBacked(s, h, n);
  }

  // --- advancing the commit index ------------------------------------------------------------------

  function CountedReplicas(n: NodeState, k: nat): set<NodeId>
    requires n.role.Leader?
  {
    {n.id} + set p | p in n.role.matchIndex && n.role.matchIndex[p] >= k
  }

  /** The counted replicas and the leader are a quorum. */
  lemma ReplicasAreQuorum(nodes: Nodes, h: History, n: NodeId, k: nat)
    requires n in nodes && nodes[n].role.Leader? && nodes[n].id == n && GoodPeers(nodes.Keys, n, nodes[n].peers)
    requires IndexesSound(nodes, h, n) && Committable(nodes[n], k)
    ensures IsQuorum(nodes.Keys, CountedReplicas(nodes[n], k))
  {
    var x := nodes[n];
    var others := set p | p in x.role.matchIndex && x.role.matchIndex[p] >= k;
    assert n !in others;
    assert |{n} + others| == 1 + |others|;
    PeerCount(nodes.Keys, n, x.peers);
  }

  /** A harmless index is counted for no entry of the leader's own term. */
  lemma HarmlessFallsShort(nodes: Nodes, h: History, n: NodeId, matched: nat, k: nat)
    requires n in nodes && nodes[n].role.Leader? && LeadersHoldTheirLog(nodes, h)
    requires LeaderLogsCovered(h) && LeaderLogsGrown(h)
    requires Harmless(nodes[n], matched) && 1 <= k <= |nodes[n].log| && nodes[n].log[k - 1].term == nodes[n].term
    ensures matched < k
  {
    hide LogCovered;
  }

  /** The counted replicas acknowledged. */
  lemma CountedAcked(nodes: Nodes, h: History, n: NodeId, k: nat)
    requires n in nodes && nodes[n].role.Leader? && nodes[n].id == n && Committable(nodes[n], k)
    requires IndexesSound(nodes, h, n) && LeadersAckTheirs(nodes, h) && LeadersHoldTheirLog(nodes, h)
    requires LeaderLogsCovered(h) && LeaderLogsGrown(h)
    ensures AckedBy(h, CountedReplicas(nodes[n], k), nodes[n].term, k)
  {
    hide LeaderLogsCovered, LeaderLogsGrown, LeadersHoldTheirLog, Replicas, AckOf, Harmless;
    var x := nodes[n];
    forall v | v in CountedReplicas(x, k) ensures AckOf(h, x.term, v) >= k {
      if v != n && Harmless(x, x.role.matchIndex[v]) {
        HarmlessFallsShort(nodes, h, n, x.role.matchIndex[v], k);
      }
    }
  }

  /** A committable index is chosen. */
  lemma CommittableIsChosen(nodes: Nodes, h: History, n: NodeId, k: nat)
    requires n in nodes && nodes[n].role.Leader? && Membership(nodes)
    requires LeadersSound(nodes, h) && LeadersAckTheirs(nodes, h) && LeadersHoldTheirLog(nodes, h)
    requires LeaderLogsCovered(h) && LeaderLogsGrown(h)
    requires Committable(nodes[n], k)
    ensures Chosen(nodes.Keys, h, nodes[n].term, k)
  {
    hide GoodPeers, IsQuorum, Replicas, LeaderLogsCovered, LeaderLogsGrown, AckedBy, IndexesSound;
    assert IndexesSound(nodes, h, n);
    assert GoodPeers(nodes.Keys, n, nodes[n].peers);
    ReplicasAreQuorum(nodes, h, n, k);
    CountedAcked(nodes, h, n, k);
  }

  lemma AdvancedBacked(nodes: Nodes, h: History, n: NodeId)
    requires n in nodes && nodes[n].role.Leader? && Membership(nodes) && NodesBacked(nodes, h)
    requires LeadersSound(nodes, h) && LeadersAckTheirs(nodes, h) && LeadersHoldTheirLog(nodes, h)
    requires LeaderLogsCovered(h) && LeaderLogsGrown(h)
    ensures var x := CommitAdvanced(nodes[n]);
            x.commit >= nodes[n].commit && Backed(nodes.Keys, h, x.log, x.commit, x.term, AckOf(h, x.term, n))
  {
    hide Membership, NodesBacked, LeaderLogsCovered, LeaderLogsGrown;
    var x := nodes[n];
    var c := HighestCommit(x, |x.log|);
    if c == x.commit {
      assert Backed(nodes.Keys, h, x.log, x.commit, x.term, AckOf(h, x.term, n)) by { BackedAt(nodes, h, n); }
    } else {
      CommittableIsChosen(nodes, h, n, c);
      assert Backing(nodes.Keys, h, x.log, c, x.term, AckOf(h, x.term, n), x.term, c);
    }
  }

  lemma BackedAt(nodes: Nodes, h: History, n: NodeId)
    requires n in nodes && NodesBacked(nodes, h)
    ensures Backed(nodes.Keys, h, nodes[n].log, nodes[n].commit, nodes[n].term, AckOf(h, nodes[n].term, n))
  {
  }

  lemma AdvancedIsCalm(s: Cluster, h: History, n: NodeId)
    requires n in s.nodes
    ensures Calm(s, h, Advanced(s, n), h) && CalmVotes(s, h, Advanced(s, n), h)
    ensures IndexesSame(s.nodes, Advanced(s, n).nodes)
  {
    assert Advanced(s, n).nodes.Keys == s.nodes.Keys;
  }

  lemma AdvancedKeepsCommits(s: Cluster, h: History, n: NodeId)
    requires n in s.nodes && s.nodes[n].role.Leader? && Membership(s.nodes) && CommitInv(s, h)
    requires LeadersSound(s.nodes, h) && LeadersAckTheirs(s.nodes, h) && LeadersHoldTheirLog(s.nodes, h)
    requires LeaderLogsCovered(h) && LeaderLogsGrown(h)
    ensures CommitInv(Advanced(s, n), h)
  {
    hide LeaderLogsCovered, LeaderLogsGrown, Membership, LeadersSound, LeadersAckTheirs, LeadersHoldTheirLog, Backed;
    AdvancedBacked(s.nodes, h, n);
    assert Advanced(s, n).nodes.Keys == s.nodes.Keys;
  }

  lemma AdvancedKeepsG(s: Cluster, h: History, n: NodeId)
    requires InvA(s, h) && InvG(s, h) && n in s.nodes && s.nodes[n].role.Leader?
    ensures InvG(Advanced(s, n), h)
  {
    hide Membership, NetAddressed, RolesOwnTheirVote, GrantsInThePast, VotesUniqueUntilElected, QuorumsAreQuorums;
    hide QuorumsLoyal, QuorumsKeepTheirVote, LeadersStay, LeadersElected, CountsAreVoters, AllTraffic, VotesSentOnce;
    hide LeaderLogsGrown, LogsCovered, LogsBounded, LeadersHoldTheirLog, AppendsCovered, LogCovered, LeaderLogsCovered;
    hide AcksBounded, LeadersAckTheirs, LeadersSound, AppendsReach, AcksInLogs, RepliesAcked, RequestsTruthful;
    hide AckedKept, LaterLeadersKeep, VotersKept, CommitInv, Calm, CalmVotes;
    var s' := Advanced(s, n);
    AdvancedIsCalm(s, h, n);
    CalmKeepsAcks(s, h, s', h);
    CalmKeepsSound(s, h, s', h);
    CalmKeepsKept(s, h, s', h);
    CalmKeepsVoters(s, h, s', h);
    AdvancedKeepsCommits(s, h, n);
  }

  // --- acknowledgements reaching the leader ------------------------------------------------------------

  lemma RecordedIsCalm(s: Cluster, h: History, p: Packet)
    requires p.to in s.nodes && s.nodes[p.to].role.Leader? && p.msg.AppendReply?
    ensures Calm(s, h, Recorded(s, p), h) && CalmVotes(s, h, Recorded(s, p), h)
    ensures CommitsSame(s.nodes, Recorded(s, p).nodes)
  {
    assert Recorded(s, p).nodes.Keys == s.nodes.Keys;
  }

  lemma RecordedKeepsSound(s: Cluster, h: History, p: Packet)
    requires p in s.net && p.to in s.nodes && s.nodes[p.to].role.Leader? && p.msg.AppendReply? && p.msg.success
    requires p.msg.term <= s.nodes[p.to].term && !CountsStale(s.nodes[p.to], p.msg)
    requires LeadersSound(s.nodes, h) && RepliesAcked(s.net, h) && VoteTraffic(s.nodes, h, p)
    requires AcksBounded(s.nodes, h) && LeadersHoldTheirLog(s.nodes, h)
    ensures LeadersSound(Recorded(s, p).nodes, h)
  {
    var s' := Recorded(s, p);
    var n := p.to;
    assert s'.nodes.Keys == s.nodes.Keys;
    assert IndexesSound(s.nodes, h, n);
    assert p.msg.matched <= |s.nodes[n].log| by {
      assert Ack(p.msg.term, p.msg.from) in h.acks || AckOf(h, p.msg.term, p.msg.from) == 0;
    }
    assert forall k: nat | Harmless(s.nodes[n], k) :: Harmless(s'.nodes[n], k);
    LeadersSoundOnward(s.nodes, h, s'.nodes, h, n);
  }

  lemma RecordedKeepsG(s: Cluster, h: History, p: Packet)
    requires InvA(s, h) && InvG(s, h) && p in s.net && p.to in s.nodes && s.nodes[p.to].role.Leader?
    requires p.msg.AppendReply? && p.msg.success
    requires p.msg.term <= s.nodes[p.to].term && !CountsStale(s.nodes[p.to], p.msg)
    ensures InvG(Recorded(s, p), h)
  {
    hide Membership, NetAddressed, RolesOwnTheirVote, GrantsInThePast, VotesUniqueUntilElected, QuorumsAreQuorums;
    hide QuorumsLoyal, QuorumsKeepTheirVote, LeadersStay, LeadersElected, CountsAreVoters, VoteTraffic, VotesSentOnce;
    hide LeaderLogsGrown, LogsCovered, LogsBounded, LeadersHoldTheirLog, AppendsCovered, LogCovered, LeaderLogsCovered;
    hide AcksBounded, LeadersAckTheirs, LeadersSound, AppendsReach, AcksInLogs, RepliesAcked, RequestsTruthful;
    hide AckedKept, LaterLeadersKeep, VotersKept, CommitInv, Calm, CalmVotes;
    var s' := Recorded(s, p);
    RecordedIsCalm(s, h, p);
    CalmKeepsAcks(s, h, s', h);
    RecordedKeepsSound(s, h, p);
    CalmKeepsKept(s, h, s', h);
    CalmKeepsVoters(s, h, s', h);
    CalmKeepsCommits(s, h, s', h);
  }

  lemma RetriedIsCalm(s: Cluster, h: History, p: Packet)
    requires p.to in s.nodes && s.nodes[p.to].role.Leader? && p.msg.AppendReply?
    ensures Calm(s, h, Retried(s, p), h) && CalmVotes(s, h, Retried(s, p), h)
    ensures CommitsSame(s.nodes, Retried(s, p).nodes)
  {
    assert Retried(s, p).nodes.Keys == s.nodes.Keys;
  }

  lemma RetriedKeepsSound(s: Cluster, h: History, p: Packet)
    requires p.to in s.nodes && s.nodes[p.to].role.Leader? && p.msg.AppendReply? && LeadersSound(s.nodes, h)
    ensures LeadersSound(Retried(s, p).nodes, h)
  {
    var s' := Retried(s, p);
    assert s'.nodes.Keys == s.nodes.Keys;
    assert IndexesSound(s.nodes, h, p.to);
    LeadersSoundOnward(s.nodes, h, s'.nodes, h, p.to);
  }

  lemma RetriedKeepsG(s: Cluster, h: History, p: Packet)
    requires InvG(s, h) && p.to in s.nodes && s.nodes[p.to].role.Leader? && p.msg.AppendReply?
    ensures InvG(Retried(s, p), h)
  {
    hide AcksBounded, LeadersAckTheirs, LeadersSound, AppendsReach, AcksInLogs, RepliesAcked, RequestsTruthful;
    hide AckedKept, LaterLeadersKeep, VotersKept, CommitInv, Calm, CalmVotes;
    var s' := Retried(s, p);
    RetriedIsCalm(s, h, p);
    CalmKeepsAcks(s, h, s', h);
    RetriedKeepsSound(s, h, p);
    CalmKeepsKept(s, h, s', h);
    CalmKeepsVoters(s, h, s', h);
    CalmKeepsCommits(s, h, s', h);
  }

  // --- replies -----------------------------------------------------------------------------------------

  lemma RepliedKeepsG(s: Cluster, h: History, to: NodeId, m: Msg)
    requires InvG(s, h)
    requires m.VoteReply? || (m.AppendReply? && (m.success ==> m.matched <= AckOf(h, m.term, m.from)))
    ensures InvG(Replied(s, to, m), h)
  {
    hide AcksBounded, LeadersAckTheirs, LeadersSound, AcksInLogs, KeepInv, NodesBacked, AckOf;
    StampedOne(s.sent, to, m);
  }

  // --- accepting an append --------------------------------------------------------------------------------

  /** The acceptor is a follower of the append's term, and drops no entry of it. */
  ghost predicate Acceptable(s: Cluster, p: Packet) {
    && p in s.net && p.to in s.nodes && p.msg.AppendEntries?
    && s.nodes[p.to].term == p.msg.term && s.nodes[p.to].role == Follower
    && Consistent(s.nodes[p.to], p.msg) && !CutsOwn(s.nodes[p.to].log, p.msg)
  }

  /** An append that cuts no entry of its own term reaches as far as what the node
      acknowledged in that term. */
  lemma AckReaches(s: Cluster, h: History, p: Packet)
    requires LogInv(s, h) && AcksBounded(s.nodes, h) && AcksInLogs(s.nodes, h) && AppendsReach(s.net, h)
    requires p in s.net && p.to in s.nodes && p.msg.AppendEntries? && s.nodes[p.to].term <= p.msg.term
    requires !CutsOwn(s.nodes[p.to].log, p.msg)
    ensures AckOf(h, p.msg.term, p.to) <= EndOf(p.msg)
  {
    if AckOf(h, p.msg.term, p.to) > EndOf(p.msg) {
      ShortAppendCuts(s, h, p);
    }
  }

  lemma ShortAppendCuts(s: Cluster, h: History, p: Packet)
    requires LogInv(s, h) && AcksBounded(s.nodes, h) && AcksInLogs(s.nodes, h) && AppendsReach(s.net, h)
    requires p in s.net && p.to in s.nodes && p.msg.AppendEntries? && s.nodes[p.to].term <= p.msg.term
    requires AckOf(h, p.msg.term, p.to) > EndOf(p.msg)
    ensures CutsOwn(s.nodes[p.to].log, p.msg)
  {
    hide AppendsCovered, LogCovered, LeadersHoldTheirLog;
    var x, t := s.nodes[p.to], p.msg.term;
    var a := AckOf(h, t, p.to);
    assert Ack(t, p.to) in h.acks && x.term == t;
    assert AckInLog(h, p.to, t, x.log);
    assert x.log[a - 1] == x.log[..a][a - 1] == h.leaderLog[t][..a][a - 1];
    assert h.leaderLog[t][a - 1].term == t;
    LogCoveredAt(s, h, p.to);
    TermsAscend(h, x.log, a - 1, |x.log| - 1);
  }

  lemma LogCoveredAt(s: Cluster, h: History, n: NodeId)
    requires LogInv(s, h) && n in s.nodes
    ensures LogCovered(h, s.nodes[n].log) && LeaderLogsCovered(h) && LeaderLogsGrown(h) && TermsBounded(s.nodes[n])
  {
  }

  /** What accepting changes: one log, one acknowledgement. */
  lemma AcceptedOnward(s: Cluster, h: History, p: Packet)
    requires Acceptable(s, p) && AckOf(h, p.msg.term, p.to) <= EndOf(p.msg)
    requires AppendTraffic(h, p.msg) &&
             Appended(s.nodes[p.to], p.msg).log == h.leaderLog[p.msg.term][..EndOf(p.msg)]
    ensures Onward(s.nodes, h, Accepted(s, p).nodes, AcceptedHistory(s, h, p))
    ensures AckOf(AcceptedHistory(s, h, p), p.msg.term, p.to) == EndOf(p.msg)
    ensures forall t: nat, v | t != p.msg.term || v != p.to :: AckOf(AcceptedHistory(s, h, p), t, v) == AckOf(h, t, v)
  {
    assert Accepted(s, p).nodes.Keys == s.nodes.Keys;
  }

  lemma AcceptedKeepsAcks(s: Cluster, h: History, p: Packet)
    requires Acceptable(s, p) && AppendTraffic(h, p.msg) && |Appended(s.nodes[p.to], p.msg).log| == EndOf(p.msg)
    requires AcksBounded(s.nodes, h) && LeadersAckTheirs(s.nodes, h) && RequestsTruthful(s.nodes, s.net)
    ensures AcksBounded(Accepted(s, p).nodes, AcceptedHistory(s, h, p))
    ensures LeadersAckTheirs(Accepted(s, p).nodes, AcceptedHistory(s, h, p))
    ensures RequestsTruthful(Accepted(s, p).nodes, Accepted(s, p).net)
  {
    hide Consistent, CutsOwn;
  }

  lemma AcceptedKeepsInLogs(s: Cluster, h: History, p: Packet)
    requires Acceptable(s, p) && AppendTraffic(h, p.msg) && AcksInLogs(s.nodes, h)
    requires Appended(s.nodes[p.to], p.msg).log == h.leaderLog[p.msg.term][..EndOf(p.msg)]
    requires AckOf(AcceptedHistory(s, h, p), p.msg.term, p.to) == EndOf(p.msg)
    requires forall t: nat, v | t != p.msg.term || v != p.to :: AckOf(AcceptedHistory(s, h, p), t, v) == AckOf(h, t, v)
    ensures AcksInLogs(Accepted(s, p).nodes, AcceptedHistory(s, h, p))
  {
    hide Consistent, CutsOwn, AckOf;
    var s', h' := Accepted(s, p), AcceptedHistory(s, h, p);
    forall n | n in s'.nodes ensures AckInLog(h', n, s'.nodes[n].term, s'.nodes[n].log) {
      assert AckInLog(h, n, s.nodes[n].term, s.nodes[n].log);
    }
  }

  lemma AcceptedKeepsTraffic(s: Cluster, h: History, p: Packet)
    requires Acceptable(s, p) && AppendsReach(s.net, h) && RepliesAcked(s.net, h)
    requires forall t: nat, v :: AckOf(h, t, v) <= AckOf(AcceptedHistory(s, h, p), t, v)
    ensures AppendsReach(Accepted(s, p).net, AcceptedHistory(s, h, p))
    ensures RepliesAcked(Accepted(s, p).net, AcceptedHistory(s, h, p))
  {
    hide AckOf, Consistent, CutsOwn;
  }

  lemma AcceptedKeepsAcked(s: Cluster, h: History, p: Packet)
    requires Acceptable(s, p) && AppendTraffic(h, p.msg) && AppendsReach(s.net, h)
    requires Appended(s.nodes[p.to], p.msg).log == h.leaderLog[p.msg.term][..EndOf(p.msg)]
    requires AckedKept(s.nodes, h) && LaterLeadersKeep(s.nodes, h) && AcksBounded(s.nodes, h)
    requires Onward(s.nodes, h, Accepted(s, p).nodes, AcceptedHistory(s, h, p))
    requires forall t: nat, v | t != p.msg.term || v != p.to :: AckOf(AcceptedHistory(s, h, p), t, v) == AckOf(h, t, v)
    requires AckOf(AcceptedHistory(s, h, p), p.msg.term, p.to) == EndOf(p.msg)
    ensures AckedKept(Accepted(s, p).nodes, AcceptedHistory(s, h, p))
  {
    var s', h' := Accepted(s, p), AcceptedHistory(s, h, p);
    var t0 := p.msg.term;
    assert LogAtElection(h, t0) <= s'.nodes[p.to].log;
    hide Onward, CutsOwn, Consistent, AppendTraffic, AppendsReach;
    forall m, t: nat, i: nat | m in s'.nodes && IsEntryOf(h', t, i) && i <= AckOf(h', t, m)
      ensures KeptOrDead(s'.nodes, h', t, i, s'.nodes[m].log)
    {
      assert IsEntryOf(h, t, i);
      if m != p.to {
        KeptOnward(s.nodes, h, s'.nodes, h', t, i, s.nodes[m].log, s'.nodes[m].log);
      } else if t == t0 {
        assert Keeps(h', t, i, s'.nodes[m].log);
      } else {
        assert Ack(t, m) in h.acks;
        KeptOnward(s.nodes, h, s'.nodes, h', t, i, LogAtElection(h, t0), s'.nodes[m].log);
      }
    }
  }

  lemma AcceptedKeepsLater(s: Cluster, h: History, p: Packet)
    requires Acceptable(s, p) && LaterLeadersKeep(s.nodes, h) && VotersKept(s.nodes, h) && GrantsInThePast(s.nodes, h)
    requires Onward(s.nodes, h, Accepted(s, p).nodes, AcceptedHistory(s, h, p))
    requires forall t: nat, v | t != p.msg.term || v != p.to :: AckOf(AcceptedHistory(s, h, p), t, v) == AckOf(h, t, v)
    ensures LaterLeadersKeep(Accepted(s, p).nodes, AcceptedHistory(s, h, p))
    ensures VotersKept(Accepted(s, p).nodes, AcceptedHistory(s, h, p))
  {
    hide Onward, CutsOwn, Consistent, AckOf, LaterLeadersKeep, VotersKept;
    LaterOnward(s.nodes, h, Accepted(s, p).nodes, AcceptedHistory(s, h, p));
    VotersOnward(s.nodes, h, Accepted(s, p).nodes, AcceptedHistory(s, h, p));
  }

  /** However the log is truncated, the committed prefix stays. */
  lemma CommittedStays(nodes: Nodes, h: History, log: seq<LogEntry>, c: nat, term: nat, acked: nat, end: nat)
    requires LaterLeadersKeep(nodes, h) && Backed(nodes.Keys, h, log, c, term, acked)
    requires term in h.elections && term in h.leaderLog && end <= |h.leaderLog[term]|
    requires h.elections[term].base <= end && acked <= end
    ensures c <= end && c <= |log| && h.leaderLog[term][..end][..c] == log[..c]
    ensures Backed(nodes.Keys, h, h.leaderLog[term][..end], c, term, end)
  {
    if c > 0 {
      var t: nat, i: nat :| Backing(nodes.Keys, h, log, c, term, acked, t, i);
      var lead := h.leaderLog[term];
      if t == term {
        assert lead[..end][..c] == lead[..c];
      } else {
        ChosenLives(nodes, h, t, i);
        var early := LogAtElection(h, term);
        assert Keeps(h, t, i, early);
        assert lead[..end][..c] == early[..i][..c] == h.leaderLog[t][..i][..c] == h.leaderLog[t][..c];
      }
      assert Backing(nodes.Keys, h, lead[..end], c, term, end, t, i);
    }
  }

  /** A commit index learned from the leader is backed by what was accepted. */
  lemma LearnedIsBacked(ids: set<NodeId>, h: History, m: Msg, end: nat, c: nat)
    requires m.AppendEntries? && AppendBacked(ids, h, m) && end <= |h.leaderLog[m.term]|
    requires c <= m.leaderCommit && c <= end
    ensures Backed(ids, h, h.leaderLog[m.term][..end], c, m.term, end)
  {
    if c > 0 {
      var lead := h.leaderLog[m.term];
      var t: nat, i: nat :| Backing(ids, h, lead, m.leaderCommit, m.term, |lead|, t, i);
      assert lead[..end][..c] == lead[..m.leaderCommit][..c] == h.leaderLog[t][..m.leaderCommit][..c];
      assert h.leaderLog[t][..m.leaderCommit][..c] == h.leaderLog[t][..c];
      assert Backing(ids, h, lead[..end], c, m.term, end, t, i);
    }
  }

  lemma AcceptedBacked(s: Cluster, h: History, p: Packet)
    requires Acceptable(s, p) && AppendTraffic(h, p.msg) && AppendsReach(s.net, h)
    requires AckOf(h, p.msg.term, p.to) <= EndOf(p.msg)
    requires Appended(s.nodes[p.to], p.msg).log == h.leaderLog[p.msg.term][..EndOf(p.msg)]
    requires LaterLeadersKeep(s.nodes, h) && CommitInv(s, h)
    ensures var x := Appended(s.nodes[p.to], p.msg);
            Backed(s.nodes.Keys, h, x.log, x.commit, x.term, EndOf(p.msg))
    ensures var x, y := s.nodes[p.to], Appended(s.nodes[p.to], p.msg);
            x.commit <= y.commit <= |y.log| && x.commit <= |x.log| && y.log[..x.commit] == x.log[..x.commit]
  {
    var x, y := s.nodes[p.to], Appended(s.nodes[p.to], p.msg);
    var end := EndOf(p.msg);
    BackedAt(s.nodes, h, p.to);
    assert AppendBacked(s.nodes.Keys, h, p.msg);
    assert AckOf(h, x.term, p.to) <= end && h.elections[x.term].base <= end;
    hide CommitInv, LaterLeadersKeep, AppendsReach, CutsOwn, Consistent, Backed;
    CommittedStays(s.nodes, h, x.log, x.commit, x.term, AckOf(h, x.term, p.to), end);
    if y.commit != x.commit {
      LearnedIsBacked(s.nodes.Keys, h, p.msg, end, y.commit);
    }
  }

  lemma AcceptedKeepsCommits(s: Cluster, h: History, p: Packet)
    requires Acceptable(s, p) && AppendTraffic(h, p.msg) && AppendsReach(s.net, h)
    requires AckOf(h, p.msg.term, p.to) <= EndOf(p.msg)
    requires Appended(s.nodes[p.to], p.msg).log == h.leaderLog[p.msg.term][..EndOf(p.msg)]
    requires LaterLeadersKeep(s.nodes, h) && CommitInv(s, h)
    requires Onward(s.nodes, h, Accepted(s, p).nodes, AcceptedHistory(s, h, p))
    requires AckOf(AcceptedHistory(s, h, p), p.msg.term, p.to) == EndOf(p.msg)
    requires forall t: nat, v :: AckOf(h, t, v) <= AckOf(AcceptedHistory(s, h, p), t, v)
    ensures CommitInv(Accepted(s, p), AcceptedHistory(s, h, p))
  {
    AcceptedBacked(s, h, p);
    hide Onward, CutsOwn, Consistent, LaterLeadersKeep, AppendsReach, AckOf, Backed, AppendTraffic;
    var s', h' := Accepted(s, p), AcceptedHistory(s, h, p);
    forall n | n in s'.nodes
      ensures Backed(s'.nodes.Keys, h', s'.nodes[n].log, s'.nodes[n].commit, s'.nodes[n].term,
                     AckOf(h', s'.nodes[n].term, n))
    {
      var x, y := s.nodes[n], s'.nodes[n];
      var acked := if n == p.to then EndOf(p.msg) else AckOf(h, x.term, n);
      BackedOnward(s.nodes, h, s'.nodes, h', y.log, y.log, y.commit, y.term, y.term, acked, AckOf(h', y.term, n));
    }
    forall q | q in s'.net && q.msg.AppendEntries? ensures AppendBacked(s'.nodes.Keys, h', q.msg) {
      AppendBackedOnward(s.nodes, h, s'.nodes, h', q.msg);
    }
  }

  lemma AcceptedKeepsG(s: Cluster, h: History, p: Packet)
    requires InvA(s, h) && InvG(s, h) && Acceptable(s, p)
    ensures InvG(Accepted(s, p), AcceptedHistory(s, h, p))
  {
    hide Membership, NetAddressed, RolesOwnTheirVote, GrantsInThePast, VotesUniqueUntilElected, QuorumsAreQuorums;
    hide QuorumsLoyal, QuorumsKeepTheirVote, LeadersStay, LeadersElected, CountsAreVoters, AllTraffic, VotesSentOnce;
    hide LeaderLogsGrown, LogsCovered, LogsBounded, LeadersHoldTheirLog, AppendsCovered, LogCovered, LeaderLogsCovered;
    hide AcksBounded, LeadersAckTheirs, LeadersSound, AppendsReach, AcksInLogs, RepliesAcked, RequestsTruthful;
    hide AckedKept, LaterLeadersKeep, VotersKept, CommitInv, Onward, CutsOwn, AckOf;
    var s', h' := Accepted(s, p), AcceptedHistory(s, h, p);
    AcceptedLog(s, h, p);
    AckReaches(s, h, p);
    AcceptedOnward(s, h, p);
    OnwardAcks(s.nodes, h, s'.nodes, h');
    AcceptedKeepsAcks(s, h, p);
    AcceptedKeepsInLogs(s, h, p);
    AcceptedKeepsTraffic(s, h, p);
    AcceptedKeepsAcked(s, h, p);
    AcceptedKeepsLater(s, h, p);
    AcceptedKeepsCommits(s, h, p);
    assert s'.nodes.Keys == s.nodes.Keys;
    LeadersSoundOnward(s.nodes, h, s'.nodes, h', p.to);
  }
}
