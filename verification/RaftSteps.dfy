/** Every action of a run is a chain of elementary effects, so it keeps both
    halves of the invariant. */
module RaftSteps {
  import opened Options
  import opened RaftCore
  import opened RaftCluster
  import opened RaftHistory
  import opened RaftElection
  import opened RaftLog
  import opened RaftCommit
  import opened RaftCommitSteps

  /** From (s, h) to (s', h') the Net-A half is kept, and when `b` the Net-G half too. */
  ghost predicate Goes(h: History, s': Cluster, h': History, b: bool) {
    InvA(s', h') && Grows(h, h') && (b ==> InvG(s', h') && AcksRise(h, h'))
  }

  ghost predicate Ready(s: Cluster, h: History, b: bool) {
    InvA(s, h) && (b ==> InvG(s, h))
  }

  lemma GoesOn(h: History, s1: Cluster, h1: History, s2: Cluster, h2: History, b: bool)
    requires Goes(h, s1, h1, b) && Goes(h1, s2, h2, b)
    ensures Goes(h, s2, h2, b)
  {
    hide InvA, InvG, AckOf;
  }

  // --- effects outside elections and logs ------------------------------------------------------

  lemma TouchedStep(s: Cluster, h: History, n: NodeId, quiet: nat, hint: Option<NodeId>, b: bool)
    requires Ready(s, h, b) && n in s.nodes
    ensures Goes(h, Touched(s, n, quiet, hint), h, b)
  {
    hide ElectInv, LogInv, InvG;
    var s' := Touched(s, n, quiet, hint);
    assert s'.nodes.Keys == s.nodes.Keys;
    FrameKeeps(s, h, s', h);
    LogFrameKeeps(s, h, s', h);
    if b {
      CalmKeeps(s, h, s', h);
    }
  }

  lemma LostStep(s: Cluster, h: History, p: Packet, b: bool)
    requires Ready(s, h, b)
    ensures Goes(h, Without(s, p), h, b)
  {
    hide ElectInv, LogInv, InvG;
    var s' := Without(s, p);
    FrameKeeps(s, h, s', h);
    LogFrameKeeps(s, h, s', h);
    if b {
      CalmKeeps(s, h, s', h);
    }
  }

  lemma RecordedStep(s: Cluster, h: History, p: Packet, b: bool)
    requires Ready(s, h, b) && p in s.net && p.to in s.nodes && s.nodes[p.to].role.Leader?
    requires p.msg.AppendReply? && p.msg.success && p.msg.term <= s.nodes[p.to].term
    requires b ==> !CountsStale(s.nodes[p.to], p.msg)
    ensures Goes(h, Recorded(s, p), h, b)
  {
    hide ElectInv, LogInv, InvG;
    var s' := Recorded(s, p);
    assert s'.nodes.Keys == s.nodes.Keys;
    FrameKeeps(s, h, s', h);
    LogFrameKeeps(s, h, s', h);
    if b {
      RecordedKeepsG(s, h, p);
    }
  }

  lemma RetriedStep(s: Cluster, h: History, p: Packet, b: bool)
    requires Ready(s, h, b) && p.to in s.nodes && s.nodes[p.to].role.Leader? && p.msg.AppendReply?
    ensures Goes(h, Retried(s, p), h, b)
  {
    hide ElectInv, LogInv, InvG;
    var s' := Retried(s, p);
    assert s'.nodes.Keys == s.nodes.Keys;
    FrameKeeps(s, h, s', h);
    LogFrameKeeps(s, h, s', h);
    if b {
      RetriedKeepsG(s, h, p);
    }
  }

  lemma AdvancedStep(s: Cluster, h: History, n: NodeId, b: bool)
    requires Ready(s, h, b) && n in s.nodes && s.nodes[n].role.Leader?
    ensures Goes(h, Advanced(s, n), h, b)
  {
    hide ElectInv, LogInv, InvG;
    var s' := Advanced(s, n);
    assert s'.nodes.Keys == s.nodes.Keys;
    FrameKeeps(s, h, s', h);
    LogFrameKeeps(s, h, s', h);
    if b {
      AdvancedKeepsG(s, h, n);
    }
  }

  lemma RepliedStep(s: Cluster, h: History, to: NodeId, m: Msg, b: bool)
    requires Ready(s, h, b) && to in s.nodes && !CarriesVote(m)
    requires m.VoteReply? || (m.AppendReply? && m.from in s.nodes && m.from != to)
    requires b && m.AppendReply? && m.success ==> m.matched <= AckOf(h, m.term, m.from)
    ensures Goes(h, Replied(s, to, m), h, b)
  {
    hide ElectInv, LogInv, InvG, AckOf;
    var s' := Replied(s, to, m);
    StampedOne(s.sent, to, m);
    PostKeeps(s, h, [(to, m)]);
    LogFrameKeeps(s, h, s', h);
    if b {
      RepliedKeepsG(s, h, to, m);
    }
  }

  lemma SentStep(s: Cluster, h: History, n: NodeId, b: bool)
    requires Ready(s, h, b) && n in s.nodes && s.nodes[n].role.Leader? && BroadcastSafe(s.nodes[n])
    ensures Goes(h, Sent(s, n), h, b)
  {
    hide ElectInv, LogInv, InvG, BroadcastSafe;
    SentKeeps(s, h, n);
    SentKeepsLog(s, h, n);
    if b {
      SentKeepsG(s, h, n);
    }
  }

  // --- terms and elections -------------------------------------------------------------------------

  lemma RaisedStep(s: Cluster, h: History, n: NodeId, t: nat, b: bool)
    requires Ready(s, h, b) && n in s.nodes && t > s.nodes[n].term
    ensures Goes(h, Raised(s, n, t), h, b)
  {
    hide ElectInv, LogInv, InvG;
    var s' := Raised(s, n, t);
    assert s'.nodes.Keys == s.nodes.Keys;
    RaisedKeeps(s, h, n, t);
    LogFrameKeeps(s, h, s', h);
    if b {
      CalmKeeps(s, h, s', h);
    }
  }

  lemma DemotedStep(s: Cluster, h: History, p: Packet, b: bool)
    requires Ready(s, h, b) && p in s.net && p.msg.AppendEntries? && p.to in s.nodes
    requires s.nodes[p.to].term == p.msg.term && s.nodes[p.to].role != Follower
    ensures Goes(h, Raised(s, p.to, p.msg.term), h, b)
  {
    hide ElectInv, LogInv, InvG;
    var s' := Raised(s, p.to, p.msg.term);
    assert s'.nodes.Keys == s.nodes.Keys;
    DemotedKeeps(s, h, p);
    LogFrameKeeps(s, h, s', h);
    if b {
      CalmKeeps(s, h, s', h);
    }
  }

  lemma StoodStep(s: Cluster, h: History, n: NodeId, b: bool)
    requires Ready(s, h, b) && n in s.nodes
    ensures Goes(h, Stood(s, n), StoodHistory(s, h, n), b)
  {
    hide LogInv, InvG, AllTraffic, VotesUniqueUntilElected, QuorumsKeepTheirVote, QuorumsLoyal, CountsAreVoters;
    hide GoodPeers, IsQuorum, VotesSentOnce;
    var s', h' := Stood(s, n), StoodHistory(s, h, n);
    assert s'.nodes.Keys == s.nodes.Keys;
    StoodKeeps(s, h, n);
    forall p | p in s'.net && p.msg.AppendEntries? ensures p in s.net {
      if p !in s.net {
        StoodPacket(s, n, p);
      }
    }
    LogFrameKeeps(s, h, s', h');
    if b {
      StoodKeepsG(s, h, n);
    }
  }

  lemma VotedStep(s: Cluster, h: History, p: Packet, b: bool)
    requires Ready(s, h, b) && p in s.net && p.msg.RequestVote? && p.to in s.nodes && Grants(s.nodes[p.to], p.msg)
    ensures Goes(h, Voted(s, p), VotedHistory(h, p), b)
  {
    hide ElectInv, LogInv, InvG, Grants;
    var s', h' := Voted(s, p), VotedHistory(h, p);
    assert s'.nodes.Keys == s.nodes.Keys;
    StampedOne(s.sent, p.msg.candidate, VoteReply(s.nodes[p.to].term, p.to, true));
    VotedKeeps(s, h, p);
    LogFrameKeeps(s, h, s', h');
    if b {
      VotedKeepsG(s, h, p);
    }
  }

  lemma EnrolledAll(s: Cluster, h: History)
    requires ElectInv(s, h)
    ensures h.counted.Keys == s.nodes.Keys
    ensures forall n | n in s.nodes :: s.nodes[n].id == n
    ensures forall p | p in s.net :: p.to in s.nodes
  {
    hide AllTraffic, VotesUniqueUntilElected, QuorumsKeepTheirVote, QuorumsLoyal, GoodPeers, VotesSentOnce;
  }

  lemma CountedStep(s: Cluster, h: History, p: Packet, b: bool)
    requires Ready(s, h, b) && p in s.net && p.msg.VoteReply? && p.msg.granted && p.to in s.nodes
    requires s.nodes[p.to].role.Candidate? && s.nodes[p.to].term == p.msg.term
    ensures p.to in h.counted && Goes(h, Counted(s, p), CountedHistory(h, p), b)
  {
    hide ElectInv, LogInv, InvG;
    EnrolledAll(s, h);
    var s', h' := Counted(s, p), CountedHistory(h, p);
    assert s'.nodes.Keys == s.nodes.Keys;
    CountedKeeps(s, h, p);
    LogFrameKeeps(s, h, s', h');
    if b {
      CalmKeeps(s, h, s', h');
    }
  }

  lemma ElectedStep(s: Cluster, h: History, n: NodeId, b: bool)
    requires Ready(s, h, b) && n in s.nodes && s.nodes[n].role.Candidate?
    requires s.nodes[n].role.votes >= Majority(|s.nodes[n].peers|)
    ensures n in h.counted && Goes(h, Elected(s, n), ElectedHistory(s, h, n), b)
  {
    hide ElectInv, LogInv, InvG;
    EnrolledAll(s, h);
    ElectedKeeps(s, h, n);
    ElectedKeepsLog(s, h, n);
    ElectedGrows(s, h, n, b);
    if b {
      ElectedKeepsG(s, h, n);
    }
  }

  lemma ElectedGrows(s: Cluster, h: History, n: NodeId, b: bool)
    requires Ready(s, h, b) && n in s.nodes && n in h.counted && s.nodes[n].term !in h.elections
    ensures Grows(h, ElectedHistory(s, h, n)) && (b ==> AcksRise(h, ElectedHistory(s, h, n)))
  {
    hide ElectInv, KeepInv, CommitInv, LogCovered, LeaderLogsGrown;
    if b {
      assert forall v :: Ack(s.nodes[n].term, v) !in h.acks;
    }
  }

  // --- logs --------------------------------------------------------------------------------------------

  lemma GrownStep(s: Cluster, h: History, n: NodeId, data: seq<bv8>, b: bool)
    requires Ready(s, h, b) && n in s.nodes && s.nodes[n].role.Leader?
    ensures Goes(h, Grown(s, n, data), GrownHistory(s, h, n, data), b)
  {
    hide ElectInv, LogInv, InvG;
    var s', h' := Grown(s, n, data), GrownHistory(s, h, n, data);
    assert s'.nodes.Keys == s.nodes.Keys;
    FrameKeeps(s, h, s', h');
    GrownKeepsLog(s, h, n, data);
    GrownGrows(s, h, n, data, b);
    if b {
      GrownKeepsG(s, h, n, data);
    }
  }

  lemma GrownGrows(s: Cluster, h: History, n: NodeId, data: seq<bv8>, b: bool)
    requires Ready(s, h, b) && n in s.nodes && s.nodes[n].role.Leader?
    ensures Grows(h, GrownHistory(s, h, n, data)) && (b ==> AcksRise(h, GrownHistory(s, h, n, data)))
  {
    hide ElectInv, KeepInv, CommitInv, LogCovered, LeaderLogsGrown;
  }

  lemma AcceptedStep(s: Cluster, h: History, p: Packet, b: bool)
    requires Ready(s, h, b) && p in s.net && p.to in s.nodes && p.msg.AppendEntries?
    requires Consistent(s.nodes[p.to], p.msg)
    requires s.nodes[p.to].term == p.msg.term && s.nodes[p.to].role == Follower
    requires b ==> !CutsOwn(s.nodes[p.to].log, p.msg)
    ensures Goes(h, Accepted(s, p), AcceptedHistory(s, h, p), b)
  {
    hide ElectInv, LogInv, InvG, Consistent, CutsOwn;
    var s', h' := Accepted(s, p), AcceptedHistory(s, h, p);
    assert s'.nodes.Keys == s.nodes.Keys;
    FrameKeeps(s, h, s', h');
    AcceptedKeepsLog(s, h, p);
    if b {
      AcceptedKeepsG(s, h, p);
      AcceptedRises(s, h, p);
    }
  }

  lemma AcceptedRises(s: Cluster, h: History, p: Packet)
    requires InvA(s, h) && InvG(s, h) && Acceptable(s, p)
    ensures AcksRise(h, AcceptedHistory(s, h, p))
  {
    hide ElectInv, KeepInv, CommitInv, LeaderLogsCovered, LeaderLogsGrown, LogsCovered, LogsBounded, CutsOwn;
    AcceptedLog(s, h, p);
    AckReaches(s, h, p);
  }
}
