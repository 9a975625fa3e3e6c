/** Election safety under Net-A: what every step keeps about votes, quorums and
    who leads which term (section 5.2 of the Raft paper).

    A node may vote twice in one term, because stepping down within a term clears
    its vote. The invariant therefore tells apart terms without a leader, in which
    nobody has stepped down and votes are unique, from terms with a leader, in
    which the members of that leader's quorum never vote again. */
module RaftElection {
  import opened Options
  import opened RaftCore
  import opened RaftCluster
  import opened RaftHistory

  ghost predicate Membership(nodes: Nodes) {
    forall n | n in nodes :: nodes[n].id == n && GoodPeers(nodes.Keys, n, nodes[n].peers)
  }

  /** Packets are addressed to members and numbered apart. */
  ghost predicate NetAddressed(ids: set<NodeId>, net: set<Packet>, sent: nat) {
    && (forall p | p in net :: p.to in ids && p.seqNo < sent)
    && (forall p, q | p in net && q in net && p.seqNo == q.seqNo :: p == q)
  }

  ghost predicate WellFormed(s: Cluster) {
    Membership(s.nodes) && NetAddressed(s.nodes.Keys, s.net, s.sent)
  }

  ghost predicate RolesOwnTheirVote(nodes: Nodes) {
    forall n | n in nodes && nodes[n].role != Follower ::
      nodes[n].votedFor == Some(n) && nodes[n].term >= 1
  }

  ghost predicate GrantsInThePast(nodes: Nodes, h: History) {
    forall g | g in h.grants ::
      && g.voter in nodes && g.candidate in nodes
      && g.term <= nodes[g.voter].term && g.term <= nodes[g.candidate].term
  }

  /** In a term without a leader a vote is kept and is the only one. */
  ghost predicate VotesUniqueUntilElected(nodes: Nodes, h: History) {
    && (forall g | g in h.grants && g.term !in h.elections && g.voter in nodes && nodes[g.voter].term == g.term ::
          nodes[g.voter].votedFor == Some(g.candidate))
    && (forall g, g' | g in h.grants && g' in h.grants && g.term !in h.elections &&
                       g'.term == g.term && g'.voter == g.voter :: g == g')
  }

  ghost predicate QuorumsAreQuorums(nodes: Nodes, h: History) {
    forall t | t in h.elections ::
      t >= 1 && h.elections[t].leader in h.elections[t].quorum && IsQuorum(nodes.Keys, h.elections[t].quorum)
  }

  /** A quorum member voted for its leader, and for nobody else in that term. */
  ghost predicate QuorumsLoyal(h: History) {
    && (forall t, v | t in h.elections && v in h.elections[t].quorum ::
          Grant(v, h.elections[t].leader, t) in h.grants)
    && (forall g | g in h.grants && g.term in h.elections && g.voter in h.elections[g.term].quorum ::
          g.candidate == h.elections[g.term].leader)
  }

  /** A quorum member keeps its vote while it stays in the term. */
  ghost predicate QuorumsKeepTheirVote(nodes: Nodes, h: History) {
    forall t, v | t in h.elections && v in h.elections[t].quorum && v in nodes && nodes[v].term == t ::
      nodes[v].votedFor == Some(h.elections[t].leader)
  }

  /** A leader stays leader while it stays in its term. */
  ghost predicate LeadersStay(nodes: Nodes, h: History) {
    forall t | t in h.elections && h.elections[t].leader in nodes && nodes[h.elections[t].leader].term == t ::
      nodes[h.elections[t].leader].role.Leader?
  }

  ghost predicate LeadersElected(nodes: Nodes, h: History) {
    forall n | n in nodes && nodes[n].role.Leader? ::
      nodes[n].term in h.elections && h.elections[nodes[n].term].leader == n
  }

  /** The bare vote count of a candidate counts distinct voters. */
  ghost predicate CountsAreVoters(nodes: Nodes, h: History) {
    && h.counted.Keys == nodes.Keys
    && (forall n | n in nodes && nodes[n].role.Candidate? ::
          && nodes[n].role.votes == |h.counted[n]|
          && n in h.counted[n]
          && (forall v | v in h.counted[n] :: Grant(v, n, nodes[n].term) in h.grants))
  }

  /** What a message in flight says about the elections. */
  ghost predicate VoteTraffic(nodes: Nodes, h: History, p: Packet) {
    match p.msg
    case RequestVote(t, c, _, _) =>
      c in nodes && c != p.to && t <= nodes[c].term && Grant(p.to, c, t) !in h.grants
    case VoteReply(t, v, granted) =>
      granted ==>
        && Grant(v, p.to, t) in h.grants
        && (p.to in nodes && nodes[p.to].role.Candidate? && nodes[p.to].term == t ==>
              p.to in h.counted && v !in h.counted[p.to])
    case AppendEntries(t, l, _, _, _, _) =>
      t in h.elections && h.elections[t].leader == l && l != p.to
    case AppendReply(t, f, _, _) =>
      f in nodes && f != p.to
  }

  ghost predicate AllTraffic(s: Cluster, h: History) {
    forall p | p in s.net :: VoteTraffic(s.nodes, h, p)
  }

  /** Two packets that carry the same request or the same granted vote. */
  predicate SameVote(p: Packet, q: Packet) {
    p.to == q.to &&
    ((p.msg.RequestVote? && q.msg.RequestVote? && p.msg.term == q.msg.term && p.msg.candidate == q.msg.candidate) ||
     (p.msg.VoteReply? && q.msg.VoteReply? && p.msg.granted && q.msg.granted &&
      p.msg.term == q.msg.term && p.msg.from == q.msg.from))
  }

  ghost predicate VotesSentOnce(net: set<Packet>) {
    forall p, q | p in net && q in net && SameVote(p, q) :: p == q
  }

  ghost predicate ElectInv(s: Cluster, h: History) {
    && Membership(s.nodes)
    && NetAddressed(s.nodes.Keys, s.net, s.sent)
    && RolesOwnTheirVote(s.nodes)
    && GrantsInThePast(s.nodes, h)
    && VotesUniqueUntilElected(s.nodes, h)
    && QuorumsAreQuorums(s.nodes, h)
    && QuorumsLoyal(h)
    && QuorumsKeepTheirVote(s.nodes, h)
    && LeadersStay(s.nodes, h)
    && LeadersElected(s.nodes, h)
    && CountsAreVoters(s.nodes, h)
    && AllTraffic(s, h)
    && VotesSentOnce(s.net)
  }

  // --- steps that do not touch elections ---------------------------------------

  datatype Standing = Following | Standing(votes: nat) | Leading

  function StandingOf(r: Role): Standing {
    match r
    case Follower => Following
    case Candidate(v) => Standing(v)
    case Leader(_, _) => Leading
  }

  /** The two states of a node agree on everything elections depend on. */
  predicate SameStanding(x: NodeState, y: NodeState) {
    x.id == y.id && x.peers == y.peers && x.term == y.term && x.votedFor == y.votedFor &&
    StandingOf(x.role) == StandingOf(y.role)
  }

  /** Messages may vanish, logs and indexes may change, and history may learn
      more about logs. */
  ghost predicate ElectionFrame(s: Cluster, h: History, s': Cluster, h': History) {
    && s'.nodes.Keys == s.nodes.Keys
    && (forall n | n in s.nodes :: SameStanding(s.nodes[n], s'.nodes[n]))
    && s'.net <= s.net && s'.sent == s.sent
    && h'.grants == h.grants && h'.counted == h.counted && h'.elections == h.elections
  }

  lemma FrameKeepsGrants(s: Cluster, h: History, s': Cluster, h': History)
    requires ElectionFrame(s, h, s', h') && RolesOwnTheirVote(s.nodes) && GrantsInThePast(s.nodes, h)
    requires VotesUniqueUntilElected(s.nodes, h)
    ensures RolesOwnTheirVote(s'.nodes) && GrantsInThePast(s'.nodes, h') && VotesUniqueUntilElected(s'.nodes, h')
  {
    forall n | n in s.nodes ensures SameStanding(s.nodes[n], s'.nodes[n]) {}
  }

  lemma FrameKeepsQuorums(s: Cluster, h: History, s': Cluster, h': History)
    requires ElectionFrame(s, h, s', h') && QuorumsAreQuorums(s.nodes, h) && QuorumsLoyal(h) &&
             QuorumsKeepTheirVote(s.nodes, h)
    ensures QuorumsAreQuorums(s'.nodes, h') && QuorumsLoyal(h') && QuorumsKeepTheirVote(s'.nodes, h')
  {
    hide IsQuorum;
    forall n | n in s.nodes ensures SameStanding(s.nodes[n], s'.nodes[n]) {}
  }

  lemma FrameKeepsLeaders(s: Cluster, h: History, s': Cluster, h': History)
    requires ElectionFrame(s, h, s', h') && LeadersStay(s.nodes, h) && LeadersElected(s.nodes, h) &&
             CountsAreVoters(s.nodes, h)
    ensures LeadersStay(s'.nodes, h') && LeadersElected(s'.nodes, h') && CountsAreVoters(s'.nodes, h')
  {
    forall n | n in s.nodes ensures SameStanding(s.nodes[n], s'.nodes[n]) {}
  }

  lemma FrameKeepsNet(s: Cluster, h: History, s': Cluster, h': History)
    requires ElectionFrame(s, h, s', h') && WellFormed(s) && AllTraffic(s, h) && VotesSentOnce(s.net)
    ensures WellFormed(s') && AllTraffic(s', h') && VotesSentOnce(s'.net)
  {
    hide GoodPeers;
    forall n | n in s.nodes ensures SameStanding(s.nodes[n], s'.nodes[n]) {}
    forall p | p in s'.net ensures VoteTraffic(s'.nodes, h', p) {
      assert VoteTraffic(s.nodes, h, p);
    }
  }

  lemma FrameKeeps(s: Cluster, h: History, s': Cluster, h': History)
    requires ElectInv(s, h) && ElectionFrame(s, h, s', h')
    ensures ElectInv(s', h')
  {
    hide ElectionFrame, Membership, NetAddressed, RolesOwnTheirVote, GrantsInThePast, VotesUniqueUntilElected,
         QuorumsAreQuorums;
    hide QuorumsLoyal, QuorumsKeepTheirVote, LeadersStay, LeadersElected, CountsAreVoters, AllTraffic, VotesSentOnce;
    FrameKeepsGrants(s, h, s', h');
    FrameKeepsQuorums(s, h, s', h');
    FrameKeepsLeaders(s, h, s', h');
    FrameKeepsNet(s, h, s', h');
  }

  /** What is in flight after a post is the old traffic and the new copies. */
  lemma StampedCopy(first: nat, copies: seq<(NodeId, Msg)>, p: Packet)
    requires p in Stamped(first, copies)
    ensures first <= p.seqNo < first + |copies|
    ensures p.to == copies[p.seqNo - first].0 && p.msg == copies[p.seqNo - first].1
  {
  }

  lemma StampedOne(first: nat, to: NodeId, m: Msg)
    ensures Stamped(first, [(to, m)]) == {Packet(first, to, m)}
  {
    assert [(to, m)][0] == (to, m);
  }

  predicate CarriesVote(m: Msg) {
    m.RequestVote? || (m.VoteReply? && m.granted)
  }

  lemma PostNumbers(s: Cluster, copies: seq<(NodeId, Msg)>)
    requires WellFormed(s)
    requires forall i | 0 <= i < |copies| :: copies[i].0 in s.nodes
    ensures WellFormed(Post(s, copies))
  {
    hide GoodPeers;
    var s' := Post(s, copies);
    forall p | p in s'.net && p !in s.net ensures p.to in s.nodes && s.sent <= p.seqNo < s'.sent {
      StampedCopy(s.sent, copies, p);
    }
    forall p, q | p in s'.net && q in s'.net && p.seqNo == q.seqNo ensures p == q {
      if p !in s.net && q !in s.net {
        StampedCopy(s.sent, copies, p);
        StampedCopy(s.sent, copies, q);
      }
    }
  }

  /** Sending messages that carry no vote. */
  lemma PostKeeps(s: Cluster, h: History, copies: seq<(NodeId, Msg)>)
    requires ElectInv(s, h)
    requires forall i | 0 <= i < |copies| ::
               copies[i].0 in s.nodes && !CarriesVote(copies[i].1) &&
               VoteTraffic(s.nodes, h, Packet(s.sent + i, copies[i].0, copies[i].1))
    ensures ElectInv(Post(s, copies), h)
  {
    hide IsQuorum, VotesUniqueUntilElected, QuorumsLoyal, QuorumsKeepTheirVote, GrantsInThePast, Membership;
    hide CountsAreVoters, QuorumsAreQuorums, LeadersElected, LeadersStay, RolesOwnTheirVote;
    PostNumbers(s, copies);
    var s' := Post(s, copies);
    forall p | p in s'.net && p !in s.net ensures VoteTraffic(s.nodes, h, p) && !CarriesVote(p.msg) {
      StampedCopy(s.sent, copies, p);
      assert VoteTraffic(s.nodes, h, Packet(s.sent + (p.seqNo - s.sent), p.to, p.msg));
    }
  }

  // --- steps that do -------------------------------------------------------------

  lemma RaisedTraffic(nodes: Nodes, h: History, n: NodeId, t: nat, q: Packet)
    requires n in nodes && t >= nodes[n].term && VoteTraffic(nodes, h, q)
    ensures VoteTraffic(nodes[n := FollowerAt(nodes[n], t)], h, q)
  {
  }

  lemma RaisedTrafficAll(s: Cluster, h: History, n: NodeId, t: nat)
    requires n in s.nodes && t >= s.nodes[n].term
    requires Membership(s.nodes) && NetAddressed(s.nodes.Keys, s.net, s.sent) && AllTraffic(s, h)
    ensures Membership(Raised(s, n, t).nodes)
    ensures NetAddressed(Raised(s, n, t).nodes.Keys, Raised(s, n, t).net, Raised(s, n, t).sent)
    ensures AllTraffic(Raised(s, n, t), h)
  {
    hide GoodPeers, NetAddressed, VoteTraffic;
    assert Raised(s, n, t).nodes.Keys == s.nodes.Keys;
    forall q | q in s.net ensures VoteTraffic(Raised(s, n, t).nodes, h, q) {
      RaisedTraffic(s.nodes, h, n, t, q);
    }
  }

  lemma RaisedKeepsGrants(s: Cluster, h: History, n: NodeId, t: nat)
    requires n in s.nodes && t > s.nodes[n].term && RolesOwnTheirVote(s.nodes) && GrantsInThePast(s.nodes, h)
    requires VotesUniqueUntilElected(s.nodes, h)
    ensures RolesOwnTheirVote(Raised(s, n, t).nodes) && GrantsInThePast(Raised(s, n, t).nodes, h)
    ensures VotesUniqueUntilElected(Raised(s, n, t).nodes, h)
  {
  }

  lemma RaisedKeepsQuorums(s: Cluster, h: History, n: NodeId, t: nat)
    requires n in s.nodes && t > s.nodes[n].term && GrantsInThePast(s.nodes, h) && QuorumsLoyal(h) &&
             QuorumsKeepTheirVote(s.nodes, h)
    ensures QuorumsKeepTheirVote(Raised(s, n, t).nodes, h)
  {
  }

  lemma RaisedKeepsLeaders(s: Cluster, h: History, n: NodeId, t: nat)
    requires n in s.nodes && t > s.nodes[n].term && GrantsInThePast(s.nodes, h) && QuorumsLoyal(h)
    requires QuorumsAreQuorums(s.nodes, h) && LeadersStay(s.nodes, h) && LeadersElected(s.nodes, h) &&
             CountsAreVoters(s.nodes, h)
    ensures QuorumsAreQuorums(Raised(s, n, t).nodes, h) && LeadersStay(Raised(s, n, t).nodes, h)
    ensures LeadersElected(Raised(s, n, t).nodes, h) && CountsAreVoters(Raised(s, n, t).nodes, h)
  {
    hide IsQuorum;
    assert Raised(s, n, t).nodes.Keys == s.nodes.Keys;
  }

  lemma RaisedKeeps(s: Cluster, h: History, n: NodeId, t: nat)
    requires ElectInv(s, h) && n in s.nodes && t > s.nodes[n].term
    ensures ElectInv(Raised(s, n, t), h)
  {
    RaisedKeepsGrants(s, h, n, t);
    RaisedKeepsQuorums(s, h, n, t);
    RaisedKeepsLeaders(s, h, n, t);
    RaisedTrafficAll(s, h, n, t);
  }

  lemma DemotedKeepsGrants(s: Cluster, h: History, p: Packet)
    requires p.to in s.nodes && p.msg.AppendEntries? && s.nodes[p.to].term == p.msg.term && VoteTraffic(s.nodes, h, p)
    requires RolesOwnTheirVote(s.nodes) && GrantsInThePast(s.nodes, h) && VotesUniqueUntilElected(s.nodes, h)
    ensures RolesOwnTheirVote(Raised(s, p.to, p.msg.term).nodes) &&
            GrantsInThePast(Raised(s, p.to, p.msg.term).nodes, h)
    ensures VotesUniqueUntilElected(Raised(s, p.to, p.msg.term).nodes, h)
  {
  }

  lemma DemotedKeepsQuorums(s: Cluster, h: History, p: Packet)
    requires p.to in s.nodes && p.msg.AppendEntries? && s.nodes[p.to].term == p.msg.term && VoteTraffic(s.nodes, h, p)
    requires s.nodes[p.to].role != Follower && RolesOwnTheirVote(s.nodes) && QuorumsKeepTheirVote(s.nodes, h)
    ensures QuorumsKeepTheirVote(Raised(s, p.to, p.msg.term).nodes, h)
  {
  }

  lemma DemotedKeepsVotes(s: Cluster, h: History, p: Packet)
    requires ElectInv(s, h) && p in s.net && p.msg.AppendEntries? &&
             s.nodes[p.to].term == p.msg.term && s.nodes[p.to].role != Follower
    ensures RolesOwnTheirVote(Raised(s, p.to, p.msg.term).nodes) &&
            GrantsInThePast(Raised(s, p.to, p.msg.term).nodes, h)
    ensures VotesUniqueUntilElected(Raised(s, p.to, p.msg.term).nodes, h)
    ensures QuorumsLoyal(h) && QuorumsKeepTheirVote(Raised(s, p.to, p.msg.term).nodes, h)
  {
    hide Membership, RolesOwnTheirVote, GrantsInThePast, VotesUniqueUntilElected, QuorumsAreQuorums, VoteTraffic;
    hide QuorumsLoyal, QuorumsKeepTheirVote, LeadersStay, LeadersElected, CountsAreVoters, VotesSentOnce, Raised;
    assert VoteTraffic(s.nodes, h, p);
    DemotedKeepsGrants(s, h, p);
    DemotedKeepsQuorums(s, h, p);
  }

  lemma DemotedKeepsLeaders(s: Cluster, h: History, p: Packet)
    requires p.to in s.nodes && p.msg.AppendEntries? && s.nodes[p.to].term == p.msg.term && VoteTraffic(s.nodes, h, p)
    requires QuorumsAreQuorums(s.nodes, h) && LeadersStay(s.nodes, h) && LeadersElected(s.nodes, h) &&
             CountsAreVoters(s.nodes, h)
    ensures QuorumsAreQuorums(Raised(s, p.to, p.msg.term).nodes, h) && LeadersStay(Raised(s, p.to, p.msg.term).nodes, h)
    ensures LeadersElected(Raised(s, p.to, p.msg.term).nodes, h) &&
            CountsAreVoters(Raised(s, p.to, p.msg.term).nodes, h)
  {
    hide IsQuorum;
    assert Raised(s, p.to, p.msg.term).nodes.Keys == s.nodes.Keys;
  }

  /** Stepping down within a term clears the vote; the append of that term in
      flight shows the term has a leader, whose quorum the node is not in. */
  lemma DemotedKeeps(s: Cluster, h: History, p: Packet)
    requires ElectInv(s, h) && p in s.net && p.msg.AppendEntries? &&
             s.nodes[p.to].term == p.msg.term && s.nodes[p.to].role != Follower
    ensures ElectInv(Raised(s, p.to, p.msg.term), h)
  {
    DemotedKeepsVotes(s, h, p);
    DemotedKeepsLeaders(s, h, p);
    assert p.to in s.nodes;
    RaisedTrafficAll(s, h, p.to, p.msg.term);
  }

  lemma StoodPacket(s: Cluster, n: NodeId, p: Packet)
    requires n in s.nodes && WellFormed(s) && p in Stood(s, n).net && p !in s.net
    ensures s.sent <= p.seqNo && p.to in s.nodes && p.to != n
    ensures p.msg == VoteRequest(CandidateOf(s.nodes[n])).msg
    ensures exists i :: 0 <= i < |s.nodes[n].peers| && p.to == s.nodes[n].peers[i] && p.seqNo == s.sent + i
  {
    StampedCopy(s.sent, Requests(CandidateOf(s.nodes[n])), p);
    var i := p.seqNo - s.sent;
    assert p.to == s.nodes[n].peers[i];
    assert p.to in s.nodes[n].peers;
  }

  lemma StoodTraffic(s: Cluster, h: History, n: NodeId, p: Packet)
    requires n in s.nodes && GrantsInThePast(s.nodes, h) && VoteTraffic(s.nodes, h, p)
    ensures VoteTraffic(Stood(s, n).nodes, StoodHistory(s, h, n), p)
  {
  }

  lemma StoodTrafficAll(s: Cluster, h: History, n: NodeId)
    requires WellFormed(s) && GrantsInThePast(s.nodes, h) && AllTraffic(s, h) && n in s.nodes
    ensures AllTraffic(Stood(s, n), StoodHistory(s, h, n))
  {
    hide Membership, NetAddressed, GrantsInThePast;
    var s', h' := Stood(s, n), StoodHistory(s, h, n);
    assert s'.nodes == s.nodes[n := CandidateOf(s.nodes[n])];
    hide Stood;
    forall p | p in s'.net ensures VoteTraffic(s'.nodes, h', p) {
      if p in s.net {
        StoodTraffic(s, h, n, p);
      } else {
        StoodPacket(s, n, p);
        NewRequest(s, h, n, p);
      }
    }
  }

  lemma NewRequest(s: Cluster, h: History, n: NodeId, p: Packet)
    requires n in s.nodes && GrantsInThePast(s.nodes, h) && Membership(s.nodes) && p.to != n
    requires p.msg == VoteRequest(CandidateOf(s.nodes[n])).msg
    ensures VoteTraffic(Stood(s, n).nodes, StoodHistory(s, h, n), p)
  {
    hide GoodPeers;
  }

  lemma StoodKeepsNet(s: Cluster, h: History, n: NodeId)
    requires ElectInv(s, h) && n in s.nodes
    ensures WellFormed(Stood(s, n)) && VotesSentOnce(Stood(s, n).net)
    ensures AllTraffic(Stood(s, n), StoodHistory(s, h, n))
  {
    StoodWellFormed(s, n);
    StoodTrafficAll(s, h, n);
    hide Stood, GoodPeers, VoteTraffic;
    var s' := Stood(s, n);
    forall p, q | p in s'.net && q in s'.net && SameVote(p, q) ensures p == q {
      StoodSendsOnce(s, h, n, p, q);
    }
  }

  lemma StoodWellFormed(s: Cluster, n: NodeId)
    requires WellFormed(s) && n in s.nodes
    ensures WellFormed(Stood(s, n))
    ensures Stood(s, n).nodes == s.nodes[n := CandidateOf(s.nodes[n])]
    ensures Stood(s, n).nodes.Keys == s.nodes.Keys
  {
    var c := CandidateOf(s.nodes[n]);
    var s1 := Set(s, n, c);
    assert s1.nodes.Keys == s.nodes.Keys;
    forall i | 0 <= i < |Requests(c)| ensures Requests(c)[i].0 in s1.nodes {
      assert c.peers[i] in c.peers;
    }
    PostNumbers(s1, Requests(c));
  }

  lemma StoodSendsOnce(s: Cluster, h: History, n: NodeId, p: Packet, q: Packet)
    requires ElectInv(s, h) && n in s.nodes
    requires p in Stood(s, n).net && q in Stood(s, n).net && SameVote(p, q)
    ensures p == q
  {
    hide IsQuorum, VotesUniqueUntilElected, QuorumsLoyal, QuorumsKeepTheirVote, QuorumsAreQuorums;
    hide LeadersElected, LeadersStay, Stood;
    if p in s.net && q !in s.net {
      assert VoteTraffic(s.nodes, h, p);
      StoodPacket(s, n, q);
    } else if p !in s.net && q in s.net {
      assert VoteTraffic(s.nodes, h, q);
      StoodPacket(s, n, p);
    } else if p !in s.net {
      StoodPacket(s, n, p);
      StoodPacket(s, n, q);
      assert GoodPeers(s.nodes.Keys, n, s.nodes[n].peers);
    }
  }

  lemma StoodKeepsVotes(s: Cluster, h: History, n: NodeId)
    requires n in s.nodes && Membership(s.nodes)
    requires GrantsInThePast(s.nodes, h) && VotesUniqueUntilElected(s.nodes, h)
    ensures GrantsInThePast(Stood(s, n).nodes, StoodHistory(s, h, n))
    ensures VotesUniqueUntilElected(Stood(s, n).nodes, StoodHistory(s, h, n))
  {
    hide GoodPeers;
  }

  lemma StoodKeepsQuorums(s: Cluster, h: History, n: NodeId)
    requires n in s.nodes && Membership(s.nodes)
    requires RolesOwnTheirVote(s.nodes) && GrantsInThePast(s.nodes, h)
    requires QuorumsLoyal(h) && QuorumsKeepTheirVote(s.nodes, h)
    ensures RolesOwnTheirVote(Stood(s, n).nodes)
    ensures QuorumsLoyal(StoodHistory(s, h, n)) && QuorumsKeepTheirVote(Stood(s, n).nodes, StoodHistory(s, h, n))
  {
    hide GoodPeers;
  }

  lemma StoodKeepsLeaders(s: Cluster, h: History, n: NodeId)
    requires n in s.nodes && QuorumsAreQuorums(s.nodes, h) && LeadersStay(s.nodes, h) && LeadersElected(s.nodes, h)
    requires GrantsInThePast(s.nodes, h) && QuorumsLoyal(h)
    ensures QuorumsAreQuorums(Stood(s, n).nodes, StoodHistory(s, h, n)) &&
            LeadersStay(Stood(s, n).nodes, StoodHistory(s, h, n))
    ensures LeadersElected(Stood(s, n).nodes, StoodHistory(s, h, n))
  {
    hide IsQuorum;
    assert Stood(s, n).nodes.Keys == s.nodes.Keys;
  }

  lemma StoodKeepsCounts(s: Cluster, h: History, n: NodeId)
    requires n in s.nodes && CountsAreVoters(s.nodes, h)
    ensures CountsAreVoters(Stood(s, n).nodes, StoodHistory(s, h, n))
  {
    assert Stood(s, n).nodes.Keys == s.nodes.Keys;
  }

  lemma StoodKeeps(s: Cluster, h: History, n: NodeId)
    requires ElectInv(s, h) && n in s.nodes
    ensures ElectInv(Stood(s, n), StoodHistory(s, h, n))
  {
    StoodKeepsVotes(s, h, n);
    StoodKeepsQuorums(s, h, n);
    StoodKeepsLeaders(s, h, n);
    StoodKeepsCounts(s, h, n);
    StoodKeepsNet(s, h, n);
  }

  lemma VotedTraffic(s: Cluster, h: History, p: Packet, q: Packet)
    requires p.to in s.nodes && p.msg.RequestVote? && Grants(s.nodes[p.to], p.msg)
    requires VoteTraffic(s.nodes, h, q) && (q.msg.RequestVote? ==> !SameVote(p, q))
    ensures VoteTraffic(Voted(s, p).nodes, VotedHistory(h, p), q)
  {
  }

  lemma VotedReply(s: Cluster, h: History, p: Packet, q: Packet)
    requires p.to in s.nodes && p.msg.RequestVote? && Grants(s.nodes[p.to], p.msg) && VoteTraffic(s.nodes, h, p)
    requires q.to == p.msg.candidate && q.msg == VoteReply(p.msg.term, p.to, true) && CountsAreVoters(s.nodes, h)
    ensures VoteTraffic(Voted(s, p).nodes, VotedHistory(h, p), q)
  {
  }

  lemma VotedKeepsNet(s: Cluster, h: History, p: Packet)
    requires WellFormed(s) && AllTraffic(s, h) && VotesSentOnce(s.net) && CountsAreVoters(s.nodes, h)
    requires p in s.net && p.msg.RequestVote? && Grants(s.nodes[p.to], p.msg)
    ensures WellFormed(Voted(s, p)) && VotesSentOnce(Voted(s, p).net)
    ensures AllTraffic(Voted(s, p), VotedHistory(h, p))
  {
    hide GoodPeers, CountsAreVoters, Grants;
    var s' := Voted(s, p);
    var h' := VotedHistory(h, p);
    var reply := Packet(s.sent, p.msg.candidate, VoteReply(p.msg.term, p.to, true));
    assert VoteTraffic(s.nodes, h, p);
    assert s'.nodes.Keys == s.nodes.Keys;
    StampedOne(s.sent, p.msg.candidate, VoteReply(p.msg.term, p.to, true));
    GrantsInTerm(s.nodes[p.to], p.msg);
    forall q | q in s.net ensures VoteTraffic(s.nodes, h, q) && !SameVote(q, reply) && !SameVote(reply, q) {
    }
    forall q | q in s'.net ensures VoteTraffic(s'.nodes, h', q) {
      if q != reply {
        VotedTraffic(s, h, p, q);
      } else {
        VotedReply(s, h, p, q);
      }
    }
  }

  lemma GrantsInTerm(n: NodeState, m: Msg)
    requires m.RequestVote? && Grants(n, m)
    ensures n.term == m.term
  {
  }

  lemma VotedKeepsGrants(s: Cluster, h: History, p: Packet)
    requires p.to in s.nodes && p.msg.RequestVote? && Grants(s.nodes[p.to], p.msg)
    requires VoteTraffic(s.nodes, h, p) && GrantsInThePast(s.nodes, h) && VotesUniqueUntilElected(s.nodes, h)
    ensures GrantsInThePast(Voted(s, p).nodes, VotedHistory(h, p))
    ensures VotesUniqueUntilElected(Voted(s, p).nodes, VotedHistory(h, p))
  {
  }

  lemma VotedKeepsQuorums(s: Cluster, h: History, p: Packet)
    requires p.to in s.nodes && p.msg.RequestVote? && Grants(s.nodes[p.to], p.msg)
    requires QuorumsLoyal(h) && QuorumsKeepTheirVote(s.nodes, h)
    ensures QuorumsLoyal(VotedHistory(h, p)) && QuorumsKeepTheirVote(Voted(s, p).nodes, VotedHistory(h, p))
  {
  }

  lemma VotedKeeps(s: Cluster, h: History, p: Packet)
    requires ElectInv(s, h) && p in s.net && p.msg.RequestVote? && Grants(s.nodes[p.to], p.msg)
    ensures ElectInv(Voted(s, p), VotedHistory(h, p))
  {
    hide GoodPeers, IsQuorum, Membership, VotesSentOnce, VotesUniqueUntilElected, QuorumsLoyal, QuorumsKeepTheirVote;
    hide GrantsInThePast;
    assert VoteTraffic(s.nodes, h, p);
    VotedKeepsNet(s, h, p);
    VotedKeepsGrants(s, h, p);
    VotedKeepsQuorums(s, h, p);
    assert Voted(s, p).nodes.Keys == s.nodes.Keys;
  }

  ghost predicate Counts(s: Cluster, p: Packet) {
    p.msg.VoteReply? && p.msg.granted && p.to in s.nodes && s.nodes[p.to].role.Candidate? &&
    s.nodes[p.to].term == p.msg.term
  }

  lemma CountedKeepsNet(s: Cluster, h: History, p: Packet)
    requires Counts(s, p) && p in s.net && p.to in h.counted && WellFormed(s) && AllTraffic(s, h) &&
             VotesSentOnce(s.net)
    ensures WellFormed(Counted(s, p)) && VotesSentOnce(Counted(s, p).net)
    ensures AllTraffic(Counted(s, p), CountedHistory(h, p))
  {
    hide GoodPeers;
    var s' := Counted(s, p);
    assert s'.nodes.Keys == s.nodes.Keys;
    forall q | q in s'.net ensures VoteTraffic(s'.nodes, CountedHistory(h, p), q) {
      assert VoteTraffic(s.nodes, h, q);
      assert !SameVote(p, q);
    }
  }

  lemma CountedKeepsGrants(s: Cluster, h: History, p: Packet)
    requires Counts(s, p) && p.to in h.counted && RolesOwnTheirVote(s.nodes) && GrantsInThePast(s.nodes, h)
    ensures RolesOwnTheirVote(Counted(s, p).nodes) && GrantsInThePast(Counted(s, p).nodes, CountedHistory(h, p))
  {
  }

  lemma CountedKeepsUnique(s: Cluster, h: History, p: Packet)
    requires Counts(s, p) && p.to in h.counted && VotesUniqueUntilElected(s.nodes, h)
    ensures VotesUniqueUntilElected(Counted(s, p).nodes, CountedHistory(h, p))
  {
  }

  lemma CountedKeepsQuorums(s: Cluster, h: History, p: Packet)
    requires Counts(s, p) && p.to in h.counted && QuorumsLoyal(h) && QuorumsKeepTheirVote(s.nodes, h) &&
             QuorumsAreQuorums(s.nodes, h)
    ensures QuorumsLoyal(CountedHistory(h, p)) && QuorumsKeepTheirVote(Counted(s, p).nodes, CountedHistory(h, p))
    ensures QuorumsAreQuorums(Counted(s, p).nodes, CountedHistory(h, p))
  {
    hide IsQuorum;
    assert Counted(s, p).nodes.Keys == s.nodes.Keys;
  }

  lemma CountedKeepsLeaders(s: Cluster, h: History, p: Packet)
    requires Counts(s, p) && p.to in h.counted && LeadersStay(s.nodes, h) && LeadersElected(s.nodes, h)
    ensures LeadersStay(Counted(s, p).nodes, CountedHistory(h, p)) &&
            LeadersElected(Counted(s, p).nodes, CountedHistory(h, p))
  {
  }

  lemma CountedKeepsCounts(s: Cluster, h: History, p: Packet)
    requires Counts(s, p) && CountsAreVoters(s.nodes, h) && VoteTraffic(s.nodes, h, p)
    ensures CountsAreVoters(Counted(s, p).nodes, CountedHistory(h, p))
  {
    assert Counted(s, p).nodes.Keys == s.nodes.Keys;
  }

  lemma CountedKeeps(s: Cluster, h: History, p: Packet)
    requires ElectInv(s, h) && p in s.net && p.msg.VoteReply? && p.msg.granted &&
             s.nodes[p.to].role.Candidate? && s.nodes[p.to].term == p.msg.term
    ensures ElectInv(Counted(s, p), CountedHistory(h, p))
  {
    hide GoodPeers, IsQuorum, Membership, VotesSentOnce, VotesUniqueUntilElected, QuorumsLoyal, QuorumsKeepTheirVote;
    hide QuorumsAreQuorums, RolesOwnTheirVote, GrantsInThePast, LeadersStay, LeadersElected;
    assert VoteTraffic(s.nodes, h, p);
    CountedKeepsGrants(s, h, p);
    CountedKeepsUnique(s, h, p);
    CountedKeepsQuorums(s, h, p);
    CountedKeepsLeaders(s, h, p);
    CountedKeepsCounts(s, h, p);
    CountedKeepsNet(s, h, p);
  }

  /** A member of a leader's quorum voted for nobody else. */
  lemma LoyalTo(h: History, v: NodeId, c: NodeId, t: nat)
    requires QuorumsLoyal(h) && t in h.elections && v in h.elections[t].quorum && Grant(v, c, t) in h.grants
    ensures h.elections[t].leader == c
  {
    var g := Grant(v, c, t);
    assert g.voter == v && g.term == t;
  }

  /** A candidate that reaches a majority is the first to lead its term. */
  lemma FirstOfItsTerm(s: Cluster, h: History, n: NodeId)
    requires ElectInv(s, h) && n in s.nodes && s.nodes[n].role.Candidate?
    requires s.nodes[n].role.votes >= Majority(|s.nodes[n].peers|)
    ensures s.nodes[n].term !in h.elections
    ensures IsQuorum(s.nodes.Keys, h.counted[n])
  {
    hide VotesUniqueUntilElected, QuorumsKeepTheirVote, AllTraffic, VotesSentOnce;
    var t := s.nodes[n].term;
    assert GoodPeers(s.nodes.Keys, n, s.nodes[n].peers);
    PeerCount(s.nodes.Keys, n, s.nodes[n].peers);
    forall v | v in h.counted[n] ensures v in s.nodes {
      assert Grant(v, n, t) in h.grants;
    }
    if t in h.elections {
      var v := QuorumsMeet(s.nodes.Keys, h.counted[n], h.elections[t].quorum);
      LoyalTo(h, v, n, t);
    }
  }

  lemma ElectedTraffic(s: Cluster, h: History, n: NodeId, q: Packet)
    requires n in s.nodes && n in h.counted && s.nodes[n].term !in h.elections && VoteTraffic(s.nodes, h, q)
    ensures VoteTraffic(Elected(s, n).nodes, ElectedHistory(s, h, n), q)
  {
  }

  lemma ElectedTrafficAll(s: Cluster, h: History, n: NodeId)
    requires n in s.nodes && n in h.counted && s.nodes[n].term !in h.elections
    requires Membership(s.nodes) && NetAddressed(s.nodes.Keys, s.net, s.sent) && AllTraffic(s, h)
    ensures Membership(Elected(s, n).nodes)
    ensures NetAddressed(Elected(s, n).nodes.Keys, Elected(s, n).net, Elected(s, n).sent)
    ensures AllTraffic(Elected(s, n), ElectedHistory(s, h, n))
  {
    hide GoodPeers, NetAddressed, VoteTraffic;
    assert Elected(s, n).nodes.Keys == s.nodes.Keys;
    forall q | q in s.net ensures VoteTraffic(Elected(s, n).nodes, ElectedHistory(s, h, n), q) {
      ElectedTraffic(s, h, n, q);
    }
  }

  lemma ElectedKeepsVotes(s: Cluster, h: History, n: NodeId)
    requires n in s.nodes && n in h.counted && s.nodes[n].term !in h.elections && s.nodes[n].role.Candidate?
    requires forall v | v in h.counted[n] :: Grant(v, n, s.nodes[n].term) in h.grants
    requires GrantsInThePast(s.nodes, h) && VotesUniqueUntilElected(s.nodes, h)
    requires QuorumsLoyal(h) && QuorumsKeepTheirVote(s.nodes, h)
    ensures QuorumsLoyal(ElectedHistory(s, h, n))
    ensures QuorumsKeepTheirVote(Elected(s, n).nodes, ElectedHistory(s, h, n))
  {
    var t := s.nodes[n].term;
    var h' := ElectedHistory(s, h, n);
    forall g | g in h.grants && g.term == t && g.voter in h.counted[n] ensures g.candidate == n {
      assert Grant(g.voter, n, t) in h.grants;
    }
    forall v | v in h.counted[n] && v in s.nodes && s.nodes[v].term == t ensures s.nodes[v].votedFor == Some(n) {
      assert Grant(v, n, t) in h.grants;
    }
  }

  lemma ElectedKeepsUnique(s: Cluster, h: History, n: NodeId)
    requires n in s.nodes && n in h.counted && Membership(s.nodes) && RolesOwnTheirVote(s.nodes)
    requires s.nodes[n].role.Candidate?
    requires GrantsInThePast(s.nodes, h) && VotesUniqueUntilElected(s.nodes, h)
    ensures RolesOwnTheirVote(Elected(s, n).nodes) && GrantsInThePast(Elected(s, n).nodes, ElectedHistory(s, h, n))
    ensures VotesUniqueUntilElected(Elected(s, n).nodes, ElectedHistory(s, h, n))
  {
    hide GoodPeers;
  }

  lemma ElectedKeepsLeaders(s: Cluster, h: History, n: NodeId)
    requires n in s.nodes && n in h.counted && s.nodes[n].term !in h.elections && IsQuorum(s.nodes.Keys, h.counted[n])
    requires s.nodes[n].term >= 1 && s.nodes[n].role.Candidate?
    requires QuorumsAreQuorums(s.nodes, h) && LeadersStay(s.nodes, h) && LeadersElected(s.nodes, h) &&
             CountsAreVoters(s.nodes, h)
    ensures QuorumsAreQuorums(Elected(s, n).nodes, ElectedHistory(s, h, n)) &&
            LeadersStay(Elected(s, n).nodes, ElectedHistory(s, h, n))
    ensures LeadersElected(Elected(s, n).nodes, ElectedHistory(s, h, n)) &&
            CountsAreVoters(Elected(s, n).nodes, ElectedHistory(s, h, n))
  {
    hide IsQuorum;
    assert Elected(s, n).nodes.Keys == s.nodes.Keys;
  }

  lemma ElectedKeeps(s: Cluster, h: History, n: NodeId)
    requires ElectInv(s, h) && n in s.nodes && s.nodes[n].role.Candidate? &&
             s.nodes[n].role.votes >= Majority(|s.nodes[n].peers|)
    ensures s.nodes[n].term !in h.elections
    ensures ElectInv(Elected(s, n), ElectedHistory(s, h, n))
  {
    FirstOfItsTerm(s, h, n);
    ElectedKeepsVotes(s, h, n);
    ElectedKeepsUnique(s, h, n);
    ElectedKeepsLeaders(s, h, n);
    ElectedTrafficAll(s, h, n);
  }
}
