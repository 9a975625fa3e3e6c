/** Whole runs: the invariant holds in every state of every run, with one history
    that only grows along the run. */
module RaftRuns {
  import opened Options
  import opened RaftCore
  import opened RaftCluster
  import opened RaftHistory
  import opened RaftElection
  import opened RaftLog
  import opened RaftCommit
  import opened RaftCommitSteps
  import opened RaftSteps

  // --- envelopes and copies ----------------------------------------------------------------------

  lemma {:induction false} CopiesDirected(peers: seq<NodeId>, out: seq<Envelope>)
    requires forall i | 0 <= i < |out| :: out[i].to.Some?
    ensures |Copies(peers, out)| == |out|
    ensures forall i | 0 <= i < |out| :: Copies(peers, out)[i] == (out[i].to.value, out[i].msg)
  {
    if out != [] {
      CopiesDirected(peers, out[1..]);
    }
  }

  lemma CopiesOfAppends(n: NodeState)
    requires n.role.Leader? && BroadcastSafe(n)
    ensures Copies(n.peers, Appends(n)) == AppendCopies(n)
  {
    CopiesDirected(n.peers, Appends(n));
  }

  lemma CopiesOfOne(peers: seq<NodeId>, to: NodeId, m: Msg)
    ensures Copies(peers, [Envelope(Some(to), m)]) == [(to, m)]
  {
    assert [Envelope(Some(to), m)][1..] == [];
  }

  lemma CopiesOfRequest(c: NodeState)
    ensures Copies(c.peers, [VoteRequest(c)]) == Requests(c)
  {
    assert [VoteRequest(c)][1..] == [];
  }

  lemma PostNothing(s: Cluster)
    ensures Post(s, []) == s
  {
    assert Stamped(s.sent, []) == {};
  }

  /** Losing the delivered packet before or after posting the answers is the same. */
  lemma CommittingAs(s: Cluster, n: NodeId, y: NodeState, out: seq<Envelope>, s1: Cluster, copies: seq<(NodeId, Msg)>)
    requires y.id == n && Copies(y.peers, out) == copies
    requires s1.nodes == s.nodes[n := y] && s1.net == s.net && s1.sent == s.sent
    ensures Committing(s, Outcome(y, out)) == Post(s1, copies)
  {
  }

  // --- one action ---------------------------------------------------------------------------------

  lemma BroadcastChain(s: Cluster, h: History, base: Cluster, n: NodeId, b: bool)
    requires Ready(s, h, b) && n in s.nodes && s.nodes[n].role.Leader? && BroadcastSafe(s.nodes[n])
    requires s.nodes[n].id == n && s.nodes == base.nodes[n := s.nodes[n]] && s.net == base.net && s.sent == base.sent
    ensures Goes(h, Committing(base, Outcome(s.nodes[n], Appends(s.nodes[n]))), h, b)
  {
    hide InvA, InvG, BroadcastSafe;
    SentStep(s, h, n, b);
    CopiesOfAppends(s.nodes[n]);
    CommittingAs(base, n, s.nodes[n], Appends(s.nodes[n]), s, AppendCopies(s.nodes[n]));
  }

  /** Standing for election, alone or against peers. */
  lemma StandChain(s: Cluster, h: History, base: Cluster, n: NodeId, b: bool) returns (h': History)
    requires Ready(s, h, b) && n in s.nodes && s.nodes[n].id == n
    requires s.nodes == base.nodes[n := s.nodes[n]] && s.net == base.net && s.sent == base.sent
    ensures Goes(h, Committing(base, ElectionStarted(s.nodes[n])), h', b)
  {
    hide InvA, InvG;
    var c := CandidateOf(s.nodes[n]);
    var s1, h1 := Stood(s, n), StoodHistory(s, h, n);
    StoodStep(s, h, n, b);
    if c.peers == [] {
      assert Requests(c) == [];
      PostNothing(Set(s, n, c));
      assert s1 == Set(s, n, c);
      ElectedStep(s1, h1, n, b);
      var s2, h2 := Elected(s1, n), ElectedHistory(s1, h1, n);
      GoesOn(h, s1, h1, s2, h2, b);
      assert s2.nodes == base.nodes[n := LeaderOf(c)];
      BroadcastChain(s2, h2, base, n, b);
      h' := h2;
      GoesOn(h, s2, h2, Committing(base, ElectionStarted(s.nodes[n])), h2, b);
    } else {
      CopiesOfRequest(c);
      assert Set(s, n, c).nodes == base.nodes[n := c];
      CommittingAs(base, n, c, [VoteRequest(c)], Set(s, n, c), Requests(c));
      h' := h1;
    }
  }

  lemma TickChain(s: Cluster, h: History, n: NodeId, b: bool) returns (h': History)
    requires Ready(s, h, b) && n in s.nodes && s.nodes[n].id == n && TickSafe(s.nodes[n])
    ensures Goes(h, Committing(s, Ticked(s.nodes[n])), h', b)
  {
    hide InvA, InvG;
    var x := s.nodes[n];
    h' := h;
    var beat := x.role.Leader? && x.quietTicks + 1 >= x.heartbeatEvery;
    var quiet := if beat then 0 else x.quietTicks + 1;
    var s1 := Touched(s, n, quiet, x.leaderHint);
    TouchedStep(s, h, n, quiet, x.leaderHint, b);
    assert s1.nodes[n] == x.(quietTicks := quiet);
    if beat {
      BroadcastChain(s1, h, s, n, b);
      GoesOn(h, s1, h, Committing(s, Ticked(x)), h, b);
    } else if !x.role.Leader? && quiet >= x.electionAfter {
      h' := StandChain(s1, h, s, n, b);
      GoesOn(h, s1, h, Committing(s, Ticked(x)), h', b);
    } else {
      PostNothing(s1);
    }
  }

  lemma ProposeChain(s: Cluster, h: History, n: NodeId, data: seq<bv8>, b: bool) returns (h': History)
    requires Ready(s, h, b) && n in s.nodes && s.nodes[n].id == n
    requires s.nodes[n].role.Leader? && ProposeSafe(s.nodes[n], data)
    ensures Goes(h, Committing(s, Proposed(s.nodes[n], data).value), h', b)
  {
    hide InvA, InvG, BroadcastSafe, HighestCommit;
    var s1, h1 := Grown(s, n, data), GrownHistory(s, h, n, data);
    GrownStep(s, h, n, data, b);
    var s2 := Advanced(s1, n);
    AdvancedStep(s1, h1, n, b);
    GoesOn(h, s1, h1, s2, h1, b);
    assert s2.nodes == s.nodes[n := s2.nodes[n]];
    BroadcastChain(s2, h1, s, n, b);
    h' := h1;
    GoesOn(h, s2, h1, Committing(s, Proposed(s.nodes[n], data).value), h1, b);
  }

  /** The node catches up with a newer term before it handles the message. */
  lemma CatchUp(s: Cluster, h: History, n: NodeId, t: nat, b: bool)
    requires Ready(s, h, b) && n in s.nodes
    ensures Goes(h, Set(s, n, Caught(s.nodes[n], t)), h, b)
  {
    hide InvA, InvG;
    if t > s.nodes[n].term {
      RaisedStep(s, h, n, t, b);
    } else {
      assert Set(s, n, s.nodes[n]) == s;
      Standstill(s, h, b);
    }
  }

  lemma Standstill(s: Cluster, h: History, b: bool)
    requires Ready(s, h, b)
    ensures Goes(h, s, h, b)
  {
    hide InvA, InvG, AckOf;
  }

  /** The message is consumed and answered without further effect. */
  lemma AnswerChain(s: Cluster, h: History, base: Cluster, p: Packet, to: NodeId, m: Msg, b: bool)
    requires Ready(s, h, b) && p.to in s.nodes && s.nodes[p.to].id == p.to && to in s.nodes
    requires (m.VoteReply? && !m.granted) || (m.AppendReply? && m.from in s.nodes && m.from != to && !m.success)
    requires s.nodes == base.nodes[p.to := s.nodes[p.to]] && s.net == base.net && s.sent == base.sent
    ensures Goes(h, Committing(Without(base, p), Outcome(s.nodes[p.to], [Envelope(Some(to), m)])), h, b)
  {
    hide InvA, InvG;
    var s1 := Without(s, p);
    LostStep(s, h, p, b);
    RepliedStep(s1, h, to, m, b);
    GoesOn(h, s1, h, Replied(s1, to, m), h, b);
    CopiesOfOne(s.nodes[p.to].peers, to, m);
    CommittingAs(Without(base, p), p.to, s.nodes[p.to], [Envelope(Some(to), m)], s1, [(to, m)]);
  }

  /** The message is consumed and not answered. */
  lemma SilentChain(s: Cluster, h: History, base: Cluster, p: Packet, b: bool)
    requires Ready(s, h, b) && p.to in s.nodes && s.nodes[p.to].id == p.to
    requires s.nodes == base.nodes[p.to := s.nodes[p.to]] && s.net == base.net && s.sent == base.sent
    ensures Goes(h, Committing(Without(base, p), Outcome(s.nodes[p.to], [])), h, b)
  {
    hide InvA, InvG;
    LostStep(s, h, p, b);
    CommittingAs(Without(base, p), p.to, s.nodes[p.to], [], Without(s, p), []);
    PostNothing(Without(s, p));
  }

  lemma TrafficOf(s: Cluster, h: History, p: Packet)
    requires InvA(s, h) && p in s.net
    ensures VoteTraffic(s.nodes, h, p)
    ensures p.msg.AppendEntries? ==> p.msg.leader in s.nodes
  {
    hide LogInv, VotesUniqueUntilElected, QuorumsKeepTheirVote, QuorumsLoyal, VotesSentOnce;
    if p.msg.AppendEntries? {
      assert VoteTraffic(s.nodes, h, p);
      assert p.msg.leader in h.elections[p.msg.term].quorum;
    }
  }

  lemma RequestVoteChain(s: Cluster, h: History, p: Packet, b: bool) returns (h': History)
    requires Ready(s, h, b) && p in s.net && p.to in s.nodes && s.nodes[p.to].id == p.to && p.msg.RequestVote?
    ensures Goes(h, Committing(Without(s, p), OnRequestVote(s.nodes[p.to], p.msg)), h', b)
  {
    hide InvA, InvG, Grants;
    var n, m := p.to, p.msg;
    var s1 := Set(s, n, Caught(s.nodes[n], m.term));
    TrafficOf(s, h, p);
    CatchUp(s, h, n, m.term, b);
    assert s1.nodes.Keys == s.nodes.Keys;
    if Grants(s1.nodes[n], m) {
      VotedStep(s1, h, p, b);
      h' := VotedHistory(h, p);
      GoesOn(h, s1, h, Voted(s1, p), h', b);
      var y := s1.nodes[n].(votedFor := Some(m.candidate), quietTicks := 0);
      var reply := VoteReply(y.term, n, true);
      CopiesOfOne(y.peers, m.candidate, reply);
      assert Set(Without(s1, p), n, y).nodes == s.nodes[n := y];
      CommittingAs(Without(s, p), n, y, [Envelope(Some(m.candidate), reply)], Set(Without(s1, p), n, y),
                   [(m.candidate, reply)]);
    } else {
      h' := h;
      AnswerChain(s1, h, s, p, m.candidate, VoteReply(s1.nodes[n].term, n, false), b);
      GoesOn(h, s1, h, Committing(Without(s, p), OnRequestVote(s.nodes[n], m)), h, b);
    }
  }

  lemma VoteReplyChain(s: Cluster, h: History, p: Packet, b: bool) returns (h': History)
    requires Ready(s, h, b) && p in s.net && p.to in s.nodes && s.nodes[p.to].id == p.to && p.msg.VoteReply?
    ensures Goes(h, Committing(Without(s, p), OnVoteReply(s.nodes[p.to], p.msg)), h', b)
  {
    hide InvA, InvG;
    var n, m := p.to, p.msg;
    var x := s.nodes[n];
    h' := h;
    var s1 := Set(s, n, Caught(x, m.term));
    CatchUp(s, h, n, m.term, b);
    if m.term <= x.term && x.role.Candidate? && m.term == x.term && m.granted {
      CountedStep(s, h, p, b);
      var s2, h2 := Counted(s, p), CountedHistory(h, p);
      var c := s2.nodes[n];
      if c.role.votes >= Majority(|c.peers|) {
        ElectedStep(s2, h2, n, b);
        var s3, h3 := Elected(s2, n), ElectedHistory(s2, h2, n);
        GoesOn(h, s2, h2, s3, h3, b);
        assert s3.nodes == s.nodes[n := LeaderOf(c)];
        BroadcastChain(s3, h3, Without(s, p), n, b);
        h' := h3;
        GoesOn(h, s3, h3, Committing(Without(s, p), OnVoteReply(x, m)), h3, b);
      } else {
        h' := h2;
        CommittingAs(Without(s, p), n, c, [], s2, []);
        PostNothing(s2);
      }
    } else {
      SilentChain(s1, h, s, p, b);
      GoesOn(h, s1, h, Committing(Without(s, p), OnVoteReply(x, m)), h, b);
    }
  }

  /** The term rule of an append, then hearing from the leader. */
  lemma HearChain(s: Cluster, h: History, p: Packet, b: bool)
    requires Ready(s, h, b) && p in s.net && p.to in s.nodes && p.msg.AppendEntries?
    ensures Goes(h, Set(s, p.to, Demoted(s.nodes[p.to], p.msg.term)), h, b)
  {
    hide InvA, InvG;
    var n, t := p.to, p.msg.term;
    if t > s.nodes[n].term {
      RaisedStep(s, h, n, t, b);
    } else if t == s.nodes[n].term && s.nodes[n].role != Follower {
      DemotedStep(s, h, p, b);
    } else {
      assert Set(s, n, s.nodes[n]) == s;
      Standstill(s, h, b);
    }
  }

  lemma AppendEntriesChain(s: Cluster, h: History, p: Packet, b: bool) returns (h': History)
    requires Ready(s, h, b) && p in s.net && p.to in s.nodes && s.nodes[p.to].id == p.to && p.msg.AppendEntries?
    requires b ==> !DropsOwn(s.nodes[p.to], p.msg)
    ensures Goes(h, Committing(Without(s, p), OnAppendEntries(s.nodes[p.to], p.msg)), h', b)
  {
    hide InvA, InvG, Consistent;
    var n, m := p.to, p.msg;
    var s1 := Set(s, n, Demoted(s.nodes[n], m.term));
    TrafficOf(s, h, p);
    HearChain(s, h, p, b);
    h' := h;
    assert s1.nodes.Keys == s.nodes.Keys;
    if m.term < s1.nodes[n].term {
      AnswerChain(s1, h, s, p, m.leader, AppendReply(s1.nodes[n].term, n, false, 0), b);
      GoesOn(h, s1, h, Committing(Without(s, p), OnAppendEntries(s.nodes[n], m)), h, b);
    } else {
      var s2 := Touched(s1, n, 0, Some(m.leader));
      TouchedStep(s1, h, n, 0, Some(m.leader), b);
      GoesOn(h, s1, h, s2, h, b);
      assert s2.nodes.Keys == s.nodes.Keys && s2.nodes == s.nodes[n := s2.nodes[n]];
      if !Consistent(s2.nodes[n], m) {
        AnswerChain(s2, h, s, p, m.leader, AppendReply(s2.nodes[n].term, n, false, 0), b);
        GoesOn(h, s2, h, Committing(Without(s, p), OnAppendEntries(s.nodes[n], m)), h, b);
      } else {
        if b {
          CutsTheSame(s.nodes[n], s2.nodes[n], m);
        }
        h' := AcceptChain(s2, h, s, p, b);
        GoesOn(h, s2, h, Committing(Without(s, p), OnAppendEntries(s.nodes[n], m)), h', b);
      }
    }
  }

  /** The guard is about the log and the append only. */
  lemma CutsTheSame(n: NodeState, y: NodeState, m: Msg)
    requires m.AppendEntries? && m.term >= n.term && !DropsOwn(n, m) && y.log == n.log && Consistent(y, m)
    ensures !CutsOwn(y.log, m)
  {
  }

  lemma AcceptChain(s: Cluster, h: History, base: Cluster, p: Packet, b: bool) returns (h': History)
    requires Ready(s, h, b) && p in s.net && p.to in s.nodes && s.nodes[p.to].id == p.to && p.msg.AppendEntries?
    requires s.nodes == base.nodes[p.to := s.nodes[p.to]] && s.net == base.net && s.sent == base.sent
    requires s.nodes[p.to].term == p.msg.term && s.nodes[p.to].role == Follower
    requires Consistent(s.nodes[p.to], p.msg) && (b ==> !CutsOwn(s.nodes[p.to].log, p.msg))
    requires p.msg.leader in s.nodes && p.msg.leader != p.to
    ensures var y := Appended(s.nodes[p.to], p.msg);
            var reply := Envelope(Some(p.msg.leader), AppendReply(y.term, y.id, true, |y.log|));
            Goes(h, Committing(Without(base, p), Outcome(y, [reply])), h', b)
  {
    hide InvA, InvG, Consistent;
    var n := p.to;
    var s1 := Accepted(s, p);
    h' := AcceptedHistory(s, h, p);
    AcceptedStep(s, h, p, b);
    assert s1.nodes.Keys == s.nodes.Keys;
    var y := s1.nodes[n];
    var reply := AppendReply(y.term, y.id, true, |y.log|);
    RepliedStep(s1, h', p.msg.leader, reply, b);
    GoesOn(h, s1, h', Replied(s1, p.msg.leader, reply), h', b);
    CopiesOfOne(y.peers, p.msg.leader, reply);
    assert s1.nodes == base.nodes[n := y];
    CommittingAs(Without(base, p), n, y, [Envelope(Some(p.msg.leader), reply)], s1, [(p.msg.leader, reply)]);
  }

  lemma AppendReplyChain(s: Cluster, h: History, p: Packet, b: bool)
    requires Ready(s, h, b) && p in s.net && p.to in s.nodes && s.nodes[p.to].id == p.to && p.msg.AppendReply?
    requires b ==> !CountsStale(s.nodes[p.to], p.msg)
    ensures Goes(h, Committing(Without(s, p), OnAppendReply(s.nodes[p.to], p.msg)), h, b)
  {
    hide InvA, InvG, HighestCommit;
    var n, m := p.to, p.msg;
    var x := s.nodes[n];
    if m.term > x.term || !x.role.Leader? {
      var s1 := Set(s, n, Caught(x, m.term));
      CatchUp(s, h, n, m.term, b);
      SilentChain(s1, h, s, p, b);
      GoesOn(h, s1, h, Committing(Without(s, p), OnAppendReply(x, m)), h, b);
    } else if m.success {
      var s1 := Recorded(s, p);
      RecordedStep(s, h, p, b);
      var s2 := Advanced(s1, n);
      AdvancedStep(s1, h, n, b);
      GoesOn(h, s1, h, s2, h, b);
      assert s2.nodes == s.nodes[n := s2.nodes[n]];
      CommittingAs(Without(s, p), n, s2.nodes[n], [], s2, []);
      PostNothing(s2);
    } else {
      var s1 := Retried(s, p);
      RetriedStep(s, h, p, b);
      CommittingAs(Without(s, p), n, s1.nodes[n], [], s1, []);
      PostNothing(s1);
    }
  }

  /** Every enabled action keeps the Net-A half of the invariant, and under Net-G
      the other half too. */
  lemma ActionKeeps(s: Cluster, h: History, a: Action, b: bool) returns (h': History)
    requires Ready(s, h, b) && Enabled(s, a) && (b ==> NetG(s, a))
    ensures Goes(h, Apply(s, a), h', b)
  {
    hide InvG, ElectInv, LogInv;
    EnrolledAll(s, h);
    match a
    case Tick(n) => h' := TickChain(s, h, n, b);
    case Propose(n, data) =>
      if s.nodes[n].role.Leader? {
        h' := ProposeChain(s, h, n, data, b);
      } else {
        h' := h;
        Standstill(s, h, b);
      }
    case Drop(p) =>
      h' := h;
      LostStep(s, h, p, b);
    case Deliver(p) =>
      match p.msg
      case RequestVote(_, _, _, _) => h' := RequestVoteChain(s, h, p, b);
      case VoteReply(_, _, _) => h' := VoteReplyChain(s, h, p, b);
      case AppendEntries(_, _, _, _, _, _) => h' := AppendEntriesChain(s, h, p, b);
      case AppendReply(_, _, _, _) =>
        AppendReplyChain(s, h, p, b);
        h' := h;
  }
}
