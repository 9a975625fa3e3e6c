/** Where the halves of the delivery contract Net-B are needed: a run without stale
    replies in which an overtaken append makes two committed logs disagree, and a run
    with appends in order in which a late reply of an older term leaves a leader with
    an index out of range. */
module RaftLimits {
  import opened Options
  import opened RaftCore
  import opened RaftCluster
  import opened RaftTheorems

  /** Some run that keeps to the half ends here. */
  ghost predicate Reached(half: Half, s: Cluster) {
    exists r: Run :: IsRunOf(half, r) && r.states[|r.states| - 1] == s
  }

  /** A copy of the message is on its way to the node. */
  ghost predicate InFlight(s: Cluster, to: NodeId, msg: Msg) {
    exists k: nat :: Packet(k, to, msg) in s.net
  }

  lemma Next(half: Half, s: Cluster, a: Action)
    requires Reached(half, s) && Enabled(s, a) && Allowed(half, s, a)
    ensures Reached(half, Apply(s, a))
  {
    hide Initial, Enabled, Apply, Allowed;
    var r: Run :| IsRunOf(half, r) && r.states[|r.states| - 1] == s;
    var more := Run(r.states + [Apply(s, a)], r.actions + [a]);
    forall k | 0 <= k < |more.actions| ensures StepAt(more, k) && Allowed(half, more.states[k], more.actions[k]) {
      if k < |r.actions| {
        assert StepAt(r, k) && Allowed(half, r.states[k], r.actions[k]);
      }
    }
    assert IsRunA(more);
  }

  /** What a call that posts messages leaves behind. */
  ghost predicate Left(half: Half, s: Cluster, s': Cluster, id: NodeId, o: Outcome) {
    && Reached(half, s') && s'.nodes == s.nodes[id := o.node]
    && forall x | x in Copies(o.node.peers, o.sent) :: InFlight(s', x.0, x.1)
  }

  ghost predicate Undisturbed(s: Cluster, s': Cluster) {
    forall to, msg | InFlight(s, to, msg) :: InFlight(s', to, msg)
  }

  lemma PostFlies(s: Cluster, copies: seq<(NodeId, Msg)>)
    ensures forall x | x in copies :: InFlight(Post(s, copies), x.0, x.1)
    ensures Undisturbed(s, Post(s, copies))
  {
    forall x | x in copies ensures InFlight(Post(s, copies), x.0, x.1) {
      var i :| 0 <= i < |copies| && copies[i] == x;
      assert Packet(s.sent + i, copies[i].0, copies[i].1) in Stamped(s.sent, copies);
    }
    forall to, msg | InFlight(s, to, msg) ensures InFlight(Post(s, copies), to, msg) {
      var k: nat :| Packet(k, to, msg) in s.net;
      assert Packet(k, to, msg) in Post(s, copies).net;
    }
  }

  lemma Ticks(half: Half, s: Cluster, n: NodeId) returns (s': Cluster)
    requires Reached(half, s) && n in s.nodes && s.nodes[n].id == n && TickSafe(s.nodes[n])
    ensures Left(half, s, s', n, Ticked(s.nodes[n])) && Undisturbed(s, s')
  {
    hide Reached, Copies, Ticked, InFlight, Stamped;
    s' := Apply(s, Tick(n));
    Next(half, s, Tick(n));
    var o := Ticked(s.nodes[n]);
    TickKeepsId(s.nodes[n]);
    PostFlies(Put(s, o.node), Copies(o.node.peers, o.sent));
    SameNet(s, Put(s, o.node));
  }

  lemma TickKeepsId(n: NodeState)
    requires TickSafe(n)
    ensures Ticked(n).node.id == n.id
  {
  }

  lemma SameNet(s: Cluster, s1: Cluster)
    requires s1.net == s.net
    ensures Undisturbed(s, s1)
  {
    forall to, msg | InFlight(s, to, msg) ensures InFlight(s1, to, msg) {
      var k: nat :| Packet(k, to, msg) in s.net;
      assert Packet(k, to, msg) in s1.net;
    }
  }

  lemma Proposes(half: Half, s: Cluster, n: NodeId, data: seq<bv8>) returns (s': Cluster)
    requires Reached(half, s) && n in s.nodes && s.nodes[n].id == n && s.nodes[n].role.Leader? &&
             ProposeSafe(s.nodes[n], data)
    ensures Left(half, s, s', n, Proposed(s.nodes[n], data).value) && Undisturbed(s, s')
  {
    hide Reached, Copies, InFlight, Stamped, ProposeSafe, CommitAdvanced, Appends;
    s' := Apply(s, Propose(n, data));
    Next(half, s, Propose(n, data));
    var o := Proposed(s.nodes[n], data).value;
    ProposeKeepsId(s.nodes[n], data);
    PostFlies(Put(s, o.node), Copies(o.node.peers, o.sent));
    SameNet(s, Put(s, o.node));
  }

  lemma ProposeKeepsId(n: NodeState, data: seq<bv8>)
    requires n.role.Leader? && ProposeSafe(n, data)
    ensures Proposed(n, data).value.node.id == n.id
  {
  }

  /** All messages but the delivered copy stay in flight. */
  ghost predicate OthersFly(s: Cluster, s': Cluster, to: NodeId, msg: Msg) {
    forall t, m | InFlight(s, t, m) && (t, m) != (to, msg) :: InFlight(s', t, m)
  }

  /** Whatever else is in flight, the half lets the node hear this. */
  predicate MayHear(half: Half, n: NodeState, msg: Msg) {
    match half
    case NoStaleReplies => !(msg.AppendReply? && n.role.Leader? && msg.term < n.term)
    case AppendsInOrder => !msg.AppendEntries?
  }

  lemma MayDeliver(half: Half, s: Cluster, p: Packet)
    requires p.to in s.nodes && MayHear(half, s.nodes[p.to], p.msg)
    ensures Allowed(half, s, Deliver(p))
  {
  }

  lemma Delivers(half: Half, s: Cluster, to: NodeId, msg: Msg) returns (s': Cluster)
    requires Reached(half, s) && InFlight(s, to, msg) && to in s.nodes && s.nodes[to].id == to
    requires MayHear(half, s.nodes[to], msg)
    ensures Left(half, s, s', to, Stepped(s.nodes[to], msg)) && OthersFly(s, s', to, msg)
  {
    var k: nat :| Packet(k, to, msg) in s.net;
    MayDeliver(half, s, Packet(k, to, msg));
    s' := DeliversPacket(half, s, Packet(k, to, msg));
  }

  lemma DeliversPacket(half: Half, s: Cluster, p: Packet) returns (s': Cluster)
    requires Reached(half, s) && p in s.net && p.to in s.nodes && s.nodes[p.to].id == p.to
    requires Allowed(half, s, Deliver(p))
    ensures Left(half, s, s', p.to, Stepped(s.nodes[p.to], p.msg)) && OthersFly(s, s', p.to, p.msg)
  {
    hide Reached, Copies, Stepped, Stamped, Allowed;
    var to, msg := p.to, p.msg;
    s' := Apply(s, Deliver(p));
    Next(half, s, Deliver(p));
    var o := Stepped(s.nodes[to], msg);
    StepKeepsId(s.nodes[to], msg);
    var s1 := Put(Without(s, p), o.node);
    PostFlies(s1, Copies(o.node.peers, o.sent));
    forall t, m | InFlight(s, t, m) && (t, m) != (to, msg) ensures InFlight(s', t, m) {
      var j: nat :| Packet(j, t, m) in s.net;
      assert Packet(j, t, m) in s1.net;
      assert InFlight(s1, t, m);
    }
  }

  /** Older appends of the same stream can be lost first. */
  function Older(s: Cluster, p: Packet): set<Packet> {
    set q | q in s.net && SameStream(p, q) && q.seqNo < p.seqNo
  }

  lemma {:induction false} LosesOlder(s: Cluster, p: Packet) returns (s': Cluster)
    requires Reached(AppendsInOrder, s) && p in s.net
    ensures Reached(AppendsInOrder, s') && s'.nodes == s.nodes && p in s'.net && InOrder(s', p)
    ensures forall q | q in s.net && !SameStream(p, q) :: q in s'.net
    decreases |Older(s, p)|
  {
    hide Reached;
    if q :| q in Older(s, p) {
      Next(AppendsInOrder, s, Drop(q));
      assert Older(Without(s, q), p) == Older(s, p) - {q};
      s' := LosesOlder(Without(s, q), p);
    } else {
      s' := s;
      forall q | q in s.net && SameStream(p, q) ensures p.seqNo <= q.seqNo {
        assert q !in Older(s, p);
      }
    }
  }

  /** An append is delivered in order, once the older ones are lost. */
  lemma DeliversNext(s: Cluster, to: NodeId, msg: Msg) returns (s': Cluster)
    requires Reached(AppendsInOrder, s) && InFlight(s, to, msg) && to in s.nodes && s.nodes[to].id == to
    ensures Left(AppendsInOrder, s, s', to, Stepped(s.nodes[to], msg))
    ensures forall t, m | InFlight(s, t, m) && (t, m) != (to, msg) && (m.AppendEntries? ==> t != to) ::
              InFlight(s', t, m)
  {
    var k: nat :| Packet(k, to, msg) in s.net;
    hide Reached, Copies, Stepped;
    var s1 := LosesOlder(s, Packet(k, to, msg));
    s' := DeliversPacket(AppendsInOrder, s1, Packet(k, to, msg));
    forall t, m | InFlight(s, t, m) && (t, m) != (to, msg) && (m.AppendEntries? ==> t != to)
      ensures InFlight(s', t, m)
    {
      var j: nat :| Packet(j, t, m) in s.net;
      assert Packet(j, t, m) in s1.net;
      assert InFlight(s1, t, m);
    }
  }

  lemma StepKeepsId(n: NodeState, msg: Msg)
    ensures Stepped(n, msg).node.id == n.id
  {
  }

  /** A node that does not lead may idle up to its election timeout. */
  lemma {:induction false} Idles(half: Half, s: Cluster, n: NodeId, k: nat) returns (s': Cluster)
    requires Reached(half, s) && n in s.nodes && s.nodes[n].id == n && !s.nodes[n].role.Leader?
    requires s.nodes[n].quietTicks + k < s.nodes[n].electionAfter
    ensures Reached(half, s') && s'.nodes == s.nodes[n := s.nodes[n].(quietTicks := s.nodes[n].quietTicks + k)] &&
            Undisturbed(s, s')
  {
    hide Reached, InFlight;
    if k == 0 {
      s' := s;
      SameNet(s, s);
    } else {
      var s1 := Idles(half, s, n, k - 1);
      s' := Ticks(half, s1, n);
    }
  }

  /** A silent node times out and stands for the next term. */
  lemma Stands(half: Half, s: Cluster, n: NodeId) returns (s': Cluster)
    requires Reached(half, s) && n in s.nodes && s.nodes[n].id == n && !s.nodes[n].role.Leader? &&
             s.nodes[n].peers != []
    requires s.nodes[n].quietTicks == 0 && s.nodes[n].electionAfter == 10
    ensures Reached(half, s') && s'.nodes == s.nodes[n := CandidateOf(s.nodes[n])] && Undisturbed(s, s')
    ensures var x := s.nodes[n];
            forall p | p in x.peers :: InFlight(s', p, RequestVote(x.term + 1, n, |x.log|, LastTerm(x.log)))
  {
    hide Reached, InFlight;
    var s1 := Idles(half, s, n, 9);
    s' := Ticks(half, s1, n);
    var x := s.nodes[n];
    Broadcast(x.peers, RequestVote(x.term + 1, n, |x.log|, LastTerm(x.log)));
  }

  lemma Broadcast(peers: seq<NodeId>, msg: Msg)
    ensures forall p | p in peers :: (p, msg) in Copies(peers, [Envelope(None, msg)])
  {
    var copies := Copies(peers, [Envelope(None, msg)]);
    assert [Envelope(None, msg)][1..] == [];
    forall i | 0 <= i < |peers| ensures (peers[i], msg) in copies {
      assert copies[i] == (peers[i], msg);
    }
  }

  // --- what is on its way after a call ---------------------------------------------------------

  lemma {:induction false} CopyOf(peers: seq<NodeId>, out: seq<Envelope>, i: nat)
    requires i < |out| && out[i].to.Some?
    ensures (out[i].to.value, out[i].msg) in Copies(peers, out)
  {
    if i > 0 {
      CopyOf(peers, out[1..], i - 1);
    }
  }

  // --- single calls -------------------------------------------------------------------------------

  /** A node of a small cluster. */
  function Member(id: NodeId, peers: seq<NodeId>, role: Role, term: nat, voted: Option<NodeId>, log: seq<LogEntry>,
                  commit: nat, hint: Option<NodeId>): NodeState
  {
    NodeState(id, peers, role, term, voted, log, commit, hint, 0, 10, 3)
  }

  /** A voter behind in term and not ahead in log grants its vote. */
  lemma Votes(n: NodeState, c: NodeId, term: nat, lastIndex: nat, lastTerm: nat)
    requires n.term < term && UpToDate(n, lastIndex, lastTerm)
    ensures Stepped(n, RequestVote(term, c, lastIndex, lastTerm)) ==
              Outcome(FollowerAt(n, term).(votedFor := Some(c)), [Envelope(Some(c), VoteReply(term, n.id, true))])
  {
  }

  /** The vote that completes a majority makes the candidate leader. */
  lemma Wins(n: NodeState, from: NodeId, votes: nat)
    requires n.role == Candidate(votes) && votes + 1 >= Majority(|n.peers|)
    ensures Stepped(n, VoteReply(n.term, from, true)).node == LeaderOf(n.(role := Candidate(votes + 1)))
  {
  }

  /** Appending from the start of the log replaces it. */
  lemma Replaces(n: NodeState, l: NodeId, term: nat, entries: seq<LogEntry>)
    requires n.term <= term && (n.term == term ==> n.role.Follower?)
    ensures var m := AppendEntries(term, l, 0, 0, entries, 0);
            var before := if n.term < term then FollowerAt(n, term) else n;
            Stepped(n, m) == Outcome(before.(log := entries, quietTicks := 0, leaderHint := Some(l)),
                                     [Envelope(Some(l), AppendReply(term, n.id, true, |entries|))])
  {
    assert n.log[..0] + entries == entries;
  }

  /** Nothing acknowledged, nothing committed. */
  lemma NoQuorum(n: NodeState, hi: nat)
    requires n.role.Leader? && |n.peers| >= 1 && hi <= |n.log|
    requires forall p | p in n.role.matchIndex :: n.role.matchIndex[p] == 0
    ensures HighestCommit(n, hi) == n.commit
  {
    if hi > n.commit {
      assert (set p | p in n.role.matchIndex && n.role.matchIndex[p] >= hi) == {};
      NoQuorum(n, hi - 1);
    }
  }

  /** A leader without acknowledgements only extends its log. */
  lemma ProposesAlone(n: NodeState, data: seq<bv8>)
    requires n.role.Leader? && |n.peers| >= 1 && forall p | p in n.role.matchIndex :: n.role.matchIndex[p] == 0
    requires BroadcastSafe(n)
    ensures ProposeSafe(n, data) && Proposed(n, data).Some?
    ensures Proposed(n, data).value == Outcome(Extended(n, data), Appends(Extended(n, data)))
    ensures BroadcastSafe(Extended(n, data))
  {
    NoQuorum(Extended(n, data), |n.log| + 1);
    assert CommitAdvanced(Extended(n, data)) == Extended(n, data);
    forall p | p in n.peers ensures 1 <= NextFor(Extended(n, data), p) <= |n.log| + 2 {
      assert NextFor(Extended(n, data), p) == NextFor(n, p);
    }
  }

  /** One acknowledgement of the whole log commits it in a cluster of three. */
  lemma Commits(n: NodeState, from: NodeId)
    requires n.role.Leader? && |n.peers| == 2 && from in n.role.matchIndex && n.commit < |n.log| &&
             LastTerm(n.log) == n.term
    requires forall p | p in n.role.matchIndex :: n.role.matchIndex[p] == 0
    ensures Stepped(n, AppendReply(n.term, from, true, |n.log|)) ==
              Outcome(Acknowledged(n, from, |n.log|).(commit := |n.log|), [])
  {
    var k := Acknowledged(n, from, |n.log|);
    assert (set p | p in k.role.matchIndex && k.role.matchIndex[p] >= |n.log|) == {from};
    assert Committable(k, |n.log|);
  }

  // --- an overtaken append ---------------------------------------------------------------------------

  ghost predicate Three(s: Cluster, a: NodeState, b: NodeState, c: NodeState) {
    Reached(NoStaleReplies, s) && s.nodes == map[a.id := a, b.id := b, c.id := c]
  }

  function OneEntry(): seq<LogEntry> {
    [LogEntry(1, [])]
  }

  ghost predicate Apart(a: NodeState, b: NodeState, c: NodeState) {
    a.id != b.id && b.id != c.id && a.id != c.id
  }

  lemma Turn(s: Cluster, a: NodeState, b: NodeState, c: NodeState)
    requires Three(s, a, b, c) && Apart(a, b, c)
    ensures Three(s, b, a, c) && Three(s, c, b, a)
  {
    assert map[a.id := a, b.id := b, c.id := c] == map[b.id := b, a.id := a, c.id := c] ==
             map[c.id := c, b.id := b, a.id := a];
  }

  /** What the first node's call sent is in flight. */
  ghost predicate Flies(s: Cluster, o: Outcome) {
    forall x | x in Copies(o.node.peers, o.sent) :: InFlight(s, x.0, x.1)
  }

  lemma FirstStands(s: Cluster, a: NodeState, b: NodeState, c: NodeState) returns (s': Cluster)
    requires Three(s, a, b, c) && Apart(a, b, c) && !a.role.Leader? && a.peers != [] && a.quietTicks == 0 &&
             a.electionAfter == 10
    ensures Three(s', CandidateOf(a), b, c) && Undisturbed(s, s')
    ensures forall p | p in a.peers :: InFlight(s', p, RequestVote(a.term + 1, a.id, |a.log|, LastTerm(a.log)))
  {
    hide Reached, InFlight, CandidateOf, Undisturbed;
    assert s.nodes[a.id] == a;
    s' := Stands(NoStaleReplies, s, a.id);
    CandidateKeepsId(a);
    assert s.nodes[a.id := CandidateOf(a)] == map[a.id := CandidateOf(a), b.id := b, c.id := c];
  }

  lemma CandidateKeepsId(a: NodeState)
    ensures CandidateOf(a).id == a.id
  {
  }

  lemma FirstHears(s: Cluster, a: NodeState, b: NodeState, c: NodeState, msg: Msg) returns (s': Cluster)
    requires Three(s, a, b, c) && Apart(a, b, c) && InFlight(s, a.id, msg) && MayHear(NoStaleReplies, a, msg)
    ensures Three(s', Stepped(a, msg).node, b, c) && OthersFly(s, s', a.id, msg) && Flies(s', Stepped(a, msg))
  {
    hide Reached, InFlight, Stepped, OthersFly, Copies;
    assert s.nodes[a.id] == a;
    s' := Delivers(NoStaleReplies, s, a.id, msg);
    StepKeepsId(a, msg);
    var a' := Stepped(a, msg).node;
    assert s.nodes[a.id := a'] == map[a.id := a', b.id := b, c.id := c];
  }

  lemma FirstProposes(s: Cluster, a: NodeState, b: NodeState, c: NodeState, data: seq<bv8>) returns (s': Cluster)
    requires Three(s, a, b, c) && Apart(a, b, c) && a.role.Leader? && ProposeSafe(a, data)
    ensures Three(s', Proposed(a, data).value.node, b, c) && Undisturbed(s, s') && Flies(s', Proposed(a, data).value)
  {
    hide Reached, InFlight, Undisturbed, Copies, ProposeSafe;
    assert s.nodes[a.id] == a;
    s' := Proposes(NoStaleReplies, s, a.id, data);
    ProposeKeepsId(a, data);
    hide Proposed;
    var a' := Proposed(a, data).value.node;
    assert s.nodes[a.id := a'] == map[a.id := a', b.id := b, c.id := c];
  }

  lemma ReplyFlies(s: Cluster, o: Outcome, to: NodeId, msg: Msg)
    requires Flies(s, o) && o.sent == [Envelope(Some(to), msg)]
    ensures InFlight(s, to, msg)
  {
    CopyOf(o.node.peers, o.sent, 0);
  }

  lemma AppendsFly(s: Cluster, o: Outcome, p: NodeId)
    requires Flies(s, o) && BroadcastSafe(o.node) && o.node.role.Leader? && p in o.node.peers &&
             o.sent == Appends(o.node)
    ensures InFlight(s, p, AppendFor(o.node, p))
  {
    var i :| 0 <= i < |o.node.peers| && o.node.peers[i] == p;
    CopyOf(o.node.peers, o.sent, i);
  }

  lemma StartsThree(a: NodeId, b: NodeId, c: NodeId) returns (s: Cluster)
    requires a != b && b != c && a != c
    ensures Three(s, Fresh(a, [b, c], 10), Fresh(b, [a, c], 10), Fresh(c, [a, b], 10))
  {
    s := Cluster(map[a := Fresh(a, [b, c], 10), b := Fresh(b, [a, c], 10), c := Fresh(c, [a, b], 10)], {}, 0);
    assert s.nodes.Keys == {a, b, c};
    Begins(NoStaleReplies, s);
  }

  /** Standing, one vote, and a majority of three: the candidate leads. */
  lemma Elected(s: Cluster, a: NodeState, b: NodeState, c: NodeState) returns (s': Cluster)
    requires Three(s, a, b, c) && Apart(a, b, c) && a.role.Follower? && a.quietTicks == 0 && a.electionAfter == 10
    requires |a.peers| == 2 && b.id in a.peers && b.term < a.term + 1 && UpToDate(b, |a.log|, LastTerm(a.log))
    ensures Three(s', LeaderOf(CandidateOf(a).(role := Candidate(2))),
                  FollowerAt(b, a.term + 1).(votedFor := Some(a.id)), c)
    ensures forall p, m | InFlight(s, p, m) && m.AppendEntries? :: InFlight(s', p, m)
  {
    hide Three, InFlight, Flies, UpToDate, LeaderOf, Stepped;
    var s1 := FirstStands(s, a, b, c);
    var a1, rv := CandidateOf(a), RequestVote(a.term + 1, a.id, |a.log|, LastTerm(a.log));
    Turn(s1, a1, b, c);
    Votes(b, a.id, a.term + 1, |a.log|, LastTerm(a.log));
    var s2 := FirstHears(s1, b, a1, c, rv);
    ReplyFlies(s2, Stepped(b, rv), a.id, VoteReply(a.term + 1, b.id, true));
    var b1 := Stepped(b, rv).node;
    Turn(s2, b1, a1, c);
    Wins(a1, b.id, 1);
    s' := FirstHears(s2, a1, b1, c, VoteReply(a.term + 1, b.id, true));
  }

  /** A leader nobody has answered, elected with a log of `base` entries. */
  ghost predicate Unanswered(n: NodeState, base: nat) {
    && n.role.Leader? && |n.peers| == 2 && base <= |n.log|
    && (forall p | p in n.role.matchIndex :: n.role.matchIndex[p] == 0)
    && (forall p | p in n.peers :: p in n.role.matchIndex && NextFor(n, p) == base + 1)
  }

  lemma NewlyLeads(n: NodeState)
    requires |n.peers| == 2
    ensures Unanswered(LeaderOf(n), |n.log|)
  {
  }

  lemma ProposesOne(s: Cluster, a: NodeState, b: NodeState, c: NodeState, base: nat) returns (s': Cluster)
    requires Three(s, a, b, c) && Apart(a, b, c) && Unanswered(a, base) && b.id in a.peers && c.id in a.peers
    ensures var a' := Extended(a, []);
            && Three(s', a', b, c) && Unanswered(a', base) && BroadcastSafe(a') && Undisturbed(s, s')
            && InFlight(s', b.id, AppendFor(a', b.id)) && InFlight(s', c.id, AppendFor(a', c.id))
  {
    hide Three, InFlight, Undisturbed, Flies, ProposeSafe, Proposed, Appends;
    LeadsSafely(a, base);
    ProposesAlone(a, []);
    s' := FirstProposes(s, a, b, c, []);
    LeadsOn(a, base);
    LeadsSafely(Extended(a, []), base);
    AppendsFly(s', Outcome(Extended(a, []), Appends(Extended(a, []))), b.id);
    AppendsFly(s', Outcome(Extended(a, []), Appends(Extended(a, []))), c.id);
  }

  lemma LeadsSafely(a: NodeState, base: nat)
    requires Unanswered(a, base)
    ensures BroadcastSafe(a)
  {
  }

  lemma LeadsOn(a: NodeState, base: nat)
    requires Unanswered(a, base)
    ensures Unanswered(Extended(a, []), base)
  {
    forall p | p in a.peers ensures NextFor(Extended(a, []), p) == base + 1 {
      assert NextFor(Extended(a, []), p) == NextFor(a, p);
    }
  }

  /** The append of a leader elected with an empty log carries the whole log. */
  lemma WholeLog(a: NodeState, p: NodeId)
    requires Unanswered(a, 0) && p in a.peers && BroadcastSafe(a)
    ensures AppendFor(a, p) == AppendEntries(a.term, a.id, 0, 0, a.log, a.commit)
  {
    assert a.log[0..] == a.log;
  }

  /** A follower takes the whole log, its reply comes back, and the leader commits. */
  lemma AcceptsAndCommits(s: Cluster, a: NodeState, b: NodeState, c: NodeState, base: nat, msg: Msg)
      returns (s': Cluster)
    requires Three(s, a, b, c) && Apart(a, b, c) && Unanswered(a, base) && b.id in a.peers
    requires LastTerm(a.log) == a.term && a.commit < |a.log|
    requires InFlight(s, b.id, msg) && msg.AppendEntries?
    requires Stepped(b, msg).sent == [Envelope(Some(a.id), AppendReply(a.term, b.id, true, |a.log|))]
    ensures Three(s', Acknowledged(a, b.id, |a.log|).(commit := |a.log|), Stepped(b, msg).node, c)
    ensures forall p, m | InFlight(s, p, m) && m.AppendEntries? && (p, m) != (b.id, msg) :: InFlight(s', p, m)
  {
    hide Three, InFlight, Flies, LastTerm, Acknowledged;
    Turn(s, a, b, c);
    var s1 := FirstHears(s, b, a, c, msg);
    var b1, reply := Stepped(b, msg).node, AppendReply(a.term, b.id, true, |a.log|);
    StepKeepsId(b, msg);
    ReplyFlies(s1, Stepped(b, msg), a.id, reply);
    Turn(s1, b1, a, c);
    Commits(a, b.id);
    hide Stepped;
    s' := FirstHears(s1, a, b1, c, reply);
  }

  /** Up to the commit of two entries by `a`, with the first append to each follower
      still in flight. */
  lemma FirstCommit(a: NodeId, b: NodeId, c: NodeId) returns (s: Cluster, x: NodeState, y: NodeState, z: NodeState)
    requires a != b && b != c && a != c
    ensures Three(s, x, y, z) && x.id == a && x.log == [LogEntry(1, []), LogEntry(1, [])] && x.commit == 2
    ensures y == Member(b, [a, c], Follower, 1, Some(a), [LogEntry(1, []), LogEntry(1, [])], 0, Some(a))
    ensures z == Fresh(c, [a, b], 10)
    ensures InFlight(s, b, AppendEntries(1, a, 0, 0, OneEntry(), 0)) &&
            InFlight(s, c, AppendEntries(1, a, 0, 0, OneEntry(), 0))
  {
    hide Three, InFlight, Undisturbed, Stepped, UpToDate, AppendFor, Unanswered, BroadcastSafe;
    var a0, b0, c0 := Fresh(a, [b, c], 10), Fresh(b, [a, c], 10), Fresh(c, [a, b], 10);
    var s0 := StartsThree(a, b, c);
    assert UpToDate(b0, |a0.log|, LastTerm(a0.log)) by { AlwaysUpToDate(b0, a0.log); }
    s := Elected(s0, a0, b0, c0);
    var a1 := LeaderOf(CandidateOf(a0).(role := Candidate(2)));
    var b1 := FollowerAt(b0, 1).(votedFor := Some(a));
    NewlyLeads(CandidateOf(a0).(role := Candidate(2)));
    var s1 := ProposesOne(s, a1, b1, c0, 0);
    var a2 := Extended(a1, []);
    WholeLog(a2, b);
    WholeLog(a2, c);
    assert a2.log == OneEntry();
    var s2 := ProposesOne(s1, a2, b1, c0, 0);
    var a3 := Extended(a2, []);
    WholeLog(a3, b);
    var first, second := AppendEntries(1, a, 0, 0, OneEntry(), 0), AppendEntries(1, a, 0, 0, a3.log, 0);
    assert InFlight(s2, b, first) && InFlight(s2, c, first)
      by { StillFlies(s1, s2, b, first); StillFlies(s1, s2, c, first); }
    Replaces(b1, a, 1, a3.log);
    assert LastTerm(a3.log) == 1;
    s := AcceptsAndCommits(s2, a3, b1, c0, 0, second);
    x, y, z := Acknowledged(a3, b, 2).(commit := 2), Stepped(b1, second).node, c0;
  }

  lemma StillFlies(s: Cluster, s': Cluster, to: NodeId, msg: Msg)
    requires Undisturbed(s, s') && InFlight(s, to, msg)
    ensures InFlight(s', to, msg)
  {
  }

  lemma AlwaysUpToDate(n: NodeState, log: seq<LogEntry>)
    requires n.log == []
    ensures UpToDate(n, |log|, LastTerm(log))
  {
  }

  /** Then the first append overtaken by the second arrives: `b` cuts its log back,
      and `c` takes the short log too. */
  lemma CutBack(a: NodeId, b: NodeId, c: NodeId) returns (s: Cluster, x: NodeState, y: NodeState, z: NodeState)
    requires a != b && b != c && a != c
    ensures Three(s, x, y, z) && x.id == a && x.log == [LogEntry(1, []), LogEntry(1, [])] && x.commit == 2
    ensures y == Member(b, [a, c], Follower, 1, Some(a), OneEntry(), 0, Some(a))
    ensures z == Member(c, [a, b], Follower, 1, None, OneEntry(), 0, Some(a))
  {
    hide Three, InFlight, Stepped, Flies;
    var s0, x0, y0, z0 := FirstCommit(a, b, c);
    var first := AppendEntries(1, a, 0, 0, OneEntry(), 0);
    Replaces(y0, a, 1, OneEntry());
    Replaces(z0, a, 1, OneEntry());
    Turn(s0, x0, y0, z0);
    var s1 := FirstHears(s0, y0, x0, z0, first);
    Other(s0, s1, b, first, c);
    y := Stepped(y0, first).node;
    Turn(s1, y, x0, z0);
    var s2 := FirstHears(s1, z0, x0, y, first);
    z := Stepped(z0, first).node;
    Reorder(s2, z, x0, y);
    s, x := s2, x0;
  }

  lemma Other(s: Cluster, s': Cluster, to: NodeId, msg: Msg, p: NodeId)
    requires OthersFly(s, s', to, msg) && p != to && InFlight(s, p, msg)
    ensures InFlight(s', p, msg)
  {
  }

  /** What a follower with the leader's first entry makes of the second. */
  lemma TakesSecond(z: NodeState, l: NodeId, entry: LogEntry)
    requires z.role.Follower? && z.log == OneEntry() && entry.term == z.term
    ensures var m := AppendEntries(z.term, l, 1, 1, [entry], 0);
            && Stepped(z, m).sent == [Envelope(Some(l), AppendReply(z.term, z.id, true, 2))]
            && Stepped(z, m).node.id == z.id
  {
    assert z.log[..1] + [entry] == [z.log[0], entry];
  }

  lemma SecondAppend(n: NodeState, p: NodeId)
    requires Unanswered(n, 1) && p in n.peers && BroadcastSafe(n) && |n.log| == 2 && n.log[0] == LogEntry(1, [])
    ensures AppendFor(n, p) == AppendEntries(n.term, n.id, 1, 1, [n.log[1]], n.commit)
  {
    assert n.log[1..] == [n.log[1]];
  }

  /** Without in-order appends committed logs can disagree: some run of three nodes in
      which no stale reply is delivered ends with two committed sequences of which
      neither is a prefix of the other. */
  lemma OvertakingBreaksSafety(a: NodeId, b: NodeId, c: NodeId)
    requires a != b && b != c && a != c
    ensures exists r: Run :: IsRunOf(NoStaleReplies, r) && Disagree(r.states[|r.states| - 1], a, b)
  {
    var s, x, y := Diverged(a, b, c);
    assert Committed(x) == x.log && Committed(y) == y.log;
    assert Committed(x)[1] != Committed(y)[1];
    var r: Run :| IsRunOf(NoStaleReplies, r) && r.states[|r.states| - 1] == s;
  }

  ghost predicate Disagree(s: Cluster, a: NodeId, b: NodeId) {
    && a in s.nodes && b in s.nodes && CommitInRange(s.nodes[a]) && CommitInRange(s.nodes[b])
    && !OneIsPrefix(Committed(s.nodes[a]), Committed(s.nodes[b]))
  }

  lemma Diverged(a: NodeId, b: NodeId, c: NodeId) returns (s: Cluster, x: NodeState, y: NodeState)
    requires a != b && b != c && a != c
    ensures Reached(NoStaleReplies, s) && a in s.nodes && b in s.nodes && s.nodes[a] == x && s.nodes[b] == y
    ensures x.log == [LogEntry(1, []), LogEntry(1, [])] && x.commit == 2
    ensures y.log == [LogEntry(1, []), LogEntry(2, [])] && y.commit == 2
  {
    hide Three, InFlight, Undisturbed, Stepped, Unanswered, BroadcastSafe, AppendFor, Reached, Acknowledged;
    var s0, x0, y0, z0 := CutBack(a, b, c);
    Reorder(s0, x0, y0, z0);
    var s1 := Elected(s0, y0, z0, x0);
    var y1, z1 := LeaderOf(CandidateOf(y0).(role := Candidate(2))), FollowerAt(z0, 2).(votedFor := Some(b));
    NewlyLeads(CandidateOf(y0).(role := Candidate(2)));
    var s2 := ProposesOne(s1, y1, z1, x0, 1);
    var y2 := Extended(y1, []);
    assert y2.log == [LogEntry(1, []), LogEntry(2, [])];
    SecondAppend(y2, c);
    TakesSecond(z1, b, LogEntry(2, []));
    s := AcceptsAndCommits(s2, y2, z1, x0, 1, AppendFor(y2, c));
    y := Acknowledged(y2, c, 2).(commit := 2);
    AckKeepsLog(y2, c, 2);
    x := x0;
    Members(s, y, Stepped(z1, AppendFor(y2, c)).node, x0);
  }

  lemma AckKeepsLog(n: NodeState, from: NodeId, matched: nat)
    requires n.role.Leader?
    ensures Acknowledged(n, from, matched).log == n.log && Acknowledged(n, from, matched).id == n.id
  {
  }

  lemma Reorder(s: Cluster, x: NodeState, y: NodeState, z: NodeState)
    requires Three(s, x, y, z) && Apart(x, y, z)
    ensures Three(s, y, z, x)
  {
    assert map[x.id := x, y.id := y, z.id := z] == map[y.id := y, z.id := z, x.id := x];
  }

  lemma Members(s: Cluster, x: NodeState, y: NodeState, z: NodeState)
    requires Three(s, x, y, z) && Apart(x, y, z)
    ensures Reached(NoStaleReplies, s) && x.id in s.nodes && s.nodes[x.id] == x && z.id in s.nodes && s.nodes[z.id] == z
  {
  }

  // --- a late reply of an older term ------------------------------------------------------------

  /** A vote below the majority is only counted. */
  lemma Counts(n: NodeState, from: NodeId, votes: nat)
    requires n.role == Candidate(votes) && votes + 1 < Majority(|n.peers|)
    ensures Stepped(n, VoteReply(n.term, from, true)) == Outcome(n.(role := Candidate(votes + 1)), [])
  {
  }

  lemma WinsAll(n: NodeState, from: NodeId, votes: nat)
    requires n.role == Candidate(votes) && votes + 1 >= Majority(|n.peers|)
    ensures var o := Stepped(n, VoteReply(n.term, from, true));
            && o.node == LeaderOf(n.(role := Candidate(votes + 1))) && o.node.role.Leader? && BroadcastSafe(o.node)
            && o.sent == Appends(o.node)
  {
  }

  function Voter(n: NodeState, term: nat, c: NodeId): NodeState {
    FollowerAt(n, term).(votedFor := Some(c))
  }

  function Winner(n: NodeState): NodeState {
    LeaderOf(CandidateOf(n).(role := Candidate(3)))
  }

  predicate WouldVote(n: NodeState, c: NodeState) {
    n.term < c.term + 1 && UpToDate(n, |c.log|, LastTerm(c.log))
  }

  /** Append traffic stays in flight. */
  ghost predicate AppendsStay(s: Cluster, s': Cluster) {
    forall p, m | InFlight(s, p, m) && (m.AppendEntries? || m.AppendReply?) :: InFlight(s', p, m)
  }

  /** One voter hears the request, and its vote is in flight. */
  lemma OneVotes(s: Cluster, a: NodeId, b: NodeId, rv: Msg) returns (s': Cluster)
    requires Reached(AppendsInOrder, s) && b in s.nodes && s.nodes[b].id == b && InFlight(s, b, rv)
    requires rv.RequestVote? && rv.candidate == a && s.nodes[b].term < rv.term &&
             UpToDate(s.nodes[b], rv.lastLogIndex, rv.lastLogTerm)
    ensures Reached(AppendsInOrder, s') && s'.nodes == s.nodes[b := Voter(s.nodes[b], rv.term, a)]
    ensures InFlight(s', a, VoteReply(rv.term, b, true)) && OthersFly(s, s', b, rv) && AppendsStay(s, s')
  {
    hide Reached, InFlight, Stepped, UpToDate, Copies;
    Votes(s.nodes[b], a, rv.term, rv.lastLogIndex, rv.lastLogTerm);
    s' := Delivers(AppendsInOrder, s, b, rv);
    CopyOf(s.nodes[b].peers, Stepped(s.nodes[b], rv).sent, 0);
  }

  /** A node of five stands and wins with the votes of b and c. */
  lemma ElectedOfFive(s: Cluster, a: NodeId, b: NodeId, c: NodeId) returns (s': Cluster)
    requires Reached(AppendsInOrder, s) && a != b && b != c && a != c && a in s.nodes && b in s.nodes && c in s.nodes
    requires s.nodes[a].id == a && s.nodes[b].id == b && s.nodes[c].id == c
    requires !s.nodes[a].role.Leader? && s.nodes[a].quietTicks == 0 && s.nodes[a].electionAfter == 10
    requires |s.nodes[a].peers| == 4 && b in s.nodes[a].peers && c in s.nodes[a].peers
    requires WouldVote(s.nodes[b], s.nodes[a]) && WouldVote(s.nodes[c], s.nodes[a])
    ensures var t, w := s.nodes[a].term + 1, Winner(s.nodes[a]);
            && Reached(AppendsInOrder, s')
            && s'.nodes == s.nodes[a := w][b := Voter(s.nodes[b], t, a)][c := Voter(s.nodes[c], t, a)]
            && w.role.Leader? && BroadcastSafe(w) && (forall p | p in w.peers :: InFlight(s', p, AppendFor(w, p)))
    ensures AppendsStay(s, s')
  {
    hide Reached, InFlight, Stepped, UpToDate, LeaderOf, Majority, Appends, Copies, BroadcastSafe;
    var x := s.nodes[a];
    var t, rv := x.term + 1, RequestVote(x.term + 1, a, |x.log|, LastTerm(x.log));
    var s1 := Stands(AppendsInOrder, s, a);
    var s2 := OneVotes(s1, a, b, rv);
    var s3 := OneVotes(s2, a, c, rv);
    assert InFlight(s3, a, VoteReply(t, b, true));
    var x1 := CandidateOf(x);
    assert Majority(4) == 3 by { MajorityOfFive(); }
    Counts(x1, b, 1);
    var s4 := Delivers(AppendsInOrder, s3, a, VoteReply(t, b, true));
    assert InFlight(s4, a, VoteReply(t, c, true));
    var x2 := x1.(role := Candidate(2));
    WinsAll(x2, c, 2);
    s' := Delivers(AppendsInOrder, s4, a, VoteReply(t, c, true));
    var w := Winner(x);
    forall p | p in w.peers ensures InFlight(s', p, AppendFor(w, p)) {
      SentTo(s4, s', a, Stepped(x2, VoteReply(t, c, true)), p);
    }
  }

  lemma MajorityOfFive()
    ensures Majority(4) == 3
  {
  }

  lemma SentTo(s: Cluster, s': Cluster, id: NodeId, o: Outcome, p: NodeId)
    requires Left(AppendsInOrder, s, s', id, o) && BroadcastSafe(o.node) && o.node.role.Leader? &&
             p in o.node.peers && o.sent == Appends(o.node)
    ensures InFlight(s', p, AppendFor(o.node, p))
  {
    var i :| 0 <= i < |o.node.peers| && o.node.peers[i] == p;
    CopyOf(o.node.peers, o.sent, i);
  }

  ghost predicate AllDiffer(a: NodeId, b: NodeId, c: NodeId, d: NodeId, e: NodeId) {
    a != b && a != c && a != d && a != e && b != c && b != d && b != e && c != d && c != e && d != e
  }

  lemma FourPeers(ids: set<NodeId>, n: NodeId, p: NodeId, q: NodeId, r: NodeId, t: NodeId)
    requires AllDiffer(n, p, q, r, t) && ids == {n, p, q, r, t}
    ensures GoodPeers(ids, n, [p, q, r, t])
  {
    var peers := [p, q, r, t];
    assert peers[0] == p && peers[1] == q && peers[2] == r && peers[3] == t;
  }

  lemma Begins(half: Half, s: Cluster)
    requires Initial(s)
    ensures Reached(half, s)
  {
    var r := Run([s], []);
    assert IsRunA(r);
    assert r.states[|r.states| - 1] == s;
  }

  function FreshFive(a: NodeId, b: NodeId, c: NodeId, d: NodeId, e: NodeId): Nodes {
    map[a := Fresh(a, [b, c, d, e], 10), b := Fresh(b, [a, c, d, e], 10), c := Fresh(c, [a, b, d, e], 10),
        d := Fresh(d, [a, b, c, e], 10), e := Fresh(e, [a, b, c, d], 10)]
  }

  lemma FreshFiveAre(a: NodeId, b: NodeId, c: NodeId, d: NodeId, e: NodeId)
    requires AllDiffer(a, b, c, d, e)
    ensures var m := FreshFive(a, b, c, d, e);
            && m.Keys == {a, b, c, d, e} && m[a] == Fresh(a, [b, c, d, e], 10) && m[b] == Fresh(b, [a, c, d, e], 10)
            && m[c] == Fresh(c, [a, b, d, e], 10) && m[d] == Fresh(d, [a, b, c, e], 10)
            && m[e] == Fresh(e, [a, b, c, d], 10)
  {
  }

  lemma StartsFive(a: NodeId, b: NodeId, c: NodeId, d: NodeId, e: NodeId) returns (s: Cluster)
    requires AllDiffer(a, b, c, d, e)
    ensures Reached(AppendsInOrder, s) && s.nodes == FreshFive(a, b, c, d, e)
  {
    hide GoodPeers, Reached, FreshFive;
    s := Cluster(FreshFive(a, b, c, d, e), {}, 0);
    var ids := s.nodes.Keys;
    FreshFiveAre(a, b, c, d, e);
    FourPeers(ids, a, b, c, d, e);
    FourPeers(ids, b, a, c, d, e);
    FourPeers(ids, c, a, b, d, e);
    FourPeers(ids, d, a, b, c, e);
    FourPeers(ids, e, a, b, c, d);
    Begins(AppendsInOrder, s);
  }

  lemma EmptyWinner(n: NodeState)
    requires n.log == [] && n.commit == 0 && |n.peers| == 4
    ensures var w := Winner(n);
            && w.id == n.id && w.peers == n.peers && w.log == [] && w.term == n.term + 1 && w.commit == 0
            && w.role.Leader?
            && (forall p | p in w.role.matchIndex :: w.role.matchIndex[p] == 0)
            && (forall p | p in w.peers :: NextFor(w, p) == 1) && BroadcastSafe(w)
            && (forall p | p in w.peers :: AppendFor(w, p) == AppendEntries(n.term + 1, n.id, 0, 0, [], 0))
  {
    var w := Winner(n);
    assert w.log[0..] == [];
  }

  lemma FirstEntryAppend(w: NodeState, p: NodeId)
    requires w.role.Leader? && w.log == [] && p in w.peers && NextFor(w, p) == 1 && BroadcastSafe(Extended(w, []))
    ensures AppendFor(Extended(w, []), p) == AppendEntries(w.term, w.id, 0, 0, [LogEntry(w.term, [])], w.commit)
  {
    var x := Extended(w, []);
    assert NextFor(x, p) == NextFor(w, p);
    assert x.log[0..] == x.log == [LogEntry(w.term, [])];
  }

  /** An acknowledgement of an entry the leader no longer has. */
  lemma StaleAck(n: NodeState, b: NodeId)
    requires n.role.Leader? && n.log == [] && b in n.peers && n.term >= 1
    ensures var n' := Stepped(n, AppendReply(1, b, true, 1)).node;
            n'.role.Leader? && n'.term == n.term && !BroadcastSafe(n')
  {
    var n' := Acknowledged(n, b, 1);
    assert HighestCommit(n', 0) == n'.commit;
    assert NextFor(CommitAdvanced(n'), b) == 2;
  }

  /** `a` leads term 1 and appends an entry that only `b` takes; its reply is late. */
  lemma LateReply(a: NodeId, b: NodeId, c: NodeId, d: NodeId, e: NodeId) returns (s: Cluster, x: NodeState)
    requires AllDiffer(a, b, c, d, e)
    ensures Reached(AppendsInOrder, s) && InFlight(s, a, AppendReply(1, b, true, 1))
    ensures s.nodes.Keys == {a, b, c, d, e} && s.nodes[a] == x
    ensures x.id == a && x.peers == [b, c, d, e] && x.term == 1 && x.role.Leader? && x.commit == 0 &&
            x.electionAfter == 10
    ensures s.nodes[b] == Member(b, [a, c, d, e], Follower, 1, Some(a), OneEntry(), 0, Some(a))
    ensures s.nodes[c] == Voter(Fresh(c, [a, b, d, e], 10), 1, a)
    ensures s.nodes[d] == Fresh(d, [a, b, c, e], 10) && s.nodes[e] == Fresh(e, [a, b, c, d], 10)
  {
    hide Reached, InFlight, Stepped, Winner, BroadcastSafe, AppendFor, Appends, Copies, ProposeSafe, Proposed;
    var s0 := StartsFive(a, b, c, d, e);
    FreshFiveAre(a, b, c, d, e);
    hide FreshFive;
    var a0 := Fresh(a, [b, c, d, e], 10);
    var s1 := ElectedOfFive(s0, a, b, c);
    EmptyWinner(a0);
    var a1 := Winner(a0);
    ProposesAlone(a1, []);
    var s2 := Proposes(AppendsInOrder, s1, a, []);
    x := Extended(a1, []);
    FirstEntryAppend(a1, b);
    SentTo(s1, s2, a, Outcome(x, Appends(x)), b);
    var m := AppendEntries(1, a, 0, 0, OneEntry(), 0);
    var b1 := Voter(Fresh(b, [a, c, d, e], 10), 1, a);
    Replaces(b1, a, 1, OneEntry());
    s := DeliversNext(s2, b, m);
    CopyOf(b1.peers, Stepped(b1, m).sent, 0);
    WinnerKeeps(a0);
  }

  lemma WinnerKeeps(n: NodeState)
    ensures Winner(n).electionAfter == n.electionAfter
  {
  }

  /** A leader of an empty log nobody has answered. */
  ghost predicate Reset(n: NodeState) {
    && n.role.Leader? && n.commit == 0
    && (forall p | p in n.role.matchIndex :: n.role.matchIndex[p] == 0)
    && (forall p | p in n.peers :: NextFor(n, p) == 1) && BroadcastSafe(n)
  }

  /** Meanwhile `c` leads term 2 with an empty log, empties the log of `a`, and `a`
      leads term 3. */
  lemma LeadsAgain(a: NodeId, b: NodeId, c: NodeId, d: NodeId, e: NodeId) returns (s: Cluster)
    requires AllDiffer(a, b, c, d, e)
    ensures Reached(AppendsInOrder, s) && InFlight(s, a, AppendReply(1, b, true, 1)) && a in s.nodes
    ensures s.nodes[a].id == a && s.nodes[a].role.Leader? && s.nodes[a].log == [] && s.nodes[a].term == 3 &&
            s.nodes[a].peers == [b, c, d, e] && b in s.nodes[a].peers
    ensures Reset(s.nodes[a])
    ensures s.nodes.Keys == {a, b, c, d, e}
    ensures s.nodes[b] == Member(b, [a, c, d, e], Follower, 1, Some(a), OneEntry(), 0, Some(a))
    ensures s.nodes[c].id == c && s.nodes[c].term == 2 && s.nodes[c].log == [] && s.nodes[c].commit == 0
    ensures s.nodes[d] == Member(d, [a, b, c, e], Follower, 3, Some(a), [], 0, None)
    ensures s.nodes[e] == Member(e, [a, b, c, d], Follower, 3, Some(a), [], 0, None)
  {
    hide Reached, InFlight, Stepped, Winner, BroadcastSafe, AppendFor, Appends, Copies;
    var s0, x := LateReply(a, b, c, d, e);
    var r := AppendReply(1, b, true, 1);
    var c0 := s0.nodes[c];
    var s1 := ElectedOfFive(s0, c, d, e);
    EmptyWinner(c0);
    var m := AppendEntries(2, c, 0, 0, [], 0);
    assert AppendFor(Winner(c0), a) == m;
    Replaces(x, c, 2, []);
    var s2 := DeliversNext(s1, a, m);
    assert InFlight(s2, a, r);
    var x1 := s2.nodes[a];
    s := ElectedOfFive(s2, a, d, e);
    EmptyWinner(x1);
  }

  /** In-order appends alone leave a leader with an index out of range: in some run
      that has them a reply of term 1 reaches the leader of term 3 whose log is
      shorter, and its next broadcast would panic. */
  lemma StaleReplyBreaksIndexing(a: NodeId, b: NodeId, c: NodeId, d: NodeId, e: NodeId)
    requires AllDiffer(a, b, c, d, e)
    ensures exists r: Run :: IsRunOf(AppendsInOrder, r) && OutOfRange(r.states[|r.states| - 1], a)
  {
    var s := LeadsAgain(a, b, c, d, e);
    StaleAck(s.nodes[a], b);
    hide InFlight, Stepped, BroadcastSafe, Copies;
    var s' := Delivers(AppendsInOrder, s, a, AppendReply(1, b, true, 1));
    assert OutOfRange(s', a);
    var r: Run :| IsRunOf(AppendsInOrder, r) && r.states[|r.states| - 1] == s';
  }

  /** The node leads and its next broadcast takes an index out of range. */
  ghost predicate OutOfRange(s: Cluster, a: NodeId) {
    a in s.nodes && s.nodes[a].role.Leader? && !BroadcastSafe(s.nodes[a])
  }
}
