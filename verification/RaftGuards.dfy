/** The delivery contract Net-B implies the guards of Net-G: appends in order never
    make a node drop an entry of the append's own term, and without stale replies
    there is none to count. */
module RaftGuards {
  import opened RaftCore
  import opened RaftCluster
  import opened RaftHistory
  import opened RaftElection
  import opened RaftLog
  import opened RaftCommit
  import opened RaftSteps
  import opened RaftRuns
  import opened RaftTheorems

  // --- what in-order delivery keeps ----------------------------------------------------------------

  /** Within a stream later appends end no earlier. */
  ghost predicate Ascending(net: set<Packet>) {
    forall p, q | p in net && q in net && SameStream(p, q) && p.seqNo < q.seqNo :: EndOf(p.msg) <= EndOf(q.msg)
  }

  /** Delivered in its term, the append would drop nothing of it. */
  ghost predicate Safe(nodes: Nodes, p: Packet) {
    p.msg.AppendEntries? && p.to in nodes && nodes[p.to].term == p.msg.term ==> !CutsOwn(nodes[p.to].log, p.msg)
  }

  ghost predicate Orderly(s: Cluster) {
    Ascending(s.net) && forall p | p in s.net :: Safe(s.nodes, p)
  }

  // --- the leader's own append reaches furthest ------------------------------------------------------

  /** The append is one its leader has just sent: it reaches to the end of the log and
      tells the commit index. */
  ghost predicate Whole(s: Cluster, q: Packet) {
    && q.msg.AppendEntries? && q.msg.leader in s.nodes
    && var l := s.nodes[q.msg.leader];
       l.role.Leader? && l.term == q.msg.term && |l.log| == EndOf(q.msg) && l.commit == q.msg.leaderCommit
  }

  lemma WholeReaches(s: Cluster, h: History, p: Packet, q: Packet)
    requires InvA(s, h) && p in s.net && Whole(s, q) && p.msg.AppendEntries? && p.msg.term == q.msg.term
    ensures EndOf(p.msg) <= EndOf(q.msg)
  {
    hide ElectInv;
    HeldLog(s, h, q.msg.leader);
    assert AppendTraffic(h, p.msg);
  }

  lemma WholeIsSafe(s: Cluster, h: History, q: Packet)
    requires InvA(s, h) && Whole(s, q)
    ensures Safe(s.nodes, q)
  {
    hide ElectInv;
    HeldLog(s, h, q.msg.leader);
    if q.to in s.nodes && s.nodes[q.to].log != [] {
      var log := s.nodes[q.to].log;
      LogCoveredHere(s, h, q.to);
      hide LogInv, LogCovered;
      CoveredPrefix(h, log, |log| - 1);
    }
  }

  lemma LogCoveredHere(s: Cluster, h: History, n: NodeId)
    requires InvA(s, h) && n in s.nodes
    ensures LogCovered(h, s.nodes[n].log) && TermsBounded(s.nodes[n])
  {
    hide ElectInv;
  }

  // --- what a call does to a log and what it sends ----------------------------------------------------

  /** Every append a call sends carries the whole log of the leader it leaves. */
  ghost predicate SendsWhole(o: Outcome) {
    forall e | e in o.sent && e.msg.AppendEntries? ::
      && o.node.role.Leader? && e.msg.leader == o.node.id && e.msg.term == o.node.term
      && EndOf(e.msg) == |o.node.log| && e.msg.leaderCommit == o.node.commit
  }

  lemma AppendsAreWhole(n: NodeState)
    requires BroadcastSafe(n)
    ensures SendsWhole(Outcome(n, Appends(n)))
  {
    if n.role.Leader? {
      forall e | e in Appends(n)
        ensures e.msg.AppendEntries? && e.msg.leader == n.id && e.msg.term == n.term
        ensures EndOf(e.msg) == |n.log| && e.msg.leaderCommit == n.commit
      {
        var i :| 0 <= i < |n.peers| && e.msg == AppendFor(n, n.peers[i]);
        hide Appends;
        AppendIsWhole(n, n.peers[i]);
      }
    }
    hide Appends, BroadcastSafe;
  }

  lemma AppendIsWhole(n: NodeState, peer: NodeId)
    requires n.role.Leader? && peer in n.peers && BroadcastSafe(n)
    ensures var m := AppendFor(n, peer);
            m.AppendEntries? && m.leader == n.id && m.term == n.term && EndOf(m) == |n.log| &&
            m.leaderCommit == n.commit
  {
  }

  lemma TickSendsWhole(n: NodeState)
    requires TickSafe(n)
    ensures SendsWhole(Ticked(n))
  {
    hide SendsWhole, Appends;
    var q := n.(quietTicks := 0);
    if BroadcastSafe(q) {
      AppendsAreWhole(q);
    }
    var c := CandidateOf(n.(quietTicks := n.quietTicks + 1));
    AppendsAreWhole(LeaderOf(c));
    SilentIsWhole(Outcome(n.(quietTicks := n.quietTicks + 1), []));
    SilentIsWhole(Outcome(c, [VoteRequest(c)]));
  }

  lemma SilentIsWhole(o: Outcome)
    requires forall e | e in o.sent :: !e.msg.AppendEntries?
    ensures SendsWhole(o)
  {
  }

  lemma ProposeSendsWhole(n: NodeState, data: seq<bv8>)
    requires n.role.Leader? && ProposeSafe(n, data)
    ensures SendsWhole(Proposed(n, data).value)
  {
    hide SendsWhole, Appends;
    AppendsAreWhole(CommitAdvanced(Extended(n, data)));
  }

  lemma StepSendsWhole(n: NodeState, m: Msg)
    ensures SendsWhole(Stepped(n, m))
  {
    hide SendsWhole, Appends, Majority, UpToDate, Consistent, HighestCommit;
    if m.VoteReply? && n.role.Candidate? {
      AppendsAreWhole(LeaderOf(n.(role := Candidate(n.role.votes + 1))));
    }
    var o := Stepped(n, m);
    if forall e | e in o.sent :: !e.msg.AppendEntries? {
      SilentIsWhole(o);
    }
  }

  /** A call that does not leave a leader keeps the log, unless it takes over an append. */
  lemma CallKeepsLog(n: NodeState)
    ensures TickSafe(n) ==> Ticked(n).node.log == n.log && Ticked(n).node.term >= n.term
    ensures forall data | n.role.Leader? && ProposeSafe(n, data) :: Proposed(n, data).value.node.role.Leader?
  {
    hide Appends, BroadcastSafe, TickSafe;
  }

  lemma StepKeepsLog(n: NodeState, m: Msg)
    ensures Takes(n, m) ==>
              m.AppendEntries? && Stepped(n, m).node.term == m.term && |Stepped(n, m).node.log| == EndOf(m)
    ensures !Takes(n, m) ==> Stepped(n, m).node.log == n.log && Stepped(n, m).node.term >= n.term
  {
    hide Appends, BroadcastSafe, UpToDate;
  }

  // --- one action --------------------------------------------------------------------------------------

  /** A packet in flight after an action was so before and is not the one delivered,
      or is newer than all before. */
  lemma NetAfter(s: Cluster, h: History, a: Action, q: Packet)
    requires InvA(s, h) && Enabled(s, a) && q in Apply(s, a).net
    ensures q in s.net ==> q.seqNo < s.sent && (a.Deliver? ==> q != a.packet)
    ensures q !in s.net ==> q.seqNo >= s.sent
  {
    hide LogInv, Copies, TickSafe, ProposeSafe, Ticked, Proposed, Stepped;
    NumberedBelow(s, h);
    hide ElectInv;
  }

  lemma NumberedBelow(s: Cluster, h: History)
    requires InvA(s, h)
    ensures forall p | p in s.net :: p.seqNo < s.sent
    ensures forall p, q | p in s.net && q in s.net && p.seqNo == q.seqNo :: p == q
  {
    hide LogInv, AllTraffic, VotesUniqueUntilElected, QuorumsKeepTheirVote, QuorumsLoyal, VotesSentOnce;
  }

  lemma SentIsWhole(s: Cluster, o: Outcome, q: Packet)
    requires SendsWhole(o) && q in Committing(s, o).net && q !in s.net && q.msg.AppendEntries?
    ensures Whole(Committing(s, o), q)
  {
    hide Copies;
    NewPacket(s, o, q);
    var e :| e in o.sent && e.msg == q.msg;
    assert o.node.id in Committing(s, o).nodes;
  }

  /** A new append carries its leader's whole log. */
  lemma NewIsWhole(s: Cluster, h: History, a: Action, q: Packet)
    requires InvA(s, h) && Enabled(s, a) && q in Apply(s, a).net && q !in s.net && q.msg.AppendEntries?
    ensures Whole(Apply(s, a), q)
  {
    hide InvA, Committing, Ticked, Proposed, Stepped, TickSafe, ProposeSafe, SendsWhole, Whole;
    match a
    case Tick(n) =>
      TickSendsWhole(s.nodes[n]);
      SentIsWhole(s, Ticked(s.nodes[n]), q);
    case Propose(n, data) =>
      ProposesNothing(s.nodes[n], data);
      if s.nodes[n].role.Leader? {
        ProposeSendsWhole(s.nodes[n], data);
        SentIsWhole(s, Proposed(s.nodes[n], data).value, q);
      }
    case Drop(p) =>
    case Deliver(p) =>
      StepSendsWhole(s.nodes[p.to], p.msg);
      SentIsWhole(Without(s, p), Stepped(s.nodes[p.to], p.msg), q);
  }

  /** No append is on its way to the leader of its own term. */
  lemma NotToItsLeader(s: Cluster, h: History, p: Packet)
    requires InvA(s, h) && p in s.net && p.msg.AppendEntries? && p.to in s.nodes && s.nodes[p.to].term == p.msg.term
    ensures !s.nodes[p.to].role.Leader?
  {
    hide LogInv;
    TrafficOf(s, h, p);
    if s.nodes[p.to].role.Leader? {
      LeaderIsElected(s, h, p.to);
    }
  }

  /** A log has no entries of a term its node has not reached. */
  lemma NotYetOwn(s: Cluster, h: History, n: NodeId, log: seq<LogEntry>, m: Msg)
    requires InvA(s, h) && n in s.nodes && log == s.nodes[n].log && m.AppendEntries? && m.term > s.nodes[n].term
    ensures !CutsOwn(log, m)
  {
    LogCoveredHere(s, h, n);
  }

  /** What an action makes of one node. */
  lemma NodeAfter(s: Cluster, h: History, a: Action, n: NodeId)
    requires InvA(s, h) && Enabled(s, a) && n in s.nodes
    ensures n in Apply(s, a).nodes
    ensures var x, y := s.nodes[n], Apply(s, a).nodes[n];
            if a.Deliver? && a.packet.to == n then y == Stepped(x, a.packet.msg).node
            else y.role.Leader? || (y.log == x.log && y.term >= x.term)
  {
    hide InvA, Ticked, Proposed, Stepped, TickSafe, ProposeSafe, Copies;
    Named(s, h);
    CallKeepsId(s, a);
    match a
    case Tick(m) =>
      CallKeepsLog(s.nodes[m]);
      assert Apply(s, a).nodes == s.nodes[m := Ticked(s.nodes[m]).node];
    case Propose(m, data) =>
      CallKeepsLog(s.nodes[m]);
    case Drop(p) =>
    case Deliver(p) =>
      assert Apply(s, a).nodes == s.nodes[p.to := Stepped(s.nodes[p.to], p.msg).node];
  }

  lemma SafeAt(s: Cluster, q: Packet)
    requires Orderly(s) && q in s.net && q.msg.AppendEntries? && q.to in s.nodes && s.nodes[q.to].term == q.msg.term
    ensures !CutsOwn(s.nodes[q.to].log, q.msg)
  {
    hide CutsOwn, Ascending;
    assert Safe(s.nodes, q);
  }

  /** A node whose log stays the same drops no more than before. */
  lemma SameLogIsSafe(s: Cluster, h: History, q: Packet, y: NodeState)
    requires InvA(s, h) && Orderly(s) && q in s.net && q.msg.AppendEntries? && q.to in s.nodes
    requires y.log == s.nodes[q.to].log && y.term >= s.nodes[q.to].term && y.term == q.msg.term
    ensures !CutsOwn(y.log, q.msg)
  {
    hide InvA, CutsOwn, Orderly;
    if y.term > s.nodes[q.to].term {
      NotYetOwn(s, h, q.to, y.log, q.msg);
    } else {
      SafeAt(s, q);
    }
  }

  /** An append still in flight stays safe. */
  lemma OldStaysSafe(s: Cluster, h: History, a: Action, h': History, q: Packet)
    requires InvA(s, h) && Enabled(s, a) && Allowed(AppendsInOrder, s, a) && Orderly(s) && InvA(Apply(s, a), h')
    requires q in s.net && q in Apply(s, a).net && q.msg.AppendEntries? && q.to in Apply(s, a).nodes
    requires Apply(s, a).nodes[q.to].term == q.msg.term
    ensures !CutsOwn(Apply(s, a).nodes[q.to].log, q.msg)
  {
    hide InvA, Apply, Stepped, CutsOwn, Orderly, InOrder, Takes;
    NotToItsLeader(Apply(s, a), h', q);
    NetAfter(s, h, a, q);
    Addressed(s, h);
    NodeAfter(s, h, a, q.to);
    var x, y := s.nodes[q.to], Apply(s, a).nodes[q.to];
    if a.Deliver? && a.packet.to == q.to {
      StepKeepsLog(x, a.packet.msg);
      if Takes(x, a.packet.msg) {
        TakenIsNoLonger(s, h, a.packet, q);
        NotCut(y.log, a.packet.msg, q.msg);
      } else {
        SameLogIsSafe(s, h, q, y);
      }
    } else {
      SameLogIsSafe(s, h, q, y);
    }
  }

  lemma NotCut(log: seq<LogEntry>, m: Msg, m': Msg)
    requires m.AppendEntries? && m'.AppendEntries? && |log| == EndOf(m) && EndOf(m) <= EndOf(m')
    ensures !CutsOwn(log, m')
  {
  }

  /** What is delivered in order ends no later than what is still in flight. */
  lemma TakenIsNoLonger(s: Cluster, h: History, p: Packet, q: Packet)
    requires InvA(s, h) && Orderly(s) && InOrder(s, p) && p in s.net && q in s.net && p != q
    requires p.msg.AppendEntries? && q.msg.AppendEntries? && p.to == q.to && p.msg.term == q.msg.term
    ensures EndOf(p.msg) <= EndOf(q.msg)
  {
    TrafficOf(s, h, p);
    TrafficOf(s, h, q);
    NumberedBelow(s, h);
    hide InvA;
    assert SameStream(p, q) && p.seqNo < q.seqNo;
  }

  lemma ActionKeepsOrder(s: Cluster, h: History, a: Action, h': History)
    requires InvA(s, h) && Enabled(s, a) && Allowed(AppendsInOrder, s, a) && Orderly(s) && InvA(Apply(s, a), h')
    ensures Orderly(Apply(s, a))
  {
    hide InvA, Apply, Enabled, Allowed, CutsOwn;
    var s' := Apply(s, a);
    forall q | q in s'.net ensures Safe(s'.nodes, q) {
      if q.msg.AppendEntries? && q.to in s'.nodes && s'.nodes[q.to].term == q.msg.term {
        if q in s.net {
          OldStaysSafe(s, h, a, h', q);
        } else {
          NewIsWhole(s, h, a, q);
          WholeIsSafe(s', h', q);
        }
      }
    }
    forall p, q | p in s'.net && q in s'.net && SameStream(p, q) && p.seqNo < q.seqNo
      ensures EndOf(p.msg) <= EndOf(q.msg)
    {
      NetAfter(s, h, a, p);
      NetAfter(s, h, a, q);
      if q !in s.net {
        NewIsWhole(s, h, a, q);
        WholeReaches(s', h', p, q);
      }
    }
  }

  // --- over runs -----------------------------------------------------------------------------------------

  lemma StartsOrderly(s: Cluster)
    requires Initial(s)
    ensures Orderly(s)
  {
  }

  lemma AllowedAt(half: Half, r: Run, k: nat)
    requires IsRunOf(half, r) && k < |r.actions|
    ensures Allowed(half, r.states[k], r.actions[k])
  {
    hide IsRunA;
  }

  lemma {:induction false} OrderlyUpTo(r: Run, k: nat)
    requires IsRunOf(AppendsInOrder, r) && k < |r.states|
    ensures Orderly(r.states[k])
  {
    hide InvA, InvG, Apply, Enabled, Orderly, Initial, Allowed, Grows, AcksRise;
    if k == 0 {
      StartsOrderly(r.states[0]);
    } else {
      OrderlyUpTo(r, k - 1);
      var hs := Histories(r, k, false);
      assert StepAt(r, k - 1) && Ready(r.states[k - 1], hs[k - 1], false) && Ready(r.states[k], hs[k], false);
      AllowedAt(AppendsInOrder, r, k - 1);
      ActionKeepsOrder(r.states[k - 1], hs[k - 1], r.actions[k - 1], hs[k]);
    }
  }

  predicate DropsOwnAt(s: Cluster, a: Action) {
    a.Deliver? && a.packet.to in s.nodes && DropsOwn(s.nodes[a.packet.to], a.packet.msg)
  }

  lemma OrderlyDropsNothing(s: Cluster, h: History, a: Action)
    requires InvA(s, h) && Enabled(s, a) && Orderly(s)
    ensures !DropsOwnAt(s, a)
  {
    if a.Deliver? && a.packet.msg.AppendEntries? {
      var x, m := s.nodes[a.packet.to], a.packet.msg;
      assert Safe(s.nodes, a.packet);
      hide InvA, CutsOwn, Ascending, Consistent;
      if m.term > x.term {
        NotYetOwn(s, h, a.packet.to, x.log, m);
      }
    }
  }

  /** Net-A with appends in order: no node ever drops an entry of an append's own term. */
  lemma InOrderDropsNothing(r: Run)
    requires IsRunOf(AppendsInOrder, r)
    ensures forall k | 0 <= k < |r.actions| :: !DropsOwnAt(r.states[k], r.actions[k])
  {
    hide InvA, InvG, Apply, Orderly, Initial, Allowed, DropsOwnAt, Enabled;
    forall k | 0 <= k < |r.actions| ensures !DropsOwnAt(r.states[k], r.actions[k]) {
      OrderlyUpTo(r, k);
      var hs := Histories(r, k, false);
      assert Ready(r.states[k], hs[k], false);
      EnabledAt(r, k);
      OrderlyDropsNothing(r.states[k], hs[k], r.actions[k]);
    }
  }

  lemma BothGuards(s: Cluster, a: Action)
    requires !DropsOwnAt(s, a) && !CountsStaleAt(s, a)
    ensures NetG(s, a)
  {
    hide DropsOwn, CountsStale;
  }

  /** Net-B implies Net-G, so all that holds under Net-G holds under Net-B. */
  lemma NetBIsGuarded(r: Run)
    requires IsRunB(r)
    ensures IsRunG(r)
  {
    BothHalves(r);
    InOrderDropsNothing(r);
    hide StepAt, Initial, NetB, NetG, DropsOwnAt, CountsStaleAt, Allowed;
    forall k | 0 <= k < |r.actions| ensures NetG(r.states[k], r.actions[k]) {
      AllowedAt(NoStaleReplies, r, k);
      FreshIsFair(r.states[k], r.actions[k]);
      BothGuards(r.states[k], r.actions[k]);
    }
  }
}
