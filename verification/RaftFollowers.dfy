/** What the protocol achieves, not only what it avoids: followers learn what is
    committed, a follower's log is repaired, silent nodes stand and leaders are heard. */
module RaftFollowers {
  import opened Options
  import opened RaftCore
  import opened RaftCluster
  import opened RaftHistory
  import opened RaftCommit
  import opened RaftSteps
  import opened RaftTheorems
  import opened RaftGuards

  function Min(a: nat, b: nat): nat {
    if a < b then a else b
  }

  // --- followers learn what is committed --------------------------------------------------------

  lemma TakenCommits(n: NodeState, m: Msg)
    requires Takes(n, m)
    ensures Stepped(n, m).node.commit >= Min(m.leaderCommit, EndOf(m))
  {
  }

  /** A call that sends an append leaves its leader as the append tells. */
  lemma SentByLeader(r: Run, i: nat, p: Packet)
    requires IsRunA(r) && i < |r.actions| && p !in r.states[i].net && p in r.states[i + 1].net && p.msg.AppendEntries?
    ensures Whole(r.states[i + 1], p)
  {
    var hs := Histories(r, i, false);
    assert StepAt(r, i) && Ready(r.states[i], hs[i], false);
    hide InvA, Apply, Enabled, Whole;
    NewIsWhole(r.states[i], hs[i], r.actions[i], p);
  }

  lemma HeardBy(r: Run, k: nat, p: Packet)
    requires IsRunA(r) && k < |r.actions| && r.actions[k] == Deliver(p)
    ensures p.to in r.states[k].nodes && p.to in r.states[k + 1].nodes
    ensures r.states[k + 1].nodes[p.to] == Stepped(r.states[k].nodes[p.to], p.msg).node
  {
    var hs := Histories(r, k, false);
    assert StepAt(r, k) && Ready(r.states[k], hs[k], false);
    hide InvA, Copies, Stepped;
    Named(r.states[k], hs[k]);
    CallKeepsId(r.states[k], r.actions[k]);
  }

  /** Net-G: a node that takes over an append has then committed at least what the
      leader had when it sent it. */
  lemma FollowersLearnCommits(r: Run, i: nat, k: nat, p: Packet)
    requires IsRunG(r) && i < k < |r.actions| && p.msg.AppendEntries?
    requires p !in r.states[i].net && p in r.states[i + 1].net && r.actions[k] == Deliver(p)
    requires p.to in r.states[k].nodes && Takes(r.states[k].nodes[p.to], p.msg)
    ensures p.msg.leader in r.states[i + 1].nodes && p.to in r.states[k + 1].nodes
    ensures var l, x := r.states[i + 1].nodes[p.msg.leader], r.states[k + 1].nodes[p.to];
            && CommitInRange(l) && CommitInRange(x)
            && |Committed(x)| >= Min(p.msg.leaderCommit, EndOf(p.msg))
            && Committed(l) <= Committed(x)
  {
    hide StepAt, Initial, NetG, Takes, Stepped, OneIsPrefix;
    SentByLeader(r, i, p);
    HeardBy(r, k, p);
    TakenCommits(r.states[k].nodes[p.to], p.msg);
    StateMachineSafety(r, i + 1, k + 1, p.msg.leader, p.to);
    LongerHolds(Committed(r.states[i + 1].nodes[p.msg.leader]), Committed(r.states[k + 1].nodes[p.to]));
  }

  lemma LongerHolds(a: seq<LogEntry>, b: seq<LogEntry>)
    requires OneIsPrefix(a, b) && |a| <= |b|
    ensures a <= b
  {
  }

  // --- a follower's log is repaired -------------------------------------------------------------------

  /** Same term at an index means the same log up to it, as `LogMatching` gives for any
      two nodes of a run. */
  ghost predicate Matching(a: seq<LogEntry>, b: seq<LogEntry>) {
    forall k | 0 <= k < |a| && k < |b| && a[k].term == b[k].term :: a[..k + 1] == b[..k + 1]
  }

  /** A leader and one of its peers that is not ahead of it. */
  ghost predicate Paired(l: NodeState, p: NodeState) {
    && l.role.Leader? && BroadcastSafe(l) && p.id in l.peers && CommitInRange(l)
    && p.term <= l.term && (p.term == l.term ==> !p.role.Leader?)
    && Matching(l.log, p.log)
  }

  /** The peer hears the leader's append, and the leader hears the reply. */
  ghost function Round(l: NodeState, p: NodeState): (NodeState, NodeState)
    requires Paired(l, p)
  {
    var o := Stepped(p, AppendFor(l, p.id));
    (if o.sent == [] then l else Stepped(l, o.sent[0].msg).node, o.node)
  }

  ghost predicate InStep(l: NodeState, p: NodeState) {
    l.role.Leader? && p.log == l.log && NextFor(l, p.id) == |l.log| + 1
  }

  ghost predicate SameLeader(l: NodeState, l': NodeState) {
    && l'.role.Leader? && l'.id == l.id && l'.peers == l.peers && l'.term == l.term && l'.log == l.log
    && l'.commit >= l.commit
  }

  /** The peer accepts: its log becomes the leader's. */
  lemma RoundAccepted(l: NodeState, p: NodeState)
    requires Paired(l, p) && Consistent(p, AppendFor(l, p.id))
    ensures var (l', p') := Round(l, p);
            && Paired(l', p') && SameLeader(l, l') && p'.id == p.id
            && InStep(l', p') && l'.role.matchIndex == l.role.matchIndex[p.id := |l.log|] && p'.commit >= l.commit
  {
    var m := AppendFor(l, p.id);
    var prev := m.prevIndex;
    assert p.log[..prev] == l.log[..prev] by {
      if prev > 0 {
        assert l.log[prev - 1].term == p.log[prev - 1].term;
      }
    }
    assert l.log == l.log[..prev] + l.log[prev..];
    var o := Stepped(p, m);
    assert o.node.log == l.log && o.sent == [Envelope(Some(l.id), AppendReply(l.term, p.id, true, |l.log|))];
    AckedRound(l, p.id);
  }

  lemma AckedRound(l: NodeState, p: NodeId)
    requires l.role.Leader? && BroadcastSafe(l) && CommitInRange(l)
    ensures var l' := Stepped(l, AppendReply(l.term, p, true, |l.log|)).node;
            && SameLeader(l, l') && BroadcastSafe(l') && CommitInRange(l')
            && l'.role.matchIndex == l.role.matchIndex[p := |l.log|] && NextFor(l', p) == |l.log| + 1
  {
    hide HighestCommit;
    var l' := Stepped(l, AppendReply(l.term, p, true, |l.log|)).node;
    forall q | q in l'.peers ensures 1 <= NextFor(l', q) <= |l'.log| + 1 {
      assert q != p ==> NextFor(l', q) == NextFor(l, q);
    }
  }

  /** The peer refuses: the leader steps back by one. */
  lemma RoundRefused(l: NodeState, p: NodeState)
    requires Paired(l, p) && !Consistent(p, AppendFor(l, p.id))
    ensures var (l', p') := Round(l, p);
            && Paired(l', p') && SameLeader(l, l') && p'.id == p.id && p'.log == p.log
            && NextFor(l, p.id) > 1 && NextFor(l', p.id) == NextFor(l, p.id) - 1
  {
    var m := AppendFor(l, p.id);
    var o := Stepped(p, m);
    assert o.sent == [Envelope(Some(l.id), AppendReply(l.term, p.id, false, 0))];
    var l' := Stepped(l, o.sent[0].msg).node;
    forall q | q in l'.peers ensures 1 <= NextFor(l', q) <= |l'.log| + 1 {
      assert q != p.id ==> NextFor(l', q) == NextFor(l, q);
    }
  }

  /** One round is enough exactly when the peer agrees with the leader on all that comes
      before what it is sent. */
  lemma OneRoundExactly(l: NodeState, p: NodeState)
    requires Paired(l, p)
    ensures l.role.Leader?
    ensures var before := NextFor(l, p.id) - 1;
            InStep(Round(l, p).0, Round(l, p).1) <==>
              0 <= before <= |p.log| && before <= |l.log| && p.log[..before] == l.log[..before]
  {
    var m := AppendFor(l, p.id);
    var before := m.prevIndex;
    if before > 0 && before <= |p.log| {
      assert p.log[..before] == l.log[..before] ==> p.log[before - 1] == l.log[before - 1] by {
        assert p.log[..before][before - 1] == p.log[before - 1];
        assert l.log[..before][before - 1] == l.log[before - 1];
      }
      assert l.log[before - 1].term == p.log[before - 1].term ==> l.log[..before] == p.log[..before];
    }
    assert Consistent(p, m) <==> before <= |p.log| && p.log[..before] == l.log[..before];
    hide Round, Matching, Consistent;
    if Consistent(p, m) {
      RoundAccepted(l, p);
    } else {
      RoundRefused(l, p);
    }
  }

  lemma RoundKeeps(l: NodeState, p: NodeState)
    requires Paired(l, p)
    ensures Paired(Round(l, p).0, Round(l, p).1) && SameLeader(l, Round(l, p).0) && Round(l, p).1.id == p.id
  {
    hide *;
    if Consistent(p, AppendAt(l, p)) {
      AppendIs(l, p);
      RoundAccepted(l, p);
    } else {
      AppendIs(l, p);
      RoundRefused(l, p);
    }
  }

  ghost function AppendAt(l: NodeState, p: NodeState): (m: Msg)
    requires Paired(l, p)
    ensures m.AppendEntries?
  {
    AppendFor(l, p.id)
  }

  lemma AppendIs(l: NodeState, p: NodeState)
    requires Paired(l, p)
    ensures l.role.Leader? && p.id in l.peers && BroadcastSafe(l) && AppendAt(l, p) == AppendFor(l, p.id)
  {
  }

  /** Any number of rounds. */
  ghost function Rounds(l: NodeState, p: NodeState, n: nat): (r: (NodeState, NodeState))
    requires Paired(l, p)
    ensures Paired(r.0, r.1)
    decreases n
  {
    if n == 0 then (l, p)
    else
      RoundKeeps(l, p);
      Rounds(Round(l, p).0, Round(l, p).1, n - 1)
  }

  lemma InStepStays(l: NodeState, p: NodeState)
    requires Paired(l, p) && InStep(l, p)
    ensures Consistent(p, AppendAt(l, p))
  {
  }

  lemma {:induction false} InStepForever(l: NodeState, p: NodeState, n: nat, c: nat)
    requires Paired(l, p) && InStep(l, p) && p.commit >= c && l.commit >= c
    ensures var r := Rounds(l, p, n); InStep(r.0, r.1) && r.0.log == l.log && r.1.commit >= c
    decreases n
  {
    hide Paired, InStep, Round, Matching, Consistent;
    if n > 0 {
      InStepStays(l, p);
      AppendIs(l, p);
      RoundAccepted(l, p);
      InStepForever(Round(l, p).0, Round(l, p).1, n - 1, c);
    }
  }

  /** However far a peer's log has strayed, after as many undisturbed rounds as the
      leader's next index for it counts, its log is the leader's and it has committed
      what the leader had. */
  lemma {:induction false} LogsAreRepaired(l: NodeState, p: NodeState)
    requires Paired(l, p)
    ensures l.role.Leader?
    ensures var r := Rounds(l, p, NextFor(l, p.id));
            InStep(r.0, r.1) && r.0.log == l.log && r.1.log == l.log && r.1.commit >= l.commit
    decreases NextFor(l, p.id)
  {
    AppendIs(l, p);
    NextIsPositive(l, p);
    hide Paired, Round, Matching, Consistent, NextFor;
    var n := NextFor(l, p.id);
    if Consistent(p, AppendAt(l, p)) {
      RoundAccepted(l, p);
      InStepForever(Round(l, p).0, Round(l, p).1, n - 1, l.commit);
    } else {
      RoundRefused(l, p);
      LogsAreRepaired(Round(l, p).0, Round(l, p).1);
    }
  }

  lemma NextIsPositive(l: NodeState, p: NodeState)
    requires Paired(l, p)
    ensures l.role.Leader? && NextFor(l, p.id) >= 1
  {
  }

  // --- time -------------------------------------------------------------------------------------------------

  /** What a number of ticks without messages makes of a node: the last call. */
  ghost function Quiet(n: NodeState, ticks: nat): Outcome
    decreases ticks
  {
    if ticks == 0 || !TickSafe(n) then Outcome(n, [])
    else if ticks == 1 then Ticked(n)
    else Quiet(Ticked(n).node, ticks - 1)
  }

  /** A node that hears nothing keeps still until its timeout, and then stands for the
      next term with its own vote, asking every peer; without peers it leads. */
  lemma {:induction false} SilentNodeStands(n: NodeState, ticks: nat)
    requires !n.role.Leader? && n.quietTicks < n.electionAfter && 1 <= ticks <= n.electionAfter - n.quietTicks
    ensures ticks < n.electionAfter - n.quietTicks ==>
              Quiet(n, ticks) == Outcome(n.(quietTicks := n.quietTicks + ticks), [])
    ensures ticks == n.electionAfter - n.quietTicks ==>
              var o := Quiet(n, ticks);
              && o.node.term == n.term + 1 && o.node.votedFor == Some(n.id) && o.node.log == n.log
              && o.node.commit == n.commit && o.node.quietTicks == 0
              && (n.peers != [] ==>
                    && o.node.role == Candidate(1)
                    && o.sent == [Envelope(None, RequestVote(n.term + 1, n.id, |n.log|, LastTerm(n.log)))])
              && (n.peers == [] ==> o.node.role.Leader? && o.sent == [])
    decreases ticks
  {
    if ticks > 1 {
      SilentNodeStands(Ticked(n).node, ticks - 1);
    }
  }

  /** Every peer is sent the leader's log from some index on. */
  ghost predicate ReachesAll(n: NodeState, sent: seq<Envelope>) {
    && |sent| == |n.peers|
    && forall i | 0 <= i < |n.peers| :: TellsOne(n, n.peers[i], sent[i])
  }

  ghost predicate TellsOne(n: NodeState, peer: NodeId, e: Envelope) {
    && e.to == Some(peer) && e.msg.AppendEntries? && e.msg.term == n.term && e.msg.leader == n.id
    && e.msg.prevIndex <= |n.log| && e.msg.entries == n.log[e.msg.prevIndex..] && e.msg.leaderCommit == n.commit
    && (e.msg.prevIndex > 0 ==> e.msg.prevTerm == n.log[e.msg.prevIndex - 1].term)
  }

  lemma AppendsReachAll(n: NodeState)
    requires n.role.Leader? && BroadcastSafe(n)
    ensures ReachesAll(n, Appends(n))
  {
    forall i | 0 <= i < |n.peers| ensures TellsOne(n, n.peers[i], Appends(n)[i]) {
      assert 1 <= NextFor(n, n.peers[i]) <= |n.log| + 1;
    }
  }

  /** A leader is heard by every peer each time its heartbeat interval has passed. */
  lemma {:induction false} LeaderIsHeard(n: NodeState, ticks: nat)
    requires n.role.Leader? && BroadcastSafe(n) && n.quietTicks < n.heartbeatEvery
    requires 1 <= ticks <= n.heartbeatEvery - n.quietTicks
    ensures ticks < n.heartbeatEvery - n.quietTicks ==>
              Quiet(n, ticks) == Outcome(n.(quietTicks := n.quietTicks + ticks), [])
    ensures ticks == n.heartbeatEvery - n.quietTicks ==>
              Quiet(n, ticks).node == n.(quietTicks := 0) && ReachesAll(n.(quietTicks := 0), Quiet(n, ticks).sent)
    decreases ticks
  {
    AppendsReachAll(n.(quietTicks := 0));
    hide ReachesAll, Appends;
    if ticks > 1 {
      assert BroadcastSafe(Ticked(n).node);
      LeaderIsHeard(Ticked(n).node, ticks - 1);
    }
  }

  /** Such a heartbeat keeps a follower of the term from standing. */
  lemma HeartbeatQuiets(n: NodeState, m: Msg)
    requires m.AppendEntries? && m.term >= n.term
    ensures var o := Stepped(n, m);
            && o.node.quietTicks == 0 && o.node.role == Follower && o.node.term == m.term
            && o.node.leaderHint == Some(m.leader)
  {
    hide Consistent;
  }

  // --- votes ---------------------------------------------------------------------------------------------------

  /** A repeated request gets the same answer and changes nothing more. */
  lemma RepeatedRequest(n: NodeState, m: Msg)
    requires m.RequestVote?
    ensures var first := Stepped(n, m);
            var second := Stepped(first.node, m);
            second.sent == first.sent && second.node == first.node
  {
  }

  /** While it keeps its vote a node grants no other candidate of the term. */
  lemma NoSecondVote(n: NodeState, m: Msg, other: Msg)
    requires m.RequestVote? && other.RequestVote? && other.term == m.term && other.candidate != m.candidate
    requires Stepped(n, m).sent == [Envelope(Some(m.candidate), VoteReply(m.term, n.id, true))]
    ensures Stepped(Stepped(n, m).node, other).sent ==
              [Envelope(Some(other.candidate), VoteReply(m.term, n.id, false))]
    ensures Stepped(Stepped(n, m).node, other).node == Stepped(n, m).node
  {
    hide UpToDate;
  }

  /** A candidate leads exactly when its votes are more than half of the cluster, and
      then announces itself to every peer from the end of its log. */
  lemma WinnerAnnounces(n: NodeState, from: NodeId, votes: nat)
    requires n.role == Candidate(votes) && n.peers != []
    ensures var o := Stepped(n, VoteReply(n.term, from, true));
            && (o.node.role.Leader? <==> 2 * (votes + 1) > |n.peers| + 1)
            && (!o.node.role.Leader? ==> o == Outcome(n.(role := Candidate(votes + 1)), []))
            && (o.node.role.Leader? ==>
                  && o.node == n.(role := o.node.role, leaderHint := None, quietTicks := 0)
                  && (forall p | p in n.peers ::
                        NextFor(o.node, p) == |n.log| + 1 && p in o.node.role.matchIndex &&
                        o.node.role.matchIndex[p] == 0)
                  && ReachesAll(o.node, o.sent))
  {
    var o := Stepped(n, VoteReply(n.term, from, true));
    if o.node.role.Leader? {
      AppendsReachAll(o.node);
    }
  }
}
