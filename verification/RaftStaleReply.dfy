/** Why appends in order are not enough for committed logs either: one stale reply lets
    a leader commit an entry that too few nodes hold. */
module RaftStaleReply {
  import opened Options
  import opened RaftCore
  import opened RaftCluster
  import opened RaftTheorems
  import opened RaftLimits

  // --- acknowledgements in a cluster of five -----------------------------------------------------

  /** One acknowledgement is no majority of five. */
  lemma {:induction false} TooFew(n: NodeState, p: NodeId, hi: nat)
    requires n.role.Leader? && |n.peers| == 4 && hi <= |n.log|
    requires forall q | q in n.role.matchIndex && q != p :: n.role.matchIndex[q] == 0
    ensures HighestCommit(n, hi) == n.commit
  {
    if hi > n.commit {
      var held := set q | q in n.role.matchIndex && n.role.matchIndex[q] >= hi;
      assert held <= {p};
      SmallSet(held, p);
      TooFew(n, p, hi - 1);
    }
  }

  lemma SmallSet(held: set<NodeId>, p: NodeId)
    requires held <= {p}
    ensures |held| <= 1
  {
    if held != {} {
      assert held == {p};
    }
  }

  lemma FirstAck(n: NodeState, p: NodeId)
    requires n.role.Leader? && |n.peers| == 4
    requires forall q | q in n.role.matchIndex :: n.role.matchIndex[q] == 0
    ensures Stepped(n, AppendReply(n.term, p, true, |n.log|)) == Outcome(Acknowledged(n, p, |n.log|), [])
  {
    TooFew(Acknowledged(n, p, |n.log|), p, |n.log|);
    hide HighestCommit;
  }

  /** A second one, of whatever term, makes it a majority. */
  lemma SecondAck(n: NodeState, term: nat, p: NodeId, q: NodeId)
    requires n.role.Leader? && |n.peers| == 4 && term <= n.term && p != q
    requires p in n.role.matchIndex && n.role.matchIndex[p] == |n.log|
    requires n.commit < |n.log| && LastTerm(n.log) == n.term
    ensures Stepped(n, AppendReply(term, q, true, |n.log|)) ==
              Outcome(Acknowledged(n, q, |n.log|).(commit := |n.log|), [])
  {
    var k := Acknowledged(n, q, |n.log|);
    var held := set x | x in k.role.matchIndex && k.role.matchIndex[x] >= |n.log|;
    TwoHeld(held, p, q);
    assert Committable(k, |n.log|);
  }

  lemma TwoHeld(held: set<NodeId>, p: NodeId, q: NodeId)
    requires p in held && q in held && p != q
    ensures |held| >= 2
  {
    assert held == {p, q} + (held - {p, q});
  }

  /** A follower hears an append and its reply comes back. */
  lemma Exchange(s: Cluster, l: NodeId, p: NodeId, m: Msg, reply: Msg) returns (s': Cluster)
    requires Reached(AppendsInOrder, s) && l != p && l in s.nodes && p in s.nodes
    requires s.nodes[l].id == l && s.nodes[p].id == p && InFlight(s, p, m) && m.AppendEntries? && reply.AppendReply?
    requires Stepped(s.nodes[p], m).sent == [Envelope(Some(l), reply)]
    ensures Reached(AppendsInOrder, s')
    ensures s'.nodes == s.nodes[p := Stepped(s.nodes[p], m).node][l := Stepped(s.nodes[l], reply).node]
    ensures forall t, x |
                InFlight(s, t, x) && (t, x) != (l, reply) && (x.AppendReply? || (x.AppendEntries? && t != p)) ::
              InFlight(s', t, x)
  {
    hide Reached, InFlight, Stepped, Copies;
    var s1 := DeliversNext(s, p, m);
    CopyOf(Stepped(s.nodes[p], m).node.peers, Stepped(s.nodes[p], m).sent, 0);
    s' := Delivers(AppendsInOrder, s1, l, reply);
  }

  // --- the leader of term 3 commits too early --------------------------------------------------------

  function Proposal(): seq<LogEntry> {
    [LogEntry(3, [])]
  }

  /** `a` proposes in term 3 and only `d` takes the entry; the late reply of `b` from
      term 1 makes it look like a majority. */
  lemma CommitsEarly(a: NodeId, b: NodeId, c: NodeId, d: NodeId, e: NodeId) returns (s: Cluster)
    requires AllDiffer(a, b, c, d, e)
    ensures Reached(AppendsInOrder, s) && s.nodes.Keys == {a, b, c, d, e}
    ensures s.nodes[a].log == Proposal() && s.nodes[a].commit == 1
    ensures s.nodes[b] == Member(b, [a, c, d, e], Follower, 1, Some(a), OneEntry(), 0, Some(a))
    ensures s.nodes[c].id == c && s.nodes[c].term == 2 && s.nodes[c].log == []
    ensures s.nodes[e] == Member(e, [a, b, c, d], Follower, 3, Some(a), [], 0, None)
  {
    hide Reached, InFlight, Stepped, BroadcastSafe, AppendFor, Appends, Copies, ProposeSafe, Proposed, Acknowledged;
    var s0 := LeadsAgain(a, b, c, d, e);
    var w := s0.nodes[a];
    ProposesAlone(w, []);
    var s1 := Proposes(AppendsInOrder, s0, a, []);
    var x := Extended(w, []);
    assert x.log == Proposal();
    FirstEntryAppend(w, d);
    SentTo(s0, s1, a, Outcome(x, Appends(x)), d);
    var m := AppendEntries(3, a, 0, 0, Proposal(), 0);
    var reply, late := AppendReply(3, d, true, 1), AppendReply(1, b, true, 1);
    Replaces(s1.nodes[d], a, 3, Proposal());
    var s2 := Exchange(s1, a, d, m, reply);
    FirstAck(x, d);
    var y := Acknowledged(x, d, 1);
    AckRecords(x, d, 1);
    SecondAck(y, 1, d, b);
    s := Delivers(AppendsInOrder, s2, a, late);
    AckRecords(y, b, 1);
  }

  lemma AckRecords(n: NodeState, p: NodeId, matched: nat)
    requires n.role.Leader?
    ensures var k := Acknowledged(n, p, matched);
            && k == n.(role := k.role) && k.role.Leader? && p in k.role.matchIndex && k.role.matchIndex[p] == matched
  {
  }

  // --- the leader of term 4 commits something else ---------------------------------------------------

  /** A leader elected with one entry of term 1. */
  lemma OneEntryWinner(n: NodeState)
    requires n.log == OneEntry() && n.commit == 0 && |n.peers| == 4
    ensures var w := Winner(n);
            && w.id == n.id && w.peers == n.peers && w.log == OneEntry() && w.term == n.term + 1 && w.commit == 0
            && w.role.Leader?
            && (forall p | p in w.role.matchIndex :: w.role.matchIndex[p] == 0)
            && (forall p | p in w.peers :: NextFor(w, p) == 2) && BroadcastSafe(w)
            && (forall p | p in w.peers :: AppendFor(w, p) == AppendEntries(n.term + 1, n.id, 1, 1, [], 0))
  {
    var w := Winner(n);
    assert w.log[1..] == [];
  }

  /** `b`, which still holds the entry of term 1, is elected in term 4. */
  lemma OtherLeads(a: NodeId, b: NodeId, c: NodeId, d: NodeId, e: NodeId) returns (s: Cluster, w: NodeState)
    requires AllDiffer(a, b, c, d, e)
    ensures Reached(AppendsInOrder, s) && s.nodes.Keys == {a, b, c, d, e}
    ensures s.nodes[a].log == Proposal() && s.nodes[a].commit == 1
    ensures s.nodes[b] == w && w.id == b && w.peers == [a, c, d, e] && w.log == OneEntry()
    ensures w.term == 4 && w.commit == 0
    ensures w.role.Leader? && BroadcastSafe(w) && forall p | p in w.role.matchIndex :: w.role.matchIndex[p] == 0
    ensures forall p | p in w.peers :: NextFor(w, p) == 2 && InFlight(s, p, AppendEntries(4, b, 1, 1, [], 0))
    ensures forall p | p == c || p == e ::
              s.nodes[p].id == p && s.nodes[p].role.Follower? && s.nodes[p].term == 4 && s.nodes[p].log == []
  {
    hide Reached, InFlight, Stepped, Winner, BroadcastSafe, AppendFor, Appends, Copies;
    var s0 := CommitsEarly(a, b, c, d, e);
    var s1 := Stands(AppendsInOrder, s0, b);
    var s2 := Stands(AppendsInOrder, s1, b);
    var x := s2.nodes[b];
    assert x.log == OneEntry() && LastTerm(x.log) == 1;
    s := ElectedOfFive(s2, b, c, e);
    w := Winner(x);
    OneEntryWinner(x);
  }

  /** A follower without the entry before refuses. */
  lemma Refuses(n: NodeState, l: NodeId)
    requires n.role.Follower? && n.log == []
    ensures Stepped(n, AppendEntries(n.term, l, 1, 1, [], 0)) ==
              Outcome(n.(quietTicks := 0, leaderHint := Some(l)),
                      [Envelope(Some(l), AppendReply(n.term, n.id, false, 0))])
  {
  }

  lemma StepsBack(n: NodeState, p: NodeId)
    requires n.role.Leader? && NextFor(n, p) == 2
    ensures var o := Stepped(n, AppendReply(n.term, p, false, 0));
            && o.node == n.(role := o.node.role) && o.node.role.Leader? && o.node.role.matchIndex == n.role.matchIndex
            && NextFor(o.node, p) == 1 && forall q | q != p :: NextFor(o.node, q) == NextFor(n, q)
  {
  }

  /** From the start of the log the append carries all of it. */
  lemma WholeAppend(n: NodeState, p: NodeId)
    requires n.role.Leader? && p in n.peers && NextFor(n, p) == 1 && BroadcastSafe(Extended(n, []))
    ensures AppendFor(Extended(n, []), p) == AppendEntries(n.term, n.id, 0, 0, n.log + [LogEntry(n.term, [])], n.commit)
  {
    var x := Extended(n, []);
    assert NextFor(x, p) == NextFor(n, p);
    assert x.log[0..] == x.log;
  }

  /** `c` and `e` refuse, the leader steps back for both and proposes. */
  lemma StepsBackTwice(a: NodeId, b: NodeId, c: NodeId, d: NodeId, e: NodeId) returns (s: Cluster, x: NodeState)
    requires AllDiffer(a, b, c, d, e)
    ensures Reached(AppendsInOrder, s) && s.nodes.Keys == {a, b, c, d, e}
    ensures s.nodes[a].log == Proposal() && s.nodes[a].commit == 1
    ensures s.nodes[b] == x && x.id == b && x.role.Leader? && |x.peers| == 4 && x.term == 4 && x.commit == 0
    ensures x.log == [LogEntry(1, []), LogEntry(4, [])]
    ensures forall p | p in x.role.matchIndex :: x.role.matchIndex[p] == 0
    ensures forall p | p == c || p == e ::
              && s.nodes[p].id == p && s.nodes[p].role.Follower? && s.nodes[p].term == 4
              && InFlight(s, p, AppendEntries(4, b, 0, 0, x.log, 0))
  {
    hide Reached, InFlight, Stepped, AppendFor, Appends, Copies, ProposeSafe, Proposed;
    var s0, w := OtherLeads(a, b, c, d, e);
    var beat := AppendEntries(4, b, 1, 1, [], 0);
    Refuses(s0.nodes[c], b);
    StepsBack(w, c);
    var s1 := Exchange(s0, b, c, beat, AppendReply(4, c, false, 0));
    var w1 := s1.nodes[b];
    Refuses(s1.nodes[e], b);
    StepsBack(w1, e);
    var s2 := Exchange(s1, b, e, beat, AppendReply(4, e, false, 0));
    var w2 := s2.nodes[b];
    ProposesAlone(w2, []);
    s := Proposes(AppendsInOrder, s2, b, []);
    x := Extended(w2, []);
    forall p | p == c || p == e ensures InFlight(s, p, AppendEntries(4, b, 0, 0, x.log, 0)) {
      WholeAppend(w2, p);
      SentTo(s2, s, b, Outcome(x, Appends(x)), p);
    }
  }

  /** It replicates to `c` and `e`, a majority, and commits. */
  lemma CommitsOther(a: NodeId, b: NodeId, c: NodeId, d: NodeId, e: NodeId) returns (s: Cluster)
    requires AllDiffer(a, b, c, d, e)
    ensures Reached(AppendsInOrder, s) && a in s.nodes && b in s.nodes
    ensures s.nodes[a].log == Proposal() && s.nodes[a].commit == 1
    ensures s.nodes[b].log == [LogEntry(1, []), LogEntry(4, [])] && s.nodes[b].commit == 2
  {
    hide Reached, InFlight, Stepped, Acknowledged;
    var s0, x := StepsBackTwice(a, b, c, d, e);
    var m := AppendEntries(4, b, 0, 0, x.log, 0);
    Replaces(s0.nodes[c], b, 4, x.log);
    FirstAck(x, c);
    AckRecords(x, c, 2);
    var s1 := Exchange(s0, b, c, m, AppendReply(4, c, true, 2));
    var y := s1.nodes[b];
    Replaces(s1.nodes[e], b, 4, x.log);
    SecondAck(y, 4, c, e);
    AckRecords(y, e, 2);
    s := Exchange(s1, b, e, m, AppendReply(4, e, true, 2));
  }

  /** In-order appends alone do not keep committed logs together: in some run of five
      nodes that has them, a stale reply makes a leader commit an entry two nodes hold,
      and a later leader commits another one in its place. */
  lemma StaleReplyBreaksSafety(a: NodeId, b: NodeId, c: NodeId, d: NodeId, e: NodeId)
    requires AllDiffer(a, b, c, d, e)
    ensures exists r: Run :: IsRunOf(AppendsInOrder, r) && Disagree(r.states[|r.states| - 1], a, b)
  {
    var s := CommitsOther(a, b, c, d, e);
    var x, y := s.nodes[a], s.nodes[b];
    assert Committed(x)[0] == LogEntry(3, []) && Committed(y)[0] == LogEntry(1, []);
    assert Disagree(s, a, b);
    var r: Run :| IsRunOf(AppendsInOrder, r) && r.states[|r.states| - 1] == s;
  }
}
