/** History of a cluster run and the small steps every node call is made of.

    `History` is proof-only knowledge: who granted whom, who was elected by which
    quorum, the log each term's leader has had so far, and how much of that log
    each node has acknowledged. The functions below are the elementary effects a
    call can have; `RaftSteps` shows each `Apply` to be a chain of them. */
module RaftHistory {
  import opened Options
  import opened Subsets
  import opened RaftCore
  import opened RaftCluster

  datatype Grant = Grant(voter: NodeId, candidate: NodeId, term: nat)

  /** `base` is the length of the leader's log when it was elected. */
  datatype Election = Election(leader: NodeId, quorum: set<NodeId>, base: nat)

  datatype Ack = Ack(term: nat, node: NodeId)

  datatype History = History(
    grants: set<Grant>,
    counted: map<NodeId, set<NodeId>>,
    elections: map<nat, Election>,
    leaderLog: map<nat, seq<LogEntry>>,
    acks: map<Ack, nat>)

  function AckOf(h: History, term: nat, n: NodeId): nat {
    if Ack(term, n) in h.acks then h.acks[Ack(term, n)] else 0
  }

  predicate IsQuorum(ids: set<NodeId>, q: set<NodeId>) {
    q <= ids && |q| >= |ids| / 2 + 1
  }

  lemma QuorumsMeet(ids: set<NodeId>, a: set<NodeId>, b: set<NodeId>) returns (n: NodeId)
    requires IsQuorum(ids, a) && IsQuorum(ids, b)
    ensures n in a && n in b
  {
    if a * b == {} {
      assert |a + b| == |a| + |b|;
      SubsetSize(a + b, ids);
    }
    n :| n in a * b;
  }

  /** Peers and cluster agree on what a majority is. */
  lemma {:induction false} PeerCount(ids: set<NodeId>, n: NodeId, peers: seq<NodeId>)
    requires n in ids && GoodPeers(ids, n, peers)
    ensures |peers| + 1 == |ids|
    ensures Majority(|peers|) == |ids| / 2 + 1
    decreases |peers|
  {
    if peers == [] {
      forall x | x in ids ensures x == n {
        assert x != n ==> x in peers;
      }
      assert ids == {n};
    } else {
      var last := peers[|peers| - 1];
      var rest := peers[..|peers| - 1];
      assert last in peers;
      forall p ensures p in rest <==> p in ids - {last} && p != n {
        if p in ids - {last} && p != n {
          assert p in peers;
        }
        if p in rest {
          var i :| 0 <= i < |rest| && rest[i] == p;
          assert peers[i] == p;
        }
      }
      PeerCount(ids - {last}, n, rest);
    }
  }

  // --- elementary effects ------------------------------------------------------

  function Set(s: Cluster, n: NodeId, x: NodeState): Cluster {
    s.(nodes := s.nodes[n := x])
  }

  function Raised(s: Cluster, n: NodeId, term: nat): Cluster
    requires n in s.nodes
  {
    Set(s, n, FollowerAt(s.nodes[n], term))
  }

  /** Changes no safety property depends on: tick counters and the leader hint. */
  function Touched(s: Cluster, n: NodeId, quiet: nat, hint: Option<NodeId>): Cluster
    requires n in s.nodes
  {
    Set(s, n, s.nodes[n].(quietTicks := quiet, leaderHint := hint))
  }

  function Requests(n: NodeState): seq<(NodeId, Msg)> {
    seq(|n.peers|, i requires 0 <= i < |n.peers| => (n.peers[i], VoteRequest(n).msg))
  }

  function Stood(s: Cluster, n: NodeId): Cluster
    requires n in s.nodes
  {
    var c := CandidateOf(s.nodes[n]);
    Post(Set(s, n, c), Requests(c))
  }

  function StoodHistory(s: Cluster, h: History, n: NodeId): History
    requires n in s.nodes
  {
    h.(grants := h.grants + {Grant(n, n, s.nodes[n].term + 1)}, counted := h.counted[n := {n}])
  }

  /** The voter grants: its vote is set and the reply replaces the request. */
  function Voted(s: Cluster, p: Packet): Cluster
    requires p.to in s.nodes && p.msg.RequestVote?
  {
    var n := s.nodes[p.to];
    Post(Set(Without(s, p), p.to, n.(votedFor := Some(p.msg.candidate), quietTicks := 0)),
         [(p.msg.candidate, VoteReply(n.term, p.to, true))])
  }

  function VotedHistory(h: History, p: Packet): History
    requires p.msg.RequestVote?
  {
    h.(grants := h.grants + {Grant(p.to, p.msg.candidate, p.msg.term)})
  }

  function Counted(s: Cluster, p: Packet): Cluster
    requires p.to in s.nodes && s.nodes[p.to].role.Candidate?
  {
    var n := s.nodes[p.to];
    Set(Without(s, p), p.to, n.(role := Candidate(n.role.votes + 1)))
  }

  function CountedHistory(h: History, p: Packet): History
    requires p.msg.VoteReply? && p.to in h.counted
  {
    h.(counted := h.counted[p.to := h.counted[p.to] + {p.msg.from}])
  }

  function Elected(s: Cluster, n: NodeId): Cluster
    requires n in s.nodes
  {
    Set(s, n, LeaderOf(s.nodes[n]))
  }

  function ElectedHistory(s: Cluster, h: History, n: NodeId): History
    requires n in s.nodes && n in h.counted
  {
    var x := s.nodes[n];
    h.(elections := h.elections[x.term := Election(n, h.counted[n], |x.log|)],
       leaderLog := h.leaderLog[x.term := x.log],
       acks := h.acks[Ack(x.term, n) := |x.log|])
  }

  function AppendCopies(n: NodeState): seq<(NodeId, Msg)>
    requires n.role.Leader? && BroadcastSafe(n)
  {
    seq(|n.peers|, i requires 0 <= i < |n.peers| => (n.peers[i], AppendFor(n, n.peers[i])))
  }

  function Sent(s: Cluster, n: NodeId): Cluster
    requires n in s.nodes && s.nodes[n].role.Leader? && BroadcastSafe(s.nodes[n])
  {
    Post(s, AppendCopies(s.nodes[n]))
  }

  function Grown(s: Cluster, n: NodeId, data: seq<bv8>): Cluster
    requires n in s.nodes
  {
    Set(s, n, Extended(s.nodes[n], data))
  }

  function GrownHistory(s: Cluster, h: History, n: NodeId, data: seq<bv8>): History
    requires n in s.nodes
  {
    var x := Extended(s.nodes[n], data);
    h.(leaderLog := h.leaderLog[x.term := x.log], acks := h.acks[Ack(x.term, n) := |x.log|])
  }

  function Advanced(s: Cluster, n: NodeId): Cluster
    requires n in s.nodes
  {
    Set(s, n, CommitAdvanced(s.nodes[n]))
  }

  function Accepted(s: Cluster, p: Packet): Cluster
    requires p.to in s.nodes && p.msg.AppendEntries? && Consistent(s.nodes[p.to], p.msg)
  {
    Set(Without(s, p), p.to, Appended(s.nodes[p.to], p.msg))
  }

  function AcceptedHistory(s: Cluster, h: History, p: Packet): History
    requires p.to in s.nodes && p.msg.AppendEntries? && Consistent(s.nodes[p.to], p.msg)
  {
    h.(acks := h.acks[Ack(p.msg.term, p.to) := |Appended(s.nodes[p.to], p.msg).log|])
  }

  function Replied(s: Cluster, to: NodeId, m: Msg): Cluster {
    Post(s, [(to, m)])
  }

  function Recorded(s: Cluster, p: Packet): Cluster
    requires p.to in s.nodes && s.nodes[p.to].role.Leader? && p.msg.AppendReply?
  {
    Set(Without(s, p), p.to, Acknowledged(s.nodes[p.to], p.msg.from, p.msg.matched))
  }

  function Retried(s: Cluster, p: Packet): Cluster
    requires p.to in s.nodes && s.nodes[p.to].role.Leader? && p.msg.AppendReply?
  {
    Set(Without(s, p), p.to, BackedOff(s.nodes[p.to], p.msg.from))
  }

  /** What was recorded once stays: elections are never revised, leader logs only
      grow. */
  ghost predicate Grows(h: History, h': History) {
    && (forall t | t in h.elections :: t in h'.elections && h'.elections[t] == h.elections[t])
    && (forall t | t in h.leaderLog :: t in h'.leaderLog && h.leaderLog[t] <= h'.leaderLog[t])
  }

  /** Under Net-G acknowledgements only rise as well. */
  ghost predicate AcksRise(h: History, h': History) {
    forall t: nat, n :: AckOf(h, t, n) <= AckOf(h', t, n)
  }
}
