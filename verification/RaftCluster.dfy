/** A cluster of Raft nodes and the messages in flight between them.

    Every step of a run is one call into one node, or the loss of one message.
    The contracts are predicates on a step, the strictest last:

      Net-A  messages may be lost and may overtake each other, but each copy is
             delivered at most once;
      Net-G  Net-A, and moreover no node takes over an append that drops an entry of
             the append's own term, and no leader counts an acknowledgement of an older
             term for an entry of its own or past its log; the receiver can tell both
             beforehand;
      Net-B  Net-A, and moreover the appends one leader sends one follower within
             a term arrive in the order they were sent (with loss), and a node
             that leads never receives an append reply of an older term.

    A node whose call would take an index out of range panics; such a step is not
    a step of a run. */
module RaftCluster {
  import opened Options
  import opened RaftCore

  /** One copy of a message on its way to one node, numbered in send order. */
  datatype Packet = Packet(seqNo: nat, to: NodeId, msg: Msg)

  type Nodes = map<NodeId, NodeState>

  datatype Cluster = Cluster(nodes: Nodes, net: set<Packet>, sent: nat)

  datatype Action =
    | Tick(node: NodeId)
    | Propose(node: NodeId, data: seq<bv8>)
    | Deliver(packet: Packet)
    | Drop(packet: Packet)

  /** A broadcast becomes one copy per peer; a directed envelope stays one copy. */
  function Copies(peers: seq<NodeId>, out: seq<Envelope>): seq<(NodeId, Msg)> {
    if out == [] then []
    else (match out[0].to
          case Some(d) => [(d, out[0].msg)]
          case None => seq(|peers|, i requires 0 <= i < |peers| => (peers[i], out[0].msg)))
         + Copies(peers, out[1..])
  }

  function Stamped(first: nat, copies: seq<(NodeId, Msg)>): set<Packet> {
    set i | 0 <= i < |copies| :: Packet(first + i, copies[i].0, copies[i].1)
  }

  function Post(s: Cluster, copies: seq<(NodeId, Msg)>): Cluster {
    s.(net := s.net + Stamped(s.sent, copies), sent := s.sent + |copies|)
  }

  function Put(s: Cluster, n: NodeState): Cluster {
    s.(nodes := s.nodes[n.id := n])
  }

  function Without(s: Cluster, p: Packet): Cluster {
    s.(net := s.net - {p})
  }

  function Committing(s: Cluster, o: Outcome): Cluster {
    Post(Put(s, o.node), Copies(o.node.peers, o.sent))
  }

  /** The action can happen: its node or packet exists, and no index in the call
      is out of range. */
  predicate Enabled(s: Cluster, a: Action) {
    match a
    case Tick(n) => n in s.nodes && TickSafe(s.nodes[n])
    case Propose(n, data) => n in s.nodes && (s.nodes[n].role.Leader? ==> ProposeSafe(s.nodes[n], data))
    case Deliver(p) => p in s.net && p.to in s.nodes
    case Drop(p) => p in s.net
  }

  function Apply(s: Cluster, a: Action): Cluster
    requires Enabled(s, a)
  {
    match a
    case Tick(n) => Committing(s, Ticked(s.nodes[n]))
    case Propose(n, data) =>
      (match Proposed(s.nodes[n], data)
       case None => s
       case Some(o) => Committing(s, o))
    case Deliver(p) => Committing(Without(s, p), Stepped(s.nodes[p.to], p.msg))
    case Drop(p) => Without(s, p)
  }

  // --- delivery contracts ------------------------------------------------------

  predicate SameStream(p: Packet, q: Packet) {
    p.msg.AppendEntries? && q.msg.AppendEntries? && p.to == q.to &&
    p.msg.term == q.msg.term && p.msg.leader == q.msg.leader
  }

  /** No older append of the same leader, follower and term is still in flight:
      it was delivered before, or it is lost. */
  predicate InOrder(s: Cluster, p: Packet) {
    forall q | q in s.net && SameStream(p, q) :: p.seqNo <= q.seqNo
  }

  predicate StaleReply(s: Cluster, p: Packet) {
    p.msg.AppendReply? && p.to in s.nodes && s.nodes[p.to].role.Leader? &&
    p.msg.term < s.nodes[p.to].term
  }

  predicate NetB(s: Cluster, a: Action) {
    a.Deliver? ==> InOrder(s, a.packet) && !StaleReply(s, a.packet)
  }

  /** The two halves of Net-B, each on its own. */
  datatype Half = NoStaleReplies | AppendsInOrder

  predicate Allowed(half: Half, s: Cluster, a: Action) {
    a.Deliver? ==>
      match half
      case NoStaleReplies => !StaleReply(s, a.packet)
      case AppendsInOrder => InOrder(s, a.packet)
  }

  // --- guards at the receiving node ----------------------------------------------

  function EndOf(m: Msg): nat
    requires m.AppendEntries?
  {
    m.prevIndex + |m.entries|
  }

  /** The node takes over the append. */
  predicate Takes(n: NodeState, m: Msg) {
    m.AppendEntries? && m.term >= n.term && Consistent(n, m)
  }

  /** The append ends before the log does, and the log's last entry is of the append's
      own term. */
  predicate CutsOwn(log: seq<LogEntry>, m: Msg)
    requires m.AppendEntries?
  {
    EndOf(m) < |log| && LastTerm(log) == m.term
  }

  /** Taking over the append drops an entry of the append's own term. */
  predicate DropsOwn(n: NodeState, m: Msg) {
    Takes(n, m) && CutsOwn(n.log, m)
  }

  /** Acknowledging so much says nothing of entries of the leader's own term. */
  predicate Harmless(n: NodeState, matched: nat) {
    matched <= |n.log| && (matched == 0 || n.log[matched - 1].term != n.term)
  }

  /** A leader would count an acknowledgement of an older term for its own entries, or
      past its log. */
  predicate CountsStale(n: NodeState, m: Msg) {
    m.AppendReply? && n.role.Leader? && m.term < n.term && m.success && !Harmless(n, m.matched)
  }

  /** Net-G: what the receiver of a message can tell before it handles it. */
  predicate NetG(s: Cluster, a: Action) {
    a.Deliver? && a.packet.to in s.nodes ==>
      !DropsOwn(s.nodes[a.packet.to], a.packet.msg) && !CountsStale(s.nodes[a.packet.to], a.packet.msg)
  }

  // --- runs --------------------------------------------------------------------

  ghost predicate GoodPeers(ids: set<NodeId>, n: NodeId, peers: seq<NodeId>) {
    (forall p :: p in peers <==> p in ids && p != n) &&
    (forall i, j | 0 <= i < j < |peers| :: peers[i] != peers[j])
  }

  /** Fresh nodes that all know each other, and nothing in flight. */
  ghost predicate Initial(s: Cluster) {
    s.net == {} && s.sent == 0 &&
    forall n | n in s.nodes ::
      && s.nodes[n] == Fresh(n, s.nodes[n].peers, s.nodes[n].electionAfter)
      && GoodPeers(s.nodes.Keys, n, s.nodes[n].peers)
  }

  datatype Run = Run(states: seq<Cluster>, actions: seq<Action>)

  ghost predicate StepAt(r: Run, k: nat)
    requires k < |r.actions| && |r.states| == |r.actions| + 1
  {
    Enabled(r.states[k], r.actions[k]) && r.states[k + 1] == Apply(r.states[k], r.actions[k])
  }

  ghost predicate IsRunA(r: Run) {
    && |r.states| == |r.actions| + 1
    && Initial(r.states[0])
    && forall k | 0 <= k < |r.actions| :: StepAt(r, k)
  }

  ghost predicate IsRunB(r: Run) {
    && IsRunA(r)
    && forall k | 0 <= k < |r.actions| :: NetB(r.states[k], r.actions[k])
  }

  ghost predicate IsRunG(r: Run) {
    && IsRunA(r)
    && forall k | 0 <= k < |r.actions| :: NetG(r.states[k], r.actions[k])
  }

  /** A Net-A run that keeps to one half of Net-B. */
  ghost predicate IsRunOf(half: Half, r: Run) {
    IsRunA(r) && forall k | 0 <= k < |r.actions| :: Allowed(half, r.states[k], r.actions[k])
  }

  /** Net-B is both halves. */
  lemma BothHalves(r: Run)
    ensures IsRunB(r) <==> IsRunOf(NoStaleReplies, r) && IsRunOf(AppendsInOrder, r)
  {
    hide IsRunA, InOrder, StaleReply;
  }
}
