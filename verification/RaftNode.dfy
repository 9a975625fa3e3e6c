/** One Raft node: the clock-free, socket-free state machine of
    crates/sigil-cluster/src/raft.rs.

    `NodeState` is the value of a node, the functions `Ticked`, `Stepped` and
    `Proposed` say what one call does to it, and the class `RaftNode` is the
    object whose methods update their fields in place and are proved to do
    exactly that. */
module RaftCore {
  import opened Options

  datatype NodeId = NodeId(name: string)

  datatype LogEntry = LogEntry(term: nat, data: seq<bv8>)

  datatype Msg =
    | RequestVote(term: nat, candidate: NodeId, lastLogIndex: nat, lastLogTerm: nat)
    | VoteReply(term: nat, from: NodeId, granted: bool)
    | AppendEntries(term: nat, leader: NodeId, prevIndex: nat, prevTerm: nat,
                    entries: seq<LogEntry>, leaderCommit: nat)
    | AppendReply(term: nat, from: NodeId, success: bool, matched: nat)

  /** An outbound message; `to == None` goes to every peer. */
  datatype Envelope = Envelope(to: Option<NodeId>, msg: Msg)

  datatype Role =
    | Follower
    | Candidate(votes: nat)
    | Leader(nextIndex: map<NodeId, nat>, matchIndex: map<NodeId, nat>)

  datatype NodeState = NodeState(
    id: NodeId,
    peers: seq<NodeId>,
    role: Role,
    term: nat,
    votedFor: Option<NodeId>,
    log: seq<LogEntry>,
    commit: nat,
    leaderHint: Option<NodeId>,
    quietTicks: nat,
    electionAfter: nat,
    heartbeatEvery: nat)

  /** What one call leaves behind: the new state and the envelopes to deliver. */
  datatype Outcome = Outcome(node: NodeState, sent: seq<Envelope>)

  // --- small readings of a node ------------------------------------------------

  function LastTerm(log: seq<LogEntry>): nat {
    if log == [] then 0 else log[|log| - 1].term
  }

  /** Half of the peers rounded up, plus one. */
  function Majority(peerCount: nat): nat {
    (peerCount + 1) / 2 + 1
  }

  /** The slice `committed()` takes exists. */
  predicate CommitInRange(n: NodeState) {
    n.commit <= |n.log|
  }

  function Committed(n: NodeState): seq<LogEntry>
    requires CommitInRange(n)
  {
    n.log[..n.commit]
  }

  // --- leader duties -----------------------------------------------------------

  function NextFor(n: NodeState, peer: NodeId): nat
    requires n.role.Leader?
  {
    if peer in n.role.nextIndex then n.role.nextIndex[peer] else 1
  }

  /** No index or slice in `broadcast_appends` is out of range. */
  predicate BroadcastSafe(n: NodeState) {
    n.role.Leader? ==> forall p | p in n.peers :: 1 <= NextFor(n, p) <= |n.log| + 1
  }

  function AppendFor(n: NodeState, peer: NodeId): Msg
    requires n.role.Leader? && peer in n.peers && BroadcastSafe(n)
  {
    var prev := NextFor(n, peer) - 1;
    AppendEntries(n.term, n.id, prev, if prev == 0 then 0 else n.log[prev - 1].term,
                  n.log[prev..], n.commit)
  }

  function Appends(n: NodeState): seq<Envelope>
    requires BroadcastSafe(n)
  {
    if n.role.Leader?
    then seq(|n.peers|, i requires 0 <= i < |n.peers| => Envelope(Some(n.peers[i]), AppendFor(n, n.peers[i])))
    else []
  }

  function Replicas(n: NodeState, index: nat): nat
    requires n.role.Leader?
  {
    1 + |set p | p in n.role.matchIndex && n.role.matchIndex[p] >= index|
  }

  /** The commit rule of section 5.4.2 of the Raft paper: an entry of the current
      term held by a majority. */
  predicate Committable(n: NodeState, index: nat)
    requires n.role.Leader?
  {
    1 <= index <= |n.log| && n.log[index - 1].term == n.term &&
    Replicas(n, index) >= Majority(|n.peers|)
  }

  /** The highest committable index in (commit, hi], or `commit` if there is none. */
  function HighestCommit(n: NodeState, hi: nat): (r: nat)
    requires n.role.Leader? && hi <= |n.log|
    ensures r == n.commit || (n.commit < r <= hi && Committable(n, r))
    ensures forall k | r < k <= hi :: n.commit < k ==> !Committable(n, k)
  {
    if hi <= n.commit then n.commit
    else if Committable(n, hi) then hi
    else HighestCommit(n, hi - 1)
  }

  function CommitAdvanced(n: NodeState): NodeState {
    if n.role.Leader? then n.(commit := HighestCommit(n, |n.log|)) else n
  }

  // --- role changes ------------------------------------------------------------

  function FollowerAt(n: NodeState, term: nat): NodeState {
    n.(term := term, role := Follower, votedFor := None, quietTicks := 0)
  }

  /** The same index for every peer. */
  function Uniform(peers: seq<NodeId>, index: nat): (r: map<NodeId, nat>)
    ensures forall p :: p in r <==> p in peers
    ensures forall p | p in r :: r[p] == index
  {
    if peers == [] then map[] else Uniform(peers[..|peers| - 1], index)[peers[|peers| - 1] := index]
  }

  function LeaderOf(n: NodeState): NodeState {
    n.(role := Leader(Uniform(n.peers, |n.log| + 1), Uniform(n.peers, 0)),
       leaderHint := None, quietTicks := 0)
  }

  function CandidateOf(n: NodeState): NodeState {
    n.(term := n.term + 1, votedFor := Some(n.id), role := Candidate(1), quietTicks := 0)
  }

  function BecameLeader(n: NodeState): Outcome {
    Outcome(LeaderOf(n), Appends(LeaderOf(n)))
  }

  function VoteRequest(n: NodeState): Envelope {
    Envelope(None, RequestVote(n.term, n.id, |n.log|, LastTerm(n.log)))
  }

  function ElectionStarted(n: NodeState): Outcome {
    var c := CandidateOf(n);
    if c.peers == [] then BecameLeader(c) else Outcome(c, [VoteRequest(c)])
  }

  // --- tick and propose --------------------------------------------------------

  predicate TickSafe(n: NodeState) {
    n.role.Leader? && n.quietTicks + 1 >= n.heartbeatEvery ==> BroadcastSafe(n)
  }

  function Ticked(n: NodeState): Outcome
    requires TickSafe(n)
  {
    var m := n.(quietTicks := n.quietTicks + 1);
    if m.role.Leader? then
      if m.quietTicks >= m.heartbeatEvery
      then var q := m.(quietTicks := 0); Outcome(q, Appends(q))
      else Outcome(m, [])
    else if m.quietTicks >= m.electionAfter then ElectionStarted(m)
    else Outcome(m, [])
  }

  function Extended(n: NodeState, data: seq<bv8>): NodeState {
    n.(log := n.log + [LogEntry(n.term, data)])
  }

  predicate ProposeSafe(n: NodeState, data: seq<bv8>) {
    BroadcastSafe(CommitAdvanced(Extended(n, data)))
  }

  /** `None` is the "not the leader" error; the node is then unchanged. */
  function Proposed(n: NodeState, data: seq<bv8>): Option<Outcome>
    requires n.role.Leader? ==> ProposeSafe(n, data)
  {
    if !n.role.Leader? then None
    else
      var m := CommitAdvanced(Extended(n, data));
      Some(Outcome(m, Appends(m)))
  }

  // --- incoming messages -------------------------------------------------------

  /** A newer term turns the node into a follower of that term. */
  function Caught(n: NodeState, term: nat): NodeState {
    if term > n.term then FollowerAt(n, term) else n
  }

  /** The candidate's log is at least as up to date as the voter's. */
  predicate UpToDate(n: NodeState, lastLogIndex: nat, lastLogTerm: nat) {
    lastLogTerm > LastTerm(n.log) ||
    (lastLogTerm == LastTerm(n.log) && lastLogIndex >= |n.log|)
  }

  predicate Grants(n: NodeState, m: Msg)
    requires m.RequestVote?
  {
    m.term == n.term && UpToDate(n, m.lastLogIndex, m.lastLogTerm) &&
    (n.votedFor == None || n.votedFor == Some(m.candidate))
  }

  function OnRequestVote(n0: NodeState, m: Msg): Outcome
    requires m.RequestVote?
  {
    var n := Caught(n0, m.term);
    var granted := Grants(n, m);
    var voted := if granted then n.(votedFor := Some(m.candidate), quietTicks := 0) else n;
    Outcome(voted, [Envelope(Some(m.candidate), VoteReply(n.term, n.id, granted))])
  }

  function OnVoteReply(n: NodeState, m: Msg): Outcome
    requires m.VoteReply?
  {
    if m.term > n.term then Outcome(FollowerAt(n, m.term), [])
    else if n.role.Candidate? && m.term == n.term && m.granted then
      var c := n.(role := Candidate(n.role.votes + 1));
      if c.role.votes >= Majority(|c.peers|) then BecameLeader(c) else Outcome(c, [])
    else Outcome(n, [])
  }

  /** The term rule of `AppendEntries`: also a same-term append demotes a
      candidate or leader, and clears its vote. */
  function Demoted(n: NodeState, term: nat): NodeState {
    if term > n.term || (term == n.term && n.role != Follower) then FollowerAt(n, term) else n
  }

  /** The entry before the new ones is the one the leader has there. */
  predicate Consistent(n: NodeState, m: Msg)
    requires m.AppendEntries?
  {
    m.prevIndex == 0 || (m.prevIndex <= |n.log| && n.log[m.prevIndex - 1].term == m.prevTerm)
  }

  function Appended(n: NodeState, m: Msg): NodeState
    requires m.AppendEntries? && Consistent(n, m)
  {
    var log := n.log[..m.prevIndex] + m.entries;
    var commit := if m.leaderCommit > n.commit
                  then (if m.leaderCommit < |log| then m.leaderCommit else |log|)
                  else n.commit;
    n.(log := log, commit := commit)
  }

  function OnAppendEntries(n0: NodeState, m: Msg): Outcome
    requires m.AppendEntries?
  {
    var n := Demoted(n0, m.term);
    if m.term < n.term then
      Outcome(n, [Envelope(Some(m.leader), AppendReply(n.term, n.id, false, 0))])
    else
      var heard := n.(quietTicks := 0, leaderHint := Some(m.leader));
      if !Consistent(heard, m) then
        Outcome(heard, [Envelope(Some(m.leader), AppendReply(heard.term, heard.id, false, 0))])
      else
        var a := Appended(heard, m);
        Outcome(a, [Envelope(Some(m.leader), AppendReply(a.term, a.id, true, |a.log|))])
  }

  function Acknowledged(n: NodeState, from: NodeId, matched: nat): NodeState
    requires n.role.Leader?
  {
    n.(role := Leader(n.role.nextIndex[from := matched + 1], n.role.matchIndex[from := matched]))
  }

  function BackedOff(n: NodeState, from: NodeId): NodeState
    requires n.role.Leader?
  {
    var next := NextFor(n, from);
    n.(role := n.role.(nextIndex := n.role.nextIndex[from := if next > 1 then next - 1 else 1]))
  }

  function OnAppendReply(n: NodeState, m: Msg): Outcome
    requires m.AppendReply?
  {
    if m.term > n.term then Outcome(FollowerAt(n, m.term), [])
    else if !n.role.Leader? then Outcome(n, [])
    else if m.success then Outcome(CommitAdvanced(Acknowledged(n, m.from, m.matched)), [])
    else Outcome(BackedOff(n, m.from), [])
  }

  function Stepped(n: NodeState, m: Msg): Outcome {
    match m
    case RequestVote(_, _, _, _) => OnRequestVote(n, m)
    case VoteReply(_, _, _) => OnVoteReply(n, m)
    case AppendEntries(_, _, _, _, _, _) => OnAppendEntries(n, m)
    case AppendReply(_, _, _, _) => OnAppendReply(n, m)
  }

  function Fresh(id: NodeId, peers: seq<NodeId>, electionAfter: nat): NodeState {
    NodeState(id, peers, Follower, 0, None, [], 0, None, 0, electionAfter, 3)
  }

  // --- the node as an object ---------------------------------------------------

  class RaftNode {
    const id: NodeId
    const peers: seq<NodeId>
    var role: Role
    var term: nat
    var votedFor: Option<NodeId>
    var log: seq<LogEntry>
    var commit: nat
    var leaderHint: Option<NodeId>
    var quietTicks: nat
    const electionAfter: nat
    const heartbeatEvery: nat

    function State(): NodeState
      reads this
    {
      NodeState(id, peers, role, term, votedFor, log, commit, leaderHint, quietTicks,
                electionAfter, heartbeatEvery)
    }

    constructor (id: NodeId, peers: seq<NodeId>, electionAfter: nat)
      requires 10 <= electionAfter <= 19
      ensures State() == Fresh(id, peers, electionAfter)
    {
      this.id, this.peers := id, peers;
      role, term, votedFor, log, commit := Follower, 0, None, [], 0;
      leaderHint, quietTicks := None, 0;
      this.electionAfter, heartbeatEvery := electionAfter, 3;
    }

    method BecomeFollower(newTerm: nat)
      modifies this
      ensures State() == FollowerAt(old(State()), newTerm)
    {
      term, role, votedFor, quietTicks := newTerm, Follower, None, 0;
    }

    method BroadcastAppends() returns (out: seq<Envelope>)
      requires BroadcastSafe(State())
      ensures out == Appends(State())
    {
      out := [];
      if !role.Leader? {
        return;
      }
      for i := 0 to |peers|
        invariant |out| == i
        invariant forall k | 0 <= k < i :: out[k] == Envelope(Some(peers[k]), AppendFor(State(), peers[k]))
      {
        assert peers[i] in State().peers;
        var next := NextFor(State(), peers[i]);
        var prev := next - 1;
        var prevTerm := if prev == 0 then 0 else log[prev - 1].term;
        out := out + [Envelope(Some(peers[i]), AppendEntries(term, id, prev, prevTerm, log[prev..], commit))];
      }
    }

    method AdvanceCommit()
      modifies this`commit
      ensures State() == CommitAdvanced(old(State()))
    {
      if !role.Leader? {
        return;
      }
      ghost var before := State();
      var k := |log|;
      while k > commit
        invariant 0 <= k <= |log| && State() == before
        invariant HighestCommit(before, |log|) == HighestCommit(before, k)
      {
        if log[k - 1].term == term && Replicas(State(), k) >= Majority(|peers|) {
          commit := k;
          return;
        }
        k := k - 1;
      }
    }

    method BecomeLeader() returns (out: seq<Envelope>)
      modifies this
      ensures Outcome(State(), out) == BecameLeader(old(State()))
    {
      role := Leader(Uniform(peers, |log| + 1), Uniform(peers, 0));
      leaderHint := None;
      quietTicks := 0;
      out := BroadcastAppends();
    }

    method StartElection() returns (out: seq<Envelope>)
      modifies this
      ensures Outcome(State(), out) == ElectionStarted(old(State()))
    {
      term := term + 1;
      votedFor := Some(id);
      role := Candidate(1);
      quietTicks := 0;
      if peers == [] {
        out := BecomeLeader();
        return;
      }
      out := [Envelope(None, RequestVote(term, id, |log|, LastTerm(log)))];
    }

    method Tick() returns (out: seq<Envelope>)
      requires TickSafe(State())
      modifies this
      ensures Outcome(State(), out) == Ticked(old(State()))
    {
      quietTicks := quietTicks + 1;
      out := [];
      if role.Leader? {
        if quietTicks >= heartbeatEvery {
          quietTicks := 0;
          out := BroadcastAppends();
        }
      } else if quietTicks >= electionAfter {
        out := StartElection();
      }
    }

    method Propose(data: seq<bv8>) returns (out: Option<seq<Envelope>>)
      requires role.Leader? ==> ProposeSafe(State(), data)
      modifies this
      ensures match Proposed(old(State()), data)
              case None => out == None && State() == old(State())
              case Some(o) => out == Some(o.sent) && State() == o.node
    {
      if !role.Leader? {
        return None;
      }
      log := log + [LogEntry(term, data)];
      AdvanceCommit();
      var sent := BroadcastAppends();
      return Some(sent);
    }

    method Step(m: Msg) returns (out: seq<Envelope>)
      modifies this
      ensures Outcome(State(), out) == Stepped(old(State()), m)
    {
      match m
      case RequestVote(_, _, _, _) => out := StepRequestVote(m);
      case VoteReply(_, _, _) => out := StepVoteReply(m);
      case AppendEntries(_, _, _, _, _, _) => out := StepAppendEntries(m);
      case AppendReply(_, _, _, _) => out := StepAppendReply(m);
    }

    method StepRequestVote(m: Msg) returns (out: seq<Envelope>)
      requires m.RequestVote?
      modifies this
      ensures Outcome(State(), out) == OnRequestVote(old(State()), m)
    {
      if m.term > term {
        BecomeFollower(m.term);
      }
      var lastTerm := LastTerm(log);
      var upToDate := m.lastLogTerm > lastTerm || (m.lastLogTerm == lastTerm && m.lastLogIndex >= |log|);
      var voteAvailable := match votedFor case None => true case Some(v) => v == m.candidate;
      var granted := m.term == term && upToDate && voteAvailable;
      if granted {
        votedFor := Some(m.candidate);
        quietTicks := 0;
      }
      out := [Envelope(Some(m.candidate), VoteReply(term, id, granted))];
    }

    method StepVoteReply(m: Msg) returns (out: seq<Envelope>)
      requires m.VoteReply?
      modifies this
      ensures Outcome(State(), out) == OnVoteReply(old(State()), m)
    {
      out := [];
      if m.term > term {
        BecomeFollower(m.term);
      } else if role.Candidate? && m.term == term && m.granted {
        role := Candidate(role.votes + 1);
        if role.votes >= Majority(|peers|) {
          out := BecomeLeader();
        }
      }
    }

    method StepAppendEntries(m: Msg) returns (out: seq<Envelope>)
      requires m.AppendEntries?
      modifies this
      ensures Outcome(State(), out) == OnAppendEntries(old(State()), m)
    {
      if m.term > term || (m.term == term && role != Follower) {
        BecomeFollower(m.term);
      }
      if m.term < term {
        return [Envelope(Some(m.leader), AppendReply(term, id, false, 0))];
      }
      quietTicks := 0;
      leaderHint := Some(m.leader);
      var ok := m.prevIndex == 0 || (m.prevIndex - 1 < |log| && log[m.prevIndex - 1].term == m.prevTerm);
      if !ok {
        return [Envelope(Some(m.leader), AppendReply(term, id, false, 0))];
      }
      log := log[..m.prevIndex];
      log := log + m.entries;
      if m.leaderCommit > commit {
        commit := if m.leaderCommit < |log| then m.leaderCommit else |log|;
      }
      out := [Envelope(Some(m.leader), AppendReply(term, id, true, |log|))];
    }

    method StepAppendReply(m: Msg) returns (out: seq<Envelope>)
      requires m.AppendReply?
      modifies this
      ensures Outcome(State(), out) == OnAppendReply(old(State()), m)
    {
      out := [];
      if m.term > term {
        BecomeFollower(m.term);
        return;
      }
      if !role.Leader? {
        return;
      }
      if m.success {
        role := role.(nextIndex := role.nextIndex[m.from := m.matched + 1]);
        role := role.(matchIndex := role.matchIndex[m.from := m.matched]);
        AdvanceCommit();
      } else {
        var next := NextFor(State(), m.from);
        role := role.(nextIndex := role.nextIndex[m.from := if next > 1 then next - 1 else 1]);
      }
    }
  }
}
