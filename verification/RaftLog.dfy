/** Log matching under Net-A (section 5.3 of the Raft paper), in the strong form:
    any log prefix that ends in an entry of term t is a prefix of the log the
    leader of t has had. */
module RaftLog {
  import opened RaftCore
  import opened RaftCluster
  import opened RaftHistory
  import opened RaftElection

  /** The prefix of `log` up to and including index i is what the leader of that
      entry's term had there. */
  ghost predicate Covered(h: History, log: seq<LogEntry>, i: nat)
    requires i < |log|
  {
    log[i].term in h.leaderLog && i < |h.leaderLog[log[i].term]| &&
    log[..i + 1] == h.leaderLog[log[i].term][..i + 1]
  }

  ghost predicate LogCovered(h: History, log: seq<LogEntry>) {
    forall i | 0 <= i < |log| :: Covered(h, log, i)
  }

  ghost predicate LeaderLogsCovered(h: History) {
    && h.leaderLog.Keys == h.elections.Keys
    && (forall t | t in h.elections :: LogCovered(h, h.leaderLog[t]))
  }

  /** A leader starts from entries of earlier terms and adds entries of its own. */
  ghost predicate LeaderLogsGrown(h: History) {
    forall t | t in h.elections && t in h.leaderLog ::
      && h.elections[t].base <= |h.leaderLog[t]|
      && (forall i | 0 <= i < |h.leaderLog[t]| ::
            if i < h.elections[t].base then h.leaderLog[t][i].term < t else h.leaderLog[t][i].term == t)
  }

  ghost predicate LogsCovered(nodes: Nodes, h: History) {
    forall n | n in nodes :: LogCovered(h, nodes[n].log)
  }

  ghost predicate TermsBounded(n: NodeState) {
    forall i | 0 <= i < |n.log| :: n.log[i].term <= n.term
  }

  ghost predicate LogsBounded(nodes: Nodes) {
    forall n | n in nodes :: TermsBounded(nodes[n])
  }

  ghost predicate LeadersHoldTheirLog(nodes: Nodes, h: History) {
    forall n | n in nodes && nodes[n].role.Leader? ::
      nodes[n].term in h.leaderLog && nodes[n].log == h.leaderLog[nodes[n].term]
  }

  /** An append in flight carries a stretch of its leader's log. */
  ghost predicate AppendTraffic(h: History, m: Msg)
    requires m.AppendEntries?
  {
    && m.term in h.leaderLog
    && m.prevIndex + |m.entries| <= |h.leaderLog[m.term]|
    && m.entries == h.leaderLog[m.term][m.prevIndex..m.prevIndex + |m.entries|]
    && (m.prevIndex > 0 ==> m.prevTerm == h.leaderLog[m.term][m.prevIndex - 1].term)
  }

  ghost predicate AppendsCovered(net: set<Packet>, h: History) {
    forall p | p in net && p.msg.AppendEntries? :: AppendTraffic(h, p.msg)
  }

  ghost predicate LogInv(s: Cluster, h: History) {
    && LeaderLogsCovered(h)
    && LeaderLogsGrown(h)
    && LogsCovered(s.nodes, h)
    && LogsBounded(s.nodes)
    && LeadersHoldTheirLog(s.nodes, h)
    && AppendsCovered(s.net, h)
  }

  // --- consequences --------------------------------------------------------------

  /** Two covered logs that hold the same term at one index agree up to it. */
  lemma EntriesMatch(h: History, a: seq<LogEntry>, b: seq<LogEntry>, i: nat)
    requires LogCovered(h, a) && LogCovered(h, b)
    requires i < |a| && i < |b| && a[i].term == b[i].term
    ensures a[..i + 1] == b[..i + 1]
  {
    assert Covered(h, a, i) && Covered(h, b, i);
  }

  /** Terms never decrease along a covered log. */
  lemma TermsAscend(h: History, log: seq<LogEntry>, i: nat, j: nat)
    requires LogCovered(h, log) && LeaderLogsCovered(h) && LeaderLogsGrown(h)
    requires i <= j < |log|
    ensures log[i].term <= log[j].term
  {
    assert Covered(h, log, j);
    var w := log[j].term;
    assert log[i] == log[..j + 1][i] == h.leaderLog[w][..j + 1][i] == h.leaderLog[w][i];
  }

  lemma PrefixCovered(h: History, log: seq<LogEntry>, k: nat)
    requires LogCovered(h, log) && k <= |log|
    ensures LogCovered(h, log[..k])
  {
    forall i | 0 <= i < k ensures Covered(h, log[..k], i) {
      assert Covered(h, log, i);
      assert log[..k][..i + 1] == log[..i + 1];
    }
  }

  // --- growth of the leader logs ---------------------------------------------------

  ghost predicate LogsGrow(h: History, h': History) {
    forall t | t in h.leaderLog :: t in h'.leaderLog && h.leaderLog[t] <= h'.leaderLog[t]
  }

  lemma CoveredGrows(h: History, h': History, log: seq<LogEntry>)
    requires LogCovered(h, log) && LogsGrow(h, h')
    ensures LogCovered(h', log)
  {
    forall i | 0 <= i < |log| ensures Covered(h', log, i) {
      assert Covered(h, log, i);
      var w := log[i].term;
      assert h'.leaderLog[w][..i + 1] == h.leaderLog[w][..i + 1];
    }
  }

  lemma TrafficGrows(h: History, h': History, m: Msg)
    requires m.AppendEntries? && AppendTraffic(h, m) && LogsGrow(h, h')
    ensures AppendTraffic(h', m)
  {
    var a, b := h.leaderLog[m.term], h'.leaderLog[m.term];
    assert b[m.prevIndex..m.prevIndex + |m.entries|] == a[m.prevIndex..m.prevIndex + |m.entries|];
  }

  // --- steps that leave logs alone ---------------------------------------------------

  ghost predicate LogFrame(s: Cluster, h: History, s': Cluster, h': History) {
    && s'.nodes.Keys == s.nodes.Keys
    && (forall n | n in s.nodes ::
          && s'.nodes[n].log == s.nodes[n].log && s'.nodes[n].term >= s.nodes[n].term
          && (s'.nodes[n].role.Leader? ==> s.nodes[n].role.Leader? && s'.nodes[n].term == s.nodes[n].term))
    && (forall p | p in s'.net && p.msg.AppendEntries? :: p in s.net)
    && h'.elections == h.elections && h'.leaderLog == h.leaderLog
  }

  lemma LogFrameKeeps(s: Cluster, h: History, s': Cluster, h': History)
    requires LogInv(s, h) && LogFrame(s, h, s', h')
    ensures LogInv(s', h')
  {
    assert LogsGrow(h, h');
    forall n | n in s'.nodes ensures LogCovered(h', s'.nodes[n].log) {
      CoveredGrows(h, h', s.nodes[n].log);
    }
    forall t | t in h'.elections ensures LogCovered(h', h'.leaderLog[t]) {
      CoveredGrows(h, h', h.leaderLog[t]);
    }
    forall n | n in s'.nodes ensures TermsBounded(s'.nodes[n]) {
      assert TermsBounded(s.nodes[n]);
    }
  }

  // --- steps that change logs --------------------------------------------------------

  /** The term of a new leader has no entries yet. */
  lemma NewTermIsUnused(s: Cluster, h: History, n: NodeId)
    requires LogInv(s, h) && n in s.nodes && s.nodes[n].term !in h.elections
    ensures forall i | 0 <= i < |s.nodes[n].log| :: s.nodes[n].log[i].term < s.nodes[n].term
  {
    forall i | 0 <= i < |s.nodes[n].log| ensures s.nodes[n].log[i].term < s.nodes[n].term {
      assert Covered(h, s.nodes[n].log, i);
      assert TermsBounded(s.nodes[n]);
    }
  }

  lemma ElectedKeepsLog(s: Cluster, h: History, n: NodeId)
    requires LogInv(s, h) && n in s.nodes && n in h.counted && s.nodes[n].term !in h.elections
    ensures LogInv(Elected(s, n), ElectedHistory(s, h, n))
  {
    var s', h' := Elected(s, n), ElectedHistory(s, h, n);
    NewTermIsUnused(s, h, n);
    assert LogsGrow(h, h');
    LogsStayCovered(s, h, h');
    forall m | m in s'.nodes ensures LogCovered(h', s'.nodes[m].log) && TermsBounded(s'.nodes[m]) {
      assert TermsBounded(s.nodes[m]);
    }
    assert LogCovered(h', h'.leaderLog[s.nodes[n].term]);
    forall p | p in s'.net && p.msg.AppendEntries? ensures AppendTraffic(h', p.msg) {
      TrafficGrows(h, h', p.msg);
    }
  }

  lemma LogsStayCovered(s: Cluster, h: History, h': History)
    requires LogInv(s, h) && LogsGrow(h, h')
    ensures LogsCovered(s.nodes, h')
    ensures forall t | t in h.elections :: LogCovered(h', h.leaderLog[t])
  {
    forall m | m in s.nodes ensures LogCovered(h', s.nodes[m].log) {
      CoveredGrows(h, h', s.nodes[m].log);
    }
    forall t | t in h.elections ensures LogCovered(h', h.leaderLog[t]) {
      CoveredGrows(h, h', h.leaderLog[t]);
    }
  }

  lemma GrownKeepsLog(s: Cluster, h: History, n: NodeId, data: seq<bv8>)
    requires ElectInv(s, h) && LogInv(s, h) && n in s.nodes && s.nodes[n].role.Leader?
    ensures LogInv(Grown(s, n, data), GrownHistory(s, h, n, data))
  {
    hide ElectInv;
    var s', h' := Grown(s, n, data), GrownHistory(s, h, n, data);
    var t := s.nodes[n].term;
    var log := s.nodes[n].log;
    var log' := h'.leaderLog[t];
    LeaderIsElected(s, h, n);
    assert log' == log + [LogEntry(t, data)];
    assert LogsGrow(h, h');
    LogsStayCovered(s, h, h');
    assert LogCovered(h', log') by {
      forall i | 0 <= i < |log'| ensures Covered(h', log', i) {
        if i < |log| {
          assert Covered(h', log, i);
          assert log'[..i + 1] == log[..i + 1];
        }
      }
    }
    forall m | m in s'.nodes ensures LogCovered(h', s'.nodes[m].log) && TermsBounded(s'.nodes[m]) {
      assert TermsBounded(s.nodes[m]);
    }
    forall u | u in h'.elections ensures LogCovered(h', h'.leaderLog[u]) {
      if u != t { assert h'.leaderLog[u] == h.leaderLog[u]; }
    }
    forall p | p in s'.net && p.msg.AppendEntries? ensures AppendTraffic(h', p.msg) {
      TrafficGrows(h, h', p.msg);
    }
    OnlyItLeads(s, h, n);
  }

  lemma LeaderIsElected(s: Cluster, h: History, n: NodeId)
    requires ElectInv(s, h) && n in s.nodes && s.nodes[n].role.Leader?
    ensures s.nodes[n].term in h.elections && h.elections[s.nodes[n].term].leader == n
  {
  }

  lemma OnlyItLeads(s: Cluster, h: History, n: NodeId)
    requires ElectInv(s, h) && n in s.nodes && s.nodes[n].role.Leader?
    ensures forall m | m in s.nodes && s.nodes[m].role.Leader? && s.nodes[m].term == s.nodes[n].term :: m == n
  {
  }

  /** What an accepted append leaves: exactly the leader's log up to its end. */
  lemma AcceptedLog(s: Cluster, h: History, p: Packet)
    requires LogInv(s, h) && p in s.net && p.to in s.nodes
    requires p.msg.AppendEntries? && Consistent(s.nodes[p.to], p.msg)
    ensures AppendTraffic(h, p.msg)
    ensures Appended(s.nodes[p.to], p.msg).log ==
            h.leaderLog[p.msg.term][..p.msg.prevIndex + |p.msg.entries|]
  {
    var m := p.msg;
    assert AppendTraffic(h, m);
    var log, lead := s.nodes[p.to].log, h.leaderLog[m.term];
    if m.prevIndex > 0 {
      EntriesMatch(h, log, lead, m.prevIndex - 1);
    }
    assert log[..m.prevIndex] == lead[..m.prevIndex];
    assert lead[..m.prevIndex] + lead[m.prevIndex..m.prevIndex + |m.entries|] == lead[..m.prevIndex + |m.entries|];
  }

  lemma AcceptedLogCovered(s: Cluster, h: History, p: Packet)
    requires LogInv(s, h) && p in s.net && p.to in s.nodes
    requires p.msg.AppendEntries? && Consistent(s.nodes[p.to], p.msg)
    ensures LogCovered(h, Appended(s.nodes[p.to], p.msg).log)
    ensures s.nodes[p.to].term == p.msg.term ==> TermsBounded(Appended(s.nodes[p.to], p.msg))
  {
    AcceptedLog(s, h, p);
    var lead, n := h.leaderLog[p.msg.term], p.msg.prevIndex + |p.msg.entries|;
    assert LogCovered(h, lead);
    PrefixCovered(h, lead, n);
    LeaderTerms(h, p.msg.term);
  }

  lemma LeaderTerms(h: History, t: nat)
    requires LeaderLogsCovered(h) && LeaderLogsGrown(h) && t in h.leaderLog
    ensures forall i | 0 <= i < |h.leaderLog[t]| :: h.leaderLog[t][i].term <= t
  {
    assert t in h.elections;
  }

  lemma AcceptedKeepsLog(s: Cluster, h: History, p: Packet)
    requires LogInv(s, h) && p in s.net && p.to in s.nodes
    requires p.msg.AppendEntries? && Consistent(s.nodes[p.to], p.msg)
    requires s.nodes[p.to].term == p.msg.term && s.nodes[p.to].role == Follower
    ensures LogInv(Accepted(s, p), AcceptedHistory(s, h, p))
  {
    hide LeaderLogsGrown, TermsBounded, Covered, AppendTraffic, Consistent;
    var s', h' := Accepted(s, p), AcceptedHistory(s, h, p);
    AcceptedLogCovered(s, h, p);
    assert LogsGrow(h, h');
    LogsStayCovered(s, h, h');
    CoveredGrows(h, h', s'.nodes[p.to].log);
    SameLeaderLogs(h, h');
    hide LogCovered;
    forall m | m in s'.nodes ensures LogCovered(h', s'.nodes[m].log) && TermsBounded(s'.nodes[m]) {
      if m != p.to { assert s'.nodes[m] == s.nodes[m]; }
    }
    forall q | q in s'.net && q.msg.AppendEntries? ensures AppendTraffic(h', q.msg) {
      TrafficGrows(h, h', q.msg);
    }
  }

  lemma SameLeaderLogs(h: History, h': History)
    requires h'.leaderLog == h.leaderLog && h'.elections == h.elections && LeaderLogsGrown(h)
    ensures LeaderLogsGrown(h')
  {
  }

  lemma AppendForCovered(h: History, n: NodeState, peer: NodeId)
    requires n.role.Leader? && peer in n.peers && BroadcastSafe(n)
    requires n.term in h.leaderLog && n.log == h.leaderLog[n.term]
    ensures AppendTraffic(h, AppendFor(n, peer))
  {
  }

  lemma SentKeepsLog(s: Cluster, h: History, n: NodeId)
    requires LogInv(s, h) && n in s.nodes && s.nodes[n].role.Leader? && BroadcastSafe(s.nodes[n])
    ensures LogInv(Sent(s, n), h)
  {
    var x := s.nodes[n];
    hide LogsCovered, LogsBounded, LeaderLogsCovered, LeaderLogsGrown, AppendTraffic;
    forall p | p in Sent(s, n).net && p !in s.net && p.msg.AppendEntries? ensures AppendTraffic(h, p.msg) {
      StampedCopy(s.sent, AppendCopies(x), p);
      var i := p.seqNo - s.sent;
      assert x.peers[i] in x.peers;
      AppendForCovered(h, x, x.peers[i]);
    }
  }

  lemma AppendsAddressed(nodes: Nodes, h: History, n: NodeId, first: nat)
    requires Membership(nodes) && LeadersElected(nodes, h)
    requires n in nodes && nodes[n].role.Leader? && BroadcastSafe(nodes[n])
    ensures forall i | 0 <= i < |AppendCopies(nodes[n])| ::
              AppendCopies(nodes[n])[i].0 in nodes && !CarriesVote(AppendCopies(nodes[n])[i].1) &&
              VoteTraffic(nodes, h, Packet(first + i, AppendCopies(nodes[n])[i].0, AppendCopies(nodes[n])[i].1))
  {
    var x := nodes[n];
    assert GoodPeers(nodes.Keys, n, x.peers);
    forall i | 0 <= i < |AppendCopies(x)|
      ensures AppendCopies(x)[i].0 in nodes && !CarriesVote(AppendCopies(x)[i].1)
      ensures VoteTraffic(nodes, h, Packet(first + i, AppendCopies(x)[i].0, AppendCopies(x)[i].1))
    {
      assert x.peers[i] in x.peers;
    }
  }

  /** A broadcast keeps the election half as well. */
  lemma SentKeeps(s: Cluster, h: History, n: NodeId)
    requires ElectInv(s, h) && n in s.nodes && s.nodes[n].role.Leader? && BroadcastSafe(s.nodes[n])
    ensures ElectInv(Sent(s, n), h)
  {
    AppendsAddressed(s.nodes, h, n, s.sent);
    hide AppendCopies, Membership, VotesUniqueUntilElected, QuorumsLoyal, QuorumsKeepTheirVote, GrantsInThePast;
    hide AllTraffic, VotesSentOnce, NetAddressed, CountsAreVoters, VoteTraffic;
    PostKeeps(s, h, AppendCopies(s.nodes[n]));
  }
}
