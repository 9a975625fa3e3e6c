# Sigil core: verified model

A Dafny model of the parts of Sigil whose correctness is hardest to see from the code, with proofs about it:

- the Raft consensus node of `sigil-cluster` and clusters of any size running it;
- the HNSW vector index of `sigil-correlate`, against exact search;
- the campaign grouping (union-find over windowed links), the causal graph and the kill-chain beam search;
- the Sigma `condition` language (tokens, parser, evaluation, lists of conditions), the sliding-window
  correlation engine and retro-hunt;
- the tiered columnar store (catalog, local files, cold archive);
- the edit distance used to score reconstructed kill-chains.

Code that changes state in place is modelled by classes and loops proved against functions on values; what the code
is for is then proved about those functions, over all inputs, all runs or all reachable states.

`dafny verify dfyconfig.toml` checks the project.

## How the parts fit

| files | what they hold |
|---|---|
| `Options`, `Sorting`, `Subsets` | the optional value; the stable sort by an integer key; sizes of sets |
| `RaftNode` | the node as an object, and the functions its methods are proved to compute |
| `RaftCluster` | nodes plus messages in flight, the actions, the contracts Net-A, Net-G and Net-B, runs |
| `RaftHistory` | what happened so far (votes, counted votes, elections, leader logs, acknowledgements) and elementary effects |
| `RaftElection`, `RaftLog`, `RaftCommit`, `RaftCommitSteps` | the invariants and, effect by effect, that they are kept |
| `RaftSteps`, `RaftRuns` | from elementary effects to whole calls, actions and runs |
| `RaftTheorems` | the safety theorems over runs, stated about the nodes alone |
| `RaftGuards` | why Net-B implies Net-G |
| `RaftFollowers` | what is achieved: followers learn commits, logs are repaired, silent nodes stand, leaders are heard |
| `RaftLimits`, `RaftStaleReply` | runs that keep one half of Net-B, in which a theorem fails without the other half |
| `VectorCore`, `Similarity`, `HnswGraph`, `HnswSearch`, `HnswStore` | exact search; the similarity as an inner product; links and reachability; greedy and beam search; inserting, pruning and the agreement with exact search |
| `Campaign` | links, union-find, groups, candidates |
| `KillChain`, `EditDistance` | causal graph and beam search; the distance table and its metric laws |
| `ConditionParser`, `ConditionGrammar`, `ConditionWords`, `ConditionEval`, `ConditionLists`, `ConditionTexts` | the parser object; the grammar on its own; text to tokens; meaning, and why a list means `or`; when joining a list hides a fault; from written words to a rule's verdict |
| `Correlation`, `CorrelationHistory`, `CorrelationGroups`, `RetroHunt` | the engine; its windows against unbounded history; groups and counts in the events' own terms; replay |
| `TieredStore`, `TieredHistory`, `TieredTidy`, `TieredLimits` | the store; what it conserves over runs; that nothing is left behind; reused ids, and reads while a migration goes on |

## Raft: which contract each theorem needs

The node follows Figure 2 of the Raft paper (Ongaro and Ousterhout, extended version) except in four places, and the
model follows the code:

- stepping down within a term clears the vote, so a node may vote twice in one term;
- a candidate counts granted replies without looking at the sender;
- a follower cuts its log at the previous index unconditionally;
- an append reply of an older term is processed by a leader of a newer one.

Three predicates on a step describe what may be delivered. **Net-A**: messages may be lost and may overtake each other,
but a copy is delivered at most once. **Net-G**: Net-A, and moreover two guards that the receiver of a message can check
before it handles it: no node takes over an append that drops an entry of the append's own term, and no leader counts an
acknowledgement of an older term for an entry of its own term or past its log. **Net-B**: Net-A, and moreover the
appends of one leader to one follower within one term arrive in the order they were sent (with loss), and a node that
leads never receives an append reply of an older term. Net-B speaks of the network alone; it implies Net-G
(`NetBIsGuarded`), so every theorem under Net-G holds under Net-B.

| theorem | contract |
|---|---|
| `ElectionSafety`, `LogMatching`, `PrefixOfItsLeader` | Net-A |
| `IndexesWithFairCounts` | Net-A and the guard on replies |
| `LeaderCompleteness`, `StateMachineSafety`, `CommitStability`, `IndexSafety` | Net-G |

Net-B has two halves, one for each guard of Net-G, and for committed logs neither is enough alone.
`OvertakingBreaksSafety` gives a run without stale replies, and `StaleReplyBreaksSafety` a run with in-order appends,
that each end with two committed logs that disagree. `StaleReplyBreaksIndexing` gives a run with in-order appends that
ends with a leader whose next broadcast would panic.

For the indexes the conditions are exact. Over a Net-A run

- the leaders' next indexes stay in range if and only if no leader is delivered an acknowledgement reaching past its
  log (`IndexesInRangeExactly`), which no run under the guard on replies does (`IndexesWithFairCounts`);
- commit indexes stay within the logs if and only if no node takes over an append that ends below its commit index
  and carries no higher one (`CommitsInRangeExactly`);
- commit indexes never fall if and only if no node takes over an append that ends below its commit index and carries a
  higher one (`CommitsRiseExactly`).

A node lives in memory only, so a run has no restarts. A call that would panic is not a step of a run; `IndexSafety`
shows that under Net-G no call does.

## Model

| member | source | states |
|---|---|---|
| RaftCore.RaftNode.constructor | crates/sigil-cluster/src/raft.rs:103-123 | a fresh follower of term 0 with an empty log; the hashed election timeout is a parameter between 10 and 19 |
| RaftCore.RaftNode.BecomeFollower | crates/sigil-cluster/src/raft.rs:164-169 | also within a term the vote is forgotten |
| RaftCore.RaftNode.Tick | crates/sigil-cluster/src/raft.rs:173-186 | a leader heartbeats, any other node stands for election after its timeout; the whole new state and everything sent |
| RaftCore.RaftNode.StartElection | crates/sigil-cluster/src/raft.rs:188-206 | next term, own vote, one request to all peers; a node without peers leads at once |
| RaftCore.RaftNode.BecomeLeader | crates/sigil-cluster/src/raft.rs:208-219 | every peer starts right after the log's end with nothing acknowledged |
| RaftCore.RaftNode.Propose | crates/sigil-cluster/src/raft.rs:221-237 | only a leader accepts, and then appends, tries to commit and broadcasts; otherwise nothing changes |
| RaftCore.RaftNode.BroadcastAppends | crates/sigil-cluster/src/raft.rs:239-265 | each peer gets the whole suffix from its next index, with the entry before it identified |
| RaftCore.RaftNode.AdvanceCommit | crates/sigil-cluster/src/raft.rs:267-285 | the commit index becomes the highest current-term index a majority holds, or stays |
| RaftCore.HighestCommit | crates/sigil-cluster/src/raft.rs:267-285 | the result satisfies the commit rule and no higher index does |
| RaftCore.RaftNode.Step | crates/sigil-cluster/src/raft.rs:287-430 | each message kind has its own effect and replies |
| RaftCore.RaftNode.StepRequestVote | crates/sigil-cluster/src/raft.rs:289-319 | grants only in its term, to an up-to-date log, if the vote is free or already that candidate's |
| RaftCore.RaftNode.StepVoteReply | crates/sigil-cluster/src/raft.rs:321-336 | a candidate counts a granted reply of its term, and leads at a majority |
| RaftCore.RaftNode.StepAppendEntries | crates/sigil-cluster/src/raft.rs:338-397 | rejects older terms and inconsistent logs; otherwise cuts, appends, raises commit and acknowledges its length |
| RaftCore.RaftNode.StepAppendReply | crates/sigil-cluster/src/raft.rs:399-426 | an acknowledgement moves the peer's indexes and may commit; a refusal backs off by one, not below one |
| RaftElection.FirstOfItsTerm | crates/sigil-cluster/src/raft.rs:321-336 | a candidate at a majority of counted replies is the first to lead its term |
| RaftElection.DemotedKeeps | crates/sigil-cluster/src/raft.rs:338-350 | clearing the vote within a term keeps the election invariant, because the append shows the term has a leader whose quorum the node is not in |
| RaftElection.ElectedKeeps | crates/sigil-cluster/src/raft.rs:208-219 | becoming leader keeps the election invariant |
| RaftElection.CountedKeeps | crates/sigil-cluster/src/raft.rs:321-336 | counting without looking at the sender counts distinct voters, as no copy arrives twice |
| RaftLog.EntriesMatch | crates/sigil-cluster/src/raft.rs:338-397 | two covered logs with one term at one index agree up to it |
| RaftLog.AcceptedLog | crates/sigil-cluster/src/raft.rs:382-387 | after an accepted append the log is exactly the sender's log up to the append's end, whatever was cut |
| RaftCommitSteps.CommittedStays | crates/sigil-cluster/src/raft.rs:382-387 | unconditional cutting never removes a committed entry when the append reaches what the node acknowledged in its term |
| RaftCommitSteps.AckReaches | crates/sigil-cluster/src/raft.rs:382-387 | an append that drops no entry of its own term reaches all the node acknowledged in that term |
| RaftCommitSteps.CommittableIsChosen | crates/sigil-cluster/src/raft.rs:267-285 | an index that passes the commit rule is held by a quorum and kept by every later leader |
| RaftCommit.ChosenLives | crates/sigil-cluster/src/raft.rs:267-319 | a chosen prefix is in the log of every later leader, as no later quorum can have missed it |
| RaftRuns.ActionKeeps | crates/sigil-cluster/src/raft.rs:173-430 | every tick, proposal, delivery and loss keeps all invariants |
| RaftTheorems.ElectionSafety | crates/sigil-cluster/src/raft.rs:159-169 | Net-A: over a whole run at most one node ever leads a term, for any cluster size (section 5.2) |
| RaftTheorems.LogMatching | crates/sigil-cluster/src/raft.rs:365-387 | Net-A: logs of any two nodes at any two moments with one term at one index are identical up to it (section 5.3) |
| RaftTheorems.PrefixOfItsLeader | crates/sigil-cluster/src/raft.rs:221-265 | Net-A: a log prefix ending in term t is, then and at any later moment, a prefix of the log of whoever leads t |
| RaftTheorems.LeaderCompleteness | crates/sigil-cluster/src/raft.rs:267-319 | Net-G: what a node ever regards as committed is in the log of every leader of a later term (section 5.4) |
| RaftTheorems.StateMachineSafety | crates/sigil-cluster/src/raft.rs:147-149 | Net-G: committed sequences of any two nodes at any two moments: one is a prefix of the other (section 5.4.3) |
| RaftTheorems.CommitStability | crates/sigil-cluster/src/raft.rs:147-149 | Net-G: a node's committed sequence only grows by extension |
| RaftTheorems.IndexSafety | crates/sigil-cluster/src/raft.rs:239-285 | Net-G: commit never exceeds the log and every next index stays within one past the log, so no call panics |
| RaftTheorems.ReplyKeepsIndexesExactly | crates/sigil-cluster/src/raft.rs:399-426 | Net-A: after a reply to a node that stays leader its next indexes are in range exactly when the reply is a refusal or acknowledges no more than its log |
| RaftTheorems.IndexesInRangeExactly | crates/sigil-cluster/src/raft.rs:239-265 | Net-A: all next indexes stay in range over a run exactly when no leader is delivered an acknowledgement reaching past its log |
| RaftTheorems.IndexesWithFairCounts | crates/sigil-cluster/src/raft.rs:399-426 | Net-A without counting stale acknowledgements for own entries: all next indexes stay in range, in whatever order appends arrive |
| RaftTheorems.IndexesWithoutStaleReplies | crates/sigil-cluster/src/raft.rs:399-426 | Net-A without stale replies: all next indexes stay in range, in whatever order appends arrive |
| RaftTheorems.TakenAppendExactly | crates/sigil-cluster/src/raft.rs:382-396 | after an append taken over the commit index is within the log exactly when the append ends no lower or carries a higher one, and has not fallen exactly when it ends no lower or carries no higher one |
| RaftTheorems.CommitsInRangeExactly | crates/sigil-cluster/src/raft.rs:147-149 | Net-A: all commit indexes stay within the logs over a run exactly when no append taken over ends below a commit index it does not move |
| RaftTheorems.CommitsRiseExactly | crates/sigil-cluster/src/raft.rs:382-396 | Net-A: no commit index falls over a run exactly when no append taken over ends below a commit index it moves |
| RaftGuards.InOrderDropsNothing | crates/sigil-cluster/src/raft.rs:382-387 | Net-A with appends in order: no node ever drops an entry of an append's own term |
| RaftGuards.NetBIsGuarded | crates/sigil-cluster/src/raft.rs:338-426 | every Net-B run is a Net-G run |
| RaftFollowers.FollowersLearnCommits | crates/sigil-cluster/src/raft.rs:382-396 | Net-G: a node that takes over an append has then committed at least as much as the append tells and reaches, and all the leader had committed when it sent it |
| RaftFollowers.LogsAreRepaired | crates/sigil-cluster/src/raft.rs:239-265 | after as many undisturbed rounds of append and reply as the leader's next index counts, a peer's log is the leader's and it has committed what the leader had, however far it had strayed |
| RaftFollowers.OneRoundExactly | crates/sigil-cluster/src/raft.rs:363-396 | one round of append and reply is enough exactly when the peer agrees with the leader on all that comes before what it is sent |
| RaftFollowers.SilentNodeStands | crates/sigil-cluster/src/raft.rs:173-206 | a node that hears nothing keeps still until its timeout and then stands for the next term, asking every peer; without peers it leads |
| RaftFollowers.LeaderIsHeard | crates/sigil-cluster/src/raft.rs:173-186 | each time its heartbeat interval has passed a leader sends every peer its log from some index on, and its commit index |
| RaftFollowers.RepeatedRequest | crates/sigil-cluster/src/raft.rs:289-319 | a repeated vote request gets the same answer and changes nothing more |
| RaftFollowers.NoSecondVote | crates/sigil-cluster/src/raft.rs:289-319 | while it keeps its vote a node grants no other candidate of the term |
| RaftFollowers.WinnerAnnounces | crates/sigil-cluster/src/raft.rs:208-219 | a candidate leads exactly when its votes are more than half of the cluster, and then announces itself to every peer from the end of its log |
| RaftFollowers.HeartbeatQuiets | crates/sigil-cluster/src/raft.rs:338-362 | an append of its term makes a node a quiet follower that knows its leader |
| RaftLimits.OvertakingBreaksSafety | crates/sigil-cluster/src/raft.rs:382-387 | for any three nodes some Net-A run without stale replies ends with two committed sequences of which neither is a prefix of the other |
| RaftLimits.StaleReplyBreaksIndexing | crates/sigil-cluster/src/raft.rs:399-426 | for any five nodes some Net-A run with in-order appends ends with a leader whose next index is past its log |
| RaftStaleReply.StaleReplyBreaksSafety | crates/sigil-cluster/src/raft.rs:399-426 | for any five nodes some Net-A run with in-order appends ends with two committed sequences of which neither is a prefix of the other |
| VectorCore.FlatVectorStore.Knn | crates/sigil-correlate/src/vector.rs:39-48 | everything scored, sorted best first, cut to k |
| VectorCore.ExactIsBest | crates/sigil-correlate/src/vector.rs:39-48 | exact search returns the k best: nothing lost or invented, nothing cut off beats anything returned |
| VectorCore.SortIsStable | crates/sigil-correlate/src/vector.rs:45 | equally similar items keep their order |
| Similarity.DotIsInner | crates/sigil-correlate/src/vector.rs:55-57 | the similarity is symmetric and linear in each argument, and along an axis it is the component |
| Similarity.CauchySchwarz | crates/sigil-correlate/src/vector.rs:55-57 | the square of a similarity is at most the product of the vectors' own |
| Similarity.OnlyItself | crates/sigil-correlate/src/vector.rs:55-57 | unit vectors are as similar as 1 exactly when they are the same |
| Similarity.SelfComesFirst | crates/sigil-correlate/src/vector.rs:39-48 | in a store of unit vectors, searching for a stored one gives a first hit of similarity 1 with that vector, and no hit above 1 |
| Similarity.EachFindsItself | crates/sigil-correlate/src/vector.rs:39-48 | items with vectors of their own are each their own nearest neighbour |
| HnswSearch.GreedyStep | crates/sigil-correlate/src/vector.rs:122-139 | terminates on any graph, at a reachable node no worse than the start and no worse than its neighbours |
| HnswSearch.SearchLayer | crates/sigil-correlate/src/vector.rs:141-185 | for any graph and width: distinct reachable nodes, best first, the most similar of all visited; all reachable ones if fewer than the width; otherwise no unreturned neighbour beats the worst returned |
| HnswStore.HnswVectorStore.constructor | crates/sigil-correlate/src/vector.rs:92-100 | the parameters are raised to their minimum |
| HnswStore.HnswVectorStore.Prune | crates/sigil-correlate/src/vector.rs:199-212 | only the one list changes, to its pruned form |
| HnswStore.PruneKeepsBest | crates/sigil-correlate/src/vector.rs:187-212 | pruning keeps exactly the capacity, distinct, and drops nothing more similar than what it keeps |
| HnswStore.HnswVectorStore.Connect | crates/sigil-correlate/src/vector.rs:187-197 | the node's list grows by the targets and each target's by the node, all pruned; nothing else changes |
| HnswStore.ConnectedSound | crates/sigil-correlate/src/vector.rs:187-212 | connecting keeps every link on its layer, without self links or repeats, within capacity |
| HnswStore.GraftedWhole | crates/sigil-correlate/src/vector.rs:236-243 | while nothing is pruned, an insert keeps layer 0 symmetric and connected |
| HnswStore.HnswVectorStore.Add | crates/sigil-correlate/src/vector.rs:216-248 | for any sampled layer: appends exactly the item, connects it layer by layer to the most similar nodes a beam search finds, keeps the shape of the graph and the entry on the top layer, and keeps layer 0 whole while no list can overflow |
| HnswStore.LinksTheBest | crates/sigil-correlate/src/vector.rs:236-243 | on each layer it enters a new node is linked to the most similar nodes found, best first, as many as were found up to m, or 2m on layer 0 |
| HnswStore.DegreesBounded | crates/sigil-correlate/src/vector.rs:114-120 | no node has more than m links on a layer, or 2m on layer 0 |
| HnswStore.HnswVectorStore.Knn | crates/sigil-correlate/src/vector.rs:250-264 | in a store of at most 2m+1 items searched at least that wide: the same similarities as exact search, and the same hits when similarities differ |
| HnswStore.WholeIsExact | crates/sigil-correlate/src/vector.rs:302-314 | a wide enough beam over a whole layer 0 shows what exact search shows |
| Campaign.LinkBook.Record | crates/sigil-correlate/src/campaign.rs:86-102 | ignores self links and pairs outside the window; keeps the best similarity per pair |
| Campaign.RecordedExactly | crates/sigil-correlate/src/campaign.rs:86-102 | whatever the order of requests, a pair is linked exactly when some request for it was within the window, with the largest requested similarity |
| Campaign.LinkedExactly | crates/sigil-correlate/src/campaign.rs:86-102 | two events are linked exactly when some request named both and their times differ by no more than the window |
| Campaign.BestIsRequested | crates/sigil-correlate/src/campaign.rs:86-102 | a link's similarity is that of some request for it, and no request was higher |
| Campaign.Dsu.Find | crates/sigil-correlate/src/campaign.rs:222-234 | returns the representative; shortening paths changes no class |
| Campaign.Dsu.Union | crates/sigil-correlate/src/campaign.rs:235-240 | joins exactly the two classes |
| Campaign.OneMoreLink | crates/sigil-correlate/src/campaign.rs:130-134 | one more link joins exactly what it bridges |
| Campaign.Groups | crates/sigil-correlate/src/campaign.rs:130-138 | in whatever order links are unioned, the groups are the connected components, each listed in order |
| Campaign.GroupHops | crates/sigil-correlate/src/campaign.rs:88-138 | two members of a group are joined inside it by hops that each fit the window |
| Campaign.LinkInOneGroup | crates/sigil-correlate/src/campaign.rs:130-160 | every link lies in exactly one group, of at least two members |
| Campaign.Candidates | crates/sigil-correlate/src/campaign.rs:141-181 | exactly the groups that pass the size and cross-domain filters, each once |
| Campaign.CandidatesExactly | crates/sigil-correlate/src/campaign.rs:141-153 | a group becomes a candidate exactly when it has two members and, with the filter, two of different classes; it names exactly its members' classes |
| Campaign.LinksConserved | crates/sigil-correlate/src/campaign.rs:154-160 | without the cross-domain filter the candidates' link counts add up to the number of links |
| Campaign.BuildCampaigns | crates/sigil-correlate/src/campaign.rs:86-188 | from link requests to candidates of exact groups |
| KillChain.BuildCausalGraph | crates/sigil-correlate/src/causal.rs:47-90 | nodes in time order; one edge for exactly the earlier and later pairs within the window that share an entity |
| Sorting.SortByIsStable | crates/sigil-correlate/src/causal.rs:47-48 | events of one time keep their order |
| KillChain.LinkedExactly | crates/sigil-correlate/src/causal.rs:68-77 | an earlier event is linked to a later one, once, exactly when it follows within the window and some entity occurs in both |
| KillChain.EdgeScoreExactly | crates/sigil-correlate/src/causal.rs:78-79 | a base, a quarter for nearness and three tenths of the later event's anomaly, up to 1; the earlier one's anomaly does not count |
| KillChain.TemporalExactly | crates/sigil-correlate/src/causal.rs:161-164 | nearness is 1 at once and a half after a minute |
| KillChain.ChainsAreTimeOrdered | crates/sigil-correlate/src/causal.rs:68-90 | on such a graph every chain goes forward in time |
| KillChain.ChainsShareEntities | crates/sigil-correlate/src/causal.rs:68-77 | next to each other on a chain, the later event follows within the window and names an entity of the earlier one |
| KillChain.ChainScore | crates/sigil-correlate/src/pathselect.rs:45-49 | a chain of a built graph scores its edges plus a tenth of its events' anomalies |
| KillChain.ChainIsPath | crates/sigil-correlate/src/pathselect.rs:66-77 | a chain is a simple path along edges with exactly their scores and its nodes' bonuses |
| KillChain.PathIsChain | crates/sigil-correlate/src/pathselect.rs:66-77 | every simple path along edges is a chain |
| KillChain.Round | crates/sigil-correlate/src/pathselect.rs:66-78 | all one-step continuations of the beam that visit no node twice |
| KillChain.Improve | crates/sigil-correlate/src/pathselect.rs:82-86 | the best of all candidates, and the old best on a tie |
| KillChain.BeamKeepsBest | crates/sigil-correlate/src/pathselect.rs:87-89 | each round keeps as many candidates as the width allows, best first, and drops none better |
| KillChain.BeamSearch | crates/sigil-correlate/src/pathselect.rs:51-96 | terminates within as many rounds as nodes, with a chain no worse than anything looked at, and the best of all chains when no round is cut |
| EditDistance.SequenceEditDistance | crates/sigil-eval/src/metrics.rs:133-152 | the table's last cell is the distance |
| EditDistance.LeastEdits | crates/sigil-eval/src/metrics.rs:133-152 | the distance is the least number of insertions, deletions and substitutions turning one sequence into the other |
| EditDistance.ZeroIffEqual | crates/sigil-eval/src/metrics.rs:133-152 | zero exactly for equal sequences |
| EditDistance.Symmetric | crates/sigil-eval/src/metrics.rs:133-152 | the same both ways |
| EditDistance.Triangle | crates/sigil-eval/src/metrics.rs:133-152 | a detour is never shorter |
| EditDistance.Bounds | crates/sigil-eval/src/metrics.rs:154-161 | at most the longer length, at least the difference |
| EditDistance.NormalizedChainSimilarity | crates/sigil-eval/src/metrics.rs:154-161 | between 0 and 1, and 1 exactly for equal chains |
| ConditionWords.Tokenize | crates/sigil-sigma/src/condition.rs:27-55 | the classified words of the spaced text; none is an error |
| ConditionWords.ToksInParens | crates/sigil-sigma/src/condition.rs:27-55 | a text in parentheses has its own tokens between them |
| ConditionParser.Parser.ParseOr | crates/sigil-sigma/src/condition.rs:100-108 | result, fault and position as the specification gives on the tokens ahead |
| ConditionParser.Parser.ParseAnd | crates/sigil-sigma/src/condition.rs:110-118 | the same for conjuncts |
| ConditionParser.Parser.ParseNot | crates/sigil-sigma/src/condition.rs:120-126 | the same for negation |
| ConditionParser.Parser.ParsePrimary | crates/sigil-sigma/src/condition.rs:128-152 | the same for names, quantifiers and parentheses |
| ConditionParser.Parser.ParseTarget | crates/sigil-sigma/src/condition.rs:154-162 | `them`, a name, or a fault naming what was found |
| ConditionParser.ParseTokens | crates/sigil-sigma/src/condition.rs:165-176 | leftover tokens are a fault |
| ConditionWords.Parse | crates/sigil-sigma/src/condition.rs:165-176 | the text's tokens parsed as a whole; a text without tokens is an error |
| ConditionWords.TextIsPhrase | crates/sigil-sigma/src/condition.rs:165-176 | a text is a condition exactly when its tokens are a phrase of the grammar |
| ConditionGrammar.ParsesExactlyTheGrammar | crates/sigil-sigma/src/condition.rs:100-176 | the parser accepts exactly the grammar (not over and over or, grouped left) and returns its tree |
| ConditionGrammar.RefusedHasNoTree | crates/sigil-sigma/src/condition.rs:100-176 | a refused token list is outside the grammar, and only then |
| ConditionGrammar.OneTree | crates/sigil-sigma/src/condition.rs:100-162 | no token list has two trees |
| ConditionGrammar.PrimaryComplete | crates/sigil-sigma/src/condition.rs:128-152 | reading a phrase in parentheses is not affected by what follows its closing one |
| ConditionGrammar.PrintThenParse | crates/sigil-sigma/src/condition.rs:57-68 | every expression can be written, with parentheses only where needed, and parses back to itself |
| ConditionTexts.WrittenThenParsed | crates/sigil-sigma/src/condition.rs:27-176 | every expression, written in words in any letter case and with any white space, is read back |
| ConditionTexts.CanBeWritten | crates/sigil-sigma/src/condition.rs:27-176 | every expression over names, with counts of 64 bits, can be written so |
| ConditionTexts.WhiteSpace | crates/sigil-sigma/src/condition.rs:27-55 | tabs, line breaks and wide spaces set words off; letters, digits and the marks of names do not |
| ConditionTexts.LargeNumbersAreNames | crates/sigil-sigma/src/condition.rs:27-55 | a number beyond 64 bits is read as a name |
| ConditionTexts.NothingWritten | crates/sigil-sigma/src/condition.rs:27-55 | a text without words is a fault of its own |
| ConditionTexts.UnexpectedStart | crates/sigil-sigma/src/condition.rs:128-152 | a condition that starts with none of its first words is refused, naming the word |
| ConditionTexts.MoreThanOne | crates/sigil-sigma/src/condition.rs:165-176 | a whole condition followed by more is refused as such |
| ConditionTexts.Unclosed | crates/sigil-sigma/src/condition.rs:128-135 | a parenthesis not closed after its condition is refused as such |
| ConditionTexts.UnfinishedCount | crates/sigil-sigma/src/condition.rs:136-162 | a count without `of`, or with nothing to count, is refused as such |
| ConditionEval.QuantifierMeaning | crates/sigil-sigma/src/condition.rs:178-213 | `N of` means at least N picked selections hold; `all of` means some is picked and all picked hold |
| ConditionTexts.PatternPicks | crates/sigil-sigma/src/condition.rs:178-191 | a pattern ending in a star picks the names that start so, any other only itself |
| ConditionTexts.QuantifiersMean | crates/sigil-sigma/src/condition.rs:193-213 | a rule written `N of` or `all of` matches as the number of its selections that the event satisfies says |
| ConditionTexts.Complement | crates/sigil-sigma/src/condition.rs:193-213 | exactly one of a condition and its negation holds |
| ConditionTexts.DeMorgan | crates/sigil-sigma/src/condition.rs:193-213 | negation exchanges `and` and `or` |
| ConditionTexts.NameMeans | crates/sigil-sigma/src/engine.rs:82-90 | a rule whose condition is a name matches exactly when its selection of that name does |
| ConditionTexts.ConnectivesMean | crates/sigil-sigma/src/engine.rs:82-90 | rules written `(s) and (t)`, `(s) or (t)` and `not (s)` match as the rules with s and with t say |
| ConditionEval.NameOrderIsIrrelevant | crates/sigil-sigma/src/condition.rs:193-213 | the order of selection names never changes the outcome |
| ConditionEval.ListMeansOr | crates/sigil-sigma/src/engine.rs:258-280 | if each listed condition parses, the joined text parses and means that one of them holds |
| ConditionLists.JoinedParsesExactly | crates/sigil-sigma/src/engine.rs:258-280 | for a list with some text: each text parses on its own exactly when the joined text parses and the parentheses of each text are balanced |
| ConditionEval.JoiningHidesFaults | crates/sigil-sigma/src/engine.rs:258-280 | a text that does not parse, its parentheses being unbalanced, is accepted once joined |
| ConditionLists.OrBalanced | crates/sigil-sigma/src/condition.rs:100-162 | in every phrase each parenthesis is closed and none is closed before it is opened |
| ConditionLists.LastPart | crates/sigil-sigma/src/engine.rs:265-272 | a phrase whose last alternative is a balanced text in parentheses splits just there, into two phrases |
| ConditionEval.ListRuleMatchesAny | crates/sigil-sigma/src/engine.rs:82-90 | a rule with a list of conditions matches an event exactly when a rule with one of them does |
| Correlation.InOrder | crates/sigil-sigma/src/correlation.rs:352-362 | one greedy pass answers whether the rules embed in the window in order |
| Correlation.Evaluate | crates/sigil-sigma/src/correlation.rs:339-364 | the aggregate condition of each kind |
| Correlation.CorrelationEngine.constructor | crates/sigil-sigma/src/correlation.rs:237-249 | one empty set of windows per rule |
| Correlation.CorrelationEngine.IsSuppressed | crates/sigil-sigma/src/correlation.rs:259-263 | true exactly when some rule without `generate` refers to the base rule |
| Correlation.CorrelationEngine.Apply | crates/sigil-sigma/src/correlation.rs:290-334 | one rule's part of an event: windows and alert |
| Correlation.CorrelationEngine.Process | crates/sigil-sigma/src/correlation.rs:286-336 | all rules in order, each on its own windows |
| CorrelationHistory.WindowsRefineHistory | crates/sigil-sigma/src/correlation.rs:298-333 | while time does not go backwards, the engine fires at an event exactly what the unbounded history of its group since the last firing says |
| CorrelationHistory.AlertNamesItsEvent | crates/sigil-sigma/src/correlation.rs:323-332 | an alert is raised only on a match of the present event and ends with that event |
| CorrelationHistory.NeverOverdue | crates/sigil-sigma/src/correlation.rs:317-333 | every non-empty stored window fails its own rule |
| CorrelationHistory.GroupsAreIsolated | crates/sigil-sigma/src/correlation.rs:203-213 | a rule's alerts for a group are those from feeding only that group's events |
| CorrelationGroups.SameValuesSameKey | crates/sigil-sigma/src/correlation.rs:203-213 | events with the same values for every group-by field, in whatever order, share a group |
| CorrelationGroups.GroupKeyExactly | crates/sigil-sigma/src/correlation.rs:203-213 | with values that are not empty and contain no separator, two events share a group exactly when they have the same values for every group-by field |
| CorrelationGroups.OneValueEach | crates/sigil-sigma/src/correlation.rs:203-213 | with one value per field, two events share a group exactly when the values are the same |
| CorrelationGroups.SeparatorsCollide | crates/sigil-sigma/src/correlation.rs:203-213 | one value with a comma shares a group with two values |
| CorrelationGroups.ValuesIsolate | crates/sigil-sigma/src/correlation.rs:203-213 | events that differ in some group-by field do not change a group's alerts |
| CorrelationGroups.LooksAtAll | crates/sigil-sigma/src/correlation.rs:298-333 | until it fires, a rule looks at all matches of a burst of its group within the time span |
| CorrelationGroups.BoundsMean | crates/sigil-sigma/src/correlation.rs:99-105 | the bounds of a count say what they are called, and hold together when each does |
| CorrelationGroups.FiresAtTheNth | crates/sigil-sigma/src/correlation.rs:339-341 | a rule that counts to n fires exactly at the n-th match of a burst and names the events in order |
| CorrelationGroups.FiresAtTheNthValue | crates/sigil-sigma/src/correlation.rs:342-346 | a rule that counts n different values fires exactly when the burst has shown n |
| CorrelationGroups.FiresWhenAllSeen | crates/sigil-sigma/src/correlation.rs:347-350 | a temporal rule fires exactly when all rules it refers to have matched in the burst |
| RetroHunt.Hunt | crates/sigil-sigma/src/hunt.rs:36-58 | replay in time order through both engines, withholding suppressed base alerts |
| RetroHunt.HuntIgnoresInputOrder | crates/sigil-sigma/src/hunt.rs:36-58 | the same outcome and windows for every order of events with non-zero times, if events at one time are equal |
| RetroHunt.OrderIrrelevantExactly | crates/sigil-sigma/src/hunt.rs:36-58 | for events with non-zero times: outcome and windows are the same for every order, detection, rule list and clock exactly when any two events at one time are equal |
| RetroHunt.HuntRefinesHistory | crates/sigil-sigma/src/hunt.rs:36-58 | the hunt's correlation alerts are, event by event and in rule order, exactly those the unbounded history of each rule gives |
| RetroHunt.HuntWithholdsExactly | crates/sigil-sigma/src/hunt.rs:48-55 | each base alert comes out as often as it was raised, unless some rule without `generate` refers to its rule: then never |
| RetroHunt.HuntScansAll | crates/sigil-sigma/src/hunt.rs:42-46 | every event supplied is scanned once |
| RetroHunt.TiesMatter | crates/sigil-sigma/src/hunt.rs:42 | for any two different events at one time the input order decides whether an ordered rule fires |
| TieredStore.Catalog.Migrate | crates/sigil-index/src/catalog.rs:110-120 | repoints the first segment with the id; false exactly for an unknown id |
| TieredStore.Catalog.Remove | crates/sigil-index/src/catalog.rs:122-138 | removes exactly the listed segments and their local files, and counts them |
| TieredStore.ColumnarStore.WriteSegment | crates/sigil-index/src/store.rs:55-70 | a new warm segment with its bounds, or nothing for no events |
| TieredStore.ColumnarStore.ReadRange | crates/sigil-index/src/store.rs:77-99 | the in-range events of the overlapping segments, from wherever each lives; a missing file is an error |
| TieredStore.ColumnarStore.MigrateWarm | crates/sigil-index/src/store.rs:101-133 | moves the aged warm segments one by one, stopping at an unreadable one; without an archive nothing |
| TieredStore.ColumnarStore.EnforceRetention | crates/sigil-index/src/store.rs:135-151 | drops exactly the expired segments, their archived objects and their local files |
| TieredHistory.ReadIsExact | crates/sigil-index/src/catalog.rs:91-98 | pruning by the catalog loses nothing: reading returns the stored in-range events in write order |
| TieredHistory.MoveKeepsEveryAnswer | crates/sigil-index/src/store.rs:118-131 | after each single step of moving a segment every range reads the same |
| TieredHistory.MigrationStores | crates/sigil-index/src/store.rs:101-133 | a whole migration succeeds and keeps what is stored |
| TieredHistory.RetentionStores | crates/sigil-index/src/store.rs:135-151 | retention keeps exactly the surviving segments readable |
| TieredHistory.RetentionKeepsYoung | crates/sigil-index/src/catalog.rs:100-108 | a segment survives exactly when it holds an event within the age limit |
| TieredHistory.TieringConserves | crates/sigil-index/src/store.rs:55-151 | from any stored state, over any run of writes that may use their ids, migrations and retention, reading returns exactly the in-range events of the surviving segments in write order |
| TieredTidy.NoOrphans | crates/sigil-index/src/store.rs:55-151 | from an empty store, over every such run: a local file exists exactly where some catalogued warm segment lives, and an archived object exactly where some catalogued cold one does |
| TieredTidy.AllExpiredLeavesNothing | crates/sigil-index/src/store.rs:135-151 | once everything has expired, retention leaves no entry, no local file and no archived object |
| TieredLimits.ConservesExactly | crates/sigil-index/src/store.rs:55-179 | onto any stored state: a write keeps every answer right over all later runs if and only if its id is fresh or, with no archive attached, whatever is stored under it holds the same events |
| TieredLimits.ConservesThroughoutExactly | crates/sigil-index/src/store.rs:55-179 | for any sequence of writes, migrations and retention: the store stays good for every continuation if and only if each write's id may be used at its time |
| TieredLimits.ReusedIdIsLost | crates/sigil-index/src/store.rs:101-133 | with an archive, once a segment written under a taken id is migrated its range cannot be read |
| TieredLimits.ReusedColdIdLosesData | crates/sigil-index/src/store.rs:101-133 | a segment written under the id of an archived one reads right until it is migrated too, and is then lost |
| TieredLimits.WriteAddsExactly | crates/sigil-index/src/store.rs:55-179 | onto any stored state: right after a write every range reads its events too if and only if each stored warm segment with its id holds exactly those events |
| TieredLimits.ReusedIdLosesData | crates/sigil-index/src/store.rs:176-179 | two writes under one id, as the clock-based id allows, lose the first one's events |
| TieredLimits.InterleavedReadExactly | crates/sigil-index/src/store.rs:77-133 | a read whose fetches happen at whatever steps of a migration is right exactly when no segment it listed was unlinked before its own fetch |
| TieredLimits.SnapshotReadExactly | crates/sigil-index/src/store.rs:77-133 | when all fetches come after the move of some warm segments: right exactly when none of them overlaps the range |
| TieredLimits.SnapshotReadOne | crates/sigil-index/src/store.rs:77-133 | the same when one segment was moved before the fetches |
| TieredLimits.SnapshotReadOverMigration | crates/sigil-index/src/store.rs:77-133 | the same when a whole migration came before the fetches: right exactly when no aged warm segment overlaps the range |
| TieredLimits.StaleSnapshotFails | crates/sigil-index/src/store.rs:80-97 | a reader that listed segments before one moved finds its file gone |

## Left out

- Raft commit safety without Net-G: the code does not give it, as `OvertakingBreaksSafety` shows for appends out of order and `StaleReplyBreaksSafety` for replies of older terms. The guards of Net-G are sufficient; no condition exact for a single run is given, as a dropped entry or a stale count does harm only if the rest of the run makes use of it.
- Raft liveness: whether a leader is ever elected rests on how timeouts and delays fall out.
- Raft membership change, snapshots and recovery after a restart: Sigil's node has none of them.
- The driver, the buses, topics, tokio tasks and serialization around the node: only their at-most-once delivery enters, as Net-A; that a broadcast reaches every peer but not its sender stands for the driver ignoring its own copies.
- The election timeout hash and the layer-sampling hash: any timeout in range, any layer.
- Integer widths: terms, indexes, ticks and timestamps are unbounded; wrap-around is not modelled (a count in a condition is limited to 64 bits as in the source).
- Floating point: similarities, scores and ratios are exact reals, so there is no rounding and no NaN.
- Campaign.Candidates: a candidate is its members by position and its link count; its score and id, the time order of its event ids and the final order of candidates are not modelled.
- Campaign.BuildCampaigns: takes the link requests as input; the nearest-neighbour and shared-entity lookups that issue them, and the scoring, are not modelled.
- KillChain.BuildCausalGraph: an event carries its anomaly score and entity keys; the keyword heuristic, tactic labels and the explanation strings are not modelled.
- Selections of a Sigma rule are arbitrary tests on an event; field matching, modifiers and YAML parsing are not modelled.
- Correlation.CorrelationEngine.Process: field lookup is a map from names to values, and the checks made when a rule is compiled (time span syntax, required condition fields) are not modelled.
- RetroHunt.Hunt: the detection engine is an arbitrary function from events to alerts.
- TieredStore.ColumnarStore.WriteSegment: encoding a segment is lossless and writing does not fail; the id and the time are parameters.
- TieredStore.ColumnarStore.EnforceRetention: deleting archived objects and saving the catalog do not fail.
- TieredStore.ColumnarStore.MigrateWarm: upload and catalog saving do not fail; that each step alone keeps every answer covers stopping between steps.
- Outside the model: opening an existing catalog, SQL over the warm tier, and the archive clients.
- TieredHistory.TieringConserves: assumes that, when an archive is attached, no local path is an archive key.
- Role checks, shard placement, token and hash codecs, alert triage, the agent, the HTTP API, the CLI and the frontend: separate from the components modelled here.
