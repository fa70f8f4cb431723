# ATEL core: a verified model

A Dafny model of the parts of the ATEL SDK on which trust between agents rests, with proofs about
all inputs and all runs. `dafny verify dfyconfig.toml` checks everything.

| file | models |
|---|---|
| `Hashing`, `Signing` | SHA-256 as any function to 64 hex digits; signatures by their law `verify(m, sign(m, k), pub(k))` |
| `Canonical`, `CanonicalText` | the serializer with sorted keys, that its text identifies a value up to key order, and how it reads back |
| `Merkle` | `MerkleTree`: building, paths, checking paths |
| `Trace`, `TraceText` | `ExecutionTrace`: the hash-chained log, its checkpoints and terminal events |
| `Proof`, `ProofBinding` | `ProofGenerator` and `ProofVerifier`, and what a verdict says |
| `GraphState`, `GraphSearch`, `TrustGraph`, `EdgeHistory`, `FourHops` | the trust graph, its two searches and its scores, and these over recorded interactions |
| `TaskWeight` | `calculateTaskWeight` |
| `Clusters`, `Suspicion`, `SuspicionHistory` | the truncated enumeration of groups and the cluster detection built on it |
| `Admission`, `AdmissionExact` | freshness, nonces and rate limit of incoming messages, and the endpoint that combines them |
| `Crypto`, `Handshake`, `KeyLifetime`, `SessionLifetime`, `HandshakeManager` | key sessions on the heap, the three-message handshake as a protocol over any number of agents, how long its keys agree and its sessions last, and the class that carries it out |
| `Policy`, `Gateway`, `GatewayRecords` | consent tokens and tool calls whose starts and ends interleave |
| `Score`, `ScoreFormula`, `ScoreStore` | the trust score and the client that stores what it is made of |
| `Common`, `Reals`, `Sequences` | result types, and arithmetic and sequence facts shared by the others |

How the parts fit together:

- Code that updates objects is a class here. Each method is proved against a function on values
  (`Now`, `Step`, `Next`, `Decide`, ...), and the theorems are about runs of those functions.
- Collision-freeness is assumed only of the finite set of strings that the two sides of a statement
  really hash, as an explicit `requires`. No hash function of fixed width is injective on all strings,
  so an assumption about all of them would prove anything.
- Times, random identifiers and challenges are parameters. Every query reads the clock once.
- Numbers that the program keeps as floating point are `real`; `exp` and `log` are abstract
  functions with a range.

The model follows the code where its documentation says otherwise, and states the condition where a property needs one:

- `indirectTrust` is documented with a search depth of 3 but follows paths of up to `maxDepth + 1` = 4
  hops, as the two length tests are written (`src/graph/index.ts:321-343`); `FourHops.FourHopsFound` has a
  graph on which it returns such a path.
- A hash chain cannot tell which task a trace belongs to, because the identifier is not part of the
  hashed text: `Proof.TaskIdNotBound`. `Proof.AcceptedTracesCharacterized` says exactly what is bound.
- The Merkle root alone does not fix the leaves (`Merkle.RepeatedLastLeafSameRoot`), nor does an
  accepted path (`Merkle.ShorterPathAcceptsInnerNode`). With the length, both do.
- The colon-joined key of an edge identifies it exactly when no agent's name followed by a colon begins
  another's (`GraphState.EdgeKeyExact`), which holds of DIDs and of names without colons.
- Key agreement needs no assumption on which side starts, or how often. At the moment of the confirm it
  needs that both sides have encryption enabled: `Handshake.MixedPairDisagrees` shows a responder that
  reports an encrypted session to an initiator that has no key. Afterwards it lasts until one side accepts
  another init or ack of the other or drops the session (`KeyLifetime.AgreementLasts`), and survives that
  exactly when the same key is derived again (`KeyLifetime.AgreementAfter`). An init that is delivered
  again ends it (`KeyLifetime.DisagreementHappens`). `rotateKey` is not among the steps.
- The replay protection depends on its constants, and `Admission.WindowsExact` gives the exact
  condition for every rate limit. The rate limit lets through up to `2 * limit - 1` requests in one
  window's time, and `Admission.RateBoundTight` reaches that number.
- The bound of 70 on self-reported summaries holds exactly as long as no violation count is negative
  (`Score.LegacyBoundExact`); nothing in the program rejects one, and a hundred summaries with a count of
  minus one score 77.
- With violation counts that are not negative, one more flawless task can lower the score in two cases
  only (`ScoreStore.FlawlessTaskExact`): as the tenth, after nine of which at most three are verified, where
  the stronger penalty sets in; and as the first, when it takes the place of summaries that score more
  than 55.
- A check against the chain can lower a score, as `verifyProofRecord` also takes verifications away:
  exactly when it takes a history of three records or more from at least one half verified to below
  (`Score.CheckExact`, `Score.WithdrawalExact`). Calls of `verifyAllRecords` that overlap can do so too; in
  `ScoreStore` they are runs of single checks.

## Model

| member | source | states |
|---|---|---|
| Canonical.CanonicalForm | src/trace/index.ts:100-114 | two JSON values print to the same text if and only if they are equal up to the order of keys at every depth |
| Canonical.TextsSeparable | src/trace/index.ts:100-114 | a printed value followed by a delimiter can be read in one way only: the printed form is uniquely readable |
| Canonical.TextDeterminesValue | src/proof/index.ts:687-701 | equal texts come from values that are equal up to key order |
| Canonical.ValueDeterminesText | src/gateway/index.ts:206-227 | values that are equal up to key order print to the same text |
| Canonical.QuoteReadable | src/trace/index.ts:100-114 | a quoted string is followed by its closing quote at one place only, whatever the string contains |
| Canonical.EscapeReadable | src/trace/index.ts:100-114 | escaping loses nothing: text up to the closing quote determines the string |
| Canonical.IntTextInjective | src/trace/index.ts:100-114 | the decimal text of an integer determines it, sign included |
| Canonical.JoinReadable | src/trace/index.ts:100-114 | comma-joined items can be read back one by one, and their number is determined |
| Canonical.SortedListingUnique | src/trace/index.ts:100-114 | a set of entries with distinct keys has one sorted listing, so the source order of keys is forgotten |
| Canonical.SortSorts | src/trace/index.ts:100-114 | the sort orders entries by key and neither loses nor repeats one |
| CanonicalText.StringsReadBack | src/trace/index.ts:100-114 | a JSON reader gets every string back from its escaped text |
| CanonicalText.IntegersReadBack | src/trace/index.ts:100-106 | the text of an integer, read as decimal digits with a sign, gives the integer, without superfluous zeros |
| CanonicalText.KeyOrder | src/trace/index.ts:111-112 | keys are compared by the first character in which they differ, and a beginning comes first |
| CanonicalText.KeysAscend | src/trace/index.ts:111-113 | the entries of every object are printed by ascending key |
| CanonicalText.SampleText | src/trace/index.ts:100-114 | the whole text of an object that holds a list and a string |
| Merkle.Build | src/proof/index.ts:110-131 | the constructor accepts exactly non-empty leaves and returns layers that lead from them to a single root |
| Merkle.HashLayer | src/proof/index.ts:118-130 | one round pairs neighbours and pairs an odd last node with itself |
| Merkle.GetRoot | src/proof/index.ts:138-141 | the top of the layers is the root defined by recursion over the leaves |
| Merkle.GetProof | src/proof/index.ts:153-185 | rejects an index out of range; otherwise the path of siblings of that leaf, one step per layer |
| Merkle.VerifyProof | src/proof/index.ts:195-207 | accepts exactly when climbing the path from the leaf ends at the root |
| Merkle.Completeness | src/proof/index.ts:110-207 | for every leaf of every tree the extracted path is accepted against the root and is as long as the tree is deep |
| Merkle.DepthIsLogarithm | src/proof/index.ts:110-131 | n leaves give a depth d with n <= 2^d, and 2^(d-1) < n for two leaves or more |
| Merkle.Soundness | src/proof/index.ts:195-207 | without collisions, an accepted path as long as the tree is deep starts at one of its leaves, whatever positions it claims |
| Merkle.ShorterPathAcceptsInnerNode | src/proof/index.ts:195-207 | the length is needed: a shorter path accepts a node that is no leaf |
| Merkle.RootAndLengthBind | src/proof/index.ts:110-131 | without collisions, root and number of leaves determine the leaves |
| Merkle.RepeatedLastLeafSameRoot | src/proof/index.ts:120-127 | the number is needed: repeating the last leaf of an odd list leaves the root unchanged |
| TraceText.SmallTrees | src/proof/index.ts:110-131 | the roots of one, two and three leaves: left before right, an odd last node with itself |
| Trace.ExecutionTrace.constructor | src/trace/index.ts:170-182 | a trace starts empty and open |
| Trace.ExecutionTrace.Append | src/trace/index.ts:194-237 | the new state: rejected without effect on a closed trace, else one linked event, plus a signed checkpoint when the interval is reached |
| Trace.ExecutionTrace.AddCheckpoint | src/trace/index.ts:247-299 | appends a checkpoint that carries the count and Merkle root of all earlier events and resets the counter |
| Trace.ExecutionTrace.Finalize | src/trace/index.ts:307-318 | appends the result, closes the trace and returns the hash of that event |
| Trace.ExecutionTrace.Fail | src/trace/index.ts:326-343 | appends the failure and closes the trace |
| Trace.ExecutionTrace.Verify | src/trace/index.ts:353-391 | valid exactly when every event links to its predecessor, has the hash of its contents and, as a checkpoint, a good signature; reports all findings in order |
| Trace.ExecutionTrace.CheckEvent | src/trace/index.ts:356-388 | the findings about one event |
| Trace.ExecutionTrace.SimpleMerkleRoot | src/trace/index.ts:578-596 | computes the same root as `MerkleTree` for every list of leaves |
| Trace.ExecutionTrace.CountToolCalls | src/trace/index.ts:426-427 | the number of events of the tool-call type |
| Trace.StepKeepsIntact | src/trace/index.ts:194-343 | each call keeps numbering and integrity |
| Trace.EveryRunVerifies | src/trace/index.ts:194-391 | after any run, of any calls in any order, sequence numbers equal positions and verification finds nothing |
| Trace.StepKeepsWell | src/trace/index.ts:194-343 | each call with an ordinary event type keeps checkpoints, counter and terminal events in order |
| Trace.EveryRunWellKept | src/trace/index.ts:194-343 | over any such run every checkpoint at k >= 1 carries count k and the root of the k hashes before it, fewer than the interval follow the last checkpoint, and a terminal event is last or followed by one checkpoint |
| TraceText.EventSpelledOut | src/trace/index.ts:131-141 | after every run an event carries its position, the hash before it or `0x00`, and the hash of position, time, type, data hash and that, with bars in between |
| TraceText.CheckpointSpelledOut | src/trace/index.ts:247-299 | after every run of ordinary calls a checkpoint says the root and number of all events before it, the tool calls among them and the last hash, and is signed |
| TraceText.CheckpointsRegular | src/trace/index.ts:194-237 | in a trace without checkpoints by hand every (interval + 1)-th event is a checkpoint and no other is |
| TraceText.EndsForGood | src/trace/index.ts:194-343 | a finalized or failed trace refuses every further call and says which it is |
| TraceText.TypeNames | src/trace/index.ts:18-28 | the names of the event types |
| Trace.NoFindingsMeansFine | src/trace/index.ts:353-391 | an empty report means integrity, and integrity an empty report |
| Trace.PreimageInjective | src/trace/index.ts:131-141 | the bar-separated text that is hashed determines number, time, type, data text and predecessor, although times may contain bars |
| Trace.EventHashBinds | src/trace/index.ts:131-141 | without collisions, equal event hashes mean equal events up to key order in their data |
| Trace.ChainHeadBindsLog | src/trace/index.ts:131-146 | without collisions, two verified non-empty traces with the same last hash have the same length and record the same events |
| Proof.BuildBundle | src/proof/index.ts:281-342 | rejects an empty trace; else a signed bundle with root, length, checkpoints and the verdict on the trace |
| Proof.CollectCheckpoints | src/proof/index.ts:295-301 | the signed checkpoints in order |
| Proof.CheckMerkleRoot | src/proof/index.ts:545-578 | passes exactly when the trace is non-empty and its recomputed root is the one in the bundle |
| Proof.CheckCheckpoints | src/proof/index.ts:583-635 | passes exactly when all checkpoint signatures verify and, given a trace, all their hashes occur in it |
| Proof.Verify | src/proof/index.ts:383-454 | valid exactly when every listed check passes; the list holds the verdict of the executor's key on the bundle's own text and signature, of the references, the chain, the root and the checkpoints, and of the length when a trace is given |
| Proof.CollectedCheckpointsPass | src/proof/index.ts:583-635 | checkpoints collected from an intact trace all pass under its own key |
| Proof.GeneratedBundleVerifies | src/proof/index.ts:281-454 | for every run that leaves a non-empty trace, the bundle made with its own identity and non-empty references passes every check, with the trace and without, and attests that the trace verified |
| ProofBinding.BundleSpelledOut | src/proof/index.ts:281-342 | what the bundle of a run says, field by field; its checkpoints are exactly the checkpoint events |
| Proof.EqualHashesEqualLogs | src/proof/index.ts:393-439 | two intact chains with the same hashes record the same events |
| Proof.BundleBindsLog | src/proof/index.ts:383-454 | without collisions, any two traces accepted against one bundle record the same events, however the bundle was made |
| ProofBinding.SameTextSameFields | src/proof/index.ts:519-532 | the text that is signed determines every field of a bundle but the signature |
| ProofBinding.SignatureBindsFields | src/proof/index.ts:519-532 | if a key's signature of a generated bundle does not pass for another text, a bundle that carries it is accepted under that key only with every signed field as generated |
| ProofBinding.CheckpointSignatureBindsHash | src/proof/index.ts:599-613 | the same for the hash of each checkpoint in a bundle |
| ProofBinding.TraceSignatureBindsHash | src/trace/index.ts:374-388 | and for the hash of each checkpoint event in a trace |
| ProofBinding.AcceptanceSpelledOut | src/proof/index.ts:383-454 | a bundle is accepted with a trace if and only if it is accepted alone, the trace verifies and is not empty, length and root are the trace's, and every checkpoint's hash is that of an event |
| ProofBinding.LoneAcceptanceSpelledOut | src/proof/index.ts:487-635 | alone it is accepted if and only if a key is resolved that verifies its signature over its own text and that of every checkpoint over its hash, and no reference is missing |
| Proof.SameLogSameChain | src/trace/index.ts:131-146 | the same events up to key order have the same hashes and are an intact chain together |
| Proof.AcceptedTracesCharacterized | src/proof/index.ts:383-454 | given one accepted trace, another is accepted if and only if it records the same events and its checkpoint signatures verify |
| Proof.TaskIdNotBound | src/proof/index.ts:393-439 | renaming the identifier in every event of an accepted trace leaves it accepted |
| GraphState.InteractionKeepsOk | src/graph/index.ts:190-240 | one interaction of non-negative weight keeps the numeric invariant of every edge |
| GraphState.RemovalKeepsOk | src/graph/index.ts:171-178 | removing an agent keeps the invariant and the orders |
| GraphState.RemovalSpelledOut | src/graph/index.ts:171-178 | removal takes exactly the agent and the edges from it and to it |
| GraphState.EveryRunOk | src/graph/index.ts:171-240 | over every run with removals: successes + failures = total, 0 <= successful weight <= weight, consistency in [0, 1], no time in the future |
| GraphState.EdgesRememberHistory | src/graph/index.ts:190-240 | over every run without removals an edge exists exactly when its key occurs in the history, and holds the counts, weights and total duration of exactly those interactions |
| GraphState.InteractionsConserved | src/graph/index.ts:199-224 | edge counts sum to the number of interactions, node counts to twice that number |
| SuspicionHistory.NodesOfHistory | src/graph/index.ts:193-202 | the nodes are the agents that took part, each with the number of times and the scenes |
| EdgeHistory.EdgesKeep | src/graph/index.ts:204-239 | every edge keeps the weights and the last moment of its interactions, and their consistency in closed form: a tenth of each one's share of alike outcomes, faded by 0.9 for every later one |
| GraphState.EdgeKeyExact | src/graph/index.ts:131-133 | for any set of names, the joined text identifies agents and scene if and only if no name followed by a colon begins another |
| GraphState.LeadingNamesClash | src/graph/index.ts:131-133 | every two names of which one so begins the other yield two edges with the same text |
| GraphState.ColonFreeNamesIdentify | src/graph/index.ts:131-133 | plain names without a colon are safe |
| GraphState.DidKeysIdentify | src/identity/index.ts:82-106 | so are DIDs, of the current and of the older form together |
| TaskWeights.TaskWeightBounds | src/graph/index.ts:118-128 | for non-negative measurements the weight lies between 0 and the risk factor, and is 0 exactly without price or without activity |
| TaskWeights.DocumentedExample | src/graph/index.ts:101-128 | the example of the documentation comes out as documented |
| TaskWeights.WeightBelowLimits | src/graph/index.ts:118-128 | below the limits every measurement counts in proportion |
| TrustGraphs.TrustGraph.AddNode | src/graph/index.ts:151-164 | registers an unknown agent and leaves a known one alone |
| TrustGraphs.TrustGraph.RemoveNode | src/graph/index.ts:171-178 | removes the agent and every edge that touches it, and nothing else |
| TrustGraphs.TrustGraph.RecordInteraction | src/graph/index.ts:190-240 | the whole new graph after one interaction |
| TrustGraphs.TrustGraph.CountInteraction | src/graph/index.ts:193-202 | both agents are registered and counted; an agent that deals with itself counts twice |
| TrustGraphs.TrustGraph.UpdatedEdge | src/graph/index.ts:222-239 | the field by field update equals the specified edge |
| TrustGraphs.TrustGraph.EdgeTrustOf | src/graph/index.ts:277-297 | the direct trust along an edge of the scene, 0 where there is none or it has no weight |
| EdgeHistory.DirectTrustOfHistory | src/graph/index.ts:277-297 | direct trust over recorded interactions: the share of the weight that succeeded, times decay since the last one, times consistency of the outcomes, times one twentieth for each up to twenty; 0 without any or without weight |
| EdgeHistory.DirectConfidenceOfHistory | src/graph/index.ts:287-293 | its confidence over recorded interactions |
| TrustGraphs.TrustGraph.Expand | src/graph/index.ts:326-343 | one pass over the edges keeps every admissible path either covered by the queue or accounted for by the best value |
| TrustGraphs.TrustGraph.Search | src/graph/index.ts:315-353 | the queue empties, and the result is the maximum over all admissible simple paths, attained by the returned path |
| TrustGraphs.TrustGraph.IndirectTrust | src/graph/index.ts:310-353 | 0 from an agent to itself; else the maximum over simple paths of the scene with 2 to maxDepth + 1 hops of the product of direct trusts times 0.7^(hops - 1), or 0 without a path; with confidence 0.5 exactly when positive |
| TrustGraphs.TrustGraph.StrongestPath | src/graph/index.ts:458-490 | the same maximum over 1 to 4 hops |
| TrustGraphs.TrustGraph.SuccessRateOfAll | src/graph/index.ts:398-406 | successful over total weight of all edges |
| TrustGraphs.TrustGraph.CompositeTrust | src/graph/index.ts:366-395 | the weighted mean of direct trust, best indirect trust and the global rate, within [0, 0.86] on every reachable graph, with the larger confidence of the two |
| GraphSearch.ExpansionShrinks | src/graph/index.ts:321-344 | replacing a queue item by all its extensions lowers the weight that bounds the search |
| GraphSearch.TargetEdge | src/graph/index.ts:334-339 | an edge to the target settles exactly the path that ends with it |
| GraphSearch.BestBounded | src/graph/index.ts:310-353 | indirect trust lies in [0, 0.7] |
| GraphSearch.BestUnique | src/graph/index.ts:310-353 | graphs with the same edges, listed in any order, have the same maximum |
| GraphSearch.DirectTrustInUnit | src/graph/index.ts:277-297 | direct trust lies in [0, 1] |
| GraphSearch.EdgeTrustInUnit | src/graph/index.ts:285-296 | so does the trust of every edge that keeps the invariant, for every decay into (0, 1] |
| GraphSearch.GlobalRateInUnit | src/graph/index.ts:398-406 | the global success rate lies in [0, 1] |
| GraphSearch.CompositeBounded | src/graph/index.ts:366-395 | composite trust lies in [0, 0.86], and in [0, 0.68] without direct trust, an agent with itself included |
| EdgeHistory.CompositeOfHistory | src/graph/index.ts:366-406 | direct trust counts for 0.6, indirect trust for 0.3, or 0.9 without direct trust, and the success rate of all recorded weight for 0.05 |
| GraphSearch.DefaultLengths | src/graph/index.ts:321-343 | by default paths of two to four hops compete for indirect trust, and of one to four for the strongest path |
| GraphSearch.SearchesAgree | src/graph/index.ts:458-490 | the strongest path has no path exactly when direct and indirect trust are both 0, and otherwise its trust is the larger of the two |
| FourHops.FourHopsFound | src/graph/index.ts:299-343 | on the graph that four recorded interactions leave, the default search returns a path of four hops, with (0.05 times decay)^4 times 0.343 |
| Clusters.Enumerate | src/graph/index.ts:575-588 | the truncated recursion returns exactly the first maxResults entries of the full list |
| Clusters.AppendPrepended | src/graph/index.ts:582-585 | the inner loop stops at the limit and keeps the order |
| Clusters.VectorsExact | src/graph/index.ts:575-588 | the index vectors listed are exactly the increasing choices of k positions |
| Clusters.VectorsSorted | src/graph/index.ts:575-588 | they are listed in strictly increasing lexicographic order, hence once each |
| Clusters.CombinationsAreVectors | src/graph/index.ts:575-588 | the full list picks the elements at those vectors, in that order |
| Clusters.CombinationsCount | src/graph/index.ts:575-588 | the full list has C(n, k) entries |
| Clusters.EnumerationComplete | src/graph/index.ts:575-588 | min(C(n, k), maxResults) entries are returned, all of them exactly when C(n, k) <= maxResults |
| Clusters.EveryTripleExamined | src/graph/index.ts:542-543 | every triple of at most 30 candidates is within the 5000 that are examined |
| Suspicion.SortDownSorts | src/graph/index.ts:590-600 | the sort is a permutation in descending order in which equals keep their places |
| Suspicion.TalliesStep | src/graph/index.ts:532-537 | the nested counts of who works for whom always agree with direct sums over the edges |
| Suspicion.ExaminedDistinct | src/graph/index.ts:542-544 | no examined group holds an agent twice |
| Suspicion.SuspiciousInTasks | src/graph/index.ts:561-568 | a group is suspicious exactly when it has more than k internal tasks and more than four of them to each external one |
| SuspicionHistory.TasksOfHistory | src/graph/index.ts:532-559 | internal and external tasks of a group are its recorded interactions among its members and with others |
| SuspicionHistory.ActivityOfHistory | src/graph/index.ts:590-600 | the activity by which agents are ranked is the number of interactions they took part in |
| SuspicionHistory.ShareMeans | src/graph/index.ts:561-568 | the reported share times all tasks of the group gives its internal ones, and is above 0.8 |
| Suspicion.DetectedExact | src/graph/index.ts:527-572 | exactly the suspicious ones among the examined groups are reported, each with its internal share, the highest share first |
| Suspicion.GroupReportedExact | src/graph/index.ts:527-572 | in any graph with at most 5000 groups of k candidates, a group of k candidates is reported if and only if it has more than k internal tasks and more than four to each external one |
| Suspicion.EveryRingReported | src/graph/index.ts:527-572 | so any three of the thirty most active agents of any graph are judged exactly |
| Suspicion.SmallGraphsAreCovered | src/graph/index.ts:542 | in a graph of at most thirty agents these are all of them |
| TrustGraphs.TrustGraph.RankAgentsByActivity | src/graph/index.ts:590-600 | the agents by the tasks they take part in, the busiest first, ties in order of registration |
| TrustGraphs.TrustGraph.Interactions | src/graph/index.ts:532-537 | the nested counts of every agent agree with the edges |
| TrustGraphs.TrustGraph.Measure | src/graph/index.ts:545-559 | internal and external tasks of a group, as sums over the edges |
| TrustGraphs.TrustGraph.Judge | src/graph/index.ts:545-568 | the verdict on one group and its internal share |
| TrustGraphs.TrustGraph.Flag | src/graph/index.ts:544-569 | the suspicious ones of the given groups in order, with their internal shares |
| TrustGraphs.TrustGraph.DetectSuspiciousClusters | src/graph/index.ts:527-572 | returns the specified report |
| Admission.RateLimiter.Check | src/endpoint/index.ts:118-133 | verdict and new windows of one request |
| Admission.NonceTracker.EvictExpired | src/envelope/index.ts:224-231 | removes exactly the nonces older than the window |
| Admission.NonceTracker.Check | src/envelope/index.ts:212-221 | new exactly when not held after eviction, and then held from now on |
| Admission.AgentEndpoint.VerifyIncoming | src/endpoint/index.ts:344-370 | rate limit, nonce, key and message check in this order, with the state each leaves behind |
| AdmissionExact.AdmittedExactly | src/endpoint/index.ts:344-370 | over every run a message is admitted if and only if the limiter has room for its sender, its nonce was not taken up within the window, a key is known, it is well formed and fresh, and its signature verifies under that key |
| AdmissionExact.RefusedExactly | src/endpoint/index.ts:344-370 | and over every run each refusal is given exactly when what it names is the first thing wrong: the limit, the nonce, the key, the version, the fields, the date, its age, its lead, the signature |
| AdmissionExact.AdmittedIsSigned | src/envelope/index.ts:151-157 | nothing is admitted without a signature that verifies under a key that was resolved |
| AdmissionExact.LimiterExact | src/endpoint/index.ts:118-133 | over every run the limiter lets a request through exactly when no window is in force or fewer than the limit got through since it opened |
| Admission.AdmittedIsFresh | src/envelope/index.ts:133-149 | an admitted message is at most the permitted age old and at most 30 s ahead |
| Admission.NonceHeld | src/envelope/index.ts:212-231 | over every run an admitted nonce stays held for the whole nonce window |
| Admission.AtMostOnce | src/endpoint/index.ts:344-370 | over every run with a non-decreasing clock no message is admitted twice, if the nonce window covers message age plus tolerance |
| Admission.DefaultsSuffice | src/envelope/index.ts:198-231 | the program's constants are ten and five minutes and thirty seconds, and satisfy that condition |
| Admission.AtMostOnceByWaiting | src/endpoint/index.ts:118-133 | with a limit of one, a rate window as long does the same |
| Admission.ShortWindowAdmitsReplay | src/envelope/index.ts:198-231 | if neither window is that long, any valid message is admitted twice, at the earliest and at the latest moment of its timestamp |
| Admission.WindowsExact | src/envelope/index.ts:132-231 | for every limit, replay protection holds over all runs if and only if the nonce window covers message age plus tolerance, or the limit is at most one and the rate window covers them, or no timestamp is ever acceptable |
| Admission.CurrentWindow | src/endpoint/index.ts:118-133 | over every run the counter in force equals the number of requests let through since its window opened |
| Admission.RateBound | src/endpoint/index.ts:108-134 | over every run a closed interval of the window's length lets through at most 2 * limit - 1 requests per key |
| Admission.RateBoundTight | src/endpoint/index.ts:108-134 | that number is reached for every limit |
| Admission.AdmissionRateBound | src/endpoint/index.ts:344-370 | the bound holds for the messages an endpoint admits from one sender |
| Crypto.EncryptionManager.CreateSession | src/crypto/index.ts:181-195 | installs a session with a fresh key pair and touches no other |
| Crypto.EncryptionManager.CreateSessionWithKeys | src/crypto/index.ts:206-220 | installs the derived key under the peer's name, in an array of its own, and touches no other session |
| Crypto.EncryptionManager.RotateKey | src/crypto/index.ts:256-272 | fails without a session; else wipes the old key array in place and installs a new key |
| Crypto.EncryptionManager.WipeOne | src/crypto/index.ts:297-304 | overwrites one key array with zeros and leaves the others as they are |
| Crypto.EncryptionManager.DestroySession | src/crypto/index.ts:297-304 | forgets the session, leaves zeros in its key arrays and touches no other array |
| Crypto.EncryptionManager.DestroyAll | src/crypto/index.ts:309-313 | forgets all sessions and leaves zeros in every array that held a key |
| Crypto.EncryptionManager.HasSession | src/crypto/index.ts:277-279 | tells whether a key is held for a peer |
| Handshake.AcceptedAck | src/handshake/index.ts:208-266 | an ack is accepted only for a challenge that this manager has outstanding for that peer |
| Handshake.AcceptedConfirm | src/handshake/index.ts:328-362 | so is a confirm, on the responder's side |
| SessionLifetime.InitAcceptedExactly | src/handshake/index.ts:273-290 | an init is accepted exactly when timely, signed under the key it announces, and that key is its DID's; otherwise which error is returned |
| SessionLifetime.AckAcceptedExactly | src/handshake/index.ts:208-232 | an ack is accepted exactly when timely, signed under the key it announces, and that key signed the outstanding challenge; otherwise which error |
| SessionLifetime.ConfirmAcceptedExactly | src/handshake/index.ts:328-350 | a confirm is accepted exactly when timely and the initiator's key signed it and the outstanding challenge; otherwise which error |
| SessionLifetime.AcceptedOnce | src/handshake/index.ts:230-355 | an accepted ack or confirm leaves nothing outstanding for its sender: delivered again, it is refused |
| Handshake.SendInitKeepsInv | src/handshake/index.ts:178-203 | starting a handshake keeps the protocol invariant |
| Handshake.HandInitKeepsInv | src/handshake/index.ts:273-323 | answering an init keeps it |
| Handshake.HandAckKeepsInv | src/handshake/index.ts:208-266 | processing an ack keeps it |
| Handshake.HandConfirmKeepsInv | src/handshake/index.ts:328-362 | processing a confirm keeps it |
| Handshake.DroppingKeepsInv | src/handshake/index.ts:366-402 | expiry and termination keep it |
| Handshake.WaitsOnce | src/handshake/index.ts:178-362 | a challenge is outstanding in one role at one agent only |
| Handshake.StepKeepsInv | src/handshake/index.ts:178-402 | every step of any agent keeps the invariant |
| Handshake.RunInv | src/handshake/index.ts:178-402 | so the invariant holds throughout every run in which messages are lost, repeated and reordered at will |
| Handshake.KeyAgreement | src/handshake/index.ts:178-362 | whenever a confirm yields a session marked encrypted, an initiator with encryption enabled derived the same key when it made that confirm, and one without had no key |
| Handshake.AnsweredOnce | src/handshake/index.ts:208-362 | each session that is returned uses up a challenge never used before |
| Handshake.MixedPairDisagrees | src/handshake/index.ts:273-362 | a concrete run in which only the responder has encryption enabled and reports an encrypted session |
| KeyLifetime.InitiatorAgreement | src/handshake/index.ts:208-266 | whenever an ack yields a session marked encrypted, the initiator's key is the one that goes with that ack, and a responder that does not encrypt has no key at all |
| KeyLifetime.KeyKept | src/handshake/index.ts:178-402 | a step changes an agent's key for a peer only by accepting an init or ack of that peer or by dropping the session |
| KeyLifetime.AgreementLasts | src/handshake/index.ts:178-402 | from the confirm on both sides hold equal keys for each other for as long as neither does one of these |
| KeyLifetime.FirstThree | src/handshake/index.ts:178-323 | the state after three messages between two agents that encrypt |
| KeyLifetime.AgreementAfter | src/handshake/index.ts:208-402 | each step that gives one of two agreeing agents another key, or none, leaves them in agreement if and only if it derives the same key again; a drop never does |
| KeyLifetime.RepeatedInitEndsAgreement | src/handshake/index.ts:273-323 | from there the confirm brings agreement, and a second delivery of the first init leaves both sides with sessions marked encrypted, in agreement if and only if the newly drawn secret gives the same key |
| KeyLifetime.DisagreementHappens | src/handshake/index.ts:273-323 | for a concrete lawful exchange and concrete secrets it does not |
| HandshakeManagers.HandshakeManager.constructor | src/handshake/index.ts:165-171 | a manager starts with nothing pending |
| HandshakeManagers.HandshakeManager.SendInit | src/handshake/index.ts:178-203 | the method does to the object what the protocol step does to the value |
| HandshakeManagers.HandshakeManager.ReceiveInit | src/handshake/index.ts:273-323 | same, for answering an init |
| HandshakeManagers.HandshakeManager.Establish | src/handshake/index.ts:233-250 | same, for setting up the initiator's key and session |
| HandshakeManagers.HandshakeManager.TakeOver | src/handshake/index.ts:240-248 | the pending key pair becomes the session's and is no longer pending |
| HandshakeManagers.HandshakeManager.ReplaceSession | src/handshake/index.ts:240-248 | the session made with the throwaway key is wiped and replaced |
| HandshakeManagers.HandshakeManager.ReceiveAck | src/handshake/index.ts:208-266 | same, for processing an ack, including every rejection |
| HandshakeManagers.HandshakeManager.ReceiveConfirm | src/handshake/index.ts:328-362 | same, for processing a confirm |
| HandshakeManagers.HandshakeManager.TerminateSession | src/handshake/index.ts:399-402 | same, for termination, which leaves zeros in the arrays of the key |
| HandshakeManagers.HandshakeManager.GetSession | src/handshake/index.ts:366-378 | the session is returned exactly when there is one that has not expired; an expired one is dropped |
| SessionLifetime.SessionGivenExactly | src/handshake/index.ts:366-402 | over every run a manager gives the session that it set up when it last accepted an ack or confirm of the peer, if it has not dropped it since and its session time has not passed, and gives none otherwise |
| SessionLifetime.KeyHeldExactly | src/handshake/index.ts:233-304 | over every run the key an agent holds for a peer is the one it derived last for it, by an init or ack in which both sides offered encryption, if it has not forgotten it since; otherwise it holds none |
| HandshakeManagers.ThreeMessages | src/handshake/index.ts:178-362 | when both sides have encryption enabled and nothing is lost, no message is refused and both sessions are encrypted under one key |
| HandshakeManagers.PerformHandshake | src/endpoint/index.ts:427-445 | the same on the heap: two managers that share no memory end with the same key for each other and with all other keys untouched |
| Policy.ScopeMatchesByComponents | src/policy/index.ts:60-64 | the prefix test is component-wise: a grant covers exactly the scopes whose colon-separated components it begins |
| Policy.PolicyEngine.Covers | src/policy/index.ts:224-227 | some granted scope matches |
| Policy.PolicyEngine.Evaluate | src/policy/index.ts:207-230 | allowed exactly within time, call limit, risk ceiling and scopes; to be confirmed exactly one risk level above; else denied |
| Policy.DecisionSpelledOut | src/policy/index.ts:207-230 | allowed exactly within time and limit, at a risk the ceiling admits, with grants that begin the components of tool and method and of the data; to be confirmed exactly for medium over low, high over medium and critical over high |
| Policy.PolicyEngine.RecordCall | src/policy/index.ts:236-241 | counts one call, or fails at the limit without effect |
| Policy.PolicyEngine.RemainingCalls | src/policy/index.ts:255-257 | what is left of the limit, never negative |
| Gateway.ToolGateway.constructor | src/gateway/index.ts:270-280 | a gateway starts with nothing called or logged |
| Gateway.ToolGateway.BeginCall | src/gateway/index.ts:311-359 | everything up to the handler: a missing tool or refused action has no effect on counts; an allowed one is counted on both sides and traced, signed if the gateway has an identity |
| Gateway.ToolGateway.FinishCall | src/gateway/index.ts:361-402 | everything after the handler: the result is traced, signed if the gateway has an identity, and the log grows exactly when it could still be traced |
| GatewayRecords.ToolSpelledOut | src/gateway/index.ts:427-431 | the first dot of a tool's name separates tool and method, which is `*` if nothing follows |
| GatewayRecords.DataScopeSpelledOut | src/gateway/index.ts:123-131 | the data scope is what the first `data:` scope names, or `*` |
| Gateway.AppendAdds | src/trace/index.ts:194-237 | an append adds its own event and at most a checkpoint |
| Gateway.OthersAddNothing | src/trace/index.ts:194-343 | other calls on the trace add no event of a tool type |
| GatewayRecords.RefusalsSpelledOut | src/gateway/index.ts:311-346 | an unknown tool, a denied and an unconfirmed action each give their own error and change nothing; a permitted call is counted |
| Gateway.StepKeepsAccounts | src/gateway/index.ts:311-402 | every start, end or foreign step keeps the accounts |
| Gateway.RunAccounted | src/gateway/index.ts:311-402 | so they hold after every interleaving |
| Gateway.ToolCallsAccounted | src/gateway/index.ts:91-402 | over every interleaving results = log length <= traced calls <= gateway count = policy count <= limit, remaining + used = limit, and the traced results tell the log entries in order, with or without a gateway identity |
| Gateway.ResultsSigned | src/gateway/index.ts:373-383 | with an identity, every traced result carries a signature that verifies under the gateway's key over what the log says about the call |
| GatewayRecords.LogTellsCalls | src/gateway/index.ts:311-402 | in every interleaving each log entry tells of a call that started before it, of a registered tool and a permitted action, with the hash of its input and the hash, status and duration of what came back |
| GatewayRecords.ResultSpelledOut | src/gateway/index.ts:370-383 | in every interleaving the j-th traced result says tool, output hash, status and duration of the j-th log entry, with the gateway's DID and a signature that verifies if it has an identity |
| GatewayRecords.CallSpelledOut | src/gateway/index.ts:349-359 | and every traced call says tool and input hash of a call that was started, in the same form |
| GatewayRecords.SignedTextBinds | src/gateway/index.ts:353-356 | the text that the gateway signs determines every member, in order, and the moment |
| GatewayRecords.SignedTextSample | src/gateway/index.ts:353-354 | that text, for one member |
| ScoreStore.TrustScoreClient.AddProofRecord | src/score/index.ts:163-176 | rejects a record without executor or transaction; else adds it unless the agent already has that transaction |
| ScoreStore.TrustScoreClient.SubmitExecutionSummary | src/score/index.ts:219-231 | appends a summary, or rejects it without effect |
| ScoreStore.TrustScoreClient.VerifyProofRecord | src/score/index.ts:185-194 | the record takes over the answer whatever its flag was, in the store too if it is stored there, and nothing else changes |
| ScoreStore.TrustScoreClient.VerifyAllRecords | src/score/index.ts:202-213 | a call that nothing overlaps checks each unverified record of one agent, and returns by how many the verified ones grew |
| ScoreStore.TrustScoreClient.GetAgentScore | src/score/index.ts:236-261 | a score in [0, 100] under the cap for the number of records that decide, proof records before summaries, and 0 without any |
| ScoreStore.RunKeepsFirsts | src/score/index.ts:163-176 | over every history an agent holds exactly its first record of each transaction, in order |
| ScoreStore.FirstsDistinct | src/score/index.ts:168-172 | those records are the agent's own and have distinct transactions |
| ScoreStore.ResubmissionChangesNothing | src/score/index.ts:163-176 | a record submitted again changes nothing |
| ScoreStore.StorableExact | src/score/index.ts:163-176 | the lists a store can hold for an agent are exactly its own records with pairwise distinct transactions |
| ScoreStore.RunOpsKeepsRecords | src/score/index.ts:163-213 | over every run of additions and checks, single or of all records, whatever the chain answers, an agent holds its first record of each transaction; a flag that is set was submitted so or confirmed by a check, and one that was submitted set is so unless a check took a verification away |
| ScoreStore.ScoreOverRuns | src/score/index.ts:163-261 | after every such run the score is at most the cap for the number of distinct records, and at least that of these records as submitted unless a check took a verification away; without records only summaries count |
| Score.ScoresBounded | src/score/index.ts:289-384 | every score lies in [0, 100] and under the cap of 55, 65 or 75 for fewer than 5, 10 or 20 records, for any violation counts |
| ScoreFormula.RawInPoints | src/score/index.ts:322-335 | the raw score times the number of tasks, in points: 60 for a success, 15 more for a risky one, 10 less violations, and 15 in proportion up to a hundred tasks |
| ScoreFormula.ScoreSpelledOut | src/score/index.ts:289-337 | the score is the number of hundredths nearest to the raw score after its penalty, or to its cap |
| ScoreFormula.TallySpelledOut | src/score/index.ts:310-330 | the counts on which it depends, by the records themselves |
| ScoreFormula.SummariesScoreAsUnverified | src/score/index.ts:363-384 | summaries score as the same tasks would as proofs that nobody verified |
| Score.FlawlessScore | src/score/index.ts:289-337 | any flawless records reach each of these caps, and 100 from one hundred records on |
| Score.LegacyBoundExact | src/score/index.ts:363-384 | all summaries with violation counts of at least a bound score 70 or less if and only if the bound is not negative |
| Score.ScoreMonotone | src/score/index.ts:289-337 | success for failure, verified for unverified, fewer violations or higher risk in any records never lowers the score |
| ScoreStore.VerifyingNeverLowers | src/score/index.ts:202-213 | a call of `verifyAllRecords` that nothing overlaps never lowers the score |
| Score.CheckExact | src/score/index.ts:185-194 | a check never lowers the score of a storable history with non-negative counts if and only if it does not find a verified record missing |
| Score.WithdrawalExact | src/score/index.ts:289-302 | and such a check can lower the score of n >= 1 records, v of them verified, if and only if n >= 3 and the withdrawal takes them from at least one half verified to below |
| ScoreStore.FlawlessTaskExact | src/score/index.ts:236-337 | for each number of stored records, of verified ones among them, and all summaries of an agent: with counts that are not negative no further flawless record lowers its score, if and only if the records are not nine with at most three verified, and it is not the first record of an agent whose summaries score more than 55 |
| ScoreStore.GoodSummariesAreSilenced | src/score/index.ts:236-247 | a hundred good summaries score 70, and a first flawless record lowers that to 55 |

## Left out

- Cryptography itself: SHA-256, Ed25519, X25519, base58 and base64 appear only through their laws; `encrypt` and `decrypt` are not modelled.
- Forgery: all peers of the handshake run the code; the proofs are about loss, repetition and order, not about an attacker with keys of its own.
- Values outside JSON proper: `undefined`, `NaN`, `-0`, fractions, integers printed with an exponent, lone surrogates; keys are compared by character.
- Proof.Verify: bundles and events are typed, so the structure check always passes and missing fields are not modelled.
- `generateFromContext`, a wrapper around `generate`.
- Storing and loading traces, `export`, and statistics other than the number of tool calls.
- Floating-point rounding: `real` arithmetic stands for it; the 60/15/15/10 weights and every cap are exact.
- `sceneReputation`, `topPartners`, `topAgentsForScene`, `behaviorConsistencyScore`, `getStats` and metadata of nodes: sums and sorts over data whose invariants are proved.
- The two searches are one method with a parameter for the least path length, since their loops differ only in that.
- HandshakeManagers.HandshakeManager.ReceiveInit: wallet bundles, capabilities, session identifiers and the wire format of messages are not modelled, and whether a message is still timely is a parameter of each step.
- `mintConsentToken` and `verifyConsentToken`.
- Built-in tools, the rollback manager, HTTP routes and registration of tools; the set of tools is fixed per gateway.
- ScoreStore.TrustScoreClient.VerifyAllRecords: the contract is about a call that nothing overlaps; overlapping calls are covered by the runs of `ScoreStore.RunOpsKeepsRecords`. The chain's answers are parameters.
- ScoreStore.OnChainProofRecord: only the flag of a record changes; a caller that writes to another field of a stored record is not modelled.
- Risk flags, risk distribution and average duration of score reports.
- Anchoring, network, registry, content audit, schema validation, command line and demos.
