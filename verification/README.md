# A verified model of Lithair's replicated log, routing and schema evolution

This project models the parts of Lithair whose correctness spans several functions and proves what
they keep. `dafny verify dfyconfig.toml` checks it.

**Replicated CRUD log.** `Crud` holds the operations, the registered models and the stores, and
dispatches by first prefix match. `ReplicatedLog` holds logs by index and the shared arithmetic of
indices and majorities. `Follower` and `Leader` are state machines of one node each, with any number
of concurrent handlers; every await point of a handler is a step boundary. `Cluster` puts one leader,
any number of followers and a network together that loses, duplicates and reorders messages. `Safety`
states what holds in every run. `CrudLaws` says key by key what operations and histories do to the
stores, and `RequestLaws` what each of the leader's senders tells and brings. `CleanRuns` says when requests have holes and what holds for those
that have none. `ClusterReach` is what the cluster can get to from a given state, `Answers` what a
follower's answer shows about the time since then, `FollowerRounds`, `Continuations` and
`AckContinuations` what the cluster can bring about; from these `Continuations` and `AckSafety` derive
exactly when a send is safe to commit and to acknowledge. `HoleCounterexample` gives concrete runs, and
`Reachability` is the relation "leads to".
`ConsensusLog` and `FollowerServer` are the log object and the follower's request handler as
classes, proved against the same functions the state machines use; `Replication` is the loop that
counts acknowledgements.

**Routing.** `Routing` is the wildcard matcher against the set of paths a pattern denotes, and the
choice of a frontend.

**Schema evolution.** `ModelSpecs` is the change detector and the vote policy, `Validation` the
startup loop, `SchemaSync` the pending changes and their handlers, `Migration` the recorded inverses
and the rollback. `ValidationLaws` tells the outcome of a startup from the specifications and the
policy, and `VoteLaws` the fate of a pending change from the events alone.

**Smaller parts.** `Resync` is the throttled snapshot loop, `RbacRole` the role derive,
`RelationAttributes` the relation-attribute scanner, `Literals` the printed form of strings, and
`Percentile` the load generator's percentile.

## What the code does that its comments do not say

- **An acknowledged write need not be applied at a majority, and a committed index need not be stored
  at one.** `append` takes an index from an atomic counter before it takes the entry lock
  (`lithair-core/src/cluster/consensus_log.rs:134-154`), so a request read in between carries entry 2
  without entry 1. A follower that receives it has nothing to apply, reports success, and is counted.
  `HoleCounterexample.AcknowledgedWithoutMajority` is a run in which a write is acknowledged while no
  follower has applied it; in `HoleCounterexample.CommittedOverHole` the leader's commit index covers
  an entry that no node stores, and the open catch-up message does not adjoin its follower's log.
- **Exactly when the guarantees hold**, in every reachable state and for every history.
  `AckSafety.AcknowledgementIsSafeIff`: an acknowledgement of write i is safe if and only if no index up
  to i was waiting for its insert when the request was built, or that was harmless: there is at most one
  follower, or a write up to i has failed, or every follower had heard of commit index i, or too few
  followers can apply what is in front of them for i ever to be acknowledged.
  `Continuations.CommitIsSafeIff`: a commit is safe if and only if no index below the last stored entry
  was waiting, or too few followers can apply what the request makes them list. Per request these are
  `FollowerServer.SuccessCoversCommitIff` and `Safety.StoringCoversPrefixIff`. No follower's log ever has
  a hole if and only if every request is built from a log without pending inserts below its end and every
  queued batch adjoins (`CleanRuns.RunLeavesNoHoleIff`).
- **A proposal may bring votes and a status along.** The handler stores the record its sender wrote.
  `SchemaSync.ProposedWithVotes`, `SchemaSync.ProposedAsApplied` and `SchemaSync.ProposedAsExpired` are
  such proposals; `SchemaSync.RunKeepsRecordsIff` and `SchemaSync.AppliedByConsensusIffMajority` say when
  tallies can be trusted.
- **A string value is read back as it is spelled.** The relation scanner keeps the backslashes of a
  literal; `RelationAttributes.ScanUndoesPrintIff` says when that makes no difference.
- **A failed write stops the leader for good.** The comment at `lithair-core/src/app/mod.rs:3932-3933`
  says that an earlier committed entry will be applied by its own handler; after that handler has
  answered 503 or 500 it never is (`Safety.FailedWriteBlocksForever`).
- The wait for earlier entries to be committed at `lithair-core/src/app/mod.rs:3906-3930` never waits:
  the handler's own commit has already taken the commit index to its entry
  (`Leader.CommitWaitNeverWaits`). What orders the handlers is the wait for the applied index alone.
- `lithair-core/src/app/mod.rs:4586-4587` waits for all followers, although the function's own
  comment speaks of returning at a majority. The model waits for every reply that arrives in time.
- The matcher's comment at `lithair-core/src/app/mod.rs:1448` says `/api/*` does not match deeper paths. The code
  uses `starts_with`, and `Routing.TrailingStarMatchesDeeperPaths` states what it does.
- `leader_commit` of a write's request is sent before a majority exists
  (`lithair-core/src/app/mod.rs:3816`), so followers may apply entries the leader has not committed.
  No theorem here claims otherwise.

## Model

| member | source | states |
|---|---|---|
| Crud.DispatchIsFirstMatch | lithair-core/src/app/mod.rs:1855-1861 | a request goes to model k exactly when k's base path starts the path and no earlier model's does |
| Crud.DispatchAgreement | lithair-core/src/app/mod.rs:4022-4046 | the base path of the model a request was dispatched to selects that very model again, even when base paths prefix one another |
| Crud.LoggedOperationReachesDispatchedModel | lithair-core/src/app/mod.rs:4014-4050 | on every node with the same registry a logged operation fails exactly when its data is malformed, and otherwise changes only the store of the dispatched model; what it does there is stated by the rows of CrudLaws |
| CrudLaws.CreateStores | lithair-core/src/app/mod.rs:4014-4050 | after a create the item's own key of the selected store holds the item, and every other key and store is as before |
| CrudLaws.UpdateStores | lithair-core/src/app/mod.rs:4014-4050 | after an update the given id holds the item if it was present, and otherwise the item's own key does; every other key and store is as before |
| CrudLaws.DeleteRemoves | lithair-core/src/app/mod.rs:4041-4049 | after a delete the id is absent from the selected store, every other key and store is as before, and deleting a missing id is no error |
| CrudLaws.FailsIff | lithair-core/src/app/mod.rs:4022-4050 | an operation fails exactly when no model takes its path or its data does not parse |
| CrudLaws.LastTouchDecides | lithair-core/src/app/mod.rs:4014-4050 | after any history that applies, a key is present exactly when the last operation that touched it put it there, and then holds what that operation put |
| CrudLaws.PresentIff | lithair-core/src/app/mod.rs:4014-4050 | a key is present after a history if and only if some operation put it there and no later one deleted it |
| ReplicatedLog.Unapplied | lithair-core/src/cluster/consensus_log.rs:203-234 | the batch is the entries right after the applied index, in order, each from the log, and it ends only at the commit index or at the first missing index |
| ReplicatedLog.UnappliedReaches | lithair-core/src/cluster/consensus_log.rs:203-234 | nothing before the first hole or the commit index is left out |
| ConsensusLog.ConsensusLog.ReserveIndex | lithair-core/src/cluster/consensus_log.rs:134-138 | reserving hands out the next index and stores nothing |
| ConsensusLog.ConsensusLog.InsertEntry | lithair-core/src/cluster/consensus_log.rs:145-151 | the entry is put before the first one with a greater id, whether or not its id is new; a new id is stored with its operation, a stored one keeps its operation, and the vector stays sorted |
| ConsensusLog.ConsensusLog.Append | lithair-core/src/cluster/consensus_log.rs:134-154 | without interference, an append takes the next index of the current term and stores the operation under it, unless that id is stored already |
| ConsensusLog.ConsensusLog.AppendEntries | lithair-core/src/cluster/consensus_log.rs:158-176 | stored entries win over incoming ones with the same id, all new ones are added, the vector stays sorted, and the commit index is the larger of both, not capped by the log's end |
| ConsensusLog.ConsensusLog.Commit | lithair-core/src/cluster/consensus_log.rs:181-186 | the commit index becomes the maximum of old and new |
| ConsensusLog.ConsensusLog.MarkApplied | lithair-core/src/cluster/consensus_log.rs:239-244 | the applied index becomes the maximum of old and new |
| ConsensusLog.WalkUnapplied | lithair-core/src/cluster/consensus_log.rs:210-233 | the walk from applied + 1 returns exactly the unapplied batch of the log read by index |
| ConsensusLog.ConsensusLog.GetUnappliedEntries | lithair-core/src/cluster/consensus_log.rs:203-234 | the same for the log object, and nothing is removed |
| ConsensusLog.ConsensusLog.GetEntriesFrom | lithair-core/src/cluster/consensus_log.rs:257-260 | the stored entries with at least the given index, all of them, still sorted |
| ConsensusLog.InsertionContents | lithair-core/src/cluster/consensus_log.rs:145-151 | a sorted insert adds one pair to the map from log id to operation, and changes nothing in it when the id is there |
| ConsensusLog.MergeWithinTerm | lithair-core/src/cluster/consensus_log.rs:158-176 | within one term, merging by log id is merging by index, the form the state machines use |
| ConsensusLog.SortedIff | lithair-core/src/cluster/consensus_log.rs:145-151 | the vector is sorted if and only if earlier terms come first and indices ascend within a term |
| ConsensusLog.LastEntryIsLastIndex | lithair-core/src/cluster/consensus_log.rs:158-176 | within one term the last entry of the vector has the greatest index of the log |
| ConsensusLog.FollowingIsUnapplied | lithair-core/src/cluster/consensus_log.rs:203-234 | consecutive entries that end at the commit index or before a hole are all that is unapplied |
| FollowerServer.Server.HandleAppendEntries | lithair-core/src/app/mod.rs:2455-2550 | a stale term changes nothing and fails; otherwise the term and commit index rise to the maximum, the entries are merged, the unapplied ones are applied in order up to the first failure, and success means that none failed |
| FollowerServer.Server.ApplyUnapplied | lithair-core/src/app/mod.rs:2494-2541 | applies and marks the batch in order, stops right before the first operation that fails, and reports success exactly when it reached the end |
| FollowerServer.SuccessCoversCommitIff | lithair-core/src/app/mod.rs:2484-2550 | a request with commit index c takes every follower of the history to c in a successful round if and only if it carries every entry from 1 to c |
| FollowerServer.ReplayConcat | lithair-core/src/app/mod.rs:2508-2530 | applying a batch on top of a replayed prefix is replaying the concatenation, errors included |
| FollowerServer.RoundNeverFails | lithair-core/src/app/mod.rs:2508-2541 | when the whole history applies, no round of any follower of it stops early |
| Follower.StepKeepsInv | lithair-core/src/app/mod.rs:2484-2550 | every step of every concurrent append handler keeps the invariant: one lock holder, stores equal to the replayed prefix, every handler's batch next in line |
| Follower.AppliedExactlyOnce | lithair-core/src/app/mod.rs:2486-2541 | no entry is applied twice, skipped or reordered, and the stores are the replay of exactly the applied entries |
| Follower.FailureStopsBeforeEntry | lithair-core/src/app/mod.rs:2531-2538 | a failed entry leaves stores and progress where they were, right before it, and the handler reports no success |
| Follower.NextApplyIsSuccessor | lithair-core/src/app/mod.rs:2508-2530 | whichever handler applies next applies the entry right after the applied index |
| Follower.CurrentEntry | lithair-core/src/app/mod.rs:2494-2530 | the entry the lock holder is at is applied + 1, stored in the log, with the history's operation |
| Follower.LockedBatchCovers | lithair-core/src/app/mod.rs:2494-2504 | the batch listed under the lock, by a commit index that may be out of date but not older than the handler's own merge, covers everything the handler's own request promised |
| Follower.LockLists | lithair-core/src/app/mod.rs:2494-2504 | listed are the entries right after the applied one, none beyond the commit index that was read, and all up to there or to the first hole |
| Leader.StepKeepsInv | lithair-core/src/app/mod.rs:3761-3965 | every step of every concurrent write handler keeps the leader's invariant |
| Leader.AppliesInIndexOrder | lithair-core/src/app/mod.rs:3891-3957 | whatever order replications finish in, the handler that applies entry i finds exactly i - 1 applied, all earlier handlers done, and entries applied as 1, 2, ..., i |
| Leader.TurnsAreExclusive | lithair-core/src/app/mod.rs:3931-3957 | no two handlers are past the wait for their predecessor at once |
| Leader.FailedWriteBlocksLaterOnes | lithair-core/src/app/mod.rs:3906-3980 | no step takes the applied index to or past an entry whose handler failed |
| Leader.CommitWaitNeverWaits | lithair-core/src/app/mod.rs:3906-3930 | a handler that has committed finds the commit index at its own entry or beyond, so the wait for earlier commits ends at once and cannot time out |
| Cluster.StepKeepsInv | lithair-core/src/app/mod.rs:3761-3965 | every step of leader, follower or network keeps the joint invariant that ties logs, acknowledgements, requests and recorded progress together; what each sender tells and brings is stated by the rows of RequestLaws |
| RequestLaws.NotificationTellsCommit | lithair-core/src/app/mod.rs:3841-3866 | over runs: a commit notification tells a committed index, the last one the write sent; every follower past the merge of that request has at least this commit index, and a success answer to it has applied every prefix the leader's log held in full, up to there |
| RequestLaws.NotificationReaches | lithair-core/src/app/mod.rs:3841-3866 | from any later state, whatever happened in between, a follower for which everything applies can get to that commit index through this notification alone, with the leader and all other followers unchanged |
| RequestLaws.SenderInforms | lithair-core/src/app/mod.rs:952-1104 | over runs, for each of the four senders: a follower past the merge of its request has heard the commit index it was to tell, stores the entries it was to bring with the history's operations, and has on success applied every prefix of them up to there |
| RequestLaws.SenderReaches | lithair-core/src/app/mod.rs:952-1104 | for each of the four senders, and from any later state of the run, its request alone can bring a follower there |
| RequestLaws.OnlyCommittedIsTold | lithair-core/src/app/mod.rs:952-1010 | notifications and catch-ups tell only committed indices, and a catch-up only what its follower lacks |
| RequestLaws.QueuedIsSentInABatch | lithair-core/src/app/mod.rs:1038-1104 | an entry that has been queued is never lost: in every later state it is queued or on the network in a batch |
| RequestLaws.RecordMakesProgress | lithair-core/src/app/mod.rs:995-1010 | recording an answer to a write or a catch-up brings the recorded progress to the end of what was sent, changes no other follower's, and ends that catch-up |
| RequestLaws.RecordsIff | lithair-core/src/app/mod.rs:4573-4580 | progress is recorded from a success of a write, from any answer to a catch-up or batch, and never from a notification |
| RequestLaws.CommitsIff | lithair-core/src/app/mod.rs:4480-4489 | a write commits exactly when it waits and, with the leader, more than half of all nodes have acknowledged it |
| RequestLaws.GivesUpIff | lithair-core/src/app/mod.rs:3822-3985 | in a reachable state a handler gives up only while it waits for acknowledgements |
| Safety.StateMachineSafety | lithair-core/src/app/mod.rs:2486-2541 | in every reachable state each node's stores are the replay of the first entries of the leader's history, each applied once and in order, as many as its applied index says while the lock is free |
| Safety.EqualProgressEqualStores | lithair-core/src/app/mod.rs:4014-4050 | two nodes that have applied equally many entries hold equal stores, even at different times of a run |
| Safety.FailedWriteBlocksForever | lithair-core/src/app/mod.rs:3891-3965 | after a 503 or 500 for entry i, no later state acknowledges i or anything behind it |
| Safety.MajoritiesIntersect | lithair-core/src/app/mod.rs:4480-4483 | two majorities of the same nodes share a node |
| Safety.QuorumMeetsEveryMajority | lithair-core/src/app/mod.rs:4480-4489 | the leader with a quorum of followers shares a node with every majority of all nodes |
| Safety.EveryMajorityStoresAcknowledged | lithair-core/src/app/mod.rs:3841-3965 | in any state, every majority of the nodes has one that stores any given acknowledged entry, or one before it, with its own operation |
| Safety.AcknowledgedEntriesAreStoredAtMajorities | lithair-core/src/app/mod.rs:3841-3965 | in any state, when entry i is acknowledged, every entry up to i is stored with its own operation at a majority |
| Safety.AcknowledgedMeansAppliedAtMajority | lithair-core/src/app/mod.rs:2543-2550 | for a write whose request carried every entry up to its own, acknowledged means that leader and counted followers, a majority, have applied 1..i in order |
| Safety.CommitSafety | lithair-core/src/app/mod.rs:3841-3845 | the commit index is the last index of a request that a majority stores in full; without a hole in that request a majority stores the whole prefix |
| Safety.StoringCoversPrefixIff | lithair-core/src/app/mod.rs:3841-3845 | whoever stores a request stores the whole prefix up to its end if and only if the request has no hole |
| Safety.RequestIsHoleFreeIffNoPendingInsert | lithair-core/src/cluster/consensus_log.rs:134-154 | a request taken now carries every entry up to i if and only if no handler up to i is between reserving and inserting |
| Safety.RecordedProgressIsStored | lithair-core/src/app/mod.rs:4573-4580 | what the leader records as a follower's last replicated index never exceeds that follower's log end |
| CleanRuns.SentHoleFreeIff | lithair-core/src/app/mod.rs:3796-3799 | a request carries every entry up to the write's own, or has no hole at all, if and only if no insert was pending up to there when it was sent |
| CleanRuns.CleanAcknowledgedMeansApplied | lithair-core/src/app/mod.rs:3796-3821 | in every run, a write sent while no index up to its own was waiting for its insert is acknowledged only when applied in order at a majority of all nodes; other writes and later indices do not matter |
| CleanRuns.CleanCommitSafety | lithair-core/src/app/mod.rs:4586-4644 | in every run, when the writes whose requests end at the commit index were sent while no insert below the last stored entry was pending, the whole prefix up to it is stored at a majority |
| CleanRuns.CatchUpLeavesNoHole | lithair-core/src/app/mod.rs:952-1010 | in every run without queued batches whose requests are read while no insert below the last stored entry is pending, no follower log has a hole and every message adjoins the log of any follower it can reach |
| CleanRuns.StepLeavesNoHoleIff | lithair-core/src/app/mod.rs:937-1104 | from a state without holes, a write's request, a commit notification, a catch-up message or a queued batch leaves none if and only if it is built from a log without pending inserts below its end, or adjoins every follower's log |
| CleanRuns.RunLeavesNoHoleIff | lithair-core/src/app/mod.rs:937-1104 | over whole runs, no follower log ever has a hole and every message adjoins if and only if every sender's check held |
| FollowerRounds.Serve | lithair-core/src/app/mod.rs:2484-2550 | from any state of a follower a received request can be served to a successful answer, whoever holds the apply lock, provided that what is listed after its merge applies |
| Answers.AnswerCovers | lithair-core/src/app/mod.rs:2484-2550 | a follower counted for a write that was sent after a given state has applied every prefix of its request up to the write, and up to the commit index the follower had in that state |
| Answers.BothAnswersApply | lithair-core/src/app/mod.rs:2484-2550 | a follower counted for write i and for a request that holds the whole prefix up to i has applied entry i, in whatever order the two arrived |
| Continuations.PendingInsertBreaksCommit | lithair-core/src/app/mod.rs:3796-3845 | from any state in which a write is about to be sent over a pending index below the last stored entry, and enough followers can serve it, the cluster can commit past that index while no node stores its entry |
| Continuations.CountedIsServer | lithair-core/src/app/mod.rs:2504-2550 | only followers for which everything applies that the request makes them list ever count for it |
| Continuations.CommitIsSafeIff | lithair-core/src/app/mod.rs:3841-3845 | in every state and for every history: however the run goes on, a committed write has the whole prefix of its request stored at a majority, if and only if no insert below the last stored entry was pending when it was sent, or too few followers can apply what it makes them list |
| AckSafety.PendingInsertBreaksAcknowledgement | lithair-core/src/app/mod.rs:3796-3957 | from any state in which a write is about to be sent over a pending smaller index, and that is not harmless, it can be acknowledged while fewer followers have applied it than a majority needs |
| AckSafety.NonePendingIsSafe | lithair-core/src/app/mod.rs:3796-3957 | without a pending smaller index, however the run goes on, an acknowledged write is applied at the followers that answered it, a majority |
| AckSafety.LastSent | lithair-core/src/app/mod.rs:3796-3957 | behind an acknowledged write that was sent over a pending index there is a committed one up to it that was sent later with the whole prefix |
| AckSafety.HarmlessPendingApplies | lithair-core/src/app/mod.rs:3796-3957 | a pending smaller index is harmless with a single follower, after a failed write, when every follower has heard of the commit index, or when too few can go on |
| AckSafety.AcknowledgementIsSafeIff | lithair-core/src/app/mod.rs:3796-3957 | in every state and for every history: however the run goes on, an acknowledged write is applied at a majority, if and only if no smaller index was pending when it was sent, or that was harmless |
| HoleCounterexample.AcknowledgedWithoutMajority | lithair-core/src/app/mod.rs:3796-3957 | a concrete run with two followers ends in a state where write 2 is acknowledged and no follower has applied it |
| HoleCounterexample.CommittedOverHole | lithair-core/src/cluster/consensus_log.rs:134-154 | a concrete run ends with commit index 2 while no node, the leader included, stores entry 1, a follower log has a hole, and the open catch-up message does not adjoin its follower's log |
| Replication.ReplicateLogEntries | lithair-core/src/app/mod.rs:4460-4643 | a round succeeds exactly when there are no peers, or leader and replies that have joined and report success are more than half of all configured nodes; with different peers these are the peers that answered success; without any such reply it fails however many arrive; its value is the last entry's index |
| Replication.AsksAllButDesynced | lithair-core/src/app/mod.rs:4494-4519 | a request goes to each configured peer as often as it is listed, unless the peer is known to be desynced |
| Replication.EachPeerCountsOnce | lithair-core/src/app/mod.rs:4595-4600 | with different peers configured, each is counted once at most |
| Replication.ArrivalOrderIsIrrelevant | lithair-core/src/app/mod.rs:4586-4632 | replies that are a permutation of one another are counted the same |
| Replication.SkippedFollowersStillCount | lithair-core/src/app/mod.rs:4491-4513 | skipped desynced followers stay in the total: with too few left to ask, no replies of distinct asked peers reach a majority |
| Replication.MajorityIsPossibleIff | lithair-core/src/app/mod.rs:4491-4513 | some replies of the asked peers reach a majority if and only if the leader and those peers are one |
| Replication.MajorityMeansMoreThanHalf | lithair-core/src/app/mod.rs:4480-4483 | the integer arithmetic of the majority means strictly more than half of all nodes |
| Routing.PathMatches | lithair-core/src/app/mod.rs:1452-1500 | the matcher accepts exactly the paths the pattern denotes: itself, the paths that start with the text before a trailing star, or the pattern with each star segment replaced by a slash-free string |
| Routing.FillingIsSegmentwise | lithair-core/src/app/mod.rs:1476-1497 | such a replacement exists if and only if both have equally many segments that agree one by one |
| Routing.JoinOfSplit | lithair-core/src/app/mod.rs:1476-1477 | joining the segments of a path with slashes gives the path back |
| Routing.SplitOfJoin | lithair-core/src/app/mod.rs:1476-1477 | splitting the join of slash-free segments gives the segments back |
| Routing.TrailingStarMatchesDeeperPaths | lithair-core/src/app/mod.rs:1468-1473 | a trailing single star matches every deeper path too |
| Routing.DoubleStarTail | lithair-core/src/app/mod.rs:1460-1466 | a pattern that ends in a double star segment accepts a path if and only if the path starts with the text before it |
| Routing.SingleStarTail | lithair-core/src/app/mod.rs:1468-1473 | so does one that ends in a single star segment, unless another star segment comes before it |
| Routing.StarSegments | lithair-core/src/app/mod.rs:1476-1497 | in any other pattern with a star, each star segment stands for one segment, whatever it is, and every other segment for itself |
| Routing.ChooseFrontend | lithair-core/src/app/mod.rs:1867-1929 | in whatever order the keys come, the chosen prefix is the longest registered prefix of the path, none only if there is none, and a non-root prefix followed by the asset path is the path |
| Routing.ChoiceIsIndependentOfOrder | lithair-core/src/app/mod.rs:1868-1870 | any two longest registered prefixes of a path are the same, so map iteration order does not matter |
| Migration.InverseRestoresIff | lithair-core/src/app/mod.rs:4230-4305 | for a change valid where it runs, executing the recorded inverse restores the schema if and only if it adds a model, adds a field or renames a field |
| Migration.DoubleInverseIff | lithair-core/src/app/mod.rs:4262-4305 | the inverse of the inverse is the change itself exactly for renames |
| Migration.CustomInverse | lithair-core/src/app/mod.rs:4298-4305 | one inverse of a custom change exchanges its two texts, and two inverses give both back |
| Migration.TextUndo | lithair-core/src/app/mod.rs:4244-4297 | where the undo is text, the text names the change, and undoing it again repeats the change |
| Migration.RollbackRestores | lithair-core/src/app/mod.rs:4173-4184 | for any list of such changes, the recorded inverses executed last to first restore the starting schema |
| Migration.MigrationContext.RecordStep | lithair-core/src/cluster/upgrade.rs:199-212 | recording appends one undo operation and moves to the next step |
| Migration.MigrationContext.RunSteps | lithair-core/src/app/mod.rs:4092-4119 | after running, the log holds the inverses of exactly the steps that succeeded, in order |
| Migration.MigrationContext.Rollback | lithair-core/src/app/mod.rs:4173-4190 | the recorded operations are executed last to first, one that does not apply is counted as an error and does not stop the others, and the log is emptied |
| Migration.NoErrorsIff | lithair-core/src/app/mod.rs:4177-4194 | a rollback reports no error if and only if all its operations apply in order, and then it is their execution |
| Migration.UndoConcat | lithair-core/src/app/mod.rs:4177-4194 | undoing two lists is undoing the second where the first ended, and errors add up |
| Migration.UndoOne | lithair-core/src/app/mod.rs:4177-4194 | an operation that does not apply costs one error and changes nothing |
| Migration.MigrateAndRollBack | lithair-core/src/app/mod.rs:4092-4194 | a migration that stops anywhere is undone as a whole, without errors |
| ModelSpecs.SilentIff | lithair-core/src/schema/mod.rs:149-412 | the detector reports nothing if and only if fields, watched constraints and index names agree and there is no new foreign key |
| ModelSpecs.NoChangesAgainstItself | lithair-core/src/schema/mod.rs:149-412 | a specification has no changes against itself |
| ValidationLaws.ReportedIff | lithair-core/src/schema/mod.rs:149-412 | a change is reported if and only if the two specifications differ in that way, with the strategy and the consensus flag of its kind |
| ValidationLaws.BreakingIff | lithair-core/src/schema/mod.rs:149-450 | some change is breaking if and only if a field is gone, changed its type or lost its index, an index is gone, a foreign key is new, or a new field is primary or unique without a default; versioned if and only if a new field is mandatory without a default; and consensus is required if and only if one of the two |
| Validation.ValidateSchemas | lithair-core/src/app/mod.rs:273-530 | the loop does what one round per model does, and fails exactly in strict mode with a model that counts as breaking; what a round does is stated by the rows of ValidationLaws |
| ValidationLaws.ClusterTreatment | lithair-core/src/app/mod.rs:366-433 | in a cluster a changed model is treated by the policy for its worst difference: auto-acceptance installs exactly the current specification, adds one history entry and writes the file if saving works; rejection leaves the world alone and counts as breaking; anything else adds exactly one proposal with new and old specification in their places and leaves schemas, files and history alone |
| ValidationLaws.StandaloneModes | lithair-core/src/app/mod.rs:435-500 | outside a cluster auto mode writes the file and on success adds the history entry, manual mode adds one proposal, and strict and warn mode leave the world alone |
| ValidationLaws.LockedChangeIsBlocked | lithair-core/src/app/mod.rs:333-347 | under the lock a changed model is left alone and counts as breaking, whatever its changes are |
| ValidationLaws.UnchangedIsTaken | lithair-core/src/app/mod.rs:318-522 | a model without a readable file is written, even under the lock, an unchanged one is not, and a cluster takes both into its schemas |
| ValidationLaws.ClusterStartup | lithair-core/src/app/mod.rs:293-522 | over a whole cluster startup, pending afterwards is what was pending and one proposal for each model that is neither accepted nor rejected, and the schema of each model is its current specification exactly when it is new, unchanged or auto-accepted |
| ValidationLaws.StartupFailsIff | lithair-core/src/app/mod.rs:293-530 | a startup counts as breaking if and only if some model differs from its file as found at the start and is locked, has a change that is not additive, or is rejected by the policy |
| Validation.AutoValidationConverges | lithair-core/src/app/mod.rs:293-522 | in auto mode, standalone and unlocked, with working saves, a second validation changes nothing and reports nothing |
| Validation.AutoRecordsExactlyTheChanges | lithair-core/src/app/mod.rs:293-522 | such a validation adds exactly one history entry per model that differed from its file as found at the start, proposes nothing and leaves other files alone |
| Validation.AllSettle | lithair-core/src/app/mod.rs:293-522 | after it every model's stored file has no changes against the model |
| Validation.SettledIsUntouched | lithair-core/src/app/mod.rs:318-334 | models without changes are left alone in every mode outside a cluster |
| Validation.LockedModelIsUntouched | lithair-core/src/app/mod.rs:333-347 | while migrations are locked a readable stored file, the history and the proposals stay |
| SchemaSync.SchemaServer.HandlePropose | lithair-core/src/app/schema_handlers.rs:52-117 | a proposal is applied, refused or recorded as its strategy says, with the expiry its timeout gives, and the answer says which |
| SchemaSync.SchemaServer.HandleVote | lithair-core/src/app/schema_handlers.rs:158-233 | a vote is tallied once per node, decides by approval first, answers 404 and 409 without effect, and installs the specification only when applied; which votes get in and what they decide is stated by the rows of VoteLaws |
| SchemaSync.SchemaServer.HandleApprove | lithair-core/src/app/schema_handlers.rs:398-480 | a human approval is tallied once per user, applies the change when enough have approved, and then writes its specification to disk if that works |
| SchemaSync.SchemaServer.HandleReject | lithair-core/src/app/schema_handlers.rs:538-553 | a pending change becomes rejected with the given reason; others are left alone |
| VoteLaws.TalliesComeFromEvents | lithair-core/src/app/schema_handlers.rs:200-213 | over runs, until a proposal replaces the record, the approvals gained are exactly the nodes of approving votes cast while it was pending, the rejections gained those of rejecting votes, and the human approvals gained the users that approved by hand |
| VoteLaws.DecidedByEventsIff | lithair-core/src/schema/sync.rs:294-329 | over runs, a record that starts pending and without votes is, under consensus, applied if and only if more than half of the nodes sent an approving vote, and rejected if and only if it was rejected by hand or more than half sent a rejecting one; under manual approval, applied if and only if it was voted on or approved and enough users approved, and rejected if and only if by hand or by a vote after its expiry with too few approvals until then; likewise for the other two strategies |
| VoteLaws.ProposalEffect | lithair-core/src/app/schema_handlers.rs:52-117 | what a proposal does under the policy for its class: installed, refused, or recorded with an expiry counted from now |
| VoteLaws.DecisionEffect | lithair-core/src/app/schema_handlers.rs:214-226 | a vote, approval or rejection touches no other record, installs the proposed specification exactly when it applies the change, and writes it to disk exactly when an approval by hand applies it and saving works |
| VoteLaws.AppliedWasInstalled | lithair-core/src/app/schema_handlers.rs:214-226 | over runs, an applied change has installed its specification in one of the steps since it was pending |
| VoteLaws.ReasonIsFirstGiven | lithair-core/src/schema/sync.rs:269-280 | over runs, the reason is the one a rejection by hand gave, or else the first one a node gave with its first rejecting vote |
| VoteLaws.StartupStartsWithoutVotes | lithair-core/src/schema/sync.rs:196-236 | a change proposed at startup starts pending and without votes, with the new specification to install and the class of its worst change |
| SchemaSync.DecidedIsFinal | lithair-core/src/app/schema_handlers.rs:158-233 | over any run, and for any proposals, a decided record keeps its status, tallies and reason until a proposal under its id replaces it |
| SchemaSync.DecidedOnce | lithair-core/src/app/schema_handlers.rs:158-233 | a change leaves Pending in at most one step of a run, unless a proposal under its id replaces it in between |
| SchemaSync.SchemaChangesOnlyByApplying | lithair-core/src/app/schema_handlers.rs:398-468 | a model's specification changes only in the step that applies one pending change of that model, or auto-accepts a proposal for it, and to exactly that specification |
| SchemaSync.DecidedIgnoresEvents | lithair-core/src/app/schema_handlers.rs:538-553 | no vote, approval or rejection of a decided change alters anything |
| SchemaSync.RunKeepsRecords | lithair-core/src/schema/sync.rs:262-329 | from any start, a record that was in order at the start and whose proposals were counts each voter once in every state, and is applied only with the approvals its policy asks for |
| SchemaSync.StepKeepsRecordsIff | lithair-core/src/app/schema_handlers.rs:52-117 | a step keeps all records in order if and only if a record it stores is in order itself |
| SchemaSync.RunKeepsRecordsIff | lithair-core/src/app/schema_handlers.rs:52-233 | from any start, all records are in order in every state if and only if those at the start and every stored proposal were |
| SchemaSync.ProposedWithVotes | lithair-core/src/app/schema_handlers.rs:30-108 | a proposal that brings two votes along is pending with a majority of three nodes |
| SchemaSync.ProposedAsApplied | lithair-core/src/app/schema_handlers.rs:30-108 | a proposal that says it is applied counts as applied without a vote and without its specification |
| SchemaSync.ProposedAsExpired | lithair-core/src/app/schema_handlers.rs:30-108 | a proposal that says it has expired is in order and has a majority, yet is not applied |
| SchemaSync.StartupIsInOrder | lithair-core/src/app/mod.rs:430-495 | the changes that startup validation proposes are in order, whatever they are |
| SchemaSync.AppliedByConsensusIffMajority | lithair-core/src/schema/sync.rs:294-309 | under consensus a record that was in order is applied only with the approval of more than half of the nodes, counted as different nodes, and is never pending with it; so applied and majority agree if and only if a record with a majority is pending or applied |
| Resync.RunLoop | lithair-core/src/app/mod.rs:784-935 | two sends to one follower start at least a cooldown apart; only every n-th tick as leader starts sends, to desynced followers, at most the configured number, and a due follower is left out only when that number is reached, and then for those listed before it |
| Resync.CheckIntervalInTicks | lithair-core/src/app/mod.rs:784-800 | the ticks between two checks last as long as configured, rounded down to whole ticks of 100 ms, and one tick at least |
| Resync.StartsSpreadOut | lithair-core/src/app/mod.rs:824-842 | c starts inside a window reach at least c - 1 cooldowns into it |
| Resync.ResyncRateBound | lithair-core/src/app/mod.rs:824-842 | at most floor(w / cooldown) + 1 sends to one follower start in any window of length w |
| RbacRole.ExtractPermissions | lithair-macros/src/rbac_role.rs:100-131 | extraction succeeds exactly on well-formed attributes and then yields exactly the listed names |
| RbacRole.DeriveRbacRole | lithair-macros/src/rbac_role.rs:20-80 | the generated match, first arm winning and wildcard last, is true of a role and a permission exactly when the role's attributes list it or "all" |
| RbacRole.ListsIff | lithair-macros/src/rbac_role.rs:100-131 | an identifier counts if and only if a `permissions` or a `permission` attribute contains it |
| RbacRole.RoleHasIff | lithair-macros/src/rbac_role.rs:36-80 | in the generated match a role has a permission if and only if one of its two kinds of attributes contains it or "all" |
| RbacRole.FirstArmDecides | lithair-macros/src/rbac_role.rs:36-80 | the first arm for a role decides alone, and the catch-all denies |
| RbacRole.VariantOrderIsIrrelevant | lithair-macros/src/rbac_role.rs:20-80 | two derives of the same variants in different order answer alike |
| RelationAttributes.ParseRelationAttributes | lithair-macros/src/declarative_simple.rs:406-460 | the index loop computes the scan function the laws below are about |
| RelationAttributes.ScanReadsSpelling | lithair-macros/src/declarative_simple.rs:406-460 | scanning the printed form of any list of directives gives the record the list means, each value as it is spelled in its literal |
| RelationAttributes.ScanUndoesPrintIff | lithair-macros/src/declarative_simple.rs:406-471 | that is exactly the record of the list if and only if the value each key ends up with needs no escape |
| RelationAttributes.LastDirectiveWins | lithair-macros/src/declarative_simple.rs:406-460 | of several directives for one key the last one counts |
| RelationAttributes.ReadsKeys | lithair-macros/src/declarative_simple.rs:406-460 | each of the four keys sets its own attribute to the value that follows, and no other |
| RelationAttributes.ReadsWords | lithair-macros/src/declarative_simple.rs:406-460 | each of the four words sets its flag, and no other |
| RelationAttributes.PassesOver | lithair-macros/src/declarative_simple.rs:406-460 | an unknown token, and a key without a value behind it, are passed over |
| RelationAttributes.ExtractBetweenQuotes | lithair-macros/src/declarative_simple.rs:462-471 | the value is the text between the first and the last quote |
| RelationAttributes.NoValue | lithair-macros/src/declarative_simple.rs:462-471 | without two quotes there is no value, and the key keeps what it had |
| RelationAttributes.ExtractOfLiteralIff | lithair-macros/src/declarative_simple.rs:462-471 | a printed literal is read back as its value if and only if no character of the value needs an escape |
| Percentile.PercentileWithinExtremes | examples/09-replication/http_loadgen_demo.rs:96-110 | on sorted samples every percentile lies between the smallest and the largest sample |
| Percentile.PercentileMonotone | examples/09-replication/http_loadgen_demo.rs:96-110 | a larger p never gives a smaller percentile |
| Percentile.ReportedFiguresInOrder | examples/09-replication/http_loadgen_demo.rs:112-120 | p50, p95 and p99 are in order |
| Percentile.PercentileAtWholeRank | examples/09-replication/http_loadgen_demo.rs:96-110 | at a whole rank the percentile is that very sample |
| Percentile.PercentileIsLinear | examples/09-replication/http_loadgen_demo.rs:96-110 | between two neighbouring ranks the percentile is linear in p |
| Percentile.MedianOfTwo | examples/09-replication/http_loadgen_demo.rs:107-109 | p50 of two samples is their mean |
| Percentile.PercentileOutside | examples/09-replication/http_loadgen_demo.rs:96-103 | p at or below 0 gives the first sample, at or above 1 the last, and no samples give 0 |

## Left out

- AcknowledgedMeansAppliedAtMajority: needs a request without holes, because the unconditional claim is false (`HoleCounterexample.AcknowledgedWithoutMajority`); `AcknowledgementIsSafeIff` is the exact condition.
- CommitSafety: the whole prefix is claimed only for a request without holes (`HoleCounterexample.CommittedOverHole`); `CommitIsSafeIff` is the exact condition.
- CatchUpLeavesNoHole: leaves out runs that send queued batches; `RunLeavesNoHoleIff` includes them with their exact condition.
- InverseRestoresIff: the meaning of a change is the model's reading of its name and fields, since `apply_schema_change` only logs it.
- RollbackRestores: in that meaning of changes.
- MigrateAndRollBack: in that meaning of changes.
- RunSteps: a step fails where it is not valid in that meaning; in the source applying a step never fails, and the steps come as one log entry each.
- Leader and follower handlers as methods of a shared object: their concurrency is modelled as state machines over values, where every await is a step; `FollowerServer` and `ConsensusLog` give the uninterrupted handler and the log object as classes.
- A cluster of one node: without peers a write does not take the consensus branch (`lithair-core/src/app/mod.rs:3647`); runs of the state machines with no followers stand for nothing in the code.
- Leader election, heartbeats, several leaders or terms in one cluster run, crash and restart, write-ahead log and recovery.
- Liveness: a request may be lost, a handler may wait forever.
- `handle_migrate_operation`: it applies without the apply lock and never marks its entry, so the order theorems are not claimed for runs that use it.
- `handle_install_snapshot` and the progress it makes the leader record: items already present are treated by code outside this model, so equality of stores is not claimed after it.
- `handle_admin_schema_rollback`: history ids are generated anew, so its success branch has no path from the modelled handlers.
- Changing the policy or the number of nodes during a run of the schema handlers.
- Inverses that are text only (restoring a removed model or field, a changed type, an index) have no meaning to execute.
- The order, the SQL and the text fields of detected changes.
- How an operation is built from a request (generated ids, time stamps, merging of partial updates), event storage and broadcasts.
- Cancellation of a request's future by the HTTP server in the middle of a handler.
- The `/_astro/` fallback of the frontends.
- String literals written in other ways than the standard escapes (raw strings, numeric escapes), and debug forms of characters beyond those escapes.
- Other macro attribute parsers, the builder, TLS, HTTP plumbing and JSON responses.
- Rounding of floating-point numbers in the percentile, which is modelled over reals.
- The load generator's bulk loop.
