# A verified model of the Raft lock service

This project models a replicated lock service written in Go: a Raft cluster whose leader also keeps, for
every lock, a lease and a first-in-first-out queue of waiting clients. It proves what the service promises
over whole runs: at most one leader a term, one command for each index and term, committed entries that
stay, leases that never overlap, a queue that nobody overtakes, and a log file from which exactly the
backed-up log and its two state maps come back, or, on an exact condition, none. It proves as well when the
service must act: who is granted a lock, which locks are released, who is elected, what is committed, and that
followers catch up.

The project has four parts.

- **Storage.** `log_memory.dfy`, `state_map.dfy`, `kv_map.dfy`, `node_store.dfy`: the log (a map and a
  maximum index) and the two state maps that replay it. `framing.dfy`, `recovery.dfy`, `log_file.dfy`: the
  framed log file.
- **The lock service of one leader.** `acquirement_queue.dfy`, `lock_service.dfy`: the queue of a lock and
  the five paths by which lock entries reach the log. `reign*.dfy`: the invariant that all five keep, and
  the theorems about every run of a reign. `service_outcomes.dfy`: what every service must do and answer, in
  terms of the committed log and the queue, in both directions. A *reign* is one leader term that begins
  with no lock entry above the commit index; key-value entries may be there. The appended nonce is seeded
  from the applied one only (node/dlock_interchange.go:87-91): `OpeningIsSoundIff` (`reign_opening.dfy`)
  shows that the nonce claims hold exactly under this condition, and `EarlyLeaderGetsStuck` is a leader that
  lacks it.
- **The cluster.** `raft_node.dfy`, `node_steps.dfy`, `node_outcomes.dfy`: the handlers of one node as
  functions on its value, what they keep, and what every message must make a node do. `cluster.dfy`: N nodes
  and the set of all messages ever sent, which may be delivered late, again or never; every step is one
  critical section of one node. `election.dfy`, `cluster_logs.dfy`, `cluster_theorems.dfy`,
  `term_order.dfy`, `holding.dfy`: what holds over every run of a fresh cluster. `replication.dfy`,
  `replication_theorems.dfy`, `replication_files.dfy`: the logs, lock maps and files of all nodes over every
  run in which only longest logs are written to. `whole_system.dfy`: the lock service running on the leader
  of such a cluster, what clients may rely on at every node, and which nodes can restart.
  `successive_reigns.dfy`: when all this holds again under a later leader. `catching_up.dfy`: a follower
  that agrees with its leader gets the whole log. `trio_runs.dfy`, `stale_answers.dfy`, `lost_commits.dfy`,
  `back_off.dfy`: three things the code does not keep, with concrete runs of three nodes and exact
  conditions.
- **The objects.** `server.dfy`, `lock_scan.dfy`, `client_server.dfy`: a node and its lock service, which
  refer to each other and therefore share a module, and the service that clients call.

The program's objects appear twice. The functions (`RaftNode`, `LockService`, `AcquirementQueue`, ...) say
what a step does to a value, and the theorems are about them. The classes (`LogMemory`, `StateMapMemoryDLock`,
`StateMapMemoryKVStore`, `CommandDLock`, `DlockVolatileAcquirement`, `Server`, `DlockInterchange`,
`ClientServer`, `DiskFile`) have the program's fields and loops, and each method is proved to change its
object's `View()` exactly as the function says. Queued commands are objects there, which are rewritten where
they stand.

## Hypotheses

- Nodes do not crash inside a cluster run: the term and the vote are not written to disk. Ids are distinct
  and non-zero, and the peer lists agree (README.md:151-154 of the service).
- No answer makes a node retreat to an earlier term, or give up leading in the term it leads. The code
  compares an answer with the term of its request only (node/node.go:349-358, node/node.go:562-570), so a
  stale answer can do that. `VoteResponseRetreatsIff` and `AppendResponseRetreatsIff` say exactly which
  answers do, and `TwoLeadersInOneTerm` and `TwoLeadersByAppendAnswer` are runs of three nodes in which one
  such answer, to a vote request or to an append, leads to two leaders of one term.
- Where logs of several nodes are compared, whoever writes has a log no shorter than any other's
  (`ByLongest`). `WriteKeepsChainIff` shows that a write keeps the logs together exactly then. It holds
  whenever one node writes at a time and every new writer starts with a longest log (`OneWriterIsChain`,
  `HandOverIff`). Nothing else is asked: nodes may be in any terms, time out, run for election, vote, win,
  and lead without writing, and messages may be lost, late or repeated.
- The lock service of a reign runs on one leader that keeps its term while nobody else writes. A later leader
  opens the next reign on the condition of `NextReignStarts`.
- Inside a reign, times do not decrease, and every release attempt passes the leader check like a new
  request (the polling loop at node/clisrv_server.go:439-466 does not repeat that check).
- Encoding an entry, a command or a lock state and decoding it again yields the same value.

Where the documentation and the code differ, the model follows the code: the documentation promises a
release "as soon as" a lock expires (README.md:249-253 of the service), while the scan and a direct
acquirement wait until the time is strictly past the lease and the queue grants already at its end
(node/dlock_interchange.go:112, node/dlock_interchange.go:201, node/dlock_interchange.go:342). Lease exclusion
holds for both.

## Model

| member | source | states |
|---|---|---|
| LogStorage.InsertListEffect | storage/log_memory.go:37-86 | inserting a consecutive list inside or next to a dense log leaves it dense, with exactly the listed entries at their indices and every other entry unchanged |
| LogStorage.LastIndexOfTermIsGreatest | storage/log_memory.go:89-110 | on a dense log the backward search yields the greatest index of the term, or reports its absence, and never a missing entry |
| LogStorage.LogMemory.InsertLogEntry | storage/log_memory.go:37-57 | the log is the old one with this entry under its index, and the maximum grown if needed |
| LogStorage.LogMemory.FetchLogEntry | storage/log_memory.go:59-73 | an entry is found exactly when its index is present and not above the maximum |
| LogStorage.LogMemory.InsertValidEntryList | storage/log_memory.go:76-86 | the loop inserts the entries in order |
| LogStorage.LogMemory.FetchLastIndexOfTerm | storage/log_memory.go:89-110 | the loop finds what the search on the value finds; term 0 is index 0 |
| StateMap.KeywordSelectsDLock | storage/statemap_memory_impl.go:188-193 | the keyword prefix selects the lock commands and no others |
| StateMap.UpdateStep | storage/statemap_memory_impl.go:179-243 | an entry is accepted exactly when it continues its predecessors; the map then is the last write of every lock one entry further on, and otherwise does not change |
| StateMap.ApplyRangeMeaning | storage/statemap_memory_impl.go:263-288 | a range is applied without error exactly when all its entries continue their predecessors; the result is the last write of every lock |
| StateMap.ReplayIsLastWrite | node/node.go:146-153 | replay from index 1 succeeds exactly for orderly logs and yields the last write of every lock |
| StateMap.ChunkedReplay | storage/statemap_memory_impl.go:263-288 | replay in two consecutive chunks, of any map and log, is one replay, errors included |
| StateMap.DescribesUnique | storage/statemap_memory_impl.go:263-288 | maps that describe the same entries, even of two logs, are equal |
| StateMap.ApplyRangeKeepsKeyed | storage/statemap_memory_impl.go:224-241 | every state stays filed under its lock's name |
| StateMap.StateMapMemoryDLock.QuerySpecificState | storage/statemap_memory_impl.go:245-261 | the state of a lock, or nothing exactly when it is not in the map |
| StateMap.StateMapMemoryDLock.UpdateStateFromLogEntry | storage/statemap_memory_impl.go:179-243 | the new map and the status are those of the update on values, in every branch |
| StateMap.StateMapMemoryDLock.UpdateStateFromLogMemory | storage/statemap_memory_impl.go:263-288 | the loop is the replay on values, including where it stops on an error |
| NodeStore.CommitAppliesIffOrderly | node/node.go:678-703 | applying keeps map and applied index together exactly when the committed entries are orderly; otherwise the map falls behind |
| NodeStore.BehindIsForever | node/node.go:678-703 | over any run of appends, overwrites, commits, backups and applications, a map that fell behind the applied index never changes again |
| KVStateMap.KeywordSelectsKVStore | storage/statemap_memory_impl.go:57-62 | the keyword prefix selects the key-value commands and no others |
| KVStateMap.UpdateStep | storage/statemap_memory_impl.go:49-97 | an entry whose term falls is refused, the deletion of an absent key leaves the map where it is, and any other entry makes it the values one entry further on |
| KVStateMap.ApplyMeaning | storage/statemap_memory_impl.go:110-133 | a replay reports no error exactly when terms do not fall and no entry before the last deletes a key that the entries before it leave absent; how far it reaches is determined by the log alone |
| KVStateMap.CommitReaches | node/node.go:678-703 | in whatever chunks a log is applied, the live map describes the entries up to where one replay of all of them reaches |
| KVStateMap.DescribesUnique | storage/statemap_memory_impl.go:110-133 | maps that describe the same entries, even of two logs, are equal |
| KVStateMap.StateMapMemoryKVStore.QuerySpecificState | storage/statemap_memory_impl.go:99-108 | the value of a key, or nothing exactly when it is not in the map |
| KVStateMap.StateMapMemoryKVStore.UpdateStateFromLogEntry | storage/statemap_memory_impl.go:49-97 | the new map and the status are those of the update on values, in every branch |
| KVStateMap.StateMapMemoryKVStore.UpdateStateFromLogMemory | storage/statemap_memory_impl.go:110-133 | the loop is the replay on values, with the two errors it tolerates |
| AcquirementQueue.AbandonDropsExpiredPrefix | node/dlock_acquirement.go:75-93 | abandoning drops the maximal expired prefix, in order, and nothing else |
| AcquirementQueue.AbandonIdempotent | node/dlock_acquirement.go:75-93 | at a fixed time a second abandon changes nothing |
| AcquirementQueue.RefreshOutcome | node/dlock_acquirement.go:47-72 | a refresh fails exactly for a number that does not wait or has expired; otherwise that acquirement is refreshed at this time, and nothing else changes |
| AcquirementQueue.InsertOutcome | node/dlock_acquirement.go:96-132 | a new acquirement waits behind all others with exactly the given command, refreshed now and expiring as configured; one that waits already stays as it is |
| AcquirementQueue.FetchOutcome | node/dlock_acquirement.go:137-172 | look and pop yield the command of whoever waits first, with this time and the next nonce and otherwise as it was given; the look leaves all waiting, the pop moves that one to the outcomes |
| AcquirementQueue.PositionFinds | node/dlock_acquirement.go:113-123 | the search finds the first acquirement of the acquirer, or none exists |
| AcquirementQueue.RefreshKeepsFair | node/dlock_acquirement.go:47-72 | a refresh keeps acquirers distinct, the history of outcomes just and ordered, and all numbers assigned so far |
| AcquirementQueue.InsertKeepsFair | node/dlock_acquirement.go:96-132 | an insert yields the position of this acquirer, old or new, keeps acquirers distinct, and puts nobody before those who wait |
| AcquirementQueue.LookKeepsFair | node/dlock_acquirement.go:137-171 | a look changes at most the stamp of the first command, and yields the next nonce for the acquirer who has waited longest, with the lease asked for |
| AcquirementQueue.LookThenPop | node/dlock_interchange.go:211-237 | the pop after the look removes the acquirement that was looked at, unexpired, and yields the command that was looked at |
| AcquirementQueue.PopKeepsFair | node/dlock_acquirement.go:166-171 | after a pop and the increment of the appended nonce the queue is fair again |
| AcquirementQueue.DlockVolatileAcquirement.constructor | node/dlock_acquirement.go:37-44 | a new queue is empty, with the given nonce |
| AcquirementQueue.DlockVolatileAcquirement.AbandonExpiredAcquirement | node/dlock_acquirement.go:75-93 | map and counters change as the abstract list does; no number between the counters is ever missing, so there is no fetching error |
| AcquirementQueue.DlockVolatileAcquirement.RefreshAcquirement | node/dlock_acquirement.go:47-72 | the new queue and the error are those of the refresh on the list |
| AcquirementQueue.DlockVolatileAcquirement.FindAcquirer | node/dlock_acquirement.go:113-123 | the loop yields the number of the acquirer's first acquirement, or 0, without a fetching error |
| AcquirementQueue.DlockVolatileAcquirement.InsertNewAcquirement | node/dlock_acquirement.go:96-132 | the new queue and number are those of the insert of the command's content, without error; what waits under a new number is the command object itself |
| AcquirementQueue.DlockVolatileAcquirement.FetchFirstValidAcquirement | node/dlock_acquirement.go:137-172 | the returned command is the object that waits first, rewritten where it stands; queue and content are those of the look or the pop on the list, and no other object changes |
| AcquirementQueue.CommandDLock.SetAsDLockInfo | storage/command_impl.go:142-155 | the content of a command is replaced as a whole |
| AcquirementQueue.DlockVolatileAcquirement.StaysValid | node/dlock_acquirement.go:154-164 | rewriting commands for other locks leaves a queue as it is |
| AcquirementQueue.DlockVolatileAcquirement.QueryPending | node/dlock_interchange.go:474-484 | the difference of the counters is the number of those who wait |
| LockService.ScanOne | node/dlock_interchange.go:77-131 | one lock of the scan, as a step on the leader's value; `ScanOutcome` and `ScanRespectsLease` say what it means |
| LockService.Scan | node/dlock_interchange.go:66-158 | the whole scan, in any order of the locks; `ScanOutcome` and `ScanKeepsInv` say what it means |
| LockService.RefreshLock | node/dlock_interchange.go:184-255 | the grant from the queue, as a step on the leader's value; `WaiterOutcome`, `NewcomerOutcome` and `RefreshLockKeepsInv` say what it means |
| LockService.Acquire | node/dlock_interchange.go:264-412 | the three cases of an acquirement, as a step on the leader's value; `NewcomerOutcome` and `AcquireKeepsInv` say what it means |
| LockService.RefreshBySequence | node/dlock_interchange.go:418-469 | a waiting client's refresh and the grant that may follow; `WaiterOutcome` and `RefreshBySequenceKeepsInv` say what it means |
| LockService.Release | node/dlock_interchange.go:492-556 | a release, as a step on the leader's value; `ReleaseOutcome` and `ReleaseKeepsInv` say what it means |
| LockService.AcquireService | node/clisrv_server.go:266-331 | what a client is told; `WaiterOutcome` and `NewcomerOutcome` say which answer, `GrantReceipt` what it may rely on |
| Reign.AppendKeepsCore | node/dlock_interchange.go:233-254 | where the five append paths meet: a settled lock takes an entry that may follow, and log, map, nonce and queue agree again |
| Reign.SettledIffNonce | node/dlock_interchange.go:103-148 | the queue's nonce tells whether an entry of the lock is in flight |
| ReignSteps.CommitKeepsInv | node/node.go:678-703 | in a reign applying never sticks: the map's index is the commit index afterwards |
| ReignSteps.PutKeepsInv | node/clisrv_server.go:105-125 | key-value entries pass between the lock entries unnoticed |
| ReignSteps.DirectAppendKeepsInv | node/dlock_interchange.go:340-375 | a release or a grant appended directly to a settled lock keeps the invariant |
| ReignSteps.FirstAppendKeepsInv | node/dlock_interchange.go:285-319 | so does the first entry of a lock |
| ReignSteps.PopKeepsInv | node/dlock_interchange.go:211-254 | so does popping the queue and appending its command |
| ReignSteps.AcquireKeepsInv | node/dlock_interchange.go:264-412 | an acquirement keeps the invariant, never fails, and a non-zero nonce is that of the entry it appended for this client |
| ReignSteps.RefreshBySequenceKeepsInv | node/dlock_interchange.go:418-469 | so does a refresh by sequence number |
| ReignSteps.ReleaseKeepsInv | node/dlock_interchange.go:492-556 | so does a release, which writes at most a release of the applicant's own lock |
| ReignScan.ScanKeepsInv | node/dlock_interchange.go:66-158 | the scan, in any order, keeps the invariant and gives every lock of the map a queue |
| ReignRuns.OpenHoldsInv | node/dlock_interchange.go:51-61 | the invariant holds when a reign opens with no lock entry above the commit index, whatever key-value entries are there |
| ReignOpening.OpeningIsSoundIff | node/dlock_interchange.go:87-95 | a new leader's nonces agree with its log, for every lock, exactly when no lock entry lies above its commit index; then, and only then, its state satisfies the invariant of a reign |
| ReignOpening.EarlyLeaderGetsStuck | node/dlock_interchange.go:87-95 | a run of a fresh cluster of three, with timely answers only, that elects a leader with one uncommitted lock entry; it grants that lock again under the same nonce, and its lock map gets stuck behind the applied index |
| ReignRuns.StepKeepsInv | node/dlock_interchange.go:51-556 | every step of a reign keeps it |
| ReignRuns.ReachableHoldsInv | node/dlock_interchange.go:51-556 | it holds in every reachable state of every reign |
| ReignRuns.RunExtends | node/dlock_acquirement.go:75-172 | along a run the log is only appended to, and in a queue no number is lost and no outcome and no claim changes |
| ReignTheorems.NonceDiscipline | node/dlock_interchange.go:103-148 | the appended nonce is the applied one, or one more exactly while an entry is in flight; there is at most one such entry; for an unknown lock with a queue it is 1 |
| ReignTheorems.NoncesAreConsecutive | node/dlock_interchange.go:205-254 | along the log the nonces of a lock count its entries, also from the last entry before the reign |
| ReignTheorems.LeaseExclusion | node/dlock_interchange.go:112-131 | for any two grants of a lock, adjacent or not, the earlier lease has run out or been released by the lock's very next entry when the later is granted |
| ReignSteps.RefreshLockKeepsInv | node/dlock_interchange.go:184-255 | a grant from the queue keeps the invariant, and a non-zero nonce is that of the one entry it appended for this client |
| ReignTheorems.AcquireRespectsLease | node/dlock_interchange.go:340-404 | an acquirement writes nothing, or one entry for its client to a lock whose lease is over |
| ReignTheorems.RefreshLockRespectsLease | node/dlock_interchange.go:200-255 | so does a grant from the queue |
| ReignTheorems.ScanRespectsLease | node/dlock_interchange.go:111-131 | every release of the scan is of a lock whose lease is over |
| ReignTheorems.OnlyTheOwnerCutsALease | node/dlock_interchange.go:522-554 | an entry written to a lock before its lease is over is the release asked for by its owner |
| ReignTheorems.FifoFairness | node/dlock_interchange.go:204-255 | when a sequence number is granted, every smaller one was granted by an earlier entry or abandoned after it had expired; who is granted has not expired |
| ReignTheorems.NobodyOvertakes | node/dlock_interchange.go:340-404 | a request that writes an entry while somebody waits comes from the one who has waited longest |
| ServiceOutcomes.WaiterIsGrantedIff | node/dlock_interchange.go:184-255 | a waiting client is granted the lock exactly when its number waits unexpired, no entry of the lock is in flight, the lease of the last committed entry has run out, and it waits first; its nonce is the next one, and the log has gained that grant |
| ServiceOutcomes.WaiterOutcome | node/dlock_interchange.go:418-469 | the answer to a waiting client, what is written and what becomes of the queue, in every case, in terms of committed log and queue |
| ServiceOutcomes.NewcomerOutcome | node/dlock_interchange.go:264-412 | the same for a new request: granted at once exactly for an unknown or free lock, otherwise told its number, and perhaps granted behind that |
| ServiceOutcomes.ReleaseOutcome | node/dlock_interchange.go:492-556 | the same for a release |
| ServiceOutcomes.ScanOutcome | node/dlock_interchange.go:66-158 | after a scan the log holds one new release for exactly those locks that have an owner whose lease has run out and of which nothing is in flight, and no other new entry |
| ServiceOutcomes.OpeningOutcome | node/dlock_interchange.go:51-61 | the scan with which a reign opens writes exactly those releases too |
| ServiceOutcomes.QueuesOfStep | node/dlock_interchange.go:51-556 | only a request touches the queue of its lock, and the scan relieves the queues it visits of their expired prefix; all other queues stay |
| ServiceOutcomes.GrantReceipt | node/clisrv_server.go:300-328 | a non-zero nonce answered to a client names exactly one entry of that lock, its own grant with the lease asked for, now and ever after; once the applied nonce reaches it, it is applied |
| ServiceOutcomes.TicketIsHonoured | node/dlock_acquirement.go:96-132 | a number given to a new request stays this client's for the lease asked for, over every run; whenever it is granted the log holds that entry |
| ServiceOutcomes.PromisedLease | node/dlock_acquirement.go:154-164 | the grant that a client gets for its number carries the lease it asked for when it got the number |
| ReignTheorems.ServicesAnswer | node/dlock_interchange.go:332-411 | in a reign acquiring and releasing never fail, and a refresh fails only for its number, its expiry, or a lock not applied yet |
| ReignTheorems.ReleaseAnswers | node/dlock_interchange.go:492-556 | which of the answers a release gets, in terms of the log alone |
| ReignTheorems.AppliedIsReplay | node/node.go:678-703 | in every reachable state the map is one replay of the log up to the applied index |
| RaftNode.HandleVoteRequest | node/p2p_server.go:155-223 | the voter's step; `VoteOutcome`, `AnswerVoteIsQuiet` and `VoteBinds` say what it means |
| RaftNode.HandleVoteResponse | node/node.go:341-374 | the candidate's step on an answer; `ElectedIff`, `OtherAnswers` and `WinnerIsAlone` say what it means |
| RaftNode.HandleAppendRequest | node/p2p_server.go:36-153 | the follower's step; `AcceptOutcome` and `RefuseOutcome` say what it means |
| RaftNode.HandleAppendResponse | node/node.go:541-651 | the leader's step on an answer; `SuccessOutcome`, `CommittedIff`, `RefusedOutcome` and `OtherAnswers` say what it means |
| RaftNode.CommitTargetIsGreatest | node/node.go:589-606 | the commit loop, which never breaks early, ends at the greatest index that a strict majority holds, if above the old one; every index between is held too |
| RaftNode.VoteResponseRetreatsIff | node/node.go:342-358 | an answer to a candidacy makes a node retreat exactly when it outranks its candidacy but not the node |
| RaftNode.AppendResponseRetreatsIff | node/node.go:554-570 | an answer to an append makes a leader retreat, or give up its own term, exactly when it outranks its request but not the leader |
| NodeSteps.AppendRequestEffect | node/p2p_server.go:78-147 | no index of the follower falls, its new entries come from the batch, a success means the whole batch is in the log, and a conflict points before the batch |
| NodeSteps.AppendResponseEffect | node/node.go:562-645 | an answer keeps the leader's log, its indices and the window of every peer |
| NodeSteps.BecomeLeaderEffect | node/node.go:397-415 | a new leader only appends, in its own term, and every window starts at the end of its log |
| NodeSteps.BatchIsSlice | node/node.go:498-527 | within the window a batch is exactly the contiguous slice of the log from the next index on: nothing underflows, nothing is missing |
| NodeSteps.VoteResponseEffect | node/node.go:341-374 | an answer to a candidacy leaves the store alone unless it makes a leader, whose log only grows, in its term |
| NodeOutcomes.AskOutcome | node/node.go:297-330 | a candidacy asks, exactly while the node has not moved on, with the position and term of its last entry |
| NodeOutcomes.VoteOutcome | node/p2p_server.go:155-223 | a live voter grants exactly to a higher term, or in its own term, if free or pledged to that candidate, to one whose last entry is not behind its own; it is pledged then, and otherwise stays as it is |
| NodeOutcomes.CandidacyOutcome | node/node.go:266-296 | a candidacy begins in the next term with the node's own vote, counted once, and no other |
| NodeOutcomes.ElectedIff | node/node.go:359-374 | in every run an answer in the candidacy's term adds that vote, and makes a leader exactly when more nodes have voted for it than have not |
| NodeOutcomes.LeaderOutcome | node/node.go:397-415 | a new leader has applied what is committed, has written exactly its first entries, and starts every window at the end of its log |
| NodeOutcomes.AcceptOutcome | node/p2p_server.go:60-121 | a live node accepts a request exactly when it is not of an earlier term and its previous entry matches; it then has the whole batch and has committed as far as the request says and its log goes, and reports that |
| NodeOutcomes.RefuseOutcome | node/p2p_server.go:122-147 | a refusal leaves the store alone and points at the last entry the node has at or before the batch, with its term |
| NodeOutcomes.SuccessOutcome | node/node.go:573-590 | after a success the next index is behind the batch, the match index at least its end, and those of other peers stay |
| NodeOutcomes.CommittedIff | node/node.go:589-606 | in every run, after a success exactly those indices are committed that were, or that the log has and more nodes are known to hold than not |
| NodeOutcomes.RefusedOutcome | node/node.go:619-645 | after a refusal the leader goes on behind its last entry of the conflicting term, if it has one, and otherwise at the conflicting index, or at the first entry when that is 0 |
| NodeOutcomes.OtherAnswers | node/node.go:341-358 | an answer from above its request's term makes a free follower of that term; any other that does not belong to role and term changes nothing |
| CatchingUp.ExchangeMovesOn | node/node.go:498-617 | one exchange with a node that agrees before the batch is a success, moves the next index on by the batch, copies it, and hands on the commits |
| CatchingUp.FollowerCatchesUp | node/node.go:488-651 | with batches of at least one entry, as many exchanges as batches are missing give the follower the leader's whole log behind the first batch |
| CatchingUp.FollowerCanCatchUp | node/node.go:488-651 | from every reachable state with such a leader and follower a run of the cluster leads there |
| ElectionSafety.AnswerVoteIsQuiet | node/p2p_server.go:155-223 | answering a vote request moves the node up, or pledges its vote, and nothing else |
| ElectionSafety.VoteBinds | node/p2p_server.go:176-217 | a vote binds the voter to one candidate for the rest of the term, whatever resets its vote otherwise |
| ElectionSafety.WinnerIsAlone | node/node.go:366-372 | a candidate with a majority of counted votes shares a voter with any rival, which cannot have voted twice |
| ElectionSafety.AnswerAppendIsQuiet | node/p2p_server.go:60-75 | a leader of a term never hears from another leader of it, and a candidate that steps down keeps its term |
| ElectionSafety.StepKeepsElectionInv | node/node.go:266-394 | every step keeps the invariant about votes, ballots and electing quorums |
| ElectionSafety.ElectionSafetyHolds | node/node.go:266-394 | over every run of a fresh cluster at most one node is ever elected in a term, and every leader was elected in its term |
| LogSafety.LeaderWroteAll | node/clisrv_server.go:114-115 | nothing was ever written in a leader's term beyond the end of its log |
| LogSafety.StepKeepsLogInv | node/p2p_server.go:99-112 | every step keeps dense logs, ordered indices, windows, and the origin of every entry |
| ClusterTheorems.EntryIdentity | storage/log_memory.go:37-57 | two entries of the same index and term, in any log or any batch, are the same entry |
| ClusterTheorems.CommitCheckIsSound | node/clisrv_server.go:113-160 | if the entry at the request's index is committed with the request's term, it is the request's own command |
| ClusterTheorems.DenseAndOrdered | node/p2p_server.go:79-120 | on every node of every run the log is dense and applied, backup and commit index are in order; along every run none of them nor a term falls |
| ClusterTheorems.LeaderWindow | node/node.go:498-527 | whatever is lost, late or repeated, a leader can prepare a batch for every peer, and it is the contiguous slice from the peer's next index |
| ClusterTheorems.StepMovesOn | node/node.go:589-741 | no step lets a term, a log's length or an index fall, or changes what was written |
| Replication.AcceptReplicates | node/p2p_server.go:99-120 | a node that accepts a slice of a longer log stays a prefix of that log, keeps its own entries, and commits no more than the request says |
| Holding.MajorityHolds | node/node.go:591-606 | what a node counts as a majority is one, if what it knows of the others is true |
| Holding.StepKeepsHolding | node/node.go:488-617 | every step of every run keeps what each node knows of the others true, and what is committed or promised held by a majority |
| Replication.StepKeepsPrefixes | node/node.go:488-617 | every step in which nobody but node l writes keeps every log, and every batch that can still be accepted, a part of its log |
| Replication.HandOverIff | node/node.go:498-527 | another log may take over that part exactly when it is as long |
| Replication.WriteKeepsChainIff | node/clisrv_server.go:114-120 | a step that writes, a client's entry or a new leader's first ones, keeps all logs parts of one exactly when no log is longer than the writer's |
| ReplicationTheorems.CommitsAreHeld | node/node.go:589-606 | in every state of every run of a fresh cluster, whoever leads and writes, no match index exceeds the log it speaks of, and whatever a node has committed is reached by the logs of a majority |
| ReplicationTheorems.ReplicationSafety | node/node.go:488-617 | in every state of a run in which only longest logs are written to, every log is a prefix of the longest, no match index exceeds its log, and whatever anyone committed is held by a majority |
| ReplicationTheorems.OneWriterIsChain | node/clisrv_server.go:114-120 | a run in which one node writes, starting with a log that all others are parts of, is such a run |
| ReplicationTheorems.CommittedForever | node/p2p_server.go:78-120 | what some node committed is, ever after in such a run and whatever leaders and terms follow, the only entry at that index, held by more than half of the nodes |
| ReplicationTheorems.AppliedAgreement | node/node.go:678-703 | every node's lock map is the replay of the longest log up to its applied index, exactly as long as that log is orderly |
| ReplicationTheorems.EquallyAppliedIsEqual | node/node.go:678-703 | two nodes that have applied equally far have equal lock maps |
| ReplicationTheorems.FreshClusterStarts | node/node.go:118-166 | a fresh cluster meets all hypotheses of such a run |
| ReplicationTheorems.FirstWriterStarts | node/node.go:397-415 | so does any state before anything is written, whatever elections, heartbeats and answers came before; all stores are still empty |
| ReplicationTheorems.StepKeepsFile | node/node.go:678-741 | every step of such a run is, for the file of every node, a backup or a step that keeps what is committed |
| ReplicatedFiles.OnlyBackUpsBackUp | node/node.go:725-741 | no step but its own backup moves the backup index of a node |
| ReplicatedFiles.FilesMirrorLogs | node/node.go:725-741 | in every state of a run in which only longest logs are written to, the file of every node is the frames of its entries up to its last backup, and a node that starts from it has a prefix of the longest log |
| ReplicatedFiles.FreshFilesMirror | node/node.go:118-166 | the empty files of a fresh cluster mirror its logs |
| ReplicatedFiles.FirstFilesMirror | node/node.go:397-415 | so do those of a cluster in which nothing has been written |
| WholeSystem.LeaderStoreChanges | node/node.go:589-741 | while a leader keeps its term only commits, applications and backups move its store outside its services |
| WholeSystem.ChangeIsReignStep | node/node.go:678-741 | each of these is a step of the leader's lock reign |
| WholeSystem.StepKeepsWhole | node/dlock_interchange.go:51-556 | cluster and lock service together keep their invariants, and the lock service's store stays the leader node's |
| WholeSystem.LockMapsAgree | node/node.go:678-703 | in every state of a reign the lock map of every node is the replay of the leader's log up to the node's applied index; no map is ever stuck |
| WholeSystem.FilesMirrorThroughout | node/node.go:725-741 | along a run of cluster and lock service the files mirror the logs in every state when they do at the start |
| WholeSystem.EveryNodeRestarts | node/node.go:118-157 | in every state of such a run lock entries never stop a node from starting from its file: it starts exactly when the leader's log, up to the node's last backup, deletes no absent key before the last entry, and then its lock map is the replay of the leader's log |
| WholeSystem.LeasesExcludeEverywhere | node/dlock_interchange.go:112-131 | in the log of any node, when a lock is granted the lease of every earlier holder has run out or been released |
| WholeSystem.ServiceWrites | node/dlock_interchange.go:184-556 | what a service writes is a list of commands at the end of the applied log |
| WholeSystem.ServicesArePossible | node/clisrv_server.go:239-432 | every request, release, scan or write can be carried out by the leader's node in every state |
| WholeSystem.FirstWholeStarts | node/node.go:397-416 | the hypotheses hold at a leader of any fresh cluster in which nothing has been written, whatever the other nodes have seen of it |
| TermOrder.EntriesAreNotAhead | node/p2p_server.go:60-112 | in every state of every run no log holds an entry of a term above its node's |
| SuccessiveReigns.SilenceKeepsLog | node/node.go:266-394 | while nobody writes, over any elections and messages, the longest log stays as it is |
| SuccessiveReigns.NextReignStarts | node/dlock_interchange.go:51-61 | after a reign, when nobody has written since, a newly elected node whose log is longest and holds no lock entry above its commit index opens a reign in which everything above holds again |
| StaleAnswers.FallsBack | node/node.go:349-356 | a stale refusal takes a candidate back to an earlier term, free to vote again |
| StaleAnswers.TwoLeadersInOneTerm | node/node.go:349-356 | a run of three nodes with exactly one untimely answer, to a vote request, that ends with two leaders elected in one term |
| StaleAnswers.GivesUp | node/node.go:562-570 | an answer to an append of an earlier term makes a leader give up the term it leads, free to vote in it again |
| StaleAnswers.TwoLeadersByAppendAnswer | node/node.go:562-570 | a run of three nodes with exactly one untimely answer, to an append, that ends with two leaders elected in one term |
| LostCommits.VoteIgnoresLogIff | node/p2p_server.go:176-217 | a live node votes for a candidate whose log is behind its own exactly when the request has a higher term |
| LostCommits.AcceptKeepsIff | node/p2p_server.go:99-112 | accepting a batch keeps the first k entries, for instance all committed ones, exactly when the batch agrees with them |
| LostCommits.CommittedIsOverwritten | node/p2p_server.go:176-187 | for any two commands, a run of three nodes in which every answer is timely: the first is committed on a majority, a node without it is elected, and the second takes its index on a node that had committed it |
| BackingOff.BackOffDecreasesIff | node/node.go:621-639 | after a refusal the next index falls exactly when the leader holds no entry of the conflicting term at or behind the entry before the batch |
| BackingOff.ShortFollowerIsNotReached | node/p2p_server.go:130-137 | a follower whose log is shorter, ending in the term that the leader has before the batch, refuses again and again, and the leader does not go back |
| BackingOff.BackOffMayStandStill | node/node.go:621-631 | a run of a fresh cluster of three, with timely answers only, after which a leader and a follower remain exactly as they are in every further exchange |
| Servers.Server.constructor | node/peer.go:61 | a node on an empty log is dead and knows nothing of its peers |
| Servers.Server.InitRaftConsensusModule | node/node.go:194-198 | a dead node begins as a follower, and nothing else changes |
| Servers.Server.CommitProcedure | node/node.go:678-703 | the store and both state maps change as on values, and nothing else |
| Servers.Server.BecomeFollower | node/node.go:383-394 | term, role and vote change, and nothing else |
| Servers.Server.StartCandidateVoteModule | node/node.go:266-296 | a new candidacy, with only the node's own vote |
| Servers.Server.PrepareVoteRequest | node/node.go:297-330 | the request is that of the candidacy, unless the node has moved on |
| Servers.Server.BecomeLeader | node/node.go:397-416 | the node is the leader of the model, with exactly the entries of its first scan; its lock service is fresh and is the opening of a reign |
| Servers.Server.ProcessVoteResponse | node/node.go:341-374 | the node changes as HandleVoteResponse says, and a winner has a lock service |
| Servers.Server.CandidateVotesService | node/p2p_server.go:155-223 | node and answer are those of HandleVoteRequest |
| Servers.Server.AppendEntriesService | node/p2p_server.go:36-153 | node and answer are those of HandleAppendRequest |
| Servers.Server.PrepareAppendEntries | node/node.go:498-537 | the loop builds the batch of PrepareAppend, or reports why there is none |
| Servers.Server.CountMatchedPeers | node/node.go:592-599 | the loop counts the followers that hold the log that far, and the node |
| Servers.Server.AdvanceCommitIndex | node/node.go:589-606 | the loop ends at the commit target |
| Servers.Server.ProcessAppendResponse | node/node.go:541-645 | the node changes as HandleAppendResponse says, in every branch |
| Servers.Server.AppendCommand | node/clisrv_server.go:114-120 | the command is appended at the end, in the current term, and nothing else changes |
| Servers.DlockInterchange.AcquireDLock | node/dlock_interchange.go:264-412 | the objects change as Acquire says of the leader's value, and the answer is that one |
| Servers.DlockInterchange.RefreshSpecificDLock | node/dlock_interchange.go:184-255 | likewise for the grant from the queue |
| Servers.DlockInterchange.FetchFirstOf | node/dlock_interchange.go:211-233 | a look or a pop rewrites a command of this lock where it stands; every entry of the log, every other queue and every other lock's command keep their contents |
| Servers.DlockInterchange.RefreshAcquirementBySequence | node/dlock_interchange.go:418-469 | likewise for a refresh |
| Servers.DlockInterchange.ReleaseDLock | node/dlock_interchange.go:492-556 | likewise for a release |
| Servers.DlockInterchange.CollectReleases | node/dlock_interchange.go:76-132 | the loop over the lock map visits every lock once, in any order, and collects the releases of ScanLocks, which `ScanOutcome` shows to be exactly the due ones |
| Servers.DlockInterchange.ScanDLockStateMap | node/dlock_interchange.go:66-158 | inserting all releases first and taking the nonces in a second loop is the scan that appends one by one |
| Servers.DlockInterchange.InitFromDLockStateMap | node/dlock_interchange.go:51-61 | the service starts from the applied map with one scan |
| Servers.DlockInterchange.ReleaseExpiredDLock | node/dlock_interchange.go:559-596 | a tick scans exactly while the node leads the term of this service |
| Servers.DlockInterchange.QueryDLockAcquirementInfo | node/dlock_interchange.go:474-484 | how many wait for a lock, -1 without a queue |
| LockScan.AppendLocksApart | node/dlock_interchange.go:134-148 | appending releases one by one is inserting all entries and then taking all nonces |
| LockScan.ScanIsAppendAll | node/node.go:402-408 | what a new leader's scan writes is a list of commands at the end of its log |
| ClientServers.ClientServer.AcquireDLockService | node/clisrv_server.go:239-333 | a redirection exactly when this node does not lead; otherwise the answer of AcquireService |
| ClientServers.ClientServer.ReleaseDLockService | node/clisrv_server.go:391-432 | one release attempt and what the client is told |
| ClientServers.ReleaseIsAnswered | node/clisrv_server.go:391-432 | what a client is told about its release, in terms of the log: nothing to release, try later, or the nonce of its release; never an internal error |
| ClientServers.ClientServer.PutStateKVService | node/clisrv_server.go:60-125 | exactly a dead node refuses, exactly a candidate or follower redirects, exactly a leader that is to delete a key its map lacks reports that; otherwise one entry is appended, at the end and in its term |
| ClientServers.ClientServer.DeleteTwice | node/clisrv_server.go:97-120 | two deletions of one key are both appended when nothing is applied in between |
| ClientServers.ClientServer.IsCommitted | node/clisrv_server.go:137-160 | the check is positive exactly when the index is committed with that term |
| Framing.FrameIsRead | storage/log_entry.go:99-141 | reading gives back the entry a frame was written for, reports nine bytes more than its payload, and stops at its end |
| Framing.TornFrame | storage/log_entry.go:118-141 | a frame torn inside its payload is an error; torn inside its header it reads as the end of the file |
| Framing.ReloadIsLog | storage/log_memory.go:149-180 | reloading the frames of 1..k yields exactly that log and reports the payload bytes plus nine for every entry, which is the length of the file |
| Framing.TornFile | storage/log_memory.go:149-180 | of a file with a torn last frame everything complete is read back, and the tear is reported exactly when it lies in the payload |
| Recovery.FileMirrorsLog | node/node.go:725-741 | however backups and other steps alternate, the file is the frames of the entries up to the last backup |
| Recovery.RecoveryIsExact | node/node.go:118-157 | a node starts from such a file exactly when the entries in it are orderly and none before the last deletes a key that the entries before it leave absent; it then has exactly that log, committed, applied and backed up, with the two maps of those entries |
| Recovery.RecoveryIsThePast | node/node.go:146-153 | the recovered lock map is the one the live node had when it had applied exactly as much |
| Recovery.RecoveredValuesArePast | node/node.go:146-153 | so is the recovered key-value map |
| Recovery.DoubleDeletionBlocksTheStart | storage/statemap_memory_impl.go:80-87 | a file with a put, two deletions of its key and another put has orderly lock entries, and no node starts from it |
| LogFiles.DiskFile.ScanLength | storage/log_entry.go:120-125 | reading a header byte by byte is ReadHeader on the rest of the file |
| LogFiles.StoreEntry | storage/log_entry.go:99-114 | at the end of a file one frame is appended; the answer does not count the header |
| LogFiles.ReloadEntry | storage/log_entry.go:118-141 | entry, end of file or failure are those of ReadFrame, and the offset is behind the frame |
| LogFiles.StoreLogMemory | storage/log_memory.go:116-145 | the loop appends exactly the frames start..end and counts their payloads; a bad range writes nothing |
| LogFiles.ReloadLogMemory | storage/log_memory.go:149-180 | the loop is ReloadFrom on the rest of the file |
| LogFiles.BackupProcedure | node/node.go:725-741 | store and file change as BackUp says; without a file nothing changes |
| LogFiles.NewNode | node/node.go:118-166 | a node is made exactly when Recover succeeds, with that store, those maps and that term; it is dead until its modules start |

## Left out

- Agreement of logs across terms: the code does not keep it. A higher term gets a vote without a look at the
  log (node/p2p_server.go:176-187), inserts do not cut off a conflicting suffix (storage/log_memory.go:37-57),
  and a commit does not need an entry of the current term (node/node.go:591-606). `CommittedIsOverwritten` is
  a run, `VoteIgnoresLogIff` and `AcceptKeepsIff` are the exact conditions of the two steps that do it; what
  is claimed of committed entries is claimed where only longest logs are written to, which is the exact
  condition (`WriteKeepsChainIff`).
- Machine integers: indices, terms, nonces, sequence numbers and times are unbounded. The loops over
  `uint32` sequence numbers would not end at 2^32-1, and `Timestamp + Expire` may overflow.
- AdvanceFollower: leaves the match index alone for a next index of 0, where the unsigned difference of the
  code would wrap around; `LeaderWindow` and `StepKeepsLogInv` show that the next index is never 0.
- PrepareAppend: reports an error where the unsigned `maximumIndex - prevIndex` would wrap around;
  `LeaderWindow` shows that this does not happen.
- BecomeLeader: takes the entries of the new leader's first scan as a parameter, so that the cluster does not
  depend on clocks; `Servers.Server.BecomeLeader` supplies them.
- ClientServers.ClientServer.AcquireDLockService: says that a node which does not lead redirects, but not to which
  address, which is a random peer's or that of the presumed leader.
- ClientServers.ClientServer.ReleaseDLockService: is one attempt; the polling that repeats it after a release that
  is to be triggered later is a sequence of such attempts.
- LogFiles.BackupProcedure: does not model write errors, after which a retry would write frames twice.
- ReadHeader: does not accept signs, underscores, tabs, or blanks before the newline, which the library's
  scanner would accept but the program never writes.
- Log entries and decoded lock states as objects: an entry holds the content that a command had when it was
  appended, which the program never writes into.
- Peers as objects: the next and match index of a peer are kept in two maps of the node instead of one object
  for each peer. Candidacies keep their counters in a sequence of the node instead of shared closures.
- Crashes inside a cluster run, and a release that polls on after its node has lost the lead. Of a leader
  elected with uncommitted lock entries only `EarlyLeaderGetsStuck` and `OpeningIsSoundIff` are claimed.
- A failing release keeps the node's mutex locked (node/clisrv_server.go:410-412); the mutex is not modelled,
  and `ServicesAnswer` shows that a release does not fail in a reign.
- Timers, tickers, channels, goroutines, transport, configuration, logging, the client library, the query
  services, and the stub at node/p2p_server.go:225-236.
