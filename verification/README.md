# Models and proofs for the labs

Five parts of the repository, each an algorithm or a protocol set against a short mathematical
meaning. `dafny verify dfyconfig.toml` checks everything.

1. **The linearizability checker** (`Linearizability`, `SearchTheory`, `Bitset`, `EntryList`,
   `Checker`, `Locality`, `Sorting`, `KvModel`, `KvMeaning`, `Histories`). `CheckSingle` is the
   search itself: the doubly linked list edited in place, the stack, the bitset, the hash-bucketed
   cache. It returns true exactly when some order of all operations respects real time and is
   accepted by every step of the model, it always terminates, and on request it finds for every
   operation a longest partial linearization that contains it. `LegalExactly` says what the
   key/value model accepts without running it, `LinearizableIsLocal` shows that splitting by key
   changes nothing, and `CheckOperations` puts it all together for a key/value history.
2. **The replicated key/value service** (`KvReplica`, `KvHistory`). Clerks that retry, a shared log
   in which a request may stand any number of times, replicas that apply prefixes of it and drop
   repeats, snapshots, restarts. What the clients see is linearizable in every run; and so
   `CheckService` is accepted by the checker of part 1. `Circular` holds the arithmetic of taking
   turns, here among servers and in part 5 among groups.
3. **Raft** (`RaftPeer`, `RaftNode`, `RaftCluster`, `RaftLog`, `RaftElection`, `RaftBallots`,
   `RaftApply`). `RaftNode` is the server with its compacted log, proved against `RaftPeer`, the
   same server with its whole log. `RaftCluster` is all servers and a bag of messages; on its runs
   log matching and election safety are proved, each under its hypothesis, and two concrete runs
   show that election safety needs both parts of its hypothesis. `RaftBallots` shows whose log wins.
   `RaftApply` shows what the service is told.
4. **MapReduce** (`Grouping`, `Coordinator`, `MapReduce`, `Handouts`). Coordinator, workers that
   crash, late and repeated reports, files renamed into place: once the job is done its outputs
   together are the lines of the sequential program.
5. **The shard controller** (`Rebalance`, `ShardCtrler`). Greedy redistribution terminates,
   balances, moves no shard twice and changes as few shards as possible; configurations stay sound
   over every sequence of requests.

## How to read it

- Objects the code updates in place are classes and arrays; protocols are state machines over values
  with a function `Next`, and `Execute` is a run. A method is proved against a function of the old
  state (`Apply`, `OnAppend`, `Handle`, `Redistributed`, ...), and the theorems are about these.
- Some state records carry history variables, which no step reads to decide anything a server does:
  `origin` and `logTime` in `KvHistory.System`, `sent`, `commit`, `leaderLog`, `grants`, `ballots`,
  `wins`, `recounted` and `disturbed` in `RaftCluster`, `handouts` in `MapReduce.World`.
- What such a function of the old state means is said apart from its text, by lemmas called
  `...Means`, `...Earned` and `...HasEffect` and by the theorems over runs.
- `log.Fatal` is a server halting: a result that says so, or a crash followed by a restart.
- `Checker.Search` holds the local variables of `checkSingle`; the branches of its loop body are
  methods. `Bypass` and `Restore` are the two halves of `lift` and of `unlift`, one node each.
- `Sorting.Sort` stands for the sort package. Nothing is used of it but that the result is sorted and
  a rearrangement, so the order of equal elements is left open.
- A map that the code ranges over is gone through in an arbitrary order; that the result is a
  function of the map is then proved.

## What is assumed

- Checker: every operation is called before it returns, no call time equals a return time (the sort
  is not stable), every id is called once and returns once afterwards, `Equal` is equality of states,
  the kill flag stays 0, there is at least one operation.
- Key/value service: Raft is one totally ordered log; clerk ids are distinct.
- Log matching: no term has two winners, and no InstallSnapshot is delivered. Election safety: no
  candidate counts one server's grant twice in a term, no append of its own term reaches a server
  after it granted a vote in that term, and no InstallSnapshot is delivered.
- What the service is told: the commit index stays within the log, the service snapshots only what it
  was told, an installed snapshot stands for as many entries as it says. For which commands it is
  told, also: no append or install changes an entry already told, and snapshots hold what they say.
- MapReduce: deterministic map and reduce functions, a reduce function that ignores the order of
  values, at least one reduce task, readable input files.
- Shard controller: group ids are positive, a move names a live group and a shard that exists, at most
  256 shards. The number of shards is otherwise free (the code has 10).

## Model

| member | source | states |
|---|---|---|
| Bitset.SameContents | code/src/porcupine/bitset.go:62-72 | Two bitsets of one length are the same words exactly when they hold the same ids. |
| Bitset.NewBitset | code/src/porcupine/bitset.go:10-17 | The empty set, in the fewest words with room for the bits. |
| Bitset.Clone | code/src/porcupine/bitset.go:19-23 | A separate copy with the same words. |
| Bitset.Set | code/src/porcupine/bitset.go:29-33 | Adds exactly the one id to the set. |
| Bitset.Clear | code/src/porcupine/bitset.go:35-39 | Removes exactly the one id from the set. |
| Bitset.Get | code/src/porcupine/bitset.go:41-44 | Whether the id is in the set. |
| Bitset.OnesAreContents | code/src/porcupine/bitset.go:46-52 | The ones in all words are as many as the ids in the set. |
| Bitset.Popcnt | code/src/porcupine/bitset.go:46-52 | The size of the set. |
| Bitset.Hash | code/src/porcupine/bitset.go:54-60 | A value fixed by the words, so equal sets of one length share a bucket. |
| Bitset.HashMeans | code/src/porcupine/bitset.go:54-60 | Bit j of the hash tells whether bit j of the size of the set differs from whether an odd number of members have place j in their word. |
| Bitset.Equals | code/src/porcupine/bitset.go:62-72 | Same length and same set of ids. |
| EntryList.InsertBefore | code/src/porcupine/checker.go:65-76 | Puts a node in front of a mark, between it and the node before it if there is one; the links on either side stay. |
| EntryList.Lift | code/src/porcupine/checker.go:154-162 | From a list of the live entries to a list of the live entries without the operation's call and return, in order; nothing but links changes. |
| EntryList.Unlift | code/src/porcupine/checker.go:164-172 | Puts both back where they were, also when they are neighbours: the list is again that of all live entries. |
| EntryList.MakeLinkedEntries | code/src/porcupine/checker.go:116-133 | A linked list of all entries in order, each call matched with the return of its id. |
| EntryList.Length | code/src/porcupine/checker.go:78-85 | The number of entries in the list. |
| Checker.CacheContains | code/src/porcupine/checker.go:140-147 | Looking in one hash bucket finds the configuration exactly when it has been visited. |
| Checker.CacheAdds | code/src/porcupine/checker.go:194-197 | Appending to the bucket adds exactly this configuration to those visited. |
| Checker.TakeOut | code/src/porcupine/checker.go:154-162 | After taking an operation the list is the original entries minus those of the stack, in order. |
| Checker.PutBack | code/src/porcupine/checker.go:164-172 | Undoing the top of the stack restores the list of the stack below it. |
| Checker.Search.TryCall | code/src/porcupine/checker.go:189-208 | One step of the loop at a call keeps every invariant: it takes an operation with a new configuration, or moves on; the termination measure falls. |
| Checker.Search.RecordLongest | code/src/porcupine/checker.go:213-229 | After it every stacked operation has a recorded sequence at least as long as the stack. |
| Checker.Search.GoBack | code/src/porcupine/checker.go:209-237 | One step of the loop at a return undoes the top of the stack and keeps every invariant; the stack gets shorter. |
| SearchTheory.PartialExtends | code/src/porcupine/checker.go:189-208 | Legal real-time-respecting sequences are extended exactly by operations that can come next. |
| SearchTheory.FullPartial | code/src/porcupine/checker.go:174-248 | A partial linearization of all operations is a linearization and the other way round. |
| SearchTheory.Take | code/src/porcupine/checker.go:193-202 | Taking an operation with an uncached configuration keeps all that the search knows. |
| SearchTheory.Pass | code/src/porcupine/checker.go:203-208 | Passing over a call that cannot be taken or leads to a cached configuration keeps it. |
| SearchTheory.GoBack | code/src/porcupine/checker.go:230-236 | Going back leaves the configuration fully explored and keeps all that the search knows. |
| SearchTheory.AllVisited | code/src/porcupine/checker.go:209-212 | With the stack empty at a return, every configuration that any partial linearization leads to has been visited, despite pruning. |
| SearchTheory.NotFound | code/src/porcupine/checker.go:209-212 | Then no order of the operations is a linearization. |
| SearchTheory.NotFoundLongest | code/src/porcupine/checker.go:213-229 | Then each recorded sequence is a longest partial linearization with its operation, and none is recorded only where none exists. |
| SearchTheory.Found | code/src/porcupine/checker.go:239-247 | A stack that holds every operation is a linearization. |
| Checker.CheckSingle | code/src/porcupine/checker.go:174-248 | True exactly when the history is linearizable; terminates; with computePartial every entry is a longest partial linearization through its operation. |
| Locality.RunProduct | code/src/models/kv.go:35-54 | An order runs on the map-valued store exactly when its part for every key runs on one value. |
| Locality.LinearizableIsLocal | code/src/porcupine/model.go:28-33 | A history over many keys is linearizable exactly when the part for each key is. |
| KvModel.StoreStep | code/src/models/kv.go:40-54 | One step of the whole store is the step of the value under its key and leaves other keys alone. |
| KvMeaning.LegalExactly | code/src/models/kv.go:40-54 | The store accepts an order of operations exactly when every get in it gives its key's last put followed by everything appended since. |
| KvModel.Partition | code/src/models/kv.go:18-34 | One list for each key that occurs, holding its operations in order; the keys in dictionary order. |
| KvModel.PartitionIsSound | code/src/porcupine/model.go:28-33 | The store's history is linearizable exactly when every list of the partition is. |
| Histories.SameVerdict | code/src/porcupine/checker.go:39-41 | Only which operation returned before which was called matters to linearizability. |
| Histories.MakeEntries | code/src/porcupine/checker.go:43-55 | A well-formed history of entries whose operations precede each other as the recorded ones do. |
| Histories.Renumber | code/src/porcupine/checker.go:87-101 | Ids are renamed one to one to 0, 1, ... in the order of first use; nothing else changes. |
| Histories.ConvertEntries | code/src/porcupine/checker.go:103-114 | Each event becomes the entry of its kind, its place being its time. |
| Histories.CheckParallel | code/src/porcupine/checker.go:269-348 | Ok exactly when every part is linearizable. |
| Histories.CheckOperations | code/src/porcupine/checker.go:360-368 | Ok exactly when the key/value history is linearizable for the whole store. |
| Histories.CheckEvents | code/src/porcupine/checker.go:350-358 | Ok exactly when the operations that each part of the events stands for are linearizable. |
| KvReplica.SnapshotThenRest | code/src/kvraft/kvServerSnapshot.go:9-41 | Restoring a snapshot taken anywhere and applying the rest of the log gives the state of the whole log. |
| KvReplica.LastIsLargest | code/src/kvraft/kvServerApplyTicker.go:23 | The recorded number of a client is that of one of its requests in the log and no other is larger. |
| KvReplica.SuppressedIsRepeat | code/src/kvraft/utils.go:71-82 | An operation is suppressed exactly when its request stands earlier in the log. |
| KvReplica.ExactlyOnce | code/src/kvraft/kvServerApplyTicker.go:13-39 | A log with repeats leaves the store that its first occurrences, each carried out once, leave. |
| KvReplica.AnswersMean | code/src/kvraft/kvServerApplyTicker.go:13-39 | An update is answered OK; a get OK with its value exactly when the key is there, and else that there is no such key. |
| KvReplica.AwaitsMeans | code/src/kvraft/kvServerApplyTicker.go:58-81 | Among operations of this server, and only of it, just those with the content of the one waiting under their client and number are awaited. |
| KvReplica.KVServer.constructor | code/src/kvraft/server.go:78-109 | A server starts from its snapshot, or empty. |
| KvReplica.KVServer.IsDuplicateOp | code/src/kvraft/utils.go:71-82 | Whether the request's number is at most the last one applied for its client. |
| KvReplica.KVServer.CreateStartCh | code/src/kvraft/utils.go:23-36 | From now on the operation waits for this client and request; other channels stay. |
| KvReplica.KVServer.DeleteStartCh | code/src/kvraft/utils.go:55-69 | Nobody waits for this client and request any more; other channels stay. |
| KvReplica.KVServer.PreStart | code/src/kvraft/kvServerGet.go:97-136 | The operation stands for the request under a fresh number and waits; a killed server stops and nobody waits; other channels stay. |
| KvReplica.KVServer.Serve | code/src/kvraft/kvServerPutAppend.go:181-218 | What goes to Raft and what the client is told in every case; afterwards nobody waits for this request, others still do. |
| KvReplica.KVServer.OpChannelMatch | code/src/kvraft/kvServerApplyTicker.go:58-81 | The field comparisons hold exactly when this server made the operation and a call waits for the very request it stands for. |
| KvReplica.KVServer.HandleCommandApply | code/src/kvraft/kvServerApplyTicker.go:8-56 | Moves the state by Apply, snapshots just that state exactly when Raft has grown too large, and answers exactly whoever waits: the right answer as leader, ErrWrongLeader otherwise. |
| KvReplica.KVServer.HandleApplyMessage | code/src/kvraft/kvServerApplyTicker.go:99-123 | A snapshot replaces the state, a command is applied, the filler changes nothing. |
| KvReplica.Recover | code/src/kvraft/kvServerSnapshot.go:9-41 | A server that starts from another's snapshot has that server's state and log count. |
| KvReplica.KVServer.InstallSnapshot | code/src/kvraft/kvServerSnapshot.go:33-41 | The state becomes that of the snapshot; without one it stays. |
| KvReplica.Clerk.Request | code/src/kvraft/kvServerPutAppend.go:53-93 | Under one new number the clerk asks server after server; an update ends only with OK, a get only with OK or a missing key, and every outcome before was neither. |
| KvHistory.InvokeKeeps | code/src/kvraft/kvServerPutAppend.go:53-63 | A new request keeps the invariant: one request at a time per clerk, under growing numbers. |
| KvHistory.OrderKeeps | code/src/kvraft/kvServerPutAppend.go:181-204 | Any request entering the log again at any time keeps the invariant. |
| KvHistory.ApplyKeeps | code/src/kvraft/kvServerApplyTicker.go:8-56 | A replica applying the next operation stays the replay of a prefix, and its answer is right for its place. |
| KvHistory.ReceiveKeeps | code/src/kvraft/kvServerGet.go:71-82 | A clerk takes no refusal or timeout for an answer, and what it takes comes from the place in the log that answered its own request. |
| KvHistory.EveryRunKeeps | code/src/kvraft/kvServerApplyTicker.go:99-123 | The invariant holds in every state of every run. |
| KvHistory.LogInOrder | code/src/kvraft/utils.go:71-82 | In every run each client's requests first enter the log in the order of their numbers. |
| KvHistory.PointOf | code/src/kvraft/kvServerApplyTicker.go:8-56 | Every request that returned, and every update in the log, has a place where it takes effect. |
| KvHistory.PointWithin | code/src/kvraft/kvServerGet.go:50-93 | That place is filled after the request was made and before it returned. |
| KvHistory.EffectOrderRuns | code/src/models/kv.go:40-54 | In the order of effects the specification allows every answer given and holds the replicas' values at every place of the log. |
| KvHistory.EveryRunLinearizable | code/src/kvraft/kvServerApplyTicker.go:8-56 | In every run what the clients have seen, with updates pending in the log, is linearizable. |
| KvHistory.ReturnedLinearizable | code/src/kvraft/kvServerPutAppend.go:53-93 | When no clerk waits, all requests with their answers are linearizable and properly timed. |
| KvHistory.CheckService | code/src/porcupine/checker.go:360-368 | The checker accepts every such history of the service. |
| RaftPeer.SnapshotsInvisible | code/src/raft/installSnapshot.go:57-95 | Through any events in reach, a server that takes snapshots gives the answers and holds the whole log of one that never does. |
| RaftPeer.VoteEarned | code/src/raft/requestVotes.go:55-105 | A vote is granted exactly to a request of no earlier term, with a last entry not behind the voter's, when nobody else has the vote; and what state each case leaves. |
| RaftPeer.OfficeEarned | code/src/raft/requestVotes.go:187-207 | A server takes office exactly as a candidate with a majority of votes, and steps down exactly for a later term. |
| RaftPeer.AppendEarned | code/src/raft/appendEntities.go:32-93 | An append is accepted exactly when its term is current, its previous index in reach and the term there the same; then the log is cut and extended and the commit index becomes the larger of its own and the leader's; otherwise both stay. |
| RaftPeer.RequestMeans | code/src/raft/appendEntities.go:236-247 | A leader can send exactly from the places its log still tells of, and sends the entry before, all the rest, its term and its commit index. |
| RaftPeer.MatchingFollowerCatchesUp | code/src/raft/appendEntities.go:23-94 | A follower whose log agrees up to where the leader sends from accepts, and ends with the leader's log and no smaller commit index. |
| RaftPeer.ReplyMeans | code/src/raft/appendEntities.go:176-181 | A leader steps down exactly on a refusal from a later term. |
| RaftPeer.SnapshotMeans | code/src/raft/installSnapshot.go:66-80 | A snapshot is taken exactly of entries committed and not yet compacted, and what it covers counts as told. |
| RaftNode.Raft.constructor | code/src/raft/raft.go:326-382 | A new follower in term 0 with only the filler entry, or the saved term, vote and log with everything else reset. |
| RaftNode.Raft.GetLastLogEntryIndex | code/src/raft/logUtils.go:20-22 | The last index of the whole log. |
| RaftNode.Raft.GetLastLogEntryTerm | code/src/raft/logUtils.go:13-18 | The term of the last entry of the whole log, even if it is inside the snapshot. |
| RaftNode.Raft.GetLogEntryAtIndex | code/src/raft/logUtils.go:75-84 | The entry of the whole log at the index, or halting exactly for compacted and missing ones. |
| RaftNode.Raft.GetLogTermAtIndex | code/src/raft/logUtils.go:56-62 | The term there, also for the last compacted entry. |
| RaftNode.Raft.GetLogEntryStartingAt | code/src/raft/logUtils.go:141-149 | The whole log from the index on. |
| RaftNode.Raft.LogMatches | code/src/raft/logUtils.go:113-126 | Whether the whole log has an entry of the term at the index. |
| RaftNode.Raft.CandidateIsUpToDate | code/src/raft/logUtils.go:86-95 | Whether the candidate's last entry is of a later term than the whole log's last, or of the same and no earlier in index. |
| RaftNode.Raft.RemoveLogFromIndex | code/src/raft/logUtils.go:97-111 | Cuts the whole log after the index; halts exactly at -1, inside the snapshot and beyond the end. |
| RaftNode.Raft.AppendEntries | code/src/raft/logUtils.go:151-153 | Adds the entries to the end of the whole log. |
| RaftNode.Raft.BecomeFollower | code/src/raft/raftUtils.go:79-87 | Follower of the given term and vote, saved. |
| RaftNode.Raft.BecomeCandidate | code/src/raft/raftUtils.go:71-77 | Candidate of the next term with its own vote, saved. |
| RaftNode.Raft.BecomeLeader | code/src/raft/raftUtils.go:47-69 | Leader of the election term plus one, vote cleared, every next index at the log's end, saved. |
| RaftNode.Raft.StartElection | code/src/raft/raft.go:306-313 | A candidate of the next term with just its own vote, saved, that asks every other server once. |
| RaftNode.Raft.CandidateGatherVotes | code/src/raft/requestVotes.go:227-240 | Every other server is asked, each once. |
| RaftNode.Raft.RequestVote | code/src/raft/requestVotes.go:32-106 | Grants exactly the votes that VoteEarned allows, on the whole log, and saves the new state. |
| RaftNode.Raft.HandleVoteReply | code/src/raft/requestVotes.go:187-207 | Becomes leader exactly as a candidate whom this reply gives, or leaves, a majority; the new state is saved. |
| RaftNode.Raft.CheckElectionStatus | code/src/raft/requestVotes.go:110-124 | A candidate with a majority becomes leader, nobody else. |
| RaftNode.Raft.GetRequestVoteArgs | code/src/raft/requestVotes.go:218-225 | Asks with the current term and the whole log's last entry. |
| RaftNode.Raft.Start | code/src/raft/raft.go:211-244 | A leader's command becomes the last entry, of its term, at the returned index; others change nothing. |
| RaftNode.Raft.AppendEntriesWithLock | code/src/raft/appendEntities.go:23-94 | Accepts exactly what AppendEarned allows, cuts and extends the whole log, moves the commit index to the larger of the two, and saves. |
| RaftNode.Raft.TakeEntries | code/src/raft/appendEntities.go:73-87 | The whole log is cut after the previous index and extended, and the commit index moves on; or the server halts. |
| RaftNode.Raft.CreateAppendEntriesArgs | code/src/raft/appendEntities.go:236-247 | Sends the whole rest of the log after the previous index with that entry's term. |
| RaftNode.Raft.ChooseOutgoing | code/src/raft/appendEntities.go:114-141 | Snapshot for a server too far behind, else nothing if not leader, else the append. |
| RaftNode.Raft.HandleAppendReply | code/src/raft/appendEntities.go:146-225 | Bookkeeping, commit, step down or back-off, whichever the reply calls for. |
| RaftNode.Raft.BackOff | code/src/raft/appendEntities.go:188-208 | The next index goes back over exactly the run of entries of one term, no further than the log goes. |
| RaftNode.Raft.LeaderUpdateCommit | code/src/raft/commitAndApplyUtils.go:7-52 | The commit index becomes the last entry of the current term that a majority holds, never goes back, and the code's two checks cannot fail. |
| RaftNode.Raft.CommitToApplyChannelWithLock | code/src/raft/commitAndApplyUtils.go:54-120 | Tells of the snapshot if that is ahead and else of every entry of the whole log up to the commit index, or halts. |
| RaftNode.Raft.Snapshot | code/src/raft/installSnapshot.go:57-95 | Compacts without changing the whole log; the stored snapshot changes with it. |
| RaftNode.Raft.InstallSnapshotLocked | code/src/raft/installSnapshot.go:99-154 | The covered entries replace the log's beginning, what was beyond them stays, the data is stored. |
| RaftNode.Raft.CreateInstallSnapshotArgs | code/src/raft/installSnapshot.go:175-186 | Sends the stored snapshot with the index and term of the last compacted entry. |
| RaftLog.AcceptedIsSent | code/src/raft/appendEntities.go:73-75 | In any state of the invariant an accepted append makes the follower's whole log the leader's at the time of sending. |
| RaftLog.DeliverKeeps | code/src/raft/appendEntities.go:23-94 | Delivering any append ever sent, late or again, keeps the invariant. |
| RaftLog.CommandKeeps | code/src/raft/raft.go:211-244 | A leader appending keeps the invariant. |
| RaftLog.HearVoteKeeps | code/src/raft/requestVotes.go:187-207 | A server taking office keeps the invariant. |
| RaftLog.LogMatching | code/src/raft/appendEntities.go:23-94 | In every run in which no term has two winners, logs with the same term at an index are the same up to it. |
| RaftLog.AcceptedAppendCopies | code/src/raft/appendEntities.go:236-247 | In every such run an accepted append makes the follower's whole log equal the leader's log at send time. |
| RaftLog.AcceptedAppendCommits | code/src/raft/appendEntities.go:80-86 | In every run an accepted append leaves the follower's commit index the larger of what it was and what the leader's was at send time. |
| RaftElection.VoteKeeps | code/src/raft/requestVotes.go:32-106 | Granting, refusing or withdrawing a vote keeps at most one grant per server and term. |
| RaftElection.HearVoteKeepsVotes | code/src/raft/requestVotes.go:187-216 | A candidate's count is its own vote and one real grant from each server counted; a winner has a majority of the servers. |
| RaftElection.DeliverKeepsVotes | code/src/raft/appendEntities.go:41 | An append leaves every binding vote in place, unless its own term meets a granted vote. |
| RaftElection.ElectionSafety | code/src/raft/requestVotes.go:110-124 | In every run without a recounted vote or such an append, no term has two winners. |
| RaftElection.OneLeaderPerTerm | code/src/raft/raftUtils.go:47-50 | In every such run two servers that lead in one term, at whatever two moments, are one. |
| RaftElection.ElectedLogsMatch | code/src/raft/appendEntities.go:23-94 | In every such run logs match, with nothing assumed about leaders. |
| RaftBallots.EveryRunKeepsBallots | code/src/raft/requestVotes.go:164-225 | In every run a request of the term its server stands in speaks of the log that server still has, though it is filled in only when sent. |
| RaftBallots.VotesNotBehind | code/src/raft/requestVotes.go:79-98 | In every run every vote ever granted went to a request whose last entry was not behind the voter's log when it voted. |
| RaftBallots.WinnerNotBehind | code/src/raft/requestVotes.go:110-124 | Whenever a server takes office, its log is not behind that of anyone whose vote it counted, as it was when they voted. |
| RaftBallots.ElectedByMajority | code/src/raft/requestVotes.go:110-124 | Under the conditions of ElectionSafety these voters and the winner are a majority. |
| RaftElection.TwoWinners | code/src/raft/requestVotes.go:164-206 | A run in which requests left over from an earlier election read the new term, one server's vote is granted and counted twice, and two servers win one term. |
| RaftElection.TwoWinnersAgain | code/src/raft/appendEntities.go:41 | A run in which every vote is counted once and appends that clear votes let two servers win one term. |
| RaftApply.ConsumeCommands | code/src/raft/commitAndApplyUtils.go:89-108 | The commands of one delivery take the service on by exactly the actions of the log entries, without gap. |
| RaftApply.ReadyMeans | code/src/raft/commitAndApplyUtils.go:65-116 | A delivery tells of the snapshot if that is ahead, and else of every entry up to the commit index, in order; it fails exactly when the log does not reach so far. |
| RaftApply.TwoDeliveries | code/src/raft/commitAndApplyUtils.go:54-120 | Nothing committed is kept back: after two deliveries on end everything up to the commit index has been told. |
| RaftApply.InstallMeans | code/src/raft/installSnapshot.go:109-143 | A snapshot is installed exactly when it is of no earlier term and covers an entry not yet compacted; what the log had beyond it stays. |
| RaftApply.HappenKeeps | code/src/raft/installSnapshot.go:57-154 | Every event keeps service and server in step and the stored snapshot true to its index. |
| RaftApply.ToldInOrder | code/src/raft/commitAndApplyUtils.go:54-120 | Through any interleaving the service is told contiguous, strictly increasing commands, and a snapshot only moves it forward to what the snapshot covers. |
| RaftApply.HappenAgrees | code/src/raft/installSnapshot.go:57-154 | Every event that leaves what was told unchanged keeps the service at the actions of the log and the stored snapshot at those of the compacted entries. |
| RaftApply.ToldTheLog | code/src/raft/commitAndApplyUtils.go:54-120 | Through any such interleaving the service has exactly the actions of the log up to the last entry told. |
| Grouping.GroupReduce | code/src/mr/worker.go:196-212 | The index loops produce one line for each run of equal keys, from all values of the run. |
| Grouping.GroupsAreLines | code/src/main/mrsequential.go:68-84 | On sorted pairs that is exactly one line for each key, from all its values. |
| Grouping.LinesRearranged | code/src/mr/worker.go:187 | Rearranged pairs give the same lines. |
| Grouping.BucketOfAll | code/src/mr/worker.go:135-142 | Bucketing each map output and concatenating is concatenating and bucketing. |
| Grouping.AllBuckets | code/src/mr/worker.go:162-221 | The outputs of all buckets together are the lines of all pairs, each once. |
| Grouping.BucketedEqualsSequential | code/src/main/mrsequential.go:59-84 | For any hash and any number of buckets, however the sorts order equal keys, buckets give as a multiset the lines of one global sort and group. |
| Coordinator.Coordinator.constructor | code/src/mr/coordinator.go:214-236 | Every task in store, the job not done. |
| Coordinator.Coordinator.AllMapDone | code/src/mr/coordinator.go:54-61 | Whether every map task is finished. |
| Coordinator.Coordinator.AllReduceDone | code/src/mr/coordinator.go:64-71 | Whether every reduce task is finished. |
| Coordinator.Coordinator.TakeFree | code/src/mr/coordinator.go:108-134 | Hands out the first task that is in store or was handed out more than ten seconds ago, and changes only that one; or finds all others finished or handed out within ten seconds. |
| Coordinator.Coordinator.HandleRequestTask | code/src/mr/coordinator.go:79-180 | A Get hands out the first task due of the phase, waits or is done exactly as AskingMeans says; a Put changes the book as ReportingMeans says. |
| Coordinator.FinishedStays | code/src/mr/coordinator.go:79-180 | No request reverts a finished task; only a report finishes one; done is set only when all are finished. |
| Coordinator.AskingMeans | code/src/mr/coordinator.go:96-178 | Asking hands out exactly the first task in store or overdue by ten seconds, says to wait only when every unfinished task of the phase was handed out within ten seconds, and is done exactly when all are finished. |
| Coordinator.ReportingMeans | code/src/mr/coordinator.go:82-95 | A report finishes its task and no other; the job is done exactly after a reduce report that leaves all finished. |
| Handouts.HandoutsApart | code/src/mr/coordinator.go:120-133 | In every run, whatever times the coordinator reads, two handouts of one task are more than ten seconds apart. |
| MapReduce.DoMap | code/src/mr/worker.go:103-156 | Each intermediate file holds the emitted pairs of its bucket, in order. |
| MapReduce.DoReduce | code/src/mr/worker.go:162-221 | The output is one line for each key of the files, from all its values. |
| MapReduce.Sequential | code/src/main/mrsequential.go:38-86 | The lines of some sorting of everything that all map calls emit. |
| MapReduce.AskKeeps | code/src/mr/coordinator.go:96-178 | Handing out a task keeps the invariant. |
| MapReduce.RenameKeeps | code/src/mr/worker.go:144-155 | Renaming one intermediate file into place, first or again, keeps the invariant. |
| MapReduce.FilesAreThere | code/src/mr/worker.go:167-174 | A reduce worker finds every file it opens, with the right contents. |
| MapReduce.OutputKeeps | code/src/mr/worker.go:186-220 | Renaming an output into place, first or again, keeps the invariant. |
| MapReduce.EveryRunKeeps | code/src/mr/worker.go:44-96 | The invariant holds in every state of every run with any crashes and repeated reports. |
| MapReduce.FinishedForever | code/src/mr/coordinator.go:82-95 | A task once finished and a job once done stay so to the end of every run. |
| MapReduce.ReduceFindsFiles | code/src/mr/coordinator.go:140-172 | No reduce task is handed out before every intermediate file exists with its right contents. |
| MapReduce.DoneIsSequential | code/src/mr/coordinator.go:90-102 | Once isDone is set all outputs exist and together are the sequential program's lines. |
| Rebalance.OneOrder | code/src/shardctrler/util.go:166-173 | There is only one way to put the group ids in order. |
| Rebalance.GetSortedKeys | code/src/shardctrler/util.go:166-173 | The group ids in increasing order, whatever order the map gives them in. |
| Rebalance.FilledInTurn | code/src/shardctrler/util.go:191-197 | An unassigned shard goes to the group whose turn it is, counting the unassigned shards before it; an assigned one stays. |
| Rebalance.AssignVoidShards | code/src/shardctrler/util.go:184-198 | Unassigned shards go to the groups in turn; assigned ones stay. |
| Rebalance.GetMinMaxGroup | code/src/shardctrler/util.go:200-220 | The first group with fewest and the first with most shards, and their counts; the sentinel does no harm for up to 256 shards. |
| Rebalance.AroundShare | code/src/shardctrler/util.go:222-234 | The smallest group has at most its share, and if it has less the largest has more. |
| Rebalance.MoveReduces | code/src/shardctrler/util.go:225-233 | Every move of the loop reduces the distance from even by exactly one. |
| Rebalance.RedistributedIsBalanced | code/src/shardctrler/util.go:222-234 | The loop ends with any two groups within one of each other, after as many moves as the distance. |
| Rebalance.ChangesNeeded | code/src/shardctrler/util.go:222-234 | Between any two assignments, the distance falls by at most the number of shards changed. |
| Rebalance.RedistributionIsBest | code/src/shardctrler/util.go:222-234 | No shard moves twice, and no balanced assignment to the same groups changes fewer shards. |
| Rebalance.MovesGoToNew | code/src/shardctrler/util.go:222-234 | Where the old groups are even and ahead of the rest, shards only move out of them to other groups. |
| Rebalance.RedistributeShards | code/src/shardctrler/util.go:222-234 | Terminates, and leaves the array redistributed. |
| ShardCtrler.RebalancedIsEven | code/src/shardctrler/applyTicker.go:20-26 | Filling and redistributing puts every shard in a group and balances; without groups nothing changes. |
| ShardCtrler.NextIsSound | code/src/shardctrler/applyTicker.go:9-66 | All shards are 0 without groups and otherwise in a live group; a join or a leave leaves them balanced. |
| ShardCtrler.NextHasEffect | code/src/shardctrler/applyTicker.go:9-66 | A join adds just the new groups, theirs winning; a leave removes just the leaving groups and leaves them no shard; either then evens out with the fewest changes; a move changes one shard and nothing else. |
| ShardCtrler.ApplyHasEffect | code/src/shardctrler/applyTicker.go:77-102 | A new request for a change has exactly its effect on the latest configuration; repeats and queries leave the configurations alone. |
| ShardCtrler.RepeatsHaveNoEffect | code/src/shardctrler/util.go:19-30 | Through a whole run, a request has its effect exactly if no request of its client with so large a number came before. |
| ShardCtrler.JoinMovesToNewGroups | code/src/shardctrler/applyTicker.go:9-30 | A join onto a balanced configuration leaves every shard where it was or in a newly joined group. |
| ShardCtrler.EveryRunSound | code/src/shardctrler/applyTicker.go:68-102 | Over every sequence of requests configuration i has number i, earlier ones never change, each comes from the one before by the effect of one request, and all are sound. |
| ShardCtrler.FirstIsSound | code/src/shardctrler/server.go:40-56 | One configuration, number 0, no groups, every shard unassigned, no request seen. |
| ShardCtrler.ShardCtrler.MakeNextConfig | code/src/shardctrler/util.go:46-70 | A fresh copy of the latest configuration under the next number. |
| ShardCtrler.ShardCtrler.HandleJoin | code/src/shardctrler/applyTicker.go:9-30 | Appends one configuration, the same for every map order, with the groups of both and the effect of a join. |
| ShardCtrler.ShardCtrler.HandleLeave | code/src/shardctrler/applyTicker.go:32-57 | Appends one configuration, the same for every map order, without the leaving groups and with none of their shards left to them. |
| ShardCtrler.ShardCtrler.HandleMove | code/src/shardctrler/applyTicker.go:59-66 | Appends the latest configuration with one shard given to the group and nothing else changed. |
| ShardCtrler.ShardCtrler.GetValue | code/src/shardctrler/util.go:32-40 | The configuration with that number, or the one with the largest if there is none. |
| ShardCtrler.ShardCtrler.HandleCommandApply | code/src/shardctrler/applyTicker.go:68-112 | A repeated request changes nothing; queries are answered from the list; others append; a snapshot of the new state is taken, and a server that does not lead says so. |

## Left out

- Bitset.Hash: words are sequences of 64 bits rather than machine words; the value is the one the code computes, proved only to depend on the words.
- Histories.CheckParallel: goroutines, the timeout with its third verdict, the kill flag and the collected partial linearizations are not modelled; the parts are checked one after the other.
- RaftNode.Raft.BackOff: how fast a leader and a follower find their common prefix is not stated.
- RaftLog.LogMatching: Leader Completeness and State Machine Safety are not claimed; the code clears votes on messages of the same term, always cuts the log after the previous index, and does not compare terms when it keeps a suffix on installing a snapshot.
- RaftElection.ElectionSafety: InstallSnapshot messages, which also clear a vote, are not part of the cluster.
- RaftApply.ToldTheLog: about one server and its log; that all servers are told the same commands would need State Machine Safety.
- Rebalance.RedistributionIsBest: optimal for redistribution only; filling the shards of a leaving group ignores load, so a leave as a whole can move more than needed.
- KvReplica.Clerk.Request: the loop of Get and that of PutAppend are one method over the outcomes of its calls, for the code retries forever.
- ShardCtrler.ShardCtrler.HandleCommandApply: waiting channels and the request handlers are left out, as they repeat those of the key/value service; the code never installs the snapshots it makes.
- Channel blocking and timers: what comes through a channel in time, and whether the server was killed, are arguments. In the runs of `KvHistory` a request that gets no answer and a snapshot at any time stand for them.
- Waiting channels and leadership of the key/value servers are not part of the runs of KvHistory; any answer of the server that took the request may reach the client, with either outcome of the leader test.
- `nextIndex` and `matchIndex` are not part of RaftCluster: a leader may send from any index and set any commit index.
- `shardkv`, `labrpc`, `labgob`, the test harnesses, the visualization, the commented-out worker and the FNV hash, which is an arbitrary function here.
- The files of MapReduce are values; their names, encoding and the format of an output line are not modelled.
