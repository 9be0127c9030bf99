# Verified models of six components

The repository collects independent student projects. This project models the parts of them whose
correctness is hardest to see, and proves what they are for.

* **Raft** (`Quorums`, `RaftServer`, `RaftProtocol`, `RaftInvariant`, `RaftMatch`, `RaftSteps`,
  `RaftTheorems`, `RaftDelivery`, `RaftStaleMatch`, `RaftPeer`, `RaftCluster`). `RaftServer` gives every region of the program that
  runs under a server's lock as a function. `RaftPeer` is the Raft object whose methods change fields and
  arrays in place and are proved to compute those functions, and `RaftCluster` drives such objects through
  any run. `RaftTheorems` has what never happens, `RaftDelivery` what does: what is delivered, committed,
  voted for and backed up, exactly. `RaftProtocol` is the cluster: any number of
  servers, and messages that, once sent, may arrive never, late, often and in any order; servers crash and
  restart from what they saved, also between saving a new term and finishing a handler. The gaps the
  program leaves unlocked are separate steps: an election is announced and begins later, a reply is
  handled after its request was sent. A timer may fire at any moment and in any role. The history the
  theorems speak of (reigns, ballots, acknowledgements, deliveries) is recorded beside the state; no step
  reads it.
* **The linearizability checker** (`Linearizability`, `Bitset`, `LinkedEntries`, `PendingList`,
  `PendingChain`, `Checker`, `CheckSingle`, `Operations`, `SortedEntries`, `Events`, `KvStore`). The search runs on
  the mutable doubly linked list, the bitset of 64-bit words, the stack and the cache of the program.
  `CheckSingle.Run` is the whole of `checkSingle`; its loop body's two long branches are the methods
  `Enter` and `Leave`. `lift` and `unlift` are two pointer removals or restorations each. `SortedEntries`
  says what the answer means for recorded operations and `Events` for recorded events, `KvStore` why checking key by key is sound and
  complete.
* **Log compaction and crash-safe files** (`CompactedLog`, `CompactedDelivery`, `CompactedPeer`,
  `Persistence`). The handlers of a Raft log cut short by a snapshot, related to the full log; the stream
  delivered to the application, over whole runs beside a node that never takes a snapshot; the order of
  disk operations, where every operation, down to each byte written, leaves a possible crash state behind;
  and the Raft object over those files, whose every crash, followed by a restart, gives the log from before
  or after the handler it interrupted.
* **PBFT voting** (`Pbft`, `PbftProgress`, `PbftNode`). One consensus round of 3f+1 nodes. Up to f nodes send anything they
  like; requests and pre-prepares may be anything from anyone; only votes are authenticated. `PbftProgress`
  says by the votes that reach a node when it votes and executes. `PbftNode` has the node objects and runs
  four of them beside the model.
* **SHA-256 and proof of work** (`Sha256Standard`, `Sha256Constants`, `Sha256Abc`, `Sha256`, `ProofOfWork`).
  `Sha256Standard` follows FIPS 180-4, sections 4.1.2, 4.2.2, 5.1.1, 5.2.1, 5.3.3 and 6.2.2;
  `Sha256Constants` says what its tables and word functions are without them, `Sha256Abc` computes a known
  digest through it; `Sha256` is the streaming context.
* **The execution queue** (`ExecuteQueue`). Ordered insertion and draining of committed batches.

## Where the programs and their claims differ

* Raft's match index is commonly read as a lower bound on what a follower shares with the leader. That
  fails for a follower that has moved to a later term (`RaftStaleMatch.MatchIndexTooHigh`). It holds exactly
  when the follower's entry at the index has the leader's term (`RaftTheorems.MatchExactly`); for every
  follower whose term is not above the leader's (`RaftTheorems.MatchIndexBound`); and for every follower up
  to the leader's commit index (`RaftTheorems.CommittedMatchIsShared`).
* Operations whose call time equals another's return time may be sorted either way, because the program's
  sort is not stable. `SortedEntries.CheckHistory` is exact for the order chosen, which
  brackets the answer for the operations and decides it without ties.
* The checker asks of a model's equality on states that it be reflexive and that equal states accept the
  same operations and stay equal (`Linearizability.Congruent`). The key-value model's equality does.
* `hstob` knows of the capital digits only A; `ProofOfWork.ReadRight` says when that is harmless.
* A commit enqueued at or below the last executed number blocks execution for good
  (`ExecuteQueue.StuckForGood`), and the queue's order is kept exactly when numbers are enqueued once and
  above the start (`ExecuteQueue.OrderedExactly`).
* The handlers of a compacted log do not check that a message spares what is committed; the protocol must.
  `CompactedDelivery.Safe` is the exact condition on an event of a node in step under which every later read
  of the apply loop is in range (`CompactedDelivery.ReadsExactly`), and `CompactedDelivery.InstallBreaksReads`
  an input outside it. Reads in range say nothing about contents (`CompactedDelivery.InStepOverwrites`):
  those are right over every run whose messages overwrite nothing committed or applied
  (`CompactedDelivery.RunsAreTwins`).
* A node with a snapshot refuses a message that begins below it even where the entries agree. Beside a node
  that never takes a snapshot that is a lost message, and `CompactedDelivery.BelowExactly` says when the
  difference shows.
* `sha256_update` counts a piece's bytes in 32 bits and never returns from a piece of 2^32 bytes or more
  (`Sha256.CounterEnds`).
* The persister writes whatever it is told, in whatever order. Its crash points are consistent when the state
  names the snapshot index, and a new snapshot's index is above the one on disk; the Raft object sees to both
  (`CompactedPeer.Raft.Persist`, `CompactedPeer.Raft.SaveStateAndSnapshot`).
* `set_target` writes in front of its buffer for exponents below 3 (`ProofOfWork.SetTarget`); the target's
  value is right nevertheless.
* PBFT is to make progress with f nodes silent. Here the primary casts no prepare vote and a node does not
  count its own, so with f nodes silent only 2f - 1 prepare votes can reach a replica and it never casts its
  commit vote (`PbftProgress.ReplicasStop`); with nobody silent all can execute (`PbftProgress.EveryoneExecutes`).
  `PbftProgress.CommitsExactly` is the exact condition.
* A node executes its request again with every commit vote handed to it after the one that made it execute
  (`PbftProgress.ExecutesExactly`).
* Votes a node broadcasts do not reach itself; agreement relies on that, since a quorum is counted as 2f
  other nodes and itself.

## Model

| member | source | states |
|---|---|---|
| RaftTheorems.ElectionSafety | 22051123杜云箫/Raft实现/src/raft/raft.go:344-411 | Over every run with lost, duplicated, delayed and reordered messages, crashes and restarts, two servers that lead the same term, at the same or different moments, are the same server |
| RaftTheorems.LogMatching | 22051123杜云箫/Raft实现/src/raft/raft.go:196-228 | In every reachable state two logs with the same term at an index are equal up to that index |
| RaftTheorems.LeaderCompleteness | 22051123杜云箫/Raft实现/src/raft/raft.go:332-342 | What any reign has committed is, from then on, a prefix of the log of every leader of its own or a later term, whatever terms the servers holding it move on to |
| RaftTheorems.CommittedByReign | 22051123杜云箫/Raft实现/src/raft/raft.go:332-342 | Whatever a server holds as committed was committed by the reign of some term not above its own |
| RaftTheorems.StateMachineSafety | 22051123杜云箫/Raft实现/src/raft/raft.go:424-435 | No two servers ever deliver different commands to the apply channel at one index |
| RaftTheorems.ChosenAgree | 22051123杜云箫/Raft实现/src/raft/raft.go:332-342 | Two prefixes ever committed, in whatever reigns, agree wherever both reach |
| RaftTheorems.NeverPanics | 22051123杜云箫/Raft实现/src/raft/raft.go:243-297 | In every reachable state every step the network allows keeps all slices and indices in range |
| RaftTheorems.MatchIndexBound | 22051123杜云箫/Raft实现/src/raft/raft.go:279-284 | A leader's match index lies in its log and, for every follower whose term is not above the leader's, is a lower bound of the prefix they share, also after stale replies lowered it; for one that moved on, either it still is or a later reign began without that prefix |
| RaftTheorems.MatchExactly | 22051123杜云箫/Raft实现/src/raft/raft.go:193-196 | For every follower in any term: leader and follower share the prefix up to the match index if and only if the follower's entry at it has the leader's term, the test the follower makes on the next message |
| RaftTheorems.CommittedMatchIsShared | 22051123杜云箫/Raft实现/src/raft/raft.go:279-284 | A match index not above the leader's commit index is a lower bound of the shared prefix whatever term the follower has moved to |
| RaftStaleMatch.MatchIndexTooHigh | 22051123杜云箫/Raft实现/src/raft/raft.go:279-284 | A concrete reachable state of five servers in which the plain claim fails: the leader of term 1 records a match its follower, now in term 2, has replaced |
| RaftTheorems.SendsRealPrevious | 22051123杜云箫/Raft实现/src/raft/raft.go:256-265 | Every message a leader builds names an existing previous entry, so the -1 term never occurs, and its commit index is at most the last index it sends |
| RaftTheorems.BackoffMovesBack | 22051123杜云箫/Raft实现/src/raft/raft.go:285-297 | A rejection handled by the leader still in the request's term sets the next index between 1 and the rejected previous index |
| RaftTheorems.CommitShortcut | 22051123杜云箫/Raft实现/src/raft/raft.go:229-233 | Whenever a follower raises its commit index it takes the leader's value exactly, which never exceeds the last index the message verified, and agrees with the leader's log up to there |
| RaftDelivery.AppliedExactly | 22051123杜云箫/Raft实现/src/raft/raft.go:424-435 | At every moment of every run, what a server has put on its apply channel since it last started is exactly the commands of its log from the first to the last applied entry, each once, in order and at its own index, and its applied index is its commit index |
| RaftDelivery.StepExactly | 22051123杜云箫/Raft实现/src/raft/raft.go:229-233 | Every step keeps that, for the acting server and all others |
| RaftDelivery.FollowsExactly | 22051123杜云箫/Raft实现/src/raft/raft.go:179-235 | A follower takes a message if and only if its term is not old and the previous entry matches; it then agrees with the sender's reign as far as the message goes and its commit index is the larger of its own and the leader's; otherwise log and commit index stay |
| RaftDelivery.CommitsAll | 22051123杜云箫/Raft实现/src/raft/raft.go:332-342 | In every reachable state a leader's commit index is at or above every entry of its own term that a majority of its match indices reach |
| RaftDelivery.SuccessCommitsAll | 22051123杜云箫/Raft实现/src/raft/raft.go:279-284 | A handled success records the follower's match and next index and the leader's own, and commits at once whatever of the leader's term a majority then reaches |
| RaftDelivery.AnswersExactly | 22051123杜云箫/Raft实现/src/raft/raft.go:269-297 | A handled rejection moves this follower's next index alone, a later term ends the reign, an answer to another reign's request changes nothing; nothing is delivered |
| RaftDelivery.BacksUpExactly | 22051123杜云箫/Raft实现/src/raft/raft.go:196-208 | A rejection takes the leader back over exactly the indices where the logs cannot agree: at every index skipped their terms differ, and at the one before they may be the same, as the leader has the follower's conflicting term there or the follower another |
| RaftDelivery.VotesExactly | 22051123杜云箫/Raft实现/src/raft/raft.go:131-154 | A vote is granted if and only if the voter is free in the term and the candidate's last entry is not behind its own; and what term, vote and role are afterwards |
| RaftDelivery.WinsExactly | 22051123杜云箫/Raft实现/src/raft/raft.go:389-407 | A candidate becomes leader if and only if the votes counted in its term are a majority, with every next index behind its log and every match index 0 |
| RaftDelivery.DeliversOnlySent | 22051123杜云箫/Raft实现/src/raft/raft.go:311-328 | Every command a server has delivered is one a client sent to some leader earlier in the run |
| RaftDelivery.AllDeliveredSent | 22051123杜云箫/Raft实现/src/raft/raft.go:311-328 | The same for all deliveries of the cluster, of servers since crashed too |
| RaftInvariant.Completeness | 22051123杜云箫/Raft实现/src/raft/raft.go:332-356 | A prefix committed in one reign is in the log every later reign starts with, by induction over the reigns between |
| RaftInvariant.SameTermAgree | 22051123杜云箫/Raft实现/src/raft/raft.go:225-226 | Logs that are prefixes of their reigns' logs and share a term at a position share everything before it |
| RaftInvariant.TermsAscend | 22051123杜云箫/Raft实现/src/raft/raft.go:215-228 | Terms never fall along a log |
| RaftSteps.StepKeeps | 22051123杜云箫/Raft实现/src/raft/raft.go:131-435 | Every possible step keeps the protocol's invariant (votes, logs, acknowledgements, messages in flight, deliveries) |
| RaftSteps.RunKeeps | 22051123杜云箫/Raft实现/src/raft/raft.go:131-435 | The invariant holds after any run and what reigns have built only grows |
| RaftSteps.NoPanic | 22051123杜云箫/Raft实现/src/raft/raft.go:256-265 | Under the invariant a possible step takes no index out of range |
| RaftSteps.BackoffProgress | 22051123杜云箫/Raft实现/src/raft/raft.go:285-297 | For a message and a reply of the invariant, the conflict-term search lands between 1 and the previous index |
| RaftSteps.WinIsFirst | 22051123杜云箫/Raft实现/src/raft/raft.go:372-411 | A candidate whose votes exceed half the servers wins a term nobody has led |
| RaftSteps.StoreKeepsAcks | 22051123杜云箫/Raft实现/src/raft/raft.go:215-228 | After storing, a follower still holds every prefix it ever acknowledged, unless a later reign began without it |
| RaftMatch.MiddleIsMajority | 22051123杜云箫/Raft实现/src/raft/raft.go:333-337 | A majority of the match indices reach the one at position len/2 of the descending order |
| RaftMatch.MiddleIsLargest | 22051123杜云箫/Raft实现/src/raft/raft.go:333-337 | That index is the largest a majority has reached: an index is at or below it if and only if a majority of the match indices is at or past the index |
| RaftMatch.MiddleIsMember | 22051123杜云箫/Raft实现/src/raft/raft.go:336-337 | That value is one of the match indices |
| RaftMatch.SortDescends | 22051123杜云箫/Raft实现/src/raft/raft.go:336 | The sort used for the commit index is descending |
| RaftMatch.SortCounts | 22051123杜云箫/Raft实现/src/raft/raft.go:336 | and keeps the number of values at or above any bound |
| Quorums.Overlap | 22051123杜云箫/Raft实现/src/raft/raft.go:404 | Two sets of servers share at least what they exceed the cluster by |
| Quorums.Intersect | 22051123杜云箫/Raft实现/src/raft/raft.go:404 | Two majorities share a server |
| RaftPeer.Raft.RequestVote | 22051123杜云箫/Raft实现/src/raft/raft.go:131-154 | The handler, updating fields in place, computes the specified outcome and leaves term, vote and log persisted |
| RaftPeer.Raft.AppendEntries | 22051123杜云箫/Raft实现/src/raft/raft.go:179-235 | The same for the log handler: state, reply and deliveries |
| RaftPeer.Raft.FindFirst | 22051123杜云箫/Raft实现/src/raft/raft.go:202-208 | The conflict search returns the first index of the conflicting term |
| RaftPeer.Raft.StoreEntries | 22051123杜云箫/Raft实现/src/raft/raft.go:215-228 | The storing loop keeps agreeing entries and cuts the log at the first disagreement |
| RaftPeer.Raft.UpdateLastApplied | 22051123杜云箫/Raft实现/src/raft/raft.go:424-435 | Delivers exactly the entries between the applied and the commit index, in order |
| RaftPeer.Raft.PrepareAppend | 22051123杜云箫/Raft实现/src/raft/raft.go:251-266 | The message built for a peer is the specified one: the log from its next index on, the entry before it, the leader's term and commit index |
| RaftPeer.Raft.ReceiveAppendReply | 22051123杜云箫/Raft实现/src/raft/raft.go:269-297 | Handling a reply computes the specified state and deliveries, or does nothing when the reign is over |
| RaftPeer.Raft.Backoff | 22051123杜云箫/Raft实现/src/raft/raft.go:286-295 | The nested search returns one past the last entry of the conflicting term, or the follower's hint |
| RaftPeer.Raft.UpdateCommitIndex | 22051123杜云箫/Raft实现/src/raft/raft.go:332-342 | Sorts a copy and commits the middle value when it is new and of the current term |
| RaftPeer.SortInPlace | 22051123杜云箫/Raft实现/src/raft/raft.go:336 | The in-place sort yields the descending order of the array |
| RaftPeer.Raft.ReceiveVoteReply | 22051123杜云箫/Raft实现/src/raft/raft.go:391-407 | Counting a vote, stepping down or becoming leader is the function the cluster proof uses |
| RaftPeer.Raft.BeLeader | 22051123杜云箫/Raft实现/src/raft/raft.go:344-356 | A candidate becomes leader with every next index one past its log and every match index 0, any other role is left alone |
| RaftPeer.Raft.BeCandidate | 22051123杜云箫/Raft实现/src/raft/raft.go:362-370 | Term up by one, a vote for itself, persisted |
| RaftPeer.Raft.BeFollower | 22051123杜云箫/Raft实现/src/raft/raft.go:415-420 | The new term without a vote, persisted |
| RaftPeer.Raft.Start | 22051123杜云箫/Raft实现/src/raft/raft.go:311-328 | A leader appends the command with its term and persists it; others refuse |
| RaftPeer.Raft.Make | 22051123杜云箫/Raft实现/src/raft/raft.go:98-114 | A restart reads back exactly the saved term, vote and log |
| RaftCluster.Cluster | 22051123杜云箫/Raft实现/src/raft/raft.go:98-435 | Any number of Raft objects with their goroutines, driven through any run of lost, repeated and reordered messages, timeouts, commands and crashes: no object takes an index out of range, they are always where the run is and send exactly its messages; no two lead one term and no two commands ever put on apply channels at one index differ; each object has delivered exactly its log up to its commit index, in order; a leading object has committed all that it knows a majority to hold; and only commands that clients sent are delivered |
| RaftCluster.SafeWhereTheyStand | 22051123杜云箫/Raft实现/src/raft/raft.go:344-435 | Objects that are where a reachable state is have one leader a term and one command an index |
| RaftCluster.LiveWhereTheyStand | 22051123杜云箫/Raft实现/src/raft/raft.go:424-435 | Objects that are where a reachable state is have delivered exactly their logs up to their commit index, and as leaders committed all they can |
| RaftTheorems.RunsReach | 22051123杜云箫/Raft实现/src/raft/raft.go:131-435 | In a run of possible steps every step stays in range and every state is reachable |
| RaftCluster.Host.Take | 22051123杜云箫/Raft实现/src/raft/raft.go:131-435 | The object's method for a step is that step of the cluster model: same new server and goroutines, same messages sent, same commands delivered |
| RaftCluster.Host.BeginElection | 22051123杜云箫/Raft实现/src/raft/raft.go:372-389 | The election goroutine reads term and log when it runs and asks every other server |
| RaftCluster.Host.ReceiveVoteResponse | 22051123杜云箫/Raft实现/src/raft/raft.go:389-407 | A vote reply reaches the election that asked for it and counts there |
| RaftCluster.Host.Restart | 22051123杜云箫/Raft实现/src/raft/raft.go:98-114 | A crash loses the goroutines and the volatile fields; the new object has the persisted term, vote and log |
| CheckSingle.Run | 22051123杜云箫/Raft实现/src/porcupine/checker.go:174-248 | The search answers true exactly when the history is linearizable, and then returns a linearization; it terminates by the measure (configurations not yet cached, stack depth, nodes right of the cursor) |
| CheckSingle.Enter | 22051123杜云箫/Raft实现/src/porcupine/checker.go:194-205 | Placing a call keeps the search invariant (list, bitset, stack, cache against the path) and uses up one reachable configuration |
| CheckSingle.Leave | 22051123杜云箫/Raft实现/src/porcupine/checker.go:228-237 | Backing out restores list, bitset and state to those before the placement, which is now known dead |
| CheckSingle.Remember | 22051123杜云箫/Raft实现/src/porcupine/checker.go:194-199 | A lookup hits only a configuration already seen with an equal state, and a miss means it was never seen and is now remembered |
| CheckSingle.Setup | 22051123杜云箫/Raft实现/src/porcupine/checker.go:175-187 | Before the loop the list holds every entry behind its head and nothing is placed |
| Linearizability.PrunedIsTried | 22051123杜云箫/Raft实现/src/porcupine/checker.go:140-147 | A cached configuration of the size about to be entered is not on the stack, so it was explored and is dead: pruning never cuts a live branch |
| Linearizability.ReturnMeansDead | 22051123杜云箫/Raft实现/src/porcupine/checker.go:207-210 | When the scan reaches a pending return and every pending call before it failed, no completion exists |
| Linearizability.FullPath | 22051123杜云箫/Raft实现/src/porcupine/checker.go:239-247 | A stack that places every operation is a linearization |
| Linearizability.EqualAccepts | 22051123杜云箫/Raft实现/src/porcupine/checker.go:142 | States the model calls equal accept the same continuations |
| Linearizability.NextReached | 22051123杜云箫/Raft实现/src/porcupine/checker.go:196-202 | Every configuration the search enters is one of finitely many |
| Checker.CacheContains | 22051123杜云箫/Raft实现/src/porcupine/checker.go:140-147 | True exactly when the bucket of the set's hash holds the same set with an equal state |
| Checker.CacheMiss | 22051123杜云箫/Raft实现/src/porcupine/checker.go:140-147 | A failed lookup means the configuration was never cached, although only one bucket is searched |
| Checker.NextCursor | 22051123杜云箫/Raft实现/src/porcupine/checker.go:200-206 | Moving past a tried call keeps everything before the cursor tried, and a call always has a successor |
| Checker.EntryHolds | 22051123杜云箫/Raft实现/src/porcupine/checker.go:192-193 | The node under the cursor holds the call, or return, of the pending entry at its place |
| Checker.Length | 22051123杜云箫/Raft实现/src/porcupine/checker.go:78-85 | Counts the nodes of the list |
| LinkedEntries.MakeLinkedEntries | 22051123杜云箫/Raft实现/src/porcupine/checker.go:116-133 | The list doubly links one node for every entry, in order, each call pointing to its return |
| LinkedEntries.InsertBefore | 22051123杜云箫/Raft实现/src/porcupine/checker.go:65-76 | Inserts a node before any node of the list, the head included |
| LinkedEntries.Lift | 22051123杜云箫/Raft实现/src/porcupine/checker.go:154-162 | Takes a call and its return out; both still point to their old neighbours |
| LinkedEntries.Unlift | 22051123杜云箫/Raft实现/src/porcupine/checker.go:164-172 | Puts both back: the list is linked as before the lift |
| PendingChain.LiftCall | 22051123杜云箫/Raft实现/src/porcupine/checker.go:202-204 | Lifting the call being placed leaves the list of what is pending then, and every earlier lift can still be undone |
| PendingChain.UnliftCall | 22051123杜云箫/Raft实现/src/porcupine/checker.go:231-237 | Undoing the last lift gives exactly the list from before it, for any depth of nesting |
| PendingList.PlaceDrops | 22051123杜云箫/Raft实现/src/porcupine/checker.go:154-162 | Placing an operation removes exactly its two entries from what is pending |
| PendingList.LastIsReturn | 22051123杜云箫/Raft实现/src/porcupine/checker.go:192 | A pending call is never the last entry of the list |
| Bitset.NewBitset | 22051123杜云箫/Raft实现/src/porcupine/bitset.go:10-17 | An empty set with room for the given number of bits |
| Bitset.Clone | 22051123杜云箫/Raft实现/src/porcupine/bitset.go:19-23 | A fresh bitset with the same words |
| Bitset.Set | 22051123杜云箫/Raft实现/src/porcupine/bitset.go:29-33 | Adds exactly one number to the set |
| Bitset.Clear | 22051123杜云箫/Raft实现/src/porcupine/bitset.go:35-39 | Removes exactly one number |
| Bitset.Get | 22051123杜云箫/Raft实现/src/porcupine/bitset.go:41-44 | Membership |
| Bitset.Hash | 22051123杜云箫/Raft实现/src/porcupine/bitset.go:46-60 | The population count xored with every word |
| Bitset.PopulationCount | 22051123杜云箫/Raft实现/src/porcupine/bitset.go:46-52 | The population count is the size of the set |
| Bitset.Equals | 22051123杜云箫/Raft实现/src/porcupine/bitset.go:62-72 | Equality of words, which for equal lengths is equality of the sets |
| Bitset.SameMembers | 22051123杜云箫/Raft实现/src/porcupine/bitset.go:62-72 | Equal sets of one length have equal words, so equal sets have equal hashes |
| SortedEntries.MakeEntries | 22051123杜云箫/Raft实现/src/porcupine/checker.go:43-55 | The calls and returns of all operations, numbered in order, sorted by time; how ties fall is left open |
| SortedEntries.HistoryValid | 22051123杜云箫/Raft实现/src/porcupine/checker.go:43-55 | However ties fall, entries of operations that take time are a well-formed history with their inputs, outputs and times |
| SortedEntries.CheckHistory | 22051123杜云箫/Raft实现/src/porcupine/checker.go:360-368 | The answer is exact for the order the sort gave to ties; so yes implies linearizable in the strict real-time order, linearizable with ties counted as later implies yes, and without ties it is exact for the operations |
| Events.Renumber | 22051123杜云箫/Raft实现/src/porcupine/checker.go:87-101 | Ids become their numbers in order of first appearance, everything else stays |
| Events.ConvertEntries | 22051123杜云箫/Raft实现/src/porcupine/checker.go:103-114 | One entry for every event, of its kind, id and value |
| Events.HistoryOfEvents | 22051123杜云箫/Raft实现/src/porcupine/checker.go:87-114 | Events that call every id once and return it once are, renumbered, a well-formed history with two entries for every id |
| Events.CheckEvents | 22051123杜云箫/Raft实现/src/porcupine/checker.go:350-358 | The answer for such events is exact for every history that describes them, and there is one |
| Events.DescribedOnce | 22051123杜云箫/Raft实现/src/porcupine/checker.go:87-114 | Events describe one history only |
| Operations.IndicesOf | 22051123杜云箫/Raft实现/src/porcupine/checker.go:43-54 | Every rearrangement of the operations picks each index once |
| KvStore.Locality | 22051123杜云箫/Raft实现/src/models/kv.go:18-54 | A history is linearizable against one store of all keys exactly when the part on every key is against the one-key model |
| KvStore.StoreIsItsKeys | 22051123杜云箫/Raft实现/src/models/kv.go:36-53 | The store accepts a run exactly when every key accepts its part of it |
| KvStore.GetsReturnWritten | 22051123杜云箫/Raft实现/src/models/kv.go:36-53 | A run of operations on one key is legal if and only if every get returns what was last put, or nothing, followed by what was appended since |
| KvStore.MergeTimely | 22051123杜云箫/Raft实现/src/models/kv.go:18-35 | Two real-time orders of disjoint operations merge into one real-time order |
| KvStore.Partition | 22051123杜云箫/Raft实现/src/models/kv.go:19-35 | One part for every key that occurs, each the operations on that key in order |
| KvStore.CheckOperations | 22051123杜云箫/Raft实现/src/porcupine/checker.go:269-368 | Checking the parts one by one answers for the whole history against the multi-key store: yes implies linearizable, linearizable with ties counted as later implies yes, and without ties the answer is exact |
| CompactedLog.TakeSnapshotKeeps | 22051410郭宁翔/共识算法/raft/snapshot.go:52-82 | Folding entries into a snapshot leaves the full log and its last index unchanged |
| CompactedLog.AppendSimulates | 22051410郭宁翔/共识算法/raft/append_entries.go:180-229 | At or above the snapshot the handler stores the same full log and succeeds exactly when the uncompacted one does, that is when the full log has the leader's previous entry; on success the commit index is the larger of its own and the leader's, cut at the end of the log, otherwise it stays; and what becomes of term, role and vote |
| CompactedLog.HintsAgree | 22051410郭宁翔/共识算法/raft/append_entries.go:187-200 | The conflict hints are those of the uncompacted log, raised to the first index behind the snapshot |
| CompactedLog.RejectionHints | 22051410郭宁翔/共识算法/raft/append_entries.go:187-200 | On every rejection in the current term the conflict index lies between 1 and the previous index; behind the log it is one past its end, at the snapshot 1, else the first index behind the snapshot with the conflicting term |
| CompactedLog.AppendBelow | 22051410郭宁翔/共识算法/raft/append_entries.go:176-179 | Below the snapshot the handler refuses, asks for index 1 and takes over nothing but the term and the leader |
| CompactedLog.SavedAre | 22051410郭宁翔/共识算法/raft/append_entries.go:205-217 | Saving keeps the log up to the first difference and takes the sender's entries from there |
| CompactedLog.SendSimulates | 22051410郭宁翔/共识算法/raft/append_entries.go:62-76 | A compacted leader sends what an uncompacted one would: the full log from the next index on and the entry before it |
| CompactedLog.InstallReplaces | 22051410郭宁翔/共识算法/raft/snapshot.go:150-170 | An installed snapshot replaces the entries it stands for and keeps the rest exactly when the terms agree at its last index; it is delivered, and snapshot and applied index move to its own |
| CompactedLog.InstallIgnored | 22051410郭宁翔/共识算法/raft/snapshot.go:125-150 | A snapshot of an earlier term changes nothing, and one not newer than the node's own nothing but term and leader |
| CompactedLog.StartAppends | 22051410郭宁翔/共识算法/raft/raft.go:79-102 | A leader's full log is the old one followed by the command with the leader's term; others append nothing |
| CompactedLog.UpdatesCommitExactly | 22051410郭宁翔/共识算法/raft/commit.go:26-31 | A leader moves its commit index to a newer one if and only if its snapshot covers it or the full log's entry there has its term |
| CompactedDelivery.StaysInStep | 22051410郭宁翔/共识算法/raft/commit.go:34-60 | From a state in step (the snapshot is not past the applied index, and the log reaches the applied and the commit index) the next read is in range, and an event keeps the state in step exactly when it leaves the log long enough for both and folds only applied indices |
| CompactedDelivery.DeliveryStaysInStep | 22051410郭宁翔/共识算法/raft/commit.go:34-60 | Over every run of messages, folds, installs, deliveries, accepted commands and commits by a leader that leave the log long enough no index is out of range and each command's index is one above the command or snapshot delivered before it |
| CompactedDelivery.CommitsOnlyTold | 22051410郭宁翔/共识算法/raft/append_entries.go:221-226 | Over every run of possible events neither the commit index nor the index of any command delivered exceeds the largest of the commit index at the start, those received from leaders and those committed as leader |
| CompactedDelivery.ReadsExactly | 22051410郭宁翔/共识算法/raft/commit.go:34-60 | From a state in step, after any one event every number of further rounds of the apply loop, with no other event between, reads in range if and only if the event was safe: a message that cuts the log does not end it below what is committed and not yet applied (unless it raises the commit index itself), a fold takes only applied entries or nothing waits to be applied, and a disagreeing snapshot reaches the commit index |
| CompactedDelivery.InstallBreaksReads | 22051410郭宁翔/共识算法/raft/snapshot.go:150-170 | A concrete state and installed snapshot after which the next read is out of range |
| CompactedDelivery.InStepOverwrites | 22051410郭宁翔/共识算法/raft/append_entries.go:205-217 | A concrete state in step and message that stays in step and overwrites both entries delivered: the lengths alone do not protect contents |
| CompactedDelivery.RunsAreTwins | 22051410郭宁翔/共识算法/raft/append_entries.go:141-229 | Over every run of messages, folds, installs, deliveries, accepted commands and commits by a leader in which no message overwrites what is committed or applied, the node and one that never takes a snapshot go together: no index is out of range, the full logs are equal, the same messages are delivered, and every command ever delivered is still the full log's at its index. For the other node a message that begins below the snapshot counts as lost but for its term, and what the snapshot covers as committed |
| CompactedDelivery.TwinStep | 22051410郭宁翔/共识算法/raft/append_entries.go:141-229 | One such event keeps the two nodes twins |
| CompactedDelivery.BelowExactly | 22051410郭宁翔/共识算法/raft/append_entries.go:176-179 | When a message that begins below the snapshot reaches the other node too, the two stay twins if and only if that node refuses it or it brings nothing new: no conflict, no entry beyond the log, no higher commit index |
| CompactedDelivery.DeliversFullLog | 22051410郭宁翔/共识算法/raft/commit.go:44-54 | The command delivered is the full log's at the index it carries |
| CompactedDelivery.AcceptedLength | 22051410郭宁翔/共识算法/raft/append_entries.go:205-217 | Accepted entries cut the log to their end exactly when one of them conflicts |
| CompactedPeer.Raft.AppendEntries | 22051410郭宁翔/共识算法/raft/append_entries.go:141-229 | The handler on the object computes the specified state and reply, leaves the state in the files and the snapshots there alone, and every crash inside it restores the compacted log from before or after |
| CompactedPeer.Raft.SaveLoop | 22051410郭宁翔/共识算法/raft/append_entries.go:205-217 | The storing loop over the slice computes the specified log |
| CompactedPeer.Raft.ConflictIndex | 22051410郭宁翔/共识算法/raft/append_entries.go:192-200 | The search returns the first index behind the snapshot with the conflicting term |
| CompactedPeer.Raft.TakeSnapshot | 22051410郭宁翔/共识算法/raft/snapshot.go:52-82 | The same for folding: a newer snapshot is stored with the state that names it, an older one changes nothing |
| CompactedPeer.Raft.InstallSnapshot | 22051410郭宁翔/共识算法/raft/snapshot.go:125-178 | The same for an installed snapshot: state and reply are the specified ones, its data is stored, a crash at any disk operation restores the log from before or after |
| CompactedPeer.Raft.InstallSnapshotToApplication | 22051410郭宁翔/共识算法/raft/snapshot.go:32-49 | Delivers the bytes the files hold for the snapshot and moves the applied index to it |
| CompactedPeer.Raft.ApplyLog | 22051410郭宁翔/共识算法/raft/commit.go:41-57 | One round of the apply loop delivers the next command or reports that there is none |
| CompactedPeer.Raft.UpdateCommitIndex | 22051410郭宁翔/共识算法/raft/commit.go:26-31 | The leader commits a newer index that its snapshot covers or whose entry is of its term |
| CompactedPeer.Raft.DoAppendEntries | 22051410郭宁翔/共识算法/raft/append_entries.go:62-76 | Builds the specified message |
| CompactedPeer.Raft.Start | 22051410郭宁翔/共识算法/raft/raft.go:79-102 | A leader appends and persists the command and returns its index, crash-safely; others refuse |
| CompactedPeer.Raft.Make | 22051410郭宁翔/共识算法/raft/raft.go:108-131 | Loads what the persister's files hold, delivers its snapshot first and starts in step |
| CompactedPeer.Raft.LoadPersist | 22051410郭宁翔/共识算法/raft/state.go:17-33 | Reads back term, vote and compacted log, or leaves the fresh ones when there is no state |
| CompactedPeer.Raft.Persist | 22051410郭宁翔/共识算法/raft/state.go:10-15 | The encoded state goes to the file; each crash in between finds the old or the new log, and the snapshots stay |
| CompactedPeer.Raft.SaveStateAndSnapshot | 22051410郭宁翔/共识算法/raft/snapshot.go:78 | The same with the newer snapshot the state names; the persister's conditions hold in every caller |
| CompactedPeer.Restart | 22051410郭宁翔/共识算法/raft/raft.go:108-131 | The object made over the files of such a crash holds the full log from before or after and first delivers exactly the bytes saved for its snapshot |
| Persistence.Persister.MustWriteFile | 22051410郭宁翔/共识算法/raft/persister.go:177-196 | Writes through a temporary file; the recorded crash points are exactly the file growing byte by byte beside the old one, then the rename |
| Persistence.Persister.SaveStateAndSnapshot | 22051410郭宁翔/共识算法/raft/persister.go:113-126 | For any arguments: snapshot, then state, then older snapshots, each crash point with the old or the new state. When the state names the index and it is above the one on disk, every disk in between names index 0 or an existing snapshot with exactly the bytes saved for it |
| Persistence.Persister.SaveRaftState | 22051410郭宁翔/共识算法/raft/persister.go:55-62 | For any state: the file's crash points and final content; when it names the index already on disk, all of them are safe |
| Persistence.Persister.CleanOlderSnapshot | 22051410郭宁翔/共识算法/raft/persister.go:87-111 | Removes exactly the snapshots with a smaller index, one at a time; nothing else changes at any crash point |
| Persistence.Persister.ReadSnapshot | 22051410郭宁翔/共识算法/raft/persister.go:129-145 | Memory when synced, else the file of the index asked for; asked for the index the state names, exactly the bytes saved for it |
| Persistence.Persister.ReadRaftState | 22051410郭宁翔/共识算法/raft/persister.go:44-70 | Memory when synced, else the file; in a valid persister what is on disk |
| Persistence.Recover | 22051410郭宁翔/共识算法/raft/persister.go:27-35 | A persister started over the files of any crash point reads a state whose snapshot is there with the bytes saved for it |
| Pbft.Agreement | 22051152张浩/区块链原型和PBFT/简易PBFT/consensus/pbft_impl.go:132-159 | With 3f+1 nodes, at most f of them arbitrary, and authenticated votes, two honest nodes that ever execute a request hold the same digest |
| Pbft.SameRequest | 22051152张浩/区块链原型和PBFT/简易PBFT/consensus/pbft_impl.go:132-159 | and, when the digest tells requests apart, the same request |
| Pbft.CommitVotesAgree | 22051152张浩/区块链原型和PBFT/简易PBFT/consensus/pbft_impl.go:106-130 | Honest nodes never cast commit votes for different digests |
| Pbft.OneVote | 22051152张浩/区块链原型和PBFT/简易PBFT/network/node.go:180-198 | All votes of an honest node are for one digest |
| Pbft.StandsForEver | 22051152张浩/区块链原型和PBFT/简易PBFT/network/node.go:231-251 | The request of an honest node never changes, because its state is never made again |
| Pbft.CommitQuorum | 22051152张浩/区块链原型和PBFT/简易PBFT/consensus/pbft_impl.go:201-211 | A node that executed has, with itself, 2f+1 voters for its digest |
| Pbft.PrepareQuorum | 22051152张浩/区块链原型和PBFT/简易PBFT/consensus/pbft_impl.go:189-199 | So has a node that cast a commit vote |
| Pbft.StepKeeps | 22051152张浩/区块链原型和PBFT/简易PBFT/network/node.go:126-225 | Every step keeps: counted votes are authentic, from other nodes and for the node's own digest |
| PbftProgress.CommitsExactly | 22051152张浩/区块链原型和PBFT/简易PBFT/consensus/pbft_impl.go:189-199 | At every moment of a run an honest node has broadcast a commit vote if and only if it has a request and verified prepare votes of at least 2f distinct other nodes have reached it |
| PbftProgress.ExecutesExactly | 22051152张浩/区块链原型和PBFT/简易PBFT/consensus/pbft_impl.go:201-211 | An honest node has executed its request once for each verified commit vote at whose arrival prepare votes and commit votes of 2f others had reached it: at all if and only if there was one, and again with every further one |
| PbftProgress.RepliesExactly | 22051152张浩/区块链原型和PBFT/简易PBFT/consensus/pbft_impl.go:132-159 | A reply is made if and only if the node executes, for the request's client and timestamp |
| PbftProgress.NumbersFresh | 22051152张浩/区块链原型和PBFT/简易PBFT/consensus/pbft_impl.go:52-59 | A request's number is the least that is not before the clock and after the last one executed |
| PbftProgress.EveryoneExecutes | 22051152张浩/区块链原型和PBFT/简易PBFT/network/node.go:126-225 | For every f > 0 with nobody faulty there is a run, from a client's request at the primary and within what the program's buffers let through, in which every node executes that request, once |
| PbftProgress.SilentStop | 22051152张浩/区块链原型和PBFT/简易PBFT/consensus/pbft_impl.go:189-199 | A node that no prepare vote of some f + 1 others has reached has neither cast its commit vote nor executed |
| PbftProgress.ReplicasStop | 22051152张浩/区块链原型和PBFT/简易PBFT/network/node.go:126-150 | With an honest primary, f nodes whose prepare votes do not reach a replica are enough to keep it from ever casting its commit vote or executing |
| PbftProgress.PrimaryNeverPrepares | 22051152张浩/区块链原型和PBFT/简易PBFT/network/node.go:126-150 | A node that took the client's request itself never casts a prepare vote |
| PbftNode.ConsensusState.StartConsensus | 22051152张浩/区块链原型和PBFT/简易PBFT/consensus/pbft_impl.go:50-83 | Numbers, stores and announces the request as specified |
| PbftNode.ConsensusState.PrePrepare | 22051152张浩/区块链原型和PBFT/简易PBFT/consensus/pbft_impl.go:85-103 | Stores the request, then votes only if view, number and digest are right |
| PbftNode.ConsensusState.Prepare | 22051152张浩/区块链原型和PBFT/简易PBFT/consensus/pbft_impl.go:106-130 | Files a verified vote and casts the commit vote once there are 2f |
| PbftNode.ConsensusState.Commit | 22051152张浩/区块链原型和PBFT/简易PBFT/consensus/pbft_impl.go:132-159 | Files a verified vote and executes once there are 2f |
| PbftNode.ConsensusState.VerifyMsg | 22051152张浩/区块链原型和PBFT/简易PBFT/consensus/pbft_impl.go:161-187 | View, sequence number and digest are checked against the stored request |
| PbftNode.PeerNode.CreateStateForNewConsensus | 22051152张浩/区块链原型和PBFT/简易PBFT/network/node.go:231-251 | Fails once a state exists, otherwise starts after the last executed number |
| PbftNode.PeerNode.GetReq | 22051152张浩/区块链原型和PBFT/简易PBFT/network/node.go:126-150 | The primary's step on the node |
| PbftNode.PeerNode.GetPrePrepare | 22051152张浩/区块链原型和PBFT/简易PBFT/network/node.go:154-178 | The replica's step |
| PbftNode.PeerNode.GetPrepare | 22051152张浩/区块链原型和PBFT/简易PBFT/network/node.go:180-198 | The prepare step |
| PbftNode.PeerNode.GetCommit | 22051152张浩/区块链原型和PBFT/简易PBFT/network/node.go:200-225 | The commit step, recording what was executed |
| PbftNode.PeerNode.ResolveMsg | 22051152张浩/区块链原型和PBFT/简易PBFT/network/node.go:390-436 | Dispatching a message to its method is the step of the agreement model: same new node, same vote broadcast |
| PbftNode.PlayIsConsistent | 22051152张浩/区块链原型和PBFT/简易PBFT/consensus/pbft_impl.go:31-34 | Objects that are where the honest nodes of a run with f = 1 are agree on what they executed, by the general agreement theorem |
| PbftNode.PlayIsResponsive | 22051152张浩/区块链原型和PBFT/简易PBFT/consensus/pbft_impl.go:189-211 | Objects that are where the nodes of a run are have voted and executed by the count of the votes that reached them |
| PbftNode.FourNodes | 22051152张浩/区块链原型和PBFT/简易PBFT/consensus/pbft_impl.go:31-34 | Four node objects, at most one of them faulty, driven through any run of the system: they take exactly its steps, broadcast exactly its votes, the honest ones never execute requests of different digests, and each has cast its commit vote and executed exactly when, and as often as, the votes that reached it ask for |
| Sha256.HashPieces | 22051141冯天祥/POW共识机制/sha256.c:99-158 | However a message is cut into pieces of less than 2^32 bytes, updating with one after another and finishing gives FIPS 180-4's hash of the whole |
| Sha256.Context.Update | 22051141冯天祥/POW共识机制/sha256.c:99-112 | Takes a piece of less than 2^32 bytes: the context then stands for the message so far followed by the piece |
| Sha256.CounterEnds | 22051141冯天祥/POW共识机制/sha256.c:101-103 | The 32-bit counter ever reaches a piece's length if and only if the piece has less than 2^32 bytes |
| Sha256.Final | 22051141冯天祥/POW共识机制/sha256.c:114-158 | Writes the hash of everything taken, with one or two padding blocks |
| Sha256.PadTail | 22051141冯天祥/POW共识机制/sha256.c:118-132 | The padding up to the length field, hashing a block first when 56 or more bytes wait |
| Sha256.LastSteps | 22051141冯天祥/POW共识机制/sha256.c:120-144 | The blocks the program hashes at the end are those of section 5.1.1's padded message |
| Sha256.PutLength | 22051141冯天祥/POW共识机制/sha256.c:135-143 | The length goes into the last eight bytes, most significant first |
| Sha256.WriteOutput | 22051141冯天祥/POW共识机制/sha256.c:148-157 | The digest is the state's words, most significant byte first |
| Sha256.Transform | 22051141冯天祥/POW共识机制/sha256.c:44-83 | One block is compressed as section 6.2.2 says, on the eight working variables in place |
| Sha256.MakeSchedule | 22051141冯天祥/POW共识机制/sha256.c:48-51 | The message schedule of 64 words |
| Sha256.Context.Init | 22051141冯天祥/POW共识机制/sha256.c:85-97 | The context stands for the empty message |
| Sha256Standard.ZerosForLeast | 22051141冯天祥/POW共识机制/sha256.c:120-132 | The padding is the least that fills whole blocks |
| Sha256Standard.PadsToBlocks | 22051141冯天祥/POW共识机制/sha256.c:120-144 | A padded message is whole blocks |
| Sha256Constants.ConstantsAreRoots | 22051141冯天祥/POW共识机制/sha256.c:32-41 | Each of the 64 round constants is the first 32 bits of the fraction of a prime's cube root, and each initial word of the square root |
| Sha256Constants.FirstPrimes | 22051141冯天祥/POW共识机制/sha256.c:32-41 | The primes are the first ones, in order and without a gap |
| Sha256Constants.Rotates | 22051141冯天祥/POW共识机制/sha256.c:21-22 | The rotation used by the sigmas is the rotation of the word, for each amount they use |
| Sha256Constants.Chooses | 22051141冯天祥/POW共识机制/sha256.c:24 | The choice function takes the bits of y where x has ones and of z elsewhere |
| Sha256Constants.TakesMajority | 22051141冯天祥/POW共识机制/sha256.c:25 | The majority function takes the common bit of x and y where they agree and that of z elsewhere |
| Sha256Constants.LengthNumber | 22051141冯天祥/POW共识机制/sha256.c:135-143 | The length field is the length modulo 2^64 as a number of eight bytes, the most significant first |
| Sha256Abc.HashOfAbc | 22051141冯天祥/POW共识机制/sha256.c:44-158 | The hash of "abc", computed step by step, is the digest known for it, which fixes schedule, rounds, constants, byte orders and padding |
| Sha256.Sha256Hash | 22051141冯天祥/POW共识机制/util.c:52-66 | The hash of the hash |
| ProofOfWork.SetTarget | 22051141冯天祥/POW共识机制/main.c:34-46 | For every exponent: the target's 256-bit value is mantissa times 256 to the exponent less 3, rounded down below exponent 3, and zero over 32; an exponent below 3 overwrites the bytes in front of the target with the rest of the mantissa, and no others change |
| ProofOfWork.CompactTarget | 22051141冯天祥/POW共识机制/main.c:34-46 | The same in terms of the 32-bit number the target is packed in |
| ProofOfWork.Hex256Cmp | 22051141冯天祥/POW共识机制/util.c:90-105 | The sign of the comparison of the two 256-bit numbers |
| ProofOfWork.Block.Search | 22051141冯天祥/POW共识机制/main.c:99-110 | Success exactly when the hash value is below the target; the nonce is the first of its progression, modulo 2^32, that succeeds |
| ProofOfWork.Block.SetHash | 22051141冯天祥/POW共识机制/main.c:48-51 | The block's hash is the double hash of its header in memory |
| ProofOfWork.HeaderLayout | 22051141冯天祥/POW共识机制/main.h:12-20 | The hashed header is 80 bytes: version, previous hash at 4 to 36, Merkle root at 36 to 68, time, target and, last, the nonce, each number least significant byte first |
| ProofOfWork.Hstob | 22051141冯天祥/POW共识机制/util.c:3-36 | Reads a text, with or without 0x, into the bytes it decodes to and touches no others |
| ProofOfWork.Btohs | 22051141冯天祥/POW共识机制/util.c:38-50 | Writes two lower-case digits a byte, the last byte first, and a zero byte after the last digit; nothing behind it changes, and nothing at all for no bytes |
| ProofOfWork.TextAt | 22051141冯天祥/POW共识机制/util.c:38-50 | Byte k is printed as its high and its low digit, k bytes before the end |
| ProofOfWork.DecodeAt | 22051141冯天祥/POW共识机制/util.c:13-35 | Byte k is read from the two digits that end k bytes before the end, the first worth sixteen times as much |
| ProofOfWork.DigitsInOrder | 22051141冯天祥/POW共识机制/util.c:45-46 | Digits are printed and read by their place in 0 to 9, a to f |
| ProofOfWork.HexRoundTrip | 22051141冯天祥/POW共识机制/util.c:3-50 | Reading what was written gives every byte string back |
| ProofOfWork.TextRoundTrip | 22051141冯天祥/POW共识机制/util.c:3-50 | Writing what was read gives every lower-case text of whole bytes back |
| ProofOfWork.ReadRight | 22051141冯天祥/POW共识机制/util.c:21-31 | A text in either case is read as the bytes it stands for exactly when it has no capital B to F |
| ExecuteQueue.Buffer.AppendToExecuteQueue | 22051084王晓晖/共识算法/message/buffer.go:163-181 | The binary search and shift insert behind everything not above the new number, and the queue stays sorted |
| ExecuteQueue.Buffer.BatchExecute | 22051084王晓晖/共识算法/message/buffer.go:183-203 | Takes exactly the unbroken run of numbers after the last executed one off the head and returns its digests in order |
| ExecuteQueue.RunOrdered | 22051084王晓晖/共识算法/message/buffer.go:163-203 | With every number enqueued once and above the start, over every interleaving the queue ascends, executed numbers follow one another, and each commit is in exactly one of executed or queued |
| ExecuteQueue.OrderedExactly | 22051084王晓晖/共识算法/message/buffer.go:163-203 | That order holds throughout a run exactly when its numbers are so |
| ExecuteQueue.EnqueueKeeps | 22051084王晓晖/共识算法/message/buffer.go:163-181 | An insert keeps that order exactly when its number is above the start and was not enqueued before |
| ExecuteQueue.DrainsAll | 22051084王晓晖/共识算法/message/buffer.go:183-203 | After a drain the next number was never enqueued |
| ExecuteQueue.StuckForGood | 22051084王晓晖/共识算法/message/buffer.go:194-198 | One commit at or below the last executed number blocks execution for good |

## Left out

- SortedEntries.CheckHistory: which way the sort places ties is left open, so with ties the answer is exact for the entries it produced and bracketed for the operations.
- SortedEntries.MakeEntries: the library sort is an insertion sort here; only "sorted, same entries" is used of it. Client ids of entries, which serve visualization, are dropped.
- KvStore.Partition: the order of the parts (keys sorted as strings) is not stated; no result depends on it.
- KvStore.CheckOperations: checks the parts one after another and stops at the first failure; goroutines, the kill flag, the timeout and the partial linearizations of `checkParallel` are not modelled, and a history must not be empty because the program then never returns.
- Checker.CacheContains: a cached bitset is kept as its contents, since the program never changes the clone; buckets are keyed by the hash wrapped in a datatype.
- CompactedLog.InstallReplaces: which entries a snapshot stands for is a parameter; snapshot contents are opaque.
- CompactedPeer.Raft.Make: the encoding of the state is any codec that reads back what it wrote and is never empty.
- Persistence.Persister.SaveStateAndSnapshot: renames are atomic and disk operations reach the disk in order; reading and writing files does not fail.
- Pbft.Agreement: f is a parameter (the program fixes it at 1) and node ids are numbers; message buffers and the routing by stage are covered by letting any vote arrive at any time once a node has a state.
- ProofOfWork.Btohs: the caller leaves room for the digits and the zero byte; `mine` does not (main.c:82 and main.c:93), and what its write behind the buffer does is not modelled.
- ProofOfWork.Block.Search: the loop of `mine` has no bound of its own; `attempts` stands for the moment the other miner's block arrives, which is then accepted as it is. The three bytes in front of the target in memory are part of no variable.
- Sha256.Context.Update: pieces of 2^32 bytes or more, on which the program's counter wraps and the call never returns, are outside the contract.
- CompactedPeer.Raft.UpdateCommitIndex: takes the index in the middle of the sorted match indices as it comes; that it stands for a majority and lies in the log is not shown, the latter is what an event of a run must meet.
- Sha256Standard.Length64: the length is taken modulo 2^64 as the program does; the standard has no longer messages.
- Sequence numbers, terms and log indices are unbounded integers; only 32-bit nonces, the 32-bit counter over a piece's bytes, 32-bit hash words, 64-bit bitset words and the 64-bit message length wrap.
- Liveness, timers, randomness, RPC and HTTP transport, gob and JSON encodings, signatures and logging.
- Events.CheckEvents: a model without its own partition of events is checked as a whole, as `fillDefault` arranges; client ids of events are dropped.
- go-raft-lib's elections, reply handling and choice of the commit index, whose middle position is a majority only for odd cluster sizes; the quorum argument is made for the other Raft.
- PBFT's request queue, view changes, and the remaining buffers of buffer.go; the other Raft, Paxos and PBFT copies in the repository, some of whose vote handlers grant every vote.
