# Raft, a replicated key-value store, a linearizability checker and MapReduce, verified

A Dafny model of the MIT 6.824 laboratory code, with proofs of the properties that the code is there for.

`dafny verify dfyconfig.toml` checks the whole project.

**Raft** (`Raft*.dfy`). `RaftState` has one function for every critical section of `raft.go`; `RaftPeer` has the
object with its fields and loops, each method proved to do what the function says. `RaftCluster` puts any number of
peers on a network that loses, delays, repeats and reorders messages, with crashes, between handlers and between the
two saves of one, that lose all but the disk. The safety proof (`RaftHistory`, `RaftEvolve`, `RaftActions`,
`RaftReplication`, `RaftSafety`) accompanies a run with a history of reigns, ballots, votes and confirmations, and
calls an entry dead once enough servers have moved past it: every leader carries every entry that is not dead.
`RaftTheorems`, `RaftBackUp`, `RaftRetry`, `RaftStale` and `RaftLoops` draw the conclusions for runs without
compaction (`RaftStaleRun` is one such run), `RaftEveryRun`, `RaftCompaction`, `RaftOrigins` and `RaftHandlers` those
that hold with compaction too. `RaftDeliveries` follows what each incarnation hands to its service, and joins it to
the key-value server: the replicas are copies of one state machine. `RaftElections`, `RaftCommit` and `RaftProgress`
are about progress: who gets a vote, what a majority has confirmed is committed, and from every state of every run any
majority can elect a leader and have a new command handed to all its members.

**The linearizability checker** (`Histories`, `SearchTree`, `LinkedEntries`, `Threads`, `Words`, `Bitset`,
`ConfigCache`, `Checker`, `Timeline`, `Events`, `KvLocality`, `CheckHistory`, `TiedTimes`). `Histories` says what
linearizable means, by orders of the operations. `SearchTree` is the reasoning of the search on sets and states.
`LinkedEntries` and `Threads` are the doubly linked list on the heap from which calls and returns are taken out and
put back in last-in, first-out order. `Words`, `Bitset` and `ConfigCache` are the packed bitset, with its bit-parallel
count, and the hash-bucketed cache on it. `Checker.CheckSingle` joins them: it is sound, complete and it terminates.
`Timeline` sorts raw times, where ties leave the outcome open, and says exactly which answers they allow. `KvLocality`
shows that splitting a history by keys loses nothing, and `CheckHistory` is the entry points from raw histories to a
verdict.

**The key-value service** (`KvState`, `KvSnapshots`, `KvMerge`, `KvExactlyOnce`, `KvClerks`, `KvServer`,
`KvHistories`, `KvLinearizable`). The server is a fold over the log with a filter of repeated writes. Snapshots carry
more recent data than their label says; the filter makes that harmless, except where an older snapshot is merged that
neither has all keys and clients of the maps nor leaves them as they are, which `KvMerge.HarmlessExactly` and
`KvServer.TakeExactly` pin down. Exactly-once is proved to hold if and only if the numbers of first appearances rise,
and for runs of clerks if and only if no write that was given up arrives late. `KvHistories` turns a log into what
clients see of it, and `KvLinearizable` puts clerks, servers and the cluster together: the store is linearizable, and
passes the checker.

**MapReduce** (`MapReduce`). The hashed buckets of the workers against the sort-and-scan of the sequential program.

## Modelling decisions

- The Go code gives up and retakes `rf.mu` inside Start, starting an election, handling a vote reply and handling an
  append reply. Each of these is one atomic step here.
- nVotes and nReplica are counted as sets of the peers whose goroutine has counted (one more than the size of the
  set).
- A Go access that would be out of range is a step that cannot be taken; `RaftTheorems.NoAccessOutOfRange` shows that
  there is none in runs without compaction.
- The comment on `node.match` has calls and returns the wrong way round (`linearizability.go:53`); the model follows
  the code, in which a call has a match and a return has none.
- One turn of the loop of `checkSingle` is spread over the methods TryCall, StepInto, Push, Pop, Probe, Record and
  Unmark of `Checker`. `lift` and `unlift` are two uses each of Unlink and Relink, of which the test for a last node
  is vacuous for a call.
- Histories are complete: every call has one return. `Equal` is equality of states. `kill` stays 0: it is set only
  when the verdict is already false.
- `sort.Sort` promises nothing for equal keys, so only sortedness and permutation are used of the sorts here.
  `CanAnswer` collects the answers that all such sorts can lead to; whatever `CheckOperations` returns is one of them.
- Decoding a snapshot into maps that are not nil adds its entries to them (encoding/gob), so
  `KVServer.UpdateFromSnapshot` merges. A server restored from a snapshot whose data ran ahead of its label can later
  be handed an older one by a leader; then the merge can bring back old values under newer filter entries and a write
  is lost, as `KvServer.OlderSnapshotLosesWrite` shows. The runs of `KvServer` allow that. A server could tell before
  merging: `KvServer.TakeExactly` shows that a snapshot is safe for every log that can have led to the maps and to it
  exactly when it has every key and client of the maps, as every snapshot at least as recent does, or changes nothing
  in them. The logs here may hold commands of any type and number.
- `RaftDeliveries.Codec` stands for the type assertion on a command and the decoding of a snapshot.
- Go strings are sequences of bytes in `MapReduce`, where they are hashed and compared, and Dafny strings elsewhere.
- In `KvLinearizable` an operation is called and returns at moments of a run. A write is answered when the filter of a
  server knows its number, as it does when the server was notified (`NotifiedIsKnown`); a get when a server has been
  handed its command, with what the maps of that server hold at that moment, which may be later commands than the get.
  Each get has a command of its own, because each has a channel of its own. A clerk goes on when its write is
  answered; what happens when it gives up instead is the subject of `KvClerks`.
- MsgId and the indices are unbounded integers; the words of the bitset and the hashes are 64-bit and 32-bit vectors.

## Model

| member | source | states |
|---|---|---|
| RaftTheorems.StateMachineSafety | 6.824/src/raft/raft.go:638-670 | In every run without compaction, with loss, delay, duplication, reordering and restarts, no two servers ever hand different commands to their services for one index |
| RaftTheorems.LeaderCompleteness | 6.824/src/raft/raft.go:615-632 | Whatever any server has committed at some moment of a run is in the log of every leader of a later term, at whatever moment it leads |
| RaftTheorems.LogMatching | 6.824/src/raft/raft.go:370-404 | Two logs, of any servers at any two moments of a run, that have one term at an index are equal up to that index |
| RaftTheorems.CommitWitness | 6.824/src/raft/raft.go:622-631 | Behind every committed index stands an entry of some term that a majority confirmed to the leader of that term, and whose log the committed prefix is part of |
| RaftTheorems.DeliveredGrows | 6.824/src/raft/raft.go:638-670 | What was delivered stays delivered: no later step takes back a delivery |
| RaftTheorems.CommitIndexMonotone | 6.824/src/raft/raft.go:405-413 | No step of a run but a crash of that server lowers a commit index, and it always points into the log |
| RaftTheorems.StaleAppendHarmless | 6.824/src/raft/raft.go:382-404 | Receiving any request ever sent in the term of a leader in office, however old, removes no entry that the receiver shares with that leader |
| RaftTheorems.NoAccessOutOfRange | 6.824/src/raft/raft.go:92-112 | In every state of a run every log access of apply, of building a request and of backing up is in range, so no server dies of one |
| RaftTheorems.SameSize | 6.824/src/raft/raft.go:924-968 | The number of servers never changes in a run |
| RaftSafety.HistoryOf | 6.824/src/raft/raft.go:256-445 | Every run without compaction is accompanied by a growing history of reigns, ballots, votes and confirmations that satisfies the whole safety invariant in every state |
| RaftSafety.StepKeepsInv | 6.824/src/raft/raft.go:256-670 | Every step of every server keeps the safety invariant |
| RaftSafety.VoteRequestStep | 6.824/src/raft/raft.go:256-289 | Answering a vote request keeps the invariant |
| RaftSafety.VoteAnswerStep | 6.824/src/raft/raft.go:782-816 | Counting a vote, and winning by it, keeps the invariant |
| RaftSafety.ClientStep | 6.824/src/raft/raft.go:686-711 | Appending a client command and starting its broadcast keeps the invariant |
| RaftSafety.BeatStep | 6.824/src/raft/raft.go:840-850 | Starting a heartbeat broadcast keeps the invariant |
| RaftSafety.SendStep | 6.824/src/raft/raft.go:519-553 | Building and sending one request of a broadcast keeps the invariant, with every access in range |
| RaftSafety.AppendRequestStep | 6.824/src/raft/raft.go:348-445 | Handling an AppendEntries request, of any age, keeps the invariant |
| RaftSafety.AppendAnswerStep | 6.824/src/raft/raft.go:567-632 | Handling an AppendEntries reply, of any age, keeps the invariant |
| RaftSafety.MajorityCommits | 6.824/src/raft/raft.go:621-631 | A broadcast confirmed by a majority for an entry of the current term makes that entry chosen |
| RaftSafety.RestartStep | 6.824/src/raft/raft.go:924-968 | Losing everything but the disk keeps the invariant |
| RaftSafety.CrashStep | 6.824/src/raft/raft.go:262-266 | So does a crash between the two saves of a vote or append request, which leaves the new term on the disk and nothing else of the request |
| RaftSafety.DeliverStep | 6.824/src/raft/raft.go:638-670 | Delivering up to the commit index keeps the invariant: only final entries are handed out |
| RaftActions.TermIsOpen | 6.824/src/raft/raft.go:800-816 | A candidate backed by a majority stands in a term that has had no leader |
| RaftActions.UpToDateCarries | 6.824/src/raft/raft.go:269-284 | A log at least as up to date as a ballot carries every entry that the ballot carries and that can still be committed |
| RaftActions.NewReignCarries | 6.824/src/raft/raft.go:800-816 | A new leader carries every entry of an earlier term that can still be committed |
| RaftReplication.BackedLogsMatch | 6.824/src/raft/raft.go:370-404 | Logs whose entries come from leaders and that agree on a term at an index agree up to it |
| RaftReplication.ReignsCarryChosen | 6.824/src/raft/raft.go:615-632 | What was chosen in a term is in the log of every leader from that term on |
| RaftReplication.SpliceFollowsLeader | 6.824/src/raft/raft.go:382-404 | After accepting a request a follower has the log of the sender up to the last entry of the request |
| RaftReplication.SpliceKeepsShared | 6.824/src/raft/raft.go:382-404 | Accepting a request removes no entry shared with the sender |
| RaftReplication.CommittedIsKept | 6.824/src/raft/raft.go:382-413 | Accepting a request leaves the committed prefix of the follower as it was |
| RaftReplication.CommitAfterAccept | 6.824/src/raft/raft.go:405-413 | The commit index taken over from a request points at entries that the sender had committed |
| RaftBackUp.RefusalLowersNextIndex | 6.824/src/raft/raft.go:453-491 | In every run a refusal of the leader's own term, however late it is handled, gives a lower index than that of the request it refuses |
| RaftBackUp.RefusalKeepsAgreement | 6.824/src/raft/raft.go:420-440 | In every run, when a follower refuses at one moment and the leader in office handles the reply at any later one with the log it has by then, the next index is no lower than any index on which both agree |
| RaftBackUp.BackUpRetreats | 6.824/src/raft/raft.go:453-491 | getNextIndex returns a smaller index whenever the conflict lies below it and names another term |
| RaftBackUp.BackUpKeepsAgreement | 6.824/src/raft/raft.go:453-491 | getNextIndex returns no lower index than any on which both logs agree |
| RaftBackUp.SearchDownFinds | 6.824/src/raft/raft.go:465-472 | The downward scan stops at the last entry of the conflicting term, or at the bottom |
| RaftBackUp.SearchUpFinds | 6.824/src/raft/raft.go:473-481 | The upward scan stops at the end of the run of the conflicting term |
| RaftBackUp.RunStartFinds | 6.824/src/raft/raft.go:429-439 | A refusal names the first index of its conflicting term |
| RaftRetry.RetryEnds | 6.824/src/raft/raft.go:519-632 | From every state of every run without compaction the retry loop of a broadcast with one follower (send, answer, handle the answer, again) ends after at most as many refusals as the next index it starts from; then the follower has the log of the leader up to the entry of the broadcast, or it was in a later term and the leader has stepped down to that term |
| RaftRetry.RoundKeepsInv | 6.824/src/raft/raft.go:519-632 | Every round of the loop can be made, with all its accesses in range, and keeps the invariant |
| RaftRetry.RefusedRound | 6.824/src/raft/raft.go:602-607 | A refused round strictly lowers the shared next index, changes nothing else of the leader, and leaves the follower in its term |
| RaftRetry.AcceptedRound | 6.824/src/raft/raft.go:382-419 | An accepted round leaves the follower with the log of the leader up to the entry of the broadcast |
| RaftStale.GuardedRefusalLowers | 6.824/src/raft/raft.go:602-607 | In every state of every run, handling a refusal of the leader's own term strictly lowers the shared next index when that is at least the index of the refused request |
| RaftStale.LowersExactly | 6.824/src/raft/raft.go:453-491 | Over all followers that can refuse a given request, handling the refusal strictly lowers the shared next index if and only if that is at least the index of the request, or the request is aimed at the bottom of the log, which nobody refuses; in term 1, where only too short followers refuse, one less suffices |
| RaftStale.RunRequests | 6.824/src/raft/raft.go:527-553 | In every run, whatever a leader in office has sent in its term is a request to which that applies |
| RaftStaleRun.StaleRefusalRaises | 6.824/src/raft/raft.go:602-607 | A state that three servers reach in which a leader in office handles a late refusal of its own term and the shared next index goes up, from 1 to 2 |
| RaftLoops.LoopsEnd | 6.824/src/raft/raft.go:516-634 | In every run without compaction, as long as a leader with at most n entries stays in office, the retry loops of k broadcasts with one follower handle together at most (k + 1) to the power n + 2 refusals and k successes, and send at most k requests more than they handle refusals, whatever other steps of the cluster are interleaved and however late the answers come |
| RaftLoops.StepSpends | 6.824/src/raft/raft.go:516-634 | Every step of the cluster leaves the potential of the loops or lowers it, strictly so when a refusal is handled, also one that raises the next index |
| RaftLoops.RefusalSpends | 6.824/src/raft/raft.go:602-607 | The loop that is refused sheds more weight than all loops together can take on from the new next index |
| RaftLoops.OthersKeepNext | 6.824/src/raft/raft.go:516-634 | While the leader stays in office only the answers of a follower touch its next index |
| RaftElections.VoteGranted | 6.824/src/raft/raft.go:256-289 | In every run a peer that receives a ballot grants it exactly when its term is earlier, or is that of the ballot with no vote or one for that candidate, and its own log ends in an earlier term than the log with which the candidate stood, or in the same and no later; so in an earlier term it grants whenever its log is a prefix of that one |
| RaftElections.VotesExactly | 6.824/src/raft/raft.go:256-289 | The same for any peer and ballot, with the vote and the term that it is left with |
| RaftElections.ElectionSucceeds | 6.824/src/raft/raft.go:748-823 | From every state of every run a server whose log is at least as new as those of others that make a majority with it, and whose term is at least theirs, takes office in the next term by its election, their votes and nothing else; logs stay as they are and the voters are in its term |
| RaftElections.GathersVotes | 6.824/src/raft/raft.go:782-816 | A campaign collects every vote that it asks for, and the candidate leads from the vote on that makes the majority |
| RaftElections.AloneNeverLeads | 6.824/src/raft/raft.go:782-816 | In a cluster of one server, which only the answers of others could make leader, nobody ever leads and nothing is ever delivered |
| RaftCommit.MajorityIsCommitted | 6.824/src/raft/raft.go:567-632 | In every run, when a leader that has stayed in office has handled successes for one of its broadcasts from peers that make a majority with it, and the entry of the broadcast is of its own term, its commit index is at least that of the entry |
| RaftCommit.RunCommits | 6.824/src/raft/raft.go:614-632 | In every state of every run every broadcast that a majority has confirmed to a leader is agreed on, and committed if its entry is of the own term |
| RaftCommit.ConfirmersAcked | 6.824/src/raft/raft.go:614-632 | While a leader stays in office no success that it has handled for a broadcast is forgotten |
| RaftProgress.MajorityNeverStuck | 6.824/src/raft/raft.go:256-823 | From every state of every run without compaction, whatever was lost, delayed or crashed before, any majority of at least two servers can go on by itself: one of them is elected, takes a new command, and all of them are handed it, at one index |
| RaftProgress.CommitsAndDelivers | 6.824/src/raft/raft.go:516-670 | From every state of every run in which a leader has broadcast an entry of its own term, and a majority is in no later term, its exchanges with that majority commit the entry, and it hands the command out |
| RaftProgress.EntryCommits | 6.824/src/raft/raft.go:516-634 | The first half: the exchanges with the majority commit the entry and leave the leader in office with its log |
| RaftProgress.Exchanges | 6.824/src/raft/raft.go:516-634 | From every state of every run an exchange with a peer in no later term ends in success: the peer has the log of the leader up to the entry of the broadcast and at least the commit index that the broadcast carries, the leader is in office with its log and its confirmations, and nobody else has moved |
| RaftProgress.FollowerLearns | 6.824/src/raft/raft.go:516-670 | From every state of every run one heartbeat and its exchange bring a follower in no later term to hand out everything that the leader has committed |
| RaftProgress.CommandGetsThrough | 6.824/src/raft/raft.go:516-711 | From every state with a leader and a majority in no later term, a command given to Start is handed out by the leader and by that majority at the index that Start returns |
| RaftProgress.OwnLogDelivered | 6.824/src/raft/raft.go:638-670 | In every run each server has handed out, at every index up to its lastApplied, the command that its own log has there |
| RaftProgress.DeliverCatchesUp | 6.824/src/raft/raft.go:638-670 | In every run without compaction lastApplied equals the commit index after each turn of the apply loop |
| RaftProgress.ApplyCatchesUp | 6.824/src/raft/raft.go:638-670 | With compaction too, nothing that is committed or covered by the snapshot is left over, and nothing else changes |
| RaftOrigins.HandedIsGenuine | 6.824/src/raft/raft.go:686-711 | In every run, with compaction and crashes, every command that any incarnation of any server is handed was given to Start before; without compaction every message is such a command |
| RaftOrigins.RunIsMade | 6.824/src/raft/raft.go:686-711 | In every run every command in a log or in a request was given to Start before |
| RaftCompaction.HandedWasSaved | 6.824/src/raft/raft.go:869-911 | In every run with compaction every snapshot that any incarnation of any server is handed, on restart or when it has fallen behind, carries the bytes that some SaveSnapshot of the run saved at that index, on a server that had applied it, with the term of the entry there |
| RaftCompaction.RunIsTraced | 6.824/src/raft/raft.go:869-911 | The same for every snapshot that a server has or a request carries, at every moment of every run |
| RaftCompaction.SavingKeeps | 6.824/src/raft/raft.go:869-885 | Saving at a newer index leaves the bytes and the term of that entry in memory and on the disk, the end of the log and every entry from the index on; at any other it changes nothing |
| RaftCompaction.AdoptingKeeps | 6.824/src/raft/raft.go:887-911 | A newer snapshot that the log reaches keeps the end of the log and every entry from its index on; one beyond the log replaces it; an older one changes nothing |
| RaftHandlers.RepliesCarryTerm | 6.824/src/raft/raft.go:256-445 | Every vote or append request of a later term moves its receiver on to that term as a follower, and every reply carries the term that the receiver is then in |
| RaftHandlers.StaleCandidateFallsBack | 6.824/src/raft/raft.go:782-797 | A candidate whose ballot reaches a peer of a later term gets no vote and falls back to that term |
| RaftHandlers.OldVotesDropped | 6.824/src/raft/raft.go:782-788 | Answers to ballots of other terms than the current one change nothing |
| RaftHandlers.SavedComesBack | 6.824/src/raft/raft.go:150-223 | A peer that starts on what was saved has its term, vote, log, snapshot and commit index, and has applied what the snapshot covers |
| RaftHandlers.FirstRequest | 6.824/src/raft/raft.go:800-816 | The first request of a new leader asks about the last entry of its log, and carries nothing for a heartbeat and exactly the new entry for a command, with compaction too |
| RaftHandlers.RequestByIndex | 6.824/src/raft/raft.go:527-553 | A request asks about the entry before the next index and carries, by index, all entries from there to that of the broadcast that the log still has |
| RaftHandlers.NothingResent | 6.824/src/raft/raft.go:614-620 | After a success the broadcast has nothing left to send to that peer, whose next and match index it has raised, and no other |
| RaftHandlers.AcceptedByIndex | 6.824/src/raft/raft.go:382-414 | With compaction too, accepting a request whose entries follow on the previous one leaves entries of their terms at their indices, everything up to the previous one, and a log that reaches at least as far |
| RaftHandlers.AcceptedAcrossGap | 6.824/src/raft/raft.go:382-414 | Entries that begin at the snapshot of the sender, beyond a gap, replace the log, unless the terms at the positions after the previous entry are the same |
| RaftHandlers.InsideSnapshotAccepted | 6.824/src/raft/raft.go:368-380 | A request that asks about an entry inside the snapshot of the receiver is accepted |
| RaftHandlers.CommitWithinRequest | 6.824/src/raft/raft.go:405-413 | The commit index follows that of the leader but not beyond the entries of the request |
| RaftHandlers.RefusalByIndex | 6.824/src/raft/raft.go:420-440 | A refusal names the first index above the snapshot of the run of terms in the way, or the end of a log that is too short |
| RaftHandlers.BackUpByIndex | 6.824/src/raft/raft.go:453-491 | The index to retry at, with compaction too: the conflicting index, or right after the own run of the term of the follower that is found from there on down |
| RaftDeliveries.HandedInOrder | 6.824/src/raft/raft.go:638-670 | In every run, with compaction and crashes, what one incarnation hands to its service are the commands 1, 2, 3, and so on up to its lastApplied, in order and without a gap, except that a snapshot takes the place of a stretch |
| RaftDeliveries.OneLog | 6.824/src/raft/raft.go:638-670 | In every run without compaction there is one log of commands, and what any incarnation of any server has been handed at any moment is exactly its beginning up to the lastApplied of that server |
| RaftDeliveries.HandedIsDelivered | 6.824/src/raft/raft.go:638-670 | What an incarnation was handed is among the deliveries to which State Machine Safety applies |
| RaftDeliveries.RunHasTrace | 6.824/src/raft/raft.go:924-968 | Every run can be told with its steps, so what is shown of runs with steps is shown of all |
| RaftDeliveries.ReplicaIsState | 6.824/src/kvraft/server.go:63-112 | The key-value server on such a run is at every moment in the state of that one log up to its lastApplied |
| RaftDeliveries.ReplicasAgree | 6.824/src/kvraft/server.go:63-112 | Two key-value servers that have been handed equally many commands, at any moments and after any crashes, have equal maps |
| RaftEveryRun.ElectionSafety | 6.824/src/raft/raft.go:748-823 | In every run, with compaction and restarts, two leaders of one term are one server |
| RaftEveryRun.TermAndVoteKept | 6.824/src/raft/raft.go:256-289 | Through any steps and restarts terms never fall, and a vote once given in a term stays |
| RaftEveryRun.RestartRestores | 6.824/src/raft/raft.go:180-223 | A restart in any state of any run brings back exactly the term, vote, log and snapshot in force |
| RaftEveryRun.LogWindow | 6.824/src/raft/raft.go:887-911 | In every state of every run, with compaction, each log is the unbroken run of indices from its snapshot on |
| RaftEveryRun.AppendEntriesKeepsWindow | 6.824/src/raft/raft.go:348-445 | Handling any well-formed request, with entries beyond a gap and a snapshot to fill it, leaves an unbroken log |
| RaftEveryRun.AcceptKeepsWindow | 6.824/src/raft/raft.go:368-414 | The same for an accepted request, whose log is broken until the snapshot has been adopted |
| RaftEveryRun.AdoptFromGap | 6.824/src/raft/raft.go:887-911 | A log that breaks off and goes on at the snapshot index is cut to the part from there |
| RaftEveryRun.AdoptFromUnbroken | 6.824/src/raft/raft.go:887-911 | Adopting a snapshot leaves an unbroken log, from its index on when it is newer |
| RaftEveryRun.RunIsSound | 6.824/src/raft/raft.go:150-223 | In every state of every run the disk of every server holds the term, vote, log and snapshot that its memory holds, and a commit index that is no later |
| RaftEveryRun.RunIsPolled | 6.824/src/raft/raft.go:256-289 | Every run has a growing record of votes in which each server backs one candidate a term and every leader has a majority |
| RaftPeer.Persister.SaveStateAndSnapshot | 6.824/src/raft/persister.go:53-58 | State and snapshot are replaced together |
| RaftPeer.Persister.Copy | 6.824/src/raft/persister.go:24-31 | The copy is a new object with the same contents |
| RaftPeer.Persister.constructor | 6.824/src/raft/persister.go:20-22 | A new persister is empty |
| RaftPeer.Raft.constructor | 6.824/src/raft/raft.go:924-968 | A new peer is what Make reads back from the persister, and the service is first handed the snapshot read back, when there is one |
| RaftPeer.Raft.ReadPersist | 6.824/src/raft/raft.go:180-223 | The fresh peer takes over what its disk holds, and the service is handed the snapshot when there is one |
| RaftPeer.Raft.Persist | 6.824/src/raft/raft.go:150-175 | The disk holds term, vote, log, snapshot and commit index, and the service is notified exactly when nothing beyond the snapshot was applied |
| RaftPeer.Raft.GetLogByIndex | 6.824/src/raft/raft.go:92-112 | The entry with this index, from the log or from the snapshot |
| RaftPeer.Raft.GetLastLog | 6.824/src/raft/raft.go:114-124 | The last entry, or the snapshot when the log is empty |
| RaftPeer.Raft.RequestVote | 6.824/src/raft/raft.go:256-289 | The new state and the reply are those of the vote rule, which RaftElections.VotesExactly spells out |
| RaftPeer.Raft.StartOneElection | 6.824/src/raft/raft.go:748-776 | The new state and the ballot are those of starting an election |
| RaftPeer.Raft.HandleVoteReply | 6.824/src/raft/raft.go:782-816 | The new state is that of counting the vote, stepping down or taking office |
| RaftPeer.Raft.TakeOffice | 6.824/src/raft/raft.go:800-816 | The new state is that of a leader with all indices reset, persisted |
| RaftPeer.Raft.ResetPeerIndices | 6.824/src/raft/raft.go:807-810 | All next and match indices are set |
| RaftPeer.Raft.Start | 6.824/src/raft/raft.go:686-711 | A leader appends, persists and broadcasts; anyone else does nothing; the returned index and term are those of the entry |
| RaftPeer.Raft.BroadcastHeartBeat | 6.824/src/raft/raft.go:840-850 | A leader opens a broadcast at its last index |
| RaftPeer.Raft.SendAppendEntries | 6.824/src/raft/raft.go:496-553 | The request built for one peer is the slice of the log from its next index, with the snapshot |
| RaftPeer.Raft.GetNextIndex | 6.824/src/raft/raft.go:453-491 | The two scans compute the specified back-up index |
| RaftPeer.Raft.HandleAppendReply | 6.824/src/raft/raft.go:567-632 | The new state is that of counting the success, committing, backing up or stepping down; RaftCommit.MajorityIsCommitted and RaftHandlers.NothingResent say what the counting comes to |
| RaftPeer.Raft.AppendEntries | 6.824/src/raft/raft.go:348-445 | The new state and the reply are those of accepting, refusing or ignoring the request |
| RaftPeer.Raft.ClipArgs | 6.824/src/raft/raft.go:368-380 | A request that reaches below the snapshot is moved up to it |
| RaftPeer.Raft.HasEntries | 6.824/src/raft/raft.go:385-394 | The scan answers whether the log has all entries of the request |
| RaftPeer.Raft.CopyEntries | 6.824/src/raft/raft.go:385-404 | The log is cut after the previous index and the entries appended |
| RaftPeer.Raft.TakeEntries | 6.824/src/raft/raft.go:382-419 | The new state is that of accepting the request |
| RaftPeer.Raft.CommitUpTo | 6.824/src/raft/raft.go:405-413 | The commit index follows that of the leader up to the last entry of the request |
| RaftPeer.Raft.Refuse | 6.824/src/raft/raft.go:420-440 | The reply names the conflicting term and the first index of it |
| RaftPeer.Raft.UpdateSnapshot | 6.824/src/raft/raft.go:887-911 | The new state is that of adopting the snapshot, as RaftCompaction.AdoptingKeeps spells out by index |
| RaftPeer.Raft.Apply | 6.824/src/raft/raft.go:638-670 | The messages handed out are the snapshot when behind it, and then the commands up to the commit index |
| RaftPeer.Raft.ApplyCommands | 6.824/src/raft/raft.go:656-669 | The commands from the last applied to the commit index are handed out in order |
| RaftPeer.Raft.SaveSnapshot | 6.824/src/raft/raft.go:869-885 | The log is cut at the snapshot index and the snapshot persisted, as RaftCompaction.SavingKeeps spells out by index |
| RaftPeer.Raft.FallBack | 6.824/src/raft/raft.go:262-266 | A higher term makes the peer a follower without a vote |
| Checker.CheckSingle | 6.824/src/linearizability/linearizability.go:167-214 | For every model and every list of entries that has one call and one return of each operation, in any order, the search ends, dereferences no null node, and answers true exactly when every call stands before its return and some order of the operations respects real time and is accepted by the model |
| Checker.TryCall | 6.824/src/linearizability/linearizability.go:180-199 | One turn at a call keeps the search invariant, and either sees a configuration for the first time or moves on in the list |
| Checker.StepInto | 6.824/src/linearizability/linearizability.go:187-193 | A configuration that was not seen is recorded and stepped into |
| Checker.Push | 6.824/src/linearizability/linearizability.go:189-193 | A step forward leaves the list without the operation and the whole path able to be undone |
| Checker.Pop | 6.824/src/linearizability/linearizability.go:204-210 | A step back restores the list as it was before the last step, one place further on |
| Checker.Probe | 6.824/src/linearizability/linearizability.go:184-186 | The configuration after the candidate is found cached exactly when it was seen before |
| Checker.Record | 6.824/src/linearizability/linearizability.go:187-191 | The new configuration is cached under its hash and the operation marked, and no cached bitset changes |
| Checker.Unmark | 6.824/src/linearizability/linearizability.go:207-207 | The operation is unmarked, and no cached bitset changes |
| Checker.SomethingLeft | 6.824/src/linearizability/linearizability.go:176-181 | While the list is not empty the search stands at a node |
| Checker.NothingLeft | 6.824/src/linearizability/linearizability.go:213-213 | An empty list means a linearizable history |
| Checker.EntryAt | 6.824/src/linearizability/linearizability.go:180-182 | A live node with a match is a call whose match is its own later return; one without stands at a return, or after the return of its own operation |
| Checker.PassOver | 6.824/src/linearizability/linearizability.go:194-199 | Passing over a candidate that leads nowhere keeps the record of what was tried |
| Checker.ReturnIsDeadEnd | 6.824/src/linearizability/linearizability.go:200-203 | Where the search meets a return the present configuration cannot be completed |
| SearchTree.DeadEnd | 6.824/src/linearizability/linearizability.go:200-203 | When everything before a return has been tried, no order completes the configuration |
| SearchTree.CandidateIsMinimal | 6.824/src/linearizability/linearizability.go:180-182 | A call that the search reaches had no operation return before it among those left |
| SearchTree.SeenFails | 6.824/src/linearizability/linearizability.go:186-195 | A cached configuration one step longer than the path has no completion: it cannot be on the stack |
| SearchTree.SettledLess | 6.824/src/linearizability/linearizability.go:204-210 | After stepping back every cached configuration is still on the stack or without completion |
| SearchTree.SettledOn | 6.824/src/linearizability/linearizability.go:188-191 | After stepping forward every cached configuration is on the stack or without completion |
| SearchTree.WalkBack | 6.824/src/linearizability/linearizability.go:213-213 | If the present configuration can be completed, so can the empty one |
| SearchTree.WalkReaches | 6.824/src/linearizability/linearizability.go:176-212 | Every configuration of the search lies in a finite set fixed by the history |
| Histories.LinearizableStepwise | 6.824/src/linearizability/model.go:23-39 | Some order explains the history exactly when it can be taken one minimal operation at a time |
| Histories.OrderCompletes | 6.824/src/linearizability/model.go:30-39 | Every explaining order can be taken step by step |
| Histories.CompletesInOrder | 6.824/src/linearizability/model.go:30-39 | Every completion step by step gives an explaining order |
| LinkedEntries.Lift | 6.824/src/linearizability/linearizability.go:147-155 | Call and return leave the list, all other nodes stay linked in order, and both remember their places; also when they are neighbours or the return is last |
| LinkedEntries.Unlift | 6.824/src/linearizability/linearizability.go:157-165 | The list is again exactly what it was before the lift |
| LinkedEntries.InsertBefore | 6.824/src/linearizability/linearizability.go:59-70 | The node stands in the list before the mark |
| LinkedEntries.Length | 6.824/src/linearizability/linearizability.go:72-79 | The number of nodes |
| LinkedEntries.MakeLinkedEntries | 6.824/src/linearizability/linearizability.go:109-126 | A doubly linked list of new nodes, one for every entry in order, each call matched with the first return after it that has its id |
| Threads.TakeOut | 6.824/src/linearizability/linearizability.go:189-193 | The list is the original without the operations of the longer path, and each of them can be put back |
| Threads.PutBack | 6.824/src/linearizability/linearizability.go:205-210 | The list is the original without the operations of the shorter path |
| Threads.MateIsReturn | 6.824/src/linearizability/linearizability.go:109-126 | The match of a call is its own return exactly when that comes later |
| Threads.LiveWithout | 6.824/src/linearizability/linearizability.go:147-155 | Taking an operation out of the live places removes exactly its two |
| Threads.AfterInList | 6.824/src/linearizability/linearizability.go:196-199 | The next node is the next live place, with nothing live between |
| ConfigCache.CacheContains | 6.824/src/linearizability/linearizability.go:133-140 | The answer is whether the configuration, a set of operations and a state, is among those stored |
| ConfigCache.RemembersOneMore | 6.824/src/linearizability/linearizability.go:187-188 | Filing an entry under its hash adds its configuration and loses none |
| ConfigCache.InItsBucket | 6.824/src/linearizability/linearizability.go:133-140 | A stored configuration is in the one bucket that is searched for it |
| ConfigCache.SameConfigSameKey | 6.824/src/linearizability/bitset.go:56-62 | Equal configurations have equal hashes |
| Bitset.NewBitset | 6.824/src/linearizability/bitset.go:8-15 | An empty set with room for the bits, and less than one word to spare |
| Bitset.Clone | 6.824/src/linearizability/bitset.go:17-21 | A new array with the same words |
| Bitset.Set | 6.824/src/linearizability/bitset.go:27-31 | One member is added, in place |
| Bitset.Clear | 6.824/src/linearizability/bitset.go:33-37 | One member is removed, in place |
| Bitset.Get | 6.824/src/linearizability/bitset.go:39-42 | Membership |
| Bitset.Popcnt | 6.824/src/linearizability/bitset.go:44-54 | The bit-parallel count is the number of members |
| Bitset.Hash | 6.824/src/linearizability/bitset.go:56-62 | The hash is the count mixed with all words, as the specification folds them |
| Bitset.Equals | 6.824/src/linearizability/bitset.go:64-74 | Same length and same words, which for one length is having the same members |
| Bitset.EqualSetsHashEqually | 6.824/src/linearizability/bitset.go:56-62 | Bitsets of one length with equal members have one hash |
| Bitset.SameMembersSameWords | 6.824/src/linearizability/bitset.go:64-74 | Bitsets of one length with equal members have equal words |
| Bitset.CardinalityGrows | 6.824/src/linearizability/bitset.go:44-54 | One more word adds its number of bits to the number of members |
| Words.ParallelCountIsOnes | 6.824/src/linearizability/bitset.go:47-51 | For every word the masks, shifts and one multiplication give the number of its bits |
| Words.CountWord | 6.824/src/linearizability/bitset.go:46-52 | One turn of the loop adds the number of bits of the word |
| Words.WithBit | 6.824/src/linearizability/bitset.go:27-31 | Setting a bit changes that bit and no other |
| Words.WithoutBit | 6.824/src/linearizability/bitset.go:33-37 | Clearing a bit changes that bit and no other |
| Words.HasBit | 6.824/src/linearizability/bitset.go:39-42 | Testing against the shifted one looks at that bit |
| Words.ProductAddsUp | 6.824/src/linearizability/bitset.go:50-51 | The multiplication adds the bytes by pairs, quarters and halves with no carry between bytes |
| Timeline.MakeEntries | 6.824/src/linearizability/linearizability.go:37-49 | For every history, also with equal times and with operations that return before their call, the entries are its calls and returns in an order in which a sort by time may leave them |
| Timeline.SortByTime | 6.824/src/linearizability/linearizability.go:47-47 | The entries in order of time, the same ones; of equal times nothing is promised |
| Timeline.PossibleAnswers | 6.824/src/linearizability/linearizability.go:37-49 | Exactly when some order of equal times makes the search answer true (no operation returns before its call, and the history is linearizable with ties read as overlap) and exactly when some order makes it answer false (an operation returns no later than its call, or the history is not linearizable with ties read as order) |
| Timeline.RightExactly | 6.824/src/linearizability/linearizability.go:37-49 | The answer is right for every order in which a sort may leave equal times if and only if the history, when linearizable, has all operations return after their call and stays linearizable with every tie read as order |
| Timeline.NoTiesIsRight | 6.824/src/linearizability/linearizability.go:37-49 | In particular it is right, for every model, where every operation returns after its call and no return ties with another call |
| TiedTimes.TimesDecide | 6.824/src/linearizability/linearizability.go:37-49 | At given times the verdict, on one string and on the whole store, is right for all inputs and outputs and every sort if and only if no order at all respects the times, or every operation returns after its call and no return ties with the call of another |
| TiedTimes.TiesDecide | 6.824/src/linearizability/linearizability.go:31-33 | Where no operation returns before its call, it is right for all inputs and outputs if and only if every operation returns after its call and no return ties with the call of another |
| Timeline.BetweenReadings | 6.824/src/linearizability/linearizability.go:37-49 | Whatever order the sort leaves, the search decides something between the two readings of ties |
| Timeline.ReturnsFirst | 6.824/src/linearizability/linearizability.go:31-33 | A sort may leave every return before the calls of its time, and the search then reads ties as order |
| Timeline.CallsFirst | 6.824/src/linearizability/linearizability.go:31-33 | A sort may leave every call before the returns of its time, and the search then reads ties as overlap |
| Timeline.Relax | 6.824/src/linearizability/model.go:3-8 | Where fewer pairs are ordered, what was linearizable stays so |
| Events.Renumber | 6.824/src/linearizability/linearizability.go:81-95 | Ids are renamed one to one onto the numbers from 0 in the order of first appearance |
| Events.ConvertEntries | 6.824/src/linearizability/linearizability.go:97-107 | One entry for every event, with its value and id |
| Events.NumberedByCall | 6.824/src/linearizability/linearizability.go:81-95 | In a complete history the operation called k-th gets the number k |
| Events.RenumberedDescribes | 6.824/src/linearizability/linearizability.go:81-107 | Renumbered and converted, a complete history is what the search expects |
| KvLocality.Locality | 6.824/src/linearizability/models.go:17-48 | A history of the whole store is linearizable exactly when its part on every key is linearizable for one string |
| KvLocality.MergeKeys | 6.824/src/linearizability/models.go:17-28 | Orders of the single keys can be merged into one order of the store that respects real time |
| KvLocality.SplitByKey | 6.824/src/linearizability/models.go:17-28 | An order of the store gives an order of every key |
| KvLocality.StoreStepIsLocal | 6.824/src/linearizability/models.go:34-49 | A step of the store is the step of its key and leaves all other keys alone |
| KvLocality.SubHistoryCompletable | 6.824/src/linearizability/models.go:17-28 | The history of a key by itself is linearizable exactly when that part of the whole history can be completed |
| CheckHistory.CheckOperations | 6.824/src/linearizability/linearizability.go:235-270 | With the key-value model, for every history: the caller waits for ever exactly when it is empty, and otherwise gets a verdict that some order of equal times within the single keys leads to |
| CheckHistory.StoreAnswers | 6.824/src/linearizability/linearizability.go:235-270 | Exactly when that verdict can be true for a history of the whole store, and exactly when it can be false |
| CheckHistory.StoreRightExactly | 6.824/src/linearizability/linearizability.go:235-270 | The verdict on the store is right whatever the sorts do with equal times if and only if the history, when linearizable, has all operations return after their call and stays linearizable with every tie read as order |
| CheckHistory.CheckParts | 6.824/src/linearizability/linearizability.go:241-268 | Whatever the order of the results: without partitions the caller waits for ever; true means that every partition can be answered true, false that one can be answered false |
| CheckHistory.CheckPart | 6.824/src/linearizability/linearizability.go:241-246 | One partition gets an answer that some order of its equal times leads to |
| CheckHistory.CheckWhole | 6.824/src/linearizability/model.go:41-43 | Without a partition function the whole history gets such an answer |
| CheckHistory.CheckEvents | 6.824/src/linearizability/linearizability.go:278-313 | For every PartitionEvent function whose partitions are complete histories, these are decided exactly: true if and only if every one is linearizable; without partitions the caller waits for ever |
| CheckHistory.CheckEventPart | 6.824/src/linearizability/linearizability.go:284-290 | One complete history of events is decided exactly |
| CheckHistory.CheckKvEvents | 6.824/src/linearizability/models.go:15-50 | With the key-value model, which has no PartitionEvent, CheckEvents decides whether the history is one of a single string, whatever its keys |
| CheckHistory.EventsRightExactly | 6.824/src/linearizability/models.go:34-51 | That is the right verdict on the store for all complete histories on a given set of keys if and only if the set has at most one key |
| CheckHistory.OneKeyAlike | 6.824/src/linearizability/models.go:34-51 | A history on one key is linearizable for the store exactly when it is for one string |
| CheckHistory.EventsForgetKeys | 6.824/src/linearizability/models.go:34-51 | For any two keys a linearizable history is refused and one that is not linearizable is accepted |
| CheckHistory.Partition | 6.824/src/linearizability/models.go:17-28 | One partition for every key of the history, with its operations in order |
| CheckHistory.GroupByKey | 6.824/src/linearizability/models.go:18-22 | The map holds for every key its operations in order |
| CheckHistory.TiesMatter | 6.824/src/linearizability/linearizability.go:31-33 | A linearizable history with a tie on which both verdicts are possible |
| KvState.SnapshotReplay | 6.824/src/kvraft/server.go:173-201 | For every log, delivering from the label of a snapshot on over its more recent data leads to the state of delivering everything |
| KvState.SnapshotWaits | 6.824/src/kvraft/server.go:173-201 | Until the delivery passes the data of the snapshot nothing changes |
| KvState.FilterIsLargest | 6.824/src/kvraft/server.go:48-61 | The filter holds for every client the largest number in the log, and no client the log does not hold |
| KvState.Absorbs | 6.824/src/kvraft/server.go:80-101 | Commands that the log held already change nothing |
| KvSnapshots.InstallExactly | 6.824/src/kvraft/server.go:184-201 | For every state and every snapshot, merging the snapshot into the maps gives the snapshot if and only if it has every key and every client that the maps have |
| KvSnapshots.CoveringRestores | 6.824/src/kvraft/server.go:184-201 | Such a snapshot, of whatever age, restores correctly: delivering on from its label leads to the state of delivering everything |
| KvSnapshots.OlderMayCover | 6.824/src/kvraft/server.go:184-201 | A snapshot older than the state that restores correctly: age alone does not decide |
| KvSnapshots.RestoreExactly | 6.824/src/kvraft/server.go:184-201 | Without looking at the maps: a snapshot of j commands over a state of m restores correctly in every log if and only if it is at least as recent, or empty |
| KvSnapshots.InstallNewer | 6.824/src/kvraft/server.go:184-201 | Merging at least as recent data into the maps replaces them |
| KvSnapshots.OlderLosesWrite | 6.824/src/kvraft/server.go:184-201 | For every older snapshot there is a log in which the merge loses a committed append |
| KvSnapshots.KeysGrow | 6.824/src/kvraft/server.go:80-101 | No key and no client is ever forgotten along a log |
| KvMerge.HarmlessExactly | 6.824/src/kvraft/server.go:184-201 | For all states and snapshots that one log can have led to: merging leaves, in every log that has led to them, the state of a prefix with all of the snapshot, if and only if the snapshot has every key and client of the maps or changes nothing in them |
| KvMerge.FittingIsPrefix | 6.824/src/kvraft/server.go:184-201 | Merging such a snapshot leaves the state of a prefix that has all of it |
| KvMerge.ShowsHarm | 6.824/src/kvraft/server.go:184-201 | For any other state and snapshot of one log there is a log that has led to both and in which the merged maps are the state of no prefix with all of the snapshot |
| KvMerge.EqualIdsEqualStates | 6.824/src/kvraft/server.go:48-101 | Along one log, states with equal numbers of all clients are equal |
| KvMerge.IdsGrow | 6.824/src/kvraft/server.go:48-61 | Along a log no number of a client falls and no client is forgotten |
| KvExactlyOnce.ExactlyOnceIff | 6.824/src/kvraft/server.go:48-101 | Every write takes effect exactly at its first appearance in the log if and only if the numbers of first appearances rise for every client |
| KvExactlyOnce.AtMostOnce | 6.824/src/kvraft/server.go:48-61 | In any log at all no write takes effect twice |
| KvExactlyOnce.EffectiveIsNewest | 6.824/src/kvraft/server.go:48-61 | A write takes effect exactly when its number exceeds all its client had before |
| KvExactlyOnce.StorageIsPlain | 6.824/src/kvraft/server.go:80-101 | With rising numbers the values are those of the log without repetitions, written with no filter |
| KvExactlyOnce.LateIsLost | 6.824/src/kvraft/server.go:48-61 | In any log, a write that first appears after a later one of its client is lost: no copy of it takes effect anywhere |
| KvClerks.ClerksGetExactlyOnce | 6.824/src/kvraft/client.go:78-101 | In every run of any number of clerks, with any repetitions in the log and with clerks that give up after their last attempt and go on, every write in the log takes effect exactly once if and only if no write that was given up first shows up after a later one of its clerk; and then the values are those of the log without repetitions |
| KvClerks.GivingUpExactly | 6.824/src/kvraft/client.go:78-101 | All runs in which only clerks of a given set give up are exactly-once if and only if that set is empty |
| KvClerks.RunKeepsInv | 6.824/src/kvraft/client.go:78-101 | In every such run all but the last request of a clerk are in the log or given up, and only a request that was given up can be overtaken by a later one |
| KvClerks.AnsweredIsLogged | 6.824/src/kvraft/server.go:114-118 | An answer that the request is repeated proves it to be in the log |
| KvClerks.Clerk.PutAppend | 6.824/src/kvraft/client.go:78-101 | All attempts carry one command with the next number, to the servers in turn, until the first answer or 8000 attempts |
| KvClerks.Clerk.constructor | 6.824/src/kvraft/client.go:26-34 | A new clerk has used no number |
| KvClerks.NextServer | 6.824/src/kvraft/client.go:95-95 | The next server is the next modulo their number |
| KvServer.TakeExactly | 6.824/src/kvraft/server.go:184-201 | For all states and snapshots that one log can have led to: after every run in which the snapshots fitted, whatever the log, taking the snapshot leaves the state of a prefix at least as long as its label, if and only if the snapshot has every key and client of the maps or changes nothing in them |
| KvServer.ServerIsPrefix | 6.824/src/kvraft/server.go:63-201 | In every run of deliveries, finished requests, snapshots and restarts that Raft allows, as long as every snapshot that arrives has all keys and clients of the maps or changes nothing in them, the maps are the fold of some prefix of the log at least as long as what was delivered, and as the label |
| KvServer.MessagesArePrefix | 6.824/src/kvraft/server.go:63-112 | Whatever commands, snapshots and notices the loop is given, in whatever mix, as long as each command is the next of the log and each snapshot fits and lies beyond what was applied, the maps are the fold of some prefix of the log at least as long as the messages lead, and as the label under which they would be saved |
| KvServer.RunIsFed | 6.824/src/kvraft/server.go:63-78 | The maps of a server in any run are what the loop makes of the messages since its last start |
| KvServer.CaughtUpIsCovered | 6.824/src/kvraft/server.go:63-78 | A server that has only what was delivered to it is covered by every snapshot Raft may send |
| KvServer.OlderSnapshotLosesWrite | 6.824/src/kvraft/server.go:184-201 | A run that Raft allows, of two snapshots and a delivery, in which the second snapshot does not fit: all commands are delivered and an append is lost |
| KvServer.UncoveredMayFit | 6.824/src/kvraft/server.go:184-201 | Such a run in which the second snapshot lacks a key and a client of the server, changes nothing, and nothing is lost |
| KvServer.ServersAgree | 6.824/src/kvraft/server.go:63-201 | In such runs a server that was delivered the whole log has its state, the numbers of one of two servers are no lower than those of the other, and servers with equal numbers have equal maps |
| KvServer.KVServer.IsRepeated | 6.824/src/kvraft/server.go:48-61 | The answer of the filter, and its update when asked for |
| KvServer.KVServer.Apply | 6.824/src/kvraft/server.go:80-112 | The maps change as one command of the fold changes them: what clients see of that is KvHistories.LogIsAccepted |
| KvServer.KVServer.Receive | 6.824/src/kvraft/server.go:63-78 | One turn of the loop: a command is applied, a snapshot installed, a notice changes nothing; after each a snapshot is due when the raft state has reached the limit |
| KvServer.KVServer.ApplyLoop | 6.824/src/kvraft/server.go:63-78 | After any messages the maps and the label are those of taking them one by one, and after each of them a snapshot of the maps under the label is due exactly when the raft state has reached the limit |
| KvServer.KVServer.UpdateFromSnapshot | 6.824/src/kvraft/server.go:184-201 | The maps are merged with those of the snapshot and the label is its index; an empty snapshot changes nothing |
| KvServer.KVServer.RequestRaft | 6.824/src/kvraft/server.go:114-139 | True when repeated or applied in time; the label moves to the index of a request applied in time only |
| KvServer.KVServer.Get | 6.824/src/kvraft/server.go:141-161 | The value of the key, or that there is none, or that this is not the leader |
| KvServer.KVServer.PutAppend | 6.824/src/kvraft/server.go:163-171 | Done when repeated or applied in time, otherwise not the leader |
| KvServer.KVServer.IfSnapshot | 6.824/src/kvraft/server.go:173-182 | A snapshot is handed to Raft exactly when the raft state has reached the limit, and it holds all data under the present label |
| KvServer.KVServer.constructor | 6.824/src/kvraft/server.go:239-261 | A new server has empty maps |
| KvHistories.LogIsAccepted | 6.824/src/kvraft/server.go:80-161 | For every log in which each write takes effect exactly once, the gets, each with the value that Get returns there (empty when there is none), and the writes without their repetitions are accepted by the sequential store one after the other in the order of the log |
| KvHistories.ExplainedIsLinearizable | 6.824/src/kvraft/server.go:80-161 | Any history whose operations take effect at places of such a log, the writes at their first appearances and the gets reading the maps there, in an order that respects real time, is linearizable |
| KvHistories.NextAccepted | 6.824/src/kvraft/server.go:80-161 | The next operation in the order of the log is accepted by the sequential store and leaves it as the log does at its place |
| KvHistories.QuietStretch | 6.824/src/kvraft/server.go:80-101 | Stretches of a log without first appearances of puts and appends change no value |
| KvLinearizable.StoreIsLinearizable | 6.824/src/kvraft/server.go:63-171 | The whole service: in every run of the cluster without compaction, with any loss, delay, repetition, reordering and crashes, every history of clerks that make one write after the other, each answered by a server that knows its number, and of gets answered from the maps of a server that was handed the get, is linearizable for the sequential store; writes still unanswered at the end may be in it or not |
| KvLinearizable.StorePassesCheck | 6.824/src/linearizability/linearizability.go:235-270 | The linearizability checker, given the history of such a run, can only answer that it is linearizable |
| KvLinearizable.LogIsNumbered | 6.824/src/kvraft/client.go:78-101 | In such a run the numbers of every client rise in the log, so every write takes effect exactly once |
| KvLinearizable.AnsweredIsThere | 6.824/src/kvraft/server.go:48-61 | In such a run the filter of the server that answers a write holds no later number of its client, and so the write itself |
| KvLinearizable.RealTimeKept | 6.824/src/kvraft/server.go:114-161 | In such a run an operation that is called when another has returned has a later place in the log |
| KvLinearizable.RunHasLog | 6.824/src/kvraft/server.go:63-112 | Every run has one log of commands, all started before some server had applied the last of them, of which the maps of every server at every moment are a fold of a prefix |
| KvLinearizable.NotifiedIsKnown | 6.824/src/kvraft/server.go:106-118 | A server that has been handed a write knows its number, so both ways to answer a write come to the same |
| MapReduce.ParallelIsSequential | 6.824/src/main/mrsequential.go:38-84 | For all inputs, every number of buckets and every reducer that ignores the order of values, the outputs of all buckets together are the lines of the sequential run; provided keys and values are valid UTF-8, because encoding/json replaces anything else between map and reduce |
| MapReduce.Run | 6.824/src/mr/worker.go:88-148 | Every bucket gets exactly one line for every key that hashes to it, with the reducer applied to all values of that key |
| MapReduce.MapTask | 6.824/src/mr/worker.go:101-108 | Every record is in the file that the hash of its key names, in order, and in no other |
| MapReduce.ReduceTask | 6.824/src/mr/worker.go:126-148 | One line for every key of the files, whatever the order of the map |
| MapReduce.Group | 6.824/src/mr/worker.go:126-142 | The map holds for every key its values in order |
| MapReduce.Sequential | 6.824/src/main/mrsequential.go:59-84 | Sorting and reducing every run of equal keys gives one line for every key |
| MapReduce.SortByKey | 6.824/src/main/mrsequential.go:59-59 | The records in order of their keys, the same ones |
| MapReduce.BucketsReduceAll | 6.824/src/mr/worker.go:102-108 | All buckets together reduce every key of the input once |
| MapReduce.BucketValues | 6.824/src/mr/worker.go:102-108 | The files of a bucket hold all values of its keys and none of others |
| MapReduce.SameLines | 6.824/src/main/mrsequential.go:68-84 | What reduces the same records is the same but for the order of its lines |
| MapReduce.ReducesRearranged | 6.824/src/main/mrsequential.go:59-59 | For a reducer that ignores order the order of the records does not matter |

## Left out

- Finer interleavings inside the four merged Raft steps, and the sharing of one array between a leader's log and the
  entries it sends.
- Cluster-wide safety, progress and linearizability with compaction on: the piggybacked snapshot path compares entries
  by position. With compaction the log window, durability, terms, votes, election safety, the order of deliveries and
  the origin of every command and snapshot are proved.
- Timers, random timeouts and sleeps, and so that progress is made rather than possible.
- labrpc and labgob: the network is the set of all messages sent, and encoding is an identity except for the merge
  named above.
- The timeout and kill paths of CheckOperationsTimeout and CheckEventsTimeout, which the source documents as allowing
  false positives.
- Histories with calls that never return, in the checker.
- Models whose Equal is coarser than equality of states.
- CheckHistory.CheckEvents: does not cover partitions with calls that never return, because the search is described
  for complete histories.
- Timeline.SortByTime: does not sort the array in place, because only the result of sort.Sort is relied on.
- MapReduce.SortByKey: does not sort the array in place, because only the result of sort.Sort is relied on.
- KvClerks.Clerk.PutAppend: does not model 64-bit wrap-around of the message number.
- KvServer.KVServer.RequestRaft: does not model the calls of Start and of the notification channel, because they
  belong to Raft and to timers; whether the server is leader, and whether the request was applied in time, are
  parameters.
- RaftRetry.RetryEnds: does not interleave other steps with the loop, because these may keep answers away for ever;
  RaftLoops.LoopsEnd bounds the work of any number of loops under every interleaving.
- MapReduce.ParallelIsSequential: does not model the replacement of invalid UTF-8 by encoding/json, because records
  are compared as the map function made them.
- mr/master.go, whose accounting depends on timers and on workers never reporting late; files, JSON and plugins.
- shardmaster and shardkv, which are empty stubs, the test harnesses and the launchers.
