# keystory: a verified model

This project models the core of keystory, an embedded key/value store, and proves what it promises.
Five parts are modelled, each from the bytes or messages up:

* **Raft** (`RaftNode`, `RaftProtocol`, `RaftSafety`, `RaftInvariant`, `RaftTheorems`, `RaftCatchUp`,
  `RaftCluster`, `RaftDriver`, `RaftInner`, `Loops`). A node's methods as a mutable class and as functions; a
  protocol in which vote and append messages may be delayed, duplicated, reordered or lost, and a leader may stop
  after reaching any subset of its peers; and the driver, call by call, as it is coded.
* **The durable engine** (`Histories`, `WalRecord`, `WalSegment`, `WalLog`, `Replay`, `Checkpoint`,
  `DurableStore`, `DurableSafety`, `DurableInvariant`, `DurableSteps`, `DurableRecovery`, `DurableTheorems`,
  `DurableKill`, `DurableDamage`, `GroupCommit`). The log and checkpoint formats byte for byte; the log handle with every file
  operation fallible; the engine as a state machine whose steps are single I/O effects; and group commit as an
  interleaving of writers and checkpoints over one flag and one condition variable.
* **The B+ tree** (`Order`, `BTree`, `BTreeStore`, `BTreeDoc`): splits on insert, deletes without rebalancing,
  separator-pruned ranges, and the nested checksummed document.
* **The blob log** (`BlobLog`, `BlobStore`, `BlobRuns`): an index that must equal a scan of the log, and what a
  handle reads over every run of puts, failed puts, compactions, reopens and power cuts.
* **Supporting cores** (`Crc`, `Codec`, `Epoch`, `Checker`, `PrefixScan`, `Writes`, `Types`).

## How the parts are stated

The crash model of `DurableStore`: a file has a durable part and an unsynced part; a power cut keeps any byte prefix
of the unsynced part. Directory changes are durable once the directory is synced; until then a power cut may drop a
newly created segment, bring back any subset of the unlinked ones, and leave each checkpoint name as it was at any
moment since the last sync. A process may also be killed while the machine runs on: then nothing is lost and nothing
becomes durable, and the next process reads the unsynced bytes like any others. A write, sync, rename, unlink or
directory sync may fail at any point, and recovery itself may be cut short. Each step of `DurableStore.Step` is one
such effect, so a theorem over all runs is a theorem about a crash at every point. `snap.dat` may also be damaged by
the medium at any moment, the store down, being opened or up. Runs in which a checkpoint demotes a damaged `snap.dat`
are kept apart: `IsSafeRun` is every run but those, `IsRun` every run, and `DurableDamage` says what each guarantees.

`Book` is bookkeeping for the proofs only. `hist` is the commits known to be durable: a commit joins it when it is
acknowledged, or when recovery finds it in synced bytes, or when bytes it was found in are synced. `inflight` is the
commits that may or may not be durable; its first `soft` were found by recovery in bytes not yet synced and are
already served, the rest are the one group under way.

The Raft safety argument follows sections 5.3, 5.4.1, 5.4.2 and 5.4.3 of the Raft paper (Ongaro and Ousterhout, "In
Search of an Understandable Consensus Algorithm"). The checksum is the one of section 3.2.9 of IEEE 802.3, in its
reflected form.

What a history of writes means is stated on its positions, apart from the functions that apply them: a key has the
value of its last write if that is a put, and for version the index of the write that last changed its value
(`RaftNode.Finds` and `RaftNode.Leaves` on a Raft log, `Histories.Leaves` on the engine's commits). The file operations
of the log handle and of the blob store are parameters (`AppendFaults`, `RotateFaults`, `PutFaults`, `CompactFaults`):
a call's contract says which of them it needs to succeed.

Counters and indices are unbounded naturals; where a field has a width (`u32` lengths, `u64` indices and ids, the
`u32` segment number) the width is written out and the overflow path is modelled or excluded by the code's own
check.

## Where the code and its documentation differ

The model follows the code.

* `src/raft/cluster.rs:129` passes the candidate's last term and last index in the opposite order to the one
  `src/raft/node.rs:224-225` declares. `RaftDriver.CallSiteOrderIsAvailableWhen` gives the exact condition under
  which an election succeeds with the order as coded, `RaftDriver.DeclaredOrderIsAvailable` the one for the declared
  order, and `RaftDriver.AvailabilityIsLost` a run that ends with a live majority and no leader. Driver safety
  does not depend on the order.
* `src/epoch_rcu.rs` says that no version is freed while a reader that entered before its retirement is active.
  `reclaim` samples the registry under one lock and drains the queue under another, and a reader may register in
  between. `Epoch.HeldVersionIsFreedExactlyWhen` gives the exact condition: a reader loses the version it holds if
  and only if the reclaim sampled an empty registry and the version is queued by the time it drains; a sample that saw
  any reader at all frees nothing anyone holds. `Epoch.LateReaderLosesItsVersion` is a run that does it.
  The doc comment of `enter` also claims versions retired *at* the entry epoch; the code keeps those retired after it
  (`Epoch.SeenEntryProtects`), and `Epoch.RetiredAtEntryIsFreed` is a run that frees one retired at it.
* `src/valuestore.rs` says that blob ids are never reused. Two things bring them back. A compaction whose directory
  sync fails goes on with the new log; a power cut may then bring the old one back, and ids come back if and only if
  a blob was put since (`BlobRuns.IdsComeBackExactlyWhen`, with a run in `BlobRuns.UndoneCompactionReusesAnId`). And
  `open` cuts a log at a damaged record and counts ids from what is left: they come back if and only if some id handed
  out is at or above the next id of that (`BlobRuns.DamagedReopenReusesExactlyWhen`), which is so whenever the damaged
  record is of a blob handed out (`BlobRuns.DamagedHandleComesBack`); a fence before the damage protects the ids below
  its mark (`BlobRuns.FenceProtects`).
* `Wal::open` does not sync a tail it finds intact. After a process is killed between its write and its sync, the
  next one serves a commit that a power cut can still take back: `DurableKill.ServedSurvivesExactlyWhenFirm` says
  exactly when, `DurableKill.SoftIsReachable` is a run that gets there, and `DurableKill.RecoveredIsKept` says what
  makes it safe. No acknowledged commit is at risk.
* The engine keeps two checkpoints so that one damaged file costs nothing. It notices damage only at `open`: a
  `snap.dat` damaged later is demoted over the good `snap.prev` by the next checkpoint.
  `DurableDamage.OpensExactlyWhenNothingDamagedIsDemoted` is the exact condition over every run: every power cut and
  every kill at every step leaves a store that opens if and only if no checkpoint demoted a damaged file.
  `DurableDamage.DemotionIsExposed`, `DemotedCannotReopen` and `DemotionLosesTheFallback` say how long a demotion
  hurts, and `DurableDamage.DamageIsReachable` is a run.
* `src/btree_store.rs` calls its magic `BTR2`; the constant is `0x4254_5252`.
* Encoding a log record and decoding it is the identity; decoding and encoding is, exactly for payloads that are no
  batch of one and whose deletes carry no value bytes (`WalRecord.ReencodesExactly`).

## Model

| member | source | states |
|---|---|---|
| RaftNode.MergeReplacesFromFirstConflict | src/raft/node.rs:268-332 | an append keeps the follower's log up to the first missing or differing entry and is the message's entries from there on; without a conflict a longer log is left alone |
| RaftNode.MergeIsIdempotent | src/raft/node.rs:268-332 | redelivering an append changes nothing |
| RaftNode.HighestCommittableIsMax | src/raft/node.rs:340-360 | a leader moves its commit index to the highest entry of its own term that more than half of its peers have matched, and never back |
| RaftNode.CommittableIsMajority | src/raft/node.rs:340-360 | an index is committable if and only if it holds an entry of the node's own term and twice the peers that matched it outnumber the peers |
| RaftNode.AppendReply | src/raft/node.rs:268-332 | an append is accepted if and only if its term is not behind and the entry before its own matches; a refusal names the index one past what the follower keeps, and a leader that resumes there with the follower's last term is accepted |
| RaftNode.ReplayFinds | src/types.rs:67-99 | on the positions of any log: a key reads as the value of its last write if that is a put, and as absent if there is none or it is a delete |
| RaftNode.FindsOne | src/types.rs:147-150 | a log determines what a read finds |
| RaftNode.ReplayLeaves | src/types.rs:67-99 | on the positions of any log: a present key's version is the index of the entry that last changed its value; a put of the value held is no change, a put after a delete is |
| RaftNode.OnlyReplayLeaves | src/types.rs:152-157 | those values and versions determine the state |
| RaftNode.ApplyCommittedFoldsLog | src/raft/node.rs:362-377 | applying goes exactly as far as the commit index and the log allow, and the state is what the log up to `applied` leaves: each key's last put, with the index of the entry that last changed its value |
| RaftNode.Node.StartElectionStep | src/raft/node.rs:196-203 | a campaign raises the term by one, votes for itself and forgets what followers held |
| RaftNode.Node.BecomeLeaderStep | src/raft/node.rs:205-217 | the loop over peers leaves a leader that sends every peer from past its log's end and counts nothing as matched |
| RaftNode.Node.RequestVoteStep | src/raft/node.rs:220-253 | a vote is granted if and only if the term is not behind, no other candidate has this term's vote, and the candidate's tip is at least as high; the higher term is adopted either way |
| RaftNode.Node.AppendEntriesStep | src/raft/node.rs:268-332 | the entry-by-entry loop produces the protocol's merged log, commit index and reply |
| RaftNode.Node.AdvanceCommitStep | src/raft/node.rs:340-360 | the ascending loop ends at the highest entry of the leader's own term that more than half of its peers have matched |
| RaftNode.Node.ApplyCommittedStep | src/raft/node.rs:362-377 | the apply loop stops at the commit index or the log's end and leaves each key's last put with the index that last changed it |
| RaftNode.Node.ProposeStep | src/raft/node.rs:379-388 | a leader's proposal is appended at the returned index in its term |
| RaftSafety.LogMatching | src/raft/node.rs:268-332 | two logs built from the same leaders' logs that agree on a term at an index agree up to it |
| RaftSafety.LeaderCompleteness | src/raft/node.rs:220-253 | by induction on terms: the log of a later leader starts with every entry an earlier term's quorum acknowledged |
| RaftSafety.UpToDateContains | src/raft/node.rs:228-252 | a log at least as up to date as one holding an acknowledged prefix, and certified by the same leaders, contains that prefix |
| RaftInvariant.StepKeeps | src/raft/node.rs:196-388 | every step of the protocol keeps the safety invariant |
| RaftInvariant.QuorumNamesTheWinner | src/raft/node.rs:220-253 | a candidate with a quorum of votes is the only winner of its term |
| RaftTheorems.CommittedIsForever | src/raft/node.rs:268-360 | over every run no committed entry is ever truncated or replaced |
| RaftTheorems.CommittedLogsAgree | src/raft/node.rs:268-377 | what any two nodes have committed, at any two moments of any run, is one sequence as far as both go |
| RaftTheorems.AppliedStatesAgree | src/raft/node.rs:362-377 | no two nodes ever apply different commands at one index; a state holds each key's last put in the log up to `applied`, with the index that last changed it, and equal `applied` means equal maps |
| RaftTheorems.OneLeaderPerTerm | src/raft/node.rs:196-253 | two leaders of one term, at any moments of a run, are one node |
| RaftTheorems.LeadersHoldCommitted | src/raft/node.rs:220-253 | a leader holds every entry committed in its own or a lower term |
| RaftTheorems.LogsMatch | src/raft/node.rs:268-332 | in every reachable state two logs with the same term at an index are equal up to it |
| RaftCatchUp.RejectedRoundShrinks | src/raft/cluster.rs:336-370 | every rejected round of a not-newer follower shrinks its log, so catch-up terminates |
| RaftCatchUp.CatchUpRepairs | src/raft/cluster.rs:336-370 | catch-up fails only if the follower's term is higher; otherwise the follower equals the leader through `idx` and keeps everything before the first divergence |
| RaftCatchUp.PeerCatchUp | src/raft/cluster.rs:336-370 | the loop computes exactly that catch-up |
| RaftDriver.CandidateHoldsHistory | src/raft/cluster.rs:90-110 | with a live majority the candidate `elect` picks holds every acknowledged write |
| RaftDriver.CandidateHasHighestTip | src/raft/cluster.rs:90-110 | the candidate is the live node whose log ends in the highest term, the longest of those, the lowest id of those |
| RaftDriver.WhoGrants | src/raft/cluster.rs:118-135 | who grants the candidate, exactly, for the declared order of arguments and for the order at the call site |
| RaftDriver.LeaderFound | src/raft/cluster.rs:74-144 | a call finds a leader if and only if twice the live nodes outnumber the cluster and there is a leader, or the candidate with twice the willing live nodes does |
| RaftDriver.DeclaredOrderIsAvailable | src/raft/cluster.rs:74-144 | with the declared order, a leader is found if and only if more than half of the nodes are live |
| RaftDriver.CallSiteOrderIsAvailableWhen | src/raft/cluster.rs:118-135 | with the order as coded: if and only if, besides, there is a leader or the candidate and the other live nodes whose log ends in a term no larger than the history's length are more than half of the cluster |
| RaftDriver.AvailabilityIsLost | src/raft/cluster.rs:118-135 | read, fail(0), write, fail(1), revive(1) on three nodes ends with two live nodes and no leader, where the declared order has one |
| RaftDriver.EnsureLeaderKeeps | src/raft/cluster.rs:74-148 | making sure of a leader moves no log and no state, and an elected leader's term is one above the highest there was |
| RaftDriver.CommitUnderResult | src/raft/cluster.rs:295-329 | under a leader of a live majority a write is committed at the next index, every live node holds it, and the assertion at line 319 does not fire |
| RaftDriver.AcksAreHeld | src/raft/cluster.rs:300-316 | after a write the leader's record of how much each live node holds is what that node holds |
| RaftDriver.SyncResult | src/raft/cluster.rs:375-406 | after a sync every live node has applied the whole history |
| RaftDriver.StepAnswers | src/raft/cluster.rs:211-329 | every put, delete, get, scan, fail and revive answers from the acknowledged writes alone: a get finds the value of the key's last write in them if that is a put and nothing otherwise, a scan the same for every key with the prefix; it is refused if and only if no leader is found, and then moves no log or state; it never panics |
| RaftDriver.RunsAreLinear | src/raft/cluster.rs:211-329 | every run of the driver is linearizable in call order, each read answered by the positions of the writes acknowledged before it, and loses no acknowledged write |
| RaftInner.Inner.constructor | src/raft/cluster.rs:180-197 | a new cluster has no history |
| RaftInner.Inner.FindCandidate | src/raft/cluster.rs:90-110 | the scan over live nodes picks the modelled candidate, whose history `CandidateHoldsHistory` is about |
| RaftInner.Inner.FindMaxTerm | src/raft/cluster.rs:146-148 | the loop finds the highest term of any node |
| RaftInner.Inner.AskVotes | src/raft/cluster.rs:112-135 | the vote loop collects exactly the granting live nodes |
| RaftInner.Inner.Elect | src/raft/cluster.rs:90-144 | the election's effect on every node is the modelled one |
| RaftInner.Inner.EnsureLeaderCall | src/raft/cluster.rs:74-88 | keeps the invariant, changes no data, and returns a leader if and only if the exact condition for one holds |
| RaftInner.Inner.ReplicateTo | src/raft/cluster.rs:300-316 | the replication loop catches every live peer up and counts exactly those that reached the index |
| RaftInner.Inner.CommitCall | src/raft/cluster.rs:245-329 | a put or delete is appended to the history and acknowledged at its index, or refused and nowhere; refused if and only if no leader is found |
| RaftInner.Inner.GetCall | src/raft/cluster.rs:225-243 | a get returns the value of the key's last acknowledged write if that is a put and nothing otherwise, or is refused, if and only if no leader is found; its assertion that no live node disagrees holds |
| RaftInner.Inner.ScanCall | src/raft/cluster.rs:267-282 | a scan returns, in key order, exactly the keys with the prefix whose last acknowledged write is a put, with its value, or is refused, if and only if no leader is found |
| RaftInner.Inner.FailCall | src/raft/cluster.rs:151-157 | failing a node keeps the invariant and drops it as leader |
| RaftInner.Inner.ReviveCall | src/raft/cluster.rs:159-163 | reviving a node keeps the invariant |
| RaftInner.Inner.SyncFollowers | src/raft/cluster.rs:375-406 | the sync loop is the modelled one |
| Crc.PolyValue | src/crc.rs:23-41 | the reflected polynomial is 0xEDB88320 |
| Crc.OnesValue | src/crc.rs:13-16 | the starting register is 0xFFFFFFFF |
| Crc.NotValue | src/crc.rs:20-21 | complementing a word takes its number from 0xFFFFFFFF |
| Crc.ByteStepDivides | src/crc.rs:57-66 | a table lookup is eight steps of bit-by-bit division |
| Crc.Crc32IsChecksum | src/crc.rs:13-41 | the table-driven checksum is 0xFFFFFFFF less the remainder of dividing the message, bit by bit, by 0xEDB88320 from the register 0xFFFFFFFF |
| Crc.Crc32IsNumeric | src/crc.rs:13-41 | the same on numbers: exclusive-or a byte in, then eight times halve and exclusive-or the polynomial if the bit shifted out was one |
| Crc.EmptyChecksum | src/crc.rs:91-95 | the checksum of no bytes is zero |
| Crc.UpdateConcat | src/crc.rs:57-66 | feeding a message in chunks is feeding it whole |
| Crc.BitBurstDetected | src/crc.rs:13-41 | for every polynomial with a constant term: any change within 32 consecutive bits of an input of any length changes the remainder |
| Crc.FourByteBurstDetected | src/crc.rs:13-41 | any change within four consecutive bytes changes the checksum |
| Crc.BuildTable | src/crc.rs:23-41 | the nested loops build the division table |
| Crc.Accumulator.Feed | src/crc.rs:57-66 | the loop advances the running state by the data |
| Crc.Checksum32 | src/crc.rs:13-21 | the accumulator over two chunks gives 0xFFFFFFFF less the remainder of both, divided as one |
| Codec.LittleEndian | src/wal.rs:629-648 | the first k bytes of a log number count ones, the rest 256 to the k |
| Codec.BigEndian | src/valuestore.rs:328-338 | the last k bytes of a blob-log number count ones, the rest 256 to the k |
| WalRecord.DecodeEncoded | src/wal.rs:586-732 | every record the log accepts decodes back to itself |
| WalRecord.PayloadBytes | src/wal.rs:622-656 | where everything is in a payload, in numbers: tag 1 a put, 2 a delete, 3 a batch, then the term, the index, and the one op's lengths and bytes, or the count and each op after its own tag |
| WalRecord.ReencodesExactly | src/wal.rs:691-732 | every payload that decodes is a record the log accepts, and encodes back to its own bytes if and only if it is no batch of one and no delete in it carries value bytes |
| WalRecord.DeleteDropsItsValue | src/wal.rs:691-704 | for every key and value bytes: a delete that carries them decodes without them |
| WalRecord.BatchOfOneIsUnwrapped | src/wal.rs:706-732 | for every op: a batch of just it decodes, and is encoded as the op alone |
| WalRecord.PayloadLenBound | src/wal.rs:604-620 | a commit is accepted if and only if it has an op and its payload's length fits four bytes; it is then at least the scan's minimum of 25 |
| WalSegment.ScanLoop | src/wal.rs:470-546 | the position loop of `scan_segment` returns the modelled scan, errors included |
| WalSegment.SegmentBytes | src/wal.rs:563-576 | a segment starts with the bytes KSWL, the number 1 and the checksum of those; a frame is a payload between its length and its checksum |
| WalSegment.HeaderVerdicts | src/wal.rs:470-506 | for any bytes: shorter than a header or a bad header alone is torn from 0, a bad header in front of more is refused as invalid, another version as unsupported |
| WalSegment.FrameVerdicts | src/wal.rs:507-546 | after any frames that decode: the end is clean, anything that is no whole frame is torn from there, a whole frame that does not decode is refused |
| WalSegment.FramesOfAny | src/wal.rs:507-546 | any bytes are frames that decode followed by one of those three |
| WalSegment.EveryCut | src/wal.rs:470-546 | the scan of every byte prefix of a segment reports exactly the records wholly inside it and the offset where they end |
| WalSegment.EveryHeaderCut | src/wal.rs:470-494 | a prefix shorter than the header is torn from offset 0 |
| WalSegment.EveryCutResumes | src/wal.rs:182-215 | repair cuts exactly there, and whatever is appended afterwards is read back contiguously with no tear |
| WalSegment.EveryHeaderCutResumes | src/wal.rs:191-201 | a segment cut inside its header resumes as an empty one |
| WalSegment.PayloadDamageStopsScan | src/wal.rs:523-529 | damage within four consecutive bytes of a record's payload stops the scan exactly at that record, whatever follows |
| WalLog.Wal.constructor | src/wal.rs:182-215 | a handle on a clean last segment is valid, and its segment limit is at least 45 bytes |
| WalLog.Wal.RollBack | src/wal.rs:270-281 | a failed append is cut off and the handle repositioned; the log is poisoned if and only if the cut, the seek or its sync fails |
| WalLog.Wal.WriteGroup | src/wal.rs:254-264 | after a partial write of any length the segment is its old bytes plus the whole group, if and only if the write and the sync succeed, or its old bytes, or the log is poisoned, if and only if the roll-back fails |
| WalLog.Wal.EncodeGroup | src/wal.rs:240-248 | encodes exactly when every record fits, and to the group's frames |
| WalLog.Wal.AppendMany | src/wal.rs:235-265 | succeeds if and only if no file operation it needs fails, and adds exactly the group's frames at the end of the highest-numbered segment; it moves to a fresh one if and only if the group would overflow one that holds records; failure adds nothing or poisons |
| WalLog.Wal.RotateSegment | src/wal.rs:315-383 | switches to a fresh segment if and only if the log is usable, a number is left and every operation succeeds; poisons if and only if a newer segment is or may be left beside the current one; otherwise changes nothing |
| WalLog.Wal.RemoveSegmentsBefore | src/wal.rs:389-403 | deletes every segment below the bound but the current one, or, where one cannot be removed, exactly those below it; succeeds if and only if none is stuck and a directory that changed is synced |
| Replay.ReplayLoop | src/engine.rs:295-325 | the replay loop with the engine's sink computes the modelled recovery |
| Replay.ReplayAcceptsExactly | src/engine.rs:295-325 | replay accepts a log if and only if every segment scans, only the last is torn, and its records, after some the checkpoint covers, continue it index by index without a gap or a repeat |
| Replay.ReplayRecovers | src/engine.rs:286-325 | from any checkpoint of a history that the log reaches back to, replay rebuilds the whole history and finds the first uncovered segment |
| Replay.SinkHistory | src/engine.rs:299-325 | records that continue the checkpoint without a gap rebuild the history: each key's last put, stamped with the commit that last changed it |
| Writes.LastWriteDecides | src/types.rs:67-99 | whatever is applied in order, a key is present if and only if its last write is a put, with that put's value |
| Writes.LastChangeStamps | src/types.rs:67-99 | and its version is the index carried by the write that last changed its value |
| Histories.LastOpDecides | src/engine.rs:402-414 | within a commit the last op on a key decides; a key no op names keeps its binding and version |
| Histories.FoldLeaves | src/types.rs:147-157 | on the commits and ops of any history: each key has the value of its last write if that is a put, and for version the index of the commit that last changed its value; a put of the value held is no change, a put after a delete is |
| Histories.OnlyFoldLeaves | src/types.rs:147-157 | those values and versions determine the map |
| DurableSafety.RecoverSucceeds | src/engine.rs:286-334 | recovery of any settled directory that satisfies the invariant succeeds with the durable commits and a prefix of those in flight |
| DurableSafety.ReplayFromAny | src/engine.rs:299-325 | from whichever intact checkpoint recovery starts, it ends in the same state |
| DurableSafety.LoadSucceeds | src/checkpoint.rs:103-125 | a usable checkpoint that the log reaches back to is always found |
| DurableInvariant.CommitKeeps | src/engine.rs:543-578 | every step of a group commit, failures and roll-backs included, keeps the invariant |
| DurableInvariant.FoldGroup | src/engine.rs:543-562 | applying a group commit by commit to a snapshot leaves what the longer history leaves, key by key |
| DurableStore.RotatesExactlyWhenFull | src/wal.rs:249-253 | with a group ready, the log rotates first if and only if the newest segment holds records and the group would take it past the limit |
| DurableSteps.RotateKeeps | src/wal.rs:315-383 | every step of a rotation, at every fault point, keeps the invariant |
| DurableSteps.CkptKeeps | src/engine.rs:588-618 | every step of a checkpoint that demotes no damaged file, and of the reclamation after it, keeps the invariant, commits interleaved |
| DurableRecovery.CrashKeeps | src/wal.rs:44-66 | whatever a power cut keeps, the directory still satisfies the invariant |
| DurableRecovery.OpenKeeps | src/engine.rs:286-359 | every step of recovery keeps the invariant, so recovery may itself crash |
| DurableRecovery.FirstCovers | src/engine.rs:296-334 | every segment below the first uncovered one holds only records the loaded checkpoint covers |
| DurableRecovery.StepKeeps | src/engine.rs:286-618 | every step of the engine and of the world, except the demotion of a damaged checkpoint, keeps the invariant |
| DurableTheorems.CrashRecovers | src/engine.rs:286-618 | a power cut at any step of any safe run leaves a directory that opens with exactly the durable commits followed by a prefix of those in flight |
| DurableTheorems.QuietCrashRecovers | src/engine.rs:286-618 | with nothing in flight, exactly the durable commits |
| DurableTheorems.GenerationsAgree | src/engine.rs:185-194 | at every step, every intact checkpoint either name may hold leads to the same recovered state |
| DurableTheorems.AcknowledgedIsForever | src/engine.rs:489-618 | a commit acknowledged at any step is in what recovery rebuilds after any power cut at any later step, at its own index and after the same commits |
| DurableTheorems.AcknowledgedIsServed | src/engine.rs:489-618 | and in what readers see whenever the store is up at a later step |
| DurableTheorems.ReadersSeeServed | src/engine.rs:574-577 | the published snapshot always holds exactly what the durable commits, followed by those recovery found in bytes yet to be synced, leave: each key's last put, stamped with the commit that last changed it |
| DurableTheorems.ReclaimIsComplete | src/engine.rs:609-617 | over every safe run, a reclamation ends only when no segment below its boundary is left |
| DurableTheorems.OpenNeverRefuses | src/engine.rs:286-334 | recovery never refuses a directory a crash left |
| DurableTheorems.HealthyLogIsExact | src/wal.rs:235-383 | unless poisoned, the current segment is numbered above every other and reads byte for byte as its durable records and then those served besides; all segments' records together end the history |
| DurableDamage.OpensExactlyWhenNothingDamagedIsDemoted | src/engine.rs:601-613 | over every run: every power cut at every step leaves a directory that opens, and every store that is down opens, if and only if no checkpoint demoted a `snap.dat` damaged since the store was opened |
| DurableDamage.DemotionIsExposed | src/checkpoint.rs:169-183 | from such a demotion until the directory is synced with the new checkpoint in place, whatever else runs, some power cut leaves a directory that recovery refuses |
| DurableDamage.DemotedCannotReopen | src/checkpoint.rs:169-179 | from such a demotion until a checkpoint is published, a killed store cannot be opened again |
| DurableDamage.DemotionLosesTheFallback | src/checkpoint.rs:103-125 | and until the next checkpoint renames, completed or not, there is no generation to fall back to |
| DurableDamage.DamageThenCheckpoint | src/engine.rs:588-618 | in every run, from every moment a store with two good generations is at rest, damage and one checkpoint lead there |
| DurableDamage.DamageIsReachable | src/engine.rs:588-618 | a run from a new store on that gets there |
| DurableKill.KillLosesNothing | src/wal.rs:182-215 | whatever a running store serves, a process started after it is killed serves too |
| DurableKill.ServedSurvivesExactlyWhenFirm | src/wal.rs:191-194 | every power cut keeps everything a running store serves if and only if nothing recovery found is still unsynced |
| DurableKill.RecoveredIsKept | src/wal.rs:254-281 | once that store has synced its newest segment, by an append, by rolling one back or by rotating, every later power cut keeps what it served |
| DurableKill.SoftIsReachable | src/wal.rs:550-557 | a run in which a store serves a commit that no sync has covered |
| DurableTheorems.FlushGroup | src/engine.rs:543-562 | the flusher's loop yields what the longer history leaves, key by key, and one record of term 1 per commit at consecutive indices |
| DurableTheorems.ApplyCommit | src/engine.rs:319-321 | the loop over a commit's ops: the last op on a key decides, and a key no op names keeps its binding and version |
| GroupCommit.StepKeeps | src/engine.rs:489-578 | every step of every interleaving of writers and checkpoints keeps the queue's invariant |
| GroupCommit.OneHolder | src/engine.rs:530-538 | at most one flusher or checkpoint holds exclusivity, and the flag says whether one does |
| GroupCommit.SleepersWillWake | src/engine.rs:167-181 | a thread sleeps only while someone holds exclusivity, so no wake-up is lost |
| GroupCommit.EveryTicketHasOnePlace | src/engine.rs:489-526 | every ticket is in exactly one of the queue, one leader's unsettled group, or the settled ones |
| GroupCommit.SettleKeeps | src/engine.rs:509-521 | a ticket is settled at most once |
| GroupCommit.FinishKeeps | src/engine.rs:522-522 | the flusher's own ticket is settled when it returns |
| GroupCommit.ReportedIndexIsPlace | src/engine.rs:543-578 | success is reported only for a durable, published commit, and its index is its place in the log |
| GroupCommit.IndicesFollowTheQueue | src/engine.rs:551-562 | earlier tickets get lower indices |
| Checkpoint.RoundTrip | src/checkpoint.rs:204-319 | every snapshot that fits the framing decodes back to itself |
| Checkpoint.FileBytes | src/checkpoint.rs:210-230 | a checkpoint starts with the bytes KSN1, the number 1, the index and the number of entries, and ends with the checksum of all before it |
| Checkpoint.ItemBytes | src/checkpoint.rs:221-227 | an entry is its key and its value, each after its length, and its version |
| Checkpoint.DecodedIsEncoded | src/checkpoint.rs:241-319 | whatever decodes is, byte for byte, the encoding of its index and of entries with distinct keys that make up its map; a file is unsupported if and only if its magic and checksum hold and its version is not 1 |
| Checkpoint.Enumeration | src/checkpoint.rs:221-227 | every map has a key-order enumeration to write |
| Checkpoint.DamageUnseals | src/checkpoint.rs:252-259 | changing up to four consecutive bytes of a body, or the checksum field, breaks the checksum |
| Checkpoint.OneByteDamage | src/checkpoint.rs:241-266 | changing any one byte of any checksum-valid file gives `InvalidData`, never `Unsupported` and never another map |
| Checkpoint.FallsBackOnDamage | src/checkpoint.rs:103-125 | `load` falls back to `snap.prev` exactly when a byte of the written `snap.dat` changed |
| Checkpoint.LoadIsModelled | src/checkpoint.rs:103-136 | loading the files' bytes is loading what the engine's model sees in them |
| Checkpoint.Emitter.Emit | src/checkpoint.rs:204-208 | every emitted byte goes to the sink and into the checksum |
| Checkpoint.WriteCheckpoint | src/checkpoint.rs:157-160 | the writer produces the encoding exactly when every key and value fits, and refuses otherwise |
| Checkpoint.DecodeLoop | src/checkpoint.rs:241-319 | the position loop of `decode` returns the modelled result, in the same order of checks |
| Order.LessIsRank | src/btree_store.rs:273-273 | the byte order of keys is a total order |
| BTree.InsertOk | src/btree_store.rs:198-261 | inserting anywhere binds the key in the ordered entries, and every split leaves well-formed halves on either side of its median |
| BTree.LiftOk | src/btree_store.rs:233-258 | a child's split lifted into its parent, which may split in turn, keeps separators strict and three to five children |
| BTree.GetOk | src/btree_store.rs:265-277 | a lookup along the separators finds what the whole run of entries holds, past emptied leaves too |
| BTree.DeleteOk | src/btree_store.rs:281-299 | a delete removes the key's entry and keeps every separator, depth and fan-out |
| BTree.EntriesOk | src/btree_store.rs:42-50 | a well-formed tree's entries are sorted and within its bounds |
| BTreeStore.EveryRunRefines | src/btree_store.rs:108-166 | after every sequence of inserts, replacements and deletes the tree is well formed, stands for exactly the ordered map, and has at most one leaf more than there were inserts |
| BTreeStore.CollectRange | src/btree_store.rs:303-325 | the pruned walk collects exactly the entries in range, in order |
| BTreeStore.Collect | src/btree_store.rs:327-345 | the full walk collects exactly the entries the predicate accepts, in order |
| BTreeStore.Tree.constructor | src/btree_store.rs:98-105 | a new tree is the empty map |
| BTreeStore.Tree.Insert | src/btree_store.rs:108-126 | binds the key in the map |
| BTreeStore.Tree.Get | src/btree_store.rs:129-131 | returns the map's value |
| BTreeStore.Tree.Delete | src/btree_store.rs:160-166 | removes the key from the map and says whether it was there |
| BTreeStore.Tree.Len | src/btree_store.rs:144-146 | the counter is the map's size |
| BTreeStore.Tree.Range | src/btree_store.rs:171-177 | exactly the map's bindings in the half-open range, sorted; empty when the range is |
| BTreeStore.Tree.Scan | src/btree_store.rs:134-141 | exactly the map's bindings the predicate accepts, sorted |
| BTreeStore.TallTreesAreWide | src/btree_store.rs:403-406 | a tree of height h has at least 2·3^(h-1) leaves, and 3^h below the root |
| BTreeStore.InsertLeaves | src/btree_store.rs:198-261 | an insert adds at most one leaf |
| BTreeStore.HeightBound | src/btree_store.rs:403-406 | fewer than 2^64 inserts, whatever the deletes, never exceed the depth limit of 64 |
| BTreeDoc.PageRoundTrip | src/btree_store.rs:408-442 | parsing the page of a well-formed tree within the depth limit gives the tree back |
| BTreeDoc.DocumentRoundTrip | src/btree_store.rs:557-632 | the document of any well-formed tree of no more leaves than fewer than 2^64 inserts can make opens as that tree with its key count |
| BTreeDoc.PageBytes | src/btree_store.rs:408-442 | a page starts with 0x42545252 and ends with the checksum of what is between, which starts with 0 and the number of entries in a leaf, with 1 and the number of keys in an internal node |
| BTreeDoc.OpensExactlyWhenShallow | src/btree_store.rs:497-555 | the document of a well-formed tree opens, as that tree, if and only if the tree is at most 64 levels deep below its root |
| BTreeDoc.EveryRunRoundTrips | src/btree_store.rs:557-632 | the tree after any sequence of edits with fewer than 2^64 inserts, however many deletes, its lengths fitting their fields, opens as itself with the map's size |
| BTreeDoc.DamagedDocument | src/btree_store.rs:621-624 | damage within four consecutive bytes of a document's page is rejected |
| BTreeDoc.OneByteDamage | src/btree_store.rs:599-632 | changing any one byte of any document that opens, magic and checksum included, is rejected |
| BTreeDoc.DamageUnwraps | src/btree_store.rs:608-624 | so is changing up to four consecutive bytes of its magic, its page or its checksum |
| BTreeDoc.OpenedIsRoutable | src/btree_store.rs:497-502 | whatever bytes a document holds, if it opens then every internal node has one more child than separators, and the key count is the number of entries |
| BTreeDoc.CountIsEntries | src/btree_store.rs:66-71 | the recursive count is the number of entries |
| BTreeDoc.WritePage | src/btree_store.rs:408-442 | the buffer-pushing writer produces the page |
| BTreeDoc.ReadPage | src/btree_store.rs:502-555 | the cursor loop returns the modelled parse |
| BlobLog.ScanWritten | src/valuestore.rs:354-390 | a scan finds every whole record of a log and stops at a torn tail |
| BlobLog.RecordBytes | src/valuestore.rs:326-339 | a record is its id, its length, its payload and the checksum of all three, numbers most significant byte first |
| BlobLog.ScanAfterCut | src/valuestore.rs:354-390 | after a log and any byte prefix of one more record the scan finds the log, and the record only if whole |
| BlobLog.IdsBelowNext | src/valuestore.rs:152-152 | every indexed id is below the next id |
| BlobLog.Rebuild | src/valuestore.rs:137-152 | the scan at open yields the index, the next id and the end of any bytes |
| BlobStore.LiveKeeps | src/valuestore.rs:252-266 | a compaction keeps exactly the live blobs, with their bytes |
| BlobStore.FencedLog | src/valuestore.rs:281-282 | the fence makes a compacted log count on from the same next id |
| BlobStore.ReadAtSlot | src/valuestore.rs:192-227 | an indexed blob reads back, where the index says it lies, as what was written under its id |
| BlobStore.CopyLive | src/valuestore.rs:252-280 | the copy loop writes and indexes exactly the live blobs, if and only if the log reads to its end and every write succeeds |
| BlobStore.DamagedLogIsRefused | src/valuestore.rs:354-390 | damage within four consecutive bytes of any record's payload ends a scan at that record, whatever follows: short of the end, so a compaction refuses it, and with the index and next id of what came before |
| BlobStore.CompactOk | src/valuestore.rs:252-282 | a compacted log indexes exactly the live ids, keeps their bytes and counts on from the same next id |
| BlobStore.ValueStore.constructor | src/valuestore.rs:113-163 | an empty store is valid and has handed out nothing |
| BlobStore.ValueStore.RollBack | src/valuestore.rs:96-106 | a failed append is cut off; the store is poisoned if and only if the cut or its sync fails |
| BlobStore.ValueStore.Put | src/valuestore.rs:168-185 | an id is handed out if and only if the store is healthy, ids are left and the whole record is written and synced; it was never stored before in this log; a failed put leaves nothing behind, or poisons if it cannot be undone |
| BlobStore.ValueStore.Get | src/valuestore.rs:192-227 | a handle whose blob is still indexed, with its length, reads the bytes put under its id; any other reads as absent |
| BlobStore.ValueStore.Compact | src/valuestore.rs:238-295 | succeeds if and only if the store is healthy and no file operation fails; with the new log in place and a failed directory sync the old log may still come back; with any other failure nothing changes |
| BlobStore.ScanPrefix | src/valuestore.rs:354-390 | any byte prefix of a log that takes in all but its last records is scanned as the log without some of those |
| BlobStore.ValueStore.Reopen | src/valuestore.rs:113-163 | with the machine running on, reopening rebuilds exactly the same index, end and next id; after poisoning, with or without the record in doubt, which stays unsynced if found |
| BlobStore.ValueStore.PowerCut | src/valuestore.rs:113-163 | opening what a power cut left, any byte prefix of what was not synced, of the current log or of one a compaction had replaced, gives a valid store of that log with some of its last unsynced records gone |
| BlobRuns.StepKeeps | src/valuestore.rs:168-295 | every put, failed put, compaction, reopen and power cut keeps the log in step with its events |
| BlobRuns.BlobsReadBackExactly | src/valuestore.rs:192-227 | over every run, a stored blob reads back with its bytes if and only if every compaction the log has seen since named its id live |
| BlobRuns.HandlesReadBack | src/valuestore.rs:8-16 | unless a power cut brings back a log that puts were made since, ids are handed out in increasing order and each handle reads its own blob or nothing |
| BlobRuns.IdsComeBackExactlyWhen | src/valuestore.rs:284-293 | a power cut makes ids come back if and only if it undoes a compaction whose directory sync failed and a blob was handed out since; losing records never synced does not |
| BlobRuns.DamagedReopenReusesExactlyWhen | src/valuestore.rs:137-152 | after the next `open` of a log with a damaged payload, ids come back if and only if some id handed out is at or above the next id of what precedes the damage |
| BlobRuns.DamagedHandleComesBack | src/valuestore.rs:137-152 | over every run, that is so whenever the damaged record is of a blob handed out |
| BlobRuns.FenceProtects | src/valuestore.rs:138-143 | a fence before the damage keeps every id below its mark from coming back |
| BlobRuns.DamageReusesAnId | src/valuestore.rs:137-152 | one blob, damage to its first byte, and the next put is given its id |
| BlobRuns.UndoneCompactionReusesAnId | src/valuestore.rs:284-293 | a run that hands out an id twice, for every three blobs |
| Epoch.StepKeeps | src/epoch_rcu.rs:84-173 | every load, lock and push of readers, publishers and reclaimers keeps the invariant |
| Epoch.HeldTagsAreLater | src/epoch_rcu.rs:163-173 | a retirement tag on a version a reader holds is above that reader's entry epoch |
| Epoch.DrainFreesExactly | src/epoch_rcu.rs:92-105 | a drain frees a version if and only if no tag up to its place in the queue is above the sampled entry |
| Epoch.HeldVersionIsFreedExactlyWhen | src/epoch_rcu.rs:92-105 | over every run, a reclaim frees a version a reader holds if and only if it sampled an empty registry and the version is queued when it drains |
| Epoch.SeenReadersKeepTheirVersions | src/epoch_rcu.rs:92-105 | no reclaim frees a version held by a reader registered when it sampled |
| Epoch.SeenEntryProtects | src/epoch_rcu.rs:75-80 | a reclaim frees nothing retired after the entry epoch of an active reader it saw |
| Epoch.RetiredAtEntryIsFreed | src/epoch_rcu.rs:73-80 | a run that frees a version retired at the entry epoch of an active reader it saw |
| Epoch.AtomicReclaimIsSafe | src/epoch_rcu.rs:92-105 | a reclaim run as one step frees no version any reader holds |
| Epoch.QuiescentReclaimEmpties | src/epoch_rcu.rs:92-105 | a reclaim that sampled while nobody was registered leaves nothing queued when it drains, whatever ran in between, and has freed all of it |
| Epoch.QuiescentReclaim | src/epoch_rcu.rs:92-105 | in every run whose readers have all left, one reclaim empties the queue |
| Epoch.LateReaderLosesItsVersion | src/epoch_rcu.rs:92-105 | a run in which a reader that registers between sample and drain holds a freed version |
| Checker.SortIsSorted | src/checker.rs:111-113 | the sort orders a log by index and keeps its entries |
| Checker.LookupIsExpected | src/checker.rs:121-127 | whatever the recording order, the looked-up value is that of the highest-indexed write at or below the snapshot |
| Checker.FlaggedExactly | src/checker.rs:105-134 | a read is flagged if and only if it differs from that value |
| Checker.SnapshotReadsPass | src/checker.rs:105-134 | on a single-op history recorded at its indices no read from a published snapshot is flagged |
| Checker.RecordedWriteDecides | src/checker.rs:105-134 | one more recorded write decides the reads at or above its index up to a higher-indexed write; every other expectation stays |
| Checker.Model.RecordWrite | src/checker.rs:68-76 | exactly the reads of that key at or above the index, up to a higher-indexed write, are now expected to see the value |
| Checker.Model.RecordRead | src/checker.rs:80-87 | the flagged reads are those flagged before, and this one if and only if it misses the value it should see |
| Checker.Model.Check | src/checker.rs:106-133 | the loop returns exactly the flagged reads and sorts the logs |
| PrefixScan.PrefixEndLoop | src/types.rs:198-207 | the popping loop computes the prefix bound |
| PrefixScan.StartsWithIsRange | src/types.rs:168-179 | a key starts with the prefix if and only if it lies in the range the scan asks for |
| PrefixScan.ScanExact | src/raft/cluster.rs:267-282 | the driver's take-while scan of a sorted map gives exactly the keys with the prefix, in order |
| PrefixScan.ScanLoop | src/raft/cluster.rs:271-281 | the scan as it runs returns exactly the bindings whose key starts with the prefix, in key order |

## Left out

- A process killed between truncating a file and syncing the truncation, in a repair or a failed roll-back of the log or of the blob log: a power cut there is modelled, a kill is not.
- An `open` that returns an I/O error half-way is modelled as a crash at that point.
- A stray file on the next segment's name: a rotation that finds one is modelled as a failed creation that left a file behind, and the recovery of such a directory is not modelled.
- Media damage inside the log beyond a payload burst, and a lost newest segment: the code documents these as outside its recovery promise.
- Damage to `snap.dat` strikes when both checkpoint names hold intact files and are synced; damage to the only generation, to `snap.prev`, or to a file whose rename is not yet synced is left out.
- A failed rotation whose half-born segment was removed, with only the directory sync failing, is modelled as not removed; a power cut may find either, a killed process's successor finds it.
- The engine's state machine sees checkpoint files as absent, damaged or holding a snapshot; `Checkpoint` proves that the bytes behave that way, and `LoadIsModelled` joins the two. A checkpoint of another format version is left to `Checkpoint`.
- BlobStore.ValueStore.Get: does not model reading a log damaged in place since it was opened; that a damaged payload reads as absent is `DamagedRecord`'s subject, and a damaged length field is left out.
- Group commit leaves out panics inside a flush and lock poisoning; what is appended and published is the engine model's subject, here commits are their tickets.
- The epoch model leaves out the order of the registry's entries, which no operation depends on.
- Raft nodes have no persistence in the code, so none is modelled; a failed node keeps its memory, as in the driver.
- The driver's specification states a scan's result as a map; that the call returns it in key order is `Inner.ScanCall`'s and `PrefixScan`'s subject.
- `src/asyncio.rs`, `src/rt.rs`, `src/raft/async_driver.rs`, `src/raft/mod.rs`, `src/lib.rs`, `src/main.rs` and `src/rcu.rs`: kernel readiness, wakers, facades and a lock around a pointer.
- Directory locking, path canonicalisation, durable directory creation, file-name parsing and error texts: operating-system behaviour. Segments are a sequence or map of numbers to bytes.
- The document commit of the B+ tree (temporary file, sync, rename) and directory handling of the blob store: the same pattern as the checkpoint's, without a second generation.
- Memory limits and performance claims.
