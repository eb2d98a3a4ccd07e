# Verified model of a distributed object store

The system keeps objects on storage nodes, their locations in a metadata service that is replicated by
Raft, and every node's data in a crash-safe local store. This project models its logic in Dafny and
proves what it promises. `dafny verify dfyconfig.toml` checks everything.

How the parts are modelled:

- **Consensus** (`Raft*.dfy`). `RaftHandlers` gives each critical section of a node as a function from
  state to state; `RaftCluster` makes a group of nodes a state machine. The network is the set of
  packets ever sent, so a packet may be lost, late, repeated or reordered. A node may crash between any
  two steps and inside a handler, and keeps term, vote and log only. Clock tests are nondeterministic.
  `RaftInvariants` states an inductive invariant over a history of votes, leaderships and
  acknowledgements; `RaftRuns` proves that every step keeps it. The theorems speak of the states of a
  run only: safety (`RaftSafety`), what each request, reply and vote brings about (`RaftProgress`,
  `RaftVotes`), what a waiting caller is told (`RaftWaiting`), pre-votes (`RaftPreVote`), catching up
  (`RaftCatchUp`) and restarts (`RaftRestart`); `RaftStaleTerm` builds a run. `RaftNode` is the node as a
  class whose methods compute exactly the handlers and leave disk and memory in agreement.
- **Durable formats** (`Wire`, `Crc`, `CrcVector`, `FramedLog`, `RaftStorage`, `TornTail`, `Wal`). Bytes
  are integers below 256; files are byte sequences; a replacement is atomic and an append may be torn at
  any byte.
- **Replicated metadata** (`Metadata.dfy`). A replica is the fold of the entries it applied. The command
  format is a parameter.
- **Object store** (`ObjectStore`, `Store*`, `LocalObjectStore`). Metadata rows, payload files and log
  records; each stage of a write is one step, operations on different keys interleave, and the process
  may crash between any two steps, also while it recovers. `Outcome` is what a key will hold once the
  store is open again; rows are compared up to creation time and request id, which recovery does not
  restore. The key digest is assumed to tell the keys in use apart.
- **Placement, caching, hashing, quorum** (`HashRing`, `LruCache`, `CachingView`, `Sha256`,
  `Sha256Meaning`, `Sha256Vector`, `Quorum`). The 64-bit hash of the ring and the payload checksum of the
  stores are function parameters. Which nodes answer a call, and how the metadata service answers it, are parameters of the call. A call to a
  node that was not acknowledged has no effect; an update of the metadata service may be refused, or take
  effect unconfirmed.

Promises of the source that do not hold as stated. A member that shows failing inputs comes first, then
the one with the condition under which the promise holds:

- A delete that returns NotFound leaves a BEGIN in the log, which a later recovery applies to a live
  object, although the comment at `src/storage/local_object_store.cc:359` says that recovery ignores it
  (`NotFoundDeleteUndoesPut`; `IdleOutcomeIff`, `FlightOutcomeIff`).
- Recovery is not always idempotent, as `include/storage/local_object_store.h:58-61` says it is: not if
  such a delete precedes a put that recovery completes (`RestartUndoesRecovery`; `RestartIff`).
- An explicit version that is not newer than a live row can leave row and payload in disagreement
  (`OldExplicitVersionBreaks`; `PlacedOutcomeIff`).
- Two conditional writes that expect one version can both be told Ok if the id of the second was used
  before with another expected version (`ReusedIdWinsAgain`; `ConditionalVersion`, `OneRequestWins`).
- A cached lookup can return a location that is marked deleted, right after it was registered
  (`RegisterThenLookup`, both ways), and a stale one after a register that took effect unconfirmed
  (`UnconfirmedThenLookup`, both ways; `StepCoherent`).
- A lookup on the ring can return fewer nodes than there are members, which the header rules out
  (`CollidingMemberIsLost`; `ReplicaCount`).
- A put that misses its quorum, or meets it and fails to register, may have written over a registered
  replica, which then serves bytes that were never acknowledged (`UnacknowledgedIsServed`;
  `PutFaithfulIff`).
- A conditional write that recovery completes loses its request id, so its retry is a version conflict,
  although `include/storage/object_store.h:31-34` says that it is recognised
  (`RecoveredPutForgetsRequest`; `RetryIffOwnWrite`).
- An entry that a restarted leader appends to the Raft log behind a torn tail is lost, at whichever byte
  the frame was torn: with a term below 2^24 and a command of 1 to 65536 bytes, it loads back exactly if
  the tail is empty (`OnlyCleanTailKeeps`, `ProposalAfterCrash`; `AppendBehindTornTail` for all entries).
- WaitApplied can say Ok for a command that was never applied, since its caller reads the term in a lock
  section of its own (`StaleTermMisleads`; `AcknowledgedIffStamped`).

## Model

| member | source | states |
|---|---|---|
| `RaftNode.RaftNode.constructor` | src/consensus/raft_node.cc:24-32 | a restart takes exactly term, vote and log from disk; role, commit index, applied entries and peer tables start empty |
| `RaftNode.RaftNode.StepDownIfStale` | src/consensus/raft_node.cc:94-105 | adopting a newer term clears vote and role, and term and vote are on disk before the method returns |
| `RaftNode.RaftNode.HandleRequestVote` | src/consensus/raft_node.cc:109-152 | the new state and the reply are those of the vote handler of the step relation; disk and memory agree afterwards; a pre-vote changes nothing |
| `RaftNode.RaftNode.TakeEntries` | src/consensus/raft_node.cc:189-199 | the loop that keeps matching entries and drops a conflicting suffix computes Splice, and reports no change only if the log is unchanged |
| `RaftNode.RaftNode.HandleAppendEntries` | src/consensus/raft_node.cc:154-209 | state and reply are those of the append handler; disk and memory agree afterwards; an intact log file stays intact |
| `RaftNode.RaftNode.ApplyCommittedEntries` | src/consensus/raft_node.cc:246-252 | committed entries that were not applied yet are handed over once, in log order |
| `RaftNode.RaftNode.CountHolders` | src/consensus/raft_node.cc:261-268 | the counting loop returns the number of replicas known to hold the log through n, the leader included |
| `RaftNode.RaftNode.Advance` | src/consensus/raft_node.cc:254-275 | the downward search commits the highest index that a majority holds and whose entry is of the current term |
| `RaftNode.RaftNode.Propose` | src/consensus/raft_node.cc:213-224 | a leader appends at its own term to log and file and returns the stamped index, durably if the file had no torn tail; any other node changes nothing |
| `RaftNode.RaftNode.Poll` | src/consensus/raft_node.cc:226-244 | one look of WaitApplied: applied, lost, or not decided |
| `RaftNode.WaitApplied` | src/consensus/raft_node.cc:226-244 | the loop over wake-ups returns what the first look that decides says, and times out if none does |
| `RaftNode.RaftNode.StartPreVote` | src/consensus/raft_node.cc:298-314 | phase 1 of an election asks for pre-votes at the next term and touches neither term nor vote |
| `RaftNode.RaftNode.HandleVoteReply` | src/consensus/raft_node.cc:363-376 | a newer term in a reply is adopted; a grant counts only for the round it belongs to |
| `RaftNode.RaftNode.StartVote` | src/consensus/raft_node.cc:319-344 | the term rises only after a won pre-vote round whose term is still the next one; the own vote is on disk before requests go out |
| `RaftNode.RaftNode.TakeLead` | src/consensus/raft_node.cc:346-351 | a candidate leads exactly if its vote round for the current term is won |
| `RaftNode.RaftNode.ResetPeers` | src/consensus/raft_node.cc:386-393 | next_index is last index plus one and match_index 0 for every peer |
| `RaftNode.RaftNode.MakeRequest` | src/consensus/raft_node.cc:414-435 | the request starts at next_index and carries the log through its last entry |
| `RaftNode.RaftNode.HandleAppendReply` | src/consensus/raft_node.cc:442-459 | a success raises match_index and may commit; a refusal backs next_index up to the conflict index, never to 0 |
| `RaftHandlers.HighestCommittable` | src/consensus/raft_node.cc:254-275 | the result is the highest index above the commit index that may commit, or the commit index itself |
| `RaftLogs.SpliceExact` | src/consensus/raft_node.cc:189-199 | the merge keeps the log if it holds all entries of the request, and otherwise the log up to the first missing or conflicting entry with the entries from there on behind it |
| `RaftLogs.SpliceMeaning` | src/consensus/raft_node.cc:189-199 | against a leader log that matches, the merge yields the leader prefix, or the follower log if that extends it |
| `RaftFrame.MajoritiesMeet` | src/consensus/raft_node.cc:79-79 | any two majorities share a node |
| `RaftFrame.ChoosableShrinks` | src/consensus/raft_node.cc:254-275 | an entry that can no longer be committed by its term never becomes committable again |
| `RaftVoteSteps.UpToDateKeeps` | src/consensus/raft_node.cc:132-149 | a candidate whose log passes the up-to-date test holds every choosable entry that the voter holds |
| `RaftLeaderSteps.WinnerComplete` | src/consensus/raft_node.cc:319-384 | the log of a new leader holds whatever an older term may still commit |
| `RaftAppendStep.AcceptStep` | src/consensus/raft_node.cc:154-209 | accepting entries keeps the whole invariant |
| `RaftLeaderSteps.SubmitStep` | src/consensus/raft_node.cc:213-224 | appending a command as leader keeps the whole invariant |
| `RaftRuns.Step` | src/consensus/raft_node.cc:94-460 | every step of every node, crashes between and inside handlers included, keeps the invariant |
| `RaftRuns.Histories` | src/consensus/raft_node.cc:94-460 | every state of every run satisfies the invariant with a history of votes, leaders and acknowledgements that only grows |
| `RaftSafety.ElectionSafety` | src/consensus/raft_node.cc:319-384 | at most one node ever leads a given term, over the whole run |
| `RaftSafety.LogMatching` | src/consensus/raft_node.cc:175-199 | logs that agree on the term at a position are the same up to it, whichever states of the run they are read in; an entry sits at the position its index names |
| `RaftSafety.RequestMatching` | src/consensus/raft_node.cc:414-434 | the same for a log and an append request in flight |
| `RaftSafety.StateMachineSafety` | src/consensus/raft_node.cc:246-275 | what two nodes have applied, at any two moments, is one sequence and a prefix of it |
| `RaftSafety.LeaderCompleteness` | src/consensus/raft_node.cc:254-275 | whatever is committed by term T is in the log of every leader of every later term |
| `RaftSafety.AppendKeepsCommitted` | src/consensus/raft_node.cc:189-208 | an append request never drops or replaces a committed entry, and commits only what the sender as leader of that term has logged |
| `RaftSafety.CommittedIsKept` | src/consensus/raft_node.cc:94-460 | short of its own crash, a node only ever extends its committed and its applied entries |
| `RaftSafety.ShipsToTheEnd` | src/consensus/raft_node.cc:421-434 | next_index lies between 1 and last index plus one, and a request carries the log from there to its end |
| `RaftSafety.AppendOrigin` | src/consensus/raft_node.cc:414-435 | every append request in the network was made by a leader step of the run |
| `RaftSafety.NewCommitsAreSenders` | src/consensus/raft_node.cc:204-208 | every index a follower newly commits agrees with the log that the sender had when it sent the request |
| `RaftSafety.RunGoesOn` | src/consensus/raft_node.cc:421-422 | whenever the guard of a step holds, its unguarded arithmetic is safe and the run can go on |
| `RaftSafety.ProposedIsLogged` | src/consensus/raft_node.cc:213-221 | the stamped entry is the last one of the proposer log |
| `RaftSafety.AcknowledgedProposal` | src/consensus/raft_node.cc:226-244 | if WaitApplied says Ok for the stamped index and term, the entry applied there, here and on every node that ever applies that index, is the proposed one |
| `RaftWaiting.AwaitDecides` | src/consensus/raft_node.cc:226-244 | from the fields of the states it looks at: WaitApplied times out exactly if the entry is pending at every look; else the first other look decides, Ok exactly if the index is applied there with the given term, lost exactly if there is a newer term or an entry of another term |
| `RaftWaiting.AwaitTells` | src/consensus/raft_node.cc:226-244 | over every run, whenever a caller that proposed looks: it waits exactly while its own entry is pending, is told Ok exactly if that entry is applied, and is told of a loss exactly if the term rose first or another entry took its place |
| `RaftWaiting.AwaitedProposal` | src/consensus/raft_node.cc:226-244 | if it is told Ok, every node that ever applies the index applies that entry there |
| `RaftProgress.AppendMeans` | src/consensus/raft_node.cc:154-209 | over every run: a stale request changes nothing; any other is accepted exactly if the log has the previous entry, and then the entries stand behind it, the commit index is the larger of both, and all of it is applied; a refusal names the first index missing or in conflict |
| `RaftProgress.MajorityIsCommitted` | src/consensus/raft_node.cc:254-275 | over every run: an entry of its term that a leader knows to be on a majority, itself included, is committed and applied by it |
| `RaftProgress.ReplyMeans` | src/consensus/raft_node.cc:442-459 | over every run: a reply of the present term raises match and next index of its sender, or backs next index up to the index it names; it changes nothing about other peers, and other replies nothing at all |
| `RaftProgress.NewerTermAdopted` | src/consensus/raft_node.cc:94-105 | over every run: a delivered packet raises the node to the term it tells of, if newer, and makes it a follower then |
| `RaftVotes.MajorityIsLeast` | src/consensus/raft_node.cc:79-79 | a majority is the least number that is more than half of the group |
| `RaftVotes.VoteRequestOrigin` | src/consensus/raft_node.cc:303-344 | every vote request of either phase tells the end of the log that its candidate had when it asked, for the term after its own |
| `RaftVotes.VoteGrantedIff` | src/consensus/raft_node.cc:134-151 | over every run: a vote is granted exactly if the term is not older, the voter has not promised its vote in that term to another nor run itself, and the log the candidate had covers its own |
| `RaftVotes.PreVoteGrantedIff` | src/consensus/raft_node.cc:117-130 | over every run: a pre-vote is granted exactly if no leader was heard lately, the voter does not lead, the term is not older and the log of the candidate covers its own; it changes no node |
| `RaftVotes.GrantCounts` | src/consensus/raft_node.cc:363-376 | over every run: a granted reply to the present round adds its sender to the count, once; any other reply of no newer term changes nothing |
| `RaftVotes.PreVoteMeans` | src/consensus/raft_node.cc:298-314 | a pre-vote round asks every peer for the next term and touches neither term nor vote |
| `RaftVotes.CampaignMeans` | src/consensus/raft_node.cc:319-344 | a campaign takes a pre-vote round for the next term won by a majority; the node votes for itself and asks every peer |
| `RaftVotes.LeadMeans` | src/consensus/raft_node.cc:386-393 | leading takes a vote round of the present term won by a majority; every next index is behind the last entry and every match index 0 |
| `RaftSafety.AcknowledgedIffStamped` | src/cluster/raft_metadata_repository.cc:61-71 | the caller reads the term in one lock section and proposes in another: Ok means that its command was applied exactly if the term of the node was the same at both moments |
| `RaftStaleTerm.StaleTermMisleads` | src/cluster/raft_metadata_repository.cc:61-71 | in every group of three there is a run in which the term was read before an election: WaitApplied says Ok and another command was applied |
| `RaftPreVote.TermRisesAfterPreVotes` | src/consensus/raft_node.cc:298-337 | the highest term over nodes and messages rises only to the next one, by a node to which a majority has promised a vote in exactly that term |
| `RaftPreVote.CutOffGroupKeepsTerm` | src/consensus/raft_node.cc:298-337 | a group that hears only from itself and is no majority never raises its term |
| `RaftCatchUp.OneRound` | src/consensus/raft_node.cc:451-459 | a refused round lowers next_index, not below 1; an accepted one completes the log of the peer |
| `RaftCatchUp.CatchesUp` | src/consensus/raft_node.cc:451-459 | after next_index rounds the leader log is a prefix of the log of the peer, and stays one |
| `RaftCatchUp.FollowerCatchesUp` | src/consensus/raft_node.cc:414-460 | the same from every reachable state with a leader and a peer that is not ahead of its term; the peer has then applied all that the leader had applied before |
| `Wire.IntRoundTrip` | include/common/wire.h:15-25 | decoding a big-endian integer gives it back, cut to its width |
| `Wire.PutInt` | include/common/wire.h:15-25 | the byte loop appends the big-endian bytes |
| `Wire.PutStr` | include/common/wire.h:27-30 | a string is written as its 32-bit length and its bytes |
| `Wire.Reader.Int` | include/common/wire.h:53-74 | the cursor reads the integer at its position, or refuses and stays |
| `Wire.Reader.Str` | include/common/wire.h:75-86 | the cursor reads a length-prefixed string, or refuses past the end |
| `Wire.StrReadsBack` | include/common/wire.h:75-86 | a written string reads back from inside any buffer |
| `Crc.ComputeCrc32` | include/common/wire.h:34-45 | the nested loop computes the IEEE 802.3 CRC-32, defined byte by byte |
| `CrcVector.CheckValue` | include/common/wire.h:34-45 | the checksum of "123456789" is the published check value |
| `Crc.ChangedBurstDetected` | include/common/wire.h:34-45 | two byte strings of one length that differ, and only within four adjacent bytes, have different checksums |
| `FramedLog.ComputeFrame` | src/consensus/raft_storage.cc:31-37 | a frame is length, body, checksum |
| `FramedLog.ReadFramedRecords` | src/consensus/raft_storage.cc:41-71 | the position loop returns the intact frames up to the first that is torn or corrupt |
| `FramedLog.PrefixReads` | src/consensus/raft_storage.cc:41-71 | the first k bytes of a file read as exactly the records whose frames lie wholly within them, for every k |
| `FramedLog.WholeIsMaximal` | src/consensus/raft_storage.cc:41-71 | that count is the only one whose frames fit while the next does not |
| `FramedLog.FramesReadBack` | src/consensus/raft_storage.cc:31-71 | reading undoes writing |
| `FramedLog.DamageStopsReading` | src/consensus/raft_storage.cc:62-66 | any damage within four adjacent bytes of a body costs that record and what follows, and nothing before it |
| `FramedLog.FrameLayout` | src/consensus/raft_storage.cc:30-37 | a frame is length, body and checksum, the numbers big-endian |
| `RaftStorage.EntryLayout` | src/consensus/raft_storage.cc:17-28 | term, index, length and command of an entry, at fixed places and big-endian |
| `RaftStorage.HardLayout` | src/consensus/raft_storage.cc:171-179 | term, length and vote of the hard state, at fixed places and big-endian |
| `RaftStorage.EntryRoundTrip` | src/consensus/raft_storage.cc:17-28 | decoding a log entry undoes encoding |
| `RaftStorage.LogFileLoads` | src/consensus/raft_storage.cc:89-98 | a log file cut at any byte loads as the entries whose frames are whole; an uncut one as the log |
| `RaftStorage.HardFileLoads` | src/consensus/raft_storage.cc:100-108 | a saved term and vote load back |
| `TornTail.AppendBehindTornTail` | src/consensus/raft_storage.cc:84-98 | behind a frame of an entry of another term, torn at any byte, an appended entry is found again exactly if nothing of the torn frame was left, unless its own head repeats at the length of the tail |
| `TornTail.RepeatsRarely` | src/consensus/raft_storage.cc:17-28 | a head of a term below 2^24 repeats only at 7 or 8 bytes with an empty command, at 9 with a command of 1310720 bytes, or at 11 with one of at least 65537 |
| `TornTail.OnlyCleanTailKeeps` | src/consensus/raft_storage.cc:84-98 | for terms below 2^24 and commands of 1 to 65536 bytes: at every byte of the torn frame, the entry is found again exactly if nothing of the frame was left |
| `TornTail.ProposalAfterCrash` | src/consensus/raft_node.cc:213-224 | over every run: what a node proposes after a crash that tore an append, with the tail still in its log file, is in the file as it loads exactly if the tail is empty |
| `RaftRestart.LeadsNewerTerm` | src/consensus/raft_node.cc:213-224 | over every run, a node that crashed proposes again only in a term newer than the one it crashed in |
| `RaftStorage.Storage.LoadedHardState` | src/consensus/raft_storage.cc:100-108 | the last intact record wins, and defaults hold without one |
| `RaftStorage.Storage.LoadedLog` | src/consensus/raft_storage.cc:91-98 | the loop returns the entries up to the first body that does not decode |
| `RaftStorage.Storage.SaveHardState` | src/consensus/raft_storage.cc:171-179 | the file is replaced by one frame of term and vote |
| `RaftStorage.Storage.AppendEntry` | src/consensus/raft_storage.cc:181-185 | the file grows by one frame |
| `RaftStorage.Storage.RewriteLog` | src/consensus/raft_storage.cc:187-204 | the file becomes the frames of the given entries |
| `Metadata.MetadataRepository.AddNode` | src/cluster/cluster_map.cc:25-34 | a known id is updated in place, a new one joins the table and the ring |
| `Metadata.WithNodeTable` | src/cluster/cluster_map.cc:25-34 | adding a node changes the row of its id only; for a known id the ring, and so every placement, stays |
| `Metadata.MetadataRepository.PlacementFor` | src/cluster/metadata_repository.cc:15-18 | placement is the clockwise preference list cut at the smaller of factor and members |
| `Metadata.MetadataRepository.RegisterObject` | src/cluster/metadata_repository.cc:20-24 | the location replaces what was known of its key, and a live one is found at once |
| `Metadata.MetadataRepository.LookupObject` | src/cluster/metadata_repository.cc:26-33 | a missing or deleted object is not found; a live one is returned |
| `Metadata.MetadataRepository.RemoveObject` | src/cluster/metadata_repository.cc:35-44 | a live object becomes a tombstone without replicas, anything else is NotFound and unchanged |
| `ReplicatedMetadata.RaftMetadataRepository.Apply` | src/cluster/raft_metadata_repository.cc:37-59 | one applied entry changes the repository by its command; one that does not parse changes nothing; the repository stays the fold of all applied entries |
| `ReplicatedMetadata.RaftMetadataRepository.AddBootstrapNode` | include/cluster/raft_metadata_repository.h:44-46 | bootstrap members are added before the first entry, outside the log |
| `ReplicatedMetadata.ReplicasAgree` | src/cluster/raft_metadata_repository.cc:37-59 | in every run, replicas with equal bootstrap and equally many applied entries hold equal repositories; one that lags is an earlier point of the same history |
| `ReplicatedMetadata.AcknowledgedRegister` | src/cluster/raft_metadata_repository.cc:61-86 | after an acknowledged register, every replica that has applied its index answers a lookup with that location until an entry that touches the key is applied |
| `ReplicatedMetadata.AcknowledgedRemove` | src/cluster/raft_metadata_repository.cc:47-49 | after an acknowledged remove, every replica that has applied its index finds nothing under the key until an entry that touches the key is applied |
| `ReplicatedMetadata.AcknowledgedAddNode` | src/cluster/raft_metadata_repository.cc:50-56 | after an acknowledged add, the node is a ring member of every replica that has applied its index, for good, and has the given address until an entry adds its id again |
| `Metadata.WithNodeJoins` | src/cluster/cluster_map.cc:25-34 | adding a node makes its id a ring member, and no member leaves |
| `HashRing.ConsistentHashRing.constructor` | src/cluster/consistent_hash_ring.cc:9-10 | a ring without members; zero virtual nodes count as one |
| `HashRing.ConsistentHashRing.AddNode` | src/cluster/consistent_hash_ring.cc:17-29 | a new node takes its free positions and leaves taken ones to their owners; a known node changes nothing |
| `HashRing.PlacedExact` | src/cluster/consistent_hash_ring.cc:23-28 | adding a node adds exactly its virtual nodes at positions that were free |
| `HashRing.DecimalSpells` | src/cluster/consistent_hash_ring.cc:24-24 | the number of a virtual node is spelled in decimal, without leading zeros |
| `HashRing.ConsistentHashRing.RemoveNode` | src/cluster/consistent_hash_ring.cc:31-44 | exactly the slots of the node go, and the node leaves the member list |
| `HashRing.ConsistentHashRing.LookupPrimary` | src/cluster/consistent_hash_ring.cc:46-56 | the head of the preference list, or nothing on an empty ring |
| `HashRing.ConsistentHashRing.LookupReplicas` | src/cluster/consistent_hash_ring.cc:58-85 | the first occurrences along the clockwise walk, cut at the smaller of count and members |
| `HashRing.WalkIsClockwise` | src/cluster/consistent_hash_ring.cc:66-83 | the walk visits every slot once, in the order of clockwise distance from the key |
| `HashRing.DropPlaced` | src/cluster/consistent_hash_ring.cc:17-44 | removing a node undoes adding it, whatever positions collide |
| `HashRing.AddDisplacesAtMostOne` | src/cluster/consistent_hash_ring.cc:17-29 | adding a node only inserts it into a replica list: the old replicas keep their order and at most the last gives way |
| `HashRing.RemoveKeepsSurvivors` | src/cluster/consistent_hash_ring.cc:31-44 | removing a node keeps all surviving replicas in order; at most one joins behind them |
| `HashRing.ReplicaCount` | src/cluster/consistent_hash_ring.cc:58-85 | a lookup returns min(count, members) replicas exactly if enough members still own a slot |
| `HashRing.CollidingMemberIsLost` | include/cluster/consistent_hash_ring.h:42-45 | with a total collision a member is never a replica, so the header promise on the number of replicas fails |
| `LruCache.LruCache.constructor` | include/common/lru_cache.h:20-20 | an empty cache; capacity zero counts as one |
| `LruCache.LruCache.Get` | include/common/lru_cache.h:23-32 | a hit returns the value and moves the entry to the front, a miss changes nothing; hits and misses are counted |
| `LruCache.LruCache.Put` | include/common/lru_cache.h:36-50 | the entry goes to the front with the new value; a new key beyond the capacity evicts the last entry |
| `LruCache.LruCache.Erase` | include/common/lru_cache.h:53-59 | exactly the entry of the key goes |
| `LruCache.LinkedSize` | include/common/lru_cache.h:77-83 | index and list have the same size |
| `LruSpec.RunInOrder` | include/common/lru_cache.h:23-59 | over every run keys are distinct and within capacity, entries stand in order of last use, and each has the value put last |
| `LruSpec.EvictsLeastRecent` | include/common/lru_cache.h:36-50 | a key leaves only if erased, or as the least recently used one when a new key needs its place |
| `CachingView.CachingMetadataView.constructor` | include/cluster/caching_metadata_view.h:25-26 | an empty, hence coherent, cache over the repository |
| `CachingView.CachingMetadataView.LookupObject` | include/cluster/caching_metadata_view.h:32-46 | a coherent view answers what the inner view would, and stays coherent; a hit is served even if the inner view fails |
| `CachingView.CachingMetadataView.RegisterObject` | include/cluster/caching_metadata_view.h:48-55 | a confirmed register fills the cache; the view stays coherent exactly if the request does not spoil it |
| `CachingView.CachingMetadataView.RemoveObject` | include/cluster/caching_metadata_view.h:57-62 | the entry is dropped whatever becomes of the remove, and the view stays coherent |
| `CachingView.StepCoherent` | include/cluster/caching_metadata_view.h:32-62 | a coherent view agrees with the inner one, and stays coherent exactly unless a deleted location is registered or an unconfirmed register hits another cached location |
| `CachingView.CachedRunAgrees` | include/cluster/caching_metadata_view.h:32-62 | every sequential run that spoils nothing gets the answers it would get without the cache |
| `CachingView.RegisterThenLookup` | include/cluster/caching_metadata_view.h:48-55 | right after a confirmed register, the cached lookup agrees with the inner view exactly if the location is live |
| `CachingView.UnconfirmedThenLookup` | include/cluster/caching_metadata_view.h:48-55 | right after a register that took effect unconfirmed, it agrees exactly if the key is not cached, or cached with that live location |
| `Wal.RecordRoundTrip` | src/storage/wal.cc:88-125 | decoding a record undoes encoding |
| `Wal.BodyLayout` | src/storage/wal.cc:87-100 | where each field of a record is in its body, big-endian |
| `Wal.ComputeBody` | src/storage/wal.cc:88-100 | the writers produce the encoding field by field |
| `Wal.ParseBody` | src/storage/wal.cc:102-125 | the reader decodes, or refuses a short body |
| `Wal.Replay` | src/storage/wal.cc:214-249 | the position loop returns the records up to the first frame that is torn, corrupt or undecodable |
| `Wal.CutReplays` | src/storage/wal.cc:222-248 | a log cut at any byte replays as the records whose frames are whole |
| `Wal.TornAppend` | src/storage/wal.cc:155-181 | a crash inside an append leaves the log as before it |
| `Wal.Log.constructor` | src/storage/wal.cc:129-147 | the sequence continues past every record on disk |
| `Wal.Log.NextSeq` | include/storage/wal.h:46-46 | each call returns a fresh number |
| `Wal.Log.AppendRecord` | src/storage/wal.cc:155-181 | the file grows by the frame of the record, whatever it holds |
| `Wal.Log.Truncate` | src/storage/wal.cc:203-212 | the log replays as empty and the sequence restarts at 1 |
| `LocalObjectStore.LocalObjectStore.constructor` | src/storage/local_object_store.cc:115-150 | opening runs recovery to its end from whatever the disk holds, a torn log tail included, and leaves no staging files |
| `LocalObjectStore.LocalObjectStore.Recover` | src/storage/local_object_store.cc:152-210 | the two loops and the checkpoint are the recovery steps of the state machine, one per record; no staging file is left |
| `LocalObjectStore.LocalObjectStore.CommittedSeqs` | src/storage/local_object_store.cc:153-159 | the first pass collects the sequence numbers of all COMMIT records |
| `LocalObjectStore.LocalObjectStore.RecoverRow` | src/storage/local_object_store.cc:161-198 | an unresolved put is completed if newer and its payload is intact, an unresolved delete is applied, anything else is skipped |
| `LocalObjectStore.LocalObjectStore.DoPut` | src/storage/local_object_store.cc:248-319 | a recognised retry or a version conflict changes nothing; otherwise the effect is that of all stages of a put |
| `LocalObjectStore.LocalObjectStore.Put` | src/storage/local_object_store.cc:212-221 | an empty key is refused; otherwise the key gets the next version with the size and checksum of the data, its file holds the data, and nothing else changes |
| `LocalObjectStore.LocalObjectStore.PutWithVersion` | src/storage/local_object_store.cc:223-234 | an empty key or version 0 is refused; otherwise the same with that version |
| `LocalObjectStore.LocalObjectStore.PutConditional` | src/storage/local_object_store.cc:236-246 | a conflict exactly if the version differs and the row does not carry the request id; a carried id returns the row and changes nothing; otherwise the key gets the version after the expected one, with the data in its file |
| `LocalObjectStore.LocalObjectStore.Delete` | src/storage/local_object_store.cc:350-363 | Ok exactly for a live object, whose row becomes a tombstone; no file changes; the effect is a run of the delete stages, or of those up to NotFound |
| `LocalObjectStore.LocalObjectStore.Get` | src/storage/local_object_store.cc:321-343 | bytes are returned exactly if the row is live and they have its checksum; NotFound, an I/O error and a checksum mismatch exactly in the three other cases |
| `LocalObjectStore.PutRuns` | src/storage/local_object_store.cc:293-318 | the stages of a put, run in sequence, have the effect of the put |
| `LocalObjectStore.DeleteRuns` | src/storage/local_object_store.cc:350-363 | the same for a delete, with and without an object |
| `LocalObjectStore.ReopenReachesOutcome` | src/storage/local_object_store.cc:152-210 | reopening after a crash leaves every key with its outcome and the log empty |
| `LocalObjectStore.PutThenRead` | src/storage/local_object_store.cc:321-343 | a completed put can be read back |
| `LocalObjectStore.NotFoundDeleteUndoesPut` | src/storage/local_object_store.cc:353-359 | a delete that returned NotFound, a later acknowledged put and a crash: recovery deletes the object |
| `LocalObjectStore.RestartUndoesRecovery` | src/storage/local_object_store.cc:152-210 | a NotFound delete, a put cut after its payload was placed, and a crash when recovery has completed the put: the object is deleted again |
| `LocalObjectStore.OldExplicitVersionBreaks` | src/storage/local_object_store.cc:276-277 | an older explicit version over a live row and a crash after the rename: row and payload disagree |
| `StoreInvariant.StepInv` | src/storage/local_object_store.cc:152-363 | every step keeps the shape of log, flights and sequence numbers |
| `StoreInvariant.RunInv` | src/storage/local_object_store.cc:152-363 | hence every state of every run has it |
| `StoreRecovery.RecoverOneOutcome` | src/storage/local_object_store.cc:161-198 | one step of recovery does not change what recovery reaches |
| `StoreRecovery.CheckpointOutcome` | src/storage/local_object_store.cc:208-209 | when recovery is through, the rows are the outcome and the log is empty |
| `StoreRecovery.UpOutcome` | src/storage/local_object_store.cc:161-198 | the outcome of a crash in closed form: what stale deletes leave, then what the operation under way leaves |
| `StoreRecovery.IdleOutcomeIff` | src/storage/local_object_store.cc:353-359 | a crash leaves an idle key as it is exactly if no delete that found nothing is left in the log while the key is live |
| `StoreRecovery.FlightOutcome` | src/storage/local_object_store.cc:293-318 | without such a delete, a crash at any stage leaves the key as before or as after, and as after once the row is written |
| `StoreRecovery.FlightOutcomeIff` | src/storage/local_object_store.cc:190-196 | before or after fails exactly if a stale delete meets a live row that nothing rescues: no delete under way, no newer payload in place, no row rewritten as its own tombstone had it |
| `StoreRecovery.PlacedOutcomeIff` | src/storage/local_object_store.cc:171-173 | a crash after the rename breaks the object exactly if the explicit version is not newer than a live row with another checksum and no stale delete removes that row |
| `StoreRecovery.RestartIff` | src/storage/local_object_store.cc:152-210 | a crash inside recovery changes what recovery reaches exactly if it was past all records of a live key that has an unresolved delete |
| `StoreSafety.AcknowledgedKept` | src/storage/local_object_store.cc:248-363 | in every run exactly one row is expected of a key while the store is up: the present one if idle, the one before an operation under way; while it is down recovery reaches that row or the one of the operation that the crash cut |
| `StoreSafety.StaleMeansNotFound` | src/storage/local_object_store.cc:353-359 | a stale delete in the log comes from a delete on that key that returned NotFound since the last open |
| `StoreSafety.StaleIffMissed` | src/storage/local_object_store.cc:353-359 | there is a stale delete exactly if a delete on the key returned NotFound since the last open, so callers can tell from their replies |
| `StoreVersions.Integrity` | src/storage/local_object_store.cc:152-319 | with harmless explicit versions, a live row always has a payload with its checksum, and every recovery leaves it so |
| `StoreVersions.VersionCountsWrites` | src/storage/local_object_store.cc:254-291 | without explicit versions, the version of a key is the number of rows written for it and never falls |
| `StoreVersions.AtMostOneWins` | src/storage/local_object_store.cc:254-282 | two writes that were told Ok for the same version carry the same non-empty request id |
| `StoreVersions.OneRequestWins` | src/storage/local_object_store.cc:254-282 | two Ok conditional writes that expect one version are the same request, unless one is answered with what was written for a call that used its request id with another expected version |
| `StoreVersions.ConditionalVersion` | src/storage/local_object_store.cc:278-279 | what a conditional write is told Ok for was written for a call with its request id; it is the version after the expected one exactly if that call was made in the same way |
| `LocalObjectStore.ReusedIdWinsAgain` | src/storage/local_object_store.cc:260-264 | a request id used with two expected versions is told Ok for both |
| `StoreRetries.RetryIffOwnWrite` | src/storage/local_object_store.cc:258-264 | at any moment of a run, the retry of the conditional call behind the current row is recognised exactly if the call wrote the row itself; if recovery did, it is a version conflict |
| `StoreRetries.RecordCaller` | src/storage/local_object_store.cc:295-296 | every BEGIN of a put was logged by a call that was given exactly its version |
| `LocalObjectStore.RecoveredPutForgetsRequest` | src/storage/local_object_store.cc:176-185 | a conditional put that recovery completes is there at its version, and its retry is refused as a conflict |
| `Sha256Meaning.RoundConstantIsRoot` | src/common/sha256.cc:11-19 | each round constant holds the first 32 fractional bits of the cube root of its prime |
| `Sha256Meaning.InitIsRoot` | src/common/sha256.cc:8-9 | each word of the initial state holds the first 32 fractional bits of the square root of its prime |
| `Sha256Meaning.PrimesInOrder` | src/common/sha256.cc:11-19 | the primes meant are all primes in order, from 2 on |
| `Sha256Meaning.ChSelects` | src/common/sha256.cc:52-52 | Ch is y on bits set in x and z on bits clear in x |
| `Sha256Meaning.MajAgrees` | src/common/sha256.cc:55-55 | Maj agrees with any two arguments that agree |
| `Sha256Meaning.RotrTop` | src/common/sha256.cc:21-21 | rotation moves the low n bits to the top |
| `Sha256Meaning.RotrRest` | src/common/sha256.cc:21-21 | rotation moves the other bits down by n |
| `Sha256Vector.AbcDigest` | src/common/sha256.cc:33-135 | the digest of "abc" is the published one |
| `Sha256.Schedule` | src/common/sha256.cc:34-45 | the message schedule of section 6.2.2 of FIPS 180-4, whose terms the code adds in another order |
| `Sha256.ProcessBlock` | src/common/sha256.cc:33-76 | one block is compressed into the state as section 6.2.2 says |
| `Sha256.Sha256.Reset` | src/common/sha256.cc:27-31 | the state of the empty message |
| `Sha256.Sha256.Fill` | src/common/sha256.cc:83-94 | one turn of the loop of Update: a chunk is buffered and a full buffer compressed |
| `Sha256.Sha256.Update` | src/common/sha256.cc:78-96 | however the input is cut into calls, the object holds the hash state of its concatenation |
| `Sha256.Sha256.Pad` | src/common/sha256.cc:100-106 | the padding loop ends with the zeros of section 5.1.1 |
| `Sha256.Sha256.HexDigest` | src/common/sha256.cc:98-127 | the digest is that of the padded message hashed block by block |
| `Sha256.PadZerosIsLeast` | src/common/sha256.cc:100-106 | the number of zeros is the least that leaves room for the length field |
| `Sha256.BlocksSnoc` | src/common/sha256.cc:33-76 | hashing one more block extends the hash of the blocks before it |
| `Sha256.Sha256Hex` | src/common/sha256.cc:129-133 | the one-shot function hashes its argument |
| `Quorum.Coordinator.Put` | src/network/coordinator.cc:41-103 | Ok exactly with a quorum of acknowledgements and a confirmed register, then the location has the version after the last, checksum and size of the data and the acknowledging replicas in placement order; replica health tells who acknowledged; a failed placement, lookup or register is a case |
| `Quorum.Coordinator.FanOut` | src/network/coordinator.cc:54-77 | each acknowledging replica holds the copy, in placement order |
| `Quorum.Coordinator.Get` | src/network/coordinator.cc:171-200 | the bytes of the first registered replica that serves the object, or the reply of the last one asked, an unreadable payload file included; health marks for every replica asked |
| `Quorum.Coordinator.Delete` | src/network/coordinator.cc:202-222 | replicas that answer drop their copy and the location goes only with a quorum; a failed or unconfirmed remove is reported; health tells who answered |
| `Quorum.Repairer.RepairNode` | src/network/repairer.cc:17-66 | an unknown target or a failed listing changes nothing; each counter is the number of objects with that verdict, judged by what the nodes held before the repair, and they add up to the live objects placed on the target |
| `Quorum.Repairer.RepairObject` | src/network/repairer.cc:29-63 | one object is copied from the first replica that answers with the registered checksum, or counted as failed; whether the register after it succeeds does not show |
| `Quorum.JudgeIff` | src/network/repairer.cc:29-63 | the verdict on an object by what the nodes hold: placed or not, listed or not, and whether some replica that answers holds bytes under the registered checksum |
| `Quorum.JudgedAsBefore` | src/network/repairer.cc:26-63 | repairing objects does not change the verdict on those behind them |
| `Quorum.MarkedMeans` | src/network/coordinator.cc:181-198 | a read marks exactly the replicas it asked: healthy for bytes, failed if unreachable, lagging for a checksum mismatch, and not at all otherwise |
| `Quorum.PutIsServed` | src/network/coordinator.cc:54-77 | after a put that is tried, the nodes that acknowledged it serve the data, and no other reply of any node changes |
| `Quorum.DeletedIsGone` | src/network/coordinator.cc:202-222 | after a delete, the nodes that acknowledged it answer NotFound for the key, and no other reply of any node changes |
| `Quorum.GetIsFaithful` | src/network/coordinator.cc:171-200 | a read returns only bytes under the registered checksum, and succeeds exactly if some registered replica can serve |
| `Quorum.PutFaithfulIff` | src/network/coordinator.cc:79-101 | a put keeps registered replicas faithful exactly if it does not fail to register, for want of a quorum or of the metadata service, after writing over one of them |
| `Quorum.UnacknowledgedIsServed` | src/network/coordinator.cc:79-101 | a put that missed its quorum, or met it and could not register, is served by a registered replica that it wrote over |
| `Quorum.PutSurvives` | src/network/coordinator.cc:41-103 | after a put that registered, whatever happens to fewer nodes than the write quorum, a read finds bytes with the checksum of the data |
| `Quorum.RepairFaithful` | src/network/repairer.cc:41-60 | repair never spreads bytes other than the registered ones, whichever of its calls fail |
| `Quorum.CopiedIsServed` | src/network/repairer.cc:52-58 | the target serves a copied object under the registered checksum, and is listed as a replica exactly if the register succeeded |
| `Quorum.ReadsLastPut` | src/network/coordinator.cc:171-200 | over every run of puts, deletes, repairs, joins, outages of nodes and metadata service, and corruption, a successful read has the checksum of the last put that registered, which was acknowledged unless its reply was lost |

## Left out

- TornTail.AppendBehindTornTail: says nothing of a tail of 6, 7, 8, 9 or 11 bytes behind which the head of
  the new frame repeats itself; there the checksum alone decides. RepeatsRarely shows that for terms below
  2^24 this takes an empty command or one of 65537 bytes or more. The two entries are of different terms,
  which LeadsNewerTerm proves of every run.
- RaftNode.RaftNode.Poll: one look of WaitApplied; the loop over looks is RaftNode.WaitApplied, where the
  condition variable and the deadline are the sequence of states that it wakes up to.
- RaftNode.RaftNode.HandleAppendEntries: takes entries that are numbered on from the previous index, which
  RunGoesOn proves of every request in a run; terms and sizes fit their fields on disk.
- Raft terms, indices and the write-ahead sequence beyond 2^64, and writes of the Raft files that fail,
  whose status the node ignores.
- A pre-vote reply that answers an earlier round for the same term counts in the model; the code pairs
  replies with rounds, so the model has more runs than the code.
- The leader hint of a Raft node, its timers, random delays and the lease that pre-vote reads from the
  clock, beyond their being nondeterministic; liveness beyond follower catch-up.
- The serialisation of metadata commands and the SQL engine under the metadata rows, whose writes count as
  durable.
- Concurrent callers of the caching view: it reads the repository outside its lock, so only sequential runs
  are claimed.
- Coordinator::PutConditional: what it registers depends on clients that resend identical data.
- I/O errors of the object store, Head and List.
- ListObjects of the repository: repair takes any listing of the live objects, each once.
- Calls to nodes and to the metadata service that take effect after the call that made them has returned.
- The HTTP gateway, RPC servers and clients, command line, metrics, logging, thread pool and failure detector.
- How evenly the ring spreads keys, and the SHA-256 based hash that feeds it.
