# factomd: protocols, indexes and receipts

This project models the stateful core of factomd, the node of the Factom blockchain, and proves what
that core promises over whole runs.

* **Messages** (`Parcels`, `PartsAssembler`, `Channels`, `Last100`): payloads are split into parcels and
  put together again under any arrival order, duplication, interleaving and timed cleanup; channels
  drop their oldest entries instead of blocking; a ring remembers the last hundred messages of a peer.
* **Peers** (`Connection`, `ConnectionManager`, `Controller`): the redial and ping state machine of a
  connection with its ranking function, the manager whose map, address index and counters have to
  agree, and the controller that never dials more peers than it wants.
* **Elections** (`ElectionSupport`, `Elections`, `AuthoritySet`, `VolunteerControl`, `VotingElection`):
  sorted server lists, the choice of the volunteer, the guard that keeps a majority of a block's
  starting leaders, and the votes a leader casts until it commits. `VotingElection.Answers` is the whole
  of a leader's behaviour as a relation; the methods are proved to follow it, and what a leader keeps and
  when it makes progress is proved from it.
* **Receipts** (`Merkle`, `Receipts`): the Merkle tree store and its branches, receipts made from two
  blocks, their trimming, and the two verifiers.
* **Node state** (`HoldingList`, `CompletedHeights`, `FaultRing`): messages held for a dependency, the
  sliding window of completed heights, and the ring of machines whose faults are marked and cleared.
* **Simulation and display** (`SimNetwork`, `Factoid`): the "tree" topology, and the printing of amounts.
* `Options`, `Sets` and `Words` hold what the others share.

Each component is a class with the source's fields, whose methods are proved equal to a step on a
value; the lemmas then speak about every sequence of steps.

Conventions. A hash or chain identifier is a number (its 32 bytes read from the left), so comparing
numbers is comparing bytes. Hash and checksum functions are parameters, and a lemma that needs them
free of collisions says so. Clocks, dial results and arriving messages are parameters. A channel is
the sequence of what is in it. `VotingElection` and `Receipts` keep the source's order of checks.

Where the code and its description disagree, the model follows the code:

* `receipts/receipts.go:85` tests whether the hash below is a side of the node in a way that is never
  true. `Receipts.AcceptedFullChainedIffLinked` says exactly when an accepted full receipt proves its
  entry all the same.
* `elections/elections.go:146` looks the audit server up in the federated list.
  `Elections.RemoveAuditExactly` and `Elections.DisjointExactly` say exactly what that costs.
* The 16-bit part count of a parcel wraps. `PartsAssembler.ReassemblableIffCountFits` is the limit.
* `p2p/connection.go:58-65` speaks of one dial of an initialized connection; the code goes offline
  first and redials. `Connection.InitializedDialsOnceIff` says exactly when it dials once.
* The shutdown state is described as the end; `Connection.ShutdownIsFinalIff` says exactly when it is.
* `common/primitives/merkle.go:88` lets an index equal to the number of leaves through;
  `Merkle.BuildMerkleBranch` and `Merkle.PastEndPanicsIff` say exactly what then happens.
* The guard on replacing leaders sees the process list, but a swap is executed there only later.
  `AuthoritySet.MajorityKeptIff` says exactly when the starting leaders keep their majority.
* A hash added again to the history of a peer can be forgotten too early; `Last100.RemembersExactly` says
  exactly when it is remembered.
* `ConnectionManager.RemovedAgreesIff` says when removing a connection keeps the manager's parts exact.
* An end of minute of a height so large that ten times it wraps can be dropped as passed;
  `HoldingList.EndOfMinuteJudgedIff` says exactly when.
* The score of a connection is a wrapped 32-bit number; `Controller.BanEndsIff` says exactly when a ban ends
  a connection.
* `engine/SimPeer.go:73` compares the wrong field; `SimNetwork.EqualPairMeansLinked` shows that the
  duplicate check is right all the same.

## Model

| member | source | states |
|---|---|---|
| `Merkle.BuildMerkleTreeStore` | `common/primitives/merkle.go:51-70` | The flat store is the leaves followed by every level above them, the last leaf of an odd level paired with itself. |
| `Merkle.TreeStoreEndsInRoot` | `common/primitives/merkle.go:50-70` | The last hash of the store is the root as defined level by level, for every list of leaves. |
| `Merkle.ComputeMerkleRoot` | `common/primitives/merkle.go:45-48` | The root of the tree; the zero hash for no leaves. |
| `Merkle.NodeAboveParent` | `common/primitives/merkle.go:106-126` | The node built above a position holds the position's hash on the side of its parity and has the parent as its top, also when only the sibling is kept. |
| `Merkle.StoreAt` | `common/primitives/merkle.go:107-130` | The offset arithmetic is right: at every level the position, its parent and the rest of the tree are found at the computed places of the flat store. |
| `Merkle.BuildMerkleBranch` | `common/primitives/merkle.go:87-133` | For an index of a leaf, the leaf's branch in the tree, in full or with siblings only. Of the indices past the end exactly those above the number of leaves give nil: an index equal to it is let through, panics if and only if the number of leaves is a power of two above one, and otherwise gives nodes that belong to no leaf. |
| `Merkle.PastEndPanicsIff` | `common/primitives/merkle.go:88-131` | Reading from one place past the end of a level leaves the store if and only if the width is a power of two above one. |
| `Merkle.PastEndBranchIsNoBranch` | `common/primitives/merkle.go:88-131` | Three leaves and index 3: nodes are returned whose first mixes two levels and which are chained from no hash. |
| `Merkle.ReadFromLeaf` | `common/primitives/merkle.go:99-131` | From a leaf the same reading gives the branch of the leaf. |
| `Merkle.BuildMerkleBranchForHash` | `common/primitives/merkle.go:78-85` | A branch exactly for a hash that is a leaf, and then that of its first occurrence. |
| `Merkle.BranchReachesRoot` | `common/primitives/merkle.go:87-133` | Completeness: for every leaf of every tree the full branch is chained, as long as the tree is deep, and climbs from the leaf to the root. |
| `Merkle.StrippedReachesRoot` | `common/primitives/merkle.go:107-126` | So does the branch with siblings only, and its left/right pattern is the leaf's path. |
| `Merkle.MinimalBranchUnique` | `common/primitives/merkle.go:34-42` | With a collision-free hash, two sibling-only branches of one left/right pattern that reach one hash start from the same hash and are equal. |
| `Merkle.MembershipSound` | `common/primitives/merkle.go:87-133` | Soundness: with a collision-free hash, whatever climbs to the root along the path of a leaf is that leaf, and its branch is the one the tree gives. |
| `Receipts.Validate` | `receipts/receipts.go:42-112` | Accepts exactly the receipts with all parts whose running hash meets every stored top, the entry block key and the directory block key; the error names the first part missing or wrong. |
| `Receipts.ValidateBranch` | `receipts/receipts.go:58-111` | The loop decides acceptance for a receipt with all its parts and blames the first node that fails. |
| `Receipts.TrimReceipt` | `receipts/receipts.go:24-40` | In place, every node loses its top and the side equal to the top of the node before (the entry hash for the first node). |
| `Receipts.TrimRoundTrip` | `receipts/receipts.go:24-40` | On a chained branch trimming leaves one side and no top per node, refilling with the running hash restores the branch, and the hash reached is the same. |
| `Receipts.TrimKeepsBelow` | `receipts/receipts.go:24-112` | On a chained branch the running hash before every node is the same after trimming. |
| `Receipts.TrimKeepsVerdict` | `receipts/receipts.go:24-112` | Validate gives a chained receipt the same verdict before and after trimming. |
| `Receipts.VerifyFullReceipt` | `receipts/receipts.go:373-396` | Accepts exactly the valid receipts whose nodes all have both sides and a top; otherwise gives the error of Validate, or names the first missing field. |
| `Receipts.VerifyMinimalReceipt` | `receipts/receipts.go:398-424` | Accepts exactly the valid receipts whose nodes all have one side and no top; otherwise gives the error of Validate, or names the first offending node. |
| `Receipts.FullBecomesMinimal` | `receipts/receipts.go:24-40` | A chained receipt the full verifier accepts becomes, trimmed, one the minimal verifier accepts. |
| `Receipts.UnlinkedFullReceiptAccepted` | `receipts/receipts.go:82-89` | For every hash function there is a full receipt that is accepted although its entry hash is on neither side of its only node: the test at line 85 negates itself. |
| `Receipts.FullVerdictIgnoresEntry` | `receipts/receipts.go:64-112` | On two-sided nodes the verdict does not depend on the entry hash at all. |
| `Receipts.AcceptedFullChainedIffLinked` | `receipts/receipts.go:64-112` | The exact condition: an accepted full receipt proves its entry if and only if each hash below is one of the two sides above it, which needs no hashing to check. |
| `Receipts.MinimalReceiptBindsEntry` | `receipts/receipts.go:64-112` | With a collision-free hash, two accepted minimal receipts that reach one key over prefixes of one length and left/right pattern have the same entry hash and the same siblings. |
| `Receipts.MinimalReceiptProvesEntry` | `receipts/receipts.go:398-424` | With a collision-free hash, an accepted minimal receipt that reaches the key of a directory block over a branch shaped like the path through its entry j and entry i of the entry block listed there has the hash of entry i, passes the entry block key, and has the branch the two blocks give. |
| `Receipts.CreateReceipt` | `receipts/receipts.go:268-371` | Succeeds exactly if the entry, where it is wanted, the entry block and the directory block are found; the error is the first of them that is missing. The receipt names the entry, its hash and the keys of its two blocks, its branch goes through both headers, and for an entry listed in its blocks it is chained from the entry to the directory block key and passes the full verifier. Height and timestamp are those of the blocks. |
| `Receipts.FindTimestamp` | `receipts/receipts.go:351-368` | The block's time plus the minute of the first marker at or after the entry; 0 without one. |
| `Receipts.CreateMinimalReceipt` | `receipts/receipts.go:257-266` | Succeeds in the same cases. The receipt names the entry hash and the keys of its two blocks; for an entry listed in its blocks it passes the minimal verifier, and refilled it is chained from the entry to the directory block key and passes the full one. |
| `Receipts.TrimRefills` | `receipts/receipts.go:257-266` | Refilling a trimmed chained receipt gives back the receipt it was made from. |
| `Receipts.BlockNodesChained` | `receipts/receipts.go:293-345` | A block's branch followed by its header node is chained from the leaf to the key of the block. |
| `Receipts.TwoBlocksAccepted` | `receipts/receipts.go:293-345` | Two chained parts, one ending in the entry block key and the next in the directory block key, concatenate to a receipt the full verifier accepts. |
| `Receipts.FlatListHasBodyRoot` | `common/directoryBlock/directoryBlock.go:302-361` | The directory block's body root over chain/key pairs is the root over the flat list that the branch is built on. |
| `Parcels.ParcelsForPayload` | `p2p/parcel.go:94-114` | The parcels have consecutive numbers and the chunks of the payload in order, and joined they are the payload. |
| `Parcels.ChunksCoverPayload` | `p2p/parcel.go:94-114` | For every payload and chunk size the chunks laid end to end are the payload, also where its size is a multiple of the chunk size. |
| `Parcels.ReassembleParcel` | `p2p/parcel.go:116-136` | One parcel with the joined payloads and the header fields of the first part; what they are worth is in the next two rows. |
| `Parcels.ReassembledKeepsOrigin` | `p2p/parcel.go:116-136` | Parts of one network, sender, target, address and port make a message parcel of the same, whose length and checksum are those of its payload. |
| `Parcels.PartSaysWhatItIs` | `p2p/parcel.go:74-114` | A part sent has the network, the port we listen on and no target or address yet, is marked as a part, has its number and the total where they fit in 16 bits, and its length and checksum describe its bytes. |
| `PartsAssembler.PartsAssembler.HandlePart` | `p2p/parts_assembler.go:42-71` | The stored messages and the output are those of the abstract step, and the store stays well formed; what a run of such steps delivers is in the rows below. |
| `PartsAssembler.PartsAssembler.StorePart` | `p2p/parts_assembler.go:52-58` | The part is put at its number, into the message's partial or a new one; other messages are untouched. |
| `PartsAssembler.PartsAssembler.CleanupOldPartialMessages` | `p2p/parts_assembler.go:109-119` | Deletes exactly the messages that have waited longer than ten minutes since their last part, by the clock as read for each. |
| `PartsAssembler.ValidateParcelPart` | `p2p/parts_assembler.go:74-105` | Accepts exactly parts with a number below a positive total that fits the partial already stored. |
| `PartsAssembler.TryReassemblingMessage` | `p2p/parts_assembler.go:131-139` | A parcel exactly when no part is missing. |
| `PartsAssembler.WithPartStored` | `p2p/parts_assembler.go:52-58` | A stored part is at its number among as many places as it announces; the time of the first part is kept and that of the last is now. |
| `PartsAssembler.StoredHasArrived` | `p2p/parts_assembler.go:42-71` | In every run every part in the store is one that arrived, under its own message. |
| `PartsAssembler.DeliveredNamesItsOrigin` | `p2p/parts_assembler.go:42-139` | In every run: if all parts of a message that arrive have one origin (network, sender, target, address, port), the parcel delivered has it too, is a message, and its length and checksum describe its payload. |
| `PartsAssembler.HandleKeepsWellFormed` | `p2p/parts_assembler.go:42-71` | After every arrival each stored message has part i at index i, at least one part present and at least one missing. |
| `PartsAssembler.PartMirrors` | `p2p/parts_assembler.go:42-71` | An arriving part is always taken and delivers the payload exactly when it completes the set of parts received since the last delivery or drop. |
| `PartsAssembler.OtherMirrors` | `p2p/parts_assembler.go:42-119` | Parts of other messages do not touch this one, except that the cleanup they trigger may drop it. |
| `PartsAssembler.DeliversExactlyOnCompletion` | `p2p/parts_assembler.go:42-139` | Over every run of arrivals (any order, duplicates, other messages between, cleanups) a call returns a parcel exactly if it completes the set of parts, and its payload is the original. |
| `PartsAssembler.EveryPartArrivedIsDelivered` | `p2p/parts_assembler.go:42-139` | If every part arrives, in whatever order and however often, and no cleanup comes longer than the waiting time after the message's most recent part, the message is delivered, however long the whole run takes. |
| `PartsAssembler.OwnPartStep` | `p2p/parts_assembler.go:42-71` | A part that comes in time and completes nothing is added to those received, and its time is the one the next cleanups go by. |
| `PartsAssembler.OtherPartStep` | `p2p/parts_assembler.go:109-119` | A part of another message that comes in time leaves the parts received as they are. |
| `PartsAssembler.SentIsPartOf` | `engine/p2pProxy.go:217-225` | Every parcel sent for a message is a part the assembler recognises, when the number of parts fits in 16 bits. |
| `PartsAssembler.TooManyPartsNeverReassembled` | `p2p/parcel.go:94-114` | With 65536 parts or more the 16-bit part count wraps and no run of sent parcels delivers the payload. |
| `PartsAssembler.ReassemblableIffCountFits` | `p2p/parcel.go:94-136` | The exact limit: some run of sent parcels is reassembled into the payload if and only if the number of parts fits in 16 bits. |
| `ElectionSupport.Sort` | `elections/support.go:13-31` | The early-exit bubble sort yields a sorted permutation and returns true exactly if the input was not sorted. |
| `ElectionSupport.Pass` | `elections/support.go:15-27` | One pass moves the largest of the unsettled servers to the end, keeps the settled ones, and reports no swap exactly if the list was sorted. |
| `ElectionSupport.SortedUnique` | `elections/support.go:13-31` | A sorted list with the elements of a strictly sorted one is that list, so the result of sorting is determined. |
| `ElectionSupport.Order` | `elections/support.go:35-46` | Each server's priority is the hash of height, minute, index and its own chain. |
| `ElectionSupport.PrefixTells` | `elections/support.go:35-46` | The bytes hashed spell the height, the minute and the index within their widths, so they are equal exactly if these agree. |
| `ElectionSupport.MaxIdx` | `elections/support.go:49-56` | The first index of the largest priority; 0 for an empty list. |
| `ElectionSupport.SameChoice` | `elections/support.go:35-56` | With a collision-free hash, the chosen servers of two permuted copies of one list are the same. |
| `Elections.Election.GetFedServerIndex` | `elections/elections.go:154-163` | The first index of the server, or -1 exactly if it is not federated. |
| `Elections.Election.GetAudServerIndex` | `elections/elections.go:165-174` | The first index of the server, or -1 exactly if it is not an audit server. |
| `Elections.Election.AddFederatedServer` | `elections/elections.go:95-114` | A known server changes nothing; a new one gives a sorted permutation of the list with it; the index returned is where the server is; the audit list does not change. |
| `Elections.Election.AddAuditServer` | `elections/elections.go:116-133` | Likewise for the audit list, and a new audit server leaves the federated list. |
| `Elections.Election.RemoveFederatedServer` | `elections/elections.go:135-143` | The server leaves the federated list if it is there. |
| `Elections.Election.RemoveAuditServer` | `elections/elections.go:145-152` | Removes from the audit list whatever stands at the server's federated index; panics if that is past its end. |
| `Elections.Election.AuditPriority` | `elections/elections.go:290-298` | Grows the round counters to the electing index and returns the audit server whose priority is highest. |
| `Elections.RunKeepsOrdered` | `elections/elections.go:95-143` | Every sequence of additions and removals from strictly sorted lists keeps both lists strictly sorted. |
| `Elections.FederatedMembership` | `elections/elections.go:95-143` | Exactly which servers are federated after each operation. |
| `Elections.AuditMembership` | `elections/elections.go:95-152` | The audit list only ever gains: the removal inside a promotion has no effect. |
| `Elections.DisjointExactly` | `elections/elections.go:95-152` | Disjoint lists stay disjoint if and only if the operation does not promote an audit server. |
| `Elections.PromotedIsInBoth` | `elections/elections.go:95-114` | The failing case: a promoted audit server is in both lists. |
| `Elections.RemoveAuditExactly` | `elections/elections.go:145-152` | The removal removes the named server if and only if it has the same index in both lists (or is in neither). |
| `Elections.RemovesTheWrongOne` | `elections/elections.go:145-152` | Failing cases: another server is removed, nothing is removed, or it panics. |
| `Elections.VolunteersAgree` | `elections/elections.go:290-298` | Two nodes at one place of one election with the same audit servers, in whatever order, choose the same volunteer. |
| `AuthoritySet.ProcessList.IsSafeToReplaceFed` | `elections/elections.go:430-461` | Decides the guard: the leader is a newcomer, or the starting leaders not yet demoted keep a strict majority without it. |
| `AuthoritySet.ProcessList.EndElection` | `common/messages/electionMsgs/fedVoteLevelMsg.go:92-175` | The swap is sent to the state exactly if the guard allows to replace the leader. |
| `AuthoritySet.ProcessList.FollowerExecute` | `common/messages/electionMsgs/fedVoteLevelMsg.go:221-237` | The oldest swap under way is executed, whatever the guard would say by then. |
| `AuthoritySet.KeptAndDemoted` | `elections/elections.go:452-460` | The count in the guard is right: starting leaders that still lead and those demoted add up to all of them. |
| `AuthoritySet.KeptAfterSwap` | `elections/elections.go:430-461` | How the number of starting leaders that still lead changes with a swap. |
| `AuthoritySet.GuardIsExact` | `elections/elections.go:446-460` | As long as the starting leaders have a strict majority, a swap leaves it to them if and only if it brings a starting leader back or the guard allows it when the swap is executed. |
| `AuthoritySet.SwappedKeepsConsistent` | `common/messages/electionMsgs/fedVoteLevelMsg.go:236-237` | A swap keeps both lists duplicate-free, disjoint and of their size, and loses no starting leader. |
| `AuthoritySet.MajoritySurvivesBlock` | `activations/activationHeight.go:48-50` | Over every run of elections and swaps within a block, in which each swap is executed before the next guard is evaluated, a strict majority of the leaders led at its start, so fewer than half are ever replaced. |
| `AuthoritySet.MajorityKeptIff` | `activations/activationHeight.go:48-50` | The exact condition for every run: the majority is kept throughout if and only if every swap is still allowed when it is executed or brings a starting leader back. |
| `AuthoritySet.TwoSwapsUnderWay` | `elections/elections.go:430-461` | The failing case: with two swaps under way at once, the guard lets two leaders of three go. |
| `Connection.Connection.HandleNetErrors` | `p2p/connection.go:570-588` | Empties the error channel and goes offline once if there was an error that is not tossed. |
| `Connection.Connection.HandleCommand` | `p2p/connection.go:461-493` | The effect of each command on the connection, which the rows on giving up, updates and bans explain. |
| `Connection.Connection.ParcelValidity` | `p2p/connection.go:639-668` | The verdict on a parcel; a parcel of our own also costs the peer its score. |
| `Connection.Connection.HandleParcel` | `p2p/connection.go:592-630` | By the verdict on the parcel: contact noted and score raised, nothing, or disconnection. |
| `Connection.Connection.PingPeer` | `p2p/connection.go:701-717` | Pings after the interval, counts pings without an answer and goes offline past the limit. |
| `Connection.Connection.DialLoop` | `p2p/connection.go:325-354` | Ends online or shutting down, after exactly as many dials as it takes to the first that works or, if none does and it is not persistent, as attempts are left. |
| `Connection.Connection.RunLoopIteration` | `p2p/connection.go:232-321` | One pass is the abstract step with exactly its dials, and the controller is told exactly when the connection closes. |
| `Connection.IterateSound` | `p2p/connection.go:232-321` | Each pass keeps the attempts within 0 and one above the limit, and at 0 when initialized, offline or shutting down. |
| `Connection.FreshRunSound` | `p2p/connection.go:232-321` | So at every pass boundary of every run of a new connection. |
| `Connection.QuietIterate` | `p2p/connection.go:259-317` | What a pass without input and without a successful dial does in each state. |
| `Connection.RankDecreases` | `p2p/connection.go:232-354` | Every quiet pass of a connection that is not persistent lowers an explicit rank. |
| `Connection.SilentPeerIsClosed` | `p2p/connection.go:232-419` | A connection that is not persistent, whose dials fail and which hears nothing, is closed after at most as many passes as its rank. |
| `Connection.RankBound` | `p2p/connection.go:232-354` | The rank in numbers: (attempts + 2) ping intervals and a few passes. |
| `Connection.SilentPeerCosts` | `p2p/connection.go:325-354` | Until then it costs at most the missing pings and one round of dials. |
| `Connection.QuietPassDials` | `p2p/connection.go:232-354` | The dials counted are exactly those a quiet pass makes. |
| `Connection.ShuttingDownIsNotFinal` | `p2p/connection.go:239-257` | A pending error brings a connection that is shutting down back, and it can be online again. |
| `Connection.ShutdownIsFinalIff` | `p2p/connection.go:239-311` | The exact condition: a connection that is shutting down is closed by the next pass if and only if a parcel disconnects it, a command shuts it down, or there is neither an error nor a command to go offline. |
| `Connection.ParcelsDecideState` | `p2p/connection.go:592-630` | Parcels change the state exactly if one of them disconnects the peer. |
| `Connection.InitializedDialsOnceIff` | `p2p/connection.go:58-65` | The exact condition: an initialized connection dials once if and only if the first dial works, or no redial is allowed and it is not persistent; if all fail it makes all the attempts allowed. |
| `Connection.InitializedDialsTwice` | `p2p/connection.go:325-354` | The failing case: with one redial allowed and no dial that works there are two dials. |
| `Connection.OwnParcelsAreValid` | `p2p/connection.go:639-668` | A parcel one node makes is valid to every other node of the network that accepts its version. |
| `Connection.VerdictsExactly` | `p2p/connection.go:639-668` | A parcel disconnects the peer exactly if it is our own, of another network or of too old a version; of the rest exactly those are valid whose length and checksum describe the payload. |
| `Connection.DamagedIsRefused` | `p2p/connection.go:639-668` | A valid parcel whose payload is exchanged for one of another length or checksum is refused. |
| `Connection.AssembledIsValid` | `p2p/connection.go:639-668` | What the assembler makes of parts of one origin is valid to every other node of the network. |
| `Connection.ValidParcelsEarn` | `p2p/connection.go:592-630` | Valid parcels earn a point each and messages another, the peer counts as heard from, and nothing else changes. |
| `Connection.LivePeerStays` | `p2p/connection.go:232-321` | Over every run in which a peer is heard from in each pass and nothing goes wrong it stays online, is never pinged and only gains points. |
| `Connection.OnlineStartsAfresh` | `p2p/connection.go:367-381` | A connection just online is pinged exactly when the interval has passed, and has all its pings. |
| `Connection.PingIsNotRepeated` | `p2p/connection.go:701-717` | A ping is not repeated before the interval has passed. |
| `Connection.OwnParcelEnds` | `p2p/connection.go:639-668` | A connection to ourselves is shut down with a score below the minimum. |
| `Connection.UpdateOnlyLowers` | `p2p/connection.go:461-493` | What discovery knows of a peer can only lower the score of its connection. |
| `Connection.GivesUpIff` | `p2p/connection.go:259-317` | When acting on the state gives a connection up: exactly if its score is too low, no dial works in time or it came in and is offline; a persistent one only in the last case. |
| `Channels.Channel.BlockFreeChannelSend` | `p2p/protocol.go:23-43` | The channel becomes a suffix of what it was followed by the message, and the result is the exact number dropped; it blocks exactly on a full channel of capacity one. |
| `Channels.SendAlwaysEnqueues` | `p2p/protocol.go:23-43` | For every capacity of at least two the message gets in, nothing is dropped below the mark, and the length stays within the mark plus one. |
| `Channels.Waiting.Defer` | `elections/elections.go:498-505` | The oldest message goes if the channel is nearly full, and the send finds room. |
| `Channels.Waiting.ProcessWaiting` | `elections/elections.go:464-473` | Everything waiting goes to the input in order. |
| `Channels.WaitingHoldsNewest` | `elections/elections.go:498-505` | After every sequence of deferrals the channel holds exactly the newest ones, in order. |
| `ConnectionManager.ConnectionManager.Add` | `p2p/connectionManager.go:54-74` | The map, the address index and the counters all gain the connection and stay in step. |
| `ConnectionManager.ConnectionManager.Remove` | `p2p/connectionManager.go:77-90` | They all lose it, and stay in step when the connection is the registered one or none is. |
| `ConnectionManager.ConnectionManager.ConnectedTo` | `p2p/connectionManager.go:48-51` | True exactly if some registered connection has the address. |
| `ConnectionManager.AddedAgrees` | `p2p/connectionManager.go:54-74` | Adding an unknown hash keeps keys, grouping by address without empty buckets, and both tallies exact. |
| `ConnectionManager.RemovedAgreesIff` | `p2p/connectionManager.go:77-90` | Removing keeps them exact if and only if the connection agrees in direction and address with the one kept under its hash. |
| `Controller.Controller.HandleNewConnection` | `p2p/controller.go:556-570` | The connection replaces one of the same hash, which is told to shut down; the duplicate-peer panic is out of reach. |
| `Controller.Controller.HandleCommand` | `p2p/controller.go:519-554` | The effect of each command, and what it has the controller tell: one notice, only to the connection registered under the hash it names; all state stays in step. |
| `Controller.Controller.DrainCommands` | `p2p/controller.go:406-415` | All commands are handled in order and the channel is empty. |
| `Controller.Controller.HandleConnectionClosed` | `p2p/controller.go:508-511` | The connection is removed and all state stays in step. |
| `Controller.Controller.FillOutgoingSlots` | `p2p/controller.go:614-626` | Dials the first peers not connected, as many as there are slots. |
| `Controller.Controller.ManagePeers` | `p2p/controller.go:579-596` | Once per interval, dials only as many peers as are missing. |
| `Controller.TakenAgrees` | `p2p/controller.go:556-570` | Replacing keeps the connection state exact, for every connection. |
| `Controller.TakenConnections` | `p2p/controller.go:556-570` | The new connection is registered, every other is untouched, and at most one more goes out. |
| `Controller.CommandRegisters` | `p2p/controller.go:519-570` | A dial or an accepted connection registers exactly one connection under its peer's hash, with the peer's address and the direction; no other command touches the connections. |
| `Controller.ToldExactly` | `p2p/controller.go:519-570` | A notice is sent exactly to a connection that is replaced, disconnected, adjusted or banned by the command, and there is at most one. |
| `Controller.BanEndsIff` | `p2p/controller.go:540-543` | A ban shuts a connection down exactly if its score is not so low that the sum wraps around, and not above what the ban takes off. |
| `Controller.LastCommandLast` | `p2p/controller.go:406-415` | Commands take effect in order, each new connection with an id of its own. |
| `Controller.NoticesReachOne` | `p2p/controller.go:401-421` | In every run the registered connections have different ids, so a notice reaches one of them. |
| `Controller.DialsAllItCan` | `p2p/controller.go:614-626` | As many peers are dialed as are missing, or as there are that we have no connection to; none that is connected. |
| `Controller.ManagingFillsUp` | `p2p/controller.go:579-626` | With enough known peers and room in the channel, exactly as many connections go out or are about to as are wanted. |
| `Controller.DialRestIsDialed` | `p2p/controller.go:614-626` | The filling loop is the same as choosing the peers first and dialing them after. |
| `Controller.OutgoingNeverExceedsWanted` | `p2p/controller.go:401-421` | In every run without special peers, outgoing connections and queued dials together never exceed the number of peers wanted. |
| `HoldingList.HoldingList.GetDependentMsg` | `state/HoldingList.go:39-46` | The message held under a hash, or nothing. |
| `HoldingList.HoldingList.RemoveDependentMsg` | `state/HoldingList.go:49-59` | Exactly that message leaves; the two maps still describe the same messages. |
| `HoldingList.HoldingList.Add` | `state/HoldingList.go:62-78` | A message not held is appended to the list of its dependency; a held one changes nothing. |
| `HoldingList.HoldingList.Get` | `state/HoldingList.go:81-95` | Gives the whole list of a dependency away; exactly its messages leave. |
| `HoldingList.HoldingList.ReviewList` | `state/HoldingList.go:104-127` | Exactly the stale messages of one list leave, and the list if nothing is left; `StaleExactly` says which are stale. |
| `HoldingList.HoldingList.Review` | `state/HoldingList.go:102-129` | Exactly the stale messages leave, and no list without a message remains; `StaleExactly` says which are stale. |
| `HoldingList.StaleExactly` | `state/HoldingList.go:131-169` | A message is stale exactly if it is older than the filter time, or for a height, or for an end of minute a height and a minute, that the node has passed, as long as the 32-bit sums do not wrap. |
| `HoldingList.StaleLasts` | `state/HoldingList.go:131-169` | Once stale, a message stays stale as the node moves on. |
| `HoldingList.CurrentIsKept` | `state/HoldingList.go:131-169` | What is for the node's height and minute or later, and new enough, is not stale. |
| `HoldingList.WrappedIsStale` | `state/HoldingList.go:141-144` | The failing case: an end of minute whose 32-bit sum wraps is stale though it is for a later height. |
| `HoldingList.EndOfMinuteJudgedIff` | `state/HoldingList.go:141-144` | The exact limit: an end of minute is rightly judged if and only if its sum does not wrap around to one below the node's. |
| `HoldingList.ListGivesItsMessages` | `state/HoldingList.go:81-95` | A list holds every message of its dependency once, and nothing else. |
| `HoldingList.ExecuteFromHolding` | `state/HoldingList.go:195-222` | Every message waiting for a hash is queued once, in order, and leaves holding. |
| `HoldingList.StaysUntilReleased` | `state/HoldingList.go:39-129` | Over every run a held message is found unchanged until an operation that releases it, and exactly then it is gone. |
| `HoldingList.NothingLostOrDuplicated` | `state/HoldingList.go:39-129` | Over every run each message that came in left exactly once or is still held. |
| `HoldingList.HeightToHashExactly` | `state/HoldingList.go:229-237` | Two keys are equal exactly if the heights are and the minutes agree in their low byte. |
| `HoldingList.ZeroKeyExactly` | `state/HoldingList.go:229-237` | A key is zero exactly at height 0 and minute 0 (mod 256). |
| `HoldingList.HoldForHeight` | `state/HoldingList.go:171-191` | The message is held under its height and the code tells the caller not to process it; panics exactly at height 0 and minute 0 (mod 256). |
| `CompletedHeights.CompletedHeightsManager.CompleteHeight` | `engine/pluginMap.go:168-194` | The window refines an unbounded map from heights to times: it never indexes out of range, and lets a height through exactly if it is not below the base and was not let through in the last four minutes. |
| `CompletedHeights.CompletedHeightsManager.ClearTo` | `engine/pluginMap.go:197-209` | Sliding the window forgets exactly the heights below the new base, and does nothing for a step of 200 or less. |
| `CompletedHeights.BaseNeverDecreases` | `engine/pluginMap.go:197-209` | The base never decreases in any run. |
| `CompletedHeights.AcceptedIsRemembered` | `engine/pluginMap.go:168-209` | A height let through stays on record with that time or a later one, until it falls below the base. |
| `CompletedHeights.AcceptancesAreApart` | `engine/pluginMap.go:168-209` | In every interleaving, two acceptances of one height are at least 240 seconds apart. |
| `CompletedHeights.ClearedIsNeverAccepted` | `engine/pluginMap.go:168-209` | A height below the base is never let through again. |
| `CompletedHeights.LetThroughIff` | `engine/pluginMap.go:168-209` | After every run a height is let through exactly if the window has not passed it and it was not let through in the last four minutes. |
| `CompletedHeights.ClearingLags` | `engine/pluginMap.go:197-209` | The base is never more than 200 behind what was cleared, moves only past that, and what is in the window stays. |
| `FaultRing.ProcessList.MarkFault` | `state/fault.go:78-108` | Exactly unless this node ignores missing servers or leads the machine itself: the time and the reason of a first fault are recorded, a time already recorded is kept, and the server of the machine is switched off. |
| `FaultRing.ProcessList.MarkNoFault` | `state/fault.go:110-129` | Terminates on the ring, clears what the abstract recursion clears, and switches on the servers of the machines it visits. |
| `FaultRing.ProcessList.FaultCheck` | `state/fault.go:131-146` | One pass faults exactly the successors of machines that were long faulted before it, none if this node ignores missing servers and never its own: each at the time read when it is marked and with reason 1. It keeps every fault time recorded and switches off exactly their servers: no cascade within a pass. |
| `FaultRing.ClearingCounts` | `state/fault.go:110-129` | Clearing a faulted machine lowers the number of faulted ones, the measure of the recursion. |
| `FaultRing.NoFaultClearsRun` | `state/fault.go:110-129` | Exactly the machine and the contiguous faulted run behind it are cleared, round the ring; every other machine is as it was. |
| `FaultRing.SwitchedOnExactly` | `state/fault.go:121-128` | A server is on after the recursion exactly if it was on or belongs to a machine visited. |
| `FaultRing.CheckedTest` | `state/fault.go:131-146` | A machine faulted in this pass is not yet long faulted, so the test sees the state before the pass. |
| `FaultRing.MarkedMeans` | `state/fault.go:78-146` | A machine is faulted by a pass exactly if missing servers count, it is not our own, and the machine before it is not our own and has been faulted for more than twice the timeout. |
| `FaultRing.MarkingFaults` | `state/fault.go:78-108` | A machine marked for a positive reason is faulted from then on; a cleared one is not. |
| `SimNetwork.Network.AddSimPeer` | `engine/SimPeer.go:166-206` | Links two different nodes in range once; links stay symmetric, irreflexive and without duplicates, and no other link changes. |
| `SimNetwork.EqualPairMeansLinked` | `engine/SimPeer.go:66-82` | Comparing all pairs of peers finds an equal pair exactly if the two nodes are linked, although one comparison in Equals names the wrong field. |
| `SimNetwork.EqualsItselfIff` | `engine/SimPeer.go:66-82` | What the wrong field costs: a peer equals its reverse, but itself only if it leads back to where it comes from. |
| `SimNetwork.Network.BuildTree` | `engine/NetStart.go:496-511` | The loop terminates for every number of nodes and every node but the first gets a link to an earlier one. |
| `SimNetwork.TreeIsConnected` | `engine/NetStart.go:496-511` | Then every node reaches every other. |
| `Last100.Last100.Add` | `p2p/peer.go:27-36` | The ring and the set are those of the run with one more hash. |
| `Last100.Last100.Get` | `p2p/peer.go:39-42` | True exactly if the hash was added and, since it was last added, no older addition of it was overwritten; while only new hashes are added, exactly if it is among the last hundred. |
| `Last100.RemembersExactly` | `p2p/peer.go:27-42` | The exact condition for every run: a hash is remembered if and only if it was added and, since it was last added, none of its older additions (nor an initial zero) was overwritten. |
| `Last100.SetIsPartOfRing` | `p2p/peer.go:21-42` | After any additions at all, the set is part of the ring and has at most a hundred hashes. |
| `Last100.RemembersExactlyLast` | `p2p/connectionManager.go:122-135` | While only new hashes are added, as the filter before a broadcast makes sure, a hash is remembered exactly if it is among the last hundred. |
| `Last100.RepeatedIsForgotten` | `p2p/peer.go:27-36` | The failing case: a hash added twice is forgotten while it is still among the last hundred. |
| `Factoid.PrintedAmountReadsBack` | `controlPanel/searchResultHandler.go:550-560` | Reading the printed amount as a decimal gives the amount back; at most eight places, no zero at the end, and a point exactly if there is a fraction. |
| `Factoid.PlacesOf` | `controlPanel/searchResultHandler.go:551-556` | The padded and trimmed places still have the value of the fraction, and are empty exactly for zero. |
| `VolunteerControl.FindLowest` | `electionsCore/election/volunteercontrol/volunteercontrol.go:64-75` | The vote to drop has the lowest level and, among those, the highest rank and priority. |
| `VolunteerControl.AddVote` | `electionsCore/election/volunteercontrol/volunteercontrol.go:35-80` | A leader's vote is replaced only by one of another level and a higher rank; of more than a majority of leaders the lowest vote is dropped. |
| `VolunteerControl.BestMajorityKept` | `electionsCore/election/volunteercontrol/volunteercontrol.go:57-80` | What is kept is the best majority possible: the lowest level of any other majority of the votes is no higher. |
| `VolunteerControl.CheckVoteCount` | `electionsCore/election/volunteercontrol/volunteercontrol.go:86-120` | With a majority, and only then, a vote whose rank is the lowest level among the votes and whose level is the highest; the votes at the rank are used up. |
| `VotingElection.Election.Receive` | `electionsCore/election/election.go:66-166` | Every well-formed message, in every run and for any number of leaders, is answered exactly as the relation `Answers` says, and the answer is well formed again. The leader's votes rise in level and in rank and priority, each carries the one before and is backed by a majority, the answer is the last vote cast, the result says whether the message was news, and after a commit nothing is cast or sent. |
| `VotingElection.Election.Execute` | `electionsCore/election/election.go:111-166` | Likewise for one message; the vote for a volunteer is sent at most once. The recursion ends: each vote beats the one before, ranks are bounded by the levels of the others, and a sole leader commits four votes on. |
| `VotingElection.VoteIsAnswered` | `electionsCore/election/election.go:123-165` | Progress: a vote for a volunteer makes a leader that has not committed cast a vote if and only if it has no ranked vote and the first audit server of the list with a majority beats the one it voted for. A volunteer is answered exactly if the leader has not voted for it, with a ranked vote exactly in that case. |
| `VotingElection.AnswersRest` | `electionsCore/election/election.go:270-359` | Progress: after answering a ranked vote, and whenever it answers with one, a leader has committed or nothing better can be cast on what it has filed. If it says nothing to a ranked vote, nothing on the controls after filing that vote beats its own. |
| `VotingElection.WentOnRests` | `electionsCore/election/election.go:331-358` | A leader that goes on from a vote stops only when it has committed or nothing is better. |
| `VotingElection.NoCastIsSettled` | `electionsCore/election/election.go:294-358` | Where nothing is cast, no control with a majority allows a better vote and, if none has a majority, neither do the volunteers' votes. |
| `VotingElection.AnswersSends` | `electionsCore/election/election.go:111-166` | What is sent is the last of the votes cast on the way; without one the standing is unchanged, and a committed leader says nothing. |
| `VotingElection.MessageIsKnown` | `electionsCore/election/election.go:362-388` | After a ranked vote a leader knows exactly the volunteers' votes it knew and those carried by the vote, those before it and those that justify it. |
| `VotingElection.MessageNames` | `electionsCore/election/election.go:362-388` | There is then a control for everybody the message names anywhere, and for nobody else that is new. |
| `VotingElection.Election.ExecuteVolunteer` | `electionsCore/election/election.go:123-147` | The first time, a vote for the volunteer or what that vote leads to, and nothing after that; the leader's own vote is among those it knows from then on. |
| `VotingElection.RankedCloser` | `electionsCore/election/election.go:315-343` | Why it ends: every ranked vote leaves less room below the bound on ranks or, above it, fewer votes until the commit. |
| `VotingElection.FocusedBest` | `electionsCore/election/election.go:295-309` | A sole leader whose rank has passed everything it has seen can only vote on top of its own last vote. |
| `VotingElection.Election.ExecuteLeaderLevelMessage` | `electionsCore/election/election.go:270-359` | Everything the vote brings is filed; then a commit is followed, for its volunteer and rank, and otherwise the best vote the controls allow is cast if it beats the current one, or one of rank 0 if they allow none, and so on from there. |
| `VotingElection.Election.ChooseVote` | `electionsCore/election/election.go:294-358` | A vote is cast exactly if the best one the controls allow beats the current one or, where they allow none, one of rank 0 does; asking uses the lowest votes of every control with a majority up. A rank never passes its level, so that panic is out of reach. |
| `VotingElection.Election.BestVote` | `electionsCore/election/election.go:295-309` | The vote taken is one a control with a majority allows, and no control allows a better one. |
| `VotingElection.Election.GoOn` | `electionsCore/election/election.go:331-343` | Having cast a vote, the leader files it and answers it like any other, and what it sends is the last of its votes. |
| `VotingElection.Election.AddLeaderLevelMessage` | `electionsCore/election/election.go:362-388` | The vote, the votes before it and the votes it carries are filed, oldest first, and nothing else; every control keeps at most a majority of votes, one per leader, all for its volunteer. |
| `VotingElection.Election.AddVote` | `electionsCore/election/election.go:200-218` | A leader's vote for a volunteer is kept once; the result says whether it is new. |
| `VotingElection.Election.GetRank0Vote` | `electionsCore/election/election.go:221-255` | Only while there is no ranked vote, a vote of rank 0 for the first audit server with a majority, if it beats the current vote. |
| `VotingElection.Rank0Exactly` | `electionsCore/election/election.go:221-255` | In terms of the votes alone: a vote of rank 0 exists exactly if there is no ranked vote, an audit server has a majority and none before it has, and it beats the current vote; it carries that server's votes. |
| `VotingElection.Election.CastRanked` | `electionsCore/election/election.go:315-332` | The vote gets the leader's next level or its own if higher, and commits the leader if it is the fourth in a row. |
| `VotingElection.Election.FollowCommit` | `electionsCore/election/election.go:278-292` | A vote of the committed rank at the leader's next level, marked as committed. |
| `VotingElection.Priority` | `electionsCore/primitives/primitives.go:182-197` | A priority is below the number of audit servers, or 0 where there is none. |
| `VotingElection.PriorityIdentifies` | `electionsCore/primitives/primitives.go:182-197` | Two audit servers of one priority are the same server. |
| `VotingElection.BetterKeepsOrder` | `electionsCore/election/election.go:169-196` | A better vote at a new level keeps the levels and the votes rising and carries the one before; the tally is exactly the length of the longest run of consecutive votes, and at four the leader has to commit. |
| `VotingElection.FollowKeepsOrder` | `electionsCore/election/election.go:278-292` | Following a commit keeps the levels rising and the leader's own votes as they were. |
| `VotingElection.CandidateBacked` | `electionsCore/election/volunteercontrol/volunteercontrol.go:86-120` | The votes carried by a ranked vote come from a majority of different leaders, are for its volunteer, and have its rank or a higher level. |
| `VotingElection.Rank0Backed` | `electionsCore/election/election.go:221-255` | A vote of rank 0 carries votes of a majority of different leaders for its volunteer. |
| `VotingElection.RankBounded` | `electionsCore/election/volunteercontrol/volunteercontrol.go:86-120` | A rank is positive and at most the level, and at most the highest level seen from another leader, unless a majority is one leader and the vote is on top of its own. |
| `VotingElection.CommitNeedsFour` | `electionsCore/election/election.go:180-196` | A leader that commits by itself has cast its last four votes for one audit server, with consecutive ranks and levels, each backed by a majority. |
| `VotingElection.CommitsExactly` | `electionsCore/election/election.go:180-196` | A leader that follows nobody has committed if and only if its last four votes are in a row. |
| `VotingElection.MajoritiesMeet` | `electionsCore/primitives/primitives.go:199-207` | Any two ranked votes, of whatever leaders, have a leader behind both. |

## Left out

- CreateReceipt: database reads are lookups in maps, with directory blocks stored under their own keys.
- VerifyFullReceipt: takes the receipt itself; decoding it from JSON is not modelled. The same holds for VerifyMinimalReceipt.
- EndElection: takes the guarded server to be the leader at the index that is swapped, with the delta limit active; within a block only these swaps change the lists.
- OutgoingNeverExceedsWanted: does not cover special peers and dials asked for from outside, which the source adds without regard to the number wanted.
- HandleNewConnection: does not model the metrics copied from the connection that is replaced.
- HandleConnectionClosed: takes the connection to be the registered one, as the loop over the registered connections at `p2p/controller.go:429-435` makes sure.
- ManagePeers: does not model asking the seed, saving peers and asking connections for peers at `p2p/controller.go:584-611`.
- BlockFreeChannelSend: does not model other goroutines using the channel at the same time; the 0.95 of the source is taken as a rounded-down fraction.
- Get: in `Last100` it is about one history; copies of a peer that share it are not modelled.
- ExecuteFromHolding: hands the messages over at once; the source does so from a goroutine as the queue has room.
- Receive: claims nothing about agreement between leaders that commit by themselves; of a ranked vote that is not answered it does not say whether it was news; levels stay below the source's 32-bit start values, and votes are listed in the order they came where the source takes any order.
- Observers of an election, its display, message history and the adapter that translates messages.
- TCP dialing, deadlines, gob encoding, DNS, the seed, peers.json, discovery and the choice of peers for a broadcast.
- SHA-256, CRC-32 and ed25519, which are parameters or absent.
- Races on a connection's state, such as the shutdown the controller starts in the background after closing: a pass of the run loop is one step.
- Scores close to the largest 32-bit number, where they are kept as wrapped numbers and nothing more is claimed.
- Metrics, logging, the control panel, simulation commands, wallets, the remote API, configuration and the other topologies.
