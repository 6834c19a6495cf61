# GhostLink group core: model and proofs

GhostLink is an end-to-end encrypted messenger. This project models the parts of it that keep
protocol state and states what they promise over whole runs:

- **Sender keys** (`KeyBuffers`, `Ratchet`, `SenderKeyChains`, `Lockstep`, `SenderKeyStore`, `SenderKeyRuns`,
  `StoreRatchets`, `SendingRuns`): the hash ratchet a sender seals with, the window a receiver opens with, the store that
  owns and wipes the key buffers, and what the store holds and answers over whole schedules: each receiving chain as its
  own ratchet, each sending chain in a context of its own.
- **Group authority** (`GroupEvents`, `AuthorityMachine`, `AuthorityInvariants`, `AuthorityRuns`, `AuthorityLaws`,
  `AuthorityHeap`, `AuthorityObjects`, `AuthorityRegistry`, `RegistryRuns`): the relay's signed-commit protocol. `AuthorityMachine` is one group as a
  state machine over values; `AuthorityHeap` is the same group as mutable objects, where a queued admission and the
  roster may point at different member objects, and every method there is proved to be one step of the machine. What
  a step does to each part of the group is said once more in `AuthorityLaws`, in terms of what was proved, asked for,
  signed and overdue, without the machine's own functions. The theorems are about every state the machine can reach, and `AuthorityObjects` carries them over to the objects after
  any sequence of calls.
- **Group replica** (`GroupReplica`, `ReplicaHistory`, `ReplicaAgreement`, `QuietRuns`, `CatchingUp`, `LateSignatures`): the client's copy,
  fed by any schedule that drops, duplicates or reorders committed events and mixes in events forged with keys that are
  not the rightful signer's; how it relates to the authority, when it can catch up at all, and what a signed event that
  was never committed does to it.
- **Pairwise mesh** (`Mesh`): live, draining and pending links, epoch leaps, and who still holds key bytes.
- **Replay gates and pacing** (`Dedupe`, `Rendering`, `Pacing`): the id cache, the sequence cursor, and the token bucket
  against the relay's own.
- **Transfers** (`Bits`, `Base64`, `ChunkBitmaps`, `ChunkReaders`): the resume bitmap as a set, and chunks as a tiling of
  the file.
- **Invites and developer keys** (`Invites`, `InviteRuns`, `DeveloperKeys`): every answer to a redemption over whole
  runs, and the credential codec.

HKDF, Ed25519 verification and the key digests are arbitrary functions (`Kdf`, `Crypto`): every statement holds for all of
them and none needs them to be injective. Clocks, random bytes and handshake outcomes are parameters. An exception is a
result value, and the contracts say which ones leave the state as it was.

## False as documented, with the exact condition

- `install_incoming` zeroizes the held chain before the new one validates its index
  (`ghostlink/groups/senderkeys.py:606-614`), so called with an index below 1 it leaves a zeroized chain stored.
  `SenderKeyStore.ReceivingChains.InstallIncoming` states exactly when, and `SenderKeyRuns.DeadChainIsStored` is such
  a pair of calls. It cannot arrive over the network: the frame parser refuses a distribution with a generation or an
  index below 1 (`ghostlink/groups/frames.py:336-337`), and the store's only caller passes on parsed frames
  (`ghostlink/groups/service.py:1206-1233`). Behind that gate every chain still stored holds a key and every other
  chain is zeroized, over all runs: `SenderKeyRuns.RunsAreSound` and `SenderKeyRuns.StoreRun`.
- A client that caught up with the authority can hold more members than the authority has active. A second attestation
  replaces the roster's candidate while the queued admission keeps the old one, and the admission then commits without
  admitting. `QuietRuns.StrayJoinHappens` is such a run and `QuietRuns.StrayClientDiffers` a client of it;
  `ReplicaAgreement.AuthorityClientInclusion` says the two rosters are equal if and only if no such join was committed
  since the snapshot; `QuietRuns.QuietRunsAgree` gives a condition on the calls.
- Two clients at one epoch hold the same members, but for one member they may hold different keys of the same
  fingerprint. `ReplicaAgreement.ClientsAgree` has the rosters equal when fingerprints tell keys apart, and
  `ReplicaAgreement.CollidingKeysSplit` splits them on any pair of keys that fingerprints do not.
- A client cannot always catch up. A removal committed after a leave of the same member
  (`ghostlink/groups/authority.py:704-723`) is refused by every client that took in the leave.
  `CatchingUp.CatchesUpExactly` states when a client reaches the authority's epoch, both ways;
  `CatchingUp.LeaveAndRemoveStalls` shows the case, for every group it can happen in, and
  `CatchingUp.QuietClientsCatchUp` shows that it cannot happen in a quiet run.
- Two clients at one epoch agree as long as what they are shown was committed. A signature can come in after its
  operation timed out (`ghostlink/groups/authority.py:776-820`), when another operation already took the epoch; the two
  signed events lead two clients to the authority's epoch with different members. `LateSignatures.LateSignatureSplits`
  shows it for every group with two members to remove.
- The mesh's documented acceptance rule (`ghostlink/groups/mesh.py:414-423`) is met exactly, except for a live link made
  for the epoch before the observed one after that one was observed. `Mesh.GroupMeshManager.AcceptingLink` states this
  as an equivalence, and that it cannot happen while the service's gate is respected;
  `Mesh.UngatedLinkIsAccepted` is a run without the gate.
- `_refresh_sign_task` is documented to reset the promotion so that the next head is offered afresh
  (`ghostlink/groups/authority.py:766-772`); it changes nothing. Nothing needs resetting: only the head is ever promoted
  (`AuthorityRuns.OnlyTheHeadIsOffered`) and it keeps what was pinned until it is concluded
  (`AuthorityLaws.OfferedUntil`), which is how the model has it.
- A resume bitmap that is not base64 is to be refused as a validation error (`ghostlink/transfer/chunking.py:151-157`).
  Text that is not ASCII fails in the encoding step instead, with an error the handler does not name.
  `ChunkBitmaps.ChunkBitmap.FromB64` has each outcome with its exact condition.

## Model

| member | source | states |
|---|---|---|
| Ratchet.WindowVerdict | ghostlink/groups/senderkeys.py:393-509 | after any interleaving of installs and requests: released, malformed and more-than-65-ahead indexes are refused and change nothing; every unreleased index from last-63 to last+65 is granted, evictions included; at or below last exactly the cached ones are granted and the rest are replays, and a grant comes from the cache exactly at or below last |
| Ratchet.LastIsLargest | ghostlink/groups/senderkeys.py:393-501 | after any run the live index is the largest of the first install, every later one and every released index |
| Ratchet.NextIsGranted | ghostlink/groups/senderkeys.py:393-501 | after an install or a release at n a request for n + 1 is granted unless something later was installed or released |
| Ratchet.LostIffCrowdedOut | ghostlink/groups/senderkeys.py:503-509 | an unreleased index behind the live one is refused if and only if the cache was once full of 64 newer ones: nothing else makes the window forget it |
| Ratchet.ReleasedAtMostOnce | ghostlink/groups/senderkeys.py:435-501 | no index is released twice in any run |
| Ratchet.ReplayIsFinal | ghostlink/groups/senderkeys.py:435-501 | an index refused as a replay stays refused whatever is installed or asked afterwards |
| Ratchet.RunInv | ghostlink/groups/senderkeys.py:393-509 | every reachable window: at most 64 cached indexes, ascending and already passed, none released; an index neither cached nor released is 64 behind and below the whole cache |
| Ratchet.CachingKeepsInv | ghostlink/groups/senderkeys.py:409-433 | catching up over any distance keeps that invariant, whatever is evicted |
| Ratchet.AskKeepsInv | ghostlink/groups/senderkeys.py:435-501 | one request keeps that invariant with the granted index added to the released ones |
| SenderKeyChains.OutgoingChain.constructor | ghostlink/groups/senderkeys.py:293-326 | a chain started at any index is in step with its root; an index below 1 starts at 1 |
| SenderKeyChains.OutgoingChain.Seal | ghostlink/groups/senderkeys.py:328-357 | only the exact next index is sealed, with the root's key of that index; any other changes nothing; a zeroized chain seals under the key its zero buffer derives |
| SenderKeyChains.OutgoingChain.Zeroize | ghostlink/groups/senderkeys.py:368-371 | both key buffers are zero |
| SenderKeyChains.ReceiverChain.Install | ghostlink/groups/senderkeys.py:393-433 | the first install replays the root into the window of that index; a later one continues the held chain or does nothing; the live index is then the given one, or the held one if that is larger; a bad index changes nothing |
| SenderKeyChains.ReceiverChain.MessageKeyFor | ghostlink/groups/senderkeys.py:435-501 | grants and refuses exactly as the value window does, with the root's own key of the index; a refusal changes nothing |
| SenderKeyChains.ReceiverChain.CatchUp | ghostlink/groups/senderkeys.py:409-433 | the ratchet loop caches each passed index with its own key and leaves the chain key of the target |
| SenderKeyChains.ReceiverChain.CacheSkipped | ghostlink/groups/senderkeys.py:503-509 | insertion at the end, the oldest evicted beyond 64, a present index moved last |
| SenderKeyChains.ReceiverChain.Zeroize | ghostlink/groups/senderkeys.py:516-521 | the live key buffer is zero and the cache empty |
| Lockstep.LockstepRun | ghostlink/groups/senderkeys.py:293-501 | a sender and a receiver object under any schedule: every opened key is the one sealed for that index, no index is opened twice, and which indexes are sealed and opened is exactly the value model's answer |
| SenderKeyStore.SendingChains.EnsureOutgoing | ghostlink/groups/senderkeys.py:545-571 | a held chain is returned untouched; a missing one is created at the next generation and the remembered start |
| SenderKeyStore.SendingChains.PruneEpoch | ghostlink/groups/senderkeys.py:633-639 | both buffers of the group's chains of other epochs are zero; every other chain keeps its index and its keys; a chain is stored exactly when it is not wiped |
| SenderKeyStore.SendingChains.TeardownGroup | ghostlink/groups/senderkeys.py:647-655 | the group's chains, both buffers zero, its generations and start indexes go; every other chain keeps its index and its keys |
| SenderKeyStore.SendingChains.TeardownAll | ghostlink/groups/senderkeys.py:657-665 | both buffers of every stored chain are zero, and of every chain ever created unless it was sealed with after being wiped |
| SenderKeyStore.ReceivingChains.InstallIncoming | ghostlink/groups/senderkeys.py:583-614 | what the store holds afterwards, context, root, window and liveness of every chain: at the bound nothing changes; in its own context a chain continues under its own root, in any other it is zeroized and replaced; with a bad index it is left dead exactly then; the key array of a chain that was zeroized or replaced is zero |
| SenderKeyStore.ReceivingChains.MessageKeyFor | ghostlink/groups/senderkeys.py:616-626 | another epoch or generation does not answer; otherwise the verdict of the chain's window with the key of its own root; only that window moves, and every root and other chain stays |
| SenderKeyStore.ReceivingChains.PruneEpoch | ghostlink/groups/senderkeys.py:633-639 | drops exactly the group's chains of other epochs, the array each kept its key in zero; the others keep context, root and window |
| SenderKeyStore.ReceivingChains.DropSender | ghostlink/groups/senderkeys.py:641-645 | drops that sender's chain, the array it kept its key in zero, and no other; the others keep context, root and window |
| SenderKeyStore.ReceivingChains.TeardownGroup | ghostlink/groups/senderkeys.py:647-655 | drops exactly the group's chains, the array each kept its key in zero; the others keep context, root and window |
| SenderKeyStore.ReceivingChains.TeardownAll | ghostlink/groups/senderkeys.py:657-665 | every array that ever held a receiving key is zero |
| SenderKeyRuns.TakeDistribution | ghostlink/groups/frames.py:336-337 | a distribution of generation or index below 1, and one beyond the bound on chains, changes nothing held; any other installs |
| SenderKeyRuns.StoreRun | ghostlink/groups/service.py:1206-1233 | over any schedule of distributions, messages, epoch changes and departures, the store holds what the value run says, context, root and window of every sender, and answered every message as it says; in each state there was one key array for every chain held, and each of those arrays is in the end a stored chain's or zero |
| SenderKeyRuns.Perform | ghostlink/groups/service.py:1206-1233 | one action on the objects is one step of that run; chains and key arrays are only ever added to those accounted for |
| SenderKeyRuns.KeyOrZero | ghostlink/groups/senderkeys.py:516-521 | in every valid store, an array that ever held a receiving key is a stored chain's or zero |
| SenderKeyRuns.RunsAreSound | ghostlink/groups/frames.py:336-337 | behind the gate, after any schedule: at most 64 chains, each with a key, under its own sender, with at most 64 cached indexes in order |
| SenderKeyRuns.NoKeyTwice | ghostlink/groups/senderkeys.py:583-626 | while a sender's chain stays held, whatever the store takes in for it or for others, an index that was granted is refused as a replay |
| SenderKeyRuns.HoldKeepsReplay | ghostlink/groups/senderkeys.py:583-655 | an action that leaves a chain held leaves it its root, and a replayed index a replay |
| StoreRatchets.HoldsExactly | ghostlink/groups/senderkeys.py:583-655 | one action: a chain is held afterwards exactly if it was held and this action does not end it, or this action starts it |
| StoreRatchets.StoreIsRatchet | ghostlink/groups/senderkeys.py:583-626 | over any schedule, whatever the store takes in for others, a chain held since its distribution has that root and exactly the window of the installs and requests in its own context |
| StoreRatchets.ReplyExactly | ghostlink/groups/senderkeys.py:616-626 | so each message index is answered with that ratchet's verdict and the distributed root's key of the index |
| StoreRatchets.NotHeldNoKey | ghostlink/groups/senderkeys.py:616-626 | a message of a context that is not held gets no key |
| StoreRatchets.HeldWasStarted | ghostlink/groups/senderkeys.py:583-614 | every chain held was started by a distribution of the run and held since |
| SendingRuns.GenerationsCount | ghostlink/groups/senderkeys.py:545-571 | over any schedule of sends, epoch changes and closings, the generation counter is the number of chains created for that group and epoch since the group was last closed |
| SendingRuns.NoContextTwice | ghostlink/groups/senderkeys.py:545-571 | while a group is not closed no two of its chains are created in one context: the generations strictly increase |
| SendingRuns.SendRun | ghostlink/groups/senderkeys.py:545-655 | the sending store after any schedule holds the chains, contexts, generations and start indexes the schedule says |
| SenderKeyRuns.DeadChainIsStored | ghostlink/groups/senderkeys.py:606-614 | without that gate, two distributions after which the stored chain is a zeroized one |
| AuthorityRuns.SignedEqualsCommitted | ghostlink/groups/authority.py:628-738 | in every reachable state each committed event has the next epoch and a signature over its own canonical form, by the pinned owner key, or for a leave by the key its subject was admitted with |
| AuthorityRuns.OnlyTheHeadIsOffered | ghostlink/groups/authority.py:628-658 | only the queue head is ever offered for signing, at epoch + 1 |
| AuthorityRuns.AdmissionSound | ghostlink/groups/authority.py:704-738 | an active non-owner was admitted by the owner-signed join committed at exactly its joined epoch, with nothing committed about it since |
| AuthorityRuns.DistinctJoinedEpochs | ghostlink/groups/authority.py:718-721 | distinct active members joined at distinct epochs |
| AuthorityRuns.Capacity | ghostlink/groups/authority.py:469-487 | members plus pending joins never exceed 8, nor does the queue |
| AuthorityRuns.OwnerPinned | ghostlink/groups/authority.py:394-417 | the owner is always active under the pinned key and the only holder of the role |
| AuthorityRuns.QueueShape | ghostlink/groups/authority.py:866-892 | no (kind, subject) is queued twice |
| AuthorityRuns.QueuedOp | ghostlink/groups/authority.py:581-624 | a queued operation is about the owner if and only if it dissolves the group, and the owner signs all but leaves |
| AuthorityRuns.KeptEventsConsecutive | ghostlink/groups/authority.py:727-728 | the kept events are the last 16, with consecutive epochs ending at the group's |
| AuthorityRuns.EpochIsLogLength | ghostlink/groups/authority.py:704-738 | the epoch is one more than the number of commits |
| AuthorityRuns.RunInv | ghostlink/groups/authority.py:358-892 | the invariant behind these holds after every sequence of calls |
| AuthorityLaws.EveryoneProved | ghostlink/groups/authority.py:496-568 | in every reachable group each entry but the owner's is under a key whose possession was proved by a verifying attestation of the history, and each bound session but the creating one is a session such an attestation came from |
| AuthorityLaws.NoProofNoChange | ghostlink/groups/authority.py:496-528 | an attestation whose signature does not verify, or whose handle is not the key's, is refused and changes nothing |
| AuthorityLaws.NothingUnasked | ghostlink/groups/authority.py:581-738 | every queued operation and every committed event was asked for in the run, by a bound member entitled to ask or by a newcomer who proved possession |
| AuthorityLaws.OfferedUntil | ghostlink/groups/authority.py:776-820 | over any run an offered head stays offered, unchanged, until its signer submits a signature on its bound session or a sweep finds it older than the signing timeout |
| AuthorityLaws.ConcludedIsGone | ghostlink/groups/authority.py:660-764 | and then it leaves the queue, and nothing of its kind and subject stays queued |
| AuthorityLaws.SlotUntil | ghostlink/groups/authority.py:458-494 | over any run a pending join keeps its slot and its time until it is cancelled, spent, disconnected or swept when older than the pending time |
| AuthorityLaws.PendingExactly | ghostlink/groups/authority.py:458-568 | one call: exactly which sessions have a pending slot afterwards; a sweep takes exactly those older than the pending time |
| AuthorityLaws.LogExactly | ghostlink/groups/authority.py:660-738 | one call: the log grows exactly when the offered head's signer signs it well, by that event |
| AuthorityLaws.QueueExactly | ghostlink/groups/authority.py:581-892 | one call: the queue gains exactly a new request there is room for, at the end, and loses exactly a concluded head; an offer pins epoch, timestamp and time once |
| AuthorityLaws.RosterExactly | ghostlink/groups/authority.py:496-831 | one call: the roster's entry of every fingerprint, as a candidacy, a rebinding, a disconnection or a concluded operation leaves it |
| AuthorityLaws.OkExactly | ghostlink/groups/authority.py:458-738 | a call is answered with success exactly when the caller may ask and there is room |
| AuthorityLaws.RefusedExactly | ghostlink/groups/authority.py:458-738 | and exactly when it is refused as full, as aborted, as not a member or as a conflict |
| AuthorityLaws.OthersCannotSign | ghostlink/groups/authority.py:660-702 | a submission by anyone but the head's signer on its bound session changes nothing |
| AuthorityLaws.Disconnected | ghostlink/groups/authority.py:822-831 | a disconnected session is bound to nobody and holds no slot, and nothing else changes |
| AuthorityLaws.DissolvedIffLogged | ghostlink/groups/authority.py:724-726 | over any run a group is dissolved exactly when its last committed event dissolves it, and no earlier one does |
| AuthorityInvariants.StepInv | ghostlink/groups/authority.py:458-831 | every single call keeps roster, queue and log consistent with each other |
| AuthorityInvariants.AbortInv | ghostlink/groups/authority.py:759-764 | an abort, from a bad signature or a timeout, keeps the invariant and never drops an active member |
| AuthorityInvariants.CommitInv | ghostlink/groups/authority.py:704-738 | a commit of a verified signature keeps the invariant, for a departure after another departure of the same subject too |
| AuthorityHeap.GroupRec.constructor | ghostlink/groups/authority.py:394-417 | a new group is the machine's initial state |
| AuthorityHeap.GroupRec.BeginJoin | ghostlink/groups/authority.py:458-487 | one machine step: conflict, full or a new pending slot |
| AuthorityHeap.GroupRec.CancelJoin | ghostlink/groups/authority.py:489-492 | one machine step |
| AuthorityHeap.GroupRec.Attest | ghostlink/groups/authority.py:496-568 | one machine step, in which an attestation that does not verify changes nothing (AuthorityLaws.NoProofNoChange), though a re-attestation makes a new member object while queued operations keep the old |
| AuthorityHeap.GroupRec.RequestLeave | ghostlink/groups/authority.py:581-590 | one machine step for the member the session resolves to; answered as no member only if the session is bound to none |
| AuthorityHeap.GroupRec.RequestRemove | ghostlink/groups/authority.py:592-613 | one machine step for the member the session resolves to; answered as no member only if the session is bound to none |
| AuthorityHeap.GroupRec.RequestDissolve | ghostlink/groups/authority.py:615-624 | one machine step for the member the session resolves to; answered as no member only if the session is bound to none |
| AuthorityHeap.GroupRec.NextSignTask | ghostlink/groups/authority.py:628-658 | one machine step, returning the pinned form of the head |
| AuthorityHeap.GroupRec.SubmitSignature | ghostlink/groups/authority.py:660-702 | one machine step: refused, aborted or committed |
| AuthorityHeap.GroupRec.Commit | ghostlink/groups/authority.py:704-738 | the machine's commit; activating a candidate object shows in the roster only while it is the roster's entry |
| AuthorityHeap.GroupRec.AbortHead | ghostlink/groups/authority.py:759-764 | the machine's abort |
| AuthorityHeap.GroupRec.Sweep | ghostlink/groups/authority.py:776-820 | one machine step: exactly the pending joins past their time go, and the head exactly when overdue (AuthorityLaws.PendingExactly, AuthorityLaws.OfferedUntil) |
| AuthorityHeap.GroupRec.DisbindSession | ghostlink/groups/authority.py:822-831 | one machine step: bindings go, membership stays |
| AuthorityHeap.GroupRec.EnqueueOp | ghostlink/groups/authority.py:866-892 | the machine's enqueue, bounded and without repeats |
| AuthorityHeap.GroupRec.MemberBySession | ghostlink/groups/authority.py:951-955 | some active member bound to the session, or none when there is none |
| AuthorityHeap.GroupRec.Call | ghostlink/groups/authority.py:458-831 | any one call on the objects is a step of the machine for the same call, a request coming from a member its session is bound to if there is one |
| AuthorityObjects.ObjectRun | ghostlink/groups/authority.py:358-831 | a group object after any sequence of calls, so attributed, answered and ended as the machine does, hence in a reachable state |
| AuthorityObjects.ObjectsAdmitted | ghostlink/groups/authority.py:718-721 | so each of its active member objects but the owner's was admitted under its key by the owner-signed join at its joined epoch |
| AuthorityRegistry.RegistrySound | ghostlink/groups/authority.py:358-427 | over every run of the relay each live group is one its own calls reach, and no id is both live and dissolved |
| AuthorityRegistry.TombstoneIsFinal | ghostlink/groups/authority.py:776-820 | a dissolved id never becomes live while its tombstone is kept, and the tombstone does not change |
| AuthorityRegistry.OnlySubmitDissolves | ghostlink/groups/authority.py:724-726 | no call but a committed signature dissolves a group |
| AuthorityRegistry.Mint | ghostlink/groups/authority.py:419-427 | a minted id is in neither table; none only when 64 draws were all taken |
| RegistryRuns.MintIs | ghostlink/groups/authority.py:419-429 | minting gives the first free of the first 64 draws, exactly when there is one |
| RegistryRuns.CreationExactly | ghostlink/groups/authority.py:358-417 | a creation signed under its key, with the key's handle and a free id, adds that group with its creator as owner; any other leaves the registry as it was |
| RegistryRuns.EveryGroupIsItsOwn | ghostlink/groups/authority.py:358-831 | over every run each group, live or remembered, was created by a request its owner's key signed and is exactly what the later requests to it make of it |
| RegistryRuns.TombstoneExactly | ghostlink/groups/authority.py:776-820 | a tombstone appears exactly when its group's dissolution is committed, with that time, and goes exactly when a sweep finds it past retention |
| GroupReplica.LocalGroupRecord.ApplySemantics | ghostlink/groups/models.py:352-408 | applied exactly when the roster rules allow and a join comes with its subject's descriptor; it is then the value-level application, which tells leaving from being removed (ReplicaHistory.LeavesAsItLeft); a refusal changes neither roster nor state |
| GroupReplica.LocalGroupRecord.ApplyVerifiedEvent | ghostlink/groups/models.py:312-350 | applied exactly for the next epoch of a live record under those rules; a refusal changes nothing but the suspect flag |
| GroupReplica.LocalGroupRecord.OnGroupEvent | ghostlink/groups/lifecycle.py:458-496 | check by check, the listener is the value-level intake; the timestamps move exactly when a packet is applied or flagged |
| GroupReplica.LocalGroupRecord.CheckSignature | ghostlink/groups/lifecycle.py:831-861 | the right signer's key and a signature over the event's own form |
| GroupReplica.RejectionChangesNothing | ghostlink/groups/lifecycle.py:458-496 | a packet that is not accepted leaves the whole roster record but for the suspect flag, set exactly unless the packet is stale, archived or not ours |
| ReplicaHistory.AcceptedExactly | ghostlink/groups/lifecycle.py:458-496 | a packet is taken in if and only if it is the next event of this live record, signed by the right member under the key held for it, and fits the roster |
| ReplicaHistory.DeliveredExactly | ghostlink/groups/models.py:312-408 | under every schedule the record is exactly what the events taken in make of the start: epoch, the key of every member, the last 16 events and the state; the suspect flag is set exactly if some packet was neither stale nor taken in |
| ReplicaHistory.LeavesAsItLeft | ghostlink/groups/models.py:376-408 | the client ends as removed, as having left or as closed exactly when the last event taken in is a removal of it, a leave of it or a dissolution |
| ReplicaAgreement.AcceptedIsNext | ghostlink/groups/lifecycle.py:831-861 | an accepted event is the committed log's next one if and only if its rightful signer did not sign it outside the log; events signed with any other key are refused |
| ReplicaAgreement.DeliveryFollows | ghostlink/groups/models.py:312-408 | under every schedule the roster and epoch are the fold of a contiguous run of the log from the snapshot |
| ReplicaAgreement.ClientsAgree | ghostlink/groups/models.py:312-408 | two clients from one snapshot at one epoch hold the same members under keys that fit them, and the same keys when fingerprints tell keys apart |
| ReplicaAgreement.DeliveryKeepsKeys | ghostlink/groups/lifecycle.py:863-879 | whatever is delivered, every key held has its member's fingerprint |
| ReplicaAgreement.CollidingKeysSplit | ghostlink/groups/lifecycle.py:863-879 | one signed join announced with two keys of one fingerprint splits the rosters |
| ReplicaAgreement.StepActive | ghostlink/groups/authority.py:704-738 | a call either commits one entry, with that entry's effect on the active members, or leaves them alone |
| ReplicaAgreement.AuthorityClientInclusion | ghostlink/groups/authority.py:845-862 | a client that caught up from a snapshot holds every active member, plus exactly the strays; equality if and only if no stray join was committed |
| QuietRuns.QuietRunsAgree | ghostlink/groups/authority.py:551-561 | with no two queued operations on one subject and no candidate attesting again, a client that caught up holds exactly the active members |
| QuietRuns.QuietRunFollowed | ghostlink/groups/authority.py:581-738 | when moreover the departures queued at the start are of active members, every commit of the run can be followed, and following them gives the active members |
| QuietRuns.StrayJoinHappens | ghostlink/groups/authority.py:880-882 | a run of six calls whose join is committed and whose subject is not active |
| QuietRuns.StrayClientDiffers | ghostlink/groups/models.py:352-375 | a client that takes in that run's one event is at the authority's epoch and holds a member the authority does not |
| CatchingUp.CatchesUpExactly | ghostlink/groups/models.py:352-408 | a client told every commit since its snapshot, in order, reaches the authority's epoch if and only if each join was of an outsider, each departure of a member, and nothing before the last commit ended the group for it |
| CatchingUp.InOrderIsBest | ghostlink/groups/models.py:312-350 | if any schedule gets a client there, telling everything in order does |
| CatchingUp.QuietClientsCatchUp | ghostlink/groups/models.py:312-408 | in such a quiet run a client told everything in order reaches the authority's epoch exactly if nothing before the last commit ended the group for it, and then holds exactly the active members |
| CatchingUp.NextIsTaken | ghostlink/groups/lifecycle.py:476-484 | a client in step takes in the next commit exactly if it is still in the group and the roster rules allow it: signature and descriptor checks never stand in the way |
| CatchingUp.LeaveAndRemoveStalls | ghostlink/groups/authority.py:704-723 | once a leave and a removal of one member are both committed, no client of an earlier snapshot ever reaches the authority's epoch |
| CatchingUp.SomeGroupStalls | ghostlink/groups/authority.py:581-613 | a reachable group in which that happens |
| LateSignatures.OnlyTimelyCommits | ghostlink/groups/authority.py:660-738 | of two removals offered for one epoch, the first swept on a timeout, only the second is committed |
| LateSignatures.LateSignatureSplits | ghostlink/groups/authority.py:776-820 | both signed by the owner, they lead two clients to the authority's epoch, the one shown the committed event to its members and the other not |
| LateSignatures.SomeGroupSplits | ghostlink/groups/authority.py:496-568 | a reachable group, its owner having admitted two members, in which that happens |
| Mesh.GroupMeshManager.ObserveEpoch | ghostlink/groups/mesh.py:181-224 | the observed epoch is the maximum; a leap drains exactly the live links behind it until now plus the drain time, and drops exactly the handshakes behind it |
| Mesh.GroupMeshManager.AcceptingLink | ghostlink/groups/mesh.py:414-438 | once an epoch is observed a link is accepted exactly by the documented rule or when it was made late, never late under the gate; a returned link still has the session key it was made with |
| Mesh.GroupMeshManager.LinkFor | ghostlink/groups/mesh.py:404-408 | the live link of that epoch with the session key it was made with, or nothing when there is none |
| Mesh.GroupMeshManager.HelloFor | ghostlink/groups/mesh.py:228-274 | the exact case for each answer, a forced re-pair included, which wipes the link before looking for room; the tables afterwards |
| Mesh.GroupMeshManager.HandleHello | ghostlink/groups/mesh.py:276-320 | a link comes up exactly for the responder, the roster identity, room and a good answer; a failed answer costs the old link; all three tables afterwards |
| Mesh.GroupMeshManager.HandleReply | ghostlink/groups/mesh.py:322-366 | a link comes up exactly for a pending handshake of that epoch and identity that completes; a failed completion ends the handshake |
| Mesh.GroupMeshManager.InstallLink | ghostlink/groups/mesh.py:372-400 | the new link holds the session key and supersedes whatever the peer had, wiped |
| Mesh.GroupMeshManager.RequireCapacity | ghostlink/groups/mesh.py:561-575 | exactly when there is room, and what is swept to find it |
| Mesh.GroupMeshManager.DropLink | ghostlink/groups/mesh.py:542-553 | the peer leaves all three tables and its links are wiped; every link ever made is in one table under its key or wiped |
| Mesh.GroupMeshManager.Expire | ghostlink/groups/mesh.py:522-537 | wipes exactly the drains past their deadline, every other link keeping its session key, and forgets exactly the overdue handshakes |
| Mesh.GroupMeshManager.TeardownGroup | ghostlink/groups/mesh.py:495-507 | the group leaves all tables, its links wiped and its observed epoch forgotten; others stay, with their session keys |
| Mesh.GroupMeshManager.TeardownAll | ghostlink/groups/mesh.py:509-520 | every link key ever held is zero |
| Mesh.PairwiseLink.Zeroize | ghostlink/groups/mesh.py:126-128 | the key bytes are zero |
| Mesh.UngatedLinkIsAccepted | ghostlink/groups/service.py:1062-1068 | without the gate a hello for the epoch before the observed one brings up a link that is accepted past every drain window |
| Mesh.PairsUp | ghostlink/groups/mesh.py:228-366 | a client with room and no link that says hello and gets its reply has a live link of that epoch with the session key |
| Dedupe.SeenMessageIds.Seen | ghostlink/groups/frames.py:392-407 | reports and marks as the value cache does; each sender's counter equals its stored pairs, which is why the loops end |
| Dedupe.SeenMessageIds.EvictIfNeeded | ghostlink/groups/frames.py:409-415 | drops the sender's oldest pairs down to capacity |
| Dedupe.RunIsRecency | ghostlink/groups/frames.py:385-415 | with at most 8 senders, each sender's kept ids are its `capacity` most recently touched ones |
| Dedupe.RunBounded | ghostlink/groups/frames.py:385-415 | for any number of senders: at most `capacity` ids of each and 8 times that in all, and the last arrival is always kept |
| Dedupe.SeenExactly | ghostlink/groups/frames.py:385-415 | a pair is seen if and only if it arrived and fewer than `capacity` distinct other ids of its sender were touched since |
| Dedupe.SeenStream | ghostlink/groups/frames.py:385-415 | the cache object over any stream: every answer is the value run's, and for at most 8 senders exactly that condition |
| Rendering.GseqTracker.Observe | ghostlink/groups/frames.py:437-452 | the exact verdict; the cursor moves exactly when the frame passes; senders stay bounded |
| Rendering.GroupRuntime.Receive | ghostlink/groups/service.py:1307-1330 | acknowledged exactly when known, rendered exactly when unknown and let through, with the gap flag |
| Rendering.ThroughIsOrdered | ghostlink/groups/service.py:1494-1518 | for every stream and whatever the id cache evicted, one sender's shown messages strictly increase in steps of at most the gap |
| Rendering.RenderStream | ghostlink/groups/service.py:1494-1518 | the objects show exactly that, and no frame twice |
| Rendering.ShownExactly | ghostlink/groups/service.py:1307-1330 | a frame is shown exactly if its id is not in the dedupe cache of the frames before it and its number is a bounded step forward from the last one shown of its sender |
| Pacing.TxPacer.Regulated | ghostlink/groups/service.py:244-270 | one grant of the value bucket, sleep included, at the request when a token is at hand and otherwise exactly when the missing fraction is refilled |
| Pacing.IntervalBound | ghostlink/groups/service.py:126-127 | any interval of length T holds at most 20 + 18 T grants |
| Pacing.PacedSends | ghostlink/groups/service.py:244-270 | the pacer object over any requests: its grant instants are the value run's, ascending, and any interval holds at most 20 plus 18 per second of them |
| Pacing.BurstBound | ghostlink/groups/service.py:244-270 | the same between any two grants |
| Pacing.GrantsArePaidFor | ghostlink/groups/service.py:244-270 | tokens plus elapsed refill pay for every grant in between |
| Pacing.WaitsAtMost | ghostlink/groups/service.py:244-270 | a send waits at most the refill of one token, plus the overrun of the sleep |
| Pacing.FirstAtOnce | ghostlink/groups/service.py:126-127 | the first 20 sends of any run are granted the moment they are asked for |
| Pacing.RefilledByPause | ghostlink/groups/service.py:244-270 | after a pause of 20/18 seconds the bucket is as new, whatever came before |
| Pacing.SteadyRate | ghostlink/groups/service.py:126-127 | sends asked for back to back: 20 at once, then exactly 18 a second |
| Pacing.RelayStaysAhead | ghostlink/transport/relay/server.py:1123-1137 | the relay's bucket, fed any subset of the grants, always holds at least the client's tokens |
| Pacing.NeverBraked | ghostlink/transport/relay/server.py:1123-1137 | so the relay never refuses a paced envelope |
| Pacing.BrakeBound | ghostlink/transport/relay/server.py:1123-1137 | any sender, paced or not, gets at most 20 envelopes plus 20 a second past the relay |
| Pacing.BurstIsBraked | ghostlink/transport/relay/server.py:1123-1137 | of envelopes sent at one instant exactly the first 20 get past |
| Base64.RoundTrip | ghostlink/transfer/chunking.py:146-158 | decoding undoes encoding for every byte string (section 4 of RFC 4648) |
| Base64.BareRoundTrip | ghostlink/developer/keys.py:97-109 | the same without padding, and the length (section 5 of RFC 4648) |
| ChunkBitmaps.MaskedBits | ghostlink/transfer/chunking.py:92-104 | loading an untrusted bitmap keeps exactly the in-range bits |
| ChunkBitmaps.ChunkBitmap.Create | ghostlink/transfer/chunking.py:83-104 | refused exactly for no chunks or the wrong length; otherwise the set the bytes denote within range |
| ChunkBitmaps.ChunkBitmap.CountIsPresent | ghostlink/transfer/chunking.py:106-115 | the count is the size of the set of present chunks, all in range |
| ChunkBitmaps.ChunkBitmap.Has | ghostlink/transfer/chunking.py:114-115 | membership in the set for a chunk of the file; a number below 1 reads the bit that many places from the end, as Python's negative index does; an index error exactly beyond both ends |
| ChunkBitmaps.ChunkBitmap.Mark | ghostlink/transfer/chunking.py:117-129 | adds exactly that chunk, refused out of range, false when it was there |
| ChunkBitmaps.ChunkBitmap.IsComplete | ghostlink/transfer/chunking.py:131-133 | complete if and only if nothing is missing |
| ChunkBitmaps.ChunkBitmap.Missing | ghostlink/transfer/chunking.py:135-136 | exactly the missing numbers, ascending |
| ChunkBitmaps.ChunkBitmap.NextMissing | ghostlink/transfer/chunking.py:138-144 | the least missing number, or none when complete |
| ChunkBitmaps.ChunkBitmap.FromB64 | ghostlink/transfer/chunking.py:149-158 | loaded, malformed, or an encoding error nobody handles, and exactly when each; a loaded bitmap is the set the bytes denote within range |
| ChunkBitmaps.Resume | ghostlink/transfer/chunking.py:146-158 | sending a bitmap and loading it back gives the same bits, count and set |
| ChunkReaders.ChunksTileTheFile | ghostlink/transfer/chunking.py:35-63 | chunks 1 to the total, joined, are the file |
| ChunkReaders.ChunkReader.ExpectedLength | ghostlink/transfer/chunking.py:35-47 | refused exactly out of range; the real length of the chunk when the geometry is the file's |
| ChunkReaders.ChunkReader.Read | ghostlink/transfer/chunking.py:49-63 | the slice of that number, empty exactly past the end; the cached cursor stays the real position |
| ChunkReaders.ReadSchedule | ghostlink/transfer/chunking.py:28-63 | any schedule of numbers, in any order and with repeats, reads exactly the slices it names |
| ChunkReaders.SenderManifestIsValid | ghostlink/models/settings.py:395-403 | the manifest of a file that accepted settings admit passes a receiver's geometry checks if and only if size and chunk are within that receiver's limits; the bound of 32768 chunks never fails |
| ChunkReaders.DivideUp | ghostlink/transfer/manifest.py:74-74 | the chunk count is the least that covers the file |
| Invites.InviteAuthority.Register | ghostlink/invites/authority.py:169-209 | accepted exactly within the limits and for an unknown token |
| Invites.InviteAuthority.Redeem | ghostlink/invites/authority.py:259-288 | verdict and consumption in one step of the value registry |
| Invites.InviteAuthority.Revoke | ghostlink/invites/authority.py:290-299 | only the creating session revokes, and then it is final (InviteRuns.RevokedIsFinal) |
| Invites.InviteAuthority.PurgeTerminal | ghostlink/invites/authority.py:342-355 | removes exactly the terminal or expired entries past retention and counts them |
| Invites.InviteAuthority.CountActiveGroupInvites | ghostlink/invites/authority.py:244-257 | the number of the group's invites a redemption would win now |
| Invites.RedemptionsAreCounted | ghostlink/invites/authority.py:259-288 | over any run the stored count is the number of redemptions won since registration, within the limit |
| Invites.NoComeback | ghostlink/invites/authority.py:259-288 | after a refusal no redemption succeeds until the token is registered again |
| InviteRuns.RevokedIsFinal | ghostlink/invites/authority.py:290-299 | once its creator revokes a token no redemption of it succeeds until it is registered again; until it is purged each is answered as revoked |
| InviteRuns.OthersCannotRevoke | ghostlink/invites/authority.py:290-299 | any other session's revocation changes nothing |
| InviteRuns.VerdictExactly | ghostlink/invites/authority.py:259-288 | over any run, every answer to a redemption from the calls since registration: revoked if the creator revoked it, else expired once its time is up, else used up once it was won as often as allowed, else redeemed |
| InviteRuns.UnknownExactly | ghostlink/invites/authority.py:259-288 | a token is unknown exactly if it is not there |
| InviteRuns.RegistersExactly | ghostlink/invites/authority.py:150-209 | a token is registered exactly if it is well formed, within the limits and not there already |
| InviteRuns.EntryExactly | ghostlink/invites/authority.py:169-299 | the stored entry is what the calls since its registration add up to |
| InviteRuns.PurgedExactly | ghostlink/invites/authority.py:342-355 | a token goes exactly when a purge finds it revoked, expired or used up for longer than the retention |
| Invites.ActiveMeansRedeemable | ghostlink/invites/authority.py:311-333 | status is active if and only if a redemption at that instant would succeed |
| Invites.PurgeSparesRedeemable | ghostlink/invites/authority.py:342-355 | purging removes nothing that could still be redeemed, now or later |
| DeveloperKeys.Base32 | ghostlink/developer/keys.py:81-94 | the accumulator loop computes the zero-padded five-bit grouping of the bytes, ceil(8n/5) symbols of it |
| DeveloperKeys.Base32Injective | ghostlink/developer/keys.py:81-94 | byte strings of one length have the same text only if they are equal |
| DeveloperKeys.ParseExactly | ghostlink/developer/keys.py:143-167 | parsing returns (id, secret) if and only if the stripped text is the credential of a well-formed id and secret; the length check never fires |
| DeveloperKeys.IssueCredential | ghostlink/developer/keys.py:112-137 | the credential is the printed id and secret of the given random bytes |
| DeveloperKeys.IssuedParses | ghostlink/developer/keys.py:127-167 | an issued credential, with any white space around it, parses back to its id and a secret that decodes to the given bytes |
| DeveloperKeys.IssuedDistinct | ghostlink/developer/keys.py:127-137 | different random bytes give different credentials |

## Left out

- HKDF, ChaCha20-Poly1305, Ed25519, X25519 and the handshake itself: arbitrary functions or given outcomes.
- JSON and packet encodings, canonical byte strings (a record per form instead), display names, roles in client descriptors.
- Relay queries that only read or route: forward authorization, invite-mint permission, roster views, routing.
- The client's full resync, which replaces the record by a snapshot.
- The registry of groups is modelled on values: that its dictionaries are updated in place is not captured; one group is
  modelled on objects.
- SenderKeyStore's two tables are two classes; an operation on both is one call on each.
- AuthorityHeap.GroupRec.MemberBySession: returns any member bound to the session, where the source takes the first in
  dictionary order.
- ReplicaAgreement.DeliveryFollows: does not cover an event that its rightful signer signed but the authority did not
  commit; LateSignatures.LateSignatureSplits shows that clients then disagree.
- Ratchet.WindowVerdict: covers one lifetime between zeroizes; an install after a zeroize starts a new window.
- Dedupe.SeenExactly: for at most 8 senders, the group's own bound; beyond it the shared total also evicts.
- Pacing.TxPacer.Regulated: a sleep does not wake early, and the clock is read once before and once after it.
- Mesh.GroupMeshManager.ObserveEpoch: the clock is read once per call, and set order replaces list order.
- Mesh.GroupMeshManager.Expire: the order of the returned keys is not modelled.
- Base64.RoundTrip: strict decoding; characters that Python's lenient decoder skips are not modelled.
- Bitwise operators are written as arithmetic on numbers.
- Floating-point time and tokens are real numbers.
- Token normalisation and hashing of invites: a malformed token is a missing digest, any other token its digest.
- The asynchronous service (outboxes, retries, ledgers), relay transport, transfer manager, recovery, storage, CLI and UI.
