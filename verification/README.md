# EtcFS in Dafny

EtcFS is a shared file system whose metadata lives in etcd and whose data lives
on one block device all nodes can reach. A node takes an inode lock, keeps it
cached, acknowledges writes from memory while it holds it, and publishes them
in one etcd transaction before it gives the lock up. Device space is split into
arenas, each owned by one node.

This project models that machinery and proves what it is built to keep: that
what a node caches is true, that an acknowledged write is not lost when the lock
moves, that a read returns the newest write, that no block has two owners, that
link counts and the directory tree stay right, and what a fence stops. Where a
law does not hold of the code, there is an input on which it fails and the exact
condition under which it holds.

`dafny verify dfyconfig.toml` checks everything.

## How it is laid out

| module | what it models |
|---|---|
| `Common`, `Extents`, `SparseFile`, `Scrub` | extent records, their order, the read walk, sparse-file queries, scrub checks |
| `WritePath`, `Truncation`, `ReadBack` | splitting and reclaiming extents, what a write or a shrink leaves, when a write reads back |
| `Etcd`, `Deferred`, `PendingWrites`, `CachedView`, `FlushBatch` | the store, the write buffer, the cached view, flushing alone and in batches |
| `WriteOps`, `Proposals`, `BufferedWrites` | the transaction a write proposes, the loops that build it, and its place in the many-node machine |
| `Delegation`, `DelegationInvariant`, `Handover`, `Recall`, `LockEntries`, `Generations` | many nodes over one store: locks, leases, recall, fencing; the lock entry object; generations |
| `DeviceFlush`, `Volume`, `Discards` | buffered payload, the device, files and blocks of one node over writes, flushes, torn writes, lost replies, discards, failed and repeated commits, shrinks and crashes |
| `Bits`, `Allocation`, `ArenaPool`, `Ownership` | bitmap words, the block allocator, arena ownership across nodes, and what it means for their blocks |
| `Namespace`, `NamespaceOps`, `NamespaceRuns`, `DirTree`, `TreeRuns` | names and link counts under stale plans, what each operation does and what undoes it, the directory tree under renames; runs in which each law fails |

Protocols are state machines: a datatype for the state, one predicate per step,
an invariant every step keeps, and theorems over every run from the initial
state. Objects the program updates in place are classes, and the program's loops
are methods proved against a specification. `LockEntries.FlushIsStep`,
`LockEntries.GivesUpBySteps`, `BufferedWrites.WriteIsStep` and
`Proposals.ProposalReplays` tie the objects to the machines.

## Choices

- Offsets, lengths, chunk numbers and generations are unbounded naturals.
- The revision etcd attaches to an extent is kept in a map beside the extent list.
- A bitmap word is a list of 64 booleans; `Bits` ties it to the 64-bit machine word.
- A lost reply is a commit that happens at the call, or does not happen at all;
  a transaction that arrives after its caller gave up is not modelled.
- A rejected flush and the reads that follow it see the store at one revision.
- In the many-node machine a batch of flushes is a sequence of single flushes;
  `FlushBatch` is where batches are shown to mean that.
- A write that commits at once does so while its lock key is in the store. The
  transaction does not compare the key; `Deferred.OutsideCommitIff` says exactly
  what happens when the key is gone.
- Replies of etcd, device failures and the kernel's page invalidation are parameters.
- In `ArenaPool` a node that is fenced counts as down.

Where the program's own comments promise something else, the code is followed:

- A flush rejected while the lock is still held is said to mean that something
  else changed the inode (internal/ipc/delegate.go:478-481). `CachedView.WedgeHappens`
  is another way there: a lost reply and then one more buffered write, after
  which the buffer is refused for good. `CachedView.FlushOutcome` says exactly when.
- One write's proposal is said to be capped at what a transaction can carry
  (internal/ipc/delegate.go:271-275). `Proposals.WriteOp.Proposal` says it is
  exactly when the write has few enough runs, and `Proposals.ScatteredWriteOverflows`
  is a write that has too many.
- A buffer that is discarded is said to leave nothing that refers to the blocks it
  gives back (internal/ipc/delegate.go:472-474 and 812-813). The blocks its plans
  buried are still named by the published list (`Discards.DiscardFreesPublished`),
  and so are the blocks it reserved if a flush of it landed with its reply lost
  (`Discards.LostFlushFreesPublished`). `Volume.DiscardKeepsIff` is the exact
  condition.
- A rejected direct write is said to have been planned on a list that missed a
  chunk (internal/ipc/datapath.go:298-301). It may also have landed unseen, and
  then plans over its own extents and gives their blocks back:
  `Volume.RecommitKeepsIff`, `Discards.RecommitFreesPublished`.
- A create under a parent that no longer exists is said to fail on its own
  comparisons (pkg/metadata/dirent.go:226-229). None of them names the parent:
  `DirTree.AttachedKeptIff`, `TreeRuns.DetachedDirHappens`.
- A release of an empty arena that reports an error is undone locally
  (pkg/arena/allocator.go:467-496); `ArenaPool.HeldKeptIff` says when that is safe
  and `ArenaPool.LostReleaseSharesArena` is a run in which it is not.

## Model

| member | source | states |
|---|---|---|
| `Extents.InsertExtent` | pkg/metadata/extent.go:199-205 | binary search inserts one extent into an ordered list, which stays ordered and gains exactly that record |
| `Extents.SortExtents` | pkg/metadata/extent.go:190-192 | the result is ordered and holds the same records |
| `Extents.OrderedIsCanonical` | pkg/metadata/extent.go:181-215 | two ordered lists of the same records with distinct chunks are the same list, so a list kept incrementally and one decoded afresh agree |
| `Extents.ReadWins` | pkg/metadata/extent.go:207-215 | the extent a byte is read from starts no later than any other that covers it, and of those starting with it has the highest sequence and on a tie the highest chunk |
| `Extents.ReadsBackIff` | pkg/metadata/extent.go:207-215 | for any ordered list, every byte of a write resolves to the write if and only if each of its extents starts no later than every other extent it overlaps |
| `Extents.HandleRead` | internal/ipc/datapath.go:550-659 | the single forward walk, clamped to the size, returns for every byte the content of the first covering extent, from buffer or device, and zero in holes |
| `Extents.ReadAt` | internal/ipc/delegate.go:172-184 | a range wholly inside one buffered run is answered with that run's bytes; any other range is refused |
| `SparseFile.DataRanges` | pkg/metadata/extent.go:396-421 | the ranges are strictly separated and their union is exactly the bytes below the size that a read would resolve |
| `SparseFile.SeekData` | pkg/metadata/extent.go:425-435 | the least data offset at or after the request, none exactly when there is none below the size |
| `SparseFile.SeekHole` | pkg/metadata/extent.go:442-455 | the least hole offset at or after the request, the end of the file being a hole; none exactly when the request is at or past the size |
| `Scrub.DeadReason` | pkg/scrub/scrubber.go:539-549 | an extent is dead exactly if it lies past the size or one sibling supersedes it |
| `Scrub.DeadIff` | pkg/scrub/scrubber.go:539-549 | dead means past the size, or every byte covered by one later sibling |
| `Scrub.CheckDeadExtents` | pkg/scrub/scrubber.go:502-532 | reports exactly the dead extents |
| `Scrub.ReclaimKeepsContents` | pkg/scrub/scrubber.go:502-549 | deleting any subset of the dead extents, chains of superseded ones included, changes no byte of any read below the size |
| `Scrub.CheckExtentCollisions` | pkg/scrub/scrubber.go:431-458 | comparing neighbours in device order finds nothing exactly when no two extents of the whole list collide, that is, have a device byte in common |
| `WritePath.SplitPartition` | pkg/metadata/extent.go:246-291 | head, tail and freed range divide the blocks of a split extent: nothing lost, nothing in two parts |
| `WritePath.WriteKeepsGood` | internal/ipc/writeop.go:187-251 | the list a planned write leaves is ordered and good: of any two overlapping extents the newer starts no later, and no block is named twice |
| `WritePath.WrittenBytes` | internal/ipc/datapath.go:622-653 | after a write every byte of it resolves to its own place in the write's runs |
| `WritePath.OtherBytes` | pkg/metadata/extent.go:246-269 | every other byte resolves to the device byte it had, and a hole stays a hole |
| `WritePath.WriteBlocks` | internal/ipc/datapath.go:789-828 | the blocks of the file afterwards are the old ones minus those freed plus the write's runs |
| `ReadBack.WriteReadsBackIff` | internal/ipc/datapath.go:789-828 | for any offset, any ownership and any number of extents put off, a write reads back if and only if, before it, no extent that is not this node's or is put off crosses the start of one of the write's extents, and no owned one keeps a tail whose block begins before such a start |
| `ReadBack.UnalignedWriteIsHidden` | pkg/metadata/extent.go:246-269 | an input: a sub-block write inside one block of an owned extent does not read back |
| `ReadBack.UnplannedExtentHides` | internal/ipc/writeop.go:230-241 | an input: an aligned write into an extent that is not owned, or was put off, does not read back |
| `Truncation.TruncateOnce` | internal/ipc/datapath.go:730-749 | the loop trims or removes each extent past the new size and frees exactly those blocks |
| `Truncation.TruncateKeepsBelow` | internal/ipc/datapath.go:730-749 | below the new size every byte keeps its device byte |
| `Truncation.TruncateCutsIff` | internal/ipc/datapath.go:730-749 | nothing is left past the new size if and only if this node owns every extent reaching past it |
| `Truncation.TruncateKeepsGood` | internal/ipc/datapath.go:730-749 | a shrink keeps the list good |
| `Truncation.TruncatePartition` | pkg/metadata/extent.go:278-291 | what a shrink keeps and what it frees divide the file's blocks |
| `Proposals.WriteOp.CountFrom` | internal/ipc/writeop.go:146-156 | chunk and sequence are above every one in use, and each is the least such number |
| `Proposals.PlaceRuns` | internal/ipc/writeop.go:194-214 | one extent per run, contiguous in the file, the last covering only the real bytes, each put compared as unused |
| `Proposals.PlanAll` | internal/ipc/writeop.go:230-247 | every buried extent up to the first that does not fit is planned for; from there on exactly the buried ones are put off, and only because the transaction is full; the transaction stays within its cap |
| `Proposals.WriteOp.Proposal` | internal/ipc/writeop.go:187-251 | the transaction names each key once and is exactly the new extents, the record, and the rewrites and deletes of the extents planned for, whose freed blocks are exactly those buried; it puts the record exactly when the file grows or its mode changes, and the size it leaves is the least that holds the old file and the write; from the first extent that may not fit on, exactly those under the write are put off; it is within the cap if and only if the write's runs and the record are |
| `Proposals.WriteOp.Replan` | internal/ipc/writeop.go:255-259 | the same, counted and planned again from a newer snapshot |
| `Proposals.WrittenIsInFile` | internal/ipc/writeop.go:216-226 | a read of what a proposal wrote, clamped to the size it leaves, gets every byte, each from the write's own runs |
| `Proposals.RunsInTransaction` | internal/ipc/writeop.go:187-214 | a transaction has at least one operation for each run of its write, and one for the record if it rewrites it |
| `Proposals.ScatteredWriteOverflows` | internal/ipc/delegate.go:271-275 | an input: a write of 121 one-block runs, however counted and whatever it is planned over, makes a proposal larger than a transaction takes |
| `Proposals.ProposalReplays` | internal/ipc/datapath.go:371-445 | replaying the proposed transaction on the list it was planned on leaves the new extents, the survivors of those planned for, and the rest as they were |
| `Proposals.ProposalBuffers` | internal/ipc/writeop.go:187-251 | its comparisons are those of the cached view and it creates a chunk above every one seen, as the buffer relies on |
| `BufferedWrites.ProposalStamped` | internal/ipc/writeop.go:194-247 | every extent a proposal puts is stamped by its writer and generation, or carries the stamp of an extent the writer saw |
| `BufferedWrites.WriteIsStep` | internal/ipc/delegate.go:261-311 | a write planned on the list a node has cached under its exclusive key is one buffered write of the many-node machine: comparisons, plan and stamps are what the machine relies on |
| `PendingWrites.Pending.Add` | internal/ipc/delegate.go:187-212 | a comparison is kept only for a key the buffer does not own, an operation always replaces, the order of first touch only grows |
| `PendingWrites.Pending.Txn` | internal/ipc/delegate.go:216-226 | the transaction is the buffer, each key once, in order of first touch |
| `CachedView.Apply` | internal/ipc/datapath.go:424-445 | deletes and puts applied to the cached list leave the ordered list of the puts and of what neither names |
| `CachedView.CachedViewIsTrue` | internal/ipc/delegate.go:261-311 | at every point of every run of buffered writes, commits, flushes and lost replies under one held key, the cached list is the sorted decoding of etcd overlaid with the buffer, and cached revisions are etcd's for keys the buffer does not own |
| `CachedView.FlushOutcome` | internal/ipc/delegate.go:459-468 | over every such run a flush is rejected if and only if an earlier one committed unseen and has not been settled since; it is then recognised as landed if and only if nothing was buffered after that, and once it is not, it never is again |
| `CachedView.WedgeHappens` | internal/ipc/delegate.go:459-486 | a run of three steps, nobody else writing: a buffered write, a flush whose reply is lost, another buffered write; the buffer is then rejected and not recognised |
| `Deferred.CoalescingPreservesMeaning` | internal/ipc/delegate.go:187-226 | for any sequence of writes planned on the cached view, one flush of the first-touch comparisons and last-wins operations leaves the keys and values of committing them one by one, and neither is ever rejected |
| `Deferred.ReproposalPassesIff` | internal/ipc/delegate.go:459-468 | proposing a landed flush again passes if and only if all it compared were deletes of keys that never existed |
| `Deferred.FlushAlreadyLanded` | internal/ipc/delegate.go:770-802 | the loop answers exactly whether every buffered extent operation, and at least one, is in etcd |
| `Deferred.ExactlyOnce` | internal/ipc/delegate.go:770-802 | with a created extent in the buffer: a landed flush is rejected when proposed again and recognised, and one that has not landed is not recognised |
| `Deferred.OutsideCommitIff` | internal/ipc/datapath.go:267-349 | after a commit by a node that lost the key, the holder's buffer can still be flushed if and only if the commit changed no key the buffer compares |
| `Deferred.OutsideCommitRefuses` | internal/ipc/datapath.go:267-349 | an input: such a commit passes its own comparisons and the holder's buffer is refused |
| `FlushBatch.BatchPasses` | internal/ipc/delegate.go:697-753 | a batch passes if and only if each of its members would on its own |
| `FlushBatch.AloneIsAccepted` | internal/ipc/delegate.go:637-661 | publishing one by one leaves exactly the operations of the members whose comparisons hold |
| `FlushBatch.CommitFlushBatch` | internal/ipc/delegate.go:697-753 | a batch, committed whole or retried member by member, publishes exactly the members whose comparisons hold and reports which |
| `FlushBatch.FlushEntries` | internal/ipc/delegate.go:637-661 | the op-capped sweep leaves the keys and values of flushing each inode alone in the same order, and reports the same successes; a batch of several members stays inside the cap, and each batch but the last has no room for the next member |
| `FlushBatch.BatchIsSmall` | internal/ipc/delegate.go:672-679 | so the one transaction of such a batch has no more operations and comparisons than the cap |
| `DelegationInvariant.StepInv` | pkg/metadata/lock.go:210-250 | every step of every node keeps: tokens never reused, exclusive keys exclusive, views and buffers of held files true to the store, the acknowledged file is the store's under its holder's buffer, stamps within generations |
| `Handover.KeyBorn` | pkg/metadata/lock.go:210-250 | a lock key in the store has been there at every moment since the acquisition that minted its token |
| `Handover.FlushUnderOneHold` | internal/ipc/delegate.go:408-414 | whenever a flush commits, its exact token has been the only lock on the inode since that node acquired it; in between nobody else acquired the inode or published to it |
| `Handover.ReleasedIsPublished` | internal/ipc/lockcache.go:493-532 | when a release deletes an exclusive key, the store holds the file as acknowledged |
| `Handover.LoadReadsTruth` | internal/ipc/retry.go:154-183 | whoever loads a file under a key in the store reads what was acknowledged |
| `Handover.TruthKeptIff` | internal/ipc/lockcache.go:569-586 | short of a new write to it, an action of any node keeps what was acknowledged for a key if and only if it does not fence, restart or cut off a writer of the file that holds an operation on that key the store does not yet show |
| `Handover.EveryCacheIsTrue` | internal/ipc/lockcache.go:270-277 | at every moment of every run what any node has cached under a key in the store, shared or exclusive, is what was acknowledged, by whichever node |
| `Handover.AcknowledgedWriteCached` | internal/ipc/lockcache.go:493-560 | what a buffered or committed write under a held key acknowledged for a record is what every such cache shows from then on, through any flushes, lost replies, recalls, handovers, other writes to the file, fences, expiries and restarts, unless the record was written again or a writer was cut off with it still to publish |
| `Handover.AcknowledgedWriteSurvives` | internal/ipc/lockcache.go:493-560 | under the same conditions it is what any node reads that loads the file later under a key in the store |
| `Handover.PublishedWriteIsSafe` | internal/ipc/delegate.go:423-495 | once the store shows an acknowledged write, no fence, expiry or restart of any node loses it: it stays in the store until the record is written again |
| `Handover.FlushSaves` | internal/ipc/delegate.go:423-495 | a flush that commits puts everything acknowledged for its file in the store, whether its reply arrives or not |
| `Recall.RecallCompletes` | internal/ipc/lockcache.go:493-560 | in any reachable state a holder that is neither fenced nor stuck with a buffer refused for good can publish, give the key up and have it deleted, and a waiting node can then take the file in either mode and reads all that was acknowledged |
| `Recall.WedgedCannotYield` | internal/ipc/delegate.go:478-486 | with such a buffer it can do none of that: the flush does not pass, is not recognised, and the key may not be given up |
| `Recall.BumpShutsOut` | pkg/metadata/gen.go:64-95 | a bump moves the generation of the node it names by one and shuts that node out, and no other |
| `Recall.StartLetsIn` | pkg/metadata/gen.go:104-120 | a node that starts over may commit again and remembers no lock, view or buffer; other nodes and the published files are as before |
| `Recall.ExpireFrees` | pkg/metadata/lock.go:87-117 | an expired lease takes along every lock key written under it and nothing else |
| `Recall.ReleaseFrees` | pkg/metadata/lock.go:313-337 | a release deletes the keys it names and nothing else |
| `Recall.AdoptTakes` | internal/ipc/retry.go:482-497 | an attempt found to have committed is taken up under the token it used, in the store already |
| `Recall.HeldIsRefused` | pkg/metadata/lock.go:210-250 | while a node holds a file no attempt that excludes it, or that it excludes, is accepted |
| `Handover.FencedNeverCommits` | pkg/metadata/client.go:175-198 | after a bump no guarded transaction of the earlier incarnation commits until the process starts over |
| `Handover.GensGrowFrom` | pkg/metadata/gen.go:64-95 | over every run a node's generation never falls, and its guard is the one it started with |
| `Handover.StampsAreCurrent` | pkg/scrub/scrubber.go:601-618 | in every reachable state no published extent is stamped beyond its writer's generation |
| `LockEntries.LockEntry.CachedMeta` | internal/ipc/lockcache.go:270-277 | answers what was cached under the key held now, and nothing otherwise |
| `LockEntries.LockEntry.SetMeta` | internal/ipc/lockcache.go:281-288 | caches under the held key; does nothing without one |
| `LockEntries.LockEntry.BufferWrite` | internal/ipc/delegate.go:261-311 | a write joins exactly when the buffer is empty or has room for it in operations and bytes, and is then folded into the buffer and replayed into the cached view; a full buffer is published instead and a new plan asked for only if the publication is known to be in the store; a failure leaves buffer and view as they were |
| `LockEntries.LockEntry.ProposeFlush` | internal/ipc/delegate.go:386-415 | the proposed comparisons hold in a store exactly if the buffer's do and the exact lock key is there |
| `LockEntries.LockEntry.FlushCommitted` | internal/ipc/delegate.go:597-616 | the buffer is empty and each cached record that was published takes the revision it was published at |
| `LockEntries.LockEntry.FlushLocked` | internal/ipc/delegate.go:423-495 | every way a flush can end: success exactly if the commit went through or the store shows every extent operation of the rejected buffer, and then the buffer is empty under the same key; a fence is reported as one and discards the buffer, as does a lost key; anything else keeps it whole |
| `LockEntries.LockEntry.KeyLost` | internal/ipc/lockcache.go:569-586 | key, view and buffer are all dropped |
| `LockEntries.LockEntry.PrepareDrop` | internal/ipc/lockcache.go:542-560 | a key may be given up exactly if nothing is left buffered and the kernel's pages are gone; a buffer not published stays whole |
| `LockEntries.LockEntry.ForgetKey` | internal/ipc/lockcache.go:436-447 | the entry is as new and the key it held is owed a delete |
| `LockEntries.LockEntry.EnsureLockKey` | internal/ipc/retry.go:342-399 | the call succeeds only under a key of the live session or the one just taken, exclusive if that was wanted; a key of a lost session is dropped with everything under it; a live exclusive key answers any request as it is, a live shared one a shared request; a shared key that does not do is given up, and owed a delete, only once the kernel's pages are gone |
| `LockEntries.LockEntry.Release` | internal/ipc/retry.go:255-270 | an exclusive hold that did not publish its changes leaves no cached metadata; any other leaves the entry as it was |
| `LockEntries.FlushIsStep` | internal/ipc/delegate.go:423-495 | in every reachable state, whatever truthful replies a flush gets, it leaves the cluster alone or takes one step of it, to the entry the method computes |
| `LockEntries.DoneIsPublished` | internal/ipc/delegate.go:423-495 | in every reachable state, on any replies the store could give, a flush that reports success leaves every buffered extent operation in the store, and, if the key is still there, the whole file as acknowledged |
| `LockEntries.DropIsStep` | internal/ipc/lockcache.go:436-447 | giving up a key with nothing buffered is the cluster's drop, and the key is owed a delete |
| `LockEntries.GivesUpBySteps` | internal/ipc/retry.go:362-389 | in every reachable state what asking for a key gives up is given up by at most two steps of the cluster, a lost session found and a key dropped, to the entry the method computes |
| `LockEntries.AcquireIsStep` | pkg/metadata/lock.go:210-250 | with a live session, an intact guard and no lock in the store that excludes it, taking the key is a step of the cluster that leaves a fresh entry under the next token |
| `LockEntries.BufferIsStep` | internal/ipc/delegate.go:261-311 | a write that joined the buffer is the cluster's buffered write |
| `Generations.Store.EnsureGenerationKey` | pkg/metadata/gen.go:104-120 | creates the key at 0 only if missing and returns the current generation |
| `Generations.Store.BumpGeneration` | pkg/metadata/gen.go:64-95 | succeeds if and only if the current generation, a missing key counting as 0, is the expected one, and then it is one higher; otherwise nothing changes |
| `Generations.Store.Txn` | pkg/metadata/client.go:175-198 | commits if and only if a guard is known, still holds, and the comparisons hold; a fence is reported only when the generation moved, a miss after a good read only when it did not |
| `Generations.CheckGenerationConsistency` | pkg/scrub/scrubber.go:601-618 | reports, in order, exactly the extents whose generation is above that of a node whose generation is known |
| `Generations.ScrubFindsNoneAhead` | pkg/scrub/scrubber.go:371-420 | with extents read at one moment of a run and generations at that moment or any later one, the check reports nothing |
| `DeviceFlush.SortRuns` | internal/ipc/delegate.go:526-589 | the same runs in device order |
| `DeviceFlush.Coalesce` | internal/ipc/delegate.go:526-589 | adjacent runs merged into groups answer for exactly the same bytes |
| `DeviceFlush.OrderIsNothing` | internal/ipc/delegate.go:526-589 | disjoint runs answer alike in any order |
| `DeviceFlush.FlushData` | internal/ipc/delegate.go:526-589 | sorting, merging and writing in any order leaves the device as writing each run separately would; bytes off the runs are untouched; on failure, even with torn writes, reads through what is still buffered are unchanged |
| `Volume.BufferedPayload` | internal/ipc/writeop.go:132-142 | the payload cut into one zero-padded slice per run |
| `Volume.PayloadByte` | internal/ipc/writeop.go:132-142 | each payload byte is found at the device byte its extent names |
| `Volume.WrittenReads` | internal/ipc/writeop.go:187-251 | what is read after a write is the old contents overlaid with the new bytes |
| `Volume.FlushServed` | internal/ipc/delegate.go:423-495 | data before metadata: a flush publishes a list whose every byte is on the device |
| `Volume.DataFirstIsSafe` | internal/ipc/delegate.go:394-406 | whatever part of the payload reached the device, and however torn, the node reads what it read and what is published reads as it did, so a failed flush or a crash inside one loses nothing |
| `Volume.StepKeepsIff` | internal/ipc/delegate.go:597-616 | every creation, write, flush, torn write, flush that reports an error whether it landed or not, shrink and crash keeps layout, ownership and contents of every file; a discard, a failed direct commit and a repeated one do if and only if they meet the conditions below |
| `Volume.DiscardKeepsIff` | internal/ipc/delegate.go:806-822 | discarding a buffer, which gives back what its plans buried and all it reserved, keeps every named block allocated if and only if the published list names none of those blocks; equivalently, no flush of the buffer landed unseen and no buffered write buried a published block |
| `Volume.CommitErrsKeepsIff` | internal/ipc/datapath.go:311-315 | giving a direct write's runs back after an error does if and only if the commit did not land, and it landed exactly when the published list names one of those runs' blocks |
| `Volume.RecommitKeepsIff` | internal/ipc/datapath.go:296-346 | planning a rejected direct write again with the runs it has, committing it and giving back what the second plan buries does if and only if the list read again names none of those runs, which is when the first attempt had not landed |
| `Discards.DiscardFreesPublished` | internal/ipc/delegate.go:806-822 | a run: one published block, a buffered write over it, a discard; the block is still published and free |
| `Discards.LostFlushFreesPublished` | internal/ipc/delegate.go:449-457 | a run: the first write to an empty file, a flush that lands and reports an error, a discard; nothing was buried, and the block is published and free |
| `Discards.LostCommitFreesPublished` | internal/ipc/datapath.go:311-315 | a run: a direct write whose commit lands and reports an error; its block is published and free |
| `Discards.RecommitFreesPublished` | internal/ipc/datapath.go:296-346 | a run: a direct write lands with its reply lost, is rejected when proposed again and planned over its own extent; the block it commits is free |
| `Volume.BlocksHaveOneOwner` | pkg/metadata/extent.go:246-294 | in every state reached by safe steps every block named by a published or buffered extent is marked allocated, and none is named by two files or two extents of one list |
| `Volume.EveryByteReads` | internal/ipc/datapath.go:622-653 | in every state reached by safe steps the walk resolves every byte of every file to what a replay of the steps on one byte leaves: a write overlays, a shrink cuts, a flush that lands saves, seen or not, a discard or crash falls back to what was saved; and of the published list to what was last saved |
| `Volume.FlushedWriteSurvives` | internal/ipc/delegate.go:423-495 | a byte that was written and then flushed, even with the reply lost, reads back through any later crashes and discards until it is overwritten or cut off |
| `Volume.CutReadsZero` | internal/ipc/datapath.go:730-749 | a byte cut off by a shrink reads as zero, through any crashes, until it is written again |
| `Volume.ReadFile` | internal/ipc/datapath.go:550-659 | serving a read in any such state returns the file's bytes |
| `Bits.WordOps` | pkg/arena/allocator.go:552-568 | testing, setting and clearing a bit of the machine word is the same on the list of booleans, and the word skipped as full is the one whose every bit is set |
| `Allocation.Arena.FindRunIn` | pkg/arena/allocator.go:522-540 | the first free run in the window, maximal up to the limit, despite skipping full words; none only if the window has no free block |
| `Allocation.Arena.FindRun` | pkg/arena/allocator.go:507-519 | a free run despite hint and wrap-around; none only if the arena is full |
| `Allocation.Allocator.Allocate` | pkg/arena/allocator.go:219-256 | succeeds if and only if the held arenas have enough free blocks in total; the runs are disjoint, were free, sum to the request and are all that changed; on failure every bitmap is as before |
| `Allocation.Allocator.FreeLocked` | pkg/arena/allocator.go:267-292 | frees exactly the blocks of the range in its arena, counts those already free, ignores ranges it does not own |
| `Allocation.ReturnedIff` | pkg/arena/allocator.go:267-292 | that range: as many blocks as the size takes, from the one it starts in, up to the end of that arena |
| `Allocation.RunsFit` | pkg/arena/allocator.go:219-256 | runs that sum to the padded size are runs the payload fits |
| `Allocation.Arena.MarkLiveExtents` | pkg/arena/allocator.go:386-397 | after loading a list of extents a block is free exactly if it was free and no extent that lies inside this arena takes it |
| `Allocation.LiveWhole` | pkg/arena/allocator.go:386-397 | an extent inside one of the arenas is marked there whole, so bitmaps rebuilt arena by arena hold every published block |
| `ArenaPool.OneHandAlways` | pkg/metadata/arena.go:41-134 | over all interleavings of draws, claims, records, releases, crashes and lost replies, an arena is recorded for or in flight to at most one node and never both owned and free |
| `ArenaPool.HeldKeptIff` | pkg/arena/allocator.go:467-496 | an action keeps every node allocating only from arenas recorded as its own if and only if it is not a release that reported an error and whose record is gone, which the node could read; if it is, the arena is free for anyone |
| `ArenaPool.NoSharedArena` | pkg/arena/allocator.go:100-199 | in any run in which every arena attached again after an error is still recorded, no arena is allocated from by two nodes |
| `ArenaPool.LostReleaseSharesArena` | pkg/arena/allocator.go:467-496 | a run: the reply to a release is lost, the arena is attached again, another node claims it, both allocate from it |
| `ArenaPool.AccountedKeptIff` | pkg/metadata/arena.go:41-134 | an action keeps every arena ever drawn recorded, on its way to a node or free if and only if it does not drop an id on its way: a lost reply to a draw or claim, an id given up, a crash with one in flight |
| `ArenaPool.NoArenaIsLost` | pkg/metadata/arena.go:41-134 | so over every run without such a drop no arena is lost |
| `ArenaPool.ActionDoes` | pkg/metadata/arena.go:41-134 | where each action leaves the arena it names: drawn, claimed, recorded, detached, released, or held again after a restart |
| `Ownership.ReservedApart` | pkg/arena/allocator.go:219-256 | in any run in which every arena attached again after an error is still recorded, what two nodes reserve from the arenas they hold shares no block |
| `Ownership.NodesShareNoBlock` | pkg/metadata/arena.go:41-134 | in any run of that kind, with each node working in arenas it holds, no block named by a published or buffered extent of one is named by one of the other |
| `ArenaPool.Store.ReleaseArenaID` | pkg/metadata/arena.go:76-88 | moves the arena from owned to free exactly if it was this node's |
| `ArenaPool.Store.ReleaseArena` | pkg/metadata/arena.go:41-62 | moves every listed arena still owned, and only those |
| `ArenaPool.Store.ClaimFreeArena` | pkg/metadata/arena.go:112-134 | takes a listed arena that is still free, none only if none is |
| `ArenaPool.Store.ReserveCounter` | pkg/metadata/alloc.go:43-80 | a draw succeeds exactly if some attempt read the counter as it still is; it returns the larger of counter and floor and moves the counter past what it drew |
| `Namespace.CreateInv` | pkg/metadata/dirent.go:159-215 | creating a file from any stale plan whose comparisons hold keeps names and counts right |
| `Namespace.MkdirInv` | pkg/metadata/dirent.go:231-257 | so does making a directory, with the parent's count adjusted |
| `Namespace.LinkInv` | pkg/metadata/dirent.go:324-373 | so does a link |
| `Namespace.UnlinkKeepsIff` | pkg/metadata/dirent.go:405-464 | an unlink does if and only if it does not take a directory out of a parent that still exists |
| `Namespace.RmdirInv` | pkg/metadata/dirent.go:475-535 | so does a rmdir |
| `Namespace.RenameKeepsIff` | pkg/metadata/dirent.go:557-754 | a rename does if and only if the source still names the inode it moves |
| `Namespace.DropOrphanKeepsIff` | pkg/metadata/dirent.go:759-772 | dropping an orphan does if and only if it has not been linked again |
| `Namespace.StepKeepsIff` | pkg/metadata/dirent.go:159-257 | any operation whose comparisons hold keeps every name's inode existing and every count right if and only if it is sound in those terms |
| `Namespace.CountsAlwaysRight` | pkg/metadata/dirent.go:324-543 | over every interleaving of sound operations planned from stale reads: every name's inode exists, a file's count is its number of names, a directory's 2 plus its subdirectories |
| `NamespaceOps.RenameMovesName` | pkg/metadata/dirent.go:593-613 | a committed rename leaves the source name gone, the target naming the moved inode, and every other name as it was |
| `NamespaceOps.RenameFileDoes` | pkg/metadata/dirent.go:557-668 | renaming a file changes no record but that of a file it replaces, which loses one link, or its record with the last |
| `NamespaceOps.RenameDirDoes` | pkg/metadata/dirent.go:557-668 | renaming a directory moves one from the count of the parent it leaves to that of the parent it enters; a directory it replaces was empty, loses its record and is counted no more; nothing else changes |
| `NamespaceOps.UnlinkDoes` | pkg/metadata/dirent.go:405-464 | an unlink removes the name and one link; the record goes with the last link unless the file is open here; nothing else changes |
| `NamespaceOps.RmdirDoes` | pkg/metadata/dirent.go:475-535 | a rmdir removes the name and record of a directory that had no entries and counts it no more in the parent; nothing else changes |
| `NamespaceOps.MkdirDoes` | pkg/metadata/dirent.go:231-257 | a mkdir adds a name, a directory of two links and one to the parent; nothing else changes |
| `NamespaceOps.CreateDoes` | pkg/metadata/dirent.go:159-215 | a create adds a name and a file of one link; nothing else changes |
| `NamespaceOps.LinkDoes` | pkg/metadata/dirent.go:324-373 | a link adds a name and one to the count of the file; nothing else changes |
| `NamespaceOps.DropOrphanDoes` | pkg/metadata/dirent.go:759-772 | dropping an orphan removes its record; nothing else changes |
| `NamespaceOps.TouchDoes` | pkg/metadata/dirent.go:272-279 | touching a record changes no name and no count |
| `NamespaceOps.UnlinkUndoesLink` | pkg/metadata/dirent.go:324-464 | unlinking a name just linked restores every name and record if and only if the file had a link before or is open |
| `NamespaceOps.RmdirUndoesMkdir` | pkg/metadata/dirent.go:231-257 | removing a directory just made restores every name and record |
| `NamespaceOps.RenameUndoesRename` | pkg/metadata/dirent.go:557-668 | renaming to a free name and back restores every name and record, files and directories alike |
| `Namespace.MissingStaysPinned` | pkg/metadata/dirent.go:231-257 | over every run, a directory record found missing after it existed stays missing, so a plan that compares nothing for it is still right about it when it commits |
| `NamespaceRuns.StaleRenameHappens` | pkg/metadata/dirent.go:557-668 | a run of sound operations that ends in a rename of a name that did mean the moved inode when it was planned and has come to mean another file; it commits and breaks the counts |
| `NamespaceRuns.UnlinkedDirHappens` | pkg/metadata/dirent.go:405-464 | a run: a directory is made and its name unlinked as if it were a file; the parent's count is wrong |
| `NamespaceRuns.RelinkedOrphanHappens` | pkg/metadata/dirent.go:759-772 | a run: an open file is unlinked and read as an orphan, linked again, and then dropped; a name is left without an inode |
| `DirTree.IsDescendant` | pkg/metadata/dirent.go:814-843 | the bounded walk answers yes exactly if the ancestor is above, no exactly if the chain ends without it, and errs exactly on a cycle that misses it |
| `DirTree.MoveKeepsAcyclicIff` | pkg/metadata/dirent.go:577-588 | moving a directory keeps the tree acyclic if and only if the check passes |
| `DirTree.StepKeepsTreeIff` | pkg/metadata/dirent.go:557-668 | a sound operation keeps the tree free of cycles if and only if it is not a rename of a directory beneath itself in the tree it commits to |
| `DirTree.AttachedKeptIff` | pkg/metadata/dirent.go:226-257 | a sound, checked operation keeps every directory under the root if and only if the directory it puts a name in is still there when it commits |
| `DirTree.TreeAlways` | pkg/metadata/dirent.go:557-668 | over every run of sound operations whose renames check the tree they change, no chain of parents closes into a cycle |
| `DirTree.AttachedAlways` | pkg/metadata/dirent.go:226-257 | over every such run whose names go into directories that are still there, every directory stays under the root |
| `TreeRuns.DetachedDirHappens` | pkg/metadata/dirent.go:226-257 | a run: a directory is made in one that was removed, by a plan that compares nothing for it; counts and tree are right and the new directory is under nothing |
| `TreeRuns.ConcurrentMovesTieKnot` | pkg/metadata/dirent.go:577-588 | a run: two renames planned on one tree both pass the walk and, committed one after the other, all their comparisons; the second leaves a cycle |

## Left out

- The FUSE daemon, sockets, wire framing, device ioctls, NVMe and EC2 calls, metrics and deployment: plumbing.
- Real time: lease lengths, hold times, backoff and watchdog windows are nondeterministic steps instead.
- The fencing controller and the membership manager; setting a generation unconditionally, which would break its growth.
- Timestamps written behind, punching holes at unaligned ranges, the directory name cache, readdir cursors, extended attributes, quotas, record codecs.
- Mutex order and deadlock: each operation on a lock entry is one atomic step.
- Rewriting, after the commit, the extents a full transaction put off; `ReadBack.WriteReadsBackIff` says exactly which reads are wrong until then.
- The inode record's own fields other than the size; the record is put without a comparison, as in the program, under the held lock.
- Extended-attribute and symlink keys removed with an inode, and the exchange and no-replace flags of rename.
- Utilisation counters of the arenas.
- Interleaving inside one bump of a generation: its two transactions are one step.
- `Volume` machine: block-aligned offsets, extents in this node's arenas, every buried extent planned for, and no buffered write left when a shrink or a reclaim runs; `ReadBack` covers the other offsets and owners.
