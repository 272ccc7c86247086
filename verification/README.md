# Verified models of Linux 2.4.37 kernel code

A Dafny model of the hardest parts of the dentry cache, the buffer cache, disk quota and the crypto
layer of Linux 2.4.37, with proofs. `dafny verify dfyconfig.toml` checks all of it.

Code that changes state in place is modelled by classes and methods with the source's loops,
branches and error returns, each proved against a function on values; the promises are then proved
about those functions, for all inputs, all runs or all interleavings.

* **Dentry cache** (`DcacheModel`, `DcacheSafety`, `DcacheMove`, `DcacheRuns`, `DcacheLookups`,
  `DcacheHistory`, `DcacheWalk`, `Dcache`). One invariant ties counts, the unused list, the hash queues, name buffers, the tree and
  the statistics together. Each locked region keeps it, hence so does every run, and the BUG() checks
  are never reached. Lookup and rename are characterised exactly, and what each region does to every
  lookup; the order of pruning and the second chance are told from the history of a run. The
  stackless tree walk and `shrink_dcache_parent` are proved to terminate and to do what they are for.
* **Asynchronous page reads** (`AsyncRead`). Completion handlers as interleaved atomic steps.
* **Buffered writes** (`PrepareWrite`). Page bytes, buffer states, the disk and the file's bytes, while
  the page is cached and after it has been written back and dropped.
* **Buffer lists** (`BufferLru`). The circular lists with their actual links, and the writeback walk
  that follows links of buffers it moves.
* **Disk quota** (`DquotSpace`, `DquotGrace`, `DquotRefs`, `DquotLookups`, `DquotThreads`). Conservation
  of charges, verdicts, grace times, the reference protocol under every interleaving at blocking points, and freedom from deadlock of concurrent
  transfers.
* **Scatterlists and block modes** (`Scatterlist`, `Scatterwalk`, `CipherModes`, `Cipher`). Memory is
  one array, a scatterlist a list of addresses, so overlap and in-place work are part of the model.
* **AES** (`Gf256`, `AesSpec`, `AesWords`, `AesTables`, `AesRounds`, `AesKeys`, `Aes`, `AesVectors`,
  `RoundChain`). From GF(2^8) and the generated tables to the round trip and the examples of FIPS 197. The two key schedules are
  one region of 120 words, because the last group of a 32-byte key runs past the first one.
* **Serpent and TEA** (`Bits`, `SerpentBoxes`, `Serpent`, `SerpentKey`, `SerpentBits`, `Tea`,
  `TeaVectors`). Register programs against the published tables and round keys; loops whose end
  depends on a wrapping sum; the known answers of the TEA family.
* **Streaming digests and HMAC** (`Octets`, `BlockHash`, `Sha256`, `Md5`, `Wp512`, `DigestCtx`,
  `CryptoDigest`, `Hmac`, `DigestExamples`). The compression functions are parameters.

`Seqs` holds facts about sequences, `Options` the option type.

Where a promise does not hold on all inputs, the exact condition is proved:

* `MoveForest` says when a move leaves a forest (`MoveOntoChild` shows it fail), and
  `MoveFindsTarget` and `MoveOldName` what its new and its old name find.
* `StaleExact` and `ErrorLeaves` say when a failed write leaves the page reading as before, and which
  blocks it leaves behind (`StaleWrite` shows it fail); `ErrorLoses` says the same of the page once
  dropped (`LostWrite` shows it fail).
* `StepExact` and `RunExact` say when an operation and a run conserve the charges of a quota,
  `AlwaysConserved` and `AlwaysConservedInodes` from which states every run does (`StaleFree` shows
  it fail).
* `AllocVerdict` and `TransferVerdict` say when an allocation and a transfer are carried out,
  `AllocTimes`, `FreeTimes` and `TransferTimes` when they start and stop grace times
  (`SelfMoveDisarms` shows what the callers must not ask for).
* `NextPageExact` says when a walk's next page is where the segment goes on, `NameExact` when page and
  offset name an address.
* `CountExact` and `StandardPadding` say when SHA-256 counts correctly (`LongCallMiscounts` shows it
  fail), `LoopEnds` when its block loop can stop, and `Kept` how much one Whirlpool call takes in
  (`LongCallDropped` shows a call lost).
* `OneCall` and `KeyExact` say when one call, and a long HMAC key, are hashed as the standards ask.

Memory allocation, `get_block`, the outcome and the timing of I/O, privilege and time are parameters
of the operations or steps of the environment.

## Model

| member | source | states |
|---|---|---|
| DcacheSafety.KillInv | linux-2.4.37/fs/dcache.c:297-310 | unlinking and freeing a childless dentry with no reference left keeps the whole cache invariant: counts equal external references plus children, the unused list holds exactly the zero counts, every hashed dentry is once in its own bucket, every external name buffer has one owner, and both statistics are exact; the reference on the parent is owed to a later dput |
| DcacheSafety.GetInv | linux-2.4.37/include/linux/dcache.h:244-252 | dget on a dentry in use keeps the invariant and adds one external reference |
| DcacheSafety.GetLockedInv | linux-2.4.37/fs/dcache.c:221-229 | __dget_locked also works on an unused dentry: it leaves the unused list and the statistics stay exact |
| DcacheSafety.LookupInv | linux-2.4.37/fs/dcache.c:709-744 | a lookup keeps the invariant; a hit costs exactly one new reference |
| DcacheSafety.PutInv | linux-2.4.37/fs/dcache.c:120-163 | dput of a held reference never meets its BUG() check, keeps the invariant, and frees the dentry only if it had no children and no other reference |
| DcacheSafety.PruneInv | linux-2.4.37/fs/dcache.c:325-356 | the tail of the unused list always has count 0, so one pass of prune_dcache never meets its BUG() check; it frees only childless, unreferenced dentries |
| DcacheSafety.ReorderInv | linux-2.4.37/fs/dcache.c:481-526 | any reordering of the unused list keeps the invariant |
| DcacheSafety.DropInv | linux-2.4.37/include/linux/dcache.h:147-153 | d_drop keeps the invariant; what it does to the lookups is DropFinds |
| DcacheSafety.RehashInv | linux-2.4.37/fs/dcache.c:839-846 | d_rehash of an unhashed dentry keeps the invariant and does not meet its BUG() check; what it does to the lookups is RehashFinds |
| DcacheSafety.AllocInv | linux-2.4.37/fs/dcache.c:590-640 | d_alloc keeps the invariant: the parent gains a child, a long name one new buffer |
| DcacheRuns.BootGood | linux-2.4.37/fs/dcache.c:1181-1240 | the empty cache satisfies the invariant, for every number of hash queues that covers the hash function |
| DcacheRuns.ExecGood | linux-2.4.37/fs/dcache.c:120-932 | every locked region that its callers may enter leads to a state that satisfies the invariant, and no BUG() fires |
| DcacheRuns.RunGood | linux-2.4.37/fs/dcache.c:120-932 | safety over every run of get, put, prune, alloc, lookup, drop, invalidate, rehash, move and reordering regions: the invariant holds at the end and no BUG() check ever fired |
| DcacheRuns.FreedUnreferenced | linux-2.4.37/fs/dcache.c:120-163 | whichever region runs, a dentry that disappears had no children and no reference but the one being put |
| DcacheMove.FindExact | linux-2.4.37/fs/dcache.c:709-744 | the chain scan finds something if and only if a hashed dentry with that parent, hash and name exists, and what it finds is one |
| DcacheMove.MoveInv | linux-2.4.37/fs/dcache.c:904-932 | d_move keeps the invariant, in particular every hashed dentry in its own bucket and every name buffer with one owner, when neither dentry lies above the other's parent |
| DcacheMove.MoveForest | linux-2.4.37/fs/dcache.c:904-932 | d_move leaves a forest if and only if neither dentry lies on the way from the root to the other's parent; this is what callers test with is_subdir |
| DcacheMove.MoveOntoChild | linux-2.4.37/fs/dcache.c:904-932 | moving a dentry onto its own child, or its parent, breaks the tree |
| DcacheMove.MoveText | linux-2.4.37/fs/dcache.c:863-932 | after switch_names and the swap of parents the moved dentry bears the target's parent, hash and name, is hashed exactly if the target was, and no third dentry changes its name |
| DcacheMove.MoveFind | linux-2.4.37/fs/dcache.c:904-932 | hashed target or not, neither dentry being a root or the parent of the other: other lookups answer as before, whoever found the target now finds the moved dentry, and the old name finds nothing if and only if no other hashed dentry bears it |
| DcacheMove.MoveOldName | linux-2.4.37/fs/dcache.c:904-932 | the exact condition for the moved dentry's old name: it finds nothing if and only if no other hashed dentry bears it, the target included, whether or not the target was hashed |
| DcacheMove.MoveFindsTarget | linux-2.4.37/fs/dcache.c:904-932 | hashed target or not: the target's old name finds the moved dentry if and only if the target is the first match of its queue once the moved dentry is off it |
| DcacheMove.MoveOntoUnhashed | linux-2.4.37/fs/dcache.c:904-932 | an unhashed target leaves the moved dentry unhashed: no name finds it |
| DcacheLookups.RehashFinds | linux-2.4.37/fs/dcache.c:839-846 | after d_rehash the name of the dentry finds this dentry, and every other name finds what it found before |
| DcacheLookups.DropFinds | linux-2.4.37/include/linux/dcache.h:147-153 | after d_drop no name finds the dentry; names that found another dentry or none, in particular all names but its own, find the same |
| DcacheLookups.DropRehash | linux-2.4.37/include/linux/dcache.h:147-153 | dropping and rehashing a dentry makes it the one its name finds and changes no other lookup |
| DcacheLookups.KillFinds | linux-2.4.37/fs/dcache.c:297-310 | freeing a dentry and its name takes it out of the lookups and changes no lookup that found another |
| DcacheLookups.PutFinds | linux-2.4.37/fs/dcache.c:120-163 | dput changes no lookup, whether or not it frees: what it frees was unhashed |
| DcacheLookups.PruneFinds | linux-2.4.37/fs/dcache.c:325-356 | a pass of prune_dcache changes lookups exactly if it frees a dentry: that one is found no more, all others as before |
| DcacheLookups.AllocFinds | linux-2.4.37/fs/dcache.c:590-640 | a new dentry is found by no name, and no other lookup changes |
| DcacheLookups.FindAfter | linux-2.4.37/fs/dcache.c:120-846 | for every region but d_move and every name: the rehashed dentry is found under its own name, a dentry that is dropped, invalidated (unless a directory in use) or freed by pruning is found no more, and every other lookup answers as before |
| DcacheHistory.RunAged | linux-2.4.37/fs/dcache.c:120-356 | after every run without select_parent the unused list is in the order in which its dentries came to rest, by a last dput or by being spared by a pruning pass |
| DcacheHistory.RunMarked | linux-2.4.37/fs/dcache.c:325-356 | after every run the REFERENCED flag is set on exactly the dentries that a lookup has returned since a pruning pass last examined them |
| DcacheHistory.PruneVerdict | linux-2.4.37/fs/dcache.c:325-356 | after every run from boot without select_parent: prune_dcache examines the dentry that has rested longest, frees it if and only if no lookup has found it since it was last examined, and otherwise puts it behind all others |
| DcacheWalk.FromSound | linux-2.4.37/fs/dcache.c:481-526 | the stackless walk visits only descendants of the parent |
| DcacheWalk.FromComplete | linux-2.4.37/fs/dcache.c:481-526 | the walk visits every descendant |
| DcacheWalk.BelowExact | linux-2.4.37/fs/dcache.c:481-526 | visited means: live, different from the parent, and below it |
| DcacheWalk.FromNoDup | linux-2.4.37/fs/dcache.c:481-526 | no descendant is visited twice |
| DcacheWalk.RetailTail | linux-2.4.37/fs/dcache.c:481-526 | the zero-count descendants end up, in visiting order, at the end of the unused list that pruning takes from, and the list keeps its members |
| Dcache.PutAllEffect | linux-2.4.37/fs/dcache.c:120-163 | a whole dput, with the cascade up the parents, ends in a good state, takes exactly one reference, and frees only unhashed dentries on the way up from the one put |
| Dcache.AllocatedFresh | linux-2.4.37/fs/dcache.c:590-640 | a new dentry is unhashed, has one reference and the key it was given, and nobody loses a reference |
| Dcache.PrunePassEffect | linux-2.4.37/fs/dcache.c:325-356 | every pass of prune_dcache uses up a live dentry or a REFERENCED flag and changes no external reference |
| Dcache.DentryCache.FreeDentry | linux-2.4.37/fs/dcache.c:297-310 | unlinks, unhashes and frees one dentry and its name buffer |
| Dcache.DentryCache.PutRegion | linux-2.4.37/fs/dcache.c:120-163 | the locked region of dput is the modelled step, and the step is never the BUG() one |
| Dcache.DentryCache.Dput | linux-2.4.37/fs/dcache.c:120-163 | the loop that stands for the tail recursion terminates with the world of the whole cascade |
| Dcache.DentryCache.PruneRegion | linux-2.4.37/fs/dcache.c:325-356 | the locked part of one pruning pass is the modelled step, and the step is never the BUG() one |
| Dcache.DentryCache.PruneOne | linux-2.4.37/fs/dcache.c:297-356 | one pass with the dput of the parent keeps the invariant and decreases live dentries plus REFERENCED flags; it answers that it freed one if and only if fewer dentries are left |
| Dcache.DentryCache.PruneDcache | linux-2.4.37/fs/dcache.c:325-356 | terminates; either the unused list is empty or exactly the positive number asked for was pruned, and at least as many dentries are gone as were pruned, since the dput of a parent may free more |
| Dcache.DentryCache.SelectParent | linux-2.4.37/fs/dcache.c:481-526 | terminates; the visited dentries are exactly the descendants, each once; the unused list is reordered as stated and the count returned is that of the zero-count descendants |
| Dcache.DentryCache.ShrinkDcacheParent | linux-2.4.37/fs/dcache.c:535-541 | terminates; afterwards no descendant has count 0, so every remaining leaf is held from outside |
| Dcache.DentryCache.ScanChain | linux-2.4.37/fs/dcache.c:709-744 | the chain walk succeeds if and only if a hashed child with that key exists |
| Dcache.DentryCache.DLookup | linux-2.4.37/fs/dcache.c:709-744 | a hit is referenced, flagged and off the unused list |
| Dcache.DentryCache.Hit | linux-2.4.37/fs/dcache.c:221-229 | the dentry found gains a reference, leaves the unused list and gets its second chance |
| Dcache.DentryCache.IsSubdir | linux-2.4.37/fs/dcache.c:1090-1107 | the walk up terminates and answers ancestry, in both directions |
| Dcache.DentryCache.MoveQueues | linux-2.4.37/fs/dcache.c:911-917 | the hash queue part of d_move |
| Dcache.DentryCache.DMove | linux-2.4.37/fs/dcache.c:904-932 | the whole d_move is the modelled step and keeps the invariant |
| Dcache.DentryCache.Dget | linux-2.4.37/include/linux/dcache.h:244-252 | one more reference on a dentry in use |
| Dcache.DentryCache.LinkNew | linux-2.4.37/fs/dcache.c:599-640 | the assignments of d_alloc, with the name in the dentry or in a buffer of its own, make the new dentry of the model and link it to its parent |
| Dcache.DentryCache.DAlloc | linux-2.4.37/fs/dcache.c:590-640 | without memory nothing changes; otherwise the new dentry of the model, and the invariant holds |
| AsyncRead.ScanRing | linux-2.4.37/fs/buffer.c:836-844 | the ring scan finds a busy neighbour if and only if there is one, and otherwise whether all are uptodate |
| AsyncRead.Collect | linux-2.4.37/fs/buffer.c:1799-1822 | exactly the buffers that must be read are collected; holes are filled; the error flag records exactly a failed get_block |
| AsyncRead.ReadFullPage | linux-2.4.37/fs/buffer.c:1777-1854 | either nothing has to be read and the page is finished at once, or the protocol starts with every chosen buffer locked and marked before any I/O; the lock and the state of every other buffer are as they were or filled |
| AsyncRead.StartedInv | linux-2.4.37/fs/buffer.c:1835-1849 | that start satisfies the invariant of the protocol |
| AsyncRead.NextInv | linux-2.4.37/fs/buffer.c:805-869 | every atomic step of every completion handler, and every step of others, keeps the invariant |
| AsyncRead.RunInv | linux-2.4.37/fs/buffer.c:805-869 | the invariant holds after every interleaving |
| AsyncRead.LockedSince | linux-2.4.37/fs/buffer.c:833-844 | from every reachable state, what the lock of one buffer is after a run: what the last lock or unlock of others said, and without one, locked exactly as long as its own handler has not passed the scan |
| AsyncRead.UnlockedOnce | linux-2.4.37/fs/buffer.c:805-869 | in every interleaving the page is unlocked at most once, and only when all handlers have returned; when they have, it was unlocked exactly once, by exactly one of them, is uptodate if and only if no error was recorded, and every buffer read is uptodate if and only if its read succeeded and no longer under I/O; the page is never uptodate while a buffer is not; at every time a chosen buffer is locked if and only if its handler has not reached the scan or somebody else has locked it since and not unlocked it |
| AsyncRead.Finish | linux-2.4.37/fs/buffer.c:805-869 | from every state that satisfies the invariant the handlers alone can all return, so none waits for another |
| AsyncRead.Completes | linux-2.4.37/fs/buffer.c:805-869 | every run from the start can be completed, and then the page has been unlocked exactly once |
| PrepareWrite.CachedPage.PrepareBlock | linux-2.4.37/fs/buffer.c:1625-1690 | one block that meets the write: mapped or failed exactly as get_block says, zeroed at its edges if new, queued for reading if and only if it has bytes that only the disk knows, and the cache still agrees with the file |
| PrepareWrite.CachedPage.VisitBlock | linux-2.4.37/fs/buffer.c:1625-1690 | one round of the loop keeps agreement and the bound on queued reads; on a failure the blocks before have been fixed up |
| PrepareWrite.CachedPage.PrepareLoop | linux-2.4.37/fs/buffer.c:1625-1690 | for every block size and every mix of buffer states: at most two reads are queued, exactly those needed, and every buffer is left as its state and get_block's answer say; on a failure the state of every buffer is that of the fix-up at the first block that fails |
| PrepareWrite.CachedPage.AwaitReads | linux-2.4.37/fs/buffer.c:1682-1690 | the wait loop succeeds if and only if every queued read did, and then every block of the write is ready; nothing else changes in the buffers |
| PrepareWrite.CachedPage.FixUp | linux-2.4.37/fs/buffer.c:1691-1727 | after a failed get_block exactly the new blocks of the write before it that are not uptodate become uptodate and dirty, every new one holds zeros, and the cache still agrees with the unchanged file |
| PrepareWrite.CachedPage.Prepare | linux-2.4.37/fs/buffer.c:1625-1690 | success or failure, the cache agrees with the file; it succeeds if and only if get_block fails nowhere and every read that is needed succeeds; the state of every buffer afterwards, after success, after a failed read and after a failed get_block; on success every block of the write is ready to be written |
| PrepareWrite.CachedPage.Store | linux-2.4.37/fs/buffer.c:1730-1768 | the caller's copy into the prepared page |
| PrepareWrite.CachedPage.Commit | linux-2.4.37/fs/buffer.c:1730-1768 | exactly the blocks of the write become uptodate and dirty, and the page becomes uptodate if and only if all its buffers are |
| PrepareWrite.BlocksCover | linux-2.4.37/fs/buffer.c:1730-1768 | a page all of whose buffers are uptodate and agree holds the file's bytes |
| PrepareWrite.WrittenAgrees | linux-2.4.37/fs/buffer.c:1730-1768 | prepare, store and commit re-establish agreement with the updated file |
| PrepareWrite.ReadsFile | linux-2.4.37/fs/buffer.c:1777-1854 | a page that agrees with a file, and whose other blocks are on disk or holes, reads as that file |
| PrepareWrite.StaleExact | linux-2.4.37/fs/buffer.c:1682-1727 | after a failed call a read of the page returns the old file if and only if no block is left behind that the call allocated and neither cached nor wrote, and whose old contents on disk are not zero |
| PrepareWrite.ErrorLeaves | linux-2.4.37/fs/buffer.c:1682-1727 | a block is left behind like that if and only if get_block failed nowhere, so the error is a failed read, and the block is one of the write that was unmapped and not uptodate, on a page not uptodate, and had to be allocated |
| PrepareWrite.CachedPage.Write | linux-2.4.37/fs/buffer.c:1625-1768 | a whole buffered write: when it succeeds and with which error it fails; on success the page reads as the updated file, and still does once its dirty buffers are written back and the page is dropped; after an error it reads as the old one if and only if nothing stale is left behind, and which blocks are left behind; and so it does once dropped if and only if no block is lost |
| PrepareWrite.StaleWrite | linux-2.4.37/fs/buffer.c:1682-1690 | a write over three holes and part of a block whose read fails: the page then reads as before if and only if the disk happens to hold zeros where the holes were allocated |
| PrepareWrite.CachedPage.StoreAndCommit | linux-2.4.37/fs/buffer.c:1730-1768 | on a prepared page the copy and the commit make the page read as the updated file, now and after writeback |
| PrepareWrite.WrittenKept | linux-2.4.37/fs/buffer.c:1730-1768 | if every block that is not dirty was on disk before, so it is after a successful write: the new contents outlive the page |
| PrepareWrite.ErrorLoses | linux-2.4.37/fs/buffer.c:1682-1727 | after a failed call the page, once dropped, reads as the old file if and only if every block holds zeros on disk that the call allocated and left clean: before a failed read those not both uptodate and dirty, before a failed get_block those that were uptodate and clean, which the fix-up passes over |
| PrepareWrite.LostWrite | linux-2.4.37/fs/buffer.c:1691-1727 | an uptodate page over two holes and no space for the second: it reads as before, and once dropped if and only if the disk happens to hold zeros in the block allocated for the first |
| BufferLru.InsertInv | linux-2.4.37/fs/buffer.c:572-588 | inserting an unlinked buffer keeps three well-formed circular lists with exact counters, exact size totals and exact list names |
| BufferLru.RemoveInv | linux-2.4.37/fs/buffer.c:590-609 | removing a linked buffer keeps them, and the counters do not go below zero |
| BufferLru.BufferLists.LinkIn | linux-2.4.37/fs/buffer.c:572-588 | the pointer assignments put the buffer at the end of the ring |
| BufferLru.BufferLists.Insert | linux-2.4.37/fs/buffer.c:572-588 | the list gains the buffer at its end; flags of all buffers are as before |
| BufferLru.BufferLists.Unlink | linux-2.4.37/fs/buffer.c:590-609 | the pointer assignments take the buffer out of the ring and correct the head |
| BufferLru.BufferLists.Remove | linux-2.4.37/fs/buffer.c:590-609 | the list loses exactly this buffer; an unlinked buffer is left alone |
| BufferLru.BufferLists.Refile | linux-2.4.37/fs/buffer.c:1136-1150 | the buffer moves to the end of the list its flags ask for, and nowhere if it is named there already; if it is on a list afterwards, that is the dirty list exactly if it is dirty, locked or not, the locked list exactly if it is locked and clean, the clean list otherwise; if every other dirty buffer was in reach of the writeback, all are |
| BufferLru.BufferLists.MarkDirty | linux-2.4.37/fs/buffer.c:1096-1108 | a buffer made dirty stays in reach of the writeback, and so do all others |
| BufferLru.BufferLists.WriteOne | linux-2.4.37/fs/buffer.c:262-284 | one buffer that is not passed over leaves the dirty list, locked if it was dirty |
| BufferLru.BufferLists.Walk | linux-2.4.37/fs/buffer.c:255-284 | the walk follows the links of buffers it moves, yet treats each buffer of the original list once |
| BufferLru.BufferLists.WriteSome | linux-2.4.37/fs/buffer.c:248-291 | at most 32 buffers are written, each once and dirty, unlocked and of the device; they are exactly the dirty ones made clean, and are left locked; the answer 0 means that every buffer of the dirty list was visited and only locked or foreign ones are left on it; no dirty buffer gets out of reach |
| BufferLru.BufferLists.WriteUnlocked | linux-2.4.37/fs/buffer.c:296-301 | terminates although buffers may be unlocked between calls, after at most one repeat per 32 buffers; then only locked or foreign buffers are left on the dirty list, whatever left it is clean, and, if dirty buffers started out in reach, the only dirty buffers on any list are locked or belong to another device |
| DquotSpace.DecrExact | linux-2.4.37/fs/dquot.c:773-795 | the saturating decrements of bytes and of inodes are exact if and only if no more is taken off than was charged |
| DquotSpace.StepWellFormed | linux-2.4.37/fs/dquot.c:1020-1218 | every operation keeps the state well formed |
| DquotSpace.FreeExact | linux-2.4.37/fs/dquot.c:1094-1109 | a free changes what a quota is charged beyond its attached inodes if and only if the quota is the inode's and more is freed than it is charged; it can only grow |
| DquotSpace.TransferExact | linux-2.4.37/fs/dquot.c:1166-1218 | a transfer changes it if and only if it is carried out, the inode leaves this quota, and the quota is charged less than the inode has bytes; in inodes if and only if it is charged for none; it can only grow |
| DquotSpace.StepExact | linux-2.4.37/fs/dquot.c:1020-1218 | the exact condition for any operation: what a quota is charged beyond its attached inodes never shrinks, and stays if and only if whatever the operation takes off the quota was charged to it |
| DquotSpace.StepConserves | linux-2.4.37/fs/dquot.c:1020-1218 | a quota charged at least for its attached inodes is charged the same beyond them after any operation, in bytes and in inodes |
| DquotSpace.RunExact | linux-2.4.37/fs/dquot.c:1020-1218 | the exact condition over every run: the charge beyond the attached inodes never shrinks, and stays if and only if every operation of the run took off only what was charged |
| DquotSpace.RunConserves | linux-2.4.37/fs/dquot.c:1020-1218 | conservation over every run, in bytes and inodes, for every quota that starts out charged at least for its attached inodes |
| DquotSpace.AlwaysConserved | linux-2.4.37/fs/dquot.c:1020-1218 | every run conserves the bytes of a quota if and only if it starts out charged for the bytes of its attached inodes |
| DquotSpace.AlwaysConservedInodes | linux-2.4.37/fs/dquot.c:1020-1218 | every run conserves the inodes of a quota if and only if it starts out charged for its attached inodes, or for one of them and there is no other quota of its type to hand inodes to |
| DquotSpace.StaleFree | linux-2.4.37/fs/dquot.c:785-795 | conservation fails for a quota that is charged nothing while its inode holds ten bytes: freeing them takes nothing off |
| DquotSpace.TransferVerdict | linux-2.4.37/fs/dquot.c:874-948 | a transfer is carried out if and only if every receiving quota has room for one inode and the bytes: within the hard limits, and within the soft ones or their grace time, or exempt |
| DquotSpace.AllocVerdict | linux-2.4.37/fs/dquot.c:909-948 | an allocation is carried out if and only if every quota of the inode has room for the bytes, within the hard limit and within the soft one or its grace time, or is exempt; a preallocation moreover only if it does not exceed a soft limit whose grace time has not started |
| DquotSpace.ToQbLeast | linux-2.4.37/include/linux/quota.h:56-58 | a number of bytes is within a limit in blocks if and only if it is at most 1024 times the limit |
| DquotSpace.FailureChangesNothing | linux-2.4.37/fs/dquot.c:1030-1052 | a refused allocation or transfer changes no usage counter and no inode |
| DquotSpace.AllocWithinLimit | linux-2.4.37/fs/dquot.c:909-948 | an allocation that succeeds without privilege leaves every charged quota within its nonzero hard limit |
| DquotSpace.TransferWithinLimit | linux-2.4.37/fs/dquot.c:1135-1218 | so does a transfer for any receiving quota, however stale its usage, in inodes and, if the inode has bytes, in bytes |
| DquotSpace.QuotaCache.AllocSpace | linux-2.4.37/fs/dquot.c:1020-1052 | all checks first, then all charges: the modelled step; it succeeds if and only if every quota of the inode takes the bytes |
| DquotSpace.QuotaCache.FreeSpace | linux-2.4.37/fs/dquot.c:1094-1109 | the modelled step, for frees bounded by the inode's bytes |
| DquotSpace.QuotaCache.MoveSlot | linux-2.4.37/fs/dquot.c:1191-1195 | one inode and its bytes move from one quota to another |
| DquotSpace.QuotaCache.MoveLoop | linux-2.4.37/fs/dquot.c:1184-1205 | the transfer loop moves the charge and the inode's slot for every quota type |
| DquotSpace.QuotaCache.TransferInode | linux-2.4.37/fs/dquot.c:1166-1218 | all checks first, then the moves: the modelled step; it succeeds if and only if every receiving quota has room |
| DquotGrace.AllocTimes | linux-2.4.37/fs/dquot.c:909-948 | an allocation starts the clock of a quota if and only if it takes it over its soft limit without breaking the hard one, no clock runs, it is no preallocation, and no quota before it has refused; a later refusal does not stop it |
| DquotGrace.FreeTimes | linux-2.4.37/fs/dquot.c:785-796 | a free stops the clock of a quota if and only if it leaves it below its soft limit |
| DquotGrace.TransferTimes | linux-2.4.37/fs/dquot.c:1166-1218 | which clocks a transfer starts, as its checks come to the receiving quotas, and which it stops, where the quota it leaves goes below a soft limit |
| DquotGrace.RunArmed | linux-2.4.37/fs/dquot.c:773-948 | over every run of allocations, frees and changes of owner: a quota above a soft limit has its clock running, in bytes and in inodes |
| DquotGrace.SelfMoveDisarms | linux-2.4.37/fs/dquot.c:1191-1195 | handing an inode to the quota it has already would stop the clock of a quota that stays above its limit; dquot_transfer is called for changes of owner only |
| DquotRefs.StepInv | linux-2.4.37/fs/dquot.c:480-666 | every step between blocking points keeps the invariant |
| DquotRefs.RunInv | linux-2.4.37/fs/dquot.c:480-666 | the invariant holds after every interleaving of get, put, duplicate, prune, attach, detach and swap |
| DquotRefs.EmptyInv | linux-2.4.37/fs/dquot.c:480-495 | the empty cache satisfies the invariant |
| DquotRefs.Protocol | linux-2.4.37/fs/dquot.c:480-666 | after every run from the empty cache: a duplicate implies more references than duplicates, a held, duplicated or attached quota has a positive count, a quota on the free list is clean and unreferenced, and no two hashed quotas share superblock, type and id |
| DquotRefs.PutDuplicateKeeps | linux-2.4.37/fs/dquot.c:655-666 | dqputduplicate never drops the last reference |
| DquotRefs.PrunedUnused | linux-2.4.37/fs/dquot.c:480-495 | a pruned quota is clean and nobody holds, duplicates or attaches it |
| DquotRefs.PutWaitsForDuplicates | linux-2.4.37/fs/dquot.c:524-565 | a dqput that cannot go on waits for a duplicate to go, or has a write to do after which it can go on |
| DquotRefs.DquotCache.FindDquot | linux-2.4.37/fs/dquot.c:195-206 | found if and only if a hashed quota has the key |
| DquotRefs.DquotCache.DqputPass | linux-2.4.37/fs/dquot.c:524-565 | one pass of dqput releases the reference, or changes nothing and says what it waits for |
| DquotRefs.DquotCache.DropReference | linux-2.4.37/fs/dquot.c:543-564 | the end of dqput: one reference less, and the last one puts the quota on the free list |
| DquotRefs.DquotCache.DqgetPass | linux-2.4.37/fs/dquot.c:591-633 | one pass of dqget takes the cached quota, inserts its spare one, or asks for one; it never hashes a second quota with the key |
| DquotRefs.DquotCache.TakeReference | linux-2.4.37/fs/dquot.c:615-623 | a cached quota gains a reference and leaves the free list if it was unused |
| DquotRefs.DquotCache.PruneLast | linux-2.4.37/fs/dquot.c:480-495 | one unused quota goes; no referenced one changes |
| DquotRefs.DquotCache.PruneDqcache | linux-2.4.37/fs/dquot.c:480-495 | as many unused quotas go as asked for, if there are as many |
| DquotLookups.LookupAfter | linux-2.4.37/fs/dquot.c:195-207 | after every step of the protocol: an inserted quota is found under its key, a pruned one no more, and every other lookup answers as before |
| DquotLookups.DirtyAfter | linux-2.4.37/fs/dquot.c:330-345 | a quota is dirty exactly from being marked until it is written |
| DquotLookups.GetPut | linux-2.4.37/fs/dquot.c:524-634 | a reference taken by dqget and put again changes nothing, except that a quota that was unused becomes the next to be pruned |
| DquotLookups.PutPrune | linux-2.4.37/fs/dquot.c:480-497 | the quota whose last reference was put last is the first to be pruned |
| DquotLookups.SwapBack | linux-2.4.37/fs/dquot.c:1197-1203 | swapping the quota of an inode twice gives it its first one back |
| DquotLookups.AttachBack | linux-2.4.37/fs/dquot.c:981-989 | a quota attached to an empty slot of an inode and detached again is back with its thread |
| DquotLookups.DuplicateBack | linux-2.4.37/fs/dquot.c:636-668 | a duplicate taken and put again changes nothing |
| DquotThreads.DoInv | linux-2.4.37/fs/dquot.c:1135-1218 | with several transfers at work, each in its own thread with its own references and duplicates, every step, also going to sleep in __wait_dup_drop and waking, keeps the invariant: each thread's slots are accounted for in the shared cache |
| DquotThreads.RunInv | linux-2.4.37/fs/dquot.c:1135-1218 | the invariant holds after every interleaving of the threads |
| DquotThreads.BootInv | linux-2.4.37/fs/dquot.c:1135-1218 | any number of idle threads over an empty cache satisfies it |
| DquotThreads.WaitsForOther | linux-2.4.37/fs/dquot.c:302-315 | a thread that sleeps in __wait_dup_drop while a duplicate is left, or is about to sleep, waits for a duplicate of another thread, never for its own, and that thread, if it waits too, waits at an earlier quota type |
| DquotThreads.ReferenceFirstWaits | linux-2.4.37/fs/dquot.c:1206-1216 | why the duplicate must go first: a thread that put its reference while it still had its duplicate of the same quota could go on if and only if somebody else held a further reference |
| DquotThreads.OwnDuplicateLasts | linux-2.4.37/fs/dquot.c:1206-1216 | and it would sleep for ever: whatever the other threads do, the duplicate of a thread that does nothing stays, so a sleeper with a duplicate of its own is never woken |
| DquotThreads.SomeoneGoesOn | linux-2.4.37/fs/dquot.c:524-565 | no deadlock: while a thread is not done, some thread that is not done neither sleeps for a duplicate nor is about to |
| DquotThreads.AllFinish | linux-2.4.37/fs/dquot.c:1206-1216 | from every state that satisfies the invariant all threads can finish |
| DquotThreads.NoDeadlock | linux-2.4.37/fs/dquot.c:1135-1218 | after every run from the start no thread waits for a duplicate of its own, and the run can be completed so that every thread is done |
| Scatterwalk.ScatterWalk.Start | linux-2.4.37/crypto/scatterwalk.c:49-61 | the walk stands for all addresses of the list from this segment on, for segments that start in their first page or do not reach the end of the page they start in |
| Scatterwalk.ScatterWalk.Map | linux-2.4.37/crypto/scatterwalk.c:63-66 | mapping changes no address |
| Scatterwalk.ScatterWalk.PageDone | linux-2.4.37/crypto/scatterwalk.c:68-90 | on to the next page or segment: exactly the rest of the page is left behind, and no length underflows |
| Scatterwalk.ScatterWalk.Done | linux-2.4.37/crypto/scatterwalk.c:92-97 | the walk stands for the same addresses afterwards |
| Scatterwalk.ScatterWalk.WhichBuf | linux-2.4.37/crypto/scatterwalk.c:31-39 | a block is processed where it lies if and only if it fits into the rest of the page |
| Scatterwalk.ScatterWalk.Advance | linux-2.4.37/crypto/scatterwalk.c:120-123 | stepping over bytes of the page takes them off the front |
| Scatterwalk.ScatterWalk.CopyIn | linux-2.4.37/crypto/scatterwalk.c:103-124 | gathers exactly the next bytes, across any pages and segments, and takes them off the front |
| Scatterwalk.ScatterWalk.CopyOut | linux-2.4.37/crypto/scatterwalk.c:103-124 | scatters exactly to the next addresses and touches no other byte |
| Scatterlist.ScatterAppend | linux-2.4.37/crypto/scatterwalk.c:103-124 | writing two runs of addresses in turn is writing their concatenation |
| Scatterlist.GatherScatter | linux-2.4.37/crypto/scatterwalk.c:103-124 | what was scattered is gathered again, if no address occurs twice |
| Scatterlist.NextPageExact | linux-2.4.37/crypto/scatterwalk.c:68-90 | the next page of the walk is where the segment goes on if and only if the segment starts within its first page |
| Scatterlist.NameExact | linux-2.4.37/crypto/scatterwalk.h:36-43 | page and offset are the only name of an address, as the samebuf test takes them to be, if and only if the offset lies in the page |
| Scatterlist.AddrsAt | linux-2.4.37/crypto/scatterwalk.c:40-61 | byte j of segment i comes after all bytes of the segments before and lies j bytes after the offset of the segment from the start of its page |
| CipherModes.ProcessAppend | linux-2.4.37/crypto/cipher.c:178-216 | two consecutive calls are one call on the concatenation, output and IV |
| CipherModes.CbcRestores | linux-2.4.37/crypto/cipher.c:98-121 | CBC decryption from the same IV restores every message, and the IVs agree |
| CipherModes.EcbRestores | linux-2.4.37/crypto/cipher.c:123-127 | ECB decryption restores every message |
| CipherModes.EndIvIsLast | linux-2.4.37/crypto/cipher.c:98-121 | the IV ends as the last ciphertext block, in both directions |
| CipherModes.ProcessLength | linux-2.4.37/crypto/cipher.c:47-96 | the output is as long as the input |
| CipherModes.ProcessBlocks | linux-2.4.37/crypto/cipher.c:98-127 | block by block, for every block of the message: in ECB the cipher of the block; in CBC the cipher of the block added to the output block before, or to the IV; in CBC decryption the inverse of the block added to the input block before, or to the IV |
| CipherModes.ProcessBlockwise | linux-2.4.37/crypto/cipher.c:98-127 | the same for the whole output |
| Cipher.EcbProcess | linux-2.4.37/crypto/cipher.c:123-127 | one block through the cipher function |
| Cipher.XorBlock | linux-2.4.37/crypto/cipher.c:27-39 | xor of one block into another |
| Cipher.CbcEncryptBlock | linux-2.4.37/crypto/cipher.c:98-111 | one CBC block forward; the IV becomes the ciphertext |
| Cipher.CbcDecryptBlock | linux-2.4.37/crypto/cipher.c:98-121 | one CBC block backward, in place or not; the IV becomes the ciphertext read before it was overwritten |
| Cipher.ProcessBlock | linux-2.4.37/crypto/cipher.c:98-127 | one block of the mode, whose meaning block by block is ProcessBlocks |
| Cipher.CopyChunks | linux-2.4.37/crypto/scatterwalk.c:103-124 | nothing is copied when the block is processed where it lies |
| Cipher.InPlaceOrApart | linux-2.4.37/crypto/scatterwalk.h:36-43 | the samebuf test holds exactly if source and destination block coincide; otherwise they do not overlap |
| Cipher.Choose | linux-2.4.37/crypto/cipher.c:73-78 | where the block is read and written, and whether that is the same place |
| Cipher.Transform | linux-2.4.37/crypto/cipher.c:82-86 | fetch and transform, reading the source before anything overwrites it |
| Cipher.WriteBack | linux-2.4.37/crypto/cipher.c:88-89 | the block reaches its addresses, from scratch or directly |
| Cipher.CryptBlock | linux-2.4.37/crypto/cipher.c:69-89 | one round of the loop: one block of the mode from the next source to the next destination addresses |
| Cipher.RunBlock | linux-2.4.37/crypto/cipher.c:82-89 | fetch, transform and write back of one block, whatever mixture of direct and scratch blocks it takes |
| Cipher.CryptNext | linux-2.4.37/crypto/cipher.c:69-95 | the same with the account of what was produced so far |
| Cipher.Crypt | linux-2.4.37/crypto/cipher.c:47-96 | for every pair of lists that do not clash and every length: -EINVAL and no change if it is no block multiple; otherwise exactly the mode's output on the concatenated source bytes at the destination addresses, which is block by block the cipher of the block in ECB, of the block added to the output before in CBC, and its converse in CBC decryption; no other byte, and the mode's last IV |
| Cipher.SafeInPlace | linux-2.4.37/crypto/cipher.c:47-96 | one list for both is free of clashes if no address occurs twice |
| Cipher.SafeDisjoint | linux-2.4.37/crypto/cipher.c:47-96 | disjoint lists are free of clashes |
| Cipher.CryptEffect | linux-2.4.37/crypto/cipher.c:47-96 | afterwards the destination holds the output and every other byte its old value |
| Cipher.MemoryRoundTrip | linux-2.4.37/crypto/cipher.c:178-216 | encrypting into any addresses and decrypting from them restores the message, however each side is fragmented |
| Cipher.Consecutive | linux-2.4.37/crypto/cipher.c:178-216 | on memory: processing one run of addresses and then another with the IV left by the first gives the bytes and the IV of one run over both, if the second does not read what the first wrote |
| Cipher.CryptTwice | linux-2.4.37/crypto/cipher.c:47-96 | two consecutive calls on scatterlists, the second with the IV left by the first, leave memory and IV as one call on the concatenated addresses would |
| Gf256.MulAdd | linux-2.4.37/crypto/aes.c:116-122 | the product by shift and add distributes over addition |
| Gf256.MulPows | linux-2.4.37/crypto/aes.c:116-122 | powers of 3 add up under the product |
| Gf256.Generates | linux-2.4.37/crypto/aes.c:162-173 | every nonzero element is a power of 3 |
| Gf256.Period | linux-2.4.37/crypto/aes.c:116-122 | the powers repeat after 255 |
| Gf256.Inverse | linux-2.4.37/crypto/aes.c:181-187 | every nonzero element has an inverse, 0 stays 0 |
| Gf256.InverseTwice | linux-2.4.37/crypto/aes.c:181-187 | inversion is an involution |
| Gf256.InverseIs | linux-2.4.37/crypto/aes.c:181-187 | whatever multiplies to 1 is the inverse |
| AesSpec.SubInverse | linux-2.4.37/crypto/aes.c:181-187 | the two S-boxes are inverse to each other |
| AesSpec.MixInverse | linux-2.4.37/crypto/aes.c:229-237 | InvMixColumns undoes MixColumns |
| AesSpec.DecryptEncrypt | linux-2.4.37/crypto/aes.c:341-431 | the inverse cipher of FIPS 197 undoes the cipher, for every schedule and number of rounds |
| AesSpec.EqRoundSame | linux-2.4.37/crypto/aes.c:394-431 | a round of the equivalent inverse cipher with a transformed key is a round of the inverse cipher |
| AesSpec.EquivalentInverse | linux-2.4.37/crypto/aes.c:394-431 | section 5.3.5 of FIPS 197: the equivalent inverse cipher computes the inverse cipher |
| AesWords.StarXCol | linux-2.4.37/crypto/aes.c:227-227 | star_x is four multiplications by x at once |
| AesWords.ImixColIsInvMix | linux-2.4.37/crypto/aes.c:229-237 | packed imix_col is InvMixColumns on its column |
| AesTables.FMultIsMul | linux-2.4.37/crypto/aes.c:116-122 | f_mult by logarithms is the product in the field |
| AesTables.FfMultIsMul | linux-2.4.37/crypto/aes.c:124-124 | ff_mult too, with 0 on the right |
| AesTables.GenLogs | linux-2.4.37/crypto/aes.c:162-173 | the first loop fills powers and logarithms of all elements |
| AesTables.GenRcon | linux-2.4.37/crypto/aes.c:175-179 | the round constants are the powers of x: 01, 02, 04, 08, 10, 20, 40, 80, 1b, 36 |
| AesTables.GenBoxes | linux-2.4.37/crypto/aes.c:181-187 | the box loop fills the S-box of the standard and its inverse |
| AesTables.GenWords | linux-2.4.37/crypto/aes.c:189-224 | the word tables hold, for every byte, its column through SubBytes and MixColumns or their inverses, in four rotations |
| AesTables.GenTabs | linux-2.4.37/crypto/aes.c:156-225 | all tables of gen_tabs |
| AesRounds.LsBoxIsSub | linux-2.4.37/crypto/aes.c:138-142 | ls_box is SubWord |
| AesRounds.FullRoundWords | linux-2.4.37/crypto/aes.c:126-130 | four f_rn are SubBytes, ShiftRows, MixColumns and AddRoundKey |
| AesRounds.LastRoundWords | linux-2.4.37/crypto/aes.c:144-148 | four f_rl are the last round |
| AesRounds.EqRoundWords | linux-2.4.37/crypto/aes.c:132-136 | four i_rn are a round of the equivalent inverse cipher |
| AesRounds.LastInvRoundWords | linux-2.4.37/crypto/aes.c:150-154 | four i_rl are its last round |
| AesKeys.WExpands | linux-2.4.37/crypto/aes.c:241-270 | the schedule satisfies the key expansion of FIPS 197 |
| AesKeys.Loop4 | linux-2.4.37/crypto/aes.c:241-247 | four more words of the schedule |
| AesKeys.Loop6 | linux-2.4.37/crypto/aes.c:249-257 | six more words |
| AesKeys.Loop8 | linux-2.4.37/crypto/aes.c:259-270 | eight more words |
| AesKeys.Expand16 | linux-2.4.37/crypto/aes.c:291-295 | the 44 words of a 16-byte key |
| AesKeys.Expand24 | linux-2.4.37/crypto/aes.c:297-302 | the 52 words of a 24-byte key |
| AesKeys.Expand32 | linux-2.4.37/crypto/aes.c:304-311 | the 60 words of a 32-byte key, with the last group running into the other schedule |
| AesKeys.ExpandKey | linux-2.4.37/crypto/aes.c:285-312 | the encryption schedule for every key length |
| AesKeys.InvertKey | linux-2.4.37/crypto/aes.c:314-321 | the decryption schedule: the overrun is overwritten, the inner words are inverse-mixed, the outer ones are copies |
| Aes.NRound | linux-2.4.37/crypto/aes.c:328-333 | f_nround is one more round |
| Aes.InvNRound | linux-2.4.37/crypto/aes.c:381-386 | i_nround is one more round backwards |
| Aes.ForwardCipher | linux-2.4.37/crypto/aes.c:341-377 | the unrolled rounds are the right number, for every key length |
| Aes.BackwardCipher | linux-2.4.37/crypto/aes.c:394-431 | the same backwards |
| Aes.AesCtx.SetKey | linux-2.4.37/crypto/aes.c:272-324 | -EINVAL and no change for other key lengths; otherwise both schedules of the key; ExampleA1 to ExampleA3 and Vector give values |
| Aes.AesCtx.EncryptBlock | linux-2.4.37/crypto/aes.c:341-377 | the cipher of FIPS 197 under the expanded key |
| Aes.AesCtx.DecryptBlock | linux-2.4.37/crypto/aes.c:394-431 | the inverse cipher of FIPS 197 under the expanded key |
| Aes.AesRoundTrip | linux-2.4.37/crypto/aes.c:341-431 | aes_decrypt undoes aes_encrypt for every key and block |
| AesVectors.SubIsFigure7 | linux-2.4.37/crypto/aes.c:181-187 | the substitution is the table of figure 7 of FIPS 197, entry by entry |
| AesVectors.Figure4 | linux-2.4.37/crypto/aes.c:352-372 | the number of rounds is 10, 12 and 14 for the three key lengths |
| AesVectors.ExampleA1 | linux-2.4.37/crypto/aes.c:241-247 | the first expanded words of the key of appendix A.1 of FIPS 197 are a0fafe17, 88542cb1, 23a33939 and 2a6c7605 |
| AesVectors.ExampleA2 | linux-2.4.37/crypto/aes.c:249-257 | the first expanded words of the key of appendix A.2 are fe0c91f7, 2402f5a5 and ec12068e |
| AesVectors.ExampleA3 | linux-2.4.37/crypto/aes.c:259-270 | the expanded words of the key of appendix A.3, from 9ba35411 to a8b09c1a, with and without the rotation |
| AesVectors.ExampleC1 | linux-2.4.37/crypto/tcrypt.h:1709-1719 | the cipher of FIPS 197, round by round, on the text and the key of appendix C.1 gives the ciphertext 69c4e0d8 6a7b0430 d8cdb780 70b4c55a |
| AesVectors.Vector | linux-2.4.37/crypto/tcrypt.h:1709-1719 | set_key and encrypt give that ciphertext |
| SerpentBoxes.S0 | linux-2.4.37/crypto/serpent.c:70-78 | the register program is S-box 0 of the published table on every bit position, up to the order of the registers |
| SerpentBoxes.S1 | linux-2.4.37/crypto/serpent.c:79-87 | the register program is S-box 1 of the published table on every bit position, up to the order of the registers |
| SerpentBoxes.S2 | linux-2.4.37/crypto/serpent.c:88-96 | the register program is S-box 2 of the published table on every bit position, up to the order of the registers |
| SerpentBoxes.S3 | linux-2.4.37/crypto/serpent.c:97-105 | the register program is S-box 3 of the published table on every bit position, up to the order of the registers |
| SerpentBoxes.S4 | linux-2.4.37/crypto/serpent.c:106-115 | the register program is S-box 4 of the published table on every bit position, up to the order of the registers |
| SerpentBoxes.S5 | linux-2.4.37/crypto/serpent.c:116-124 | the register program is S-box 5 of the published table on every bit position, up to the order of the registers |
| SerpentBoxes.S6 | linux-2.4.37/crypto/serpent.c:125-133 | the register program is S-box 6 of the published table on every bit position, up to the order of the registers |
| SerpentBoxes.S7 | linux-2.4.37/crypto/serpent.c:134-141 | the register program is S-box 7 of the published table on every bit position, up to the order of the registers |
| SerpentBoxes.SI0 | linux-2.4.37/crypto/serpent.c:144-151 | the register program is inverse S-box 0 on every bit position, up to the order of the registers |
| SerpentBoxes.SI1 | linux-2.4.37/crypto/serpent.c:152-160 | the register program is inverse S-box 1 on every bit position, up to the order of the registers |
| SerpentBoxes.SI2 | linux-2.4.37/crypto/serpent.c:161-168 | the register program is inverse S-box 2 on every bit position, up to the order of the registers |
| SerpentBoxes.SI3 | linux-2.4.37/crypto/serpent.c:169-177 | the register program is inverse S-box 3 on every bit position, up to the order of the registers |
| SerpentBoxes.SI4 | linux-2.4.37/crypto/serpent.c:178-186 | the register program is inverse S-box 4 on every bit position, up to the order of the registers |
| SerpentBoxes.SI5 | linux-2.4.37/crypto/serpent.c:187-195 | the register program is inverse S-box 5 on every bit position, up to the order of the registers |
| SerpentBoxes.SI6 | linux-2.4.37/crypto/serpent.c:196-204 | the register program is inverse S-box 6 on every bit position, up to the order of the registers |
| SerpentBoxes.SI7 | linux-2.4.37/crypto/serpent.c:205-211 | the register program is inverse S-box 7 on every bit position, up to the order of the registers |
| Serpent.SubInverse | linux-2.4.37/crypto/serpent.c:144-212 | inverse tables give inverse bit-sliced substitutions |
| Serpent.BoxesInverse | linux-2.4.37/crypto/serpent.c:70-212 | the eight published tables are inverse pairs |
| Serpent.LinearInverse | linux-2.4.37/crypto/serpent.c:50-68 | the two linear transformations are inverse |
| Serpent.LK | linux-2.4.37/crypto/serpent.c:50-59 | LK is the linear transformation and the next round key |
| Serpent.KL | linux-2.4.37/crypto/serpent.c:61-68 | KL is the round key and the inverse linear transformation |
| Serpent.EncryptWith | linux-2.4.37/crypto/serpent.c:388-420 | with registers renamed from round to round, the program runs the 32 rounds |
| Serpent.DecryptWith | linux-2.4.37/crypto/serpent.c:441-473 | the same backwards |
| Serpent.SerpentEncrypt | linux-2.4.37/crypto/serpent.c:370-426 | serpent_encrypt is the 32-round cipher over the published tables |
| Serpent.SerpentDecrypt | linux-2.4.37/crypto/serpent.c:428-479 | serpent_decrypt is its inverse cipher |
| Serpent.DecryptEncrypt | linux-2.4.37/crypto/serpent.c:370-479 | decryption undoes encryption, over any inverse tables |
| Serpent.SerpentRoundTrip | linux-2.4.37/crypto/serpent.c:370-479 | serpent_decrypt undoes serpent_encrypt for every expanded key and block |
| Serpent.TnepresEncrypt | linux-2.4.37/crypto/serpent.c:513-531 | tnepres is serpent between two reversals |
| Serpent.TnepresDecrypt | linux-2.4.37/crypto/serpent.c:533-551 | the same for decryption |
| Serpent.TnepresRoundTrip | linux-2.4.37/crypto/serpent.c:513-551 | tnepres_decrypt undoes tnepres_encrypt |
| SerpentKey.PadKey | linux-2.4.37/crypto/serpent.c:234-241 | the copying loops leave the key, a one bit and zero bits up to 256, for every key of at most 32 bytes |
| SerpentKey.NextPrekey | linux-2.4.37/crypto/serpent.c:37-38 | the xors of keyiter, in their order, are the recurrence of the cipher's definition |
| SerpentKey.KeyIter | linux-2.4.37/crypto/serpent.c:37-38 | one more prekey in its place, made from words that are still in the array or in registers |
| SerpentKey.Expand | linux-2.4.37/crypto/serpent.c:243-327 | the steps round the five registers fill the array with the 132 prekeys, and leave the last four in the registers |
| SerpentKey.Substitute | linux-2.4.37/crypto/serpent.c:329-365 | the 33 substitutions in place, with renamed registers and the shifted pointer, put every group of four words through the S-box of its round key, and no group twice |
| SerpentKey.Schedule | linux-2.4.37/crypto/serpent.c:243-365 | the 132 words end as the 33 round keys of the cipher's definition |
| SerpentKey.SetKey | linux-2.4.37/crypto/serpent.c:220-368 | -EINVAL and no change for a key longer than 32 bytes; otherwise the round keys of the cipher's definition for the padded key |
| SerpentKey.TnepresSetKey | linux-2.4.37/crypto/serpent.c:496-511 | the same for the key bytes in reverse order |
| SerpentKey.KeyedRoundTrip | linux-2.4.37/crypto/serpent.c:220-479 | set-up, encryption and decryption under any key of at most 32 bytes give the block back |
| SerpentBits.LinearBits | linux-2.4.37/crypto/serpent.c:50-64 | which input bits each output bit of the linear transformation is the sum of, for all 128 of them |
| SerpentBits.FirstRow | linux-2.4.37/crypto/serpent.c:50-64 | the first row of the table of that transformation in the definition of Serpent: bits 16, 52, 56, 70, 83, 94 and 105 |
| SerpentBits.ZeroKey | linux-2.4.37/crypto/serpent.c:33-38 | the first prekey of a zero key is the golden ratio rotated by 11, bbcdccf1 |
| Tea.SumCounts | linux-2.4.37/crypto/tea.c:148-168 | among the sums of the first 32 rounds only the last is the limit, and only the starting one is 0 |
| Tea.FeistelRoundTrip | linux-2.4.37/crypto/tea.c:70-235 | 32 rounds backwards undo 32 rounds forwards, for all half-round functions |
| Tea.CountedEncrypt | linux-2.4.37/crypto/tea.c:70-95 | the counted loop runs 32 rounds |
| Tea.CountedDecrypt | linux-2.4.37/crypto/tea.c:97-125 | and so backwards |
| Tea.SummedEncrypt | linux-2.4.37/crypto/tea.c:148-168 | the loop that ends only when the wrapping sum meets its limit ends, after exactly 32 rounds |
| Tea.SummedDecrypt | linux-2.4.37/crypto/tea.c:170-190 | the loop that ends only when the wrapping sum is back at 0 ends, after exactly 32 rounds |
| Tea.TeaEncrypt | linux-2.4.37/crypto/tea.c:70-95 | tea_encrypt |
| Tea.TeaDecrypt | linux-2.4.37/crypto/tea.c:97-125 | tea_decrypt is the inverse rounds of tea_encrypt |
| Tea.XteaEncrypt | linux-2.4.37/crypto/tea.c:148-168 | xtea_encrypt |
| Tea.XteaDecrypt | linux-2.4.37/crypto/tea.c:170-190 | xtea_decrypt is the inverse rounds of xtea_encrypt |
| Tea.XetaEncrypt | linux-2.4.37/crypto/tea.c:192-213 | xeta_encrypt, with its own grouping of the operations |
| Tea.XetaDecrypt | linux-2.4.37/crypto/tea.c:215-235 | xeta_decrypt is the inverse rounds of xeta_encrypt |
| Tea.TeaRoundTrip | linux-2.4.37/crypto/tea.c:70-125 | tea_decrypt gives back what tea_encrypt was given, for every key and block |
| Tea.XteaRoundTrip | linux-2.4.37/crypto/tea.c:148-190 | xtea_decrypt gives back what xtea_encrypt was given |
| Tea.XetaRoundTrip | linux-2.4.37/crypto/tea.c:192-235 | xeta_decrypt gives back what xeta_encrypt was given |
| TeaVectors.TeaAnswer | linux-2.4.37/crypto/tcrypt.h:1996-2003 | 32 rounds of TEA turn the text of the second test into 775d2a6a f6ce9209 |
| TeaVectors.XteaAnswer | linux-2.4.37/crypto/tcrypt.h:2090-2097 | 32 rounds of XTEA turn it into 94ebc896 846a49a8 |
| TeaVectors.XetaAnswer | linux-2.4.37/crypto/tcrypt.h:2487-2494 | 32 rounds of XETA turn it into 823eeb35 dcddd9c3 |
| TeaVectors.TeaVector | linux-2.4.37/crypto/tea.c:70-95 | tea_encrypt gives that answer |
| TeaVectors.XteaVector | linux-2.4.37/crypto/tea.c:148-168 | xtea_encrypt gives that answer |
| TeaVectors.XetaVector | linux-2.4.37/crypto/tea.c:192-213 | xeta_encrypt gives that answer |
| BlockHash.Absorb | linux-2.4.37/crypto/sha256.c:260-290 | only the chaining value and the unfinished block matter for what follows |
| BlockHash.PadOne | linux-2.4.37/crypto/md5.c:190-213 | padding that fits into the unfinished block is one more compression |
| BlockHash.PadTwo | linux-2.4.37/crypto/md5.c:190-213 | padding that does not is two |
| BlockHash.BigEndianInjective | linux-2.4.37/crypto/sha256.c:300-312 | different counts have different length fields |
| Sha256.CountExact | linux-2.4.37/crypto/sha256.c:268-272 | the two-word counter stays exact if and only if the call is shorter than 2^29 bytes or the low word carries |
| Sha256.LongCallMiscounts | linux-2.4.37/crypto/sha256.c:268-272 | a first call with 2^29 bytes is miscounted |
| Sha256.LoopEnds | linux-2.4.37/crypto/sha256.c:277-283 | the block loop over 32-bit indices has an index at which it can stop if and only if the buffered bytes and the call together are fewer than 2^32 |
| Sha256.StandardPadding | linux-2.4.37/crypto/sha256.c:300-318 | final pads as section 5.1.1 of FIPS 180-2 asks if and only if the high counter word is exact |
| Sha256.Context.Init | linux-2.4.37/crypto/sha256.c:245-258 | the empty message, counted exactly |
| Sha256.Context.Count | linux-2.4.37/crypto/sha256.c:268-272 | the counter update |
| Sha256.Context.Blocks | linux-2.4.37/crypto/sha256.c:277-283 | the block loop consumes all whole blocks, on every input on which it ends |
| Sha256.Context.Feed | linux-2.4.37/crypto/sha256.c:274-289 | buffering: the chaining value after all whole blocks and the unfinished one in the buffer |
| Sha256.Context.Update | linux-2.4.37/crypto/sha256.c:260-290 | on every input on which the block loop ends: the context stands for the message with the data appended; the counter stays exact if and only if the call is short or the low word carries |
| Sha256.Context.LengthBits | linux-2.4.37/crypto/sha256.c:300-310 | the eight length bytes are the two counter words, most significant byte first |
| Sha256.Context.Pad | linux-2.4.37/crypto/sha256.c:312-318 | the two padding updates make the padded message |
| Sha256.Context.StoreState | linux-2.4.37/crypto/sha256.c:320-327 | the chaining value goes out word by word, most significant byte first |
| Sha256.Context.Final | linux-2.4.37/crypto/sha256.c:292-331 | the digest is the compression function folded over the padded message, the standard one if the counter is exact; the context is wiped |
| Md5.LengthWords | linux-2.4.37/crypto/md5.c:206-207 | the two length words are the bit count modulo 2^64, low word first |
| Md5.Context.Init | linux-2.4.37/crypto/md5.c:149-158 | the empty message |
| Md5.Context.Blocks | linux-2.4.37/crypto/md5.c:180-187 | the block loop consumes all whole blocks and buffers the rest |
| Md5.Context.Feed | linux-2.4.37/crypto/md5.c:163-187 | buffering with the space left in the block |
| Md5.Context.Update | linux-2.4.37/crypto/md5.c:160-188 | the context stands for the message with the data appended |
| Md5.Context.Pad | linux-2.4.37/crypto/md5.c:193-210 | the padding of sections 3.1 and 3.2 of RFC 1321, in one block or two |
| Md5.Context.Final | linux-2.4.37/crypto/md5.c:190-214 | the digest of RFC 1321 over the compression function; the context is wiped |
| Wp512.CarryStep | linux-2.4.37/crypto/wp512.c:1019-1024 | one byte of the addition moves the carry one place up |
| Wp512.PendingDone | linux-2.4.37/crypto/wp512.c:1019-1024 | when the carry loop stops early or runs out, the sum and the stored number differ by a multiple of the counter's size |
| Wp512.LengthField | linux-2.4.37/crypto/wp512.c:1088-1089 | the length bytes are the bit count modulo 2^256, most significant byte first |
| Wp512.Kept | linux-2.4.37/crypto/wp512.c:1008-1008 | a call takes in its length modulo 2^29, so all of it if and only if it is shorter |
| Wp512.LongCallDropped | linux-2.4.37/crypto/wp512.c:1008-1008 | a call of exactly 2^29 bytes is dropped whole |
| Wp512.BitCount | linux-2.4.37/crypto/wp512.c:1008-1009 | the bit count is a multiple of 8, so no gap remains |
| Wp512.TakeIsWindow | linux-2.4.37/crypto/wp512.c:1026-1027 | for every gap the byte put together from two source bytes is the eight bits that start the gap into the first |
| Wp512.SplitIsShift | linux-2.4.37/crypto/wp512.c:1028-1034 | for every remainder the two parts that go into the block are the byte shifted by the remainder |
| Wp512.StandardPrefix | linux-2.4.37/crypto/wp512.c:1074-1090 | a proper prefix of a message is padded differently from the message |
| Wp512.OneByte | linux-2.4.37/crypto/wp512.c:1028-1035 | one more byte either waits in the block or completes it |
| Wp512.Context.Init | linux-2.4.37/crypto/wp512.c:991-1001 | the empty message |
| Wp512.Context.AddLength | linux-2.4.37/crypto/wp512.c:1018-1024 | the 32-byte counter gains the bits modulo 2^256 |
| Wp512.Context.PutByte | linux-2.4.37/crypto/wp512.c:1028-1037 | the bit buffer is a byte buffer: the byte begun is 0, so the or is a store, and a 0 byte follows |
| Wp512.Context.Absorbed | linux-2.4.37/crypto/wp512.c:1025-1057 | the byte loop and its end take in exactly the bytes counted |
| Wp512.Context.UpdateBits | linux-2.4.37/crypto/wp512.c:1018-1057 | the context stands for the message with the counted bytes appended, counted modulo 2^256 |
| Wp512.Context.Update | linux-2.4.37/crypto/wp512.c:1003-1062 | the context stands for the message with the data (modulo 2^29 bytes) appended, counted modulo 2^256 |
| Wp512.Context.SetMark | linux-2.4.37/crypto/wp512.c:1074-1075 | the one bit behind the message |
| Wp512.ClosesPadded | linux-2.4.37/crypto/wp512.c:1074-1090 | the one or two last compressions are those of the padded message |
| Wp512.Context.PadOut | linux-2.4.37/crypto/wp512.c:1076-1090 | zeros, length and the one or two last compressions, whatever the buffer holds |
| Wp512.Context.StoreHash | linux-2.4.37/crypto/wp512.c:1091-1101 | the chaining value goes out word by word |
| Wp512.Context.Final | linux-2.4.37/crypto/wp512.c:1064-1104 | from any state with whole bytes in the buffer: the hash and the last block that the context is left with; for a message in the making the hash of exactly the padded message |
| Wp512.Context.FinalOf | linux-2.4.37/crypto/wp512.c:1064-1104 | the digest of a message; and what a second final call makes of the context that the first has left, which is a function of the message |
| CryptoDigest.Init | linux-2.4.37/crypto/digest.c:21-24 | every digest starts with the empty message |
| DigestCtx.FeedExact | linux-2.4.37/crypto/digest.c:43-45 | a call shorter than 2^29 bytes, or any call of MD5, appends exactly the data and keeps the count exact |
| DigestCtx.StreamExact | linux-2.4.37/crypto/digest.c:55-58 | final hashes the padded message of the digest's standard if and only if the count is right |
| DigestCtx.OneCall | linux-2.4.37/crypto/digest.c:69-84 | one call hashes what the standard asks if and only if it is shorter than 2^29 bytes or the digest is MD5 |
| DigestCtx.OneShotExact | linux-2.4.37/crypto/digest.c:69-84 | under that condition the one-shot digest is the standard's |
| DigestCtx.FedAllExact | linux-2.4.37/crypto/digest.c:69-84 | any number of short calls are seen and counted as the concatenation of their data |
| DigestCtx.InitOne | linux-2.4.37/crypto/digest.c:21-24 | every digest starts with nothing seen |
| DigestCtx.UpdateOne | linux-2.4.37/crypto/digest.c:43-45 | one call of each digest, of any length it accepts: what it has seen and counted afterwards |
| DigestCtx.FinalOne | linux-2.4.37/crypto/digest.c:55-58 | the hash of the padded stream is stored and the context is left as each digest leaves it; and what a final call on such a spent context stores: the hash of nothing from a zeroed state, or, for Whirlpool, of its last block once more |
| CryptoDigest.UpdateExact | linux-2.4.37/crypto/digest.c:43-45 | calls shorter than 2^29 bytes, and all of MD5: all three digests append exactly the data and stay exact |
| CryptoDigest.Final | linux-2.4.37/crypto/digest.c:55-58 | exactly the digest bytes are stored |
| CryptoDigest.UpdatePage | linux-2.4.37/crypto/digest.c:38-50 | one page: exactly the bytes up to its end |
| CryptoDigest.UpdatePages | linux-2.4.37/crypto/digest.c:38-50 | the rounds after the first, each from the start of a page, feed exactly the rest of the segment |
| CryptoDigest.UpdateSegment | linux-2.4.37/crypto/digest.c:33-51 | the do-while loop feeds exactly the bytes of a segment, across any pages, also for an empty one |
| CryptoDigest.Update | linux-2.4.37/crypto/digest.c:26-53 | the context stands for the message with the concatenated bytes of the list appended |
| CryptoDigest.Digest | linux-2.4.37/crypto/digest.c:69-84 | the one-shot digest of a list, for all segment lengths that the digest accepts: the hash of what it saw of the segments, and the standard's digest of the list if every segment is shorter than 2^29 bytes or the digest is MD5 |
| CryptoDigest.DigestOne | linux-2.4.37/crypto/digest.c:69-84 | the one-shot digest of a single segment of any length: the hash of what the digest saw of it, and the context spent |
| CryptoDigest.StreamText | linux-2.4.37/crypto/digest.c:21-58 | init, any number of updates, final: the standard digest of the whole text, for every split into lists, segments and pages |
| Hmac.HashKey | linux-2.4.37/crypto/hmac.c:24-33 | a key of any length is overwritten by its one-shot hash, and whatever the context had taken in before is gone |
| Hmac.PadKey | linux-2.4.37/crypto/hmac.c:67-71 | the pad block is the key, zeros, xor-ed byte by byte |
| Hmac.KeyExact | linux-2.4.37/crypto/hmac.c:62-65 | the key that is used is the one RFC 2104 asks for exactly if the long key is shorter than 2^29 bytes or the digest is MD5 |
| Hmac.Shorten | linux-2.4.37/crypto/hmac.c:62-65 | a key longer than a block is replaced by its hash, a shorter one is left alone |
| Hmac.Start | linux-2.4.37/crypto/hmac.c:56-79 | the inner hash starts with the inner pad; the length handed back is at most a block |
| Hmac.Inner | linux-2.4.37/crypto/hmac.c:99-105 | what the first final call gives is in the output buffer and the outer pad in the block |
| Hmac.Outer | linux-2.4.37/crypto/hmac.c:107-119 | the outer hash reads the pad block and then the inner digest where it lies |
| Hmac.Finish | linux-2.4.37/crypto/hmac.c:87-120 | for every key length: with the one that init left, the outer hash of the inner digest of the text; with one above a block, a function of the key alone, since the key is hashed in the context of the running digest; only output, pad block and a key that was hashed change |
| Hmac.Hmac | linux-2.4.37/crypto/hmac.c:122-128 | for every key length of 32 bits and every fragmentation of the text the output is the nested hash under the key that is used, which is the HMAC of section 2 of RFC 2104 for MD5 and for every key shorter than 2^29 bytes; a long key is hashed exactly once; nothing else changes but pad block and hashed key |
| DigestExamples.InitialWords | linux-2.4.37/crypto/sha256.c:55-62 | the initial words of SHA-256 are the first 32 bits of the fractional parts of the square roots of the first eight primes |
| DigestExamples.InitialBytes | linux-2.4.37/crypto/md5.c:153-156 | the initial words of MD5, low-order byte first, are the bytes 01 23 to ef and fe dc to 10 |
| DigestExamples.PaddedAbc | linux-2.4.37/crypto/sha256.c:300-322 | the padded block of the message abc in each of the three digests, as appendix B.1 of FIPS 180-2 prints it for SHA-256 |
| DigestExamples.EmptyKey | linux-2.4.37/crypto/hmac.c:67-105 | with the empty key the inner hash starts with 64 bytes 36 and the outer with 64 bytes 5c |
| DigestExamples.SixteenBytes | linux-2.4.37/crypto/hmac.c:67-105 | the pads of the key of the first test of RFC 2202: sixteen bytes 3d and then 36, sixteen bytes 57 and then 5c |

## Left out

- Disk submission, page cache allocation, kmap, cache flushing, wait queues and scheduling appear only as parameters or environment steps.
- Delayed-allocation buffers in the read, write and writeback paths are not modelled.
- Hooks of dentry operations (`d_compare`, `d_delete`) and inode references of dentries are not modelled; `d_genocide` and alias pruning neither.
- DcacheHistory.RunAged: runs with `select_parent` regions are excluded, since that walk reorders the list on purpose; what it does to the list is RetailTail.
- DcacheHistory.PruneVerdict: the same, for the same reason.
- `remove_inode_queue`, reference counts of buffer heads and `bdflush` are not modelled.
- Quota file formats, warnings, `quotaoff` and `invalidate_dquots` are not modelled; inode-only allocation and free would repeat the byte case.
- DquotSpace.QuotaCache.FreeSpace: usage counters are unbounded integers, so 64-bit wrap-around of a charge is not modelled.
- DquotSpace.QuotaCache.TransferInode: the lookup of the receiving quotas belongs to the reference protocol, so it is a parameter here.
- Cipher.Crypt: in CBC without an IV the source leaves the output of scratch blocks uninitialised; the contract then only bounds which bytes change.
- Scatterwalk.ScatterWalk.Start: a segment that starts beyond its first page and goes on past the page it starts in is excluded: NextPageExact proves that the walk then goes on at a page that is not the segment's.
- Cipher.Crypt: with segments that start beyond their first page no byte may be read and written at one address: NameExact proves that the samebuf test then does not recognise the address.
- Aliased mappings of one page at two addresses are not modelled; memory is one array.
- TEA's key set-up is not modelled; its round trips hold for every key of four words.
- SerpentKey.Expand: runs the 132 steps that the source writes out five at a time, round the registers.
- Compression functions and byte order conversion of words on big-endian hosts are not modelled.
- Sha256.Context.Update: a call that brings the buffered bytes to 2^32 or more is excluded: LoopEnds proves that the source's loop then has no index to stop at, so there is no result to state.
- Sha256.Context.Feed: the same bound, for the same reason.
- Sha256.Context.Blocks: the same bound, for the same reason.
- Truncated Whirlpool digests, `nocrypt`, algorithm registration, `crypto/compress.c` and `crypto/deflate.c` would only add easy members.
- Other ciphers and digests of `crypto/` repeat the shapes above.
