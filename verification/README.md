# Verified models of an xv6 kernel and its user programs

Dafny models of the parts of this RISC-V xv6 (with container-aware run queues)
that are hardest to get right, and proofs about them. `dafny verify
dfyconfig.toml` checks everything.

- **Log and buffer cache** (`WriteAheadLog`, `WriteHistory`, `LogCode`, `BufferCache`,
  `CacheHistory`). The log is
  a machine of atomic steps in which each disk write is one step and a crash may
  fall between any two, also during recovery; a panic is a crash. The journal of
  committed transactions and the identity of operations are history variables.
  The history modules state the results against the steps of a run alone, so
  that no record of the machine's own is part of a claim.
  The cache is a machine over that machine and refines it. `LogCode` has the
  loops themselves, with a contract about every disk image on the way. Sizes
  (LOGSIZE, MAXOPBLOCKS, NBUF, the disk) are arbitrary. Operations log blocks
  outside the log region, and clients log a change before they release the
  buffer. All buffers boot as device 0, block 0, so uniqueness is stated for the
  disk's device only.
- **Blocks and files** (`Bitmap`, `BlockMap`, `FileSystem`, `OperationBudget`). The bitmap is its
  blocks of bytes, set and tested through masks. One ownership map, for all
  inodes at once, says which slot each block stands at; files are byte
  sequences. The invariant that every block below a file's size is allocated is
  what keeps reads from allocating and a four-block unaligned write within its
  log budget; `OperationBudget` takes that budget to the log machine. NDIRECT,
  NINDIRECT, BSIZE and MAXOPBLOCKS are arbitrary.
- **Page tables and frames** (`Sv39`, `PageTable`, `HardwareWalk`, `TableBudget`,
  `VirtualMemory`, `AddressSpaces`). `Sv39` is the processor's translation, bit by
  bit; `HardwareWalk` shows that it is the flat map. Three-level Sv39
  trees (section 4.4 of the RISC-V Privileged Architecture, version 20211203) in
  a memory of frames refine a flat map from page to PTE; the free list is
  threaded through the free frames. Every operation accounts for every frame on
  success and failure, and fails only when the frames do not suffice; `AddressSpaces`
  puts any number of live spaces side by side. MAXVA is one bit below the
  format's limit, as in riscv.h.
- **Scheduling** (`Scheduler`, `ProcessHistory`, `SleepLock`, `LockHistory`,
  `SpinLocks`). Steps between lock
  operations, on any number of CPUs, processes, containers and sleep locks. The
  variable `where` in `Scheduler` and `held` in `SleepLock` are auxiliary: steps
  update them and never depend on them, except that only a holder releases a
  sleep lock. fork makes its child RUNNABLE before appending it, in a separate
  section; the invariant covers the gap.
- **Linked lists** (`LinkedList`, `NaturalMergeSort`). Real nodes with prev and
  next, against node sequences; the in-place natural merge sort against a pure
  sort on sequences.
- **Allocator** (`Umalloc`, `FreeList`). Section 8.7 of Kernighan and Ritchie, The
  C Programming Language, 2nd edition: the circle of headers in memory against
  an address-ordered list of blocks. sbrk is a parameter that returns fresh,
  higher memory or fails; the static header lies below it.
- **Shell parser** (`ShellGrammar`, `ShellSyntax`, `ShellRender`, `ShellParser`). The
  recursive descent as functions, a grammar of sentences and their layouts that
  says what is accepted and what it means, and the code on the buffer. **grep** (`Grep`)
  and **the Park-Miller generator** (`ParkMiller`).

`Common` holds the definitions that several modules share.

The models keep the code's order of tests where it matters: matchhere looks for
a star before it looks for a final $, and log_write's capacity test comes before
the absorption scan.

## Model

| member | source | states |
|---|---|---|
| `WriteAheadLog.CrashAtomicity` | project05-zwang203-main/xv6/kernel/log.c:68-203 | After every run of begin_op, log_write, end_op, commit and recovery, with crashes between any two disk writes (also inside recovery), recovery from the disk as it stands yields the initial image with a sequence of whole transactions applied, and of every operation ever begun either all its writes are in it or none |
| `WriteAheadLog.JournalGrows` | project05-zwang203-main/xv6/kernel/log.c:194-203 | The committed transactions of an earlier state are a prefix of those of every later one: nothing committed is lost or reordered, so what survives a crash is a prefix of the commits |
| `WriteAheadLog.QuiescentIsDurable` | project05-zwang203-main/xv6/kernel/log.c:147-203 | Whenever no operation is open and no commit or recovery is under way, every home block reads, is stored, and would be recovered with the same contents: the image with all committed transactions |
| `WriteAheadLog.CommitPoint` | project05-zwang203-main/xv6/kernel/log.c:194-203 | Appending the current transaction to the journal is the same as applying its writes to the committed contents; with ContentWriteHead, the header write is the one point where the transaction turns durable |
| `WriteAheadLog.ContentWriteHead` | project05-zwang203-main/xv6/kernel/log.c:103-114 | The header write keeps the content invariant while moving the whole current transaction from absent to committed |
| `WriteAheadLog.InstallIdempotent` | project05-zwang203-main/xv6/kernel/log.c:69-83 | Copying one logged block home changes nothing that recovery from that disk would produce |
| `WriteAheadLog.ClearIdempotent` | project05-zwang203-main/xv6/kernel/log.c:117-123 | Once every logged block is home, erasing the header leaves recovery nothing to do |
| `WriteAheadLog.ContentLogWrite` | project05-zwang203-main/xv6/kernel/log.c:215-235 | log_write, absorbing or not, keeps the content invariant: the view is the committed contents with the current writes applied, and every block that differs from the disk is in the header |
| `WriteAheadLog.ContentKept` | project05-zwang203-main/xv6/kernel/log.c:68-235 | Every step keeps the content invariant that ties disk, log region, header, view and journal together in each phase |
| `WriteAheadLog.IdsKept` | project05-zwang203-main/xv6/kernel/log.c:126-175 | Every step keeps the bookkeeping of operation identities on which all-or-nothing rests |
| `WriteAheadLog.AllOrNothingKept` | project05-zwang203-main/xv6/kernel/log.c:147-203 | Every step, crash included, keeps each operation's writes either all in the journal or all outside it |
| `WriteAheadLog.InvKept` | project05-zwang203-main/xv6/kernel/log.c:68-235 | Every enabled step keeps the whole invariant |
| `WriteAheadLog.RunInv` | project05-zwang203-main/xv6/kernel/log.c:68-235 | The invariant holds at the end of every run |
| `WriteAheadLog.ReservedKept` | project05-zwang203-main/xv6/kernel/log.c:126-235 | Every step of operations that add at most MAXOPBLOCKS blocks each, and log what the log already holds as often as they like, keeps lh.n plus the unused reservations of open operations at most LOGSIZE |
| `WriteAheadLog.RunReserved` | project05-zwang203-main/xv6/kernel/log.c:126-235 | The reservation bound and the counters hold at the end of every run of such operations |
| `WriteAheadLog.NoLogPanic` | project05-zwang203-main/xv6/kernel/log.c:126-235 | With nlog at least LOGSIZE + 1, an open operation that has added fewer than MAXOPBLOCKS blocks meets neither panic of log_write, and committing is clear while any operation is open, so end_op's panic is unreachable |
| `WriteAheadLog.PanicsExactlyWhenFull` | project05-zwang203-main/xv6/kernel/log.c:215-235 | With nlog at least LOGSIZE + 1, log_write of an open operation panics if and only if the log is full, whether or not it holds the block; and then every open operation has added exactly MAXOPBLOCKS blocks |
| `WriteAheadLog.AbsorptionCanPanic` | project05-zwang203-main/xv6/kernel/log.c:220-231 | One run reaches both sides of that condition with an operation that has added MAXOPBLOCKS blocks and logs one of them again: absorbed while the log has room, a panic when it is full, because the capacity test comes first |
| `WriteAheadLog.HeaderFormat` | project05-zwang203-main/xv6/kernel/log.c:87-114 | Word 0 of the header block is the count and word i + 1 the i-th block number; writing leaves the words behind them alone, and reading gives exactly these |
| `WriteHistory.RunRecorded` | project05-zwang203-main/xv6/kernel/log.c:126-235 | The machine's records are what the steps of the run say: the history is exactly the (operation, block, data) of the log_write steps that took effect, in order; the current transaction those since the last header write or crash; the journal those that a header write followed with no crash in between |
| `WriteHistory.LastCommittedWins` | project05-zwang203-main/xv6/kernel/log.c:68-235 | Durability from the steps alone: after any run with any number of crashes, recovery gives every home block the data of the last log_write to it that was committed, and the initial contents if there is none |
| `WriteHistory.ReadsLatest` | project05-zwang203-main/xv6/kernel/log.c:185-235 | Outside of recovery every home block reads as the last log_write to it that no crash has undone |
| `WriteHistory.QuiescentHoldsLast` | project05-zwang203-main/xv6/kernel/log.c:147-203 | Once every operation has ended, disk and readers agree on the last committed write to every block |
| `WriteHistory.WholeOperations` | project05-zwang203-main/xv6/kernel/log.c:126-203 | Atomicity from the steps alone: of two log_write steps of one operation, in any run with crashes, both are committed or neither is |
| `WriteHistory.WriteShows` | project05-zwang203-main/xv6/kernel/log.c:215-235 | A log_write that does not panic, absorbed or not, shows its data in its block at once, changes no other block and no disk block, and puts the block into the header |
| `LogCode.Log.LogWrite` | project05-zwang203-main/xv6/kernel/log.c:215-235 | The absorption scan appends the block exactly when the header does not hold it yet, and pins exactly then |
| `LogCode.Log.WriteHead` | project05-zwang203-main/xv6/kernel/log.c:103-114 | One disk write puts the in-memory header into the header block; word 0 is the count and word i + 1 the i-th block |
| `LogCode.Log.ReadHead` | project05-zwang203-main/xv6/kernel/log.c:87-97 | The in-memory header becomes the one on disk, word by word |
| `LogCode.Log.WriteLog` | project05-zwang203-main/xv6/kernel/log.c:179-191 | The log region receives the blocks' contents, home blocks stay, and every disk image on the way recovers to the old contents |
| `LogCode.Log.InstallTrans` | project05-zwang203-main/xv6/kernel/log.c:69-83 | All logged blocks reach home, on disk and for readers, each unpinned once unless recovering; every disk image on the way recovers to the same contents as before |
| `LogCode.Log.Commit` | project05-zwang203-main/xv6/kernel/log.c:194-203 | Home blocks end with the view's contents and nothing stays pinned; of the 2n + 2 disk images on the way, which are listed exactly, the first n recover to the contents before the transaction and all others to those after it |
| `LogCode.CommitRuns` | project05-zwang203-main/xv6/kernel/log.c:194-203 | From any state of the log machine that has begun to commit, the disks of its n CopyBlock, one WriteHead, n InstallBlock and one ClearHead steps are exactly the images that the code of commit leaves |
| `LogCode.Log.RecoverFromLog` | project05-zwang203-main/xv6/kernel/log.c:117-123 | Home blocks end as recovery is specified, on disk and for readers, the header is empty, pins stay, the disk images on the way are listed exactly, and a crash at any of them leaves a disk that recovers to the same contents |
| `LogCode.RecoverRuns` | project05-zwang203-main/xv6/kernel/log.c:117-123 | From any state of the log machine after a crash, the disks of its ReadHead, n RecInstallBlock and one RecClearHead steps are exactly the images that the code of recovery leaves |
| `BufferCache.CacheTransparency` | project05-zwang203-main/xv6/kernel/bio.c:58-151 | In every run with crashes, a valid buffer without a pending change shows its block's latest contents, no two buffers of the disk show the same block, and refcnt is the number of users plus one pin exactly when the block is logged and not installed |
| `BufferCache.StaleNeverRecycled` | project05-zwang203-main/xv6/kernel/bio.c:58-151 | In every run, a block whose disk copy is stale has a valid buffer with a positive reference count |
| `BufferCache.CachedCrashAtomicity` | project05-zwang203-main/xv6/kernel/bio.c:58-151 | Crash atomicity of the log holds of the system that runs through the cache |
| `BufferCache.StepRefines` | project05-zwang203-main/xv6/kernel/bio.c:58-151 | Every step of the cached system is, for the log, either invisible or the corresponding step of the log machine |
| `BufferCache.StaleIsPinned` | project05-zwang203-main/xv6/kernel/log.c:215-235 | A home block whose disk copy differs from its latest contents is in the header's uninstalled part |
| `BufferCache.FillIsLatest` | project05-zwang203-main/xv6/kernel/bio.c:93-103 | When bread must read the disk, the disk copy is the latest contents |
| `BufferCache.MissKept` | project05-zwang203-main/xv6/kernel/bio.c:58-89 | Recycling the least recently used unused buffer keeps the cache invariant |
| `BufferCache.LogItKept` | project05-zwang203-main/xv6/kernel/log.c:215-235 | log_write with bpin keeps the cache invariant: contents become latest, and a new block takes one pin |
| `BufferCache.WriteOutKept` | project05-zwang203-main/xv6/kernel/log.c:68-203 | Each disk write of commit and recovery through buffers, with bunpin, keeps the cache invariant |
| `BufferCache.CacheInvKept` | project05-zwang203-main/xv6/kernel/bio.c:58-151 | Every step keeps the cache invariant |
| `BufferCache.SysInvKept` | project05-zwang203-main/xv6/kernel/bio.c:58-151 | Every step keeps the cache and log invariants together |
| `BufferCache.SysRunInv` | project05-zwang203-main/xv6/kernel/bio.c:36-151 | Both invariants hold at the end of every run from boot, where binit has pushed every buffer at the front of the list |
| `BufferCache.ListKept` | project05-zwang203-main/xv6/kernel/bio.c:117-137 | Every buffer stays on the LRU list exactly once |
| `CacheHistory.LogItShows` | project05-zwang203-main/xv6/kernel/log.c:215-235 | log_write leaves every buffer's data alone and makes the held buffer's data the latest contents of its block and of no other |
| `CacheHistory.DataComesFrom` | project05-zwang203-main/xv6/kernel/bio.c:58-151 | A buffer's data changes only by its holder's stores, by bread's disk read of its block, and by the copies of commit and recovery |
| `CacheHistory.CachedLastCommitted` | project05-zwang203-main/xv6/kernel/bio.c:58-151 | Durability through the cache: the steps of the log inside a run of the cached system are a run of the log machine, and recovery gives every home block the data of its last committed log_write |
| `CacheHistory.WritesAreBuffers` | project05-zwang203-main/xv6/kernel/log.c:215-235 | Every log_write of that run is one of the cached system's, of the block and the data that its buffer had |
| `CacheHistory.TransparentFromSteps` | project05-zwang203-main/xv6/kernel/bio.c:58-151 | refcnt is the number of bget steps not yet undone by brelse, plus the pin; a valid buffer that no step has changed since it was read or logged shows the latest contents |
| `CacheHistory.ListByRelease` | project05-zwang203-main/xv6/kernel/bio.c:36-137 | The LRU list is in order of last release, most recent first, with the buffers not released since boot behind in binit's order, in every state of every run |
| `CacheHistory.RecyclesOldest` | project05-zwang203-main/xv6/kernel/bio.c:77-89 | bget recycles, of the buffers that nobody uses, the one released longest ago |
| `BufferCache.Search` | project05-zwang203-main/xv6/kernel/bio.c:58-89 | bget's two scans find the block exactly if some buffer of the disk shows it, otherwise the unused buffer nearest the least recently used end, and fail only if every buffer is in use |
| `BlockMap.DistinctBlocks` | project05-zwang203-main/xv6/kernel/fs.c:382-421 | Two different slots, direct, indirect or in any table of any file, never hold the same block |
| `BlockMap.OwnDirect` | project05-zwang203-main/xv6/kernel/fs.c:388-396 | A fresh block at an empty direct slot keeps ownership exact and changes no other slot |
| `BlockMap.OwnInd` | project05-zwang203-main/xv6/kernel/fs.c:400-406 | A fresh zeroed indirect block keeps ownership exact and makes no entry appear |
| `BlockMap.OwnEntry` | project05-zwang203-main/xv6/kernel/fs.c:407-417 | A fresh block in an indirect table keeps ownership exact and changes no other slot of any file |
| `BlockMap.OwnNothing` | project05-zwang203-main/xv6/kernel/fs.c:426-453 | Clearing all slots of one file leaves every other file's slots and owned blocks as they were |
| `Bitmap.StorePacked` | project05-zwang203-main/xv6/kernel/fs.c:66-105 | Setting or clearing bit bi % 8 of byte bi / 8 of a bitmap block changes the bit of that one disk block and of no other |
| `Bitmap.PlaceIsNumber` | project05-zwang203-main/xv6/kernel/fs.c:66-105 | Counting through the bitmap blocks byte by byte, low bits first, the bit of block b is the b-th |
| `Bitmap.BitsApart` | project05-zwang203-main/xv6/kernel/fs.c:75-77 | The masks 1 << (bi % 8) of a byte are independent under the code's or and and-not |
| `FileSystem.Fs.Balloc` | project05-zwang203-main/xv6/kernel/fs.c:65-88 | The lowest free block is marked, zeroed and logged with its bitmap block; 0 exactly if no block is free; of the bitmap blocks only the one on disk at BBlock(b) changes |
| `FileSystem.Fs.Bfree` | project05-zwang203-main/xv6/kernel/fs.c:92-105 | Clears the block's bit; that the bit is set, the guard of the panic, is shown by every caller; of the bitmap blocks only the one on disk at BBlock(b) changes |
| `FileSystem.Fs.Bmap` | project05-zwang203-main/xv6/kernel/fs.c:382-421 | Keeps ownership and the bitmap exact; a filled slot is returned without any change; an empty one gets a zeroed block nobody owned, and only that slot and the indirect pointer can change; 0 means no block is free; every block changed has been logged, and what is logged stays within the new blocks, their bitmap blocks and the indirect block |
| `FileSystem.Fs.Itrunc` | project05-zwang203-main/xv6/kernel/fs.c:426-453 | Exactly the blocks of the one inode become free, all others keep their bit and owner; the inode is empty on disk too; every block given to bfree has its bit set, and every bitmap block changed has been logged |
| `FileSystem.Fs.FreeDirect` | project05-zwang203-main/xv6/kernel/fs.c:432-437 | The first loop gives up exactly the direct slots' blocks, each marked when freed |
| `FileSystem.Fs.FreeIndirect` | project05-zwang203-main/xv6/kernel/fs.c:439-445 | The second loop gives up exactly the table's blocks, each marked when freed |
| `FileSystem.Fs.Iupdate` | project05-zwang203-main/xv6/kernel/fs.c:225-241 | Slot k % IPB of the inode's block becomes the in-memory inode, and no other inode's copy changes |
| `FileSystem.Fs.Readi` | project05-zwang203-main/xv6/kernel/fs.c:471-496 | For off within the file and no 32-bit wrap, min(n, size - off) bytes are returned, byte i of them byte off + i of the file; otherwise none; -1 exactly if the destination cannot take that many; no block is allocated and no field of the file system changes |
| `FileSystem.Fs.Layout` | project05-zwang203-main/xv6/kernel/fs.c:383-424 | Byte p of a file is byte p % BSIZE of its direct block p / BSIZE, or of the block that entry p / BSIZE - NDIRECT of the indirect table names |
| `FileSystem.Fs.Writei` | project05-zwang203-main/xv6/kernel/fs.c:505-539 | -1 exactly if off is past the end, off + n wraps at 32 bits or off + n exceeds (NDIRECT + NINDIRECT)*BSIZE, and then nothing changes; otherwise the first r bytes overwrite or extend the byte sequence, r falls short only if no block is free or the source cannot be copied from, all other files keep their contents, every block changed has been logged, and a write of at most cb blocks' bytes logs at most 2cb + 3 blocks before the inode's |
| `FileSystem.Fs.Filewrite` | project05-zwang203-main/xv6/kernel/file.c:149-175 | The bytes written are a prefix of the source placed at the old offset, the offset advances by as many, other files keep their contents, n is returned exactly if all were written, and a shortfall has one of the named causes. The whole way from the old blocks (data, tables, bitmap, inodes) to the new ones is a sequence of transactions, each of which changes only blocks that it passed to log_write, at most MAXOPBLOCKS of them, the inode's block last and at most MAXOPBLOCKS - 1 before it; a complete write of n bytes takes as many transactions as n bytes need at ((MAXOPBLOCKS-1-1-2) / 2) * BSIZE bytes each, and no more |
| `FileSystem.Fs.WriteChunk` | project05-zwang203-main/xv6/kernel/file.c:157-167 | One transaction of filewrite: what is written of the chunk, why it may fall short, and that the calls of log_write, in order, end with the inode's block, cover every changed block, and name at most MAXOPBLOCKS - 1 different blocks before it; -1 changes and logs nothing |
| `FileSystem.Fs.WriteThenRead` | project05-zwang203-main/xv6/kernel/fs.c:471-539 | writei and then readi of as many bytes at the same offset, through the code of both, give back exactly what was written |
| `OperationBudget.ChunkNeverPanics` | project05-zwang203-main/xv6/kernel/file.c:145-167 | After any run of the log machine in which every operation logs at most MAXOPBLOCKS different blocks, and however steps interleave, an operation that has made a proper prefix of the log_write calls of a filewrite transaction can make the next one: no panic, the promise kept, the block in the log; and end_op does not panic |
| `OperationBudget.ChunkRuns` | project05-zwang203-main/xv6/kernel/file.c:145-167 | All calls of a filewrite transaction go through as one operation of the log machine, from any state in which that operation has begun, and every block it logged is then in the log (its blocks lie outside the log region) |
| `OperationBudget.ModestRunObeys` | project05-zwang203-main/xv6/kernel/log.c:215-235 | If every operation passes at most MAXOPBLOCKS different blocks to log_write, every step keeps the promise on which the log's space rests |
| `OperationBudget.TrackedKept` | project05-zwang203-main/xv6/kernel/log.c:126-235 | Every step, by whichever process, keeps this of every open operation: all blocks it has logged are in the log, and it has added no more than it has logged different ones |
| `OperationBudget.RunTracked` | project05-zwang203-main/xv6/kernel/log.c:126-235 | The same holds at the end of every run, crashes included |
| `FileSystem.OverwriteTwice` | project05-zwang203-main/xv6/kernel/file.c:149-175 | Two adjacent writes are one write of the concatenation, so chunking does not show in the contents |
| `FileSystem.MappedBytes` | project05-zwang203-main/xv6/kernel/fs.c:382-421 | bmap changes no byte of any file: a new block reads as the zeros its absence read as |
| `FileSystem.StoredBytes` | project05-zwang203-main/xv6/kernel/fs.c:516-528 | Bytes stored into a slot's block appear in that file at that offset and nowhere else |
| `FileSystem.UnalignedIsHeld` | project05-zwang203-main/xv6/kernel/fs.c:505-528 | At an unaligned offset within the file, the block is already allocated, since every block below the size is |
| `FileSystem.LogTotal` | project05-zwang203-main/xv6/kernel/fs.c:505-539 | The count of distinct logged blocks: two per file block, one less when the first is allocated, two for the indirect block |
| `PageTable.IndicesDetermine` | project05-zwang203-main/xv6/kernel/riscv.h:347-363 | Distinct pages below MAXVA have distinct index triples, so distinct leaf slots |
| `HardwareWalk.HardwareSees` | project05-zwang203-main/xv6/kernel/riscv.h:338-363 | For every address below MAXVA, every kind of access and both modes, the processor's Sv39 translation of a well-formed tree, by physical addresses and bit positions, is the PTE of the flat map: its frame if bits V, R, W, X and U permit, a page fault otherwise |
| `PageTable.WalkRoles` | project05-zwang203-main/xv6/kernel/vm.c:85-103 | The tables met on the way to a page are those of its index prefix |
| `PageTable.PokeLeaf` | project05-zwang203-main/xv6/kernel/vm.c:143-192 | Writing a leaf slot keeps the tree well formed |
| `PageTable.PokeLeafAt` | project05-zwang203-main/xv6/kernel/vm.c:143-192 | Writing a leaf slot changes the flat map at that page and at no other |
| `PageTable.LinkTable` | project05-zwang203-main/xv6/kernel/vm.c:95-100 | Hanging a zeroed page into an empty slot keeps the tree well formed, with no interior page shared |
| `PageTable.LinkTableAt` | project05-zwang203-main/xv6/kernel/vm.c:95-100 | Hanging a zeroed page into an empty slot changes the flat map nowhere |
| `PageTable.UnlinkTable` | project05-zwang203-main/xv6/kernel/vm.c:272-287 | Clearing a table entry and forgetting its subtree leaves a well-formed tree |
| `PageTable.EmptyMapHasNoLeaves` | project05-zwang203-main/xv6/kernel/vm.c:272-297 | An empty flat map means that no leaf is left anywhere in the tree, so freewalk's panic is unreachable |
| `PageTable.EmptyTableIsAlone` | project05-zwang203-main/xv6/kernel/vm.c:272-287 | A table without valid entries is its whole subtree, so freeing its page frees all of it |
| `VirtualMemory.Kernel.Kalloc` | project05-zwang203-main/xv6/kernel/kalloc.c:69-82 | Pops the head of the intrusive list, filled with junk, or returns 0 exactly if it is empty |
| `VirtualMemory.Kernel.Kfree` | project05-zwang203-main/xv6/kernel/kalloc.c:47-63 | Pushes the frame, filled with junk but for the link; no other frame's contents change |
| `VirtualMemory.Kernel.Freerange` | project05-zwang203-main/xv6/kernel/kalloc.c:34-40 | Exactly the whole pages between the two addresses, rounded as PGROUNDUP does, join the free list; no other frame changes: those that start at paStart or later and end at paEnd or before |
| `VirtualMemory.Kernel.Kinit` | project05-zwang203-main/xv6/kernel/kalloc.c:26-40 | Exactly the whole pages between the end of the kernel and PHYSTOP are free, once each, and no other frame changes; no free frame has a byte of the kernel |
| `VirtualMemory.Kernel.Walk` | project05-zwang203-main/xv6/kernel/vm.c:85-103 | Returns the table that holds the page's PTE; the flat map stays the same; new table pages come from the free list; without alloc nothing changes; 0 with alloc only when memory is exhausted |
| `VirtualMemory.Kernel.MapPages` | project05-zwang203-main/xv6/kernel/vm.c:143-165 | The flat map gains exactly the pages of the range, consecutive frames with the given permissions, and is unchanged elsewhere; on failure the pages before stay mapped and memory is exhausted |
| `VirtualMemory.Kernel.UvmUnmap` | project05-zwang203-main/xv6/kernel/vm.c:171-192 | The flat map loses exactly the range, and with do_free exactly the mapped frames join the free list |
| `VirtualMemory.Kernel.UvmAlloc` | project05-zwang203-main/xv6/kernel/vm.c:226-249 | Succeeds if and only if the free list has a frame for every new page and every missing page-table page; then the new pages map zeroed frames of their own with the stated flags, otherwise the flat map is exactly as before; in both, free frames, table pages and new frames together are conserved; to the processor, exactly the pages that start from oldsz up to newsz become readable, and writable or executable as xperm's bits say, for user mode only, reading as zeros, and every other address translates as before |
| `VirtualMemory.Kernel.UvmDealloc` | project05-zwang203-main/xv6/kernel/vm.c:256-267 | Exactly the pages between the rounded sizes are unmapped and their frames freed; to the processor, exactly the pages that start from newsz up to oldsz go |
| `VirtualMemory.Kernel.UvmCopy` | project05-zwang203-main/xv6/kernel/vm.c:306-333 | Succeeds if and only if the free list has a frame for every page and every missing page-table page; then every page of the child has the parent's flags and bytes on a different frame, otherwise the child's flat map is exactly as before; the parent's map never changes; frames are conserved; to the processor, on every page that starts below sz the child may do what the parent may and reads the same words at other physical addresses |
| `VirtualMemory.Kernel.FreeWalk` | project05-zwang203-main/xv6/kernel/vm.c:272-287 | Recursion by level; exactly the pages of the subtree join the free list, everything else keeps its contents |
| `VirtualMemory.Kernel.UvmFree` | project05-zwang203-main/xv6/kernel/vm.c:292-297 | Every frame of the space, data and tables, is free again, and nothing else becomes free |
| `VirtualMemory.Kernel.UvmCreate` | project05-zwang203-main/xv6/kernel/vm.c:197-205 | An address space with an empty flat map on one frame from the free list; 0, with nothing changed, exactly if the free list is empty |
| `VirtualMemory.Kernel.ProcPagetable` | project05-zwang203-main/xv6/kernel/proc.c:427-457 | The flat map holds exactly trampoline and trapframe; 0 exactly if fewer than three frames are free, and then every frame is given back; only frames of the free list are written; user mode reaches nothing, the kernel may run the trampoline and write the trapframe |
| `VirtualMemory.Kernel.ProcFreepagetable` | project05-zwang203-main/xv6/kernel/proc.c:461-467 | All frames of the space but the two special ones are free again; no other frame changes |
| `TableBudget.EmptySlotIsNew` | project05-zwang203-main/xv6/kernel/vm.c:93-100 | No page of a well-formed tree has the role of an empty slot, so every page-table page is paid for once |
| `TableBudget.Short` | project05-zwang203-main/xv6/kernel/vm.c:226-249 | Running short at one page means that the free list had fewer frames than all pages and missing tables need |
| `TableBudget.Enough` | project05-zwang203-main/xv6/kernel/vm.c:226-249 | When all pages are mapped, the free list has given exactly one frame for each and for each missing table |
| `AddressSpaces.OtherStays` | project05-zwang203-main/xv6/kernel/vm.c:171-333 | An operation that writes only free frames and those of one space leaves every other live space well formed, with the same translations, the same frames and the same contents |
| `AddressSpaces.WorldKept` | project05-zwang203-main/xv6/kernel/vm.c:171-333 | Such an operation keeps all live spaces pairwise disjoint in tables and data, and the pool of free, table and data frames constant |
| `AddressSpaces.Boot` | project05-zwang203-main/xv6/kernel/kalloc.c:26-40 | kinit yields the first consistent world: no space, and a pool of exactly the frames between the kernel and PHYSTOP, all free |
| `AddressSpaces.Grow` | project05-zwang203-main/xv6/kernel/proc.c:518-533 | uvmalloc on one of many live spaces keeps the pool and all others, and succeeds exactly if the frames suffice; the pages the space had, and its two special pages, keep PTEs and bytes on success and failure, and the new pages are zero with the flags asked for; with uvmalloc's effect on the processor's translations |
| `AddressSpaces.Shrink` | project05-zwang203-main/xv6/kernel/proc.c:518-533 | uvmdealloc on one of many live spaces keeps the pool and all others, and the pages that remain keep PTEs and bytes; with uvmdealloc's effect on the processor's translations |
| `AddressSpaces.Create` | project05-zwang203-main/xv6/kernel/proc.c:427-457 | proc_pagetable among live spaces keeps the pool and all others, maps exactly trampoline and trapframe, and fails exactly with fewer than three free frames |
| `AddressSpaces.CopyInto` | project05-zwang203-main/xv6/kernel/vm.c:306-333 | uvmcopy between two of many live spaces keeps the pool and all others, the parent included; on success parent and child have equal flags and bytes on different frames, page by page; with uvmcopy's effect on the processor's translations |
| `AddressSpaces.Drop` | project05-zwang203-main/xv6/kernel/proc.c:377-422 | proc_freepagetable of one space returns exactly its tables and data to the free list and keeps all others |
| `Scheduler.InvKept` | project05-zwang203-main/xv6/kernel/proc.c:541-943 | Every step of every CPU, also of an interrupt handler's wakeup on an idle CPU or in a scheduler that has just taken a process, keeps the invariant relating process states, run lists, unused_list, process locks, c->proc and forks in progress |
| `Scheduler.RunInv` | project05-zwang203-main/xv6/kernel/proc.c:484-943 | The invariant holds in every state of every multi-CPU interleaving from userinit on, with wakeups from interrupts wherever no lock is held |
| `Scheduler.OneList` | project05-zwang203-main/xv6/kernel/proc.c:541-595 | A process's elem is on at most one of unused_list and its own container's run list, once, and on no other container's |
| `Scheduler.ListedState` | project05-zwang203-main/xv6/kernel/proc.c:734-765 | Members of run lists are RUNNABLE, members of unused_list UNUSED |
| `Scheduler.OneCpu` | project05-zwang203-main/xv6/kernel/proc.c:734-782 | No process is c->proc of two CPUs, and none taken by one scheduler executes on another CPU or is taken there too |
| `Scheduler.NoPanic` | project05-zwang203-main/xv6/kernel/proc.c:767-809 | The scheduler's ASSERT holds whenever it is reached, and sched's checks of the process lock and of the process state never panic |
| `Scheduler.FirstInFirstOut` | project05-zwang203-main/xv6/kernel/proc.c:749-765 | What schedulers have taken from the root's run list is a prefix of what was appended, in the same order, and the list holds the rest |
| `Scheduler.RunningHasCpu` | project05-zwang203-main/xv6/kernel/proc.c:734-782 | A RUNNING process is c->proc of some CPU |
| `Scheduler.RunnableNotLost` | project05-zwang203-main/xv6/kernel/proc.c:541-943 | A RUNNABLE process is on its container's run list, taken by a scheduler, or held by a yield, wakeup, kill or fork that is about to append it |
| `Scheduler.MoveKeeps` | project05-zwang203-main/xv6/kernel/proc.c:734-943 | A step that touches one process whose elem no other CPU has in hand keeps the invariant for all other CPUs and processes |
| `ProcessHistory.WakesExactly` | project05-zwang203-main/xv6/kernel/proc.c:855-943 | In every run a SLEEPING process turns RUNNABLE exactly when a wakeup looks at it whose call named the channel that the process passed to its last call of sleep, or when a kill whose call named it finds it; nothing else ends its sleep |
| `ProcessHistory.ReapsExactly` | project05-zwang203-main/xv6/kernel/proc.c:680-727 | In every run a zombie turns UNUSED exactly when a wait that was called for it looks at it |
| `ProcessHistory.StepsAllowed` | project05-zwang203-main/xv6/kernel/proc.c:541-943 | In every run a step moves a process from one state to another if and only if the place of its CPU is the one of nine that does: both directions of the whole transition table |
| `ProcessHistory.TakenInOrder` | project05-zwang203-main/xv6/kernel/proc.c:749-765 | First in, first out, from the steps alone: the processes that yields, wakeups, kills and forks appended to the root's list, in order, are those that schedulers took, in order, and then those on the list; every other container's list is exactly what was appended to it, in order |
| `ProcessHistory.ContainersMove` | project05-zwang203-main/xv6/kernel/proc.c:541-595 | A process changes its container only where fork gives it one, and then to the one that fork was given |
| `ProcessHistory.RunsAreChosen` | project05-zwang203-main/xv6/kernel/proc.c:734-943 | Every run of the scheduler machine is a run with calls, so these results hold of all runs |
| `SleepLock.InvKept` | project05-zwang203-main/xv6/kernel/sleeplock.c:21-41 | Every step of acquiresleep, releasesleep, sleep, wakeup and kill by any process keeps the invariant, for any number of locks |
| `SleepLock.RunInv` | project05-zwang203-main/xv6/kernel/sleeplock.c:21-41 | The invariant holds in every state of every interleaving |
| `SleepLock.MutualExclusion` | project05-zwang203-main/xv6/kernel/sleeplock.c:21-41 | In every interleaving no two processes hold the same sleep lock |
| `SleepLock.NoLostWakeup` | project05-zwang203-main/xv6/kernel/proc.c:854-909 | Whenever a lock's inner spin lock is free and locked is 0, no process sleeps on it or is between giving up the inner lock and sleeping |
| `SleepLock.StillComing` | project05-zwang203-main/xv6/kernel/proc.c:886-909 | A wakeup in progress does not pass a process that is asleep or about to be |
| `LockHistory.AloneWithLock` | project05-zwang203-main/xv6/kernel/sleeplock.c:22-41 | Mutual exclusion from the calls alone: between its return from acquiresleep and its call of releasesleep a process is alone with the lock, and locked is 1 |
| `LockHistory.StopsSleeping` | project05-zwang203-main/xv6/kernel/proc.c:886-943 | A process asleep on a lock stops sleeping exactly when a wakeup on that lock looks at it or a kill does |
| `LinkedList.Insert` | project05-zwang203-main/xv6/kernel/list.c:175-185 | The node sequence gains the element just before the given node; prev and next stay inverse, sentinels intact |
| `LinkedList.Remove` | project05-zwang203-main/xv6/kernel/list.c:255-262 | The node sequence loses the element; its successor is returned |
| `LinkedList.Splice` | project05-zwang203-main/xv6/kernel/list.c:190-211 | A range of nodes moves to another place of the same or another list, exactly as a sequence move |
| `LinkedList.IsSorted` | project05-zwang203-main/xv6/kernel/list.c:348-357 | True exactly if no adjacent pair of the range descends |
| `LinkedList.FindEndOfRun` | project05-zwang203-main/xv6/kernel/list.c:364-379 | The node after the longest nondescending prefix |
| `LinkedList.InplaceMerge` | project05-zwang203-main/xv6/kernel/list.c:386-406 | The two adjacent runs become their stable merge, in place |
| `LinkedList.List.Reverse` | project05-zwang203-main/xv6/kernel/list.c:332-344 | The node sequence is exactly reversed, and the list is well formed |
| `LinkedList.List.SortPass` | project05-zwang203-main/xv6/kernel/list.c:411-447 | One pass over the heap list is the pure pass on its node sequence, with its count of runs |
| `LinkedList.List.SortList` | project05-zwang203-main/xv6/kernel/list.c:411-447 | For any strict weak order, list_sort terminates, its last assertion holds, and it leaves a well-formed list whose nodes are a sorted, stable permutation of the old ones; from at most 2^k natural runs it makes at most k + 1 passes |
| `NaturalMergeSort.MergeSorted` | project05-zwang203-main/xv6/kernel/list.c:386-406 | Merging sorted sequences gives a sorted one |
| `NaturalMergeSort.MergeStable` | project05-zwang203-main/xv6/kernel/list.c:386-406 | Merging keeps equivalent elements in order, those of the first run first |
| `NaturalMergeSort.PassIsStablePermutation` | project05-zwang203-main/xv6/kernel/list.c:411-447 | A pass is a permutation that keeps equivalent elements in order |
| `NaturalMergeSort.PassHalvesRuns` | project05-zwang203-main/xv6/kernel/list.c:411-447 | A pass outputs half as many runs, rounded up, and leaves at most that many natural runs |
| `NaturalMergeSort.LastPassSorts` | project05-zwang203-main/xv6/kernel/list.c:411-447 | A pass that outputs at most one run leaves the sequence sorted |
| `NaturalMergeSort.SortCorrect` | project05-zwang203-main/xv6/kernel/list.c:411-447 | The sort's result is a sorted, stable permutation of its input |
| `NaturalMergeSort.PassesLogarithmic` | project05-zwang203-main/xv6/kernel/list.c:411-447 | From at most 2^k natural runs, at most k + 1 passes are made |
| `NaturalMergeSort.SortedStableUnique` | project05-zwang203-main/xv6/kernel/list.c:411-447 | A sorted stable arrangement is unique, so the other results fix the output |
| `FreeList.FreedValid` | project05-zwang203-main/xv6/user/umalloc.c:25-44 | Putting a block between its neighbours and joining where they touch keeps the list in address order and fully coalesced |
| `FreeList.FreedUnits` | project05-zwang203-main/xv6/user/umalloc.c:33-42 | In all four coalescing cases the free units are the old ones and the block's |
| `FreeList.CutValid` | project05-zwang203-main/xv6/user/umalloc.c:75-82 | Cutting from the end of a block, or taking it whole, keeps the list in address order and fully coalesced |
| `FreeList.CutUnits` | project05-zwang203-main/xv6/user/umalloc.c:75-82 | The piece cut off and what remains free partition the old free units |
| `FreeList.CanonicalForm` | project05-zwang203-main/xv6/user/umalloc.c:25-44 | A fully coalesced list is determined by its set of free units |
| `FreeList.FreeUndoesMalloc` | project05-zwang203-main/xv6/user/umalloc.c:25-90 | Freeing the block just cut restores the free list exactly |
| `FreeList.UnitsCount` | project05-zwang203-main/xv6/user/umalloc.c:24-90 | The sizes of the blocks of a coalesced list add up to its number of units |
| `Umalloc.Conservation` | project05-zwang203-main/xv6/user/umalloc.c:24-90 | Free sizes plus allocated units equal all units obtained from sbrk, and each allocated unit is in exactly one allocated block |
| `Umalloc.FreedLinked` | project05-zwang203-main/xv6/user/umalloc.c:33-43 | free's pointer and size stores make the circle of headers exactly the joined list |
| `Umalloc.CutLinked` | project05-zwang203-main/xv6/user/umalloc.c:75-83 | malloc's stores make the circle of headers exactly the cut list |
| `Umalloc.Heap.Free` | project05-zwang203-main/xv6/user/umalloc.c:25-44 | For any allocated block: the search terminates, the circle stays address-ordered with one wrap and fully coalesced, the block's units become free, and no unit of any other allocated block is written |
| `Umalloc.Heap.Place` | project05-zwang203-main/xv6/user/umalloc.c:30-32 | The search ends, at the free block after which bp belongs |
| `Umalloc.Heap.Morecore` | project05-zwang203-main/xv6/user/umalloc.c:47-61 | New memory from sbrk, at least 4096 units, becomes free, or nothing changes; some block is then large enough; no unit of an allocated block is written |
| `Umalloc.Heap.Malloc` | project05-zwang203-main/xv6/user/umalloc.c:64-90 | Null only if sbrk fails and no block fits; otherwise a block disjoint from all others, of just enough units for nbytes; morecore is called at most once and only when no block fits; free units, allocated units and sbrk's units balance exactly; no unit of an allocated block is written |
| `ShellGrammar.GetToken` | project05-zwang203-main/xv6/user/sh.c:267-309 | Positions advance within the line; a word token is a longest run of plain characters |
| `ShellGrammar.ParseLine` | project05-zwang203-main/xv6/user/sh.c:346-360 | Terminates on every line; positions advance within the line, and every argument and file name of the result is a word of the line |
| `ShellGrammar.ParseCmd` | project05-zwang203-main/xv6/user/sh.c:329-343 | Terminates on every line; an accepted command consists of words of the line |
| `ShellSyntax.Language` | project05-zwang203-main/xv6/user/sh.c:266-447 | parsecmd accepts a line with a meaning if and only if the line is a layout, with any white space, of a sentence of the grammar with that meaning: words and redirections in any order, blocks, right-nested pipelines, & on the whole pipeline, ; between lines |
| `ShellSyntax.Accepts` | project05-zwang203-main/xv6/user/sh.c:329-447 | Every sentence in every layout is accepted, with exactly its words as arguments and its redirections around them in their order |
| `ShellSyntax.AcceptsOnly` | project05-zwang203-main/xv6/user/sh.c:329-447 | Every accepted line is a layout of a sentence, and denotes what that means |
| `ShellSyntax.ItemsParse` | project05-zwang203-main/xv6/user/sh.c:417-447 | Words and redirections in any interleaving are read as exactly those arguments and redirections |
| `ShellSyntax.PipeParse` | project05-zwang203-main/xv6/user/sh.c:363-373 | a | b | c is read as a pipe from a into the pipe from b into c, without parentheses too |
| `ShellSyntax.LineParse` | project05-zwang203-main/xv6/user/sh.c:346-360 | Each & wraps the whole pipeline before it, and ; makes a list with the rest of the line |
| `ShellSyntax.Sees` | project05-zwang203-main/xv6/user/sh.c:266-324 | At each token of a layout gettoken and peek see that token, its text and the next one's place |
| `ShellRender.RoundTrip` | project05-zwang203-main/xv6/user/sh.c:329-447 | Any command tree of nonempty plain words, with fewer than MAXARGS arguments each, has a rendering that parses back to exactly that tree |
| `ShellParser.ReadsWord` | project05-zwang203-main/xv6/user/sh.c:451-494 | With NULs after all words of the command, each word read as a C string is exactly its token |
| `ShellParser.Parser.NextToken` | project05-zwang203-main/xv6/user/sh.c:267-309 | The loops over *ps compute the token and advance as the grammar says |
| `ShellParser.Parser.PeekFor` | project05-zwang203-main/xv6/user/sh.c:312-321 | Skips white space and tells whether one of the characters follows |
| `ShellParser.Parser.Redirs` | project05-zwang203-main/xv6/user/sh.c:376-398 | The loop collects the redirections the grammar gives, or panics as it does |
| `ShellParser.Parser.Args` | project05-zwang203-main/xv6/user/sh.c:417-447 | The argument loop, MAXARGS included, agrees with the grammar |
| `ShellParser.Parser.ExecCmd` | project05-zwang203-main/xv6/user/sh.c:417-447 | Agrees with the grammar's parse, result and position |
| `ShellParser.Parser.BlockCmd` | project05-zwang203-main/xv6/user/sh.c:401-414 | Agrees with the grammar's parse, result and position |
| `ShellParser.Parser.PipeCmd` | project05-zwang203-main/xv6/user/sh.c:363-373 | Agrees with the grammar's parse, result and position |
| `ShellParser.Parser.LineCmd` | project05-zwang203-main/xv6/user/sh.c:346-360 | Agrees with the grammar's parse, result and position; the recursion terminates |
| `ShellParser.Parser.NulTerminate` | project05-zwang203-main/xv6/user/sh.c:451-494 | Writes NUL exactly at the ends of the command's words and changes no other character |
| `ShellParser.Parser.Parse` | project05-zwang203-main/xv6/user/sh.c:329-343 | Accepts exactly the layouts of sentences; what runcmd then finds in the buffer, every argument and file name read as a C string, is exactly the sentence's meaning; a rejected line leaves the buffer unchanged |
| `Grep.Match` | project05-zwang203-main/xv6/user/grep.c:72-81 | True exactly if some substring of the text, anchored as ^ and $ ask, is in the language of the pattern |
| `Grep.MatchHere` | project05-zwang203-main/xv6/user/grep.c:84-95 | True exactly if a prefix of the text is in the language, in the code's order of tests; terminates with matchstar on a lexicographic measure |
| `Grep.MatchStar` | project05-zwang203-main/xv6/user/grep.c:98-105 | True exactly if some run of fitting characters is followed by a match of the rest |
| `Grep.MatchesHereOne` | project05-zwang203-main/xv6/user/grep.c:92-94 | The declarative language of a pattern with a plain first character, unfolded once |
| `Grep.MatchesHereStar` | project05-zwang203-main/xv6/user/grep.c:88-89 | The declarative language of a starred first character, unfolded once |
| `Grep.MatchesHereEnd` | project05-zwang203-main/xv6/user/grep.c:86-91 | The empty pattern and the final $ |
| `ParkMiller.Context.DoRand` | project05-zwang203-main/xv6/user/grind.c:17-40 | The state becomes 7^5 * (s + 1) mod (2^31 - 1) - 1; every value computed on the way, products included, fits 31 bits and a sign; the result is in range |
| `ParkMiller.Schrage` | project05-zwang203-main/xv6/user/grind.c:17-40 | Schrage's split stays within the signed bound and equals 7^5 * x mod (2^31 - 1) |
| `ParkMiller.NeverZero` | project05-zwang203-main/xv6/user/grind.c:17-40 | The product is never 0 before the shift |
| `ParkMiller.Cancel` | project05-zwang203-main/xv6/user/grind.c:17-40 | Multiplying by 7^5 and by its inverse cancels modulo 2^31 - 1 |
| `ParkMiller.StepIsBijection` | project05-zwang203-main/xv6/user/grind.c:17-40 | A step permutes its range: it has a two-sided inverse |
| `ParkMiller.RunIsPower` | project05-zwang203-main/xv6/user/grind.c:17-40 | k calls from an in-range state s give 16807^k * (s + 1) mod (2^31 - 1) - 1 |
| `ParkMiller.RunsRewind` | project05-zwang203-main/xv6/user/grind.c:17-40 | k calls can be undone |
| `ParkMiller.RunsNeverMerge` | project05-zwang203-main/xv6/user/grind.c:17-40 | Runs from different in-range seeds never meet at the same step |

## Left out

- Device and hardware code (virtio disk, UART, PLIC, traps, assembly): the disk is atomic block reads and writes.
- Copy faults part way through a block in readi and writei: the copy of a block's bytes succeeds or leaves the block untouched.
- Blocks have two readings in FileSystem, bytes and block numbers; a block is used in one of them only, and zeroing clears both.
- Interleaving of other processes with a file-system call or between the chunks of filewrite: FileSystem runs one process at a time, which the inode lock and the log's transactions provide for one call.
- Inode types, link counts, ialloc, iput, directories and paths: easier layers over bmap, itrunc, readi and writei.
- filewrite and fileread on pipes and devices, and the conversion of a file offset beyond 2^31 to a signed return value.
- Accessed and dirty bits of PTEs, and the widths of physical page numbers: Sv39 has unbounded numbers.
- The open flags and descriptors of redirections: the three operators are told apart by name.
- BufferCache.ListKept: the LRU list is a sequence of buffer indices; the pointer updates of brelse are not modelled.
- BufferCache.WriteOutKept: the copy into the buffer, bwrite and bunpin are one step, taken by the holder of both buffers; a buffer's data is replaced as a whole, not byte by byte.
- FileSystem.Fs.Filewrite: no other process changes the file between two chunks.
- Scheduler.NoPanic: sched's checks of noff and of the interrupt flag are not modelled, because interrupt enabling and spin locks other than process locks are not.
- The absence of bget's panic: NBUF equals LOGSIZE, so it is not guaranteed; it is treated as a crash.
- holdingsleep's pid test: pids are per container and rewritten by reparent, so ownership is recorded by process.
- Container lifecycle (alloccont, freecont, cfork, cinfo), pids, parents and the failure paths of allocproc: wait reaps any zombie in Scheduler, which allows more runs than the code has.
- Progress of processes outside the root container: only the root's run list is scheduled.
- Scheduler treats a list operation under a container's lock or unused_lock as one step; interrupts appear as yields and wakeup calls, and only where no lock is held.
- SleepLock leaves out which CPU runs a process; any process that is not asleep may move.
- kvmmake, copyin, copyout, uvmclear and uvmfirst: address-space code without frame accounting of its own.
- Umalloc requests whose size overflows sbrk's int argument, and 32-bit wrap-around of block sizes.
- runcmd and the reading of lines in sh.c; the shell's heap objects: the execcmd that parseexec fills in place is built when its loop ends.
- grep's buffering of input lines, and user programs other than those named.
- pipe.c, console.c, exec.c and system-call plumbing.
