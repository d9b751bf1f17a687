# xv6: proofs about the kernel, the heap allocator, the shell and grep

This project models the parts of xv6 (the p5 tree; p4 has the same files except where p5 adds clone,
shared address spaces and the mutex) whose correctness is hardest to see from reading one function,
and proves what the rest of the system relies on them for. The Dafny files follow the program:

- **The redo log** (log.c). `LogFormat` is the on-disk header and what recovery makes of a disk;
  `LogCore` cuts begin_op, log_write, end_op, commit and recovery at their disk writes; `LogProtocol`
  proves crash atomicity and group commit over all runs, a crash being a step that forgets memory;
  log_write is two steps there, its tests without the lock and its append under it. `LogReservation` is
  begin_op's reservation and `LogSafety` the size of log for which all this holds; `LogCode` is the code
  itself, each loop proved to make the protocol's disk writes in the protocol's order; `CrashConsistency`,
  `Transaction` and `FileCrash` put the log under the file system and filewrite over both.
- **The buffer cache** (bio.c). `BufRing` is the prev/next ring, `Bio` the cache; its callers see a
  plain map from block numbers to blocks.
- **Files on blocks** (fs.c, file.c). `FsLayout` is the disk format with its bit and word arithmetic and
  `DiskBytes` the same format byte by byte; `FsImage` says which block belongs to which file, `FsWrite` and
  `FsTrunc` what a half-done write or truncation means, `FsHealth` the invariant as a file system checker
  would put it, `FsFormat` the empty file system, and `FileSystem` and `File` are the code.
- **The heap allocator** (umalloc.c). `FreeRing` is the geometry of the free list, `HeapModel` the heap
  as headers linked in memory, `Umalloc` the code, with sbrk as sysproc.c and proc.c answer it.
- **Address spaces** (vm.c, kalloc.c and the counts that clone, exec and wait keep). `PageTable`,
  `VmModel`, `VirtualMemory` and `SharedSpaces`; `Mmu` is the processor's view of page tables.
- **Locks and processes** (spinlock.c, sleeplock.c, mutex.c, proc.c). `SpinLock`, `SleepLock` and
  `ProcTable` are machines with explicit program counters, lock owners and CPUs; their results hold in
  every interleaving. `ProcCalls` says what wait, kill, wakeup, sleep and sched come to in any run of the
  last, `ProcInterrupts` that none loses interrupts, and `ProcLife` has two of its runs, from boot to the
  end of a process and to a parent that is woken. macquire and mrelease (mutex.c:21-41) are step for step
  acquiresleep and releasesleep, so `SleepLock` speaks for both.
- **Pipes, the shell parser and the matcher** (pipe.c, sh.c, grep.c). `Pipe`; `ShellSyntax`,
  `ShellRoundTrip`, `ShellGrammar`, `ShellMinimal`, `ShellWords` and `ShellParser`; `Grep`.
- `Headers` compares the numbers with those of the C headers; `Param`, `Collections` and `Blocks` have the
  numbers, sets and words that the others share.

What depends on the environment is a parameter or an action that may happen at any time: crashes, the
timer, kill, which process a scheduler picks, whether sbrk finds pages, what a device answers. A method whose
first result is false stands for a kernel panic, or in `Umalloc` for a page fault that kills the process.

## Where the code does less than one might hope

- log_write tests for room before it takes the log's lock (log.c:218-223), so two callers can pass the
  tests when there is room for one block. With operations of at most k blocks the log is safe from that
  exactly when it has more than MAXOPBLOCKS + 2k blocks (`LogSafety.FitsExactly`), and crash atomicity,
  durability and writes in place hold of all such runs exactly then (`AtomicExactly`, `DurableExactly`,
  `InPlaceExactly`; a log of a single block is safe as well, for nothing can be logged in it). mkfs makes
  the log LOGSIZE = 30 blocks long, header included (mkfs.c:25): enough for operations of nine blocks and
  not for operations of ten. `LogSafety.MkfsOverrun` is a run in which it comes to name 30 blocks; its
  commit writes to the block behind the log. The exact conditions are for disks with at least LOGSIZE
  blocks behind the log.
- The same tests refuse a block that needs no room because it is already logged.
  `LogReservation.CheckExactly` says when in any one state, `NewBlocksFitExactly` and `RepeatsFitExactly`
  for which logs it never happens; for operations of ten blocks there is none.
- malloc hands out a usable block exactly for requests below 2^31 - 15 bytes (`Umalloc.Heap.Malloc`, for
  all requests). From there to 2^32 - 8 bytes, morecore's product of units and their size overflows the
  int that sbrk takes, sbrk adds no memory, and malloc returns what lies behind the old break unless the
  process is killed by a page fault first; the break may even sink into the heap. Above that the rounding
  overflows, and the block is a header and nothing more. `Umalloc.NoMemory`, `Sunk` and `TooSmall` are
  runs in which these happen.
- A writer that is killed after filling a pipe returns without waking readers that went to sleep when
  it was empty (pipe.c:86-88). `Pipe.PipeBuffer.Write` states exactly when, and
  `Pipe.KilledWriterStrandsReader` is a run in which it happens.
- sh.c treats `>>` like `>`, and accepts `a & ; b` but not `a & b`; the grammar here does the same.

## Model

| member | source | states |
|---|---|---|
| LogFormat.HeadRoundTrip | p5/xv6-public/log.c:84-113 | a header block written by write_head is read back by read_head as the same list of block numbers, whatever the rest of the block holds |
| LogFormat.HeadBytes | p5/xv6-public/log.c:34-37 | byte by byte: the number of logged blocks in the first four bytes, least significant first, and each block number in the four bytes that are its place |
| LogFormat.RecoveredAgree | p5/xv6-public/log.c:68-82 | once a header is on the disk, recovery ends in the same disk whatever the home blocks it names hold by then |
| LogFormat.RecoveredFacts | p5/xv6-public/log.c:115-122 | recovery is idempotent, leaves the header empty and touches no block that the log does not name |
| LogProtocol.CrashAtomicity | p5/xv6-public/log.c:124-233 | as long as the log has not run over its end: at every point of every run, with any interleaving, log_write's tests apart from its locked part, and any number of crashes, recovery would leave the initial file system with exactly the writes of the operations made durable, in order, none of them in part, and an empty log; no open operation is durable |
| LogProtocol.Durability | p5/xv6-public/log.c:143-202 | as long as the log has not run over its end: what is durable stays so, only a crash loses an operation, and when no operation and no commit is under way every operation since is durable and at its home location |
| LogProtocol.ReadersSeeAllWrites | p5/xv6-public/log.c:204-233 | as long as the log has not run over its end, between commits a reader sees every write made so far, durable or not |
| LogProtocol.RecoveryUndisturbed | p5/xv6-public/log.c:115-122 | a recovery interrupted by any number of crashes ends in the disk in which it would have ended undisturbed |
| LogProtocol.CommitIsAlone | p5/xv6-public/log.c:125-174 | in every run, while a commit or recovery is under way nothing else begins, tests, logs or ends, begin_op sleeps, and end_op never meets its panic |
| LogProtocol.CommitGoesOn | p5/xv6-public/log.c:176-202 | while a commit or recovery is under way and the log has not run over its end, its next disk write can be made |
| LogProtocol.WritesStayInPlace | p5/xv6-public/log.c:176-233 | as long as the log has not run over its end: it names distinct home blocks, and each disk write is inside the log or to a block the log names |
| CrashConsistency.QuietSurvives | p5/xv6-public/log.c:115-233 | on a log large enough for its operations, whatever holds of the file system whenever no operation is in progress also holds after a crash at any instant and the recovery that follows |
| CrashConsistency.CrashLeavesHealthy | p5/xv6-public/log.c:115-233 | in particular, if the file system is healthy whenever no operation is in progress, recovery leaves a healthy one |
| FsHealth.GoodOnDisk | p5/xv6-public/fs.c:370-435 | what balloc, bmap, writei and itrunc keep is a healthy file system on the disk, read with the disk's own inodes |
| Transaction.Write | p5/xv6-public/file.c:140-145 | begin_op, a writei of at most three blocks' worth of bytes and end_op: after a crash at any instant recovery finds exactly the files of before if the log's header was not yet written and those of after if it was, on a healthy file system; the outcomes of writei are as in Writei, and a panic for want of blocks leaves the files of before on the disk |
| Transaction.Truncate | p5/xv6-public/fs.c:402-435 | the same for itrunc, while the bitmap's blocks and the inode's fit into the log |
| FileCrash.WriteFile | p5/xv6-public/file.c:118-156 | a crash at any instant of a filewrite of many transactions: recovery finds the file with src up to the end of one of its transactions at the offset, and every other file unchanged; once it has returned, with all that went in |
| Transaction.Reboot | p5/xv6-public/log.c:53-66 | from any disk that recovers to a healthy file system, recovery and the mount that follows give a file system that every operation accepts, with the files that the recovered disk has |
| LogReservation.ReservationHolds | p5/xv6-public/log.c:132-137 | if each operation adds at most k <= MAXOPBLOCKS blocks, logged blocks plus the unspent budgets of the open operations never exceed MAXOPBLOCKS + 2k, in every interleaving of tests and appends |
| LogReservation.NewBlocksFitExactly | p5/xv6-public/log.c:218-219 | with operations of at most k blocks, log_write's test never refuses an in-budget new block if and only if the log has more than MAXOPBLOCKS + 2k blocks |
| LogReservation.CheckExactly | p5/xv6-public/log.c:218-221 | in every state of every run a call of log_write passes the tests if and only if fewer than LOGSIZE blocks are logged and one more fits the log, whether or not its own block is logged already; "log_write outside of trans" is never met |
| LogReservation.RepeatsFitExactly | p5/xv6-public/log.c:218-229 | with operations of at most k blocks, a block that is already logged is never refused if and only if k is below MAXOPBLOCKS and the log has more than MAXOPBLOCKS + 2k + 1 blocks, or the log is one block long |
| LogSafety.FitsExactly | p5/xv6-public/log.c:213-233 | with operations of at most k blocks, the log never runs over its end, in every interleaving of unlocked tests and locked appends, if and only if it has more than MAXOPBLOCKS + 2k blocks or just one |
| LogSafety.AtomicExactly | p5/xv6-public/log.c:124-233 | crash atomicity holds of every in-budget run if and only if the log is that large |
| LogSafety.DurableExactly | p5/xv6-public/log.c:143-202 | whenever the log is quiet everything done is durable and in place, in every in-budget run, if and only if the log is that large |
| LogSafety.InPlaceExactly | p5/xv6-public/log.c:176-233 | every disk write of every in-budget run stays inside the log or goes to a block the log names if and only if the log is that large |
| LogSafety.Overrun | p5/xv6-public/log.c:213-233 | whenever it is not, an in-budget run in which two operations pass the tests while there is room for one block, both append, and the log names as many blocks as it has |
| LogSafety.MkfsOverrun | p5/xv6-public/mkfs.c:25 | on mkfs's log of LOGSIZE blocks: 28 are logged, two operations of ten blocks pass the tests together, and 30 are logged |
| LogReservation.SmallOperationsFit | p5/xv6-public/file.c:127-133 | operations that log at most k different blocks each, as every chunk of filewrite does for k = MAXOPBLOCKS, keep within the reservation, absorbed writes included |
| LogCode.LogSystem.BeginOp | p5/xv6-public/log.c:125-141 | one pass of begin_op's loop admits the operation or sleeps exactly as the protocol's step does |
| LogCode.LogSystem.LogWrite | p5/xv6-public/log.c:213-233 | with nobody in between, records the block once, pins its new contents, leaves a log that fits, and panics in exactly the protocol's cases without changing anything |
| LogCode.LogSystem.LogCheck | p5/xv6-public/log.c:218-221 | the tests, made without the lock, have exactly the protocol's outcome and change nothing |
| LogCode.LogSystem.LogAppend | p5/xv6-public/log.c:223-232 | the locked part finds the block or the next place for it and makes exactly the protocol's step, even if others have filled the log since the tests |
| LogCode.LogSystem.WriteLog | p5/xv6-public/log.c:176-190 | makes one disk write per logged block, each the protocol's next, and arrives before the commit point |
| LogCode.LogSystem.WriteHead | p5/xv6-public/log.c:98-113 | puts the in-memory header on the disk in one disk write, the protocol's next |
| LogCode.LogSystem.InstallTrans | p5/xv6-public/log.c:68-82 | makes one disk write per logged block, each the protocol's next |
| LogCode.LogSystem.Commit | p5/xv6-public/log.c:192-202 | 2n+2 disk writes, each the protocol's next, and an empty log |
| LogCode.LogSystem.RecoverFromLog | p5/xv6-public/log.c:115-122 | ends in the recovered disk, and a recovery started over from any instant of it would end there too |
| LogCode.LogSystem.EndOp | p5/xv6-public/log.c:145-174 | the last operation out commits; a crash at any instant leaves the old contents until the header is written and the new contents after, never a mix; "log.committing" is not reached |
| Bio.BufCache.constructor | p5/xv6-public/bio.c:38-56 | binit links all NBUF buffers into one ring and shows the disk as it is |
| Bio.BufCache.Bget | p5/xv6-public/bio.c:58-93 | returns the one buffer for the block with one more reference, or recycles the least recently released buffer that is neither referenced nor dirty; panics exactly when neither exists; no reader notices |
| Bio.BufCache.Bread | p5/xv6-public/bio.c:95-106 | the caller holds a buffer with what was last stored for the block, cached or not, and one more reference, or sleeps with that reference exactly when another process holds the buffer; panics exactly when the block is not cached and every buffer is referenced or dirty |
| Bio.BufCache.Awake | p5/xv6-public/bio.c:68-70 | bread once nobody holds the buffer: it is locked and shows what was last stored for the block |
| Bio.BufCache.Iderw | p5/xv6-public/memide.c:35-60 | a dirty buffer goes to the disk and becomes clean, an invalid one is filled from the disk |
| Bio.BufCache.Bwrite | p5/xv6-public/bio.c:108-116 | the disk holds the buffer afterwards and it is clean; readers see no difference; panics exactly when the caller does not hold it |
| Bio.BufCache.Brelse | p5/xv6-public/bio.c:118-141 | the buffer is unlocked with one reference less and moves to the front of the ring when that was the last; the cache stays in order if and only if a changed buffer was written or marked dirty; panics exactly when the caller does not hold it |
| Bio.BufCache.Store | p5/xv6-public/log.c:204-212 | what the holder of a valid buffer stores in it is what readers of that block see from then on, and of no other block |
| Bio.BufCache.SetDirty | p5/xv6-public/log.c:231 | pinning a held buffer with B_DIRTY changes nothing that a reader sees |
| BufRing.Unlinked | p5/xv6-public/bio.c:132-133 | taking a buffer out of the ring links its neighbours and keeps the order of the others |
| BufRing.LinkedFirst | p5/xv6-public/bio.c:134-137 | a buffer put behind the head comes first and the order of the others stays |
| FsLayout.MarkOne | p5/xv6-public/fs.c:65-68 | marking or freeing a block in the bitmap changes no other block's mark |
| FsLayout.PutInodeOne | p5/xv6-public/fs.c:226-233 | writing an inode back stores it and leaves the other inodes of its block alone |
| FsLayout.WrittenReads | p5/xv6-public/fs.c:298-306 | ilock reads back an inode if and only if iupdate has written that inode |
| FileSystem.FileSystem.Balloc | p5/xv6-public/fs.c:55-78 | the first free block, marked, zeroed and logged; on the disk just the bit of weight b % 8 in byte b % 4096 / 8 of block bmapstart + b / 4096 is set, and the block is zeros; a panic exactly when none is free |
| FileSystem.FileSystem.Bfree | p5/xv6-public/fs.c:80-95 | clears just that bit; the panic "freeing free block" exactly when it is clear already |
| FileSystem.FileSystem.Bmap | p5/xv6-public/fs.c:370-400 | the block of the file that holds block bn, allocated with its indirect block if it is the next one; owned blocks keep their contents and nothing else changes hands; at most one bitmap block logged per block allocated; panics exactly past MAXFILE or when what the file has and what is free do not reach that far |
| FileSystem.FileSystem.Itrunc | p5/xv6-public/fs.c:402-435 | the file is empty, its blocks and no others are free, every other file is unchanged, and "freeing free block" is not reached |
| FileSystem.FileSystem.Iupdate | p5/xv6-public/fs.c:216-236 | of the whole disk only the 64 bytes from i % 8 * 64 on in block inodestart + i / 8 change: type, major, minor and nlink in two bytes each, size and the thirteen addresses in four, least significant first |
| FileSystem.FileSystem.Mount | p5/xv6-public/fs.c:298-306 | every inode is read from exactly those bytes of the disk, and a healthy disk gives a file system that every operation accepts |
| DiskBytes.FilePlace | p5/xv6-public/fs.h:24-36 | byte o of a file is byte o % 512 of the block that the inode's address o / 512 names, or from 12 * 512 on of the block that the number at 4 * (o / 512 - 12) in the indirect block names, and that is a data block of the disk |
| FileSystem.FileSystem.Readi | p5/xv6-public/fs.c:449-476 | exactly the slice of the file clipped to its size, across direct and indirect blocks; -1 exactly when the range starts past the end or wraps; a device answers for itself |
| FileSystem.FileSystem.Writei | p5/xv6-public/fs.c:478-511 | exactly the bytes at off are overwritten or appended, all other bytes of all files stay, ownership and no-holes are kept; -1 exactly when the range starts past the end or does not fit; panics exactly when the blocks the file has and those that are free are too few; three blocks' worth of bytes log at most MAXOPBLOCKS blocks wherever they start |
| FileSystem.Budget | p5/xv6-public/file.c:127-133 | data, bitmap, indirect and inode blocks of a write of at most three blocks' worth of bytes number at most MAXOPBLOCKS, for every alignment and file size |
| FsImage.GrowOne | p5/xv6-public/fs.c:377-395 | the freshly allocated block becomes the next pointer of its file and of no other; every block that was owned keeps its owner and contents |
| FsHealth.HealthyExactly | p5/xv6-public/fs.c:370-435 | what the operations keep is, both ways, that every file maps exactly the blocks below its size, no block is reachable twice, and the bitmap marks exactly the metadata and the reachable blocks |
| FsImage.BlocksAddUp | p5/xv6-public/fs.c:370-435 | the blocks the bitmap leaves free, the blocks of files and the metadata add up to all the blocks of the disk |
| FsFormat.FormattedGood | p5/xv6-public/mkfs.c:237-251 | a zeroed disk whose bitmap marks exactly the metadata has everything that the operations keep |
| Headers.DiskFormat | p5/xv6-public/fs.h:5-48 | the model's numbers are those of the header, and MAXFILE and filewrite's chunk the numbers that follow from them |
| FileSystem.FileSystem.Format | p5/xv6-public/mkfs.c:93-133 | such a disk, mounted, is one that every operation accepts |
| File.FileRead | p5/xv6-public/file.c:96-115 | the bytes from the offset on, as many as asked for or up to the end of the file, and the offset moved past them |
| File.FileWrite | p5/xv6-public/file.c:118-156 | all n bytes, or past the largest file those of the whole chunks that fit, go in at the offset, in transactions of at most MAXOPBLOCKS blocks; n is returned exactly when all fit; panics exactly when the disk has too few blocks for what would go in; a device takes whole chunks up to the first it does not, with a panic exactly when it takes that one in part |
| File.WriteThenRead | p5/xv6-public/fs.c:449-511 | writei and then readi, on the same or another file: what is read is the file's old bytes with what was written laid over them, clipped to the new size; a refused write changes nothing that is read |
| FreeRing.SearchStops | p5/xv6-public/umalloc.c:30-32 | the test of free's search holds at exactly one place of the ring, wherever the ring is entered |
| HeapModel.FreeKeeps | p5/xv6-public/umalloc.c:33-42 | free's assignments keep the ring ordered, coalesced and linked, every unit in exactly one block, and every unit of other live blocks unchanged |
| HeapModel.TakeKeeps | p5/xv6-public/umalloc.c:75-84 | so do malloc's, if the header of the block they cut off is on a page that is there, and that block was free |
| Umalloc.Heap.Free | p5/xv6-public/umalloc.c:24-44 | the block's units and no others become free, merged with the free neighbours they touch, where the end of a block is computed in 32 bits; the search ends |
| Umalloc.Heap.Sbrk | p5/xv6-public/sysproc.c:56-67 | sbrk over growproc (proc.c:167-183): -1 exactly when the break would reach KERNBASE, pages run out, or nothing would be left; else the old break, with the break moved, but for one below 0, which wraps and stays; exactly the pages below the break are there, new ones zeroed and the others as they were |
| Umalloc.Heap.Morecore | p5/xv6-public/umalloc.c:46-61 | asks for at least 4096 units, as many bytes as their product with 8 is in a 32-bit int, and frees what sbrk answers, so that a large enough free block exists, merged or not; 0 and no change exactly if refused; from 2^28 units on sbrk adds nothing, and the process is killed exactly when the page behind the old break is not there |
| Umalloc.Heap.Malloc | p5/xv6-public/umalloc.c:63-90 | for every request: the block returned is live, apart from all others, on pages of the process in units obtained from sbrk, and large enough if and only if the request is below 2^31 - 15 bytes; 0 exactly when no free block is large enough and sbrk refuses; the other requests either round to too few units or are for 2^28 units or more, and it is stated exactly when those kill the process, what they return, and when the heap is sound afterwards; ends after at most one answer of sbrk |
| Umalloc.UnitsFacts | p5/xv6-public/umalloc.c:68 | for which requests the rounding overflows, and for which there are 2^28 units or more, as bounds on the request |
| Umalloc.TooSmall | p5/xv6-public/umalloc.c:68 | a concrete run: 2^32 - 1 bytes get a block of one unit, its header |
| Umalloc.NoMemory | p5/xv6-public/umalloc.c:54 | a concrete run: after 40000 bytes, 2^31 bytes get a block behind the break that no memory stands for |
| Umalloc.Sunk | p5/xv6-public/umalloc.c:54 | a concrete run: after 40000 bytes, 2^32 - 16 bytes lower the break into the first block |
| Umalloc.Conserved | p5/xv6-public/umalloc.c:24-90 | free units and live units add up to the units obtained from sbrk |
| VirtualMemory.Memory.constructor | p5/xv6-public/kalloc.c:46-53 | freerange puts every page of the range on the free list, once |
| VirtualMemory.Memory.Kalloc | p5/xv6-public/kalloc.c:82-95 | a page that was free and is now held by the caller alone; 0 exactly when none is free |
| VirtualMemory.Memory.Kfree | p5/xv6-public/kalloc.c:59-77 | the page is free again and no tree of page tables changes |
| VirtualMemory.Memory.WalkPgdir | p5/xv6-public/vm.c:59-79 | the table for an address, made from a zeroed page if asked for; no mapping of any tree changes; 0 exactly when it is missing and not to be made or no page is free |
| Mmu.PteDecides | p5/xv6-public/vm.c:72-77 | in every tree the processor's walk, which needs the leave of the directory entry and of the table entry, comes to what the table entry says, since every directory entry is present, writable and for user code |
| VirtualMemory.Memory.MapPages | p5/xv6-public/vm.c:84-104 | exactly the entries asked for map consecutive pages with the permission given; -1 exactly when pages run out for a missing table before a mapped page is met, the panic "remap" exactly when a mapped page is met first |
| VirtualMemory.Memory.SetupKvm | p5/xv6-public/vm.c:127-160 | a new tree from exactly 65 pages, in which the processor finds the kernel map and nothing else: what is at 0 to 0xE000000 from 0x80000000 on, not writable just for the kernel's text, and the devices from 0xFE000000 on at their own addresses, none of it for user code; or 0, exactly when fewer are free, with every page given back |
| VirtualMemory.Memory.AllocUvm | p5/xv6-public/vm.c:246-276 | zeroed pages that user code may read and write exactly between the sizes, rounded up to pages of 4096 bytes, exactly when none of them is mapped and the pages suffice; 0 exactly when pages run out before a mapped page is met, with everything between the sizes given back and the mappings as they were; the panic "remap" exactly when a mapped page is met first |
| VirtualMemory.Memory.DeallocUvm | p5/xv6-public/vm.c:278-306 | exactly the user pages between the sizes are unmapped and freed, though missing tables are skipped over; the processor finds none of them any more |
| VirtualMemory.Memory.CopyUvm | p5/xv6-public/vm.c:352-384 | the same contents and rights on other pages below sz, nothing from there to 0x80000000, and the kernel map above, as the processor finds them; no existing tree changed, from exactly the pages that a kernel tree, the user tables and the copies need; or 0, exactly when fewer are free than it takes to reach the first unmapped page, with every page given back; or a panic, exactly when that page is reached |
| VirtualMemory.Memory.FreeVm | p5/xv6-public/vm.c:325-337 | the directory, tables and user pages of one tree, and no others, return to the free list |
| PageTable.PagesAddUp | p5/xv6-public/kalloc.c:46-95 | whenever every page is in exactly one place, free pages and pages in use add up to all the pages of the range |
| Headers.Paging | p5/xv6-public/mmu.h:83-96 | the model's page size, table size and flags are those of the header |
| SharedSpaces.RoomForOne | p5/xv6-public/vm.c:26-35 | a process whose directory has no count always finds a free entry for one |
| SharedSpaces.Spaces.Locate | p5/xv6-public/vm.c:16-24 | the entry in use for a directory, none exactly when there is none |
| SharedSpaces.Spaces.Allocate | p5/xv6-public/vm.c:26-35 | the first free entry, with none free before it, is set up; none exactly when all are in use |
| SharedSpaces.Spaces.Fork | p5/xv6-public/proc.c:200-208 | the child is alone on a new directory and all counts still agree |
| SharedSpaces.Spaces.Clone | p5/xv6-public/proc.c:247-253 | the child is on the parent's directory, whose count exists and equals the number of processes on it |
| SharedSpaces.Spaces.Exec | p5/xv6-public/exec.c:96-104 | the process moves to a new directory, and the old one is freed exactly when nobody else is on it |
| SharedSpaces.Spaces.Wait | p5/xv6-public/proc.c:361-372 | a dead process leaves its directory, which is freed exactly when nobody else is on it |
| SharedSpaces.Spaces.LeaveSpace | p5/xv6-public/vm.c:313-323 | the count goes down by one and its entry is freed with the last user |
| SpinLock.Matched | p5/xv6-public/spinlock.c:100-125 | nested pushcli and popcli: interrupts are off while one is open and as before once none is; a panic exactly when a popcli has no pushcli |
| SpinLock.SpinLockSafe | p5/xv6-public/spinlock.c:20-97 | at most one CPU has the lock, holding() is true exactly on the CPU that has acquired it, and interrupts are off there from before it spins until it has released |
| SpinLock.PairedCallsNeverPanic | p5/xv6-public/spinlock.c:24-68 | neither acquire nor release panics while each CPU pairs them |
| SpinLock.LockHandedOver | p5/xv6-public/spinlock.c:24-68 | a concrete run in which a CPU spins on a lock that another holds and has it afterwards |
| SleepLock.NoLostWakeup | p5/xv6-public/proc.c:506-561 | a process asleep on a sleep lock implies that the lock is held or that a releaser holding the inner spin lock has not finished waking it, in every interleaving and with kill waking sleepers at any time |
| SleepLock.MutualExclusion | p5/xv6-public/sleeplock.c:22-42 | at most one process is between acquiresleep and releasesleep, and the lock is marked locked while one is |
| SleepLock.HoldingSleepExact | p5/xv6-public/sleeplock.c:44-53 | holdingsleep is true for exactly the process that holds the lock |
| SleepLock.SomeoneSleeps | p5/xv6-public/sleeplock.c:22-32 | a concrete run after which one process holds the lock and another sleeps on it |
| SleepLock.AcquireReturnsHolding | p5/xv6-public/sleeplock.c:22-42 | in every run acquiresleep returns only to the process that the lock then names, however often that is woken or killed before, and only releasesleep leads out of the critical section |
| SleepLock.SleeperGetsLock | p5/xv6-public/sleeplock.c:22-42 | a concrete run in which a process that slept on the lock is woken by the release and gets it |
| ProcTable.RunningMeansCurrent | p5/xv6-public/proc.c:396-483 | while ptable.lock is free a process is RUNNING if and only if it is current on a CPU, and never on two |
| ProcTable.NoZombieForgotten | p5/xv6-public/proc.c:301-386 | no process sleeps in wait while it has a zombie child |
| ProcTable.ParentsLive | p5/xv6-public/proc.c:188-342 | a process's parent is neither unused nor a zombie, and every process but init has one |
| ProcTable.StackOutlivesUse | p5/xv6-public/proc.c:361-372 | a kernel stack on which some CPU runs is allocated and is not freed by any step |
| ProcTable.SchedNeverPanics | p5/xv6-public/proc.c:456-473 | the process that a CPU has is inside sched if and only if it is not RUNNING, and then that CPU holds ptable.lock and no other spin lock (ncli is 1) and interrupts are off; the switch to the scheduler can be made, and nothing else can happen on that CPU or to the table before it |
| ProcTable.LocksCounted | p5/xv6-public/spinlock.c:100-125 | a CPU's ncli is exactly the number of spin locks that it holds, and its interrupts are off while that is not 0 |
| ProcTable.WaitMissesNothing | p5/xv6-public/proc.c:353-384 | when wait has looked at the whole table it has noted every child, and none of them is a zombie |
| ProcCalls.WaitOutcome | p5/xv6-public/proc.c:376-384 | in every run: having seen the whole table, wait returns with ptable.lock free if and only if the process has no child at all or is killed; otherwise it is asleep on itself and its CPU still holds the lock |
| ProcCalls.ReapOutcome | p5/xv6-public/proc.c:354-374 | the slot reaped was the first with a zombie child of the process; it becomes unused, without stack, parent or killed mark; nobody else changes and the lock is free |
| ProcCalls.KillOutcome | p5/xv6-public/proc.c:581-598 | the process is killed, and RUNNABLE if it was asleep on whatever channel; nothing else about it, no other process, no CPU and no lock changes |
| ProcCalls.WakeupOutcome | p5/xv6-public/proc.c:545-561 | exactly the sleepers on the channel become RUNNABLE, and nothing else changes |
| ProcCalls.SleeperAsked | p5/xv6-public/proc.c:509-543 | whoever is asleep in sleep called it with that very channel, and neither a wakeup of it nor a kill has come since |
| ProcCalls.ChannelsTidy | p5/xv6-public/proc.c:536-537 | whoever is not asleep, or on the way back from sleep, has no channel |
| ProcCalls.SchedRestores | p5/xv6-public/proc.c:456-473 | when a process that has called sched is picked, on whatever CPU, that CPU's intena becomes what it was on the CPU the process left last |
| ProcCalls.StacksGivenBack | p5/xv6-public/proc.c:200-205 | a slot that is unused has no kernel stack: neither wait nor a fork that fails loses one |
| ProcCalls.NeverStuck | p5/xv6-public/proc.c:396-544 | in every run a CPU that does not have to wait for another to free ptable.lock can take a step, wherever its scheduler, its process or the process it has left stands |
| ProcCalls.AnyTime | p5/xv6-public/proc.c:556-598 | whenever ptable.lock is free any process can be killed and any channel woken |
| ProcInterrupts.InterruptsOn | p5/xv6-public/proc.c:396-484 | in every run, a CPU that runs a process holding no spin lock has interrupts on, whatever the process and the CPU have been through in pushcli, popcli, sched and the scheduler |
| ProcLife.ChildIsReaped | p5/xv6-public/proc.c:188-386 | a concrete run in which a child is forked, runs, exits and is reaped by its parent's wait |
| ProcLife.ExitWakesParent | p5/xv6-public/proc.c:309-384 | a concrete run in which a parent goes to sleep in wait and its child's exit wakes it |
| Pipe.PipeBuffer.Write | p5/xv6-public/pipe.c:78-98 | the bytes go behind those in the ring, with both counters wrapping at 32 bits; it fails or sleeps only when the ring is full; it leaves readers asleep with bytes to read exactly when it starts with readers asleep, is killed and has more than fits |
| Pipe.PipeBuffer.Read | p5/xv6-public/pipe.c:100-121 | the oldest bytes in the ring, as many as there are or as asked for; sleeps or fails exactly when the ring is empty and a write end is open; wakes every writer |
| Pipe.PipeBuffer.Close | p5/xv6-public/pipe.c:59-75 | wakes the other side and frees the pipe exactly when both ends are closed |
| Pipe.PipeBuffer.KillReader | p5/xv6-public/proc.c:581-598 | a sleeping reader that is killed is asleep no more, and no reader is stranded by that |
| Pipe.PipeBuffer.KillWriter | p5/xv6-public/proc.c:581-598 | nor is a sleeping writer that is killed |
| Pipe.KilledWriterStrandsReader | p5/xv6-public/pipe.c:84-92 | a concrete run after which a reader is asleep although the ring is full |
| ShellGrammar.RoundTrip | p5/xv6-public/sh.c:327-446 | every command tree with at most nine words to a command, printed with parentheses only around what binds less tightly, parses back to itself |
| ShellGrammar.AcceptedLines | p5/xv6-public/sh.c:327-446 | every line accepted means such a tree, so printing and parsing again changes nothing |
| ShellMinimal.FewestParentheses | p5/xv6-public/sh.c:327-446 | of all the lines that are read as some tree, the printed one has the fewest opening parentheses |
| ShellWords.WordsInPlace | p5/xv6-public/sh.c:265-446 | of every accepted line, in terms of its characters: the arguments and file names of the tree are exactly the words of the line, each once; the arguments of each command, at most nine, are in the order of the text, redirections around one another too, and both sides of a pipe or semicolon; a word is a file name, with its mode and descriptor, exactly when < or > comes before it |
| ShellParser.ReadsBack | p5/xv6-public/sh.c:448-493 | once the NULs are stored each argument and file name reads back as exactly its word |
| ShellParser.Shell.GetToken | p5/xv6-public/sh.c:265-308 | the cursor moves over exactly the token that the grammar has at it |
| ShellParser.Shell.ParseLine | p5/xv6-public/sh.c:344-359 | accepts, and leaves the cursor, exactly where the grammar does, and terminates on remaining input and grammar level |
| ShellParser.Shell.ParseExec | p5/xv6-public/sh.c:415-446 | the same for a command, its redirections and its arguments |
| ShellParser.Shell.ParseBlock | p5/xv6-public/sh.c:399-413 | the same for a parenthesised line |
| ShellParser.Shell.NulTerminate | p5/xv6-public/sh.c:448-493 | a NUL after each word of the tree and no other change to the buffer |
| ShellParser.Shell.ParseCmd | p5/xv6-public/sh.c:327-342 | accepts exactly the lines of the grammar, whose every word then reads back exactly, and whose words are in their places as in WordsInPlace; a refused line leaves the buffer alone |
| Headers.UserSide | p5/xv6-public/sh.c:14 | MAXARGS, the open modes and PIPESIZE are the numbers of the C files |
| Headers.Parameters | p5/xv6-public/param.h:1-13 | MAXOPBLOCKS, LOGSIZE, NBUF, NPROC and ROOTDEV are the header's |
| Grep.Match | p5/xv6-public/grep.c:73-83 | true exactly when some substring of the text has the meaning of the pattern, tied to the start by a leading ^ |
| Grep.MatchHere | p5/xv6-public/grep.c:85-97 | true exactly when text from here on can be divided among the elements of the pattern |
| Grep.MatchStar | p5/xv6-public/grep.c:99-105 | true exactly when a run of the starred character and then the rest of the pattern match from here |

## Left out

- LogProtocol: the log is modelled over buffers that are a map from block numbers to blocks, not over the ring of buffers of `Bio`; the two meet in the contract of bread, bwrite and B_DIRTY. A caller's change to a buffer and the append to the log are one step, as they are to anyone who takes the buffer's lock. The list of logged blocks has no fixed length; that it stays within the array of LOGSIZE numbers is proved for in-budget runs.
- CrashConsistency.CrashLeavesHealthy: that the file system is healthy whenever no operation is in progress is shown of operations one after the other (`Transaction`, `FileCrash`), not of several processes' operations inside one group commit.
- Transaction.Truncate: a bitmap with more blocks than the log has room for; log_write then panics.
- Transaction.Write: one process runs at a time, and the log_write calls of an operation come after it, each block with its final contents.
- FileSystem.FileSystem.Writei: no other process writes the same file between the chunks of one filewrite; inode locks, the inode cache and its reference counts are not modelled.
- File.FileWrite: a pipe behind a file descriptor; what a device answers is a parameter.
- FileSystem.FileSystem.Itrunc: the number of bitmap blocks it logs is not bounded by MAXOPBLOCKS; with the FSSIZE of mkfs there is one.
- FileSystem.FileSystem.Format: the superblock is a parameter; the root directory and the files that mkfs then adds are not modelled.
- Bio.BufCache.Bread: the idle disk queue of ide.c is replaced by a disk that answers at once; Bget requires a real device number, because buffers never used share (device 0, block 0).
- Umalloc.Heap.Malloc: a process of one thread that calls sbrk only through malloc, so that the break stays a multiple of 8 and above the heap; base lies in a page before the break's.
- Umalloc.Heap.Sbrk: whether the kernel has the pages is a parameter; the guard page below the stack counts as one that the process has.
- VirtualMemory.Memory.AllocUvm: addresses are page numbers, so alignment checks of kfree, the junk in free pages that links the free list, and loading of programs are not modelled.
- VirtualMemory.Memory.MapPages: a user range is of one page, as all callers of it pass.
- SharedSpaces.Spaces.Clone: each call is one step; the counts are updated without a lock, so two processes of one address space that clone at once are outside this result.
- SleepLock.NoLostWakeup: memory is sequentially consistent, and fairness is not stated; a waiter may be overtaken for ever.
- ProcTable: the choice of the lowest nice value, sleepticks, file tables and working directories; critical sections that only wake or kill processes are one step, since ptable.lock is held throughout.
- Pipe.PipeBuffer.Write: which of several sleepers runs first; copying from user memory.
- ShellParser.Shell.ParseCmd: runcmd, cd and the allocation of command nodes; a parse error is a result instead of an exit.
- Grep.Match: the line buffering around the matcher.
- Directories, path names and link counts: create and unlink do not keep a simple invariant between them, and path walking adds easier members.
- p4's memory mapped regions (wmap.c).
- Boot, interrupts, devices, system call entry, user programs other than the shell and grep.
