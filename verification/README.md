# xv6-riscv, modelled and verified in Dafny

This project models the parts of the xv6-riscv kernel and user land that carry the hardest
correctness arguments, and proves those arguments: that the file system survives crashes, that no
page frame is lost, that no wakeup is missed, that the shell reads what it prints.

`dafny verify dfyconfig.toml` checks everything.

## How it is built

Code that updates memory is a class whose methods follow the C routine statement by statement, with
its loops, its error returns and its panics.  Each class has a snapshot, an ordinary value, and what
the methods do is stated and proved about snapshots.  Panics are results or are proved impossible.

Code that is about interleavings is a transition system (the log, processes), or a class whose
methods are the sections between two points where another process, or a device, can take over (the
inode table, link counts, pipes, the disk driver).  The invariants hold for every order of calls.

| files | model |
|---|---|
| Blocks, LogProtocol, LogReservation | the write-ahead log with group commit, crashes and recovery, as a transition system that refines an atomic store; the reservations of begin_op |
| BufferCache, KernelLog | bio.c and log.c in place: the linked list of buffers, commits and recovery write by write |
| FsLayout, BlockCounts, FileSystem | bitmap, block maps, readi, writei, itrunc and filewrite over that store |
| Transactions | the pieces of a file write as operations of the log: space and crashes |
| InodeTable, Links | the table of in-memory inodes; directory entries and link counts |
| PageTable, MemoryChanges, FrameCounts, TreeTeardown, UserMemory, VirtualMemory | three-level page tables, the page allocator, and the operations of vm.c |
| Processes, ProcessLaws | sleep, wakeup, sleep locks, fork, exit, wait and kill; deadlock |
| VirtioDisk, DiskLaws, Pipe | the disk driver with its device, what it does to the data, and pipes |
| Umalloc, ShellGrammar, ShellParser, ShellSyntax, Grep | the user-level allocator, the shell's parser, and grep's matcher |

Premises, which the code depends on as well:

- A block write to disk is atomic, and a crash may fall between any two writes.
- `log.size` is a parameter.  mkfs makes the log LOGSIZE blocks, one data slot fewer than begin_op
  reserves; `ReservationSufficesIff` and `PacedSufficesIff` say what that costs.  A piece of a file
  write may call log_write more often than it has reserved blocks, but its last call is its only one
  for the inode, so it never calls with more than nine different blocks logged.  File writes therefore
  cannot make log_write panic in a log of more than LOGSIZE blocks, nor in the log that mkfs makes if
  the bitmap has at most three blocks; mkfs gives it one (`FileWritesFitIff`).
- At boot all buffers have device 0 and block 0, so uniqueness of buffers is stated for the root
  device.
- Copies from and to user memory inside writei and readi either succeed or fail as a whole, block by
  block.
- Every block below the size of an inode is mapped.
- create and sys_link do not look at the link count of the directory.  They keep the counts right if and
  only if it is not zero (`CreateOkIff`, `LinkEntryOkIff`); `LostName` is a run that loses a name.
- Nobody looks up ".." in a directory that has been removed; `RemovedParent` shows that it may be no
  inode any more.
- KernelLog runs one routine at a time.  A commit starts when nobody holds the buffer of a block of the
  log, or of a block in it, for which bread would wait; other buffers may be held by processes that read
  outside any operation.  LogProtocol has the interleaving.
- A process that holds an inode locked calls iupdate after its last change and before iunlock.
- A program does not write over the header of a block that malloc gave it.

Where the code and its comments differ, the model follows the code: uvmdealloc says that the old size
may be larger than the process, but it panics if a page in between is not mapped; pipewrite returns
without a wakeup when the writer is killed.

## Model

| member | source | states |
|---|---|---|
| `Blocks.WordOfSetWord` | kernel/log.c:103-114 | storing a little-endian 32-bit word in a block changes that word and no other |
| `Blocks.HeaderRoundTrip` | kernel/log.c:87-114 | a log header written over any old header block reads back as the same list of block numbers |
| `LogProtocol.StepSimulates` | kernel/log.c:68-235 | every step of the concurrent log, including crashes and recovery steps, keeps the invariant and is a step of a store that commits atomically |
| `LogProtocol.RunRefinesAtomicStore` | kernel/log.c:68-235 | every run, with any interleaving of operations and crashes anywhere, refines a run of the atomic store |
| `LogProtocol.WriteHeadCommits` | kernel/log.c:194-203 | the single write of the header block is the commit point: before it a crash leaves the old home blocks, after it the new ones |
| `LogProtocol.OnlyCommitChangesDurable` | kernel/log.c:68-203 | no step but the write of the header changes what a crash would leave |
| `LogProtocol.RebootKeepsDurable` | kernel/log.c:69-123 | crashes during recovery, any number of them, do not change what recovery restores |
| `LogProtocol.RecoveryRestoresCommitted` | kernel/log.c:117-123 | when recovery is over, the home blocks are the store last committed before the crash: all old or all new |
| `LogProtocol.ReadsLastLogged` | kernel/bio.c:59-103 | a process that locks a buffer finds the last value logged for its block, so no logged block is evicted or read stale |
| `LogProtocol.CommitsAlone` | kernel/log.c:127-175 | while a commit is under way no operation is active, so the writes of an operation land in one transaction |
| `LogProtocol.QuietIsDurable` | kernel/log.c:147-175 | in every run, when no operation is in progress and no commit is running, the log is empty and everything that was logged would survive a crash |
| `LogProtocol.CommitEnds` | kernel/log.c:69-203 | from every state of a commit or a recovery in which the buffers it needs are free, it has a way to its end, with the store on disk |
| `LogProtocol.ChangesCanLast` | kernel/log.c:127-235 | after every run that leaves the machine at rest, an operation can change any block to any value, and then comes a point at which that change and no other would survive a crash |
| `LogProtocol.CrashAnywhere` | kernel/log.c:117-123 | every run can be cut short by a crash, in the middle of a commit or of a recovery as well |
| `LogProtocol.AnyoneMayRead` | kernel/bio.c:59-137 | outside of recovery any process can lock a buffer that nobody holds, within an operation or not, and release it |
| `LogProtocol.MayRecycle` | kernel/bio.c:75-85 | a buffer can be recycled if and only if it is neither locked nor pinned |
| `LogReservation.ReservationHolds` | kernel/log.c:127-175 | in every run in which no operation logs more than MAXOPBLOCKS different blocks, the header plus the blocks that the active operations may still add never exceed LOGSIZE |
| `LogReservation.LargeLogNeverOverflows` | kernel/log.c:215-235 | with log.size above LOGSIZE the size panic of log_write never fires in a run with at most MAXOPBLOCKS calls per operation |
| `LogReservation.SmallLogOverflows` | kernel/log.c:215-235 | for every smaller log there is a run in which it does fire |
| `LogReservation.ReservationSufficesIff` | kernel/log.c:127-235 | the reservation of begin_op suffices if and only if log.size exceeds LOGSIZE; mkfs makes it LOGSIZE |
| `LogReservation.AbsorptionCanPanic` | kernel/log.c:215-235 | the limit comes before absorption: if operations may log MAXOPBLOCKS different blocks, one that logs a block again, which is in the log already, can cause the panic |
| `LogReservation.PacedSufficesIff` | kernel/log.c:127-235 | operations with any number of calls, none of which is made with more than m different blocks logged, cannot cause the panic if and only if m is at most MAXOPBLOCKS - 1, or MAXOPBLOCKS - 2 in a log of LOGSIZE blocks |
| `LogReservation.DistinctSufficesIff` | kernel/log.c:127-235 | operations that log at most m different blocks each cannot cause the panic, in a log of more than LOGSIZE blocks, if and only if m is below MAXOPBLOCKS |
| `BufferCache.ToFrontLinks` | kernel/bio.c:117-137 | the pointer assignments of brelse turn the circular list into the same list with the buffer moved to its front |
| `BufferCache.InsertLinks` | kernel/bio.c:37-53 | the pointer assignments of binit link a new buffer in behind the head |
| `BufferCache.RecycleOk` | kernel/bio.c:75-85 | recycling a buffer without references loses no data and changes no other block, whatever it held |
| `BufferCache.UsedRecent` | kernel/bio.c:124-133 | moving the buffer that was used last to the front keeps the list in the order of last use |
| `BufferCache.Bcache.constructor` | kernel/bio.c:37-53 | binit leaves one circular list of all buffers and no cached block |
| `BufferCache.Bcache.Scan` | kernel/bio.c:65-73 | the forward scan finds a buffer for (dev, blockno) if and only if there is one |
| `BufferCache.Bcache.Oldest` | kernel/bio.c:77-87 | the backward scan finds a buffer without references that was used no later than any other such buffer, if and only if there is one |
| `BufferCache.Bcache.Bget` | kernel/bio.c:59-89 | one more reference and the lock on the only buffer of the block; if the block was not cached, the buffer without references whose last use is the oldest; panic exactly if there is no room; no other block changes |
| `BufferCache.Bcache.Bread` | kernel/bio.c:93-103 | the locked buffer holds what readers of the block are to see |
| `BufferCache.Bcache.Bwrite` | kernel/bio.c:107-112 | exactly that block goes to disk, and what readers see stays the same |
| `BufferCache.Bcache.Brelse` | kernel/bio.c:117-137 | one reference less; a buffer without references goes to the front of the list, as the one used last; no data changes |
| `BufferCache.Bcache.MoveToFront` | kernel/bio.c:124-133 | the list is the old one with this buffer moved to the front |
| `BufferCache.Bcache.Bpin` | kernel/bio.c:140-144 | one reference more, everything else as before |
| `BufferCache.Bcache.Bunpin` | kernel/bio.c:147-151 | one reference less, everything else as before |
| `KernelLog.Log.WriteLog` | kernel/log.c:179-191 | the cached blocks of the transaction are copied to the log area one by one, and at every disk write a crash leaves the old file system |
| `KernelLog.Log.WriteHead` | kernel/log.c:103-114 | the header block on disk becomes the in-memory header in one write |
| `KernelLog.Log.InstallTrans` | kernel/log.c:69-83 | every logged block gets its home contents; at every disk write a crash leaves the new file system; the pins go except during recovery |
| `KernelLog.Log.ReadHead` | kernel/log.c:87-97 | the in-memory header becomes the one on disk |
| `KernelLog.Log.Commit` | kernel/log.c:194-203 | of the disk writes of a commit there is one before which a crash recovers the old file system and from which on the new one; afterwards the disk holds the new one and the log is empty |
| `KernelLog.Log.RecoverFromLog` | kernel/log.c:117-123 | recovery brings the disk to the committed file system; a crash at any of its writes leaves the same file system to recover |
| `KernelLog.Log.LogWrite` | kernel/log.c:215-235 | the block is in the header exactly once and pinned from its first log_write on; a panic exactly when the log is too big or no operation is active |
| `KernelLog.Log.RecordBlock` | kernel/log.c:224-228 | the search loop absorbs a block that is in the header and appends one that is not |
| `KernelLog.Log.BeginOp` | kernel/log.c:127-142 | an operation is admitted exactly when no commit is running and its MAXOPBLOCKS blocks fit |
| `KernelLog.Log.Leave` | kernel/log.c:147-164 | the last operation to leave announces the commit, after which begin_op admits nobody; the log's invariant holds |
| `KernelLog.Log.EndOp` | kernel/log.c:147-175 | the last operation commits, with the crash guarantee of Commit, while other processes may hold buffers that the commit does not need; nothing is written if nothing was logged |
| `KernelLog.Log.Read` | kernel/bio.c:93-103 | a process reads the last value logged for a block |
| `KernelLog.Log.Release` | kernel/bio.c:117-137 | a released buffer is clean or pinned by the log |
| `FsLayout.BitSetIff` | kernel/fs.c:65-103 | a bitmap bit is set exactly when its block is metadata or is in exactly one address slot of one inode |
| `FsLayout.PlacesApart` | kernel/fs.h:41-51 | inode blocks, bitmap blocks and data blocks do not overlap, and no two inodes or bits share a place |
| `FsLayout.BitmapBlocksUsed` | kernel/fs.h:47-51 | the bitmap blocks are exactly those that hold the bit of a block |
| `BlockCounts.NeedsJoin` | kernel/fs.c:378-405 | what two overlapping runs of blocks of a file need is what their union needs: a block that is mapped, and the indirect block once it is there, need nothing |
| `BlockCounts.AttachFills` | kernel/fs.c:378-405 | a block put into a slot is one free block less and fills that slot only |
| `FsLayout.AttachKeepsInv` | kernel/fs.c:378-405 | giving a free block to an empty slot keeps the correspondence of bitmap and slots |
| `FsLayout.TruncateKeepsInv` | kernel/fs.c:410-437 | freeing all blocks of a file keeps it |
| `FsLayout.WriteMeaning` | kernel/fs.c:487-517 | a write changes the bytes of one file in the written range, grows its size to the maximum, and no byte of any other file |
| `FsLayout.SpliceSplice` | kernel/fs.c:487-517 | writing a range in two parts is writing it at once |
| `FsLayout.TruncatedContent` | kernel/fs.c:410-437 | a truncated file is empty and all other files keep their bytes |
| `FileSystem.Fs.Balloc` | kernel/fs.c:65-86 | the first free block is marked in use and zeroed, in two calls of log_write, or the bitmap is full and nothing changes |
| `FileSystem.Fs.Bfree` | kernel/fs.c:90-103 | the bit is cleared; freeing a free block is the panic |
| `FileSystem.Fs.Bmap` | kernel/fs.c:378-405 | the block of the file, allocated if it was missing, through the indirect block where needed; it fails if and only if there are fewer free blocks than are missing, and takes exactly those; no other slot changes and the bitmap invariant holds |
| `FileSystem.Fs.Iupdate` | kernel/fs.c:222-237 | the in-memory inode goes to disk, one block is logged |
| `FileSystem.Fs.Readi` | kernel/fs.c:456-477 | the clipped slice of the file, as far as it can be copied out; nothing is allocated or changed; both guards on the offset |
| `FileSystem.Fs.Writei` | kernel/fs.c:487-517 | exactly the bytes that could be copied in replace the range, and all of them if and only if a copy succeeds for every block; the size is the maximum, other files keep their bytes, every block and bitmap block that changes is logged, at most the budgeted blocks are, and the inode last; it runs out of blocks if and only if there are fewer than the range lacks, and takes no more; all error returns |
| `FileSystem.ReachIs` | kernel/fs.c:499-508 | c copies reach to the end of the c-th block that the range touches, or to its own end |
| `FileSystem.CarriedAll` | kernel/file.c:157-175 | filewrite carries everything over if and only if the file has room for it and all copies succeed |
| `FileSystem.CarriedPieces` | kernel/file.c:157-175 | if the file has no room for everything and all copies succeed, exactly the whole pieces that fit go in |
| `FileSystem.Fs.Itrunc` | kernel/fs.c:410-437 | every block of the file is freed once, no free block is freed, the file is empty, every bitmap block that changes is logged, and before the last call, for the inode, at most the blocks of the bitmap |
| `FileSystem.BudgetFits` | kernel/file.c:150-156 | a chunk of filewrite lets writei log at most MAXOPBLOCKS different blocks, for any offset, and as many if and only if it touches four blocks and the bitmap has four |
| `FileSystem.Fs.WriteTransaction` | kernel/file.c:162-167 | one piece is written at the offset in one transaction, which logs every block, bitmap block and inode that it changes, at most MAXOPBLOCKS different ones, and never calls log_write with its whole budget logged; how many bytes go in, and when the disk is full, is exact |
| `FileSystem.Fs.FileWrite` | kernel/file.c:135-181 | the offset advances by exactly the bytes that the room in the file and the copies allow, and all of them if and only if both suffice; these bytes go to the file; after every transaction, also if a later one panics, the disk is sound, the file is the old one with a prefix of the bytes spliced in, and all that changed is logged; it runs out of blocks only if there are fewer than the range lacks |
| `Transactions.FileWritesFitIff` | kernel/file.c:149-175 | operations whose calls of log_write are bounded like those of filewrite cannot make log_write panic, for log.size at least LOGSIZE, if and only if it is larger or the bitmap has at most three blocks |
| `Transactions.UnloggedShows` | kernel/log.c:206-235 | a block that a transaction does not log is the same in the disk images before and after it |
| `Transactions.RepresentsOne` | kernel/fs.h:14-51 | the blocks on disk determine the bitmap, the inodes and the data blocks |
| `Transactions.SyncStep` | kernel/log.c:127-203 | every step of the log during a file write keeps what would be recovered equal to the disk after some number of whole transactions |
| `Transactions.FileWriteSurvivesCrash` | kernel/file.c:149-175 | a crash after any step of a file write, and recovery however often it is cut short, leave a sound file system in which the file is the old one with the bytes of a number of whole transactions spliced in, and the other files are as they were; it is all that were ended if no operation was in progress and no commit running |
| `InodeTable.TableGuarantees` | kernel/fs.c:196-358 | ref is the number of outstanding references, an inode has at most one referenced entry, and an unlocked valid copy equals its disk inode |
| `InodeTable.LastReferenceUnlocked` | kernel/fs.c:333-345 | when ref is 1 nobody else can hold the lock, so the acquiresleep in iput never waits |
| `InodeTable.AllocOk` | kernel/fs.c:196-215 | ialloc may reuse an inode number at any time it finds it free, also while iput is still finishing, without upsetting the table |
| `InodeTable.Itable.constructor` | kernel/fs.c:180-188 | the table starts without references |
| `InodeTable.Itable.Iget` | kernel/fs.c:243-273 | the entry of the inode if it is referenced, else one without references, not valid; one reference more; panic exactly if neither exists |
| `InodeTable.Itable.Idup` | kernel/fs.c:278-284 | one reference more to the same entry |
| `InodeTable.Itable.Ilock` | kernel/fs.c:289-313 | the lock is held and the copy is the disk inode; a free disk inode is the panic |
| `InodeTable.Itable.Iupdate` | kernel/fs.c:222-237 | the disk inode becomes the copy, and no other disk inode changes |
| `InodeTable.Itable.Iunlock` | kernel/fs.c:317-323 | the lock is free and the copy still equals the disk inode |
| `InodeTable.Itable.MarkAllocated` | kernel/fs.c:196-215 | the first free disk inode becomes an allocated one with the given type, or there is none |
| `InodeTable.Itable.IputStart` | kernel/fs.c:333-346 | the last reference to an inode without links locks it for freeing, any other reference is dropped |
| `InodeTable.Itable.IputTruncate` | kernel/fs.c:348-350 | the emptied inode is on disk |
| `InodeTable.Itable.IputFree` | kernel/fs.c:349-350 | the disk inode is free |
| `InodeTable.Itable.IputUnlock` | kernel/fs.c:351-353 | the copy is invalid and the lock free, while the reference still counts |
| `InodeTable.Itable.IputEnd` | kernel/fs.c:355-358 | the reference is gone |
| `Links.QuietCounts` | kernel/sysfile.c:120-284 | with no system call in progress, nlink is the number of non-dot entries naming the inode, plus the non-dot subdirectory entries it holds, plus one for the root |
| `Links.FreeOk` | kernel/fs.c:333-358 | an inode without links is named by no entry and can be freed without upsetting any count |
| `Links.RemovedDirectoryLosesLink` | kernel/sysfile.c:242-284 | a file created in a directory that has been removed has a link count and no name once the directory goes |
| `Links.CreateOkIff` | kernel/sysfile.c:242-284 | create keeps the link counts and directories in order if and only if the link count of the directory is not zero |
| `Links.LinkEntryOkIff` | kernel/sysfile.c:144-151 | the same for the entry that sys_link makes |
| `Links.LostName` | kernel/sysfile.c:242-284 | a run from the empty file system, mkdir, rmdir, create, that ends with a file of link count one and no name |
| `Links.DotDotIsParent` | kernel/sysfile.c:270-276 | ".." of a directory in use is the one directory that holds it, and the root itself for the root |
| `Links.RemovedParent` | kernel/sysfile.c:186-239 | a run that ends with a removed directory, still open, whose ".." is no inode any more |
| `Links.FileTree.constructor` | mkfs/mkfs.c:130-172 | a root directory with its dots has the right counts |
| `Links.FileTree.Dirlookup` | kernel/fs.c:530-553 | the first used entry with the name, or none |
| `Links.FileTree.FindSlot` | kernel/fs.c:569-575 | the first free slot, or the end of the directory |
| `Links.FileTree.IsDirEmpty` | kernel/sysfile.c:170-182 | no entry behind the two dots |
| `Links.FileTree.Create` | kernel/sysfile.c:242-284 | a new inode with one link and, for a directory, its dots and one link more for the parent; if the name is taken nothing changes and a file or device is returned to who wants a file; the invariant breaks exactly if something is made in a removed directory |
| `Links.FileTree.LinkStart` | kernel/sysfile.c:128-142 | the link is counted before it is made; directories are refused |
| `Links.FileTree.LinkEnter` | kernel/sysfile.c:144-151 | the entry is made exactly if the name is free, and the counts are right again exactly unless the directory has been removed |
| `Links.FileTree.LinkUndo` | kernel/sysfile.c:158-163 | the rollback takes the announced link back |
| `Links.FileTree.UnlinkEntry` | kernel/sysfile.c:199-229 | the first entry of the name is erased exactly if it is no dot and names a file or an empty directory, and the parent loses the link of a subdirectory; the nlink panic cannot happen |
| `Links.FileTree.UnlinkEnd` | kernel/sysfile.c:231-233 | the count of the inode follows |
| `Links.FileTree.Free` | kernel/fs.c:333-358 | a freed inode was named by nobody |
| `PageTable.PteParts` | kernel/riscv.h:335-341 | frame and flags of an entry can be read back |
| `PageTable.IndexDigits` | kernel/riscv.h:343-345 | the indices of the three levels are the digits of the page number |
| `PageTable.WalkMeets` | kernel/vm.c:81-98 | a walk meets tables of its own tree, of the right level and for the right addresses |
| `PageTable.AddTablePte` | kernel/vm.c:88-93 | a new table page changes no translation in any tree |
| `PageTable.WithPtePte` | kernel/vm.c:138-184 | changing one entry changes the translation of that page and of no other page of any tree |
| `PageTable.MapOk` | kernel/vm.c:138-157 | mapping an unmapped page keeps every frame free, or a table of one tree, or the memory of one page, or held |
| `PageTable.UnmapOk` | kernel/vm.c:163-184 | unmapping a page keeps that |
| `FrameCounts.AddTableAdds` | kernel/vm.c:81-99 | a new table page supplies the one table that was missing, and no other |
| `FrameCounts.NeedsMore` | kernel/vm.c:81-159 | what the next page of a range needs is itself and the tables that no page before it has needed |
| `FrameCounts.NeededBound` | kernel/vm.c:81-159 | a range of pages needs at most one frame for each page and for each table that covers it, and at most three for each page |
| `VirtualMemory.Machine.Kalloc` | kernel/kalloc.c:69-82 | the head of the free list, or 0 exactly if it is empty; no translation changes |
| `VirtualMemory.Machine.Kfree` | kernel/kalloc.c:47-63 | a held frame goes to the head of the free list; no translation changes |
| `VirtualMemory.Machine.Walk` | kernel/vm.c:81-98 | the level-0 table for the page; with alloc the missing tables are added, and it fails if and only if there are fewer free frames than missing tables; no translation changes |
| `VirtualMemory.Machine.Mappages` | kernel/vm.c:138-157 | the pages get consecutive frames, until a page turns out to be mapped (panic) or the free frames are fewer than the missing tables; exactly those tables are taken |
| `VirtualMemory.Machine.Uvmunmap` | kernel/vm.c:163-184 | exactly these pages lose their translation and, if asked, exactly their frames become free; panic at the first page that is not mapped |
| `VirtualMemory.Machine.Uvmdealloc` | kernel/vm.c:248-259 | the pages above the new size are unmapped and their frames are free; a panic exactly if one of them is not mapped |
| `VirtualMemory.Machine.Uvmalloc` | kernel/vm.c:218-241 | zeroed pages in frames that were free, or no translation changed and no frame taken but for tables of this tree; it runs out of memory if and only if there are fewer free frames than the pages and their missing tables need; beyond MAXVA the panic of walk, unless memory runs out first |
| `VirtualMemory.Machine.Uvmcopy` | kernel/vm.c:298-325 | the new tree has the pages of the old one in frames that were free; or it is taken back, if and only if there are fewer free frames than the pages before the first unmapped one and their missing tables need; or a panic, if and only if there is an unmapped page and memory does not run out before it |
| `VirtualMemory.Machine.Freewalk` | kernel/vm.c:264-279 | exactly the table pages at and below the given one become free; the leaf panic cannot happen in a tree without mappings |
| `VirtualMemory.Machine.Uvmfree` | kernel/vm.c:284-289 | every frame of the tree is free again; no other frame and no translation of another tree changes |
| `VirtualMemory.Machine.Uvmcreate` | kernel/vm.c:189-197 | an empty tree in a frame that was free, or 0 |
| `VirtualMemory.Machine.Walkaddr` | kernel/vm.c:104-121 | the frame of a page that is mapped for the user, or 0; that frame belongs to this page alone |
| `VirtualMemory.Machine.Copyout` | kernel/vm.c:344-363 | the bytes are the user memory from the address on, up to the first page the user may not use; no other byte of any user changes |
| `VirtualMemory.Machine.Copyin` | kernel/vm.c:369-388 | the bytes of the user memory, if and only if the user may use all their pages |
| `UserMemory.CopyRoundTrip` | kernel/vm.c:344-388 | copyout and then copyin over any page-crossing range is the identity |
| `UserMemory.GrownIsZero` | kernel/vm.c:218-241 | all memory that uvmalloc adds can be read, written and executed by the user, and is zero |
| `UserMemory.CopyLooksSame` | kernel/vm.c:298-325 | the user of a copied tree has the same access and finds the same bytes as the user of the original |
| `Processes.StepKeeps` | kernel/proc.c:105-597 | every step of fork, exit, wait, kill, yield, sleep, wakeup, acquiresleep, releasesleep and the scheduler keeps the invariant of locks, states, parents and pending wakeups |
| `Processes.RunInv` | kernel/proc.c:105-597 | it holds in every state of every run |
| `Processes.SleepersHaveHolder` | kernel/sleeplock.c:22-41 | no lost wakeup: while the guard of a sleep lock is free, a process asleep on it implies that it is held |
| `Processes.SleepingParentsHaveNoZombie` | kernel/proc.c:324-428 | no lost wakeup: while wait_lock is free, a parent asleep in wait has no zombie child |
| `Processes.ParentsAlive` | kernel/proc.c:273-428 | no parent is a zombie or an unused slot, and every process that has run has a parent, but for init |
| `Processes.ReapedOnce` | kernel/proc.c:384-428 | two calls of wait never return the same process |
| `Processes.SchedNeverPanics` | kernel/proc.c:475-492 | a thread in sched holds its own lock and no other, and is not marked as running |
| `ProcessLaws.LifeCycle` | kernel/proc.c:105-600 | how the state of a process can change, and by whose doing: a zombie is freed only by its parent in wait, a sleeper is woken only on its channel or by kill |
| `ProcessLaws.ParentChanges` | kernel/proc.c:273-432 | a process gets its forker as parent, init when that exits, and none when it is freed, always under wait_lock |
| `ProcessLaws.WaitNeedsChild` | kernel/proc.c:384-432 | in every run wait returns -1 to a process that is not killed only if it has no child, or for a zombie whose status cannot be copied, and sleeps only if it has a child and no zombie |
| `ProcessLaws.KillMarks` | kernel/proc.c:579-597 | kill marks its target and rouses it; nothing else sets the mark, and only freeing the slot clears it |
| `ProcessLaws.KilledStays` | kernel/proc.c:579-597 | a process that was killed is marked for as long as it lives |
| `ProcessLaws.MutualExclusion` | kernel/sleeplock.c:22-41 | in every run no two processes are between acquiresleep and releasesleep of the same lock |
| `ProcessLaws.NoDeadlock` | kernel/proc.c:105-600 | in every run a thread with work to do can go on, or the holder of the spinlock that it waits for can, or the holder of the lock that this one waits for |
| `ProcessLaws.CanWaitAndExit` | kernel/proc.c:340-501 | a running process can be preempted, wait, and exit unless it is init, as soon as the lock is free |
| `ProcessLaws.CanKill` | kernel/proc.c:579-597 | a running process can kill any process whose lock is free |
| `ProcessLaws.CanFork` | kernel/proc.c:105-147 | a running process can fork into any unused slot whose lock is free |
| `ProcessLaws.CanLock` | kernel/sleeplock.c:22-41 | a running process can ask for any sleep lock, and release those that it has |
| `VirtioDisk.Partition` | kernel/virtio_disk.c:145-201 | in every run a descriptor is free, or in the hands of the driver, or in exactly one in-flight chain of three |
| `VirtioDisk.ServedOnce` | kernel/virtio_disk.c:204-315 | the device carries out each request at most once |
| `VirtioDisk.FinishedWasServed` | kernel/virtio_disk.c:265-280 | a request whose buffer is released was carried out with that very buffer, and the device reported success |
| `DiskLaws.DiskHoldsWrites` | kernel/virtio_disk.c:224-262 | in every run the disk is what the writes served so far, in that order, have made of the first disk, each with the data that its buffer held when it was asked for; reads do not change it |
| `DiskLaws.BufferHoldsAnswer` | kernel/virtio_disk.c:265-311 | a request that is over has left in its buffer, for a read, the block that the disk held when it was served, and for a write, what it was asked to write |
| `VirtioDisk.StepKeeps` | kernel/virtio_disk.c:145-315 | every action of driver and device keeps the invariant of descriptors, chains and both rings |
| `VirtioDisk.PublishKeeps` | kernel/virtio_disk.c:253-258 | a new entry of the available ring overwrites none that the device has not read |
| `VirtioDisk.ServeKeeps` | kernel/virtio_disk.c:283-315 | a new entry of the used ring overwrites none that the driver has not read; the request was not carried out before |
| `VirtioDisk.WrapSlot` | kernel/virtio_disk.c:253-258 | a 16-bit ring index selects the same slot before and after it wraps |
| `VirtioDisk.Disk.constructor` | kernel/virtio_disk.c:135-138 | all descriptors are free |
| `VirtioDisk.Disk.AllocDesc` | kernel/virtio_disk.c:145-154 | the first free descriptor, or -1 exactly if there is none |
| `VirtioDisk.Disk.FreeDesc` | kernel/virtio_disk.c:158-170 | the descriptor is blank and free; neither panic can happen |
| `VirtioDisk.Disk.Alloc3` | kernel/virtio_disk.c:190-201 | three descriptors, or the state is as before and fewer than three are free |
| `VirtioDisk.Disk.Format` | kernel/virtio_disk.c:224-250 | the three descriptors are a chain for this buffer |
| `VirtioDisk.Disk.PublishChain` | kernel/virtio_disk.c:253-258 | the chain is in the ring and the index has moved past it |
| `VirtioDisk.Disk.Submit` | kernel/virtio_disk.c:204-258 | a new request for the buffer is posted, if and only if three descriptors are free; otherwise nothing has changed |
| `VirtioDisk.Disk.DeviceTake` | kernel/virtio_disk.c:253-262 | the device takes the oldest posted entry, across the 16-bit wrap |
| `VirtioDisk.Disk.Follow` | kernel/virtio_disk.c:224-250 | following the chain the device finds the header, the buffer and the status byte that the driver meant |
| `VirtioDisk.Disk.Answer` | kernel/virtio_disk.c:224-250 | the block moves between this request and its own buffer, unless the device fails, and the status byte is that of this request |
| `VirtioDisk.Disk.DeviceServe` | kernel/virtio_disk.c:224-262 | one block moves between this request and its own buffer, or the device fails with a status of its choice; and the chain is in the used ring |
| `VirtioDisk.Disk.IntrOne` | kernel/virtio_disk.c:299-311 | the buffer of exactly this request is released; a panic exactly if the device reported a failure |
| `VirtioDisk.Disk.Intr` | kernel/virtio_disk.c:283-315 | all finished requests are seen, and no other changes; a panic exactly if the device failed at one of them |
| `VirtioDisk.Disk.FreeChain` | kernel/virtio_disk.c:174-185 | following the links frees exactly the three descriptors of the chain |
| `VirtioDisk.Disk.Finish` | kernel/virtio_disk.c:265-280 | the transferred block is in the buffer, the request is gone and its descriptors are free |
| `Umalloc.FreedOk` | user/umalloc.c:25-44 | after the assignments of free the list is again circular, address-ordered, non-overlapping and without adjacent blocks, and every unit is in exactly one block |
| `Umalloc.SearchStops` | user/umalloc.c:31-33 | the search loop of free stops at the right place and nowhere else |
| `Umalloc.CutOk` | user/umalloc.c:73-83 | taking a block, whole or from the tail, keeps that and hands out units that were free |
| `Umalloc.GrantOk` | user/umalloc.c:47-61 | so does new memory from sbrk |
| `Umalloc.HeldDisjoint` | user/umalloc.c:64-90 | blocks handed out share no unit with each other or with the free list |
| `Umalloc.NoLeak` | user/umalloc.c:25-90 | every unit got from sbrk is in a free block or in one handed out |
| `Umalloc.ListIsCircular` | user/umalloc.c:25-44 | following the links visits the free blocks in address order and comes back to base |
| `Umalloc.SbrkArgument` | user/umalloc.c:53 | morecore asks sbrk for the memory that it uses if and only if nbytes is at most 0x7fffffe0, since sbrk takes an int |
| `Umalloc.SbrkShrinks` | user/umalloc.c:53 | for one byte more, sbrk is asked to shrink the process by 2 GB |
| `Umalloc.UnitsHold` | user/umalloc.c:69 | behind its header a block has room for the bytes that were asked for, and less than a unit more |
| `Umalloc.Allocator.Free` | user/umalloc.c:25-44 | the block is no longer held, the heap is the same, the search ends |
| `Umalloc.Allocator.Morecore` | user/umalloc.c:47-61 | the granted units are in the heap and a free block is large enough |
| `Umalloc.Allocator.Malloc` | user/umalloc.c:64-90 | a block with room for the bytes that nobody held, or 0 only if no free block fits and sbrk grants nothing; the search ends, also after morecore; it uses memory that sbrk was not asked for exactly if it needs sbrk for more than 0x7fffffe0 bytes |
| `ShellGrammar.ParseUndoesPrint` | user/sh.c:345-446 | for every command tree: parsing its printed tokens gives the tree back if and only if no simple command has more than nine words |
| `ShellParser.PrintedLineParses` | user/sh.c:266-446 | the same for the printed line of characters, for plain words |
| `ShellParser.LexRender` | user/sh.c:266-308 | the tokenizer reads back tokens written with spaces between them |
| `ShellParser.StringsInPlace` | user/sh.c:450-493 | zeros behind words leave all other words intact, so that every word reads back as its text |
| `ShellSyntax.ParseIffDerives` | user/sh.c:328-446 | the grammar accepts a list of tokens as a command if and only if a syntax tree, with redirections anywhere among the words and parentheses anywhere around a line, is written so and means that command |
| `ShellSyntax.LexSpell` | user/sh.c:266-308 | however a line is spaced, and without spaces where tokens cannot run together, it is read as the tokens that it spells |
| `ShellSyntax.SpellLex` | user/sh.c:266-308 | every line is a spelling of the tokens that are read from it |
| `ShellSyntax.LineIffSpelled` | user/sh.c:266-446 | for every line: the shell reads it as a command if and only if it spells a syntax tree that means the command |
| `ShellParser.Parser.Peek` | user/sh.c:311-320 | spaces are skipped, and the answer is about the next character |
| `ShellParser.Parser.GetToken` | user/sh.c:266-308 | the next token of the line with its place, or the end of the line |
| `ShellParser.Parser.ParseRedirs` | user/sh.c:375-397 | the redirections that the grammar finds, or its panic |
| `ShellParser.Parser.ParseArgs` | user/sh.c:422-446 | words and redirections of a simple command as in the grammar, with its three panics |
| `ShellParser.Parser.ParseExec` | user/sh.c:416-446 | agrees with the grammar |
| `ShellParser.Parser.ParseBlock` | user/sh.c:400-413 | agrees with the grammar |
| `ShellParser.Parser.ParsePipe` | user/sh.c:362-372 | agrees with the grammar |
| `ShellParser.Parser.ParseLine` | user/sh.c:345-359 | agrees with the grammar and terminates on every line |
| `ShellParser.Parser.NulTerminate` | user/sh.c:450-493 | zeros exactly at the ends of the words of the tree |
| `ShellParser.Parser.ParseCmd` | user/sh.c:328-342 | the command of the line or the panic that the grammar gives, and afterwards every stored word reads back as its token |
| `Pipe.CounterTests` | kernel/pipe.c:86-113 | with 32-bit counters the tests for full and empty are right also after they wrap |
| `Pipe.Pipe.constructor` | kernel/pipe.c:23-56 | an empty pipe, open on both sides |
| `Pipe.Pipe.Write` | kernel/pipe.c:77-103 | how many bytes go in, and whether it returns, fails or sleeps, is exactly as the room in the pipe, the copies and the time of a kill say; it fails at once if the read side is closed; the bytes are in order behind those already there; everybody who sleeps has a reason to, unless and only unless a reader was asleep and the writer is killed after its first byte and before the last, a copy that fails, or a full pipe |
| `Pipe.Pipe.Read` | kernel/pipe.c:106-130 | exactly as many of the oldest bytes as there are, as are asked for and as can be copied come out in order; it sleeps exactly on an empty pipe with writers; nobody sleeps without reason afterwards |
| `Pipe.Pipe.Close` | kernel/pipe.c:59-74 | the side is closed, sleepers on the other side are woken, and the pipe is freed when both are closed |
| `Pipe.LostWakeup` | kernel/pipe.c:84-87 | a run that leaves a reader asleep on a pipe with a byte in it |
| `Grep.MatchHere` | user/grep.c:83-94 | true exactly if a prefix of the text is in the language of the pattern, for every pattern and text |
| `Grep.MatchStar` | user/grep.c:97-104 | true exactly if some number of the starred character followed by the rest of the pattern matches a prefix |
| `Grep.Match` | user/grep.c:71-80 | true exactly if some substring, or with ^ a prefix, is in the language of the pattern |
| `Grep.PrefixSplit` | user/grep.c:83-104 | a prefix is in the language of a list of items exactly if it splits into a word of the first item and a word of the rest |
| `Grep.ShowParse` | user/grep.c:83-94 | every pattern is the text of the items that it is read as, and these can be told from the text |
| `Grep.ParseShow` | user/grep.c:83-94 | items that can be told from their text are read back from it, so that a pattern has one reading |

## Left out

- Trap entry, context switch, boot and the assembly files: register plumbing; a context switch is one step of Processes.
- Spinlock internals, memory fences and the weak memory model: acquire and release are atomic steps.
- Device setup, PLIC, UART, console, printf and the fetching of system-call arguments.
- exec, path name lookup (namex, skipelem), the file table, and system calls that only combine modelled routines.
- copyinstr, uvminit, uvmclear, and the kernel page table: easy beside copyin, mappages and uvmalloc.
- freerange and the initial free list of kalloc.c: the machine starts from any sound free list.
- Fairness, liveness and scheduling order: safety and the termination of loops only.
- Running out of inodes, buffers, blocks or inode-table entries is a panic and ends a run.
- Process identifiers and the sizes of heap blocks are unbounded numbers; they are 32-bit in C.
- The wakeups inside virtio_disk.c and the lock of the disk driver: a caller that finds no descriptors tries again.
- The bodies of user programs other than grep, the shell's parser and malloc.
- FileSystem.Fs.FileWrite: no other process changes the file between two pieces; WriteTransaction is the statement for one piece, whatever happened before it.
- Transactions.FileWriteSurvivesCrash: one process writes and the others only read; that a block is logged as it is after its last change is a premise, as the buffers of FileSystem are a plain store.
- FileSystem.Fs.Readi: goes through the plain block store that KernelLog provides, not through buffers, because the refinement is proved there.
