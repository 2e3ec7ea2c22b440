# A verified model of xv6's storage, memory and concurrency core

This project models the parts of xv6 for RISC-V (with the changed scheduler) in which
correctness is hard to see from one function at a time, and proves what they are for:

| files | what they model |
|---|---|
| `Blocks`, `LogFormat`, `LogProtocol`, `Log`, `LogSpace`, `LogSleep` | the redo log: group commit, crashes at any block write, recovery, reservation of log space, waiting for it |
| `BufCache` | the buffer cache: LRU ring, reference counts, pins |
| `Bitmap`, `Records`, `Fs`, `Inodes`, `FileIO` | block allocation, inode records, direct and indirect blocks, truncation, file contents, `filewrite` |
| `Durability` | files through the log: a crash during a write, among other operations |
| `Directory`, `Path` | directories as maps, path components, path resolution |
| `PageTable`, `Vm`, `UserMemory`, `UserCopy` | Sv39 page tables, the frame allocator, user address spaces, copies to and from user memory |
| `Umalloc` | the K&R allocator of user programs |
| `SleepWakeup`, `SleepLock`, `ExitWait`, `Scheduler` | sleep and wakeup, and their users; the per-CPU schedulers, their choice by process type and their time accounting |
| `VirtQueue`, `Pipe`, `PipeSleep` | the disk driver's virtqueue; pipes, and waiting at them |
| `Regex`, `Bfs` | grep's matcher; the search in `graphs` |
| `Arithmetic` | facts about division, remainders and finite sets that several of them use |

`dafny verify dfyconfig.toml` checks everything.

How to read the models:

- A panic of the source is a precondition, so that verifying the callers shows it cannot
  happen, or a step that is stuck in the step machines.
- Code that changes data under a lock is a class whose methods are the stays inside the
  lock.  Protocols in which the order of steps of several CPUs matters are step machines,
  with theorems over all runs.
- Large invariants are written `forall x :: P(state, x)` with a named predicate `P`; they
  are used by mentioning `P` at the element in question.
- Physical addresses, disk blocks and heap addresses are numbers of frames, blocks and
  header-sized units.

## Where the code does less than one might expect

- `log_write` refuses a header of `log.size - 1` entries before it looks for an entry to
  absorb into.  With mkfs's log (LOGSIZE blocks, header included), three operations of
  MAXOPBLOCKS blocks each reach the panic: `LogSpace.MaximalOperationsPanic`.  It is
  unreachable exactly if operations log at most 9 distinct blocks: `LogSpace.PanicIff`.  A
  transaction of `filewrite` logs at most 7: `FileIO.TransactionBound`.
- `morecore` passes the size in bytes to `sbrk(int)`.  It asks for what it then hands out
  exactly if the request is below 2^27 units (`Umalloc.SbrkExact`); `malloc(0xFFFFFFFF)`
  would hand out 2^28 + 1 units after asking for 16 bytes (`Umalloc.LargestRequest`).
  `Umalloc.Heap.Malloc` says exactly when this happens.
- A directory entry has 16 bits for the inode number.  `dirlink` binds the number's low 16
  bits, so it binds the number asked for exactly if that is below 0x10000, and nothing if
  those bits are 0: `Directory.DirLink`.
- A user copy that fails in the middle of a block leaves bytes in the cached block that
  `writei` does not count.  They can be read.  If the block is in the open commit group,
  because an operation logged it since the last commit, they go to disk with the group;
  otherwise they are lost when the buffer is recycled, unless the block is logged before
  (`Inodes.FileSystem.Recycle`, `BufCache.ForgottenWrite`).  `begin_op` does not empty the
  group, so the block may be one that `filewrite`'s own transaction before filled in part,
  if another operation kept its `end_op` from committing: `FileIO.UncountedBytes`.  What
  disk and log get is exactly the bytes counted if and only if the block at which the copy
  fails is not in the open group, or the bytes left there are the file's old ones:
  `FileIO.WriteI`, `FileIO.FileWrite`.
- `piperead` takes the byte that it cannot deliver out of the pipe (`Pipe.Buffer.Read`), and
  `pipewrite` of a process that is killed returns -1 with bytes already put in
  (`Pipe.Buffer.Write`).  It does not wake readers then: `PipeSleep.KilledWriter`.  Somebody
  is left asleep who could go on exactly if a killed writer leaves that way, having put
  bytes in since it got the lock, while a reader sleeps: `PipeSleep.PipeWakeups`.
- The scheduler goes on with the process it has chosen while that is RUNNABLE, so `yield`
  gives the CPU straight back: until the process sleeps or exits, no other process runs on
  that CPU, of whatever type (`Scheduler.YieldKeepsCpu`).  The types decide only which
  process comes next then (`Scheduler.ChoiceByPriority`).
- The search in `graphs` overwrites the start vertex's distance if that vertex has an edge
  to itself.  The distances are right exactly if there is no such edge or no edge to a
  higher-numbered vertex: `Bfs.ShortestPaths`, `Bfs.LoopMisleads`.  The generator never
  makes such an edge (user/graphs.c:34-39).

## Model

| member | source | states |
|---|---|---|
| `LogProtocol.CrashSafety` | kernel/log.c:116-203 | after any run of operations, block writes and crashes, also inside recovery, the disk stands for the effect of exactly the committed groups, each made of whole operations; home blocks equal it whenever operations run |
| `LogProtocol.GroupCommit` | kernel/log.c:126-235 | over all runs: committing implies no outstanding operation; reading a block gives its latest log_write at all times but while recovery installs blocks, also during a commit; with none outstanding nothing is left to lose |
| `LogProtocol.HomeChangesOnlyInInstall` | kernel/log.c:68-83 | the only step that changes a home block is the installation, committing or recovering, of that very block |
| `LogProtocol.RecoveryFinishes` | kernel/log.c:116-123 | a recovery left alone ends after one write per header entry and one more, with home blocks equal to the committed groups' effect |
| `LogProtocol.CommitFinishes` | kernel/log.c:146-203 | the end_op of the last operation commits: left alone, after two block writes per header entry and two of the header, the open group is the last committed one, its effect is on the home blocks, the log is empty and operations can run |
| `LogProtocol.OperationSteps` | kernel/log.c:126-235 | an operation is outstanding exactly from begin_op to end_op; log_write changes what is read for its block and for no other, and adds a header entry exactly if there is none for it; end_op commits exactly if no operation is left and the header has entries |
| `LogProtocol.ThreeAtOnce` | kernel/log.c:132-138 | begin_op admits up to three operations to an empty log, and never a fourth |
| `LogProtocol.WriteReaches` | kernel/log.c:126-235 | from any idle state an operation that writes one block can begin, log it and end, and after four block writes the disk has it, with all other home blocks as before |
| `LogProtocol.StepKeepsInv` | kernel/log.c:68-235 | every step, crash included, keeps the invariant that ties disk, header, cache and open group to the committed groups |
| `LogFormat.InstallStands` | kernel/log.c:73-82 | installing a logged block leaves the contents that disk and header stand for unchanged |
| `Log.PutHeader` | kernel/log.c:108-111 | the header block written decodes to exactly the entries put in |
| `Log.Log.constructor` | kernel/log.c:53-65 | initlog on any disk that stands for some contents ends with these on the home blocks and an empty header; a crash after any of its writes restores the same |
| `Log.Log.WriteHead` | kernel/log.c:102-114 | one block write, after which the header block decodes to the in-memory header and every other block reads as before |
| `Log.Log.ReadHead` | kernel/log.c:86-97 | the in-memory header becomes what the header block decodes to |
| `Log.Log.WriteLog` | kernel/log.c:178-191 | copies every logged block to the log; after each of its writes a crash still restores the old contents |
| `Log.Log.InstallTrans` | kernel/log.c:68-83 | copies every logged block home; after each of its writes a crash restores the new contents |
| `Log.Log.Commit` | kernel/log.c:193-203 | of its 2n+2 block writes a crash after any of the first n restores the old contents, and after any later one the new contents; at the end home blocks hold the new contents and the header is empty |
| `Log.Log.RecoverFromLog` | kernel/log.c:116-123 | restores the contents that disk and header stand for, and a crash after any of its writes restores the same |
| `Log.Log.BeginOp` | kernel/log.c:126-142 | one pass of begin_op's loop: the operation is counted exactly if no commit runs and the header leaves MAXOPBLOCKS entries for each operation outstanding and for this one |
| `Log.Log.EndOp` | kernel/log.c:146-175 | the last operation out commits the group atomically, any other changes nothing on disk (who is woken: `LogSleep`) |
| `Log.Log.LogWrite` | kernel/log.c:214-235 | the block's new contents join the open group, in memory only, and its number is absorbed or appended |
| `Log.Log.AddEntry` | kernel/log.c:225-233 | the header gains the block exactly if it was not there, and otherwise stays as it is |
| `LogSpace.ReservationBound` | kernel/log.c:126-142 | over all runs in which operations log at most u <= MAXOPBLOCKS distinct blocks, the header and all unused reservations fit in MAXOPBLOCKS + 2u <= LOGSIZE blocks |
| `LogSpace.PanicIff` | kernel/log.c:214-235 | with mkfs's log some run panics in log_write if and only if operations may log MAXOPBLOCKS distinct blocks |
| `LogSpace.MaximalOperationsPanic` | kernel/log.c:220-221 | the run of three operations of ten blocks each that panics |
| `LogSleep.ActionDisciplined` | kernel/log.c:126-175 | begin_op, log_write and end_op meet the rules of sleep and wakeup at every step, although commit empties the header without log.lock |
| `LogSleep.NobodyLeftWaiting` | kernel/log.c:126-175 | over all runs: while log.lock is free and the log would admit an operation, nobody is asleep, nor bound to sleep, in begin_op, so nobody is when the log is idle; at most one process commits, with no operation outstanding; end_op never finds log.committing set |
| `LogSleep.OperationsCount` | kernel/log.c:126-175 | begin_op counts an operation exactly if log space for it is left and no commit runs, and sleeps otherwise; end_op stops counting it, and only the last one commits |
| `BufCache.RelinkMovesToFront` | kernel/bio.c:126-134 | the six pointer assignments of brelse turn a circular doubly linked list of all buffers into one in which the buffer is first and the others keep their order |
| `BufCache.Cache.constructor` | kernel/bio.c:36-53 | binit links all buffers into the ring |
| `BufCache.RecycleLoses` | kernel/bio.c:77-87 | giving a buffer to another block changes the latest contents of the block it held exactly if only that buffer had them |
| `BufCache.ForgottenWrite` | kernel/fs.c:522-525 | storing in a buffer and releasing it without log_write: after recycling, the block reads as before the store |
| `BufCache.Cache.FindCached` | kernel/bio.c:66-73 | finds the buffer of the block exactly if there is one |
| `BufCache.Cache.FindUnused` | kernel/bio.c:77-87 | finds the least recently used buffer without references, or shows that all have references |
| `BufCache.Cache.BGet` | kernel/bio.c:58-89 | at most one buffer per block; recycles only the least recently used buffer without references, hence no logged block; a block's latest contents change if and only if its buffer is recycled while they are in no other place (neither on disk nor referenced), and then become the disk's |
| `BufCache.Cache.BRead` | kernel/bio.c:92-103 | the buffer returned holds the latest contents of the block; other blocks change as for bget |
| `BufCache.Cache.Fill` | kernel/bio.c:98-101 | reading the disk into an invalid buffer gives the latest contents |
| `BufCache.Cache.SetData` | kernel/fs.c:522 | a holder's store changes the latest contents of the buffer's block, of no other; no block becomes, or ceases to be, one that recycling would change |
| `BufCache.Cache.BWrite` | kernel/bio.c:106-112 | the disk gets the buffer's data and no block's latest contents change |
| `BufCache.Cache.BRelse` | kernel/bio.c:116-137 | drops one holder and changes no block; the block becomes one that recycling would change exactly if that was the last reference and the disk does not have the buffer's data; an unused buffer moves to the front of the ring |
| `BufCache.Cache.MoveToFront` | kernel/bio.c:128-133 | keeps the ring and moves exactly this buffer to its front |
| `BufCache.Cache.BPin` | kernel/bio.c:139-144 | refcnt stays the number of holders plus one for a block in the log header |
| `BufCache.Cache.BUnpin` | kernel/bio.c:146-151 | the same when the block leaves the header |
| `Bitmap.MarkBits` | kernel/fs.c:75-77 | marking a block sets its bit and no other of the bitmap block |
| `Records.PutInodeReads` | kernel/fs.c:230-238 | iupdate's stores put type, major, minor, nlink, size and addresses in the inode's 64 bytes and change no other of the block's records |
| `Fs.MarkUses` | kernel/fs.c:75-78 | marking a free block makes the bitmap describe the old set of used blocks and this one |
| `Fs.UnmarkFrees` | kernel/fs.c:98-103 | clearing the bit makes the bitmap describe the set without the block |
| `Fs.PutRecord` | kernel/fs.c:225-241 | iupdate changes the record of this inode and of no other |
| `Inodes.FileSystem.Format` | mkfs/mkfs.c:237-250 | marking the metadata blocks on a zeroed disk gives a file system, with any inodes in use as empty files |
| `Inodes.FileSystem.Recycle` | kernel/bio.c:77-87 | recycling a buffer whose changes were not log_written leaves what disk and log have as it is, and the file system valid |
| `Inodes.FileSystem.BAlloc` | kernel/fs.c:65-88 | the first free block, marked, zeroed and logged, with all other data blocks unchanged; 0 exactly if no block is free, and then nothing changes |
| `Inodes.FileSystem.BFree` | kernel/fs.c:91-105 | needs a marked data block, which every caller shows; frees it and changes no data block |
| `Inodes.FileSystem.BMap` | kernel/fs.c:382-421 | returns the block's disk block, allocating on the way only blocks nobody owns, on the out-of-space paths too; every block of every file stays owned by one slot and marked; an existing block is found without any change |
| `Inodes.FileSystem.BMapIndirect` | kernel/fs.c:395-418 | the same for blocks behind the indirect block, which it allocates first if need be |
| `Inodes.FileSystem.ITrunc` | kernel/fs.c:425-453 | frees each block the file owns, data and indirect, exactly once and no other; the file is empty and keeps type, device numbers and link count; other files, their blocks and contents are unchanged |
| `Inodes.FileSystem.FreeDirect` | kernel/fs.c:431-436 | frees exactly the direct blocks |
| `Inodes.FileSystem.FreeIndirect` | kernel/fs.c:438-449 | frees exactly the blocks that the indirect block names, and it |
| `Inodes.FileSystem.IUpdate` | kernel/fs.c:225-241 | the 64-byte record on disk becomes the in-memory inode, records of other inodes and the bitmap are unchanged, and the block is logged |
| `FileIO.CellsAreContent` | kernel/fs.c:471-496 | the byte-by-byte view of a file's blocks is the contents sequence of a file without holes |
| `FileIO.SpliceOverwrites` | kernel/fs.c:522-527 | storing bytes in one block overwrites the contents there and nowhere else, because a file's blocks are distinct |
| `FileIO.WriteI` | kernel/fs.c:505-539 | the contents become the old ones overwritten at off with the bytes written, extended as needed, across the direct/indirect split; -1 exactly for an offset past the end or a file too large, with nothing changed; a short count means that the file has no block there and none is free, or that the next block's share of the source cannot be read, of which the readable part is left in the buffer; it ends at a block boundary; other files are unchanged, and so are the file's type, device numbers and link count; if disk and log had all of the file, they get exactly the bytes counted if and only if the block where it stopped is not in the open commit group or the bytes left there are the old ones, and otherwise those bytes too; everything that changes on disk is logged, and only bitmap blocks, the inode, the indirect block and the touched blocks are |
| `FileIO.WriteLoop` | kernel/fs.c:517-530 | writei's loop: the same for the blocks, before the size is updated |
| `FileIO.FailedCopySaved` | kernel/fs.c:522-525 | a copy that fails does not change the contents that disk and log have if the block was there and is not in the open commit group, or is new and beyond the end |
| `FileIO.SettledContent` | kernel/fs.c:471-496 | a file none of whose buffers has changes that were not log_written reads as it is on disk |
| `FileIO.WriteBytes` | kernel/fs.c:515-538 | the part of writei after its tests: contents, size, log and commit group as for writei |
| `FileIO.ReadI` | kernel/fs.c:471-496 | returns exactly the slice of the contents clipped to the size, allocates nothing and changes nothing |
| `FileIO.TransactionBound` | kernel/file.c:149-155 | a write of at most three blocks' worth of bytes, however unaligned, logs at most 7 distinct blocks when the disk has one bitmap block |
| `FileIO.FileWrite` | kernel/file.c:148-175 | the contents become the old ones overwritten with the bytes written so far, and those left behind by a failed copy; returns n or, on a short write, -1, and says where and why it stopped; f->off advances by what was written; other files and the file's type, device numbers and link count are unchanged; each transaction logs at most 7 blocks; for every choice of when the group is committed: if disk and log had all of the file, they get exactly the bytes counted if and only if the block where it stopped is not in the open commit group (it is if the transaction before filled it in part and there was no commit after it, or if it was there at the start and there was no commit) or the bytes left there are the old ones |
| `FileIO.WrittenExactly` | kernel/fs.c:522-525 | contents with stored bytes behind those counted equal the contents of the bytes counted if and only if the stored bytes are the old ones |
| `FileIO.WaitsNext` | kernel/file.c:155-173 | which of the file's blocks are in the open commit group after a whole transaction: those from the start while none committed, and the one it filled in part if its end_op did not commit |
| `FileIO.UncountedBytes` | kernel/file.c:155-173 | 5000 bytes to be written at offset 100 of a file of 10000, from a source readable for 3500, while another operation is outstanding: -1 with 3072 bytes counted, and 428 more on disk with the group |
| `Durability.ContentFound` | kernel/fs.c:382-421 | a boot that reads inode record, addresses and indirect block from a disk that agrees with a file system's on the file's record and blocks finds the file's contents |
| `Durability.WritesAmount` | kernel/log.c:214-235 | the log_writes of a transaction turn the disk before it into the disk after it |
| `Durability.SomeWrites` | kernel/log.c:214-235 | the log_writes that the atomicity theorems quantify over exist, one for each block logged |
| `Durability.StepKeepsStage` | kernel/log.c:126-235 | every step of the log, crash included, by the operation or by others that leave the file alone, keeps that the operation is committed whole or not at all, and what the committed groups and the open one have of the file |
| `Durability.TransactionAtomic` | kernel/file.c:149-175 | for every run of the transaction through the log, among other operations that log blocks other than the file's and may share the group, from any state after begin_op, with crashes at any block write and in recovery: the disk stands for the file's contents at the last commit before it or, from its commit on, after it, and a boot reads these; without a crash it is committed once no operation is outstanding |
| `Durability.WriteDurably` | kernel/file.c:149-175 | a transaction of filewrite has this property, and what is on disk after it is what was there before overwritten with the bytes written, and those left in a block of the open group |
| `Directory.StrNCmp` | kernel/string.c:60-68 | 0 exactly if the strings agree up to their NUL or n bytes, else the difference of the first differing bytes |
| `Directory.StrNCpy` | kernel/string.c:70-81 | the string up to its NUL, padded with NULs to the full size |
| `Directory.EntriesAfter` | kernel/fs.c:600-602 | storing a directory entry changes that entry and no other |
| `Directory.Linked` | kernel/fs.c:585-602 | filling a free or new entry with a name not yet bound keeps live names unique and adds exactly that binding |
| `Directory.DirLookup` | kernel/fs.c:551-575 | finds a name exactly if the directory's map binds it, with the inode number it is bound to and the offset of the entry |
| `Directory.FindSlot` | kernel/fs.c:592-598 | the first free entry, or the end of the directory if every entry is used |
| `Directory.WriteEntry` | kernel/fs.c:602-603 | an entry write is all or nothing, because entries do not straddle blocks, and it cannot fail on an entry that exists |
| `Directory.DirLink` | kernel/fs.c:579-606 | adds exactly the binding of the name to the low 16 bits of the inode number, or none if these are 0, in a free entry if there is one and else in a new one; or fails with the contents unchanged, and only if the name is bound, or every entry is used and the directory is at its maximum size or the disk is full; live names stay unique |
| `Path.SplitJoin` | kernel/fs.c:608-621 | a path made of components with slashes before them has exactly these components |
| `Path.SkipElem` | kernel/fs.c:622-645 | takes off the first nonempty component, cut to DIRSIZ bytes, and the slashes after it; fails exactly if there is none |
| `Path.NameX` | kernel/fs.c:651-683 | returns where following all components (for nameiparent all but the last) through the directories' maps leads, and null if that fails |
| `PageTable.PteRoundTrip` | kernel/vm.c:101-162 | a PTE as frame number and flags loses nothing: both are read back from the number that PA2PTE(pa) and the flags make (the model's page tables hold them so) |
| `PageTable.VpnOfPageAt` | kernel/vm.c:78-105 | distinct pages below MAXVA have distinct PTE slots |
| `PageTable.Partition` | kernel/kalloc.c:33-82 | free-list frames, page-table pages, frames of user pages and held frames partition what kalloc manages |
| `PageTable.AddsThenUnmaps` | kernel/vm.c:242-251 | adding pages and removing them again restores every mapping, its ownership and the contents of every frame in use |
| `Vm.Memory.constructor` | kernel/kalloc.c:33-40 | freerange puts every frame on the free list |
| `Vm.Memory.KFree` | kernel/kalloc.c:46-63 | the held frame, and nothing else, joins the free list |
| `Vm.Memory.KAlloc` | kernel/kalloc.c:68-82 | takes one free frame off the list; 0 exactly if it is empty |
| `Vm.Memory.Walk` | kernel/vm.c:85-105 | finds the page-table page of the PTE, making pages on the way from free frames only; changes no mapping, no frame in use and no other page table; succeeds with alloc exactly if there are free frames for the page-table pages that are missing, and takes exactly these |
| `Vm.Memory.MapPages` | kernel/vm.c:143-171 | maps exactly the requested pages to consecutive frames, exactly if there are free frames for the page-table pages it takes; on failure exactly a prefix of them |
| `Vm.CostBound` | kernel/vm.c:85-105 | mapping n pages takes at most 2n page-table pages, and none where the page tables exist |
| `Vm.Memory.UvmUnmap` | kernel/vm.c:177-199 | unmaps exactly the requested pages and gives up exactly the frames that belong to them |
| `PageTable.GoneIsFree` | kernel/vm.c:192-195 | the frames so given up are on the free list |
| `Vm.Memory.FreeWalk` | kernel/vm.c:278-294 | terminates and returns every page-table page at or below the node to the free list, each once, and changes nothing else |
| `UserMemory.UvmCreate` | kernel/vm.c:203-211 | a new empty page table in a frame that was free |
| `UserMemory.UvmAlloc` | kernel/vm.c:232-256 | adds exactly the zeroed pages between the two sizes with the permissions asked for, exactly if there are free frames for them and for the page-table pages they take; on failure every mapping, its ownership and every frame in use are as before |
| `UserMemory.UvmDealloc` | kernel/vm.c:262-274 | unmaps exactly the pages between the two sizes |
| `UserMemory.UvmCopy` | kernel/vm.c:312-340 | the child gets equal contents and flags in other frames, exactly if there are free frames for them and their page-table pages; on failure both page tables and all frames in use are as before |
| `UserMemory.UvmFree` | kernel/vm.c:298-304 | every frame of the page table, data or page-table page, becomes free, and nothing else changes |
| `UserMemory.ProcPagetable` | kernel/proc.c:189-219 | a page table that maps the trampoline and the trapframe and nothing else, exactly if three frames are free (mapping the trapframe cannot fail); on failure page tables and free frames are exactly as before |
| `UserMemory.ProcFreePagetable` | kernel/proc.c:223-229 | gives back every frame of the page table and neither the trampoline nor the trapframe |
| `UserCopy.WalkAddr` | kernel/vm.c:108-126 | the frame of a page exactly if the user may read it |
| `UserCopy.CopyOut` | kernel/vm.c:358-383 | writes exactly these bytes at these user addresses and no other byte of any address space, up to the first page the user may not write |
| `UserCopy.CopyIn` | kernel/vm.c:388-408 | returns exactly the bytes at these user addresses, up to the first page the user may not read |
| `UserCopy.CopyInStr` | kernel/vm.c:414-449 | returns the string up to its NUL if that comes within max bytes of readable memory, else fails |
| `UserCopy.OutAndIn` | kernel/vm.c:358-408 | copyout succeeds exactly if the user may write every byte, and then copyin of the range returns what was written |
| `Umalloc.NUnits` | user/umalloc.c:69 | the units hold a header and the requested bytes, with less than one unit to spare |
| `Umalloc.SbrkExact` | user/umalloc.c:52-54 | morecore asks sbrk for what it hands out if and only if the request is below 2^27 units |
| `Umalloc.LargestRequest` | user/umalloc.c:54-58 | for the largest request it asks for 16 bytes |
| `Umalloc.InsertedApart` | user/umalloc.c:33-42 | freeing a block keeps the list in address order and fully coalesced |
| `Umalloc.InsertedUnits` | user/umalloc.c:33-42 | freeing a block adds exactly its units to the free ones |
| `Umalloc.FreeLinks` | user/umalloc.c:33-42 | the pointer and size assignments leave a circular, address-ordered, coalesced list with the block joined to its neighbours |
| `Umalloc.Conserved` | user/umalloc.c:24-90 | the sizes of the free blocks and the live units add up to the memory sbrk granted |
| `Umalloc.Heap.FindGap` | user/umalloc.c:30-32 | free's search ends, from any freep, at the one gap where the block belongs |
| `Umalloc.Heap.FreeBlock` | user/umalloc.c:24-44 | puts the block on the list, joined with its neighbours; other live blocks and the granted memory are unchanged and stay disjoint |
| `Umalloc.Heap.MoreCore` | user/umalloc.c:46-61 | the free list gains the granted memory, with a block large enough, and live blocks are unchanged; exactly for 2^27 units or more sbrk grants less than the block that it goes on to free |
| `Umalloc.Heap.Search` | user/umalloc.c:74-86 | malloc's search ends, from any freep, with the first block from there on that is large enough, or shows that there is none |
| `Umalloc.Heap.Take` | user/umalloc.c:75-84 | takes the units off the end of the block, or unlinks it, and hands out units that were free |
| `Umalloc.Heap.Malloc` | user/umalloc.c:63-90 | hands out a block that overlaps no live block and holds the bytes; grows the heap only if no block is large enough, and fails only if sbrk fails then; relies on memory that was not granted exactly if it has to grow the heap by 2^27 units or more |
| `SleepWakeup.StepKeepsInv` | kernel/proc.c:590-635 | every step of sleep, wakeup, kill and the lock keeps that a sleeper whose condition became true is still to be visited by the holder's wakeup |
| `SleepWakeup.NoLostWakeup` | kernel/proc.c:590-635 | over all runs that change conditions only under the lock and wake before releasing it: while the lock is free nobody sleeps, or is bound to sleep, on a channel whose condition is true |
| `SleepWakeup.WakesAll` | kernel/proc.c:622-635 | while no other process is between taking its p->lock and sleeping, wakeup gets through and wakes exactly the processes that sleep on the channel |
| `SleepLock.ActionDisciplined` | kernel/sleeplock.c:21-41 | acquiresleep and releasesleep meet those rules at every step |
| `SleepLock.SleepLockSafe` | kernel/sleeplock.c:21-52 | over all runs: at most one process has the sleep lock, holdingsleep tells which, and when it is free nobody is left asleep on it |
| `SleepLock.LockChanges` | kernel/sleeplock.c:21-41 | acquiresleep takes the lock exactly if it finds it free and sleeps otherwise, releasesleep gives it up, and nothing else changes who has it |
| `ExitWait.ActionDisciplined` | kernel/proc.c:343-448 | exit, reparent, wait and fork meet the rules of sleep and wakeup, although exit wakes its parent before it becomes a zombie |
| `ExitWait.WaitSeesExits` | kernel/proc.c:343-448 | over all runs: while wait_lock is free a process that has an exited child is not asleep, nor bound to sleep, in wait |
| `ExitWait.LiveParents` | kernel/proc.c:326-448 | over all runs: a process that has exited is nobody's parent, and while wait_lock is free every process but init, exited ones included, has a live parent to wait for it |
| `ExitWait.FamilySteps` | kernel/proc.c:326-448 | a process's parent becomes the forker in fork, init when the parent exits, and nobody when it is reaped; it becomes live in fork, a zombie in exit, unused in wait; nothing else changes these |
| `Scheduler.SliceIs` | kernel/proc.c:508-514 | a slice computed from wrapped tick counters is at most the true time and equal to it in 32 bits |
| `Scheduler.StepKeepsInv` | kernel/proc.c:467-562 | every step of the schedulers, of sched and of the other users of p->lock keeps the invariant |
| `Scheduler.Exclusive` | kernel/proc.c:467-562 | over all runs: while p->lock is free, p is RUNNING exactly if some CPU has c->proc == p, and no two CPUs have the same process |
| `Scheduler.Accounting` | kernel/proc.c:507-516 | over all runs: a CPU never charges more than the ticks that have passed; tempo_total, with the open slice if a CPU has the process, is the number of ticks that came while some CPU had it, in 32 bits |
| `Scheduler.ChargesTheRunner` | kernel/proc.c:507-516 | over all runs: a slice is charged to the process that ran it, before its slot can be given out again, and brings tempo_total to its whole running time |
| `Scheduler.ChoiceByPriority` | kernel/proc.c:480-501 | if no process changes state or type during a CPU's scan, whatever other CPUs do, it chooses the first runnable process in the table that is IO_BOUND, if there is none the first CPU_BOUND one, if there is none the first DEFAULT one; and it chooses none exactly if no process of the three types is runnable |
| `Scheduler.RunsBest` | kernel/proc.c:480-512 | a scan that nobody disturbs ends with that process RUNNING on the CPU |
| `Scheduler.YieldKeepsCpu` | kernel/proc.c:507-517 | over all runs: until a process sleeps or exits, its CPU runs no other, however often it yields and whatever is runnable |
| `Scheduler.Lifecycle` | kernel/proc.c:112-562 | the state of a process changes only along UNUSED, USED, RUNNABLE, RUNNING and back, SLEEPING, ZOMBIE as the steps of alloc, fork, dispatch, sched, wakeup and wait do it; its type only when it is set, and is DEFAULT at first |
| `VirtQueue.Accounting` | kernel/virtio_disk.c:156-213 | free descriptors and three per request in flight make up NUM |
| `VirtQueue.RingsNeverFull` | kernel/virtio_disk.c:272-277 | at most two entries wait in either ring, so none is overwritten before it is used |
| `VirtQueue.Indices` | kernel/virtio_disk.c:272-277 | the 16-bit indices go through the same ring cells as unbounded ones, also where they wrap |
| `VirtQueue.Disk.AllocDesc` | kernel/virtio_disk.c:156-166 | takes the first free descriptor, -1 exactly if there is none |
| `VirtQueue.Disk.Alloc3` | kernel/virtio_disk.c:201-213 | three distinct free descriptors, or none taken and fewer than three free |
| `VirtQueue.Disk.FreeChain` | kernel/virtio_disk.c:185-197 | frees exactly the three linked descriptors, none of them twice |
| `VirtQueue.Disk.Submit` | kernel/virtio_disk.c:215-281 | adds one request with descriptors of its own, its buffer marked busy; otherwise nothing changes |
| `VirtQueue.Disk.DeviceFetch` | kernel/virtio_disk.c:271-277 | the entry that the device reads is a request that waits for it |
| `VirtQueue.Disk.DeviceFinish` | kernel/virtio_disk.c:261-265 | the device may finish any request it has fetched, in any order |
| `VirtQueue.Disk.HandleOne` | kernel/virtio_disk.c:312-324 | one turn of the interrupt loop: the next completion's request, with status 0 and a busy buffer, is done |
| `VirtQueue.Disk.DeviceRuns` | kernel/virtio_disk.c:299-304 | any sequence of fetches and completions by the device keeps the rings and loses no request |
| `VirtQueue.Disk.Interrupt` | kernel/virtio_disk.c:294-327 | whatever the device finishes while the loop runs: the loop ends; every completion in the used ring names a request whose buffer is still busy, has status 0 and is handled exactly once; none is left over |
| `VirtQueue.Disk.Collect` | kernel/virtio_disk.c:284-291 | once the buffer is no longer busy the request's descriptors, and no others, become free |
| `Pipe.Counters` | kernel/pipe.c:88-121 | the wrapping counters tell full and empty pipes from others, and their difference is the number of bytes in the pipe |
| `Pipe.SameCell` | kernel/pipe.c:95-123 | the wrapping counters index the same cells as unbounded ones, because PIPESIZE divides 2^32 |
| `Pipe.Buffer.Put` | kernel/pipe.c:95 | a byte put into a pipe that is not full overwrites none that waits, and bytes taken out stay a prefix of those put in |
| `Pipe.Buffer.Get` | kernel/pipe.c:123 | the byte taken out is the next of those put in |
| `Pipe.Fifo` | kernel/pipe.c:76-130 | in every state that Write, Read and Close keep, the counters' difference is the number of bytes between the ends, at most PIPESIZE |
| `Pipe.Buffer.Write` | kernel/pipe.c:76-103 | puts the next bytes of the source in, in order, until all are in, the source is unreadable, the pipe is full, the reader is gone or the process is killed, also in between; sleeps exactly if it is not done, the pipe is full, the reader is there and the process is not killed |
| `PipeSleep.ActionDisciplined` | kernel/pipe.c:58-130 | pipewrite, piperead and pipeclose meet the rules of sleep and wakeup at every step, on both channels, but for a writer that is killed after it has put bytes in |
| `PipeSleep.ActionKeepsInv` | kernel/pipe.c:58-130 | every step but a losing one keeps that no sleeper's condition became true without a wakeup still to come |
| `PipeSleep.LeftByQuit` | kernel/pipe.c:84-87 | a step leaves somebody asleep who could go on if and only if it is a killed writer's leaving, with bytes put in since it got the lock, while a reader sleeps |
| `PipeSleep.PipeWakeups` | kernel/pipe.c:58-130 | over all runs of any number of readers, writers and closers: at some point somebody is left asleep who could go on if and only if such a writer leaves at some point |
| `PipeSleep.KilledWriter` | kernel/pipe.c:84-87 | a run with one reader and one writer that ends so |
| `PipeSleep.PipeChanges` | kernel/pipe.c:58-130 | the number of bytes in the pipe changes by one for each byte put in or taken out, and never exceeds PIPESIZE; a reader sleeps only at an empty pipe with a writer, a writer only at a full one with a reader |
| `Pipe.Buffer.Read` | kernel/pipe.c:105-130 | returns the next bytes of the pipe, in order, exactly if there are bytes or no writer; else it sleeps, or returns -1 exactly if the process is killed; a byte that cannot be stored is lost |
| `Regex.MatchHere` | user/grep.c:85-96 | true exactly if a prefix of the text (all of it, for a final $) is in the language of the pattern; terminates |
| `Regex.MatchStar` | user/grep.c:99-106 | the same for c* followed by the pattern |
| `Regex.Match` | user/grep.c:72-82 | true exactly if some substring, at the beginning for ^ and at the end for $, is in the language denoted by the pattern's literals, dots and starred items |
| `Regex.ParseRenders` | user/grep.c:85-96 | a pattern is what its list of items is written as, for every pattern |
| `Regex.RenderParses` | user/grep.c:85-96 | and the only such list, of those that can be written |
| `Regex.OnesMatch` | user/grep.c:93-94 | a list of characters matches exactly the texts that begin with them, a dot being any character |
| `Regex.StarMatches` | user/grep.c:99-106 | c* and a rest match exactly the texts that begin with some number of c, or of any characters for a dot, and then the rest |
| `Bfs.ShortestPaths` | user/graphs.c:104-129 | for every matrix: visited are exactly the vertices that a nonempty walk from u reaches, others keep INF and u its 0, and at most one entry more than there are vertices is ever enqueued; all distances are lengths of shortest nonempty walks if and only if u has no edge to itself or none to a higher-numbered vertex |
| `Bfs.FoundGood` | user/graphs.c:121-126 | in such a graph finding a vertex keeps that every distance is the length of a walk, that entries come in order of distance and that successors of finished entries are found in time |
| `Bfs.InTime` | user/graphs.c:118-129 | and when the queue is empty every vertex that a walk of k edges reaches has a distance of at most k |
| `Bfs.FoundBad` | user/graphs.c:121-126 | in any other graph the successors of u numbered above it get distance 2 |
| `Bfs.RightIffSafe` | user/graphs.c:118-129 | at the end the distances are right exactly in such graphs |
| `Bfs.LoopMisleads` | user/graphs.c:121-126 | a graph of two vertices in which a vertex one edge away ends at distance 2 |

## Left out

- The superblock: where log, bitmap, inodes and data lie is a parameter, with mkfs's layout as assumptions (log apart from home blocks, metadata blocks marked).
- The inode cache (iget, iput, ilock), ialloc and link counts.
- FileIO.ReadI: readi's test for a missing block is left out, since files have no holes and it cannot be reached.
- FileIO.WriteI: no buffer of the file with changes that were not logged is recycled between two of its blocks; if disk and log have all of the file there is none.
- FileIO.FileWrite: no other process writes the file between two of its transactions, although the inode is unlocked there.
- Path.NameX: no directory changes between the look-ups, although each directory is unlocked after its own.
- Durability.TransactionAtomic: meanwhile other operations log none of the blocks that the file has before or after it; they may log the block of its inode record, and keep the record.
- BufCache: the sleep lock of a buffer appears only as a holder count.
- Log.Log.BeginOp: one pass of the loop; sleeping and waking is in `LogSleep`.
- LogProtocol: changes of a buffer that are not log_written (they are in `BufCache` and `Inodes`).
- The rest of the system calls on files (create, link, unlink, mknod, open flags) would only combine the operations modelled.
- Vm: kvmmake and kvmmap (boot-time mapping of the kernel), uvmfirst and uvmclear; the TLB.
- UserMemory.UvmAlloc: page numbers below MAXVA only, as walk demands.
- Umalloc.Heap.Malloc: what sbrk returns is a parameter, memory above all granted so far; the model stops where the list would get memory that was not granted; the 32-bit size field is taken to be large enough for the heap, which physical memory guarantees.
- ExitWait: wait's scan of the process table is one step, since nothing it looks at changes without wait_lock; freeing the child's memory is not part of the step.
- Scheduler: fairness (none is intended), interrupts, wfi and the metrics system calls.
- VirtQueue: feature negotiation, interrupt acknowledgement, memory barriers and the contents of requests; the device always reports success, as the driver demands.
- Pipe: sleeping and waking is in `PipeSleep`; copies of one byte through the page table appear as how many bytes can be read or stored.
- Bfs: random numbers, timing and the malloc'ed matrix rows.
- Shell, the rest of mkfs, other user programs, traps, assembly and device registers.
