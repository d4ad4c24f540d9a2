# xv6: file system, scheduler, memory and shell

A model of the hard parts of xv6 (32-bit x86, with a thread lab added) and proofs
about it. Code that updates state in place is modelled by classes, arrays and loops;
each is proved against functions on values, and the theorems are about those
functions, over every input, every run or every interleaving.

- **Redo log** (`RedoLog`, `LogLayout`): logging, the committing header write,
  installation and recovery, with a crash possible between any two sector writes and
  during recovery, any number of times.
- **Buffer cache and disk queue** (`Bcache`, `BcacheRing`, `Ide`, `IdeDriver`): step
  systems of any number of processes, the doubly linked ring and the request queue.
- **Files** (`BlockMap`, `FileData`, `FileOps`, `FsLog`, `Volume`): who owns each
  block, files as byte sequences, truncation, and how much a write logs.
- **Link counts** (`Links`, `LinkCalls`).
- **Scheduler** (`Sched`, `ProcTable`, `Orphans`, `OrphanRun`): scheduling, interrupts,
  sleep and wakeup, exit and wait as a step system of any number of CPUs and processes.
- **User heap** (`FreeList`, `HeapSpace`, `Umalloc`): the circular, coalescing free
  list.
- **Page tables** (`PageTables`, `FreeVm`, `PageCounts`, `AddressSpaces`): ownership of
  physical pages, `freevm` and `copyuvm`, and how many pages they take and give back.
- **Shell** (`ShellGrammar`, `ShellLex`, `ShellPrint`, `Shell`, `ShellTerminate`): the
  parser, its round trip with a printer, and termination of words in the input buffer.
- **Pattern matcher** (`Grep`) and **pipe** (`PipeBuffer`, `PipeRuns`).

What a panic stops in the source is a result value here (`TooBig`, `OutOfBlocks`,
`NoBuffers`, a false flag), and the contracts say exactly when it comes about.
Interrupts, crashes and scheduling decisions are actions chosen freely in the step
systems. Sleeping is a state; a woken process takes the lock and looks again.

## Findings

Where the code does not do what one might expect, the model follows the code.

- A killed writer that has filled a pipe returns without waking readers
  (`pipe.c:85-88`). `PipeRuns.SleepersStep` says that this is the only step that breaks
  the condition on sleepers, `PipeRuns.KillStrandsReader` gives a run.
- `deallocuvm` strides over mapped pages when it starts inside a 4 MB stretch that has
  no table (`vm.c:264`). With [lo, hi) the range in pages and k the first table behind
  lo, it misses the pages from k * 1024 up to the smaller of hi and
  k * 1024 + lo % 1024. `FreeVm.DeallocExact`: it frees every mapped page of its range
  if and only if none of those is mapped. `FreeVm.DeallocMisses` gives a memory where
  one is. `freevm` starts at 0 and is exact.
- `copyuvm` and `setupkvm` lose pages when memory runs out (`vm.c:142-144`, `vm.c:332`).
  Let F be the number of free pages, K one more than the number of directory entries
  that `kmap` covers, and N the number of pages of the parent, all but page 0 mapped. A
  kernel part, and with it every free page, is lost if and only if 0 < F < K. A page is
  lost if and only if N > 1 and F - K is 1 or 1025 * i for some i >= 1 with 1024 * i < N:
  the contract of `AddressSpaces.Memory.Copyuvm`, with N the first page not mapped where
  there is one. `AddressSpaces.CopyLosesPage` gives a memory.
- `malloc` computes its units in 32 bits and wraps for the last seven values of
  `nbytes` (`umalloc.c:69`): `Umalloc.PayloadHolds`.
- `>>` is parsed exactly as `>` (`sh.c:390-395`), and the model does so.
- `fork` makes the child RUNNABLE without holding `ptable.lock` (`proc.c:156-191`); the
  step system includes that write, and the invariant survives it.
- `texit` does not pass on the children of a thread (`proc.c:396-429`). No process has an
  UNUSED or ZOMBIE parent in any run without it (`Orphans.ExitLeavesNoOrphan`); a step
  breaks that if and only if it makes a process with a child a zombie
  (`Orphans.OrphanStep`); `OrphanRun.TexitLeavesOrphan` is a run that leaves a zombie no
  `wait` finds.

## Model

| member | source | states |
|---|---|---|
| `RedoLog.CrashAtomicity` | log.c:68-149 | A history in which every image recovers to a whole number of transactions, as every call of the log leaves it, is cut anywhere; recovery is cut any number of times, then runs through: the home sectors are exactly those after the transactions whose committing header writes had reached the disk at the cut. |
| `RedoLog.Log.Transact` | log.c:124-181 | A whole transaction of any sequence of writes. It must wait exactly if one is open and panics exactly if the writes are too many for the log. For every moment of it and every chain of crashes during recovery, recovery gives exactly the home sectors with all the writes if the committing header write is in that moment, and exactly those before otherwise. |
| `RedoLog.DurableIff` | log.c:135-149 | A moment has the transaction durable if and only if the committing header write is in its past. |
| `RedoLog.OneCommitted` | log.c:135-149 | All or nothing, decided by one header write, for every moment and every chain of crashes. |
| `RedoLog.RecoverySurvivesCrashes` | log.c:115-122 | Any chain of recoveries, each cut after some number of its sector writes, leaves a disk whose complete recovery equals one undisturbed recovery of the first disk. |
| `RedoLog.RecoveryCrashSafe` | log.c:68-82 | Every disk between two writes of an installation still recovers to the same home sectors, because installing is idempotent. |
| `RedoLog.InstallStep` | log.c:74-81 | Copying one log block to its home sector takes the k-th recovery image to the next. |
| `RedoLog.ReplayAbsorb` | log.c:164-173 | Overwriting the one logged copy of a sector is replaying the log and then writing that sector (log absorption). |
| `RedoLog.LoggedReplay` | log.c:159-181 | Logging a sector, as a new entry or by absorption, changes the replayed home sectors at that sector only, and keeps the header free of repeats. |
| `RedoLog.AtomicWithin` | log.c:135-149 | If a history is atomic then so is each earlier moment of it, with no more durable transactions. |
| `RedoLog.Log.ReadsLastLogged` | log.c:159-181 | Inside a transaction a read of a home sector gives the data last logged for it. |
| `RedoLog.Log.Bread` | bio.c:95-105 | A read gives the cached data of a pinned buffer, or else what the disk holds. |
| `RedoLog.Log.Bwrite` | bio.c:107-115 | One sector of the disk changes, and the history gains that image. |
| `RedoLog.Log.WriteHead` | log.c:98-113 | The header write is one sector write; it may only happen when the disk then recovers to the transaction count it announces. |
| `RedoLog.Log.ReadHead` | log.c:84-96 | The header in memory is the header on disk. |
| `RedoLog.Log.InstallTrans` | log.c:68-82 | The log blocks are copied home one sector write at a time; every intermediate disk is a recovery image. |
| `RedoLog.Log.InstallAndErase` | log.c:115-122 | Installing and then erasing the header ends in the fully recovered disk with an empty log. |
| `RedoLog.Log.Reboot` | log.c:54-66 | A crash keeps a disk that some moment of the history had and loses the cache; the transactions that count are those durable at that moment. |
| `RedoLog.Log.RecoverFromLog` | log.c:115-122 | After boot the home sectors are those of the last durable transaction and the log is empty. |
| `RedoLog.Log.BeginTrans` | log.c:124-133 | The caller gets the log exactly if no transaction is open, and else has to sleep; a transaction is open afterwards. |
| `RedoLog.Log.FindSector` | log.c:164-168 | The index of the sector in the header, or the first unused one. |
| `RedoLog.Log.LogWrite` | log.c:159-181 | Panics exactly when the log is full or no transaction is open; otherwise the transaction result changes at that sector, the home sectors on disk do not, and the sector is in the header once. |
| `RedoLog.Log.LogAll` | log.c:159-181 | A sequence of writes goes to the log: no home sector changes, the header has each sector once, and it panics exactly if the distinct sectors before some write fill the log. |
| `RedoLog.Log.CommitTrans` | log.c:135-149 | The transaction becomes durable by one header write, is installed and erased; an empty one writes nothing. |
| `RedoLog.Log.CommitAll` | log.c:135-149 | The end of a transaction makes every moment since its start all or nothing. |
| `LogLayout.WriteHeader` | log.c:98-113 | The header block holds the count and the sectors as little-endian words and keeps its other words. |
| `LogLayout.ReadHeader` | log.c:84-96 | Reads back exactly the sectors that were written. |
| `LogLayout.DataSector` | log.c:68-82 | A data sector write on the raw disk is the same write on the structured disk, and touches no other part of it. |
| `LogLayout.HeaderSector` | log.c:98-113 | Writing the header sector of the raw disk changes the header of the structured disk and nothing else. |
| `LogLayout.HeaderUnique` | log.c:36-39 | A block holds at most one header. |
| `LogLayout.HoldsUnique` | log.c:36-39 | A raw image holds at most one disk of a given shape. |
| `Blocks.SetWord` | fs.c:378-380 | The word written is read back and the other 127 words stay. |
| `Bcache.RunKeeps` | bio.c:61-138 | In every run of any number of processes: places are cached once, clean buffers and uncached places agree with the disk, and unedited valid buffers hold what was last logged or written. |
| `Bcache.OneBuffer` | bio.c:69-79 | No two buffers cache the same device and sector. |
| `Bcache.BreadReturnsLast` | bio.c:95-105 | In every run, bread returns the data last passed to log_write or bwrite for that place, or else the disk contents at the start. |
| `Bcache.PinnedUntilWritten` | bio.c:82-91 | A dirty buffer keeps its place and stays dirty in every run that does not bwrite it: dirty buffers are never recycled. |
| `Bcache.PanicsWhenFull` | bio.c:61-93 | bget panics if and only if the place is not cached and every buffer is busy or dirty. |
| `Bcache.RecycleKeeps` | bio.c:82-91 | Recycling keeps the cache coherent: the buffer was clean, so the place it leaves is safe on disk, and the place it takes was cached nowhere. |
| `Bcache.StepKeeps` | bio.c:61-138 | Every step keeps coherence with respect to the logical disk, and a sleeper in bget waits for a busy buffer. |
| `Bcache.Lookup` | bio.c:69-71 | A buffer of the list with the place, or none has it. |
| `Bcache.LookupIsFirst` | bio.c:69-71 | It is the first one in list order. |
| `Bcache.Victim` | bio.c:83-84 | A buffer of the list that is neither busy nor dirty, or there is none. |
| `Bcache.VictimIsLast` | bio.c:83-84 | It is the last one in list order, the least recently used. |
| `BcacheRing.Cache.Binit` | bio.c:38-56 | All buffers are on the ring, once each. |
| `BcacheRing.Cache.Push` | bio.c:130-133 | Linking in at the head puts the buffer first and keeps the ring. |
| `BcacheRing.Cache.Unlink` | bio.c:127-129 | Unlinking takes out that buffer only and keeps the ring. |
| `BcacheRing.Cache.FindSector` | bio.c:69-79 | Walking next from the head finds what the list lookup finds. |
| `BcacheRing.Cache.FindVictim` | bio.c:82-84 | Walking prev from the head finds the least recently used idle buffer. |
| `BcacheRing.Cache.Bget` | bio.c:61-93 | One pass over the ring does the Get step of the interleaved model. |
| `BcacheRing.Cache.Brelse` | bio.c:118-138 | Panics on a buffer that is not busy; else does the Release step: the buffer is free and most recently used. |
| `BcacheRing.CutRing` | bio.c:127-129 | Two pointer writes take a node out of the doubly linked ring. |
| `BcacheRing.PushRing` | bio.c:130-133 | Four pointer writes put a node after the head. |
| `Ide.QueueRefinesMem` | ide.c:69-155 | Whatever processes and interrupts do, the disk and every answer are those of the synchronous in-memory disk. The requests, each with its buffer as it was when iderw was called, are in the order of the calls the answered ones and then the queued ones. |
| `Ide.IderwReturnsAnswer` | ide.c:149-154 | A process that goes on in iderw finds its buffer as the in-memory disk made it of the buffer that it handed in. |
| `Ide.PendingStep` | ide.c:69-155 | Only the interrupt takes a request from the queue, only a call adds one, and no step changes a queued buffer. |
| `Ide.InterruptIsMem` | ide.c:90-119 | An interrupt does to the disk and to its buffer what one call of the in-memory iderw does. |
| `Ide.StepKeeps` | ide.c:69-155 | The head of the queue is the active request, no buffer is queued twice, and a waiting process has its buffer queued or in sync. |
| `Ide.HeldIsIdle` | ide.c:124-155 | A buffer whose holder is running is not in the queue. |
| `IdeDriver.Driver.FindEnd` | ide.c:140-142 | The walk along qnext ends at the last queued buffer. |
| `IdeDriver.Driver.Iderw` | ide.c:124-149 | The three panics in their exact cases; else the buffer is queued last, and the disk is started if it was idle, as the Submit step says. |
| `IdeDriver.Driver.Ideintr` | ide.c:90-119 | The head of the queue is answered and unlinked and the next request started, as the Interrupt step says; an empty queue is left alone. |
| `BlockMap.OneOwner` | fs.c:356-384 | A block address is kept in one slot only (direct, indirect or indirect entry, over all inodes), and its bit is set. |
| `BlockMap.SomeOwner` | fs.c:356-384 | Every allocated data block is the address at some slot. |
| `BlockMap.BmapKeeps` | fs.c:356-384 | bmap gives the block an address, changes no other data slot of any inode and no other data block, and keeps ownership exact; new blocks are zero. |
| `BlockMap.MapSlotKeeps` | fs.c:363-365 | Allocating for an empty slot keeps every block owned exactly once. |
| `BlockMap.ClaimAt` | fs.c:378-381 | Storing an address changes that slot and no other slot of any inode. |
| `BlockMap.StoreKeeps` | fs.c:478-484 | Changing the data of a file block changes no address and no other block of any file. |
| `BlockMap.FirstFree` | fs.c:59-63 | The first clear bit. |
| `FileData.WriteAllData` | fs.c:478-484 | writei's loop changes the blocks of its own file exactly as the block-level write says, and no other file. |
| `FileData.WriteBlocksBytes` | fs.c:478-484 | Writing piece by piece at an offset is overwriting and extending the byte sequence, and leaves no hole. |
| `FileData.WriteOneBytes` | fs.c:479-481 | One turn writes its piece of bytes at its place and keeps every other byte. |
| `FileData.CutWalks` | fs.c:478-480 | The pieces follow each other from the offset, stay in their blocks and in the largest file, and together are the source. |
| `FileOps.WriteiRefines` | fs.c:462-492 | A completed writei is overwriting and extending the file at off; all other files are as before, blocks are owned once, there are no holes, and the inode on disk is the one in memory. |
| `FileOps.WriteMapped` | fs.c:361-365 | A write within the file changes no inode, so the inode is persisted whenever a block is allocated for it. |
| `FileOps.BmapMapped` | fs.c:356-384 | bmap of a mapped block changes nothing, so reading allocates nothing. |
| `FileOps.TruncatedFiles` | fs.c:391-419 | After itrunc the file is empty, every other file is as before, and the file system is in order. |
| `FileOps.TruncatedOwned` | fs.c:391-419 | Freeing exactly the blocks of one inode keeps every other block owned exactly once. |
| `FileOps.FreeStep` | fs.c:396-411 | A block is still allocated when the loop comes to its slot. |
| `FileOps.ReadPiece` | fs.c:451-456 | A piece of a block is the same piece of the file. |
| `FsLog.ChunkBound` | file.c:132-145 | With a one-sector bitmap a chunk of filewrite, at any offset, logs at most seven distinct sectors, and "too big a transaction" is not reached with ten log blocks. |
| `FsLog.WriteAllLogs` | fs.c:478-484 | writei's loop logs only the bitmap, the indirect block and the blocks it writes. |
| `FsLog.BmapLogs` | fs.c:356-384 | bmap logs at most the bitmap, the new block and the indirect block. |
| `FsLog.CountChunk` | file.c:132-138 | A chunk touches at most four blocks. |
| `FsLog.HeaderCounts` | log.c:164-173 | With absorption the entries of the log header are the distinct sectors logged. |
| `Volume.FileSystem.LogSector` | log.c:159-181 | The sector joins the logged set, and the overflow is noted when nine are in already. |
| `Volume.FileSystem.FindFree` | fs.c:59-63 | The two loops over bitmap sectors and bits find the first clear bit. |
| `Volume.FileSystem.Balloc` | fs.c:52-76 | The first free block is marked and zeroed; none is returned exactly when all bits are set. |
| `Volume.FileSystem.Bfree` | fs.c:78-95 | The bit is cleared and its sector logged; it fails exactly when the bit was clear. |
| `Volume.FileSystem.Bmap` | fs.c:356-384 | Does what the bmap of the model does and returns the address; none exactly when the model runs out of blocks. |
| `Volume.FileSystem.BmapIndirect` | fs.c:367-382 | The same for a block behind the indirect block. |
| `Volume.FileSystem.Readi` | fs.c:434-458 | Refuses exactly a start beyond the end or a wrapping range; else returns exactly the bytes of the file in the range, cut at the end, and changes nothing. |
| `Volume.FileSystem.Writei` | fs.c:462-492 | Refuses exactly a start beyond the end, a wrapping range or too large a file; else overwrites and extends the file, or runs out of blocks. |
| `Volume.FileSystem.WritePieces` | fs.c:478-484 | The loop does the turns of the model in order. |
| `Volume.FileSystem.UpdateSize` | fs.c:486-489 | A file that grew gets its size, in memory and on disk. |
| `Volume.FileSystem.FreeDirect` | fs.c:396-401 | The direct blocks are freed, once each, and their addresses zeroed. |
| `Volume.FileSystem.FreeEntries` | fs.c:403-409 | The blocks of the indirect block are freed, once each. |
| `Volume.FileSystem.Itrunc` | fs.c:391-419 | Never reaches "freeing free block"; exactly the blocks of the inode become free, and the inode is empty in memory and on disk. |
| `Volume.FileSystem.WriteChunk` | file.c:139-145 | One transaction of filewrite overwrites its part of the file and fits in the log. |
| `Volume.FileSystem.Filewrite` | file.c:115-155 | All of the data is written from the offset on, or whole chunks of it up to one that the file cannot take; no transaction is too big. |
| `Links.RunKeeps` | sysfile.c:114-277 | After any calls in linked directories each nlink is the number of entries that name the inode in linked directories without ".", and "." and ".." are the first two entries of each. |
| `Links.CallKeeps` | sysfile.c:114-277 | Each call keeps that. |
| `Links.LinkKeeps` | sysfile.c:134-146 | A new name for a file raises its count by one and no other. |
| `Links.CreateFileKeeps` | sysfile.c:253-273 | A new file has one link. |
| `Links.CreateDirKeeps` | sysfile.c:262-273 | A new directory has one link, and its ".." adds one to its parent. |
| `Links.UnlinkFileKeeps` | sysfile.c:203-222 | Erasing a name lowers the count of the file by one and no other. |
| `Links.UnlinkDirKeeps` | sysfile.c:198-222 | Unlinking an empty directory brings its count to exactly zero and takes its ".." off its parent's. |
| `Links.EmptyHasOneLink` | sysfile.c:162-176 | An empty directory is named once, by its parent. |
| `Links.ParentStaysLinked` | sysfile.c:206-209 | A directory that loses a subdirectory keeps a link. |
| `Links.Found` | sysfile.c:190-197 | What unlink finds has at least one link, so "unlink: nlink < 1" is not reached. |
| `Links.ReclaimKeeps` | fs.c:316-336 | Freeing an inode without links keeps the counts. |
| `Links.FreshInv` | fs.h:12-12 | The root directory alone, naming itself by its two dots, satisfies the counts. |
| `Links.Lookup` | fs.c:514-526 | The first used entry with the name, or none has it. |
| `Links.Slot` | fs.c:545-550 | The first unused entry, or the end. |
| `LinkCalls.Inodes.Dirlookup` | fs.c:505-529 | The loop finds what the lookup of the model finds. |
| `LinkCalls.Inodes.Dirlink` | fs.c:531-559 | Fails exactly if the name is there; else the first unused entry gets it. |
| `LinkCalls.Inodes.Isdirempty` | sysfile.c:162-176 | True exactly if all entries after the first two are unused. |
| `LinkCalls.Inodes.Ialloc` | fs.c:174-198 | The first free inode, or none. |
| `LinkCalls.Inodes.SysLink` | sysfile.c:114-160 | Does the link call of the model; on every failure, undo path included, the state is as before. |
| `LinkCalls.Inodes.SysUnlink` | sysfile.c:179-232 | Does the unlink call of the model and never panics; a failure changes nothing. |
| `LinkCalls.Inodes.CreateInode` | sysfile.c:234-277 | Does the create call of the model; panics exactly when no inode is free. |
| `LinkCalls.Inodes.MakeDots` | sysfile.c:266-268 | A new directory gets "." and ".." as its first two entries. |
| `Sched.RunInv` | proc.c:356-639 | Every state of every run, with any number of CPUs and processes and interrupts wherever they are on, satisfies the scheduling invariant. |
| `Sched.RunningIsCurrent` | proc.c:484-515 | With ptable.lock free a process is RUNNING if and only if it is current on a CPU, and then on one only. |
| `Sched.NoLostWakeup` | proc.c:572-639 | If wakers change the condition and call wakeup under its lock, nobody sleeps on a true condition while both locks are free. |
| `Sched.NoZombieMissed` | proc.c:356-474 | With ptable.lock free nobody asleep in wait has a ZOMBIE child. |
| `Sched.SchedNeverPanics` | proc.c:519-537 | At swtch the checks of sched hold and no other lock is held; the scheduler resumes only parked processes that have not exited. |
| `Sched.MutualExclusion` | spinlock.c:25-69 | Of all processes, scheduler threads and interrupt handlers, no two ever hold the same lock, ptable.lock or another. |
| `Sched.StepKeeps` | proc.c:356-639 | Every step of scheduler, sleep, wakeup, yield, exit, texit, wait, kill and fork keeps the invariant. |
| `Sched.BootInv` | proc.c:100-128 | The state after boot satisfies the invariant. |
| `Sched.WakeupKeeps` | proc.c:607-639 | wakeup keeps the invariant. |
| `Sched.SleepUnlockKeeps` | proc.c:584-590 | Taking ptable.lock before releasing the caller's lock keeps the invariant. |
| `Sched.ExitAdoptKeeps` | proc.c:379-391 | Passing children to init, and waking init for a dead one, keeps the invariant. |
| `Sched.WaitScanKeeps` | proc.c:439-472 | wait's scan reaps, sleeps or gives up without losing a zombie. |
| `Sched.KillKeeps` | proc.c:644-662 | kill keeps the invariant. |
| `Sched.InterruptsKeep` | spinlock.c:97-121 | Interrupts may go on or off on a CPU that holds no lock (ncli 0). |
| `Sched.DeliverKeeps` | trap.c:36-111 | An interrupt comes only to a CPU that holds no lock: an idle scheduler, or a process outside proc.c or between the two locks at the end of sleep. Entering the handler keeps the invariant. |
| `Sched.HandlerCallKeeps` | trap.c:50-73 | A handler that takes and drops locks, makes conditions true or starts a wakeup keeps the invariant. |
| `Sched.HandlerWakes` | proc.c:622-629 | wakeup by a handler keeps the invariant. |
| `Sched.HandlerYieldKeeps` | trap.c:103-106 | yield by the timer interrupt for the process it interrupted keeps the invariant. |
| `Sched.HandlerEndKeeps` | trap.c:108-111 | The return from a handler that has dropped its locks keeps the invariant. |
| `Orphans.OrphanStep` | proc.c:356-429 | If no process has an UNUSED or ZOMBIE parent, a step breaks that if and only if it makes a process with a child a zombie. |
| `Orphans.ExitLeavesNoOrphan` | proc.c:356-393 | In every state of every run without texit, no process has an UNUSED or ZOMBIE parent. |
| `Orphans.AdoptKeeps` | proc.c:379-387 | Passing the children to init leaves none behind and orphans nobody. |
| `OrphanRun.TexitLeavesOrphan` | proc.c:396-429 | A run from boot: a process forks a child and calls texit, the child exits, init waits. The child is a zombie whose parent has an unused slot, and no live process finds it in wait. |
| `OrphanRun.SmallMachine` | proc.c:100-128 | There is a state after boot for that run to start from. |
| `ProcTable.Wakeup1` | proc.c:609-618 | The loop makes exactly the sleepers on the channel RUNNABLE. |
| `ProcTable.PassChildren` | proc.c:381-387 | The loop passes exactly the children of the exiting process to init. |
| `ProcTable.ScanChildren` | proc.c:442-463 | The loop finds the first zombie child, or says whether there are children. |
| `ProcTable.FindState` | proc.c:58-97 | The loop finds the first process in a state. |
| `FreeList.InsertWf` | umalloc.c:29-43 | Freeing into a gap, merging with the neighbours it touches, keeps the list address-ordered, disjoint and never adjacent. |
| `FreeList.InsertCovers` | umalloc.c:29-43 | The free memory grows by exactly the freed block. |
| `FreeList.TakeWf` | umalloc.c:75-83 | Taking a block or its tail keeps the list in order. |
| `FreeList.TakeCovers` | umalloc.c:75-83 | The free memory shrinks by exactly the block handed out. |
| `FreeList.FreeUndoesMalloc` | umalloc.c:24-90 | Freeing what was just allocated restores the free list exactly. |
| `HeapSpace.FreePartition` | umalloc.c:24-44 | free keeps free and live blocks a partition of the memory obtained from sbrk. |
| `HeapSpace.TakePartition` | umalloc.c:75-83 | malloc keeps it. |
| `HeapSpace.GrowPartition` | umalloc.c:46-61 | morecore extends it by exactly the new region. |
| `Umalloc.PayloadHolds` | umalloc.c:69-69 | The units computed in 32-bit arithmetic hold nbytes if and only if the sum does not wrap. |
| `Umalloc.StopsAtPred` | umalloc.c:30-32 | The loop condition of free stops at the block below the freed one and nowhere else. |
| `Umalloc.Heap.FindGap` | umalloc.c:30-32 | The search ends within one circuit, at the last block below. |
| `Umalloc.Heap.Relink` | umalloc.c:33-42 | The pointer and size updates merge or link the block as the list model says. |
| `Umalloc.Heap.Free` | umalloc.c:24-44 | The block leaves the live ones and joins the free list; the heap stays valid. |
| `Umalloc.Heap.Sbrk` | umalloc.c:54-56 | Memory grows by the request, or it is as it was; it may fail at any time. |
| `Umalloc.Heap.Morecore` | umalloc.c:46-61 | One sbrk; the new region joins the list, and some block is then large enough, even after merging at freep. |
| `Umalloc.Heap.Turn` | umalloc.c:74-87 | One circuit finds the first block behind freep that is large enough, if and only if there is one. |
| `Umalloc.Heap.Serve` | umalloc.c:74-85 | One circuit allocates from the first fitting block behind freep, or leaves all as it is if none fits. |
| `Umalloc.Heap.AllocUnits` | umalloc.c:74-89 | morecore is called at most once per request, and the circuit after it finds a block. |
| `Umalloc.Heap.Carve` | umalloc.c:75-83 | The first fitting block behind freep gives away its tail, or all of itself. |
| `Umalloc.TakeLinks` | umalloc.c:75-83 | The links after unlinking or shortening a block are those of the shorter list. |
| `Umalloc.Heap.Malloc` | umalloc.c:63-90 | At most one sbrk; the result is a new live block of the units asked for, taken from the first block behind freep that fits if one does, and zero only if none fits. |
| `PageTables.TakeInv` | kalloc.c:82-95 | kalloc hands out a page that was in use nowhere, and changes no mapping. |
| `PageTables.KfreeInv` | kalloc.c:59-77 | Freeing a page that is in no address space changes no mapping and keeps pages conserved. |
| `PageTables.TakenIsFree` | kalloc.c:82-95 | The page handed out has no owner and is off the list. |
| `PageTables.NewTableInv` | vm.c:56-63 | A new page table changes no mapping of any address space. |
| `PageTables.MapUser` | vm.c:70-92 | Mapping a fresh user page changes that entry only; it fails exactly when a table is missing and memory is out, and never remaps. |
| `PageTables.MapKernel` | vm.c:70-92 | The same for a kernel page, which is owned by no address space. |
| `PageTables.NewRootInv` | vm.c:136-138 | A new directory maps nothing. |
| `PageTables.Intact` | vm.c:45-65 | The directory and tables of a live address space are never freed pages. |
| `FreeVm.GiveOne` | vm.c:265-272 | The page freed was not free, its table still stands, and exactly its entry is cleared. |
| `FreeVm.DeallocExact` | vm.c:251-275 | deallocuvm frees every mapped page of its range if and only if none of the pages its scan misses is mapped. |
| `FreeVm.ScanExact` | vm.c:260-264 | Of the pages of the range that have a table, the scan misses exactly those at the start of the first table behind lo, before the offset of lo in its own 4 MB stretch, and only if that stretch has no table. |
| `FreeVm.MissedInterval` | vm.c:260-264 | The missed pages are those from k * 1024 up to the smaller of hi and k * 1024 + lo % 1024, where k is the first table behind lo. |
| `FreeVm.DeallocMisses` | vm.c:263-264 | An address space in which a mapped page is missed. |
| `PageCounts.MapTakes` | vm.c:45-65 | mappages of a page takes one free page exactly if the table is missing, and then the table is there. |
| `PageCounts.NoTableLeft` | vm.c:329-333 | Where the last free page goes to a page whose table is missing, the count of pages left after the kernel part is 1 or 1025 * i with 1024 * i below the number of pages to copy. |
| `PageCounts.NoPageLeft` | vm.c:329-330 | Where no free page is left for a page, the count is none of these. |
| `FreeVm.GoneInv` | vm.c:279-294 | After freevm the other address spaces have the same tables and mappings and pages are conserved. |
| `AddressSpaces.Memory.Freerange` | kalloc.c:45-52 | Exactly the pages of the range become free. |
| `AddressSpaces.Memory.Kalloc` | kalloc.c:82-95 | The first free page, or none exactly if the list is empty. |
| `AddressSpaces.Memory.FreePage` | kalloc.c:59-77 | The page is junk and first on the free list. |
| `AddressSpaces.Memory.MapOne` | vm.c:45-65 | One page of mappages with walkpgdir. |
| `AddressSpaces.Memory.MapRegion` | vm.c:70-92 | mappages of a row of kmap maps all of it exactly if there are pages for the missing tables, else a prefix, and no page is left; nothing else changes. |
| `AddressSpaces.Memory.MapRows` | vm.c:141-144 | All rows are mapped if and only if there are as many free pages as directory entries that kmap covers. |
| `AddressSpaces.Memory.Setupkvm` | vm.c:129-146 | It succeeds if and only if there are K free pages, one for the directory and one for each directory entry that kmap covers; then it takes exactly those, and the address space has the kernel's mappings and no user page. With fewer than K, but some, all free pages are lost. |
| `AddressSpaces.Memory.Deallocuvm` | vm.c:251-275 | Exactly the pages the scan comes to are freed, each once, and their entries cleared; no freed table is read. All mapped pages of the range are freed if and only if none of those missed is mapped. |
| `AddressSpaces.Memory.FreeTables` | vm.c:287-292 | The tables are freed, each once, while the directory still stands. |
| `AddressSpaces.Memory.Freevm` | vm.c:279-294 | The free list gains exactly the user pages, the tables and the directory of the address space, each once; all else is untouched. |
| `AddressSpaces.Memory.Walk` | vm.c:45-65 | The entry of the page; a page without a table has none. |
| `AddressSpaces.Memory.CopyPage` | vm.c:322-334 | One page is copied into a fresh page with the same flags, or memory is out for the page or for its table. |
| `AddressSpaces.Memory.CopyPages` | vm.c:322-334 | The loop of copyuvm: where it ends, and how, follows from the number of free pages, K, and the first page that is not mapped. |
| `AddressSpaces.Memory.Copyuvm` | vm.c:311-340 | On success every page of [PGSIZE, sz) has the same bytes and flags in a page that was free, page 0 and all others are unmapped, the parent is unchanged; on failure all pages come back, except one page when its table found no memory and an unfinished kernel part. Each result comes if and only if a condition on the number of free pages, K and the number of mapped pages holds. |
| `AddressSpaces.CopyLosesPage` | vm.c:332-339 | A memory in which copyuvm loses a page. |
| `AddressSpaces.UndoneFree` | vm.c:337-339 | With the same address spaces the same pages are free, but for the lost ones. |
| `ShellPrint.RoundTrip` | sh.c:267-448 | Printing any well-formed command tree and parsing the text gives the tree back. |
| `ShellGrammar.TokenRoundTrip` | sh.c:329-448 | The same on tokens. |
| `ShellPrint.LexSpell` | sh.c:267-310 | The text of a token list is read back as that list. |
| `ShellGrammar.ParseLine` | sh.c:346-361 | Terminates on every input, and leaves no more tokens than it was given. |
| `ShellGrammar.ParsePipe` | sh.c:363-374 | Terminates on every input, and leaves no more tokens than it was given. |
| `ShellGrammar.ParseExec` | sh.c:401-448 | Terminates on every input, and leaves no more tokens than it was given. |
| `ShellGrammar.ParseArgs` | sh.c:425-443 | Terminates on every input, and leaves no more tokens than it was given. |
| `ShellGrammar.ParseRedirs` | sh.c:376-399 | Terminates on every input, and leaves no more tokens than it was given. |
| `ShellLex.ParseAllText` | sh.c:329-344 | Parsing depends on words only through their text. |
| `ShellLex.TokenAt` | sh.c:275-305 | Every token takes at least one character. |
| `Shell.Parser.GetToken` | sh.c:267-310 | Returns the next token of the input and its span, and advances past it; the end is the null character. |
| `Shell.Parser.Peek` | sh.c:312-322 | Skips blanks and says whether the next token is one of the given symbols. |
| `Shell.Parser.ParseRedirList` | sh.c:376-399 | Parses what the grammar's redirections say. |
| `Shell.Parser.ParseBlock` | sh.c:401-415 | Parses what the grammar's block says. |
| `Shell.Parser.ParseArgLoop` | sh.c:425-443 | Parses what the grammar's arguments say, up to nine. |
| `Shell.Parser.ParseExecAt` | sh.c:417-448 | Parses what the grammar's command says. |
| `Shell.Parser.ParsePipeAt` | sh.c:363-374 | Parses what the grammar's pipeline says. |
| `Shell.Parser.ParseLineAt` | sh.c:346-361 | Parses what the grammar's line says. |
| `Shell.Parser.ParseCmd` | sh.c:329-344 | The cursor-based parser gives the tree the grammar gives, or the same failure. |
| `ShellTerminate.NulTerminate` | sh.c:450-495 | Writes a terminator at the end of every word of the tree and nowhere else. |
| `ShellTerminate.CutKeepsWords` | sh.c:450-495 | After that every word, read as a C string, is the slice the parser recognised. |
| `ShellTerminate.ParseCmdInPlace` | sh.c:329-344 | Parse and terminate in the buffer: the tree of the grammar, with every word intact; a failure leaves the buffer alone. |
| `ShellTerminate.TreeOk` | sh.c:267-448 | Every word of a parsed tree is a run of word characters of the input that ends where no word character follows. |
| `Grep.Match` | grep.c:71-81 | True if and only if some suffix of the text, or the text itself after ^, has a prefix in the language of the pattern. |
| `Grep.MatchHere` | grep.c:83-95 | True if and only if a prefix of the text is in the language of the pattern. |
| `Grep.MatchStar` | grep.c:97-105 | True if and only if a prefix of the text is in the language of c* followed by the pattern. |
| `Grep.MatchSplit` | grep.c:83-95 | A match splits into a piece for the first item and a match of the rest. |
| `Grep.MatchesStar` | grep.c:97-105 | The language of a starred item, unrolled. |
| `PipeRuns.PipeSafety` | pipe.c:58-120 | In every run bytes read followed by bytes buffered are the bytes written; without kills a sleeping reader has an empty pipe that is open for writing, and a sleeping writer a full one that is open for reading. |
| `PipeRuns.SleepersStep` | pipe.c:58-120 | A step keeps the condition on sleepers if and only if it is not a killed writer returning early from a pipe it has filled. |
| `PipeRuns.KillStrandsReader` | pipe.c:83-88 | A run in which such a writer leaves a reader asleep on a full pipe. |
| `PipeRuns.RunFifo` | pipe.c:76-120 | First in, first out over whole runs. |
| `PipeBuffer.Ring.Tests` | pipe.c:84-105 | The counter tests for full and empty are right even after the counters wrap. |
| `PipeBuffer.Ring.Put` | pipe.c:92-92 | The byte is buffered last. |
| `PipeBuffer.Ring.Get` | pipe.c:115-115 | The oldest byte is taken. |
| `PipeBuffer.Ring.WriteBurst` | pipe.c:83-93 | Bytes are buffered in order until the request is done or the pipe is full. |
| `PipeBuffer.Ring.ReadBurst` | pipe.c:112-116 | The oldest bytes are taken in order, as many as asked for or there are. |
| `PipeBuffer.WrapIndex` | pipe.c:92-92 | Since 512 divides 2^32, a wrapped counter indexes the same place. |

## Left out

- Hardware: port I/O, device errors, boot, traps, `swtch` and the assembly files; `swtch`, `xchg`, `cli` and `sti` are single steps.
- The thread lab: `thread_yield`, `tsleep`, `twakeup`, `queue2`, semaphores and the address-space lifetime of `clone`d threads, which share a page directory without a count.
- `exec.c`, `syscall.c`, `trap.c`, `console.c`, `mkfs.c` and the small user programs: argument fetching, loading, dispatch and I/O.
- Path walking (`namex`, `skipelem`) and the inode cache (`iget`, `ilock`, `idup`): the directory calls start from inodes already found; references are represented by the choice of when `iput` drops the last one.
- `allocuvm`, `loaduvm`, `inituvm`, `copyout`, `clearpteu`: they would add easy members to `mappages`.
- `vm2.c`, `exec2.c`, `kalloc2` and `kfree2`: near copies.
- Device inodes in `readi` and `writei`: the driver's own read and write.
- The bytes of the bitmap and of the inode blocks: bits and inodes are values; the log header and the indirect block are modelled as bytes.
- Range checks of `kfree` and the check of `deallocuvm` for page 0: pages are numbered, so every number is a page.
- `runcmd` and `grep`'s line buffering.
- RedoLog.Log.Transact: the sectors written are home sectors, as for RedoLog.Log.LogWrite.
- RedoLog.Log.LogWrite: assumes that home sectors lie below `log.start`, which the bitmap does not ensure; sectors are found by scanning a header whose count is at most ten.
- Sched.NoLostWakeup: is for wakers that change the condition and call `wakeup` under the condition's lock, as the callers in the kernel do.
- Sched.RunInv: a CPU serves one interrupt at a time, with interrupts off; a killed process that a handler finds in user space exits by its own call.
- Sched.KillKeeps: the process is given rather than searched for by its number.
- PipeRuns.PipeSafety: the condition on sleepers is for runs without kills, since it fails otherwise.
- Links.RunKeeps: is for calls whose directory is still linked; counts are integers, not 16 bits wide, and a directory does not outgrow the largest file.
- Umalloc.Heap.Malloc: is for requests whose size in bytes fits the argument of `sbrk`; the heap lies above `base`.
- AddressSpaces.Memory.Deallocuvm: is for ranges below KERNBASE, which is what its callers pass.
- FsLog.ChunkBound: is for a bitmap of one sector, that is, for disks of up to 4096 blocks.
- Bcache.RunKeeps: callers change data only in a buffer they hold, and log or write it before they release it; crashes are in the log model.
- Ide.QueueRefinesMem: one interrupt per request and no device errors.
- RedoLog.Log.Bwrite: the buffer is the one just read and held, so the panic for a buffer that is not busy does not occur.
- Volume.FileSystem.LogSector: is called inside a transaction only, so the panic outside one is in RedoLog.Log.LogWrite alone.
- LinkCalls.Inodes.Ialloc: finds the inode; marking it allocated is part of LinkCalls.Inodes.MakeInode.
- Umalloc.Heap.Sbrk: does not say when there is memory, which is up to the kernel.
