# xv6-riscv in Dafny

This project models the parts of xv6 (the RISC-V version) that are hardest to get
right and proves what they promise: the write-ahead log and the buffer cache, the
file system's block map, file contents, directories and paths, page tables and the
page allocator, the user-level allocator, the process protocol, the virtio disk
driver, grep's matcher and the shell's parser.

Code that updates data in place is a class with those fields, or a method with the
loops of the source; protocols among several threads, CPUs or devices are state
machines whose theorems are about every run. `dafny verify dfyconfig.toml` checks
everything.

## The parts

- **Log and buffer cache.** `LogFormat` is the on-disk log and what recovery makes of
  a disk. `Log` is `kernel/log.c` on one thread, with every disk that exists after
  each block write. `LogMachine` interleaves any number of threads, the buffer cache,
  commits and crashes; `LogTheorems` proves crash safety over every run of it.
  `LogProgress` shows that commits and recoveries can finish. `LogBudget` is about log
  space, `LogFill` about buffers for the commit itself and `LogSpace` about log space in
  the full machine. `Bcache` is the cache's linked list and its eviction order.
- **File system.** `Bitmap`, `FsFormat`, `FsSteps` and `FsTrunc` say what the free map,
  inodes and indirect blocks mean and how elementary changes keep that meaning; `Fs`
  has the operations. `FsDisk` is the inode on disk and what an operation gives to
  log_write, `Layout` the records on disk byte for byte. `Names` and `Dir` treat directories as finite maps, `Path` walks them,
  `Sysfile` creates files in them, and `FileWrite` cuts writes into operations that fit
  the log. `FsCrash` puts the operations on the log: what a crash leaves of them.
- **Virtual memory.** `PageTable` ties the three-level tree to a flat map, following
  section 4.4 of the RISC-V Instruction Set Manual Volume II, Privileged Architecture.
  `AddressSpace`, `TearDown` and `NewSpace` are about what operations do to all maps
  and to the owner of every page; `Vm` has the operations.
- **User allocator.** `Umalloc` is the circular free list of section 8.7 of The C
  Programming Language, second edition.
- **Processes.** `ProcMachine` is the step machine, `ProcInvariant` what it keeps,
  `ProcFrame`, `ProcSteps` and `ProcLife` the proof, `ProcTheorems` the results.
  `ProcWait` is about whom wait waits for, `ProcCalls` about what a call has done when it
  returns, `ProcHistory` about what changes what, `ProcProgress` about who can go on,
  `ProcSolo` about what each call does when nobody interferes, `ProcCycle` about the life
  of a child.
- **Disk driver.** `Virtio` and `VirtioMachine` follow sections 2.6 and 5.2 of Virtual
  I/O Device (VIRTIO) Version 1.1; `VirtioHistory` follows each request through a run,
  `VirtioProgress` shows that it can come to its end.
- **Programs.** `Grep` is the matcher. `ShellGrammar` is the grammar of command lines and
  the parser on tokens, `Shell` the parser on characters and nulterminate. `ShellText`
  reads a command's tree back against the characters of the line.

## Results about the code as it stands

- The shipped disk image has a log of LOGSIZE blocks, but a log of LOGSIZE + 1 blocks
  is what `begin_op` counts on: `LogBudget.LogSizeExact` shows that a run in which
  every operation keeps to its budget can reach the panic in `log_write` exactly if
  the log has at most LOGSIZE blocks, and `LogSpace.PanicExact` shows it for the machine
  with threads, buffers, commits and crashes.
- `log_write` tests for a full log before it looks whether the block is already in it,
  so an operation that only rewrites a block it has logged can panic, on the shipped
  image as on every log of at least two blocks (`LogBudget.AbsorptionCanPanic`).
- NBUF equals LOGSIZE, so LOGSIZE logged blocks would pin every buffer and leave
  `write_log` none to read a log block into. On the shipped image this cannot happen
  (`LogFill.ShortLogSpares`); it can as soon as the log has the LOGSIZE + 1 blocks that
  `begin_op` counts on (`LogFill.StarvedExact`).
- The comment of `uvmdealloc` says that `oldsz` can be larger than the process; the
  code then panics in `uvmunmap`. `Vm.Vm.Uvmdealloc` says exactly when;
  `Vm.DeallocBeyondSize` is such a call.
- `dirlink` stores the inode number in 16 bits, so a number that is a multiple of
  65536 makes a free entry and binds nothing. `Dir.Dirlink` says exactly when;
  `Dir.LinkLost` is such a call.

## Model

| member | source | states |
|---|---|---|
| LogFormat.HeadRoundTrip | kernel/log.c:87-112 | reading a header that was written gives the same block list back |
| LogFormat.RecoverySound | kernel/log.c:69-123 | if a disk recovers to a target, the disk after recovery has the target's home blocks |
| LogFormat.RecoveryComplete | kernel/log.c:69-123 | conversely, the home blocks after recovery are the only target a good disk recovers to |
| LogFormat.RecoveredHome | kernel/log.c:69-123 | recovering to a target is the same as having its home blocks after recovery |
| Log.LoggingIsInvisible | kernel/log.c:179-191 | while blocks are copied into the log, a crash still recovers to the old contents |
| Log.HeaderCommits | kernel/log.c:103-114 | the single write of the header makes a crash recover to the new contents |
| Log.InstallingIsInvisible | kernel/log.c:69-83 | a crash after any number of installed blocks recovers to the same contents |
| Log.ErasingIsInvisible | kernel/log.c:194-203 | erasing the header after installing changes nothing that recovery yields |
| Log.RepeatedCrashes | kernel/log.c:117-123 | however often recovery is itself interrupted, the one that completes yields the committed contents |
| Log.Log.LogWrite | kernel/log.c:215-235 | the block is listed once and pinned, or the call panics exactly when the log is full or no operation runs |
| Log.Log.WriteLog | kernel/log.c:179-191 | the disk after each write of the loop |
| Log.Log.WriteHead | kernel/log.c:103-114 | exactly one block write, of the header |
| Log.Log.ReadHead | kernel/log.c:87-97 | the in-memory list is the one on disk |
| Log.Log.InstallTrans | kernel/log.c:69-83 | the disk after each write of the loop, and at the end |
| Log.Log.RecoverFromLog | kernel/log.c:117-123 | every disk on the way is a recovery point and the last one is the recovered disk |
| Log.Log.Commit | kernel/log.c:194-203 | a crash after any of the first n writes recovers to the old contents, after any later one to the new contents |
| LogTheorems.StepKeepsInv | kernel/log.c:127-235 | every step of every thread, of the commit and of a crash keeps the invariant |
| LogTheorems.RunKeepsInv | kernel/log.c:127-235 | so does every run |
| LogTheorems.CrashSafety | kernel/log.c:127-235 | in every run, what recovery yields is the effect of a prefix of whole operations |
| LogTheorems.DurableForever | kernel/log.c:127-235 | whatever steps and crashes follow, a later recovery yields what recovery would yield now, changed by whole operations only |
| LogTheorems.EndOpDurable | kernel/log.c:147-175 | when the commit returns, its operation and all before it are durable and installed |
| LogTheorems.IdleIsDurable | kernel/log.c:147-175 | the last end_op commits: in every run, with no operation open and no commit under way, every operation is durable and recovery yields all of them |
| LogTheorems.CommitAlone | kernel/log.c:127-175 | while committing, no operation is outstanding; outstanding counts the operations |
| LogTheorems.ReadsSeeLatest | kernel/bio.c:97-108 | a valid buffer at rest holds the latest logged contents of its block |
| LogTheorems.PinnedNeverRecycled | kernel/bio.c:62-162 | refcnt is holders plus waiters plus one pin; a logged block keeps its buffer |
| LogTheorems.PinsKeepRefs | kernel/bio.c:150-162 | in every run bpin meets a referenced buffer and bunpin leaves one, so only brelse takes a buffer to refcnt 0 and the eviction order is its order |
| LogTheorems.BreadInCommit | kernel/log.c:179-191 | bread in write_log gives the modified data, never the stale disk copy |
| LogTheorems.SpareBufferExact | kernel/log.c:179-191 | during the copy, if no thread uses a buffer, a free buffer is left exactly if fewer than NBUF blocks are logged |
| LogProgress.CommitCanFinish | kernel/log.c:69-203 | whenever a commit or recovery is under way, no thread uses a buffer and not all are pinned, the committer's own steps can end it, with the history as it was and all of it durable |
| LogFill.ShortLogSpares | kernel/log.c:215-235 | on a log of at most LOGSIZE blocks no run lists as many blocks as there are buffers |
| LogFill.StarvedExact | kernel/log.c:127-191 | three operations within their budgets can leave write_log without a buffer, with no thread using one, exactly if the log has more than LOGSIZE blocks |
| LogSpace.FreshBlockEnabled | kernel/log.c:127-235 | in every run of threads, commits and crashes on a log of more than LOGSIZE blocks, with every operation within its budget, log_write of a block new to its operation does not panic |
| LogSpace.PanicExact | kernel/log.c:127-235 | from power-on with a clean log such a panic can be reached if and only if the log has at most LOGSIZE blocks |
| LogBudget.RunFits | kernel/log.c:127-142 | the reservation law that begin_op keeps in every run: listed blocks plus what the running operations may still log never exceed LOGSIZE |
| LogBudget.FreshBlockNeverPanics | kernel/log.c:127-142 | with a log of at least LOGSIZE + 1 blocks, logging a block new to its operation never panics |
| LogBudget.CanFill | kernel/log.c:215-235 | operations within their budgets can fill the log to LOGSIZE blocks |
| LogBudget.LogSizeExact | kernel/log.c:215-235 | a run within budget can panic on a new block if and only if the log has at most LOGSIZE blocks |
| LogBudget.AbsorptionCanPanic | kernel/log.c:219-231 | an operation can panic on a block it has already logged if and only if the log has at least two blocks, that is, whenever a block can be logged at all |
| Bcache.UnlinkKeepsCycle | kernel/bio.c:124-146 | taking a node out leaves a doubly linked cycle through the others |
| Bcache.FrontKeepsCycle | kernel/bio.c:124-146 | inserting a node behind the head leaves a doubly linked cycle with it in front |
| Bcache.Bcache.constructor | kernel/bio.c:39-55 | binit links all buffers into one cycle |
| Bcache.Bcache.FindCached | kernel/bio.c:69-77 | finds the buffer of a block exactly if there is one |
| Bcache.Bcache.FindVictim | kernel/bio.c:81-92 | finds the unused buffer released longest ago, if any is unused |
| Bcache.Bcache.Bget | kernel/bio.c:62-93 | the cached buffer with one more reference, else the recycled one; no block is ever in two buffers |
| Bcache.Bcache.Brelse | kernel/bio.c:124-146 | at refcnt 0 the buffer becomes the most recently used; the cycle and the order stay |
| Bitmap.PutGetBit | kernel/fs.c:66-105 | setting or clearing the bit of one block changes no other bit |
| FsDisk.PutGetInode | kernel/fs.c:226-242 | an inode that iupdate stored in its block reads back, and the other inodes of the block stay |
| Layout.InodeBytes | kernel/fs.h:32-39 | an inode is on disk as its C struct is: little-endian fields in the declared order |
| Layout.OtherBytes | kernel/fs.c:226-242 | iupdate changes no byte outside its inode, nor the major and minor numbers in it |
| Layout.HeadBytes | kernel/log.c:35-38 | the same for the log header: the count, then the block numbers |
| Layout.DirentBytes | kernel/fs.h:56-59 | the same for a directory entry: the inode number, then the name |
| Layout.NewDirentBytes | kernel/fs.c:600-603 | the entry dirlink writes: the low 16 bits of the inode number, then the name cut and padded |
| FsFormat.NamedOnce | kernel/fs.c:66-105 | a block in a slot is marked in the free map, and no other slot of any inode names it |
| FsFormat.UsedIsNamed | kernel/fs.c:66-105 | a data-area bit is set if and only if some slot of some inode names the block, and then exactly one does; Valid, which every operation keeps, gives the premises |
| FsSteps.SetSlot | kernel/fs.c:383-421 | storing one slot changes no other slot of any inode, direct or indirect |
| FsSteps.FileKept | kernel/fs.c:383-421 | a file whose slots and blocks are kept has the same bytes |
| Fs.Fs.constructor | mkfs/mkfs.c:237-250 | an empty file system satisfies the invariant, also as it lies on disk |
| Fs.Fs.Iupdate | kernel/fs.c:226-242 | the inode is on disk again, by one write given to log_write; no slot, file or bit of the free map changes |
| Fs.Fs.Balloc | kernel/fs.c:66-88 | a block that was free, now marked and zeroed, or 0 exactly when none is free; all slots read the same |
| Fs.Fs.Bfree | kernel/fs.c:92-105 | clears exactly that bit, or panics exactly if it is clear |
| Fs.Fs.Bmap | kernel/fs.c:383-421 | the block of the file's block, added zeroed if missing; no file changes; 0 only when the disk is full |
| Fs.Fs.Itrunc | kernel/fs.c:426-453 | exactly the inode's blocks become free, bfree never panics, no other file changes |
| Fs.Fs.Readi | kernel/fs.c:472-496 | the slice of the file's bytes at off, and nothing changes |
| Fs.Fs.Writei | kernel/fs.c:506-539 | the first tot bytes are spliced in at off and the size grows to fit, all of them unless the disk fills up, and then at least those within the old size; no other file changes; -1 exactly for a bad range |
| Fs.ReadsBack | kernel/fs.c:472-539 | calls writei and then readi: the bytes written come back where they were written, the old bytes elsewhere, also if the disk filled up midway |
| Fs.Fs.Ialloc | kernel/fs.c:199-220 | a free inode gets the type, or none is free; no file changes |
| Fs.Fs.IputLast | kernel/fs.c:343-359 | the inode and exactly its blocks are free again, no other file changes |
| Names.Namecmp | kernel/string.c:67-74 | compares equal exactly if the names agree up to DIRSIZ bytes or the NUL |
| Names.Strncpy | kernel/string.c:78-88 | the name cut to n bytes and padded with NULs |
| Names.CutPadded | kernel/fs.c:600-601 | a name stored in an entry is found again under the same key |
| Names.MapMeans | kernel/fs.c:552-575 | a directory's map binds a name to the inode number of the first entry in use that has it, and does not bind it exactly if none has |
| Names.LinkedMap | kernel/fs.c:580-606 | writing a free entry for an unbound name adds exactly that binding and keeps names unique |
| Dir.Dirlookup | kernel/fs.c:552-575 | finds a name exactly if the directory's map binds it, and what it is bound to |
| Dir.Dirlink | kernel/fs.c:580-606 | success adds exactly the binding to the low 16 bits of the inode number, and none exactly if these are 0, by writing the first free entry, or a new one only if none is free; failure changes nothing and happens only for a bound name, or with no entry free on a full disk or in a directory of full size |
| Dir.LinkLost | kernel/fs.c:580-606 | dirlink of inode number 65536 leaves the name unbound, also when it reports success |
| Path.CompsExact | kernel/fs.c:608-622 | the components are exactly the longest runs of non-slashes in the path, each once and in order |
| Path.Skipelem | kernel/fs.c:623-645 | takes exactly the first component off, cut to DIRSIZ bytes; fails exactly if there is none |
| Path.ParentIs | kernel/fs.c:652-684 | the parent is where all components but the last lead, and holds what the whole path leads to |
| Path.Namex | kernel/fs.c:652-684 | looks up exactly the components of the path, from the root or the current directory |
| FileWrite.WriteBudget | kernel/file.c:166-174 | one chunk logs at most 7 blocks, within MAXOPBLOCKS, when the free map is one block |
| FileWrite.Filewrite | kernel/file.c:166-192 | the bytes written are spliced in at the offset, in operations of 3072 bytes but for the last, each within the budget; -1 exactly if not all were written |
| Sysfile.Create | kernel/sysfile.c:246-302 | for a free name a new inode with one link and its name in the directory; for a taken name nothing changes, and the file that has it is returned exactly if a file was asked for and it is a file or a device; a failure for a free name, only for lack of an inode or of room, leaves every file, every name and every free inode as it was |
| FsCrash.FreeMapAgrees | kernel/fs.c:66-105 | on a consistent disk a data block is marked if and only if a slot of an inode on that disk names it, and then exactly one does |
| FsCrash.CrashConsistent | kernel/log.c:117-235 | in every run that carries out file-system operations, recovery at any instant yields the file system after a number of whole operations, and that disk is consistent |
| FsCrash.OldOrNew | kernel/log.c:117-235 | when the operations before it are on disk, recovery at any instant yields the file system without the operation or the one with it |
| FsCrash.QuietConsistent | kernel/log.c:117-235 | for operations that overlap: if the file system is consistent whenever no operation is open, it is after every recovery |
| FsCrash.Format | mkfs/mkfs.c:93-110 | an empty file system is consistent as it lies on disk |
| FsCrash.WriteLogged | kernel/file.c:174-186 | what one operation of filewrite gives to log_write takes the old disk to the new consistent one, within the budget |
| FsCrash.FreeLogged | kernel/fs.c:343-359 | the same for freeing an inode and its blocks |
| FsCrash.CreateLogged | kernel/sysfile.c:246-302 | the same for create: the inode and its name become durable together or not at all |
| PageTable.PteRoundTrip | kernel/riscv.h:386-391 | physical page and flags are recovered from an entry |
| PageTable.PXIsIndex | kernel/riscv.h:393-396 | the index macro agrees with the digits of the page number |
| PageTable.LinkKeepsMap | kernel/vm.c:91-101 | adding an empty table changes no translation in any tree |
| PageTable.LeafMap | kernel/vm.c:144-172 | writing a leaf changes the translation of its own page alone, in every tree |
| PageTable.LeafExact | kernel/vm.c:144-172 | an entry written at level 0 keeps the tree well-formed exactly if it is absent or has R, W or X |
| AddressSpace.NoSharing | kernel/vm.c:233-340 | no two address spaces or addresses share a page, and none reaches a free page or a page table |
| AddressSpace.RewrittenUndo | kernel/vm.c:243-252 | removing what was added to an empty range restores every map |
| Vm.Vm.constructor | kernel/kalloc.c:31-45 | after kinit every page is on the free list |
| Vm.Vm.Kalloc | kernel/kalloc.c:76-90 | the first free page, or none exactly if the list is empty |
| Vm.Vm.Kfree | kernel/kalloc.c:52-70 | the page is on the free list, exactly once |
| Vm.Vm.Walk | kernel/vm.c:86-103 | finds the entry of the address or adds the tables for it; no translation changes, whatever the outcome; fails only if fewer than two pages were free |
| Vm.Vm.Walkaddr | kernel/vm.c:109-126 | the physical page exactly if the flat map has a user entry |
| Vm.Vm.Mappages | kernel/vm.c:144-172 | maps exactly the range, page by page to the given physical pages, with the flags of perm and valid, or a prefix when memory runs out; panics on a bad range, and otherwise only for a page beyond MAXVA or one already mapped |
| Vm.Vm.Uvmunmap | kernel/vm.c:178-199 | clears exactly the range and gives exactly its pages back; panics exactly if one was not mapped |
| Vm.Vm.Uvmcreate | kernel/vm.c:204-212 | an address space that maps nothing, out of one free page |
| Vm.Vm.Uvmalloc | kernel/vm.c:233-256 | adds zeroed pages that were free, readable, for the user, and writable or executable exactly as xperm says; when memory runs out, which takes fewer than 3 free pages per page asked for, every map is as before and only page-table pages were taken |
| Vm.Vm.Uvmdealloc | kernel/vm.c:263-274 | unmaps and frees exactly the pages between the sizes |
| Vm.DeallocBeyondSize | kernel/vm.c:258-274 | a call with oldsz beyond the size of the process, which the comment allows, panics |
| Vm.Vm.Uvmcopy | kernel/vm.c:313-340 | every page is copied with its flags, into pages that were free; failure, only if fewer than 3 pages per page to copy were free, restores every map |
| Vm.Vm.Freewalk | kernel/vm.c:279-294 | frees exactly the tables of the subtree; panics exactly if a leaf is left |
| Vm.Vm.Uvmfree | kernel/vm.c:299-304 | the whole tree and its user memory are free, each page once, and nothing else moved; panics exactly if the mappings do not fit sz |
| Vm.Vm.ProcPagetable | kernel/proc.c:177-206 | maps exactly the trampoline, readable and executable and not writable, and the trapframe, readable and writable and not executable, neither for the user; failure, only if fewer than 5 pages were free, returns every page it took |
| Vm.Vm.ProcFreepagetable | kernel/proc.c:211-216 | frees the address space but not the trapframe; when it panics |
| Vm.Vm.Allocproc | kernel/proc.c:124-140 | a trapframe page and an address space; or fewer than 6 pages were free and every page is where it was |
| Vm.Vm.Fork | kernel/proc.c:280-297 | the child has its own copy of the parent's pages and beyond them maps the trapframe, the trampoline and nothing else; failure, only if memory was short, leaves the free list with the same pages as before |
| Umalloc.FreedSorted | user/umalloc.c:25-44 | putting a block back keeps the list in address order with no two blocks adjacent |
| Umalloc.FreedUnits | user/umalloc.c:25-44 | the free units afterwards are the old ones and the block's, no more and no fewer |
| Umalloc.FreedLinked | user/umalloc.c:25-44 | the headers in memory form the cycle of the new list |
| Umalloc.TakenUnits | user/umalloc.c:75-85 | cutting a block conserves the units |
| Umalloc.TakenLinked | user/umalloc.c:75-85 | the headers in memory form the cycle of the new list |
| Umalloc.FreedPartition | user/umalloc.c:25-44 | every unit stays in exactly one of the free list and the live blocks |
| Umalloc.TakenPartition | user/umalloc.c:64-90 | the same for allocation |
| Umalloc.FreeListDetermined | user/umalloc.c:25-90 | the free list has no history: the memory obtained and the live blocks determine it block for block |
| Umalloc.FreeUndoesTake | user/umalloc.c:25-90 | freeing what was just cut off restores the list |
| Umalloc.Heap.Free | user/umalloc.c:25-44 | the block goes to its place in the list, joined with its neighbours; the search ends |
| Umalloc.Heap.Morecore | user/umalloc.c:47-61 | fresh memory joins the list, or sbrk fails and nothing changes |
| Umalloc.Heap.Malloc | user/umalloc.c:64-90 | a block of at least nbytes apart from all live blocks; 0 exactly if no free block fits and sbrk fails; sbrk is not asked if one fits; the search ends |
| ProcTheorems.StepKeeps | kernel/proc.c:280-592 | every step of every process and scheduler keeps the invariant, with preemption wherever no spinlock is held and a committer that sleeps on buffers |
| ProcTheorems.WaiterHasNoZombie | kernel/proc.c:347-435 | in every run, whenever wait_lock is free, a process asleep in wait has no zombie child |
| ProcWait.WaiterHasChild | kernel/proc.c:391-435 | in every run, whoever sleeps in wait has a child |
| ProcWait.WaitOutcome | kernel/proc.c:396-433 | at the end of its scan wait knows exactly whether the caller has a child: it gives up exactly if there is none or the caller has been killed, and may sleep exactly if there is one |
| ProcCalls.CallsServed | kernel/proc.c:347-435 | when a thread is outside these functions, a step since its last call has done what the call was for; exit does not come back |
| ProcHistory.ParentsChange | kernel/proc.c:280-435 | in every run a parent changes only when fork sets it, its exit passes the child to init, or wait frees the child |
| ProcHistory.SleepsUntilWoken | kernel/proc.c:548-616 | in every run a sleeper becomes runnable exactly when wakeup of its channel comes to it or it is killed |
| ProcHistory.LockedExact | kernel/sleeplock.c:22-41 | a sleeplock is held exactly by who took it last and has not released it |
| ProcHistory.LogCounts | kernel/log.c:127-175 | outstanding counts the operations begun and not ended; a commit runs from the end of the last one to its own end; no more than LOGSIZE blocks are listed |
| ProcProgress.NobodyStuck | kernel/proc.c:347-592 | in every run a thread on a CPU can take its next step, or needs a p->lock whose holder can take one, or is in an end_op with no operation open |
| ProcProgress.RunnableRuns | kernel/proc.c:445-508 | an idle CPU can take any runnable process, unless another CPU is just leaving it and can go on |
| ProcSolo.AcquiresleepAlone | kernel/sleeplock.c:22-31 | with nobody in the way, acquiresleep of a free lock ends with the caller holding it and nothing else changed |
| ProcSolo.ReleasesleepAlone | kernel/sleeplock.c:34-41 | releasesleep ends with the lock free and every sleeper on it runnable, nothing else changed |
| ProcSolo.BeginOpAlone | kernel/log.c:127-142 | begin_op with room in the log ends with one operation more and nothing else changed |
| ProcSolo.EndOpAlone | kernel/log.c:147-168 | end_op of one operation among several ends with one less and every process that waits in begin_op runnable |
| ProcSolo.LastEndOpAlone | kernel/log.c:147-164 | end_op of the last operation ends with its caller committing |
| ProcSolo.CommitEndsAlone | kernel/log.c:166-174 | after its commit nobody commits and every process that waits in begin_op is runnable |
| ProcSolo.WaitAlone | kernel/proc.c:391-435 | wait frees exactly the first zombie child, and nothing else changes |
| ProcSolo.WaitWithoutChild | kernel/proc.c:391-435 | wait of a process without children comes back, and nothing changes |
| ProcSolo.ForkAlone | kernel/proc.c:280-325 | fork with a free slot ends with a runnable child of the caller in it and nothing else changed |
| ProcSolo.KillAlone | kernel/proc.c:598-616 | kill can reach every process in use: it is marked, and runnable if it slept |
| ProcSolo.ExitAlone | kernel/proc.c:331-387 | exit ends with the children given to init, the parent, and init if it got any, runnable if they slept in wait, the caller a zombie off its stack and its CPU idle |
| ProcCycle.FreeSlots | kernel/proc.c:156-170 | in every run a free slot is as freeproc leaves it: nothing of its last process is passed on |
| ProcCycle.ChildRoundTrip | kernel/proc.c:280-435 | in every run, with a slot free, a CPU idle and nobody in the way, fork, the child's exit and the parent's wait lead back to exactly the state they started from |
| ProcCycle.Boots | kernel/proc.c:233-254 | for any number of slots and CPUs there is a start, and any CPU can run init from it |
| ProcTheorems.SleeperMeansLocked | kernel/sleeplock.c:22-41 | whenever its spinlock is free, a sleeplock somebody sleeps on is held |
| ProcTheorems.BeginOpSleeperMustWait | kernel/log.c:127-175 | whenever log.lock is free, a process asleep in begin_op has reason to wait |
| ProcTheorems.ReapedIsOff | kernel/proc.c:391-435 | a zombie is freed by its parent, with no CPU on its stack, holding no lock and without children |
| ProcTheorems.ReapedOnce | kernel/proc.c:347-435 | between two reapings of a slot a process in it has exited: no exit is reaped twice |
| ProcTheorems.ZombieStays | kernel/proc.c:347-435 | in every run a zombie, on its kernel stack still or not, stays one until its parent's wait frees it; one that has left its stack stays off |
| ProcTheorems.FreeIsOff | kernel/proc.c:347-435 | in every run no CPU is on the kernel stack of a free slot, no lock is held in its name, and it has no children |
| ProcTheorems.ZombieHasLiveParent | kernel/proc.c:331-341 | every zombie has a parent that is neither free nor a zombie |
| ProcTheorems.OneCpuPerStack | kernel/proc.c:445-508 | no two CPUs are on one kernel stack; a RUNNING process is on a CPU |
| ProcTheorems.SleeplockExclusive | kernel/sleeplock.c:22-41 | from acquiresleep to its own releasesleep a process is the only holder |
| Virtio.Descs.AllocDesc | kernel/virtio_disk.c:157-166 | the first free descriptor, or none is free |
| Virtio.Descs.FreeDesc | kernel/virtio_disk.c:170-182 | frees the descriptor; panics exactly if it is out of range or free |
| Virtio.Descs.FreeChain | kernel/virtio_disk.c:186-197 | frees exactly the three descriptors of the chain, without a panic |
| Virtio.Descs.Alloc3Desc | kernel/virtio_disk.c:202-213 | three different free descriptors, or fewer than three are free and none is taken |
| VirtioMachine.DescriptorsPartition | kernel/virtio_disk.c:157-291 | in every run a descriptor is free or in the chain of exactly one request |
| VirtioMachine.NoEntryOverwritten | kernel/virtio_disk.c:259-266 | no ring entry is filled before it is consumed, across 16-bit wrap-around |
| VirtioMachine.TakeIff | kernel/virtio_disk.c:259-266 | the device sees a new entry exactly if there is one |
| VirtioMachine.IntrIff | kernel/virtio_disk.c:295-327 | the handler sees a new entry exactly if there is one, always with a buffer and a good status |
| VirtioMachine.CompletesOwnRequest | kernel/virtio_disk.c:216-291 | the device moves exactly the request's block to or from the request's buffer |
| VirtioMachine.HandledOnce | kernel/virtio_disk.c:295-327 | no request is completed twice |
| VirtioHistory.CompletedOnce | kernel/virtio_disk.c:216-327 | two completions by the device are never of the same request |
| VirtioMachine.ReturnsHandled | kernel/virtio_disk.c:276-291 | virtio_disk_rw returns only after its own request was handled |
| VirtioHistory.ReturnsServed | kernel/virtio_disk.c:216-327 | a return is preceded by its request's start and by exactly one completion of it: a write has put what the buffer held at the start on the disk, a read has the disk's block in its buffer |
| VirtioProgress.RequestMovesOn | kernel/virtio_disk.c:216-327 | in every run the step that moves a request on, by the device, the handler or its own thread, can be taken |
| VirtioProgress.RequestsCanReturn | kernel/virtio_disk.c:216-327 | every run can go on, without new requests, until all have returned; then every descriptor is free and no buffer has its disk flag set |
| Grep.Matchhere | user/grep.c:85-96 | accepts exactly if some prefix of the text is made up as the pattern says |
| Grep.Matchstar | user/grep.c:99-106 | shortest first loses no match |
| Grep.Match | user/grep.c:73-82 | accepts exactly if the pattern matches somewhere, or at the start after ^ |
| Grep.MeansLonger | user/grep.c:73-106 | a pattern without a final $ that matches also matches a longer text |
| Shell.Gettoken | user/sh.c:267-309 | the token at a position, its kind, its ends and where the next one starts |
| ShellGrammar.LineSound | user/sh.c:346-447 | whatever parseline accepts is derivable in the grammar of job control, pipes, blocks and redirections, with the tree it returns |
| ShellGrammar.LineComplete | user/sh.c:346-447 | every derivable line is accepted with its tree, whatever follows that cannot continue it |
| ShellGrammar.ParserExact | user/sh.c:346-447 | the parser accepts a whole line with a tree if and only if the grammar derives that tree |
| ShellGrammar.Unambiguous | user/sh.c:346-447 | the grammar gives no line two trees |
| Shell.Parseredirs | user/sh.c:376-398 | on characters what Redirs is on tokens: the same files, the same panic, the same tokens left; ShellText.TreeReads says what the files are |
| Shell.Parseexec | user/sh.c:417-447 | on characters what ExecParse is on tokens, panics included |
| Shell.Parseblock | user/sh.c:401-414 | on characters what BlockParse is on tokens, panics included |
| Shell.Parsepipe | user/sh.c:363-373 | on characters what PipeParse is on tokens, panics included; terminates |
| Shell.Parseline | user/sh.c:346-360 | on characters what LineParse is on tokens, panics included; terminates |
| Shell.LineWords | user/sh.c:329-447 | the words and redirection files of a line's tree are exactly its word tokens |
| Shell.WordsExact | user/sh.c:267-309 | the word tokens of a line are exactly its longest runs of characters that are neither white space nor symbols |
| Shell.Nulterminate | user/sh.c:451-494 | in place, a NUL at the end of each word of the tree and no other change |
| Shell.CutKeepsWords | user/sh.c:451-494 | no terminator damages another word |
| Shell.Parsecmd | user/sh.c:329-343 | rejects exactly the lines outside the grammar; otherwise gives the derived tree, puts a NUL at the end of each word and changes no other byte, so that every word reads as a C string |
| ShellText.TreeReads | user/sh.c:267-447 | a line's tree, read from left to right, gives the arguments and the characters for pipe, list and background of the line in order; every redirection has the mode and descriptor of the operator before its file |
| ShellText.Precedence | user/sh.c:346-447 | without parentheses, a pipe takes one command on its left, a background mark all since the last semicolon, and what stands left of a semicolon has none |

## Left out

- Hardware and assembly: CSRs, traps, the PLIC, the MMIO handshake of the disk; swtch is a hand-over step that carries the held p->lock.
- Memory ordering: sequential consistency and atomic lock acquisition are assumed; code that holds only one p->lock is one step.
- LogMachine: a thread changes a buffer only inside an operation and logs the change before it releases the buffer. A copyin that fails part way in writei (kernel/fs.c:522-525) breaks this.
- LogMachine: memmove and bwrite of one block are one step, and so are the block writes themselves.
- Bcache.Bcache.Bget: the panic "bget: no buffers" is a result (None), not shown absent; readers take buffers outside operations.
- File-system operations run one at a time: inode locks and the reference counts of iget and idup are not modelled, and iput is modelled for the last reference to an unlinked inode. FsCrash.QuietConsistent says what operations that overlap would have to keep.
- The major and minor numbers of device inodes: iupdate leaves their bytes as they are.
- Sysfile.Create: the parent directory is given and the type is not T_DIR; link, unlink, mkdir and the rest of kernel/sysfile.c are left out.
- Fs.Fs.Readi: copies to and from user memory succeed, and files have no holes below their size; the root directory that mkfs makes has one if its size is a multiple of BSIZE (mkfs/mkfs.c:166-170).
- Fs.Fs.Writei: the same premises.
- Path.Namex: directories hold whole entries and bind names to allocated inodes only; that link and unlink keep this is not shown. The same for the name that Sysfile.Create looks up.
- FileWrite.Filewrite: one bitmap block (at most BPB blocks) is assumed, as in the shipped image; pipes and devices are left out.
- Link counts and the namespace as a whole: create can add entries to a directory that is already unlinked.
- The kernel's own page table (kvmmake); the kernel's pages count as held. The free list is a sequence rather than links inside the pages; kfree_memsize only counts it.
- Vm.Vm.Uvmdealloc: sizes up to MAXVA, where the int page count does not overflow.
- Vm.Vm.Mappages: perm includes R, W or X, as in every call in the kernel; PageTable.LeafExact shows that the tree breaks without.
- Vm.Vm.Uvmcopy: sizes below the trapframe; a process cannot grow beyond, because mappages panics on the trapframe's page. The same for Vm.Vm.Uvmfree and Vm.Vm.Fork.
- Umalloc.Heap.Morecore: requests stay below 2^31 bytes, the range of sbrk's int argument, and sbrk returns fresh memory above `base`.
- LogFill.StarvedExact: at least NBUF home blocks lie behind the log, as on every image mkfs makes. The same for LogSpace.PanicExact.
- ProcMachine: end_op is called only inside an operation and releasesleep only by the holder; whether copyout fails in wait is left open; pids, kill(0) and files are left out.
- VirtioMachine: the retry loops of alloc3_desc and the device's descriptor reads are single steps.
- runcmd of the shell and the read loop of grep, pipes, console, uart, system-call dispatch and user programs.
