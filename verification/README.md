# xv6-riscv, modelled and proved in Dafny

xv6 is a small Unix-like kernel for RISC-V with a handful of user programs. This project
models its hard parts and proves what they are for. Code that works by interleaving
(the log, the buffer cache seen by many processes, the scheduler with sleep, wakeup, exit
and wait, pipes) is a state machine: a step per program-counter move, an invariant that
every step keeps, and theorems about every state that any run reaches. Code that works
sequentially under a lock (page tables, the block layer, malloc, the shell parser, grep,
the disk driver, link counts) is imperative Dafny: classes with the source's fields,
methods with its loops, proved against specification functions and invariants.

| files | source | what is proved |
|---|---|---|
| LogRecovery, LogReservation, LogMachine, LogCache, LogProgress | kernel/log.c, kernel/bio.c | crash atomicity, log reservation, when the cache agrees with the log; commit is never stuck |
| BufferCache | kernel/bio.c | the doubly linked LRU ring and its recycling order |
| ProcMachine, ProcInvariant, ProcMoves, ProcSteps, ProcFamily, ProcExit, ProcHandlers, ProcProtocol, ProcInterrupts, ProcChildren, ProcSearch, ProcProgress | kernel/proc.c, kernel/spinlock.c | CPU handoff, no lost wakeup, exit and wait, what kill and fork may miss, no deadlock |
| PageTable, AddressSpace, PageCount, VirtualMemory, ProcessMemory, UserCopy | kernel/vm.c, kernel/kalloc.c, kernel/proc.c | the three-level table is a flat map; pages are conserved through every failure, and how many free pages each call needs |
| FileBlocks, FileContents, FileSystem | kernel/fs.c, kernel/file.c | block ownership, file contents, transaction size |
| Links, LinkCalls, LinkRuns | kernel/fs.c, kernel/sysfile.c | link counts and directory entries |
| FreeList, Malloc | user/umalloc.c | the K&R allocator |
| ShellGrammar, ShellRoundTrip, ShellParser, ShellReparse, ShellTokens, ShellTally | user/sh.c | parsing undoes printing; spacing does not show, and no token is lost |
| Regex, Grep | user/grep.c | the matcher is its language; buffering does not show |
| VirtioQueue, VirtioDisk | kernel/virtio_disk.c | descriptors and rings under any order of completions |
| Pipe | kernel/pipe.c | first in first out across counter wrap; who may be asleep; why a call comes back short |

Seven properties one might expect turn out not to hold without a condition, and are stated
with the exact condition. "Too big a transaction" is unreachable exactly when each operation
adds fewer than MAXOPBLOCKS new blocks (`PanicFreeIff`, `FullOpsPanic`). The buffer cache agrees
with what was logged exactly until a changed buffer is released that was not passed to
log_write, as writei does when a copy fails (`CarefulIff`, `UnloggedChangeShows`). create, mkdir
and link keep the link counts exactly when the parent directory is itself linked and the count
that grows is below 32767 (`CreateKeepsIff`, `MkdirKeepsIff`, `LinkKeepsIff`,
`CreateInRemovedCwd`). A directory entry leads to an inode that is there unless it is the ".." of
a removed directory whose parent is gone (`DanglingIff`, `OrphanCwd`). malloc hands out memory it
was given exactly as long as it does not have to ask sbrk for 2^27 units or more (`Malloc`,
`GrantedIff`). A sleeping reader has an empty pipe exactly until a writer that has put bytes in
since it took the lock sees that it was killed (`ReadersWaitIff`, `KilledWriterLeavesReader`). grep
shows every matching line before the first NUL exactly when every line fits in its buffer
(`BufferHiddenIff`, `LongLineHides`).

## Model

| member | source | states |
|---|---|---|
| LogRecovery.InstalledAt | kernel/log.c:68-83 | after any number of install steps each block holds the last logged copy installed so far, or what it held before |
| LogRecovery.InstallAbsorbs | kernel/log.c:68-83 | installing again after a partial install gives the same disk: redo is idempotent |
| LogRecovery.RecoveryStateRecovers | kernel/log.c:116-123 | a crash after any number of recovery's own writes leaves a disk that recovers to the same home blocks |
| LogRecovery.AttemptsKeepOutcome | kernel/log.c:116-123 | any number of cut-short recoveries do not change what a completed one yields |
| LogRecovery.BootDisk.ReadHead | kernel/log.c:86-97 | the in-memory header is the one decoded from the header block |
| LogRecovery.BootDisk.WriteHead | kernel/log.c:102-114 | the header block decodes to the in-memory list, and only that block changes |
| LogRecovery.BootDisk.InstallTrans | kernel/log.c:68-83 | the loop leaves the disk that the specification of installing gives, write by write |
| LogRecovery.BootDisk.RecoverFromLog | kernel/log.c:116-123 | the disk after each block write is the corresponding recovery state, and the last one is the recovered disk |
| LogReservation.InvStep | kernel/log.c:126-235 | every step keeps lh.n plus unspent budgets within LOGSIZE, the logged blocks distinct and committing only with nothing outstanding; end_op's panic is not reached |
| LogReservation.ReservationHolds | kernel/log.c:126-235 | the reservation holds in every reachable state of every interleaving |
| LogReservation.SmallOpsNeverPanic | kernel/log.c:214-235 | with operations below MAXOPBLOCKS the list stays at LOGSIZE-2 or less, so the size guard never fires |
| LogReservation.FullOpsPanic | kernel/log.c:214-223 | three operations of a full MAXOPBLOCKS reach the panic |
| LogReservation.PanicFreeIff | mkfs/mkfs.c:25 | with the log mkfs makes, no run panics if and only if operations add fewer than MAXOPBLOCKS blocks |
| LogReservation.LogHead.TryBeginOp | kernel/log.c:126-142 | on the fields: begin_op goes ahead if and only if nobody commits and lh.n + (outstanding + 1) * MAXOPBLOCKS is within LOGSIZE; then outstanding grows by one, and otherwise nothing changes |
| LogReservation.LogHead.LogWrite | kernel/log.c:214-235 | on the fields: panics exactly when the list is full or nothing is outstanding; otherwise a block already in the list is absorbed and a new one appended |
| LogReservation.LogHead.EndOp | kernel/log.c:146-175 | on the fields: one operation fewer; the caller commits, with committing set before the lock goes, exactly when it was the last one out; panics exactly when a commit was going on |
| LogMachine.StepKeepsInv | kernel/log.c:68-235 | every step of operations, cache and commit, the release of unlogged changes included, keeps the invariant that ties disk, log, cache and history together |
| LogMachine.CrashAtomicity | kernel/log.c:68-203 | a crash anywhere, and any number of crashes in recovery, leave the home blocks as the effect of a prefix of the history at which no operation was running |
| LogMachine.OutcomeSwitchesAtWriteHead | kernel/log.c:193-203 | what a completed recovery leaves is the same before and after every step except the first write_head of a commit, which takes it from the effect of the history up to the commit before to that of the whole history |
| LogMachine.RecoversUpToLastWriteHead | kernel/log.c:68-203 | over whole runs, crashes and cut-short recoveries included, recovery leaves the effect of exactly the events logged by the last write_head, every operation among them ended |
| LogMachine.FinishedCommitIsDurable | kernel/log.c:146-203 | once a commit is over, everything logged so far survives a crash |
| LogCache.AgreesIff | kernel/bio.c:116-138 | where every buffer that nobody holds has the latest logged contents, that stays so after any step exactly if the step is not the brelse of a buffer whose contents differ from what was last logged |
| LogCache.CarefulIff | kernel/bio.c:58-138 | so it holds at every point of a run if and only if no step of the run is such a release |
| LogCache.CacheAgreement | kernel/bio.c:58-151 | after every run: a filled buffer not changed since it was read or logged holds the latest logged contents; no two buffers hold one block; a logged block not yet installed is cached with a positive refcnt; and the equivalence of the row above |
| LogCache.BreadReturnsLatest | kernel/bio.c:92-103 | after every run without such a release, what bread hands out is the latest logged contents of the block, recycling notwithstanding |
| LogCache.UnloggedChangeShows | kernel/fs.c:519-525 | for every block and all contents, a run that changes the block's buffer, releases it unlogged, and leaves bread with bytes that were never logged |
| LogProgress.CommitGoesOn | kernel/log.c:176-203 | in every reachable state of a commit its next step can be taken as soon as it holds the buffers of that step |
| LogProgress.BreadGoesOn | kernel/bio.c:58-103 | in every reachable state bread can go on in the buffer of its block unless another process has it locked, and in any unused buffer if the block has none |
| LogProgress.OperationsGoOn | kernel/log.c:126-235 | in every reachable state begin_op goes ahead if and only if nobody commits and the worst case of the running operations and this one fits; inside an operation log_write and end_op are never refused |
| LogProgress.CrashAnywhere | kernel/log.c:116-123 | the machine that CrashAtomicity speaks of can crash in every reachable state, and in recovery after any number of its writes |
| BufferCache.UnlinkRing | kernel/bio.c:128-129 | the two pointer writes take exactly one buffer out of the ring, prev and next staying inverse |
| BufferCache.PushRing | kernel/bio.c:130-133 | the four pointer writes put it in after the head |
| BufferCache.MoveRecency | kernel/bio.c:116-137 | after the move the ring is in order of last release |
| BufferCache.Bcache.LeastRecent | kernel/bio.c:77-87 | the buffer found from the tail was released no later than any other unused one |
| BufferCache.Bcache.constructor | kernel/bio.c:36-53 | all NBUF buffers on one ring |
| BufferCache.Bcache.Bget | kernel/bio.c:58-89 | the cached buffer if there is one, else the least recently released unused one with a new key; keys with dev != 0 stay unique |
| BufferCache.Bcache.FindCached | kernel/bio.c:66-73 | finds the buffer with the key or shows there is none |
| BufferCache.Bcache.FindUnused | kernel/bio.c:77-87 | finds the last unused buffer on the ring or shows there is none |
| BufferCache.Bcache.Brelse | kernel/bio.c:116-137 | drops one reference; the last one moves the buffer to the front of the ring |
| BufferCache.Bcache.Bunpin | kernel/bio.c:146-151 | takes back a reference and never moves the buffer |
| ProcMoves.MovesKeepInv | kernel/proc.c:280-610 | every program-counter move, with its lock operation, keeps the invariant |
| ProcSteps.PickKeepsInv | kernel/proc.c:458-467 | a scheduler's pick of a RUNNABLE process keeps it, that is, p->lock is held and the registers are saved |
| ProcSteps.SaveKeepsInv | kernel/proc.c:484-502 | saving the registers and leaving the stack keeps it, p->lock staying held |
| ProcSteps.SetSleepingKeepsInv | kernel/proc.c:541-568 | going to sleep under p->lock keeps it |
| ProcFamily.WakeOneKeepsInv | kernel/proc.c:572-586 | one slot of wakeup keeps it: nobody to be woken is left in the slots passed |
| ProcFamily.KillOneKeepsInv | kernel/proc.c:591-610 | kill's wakeup keeps it |
| ProcFamily.FoundKeepsInv | kernel/proc.c:110-151 | allocproc's claim of a slot keeps it, with a process id never used before |
| ProcFamily.SetParentKeepsInv | kernel/proc.c:316-320 | fork's setting of the parent under wait_lock keeps it |
| ProcExit.ReparentKeepsInv | kernel/proc.c:331-342 | handing a child to init keeps it, init being woken |
| ProcExit.SetZombieKeepsInv | kernel/proc.c:347-387 | becoming a zombie keeps it: the parent has been woken under wait_lock |
| ProcExit.ReapKeepsInv | kernel/proc.c:391-436 | freeing a zombie child keeps it: the child has left its last CPU |
| ProcProtocol.NextKeepsInv | kernel/proc.c:280-610 | every step of every CPU keeps the invariant, interrupt handlers at every point without a lock included |
| ProcProtocol.RunKeepsInv | kernel/proc.c:445-586 | so it holds after every run |
| ProcProtocol.CpuHandoff | kernel/proc.c:445-513 | a process is on at most one CPU, a RUNNING process is on one, and a scheduler that picks a process finds its registers saved and its last CPU gone from its stack |
| ProcProtocol.LookedAtIsReady | kernel/proc.c:458-467 | a RUNNABLE process whose lock a scheduler holds has saved registers and is on no CPU |
| ProcProtocol.SchedNeverPanics | kernel/proc.c:484-495 | in sched p->lock is held, noff is 1 and the state is not RUNNING, so its first three panics are not reached |
| ProcInterrupts.SchedNotInterruptible | kernel/proc.c:496-497 | interrupts are off in sched, so its fourth panic is not reached either |
| ProcInterrupts.LockedIsUninterruptible | kernel/spinlock.c:88-110 | in every run, whatever happens to interrupts while no lock is held, a CPU that holds a spinlock has them off and neither panic of pop_off is reached |
| ProcProtocol.ReleaseNeverPanics | kernel/spinlock.c:46-72 | whatever lock any step of a process or a scheduler releases is held by this CPU |
| ProcProtocol.AcquireNeverPanics | kernel/spinlock.c:21-43 | whatever lock any step of a process or a scheduler acquires is not already held by this CPU |
| ProcProtocol.NextLocks | kernel/proc.c:280-610 | a step changes the lock table and noff by exactly the lock operation the two rows above speak of, so no acquire or release is left out |
| ProcProtocol.NoLostWakeup | kernel/proc.c:541-586 | when wakeup(chan) made with lk held returns, in a process or in an interrupt handler that interrupted it wherever it held no lock, no process that under lk decided to sleep on chan is still asleep or on its way |
| ProcProtocol.HandlerLosesNoWakeup | kernel/proc.c:572-586 | the same for a handler that interrupted the scheduler of a CPU |
| ProcHandlers.NextKeepsHandlers | kernel/proc.c:541-586 | no step of any CPU puts a process to sleep in a part of the table that such a handler has passed |
| ProcProtocol.PromiseUnderLock | kernel/proc.c:541-568 | the decision to sleep is taken only while the CPU holds lk |
| ProcProtocol.WaitSeesExits | kernel/proc.c:347-436 | whenever wait_lock is free, no process asleep in wait has a ZOMBIE child; when wait gives up and when it sleeps are the rows of ProcChildren |
| ProcProtocol.ZombieHasLiveParent | kernel/proc.c:331-387 | every ZOMBIE has a parent, and that is a live process |
| ProcProtocol.ReapedOnce | kernel/proc.c:391-436 | a process id is returned by at most one wait and never used again |
| ProcChildren.NextKeepsFamily | kernel/proc.c:280-436 | every step keeps that havekids tells whether a slot scanned so far holds a child, and that a slot fork has not finished has no parent |
| ProcChildren.WaitCountsChildren | kernel/proc.c:400-425 | in every run, at the end of its scan wait has havekids set if and only if the process has a child |
| ProcChildren.WaitGivesUp | kernel/proc.c:400-435 | in every run, wait leaves only after it has dealt with a zombie, or because the process was killed, or because it has no child |
| ProcChildren.WaitTakesOwnZombie | kernel/proc.c:404-422 | the process that wait frees and reports, or keeps because copyout failed, is a ZOMBIE and its own child |
| ProcChildren.WaitSleepsForChild | kernel/proc.c:427-435 | wait sleeps only in a process that was not killed and has a child, none of its children being a ZOMBIE |
| ProcSearch.OnlyWakersWake | kernel/proc.c:572-610 | in every run a SLEEPING process is made RUNNABLE only by a wakeup on its own channel, from a process or a handler, or by kill with its own id |
| ProcSearch.KillIsFinal | kernel/proc.c:591-613 | kill that finds its process marks it, leaves it awake and marks no other; in every later state of every run the process with that id is marked |
| ProcSearch.KillMissesNobody | kernel/proc.c:591-613 | kill with an id that had been given out fails only if no process has that id, whatever other processes do during the search |
| ProcSearch.ForkSawAllInUse | kernel/proc.c:110-122 | fork fails for want of a slot only after it has seen every slot in use, each with its lock held |
| ProcProgress.LockOrder | kernel/proc.c:280-610 | a CPU that holds a process lock waits for no lock, and one that holds any lock waits only for process locks |
| ProcProgress.NoDeadlock | kernel/proc.c:280-610 | in every reachable state every CPU can take its next step, or spins on a lock of a CPU that can, or on a lock of a CPU that spins on a lock of a CPU that can |
| PageTable.PxInjective | kernel/riscv.h:356-359 | the three 9-bit indices determine the page number |
| PageTable.EncodeDecode | kernel/riscv.h:342-354 | a page number and flags put into an entry are read back |
| PageTable.LookupIsFlat | kernel/vm.c:86-109 | in a well-formed tree, the entry walk finds for a page is the entry of the one lowest table that owns its place |
| PageTable.AddTableKeeps | kernel/vm.c:86-109 | linking a zeroed page below a slot keeps the tree well formed |
| PageTable.MapOwnedKeeps | kernel/vm.c:150-180 | entering a page and owning it keeps the tree well formed |
| PageTable.ClearOwned | kernel/vm.c:185-207 | letting a page go and clearing its entry keeps the tree well formed |
| AddressSpace.UserBelowTop | kernel/vm.c:240-264 | there are too few pages for user memory to reach the trapframe |
| PageCount.LackStep | kernel/vm.c:86-109 | mapping the next page of a range takes the page and only those tables that no earlier page of the range has in common with it |
| PageCount.AllThere | kernel/vm.c:86-109 | once a range is mapped, as many nodes have been added as Lack says: a page each, and one table for every run of 512 pages and of 512 * 512 pages that had none |
| PageCount.LackAtMost | kernel/vm.c:240-264 | k more pages take at most k + k/512 + k/2^18 + 4 |
| PageCount.LackInBare | kernel/vm.c:320-348 | n pages copied into a new process take exactly n + ceil(n/512) + ceil(n/2^18), wherever there are that many |
| VirtualMemory.PagesAddUp | kernel/kalloc.c:33-82 | free pages, pages of the trees and pages in flight partition the managed pages and their numbers add up |
| VirtualMemory.Vm.constructor | kernel/kalloc.c:26-40 | the whole pages between end and PHYSTOP are all free |
| VirtualMemory.Vm.Kalloc | kernel/kalloc.c:68-82 | a page that was free and is no longer, or failure with nothing free |
| VirtualMemory.Vm.Kfree | kernel/kalloc.c:46-63 | the page goes on the free list once; the panic is not reached |
| VirtualMemory.Vm.Walk | kernel/vm.c:86-109 | the table for a page, made if asked; no entry of any space changes; failure only where the table is missing and no page is free |
| VirtualMemory.Vm.MapPage | kernel/vm.c:150-180 | exactly one entry of the flat map is inserted, or none, and that only where a table is missing and no page is free |
| VirtualMemory.Vm.Mappages | kernel/vm.c:151-180 | a range of pages gets consecutive frames and every other entry stays; it stops, with what it had mapped in place, exactly at the first page mapped already (the panic) or where a table is needed and no page is left |
| VirtualMemory.Vm.MapNew | kernel/vm.c:247-262 | a fresh page is filled and mapped at the cost of exactly the page and the tables that were missing, or there were fewer pages than that and the page is given back |
| VirtualMemory.Vm.UnmapPage | kernel/vm.c:185-207 | exactly one entry is deleted, its page freed if owned; no panic |
| VirtualMemory.Vm.Uvmunmap | kernel/vm.c:185-207 | the range and nothing else is unmapped, its pages returned |
| VirtualMemory.Vm.Uvmclear | kernel/vm.c:352-361 | one entry loses its user bit and nothing else changes |
| VirtualMemory.Vm.Freewalk | kernel/vm.c:286-302 | all tables at and below a node are freed; the leaf panic is not reached |
| VirtualMemory.Vm.Uvmdealloc | kernel/vm.c:270-282 | pages above the new size are freed, and none if it does not shrink |
| VirtualMemory.Vm.Uvmalloc | kernel/vm.c:240-264 | zeroed pages up to the new size, or every page taken back; it succeeds if and only if there are as many free pages as the new pages and their missing tables |
| VirtualMemory.Vm.Uvmfree | kernel/vm.c:306-312 | every page of the space goes back |
| VirtualMemory.Vm.Uvmcopy | kernel/vm.c:320-348 | same domain, flags and bytes on fresh pages, or all of them freed again; it succeeds if and only if there are as many free pages as the copies and their missing tables |
| VirtualMemory.Vm.Uvmcreate | kernel/vm.c:211-220 | an empty space on one page, or no page is free |
| VirtualMemory.Vm.ProcPagetable | kernel/proc.c:177-207 | trampoline and trapframe mapped on three pages, or everything as before; it succeeds if and only if three pages are free |
| ProcessMemory.ProcTable.AllocProc | kernel/proc.c:110-151 | a new space of size 0 with a trapframe on four pages, or ownership exactly as before; it succeeds if and only if four pages are free |
| ProcessMemory.ProcTable.ProcFreepagetable | kernel/proc.c:211-217 | unmaps the two shared pages and frees all that is left |
| ProcessMemory.ProcTable.FreeProc | kernel/proc.c:156-173 | exactly what the process owned is returned; all other spaces and bytes stay |
| ProcessMemory.ProcTable.Grow | kernel/proc.c:260-276 | zeroed pages and the new size, or failure with every user page as it was; it succeeds if and only if there are as many free pages as the new pages and their missing tables, at most the number of LackAtMost |
| ProcessMemory.ProcTable.Cut | kernel/proc.c:260-276 | shrinks and frees; below zero the size wraps and nothing happens |
| ProcessMemory.ProcTable.Fork | kernel/proc.c:280-298 | the child is a copy of all user pages on fresh pages, or ownership is exactly as before; it succeeds if and only if 4 + n + ceil(n/512) + ceil(n/2^18) pages are free, n being the pages of the parent |
| UserCopy.Walkaddr | kernel/vm.c:114-132 | the page of a valid user address, else none |
| UserCopy.Copyout | kernel/vm.c:366-391 | writes up to the first byte that is not user-writable, and succeeds exactly when there is none |
| UserCopy.Copyin | kernel/vm.c:396-416 | succeeds exactly when every page is readable, with the bytes there |
| UserCopy.CopyRoundTrip | kernel/vm.c:366-416 | copyin after a successful copyout returns the same bytes |
| UserCopy.Copyinstr | kernel/vm.c:422-459 | the string up to its NUL if that is within max and readable; failure means there is no such string |
| FileBlocks.BitIffOneSlot | kernel/fs.c:65-105 | a data block's bit is set if and only if exactly one inode slot holds it |
| FileBlocks.Placed | kernel/fs.c:382-421 | a free block put into an empty slot keeps ownership one to one |
| FileSystem.FileSys.Balloc | kernel/fs.c:65-88 | the first clear bit, its block zeroed and nobody's; 0 exactly when every bit is set |
| FileSystem.FileSys.Bfree | kernel/fs.c:91-105 | the bit is set, so its panic is not reached |
| FileSystem.FileSys.Bmap | kernel/fs.c:382-421 | the block of a file block, allocated if need be, and which blocks that logs; a mapped block changes nothing |
| FileSystem.FileSys.Writei | kernel/fs.c:505-539 | refuses exactly the bad ranges; else counts a prefix of the data, shorter only if the disk is full or the next chunk of the source cannot be read: the file's bytes are the old ones overwritten at off with that prefix and with what a failing copy left, every other file keeps its bytes, no file gets a hole, and only this inode goes to disk |
| FileContents.ExtendedFiles | kernel/fs.c:505-539 | what writes through the block maps mean for all files as byte sequences, holes reading as zeros |
| FileContents.DenseAfter | kernel/fs.c:505-539 | a write that starts inside the file leaves no hole |
| FileContents.WroteTwice | kernel/file.c:149-175 | two consecutive writes are one |
| FileSystem.FileSys.Readi | kernel/fs.c:471-496 | the requested slice clipped to the size, short only if a hole in it cannot be given a block, -1 only if the reader cannot take a chunk, and without a hole exactly if it cannot take the slice; no file's bytes change; nothing is allocated or logged if the slice has no hole |
| FileSystem.DenseBacked | kernel/fs.c:471-496 | in a file without holes no slice has one |
| FileSystem.FileSys.Itrunc | kernel/fs.c:425-453 | the inode has no blocks and size 0, and exactly its blocks have become free |
| FileSystem.FileSys.Iput | kernel/fs.c:336-362 | frees blocks and inode exactly when the last reference to an inode without links goes |
| FileSystem.TransactionSize | kernel/file.c:149-175 | a filewrite chunk logs at most MAXOPBLOCKS distinct blocks, and at most 7 when one bitmap block covers the disk |
| FileSystem.FileSys.WriteTransaction | kernel/file.c:162-167 | one begin_op to end_op of filewrite on a file without holes logs at most MAXOPBLOCKS blocks, 7 with one bitmap block, and leaves no hole |
| FileSystem.FileSys.Filewrite | kernel/file.c:149-175 | the file is the old one overwritten with a prefix of the data, all of it exactly when success is reported; it falls short only past the end, past the largest file, on a full disk or where the source cannot be read, and then at most the readable part of one chunk more is overwritten; other files keep their bytes |
| Links.SameNameIff | kernel/fs.c:543-547 | names compare equal exactly when their directory entries hold the same DIRSIZ bytes |
| Links.CreateFileKeeps | kernel/sysfile.c:245-302 | creating a file under a linked parent keeps every nlink equal to the number of entries naming the inode, names unique and directories a tree |
| Links.CreateDirKeeps | kernel/sysfile.c:245-302 | so does making a directory, whose ".." is a link to the parent |
| Links.LinkKeeps | kernel/sysfile.c:123-170 | so does link |
| Links.UnlinkFileKeeps | kernel/sysfile.c:188-243 | so does unlinking a file |
| Links.EmptyDirOneLink | kernel/sysfile.c:173-186 | an empty directory has exactly one link, the entry in its parent |
| Links.UnlinkDirKeeps | kernel/sysfile.c:188-243 | so unlinking it takes its count to 0 and keeps all of this |
| Links.DropKeeps | kernel/fs.c:336-362 | freeing an inode with nlink 0 keeps all of this |
| Links.CreateKeepsIff | kernel/sysfile.c:245-302 | a created file's count is right if and only if the parent is linked |
| Links.MkdirKeepsIff | kernel/sysfile.c:245-302 | for a directory: if and only if the parent is linked and its count is below 32767 |
| Links.LinkKeepsIff | kernel/sysfile.c:123-170 | for link: if and only if the parent is linked and the file's count is below 32767 |
| LinkCalls.FileTree.Dirlookup | kernel/fs.c:551-575 | the slot with that name, or no entry has it |
| LinkCalls.FileTree.Dirlink | kernel/fs.c:579-606 | a new name goes into a free slot or at the end; failure changes nothing and means the name exists or there is no room |
| LinkCalls.FileTree.Isdirempty | kernel/sysfile.c:173-186 | true exactly when every slot after the two dots is free |
| LinkCalls.FileTree.Ialloc | kernel/fs.c:198-219 | a free inode marked as taken, or all are taken |
| LinkCalls.FileTree.Create | kernel/sysfile.c:245-302 | the panic of locking a freed inode and the file that has the name, each exactly when; a new inode with its entry only for a new name, and nothing for a new name only if inodes or room are used up; keeps the invariant under a linked parent |
| LinkCalls.DanglingIff | kernel/fs.c:292-317 | that panic is reached if and only if the name is ".." in an unlinked directory whose parent inode has been freed |
| LinkRuns.OrphanCwd | kernel/sysfile.c:188-262 | a run of mkdir, mkdir, unlink and unlink on a fresh file system that leaves such a working directory |
| LinkRuns.CreateInRemovedCwd | kernel/sysfile.c:251-289 | a run of mkdir, unlink and create that leaves a file with a wrong count |
| LinkCalls.FileTree.Link | kernel/sysfile.c:123-170 | count and entry together, or nothing changed, and that only for a directory, a missing parent, a name that exists or no room; the invariant holds after it exactly when the condition holds |
| LinkCalls.FileTree.Unlink | kernel/sysfile.c:188-243 | keeps the invariant for every parent; refuses exactly dots, absent names and non-empty directories; the nlink panic is not reached |
| FreeList.FreedOrdered | user/umalloc.c:24-44 | the ring with the freed block merged in is one address-ordered cycle with no adjacent blocks |
| FreeList.FreedSum | user/umalloc.c:24-44 | its units are the old ones plus the freed ones |
| Malloc.StopsAtPlace | user/umalloc.c:30-32 | free's loop stops exactly at the place of the block |
| Malloc.FreeKeeps | user/umalloc.c:24-44 | free keeps the heap invariant |
| Malloc.TakeKeeps | user/umalloc.c:74-85 | taking a block, whole or from its tail, keeps it |
| Malloc.GrowKeeps | user/umalloc.c:46-61 | units from sbrk keep it |
| Malloc.Partition | user/umalloc.c:24-90 | live and free blocks are pairwise disjoint, free ones never touch, and their sizes sum to what sbrk gave |
| Malloc.Allocator.Free | user/umalloc.c:24-44 | the block leaves the live ones and joins the ring at its place |
| Malloc.GrantedIff | user/umalloc.c:52-54 | sbrk's int argument asks for all the units meant exactly below 2^27 of them |
| Malloc.Allocator.Morecore | user/umalloc.c:46-61 | at least 4096 units more, after which some block is large enough; nothing changed exactly if sbrk fails; or, exactly from 2^27 units on, fewer units than the new header claims |
| Malloc.Allocator.Search | user/umalloc.c:74-89 | first fit from freep, terminating also after morecore has merged into an existing block; each outcome exactly when |
| Malloc.Allocator.Malloc | user/umalloc.c:63-90 | units that were not in use, enough for the request; failure exactly if no block is large enough and sbrk fails; memory that was not given exactly if no block is large enough and 2^27 units or more are asked for |
| ShellRoundTrip.ParseBack | user/sh.c:328-447 | a printed command parses back to itself wherever a command of its level may stand |
| ShellRoundTrip.RoundTrip | user/sh.c:328-447 | parsing the minimally parenthesised printing of a command tree gives the tree |
| ShellReparse.AcceptedLineReparses | user/sh.c:328-447 | the command of any accepted line is printable, and parsing its printing gives the same command |
| ShellParser.Gettoken | user/sh.c:263-309 | in the characters of the line: after spaces, tabs, returns, newlines and vertical tabs, one of the symbols, ">>" or the longest run of other characters, and then all blanks that follow; this is the token of the grammar |
| ShellParser.Peek | user/sh.c:311-321 | the place after blanks, and whether one of the characters is there |
| ShellParser.Parseredirs | user/sh.c:375-398 | refines the grammar's redirections |
| ShellParser.Parseexec | user/sh.c:416-447 | refines the grammar's simple commands, with the argument limit |
| ShellParser.Parseblock | user/sh.c:400-414 | refines the grammar's blocks |
| ShellParser.Parsepipe | user/sh.c:362-373 | refines the grammar's pipelines |
| ShellParser.Parseline | user/sh.c:345-360 | refines the grammar's lines |
| ShellParser.Parsecmd | user/sh.c:328-343 | parses every input line, terminating, to what the grammar says or to an error |
| ShellParser.LineWhole | user/sh.c:345-447 | every word of a parsed line is a whole token |
| ShellParser.Nulterminate | user/sh.c:450-494 | writes a NUL after each word and nothing else |
| ShellParser.WordsAreStrings | user/sh.c:450-494 | after it each word is a C string equal to its token |
| ShellTokens.TokensDecide | user/sh.c:328-447 | two lines with the same tokens, however they are spaced, are accepted as the same command or refused with the same error |
| ShellTokens.TrailingBlanks | user/sh.c:135-143 | a line followed by any spaces, tabs, returns, newlines and vertical tabs, such as the newline that gets leaves, is read as the line itself |
| ShellTokens.WordsAmongBlanks | user/sh.c:416-447 | words separated and surrounded by any such blanks are the simple command of these words if there are at most nine, and too many arguments otherwise |
| ShellTokens.ParensBalance | user/sh.c:328-343 | an accepted line has as many opening as closing parentheses |
| ShellTally.NothingLost | user/sh.c:328-447 | the command of an accepted line has exactly as many words, redirections of each mode, pipes, lists and background jobs as the line has tokens for them |
| Regex.Match | user/grep.c:72-82 | the loop computes the matching predicate |
| Regex.Matchhere | user/grep.c:85-96 | so does matchhere |
| Regex.Matchstar | user/grep.c:99-106 | so does matchstar |
| Regex.HereIff | user/grep.c:85-106 | matchhere is true if and only if a prefix of the text is in the language of the pattern |
| Regex.MatchIff | user/grep.c:72-106 | match is true if and only if some substring is, with '^' and '$' anchoring |
| Grep.SelectedAppend | user/grep.c:11-35 | selecting lines piece by piece, carrying the unfinished line over, is selecting them at once |
| Grep.EmitLines | user/grep.c:19-29 | the inner loop writes the selected finished lines before the first NUL and finds the rest |
| Grep.Grep | user/grep.c:11-35 | however read splits the input, exactly the matching lines before the first NUL and before the first line that does not fit in the buffer are written, so all matching lines if there is no NUL and every line fits |
| Grep.BufferHiddenIff | user/grep.c:17-20 | no pattern loses a line if and only if every line has at most 1023 bytes |
| Grep.LongLineHides | user/grep.c:17-20 | a concrete input with a matching line that grep never reaches |
| VirtioQueue.RingPush | kernel/virtio_disk.c:271-277 | adding a ring entry overwrites none that is still to be read, across 16-bit wrap |
| VirtioQueue.MakeChain | kernel/virtio_disk.c:247-265 | three descriptors linked up keep free and chained descriptors a partition |
| VirtioQueue.BreakChain | kernel/virtio_disk.c:185-197 | so does taking a chain apart |
| VirtioDisk.Driver.AllocDesc | kernel/virtio_disk.c:156-166 | a free descriptor, or none is free |
| VirtioDisk.Driver.FreeDesc | kernel/virtio_disk.c:169-182 | neither panic is reached |
| VirtioDisk.Driver.FreeChain | kernel/virtio_disk.c:185-197 | following the links frees exactly the chain |
| VirtioDisk.Driver.Alloc3Desc | kernel/virtio_disk.c:201-213 | three distinct descriptors, or all given back and fewer than three free |
| VirtioDisk.Driver.Submit | kernel/virtio_disk.c:215-281 | a new request at the end of the avail ring, its three descriptors filled in and its buffer the disk's; or nothing changed |
| VirtioDisk.Driver.OneThird | kernel/virtio_disk.c:223-233 | at most NUM/3 requests are outstanding |
| VirtioDisk.Driver.IntrStep | kernel/virtio_disk.c:309-324 | a completion names a request on the used ring; it panics exactly if the device reported an error for it, and else clears b->disk of exactly its buffer |
| VirtioDisk.Driver.Intr | kernel/virtio_disk.c:294-327 | with the device going on between any two tests of the loop, the handler ends; it panics exactly when it comes to a completion with an error status, and else leaves nothing on the used ring and every request that was on it done |
| VirtioDisk.Driver.Finish | kernel/virtio_disk.c:283-292 | once b->disk is clear the request is over and its chain is free again |
| VirtioDisk.Driver.DeviceTake | kernel/virtio_disk.c:271-281 | the device takes the oldest entry of the avail ring |
| VirtioDisk.Driver.DeviceComplete | kernel/virtio_disk.c:309-317 | the device may complete taken requests in any order and with any status without overwriting an unread used entry |
| Pipe.NextKeepsInv | kernel/pipe.c:58-130 | every step of every process, kill included, keeps the ring, lock, call and writer-sleep invariants |
| Pipe.BytesInOrder | kernel/pipe.c:76-130 | the bytes consumed are a prefix of the bytes written, and the ring holds the rest, at most PIPESIZE, across 2^32 wrap |
| Pipe.ReadIsConsecutive | kernel/pipe.c:105-130 | a read hands out consecutive bytes of the stream, as many as it returns; it returns -1 only in a process that was killed, with the pipe empty |
| Pipe.WriteIsWhole | kernel/pipe.c:76-103 | what a write put in is, in order, exactly what it copied in; it returns their number, or -1, and -1 only before it is done and when the read end is closed or the process was killed |
| Pipe.ShortWrite | kernel/pipe.c:82-103 | a write that returns fewer bytes than asked for, and not -1, met a copyin that failed at the next byte, with room in the pipe, a reader and the process not killed |
| Pipe.ShortRead | kernel/pipe.c:119-130 | a read that returns fewer bytes than asked for came to an empty pipe or met a copyout that failed, and if it returns none for want of bytes no writer was left |
| Pipe.SleptAlive | kernel/pipe.c:82-118 | whoever sleeps decided to for want of a byte or of room, with the other end open, and had not been killed |
| Pipe.LockIsPassedOn | kernel/pipe.c:58-130 | in every reachable state the holder of the lock can go on, and with the lock free whoever waits for it can take it |
| Pipe.SleepersHaveCause | kernel/pipe.c:58-130 | with the lock free, a sleeping writer has a full pipe and an open reader in every run; a sleeping reader an empty pipe and an open writer in every run without the step named next |
| Pipe.ReadersWaitIff | kernel/pipe.c:82-86 | that breaks exactly when a writer that has put bytes in since taking the lock takes the killed exit while a reader sleeps |
| Pipe.NoKillNoOversleep | kernel/pipe.c:58-130 | so it holds in every run without kill |
| Pipe.KilledWriterLeavesReader | kernel/pipe.c:84-86 | a concrete run in which it fails |

## Left out

- uart.c, plic.c, start.c, main.c, trap.c, assembly and CSR accessors: hardware access; swtch is one atomic transfer of control.
- Fairness, and so that a step that can always be taken is taken in the end; stated are termination of every loop, freedom from deadlock, and that the steps of log, pipe and kernel locks are never refused.
- Weak memory: steps are sequentially consistent; spinlocks are atomic.
- sleeplock.c: a sleep lock appears as the lock a process holds on a buffer; its own code only repeats the sleep and wakeup protocol.
- exec.c, console.c, printf.c, syscall.c, sysproc.c, ramdisk.c, string.c, mkfs beyond its layout, the other user programs: they would add easy members or repeat arguments made here.
- namex, skipelem, iget and the in-memory inode table: a call gets the inode that path lookup found; reference counts appear only in iput.
- filealloc, filedup, fileclose and descriptor tables: easy counting.
- LogMachine, LogRecovery: log.size is a parameter; a single-block write is atomic; logged blocks lie outside the log region; block contents are abstract values; an unlogged change to a block that is in the log already counts as an update from its brelse on.
- BufferCache.Bcache: unique keys are stated for dev != 0, since binit leaves all keys equal; the cache lock makes each method atomic.
- ProcProtocol.ReapedOnce: process ids are unbounded in the model, while nextpid is an int in the source; the claim is for fewer than 2^31 forks.
- ProcInterrupts: what traps, user mode and the scheduler's intr_on do to interrupts while no lock is held is arbitrary; of a handler only its critical sections and wakeups appear, in ProcMachine.
- ProcMachine: one condition lock per critical section; user-mode execution and the file side of fork, exit and wait are single steps.
- VirtualMemory.Vm, ProcessMemory.ProcTable: the methods run one at a time; pages hold either a table or bytes; hardware accessed and dirty bits are absent; addresses are page numbers where the code aligns them; user memory plus tables is assumed smaller than the address range below the trapframe.
- VirtualMemory.Vm.Mappages: for pages that no address space takes over; the one-page calls that hand over a page are MapPage.
- FileSystem.FileSys: the methods run one at a time; a block is either file bytes or an index; blocks are as the buffer cache shows them (LogCache says when that is what was logged); block 0 starts marked in use.
- FileSystem.FileSys.Readi: requires a size within the largest file, which writei keeps.
- LinkCalls.FileTree: each call is one transaction; other references to an inode are a parameter; "no room for an entry" is a parameter; the two devices of link are one.
- Malloc.Allocator: addresses count header-sized units; base lies below all memory from sbrk; sizes do not wrap.
- Malloc.Allocator.Malloc: what sbrk returns is a parameter at or above everything it returned before; the model stops where memory that was not given would be written.
- ShellParser, ShellGrammar: panics of the parser are an error result; running the command tree is left out.
- Grep.Grep: what each read returns is a parameter and what is written a result.
- Pipe: modelled as steps over values rather than as methods over an object, so that other processes and kill come between any two; data[] update in place is a sequence update; copyin and copyout outcomes are parameters; kfree of the pipe is left out; a reader tests killed and goes to sleep in one step.
- VirtioDisk.Driver: each method is a step under vdisk_lock or of the device; memory fences and the register handshake of virtio_disk_init are left out; a buffer is submitted only when it is not already in flight, as its sleep lock ensures.
