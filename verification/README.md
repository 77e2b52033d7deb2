# xv6 with copy-on-write fork: a model and its proofs

The project models the parts of the kernel and of its user programs whose
correctness is hard to see, and proves what they are for.

| part | files |
|---|---|
| Copy-on-write memory | `CowMachine`, `CowInvariant`, `CowSteps`, `CowRefinement`, `CowTheorems`, `CowConservation`, `Vm` |
| Redo log | `LogMachine`, `LogTheorems`, `LogAtomic`, `LogFine`, `LogOverflow`, `Log` |
| Buffer cache | `BcacheMachine`, `BcacheTheorems`, `Bcache` |
| Buffer cache under the log | `BcacheLog`, `BcacheFull` |
| Blocks, inodes, files | `FsLayout`, `FsOwners`, `FsFiles`, `FsTrunc`, `FsInodes`, `Fs`, `FileIo` |
| Files on top of the log | `FileCrash` |
| Sleep and wakeup | `SleepMachine`, `SleepTheorems` |
| Scheduling, pipes | `Sched`, `Pipe` |
| User programs | `HeapModel`, `Umalloc`, `ShellSyntax`, `ShellRoundTrip`, `Shell`, `Grep` |
| Shared | `Bytes`, `Params`, `Sets`, `Stores` |

`dafny verify dfyconfig.toml` checks all of it.

## How the parts are modelled

Where processes interleave, or the power may fail, the code is a machine on
values whose steps are the stretches between two lock operations or two block
writes (`CowMachine`, `LogMachine`, `BcacheMachine`, `SleepMachine`). Invariants
and refinements are proved for every step and then for every run. The code
itself, with its loops and in-place updates, is a class beside the machine
(`Vm.Memory`, `Log.Log`, `Bcache.Cache`): a ghost field holds the machine state
and takes one step at each lock point or block write, so every theorem about
reachable machine states is a theorem about the class. The file system, the
allocator, pipes, the shell parser, the scheduler and grep are classes and
methods proved against functions on their contents.

- **Memory.** The reference machine has private pages only and copies them all
  at fork. A page fault is six steps, split where pagefault holds no lock. The
  fields `counted` and `use` are auxiliary: which references a count stands for,
  and what each frame is for. The processor is assumed to raise a write fault
  only on an entry that does not allow the write: that a fault never meets an
  entry that is present, for users and writable, the first panic of pagefault
  (source/vm.c:448-451), is this assumption and not a result. The second panic,
  on a count below 1, is proved unreachable.
- **Log.** A crash may follow any block write. `committed` lists the
  transactions whose header write reached the disk. The journal of `LogAtomic`
  is computed from the labels of a run alone. log_write tests the size of the
  log before it takes the lock (source/log.c:218-223): `LogFine` has the test and
  the append as two steps, which other calls may separate. In `LogMachine` they
  are one step, and `LogFine.Reduces` says for which runs that is the same.
- **Buffer cache.** A use is one bread ... brelse. The flat array changes when a
  buffer is passed to log_write or bwrite.
- **Files.** The blocks are all blocks the buffer cache serves, those of the
  inodes included; `inodes` are the copies in memory. A ghost trace lists what
  each call of log_write was given. An owner map ties every used data block to
  one slot of one inode; a hole reads as zeros. A file is dense when every block
  up to its size is mapped; writei refuses offsets past the end, so a dense file
  stays dense. `Fs.Valid` does not ask for density: mkfs rounds the size of the
  root directory up to the next multiple of a block even when it is one already
  (source/mkfs.c:158-163), and the last block is then a hole. For such a
  directory readi allocates, for a dense file it never does; and a write into a
  hole leaves the new address in memory only, unless the file grows
  (source/fs.c:507-510), so what is said of the disk is said of dense files.
- **Files on top of the log.** The calls that filewrite makes, one transaction
  for each chunk with the trace of its log_writes, are run on the machine of the
  log, interleaved with the block writes of commit.
- **Buffer cache under the log.** In the product of the two machines a log_write
  pins the buffer its caller holds and a block write of commit releases it.
- **Sleep and wakeup.** Sleep-locks, the gate of begin_op and end_op, and wait
  are monitors with a condition, a lock and a channel.

Where the code and its comments disagree, the code is modelled: `>>` opens its
file like `>` (source/sh.c:388-393), and growproc reports failure when a process
shrinks to nothing (source/proc.c:179-180).

## Results about the code as it is

- A fault that saw a frame shared copies it even when it holds the last reference
  by then: two overlapping faults, or a fault and a deallocuvm, leave the frame
  unfreed. `CowConservation.ConservedExactly` says exactly which runs conserve
  the pages, and `FaultsCanLeak` and `ShrinkCanLeak` give runs that do not.
- allocuvm ignores a failed mappages; `Vm.Memory.AllocUvm` says exactly when the
  last page is missed, its frame lost, and the growth reported as done.
- deallocuvm can overlook pages when it starts in the middle of a missing page
  table; `Vm.MissedExactly` says which.
- Ten blocks per operation are one too many for the log of 30 blocks that mkfs
  makes. log_write can panic (`LogOverflow.FinePanicExactly`); and since it tests
  the size before it takes the lock, two operations can also pass the test
  together, fill the log past its end without a panic, and overwrite the first
  block of inodes (`LogOverflow.OverflowOverwrites`). With nine blocks or fewer
  neither can happen, and the log is crash-safe exactly then
  (`LogOverflow.CrashSafeExactly`).
- The log may pin so many of the 30 buffers that few are left: with nine blocks
  per operation bget can panic as soon as a third buffer is asked for while two
  are in use (`BcacheFull.RunsOutExactly`).
- A lottery whose tickets sum to -1 makes the scheduler divide by zero, since
  set_lottery_ticket takes any number: `Sched.LotterySched`.
- malloc hands out too little for requests above 2^32 - 8 bytes and passes a wrong
  amount to sbrk from 2^28 units on: `Umalloc.RoomExactly`, `Umalloc.AskExactly`.

## Model

| member | source | states |
|---|---|---|
| `CowTheorems.ReadsAsIfCopied` | source/vm.c:333-492 | Main result for memory: after any run of forks, writes, faults taken apart at their lock points, grows, shrinks, execs and exits, a process in user mode finds through its page table exactly the bytes it would have had every fork copied every page |
| `CowRefinement.StepRefines` | source/vm.c:409-492 | Every step keeps the invariant and is one step (or none) of the machine with private pages |
| `CowRefinement.RunRefines` | source/proc.c:191-232 | The same along whole runs, however the steps of different processes interleave |
| `CowRefinement.ReachableInv` | source/vm.c:15 | Every state reached from power-up satisfies the invariant |
| `CowTheorems.CountsAreExact` | source/vm.c:448-488 | No panic of pagefault is reached on a fault the processor can raise; a count is the number of page-table entries that map the frame (one more for a frame lost by allocuvm), lies between 0 and NPROC, and so fits a signed char |
| `CowTheorems.FramesAreAccounted` | source/kalloc.c:61-99 | Each frame has one of six uses, and the use tells its count and whether it is on the free list: free, kernel-owned, held by an operation or leaked with count 0; mapped with count at least 1; lost with count 1 |
| `CowTheorems.LeakExactly` | source/vm.c:465-481 | One step: it makes a frame leaked or lost in exactly two cases, a fault that lowers the count to zero and a failed mappages that allocuvm ignores, and no step takes it back; over runs see CowConservation |
| `CowTheorems.OverlappingFaultsLeak` | source/vm.c:465-480 | Two processes that share a frame and fault on it at the same time both copy and both count down: the frame ends with count 0 and is never freed |
| `CowTheorems.SharedReadOnly` | source/vm.c:346-350 | An entry that another entry equals is not writable |
| `CowTheorems.FaultEnds` | source/vm.c:459-481 | A fault that finishes leaves the page writable for users: its process can write there and cannot fault there |
| `CowTheorems.OthersKeepView` | source/vm.c:454-488 | No step of another process changes the entries of this one |
| `CowTheorems.WriteFaultsOnce` | source/vm.c:448-451 | A page that can be written can still be written, and cannot fault, after any run of other processes |
| `CowTheorems.RetryGoesThrough` | source/vm.c:448-488 | End to end: the fault of a write ends, any run of other processes follows, and the retried write goes through and cannot fault |
| `CowConservation.ConservedExactly` | source/vm.c:465-481 | Main result for page conservation: over any run from power-up every frame stays in account (free, mapped, kernel-owned or held by an operation) if and only if no fault is overtaken, by another fault or by deallocuvm on the same frame taking its last reference but one, and still finishes, and mappages never fails in allocuvm |
| `CowConservation.SerialConserves` | source/vm.c:267-296 | In every run whose faults on a frame overlap neither each other nor deallocuvm, when mappages does not fail: with nothing in flight a frame is free, or kernel-owned, or mapped, exactly one of these, and its count is the number of entries that map it |
| `CowConservation.InAccount` | source/kalloc.c:61-99 | A frame in account is exactly one of free with count 0, mapped with its number of references as count, kernel-owned with count 0, in the hands of one operation with count 0 |
| `CowConservation.DoomExactly` | source/vm.c:465-480 | A fault comes to hold the only reference to a frame it saw shared exactly when another directory takes the last reference but one |
| `CowConservation.OvertakenLeaks` | source/vm.c:477-481 | A fault that is overtaken and finishes leaves its frame out of account for the rest of the run, whatever else happens |
| `CowConservation.LeakHasCause` | source/vm.c:477-481 | Only such a fault does |
| `CowConservation.LostExactly` | source/vm.c:253-257 | A run loses a frame exactly when mappages fails in allocuvm |
| `CowConservation.DoomedCanLeak` | source/vm.c:467-481 | From any state with an overtaken fault and a free page the fault can finish and put its frame out of account |
| `CowConservation.SharingIsReachable` | source/proc.c:191-232 | From power-up a process that grows by a page and forks shares it with its child, with count 2 |
| `CowConservation.FaultsCanLeak` | source/vm.c:465-480 | From every power-up state with four free pages there is a run whose two overlapping faults put a frame out of account |
| `CowConservation.ShrinkCanLeak` | source/vm.c:280-293 | The same for a fault that overlaps with the other process shrinking |
| `CowKeep.KeepFaultEnter` | source/vm.c:424-467 | Reading the count under the lock keeps the invariant |
| `CowKeep.KeepFaultEnable` | source/vm.c:457-461 | Making a sole page writable after the lock was released keeps it |
| `CowKeep.KeepFaultAlloc` | source/vm.c:468-474 | Taking a frame, or dying for lack of one, keeps it |
| `CowKeep.KeepFaultCopy` | source/vm.c:476 | Copying the contents outside the lock keeps it |
| `CowKeep.KeepFaultDrop` | source/vm.c:477-480 | Moving the counts keeps it, also when others left meanwhile |
| `CowKeep.KeepFaultSet` | source/vm.c:481 | Rewriting the entry keeps it |
| `CowKeep.KeepGrowMap` | source/vm.c:253-257 | Mapping and counting a fresh zeroed page keeps it |
| `CowKeep.KeepUnmap` | source/vm.c:280-293 | Uncounting, freeing on the last reference and clearing the entry keeps it |
| `CowKeep.KeepForkPage` | source/vm.c:346-354 | Sharing one page with a child under construction keeps it |
| `CowKeep.KeepExecCommit` | source/exec.c:102-108 | Replacing an address space keeps it |
| `CowInvariant.RefsBound` | source/vm.c:15 | At most NPROC references share a frame |
| `Vm.MissedExactly` | source/vm.c:275-280 | deallocuvm overlooks a present page exactly when it starts inside a missing page table and every table before that of the page is missing too |
| `Vm.Memory.constructor` | source/kalloc.c:33-58 | freerange puts every page above the kernel on the free list, and the machine state is a power-up state |
| `Vm.Memory.Kalloc` | source/kalloc.c:86-99 | The head of the free list leaves it |
| `Vm.Memory.Kfree` | source/kalloc.c:62-81 | The page is filled with ones and becomes the head |
| `Vm.Memory.WalkAlloc` | source/vm.c:45-63 | The page table of the page exists afterwards, or there was no free page and nothing changed |
| `Vm.Memory.SetupKvm` | source/vm.c:128-146 | A directory with the kernel page tables; with fewer than 65 free pages, exactly then, nothing changes but the contents of free pages |
| `Vm.Memory.UnmapPage` | source/vm.c:280-293 | One page of deallocuvm: the reference machine drops just that page |
| `Vm.Memory.DeallocUvm` | source/vm.c:267-296 | Exactly the pages its loop visits are unmapped, uncounted and freed on their last reference; nothing else changes |
| `Vm.Memory.FreeTables` | source/vm.c:308-313 | Exactly the page-table pages of the directory become free |
| `Vm.Memory.FreeVm` | source/vm.c:301-315 | All user pages, page tables and the directory are given back, and no other address space changes |
| `Vm.Memory.CopyBegins` | source/vm.c:339-340 | The child directory, or a fork that has changed nothing |
| `Vm.Memory.CopyClears` | source/vm.c:346 | The parent loses write permission on one page and keeps everything else |
| `Vm.Memory.CopyMaps` | source/vm.c:350-354 | The child maps the same frame and its count grows by one; it fails exactly when a page table is missing and no page is free |
| `Vm.Memory.CopyFails` | source/vm.c:359-362 | Dismantling a half-built child restores every count, use, page table and the set of free pages |
| `Vm.Memory.CopyUvm` | source/vm.c:333-363 | Exactly when it fails, panics and succeeds, from the free pages and the first page that is not present; success leaves a child that shares every page, and failure at any page restores counts, free pages and contents |
| `Vm.Memory.Fork` | source/proc.c:191-232 | The same exact conditions with the kernel stack counted in; on success the reference machine has copied every page to the new process |
| `Vm.Memory.FaultFetches` | source/vm.c:467-476 | A private copy of the frame, or the process is killed exactly when no page is free |
| `Vm.Memory.FaultInstalls` | source/vm.c:477-481 | Counts move by one each and the entry points to the copy |
| `Vm.Memory.FaultCopies` | source/vm.c:465-482 | The shared case as a whole: nothing that any process reads changes |
| `Vm.Memory.PageFault` | source/vm.c:409-492 | Exactly when the fault kills; otherwise the page becomes writable, no other entry changes, and no process reads anything different |
| `Vm.Memory.GrowPage` | source/vm.c:247-257 | A zeroed page is mapped and one or two free pages are used; the mapping is missed exactly when one free page is left and its page table is absent |
| `Vm.Memory.AllocUvm` | source/vm.c:235-260 | Exactly when it succeeds, from the free pages and the page tables there are: then all pages of the range are zeros, save the last, which is missed exactly when its page table is one page too many; otherwise the address space reads as before |
| `Vm.Memory.GrowProc` | source/proc.c:169-185 | Exactly when it succeeds; the new pages are zeros, the pages below the new size are as they were, no other process sees a change; size and mapped pages stay in step exactly when the process does not shrink to nothing and no page was missed |
| `LogFine.FineHomeIsCommitted` | source/log.c:214-233 | Main result for the log: with fewer than MAXOPBLOCKS blocks for each operation, and log_write taken apart where it takes its lock, after any run with crashes between any two block writes, also during recovery, whenever the system is up every home block holds the transactions whose header write reached the disk, and nothing else |
| `LogOverflow.CrashSafeExactly` | source/log.c:218-229 | That holds of all runs from a fresh disk if and only if the bound on the blocks per operation is below MAXOPBLOCKS |
| `LogOverflow.OverflowOverwrites` | source/log.c:218-229 | At MAXOPBLOCKS: from every fresh disk a run in which two operations pass the size test of log_write at 28 blocks and both append, the thirtieth log write goes to block 32, the first block of inodes, and a crash before the header write leaves there what no transaction wrote |
| `LogOverflow.LogOutgrown` | source/log.c:177-190 | The same run up to commit: 30 blocks are logged, one more than the disk has room for, without a panic |
| `LogOverflow.OutgrownExactly` | source/log.c:218-229 | The log stays within its blocks on the disk, in all runs, if and only if the bound is below MAXOPBLOCKS |
| `LogOverflow.FinePanicExactly` | source/log.c:218-219 | log_write never panics, in all runs, if and only if the bound is below MAXOPBLOCKS |
| `LogFine.OneStep` | source/log.c:218-232 | Below MAXOPBLOCKS a size test always passes and changes nothing else, and an append is a log_write in one step |
| `LogFine.Reduces` | source/log.c:126-233 | So every run below MAXOPBLOCKS is, without the tests, a run of the machine whose log_write is one step |
| `LogFine.ExpandRuns` | source/log.c:126-233 | Conversely every run of that machine is possible with log_write taken apart |
| `LogFine.FineOperationsAreAtomic` | source/log.c:126-174 | Main result for operations: below MAXOPBLOCKS, over any run with crashes anywhere, the committed transactions are the groups of a journal computed from the calls alone, and all writes of an operation are in one group that reached the disk, or none is in any: none exactly when a crash found the operation or its group unfinished, or the group is still open |
| `LogFine.FineDiskIsHistory` | source/log.c:126-202 | Below MAXOPBLOCKS, whenever the system is up the home blocks are those of a disk on which everything ever logged was written in place and in order, without what the lost operations and the open group wrote |
| `LogFine.FineCommitPoint` | source/log.c:192-202 | Below MAXOPBLOCKS, what recovery would restore changes at one step only, the header write that the journal counts down to, and there by the whole group |
| `LogFine.FineEarlierIsDurable` | source/log.c:126-174 | Below MAXOPBLOCKS, with other operations sharing the transactions: when anything of an operation is on the disk, so is all of every operation that had ended when it began, if no crash came in between |
| `LogFine.FineReservationsFit` | source/log.c:132 | With a bound of at most MAXOPBLOCKS, in every interleaving, logged blocks and unused reservations together stay within 10 blocks and twice the bound (none for a bound of 0), and so within the array of the header |
| `LogTheorems.HomeIsCommitted` | source/log.c:69-122 | On the machine whose log_write is one step, for any number of blocks per operation: after any run with crashes between any two block writes, whenever the system is up every home block holds the committed transactions, and nothing else |
| `LogTheorems.RecoveryCompletes` | source/log.c:115-122 | From any state, crash and recovery end after one write for each logged block and one for the header, with the same committed transactions installed |
| `LogAtomic.OperationsAreAtomic` | source/log.c:126-174 | On the same machine: the committed transactions are the groups of the journal, and an operation is in one of them as a whole or in none |
| `LogAtomic.DiskIsHistory` | source/log.c:126-202 | On the same machine: the home blocks are those of the history without the lost operations and the open group |
| `LogAtomic.CommitPoint` | source/log.c:192-202 | On the same machine: what recovery would restore changes only at the header write the journal counts down to, and there by the whole group |
| `LogAtomic.FollowsStep` | source/log.c:146-202 | Every step of the log follows the journal: which transactions are committed, what the cache holds, how many writes are left |
| `LogAtomic.AllOrNothing` | source/log.c:154-162 | In the journal no operation is split between groups |
| `LogAtomic.EarlierIsDurable` | source/log.c:154-162 | In the journal, without a crash in between: when anything of an operation is durable, so is all of every operation that had ended when it began |
| `LogTheorems.KeepCommitHead` | source/log.c:102-113 | Before the header write recovery yields the old contents, after it the new |
| `LogTheorems.KeepCopyLog` | source/log.c:177-190 | Writing a log block keeps the invariant |
| `LogTheorems.KeepInstall` | source/log.c:70-82 | Installing a block, in commit or in recovery, keeps it |
| `LogTheorems.KeepClear` | source/log.c:199-201 | Clearing the header keeps it |
| `LogTheorems.KeepLogWrite` | source/log.c:214-233 | A log_write in one step keeps the invariant, with absorption and with the panic |
| `LogTheorems.KeepStep` | source/log.c:126-202 | Every step, a crash included, keeps it |
| `LogTheorems.InstallRecovers` | source/log.c:70-82 | Installing twice or in part makes no difference to recovery |
| `LogTheorems.ReservationsFit` | source/log.c:132 | On the machine whose log_write is one step: logged blocks and unused reservations together stay within 10 blocks and twice the bound on the blocks per operation, for bounds up to MAXOPBLOCKS |
| `LogTheorems.OneLessNeverPanics` | source/log.c:218-219 | On the same machine: with at most MAXOPBLOCKS - 1 blocks per operation the log holds at most 28 blocks and log_write does not panic |
| `LogTheorems.PanicExactly` | source/log.c:218-219 | On the same machine: a bound on the blocks per operation rules the panic out if and only if it is below MAXOPBLOCKS |
| `Log.Log.constructor` | source/log.c:53-66 | The log of a fresh disk |
| `Log.Log.WriteLog` | source/log.c:177-190 | The log blocks get the cached contents and no home block changes |
| `Log.Log.WriteHead` | source/log.c:102-113 | The header block gets n and the block numbers, in one write |
| `Log.Log.InstallTrans` | source/log.c:70-82 | Every logged block is copied home, one write at a time |
| `Log.Log.Commit` | source/log.c:193-202 | One transaction more is committed, or none when nothing was logged |
| `Log.Log.BeginOp` | source/log.c:126-141 | Admits the operation exactly when no commit runs and its reservation fits |
| `Log.Log.LogWrite` | source/log.c:214-233 | With no other call between its two parts: the block keeps its place or is appended, its buffer is pinned, and bread returns the new contents; false is the panic |
| `Log.Log.SizeTest` | source/log.c:218-221 | The test before the lock |
| `Log.Log.Append` | source/log.c:223-232 | The part under the lock: the block keeps its place or is appended and its buffer is pinned, also in a log that has filled up since the test; the log is valid afterwards exactly when it is still within its blocks on the disk |
| `Log.Log.EndOp` | source/log.c:146-174 | The last operation commits the group; committing implies that no operation is outstanding, so the panic is not reached (for every interleaving: SleepTheorems.EndOpNeverPanics) |
| `Log.Log.ReadHead` | source/log.c:86-96 | The in-memory header becomes that of the disk |
| `Log.Log.RecoverFromLog` | source/log.c:116-122 | Afterwards every home block is that of the committed transactions |
| `BcacheTheorems.BreadReadsStore` | source/bio.c:61-106 | Main result for the cache: in every interleaving of its locked sections, a use that bread has served sees the block it asked for, with the contents a flat array of blocks would give it |
| `BcacheTheorems.StepRefines` | source/bio.c:97-141 | Every step of the cache is a step of the flat array |
| `BcacheTheorems.RunRefines` | source/bio.c:97-141 | The same along runs |
| `BcacheTheorems.OneCopy` | source/bio.c:61-93 | At most one buffer caches a block, a referenced buffer caches the block its users asked for, and refcnt is the number of users |
| `BcacheTheorems.NeverRecycled` | source/bio.c:81-91 | A buffer that is referenced or dirty keeps its block through every step, also between the release of the cache lock and acquiresleep |
| `BcacheTheorems.RecyclesOldest` | source/bio.c:81-92 | bget recycles the idle buffer released longest ago, and panics if and only if none is idle |
| `BcacheFull.RunsOutExactly` | source/bio.c:81-92 | Main result for the cache under the log: over all runs of the two machines together, crashes included, with a bound below MAXOPBLOCKS on the blocks per operation, bget never panics if and only if the buffers in use whenever one more is asked for and the most blocks the log can pin (10 and twice the bound, none for a bound of 0) are together fewer than NBUF |
| `BcacheLog.EnoughBuffers` | source/bio.c:81-92 | The panic is unreachable while that sum is smaller |
| `BcacheFull.FillRoom` | source/log.c:132 | From power-up a run that logs, and so pins, that many blocks |
| `BcacheFull.NoneLeft` | source/bio.c:92 | With all other buffers in use the next bget panics |
| `BcacheLog.KeepCoupled` | source/log.c:231 | In every run the dirty buffers are those of the blocks logged and not yet written home |
| `BcacheLog.PanicNeedsAll` | source/bio.c:81-92 | bget panics only when uses and dirty blocks together are as many as the buffers |
| `BcacheLog.DirtyStep` | source/bio.c:110-116 | log_write makes a buffer dirty, bwrite makes it clean, and nothing else touches the flag |
| `BcacheTheorems.KeepHit` | source/bio.c:69-76 | A hit keeps the invariant |
| `BcacheTheorems.KeepMiss` | source/bio.c:81-91 | A recycled buffer keeps it: the block it leaves is on the disk |
| `BcacheTheorems.KeepHolder` | source/bio.c:97-126 | What the holder of a buffer does keeps it |
| `BcacheTheorems.KeepDrop` | source/bio.c:128-138 | Releasing keeps it |
| `BcacheTheorems.MoveFront` | source/bio.c:130-138 | Moving the released buffer to the front keeps the list a permutation of all buffers in order of release |
| `Bcache.Cache.constructor` | source/bio.c:39-56 | binit builds the ring of all buffers |
| `Bcache.Cache.PushFront` | source/bio.c:134-137 | The four pointer updates put the buffer first and keep prev and next consistent |
| `Bcache.Cache.Unlink` | source/bio.c:132-133 | The two pointer updates take the buffer out and keep prev and next consistent |
| `Bcache.Cache.Bget` | source/bio.c:62-93 | The walk from the front finds the cached buffer; otherwise Recycle |
| `Bcache.Cache.Recycle` | source/bio.c:81-92 | The walk from the back finds the last idle buffer, or the panic |
| `Bcache.Cache.Bread` | source/bio.c:97-106 | A buffer that is not valid is read from the disk |
| `Bcache.Cache.WriteThrough` | source/bio.c:110-116 | The buffer reaches the disk and is clean |
| `Bcache.Cache.Brelse` | source/bio.c:121-141 | The last release moves the buffer to the front |
| `FsLayout.PutUintAt` | source/fs.c:391-394 | A word stored in an indirect block reads back and leaves the other words alone |
| `FsLayout.MarkUsed` | source/fs.c:65-68 | Setting or clearing one bit of the bitmap changes the mark of that block only |
| `FsInodes.PutInodeAt` | source/fs.c:227-234 | An inode written into its block reads back, word by word, and the other seven of the block stay as they were |
| `FsInodes.UpdatedInodes` | source/fs.c:227-235 | So of all inodes on the disk exactly one changes |
| `FsInodes.SyncedStored` | source/fs.c:222-237 | When the inodes on the disk are those in memory, the files on the disk are those in memory |
| `FsInodes.StoredSame` | source/fs.c:374-401 | The files on the disk depend on no block outside inodes, bitmap and data |
| `FsOwners.Claim` | source/fs.c:63-76 | A block found free is a data block that no slot owns; marking and zeroing it moves no address |
| `FsOwners.Attach` | source/fs.c:380-389 | A fresh block in an empty slot of an inode keeps ownership |
| `FsOwners.AttachEntry` | source/fs.c:391-395 | A fresh block in an empty entry of an indirect block keeps ownership |
| `FsOwners.FillSlot` | source/fs.c:380-389 | Allocation into a slot changes no byte of any file |
| `FsOwners.FillEntry` | source/fs.c:390-396 | Allocation into an entry changes no byte of any file |
| `FsOwners.KeepFiles` | source/fs.c:57-78 | When addresses stay or turn from none to a block of zeros, every file reads the same |
| `FsOwners.NeedStep` | source/fs.c:499-505 | Blocks still needed go down by exactly those that mapping one block allocates |
| `FsFiles.PatchData` | source/fs.c:500-504 | Patching a data block changes exactly those bytes of exactly that file |
| `FsFiles.WroteSplices` | source/fs.c:499-510 | The rounds of a write together splice the file |
| `FsFiles.DenseAfter` | source/fs.c:507-510 | A file without holes stays so, and its inode changes only when the file grows |
| `Fs.Fs.constructor` | source/mkfs.c:94-108 | The empty file system: metadata marked used, everything else free, inodes on the disk as in memory |
| `Fs.Fs.LogBlock` | source/log.c:204-233 | A block is changed and passed to log_write: the contents of all blocks are at any time those at the start of the operation with the logged ones replayed |
| `Fs.Fs.Balloc` | source/fs.c:57-78 | The first unused block, owned by nobody, zeroed and marked; the panic exactly when all data blocks are owned |
| `Fs.Fs.SlotAddr` | source/fs.c:380-389 | The address in a slot of the inode, allocated when there is none |
| `Fs.Fs.Bmap` | source/fs.c:374-401 | The block of the file, allocated with its indirect block when missing; no file reads differently; the panic exactly when too few blocks are free or the block number is out of range |
| `Fs.Fs.BmapIndirect` | source/fs.c:386-398 | The same beyond the direct blocks |
| `Fs.Fs.PutBytes` | source/fs.c:500-504 | One round of a write |
| `Fs.Fs.WriteRange` | source/fs.c:499-505 | The loop of a write |
| `Fs.Fs.Iupdate` | source/fs.c:222-237 | The inode in memory goes to its place in its block; no other inode on the disk and no file changes |
| `Fs.Fs.Writei` | source/fs.c:483-512 | Refuses exactly an offset past the end, a wrapped range and a file too large; otherwise the file is spliced at the offset, every other file and inode is unchanged, exactly the needed blocks are allocated, only listed blocks are logged, no file gets a hole, and for a dense file the inodes on the disk stay those in memory |
| `Fs.Fs.ReadRange` | source/fs.c:470-475 | The loop of a read |
| `Fs.Fs.Readi` | source/fs.c:454-477 | Returns exactly the stored slice up to the end of the file; allocates exactly the holes in the range, hence nothing in a dense file; no file changes |
| `Fs.Fs.Bfree` | source/fs.c:82-96 | Clears the mark of one block; the panic exactly on a block that is free |
| `Fs.Fs.TruncDirect` | source/fs.c:415-420 | The direct blocks are freed; the panic of bfree is unreachable |
| `Fs.Fs.TruncIndirect` | source/fs.c:422-432 | The entries and the indirect block are freed; the panic is unreachable |
| `Fs.Fs.Itrunc` | source/fs.c:409-436 | Exactly the blocks the inode owned become free, no other file changes, and of the inodes on the disk exactly this one, to what it is in memory |
| `FileIo.OpenFile.WriteChunk` | source/file.c:140-145 | One transaction: at most seven distinct blocks are logged, and all changed blocks are among them |
| `FileIo.OpenFile.FileWrite` | source/file.c:118-156 | All n bytes in order and the result n, or the chunks that fit the largest file and the result -1; every transaction logs at most seven blocks; for a dense file, after any number of the transactions the disk holds that many chunks of the file and every other file as it was |
| `FileIo.FittingStep` | source/file.c:135-152 | The chunks that fit, one by one |
| `FileIo.WrittenCount` | source/file.c:127-133 | Bitmap, inode, indirect block and the data blocks of the range |
| `FileIo.ChunksFit` | source/log.c:218-229 | Transactions of that size never make log_write panic nor the log outgrow its blocks, however operations mix |
| `FileIo.ChunkedMore` | source/file.c:135-152 | One more transaction on the disk is one more chunk of the file |
| `FileCrash.CrashKeepsPrefix` | source/file.c:135-152 | Main result for files: filewrite on top of the log is interrupted by a crash anywhere, between test and append of a log_write, at another call or between two block writes, and recovery, itself interrupted any number of times, leaves a disk that holds exactly the chunks whose transaction has passed its header write, in order, and every other file as it was |
| `FileCrash.TxnsWithin` | source/file.c:127-133 | The calls of filewrite keep every operation within seven blocks, so that its runs reduce to those of a log_write in one step |
| `FileCrash.Track` | source/log.c:126-202 | Along the calls of begin_op, log_write and end_op and the block writes of commit, what recovery would restore is exactly the transactions that have ended, less the one whose header write is still to come |
| `FileCrash.AllWritten` | source/log.c:126-202 | Without a crash all the transactions go through, without a panic, and the log is empty again |
| `FileCrash.RecoveryKeeps` | source/log.c:115-122 | Recovery with any number of further crashes changes nothing that was committed |
| `SleepTheorems.NoLostWakeup` | source/proc.c:428-484 | Main result for sleep and wakeup: in every interleaving, whoever has tested its condition and gone to sleep would, whenever the lock is free, still find that very condition: the sleep-lock locked; a commit running or no room in the log for another reservation; no zombie child |
| `SleepTheorems.AsleepInBeginOp` | source/log.c:129-140 | In particular nobody sleeps in begin_op while its reservation fits and no commit runs |
| `SleepTheorems.WakeupReachesAll` | source/proc.c:468-475 | A wakeup under the lock, ptable.lock included, leaves nobody asleep or on the way to sleep on that channel |
| `SleepTheorems.SleepLocksExclude` | source/sleeplock.c:23-42 | At most one process is between acquiresleep and releasesleep |
| `SleepTheorems.EndOpNeverPanics` | source/log.c:150-156 | end_op never finds a commit in progress |
| `SleepTheorems.GateWaits` | source/log.c:130-134 | Whoever finds begin_op busy waits for a commit or an outstanding operation, so somebody will wake it |
| `SleepTheorems.ChangeOk` | source/log.c:151-172 | A change that ends a condition somebody may sleep on is followed by a wakeup; without the wakeup in end_op this fails |
| `SleepTheorems.ScanAlone` | source/proc.c:436-452 | While a process is in wakeup1 nobody else is on the way to sleep on its channel |
| `SleepTheorems.KeepStep` | source/proc.c:428-484 | Every step keeps lock ownership, the monitors and the absence of lost wakeups |
| `Sched.LotterySched` | source/proc.c:597-637 | The process that holds the drawn ticket, or the first in the queue when the draw is out of reach, for any tickets; none exactly when the queue is empty; a divide error exactly when the tickets and one come to a multiple of 2^32 |
| `Sched.FairDraw` | source/proc.c:589-632 | Without negative tickets, and with few enough for an int, there is no divide error and the draw is a ticket that somebody holds |
| `Sched.ShareExactly` | source/proc.c:605-632 | Over all draws from 0 to the total a process wins exactly as many as it has tickets, the first in the table one more |
| `Sched.WinnerUnique` | source/proc.c:616-632 | A draw has one winner |
| `Sched.SjfSched` | source/proc.c:675-701 | The first process with the least burst time |
| `Sched.PrioritySched` | source/proc.c:641-671 | The first process with the least priority number |
| `Sched.Choose` | source/proc.c:882-887 | Lottery, then shortest job, then priority, each only when the earlier queues are empty; none exactly when no process is runnable in the three queues; the divide error of the lottery |
| `Sched.Wakeup1` | source/proc.c:468-475 | Exactly the processes sleeping on the channel become runnable |
| `Pipe.Pipe.WriteSome` | source/pipe.c:84-98 | The bytes are appended in order until the end or until 512 are unread; then -1 exactly when the reader is gone or the process killed, otherwise it sleeps |
| `Pipe.Pipe.Fill` | source/pipe.c:84-94 | The copy loop stops at the end or at a full ring |
| `Pipe.Pipe.PutByte` | source/pipe.c:93 | One byte, in a place no unread byte uses |
| `Pipe.Pipe.ReadSome` | source/pipe.c:106-120 | Sleeps, or fails when killed, exactly while the ring is empty and a writer is left; otherwise the oldest unread bytes, as many as asked for or as there are; what was read is always a prefix of what was written |
| `Pipe.Wraps` | source/pipe.c:85 | Full and empty are told apart by counters that wrap around |
| `Pipe.RingSlots` | source/pipe.c:93 | Unread bytes and the next one have different places |
| `Pipe.Pipe.Close` | source/pipe.c:60-75 | The pipe is freed exactly when both ends are closed |
| `HeapModel.FreedOk` | source/umalloc.c:33-43 | free keeps the list circular, in address order and coalesced, and the blocks a partition |
| `HeapModel.FreedMem` | source/umalloc.c:33-42 | The headers after the two joins of free are those of the four cases of merging |
| `HeapModel.AbsorbOk` | source/umalloc.c:33-35 | Joining the upper neighbour keeps the heap |
| `HeapModel.ExtendOk` | source/umalloc.c:38-40 | Joining the lower neighbour keeps the heap |
| `HeapModel.EnterOk` | source/umalloc.c:36-42 | A block that touches nothing enters the list |
| `HeapModel.TakeWholeOk` | source/umalloc.c:76-77 | Taking a block of the right size keeps the heap |
| `HeapModel.TakeTailOk` | source/umalloc.c:78-82 | Cutting off the end of a block keeps the heap |
| `HeapModel.AddBlockOk` | source/umalloc.c:57-59 | Memory from sbrk extends the partition |
| `HeapModel.UnitsConserved` | source/umalloc.c:24-90 | Free and live blocks together have exactly the units that sbrk gave |
| `HeapModel.Apart` | source/umalloc.c:24-90 | Blocks never overlap |
| `Umalloc.StopsExactly` | source/umalloc.c:30-32 | The search of free stops at the free block before the one to be freed and nowhere else |
| `Umalloc.Allocator.Seek` | source/umalloc.c:30-32 | The search terminates, at that block |
| `Umalloc.Allocator.Free` | source/umalloc.c:25-44 | The block leaves the live ones, its units stay in the heap, other blocks keep their sizes |
| `Umalloc.Allocator.Morecore` | source/umalloc.c:47-61 | At least 4096 units join the list; sbrk gets a wrong amount exactly when the size does not fit an int |
| `Umalloc.Allocator.Scan` | source/umalloc.c:74-86 | One round terminates with the first block large enough after freep, or none is |
| `Umalloc.Allocator.Take` | source/umalloc.c:76-84 | A block of exactly the units asked for becomes live |
| `Umalloc.Allocator.Malloc` | source/umalloc.c:64-90 | A new live block of exactly the units, or null; at most one morecore, called exactly when no free block is large enough; the heap grows by exactly what sbrk gave |
| `Umalloc.RoomExactly` | source/umalloc.c:69 | The block has room for the request exactly when rounding does not wrap around |
| `Umalloc.AskExactly` | source/umalloc.c:54 | sbrk is asked for the right amount exactly below 2^28 units |
| `ShellRoundTrip.ParseUndoesPrint` | source/sh.c:328-446 | Main result for the shell: parsing the fully parenthesised text of any command with legal words and fewer than MAXARGS arguments each rebuilds the command |
| `ShellRoundTrip.Parses` | source/sh.c:345-446 | The same at any position of a line |
| `ShellSyntax.ParseLine` | source/sh.c:345-359 | Terminates on every line; words found are maximal runs of plain characters |
| `ShellSyntax.ParsePipe` | source/sh.c:362-372 | The same for a pipeline |
| `ShellSyntax.ParseExec` | source/sh.c:400-446 | The same for a simple or parenthesised command |
| `ShellSyntax.Redirs` | source/sh.c:375-397 | The same for redirections |
| `ShellSyntax.Args` | source/sh.c:429-446 | The same for arguments |
| `Shell.Parser.NextToken` | source/sh.c:266-308 | The cursor moves over one token, with the loops of gettoken |
| `Shell.Parser.Peeks` | source/sh.c:311-320 | The cursor moves over white space |
| `Shell.Parser.ParseRedirs` | source/sh.c:375-397 | The loop collects the redirections of the grammar |
| `Shell.Parser.ParseWords` | source/sh.c:426-446 | The loop collects the arguments and redirections of the grammar |
| `Shell.Parser.ParseSimple` | source/sh.c:400-424 | Parentheses as in the grammar |
| `Shell.Parser.ParsePipeline` | source/sh.c:362-372 | Pipelines as in the grammar |
| `Shell.Parser.ParseList` | source/sh.c:345-359 | Background and sequence as in the grammar |
| `Shell.Parser.Parse` | source/sh.c:328-342 | The tree of the grammar; after nulterminate every argument and file name reads as exactly its token |
| `Shell.Terminate` | source/sh.c:450-493 | A NUL behind every word and no other change |
| `Shell.ReadsBack` | source/sh.c:449-493 | Terminating one word never cuts into another |
| `Grep.Match` | source/grep.c:73-82 | Decides exactly the language the pattern denotes, anchors included |
| `Grep.MatchHere` | source/grep.c:85-96 | Some string of the language begins the text, and ends it when the pattern says so |
| `Grep.MatchStar` | source/grep.c:99-106 | Some fitting characters, then the rest of the pattern |
| `Grep.HereStar` | source/grep.c:89-90 | The starred case of the denotation |
| `Grep.HereOne` | source/grep.c:93-94 | The single-character case of the denotation |

## Left out

- LogFine.FineHomeIsCommitted: the header is a record of its own, not 124 bytes of a block; a block write is atomic.
- LogOverflow.CrashSafeExactly: above MAXOPBLOCKS the array of the header in memory can overflow as well, which C leaves undefined; the model lets it grow.
- Log.Log.LogWrite: one call; what comes between its test and its append in other processes is in LogFine.
- Log.Log.BeginOp: one pass of the loop; sleeping and waking are in SleepMachine.
- BcacheTheorems.BreadReadsStore: a client that changes a buffer passes it to log_write or bwrite before brelse, as the interface asks; blocks lie on the root device and inside the disk.
- Bcache.Cache.Bget: the locked section; acquiresleep and releasesleep are steps of the machine.
- Fs.Fs.Writei: regular files and directories; the device switch, inode locks and the type, device and link fields of an inode are not modelled, and the disk has one bitmap block.
- FileIo.OpenFile.FileWrite: no other writer of the same file between two chunks.
- FileCrash.CrashKeepsPrefix: no other operation of the file system runs during the filewrite; with others, that chunks are kept whole and in order is LogFine.FineOperationsAreAtomic and LogFine.FineEarlierIsDurable, at the level of block writes.
- BcacheFull.RunsOutExactly: which buffers are pinned and in use; that the two machines agree on contents is not stated.
- CowTheorems.WriteFaultsOnce: the process itself does not fork, shrink or replace its address space meanwhile.
- Sched.LotterySched: the sum of the tickets is taken without the overflow that C leaves undefined, and converted to 32 bits where the division does.
- Pipe.Pipe.WriteSome: one stretch under the lock; the stretches of a call that sleeps follow one another as readers and writers interleave.
- Umalloc.Allocator.Malloc: what sbrk answers is a parameter, aligned to headers and above all it gave before; after a call of sbrk with a wrong amount nothing more is said.
- Umalloc.Allocator.Free: the pointer comes from malloc and has not been freed since, as free demands.
- Shell.Parser.ParseWords: the exec node is filled after redirections have been wrapped around it; arguments and redirections are collected side by side and the tree is built at the end.
- Sleep, acquiresleep, releasesleep, begin_op, wait: modelled on values as steps between lock operations, not as classes; a condition is one monitor, with its own lock and channel.
- exec: a staged address space of fresh pages replaces the old one; ELF parsing, argument strings, copyout and loading from the file are left out.
- cowuvm repeats copyuvm; clearpteu appears as a page mapped without user access.
- Hardware: boot, segments, interrupts, the TLB, disk queues, the 32-bit layout of page-table entries (a page is present when the map has it).
- Names and links: directories as files of entries, path lookup, link counts, the inode cache.
- numFreePages, process listings, the console, fetching of system-call arguments, user test programs: counting, input and output around the parts above.
