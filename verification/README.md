# xv6 core: models and proofs

This project models the parts of a modified xv6 kernel, and of two of its user programs, where
correctness is hard to see from the code, and proves what they keep over every input, every run
or every reachable state.  `dafny verify dfyconfig.toml` checks all of it.

What is modelled, and the files that do it:

- **The file system log** (`RedoLog`, `LogMachine`, `LogTheorems`, `LogSerial`, `LogShared`,
  `LogOverflow`, `LogProgress`, `LogCode`).
  A small-step machine of the buffer cache, the log and the disk, in which any number of
  operations interleave and the machine may stop between any two block writes, also inside
  recovery.  One block transfer is atomic.  Beside it `LogCode` has log.c itself, as a class.
- **The block tree** (`FileTree`, `FileContents`, `FileTrunc`, `FileLogs`, `FileSteps`, `FileOps`,
  `FileCount`, `FileWrite`, `Words`).  fs.c's bitmap, inodes, direct, indirect and
  double-indirect blocks, against a file that is a sequence of bytes; which blocks an operation
  logs; and filewrite's cutting of a write into transactions, with the number of blocks of each.
  `FileCrash` runs those transactions on the log machine, and `DiskCoding` lays blocks and inodes out
  as the machine does.
- **The buffer cache** (`BufRing`, `BufCache`).  bio.c's ring, its reference counts and flags,
  over the disk of memide.c.
- **The stride scheduler** (`StrideHeap`, `StrideFair`, `StrideQueue`).
- **malloc and free** (`FreeList`, `Umalloc`): the circular first-fit allocator of section 8.7 of
  Kernighan and Ritchie, The C Programming Language, 2nd edition.
- **Page tables over the page allocator** (`PageTables`, `Vm`).
- **Sleep locks** (`SleepLock`) and **pipes** (`PipeRing`, `PipeCalls`, `PipeStranded`), as step
  machines with any number of processes.
- **The shell's parser** (`ShellGrammar`, `ShellRoundTrip`, `ShellSentences`, `ShellLayout`,
  `ShellParser`) and **grep's matcher** (`Grep`).

`Paths` has finite paths of a transition relation, and `Sizes` the constants of param.h that several
files share.

How the models are cut: code that changes a structure is a class whose methods are proved
against functions on values, and the invariants are lemmas about those functions.  Protocols
are relations between states, and their theorems speak of every state of every run.  A panic is
a result, never a precondition, except where the code relies on its caller to avoid it.  Calls
into hardware are parameters: whether sbrk grants memory and how far away, which processes are
runnable, when the power fails.

## What is not true of the code

Where a property that one would expect fails, a lemma says exactly when it holds, and some have
beside them a case in which it does not.

- Two operations may pass log_write's test together, because it reads the number of logged
  blocks before taking the lock.  With the log that mkfs makes (LOGSIZE blocks, one of them the
  header) the logged blocks always fit if and only if operations add fewer than MAXOPBLOCKS
  blocks each (`LogOverflow.FitsIff`), and the panics of log_write are out of reach under the same
  condition (`LogOverflow.GuardIff`).  Crash atomicity needs no such bound: it holds of every run
  as long as the logged blocks have fitted, and they do whenever no two operations are between
  the test and the lock (`LogTheorems.FitsOneAtATime`), however many blocks each adds.
- filewrite does not keep to the MAXOPBLOCKS that begin_op sets aside.  A transaction dirties
  exactly `Dirtied(off, n, size)` blocks (`FileWrite.Transaction`, on a disk that one bitmap block
  covers, as FSSIZE blocks are), so it fits if and only if that number is at most ten.  It is never more than 19
  (`FileWrite.TransactionBound`), and at least 13 for a full chunk (`FileWrite.FullExceeds`).
  Eight blocks of a new file fit and nine do not (`FileWrite.NewFile`).
- stride_queue_heapify_down never looks at slot 64.  It fails to restore the heap if and only if
  64 processes are queued, the hole is on the left edge of the tree, at every slot of that edge
  from the hole down to slot 16 the left child counts less than the right one and less than the
  process that sinks, and the process in slot 64 counts less than that one too:
  `StrideHeap.SunkHeap`, and `StrideQueue.FullTable` for a table that it leaves broken.
- The process that selection charges is not always the one that is then dispatched, since the
  slot is read again after the process has sunk from it: `StrideQueue.DispatchedIff` says when,
  for every slot, and `StrideQueue.AnotherRuns` is a queue in which another runs.
- Shares are proportional to within one stride of each process on every queue that joins and
  selections make (`StrideFair.GrownFair`), whether one counts charges (`StrideFair.ProportionalShare`)
  or dispatches (`StrideFair.DispatchShare`).  Giving a member another share keeps that if and only if
  it is within its new stride of the root (`StrideFair.ShareChangeIff`), and charging a process
  other than the root, as selection does past a sleeping one, if and only if the process is
  level with the root (`StrideFair.ChargedFairIff`).  `StrideFair.UnfairStart` is a run to and
  from a queue that is not fair; from such a queue `StrideFair.ShareFromAnywhere` holds.
- set_cpu_share checks the limit for the calling process alone, and panics when a thread's part
  goes over it: `StrideQueue.Table.SetCpuShare` says exactly when, `StrideQueue.TooMuchIff` in terms
  of the final sum, and `StrideQueue.OneTooMany` is a request that does.
- malloc's block holds the request if and only if `nbytes + sizeof(Header) - 1` does not wrap:
  `Umalloc.HoldsRequest`, and `Umalloc.LargestWraps` for one that does.
- morecore multiplies in 32 bits and passes the product to sbrk as an int.  sbrk is asked for what
  is needed if and only if `nbytes` is at most 0x7FFF_FFF0 or the sum above wraps; else it is
  asked for no growth or to shrink (`Umalloc.AskedIff`).  If it grants that, malloc goes on to write
  a header outside the memory it has, exactly when `Umalloc.Allocator.Malloc` says `wild`.  A
  request of 0xFFFF_FFF8 bytes asks for nothing: `Umalloc.HugeAsksNothing`.
- allocuvm that fails unmaps the whole range, also pages in it that were mapped before; it leaves
  every mapping as it was if and only if none was: `Vm.Memory.Allocuvm`, and
  `Vm.FailedGrowthUnmaps` for a space that loses a page.
- A writer that gives up on a full pipe wakes no reader.  A reader sleeps although there are
  bytes to read, or none will come, in some state of a run if and only if a writer of that run
  gave up while a reader slept: `PipeRing.StrandedIff`, and `PipeStranded.StrandedHappens` for such a run.

## Model

| member | source | states |
|---|---|---|
| RedoLog.HeaderRoundTrip | xv6-public/log.c:86-113 | a header written by write_head is read back as the same list of blocks |
| RedoLog.RecoveredIff | xv6-public/log.c:70-82 | replaying the log gives contents `want` at home exactly when each logged block's log copy, or else its home copy, is what `want` has |
| LogMachine.AppendReserves | xv6-public/log.c:212-231 | a new log entry is paid for by the allowance of the operation that adds it |
| LogMachine.AppendKeeps | xv6-public/log.c:212-231 | log_write keeps the disk, log, phase and cache invariants |
| LogMachine.CopyToLogKeeps | xv6-public/log.c:176-188 | one turn of write_log does, at any point of it |
| LogMachine.CommitHeaderKeeps | xv6-public/log.c:102-113 | writing the header makes the pending transaction the committed state in one step |
| LogMachine.InstallOneKeeps | xv6-public/log.c:70-82 | one turn of install_trans changes no recovered contents |
| LogMachine.EraseHeaderKeeps | xv6-public/log.c:191-200 | erasing the header after installation changes no recovered contents |
| LogMachine.CrashKeeps | xv6-public/log.c:116-122 | losing all memory at any moment keeps the invariant |
| LogTheorems.StepKeeps | xv6-public/log.c:126-231 | every step of the machine after which the logged blocks fit keeps the whole invariant, however many blocks an operation logs |
| LogTheorems.CrashAtomicity | xv6-public/log.c:70-200 | stop any run anywhere, with operations of any size, as long as the logged blocks have fitted: recover, and home blocks are those after the committed transactions; of every operation all logged writes are in, in order, or none |
| LogTheorems.CommitsGrow | xv6-public/log.c:191-200 | what is committed stays committed through any number of crashes |
| LogTheorems.OpCommitted | xv6-public/log.c:146-172 | among any other operations: with no crash since before it began, all that an operation logged is committed whenever nothing is outstanding and no commit is under way |
| LogTheorems.OpDurable | xv6-public/log.c:146-200 | and it stays committed, whole, through any crashes that come after |
| LogTheorems.QuiescentDisk | xv6-public/log.c:146-172 | outside commit and recovery the home blocks are the committed state, and with no operation outstanding nothing is pending |
| LogTheorems.NoSteal | xv6-public/log.c:176-200 | from log_write to the commit header the home copy is unchanged and the buffer stays cached with the latest logged contents |
| LogTheorems.LogHoldsLatest | xv6-public/log.c:176-188 | when the header is written every log block holds the latest contents of its block |
| LogTheorems.CacheAgrees | xv6-public/bio.c:97-147 | a clean buffer that nobody holds equals its disk block, unless it was changed without log_write as itrunc does |
| LogTheorems.AllocatedAgrees | xv6-public/bio.c:97-147 | if operations log or free every block that they mark or change unlogged, as balloc and itrunc do, then at every moment each clean buffer that nobody holds, of an allocated block that no operation is still about to zero or free, equals its disk block; crashes that undo a free included |
| LogTheorems.IdleAgrees | xv6-public/bio.c:97-147 | and with no operation in progress that is every allocated block |
| LogTheorems.LogReservation | xv6-public/log.c:126-172 | if operations add at most the MAXOPBLOCKS set aside for them, then in every run and on a log region of any size logged blocks plus unspent allowances never exceed LOGSIZE, commit runs with nothing outstanding, no block is logged twice |
| LogTheorems.RoomFits | xv6-public/log.c:126-172 | with a block of the log region for all that may be added, every run fits |
| LogTheorems.FitsOneAtATime | xv6-public/log.c:212-231 | whatever operations log, every run fits in which no two are between the test of log_write and its lock |
| LogSerial.SerialFits | xv6-public/log.c:212-231 | operations of any size that follow one another always fit |
| LogSerial.SerialAtomicity | xv6-public/log.c:126-200 | stop such a process anywhere and recover: the home blocks are those after all operations begun or all but the last; after all, once the last has committed |
| LogSerial.SerialNeverTrips | xv6-public/log.c:216-219 | operations that follow one another and add fewer than LOGSIZE - 1 blocks never meet the panics of log_write |
| LogShared.SharedAtomicity | xv6-public/log.c:126-200 | operations of one process among any others, committed together with them: stop anywhere and recover, and the home blocks are as after some of them, and after all when the machine is at rest |
| LogTheorems.GuardNeverTrips | xv6-public/log.c:216-219 | with operations of at most MAXOPBLOCKS - 1 blocks the panics of log_write are unreachable, even though its test is made without the lock |
| LogOverflow.FitsIff | xv6-public/mkfs.c:25-26 | with mkfs's log size, logged blocks fit in every run exactly when operations add fewer than MAXOPBLOCKS blocks |
| LogOverflow.Overflow | xv6-public/log.c:216-228 | a run in which they do not |
| LogOverflow.GuardIff | xv6-public/log.c:216-219 | with mkfs's log size, no operation ever meets the panics of log_write if and only if operations add fewer than MAXOPBLOCKS blocks |
| LogProgress.CommitCan | xv6-public/log.c:146-200 | from every state that keeps the invariant, with one operation left and one buffer to spare, the commit can be carried through: one more transaction, at home, and the log empty |
| LogProgress.RecoverCan | xv6-public/log.c:116-122 | from every state in which the machine has stopped, with two buffers, recovery can be carried through to the recovered contents at home and the log empty |
| LogCode.SlotsDoNotMatter | xv6-public/log.c:176-188 | before the header is written, whatever is in the log blocks recovers to the same disk |
| LogCode.HeaderCommits | xv6-public/log.c:191-200 | with all blocks copied, writing the header recovers to the new contents |
| LogCode.Log.WriteHead | xv6-public/log.c:102-113 | writes the in-memory list to the header block and nothing else |
| LogCode.Log.ReadHead | xv6-public/log.c:86-96 | the in-memory list becomes the one on disk |
| LogCode.Log.WriteLog | xv6-public/log.c:176-188 | copies each logged block; every disk image on the way recovers to the old contents |
| LogCode.Log.InstallTrans | xv6-public/log.c:70-82 | home blocks become the logged ones; every disk image on the way recovers to the new contents |
| LogCode.Log.Commit | xv6-public/log.c:191-200 | ends with the new contents at home and the log empty; the images before the header recover to the old disk, those after to the new |
| LogCode.Log.RecoverFromLog | xv6-public/log.c:116-122 | ends with the recovered contents at home; stopped anywhere, it starts over with the same contents |
| LogCode.Log.BeginOp | xv6-public/log.c:126-141 | lets an operation in exactly when no commit runs and its MAXOPBLOCKS fit |
| LogCode.Log.EndOp | xv6-public/log.c:146-172 | the last one out commits all; others change nothing |
| LogCode.Log.LogWrite | xv6-public/log.c:212-231 | the block is logged once and its buffer pinned, nothing reaches the disk; panics exactly as the code does |
| FileTree.PathBijection | xv6-public/fs.c:361-422 | logical blocks 0 to MAXFILE - 1 and data places of the tree correspond one to one |
| FileTree.OnePlace | xv6-public/fs.c:361-422 | no block is reached from two inodes or by two paths |
| FileTree.GrowTree | xv6-public/fs.c:367-418 | hanging a free block at an empty place keeps the tree: one owner for every block, all marked in the bitmap |
| FileTree.DataWriteTree | xv6-public/fs.c:531-567 | writing a data block changes no path |
| Words.LittleEndianLawful | xv6-public/fs.c:379-382 | index blocks as arrays of 32-bit words satisfy the laws the tree needs |
| FileContents.ExtendsByte | xv6-public/fs.c:361-422 | growing a tree changes no byte of any file |
| FileContents.PatchByte | xv6-public/fs.c:556-561 | writing into a block changes just the bytes of the file that lie there |
| FileLogs.GrowLogs | xv6-public/fs.c:367-418 | hanging a block in the tree logs exactly it, its bitmap block and its parent, and that is every block that changed |
| FileLogs.LogsTrans | xv6-public/fs.c:361-422 | what two such steps log is exactly what the two together call for |
| FileLogs.WriteLogsMore | xv6-public/fs.c:545-560 | a write of several blocks logs exactly the data blocks it spans and what the new ones call for, and every block that changed |
| FileOps.FileSystem.Balloc | xv6-public/fs.c:57-78 | the first free block, marked and zeroed; panics exactly when none is free |
| FileOps.FileSystem.Bfree | xv6-public/fs.c:82-102 | clears the block's bit; panics exactly when it is clear |
| FileOps.FileSystem.Bmap | xv6-public/fs.c:361-422 | the block at bn's place, allocated with its index blocks if missing; every other logical block of every file keeps its address; logged are exactly the new blocks, their parents and their bitmap blocks, and every block and bit that changed is among them |
| FileOps.FileSystem.Iupdate | xv6-public/fs.c:215-230 | the inode on disk becomes the one in memory, all fields of it, and its block is logged |
| FileOps.FileSystem.Readi | xv6-public/fs.c:496-526 | the bytes asked for, clipped at the end of the file; nothing allocated, nothing logged; -1 exactly when off is past the end or off + n wraps |
| FileOps.FileSystem.Writei | xv6-public/fs.c:531-567 | the file is its old contents with src put at off, growing if need be; other files unchanged; -1 and no change exactly when off is past the end or the file would be too large; exactly which blocks are logged, and every changed block, bit and inode is |
| FileOps.FileSystem.Itrunc | xv6-public/fs.c:430-480 | the file is empty, exactly the blocks of its tree become free and the free count rises by their number, other files are unchanged; every block still in use is unchanged on disk, and changed bits and the inode are logged |
| FileOps.FileSystem.TruncDouble | xv6-public/fs.c:455-476 | frees everything behind the double-indirect block once, never reaching the panic of bfree |
| FileTrunc.TreeBlocksAre | xv6-public/fs.c:430-480 | the tree's blocks are exactly those at some place under the inode |
| FileTrunc.FreedCount | xv6-public/fs.c:430-480 | the freed blocks were not free, and the free set grows by exactly them |
| FileTrunc.TruncatedTree | xv6-public/fs.c:430-480 | the tree invariant holds afterwards for all inodes |
| FileTrunc.UsedSame | xv6-public/fs.c:455-476 | the block zeroed without log_write is free afterwards: every block in use is as it was |
| FileCount.DirtyCount | xv6-public/fs.c:531-567 | a write of n bytes at off to a file of size bytes logs exactly the blocks it spans, the index blocks over those past the end, the bitmap if there are any and the inode if the file grows |
| FileWrite.TransactionBound | xv6-public/file.c:127-152 | a transaction dirties at most 14 data, 3 index, 1 bitmap and 1 inode block, whatever its place |
| FileWrite.FullExceeds | xv6-public/file.c:133 | a full one dirties at least 13 blocks, more than MAXOPBLOCKS |
| FileWrite.OverwriteFits | xv6-public/file.c:127-152 | one over blocks that are there dirties at most MAXOPBLOCKS if and only if it spans at most that many |
| FileWrite.NewFile | xv6-public/file.c:127-152 | eight blocks of a new file dirty MAXOPBLOCKS, nine more, the first chunk 16 |
| FileWrite.Transaction | xv6-public/file.c:140-151 | one chunk: all or nothing of it is written; the number of blocks logged, exactly |
| FileWrite.Filewrite | xv6-public/file.c:118-156 | returns n exactly when all was written, and then the file is its old contents with src at off; else it stopped at a chunk boundary; the size of every transaction, and that each logged all it changed |
| FileCrash.StepMakes | xv6-public/fs.c:531-567 | logging every changed block with its final contents makes the new disk of the old one, bitmap and inodes included |
| FileCrash.SameData | xv6-public/fs.c:57-102 | two file systems that one disk holds have the same inodes, the same data blocks and the same bitmap |
| FileCrash.SameAccounts | xv6-public/fs.c:57-102 | what is read back from the disk of a tree has each block that is at a place marked in use and at no other place, and no other data block in use |
| FileCrash.SameContents | xv6-public/fs.c:361-422 | files are read from the inodes and the data blocks alone |
| FileCrash.FilewriteAtomic | xv6-public/file.c:118-156 | stop the machine anywhere in a filewrite and recover: whatever file system one reads back, the file is its old contents with a whole number of chunks put at off, all of them but perhaps the last begun, every other file is as it was, and a data block is marked in use if and only if it is at a place of an inode, at one only |
| FileCrash.FilewriteShared | xv6-public/file.c:118-156 | the same of the file and of the blocks in use when any other operations run beside the write and share its commits |
| FileCrash.FilewriteNeverTrips | xv6-public/file.c:127-152 | a filewrite that has the log to itself never meets the panics of log_write |
| DiskCoding.MachineReadable | xv6-public/fs.h:31-38 | blocks of bytes, of bits and of inodes, as 32-bit words, can be read back |
| BufRing.Inverse | xv6-public/bio.c:39-56 | next and prev undo each other all round the ring |
| BufRing.FrontOk | xv6-public/bio.c:140-143 | the four assignments that put a buffer after the head give the ring with it in front |
| BufRing.OutOk | xv6-public/bio.c:138-139 | the two that unlink one give the ring without it |
| BufCache.Unique | xv6-public/bio.c:62-93 | no two buffers that are referenced or valid carry the same device and block |
| BufCache.LiveFront | xv6-public/bio.c:127-147 | moving a released buffer to the front keeps, of the buffers with one number, only the first one live |
| BufCache.Cache.constructor | xv6-public/bio.c:39-56 | binit links all buffers, the last one first, none live |
| BufCache.Cache.Bget | xv6-public/bio.c:62-93 | the first buffer with the number gets a reference; else the least recently used unreferenced clean one is made to carry it; panic exactly when there is neither |
| BufCache.Cache.Find | xv6-public/bio.c:69-76 | the first buffer in the ring with the number, if there is one |
| BufCache.Cache.Victim | xv6-public/bio.c:81-91 | the last one in the ring that may be reused, if there is one |
| BufCache.Cache.Iderw | xv6-public/memide.c:39-60 | a dirty buffer goes to its block, another is filled from it; afterwards no valid clean buffer disagrees with the disk; the panics, exactly |
| BufCache.Cache.Bread | xv6-public/bio.c:97-111 | the buffer that carried the number, or the least recently used one that may be reused, with one reference more, or one; locked and with the block's contents, or a wait exactly when another has it locked, or the panics; all other buffers as before |
| BufCache.Cache.Obtain | xv6-public/bio.c:97-111 | once the lock is had the buffer holds what its last holder left, or what the disk has; all else as before, exactly |
| BufCache.Cache.Bwrite | xv6-public/bio.c:115-122 | the block on disk is the buffer's data, all other blocks as before; panics exactly when the lock is not held or the disk has no such block |
| BufCache.Cache.Brelse | xv6-public/bio.c:127-147 | one reference less; the last one makes the buffer the most recently used; panics exactly when the lock is not held |
| BufCache.Cache.Visit | xv6-public/bio.c:97-147 | bread and then brelse leave every reference count and every lock as they were, and every buffer but the one that the block was read into; a block that was cached and valid leaves the whole cache as it was |
| BufCache.Cache.Drop | xv6-public/bio.c:135-146 | the part under bcache.lock, also when another process has locked the buffer by then |
| StrideHeap.SunkHeap | xv6-public/proc.c:993-1036 | sinking restores heap order if and only if it is not the case that 64 are queued and the counts down the left edge lead the process to slot 32 above a smaller one in slot 64 |
| StrideHeap.SunkSame | xv6-public/proc.c:993-1036 | it keeps the processes, as a multiset |
| StrideHeap.RaiseHole | xv6-public/proc.c:1050-1052 | raising one count leaves a heap but for that slot |
| StrideHeap.PushedHeap | xv6-public/proc.c:1651-1666 | pushing along the path to the root keeps heap order and puts the new process at the root |
| StrideHeap.PushedSame | xv6-public/proc.c:1651-1666 | and keeps all others |
| StrideHeap.RootLeast | xv6-public/proc.c:1651-1666 | the root has the least count |
| StrideHeap.FullBreaks | xv6-public/proc.c:997-998 | a full queue of 64 that heapify_down leaves out of order, the root raised by the stride of a share of 12 |
| StrideFair.ChargedOk | xv6-public/proc.c:1048-1054 | charging any process keeps the processes and leaves a heap if and only if it does not get stuck above slot 64, which takes 64 of them |
| StrideFair.ChargedFairIff | xv6-public/proc.c:1048-1054 | charging a process keeps everybody within a stride of everybody if and only if no process counts less than it |
| StrideFair.ChargedLead | xv6-public/proc.c:1039-1056 | a process that was charged in a run is within its stride of all others, wherever the run started |
| StrideFair.ShareFromAnywhere | xv6-public/proc.c:1039-1056 | from any queue, over any number of selections, a process that is charged gets at most one stride more than another, once the lead that one had is made up |
| StrideFair.ProportionalShare | xv6-public/proc.c:1039-1056 | from a fair queue, over any run of selections, the charges of two processes, times their strides, differ by at most the sum of the strides |
| StrideFair.DispatchShare | xv6-public/proc.c:1039-1056 | so do the numbers of times two processes are dispatched, when all are runnable |
| StrideFair.JoinedOk | xv6-public/proc.c:1651-1666 | a joining process is at the root and level with the least count that was queued, or keeps its own if it is alone; the others keep theirs |
| StrideFair.JoinedFair | xv6-public/proc.c:1651-1666 | joining puts nobody ahead |
| StrideFair.GrownFair | xv6-public/proc.c:1039-1056 | every queue that joins and selections make from the empty one is a heap and fair |
| StrideFair.ShareChangeIff | xv6-public/proc.c:1746-1758 | another share for a queued process keeps the queue fair if and only if it is within its new stride of the root |
| StrideFair.UnfairStart | xv6-public/proc.c:1746-1758 | two processes join, one is charged and then given a larger share; from there the other is charged five times alone, more than the two strides allow |
| StrideQueue.Table.HeapifyDown | xv6-public/proc.c:993-1036 | the loop on the array computes the sinking function |
| StrideQueue.Table.Push | xv6-public/proc.c:1651-1666 | the loop on the array computes the joining function |
| StrideQueue.Table.FindIdx | xv6-public/proc.c:1039-1151 | a slot is chosen exactly when some queued process is runnable; found on the walk it is charged, found by the scan it is not; the queue stays consistent if and only if the charged process does not get stuck |
| StrideQueue.Table.Charge | xv6-public/proc.c:1048-1054 | adds one stride to the process in the slot and lets it sink |
| StrideQueue.Table.SetCpuShare | xv6-public/proc.c:1719-1785 | the share is divided among the process and its threads; the process gets its part exactly when that is in range and the sum within the limit, then so do the threads, and it is recorded as their original share; panics exactly when some thread's part goes over the limit; promises always add up to the sum |
| StrideQueue.Table.Grant | xv6-public/proc.c:1669-1714 | granted exactly when the share is in range and the sum within the limit; then the process is queued once |
| StrideQueue.RoomLeft | xv6-public/proc.c:1755 | there is a free slot for every process that is not queued |
| StrideQueue.TooMuchIff | xv6-public/proc.c:1765-1777 | unless a thread has more than its part already, the threads go over the limit if and only if the final sum does |
| StrideQueue.OneTooMany | xv6-public/proc.c:1765-1777 | a consistent table and a request that is granted to the process and panics for its thread |
| StrideQueue.AllRunnable | xv6-public/proc.c:1046-1056 | when all are runnable the root is chosen |
| StrideQueue.WalkIff | xv6-public/proc.c:1046-1129 | the walk finds a process if and only if that is runnable and each on the way to it is the child with the smaller count, the right one of equals, of a process that is not |
| StrideQueue.WalkNone | xv6-public/proc.c:1046-1129 | it finds none if and only if it comes so to a leaf that is not runnable either |
| StrideQueue.DispatchedIff | xv6-public/proc.c:1048-1056 | the charged process is the dispatched one if and only if its slot is one from which nothing sinks or its new count is no more than either child's |
| StrideQueue.FullTable | xv6-public/proc.c:997-998 | a consistent table of 64 processes with shares of 12 that selection leaves without a heap |
| StrideQueue.AnotherRuns | xv6-public/proc.c:1048-1056 | a queue in which one process is charged and another dispatched |
| FreeList.InsertedOrdered | xv6-public/umalloc.c:33-42 | putting a block in keeps the list in address order with a gap between neighbours |
| FreeList.InsertedCovers | xv6-public/umalloc.c:33-42 | it then covers what it did and the block |
| FreeList.TakenOrdered | xv6-public/umalloc.c:75-82 | taking units out keeps order and gaps |
| FreeList.TakenCovers | xv6-public/umalloc.c:75-82 | what is left and what was taken are apart and make up what there was |
| Umalloc.InsertedRing | xv6-public/umalloc.c:33-42 | free's pointer and size assignments link the new list, in all four cases of joining |
| Umalloc.UnlinkedRing | xv6-public/umalloc.c:75-77 | taking a whole block links round it |
| Umalloc.ShrunkRing | xv6-public/umalloc.c:78-82 | taking a tail shrinks the block |
| Umalloc.HoldsRequest | xv6-public/umalloc.c:69 | the units hold the request if and only if the sum does not wrap |
| Umalloc.LargestWraps | xv6-public/umalloc.c:69 | the largest request wraps to a block without room |
| Umalloc.AskedIff | xv6-public/umalloc.c:52-54 | sbrk is asked for the bytes needed if and only if nbytes is at most 0x7FFF_FFF0 or the sum wraps; else for no growth |
| Umalloc.HugeAsksNothing | xv6-public/umalloc.c:54 | a request of 0xFFFF_FFF8 bytes asks sbrk for 0 |
| Umalloc.Allocator.constructor | xv6-public/umalloc.c:20-22 | no memory, nothing live |
| Umalloc.Allocator.Search | xv6-public/umalloc.c:30-32 | the walk round the ring ends, at the block after which bp belongs |
| Umalloc.Allocator.Free | xv6-public/umalloc.c:25-44 | the block goes into the list after its predecessor, from which the next search starts; it is free and no other unit changes hands; free and live blocks still partition all memory obtained |
| Umalloc.Allocator.Morecore | xv6-public/umalloc.c:47-61 | memory grows by the units asked for, at least 4096, and the list has a block that large; or sbrk refused and nothing changed; or, exactly when sbrk was asked for no growth and granted it, the header is stored outside the memory obtained |
| Umalloc.Allocator.FirstFit | xv6-public/umalloc.c:74-86 | the search ends, with the first block after freep that is large enough, or with all blocks too small |
| Umalloc.Allocator.Malloc | xv6-public/umalloc.c:64-90 | terminates with one new live block of the asked units, disjoint from all others: the tail of the first block large enough after freep, in the list that was or with the new memory in it; or none fits and sbrk refused, and nothing changed; or none fits and sbrk was asked for no growth, exactly |
| PageTables.KallocOk | xv6-public/kalloc.c:83-102 | taking a page from the free list keeps one owner for every page |
| PageTables.KfreeOk | xv6-public/kalloc.c:60-77 | so does giving one back |
| PageTables.WithTableOk | xv6-public/vm.c:45-64 | a new table maps nothing and keeps ownership |
| PageTables.MappedUserOk | xv6-public/vm.c:70-89 | mapping a page that was in hand changes that one mapping and gives it the page |
| PageTables.UnmappedOk | xv6-public/vm.c:281-288 | clearing a present entry changes that one mapping and puts the page in hand |
| PageTables.DroppedTableOk | xv6-public/vm.c:303-308 | a table without user pages can go |
| PageTables.NoSharing | xv6-public/vm.c:228-261 | no page backs two user mappings, nor is it free, a table or a directory |
| PageTables.NoPagesIn | xv6-public/vm.c:279-280 | a stretch without a table adds no page, so skipping it equals going page by page |
| Vm.RowsAll | xv6-public/vm.c:114-124 | the rows of kmap together are the kernel's map |
| Vm.Memory.Kalloc | xv6-public/kalloc.c:83-102 | the first free page, or none exactly when none is free |
| Vm.Memory.Kfree | xv6-public/kalloc.c:60-77 | the page is first on the free list |
| Vm.Memory.Walkpgdir | xv6-public/vm.c:45-64 | finds or makes the table, with one free page if it was missing; no mapping of any space changes |
| Vm.Memory.Mappages | xv6-public/vm.c:70-89 | maps the run of pages in order with the permissions given, stopping at the first that is mapped already, which panics, or for which no table could be had, and then no page is free; the free list loses exactly one page for each table that was missing; pages mapped in user space leave the hand |
| Vm.MissingMore | xv6-public/vm.c:45-64 | one more page of a range costs a table exactly when its table is missing and no earlier page of the range has had it made |
| Vm.RowTablesSize | xv6-public/vm.c:114-124 | the kernel's map takes 64 tables, wherever its data starts |
| Vm.Memory.Setupkvm | xv6-public/vm.c:128-143 | a space with exactly the kernel's map, made of the first 65 free pages, or none if and only if there were fewer; no other space changes |
| Vm.Memory.Deallocuvm | xv6-public/vm.c:268-291 | unmaps exactly the pages between the sizes, each freed once and in order, over missing tables too; a range that runs into the kernel's part panics at its first page |
| Vm.Memory.GrowOne | xv6-public/vm.c:240-257 | takes the first free page, none exactly when none is free, and maps it; it fails for want of a table only with no free page left |
| Vm.Short | xv6-public/vm.c:240-257 | growth that stops at a page for want of memory had fewer free pages than the whole range needs |
| Vm.Memory.Allocuvm | xv6-public/vm.c:228-261 | succeeds if and only if no page of the range was mapped and the free pages are at least the pages of the range and the tables missing over it; then every page is backed by a page that was free, and the free list has lost exactly that many; panics if and only if there was memory to get to a page that was mapped; else nothing is mapped in the range and elsewhere all is as before, which leaves all mappings as they were if and only if none was in the range; no page is left in hand |
| Vm.FailedGrowthUnmaps | xv6-public/vm.c:239-243 | a space in which failing to grow unmaps a page |
| Vm.Memory.Freevm | xv6-public/vm.c:296-310 | the space's user pages, tables and directory become free, no other page moves |
| SleepLock.StepKeeps | xv6-public/sleeplock.c:23-42 | every step of every process keeps the invariant |
| SleepLock.MutualExclusion | xv6-public/sleeplock.c:23-42 | at most one process holds the lock, and `locked` and `pid` say which |
| SleepLock.NoLostWakeup | xv6-public/proc.c:1514-1568 | with the spinlock free and the lock open, no process sleeps on it or is committed to, and `pid` is clear |
| SleepLock.NeverStuck | xv6-public/proc.c:1514-1568 | some process inside the calls can step, or those inside sleep and another holds the lock |
| SleepLock.WakeKept | xv6-public/proc.c:1552-1568 | a sleeper of an open lock is always still ahead of a running wakeup |
| PipeRing.TestsExact | xv6-public/pipe.c:85 | the tests for full and empty are exact although the counters wrap |
| PipeRing.StoredOk | xv6-public/pipe.c:93 | storing a byte overwrites none that is still to be read |
| PipeRing.StepKeeps | xv6-public/pipe.c:79-121 | every step of every process keeps the ring, lock, writer and reader invariants |
| PipeRing.Fifo | xv6-public/pipe.c:79-121 | bytes delivered are a prefix of bytes stored, and the counters differ by 0 to PIPESIZE modulo 2^32 |
| PipeRing.WritesInOrder | xv6-public/pipe.c:79-98 | a write that is under way, wherever it has slept, has put in its bytes so far in order, each once and nothing else |
| PipeRing.ReadsStretch | xv6-public/pipe.c:101-121 | a read gets a contiguous stretch of what was stored, and nothing only when the pipe is empty and closed |
| PipeRing.WritersAwake | xv6-public/pipe.c:101-121 | with the lock free a sleeping writer has a full pipe with readers |
| PipeRing.StrandedIff | xv6-public/pipe.c:85-92 | a reader is left asleep beside bytes in some state if and only if a writer gave up while a reader slept |
| PipeStranded.StrandedHappens | xv6-public/pipe.c:85-89 | a run that does so |
| PipeCalls.CallOf | xv6-public/pipe.c:79-121 | a process in a call is doing what it was called for, since a call that has not returned |
| PipeCalls.WriteReturns | xv6-public/pipe.c:79-98 | when pipewrite returns n, what the process stored since the call is, in order, exactly the bytes it was asked to write; when it returns -1, a proper prefix of them, and the pipe is full and has no readers or the process was killed |
| PipeCalls.ReadReturns | xv6-public/pipe.c:101-121 | piperead returns the oldest n bytes that were in the pipe when it found something to read, or all of them if there were fewer; nobody took or put any meanwhile; there was one, or the pipe was closed for writing |
| PipeCalls.ReadFails | xv6-public/pipe.c:107-110 | -1 only when killed while the pipe is empty and open for writing |
| PipeCalls.OneWay | xv6-public/pipe.c:79-121 | whoever has the pipe's lock has exactly one way to go on |
| PipeCalls.KilledAwake | xv6-public/pipe.c:85-92 | no killed process sleeps on a pipe |
| ShellGrammar.LexText | xv6-public/sh.c:266-308 | spelled tokens are read back |
| ShellRoundTrip.LineBack | xv6-public/sh.c:345-359 | the grammar gives back the tree that was printed, before any legal rest |
| ShellRoundTrip.RoundTrip | xv6-public/sh.c:328-446 | print any legal tree, parse it: the same tree |
| ShellRoundTrip.ParsableIff | xv6-public/sh.c:328-446 | the trees that some text parses to are exactly the legal ones |
| ShellSentences.CommandIs | xv6-public/sh.c:416-446 | a simple command, arguments and redirections mixed in any order: the words after no operator as arguments in order, and around them the files after < > >> in order, with their modes and descriptors; ten arguments, an operator without a file and a stray symbol panic, each as it does |
| ShellSentences.RedirsAre | xv6-public/sh.c:375-397 | redirections after a block, likewise |
| ShellSentences.WholeIff | xv6-public/sh.c:328-446 | the parser takes a token sequence and gives it a tree if and only if a sentence of the grammar is written so and stands for that tree |
| ShellSentences.Unambiguous | xv6-public/sh.c:328-446 | no token sequence stands for two trees |
| ShellLayout.LexIff | xv6-public/sh.c:266-308 | a text has these tokens if and only if it is they with white space between, which only two words, or > before > or >>, need |
| ShellParser.Parser.Gettoken | xv6-public/sh.c:266-308 | returns the next token and moves past it |
| ShellParser.Parser.Peek | xv6-public/sh.c:311-320 | skips blanks and says whether the next token starts with one of the characters |
| ShellParser.Parser.Parseredirs | xv6-public/sh.c:375-397 | wraps the command in the redirections that follow, or panics as the grammar says |
| ShellParser.Parser.Parsewords | xv6-public/sh.c:426-445 | arguments and redirections of one command, filling the node while it is wrapped: what ShellSentences.ItemsAre says of the tokens |
| ShellParser.Parser.Parseexec | xv6-public/sh.c:416-446 | a simple command or a block |
| ShellParser.Parser.Parseblock | xv6-public/sh.c:400-413 | a line in parentheses and its redirections |
| ShellParser.Parser.Parsepipe | xv6-public/sh.c:362-372 | a pipeline |
| ShellParser.Parser.Parseline | xv6-public/sh.c:345-359 | a line; the recursion ends on every text |
| ShellParser.Parser.Parsecmd | xv6-public/sh.c:328-342 | the tree the grammar assigns to the text's tokens, or its panic |
| ShellParser.PrintThenParse | xv6-public/sh.c:328-342 | the parser undoes the printer |
| Grep.StartsIff | xv6-public/grep.c:84-106 | a pattern starting with an item matches a prefix if and only if the item matches some beginning and the rest goes on |
| Grep.Matchhere | xv6-public/grep.c:85-96 | true exactly when a prefix of the text is in the language, all of it before a final $ |
| Grep.Matchstar | xv6-public/grep.c:99-106 | shortest-first search finds a split if and only if there is one |
| Grep.Match | xv6-public/grep.c:73-82 | true exactly when some substring is in the language, at the start after ^ |

## Left out

- `stride_queue_delete`, `stride_queue_heapify_up` and the `scheduler` loop: runs without removal are modelled.
- Threads, fork, exec, wait and `copyuvm`; `loaduvm` and `inituvm`; the contents of user pages.
- Directories, path names, link counts and the inode cache; device inodes in `readi` and `writei`.
- `mkfs`, devices, boot, interrupts and system call entry; user utilities other than the shell's parser and grep's matcher.
- `pipealloc` and the freeing of a pipe closed at both ends.
- `nulterminate`: words are strings in the tree, not pointers into the text that are ended by a zero later.
- `grep`'s reading of lines into its buffer.
- `holdingsleep`; which processor runs what.
- Bitmap and inode blocks are separate fields of the file system, not bytes of the disk; that they are logged is recorded, and FileCrash lays them out on the disk with any readable coding, in a bitmap that has a bit for every block as mkfs makes it.
- FileCrash.FilewriteAtomic: that the log machine's operations log what the trace of filewrite says is its hypothesis; no other operation runs, which FileCrash.FilewriteShared has instead.
- FileCrash.FilewriteShared: that other operations keep off the file, by its inode's lock, is its hypothesis.
- FileWrite.Transaction: the exact count is for disks that one bitmap block covers; FSSIZE is 2000 and one covers 4096.
- In the log machine a buffer has at most one holder and waiters are not counted.
- StrideQueue.Table.SetCpuShare: the factor of ten of the system call is left out.
- Stride counts are unbounded integers.
- FileOps.FileSystem.TruncDouble: the disk here is what bread gives, so the zeroing of entries in the buffer shows at once; FileTrunc.UsedSame has that the block is free afterwards.
- Umalloc.Allocator.Malloc: what is in memory after a header is stored out of bounds is not modelled.
- Umalloc.Allocator.Morecore: sbrk's answer is a parameter, memory anywhere above the old break.
- Vm.Memory.Setupkvm: pages taken before a failure stay taken, because the code drops them.
- Vm.Memory.Freevm: directory entries are cleared as their tables go; the code leaves them in a page it then frees.
- Vm.Memory.Deallocuvm: an entry is cleared just before its page goes to the free list, not just after; a range that lies above KERNBASE altogether is left out, because the code would free the kernel's own pages.
- BufCache.Cache.Bread: the wait for a locked buffer is in SleepLock.
- PipeRing.StepKeeps: going to sleep and waking others is one step here; the steps inside sleep and wakeup are in SleepLock.
