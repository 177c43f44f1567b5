# Verified models of an xv6 fork with containers

This project models the parts of the xv6 fork whose correctness is hardest to see from the code, and
proves what they are for. The model follows the code branch by branch; where a property is false of
the code, the exact condition under which it holds is proved instead.

The groups of modules, each named after the program it models:

- `Maekawa*` (`xv6/maekawa_linux.c`): quorum-based mutual exclusion with ring-buffer queues. The
  handler is modelled by a class whose methods are proved against a function, and the function is one
  step of a system of processes with FIFO mailboxes. Main results: at most one process holds the lock
  in every reachable state; no handler call leaves its arrays (the queue never wraps, and the
  removal is never asked to remove slot -1 of a longer queue); on every grid any processes can get the
  lock one after the other, in any order; and a vote that is released or given back goes to the request
  with the least time stamp and, among those, the least process number. That a voter refuses exactly the
  requests which the holder or a waiting one precedes is false of the code, and when it holds is proved
  exactly: the scan for this starts at the first slot of the array wherever the queue starts.
- `Log*` (`xv6/log.c`): the write-ahead log. Main results: over any history of commits, crashes after any
  block write, and recoveries (themselves interrupted or not), the home blocks that recovery gives are the
  committed transactions applied whole and in order; the reservation made by `begin_op` suffices in every
  interleaving; and three operations, and no more, can be inside at once. Two things that the code is to
  guarantee are false of it, and when they hold is proved exactly. A call of `log_write` that the
  reservation covers can be made to panic exactly when two or more processes share the log, whatever its
  size, or one has a log area of at most MAXOPBLOCKS + 1 blocks: the guard stands before the search for a
  block that is logged already. For calls that log a new block the condition is an area of at most LOGSIZE
  blocks, which is what `mkfs` makes it, or at most MAXOPBLOCKS for one process. And the blocks logged can
  outnumber the slots of the area exactly when two or more processes share one of 2 to LOGSIZE blocks: the
  guard is not locked.
- `Fs*` (`xv6/fs.c`, `xv6/file.c`): block ownership, files as byte sequences over direct and indirect
  blocks, and the exact set of blocks that a write takes and logs. Main results: a chunk of `filewrite`
  logs at most MAXOPBLOCKS blocks, exactly that many in the worst case, which is constructed, and at most
  seven on a disk with one bitmap block; a write, and a whole `filewrite`, fails exactly if too few blocks
  are free for what is accepted of it; truncations stay within MAXOPBLOCKS blocks exactly on disks with
  fewer bitmap blocks than that for their data; and, over the log, with chunks and truncations of many
  processes in each commit, a crash at any block write leaves every file with a whole number of its chunks.
- `Jacobi*` (`xv6/jacob.c`): the relaxation program. Main results: in every interleaving of children and
  coordinator, each child's rows are those of the serial program, the difference and the stopping
  iteration are the serial ones, and the gathered grid is the serial result; with pipes that hold what is
  sent and a `recv` that waits for a message, every run ends, and ends with that result; and, unless the
  iteration limit ended it, four times each inner cell of the result differs from the sum of its four
  neighbours by at most 4 E, which is exactly what the test of the largest change tests.
- `Umalloc*` (`xv6/umalloc.c`): the circular free list. Main results: sorted, coalesced, and with the
  live blocks a partition of what was obtained from the system; `malloc` takes the first large enough
  block after `freep` and asks the system at most once, when there is none.
- `Bio*` (`xv6/bio.c`): the buffer cache, one method per critical section. Main results: the cache is
  transparent, one buffer per block, only idle buffers are recycled, and the ring is in order of release.
- `Vm*` (`xv6/vm.c`, `xv6/kalloc.c`): frames and two-level page tables. Main results: every frame has
  exactly one use through every operation and every failure path; a copied address space agrees with
  its parent and shares nothing with it; the processor's walk over the words in memory finds exactly the
  pages and permissions of the space; and each function runs out of memory exactly if fewer frames are
  free than it is proved to take, tables included.
- `Pipe*` (`xv6/pipe.c`, `xv6/proc.c`): the ring with 32-bit counters, and the sleep/wakeup protocol with
  both locks, with processes that may be killed. Main results: bytes are read in the order written although
  the counters wrap; a read returns without a byte only if the pipe is empty and closed for writing or the
  reader was killed, a write returns early only if the pipe is full and closed for reading or the writer was
  killed; and a wakeup can be lost exactly when there are two processes or more and a write may
  be longer than the pipe, for a writer that was killed leaves a full pipe without waking its readers.
- `Scheduler*` (`xv6/container_manager.c`, `xv6/proc.c`): the two-level scheduler. Main results: whom each
  round runs, and that it runs nobody exactly if nobody may run; and bounded waiting.
- `Message*` (`xv6/message.c`, `xv6/queue.c`): in every interleaving of sends and receives, the free chain,
  the queues and the buffers in hand partition the buffers, and messages are received in the order sent.

Calls that the model cannot see are parameters: the answer of `sbrk` (`grant`), the place of the kernel's
data section (`data`), and the process tables that the scheduler finds in each round (`tables`).
Parameters marked `ghost` name proof state (an address space, a use of a buffer) and have no effect.
A `panic` is a result (`ok` is false, `panics`, `Panic`), and so are the two places where the code goes on
with a bad value: a send without a free buffer, and a request to `sbrk` for a number of bytes that wrapped.
How the contents of a disk block are made from the state of the file system is a parameter (`image`), of
which only is assumed that a block's contents depend on nothing but what the block holds.

Conventions: floating-point numbers are reals; a 32-bit word of a page table is the triple of its frame
number, its present bit and its other flags; addresses in the allocator are in units of its header.

## Model

| member | source | states |
|---|---|---|
| `MaekawaQueue.RemovedContents` | xv6/maekawa_linux.c:130-162 | removing a slot of an unwrapped queue deletes exactly that request and keeps the order of the others |
| `MaekawaQueue.EnqueuedContents` | xv6/maekawa_linux.c:84-97 | below the end of the array, enqueueing appends and does not wrap |
| `MaekawaQueue.BestIsLeast` | xv6/maekawa_linux.c:374-381 | the scan returns a queued request that no queued request precedes, or its start value if none precedes that; in stamps and numbers by the rows of `MaekawaOrder` |
| `MaekawaQueue.ShiftLeft` | xv6/maekawa_linux.c:146-148 | the shifting loop on the array |
| `MaekawaQueue.Queue.Enqueue` | xv6/maekawa_linux.c:84-97 | the new ring value, and -1 with nothing changed when full |
| `MaekawaQueue.Queue.RemoveElement` | xv6/maekawa_linux.c:130-162 | the new ring value in all four branches |
| `MaekawaNode.Process.RecvHandler` | xv6/maekawa_linux.c:253-436 | new process state and message sent, for each kind of message, as the handler function of the protocol |
| `MaekawaNode.Process.OnAsk` | xv6/maekawa_linux.c:257-307 | vote, or queue and answer FAILED or INQUIRE |
| `MaekawaNode.Process.OnRelinquish` | xv6/maekawa_linux.c:365-393 | the vote goes to the best of the queue and the old holder is queued |
| `MaekawaNode.Process.OnRelease` | xv6/maekawa_linux.c:395-427 | the vote is free, or goes to the best of the queue |
| `MaekawaNode.Process.AnySlotPrecedes` | xv6/maekawa_linux.c:278-284 | whether one of the slots scanned precedes the request |
| `MaekawaNode.Process.ScanQueue` | xv6/maekawa_linux.c:374-381 | the loop finds the function's best request and its slot |
| `MaekawaOrder.ReleaseToEarliest` | xv6/maekawa_linux.c:404-426 | with requests waiting, a release gives the vote to the one with the least time stamp of all, and the least process number among those with that stamp, and tells it so; otherwise the vote is free |
| `MaekawaOrder.RelinquishToEarliest` | xv6/maekawa_linux.c:365-393 | a vote given back goes to the one that is so among those waiting and the holder |
| `MaekawaOrder.ReleaseTakesOne` | xv6/maekawa_linux.c:404-426 | that request leaves its place in the unwrapped queue, and the others stay in order |
| `MaekawaOrder.RelinquishSwapsOne` | xv6/maekawa_linux.c:365-393 | the same when a vote is given back and another comes first; the old holder waits at the end |
| `MaekawaOrder.AskAnswer` | xv6/maekawa_linux.c:257-307 | a free vote is given; otherwise FAILED goes to the requester exactly if the holder, or a slot scanned, has an earlier stamp or the same stamp and a smaller number, and if not, INQUIRE goes to the holder, once |
| `MaekawaOrder.AskQueues` | xv6/maekawa_linux.c:270-277 | and the request is queued behind the others |
| `MaekawaOrder.RefusesRightlyIff` | xv6/maekawa_linux.c:278-295 | the scan starts at the first slot of the array wherever the queue starts: it refuses exactly the requests that the holder or a waiting one precedes if and only if the queue starts there, or the earliest of what is compared is the earliest of the holder and those waiting |
| `MaekawaOrder.StaleSlotRefuses` | xv6/maekawa_linux.c:278-284 | a request that is refused although nobody waits and the holder comes later |
| `MaekawaOrder.InquireAnswer` | xv6/maekawa_linux.c:308-348 | after any messages, an INQUIRE is answered with RELINQUISH exactly if the last of LOCKED and FAILED from some voter was FAILED; the votes counted are those received less those given back |
| `MaekawaQuorum.BuildQuorum` | xv6/maekawa_linux.c:507-520 | the loop that stops early stores the whole row-and-column quorum |
| `MaekawaQuorum.QuorumSize` | xv6/maekawa_linux.c:507-520 | a quorum has 2n - 1 members, its owner among them |
| `MaekawaQuorum.QuorumsMeet` | xv6/maekawa_linux.c:510-520 | any two quorums share a process |
| `MaekawaQuorum.QuorumSymmetric` | xv6/maekawa_linux.c:510-520 | membership is mutual |
| `MaekawaInvariant.InvExcludes` | xv6/maekawa_linux.c:221-241 | the protocol invariant allows one process at most in the critical section |
| `MaekawaReceive.OnLocked` | xv6/maekawa_linux.c:308-312 | receiving a vote keeps the invariant |
| `MaekawaReceive.OnFailed` | xv6/maekawa_linux.c:314-316 | receiving FAILED keeps the invariant |
| `MaekawaReceive.OnInquireYield` | xv6/maekawa_linux.c:331-348 | giving a vote back keeps the invariant |
| `MaekawaReceive.OnInquireIgnore` | xv6/maekawa_linux.c:331-363 | an INQUIRE that is ignored keeps the invariant |
| `MaekawaReceive.OnAskGrant` | xv6/maekawa_linux.c:259-269 | a first vote keeps the invariant |
| `MaekawaReceive.OnAskQueue` | xv6/maekawa_linux.c:270-295 | queueing with FAILED keeps the invariant |
| `MaekawaReceive.OnAskInquire` | xv6/maekawa_linux.c:270-305 | queueing with INQUIRE, sent or already sent, keeps the invariant |
| `MaekawaReceive.OnRelinquish` | xv6/maekawa_linux.c:365-393 | moving a vote on RELINQUISH keeps the invariant |
| `MaekawaReceive.OnReleaseNext` | xv6/maekawa_linux.c:404-426 | moving a vote on RELEASE keeps the invariant |
| `MaekawaReceive.OnReleaseLast` | xv6/maekawa_linux.c:397-403 | freeing the vote keeps the invariant |
| `MaekawaSafety.OnSendRequest` | xv6/maekawa_linux.c:203-217 | sending requests one by one keeps the invariant |
| `MaekawaSafety.OnSendRelease` | xv6/maekawa_linux.c:438-452 | sending releases one by one keeps the invariant |
| `MaekawaSafety.OnEnter` | xv6/maekawa_linux.c:230-241 | returning from the receive loop keeps the invariant |
| `MaekawaSafety.StepKeeps` | xv6/maekawa_linux.c:221-452 | every step keeps the invariant, and its handler call is defined |
| `MaekawaSafety.GridIsGood` | xv6/maekawa_linux.c:507-520 | the table built by main is a system of mutual, intersecting quorums |
| `MaekawaSafety.MutualExclusion` | xv6/maekawa_linux.c:221-452 | in every state of every run on a grid with 2n < 100, at most one process is in the critical section, and every handler call stays in its arrays |
| `MaekawaSafety.QueuesNeverWrap` | xv6/maekawa_linux.c:130-162 | in every such state no queue wraps, so the unimplemented branch of the removal is not reached |
| `MaekawaVotes.HolderHasVotes` | xv6/maekawa_linux.c:221-241 | in every such state, whoever is in the critical section has the vote of every process of its quorum, its own among them |
| `MaekawaVotes.HandlesNothing` | xv6/maekawa_linux.c:230-241 | a process that is sending, has its votes, is inside or is releasing handles no message, and its own next step is the one that the program takes |
| `MaekawaReach.Acquire` | xv6/maekawa_linux.c:221-241 | with nobody using the lock, any process that has not had it can get it |
| `MaekawaReach.GiveBack` | xv6/maekawa_linux.c:438-452 | after its release every vote is free and no message is on its way |
| `MaekawaReach.LockReachable` | xv6/maekawa_linux.c:221-452 | on every grid with 2n < 100, and for any processes in any order, some run lets exactly these into the critical section, in this order |
| `LogCrash.RecoveryInterrupted` | xv6/log.c:69-122 | recovery stopped after any write and started again gives the same home blocks |
| `LogCrash.CommitIsRecovery` | xv6/log.c:177-202 | after the commit point, commit writes exactly what recovery would |
| `LogCrash.CommittedRecovers` | xv6/log.c:69-122 | recovery from the commit point installs the whole transaction |
| `LogCrash.BeforeCommitPoint` | xv6/log.c:177-190 | before the header write, recovery gives the old home blocks |
| `LogCrash.CommitInterrupted` | xv6/log.c:177-202 | commit stopped after any write: all of the transaction or none of it |
| `LogCrash.HistoryIsAtomic` | xv6/log.c:69-202 | over any history of commits, crashes and recoveries, what recovery gives is the committed transactions applied in order |
| `LogCrash.BootFindsCommitted` | xv6/log.c:53-122 | after a completed recovery the home blocks are that state and the log is empty |
| `LogCrash.CommitCompletes` | xv6/log.c:192-202 | a commit that runs to its end installs the transaction and leaves the log empty |
| `LogDevice.Log.WriteLog` | xv6/log.c:177-190 | the block writes of the log slots, in order, from the cached blocks |
| `LogDevice.Log.WriteHead` | xv6/log.c:102-113 | the header block write |
| `LogDevice.Log.InstallTrans` | xv6/log.c:69-82 | the home block writes, from the log slots |
| `LogDevice.Log.Commit` | xv6/log.c:192-202 | the writes of the specification, in that order; afterwards nothing is pinned and the log is empty |
| `LogDevice.Log.ReadHead` | xv6/log.c:85-96 | the in-memory header is the one on disk |
| `LogDevice.Log.RecoverFromLog` | xv6/log.c:115-122 | the writes of the recovery specification |
| `LogDevice.Log.LogWrite` | xv6/log.c:213-233 | the block is pinned and recorded once; the panic exactly when the guard says so |
| `LogReserve.StepKeeps` | xv6/log.c:126-174 | each step of begin_op, log_write, end_op and commit keeps the reservation invariant |
| `LogReserve.ReservationHolds` | xv6/log.c:126-174 | in every interleaving, logged blocks and unused reservations fit in LOGSIZE, logged numbers are distinct, commit runs alone |
| `LogReserve.PlanFitsBudget` | xv6/log.c:126-141 | an operation that logs only blocks of a set of at most MAXOPBLOCKS never exceeds its reservation, whatever the other processes do |
| `LogAdmit.AdmittedIff` | xv6/log.c:126-141 | in every state of every run, begin_op lets a process in exactly if no commit is on and the blocks logged and MAXOPBLOCKS for each operation then inside fit in LOGSIZE |
| `LogAdmit.TogetherIff` | xv6/log.c:126-141 | some run has k operations inside at once if and only if there are k processes and k is at most three |
| `LogAdmit.WaiterAdmitted` | xv6/log.c:126-174 | from every state of every run, some run goes on to one in which a given process is let in |
| `LogReserve.PanicNeeds` | xv6/log.c:213-233 | a call covered by the reservation that panics, in any run, means the condition of the next row, and of the one after it if its block is new |
| `LogReserve.PanicReachableIff` | xv6/log.c:213-233 | for every size of the log area and every number of processes: some run makes a call of log_write panic whose block is logged already or within the reservation if and only if there are two or more processes, or there is one and the area has at most MAXOPBLOCKS + 1 blocks |
| `LogReserve.NewPanicReachableIff` | xv6/log.c:213-233 | the same for a block that is not logged yet: if and only if there are two or more processes and the area has at most LOGSIZE blocks, or there is one and it has at most MAXOPBLOCKS |
| `LogReserve.OverflowReachableIff` | xv6/log.c:218-230 | some run logs more blocks than the log area has slots for if and only if there are two or more processes and the area has 2 to LOGSIZE blocks |
| `FsLayout.BitPlaces` | xv6/fs.h:44-48 | each bit of each bitmap block is the bit of exactly one block |
| `FsLayout.InodePlaces` | xv6/fs.h:38-42 | each place of each inode block is that of exactly one inode |
| `FsState.FreeIsUnowned` | xv6/fs.c:56-78 | a block whose bit is clear belongs to no inode slot |
| `FsState.GrowDirectKeeps` | xv6/fs.c:379-383 | adding a direct block keeps bitmap and ownership in step and moves no other block |
| `FsState.AddIndirectKeeps` | xv6/fs.c:388-389 | adding the indirect block does |
| `FsState.GrowIndirectKeeps` | xv6/fs.c:390-397 | adding an entry of the indirect block does |
| `FsState.SetBlockKeeps` | xv6/fs.c:499-505 | rewriting a data block keeps every other block of every file |
| `FsState.EmptiedKeeps` | xv6/fs.c:408-436 | truncation keeps bitmap and ownership in step |
| `FsFile.EmptyDisk` | xv6/fs.c:56-96 | a disk with empty files and only its metadata blocks marked satisfies the invariant |
| `FsFile.WritingStep` | xv6/fs.c:499-505 | mapping a block and copying into it is one step of a splice |
| `FsFile.WritingDone` | xv6/fs.c:482-512 | at the end the file is the splice, and every other file is as before |
| `FsFile.ReadSlice` | xv6/fs.c:470-475 | a read within a block gives that part of the file |
| `FsGrow.DirectTaken` | xv6/fs.c:379-383 | taking the lowest free block as a direct block: the file grows, its other blocks stay, and the block and its bitmap block are logged |
| `FsGrow.IndirectTaken` | xv6/fs.c:388-389 | the same for the indirect block |
| `FsGrow.EntryTaken` | xv6/fs.c:390-397 | the same for an entry of the indirect block, which is logged too |
| `FsGrow.GrownTrans` | xv6/fs.c:373-401 | growing twice takes the lowest free blocks and logs what growing once does |
| `FsGrow.TakenSize` | xv6/fs.c:373-401 | a file takes exactly as many blocks as its new length needs |
| `FsGrow.WriteLogsStep` | xv6/fs.c:499-505 | what one turn of the loop adds to the blocks logged |
| `FsOps.FileSystem.Balloc` | xv6/fs.c:56-78 | the first block whose bit is clear, marked and zeroed; the panic exactly when there is none |
| `FsOps.FileSystem.Bfree` | xv6/fs.c:81-96 | the bit is cleared; the panic exactly when it was clear |
| `FsOps.FileSystem.Bmap` | xv6/fs.c:373-401 | the block's address; allocation only of the file's next block, from the lowest free ones; exactly what it logs; it fails exactly if too few blocks are free |
| `FsOps.FileSystem.Readi` | xv6/fs.c:453-477 | exactly the part of the file within its size; nothing is allocated |
| `FsOps.FileSystem.Iupdate` | xv6/fs.c:221-237 | the inode on disk is the one in memory |
| `FsOps.FileSystem.Writei` | xv6/fs.c:482-512 | this file spliced and of the new size, all others untouched, inode on disk current, exactly the data blocks, bitmap blocks, indirect block and inode block that changed logged; what is refused; it fails exactly if too few blocks are free |
| `FsOps.FileSystem.EndWrite` | xv6/fs.c:507-511 | the inode on disk is current although iupdate runs only when the file grows |
| `FsOps.FileSystem.FreeSlot` | xv6/fs.c:415-428 | an owned block's bit is set when it is freed, so the panic is not reached; its bitmap block is logged |
| `FsOps.FileSystem.Itrunc` | xv6/fs.c:408-436 | each owned block freed once and no other, the file empty, all others untouched; logged are the bitmap blocks of the blocks the file had and the block of its inode, and nothing else |
| `FsChunk.LogParts` | xv6/fs.c:482-512 | the blocks a write logs are those written, the bitmap blocks of those taken, the indirect block if it got an entry, and the inode's block if the file got longer |
| `FsChunk.LogsExactly` | xv6/fs.c:482-512 | on a disk laid out as mkfs does, exactly how many they are |
| `FsChunk.ChunkFits` | xv6/file.c:132-137 | a chunk logs at most MAXOPBLOCKS blocks, and at most 6 and the number of bitmap blocks: seven when there is one |
| `FsChunk.ChunkLogsAll` | xv6/file.c:132-137 | a chunk appended to a file one byte short of its direct blocks, when the next four free blocks have their bits in four bitmap blocks, logs exactly MAXOPBLOCKS blocks |
| `FsWorst.WorstCase` | xv6/file.c:132-137 | there is such a disk, and the write succeeds on it |
| `FsTruncFit.TruncLogsAtMost` | xv6/fs.c:408-436 | a truncation logs no more than the bitmap blocks with bits of data blocks, and one |
| `FsTruncFit.TruncationsFitIff` | xv6/fs.c:408-436 | on a disk laid out as mkfs does, every truncation logs at most MAXOPBLOCKS blocks if and only if fewer than MAXOPBLOCKS bitmap blocks hold bits of data blocks |
| `FsWrite.WriteOnce` | xv6/file.c:139-144 | between begin_op and end_op: refused exactly when writei refuses, and out of blocks exactly if too few are free for the chunk |
| `FsWrite.WriteChunk` | xv6/file.c:139-144 | one operation: the splice, the new offset, exactly what the write calls for logged, at most MAXOPBLOCKS blocks; refused, or out of blocks, exactly as writei is |
| `FsWrite.AcceptedNext` | xv6/file.c:134-149 | a chunk is one of those accepted exactly if writei does not refuse it; when it is refused all that is accepted has been written |
| `FsWrite.TurnsWrote` | xv6/file.c:134-151 | after any number of turns the file is the old one with the bytes of those turns at the old position |
| `FsWrite.TurnShort` | xv6/file.c:134-151 | a turn that finds too few blocks means too few for all that is accepted |
| `FsWrite.FileWrite` | xv6/file.c:132-152 | it comes to its end exactly if enough blocks are free for all that is accepted, and has then written exactly that; n is returned, and all bytes written, exactly if the position is within the file and the end within the largest file |
| `FsCrash.UnloggedSame` | xv6/fs.c:482-512 | a block that a write does not log holds the same data, bits and inodes as before |
| `FsCrash.TruncatedSame` | xv6/fs.c:408-436 | a block that a truncation does not log holds the same data, bits and inodes as before |
| `FsCrash.LogsAreHome` | xv6/mkfs.c:94-103 | no write logs a block of the log area |
| `FsCrash.UntouchedSame` | xv6/log.c:185-202 | a block that none of the operations between two commits logs, chunks written and files truncated, has the same contents after them |
| `FsCrash.GroupIsLoggable` | xv6/log.c:185-202 | the operations between two commits, of any processes on any files, make one transaction |
| `FsCrash.GroupIsAtomic` | xv6/log.c:185-202 | its commit cut off after any write and recovered: the disk holds the state before all of them or the state after all of them |
| `FsCrash.GroupCommits` | xv6/log.c:185-202 | run to its end, the state after all of them |
| `FsCrash.DisksIntact` | xv6/log.c:149-174 | between two commits the disk holds what the operations committed so far have written |
| `FsCrash.FileAfter` | xv6/file.c:134-151 | after any number of operations a file is the old one with the chunks among them written to it, whatever was written to other files or truncated |
| `FsCrash.CrashLeavesPrefix` | xv6/file.c:132-152 | a crash at any block write of any commit: after recovery the disk holds the state after a whole number of commits, in which the file of a filewrite is the old one with a whole number of its chunks written |
| `FsCrash.TurnsAreHistory` | xv6/file.c:132-152 | the turns of filewrite are such operations, its chunks in order |
| `FsCrash.TurnWithinBudget` | xv6/log.c:126-141 | a chunk stays within the reservation made for it, in every interleaving |
| `JacobiGrid.SweepRow` | xv6/jacob.c:385-392 | one row of averages and the running maximum of the changes |
| `JacobiGrid.Sweep` | xv6/jacob.c:382-393 | the averages of a band and its largest change |
| `JacobiGrid.CopyRows` | xv6/jacob.c:421-422 | the inner cells of the band taken over, nothing else |
| `JacobiGrid.Iteration` | xv6/jacob.c:218-235 | one iteration: the test decides by the largest change, and the grid moves on unless it succeeds |
| `JacobiGrid.SerialOutRight` | xv6/jacob.c:218-235 | the loop's result is the grid of the first iteration whose test succeeds |
| `JacobiGrid.Serial` | xv6/jacob.c:215-235 | the grid of the first iteration whose test succeeds, and its number |
| `JacobiGrid.SerialUnique` | xv6/jacob.c:215-235 | that result is unique |
| `JacobiGrid.ChangeSplits` | xv6/jacob.c:464-476 | the change of adjoining bands is the larger of the two |
| `JacobiBalance.ChangeBounds` | xv6/jacob.c:221-228 | no inner cell of a band moves by more than the difference of its sweep, up or down |
| `JacobiBalance.ChangeAttained` | xv6/jacob.c:221-228 | which is 0 or the move of one of them |
| `JacobiBalance.MoveIsBalance` | xv6/jacob.c:223-224 | four times the new value of a cell is the sum of its four neighbours, so that its move tells how far it was from their mean |
| `JacobiBalance.SmallChangeIff` | xv6/jacob.c:229-233 | the largest change is at most E if and only if E is not negative and four times each inner cell differs from the sum of its four neighbours by at most 4 E |
| `JacobiBalance.NextWithin` | xv6/jacob.c:221-235 | a step leaves the boundary alone, and no value leaves the range of the values before it |
| `JacobiBalance.ChangeShrinks` | xv6/jacob.c:218-235 | the largest change of a step is never more than that of the step before |
| `JacobiBalance.ResultIff` | xv6/jacob.c:218-235 | the program ends in the first iteration that is past the limit or whose grid is balanced in that sense, with that grid |
| `JacobiBalance.ResultBalanced` | xv6/jacob.c:218-235 | a result below the limit is balanced, and its values are in the range of the first grid's |
| `JacobiBalance.GatheredBalanced` | xv6/jacob.c:266-507 | so is the grid that the parallel program gathers, in every run that cannot go on |
| `JacobiSplit.Bands` | xv6/jacob.c:54-80 | the bands follow one another from row 0 to row n |
| `JacobiSplit.NoBandEmpty` | xv6/jacob.c:73-80 | every process has a row if and only if there are no more processes than rows |
| `JacobiChild.OnSendUp` | xv6/jacob.c:273-285 | sending the first row up keeps the invariant |
| `JacobiChild.OnSendDown` | xv6/jacob.c:286-299 | sending the last row down keeps the invariant |
| `JacobiChild.OnFromBelow` | xv6/jacob.c:343-359 | receiving from below keeps the invariant |
| `JacobiChild.OnFromAbove` | xv6/jacob.c:360-376 | receiving from above keeps the invariant |
| `JacobiTurn.SweptRight` | xv6/jacob.c:382-393 | with both edge rows received, a child computes its band of the next serial grid |
| `JacobiTurn.SweptChange` | xv6/jacob.c:382-405 | and the serial change of its band |
| `JacobiTurn.Barrier` | xv6/jacob.c:410-420 | a child that finds its order knows that every child has sent its difference |
| `JacobiTurn.CopiedRight` | xv6/jacob.c:421-422 | taking over the new values moves the band to the next serial grid |
| `JacobiCoordinator.OnRead` | xv6/jacob.c:464-476 | reading a difference keeps the invariant |
| `JacobiCoordinator.Decide` | xv6/jacob.c:477-480 | with all differences read, the maximum and the decision are the serial ones |
| `JacobiCoordinator.OnGather` | xv6/jacob.c:495-507 | storing a returned cell keeps the invariant |
| `JacobiTheorem.StepKeeps` | xv6/jacob.c:269-507 | every step of every process keeps the invariant |
| `JacobiTheorem.ParallelIsSerial` | xv6/jacob.c:266-507 | for 2 <= P <= N, in every state of every run: rows, edge rows, difference, stopping iteration and gathered grid are the serial ones |
| `JacobiBand.SweepBand` | xv6/jacob.c:382-393 | on the arrays, a child's sweep makes the band and the difference of the step system |
| `JacobiBand.CopyBand` | xv6/jacob.c:421-422 | and its copy the grid of the next iteration |
| `JacobiProgress.WaitsBelow` | xv6/jacob.c:343-359 | a child that waits for the row below waits for a neighbour that can go on |
| `JacobiProgress.WaitsAbove` | xv6/jacob.c:360-376 | the same for the row above |
| `JacobiProgress.AllStored` | xv6/jacob.c:426-507 | with all children gone and no cell on its way, every inner cell is stored |
| `JacobiProgress.GoesOn` | xv6/jacob.c:266-507 | unless the result is gathered and all children are gone, some process can take a step |
| `JacobiTermination.StepAdvances` | xv6/jacob.c:266-507 | every step takes the program further towards its end |
| `JacobiTermination.ParallelEnds` | xv6/jacob.c:266-507 | for 2 <= P <= N no run has more steps than a bound in N, P and L, and a run that cannot go on has ended with the serial result |
| `JacobiTermination.ResultReachable` | xv6/jacob.c:266-507 | from every state of every run, some run goes on to the result |
| `UmallocHeap.InsertedCoalesced` | xv6/umalloc.c:33-42 | insertion keeps the free blocks sorted, apart and with nothing left to coalesce |
| `UmallocHeap.InsertedCovers` | xv6/umalloc.c:33-42 | insertion covers the old units and the block's |
| `UmallocHeap.FreeKeeps` | xv6/umalloc.c:24-44 | free keeps the partition of what was obtained, and the sum |
| `UmallocHeap.TakeKeeps` | xv6/umalloc.c:75-82 | taking a block does |
| `UmallocHeap.GrantKeeps` | xv6/umalloc.c:54-58 | a new chunk does |
| `UmallocList.StopsOnlyAtSlot` | xv6/umalloc.c:30-32 | the search stops at the block's place on the ring and nowhere else |
| `UmallocList.SpliceLinked` | xv6/umalloc.c:33-42 | the rewritten headers are the ring of the new free blocks, in all four cases |
| `UmallocList.CarveLinked` | xv6/umalloc.c:76-82 | so are they when a block is taken whole or in part |
| `Umalloc.RequestFits` | xv6/umalloc.c:63-69 | the block is large enough and sbrk is asked for as much as is assumed, if and only if the request is at most 2^31 - 16 bytes |
| `Umalloc.RequestMisfits` | xv6/umalloc.c:46-69 | two requests for which this fails |
| `Umalloc.Allocator.Search` | xv6/umalloc.c:30-32 | the walk ends, at the place where the block belongs |
| `Umalloc.Allocator.Free` | xv6/umalloc.c:24-44 | the block is merged into the free list at its place; headers, ring and partition are kept |
| `Umalloc.Allocator.Morecore` | xv6/umalloc.c:46-61 | the chunk becomes free, at its place, and freep is the node before it; nothing changes on failure |
| `Umalloc.Allocator.Walk` | xv6/umalloc.c:74-89 | the loop ends with the first large enough block after freep, which is then the node before it; the system is asked at most once and only if no free block is large enough |
| `Umalloc.Allocator.Malloc` | xv6/umalloc.c:63-90 | the last units of the first free block after freep that is large enough; if there is none, of the first after a chunk was obtained; if the system refuses, nothing is changed; when sbrk would be asked for a wrapped number of bytes |
| `Umalloc.AllocatedLive` | xv6/umalloc.c:63-90 | then the new block, of the requested units, is one more live block, and the others are as before |
| `BioRing.UnlinkRing` | xv6/bio.c:132-133 | unlinking leaves the ring of the other buffers |
| `BioRing.PushRing` | xv6/bio.c:134-137 | linking in puts the buffer first |
| `BioState.RecycleKeeps` | xv6/bio.c:81-90 | giving an idle buffer to an uncached block keeps the cache right |
| `BioState.EnterKeeps` | xv6/bio.c:95-106 | the holder finds the latest contents of the block it asked for |
| `BioState.WriteKeeps` | xv6/bio.c:108-116 | a write keeps the cache right |
| `BioState.UnlockKeeps` | xv6/bio.c:120-126 | releasing keeps the cache right if every modification was logged or written |
| `BioState.DropKeeps` | xv6/bio.c:128-130 | dropping a reference keeps the counts right |
| `Bio.BufferCache.constructor` | xv6/bio.c:38-56 | all buffers linked in, none used |
| `Bio.BufferCache.Find` | xv6/bio.c:68-76 | the first of the block's buffers in the ring, if it has one |
| `Bio.FirstIsAlone` | xv6/bio.c:66-76 | no other buffer of that block is in use or has contents, which is not plain for block 0 of device 0, whose number the unused buffers carry |
| `Bio.BufferCache.FindIdle` | xv6/bio.c:78-91 | the least recently released buffer that is neither referenced nor dirty |
| `Bio.BufferCache.Bget` | xv6/bio.c:61-93 | the block's buffer, or a recycled idle one, or the panic exactly when there is neither |
| `Bio.BufferCache.Bread` | xv6/bio.c:95-106 | the buffer still is the block's and holds its latest contents |
| `Bio.BufferCache.Bwrite` | xv6/bio.c:108-116 | disk and buffer agree |
| `Bio.BufferCache.Modify` | xv6/bio.c:95-106 | the owner of the lock changes the latest contents of the block |
| `Bio.BufferCache.LogWrite` | xv6/log.c:231 | the buffer is pinned |
| `Bio.BufferCache.Unlock` | xv6/bio.c:120-126 | the lock is released |
| `Bio.BufferCache.Unref` | xv6/bio.c:128-140 | the last user moves the buffer to the front, the order of the others stays |
| `VmState.TakenKeeps` | xv6/kalloc.c:82-95 | popping a frame keeps every frame in one use |
| `VmState.FreedKeeps` | xv6/kalloc.c:59-77 | pushing one does |
| `VmSteps.TableKeeps` | xv6/vm.c:45-53 | adding a page table does |
| `VmSteps.LeafKeeps` | xv6/vm.c:69-73 | adding an entry does |
| `VmSteps.DropLeafKeeps` | xv6/vm.c:269-276 | removing one does |
| `VmSteps.WalkedWorks` | xv6/vm.c:35-55 | walkpgdir changes no entry and nothing outside the space |
| `VmMap.NoTable` | xv6/vm.c:266-268 | the skip over a missing table misses no present page |
| `VmMap.RemapTest` | xv6/vm.c:71-72 | the test for a remap finds the pages mapped when mappages began |
| `VmMap.PageFrame` | xv6/vm.c:270-272 | no user page is mapped to frame 0, and the first kernel page is, so that the panic stops at the last user page |
| `VmCount.WalkTabled` | xv6/vm.c:35-55 | the walk takes a frame exactly if the page has no table, or there is none to take |
| `VmCount.MapRunsOut` | xv6/vm.c:60-80 | mappages runs out of memory exactly if fewer frames are free than tables are missing for the pages it tries, which go up to the first that is mapped |
| `VmCount.GrowRunsOut` | xv6/vm.c:221-249 | allocuvm without a frame means fewer free frames than pages and missing tables |
| `VmCount.GrowEnough` | xv6/vm.c:221-249 | allocuvm at its end or at a mapped page means enough of them |
| `VmCount.KernelSlotsAre` | xv6/vm.c:103-116 | the kernel's mappings take 64 tables |
| `VmCount.CopyCount` | xv6/vm.c:315-345 | a copy of n pages takes exactly 65 + n + ceil(n / 1024) frames |
| `VmLife.AllFreed` | xv6/vm.c:283-298 | when a space is gone, the frames it used and no others have become free |
| `VmLife.NothingLost` | xv6/vm.c:342-345 | a failed creation leaves the same frames free |
| `VmLife.WriteUnseen` | xv6/vm.c:315-345 | a write to a page of one space is seen in no other page of any space |
| `VmWalk.TranslateIs` | xv6/vm.c:35-55 | the processor's walk over the words of directory and tables finds exactly the entries of the space, with the permissions of both levels |
| `VmWalk.GrownSeen` | xv6/vm.c:221-249 | after allocuvm the program can read and write each new page and finds it zero, and every other page translates as before |
| `VmWalk.CopiedSeen` | xv6/vm.c:315-345 | after copyuvm each page of the child has the parent's contents and permissions, on another frame |
| `VmWalk.KernelSeen` | xv6/vm.c:103-116 | the kernel's part is physical memory from KERNBASE on and the devices at their own addresses, text and read-only data not writable, none of it for user code |
| `VmWalk.JunkSeen` | xv6/kalloc.c:67-75 | a freed frame holds the byte 1 everywhere but in its first word, which is the kernel address of the next free frame, or 0 |
| `Vm.Machine.constructor` | xv6/kalloc.c:31-44 | at the start every managed frame is free |
| `Vm.Machine.Freerange` | xv6/kalloc.c:46-53 | every frame of the range is freed |
| `Vm.Machine.Kalloc` | xv6/kalloc.c:82-95 | the head of the free list, 0 exactly when it is empty |
| `Vm.Machine.Kfree` | xv6/kalloc.c:59-77 | the frame, filled with junk, is the new head |
| `Vm.Machine.Walkpgdir` | xv6/vm.c:35-55 | the table's frame, added if missing, wanted and possible |
| `Vm.Machine.Mappages` | xv6/vm.c:60-80 | the pages of the range mapped in order, every frame taken a table of theirs, and nothing else changed: all of them, or those before the first without a frame for its table or, for the panic, already mapped |
| `Vm.Machine.Setupkvm` | xv6/vm.c:118-136 | a space with exactly the kernel's mappings, or the same frames free as before, exactly if fewer than 65 are |
| `Vm.Machine.Allocuvm` | xv6/vm.c:221-249 | the new pages blank and writable; out of memory exactly if fewer frames are free than pages and missing tables are needed up to the first page that is mapped, and then the space without pages beyond the old size, so as it was if it had none; the panic exactly on such a page |
| `Vm.Machine.Deallocuvm` | xv6/vm.c:255-279 | exactly the user pages between the sizes removed and freed; the panic exactly if the old size goes beyond them |
| `Vm.Machine.Freevm` | xv6/vm.c:283-298 | every user frame, table and the directory freed, once, and nothing else |
| `Vm.Machine.Copyuvm` | xv6/vm.c:315-345 | flags and contents of every page below sz agree with the parent's, on frames of its own; 0, with the same frames free, exactly if fewer are than the copy takes up to the first page that the parent lacks; the panic exactly on such a page |
| `PipeRing.TestsRight` | xv6/pipe.c:85 | the tests for empty and full are right although the counters wrap |
| `PipeRing.SlotRight` | xv6/pipe.c:93 | a wrapped counter still gives the right slot, as PIPESIZE divides 2^32 |
| `Pipe.Buffer.PutByte` | xv6/pipe.c:93 | the byte is appended to what was written and overwrites nothing unread |
| `Pipe.Buffer.TakeByte` | xv6/pipe.c:116 | the oldest unread byte |
| `Pipe.Buffer.Read` | xv6/pipe.c:113-117 | the next bytes written, as many as asked for or as there are |
| `Pipe.Buffer.Write` | xv6/pipe.c:84-94 | a prefix is appended; it is all, or the pipe is full |
| `PipeWakeup.Wakeup1` | xv6/proc.c:668-676 | every process asleep on the channel, and no other, becomes runnable |
| `PipeWakeup.ReadKeeps` | xv6/pipe.c:100-121 | every step of a reader keeps the sleep invariant |
| `PipeWakeup.WriteKeeps` | xv6/pipe.c:78-98 | every step of a writer does, but for a killed one that leaves a full pipe while a reader sleeps |
| `PipeWakeup.CloseKeeps` | xv6/pipe.c:59-75 | every step of a closer does |
| `PipeWakeup.OnlyAbandoning` | xv6/pipe.c:85-90 | that step, and no other of any process, breaks the invariant |
| `PipeWakeup.NoLostWakeup` | xv6/pipe.c:59-121 | in every run without kills, and in every run without a write longer than the pipe: whenever the pipe's lock is free, a sleeping reader means empty and open for writing, a sleeping writer full and open for reading |
| `PipeKill.LostWakeupIff` | xv6/pipe.c:78-98 | with processes that may be killed, some run loses a wakeup if and only if there are two processes or more and a write may ask for more bytes than the pipe holds |
| `PipeReturn.ReadReturns` | xv6/pipe.c:100-121 | in every interleaving a read of n bytes reads at most n, fewer only if it leaves the pipe empty, and none only if the write end is closed as well or the reader was killed |
| `PipeReturn.WriteReturns` | xv6/pipe.c:78-98 | a write of n bytes writes at most n, and fewer only if it leaves the pipe full and the read end is closed or the writer was killed |
| `PipeReturn.BytesConserved` | xv6/pipe.c:78-121 | what is in the pipe is what was written less what was read, between nothing and PIPESIZE, whoever is killed and whatever is closed |
| `PipeReturn.FlagsAre` | xv6/pipe.c:59-75 | an end is open until it is closed, and a process is killed exactly if it was |
| `PipeReturn.RunIsTrace` | xv6/pipe.c:59-121 | every run of readers, writers, closers and kills is a sequence of states of which the rows above speak |
| `SchedulerSpec.SearchNearest` | xv6/proc.c:421-438 | the cyclic search finds the nearest marked place, and fails only if there is none |
| `SchedulerSpec.AroundIs` | xv6/proc.c:421-438 | the search fails exactly if no place is marked, and finds a place exactly if it is marked and none before it is |
| `Scheduler.FindLive` | xv6/container_manager.c:113-123 | the loop finds the nearest live container |
| `Scheduler.Cpu.GetContainerToRun` | xv6/container_manager.c:111-126 | the next live container after the current one, or the current one |
| `Scheduler.Pick` | xv6/proc.c:421-438 | nobody exactly if no process is runnable and in no container or with the membership bit of this one; otherwise the first such process after the container's last, around |
| `Scheduler.Cpu.Round` | xv6/proc.c:416-446 | the same for the next live container after the current one, or the current one; the process is the container's new last |
| `Scheduler.OnlyOwnRounds` | xv6/proc.c:431-435 | a process in a container runs only in rounds of a container that has its membership bit |
| `Scheduler.TurnComes` | xv6/container_manager.c:111-126 | a round of another container brings the turn of a live one one step closer |
| `Scheduler.GapCloses` | xv6/proc.c:421-446 | a round of its container runs the process or one before it |
| `Scheduler.OnlyTheirTurns` | xv6/container_manager.c:111-126 | every round is one of a live container, or of the current one if none is live, as at start-up |
| `Scheduler.BoundedWaiting` | xv6/proc.c:412-447 | with m containers that get rounds, a process eligible in every round of one of them runs within m * NPROC rounds |
| `Scheduler.RunnableRuns` | xv6/proc.c:412-447 | the same in the fields of the tables: for a process that stays runnable and is in no container or has that container's bit |
| `Scheduler.FreeProcessRuns` | xv6/proc.c:431-438 | a process in no container that stays runnable runs before any one container has had NPROC rounds, whatever the membership bits are |
| `MessageState.NotFull` | xv6/queue.c:74-81 | while a buffer is on the chain or in hand no queue is full |
| `MessageState.StepDefined` | xv6/message.c:79-158 | every half of a send or receive that can be taken stays inside its arrays, and no enqueue finds its queue full |
| `MessageState.StepKeeps` | xv6/message.c:79-158 | each half keeps free chain, queues and hands a partition of the buffers |
| `MessageState.MessagesPartition` | xv6/message.c:34-158 | in every state of every interleaving of sends and receives: that partition, and what was received of a queue is what was sent first, in order |
| `Message.Messages.constructor` | xv6/message.c:57-77 | all buffers on the free chain, all queues empty |
| `Message.Messages.GetMessageBuffer` | xv6/message.c:34-46 | the head of the free chain, -1 when there is none |
| `Message.Messages.FreeMessageBuffer` | xv6/message.c:48-55 | the buffer is the new head |
| `Message.Messages.Enqueue` | xv6/queue.c:45-55 | the new ring, and -1 with nothing changed when full |
| `Message.Messages.Dequeue` | xv6/queue.c:63-72 | the number at the head and the new ring, -1 when empty |
| `Message.Messages.TakeBuffer` | xv6/message.c:82-87 | the first half of a send |
| `Message.Messages.PutMessage` | xv6/message.c:89-101 | the second half |
| `Message.Messages.SendMessage` | xv6/message.c:79-102 | refused exactly if the queue is full; the message is the receiver's next exactly if a buffer is free; otherwise the code leaves its arrays |
| `Message.Messages.GetMessage` | xv6/message.c:133-144 | the first half of a receive |
| `Message.Messages.GiveBuffer` | xv6/message.c:147-157 | the second half, which reads the message that was sent |
| `Message.Messages.ReceiveMsg` | xv6/message.c:130-158 | the k-th receive gives the k-th message sent, -1 when all were received |

## Left out

- Progress of the lock: INQUIREs that are ignored mean that the code does not promise it.
- Bounded pipes in the relaxation program: the pipes and the mailbox between its processes are FIFO channels of whole messages that hold what is sent.
- JacobiTermination.ParallelEnds: it takes `recv` to wait until a message is there. `sys_recv` (`xv6/sysproc.c:161-175`) tests its queue and sleeps without a lock over both, so that it can miss a wakeup and wait on, or be woken late and return -1 without a message, which `xv6/jacob.c:499` does not look at. The same holds for the other results about that program.
- Process start-up in both programs: the broadcast of process numbers, the start message, and the counting of COMPLETE messages. Processes are numbered from 0.
- Floating-point rounding in the relaxation program; grids hold reals.
- Directories, path names, `ialloc`, `iput` and the inode cache; the byte layout of bitmap and inode blocks; the device branch of `readi` and `writei`.
- FsCrash.CrashLeavesPrefix: the operations that a commit carries are whole ones, one after the other; two that overlap in time, each between its `begin_op` and `end_op`, are not modelled. That a commit's blocks fit the log area is a premise, and `LogReserve.OverflowReachableIff` says when they always do.
- The disk driver's queue and interrupts: a disk request is one step, and block writes reach the disk in the order issued.
- Writes of a program beyond its allocated block, and allocator headers in the bytes of such writes; the heap after `sbrk` was asked for a wrapped number of bytes.
- Vm.Machine.Deallocuvm: an old size above KERNBASE together with a new size above it, which no caller passes, is excluded by a precondition.
- Vm.Machine.Copyuvm: a size above KERNBASE, which no process has, is excluded by a precondition.
- Vm.Machine.Mappages: a range of several user pages, an empty range and a range that wraps around are excluded by preconditions; no caller asks for one.
- Message.Messages.SendMessage: the sender's number kept beside the message is not modelled, and receivers' numbers are below the number of queues.
- Creating and destroying containers and changing their members: one assignment each, and status and membership are fixed while waiting is bounded.
- Signal delivery inside the scheduler, `fork`, `exit`, `wait`, `exec`, context switches, and the naming of container files.
- The remaining user programs, the drivers and the system calls' argument checks.
