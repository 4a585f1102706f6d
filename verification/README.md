# Xinu kernel services: model and proofs

This project models five pieces of the Embedded Xinu kernel and proves what each of
them is for. Every piece has the same shape: a value model that says what the tables
mean, an imperative part that works on the tables the way the C code does, and
theorems about all inputs or all runs. `dafny verify dfyconfig.toml` checks everything.

1. **Local file system** (`xinu/device/lfs`). `LfsFormat` is the byte layout of sectors,
   directory and index blocks. `LfsModel` says when a disk is a well-formed file system:
   two free lists and the files' chains own every block exactly once. `ByteFile` is the
   plain object a file stands for, a sequence of bytes with a position. `LfsState` holds
   the invariant of the one-block write-back cache, and `LfsSizes` counts blocks: how many
   are free follows from the sizes of the files. `LocalFile` is the code: the control
   block as a class over an array of 512-byte sectors, with `lfsetup` moving the window.
   `LfsCreate` is the formatter. An out-of-blocks `panic` is an outcome
   (`panicked`), proved to happen exactly when the file would outgrow what the disk leaves
   it, which `CapNamed` states in the sizes of the disk and of the other files. `Session`
   opens by name, makes any calls and closes.
2. **Processes, scheduler, semaphores, messages and the clock** (`xinu/system`).
   `QueueModel` and `QueueTable` say what lists, delta lists and the linked `queuetab`
   mean; `Queues` is the pointer code. `KernelModel` and `KernelCalls` define each system
   call as one step of a state machine; `KernelInv` proves the invariant of every run,
   `KernelRuns`, `KernelOrder`, `KernelTime`, `KernelMail` and `KernelTimeout` (the timed
   receive) prove properties of whole runs. `KernelView` says, apart from the tables, what
   each call does to every process and every semaphore and what it answers, and proves that
   the steps do just that; `KernelTurns` does the same for the ready list, the time slice
   and deferral, and `KernelLives` draws the conclusions over runs. `Kernel` is the code on
   the tables, each call proved equal to its step and its answer; `DoAll` carries the run
   theorems over to it. `ctxsw` is the
   change of `currpid`; a call with work after `resched` is two steps, one before and one
   after it. `kill` is the message to the parent followed by the change of state. The null
   process never blocks. A call that blocks while rescheduling is deferred is covered by
   the code and by `KernelRuns.DeferredBlock`, but is not a step of a run.
3. **Heap** (`getmem`, `getstk`, `freemem`). `HeapModel` is the free list as a value: the
   one ascending, coalesced list for a set of free bytes. `HeapRuns` adds the blocks
   handed out. `Heap` is the code on the linked list.
4. **Ports** (`ptinit` to `ptdelete`). `PortsModel` is a state machine in which parties
   are admitted by a semaphore and complete later, and in which a reset or delete is
   several steps, since its semaphore calls reschedule. `PortsInv`, `PortsSteps` and
   `PortsRuns` prove the invariant and what follows over all interleavings. `PortsMessages`
   keeps the callers' own books, from their calls and the outcomes alone, and proves that
   what is received is what was sent; `PortsCalls` says what each call answers. `Ports` is
   the code on nodes and port table.
5. **`qsort`**. `Qsort` is the in-place partition and the sort around it.

Constants are those of the configuration: 16 processes, 32 semaphores, 30 ports, a time
slice of 2 ticks, 512-byte sectors, 7 index blocks of 72 bytes a sector, 16 data blocks
an index block, 20 directory entries.

## Where the code does less than it is meant to

* A file that `lfsOpen` creates is in the directory in memory only. After the session it
  is in the directory on disk if and only if some call stored a byte in it
  (`LocalFiles.LocalFile.Session`).
* `lfscreate` leaves a well-formed file system if and only if it is asked for at least one
  index block. Asked for none it writes index block 0 all the same, into the first data
  sector, and both free lists start there (`LfsCreation.LfsCreate`, `NoIndexBlocks`).
* `recvtime(0)` puts a process with no time left on the delta list. The next tick releases
  it without counting for the others, if and only if one of them has time left
  (`KernelTime.ZeroDelayCountsIff`). `KernelTime.TickCountsIff` is the condition in any
  state, and `KernelTime.TimelyStep` says that no other call leads there. Over any run,
  with such calls in it, a sleeper's time goes down by one with each tick that counts
  (`KernelTime.TimeLeft`).
* `sleepms` takes an unsigned delay and hands it on as a signed key. From 2^31 on the key
  is negative and the delta list is no longer one. With a delay above 2^31 the next tick
  wakes the process. With 2^31 itself that tick takes the key from the least number round
  to the greatest one: the process sleeps on, but first on the list, so that nobody else
  wakes before it. Below 2^31 it sleeps as asked (`KernelTime.SleepLastsIff`). The run
  theorems are about such delays.
* While rescheduling is deferred `resched` returns at once, so a process that blocks then
  runs on although it is not current and may be on a queue. A call that blocks keeps the
  invariant if and only if rescheduling is not deferred (`KernelRuns.DeferredBlock`).
* `ptmaxcnt` is 16 bits wide but the count given to `ptcreate` is 32. With n message nodes
  a port keeps to its limit in every run if and only if the count fits 16 bits or its low
  16 bits are at least n (`PortsRuns.LimitIff`).
* `newqueue` tests for `q > NQENT`. Just with `NQENT - 1` and `NQENT` it then writes past
  the end of the table (`Queues.TestMisses`); every other value is handled
  (`Queues.QueueTab.NewQueue`). `NQENT` is what `nextqid` is after boot
  (`Kernels.Kernel.constructor`).
* `freemem` checks neither where a block ends against `maxheap` nor its alignment:
  `HeapModel.FreedWithin` and `HeapModel.FreedAligned` give the exact conditions,
  `HeapModel.FreedOutside` an example of each.

## Model

| member | source | states |
|---|---|---|
| LfsFormat.WordsRoundTrip | xinu/include/lfilesys.h:71-76 | words stored as bytes read back, for any number of words |
| LfsFormat.IbRoundTrip | xinu/include/lfilesys.h:71-76 | an index block decodes from its 72 bytes to itself |
| LfsFormat.DirRoundTrip | xinu/include/lfilesys.h:109-117 | a directory decodes from its sector to itself |
| LfsFormat.IbLayout | xinu/include/lfilesys.h:71-76 | each word of an index block stands where the struct has it |
| LfsFormat.DirLayout | xinu/include/lfilesys.h:92-117 | so does each word of the directory, and each field of its entries |
| LfsFormat.EntriesRoundTrip | xinu/include/lfilesys.h:92-98 | so do the 20 directory entries |
| LfsFormat.Ib2Disp | xinu/include/lfilesys.h:87 | an index block lies wholly inside its sector |
| LfsFormat.IbPutGet | xinu/device/lfs/lfibput.c:23-41 | storing one index block changes that block and none of the six that share its sector, nor any other |
| LfsModel.OwnedPop | xinu/device/lfs/lfdballoc.c:21-33 | taking the first free block keeps the partition: every block on the free list or in one file, once |
| LfsModel.OwnedPush | xinu/device/lfs/lfdbfree.c:18-22 | giving a file's block back keeps the partition |
| LfsModel.OwnedSplice | xinu/device/lfs/lftruncate.c:92-97 | putting a whole chain in front of the free list keeps the partition |
| LfsModel.FileReadsBack | xinu/device/lfs/lfsetup.c:78-119 | following index chain and block pointers on the disk alone gives exactly a file's bytes |
| LfsModel.OthersKept | xinu/device/lfs/lfibput.c:23-41 | changes confined to one file's blocks and the free lists leave every other file's bytes as they were |
| LfsModel.VolumeAppendIndex | xinu/device/lfs/lfsetup.c:50-54 | linking a free index block to the end of a file's chain keeps the file system well-formed, all contents unchanged |
| LfsModel.VolumeAppendBlock | xinu/device/lfs/lfsetup.c:106-109 | so does pointing an index block at a free data block |
| LfsModel.VolumeStoreByte | xinu/device/lfs/lflPutc.c:50-59 | storing a byte at or before the end changes exactly that byte, or appends it |
| LfsModel.DrainBlock | xinu/device/lfs/lftruncate.c:62-74 | freeing one data block of the file being truncated keeps the rest in order |
| LfsModel.DrainDone | xinu/device/lfs/lftruncate.c:92-101 | after the walk the file is empty and every one of its blocks is on a free list once |
| LfsModel.ChainAvoidsFree | xinu/device/lfs/lftruncate.c:50-54 | the walk meets the old head of the free list only at the end of the chain, which is why it stops there |
| LfsSizes.OwnedCount | xinu/device/lfs/lfdballoc.c:21-33 | the free blocks and those of all files are together as many as the area has: none is ever lost |
| LfsSizes.RoomSizes | xinu/device/lfs/lfsetup.c:50-109 | the blocks that are free or in one file are those of the disk less what the other files need for their sizes |
| ByteFile.ApplyFits | xinu/device/lfs/lflSeek.c:27-37 | a position never passes the end of the file, whatever is called |
| ByteFile.WrittenAt | xinu/device/lfs/lflPutc.c:50-59 | bytes written at a position of a file replace those there, or lengthen it, and every other byte stays, index by index |
| ByteFile.ReadAt | xinu/device/lfs/lflRead.c:9-37 | what stands at a position is what is read there, and the file stays as it is |
| LfsState.OverlayWrote | xinu/device/lfs/lflPutc.c:50-59 | the same for the open file: each byte of it after a call that wrote |
| LfsState.CapReached | xinu/device/lfs/lfsetup.c:50-109 | blocks have run out for the next byte if and only if the position is at the size that the file's and the free blocks together allow |
| LfsState.CapSizes | xinu/device/lfs/lfsetup.c:50-109 | that size follows from the numbers of index and data blocks on the disk and the sizes of the other files |
| LfsState.ExtendedRoom | xinu/device/lfs/lfsetup.c:50-109 | allocating moves blocks from the free lists to the file: their number together stays |
| LfsState.SessionNames | xinu/device/lfs/lfsOpen.c:95-139 | by name, a session changes the one file and no other |
| LfsState.FlushedValid | xinu/device/lfs/lfflush.c:21-39 | writing back dirty blocks keeps the invariant and makes disk and memory agree |
| LfsState.CleanView | xinu/device/lfs/lfflush.c:21-39 | with no dirty bit set the disk itself holds what memory shows |
| LfsState.LoadOld | xinu/device/lfs/lfsetup.c:110-119 | after loading an existing block the byte pointer is at the current position's byte |
| LfsState.LoadNew | xinu/device/lfs/lfsetup.c:106-119 | after extending a file no content has changed and the pointer is at the next free place |
| LfsState.GetValid | xinu/device/lfs/lflGetc.c:48-51 | the byte under the pointer is the file's byte at the position, and the cache stays coherent |
| LfsState.PutValid | xinu/device/lfs/lflPutc.c:50-59 | storing through the pointer keeps the cache coherent |
| LfsState.PutView | xinu/device/lfs/lflPutc.c:50-59 | and overwrites or appends exactly one byte of the plain file |
| LfsState.SeekValid | xinu/device/lfs/lflSeek.c:36-37 | a move with an invalidated pointer keeps the invariant |
| LfsState.TruncEnd | xinu/device/lfs/lftruncate.c:97-101 | the state after truncation satisfies the invariant with the file empty |
| LfsState.CreatedValid | xinu/device/lfs/lfsOpen.c:132-139 | adding an empty entry keeps the invariant without touching the disk |
| LocalFiles.LfIbGet | xinu/device/lfs/lfibget.c:22-30 | the byte copy fetches the index block stored at that place |
| LocalFiles.LfIbPut | xinu/device/lfs/lfibput.c:23-42 | the read-modify-write stores it and leaves every other byte of the disk |
| LocalFiles.ClosedOnDisk | xinu/device/lfs/lflClose.c:27-35 | with no file open the disk alone decodes to every file's bytes, new unwritten files at the end of the directory excepted |
| LocalFiles.DiskByName | xinu/device/lfs/lflClose.c:27-35 | with no file open, every name looked up on the disk alone gives the bytes it has in memory |
| LocalFiles.LocalFile.LfFlush | xinu/device/lfs/lfflush.c:10-42 | dirty directory, data block and index block are written and nothing else changes |
| LocalFiles.LocalFile.LfIbAlloc | xinu/device/lfs/lfiballoc.c:10-33 | pops the first free index block, or panics exactly when there is none |
| LocalFiles.LocalFile.LfDbAlloc | xinu/device/lfs/lfdballoc.c:12-40 | pops the first free data block and returns a filled buffer, or panics exactly when there is none |
| LocalFiles.LocalFile.LfIbClear | xinu/device/lfs/lfibclear.c:9-21 | the loop clears all 16 block pointers |
| LocalFiles.LocalFile.LfDbFree | xinu/device/lfs/lfdbfree.c:10-25 | pushes a data block on the free list on disk |
| LocalFiles.LocalFile.WalkIndex | xinu/device/lfs/lfsetup.c:78-94 | the loop ends at the index block of the position; the free lists and chains are as before, except that at most the first free index block went to this file |
| LocalFiles.LocalFile.LfSetup | xinu/device/lfs/lfsetup.c:10-122 | sets up both buffers for the position with all files unchanged, takes exactly the blocks the next byte needs, and panics if and only if those are gone |
| LocalFiles.LocalFile.LflGetc | xinu/device/lfs/lflGetc.c:9-52 | returns the byte at the position and moves past it, or EOF at the end; no block, name or other file changes |
| LocalFiles.LocalFile.LflPutc | xinu/device/lfs/lflPutc.c:9-63 | the byte at the position becomes this one, or is appended at the end, and every other byte stays; which free blocks it takes; names and other files unchanged; panics exactly at the size the file cannot pass |
| LocalFiles.LocalFile.LflSeek | xinu/device/lfs/lflSeek.c:9-41 | moves the position, or refuses one past the end, and changes nothing else |
| LocalFiles.LocalFile.LflRead | xinu/device/lfs/lflRead.c:9-37 | the loop reads the bytes at the position, fewer or EOF at the end, and moves past them; no block, name or other file changes |
| LocalFiles.LocalFile.LflWrite | xinu/device/lfs/lflWrite.c:9-26 | the loop writes all bytes: each takes its place, every other byte of the file stays; it panics exactly when they reach past the size the file can get; a negative count is refused and changes nothing |
| LocalFiles.LocalFile.LfTruncate | xinu/device/lfs/lftruncate.c:10-104 | visits exactly the file's index chain, leaves it empty, and puts each of its blocks on a free list, in the order the code does |
| LocalFiles.LocalFile.LflClose | xinu/device/lfs/lflClose.c:9-38 | afterwards the disk alone decodes to all files' contents |
| LocalFiles.LocalFile.FindEntry | xinu/device/lfs/lfsOpen.c:95-111 | the name search finds the first entry with that name, or none exists |
| LocalFiles.LocalFile.LfsOpen | xinu/device/lfs/lfsOpen.c:27-180 | succeeds exactly under the conditions on name, mode, directory and free device; opens or creates the file; never writes to the disk |
| LocalFiles.LocalFile.Run | xinu/device/lfs/lfsetup.c:36-119 | any sequence of seek, getc, putc, read, write and truncate gives the results of the plain byte file; it stops if and only if the file would outgrow the blocks there are, at the first call that makes it; names and other files stay |
| LocalFiles.LocalFile.Session | xinu/device/lfs/lfsOpen.c:95-180 | open by name, any calls, close: on the disk alone, by name, this file has what the plain byte file has and all others what they had; exact conditions for failing, for the panic (in the sizes of the disk and of the other files), and for a new file being in the directory on disk |
| LocalFiles.LocalFile.StoreAndFetch | xinu/device/lfs/lflClose.c:27-35 | what is stored under a name in one session is read back under it in the next |
| LocalFiles.LocalFile.PatchAndFetch | xinu/device/lfs/lflPutc.c:50-59 | what is written anywhere in a file in one session is read back there in the next, and every other byte of the file is as before |
| LfsCreation.EmptyVolume | xinu/device/lfs/lfscreate.c:40-71 | two linked free lists and an empty directory form a well-formed file system |
| LfsCreation.LinkIndexBlocks | xinu/device/lfs/lfscreate.c:52-60 | the loop links all index blocks in order |
| LfsCreation.LinkDataBlocks | xinu/device/lfs/lfscreate.c:62-71 | the loop links the whole data area |
| LfsCreation.LfsCreate | xinu/device/lfs/lfscreate.c:10-74 | leaves an empty file system whose free lists cover both areas, well-formed if and only if there are index blocks, or fails with the disk untouched |
| LfsCreation.NoIndexBlocks | xinu/device/lfs/lfscreate.c:40-60 | with no index block no reading of the disk is a well-formed file system |
| QueueModel.InsertedDescending | xinu/system/insert.c:22-34 | insertion before the first smaller key keeps a list in descending order |
| QueueModel.DeltaInserted | xinu/system/insertd.c:22-39 | insertd gives the new process exactly its delay |
| QueueModel.DeltaOthers | xinu/system/insertd.c:22-39 | and changes no other process's remaining time |
| QueueModel.DeltaNonNegative | xinu/system/insertd.c:24-39 | and leaves all keys non-negative |
| QueueModel.Unslept | xinu/system/unsleep.c:36-43 | unsleep changes no other process's remaining time |
| QueueModel.UnsleptNonNegative | xinu/system/unsleep.c:36-43 | and leaves all keys non-negative |
| QueueTable.TableInsert | xinu/system/insert.c:29-34 | the pointer assignments of an insertion keep all queues disjoint well-formed doubly linked lists |
| QueueTable.TableRemove | xinu/system/getitem.c:53-57 | so do those of a removal |
| Queues.QueueTab.constructor | xinu/system/initialize.c:158-162 | the first loop leaves no entry linked |
| Queues.QueueTab.NewQueue | xinu/system/newqueue.c:11-31 | returns SYSERR past the table, and otherwise makes one more empty queue next to those made before |
| Queues.QueueTab.GetItem | xinu/system/getitem.c:47-58 | unlinks one process from the queue it is on |
| Queues.QueueTab.GetFirst | xinu/system/getitem.c:9-22 | removes the first process of a queue, or says it is empty |
| Queues.QueueTab.GetLast | xinu/system/getitem.c:28-41 | removes the last process of a queue, or says it is empty |
| Queues.QueueTab.Enqueue | xinu/system/queue.c:11-37 | appends to a queue; bad IDs are refused |
| Queues.QueueTab.Dequeue | xinu/system/queue.c:43-62 | removes the first process and clears its links |
| Queues.QueueTab.FindPlace | xinu/system/insert.c:22-25 | the sentinel-terminated search stops at the first smaller key |
| Queues.QueueTab.Insert | xinu/system/insert.c:9-36 | puts the process in its place among descending keys, after equal ones |
| Queues.QueueTab.FindDelay | xinu/system/insertd.c:22-28 | the search splits the delay between the processes passed and the rest |
| Queues.QueueTab.InsertD | xinu/system/insertd.c:9-42 | the delta list and keys become those of the value model |
| Queues.QueueTab.Unsleep | xinu/system/unsleep.c:36-43 | so do they after an early removal |
| Queues.QueueTab.DecrementFirst | xinu/system/clkhandler.c:28 | the first key of a delta list loses one |
| KernelModel.MakeReadyOk | xinu/system/ready.c:22-26 | making a process ready keeps queues, states and the descending ready list right |
| KernelModel.DispatchOk | xinu/system/resched.c:38-43 | the process switched to has the highest priority of all ready ones, and the ready list is never empty then |
| KernelModel.DelayedOk | xinu/system/sleep.c:42-46 | a process going to sleep keeps all queues and keys right |
| KernelModel.DropSleeperOk | xinu/system/unsleep.c:36-43 | so does one taken off the sleep list |
| KernelInv.ReschedOk | xinu/system/resched.c:9-51 | resched restores the priority rule or records that it is due |
| KernelInv.SignalTimesOk | xinu/system/signaln.c:28-33 | n signals add n to the count and keep counts and queues in step |
| KernelInv.ReleaseAllOk | xinu/system/semreset.c:26-29 | the release loop empties the queue and keeps everything else |
| KernelInv.WakeOk | xinu/system/wakeup.c:13-15 | the wakeup loop ends with no expired process on the sleep list |
| KernelInv.KillWaiterOk | xinu/system/kill.c:45-54 | killing a waiting process takes it off its queue and gives its place in the count back |
| KernelInv.StepInv | xinu/system/kill.c:34-55 | every system call, tick and time slice keeps the invariant: lists and states agree, one process is current, counts match queues, priorities are respected |
| KernelRuns.BootInv | xinu/system/initialize.c:156-216 | the tables at start satisfy it |
| KernelRuns.StateIsQueue | xinu/include/process.h:11-18 | in every reachable state a process is on the ready list, a semaphore's queue or the sleep list if and only if its state says so, and on one list at most; exactly currpid is current |
| KernelRuns.NeverIdle | xinu/system/resched.c:38-42 | the null process is current or ready, so resched never dequeues from an empty ready list |
| KernelRuns.HighestRuns | xinu/system/sched_cntl.c:34-43 | unless a reschedule is pending under deferral nobody ready outranks the current process; ending the last deferral restores that |
| KernelRuns.DeferredBlock | xinu/system/resched.c:16-19 | a call that blocks keeps the invariant if and only if rescheduling is not deferred; otherwise the process runs on without being current |
| KernelRuns.FreeSemFinds | xinu/system/semcreate.c:36-51 | newsem takes the first free entry from nextsem on and fails only when all are in use |
| KernelRuns.FreePidFinds | xinu/system/create.c:119-136 | newpid takes the first free entry from nextpid on and fails only when none is free |
| KernelRuns.QueueStep | xinu/system/signal.c:28-34 | one call's effect on a semaphore: released processes come from the front, new ones go to the back, only a kill removes in between, and the count moves by what was asked |
| KernelView.ProcessStep | xinu/include/process.h:11-18 | every call does to every process just what its purpose is: who is woken, held, created, ended or made to wait, and for what; priority, parent and message |
| KernelView.SemaphoreStep | xinu/include/semaphore.h:13-19 | every call does to every semaphore just what its purpose is: whether it exists, its count, and who waits, in order |
| KernelView.ReplyAnswers | xinu/system/send.c:18-41 | what every call returns: the ID, the priority, the message, OK, or SYSERR, each exactly when |
| KernelLives.SendWakes | xinu/system/send.c:28-38 | a message wakes the process that waits for one, with or without a time limit |
| KernelLives.ReceiversEmpty | xinu/system/receive.c:19-25 | in every run nobody waits for a message that is there |
| KernelLives.KillEnds | xinu/system/kill.c:34-55 | kill ends a process in whatever state: its entry is free, it is on no list, and nobody else ends |
| KernelLives.ExistsIff | xinu/system/create.c:119-136 | over any run a process exists if and only if it was created after it was last killed |
| KernelLives.SemAllocated | xinu/system/semcreate.c:13-51 | semcreate returns an unused entry that then has the count asked for and nobody waiting, and changes no other; it fails just when the count is negative or all are in use |
| KernelLives.UsedIff | xinu/system/semdelete.c:9-35 | over any run a semaphore is in use if and only if it was created after it was last deleted |
| KernelTurns.ReadyInOrder | xinu/system/ready.c:22-32 | after any call those who run next go by priority and, among equals, by arrival: who was ready, who was made ready, in the order of their queue, who gave up the processor |
| KernelTurns.TurnStep | xinu/system/resched.c:16-47 | the processor changes hands only when asked for and not deferred, and then stays just with a process better than all ready ones; when a time slice starts, and what deferral notes and counts |
| KernelTurns.SearchMoves | xinu/system/semcreate.c:41-49 | the next search for an entry starts after the one found last |
| KernelOrder.CountIsAccount | xinu/system/wait.c:29-39 | over any run the count is the last creation or reset value plus signals minus waits plus killed waiters; a negative count is minus the number waiting, otherwise nobody waits |
| KernelOrder.FirstComeFirstServed | xinu/system/queue.c:23-29 | over any run what was released from a semaphore and still waits is what waited and arrived, in that order, less just the processes killed while waiting |
| KernelOrder.RoundRobin | xinu/system/resched.c:25-42 | with m ready processes of the current one's priority at the front, the j-th of them runs after j reschedules |
| KernelOrder.TimeSlices | xinu/system/clkhandler.c:32-37 | the j-th of m peers gets the processor after j whole time slices |
| KernelTime.DeltaPlace | xinu/system/insertd.c:24-28 | insertd puts a process behind those due before it or with it, and before those due later |
| KernelTime.TickList | xinu/system/clkhandler.c:25-30 | what a tick does to a delta list: everybody's time goes down by one, and just those at zero leave, if the first key is at least 1 |
| KernelTime.SleepShape | xinu/system/unsleep.c:36-43 | the sleep list after any call is the old one with an insertion, a removal or a tick, and no other change |
| KernelTime.TimeKept | xinu/system/insertd.c:22-39 | no call but a tick changes the time a sleeping process has left, unless it is killed or gets its message |
| KernelTime.TickLowers | xinu/system/wakeup.c:13-16 | a tick takes one from each sleeper's time, or none if the first key is 0, and readies exactly those left with none |
| KernelTime.TickCountsIff | xinu/system/recvtime.c:24-31 | a tick counts for all sleepers if and only if the first key is at least 1 or nobody has time left |
| KernelTime.ZeroDelayCountsIff | xinu/system/recvtime.c:24-31 | after recvtime(0), from any state, the next tick counts if and only if no other sleeper has time left |
| KernelTime.TimelyStep | xinu/system/recvtime.c:24-31 | a call leads there if and only if it is recvtime(0) without a message waiting |
| KernelTime.TimePasses | xinu/system/clkhandler.c:28-30 | over a run without it a sleeper's time goes down by one with every tick |
| KernelTime.SleepLastsIff | xinu/system/sleep.c:42 | sleepms keeps the invariant if and only if the delay is less than 2^31; the caller sleeps past the next tick if and only if it is at most 2^31; at 2^31 it has the rest of its delay left and stands before all others |
| KernelTime.SleepsExactly | xinu/system/sleep.c:42-47 | a process that sleeps d ticks, d less than 2^31, is asleep until the d-th tick, which readies it |
| KernelTime.TimeLeft | xinu/system/clkhandler.c:25-30 | over every run, recvtime(0) or not, a sleeper's time goes down by one with every tick that finds the first sleeper with time left |
| KernelTime.SleepsCounted | xinu/system/sleep.c:42-47 | so a process that sleeps d ticks is asleep until the d-th tick that counts, in every run |
| KernelMail.MailStep | xinu/system/send.c:28-38 | a call leaves a process's message and its waiting for one alone, unless it sends to it |
| KernelMail.ReceiveWaits | xinu/system/receive.c:19-25 | a process in receive does not run before a message came; the first one sent wakes it and is what it then has |
| KernelMail.MessageStays | xinu/system/send.c:24-29 | a message stays unchanged until its receiver takes it |
| KernelTimeout.TimedWait | xinu/system/recvtime.c:25-32 | over every run a process in recvtime waits just as long as nobody sends to it and its time lasts |
| KernelTimeout.RecvTimeReturns | xinu/system/recvtime.c:24-43 | recvtime(d) returns the first message sent before d ticks have counted, and otherwise TIMEOUT after them |
| Kernels.Kernel.constructor | xinu/system/initialize.c:156-216 | sysinit's loops leave the start state and the invariant, and nextqid at the end of the table |
| Kernels.Kernel.Resched | xinu/system/resched.c:9-51 | the code performs the scheduling step |
| Kernels.Kernel.Ready | xinu/system/ready.c:11-32 | makes a process ready, with or without rescheduling; a bad ID changes nothing |
| Kernels.Kernel.Wait | xinu/system/wait.c:9-43 | decrements, and queues the caller when the count becomes negative; error cases change nothing |
| Kernels.Kernel.Signal | xinu/system/signal.c:9-36 | increments and readies the first waiter, if any |
| Kernels.Kernel.Signaln | xinu/system/signaln.c:9-37 | the loop equals n single signals and one reschedule |
| Kernels.Kernel.SemDelete | xinu/system/semdelete.c:9-35 | the post-increment loop releases exactly the waiting processes |
| Kernels.Kernel.SemReset | xinu/system/semreset.c:9-34 | the loop releases everybody and sets the count |
| Kernels.Kernel.SemCreate | xinu/system/semcreate.c:13-51 | takes the entry newsem's search finds |
| Kernels.Kernel.Suspend | xinu/system/suspend.c:9-41 | suspends a ready or the current process and refuses others |
| Kernels.Kernel.Resume | xinu/system/resume.c:9-31 | readies a suspended process and refuses others |
| Kernels.Kernel.Create | xinu/system/create.c:36-58 | fills the entry newpid's search finds; nextpid moves even when the stack cannot be had |
| Kernels.Kernel.NewPid | xinu/system/create.c:119-136 | the loop is the circular search |
| Kernels.Kernel.KillNotify | xinu/system/kill.c:17-28 | a bad ID changes nothing; otherwise the parent is sent the process ID |
| Kernels.Kernel.KillRemove | xinu/system/kill.c:34-55 | removes the process from whatever state it is in |
| Kernels.Kernel.Send | xinu/system/send.c:9-41 | delivers to an empty mailbox and readies the receiver, off the sleep list if need be |
| Kernels.Kernel.ReceiveStart | xinu/system/receive.c:15-23 | waits exactly when there is no message |
| Kernels.Kernel.ReceiveEnd | xinu/system/receive.c:24-30 | takes the message |
| Kernels.Kernel.RecvTimeStart | xinu/system/recvtime.c:17-32 | goes on the delta list exactly when there is no message and the time is not negative |
| Kernels.Kernel.RecvTimeEnd | xinu/system/recvtime.c:34-43 | takes the message or reports the timeout |
| Kernels.Kernel.SleepMs | xinu/system/sleep.c:27-50 | sleeps with the delay as a signed key, whatever it is, or only reschedules for none |
| Kernels.Kernel.Unsleep | xinu/system/unsleep.c:10-46 | removes a sleeping process early and refuses others |
| Kernels.Kernel.Wakeup | xinu/system/wakeup.c:9-18 | the loop readies all expired processes, then one reschedule |
| Kernels.Kernel.ClockTick | xinu/system/clkhandler.c:25-30 | the tick of the sleep list |
| Kernels.Kernel.ClockQuantum | xinu/system/clkhandler.c:32-37 | the end of a time slice reschedules |
| Kernels.Kernel.SchedCntl | xinu/system/sched_cntl.c:11-48 | nested deferral; the last stop makes up for a missed reschedule |
| Kernels.Kernel.Yield | xinu/system/yield.c:9-17 | gives up the processor to equals |
| Kernels.Kernel.Do | xinu/system/resched.c:9-51 | every call on the tables is its step of the state machine, returns its answer and keeps the invariant |
| Kernels.Kernel.DoAll | xinu/system/clkhandler.c:10-39 | so is every sequence of calls, which carries the run theorems over to the tables |
| HeapModel.OneFreeList | xinu/system/freemem.c:51-67 | a set of free bytes has exactly one ascending, coalesced free list |
| HeapModel.GetMemTakes | xinu/system/getmem.c:22-47 | getmem takes the lowest bytes of the first block that is large enough and fails only if none is |
| HeapModel.GetStkTakes | xinu/system/getstk.c:23-51 | getstk takes the highest bytes of the last block that is large enough |
| HeapModel.FitsDisjoint | xinu/system/freemem.c:35-47 | the check against two neighbours passes if and only if no byte of the block is free |
| HeapModel.MergedGiven | xinu/system/freemem.c:49-67 | exactly the block's bytes become free and the list stays coalesced |
| HeapModel.FreeMemGives | xinu/system/freemem.c:19-67 | freemem accepts a block just when it starts inside the heap and no byte of it is free; then exactly its bytes become free, otherwise nothing changes |
| HeapModel.GetThenFree | xinu/include/memory.h:23-26 | getmem then freemem, and getstk then freestk, restore the list exactly |
| HeapModel.FreedWithin | xinu/system/freemem.c:19-23 | an accepted block keeps the list inside the heap if and only if it ends inside it |
| HeapModel.FreedAligned | xinu/system/freemem.c:19-25 | addresses stay multiples of 8 if and only if the block starts at one |
| HeapModel.FreedOutside | xinu/system/freemem.c:19-25 | examples of accepted blocks that do neither |
| HeapModel.TotalCut | xinu/system/getmem.c:30-40 | taking n bytes lowers the total by n |
| HeapModel.TotalMerged | xinu/system/freemem.c:49-67 | giving n bytes back raises it by n, merged or not |
| HeapRuns.StartTiled | xinu/system/initialize.c:145-155 | at start the heap is one free block |
| HeapRuns.ReleaseTiled | xinu/system/freemem.c:9-70 | a live block can always be given back |
| HeapRuns.RunTiled | xinu/system/getmem.c:9-50 | in every run free and live blocks together tile the heap without overlap |
| HeapRuns.TiledAligned | xinu/system/getmem.c:9-50 | in a heap that starts at a multiple of 8 every free and every live block starts at one |
| HeapRuns.LiveDecides | xinu/system/freemem.c:51-67 | the free list depends on the live blocks only |
| HeapRuns.OrderFree | xinu/system/freemem.c:51-67 | two runs that leave the same blocks live leave the same free list, whatever the order |
| HeapRuns.ReleaseAll | xinu/system/initialize.c:149-155 | giving everything back in any order leaves the single initial block |
| HeapList.MemList.constructor | xinu/system/initialize.c:145-155 | the initial list |
| HeapList.MemList.GetMem | xinu/system/getmem.c:9-50 | the list walk, unlinking and splitting of the code are the first fit of the value model |
| HeapList.MemList.GetStk | xinu/system/getstk.c:9-52 | the scan and the shrinking in place are the last fit |
| HeapList.MemList.FreeMem | xinu/system/freemem.c:9-70 | the walk, the checks and the two-sided merge are the value model's; memlist's length stays the sum |
| HeapList.MemList.DoAll | xinu/system/getmem.c:9-50 | every sequence of calls on the linked list is the run of the value model, which carries its theorems over |
| PortsInv.Bounded | xinu/system/ptrecv.c:35-41 | a port holds at most its capacity and no admitted receiver finds it empty |
| PortsSteps.SendAdmitted | xinu/system/ptsend.c:27-30 | admitting a sender keeps free places, admitted senders and messages equal to the capacity |
| PortsSteps.RecvAdmitted | xinu/system/ptrecv.c:24-27 | admitting a receiver keeps signals and promised messages equal to the messages queued |
| PortsSteps.SentOk | xinu/system/ptsend.c:42-56 | so does a sender that completes |
| PortsSteps.ReceivedOk | xinu/system/ptrecv.c:33-44 | and a receiver, which finds a message |
| PortsSteps.NodeTaken | xinu/system/ptsend.c:40-45 | a node moves from the free list to one port |
| PortsSteps.NodeReturned | xinu/system/ptrecv.c:35-42 | and back |
| PortsRuns.ClearNodesInv | xinu/system/ptclear.c:24-38 | moving a port's whole list to the free list keeps every node in one place |
| PortsRuns.ClearSendersInv | xinu/system/ptclear.c:40-46 | resetting the sender semaphore lets all waiting parties go, to fail later |
| PortsRuns.FreePortFinds | xinu/system/ptcreate.c:24-42 | ptcreate takes the first free port from ptnextid on and fails only when none is free |
| PortsRuns.ApplyInv | xinu/system/ptclear.c:11-50 | every step of every party, reset and delete keeps the invariant; the only panic is a current sender without a free node |
| PortsRuns.StartInv | xinu/system/ptinit.c:21-39 | ptinit establishes it |
| PortsRuns.EveryRun | xinu/system/ptsend.c:29-56 | in every interleaving from ptinit on: capacity kept, first in first out, each node free or in exactly one port |
| PortsRuns.BeforeReset | xinu/system/ptclear.c:21-23 | a party that began before a reset or delete gets SYSERR however late it completes |
| PortsRuns.LimitHolds | xinu/system/ptcreate.c:32-41 | with counts that fit 16 bits, or whose low 16 bits no port can reach, no port exceeds ptmaxcnt in any run |
| PortsRuns.LimitFails | xinu/system/ptcreate.c:35-39 | with a wider count and more free nodes than its low 16 bits some run does |
| PortsRuns.LimitIff | xinu/include/ports.h:15 | the exact condition, for every count and number of nodes, over all runs from ptinit on |
| PortsMessages.ReceivedAsSent | xinu/system/ptsend.c:40-56 | in every run, from the calls and outcomes alone: what ptrecv returned at a port, and then what is queued there, are the messages given to the ptsend calls that completed there, in that order |
| PortsCalls.SendAnswer | xinu/system/ptsend.c:20-30 | ptsend is refused at a port not allocated, and goes in at once just when there is a place for its message |
| PortsCalls.ReceiveAnswer | xinu/system/ptrecv.c:17-27 | ptrecv likewise, just when there is a message for it |
| PortsCalls.FinishAnswer | xinu/system/ptrecv.c:29-44 | a party completes with SYSERR just when its port was cleared since; a receiver otherwise gets the message at the head |
| PortsCalls.CreateAnswer | xinu/system/ptcreate.c:18-46 | ptcreate returns the first free port, then empty and with room for the count asked for; it fails just when the count is negative or none is free |
| PortsCalls.ClearAnswer | xinu/system/ptreset.c:18-26 | a reset or delete is refused at a port not allocated, and otherwise turns away whoever came before |
| PortsCalls.ClearEnds | xinu/system/ptdelete.c:23-26 | a port that was reset is empty with room for its limit; one that was deleted is free and tried next |
| PortTables.PortTable.constructor | xinu/system/ptinit.c:14-40 | the loops free all ports and link all nodes |
| PortTables.PortTable.PtCreate | xinu/system/ptcreate.c:9-46 | the search and initialisation |
| PortTables.PortTable.PtSendBegin | xinu/system/ptsend.c:20-31 | ptsend up to its wait |
| PortTables.PortTable.PtSendEnd | xinu/system/ptsend.c:31-58 | the node moves from ptfree to the port's tail and a receiver is signalled; stale parties fail, an empty pool panics |
| PortTables.PortTable.PtRecvBegin | xinu/system/ptrecv.c:17-27 | ptrecv up to its wait |
| PortTables.PortTable.PtRecvEnd | xinu/system/ptrecv.c:27-45 | the head node's message is returned and the node goes back to ptfree |
| PortTables.PortTable.PtClearStart | xinu/system/ptreset.c:18-24 | checks, limbo and the new sequence number |
| PortTables.PortTable.PtClearNodes | xinu/system/ptclear.c:24-41 | every message is disposed of in order and all nodes go to the free list at once |
| PortTables.PortTable.PtClearSenders | xinu/system/ptclear.c:40-46 | the sender semaphore is reset or deleted |
| PortTables.PortTable.PtClearReceivers | xinu/system/ptclear.c:40-47 | the receiver semaphore is reset or deleted |
| PortTables.PortTable.PtClearEnd | xinu/system/ptdelete.c:23-26 | the new state, and ptnextid after a delete |
| PortTables.PortTable.DoAll | xinu/system/ptclear.c:11-50 | every interleaving on the nodes and the table is the model's run and returns its outcomes |
| Qsort.Qsexc | xinu/lib/libxc/qsort.c:109-124 | exchanges two elements |
| Qsort.Qstexc | xinu/lib/libxc/qsort.c:126-144 | rotates three elements |
| Qsort.CutBoth | xinu/lib/libxc/qsort.c:80-83 | exchanging elements on both wrong sides moves both bounds |
| Qsort.CutLess | xinu/lib/libxc/qsort.c:74-78 | with the left zone used up the three-way exchange shifts the equal zone right |
| Qsort.CutGreater | xinu/lib/libxc/qsort.c:104-105 | with the right zone used up it shifts the equal zone left |
| Qsort.Partition | xinu/lib/libxc/qsort.c:44-87 | the loop ends with a rearranged range split into less, equal and greater than the pivot |
| Qsort.SortedRight | xinu/lib/libxc/qsort.c:91-95 | after the greater elements are sorted only the lesser ones are left |
| Qsort.SortedLeft | xinu/lib/libxc/qsort.c:96-100 | and the other way round |
| Qsort.Pow2Halved | xinu/lib/libxc/qsort.c:91-100 | recursion on the smaller side halves the size |
| Qsort.Qs1 | xinu/lib/libxc/qsort.c:29-107 | sorts its range, rearranging only it, with recursion at most log2(n) deep, for every total preorder |
| Qsort.Qsort | xinu/lib/libxc/qsort.c:22-27 | the first n elements come out sorted and are the same elements; the rest is untouched |

## Left out

- File system: one open file at a time (`Nlfl` is 1), so the semaphores `lf_mutex` and
  `lfmutex` are not modelled; a crash in the middle of a call is not modelled either.
- File system: the parsing of the mode string in `lfgetmode` is reduced to its outcome
  (bad, old, new or either), and the read and write bits, which no operation looks at,
  are dropped.
- File system: disk errors (the RAM disk has none), `lflControl`, `lfsInit`, `lflInit`,
  and sizes that do not fit 32 bits.
- LfsCreation.LfsCreate: disks without room for one data sector (none or one sector, or
  two of which one is for index blocks) are excluded: the unsigned bound of the second
  loop wraps around there and it writes past the end of the disk.
- LocalFiles.LocalFile.LfIbGet: sector buffers are values; that a buffer on the stack is
  distinct from the control block's is built in.
- Queues.QueueTab.NewQueue: the two offsets that its test lets through although they are
  past the table are excluded, as the writes there have no meaning in the model.
- Queues.QueueTab.Insert: `isbadpid` also looks at the process table; at this level only
  the range is checked, and `Kernels.Kernel.IsBadPid` does the rest. The key -2^31 is
  excluded: no tail stops the search for it. The 16-bit priorities of `ready` never reach it.
- Queues.QueueTab.FindPlace: the key -2^31 is excluded for the same reason.
- Kernels.Kernel.Create: the stack, the name and the arguments are left out; whether the
  stack can be had is a parameter.
- Kernels.Kernel.KillNotify: closing descriptors, freeing the stack, the process count
  and the shutdown after the last process are left out.
- Kernels.Kernel.ClockTick: the counters of ticks and seconds are left out.
- Kernels.Kernel.Wait: a wait that makes the null process block is excluded, since the
  ready list may then be empty and `dequeue` return no process.
- Kernels.Kernel.ReceiveStart: the null process waiting for a message is excluded likewise.
- Kernels.Kernel.RecvTimeStart: the null process waiting for a message is excluded likewise.
- Kernels.Kernel.SleepMs: the null process going to sleep is excluded likewise. Keys are cut
  to 32 bits by the conversion and by the tick, but the difference of a successor's key
  and a negative one is not.
- Kernel: counts, keys and sequence numbers are unbounded integers; `chprio` is left
  out because it changes a priority without moving the process on the ready list.
- Kernel: interrupts are disabled during a call, so a call is atomic up to `resched`.
- HeapRuns.StartTiled: the size of the heap is taken to be a multiple of 8; `sysinit` uses
  `minheap` and `MAXADDR` as they are.
- HeapList.MemList.constructor: the size of the heap is taken to be a multiple of 8 likewise.
- HeapList.MemList.FreeMem: sizes that overflow `roundmb` and blocks that reach past the
  end of the address space are excluded.
- HeapList.MemList.GetMem: sizes that overflow `roundmb` are excluded. Headers are kept in
  a map beside the memory, so a program that writes into a free block is not modelled.
- HeapList.MemList.GetStk: sizes that overflow `roundmb` are excluded.
- Ports: an admitted party is not killed before it completes; a waiting one may be. The
  semaphores are first-in first-out counters, which is what `KernelOrder` proves of the
  kernel's; the disposal function of a reset is taken to return.
- Qsort.Qsexc: elements are moved as units, so the byte loop and the element size are not
  modelled.
- Qsort.Qstexc: elements are moved as units likewise.
- Remote disk and remote files, networking, the terminal driver, the shell, formatted
  input and output, buffer pools and machine-level code are not part of this model.
