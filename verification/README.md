# A FAT file system and a cooperative thread library, modelled and verified

This project models two parts of the repository and proves what they are for.

**The file system** (`P3/libfs/fs.c`) keeps a root directory of 128 entries, a FAT of 16-bit links, a table of 32 file
descriptors and data blocks on a block device. The class `FileSystem` has these tables as arrays and updates them in
place, operation by operation and loop by loop as the C functions do. Its specification is a map from names to byte
sequences with a table of (name, offset) handles and a number of free blocks. The main results:

* every run of create, delete, open, close, stat, lseek, write and read has exactly the outcomes and the final view of
  the specification's run (`FsRuns.Execute`); delete keeps to it exactly when no descriptor is open on the file;
* a write returns `min(count, (L + F) * 4096 - o)` for a chain of `L` blocks, `F` free blocks and offset `o`
  (`FsSpec.WriteExact`), can be read back (`FsSpec.WriteThenRead`), and two writes are one write of the joined data,
  however the full disk cuts them (`FsSpec.WriteTwice`); so for reads (`FsSpec.ReadExact`, `FsSpec.ReadTwice`), and
  for what open, close, create and delete do and undo (`FsSpec.OpenExact` and the lemmas beside it);
* every free entry, every chain and the reserved entry together make up the data blocks (`Volume.BlocksConserved`);
  all block numbers, sizes and offsets stay inside their C types (`Volume.MachineBounds`);
* a mount accepts exactly the right bytes (`FileSystem.FileSystem.Mount`) and finds on them the files that the FAT chains spell
  out (`VolumeImage.ImageFile`); unmounting and mounting again brings every file back (`FsRuns.Remount`), and mounting
  and unmounting leaves the disk as it was (`VolumeImage.NothingChanged`); good volumes of every size exist
  (`VolumeImage.FormattedGood`).

**The thread library** (`P2/libuthread`) has a linked-list queue, a FIFO scheduler and counting semaphores that hand a
unit directly to the oldest waiter. Queue, semaphores and scheduler are classes; whole runs of calls on the heap refine
a step system on values (`Library.Threads.Execute`), about which conservation of threads, round-robin order,
semaphore accounting, FIFO hand-off and the absence of barging are proved over all runs. Two programs on top are proved
correct for every order of their threads' actions:

* the sieve of `P2/apps/sem_prime.c`, for every limit of type `unsigned int`: the numbers printed are always the first
  primes in order, at the end all primes up to the limit, no run goes on for ever, and all threads finish if and only if
  the limit is not 4294967295 (`SieveRuns.SieveCorrect`). A run uses freed memory exactly if a channel is freed while
  its writer goes on with it (`SieveSafety.SafeExactly`); some cooperative run does if and only if the limit is
  4294967295 (`SieveRace.CooperativeUnsafe`); the run on the FIFO scheduler never does (`SieveFifo.ProgramSafe`), and
  `uthread_start` returns after it, with the idle thread alone alive below that limit (`SieveOnLibrary.StartReturns`);
* the bounded buffer of `P2/apps/sem_buffer.c`: items arrive in order and once, the size stays within 16, batches are as
  long as the random numbers say (`Buffer.ProducerBatches`), runs end, and
  for which limits the consumer takes everything or waits for ever (`Buffer.BufferCorrect`), also seen from
  `uthread_start` (`BufferOnLibrary.StartReturns`).

## Modules

| files | what they hold |
|---|---|
| `FsTypes`, `Wrappers` | constants, record types, C strings; `Option` |
| `FsSpec` | the specification: views, operations, runs, laws |
| `Fat`, `Directory` | chains and their owners over a FAT; a directory as a map |
| `Volume`, `VolumeSteps`, `VolumeWrite` | the tables as one value, its invariant and view, and what each change of a table does to them |
| `DiskFormat`, `VolumeImage` | packed blocks; what a mount reads and an unmount writes |
| `FileSystem`, `FsRuns` | the tables as arrays updated in place; whole runs |
| `Queue`, `QueueRuns` | the linked list; its whole runs |
| `Sched`, `Uthread` | scheduler and semaphores on values; the same as classes |
| `LibRuns`, `Library` | the step system of all library calls; its refinement on the heap |
| `Primes`, `Streams` | primes and sieving; what each channel carries, as C integers |
| `Sieve`, `SieveInvariant`, `SieveProgress`, `SieveRuns` | the sieve's threads, what every action keeps, why it ends, its runs |
| `SieveSafety`, `SieveRace` | use of freed memory, cooperative runs; one that uses it |
| `SieveOnLibrary`, `SieveFifo` | the run that the library makes of the sieve; why it uses no freed memory |
| `LargePrime` | the least prime above the largest `int` |
| `Buffer`, `BufferOnLibrary` | the bounded buffer; the run that the library makes of it |

## Assumptions

* The disk is an array of 4096-byte blocks with the bounds checks of `P3/libfs/disk.c`; reads and writes of the host
  succeed. Memory allocation succeeds.
* A mounted image is well formed where `fs_mount` does not look (`VolumeImage.WellFormed`): the FAT is long enough for the
  data blocks, entry 0 is in use, chains are good, names are unique.
* Every thread action of `Sieve` and `Buffer` that touches shared memory is atomic, and `sem_down` is atomic although
  the C code tests the count before it disables preemption. The library itself is modelled cooperatively: a switch
  happens in yield, exit and block only.
* The random batch sizes of the buffer are arbitrary numbers from 1 to 16.

## Where code and documentation differ

* `P3/libfs/fs.h:70-71` promises -1 for deleting an open file; `fs_delete` has no such test. The code is modelled:
  `FsSpec.DeleteMeetsHeader` says when it keeps the promise, `FsSpec.DeleteOpenFileExample` gives the calls after which
  it does not, `FileSystem.FileSystem.Delete` says that the volume stays good exactly if no descriptor is open on the
  file, and `FsRuns.DeleteOpenFile` spoils any good volume with room that way.
* `fs_mount` does not initialise the descriptor table; `Mount` leaves it arbitrary and `VolumeImage.MountGood` says
  when the result is good. `fs_umount` writes the metadata and gives the tables' memory back before it looks for open
  descriptors; so does `Umount`.
* `queue_delete` leaves `rear` behind when it unlinks the last of several nodes (`Queue.Queue.Delete`,
  `QueueRuns.StaleRear`). The list goes on to be right until an item is put behind the stale rear, which breaks it
  (`QueueRuns.Apply`). `queue_iterate` on an empty queue frees a pointer that was never set; `Queue.Queue.Iterate`
  reports when that happens.
* The sieve's end marker -1 is the unsigned number 4294967295. With that limit the source sends the marker twice
  (`Streams.ProducedEndsOnce`): all primes are printed, but the source never finishes. It waits for ever
  (`SieveRuns.WhenStuck`), and depending on the scheduler it has used the channel its reader has freed by then
  (`SieveRace.CooperativeUnsafe`). The comment at `P2/libuthread/uthread.c:98`, that the idle loop returns after all
  threads finish, does not hold there (`SieveOnLibrary.StartReturns`).
* Primes above 2147483647 are printed as negative numbers: the numbers printed are the primes exactly for the limits
  below 2147483659 (`SieveRuns.ShownExactly`).
* With a limit of 1 the buffer's consumer takes nothing, and with a limit of 0 it waits for ever
  (`Buffer.BufferCorrect`), so that `uthread_start` returns before it finishes (`BufferOnLibrary.StartReturns`).

## Model

| member | source | states |
|---|---|---|
| FsTypes.StrCpyReadsBack | P3/libfs/fs.c:360 | a name copied into an entry reads back, whatever bytes were there before |
| Fat.Conservation | P3/libfs/fs.c:308-322 | free entries, blocks in chains and the reserved entry add up to the number of data blocks |
| Fat.GrowOwned | P3/libfs/fs.c:524-549 | linking a free entry at the tail, or as first block, keeps every entry owned by exactly one chain position, and uses up one free entry |
| Fat.FreeOwned | P3/libfs/fs.c:389-402 | zeroing one chain keeps ownership of all other chains exact and frees as many entries as the chain had |
| Fat.ChainUnique | P3/libfs/fs.c:133-138 | a first block and the links determine the chain |
| FsSpec.StepKeepsValid | P3/libfs/fs.c:342-626 | every operation keeps files in exactly the blocks they need, offsets inside their files and free blocks nonnegative |
| FsSpec.WriteExact | P3/libfs/fs.c:507-576 | the count written, every byte of the new content, blocks taken from the free ones, all other files and descriptors unchanged |
| FsSpec.WriteBlocks | P3/libfs/fs.c:507-576 | after a write the file has just the blocks its bytes need; a write of no bytes gives an empty file one block if there is one |
| FsSpec.WriteThenRead | P3/libfs/fs.c:507-626 | after a write, seeking back and reading as many bytes returns the bytes written and the state after the write |
| FsSpec.WriteTwice | P3/libfs/fs.c:507-576 | two writes in a row equal one write of the joined data, in state and total count, also when the disk fills up |
| FsSpec.ReadExact | P3/libfs/fs.c:489-626 | a seek past the end is refused; after any other, a read returns what is asked for or what is left, delivers exactly those bytes, moves that offset only, and leaves files, sizes and free blocks alone |
| FsSpec.ReadTwice | P3/libfs/fs.c:578-626 | two reads in a row deliver what one read of the joint count delivers, also at the end of the file |
| FsSpec.CreateExact | P3/libfs/fs.c:342-375 | refused exactly for an empty name, one of 16 bytes or more, an existing one and in a full directory; else an empty file without blocks, all else unchanged, and a delete undoes it |
| FsSpec.DeleteExact | P3/libfs/fs.c:377-409 | refused exactly for names of no file; else one file goes and its blocks are free, all else unchanged; its name can be created again and not opened |
| FsSpec.OpenExact | P3/libfs/fs.c:427-459 | refused exactly for a bad or unknown name or a full table; else the first closed slot, from which that file is read from its first byte to its last; a close undoes it |
| FsSpec.OpenThenWrite | P3/libfs/fs.c:427-576 | a write after an open replaces that file from its first byte on, and no other file |
| FsSpec.CloseExact | P3/libfs/fs.c:461-505 | after a close read, write, seek, stat and a second close are refused, the slot is there for the next open, and all else is unchanged |
| FsSpec.ClosedRefused | P3/libfs/fs.c:103-113 | close, stat, read and write refuse a number if and only if it is not that of an open descriptor; seek refuses it too |
| FsSpec.Isolation | P3/libfs/fs.c:342-626 | over any run, a file that is not created, deleted or written keeps its bytes and blocks |
| FsSpec.DeleteMeetsHeader | P3/libfs/fs.h:64-73 | the promised return code is returned if and only if the file is not open |
| FsSpec.DeleteOpenFileExample | P3/libfs/fs.c:377-409 | in every valid state with room, creating and opening a file and then deleting it returns 0 where -1 is promised |
| Directory.CountNamesExactly | P3/libfs/fs.c:324-328 | used root entries are as many as there are names |
| Volume.FindNamed | P3/libfs/fs.c:180-198 | the scan finds a slot exactly for the names of existing files |
| Volume.AbsValid | P3/libfs/fs.c:17-61 | the tables of a good volume denote a valid view |
| Volume.LayoutUnique | P3/libfs/fs.c:133-138 | the stored tables determine the chains and the view |
| Volume.BlocksConserved | P3/libfs/fs.c:308-322 | free blocks plus all chain lengths plus one is the number of data blocks |
| Volume.MachineBounds | P3/libfs/fs.c:551-563 | chain blocks differ from the end marker and lie on the disk behind the metadata; sizes, offsets and byte counts are below 2^31 |
| VolumeSteps.CreatedSpec | P3/libfs/fs.c:356-372 | filling an empty slot is the specified create |
| VolumeSteps.DeletedEither | P3/libfs/fs.c:389-408 | freeing chain and slot keeps the volume good if and only if no descriptor is open on it, and is then the specified delete |
| VolumeSteps.DeletedOpenBroken | P3/libfs/fs.c:389-408 | with a descriptor open on the slot, no layout makes the tables consistent |
| VolumeSteps.AllocationView | P3/libfs/fs.c:523-549 | allocation adds one free block to the file and changes nothing else; it fails exactly when nothing is free |
| VolumeSteps.StoredContent | P3/libfs/fs.c:550-569 | storing bytes into the block of a chain splices them into the file's content at the offset |
| VolumeSteps.StoredView | P3/libfs/fs.c:550-569 | one block stored through a descriptor is that much progress of the specified write, with other files untouched |
| VolumeSteps.StoredTight | P3/libfs/fs.c:561-564 | after the store the file fills exactly the blocks it has again |
| VolumeSteps.OpenSlots | P3/libfs/fs.c:433-436 | the count is 32 exactly when no slot is closed, and the least closed slot of the table is the view's |
| VolumeWrite.WritingDone | P3/libfs/fs.c:538-575 | when the loop of a write ends, done or with the disk full, the view and the count are the specified ones |
| VolumeWrite.NextCursor | P3/libfs/fs.c:571-573 | after a block is filled to its end, the cursor is on the next chain element and the remembered entry is the one to link from |
| DiskFormat.SuperRoundTrip | P3/libfs/fs.c:17-25 | the packed super block decodes to what was encoded |
| DiskFormat.SuperBack | P3/libfs/fs.c:17-25 | a super block read and written back is the same block, padding included |
| DiskFormat.FatRoundTrip | P3/libfs/fs.c:27-29 | a packed FAT block decodes to its entries |
| DiskFormat.FatBack | P3/libfs/fs.c:27-29 | a FAT block read and written back is the same block |
| DiskFormat.RootRoundTrip | P3/libfs/fs.c:31-40 | the packed root directory decodes to its entries |
| DiskFormat.RootBack | P3/libfs/fs.c:31-40 | a root directory read and written back is the same block |
| VolumeImage.FatBytes | P3/libfs/fs.c:27-29 | on the bytes of the disk: entry k of the loaded FAT is the little-endian word at byte 2 (k mod 2048) of block 1 + k / 2048 |
| VolumeImage.RootBytes | P3/libfs/fs.c:31-40 | on the bytes of the disk: name, size and first block of root entry i stand at bytes 0, 16 and 20 behind 32 i in the block behind the FAT |
| VolumeImage.ImageFile | P3/libfs/fs.c:578-626 | on a well-formed disk a named root entry is a file of the size it says, whose bytes are those of the blocks met by following the FAT from its first block |
| VolumeImage.ImageNames | P3/libfs/fs.c:180-198 | and there are no other files |
| VolumeImage.NothingChanged | P3/libfs/fs.c:225-277 | an unmount right after a mount leaves the disk as it was, byte for byte |
| VolumeImage.SavedLoads | P3/libfs/fs.c:240-277 | what an unmount writes passes the checks of a mount and loads the same super block, FAT and root directory |
| VolumeImage.SavedContent | P3/libfs/fs.c:273-277 | writing the metadata leaves the bytes of every file alone |
| VolumeImage.MountAfterUmount | P3/libfs/fs.c:225-294 | after unmount and mount the volume is good and has the same files, bytes and free blocks |
| VolumeImage.MountGood | P3/libfs/fs.c:237-268 | mounting a well-formed disk is good exactly when the descriptor table found in memory is consistent |
| VolumeImage.SavedWellFormed | P3/libfs/fs.c:271-277 | a saved good volume is a well-formed disk |
| VolumeImage.FormattedGood | P3/libfs/fs.c:17-61 | formatted volumes of every admissible size are good and well-formed disks, with no files and all but one data block free |
| FileSystem.FileSystem.BlockRead | P3/libfs/disk.c:117-143 | reads the block, or refuses without a disk or out of bounds |
| FileSystem.FileSystem.BlockWrite | P3/libfs/disk.c:89-115 | writes that block only, or refuses without a disk or out of bounds |
| FileSystem.FatBlockFinder | P3/libfs/fs.c:74-81 | the loop computes the quotient by the entries per block |
| FileSystem.FileSystem.FdCheck | P3/libfs/fs.c:103-113 | accepts exactly the open descriptors |
| FileSystem.FileSystem.FindNextFat | P3/libfs/fs.c:200-223 | the least free entry among the data blocks; 0 if and only if none is free |
| FileSystem.FileSystem.FindDataIndex | P3/libfs/fs.c:126-142 | chain element offset / 4096, or the end marker at the end of the chain, never stepping past it |
| FileSystem.FileSystem.FindFatI | P3/libfs/fs.c:144-160 | the FAT block of the element before the one at the offset |
| FileSystem.FileSystem.FindFatIndex | P3/libfs/fs.c:162-178 | the position in its FAT block of the element before the one at the offset |
| FileSystem.FileSystem.FindRootIndex | P3/libfs/fs.c:180-198 | the first entry with that name, or 129 |
| FileSystem.FileSystem.Create | P3/libfs/fs.c:342-375 | the specified create: refused for bad or existing names and for a full directory |
| FileSystem.FileSystem.FreeChain | P3/libfs/fs.c:390-402 | zeroes exactly the entries of the chain, while walking it |
| FileSystem.FileSystem.Delete | P3/libfs/fs.c:377-409 | the specified return code; chain and name are erased in any case; the volume stays good, with the specified view, if and only if no descriptor is open on the file |
| FileSystem.FileSystem.Open | P3/libfs/fs.c:427-459 | the specified open (`FsSpec.OpenExact`): the least closed slot at offset 0, refused when all 32 are open |
| FileSystem.FileSystem.Close | P3/libfs/fs.c:461-476 | the specified close (`FsSpec.CloseExact`) |
| FileSystem.FileSystem.Stat | P3/libfs/fs.c:478-487 | the length of the file's content |
| FileSystem.FileSystem.Lseek | P3/libfs/fs.c:489-505 | the specified seek: refused past the end |
| FileSystem.FileSystem.AllocNext | P3/libfs/fs.c:539-549 | the first free entry, linked behind the tail that the walks have found; 0 when there is none |
| FileSystem.FileSystem.CopyIn | P3/libfs/fs.c:554-568 | lays the bytes over the block from the offset on, advances offset and size as far as block and count allow |
| FileSystem.FileSystem.WriteRound | P3/libfs/fs.c:538-574 | one round keeps the write in progress and the cursor in step, or finds the disk full |
| FileSystem.FileSystem.Write | P3/libfs/fs.c:507-576 | new view and result are the specified write, for any state, descriptor and count |
| FileSystem.FileSystem.CopyOut | P3/libfs/fs.c:608-617 | copies the wanted bytes of one block |
| FileSystem.FileSystem.ReadFrom | P3/libfs/fs.c:587-624 | although the chain cursor lags behind, the loop returns exactly min(count, size - offset) bytes of the content |
| FileSystem.FileSystem.Read | P3/libfs/fs.c:578-626 | new view, bytes and result are the specified read (`FsSpec.ReadExact`); the rest of the buffer is unchanged |
| FileSystem.FileSystem.Info | P3/libfs/fs.c:296-337 | -1 without a disk; otherwise the blocks of the disk, the free blocks of the view, which are data blocks minus one minus all chain lengths, and 128 minus the number of files |
| FileSystem.FileSystem.Mount | P3/libfs/fs.c:225-269 | succeeds exactly when a disk can be opened and the bytes of block 0 are the signature and five matching numbers, and then holds the decoded tables; with a disk already open it changes nothing |
| FileSystem.FileSystem.Umount | P3/libfs/fs.c:271-294 | writes the encoded tables to an open disk and gives their memory back in any case; succeeds exactly when no descriptor is open and a disk is |
| FsRuns.Apply | P3/libfs/fs.c:342-626 | one operation has exactly the specified effect and outcome |
| FsRuns.Execute | P3/libfs/fs.c:342-626 | a run of any operations has the outcomes and the final view of the specification's run |
| FsRuns.DeleteOpenFile | P3/libfs/fs.c:342-459 | on any good volume with room: create, open and delete all succeed and the volume is no longer good |
| FsRuns.Remount | P3/libfs/fs.c:225-294 | unmount and mount succeed and restore all tables; with a cleared descriptor table all files, bytes and free blocks are back, and without clearing exactly if the table found in memory is consistent |
| Queue.Queue.constructor | P2/libuthread/queue.c:21-37 | an empty queue |
| Queue.Queue.Length | P2/libuthread/queue.c:156-165 | the length of the sequence, whatever the rear pointer |
| Queue.Queue.Enqueue | P2/libuthread/queue.c:51-76 | appends to the sequence, refuses NULL; behind a stale rear the item is lost to the list but counted |
| Queue.Queue.Dequeue | P2/libuthread/queue.c:78-90 | takes the first element, refuses on an empty queue, whatever the rear pointer; taking the last one makes a stale rear harmless |
| Queue.Queue.Delete | P2/libuthread/queue.c:92-127 | removes exactly the first match; the rear pointer is right afterwards if and only if the removed node was not the last of several |
| Queue.Queue.Iterate | P2/libuthread/queue.c:129-154 | the callback sees the original items in order, also when it deletes the current one |
| Queue.RemoveFirstAt | P2/libuthread/queue.c:99-125 | removing the first match is cutting out its position |
| Queue.DistinctKept | P2/libuthread/queue.c:138-148 | of distinct items, exactly those whose callback did not delete them remain, in order |
| QueueRuns.Apply | P2/libuthread/queue.c:51-165 | one operation is that of the sequence, and the list is sound afterwards, if and only if it does not put an item behind a stale rear |
| QueueRuns.Execute | P2/libuthread/queue.c:51-165 | runs of enqueue, dequeue, delete and length are runs of the sequence, as long as no item is put behind a stale rear |
| QueueRuns.StaleRear | P2/libuthread/queue.c:118-125 | two items in and the second one deleted: the list is right, the rear pointer is not |
| QueueRuns.StaleRun | P2/libuthread/queue.c:51-127 | after deleting the last of two items, enqueueing is safe if the first one has been dequeued, and not if it has not |
| Uthread.Semaphore.Destroy | P2/libuthread/sem.c:32-41 | refused exactly while threads wait |
| Uthread.Scheduler.constructor | P2/libuthread/uthread.c:83-94 | the parent is current and also queued, then the first thread |
| Uthread.Scheduler.Create | P2/libuthread/uthread.c:67-81 | the new thread joins the ready queue at the end |
| Uthread.Scheduler.Unblock | P2/libuthread/uthread.c:126-134 | the thread joins the ready queue at the end |
| Uthread.Scheduler.Block | P2/libuthread/uthread.c:111-124 | the head of the ready queue becomes current |
| Uthread.Scheduler.Yield | P2/libuthread/uthread.c:34-49 | the current thread goes to the end before the head is taken |
| Uthread.Scheduler.SemDown | P2/libuthread/sem.c:43-66 | takes a unit, or joins the waiters and gives way |
| Uthread.Scheduler.SemUp | P2/libuthread/sem.c:68-90 | adds a unit, or hands it to the oldest waiter, who becomes ready |
| LibRuns.StepGood | P2/libuthread/uthread.c:34-134 | every call keeps the census: each live thread in one place, the idle thread in two, exited ones nowhere; semaphores sound |
| LibRuns.RunGood | P2/libuthread/uthread.c:34-134 | the census holds in every reachable state |
| LibRuns.ReadyNotEmpty | P2/libuthread/uthread.c:61-63 | the dequeue in exit and block always finds a thread |
| LibRuns.WhereIs | P2/libuthread/uthread.c:83-134 | a live thread is in exactly one place, an exited one nowhere, the idle thread with the scheduler twice |
| LibRuns.WaitsOnce | P2/libuthread/sem.c:51-57 | a thread that waits on a semaphore waits there once and is nowhere else |
| LibRuns.ReturnMeansDone | P2/libuthread/uthread.c:98-103 | when the idle loop ends, every thread left waits on a semaphore; if none waits, all have exited |
| LibRuns.MovesUp | P2/libuthread/uthread.c:34-49 | each switch moves a queued thread one place forward, whatever happens in between |
| LibRuns.RoundRobin | P2/libuthread/uthread.c:34-49 | the thread at position i is dispatched by the (i+1)-th switch from now |
| LibRuns.RunBalanced | P2/libuthread/sem.c:43-90 | over any run, units in equal units out and threads leave a wait queue in the order they joined it |
| LibRuns.FifoHandOff | P2/libuthread/sem.c:43-90 | from the start, the threads woken are the first that blocked; the count is nonnegative, and zero while somebody waits |
| LibRuns.NewSemaphore | P2/libuthread/sem.c:16-30 | a semaphore made in a run starts with its units and keeps the same account and order from there on |
| LibRuns.NoBarging | P2/libuthread/sem.c:51-87 | over any run after a release that wakes a thread, and whoever asks, no more units are taken or handed over than are released anew |
| Library.Threads.constructor | P2/libuthread/uthread.c:83-94 | the initial state of the step system, with the semaphores made before the start and their units |
| Library.Threads.OthersReady | P2/libuthread/uthread.c:99 | the test of the idle loop |
| Library.Threads.Perform | P2/libuthread/uthread.c:34-134 | one call on the heap, among any number of semaphores, is one step |
| Library.Threads.Execute | P2/libuthread/uthread.c:34-134 | a run of calls on the heap is the run of the step system |
| Primes.PrimesUpToMeaning | P2/apps/sem_prime.c:4-8 | the reference list holds exactly the primes up to a bound, ascending |
| Primes.SiftSurvivors | P2/apps/sem_prime.c:64 | filtering what survived some primes by one more gives what survives them all |
| Primes.NextPrime | P2/apps/sem_prime.c:97-118 | the least survivor of the first primes is the next prime; after the last one nothing survives |
| LargePrime.PIsPrime | P2/apps/sem_prime.c:104 | 2147483659 is prime |
| LargePrime.NothingBetween | P2/apps/sem_prime.c:104 | no number from 2147483648 to 2147483658 is |
| Streams.EndMarkerClash | P2/apps/sem_prime.c:42-49 | a number stored in an int converts back, and reads as the end marker only if it is 2^32 - 1 |
| Streams.ProducedEndsOnce | P2/apps/sem_prime.c:42-51 | what the source sends ends with the marker, and carries it once, if and only if the limit is not 4294967295 |
| Streams.PassGrows | P2/apps/sem_prime.c:60-68 | one more value read adds itself, or nothing, to what a filter has passed on |
| Streams.OffersAndTakes | P2/apps/sem_prime.c:42-71 | what readers take of a channel is what its writer stores, up to its first marker; all of it, but for the second marker of the largest limit; and the next channel filters it |
| Streams.HeadsArePrimes | P2/apps/sem_prime.c:94-118 | for every limit, what is taken from channel c begins with the c-th prime, and after the last prime is only the marker |
| SieveInvariant.InitInv | P2/apps/sem_prime.c:86-92 | the invariant holds once the sink has made channel and source |
| SieveInvariant.SyncTake | P2/apps/sem_prime.c:61 | waiting for a value keeps the single token of the rendezvous |
| SieveInvariant.SyncAck | P2/apps/sem_prime.c:63 | an acknowledgement passes the token on and wakes exactly a waiting writer |
| SieveInvariant.SyncOffer | P2/apps/sem_prime.c:66 | an offer makes the token and wakes exactly a waiting reader |
| SieveInvariant.SyncConfirm | P2/apps/sem_prime.c:67 | a confirmation uses the token up, or waits for it |
| SieveInvariant.PutValue | P2/apps/sem_prime.c:42-65 | the value stored is the next one of the channel's content, for the source and every filter |
| SieveInvariant.StepInv | P2/apps/sem_prime.c:37-127 | every action of every thread keeps rendezvous, contents, filter progress, hand-over to new filters and what is printed |
| SieveProgress.StepShrinks | P2/apps/sem_prime.c:37-127 | every action lowers a measure over undelivered values, live filters and filters still to be made |
| SieveRuns.PrintsPrimes | P2/apps/sem_prime.c:104 | the numbers printed are the first primes in order |
| SieveRuns.PrintsAllPrimes | P2/apps/sem_prime.c:101-102 | once the sink has seen the marker, all primes up to the limit are printed |
| SieveRuns.ShownAsTheyAre | P2/apps/sem_prime.c:104 | the numbers shown are the primes themselves if and only if none exceeds the largest int |
| SieveRuns.ShownExactly | P2/apps/sem_prime.c:104 | the numbers shown are the primes if and only if the limit is below 2147483659; from there on a negative number is shown |
| SieveRuns.WhenStuck | P2/apps/sem_prime.c:37-127 | when nothing can act, all threads have finished; at the largest limit all but the source, which waits for its reader |
| SieveRuns.NoDeadlock | P2/apps/sem_prime.c:37-127 | a state in which nothing can act is a finished one if and only if the limit is not 4294967295 |
| SieveRuns.AllFreed | P2/apps/sem_prime.c:73-125 | when nothing can act, there is one channel more than numbers printed, and all channels are freed |
| SieveRuns.FreedOnce | P2/apps/sem_prime.c:73-125 | no channel is freed a second time |
| SieveRuns.RunInv | P2/apps/sem_prime.c:37-127 | invariant and bound on the number of actions over every run |
| SieveRuns.SieveCorrect | P2/apps/sem_prime.c:37-127 | for every unsigned limit and any order of actions: first primes at all times, a bounded run, at its end all primes printed, all channels freed, and all threads finished if and only if the limit is not 4294967295 |
| SieveSafety.GoneReader | P2/apps/sem_prime.c:54-77 | once a filter's reader has finished, the filter is at its last confirmation or behind it |
| SieveSafety.FreedExactly | P2/apps/sem_prime.c:73-76 | an action uses a freed channel if and only if it is its writer's and the reader has finished; then, but for the source at the largest limit, it is a confirmation |
| SieveSafety.UnsafeExactly | P2/apps/sem_prime.c:37-127 | from any settled state, a run that ends uses freed memory if and only if it frees a channel while the writer goes on with it |
| SieveSafety.UsedAtClose | P2/apps/sem_prime.c:73-76 | when a channel is freed, its writer goes on with it if and only if it is at its confirmation; or it is the source with its second marker |
| SieveSafety.SafeExactly | P2/apps/sem_prime.c:37-127 | for every limit and every interleaving that ends: freed memory is used if and only if a channel is freed while its writer goes on; below the largest limit, while its writer is between offer and confirmation |
| SieveSafety.NobodyWaitsAtClose | P2/apps/sem_prime.c:73-76 | destroyed semaphores have no waiters, but that of a writer that waits, which only the source at the largest limit can |
| SieveSafety.NoUseAfterFree | P2/apps/sem_prime.c:73-76 | under cooperative scheduling only the source can use a freed channel, at the largest limit, with its second marker |
| SieveSafety.CooperativeSafe | P2/apps/sem_prime.c:37-127 | over all cooperative runs: no freed channel is used, a confirmation always blocks, destroyed semaphores have no waiters; the source at the largest limit excepted |
| SieveSafety.PreemptionIsUnsafe | P2/apps/sem_prime.c:50-51 | an interleaved run in which the source is about to use its freed channel |
| SieveRace.Race | P2/apps/sem_prime.c:42-51 | at the largest limit, the schedule that lets the source go last leads to the use of its freed channel |
| SieveRace.CooperativeUnsafe | P2/apps/sem_prime.c:37-127 | some cooperative run uses freed memory if and only if the limit is 4294967295 |
| SieveOnLibrary.ActionHosts | P2/apps/sem_prime.c:37-127 | an action of the current thread and its library calls lead from matching states to matching states, and keep to cooperative scheduling |
| SieveOnLibrary.Finish | P2/libuthread/uthread.c:98-108 | when the idle thread leaves its loop, no thread of the sieve can act, and besides the idle thread at most the source is alive, which it is exactly at the largest limit |
| SieveOnLibrary.PlayEnds | P2/libuthread/uthread.c:34-134 | the run that the FIFO scheduler makes of the sieve is possible and cooperative, and ends with the return of the idle loop |
| SieveOnLibrary.StartReturns | P2/apps/sem_prime.c:140-148 | for every limit `uthread_start` returns after all primes are printed; all threads have finished, and only the idle thread is alive, if and only if the limit is not 4294967295 |
| SieveFifo.ActionQueued | P2/libuthread/uthread.c:34-134 | while the source has its second marker to send, the FIFO queue lets it run before its reader can close the channel |
| SieveFifo.ProgramSafe | P2/apps/sem_prime.c:140-148 | for every limit, the run on the FIFO scheduler uses no freed memory |
| Buffer.ProduceInv | P2/apps/sem_buffer.c:61-76 | every action of the producer keeps the contents of the slots, the units of the semaphores, the size and the batches |
| Buffer.ConsumeInv | P2/apps/sem_buffer.c:36-51 | every action of the consumer keeps the same, including the wrap-around of its unsigned subtractions |
| Buffer.WhenStuck | P2/apps/sem_buffer.c:31-77 | if neither can act the producer has finished, and so has the consumer if the limit is at least 1; with limit 0 it waits on `empty` |
| Buffer.NoOverwrite | P2/apps/sem_buffer.c:69-70 | a slot about to be filled holds nothing still to be taken, a slot about to be emptied holds the next number |
| Buffer.WaitsExactly | P2/apps/sem_buffer.c:43-74 | the producer blocks exactly if sixteen items are put and their slots not given back, the consumer exactly if all that is signalled is taken |
| Buffer.MutualExclusion | P2/apps/sem_buffer.c:71-73 | producer and consumer are never both inside the mutex |
| Buffer.RunInv | P2/apps/sem_buffer.c:31-77 | invariant and bound on the number of actions over every run |
| Buffer.ProducerBatches | P2/apps/sem_buffer.c:61-65 | over any run between two choices, the producer puts as many items as the random numbers chosen add up to, or all that are left |
| Buffer.ConsumerBatches | P2/apps/sem_buffer.c:36-41 | so does the consumer, but its first batch leaves the last item, and with a limit below 2 it takes none |
| Buffer.BufferCorrect | P2/apps/sem_buffer.c:31-77 | for every limit, batches and order: numbers taken in order, size within 16, bounded runs; all taken if and only if the limit is not 1, nobody waiting if and only if it is not 0 |
| BufferOnLibrary.ActionHosts | P2/apps/sem_buffer.c:31-77 | an action of the current thread and its library call lead from matching states to matching states |
| BufferOnLibrary.PlayEnds | P2/libuthread/uthread.c:34-134 | the run that the FIFO scheduler makes of producer and consumer ends with the return of the idle loop |
| BufferOnLibrary.StartReturns | P2/apps/sem_buffer.c:104-115 | for every limit and all batch sizes `uthread_start` returns; all numbers are taken if and only if the limit is not 1; only the idle thread is alive, and all semaphores can be destroyed, if and only if it is not 0 |

## Left out

- FileSystem.FileSystem.Delete: after deleting an open file it gives all tables and the return code, but later operations through the stale descriptor are not followed; `FsSpec.Allowed` keeps such deletes out of `FsSpec.StepKeepsValid`, `FsRuns.Apply` and `FsRuns.Execute`, since no layout makes the tables consistent then (`VolumeSteps.DeletedOpenBroken`).
- FsRuns.Remount: without clearing, says nothing about operations when the uninitialised descriptor table of the new mount happens to be inconsistent.
- Threads of `sem_prime.c` and `sem_buffer.c` are step functions on values, not methods with loops, since their loops interleave; which C statements form one action is said by the comments on `Pc`.
- `P3/libfs/disk.c`: opening, closing and the system calls; the message output of failures.
- `fs_info` and `fs_ls`: the printed text; the counts of `fs_info` are modelled.
- NULL arguments, filenames without a terminator, and counts beyond the buffer passed in.
- `malloc` failures, leaks, stacks, and the zombie queue, which stores a stack address; exited threads are a set.
- `P2/libuthread/preempt.c` and `context.c`: a switch is an assignment to the current thread. With preemption the library's own atomicity would have to be proved, and `sem_down` does not have it.
- The overflow of a semaphore's `int` count after 2^31 releases.
- `P1/sshell.c`, the test programs and the demos `sem_simple.c`, `sem_count.c`, `uthread_hello.c`, `uthread_yield.c`, `test_preempt.c`: plumbing, or simpler instances of what is proved.
- The parsing of command line arguments in both programs.
