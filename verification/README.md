# xv6 in Dafny

A model of the hard parts of xv6 for RISC-V, with proofs. `dafny verify
dfyconfig.toml` checks the whole project. Code that updates things in place is a
class with methods and loops; each method is proved against a specification that
is stated on values, and the properties are proved about those values. Code that
runs on several CPUs at once is a state machine, and its theorems range over
every run. Sizes such as NBUF, LOGSIZE, the number of processes, of CPUs, of disk
blocks and of queue entries are symbolic.

## What is modelled

**The log and the buffer cache** (`DiskLog`, `LogProtocol`, `BufferCache`, `Log`).
A disk is a sequence of blocks. `DiskLog` gives the disk after each single block
write of a commit and of a recovery, and says what a later recovery makes of it.
`LogProtocol` is the protocol: any number of operations, interleaved
`log_write()`s, group commit, buffers loaded and evicted at will, and crashes
between any two block writes, also inside recovery, any number of times. Its main
theorem is crash atomicity over every run. `BufferCache` is the doubly linked LRU
ring with its reference counts, `Log` the code on top of it. The traces of its
copying loops are the disks that `DiskLog` speaks about, and `begin_op()`,
`log_write()`, `end_op()` and recovery are proved to be steps of the protocol, so
that what holds of its runs holds of the code.

**The file system** (`FsCodec`, `FsOwnership`, `FsContent`, `FsLayout`, `FsWrite`,
`FsTrunc`, `FileSystem`). Blocks are bytes; the free map, the inodes and the indirect blocks
are decoded from them. The invariant says that a bit of the free map is set
exactly when the block is metadata or one slot of one inode refers to it. On top
of that a file is a sequence of bytes, and `filewrite()` stays within its share of
the log.

**Memory** (`VmState`, `VmTree`, `VmSpace`, `VmFree`, `PageTables`, `ProcSpaces`,
`ExecImage`, `ProcMemory`). Pages are arrays of 64-bit words; page tables and the free list are
stored in them. A tree of three levels is shown to be a flat map from virtual
pages to entries, and each physical page is free once or owned once over every
sequence of fork, growproc, exec and reaping, with `kalloc()` failing whenever the
free list is empty.

**Processes** (`SleepWakeup`, `Wakeups`, `KernelRuns`, `KernelAnswers`,
`KernelCalls`). Any number of CPUs run any
number of processes through `sleep()`, `wakeup()`, sleep-locks, `fork()`,
`exit()`, `wait()`, `kill()`, `yield()` and the scheduler. `sleep()` is split at
each lock operation, and `wakeup()` visits one process per step. `KernelAnswers` tells
what single steps leave behind, `KernelCalls` what a call has done when it returns.

**The user allocator** (`MallocState`, `Malloc`), **the virtio queue**
(`VirtioState`, `Virtio`), **the shell's parser** (`ShellGrammar`, `ShellPrint`,
`ShellForms`, `Shell`), **grep's matcher** (`Grep`), **the random numbers** (`Random`) and **the
pipe** (`Pipe`). `Basics` holds what several modules share.

## Hypotheses

- There is one disk. A block write is atomic, and writes reach the disk in the
  order in which they are issued. Home blocks lie outside the log area.
- Buffers start zeroed (kernel/bio.c:26-34), so all of them first claim block 0 of
  device 0; that no two buffers hold one block is said of device ROOTDEV only.
- A failed `either_copyin()` (kernel/fs.c:522) leaves the buffer as it was.
- Hole-free inodes are a hypothesis of the write budget and of "`readi()` does not
  allocate", and `writei()` and `itrunc()` keep it. An image made by mkfs/mkfs.c
  starts hole-free only if the last block of the root directory, whose size is
  rounded up (mkfs/mkfs.c:164-168), is there.
- There are fewer managed physical pages than user virtual pages below the
  trapframe (kernel/memlayout.h:47-48 gives 32768 against 2^26). Without it
  `uvmalloc()` could map over the trapframe and panic.
- A kernel panic that callers must rule out is a precondition ("walk", "remap",
  "uvmunmap: not mapped"), and the callers that are modelled are proved to meet it.
  "freeing free block" and "freewalk: leaf" are proved unreachable. Panics that can
  be reached are results: "bget: no buffers", "too big a transaction".
- `exit()` is reached holding no sleep-lock. A section that takes and drops one
  p->lock, and touches nothing else that is shared, is one step. A process gives up
  its CPU in user code or where it sleeps or exits; preemption in the middle of
  kernel code (kernel/trap.c:153-155) is not a step of its own. Memory is
  sequentially consistent.
- The break of a process starts at a multiple of the header size, above `base`. A
  program that moves it by itself moves it up.
- The disk device may take its time and complete requests in any order, but it
  acts between the sections that hold vdisk_lock, writes to the used ring only heads
  it has taken, once, with status 0, and the queue size divides 2^16.

## What turned out not to hold

- `log_write()` panics on a full log before it looks whether the block is already
  in it (kernel/log.c:220-228). Writing again a block that is already logged is safe
  if and only if the operation still has budget, although it would use none:
  `LogProtocol.AbsorbedSafeIff`. New blocks within budget never panic if and only if
  nlog > LOGSIZE: `LogProtocol.NewWritesSafeIff`. mkfs/mkfs.c:25 makes nlog equal to
  LOGSIZE, one block short.
- `morecore()` passes a number of bytes to `sbrk(int)`, which truncates it. The heap
  stays below the break, and accounted for, if and only if no growth was needed, or
  `sbrk()` failed, or the request is at most 2^31 - 32 bytes
  (`Malloc.Allocator.Malloc`). A request of 2^32 - 1 bytes moves the break by 16
  (`Malloc.HugeRequest`), and after two of them a process holds two blocks that
  overlap (`Malloc.TwoHugeRequests`).
- `piperead()` takes a byte out of the ring before `copyout()` can fail
  (kernel/pipe.c:123-125). A byte is lost if and only if the fault lies before the
  end of what would have been read (`Pipe.Ring.Read`); `Pipe.LoseByte` loses one.
- `pipewrite()` returns -1 although bytes have gone in exactly under the condition
  of `Pipe.FailsAfterSome`; `Pipe.WriteThenClose` is such a write.
- `uvmalloc()` returns 0 when the new size is 0, which `exec()` takes for failure. A
  header that passes all tests is refused exactly if it and all before it end at
  address 0 (`ExecImage.RefusedIff`, `ExecImage.EmptySegmentRefused`).
- `loadseg()` gets the file size cut to 32 bits, but it does not matter: whatever is
  loaded with less than 4 GB of memory is below that (`ExecImage.NotCut`,
  `ProcMemory.Procs.Exec`).

## Model

| member | source | states |
|---|---|---|
| DiskLog.HeadRoundTrip | kernel/log.c:86-114 | Writing a block list into the header and reading it back gives the same list, on a disk whose log is well formed again. |
| DiskLog.RecoveredAt | kernel/log.c:68-83 | After recovery every home block holds the last log slot that names it, or what it held before if none does. |
| DiskLog.RecoveredIsClean | kernel/log.c:116-123 | Recovery empties the log, and a second recovery changes no home block. |
| DiskLog.RecoverCrash | kernel/log.c:116-123 | From the disk after any number of block writes of a recovery, a new recovery ends in the same home blocks as the uninterrupted one. |
| DiskLog.CommitPoint | kernel/log.c:99-114 | The header write is the commit: recovery from the disk right after it installs the whole transaction. |
| DiskLog.CommitCrash | kernel/log.c:193-203 | From the disk after any number of block writes of a commit, recovery gives all of the old home blocks or all of the new ones; all old exactly up to the header write. |
| DiskLog.CommitFinal | kernel/log.c:193-203 | An uninterrupted commit leaves an empty log and the new contents at home. |
| DiskLog.CommitHomeAt | kernel/log.c:178-203 | Each home block during a commit: the last installed copy for the part of the list already installed, the old contents otherwise. |
| LogProtocol.StepInv | kernel/log.c:68-235 | Every event (begin, log_write, end, one block write of a commit or recovery, load, evict, crash) keeps the invariant that joins cache, log, disk and the history of writes. |
| LogProtocol.NeverStuck | kernel/log.c:68-235 | The invariant excludes a step that the guard allows and the code could not make. |
| LogProtocol.RunInv | kernel/log.c:68-235 | The invariant holds in every state of every run. |
| LogProtocol.CrashAtomicity | kernel/log.c:68-203 | At every moment of every run, recovery from the disk as it is gives the first `cut` writes of the history and no others, and no operation, finished or active, has writes on both sides of the cut. |
| LogProtocol.DurableForever | kernel/log.c:144-203 | What a crash would keep now, a crash at any later moment keeps too, over any number of crashes in between. |
| LogProtocol.CommittedForever | kernel/log.c:144-203 | When a commit is done every write of every ended operation is at home on disk, and every later state, after any crashes, keeps it. |
| LogProtocol.WriteLands | kernel/log.c:205-235 | In every run a log_write() puts its contents where the next read of the block finds them, adds itself to the history, and changes no other block and nothing on disk. |
| LogProtocol.HistoryIs | kernel/log.c:68-203 | Nothing else adds to the history; a crash takes from it exactly what lies behind the cut, with everything in memory; the cut moves at the header write of a commit and at no other time. |
| LogProtocol.OperationsAre | kernel/log.c:125-175 | begin_op() adds an operation that has no writes yet, end_op() takes away one and leaves the others; a commit starts exactly when the last one ends. |
| LogProtocol.CommitLeads | kernel/log.c:144-203 | The last end_op() and the commit it starts can always run to the end, and lead to a state with an empty log and the pending contents installed. |
| LogProtocol.LeadsReach | kernel/log.c:144-203 | Ending operations and committing never leads out of the states reachable within budget. |
| LogProtocol.RepeatedCrash | kernel/log.c:54-65 | After a crash and any number of further crashes inside recovery, the home blocks are those of the writes committed before the first crash. |
| LogProtocol.ReplayAt | kernel/log.c:205-235 | The reference reading of a history of writes: a block holds the data of the last write to it. |
| LogProtocol.Transparent | kernel/bio.c:58-103 | In every state outside recovery, reading a block gives the last contents logged for it by a write not lost in a crash; a block not pinned reads as on disk; a pinned block is in the cache. |
| LogProtocol.HomeWritesAreCommitted | kernel/log.c:68-83 | A home block changes on disk only in recovery, or in a commit after its header write, and then only if it is in the header. |
| LogProtocol.Reservation | kernel/log.c:125-142 | Over every run in which operations stay within MAXOPBLOCKS new blocks, the blocks in the log plus the unused budgets of the active operations never exceed LOGSIZE. |
| LogProtocol.ReservationPreventsPanic | kernel/log.c:125-142 | With nlog > LOGSIZE, an operation with budget left that logs a new block does not panic. |
| LogProtocol.NewWritesSafeIff | kernel/log.c:220-221 | New blocks within budget are safe if and only if nlog > LOGSIZE; the converse builds the run that panics. |
| LogProtocol.AbsorbedSafeIff | kernel/log.c:220-228 | Over all runs within budget, writing a block that is already in the log is safe for an operation that has used u blocks if and only if u < MAXOPBLOCKS; the converse builds the run that panics. |
| LogProtocol.PanicMeansSpent | kernel/log.c:220-221 | With nlog > LOGSIZE the panic is reached within budget only when every active operation has spent all of its budget and the log is full. |
| BufferCache.Cache.constructor | kernel/bio.c:36-53 | binit() links all buffers into one ring; every block reads as on disk. |
| BufferCache.Cache.FindCached | kernel/bio.c:65-74 | The walk along `next` finds the buffer of the block if any buffer holds it, and says so if none does. |
| BufferCache.Cache.FindUnused | kernel/bio.c:76-88 | The walk along `prev` finds the least recently released buffer that nobody references; none is found only if all are referenced. |
| BufferCache.Cache.Bget | kernel/bio.c:58-89 | A hit adds one reference and changes nothing else; a miss recycles only an unreferenced buffer; "no buffers" exactly when there is neither; no two buffers come to hold one block. |
| BufferCache.Cache.Bread | kernel/bio.c:91-103 | Returns a valid buffer with the current contents of the block; no buffer that is referenced is changed; a referenced block never fails. |
| BufferCache.Cache.Bwrite | kernel/bio.c:105-112 | Puts this buffer's contents on disk as one write; nothing else on the disk and no other reader's view changes. |
| BufferCache.Cache.Brelse | kernel/bio.c:114-137 | Drops one reference; the last one moves the buffer to the front of the ring and keeps the order of all others. It may go only if the disk has its contents. |
| BufferCache.Cache.MakeMostRecent | kernel/bio.c:127-134 | The six pointer assignments leave one ring of all buffers, with the one moved at its front and the others in their old order. |
| BufferCache.Cache.Bpin | kernel/bio.c:139-144 | A pin counts as one more reference of that block, which keeps bget() from recycling it. |
| BufferCache.Cache.Bunpin | kernel/bio.c:146-151 | Takes back one reference and keeps the cache consistent. |
| Log.Log.constructor | kernel/log.c:54-65 | The zeroed log over a clean cache satisfies the invariant. |
| Log.Log.FillHeader | kernel/log.c:106-111 | The loop writes exactly the header block that decodes to the in-memory list. |
| Log.Log.WriteHead | kernel/log.c:99-114 | One block write, after which the on-disk list is the in-memory one; fails only if every buffer is in use. |
| Log.Log.WriteLog | kernel/log.c:177-191 | The disk goes through exactly the images that DiskLog analyses, slot by slot, with the cached contents of the logged blocks; home blocks keep their pins. |
| Log.Log.InstallTrans | kernel/log.c:68-83 | The disk goes through exactly the install images; each home block is unpinned once its contents are on disk, and in recovery nothing is unpinned. |
| Log.Log.ReadHead | kernel/log.c:85-97 | The in-memory list becomes the on-disk one; nothing is written. |
| Log.Log.RecoverFromLog | kernel/log.c:116-123 | Ends with the recovered disk and an empty log, in the initial state of the protocol, through disks each of which RecoverTraceSafe covers; succeeds whenever two buffers are free. |
| Log.Log.Commit | kernel/log.c:193-203 | Passes through the commit images only, also when it stops early, and ends with the last one; never runs out of buffers while fewer blocks are referenced than there are buffers. |
| Log.Log.BeginOp | kernel/log.c:125-142 | Implements the protocol: from a log in state s it admits an operation exactly when the event is enabled in s, which is when there is no commit and MAXOPBLOCKS blocks for each operation, this one too, still fit, and is then in the state the event leads to; reachable within budget stays so, so Reservation holds of this code. |
| Log.Log.EndOp | kernel/log.c:144-175 | Implements the protocol: the End event, and for the last operation the whole commit after it; every disk on the way is a commit image, also when it stops early; it needs only a spare buffer. |
| Log.Log.LogWrite | kernel/log.c:205-235 | Succeeds exactly under the code's test; absorbs a block already listed, else lists and pins it once. |
| Log.Log.Modify | kernel/log.c:205-235 | A store and its log_write() are one event of the protocol: the block reads as the new contents, every other as before, and the disk stays. They panic exactly in its panicking states; for an operation within budget, with nlog > LOGSIZE, in a state reachable within budget, they do not. |
| Log.BlockLogged | kernel/log.c:205-235 | A store into a buffer followed by log_write() keeps the transaction invariant: each listed block is pinned and all other blocks read as on disk. |
| Log.CommitTraceAtomic | kernel/log.c:193-203 | Every disk in the trace of Commit recovers to the old home blocks or to all the new ones. |
| Log.RecoverTraceSafe | kernel/log.c:116-123 | Every disk in the trace of RecoverFromLog recovers to the same home blocks. |
| FsCodec.BitFlipped | kernel/fs.c:74-78 | Setting or clearing a bit of the free map through byte and mask changes that bit and no other. |
| FsCodec.WordPut | kernel/fs.c:407-414 | A 32-bit word reads back as written and the other words of the block stay. |
| FsCodec.DinodePut | kernel/fs.c:225-241 | An inode written into its place in a block reads back, and the other inodes of the block stay. |
| FsCodec.DinodeLayout | kernel/fs.h:32-39 | Which bytes of a block are the type, numbers, link count, size and addresses of its inodes. |
| FsOwnership.OwnershipTheorem | kernel/fs.c:61-105 | In every state between operations: a bit of the free map is set exactly when the block is metadata or some slot refers to it, and no two slots refer to one block. |
| FsLayout.MapBit | kernel/fs.c:61-78 | In bytes: bit b % 8 of byte b % 8192 / 8 of block bmapstart + b / 8192 is set exactly when b is metadata or some inode or indirect block refers to it. |
| FsLayout.InodeBytes | kernel/fs.c:225-241 | In bytes: inode i is at 64 * (i % 16) in block inodestart + i / 16, field by field. |
| FsLayout.FileByte | kernel/fs.c:382-421 | Byte o of a file is byte o % 1024 of the block named by address o / 1024 of the inode, or by entry o / 1024 - 12 of its indirect block; 0 if there is none. |
| FsOwnership.Allocated | kernel/fs.c:65-88 | A block taken by balloc() belonged to nobody, and marking and zeroing it touches no owned block. |
| FsOwnership.AddrAssigned | kernel/fs.c:388-406 | Storing a new block in an empty address gives it that one owner; a new indirect block, being zero, exposes no entries. |
| FsOwnership.EntryAssigned | kernel/fs.c:407-417 | The same for an entry of the indirect block. |
| FsOwnership.Freed | kernel/fs.c:90-105 | A block that a slot refers to is marked in use, so bfree() cannot find it free; after it no slot but that one refers to it. |
| FsOwnership.PointerCleared | kernel/fs.c:439-449 | Clearing the indirect pointer after its entries' blocks and its own block are freed removes exactly the indirect slots of that inode. |
| FsContent.FillGivesBytes | kernel/fs.c:382-421 | Giving an empty slot a zeroed block changes no byte of any file. |
| FsWrite.WriteStep | kernel/fs.c:516-528 | One turn of writei() adds the next bytes of the source, in the right place of the right block, and keeps the ownership invariant. |
| FsWrite.ContentWritten | kernel/fs.c:505-539 | After tot bytes and the new size, the file is its old contents overwritten at off by the first tot bytes. |
| FsWrite.OverwriteTwice | kernel/file.c:156-175 | Two writes in a row are one write of the concatenation, which is why chunking does not show. |
| FsWrite.SpendStep | kernel/fs.c:382-421 | What one bmap() and the write of its block add to the log, charged to data blocks, bitmap blocks and the indirect block. |
| FsWrite.WithinBudget | kernel/file.c:148-167 | A chunk of at most ((MAXOPBLOCKS-1-1-2)/2)*BSIZE bytes logs at most MAXOPBLOCKS distinct blocks, at any offset, if its first partial block is already there. |
| FsTrunc.AllReleased | kernel/fs.c:423-453 | After itrunc() the inode owns nothing and every other block has its old owner. |
| FsTrunc.OthersContent | kernel/fs.c:423-453 | Truncating one file leaves the contents of all the others. |
| FileSystem.FileSystem.Balloc | kernel/fs.c:61-88 | Returns the first free block, zeroed and marked, and touches nothing else; returns 0 exactly when the disk is full, and then changes nothing. |
| FileSystem.FileSystem.Bfree | kernel/fs.c:90-105 | On a block that a slot refers to, the panic is unreachable and exactly that block becomes free. |
| FileSystem.FileSystem.Bmap | kernel/fs.c:372-421 | Returns the block of that position, allocating at most what was missing; keeps ownership and the bytes of all files; returns 0 only on a full disk; logs exactly what it changed. |
| FileSystem.FileSystem.Iupdate | kernel/fs.c:221-241 | Brings the inode on disk up to date and leaves every slot of every inode alone. |
| FileSystem.FileSystem.Writei | kernel/fs.c:498-539 | -1 exactly on a bad range, with no change; otherwise the file is overwritten at off by exactly the r bytes reported, across the direct and indirect blocks; r is short only for a bad source or a full disk; other files stay; hole-free stays hole-free; a chunk of filewrite() logs at most MAXOPBLOCKS blocks. |
| FileSystem.FileSystem.Itrunc | kernel/fs.c:423-453 | The file is empty, its blocks are free, and all other files keep inode, contents and blocks. |
| FileSystem.FileSystem.Iput | kernel/fs.c:329-362 | Exactly when the last reference to an unlinked inode goes, the contents are freed and the inode with them: type 0 in memory and in its two bytes on disk, where ialloc() looks for it, size and addresses 0, all other fields and inodes as before. Otherwise only the count changes. |
| FileSystem.FileSystem.Readi | kernel/fs.c:467-496 | What it returns is the slice of the file, clipped at its end; on a hole-free inode it changes nothing, so never allocates outside a transaction, and fails only if the destination is too small. |
| FileSystem.FileSystem.Filewrite | kernel/file.c:132-181 | All chunks together are one overwrite of the bytes reported; n is returned only if all n were written; on a hole-free inode every transaction stays within MAXOPBLOCKS. |
| VmState.PteRoundTrip | kernel/riscv.h:347-352 | Page number and flags come back from the entry built of them. |
| VmState.PteBits | kernel/riscv.h:347-352 | The same for the macros' shifts and masks on 64-bit words. |
| VmState.TakeInv | kernel/kalloc.c:68-82 | Taking the head of the free list keeps the list, the trees and every entry; the page was free and is now held by its taker. |
| VmState.GiveInv | kernel/kalloc.c:46-63 | Giving back a page that no table refers to keeps all trees and makes it free once. |
| VmState.LinkInv | kernel/vm.c:85-103 | A new table page changes no mapping of any space. |
| VmState.MapInv | kernel/vm.c:154-163 | Writing one leaf entry changes the mapping of one page of one space, and its page gets that one owner. |
| VmState.UnmapInv | kernel/vm.c:179-191 | Clearing one leaf entry removes that mapping and no other. |
| VmTree.LocalLeaves | kernel/vm.c:143-333 | An operation local to one address space leaves every mapping of every other space. |
| VmTree.FreewalkEntry | kernel/vm.c:271-287 | In a space without leaves each entry is empty or leads to a child table, so "freewalk: leaf" is unreachable. |
| VmFree.AllGone | kernel/vm.c:271-297 | After freewalk() from the root each page of the space is free and no other page changes owner. |
| VmSpace.WalkDistinct | kernel/vm.c:73-103 | Two virtual pages, of one space or of two, have the same entry only if they are the same page of the same space. |
| VmSpace.WalkEntry | kernel/vm.c:91-100 | The entry found on the way down is valid exactly when the child table exists, and then points to it. |
| VmSpace.HardwareSees | kernel/vm.c:73-103 | What the hardware reads by its own three-level walk, word by word from the root page at the three 9-bit parts of the address, is the entry of the flat map, for every address. |
| VmSpace.FillUndo | kernel/vm.c:235-247 | Filling a range and unmapping it again restores every mapping of every space. |
| VmSpace.Pigeonhole | kernel/vm.c:225-249 | k mapped user pages are k different physical pages. |
| VmSpace.NeverFull | kernel/vm.c:225-249 | So user memory ends below the trapframe page. |
| PageTables.Vm.Kinit | kernel/kalloc.c:26-40 | Afterwards exactly the pages of the range are managed, all of them free and on the list once. |
| PageTables.Vm.GiveBack | kernel/kalloc.c:42-63 | The page is free, once, at the head of the list, and every tree and every mapping is as before. |
| PageTables.Vm.Kalloc | kernel/kalloc.c:65-82 | Fails exactly when the free list is empty, with no change; otherwise takes the head of the list off it. |
| PageTables.Vm.Walk | kernel/vm.c:73-103 | Finds the table of the leaf entry, creating tables only if asked; no mapping changes; fails only for want of a page, or if not asked to allocate. |
| PageTables.Vm.Mappages | kernel/vm.c:138-165 | Adds exactly the requested range to the flat map, for any unaligned address and size; on failure exactly a prefix, and the free list is empty. |
| PageTables.Vm.Uvmunmap | kernel/vm.c:167-192 | Removes exactly its range; the pages are freed exactly when asked. |
| PageTables.Vm.Uvmcreate | kernel/vm.c:194-205 | A new space without mappings, in no conflict with any other; fails with no change. |
| PageTables.Vm.Uvmalloc | kernel/vm.c:223-249 | All or nothing: the new pages are zero and mapped with the right permissions, or every mapping is as before and only table pages were added; it fails only when short of pages. |
| PageTables.Vm.Uvmdealloc | kernel/vm.c:251-267 | Unmaps and frees exactly the pages between the two rounded sizes. |
| PageTables.Vm.Freewalk | kernel/vm.c:269-287 | Frees the whole subtree without meeting the panic, and nothing outside it. |
| PageTables.Vm.Uvmfree | kernel/vm.c:289-297 | Every page of the space goes back to the free list; no other space or page changes. |
| PageTables.Vm.Uvmcopy | kernel/vm.c:299-333 | Each page is copied to a page of its own with the same permissions, or every mapping is restored. |
| PageTables.Vm.Uvmclear | kernel/vm.c:335-346 | Takes the user bit from one mapping and changes no other. |
| ProcSpaces.OkChanged | kernel/proc.c:259-275 | An operation on one process's space keeps the invariant of the whole system: each page is free, or belongs to one live process. |
| ProcSpaces.OkReplaced | kernel/exec.c:123-129 | So does replacing a space by one built beside it. |
| ProcSpaces.OkRestored | kernel/exec.c:133-140 | A space built and taken down again leaves every page with its old owner and contents. |
| ProcSpaces.OkRemoved | kernel/proc.c:155-172 | So does removing a process with its space. |
| ProcSpaces.OkAdded | kernel/proc.c:105-150 | So does adding one. |
| ProcSpaces.AcquiredReclaimed | kernel/proc.c:155-172 | Creating a process and reclaiming it returns every page to its old owner. |
| ProcSpaces.NothingLeaks | kernel/proc.c:155-172 | With no process left every page is on the free list. |
| ProcSpaces.ByteMapped | kernel/proc.c:257-275 | What p->sz means: below the trapframe an address is mapped exactly if its page begins below the size, so every byte below it is. |
| ExecImage.RefusedIff | kernel/exec.c:53-70 | Which headers that pass the tests are refused all the same: those that end at address 0 with nothing before them. |
| ExecImage.EmptySegmentRefused | kernel/exec.c:65-66 | An empty segment at address 0 is one. |
| ExecImage.NotCut | kernel/exec.c:143-148 | In memory of less than 4 GB the 32-bit file size of a segment that is loaded is the file size. |
| ExecImage.SizeIs | kernel/exec.c:65-67 | The size of the program is the end of the segment that reaches furthest. |
| ExecImage.ImageFlags | kernel/exec.c:12-20 | Which permissions each page gets: executable as bit 0, writable as bit 1 of the flags of the first segment that reaches it. |
| ExecImage.ImagePage | kernel/exec.c:53-70 | What each page holds: the file's page of the last segment that covers it, or zeros. |
| ProcMemory.Procs.ProcPagetable | kernel/proc.c:174-206 | The trampoline page mapped for the kernel to read and execute, the trapframe to read and write, neither for user code, and nothing else; or nothing at all. |
| ProcMemory.Procs.ProcFreepagetable | kernel/proc.c:208-216 | The whole space is free afterwards, but not the trampoline page and the trapframe page. |
| ProcMemory.Procs.Allocproc | kernel/proc.c:105-150 | A process without user memory whose pages all come from the free list, or every page keeps its owner and contents. |
| ProcMemory.Procs.Freeproc | kernel/proc.c:152-172 | Exactly the pages of that process become free; all others keep owner and contents. |
| ProcMemory.Procs.Growproc | kernel/proc.c:257-275 | Grows by zeroed pages or shrinks; on failure the process and every mapping are as before; a shrink by more than the size changes nothing, by 64-bit wrap-around. |
| ProcMemory.Procs.Fork | kernel/proc.c:277-297 | The child's memory is a copy of the parent's in pages of its own, no other process notices, and on failure every page has its old owner and contents. |
| ProcMemory.Procs.Walkaddr | kernel/vm.c:105-126 | Gives a page exactly if it is below MAXVA, mapped and user-accessible. |
| ProcMemory.Procs.Loadseg | kernel/exec.c:143-166 | Fills the segment's pages with the file's, changing no mapping and no page of another space; fails exactly if the file is too short. |
| ProcMemory.Procs.LoadSegment | kernel/exec.c:53-70 | A bad header, or memory that does not suffice, leaves a space that the `bad` path can free; a good one holds the file's pages. |
| ProcMemory.Procs.AddStack | kernel/exec.c:78-88 | Two more pages, of which user code can read and write the upper one and cannot use the lower one. |
| ProcMemory.Procs.Exec | kernel/exec.c:22-141 | Build, then commit: on success every page of the new space is that of the program, with the contents of the last segment that covers it and the permissions of the first that reaches it, and above it the guarded stack; the old space is free. On failure the process, every page's owner and every page's contents are as before. It fails for every bad header, segment or argument, and otherwise only for want of pages. |
| ProcMemory.ProgramPage | kernel/exec.c:12-70 | After exec(), from entry and contents alone: each page of the program is readable for user code, has X and W exactly as the flags of the first segment that reaches it say, and holds the page of the last segment that covers it, or zeros. |
| KernelRuns.StepInv | kernel/proc.c:279-604 | Every step of every CPU keeps the invariant (locks, labels, no lost wakeup, holders, family, pids, history). |
| KernelRuns.InvKill | kernel/proc.c:582-604 | A kill at any moment, with the wakeup it causes, keeps the invariant: spurious wakeups break nothing. |
| KernelRuns.RunInv | kernel/proc.c:279-604 | So it holds in every state of every run from boot. |
| KernelRuns.SleepersHaveReason | kernel/sleeplock.c:21-41 | Whenever the inner spinlock is free, a process sleeping on a sleep-lock implies that the lock is held: no wakeup is lost. |
| KernelRuns.OneHolder | kernel/sleeplock.c:21-41 | A sleep-lock has at most one holder, and one exactly when it is locked. |
| KernelRuns.HoldingSleep | kernel/sleeplock.c:43-52 | Comparing pids answers holdingsleep() rightly for every process. |
| KernelRuns.ParentsAlive | kernel/proc.c:328-386 | No process has an unused or zombie parent, and every zombie has a parent. |
| KernelRuns.WaitersHaveReason | kernel/proc.c:388-435 | Whenever wait_lock is free, no process asleep in wait() has a zombie child. |
| KernelRuns.ReapedOnce | kernel/proc.c:376-420 | No pid exits twice or is reaped twice, only exited ones are reaped, and those not yet reaped are exactly the zombies. |
| KernelCalls.CallReturns | kernel/proc.c:277-580 | From a call to its return, whatever all CPUs do in between: acquiresleep() comes back as the only holder with its pid in the lock, releasesleep() without it, fork() with a runnable child of the caller, wait() having reaped one zombie child, or none and then only if there are no children, the caller is killed, or copyout() failed; the inner spinlock and wait_lock are free of it. |
| KernelCalls.ExitIsFinal | kernel/proc.c:343-386 | exit() never returns, as long as its slot is not reaped. |
| KernelAnswers.WaitSaysNone | kernel/proc.c:399-434 | At the end of its scan wait() returns exactly if the caller has no children or is killed; otherwise it goes to sleep on the caller, still holding wait_lock. |
| KernelAnswers.WaitReaps | kernel/proc.c:403-422 | A zombie child that the scan meets is freed, its pid is returned, and nothing else about any process changes. |
| KernelAnswers.OnlyWaitReaps | kernel/proc.c:155-172 | Nothing else reaps, and only a zombie child of the caller. |
| KernelAnswers.KillMarks | kernel/proc.c:582-604 | kill() marks its target, makes it runnable if it sleeps, and changes nothing else. |
| KernelAnswers.ForkTakes | kernel/proc.c:105-127 | fork() takes an unused slot under a pid that no process has or has exited with. |
| KernelAnswers.ForkStarts | kernel/proc.c:317-323 | And makes it runnable as the caller's child. |
| KernelAnswers.AcquireTests | kernel/sleeplock.c:21-31 | The lock is taken if and only if nobody holds it; otherwise the caller goes to sleep on it. |
| KernelAnswers.AcquireHolds | kernel/sleeplock.c:21-31 | acquiresleep() returns to the only holder. |
| KernelAnswers.ReleaseGives | kernel/sleeplock.c:33-41 | releasesleep() gives up a lock that was held and starts to wake its sleepers. |
| KernelAnswers.WakeWakes | kernel/proc.c:564-580 | wakeup() makes a process runnable exactly if it sleeps on the channel and is not the caller. |
| KernelAnswers.OrphanGiven | kernel/proc.c:328-341 | exit() gives each of its children to init, wakes init, and changes nobody else's parent. |
| KernelAnswers.ExitLeaves | kernel/proc.c:366-386 | exit() leaves a zombie that has a parent and no children. |
| KernelAnswers.SleepSleeps | kernel/proc.c:535-562 | When sleep() lets go of the CPU, the caller is asleep on its channel. |
| KernelAnswers.YieldGives | kernel/proc.c:500-509 | yield() leaves the caller runnable. |
| KernelAnswers.DispatchRuns | kernel/proc.c:437-472 | The scheduler runs a process that is runnable, on this CPU alone. |
| KernelAnswers.RunsOnce | kernel/proc.c:437-472 | In every state of every run a process runs on one CPU at most. |
| Wakeups.QuietKeeps | kernel/proc.c:535-580 | A step that changes no condition, parent or state keeps the whole invariant. |
| Wakeups.LockTaken | kernel/sleeplock.c:21-31 | Taking the sleep-lock keeps the invariant. |
| Wakeups.LockDropped | kernel/sleeplock.c:33-41 | So does dropping it, because the wakeup is under way. |
| Wakeups.ParentSet | kernel/proc.c:317-319 | So does recording the parent. |
| Wakeups.Reparented | kernel/proc.c:328-341 | So does giving a child to init, because init is about to be woken. |
| Wakeups.Exited | kernel/proc.c:368-386 | So does becoming a zombie, because the parent has been woken under wait_lock. |
| Wakeups.ChildStarts | kernel/proc.c:321-323 | So does making the child runnable. |
| Wakeups.SlotUsed | kernel/proc.c:110-127 | So does taking an unused slot with a new pid. |
| Wakeups.Reaped | kernel/proc.c:155-172 | So does freeing a zombie. |
| SleepWakeup.StepSleepSched | kernel/proc.c:535-562 | Giving p->lock over to the scheduler keeps locks, CPUs and wakers consistent. |
| SleepWakeup.StepWakeOther | kernel/proc.c:564-580 | So does waking one process in the scan. |
| MallocState.FreedOk | user/umalloc.c:33-43 | free()'s assignments, in all four cases of merging, keep one circular, address-ordered list without adjacent blocks, disjoint from all live ones, and the sum of units. |
| MallocState.TakenOk | user/umalloc.c:76-77 | So does taking a whole block. |
| MallocState.CutOk | user/umalloc.c:78-82 | So does cutting the tail off a block. |
| MallocState.GrownOk | user/umalloc.c:46-61 | So does adding new units above the heap, which the sum then has more. |
| MallocState.PlaceCovers | user/umalloc.c:33-43 | The free list covers exactly what it covered before and the freed block. |
| Malloc.StopsAtTarget | user/umalloc.c:30-32 | free()'s loop test holds at exactly one block of the list, so the search ends, and at the right place. |
| Malloc.SbrkExact | user/umalloc.c:46-61 | sbrk() is told what morecore() accounts for if and only if the request is at most 2^31 - 32 bytes. |
| Malloc.HugeRequest | user/umalloc.c:46-61 | A request of 2^32 - 1 bytes asks sbrk() for 16. |
| Malloc.BreakAfter | kernel/sysproc.c:38-49 | The break ends up behind the new units if and only if the request is at most 2^31 - 32 bytes, and short of their end otherwise. |
| Malloc.TwoHugeRequests | user/umalloc.c:46-90 | In every process that has not allocated yet, two requests of 2^32 - 1 bytes get overlapping blocks. |
| Malloc.Allocator.Sbrk | kernel/sysproc.c:38-49 | Returns the old break; a program that moves the break up keeps the allocator valid. |
| Malloc.Allocator.FindPlace | user/umalloc.c:30-32 | Terminates at the block that precedes bp, in the order of addresses and round the end. |
| Malloc.Allocator.Free | user/umalloc.c:24-44 | The block is free again and nothing else changes hands; free plus live units stay the same. |
| Malloc.Allocator.Morecore | user/umalloc.c:46-61 | Adds max(units, 4096) units at the old break to the list, merged with the block below if they touch, or nothing; fails exactly if sbrk() does. |
| Malloc.Allocator.FindFit | user/umalloc.c:74-86 | One round of the list finds a block that fits, or proves that none does. |
| Malloc.Allocator.Malloc | user/umalloc.c:63-90 | The new block has room for nbytes behind its header, and less than one unit more. It is disjoint from all live ones, taken from free memory, or from the end of what was added to it; fails exactly if no block fits and sbrk() fails. The heap stays below the break and accounted for if and only if a block fits, or sbrk() fails, or the request is at most 2^31 - 32 bytes. |
| VirtioState.InFlight | kernel/virtio_disk.c:199-213 | There are at most num/3 requests, so neither ring is ever full. |
| VirtioState.SubmittedOk | kernel/virtio_disk.c:235-281 | A submission keeps the invariant: descriptors are free or in one chain of three that describes its request, and no avail slot is overwritten before the device has taken it. |
| VirtioState.DeviceTookOk | kernel/virtio_disk.c:271-281 | The device finds in the ring the next request that was posted. |
| VirtioState.CompletedOk | kernel/virtio_disk.c:295-327 | Completing any request it has taken keeps the invariant. |
| VirtioState.NoticedOk | kernel/virtio_disk.c:312-324 | Each used-ring id names a live request with its buffer and status 0, so no panic and no null buffer. |
| VirtioState.AnyUsed | kernel/virtio_disk.c:309-312 | The two 16-bit indices differ exactly when there are entries, through wrap-around. |
| VirtioState.FinishedOk | kernel/virtio_disk.c:283-291 | Freeing the chain of a finished request keeps the invariant. |
| Virtio.Driver.constructor | kernel/virtio_disk.c:62-153 | All descriptors free and both rings empty, for any queue size that divides 2^16. |
| Virtio.Driver.AllocDesc | kernel/virtio_disk.c:155-166 | Takes a free descriptor, or says that there is none. |
| Virtio.Driver.FreeDesc | kernel/virtio_disk.c:168-182 | Makes one descriptor free and zero. |
| Virtio.Driver.FreeChain | kernel/virtio_disk.c:184-197 | Following the links frees exactly the three descriptors of the request. |
| Virtio.Driver.Alloc3Desc | kernel/virtio_disk.c:199-213 | All or nothing, and nothing exactly when fewer than three are free. |
| Virtio.Driver.Submit | kernel/virtio_disk.c:215-281 | Adds one request for this buffer, block and direction behind those posted; disturbs no other. |
| Virtio.Driver.DeviceTake | kernel/virtio_disk.c:271-281 | The device's side: what it takes from the ring is the oldest request posted, as a chain of three whose header names the operation and the block's first sector, whose buffer it may write exactly if it is a read, and whose last byte is the status; the invariant holds on. |
| Virtio.Driver.DeviceComplete | kernel/virtio_disk.c:309-324 | The device's side: it may complete any request it has taken, in any order, and the invariant holds on. |
| Virtio.Driver.Intr | kernel/virtio_disk.c:294-327 | Every request in the used ring is done and its buffer given back; all others are as they were. |
| Virtio.Driver.Finish | kernel/virtio_disk.c:283-292 | The request is gone and three more descriptors are free. |
| ShellGrammar.LineSpans | user/sh.c:345-360 | Every span in a parsed command is one whole word of the line: blanks and symbols do not occur in it, and a blank, a symbol or the end follows. |
| ShellPrint.LineRead | user/sh.c:345-447 | Parsing the printed form of a command, wherever it stands, gives the command back and stops right behind it. |
| ShellPrint.RoundTrip | user/sh.c:328-447 | For every tree with legal words and fewer than MAXARGS arguments, parsing its fully parenthesised printed form returns the tree. |
| ShellForms.SimpleRead | user/sh.c:416-447 | Words and redirections in any order, and blocks with redirections, are read as the command with all the words and around it all the redirections, in order. |
| ShellForms.SimpleForms | user/sh.c:375-447 | And whatever is read as a simple command is of that form, token for token. |
| ShellForms.LineReads | user/sh.c:345-447 | The same for whole lines with pipes, background marks, lists and blocks, nested at will. |
| ShellForms.LineForms | user/sh.c:345-447 | And whatever is read as a line is of that form. |
| ShellForms.TypedRead | user/sh.c:262-447 | However a line is typed, with any blanks anywhere between its tokens, it is read as what its form means. |
| ShellForms.AcceptedIff | user/sh.c:328-447 | The shell accepts a line if and only if its tokens are those of a form with few enough arguments, and reads it as what that form means: every word and every redirection once, in order. |
| Shell.NulterminateOk | user/sh.c:449-494 | For every line that parses, each argument and file name then reads, as a C string, as exactly its word, and no other character of a word is overwritten. |
| Shell.Printed | user/sh.c:328-494 | Printed, parsed and terminated, a command reads as the command it was. |
| Shell.Nulterminate | user/sh.c:449-494 | Writes exactly the terminators of all words of the command. |
| Shell.Parser.Gettoken | user/sh.c:262-309 | Kind, span and rest of the next token; always moves on unless at the end. |
| Shell.Parser.Peek | user/sh.c:311-321 | Skips blanks and says whether one of the characters comes next. |
| Shell.Parser.Parseredirs | user/sh.c:375-398 | All redirections that follow, in order; a missing file name is the panic. |
| Shell.Parser.Parseblock | user/sh.c:400-414 | A parenthesised line and the redirections behind it, as the grammar says, or the panic. |
| Shell.Parser.Parseexec | user/sh.c:416-447 | Words and redirections in any order up to a delimiter, as the grammar says, or the panic; ShellForms.SimpleRead and SimpleForms say what the grammar keeps of them. |
| Shell.Parser.Parsepipe | user/sh.c:362-373 | Right-nested pipelines, as the grammar says, or the panic. |
| Shell.Parser.Parseline | user/sh.c:345-360 | Background marks and lists, as the grammar says, or the panic. |
| Shell.Parser.Parsecmd | user/sh.c:328-343 | Terminates on every line; accepts it if and only if it is of one of the forms, and then the command read from the terminated line is what the form means; leftovers are the panic, and then the line is untouched. |
| Grep.HereIff | user/grep.c:83-95 | matchhere() is true exactly if the text from there on divides into pieces that match the parsed items one by one. |
| Grep.RepeatIff | user/grep.c:97-105 | matchstar() is true exactly if some number of fitting characters is followed by a match of the rest. |
| Grep.MatchHere | user/grep.c:83-95 | The code with its mutual recursion computes that predicate and terminates. |
| Grep.MatchStar | user/grep.c:97-105 | The same for the loop. |
| Grep.Match | user/grep.c:71-81 | True exactly if some part of the text matches the pattern's meaning, from the start if it begins with ^. |
| Random.Schrage | user/ulib.c:154-164 | No product leaves 32 bits, and 16807*x differs from the computed value by a multiple of 2^31 - 1. |
| Random.DoRand | user/ulib.c:154-164 | Computes 16807*x mod (2^31 - 1). |
| Random.Inverse | user/ulib.c:154-164 | Multiplying by the inverse leads back to the state before. |
| Random.NeverZero | user/ulib.c:154-164 | The states stay in 1..2^31 - 2. |
| Random.OneToOne | user/ulib.c:154-164 | Different states have different successors. |
| Random.Onto | user/ulib.c:154-164 | Every state is a successor: with OneToOne, a permutation. |
| Random.Rand.Next | user/ulib.c:166-170 | Steps the generator and returns a number in 0..RAND_MAX. |
| Random.Rand.Srand | user/ulib.c:172-176 | Every seed leads into the generator's range. |
| Random.RandR | user/ulib.c:178-185 | On any 32-bit state, one step of the generator between two shifts. |
| Random.GrindDoRand | user/grind.c:16-40 | The same output and next state as rand_r(). |
| Random.SameSequence | user/grind.c:16-40 | So the two produce one and the same sequence from any 32-bit state. |
| Pipe.FullIff | kernel/pipe.c:88-121 | The tests on the wrapped 32-bit counters say exactly "full" and "empty". |
| Pipe.PutOk | kernel/pipe.c:91-97 | The slot written is not one that waits to be read. |
| Pipe.GetOk | kernel/pipe.c:121-125 | The slot read holds the oldest byte not yet taken. |
| Pipe.Ring.Close | kernel/pipe.c:58-74 | The page is freed exactly once, when both ends are closed. |
| Pipe.Ring.Write | kernel/pipe.c:76-103 | How many bytes go in, exactly: up to the least of the end, the byte at which the reader is gone or the writer killed, the room, and the fault; and with which outcome for each: it sleeps exactly if the ring is full with bytes left, the reader there and the writer alive, and returns exactly if all bytes are in or copyin() failed. |
| Pipe.Ring.Read | kernel/pipe.c:105-130 | What it returns, exactly, in the order it was put in; it sleeps only on an empty ring with the writer there; a byte is lost if and only if copyout() fails before the end of what is there to be read, and then exactly one. |
| Pipe.FailsAfterSome | kernel/pipe.c:83-87 | Exactly when pipewrite() returns -1 although bytes have gone in. |
| Pipe.WriteThenClose | kernel/pipe.c:76-103 | Such a write: the reader closes while the writer sleeps on a full ring. |
| Pipe.LoseByte | kernel/pipe.c:120-126 | A read that loses a byte: it is neither returned nor there for the next read. |
| Pipe.InOrder | kernel/pipe.c:76-130 | Bytes taken out followed by bytes in the ring are the bytes put in, and the ring never holds more than PIPESIZE. |

## Left out

- `copyin()`, `copyout()`, `copyinstr()` and the byte contents they move: loops over Walkaddr. `exec()`'s argument strings are one yes or no, `argsFit`.
- Trapframe and kernel stack contents, context switching in assembly, traps, interrupts, CSRs, UART, PLIC and CLINT. `swtch()` is the hand-over of p->lock.
- Memory fences and weak memory.
- `ialloc()`, `iget()`, `ilock()`, directories, path names, link counts and `kernel/sysfile.c`: the in-memory inodes are one per number here, and link counts are taken as they are, because entries can be made in an unlinked current directory and no invariant ties the two.
- The descriptor-table side of `kernel/file.c`; the pipe and device branches of `filewrite()`.
- `userinit()`, `uvmfirst()`, `kvmmake()` and the kernel's own page table.
- `printf`, `procdump`, `proctree`, `ps` and other output; `kernel/ramdisk.c`; test drivers and games in `user/`; the image builder `mkfs/mkfs.c`, of which only the facts cited above are used.
- The shell's `runcmd()` and `main()`; grep's reading of lines.
- Liveness: that a sleeper is woken in the end, or that a waiting `begin_op()` is admitted. Only safety is stated.
- LogProtocol.RunInv: the protocol's cache loads and evicts at will; the ring, its order and its reference counts are in BufferCache, which Log ties to it through what each block reads as.
- BufferCache.Cache.Bget: the sleep-lock of a buffer is not part of the class; that its holder is alone is KernelRuns.OneHolder.
- FileSystem.FileSystem.Writei: runs as one process inside a transaction; interleaving with other operations is LogProtocol's, on whole blocks.
- FileSystem.FileSystem.Iput: takes the reference counts as given, one per inode; the table of in-memory inodes and its reuse are not modelled.
- PageTables.Vm.Kinit: kalloc.lock is not modelled; each call is atomic. `kalloc()` fills pages with junk (5) and `kfree()` with junk (1), as the code does.
- PageTables.Vm.Uvmalloc: physical and virtual addresses are unbounded numbers; that the managed range fits 56 bits is not stated.
- ProcMemory.Procs.Allocproc: the slot is a parameter; the scan of the process table and pids are in SleepWakeup.
- ProcMemory.Procs.Fork: open files, name and parent are left to SleepWakeup or out.
- ProcMemory.Procs.Loadseg: the file's pages and the page at which it ends early are parameters, and a page is loaded as a whole.
- ProcMemory.Procs.Exec: does not say what the stack page holds, since the arguments are not modelled.
- KernelRuns.RunInv: pids are unbounded, and `kill()` of pid 0, which marks an unused slot, is just a kill of that slot.
- KernelRuns.ReapedOnce: `wait()` with an address that cannot be written leaves the zombie, as the code does; the status itself is not modelled.
- Malloc.Allocator.Malloc: a heap that is no longer below the break is taken not to grow again; it says exactly when that state is entered, and TwoHugeRequests what growing would do. Block sizes are unbounded; the 32-bit size field could overflow only after 2^36 bytes of merged memory.
- Malloc.Allocator.Free: the block must be live; freeing anything else is outside the contract.
- Virtio.Driver.constructor: feature negotiation and the queue's memory are not modelled.
- Virtio.Driver.Submit: one attempt; a caller without descriptors sleeps and tries again.
- Virtio.Driver.Intr: a device that reports an error makes the kernel panic; it is excluded by hypothesis.
- Shell.Parser.Parseexec: the node is built as a value instead of being filled in place behind the redirections that point to it.
- Shell.Parser.Parsecmd: the line holds no NUL before its end.
- Pipe.Ring.Write: one turn, from taking the lock to sleeping or returning; the caller goes on from the byte it has reached.
- KernelRuns.StepInv: a process is preempted in user code only.
