# Verification of a teaching kernel

This project models the three stateful cores of a small 32-bit kernel and proves what they are for.

- **RAM-disk file system** (`kernel/fs.c`). `FsLayout` reads the flat 1 MB byte array as superblock, directory,
  bitmaps, inodes and data blocks; `FsSpec` states every function on that decoded disk; `FsInv` and `FsPreserve`
  prove the invariant (exclusive block ownership, bitmaps, counters, directory, descriptors); `FsAbs`, `FsWrite`,
  `FsRuns` and `FsExact` prove that every run is a run of a map from names to bytes with handles (file, offset),
  and what each call answers.
  `CStrings`, `FileSystem` and `Shell` are the code itself, loops over arrays, proved against those functions.
- **Scheduler, threads, mutex, semaphore and their programs.** `Sched` and `Sync` give the two rings, the
  interrupt, and the blocking objects as functions; `System` puts them into one transition system whose runs are
  arbitrary sequences of events, with the whole-system invariant; `Safety` and `Fairness` hold the theorems over
  every run. `KernelCore`, `KernelSync` and `KernelObject` are the code: tables changed in place, linked rings,
  intrusive wait queues; each method of `KernelObject.Kern` makes exactly one step of `System`. `Machine`,
  `Switching`, `SystemContexts` and `Processor` treat the context switch of `boot/switch.asm` on a stack machine.
  `Counter`, `Race` and `ProdCons` are the demo programs under every interleaving; `MutexDemo` and
  `Demo` run the first and the last inside `System` and show that the kernel brings them to their end.
- **Physical frame allocator** (`kernel/pmm.c`). `Pmm`, with `Bits` for packed bitmaps.

The class files follow the source's functions one by one; a pointer into a static table is the index of its slot.

## Assumptions

- A lock, unlock, wait or signal body, up to and with its yield, is one step, as is a queue insertion. The code
  does not disable interrupts there, so this is an assumption about the scheduling, not a result. A tick may land
  between any two steps, for instance between the read and the write of `myglobal`, or between storing an item
  and counting it.
- `mutex_init` and `sem_init` are called while nobody waits, `sem_init` with a value that is not negative; PID 1
  never calls `proc_exit` (nothing in the repository does). Before the first tick only `kernel_main` runs.
- `Demo.DemoCompletes` and `MutexDemo.MutexDemoCompletes` assume that a worker dispatched executes at least one
  statement before the timer takes the CPU from it; the safety results do not.
- The code that runs stays on its own stack with room for an interrupt frame, and writes no other stack.
- A name passed to the file system is a C string; buffers lie outside the RAM disk and the descriptor table, in
  the same 32-bit address space, so `offset + count` cannot wrap. Results over runs unlink a file only while no
  descriptor refers to it; `FsPreserve.UnlinkInvExactly` shows that this is exactly what is needed.
- Clients free only frames they hold, or addresses the code rejects; `Pmm.FreeKeepsExactly` shows exactly which
  calls are harmless.

## Where the code and the documentation differ

- `README.md:413` says that `write` appends to an existing file. A fresh open starts at offset 0
  (`kernel/fs.c:326`), so the text goes over the beginning, as far as it fits. `Shell.AppendsExactly` is the exact
  condition: nothing to write, or an empty file with a free handle and room; `Shell.SecondWriteOverwrites` is an input.
- `README.md:414` says that `cat` displays the exact contents. It prints each chunk up to its first NUL
  (`kernel/kernel.c:919-922`); `Shell.ShownExactly`: exact if and only if the file has no NUL byte.
- The inode table has 1024 inodes, but the directory has 128 entries (`kernel/fs.h:60`): 128 files are the limit.
- `fs_open` with creation may answer -1 and leave the new file behind (`kernel/fs.c:307-322`):
  `FsAbs.FailedOpenCreates` says exactly when, `FsRuns.SeventeenthOpen` gives a run.
- `proc_kill` says that 1 means killed and 0 not found (`kernel/process.c:149-152`). For PID 0 it answers 1 while a
  slot is unused, and kills nobody: `Sched.KillReportsExactly`.
- `pmm_init` adds base and length in 64 bits (`kernel/pmm.c:64`). An entry whose end wraps frees nothing:
  `Pmm.WrapExactly`.
- With nothing READY, `scheduler_irq` resumes the old context whatever its state (`kernel/scheduler.c:464-468`).
  Mutual exclusion rests on PID 1 always being able to run; `Sched.FallbackIff` is the exact condition.

## Model

| member | source | states |
|---|---|---|
| FsLayout.Frame | kernel/fs.c:20-98 | a store that stays clear of a region (superblock, directory, either bitmap, inode table, data blocks) leaves everything decoded from that region as it was |
| FsLayout.StoreFreeBlocks | kernel/fs.c:36-39 | storing the free-block word changes that one field of the decoded disk and nothing else |
| FsLayout.StoreFreeInodes | kernel/fs.c:36-39 | storing the free-inode word changes that one field and nothing else |
| FsLayout.StoreBlockBit | kernel/fs.c:52-98 | setting or clearing bit i of the byte i/8 changes exactly bit i of the decoded block bitmap |
| FsLayout.StoreInodeBit | kernel/fs.c:60-98 | the same for the inode bitmap |
| FsLayout.StoreInodeSize | kernel/fs.c:68-74 | the size word of inode i, at the address fs_get_inode computes, is the size of decoded inode i and of no other |
| FsLayout.StoreInodeBlock | kernel/fs.c:68-74 | the k-th pointer word of inode i is that pointer of that inode and nothing else |
| FsLayout.ClearInode | kernel/fs.c:142-160 | zeroing the 128 bytes of inode i makes decoded inode i empty and touches nothing else |
| FsLayout.StoreDirInode | kernel/fs.c:44-47 | the inode word of directory entry e changes only that entry's inode number |
| FsLayout.StoreDirName | kernel/fs.c:44-47 | bytes stored inside the name of entry e change only that name |
| FsLayout.StoreData | kernel/fs.c:28-31 | bytes stored inside one data block change only that stretch of that block |
| FsLayout.LittleEndian | kernel/fs.c:28-39 | a word stands with its low byte first |
| FsLayout.Addresses | kernel/fs.c:28-74 | where everything stands: counters at bytes 16 and 20, entries of 32 bytes from 4096, bitmaps from 8192 and 12288, inodes of 128 bytes from 16384, blocks of 4096 from 147456 |
| Bits.BitPlace | kernel/fs.c:79-98 | bit k of a bitmap byte is the one of value 1, 2, 4, .., 128 |
| FsLayout.EncodeWord | kernel/fs.c:28-39 | little-endian round trip of every 32-bit word |
| CStrings.Memset | kernel/string.c:16-23 | fills exactly the n bytes |
| CStrings.Memcpy | kernel/string.c:25-33 | the destination stretch becomes the source stretch, the rest stays |
| CStrings.Strlen | kernel/string.c:72-79 | the length of the C string, inside its array |
| CStrings.Strcmp | kernel/string.c:104-111 | zero if and only if the two C strings are equal |
| CStrings.Strncpy | kernel/string.c:90-102 | the field holds the string cut to n bytes and is padded with NULs |
| FsInv.FormattedInv | kernel/fs.c:234-256 | a formatted disk with every descriptor closed satisfies the whole invariant |
| FsInv.CreateExact | kernel/fs.c:262-292 | create succeeds if and only if the name is nonempty, under 28 bytes, new, and fewer than 128 files exist; it then adds one entry with an empty first-fit inode of number at most 128, and otherwise changes nothing |
| FsInv.LowInodeFree | kernel/fs.c:142-160 | with fewer than 128 files an inode number of at most 128 is free, so inode allocation never fails inside create |
| FsInv.FreeEntryIff | kernel/fs.c:200-210 | the directory is full if and only if 128 files exist |
| FsInv.FindInodeIff | kernel/fs.c:184-194 | the lookup answers 0 if and only if no live entry has the name |
| FsPreserve.CreateInv | kernel/fs.c:262-292 | create keeps block ownership, bitmaps, counters, directory and every open descriptor consistent |
| FsPreserve.OpenInv | kernel/fs.c:298-330 | open keeps the invariant, also when it fails after having created the file |
| FsPreserve.CloseInv | kernel/fs.c:335-343 | close keeps the invariant |
| FsPreserve.ReadInv | kernel/fs.c:349-403 | read keeps the invariant |
| FsPreserve.ReadChunk | kernel/fs.c:349-403 | a read delivers exactly the bytes from the offset on, up to the count or the end of the file, and moves only that offset: the break at an unallocated block is never taken |
| FsPreserve.ChunkFacts | kernel/fs.c:425-459 | one pass of the write loop fails if and only if the offset is at 32 KB or it needs a block and none is free; otherwise the exact new disk |
| FsPreserve.FreeBlockIff | kernel/fs.c:104-117 | a clear bit exists if and only if the free-block counter is positive |
| FsPreserve.WriteInv | kernel/fs.c:409-462 | write keeps ownership exclusive (no block in two live inodes or twice in one), bitmap bits equal to ownership, and free_blocks equal to 220 minus the blocks the sizes need |
| FsPreserve.FilledSlots | kernel/fs.c:409-462 | a live inode has exactly as many nonzero pointers as its size needs blocks |
| FsPreserve.FreeBlocksExact | kernel/fs.c:481-485 | freeing distinct allocated blocks clears exactly their bits and counts them back |
| FsPreserve.UnlinkExact | kernel/fs.c:468-501 | unlink removes exactly the first entry with the name, its inode bit and its blocks, and adds them to the counters |
| FsPreserve.UnlinkInvExactly | kernel/fs.c:468-501 | unlink keeps the invariant if and only if the name is unknown or no open descriptor refers to the file |
| FsAbs.CreateRefines | kernel/fs.c:262-292 | create is: add an empty file unless the name is bad, known, or 128 files exist; same result code |
| FsAbs.OpenRefines | kernel/fs.c:298-330 | open is: find or create the name, take the lowest free handle at offset 0; the file stays created even when no handle is free and -1 is returned |
| FsAbs.OpenLeavesFile | kernel/fs.c:298-330 | opening fails and yet changes the files if and only if creation of a good new name was asked, an entry is free and every handle is taken; it then leaves the empty file |
| FsAbs.FailedOpenCreates | kernel/fs.c:307-322 | the same of fs_open on the disk, with all 16 descriptors valid; the descriptors stay |
| FsAbs.CloseRefines | kernel/fs.c:335-343 | close frees one open handle or answers -1 |
| FsAbs.ReadRefines | kernel/fs.c:349-403 | read is a slice of the file's bytes at the handle's offset |
| FsAbs.AbsFiles | kernel/fs.c:184-210 | the abstract map has exactly the names in the directory, each with its file's bytes, and as many entries as live directory slots |
| FsAbs.AbsHandle | kernel/fs.c:216-224 | an open descriptor is a handle on the one entry that holds its inode, standing inside the file |
| FsWrite.WriteRefines | kernel/fs.c:409-462 | write is: splice the accepted prefix over the file's bytes at the offset; several handles on the file all see it, every other file stays |
| FsWrite.WriteExact | kernel/fs.c:409-462 | fs_write returns min(count, min(32768, (blocks of size + free_blocks) * 4096) - offset), the contents become old[..off] + buf[..n] + old[off+n..], and size, offset and free blocks move to match |
| FsWrite.AWriteExact | kernel/fs.c:409-462 | the same for the simple model, with the blocks taken never exceeding those free |
| FsWrite.WriteFusion | kernel/fs.c:425-459 | writing a then b through one descriptor leaves the concrete disk, offset and total count of one write of a + b, short writes at the size limit or on a full disk included |
| FsWrite.ChunkSplit | kernel/fs.c:425-459 | one pass may be cut in two anywhere: same disk, same offset, same success |
| FsWrite.ChunkRefines | kernel/fs.c:425-459 | one pass is one simple write, and a pass that fails means nothing more would be accepted |
| FsWrite.WriteKeepsPlace | kernel/fs.c:409-462 | a write touches one inode and one descriptor, neither the directory nor the inode bitmap |
| FsRuns.UnlinkRefines | kernel/fs.c:468-501 | unlink removes the name from the map and leaves every other file and every handle |
| FsRuns.DoRefines | kernel/fs.c:262-501 | every operation on a consistent disk simulates the simple one, reply for reply |
| FsRuns.EveryRunRefines | kernel/fs.c:234-501 | every run from a formatted disk is a run of the map name to bytes with handles (file, offset) |
| FsRuns.OthersUntouched | kernel/fs.c:262-501 | no operation changes whether another file exists or any of its bytes |
| FsRuns.SameOwnersSameBits | kernel/fs.c:104-136 | the live inodes determine the block bitmap and the free-block counter |
| FsRuns.NoTrace | kernel/fs.c:262-501 | create; open; write; close; unlink restores both bitmaps, both counters, every other file and the handle table |
| FsRuns.SeventeenthOpen | kernel/fs.c:307-322 | one run: with one file open 16 times, opening another with creation answers -1 and leaves it behind |
| FsRuns.ReadBack | kernel/fs.c:349-403 | for every chunk size above 0, reading until 0 ends and concatenates to exactly the rest of the file |
| FsExact.CreateReply | kernel/fs.c:262-292 | fs_create_file answers 0 if and only if the name has 1 to 27 bytes, is new, and fewer than 128 files exist; then there is one empty file more, and otherwise nothing changes |
| FsExact.OpenReply | kernel/fs.c:298-330 | fs_open answers the least free of the 16 descriptors, at offset 0 of the file, or -1 if and only if there is none or no such file and none is made; the file is made first |
| FsExact.CloseReply | kernel/fs.c:335-343 | fs_close answers 0 and frees the descriptor, or -1 and changes nothing if it is not open |
| FsExact.ReadReply | kernel/fs.c:349-403 | fs_read answers -1 for a descriptor that is not open, otherwise the bytes from the offset on, as many as asked for and there are; only the offset moves |
| FsExact.WriteReply | kernel/fs.c:409-462 | fs_write answers -1 for a descriptor that is not open, otherwise min(count, min(32768, (blocks of the file + free blocks) * 4096) - offset); contents, offset and free blocks in closed form, and every other file and handle as it was |
| FsExact.UnlinkReply | kernel/fs.c:468-501 | fs_unlink answers -1 for an unknown name, otherwise the file goes and its blocks are free again |
| FsExact.FormattedAs | kernel/fs.c:234-256 | the disk fs_init writes: magic 0x53454E47, 256 blocks, 32 inode blocks, 220 data blocks, all free, 1023 inodes free, no file |
| FileSystem.RamDisk.FsInit | kernel/fs.c:234-256 | formats the byte array so that it decodes to the formatted disk, and closes every descriptor |
| FileSystem.RamDisk.FsAllocBlock | kernel/fs.c:104-117 | first-fit block allocation on the byte array, as specified on the decoded disk |
| FileSystem.RamDisk.FsFreeBlock | kernel/fs.c:122-136 | frees a block in range that is marked, and only then |
| FileSystem.RamDisk.FsAllocInode | kernel/fs.c:142-160 | first-fit inode allocation, never inode 0, with the record zeroed |
| FileSystem.RamDisk.FsFreeInode | kernel/fs.c:165-178 | frees a marked inode in range |
| FileSystem.RamDisk.FsFindInode | kernel/fs.c:184-194 | the inode of the first live entry whose name equals the string |
| FileSystem.RamDisk.FsFindFreeDirEntry | kernel/fs.c:200-210 | the first free entry or -1 |
| FileSystem.RamDisk.FsFindFreeFd | kernel/fs.c:216-224 | the first free descriptor or -1 |
| FileSystem.RamDisk.FsCreateFile | kernel/fs.c:262-292 | the byte-array code does what the decoded create does; a null name is refused |
| FileSystem.RamDisk.FsOpen | kernel/fs.c:298-330 | the same for open |
| FileSystem.RamDisk.FsClose | kernel/fs.c:335-343 | the same for close |
| FileSystem.RamDisk.FsRead | kernel/fs.c:349-403 | the same for read; the disk is unchanged and only the bytes delivered are written to the buffer |
| FileSystem.RamDisk.ReadBlocks | kernel/fs.c:375-400 | the copy loop delivers all the bytes asked for inside the file |
| FileSystem.RamDisk.FsWrite | kernel/fs.c:409-462 | the same for write |
| FileSystem.RamDisk.BlockFor | kernel/fs.c:433-440 | the block of a slot, allocated and stored in the inode if there is none |
| FileSystem.RamDisk.WritePass | kernel/fs.c:425-459 | one pass of the loop: allocate, copy, move offset and size |
| FileSystem.RamDisk.FsUnlink | kernel/fs.c:468-501 | the byte-array code does what the decoded unlink does for any file; disk and descriptors stay consistent if and only if no valid descriptor refers to the file |
| FileSystem.RamDisk.SetBlockBit | kernel/fs.c:79-98 | changes one bit of the decoded block bitmap |
| FileSystem.RamDisk.SetInodeBit | kernel/fs.c:79-98 | changes one bit of the decoded inode bitmap |
| FileSystem.RamDisk.SetSize | kernel/fs.c:68-74 | changes one inode's size |
| FileSystem.RamDisk.SetPointer | kernel/fs.c:68-74 | changes one pointer of one inode |
| FileSystem.RamDisk.CopyIn | kernel/fs.c:448-450 | memcpy into a data block changes that stretch of that block |
| FileSystem.RamDisk.CopyOut | kernel/fs.c:394-396 | memcpy out of a data block |
| Shell.CmdCat | kernel/kernel.c:902-926 | cat prints the file's bytes in chunks of 255, each up to its first NUL as vga_puts does, and leaves files and handles as they were; it reports no such file if and only if the name is empty or unknown or every handle is taken |
| Shell.CatLoop | kernel/kernel.c:919-922 | the read loop, with the NUL stored behind each chunk, prints exactly that and stops at the end of the file |
| Shell.CatSession | kernel/kernel.c:909-925 | open, chunked read to the end, close: the file's bytes, and an unchanged system |
| Shell.ShownExactly | README.md:414 | what cat prints is the exact contents, as documented, if and only if no byte of the file is NUL |
| Shell.WriteCommandNulFree | kernel/kernel.c:929-980 | files written by the write command alone stay free of NULs, so cat prints all of what was written |
| Shell.CmdWrite | kernel/kernel.c:929-980 | write splits its argument at the first space, cuts the name to 63 bytes, is the simple sequence open-or-create, write, close, and answers the count of fs_write, or -1 if it does not get there |
| Shell.ArgumentsAre | kernel/kernel.c:936-962 | the name argument is what stands before the first space, or its first 63 bytes; the text is what stands after the spaces |
| Shell.WriteLine | kernel/kernel.c:929-980 | the command line write, name, spaces, text: that file becomes the accepted prefix of the text followed by the rest of its old bytes, and the number reported is the length of that prefix |
| Shell.CountExact | kernel/kernel.c:964-980 | the number reported, for every state: -1 if no handle is free or the file cannot be made, otherwise how much was accepted |
| Shell.ShownChunks | kernel/kernel.c:917-922 | cat prints 255 bytes at a time, each chunk up to its first NUL |
| Shell.WriteCommandExact | kernel/kernel.c:964-973 | given a free handle and room for the file, the first bytes of the file become the accepted text and no handle stays open |
| Shell.AppendsExactly | README.md:413 | the write command on an existing file appends, as documented, if and only if the text is empty, or the file is empty, a handle is free and the text fits the size limit and the free blocks |
| Shell.CreatesExactly | README.md:413 | on a file that does not exist the command leaves exactly the text if and only if the name is good, an entry is free, and the text is empty or there is a handle and room |
| Shell.SecondWriteOverwrites | kernel/kernel.c:964-973 | one input where it does not append: after formatting, write a x and then write a y leave y |
| Pmm.FrameAllocator.Init | kernel/pmm.c:43-120 | for every memory map, after pmm_init a frame is clear if and only if it is from 256 to 32767 and inside some type-1 entry as far as the 64-bit end of that entry tells, overlaps counted once, with both counters to match |
| Pmm.FrameAllocator.MarkEntry | kernel/pmm.c:57-94 | one entry clears exactly the frames wholly inside it, with rounding, the 4 GB clamp and the bitmap limit |
| Pmm.WrapExactly | kernel/pmm.c:63-64 | the 64-bit end is right for every frame if and only if the entry is not usable, its end does not wrap, or it starts above the last frame; a usable entry that wraps frees nothing |
| Pmm.UsableContained | kernel/pmm.c:43-120 | when no usable entry wraps, a frame is free if and only if it is from 256 to 32767 and lies wholly in some type-1 entry |
| Pmm.RoundedRange | kernel/pmm.c:71-83 | rounding the start up, the end down, and both clamps give exactly the frames inside |
| Pmm.FrameAllocator.ReserveLow | kernel/pmm.c:96-113 | the first megabyte is taken out of the bitmap and the count |
| Pmm.FrameAllocator.AllocFrame | kernel/pmm.c:122-137 | the scan does what Alloc says |
| Pmm.FrameAllocator.FreeFrame | kernel/pmm.c:139-162 | the checks and the bit do what Free says |
| Pmm.FrameAllocator.SelfTest | kernel/kernel.c:841-872 | the meminfo self-test leaves the allocator as it was and passes from every consistent state, also when fewer than 100 frames are left |
| Pmm.InitialFrames | kernel/pmm.c:43-120 | 128 MB in frames of 4 KB; a frame is clear if and only if it is from 256 on and inside an entry of type 1 by its 64-bit end |
| Pmm.FreeExactly | kernel/pmm.c:139-162 | freeing address 0, a misaligned one, one from 128 MB on, or a clear frame changes nothing; any other frees its frame and takes one off the counter, not below 0 |
| Pmm.InitialInv | kernel/pmm.c:43-120 | the initial state satisfies the bookkeeping invariant |
| Pmm.AllocLowest | kernel/pmm.c:122-137 | allocation returns the lowest free frame, between 1 MB and 128 MB, and 0 if and only if none is free |
| Pmm.FreeKeepsExactly | kernel/pmm.c:139-162 | freeing keeps the bookkeeping if and only if the address is rejected or names a usable frame |
| Pmm.ServeInv | kernel/pmm.c:122-162 | one request keeps held = marked, and never hands out a held frame |
| Pmm.EveryRun | kernel/pmm.c:43-181 | over every run total - used equals the number of clear bits, and no frame has two holders |
| Pmm.AllocManyTaken | kernel/pmm.c:122-137 | k allocations take min(k, free) distinct frames |
| Pmm.FreeManyRestores | kernel/pmm.c:139-162 | freeing exactly what was taken restores the whole state |
| Pmm.AllocFreeAnyOrder | kernel/pmm.c:122-162 | allocating any number of frames and freeing them in any order restores bitmap and counters |
| Sched.ScanNearest | kernel/scheduler.c:296-361 | a scan around the ring stops at the nearest ready entry ahead |
| Sched.NextNullIff | kernel/scheduler.c:296-361 | the scan answers null if and only if no entry is ready |
| Sched.CreateThreadTables | kernel/scheduler.c:231-252 | the thread ring holds every created thread once, in creation order, after one more is added; a full table adds none |
| Sched.CreateProcessTables | kernel/scheduler.c:205-226 | the same for the process ring |
| Sched.CreatedThread | kernel/thread.c:93-167 | thread_create fills the first unused slot: READY, next TID, owned by the current process; it fails if and only if 32 exist, and touches nothing else but the last entry's link |
| Sched.CreatedProcess | kernel/process.c:44-100 | proc_create likewise: READY, next PID, no ticks yet; it fails if and only if 16 exist |
| Sched.IrqCharges | kernel/scheduler.c:368-381 | every interrupt is counted once and charged to exactly the process it interrupts |
| Sched.IrqTables | kernel/scheduler.c:363-469 | an interrupt keeps both rings, both tables and the current pointers in range |
| Sched.ContinueIff | kernel/scheduler.c:464-468 | the choice falls through if and only if nothing is READY |
| Sched.FallbackIff | kernel/scheduler.c:464-468 | the old context simply goes on, with nothing RUNNING, if and only if nothing is READY or RUNNING: exactly then a BLOCKED or TERMINATED thread would be resumed |
| Sched.IrqStates | kernel/scheduler.c:363-469 | while PID 1 can run, an interrupt leaves exactly the chosen context RUNNING, with all current pointers on it; the chosen one was READY, the old one is READY unless it had left RUNNING, every other state stays |
| Sched.ProcFindSlot | kernel/process.c:102-112 | PID p is found in slot p - 1 if it was created, PID 0 in the first unused slot, and nothing else |
| Sched.KillReportsExactly | kernel/process.c:145-182 | proc_kill answers 1 if and only if it killed a process, for every PID but 0 while a slot is unused: there it answers 1 and touches no process |
| Sched.ThreadPicked | kernel/scheduler.c:330-413 | the turn passes at every interrupt, and the other kind runs only if nothing of the preferred kind can; the thread picked is the first that can run in slot order, from slot 0 while none has run, from the slot after the current one otherwise |
| Sched.ProcessPicked | kernel/scheduler.c:296-413 | the same for processes |
| Sched.StartedAs | kernel/scheduler.c:279-290 | after start-up the shell is the one process, READY, no thread exists, nothing runs, and the first turn is a process's |
| Sched.BlockAndWake | kernel/scheduler.c:257-276 | a wake-up makes a BLOCKED thread READY and changes nothing otherwise |
| KernelCore.Core.AddThread | kernel/scheduler.c:231-252 | walks the ring and links the new entry behind the last |
| KernelCore.Core.AddProcess | kernel/scheduler.c:205-226 | the same for processes |
| KernelCore.Core.FindNext | kernel/scheduler.c:330-361 | the do-while scan finds what Next specifies; Sched.ThreadPicked says which thread that is |
| KernelCore.Core.FindNextP | kernel/scheduler.c:296-327 | the same for processes |
| KernelCore.Core.SaveCurrent | kernel/scheduler.c:370-391 | the saved stack pointer and the READY state go to the interrupted context |
| KernelCore.Core.PickNext | kernel/scheduler.c:394-413 | threads and processes alternate by prefer_thread |
| KernelCore.Core.SwitchTo | kernel/scheduler.c:415-469 | the chosen entry becomes RUNNING and current, or the old context goes on |
| KernelCore.Core.SchedulerIrq | kernel/scheduler.c:363-469 | scheduler_irq changes the tables exactly as Irq says and returns its stack pointer |
| KernelCore.Core.BlockThread | kernel/scheduler.c:257-264 | marks a thread BLOCKED |
| KernelCore.Core.UnblockThread | kernel/scheduler.c:267-276 | makes a BLOCKED thread READY and no other |
| KernelCore.Core.FindFreeThread | kernel/thread.c:29-44 | the first UNUSED slot |
| KernelCore.Core.ThreadCreate | kernel/thread.c:93-167 | the new thread is READY, owned by the current process, and last in the ring; a null entry or a full table creates none |
| KernelCore.Core.ThreadExit | kernel/thread.c:188-201 | thread_exit does what ExitThread says and yields; Safety.OnlyExitKills and Safety.ExitedNeverRuns say what that means |
| KernelCore.Core.FindFreePcb | kernel/process.c:14-24 | the first slot with PID 0 |
| KernelCore.Core.ProcCreate | kernel/process.c:44-100 | the new process is READY with the next PID, last in the ring |
| KernelCore.Core.FindProcess | kernel/process.c:102-112 | the first slot with the PID |
| KernelCore.Core.ProcKill | kernel/process.c:156-182 | for every PID: 1 is refused, an unknown one answers 0, any other process becomes ZOMBIE, and the caller yields if it killed its own process |
| KernelCore.Core.ProcExit | kernel/process.c:122-130 | the current process is ZOMBIE and the CPU goes on |
| KernelCore.Core.ThreadInit | kernel/thread.c:50-69 | every slot unused, no wait link |
| KernelCore.Core.ProcInit | kernel/process.c:26-42 | every PCB free |
| KernelCore.Core.BootShell | kernel/kernel.c:1171-1187 | start-up gives the shell PID 1 |
| Sync.LockOk | kernel/mutex.c:29-82 | lock keeps: locked if and only if owned, waiters only while locked, the owner never queued, nobody queued twice; the caller owns the mutex or blocks |
| Sync.UnlockOk | kernel/mutex.c:84-131 | unlock by the owner hands the mutex to the queue's head or frees it; by anyone else it changes nothing |
| Sync.WaitOk | kernel/semaphore.c:28-70 | wait keeps value at least 0 and positive only with an empty queue; only a caller that blocks is enqueued |
| Sync.SignalOk | kernel/semaphore.c:76-106 | signal wakes the head of the queue, or counts up when nobody waits |
| KernelSync.ChainUnique | kernel/mutex.c:59-75 | the links wait_next from the head spell one finite queue of distinct threads, ending at wait_tail |
| KernelSync.PushChain | kernel/mutex.c:59-70 | appending behind wait_tail makes the chain of the longer queue |
| KernelSync.PopChain | kernel/mutex.c:112-122 | taking wait_head off leaves the chain of the rest, with a null tail when it is empty |
| KernelSync.MutexObject.Init | kernel/mutex.c:17-27 | a free mutex with no waiter |
| KernelSync.MutexObject.Lock | kernel/mutex.c:29-82 | mutex_lock on the linked structures does what Lock says, blocks and yields exactly then, and writes no wait_next outside its queue |
| KernelSync.MutexObject.Unlock | kernel/mutex.c:84-131 | mutex_unlock does what Unlock says and makes exactly the thread handed the mutex READY |
| KernelSync.SemObject.Init | kernel/semaphore.c:17-26 | the value given and no waiter |
| KernelSync.SemObject.Wait | kernel/semaphore.c:28-70 | sem_wait on the linked structures |
| KernelSync.SemObject.Signal | kernel/semaphore.c:76-106 | sem_signal on the linked structures |
| System.StepInv | kernel/scheduler.c:257-469 | every enabled event of the whole system (tick, lock, unlock, wait, signal, creation, exit, kill, initialisation) keeps the whole invariant |
| System.InitialInv | kernel/kernel.c:1171-1187 | what kernel_main sets up satisfies it |
| System.LockQueue | kernel/mutex.c:29-82 | after a lock a thread is BLOCKED if and only if it is queued, and whoever is past lock owns the mutex |
| System.UnlockQueue | kernel/mutex.c:84-131 | the same after an unlock with or without hand-off |
| System.WaitQueue | kernel/semaphore.c:28-70 | the same after a wait |
| System.SignalQueue | kernel/semaphore.c:76-106 | the same after a signal |
| KernelObject.Kern.constructor | kernel/kernel.c:1171-1187 | the objects of a freshly started kernel are the initial state of the transition system |
| KernelObject.Kern.Lock | kernel/mutex.c:29-82 | mutex_lock by the running context, with every other queue's chain intact, is the event CallLock |
| KernelObject.Kern.Unlock | kernel/mutex.c:84-131 | mutex_unlock is the event CallUnlock |
| KernelObject.Kern.Wait | kernel/semaphore.c:28-70 | sem_wait is the event CallWait |
| KernelObject.Kern.Signal | kernel/semaphore.c:76-106 | sem_signal is the event CallSignal |
| KernelObject.Kern.InitMutexObject | kernel/mutex.c:17-27 | mutex_init while nobody waits |
| KernelObject.Kern.InitSemObject | kernel/semaphore.c:17-26 | sem_init while nobody waits |
| KernelObject.Kern.TimerTick | kernel/scheduler.c:363-469 | the timer interrupt is the event Tick |
| KernelObject.Kern.CreateThread | kernel/thread.c:93-167 | thread_create is the event NewThread; it answers the new READY entry, or null if and only if the entry point is null or 32 threads exist, and then changes nothing |
| KernelObject.Kern.ExitThread | kernel/thread.c:188-201 | thread_exit is the event ThreadExits |
| KernelObject.Kern.CreateProcess | kernel/process.c:44-100 | proc_create is the event NewProcess; it answers the new READY entry, or null if and only if 16 processes exist |
| KernelObject.Kern.Kill | kernel/process.c:156-182 | proc_kill is the event KillProcess; its result is -1 for PID 1, 1 for a created PID and for PID 0 while a slot is unused, 0 otherwise |
| KernelObject.Kern.ExitProcess | kernel/process.c:122-130 | proc_exit is the event ProcessExits |
| KernelObject.DisjointQueues | kernel/mutex.c:59-75 | no thread stands in two queues, of whatever mutexes and semaphores |
| Safety.StepMoves | kernel/scheduler.c:363-469 | every step moves every thread and process along an edge of its state machine; ZOMBIE and TERMINATED are never left, BLOCKED only becomes READY |
| Safety.DeadStayDead | kernel/thread.c:188-201 | over every run a TERMINATED thread and a ZOMBIE process stay so |
| Safety.WokenIff | kernel/mutex.c:112-130 | a blocked thread is woken if and only if the owner unlocks the mutex it waits for, or its semaphore is signalled, and it is first in that queue |
| Safety.MutualExclusion | kernel/mutex.c:29-131 | over every run of the whole system, of the threads that have called mutex_lock and not mutex_unlock since, whatever else they called in between, exactly the owner is past the lock, and all others are BLOCKED in its queue; locked if and only if owned |
| Safety.CallersStep | kernel/mutex.c:29-131 | every event keeps: those callers are the owner and the queue |
| Safety.OnlyExitKills | kernel/thread.c:188-201 | a thread is TERMINATED after an event if and only if it was before or it is the caller of thread_exit |
| Safety.ExitedNeverRuns | kernel/thread.c:188-201 | over every run that goes on from its thread_exit, the thread is TERMINATED and never the current context again |
| Safety.OnlyKillBuries | kernel/process.c:115-182 | a process is ZOMBIE after an event if and only if it was before, or it is the caller of proc_exit, or proc_kill names it and it is not PID 1 |
| Safety.KilledNeverRuns | kernel/process.c:115-182 | over every run that goes on from there it is never the current context again |
| Safety.YieldsExactly | kernel/mutex.c:29-82 | a call gives the CPU away if and only if it is a lock of a mutex another thread owns, a wait at value 0, an exit, or a kill of the caller's own process |
| Safety.MutexAfter | kernel/mutex.c:17-131 | in any event of the whole system: a free mutex goes to its locker, its owner may lock again, others queue at the end; its owner's unlock hands it to the first in the queue or frees it; nothing else moves it |
| Safety.SemAfter | kernel/semaphore.c:17-106 | in any event: a wait takes one from a positive value or queues at the end; a signal releases the first or adds one; nothing else moves it |
| Safety.OwnerKeepsMutex | kernel/mutex.c:84-100 | no event but the owner's own unlock or a new initialisation ends ownership, and meanwhile the queue only grows |
| Safety.MutexFirstComeFirstServed | kernel/mutex.c:59-131 | over every run the grants repeat the requests in order, the owner is the last one granted, and the rest of the requests is the queue |
| Safety.SemaphoreConservation | kernel/semaphore.c:28-106 | over every run value = initial value + signals - grants, at least 0, positive only with nobody waiting, and grants repeat the requests in order |
| Safety.BlockedIffQueuedOnce | kernel/mutex.c:59-75 | across all mutexes and semaphores a thread is BLOCKED if and only if it stands in exactly one queue exactly once |
| Safety.ExactlyOneRunning | kernel/scheduler.c:415-462 | after the first tick exactly one context is RUNNING, the current pointers name it, and PID 1 is READY or RUNNING |
| Fairness.ThreadDispatchedInTime | kernel/scheduler.c:330-469 | a thread that stays READY sees fewer than 2 * 32 calls of scheduler_irq before it is dispatched, whatever is created, blocked or killed meanwhile |
| Fairness.ProcessDispatchedInTime | kernel/scheduler.c:296-469 | a process that stays READY, fewer than 2 * 16 |
| Fairness.DelayPaid | kernel/scheduler.c:363-469 | a thread that stays runnable, and loses the CPU only after it has worked, pays for every interrupt out of a delay of at most 65, whatever else happens |
| Fairness.StepSwitches | kernel/scheduler.c:363-469 | an event takes at most one interrupt, and a thread starts to run only by one |
| Fairness.IrqCloser | kernel/scheduler.c:391-413 | each interrupt that leaves an entry READY lowers its potential: ring distance plus free slots, twice, plus the turn |
| Fairness.StepPaid | kernel/scheduler.c:205-469 | every step of the whole system pays for its interrupts out of the potential, new ring entries included |
| Machine.SaveFrame | boot/switch.asm:11-13 | interrupt and pushad leave, below the old stack pointer, a frame that restores exactly the context interrupted, and touch nothing else |
| Machine.EnterMasks | boot/switch.asm:11-32 | the gate clears the interrupt flag and no other, and iretd brings it back |
| Machine.RestoreFrame | boot/switch.asm:28-32 | popad and iretd on such a frame give back that context |
| Machine.CallSeesFrame | boot/switch.asm:15-22 | scheduler_irq reads the address of the frame as its argument and its result is the stack switched to |
| Switching.IrqStacks | kernel/scheduler.c:370-469 | scheduler_irq records the interrupted stack pointer with the context it belongs to, leaves the others alone, and returns the recorded one of the context it picks |
| Switching.StubEffect | boot/switch.asm:11-32 | one run of the stub: what memory may differ, and which context is restored |
| Switching.SwitchResumes | boot/switch.asm:11-32 | the context the CPU goes on with has exactly the registers, stack pointer, EIP, CS, EFLAGS and stack words it was suspended with |
| Switching.AdvanceOk | boot/switch.asm:11-32 | computation, interrupts, kernel calls and creation keep every suspended context resumable |
| Switching.SwitchTransparent | boot/switch.asm:11-32 | over every run: interrupted, then any steps of other contexts, then resumed - with the same CPU and the same stack |
| Switching.BootOk | kernel/kernel.c:1167-1187 | the machine kernel_main starts on satisfies the invariant |
| Switching.EveryRunTransparent | boot/switch.asm:11-32 | the same over every run from boot, whatever is created, switched and resumed before and after |
| Switching.ThreadFrameStarts | kernel/thread.c:123-159 | the frame thread_create writes starts fn with cleared registers and the interrupt flag set, with thread_return and the argument on the stack |
| Switching.ProcessFrameStarts | kernel/process.c:64-89 | the frame proc_create writes starts the entry on an empty stack, with the interrupt flag set |
| Switching.ThreadStartsAtEntry | kernel/thread.c:123-159 | whatever runs in between, the first resume of a new thread is at its entry, on its own 4 KB stack, with zero registers, CS 0x08 and EFLAGS 0x202, interrupts on, thread_return and its argument above |
| Switching.ProcessStartsAtEntry | kernel/process.c:64-89 | the first resume of a new process is at its entry on its own empty 4 KB stack, with zero registers, CS 0x08 and EFLAGS 0x202, interrupts on |
| SystemContexts.EventIsMoves | kernel/scheduler.c:205-469 | every event of the whole system, creations included, is on the machine an allowed sequence of moves that leaves the same kernel: computation, a change no context notices, at most one interrupt, or a new context |
| SystemContexts.SystemRunMade | kernel/scheduler.c:205-469 | every run of the whole system whose stack pointers are the machine's is a run of the machine, with the same kernel at its end |
| SystemContexts.SystemFromBoot | kernel/kernel.c:1167-1187 | from boot and the creation of the shell on, such a run is a run of the machine from boot |
| Processor.I386.Interrupt | boot/switch.asm:11-11 | the gate's three pushes |
| Processor.I386.Pushad | boot/switch.asm:13-13 | the eight pushes |
| Processor.I386.Popad | boot/switch.asm:29-29 | the eight loads, ESP skipped |
| Processor.I386.Iretd | boot/switch.asm:32-32 | EIP, CS, EFLAGS |
| Processor.I386.CallSchedulerIrq | boot/switch.asm:16-18 | push esp, call, add esp 4, on the real tables |
| Processor.I386.Irq0Stub | boot/switch.asm:11-32 | the whole stub, registers, memory and kernel tables, is Stub |
| Processor.I386.CreateThread | kernel/thread.c:93-167 | stack words written through a falling pointer, then the table entry; the frame left restores the entry point with EFLAGS 0x202, and a null entry point or a full table writes nothing |
| Processor.I386.CreateProcess | kernel/process.c:44-100 | the same for a process |
| Counter.MutexCounts | kernel/kernel.c:488-517 | for any number of mutex_thread threads and iterations, in every interleaving: one thread at most is between lock and unlock, the counter is the increments made, no deadlock, and the end is threads * iterations exactly |
| Counter.StepInv | kernel/kernel.c:494-512 | each statement keeps that and leaves one statement less |
| Counter.SomeoneCanStep | kernel/kernel.c:488-517 | until all have finished some thread can go on |
| Race.RaceBounds | kernel/kernel.c:455-480 | without the mutex every finished run of at least one thread and two iterations ends between 2 and threads * iterations |
| Race.RaceBoundsReached | kernel/kernel.c:455-480 | both bounds are reached by some schedule, for any two or more threads |
| Race.MoveInv | kernel/kernel.c:461-475 | one read or write keeps the reason for the bounds |
| ProdCons.BufferSafe | kernel/kernel.c:603-654 | for any producers, consumers, quotas and buffer size, in every interleaving: 0 <= buffer_count <= size, every index in bounds, one thread inside, inserted = buffered + consumed |
| ProdCons.AllConsumed | kernel/kernel.c:603-654 | with a slot and as many items to consume as to produce, a run that cannot go on is finished, its length is fixed in advance, buffer_count is 0 and what was consumed is what was produced |
| ProdCons.LastInFirstOut | kernel/kernel.c:608-641 | over every run, in every interleaving, buffer[0..buffer_count] is the stack of the items counted and not yet taken, and each consumer takes the one on top |
| ProdCons.StackStep | kernel/kernel.c:613-641 | each statement moves that stack as it should |
| ProdCons.ItemsExactly | kernel/kernel.c:615-615 | the items of producer id are id * 100, id * 100 + 1, and so on, once each |
| ProdCons.SemDemoEnds | kernel/kernel.c:656-711 | cmd_semdemo, two producers of five, one consumer of ten, a buffer of four: in every interleaving the threads end after exactly 140 steps, with 100 to 104 and 200 to 204 consumed once each and buffer_count 0 |
| ProdCons.SomeoneCanStep | kernel/kernel.c:603-654 | no deadlock |
| ProdCons.StepInv | kernel/kernel.c:608-647 | each statement keeps the token counts and the contents, and leaves one statement less |
| ProdCons.CountInRange | kernel/kernel.c:613-641 | holding a slot token means a free slot, holding an item token means a counted item |
| ProdCons.ProducedStep | kernel/kernel.c:613-616 | what is inserted is exactly the producers' items so far |
| Demo.KernelRunIsProgramRun | kernel/kernel.c:656-711 | with ticks, other threads and processes around them, the workers' statements in any run of the whole system are a run of ProdCons |
| Demo.RunningCanStep | kernel/kernel.c:603-654 | the kernel never runs a worker that waits |
| Demo.WorkerStepCoupled | kernel/kernel.c:603-654 | a worker's statement moves kernel and program together |
| Demo.AroundCoupled | kernel/kernel.c:656-711 | nothing else disturbs the workers' semaphores, wakes, blocks or kills a worker |
| Demo.DemoStarts | kernel/kernel.c:660-678 | sem_init and thread_create couple them: three fresh semaphores, all worker threads READY |
| Demo.SomeWorkerRunnable | kernel/kernel.c:603-654 | no deadlock in the kernel: while workers are unfinished, the thread of one that can step is READY or RUNNING |
| Demo.ProgressPaid | kernel/kernel.c:656-711 | the statements still to execute pay for every interrupt until all workers have finished |
| Demo.DemoResult | kernel/kernel.c:656-711 | in every run of the whole system the buffer is within bounds and holds what the producers made, and once the workers have finished it is empty and everything is consumed |
| Demo.DemoCompletes | kernel/kernel.c:656-711 | if no worker loses the CPU before it has executed a statement, then 66 interrupts for each statement, and 66 more, bring all workers to their end, with buffer_count 0 and consumed = produced |
| MutexDemo.KernelRunIsProgramRun | kernel/kernel.c:519-597 | the statements of the mutex_thread threads in any run of the whole system are a run of Counter |
| MutexDemo.WorkerStepCoupled | kernel/kernel.c:488-517 | a statement of mutex_thread moves kernel and program together |
| MutexDemo.AroundCoupled | kernel/kernel.c:519-597 | nothing else disturbs the demo's mutex, wakes, blocks or kills a worker |
| MutexDemo.DemoStarts | kernel/kernel.c:524-548 | mutex_init and thread_create couple them |
| MutexDemo.SomeWorkerRunnable | kernel/kernel.c:488-517 | no deadlock in the kernel: some unfinished worker's thread is READY or RUNNING |
| MutexDemo.MutexDemoCompletes | kernel/kernel.c:488-597 | in every run of the whole system one worker at most is between lock and unlock and the counter is the increments made; with time for a statement per dispatch, it is threads * iterations after 66 interrupts for each statement and 66 more |

## Left out

- Screen output, keyboard, splash, help and shell dispatch, `fs_list_dir`, `fs_print_stats`, `proc_list`,
  `thread_list` and number parsing: user interface.
- Interrupt, timer and interrupt-controller programming, the boot loader, segment tables and the linker layout:
  hardware set-up. The memory map is an input; where the linker puts the stacks is a parameter.
- Preemption inside a lock, unlock, wait or signal body or inside a queue insertion: see the assumptions.
- What descriptors that outlive their file do, and what follows after a frame that was never usable is freed: the
  exact conditions that exclude both are proved.
- 32-bit wrap-around of tick counters, PIDs, thread IDs and a semaphore's value, and of stack words in the stack
  machine: they are natural numbers or integers here. File-system fields and the frame allocator keep their widths.
- Process names, thread entry and argument as table fields: they are kept only in the initial stack frames.
- The counters `race_done`, `mutex_done` and `sem_done`, which only the shell polls; the end of a program is here
  the end of all its threads.
- Time: fairness and completion are bounds on interrupts, and that interrupts go on coming is the hardware's part.
- Machine.CallSeesFrame: the C code of scheduler_irq runs as one step with arbitrary scratch below its return address,
  because its own instructions are compiler output.
