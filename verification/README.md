# A verified model of the kernel's middle layer

This project models the part of the kernel that keeps state between calls: the block allocator,
the core file system with its entries in allocator runs, the cooperative scheduler with its context
switch, the descriptor calls, the tar mount, the program loader, the text console, and the string
routines they use. Physical memory is one array of 2^32 bytes. The allocator's pool, context
records, process stacks, file headers and contents, path buffers, mounted archives and program
images all lie in it, and each layer's invariant is what the next layer builds on.

| file | component |
|---|---|
| `Bytes.dfy` | memory, little-endian words, `fill` and `ncopy` with its overlapping behaviour |
| `Memory.dfy` | first-fit allocator: table as a set of runs, histories of calls, the class `Heap` |
| `Switch.dfy` | `multitask_swi` instruction by instruction |
| `Schedule.dfy` | spawn, kill, sentry, yield and exit as functions of the scheduler's state; fairness, ownership, strays |
| `Isolation.dfy` | runs of the whole machine, and what a resumed process finds |
| `Multitask.dfy` | the scheduler over memory, allocator and switch |
| `Paths.dfy` | `split`, canonical paths and their ancestors |
| `FsSpec.dfy` | the file system as a table of names, and why that table is a tree |
| `Headers.dfy`, `Store.dfy` | entry headers at their offsets; entries as allocator runs that move |
| `CoreFs.dfy` | the core file system call by call, over the heap |
| `MountMgr.dfy`, `TarFs.dfy` | mount slots; the walk over a tar archive |
| `Streams.dfy`, `IoCall.dfy`, `Sessions.dfy` | files and devices as streams; `open`, `read` and `write`; whole sessions of calls |
| `Mouse.dfy` | the mouse driver and the kernel's poll over those calls |
| `Loader.dfy`, `Exec.dfy` | ELF images; starting a program beside the file system |
| `Coexist.dfy` | one scheduler call beside the files, one file call beside the stacks |
| `System.dfy` | runs of everything together: what files, archives and stacks keep |
| `Kernel.dfy`, `Devices.dfy` | the system as one object: how it comes up, its calls, its devices |
| `Console.dfy` | the screen as a window on an endless page |
| `Text.dfy` | numbers as text, bounded formatting |

State is kept in classes whose methods follow the C functions; what a method does is stated by a
function or predicate on values, and the properties are lemmas about those. The main results:

* a process that is switched out and later resumed finds every register as its own call left it,
  over every run of the machine (`Isolation.ResumesAsLeft`), because the 60 instructions of the
  switch swap two records and touch almost nothing else (`Switch.Cpu.MultitaskSwi`);
* over every run of processes, scheduler calls, file calls and program starts, whoever kills and
  spawns whom, the heap stays a consistent file system off every stack in use, untouched files keep
  their contents and archives their bytes (`System.FilesOutlast`, `System.ArchivesOutlast`), and the
  system starts in that state exactly when the pool has at least 36 blocks, with its devices exactly
  when it has at least 41 (`Kernel.Boot`, `Devices.Startup`);
* the allocator's blocks stay partitioned into runs over every history of calls, and `free` of any
  address is harmless (`Memory.HistoryKeepsRuns`, `Memory.FreeExact`);
* the flat table of path names is a tree after every run of file operations (`FsSpec.RunKeepsTree`),
  and the heap-backed store refines the table although entries move on every rewrite
  (`CoreFs.CoreFs.WriteFile`);
* mounting what a tar encoder wrote yields exactly its entries, their bytes read back, and what was
  there under other names stays (`TarFs.TarFs.Mount`, `TarFs.ReadsBack`, `TarFs.OthersSurvive`);
* what is written is what is read back after reopening, device buffers are bounded queues however
  calls on other files come in between, and mouse packets stay whole (`Sessions.WrittenIsReadBack`,
  `Sessions.DeviceSession`, `Sessions.PacketSession`);
* a program image holds, byte for byte, the last segment over each address, and a failed start gives
  its memory back (`Exec.Exec.Run`, `Loader.PaintByte`);
* every process that stays runnable gets the processor once a round (`Schedule.OneTurnEach`);
* what a call answers is stated by conditions a caller can check before it: when `spawn` and `exec`
  make a process and when `yield` finds one (`Schedule.SpawnsIff`, `Exec.Exec.Run`,
  `Schedule.NextIsSuccessor`), each code of the file calls (`FsSpec.CreateDirAnswer`,
  `FsSpec.WriteFileAnswer`, `FsSpec.RemoveAnswer`, `FsSpec.BulkRemoveAnswer`), and how many bytes a
  read or a write moves (`IoCall.IoCall.Read`, `IoCall.IoCall.Write`).

Where the code does not do what its documentation says, the model follows the code, and a lemma
says exactly when the promise holds:

* `malloc` of a size within 4095 of 2^32 asks for 0 blocks and clears the first block's count
  (`Memory.MallocKeepsWellFormedIff`, `Memory.MallocWrapLosesARun`);
* `fs_createDir` refuses a directory when some file name merely begins with its slash-less name
  (`FsSpec.RefusedAsFileIff`, `FsSpec.RefusedWithoutCause`);
* a process that kills itself and then spawns, with every lower slot in use, is handed its own slot,
  and the program it spawned never runs: the newcomer's first turn has the spawner's registers
  (`Schedule.TakesOwnSlotIff`, `Isolation.StartsAsSpawner`, `Isolation.StartsAtProgramIff`). The
  spawner's return is lost as well when whoever switches to it runs on the same stack and the frame of
  that switch lies over the return address: the switch then returns to a word of its own frame
  (`Switch.ReturnsRightIff`, `Switch.ReturnLost`);
* a process that kills itself goes on running on a stack that is free memory. What it makes next, a
  file's entry or a program's image, is laid over that stack exactly when first fit comes to it, for
  one block exactly when none below is free (`Coexist.AddedMooredIff`, `Coexist.HandedOwnBlockIff`,
  `System.DeadCallerIff`). `Kernel.Kernel.WriteFile`, `Kernel.Kernel.Run` and their like therefore ask
  for stacks that the allocator counts as in use, as they are, where no slot has been taken over, for
  every caller that has not killed itself (`Kernel.Kernel.SoundSafe`);
* `fs_writeFile` does not check the length of the path; the file is found again exactly when the path
  has at most 3840 characters, and longer ones run over the rest of the header
  (`Headers.NameKeptIff`, `Headers.LongNameSpills`);
* the text of INT_MIN does not read back (`Text.RoundTripIff`; signed overflow is taken to wrap);
* a program starts at its entry point only when its lowest page is page 0 (`Loader.EntryRightIff`);
* `fs_bulkRemove("/")` removes the root as well, which the tree invariant survives; rewriting a
  mounted file leaves it mounted, so reads still yield the mounted bytes (`FsSpec.Rewritten`);
* `open` always empties the descriptor table, as its flag for having done so is never set, so only
  descriptor 3 is ever in use, and `O_APPEND` has no effect on `write` (`IoCall.IoCall.Open`).

Preconditions state what the code takes for granted: block counts no larger than the pool, paths
shorter than the name field in `fs_writeFile`, and canonical names wherever the tree is promised
(`Paths.CanonicalNames` says which those are).
Clock readings are arguments. A panic is a result. The entry table, the listing buffer, the path
buffer, the process vector without its context records and the mount table are arrays of their own;
the runs that back them are taken from the allocator, never released, and not otherwise written.

## Model

| member | source | states |
|---|---|---|
| `Bytes.Ncopy` | source/kernel/utils.c:291-298 | an ascending byte copy, overlaps included: each target byte is what the source address holds at that step, already overwritten bytes read back in their new value; nothing else changes |
| `Bytes.CopiedPrefix` | source/kernel/utils.c:291-298 | disjoint ranges, and downward shifts of overlapping ones, arrive unchanged |
| `Bytes.Fill` | source/kernel/utils.c:255-261 | exactly the range is set to the byte |
| `Memory.RunsDisjoint` | source/kernel/memory.c:47-66 | in a partitioned table no block lies in two runs |
| `Memory.RunsDetermine` | source/kernel/memory.c:47-66 | the runs and their lengths determine every cell of the table |
| `Memory.MallocAdds` | source/kernel/memory.c:30-66 | `malloc` fails exactly for size 0 or when there is no gap of ceil(size/4096) blocks; otherwise it adds one run of exactly that length, keeps every other run, and `free` of the result gives the table back cell for cell |
| `Memory.BothServedIff` | source/kernel/memory.c:30-66 | two requests in a row are served exactly when the second finds a gap beside the lowest gap for the first |
| `Memory.FirstFit` | source/kernel/memory.c:36-46 | the lowest gap of that many free blocks, -1 only if there is none |
| `Memory.MallocKeepsWellFormedIff` | source/kernel/memory.c:33-66 | the partition survives a call exactly when the size does not wrap or block 0 heads no run |
| `Memory.MallocWrapLosesARun` | source/kernel/memory.c:33-66 | a size whose rounding wraps is handed the first block of the pool, whose run length is lost |
| `Memory.FreeExact` | source/kernel/memory.c:99-114 | `free` of any address whatsoever releases exactly the run that starts in the addressed block, or changes nothing |
| `Memory.RunsApart` | source/kernel/memory.c:47-66 | two live runs share no byte |
| `Memory.Conservation` | source/kernel/memory.c:119-126 | free blocks and the lengths of all runs add up to the pool |
| `Memory.ServeWellFormed` | source/kernel/memory.c:30-114 | each call keeps the partition and every run it does not give up |
| `Memory.HistoryKeepsRuns` | source/kernel/memory.c:30-126 | over any history of calls the table stays partitioned, nothing is lost, and a run nobody gives up keeps its place and length |
| `Memory.InitLayout` | source/kernel/memory.c:131-154 | the table and the 4096-aligned pool behind it are disjoint and inside the region; the pool begins within 4096 bytes of the table, and has as many blocks as fit, at 4104 bytes each, into all but the last block of the region |
| `Memory.Heap.Malloc` | source/kernel/memory.c:30-66 | result and table are those of first fit over the old table |
| `Memory.Heap.Calloc` | source/kernel/memory.c:71-79 | the 32-bit product of the sizes is allocated and exactly those bytes are cleared |
| `Memory.Heap.Realloc` | source/kernel/memory.c:84-94 | always relocates: new run, ascending copy of the new size, old run released; on failure nothing changes |
| `Memory.Heap.Free` | source/kernel/memory.c:99-114 | the table after the release |
| `Memory.Heap.Mavail` | source/kernel/memory.c:119-126 | 4096 times the number of free blocks |
| `Memory.Heap.Init` | source/kernel/memory.c:131-154 | an all-free table with the derived block count and pool start, or the panic when the region is too small |
| `Switch.Cpu.SwitchOut` | source/kernel/multitask_swi.s:7-35 | the first half: the outgoing record holds the caller's registers as of its return |
| `Switch.Cpu.SwitchIn` | source/kernel/multitask_swi.s:37-71 | the second half: every register but EIP comes from the incoming record, and EIP is the word that the filled frame and the stored return address leave under the incoming ESP |
| `Switch.Cpu.MultitaskSwi` | source/kernel/multitask_swi.s:6-71 | the whole routine, instruction by instruction, swaps two records: the registers end as the incoming record, the outgoing record as the caller's state with the call returned, and memory changes only in that record, the 40 bytes under ESP, the scratch word and the word under the incoming ESP; where those last two overlap it returns to what its own frame holds there |
| `Switch.ReturnsRightIff` | source/kernel/multitask_swi.s:37-71 | for stack pointers a whole number of words apart the routine returns to the saved EIP exactly when its frame misses the word under the incoming ESP, has the stacked ESP there, or happens to hold the same word |
| `Switch.ReturnLost` | source/kernel/multitask_swi.s:42-68 | with ESP 6032 at the call and 6000 in the incoming record it returns to the saved EBP |
| `Schedule.KillReleasesStack` | source/kernel/multitask.c:209-216 | `kill` clears name and context record of the process, leaves its slot inactive and releases exactly its stack; nothing else changes |
| `Schedule.SpawnsIff` | source/kernel/multitask.c:128-155 | a process is made exactly when the program is not null, some slot is inactive and some block is free; it gets the lowest such slot and the lowest such block as its stack, its name cut to 15 characters, and a cleared record with the program, the end of the stack and the given flags; otherwise nobody comes or goes |
| `Schedule.NextIsSuccessor` | source/kernel/multitask.c:221-237 | behind whoever has the processor, the next is the lowest runnable pid above it, and the kernel when there is none, whatever the sentry has done; the kernel finds nobody exactly when nobody is runnable |
| `Schedule.SpawnOwned` | source/kernel/multitask.c:128-155 | a new process gets a one-block run of its own |
| `Schedule.StepOwned` | source/kernel/multitask.c:89-246 | every scheduler call, a kill of the caller by itself included, keeps stack ownership: live processes have distinct one-block runs of their own and nobody is frozen |
| `Schedule.RunOwned` | source/kernel/multitask.c:89-246 | the same over every run of spawns, kills, yields and exits, whoever is killed |
| `Schedule.StepPasses` | source/kernel/multitask.c:221-237 | the focus moves to the next runnable pid above, or to the kernel when there is none |
| `Schedule.OneTurnEach` | source/kernel/multitask.c:221-237 | between two kernel turns a process that stays runnable has the processor for exactly one unbroken stretch, whatever is spawned and killed meanwhile |
| `Schedule.AscendingTurns` | source/kernel/multitask.c:221-237 | turns come in ascending pid order |
| `Schedule.RoundBounded` | source/kernel/multitask.c:221-237 | a round has at most 31 process turns |
| `Schedule.StrayYieldKills` | source/kernel/multitask.c:89-104 | a process that hands over with its saved ESP outside its stack is killed on the way |
| `Schedule.StrayDies` | source/kernel/multitask.c:89-104 | once the saved ESP of a waiting process has left its stack, the process gets at most one further turn |
| `Schedule.SeatedIff` | source/kernel/multitask.c:209-246 | the processor is with an inactive slot after a call exactly when that call is a process's kill of itself |
| `Schedule.RunSeated` | source/kernel/multitask.c:128-246 | in a run without such a kill whoever has the processor is active, throughout |
| `Schedule.TakesOwnSlotIff` | source/kernel/multitask.c:128-216 | a process that has killed itself and spawns a program gets its own slot back exactly when every lower slot is in use; memory for it is never short |
| `Schedule.OwnSlotLosesProgram` | source/kernel/multitask.c:128-237 | then the new program is lost: the caller's state at its next handover is stored as the new process's |
| `Schedule.OwnSlotExample` | source/kernel/multitask.c:128-237 | the smallest such run: process 1, alone, kills itself, spawns and yields |
| `Isolation.RunIsolated` | source/kernel/multitask.c:128-246 | over any run of work, spawns, kills (of oneself included) and handovers, as long as nobody spawns into the slot he runs in, all stacks stay apart and every waiting record points into its own stack |
| `Isolation.HandoverSpares` | source/kernel/multitask_swi.s:6-71 | a switch between two others leaves the stack of a third process alone |
| `Isolation.ResumesAsLeft` | source/kernel/multitask.c:221-246 | in such a run a process switched out and later resumed finds every register as its own call left it, with the call returned, and its stack unchanged but for the 52 bytes the call used |
| `Isolation.StartsAsSpawned` | source/kernel/multitask.c:128-155 | in any run, takeovers included, a process whose slot was not its spawner's has, on its first turn, the registers that `spawn` put into its record |
| `Isolation.StartsAsSpawner` | source/kernel/multitask.c:128-237 | in any run, a process spawned into its spawner's own slot has instead, on its first turn, its spawner's registers as of the call that gave up the processor; that call returns unless the frame of the switch that enters the process lies over the return address |
| `Isolation.StartsAtProgramIff` | source/kernel/multitask.c:128-237 | so a spawned process starts at its program exactly when its spawner was not running in its slot |
| `Multitask.Multitask.Init` | source/kernel/multitask.c:251-259 | an empty process vector in a run of its own, nothing overlapping, and no byte outside it written; the panic happens exactly when there is no block for it, and then memory and table are unchanged |
| `Multitask.Multitask.Spawn` | source/kernel/multitask.c:128-155 | a process is made exactly when the program is not null, some slot is inactive and some block is free, in the lowest of each; state and pid are those of the scheduler's spawn, and memory changes in one record only |
| `Multitask.Multitask.Kill` | source/kernel/multitask.c:209-216 | state and result are those of the scheduler's kill; memory changes in one record only |
| `Multitask.Multitask.Sentry` | source/kernel/multitask.c:89-116 | a live process lives on exactly when its saved ESP is above its stack's base and at most 4096 bytes above it |
| `Multitask.Multitask.Scan` | source/kernel/multitask.c:221-237 | the lowest runnable pid from there on, 0 for none |
| `Multitask.Multitask.Yield` | source/kernel/multitask.c:221-237 | from any state in which contexts wait in stacks apart from the records, takeovers included: the processor goes to the lowest runnable pid above the caller's, else to the kernel, and the panic happens exactly when the caller is the kernel and nobody is runnable; the whole call, sentry and switch included, is one handover of the machine, and memory changes only in the context records, the 52 bytes under ESP, the scratch word and the word under the incoming ESP |
| `Multitask.Multitask.Exit` | source/kernel/multitask.c:242-246 | from any such state the caller ends dead and the processor goes to the lowest runnable pid above, else to the kernel, with the same bound on what is written |
| `Multitask.RecordWriteIsCall` | source/kernel/multitask.c:128-216 | what spawn and kill write is no part of any stack, so they are calls of the whole machine, whoever is killed, and steps of the runs in which files survive |
| `Paths.SplitSpread` | source/kernel/utils.c:357-385 | `split` returns any list of at most 32 delimiter-free tokens of at most 63 characters, whatever non-empty runs of delimiters join them |
| `Paths.SplitInto` | source/kernel/utils.c:357-385 | the rows of the token table are the pieces, each terminated |
| `Paths.RebuiltAncestors` | source/kernel/corefs.c:156-182 | the prefixes the nested loops rebuild are exactly the proper non-root ancestors of a canonical path |
| `Paths.CanonicalNames` | source/kernel/utils.c:357-385 | the canonical names are exactly those spelled from at most 32 components of at most 63 characters that hold no slash and no NUL, in directory and in file form |
| `FsSpec.Find` | source/kernel/corefs.c:22-29 | the lowest entry of that name, -1 only if there is none |
| `FsSpec.ListingExact` | source/kernel/corefs.c:102-130 | the listing holds exactly the entries whose name starts with the path, ascending |
| `FsSpec.ParentsAreAncestors` | source/kernel/corefs.c:267-293 | the ancestor check passes exactly when every ancestor is a live directory |
| `FsSpec.CreateDirAnswer` | source/kernel/corefs.c:139-204 | the exact answer in a tree: FILEEXISTS if some file name begins with the slash-less name; else ALREADYEXISTS if an entry has the name; else PATHNOTFOUND if an ancestor is no live directory; else OUTOFMEMORY if every slot is in use or there is no room; else the lowest empty slot, and nothing else, takes a directory with these header fields |
| `FsSpec.WriteFileAnswer` | source/kernel/corefs.c:239-318 | likewise: DIREXISTS if a directory has the name and a slash; an existing file fails only for want of room; a new one needs its ancestors, an empty slot and room, and takes the lowest slot with these header fields and the bytes written |
| `FsSpec.RemoveAnswer` | source/kernel/corefs.c:327-355 | likewise: an existing entry goes, and nothing else, unless it is the root or a directory with another name below its own |
| `FsSpec.BulkRemoveAnswer` | source/kernel/corefs.c:364-375 | likewise: an existing directory goes with every entry whose name begins with its own, a file alone; nothing else changes |
| `FsSpec.CreateDirKeepsTree` | source/kernel/corefs.c:139-204 | creating a directory of canonical name keeps the tree |
| `FsSpec.WriteFileKeepsTree` | source/kernel/corefs.c:239-318 | writing a file of canonical name keeps the tree |
| `FsSpec.RemoveKeepsTree` | source/kernel/corefs.c:327-355 | removal by any name keeps the tree |
| `FsSpec.BulkRemoveKeepsTree` | source/kernel/corefs.c:364-375 | bulk removal by any name keeps the tree |
| `FsSpec.RunKeepsTree` | source/kernel/corefs.c:139-375 | the tree survives every run of operations: names distinct, directories are the names that end in a slash, no file beside a directory of its name, every ancestor live |
| `FsSpec.CreateThenRemove` | source/kernel/corefs.c:139-355 | removing the directory just created gives the table back |
| `FsSpec.WriteThenRemove` | source/kernel/corefs.c:239-355 | removing the file just created gives the table back |
| `FsSpec.RefusedAsFileIff` | source/kernel/corefs.c:143-149 | a directory is refused as a file exactly when some file name merely begins with its slash-less name |
| `FsSpec.RefusedWithoutCause` | source/kernel/corefs.c:143-149 | so `/a/` is refused where only the file `/ab` exists |
| `FsSpec.ParentIsLive` | source/kernel/corefs.c:54-59 | with the root in place, the parent of every canonical entry is a live directory |
| `FsSpec.WrittenIsFound` | source/kernel/corefs.c:239-318 | after a successful write of a file that is not mounted, the look-up yields exactly the bytes, owner, permissions, creation time and type of an existing file are kept, and no other entry changes |
| `Store.MoveEntry` | source/kernel/corefs.c:257-265 | a relocated header and new content behind it change one slot of the table, as the specification says |
| `Store.AddEntry` | source/kernel/corefs.c:294-317 | a fresh run becomes one new entry and disturbs no other run |
| `Store.NoLeakScratch` | source/kernel/iocall.c:139-154 | the scratch run of a write comes and goes without leaving a run behind |
| `Store.DropEntry` | source/kernel/corefs.c:340-355 | releasing an entry's run empties one slot and disturbs no other run |
| `Headers.HeaderKept` | source/kernel/corefs.c:257-265 | a store into the fixed part of a header changes only the fields it overlaps |
| `Headers.NameKeptIff` | source/kernel/corefs.c:300-306 | the name copied into a header reads back exactly when it has at most 3840 characters; a longer one reads back cut to 3840 |
| `Headers.LongNameSpills` | source/kernel/corefs.c:300-311 | a name long enough to reach it overwrites the device permissions |
| `CoreFs.CoreFs.Init` | source/kernel/corefs.c:382-402 | just the root, in a run of its own; every run that was live and all memory outside the pool keep place, length and bytes; the panic happens exactly when the allocator cannot serve the four requests in turn |
| `CoreFs.CoreFs.FindEntry` | source/kernel/corefs.c:22-29 | the scan finds the lowest entry of that name |
| `CoreFs.CoreFs.CheckParents` | source/kernel/corefs.c:156-182 | true exactly when every rebuilt prefix names a live directory |
| `CoreFs.CoreFs.CreateDir` | source/kernel/corefs.c:139-204 | status and table are those of the specification, runs of others and memory outside the pool are untouched, no run is left behind, and a refusal leaves the whole store unchanged |
| `CoreFs.CoreFs.WriteFile` | source/kernel/corefs.c:239-318 | status and table are those of the specification, runs of others are untouched, no run is left behind by the relocation, and a refusal, out of memory included, leaves the whole store unchanged |
| `CoreFs.CoreFs.ReadFile` | source/kernel/corefs.c:213-228 | the address where the content of the file lies (its own run, or its mount), and the file's access time stamped; 0 and nothing changed otherwise |
| `CoreFs.CoreFs.Remove` | source/kernel/corefs.c:327-355 | status and table are those of the specification, the entry's run is released and no other |
| `CoreFs.CoreFs.BulkRemove` | source/kernel/corefs.c:364-375 | status and table are those of the specification; the runs of all removed entries are released and no others |
| `CoreFs.CoreFs.ReadDir` | source/kernel/corefs.c:102-130 | the listing in the buffer, closed by end marks; the root is listed even when it was removed |
| `CoreFs.CoreFs.Parent` | source/kernel/corefs.c:54-59 | the entry of the parent path, if there is one: the name up to its last slash before the final character |
| `CoreFs.CoreFs.Stat` | source/kernel/corefs.c:38-45 | the entry's address, where its header lies |
| `CoreFs.CoreFs.Index` | source/kernel/corefs.c:22-29 | the entry's index or the error code |
| `MountMgr.MountMgr.GetSlot` | source/kernel/mountmgr.c:9-17 | the lowest empty slot takes the pointer, or -1 and nothing changes |
| `MountMgr.MountMgr.ReleaseSlot` | source/kernel/mountmgr.c:19-23 | a slot in use is emptied; anything else is refused |
| `MountMgr.MountMgr.Init` | source/kernel/mountmgr.c:25-29 | an empty mount table in a cleared run of its own, or the panic when memory runs out |
| `MountMgr.TakeThenRelease` | source/kernel/mountmgr.c:9-23 | releasing the slot that a call took restores all slots and succeeds once only; a call takes none exactly when the pointer is null or every slot is in use |
| `Streams.WritesAreOneWrite` | source/kernel/iocall.c:139-154 | any sequence of writes at the running offset is one write of the concatenation |
| `Streams.ReadsInOrder` | source/kernel/iocall.c:88-103 | successive reads yield successive slices |
| `Streams.ReadsReassemble` | source/kernel/iocall.c:88-103 | reading with any positive counts until nothing comes reassembles the whole file |
| `Streams.WrittenIsRead` | source/kernel/iocall.c:88-154 | what was written to an empty file is what is read back, however both are cut |
| `Streams.FirstInFirstOut` | source/kernel/iocall.c:104-166 | over any interleaving of reads and writes, the bytes read followed by the bytes queued are the accepted bytes in order, and the queue never exceeds its capacity |
| `Streams.PacketStep` | source/drv/mouse.c:5-12 | with 3-byte writes and reads only, a write is all or nothing and a read yields one whole packet |
| `Streams.PacketsStayWhole` | source/kernel/kernel.c:354-374 | so over all traffic the queue is a sequence of whole packets, delivered as written |
| `IoCall.ShiftDown` | source/kernel/iocall.c:112-118 | the overlapping forward copy keeps the order of what it moves |
| `IoCall.DevRead` | source/kernel/iocall.c:104-119 | the front of the queue is delivered and the rest stays queued |
| `IoCall.DevWrite` | source/kernel/iocall.c:155-166 | the longest prefix that fits is appended to the queue |
| `IoCall.IoCall.Read` | source/kernel/iocall.c:45-122 | a usable descriptor on a file delivers exactly min(count, max(0, size - offset)) bytes, byte i the content at offset + i, and advances by as many; on a device min(count, length of the queue) bytes from its front, which leave it; otherwise -1 and nothing changes |
| `IoCall.IoCall.Write` | source/kernel/iocall.c:133-169 | a usable descriptor on a file overwrites or extends at the offset, and returns -1 exactly when the file would stay empty or there is no gap for the scratch copy with one for the relocated file beside it; on a device the longest prefix that there is space for goes behind what is queued; no run is left behind, and a refused write leaves offset, content and free memory unchanged |
| `IoCall.IoCall.Assemble` | source/kernel/iocall.c:139-154 | a write succeeds exactly when there is memory for the scratch copy and, beside it, the relocated file, and the scratch copy is always given back |
| `IoCall.IoCall.Open` | source/kernel/iocall.c:179-217 | which entry is opened, made or emptied, and when the call is refused; the table is always emptied first |
| `IoCall.OpenedIff` | source/kernel/iocall.c:179-217 | which bits of the flags and of the device permissions let an existing file or device be opened, when it is neither emptied nor asked to be new |
| `Sessions.WriteSession` | source/kernel/iocall.c:139-154 | any sequence of successful writes through the descriptor is one write of their concatenation at the first offset, and no other file changes |
| `Sessions.ReadSession` | source/kernel/iocall.c:88-103 | any sequence of reads delivers successive slices and leaves every content alone |
| `Sessions.WholeFileRead` | source/kernel/iocall.c:88-103 | reading a freshly opened file with any positive counts until nothing comes yields exactly the file |
| `Sessions.DeviceSession` | source/kernel/iocall.c:37-217 | over any calls on any files, other opens in between included, that do not open the device with truncation: the bytes read from the device followed by the bytes queued are those queued at first followed by those accepted |
| `Sessions.Bystander` | source/kernel/iocall.c:37-217 | a slot that no call of a session works on is unchanged at its end |
| `Sessions.TruncationEndsIt` | source/kernel/iocall.c:179-217 | an `open` that succeeds on a device leaves a sound queue exactly when it does not truncate |
| `Sessions.WrittenIsReadBack` | source/kernel/iocall.c:37-217 | writes, a later `open` of the same path without truncation, and reads until nothing comes yield what was there at first with everything written laid over it at the first offset |
| `Sessions.PacketSession` | source/kernel/kernel.c:364-377 | on the 4096-byte mouse device, whatever else is opened, read and written in between: the bytes read and the bytes queued are whole packets, those held at first followed by those accepted, in order |
| `Mouse.Send` | source/drv/mouse.c:5-12 | a movement is queued as one whole packet, or dropped whole when the device file is full |
| `Mouse.Poll` | source/kernel/kernel.c:373-376 | the oldest packet as it was sent, or nothing |
| `TarFs.EncodedIsArchive` | source/fs/tarfs.c:14-36 | memory that holds the reference encoder's output holds the archive of its entries (ustar Interchange Format, pax utility, IEEE Std 1003.1) |
| `TarFs.StartAligned` | source/fs/tarfs.c:34 | every header lies at a multiple of 512 |
| `TarFs.GainedNext` | source/fs/tarfs.c:20-35 | one more entry in the table; later entries of a name replace earlier ones, entries of other names and mount slots in use stay as they were |
| `TarFs.OthersSurvive` | source/fs/tarfs.c:20-35 | a file or directory of a name that the archive does not have is found where it was, unchanged |
| `TarFs.ReadsBack` | source/fs/tarfs.c:25-34 | each mounted file has its archived size and its mount points at its archived bytes |
| `TarFs.FileStep` | source/fs/tarfs.c:25-32 | making the empty file and pointing it at its slot puts one entry in one slot and keeps the tree |
| `TarFs.TarFs.BuildPath` | source/fs/tarfs.c:22 | the path buffer holds mount path and name |
| `TarFs.TarFs.SizeField` | source/fs/tarfs.c:33-34 | the octal field is the size |
| `TarFs.TarFs.MountEntry` | source/fs/tarfs.c:20-35 | one round of the walk: the entry is in the table and the offset moves by header and whole blocks of content |
| `TarFs.TarFs.Mount` | source/fs/tarfs.c:14-36 | when 0 is returned every slot of the table is as before or one of the archive's entries in place of nothing or of an entry of its name, every entry not replaced by a later one is found under its name, mount slots in use keep their pointers, and the archive and all runs of others are untouched; when -1 is returned nothing could be mounted at all, or the entries before the failing one are in place and that one is refused by the file system or finds no slot; the walk ends |
| `Loader.Inside` | source/kernel/multitask.c:174-186 | every segment lies inside the page-rounded image |
| `Loader.Tight` | source/kernel/multitask.c:174-186 | the image has no page to spare at either end, and a program without segments gets one page |
| `Loader.PaintByte` | source/kernel/multitask.c:187-193 | each byte of the image is the file byte or the zero of the last segment over it, and a byte under no segment is what memory held |
| `Loader.EntryRightIff` | source/kernel/multitask.c:194 | the start address is the image's entry exactly when the lowest page is page 0 |
| `Loader.Measure` | source/kernel/multitask.c:172-185 | the page-rounded bounds of the segments to load |
| `Loader.Place` | source/kernel/multitask.c:187-193 | memory holds the painted image, and nothing outside it has changed |
| `Exec.OtherSteady` | source/kernel/multitask.c:186-197 | the scheduler's invariant survives whatever becomes of the rest of the pool |
| `Exec.Exec.LoadImage` | source/kernel/multitask.c:172-193 | on a stack that the image's run does not touch, a fresh run holds the image; file system, scheduler and every other run are as before |
| `Exec.Exec.Begin` | source/kernel/multitask.c:194-197 | a failed `spawn` gives the image back: the block table is as before the load |
| `Exec.Exec.Run` | source/kernel/multitask.c:164-200 | on a stack that the image's run does not touch: a process is started exactly when the named file's own or mounted bytes are a program with an image of at least a page, some slot is inactive, there is a gap for the image and a free block beside the lowest such gap, and the start address there is not null; then a new run holds the image, the process starts at base + e_entry, and the rest of the file table, every other run and all memory outside the pool but for the context records are unchanged; otherwise the block table is as before |
| `Exec.SucceedsIff` | source/kernel/multitask.c:164-200 | that condition is what the allocator and then `spawn` in the allocator's new table come to |
| `System.FilesOutlast` | source/kernel/multitask.c:128-246 | over every run of work, spawns, kills, handovers, file calls and program starts, processes that kill themselves and spawns into the own slot included, the heap stays a consistent file system apart from every stack in use, and a file that no file call changes keeps its bytes |
| `System.ArchivesOutlast` | source/kernel/multitask.c:128-246 | over the same runs memory outside the pool that no context stands on, such as a mounted archive, keeps its bytes |
| `System.OrderOutlasts` | source/kernel/multitask.c:128-246 | over the same runs, as long as nobody spawns into the slot he runs in, everybody waits on a stack of his own |
| `Coexist.ShelteredCall` | source/kernel/corefs.c:139-375 | when the allocator counts every stack in use as in use, a file call, whatever it allocates, leaves those stacks alone, puts no entry on one and keeps the machine in order |
| `Coexist.AddedMooredIff` | source/kernel/corefs.c:294-317 | in general an added entry keeps the machine in order exactly when the run that first fit gives it has no byte of a stack in use |
| `Coexist.HandedOwnBlockIff` | source/kernel/multitask.c:209-216 | a process that has killed itself is handed the block it still runs on exactly when no block below it is free |
| `System.DeadCallerIff` | source/kernel/corefs.c:183-203 | so a directory made by such a process keeps the machine in order exactly when a block below its stack is free; otherwise the entry lies on the stack it is running on |
| `Kernel.FilledMalloc` | source/kernel/memory.c:36-66 | while exactly the first k blocks are in use a request is served from block k on, as long as it fits |
| `Kernel.RequestsServed` | source/kernel/corefs.c:382-402 | the file system's four requests are served from an empty pool exactly when it has at least 34 blocks |
| `Kernel.Boot` | source/kernel/kernel.c:169-172 | memory, file system, scheduler and mount manager come up exactly when the pool has at least 36 blocks, with just the root, nobody running and every invariant of the system in place |
| `Kernel.Kernel.Kill` | source/kernel/multitask.c:209-216 | the running system stays in order and no file changes, whoever is killed |
| `Kernel.Kernel.Spawn` | source/kernel/multitask.c:128-155 | a process is made exactly when the program is not null, some slot is inactive and some block is free; no file changes, and the system stays in order unless the caller spawned into its own slot |
| `Kernel.Kernel.Yield` | source/kernel/multitask.c:221-237 | from any running state, takeovers included: the panic comes exactly when the kernel calls and nobody is runnable; otherwise the processor goes to the lowest runnable pid above, else to the kernel, no file changes and the system stays in order across the switch |
| `Kernel.Kernel.Exit` | source/kernel/multitask.c:242-246 | the same when the caller ends itself, and is dead afterwards |
| `Kernel.Kernel.Run` | source/kernel/multitask.c:164-200 | from a stack that the allocator counts as in use, `exec` is a step of those runs: the stacks in use keep their bytes, no file changes but for its time of access, and a process is started exactly when the file is a program and there are gaps for image and stack and a slot |
| `Kernel.Kernel.SoundSafe` | source/kernel/multitask.c:209-216 | every stack in use is counted as in use when everybody waits on his own stack and the caller has not killed itself |
| `Kernel.Kernel.CreateDir` | source/kernel/corefs.c:139-204 | from such a stack, status and table of the specification, and a step of those runs |
| `Kernel.Kernel.WriteFile` | source/kernel/corefs.c:239-318 | from such a stack, status and table of the specification, and a step of those runs |
| `Kernel.Kernel.ReadFile` | source/kernel/corefs.c:213-228 | from such a stack, the address of the content with the access time stamped, and a step of those runs |
| `Kernel.Kernel.Remove` | source/kernel/corefs.c:327-355 | from such a stack, status and table of the specification, and a step of those runs |
| `Kernel.Kernel.BulkRemove` | source/kernel/corefs.c:364-375 | from such a stack, status and table of the specification, and a step of those runs |
| `Devices.MakeDevice` | source/kernel/kernel.c:348-352 | an empty device file under a new name, and nothing else changed, exactly when the file can be written |
| `Devices.InitDevices` | source/kernel/kernel.c:345-359 | directory, keyboard and mouse come up exactly when the pool has at least 41 blocks, in a system that stays in order |
| `Devices.Startup` | source/kernel/kernel.c:169-172 | from bare memory to a system in order with its descriptor calls and an empty mouse queue, exactly when the pool has at least 41 blocks |
| `Devices.MoveAndTake` | source/kernel/kernel.c:373-376 | a movement reported and a packet taken leave the system in order; what is taken is the oldest packet |
| `Console.LayAppend` | source/kernel/console.c:59-90 | how a text is cut into calls makes no difference |
| `Console.LinesAreRows` | source/kernel/console.c:72-83 | lines that fit are laid one to a row from the left margin, with nothing behind them: low byte the character, high byte the colour, or 255 above the ASCII range |
| `Console.TabbedCells` | source/kernel/console.c:75-80 | a tab leaves cells with 32 in the low byte and the colour in the high byte, and no other |
| `Console.Console.Scroll` | source/kernel/console.c:38-49 | rows move up and coloured blanks come in from below |
| `Console.Console.Clear` | source/kernel/console.c:51-57 | an empty page, cursor at its start |
| `Console.Console.Step` | source/kernel/console.c:72-87 | one character keeps the screen equal to the last 25 rows of the page; short of the end of the screen a character fills the cursor's cell, a tab fills cells with coloured spaces up to the next multiple of 8, and a newline goes to the next row; the cursor never passes 2000 and no write leaves the screen |
| `Console.Console.Print` | source/kernel/console.c:59-90 | the screen shows the page with the text, up to its first NUL, laid out behind what was there; of a line that ends before the margin, cell for cell from the old cursor on, the low byte is the character and the high byte the colour, or 255 above the ASCII range |
| `Text.Itoa` | source/kernel/utils.c:92-119 | the decimal text, whose magnitude for INT_MIN is INT_MIN again |
| `Text.GlyphsDenote` | source/kernel/utils.c:112-118 | for a number that is not negative the digits denote it, without leading zeros |
| `Text.Atoi` | source/kernel/utils.c:460-478 | blanks, at most one sign, digits, in 32-bit arithmetic |
| `Text.NumberReads` | source/kernel/utils.c:460-478 | blanks in front, a plus sign and whatever follows the digits make no difference to the number read |
| `Text.RoundTripIff` | source/kernel/utils.c:92-119 | `atoi(utils_itoa(n)) == n` exactly when n is not INT_MIN |
| `Text.Xtoa` | source/kernel/utils.c:128-152 | the digits, after the reversal in place, denote the number in base 16 without leading zeros |
| `Text.HexUnique` | source/kernel/utils.c:128-152 | there is only one such numeral |
| `Text.Turn` | source/kernel/utils.c:146-150 | the in-place loop reverses the digits |
| `Text.Oct2Bin` | source/kernel/utils.c:58-59 | the value of the digits in 32-bit arithmetic |
| `Text.SizeSurvives` | source/kernel/utils.c:58-59 | eleven octal digits carry every 32-bit size through the signed conversion |
| `Text.Emit` | source/kernel/utils.c:408-410 | characters of the argument while there is room: the start of the text so far, cut off at the limit |
| `Text.Snprintf` | source/kernel/utils.c:397-451 | with a size of at least 1, exactly the first size - 1 bytes of the unlimited text and a terminator are written, and nothing else |
| `Text.ShownDenotes` | source/kernel/utils.c:397-451 | what a directive stands for denotes its argument: a decimal numeral with sign, a hexadecimal numeral, the character, the string |
| `Text.ExpandText` | source/kernel/utils.c:402-447 | text without '%' stands for itself, and a '%' at the end for nothing |
| `Text.ExpandDirective` | source/kernel/utils.c:402-447 | behind such text, `%d`, `%x`, `%c` and `%s` stand for the argument whose turn it is |
| `Text.ExpandUnknown` | source/kernel/utils.c:402-447 | and any other letter for itself and the '%' |

## Left out

- Memory.Heap.Realloc: the bytes beyond the old run that the code copies along are left as whatever the copy reads, because only the common prefix means anything.
- Multitask.Multitask.Kill: the memory of a program image is not released, as in the code.
- Isolation.ResumesAsLeft: the work of a process between calls is taken to write only the stack it is on, which nothing in the kernel enforces; runs with a spawn into the caller's own slot are left to Isolation.StartsAtProgramIff, where the promise fails.
- System.FilesOutlast: a file call or a program start is a step of these runs if it leaves the stacks in use alone, which it does whenever the allocator counts them as in use (Coexist.ShelteredCall) and otherwise exactly if it is handed none of their blocks; after a call that overwrites its own caller's stack nothing is promised.
- Kernel.Boot: pools of 1 to 15 blocks are excluded, because a request larger than the pool makes the allocator's search run past its table.
- CoreFs.CoreFs.WriteFile: paths of 3840 characters and more are excluded; what becomes of such a name is Headers.NameKeptIff.
- CoreFs.CoreFs.ReadFile: for a mounted file the result is the address in its mount slot, whatever lies there; that it is the archived file is the tar mount's property.
- CoreFs.CoreFs.Init: which allocations were made before a panic is not stated; the pool is taken to have at least 16 blocks, as the code takes for granted.
- CoreFs.CoreFs.Parent: the empty path and paths of 3840 characters and more are excluded.
- IoCall.IoCall.Open: a file is made only under a canonical name, because only for those is the table promised to stay a tree.
- IoCall.IoCall.Read: descriptors above 3 are excluded, because the code would index before its table.
- IoCall.IoCall.Write: sizes whose sum with the offset wraps, or that the allocator cannot compute with, are excluded.
- TarFs.TarFs.Mount: entries of names that are not canonical below the mount path, names of 100 characters and more, and sizes of 2 GiB and more are excluded; the path buffer is never released, as in the code.
- Devices.Startup: the archives that are mounted before the devices are made, and what the kernel prints, are not part of it.
- Exec.Exec.Run: a caller on a stack that the image would be laid over, which only a process that has killed itself, or has taken its own slot back since, can be, is excluded; so are files that carry the magic number but are not well-formed programs, because the code checks nothing else.
- Text.Snprintf: size 0 is excluded, as are strings that overlap the buffer or the number buffer.
- Text.Atoi: the string ends in a NUL.
- Console.Console.Print: the text colour does not change while the page lives, as nothing in the kernel changes it; serial output and the hardware cursor are not modelled.
- Hardware access, interrupts, address translation, the meaning of the flag bits and of CR3, device drivers, boot code and system calls.
- The FAT32 and RAM disk sources, which are unfinished, and the files that are no longer built.
- `close`, `tarfs_list`, `fs_checkPerm`, `printf`, `date`, `delay`, hashes and ciphers.
