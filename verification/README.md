# A verified model of a small RISC-V kernel

The kernel runs user processes on several harts, keeps files on a virtio disk behind a
write-ahead log, shares memory copy-on-write and speaks a little UDP and TCP.  This project
models the parts of it that keep state, in Dafny, and proves what that state always satisfies.

**Journaled file system** (`FsFormat`, `Journal`, `FsModel`, `FsRefinement`, `FileSystem`,
`FsCrash`, `FsPages`, `FsMmap`, `MkFs`, `FsNames`, `FsLaws`).  A disk is a sequence of 512-byte blocks and every
operation is the list of single-block writes it makes.  Class `FileSystem` is `src/fs.c` with
its static variables as fields; each method is proved against the values of `FsModel`.  The
main results: a crash between any two writes, followed by any number of mounts that crash in
recovery themselves, shows exactly the old files or exactly the new ones, the new ones if and
only if the commit header was written; over every run of creates, deletes, remounts and crashes
the file system is a finite map from names to bytes; memory always equals what a fresh mount
would build; mmap faults load what `fs_read` returns, and a mapping whose pages are all in is the
file; `mkfs` writes a disk for which all this holds.  `FsLaws` says in plain numbers what is on the
disk.

**Copy-on-write memory** (`Kalloc`, `Paging`, `Images`, `ProcTable`, `Cow`, `CowSafety`,
`CowFork`, `CowShares`, `CowRefine`, `CowRuns`, `CowLife`, `CowBoot`, `MmapRuns`, `CowLaws`,
`Sv39`, `Vm`, `InMemory`, `ProcMem`, `Mmu`).  Class `Kalloc.Ram` is physical memory with the free list of `src/kalloc.c` threaded
through it.  `Cow` gives fork, exec, page faults, sbrk, mmap and reclamation as functions on a
kernel state whose page tables are flat maps.  `CowSafety`, `CowFork` and `CowShares` prove that
reference counts are exact, no page serves twice and writable pages have one holder, also where
fork runs out of pages half-way; `CowRuns` proves that over every run each process reads what it
would read if fork had copied every page; `CowLife` proves that pages are conserved.  `MmapRuns`
runs processes and file system together and proves that loads from a mapping return the file's
bytes.  Below that, `Sv39` defines when words in memory are a three-level tree (section 4.4 of the
RISC-V Privileged Specification, version 20211203) for a flat table, class `Vm.PageTables` is `src/vm.c` on such memory, and class `ProcMem.ProcMemory`
is the memory half of `src/proc.c` with user loads and stores through the trees; their methods are
proved to do in memory exactly what the functions of `Cow` do, for all processes at once.  `Mmu`
is the hardware's own walk, bit by bit, and finds in that memory what the flat tables say.

**Scheduler and sleep/wakeup** (`Console`, `Sched`, `SchedSafety`, `SchedRuns`).  Any number of harts take
steps in any interleaving over one lock that `swtch` hands across.  Proved: mutual exclusion, no
process on two harts, the right page table loaded, `wait` never frees a loaded table, no lost
wakeup between exit and wait or between keyboard and reader, bounded waiting, and where each
process goes on after yield, wait or read has switched away from it.

**Network pieces** (`RxRing`, `RxSafety`, `Checksum`).  The receive queue with 16-bit wrapping
indices (section 2.7 of VIRTIO 1.2) over every interleaving of driver and a device that returns
buffers in any order and publishes them in batches of any size, and the Internet checksum
(section 1 of RFC 1071) with the packets that carry it.

Where a property fails for some inputs the model keeps the code, shows such an input and states
exactly when the property holds:

- Names of 56 bytes and more are stored cut but compared whole.  A created file is found again if
  and only if its name is shorter (`CreatedIsFoundIffNameFits`; lost in `LongNameLost`), and memory
  stays consistent if and only if the cut name is free (`CreateConsistentIffStoredNameFree`; lost in
  `CutNamesClash`).
- `mkfs` does not check the size of its input.  The image mounts consistently if and only if the
  stored names differ and the data ends within 8192 blocks (`ImageMountsIff`); `SameNameBad` and
  `TooLongBad` are inputs for which it does not.
- The 32-bit accumulator of `cksum` is exact if and only if the sum fits (`ExactIffFits`); 131076
  bytes of 255 are too many (`OverflowShows`).
- `proc_fork` and `make_user_proc` test neither `kalloc` nor `proc_pagetable`, which itself ignores
  its last two `mappages`, and `proc_fork` ignores the result of `uvm_cow_share`.  fork returns if and
  only if 70 pages are free, or exactly one and the parent has no heap page mapped (`ForkReturnsIff`),
  and then every count is exact (`ForkKeeps`).  The child is a copy of the parent if and only if 71
  are free (`EagerIffPages`): with 70 it enters its slot with nothing mapped (`ForkShort`), with one
  it has no page table (`ForkNullInv`).  `make_user_proc` returns if and only if 71 pages are free, or
  one or two (`MakeUserReturnsIff`), and then counts are exact too (`MakeUserInv`, `MakeHalfInv`).

The comment at `src/proc.c:182` says that fork leaves heap pages out; the code shares them
copy-on-write (`src/proc.c:161`), and the model follows the code.

`dafny verify dfyconfig.toml` checks the whole project.

## Model

| member | source | states |
|---|---|---|
| `FsFormat.SuperRoundTrip` | src/fs.c:257-263 | the superblock image decodes to the superblock it was made from |
| `FsFormat.HeaderRoundTrip` | src/fs.c:42-50 | the log header image decodes to commit flag, count and block numbers |
| `FsFormat.DirRoundTrip` | src/fs.c:249-254 | the directory image decodes to all eight entries |
| `FsFormat.MagicBytes` | src/fs.c:135-138 | the magic number is the bytes 32 53 46 52 (hexadecimal) at the start of block 0 |
| `FsLaws.SuperOnDisk` | src/fsformat.h:24-29 | block 0 holds four little-endian words and zeros |
| `FsLaws.HeaderOnDisk` | src/fs.c:42-50 | block 2 holds the flag, the count and the destinations as little-endian words, zeros after them |
| `FsLaws.DirOnDisk` | src/fsformat.h:31-35 | block 1 holds eight entries of 64 bytes: 56 of name, size, first block |
| `Journal.TransactionInstalls` | src/fs.c:55-84 | after the whole transaction each destination holds the last block logged for it |
| `Journal.TransactionFrame` | src/fs.c:55-84 | no block outside the log and the destinations changes |
| `Journal.CrashOldOrNew` | src/fs.c:55-98 | after a crash at any write and any crashed recoveries every block outside the log is the old one or one logged for it |
| `Journal.RepeatedRecovery` | src/fs.c:87-98 | any number of recoveries that die half-way leave a disk that still recovers to the same blocks |
| `Journal.TransactionAtomic` | src/fs.c:42-98 | crash after k writes, any crashed recoveries, then recovery: the committed disk if the header was written, else the old blocks |
| `FsLaws.TxnTrace` | src/fs.c:55-84 | the writes of a transaction in order: log blocks from 3 on, the commit header in block 2, each block home, a zeroed block 2 |
| `FsLaws.IdleLogIgnored` | src/fs.c:87-90 | a log whose first word is zero is left alone |
| `FsLaws.LogReplayed` | src/fs.c:87-98 | any other log is replayed: block 3 + i to the i-th destination, sixteen at most, then block 2 is zeroed |
| `FsModel.FirstFit` | src/fs.c:116-125 | the result is a run of free blocks below the end of the disk, the lowest one, and -1 means there is none |
| `FsModel.OwnsIsExtent` | src/fs.c:102-113 | a live file's 32-bit block loop marks exactly its extent |
| `FsRefinement.MountIsIdentity` | src/fs.c:129-161 | mounting a disk that agrees with memory replays nothing and rebuilds exactly that memory |
| `FsRefinement.CreateBitmap` | src/fs.c:291-303 | the incrementally updated bitmap after a create is the one a rebuild would give |
| `FsRefinement.DeleteBitmap` | src/fs.c:316-330 | the bitmap after a delete is the one a rebuild would give, because extents are disjoint |
| `FsRefinement.CreateRefines` | src/fs.c:267-305 | a create whose stored name is free adds that name with exactly the data, changes no other file even in reused blocks, and keeps memory and disk in agreement |
| `FsRefinement.CreatedIsFoundIffNameFits` | src/fs.c:267-305 | the new file is found under its name if and only if the name is shorter than the name field |
| `FsRefinement.CreateConsistentIffStoredNameFree` | src/fs.c:267-305 | memory and disk stay consistent if and only if the cut name was not taken |
| `FsNames.LongNameLost` | src/fs.c:267-305 | on a mounted image, a create with a 56-byte name succeeds and the file is not found afterwards |
| `FsNames.CutNamesClash` | src/fs.c:267-305 | on a mounted image, a create whose name agrees with another in the first 55 bytes succeeds and consistency is lost |
| `FsRefinement.DeleteRefines` | src/fs.c:309-332 | a delete removes exactly that name, changes no other file, and keeps memory and disk in agreement |
| `FileSystem.StrEq` | src/fs.c:31-37 | true if and only if the two C strings are equal |
| `FileSystem.FileSystem.WriteLogHeader` | src/fs.c:42-50 | one write of the encoded header |
| `FileSystem.FileSystem.LogBegin` | src/fs.c:52-52 | an empty log, no overflow |
| `FileSystem.FileSystem.LogWrite` | src/fs.c:55-61 | the block goes to the next log slot; past the log's end the overflow flag is set instead |
| `FileSystem.FileSystem.LogInstall` | src/fs.c:64-69 | the logged blocks are written to their destinations in order |
| `FileSystem.FileSystem.LogCommit` | src/fs.c:72-84 | commit header, install, cleared header: the writes that finish a transaction |
| `FileSystem.FileSystem.RecoverLog` | src/fs.c:87-98 | a committed log is replayed and cleared, any other left alone |
| `FileSystem.FileSystem.BuildBitmap` | src/fs.c:102-113 | the bitmap equals the one defined by the live directory entries |
| `FileSystem.FileSystem.BallocContig` | src/fs.c:116-125 | first fit in the bitmap |
| `FileSystem.FileSystem.FsInit` | src/fs.c:129-161 | mounts if and only if block 0 starts with the magic bytes, and otherwise leaves memory, disk and trace alone; memory and disk are what mounting gives |
| `FsLaws.MountReads` | src/fs.c:129-161 | which bytes of the recovered disk file count, next free block, block count, entries and bitmap come from, with the limits 8 and 8192 |
| `FileSystem.FileSystem.FsRead` | src/fs.c:176-194 | returns the file's bytes, or -1 when unmounted, unknown or too large for the buffer |
| `FileSystem.FileSystem.FsStat` | src/fs.c:196-206 | start block and size of the named file |
| `FileSystem.FileSystem.FsReadPage` | src/fs.c:208-222 | the page of the file at the offset, zero past its end |
| `FileSystem.FileSystem.CommitMeta` | src/fs.c:249-263 | directory and superblock are logged last, then the whole transaction is on disk |
| `FileSystem.FileSystem.FsCreate` | src/fs.c:267-305 | refused, or memory, disk and the list of writes are those of the create transaction; the state is valid afterwards if and only if it was refused or the stored name was free; the log never overflows |
| `FileSystem.FileSystem.FsDelete` | src/fs.c:309-332 | refused, or memory, disk and the list of writes are those of the delete transaction |
| `FsCrash.CrashAtomic` | src/fs.c:42-157 | crash, crashed recoveries, one full mount: new files if and only if the commit header reached the disk, else the old ones |
| `FsCrash.CreateIsTxn` | src/fs.c:267-305 | a create whose stored name is free is such a transaction |
| `FsCrash.DeleteIsTxn` | src/fs.c:309-332 | a delete is such a transaction |
| `FsCrash.CreateRefusedIff` | src/fs.c:267-285 | a create is refused if and only if the name exists, the directory is full, the data exceeds the log, or no free run is long enough |
| `FsCrash.EventRefines` | src/fs.c:129-332 | each event mounts, keeps memory and disk in agreement, and does to the map what taking or not taking effect means |
| `FsCrash.RunRefinesMap` | src/fs.c:129-332 | over every run of creates, deletes, remounts and crashes the files are the map the events make, long names included while their cut form is free |
| `FsCrash.ShortRunGood` | src/fs.c:267-305 | names that fit the field meet that condition in every run |
| `FsLaws.CreatedEntry` | src/fs.c:281-301 | the new entry: at most 55 bytes of name and a zero, the size, the lowest run of free blocks or block 19; next_free is raised past it |
| `FsLaws.DeletedEntry` | src/fs.c:316-330 | entries behind move up by one, the last slot is zeroed, next_free stays |
| `FsLaws.CreateTrace` | src/fs.c:281-303 | the transaction of a create: the data padded to blocks at the entry's start, then directory and superblock |
| `FsLaws.RunWithin` | src/fs.c:299-299 | over every run no live extent reaches past next_free |
| `FsMmap.MappingIsFile` | src/fs.c:208-222 | all pages of a mapping together are the file's bytes followed by zeros |
| `FsMmap.MmapAgreesWithRead` | src/proc.c:315-330 | pages faulted in any order between any events that do not delete the file are the slices of its bytes |
| `FsMmap.LoadedMappingIsFile` | src/proc.c:315-330 | once such faults have loaded every page, the loaded pages in order are the file's bytes followed by zeros |
| `MkFs.MakeImage` | tools/mkfs.c:14-99 | refuses zero or more than eight files, otherwise builds the image block by block |
| `MkFs.DirGoodIffDistinct` | tools/mkfs.c:36-62 | the directory is well formed, extents disjoint, if and only if the stored names differ |
| `MkFs.ImageMounts` | tools/mkfs.c:64-99 | the image mounts with no replay and memory agreeing with disk |
| `MkFs.ImageMountsIff` | tools/mkfs.c:14-99 | memory built from the image agrees with it if and only if the stored names differ and the data ends within the kernel's bitmap |
| `MkFs.SameNameBad` | tools/mkfs.c:36-62 | two input files of one name: written, and what mounts is not consistent |
| `MkFs.TooLongBad` | tools/mkfs.c:64-99 | a file that ends past block 8192: written, and what mounts is not consistent |
| `MkFs.ImageHolds` | tools/mkfs.c:80-95 | each input file is there byte for byte under its stored name |
| `MkFs.ImageNames` | tools/mkfs.c:36-62 | and nothing else is there |
| `MkFs.FreshDiskRuns` | tools/mkfs.c:14-99 | every run from a fresh image refines the map that starts with the input files |
| `FsLaws.FreshImageHasRoom` | tools/mkfs.c:60-61 | an image whose data ends by block 242 has 256 blocks and accepts a new file of up to 14 blocks |
| `FsLaws.ImageWithin` | tools/mkfs.c:64-64 | mkfs leaves next_free past every file |
| `Kalloc.Ram.Kfree` | src/kalloc.c:33-47 | one reference less; the last one puts the page on the free list, whose links run through memory, and writes no other page |
| `Kalloc.Ram.KrefInc` | src/kalloc.c:50-54 | one more reference, on an 8-bit counter |
| `Kalloc.Ram.Kinit` | src/kalloc.c:56-63 | every page from the kernel's end on is listed once with count 0 |
| `Kalloc.Ram.Kalloc` | src/kalloc.c:65-75 | the head of the list with one owner, the next one read from its first word, or null |
| `Kalloc.Ram.Kfreecount` | src/kalloc.c:77-79 | the length of the free list |
| `Kalloc.TakeThenFree` | src/kalloc.c:33-75 | allocating and freeing restores the allocator exactly |
| `Images.CountBound` | src/kalloc.c:30-54 | no count ever exceeds one per process slot plus one, so the 8-bit counter never wraps |
| `Images.AllocAcct` | src/kalloc.c:65-75 | the page kalloc gives is held by nobody, and counts stay exact |
| `Images.FreeAcct` | src/kalloc.c:33-47 | kfree keeps counts exact and loses a page only when nobody holds it |
| `Images.ShareAcct` | src/kalloc.c:50-54 | kref_inc keeps counts exact |
| `Paging.MapPagesExact` | src/vm.c:63-81 | a successful mappages maps exactly the requested pages, in order, and changes no other lookup |
| `ProcTable.NewTableSucceeds` | src/vm.c:92-100 | with 70 free pages the table is built and its user part is just code and stack |
| `ProcTable.NewTableOkIff` | src/vm.c:214-223 | a table is returned if and only if 69 pages are free; with exactly 69 it has no user page at all, with more it has code and stack |
| `ProcTable.NewTableMaps` | src/vm.c:92-100 | every table it returns maps kernel text R-X, devices and the rest of memory RW-, all to itself, and below that at most code R-X-U at page 1 and stack RW-U at page 4 |
| `ProcTable.NewTableAcct` | src/vm.c:214-223 | its nodes are distinct pages that nobody held |
| `CowSafety.CowFaultEffect` | src/vm.c:196-211 | a handled fault gives a writable private copy with the old contents and disturbs no page anybody holds |
| `CowSafety.PageFaultInv` | src/proc.c:288-332 | every page fault, handled or not, keeps counts exact, images well formed and private pages private |
| `CowSafety.FreeRangeInv` | src/vm.c:155-163 | exactly the leaves of the range are given back, once each |
| `CowSafety.ExecInv` | src/proc.c:202-240 | exec keeps the invariant, whether loading fails or succeeds |
| `CowSafety.FreeImageInv` | src/proc.c:243-259 | every page the image held is given back exactly once, and nobody else's contents change |
| `CowFork.ShareAll` | src/vm.c:175-192 | with the first low node in the child's tree sharing never fails: the child's leaves become the parent's, read-only on both sides |
| `CowShares.ShareCounts` | src/vm.c:175-192 | in any state in which fork may call it, whatever the child's tree has mapped and however few pages are left, finishing or giving up half-way: every count stays exact, with code and stack in flight |
| `CowShares.ForkInFlight` | src/proc.c:153-161 | the state in which fork makes that call is such a state, also when code and stack could not be mapped |
| `CowFork.ForkInv` | src/proc.c:141-196 | with 71 free pages fork keeps the invariant, shares code and heap, and copies only the stack |
| `CowFork.ForkShort` | src/proc.c:141-196 | with exactly 70 free pages fork gives up sharing, keeps every count exact and leaves a child that maps nothing |
| `CowFork.ForkKeeps` | src/proc.c:141-196 | whenever fork returns, every count is exact; the child has code and stack mapped if and only if 71 pages were free |
| `CowFork.ForkNullInv` | src/proc.c:141-196 | with a single free page the child gets code and stack and no page table, and every count is exact |
| `CowFork.ForkReturnsIff` | src/proc.c:141-196 | fork returns if and only if 70 pages are free, or exactly one and no heap page is mapped; it hangs in between; otherwise it uses a null pointer |
| `CowRefine.CowFaultAbs` | src/vm.c:196-211 | a copy-on-write fault changes what nobody reads |
| `CowRefine.PageFaultAbs` | src/proc.c:288-332 | no page fault changes what any process reads, but for the page of its own mapped file that the fault loads |
| `CowRefine.StoreAccessAbs` | src/proc.c:288-313 | a store with its fault changes one word of one process's memory, or nothing |
| `CowRefine.SbrkAbs` | src/proc.c:263-269 | the caller's heap gains zero pages, nobody else notices |
| `CowRefine.MmapAbs` | src/proc.c:273-282 | mmap gives the caller the file's range and moves no memory |
| `CowRefine.ExecAbs` | src/proc.c:202-240 | the caller gets new code and an empty heap and keeps its stack page, nobody else notices |
| `CowRefine.ForkAbs` | src/proc.c:141-196 | whenever fork returns: with 71 free pages the child reads a full copy of the parent but for a0 = 0 and sepc + 4 in its trap frame, with fewer nothing; everybody else reads what they read before |
| `CowRefine.EagerIffPages` | src/proc.c:141-196 | whenever fork returns, the child is that copy if and only if 71 pages are free |
| `CowRefine.ReapAbs` | src/proc.c:406-425 | reaping takes nothing from anybody else |
| `CowRuns.LoadAccessAbs` | src/proc.c:288-332 | a load returns the page of the process's own flat memory, mapped files included |
| `CowRuns.LoadGoesThrough` | src/proc.c:288-332 | a load succeeds if and only if the page is code, stack, a mapped page, or one of heap or file for which the page and its node are left |
| `CowRuns.StoreGoesThrough` | src/proc.c:288-313 | a store succeeds if and only if the page is the stack, or a heap page that is writable or can be given a page |
| `CowRuns.AccessInRun` | src/proc.c:288-332 | both hold in every reachable state of a run |
| `CowLaws.StoreThenLoad` | src/proc.c:288-313 | after a store that goes through, a load from the page returns the stored word and the other words as before |
| `CowLaws.FaultEntry` | src/proc.c:288-332 | the entry that a handled fault leaves: R|W|U for the heap, R|U for a mapped file, on a page from the free list |
| `CowLaws.Regions` | src/proc.c:300-320 | the heap is 0x10000 up to heap_top, a mapping 0x100000 up to its size rounded up |
| `CowLaws.SbrkMeans` | src/proc.c:263-269 | heap_top moves by n, old pages keep their words, new pages read as zeros |
| `CowLaws.ExecMeans` | src/proc.c:202-240 | new code, the same stack, an empty heap at 0x10000, no mapping |
| `CowRuns.StepRefines` | src/proc.c:141-332 | each operation is one step of the eager system |
| `CowRuns.RunRefinesEager` | src/proc.c:141-332 | over every run, forks short of pages included, the invariant holds and all memories are those of eager fork |
| `CowRuns.LoadedPageStays` | src/proc.c:315-330 | over every run a loaded page of a mapped file keeps its bytes, whatever all processes do, until its own process execs or is reaped |
| `CowRuns.LoadedFaultsNot` | src/proc.c:315-330 | a fault on a loaded page of a mapped file is never handled, so nothing is loaded over it |
| `CowRuns.WritableAlone` | src/vm.c:175-211 | in every reachable state a writable user page has exactly one holder |
| `CowLife.FreeIsUnused` | src/kalloc.c:33-75 | a managed page is on the free list if and only if neither kernel nor any image holds it |
| `CowLife.Conservation` | src/kalloc.c:33-79 | free pages plus held pages is constant |
| `CowLife.ChildLifetime` | src/proc.c:406-425 | fork, any life of a child that does not fork, exit and wait: free pages are as before, less the parent's own demand faults and one page for each copy of the parent whose original a third process holds |
| `CowBoot.KinitBoots` | src/kalloc.c:56-63 | what kinit leaves, with eight unused slots, is a booted state |
| `CowBoot.BootInv` | src/kalloc.c:56-63 | the state after boot satisfies the invariant |
| `CowBoot.MakeUserInv` | src/proc.c:103-137 | making the first user process keeps it whenever the call returns; code and stack are mapped if and only if 72 pages are free |
| `CowLaws.MakeUserMeans` | src/proc.c:103-137 | with 72 pages the process has the loaded code, a stack page, an empty heap at 0x10000 and no mapping; nobody else notices |
| `CowBoot.MakeUserReturnsIff` | src/proc.c:103-137 | it returns if and only if 71 pages are free, or one or two; it hangs with 3 to 70 |
| `CowBoot.MakeHalfInv` | src/proc.c:103-137 | with one or two pages the process has no page table and every count is exact |
| `MmapRuns.MmapStarts` | src/proc.c:273-282 | when mmap returns, the process maps the file with the bytes that the disk gives it |
| `MmapRuns.LoadReadsFile` | src/proc.c:315-330 | a load from the mapping that goes through returns the words of the file's page, zeros past its end |
| `MmapRuns.MappedReadsFile` | src/proc.c:315-330 | so at any point of any run of all processes and the file system, crashes included, in which the file is not deleted and its process neither execs nor is reaped |
| `MmapRuns.WordsRoundTrip` | src/fs.c:208-222 | the words of a page determine its bytes |
| `MmapRuns.WordBytes` | src/fs.c:208-222 | a word is eight bytes of the page, the lowest first |
| `Sv39.IndicesDetermine` | src/vm.c:20-22 | the three nine-bit indices determine a page-aligned address below 2^39 |
| `Sv39.EntryRoundTrip` | src/vm.c:17-18 | page number and flags of an entry come back unharmed |
| `Mmu.TranslateIs` | src/vm.c:17-60 | the hardware's walk over the tree in memory, with entry bits by number, gives what the flat table says |
| `Mmu.ProcessTranslates` | src/vm.c:17-60 | so it is for every process of the state that memory holds |
| `Mmu.BuiltTableTranslates` | src/vm.c:92-100 | how the hardware reads a new table: each kernel address to itself with its permissions, everything else but code and stack faults |
| `Sv39.CowFlags` | src/vm.c:181-185 | clearing W and setting COW changes just these permissions |
| `Sv39.UncowFlags` | src/vm.c:206-206 | clearing COW and setting W changes just these permissions |
| `Sv39.RepHangMid` | src/vm.c:50-57 | storing an entry for a zeroed page in the root changes no lookup |
| `Sv39.RepHangLow` | src/vm.c:50-57 | storing an entry for a zeroed page in a middle node changes no lookup |
| `Sv39.RepLeaf` | src/vm.c:74-74 | storing a word in a low node changes exactly one lookup |
| `Vm.PageTables.Walk` | src/vm.c:44-60 | leads to the node holding the entry, hanging fresh nodes as the flat table says, and writes only the tree's pages |
| `Vm.PageTables.MapPages` | src/vm.c:63-81 | memory represents the table that mapping the pages gives, also when it fails half-way |
| `Vm.PageTables.UvmMap` | src/vm.c:147-152 | the same for one page |
| `Vm.PageTables.FreeRange` | src/vm.c:155-163 | the leaves of the range are cleared and their pages lose one reference each |
| `Vm.PageTables.CowShare` | src/vm.c:175-192 | both trees and the counts are those of sharing on flat tables, also on failure |
| `Vm.PageTables.CowShareNull` | src/vm.c:175-192 | with a null child: comes to a page that it would map there, or returns, as on the flat table |
| `Vm.PageTables.CowFault` | src/vm.c:196-211 | handled if and only if the page is copy-on-write and memory is left; then a writable copy is in place |
| `Vm.PageTables.RemapUserCode` | src/vm.c:120-128 | exactly the code page's entry changes |
| `Vm.PageTables.ProcPagetable` | src/vm.c:214-223 | memory represents the new table, whose entries `NewTableMaps` gives; failures as in the code |
| `Vm.PageTables.Freewalk` | src/vm.c:132-142 | every node of the subtree is freed exactly once and no other page; the recursion ends with the levels |
| `Vm.PageTables.FreePagetable` | src/vm.c:144-144 | every node of the tree is freed exactly once, no leaf page |
| `ProcMem.ProcMemory.constructor` | src/proc.c:74-78 | eight unused slots on a booted machine |
| `ProcMem.ProcMemory.MakeUserProc` | src/proc.c:103-137 | takes the first unused slot, -1 without one; memory holds the state that making a user process gives, in every case in which the call returns |
| `ProcMem.ProcMemory.UserStore` | src/vm.c:44-60 | a user store, translated through the same three levels, goes through if and only if the entry allows it, and memory holds the state with that one word changed |
| `ProcMem.ProcMemory.UserLoad` | src/vm.c:44-60 | a user load, translated likewise, returns the word of the page that the flat table maps |
| `ProcMem.ProcMemory.PageFault` | src/proc.c:288-332 | memory holds the kernel state that the fault gives, and the result tells whether it was handled |
| `ProcMem.ProcMemory.Sbrk` | src/proc.c:263-269 | returns the old end of the heap and holds the grown image |
| `ProcMem.ProcMemory.Mmap` | src/proc.c:273-282 | holds the image with the mapping recorded |
| `ProcMem.ProcMemory.Exec` | src/proc.c:202-240 | memory holds the state that exec gives |
| `ProcMem.ProcMemory.FreeImage` | src/proc.c:243-259 | memory holds the state with the image given back, with or without a page table |
| `ProcMem.ProcMemory.Fork` | src/proc.c:141-196 | takes the first unused slot, -1 without one; memory holds the state that fork gives, in every case in which it returns |
| `Console.TypedKeepsLines` | src/console.c:18-40 | no keystroke takes back a completed line or overfills the buffer, and a line appears exactly when a wakeup is due |
| `Console.KeyStored` | src/console.c:18-36 | an ordinary character joins the queue, return as a newline, and 128 unread bytes are the limit |
| `Console.KeyErases` | src/console.c:22-28 | DEL and BS take back the last character of an unfinished line |
| `Console.EraseUndoes` | src/console.c:22-36 | so they undo an ordinary character |
| `Console.LineDelivered` | src/console.c:18-59 | up to 127 ordinary characters and return reach a reader as that line with a newline |
| `Console.ShareStops` | src/console.c:45-59 | a reader takes through the first newline, its byte count, or all there is |
| `Console.Console.Intr` | src/console.c:18-40 | the ring's queue changes as the keystroke says; wakeup exactly on newline or return with fewer than 128 bytes unread |
| `Console.Console.ReadAvailable` | src/console.c:45-59 | bytes read followed by bytes left are the queue as it was, and the rest of the buffer is untouched |
| `Sched.Wakeup` | src/proc.c:385-391 | the sleepers on the channel become RUNNABLE |
| `SchedRuns.WakeMeans` | src/proc.c:385-391 | those and no others, in nothing but their state |
| `SchedSafety.StepKeeps` | src/proc.c:337-432 | every step of every hart keeps the invariant |
| `SchedSafety.RunKeeps` | src/proc.c:337-432 | so does every interleaving |
| `SchedSafety.BootInv` | src/proc.c:74-137 | it holds when the schedulers start |
| `SchedSafety.BatonSafety` | src/spinlock.c:41-53 | one lock owner at most, no process on two harts, and a hart outside the lock is at rest or runs a RUNNING process on its own table |
| `SchedSafety.RunningIsCurrent` | src/proc.c:337-356 | with the lock free, RUNNING processes are exactly the current ones |
| `SchedSafety.NoLoadedTableFreed` | src/proc.c:406-425 | wait never frees a page table that some hart has loaded |
| `SchedSafety.NoLostExit` | src/proc.c:373-432 | a process asleep in wait has a child and none of its children is a ZOMBIE |
| `SchedSafety.NoLostLine` | src/console.c:18-59 | nobody sleeps for input while a complete line is unread |
| `SchedSafety.StreamKept` | src/console.c:45-59 | delivered bytes followed by unread ones change by keystrokes alone |
| `SchedSafety.LogTells` | src/proc.c:337-356 | each visit of the scan is logged with whether the slot was RUNNABLE and dispatched |
| `SchedSafety.BoundedWaiting` | src/proc.c:337-369 | between two visits to a slot every other slot is visited once, so at most seven dispatches come between |
| `SchedSafety.BoundedWaitingRun` | src/proc.c:337-369 | in any run and from any state, while a slot stays RUNNABLE a hart dispatches at most seven times |
| `SchedRuns.YieldReturns` | src/proc.c:359-369 | a process that yields, whenever and wherever it is dispatched again, is back in user mode with the lock free and nothing else changed |
| `SchedRuns.WaitRescans` | src/proc.c:373-432 | a sleeper from wait goes on with a new scan from slot 0 under the lock |
| `SchedRuns.ReadGoesOn` | src/console.c:45-59 | a sleeper from console_read goes on with exactly the bytes it still wanted |
| `SchedRuns.ChildStarts` | src/proc.c:170-190 | a forked child starts in user mode with the lock free |
| `SchedRuns.YieldStep` | src/proc.c:359-369 | a RUNNING process becomes RUNNABLE and is switched away from |
| `SchedRuns.ForkStep` | src/proc.c:141-196 | the first unused slot becomes a RUNNABLE child of the caller with the new table; without one nothing changes |
| `SchedRuns.WaitStep` | src/proc.c:406-432 | a ZOMBIE child's slot is freed and wait returns, it returns without a child only if there is none, and otherwise sleeps on the caller's slot |
| `SchedRuns.ExitSteps` | src/proc.c:394-403 | the parent is woken and a ZOMBIE left behind |
| `SchedRuns.ZombieStays` | src/proc.c:394-432 | a ZOMBIE stays as it is until its own parent's wait frees it |
| `SchedRuns.ReadStep` | src/console.c:45-59 | one byte moves to the reader; newline or the last byte wanted ends the call; without input it sleeps |
| `SchedRuns.KeyStep` | src/console.c:18-40 | the input changes as typing says and readers wake exactly on a completed line |
| `SchedRuns.AcquireStep` | src/spinlock.c:41-48 | who wins the lock enters the code it wanted, and nothing else happens |
| `SchedRuns.ReleaseStep` | src/spinlock.c:50-54 | the lock is free and the hart where it was before |
| `SchedRuns.ScanStep` | src/proc.c:343-354 | a RUNNABLE slot becomes RUNNING, any other is passed by, at the end the lock is free |
| `SchedRuns.SwitchSteps` | src/proc.c:347-351 | to a process: current, then its table; back: the kernel's table, no current process, the next slot |
| `RxSafety.PostBuffers` | src/net.c:195-204 | all eight buffers are offered |
| `RxSafety.StartInv` | src/net.c:195-217 | the ring invariant holds after net_init |
| `RxSafety.StepKeeps` | src/net.c:249-271 | every step of driver and device keeps it, publishing any number of used entries at once included |
| `RxSafety.RunKeeps` | src/net.c:249-271 | so does every interleaving |
| `RxSafety.RepostIsSafe` | src/net.c:264-268 | re-posting never overwrites an entry the device has not consumed |
| `RxSafety.PollKeeps` | src/net.c:251-251 | the wrapped index comparison finds a frame if and only if one is completed |
| `RxSafety.OnePlace` | src/net.c:249-271 | each buffer is in exactly one place |
| `RxSafety.BufferSizes` | src/net.c:195-204 | eight buffers of 2048 bytes |
| `RxSafety.BetweenCalls` | src/net.c:249-271 | between calls avail idx minus used_seen is 8 modulo 2^16 |
| `RxSafety.DeliveredInOrder` | src/net.c:253-262 | delivered frames are the completed ones in order: their bytes from the thirteenth on, cut at the caller's buffer |
| `RxRing.IdxTells` | src/net.c:251-251 | 16-bit indices tell counts apart that differ by at most the queue size |
| `Checksum.FoldIsMod` | src/net.c:120-120 | folding is reduction modulo 65535, with 65535 for nonzero multiples |
| `Checksum.WordSumIsByteSum` | src/net.c:118-119 | the word sum counts bytes at even places 256 times and the others once |
| `Checksum.VerifiesMeans` | src/net.c:116-122 | data verifies if and only if that sum is a nonzero multiple of 65535 |
| `Checksum.FilledVerifies` | src/net.c:116-122 | filling the zeroed field makes the recomputed checksum zero, odd lengths included |
| `Checksum.AllOnesVerifies` | src/net.c:358-359 | all ones in place of a zero checksum verifies too |
| `Checksum.ExactIffFits` | src/net.c:116-122 | the 32-bit accumulator is exact if and only if the sum fits in it |
| `Checksum.OverflowShows` | src/net.c:116-122 | 131076 bytes of 255 give 1 where RFC 1071 gives 0 |
| `Checksum.AddWords` | src/net.c:118-119 | the summing loop adds the word sum modulo 2^32 |
| `Checksum.Cksum` | src/net.c:116-122 | the RFC 1071 checksum, for every length up to 131074 |
| `Checksum.SegmentChecksum` | src/net.c:350-357 | the inline sum is the checksum of pseudo-header followed by segment |
| `Checksum.IpHeader` | src/net.c:333-344 | the header's checksum verifies; every other byte of it is as written: 0x45, length, TTL 64, protocol, addresses; the rest of the packet untouched |
| `Checksum.UdpPacket` | src/net.c:327-361 | both checksums verify, the UDP one never zero; IP fields, ports, length and payload in place |
| `Checksum.TcpPacket` | src/net.c:490-517 | both checksums verify; IP fields, ports, numbers, header length, flags, window and data in place |

## Left out

Assumptions the code does not enforce:

- Single-block disk writes are atomic and succeed; the results that `src/fs.c` ignores are not modelled.
- File names are C strings, a name too long for its field is created only while its cut form is free, and file-system calls are serial.
- `heap_top` stays at or below `MMAPBASE`, a program image maps at most one file, and the mapped file is not deleted.
- The trap frame at fork lies in the user stack page.
- fork and `make_user_proc` are called when they return (`ForkReturnsIff`, `MakeUserReturnsIff`), and exec when a page is free; otherwise the code uses a null pointer or hangs in `kvmmap`, where `ProcPagetable` reports a failure.

Not modelled:

- MakeImage: does not model reading the input files, nor sizes and block numbers of 2^32 and more, which the tool cuts to 32 bits.
- FsCreate: leaves out sizes within 511 of the largest `int`, where the rounding at `src/fs.c:274` overflows.
- PageFault: takes the contents of a mapped page as an argument; `MappedReadsFile` says what follows when they are the words of what `FsReadPage` gives.
- Exec: treats the ELF loader as an arbitrary fill of the new code page that may fail.
- BoundedWaitingRun: counts visits of one hart's scan; fairness of the lock and of the hardware is not modelled.
- Each memory system call and each page fault is one atomic step.  The code holds `pt_lock` in fork and wait but runs faults, sbrk, mmap and exec outside it; what two harts do to each other between two calls of the allocator is not covered.
- Traps run on the user stack page, and forkret at the top of the child's stack (`src/proc.c:174`): the full copy but for the trap frame is the state when fork returns, and what the kernel writes there later counts as stores of that process.
- Dispatching a process whose code or page table is not mapped: `scheduler` switches to that table all the same (`src/proc.c:348`) and the hart cannot go on.  In the memory model such a process takes no steps of its own; the scheduler model gives every process a table.
- `Sched.FreshTable`, that fork's table is nobody else's, is assumed by the scheduler model; `ProcTable.NewTableAcct` proves it of the pages.
- Block copies of 512 and 4096 bytes, zeroing and memcpy are single assignments.
- The console's 64-bit positions are unbounded numbers, and `sbrk` does not wrap 64 bits.
- Assembly, CSRs and the interrupt-enable flag: a trap into `acquire` is one step, and what holds of `intena` across `swtch` is not claimed.
- The TLB, memory ordering and fences: steps are sequentially consistent.
- Kernel threads beyond their slot and table, `proc_dump`, pids and names of processes.
- Re-parenting of orphans, which the kernel does not do: parent links are between slots.
- The transmit queue, device discovery and negotiation, UART, PLIC and virtio-blk drivers.
- ARP, ICMP, DNS and the TCP dialogue, both shells, system call dispatch and the user programs.
