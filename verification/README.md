# TangPingOS verification

A Dafny model of the four stateful parts of the TangPingOS kernel, with proofs about every run of each of them.

**exFAT write path** (`kernel/blockfs.c`). The disk is a sequence of 512-byte sectors whose reads return the last write.
`Volume` says where the FAT entry and the bitmap bit of a cluster live, `EntrySet` and `DirectoryParser` hold the
three-entry directory set byte for byte, `Transaction` is the four-sector buffered transaction, and class
`Mounts.Mount` holds the methods of the write path. `FileSystem.Ok` is the invariant of a mounted volume: every writable
file owns an acyclic, end-marked chain of one to three clusters, disjoint from every other file, from the root directory
and from the bitmap, with its exact directory set on disk and every cluster that create or extend added marked in both
bitmap and FAT. Each operation is a function on the specification state (`CreateSpec`, `WriteSpec`, `FileOps`,
`CreateUnlink`), each method is proved equal to its function, and `FileView` shows the volume as a table of named byte
arrays. `Mounts.Mount.RunAll` is the whole-run statement: any sequence of writes, truncates and unlinks refines the
operations on that table, and files that cannot be written keep their rows and bytes. `Restore` proves that create followed
by unlink puts back every sector before the cluster heap and every sector of the bitmap. `RootScan` reads the root
directory back as a mount does: after any run it finds every writable file. `DiskFormat` ties places on disk to the exFAT
layout: the FAT as one array, the bitmap as one stream of bits, a file as the concatenation of its clusters. `Zeroing`
shows that clusters taken or given back hold zeros. `Format` shows that freshly formatted volumes satisfy the invariant,
and `Scenarios` runs the methods on them to the limits of the design.

**Memory manager** (`kernel/memory.c`, `kernel/usercopy.c`, `kernel/user.c`). `PageAllocators.PageAllocator` is the bitmap
allocator over 64-bit words. `Paging` describes four-level page tables as a tree of table frames inside a flat physical
memory (Intel SDM volume 3A, section 4.5; an entry is modelled by its fields, not by its 64-bit word), `Ownership` says
which frames a tree owns, `FrameCounts` how many frames tables and pages take, and `AddressSpaces.Vmm` creates, maps,
translates and destroys. `Heaps.Heap` is the first-fit heap on doubly linked headers in word memory, proved against the
block lists of `HeapSpec`. `UserCopies` and `ElfLoading` are the clients that read and write user bytes.

**xHCI rings** (`kernel/pci.c`). `XhciProtocol` interleaves the driver, one step per word it writes, with a controller that
obeys the cycle-bit and link rules of sections 4.9.2, 4.9.4 and 6.4.4.1 of the xHCI specification and may act between any
two driver steps, also before the doorbell. `XhciProgress` shows that a transfer comes to its end, `XhciDriver` holds the
driver's own methods and the order of their writes.

**Scheduler, blocking input, descriptors** (`kernel/scheduler.c`, `kernel/syscall.c`, `kernel/tty.c`, `kernel/input.c`).
Handlers are atomic, so each is one step: `SchedulerSpec` defines the steps, `SchedulerSafety` what they keep and how long a
task can wait, `SchedulerLaws` what each handler does to every task and over runs, `Schedulers.Scheduler` runs them on the
task table, `KeyInput.Terminal` adds the key ring and the blocking read, `FdTables.FdTable` is the reference-counted
descriptor table.

## What the code does that one might not expect

- The rows of unlinked files are never used again. Once the 32 rows of the table are used up, a create fails, and yet its
  directory set and clusters stay allocated without a row (`CreateSpec.LeakState`; `Mounts.Mount.Create` states it,
  `Scenarios.UseUpTable` gets there from any volume with room by creating and unlinking one file).
- An unlink of a file that was extended into scattered clusters can need more than the four buffered sectors and then
  fails, leaving everything as it was. `Mounts.Mount.Unlink` has the exact condition, `Restore.ScatteredUnlinkFails` a
  family of chains that meet it, `Scenarios.ScatteredUnlink` a run that ends there, and `Restore.CreateThenUnlink` shows
  that an unextended file never does.
- A truncate of a missing path may rename the still empty initial file and then fail because that file has too few
  clusters; the rename stays (`MountProofs.RenamesFirst` is the condition, `Scenarios.RenameByFailure` a run).
- A seek by the least 64-bit number is refused also where the target would be a position (`FdTables.SoughtIs`).
- `//NAME` names the same row as `/NAME` for write and truncate (`Paths.RootKey`).
- Destroying an address space whose root is frame 0 is refused, so conservation needs frame 0 not to be allocatable
  (`AddressSpaces.Vmm.Destroy`, `AddressSpaces.Vmm.Lifecycle`).
- The completion code of a transfer event is read again after the slot was given back to the controller;
  `XhciProtocol.RecheckStep` shows why the controller cannot have reused it.

## Model

| member | source | states |
|---|---|---|
| `Paths.ParseShortName` | kernel/blockfs.c:1236-1282 | accepts exactly the 8.3 names of upper-case letters, digits and underscores directly under the root |
| `Paths.SplitPath` | kernel/blockfs.c:2876-2903 | the loop computes the key that `Paths.KeySplits` characterizes |
| `Paths.KeySplits` | kernel/blockfs.c:2876-2903 | every path from a slash on splits at its last slash: before it the parent, or the root, after it the name, cut to the name buffer; no name, a parent too long and a path without a leading slash are refused |
| `Paths.RootKey` | kernel/blockfs.c:2876-2903 | exactly `/NAME` and `//NAME` name a file of the root directory |
| `Paths.ShortPathKey` | kernel/blockfs.c:1236-1282 | an accepted short path is looked up under the root by the name that was parsed |
| `Bytes.LeBytesInverse` | kernel/blockfs.c:648-669 | little-endian fields read back as the number that was written |
| `DiskFormat.LittleEndian` | kernel/blockfs.c:232-237 | a four-byte field is its bytes times the powers of 256, lowest first |
| `DiskFormat.BitMeaning` | kernel/blockfs.c:321-333 | bit k of a byte is the one that the mask with only bit k set picks |
| `DiskFormat.FatPlace` | kernel/blockfs.c:648-669 | the FAT is an array of four-byte entries by cluster number, across its sectors |
| `DiskFormat.BitNumber` | kernel/blockfs.c:1433-1479 | the bitmap is a stream of bits, the first for cluster 2, lowest bit of a byte first |
| `DiskFormat.BitPlaceInStream` | kernel/blockfs.c:1433-1479 | the bit of cluster c lies in the sector of the bitmap's own chain that holds its byte (c - 2) / 8 |
| `DiskFormat.ClusterPlace` | kernel/blockfs.c:629-640 | the heap starts with cluster 2 and the clusters follow each other |
| `DiskFormat.StreamAt` | kernel/blockfs.c:671-701 | byte p of a file is byte p of the concatenation of its clusters' sectors |
| `Volume.SetFatReads` | kernel/blockfs.c:1519-1543 | writing a FAT entry is read back and changes no other entry |
| `Volume.PutBitReads` | kernel/blockfs.c:1481-1517 | setting or clearing a bitmap bit is read back and changes no other cluster's bit |
| `Volume.SectorOwner` | kernel/blockfs.c:629-640 | a heap sector belongs to one cluster at one position |
| `Frames.SetFatChanges` | kernel/blockfs.c:1519-1543 | a FAT write leaves every other FAT entry, every bit and every cluster alone |
| `Frames.PutBitChanges` | kernel/blockfs.c:1481-1517 | a bit write leaves every FAT entry, every other bit and every cluster outside the bitmap alone |
| `Chains.WalkChain` | kernel/blockfs.c:671-701 | following the FAT along a linked chain reaches its clusters in order |
| `Chains.FileLbaInjective` | kernel/blockfs.c:3140-3161 | two positions in different sectors of a file are never in the same disk sector |
| `Allocation.MarkChainAt` | kernel/blockfs.c:1711-1719 | marking a run sets every bit and links every cluster to the next, the last to the end mark |
| `Allocation.ReleaseChainFrees` | kernel/blockfs.c:1792-1808 | after a release every cluster of the chain has a clear bit and a zero FAT entry |
| `Allocation.ZeroClustersChanges` | kernel/blockfs.c:1545-1560 | zeroing clusters touches no FAT entry, no bit and no other cluster |
| `Zeroing.CreateZeroes` | kernel/blockfs.c:1703-1707 | every byte of the clusters of a created file is zero, also when the table was full |
| `Zeroing.ExtendZeroes` | kernel/blockfs.c:1841-1845 | every byte of the clusters an extension adds is zero |
| `Zeroing.UnlinkZeroes` | kernel/blockfs.c:1931-1937 | every byte of the clusters of an unlinked file is zero |
| `EntrySet.EntrySetChecksum` | kernel/blockfs.c:919-930 | the loop computes the set checksum, skipping the stored checksum bytes |
| `EntrySet.ChecksumRotates` | kernel/blockfs.c:904-908 | a checksum step rotates the sixteen bits right by one and adds the byte modulo 2 to the 16 |
| `EntrySet.BitsOf` | kernel/blockfs.c:904-908 | every 16-bit checksum has bits that the rotation applies to |
| `EntrySet.AsciiUtf16NameHash` | kernel/blockfs.c:910-917 | the loop computes the name hash over the UTF-16 bytes of the name |
| `EntrySet.StoredChecksumIsRecomputed` | kernel/blockfs.c:919-930 | the checksum stored in an encoded set equals the one recomputed from it |
| `EntrySet.EncodeNameEntry` | kernel/blockfs.c:1284-1291 | writes the name entry of the encoding and nothing else |
| `EntrySet.EncodeFileEntries` | kernel/blockfs.c:1385-1408 | fills the buffer with exactly the encoded set of a name, first cluster and size |
| `DiskFormat.SetFields` | kernel/blockfs.c:1385-1408 | where each field of the encoded set lies and what it holds: types, counts, checksum, name length and hash, both lengths, first cluster, characters |
| `EntrySet.RefreshKeepsEncoding` | kernel/blockfs.c:1293-1330 | refreshing the size of an encoded set gives the encoding of the new size |
| `EntrySet.RenameKeepsEncoding` | kernel/blockfs.c:1332-1383 | renaming an encoded set gives the encoding of the new name |
| `EntrySet.RefreshSector` | kernel/blockfs.c:1293-1330 | rewrites only the set in the sector buffer, to the encoding with the new size |
| `EntrySet.RenameSector` | kernel/blockfs.c:1332-1383 | rewrites only the set in the sector buffer, to the encoding with the new name |
| `DirectoryParser.ParseDirectorySector` | kernel/blockfs.c:846-898 | the parser's loop delivers the parsed sets of a directory sector in order |
| `DirectoryParser.ReadSet` | kernel/blockfs.c:872-892 | the inner loop gathers name, first cluster and size from the secondary entries of one set |
| `DirectoryParser.EncodedSetParses` | kernel/blockfs.c:846-898 | parsing an encoded set returns exactly its name, first cluster and 64-bit size |
| `Transaction.BlockDevice.WriteChecked` | kernel/blockfs.c:305-319 | a checked write stores the sector and leaves the others alone |
| `Transaction.DeleteEntries` | kernel/blockfs.c:356-371 | clears the in-use bit of each entry, and fails when one is not in use |
| `Transaction.ApplyPatch` | kernel/blockfs.c:321-371 | applies a bit, word, bytes or delete patch, or refuses it |
| `Transaction.SectorTransaction.Get` | kernel/blockfs.c:382-405 | buffers a sector on first use, within the budget, without changing what the transaction shows |
| `Transaction.SectorTransaction.Mutate` | kernel/blockfs.c:407-417 | patches the buffered view; repeated patches of one sector accumulate |
| `Transaction.SectorTransaction.Commit` | kernel/blockfs.c:434-446 | writes exactly the buffered view to the disk |
| `Transaction.SectorTransaction.Verify` | kernel/blockfs.c:419-432 | accepts exactly when every buffered sector equals the disk |
| `Transaction.AppliedLeavesRest` | kernel/blockfs.c:407-446 | sectors that no patch names are unchanged |
| `Transaction.RunTransaction` | kernel/blockfs.c:373-446 | all or nothing: succeeds exactly when every patch applies and at most four sectors are touched, and then equals applying the patches one by one |
| `Edits.MarkEditsYield` | kernel/blockfs.c:1711-1719 | the buffered bit and FAT patches of a new run yield the marked disk |
| `Edits.ReleaseEditsYield` | kernel/blockfs.c:1792-1808 | the buffered patches of a release yield the released disk |
| `Edits.OneBoundary` | kernel/blockfs.c:1433-1543 | a FAT sector boundary and a bitmap sector boundary never fall inside one run of up to three clusters |
| `Edits.RunBudget` | kernel/blockfs.c:1711-1727 | the bits and FAT entries of up to three consecutive clusters lie in at most three sectors |
| `Edits.BudgetPlusOne` | kernel/blockfs.c:394-396 | a create or an extension never needs more than the four buffered sectors |
| `Search.RunScanEnd` | kernel/blockfs.c:1587-1612 | a finished scan without success means that no free run of that length exists |
| `Search.FreeRunIsFresh` | kernel/blockfs.c:1596-1611 | a run found free belongs to no file, to no reserved cluster and to nothing added before |
| `Search.SlotRunInSector` | kernel/blockfs.c:1614-1670 | three free slots that the scan accepts lie in one root directory sector |
| `FileSystem.FileBytes` | kernel/blockfs.c:2921-2969 | the bytes a file shows, as many as its size says |
| `DiskFormat.FileIsStream` | kernel/blockfs.c:2921-2969 | what a file shows is the beginning of its clusters' sectors, as long as its size |
| `FileSystem.BaseFrame` | kernel/blockfs.c:671-701 | root directory and bitmap stay readable under changes outside them |
| `FileSystem.RowFrame` | kernel/blockfs.c:846-898 | a row stays valid under changes that miss its chain and its directory set |
| `FileSystem.WriteBytesReads` | kernel/blockfs.c:3140-3167 | after the sector loop the range reads as the bytes written and every other byte of the file as before |
| `FileOps.WriteStateOk` | kernel/blockfs.c:3140-3167 | overwriting a range inside the capacity keeps the invariant |
| `FileOps.WriteStateBytes` | kernel/blockfs.c:3140-3167 | overwriting changes exactly the written range of one file |
| `FileOps.RelabelStateOk` | kernel/blockfs.c:1293-1383 | a new size or name in the directory set and the row keeps the invariant |
| `FileOps.RelabelStateBytes` | kernel/blockfs.c:1293-1383 | a new size or name changes no byte of any file below the old size |
| `FileOps.ExtendStateOk` | kernel/blockfs.c:1810-1881 | linking fresh clusters behind the old end keeps the invariant |
| `FileOps.ExtendStateBytes` | kernel/blockfs.c:1810-1881 | an extension changes no byte of any file |
| `CreateUnlink.AllocStateOk` | kernel/blockfs.c:1703-1719 | zeroing, linking and marking fresh clusters keeps the invariant |
| `CreateUnlink.EnterStateOk` | kernel/blockfs.c:1720-1736 | entering the new set in free slots and in the table keeps the invariant |
| `CreateUnlink.OrphanStateOk` | kernel/blockfs.c:1720-1732 | a directory set without a row keeps the invariant too |
| `CreateUnlink.UnlinkStateOk` | kernel/blockfs.c:1900-1943 | releasing slots, bits, links and data of a file keeps the invariant |
| `CreateUnlink.UnlinkStateBytes` | kernel/blockfs.c:1900-1943 | unlinking a file changes no byte of any other |
| `CreateSpec.CreateStateOk` | kernel/blockfs.c:1672-1740 | creating a file keeps the invariant, also when the table is full |
| `CreateSpec.CreateStateRows` | kernel/blockfs.c:1672-1740 | the new row is empty, writable, owns the chosen run and has its capacity; no other row changed |
| `CreateSpec.CreateStateBytes` | kernel/blockfs.c:1672-1740 | creating a file changes no byte of any existing one |
| `CreateSpec.CreateFits` | kernel/blockfs.c:1684-1727 | the chosen run and slot are free for what the create writes there |
| `WriteSpec.ClusterCountBounds` | kernel/blockfs.c:1562-1585 | the cluster count is the smallest that holds the size, and 0 exactly when three clusters do not |
| `WriteSpec.GrowDecides` | kernel/blockfs.c:3130-3138 | a write past the capacity can grow the file exactly when enough clusters are free in one run |
| `WriteSpec.WriteFileRows` | kernel/blockfs.c:3110-3174 | a write keeps the invariant and every other row, and sets the size to the end of the range if that is larger |
| `WriteSpec.WriteFileBytes` | kernel/blockfs.c:3110-3174 | after a write the range reads as written and the other bytes below the old size as before, also when the chain grew |
| `WriteSpec.WriteFileOthers` | kernel/blockfs.c:3110-3174 | a write changes no byte of any other file |
| `FileView.Files` | kernel/blockfs.c:3110-3242 | the volume as a table of named byte arrays, one entry per row |
| `FileView.ExistingWriteStep` | kernel/blockfs.c:3110-3174 | a write to an existing file is the abstract write |
| `FileView.NewWriteStep` | kernel/blockfs.c:3176-3204 | creating and writing a missing file appends exactly the written bytes under its name |
| `FileView.UnlinkStep` | kernel/blockfs.c:1900-1943 | an unlink removes exactly the named file |
| `FileView.ExistingTruncateStep` | kernel/blockfs.c:3206-3242 | a truncate of an existing file is the abstract resize |
| `Mounts.Mount.ReadFatEntry` | kernel/blockfs.c:648-669 | reads the FAT entry of a valid cluster, and refuses the others |
| `Mounts.Mount.ResolveCluster` | kernel/blockfs.c:671-701 | finds a stream's cluster by number, contiguous or by FAT |
| `Mounts.Mount.LocateBit` | kernel/blockfs.c:1433-1479 | finds sector, byte and bit of a cluster through the bitmap's own chain |
| `Mounts.Mount.ReadBit` | kernel/blockfs.c:1416-1431 | reads the bitmap bit of a cluster |
| `Mounts.Mount.FindFreeRun` | kernel/blockfs.c:1587-1612 | finds the first run of that many free clusters, and fails only when there is none |
| `Mounts.Mount.FindRootSlot` | kernel/blockfs.c:1614-1670 | finds the first three consecutive free slots of the root directory, counted through sector ends |
| `Mounts.Mount.ScanRoot` | kernel/blockfs.c:2126-2161 | reads the whole root directory: the parsed sets of its sectors in order, up to the end mark |
| `Mounts.Mount.FindRootEntry` | kernel/blockfs.c:2876-2913 | finds the first row that matches a path |
| `Mounts.Mount.ZeroAll` | kernel/blockfs.c:1545-1560 | writes zeros to every sector of the clusters |
| `Mounts.Mount.CommitCreate` | kernel/blockfs.c:1709-1727 | one transaction enters the set and marks the run; it always fits |
| `Mounts.Mount.Create` | kernel/blockfs.c:1672-1741 | succeeds exactly when name, path, run, slot and table row allow it; states the whole new state, also of a full table |
| `Mounts.Mount.CollectChain` | kernel/blockfs.c:1760-1790 | collects exactly the file's chain |
| `Mounts.Mount.Extend` | kernel/blockfs.c:1810-1881 | extends exactly when the clusters exist, to exactly that many, and states the whole new state |
| `Mounts.Mount.Refresh` | kernel/blockfs.c:1293-1330 | stores a new size within the capacity in set and row |
| `Mounts.Mount.Rename` | kernel/blockfs.c:1332-1383 | renames exactly the empty initial file, and only to an unused accepted name |
| `Mounts.Mount.ReadFile` | kernel/blockfs.c:2921-2969 | reads exactly the part of the file's bytes that the range covers |
| `Mounts.Mount.WriteBuffer` | kernel/blockfs.c:3140-3167 | the sector loop writes exactly the range |
| `Mounts.Mount.WriteFile` | kernel/blockfs.c:3110-3174 | succeeds exactly when the range fits or the file can grow, by the lowest free run; states the whole new state |
| `Mounts.Mount.Unlink` | kernel/blockfs.c:1900-1943 | succeeds exactly for a named writable file whose release fits the transaction; states the whole new state |
| `Mounts.Mount.Write` | kernel/blockfs.c:3176-3204 | write by path, for the row whose root name the path spells as `/NAME` or `//NAME`: exact success condition and the abstract step on named byte arrays |
| `Mounts.Mount.Truncate` | kernel/blockfs.c:3206-3242 | truncate by path, for the row whose root name the path spells as `/NAME` or `//NAME`: exact success condition, the abstract step on named byte arrays, and exactly when a failing call still renames |
| `Mounts.Mount.Remove` | kernel/blockfs.c:1900-1943 | unlink by path: exact success condition and the abstract removal |
| `Mounts.Mount.RunAll` | kernel/blockfs.c:1587-1943 | every run keeps the invariant; whatever came before, each operation succeeds exactly when acceptable and refines its abstract step; the directory stays parseable |
| `Mounts.Mount.RunThenScan` | kernel/blockfs.c:2126-2161 | after any run a fresh scan of the root directory finds name, size and first cluster of every writable file |
| `Restore.CreateThenUnlink` | kernel/blockfs.c:1672-1808 | create then unlink always succeeds, restores FAT and bitmap sectors byte for byte and frees the three slots |
| `Restore.RoundTripMeta` | kernel/blockfs.c:1672-1808 | between the two disks only FAT entries and bits of the run may differ, padding bits included |
| `Restore.ScatteredUnlinkFails` | kernel/blockfs.c:394-396 | an extended file in three FAT sectors and two bitmap sectors does not fit the transaction |
| `Format.FormattedFree` | kernel/blockfs.c:1587-1612 | on a formatted volume exactly the clusters left free look free |
| `Format.FormattedOk` | kernel/blockfs.c:617-627 | a formatted volume without files satisfies the invariant, whichever clusters are left free |
| `Format.FormattedDir` | kernel/blockfs.c:846-858 | its empty root directory is one the parser can follow |
| `RootScan.ParseReaches` | kernel/blockfs.c:846-898 | the parser comes to every file entry of a sector that no end mark precedes, whatever sets lie before it |
| `RootScan.ScanReaches` | kernel/blockfs.c:2126-2161 | so does the scan of the whole directory |
| `RootScan.RowFound` | kernel/blockfs.c:2126-2161 | the scan delivers name, size and first cluster of every writable file |
| `RootScan.CreateDir` | kernel/blockfs.c:1672-1736 | a create keeps the directory parseable: no end mark before its slots, no set reaching over them |
| `RootScan.UnlinkDir` | kernel/blockfs.c:1743-1758 | an unlink keeps it parseable |
| `RootScan.RelabelDir` | kernel/blockfs.c:1293-1383 | so do a new size and a new name |
| `RootScan.WriteFileDir` | kernel/blockfs.c:3110-3174 | so does a write, growth included |
| `Scenarios.ScatteredUnlink` | kernel/blockfs.c:1810-1943 | on a nearly full volume a create and two growing writes, each with the run the search finds, give a file whose unlink fails |
| `Scenarios.CreateAgain` | kernel/blockfs.c:1672-1943 | after create and unlink the same create chooses the same clusters and slots again, with one table row less |
| `Scenarios.UseUpTable` | kernel/blockfs.c:819-824 | on any volume with room, create and unlink succeed until the 32 rows are used up; then a create fails and its clusters are lost |
| `Scenarios.RenameByFailure` | kernel/blockfs.c:3206-3242 | a run in which a truncate fails and leaves the initial file renamed |
| `PageAllocators.PageAllocator.constructor` | kernel/memory.c:635-681 | from the memory map: the free set is the pages wholly inside usable regions, the count is its size |
| `PageAllocators.PageEndIs` | kernel/memory.c:648-658 | the end of the managed pages is that of the region that reaches furthest, cut at the limit |
| `PageAllocators.UsableIs` | kernel/memory.c:672-674 | a page is free at start exactly when it lies wholly inside a usable region, below the limit |
| `PageAllocators.PageAllocator.MarkRangeFree` | kernel/memory.c:91-101 | frees exactly the pages wholly inside the range |
| `PageAllocators.PageAllocator.SetUsed` | kernel/memory.c:77-82 | removes one page from the free set and counts it once |
| `PageAllocators.PageAllocator.SetFree` | kernel/memory.c:84-89 | adds one page to the free set and counts it once |
| `PageAllocators.PageAllocator.AllocPage` | kernel/memory.c:107-125 | returns the lowest free page at or above the hint, else the lowest below it, moves the hint behind it, and fails exactly when none is free |
| `PageAllocators.PageAllocator.FindRun` | kernel/memory.c:132-143 | with its skip-ahead, finds the lowest free run of a range, or none exists |
| `PageAllocators.SkipAhead` | kernel/memory.c:133-143 | a used page rules out every run that would contain it |
| `PageAllocators.PageAllocator.AllocContiguous` | kernel/memory.c:127-176 | the lowest free run at or above the hint, else the lowest wholly below it, else failure because neither exists; states the new hint |
| `PageAllocators.PageAllocator.FreePage` | kernel/memory.c:178-192 | refuses unaligned and out-of-range addresses, and otherwise frees exactly that page and lowers the hint to it if it is below |
| `Paging.EntryElsewhere` | kernel/memory.c:236-249 | writing one entry changes no other position of the tree |
| `Paging.SetPageTree` | kernel/memory.c:264-278 | writing a page entry keeps the tree and its user-access paths |
| `Paging.LinkTree` | kernel/memory.c:236-249 | linking a zeroed table keeps the tree |
| `Paging.AddUserTree` | kernel/memory.c:244-248 | adding the user bit from the top down keeps the tree |
| `Ownership.KidsApart` | kernel/memory.c:395-477 | the frames below different entries of a table are disjoint |
| `Ownership.OwnedIsBelow` | kernel/memory.c:395-477 | the frames reachable from the root are exactly the tables and the mapped pages |
| `AddressSpaces.IndexIsSlot` | kernel/memory.c:256-259 | the shifted and masked indices of a user address are its positions in the tree |
| `AddressSpaces.IndexDigits` | kernel/memory.c:256-259 | the four indices, highest level first, and the offset make up the address |
| `AddressSpaces.UserPath` | kernel/memory.c:372-390 | a user page is reached through present user entries at every level |
| `AddressSpaces.Vmm.NextLevel` | kernel/memory.c:236-249 | returns the next table, makes it on demand from the free set, opens it to user accesses if asked; fails exactly when it is missing and no frame is free |
| `AddressSpaces.Vmm.LastTable` | kernel/memory.c:262-264 | makes the missing tables toward a page; fails exactly when there are fewer free frames than missing tables |
| `AddressSpaces.Vmm.MapPage` | kernel/memory.c:251-283 | updates exactly one page of the map; other pages, other frames and the kernel half are untouched; exact conditions for refusal and panic |
| `AddressSpaces.Vmm.Translate` | kernel/memory.c:360-393 | the walk equals a lookup in the map of user pages: last mapping plus offset, if access and mode allow it |
| `AddressSpaces.MappedReads` | kernel/memory.c:251-393 | after mapping a page, its addresses translate to the frame plus their offset exactly if the flags allow the access, and all others as before |
| `AddressSpaces.Vmm.Create` | kernel/memory.c:479-494 | an empty user half, the kernel's upper half, one frame taken |
| `AddressSpaces.Vmm.FillRoot` | kernel/memory.c:481-490 | the two loops clear the user half and copy the kernel half |
| `AddressSpaces.Vmm.FreeEntry` | kernel/memory.c:395-454 | frees exactly the frames one entry leads to |
| `AddressSpaces.Vmm.FreeTable` | kernel/memory.c:395-454 | frees exactly the frames at and below a table, counts them and writes nowhere else |
| `AddressSpaces.Vmm.Destroy` | kernel/memory.c:456-477 | frees exactly the owned frames and returns their number; refuses the kernel's, the loaded and the zero root |
| `AddressSpaces.Vmm.MapFresh` | kernel/memory.c:251-283 | mapping a fresh frame at a new page keeps all frames distinct and conserves free plus owned; exact conditions for refusal and panic |
| `AddressSpaces.Vmm.MapAll` | kernel/memory.c:251-283 | maps a list of pages; succeeds exactly when aligned and frames suffice |
| `AddressSpaces.Vmm.Lifecycle` | kernel/memory.c:456-494 | create, map fresh frames at distinct pages in any order, destroy: goes through exactly when the addresses are aligned and there are frames for all tables and pages; then exactly those are freed, the free set is as before, and no frame in use before was written |
| `HeapSpec.LiveApart` | kernel/memory.c:522-633 | live payloads are 16-aligned, inside the tiled region, and equal or disjoint |
| `HeapSpec.MallocOk` | kernel/memory.c:572-612 | an allocation keeps block sizes and leaves no two free neighbours |
| `HeapSpec.MallocLive` | kernel/memory.c:572-612 | an allocation makes exactly one payload live, at least as large as asked for and less than 64 bytes larger |
| `HeapSpec.FreeOk` | kernel/memory.c:620-633 | a release keeps block sizes and leaves no two free neighbours |
| `HeapSpec.FreeLive` | kernel/memory.c:620-633 | a release makes exactly that payload dead |
| `HeapMemory.CutRepresents` | kernel/memory.c:522-544 | splitting relinks the headers to those of the split list |
| `HeapMemory.JoinRepresents` | kernel/memory.c:546-570 | merging relinks the headers to those of the merged list |
| `HeapMemory.AppendRepresents` | kernel/memory.c:596-608 | appending a block relinks the headers to those of the longer list |
| `Heaps.BlockNotLive` | kernel/memory.c:522-633 | headers and free payloads never lie inside a live payload |
| `Heaps.Heap.EnsureMapped` | kernel/memory.c:512-520 | grows the mapped region by zeroed pages, to less than a page past the end asked for, and changes no word; fails exactly when there are too few frames for the pages and their tables |
| `Heaps.Heap.MapHeapPage` | kernel/memory.c:512-520 | one heap page: a frame for it and frames for the missing kernel tables, or failure when they run out |
| `Heaps.Heap.SplitBlock` | kernel/memory.c:522-544 | cuts a block exactly when header and 16 bytes remain; no live word changes |
| `Heaps.Heap.FindFit` | kernel/memory.c:580-586 | follows the links to the first free block that is large enough |
| `Heaps.Heap.Append` | kernel/memory.c:588-611 | adds a block at the end of the heap; panics exactly when the region or the memory is exhausted |
| `Heaps.Heap.Kmalloc` | kernel/memory.c:572-612 | first fit else append; the result is aligned, large enough but less than 64 bytes too large, apart from every live payload, no live word changed; exact panic condition |
| `Heaps.Heap.Merge` | kernel/memory.c:549-558 | merges two free neighbours; no live word changes |
| `Heaps.Heap.Coalesce` | kernel/memory.c:546-570 | merges a free block with its free neighbours on both sides |
| `Heaps.Heap.Kfree` | kernel/memory.c:620-633 | releases exactly one live payload, every other keeps its words; any other pointer is refused and changes nothing |
| `Heaps.FreeTells` | kernel/memory.c:627-629 | a pointer to a free block is one that kfree refuses |
| `Heaps.ClientWriteKeeps` | kernel/memory.c:522-633 | a write inside a live payload keeps the heap consistent and every other payload |
| `Heaps.Heap.Store` | kernel/memory.c:522-633 | the same as a step of a client |
| `UserCopies.SamePage` | kernel/usercopy.c:26-34 | within a page, translation advances byte by byte |
| `UserCopies.UserMemory.ValidateRange` | kernel/usercopy.c:13-37 | accepts exactly the empty and the non-wrapping ranges whose every byte may be accessed |
| `UserCopies.WrapsIs` | kernel/usercopy.c:9-11 | a range wraps exactly when its last address, in 64-bit arithmetic, is below its first |
| `UserCopies.UserMemory.CopyFromUser` | kernel/usercopy.c:39-71 | delivers exactly the translated bytes, and succeeds exactly when every byte may be read |
| `UserCopies.UserMemory.CopyToUser` | kernel/usercopy.c:73-105 | leaves memory as a byte-by-byte copy would, also when it stops at a missing page, and succeeds exactly when every byte may be written |
| `UserCopies.StoredReads` | kernel/usercopy.c:73-105 | when no two pages share a frame, every address of a copied range then holds its byte |
| `UserCopies.StoredElsewhere` | kernel/usercopy.c:73-105 | bytes that no address of the range leads to keep their value |
| `UserCopies.CopyRoundTrip` | kernel/usercopy.c:39-105 | copying out what was copied in gives it back when no two pages share a frame |
| `ElfLoading.BuildPage` | kernel/user.c:428-438 | a page of a segment holds its file bytes and zeros |
| `ElfLoading.NewPageShows` | kernel/user.c:427-443 | filling a fresh frame and mapping it shows its bytes there and changes no other page |
| `ElfLoading.SegmentOkMeans` | kernel/user.c:392-422 | the checks accept a non-empty segment exactly when its file part lies in the image and in its memory, page offsets agree, every address is a user address and no page is one of the stack's |
| `ElfLoading.Loader.LoadPage` | kernel/user.c:427-443 | one page: fresh frame, bytes, mapping with the segment's access; fails exactly when frames run out |
| `ElfLoading.Loader.LoadPages` | kernel/user.c:427-443 | the pages of a segment, with its file bytes, write access and no-execute flag; earlier entries are kept; fails exactly when there are too few frames for them and their tables |
| `ElfLoading.Loader.LoadSegment` | kernel/user.c:392-444 | every byte of the segment's pages reads as its file byte or zero, writable and executable exactly as the segment says; earlier segments and entries keep theirs; exact condition for a panic |
| `ElfLoading.Loader.LoadImage` | kernel/user.c:458-484 | for page-disjoint segments every address of every segment's pages reads as its file byte or zero, writable and executable exactly as its segment says; exactly the needed pages are added and old entries kept; the heap starts after the highest; exact condition for a panic |
| `ElfLoading.ImageEndLeast` | kernel/user.c:470-481 | the end of the image is the least address that no segment passes |
| `XhciRing.MarkKeeps` | kernel/pci.c:322-338 | clearing the next slot keeps the ring safe whatever the controller does meanwhile |
| `XhciRing.LinkKeeps` | kernel/pci.c:1708-1714 | rewriting the link, address words included, at the end of a lap cannot be seen by the controller |
| `XhciRing.LinkLeadsBack` | kernel/pci.c:1709-1710 | the address words of the link lead to the first slot |
| `XhciRing.FollowKeeps` | kernel/pci.c:1708-1714 | a controller that follows the link lands on the first slot with the next lap's cycle bit |
| `XhciRing.QueueKeeps` | kernel/pci.c:1718-1724 | the control word, written last, hands over exactly one transfer |
| `XhciRing.MoveKeeps` | kernel/pci.c:340-360 | advancing after a completed transfer keeps slot and cycle equal to the count of transfers |
| `XhciRing.ConsumeIsQueued` | kernel/pci.c:1705-1740 | whatever the controller consumes is the queued transfer, once and in order |
| `XhciRing.NeverPast` | kernel/pci.c:1705-1740 | an active slot under the controller is a queued transfer or the link |
| `XhciEvents.PostKeeps` | kernel/pci.c:378-454 | posting below the published dequeue pointer overwrites no unread event |
| `XhciEvents.SeesOldest` | kernel/pci.c:400-405 | the driver sees an event exactly when one is unread, and then the oldest |
| `XhciEvents.PassedStays` | kernel/pci.c:447-450 | the slot just released still holds its event |
| `XhciProtocol.RecheckStep` | kernel/pci.c:447-450 | the completion code read after the release is the one that was seen, so a successful transfer is never reported as failed |
| `XhciProtocol.StepKeeps` | kernel/pci.c:322-454 | every step of driver or controller keeps the invariant |
| `XhciProtocol.StartIsSafe` | kernel/pci.c:2134-2144 | the start state of both rings and the event ring satisfies it |
| `XhciProtocol.Safety` | kernel/pci.c:1671-1740 | over every interleaving and any number of laps: consumed equals queued up to the one in flight, in order and once, never past the enqueue slot, links lead back; event index and cycle are the count of events, and the event in hand is the next one posted |
| `XhciProgress.ControllerCan` | kernel/pci.c:1705-1724 | a queued transfer can be consumed, at once or after following the link |
| `XhciProgress.PostOrUnread` | kernel/pci.c:413-416 | an event can be posted unless the driver still has one to take |
| `XhciProgress.WaitTakes` | kernel/pci.c:400-405 | the waiting driver takes the oldest unread event if there is one, and otherwise keeps waiting |
| `XhciProgress.ConsumedArrives` | kernel/pci.c:1705-1740 | a consumed transfer has its completion posted or owed, and posting it is all that is missing |
| `XhciProgress.LeftBound` | kernel/pci.c:400-450 | the driver has at most three steps to go for each unread event and three more |
| `XhciProgress.DriveCloser` | kernel/pci.c:400-450 | once the completion is posted every driver step brings the end of the transfer one step closer; the last one ends it |
| `XhciProgress.OthersKeepClose` | kernel/pci.c:400-450 | nothing the controller does moves it away |
| `XhciProgress.TransferEnds` | kernel/pci.c:400-454 | in every interleaving with that many driver steps the transfer ends: driver idle, ring one transfer further, events passed up to its own |
| `XhciDriver.SubmitKeeps` | kernel/pci.c:1705-1724 | queueing leaves exactly one transfer and closes the slot after it |
| `XhciDriver.SubmitIsSteps` | kernel/pci.c:1705-1724 | the protocol's driver steps of one transfer, word by word up to the doorbell, give exactly the ring that Submit gives |
| `XhciDriver.TransferRing.MarkInactive` | kernel/pci.c:322-338 | clears one slot, never the link |
| `XhciDriver.TransferRing.Submit` | kernel/pci.c:1705-1724 | queues exactly one transfer, and writes in this order: the next slot or the link, then the transfer with its control word last |
| `XhciDriver.OrderIsProtocol` | kernel/pci.c:1705-1724 | that order is, word by word, the one in which the protocol's driver writes |
| `XhciDriver.TransferRing.Transfer` | kernel/pci.c:1692-1724 | queues a buffer; refuses exactly the zero address, length 0 and lengths over a page, and then changes nothing |
| `XhciDriver.TransferWordsMean` | kernel/pci.c:1718-1723 | the words of a transfer give back the 64-bit address and the length |
| `XhciDriver.TransferRing.Advance` | kernel/pci.c:340-360 | moves the enqueue slot, flips the cycle and counts the wrap at the end of a lap |
| `XhciDriver.EventCursor.Advance` | kernel/pci.c:362-376 | index and cycle stay those of the number of events passed |
| `SchedulerSpec.PickSound` | kernel/scheduler.c:324-337 | boot is chosen exactly when no task is runnable, otherwise a runnable task |
| `SchedulerSpec.ScanFinds` | kernel/scheduler.c:329-334 | the scan takes the nearest runnable task going round |
| `SchedulerSafety.DispatchKeeps` | kernel/scheduler.c:366-378 | after a dispatch the current task is boot with nothing runnable, or runnable |
| `SchedulerSafety.PendingRoom` | kernel/scheduler.c:404-412 | the queue of stacks to free always has room, so its panic is unreachable |
| `SchedulerSafety.ReleaseKeeps` | kernel/scheduler.c:380-413 | a finished task's stack is queued once and nothing else changes |
| `SchedulerSafety.FinishKeeps` | kernel/scheduler.c:447-485 | exit and fault keep the invariant and never leave the finished task current |
| `SchedulerSafety.TickKeeps` | kernel/scheduler.c:423-445 | a timer tick keeps the invariant and frees all queued stacks, each of a task that is current neither before nor after |
| `SchedulerSafety.StepKeeps` | kernel/scheduler.c:324-538 | every handler keeps the invariant: current is boot or runnable, stopped means released, every stack held, queued or freed, once |
| `SchedulerSafety.StepFrees` | kernel/scheduler.c:415-421 | only a tick frees stacks, and only of tasks that are current neither before nor after |
| `SchedulerSafety.StoppedStays` | kernel/scheduler.c:447-485 | a stopped task stays stopped, and what was freed stays freed |
| `SchedulerSafety.RunKeeps` | kernel/scheduler.c:324-538 | over any run the invariant holds, no stack is freed twice, what was freed stays freed, and a stopped task stays stopped and is never current |
| `SchedulerSafety.StackFreedOnce` | kernel/scheduler.c:380-421 | a task that a run leaves without its stack has it freed by the next tick, once, and is not current |
| `SchedulerSafety.StepCloser` | kernel/scheduler.c:324-337 | every step keeps a waiting runnable task as close to dispatch as it was; every decision and every tick brings it closer |
| `SchedulerSafety.BoundedWaiting` | kernel/scheduler.c:423-529 | without task creation, a run in which a task stays runnable and undispatched has fewer scheduling decisions than tasks and fewer ticks than 25 times the tasks, also from before the first tick |
| `SchedulerSafety.Dispatched` | kernel/scheduler.c:324-337 | the same as a promise: after that many decisions or ticks the task has been dispatched |
| `SchedulerLaws.StepLaw` | kernel/scheduler.c:324-538 | the table of every handler's effect on every task: who stops, sleeps until when, waits, wakes, whose frame is saved; only a tick moves the clock |
| `SchedulerLaws.SpawnLaw` | kernel/scheduler.c:245-322 | a new task is runnable with the frame it was given and a stack of its own; nothing else changes |
| `SchedulerLaws.QuantumLaw` | kernel/scheduler.c:423-445 | without a decision the current task stays, and its quantum counts the ticks |
| `SchedulerLaws.DecisionLaw` | kernel/scheduler.c:366-378 | a decision starts a fresh quantum and leaves boot current exactly when no task is runnable |
| `SchedulerLaws.BootLaw` | kernel/scheduler.c:350-364 | the frame of boot is saved by exactly the ticks that interrupt it |
| `SchedulerLaws.ClockCounts` | kernel/scheduler.c:423-445 | over any run the clock advances by the ticks in it |
| `SchedulerLaws.SleepsExactly` | kernel/scheduler.c:498-516 | a task that sleeps for n ticks is asleep until the n-th tick, whatever else happens, and runnable after it |
| `SchedulerLaws.ResumedWith` | kernel/scheduler.c:366-378 | a task is resumed with exactly the frame it was suspended with, after any run in between |
| `SchedulerLaws.BootParked` | kernel/scheduler.c:350-364 | while tasks run, the frame of boot is kept |
| `SchedulerLaws.WakeLaw` | kernel/scheduler.c:531-538 | a wake makes exactly the input waiters runnable |
| `SchedulerLaws.ReaderComesBack` | kernel/scheduler.c:531-538 | a reader that was blocked when a key came is dispatched within as many decisions as there are tasks |
| `Schedulers.Scheduler.NextRunnable` | kernel/scheduler.c:324-337 | the loop computes the specified choice and index |
| `Schedulers.Scheduler.OnTimerTick` | kernel/scheduler.c:423-445 | the handler computes the specified tick |
| `Schedulers.Scheduler.FinishCurrent` | kernel/scheduler.c:447-485 | the handlers for exit and fault compute the specified step; the queue never overflows |
| `Schedulers.Scheduler.ReleaseResources` | kernel/scheduler.c:380-413 | releases a task's resources once |
| `Schedulers.Scheduler.ReclaimStacks` | kernel/scheduler.c:415-421 | frees the queued stacks, last first |
| `Schedulers.Scheduler.YieldCurrent` | kernel/scheduler.c:487-496 | computes the specified yield |
| `Schedulers.Scheduler.SleepCurrent` | kernel/scheduler.c:498-516 | computes the specified sleep; zero ticks is a yield |
| `Schedulers.Scheduler.WaitCurrentForInput` | kernel/scheduler.c:518-529 | computes the specified wait for input |
| `Schedulers.Scheduler.WakeInputWaiters` | kernel/scheduler.c:531-538 | every task that waits for input becomes runnable; no other task, frame or stack and nothing else changes |
| `Schedulers.Scheduler.CreateTask` | kernel/scheduler.c:245-322 | appends a runnable task unless the table is full |
| `KeyInput.KeyRing.Push` | kernel/input.c:10-18 | accepts a key at the end of the queue unless one slot would not stay empty |
| `KeyInput.KeyRing.Read` | kernel/input.c:20-29 | takes the oldest keys in order |
| `KeyInput.OnlyReadWaits` | kernel/scheduler.c:324-538 | no handler but the blocking read makes a task wait for input |
| `KeyInput.Terminal.OnKey` | kernel/tty.c:27-30 | queues the key, makes exactly the input waiters runnable and leaves no task waiting for input |
| `KeyInput.Terminal.ReadCall` | kernel/syscall.c:131-160 | delivers the oldest keys, at most a chunk, or blocks exactly when there are none, so that the read is issued again; refuses a bad buffer untouched |
| `KeyInput.Terminal.Handle` | kernel/scheduler.c:423-538 | after any handler: delivered bytes and ring are the accepted keys in order, and nobody waits while keys are there |
| `FdTables.CloseKeeps` | kernel/scheduler.c:182-203 | closing a descriptor keeps every reference count equal to the number of names |
| `FdTables.CloseShows` | kernel/scheduler.c:182-203 | closing one descriptor changes nothing seen through the others |
| `FdTables.NameKeeps` | kernel/scheduler.c:646-652 | naming a file keeps the counts |
| `FdTables.DupAlive` | kernel/scheduler.c:831-836 | closing the target of a duplication never drops the source's file, also when both named it |
| `FdTables.FdTable.Allocate` | kernel/scheduler.c:163-180 | takes the first free open-file slot |
| `FdTables.FdTable.CloseSlot` | kernel/scheduler.c:182-203 | drops one name; the file goes with its last one |
| `FdTables.FdTable.Open` | kernel/scheduler.c:613-666 | the lowest free descriptor from 3 on, or no change at all |
| `FdTables.FdTable.Close` | kernel/scheduler.c:787-805 | succeeds exactly for a descriptor in use |
| `FdTables.FdTable.Dup2` | kernel/scheduler.c:807-841 | makes another name of the same file, or of a new terminal file for an unused standard descriptor; every other descriptor shows the same |
| `FdTables.FdTable.IsTty` | kernel/scheduler.c:668-683 | unused standard descriptors and terminal files are terminals |
| `FdTables.FdTable.Read` | kernel/scheduler.c:685-705 | delivers the bytes from the shared position on, as many as asked for and there, and moves the position by that many |
| `FdTables.FdTable.ReadAliases` | kernel/scheduler.c:685-705 | reads through any names of one file together deliver one consecutive slice, as long as all they ask for, up to the end of the file |
| `FdTables.FdTable.Write` | kernel/scheduler.c:707-735 | moves the shared position past what was written, from the end when appending |
| `FdTables.FdTable.Seek` | kernel/scheduler.c:737-785 | moves the shared position of a file; non-files, unknown origins, a missing size and refused targets change nothing |
| `FdTables.SoughtIs` | kernel/scheduler.c:764-782 | a target is accepted exactly when it is an unsigned 64-bit number and the delta is not the least 64-bit one |

## Left out

- The mount-time plan for `/NEW.TXT`: it patches the bitmap byte of the first planned cluster only; the committed file is part of the start state instead.
- Zero fill: bytes between the old size and the start of a write, and bytes a truncate exposes, may be stale; no claim is made about them.
- Device failures: the sector device always answers; the checks that read a sector back are modelled but cannot fail.
- Boot-sector and bitmap parsing at mount, subdirectories, the FAT32 reader, MBR, VFS, ramfs, devfs: easier members or repeats of the exFAT walk.
- Mounts.Mount.ScanRoot: the sets found are listed; that a mount keeps the first 32 of them and opens subdirectories is not modelled.
- Mounts.Mount.Create: the in-memory table of 32 rows is a sequence that never reuses blank rows, as in the source.
- FileView.Step: says nothing about bytes past the old size that a truncate or a write beyond the end exposes.
- AddressSpaces.Vmm.MapPage: user addresses only, because the kernel half has huge pages and is shared; entries are records, so the cache bits and NX travel as opaque flags.
- AddressSpaces.Vmm.FreeTable: the three nearly equal functions for the levels below the root are one method over the level.
- AddressSpaces.Vmm.Lifecycle: pages mapped twice are excluded, since the code overwrites the earlier frame without freeing it.
- PageAllocators.PageAllocator.AllocContiguous: runs that straddle the hint are not searched for by the code, and the contract says so.
- PageAllocators.PageAllocator.constructor: the managed-page total, a statistic, is not kept; 64-bit sums of region bounds are taken not to wrap.
- UserCopies.UserMemory.CopyToUser: user bytes and page tables are two views of memory; that no user page lies in a page table is required.
- ElfLoading.Loader.LoadImage: header validation, the user stack and the argument block are not modelled.
- Heaps.Heap.Kfree: the words before the pointer must be mapped, and look like a block in use only if they are one; a forged header is outside the model.
- Heaps.Heap.MapHeapPage: of the kernel's page tables only which ones exist is kept, not their entries.
- XhciProtocol.Safety: transfers that fail, bring-up with fixed event indices, polling limits and MMIO are outside; a completion always carries the success code.
- XhciDriver.TransferRing.Transfer: the pointers, slot and endpoint numbers the original also checks are fixed with the ring.
- XhciProgress.TransferEnds: the polling limit, after which the original gives up on an event, is not counted.
- UserCopies.CopyRoundTrip: pages that share a frame are excluded; what a copy through them leaves is in CopyToUser's contract.
- Schedulers.Scheduler.FinishCurrent: a fault without a current task is a kernel panic in the original and no step here.
- SchedulerSpec: of the saved registers only the instruction pointer and the result register are kept; address-space switches and the names of tasks are not.
- KeyInput.Terminal.ReadCall: the answer of the range check is a parameter; the check and the copy are covered by the user-copy contracts.
- FdTables.FdTable.Open: the file system's answers (existence, creation, truncation, size) are parameters.
- FdTables.FdTable.Write: the file system's result is a parameter.
- Console, logging, shell, user programs, port I/O, assembly stubs, TLB, PAT and virtio.
- 64-bit wrap of tick sums and of huge allocation sizes.
