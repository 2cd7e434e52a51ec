# A model of HoDoFS on zonefs

HoDoFS is a Linux file system for zoned block devices. It keeps the zone files of
zonefs (`file.c`, `super.c`), where each zone accepts only appends at its write pointer
and a reset of the whole zone, and builds an ordinary tree of files and directories on
top of them (`trans.c`, `hodo.c`). This project models four layers of it and proves what
they keep.

**A. The translation layer and its garbage collector** (`Bitmap`, `Counting`, `Blocks`,
`Translation`, `MappingLayer`, `GcInvariants`, `GarbageCollector`, `TranslationRuns`,
`TableErase`, `BlockStore`). Every block
has a logical number; a table maps numbers to positions, one write pointer appends to
the data zones as to one log, and a bitmap marks the positions that are live. `State` is
`struct hodo_mapping_info` together with the contents of the zone files; the class
`MappingInfo` is the same thing as a mutable object, and each of its methods is proved
against a function of `State`. The geometry is a parameter: at least 4 zones, a multiple
of 32 blocks a zone and of 32 table entries, zones and blocks within the 16 bits the code
has for them. The invariant `Inv` ties table, bitmaps,
block headers and zone fill levels together. The main results are about `GC`:

- on every run it restores the shape of the log, and every write it issues is an append
  that the zone accepts;
- it terminates, since each round takes one position out of the set still to visit;
- every logical number reads back its block **if and only if**, for every data zone k,
  zones 1..k held at most k * (blocks - 1) live blocks (`PrefixesRoomy`). The code leaves
  the swap zone after blocks - 1 blocks but copies back blocks times, so it writes the
  last block of a round twice; a log without that much slack loses a block. One dead
  block in every data zone is enough (`DeadBlockInEveryZone`). Filling one zone with live
  blocks takes only writes to a formatted device, and in every geometry with a table row
  for each block of a zone the collection that follows loses a block
  (`FullZoneLosesABlock`, and `FillAndCollect` by the methods);
- when the condition holds the result is a stable compaction: the live blocks fill the
  log from zone 1 on in their old physical order, and the only dead position in each
  closed zone is the doubled block. It uses up at most one position of the log
  (`CollectionKeepsBudget`).

`ExecuteAll` lifts this to runs: the methods, called for any sequence of allocations,
writes and collections each of which is enabled when its turn comes, refine a plain map
from numbers to blocks. A collection is enabled when the prefixes are roomy, and
`Execute` shows that what `GC` delivers is the step that `RunRefines` reasons about.

**B. The file index and byte input and output** (`FileIndex`, `FileTree`, `FileWrite`,
`FileEffect`, `FileOps`, `FileRead`, `FileLimits`). A file is a tree of ten direct and a
single, double and triple indirect pointers with 1022 four-byte pointers a block. A ghost
map of labels (which file, which root pointer, which height, which place) says that trees
are levelled and disjoint. `FileWriteIter` is proved to cut the file at the write's
position and append the data, for every position up to the end of the file and every
length, the error past the largest file size included. `FileReadIter` returns exactly
the bytes from its position on, with two exceptions that are stated exactly:

- The loop always reads the block at the end of the span, even when no byte of it is
  wanted. When a read ends at the end of a file whose length is a multiple of 4088 bytes
  and no block was ever written there, that block's number is 0 and the code indexes the
  mapping table far outside its bounds (trans.c:1299). The model calls such a read stray
  and promises nothing about it; `FileReadIter` and `StraysAtTheEnd` say exactly when it
  happens, and `OneBlockFileStrays` gives a file of 4088 bytes. The block index past
  the last one, whose slot lies outside the pointer block, is the same case.
- The length of a read is computed in a 32-bit `int`. `ReadLenExact` says for which
  lengths, positions and counts it is right. No file has more blocks than the table has
  rows (`FileFitsTable`), so with the 2^20 rows of `hodo.h` every read is exact
  (`HodoReadsExactly`). On a device with more rows it is not: `LongFile` makes and writes
  a file of 4 GiB with the methods of the code and reads nothing from it (a hundred zones of
  256 MiB have the room, `RoomForLongFile`).

**C. Directories** (`Dirents`, `Directory`, `DirTree`, `DirOps`, `FileSystem`, `EntryTruth`,
`FileSession`).
Directory blocks are modelled byte by byte: 102 slots of 40 bytes. Lookup, insertion,
removal, the emptiness test and readdir are loops over those bytes on top of layer A and
B, proved against a finite map from names to inode numbers. `HodoInit`, `HodoCreate` and
`HodoMkdir` compose the layers; `HodoMkdir` runs the collector at its end. Each
operation states how much of the log and of the free numbers it uses up, so that runs can
be composed: `Session` formats a device, makes a file and a directory, writes the file,
makes a second file in the directory, reads the first one back, takes it out of the
root and lists the root, for all names and all data that fit. `EntryTruth` shows that every
entry keeps telling the truth about the inode it names, file type included.

**D. Zone files** (`ZoneFile`, `ZoneBacking`, `ZoneProtocol`, `ZoneGroups`, `ZoneNames`). The class
`ZonedFs` holds the zone records and the counters of the super block; every operation
keeps the counters exact and the number of write-open zones within the limit, save the
late completion that `EndIo` names. `ZoneBacking` ties it to layer A: when no device error
occurs, writing a block and resetting a zone by the methods of `ZonedFs` do to the zone
records what `Append` and `Reset` do to the log.
`ZoneProtocol` is a state machine of writes in flight: the write pointer moves at issue,
the device executes in issue order, completions arrive in any order, writes may fail
part way. Over every run in which no error recovery overtakes a write that the device
would still accept, the size never passes the write pointers and all meet when nothing
is in flight. Recovery does not check for such a write; `RecoverySound` proves that its
absence is exactly the condition, and `LateRecovery` gives a run that ends with nothing
in flight and the write pointer behind the size. `LateRecoveryMiscounts` reaches the
completion that `EndIo` names: the zone is partly written and no longer counted as
active. `ZoneGroups` relates the two passes over the device's zones at mount time, and
`ZoneNames` the names of zone files to their numbers.

Ghost parameters named `lab` (labels) and `s0` (the state at entry) carry what the proofs
need and compute nothing. `Budget(s, n)` says that the log has room for n more blocks and
that n numbers are free.

Where comments or intent and code differ, the model follows the code:

- the collector's swap threshold (above);
- the comment in `hodo.c:228` gives the length of a read as the smaller of the count and the
  rest of the file; the `int` of the next line truncates the rest (above);
- the end block of a read is read whether or not it exists (above);
- `hodo_erase_table_entry` clears the allocation bit of the wrong number and leaves the
  validity bit; `EraseKeepsInvIff` says when that is harmless, and `FreedKeepsInv` is about
  a repaired form that is labelled so;
- the comment in `file.c:537-541` says that running error recovery a second time changes
  nothing; `RecoverTwice` proves it for an unchanged report, and `RecoverySound` says
  when a second recovery with a write in between does harm;
- a write truncates the file at its end, because the length becomes the position
  plus the bytes written.

## Model

| member | source | states |
|---|---|---|
| MappingLayer.MappingInfo.constructor | hodo.c:100-116 | a freshly formatted device: empty table and bitmaps, write pointer at zone 1, swap pointer at zone zones-2, all zones empty |
| MappingLayer.MappingInfo.GetNextLogicalNumber | trans.c:1227-1240 | the word-skipping scan returns the smallest number not allocated and marks only that one; it returns -1, changing nothing, exactly when all are taken |
| MappingLayer.MappingInfo.GetNextGcValid | trans.c:1264-1287 | returns the first valid position at or after the write pointer's zone and before the swap zone, and zone 0 exactly when there is none |
| MappingLayer.MappingInfo.SetGcBitmap | trans.c:1242-1251 | adds one position to the set of valid ones and changes nothing else |
| MappingLayer.MappingInfo.UnsetGcBitmap | trans.c:1253-1262 | removes one position from the set of valid ones and changes nothing else |
| MappingLayer.MappingInfo.WriteStruct | trans.c:1352-1431 | a number of 0 becomes the least free number; table row, both bitmaps, the device, the block's own header and the write pointer change as the pure write function says, and the write is accepted exactly when the log had that append position free |
| MappingLayer.MappingInfo.GcWriteStruct | trans.c:1433-1497 | one block goes to the swap zone: row and validity bits follow it and the swap pointer stops at the last slot |
| MappingLayer.MappingInfo.EraseTableEntry | trans.c:1289-1293 | empties the row of the number but clears the allocation bit whose index is the number itself, which for the last numbers is none of the bitmap, and leaves the validity bit |
| Bitmap.PutMembers | trans.c:1219-1225 | setting or clearing bit 31-j of word k changes the membership of 32k+j and of no other number |
| Translation.AppendReads | file.c:499-516 | after an accepted append the position at the end of the zone reads the new block and every other position what it read |
| Translation.RewriteReads | trans.c:1352-1431 | after a write the position at the write pointer reads the block, stamped with its number, and every other position what it read |
| Translation.RewriteKeepsInv | trans.c:1352-1431 | rewriting an allocated number, first writes included, whose empty row clears a bit of reserved zone 0, keeps the invariant, is an accepted append, and changes what that number reads and nothing else |
| Translation.AllocateKeepsInv | trans.c:1359-1362 | a first write without a number keeps the invariant, is an accepted append, and stores under a number that read as nothing before |
| TableErase.EraseKeepsInvIff | trans.c:1289-1293 | erasing keeps the invariant if and only if the number's row was already empty and no mapped row has the number as its index |
| TableErase.EraseGivesAwayALiveNumber | trans.c:1289-1293 | when the cleared bit belongs to a mapped number with none below it free, the allocator hands it out next and a first write replaces a block still in use |
| TableErase.FreedKeepsInv | hodo.c:481-482 | repaired form, not in the code: freeing row, allocation bit and validity bit of one number keeps the invariant and every other block |
| GcInvariants.StartStep | trans.c:46-58 | rewinding the write pointer to zone 1 establishes the invariant of the collector's steps |
| GcInvariants.MoveInStep | trans.c:59-71 | moving a valid block to the swap zone keeps the step invariant, is an accepted append, and takes exactly that position out of those still to visit |
| GcInvariants.ResetStep | trans.c:73-89 | resetting the zone under the write pointer keeps the step invariant, whether or not it still held a live block |
| GcInvariants.CopyOutStep | trans.c:91-105 | copying a swapped block back keeps the step invariant and is an accepted append at the write pointer |
| GcInvariants.DuplicateStep | trans.c:91-110 | the extra copy after a full swap zone rewrites the block copied last, fills the zone and moves the write pointer to the next one |
| GcInvariants.SwapResetStep | trans.c:113-125 | resetting the swap zone once all its blocks are copied back keeps the step invariant |
| GcInvariants.ClearIffRoomy | trans.c:73-89 | when the swap zone is full, the zone about to be reset has no live block left if and only if the zones up to it held at most blocks-1 live blocks each on average |
| GcInvariants.ResetLoses | trans.c:73-89 | resetting a zone that still holds a live block leaves the owner of that block without it |
| GcInvariants.TransparentThroughout | trans.c:46-163 | with room in every prefix, between any two steps before the final resets every number reads its block and every mapping points to a written position holding it |
| GcInvariants.TransparentToTheEnd | trans.c:165-197 | the same holds once the swap zone is reset, and after each of the resets of the zones behind the log |
| GcInvariants.EndStep | trans.c:177-203 | after the final resets the log is well formed; if all prefixes were roomy every number reads back its block and the log is a stable compaction, and if not a block is lost |
| GarbageCollector.MoveOneIn | trans.c:59-71 | reads a valid block, finds its owner in the block's own header and moves it to the swap zone |
| GarbageCollector.CopyBackFull | trans.c:91-110 | the copy-out loop runs once more than there are swapped blocks, closing the zone with a second copy of the last |
| GarbageCollector.CopyBackPartial | trans.c:130-163 | the blocks left in a partly filled swap zone come back in order |
| GarbageCollector.SwapOut | trans.c:73-125 | a full swap zone goes back to the zone it replaces; the positions still to visit do not grow |
| GarbageCollector.SwapAll | trans.c:58-128 | the main loop terminates, one position fewer each round, with nothing left to visit |
| GarbageCollector.ResetZones | trans.c:177-197 | the zones after the log up to the old write pointer become empty, no other |
| GarbageCollector.GC | trans.c:46-203 | the log is well formed on every run; all numbers read back their blocks if and only if zones 1..k held at most k*(blocks-1) live blocks for every k; then the invariant holds and the log is a stable compaction, otherwise a number that read as a block no longer does |
| TranslationRuns.StepRefines | trans.c:1227-1497 | each enabled operation on a well-formed state keeps the invariant and does to the stored blocks what it does to a plain map |
| TranslationRuns.RunRefines | trans.c:46-203 | over every run of enabled operations the invariant holds and the store holds exactly the last block put under each number |
| TranslationRuns.Execute | trans.c:1227-1431 | the methods take exactly the steps the runs are made of, the collection included |
| TranslationRuns.ExecuteAll | trans.c:46-203 | executing any feasible sequence of operations leaves the blocks of a plain map on which it was replayed |
| TranslationRuns.InitialInv | hodo.c:106-116 | the freshly formatted state satisfies the invariant |
| TranslationRuns.BitsCountRows | trans.c:1359-1367 | as many validity bits are set as there are mapped numbers |
| TranslationRuns.BitsConserved | trans.c:46-203 | a transparent collection conserves the mapped numbers and the total of validity bits |
| TranslationRuns.DeadBlockInEveryZone | trans.c:73-110 | one position without a live block in every data zone suffices for the collector |
| TranslationRuns.FillRun | trans.c:1352-1431 | the state with k live blocks in zone 1 is reached from the formatted one by k writes without a number |
| TranslationRuns.FullZoneLosesABlock | trans.c:73-110 | in every geometry with a table row for each block of a zone, a zone full of live blocks is reachable, and every collection of it loses a block |
| TranslationRuns.FillAndCollect | trans.c:46-203 | the same by writing the blocks and calling the collector |
| BlockStore.StoreBlock | trans.c:1352-1431 | with room in the log a write is one map update; a new block gets a number not in use, and every other number keeps its block |
| BlockStore.LiveBlocks | trans.c:1352-1431 | the live blocks are at most blocks-1 for each full zone and one for each block of the last, when the prefixes are roomy |
| BlockStore.CollectionKeepsBudget | trans.c:46-203 | a collection that loses no block uses up at most one position of the log and no number |
| FileIndex.PtrRoundTrip | trans.c:580-618 | a four-byte pointer stored in a block is read back, and no other pointer of the block changes |
| FileIndex.PtrBytes | trans.c:615-619 | the pointer is stored in little-endian order in its four bytes, and every other byte stays |
| FileIndex.WriterFollowsPath | trans.c:497-578 | the slot the writer computes at each level is the digit of the block's path in base 1022 |
| FileIndex.ReaderFollowsPath | trans.c:207-283 | the slots the reader computes by division and remainder are the same digits |
| FileIndex.LocateBijection | trans.c:207-283 | block indices below the maximum and in-range places of the tree correspond one to one |
| FileIndex.PathDeterminesLeaf | trans.c:497-578 | two blocks with the same path are the same block |
| FileIndex.IndexFitsInt | trans.c:207-210 | every block index fits a signed 32-bit integer |
| FileTree.LeavesDisjoint | trans.c:494-623 | two data blocks of the same or of different files never share a logical number |
| FileTree.GrowsKeepsFileLeaf | trans.c:580-618 | pointers only ever go from absent to present, so a block once reached keeps its logical number |
| FileTree.PutNode | trans.c:615-619 | linking a child of the right level into an indirect block keeps all trees levelled and disjoint |
| FileWrite.WriteDirect | trans.c:418-492 | a data block keeps its bytes left of the offset, takes the new ones, and keeps its number if it had one |
| FileWrite.SplicedAt | trans.c:436-474 | byte by byte: the old ones before the offset, the new ones after it, and zeroes to the end of the block |
| FileWrite.WriteIndirect | trans.c:494-623 | the recursion on the level digit ends, writes exactly the data block on the path, creates the missing indirect blocks, keeps the numbers of existing ones and touches no other data block |
| FileWrite.StepUp | trans.c:608-619 | what one recursive call did below holds one level up once the pointer is stored |
| FileEffect.WrittenBytes | trans.c:286-416 | after one block is written the file is its old bytes up to the position and then the bytes written |
| FileEffect.LeafBack | trans.c:494-623 | any data block an index tree leads to after a write, other than the one written, was there before |
| FileEffect.OthersStay | trans.c:286-416 | every other file keeps its inode, its blocks and its bytes, and gets no block it did not have |
| FileOps.WriteOneBlock | trans.c:286-416 | one call writes up to the end of the block and truncates there, or returns -EFBIG and changes nothing when the position is past the largest file |
| FileOps.FileWriteIter | hodo.c:823-844 | the file becomes its bytes before the position followed by the data, its blocks past the end stay as they were, present or absent, and other files are unchanged; past the largest file size what fits is written and -EFBIG returned; at most five positions are used up for each block touched |
| FileRead.ReadNthBlock | trans.c:207-283 | returns the block that the index tree holds for block number n, and strays outside the mapping table if and only if there is none |
| FileRead.ReadLenInRange | hodo.c:228-232 | the length computed in 32 bits never exceeds what was asked for or what is there |
| FileRead.ReadLenExact | hodo.c:228-232 | it equals the smaller of the count and the rest of the file if and only if the rest is below 4 GiB or its remainder by 4 GiB reaches the count, and is that remainder otherwise |
| FileRead.ReadSpan | hodo.c:239-280 | the block-split copy yields exactly the bytes of the span unless it strays, which it does if and only if the span crosses into a block that starts at its end and is not there |
| FileRead.FileReadIter | hodo.c:210-280 | returns 0 at or past the end, otherwise the computed length and exactly the bytes of the file from the position on; the exact condition under which it reads beyond the mapping table |
| FileRead.StraysAtTheEnd | hodo.c:271-275 | a read strays if and only if it is not empty and ends at the end of a file whose length is a multiple of the block and where no block follows |
| FileRead.OneBlockFileStrays | hodo.c:271-275 | every read to the end of a file of one full block strays |
| FileRead.ReadAfterWrite | hodo.c:210-280 | reading back at the position just written returns the data written, unless the write ended on a block boundary with no block after it, and then the read strays |
| FileLimits.FileFitsTable | hodo.h:37-38 | no file has more data blocks than the mapping table has rows |
| FileLimits.SmallTableReadsExactly | hodo.c:228-232 | when the blocks of the table hold less than 4 GiB the 32-bit length of every read of every file is right |
| FileLimits.HodoReadsExactly | hodo.c:228-232 | so it is with the 2^20 rows of hodo.h |
| FileSession.LongFile | hodo.c:228-232 | on a device with room, a file of 4 GiB can be made and written, and every read from its start returns nothing |
| Dirents.SlotsScanned | trans.c:806-817 | the slots scanned are those whose offset is below the last 40 bytes of the block |
| Dirents.InsertDense | trans.c:880-940 | filling the first free slot appends one entry and keeps the entries a dense prefix |
| Dirents.InsertedBytes | trans.c:896-906 | add_dirent leaves each byte of the new entry as the inode says and every other byte of the block as it was |
| Dirents.CutDense | trans.c:1553-1566 | compaction removes exactly the entry at the given slot and keeps the rest a dense prefix |
| Dirents.ZeroIffEmpty | trans.c:1170-1179 | the data bytes are all zero if and only if the block has no entry |
| Directory.InsertLookup | trans.c:874-945 | after an insertion the new name finds its number and every other name keeps its answer |
| Directory.RemoveLookup | trans.c:948-1049 | after a removal the name finds nothing and every other name keeps its answer |
| Directory.FullBlocks | trans.c:880-945 | the scan finds no room exactly when all ten blocks hold 102 entries |
| DirOps.FindInBlock | trans.c:681-696 | the scan of a block returns the inode number of the name, or 0 |
| DirOps.FindInodeNumber | trans.c:627-679 | the lookup over all blocks is the lookup in the directory's map |
| DirOps.CheckDirectoryEmpty | trans.c:1098-1179 | answers empty if and only if the directory has no entry |
| DirOps.ReadBlockDirents | trans.c:798-820 | offers the entries of a block from the bookmark on |
| DirOps.ReadAllDirents | trans.c:739-796 | one call started at bookmark pos >= 2 offers exactly the entries from index pos-2 on, once each in slot order, and leaves the bookmark at 2 plus their number unless it was further |
| DirOps.AddDirent | trans.c:874-945 | returns -1 and changes nothing exactly when all ten blocks are full; otherwise one entry is put among the old ones, with the number, the name padded with zeroes, the name length and the type (1 for a directory, 0 for a file) of the inode; the length grows by one, and all other files and directories stay |
| DirOps.RemoveDirent | trans.c:948-1049 | finds the entry exactly when the name is in the map; then the entry of that name is taken out from among the others, the length shrinks by one, and all other files and directories stay |
| FileSystem.FileWriteKeepsFs | hodo.c:823-844 | writing a file changes no directory |
| FileSystem.HodoInit | hodo.c:100-146 | a new file system is well formed and holds just the inode of an empty root directory named "/" under the first logical number |
| FileSystem.HodoCreate | hodo.c:386-446 | stores a new empty file under a fresh number and enters its name unless the directory is full; all other files and directories stay; four positions are used up |
| FileSystem.HodoMkdir | hodo.c:513-575 | the same for a directory, followed by a collection that keeps all contents if and only if its condition held, and then five positions are used up in all |
| EntryTruth.MadeTruth | hodo.c:386-575 | hodo_create and hodo_mkdir keep every directory entry in agreement with the inode it names: number, name, name length and file type |
| EntryTruth.WrittenTruth | hodo.c:823-844 | so does a write to a file |
| EntryTruth.RemovedTruth | trans.c:948-1049 | so does remove_dirent |
| EntryTruth.OfferedTrue | trans.c:862-870 | every entry that readdir offers agrees with its inode, so what it shows as a directory is one |
| FileSession.SetUp | hodo.c:386-575 | formatting, creating and mkdir: the root holds just the file and the directory |
| FileSession.Session | hodo.c:386-575 | format, create, mkdir, write, create in the directory, read and remove: the read strays if and only if the data ends on a block boundary and otherwise returns it, every name of both directories stands for what it should, and readdir of the root lists just the directory, marked as one |
| ZoneFile.RecoverTwice | file.c:529-545 | recovering a second time from the same device state changes nothing |
| ZoneFile.RecoveredMeans | super.c:272-371 | a read error on a usable zone whose size equals the amount on the device changes nothing; otherwise size and write pointer meet at 0 when offline, at the old size when read-only, else at the device's amount capped by the old size under errors=remount-ro, which ends writes; the amount is the capacity for full and conventional zones |
| ZoneFile.FullZone | super.c:226-228 | the write pointer reported of a full zone has no influence; a read error leaves a full file there alone, and under errors=repair the file becomes full |
| ZoneFile.RecoveryExposes | super.c:272-371 | recovery makes a file longer if and only if the mount repairs, the zone stays usable and the device holds more data than recorded |
| ZoneFile.Allowed | file.c:395-418 | the bytes allowed stay within the count, the zone and the limits, and are cut short only by reaching one of them; -EFBIG is the only error and is returned exactly when the position is at or past one of them |
| ZoneFile.OpenZonesHaveWriters | file.c:792-841 | every explicitly open zone has a writer or was left open by a failed close |
| ZoneFile.SumCounts | super.c:61-95 | the counters the super block keeps are the numbers of active, written, open and orphaned zones |
| ZoneFile.BlocksHoldSizes | super.c:165-197 | used and total blocks are, in bytes, the sizes of all files and the capacities of all zones |
| ZoneFile.ZonedFs.constructor | super.c:1004-1081 | mounting accounts every zone: the counters are exact and no zone is open for writing |
| ZoneFile.ZonedFs.WithinLimit | file.c:734-774 | on an explicit-open mount with a limit, neither zones with a writer nor open zones exceed it; used blocks never exceed the total |
| ZoneFile.ZonedFs.AccountActive | super.c:61-95 | afterwards the zone is flagged active exactly when it is usable and open or partly written, and the counter is the number of flagged zones |
| ZoneFile.ZonedFs.Resize | super.c:165-197 | used blocks stay the exact sum of file sizes in blocks: the clamps never fire |
| ZoneFile.ZonedFs.SizeWrite | super.c:146-163 | a file grown to its capacity is no longer open or active, and the active count follows |
| ZoneFile.ZonedFs.HandleIoError | super.c:272-427 | the record becomes what `RecoveredMeans` says and the counters stay exact; under errors=remount-ro the mount is read-only afterwards unless the zone is usable, the error is a read error and the size equals the amount on the device |
| ZoneFile.ZonedFs.WriteOpen | file.c:734-774 | fails with -EBUSY exactly when a first open would exceed the limit, and with the device's own error exactly when the device is asked and refuses, and then changes nothing; otherwise takes one reference |
| ZoneFile.ZonedFs.WriteClose | file.c:792-841 | the last close releases the count and closes the zone; if the device refuses, recovery runs, the count is kept, and the mount becomes read-only if the zone is still open |
| ZoneFile.ZonedFs.EndIo | file.c:352-385 | a completion raises the size to its end if it is further, and closes a zone that is full; the accounting stays exact if and only if it does not fill a usable zone whose write pointer was rolled back |
| ZoneFile.ZonedFs.WriteChecks | file.c:420-516 | in every zone a write goes on only with whole blocks from a block boundary, within the capacity, and in a sequential zone at its write pointer; below the limits any other position gives -EINVAL |
| ZoneFile.Admission | file.c:395-516 | the admission predicate written out, both directions |
| ZoneFile.WriteEffectMeans | file.c:352-547 | the record of a sequential zone after a write in flight, completed, short or failed, field by field |
| ZoneFile.ZonedFs.DioWrite | file.c:464-547 | a write that succeeds or is queued starts on a block boundary, at the write pointer in a sequential zone, which moves before the device answers; misplaced and refused writes change nothing and give -EINVAL or -EFBIG; failed and short ones are recovered |
| ZoneFile.ZonedFs.Truncate | file.c:194-263 | only size 0 and the capacity are accepted, for sequential zones; size and write pointer then agree, used blocks and active count follow, and a device refusal changes nothing and is returned |
| ZoneBacking.WriteBlock | file.c:499-516 | open, one direct write and close of the zone file behind zone k: the write is accepted exactly when the log admits the block, -EFBIG or -EINVAL otherwise, and the zone files then back the log with the block appended |
| ZoneBacking.ResetZone | file.c:194-263 | truncating that file to 0 leaves zone files that back the log with the zone emptied |
| ZoneBacking.AdmittedIffAdmits | file.c:395-418 | for a zone file filled as far as the zone of the log, a one-block write passes the checks exactly when the log admits the block there |
| ZoneProtocol.InvMeans | file.c:352-418 | the invariant gives size <= device pointer <= write pointer <= capacity, with equality when nothing is in flight |
| ZoneProtocol.StepsAreOperations | file.c:194-547 | the step that issues a write makes of the zone record what a queued direct write does, and the resize step what a truncation does |
| ZoneProtocol.StepKeeps | file.c:352-547 | every step keeps the invariant, save a recovery that overtakes an acceptable write, and only a reset makes the file shorter |
| ZoneProtocol.RunKeeps | file.c:352-547 | over every orderly run the invariant holds, the size is the largest completed end, and without a reset it never shrinks |
| ZoneProtocol.SizesOverRuns | file.c:464-547 | over every orderly run the size never passes the write pointer, all meet when nothing is in flight, and the active flag is exact |
| ZoneProtocol.CleanStep | file.c:499-516 | while the device does not fail by itself it accepts every write the admission check let through |
| ZoneProtocol.CleanRun | file.c:454-463 | the same over every run without device failures |
| ZoneProtocol.RecoverySound | super.c:272-371 | error recovery keeps the size within the write pointer in all that follows if and only if no waiting write starts at the device's pointer |
| ZoneProtocol.LateRecovery | file.c:529-545 | two failed writes with a third issued between their recoveries end with nothing in flight and the write pointer behind the size |
| ZoneProtocol.LateRecoveryMiscounts | file.c:352-385 | when the third write of such a run fills the zone, its completion leaves, with nothing in flight, a usable and partly written zone that is not counted as active |
| ZoneProtocol.RecoverIsRepair | super.c:272-371 | under errors=repair the protocol's recovery step is what the handler makes of the zone record, and nothing else is |
| ZoneGroups.GetZoneInfo | super.c:887-934 | the callback's counts are the numbers of files of each group, and it fails exactly on an unsupported zone type |
| ZoneGroups.InitZgroup | super.c:973-1092 | given the right count the second pass builds exactly the group's files; given a wrong positive one it returns -EINVAL, and given 0 it builds nothing |
| ZoneGroups.InitZgroups | super.c:936-1092 | on contiguous zones both passes agree, so neither warning branch is taken, the two groups offer just the capacity of the zones, and the files of each are laid out over exactly the zones of its type from zone 1 on |
| ZoneGroups.FilesLaid | super.c:994-1041 | each file of a group is one zone, or with aggregation a whole stretch of conventional zones: it starts where the first does, ends where the last does, and offers their capacity; the files are in order and every zone of the type is in one |
| ZoneGroups.FilesApart | super.c:1011-1041 | in sectors the files of a group ascend without overlap |
| ZoneGroups.ZoneCovered | super.c:1011-1041 | every zone of the type from zone 1 on lies within one of the files |
| ZoneGroups.OtherZoneOutside | super.c:1001-1002 | no file overlaps a zone of the other type |
| ZoneGroups.MergedCondition | super.c:1011-1031 | a merged file is offline if a member is, else read-only if a member is, else as its first member |
| ZoneGroups.CapacityConserved | super.c:1011-1031 | the capacities of both groups add up to those of the zones, with and without aggregation |
| ZoneNames.DecimalIsCanonical | super.c:842-852 | the name readdir gives a file is a number without leading zeroes whose value is the file's number |
| ZoneNames.FnameToFno | super.c:621-652 | accepts exactly the decimal numbers without leading zeroes, and inverts the naming |
| ZoneNames.LookupFile | super.c:654-672 | a name finds file f if and only if it is the name readdir gives f; -ENAMETOOLONG is returned exactly for more than 16 characters, and -ENOENT exactly when a name within them is no file's; the limit keeps the number within 64 bits |

## Left out

- Mount-point discovery, the mount thread and reading a mapping from disk (hodo.c:45-98, trans.c:1568-1615): nothing ever writes the mapping.
- hodo_unlink and hodo_rmdir as a whole: they erase the number before they read it (hodo.c:481-493). Removing the entry, the emptiness test and the erasing are modelled one by one; what a run does after an erase is not.
- Writes past the end of a file, exhausted numbers and a full log: the code has no handling for them, so they are preconditions (`Writable`, `Budget`). The number -1 of an exhausted allocator is modelled in `GetNextLogicalNumber` only.
- Device errors below the translation layer: hodo_write_struct updates its map whatever the device says, so `WriteStruct` reports the device's answer and the layers above write only where it is an acceptance. Errors are modelled in layer D; `ZoneBacking` is about writes and resets without them, made while no other process has a zone file open.
- Fresh kmalloc and stack memory: modelled as zero bytes (trans.c:307-334, 585-604, 1554-1560, hodo.c:391). The code relies on pointer 0 and zero slots without clearing them.
- Memory layout: bitmap words are sequences of 32 booleans and the struct's arrays are fields of sequence type, so aliasing between buffers is not modelled. kmalloc failure is not modelled.
- Indirect blocks of directories: add_dirent never makes one, so the indirect halves of the directory functions are not modelled.
- Names are 16 bytes padded with zeroes, looked-up ones too; find_inode_number compares 16 bytes of a dentry name that is only NUL-terminated (trans.c:691).
- FileSystem.HodoCreate: returns the result of add_dirent, which hodo_create ignores; names are at most 16 bytes, as the missing check in hodo.c:405-407 intends, and are not "/", which no path component is.
- DirOps.RemoveDirent: the inode is written more than once (trans.c:948-1028); the model keeps the writes, whose effect on the map is one update.
- FileRead.FileReadIter: the count is below 2^31, as the VFS limits it; what a stray read yields, or whether the kernel survives it, is not modelled.
- MappingLayer.MappingInfo.EraseTableEntry: for the last numbers of the table the bit is past the bitmap; with at most 64 zones (the code has 16) it lies in a counter that nothing uses, and the model leaves it out.
- Geometry: zone size and zone capacity are the same (trans.c compares with the size), and the device has as many zones as the constant says.
- ZoneFile.ZonedFs.DioWrite: IOCB_NOWAIT, swap files, the lock order and page-cache invalidation are not modelled; buffered writes go to conventional zones only.
- ZoneFile.ZonedFs.EndIo: an asynchronous error is `HandleIoError`; what later operations do after accounting went wrong is not modelled.
- ZoneProtocol: errors=repair on a zone that stays usable; block alignment is left to `ZoneFile`. Two recoveries for one synchronous failure are one step.
- ZoneGroups: closing zones found open, the file size limit and the check against the device's zone size at mount.
- Each region a mutex protects is one atomic step; the translation layer takes no locks and is sequential.
- Timestamps, owners, modes, quotas, mmap, splice, swap activation, tracing, sysfs, the super block's format and debug counters.
