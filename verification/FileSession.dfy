// Runs of whole operations on a freshly formatted device.
module FileSession {
  import opened Bitmap
  import opened Blocks
  import opened Counting
  import opened Translation
  import opened MappingLayer
  import opened TranslationRuns
  import opened GcInvariants
  import opened BlockStore
  import opened FileIndex
  import opened FileTree
  import opened FileWrite
  import opened FileEffect
  import opened FileOps
  import opened FileRead
  import opened Dirents
  import opened Directory
  import opened DirTree
  import opened DirOps
  import opened FileSystem
  import opened EntryTruth

  // ---------- what a directory and a file say, across operations ----------

  // The number a name stands for in directory d; 0 for none.
  ghost function NumberOf(c: Store, d: nat, name: Name): nat
    requires IsDir(c, d)
  {
    Lookup(DirEntries(c, c[d].inode), name)
  }

  // In directory d the name now stands for the number, and all others as before.
  ghost predicate Renumbered(c: Store, e: Store, d: nat, name: Name, number: nat)
    requires IsDir(c, d) && IsDir(e, d)
  {
    forall other: Name :: NumberOf(e, d, other) == (if other == name then number else NumberOf(c, d, other))
  }

  // Directory d under its own number, with n entries.
  ghost predicate Holds(c: Store, d: nat, n: nat) {
    IsDir(c, d) && c[d].inode.ino == d && |DirEntries(c, c[d].inode)| == n
  }

  // Directory d as it was.
  ghost predicate KeptDir(c: Store, e: Store, d: nat) {
    && IsDir(c, d) && IsDir(e, d) && e[d] == c[d]
    && DirEntries(e, e[d].inode) == DirEntries(c, c[d].inode)
  }

  // A name that directory entries can carry.
  predicate GoodName(nameLen: nat, name: seq<Byte>) {
    0 < nameLen <= NAME_SIZE && |name| >= nameLen && name[0] != 0 && !(nameLen == 1 && name[0] == 47)
  }

  // A file with no data block past its last byte.
  ghost predicate Tight(c: Store, f: nat)
    requires IsFile(c, f)
  {
    forall n: nat | n < MAX_BLOCKS && n * DATA_SIZE >= c[f].inode.fileLen :: FileLeaf(c, c[f].inode, n) == 0
  }

  lemma SameFileKeepsDir(c: Store, e: Store, d: nat)
    requires SameFile(c, e, d) && IsDir(c, d)
    ensures KeptDir(c, e, d)
  {
    hide FileLeaf, DirBlocks, AllEntries;
    SameInode(c, e, d);
    SameDir(c, e, d);
  }

  // A new inode in a directory that is not full.
  lemma MadeMeans(c: Store, lab: Labels, e: Store, lab': Labels, dir: nat, number: nat,
                  nameLen: nat, name: seq<Byte>, typ: FileType, ret: int, n: nat)
    requires NameFree(c, lab, dir, nameLen, name) && Holds(c, dir, n) && n < MAX_ENTRIES
    requires MadeOutcome(c, lab, e, lab', dir, number, nameLen, name, typ, ret)
    requires 0 < number < POINTER_LIMIT
    ensures ret == 0 && FsGood(e, lab') && Holds(e, dir, n + 1) && number !in c && number != dir
    ensures Renumbered(c, e, dir, PaddedName(nameLen, name), number)
    ensures typ == Directory ==> Holds(e, number, 0)
    ensures typ == Regular ==> IsFile(e, number) && BytesOf(e, number) == [] && Tight(e, number)
    ensures forall g | g in c && c[g].Ino? && g != dir :: SameFile(c, e, g)
  {
    hide FsGood, DirBlocks, AllEntries, Lookup, SameFile, FileLeaf, Padded, PaddedName, FilesGood, FileBytes;
    var i := NewInode(number, nameLen, name, typ);
    var c1 := c[number := Ino(i)];
    NewFields(number, nameLen, name, typ);
    assert SameFile(c, c1, dir) by { FsWithInode(c, lab, number, nameLen, name, typ); }
    SameDir(c, c1, dir);
    assert !IsFull(DirBlocks(c1, c[dir].inode));
    EntryOfName(i);
    assert Padded(i) == PaddedName(nameLen, name) by { NamePadded(number, nameLen, name, typ); }
    var k: Inode :|
      DirWritten(c1, lab[number := InodeOf], e, lab', c[dir].inode, k, DirBlocks(e, k)) &&
      OneMore(DirBlocks(c1, c[dir].inode), DirBlocks(e, k), EntryOf(i));
    assert e[dir] == Ino(k) && k.ino == dir && k.typ == Directory;
    if typ == Directory {
      NewEmptyDir(e, number, nameLen, name, typ);
    } else {
      NewEmpty(e, number, nameLen, name, typ);
      NewTight(e, number, nameLen, name);
    }
  }

  lemma NewTight(e: Store, number: nat, nameLen: nat, name: seq<Byte>)
    requires 0 < nameLen <= NAME_SIZE && |name| >= nameLen
    requires IsFile(e, number) && e[number] == Ino(NewInode(number, nameLen, name, Regular))
    ensures Tight(e, number)
  {
    hide Locate;
    NoRoots(number, nameLen, name, Regular);
    forall n: nat | n < MAX_BLOCKS ensures FileLeaf(e, e[number].inode, n) == 0 { TopIdx(n); }
  }

  lemma NamePadded(number: nat, nameLen: nat, name: seq<Byte>, typ: FileType)
    requires 0 < nameLen <= NAME_SIZE && |name| >= nameLen
    ensures Padded(NewInode(number, nameLen, name, typ)) == PaddedName(nameLen, name)
  {
  }

  // An entry taken out of a directory.
  lemma RemovedMeans(c: Store, lab: Labels, e: Store, lab': Labels, d: nat, name: Name, found: bool, n: nat)
    requires FsGood(e, lab') && Holds(c, d, n) && NumberOf(c, d, name) != 0
    requires RemoveOutcome(c, lab, e, lab', c[d].inode, name, found)
    ensures found && n > 0 && Holds(e, d, n - 1) && Renumbered(c, e, d, name, 0)
    ensures forall g | g in c && c[g].Ino? && g != d :: SameFile(c, e, g)
  {
    hide FsGood, DirBlocks, AllEntries, Lookup, SameFile, FileLeaf;
    var k: Inode, gone: Dirent :|
      DirWritten(c, lab, e, lab', c[d].inode, k, DirBlocks(e, k)) && gone.name == name &&
      OneLess(DirBlocks(c, c[d].inode), DirBlocks(e, k), gone);
    assert e[d] == Ino(k);
  }

  // As long as the log is in its first zone the collector has room.
  lemma EarlyLogIsRoomy(s: State, n: int)
    requires Inv(s) && Budget(s, n) && n > (s.geo.Swap() - 2) * s.geo.blocks
    ensures PrefixesRoomy(s)
  {
    RoomLeft(s);
    LastZoneLive(s);
    FirstZoneStill(s, n);
    forall z: nat | 1 <= z && z + 2 < s.geo.zones ensures |LiveIn(s, z)| < s.geo.blocks {
      if z > 1 { NothingLive(s, z); }
    }
    hide MapInv, Shape, LogShape;
    DeadBlockInEveryZone(s);
  }

  lemma FirstZoneStill(s: State, n: int)
    requires Inv(s) && Budget(s, n) && n > (s.geo.Swap() - 2) * s.geo.blocks
    ensures s.wp.zone == 1 && s.wp.block < s.geo.blocks
  {
    RoomLeft(s);
    var a, b, w := s.geo.Swap(), s.geo.blocks, s.wp.zone;
    hide MapInv, Shape, LogShape;
    MulLess(a, 1, b);
    MulLess(a, 2, b);
    if w > 1 { MulAtLeast(w - 1, 1, b); }
  }

  lemma NothingLive(s: State, z: nat)
    requires Inv(s) && s.wp.zone < z
    ensures LiveIn(s, z) == {}
  {
    forall p | p in s.gc ensures p.zone <= s.wp.zone { assert WellOwned(s, p); }
  }

  // ---------- a session ----------

  // A root with a file and a directory of n entries in it.
  ghost predicate Stage(c: Store, lab: Labels, root: nat, file: nat, dir: nat, fileName: Name, dirName: Name,
                        n: nat, data: seq<Byte>) {
    && FsGood(c, lab) && Truthful(c) && Holds(c, root, 2) && Holds(c, dir, n) && root != dir
    && IsFile(c, file) && BytesOf(c, file) == data && Tight(c, file) && file < POINTER_LIMIT
    && (forall other: Name :: NumberOf(c, root, other) ==
          (if other == fileName then file else if other == dirName then dir else 0))
  }

  lemma SameFileKeepsBytes(c: Store, lab: Labels, e: Store, f: nat)
    requires FsGood(c, lab) && SameFile(c, e, f) && IsFile(c, f)
    ensures IsFile(e, f) && BytesOf(e, f) == BytesOf(c, f) && (Tight(c, f) ==> Tight(e, f))
  {
    hide FileLeaf, FileBytes, LeavesPresent, DirGood, TreesGood;
    SameInode(c, e, f);
    SameFileBytes(c, e, f);
  }

  lemma EmptyHolds(c: Store, d: nat)
    requires Holds(c, d, 0)
    ensures DirEntries(c, c[d].inode) == [] && forall other: Name :: NumberOf(c, d, other) == 0
  {
    hide AllEntries, DirBlocks;
    assert DirEntries(c, c[d].inode) == [];
  }

  lemma FreshHolds(c: Store, lab: Labels, root: nat)
    requires FreshRoot(c, lab, root)
    ensures FsGood(c, lab) && Holds(c, root, 0) && TreesGood(c, lab) && root in c
  {
    hide AllEntries, DirBlocks, NumberGood, LeavesPresent, DirGood;
  }

  lemma CreatedNumber(c: Store, lab: Labels, l: nat)
    requires TreesGood(c, lab) && l in c
    ensures 0 < l < POINTER_LIMIT
  {
    assert NumberGood(c, lab, l);
  }

  lemma MadeNumber(c: Store, lab: Labels, e: Store, lab': Labels, dir: nat, number: nat,
                   nameLen: nat, name: seq<Byte>, typ: FileType, ret: int)
    requires MadeOutcome(c, lab, e, lab', dir, number, nameLen, name, typ, ret)
    ensures FsGood(e, lab') && 0 < number < POINTER_LIMIT
  {
    hide FsGood, AddOutcome, SameFile;
    FsAreTrees(e, lab');
    CreatedNumber(e, lab', number);
  }

  // A root with just a file in it.
  ghost predicate FirstMade(c: Store, lab: Labels, root: nat, file: nat, fileName: Name) {
    && FsGood(c, lab) && Truthful(c) && Holds(c, root, 1) && file != root && 0 < file < POINTER_LIMIT
    && IsFile(c, file) && BytesOf(c, file) == [] && Tight(c, file)
    && (forall other: Name :: NumberOf(c, root, other) == (if other == fileName then file else 0))
  }

  lemma FirstIn(c: Store, lab: Labels, e: Store, lab': Labels, root: nat, file: nat,
                nameLen: nat, name: seq<Byte>, ret: int)
    requires FreshRoot(c, lab, root) && Truthful(c) && GoodName(nameLen, name)
    requires MadeOutcome(c, lab, e, lab', root, file, nameLen, name, Regular, ret)
    ensures FirstMade(e, lab', root, file, PaddedName(nameLen, name))
  {
    hide MadeOutcome, FsGood, NameFree, NumberOf, PaddedName, GoodName, SameFile, BytesOf, Tight, IsFile, Truthful;
    FreshNameFree(c, lab, root, nameLen, name);
    FreshHolds(c, lab, root);
    EmptyHolds(c, root);
    MadeNumber(c, lab, e, lab', root, file, nameLen, name, Regular, ret);
    MadeMeans(c, lab, e, lab', root, file, nameLen, name, Regular, ret, 0);
    MadeTruth(c, lab, e, lab', root, file, nameLen, name, Regular, ret);
  }

  lemma FreshNameFree(c: Store, lab: Labels, root: nat, nameLen: nat, name: seq<Byte>)
    requires FreshRoot(c, lab, root) && GoodName(nameLen, name)
    ensures NameFree(c, lab, root, nameLen, name)
  {
    hide FsGood, DirBlocks;
    FreshHolds(c, lab, root);
    EmptyHolds(c, root);
  }

  lemma SecondNameFree(c: Store, lab: Labels, root: nat, file: nat, fileName: Name, nameLen: nat, name: seq<Byte>)
    requires FirstMade(c, lab, root, file, fileName) && GoodName(nameLen, name) && PaddedName(nameLen, name) != fileName
    ensures NameFree(c, lab, root, nameLen, name)
  {
    hide FsGood, DirBlocks, IsFile, BytesOf;
    assert NumberOf(c, root, PaddedName(nameLen, name)) == 0;
  }

  // The second entry of the root, a directory.
  lemma SecondIn(c: Store, lab: Labels, e: Store, lab': Labels, root: nat, file: nat, dir: nat, fileName: Name,
                 nameLen: nat, name: seq<Byte>, ret: int)
    requires FirstMade(c, lab, root, file, fileName) && GoodName(nameLen, name) && PaddedName(nameLen, name) != fileName
    requires MadeOutcome(c, lab, e, lab', root, dir, nameLen, name, Directory, ret)
    ensures Stage(e, lab', root, file, dir, fileName, PaddedName(nameLen, name), 0, [])
  {
    hide MadeOutcome, FsGood, NameFree, NumberOf, PaddedName, GoodName, SameFile, FileBytes, Truthful;
    SecondNameFree(c, lab, root, file, fileName, nameLen, name);
    MadeNumber(c, lab, e, lab', root, dir, nameLen, name, Directory, ret);
    MadeMeans(c, lab, e, lab', root, dir, nameLen, name, Directory, ret, 1);
    MadeTruth(c, lab, e, lab', root, dir, nameLen, name, Directory, ret);
    SameFileKeepsBytes(c, lab, e, file);
  }

  // The file is written.
  lemma StageWritten(c: Store, lab: Labels, e: Store, lab': Labels, root: nat, file: nat, dir: nat,
                     fileName: Name, dirName: Name, n: nat, data: seq<Byte>, ret: int)
    requires Stage(c, lab, root, file, dir, fileName, dirName, n, []) && 0 < |data| <= MAX_FILE
    requires WriteOutcome(c, e, file, 0, data, ret) && FilesGood(e, lab')
    ensures ret == |data| && Stage(e, lab', root, file, dir, fileName, dirName, n, data)
    ensures CutAndExtended(c, e, file, 0, data)
  {
    hide FsGood, FilesGood, FileBytes, AllEntries, DirBlocks, Lookup, OthersKept, NoNewInode, Truthful;
    assert data[..|data|] == data;
    assert BytesOf(c, file)[..0] + data == data;
    FileWriteKeepsFs(c, lab, e, lab', file, 0, data);
    WrittenTruth(c, lab, e, lab', file, 0, data);
    assert IsDir(c, root) && IsDir(c, dir);
    forall other: Name ensures NumberOf(e, root, other) == NumberOf(c, root, other) {}
  }

  // Something is made in the directory.
  lemma StageFilled(c: Store, lab: Labels, e: Store, lab': Labels, root: nat, file: nat, dir: nat,
                    fileName: Name, dirName: Name, n: nat, data: seq<Byte>)
    requires Stage(c, lab, root, file, dir, fileName, dirName, n, data) && FsGood(e, lab') && Holds(e, dir, n + 1)
    requires Truthful(e)
    requires forall g | g in c && c[g].Ino? && g != dir :: SameFile(c, e, g)
    ensures Stage(e, lab', root, file, dir, fileName, dirName, n + 1, data)
  {
    hide FsGood, FileBytes, AllEntries, DirBlocks, Lookup, SameFile, Truthful;
    assert file != dir;
    SameFileKeepsBytes(c, lab, e, file);
    SameFileKeepsDir(c, e, root);
    forall other: Name ensures NumberOf(e, root, other) == NumberOf(c, root, other) {}
  }

  // What a session leaves: the file is no longer in the root, though its blocks are
  // there; the directory is, with the second file in it.
  ghost predicate SessionOutcome(c: Store, root: nat, file: nat, dir: nat, inner: nat,
                                 dirName: Name, innerName: Name, data: seq<Byte>) {
    && Holds(c, root, 1) && Holds(c, dir, 1) && Truthful(c)
    && (forall other: Name :: NumberOf(c, root, other) == (if other == dirName then dir else 0))
    && (forall other: Name :: NumberOf(c, dir, other) == (if other == innerName then inner else 0))
    && IsFile(c, file) && BytesOf(c, file) == data
  }

  lemma SessionEnds(c: Store, lab: Labels, e: Store, lab': Labels, root: nat, file: nat, dir: nat, inner: nat,
                    fileName: Name, dirName: Name, innerName: Name, data: seq<Byte>)
    requires Stage(c, lab, root, file, dir, fileName, dirName, 1, data) && fileName != dirName
    requires forall other: Name :: NumberOf(c, dir, other) == (if other == innerName then inner else 0)
    requires FsGood(e, lab') && Truthful(e) && Holds(e, root, 1) && Renumbered(c, e, root, fileName, 0)
    requires forall g | g in c && c[g].Ino? && g != root :: SameFile(c, e, g)
    ensures SessionOutcome(e, root, file, dir, inner, dirName, innerName, data)
  {
    hide FsGood, FileBytes, AllEntries, DirBlocks, Lookup, SameFile, Truthful;
    SameFileKeepsBytes(c, lab, e, file);
    SameFileKeepsDir(c, e, dir);
    forall other: Name ensures NumberOf(e, dir, other) == NumberOf(c, dir, other) {}
  }

  // ---------- the same by the methods ----------

  // Blocks that can be written to a fresh device after its root.
  function Positions(g: Geometry): int
    requires g.Valid()
  {
    (g.Swap() - 1) * g.blocks - 1
  }

  // The rows of hodo.h, one a block, are more than the positions.
  lemma EnoughRows(g: Geometry, n: int)
    requires g.Valid() && g.entries == g.zones * g.blocks && n <= Positions(g)
    ensures n < (g.Swap() - 1) * g.blocks && n + 1 < g.entries && 32 <= g.entries
  {
    MulLess(g.zones, 3, g.blocks);
    assert (g.Swap() - 1) * g.blocks == (g.zones - 3) * g.blocks;
    MulAtLeast(g.zones, 4, g.blocks);
  }

  lemma ManyPositions(g: Geometry)
    requires g.Valid()
    ensures Positions(g) >= 31 && Positions(g) - 8 > (g.Swap() - 2) * g.blocks
  {
    MulLess(g.Swap() - 1, 1, g.blocks);
    MulAtLeast(g.Swap() - 2, 0, g.blocks);
  }

  // Formatting and one file.
  method MakeFirst(g: Geometry, nameLen: nat, name: seq<Byte>)
    returns (m: MappingInfo, root: nat, file: nat, ghost lab: Labels)
    requires g.Valid() && g.entries == g.zones * g.blocks && GoodName(nameLen, name)
    ensures fresh(m) && Ready(m, lab, 0) && Budget(m.View(), Positions(g) - 4) && m.geo == g
    ensures FirstMade(Contents(m.View()), lab, root, file, PaddedName(nameLen, name))
  {
    hide Members, GcPositions, Inv, Contents, FsGood, Budget, MadeOutcome, NameFree, TreesGood, FreshRoot, FirstMade;
    hide PaddedName, GoodName, Truthful;
    EnoughRows(g, Positions(g));
    ManyPositions(g);
    m, root, lab := HodoInit(g);
    ghost var s, lab0 := m.View(), lab;
    FreshNameFree(Contents(s), lab, root, nameLen, name);
    FreshTrees(Contents(s), lab, root);
    FreshTruth(Contents(s), lab, root);
    assert Budget(s, Positions(g));
    BudgetLess(s, Positions(g), 4);
    var ret;
    file, ret, lab := HodoCreate(m, root, nameLen, name, lab);
    FirstIn(Contents(s), lab0, Contents(m.View()), lab, root, file, nameLen, name, ret);
    UseBudget(s, m.View(), Positions(g) - 4, 4);
  }

  lemma FreshTrees(c: Store, lab: Labels, root: nat)
    requires FreshRoot(c, lab, root)
    ensures TreesGood(c, lab)
  {
    hide NumberGood, DirGood, LeavesPresent, DirBlocks;
  }

  // Formatting, one file, and one directory with the collection that follows it.
  method SetUp(g: Geometry, fileLen: nat, fileName: seq<Byte>, dirLen: nat, dirName: seq<Byte>)
    returns (m: MappingInfo, root: nat, file: nat, dir: nat, ghost lab: Labels)
    requires g.Valid() && g.entries == g.zones * g.blocks
    requires GoodName(fileLen, fileName) && GoodName(dirLen, dirName)
    requires PaddedName(fileLen, fileName) != PaddedName(dirLen, dirName)
    ensures fresh(m) && Ready(m, lab, 0) && Budget(m.View(), Positions(g) - 9)
    ensures Stage(Contents(m.View()), lab, root, file, dir, PaddedName(fileLen, fileName), PaddedName(dirLen,
        dirName), 0, [])
  {
    hide Members, GcPositions, Inv, Contents, Budget, MadeOutcome, NameFree, TreesGood, FirstMade, Collected;
    hide PaddedName, Stage, PrefixesRoomy;
    ManyPositions(g);
    m, root, file, lab := MakeFirst(g, fileLen, fileName);
    ghost var s, lab1 := m.View(), lab;
    SecondNameFree(Contents(s), lab, root, file, PaddedName(fileLen, fileName), dirLen, dirName);
    BudgetLess(s, Positions(g) - 4, 4);
    var ret;
    ghost var before: State;
    dir, ret, lab, before := HodoMkdir(m, root, dirLen, dirName, lab);
    UseBudget(s, before, Positions(g) - 8, 4);
    EarlyLogIsRoomy(before, Positions(g) - 8);
    SecondIn(Contents(s), lab1, Contents(before), lab, root, file, dir, PaddedName(fileLen, fileName), dirLen,
        dirName, ret);
    UseBudget(s, m.View(), Positions(g) - 9, 5);
  }

  lemma StageFacts(c: Store, lab: Labels, root: nat, file: nat, dir: nat, fileName: Name, dirName: Name,
                   n: nat, data: seq<Byte>)
    requires Stage(c, lab, root, file, dir, fileName, dirName, n, data)
    ensures FsGood(c, lab) && FilesGood(c, lab) && TreesGood(c, lab) && IsFile(c, file)
    ensures IsDir(c, root) && c[root].inode.ino == root && IsDir(c, dir) && c[dir].inode.ino == dir
    ensures n == 0 ==> forall other: Name :: NumberOf(c, dir, other) == 0
  {
    hide NumberGood, DirGood, LeavesPresent, DirBlocks, FileBytes;
    if n == 0 { EmptyHolds(c, dir); }
  }

  lemma DirNameFree(c: Store, lab: Labels, d: nat, nameLen: nat, name: seq<Byte>)
    requires FsGood(c, lab) && Holds(c, d, 0) && GoodName(nameLen, name)
    ensures NameFree(c, lab, d, nameLen, name)
  {
    hide FsGood, DirBlocks;
    EmptyHolds(c, d);
  }

  // Making the second file, in the directory.
  lemma InnerIn(c: Store, lab: Labels, e: Store, lab': Labels, root: nat, file: nat, dir: nat, inner: nat,
                fileName: Name, dirName: Name, nameLen: nat, name: seq<Byte>, data: seq<Byte>, ret: int)
    requires Stage(c, lab, root, file, dir, fileName, dirName, 0, data) && GoodName(nameLen, name)
    requires MadeOutcome(c, lab, e, lab', dir, inner, nameLen, name, Regular, ret)
    ensures Stage(e, lab', root, file, dir, fileName, dirName, 1, data)
    ensures forall other: Name :: NumberOf(e, dir, other) == (if other == PaddedName(nameLen, name) then inner else 0)
  {
    hide MadeOutcome, FsGood, NameFree, NumberOf, PaddedName, GoodName, SameFile, BytesOf, Tight, IsFile, Truthful;
    DirNameFree(c, lab, dir, nameLen, name);
    EmptyHolds(c, dir);
    MadeNumber(c, lab, e, lab', dir, inner, nameLen, name, Regular, ret);
    MadeMeans(c, lab, e, lab', dir, inner, nameLen, name, Regular, ret, 0);
    MadeTruth(c, lab, e, lab', dir, inner, nameLen, name, Regular, ret);
    StageFilled(c, lab, e, lab', root, file, dir, fileName, dirName, 0, data);
  }

  // The file is taken out of the root.
  lemma FileOut(c: Store, lab: Labels, e: Store, lab': Labels, root: nat, file: nat, dir: nat, inner: nat,
                fileName: Name, dirName: Name, innerName: Name, data: seq<Byte>, found: bool)
    requires Stage(c, lab, root, file, dir, fileName, dirName, 1, data) && fileName != dirName && file != 0
    requires forall other: Name :: NumberOf(c, dir, other) == (if other == innerName then inner else 0)
    requires FsGood(e, lab') && RemoveOutcome(c, lab, e, lab', c[root].inode, fileName, found)
    ensures found && SessionOutcome(e, root, file, dir, inner, dirName, innerName, data)
  {
    hide FsGood, NumberOf, SameFile, BytesOf, RemoveOutcome, Truthful;
    RemovedMeans(c, lab, e, lab', root, fileName, found, 2);
    RemovedTruth(c, lab, e, lab', c[root].inode, fileName, found);
    SessionEnds(c, lab, e, lab', root, file, dir, inner, fileName, dirName, innerName, data);
  }

  // The file is written and the second one made.
  method Fill(m: MappingInfo, root: nat, file: nat, dir: nat, ghost fileName: Name, ghost dirName: Name,
              nameLen: nat, name: seq<Byte>, data: seq<Byte>, ghost lab: Labels)
    returns (inner: nat, ghost lab': Labels)
    requires Ready(m, lab, 0) && Budget(m.View(), APPENDS * BlocksTouched(0, |data|) + 7) && GoodName(nameLen, name)
    requires Stage(Contents(m.View()), lab, root, file, dir, fileName, dirName, 0, []) && 0 < |data| < TWO31
    modifies m
    ensures Ready(m, lab', 3)
    ensures Stage(Contents(m.View()), lab', root, file, dir, fileName, dirName, 1, data)
    ensures forall other: Name ::
      NumberOf(Contents(m.View()), dir, other) == (if other == PaddedName(nameLen, name) then inner else 0)
  {
    hide Members, GcPositions, Inv, Contents, Budget, MadeOutcome, NameFree, TreesGood, Stage, NumberOf, FsGood;
    hide PaddedName, BytesOf, WriteOutcome, CutAndExtended, FilesGood, BlocksTouched;
    ghost var s, n := m.View(), APPENDS * BlocksTouched(0, |data|);
    StageFacts(Contents(s), lab, root, file, dir, fileName, dirName, 0, []);
    BudgetLess(s, n + 7, n);
    var ret;
    ret, lab' := FileWriteIter(m, file, 0, data, lab);
    ghost var t, lab1 := m.View(), lab';
    StageWritten(Contents(s), lab, Contents(t), lab', root, file, dir, fileName, dirName, 0, data, ret);
    StageFacts(Contents(t), lab', root, file, dir, fileName, dirName, 0, data);
    UseBudget(s, t, 7, n);
    BudgetLess(t, 7, 4);
    StageDir(Contents(t), lab', root, file, dir, fileName, dirName, data);
    DirNameFree(Contents(t), lab', dir, nameLen, name);
    inner, ret, lab' := HodoCreate(m, dir, nameLen, name, lab');
    InnerIn(Contents(t), lab1, Contents(m.View()), lab', root, file, dir, inner, fileName, dirName, nameLen, name,
        data, ret);
    UseBudget(t, m.View(), 3, 4);
  }

  lemma StageDir(c: Store, lab: Labels, root: nat, file: nat, dir: nat, fileName: Name, dirName: Name, data: seq<Byte>)
    requires Stage(c, lab, root, file, dir, fileName, dirName, 0, data)
    ensures Holds(c, dir, 0)
  {
  }

  // A file and a directory are made, the file is written, a second file is made in the
  // directory, the first is read back and then taken out of the root. The collector
  // runs in between, at the end of mkdir.
  method Session(g: Geometry, fileLen: nat, fileName: seq<Byte>, dirLen: nat, dirName: seq<Byte>,
                 innerLen: nat, innerName: seq<Byte>, data: seq<Byte>)
    returns (m: MappingInfo, root: nat, file: nat, dir: nat, inner: nat, out: seq<Byte>, stray: bool,
             listed: seq<Dirent>, ghost lab: Labels)
    requires g.Valid() && g.entries == g.zones * g.blocks
    requires GoodName(fileLen, fileName) && GoodName(dirLen, dirName) && GoodName(innerLen, innerName)
    requires PaddedName(fileLen, fileName) != PaddedName(dirLen, dirName)
    requires 0 < |data| < TWO31 && APPENDS * BlocksTouched(0, |data|) + 16 <= Positions(g)
    ensures fresh(m) && Ready(m, lab, 0) && FsGood(Contents(m.View()), lab)
    ensures SessionOutcome(Contents(m.View()), root, file, dir, inner,
                           PaddedName(dirLen, dirName), PaddedName(innerLen, innerName), data)
    ensures stray <==> |data| % DATA_SIZE == 0
    ensures !stray ==> out == data
    ensures |listed| == 1 && listed[0].ino == dir && listed[0].name == PaddedName(dirLen, dirName)
    ensures listed[0].fileType == 1
  {
    hide Members, GcPositions, Inv, Contents, Budget, TreesGood, Stage, NumberOf, FsGood, FilesGood;
    hide PaddedName, BytesOf, BlocksTouched, SessionOutcome, Strays, ReadOutcome, RemoveOutcome, IsFile;
    m, root, file, dir, lab := SetUp(g, fileLen, fileName, dirLen, dirName);
    ghost var name, dname := PaddedName(fileLen, fileName), PaddedName(dirLen, dirName);
    BudgetLess(m.View(), Positions(g) - 9, APPENDS * BlocksTouched(0, |data|) + 7);
    inner, lab := Fill(m, root, file, dir, name, dname, innerLen, innerName, data, lab);
    ghost var c, lab1 := Contents(m.View()), lab;
    StageFacts(c, lab, root, file, dir, name, dname, 1, data);
    var ret;
    ret, out, stray := FileReadIter(m, file, 0, |data|, lab);
    StageFile(c, lab, root, file, dir, name, dname, 1, data);
    WholeFileRead(c, lab, file, data, ret, out, stray);
    ContentsRead(m.View(), root);
    var buf := m.ReadStruct(root, Dat(0, 0, Zeroes()));
    NameBytesGood(fileLen, fileName);
    var found;
    found, lab := RemoveDirent(m, buf.inode, PaddedName(fileLen, fileName), lab);
    FileOut(c, lab1, Contents(m.View()), lab, root, file, dir, inner, name, dname, PaddedName(innerLen, innerName),
        data, found);
    listed := ListRoot(m, root, file, dir, inner, dname, PaddedName(innerLen, innerName), data, lab);
  }

  // readdir of the root at the end of a session.
  method ListRoot(m: MappingInfo, root: nat, ghost file: nat, ghost dir: nat, ghost inner: nat,
                  ghost dirName: Name, ghost innerName: Name, ghost data: seq<Byte>, ghost lab: Labels)
    returns (listed: seq<Dirent>)
    requires m.Sized() && FsGood(Contents(m.View()), lab) && dir != 0
    requires SessionOutcome(Contents(m.View()), root, file, dir, inner, dirName, innerName, data)
    ensures |listed| == 1 && listed[0].ino == dir && listed[0].name == dirName && listed[0].fileType == 1
  {
    hide Members, GcPositions, Contents, FsGood, SessionOutcome, DirBlocks, AllEntries;
    RootThere(Contents(m.View()), lab, root, file, dir, inner, dirName, innerName, data);
    ContentsRead(m.View(), root);
    var buf := m.ReadStruct(root, Dat(0, 0, Zeroes()));
    var pos;
    listed, pos := ReadAllDirents(m, buf.inode, 2, lab);
    OneListed(Contents(m.View()), root, file, dir, inner, dirName, innerName, data);
  }

  lemma RootThere(c: Store, lab: Labels, root: nat, file: nat, dir: nat, inner: nat,
                  dirName: Name, innerName: Name, data: seq<Byte>)
    requires SessionOutcome(c, root, file, dir, inner, dirName, innerName, data) && FsGood(c, lab)
    ensures root in c && c[root].Ino? && DirAt(c, lab, c[root].inode) && c[root].inode.ino == root
  {
    hide FsGood, DirBlocks, AllEntries, BytesOf, Truthful, NumberOf;
  }

  // The one entry of the root is the directory, and marked as one.
  lemma OneListed(c: Store, root: nat, file: nat, dir: nat, inner: nat,
                  dirName: Name, innerName: Name, data: seq<Byte>)
    requires SessionOutcome(c, root, file, dir, inner, dirName, innerName, data) && dir != 0
    ensures IsDir(c, root)
    ensures var es := DirEntries(c, c[root].inode);
      |es| == 1 && es[0].ino == dir && es[0].name == dirName && es[0].fileType == 1
  {
    hide DirBlocks, AllEntries, BytesOf;
    var es := DirEntries(c, c[root].inode);
    assert Lookup(es, dirName) == dir by { assert NumberOf(c, root, dirName) == dir; }
    assert es[1..] == [] && Lookup([], dirName) == 0;
    assert es[0] in es && EntryTrue(c, es[0]);
  }

  lemma NameBytesGood(nameLen: nat, name: seq<Byte>)
    requires GoodName(nameLen, name)
    ensures PaddedName(nameLen, name)[0] != 0
  {
  }

  // Reading a whole file gives its bytes except when it ends on a block boundary.
  lemma WholeFileRead(c: Store, lab: Labels, file: nat, data: seq<Byte>, ret: int, out: seq<Byte>, stray: bool)
    requires FilesGood(c, lab) && IsFile(c, file) && BytesOf(c, file) == data && Tight(c, file) && 0 < |data| < TWO31
    requires stray <==> Strays(c, file, 0, |data|)
    requires !stray ==> ReadOutcome(c, file, 0, |data|, ret, out)
    ensures stray <==> |data| % DATA_SIZE == 0
    ensures !stray ==> out == data
  {
    hide FileLeaf, FilesGood, Strays, LeavesPresent, ByteAt;
    assert |BytesOf(c, file)| == c[file].inode.fileLen;
    ReadLenExact(|data|, 0, |data|);
    StraysAtTheEnd(c, lab, file, 0, |data|);
    assert data[0..|data|] == data;
  }

  lemma StageFile(c: Store, lab: Labels, root: nat, file: nat, dir: nat, fileName: Name, dirName: Name,
                  n: nat, data: seq<Byte>)
    requires Stage(c, lab, root, file, dir, fileName, dirName, n, data) && TreesGood(c, lab)
    ensures IsFile(c, file) && BytesOf(c, file) == data && Tight(c, file) && file != 0 && dir != 0
  {
    hide FsGood, FileBytes;
    CreatedNumber(c, lab, file);
    CreatedNumber(c, lab, dir);
  }

  // ---------- a file of 4 GiB ----------

  // On a device with room for it, a file of 4 GiB is made and written, and reading it
  // from its start then yields nothing: the length of the read is 0 in 32 bits.
  method LongFile(g: Geometry, nameLen: nat, name: seq<Byte>, data: seq<Byte>, count: nat)
    returns (m: MappingInfo, file: nat, ret: int, out: seq<Byte>, stray: bool, ghost lab: Labels)
    requires g.Valid() && g.entries == g.zones * g.blocks && GoodName(nameLen, name)
    requires |data| == TWO32 && APPENDS * BlocksTouched(0, |data|) + 4 <= Positions(g)
    requires 0 < count < TWO31
    ensures fresh(m) && Ready(m, lab, 0) && FilesGood(Contents(m.View()), lab)
    ensures IsFile(Contents(m.View()), file) && BytesOf(Contents(m.View()), file) == data
    ensures !stray && ret == 0 && out == []
  {
    hide Members, GcPositions, Inv, Contents, Budget, TreesGood, FilesGood, FirstMade, PaddedName, BlocksTouched;
    hide BytesOf, IsFile, WriteOutcome, Strays, ReadOutcome;
    ghost var root;
    m, root, file, lab := MakeFirst(g, nameLen, name);
    ghost var s, lab0 := m.View(), lab;
    FirstFile(Contents(s), lab, root, file, PaddedName(nameLen, name));
    BudgetLess(s, Positions(g) - 4, APPENDS * BlocksTouched(0, |data|));
    ret, lab := FileWriteIter(m, file, 0, data, lab);
    WrittenWhole(Contents(s), Contents(m.View()), file, data, ret);
    ret, out, stray := FileReadIter(m, file, 0, count, lab);
    NothingRead(Contents(m.View()), file, data, count, ret, out, stray);
  }

  // A hundred zones of 256 MiB have that room.
  lemma RoomForLongFile()
    ensures var g := Geometry(100, 65536, 6553600);
      g.Valid() && g.entries == g.zones * g.blocks && APPENDS * BlocksTouched(0, TWO32) + 4 <= Positions(g)
  {
  }

  lemma FirstFile(c: Store, lab: Labels, root: nat, file: nat, fileName: Name)
    requires FirstMade(c, lab, root, file, fileName)
    ensures FilesGood(c, lab) && Writable(c, file, 0) && BytesOf(c, file) == []
  {
    hide FilesGood, FileBytes;
  }

  lemma WrittenWhole(c: Store, e: Store, file: nat, data: seq<Byte>, ret: int)
    requires WriteOutcome(c, e, file, 0, data, ret) && 0 < |data| <= MAX_FILE && IsFile(c, file) && BytesOf(c,
        file) == []
    ensures IsFile(e, file) && BytesOf(e, file) == data
  {
    hide FileBytes, OthersKept, NoNewInode;
    assert data[..|data|] == data;
    assert BytesOf(c, file)[..0] + data == data;
  }

  lemma NothingRead(c: Store, file: nat, data: seq<Byte>, count: nat, ret: int, out: seq<Byte>, stray: bool)
    requires IsFile(c, file) && BytesOf(c, file) == data && |data| == TWO32 && 0 < count < TWO31
    requires stray <==> Strays(c, file, 0, count)
    requires !stray ==> ReadOutcome(c, file, 0, count, ret, out)
    ensures !stray && ret == 0 && out == []
  {
    hide FileLeaf, ByteAt;
    assert |BytesOf(c, file)| == c[file].inode.fileLen;
    LongFileReadsNothing(0, count);
  }
}
