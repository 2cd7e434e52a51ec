// Creating files and directories, and the file system as a whole: hodo_init,
// hodo_create and hodo_mkdir of hodo.c.
module FileSystem {
  import opened Bitmap
  import opened Blocks
  import opened Counting
  import opened Translation
  import opened MappingLayer
  import opened TranslationRuns
  import opened GcInvariants
  import opened GarbageCollector
  import opened BlockStore
  import opened FileIndex
  import opened FileTree
  import opened FileWrite
  import opened FileEffect
  import opened FileOps
  import opened Dirents
  import opened Directory
  import opened DirTree
  import opened DirOps

  const NO_POINTERS: seq<nat> := [0, 0, 0, 0, 0, 0, 0, 0, 0, 0]

  // A new inode, with no blocks; a directory starts with length 2.
  function NewInode(number: nat, nameLen: nat, name: seq<Byte>, typ: FileType): Inode {
    Inode(number, if typ == Directory then 2 else 0, nameLen, name, typ, NO_POINTERS, 0, 0, 0)
  }

  // ---------- writes to files keep directories ----------

  // After a write to a regular file the whole file system is still good, and every
  // directory has the entries it had.
  lemma FileWriteKeepsFs(c: Store, lab: Labels, e: Store, lab': Labels, f: nat, pos: nat, data: seq<Byte>)
    requires FsGood(c, lab) && FilesGood(e, lab') && CutAndExtended(c, e, f, pos, data)
    ensures FsGood(e, lab')
    ensures
      forall g | IsDir(c, g) :: IsDir(e, g) && e[g] == c[g] && DirEntries(e, e[g].inode) == DirEntries(c, c[g].inode)
  {
    hide FilesGood, FileBytes, SameFile, DirGood, AllEntries;
    forall g | IsDir(e, g) ensures DirGood(e, e[g].inode) {
      assert g in c && c[g].Ino? && g != f;
      assert SameFile(c, e, g);
      SameInode(c, e, g);
      SameDir(c, e, g);
    }
    forall g | IsDir(c, g)
      ensures IsDir(e, g) && e[g] == c[g] && DirEntries(e, e[g].inode) == DirEntries(c, c[g].inode)
    {
      assert SameFile(c, e, g);
      SameInode(c, e, g);
      SameDir(c, e, g);
    }
  }

  // ---------- a new inode ----------

  lemma NoRoots(number: nat, nameLen: nat, name: seq<Byte>, typ: FileType)
    ensures var i := NewInode(number, nameLen, name, typ);
      |i.direct| == DIRECT_BLOCKS && (forall r: nat | r < 13 :: RootPtr(i, r) == 0) && LeadingPtrs(i.direct) == 0
  {
  }

  lemma {:induction false} LeafWithInode(c: Store, l: nat, b: Block, p: nat, h: nat, n: nat)
    requires l !in c && b.Ino?
    ensures Leaf(c[l := b], p, h, n) == Leaf(c, p, h, n)
    decreases h
  {
    hide GetPtr, Slot;
    if p != 0 && h > 0 && p in c && c[p].Dat? {
      LeafWithInode(c, l, b, GetPtr(c[p].data, Slot(n, h)), h - 1, n);
    }
  }

  lemma InodeAdded(c: Store, lab: Labels, i: Inode)
    requires TreesGood(c, lab) && i.ino !in c && 0 < i.ino < POINTER_LIMIT
    requires |i.direct| == DIRECT_BLOCKS && (forall r: nat | r < 13 :: RootPtr(i, r) == 0)
    ensures TreesGood(c[i.ino := Ino(i)], lab[i.ino := InodeOf])
    ensures forall g | g in c && c[g].Ino? :: SameFile(c, c[i.ino := Ino(i)], g)
  {
    hide RootPtr, Locate, Leaf;
    var e := c[i.ino := Ino(i)];
    SameKeys(c, lab);
    PutKeepsTrees(c, lab, i.ino, Ino(i), InodeOf);
    forall g | g in c && c[g].Ino? ensures SameFile(c, e, g) {
      assert NumberGood(c, lab, g) && NumberGood(e, lab[i.ino := InodeOf], g);
      forall n: nat | n < MAX_BLOCKS
        ensures FileLeaf(e, c[g].inode, n) == FileLeaf(c, c[g].inode, n)
        ensures FileLeaf(c, c[g].inode, n) != 0 ==> FileLeaf(c, c[g].inode, n) in c
      {
        TopIdx(n);
        LeafWithInode(c, i.ino, Ino(i), RootPtr(c[g].inode, Locate(n).root), Locate(n).height, Locate(n).leaf);
        FileLeafLabel(c, lab, g, n);
      }
    }
  }

  // Storing a new inode keeps the file system good and all other files as they are.
  lemma FsWithInode(c: Store, lab: Labels, number: nat, nameLen: nat, name: seq<Byte>, typ: FileType)
    requires FsGood(c, lab) && number !in c && 0 < number < POINTER_LIMIT
    requires !IsRoot(NewInode(number, nameLen, name, typ))
    ensures var i := NewInode(number, nameLen, name, typ);
      FsGood(c[number := Ino(i)], lab[number := InodeOf]) &&
      forall g | g in c && c[g].Ino? :: SameFile(c, c[number := Ino(i)], g)
  {
    hide SameFile, LeavesPresent, DirGood, TreesGood, RootPtr, DirBlocks, NewInode;
    var i := NewInode(number, nameLen, name, typ);
    var e, lab' := c[number := Ino(i)], lab[number := InodeOf];
    NoRoots(number, nameLen, name, typ);
    assert i.ino == number && i.typ == typ by { NewFields(number, nameLen, name, typ); }
    FilesAreTrees(c, lab);
    InodeAdded(c, lab, i);
    forall g | g in e && e[g].Ino? && e[g].inode.typ == Regular
      ensures |e[g].inode.direct| == DIRECT_BLOCKS && LeavesPresent(e, e[g].inode)
    {
      if g == number {
        NewEmpty(e, number, nameLen, name, typ);
      } else {
        assert g in c && SameFile(c, e, g);
        SameInode(c, e, g);
        SameFileBytes(c, e, g);
      }
    }
    forall g | IsDir(e, g) ensures DirGood(e, e[g].inode) {
      if g == number {
        NewEmptyDir(e, number, nameLen, name, typ);
      } else {
        assert g in c && SameFile(c, e, g);
        SameInode(c, e, g);
        SameDir(c, e, g);
      }
    }
  }

  lemma NewFields(number: nat, nameLen: nat, name: seq<Byte>, typ: FileType)
    ensures var i := NewInode(number, nameLen, name, typ);
      i.ino == number && i.typ == typ && i.name == name && i.nameLen == nameLen
  {
  }

  lemma NewEmpty(e: Store, number: nat, nameLen: nat, name: seq<Byte>, typ: FileType)
    requires typ == Regular
    ensures var i := NewInode(number, nameLen, name, typ);
      |i.direct| == DIRECT_BLOCKS && LeavesPresent(e, i) && FileBytes(e, i) == []
  {
  }

  lemma NewEmptyDir(e: Store, number: nat, nameLen: nat, name: seq<Byte>, typ: FileType)
    requires typ == Directory && !IsRoot(NewInode(number, nameLen, name, typ))
    ensures var i := NewInode(number, nameLen, name, typ); DirGood(e, i) && DirEntries(e, i) == []
  {
    var i := NewInode(number, nameLen, name, typ);
    assert DirBlocks(e, i) == [];
  }

  // ---------- hodo_init ----------

  // A fresh file system: its root directory, the first logical number, is empty.
  ghost predicate FreshRoot(c: Store, lab: Labels, root: nat) {
    && FsGood(c, lab) && IsDir(c, root) && c[root].inode.ino == root
    && c[root].inode.fileLen == 0 && DirEntries(c, c[root].inode) == []
  }

  method HodoInit(g: Geometry) returns (m: MappingInfo, root: nat, ghost lab: Labels)
    requires g.Valid() && 32 <= g.entries
    ensures fresh(m) && m.geo == g && m.Sized() && Inv(m.View()) && root == g.zones
    ensures FreshRoot(Contents(m.View()), lab, root)
    ensures Contents(m.View()) ==
      map[root := Ino(Inode(root, 0, 1, [47], Directory, [0, 0, 0, 0, 0, 0, 0, 0, 0, 0], 0, 0, 0))]
    ensures forall n: int | n < (g.Swap() - 1) * g.blocks && n + 1 < g.entries :: Budget(m.View(), n)
  {
    hide Members, GcPositions, MapInv, Stored, Contents, FsGood, Room, DirBlocks;
    m := new MappingInfo(g);
    InitialInv(g);
    NothingAtFirst(m.View());
    FirstNumber(m.View());
    ghost var s := m.View();
    BudgetAtFirst(s);
    FreeAtFirst(s);
    var n := m.GetNextLogicalNumber();
    ghost var t := m.View();
    assert n == g.zones by { LeastIsFirst(s, n - g.zones); }
    TakeKeeps(s, n - g.zones);
    SameContents(s, t);
    root := n;
    var inode := Inode(root, 0, 1, [47], Directory, NO_POINTERS, 0, 0, 0);
    BudgetAfterTake(s, t, n - g.zones, 1);
    var number := StoreBlock(m, Ino(inode), root);
    lab := map[root := InodeOf];
    forall n: int | n < (g.Swap() - 1) * g.blocks && n + 1 < g.entries ensures Budget(m.View(), n) {
      assert Budget(t, n + 1) by { FreeShrinks(s, t, root - g.zones); SameRoom(s, t); }
    }
    RootAlone(Contents(m.View()), lab, inode);
  }

  lemma NothingAtFirst(s: State)
    requires Shape(s) && forall i: nat | i < |s.table| :: s.table[i].zone == 0
    ensures Contents(s) == map[]
  {
    assert forall l: nat :: Stored(s, l) == None;
  }

  lemma FirstNumber(s: State)
    requires Shape(s) && s.alloc == {} && 0 < |s.table|
    ensures HasFree(s) && IsLeastFree(s, 0)
  {
    assert 0 !in s.alloc;
  }

  lemma LeastIsFirst(s: State, i: nat)
    requires s.alloc == {} && 0 < |s.table| && IsLeastFree(s, i)
    ensures i == 0
  {
    assert i > 0 ==> 0 in s.alloc;
  }

  lemma BudgetAtFirst(s: State)
    requires Shape(s) && s.alloc == {} && 2 <= |s.table| && s.wp == BlockPos(1, 0)
    ensures Budget(s, 2)
  {
    assert {0, 1} <= FreeRows(s);
    SubsetSize({0, 1}, FreeRows(s));
    var a := s.geo.Swap() - 1;
    assert a >= 1 && a * s.geo.blocks >= s.geo.blocks;
  }

  lemma FreeAtFirst(s: State)
    requires Shape(s) && s.alloc == {} && s.wp == BlockPos(1, 0)
    ensures |FreeRows(s)| == s.geo.entries && Room(s) == (s.geo.Swap() - 1) * s.geo.blocks
  {
    var rows := Below(s.geo.entries);
    BelowSize(s.geo.entries);
    assert FreeRows(s) == rows;
  }

  lemma SameRoom(s: State, t: State)
    requires s.geo.Valid() && t.geo == s.geo && t.wp == s.wp
    ensures Room(t) == Room(s)
  {
  }

  lemma {:induction false} BelowSize(n: nat)
    ensures |Below(n)| == n
  {
    if n > 0 { BelowSize(n - 1); }
  }

  lemma BudgetAfterTake(s: State, t: State, i: nat, n: int)
    requires t == s.(alloc := s.alloc + {i}) && Budget(s, n + 1)
    ensures Budget(t, n)
  {
    FreeShrinks(s, t, i);
  }

  lemma RootAlone(c: Store, lab: Labels, i: Inode)
    requires 0 < i.ino < POINTER_LIMIT && c == map[i.ino := Ino(i)] && lab == map[i.ino := InodeOf]
    requires i.direct == NO_POINTERS && i.single == 0 && i.double == 0 && i.triple == 0
    requires i.typ == Directory && i.fileLen == 0 && IsRoot(i)
    ensures FreshRoot(c, lab, i.ino)
  {
    RootTrees(c, lab, i);
    RootEmpty(c, i);
    hide TreesGood, DirGood, DirBlocks, LeavesPresent, AllEntries;
  }

  lemma RootTrees(c: Store, lab: Labels, i: Inode)
    requires 0 < i.ino < POINTER_LIMIT && c == map[i.ino := Ino(i)] && lab == map[i.ino := InodeOf]
    requires i.direct == NO_POINTERS && i.single == 0 && i.double == 0 && i.triple == 0
    ensures TreesGood(c, lab)
  {
  }

  lemma RootEmpty(c: Store, i: Inode)
    requires i.direct == NO_POINTERS && i.single == 0 && i.double == 0 && i.triple == 0 && i.fileLen == 0 && IsRoot(i)
    ensures DirGood(c, i) && DirEntries(c, i) == []
  {
    assert DirBlocks(c, i) == [];
  }

  // ---------- hodo_create and hodo_mkdir ----------

  // A name that can be entered in directory dir; a path component is never "/".
  ghost predicate NameFree(c: Store, lab: Labels, dir: nat, nameLen: nat, name: seq<Byte>) {
    && FsGood(c, lab) && IsDir(c, dir) && c[dir].inode.ino == dir
    && 0 < nameLen <= NAME_SIZE && |name| >= nameLen && name[0] != 0 && !(nameLen == 1 && name[0] == 47)
    && Lookup(DirEntries(c, c[dir].inode), PaddedName(nameLen, name)) == 0
  }

  function PaddedName(nameLen: nat, name: seq<Byte>): Name
    requires 0 < nameLen <= NAME_SIZE && |name| >= nameLen
  {
    name[..nameLen] + seq(NAME_SIZE - nameLen, _ => 0)
  }

  // A new inode was stored under a number not used before, and then entered in the
  // directory if it had room.
  ghost predicate MadeOutcome(c: Store, lab: Labels, e: Store, lab': Labels, dir: nat, number: nat,
                              nameLen: nat, name: seq<Byte>, typ: FileType, ret: int) {
    var i := NewInode(number, nameLen, name, typ);
    && dir in c && c[dir].Ino? && number !in c && Enterable(i)
    && AddOutcome(c[number := Ino(i)], lab[number := InodeOf], e, lab', c[dir].inode, i, ret)
    && FsGood(e, lab')
    && (forall g | g in c && c[g].Ino? && g != dir :: SameFile(c, e, g))
    && number in e && e[number] == Ino(i)
  }

  method MakeInode(m: MappingInfo, dir: nat, nameLen: nat, name: seq<Byte>, typ: FileType, ghost lab: Labels)
    returns (number: nat, ret: int, ghost lab': Labels)
    requires Ready(m, lab, 4) && NameFree(Contents(m.View()), lab, dir, nameLen, name)
    modifies m
    ensures MadeOutcome(old(Contents(m.View())), lab, Contents(m.View()), lab', dir, number, nameLen, name, typ, ret)
    ensures Ready(m, lab', 0) && BudgetUsed(old(m.View()), m.View(), 4)
  {
    hide Members, GcPositions, Inv, Stored, Contents, FsGood, Budget, DirBlocks, AddOutcome, TreesGood, Allocated;
    hide Lookup, AllEntries, Padded, EntryOf, NewInode, LabelsKept;
    ghost var s := m.View();
    ghost var c := Contents(s);
    BudgetLess(s, 4, 1);
    RoomMeansSpace(s);
    var n := m.GetNextLogicalNumber();
    number := n;
    ghost var t := m.View();
    TakeFresh(s, number);
    BudgetAfterTake(s, t, number - m.geo.zones, 3);
    BudgetLess(t, 3, 1);
    NewFields(number, nameLen, name, typ);
    var inode := NewInode(number, nameLen, name, typ);
    var again := StoreBlock(m, Ino(inode), number);
    FsWithInode(c, lab, number, nameLen, name, typ);
    ghost var u := m.View();
    assert Budget(u, 2) by { assert Budget(t, 2 + 1); }
    FsAreTrees(Contents(u), lab[number := InodeOf]);
    StillFree(c, lab, dir, number, nameLen, name, typ);
    ret, lab' := AddDirent(m, dir, inode, lab[number := InodeOf]);
    forall k: int | Budget(s, k + 4) ensures Budget(m.View(), k) {
      BudgetAfterTake(s, t, number - m.geo.zones, k + 3);
      assert Budget(u, k + 2) by { assert Budget(t, (k + 2) + 1); }
    }
    MadeInode(c, lab, Contents(m.View()), lab', dir, number, nameLen, name, typ, ret);
  }

  lemma FsAreTrees(c: Store, lab: Labels)
    requires FsGood(c, lab)
    ensures TreesGood(c, lab)
  {
    hide NumberGood, LeavesPresent, DirGood;
  }

  lemma TakeFresh(s: State, n: nat)
    requires Inv(s) && s.geo.zones <= n && IsLeastFree(s, n - s.geo.zones)
    ensures var t := s.(alloc := s.alloc + {n - s.geo.zones});
      Inv(t) && Contents(t) == Contents(s) && Allocated(t, n) && n !in Contents(s) && 0 < n < POINTER_LIMIT
  {
    hide Inv, Transparent, Contents, IsLeastFree;
    NotStored(s, n);
    TakeKeeps(s, n - s.geo.zones);
    SameContents(s, s.(alloc := s.alloc + {n - s.geo.zones}));
  }

  lemma NotStored(s: State, n: nat)
    requires Inv(s) && s.geo.zones <= n && IsLeastFree(s, n - s.geo.zones)
    ensures n !in Contents(s) && InTable(s, n) && 0 < n < POINTER_LIMIT
  {
    FreeRowEmpty(s, n - s.geo.zones);
    assert Stored(s, n) == None by { assert s.zones[0] == []; }
  }

  lemma StillFree(c: Store, lab: Labels, dir: nat, number: nat, nameLen: nat, name: seq<Byte>, typ: FileType)
    requires NameFree(c, lab, dir, nameLen, name) && number !in c && 0 < number < POINTER_LIMIT
    ensures var i := NewInode(number, nameLen, name, typ);
      CanAdd(c[number := Ino(i)], lab[number := InodeOf], dir, i)
  {
    hide FsGood, DirBlocks, Lookup, AllEntries;
    var i := NewInode(number, nameLen, name, typ);
    FsWithInode(c, lab, number, nameLen, name, typ);
    assert SameFile(c, c[number := Ino(i)], dir);
    SameDir(c, c[number := Ino(i)], dir);
    assert Padded(i) == PaddedName(nameLen, name);
  }

  lemma MadeInode(c: Store, lab: Labels, e: Store, lab': Labels, dir: nat, number: nat,
                  nameLen: nat, name: seq<Byte>, typ: FileType, ret: int)
    requires NameFree(c, lab, dir, nameLen, name) && number !in c && 0 < number < POINTER_LIMIT
    requires var i := NewInode(number, nameLen, name, typ);
      Enterable(i) && AddOutcome(c[number := Ino(i)], lab[number := InodeOf], e, lab', c[dir].inode, i, ret)
    requires FsGood(e, lab')
    ensures MadeOutcome(c, lab, e, lab', dir, number, nameLen, name, typ, ret)
  {
    hide FsGood, DirBlocks, Lookup, AllEntries, OneMore, FileLeaf, IsFull;
    var i := NewInode(number, nameLen, name, typ);
    var d := c[number := Ino(i)];
    FsWithInode(c, lab, number, nameLen, name, typ);
    assert c[dir].inode.ino == dir;
    if ret == 0 {
      assert OthersKept(d, e, dir);
      forall g | g in c && c[g].Ino? && g != dir ensures SameFile(c, e, g) {
        assert SameFile(c, d, g) && SameFile(d, e, g);
      }
      assert SameFile(d, e, number);
    }
  }

  lemma MadeNew(c: Store, lab: Labels, e: Store, lab': Labels, dir: nat, number: nat,
                nameLen: nat, name: seq<Byte>, typ: FileType, ret: int)
    requires MadeOutcome(c, lab, e, lab', dir, number, nameLen, name, typ, ret)
    ensures number in e && e[number] ==
      Ino(Inode(number, if typ == Directory then 2 else 0, nameLen, name, typ, [0, 0, 0, 0, 0, 0, 0, 0, 0, 0], 0, 0, 0))
  {
    hide AddOutcome, FsGood, SameFile;
  }

  // hodo_create; the result of add_dirent is not looked at.
  method HodoCreate(m: MappingInfo, dir: nat, nameLen: nat, name: seq<Byte>, ghost lab: Labels)
    returns (number: nat, ret: int, ghost lab': Labels)
    requires Ready(m, lab, 4) && NameFree(Contents(m.View()), lab, dir, nameLen, name)
    modifies m
    ensures MadeOutcome(old(Contents(m.View())), lab, Contents(m.View()), lab', dir, number, nameLen, name, Regular,
        ret)
    ensures number in Contents(m.View()) && Contents(m.View())[number] ==
      Ino(Inode(number, 0, nameLen, name, Regular, [0, 0, 0, 0, 0, 0, 0, 0, 0, 0], 0, 0, 0))
    ensures Ready(m, lab', 0) && BudgetUsed(old(m.View()), m.View(), 4)
  {
    hide AddOutcome, FsGood, SameFile, Contents, Budget, TreesGood, Inv;
    number, ret, lab' := MakeInode(m, dir, nameLen, name, Regular, lab);
  }

  // hodo_mkdir ends with a run of the collector, which keeps every block exactly
  // when the state it starts from has room, and then uses up at most one position.
  method HodoMkdir(m: MappingInfo, dir: nat, nameLen: nat, name: seq<Byte>, ghost lab: Labels)
    returns (number: nat, ret: int, ghost lab': Labels, ghost before: State)
    requires Ready(m, lab, 4) && NameFree(Contents(m.View()), lab, dir, nameLen, name)
    modifies m
    ensures MadeOutcome(old(Contents(m.View())), lab, Contents(before), lab', dir, number, nameLen, name, Directory,
        ret)
    ensures number in Contents(before) && Contents(before)[number] ==
      Ino(Inode(number, 2, nameLen, name, Directory, [0, 0, 0, 0, 0, 0, 0, 0, 0, 0], 0, 0, 0))
    ensures before.geo == m.geo && Inv(before) && BudgetUsed(old(m.View()), before, 4)
    ensures m.Sized() && Collected(before, m.View())
    ensures PrefixesRoomy(before) ==> Contents(m.View()) == Contents(before)
    ensures PrefixesRoomy(before) ==> Ready(m, lab', 0) && BudgetUsed(old(m.View()), m.View(), 5)
  {
    hide MadeOutcome, Contents, Transparent, PrefixesRoomy, CompactLog, Budget, TreesGood, MapInv, LogShape, Shape;
    hide LosesABlock;
    ghost var s := m.View();
    ghost var c := Contents(s);
    number, ret, lab' := MakeInode(m, dir, nameLen, name, Directory, lab);
    before := m.View();
    MadeNew(c, lab, Contents(before), lab', dir, number, nameLen, name, Directory, ret);
    GC(m);
    if PrefixesRoomy(before) {
      SameContents(before, m.View());
      forall k: int | Budget(s, k + 5) ensures Budget(m.View(), k) {
        assert Budget(before, k + 1) by { assert Budget(s, (k + 1) + 4); }
        CollectionKeepsBudget(before, m.View(), k);
      }
      NoneIsLeft(m.View());
    }
  }
}
