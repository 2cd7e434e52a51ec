// Directory operations of trans.c: lookup, readdir, emptiness test, insertion and
// removal.
module DirOps {
  import opened Bitmap
  import opened Blocks
  import opened Translation
  import opened MappingLayer
  import opened TranslationRuns
  import opened BlockStore
  import opened FileIndex
  import opened FileTree
  import opened FileWrite
  import opened FileEffect
  import opened FileOps
  import opened Dirents
  import opened Directory
  import opened DirTree

  // Directory dir with inode i in the store.
  ghost predicate DirAt(c: Store, lab: Labels, i: Inode) {
    FsGood(c, lab) && IsDir(c, i.ino) && c[i.ino] == Ino(i)
  }

  lemma DirAtFacts(c: Store, lab: Labels, i: Inode)
    requires DirAt(c, lab, i)
    ensures DirGood(c, i) && |i.direct| == DIRECT_BLOCKS
    ensures forall b: nat | b < DIRECT_BLOCKS && i.direct[b] != 0 :: BlockThere(c, i, b)
    ensures |DirBlocks(c, i)| == LeadingPtrs(i.direct)
  {
    hide BlocksGood, GoodEntries, AllEntries, LeavesPresent, NumberGood, FileLeaf, Locate;
    forall b: nat | b < DIRECT_BLOCKS && i.direct[b] != 0 ensures BlockThere(c, i, b) {
      assert b < MAX_BLOCKS;
      DirectLeaf(c, i, b);
      FileLeafLabel(c, lab, i.ino, b);
      assert NumberGood(c, lab, i.direct[b]);
      NodeIsData(c, lab, i.direct[b]);
    }
  }

  lemma NodeIsData(c: Store, lab: Labels, l: nat)
    requires l in c && l in lab && NumberGood(c, lab, l) && lab[l].Node?
    ensures c[l].Dat? && c[l].level == lab[l].height
  {
  }

  predicate BlockThere(c: Store, i: Inode, b: nat)
    requires b < |i.direct|
  {
    && i.direct[b] in c && c[i.direct[b]].Dat? && c[i.direct[b]].level == 0
    && b < LeadingPtrs(i.direct) && DirBlocks(c, i)[b] == c[i.direct[b]].data
  }

  // The blocks of a directory are those of its leading direct pointers.
  lemma DirShape(c: Store, lab: Labels, i: Inode)
    requires DirAt(c, lab, i)
    ensures |i.direct| == DIRECT_BLOCKS && BlocksGood(DirBlocks(c, i)) && GoodEntries(AllEntries(DirBlocks(c, i)))
    ensures forall b: nat | b < DIRECT_BLOCKS :: i.direct[b] != 0 <==> b < |DirBlocks(c, i)|
  {
    hide BlocksGood, GoodEntries, AllEntries, FilesGood;
  }

  // Reads block b of a directory.
  method ReadDirBlock(m: MappingInfo, inode: Inode, b: nat, buf: Block, ghost lab: Labels) returns (out: Block)
    requires m.Sized() && DirAt(Contents(m.View()), lab, inode)
    requires b < |inode.direct| && b < DIRECT_BLOCKS && inode.direct[b] != 0
    ensures b < |DirBlocks(Contents(m.View()), inode)|
    ensures out.Dat? && out.data == DirBlocks(Contents(m.View()), inode)[b]
  {
    hide Contents, DirAt, DirBlocks, LeadingPtrs;
    ghost var c := Contents(m.View());
    DirAtFacts(c, lab, inode);
    assert BlockThere(c, inode, b);
    ContentsRead(m.View(), inode.direct[b]);
    out := m.ReadStruct(inode.direct[b], buf);
  }

  // ---------- lookup ----------

  lemma {:induction false} LookupAt(es: seq<Dirent>, k: nat, name: Name)
    requires k < |es| && es[k].name == name && forall j: nat | j < k :: es[j].name != name
    ensures Lookup(es, name) == es[k].ino
  {
    if k > 0 {
      assert es[1..][k - 1] == es[k];
      forall j: nat | j < k - 1 ensures es[1..][j].name != name { assert es[1..][j] == es[j + 1]; }
      LookupAt(es[1..], k - 1, name);
    }
  }

  // find_inode_number_from_direct_block.
  method FindInBlock(d: Payload, name: Name) returns (ino: nat)
    requires Dense(d, Count(d)) && name[0] != 0
    ensures ino == Lookup(BlockEntries(d), name)
  {
    hide Parse, Count, Leading, SlotOf;
    ghost var es := BlockEntries(d);
    var k := 0;
    while k < SLOTS
      invariant k <= SLOTS
      invariant forall j: nat | j < k && j < |es| :: es[j].name != name
    {
      var entry := EntryAt(d, k);
      if entry.name == name {
        if k >= Count(d) { ZeroSlot(d, Count(d), k); }
        LookupAt(es, k, name);
        return entry.ino;
      }
      k := k + 1;
    }
    LookupAbsent(es, name);
    return 0;
  }

  lemma TakeNext(ds: seq<Payload>, b: nat, name: Name)
    requires BlocksGood(ds) && b < |ds|
    ensures Lookup(AllEntries(ds[..b + 1]), name) ==
            if Lookup(AllEntries(ds[..b]), name) != 0 then Lookup(AllEntries(ds[..b]), name)
            else Lookup(BlockEntries(ds[b]), name)
  {
    hide Lookup, BlockEntries, Dense, Count, IsValid, AllEntries;
    assert ds[..b + 1] == ds[..b] + [ds[b]];
    AllConcat(ds[..b], [ds[b]]);
    SingleBlock(ds[b]);
    AllValid(ds[..b]);
    LookupConcat(AllEntries(ds[..b]), BlockEntries(ds[b]), name);
  }

  lemma {:induction false} AllValid(ds: seq<Payload>)
    requires forall b: nat | b < |ds| :: Dense(ds[b], Count(ds[b]))
    ensures forall k: nat | k < |AllEntries(ds)| :: IsValid(AllEntries(ds)[k])
  {
    hide Count, EntryAt, IsValid;
    if ds != [] {
      forall b: nat | b < |ds[1..]| ensures Dense(ds[1..][b], Count(ds[1..][b])) { assert ds[1..][b] == ds[b + 1]; }
      AllValid(ds[1..]);
    }
  }

  // find_inode_number. The indirect pointers of a directory are absent.
  method FindInodeNumber(m: MappingInfo, inode: Inode, name: Name, ghost lab: Labels) returns (ino: nat)
    requires m.Sized() && DirAt(Contents(m.View()), lab, inode) && name[0] != 0
    ensures ino == Lookup(DirEntries(Contents(m.View()), inode), name)
  {
    hide DirAt, DirBlocks, LeadingPtrs;
    hide Contents, Lookup, BlockEntries, Dense, Count, GoodEntries, FsGood, IsDir;
    ghost var c := Contents(m.View());
    ghost var ds := DirBlocks(c, inode);
    DirShape(c, lab, inode);
    NothingYet(ds, name);
    var buf := Dat(0, 0, Zeroes());
    var b := 0;
    while b < DIRECT_BLOCKS
      invariant b <= DIRECT_BLOCKS && buf.Dat?
      invariant Lookup(AllEntries(ds[..if b < |ds| then b else |ds|]), name) == 0
    {
      if inode.direct[b] != 0 {
        buf := ReadDirBlock(m, inode, b, buf, lab);
        var found := FindInBlock(buf.data, name);
        TakeNext(ds, b, name);
        if found != 0 {
          PrefixLookup(ds, b + 1, name);
          return found;
        }
      }
      b := b + 1;
    }
    assert ds[..|ds|] == ds;
    return 0;
  }

  lemma NothingYet(ds: seq<Payload>, name: Name)
    ensures Lookup(AllEntries(ds[..0]), name) == 0
  {
  }

  lemma PrefixLookup(ds: seq<Payload>, b: nat, name: Name)
    requires BlocksGood(ds) && b <= |ds| && Lookup(AllEntries(ds[..b]), name) != 0
    ensures Lookup(AllEntries(ds), name) == Lookup(AllEntries(ds[..b]), name)
  {
    hide Lookup, BlockEntries, Dense, Count, IsValid, AllEntries;
    assert ds == ds[..b] + ds[b..];
    AllConcat(ds[..b], ds[b..]);
    AllValid(ds[..b]);
    LookupConcat(AllEntries(ds[..b]), AllEntries(ds[b..]), name);
  }

  // ---------- emptiness ----------

  // check_directory_empty: true when every block is all zeroes.
  method CheckDirectoryEmpty(m: MappingInfo, inode: Inode, ghost lab: Labels) returns (empty: bool)
    requires m.Sized() && DirAt(Contents(m.View()), lab, inode)
    ensures empty <==> DirEntries(Contents(m.View()), inode) == []
  {
    hide DirAt, DirBlocks, LeadingPtrs;
    hide Contents, BlockEntries, Dense, Count, AllEntries, GoodEntries, FsGood, IsDir, Leading;
    ghost var c := Contents(m.View());
    ghost var ds := DirBlocks(c, inode);
    DirShape(c, lab, inode);
    var buf := Dat(0, 0, Zeroes());
    var b := 0;
    while b < DIRECT_BLOCKS
      invariant b <= DIRECT_BLOCKS && buf.Dat?
      invariant forall j: nat | j < b && j < |ds| :: BlockEntries(ds[j]) == []
    {
      if inode.direct[b] != 0 {
        buf := ReadDirBlock(m, inode, b, buf, lab);
        EmptyIffZeroes(ds[b]);
        if buf.data != Zeroes() {
          NonEmptyBlock(ds, b);
          return false;
        }
      }
      b := b + 1;
    }
    AllEmpty(ds);
    return true;
  }

  lemma EmptyIffZeroes(d: Payload)
    requires Dense(d, Count(d))
    ensures d == Zeroes() <==> BlockEntries(d) == []
  {
    hide Dense, Count;
    ZeroIffEmpty(d, Count(d));
  }

  lemma NonEmptyBlock(ds: seq<Payload>, b: nat)
    requires b < |ds| && BlockEntries(ds[b]) != []
    ensures AllEntries(ds) != []
  {
    hide BlockEntries;
    AllSplit(ds, b, ds[b]);
  }

  lemma {:induction false} AllEmpty(ds: seq<Payload>)
    requires forall b: nat | b < |ds| :: BlockEntries(ds[b]) == []
    ensures AllEntries(ds) == []
  {
    hide BlockEntries;
    if ds != [] {
      forall b: nat | b < |ds[1..]| ensures BlockEntries(ds[1..][b]) == [] { assert ds[1..][b] == ds[b + 1]; }
      AllEmpty(ds[1..]);
    }
  }

  // ---------- readdir ----------

  // The entries from index skip on.
  function From(es: seq<Dirent>, skip: nat): seq<Dirent> {
    if skip <= |es| then es[skip..] else []
  }

  function Max(a: int, b: int): int {
    if a < b then b else a
  }

  // read_all_dirents_from_direct_block: count entries were seen before this block,
  // and those from the bookmark pos on are offered.
  method ReadBlockDirents(d: Payload, count0: nat, pos0: nat) returns (offered: seq<Dirent>, count: nat, pos: nat)
    requires Dense(d, Count(d)) && count0 <= pos0
    ensures count == count0 + |BlockEntries(d)| && pos == Max(pos0, count)
    ensures offered == From(BlockEntries(d), pos0 - count0)
  {
    hide Parse, Count, Leading, SlotOf, From, Dense, BlockEntries;
    ghost var es := BlockEntries(d);
    offered, count, pos := [], count0, pos0;
    var k := 0;
    FromNone(es, pos0 - count0);
    while k < SLOTS
      invariant k <= SLOTS
      invariant count == count0 + (if k < |es| then k else |es|) && pos == Max(pos0, count)
      invariant offered == From(es[..count - count0], pos0 - count0)
    {
      SlotAt(d, k);
      var entry := EntryAt(d, k);
      if IsValid(entry) {
        FromNext(es, k, pos0 - count0);
        if count == pos {
          offered := offered + [entry];
          pos := pos + 1;
        }
        count := count + 1;
      }
      k := k + 1;
    }
    SlotsEnd(d);
    assert es[..|es|] == es;
  }

  // Slot k is valid when it is one of the entries.
  lemma SlotAt(d: Payload, k: nat)
    requires Dense(d, Count(d)) && k < SLOTS
    ensures IsValid(EntryAt(d, k)) <==> k < |BlockEntries(d)|
    ensures k < |BlockEntries(d)| ==> BlockEntries(d)[k] == EntryAt(d, k)
  {
    hide Parse, Count, Leading, SlotOf;
    if k >= Count(d) { ZeroSlot(d, Count(d), k); }
  }

  lemma SlotsEnd(d: Payload)
    ensures |BlockEntries(d)| <= SLOTS
  {
    hide Parse, Leading, SlotOf;
  }

  lemma FromNone(es: seq<Dirent>, skip: nat)
    ensures From(es[..0], skip) == []
  {
  }

  lemma FromNext(es: seq<Dirent>, k: nat, skip: nat)
    requires k < |es|
    ensures From(es[..k + 1], skip) == if k >= skip then From(es[..k], skip) + [es[k]] else From(es[..k], skip)
  {
  }

  lemma FromConcat(a: seq<Dirent>, b: seq<Dirent>, skip: nat)
    ensures From(a + b, skip) == From(a, skip) + From(b, Max(skip, |a|) - |a|)
  {
  }

  // hodo_sub_readdir after the dots: one call offers the entries from the bookmark
  // on, in slot order, and moves the bookmark past the last one.
  method ReadAllDirents(m: MappingInfo, inode: Inode, pos0: nat, ghost lab: Labels)
    returns (offered: seq<Dirent>, pos: nat)
    requires m.Sized() && DirAt(Contents(m.View()), lab, inode) && 2 <= pos0
    ensures var es := DirEntries(Contents(m.View()), inode);
      && offered == (if pos0 - 2 <= |es| then es[pos0 - 2..] else [])
      && pos == (if pos0 < 2 + |es| then 2 + |es| else pos0)
  {
    hide DirAt, DirBlocks, LeadingPtrs;
    hide Contents, BlockEntries, Dense, Count, GoodEntries, FsGood, IsDir, Leading, From;
    ghost var c := Contents(m.View());
    ghost var ds := DirBlocks(c, inode);
    DirShape(c, lab, inode);
    var buf := Dat(0, 0, Zeroes());
    var count := 2;
    offered, pos := [], pos0;
    var b := 0;
    FromNothing(ds, pos0 - 2);
    while b < DIRECT_BLOCKS
      invariant b <= DIRECT_BLOCKS && buf.Dat?
      invariant count == 2 + |AllEntries(ds[..if b < |ds| then b else |ds|])| && pos == Max(pos0, count)
      invariant offered == From(AllEntries(ds[..if b < |ds| then b else |ds|]), pos0 - 2)
    {
      if inode.direct[b] != 0 {
        buf := ReadDirBlock(m, inode, b, buf, lab);
        var part;
        part, count, pos := ReadBlockDirents(buf.data, count, pos);
        offered := offered + part;
        PrefixGrows(ds, b);
        FromConcat(AllEntries(ds[..b]), BlockEntries(ds[b]), pos0 - 2);
      }
      b := b + 1;
    }
    assert ds[..|ds|] == ds;
    FromMeans(AllEntries(ds), pos0 - 2);
  }

  lemma FromMeans(es: seq<Dirent>, skip: nat)
    ensures From(es, skip) == if skip <= |es| then es[skip..] else []
  {
  }

  lemma FromNothing(ds: seq<Payload>, skip: nat)
    ensures AllEntries(ds[..0]) == [] && From([], skip) == []
  {
  }

  lemma PrefixGrows(ds: seq<Payload>, b: nat)
    requires b < |ds|
    ensures AllEntries(ds[..b + 1]) == AllEntries(ds[..b]) + BlockEntries(ds[b])
  {
    hide BlockEntries;
    assert ds[..b + 1] == ds[..b] + [ds[b]];
    AllConcat(ds[..b], [ds[b]]);
    SingleBlock(ds[b]);
  }

  // ---------- one directory block is written ----------

  function DirLayout(ds: seq<Payload>, b: nat, data: Payload): seq<Payload>
    requires b <= |ds|
  {
    if b < |ds| then ds[b := data] else ds + [data]
  }

  // What writing block b of directory i leaves behind.
  ghost predicate DirWritten(c: Store, lab: Labels, e: Store, lab': Labels, i: Inode, k: Inode, ds': seq<Payload>) {
    && FsGood(e, lab') && LabelsKept(lab, lab') && i.ino in e && e[i.ino] == Ino(k)
    && SameIdentity(i, k) && DirBlocks(e, k) == ds' && OthersKept(c, e, i.ino) && NoNewInode(c, e)
  }

  lemma DirPut(c: Store, lab: Labels, d: Store, lab': Labels, e: Store, i: Inode, k: Inode,
               b: nat, number: nat, data: Payload)
    requires DirAt(c, lab, i) && b < DIRECT_BLOCKS && b <= LeadingPtrs(i.direct) && |i.direct| == DIRECT_BLOCKS
    requires WroteBelow(c, lab, d, lab', i.ino, b, 0, i.direct[b], number, number, 0, data)
    requires k == i.(direct := i.direct[b := number], fileLen := k.fileLen) && e == d[i.ino := Ino(k)]
    requires b <= |DirBlocks(c, i)| && BlocksGood(DirLayout(DirBlocks(c, i), b, data))
    requires GoodEntries(AllEntries(DirLayout(DirBlocks(c, i), b, data)))
    requires LengthFits(i, k.fileLen, DirLayout(DirBlocks(c, i), b, data))
    ensures DirWritten(c, lab, e, lab', i, k, DirLayout(DirBlocks(c, i), b, data))
  {
    hide WroteBelow, BlocksGood, GoodEntries, AllEntries, DirBlocks, FilesGood, TreesGood, OthersKept;
    DirRootPtr(i, b, number, k);
    assert TreesGood(c, lab) by { FilesAreTrees(c, lab); }
    DirBlocksAfter(c, lab, d, lab', e, i.ino, k, b, number, data);
    DirLength(c, i);
    DirBlockPut(c, lab, d, lab', e, i.ino, k, b, number, data);
  }

  lemma DirLength(c: Store, i: Inode)
    ensures |DirBlocks(c, i)| == LeadingPtrs(i.direct)
  {
  }

  lemma DirRootPtr(i: Inode, b: nat, number: nat, k: Inode)
    requires |i.direct| == DIRECT_BLOCKS && b < DIRECT_BLOCKS
    requires k == i.(direct := i.direct[b := number], fileLen := k.fileLen)
    ensures Locate(b).root == b && Locate(b).height == 0 && RootPtr(i, b) == i.direct[b] && b < MAX_BLOCKS
    ensures k == SetRoot(i, b, number).(fileLen := k.fileLen)
  {
  }

  // A data block of the directory and then its inode are written.
  method PutDirBlock(m: MappingInfo, i: Inode, b: nat, data: Payload, fileLen: nat, ghost lab: Labels)
    returns (k: Inode, ghost lab': Labels)
    requires Ready(m, lab, 2) && DirAt(Contents(m.View()), lab, i)
    requires b < DIRECT_BLOCKS && b <= |DirBlocks(Contents(m.View()), i)|
    requires BlocksGood(DirLayout(DirBlocks(Contents(m.View()), i), b, data))
    requires GoodEntries(AllEntries(DirLayout(DirBlocks(Contents(m.View()), i), b, data)))
    requires LengthFits(i, fileLen, DirLayout(DirBlocks(Contents(m.View()), i), b, data))
    modifies m
    ensures DirWritten(old(Contents(m.View())), lab, Contents(m.View()), lab', i, k,
                       DirLayout(old(DirBlocks(Contents(m.View()), i)), b, data))
    ensures k.fileLen == fileLen
    ensures Ready(m, lab', 0) && BudgetUsed(old(m.View()), m.View(), 2) && AllocationsKept(old(m.View()), m.View())
  {
    hide Members, GcPositions, Inv, Contents, Grows, OnlyData, HigherKept, Budget, Spliced, Allocated, WroteBelow;
    hide BlocksGood, GoodEntries, AllEntries, DirBlocks, FilesGood, OthersKept, DirGood;
    ghost var s := m.View();
    ghost var c := Contents(s);
    DirAtFacts(c, lab, i);
    RootLabel(c, lab, i.ino, b);
    DirRootPtr(i, b, i.direct[b], i.(direct := i.direct[b := i.direct[b]]));
    BudgetLess(s, 2, 1);
    DirLength(c, i);
    var lbn := i.direct[b];
    if lbn != 0 { assert BlockThere(c, i, b); StoredAllocated(s, lbn); ContentsOwn(c, lab, lbn); }
    var number := StoreBlock(m, Dat(0, 0, data), lbn);
    ghost var t := m.View();
    lab' := lab[number := NodeFor(i.ino, b, 0)];
    DirLeafPut(c, lab, i, b, number, data);
    k := i.(direct := i.direct[b := number], fileLen := fileLen);
    assert Budget(t, 1) by { assert Budget(s, 1 + 1); }
    assert i.ino in Contents(t);
    StoredAllocated(t, i.ino);
    var again := StoreBlock(m, Ino(k), i.ino);
    DirPut(c, lab, Contents(t), lab', Contents(m.View()), i, k, b, number, data);
    FilesAreTrees(Contents(m.View()), lab');
    BudgetsAdd(s, t, m.View(), 1, 1);
    AllocationsTrans(s, t, m.View());
    assert Budget(m.View(), 0) by { assert Budget(s, 0 + 2); }
  }

  lemma ContentsOwn(c: Store, lab: Labels, l: nat)
    requires TreesGood(c, lab) && l in c
    ensures l in lab && NumberGood(c, lab, l)
  {
  }

  lemma DirLeafPut(c: Store, lab: Labels, i: Inode, b: nat, number: nat, data: Payload)
    requires DirAt(c, lab, i) && |i.direct| == DIRECT_BLOCKS && b < DIRECT_BLOCKS && 0 < number < POINTER_LIMIT
    requires Labelled(lab, i.direct[b], NodeFor(i.ino, b, 0))
    requires if i.direct[b] != 0 then number == i.direct[b] else number !in c
    ensures var d, lab' := c[number := Dat(0, number, data)], lab[number := NodeFor(i.ino, b, 0)];
      WroteBelow(c, lab, d, lab', i.ino, b, 0, i.direct[b], number, number, 0, data) && TreesGood(d, lab') &&
      i.ino in d && d[i.ino] == c[i.ino]
  {
    hide Locate, Idx, FileLeaf, WroteBelow, TreesGood, FilesGood, DirGood, Grows, OnlyData, Spliced;
    var lbn := i.direct[b];
    var at := NodeFor(i.ino, b, 0);
    var d, lab' := c[number := Dat(0, number, data)], lab[number := at];
    FilesAreTrees(c, lab);
    DirNumbers(c, lab, i, b);
    PutLeaf(c, lab, number, data, at);
    var current := if lbn != 0 then c[lbn] else Dat(0, 0, Zeroes());
    SplicedWhole(current.data, data);
    DirectBelow(c, lab, d, lab', i.ino, b, lbn, number, current, 0, data);
  }

  lemma SplicedWhole(was: Payload, data: Payload)
    ensures Spliced(was, 0, data) == data
  {
  }

  lemma DirNumbers(c: Store, lab: Labels, i: Inode, b: nat)
    requires TreesGood(c, lab) && i.ino in c && c[i.ino] == Ino(i) && |i.direct| == DIRECT_BLOCKS && b < DIRECT_BLOCKS
    requires Labelled(lab, i.direct[b], NodeFor(i.ino, b, 0))
    ensures c.Keys == lab.Keys
    ensures i.direct[b] != 0 ==> c[i.direct[b]].Dat? && i.direct[b] != i.ino
  {
    hide Locate, Idx;
    assert NumberGood(c, lab, i.ino);
    if i.direct[b] != 0 { assert NumberGood(c, lab, i.direct[b]); }
  }

  // ---------- add_dirent ----------

  // The first slot whose entry is not valid.
  method FreeSlot(d: Payload) returns (k: nat)
    requires Dense(d, Count(d))
    ensures k == Count(d)
  {
    hide Parse, Count, Leading, SlotOf;
    k := 0;
    while k < SLOTS
      invariant k <= Count(d)
    {
      if k == Count(d) { ZeroSlot(d, Count(d), k); }
      if !IsValid(EntryAt(d, k)) {
        return;
      }
      k := k + 1;
    }
  }

  lemma {:induction false} FirstRoomAt(ds: seq<Payload>, from: nat, b: nat)
    requires from <= b <= |ds| && forall j: nat | from <= j < b :: Count(ds[j]) == SLOTS
    requires b < |ds| ==> Count(ds[b]) < SLOTS
    ensures FirstRoom(ds, from) == b
    decreases b - from
  {
    hide Count;
    if from < b { FirstRoomAt(ds, from + 1, b); }
  }

  // What add_dirent does to directory i: nothing when all ten blocks are full,
  // otherwise its map gets the name of sub and its length grows by one.
  ghost predicate AddOutcome(c: Store, lab: Labels, e: Store, lab': Labels, i: Inode, sub: Inode, ret: int)
    requires Enterable(sub)
  {
    && (ret == 0 || ret == -1)
    && (ret == -1 <==> IsFull(DirBlocks(c, i)))
    && (ret == -1 ==> e == c && lab' == lab)
    && (ret == 0 ==> exists k: Inode ::
         DirWritten(c, lab, e, lab', i, k, DirBlocks(e, k)) && k.fileLen == i.fileLen + 1 &&
         OneMore(DirBlocks(c, i), DirBlocks(e, k), EntryOf(sub)) && Describes(EntryOf(sub), sub))
  }

  // The name is not in the directory yet.
  ghost predicate CanAdd(c: Store, lab: Labels, dir: nat, sub: Inode) {
    && FsGood(c, lab) && IsDir(c, dir) && c[dir].inode.ino == dir && Enterable(sub)
    && Lookup(DirEntries(c, c[dir].inode), Padded(sub)) == 0
  }

  // The entry goes into slot k of block b, an old block or a cleared one.
  method EnterAt(m: MappingInfo, inode: Inode, b: nat, d: Payload, k: nat, sub: Inode, ghost lab: Labels)
    returns (ghost lab': Labels)
    requires Ready(m, lab, 2) && DirAt(Contents(m.View()), lab, inode) && Enterable(sub)
    requires b < DIRECT_BLOCKS && b == FirstRoom(DirBlocks(Contents(m.View()), inode), 0)
    requires Lookup(DirEntries(Contents(m.View()), inode), Padded(sub)) == 0
    requires d == (if b < |DirBlocks(Contents(m.View()), inode)|
      then DirBlocks(Contents(m.View()), inode)[b] else Zeroes())
    requires k == Count(d) && k < SLOTS
    modifies m
    ensures AddOutcome(old(Contents(m.View())), lab, Contents(m.View()), lab', inode, sub, 0)
    ensures Ready(m, lab', 0) && FsGood(Contents(m.View()), lab')
    ensures BudgetUsed(old(m.View()), m.View(), 2) && AllocationsKept(old(m.View()), m.View())
  {
    hide Contents, Lookup, BlockEntries, Dense, Count, GoodEntries, FsGood, Leading, TreesGood, Budget, Inv, Allocated;
    hide Encode, SetSlot, EntryAt, DirWritten, OneMore, DirBlocks, AllEntries;
    ghost var c := Contents(m.View());
    ghost var ds := DirBlocks(c, inode);
    DirAtFacts(c, lab, inode);
    Fits(ds, sub, b);
    OneMoreLength(inode, ds, WithEntry(ds, sub), EntryOf(sub), inode.fileLen);
    var data := SetSlot(d, k, Encode(SlotOf(d, k), sub));
    var node;
    node, lab' := PutDirBlock(m, inode, b, data, inode.fileLen + 1, lab);
    AddDone(c, lab, Contents(m.View()), lab', inode, node, sub);
  }

  // add_dirent: the first free slot of the first block that has one, or a new block.
  method AddDirent(m: MappingInfo, dir: nat, sub: Inode, ghost lab: Labels) returns (ret: int, ghost lab': Labels)
    requires Ready(m, lab, 2) && CanAdd(Contents(m.View()), lab, dir, sub)
    modifies m
    ensures AddOutcome(old(Contents(m.View())), lab, Contents(m.View()), lab', old(Contents(m.View()))[dir].inode,
        sub, ret)
    ensures Ready(m, lab', 0) && FsGood(Contents(m.View()), lab')
    ensures BudgetUsed(old(m.View()), m.View(), 2) && AllocationsKept(old(m.View()), m.View())
  {
    hide LeadingPtrs;
    hide Contents, Lookup, BlockEntries, Dense, Count, GoodEntries, FsGood, Leading, TreesGood, Budget, Inv, Allocated;
    hide Encode, SetSlot, EntryAt, DirWritten, OneMore, DirBlocks, AllEntries;
    ghost var s := m.View();
    ghost var c := Contents(s);
    ContentsRead(s, dir);
    var buf := m.ReadStruct(dir, Ino(Inode(dir, 0, 0, [], Directory, [], 0, 0, 0)));
    var inode := buf.inode;
    ghost var ds := DirBlocks(c, inode);
    DirShape(c, lab, inode);
    BudgetLess(s, 2, 0);
    BudgetStays(s, 2);
    ZeroesDense();
    var block := Dat(0, 0, Zeroes());
    var b := 0;
    while b < DIRECT_BLOCKS
      invariant b <= |ds| && block.Dat? && m.View() == s && m.Sized()
      invariant forall j: nat | j < b :: Count(ds[j]) == SLOTS
    {
      if inode.direct[b] != 0 {
        block := ReadDirBlock(m, inode, b, block, lab);
        var k := FreeSlot(block.data);
        if k < SLOTS {
          FirstRoomAt(ds, 0, b);
          lab' := EnterAt(m, inode, b, block.data, k, sub, lab);
          return 0, lab';
        }
      } else {
        FirstRoomAt(ds, 0, b);
        lab' := EnterAt(m, inode, b, Zeroes(), 0, sub, lab);
        return 0, lab';
      }
      b := b + 1;
    }
    FirstRoomAt(ds, 0, b);
    FullBlocks(ds);
    return -1, lab;
  }

  lemma OneMoreLength(i: Inode, ds: seq<Payload>, ds': seq<Payload>, e: Dirent, fileLen: nat)
    requires LengthFits(i, fileLen, ds) && OneMore(ds, ds', e)
    ensures LengthFits(i, fileLen + 1, ds')
  {
    hide AllEntries, Lookup;
  }

  lemma Fits(ds: seq<Payload>, sub: Inode, b: nat)
    requires BlocksGood(ds) && GoodEntries(AllEntries(ds)) && Enterable(sub) && b < DIRECT_BLOCKS
    requires b == FirstRoom(ds, 0) && Lookup(AllEntries(ds), Padded(sub)) == 0
    ensures !IsFull(ds) && OneMore(ds, WithEntry(ds, sub), EntryOf(sub)) && Count(Zeroes()) == 0
    ensures BlocksGood(WithEntry(ds, sub)) && GoodEntries(AllEntries(WithEntry(ds, sub)))
    ensures b < |ds| ==> Count(ds[b]) < SLOTS
    ensures WithEntry(ds, sub) == DirLayout(ds, b, if b < |ds| then Added(ds[b], sub) else Added(Zeroes(), sub))
  {
    hide Count, Dense, Lookup, GoodEntries, AllEntries, Added;
    ZeroesDense();
    FullBlocks(ds);
    AddEntry(ds, sub);
  }

  lemma AddDone(c: Store, lab: Labels, e: Store, lab': Labels, i: Inode, k: Inode, sub: Inode)
    requires Enterable(sub) && BlocksGood(DirBlocks(c, i)) && !IsFull(DirBlocks(c, i))
    requires DirWritten(c, lab, e, lab', i, k, WithEntry(DirBlocks(c, i), sub)) && k.fileLen == i.fileLen + 1
    requires OneMore(DirBlocks(c, i), WithEntry(DirBlocks(c, i), sub), EntryOf(sub))
    ensures AddOutcome(c, lab, e, lab', i, sub, 0) && FsGood(e, lab')
  {
    hide OneMore, FsGood, OthersKept, WithEntry, IsFull, EntryOf;
    EntryOfName(sub);
    assert DirWritten(c, lab, e, lab', i, k, DirBlocks(e, k));
  }

  // ---------- remove_dirent ----------

  // The slot of the name, or SLOTS.
  method FindSlot(d: Payload, name: Name) returns (k: nat)
    requires Dense(d, Count(d)) && name[0] != 0
    ensures k < SLOTS ==> k < Count(d) && EntryAt(d, k).name == name
    ensures k >= SLOTS ==> Lookup(BlockEntries(d), name) == 0
  {
    hide Parse, Count, Leading, SlotOf;
    ghost var es := BlockEntries(d);
    k := 0;
    while k < SLOTS
      invariant k <= SLOTS
      invariant forall j: nat | j < k && j < |es| :: es[j].name != name
    {
      if EntryAt(d, k).name == name {
        if k >= Count(d) { ZeroSlot(d, Count(d), k); }
        return;
      }
      k := k + 1;
    }
    LookupAbsent(es, name);
  }

  // What remove_dirent does to directory i: nothing when the name is not there,
  // otherwise its map loses the name and its length shrinks by one.
  ghost predicate RemoveOutcome(c: Store, lab: Labels, e: Store, lab': Labels, i: Inode, name: Name, found: bool) {
    && (found <==> Lookup(DirEntries(c, i), name) != 0)
    && (!found ==> e == c && lab' == lab)
    && (found ==> exists k: Inode, gone: Dirent ::
         DirWritten(c, lab, e, lab', i, k, DirBlocks(e, k)) && k.fileLen == i.fileLen - 1 && gone.name == name &&
         OneLess(DirBlocks(c, i), DirBlocks(e, k), gone))
  }

  lemma RemoveDone(c: Store, lab: Labels, e: Store, lab': Labels, i: Inode, k: Inode, b: nat, slot: nat, name: Name)
    requires BlocksGood(DirBlocks(c, i)) && GoodEntries(AllEntries(DirBlocks(c, i)))
    requires b < |DirBlocks(c, i)| && slot < Count(DirBlocks(c, i)[b]) && EntryAt(DirBlocks(c, i)[b], slot).name == name
    requires DirWritten(c, lab, e, lab', i, k, DirBlocks(c, i)[b := CutSlot(DirBlocks(c, i)[b], slot)])
    requires k.fileLen == i.fileLen - 1
    ensures RemoveOutcome(c, lab, e, lab', i, name, true) && FsGood(e, lab')
  {
    hide FsGood, OthersKept, CutSlot, EntryAt, Dense, Count, GoodEntries, AllEntries, Lookup;
    var gone := EntryAt(DirBlocks(c, i)[b], slot);
    RemoveEntry(DirBlocks(c, i), b, slot);
    assert DirWritten(c, lab, e, lab', i, k, DirBlocks(e, k));
    assert OneLess(DirBlocks(c, i), DirBlocks(e, k), gone);
    ValidIno(gone);
  }

  // Writing the same block again changes nothing.
  lemma PutTwice(c: Store, l: nat, b: Block)
    requires l in c && c[l] == b
    ensures c[l := b] == c
  {
  }

  // The entry in a slot of a block is cut out; the inode is written twice.
  method CutAt(m: MappingInfo, inode: Inode, b: nat, slot: nat, ghost name: Name, ghost lab: Labels)
    returns (ghost lab': Labels)
    requires Ready(m, lab, 3) && DirAt(Contents(m.View()), lab, inode)
    requires b < |DirBlocks(Contents(m.View()), inode)|
    requires slot < Count(DirBlocks(Contents(m.View()), inode)[b])
    requires EntryAt(DirBlocks(Contents(m.View()), inode)[b], slot).name == name
    modifies m
    ensures RemoveOutcome(old(Contents(m.View())), lab, Contents(m.View()), lab', inode, name, true)
    ensures Ready(m, lab', 0) && FsGood(Contents(m.View()), lab')
    ensures BudgetUsed(old(m.View()), m.View(), 3) && AllocationsKept(old(m.View()), m.View())
  {
    hide Contents, Lookup, BlockEntries, Dense, Count, GoodEntries, FsGood, Leading, TreesGood, Budget, Inv, Allocated;
    hide CutSlot, EntryAt, DirBlocks, AllEntries, OneLess, OthersKept;
    ghost var s := m.View();
    ghost var c := Contents(s);
    ghost var ds := DirBlocks(c, inode);
    DirAtFacts(c, lab, inode);
    assert BlockThere(c, inode, b);
    ContentsRead(s, inode.direct[b]);
    var block := m.ReadStruct(inode.direct[b], Dat(0, 0, Zeroes()));
    RemoveEntry(ds, b, slot);
    Shrinks(inode, ds, b, slot, inode.fileLen);
    BudgetLess(s, 3, 2);
    var node;
    node, lab' := PutDirBlock(m, inode, b, CutSlot(block.data, slot), inode.fileLen - 1, lab);
    ghost var t := m.View();
    assert Budget(t, 1) by { assert Budget(s, 1 + 2); }
    StoredAllocated(t, inode.ino);
    var again := StoreBlock(m, Ino(node), inode.ino);
    PutTwice(Contents(t), inode.ino, Ino(node));
    RemoveDone(c, lab, Contents(m.View()), lab', inode, node, b, slot, name);
    BudgetsAdd(s, t, m.View(), 2, 1);
    AllocationsTrans(s, t, m.View());
    assert Budget(m.View(), 0) by { assert Budget(s, 0 + 3); }
  }

  lemma Shrinks(i: Inode, ds: seq<Payload>, b: nat, slot: nat, fileLen: nat)
    requires BlocksGood(ds) && GoodEntries(AllEntries(ds)) && b < |ds| &&
      slot < Count(ds[b]) && LengthFits(i, fileLen, ds)
    ensures fileLen > 0
    ensures var ds' := ds[b := CutSlot(ds[b], slot)];
      BlocksGood(ds') && GoodEntries(AllEntries(ds')) && LengthFits(i, fileLen - 1, ds')
  {
    hide Count, Dense, GoodEntries, AllEntries, CutSlot, EntryAt, Lookup;
    RemoveEntry(ds, b, slot);
  }

  // remove_dirent.
  method RemoveDirent(m: MappingInfo, inode: Inode, name: Name, ghost lab: Labels)
    returns (found: bool, ghost lab': Labels)
    requires Ready(m, lab, 3) && DirAt(Contents(m.View()), lab, inode) && name[0] != 0
    modifies m
    ensures RemoveOutcome(old(Contents(m.View())), lab, Contents(m.View()), lab', inode, name, found)
    ensures Ready(m, lab', 0) && FsGood(Contents(m.View()), lab')
    ensures BudgetUsed(old(m.View()), m.View(), 3) && AllocationsKept(old(m.View()), m.View())
  {
    hide LeadingPtrs;
    hide Contents, Lookup, BlockEntries, Dense, Count, GoodEntries, FsGood, Leading, TreesGood, Budget, Inv, Allocated;
    hide CutSlot, EntryAt, DirWritten, DirBlocks, AllEntries, RemoveOutcome;
    ghost var s := m.View();
    ghost var c := Contents(s);
    ghost var ds := DirBlocks(c, inode);
    DirShape(c, lab, inode);
    BudgetLess(s, 3, 0);
    BudgetStays(s, 3);
    NothingYet(ds, name);
    var buf := Dat(0, 0, Zeroes());
    var b := 0;
    while b < DIRECT_BLOCKS
      invariant b <= DIRECT_BLOCKS && buf.Dat? && m.View() == s && m.Sized()
      invariant Lookup(AllEntries(ds[..if b < |ds| then b else |ds|]), name) == 0
    {
      if inode.direct[b] != 0 {
        buf := ReadDirBlock(m, inode, b, buf, lab);
        var k := FindSlot(buf.data, name);
        if k < SLOTS {
          lab' := CutAt(m, inode, b, k, name, lab);
          return true, lab';
        }
        TakeNext(ds, b, name);
      }
      b := b + 1;
    }
    NotFound(c, lab, inode, name);
    return false, lab;
  }

  lemma NotFound(c: Store, lab: Labels, i: Inode, name: Name)
    requires Lookup(AllEntries(DirBlocks(c, i)[..|DirBlocks(c, i)|]), name) == 0
    ensures RemoveOutcome(c, lab, c, lab, i, name, false)
  {
    assert DirBlocks(c, i)[..|DirBlocks(c, i)|] == DirBlocks(c, i);
  }
}
