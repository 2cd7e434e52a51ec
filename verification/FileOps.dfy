// Writing regular files: write_one_block of trans.c and the write loop of hodo.c.
module FileOps {
  import opened Bitmap
  import opened Blocks
  import opened Translation
  import opened MappingLayer
  import opened TranslationRuns
  import opened BlockStore
  import opened FileIndex
  import opened FileTree
  import opened FileWrite
  import opened FileEffect

  const EFBIG: int := -27

  // Appends that one write_one_block makes at most: data, three levels, inode.
  const APPENDS: int := 5

  ghost predicate FsReady(m: MappingInfo, lab: Labels, n: int)
    reads m
  {
    Ready(m, lab, n) && FilesGood(Contents(m.View()), lab)
  }

  ghost predicate IsFile(c: Store, f: nat) {
    f in c && c[f].Ino? && c[f].inode.typ == Regular && |c[f].inode.direct| == DIRECT_BLOCKS
  }

  function BytesOf(c: Store, f: nat): seq<Byte>
    requires IsFile(c, f)
  {
    FileBytes(c, c[f].inode)
  }

  // Same file apart from its length and pointers.
  predicate SameIdentity(i: Inode, k: Inode) {
    k.ino == i.ino && k.name == i.name && k.nameLen == i.nameLen && k.typ == i.typ
  }

  // A regular file and a position in it, its end included.
  ghost predicate Writable(c: Store, f: nat, pos: nat) {
    IsFile(c, f) && pos <= c[f].inode.fileLen
  }

  // The data blocks of file f past position end are those it had, present or absent.
  ghost predicate TailKept(c: Store, d: Store, f: nat, end: nat)
    requires IsFile(c, f) && IsFile(d, f)
  {
    forall n: nat | n < MAX_BLOCKS && n * DATA_SIZE >= end :: FileLeaf(d, d[f].inode, n) == FileLeaf(c, c[f].inode, n)
  }

  // File f was cut at pos and extended by data; no other file changed.
  ghost predicate CutAndExtended(c: Store, d: Store, f: nat, pos: nat, data: seq<Byte>) {
    && Writable(c, f, pos) && IsFile(d, f)
    && BytesOf(d, f) == BytesOf(c, f)[..pos] + data
    && SameIdentity(c[f].inode, d[f].inode) && TailKept(c, d, f, pos + |data|)
    && OthersKept(c, d, f) && NoNewInode(c, d)
  }

  // One block is written, unless pos is past the largest file size.
  ghost predicate BlockOutcome(c: Store, d: Store, f: nat, pos: nat, from: seq<Byte>, written: int) {
    if pos / DATA_SIZE >= MAX_BLOCKS then written == EFBIG && d == c
    else written == Chunk(pos % DATA_SIZE, from) && CutAndExtended(c, d, f, pos, from[..written])
  }

  // All data is written, or what fits below the largest file size and then an error.
  ghost predicate WriteOutcome(c: Store, d: Store, f: nat, pos: nat, data: seq<Byte>, ret: int) {
    && ret == (if pos + |data| <= MAX_FILE || data == [] then |data| else EFBIG)
    && (if data == [] || pos >= MAX_FILE then d == c
        else CutAndExtended(c, d, f, pos, data[..Min(|data|, MAX_FILE - pos)]))
  }

  lemma BudgetUsedMore(s: State, t: State, a: int, b: int)
    requires BudgetUsed(s, t, a) && a <= b
    ensures BudgetUsed(s, t, b)
  {
    forall k: int | Budget(s, k + b) ensures Budget(t, k) {
      assert Budget(s, k + a);
    }
  }

  // The tree part of write_one_block below an indirect pointer of the inode.
  method WriteRoot(m: MappingInfo, pos: nat, from: seq<Byte>, root: nat, level: nat, ghost lab: Labels, ghost f: nat)
    returns (written: nat, number: nat, ghost lab': Labels, ghost w: nat)
    requires Ready(m, lab, 4) && from != [] && DIRECT_BLOCKS <= pos / DATA_SIZE < MAX_BLOCKS
    requires level == Locate(pos / DATA_SIZE).height && Labelled(lab, root, NodeFor(f, pos / DATA_SIZE, level))
    modifies m
    ensures written == Chunk(pos % DATA_SIZE, from)
    ensures WroteBelow(old(Contents(m.View())), lab, Contents(m.View()), lab', f, pos / DATA_SIZE, level,
                       root, number, w, pos % DATA_SIZE, from)
    ensures Ready(m, lab', 0)
    ensures BudgetUsed(old(m.View()), m.View(), 4) && AllocationsKept(old(m.View()), m.View())
  {
    hide Members, GcPositions, Inv, Contents, Grows, OnlyData, HigherKept, Budget, Spliced, LeafData, Allocated,
        WroteBelow;
    ghost var s := m.View();
    ghost var c := Contents(s);
    var target := Dat(level, 0, Zeroes());
    if root != 0 {
      SameKeys(c, lab);
      assert NumberGood(c, lab, root);
      ContentsRead(s, root);
      target := m.ReadStruct(root, target);
    }
    BudgetLess(s, 4, level + 1);
    written, number, lab', w := WriteIndirect(m, pos, from, root, target, lab, f);
    BudgetUsedMore(s, m.View(), level + 1, 4);
  }

  lemma RootLabel(c: Store, lab: Labels, f: nat, index: nat)
    requires TreesGood(c, lab) && f in c && c[f].Ino? && index < MAX_BLOCKS
    ensures |c[f].inode.direct| == DIRECT_BLOCKS && c[f].inode.ino == f
    ensures Labelled(lab, RootPtr(c[f].inode, Locate(index).root), NodeFor(f, index, Locate(index).height))
  {
    assert NumberGood(c, lab, f);
    TopIdx(index);
  }

  // The direct part of write_one_block.
  method WriteDirectRoot(m: MappingInfo, pos: nat, from: seq<Byte>, root: nat, ghost lab: Labels, ghost f: nat)
    returns (written: nat, number: nat, ghost lab': Labels)
    requires Ready(m, lab, 1) && from != [] && pos / DATA_SIZE < DIRECT_BLOCKS
    requires Labelled(lab, root, NodeFor(f, pos / DATA_SIZE, 0))
    modifies m
    ensures written == Chunk(pos % DATA_SIZE, from)
    ensures WroteBelow(old(Contents(m.View())), lab, Contents(m.View()), lab', f, pos / DATA_SIZE, 0,
                       root, number, number, pos % DATA_SIZE, from)
    ensures Ready(m, lab', 0)
    ensures BudgetUsed(old(m.View()), m.View(), 1) && AllocationsKept(old(m.View()), m.View())
  {
    hide Members, GcPositions, Inv, Contents, Grows, OnlyData, HigherKept, Budget, Spliced, LeafData, Allocated,
        WroteBelow;
    ghost var s := m.View();
    ghost var c := Contents(s);
    var target := Dat(0, 0, Zeroes());
    if root != 0 {
      SameKeys(c, lab);
      assert NumberGood(c, lab, root);
      ContentsRead(s, root);
      target := m.ReadStruct(root, target);
    }
    written, number, lab' := WriteDirect(m, pos, from, root, target, lab, NodeFor(f, pos / DATA_SIZE, 0));
    DirectBelow(c, lab, Contents(m.View()), lab', f, pos / DATA_SIZE, root, number, target, pos % DATA_SIZE, from);
  }

  lemma FilesAreTrees(c: Store, lab: Labels)
    requires FilesGood(c, lab)
    ensures TreesGood(c, lab)
  {
  }

  lemma WriteMeans(c: Store, lab: Labels, d: Store, lab': Labels, e: Store, f: nat, k: Inode,
                   number: nat, w: nat, pos: nat, from: seq<Byte>)
    requires FilesGood(c, lab) && pos / DATA_SIZE < MAX_BLOCKS && Writable(c, f, pos)
    requires Rooted(c, lab, d, lab', e, f, k, pos / DATA_SIZE, number, w, pos % DATA_SIZE, from)
    requires k.fileLen == pos + Chunk(pos % DATA_SIZE, from) && from != []
    ensures FilesGood(e, lab') && LabelsKept(lab, lab')
    ensures CutAndExtended(c, e, f, pos, from[..Chunk(pos % DATA_SIZE, from)])
  {
    hide Locate, FileLeaf, WroteBelow, FileBytes, OthersKept, LeavesPresent, NumberGood;
    RootedTrees(c, lab, d, lab', e, f, k, pos / DATA_SIZE, number, w, pos % DATA_SIZE, from);
    WriteEffect(c, lab, d, lab', e, f, k, number, w, pos, from);
    assert forall n: nat | n * DATA_SIZE >= pos + Chunk(pos % DATA_SIZE, from) :: n != pos / DATA_SIZE;
  }

  // write_one_block: one data block of the file is written at pos.
  method WriteOneBlock(m: MappingInfo, f: nat, pos: nat, from: seq<Byte>, ghost lab: Labels)
    returns (written: int, ghost lab': Labels)
    requires FsReady(m, lab, APPENDS) && from != []
    requires Writable(Contents(m.View()), f, pos)
    modifies m
    ensures BlockOutcome(old(Contents(m.View())), Contents(m.View()), f, pos, from, written)
    ensures written < 0 ==> m.View() == old(m.View())
    ensures FsReady(m, lab', 0) && LabelsKept(lab, lab')
    ensures BudgetUsed(old(m.View()), m.View(), APPENDS) && AllocationsKept(old(m.View()), m.View())
  {
    hide Members, GcPositions, Inv, Contents, Grows, OnlyData, HigherKept, Budget, Spliced, LeafData, Allocated,
        WroteBelow;
    hide FileBytes, TreesGood, LeavesPresent, OthersKept, SetRoot, RootPtr, Locate, CutAndExtended, FilesGood, Chunk;
    ghost var s := m.View();
    ghost var c := Contents(s);
    assert TreesGood(c, lab) by { FilesAreTrees(c, lab); }
    ContentsRead(s, f);
    var buf := m.ReadStruct(f, Ino(Inode(f, 0, 0, [], Regular, [], 0, 0, 0)));
    var inode := buf.inode;
    var index := pos / DATA_SIZE;
    if index >= MAX_BLOCKS {
      lab' := lab;
      BudgetLess(s, APPENDS, 0);
      BudgetStays(s, APPENDS);
      return EFBIG, lab;
    }
    RootLabel(c, lab, f, index);
    BudgetLess(s, APPENDS, 4);
    BudgetLess(s, APPENDS, 1);
    Roots(inode, index);
    var number;
    ghost var w;
    if index < DIRECT_BLOCKS {
      written, number, lab' := WriteDirectRoot(m, pos, from, inode.direct[index], lab, f);
      w := number;
      inode := inode.(direct := inode.direct[index := number]);
      BudgetUsedMore(s, m.View(), 1, 4);
    } else if index < DIRECT_BLOCKS + SINGLE {
      written, number, lab', w := WriteRoot(m, pos, from, inode.single, 1, lab, f);
      inode := inode.(single := number);
    } else if index < DIRECT_BLOCKS + SINGLE + DOUBLE {
      written, number, lab', w := WriteRoot(m, pos, from, inode.double, 2, lab, f);
      inode := inode.(double := number);
    } else {
      written, number, lab', w := WriteRoot(m, pos, from, inode.triple, 3, lab, f);
      inode := inode.(triple := number);
    }
    inode := inode.(fileLen := pos + written);
    ghost var t := m.View();
    assert Budget(t, 1) by { assert Budget(s, 1 + 4); }
    StoredAllocated(s, f);
    var number' := StoreBlock(m, Ino(inode), f);
    NewRoot(c[f].inode, index, number);
    WriteMeans(c, lab, Contents(t), lab', Contents(m.View()), f, inode, number, w, pos, from);
    BudgetsAdd(s, t, m.View(), 4, 1);
    AllocationsTrans(s, t, m.View());
    assert Budget(m.View(), 0) by { assert Budget(s, 0 + APPENDS); }
    FilesAreTrees(Contents(m.View()), lab');
  }

  lemma BudgetStays(s: State, n: int)
    requires n >= 0
    ensures BudgetUsed(s, s, n)
  {
    forall k: int | Budget(s, k + n) ensures Budget(s, k) { BudgetLess(s, k + n, k); }
  }

  lemma Roots(i: Inode, index: nat)
    requires |i.direct| == DIRECT_BLOCKS && index < MAX_BLOCKS
    ensures Locate(index).root < 13 && RootPtr(i, Locate(index).root) ==
      (if index < DIRECT_BLOCKS then i.direct[index]
       else if index < DIRECT_BLOCKS + SINGLE then i.single
       else if index < DIRECT_BLOCKS + SINGLE + DOUBLE then i.double
       else i.triple)
    ensures Locate(index).height ==
      (if index < DIRECT_BLOCKS then 0
       else if index < DIRECT_BLOCKS + SINGLE then 1
       else if index < DIRECT_BLOCKS + SINGLE + DOUBLE then 2
       else 3)
  {
  }

  lemma NewRoot(i: Inode, index: nat, number: nat)
    requires |i.direct| == DIRECT_BLOCKS && index < MAX_BLOCKS
    ensures Locate(index).root < 13 && SetRoot(i, Locate(index).root, number) ==
      (if index < DIRECT_BLOCKS then i.(direct := i.direct[index := number])
       else if index < DIRECT_BLOCKS + SINGLE then i.(single := number)
       else if index < DIRECT_BLOCKS + SINGLE + DOUBLE then i.(double := number)
       else i.(triple := number))
  {
  }

  // ---------- the write loop ----------

  // Data blocks touched by a write of n bytes at pos.
  function BlocksTouched(pos: nat, n: nat): nat {
    if n == 0 then 0 else (pos % DATA_SIZE + n + DATA_SIZE - 1) / DATA_SIZE
  }

  lemma OneBlockLess(pos: nat, rest: seq<Byte>)
    requires rest != []
    ensures var w := Chunk(pos % DATA_SIZE, rest);
      0 < w <= |rest| && BlocksTouched(pos + w, |rest| - w) == BlocksTouched(pos, |rest|) - 1
  {
    var left, w := pos % DATA_SIZE, Chunk(pos % DATA_SIZE, rest);
    if w < |rest| {
      assert (pos + w) % DATA_SIZE == 0;
      var n := left + |rest| + DATA_SIZE - 1;
      assert (n - DATA_SIZE) / DATA_SIZE == n / DATA_SIZE - 1;
    }
  }

  lemma OthersTrans(c: Store, d: Store, e: Store, f: nat)
    requires OthersKept(c, d, f) && OthersKept(d, e, f)
    ensures OthersKept(c, e, f)
  {
    hide FileLeaf;
    forall g | g in c && c[g].Ino? && g != f ensures SameFile(c, e, g) {
      assert SameFile(c, d, g);
      assert SameFile(d, e, g);
    }
  }

  lemma CutTwice(c: Store, d: Store, e: Store, f: nat, pos: nat, a: seq<Byte>, b: seq<Byte>)
    requires CutAndExtended(c, d, f, pos, a) && CutAndExtended(d, e, f, pos + |a|, b)
    ensures CutAndExtended(c, e, f, pos, a + b)
  {
    hide FileBytes, OthersKept;
    OthersTrans(c, d, e, f);
    var s := BytesOf(c, f)[..pos] + a;
    assert BytesOf(d, f) == s && s[..pos + |a|] == s;
    assert s + b == BytesOf(c, f)[..pos] + (a + b);
  }

  // What has been written of data after total bytes.
  ghost predicate Progress(c: Store, d: Store, f: nat, pos: nat, data: seq<Byte>, total: nat) {
    && total <= |data| && Writable(d, f, pos + total)
    && (if total == 0 then d == c else pos + total <= MAX_FILE && CutAndExtended(c, d, f, pos, data[..total]))
  }

  lemma TakeMore(data: seq<Byte>, total: nat, w: nat)
    requires total + w <= |data|
    ensures data[..total] + data[total..][..w] == data[..total + w]
  {
  }

  lemma Progressing(c: Store, d: Store, e: Store, f: nat, pos: nat, data: seq<Byte>, total: nat, written: int)
    requires Progress(c, d, f, pos, data, total) && total < |data|
    requires BlockOutcome(d, e, f, pos + total, data[total..], written)
    ensures written < 0 ==> WriteOutcome(c, e, f, pos, data, written)
    ensures written >= 0 ==> 0 < written <= |data| - total && Progress(c, e, f, pos, data, total + written)
    ensures written >= 0 ==>
      BlocksTouched(pos + total + written, |data| - total - written) == BlocksTouched(pos + total, |data| - total) - 1
  {
    hide CutAndExtended, Writable;
    OneBlockLess(pos + total, data[total..]);
    hide BlocksTouched, Chunk;
    if written >= 0 {
      ProgressOn(c, d, e, f, pos, data, total, written);
    } else {
      assert pos + total >= MAX_FILE;
    }
  }

  lemma ProgressOn(c: Store, d: Store, e: Store, f: nat, pos: nat, data: seq<Byte>, total: nat, written: nat)
    requires Progress(c, d, f, pos, data, total) && total + written <= |data| && 0 < written
    requires (pos + total) / DATA_SIZE < MAX_BLOCKS && written <= DATA_SIZE - (pos + total) % DATA_SIZE
    requires CutAndExtended(d, e, f, pos + total, data[total..][..written])
    ensures Progress(c, e, f, pos, data, total + written)
  {
    hide CutAndExtended, Writable;
    TakeMore(data, total, written);
    if total > 0 {
      CutTwice(c, d, e, f, pos, data[..total], data[total..][..written]);
    } else {
      assert data[0..] == data;
    }
    CutLength(d, e, f, pos + total, data[total..][..written]);
  }

  // hodo_sub_file_write_iter. All data that fits below the largest file size is
  // written; what is past it makes the call fail, with the part before it kept.
  method FileWriteIter(m: MappingInfo, f: nat, pos: nat, data: seq<Byte>, ghost lab: Labels)
    returns (ret: int, ghost lab': Labels)
    requires FsReady(m, lab, APPENDS * BlocksTouched(pos, |data|))
    requires Writable(Contents(m.View()), f, pos)
    modifies m
    ensures FsReady(m, lab', 0) && LabelsKept(lab, lab')
    ensures WriteOutcome(old(Contents(m.View())), Contents(m.View()), f, pos, data, ret)
    ensures BudgetUsed(old(m.View()), m.View(), APPENDS * BlocksTouched(pos, |data|))
    ensures AllocationsKept(old(m.View()), m.View())
  {
    hide Members, GcPositions, Inv, Contents, Budget, Allocated, CutAndExtended, TreesGood, FilesGood;
    hide Progress, BlockOutcome, WriteOutcome, BlocksTouched, LabelsKept, BudgetUsed;
    ghost var s0 := m.View();
    ghost var c := Contents(s0);
    ghost var all := BlocksTouched(pos, |data|);
    var len, total := |data|, 0;
    lab' := lab;
    Starting(c, f, pos, data, lab);
    BudgetStays(s0, 0);
    while total < len
      invariant total <= len
      invariant FsReady(m, lab', APPENDS * BlocksTouched(pos + total, len - total)) && LabelsKept(lab, lab')
      invariant Progress(c, Contents(m.View()), f, pos, data, total)
      invariant BlocksTouched(pos + total, len - total) <= all
      invariant BudgetUsed(s0, m.View(), APPENDS * (all - BlocksTouched(pos + total, len - total)))
      invariant AllocationsKept(old(m.View()), m.View())
      decreases len - total
    {
      ghost var s, lab1 := m.View(), lab';
      ghost var n := BlocksTouched(pos + total, len - total);
      BeforeBlock(s, c, f, pos, data, total, APPENDS * n);
      var written;
      written, lab' := WriteOneBlock(m, f, pos + total, data[total..], lab');
      Progressing(c, Contents(s), Contents(m.View()), f, pos, data, total, written);
      LabelsTrans(lab, lab1, lab');
      AllocationsTrans(s0, s, m.View());
      assert 0 < n by { OneBlockLess(pos + total, data[total..]); }
      BudgetsAdd(s0, s, m.View(), APPENDS * (all - n), APPENDS);
      if written < 0 {
        BudgetUsedMore(s0, m.View(), APPENDS * (all - n + 1), APPENDS * all);
        return written, lab';
      }
      assert Budget(m.View(), APPENDS * (n - 1)) by { UseBudget(s, m.View(), APPENDS * (n - 1), APPENDS); }
      total := total + written;
    }
    AllWritten(c, Contents(m.View()), f, pos, data);
    BudgetDone(m.View(), APPENDS * BlocksTouched(pos + total, 0));
    BudgetUsedMore(s0, m.View(), APPENDS * (all - BlocksTouched(pos + total, 0)), APPENDS * all);
    return total, lab';
  }

  lemma Starting(c: Store, f: nat, pos: nat, data: seq<Byte>, lab: Labels)
    requires Writable(c, f, pos)
    ensures Progress(c, c, f, pos, data, 0) && LabelsKept(lab, lab)
  {
  }

  lemma BeforeBlock(s: State, c: Store, f: nat, pos: nat, data: seq<Byte>, total: nat, n: int)
    requires total < |data| && n == APPENDS * BlocksTouched(pos + total, |data| - total)
    requires Progress(c, Contents(s), f, pos, data, total) && Budget(s, n)
    ensures Budget(s, APPENDS) && Writable(Contents(s), f, pos + total)
  {
    OneBlockLess(pos + total, data[total..]);
    BudgetLess(s, n, APPENDS);
  }

  lemma LabelsTrans(lab: Labels, lab1: Labels, lab': Labels)
    requires LabelsKept(lab, lab1) && LabelsKept(lab1, lab')
    ensures LabelsKept(lab, lab')
  {
  }

  lemma AllWritten(c: Store, d: Store, f: nat, pos: nat, data: seq<Byte>)
    requires Progress(c, d, f, pos, data, |data|)
    ensures WriteOutcome(c, d, f, pos, data, |data|)
  {
    assert data[..|data|] == data;
  }

  lemma BudgetDone(s: State, n: int)
    requires Budget(s, n) && n >= 0
    ensures Budget(s, 0)
  {
  }

  lemma CutLength(c: Store, d: Store, f: nat, pos: nat, data: seq<Byte>)
    requires CutAndExtended(c, d, f, pos, data)
    ensures Writable(d, f, pos + |data|)
  {
  }
}
