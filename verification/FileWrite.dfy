// The write path below one pointer of an inode: write_one_block_by_direct_block and
// write_one_block_by_indirect_block of trans.c.
module FileWrite {
  import opened Bitmap
  import opened Blocks
  import opened Translation
  import opened MappingLayer
  import opened TranslationRuns
  import opened BlockStore
  import opened FileIndex
  import opened FileTree

  function Min(a: nat, b: nat): nat {
    if a < b then a else b
  }

  // How much of the data goes into the block at offset left.
  function Chunk(left: nat, from: seq<Byte>): nat
    requires left < DATA_SIZE
  {
    Min(DATA_SIZE - left, |from|)
  }

  // What is kept of a block, then new data, then zeroes.
  function Spliced(d: Payload, left: nat, from: seq<Byte>): Payload
    requires left < DATA_SIZE
  {
    d[..left] + from[..Chunk(left, from)] + seq(DATA_SIZE - left - Chunk(left, from), _ => 0)
  }

  lemma SplicedAt(d: Payload, left: nat, from: seq<Byte>, q: nat)
    requires left < DATA_SIZE && q < DATA_SIZE
    ensures Spliced(d, left, from)[q] == if q < left then d[q] else if q < left + |from| then from[q - left] else 0
  {
  }

  function LeafData(c: Store, p: nat, h: nat, n: nat): Payload {
    DataOf(c, Leaf(c, p, h, n))
  }

  ghost predicate Ready(m: MappingInfo, lab: Labels, n: int)
    reads m
  {
    m.Sized() && Inv(m.View()) && Budget(m.View(), n) && TreesGood(Contents(m.View()), lab)
  }

  // Labels only get added.
  ghost predicate LabelsKept(lab: Labels, lab': Labels) {
    forall l | l in lab :: l in lab' && lab'[l] == lab[l]
  }

  // Pointer blocks above level h did not change.
  ghost predicate HigherKept(c: Store, d: Store, h: nat) {
    forall l | l in c && c[l].Dat? && c[l].level > h :: l in d && d[l] == c[l]
  }

  ghost predicate NoNewInode(c: Store, d: Store) {
    forall l | l in d && d[l].Ino? :: l in c && c[l].Ino?
  }

  ghost predicate BudgetUsed(s: State, t: State, n: int) {
    forall k: int :: Budget(s, k + n) ==> Budget(t, k)
  }

  ghost predicate AllocationsKept(s: State, t: State) {
    forall l: nat :: Allocated(s, l) ==> Allocated(t, l)
  }

  // write_one_block_by_direct_block.
  method WriteDirect(m: MappingInfo, pos: nat, from: seq<Byte>, lbn: nat, current: Block,
                     ghost lab: Labels, ghost at: Label)
    returns (written: nat, number: nat, ghost lab': Labels)
    requires Ready(m, lab, 1) && current.Dat? && at.Node? && at.height == 0
    requires lbn != 0 ==> lbn in lab && lab[lbn] == at
    modifies m
    ensures written == Chunk(pos % DATA_SIZE, from)
    ensures lbn != 0 ==> number == lbn
    ensures lbn == 0 ==> number !in old(Contents(m.View()))
    ensures Contents(m.View()) ==
      old(Contents(m.View()))[number := Dat(0, number, Spliced(current.data, pos % DATA_SIZE, from))]
    ensures Ready(m, lab', 0) && lab' == lab[number := at] && 0 < number < POINTER_LIMIT
    ensures Grows(old(Contents(m.View())), Contents(m.View()))
    ensures OnlyData(old(Contents(m.View())), Contents(m.View()), number)
    ensures BudgetUsed(old(m.View()), m.View(), 1) && AllocationsKept(old(m.View()), m.View())
  {
    hide Members, GcPositions, Inv, Contents, Grows, OnlyData, TreesGood;
    ghost var c := Contents(m.View());
    assert forall l | l in lab :: l in c by { SameKeys(c, lab); }
    var left := pos % DATA_SIZE;
    var data: Payload;
    if left != 0 {
      if |from| + left >= DATA_SIZE {
        data := current.data[..left] + from[..DATA_SIZE - left];
        written := DATA_SIZE - left;
      } else {
        data := current.data[..left] + from + seq(DATA_SIZE - left - |from|, _ => 0);
        written := |from|;
      }
    } else {
      if |from| >= DATA_SIZE {
        data := from[..DATA_SIZE];
        written := DATA_SIZE;
      } else {
        data := from + seq(DATA_SIZE - |from|, _ => 0);
        written := |from|;
      }
    }
    assert data == Spliced(current.data, left, from);
    if lbn != 0 { StoredAllocated(m.View(), lbn); }
    number := StoreBlock(m, Dat(0, 0, data), lbn);
    SameKeys(c, lab);
    PutLeaf(c, lab, number, data, at);
    lab' := lab[number := at];
  }

  lemma SameKeys(c: Store, lab: Labels)
    requires TreesGood(c, lab)
    ensures c.Keys == lab.Keys
  {
  }

  // The label of the level-h node on the way to data block index of file f.
  function NodeFor(f: nat, index: nat, h: nat): Label {
    Node(f, Locate(index).root, h, Idx(Locate(index).leaf, h))
  }

  lemma ContentsRead(s: State, l: nat)
    requires l in Contents(s)
    ensures InTable(s, l) && Stored(s, l) == Some(Contents(s)[l])
  {
  }

  // What one level of the recursion is entered with.
  ghost predicate Entering(c: Store, lab: Labels, f: nat, index: nat, lbn: nat, current: Block) {
    && DIRECT_BLOCKS <= index < MAX_BLOCKS
    && current.Dat? && 1 <= current.level <= Locate(index).height
    && (if lbn == 0 then current.data == Zeroes()
        else lbn in c && lbn in lab && c[lbn] == current && lab[lbn] == NodeFor(f, index, current.level))
  }

  lemma EnteringSlots(c: Store, lab: Labels, f: nat, index: nat, lbn: nat, current: Block)
    requires TreesGood(c, lab) && Entering(c, lab, f, index, lbn, current)
    ensures SlotsGood(lab, current.data, NodeFor(f, index, current.level))
  {
    if lbn == 0 {
      forall j: nat | j < POINTERS ensures GetPtr(current.data, j) == 0 { ZeroPtrs(j); }
    } else {
      assert NumberGood(c, lab, lbn);
    }
  }

  lemma ChildLabel(f: nat, index: nat, h: nat)
    requires DIRECT_BLOCKS <= index < MAX_BLOCKS && 1 <= h <= Locate(index).height
    ensures WriterSlot(index, h) == Slot(Locate(index).leaf, h)
    ensures NodeFor(f, index, h - 1) ==
      Node(f, Locate(index).root, h - 1, NodeFor(f, index, h).idx * POINTERS + Slot(Locate(index).leaf, h))
  {
    WriterFollowsPath(index, h);
    ChildIdx(Locate(index).leaf, h);
  }

  // The pointer taken at this level leads to a good node one level down.
  lemma ChildGood(c: Store, lab: Labels, f: nat, index: nat, lbn: nat, current: Block)
    requires TreesGood(c, lab) && Entering(c, lab, f, index, lbn, current)
    requires WriterSlot(index, current.level) == Slot(Locate(index).leaf, current.level)
    ensures var child := GetPtr(current.data, WriterSlot(index, current.level));
      && Labelled(lab, child, NodeFor(f, index, current.level - 1))
      && (child != 0 ==> child in c && c[child].Dat? && c[child].level == current.level - 1)
  {
    hide Locate, Idx, Slot, WriterSlot, GetPtr;
    EnteringSlots(c, lab, f, index, lbn, current);
    ChildLabel(f, index, current.level);
    var child := GetPtr(current.data, WriterSlot(index, current.level));
    assert Labelled(lab, child, NodeFor(f, index, current.level - 1));
    if child != 0 { assert NumberGood(c, lab, child); }
  }

  // New blocks lie on the way to data block `index`, and so does every new pointer,
  // which leads to a new block.
  ghost predicate OnlyPath(c: Store, d: Store, lab': Labels, f: nat, index: nat) {
    && (forall l | l in d && l !in c :: l in lab' && lab'[l].Node? && lab'[l] == NodeFor(f, index, lab'[l].height))
    && (forall l, j: nat | l in d && d[l].Dat? && d[l].level > 0 && j < POINTERS && GetPtr(d[l].data, j) != 0 ::
          || (l in c && c[l].Dat? && GetPtr(c[l].data, j) == GetPtr(d[l].data, j))
          || (l in lab' && lab'[l] == NodeFor(f, index, d[l].level) && j == Slot(Locate(index).leaf, d[l].level)
              && GetPtr(d[l].data, j) !in c))
  }

  // What a call of write_one_block_by_indirect_block leaves behind: block w, the
  // leaf of data block `index`, holds the data; all else only grew, on the way to it.
  ghost predicate WroteBelow(c: Store, lab: Labels, d: Store, lab': Labels, f: nat, index: nat, h: nat,
                             lbn: nat, number: nat, w: nat, left: nat, from: seq<Byte>)
    requires left < DATA_SIZE
  {
    && (lbn != 0 ==> number == lbn) && 0 < number < POINTER_LIMIT
    && TreesGood(d, lab') && Labelled(lab', number, NodeFor(f, index, h))
    && LabelsKept(lab, lab')
    && Grows(c, d) && OnlyData(c, d, w) && HigherKept(c, d, h) && NoNewInode(c, d)
    && OnlyPath(c, d, lab', f, index) && (lbn == 0 ==> number !in c)
    && w != 0 && Leaf(d, number, h, Locate(index).leaf) == w
    && w in d && d[w] == Dat(0, w, Spliced(LeafData(c, lbn, h, Locate(index).leaf), left, from))
  }

  lemma DirectBelow(c: Store, lab: Labels, d: Store, lab': Labels, f: nat, index: nat,
                    lbn: nat, number: nat, current: Block, left: nat, from: seq<Byte>)
    requires left < DATA_SIZE && current.Dat? && 0 < number < POINTER_LIMIT
    requires TreesGood(c, lab) && TreesGood(d, lab') && lab' == lab[number := NodeFor(f, index, 0)]
    requires if lbn == 0 then current.data == Zeroes() && number !in c
      else number == lbn && lbn in c && c[lbn] == current && lab[lbn] == NodeFor(f, index, 0)
    requires d == c[number := Dat(0, number, Spliced(current.data, left, from))]
    requires Grows(c, d) && OnlyData(c, d, number)
    ensures WroteBelow(c, lab, d, lab', f, index, 0, lbn, number, number, left, from)
  {
    hide Spliced, PtrsKept, RootsKept, GetPtr, Idx, Locate, NoNewInode, HigherKept;
    SameKeys(c, lab);
    assert lbn != 0 ==> current.level == 0 by { if lbn != 0 { assert NumberGood(c, lab, lbn); } }
    DirectPath(c, d, lab', f, index, number, d[number]);
    DirectRest(c, lab, d, lab', number, d[number], NodeFor(f, index, 0));
    hide NumberGood, TreesGood, Grows, OnlyData, OnlyPath, LabelsKept;
  }

  lemma DirectRest(c: Store, lab: Labels, d: Store, lab': Labels, number: nat, b: Block, at: Label)
    requires d == c[number := b] && b.Dat? && b.level == 0 && lab' == lab[number := at]
    requires number in c ==> c[number].Dat? && c[number].level == 0
    requires number in lab ==> lab[number] == at
    ensures HigherKept(c, d, 0) && NoNewInode(c, d) && LabelsKept(lab, lab')
  {
  }

  lemma DirectPath(c: Store, d: Store, lab': Labels, f: nat, index: nat, number: nat, b: Block)
    requires d == c[number := b] && b.Dat? && b.level == 0
    requires number in lab' && lab'[number] == NodeFor(f, index, 0)
    ensures OnlyPath(c, d, lab', f, index)
  {
    hide Locate, Idx, Slot, GetPtr;
  }

  lemma SlotsKept(lab: Labels, lab1: Labels, data: Payload, at: Label)
    requires at.Node? && at.height > 0 && SlotsGood(lab, data, at) && LabelsKept(lab, lab1)
    ensures SlotsGood(lab1, data, at)
  {
    hide GetPtr;
  }

  lemma StepUpData(c: Store, d: Store, e: Store, h: nat, number: nat, b: Block, w: nat)
    requires h > 0 && OnlyData(c, d, w) && HigherKept(c, d, h - 1) && Grows(c, d)
    requires e == d[number := b] && b.Dat? && b.level == h
    requires number in d ==> d[number].Dat? && d[number].level == h
    requires number in c ==> c[number].Dat? && c[number].level == h
    ensures OnlyData(c, e, w) && HigherKept(c, e, h) && (NoNewInode(c, d) ==> NoNewInode(c, e))
  {
  }

  lemma StepUpLeaf(e: Store, lab: Labels, d: Store, number: nat, data: Payload, h: nat, n: nat, newChild: nat,
                   f: nat, r: nat)
    requires h > 0 && number != 0 && 0 < newChild < POINTER_LIMIT && TreesGood(d, lab) && Grows(d, e)
    requires Labelled(lab, newChild, Node(f, r, h - 1, Idx(n, h - 1)))
    requires number in e && e[number] == Dat(h, number, SetPtr(data, Slot(n, h), newChild))
    requires Leaf(d, newChild, h - 1, n) != 0
    ensures Leaf(e, number, h, n) == Leaf(d, newChild, h - 1, n)
  {
    PtrRoundTrip(data, Slot(n, h), newChild, Slot(n, h));
    GrowsKeepsLeaf(d, e, lab, f, r, newChild, h - 1, n);
  }

  lemma LabelsGrow(lab: Labels, lab1: Labels, number: nat, at: Label)
    requires LabelsKept(lab, lab1) && (number in lab1 ==> lab1[number] == at)
    ensures LabelsKept(lab, lab1[number := at])
  {
  }

  lemma SameLeafData(c: Store, lab: Labels, f: nat, index: nat, lbn: nat, current: Block)
    requires Entering(c, lab, f, index, lbn, current)
    ensures LeafData(c, lbn, current.level, Locate(index).leaf) ==
            LeafData(c,
              GetPtr(current.data, Slot(Locate(index).leaf, current.level)), current.level - 1, Locate(index).leaf)
  {
    hide Idx, Slot, Locate, GetPtr;
    if lbn == 0 { ZeroPtrs(Slot(Locate(index).leaf, current.level)); }
  }

  // What the pointer to the block below is stored into.
  lemma StepUpTrees(c: Store, lab: Labels, d: Store, lab1: Labels, e: Store, f: nat, index: nat,
                    lbn: nat, number: nat, current: Block, newChild: nat)
    requires TreesGood(c, lab) && Entering(c, lab, f, index, lbn, current)
    requires TreesGood(d, lab1) && LabelsKept(lab, lab1) && HigherKept(c, d, current.level - 1)
    requires Labelled(lab1, newChild, NodeFor(f, index, current.level - 1)) && 0 < newChild < POINTER_LIMIT
    requires var p := GetPtr(current.data, Slot(Locate(index).leaf, current.level)); p != 0 ==> newChild == p
    requires (lbn != 0 ==> number == lbn) && (lbn == 0 ==> number !in d) && 0 < number < POINTER_LIMIT
    requires e == d[number :=
      Dat(current.level, number, SetPtr(current.data, Slot(Locate(index).leaf, current.level), newChild))]
    ensures lbn != 0 ==> lbn in d && d[lbn] == current && lab1[lbn] == NodeFor(f, index, current.level)
    ensures TreesGood(e, lab1[number := NodeFor(f, index, current.level)]) && Grows(d, e)
  {
    hide Idx, Slot, WriterSlot, GetPtr, SetPtr, Locate, NumberGood, SlotsGood, PtrsKept, RootsKept, Grows;
    var h := current.level;
    var at := NodeFor(f, index, h);
    SameKeys(c, lab);
    SameKeys(d, lab1);
    assert lbn != 0 ==> lbn in d && d[lbn] == current && lab1[lbn] == at;
    EnteringSlots(c, lab, f, index, lbn, current);
    SlotsKept(lab, lab1, current.data, at);
    ChildLabel(f, index, h);
    assert newChild != number;
    PutNode(d, lab1, number, current.data, at, Slot(Locate(index).leaf, h), newChild);
  }

  // The fields of WroteBelow one level up that do not speak of the trees.
  lemma StepUpRest(c: Store, lab: Labels, d: Store, lab1: Labels, e: Store, f: nat, index: nat, lbn: nat,
                   number: nat, current: Block, b: Block, w: nat)
    requires Entering(c, lab, f, index, lbn, current) && LabelsKept(lab, lab1)
    requires Grows(c, d) && OnlyData(c, d, w) && HigherKept(c, d, current.level - 1) && NoNewInode(c, d)
    requires if lbn != 0
      then number == lbn && lbn in d && d[lbn] == current && lab1[lbn] == NodeFor(f, index, current.level)
      else number !in d && number !in lab1
    requires e == d[number := b] && b.Dat? && b.level == current.level
    ensures OnlyData(c, e, w) && HigherKept(c, e, current.level) && NoNewInode(c, e)
    ensures number in c ==> number in d
    ensures LabelsKept(lab, lab1[number := NodeFor(f, index, current.level)])
  {
    hide Idx, Locate, PtrsKept, RootsKept;
    assert number in c ==> number in d;
    StepUpData(c, d, e, current.level, number, b, w);
    LabelsGrow(lab, lab1, number, NodeFor(f, index, current.level));
  }

  // The pointer stored at this level is the one new pointer of its block.
  lemma StepUpPath(c: Store, d: Store, lab1: Labels, e: Store, f: nat, index: nat, lbn: nat, number: nat,
                   current: Block, newChild: nat)
    requires OnlyPath(c, d, lab1, f, index) && 0 < newChild < POINTER_LIMIT && current.Dat? && current.level > 0
    requires var p := GetPtr(current.data, Slot(Locate(index).leaf, current.level));
      if p == 0 then newChild !in c else newChild == p
    requires if lbn != 0 then number == lbn && lbn in c && c[lbn] == current
      else number !in c && number !in d && number !in lab1 && current.data == Zeroes()
    requires e == d[number :=
      Dat(current.level, number, SetPtr(current.data, Slot(Locate(index).leaf, current.level), newChild))]
    requires d.Keys == lab1.Keys && (number in lab1 ==> lab1[number] == NodeFor(f, index, current.level))
    ensures OnlyPath(c, e, lab1[number := NodeFor(f, index, current.level)], f, index)
  {
    hide Locate, Idx, GetPtr, SetPtr;
    var at := NodeFor(f, index, current.level);
    var lab' := lab1[number := at];
    var slot := Slot(Locate(index).leaf, current.level);
    forall j: nat | j < POINTERS && GetPtr(e[number].data, j) != 0 && j != slot
      ensures lbn != 0 && GetPtr(current.data, j) == GetPtr(e[number].data, j)
    {
      PtrRoundTrip(current.data, slot, newChild, j);
      ZeroPtrs(j);
    }
    PtrRoundTrip(current.data, slot, newChild, slot);
    ZeroPtrs(slot);
    forall l, j: nat | l in e && e[l].Dat? && e[l].level > 0 && j < POINTERS && GetPtr(e[l].data, j) != 0
      ensures
        || (l in c && c[l].Dat? && GetPtr(c[l].data, j) == GetPtr(e[l].data, j))
        || (l in lab' && lab'[l] == NodeFor(f, index, e[l].level) && j == Slot(Locate(index).leaf, e[l].level)
            && GetPtr(e[l].data, j) !in c)
    {
      if l != number {
        assert l in d && d[l] == e[l];
      }
    }
  }

  // From the level below to this one.
  lemma StepUp(c: Store, lab: Labels, d: Store, lab1: Labels, e: Store, lab': Labels, f: nat, index: nat,
               lbn: nat, number: nat, current: Block, newChild: nat, w: nat, left: nat, from: seq<Byte>)
    requires left < DATA_SIZE && TreesGood(c, lab) && Entering(c, lab, f, index, lbn, current)
    requires WriterSlot(index, current.level) == Slot(Locate(index).leaf, current.level)
    requires WroteBelow(c, lab, d, lab1, f, index, current.level - 1,
                        GetPtr(current.data, WriterSlot(index, current.level)), newChild, w, left, from)
    requires (lbn != 0 ==> number == lbn) && (lbn == 0 ==> number !in d) && 0 < number < POINTER_LIMIT
    requires lab' == lab1[number := NodeFor(f, index, current.level)]
    requires e == d[number :=
      Dat(current.level, number, SetPtr(current.data, WriterSlot(index, current.level), newChild))]
    ensures WroteBelow(c, lab, e, lab', f, index, current.level, lbn, number, w, left, from)
  {
    hide Idx, Slot, WriterSlot, GetPtr, SetPtr, Locate, Spliced, NoNewInode, Grows, OnlyData, HigherKept, TreesGood,
        LabelsKept, LeafData, OnlyPath;
    var h := current.level;
    SameKeys(d, lab1);
    StepUpTrees(c, lab, d, lab1, e, f, index, lbn, number, current, newChild);
    StepUpRest(c, lab, d, lab1, e, f, index, lbn, number, current, e[number], w);
    StepUpPath(c, d, lab1, e, f, index, lbn, number, current, newChild);
    GrowsTrans(c, d, e);
    StepUpLeaf(e, lab1, d, number, current.data, h, Locate(index).leaf, newChild, f, Locate(index).root);
    assert w != number;
    SameLeafData(c, lab, f, index, lbn, current);
  }

  lemma BudgetLess(s: State, n: int, k: int)
    requires Budget(s, n) && k <= n
    ensures Budget(s, k)
  {
  }

  lemma UseBudget(s: State, t: State, k: int, n: int)
    requires BudgetUsed(s, t, n) && Budget(s, k + n)
    ensures Budget(t, k)
  {
  }

  lemma BudgetsAdd(s: State, t: State, u: State, a: int, b: int)
    requires BudgetUsed(s, t, a) && BudgetUsed(t, u, b)
    ensures BudgetUsed(s, u, a + b)
  {
    hide Budget;
    forall k: int | Budget(s, k + (a + b)) ensures Budget(u, k) {
      assert Budget(s, (k + b) + a);
      assert Budget(t, k + b);
    }
  }

  lemma AllocationsTrans(s: State, t: State, u: State)
    requires AllocationsKept(s, t) && AllocationsKept(t, u)
    ensures AllocationsKept(s, u)
  {
    hide Allocated;
  }

  // The end of write_one_block_by_indirect_block: the pointer to the block below is
  // stored, and the current block written. State s is the one before the block below
  // was written.
  method StorePointer(m: MappingInfo, index: nat, lbn: nat, current: Block, newChild: nat, ghost s: State,
                      ghost lab: Labels, ghost lab1: Labels, ghost f: nat, ghost w: nat, ghost left: nat,
                      ghost from: seq<Byte>)
    returns (number: nat, ghost lab': Labels)
    requires m.Sized() && Inv(m.View()) && Budget(m.View(), 1) && left < DATA_SIZE
    requires Inv(s) && TreesGood(Contents(s), lab) && Entering(Contents(s), lab, f, index, lbn, current)
    requires WriterSlot(index, current.level) == Slot(Locate(index).leaf, current.level)
    requires WroteBelow(Contents(s), lab, Contents(m.View()), lab1, f, index, current.level - 1,
                        GetPtr(current.data, WriterSlot(index, current.level)), newChild, w, left, from)
    requires AllocationsKept(s, m.View())
    modifies m
    ensures WroteBelow(Contents(s), lab, Contents(m.View()), lab', f, index, current.level, lbn, number, w, left, from)
    ensures m.Sized() && Inv(m.View()) && TreesGood(Contents(m.View()), lab')
    ensures BudgetUsed(old(m.View()), m.View(), 1) && AllocationsKept(old(m.View()), m.View())
  {
    hide Members, GcPositions, Inv, Contents, Budget, WroteBelow, TreesGood, Allocated, GetPtr, SetPtr, Idx, Slot;
    ghost var t := m.View();
    WroteTrees(Contents(s), lab, Contents(t), lab1, f, index, current.level - 1,
               GetPtr(current.data, WriterSlot(index, current.level)), newChild, w, left, from);
    if lbn != 0 {
      SameKeys(Contents(s), lab);
      StoredAllocated(s, lbn);
      assert Allocated(t, lbn);
    }
    var data := SetPtr(current.data, WriterSlot(index, current.level), newChild);
    number := StoreBlock(m, Dat(current.level, 0, data), lbn);
    lab' := lab1[number := NodeFor(f, index, current.level)];
    StepUp(Contents(s), lab, Contents(t), lab1, Contents(m.View()), lab', f, index, lbn, number, current, newChild, w,
           left, from);
    WroteTrees(Contents(s), lab, Contents(m.View()), lab', f, index, current.level, lbn, number, w, left, from);
  }

  lemma WroteTrees(c: Store, lab: Labels, d: Store, lab': Labels, f: nat, index: nat, h: nat,
                   lbn: nat, number: nat, w: nat, left: nat, from: seq<Byte>)
    requires left < DATA_SIZE && WroteBelow(c, lab, d, lab', f, index, h, lbn, number, w, left, from)
    ensures TreesGood(d, lab') && 0 < number < POINTER_LIMIT
  {
  }

  lemma EnteringLevel(c: Store, lab: Labels, f: nat, index: nat, lbn: nat, current: Block)
    requires Entering(c, lab, f, index, lbn, current)
    ensures current.Dat? && current.level >= 1
  {
  }

  // The block below on the way to data block index, or a cleared one.
  method ReadChild(m: MappingInfo, index: nat, lbn: nat, current: Block, ghost lab: Labels, ghost f: nat)
    returns (child: nat, target: Block)
    requires m.Sized() && TreesGood(Contents(m.View()), lab)
    requires Entering(Contents(m.View()), lab, f, index, lbn, current)
    ensures WriterSlot(index, current.level) == Slot(Locate(index).leaf, current.level)
    ensures child == GetPtr(current.data, WriterSlot(index, current.level))
    ensures target.Dat? && target.level == current.level - 1
    ensures current.level > 1 ==> Entering(Contents(m.View()), lab, f, index, child, target)
    ensures current.level == 1 ==> AtLeaf(Contents(m.View()), lab, f, index, child, target)
  {
    hide Contents, TreesGood, GetPtr, Idx, Slot, Locate;
    ghost var c := Contents(m.View());
    ChildLabel(f, index, current.level);
    ChildGood(c, lab, f, index, lbn, current);
    child := GetPtr(current.data, WriterSlot(index, current.level));
    target := Dat(current.level - 1, 0, Zeroes());
    if child != 0 {
      ContentsRead(m.View(), child);
      target := m.ReadStruct(child, target);
    }
  }

  // What the last level of the recursion is entered with.
  ghost predicate AtLeaf(c: Store, lab: Labels, f: nat, index: nat, lbn: nat, current: Block) {
    current.Dat? &&
    (if lbn == 0 then current.data == Zeroes()
     else lbn in c && lbn in lab && c[lbn] == current && lab[lbn] == NodeFor(f, index, 0))
  }

  // The last level: a data block is written.
  method WriteLeaf(m: MappingInfo, pos: nat, from: seq<Byte>, lbn: nat, current: Block, ghost lab: Labels, ghost f: nat)
    returns (written: nat, number: nat, ghost lab': Labels)
    requires Ready(m, lab, 1) && AtLeaf(Contents(m.View()), lab, f, pos / DATA_SIZE, lbn, current)
    modifies m
    ensures written == Chunk(pos % DATA_SIZE, from)
    ensures WroteBelow(old(Contents(m.View())), lab, Contents(m.View()), lab', f, pos / DATA_SIZE, 0,
                       lbn, number, number, pos % DATA_SIZE, from)
    ensures Ready(m, lab', 0)
    ensures BudgetUsed(old(m.View()), m.View(), 1) && AllocationsKept(old(m.View()), m.View())
  {
    hide Members, GcPositions, Inv, Contents, Grows, OnlyData, HigherKept, TreesGood, Budget, Spliced, Allocated,
        WroteBelow, Locate, Idx;
    ghost var c := Contents(m.View());
    assert c.Keys == lab.Keys by { SameKeys(c, lab); }
    written, number, lab' := WriteDirect(m, pos, from, lbn, current, lab, NodeFor(f, pos / DATA_SIZE, 0));
    DirectBelow(c, lab, Contents(m.View()), lab', f, pos / DATA_SIZE, lbn, number, current, pos % DATA_SIZE, from);
  }

  // write_one_block_by_indirect_block: the level digit of the current block says
  // how deep the recursion is.
  method WriteIndirect(m: MappingInfo, pos: nat, from: seq<Byte>, lbn: nat, current: Block,
                       ghost lab: Labels, ghost f: nat)
    returns (written: nat, number: nat, ghost lab': Labels, ghost w: nat)
    requires Entering(Contents(m.View()), lab, f, pos / DATA_SIZE, lbn, current) && from != []
    requires Ready(m, lab, current.level + 1)
    modifies m
    decreases current.level
    ensures written == Chunk(pos % DATA_SIZE, from)
    ensures WroteBelow(old(Contents(m.View())), lab, Contents(m.View()), lab', f, pos / DATA_SIZE, current.level,
                       lbn, number, w, pos % DATA_SIZE, from)
    ensures Ready(m, lab', 0)
    ensures BudgetUsed(old(m.View()), m.View(), current.level + 1) && AllocationsKept(old(m.View()), m.View())
  {
    hide Members, GcPositions, Inv, Contents, TreesGood, Budget, BudgetUsed, AllocationsKept, GetPtr, Slot, Locate,
        Entering, AtLeaf, WroteBelow;
    ghost var s := m.View();
    ghost var c := Contents(s);
    var index := pos / DATA_SIZE;
    EnteringLevel(c, lab, f, index, lbn, current);
    var level := current.level;
    var child, target := ReadChild(m, index, lbn, current, lab, f);
    BudgetLess(s, level + 1, level);
    BudgetLess(s, level + 1, 1);
    var newChild;
    ghost var lab1;
    if target.level == 0 {
      written, newChild, lab1 := WriteLeaf(m, pos, from, child, target, lab, f);
      w := newChild;
    } else {
      written, newChild, lab1, w := WriteIndirect(m, pos, from, child, target, lab, f);
    }
    ghost var t := m.View();
    UseBudget(s, t, 1, level);
    WroteTrees(c, lab, Contents(t), lab1, f, index, level - 1, child, newChild, w, pos % DATA_SIZE, from);
    if written > 0 && newChild != 0 {
      number, lab' := StorePointer(m, index, lbn, current, newChild, s, lab, lab1, f, w, pos % DATA_SIZE, from);
    }
    BudgetsAdd(s, t, m.View(), level, 1);
    AllocationsTrans(s, t, m.View());
    UseBudget(s, m.View(), 0, level + 1);
  }
}
