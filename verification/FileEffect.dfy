// What one write of write_one_block means for the contents of all files.
module FileEffect {
  import opened Blocks
  import opened FileIndex
  import opened FileTree
  import opened FileWrite

  // File g reads as before: same inode, the same data blocks, and each unchanged.
  ghost predicate SameFile(c: Store, e: Store, g: nat) {
    && g in c && c[g].Ino? && g in e && e[g] == c[g] && |c[g].inode.direct| == DIRECT_BLOCKS
    && forall n: nat | n < MAX_BLOCKS ::
         FileLeaf(e, c[g].inode, n) == FileLeaf(c, c[g].inode, n) &&
         (FileLeaf(c, c[g].inode, n) != 0 ==>
            FileLeaf(c, c[g].inode, n) in c && FileLeaf(c, c[g].inode, n) in e &&
            e[FileLeaf(c, c[g].inode, n)] == c[FileLeaf(c, c[g].inode, n)])
  }

  ghost predicate OthersKept(c: Store, e: Store, f: nat) {
    forall g | g in c && c[g].Ino? && g != f :: SameFile(c, e, g)
  }

  lemma SameFileBytes(c: Store, e: Store, g: nat)
    requires SameFile(c, e, g) && LeavesPresent(c, c[g].inode)
    ensures FileBytes(e, c[g].inode) == FileBytes(c, c[g].inode) && LeavesPresent(e, c[g].inode)
  {
    var i := c[g].inode;
    forall pos: nat | pos < i.fileLen ensures ByteAt(e, i, pos) == ByteAt(c, i, pos) {
      var n := pos / DATA_SIZE;
      assert n < MAX_BLOCKS && n * DATA_SIZE < i.fileLen;
      assert FileLeaf(c, i, n) != 0;
    }
    assert FileBytes(e, i) == FileBytes(c, i);
  }

  // The store after the tree below root pointer number p was rewritten and the
  // inode of f points to it.
  ghost predicate Rooted(c: Store, lab: Labels, d: Store, lab': Labels, e: Store, f: nat, k: Inode,
                         index: nat, number: nat, w: nat, left: nat, from: seq<Byte>)
    requires left < DATA_SIZE && index < MAX_BLOCKS
  {
    && TreesGood(c, lab) && f in c && c[f].Ino? && |c[f].inode.direct| == DIRECT_BLOCKS
    && WroteBelow(c, lab, d, lab', f, index, Locate(index).height, RootPtr(c[f].inode, Locate(index).root),
                  number, w, left, from)
    && k == SetRoot(c[f].inode, Locate(index).root, number).(fileLen := k.fileLen)
    && e == d[f := Ino(k)]
  }

  lemma RootedTrees(c: Store, lab: Labels, d: Store, lab': Labels, e: Store, f: nat, k: Inode,
                    index: nat, number: nat, w: nat, left: nat, from: seq<Byte>)
    requires left < DATA_SIZE && index < MAX_BLOCKS
    requires Rooted(c, lab, d, lab', e, f, k, index, number, w, left, from)
    ensures f in d && d[f] == c[f] && f != w
    ensures TreesGood(e, lab') && Grows(d, e) && Grows(c, e)
    ensures forall l | l in c && l != f && l != w && (c[l].Dat? ==> c[l].level == 0) :: l in e && e[l] == c[l]
    ensures e[f] == Ino(k) && |k.direct| == DIRECT_BLOCKS
    ensures w in e && e[w] == d[w] && NoNewInode(c, e) && LabelsKept(lab, lab')
  {
    hide Locate, NumberGood, Spliced, LeafData, Leaf;
    var i := c[f].inode;
    var root := Locate(index).root;
    assert d[f] == c[f];
    RootInode(c, lab, lab', f, i, k, index, number);
    PutInode(d, lab', f, i, k);
    GrowsTrans(c, d, e);
  }

  lemma RootInode(c: Store, lab: Labels, lab': Labels, f: nat, i: Inode, k: Inode, index: nat, number: nat)
    requires TreesGood(c, lab) && f in c && c[f] == Ino(i) && LabelsKept(lab, lab') && index < MAX_BLOCKS
    requires |i.direct| == DIRECT_BLOCKS && k == SetRoot(i, Locate(index).root, number).(fileLen := k.fileLen)
    requires Labelled(lab', number, NodeFor(f, index, Locate(index).height)) && number != 0
    requires RootPtr(i, Locate(index).root) != 0 ==> number == RootPtr(i, Locate(index).root)
    ensures InodeGood(lab', f, k) && k.typ == i.typ
    ensures forall r: nat | r < 13 && RootPtr(i, r) != 0 :: RootPtr(k, r) == RootPtr(i, r)
    ensures RootPtr(k, Locate(index).root) == number
  {
    assert NumberGood(c, lab, f);
    var root := Locate(index).root;
    TopIdx(index);
    forall r: nat | r < 13
      ensures RootPtr(k, r) == if r == root then number else RootPtr(i, r)
      ensures Labelled(lab', RootPtr(k, r), Node(f, r, RootHeight(r), 0))
    {
      RootsOf(i, root, number, r);
      assert RootPtr(k, r) == RootPtr(SetRoot(i, root, number), r);
      assert Labelled(lab, RootPtr(i, r), Node(f, r, RootHeight(r), 0));
    }
  }

  lemma RootedLeaf(c: Store, lab: Labels, d: Store, lab': Labels, e: Store, f: nat, k: Inode,
                   index: nat, number: nat, w: nat, left: nat, from: seq<Byte>)
    requires left < DATA_SIZE && index < MAX_BLOCKS
    requires Rooted(c, lab, d, lab', e, f, k, index, number, w, left, from)
    ensures |k.direct| == DIRECT_BLOCKS && FileLeaf(e, k, index) == w
    ensures w != 0 && w in lab' && lab'[w] == Node(f, Locate(index).root, 0, Locate(index).leaf)
  {
    RootedTrees(c, lab, d, lab', e, f, k, index, number, w, left, from);
    TopIdx(index);
    var p := Locate(index);
    assert RootPtr(k, p.root) == number by { RootsOf(c[f].inode, p.root, number, p.root); }
    assert TreesGood(d, lab');
    GrowsKeepsLeaf(d, e, lab', f, p.root, number, p.height, p.leaf);
    FileLeafLabel(e, lab', f, index);
  }

  // Every data block but the one written keeps its number and its data.
  lemma KeptLeaf(c: Store, lab: Labels, d: Store, lab': Labels, e: Store, f: nat, k: Inode,
                 index: nat, number: nat, w: nat, left: nat, from: seq<Byte>, g: nat, n: nat)
    requires left < DATA_SIZE && index < MAX_BLOCKS && n < MAX_BLOCKS
    requires Rooted(c, lab, d, lab', e, f, k, index, number, w, left, from)
    requires g in c && c[g].Ino? && |c[g].inode.direct| == DIRECT_BLOCKS && (g != f || n != index)
    requires FileLeaf(c, c[g].inode, n) != 0
    ensures g in e && e[g].Ino? && |e[g].inode.direct| == DIRECT_BLOCKS
    ensures var l := FileLeaf(c, c[g].inode, n);
      FileLeaf(e, e[g].inode, n) == l && l in c && l in e && e[l] == c[l] && c[l].Dat?
  {
    RootedTrees(c, lab, d, lab', e, f, k, index, number, w, left, from);
    RootedLeaf(c, lab, d, lab', e, f, k, index, number, w, left, from);
    var l := FileLeaf(c, c[g].inode, n);
    FileLeafLabel(c, lab, g, n);
    assert NumberGood(c, lab, l) && NumberGood(e, lab', g);
    GrowsKeepsFileLeaf(c, e, lab, g, n);
    LocateBijection(Locate(n), n, index);
    assert l != w && l != f;
  }

  // A data block that a write leads to was there before, unless it is the one written.
  lemma {:induction false} LeafBack(c: Store, lab: Labels, e: Store, lab': Labels, f: nat, index: nat,
                                    g: nat, r: nat, p: nat, h: nat, n: nat)
    requires TreesGood(c, lab) && TreesGood(e, lab') && OnlyPath(c, e, lab', f, index)
    requires Labelled(lab', p, Node(g, r, h, Idx(n, h))) && Leaf(e, p, h, n) != 0
    ensures (p in c && Leaf(c, p, h, n) != 0) || (g == f && r == Locate(index).root && n == Locate(index).leaf)
    decreases h
  {
    hide Locate, Slot, GetPtr;
    assert NumberGood(e, lab', p);
    if h > 0 {
      var child := GetPtr(e[p].data, Slot(n, h));
      ChildIdx(n, h);
      LeafBack(c, lab, e, lab', f, index, g, r, child, h - 1, n);
    }
  }

  lemma RootedPath(c: Store, lab: Labels, d: Store, lab': Labels, e: Store, f: nat, k: Inode,
                   index: nat, number: nat, w: nat, left: nat, from: seq<Byte>)
    requires left < DATA_SIZE && index < MAX_BLOCKS
    requires Rooted(c, lab, d, lab', e, f, k, index, number, w, left, from)
    ensures OnlyPath(c, e, lab', f, index) && Locate(index).root < 13
    ensures RootPtr(c[f].inode, Locate(index).root) == 0 ==> number !in c
  {
    hide Locate, GetPtr, Slot, Spliced, TreesGood, LabelsKept, OnlyData, HigherKept, PtrsKept, RootsKept;
    TopIdx(index);
  }

  // Every data block but the one written that is there afterwards was there before.
  lemma AbsentLeaf(c: Store, lab: Labels, d: Store, lab': Labels, e: Store, f: nat, k: Inode,
                   index: nat, number: nat, w: nat, left: nat, from: seq<Byte>, g: nat, n: nat)
    requires left < DATA_SIZE && index < MAX_BLOCKS && n < MAX_BLOCKS
    requires Rooted(c, lab, d, lab', e, f, k, index, number, w, left, from)
    requires g in c && c[g].Ino? && |c[g].inode.direct| == DIRECT_BLOCKS && (g != f || n != index)
    requires g in e && e[g].Ino? && |e[g].inode.direct| == DIRECT_BLOCKS
    requires FileLeaf(c, c[g].inode, n) == 0
    ensures FileLeaf(e, e[g].inode, n) == 0
  {
    hide Locate, OnlyPath, SetRoot, Spliced, LeafData, OnlyData, HigherKept;
    RootedTrees(c, lab, d, lab', e, f, k, index, number, w, left, from);
    RootedPath(c, lab, d, lab', e, f, k, index, number, w, left, from);
    assert NumberGood(e, lab', g);
    TopIdx(n);
    var p := Locate(n);
    RootsOf(c[f].inode, Locate(index).root, number, p.root);
    assert g == f ==> RootPtr(k, p.root) == RootPtr(SetRoot(c[f].inode, Locate(index).root, number), p.root);
    if FileLeaf(e, e[g].inode, n) != 0 {
      LeafBack(c, lab, e, lab', f, index, g, p.root, RootPtr(e[g].inode, p.root), p.height, p.leaf);
      LocateBijection(p, n, index);
    }
  }

  // The file itself has the data blocks it had, and the one written.
  lemma RestStay(c: Store, lab: Labels, d: Store, lab': Labels, e: Store, f: nat, k: Inode,
                 index: nat, number: nat, w: nat, left: nat, from: seq<Byte>, n: nat)
    requires left < DATA_SIZE && index < MAX_BLOCKS && n < MAX_BLOCKS && n != index
    requires Rooted(c, lab, d, lab', e, f, k, index, number, w, left, from)
    ensures |k.direct| == DIRECT_BLOCKS && FileLeaf(e, k, n) == FileLeaf(c, c[f].inode, n)
  {
    hide Locate, WroteBelow, FileLeaf, SetRoot, TreesGood, Grows, LabelsKept, NoNewInode;
    RootedTrees(c, lab, d, lab', e, f, k, index, number, w, left, from);
    if FileLeaf(c, c[f].inode, n) != 0 {
      KeptLeaf(c, lab, d, lab', e, f, k, index, number, w, left, from, f, n);
    } else {
      AbsentLeaf(c, lab, d, lab', e, f, k, index, number, w, left, from, f, n);
    }
  }

  // Every other file keeps its inode and its data blocks; the absent ones stay absent.
  lemma OthersStay(c: Store, lab: Labels, d: Store, lab': Labels, e: Store, f: nat, k: Inode,
                   index: nat, number: nat, w: nat, left: nat, from: seq<Byte>)
    requires left < DATA_SIZE && index < MAX_BLOCKS
    requires Rooted(c, lab, d, lab', e, f, k, index, number, w, left, from)
    ensures OthersKept(c, e, f)
  {
    hide Locate, Rooted, FileLeaf, TreesGood, LeavesPresent;
    RootedTrees(c, lab, d, lab', e, f, k, index, number, w, left, from);
    forall g | g in c && c[g].Ino? && g != f ensures SameFile(c, e, g) {
      InodeDirect(c, lab, d, lab', e, f, k, index, number, w, left, from, g);
      assert g != w by { WrittenIsData(c, lab, d, lab', e, f, k, index, number, w, left, from); }
      forall n: nat | n < MAX_BLOCKS
        ensures FileLeaf(e, c[g].inode, n) == FileLeaf(c, c[g].inode, n)
        ensures FileLeaf(c, c[g].inode, n) != 0 ==>
          FileLeaf(c, c[g].inode, n) in c && FileLeaf(c, c[g].inode, n) in e &&
          e[FileLeaf(c, c[g].inode, n)] == c[FileLeaf(c, c[g].inode, n)]
      {
        if FileLeaf(c, c[g].inode, n) != 0 {
          KeptLeaf(c, lab, d, lab', e, f, k, index, number, w, left, from, g, n);
        } else {
          AbsentLeaf(c, lab, d, lab', e, f, k, index, number, w, left, from, g, n);
        }
      }
    }
  }

  lemma InodeDirect(c: Store, lab: Labels, d: Store, lab': Labels, e: Store, f: nat, k: Inode,
                    index: nat, number: nat, w: nat, left: nat, from: seq<Byte>, g: nat)
    requires left < DATA_SIZE && index < MAX_BLOCKS
    requires Rooted(c, lab, d, lab', e, f, k, index, number, w, left, from) && g in c && c[g].Ino?
    ensures |c[g].inode.direct| == DIRECT_BLOCKS
  {
    hide Locate, WroteBelow;
    assert NumberGood(c, lab, g);
  }

  lemma WrittenIsData(c: Store, lab: Labels, d: Store, lab': Labels, e: Store, f: nat, k: Inode,
                      index: nat, number: nat, w: nat, left: nat, from: seq<Byte>)
    requires left < DATA_SIZE && index < MAX_BLOCKS
    requires Rooted(c, lab, d, lab', e, f, k, index, number, w, left, from)
    ensures w in c ==> c[w].Dat?
  {
    hide Locate, LeafData, Spliced, Leaf, TreesGood;
    assert w in c ==> d[w].Dat? == c[w].Dat?;
  }

  // The data block written holds the old bytes before the offset and the new data after it.
  lemma WrittenByte(c: Store, i: Inode, index: nat, left: nat, from: seq<Byte>, off: nat)
    requires left < DATA_SIZE && |i.direct| == DIRECT_BLOCKS && off < left + Chunk(left, from)
    ensures Spliced(DataOf(c, FileLeaf(c, i, index)), left, from)[off] ==
            if off < left then DataOf(c, FileLeaf(c, i, index))[off] else from[off - left]
  {
    hide FileLeaf;
  }

  lemma WrittenData(c: Store, lab: Labels, d: Store, lab': Labels, e: Store, f: nat, k: Inode,
                    index: nat, number: nat, w: nat, left: nat, from: seq<Byte>)
    requires left < DATA_SIZE && index < MAX_BLOCKS
    requires Rooted(c, lab, d, lab', e, f, k, index, number, w, left, from)
    ensures DataOf(e, w) == Spliced(DataOf(c, FileLeaf(c, c[f].inode, index)), left, from)
  {
    hide Locate, Spliced, Leaf, TreesGood;
    RootedTrees(c, lab, d, lab', e, f, k, index, number, w, left, from);
  }

  lemma WrittenByteAt(c: Store, lab: Labels, d: Store, lab': Labels, e: Store, f: nat, k: Inode,
                      number: nat, w: nat, pos: nat, from: seq<Byte>, q: nat)
    requires pos / DATA_SIZE < MAX_BLOCKS
    requires Rooted(c, lab, d, lab', e, f, k, pos / DATA_SIZE, number, w, pos % DATA_SIZE, from)
    requires pos <= c[f].inode.fileLen && LeavesPresent(c, c[f].inode)
    requires q < pos + Chunk(pos % DATA_SIZE, from)
    ensures |k.direct| == DIRECT_BLOCKS
    ensures ByteAt(e, k, q) == if q < pos then ByteAt(c, c[f].inode, q) else from[q - pos]
  {
    hide Locate, WroteBelow, FileLeaf, Spliced, SetRoot, TreesGood, Grows, LabelsKept, NoNewInode, Chunk;
    var i := c[f].inode;
    var index, left := pos / DATA_SIZE, pos % DATA_SIZE;
    RootedLeaf(c, lab, d, lab', e, f, k, index, number, w, left, from);
    RootedTrees(c, lab, d, lab', e, f, k, index, number, w, left, from);
    var n := q / DATA_SIZE;
    assert n <= index by { ChunkEnds(pos, from, q); }
    if n < index {
      assert n * DATA_SIZE < i.fileLen;
      assert FileLeaf(c, i, n) != 0;
      KeptLeaf(c, lab, d, lab', e, f, k, index, number, w, left, from, f, n);
    } else {
      assert n == index;
      WrittenData(c, lab, d, lab', e, f, k, index, number, w, left, from);
      WrittenByte(c, i, index, left, from, q % DATA_SIZE);
    }
  }

  lemma ChunkEnds(pos: nat, from: seq<Byte>, q: nat)
    requires q < pos + Chunk(pos % DATA_SIZE, from)
    ensures q / DATA_SIZE <= pos / DATA_SIZE
    ensures q / DATA_SIZE == pos / DATA_SIZE ==> q % DATA_SIZE - pos % DATA_SIZE == q - pos
    ensures q / DATA_SIZE == pos / DATA_SIZE ==> q % DATA_SIZE < pos % DATA_SIZE + Chunk(pos % DATA_SIZE, from)
  {
  }

  lemma SplicedBytes(c: Store, i: Inode, e: Store, k: Inode, pos: nat, added: seq<Byte>)
    requires |i.direct| == DIRECT_BLOCKS == |k.direct| && pos <= i.fileLen && k.fileLen == pos + |added|
    requires forall q: nat | q < k.fileLen :: ByteAt(e, k, q) == if q < pos then ByteAt(c, i, q) else added[q - pos]
    ensures FileBytes(e, k) == FileBytes(c, i)[..pos] + added
  {
    hide ByteAt;
    assert forall q: nat | q < pos :: FileBytes(c, i)[q] == ByteAt(c, i, q);
    assert forall q: nat | q < k.fileLen :: FileBytes(e, k)[q] == ByteAt(e, k, q);
  }

  // A write at or before the end cuts the file at its position and appends what it wrote.
  lemma WrittenBytes(c: Store, lab: Labels, d: Store, lab': Labels, e: Store, f: nat, k: Inode,
                     number: nat, w: nat, pos: nat, from: seq<Byte>)
    requires pos / DATA_SIZE < MAX_BLOCKS
    requires Rooted(c, lab, d, lab', e, f, k, pos / DATA_SIZE, number, w, pos % DATA_SIZE, from)
    requires pos <= c[f].inode.fileLen && LeavesPresent(c, c[f].inode)
    requires k.fileLen == pos + Chunk(pos % DATA_SIZE, from)
    ensures |k.direct| == DIRECT_BLOCKS
    ensures FileBytes(e, k) == FileBytes(c, c[f].inode)[..pos] + from[..Chunk(pos % DATA_SIZE, from)]
  {
    hide Locate, WroteBelow, FileLeaf, Spliced, SetRoot, ByteAt, FileBytes, TreesGood, LeavesPresent;
    RootedTrees(c, lab, d, lab', e, f, k, pos / DATA_SIZE, number, w, pos % DATA_SIZE, from);
    var added := from[..Chunk(pos % DATA_SIZE, from)];
    forall q: nat | q < k.fileLen
      ensures ByteAt(e, k, q) == if q < pos then ByteAt(c, c[f].inode, q) else added[q - pos]
    {
      WrittenByteAt(c, lab, d, lab', e, f, k, number, w, pos, from, q);
    }
    SplicedBytes(c, c[f].inode, e, k, pos, added);
  }

  lemma WrittenLeaves(c: Store, lab: Labels, d: Store, lab': Labels, e: Store, f: nat, k: Inode,
                      number: nat, w: nat, pos: nat, from: seq<Byte>)
    requires pos / DATA_SIZE < MAX_BLOCKS
    requires Rooted(c, lab, d, lab', e, f, k, pos / DATA_SIZE, number, w, pos % DATA_SIZE, from)
    requires pos <= c[f].inode.fileLen && LeavesPresent(c, c[f].inode)
    requires k.fileLen == pos + Chunk(pos % DATA_SIZE, from)
    ensures |k.direct| == DIRECT_BLOCKS && LeavesPresent(e, k)
  {
    hide Locate, WroteBelow, FileLeaf, Spliced, SetRoot;
    var i := c[f].inode;
    var index, left := pos / DATA_SIZE, pos % DATA_SIZE;
    RootedLeaf(c, lab, d, lab', e, f, k, index, number, w, left, from);
    RootedTrees(c, lab, d, lab', e, f, k, index, number, w, left, from);
    forall n: nat | n < MAX_BLOCKS && n * DATA_SIZE < k.fileLen ensures FileLeaf(e, k, n) != 0 {
      if n != index {
        assert n * DATA_SIZE < i.fileLen;
        KeptLeaf(c, lab, d, lab', e, f, k, index, number, w, left, from, f, n);
      }
    }
  }

  // One write of write_one_block: the file is cut at pos and extended by what was
  // written, and every other file, regular or directory, reads as before.
  lemma WriteEffect(c: Store, lab: Labels, d: Store, lab': Labels, e: Store, f: nat, k: Inode,
                    number: nat, w: nat, pos: nat, from: seq<Byte>)
    requires FilesGood(c, lab) && pos / DATA_SIZE < MAX_BLOCKS
    requires Rooted(c, lab, d, lab', e, f, k, pos / DATA_SIZE, number, w, pos % DATA_SIZE, from)
    requires c[f].inode.typ == Regular && pos <= c[f].inode.fileLen
    requires k.fileLen == pos + Chunk(pos % DATA_SIZE, from)
    ensures FilesGood(e, lab') && OthersKept(c, e, f) && e[f] == Ino(k) && |k.direct| == DIRECT_BLOCKS
    ensures FileBytes(e, k) == FileBytes(c, c[f].inode)[..pos] + from[..Chunk(pos % DATA_SIZE, from)]
    ensures LabelsKept(lab, lab')
    ensures forall n: nat | n < MAX_BLOCKS && n != pos / DATA_SIZE :: FileLeaf(e, k, n) == FileLeaf(c, c[f].inode, n)
  {
    hide Locate, FileLeaf, Spliced, SetRoot, LeafData, Leaf, NumberGood, LeavesPresent, SameFile, FileBytes;
    var index, left := pos / DATA_SIZE, pos % DATA_SIZE;
    assert LeavesPresent(c, c[f].inode);
    RootedTrees(c, lab, d, lab', e, f, k, index, number, w, left, from);
    OthersStay(c, lab, d, lab', e, f, k, index, number, w, left, from);
    WrittenBytes(c, lab, d, lab', e, f, k, number, w, pos, from);
    WrittenLeaves(c, lab, d, lab', e, f, k, number, w, pos, from);
    forall n: nat | n < MAX_BLOCKS && n != index ensures FileLeaf(e, k, n) == FileLeaf(c, c[f].inode, n) {
      RestStay(c, lab, d, lab', e, f, k, index, number, w, left, from, n);
    }
    forall g | g in e && e[g].Ino? && e[g].inode.typ == Regular
      ensures |e[g].inode.direct| == DIRECT_BLOCKS && LeavesPresent(e, e[g].inode)
    {
      if g != f {
        assert g in d && d[g].Ino?;
        assert g in c && c[g].Ino?;
        assert SameFile(c, e, g);
        SameInode(c, e, g);
        SameFileBytes(c, e, g);
      }
    }
  }

  lemma SameInode(c: Store, e: Store, g: nat)
    requires SameFile(c, e, g)
    ensures g in e && g in c && c[g].Ino? && e[g] == c[g] && |c[g].inode.direct| == DIRECT_BLOCKS
  {
  }
}
