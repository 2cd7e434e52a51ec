// What a store of blocks means as a set of files, and what writes keep.
module FileTree {
  import opened Blocks
  import opened FileIndex

  // ---------- leaves and bytes of a file ----------

  // The number of leaf n in the tree of height h below pointer p; 0 when absent.
  function Leaf(c: Store, p: nat, h: nat, n: nat): nat
    decreases h
  {
    if p == 0 || h == 0 then p
    else if p in c && c[p].Dat? then Leaf(c, GetPtr(c[p].data, Slot(n, h)), h - 1, n)
    else 0
  }

  function RootPtr(i: Inode, r: nat): nat
    requires |i.direct| == DIRECT_BLOCKS && r < 13
  {
    if r < DIRECT_BLOCKS then i.direct[r] else if r == 10 then i.single else if r == 11 then i.double else i.triple
  }

  function SetRoot(i: Inode, r: nat, p: nat): Inode
    requires |i.direct| == DIRECT_BLOCKS && r < 13
  {
    if r < DIRECT_BLOCKS then i.(direct := i.direct[r := p])
    else if r == 10 then i.(single := p) else if r == 11 then i.(double := p) else i.(triple := p)
  }

  function RootHeight(r: nat): nat {
    if r < DIRECT_BLOCKS then 0 else r - 9
  }

  // The number of data block n of a file.
  function FileLeaf(c: Store, i: Inode, n: nat): nat
    requires |i.direct| == DIRECT_BLOCKS
  {
    Leaf(c, RootPtr(i, Locate(n).root), Locate(n).height, Locate(n).leaf)
  }

  // The data of a numbered block; zeroes when there is none.
  function DataOf(c: Store, l: nat): Payload {
    if l != 0 && l in c && c[l].Dat? then c[l].data else Zeroes()
  }

  function ByteAt(c: Store, i: Inode, pos: nat): Byte
    requires |i.direct| == DIRECT_BLOCKS
  {
    DataOf(c, FileLeaf(c, i, pos / DATA_SIZE))[pos % DATA_SIZE]
  }

  // The contents of a file: its first fileLen bytes.
  function FileBytes(c: Store, i: Inode): (s: seq<Byte>)
    requires |i.direct| == DIRECT_BLOCKS
    ensures |s| == i.fileLen
  {
    seq(i.fileLen, pos requires 0 <= pos => ByteAt(c, i, pos))
  }

  // ---------- the invariant ----------

  // What a number is used for: an inode, or the node of a file at a root, height
  // and index. One number has one label, so no number occurs twice in a tree or
  // in two trees.
  datatype Label = InodeOf | Node(file: nat, root: nat, height: nat, idx: nat)

  type Labels = map<nat, Label>

  predicate Labelled(lab: Labels, p: nat, want: Label) {
    p != 0 ==> p in lab && lab[p] == want
  }

  predicate InodeGood(lab: Labels, f: nat, i: Inode) {
    && i.ino == f && |i.direct| == DIRECT_BLOCKS
    && (forall r: nat | r < 13 :: Labelled(lab, RootPtr(i, r), Node(f, r, RootHeight(r), 0)))
  }

  predicate NodeGood(lab: Labels, b: Block, at: Label)
    requires at.Node? && b.Dat?
  {
    && b.level == at.height
    && (at.height > 0 ==> forall j: nat | j < POINTERS ::
         Labelled(lab, GetPtr(b.data, j), Node(at.file, at.root, at.height - 1, at.idx * POINTERS + j)))
  }

  predicate NumberGood(c: Store, lab: Labels, l: nat)
    requires l in c && l in lab
  {
    && 0 < l < POINTER_LIMIT
    && (if lab[l].Node? then c[l].Dat? && c[l].lbn == l && NodeGood(lab, c[l], lab[l])
        else c[l].Ino? && InodeGood(lab, l, c[l].inode))
  }

  ghost predicate TreesGood(c: Store, lab: Labels) {
    c.Keys == lab.Keys && forall l | l in c :: NumberGood(c, lab, l)
  }

  // A regular file has all the data blocks its length calls for.
  predicate LeavesPresent(c: Store, i: Inode)
    requires |i.direct| == DIRECT_BLOCKS
  {
    && i.fileLen <= MAX_FILE
    && forall n: nat | n < MAX_BLOCKS && n * DATA_SIZE < i.fileLen :: FileLeaf(c, i, n) != 0
  }

  ghost predicate FilesGood(c: Store, lab: Labels) {
    && TreesGood(c, lab)
    && (forall f | f in c && c[f].Ino? && c[f].inode.typ == Regular ::
         |c[f].inode.direct| == DIRECT_BLOCKS && LeavesPresent(c, c[f].inode))
  }

  // ---------- labels of leaves ----------

  lemma {:induction false} LeafLabel(c: Store, lab: Labels, f: nat, r: nat, p: nat, h: nat, n: nat)
    requires TreesGood(c, lab)
    requires Labelled(lab, p, Node(f, r, h, Idx(n, h)))
    ensures Labelled(lab, Leaf(c, p, h, n), Node(f, r, 0, n))
    decreases h
  {
    if p != 0 && h > 0 {
      assert NumberGood(c, lab, p);
      ChildIdx(n, h);
      LeafLabel(c, lab, f, r, GetPtr(c[p].data, Slot(n, h)), h - 1, n);
    }
  }

  lemma TopIdx(n: nat)
    requires n < MAX_BLOCKS
    ensures Idx(Locate(n).leaf, Locate(n).height) == 0
    ensures Locate(n).root < 13 && Locate(n).height == RootHeight(Locate(n).root)
  {
    var l := Locate(n).leaf;
    assert Idx(l, 0) == l;
    assert Idx(l, 1) == l / POINTERS;
    assert Idx(l, 2) == Idx(l, 1) / POINTERS;
    assert Idx(l, 3) == Idx(l, 2) / POINTERS;
    TopDigit(l);
  }

  lemma FileLeafLabel(c: Store, lab: Labels, f: nat, n: nat)
    requires TreesGood(c, lab) && f in c && c[f].Ino? && n < MAX_BLOCKS
    ensures NumberGood(c, lab, f)
    ensures var p := Locate(n); Labelled(lab, FileLeaf(c, c[f].inode, n), Node(f, p.root, 0, p.leaf))
  {
    assert NumberGood(c, lab, f);
    TopIdx(n);
    var p := Locate(n);
    LeafLabel(c, lab, f, p.root, RootPtr(c[f].inode, p.root), p.height, p.leaf);
  }

  // No number occurs twice, in one file or in two.
  lemma LeavesDisjoint(c: Store, lab: Labels, f: nat, g: nat, a: nat, b: nat)
    requires TreesGood(c, lab) && f in c && g in c && c[f].Ino? && c[g].Ino?
    requires a < MAX_BLOCKS && b < MAX_BLOCKS && (f != g || a != b)
    ensures NumberGood(c, lab, f) && NumberGood(c, lab, g)
    ensures FileLeaf(c, c[f].inode, a) != 0 ==> FileLeaf(c, c[f].inode, a) != FileLeaf(c, c[g].inode, b)
  {
    FileLeafLabel(c, lab, f, a);
    FileLeafLabel(c, lab, g, b);
    LocateBijection(Locate(a), a, b);
  }

  // ---------- what a step of a write may change ----------

  predicate PtrsKept(b: Block, d: Block) {
    && b.Dat? && d.Dat? && d.level == b.level
    && (b.level > 0 ==> forall j: nat | j < POINTERS && GetPtr(b.data, j) != 0 ::
         GetPtr(d.data, j) == GetPtr(b.data, j))
  }

  predicate RootsKept(i: Inode, k: Inode) {
    && |i.direct| == DIRECT_BLOCKS == |k.direct| && k.typ == i.typ
    && (forall r: nat | r < 13 && RootPtr(i, r) != 0 :: RootPtr(k, r) == RootPtr(i, r))
  }

  // Nothing disappears, and a pointer once set keeps its number.
  ghost predicate Grows(c: Store, d: Store) {
    forall l | l in c :: l in d && d[l].Dat? == c[l].Dat? &&
      (if c[l].Dat? then PtrsKept(c[l], d[l])
       else |c[l].inode.direct| == DIRECT_BLOCKS ==> RootsKept(c[l].inode, d[l].inode))
  }

  lemma {:induction false} GrowsKeepsLeaf(c: Store, d: Store, lab: Labels, f: nat, r: nat, p: nat, h: nat, n: nat)
    requires Grows(c, d) && TreesGood(c, lab) && Labelled(lab, p, Node(f, r, h, Idx(n, h)))
    requires Leaf(c, p, h, n) != 0
    ensures Leaf(d, p, h, n) == Leaf(c, p, h, n)
    decreases h
  {
    if h > 0 {
      assert NumberGood(c, lab, p);
      ChildIdx(n, h);
      GrowsKeepsLeaf(c, d, lab, f, r, GetPtr(c[p].data, Slot(n, h)), h - 1, n);
    }
  }

  lemma GrowsKeepsFileLeaf(c: Store, d: Store, lab: Labels, f: nat, n: nat)
    requires Grows(c, d) && TreesGood(c, lab) && f in c && c[f].Ino? && n < MAX_BLOCKS
    requires NumberGood(c, lab, f) && |d[f].inode.direct| == DIRECT_BLOCKS
    requires FileLeaf(c, c[f].inode, n) != 0
    ensures FileLeaf(d, d[f].inode, n) == FileLeaf(c, c[f].inode, n)
  {
    TopIdx(n);
    var p := Locate(n);
    GrowsKeepsLeaf(c, d, lab, f, p.root, RootPtr(c[f].inode, p.root), p.height, p.leaf);
  }

  lemma GrowsTrans(c: Store, d: Store, e: Store)
    requires Grows(c, d) && Grows(d, e)
    ensures Grows(c, e)
  {
    forall l | l in c ensures l in e && e[l].Dat? == c[l].Dat? &&
      (if c[l].Dat? then PtrsKept(c[l], e[l])
       else |c[l].inode.direct| == DIRECT_BLOCKS ==> RootsKept(c[l].inode, e[l].inode))
    {
      assert l in d;
    }
  }

  // Between c and d no inode changed and, among the data blocks, only number w.
  ghost predicate OnlyData(c: Store, d: Store, w: nat) {
    forall l | l in c && l != w && (c[l].Dat? ==> c[l].level == 0) :: l in d && d[l] == c[l]
  }

  // ---------- one block is put ----------

  lemma Relabelled(lab: Labels, l: nat, at: Label, p: nat, want: Label)
    requires Labelled(lab, p, want) && (l in lab ==> lab[l] == at)
    ensures Labelled(lab[l := at], p, want)
  {
  }

  lemma OldNumberGood(c: Store, lab: Labels, l: nat, b: Block, at: Label, k: nat)
    requires k in c && k in lab && k != l && NumberGood(c, lab, k) && (l in lab ==> lab[l] == at)
    ensures NumberGood(c[l := b], lab[l := at], k)
  {
    hide Labelled;
    if lab[k].Node? {
      if lab[k].height > 0 {
        forall j: nat | j < POINTERS
          ensures Labelled(lab[l := at], GetPtr(c[k].data, j),
                           Node(lab[k].file, lab[k].root, lab[k].height - 1, lab[k].idx * POINTERS + j))
        {
          Relabelled(lab, l, at, GetPtr(c[k].data, j),
            Node(lab[k].file, lab[k].root, lab[k].height - 1, lab[k].idx * POINTERS + j));
        }
      }
    } else {
      forall r: nat | r < 13 ensures Labelled(lab[l := at], RootPtr(c[k].inode, r), Node(k, r, RootHeight(r), 0)) {
        Relabelled(lab, l, at, RootPtr(c[k].inode, r), Node(k, r, RootHeight(r), 0));
      }
    }
  }

  lemma PutKeepsTrees(c: Store, lab: Labels, l: nat, b: Block, at: Label)
    requires TreesGood(c, lab) && (l in c ==> lab[l] == at)
    requires NumberGood(c[l := b], lab[l := at], l)
    ensures TreesGood(c[l := b], lab[l := at])
  {
    hide NumberGood;
    var d := c[l := b];
    forall k | k in d ensures NumberGood(d, lab[l := at], k) {
      if k != l {
        assert NumberGood(c, lab, k);
        OldNumberGood(c, lab, l, b, at, k);
      }
    }
  }

  lemma PutLeaf(c: Store, lab: Labels, l: nat, data: Payload, at: Label)
    requires TreesGood(c, lab) && 0 < l < POINTER_LIMIT && at.Node? && at.height == 0
    requires l in c ==> lab[l] == at
    ensures TreesGood(c[l := Dat(0, l, data)], lab[l := at])
    ensures Grows(c, c[l := Dat(0, l, data)]) && OnlyData(c, c[l := Dat(0, l, data)], l)
  {
    PutKeepsTrees(c, lab, l, Dat(0, l, data), at);
    if l in c { assert NumberGood(c, lab, l); }
  }

  // The slots of a block to be put at a label.
  predicate SlotsGood(lab: Labels, data: Payload, at: Label)
    requires at.Node? && at.height > 0
  {
    forall j: nat | j < POINTERS ::
      Labelled(lab, GetPtr(data, j), Node(at.file, at.root, at.height - 1, at.idx * POINTERS + j))
  }

  lemma PutNode(c: Store, lab: Labels, l: nat, data: Payload, at: Label, j: nat, child: nat)
    requires TreesGood(c, lab) && 0 < l < POINTER_LIMIT && at.Node? && at.height > 0
    requires j < POINTERS && 0 < child < POINTER_LIMIT && child != l
    requires l in c ==> lab[l] == at && c[l].Dat? && c[l].data == data
    requires SlotsGood(lab, data, at)
    requires Labelled(lab, child, Node(at.file, at.root, at.height - 1, at.idx * POINTERS + j))
    requires GetPtr(data, j) == 0 || GetPtr(data, j) == child
    ensures var d := c[l := Dat(at.height, l, SetPtr(data, j, child))];
      TreesGood(d, lab[l := at]) && Grows(c, d) && (forall w :: OnlyData(c, d, w))
  {
    var b := Dat(at.height, l, SetPtr(data, j, child));
    var d := c[l := b];
    forall k: nat | k < POINTERS
      ensures GetPtr(b.data, k) == if k == j then child else GetPtr(data, k)
      ensures Labelled(lab[l := at], GetPtr(b.data, k), Node(at.file, at.root, at.height - 1, at.idx * POINTERS + k))
    {
      PtrRoundTrip(data, j, child, k);
      Relabelled(lab, l, at, GetPtr(b.data, k), Node(at.file, at.root, at.height - 1, at.idx * POINTERS + k));
    }
    PutKeepsTrees(c, lab, l, b, at);
    if l in c { assert NumberGood(c, lab, l); }
  }

  lemma PutInode(c: Store, lab: Labels, f: nat, i: Inode, k: Inode)
    requires TreesGood(c, lab) && f in c && c[f] == Ino(i) && InodeGood(lab, f, k)
    requires k.typ == i.typ && forall r: nat | r < 13 && |i.direct| == DIRECT_BLOCKS && RootPtr(i, r) != 0 ::
        RootPtr(k, r) == RootPtr(i, r)
    ensures TreesGood(c[f := Ino(k)], lab) && Grows(c, c[f := Ino(k)])
  {
    assert NumberGood(c, lab, f);
    assert lab[f := InodeOf] == lab;
    PutKeepsTrees(c, lab, f, Ino(k), InodeOf);
  }

  lemma RootsOf(i: Inode, r: nat, p: nat, q: nat)
    requires |i.direct| == DIRECT_BLOCKS && r < 13 && q < 13
    ensures |SetRoot(i, r, p).direct| == DIRECT_BLOCKS
    ensures RootPtr(SetRoot(i, r, p), q) == if q == r then p else RootPtr(i, q)
  {
  }
}
