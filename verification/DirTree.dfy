// Directories in the store of blocks, and what writes keep of them.
module DirTree {
  import opened Blocks
  import opened FileIndex
  import opened FileTree
  import opened FileWrite
  import opened FileEffect
  import opened Dirents
  import opened Directory

  // The number of pointers before the first absent one.
  function LeadingPtrs(ps: seq<nat>): (n: nat)
    ensures n <= |ps|
    ensures forall b: nat | b < n :: ps[b] != 0
    ensures n < |ps| ==> ps[n] == 0
  {
    if ps == [] || ps[0] == 0 then 0 else 1 + LeadingPtrs(ps[1..])
  }

  // The data of the blocks of a directory, in order.
  function DirBlocks(c: Store, i: Inode): seq<Payload> {
    seq(LeadingPtrs(i.direct), b requires 0 <= b < LeadingPtrs(i.direct) => DataOf(c, i.direct[b]))
  }

  // A directory uses a prefix of its direct pointers and no indirect one; its
  // blocks are dense and its names distinct.
  ghost predicate DirGood(c: Store, i: Inode) {
    && |i.direct| == DIRECT_BLOCKS && i.single == 0 && i.double == 0 && i.triple == 0
    && (forall b: nat | LeadingPtrs(i.direct) <= b < DIRECT_BLOCKS :: i.direct[b] == 0)
    && BlocksGood(DirBlocks(c, i)) && GoodEntries(AllEntries(DirBlocks(c, i)))
    && LengthFits(i, i.fileLen, DirBlocks(c, i))
  }

  // Only the root is called "/".
  predicate IsRoot(i: Inode) {
    i.nameLen == 1 && |i.name| >= 1 && i.name[0] == 47
  }

  // The length of a directory counts its entries, from 0 for the root and from 2
  // for the others.
  predicate LengthFits(i: Inode, fileLen: nat, ds: seq<Payload>) {
    fileLen == |AllEntries(ds)| + if IsRoot(i) then 0 else 2
  }

  ghost predicate IsDir(c: Store, f: nat) {
    f in c && c[f].Ino? && c[f].inode.typ == Directory
  }

  ghost predicate FsGood(c: Store, lab: Labels) {
    && FilesGood(c, lab)
    && (forall f | IsDir(c, f) :: DirGood(c, c[f].inode))
  }

  // The entries of a directory, and the number a name stands for in it.
  function DirEntries(c: Store, i: Inode): seq<Dirent> {
    AllEntries(DirBlocks(c, i))
  }

  lemma DirectLeaf(c: Store, i: Inode, b: nat)
    requires |i.direct| == DIRECT_BLOCKS && b < DIRECT_BLOCKS
    ensures FileLeaf(c, i, b) == i.direct[b]
  {
  }

  // A directory that reads as before has the same entries.
  lemma SameDir(c: Store, e: Store, g: nat)
    requires SameFile(c, e, g)
    ensures DirBlocks(e, c[g].inode) == DirBlocks(c, c[g].inode)
    ensures DirGood(c, c[g].inode) ==> DirGood(e, c[g].inode)
  {
    hide FileLeaf, BlocksGood, GoodEntries, AllEntries;
    var i := c[g].inode;
    forall b: nat | b < LeadingPtrs(i.direct) ensures DataOf(e, i.direct[b]) == DataOf(c, i.direct[b]) {
      DirectLeaf(c, i, b);
      DirectLeaf(e, i, b);
      assert b < MAX_BLOCKS;
    }
    assert DirBlocks(e, i) == DirBlocks(c, i);
  }

  // Writing one file keeps all directories but, if it is one, itself.
  lemma OtherDirsStay(c: Store, lab: Labels, e: Store, f: nat)
    requires FsGood(c, lab) && OthersKept(c, e, f) && NoNewInode(c, e) && Grows(c, e)
    ensures forall g | IsDir(e, g) && g != f :: DirGood(e, e[g].inode)
  {
    hide DirGood, FilesGood, SameFile, PtrsKept, RootsKept;
    forall g | IsDir(e, g) && g != f ensures DirGood(e, e[g].inode) {
      assert g in c && c[g].Ino?;
      assert SameFile(c, e, g);
      SameInode(c, e, g);
      assert IsDir(c, g);
      SameDir(c, e, g);
    }
  }

  lemma RegularStay(c: Store, lab: Labels, e: Store, lab': Labels, f: nat)
    requires FilesGood(c, lab) && IsDir(c, f) && IsDir(e, f) && TreesGood(e, lab')
    requires OthersKept(c, e, f) && NoNewInode(c, e) && Grows(c, e)
    ensures FilesGood(e, lab')
  {
    hide SameFile, LeavesPresent, FileBytes, PtrsKept, RootsKept, NumberGood;
    forall g | g in e && e[g].Ino? && e[g].inode.typ == Regular
      ensures |e[g].inode.direct| == DIRECT_BLOCKS && LeavesPresent(e, e[g].inode)
    {
      assert g in c && c[g].Ino?;
      assert SameFile(c, e, g);
      SameInode(c, e, g);
      SameFileBytes(c, e, g);
    }
  }

  lemma {:induction false} LeadingAfter(ps: seq<nat>, b: nat, p: nat)
    requires b < |ps| && b <= LeadingPtrs(ps) && p != 0
    requires forall j: nat | LeadingPtrs(ps) <= j < |ps| :: ps[j] == 0
    ensures LeadingPtrs(ps[b := p]) == if b < LeadingPtrs(ps) then LeadingPtrs(ps) else b + 1
  {
    var qs := ps[b := p];
    if b == 0 {
      assert qs[1..] == ps[1..];
      if ps[0] == 0 && |ps| > 1 { assert ps[1] == 0; }
    } else {
      assert qs[1..] == ps[1..][b - 1 := p];
      forall j: nat | LeadingPtrs(ps[1..]) <= j < |ps[1..]| ensures ps[1..][j] == 0 { assert ps[1..][j] == ps[j + 1]; }
      LeadingAfter(ps[1..], b - 1, p);
    }
  }

  lemma DirRoot(i: Inode, b: nat, number: nat, k: Inode)
    requires |i.direct| == DIRECT_BLOCKS && b < DIRECT_BLOCKS
    requires k == SetRoot(i, Locate(b).root, number).(fileLen := k.fileLen)
    ensures Locate(b).root == b && Locate(b).height == 0
    ensures k.direct == i.direct[b := number] && k.single == i.single && k.double == i.double && k.triple == i.triple
    ensures k.typ == i.typ
  {
  }

  lemma DirDataAfter(c: Store, lab: Labels, d: Store, lab': Labels, e: Store, f: nat, k: Inode,
                     b: nat, number: nat, data: Payload, j: nat)
    requires IsDir(c, f) && b < DIRECT_BLOCKS && j < DIRECT_BLOCKS && |c[f].inode.direct| == DIRECT_BLOCKS
    requires Rooted(c, lab, d, lab', e, f, k, b, number, number, 0, data)
    requires j == b || c[f].inode.direct[j] != 0
    ensures |k.direct| == DIRECT_BLOCKS && e[f] == Ino(k)
    ensures DataOf(e, k.direct[j]) == if j == b then data else DataOf(c, c[f].inode.direct[j])
  {
    hide WroteBelow, TreesGood, FileLeaf, Locate, SetRoot;
    var i := c[f].inode;
    RootedLeaf(c, lab, d, lab', e, f, k, b, number, number, 0, data);
    RootedTrees(c, lab, d, lab', e, f, k, b, number, number, 0, data);
    DirectLeaf(c, i, j);
    DirectLeaf(e, k, j);
    if j == b {
      WrittenData(c, lab, d, lab', e, f, k, b, number, number, 0, data);
      assert Spliced(DataOf(c, FileLeaf(c, i, b)), 0, data) == data;
    } else {
      KeptLeaf(c, lab, d, lab', e, f, k, b, number, number, 0, data, f, j);
    }
  }

  // The blocks of the directory after block b was replaced or added.
  lemma DirBlocksAfter(c: Store, lab: Labels, d: Store, lab': Labels, e: Store, f: nat, k: Inode,
                       b: nat, number: nat, data: Payload)
    requires IsDir(c, f) && DirGood(c, c[f].inode) && b < DIRECT_BLOCKS && b <= LeadingPtrs(c[f].inode.direct)
    requires Rooted(c, lab, d, lab', e, f, k, b, number, number, 0, data)
    ensures DirBlocks(e, k) == if b < LeadingPtrs(c[f].inode.direct)
      then DirBlocks(c, c[f].inode)[b := data] else DirBlocks(c, c[f].inode) + [data]
    ensures |k.direct| == DIRECT_BLOCKS && k.single == 0 && k.double == 0 && k.triple == 0
    ensures forall j: nat | LeadingPtrs(k.direct) <= j < DIRECT_BLOCKS :: k.direct[j] == 0
  {
    hide WroteBelow, BlocksGood, GoodEntries, AllEntries, TreesGood, Locate, SetRoot, DataOf, LeadingPtrs, DirBlocks,
        LengthFits;
    var i := c[f].inode;
    assert number != 0 by { NonZero(c, lab, d, lab', e, f, k, b, number, data); }
    DirRoot(i, b, number, k);
    forall j: nat | j < DIRECT_BLOCKS && (j == b || i.direct[j] != 0)
      ensures DataOf(e, k.direct[j]) == if j == b then data else DataOf(c, i.direct[j])
    {
      DirDataAfter(c, lab, d, lab', e, f, k, b, number, data, j);
    }
    hide Rooted;
    BlocksFollow(c, i, e, k, b, number, data);
  }

  lemma BlocksFollow(c: Store, i: Inode, e: Store, k: Inode, b: nat, number: nat, data: Payload)
    requires |i.direct| == DIRECT_BLOCKS && b < DIRECT_BLOCKS && b <= LeadingPtrs(i.direct)
    requires k.direct == i.direct[b := number] && number != 0
    requires forall j: nat | LeadingPtrs(i.direct) <= j < DIRECT_BLOCKS :: i.direct[j] == 0
    requires |k.direct| == DIRECT_BLOCKS
    requires forall j: nat | j < DIRECT_BLOCKS && (j == b || i.direct[j] != 0) ::
      DataOf(e, k.direct[j]) == if j == b then data else DataOf(c, i.direct[j])
    ensures DirBlocks(e, k) ==
      if b < LeadingPtrs(i.direct) then DirBlocks(c, i)[b := data] else DirBlocks(c, i) + [data]
    ensures forall j: nat | LeadingPtrs(k.direct) <= j < DIRECT_BLOCKS :: k.direct[j] == 0
  {
    hide DataOf, LeadingPtrs;
    LeadingAfter(i.direct, b, number);
    var n := LeadingPtrs(k.direct);
    forall j: nat | j < n ensures j == b || (i.direct[j] != 0 && j < LeadingPtrs(i.direct)) {}
    var x := if b < LeadingPtrs(i.direct) then DirBlocks(c, i)[b := data] else DirBlocks(c, i) + [data];
    assert |x| == n && forall j: nat | j < n :: x[j] == DataOf(e, k.direct[j]);
  }

  lemma NonZero(c: Store, lab: Labels, d: Store, lab': Labels, e: Store, f: nat, k: Inode,
                b: nat, number: nat, data: Payload)
    requires b < MAX_BLOCKS && Rooted(c, lab, d, lab', e, f, k, b, number, number, 0, data)
    ensures number != 0
  {
    hide Locate, Leaf, Spliced, TreesGood, Grows;
  }

  // One block of a directory is replaced or added and the inode points to it.
  lemma DirBlockPut(c: Store, lab: Labels, d: Store, lab': Labels, e: Store, f: nat, k: Inode,
                    b: nat, number: nat, data: Payload)
    requires FsGood(c, lab) && IsDir(c, f) && b < DIRECT_BLOCKS && b <= LeadingPtrs(c[f].inode.direct)
    requires Rooted(c, lab, d, lab', e, f, k, b, number, number, 0, data)
    requires BlocksGood(DirBlocks(e, k)) && GoodEntries(AllEntries(DirBlocks(e, k)))
    requires LengthFits(k, k.fileLen, DirBlocks(e, k))
    ensures FsGood(e, lab') && OthersKept(c, e, f) && LabelsKept(lab, lab') && e[f] == Ino(k) && NoNewInode(c, e)
  {
    hide Locate, FileLeaf, WroteBelow, SameFile, FileBytes, BlocksGood, GoodEntries, AllEntries, LeavesPresent, Leaf;
    hide FilesGood, OthersKept, DirBlocks, SetRoot;
    assert FilesGood(c, lab) && DirGood(c, c[f].inode);
    RootedTrees(c, lab, d, lab', e, f, k, b, number, number, 0, data);
    OthersStay(c, lab, d, lab', e, f, k, b, number, number, 0, data);
    DirBlocksAfter(c, lab, d, lab', e, f, k, b, number, data);
    DirRoot(c[f].inode, b, number, k);
    RegularStay(c, lab, e, lab', f);
    OtherDirsStay(c, lab, e, f);
  }
}
