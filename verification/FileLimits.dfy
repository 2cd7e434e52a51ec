// How long a file can get, and what the 32-bit length of a read makes of it.
module FileLimits {
  import opened Blocks
  import opened Counting
  import opened Translation
  import opened TranslationRuns
  import opened FileIndex
  import opened FileTree
  import opened FileWrite
  import opened FileOps
  import opened FileRead

  // The numbers lo .. lo + n - 1.
  function Interval(lo: nat, n: nat): (r: set<nat>)
    ensures |r| == n && forall l: nat :: l in r <==> lo <= l < lo + n
  {
    if n == 0 then {} else Interval(lo, n - 1) + {lo + n - 1}
  }

  // The numbers of the first k data blocks.
  function Leaves(c: Store, i: Inode, k: nat): set<nat>
    requires |i.direct| == DIRECT_BLOCKS
  {
    if k == 0 then {} else Leaves(c, i, k - 1) + {FileLeaf(c, i, k - 1)}
  }

  lemma {:induction false} LeavesAre(c: Store, i: Inode, k: nat, l: nat)
    requires |i.direct| == DIRECT_BLOCKS && l in Leaves(c, i, k)
    ensures exists n: nat :: n < k && FileLeaf(c, i, n) == l
  {
    hide FileLeaf;
    if l != FileLeaf(c, i, k - 1) { LeavesAre(c, i, k - 1, l); }
  }

  lemma {:induction false} LeavesCounted(c: Store, lab: Labels, f: nat, k: nat)
    requires FilesGood(c, lab) && IsFile(c, f) && k * DATA_SIZE < c[f].inode.fileLen + DATA_SIZE
    ensures |Leaves(c, c[f].inode, k)| == k
    ensures forall l | l in Leaves(c, c[f].inode, k) :: l in c
  {
    hide FileLeaf, LeavesPresent;
    var i := c[f].inode;
    if k > 0 {
      LeavesCounted(c, lab, f, k - 1);
      assert NumberGood(c, lab, f);
      LeafThere(c, lab, i, k - 1);
      if FileLeaf(c, i, k - 1) in Leaves(c, i, k - 1) {
        LeavesAre(c, i, k - 1, FileLeaf(c, i, k - 1));
        var n: nat :| n < k - 1 && FileLeaf(c, i, n) == FileLeaf(c, i, k - 1);
        LeavesDisjoint(c, lab, f, f, k - 1, n);
        assert false;
      }
    }
  }

  // No file has more data blocks than the table has rows.
  lemma FileFitsTable(s: State, lab: Labels, f: nat)
    requires FilesGood(Contents(s), lab) && IsFile(Contents(s), f)
    ensures Contents(s)[f].inode.fileLen <= DATA_SIZE * |s.table|
  {
    var c := Contents(s);
    var i := c[f].inode;
    var k := (i.fileLen + DATA_SIZE - 1) / DATA_SIZE;
    LeavesCounted(c, lab, f, k);
    forall l | l in Leaves(c, i, k) ensures l in Interval(s.geo.zones, |s.table|) {}
    SubsetSize(Leaves(c, i, k), Interval(s.geo.zones, |s.table|));
  }

  // Below 4 GiB of table rows the length of every read is exact.
  lemma SmallTableReadsExactly(s: State, lab: Labels, f: nat, pos: nat, count: nat)
    requires FilesGood(Contents(s), lab) && IsFile(Contents(s), f) && pos < Contents(s)[f].inode.fileLen
    requires count < TWO31 && DATA_SIZE * |s.table| < TWO32
    ensures ReadLen(Contents(s)[f].inode.fileLen, pos, count) == Min(count, Contents(s)[f].inode.fileLen - pos)
  {
    hide Contents, FilesGood;
    FileFitsTable(s, lab, f);
    ReadLenExact(Contents(s)[f].inode.fileLen, pos, count);
  }

  // NUMBER_MAPPING_TABLE_ENTRY of hodo.h.
  const HODO_ROWS: nat := 0x10_0000

  // So it is with the constants of hodo.h, whatever the files.
  lemma HodoReadsExactly(s: State, lab: Labels, f: nat, pos: nat, count: nat)
    requires FilesGood(Contents(s), lab) && IsFile(Contents(s), f) && pos < Contents(s)[f].inode.fileLen
    requires count < TWO31 && |s.table| == HODO_ROWS
    ensures ReadLen(Contents(s)[f].inode.fileLen, pos, count) == Min(count, Contents(s)[f].inode.fileLen - pos)
  {
    hide Contents, FilesGood, ReadLen;
    SmallTableReadsExactly(s, lab, f, pos, count);
  }
}
