// The read path of regular files: hodo_read_nth_block of trans.c and
// hodo_file_read_iter of hodo.c.
module FileRead {
  import opened Blocks
  import opened Translation
  import opened MappingLayer
  import opened TranslationRuns
  import opened FileIndex
  import opened FileTree
  import opened FileWrite
  import opened FileOps

  // ---------- one data block ----------

  // An inode and the trees it belongs to.
  ghost predicate Owned(c: Store, lab: Labels, i: Inode) {
    |i.direct| == DIRECT_BLOCKS && TreesGood(c, lab) && i.ino in c && c[i.ino] == Ino(i)
  }

  // Data block n of the file is in place.
  ghost predicate Present(c: Store, i: Inode, n: nat)
    requires |i.direct| == DIRECT_BLOCKS
  {
    n < MAX_BLOCKS && FileLeaf(c, i, n) != 0
  }

  // Pointer p, at height h, is the one on the way to data block n.
  ghost predicate OnTheWay(c: Store, lab: Labels, i: Inode, n: nat, p: nat, h: nat)
    requires |i.direct| == DIRECT_BLOCKS
  {
    && Labelled(lab, p, NodeFor(i.ino, n, h))
    && FileLeaf(c, i, n) == Leaf(c, p, h, Locate(n).leaf)
  }

  // hodo_read_struct with any number: one outside the table makes the code read
  // beyond the table. Such a read is called stray; what it yields is not modelled.
  method TryRead(m: MappingInfo, lbn: nat, buf: Block) returns (out: Block, stray: bool)
    requires m.Sized()
    ensures stray <==> !InTable(m.View(), lbn)
    ensures !stray ==> out == match Stored(m.View(), lbn) case Some(b) => b case None => buf
  {
    stray := !(m.geo.zones <= lbn < m.geo.zones + |m.table|);
    out := buf;
    if !stray {
      out := m.ReadStruct(lbn, buf);
    }
  }

  lemma WayBegins(c: Store, lab: Labels, i: Inode, n: nat)
    requires Owned(c, lab, i) && n < MAX_BLOCKS
    ensures Locate(n).root < 13 && OnTheWay(c, lab, i, n, RootPtr(i, Locate(n).root), Locate(n).height)
  {
    hide Leaf, Idx;
    RootLabel(c, lab, i.ino, n);
  }

  // A pointer on the way is absent, and then the data block is, or leads to a block.
  lemma WayStep(c: Store, lab: Labels, i: Inode, n: nat, p: nat, h: nat)
    requires Owned(c, lab, i) && n < MAX_BLOCKS && OnTheWay(c, lab, i, n, p, h) && h <= Locate(n).height
    ensures p == 0 ==> FileLeaf(c, i, n) == 0
    ensures p != 0 ==> p in c && c[p].Dat?
    ensures p != 0 && h == 0 ==> FileLeaf(c, i, n) == p
    ensures p != 0 && h > 0 ==> OnTheWay(c, lab, i, n, PtrOf(c[p], Slot(Locate(n).leaf, h)), h - 1)
  {
    hide Idx, Locate, Slot, FileLeaf;
    if p != 0 {
      assert NumberGood(c, lab, p);
      if h > 0 { ChildIdx(Locate(n).leaf, h); }
    }
  }

  // One level down: reads the pointer block and takes the pointer in the slot. Slot
  // 1022 and those after it are not in the block.
  method Descend(m: MappingInfo, p: nat, slot: nat, buf: Block, strayed: bool,
                 ghost lab: Labels, ghost i: Inode, ghost n: nat, ghost h: nat)
    returns (temp: Block, q: nat, stray: bool)
    requires m.Sized() && Owned(Contents(m.View()), lab, i) && h > 0
    requires n < MAX_BLOCKS ==> h <= Locate(n).height && slot == Slot(Locate(n).leaf, h)
    requires n < MAX_BLOCKS && strayed ==> FileLeaf(Contents(m.View()), i, n) == 0
    requires n < MAX_BLOCKS && !strayed ==> OnTheWay(Contents(m.View()), lab, i, n, p, h)
    ensures n < MAX_BLOCKS && stray ==> FileLeaf(Contents(m.View()), i, n) == 0
    ensures n < MAX_BLOCKS && !stray ==> OnTheWay(Contents(m.View()), lab, i, n, q, h - 1)
    ensures strayed || slot >= POINTERS ==> stray
  {
    hide Contents, Slot, Idx, Leaf, TreesGood, FileLeaf, OnTheWay;
    ghost var c := Contents(m.View());
    if n < MAX_BLOCKS && !strayed {
      WayStep(c, lab, i, n, p, h);
      if p != 0 { ContentsRead(m.View(), p); }
    }
    var gone;
    temp, gone := TryRead(m, p, buf);
    stray := strayed || gone || slot >= POINTERS;
    q := PtrOf(temp, slot);
  }

  // hodo_read_nth_block: the read strays exactly when the data block is not there.
  method ReadNthBlock(m: MappingInfo, inode: Inode, n: nat, buf: Block, ghost lab: Labels)
    returns (out: Block, stray: bool)
    requires m.Sized() && Owned(Contents(m.View()), lab, inode)
    ensures stray <==> !Present(Contents(m.View()), inode, n)
    ensures !stray ==> var l := FileLeaf(Contents(m.View()), inode, n);
      l in Contents(m.View()) && out == Contents(m.View())[l] && out.Dat?
  {
    hide Contents, Slot, Idx, Leaf, PathSlots, TreesGood, OnTheWay, FileLeaf, ReaderSlots;
    ghost var c := Contents(m.View());
    if n < MAX_BLOCKS { WayBegins(c, lab, inode, n); Roots(inode, n); }
    var temp := Dat(0, 0, Zeroes());
    var p;
    stray := false;
    if n < DIRECT_BLOCKS {
      p := inode.direct[n];
    } else {
      var slots := ReaderSlots(n);
      SlotsOnTheWay(n);
      if n < DIRECT_BLOCKS + SINGLE {
        temp, p, stray := Descend(m, inode.single, slots[0], temp, stray, lab, inode, n, 1);
      } else if n < DIRECT_BLOCKS + SINGLE + DOUBLE {
        temp, p, stray := Descend(m, inode.double, slots[0], temp, stray, lab, inode, n, 2);
        temp, p, stray := Descend(m, p, slots[1], temp, stray, lab, inode, n, 1);
      } else {
        temp, p, stray := Descend(m, inode.triple, slots[0], temp, stray, lab, inode, n, 3);
        temp, p, stray := Descend(m, p, slots[1], temp, stray, lab, inode, n, 2);
        temp, p, stray := Descend(m, p, slots[2], temp, stray, lab, inode, n, 1);
      }
    }
    if n < MAX_BLOCKS && !stray {
      WayStep(c, lab, inode, n, p, 0);
      if p != 0 { ContentsRead(m.View(), p); }
    }
    var gone;
    out, gone := TryRead(m, p, buf);
    stray := stray || gone;
  }

  // The reader's slots are those on the way; past the last block the first one is
  // not in a pointer block.
  lemma SlotsOnTheWay(n: nat)
    requires n >= DIRECT_BLOCKS
    ensures var slots := ReaderSlots(n);
      && |slots| == (if n < DIRECT_BLOCKS + SINGLE then 1 else if n < DIRECT_BLOCKS + SINGLE + DOUBLE then 2 else 3)
      && (n < MAX_BLOCKS ==> |slots| == Locate(n).height)
      && (n < MAX_BLOCKS ==> forall k: nat | k < |slots| :: slots[k] == Slot(Locate(n).leaf, |slots| - k))
      && (n >= MAX_BLOCKS ==> slots[0] >= POINTERS)
  {
    hide Slot, PathSlots;
    if n < MAX_BLOCKS {
      ReaderFollowsPath(n);
      PathSlotsOf(Locate(n).leaf);
    } else {
      TwoDigits(n - (DIRECT_BLOCKS + SINGLE + DOUBLE));
    }
  }

  // ---------- how long a read is ----------

  const TWO31: nat := 0x8000_0000
  const TWO32: nat := 0x1_0000_0000
  const TWO64: nat := 0x1_0000_0000_0000_0000

  // Conversion to a signed 32-bit int.
  function ToInt(x: int): int {
    (x + TWO31) % TWO32 - TWO31
  }

  // The signed length is compared as an unsigned 64-bit number.
  function AsSize(x: int): nat
    requires 0 - TWO31 <= x < TWO31
  {
    if x < 0 then x + TWO64 else x
  }

  // read_len of hodo_file_read_iter, for a position before the end of the file.
  function ReadLen(fileLen: nat, pos: nat, count: nat): int
    requires pos < fileLen
  {
    if count < AsSize(ToInt(fileLen - pos)) then ToInt(count) else ToInt(fileLen - pos)
  }

  lemma ReadLenInRange(fileLen: nat, pos: nat, count: nat)
    requires pos < fileLen && count < TWO31
    ensures 0 <= ReadLen(fileLen, pos, count) <= Min(count, fileLen - pos)
  {
  }

  // The length is the one asked for, up to the end of the file, unless the rest of
  // the file is so long that its low 32 bits are a smaller positive number.
  lemma ReadLenExact(fileLen: nat, pos: nat, count: nat)
    requires pos < fileLen && count < TWO31
    ensures ReadLen(fileLen, pos, count) == Min(count, fileLen - pos) <==>
            !(fileLen - pos >= TWO32 && (fileLen - pos) % TWO32 < count)
    ensures fileLen - pos >= TWO32 && (fileLen - pos) % TWO32 < count ==>
            ReadLen(fileLen, pos, count) == (fileLen - pos) % TWO32
  {
    var r := fileLen - pos;
    if r < TWO31 {
      assert ToInt(r) == r;
    } else if r >= TWO32 {
      var low := r % TWO32;
      if low < TWO31 {
        assert (r + TWO31) % TWO32 == low + TWO31;
        assert ToInt(r) == low;
      } else {
        assert (r + TWO31) % TWO32 == low - TWO31;
      }
    }
  }

  // A file four gigabytes longer than the position reads as if it ended there.
  lemma LongFileReadsNothing(pos: nat, count: nat)
    requires 0 < count < TWO31
    ensures ReadLen(pos + TWO32, pos, count) == 0 < Min(count, TWO32)
  {
  }

  // ---------- the read itself ----------

  function RawData(b: Block): Payload {
    if b.Dat? then b.data else Zeroes()
  }

  // A stretch of a data block is the same stretch of the file.
  lemma BlockSlice(c: Store, i: Inode, k: nat, a: nat, b: nat)
    requires |i.direct| == DIRECT_BLOCKS && a <= b <= DATA_SIZE && k * DATA_SIZE + b <= i.fileLen
    ensures DataOf(c, FileLeaf(c, i, k))[a..b] == FileBytes(c, i)[k * DATA_SIZE + a..k * DATA_SIZE + b]
  {
    hide FileLeaf, DataOf;
    forall q: nat | a <= q < b
      ensures DataOf(c, FileLeaf(c, i, k))[q] == FileBytes(c, i)[k * DATA_SIZE + q]
    {
      assert (k * DATA_SIZE + q) / DATA_SIZE == k && (k * DATA_SIZE + q) % DATA_SIZE == q;
    }
  }

  ghost predicate Readable(c: Store, lab: Labels, i: Inode) {
    Owned(c, lab, i) && LeavesPresent(c, i)
  }

  lemma ReadableShape(c: Store, lab: Labels, i: Inode)
    requires Readable(c, lab, i)
    ensures Owned(c, lab, i) && |FileBytes(c, i)| == i.fileLen
  {
  }

  // Reads the bytes a .. b of data block k; an empty stretch may lie in a block
  // that is not there.
  method ReadPart(m: MappingInfo, inode: Inode, k: nat, a: nat, b: nat, buf: Block, ghost lab: Labels)
    returns (temp: Block, part: seq<Byte>, stray: bool)
    requires m.Sized() && a <= b <= DATA_SIZE && Readable(Contents(m.View()), lab, inode)
    requires k * DATA_SIZE + b <= inode.fileLen
    ensures stray <==> !Present(Contents(m.View()), inode, k)
    ensures k * DATA_SIZE < inode.fileLen ==> !stray
    ensures !stray ==> part == FileBytes(Contents(m.View()), inode)[k * DATA_SIZE + a..k * DATA_SIZE + b]
  {
    hide Contents, FileLeaf, FileBytes, LeavesPresent;
    ghost var c := Contents(m.View());
    temp, stray := ReadNthBlock(m, inode, k, buf, lab);
    part := RawData(temp)[a..b];
    if k * DATA_SIZE < inode.fileLen { LeafThere(c, lab, inode, k); }
    if !stray { BlockSlice(c, inode, k, a, b); }
  }

  lemma LeafThere(c: Store, lab: Labels, i: Inode, k: nat)
    requires TreesGood(c, lab) && i.ino in c && c[i.ino] == Ino(i) && |i.direct| == DIRECT_BLOCKS
    requires LeavesPresent(c, i) && k * DATA_SIZE < i.fileLen
    ensures k < MAX_BLOCKS && FileLeaf(c, i, k) != 0 && FileLeaf(c, i, k) in c && c[FileLeaf(c, i, k)].Dat?
  {
    hide FileLeaf;
    assert k < MAX_BLOCKS;
    assert FileLeaf(c, i, k) != 0;
    FileLeafLabel(c, lab, i.ino, k);
    assert NumberGood(c, lab, FileLeaf(c, i, k));
  }

  // What hodo_file_read_iter returns: a stretch of the file from pos on.
  ghost predicate ReadOutcome(c: Store, f: nat, pos: nat, count: nat, ret: int, out: seq<Byte>)
    requires IsFile(c, f)
  {
    if pos >= c[f].inode.fileLen then
      ret == 0 && out == []
    else
      (ret == ReadLen(c[f].inode.fileLen, pos, count) && 0 <= ret && pos + ret <= c[f].inode.fileLen &&
       out == BytesOf(c, f)[pos..pos + ret])
  }

  lemma Slices<T>(s: seq<T>, a: nat, b: nat, e: nat)
    requires a <= b <= e <= |s|
    ensures s[a..b] + s[b..e] == s[a..e]
  {
  }

  lemma SpanFacts(pos: nat, n: nat)
    ensures var s, e := pos / DATA_SIZE, (pos + n) / DATA_SIZE;
      && pos == s * DATA_SIZE + pos % DATA_SIZE && pos + n == e * DATA_SIZE + (pos + n) % DATA_SIZE
      && s <= e && (s < e ==> pos <= (s + 1) * DATA_SIZE <= e * DATA_SIZE)
      && (s == e ==> (pos + n) % DATA_SIZE == pos % DATA_SIZE + n)
  {
  }

  // The whole blocks first .. end - 1.
  method ReadWholeBlocks(m: MappingInfo, inode: Inode, first: nat, end: nat, buf: Block, ghost lab: Labels)
    returns (temp: Block, out: seq<Byte>, stray: bool)
    requires m.Sized() && Readable(Contents(m.View()), lab, inode) && first <= end && end * DATA_SIZE <= inode.fileLen
    ensures !stray && out == FileBytes(Contents(m.View()), inode)[first * DATA_SIZE..end * DATA_SIZE]
  {
    hide Contents, FileBytes, Readable;
    ReadableShape(Contents(m.View()), lab, inode);
    ghost var bytes := FileBytes(Contents(m.View()), inode);
    var cur := first;
    temp := buf;
    out := [];
    stray := false;
    while cur < end
      invariant first <= cur <= end
      invariant !stray && out == bytes[first * DATA_SIZE..cur * DATA_SIZE]
    {
      var part, gone;
      temp, part, gone := ReadPart(m, inode, cur, 0, DATA_SIZE, temp, lab);
      Slices(bytes, first * DATA_SIZE, cur * DATA_SIZE, (cur + 1) * DATA_SIZE);
      out := out + part;
      stray := stray || gone;
      cur := cur + 1;
    }
  }

  // A read of n bytes from pos looks only at blocks that are there: it stays in one
  // block, ends inside a block, or the block after its end exists.
  ghost predicate StaysInTable(c: Store, i: Inode, pos: nat, n: nat)
    requires |i.direct| == DIRECT_BLOCKS
  {
    || pos / DATA_SIZE == (pos + n) / DATA_SIZE
    || (pos + n) % DATA_SIZE != 0
    || Present(c, i, (pos + n) / DATA_SIZE)
  }

  // The block-wise copy of hodo_file_read_iter: the first block from its offset,
  // whole blocks, and the start of the last one, which is read even when no byte of
  // it is wanted.
  method ReadSpan(m: MappingInfo, inode: Inode, pos: nat, readLen: nat, ghost lab: Labels)
    returns (out: seq<Byte>, stray: bool)
    requires m.Sized() && Readable(Contents(m.View()), lab, inode)
    requires pos < inode.fileLen && pos + readLen <= inode.fileLen
    ensures stray <==> !StaysInTable(Contents(m.View()), inode, pos, readLen)
    ensures !stray ==> out == FileBytes(Contents(m.View()), inode)[pos..pos + readLen]
  {
    hide Contents, FileBytes, Readable, FileLeaf, Present;
    ReadableShape(Contents(m.View()), lab, inode);
    ghost var bytes := FileBytes(Contents(m.View()), inode);
    var startBlock := pos / DATA_SIZE;
    var endBlock := (pos + readLen) / DATA_SIZE;
    var offset := pos % DATA_SIZE;
    SpanFacts(pos, readLen);
    var temp := Dat(0, 0, Zeroes());
    var part;
    if startBlock != endBlock {
      temp, part, stray := ReadPart(m, inode, startBlock, offset, DATA_SIZE, temp, lab);
      out := part;
    } else {
      temp, part, stray := ReadPart(m, inode, startBlock, offset, offset + readLen, temp, lab);
      return part, stray;
    }
    var gone;
    part, gone := ReadRest(m, inode, startBlock + 1, endBlock, (pos + readLen) % DATA_SIZE, temp, lab);
    stray := stray || gone;
    Slices(bytes, pos, (startBlock + 1) * DATA_SIZE, pos + readLen);
    out := out + part;
  }

  // The blocks after the first one of a span, up to byte b of block end.
  method ReadRest(m: MappingInfo, inode: Inode, first: nat, end: nat, b: nat, buf: Block, ghost lab: Labels)
    returns (out: seq<Byte>, stray: bool)
    requires m.Sized() && Readable(Contents(m.View()), lab, inode) && first <= end
    requires b < DATA_SIZE && end * DATA_SIZE + b <= inode.fileLen
    ensures stray <==> b == 0 && !Present(Contents(m.View()), inode, end)
    ensures !stray ==> out == FileBytes(Contents(m.View()), inode)[first * DATA_SIZE..end * DATA_SIZE + b]
  {
    hide Contents, FileBytes, Readable, FileLeaf, Present;
    ReadableShape(Contents(m.View()), lab, inode);
    var temp, part, gone;
    temp, out, stray := ReadWholeBlocks(m, inode, first, end, buf, lab);
    temp, part, gone := ReadPart(m, inode, end, 0, b, temp, lab);
    stray := stray || gone;
    Slices(FileBytes(Contents(m.View()), inode), first * DATA_SIZE, end * DATA_SIZE, end * DATA_SIZE + b);
    out := out + part;
  }

  // The read of count bytes at pos reads beyond the mapping table.
  ghost predicate Strays(c: Store, f: nat, pos: nat, count: nat)
    requires IsFile(c, f) && count < TWO31
  {
    var i := c[f].inode;
    pos < i.fileLen && (ReadLenInRange(i.fileLen, pos, count); !StaysInTable(c, i, pos, ReadLen(i.fileLen, pos, count)))
  }

  method FileReadIter(m: MappingInfo, f: nat, pos: nat, count: nat, ghost lab: Labels)
    returns (ret: int, out: seq<Byte>, stray: bool)
    requires m.Sized() && FilesGood(Contents(m.View()), lab) && IsFile(Contents(m.View()), f) && count < TWO31
    ensures stray <==> Strays(Contents(m.View()), f, pos, count)
    ensures !stray ==> ReadOutcome(Contents(m.View()), f, pos, count, ret, out)
  {
    hide Contents, FileBytes, LeavesPresent, FileLeaf, StaysInTable;
    ContentsRead(m.View(), f);
    var buf := m.ReadStruct(f, Ino(Inode(f, 0, 0, [], Regular, [], 0, 0, 0)));
    var inode := buf.inode;
    if pos >= inode.fileLen {
      return 0, [], false;
    }
    assert NumberGood(Contents(m.View()), lab, f);
    ReadLenInRange(inode.fileLen, pos, count);
    ret := ReadLen(inode.fileLen, pos, count);
    out, stray := ReadSpan(m, inode, pos, ret, lab);
  }

  // When that happens: the read ends at the end of the file, on a block boundary, and
  // no block was ever written there.
  lemma StraysAtTheEnd(c: Store, lab: Labels, f: nat, pos: nat, count: nat)
    requires FilesGood(c, lab) && IsFile(c, f) && count < TWO31 && pos < c[f].inode.fileLen
    ensures var i := c[f].inode;
      var n := ReadLen(i.fileLen, pos, count);
      Strays(c, f, pos, count) <==>
        n > 0 && pos + n == i.fileLen && i.fileLen % DATA_SIZE == 0 && !Present(c, i, i.fileLen / DATA_SIZE)
  {
    hide FileLeaf;
    var i := c[f].inode;
    ReadLenInRange(i.fileLen, pos, count);
    var e := pos + ReadLen(i.fileLen, pos, count);
    SpanFacts(pos, e - pos);
    if e < i.fileLen && e % DATA_SIZE == 0 {
      assert e / DATA_SIZE * DATA_SIZE < i.fileLen && e / DATA_SIZE < MAX_BLOCKS;
    }
  }

  // A file of one full block, as a write of 4088 bytes leaves it.
  function OneBlockFile(f: nat, l: nat): Store {
    map[f := Ino(Inode(f, DATA_SIZE, 1, [97], Regular, [l, 0, 0, 0, 0, 0, 0, 0, 0, 0], 0, 0, 0)),
      l := Dat(0, l, Zeroes())]
  }

  // Reading it to its end strays.
  lemma OneBlockFileStrays(f: nat, l: nat, pos: nat, count: nat)
    requires 0 < f < POINTER_LIMIT && 0 < l < POINTER_LIMIT && f != l
    requires pos < DATA_SIZE && DATA_SIZE - pos <= count < TWO31
    ensures FilesGood(OneBlockFile(f, l), map[f := InodeOf, l := Node(f, 0, 0, 0)])
    ensures IsFile(OneBlockFile(f, l), f) && Strays(OneBlockFile(f, l), f, pos, count)
  {
    hide Idx, Slot;
    var c, lab := OneBlockFile(f, l), map[f := InodeOf, l := Node(f, 0, 0, 0)];
    var i := c[f].inode;
    forall n: nat | n < MAX_BLOCKS && n * DATA_SIZE < i.fileLen ensures FileLeaf(c, i, n) != 0 {
      assert n == 0;
    }
    assert FileLeaf(c, i, 1) == 0;
    ReadLenExact(DATA_SIZE, pos, count);
    StraysAtTheEnd(c, lab, f, pos, count);
  }

  // Reading back what was written, in one call, for any offset and level: the data
  // comes back unless the write ended on a block boundary before a block that is not
  // there.
  lemma ReadAfterWrite(c: Store, d: Store, lab: Labels, f: nat, pos: nat, data: seq<Byte>,
                       ret: int, out: seq<Byte>, stray: bool)
    requires CutAndExtended(c, d, f, pos, data) && 0 < |data| < TWO31 && FilesGood(d, lab)
    requires stray <==> Strays(d, f, pos, |data|)
    requires !stray ==> ReadOutcome(d, f, pos, |data|, ret, out)
    ensures stray <==> (pos + |data|) % DATA_SIZE == 0 && !Present(d, d[f].inode, (pos + |data|) / DATA_SIZE)
    ensures !stray ==> ret == |data| && out == data
  {
    hide FileBytes, FileLeaf, FilesGood;
    assert d[f].inode.fileLen == pos + |data| by {
      CutLength(c, d, f, pos, data);
      assert |BytesOf(d, f)| == pos + |data|;
    }
    ReadLenExact(pos + |data|, pos, |data|);
    StraysAtTheEnd(d, lab, f, pos, |data|);
    assert BytesOf(d, f)[pos..pos + |data|] == data;
  }
}
