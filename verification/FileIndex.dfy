// Files as trees of pointer blocks over a store of numbered blocks.
module FileIndex {
  import opened Blocks

  type Store = map<nat, Block>

  // ---------- pointers inside a block ----------

  function Word(b0: int, b1: int, b2: int, b3: int): int {
    b0 + 0x100 * b1 + 0x1_0000 * b2 + 0x100_0000 * b3
  }

  // The 4-byte little-endian pointer in slot j.
  function GetPtr(d: Payload, j: nat): (p: nat)
    requires j < POINTERS
    ensures p < POINTER_LIMIT
  {
    Word(d[4 * j], d[4 * j + 1], d[4 * j + 2], d[4 * j + 3])
  }

  // Byte i of p in little-endian order.
  function Digit(p: nat, i: nat): Byte
    requires i < 4
  {
    if i == 0 then p % 0x100
    else if i == 1 then p / 0x100 % 0x100
    else if i == 2 then p / 0x1_0000 % 0x100
    else p / 0x100_0000 % 0x100
  }

  function SetPtr(d: Payload, j: nat, p: nat): Payload
    requires j < POINTERS && p < POINTER_LIMIT
  {
    d[..4 * j] + [Digit(p, 0), Digit(p, 1), Digit(p, 2), Digit(p, 3)] + d[4 * j + 4..]
  }

  lemma DigitsRoundTrip(p: nat)
    requires p < POINTER_LIMIT
    ensures Word(Digit(p, 0), Digit(p, 1), Digit(p, 2), Digit(p, 3)) == p
  {
    var q := p / 0x100;
    var r := p / 0x1_0000;
    assert q / 0x100 == r && r / 0x100 == p / 0x100_0000;
    assert p == q * 0x100 + p % 0x100;
    assert q == r * 0x100 + q % 0x100;
    assert r == p / 0x100_0000 * 0x100 + r % 0x100;
  }

  lemma PtrRoundTrip(d: Payload, j: nat, p: nat, k: nat)
    requires j < POINTERS && p < POINTER_LIMIT && k < POINTERS
    ensures GetPtr(SetPtr(d, j, p), k) == if k == j then p else GetPtr(d, k)
  {
    hide Digit, Word;
    var e := SetPtr(d, j, p);
    DigitsRoundTrip(p);
    if k != j {
      assert e[4 * k] == d[4 * k] && e[4 * k + 1] == d[4 * k + 1];
      assert e[4 * k + 2] == d[4 * k + 2] && e[4 * k + 3] == d[4 * k + 3];
    }
  }

  // The bytes a pointer is stored as.
  lemma PtrBytes(d: Payload, j: nat, p: nat, q: nat)
    requires j < POINTERS && p < POINTER_LIMIT && q < DATA_SIZE
    ensures SetPtr(d, j, p)[q] ==
      if q == 4 * j then p % 0x100
      else if q == 4 * j + 1 then p / 0x100 % 0x100
      else if q == 4 * j + 2 then p / 0x1_0000 % 0x100
      else if q == 4 * j + 3 then p / 0x100_0000 % 0x100
      else d[q]
  {
  }

  lemma ZeroPtrs(j: nat)
    requires j < POINTERS
    ensures GetPtr(Zeroes(), j) == 0
  {
  }

  // A pointer read from an arbitrary buffer.
  function PtrOf(b: Block, j: nat): nat {
    if b.Dat? && j < POINTERS then GetPtr(b.data, j) else 0
  }

  // ---------- the position of a data block in its tree ----------

  const SINGLE: nat := POINTERS
  const DOUBLE: nat := POINTERS * POINTERS
  const TRIPLE: nat := POINTERS * POINTERS * POINTERS
  const MAX_BLOCKS: nat := DIRECT_BLOCKS + SINGLE + DOUBLE + TRIPLE
  const MAX_FILE: nat := MAX_BLOCKS * DATA_SIZE

  // Pointer root of the inode (0-9 direct, 10-12 the three indirect ones), height
  // of the tree below it, and number of the leaf in that tree.
  datatype Place = Place(root: nat, height: nat, leaf: nat)

  function Locate(n: nat): Place {
    if n < DIRECT_BLOCKS then Place(n, 0, 0)
    else if n < DIRECT_BLOCKS + SINGLE then Place(10, 1, n - DIRECT_BLOCKS)
    else if n < DIRECT_BLOCKS + SINGLE + DOUBLE then Place(11, 2, n - DIRECT_BLOCKS - SINGLE)
    else Place(12, 3, n - DIRECT_BLOCKS - SINGLE - DOUBLE)
  }

  // The number of the level-h node above leaf n, counted from the left.
  function Idx(n: nat, h: nat): nat {
    if h == 0 then n else Idx(n, h - 1) / POINTERS
  }

  // The slot, in the level-h node above leaf n, of the pointer towards n.
  function Slot(n: nat, h: nat): (j: nat)
    requires h > 0
    ensures j < POINTERS
  {
    Idx(n, h - 1) % POINTERS
  }

  lemma ChildIdx(n: nat, h: nat)
    requires h > 0
    ensures Idx(n, h - 1) == Idx(n, h) * POINTERS + Slot(n, h)
  {
  }

  // The index computation of write_one_block_by_indirect_block, by data block
  // index and level digit of the current block.
  function WriterSlot(n: nat, level: nat): nat
    requires DIRECT_BLOCKS <= n
  {
    if n < DIRECT_BLOCKS + SINGLE then n - DIRECT_BLOCKS
    else if n < DIRECT_BLOCKS + SINGLE + DOUBLE then
      var off := n - DIRECT_BLOCKS - SINGLE;
      if level == 2 then off / POINTERS else off % POINTERS
    else
      var off := n - DIRECT_BLOCKS - SINGLE - DOUBLE;
      if level == 3 then off / POINTERS / POINTERS
      else if level == 2 then off / POINTERS % POINTERS
      else off % POINTERS
  }

  // The three slots computed by hodo_read_nth_block, outermost first.
  function ReaderSlots(n: nat): seq<nat>
    requires DIRECT_BLOCKS <= n
  {
    if n < DIRECT_BLOCKS + SINGLE then [n - DIRECT_BLOCKS]
    else if n < DIRECT_BLOCKS + SINGLE + DOUBLE then
      var off := n - (DIRECT_BLOCKS + SINGLE);
      [off / POINTERS, off % POINTERS]
    else
      var off := n - (DIRECT_BLOCKS + SINGLE + DOUBLE);
      [off / (POINTERS * POINTERS), off % (POINTERS * POINTERS) / POINTERS, off % (POINTERS * POINTERS) % POINTERS]
  }

  lemma TwoDigits(l: nat)
    ensures l / (POINTERS * POINTERS) == l / POINTERS / POINTERS
    ensures l % (POINTERS * POINTERS) / POINTERS == l / POINTERS % POINTERS
    ensures l % (POINTERS * POINTERS) % POINTERS == l % POINTERS
  {
    var q, r := l / POINTERS, l % POINTERS;
    var a, b := q / POINTERS, q % POINTERS;
    var low := b * POINTERS + r;
    assert l == a * (POINTERS * POINTERS) + low && low < POINTERS * POINTERS;
    assert l / (POINTERS * POINTERS) == a && l % (POINTERS * POINTERS) == low;
  }

  lemma SlotDigits(l: nat)
    ensures Slot(l, 1) == l % POINTERS
    ensures Slot(l, 2) == l / POINTERS % POINTERS
    ensures Slot(l, 3) == l / POINTERS / POINTERS % POINTERS
  {
    assert Idx(l, 0) == l;
    assert Idx(l, 1) == l / POINTERS;
    assert Idx(l, 2) == l / POINTERS / POINTERS;
  }

  lemma TopDigit(l: nat)
    ensures l < DOUBLE ==> l / POINTERS < POINTERS
    ensures l < TRIPLE ==> l / POINTERS / POINTERS < POINTERS
  {
    var q := l / POINTERS;
    assert l < TRIPLE ==> q < DOUBLE;
  }

  lemma WriterFollowsPath(n: nat, level: nat)
    requires DIRECT_BLOCKS <= n < MAX_BLOCKS && 1 <= level <= Locate(n).height
    ensures WriterSlot(n, level) == Slot(Locate(n).leaf, level)
  {
    hide Slot;
    var l := Locate(n).leaf;
    SlotDigits(l);
    TopDigit(l);
  }

  // The slots towards a leaf below a node of height h, outermost first.
  function PathSlots(l: nat, h: nat): seq<nat> {
    if h == 0 then [] else [Slot(l, h)] + PathSlots(l, h - 1)
  }

  lemma PathSlotsOf(l: nat)
    ensures PathSlots(l, 1) == [Slot(l, 1)]
    ensures PathSlots(l, 2) == [Slot(l, 2), Slot(l, 1)]
    ensures PathSlots(l, 3) == [Slot(l, 3), Slot(l, 2), Slot(l, 1)]
  {
    hide Slot;
    assert PathSlots(l, 0) == [];
    assert PathSlots(l, 1) == [Slot(l, 1)];
    assert PathSlots(l, 2) == [Slot(l, 2)] + PathSlots(l, 1);
  }

  lemma ReaderFollowsPath(n: nat)
    requires DIRECT_BLOCKS <= n < MAX_BLOCKS
    ensures ReaderSlots(n) == PathSlots(Locate(n).leaf, Locate(n).height)
  {
    hide Slot, PathSlots;
    var l := Locate(n).leaf;
    SlotDigits(l);
    TopDigit(l);
    TwoDigits(l);
    PathSlotsOf(l);
  }

  // Locate is a bijection onto the places with a leaf number in range.
  predicate InRange(p: Place) {
    || (p.root < 10 && p.height == 0 && p.leaf == 0)
    || (p.root == 10 && p.height == 1 && p.leaf < SINGLE)
    || (p.root == 11 && p.height == 2 && p.leaf < DOUBLE)
    || (p.root == 12 && p.height == 3 && p.leaf < TRIPLE)
  }

  lemma LocateBijection(p: Place, a: nat, b: nat)
    requires a < MAX_BLOCKS && b < MAX_BLOCKS
    ensures InRange(Locate(a))
    ensures Locate(a) == Locate(b) ==> a == b
    ensures InRange(p) ==> exists n: nat :: n < MAX_BLOCKS && Locate(n) == p
  {
    if InRange(p) {
      var n: nat := if p.root < 10 then p.root
        else p.leaf + (if p.root == 10 then DIRECT_BLOCKS
                       else if p.root == 11 then DIRECT_BLOCKS + SINGLE else DIRECT_BLOCKS + SINGLE + DOUBLE);
      assert Locate(n) == p;
    }
  }

  // A path of slots determines the leaf: the leaf number written in base POINTERS.
  lemma {:induction false} PathDeterminesLeaf(a: nat, b: nat, h: nat)
    requires Idx(a, h) == Idx(b, h) && forall k | 1 <= k <= h :: Slot(a, k) == Slot(b, k)
    ensures a == b
  {
    if h > 0 {
      ChildIdx(a, h);
      ChildIdx(b, h);
      PathDeterminesLeaf(a, b, h - 1);
    }
  }

  // Every data block index and every file position in a block fits a signed 32-bit int.
  lemma IndexFitsInt(n: nat)
    ensures MAX_BLOCKS == 10 + 1022 + 1022 * 1022 + 1022 * 1022 * 1022 < 0x8000_0000
    ensures n < MAX_FILE ==> n / DATA_SIZE < MAX_BLOCKS
  {
  }
}
