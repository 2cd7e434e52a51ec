// The log-structured translation layer of trans.c: the state held in
// mapping_info together with the contents of the zone files it writes to.
module Translation {
  import opened Blocks

  datatype Option<+T> = None | Some(value: T)

  // NUMBER_ZONES, BLOCKS_PER_ZONE and NUMBER_MAPPING_TABLE_ENTRY. Zone files are
  // numbered 0 .. zones-2: file 0 is reserved, file zones-2 is the swap zone.
  datatype Geometry = Geometry(zones: nat, blocks: nat, entries: nat) {
    predicate Valid() {
      4 <= zones <= 65536 && 32 <= blocks <= 65536 &&
        blocks % 32 == 0 && entries % 32 == 0 && zones + entries <= POINTER_LIMIT
    }

    function Swap(): nat
      requires 4 <= zones
    {
      zones - 2
    }
  }

  datatype State = State(
    geo: Geometry,
    table: seq<BlockPos>,
    alloc: set<nat>,
    gc: set<BlockPos>,
    wp: BlockPos,
    swapWp: BlockPos,
    zones: seq<seq<Block>>)

  // ---------- reading ----------

  function ReadAt(s: State, p: BlockPos): Option<Block> {
    if p.zone < |s.zones| && p.block < |s.zones[p.zone]|
    then Some(s.zones[p.zone][p.block]) else None
  }

  // hodo_read_struct: what reading a logical number returns. A number outside
  // the table or a row that was never written yields nothing.
  function Stored(s: State, lbn: nat): Option<Block> {
    if InTable(s, lbn) then ReadAt(s, s.table[lbn - s.geo.zones]) else None
  }

  predicate InTable(s: State, lbn: nat) {
    s.geo.zones <= lbn < s.geo.zones + |s.table|
  }

  // ---------- invariant ----------

  predicate Shape(s: State) {
    && s.geo.Valid()
    && |s.table| == s.geo.entries
    && |s.zones| == s.geo.zones - 1
    && s.zones[0] == []
    && (forall i: nat | i < |s.table| :: s.table[i].zone <= s.geo.Swap() && s.table[i].block < s.geo.blocks)
  }

  // The zone at p holds a block whose own header leads back to p through the table.
  predicate WellOwned(s: State, p: BlockPos) {
    && ReadAt(s, p).Some?
    && InTable(s, Owner(ReadAt(s, p).value))
    && s.table[Owner(ReadAt(s, p).value) - s.geo.zones] == p
  }

  predicate RowGood(s: State, i: nat)
    requires i < |s.table|
  {
    && s.table[i] in s.gc
    && i in s.alloc
    && ReadAt(s, s.table[i]).Some?
    && Owner(ReadAt(s, s.table[i]).value) == s.geo.zones + i
  }

  // Rows, validity bits and block headers agree.
  ghost predicate MapInv(s: State) {
    && (forall i: nat | i < |s.table| && s.table[i].zone != 0 :: RowGood(s, i))
    && (forall p | p in s.gc :: p.zone != 0 && WellOwned(s, p))
  }

  // The data zones are one sequential log ending at wp; the swap zone is empty.
  predicate LogShape(s: State)
    requires Shape(s)
  {
    && 1 <= s.wp.zone <= s.geo.Swap()
    && s.wp.block < s.geo.blocks
    && (forall z: nat | 1 <= z < s.wp.zone :: |s.zones[z]| == s.geo.blocks)
    && |s.zones[s.wp.zone]| == s.wp.block
    && (forall z: nat | s.wp.zone < z <= s.geo.Swap() :: |s.zones[z]| == 0)
    && |s.zones[s.geo.Swap()]| == 0
  }

  ghost predicate Inv(s: State) {
    Shape(s) && LogShape(s) && MapInv(s)
  }

  // ---------- the write path as a function ----------

  // What zonefs does with a one-block write at block offset off of a zone file:
  // anything but an append inside the zone is refused.
  predicate Admitted(s: State, z: nat, off: nat) {
    z < |s.zones| && off == |s.zones[z]| && off < s.geo.blocks
  }

  function Append(s: State, z: nat, off: nat, b: Block): State {
    if Admitted(s, z, off) then s.(zones := s.zones[z := s.zones[z] + [b]]) else s
  }

  function Reset(s: State, z: nat): State {
    if z < |s.zones| then s.(zones := s.zones[z := []]) else s
  }

  function Advance(geo: Geometry, p: BlockPos): BlockPos {
    if p.block + 1 == geo.blocks then BlockPos(p.zone + 1, 0) else BlockPos(p.zone, p.block + 1)
  }

  // hodo_write_struct for a number already chosen.
  function Rewrite(s: State, b: Block, lbn: nat): State
    requires InTable(s, lbn)
  {
    var i := lbn - s.geo.zones;
    var s1 := s.(gc := (s.gc + {s.wp}) - {s.table[i]}, table := s.table[i := s.wp]);
    Append(s1, s.wp.zone, s.wp.block, Stamp(b, lbn)).(wp := Advance(s.geo, s.wp))
  }

  // hodo_write_struct for a number taken from the free ones: a fresh row has no
  // earlier position to invalidate.
  function AllocateAndWrite(s: State, b: Block, lbn: nat): State
    requires InTable(s, lbn)
  {
    var i := lbn - s.geo.zones;
    var s1 := s.(gc := s.gc + {s.wp}, alloc := s.alloc + {i}, table := s.table[i := s.wp]);
    Append(s1, s.wp.zone, s.wp.block, Stamp(b, lbn)).(wp := Advance(s.geo, s.wp))
  }

  // hodo_GC_write_struct.
  function SwapIn(s: State, b: Block, lbn: nat): State
    requires InTable(s, lbn)
  {
    var i := lbn - s.geo.zones;
    var s1 := s.(gc := (s.gc + {s.swapWp}) - {s.table[i]}, table := s.table[i := s.swapWp]);
    var s2 := Append(s1, s.swapWp.zone, s.swapWp.block, b);
    if s.swapWp.block + 1 == s.geo.blocks then s2
    else s2.(swapWp := BlockPos(s.swapWp.zone, s.swapWp.block + 1))
  }

  // A free position of the log.
  predicate HasRoom(s: State) requires s.geo.Valid() { s.wp.zone < s.geo.Swap() }

  // What the caller of hodo_write_struct has to provide for an inode: the number
  // the inode carries.
  predicate Carries(b: Block, lbn: nat) {
    b.Ino? ==> b.inode.ino == lbn
  }

  lemma AppendReads(s: State, z: nat, off: nat, b: Block, p: BlockPos)
    requires Admitted(s, z, off)
    ensures ReadAt(Append(s, z, off, b), p) == if p == BlockPos(z, off) then Some(b) else ReadAt(s, p)
  {
    if p.zone == z {
      assert (s.zones[z] + [b])[..off] == s.zones[z];
    }
  }

  lemma RewriteReads(s: State, b: Block, lbn: nat, p: BlockPos)
    requires InTable(s, lbn) && Admitted(s, s.wp.zone, s.wp.block)
    ensures ReadAt(Rewrite(s, b, lbn), p) == if p == s.wp then Some(Stamp(b, lbn)) else ReadAt(s, p)
    ensures Stamp(b, lbn) == match b case Dat(level, _, data) => Dat(level, lbn, data) case Ino(_) => b
  {
    var i := lbn - s.geo.zones;
    var s1 := s.(gc := (s.gc + {s.wp}) - {s.table[i]}, table := s.table[i := s.wp]);
    AppendReads(s1, s.wp.zone, s.wp.block, Stamp(b, lbn), p);
  }

  lemma RewriteRow(s: State, b: Block, lbn: nat, j: nat)
    requires Inv(s) && HasRoom(s) && InTable(s, lbn) && lbn - s.geo.zones in s.alloc && Carries(b, lbn)
    requires j < |s.table| && Rewrite(s, b, lbn).table[j].zone != 0
    ensures RowGood(Rewrite(s, b, lbn), j)
  {
    assert Admitted(s, s.wp.zone, s.wp.block) by { WritePointerFree(s); }
    RewriteReads(s, b, lbn, s.wp);
    if j != lbn - s.geo.zones {
      assert RowGood(s, j);
      RewriteReads(s, b, lbn, s.table[j]);
    }
  }

  lemma RewriteOwner(s: State, b: Block, lbn: nat, p: BlockPos)
    requires Inv(s) && HasRoom(s) && InTable(s, lbn) && lbn - s.geo.zones in s.alloc && Carries(b, lbn)
    requires p in Rewrite(s, b, lbn).gc
    ensures p.zone != 0 && WellOwned(Rewrite(s, b, lbn), p)
  {
    assert Admitted(s, s.wp.zone, s.wp.block) by { WritePointerFree(s); }
    RewriteReads(s, b, lbn, p);
    if p != s.wp { assert WellOwned(s, p); }
  }

  lemma WritePointerFree(s: State)
    requires Inv(s) && HasRoom(s)
    ensures Admitted(s, s.wp.zone, s.wp.block)
  {
  }

  lemma RewriteMap(s: State, b: Block, lbn: nat)
    requires Inv(s) && HasRoom(s) && InTable(s, lbn) && lbn - s.geo.zones in s.alloc && Carries(b, lbn)
    ensures MapInv(Rewrite(s, b, lbn))
  {
    var t := Rewrite(s, b, lbn);
    forall j: nat | j < |t.table| && t.table[j].zone != 0 ensures RowGood(t, j) { RewriteRow(s, b, lbn, j); }
    forall p | p in t.gc ensures p.zone != 0 && WellOwned(t, p) { RewriteOwner(s, b, lbn, p); }
  }

  lemma RewriteStored(s: State, b: Block, lbn: nat, l: nat)
    requires Shape(s) && InTable(s, lbn) && Admitted(s, s.wp.zone, s.wp.block)
    requires InTable(s, l) && s.table[l - s.geo.zones].zone != 0 ==> RowGood(s, l - s.geo.zones)
    requires s.wp.zone != 0
    ensures Stored(Rewrite(s, b, lbn), l) == if l == lbn then Some(Stamp(b, lbn)) else Stored(s, l)
  {
    if InTable(s, l) {
      RewriteReads(s, b, lbn, Rewrite(s, b, lbn).table[l - s.geo.zones]);
    }
  }

  // Rewriting a number changes what that number reads and nothing else.
  lemma RewriteKeepsInv(s: State, b: Block, lbn: nat)
    requires Inv(s) && HasRoom(s) && InTable(s, lbn) && lbn - s.geo.zones in s.alloc && Carries(b, lbn)
    ensures Inv(Rewrite(s, b, lbn))
    ensures Admitted(s, s.wp.zone, s.wp.block)
    ensures forall l: nat :: Stored(Rewrite(s, b, lbn), l) == if l == lbn then Some(Stamp(b, lbn)) else Stored(s, l)
  {
    hide RowGood, WellOwned, ReadAt, Stored;
    RewriteMap(s, b, lbn);
    forall l: nat ensures Stored(Rewrite(s, b, lbn), l) == if l == lbn then Some(Stamp(b, lbn)) else Stored(s, l) {
      RewriteStored(s, b, lbn, l);
    }
  }

  lemma AllocateReads(s: State, b: Block, lbn: nat, p: BlockPos)
    requires InTable(s, lbn) && Admitted(s, s.wp.zone, s.wp.block)
    ensures ReadAt(AllocateAndWrite(s, b, lbn), p) == if p == s.wp then Some(Stamp(b, lbn)) else ReadAt(s, p)
  {
    var i := lbn - s.geo.zones;
    var s1 := s.(gc := s.gc + {s.wp}, alloc := s.alloc + {i}, table := s.table[i := s.wp]);
    AppendReads(s1, s.wp.zone, s.wp.block, Stamp(b, lbn), p);
  }

  // A number that is not allocated has an empty row.
  lemma FreeRowEmpty(s: State, i: nat)
    requires MapInv(s) && i < |s.table| && i !in s.alloc
    ensures s.table[i].zone == 0
  {
    assert s.table[i].zone != 0 ==> RowGood(s, i);
  }

  lemma AllocateRow(s: State, b: Block, lbn: nat, j: nat)
    requires Inv(s) && HasRoom(s) && InTable(s, lbn) && lbn - s.geo.zones !in s.alloc && b.Dat?
    requires j < |s.table| && AllocateAndWrite(s, b, lbn).table[j].zone != 0
    ensures RowGood(AllocateAndWrite(s, b, lbn), j)
  {
    assert Admitted(s, s.wp.zone, s.wp.block) by { WritePointerFree(s); }
    AllocateReads(s, b, lbn, s.wp);
    if j != lbn - s.geo.zones {
      assert RowGood(s, j);
      AllocateReads(s, b, lbn, s.table[j]);
    }
  }

  lemma AllocateOwner(s: State, b: Block, lbn: nat, p: BlockPos)
    requires Inv(s) && HasRoom(s) && InTable(s, lbn) && lbn - s.geo.zones !in s.alloc && b.Dat?
    requires p in AllocateAndWrite(s, b, lbn).gc
    ensures p.zone != 0 && WellOwned(AllocateAndWrite(s, b, lbn), p)
  {
    assert Admitted(s, s.wp.zone, s.wp.block) by { WritePointerFree(s); }
    AllocateReads(s, b, lbn, p);
    FreeRowEmpty(s, lbn - s.geo.zones);
    if p != s.wp { assert WellOwned(s, p); }
  }

  lemma AllocateMap(s: State, b: Block, lbn: nat)
    requires Inv(s) && HasRoom(s) && InTable(s, lbn) && lbn - s.geo.zones !in s.alloc && b.Dat?
    ensures MapInv(AllocateAndWrite(s, b, lbn))
  {
    var t := AllocateAndWrite(s, b, lbn);
    forall j: nat | j < |t.table| && t.table[j].zone != 0 ensures RowGood(t, j) { AllocateRow(s, b, lbn, j); }
    forall p | p in t.gc ensures p.zone != 0 && WellOwned(t, p) { AllocateOwner(s, b, lbn, p); }
  }

  lemma AllocateStored(s: State, b: Block, lbn: nat, l: nat)
    requires Shape(s) && InTable(s, lbn) && Admitted(s, s.wp.zone, s.wp.block) && s.wp.zone != 0
    requires InTable(s, l) && s.table[l - s.geo.zones].zone != 0 ==> RowGood(s, l - s.geo.zones)
    ensures Stored(AllocateAndWrite(s, b, lbn), l) == if l == lbn then Some(Stamp(b, lbn)) else Stored(s, l)
  {
    if InTable(s, l) {
      AllocateReads(s, b, lbn, AllocateAndWrite(s, b, lbn).table[l - s.geo.zones]);
    }
  }

  // A first write with number 0 stores the block under a number that read as
  // nothing before.
  lemma AllocateKeepsInv(s: State, b: Block, lbn: nat)
    requires Inv(s) && HasRoom(s) && InTable(s, lbn) && lbn - s.geo.zones !in s.alloc && b.Dat?
    ensures Inv(AllocateAndWrite(s, b, lbn)) && Stored(s, lbn) == None
    ensures Admitted(s, s.wp.zone, s.wp.block)
    ensures forall l: nat ::
      Stored(AllocateAndWrite(s, b, lbn), l) == if l == lbn then Some(Stamp(b, lbn)) else Stored(s, l)
  {
    hide RowGood, WellOwned, ReadAt, Stored;
    AllocateMap(s, b, lbn);
    FreshNumber(s, lbn);
    forall l: nat
      ensures Stored(AllocateAndWrite(s, b, lbn), l) == if l == lbn then Some(Stamp(b, lbn)) else Stored(s, l)
    {
      AllocateStored(s, b, lbn, l);
    }
  }

  lemma FreshNumber(s: State, lbn: nat)
    requires Inv(s) && InTable(s, lbn) && lbn - s.geo.zones !in s.alloc
    ensures Stored(s, lbn) == None
  {
    hide RowGood, WellOwned;
    FreeRowEmpty(s, lbn - s.geo.zones);
    assert s.zones[0] == [];
  }
}
