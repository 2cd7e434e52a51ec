// GC() of trans.c. Its loops are methods of their own; s0 is the state at entry.
module GarbageCollector {
  import opened Bitmap
  import opened Blocks
  import opened Translation
  import opened MappingLayer
  import opened GcInvariants

  lemma OwnedInTable(s: State, p: BlockPos)
    requires Shape(s) && WellOwned(s, p)
    ensures ReadAt(s, p).Some? && Owner(ReadAt(s, p).value) != 0 && InTable(s, Owner(ReadAt(s, p).value))
    ensures s.table[Owner(ReadAt(s, p).value) - s.geo.zones] == p
    ensures p.zone < s.geo.zones && p.block < s.geo.blocks
  {
  }

  // One valid block goes to the swap zone.
  method MoveOneIn(m: MappingInfo, p: BlockPos, buf: Block, ghost s0: State) returns (temp: Block)
    requires m.Sized() && Underway(s0, m.View(), m.wp.zone, 0) && CanMoveIn(m.View(), p)
    modifies m
    ensures m.Sized() && Underway(s0, m.View(), m.wp.zone, 0)
    ensures m.wp == old(m.wp) && m.swapWp == BlockPos(old(m.swapWp).zone, old(m.swapWp).block + 1)
    ensures Sources(m.View(), m.wp.zone) == old(Sources(m.View(), m.wp.zone)) - {p}
    ensures p in old(Sources(m.View(), m.wp.zone))
  {
    hide MapInv, Sound, Lost, PrefixesRoomy, WellOwned;
    ghost var s := m.View();
    MoveInStep(s0, s, p);
    OwnedInTable(s, p);
    temp := m.GcReadStruct(p, buf);
    var ok := m.GcWriteStruct(temp, Owner(temp));
    assert ok && m.View() == MoveIn(s, p);
  }

  // One block comes back from position q of the swap zone.
  method CopyOneBack(m: MappingInfo, q: nat, buf: Block, ghost s0: State) returns (temp: Block)
    requires m.Sized() && Underway(s0, m.View(), m.wp.zone + 1, q) && CanCopyOut(m.View(), q)
    modifies m
    ensures m.Sized() && Underway(s0, m.View(), m.wp.zone + 1, q + 1)
    ensures m.wp == BlockPos(old(m.wp).zone, q + 1) && m.swapWp == old(m.swapWp)
    ensures Sources(m.View(), m.wp.zone + 1) == old(Sources(m.View(), m.wp.zone + 1))
    ensures Held(m.View()) && ReadAt(m.View(), LastCopied(m.View())) == Some(temp)
  {
    hide MapInv, Sound, Lost, PrefixesRoomy, WellOwned;
    ghost var s := m.View();
    CopyOutStep(s0, s, q);
    OwnedInTable(s, SwapAt(s, q));
    temp := m.GcReadStruct(BlockPos(m.geo.zones - 2, q), buf);
    var number, ok := m.WriteStruct(temp, Owner(temp));
    assert ok && m.View() == CopyOut(s, SwapAt(s, q));
  }

  // The read of the last swap position is past the end of the file: the buffer
  // keeps the block copied last, which is written again.
  method CopyLastAgain(m: MappingInfo, buf: Block, ghost s0: State) returns (temp: Block)
    requires m.Sized() && Underway(s0, m.View(), m.wp.zone + 1, m.swapWp.block)
    requires AtLastSlot(m.View(), m.swapWp.block) && Held(m.View())
    requires ReadAt(m.View(), LastCopied(m.View())) == Some(buf)
    modifies m
    ensures m.Sized() && m.wp == BlockPos(old(m.wp).zone + 1, 0) && m.swapWp == old(m.swapWp)
    ensures Underway(s0, m.View(), m.wp.zone, m.swapWp.block)
    ensures Sources(m.View(), m.wp.zone) == old(Sources(m.View(), m.wp.zone + 1))
  {
    hide MapInv, Sound, Lost, PrefixesRoomy, WellOwned;
    ghost var s := m.View();
    DuplicateStep(s0, s, m.swapWp.block);
    OwnedInTable(s, LastCopied(s));
    temp := m.GcReadStruct(BlockPos(m.geo.zones - 2, m.geo.blocks - 1), buf);
    assert temp == buf;
    var number, ok := m.WriteStruct(temp, Owner(temp));
    assert ok && m.View() == CopyOut(s, LastCopied(s));
  }

  // Copies a full swap zone back.
  method CopyBackFull(m: MappingInfo, buf: Block, ghost s0: State) returns (temp: Block)
    requires m.Sized() && Underway(s0, m.View(), m.wp.zone + 1, 0)
    requires m.wp.block == 0 && m.swapWp.block + 1 == m.geo.blocks
    modifies m
    ensures m.Sized() && m.wp == BlockPos(old(m.wp).zone + 1, 0) && m.swapWp == old(m.swapWp)
    ensures Underway(s0, m.View(), m.wp.zone, m.swapWp.block)
    ensures Sources(m.View(), m.wp.zone) == old(Sources(m.View(), m.wp.zone + 1))
  {
    hide Running, Sound, Lost, PrefixesRoomy, WellOwned;
    temp := buf;
    var swapOut := 0;
    ghost var k := m.wp.zone;
    while true
      invariant m.Sized() && swapOut < m.geo.blocks
      invariant m.wp == BlockPos(k, swapOut) && m.swapWp == old(m.swapWp)
      invariant Underway(s0, m.View(), k + 1, swapOut)
      invariant Sources(m.View(), k + 1) == old(Sources(m.View(), m.wp.zone + 1))
      invariant swapOut > 0 ==> Held(m.View()) && ReadAt(m.View(), LastCopied(m.View())) == Some(temp)
      decreases m.geo.blocks - swapOut
    {
      if swapOut == m.geo.blocks - 1 {
        temp := CopyLastAgain(m, temp, s0);
        break;
      }
      temp := CopyOneBack(m, swapOut, temp, s0);
      swapOut := swapOut + 1;
    }
  }

  // Copies back what is left in the swap zone when no valid block remains.
  method CopyBackPartial(m: MappingInfo, buf: Block, ghost s0: State)
    requires m.Sized() && Underway(s0, m.View(), m.wp.zone + 1, 0)
    requires m.wp.block == 0 && m.swapWp.block + 1 < m.geo.blocks
    modifies m
    ensures m.Sized() && m.wp == BlockPos(old(m.wp).zone, m.swapWp.block) && m.swapWp == old(m.swapWp)
    ensures Underway(s0, m.View(), m.wp.zone + 1, m.swapWp.block)
    ensures Sources(m.View(), m.wp.zone + 1) == old(Sources(m.View(), m.wp.zone + 1))
  {
    hide Running, Sound, Lost, PrefixesRoomy, WellOwned;
    var temp := buf;
    var swapOut := 0;
    ghost var k := m.wp.zone;
    while swapOut < m.swapWp.block
      invariant m.Sized() && swapOut <= m.swapWp.block
      invariant m.wp == BlockPos(k, swapOut) && m.swapWp == old(m.swapWp)
      invariant Underway(s0, m.View(), k + 1, swapOut)
      invariant Sources(m.View(), k + 1) == old(Sources(m.View(), m.wp.zone + 1))
    {
      temp := CopyOneBack(m, swapOut, temp, s0);
      swapOut := swapOut + 1;
    }
  }

  // The swap zone reached its threshold: the zone at the write pointer is reset
  // and takes the swapped blocks back.
  method SwapOut(m: MappingInfo, buf: Block, ghost s0: State) returns (temp: Block)
    requires m.Sized() && Underway(s0, m.View(), m.wp.zone, 0) && m.swapWp.block + 1 == m.geo.blocks
    modifies m
    ensures m.Sized() && Underway(s0, m.View(), m.wp.zone, 0) && m.swapWp.block == 0
    ensures Sources(m.View(), m.wp.zone) <= old(Sources(m.View(), m.wp.zone))
  {
    hide MapInv, Sound, Lost, PrefixesRoomy, WellOwned;
    ResetStep(s0, m.View());
    m.ResetZone(m.wp.zone);
    temp := CopyBackFull(m, buf, s0);
    SwapResetStep(s0, m.View());
    m.ResetZone(m.swapWp.zone);
    m.swapWp := BlockPos(m.swapWp.zone, 0);
  }

  // The main loop: live blocks pass through the swap zone until none is left to visit.
  method SwapAll(m: MappingInfo, ghost s0: State) returns (temp: Block)
    requires m.Sized() && Underway(s0, m.View(), m.wp.zone, 0) && m.swapWp.block == 0 && 1 <= m.wp.zone
    modifies m
    ensures m.Sized() && Underway(s0, m.View(), m.wp.zone, 0) && m.wp.block == 0
    ensures Sources(m.View(), m.wp.zone) == {} && m.swapWp.block + 1 < m.geo.blocks
    ensures m.swapWp.zone == m.geo.Swap() && 1 <= m.wp.zone
  {
    hide MapInv, Sound, Lost, PrefixesRoomy, WellOwned;
    temp := Dat(0, 0, Zeroes());
    var validPos := m.GetNextGcValid();
    while validPos.zone != 0
      invariant m.Sized() && Underway(s0, m.View(), m.wp.zone, 0)
      invariant m.swapWp.block + 1 < m.geo.blocks
      invariant validPos.zone == 0 <==> Sources(m.View(), m.wp.zone) == {}
      invariant validPos.zone != 0 ==> IsFirstSource(m.View(), validPos)
      decreases Sources(m.View(), m.wp.zone)
    {
      temp := MoveOneIn(m, validPos, temp, s0);
      if m.swapWp.block >= m.geo.blocks - 1 {
        temp := SwapOut(m, temp, s0);
      }
      validPos := m.GetNextGcValid();
    }
  }

  // Resets the zones first .. last.
  method ResetZones(m: MappingInfo, first: nat, last: nat)
    requires m.Sized()
    modifies m`zones
    ensures m.Sized() && m.View() == old(m.View()).(zones := m.zones)
    ensures forall z: nat | z < |m.zones| :: m.zones[z] == (if first <= z <= last then [] else old(m.zones)[z])
  {
    var i := first;
    while i <= last
      invariant first <= i
      invariant m.Sized() && m.View() == old(m.View()).(zones := m.zones)
      invariant forall z: nat | z < |m.zones| ::
          m.zones[z] == (if first <= z <= last && z < i then [] else old(m.zones)[z])
    {
      m.ResetZone(i);
      i := i + 1;
    }
  }

  // The blocks left in the swap zone come back to the zone at the write pointer.
  method CopyTail(m: MappingInfo, buf: Block, ghost s0: State) returns (ghost from: nat)
    requires m.Sized() && Underway(s0, m.View(), m.wp.zone, 0) && m.wp.block == 0
    requires Sources(m.View(), m.wp.zone) == {} && m.swapWp.block + 1 < m.geo.blocks
    modifies m
    ensures m.Sized() && Underway(s0, m.View(), from, m.swapWp.block) && m.swapWp == old(m.swapWp)
    ensures Done(m.View(), from) && (from > m.wp.zone ==> m.wp.block > 0) && m.wp.block + 1 < m.geo.blocks
  {
    hide MapInv, Sound, Lost, PrefixesRoomy, WellOwned, Members, GcPositions;
    from := m.wp.zone;
    if m.swapWp.block != 0 {
      ResetStep(s0, m.View());
      m.ResetZone(m.wp.zone);
      from := from + 1;
      CopyBackPartial(m, buf, s0);
    }
  }

  // The swap zone and the zones after the log become empty.
  method CloseLog(m: MappingInfo, last: nat)
    requires m.Sized() && Shape(m.View()) && m.swapWp.zone == m.geo.zones - 2
    requires m.swapWp.block == |m.zones[m.swapWp.zone]|
    modifies m`zones
    ensures m.Sized() && Shape(m.View()) && ClosedTo(old(m.View()), m.View(), last + 1)
  {
    hide Members, GcPositions;
    if m.swapWp.block != 0 {
      m.ResetZone(m.swapWp.zone);
    }
    var start := if m.wp.block == 0 then m.wp.zone else m.wp.zone + 1;
    ResetZones(m, start, last);
  }

  // The collector. It keeps the log well formed on every run; every number reads
  // back its block exactly when zones 1 .. k held at most k * (blocks - 1) live
  // blocks for every data zone k, and then the live blocks are compacted stably.
  method GC(m: MappingInfo)
    requires m.Sized() && Inv(m.View())
    modifies m
    ensures m.Sized() && Collected(old(m.View()), m.View())
    ensures Transparent(old(m.View()), m.View()) <==> PrefixesRoomy(old(m.View()))
  {
    hide Collected, MapInv, Sound, Lost, PrefixesRoomy, WellOwned, CompactLog, Transparent, LogShape, Members,
        GcPositions, ClosedTo, Done;
    ghost var s0 := m.View();
    var prevWp := m.wp;
    m.wp := BlockPos(1, 0);
    m.swapWp := BlockPos(m.geo.zones - 2, 0);
    StartStep(s0);
    var temp := SwapAll(m, s0);
    ghost var from := CopyTail(m, temp, s0);
    ghost var s := m.View();
    CloseLog(m, prevWp.zone);
    EndStep(s0, s, m.View(), from);
    TransparentIffRoomy(s0, m.View());
  }
}
