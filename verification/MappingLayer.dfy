// struct hodo_mapping_info as a mutable object, with the zone files it drives.
// Every method is proved against the functions of module Translation.
module MappingLayer {
  import opened Blocks
  import opened Bitmap
  import opened Translation

  const NO_NUMBER: int := -1

  ghost predicate HasFree(s: State) {
    exists i: nat :: i < |s.table| && i !in s.alloc
  }

  predicate AllocatedBelow(s: State, i: nat) {
    forall j: nat | j < i :: j in s.alloc
  }

  // Row i is the smallest row whose number is not allocated.
  predicate IsLeastFree(s: State, i: nat) {
    i < |s.table| && i !in s.alloc && AllocatedBelow(s, i)
  }

  // The positions the collector still has to visit: valid, in a data zone, at or
  // after zone `from`.
  function Sources(s: State, from: nat): set<BlockPos> {
    set p | p in s.gc && from <= p.zone && p.zone + 2 < s.geo.zones
  }

  predicate IsFirstSource(s: State, p: BlockPos) {
    p in Sources(s, s.wp.zone) && forall q | q in Sources(s, s.wp.zone) :: !Before(q, p)
  }

  // The positions whose bit is set in GC_bitmap.
  function GcPositions(rows: seq<seq<Word>>): set<BlockPos> {
    set z: nat, b: nat | z < |rows| && b in Members(rows[z]) :: BlockPos(z, b)
  }

  function PutGc(rows: seq<seq<Word>>, p: BlockPos, v: bool): seq<seq<Word>>
    requires p.zone < |rows| && p.block < WORD_BITS * |rows[p.zone]|
  {
    rows[p.zone := Put(rows[p.zone], p.block / WORD_BITS, p.block % WORD_BITS, v)]
  }

  lemma PutGcPositions(rows: seq<seq<Word>>, p: BlockPos, v: bool)
    requires p.zone < |rows| && p.block < WORD_BITS * |rows[p.zone]|
    ensures GcPositions(PutGc(rows, p, v)) == if v then GcPositions(rows) + {p} else GcPositions(rows) - {p}
  {
    var after := PutGc(rows, p, v);
    PutMembers(rows[p.zone], p.block / WORD_BITS, p.block % WORD_BITS, v);
    forall q: BlockPos ensures q in GcPositions(after) <==> if q == p then v else q in GcPositions(rows) {
      assert q in GcPositions(after) <==> q.zone < |rows| && q.block in Members(after[q.zone]);
      assert q in GcPositions(rows) <==> q.zone < |rows| && q.block in Members(rows[q.zone]);
    }
  }

  // hodo_erase_table_entry as written: the row of lbn is emptied, but the allocation
  // bit cleared is the one with index lbn, and the validity bit stays.
  function Erase(s: State, lbn: nat): State
    requires InTable(s, lbn)
  {
    var i := lbn - s.geo.zones;
    s.(table := s.table[i := s.table[i].(zone := 0)], alloc := s.alloc - {lbn})
  }

  class MappingInfo {
    const geo: Geometry
    var table: seq<BlockPos>
    var logicalBitmap: seq<Word>
    var gcBitmap: seq<seq<Word>>
    var wp: BlockPos
    var swapWp: BlockPos
    var zones: seq<seq<Block>>   // the zone files under seq/

    predicate Sized()
      reads this
    {
      && geo.Valid()
      && |table| == geo.entries == WORD_BITS * |logicalBitmap|
      && |gcBitmap| == geo.zones
      && (forall z: nat | z < |gcBitmap| :: WORD_BITS * |gcBitmap[z]| == geo.blocks)
      && |zones| == geo.zones - 1
    }

    predicate OnDevice(p: BlockPos) {
      p.zone < geo.zones && p.block < geo.blocks
    }

    function View(): State
      reads this
    {
      State(geo, table, Members(logicalBitmap), GcPositions(gcBitmap), wp, swapWp, zones)
    }

    // hodo_init on a freshly formatted device, up to the write of the root inode.
    constructor (g: Geometry)
      requires g.Valid()
      ensures geo == g && Sized()
      ensures View() == State(g, seq(g.entries, _ => BlockPos(0, 0)), {}, {},
                              BlockPos(1, 0), BlockPos(g.Swap(), 0), seq(g.zones - 1, _ => []))
    {
      geo := g;
      table := seq(g.entries, _ => BlockPos(0, 0));
      logicalBitmap := seq(g.entries / WORD_BITS, _ => ALL_ZEROES);
      gcBitmap := seq(g.zones, _ => seq(g.blocks / WORD_BITS, _ => ALL_ZEROES));
      wp := BlockPos(1, 0);
      swapWp := BlockPos(g.zones - 2, 0);
      zones := seq(g.zones - 1, _ => []);
      new;
      assert forall i: nat | i < g.entries :: !logicalBitmap[i / WORD_BITS][i % WORD_BITS];
      assert forall z: nat, b: nat | z < |gcBitmap| && b < WORD_BITS * |gcBitmap[z]| ::
          !gcBitmap[z][b / WORD_BITS][b % WORD_BITS];
      assert Members(logicalBitmap) == {};
      assert GcPositions(gcBitmap) == {};
    }

    // ---------- bitmaps ----------

    method SetLogicalBitmap(i: nat, j: nat)
      requires Sized() && i < |logicalBitmap| && j < WORD_BITS
      modifies this`logicalBitmap
      ensures Sized()
      ensures View() == old(View()).(alloc := old(View()).alloc + {i * WORD_BITS + j})
    {
      PutMembers(logicalBitmap, i, j, true);
      logicalBitmap := Put(logicalBitmap, i, j, true);
    }

    method UnsetLogicalBitmap(i: nat, j: nat)
      requires Sized() && i < |logicalBitmap| && j < WORD_BITS
      modifies this`logicalBitmap
      ensures Sized()
      ensures View() == old(View()).(alloc := old(View()).alloc - {i * WORD_BITS + j})
    {
      PutMembers(logicalBitmap, i, j, false);
      logicalBitmap := Put(logicalBitmap, i, j, false);
    }

    // For the last geo.zones numbers the bit is past the end of the bitmap, in a field
    // that nothing uses as long as there are at most 64 zones.
    method EraseTableEntry(lbn: nat)
      requires Sized() && InTable(View(), lbn) && geo.zones <= 64
      modifies this`table, this`logicalBitmap
      ensures Sized() && View() == Erase(old(View()), lbn)
      ensures var i := lbn - geo.zones;
        View() == old(View()).(table := old(table)[i := old(table)[i].(zone := 0)], alloc := old(View()).alloc - {lbn})
    {
      var i := lbn - geo.zones;
      assert lbn >= |table| ==> lbn !in Members(logicalBitmap);
      table := table[i := table[i].(zone := 0)];
      if lbn / WORD_BITS < |logicalBitmap| {
        UnsetLogicalBitmap(lbn / WORD_BITS, lbn % WORD_BITS);
        assert lbn / WORD_BITS * WORD_BITS + lbn % WORD_BITS == lbn;
      }
    }

    // The least free logical number, marked as taken; -1 when all are taken.
    method GetNextLogicalNumber() returns (n: int)
      requires Sized()
      modifies this`logicalBitmap
      ensures Sized()
      ensures n == NO_NUMBER <==> !HasFree(old(View()))
      ensures n == NO_NUMBER ==> View() == old(View())
      ensures n != NO_NUMBER ==> n >= geo.zones && IsLeastFree(old(View()), n - geo.zones)
      ensures n != NO_NUMBER ==> View() == old(View()).(alloc := old(View()).alloc + {n - geo.zones})
    {
      var i := 0;
      while i < |logicalBitmap|
        invariant i <= |logicalBitmap|
        invariant logicalBitmap == old(logicalBitmap)
        invariant AllocatedBelow(View(), i * WORD_BITS)
      {
        if logicalBitmap[i] != ALL_ONES {
          var j := 0;
          while j < WORD_BITS
            invariant j <= WORD_BITS
            invariant logicalBitmap == old(logicalBitmap)
            invariant AllocatedBelow(View(), i * WORD_BITS + j)
            invariant forall m: nat | m < j :: logicalBitmap[i][m]
          {
            MemberBit(logicalBitmap, i, j);
            if !logicalBitmap[i][j] {
              SetLogicalBitmap(i, j);
              return geo.zones + (i * WORD_BITS + j);
            }
            j := j + 1;
          }
          assert false;
        }
        UniformWord(logicalBitmap, i, true);
        i := i + 1;
      }
      return NO_NUMBER;
    }

    method SetGcBitmap(p: BlockPos)
      requires Sized() && p.zone < geo.zones && p.block < geo.blocks
      modifies this`gcBitmap
      ensures Sized()
      ensures View() == old(View()).(gc := old(View()).gc + {p})
    {
      PutGcPositions(gcBitmap, p, true);
      gcBitmap := PutGc(gcBitmap, p, true);
    }

    method UnsetGcBitmap(p: BlockPos)
      requires Sized() && p.zone < geo.zones && p.block < geo.blocks
      modifies this`gcBitmap
      ensures Sized()
      ensures View() == old(View()).(gc := old(View()).gc - {p})
    {
      PutGcPositions(gcBitmap, p, false);
      gcBitmap := PutGc(gcBitmap, p, false);
    }

    // hodo_get_next_GC_valid: the first valid position at or after zone wp.zone,
    // or zone 0 when there is none.
    method GetNextGcValid() returns (p: BlockPos)
      requires Sized() && 1 <= wp.zone
      ensures p.zone == 0 <==> Sources(View(), wp.zone) == {}
      ensures p.zone != 0 ==> IsFirstSource(View(), p)
      ensures p.zone != 0 ==> forall q | q in View().gc && wp.zone <= q.zone && q.zone + 2 < geo.zones ::
                p.zone < q.zone || (p.zone == q.zone && p.block <= q.block)
    {
      var i := wp.zone;
      while i < geo.zones - 2
        invariant wp.zone <= i
        invariant forall q | q in Sources(View(), wp.zone) :: i <= q.zone
      {
        var j := 0;
        while j < geo.blocks / WORD_BITS
          invariant j <= |gcBitmap[i]|
          invariant forall q | q in Sources(View(), wp.zone) :: i <= q.zone
          invariant forall q | q in Sources(View(), wp.zone) && q.zone == i :: j * WORD_BITS <= q.block
        {
          if gcBitmap[i][j] != ALL_ZEROES {
            var k := 0;
            while k < WORD_BITS
              invariant k <= WORD_BITS
              invariant forall q | q in Sources(View(), wp.zone) && q.zone == i :: j * WORD_BITS + k <= q.block
              invariant forall m: nat | m < k :: !gcBitmap[i][j][m]
            {
              MemberBit(gcBitmap[i], j, k);
              if gcBitmap[i][j][k] {
                p := BlockPos(i, j * WORD_BITS + k);
                assert p in Sources(View(), wp.zone);
                assert forall q | q in View().gc && wp.zone <= q.zone && q.zone + 2 < geo.zones ::
                    q in Sources(View(), wp.zone);
                return;
              }
              k := k + 1;
            }
            assert false;
          }
          UniformWord(gcBitmap[i], j, false);
          assert forall q | q in Sources(View(), wp.zone) && q.zone == i :: q.block in Members(gcBitmap[i]);
          j := j + 1;
        }
        i := i + 1;
      }
      return BlockPos(0, 0);
    }

    // ---------- block input and output ----------

    // A read past the end of the zone file transfers nothing and leaves the buffer.
    method GcReadStruct(p: BlockPos, buf: Block) returns (out: Block)
      ensures out == match ReadAt(View(), p) case Some(b) => b case None => buf
    {
      out := buf;
      if p.zone < |zones| && p.block < |zones[p.zone]| {
        out := zones[p.zone][p.block];
      }
    }

    // hodo_read_struct. The code indexes the table without a check, so a caller with a
    // number outside it, as 0 for an absent pointer, reads beyond the table.
    method ReadStruct(lbn: nat, buf: Block) returns (out: Block)
      requires Sized() && InTable(View(), lbn)
      ensures out == match Stored(View(), lbn) case Some(b) => b case None => buf
    {
      out := GcReadStruct(table[lbn - geo.zones], buf);
    }

    // zonefs_file_dio_write for one block: only an append at the write pointer.
    method AppendBlock(z: nat, off: nat, b: Block) returns (ok: bool)
      requires Sized()
      modifies this`zones
      ensures ok == Admitted(old(View()), z, off)
      ensures View() == Append(old(View()), z, off, b)
    {
      ok := z < |zones| && off == |zones[z]| && off < geo.blocks;
      if ok {
        zones := zones[z := zones[z] + [b]];
      }
    }

    // zonefs_file_truncate to size 0.
    method ResetZone(z: nat)
      requires Sized()
      modifies this`zones
      ensures Sized() && View() == Reset(old(View()), z)
    {
      if z < |zones| {
        zones := zones[z := []];
      }
    }

    // Writes one block at the write pointer, giving it a number first if it has none.
    method WriteStruct(buf: Block, lbn: nat) returns (number: nat, ok: bool)
      requires Sized() && wp.zone < geo.zones && wp.block < geo.blocks
      requires lbn == 0 ==> HasFree(View())
      requires lbn != 0 ==> InTable(View(), lbn) && OnDevice(table[lbn - geo.zones])
      modifies this
      ensures Sized()
      ensures lbn != 0 ==> number == lbn && View() == Rewrite(old(View()), buf, lbn)
      ensures lbn == 0 ==> number >= geo.zones && IsLeastFree(old(View()), number - geo.zones)
      ensures lbn == 0 ==> View() == AllocateAndWrite(old(View()), buf, number)
      ensures ok == Admitted(old(View()), old(wp).zone, old(wp).block)
    {
      hide Members, GcPositions;
      ghost var s0 := View();
      number := lbn;
      SetGcBitmap(wp);
      if number == 0 {
        var n := GetNextLogicalNumber();
        number := n;
      } else {
        UnsetGcBitmap(table[number - geo.zones]);
      }
      table := table[number - geo.zones := wp];
      assert lbn != 0 ==> View() == s0.(gc := (s0.gc + {s0.wp}) - {s0.table[lbn - geo.zones]},
                                        table := s0.table[lbn - geo.zones := s0.wp]);
      assert lbn == 0 ==> View() == s0.(gc := s0.gc + {s0.wp}, alloc := s0.alloc + {number - geo.zones},
                                        table := s0.table[number - geo.zones := s0.wp]);
      hide Admitted;
      ok := AppendToLog(Stamp(buf, number));
    }

    // The end of hodo_write_struct: the block goes to the write pointer, which moves on
    // whatever the device says.
    method AppendToLog(b: Block) returns (ok: bool)
      requires Sized() && wp.block < geo.blocks
      modifies this`zones, this`wp
      ensures Sized()
      ensures View() == Append(old(View()), old(wp).zone, old(wp).block, b).(wp := Advance(geo, old(wp)))
      ensures ok == Admitted(old(View()), old(wp).zone, old(wp).block)
    {
      hide Members, GcPositions;
      ok := AppendBlock(wp.zone, wp.block, b);
      if wp.block + 1 == geo.blocks {
        wp := BlockPos(wp.zone + 1, 0);
      } else {
        wp := BlockPos(wp.zone, wp.block + 1);
      }
    }

    // Writes one block into the swap zone.
    method GcWriteStruct(buf: Block, lbn: nat) returns (ok: bool)
      requires Sized() && swapWp.zone < geo.zones && swapWp.block < geo.blocks && InTable(View(), lbn)
      requires OnDevice(table[lbn - geo.zones])
      modifies this
      ensures Sized() && View() == SwapIn(old(View()), buf, lbn)
      ensures ok == Admitted(old(View()), old(swapWp).zone, old(swapWp).block)
    {
      hide Members, GcPositions;
      SetGcBitmap(swapWp);
      UnsetGcBitmap(table[lbn - geo.zones]);
      table := table[lbn - geo.zones := swapWp];
      ok := AppendBlock(swapWp.zone, swapWp.block, buf);
      if swapWp.block + 1 != geo.blocks {
        swapWp := BlockPos(swapWp.zone, swapWp.block + 1);
      }
    }
  }
}
