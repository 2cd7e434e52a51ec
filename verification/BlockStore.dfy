// The translation layer as its users see it: a store of numbered blocks.
module BlockStore {
  import opened Bitmap
  import opened Blocks
  import opened Counting
  import opened Translation
  import opened MappingLayer
  import opened GcInvariants
  import opened TranslationRuns

  function FreeRows(s: State): set<nat> {
    set i: nat | i < |s.table| && i !in s.alloc
  }

  // Positions left in the log before the swap zone.
  function Room(s: State): int
    requires s.geo.Valid()
  {
    (s.geo.Swap() - s.wp.zone) * s.geo.blocks - s.wp.block
  }

  // n blocks can still be written, each with a number of its own.
  ghost predicate Budget(s: State, n: int) {
    s.geo.Valid() && n <= Room(s) && n <= |FreeRows(s)|
  }

  lemma RoomMeansSpace(s: State)
    requires Inv(s) && Budget(s, 1)
    ensures HasRoom(s) && HasFree(s) && s.wp.block < s.geo.blocks
  {
    if FreeRows(s) != {} {
      var i :| i in FreeRows(s);
    }
  }

  lemma RoomShrinks(s: State, t: State)
    requires s.geo.Valid() && t.geo == s.geo && t.wp == Advance(s.geo, s.wp)
    ensures Room(t) == Room(s) - 1
  {
    var a, n := s.geo.Swap() - s.wp.zone, s.geo.blocks;
    assert (a - 1) * n == a * n - n;
  }

  lemma FreeShrinks(s: State, t: State, i: nat)
    requires |t.table| == |s.table| && s.alloc <= t.alloc <= s.alloc + {i}
    ensures |FreeRows(t)| >= |FreeRows(s)| - 1
  {
    assert FreeRows(s) - {i} <= FreeRows(t);
    SubsetSize(FreeRows(s) - {i}, FreeRows(t));
  }

  lemma BudgetShrinks(s: State, t: State, i: nat, n: int)
    requires t.geo == s.geo && s.geo.Valid() && t.wp == Advance(s.geo, s.wp)
    requires |t.table| == |s.table| && s.alloc <= t.alloc <= s.alloc + {i}
    requires Budget(s, n + 1)
    ensures Budget(t, n)
  {
    RoomShrinks(s, t);
    FreeShrinks(s, t, i);
  }

  ghost predicate Allocated(s: State, l: nat) {
    InTable(s, l) && l - s.geo.zones in s.alloc
  }

  // A number that reads as a block is allocated and carried by that block.
  lemma StoredAllocated(s: State, l: nat)
    requires Inv(s) && l in Contents(s)
    ensures Allocated(s, l) && 0 < l < POINTER_LIMIT && Owner(Contents(s)[l]) == l
  {
    var i := l - s.geo.zones;
    assert s.table[i].zone != 0 ==> RowGood(s, i);
  }

  // hodo_write_struct.
  method StoreBlock(m: MappingInfo, b: Block, lbn: nat) returns (number: nat)
    requires m.Sized() && Inv(m.View()) && Budget(m.View(), 1)
    requires if lbn == 0 then b.Dat? else Allocated(m.View(), lbn) && Carries(b, lbn)
    modifies m
    ensures m.Sized() && Inv(m.View())
    ensures lbn != 0 ==> number == lbn
    ensures lbn == 0 ==> !Allocated(old(m.View()), number) && number !in old(Contents(m.View()))
    ensures 0 < number < POINTER_LIMIT
    ensures Contents(m.View()) == old(Contents(m.View()))[number := Stamp(b, number)]
    ensures forall l: nat :: Allocated(m.View(), l) <==> l == number || Allocated(old(m.View()), l)
    ensures forall n: int :: Budget(old(m.View()), n + 1) ==> Budget(m.View(), n)
  {
    hide Members, GcPositions, MapInv, LogShape, Stored, Contents, Room, FreeRows, Replay;
    ghost var s := m.View();
    RoomMeansSpace(s);
    assert lbn != 0 ==> m.OnDevice(s.table[lbn - s.geo.zones]);
    var ok;
    number, ok := m.WriteStruct(b, lbn);
    ghost var t := m.View();
    if lbn == 0 {
      AllocateKeepsInv(s, b, number);
      assert number !in Contents(s) by { NothingStored(s, number); }
    } else {
      RewriteKeepsInv(s, b, lbn);
    }
    PutContents(s, t, Stamp(b, number), number);
    forall n: int | Budget(s, n + 1) ensures Budget(t, n) {
      BudgetShrinks(s, t, number - s.geo.zones, n);
    }
  }

  lemma NothingStored(s: State, l: nat)
    requires Stored(s, l) == None
    ensures l !in Contents(s)
  {
  }

  // ---------- the room a collection leaves ----------

  // The zone at the write pointer holds no more live blocks than blocks.
  lemma LastZoneLive(s: State)
    requires Inv(s)
    ensures |LiveIn(s, s.wp.zone)| <= s.wp.block
  {
    forall p | p in LiveIn(s, s.wp.zone) ensures p in FirstOf(s.wp.zone, s.wp.block) { assert WellOwned(s, p); }
    SubsetSize(LiveIn(s, s.wp.zone), FirstOf(s.wp.zone, s.wp.block));
  }

  lemma LiveBlocks(s: State)
    requires Inv(s) && PrefixesRoomy(s)
    ensures |s.gc| <= (s.wp.zone - 1) * (s.geo.blocks - 1) + s.wp.block
  {
    LiveZones(s);
    LastZoneLive(s);
    FullZonesLive(s, s.wp.zone - 1);
    hide MapInv, Shape, LogShape, LiveUpTo, LiveIn, PrefixesRoomy;
  }

  lemma FullZonesLive(s: State, k: nat)
    requires s.geo.Valid() && PrefixesRoomy(s) && k + 2 < s.geo.zones
    ensures |LiveUpTo(s, k)| <= k * (s.geo.blocks - 1)
  {
    if k == 0 {
      assert LiveUpTo(s, 0) == {};
    } else {
      assert Roomy(s, k);
    }
  }

  lemma LiveZones(s: State)
    requires Inv(s)
    ensures |s.gc| == |LiveUpTo(s, s.wp.zone - 1)| + |LiveIn(s, s.wp.zone)|
    ensures 1 <= s.wp.zone && s.wp.zone - 1 + 2 < s.geo.zones && s.geo.Valid()
  {
    var k := s.wp.zone - 1;
    forall p | p in s.gc ensures p in LiveUpTo(s, k) + LiveIn(s, k + 1) { assert WellOwned(s, p); }
    assert s.gc == LiveUpTo(s, k) + LiveIn(s, k + 1);
    assert LiveUpTo(s, k) !! LiveIn(s, k + 1);
  }

  // Position q of zone w after the live blocks were packed n - 1 to a zone, against
  // position r of zone k before.
  lemma PackedPosition(n: nat, w: nat, q: nat, k: nat, r: nat)
    requires n > 1 && q + 1 < n && r < n && w * (n - 1) + q <= k * (n - 1) + r
    ensures w * n + q <= k * n + r + 1
  {
    MulPred(w, n);
    MulPred(k, n);
    if w > k {
      MulLess(w, k, n - 1);
      if w > k + 1 {
        MulAtLeast(w - k, 2, n - 1);
        assert false;
      }
    }
  }

  lemma PackedSize(s: State, t: State)
    requires Inv(s) && Inv(t) && CompactLog(s, t)
    ensures t.geo == s.geo && FreeRows(t) == FreeRows(s) && 1 <= t.wp.zone && 1 <= s.wp.zone
    ensures s.geo.blocks > 1 && t.wp.block + 1 < s.geo.blocks && s.wp.block < s.geo.blocks
    ensures |s.gc| == (t.wp.zone - 1) * (s.geo.blocks - 1) + t.wp.block
  {
    hide MapInv;
  }

  // The write pointer after a collection, against the one before.
  lemma PackedLog(s: State, t: State)
    requires Inv(s) && PrefixesRoomy(s) && Inv(t) && CompactLog(s, t)
    ensures t.geo == s.geo && FreeRows(t) == FreeRows(s)
    ensures (t.wp.zone - 1) * s.geo.blocks + t.wp.block <= (s.wp.zone - 1) * s.geo.blocks + s.wp.block + 1
  {
    hide *;
    PackedSize(s, t);
    LiveBlocks(s);
    PackedPosition(s.geo.blocks, t.wp.zone - 1, t.wp.block, s.wp.zone - 1, s.wp.block);
  }

  // A collection that loses no block uses up at most one position, and no number.
  lemma CollectionKeepsBudget(s: State, t: State, n: int)
    requires Inv(s) && PrefixesRoomy(s) && Inv(t) && CompactLog(s, t) && Budget(s, n + 1)
    ensures Budget(t, n)
  {
    hide Inv, CompactLog, PrefixesRoomy, Room, FreeRows;
    PackedLog(s, t);
    RoomLeft(s);
    RoomLeft(t);
  }

  lemma NoneIsLeft(t: State)
    requires Inv(t)
    ensures Budget(t, 0)
  {
    RoomLeft(t);
  }

  // Room, counted from the start of the log.
  lemma RoomLeft(s: State)
    requires Inv(s)
    ensures Room(s) == (s.geo.Swap() - 1) * s.geo.blocks - ((s.wp.zone - 1) * s.geo.blocks + s.wp.block)
    ensures Room(s) >= 0
  {
    var a, w := s.geo.Swap(), s.wp.zone;
    var b := s.geo.blocks;
    hide MapInv, Shape, LogShape;
    RoomSides(a, w, b);
  }

  lemma RoomSides(a: int, w: int, b: nat)
    ensures (a - w) * b == (a - 1) * b - (w - 1) * b
    ensures w < a ==> (a - w) * b >= b
  {
    MulLess(a, w, b);
    MulLess(a, 1, b);
    MulLess(w, 1, b);
    if w < a { MulAtLeast(a - w, 1, b); }
  }
}
