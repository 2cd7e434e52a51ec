// hodo_erase_table_entry: what freeing a logical number does to the invariant, as the
// code does it and as its caller intends it.
module TableErase {
  import opened Blocks
  import opened Translation
  import opened MappingLayer

  lemma EraseOwner(s: State, lbn: nat, p: BlockPos)
    requires Inv(s) && InTable(s, lbn) && p in s.gc
    ensures WellOwned(Erase(s, lbn), p) <==> p != s.table[lbn - s.geo.zones]
  {
    assert WellOwned(s, p);
  }

  lemma EraseRow(s: State, lbn: nat, j: nat)
    requires Inv(s) && InTable(s, lbn) && j < |s.table| && Erase(s, lbn).table[j].zone != 0
    ensures RowGood(Erase(s, lbn), j) <==> j != lbn
    ensures s.table[j].zone != 0 && j != lbn - s.geo.zones
  {
    assert RowGood(s, j);
  }

  lemma EraseShape(s: State, lbn: nat)
    requires Inv(s) && InTable(s, lbn)
    ensures Shape(Erase(s, lbn)) && LogShape(Erase(s, lbn))
    ensures s.table[lbn - s.geo.zones].zone != 0 ==> s.table[lbn - s.geo.zones] in s.gc
    ensures forall p | p in s.gc :: p.zone != 0
    ensures var t, i := Erase(s, lbn), lbn - s.geo.zones;
      && t.gc == s.gc && t.geo == s.geo && |t.table| == |s.table| && i < |t.table| && t.table[i].zone == 0
      && (lbn < |s.table| && lbn != i ==> t.table[lbn] == s.table[lbn])
  {
    assert s.table[lbn - s.geo.zones].zone != 0 ==> RowGood(s, lbn - s.geo.zones);
  }

  // Emptying the row of a mapped number leaves its validity bit without an owner, and
  // the bit cleared may belong to another mapped number; nothing else goes wrong.
  lemma EraseKeepsInvIff(s: State, lbn: nat)
    requires Inv(s) && InTable(s, lbn)
    ensures Inv(Erase(s, lbn)) <==>
      s.table[lbn - s.geo.zones].zone == 0 && (lbn < |s.table| ==> s.table[lbn].zone == 0)
  {
    hide Shape, LogShape, WellOwned, RowGood, Erase;
    var t := Erase(s, lbn);
    var i := lbn - s.geo.zones;
    EraseShape(s, lbn);
    forall p | p in s.gc ensures WellOwned(t, p) <==> p != s.table[i] { EraseOwner(s, lbn, p); }
    forall j: nat | j < |t.table| && t.table[j].zone != 0 ensures (RowGood(t, j) <==> j != lbn) && j != i {
      EraseRow(s, lbn, j);
    }
    assert s.table[i].zone == 0 ==> s.table[i] !in s.gc;
  }

  // When the cleared bit belongs to a mapped number and none below it is free, the
  // allocator hands that number out again, and a first write under it replaces a block
  // that is still in use.
  lemma EraseGivesAwayALiveNumber(s: State, lbn: nat, b: Block)
    requires Inv(s) && HasRoom(s) && InTable(s, lbn) && lbn < |s.table| && b.Dat?
    requires s.table[lbn].zone != 0 && AllocatedBelow(s, lbn)
    ensures IsLeastFree(Erase(s, lbn), lbn)
    ensures Stored(s, s.geo.zones + lbn).Some?
    ensures Stored(Erase(s, lbn), s.geo.zones + lbn) == Stored(s, s.geo.zones + lbn)
    ensures Stored(AllocateAndWrite(Erase(s, lbn), b, s.geo.zones + lbn), s.geo.zones + lbn)
         == Some(Stamp(b, s.geo.zones + lbn))
  {
    assert RowGood(s, lbn);
    AllocateReads(Erase(s, lbn), b, s.geo.zones + lbn, s.wp);
  }

  // The repaired form, which is not in the code: row, allocation bit and validity bit
  // of the same number.
  function Freed(s: State, lbn: nat): State
    requires InTable(s, lbn)
  {
    var i := lbn - s.geo.zones;
    s.(table := s.table[i := s.table[i].(zone := 0)], alloc := s.alloc - {i}, gc := s.gc - {s.table[i]})
  }

  lemma FreedStored(s: State, lbn: nat, l: nat)
    requires Inv(s) && InTable(s, lbn)
    ensures Stored(Freed(s, lbn), l) == if l == lbn then None else Stored(s, l)
  {
  }

  lemma FreedMap(s: State, lbn: nat)
    requires Inv(s) && InTable(s, lbn)
    ensures MapInv(Freed(s, lbn))
  {
    var t := Freed(s, lbn);
    var i := lbn - s.geo.zones;
    forall j: nat | j < |t.table| && t.table[j].zone != 0 ensures RowGood(t, j) {
      assert RowGood(s, j) && j != i;
      assert s.table[i].zone != 0 ==> RowGood(s, i);
    }
    forall p | p in t.gc ensures p.zone != 0 && WellOwned(t, p) {
      assert WellOwned(s, p);
    }
  }

  lemma FreedKeepsInv(s: State, lbn: nat)
    requires Inv(s) && InTable(s, lbn)
    ensures Inv(Freed(s, lbn))
    ensures forall l: nat :: Stored(Freed(s, lbn), l) == if l == lbn then None else Stored(s, l)
  {
    FreedMap(s, lbn);
    hide MapInv, Stored;
    forall l: nat ensures Stored(Freed(s, lbn), l) == if l == lbn then None else Stored(s, l) {
      FreedStored(s, lbn, l);
    }
  }
}
