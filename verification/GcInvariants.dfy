// The garbage collector of trans.c: what every step of a run keeps.
module GcInvariants {
  import opened Blocks
  import opened Counting
  import opened Translation
  import opened MappingLayer

  // ---------- what the collector promises, and when ----------

  // Every number reads back the same block.
  ghost predicate Transparent(s0: State, s: State) {
    s.geo == s0.geo && |s.table| == |s0.table| && forall l: nat :: Stored(s, l) == Stored(s0, l)
  }

  // Some number that read as a block no longer reads as that block.
  ghost predicate LosesABlock(s0: State, s: State) {
    exists l: nat :: Stored(s0, l).Some? && Stored(s, l) != Stored(s0, l)
  }

  function LiveUpTo(s: State, k: nat): set<BlockPos> {
    set p | p in s.gc && 1 <= p.zone <= k
  }

  // Zones 1 .. k hold at most k * (blocks - 1) live blocks.
  ghost predicate Roomy(s: State, k: nat)
    requires s.geo.Valid()
  {
    |LiveUpTo(s, k)| <= k * (s.geo.blocks - 1)
  }

  ghost predicate PrefixesRoomy(s: State)
    requires s.geo.Valid()
  {
    forall k: nat | 1 <= k && k + 2 < s.geo.zones :: Roomy(s, k)
  }

  // ---------- the order in which blocks travel ----------

  // Copied-out blocks come first, then the swap zone, then the zones not yet visited.
  function Phase(s: State, from: nat, p: BlockPos): nat
    requires s.geo.Valid()
  {
    if p.zone == s.geo.Swap() then 1 else if p.zone < from then 0 else 2
  }

  predicate Earlier(s: State, from: nat, p: BlockPos, q: BlockPos)
    requires s.geo.Valid()
  {
    Phase(s, from, p) < Phase(s, from, q) || (Phase(s, from, p) == Phase(s, from, q) && Before(p, q))
  }

  ghost predicate Ordered(s0: State, s: State, from: nat)
    requires s.geo.Valid() && |s.table| == |s0.table|
  {
    forall i: nat, j: nat | i < |s.table| && j < |s.table| &&
        s0.table[i].zone != 0 && s0.table[j].zone != 0 && Before(s0.table[i], s0.table[j]) ::
      Earlier(s, from, s.table[i], s.table[j])
  }

  // ---------- step invariants ----------

  // Holds on every run. `from` is the first zone still to be visited, `out` the
  // number of swap blocks already copied back.
  ghost predicate Running(s0: State, s: State, from: nat, out: nat) {
    && Shape(s)
    && s.geo == s0.geo && |s.zones| == |s0.zones|
    && 1 <= s.wp.zone <= s.geo.Swap() && s.wp.block < s.geo.blocks
    && s.wp.zone <= from <= s.wp.zone + 1
    && s.swapWp.zone == s.geo.Swap()
    && out <= s.swapWp.block == |s.zones[s.geo.Swap()]| < s.geo.blocks
    && (out < s.swapWp.block ==> s.wp.zone < s.geo.Swap())
    && (forall z: nat | 1 <= z < s.wp.zone :: |s.zones[z]| == s.geo.blocks)
    && (forall z: nat | from <= z < s.geo.Swap() :: s.zones[z] == s0.zones[z])
    && (from == s.wp.zone ==> s.wp.block == 0)
    && (from > s.wp.zone ==> |s.zones[s.wp.zone]| == s.wp.block == out && s.wp.zone < s.geo.Swap())
    && (forall p | p in Sources(s, from) :: WellOwned(s, p))
    && (forall q: nat | out <= q < s.swapWp.block :: InSwap(s, q))
  }

  ghost predicate InSwap(s: State, q: nat)
    requires s.geo.Valid()
  {
    BlockPos(s.geo.Swap(), q) in s.gc && WellOwned(s, BlockPos(s.geo.Swap(), q))
  }

  // Positions that hold copied-out blocks: all of them but the one before last in
  // each zone already closed.
  predicate Compacted(s: State, from: nat, p: BlockPos)
    requires s.geo.Valid()
  {
    && 1 <= p.zone && p.block < s.geo.blocks
    && (if p.zone < s.wp.zone then p.block + 2 != s.geo.blocks
        else p.zone == s.wp.zone && from > s.wp.zone && p.block < s.wp.block)
  }

  predicate Waiting(s: State, out: nat, p: BlockPos)
    requires s.geo.Valid()
  {
    p.zone == s.geo.Swap() && out <= p.block < s.swapWp.block
  }

  // The valid positions are exactly those of the three phases.
  ghost predicate Exact(s: State, from: nat, out: nat)
    requires s.geo.Valid()
  {
    forall p :: p in s.gc <==> p in Sources(s, from) || Waiting(s, out, p) || Compacted(s, from, p)
  }

  // The blocks not yet visited lie where they lay, and all others were moved.
  ghost predicate Counted(s0: State, s: State, from: nat, out: nat)
    requires s.geo.Valid()
  {
    && |s.table| == |s0.table|
    && (forall i: nat | i < |s.table| && s.table[i] in Sources(s, from) :: s0.table[i] == s.table[i])
    && Sources(s, from) <= s0.gc
    && |s0.gc - Sources(s, from)| == (s.wp.zone - 1) * (s.geo.blocks - 1) + s.wp.block + (s.swapWp.block - out)
  }

  // Holds as long as no live block was lost.
  ghost predicate Sound(s0: State, s: State, from: nat, out: nat)
    requires s.geo.Valid() && s0.geo.Valid()
  {
    && Transparent(s0, s)
    && MapInv(s)
    && s.alloc == s0.alloc
    && Exact(s, from, out)
    && Ordered(s0, s, from)
    && Counted(s0, s, from, out)
    && (forall k: nat | 1 <= k < s.wp.zone :: Roomy(s0, k))
  }

  // Row i was left pointing at a zone that has been reset under it.
  predicate Lost(s0: State, s: State, from: nat, i: nat) {
    && i < |s.table| == |s0.table|
    && s.table[i] == s0.table[i]
    && 1 <= s.table[i].zone < from
    && (match ReadAt(s, s.table[i]) case Some(b) => Owner(b) != s.geo.zones + i case None => true)
  }

  // ---------- one block moves ----------

  // t is s after the well-owned block at p was appended at the unwritten position d.
  ghost predicate Moves(s: State, t: State, p: BlockPos, d: BlockPos) {
    && Shape(s) && Shape(t) && t.geo == s.geo && t.alloc == s.alloc
    && p in s.gc && WellOwned(s, p) && ReadAt(s, d) == None && d.zone != 0
    && t.table == s.table[Owner(ReadAt(s, p).value) - s.geo.zones := d]
    && t.gc == s.gc + {d} - {p}
    && (forall q :: ReadAt(t, q) == if q == d then ReadAt(s, p) else ReadAt(s, q))
  }

  lemma MoveKeepsRow(s: State, t: State, p: BlockPos, d: BlockPos, j: nat)
    requires Moves(s, t, p, d) && j < |s.table| && RowGood(s, j)
    ensures RowGood(t, j)
  {
  }

  lemma MoveKeepsRead(s: State, t: State, p: BlockPos, d: BlockPos, l: nat)
    requires Moves(s, t, p, d)
    requires InTable(s, l) && s.table[l - s.geo.zones].zone != 0 ==> RowGood(s, l - s.geo.zones)
    ensures Stored(t, l) == Stored(s, l)
  {
  }

  lemma MoveKeepsMap(s: State, t: State, p: BlockPos, d: BlockPos)
    requires Moves(s, t, p, d) && MapInv(s)
    ensures MapInv(t) && Transparent(s, t)
  {
    var i := Owner(ReadAt(s, p).value) - s.geo.zones;
    assert p.zone != 0;
    forall j: nat | j < |t.table| && t.table[j].zone != 0 ensures RowGood(t, j) {
      assert RowGood(s, j);
      MoveKeepsRow(s, t, p, d, j);
    }
    forall q | q in t.gc ensures q.zone != 0 && WellOwned(t, q) {
      if q != d { MoveKeepsOthers(s, t, p, d, q); }
    }
    forall l: nat ensures Stored(t, l) == Stored(s, l) {
      MoveKeepsRead(s, t, p, d, l);
    }
  }

  // A row that lost its block stays lost: no block on the move belongs to it.
  lemma MoveKeepsLost(s0: State, s: State, t: State, p: BlockPos, d: BlockPos, from: nat, i: nat)
    requires Moves(s, t, p, d) && Lost(s0, s, from, i)
    ensures Lost(s0, t, from, i)
  {
  }

  lemma MoveKeepsOthers(s: State, t: State, p: BlockPos, d: BlockPos, q: BlockPos)
    requires Moves(s, t, p, d) && WellOwned(s, q) && q != p
    ensures WellOwned(t, q)
  {
  }

  lemma TransparentTrans(s0: State, s: State, t: State)
    requires Transparent(s0, s) && Transparent(s, t)
    ensures Transparent(s0, t)
  {
  }

  // A row that was live at the start is still live.
  lemma LiveRow(s0: State, s: State, i: nat)
    requires Shape(s0) && Shape(s) && Transparent(s0, s) && MapInv(s0) && MapInv(s)
    requires i < |s.table| && s0.table[i].zone != 0
    ensures s.table[i].zone != 0 && RowGood(s, i)
  {
    assert RowGood(s0, i);
    assert Stored(s, s0.geo.zones + i) == Stored(s0, s0.geo.zones + i);
  }

  // Among the valid positions, d takes the place of p in the travelling order.
  ghost predicate SameSlot(s: State, from: nat, p: BlockPos, d: BlockPos)
    requires s.geo.Valid()
  {
    forall x | x in s.gc && x != p ::
      && (Earlier(s, from, x, p) ==> Earlier(s, from, x, d))
      && (Earlier(s, from, p, x) ==> Earlier(s, from, d, x))
  }

  lemma MoveKeepsPair(s: State, t: State, p: BlockPos, d: BlockPos, from: nat, a: nat, b: nat)
    requires Moves(s, t, p, d) && SameSlot(s, from, p, d) && a < |s.table| && b < |s.table|
    requires RowGood(s, a) && RowGood(s, b) && Earlier(s, from, s.table[a], s.table[b])
    ensures Earlier(t, from, t.table[a], t.table[b])
  {
    hide Earlier;
    assert t.table[a] == if s.table[a] == p then d else s.table[a];
    assert t.table[b] == if s.table[b] == p then d else s.table[b];
    EarlierIrreflexive(s, from, s.table[a], s.table[b]);
    SamePhases(s, t, from, t.table[a], t.table[b]);
  }

  lemma EarlierIrreflexive(s: State, from: nat, p: BlockPos, q: BlockPos)
    requires s.geo.Valid() && Earlier(s, from, p, q)
    ensures p != q
  {
  }

  lemma SamePhases(s: State, t: State, from: nat, p: BlockPos, q: BlockPos)
    requires s.geo.Valid() && t.geo == s.geo
    ensures Earlier(t, from, p, q) == Earlier(s, from, p, q)
  {
  }

  lemma MoveKeepsOrder(s0: State, s: State, t: State, p: BlockPos, d: BlockPos, from: nat)
    requires Moves(s, t, p, d) && SameSlot(s, from, p, d)
    requires Shape(s0) && MapInv(s0) && Transparent(s0, s) && MapInv(s) && Ordered(s0, s, from)
    ensures Ordered(s0, t, from)
  {
    assert |t.table| == |s.table| == |s0.table|;
    hide SameSlot, MapInv, Transparent, RowGood, Earlier, WellOwned;
    forall a: nat, b: nat | a < |t.table| && b < |t.table| &&
        s0.table[a].zone != 0 && s0.table[b].zone != 0 && Before(s0.table[a], s0.table[b])
      ensures Earlier(t, from, t.table[a], t.table[b])
    {
      LiveRow(s0, s, a);
      LiveRow(s0, s, b);
      MoveKeepsPair(s, t, p, d, from, a, b);
    }
  }

  // ---------- zones are reset ----------

  // t is s after the zones lo .. hi were reset.
  ghost predicate Emptied(s: State, t: State, lo: nat, hi: nat) {
    && Shape(s) && Shape(t) && t.geo == s.geo && t.alloc == s.alloc && t.table == s.table && t.gc == s.gc
    && (forall q :: ReadAt(t, q) == if lo <= q.zone <= hi then None else ReadAt(s, q))
  }

  predicate Vacant(s: State, lo: nat, hi: nat) {
    forall p | p in s.gc :: p.zone < lo || hi < p.zone
  }

  lemma EmptiedKeepsRow(s: State, t: State, lo: nat, hi: nat, j: nat)
    requires Emptied(s, t, lo, hi) && Vacant(s, lo, hi) && j < |s.table| && RowGood(s, j)
    ensures RowGood(t, j) && ReadAt(t, t.table[j]) == ReadAt(s, s.table[j])
  {
  }

  lemma EmptiedKeepsBit(s: State, t: State, lo: nat, hi: nat, q: BlockPos)
    requires Emptied(s, t, lo, hi) && (q.zone < lo || hi < q.zone) && WellOwned(s, q)
    ensures WellOwned(t, q)
  {
  }

  lemma EmptiedKeepsMap(s: State, t: State, lo: nat, hi: nat)
    requires Emptied(s, t, lo, hi) && Vacant(s, lo, hi) && MapInv(s)
    ensures MapInv(t) && Transparent(s, t)
  {
    hide RowGood, WellOwned, ReadAt, Stored, Shape;
    forall j: nat | j < |t.table| && t.table[j].zone != 0 ensures RowGood(t, j) {
      assert RowGood(s, j);
      EmptiedKeepsRow(s, t, lo, hi, j);
    }
    forall q | q in t.gc ensures q.zone != 0 && WellOwned(t, q) {
      EmptiedKeepsBit(s, t, lo, hi, q);
    }
    forall l: nat ensures Stored(t, l) == Stored(s, l) { EmptiedKeepsStored(s, t, lo, hi, l); }
  }

  lemma EmptiedKeepsStored(s: State, t: State, lo: nat, hi: nat, l: nat)
    requires Emptied(s, t, lo, hi) && Vacant(s, lo, hi) && MapInv(s)
    ensures Stored(t, l) == Stored(s, l)
  {
    hide Vacant, WellOwned;
    if InTable(s, l) && s.table[l - s.geo.zones].zone != 0 {
      assert RowGood(s, l - s.geo.zones);
      EmptiedKeepsRow(s, t, lo, hi, l - s.geo.zones);
    }
  }

  // ---------- step 1: one live block moves into the swap zone ----------

  predicate CanMoveIn(s: State, p: BlockPos) {
    s.swapWp.block + 1 < s.geo.blocks && IsFirstSource(s, p)
  }

  function MoveIn(s: State, p: BlockPos): State
    requires WellOwned(s, p)
  {
    var b := ReadAt(s, p).value;
    SwapIn(s, b, Owner(b))
  }

  lemma MoveInFrame(s0: State, s: State, p: BlockPos)
    requires Running(s0, s, s.wp.zone, 0) && CanMoveIn(s, p)
    ensures WellOwned(s, p) && Moves(s, MoveIn(s, p), p, s.swapWp)
    ensures Admitted(s, s.swapWp.zone, s.swapWp.block)
    ensures var t := MoveIn(s, p);
      && t.wp == s.wp && t.swapWp == BlockPos(s.swapWp.zone, s.swapWp.block + 1)
      && t.zones == s.zones[s.swapWp.zone := s.zones[s.swapWp.zone] + [ReadAt(s, p).value]]
      && Sources(t, t.wp.zone) == Sources(s, s.wp.zone) - {p}
  {
    assert WellOwned(s, p);
    var t := MoveIn(s, p);
    var b := ReadAt(s, p).value;
    var i := Owner(b) - s.geo.zones;
    var s1 := s.(gc := (s.gc + {s.swapWp}) - {s.table[i]}, table := s.table[i := s.swapWp]);
    forall q ensures ReadAt(t, q) == if q == s.swapWp then ReadAt(s, p) else ReadAt(s, q) {
      AppendReads(s1, s.swapWp.zone, s.swapWp.block, b, q);
    }
  }

  lemma MoveInRunning(s0: State, s: State, p: BlockPos)
    requires Running(s0, s, s.wp.zone, 0) && CanMoveIn(s, p)
    ensures WellOwned(s, p) && Running(s0, MoveIn(s, p), s.wp.zone, 0)
  {
    MoveInFrame(s0, s, p);
    var t := MoveIn(s, p);
    forall q | q in Sources(t, s.wp.zone) ensures WellOwned(t, q) {
      MoveKeepsOthers(s, t, p, s.swapWp, q);
    }
    forall q: nat | q < t.swapWp.block ensures InSwap(t, q) {
      if q < s.swapWp.block {
        assert InSwap(s, q);
        MoveKeepsOthers(s, t, p, s.swapWp, BlockPos(s.geo.Swap(), q));
      }
    }
  }

  lemma MoveInSlot(s0: State, s: State, p: BlockPos)
    requires Running(s0, s, s.wp.zone, 0) && CanMoveIn(s, p) && Exact(s, s.wp.zone, 0)
    ensures SameSlot(s, s.wp.zone, p, s.swapWp)
  {
    var k := s.wp.zone;
    assert Phase(s, k, p) == 2 && Phase(s, k, s.swapWp) == 1;
    forall x | x in s.gc && x != p
      ensures Earlier(s, k, x, p) ==> Earlier(s, k, x, s.swapWp)
      ensures Earlier(s, k, p, x) ==> Earlier(s, k, s.swapWp, x)
    {
      if x in Sources(s, k) { assert !Before(x, p); }
    }
  }

  lemma MoveInExact(s0: State, s: State, p: BlockPos)
    requires Running(s0, s, s.wp.zone, 0) && CanMoveIn(s, p) && Exact(s, s.wp.zone, 0)
    ensures WellOwned(s, p) && Exact(MoveIn(s, p), s.wp.zone, 0)
  {
    MoveInFrame(s0, s, p);
    var t := MoveIn(s, p);
    forall q ensures q in t.gc <==> q in Sources(t, s.wp.zone) || Waiting(t, 0, q) || Compacted(t, s.wp.zone, q) {
      assert Compacted(t, s.wp.zone, q) == Compacted(s, s.wp.zone, q);
      assert Waiting(t, 0, q) <==> Waiting(s, 0, q) || q == s.swapWp;
      assert !Compacted(s, s.wp.zone, p);
    }
  }

  lemma CountStep(s0: State, s: State, t: State, i: nat, p: BlockPos)
    requires s.geo.Valid() && t.geo == s.geo && t.wp == s.wp && i < |s.table|
    requires Counted(s0, s, s.wp.zone, 0) && p in Sources(s, s.wp.zone)
    requires s.swapWp.zone == s.geo.Swap() && t.swapWp.block == s.swapWp.block + 1
    requires t.table == s.table[i := s.swapWp]
    requires Sources(t, t.wp.zone) == Sources(s, s.wp.zone) - {p}
    ensures Counted(s0, t, s.wp.zone, 0)
  {
    OneFewer(s0.gc, Sources(s, s.wp.zone), p);
    assert s.swapWp !in Sources(s, s.wp.zone);
  }

  lemma MoveInSound(s0: State, s: State, p: BlockPos)
    requires Running(s0, s, s.wp.zone, 0) && CanMoveIn(s, p) && Shape(s0) && MapInv(s0)
    requires Sound(s0, s, s.wp.zone, 0)
    ensures WellOwned(s, p) && Sound(s0, MoveIn(s, p), s.wp.zone, 0)
  {
    hide MapInv, Ordered, Exact, Counted, Roomy, Transparent, LiveUpTo, ReadAt, Earlier, SameSlot, LogShape;
    MoveInFrame(s0, s, p);
    var t := MoveIn(s, p);
    MoveKeepsMap(s, t, p, s.swapWp);
    TransparentTrans(s0, s, t);
    MoveInSlot(s0, s, p);
    MoveKeepsOrder(s0, s, t, p, s.swapWp, s.wp.zone);
    MoveInExact(s0, s, p);
    CountStep(s0, s, t, Owner(ReadAt(s, p).value) - s.geo.zones, p);
  }

  // ---------- step 2: the zone at the write pointer is reset ----------

  ghost predicate ZoneClear(s: State) {
    forall p | p in Sources(s, s.wp.zone) :: p.zone != s.wp.zone
  }

  lemma ResetFrame(s0: State, s: State)
    requires Running(s0, s, s.wp.zone, 0) && s.swapWp.block > 0
    ensures Emptied(s, Reset(s, s.wp.zone), s.wp.zone, s.wp.zone)
    ensures Sources(Reset(s, s.wp.zone), s.wp.zone + 1) ==
            (set p | p in Sources(s, s.wp.zone) && p.zone != s.wp.zone)
  {
  }

  lemma ResetRunning(s0: State, s: State)
    requires Running(s0, s, s.wp.zone, 0) && s.swapWp.block > 0
    ensures Running(s0, Reset(s, s.wp.zone), s.wp.zone + 1, 0)
  {
    ResetFrame(s0, s);
    var t := Reset(s, s.wp.zone);
    forall p | p in Sources(t, s.wp.zone + 1) ensures WellOwned(t, p) {
      assert WellOwned(s, p);
    }
    forall q: nat | q < t.swapWp.block ensures InSwap(t, q) {
      assert InSwap(s, q);
    }
  }

  lemma ResetOrder(s0: State, s: State, from: nat)
    requires Shape(s0) && MapInv(s0) && Shape(s) && MapInv(s) && Transparent(s0, s)
    requires Ordered(s0, s, from) && Vacant(s, from, from)
    ensures Ordered(s0, Reset(s, from), from + 1)
  {
    var t := Reset(s, from);
    forall a: nat, b: nat | a < |t.table| && b < |t.table| &&
        s0.table[a].zone != 0 && s0.table[b].zone != 0 && Before(s0.table[a], s0.table[b])
      ensures Earlier(t, from + 1, t.table[a], t.table[b])
    {
      LiveRow(s0, s, a);
      LiveRow(s0, s, b);
      assert Earlier(s, from, s.table[a], s.table[b]);
    }
  }

  lemma ResetExact(s: State, k: nat)
    requires s.geo.Valid() && 1 <= k == s.wp.zone < s.geo.Swap() && s.wp.block == 0
    requires Exact(s, k, 0) && Vacant(s, k, k)
    ensures Exact(Reset(s, k), k + 1, 0)
  {
    var t := Reset(s, k);
    forall q ensures q in t.gc <==> q in Sources(t, k + 1) || Waiting(t, 0, q) || Compacted(t, k + 1, q) {
      assert Compacted(t, k + 1, q) == Compacted(s, k, q);
      assert q in Sources(s, k) <==> q in Sources(t, k + 1);
    }
  }

  lemma ZoneVacant(s0: State, s: State)
    requires Running(s0, s, s.wp.zone, 0) && s.swapWp.block > 0 && Exact(s, s.wp.zone, 0) && ZoneClear(s)
    ensures Vacant(s, s.wp.zone, s.wp.zone)
  {
  }

  lemma ResetCount(s0: State, s: State, k: nat)
    requires s.geo.Valid() && Counted(s0, s, k, 0) && Sources(Reset(s, k), k + 1) == Sources(s, k)
    ensures Counted(s0, Reset(s, k), k + 1, 0)
  {
  }

  lemma ResetSound(s0: State, s: State)
    requires Running(s0, s, s.wp.zone, 0) && s.swapWp.block > 0 && Shape(s0) && MapInv(s0)
    requires Sound(s0, s, s.wp.zone, 0) && ZoneClear(s)
    ensures Sound(s0, Reset(s, s.wp.zone), s.wp.zone + 1, 0)
  {
    hide MapInv, Ordered, Exact, Counted, Roomy, Transparent, WellOwned, InSwap, LiveUpTo, ReadAt, Earlier;
    var k := s.wp.zone;
    var t := Reset(s, k);
    ZoneVacant(s0, s);
    ResetFrame(s0, s);
    EmptiedKeepsMap(s, t, k, k);
    ResetOrder(s0, s, k);
    ResetExact(s, k);
    assert Sources(t, k + 1) == Sources(s, k);
    TransparentTrans(s0, s, t);
    ResetCount(s0, s, k);
  }

  // Resetting a zone that still holds a live block loses that block.
  lemma ResetLoses(s0: State, s: State, p: BlockPos)
    requires Running(s0, s, s.wp.zone, 0) && s.swapWp.block > 0 && Counted(s0, s, s.wp.zone, 0)
    requires p in Sources(s, s.wp.zone) && p.zone == s.wp.zone
    ensures WellOwned(s, p)
    ensures Lost(s0, Reset(s, s.wp.zone), s.wp.zone + 1, Owner(ReadAt(s, p).value) - s.geo.zones)
  {
    ResetFrame(s0, s);
    assert WellOwned(s, p);
  }

  lemma ResetKeepsLost(s0: State, s: State, i: nat)
    requires Running(s0, s, s.wp.zone, 0) && s.swapWp.block > 0 && Lost(s0, s, s.wp.zone, i)
    ensures Lost(s0, Reset(s, s.wp.zone), s.wp.zone + 1, i)
  {
    ResetFrame(s0, s);
  }

  // A block moved already lay before every block not yet visited.
  lemma MovedBefore(s0: State, s: State, q: BlockPos, p: BlockPos)
    requires Running(s0, s, s.wp.zone, 0) && Shape(s0) && MapInv(s0) && Sound(s0, s, s.wp.zone, 0)
    requires q in s0.gc - Sources(s, s.wp.zone) && p in Sources(s, s.wp.zone)
    ensures Before(q, p) && 1 <= q.zone
  {
    var k := s.wp.zone;
    assert WellOwned(s0, q);
    assert WellOwned(s, p);
    var i := Owner(ReadAt(s0, q).value) - s0.geo.zones;
    var j := Owner(ReadAt(s, p).value) - s0.geo.zones;
    LiveRow(s0, s, i);
    assert s0.table[i] == q && s0.table[j] == p == s.table[j];
    assert s.table[i] !in Sources(s, k);
    assert Before(p, q) ==> Earlier(s, k, s.table[j], s.table[i]);
  }

  lemma PrefixClear(s0: State, rest: set<BlockPos>, k: nat)
    requires rest <= s0.gc && forall q | q in rest :: k < q.zone
    ensures |LiveUpTo(s0, k)| <= |s0.gc - rest|
  {
    SubsetSize(LiveUpTo(s0, k), s0.gc - rest);
  }

  lemma PrefixBusy(s0: State, rest: set<BlockPos>, k: nat, p: BlockPos)
    requires p in rest && rest <= s0.gc && p.zone == k && 1 <= k
    requires forall q | q in s0.gc - rest :: Before(q, p) && 1 <= q.zone
    ensures |LiveUpTo(s0, k)| > |s0.gc - rest|
  {
    var moved := s0.gc - rest;
    SubsetSize(moved + {p}, LiveUpTo(s0, k));
  }

  lemma AllMoved(s0: State, s: State)
    requires s.geo.Valid() && Counted(s0, s, s.wp.zone, 0) && 1 <= s.wp.zone
    requires s.wp.block == 0 && s.swapWp.block + 1 == s.geo.blocks
    ensures |s0.gc - Sources(s, s.wp.zone)| == s.wp.zone * (s.geo.blocks - 1)
  {
    var k, n := s.wp.zone, s.geo.blocks - 1;
    MulLess(k, 1, n);
  }

  // When blocks - 1 blocks wait in the swap zone, the zone about to be reset is
  // clear exactly when the zones up to it held few enough live blocks.
  lemma ClearIffRoomy(s0: State, s: State)
    requires Running(s0, s, s.wp.zone, 0) && s.swapWp.block + 1 == s.geo.blocks
    requires Shape(s0) && MapInv(s0) && Sound(s0, s, s.wp.zone, 0)
    ensures ZoneClear(s) <==> Roomy(s0, s.wp.zone)
  {
    hide MapInv, Ordered, Exact, Transparent, WellOwned, InSwap, LiveUpTo, ReadAt, Earlier, Before, LogShape;
    AllMoved(s0, s);
    var rest := Sources(s, s.wp.zone);
    if ZoneClear(s) {
      PrefixClear(s0, rest, s.wp.zone);
    } else {
      var p :| p in rest && p.zone == s.wp.zone;
      forall q | q in s0.gc - rest ensures Before(q, p) && 1 <= q.zone {
        MovedBefore(s0, s, q, p);
      }
      PrefixBusy(s0, rest, s.wp.zone, p);
    }
  }

  // ---------- step 3: one swap block is copied back ----------

  function CopyOut(s: State, q: BlockPos): State
    requires WellOwned(s, q)
  {
    var b := ReadAt(s, q).value;
    Rewrite(s, b, Owner(b))
  }

  function SwapAt(s: State, q: nat): BlockPos
    requires s.geo.Valid()
  {
    BlockPos(s.geo.Swap(), q)
  }

  // Copying while zone wp.zone has been reset and out < swapWp.block.
  predicate CanCopyOut(s: State, out: nat) {
    s.geo.Valid() && out == s.wp.block < s.swapWp.block
  }

  lemma CopyFrame(s: State, p: BlockPos)
    requires Shape(s) && p in s.gc && WellOwned(s, p) && Admitted(s, s.wp.zone, s.wp.block) && s.wp != p
    requires 1 <= s.wp.zone < s.geo.Swap()
    ensures Moves(s, CopyOut(s, p), p, s.wp)
    ensures CopyOut(s, p).wp == Advance(s.geo, s.wp) && CopyOut(s, p).swapWp == s.swapWp
    ensures CopyOut(s, p).zones == s.zones[s.wp.zone := s.zones[s.wp.zone] + [ReadAt(s, p).value]]
    ensures forall from | from > s.wp.zone && (p.zone < from || p.zone + 2 >= s.geo.zones) :: Sources(CopyOut(s, p),
        from) == Sources(s, from)
  {
    var t := CopyOut(s, p);
    var b := ReadAt(s, p).value;
    forall q ensures ReadAt(t, q) == if q == s.wp then ReadAt(s, p) else ReadAt(s, q) {
      RewriteReads(s, b, Owner(b), q);
    }
  }

  lemma CopyOutRunning(s0: State, s: State, out: nat)
    requires Running(s0, s, s.wp.zone + 1, out) && CanCopyOut(s, out)
    ensures InSwap(s, out) && Running(s0, CopyOut(s, SwapAt(s, out)), s.wp.zone + 1, out + 1)
    ensures Moves(s, CopyOut(s, SwapAt(s, out)), SwapAt(s, out), s.wp)
    ensures Admitted(s, s.wp.zone, s.wp.block)
    ensures Sources(CopyOut(s, SwapAt(s, out)), s.wp.zone + 1) == Sources(s, s.wp.zone + 1)
    ensures CopyOut(s, SwapAt(s, out)).wp == BlockPos(s.wp.zone, s.wp.block + 1)
    ensures CopyOut(s, SwapAt(s, out)).swapWp == s.swapWp
  {
    assert InSwap(s, out);
    var p := SwapAt(s, out);
    CopyFrame(s, p);
    var t := CopyOut(s, p);
    forall q | q in Sources(t, s.wp.zone + 1) ensures WellOwned(t, q) {
      MoveKeepsOthers(s, t, p, s.wp, q);
    }
    forall q: nat | out + 1 <= q < t.swapWp.block ensures InSwap(t, q) {
      assert InSwap(s, q);
      MoveKeepsOthers(s, t, p, s.wp, SwapAt(s, q));
    }
  }

  lemma CopyOutSlot(s0: State, s: State, out: nat)
    requires Running(s0, s, s.wp.zone + 1, out) && CanCopyOut(s, out) && Exact(s, s.wp.zone + 1, out)
    ensures SameSlot(s, s.wp.zone + 1, SwapAt(s, out), s.wp)
  {
    var from := s.wp.zone + 1;
    var p := SwapAt(s, out);
    assert Phase(s, from, p) == 1 && Phase(s, from, s.wp) == 0;
    forall x | x in s.gc && x != p
      ensures Earlier(s, from, x, p) ==> Earlier(s, from, x, s.wp)
      ensures Earlier(s, from, p, x) ==> Earlier(s, from, s.wp, x)
    {
      assert x in Sources(s, from) || Waiting(s, out, x) || Compacted(s, from, x);
    }
  }

  lemma CopyOutExact(s0: State, s: State, out: nat)
    requires Running(s0, s, s.wp.zone + 1, out) && CanCopyOut(s, out) && Exact(s, s.wp.zone + 1, out)
    ensures InSwap(s, out) && Exact(CopyOut(s, SwapAt(s, out)), s.wp.zone + 1, out + 1)
  {
    CopyOutRunning(s0, s, out);
    var from := s.wp.zone + 1;
    var t := CopyOut(s, SwapAt(s, out));
    forall q ensures q in t.gc <==> q in Sources(t, from) || Waiting(t, out + 1, q) || Compacted(t, from, q) {
      assert Compacted(t, from, q) <==> Compacted(s, from, q) || q == s.wp;
      assert Waiting(s, out, q) <==> Waiting(t, out + 1, q) || q == SwapAt(s, out);
    }
  }

  lemma CopyOutCount(s0: State, s: State, t: State, i: nat, from: nat, out: nat)
    requires s.geo.Valid() && t.geo == s.geo && i < |s.table| && Counted(s0, s, from, out)
    requires t.table == s.table[i := s.wp] && s.wp.zone < from
    requires Sources(t, from) == Sources(s, from)
    requires t.wp == BlockPos(s.wp.zone, s.wp.block + 1) && t.swapWp == s.swapWp
    ensures Counted(s0, t, from, out + 1)
  {
    assert s.wp !in Sources(s, from);
  }

  lemma CopyOutSound(s0: State, s: State, out: nat)
    requires Running(s0, s, s.wp.zone + 1, out) && CanCopyOut(s, out) && Shape(s0) && MapInv(s0)
    requires Sound(s0, s, s.wp.zone + 1, out)
    ensures InSwap(s, out) && Sound(s0, CopyOut(s, SwapAt(s, out)), s.wp.zone + 1, out + 1)
  {
    hide MapInv, Ordered, Exact, Counted, Roomy, Transparent, LiveUpTo, ReadAt, Earlier, SameSlot, LogShape;
    CopyOutRunning(s0, s, out);
    var p := SwapAt(s, out);
    var t := CopyOut(s, p);
    MoveKeepsMap(s, t, p, s.wp);
    TransparentTrans(s0, s, t);
    CopyOutSlot(s0, s, out);
    MoveKeepsOrder(s0, s, t, p, s.wp, s.wp.zone + 1);
    CopyOutExact(s0, s, out);
    CopyOutCount(s0, s, t, Owner(ReadAt(s, p).value) - s.geo.zones, s.wp.zone + 1, out);
  }

  // ---------- step 4: the last read is past the end, so its block is written twice ----------

  // The swap zone is copied back and one position of zone wp.zone is left.
  predicate AtLastSlot(s: State, out: nat) {
    s.geo.Valid() && out == s.swapWp.block == s.wp.block == s.geo.blocks - 1
  }

  function LastCopied(s: State): BlockPos
    requires s.wp.block > 0
  {
    BlockPos(s.wp.zone, s.wp.block - 1)
  }

  // The buffer still holds the block copied last.
  ghost predicate Held(s: State) {
    s.wp.block > 0 && LastCopied(s) in s.gc && WellOwned(s, LastCopied(s))
  }

  lemma DuplicateRunning(s0: State, s: State, out: nat)
    requires Running(s0, s, s.wp.zone + 1, out) && AtLastSlot(s, out) && Held(s)
    ensures Running(s0, CopyOut(s, LastCopied(s)), s.wp.zone + 1, out)
    ensures Moves(s, CopyOut(s, LastCopied(s)), LastCopied(s), s.wp)
    ensures Admitted(s, s.wp.zone, s.wp.block)
    ensures Sources(CopyOut(s, LastCopied(s)), s.wp.zone + 1) == Sources(s, s.wp.zone + 1)
    ensures CopyOut(s, LastCopied(s)).wp == BlockPos(s.wp.zone + 1, 0)
    ensures CopyOut(s, LastCopied(s)).swapWp == s.swapWp
  {
    var p := LastCopied(s);
    CopyFrame(s, p);
    var t := CopyOut(s, p);
    forall q | q in Sources(t, s.wp.zone + 1) ensures WellOwned(t, q) {
      MoveKeepsOthers(s, t, p, s.wp, q);
    }
  }

  lemma DuplicateSlot(s0: State, s: State, out: nat)
    requires Running(s0, s, s.wp.zone + 1, out) && AtLastSlot(s, out) && Exact(s, s.wp.zone + 1, out)
    ensures SameSlot(s, s.wp.zone + 1, LastCopied(s), s.wp)
  {
    var from := s.wp.zone + 1;
    var p := LastCopied(s);
    forall x | x in s.gc && x != p
      ensures Earlier(s, from, x, p) ==> Earlier(s, from, x, s.wp)
      ensures Earlier(s, from, p, x) ==> Earlier(s, from, s.wp, x)
    {
      assert x in Sources(s, from) || Waiting(s, out, x) || Compacted(s, from, x);
    }
  }

  lemma DuplicateExact(s0: State, s: State, out: nat)
    requires Running(s0, s, s.wp.zone + 1, out) && AtLastSlot(s, out) && Held(s)
    requires Exact(s, s.wp.zone + 1, out)
    ensures Exact(CopyOut(s, LastCopied(s)), s.wp.zone + 1, out)
  {
    DuplicateRunning(s0, s, out);
    var from := s.wp.zone + 1;
    var t := CopyOut(s, LastCopied(s));
    forall q ensures q in t.gc <==> q in Sources(t, from) || Waiting(t, out, q) || Compacted(t, from, q) {
      assert Compacted(t, from, q) || q == LastCopied(s) <==> Compacted(s, from, q) || q == s.wp;
    }
  }

  lemma DuplicateCount(s0: State, s: State, t: State, i: nat, from: nat, out: nat)
    requires AtLastSlot(s, out) && t.geo == s.geo == s0.geo && i < |s.table| && Counted(s0, s, from, out)
    requires t.table == s.table[i := s.wp] && 1 <= s.wp.zone && from == s.wp.zone + 1
    requires Sources(t, from) == Sources(s, from)
    requires t.wp == BlockPos(s.wp.zone + 1, 0) && t.swapWp == s.swapWp
    ensures Counted(s0, t, from, out) && Roomy(s0, s.wp.zone)
  {
    assert s.wp !in Sources(s, from);
    var k, n := s.wp.zone, s.geo.blocks - 1;
    MulLess(k, 1, n);
    PrefixClear(s0, Sources(s, from), k);
  }

  lemma DuplicateSound(s0: State, s: State, out: nat)
    requires Running(s0, s, s.wp.zone + 1, out) && AtLastSlot(s, out) && Held(s) && Shape(s0) && MapInv(s0)
    requires Sound(s0, s, s.wp.zone + 1, out)
    ensures Sound(s0, CopyOut(s, LastCopied(s)), s.wp.zone + 1, out)
  {
    hide MapInv, Ordered, Exact, Counted, Roomy, Transparent, LiveUpTo, ReadAt, Earlier, SameSlot, LogShape;
    DuplicateRunning(s0, s, out);
    var p := LastCopied(s);
    var t := CopyOut(s, p);
    MoveKeepsMap(s, t, p, s.wp);
    TransparentTrans(s0, s, t);
    DuplicateSlot(s0, s, out);
    MoveKeepsOrder(s0, s, t, p, s.wp, s.wp.zone + 1);
    DuplicateExact(s0, s, out);
    DuplicateCount(s0, s, t, Owner(ReadAt(s, p).value) - s.geo.zones, s.wp.zone + 1, out);
  }

  // ---------- step 5: the swap zone is reset ----------

  // Everything was copied back and the write pointer stands at a new zone.
  predicate Copied(s: State) {
    s.swapWp.block > 0 && s.wp.block == 0
  }

  function SwapReset(s: State): State {
    Reset(s, s.swapWp.zone).(swapWp := BlockPos(s.swapWp.zone, 0))
  }

  lemma SwapResetRunning(s0: State, s: State)
    requires Running(s0, s, s.wp.zone, s.swapWp.block) && Copied(s)
    ensures Running(s0, SwapReset(s), s.wp.zone, 0)
    ensures Emptied(s, SwapReset(s), s.geo.Swap(), s.geo.Swap())
    ensures Sources(SwapReset(s), s.wp.zone) == Sources(s, s.wp.zone)
  {
    var t := SwapReset(s);
    forall p | p in Sources(t, s.wp.zone) ensures WellOwned(t, p) {
      EmptiedKeepsBit(s, t, s.geo.Swap(), s.geo.Swap(), p);
    }
  }

  lemma SwapResetExact(s: State)
    requires s.geo.Valid() && s.swapWp.zone == s.geo.Swap() && s.wp.zone <= s.geo.Swap()
    requires Exact(s, s.wp.zone, s.swapWp.block) 
    ensures Exact(SwapReset(s), s.wp.zone, 0) && Vacant(s, s.geo.Swap(), s.geo.Swap())
  {
    var t := SwapReset(s);
    forall q ensures q in t.gc <==> q in Sources(t, s.wp.zone) || Waiting(t, 0, q) || Compacted(t, s.wp.zone, q) {
      assert Compacted(t, s.wp.zone, q) == Compacted(s, s.wp.zone, q);
      assert q in Sources(s, s.wp.zone) <==> q in Sources(t, s.wp.zone);
    }
  }

  lemma SwapResetCount(s0: State, s: State, t: State)
    requires s.geo.Valid() && t.geo == s.geo && t.table == s.table && t.wp == s.wp
    requires Counted(s0, s, s.wp.zone, s.swapWp.block) && t.swapWp.block == 0
    requires Sources(t, s.wp.zone) == Sources(s, s.wp.zone)
    ensures Counted(s0, t, s.wp.zone, 0)
  {
  }

  lemma SwapResetOrder(s0: State, s: State)
    requires s.geo.Valid() && |s.table| == |s0.table| && Ordered(s0, s, s.wp.zone)
    ensures Ordered(s0, SwapReset(s), s.wp.zone)
  {
    var t := SwapReset(s);
    forall a: nat, b: nat | a < |t.table| && b < |t.table| &&
        s0.table[a].zone != 0 && s0.table[b].zone != 0 && Before(s0.table[a], s0.table[b])
      ensures Earlier(t, s.wp.zone, t.table[a], t.table[b])
    {
      assert Earlier(s, s.wp.zone, s.table[a], s.table[b]);
    }
  }

  lemma SwapResetSound(s0: State, s: State)
    requires Running(s0, s, s.wp.zone, s.swapWp.block) && Copied(s) && Shape(s0) && MapInv(s0)
    requires Sound(s0, s, s.wp.zone, s.swapWp.block)
    ensures Sound(s0, SwapReset(s), s.wp.zone, 0)
  {
    hide MapInv, Ordered, Exact, Counted, Roomy, Transparent, LiveUpTo, ReadAt, Earlier, LogShape;
    var t := SwapReset(s);
    SwapResetRunning(s0, s);
    SwapResetExact(s);
    SwapResetOrder(s0, s);
    EmptiedKeepsMap(s, t, s.geo.Swap(), s.geo.Swap());
    TransparentTrans(s0, s, t);
    SwapResetCount(s0, s, t);
  }

  lemma SwapResetLost(s0: State, s: State, i: nat)
    requires Running(s0, s, s.wp.zone, s.swapWp.block) && Copied(s) && Lost(s0, s, s.wp.zone, i)
    ensures Lost(s0, SwapReset(s), s.wp.zone, i)
  {
    SwapResetRunning(s0, s);
  }

  // ---------- a whole run: either nothing was lost, or room was missing ----------

  ghost predicate Underway(s0: State, s: State, from: nat, out: nat) {
    && Shape(s0) && MapInv(s0)
    && Running(s0, s, from, out)
    && (Sound(s0, s, from, out) || (!PrefixesRoomy(s0) && exists i: nat :: Lost(s0, s, from, i)))
  }

  // With room in every prefix, all blocks read the same between any two steps before
  // the final resets, and every mapping points to a written position that holds its block.
  lemma TransparentThroughout(s0: State, s: State, from: nat, out: nat)
    requires Shape(s0) && Underway(s0, s, from, out) && PrefixesRoomy(s0)
    ensures Transparent(s0, s) && MapInv(s)
  {
    hide MapInv, Transparent, Roomy, Exact, Counted, Ordered, Lost;
  }

  function Started(s: State): State
    requires s.geo.Valid()
  {
    s.(wp := BlockPos(1, 0), swapWp := BlockPos(s.geo.Swap(), 0))
  }

  lemma StartSources(s: State)
    requires Inv(s)
    ensures Sources(Started(s), 1) == s.gc
    ensures forall i: nat | i < |s.table| && s.table[i].zone != 0 :: s.table[i] in Sources(Started(s), 1)
  {
    forall p | p in s.gc ensures p in Sources(Started(s), 1) {
      assert WellOwned(s, p);
    }
    forall i: nat | i < |s.table| && s.table[i].zone != 0 ensures s.table[i] in Sources(Started(s), 1) {
      assert RowGood(s, i);
    }
  }

  lemma StartMap(s: State)
    requires Inv(s)
    ensures MapInv(Started(s)) && Transparent(s, Started(s))
  {
    var t := Started(s);
    forall i: nat | i < |t.table| && t.table[i].zone != 0 ensures RowGood(t, i) {
      assert RowGood(s, i);
    }
    forall p | p in t.gc ensures p.zone != 0 && WellOwned(t, p) {
      assert WellOwned(s, p);
    }
  }

  lemma StartOwned(s: State)
    requires s.geo.Valid() && MapInv(Started(s))
    ensures forall p | p in Sources(Started(s), 1) :: WellOwned(Started(s), p)
  {
  }

  lemma StartCount(s: State)
    requires Inv(s)
    ensures Counted(s, Started(s), 1, 0) && Exact(Started(s), 1, 0)
  {
    hide MapInv, LogShape;
    var t := Started(s);
    StartSources(s);
    assert s.gc - Sources(t, 1) == {};
    assert forall q :: !Compacted(t, 1, q) && !Waiting(t, 0, q);
  }

  lemma StartOrder(s: State)
    requires Inv(s)
    ensures Ordered(s, Started(s), 1)
  {
    hide LogShape;
    StartSources(s);
  }

  lemma StartStep(s: State)
    requires Inv(s)
    ensures Underway(s, Started(s), 1, 0)
  {
    hide Exact, Counted, Ordered, Transparent, Lost, MapInv, RowGood, Roomy;
    StartMap(s);
    StartCount(s);
    StartOrder(s);
    StartSources(s);
    assert forall p | p in Sources(Started(s), 1) :: WellOwned(Started(s), p) by { StartOwned(s); }
    assert Sound(s, Started(s), 1, 0);
  }

  lemma MoveInStep(s0: State, s: State, p: BlockPos)
    requires Underway(s0, s, s.wp.zone, 0) && CanMoveIn(s, p)
    ensures WellOwned(s, p) && Underway(s0, MoveIn(s, p), s.wp.zone, 0)
    ensures Admitted(s, s.swapWp.zone, s.swapWp.block)
    ensures MoveIn(s, p).wp == s.wp && MoveIn(s, p).swapWp == BlockPos(s.swapWp.zone, s.swapWp.block + 1)
    ensures Sources(MoveIn(s, p), s.wp.zone) == Sources(s, s.wp.zone) - {p}
  {
    hide MapInv, Sound, Lost, PrefixesRoomy, WellOwned, InSwap, ReadAt;
    MoveInFrame(s0, s, p);
    MoveInRunning(s0, s, p);
    if Sound(s0, s, s.wp.zone, 0) {
      MoveInSound(s0, s, p);
    } else {
      var i: nat :| Lost(s0, s, s.wp.zone, i);
      MoveKeepsLost(s0, s, MoveIn(s, p), p, s.swapWp, s.wp.zone, i);
    }
  }

  // The reset before a full copy-out, and the one before the last, partial one.
  lemma ResetStep(s0: State, s: State)
    requires Underway(s0, s, s.wp.zone, 0) && s.swapWp.block > 0
    requires s.swapWp.block + 1 == s.geo.blocks || Sources(s, s.wp.zone) == {}
    ensures Underway(s0, Reset(s, s.wp.zone), s.wp.zone + 1, 0)
    ensures Sources(Reset(s, s.wp.zone), s.wp.zone + 1) <= Sources(s, s.wp.zone)
  {
    hide MapInv, Sound, Lost, InSwap, Roomy, Counted;
    ResetRunning(s0, s);
    if Sound(s0, s, s.wp.zone, 0) {
      if ZoneClear(s) {
        ResetSound(s0, s);
      } else {
        assert s.swapWp.block + 1 == s.geo.blocks;
        ClearIffRoomy(s0, s);
        assert !PrefixesRoomy(s0);
        var p :| p in Sources(s, s.wp.zone) && p.zone == s.wp.zone;
        assert Counted(s0, s, s.wp.zone, 0) by { SoundCounted(s0, s, s.wp.zone, 0); }
        ResetLoses(s0, s, p);
        assert Lost(s0, Reset(s, s.wp.zone), s.wp.zone + 1, Owner(ReadAt(s, p).value) - s.geo.zones);
      }
    } else {
      var i: nat :| Lost(s0, s, s.wp.zone, i);
      ResetKeepsLost(s0, s, i);
    }
  }

  lemma SoundCounted(s0: State, s: State, from: nat, out: nat)
    requires s.geo.Valid() && s0.geo.Valid() && Sound(s0, s, from, out)
    ensures Counted(s0, s, from, out)
  {
    hide Counted;
  }

  lemma CopyOutStep(s0: State, s: State, out: nat)
    requires Underway(s0, s, s.wp.zone + 1, out) && CanCopyOut(s, out)
    ensures InSwap(s, out) && Underway(s0, CopyOut(s, SwapAt(s, out)), s.wp.zone + 1, out + 1)
    ensures Admitted(s, s.wp.zone, s.wp.block)
    ensures CopyOut(s, SwapAt(s, out)).wp == BlockPos(s.wp.zone, s.wp.block + 1)
    ensures CopyOut(s, SwapAt(s, out)).swapWp == s.swapWp
    ensures Sources(CopyOut(s, SwapAt(s, out)), s.wp.zone + 1) == Sources(s, s.wp.zone + 1)
    ensures Held(CopyOut(s, SwapAt(s, out)))
    ensures ReadAt(CopyOut(s, SwapAt(s, out)), LastCopied(CopyOut(s, SwapAt(s, out)))) == ReadAt(s, SwapAt(s, out))
  {
    hide MapInv, Sound, Lost, PrefixesRoomy;
    CopyOutRunning(s0, s, out);
    if Sound(s0, s, s.wp.zone + 1, out) {
      CopyOutSound(s0, s, out);
    } else {
      var i: nat :| Lost(s0, s, s.wp.zone + 1, i);
      MoveKeepsLost(s0, s, CopyOut(s, SwapAt(s, out)), SwapAt(s, out), s.wp, s.wp.zone + 1, i);
    }
  }

  lemma DuplicateStep(s0: State, s: State, out: nat)
    requires Underway(s0, s, s.wp.zone + 1, out) && AtLastSlot(s, out) && Held(s)
    ensures Underway(s0, CopyOut(s, LastCopied(s)), s.wp.zone + 1, out)
    ensures Admitted(s, s.wp.zone, s.wp.block)
    ensures CopyOut(s, LastCopied(s)).wp == BlockPos(s.wp.zone + 1, 0)
    ensures CopyOut(s, LastCopied(s)).swapWp == s.swapWp
    ensures Sources(CopyOut(s, LastCopied(s)), s.wp.zone + 1) == Sources(s, s.wp.zone + 1)
  {
    hide MapInv, Sound, Lost, PrefixesRoomy;
    DuplicateRunning(s0, s, out);
    if Sound(s0, s, s.wp.zone + 1, out) {
      DuplicateSound(s0, s, out);
    } else {
      var i: nat :| Lost(s0, s, s.wp.zone + 1, i);
      MoveKeepsLost(s0, s, CopyOut(s, LastCopied(s)), LastCopied(s), s.wp, s.wp.zone + 1, i);
    }
  }

  lemma SwapResetStep(s0: State, s: State)
    requires Underway(s0, s, s.wp.zone, s.swapWp.block) && Copied(s)
    ensures Underway(s0, SwapReset(s), s.wp.zone, 0)
    ensures Sources(SwapReset(s), s.wp.zone) == Sources(s, s.wp.zone)
  {
    hide MapInv, Sound, Lost, PrefixesRoomy;
    SwapResetRunning(s0, s);
    if Sound(s0, s, s.wp.zone, s.swapWp.block) {
      SwapResetSound(s0, s);
    } else {
      var i: nat :| Lost(s0, s, s.wp.zone, i);
      SwapResetLost(s0, s, i);
    }
  }

  // ---------- the end of a run ----------

  // Nothing is left to visit and nothing waits in the swap zone.
  ghost predicate Done(s: State, from: nat) {
    Sources(s, from) == {}
  }

  // Log positions that are live when only the duplicated block of each closed zone is dead.
  predicate InLog(s: State, p: BlockPos) {
    && 1 <= p.zone && p.block < s.geo.blocks
    && (if p.zone < s.wp.zone then p.block + 2 != s.geo.blocks else p.zone == s.wp.zone && p.block < s.wp.block)
  }

  ghost predicate Dense(s: State) {
    forall p :: p in s.gc <==> InLog(s, p)
  }

  ghost predicate KeepsOrder(s0: State, s: State)
    requires |s.table| == |s0.table|
  {
    forall i: nat, j: nat | i < |s.table| && j < |s.table| &&
        s0.table[i].zone != 0 && s0.table[j].zone != 0 && Before(s0.table[i], s0.table[j]) ::
      Before(s.table[i], s.table[j])
  }

  // The live blocks fill the log from zone 1 on, in their old order.
  ghost predicate CompactLog(s0: State, s: State)
    requires s.geo.Valid()
  {
    && s.geo == s0.geo && |s.table| == |s0.table| && s.alloc == s0.alloc
    && Dense(s)
    && s.wp.block + 1 < s.geo.blocks
    && |s0.gc| == (s.wp.zone - 1) * (s.geo.blocks - 1) + s.wp.block
    && KeepsOrder(s0, s)
  }

  // What a collection makes of state s0: a well-formed log in any case; with room in
  // every prefix all blocks, compacted; and else a block is lost.
  ghost predicate Collected(s0: State, t: State)
    requires s0.geo.Valid()
  {
    && Shape(t) && LogShape(t)
    && (PrefixesRoomy(s0) ==> Transparent(s0, t) && Inv(t) && CompactLog(s0, t))
    && (!PrefixesRoomy(s0) ==> LosesABlock(s0, t))
  }

  // So reads are kept exactly when there was room.
  lemma TransparentIffRoomy(s0: State, t: State)
    requires s0.geo.Valid() && Collected(s0, t)
    ensures Transparent(s0, t) <==> PrefixesRoomy(s0)
  {
  }

  // The state after the swap zone and the free zones before zone i were reset.
  ghost predicate ClosedTo(s: State, t: State, i: nat) {
    && Shape(s) && Shape(t) && t.geo == s.geo && t.alloc == s.alloc && t.table == s.table && t.gc == s.gc
    && t.wp == s.wp
    && (forall z: nat | z < |t.zones| ::
          t.zones[z] == if z == s.geo.Swap() || FirstFreeZone(s) <= z < i then [] else s.zones[z])
  }

  // And after all of them were, up to the zone the log ended in before.
  ghost predicate Closed(s0: State, s: State, t: State) {
    Shape(s0) && ClosedTo(s, t, s0.wp.zone + 1)
  }

  function FirstFreeZone(s: State): nat {
    if s.wp.block == 0 then s.wp.zone else s.wp.zone + 1
  }

  lemma ClosedLog(s0: State, s: State, t: State, from: nat, out: nat)
    requires Inv(s0) && Running(s0, s, from, out) && out == s.swapWp.block && Closed(s0, s, t)
    ensures LogShape(t)
  {
    assert |t.zones[t.wp.zone]| == t.wp.block;
  }

  lemma ClosedLost(s0: State, s: State, t: State, from: nat, out: nat, i: nat)
    requires Inv(s0) && Running(s0, s, from, out) && out == s.swapWp.block && Closed(s0, s, t)
    requires from > s.wp.zone ==> s.wp.block > 0
    requires Lost(s0, s, from, i)
    ensures LosesABlock(s0, t)
  {
    hide LogShape, InSwap, Sources, WellOwned;
    var p := s0.table[i];
    assert RowGood(s0, i);
    var l := s0.geo.zones + i;
    assert Stored(s0, l).Some? && Owner(Stored(s0, l).value) == l;
    assert Stored(t, l) == ReadAt(t, p);
    assert ReadAt(t, p) == ReadAt(s, p) || ReadAt(t, p) == None;
  }

  lemma KeptRow(s: State, t: State, j: nat)
    requires Shape(s) && t.geo == s.geo && t.table == s.table && t.gc == s.gc && t.alloc == s.alloc
    requires forall p | p in s.gc :: ReadAt(t, p) == ReadAt(s, p)
    requires MapInv(s) && j < |s.table| && s.table[j].zone != 0
    ensures RowGood(t, j) && ReadAt(t, s.table[j]) == ReadAt(s, s.table[j])
  {
    hide ReadAt;
    assert RowGood(s, j);
  }

  lemma KeptStored(s: State, t: State, l: nat)
    requires Shape(s) && Shape(t) && t.geo == s.geo && t.table == s.table && t.gc == s.gc && t.alloc == s.alloc
    requires forall p | p in s.gc :: ReadAt(t, p) == ReadAt(s, p)
    requires MapInv(s)
    ensures Stored(t, l) == Stored(s, l)
  {
    if InTable(s, l) && s.table[l - s.geo.zones].zone != 0 { KeptRow(s, t, l - s.geo.zones); }
  }

  lemma KeptOwner(s: State, t: State, p: BlockPos)
    requires t.geo == s.geo && t.table == s.table && WellOwned(s, p) && ReadAt(t, p) == ReadAt(s, p)
    ensures WellOwned(t, p)
  {
  }

  lemma KeptMap(s: State, t: State)
    requires Shape(s) && Shape(t) && t.geo == s.geo && t.table == s.table && t.gc == s.gc && t.alloc == s.alloc
    requires forall p | p in s.gc :: ReadAt(t, p) == ReadAt(s, p)
    requires MapInv(s)
    ensures MapInv(t) && Transparent(s, t)
  {
    hide Shape, RowGood, WellOwned, ReadAt, Stored;
    forall j: nat | j < |t.table| && t.table[j].zone != 0 ensures RowGood(t, j) { KeptRow(s, t, j); }
    forall q | q in t.gc ensures q.zone != 0 && WellOwned(t, q) { KeptOwner(s, t, q); }
    forall l: nat ensures Stored(t, l) == Stored(s, l) { KeptStored(s, t, l); }
  }

  lemma ClosedReads(s0: State, s: State, t: State, from: nat, i: nat)
    requires Running(s0, s, from, s.swapWp.block) && ClosedTo(s, t, i) && Done(s, from)
    requires from > s.wp.zone ==> s.wp.block > 0
    requires Exact(s, from, s.swapWp.block)
    ensures forall p | p in s.gc :: ReadAt(t, p) == ReadAt(s, p)
  {
    forall p | p in s.gc ensures ReadAt(t, p) == ReadAt(s, p) {
      assert Compacted(s, from, p);
    }
  }

  // The same between any two of the final resets.
  lemma TransparentToTheEnd(s0: State, s: State, t: State, from: nat, i: nat)
    requires Inv(s0) && PrefixesRoomy(s0) && Underway(s0, s, from, s.swapWp.block) && Done(s, from)
    requires from > s.wp.zone ==> s.wp.block > 0
    requires ClosedTo(s, t, i)
    ensures Transparent(s0, t) && MapInv(t)
  {
    hide MapInv, Transparent, Lost, Exact, Roomy, Counted, Ordered, LogShape, PrefixesRoomy, ClosedTo, Done;
    assert Sound(s0, s, from, s.swapWp.block);
    ClosedReads(s0, s, t, from, i);
    ClosedSame(s, t, i);
    KeptMap(s, t);
    TransparentTrans(s0, s, t);
  }

  lemma ClosedOrder(s0: State, s: State, t: State, from: nat)
    requires Shape(s0) && MapInv(s0) && Shape(t) && MapInv(t) && Transparent(s0, t) && s.geo == t.geo
    requires t.table == s.table && |s.table| == |s0.table| && t.gc == s.gc
    requires Ordered(s0, s, from) && forall p | p in s.gc :: p.zone < from && p.zone != s.geo.Swap()
    ensures KeepsOrder(s0, t)
  {
    forall i: nat, j: nat | i < |t.table| && j < |t.table| &&
          s0.table[i].zone != 0 && s0.table[j].zone != 0 && Before(s0.table[i], s0.table[j])
      ensures Before(t.table[i], t.table[j])
    {
      LiveRow(s0, t, i);
      LiveRow(s0, t, j);
      assert Earlier(s, from, s.table[i], s.table[j]);
    }
  }

  lemma ClosedExact(s0: State, s: State, t: State, from: nat)
    requires s.geo.Valid() && Exact(s, from, s.swapWp.block) && Done(s, from)
    requires 1 <= s.wp.zone <= from <= s.wp.zone + 1 && s.wp.zone <= s.geo.Swap()
    requires (from == s.wp.zone ==> s.wp.block == 0) && (from > s.wp.zone ==> s.wp.zone < s.geo.Swap())
    requires s.wp.block < s.geo.blocks && t.gc == s.gc && t.wp == s.wp && t.geo == s.geo
    ensures Dense(t) && forall p | p in s.gc :: p.zone < from && p.zone != s.geo.Swap()
  {
    forall p ensures p in t.gc <==> InLog(t, p) {
      assert Compacted(s, from, p) <==> InLog(t, p);
    }
  }

  lemma ClosedCompact(s0: State, s: State, t: State, from: nat)
    requires Inv(s0) && Running(s0, s, from, s.swapWp.block) && Closed(s0, s, t) && Done(s, from)
    requires s.wp.block + 1 < s.geo.blocks
    requires Sound(s0, s, from, s.swapWp.block) && Transparent(s0, t) && MapInv(t)
    ensures CompactLog(s0, t)
  {
    hide Ordered, MapInv, Transparent, Roomy, Dense, KeepsOrder, LogShape;
    assert s0.gc - Sources(s, from) == s0.gc;
    ClosedExact(s0, s, t, from);
    ClosedOrder(s0, s, t, from);
  }

  lemma AllPrefixesRoomy(s0: State, s: State, from: nat)
    requires Shape(s0) && Done(s, from) && s.geo == s0.geo && 1 <= s.wp.zone && s.wp.block < s.geo.blocks
    requires Counted(s0, s, from, s.swapWp.block)
    requires forall k: nat | 1 <= k < s.wp.zone :: Roomy(s0, k)
    ensures PrefixesRoomy(s0)
  {
    var w, n := s.wp.zone, s.geo.blocks - 1;
    assert |s0.gc| <= w * n by {
      assert s0.gc - Sources(s, from) == s0.gc;
      MulLess(w, 1, n);
    }
    forall k: nat | 1 <= k && k + 2 < s0.geo.zones ensures Roomy(s0, k) {
      if k >= w {
        SubsetSize(LiveUpTo(s0, k), s0.gc);
        MulAtLeast(k, w, n);
      }
    }
  }

  lemma EndStep(s0: State, s: State, t: State, from: nat)
    requires Inv(s0) && Underway(s0, s, from, s.swapWp.block) && Closed(s0, s, t) && Done(s, from)
    requires from > s.wp.zone ==> s.wp.block > 0
    requires s.wp.block + 1 < s.geo.blocks
    ensures Shape(t) && LogShape(t)
    ensures Collected(s0, t)
  {
    hide MapInv, Transparent, Lost, Exact, Roomy, Counted, Ordered, CompactLog, LogShape, PrefixesRoomy, ClosedTo;
    hide LosesABlock;
    ClosedLog(s0, s, t, from, s.swapWp.block);
    ClosedSame(s, t, s0.wp.zone + 1);
    if Sound(s0, s, from, s.swapWp.block) {
      AllPrefixesRoomy(s0, s, from);
      ClosedReads(s0, s, t, from, s0.wp.zone + 1);
      KeptMap(s, t);
      TransparentTrans(s0, s, t);
      ClosedCompact(s0, s, t, from);
    } else {
      var i: nat :| Lost(s0, s, from, i);
      ClosedLost(s0, s, t, from, s.swapWp.block, i);
    }
  }

  lemma ClosedSame(s: State, t: State, i: nat)
    requires ClosedTo(s, t, i)
    ensures Shape(s) && Shape(t) && t.geo == s.geo && t.table == s.table && t.gc == s.gc && t.alloc == s.alloc
  {
  }
}
