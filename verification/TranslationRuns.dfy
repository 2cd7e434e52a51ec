// Whole runs of the translation layer, and the limits of the collector.
module TranslationRuns {
  import opened Bitmap
  import opened Blocks
  import opened Translation
  import opened MappingLayer
  import opened GcInvariants
  import opened GarbageCollector

  // ---------- runs refine a plain store of blocks ----------

  datatype Op =
    | Take(number: nat)                 // hodo_get_next_logical_number
    | Put(block: Block, number: nat)    // hodo_write_struct to a number
    | PutNew(block: Block, number: nat) // hodo_write_struct to number 0
    | Collect                           // GC

  // What each operation demands: a number to take, a position to write to, and for
  // the collector a dead block in every prefix of the log.
  ghost predicate Enabled(s: State, op: Op)
    requires s.geo.Valid()
  {
    match op
    case Take(n) => s.geo.zones <= n && IsLeastFree(s, n - s.geo.zones)
    case Put(b, n) => HasRoom(s) && InTable(s, n) && n - s.geo.zones in s.alloc && Carries(b, n)
    case PutNew(b, n) => HasRoom(s) && InTable(s, n) && IsLeastFree(s, n - s.geo.zones) && b.Dat?
    case Collect => PrefixesRoomy(s)
  }

  // What it does.
  ghost predicate Step(s: State, op: Op, t: State)
    requires s.geo.Valid()
  {
    match op
    case Take(n) => s.geo.zones <= n && t == s.(alloc := s.alloc + {n - s.geo.zones})
    case Put(b, n) => InTable(s, n) && t == Rewrite(s, b, n)
    case PutNew(b, n) => InTable(s, n) && t == AllocateAndWrite(s, b, n)
    case Collect => Collected(s, t)
  }

  // The runs of ops from s to t in which every operation is enabled.
  ghost predicate Run(s: State, ops: seq<Op>, t: State)
    requires s.geo.Valid()
    decreases |ops|
  {
    if ops == [] then s == t
    else Enabled(s, ops[0]) && exists u: State :: u.geo.Valid() && Step(s, ops[0], u) && Run(u, ops[1..], t)
  }

  // Every operation will be enabled when its turn comes.
  ghost predicate Feasible(s: State, ops: seq<Op>)
    requires s.geo.Valid()
    decreases |ops|
  {
    ops == [] ||
    (Enabled(s, ops[0]) && forall u: State | u.geo.Valid() && Step(s, ops[0], u) :: Feasible(u, ops[1..]))
  }

  // The store a user of the layer sees: the last block put under each number.
  function Replay(ops: seq<Op>, store: map<nat, Block>): map<nat, Block> {
    if ops == [] then store
    else match ops[0]
      case Put(b, n) => Replay(ops[1..], store[n := Stamp(b, n)])
      case PutNew(b, n) => Replay(ops[1..], store[n := Stamp(b, n)])
      case _ => Replay(ops[1..], store)
  }

  function Contents(s: State): map<nat, Block> {
    map l: nat | l < s.geo.zones + |s.table| && Stored(s, l).Some? :: Stored(s, l).value
  }

  lemma TakeRow(s: State, i: nat, j: nat)
    requires Inv(s) && j < |s.table| && s.table[j].zone != 0
    ensures RowGood(s.(alloc := s.alloc + {i}), j)
  {
    assert RowGood(s, j);
  }

  lemma TakeOwner(s: State, i: nat, p: BlockPos)
    requires Inv(s) && p in s.gc
    ensures p.zone != 0 && WellOwned(s.(alloc := s.alloc + {i}), p)
  {
    assert WellOwned(s, p);
  }

  lemma TakeReads(s: State, i: nat)
    requires Inv(s)
    ensures Transparent(s, s.(alloc := s.alloc + {i}))
    ensures Shape(s.(alloc := s.alloc + {i})) && LogShape(s.(alloc := s.alloc + {i}))
  {
  }

  lemma TakeKeeps(s: State, i: nat)
    requires Inv(s)
    ensures Inv(s.(alloc := s.alloc + {i})) && Transparent(s, s.(alloc := s.alloc + {i}))
  {
    var t := s.(alloc := s.alloc + {i});
    TakeReads(s, i);
    hide Shape, LogShape, RowGood, WellOwned, Transparent;
    forall j: nat | j < |t.table| && t.table[j].zone != 0 ensures RowGood(t, j) { TakeRow(s, i, j); }
    forall p | p in t.gc ensures p.zone != 0 && WellOwned(t, p) { TakeOwner(s, i, p); }
  }

  lemma SameContents(s: State, t: State)
    requires Transparent(s, t)
    ensures Contents(t) == Contents(s)
  {
    hide Stored;
    assert forall l: nat :: Stored(t, l) == Stored(s, l);
  }

  lemma PutContents(s: State, t: State, b: Block, n: nat)
    requires t.geo == s.geo && |t.table| == |s.table| && InTable(s, n)
    requires forall l: nat :: Stored(t, l) == if l == n then Some(b) else Stored(s, l)
    ensures Contents(t) == Contents(s)[n := b]
  {
    hide Stored;
    assert forall l: nat :: Stored(t, l) == if l == n then Some(b) else Stored(s, l);
  }

  lemma StepRefines(s: State, op: Op, t: State)
    requires Inv(s) && Enabled(s, op) && Step(s, op, t)
    ensures Inv(t) && Contents(t) == Replay([op], Contents(s))
  {
    hide MapInv, LogShape, Stored, Contents, Transparent, CompactLog, PrefixesRoomy;
    match op
    case Take(n) =>
      TakeKeeps(s, n - s.geo.zones);
      SameContents(s, t);
    case Put(b, n) =>
      RewriteKeepsInv(s, b, n);
      PutContents(s, t, Stamp(b, n), n);
    case PutNew(b, n) =>
      AllocateKeepsInv(s, b, n);
      PutContents(s, t, Stamp(b, n), n);
    case Collect =>
      SameContents(s, t);
  }

  lemma ReplayFirst(ops: seq<Op>, store: map<nat, Block>)
    requires ops != []
    ensures Replay(ops, store) == Replay(ops[1..], Replay([ops[0]], store))
  {
    assert [ops[0]][1..] == [];
  }

  // Every reachable state is well formed and holds exactly what was put last.
  lemma {:induction false} RunRefines(s: State, ops: seq<Op>, t: State)
    requires Inv(s) && Run(s, ops, t)
    ensures Inv(t) && Contents(t) == Replay(ops, Contents(s))
    decreases |ops|
  {
    hide Step, Enabled, Contents, MapInv, LogShape;
    if ops != [] {
      ReplayFirst(ops, Contents(s));
      var u: State :| u.geo.Valid() && Step(s, ops[0], u) && Run(u, ops[1..], t);
      StepRefines(s, ops[0], u);
      RunRefines(u, ops[1..], t);
    }
  }

  lemma {:induction false} RunOn(s: State, ops: seq<Op>, t: State, op: Op, u: State)
    requires s.geo.Valid() && t.geo.Valid() && u.geo.Valid()
    requires Run(s, ops, t) && Enabled(t, op) && Step(t, op, u)
    ensures Run(s, ops + [op], u)
    decreases |ops|
  {
    hide Enabled, Step;
    if ops == [] {
      assert ([] + [op])[1..] == [];
      assert Run(u, [], u);
    } else {
      var v: State :| v.geo.Valid() && Step(s, ops[0], v) && Run(v, ops[1..], t);
      RunOn(v, ops[1..], t, op, u);
      assert (ops + [op])[1..] == ops[1..] + [op];
    }
  }

  function Formatted(g: Geometry): State
    requires g.Valid()
  {
    State(g, seq(g.entries, _ => BlockPos(0, 0)), {}, {}, BlockPos(1, 0), BlockPos(g.Swap(), 0), seq(g.zones - 1,
        _ => []))
  }

  lemma InitialInv(g: Geometry)
    requires g.Valid()
    ensures Inv(Formatted(g))
  {
  }

  // ---------- the methods take these steps ----------

  lemma OneLeastFree(s: State, i: nat, j: nat)
    requires IsLeastFree(s, i) && IsLeastFree(s, j)
    ensures i == j
  {
  }

  // One operation, by the method of the code.
  method Execute(m: MappingInfo, op: Op)
    requires m.Sized() && Inv(m.View()) && Enabled(m.View(), op)
    modifies m
    ensures m.Sized() && Step(old(m.View()), op, m.View())
  {
    hide Members, GcPositions, MapInv, PrefixesRoomy, Collected, Append;
    ghost var s := m.View();
    match op {
      case Take(n) =>
        var number := m.GetNextLogicalNumber();
        assert HasFree(s);
        OneLeastFree(s, number - m.geo.zones, n - m.geo.zones);
      case Put(b, n) =>
        assert m.OnDevice(s.table[n - s.geo.zones]);
        var number, ok := m.WriteStruct(b, n);
      case PutNew(b, n) =>
        assert HasFree(s);
        var number, ok := m.WriteStruct(b, 0);
        OneLeastFree(s, number - m.geo.zones, n - m.geo.zones);
      case Collect =>
        GC(m);
    }
  }

  // A sequence of operations: the blocks stored at the end are those of a plain map
  // on which the same operations were replayed.
  method ExecuteAll(m: MappingInfo, ops: seq<Op>)
    requires m.Sized() && Inv(m.View()) && Feasible(m.View(), ops)
    modifies m
    ensures m.Sized() && Inv(m.View()) && Run(old(m.View()), ops, m.View())
    ensures Contents(m.View()) == Replay(ops, old(Contents(m.View())))
  {
    hide Inv, Step, Enabled, Contents, Replay;
    ghost var s := m.View();
    assert s.geo.Valid() by { assert m.Sized(); }
    var k := 0;
    assert ops[0..] == ops && ops[..0] == [];
    while k < |ops|
      invariant k <= |ops| && m.Sized() && Inv(m.View()) && Feasible(m.View(), ops[k..])
      invariant Run(s, ops[..k], m.View())
    {
      ghost var t := m.View();
      assert ops[k..][0] == ops[k] && ops[k..][1..] == ops[k + 1..];
      Execute(m, ops[k]);
      StepRefines(t, ops[k], m.View());
      RunOn(s, ops[..k], t, ops[k], m.View());
      assert ops[..k + 1] == ops[..k] + [ops[k]];
      k := k + 1;
    }
    assert ops[..k] == ops;
    RunRefines(s, ops, m.View());
  }

  // ---------- conservation ----------

  function LiveRows(s: State): set<nat> {
    set i: nat | i < |s.table| && s.table[i].zone != 0
  }

  lemma {:induction false} RowsMatchPositions(s: State, rows: set<nat>, ps: set<BlockPos>)
    requires Shape(s) && MapInv(s) && rows <= LiveRows(s)
    requires forall p :: p in ps <==> exists i: nat :: i in rows && s.table[i] == p
    ensures |rows| == |ps|
    decreases rows
  {
    if rows == {} {
      if p :| p in ps { assert false; }
    } else {
      var i :| i in rows;
      forall j | j in rows && s.table[j] == s.table[i] ensures j == i {
        assert RowGood(s, i) && RowGood(s, j);
      }
      RowsMatchPositions(s, rows - {i}, ps - {s.table[i]});
    }
  }

  // As many validity bits are set as there are mapped numbers.
  lemma BitsCountRows(s: State)
    requires Shape(s) && MapInv(s)
    ensures |s.gc| == |LiveRows(s)|
  {
    forall p ensures p in s.gc <==> exists i: nat :: i in LiveRows(s) && s.table[i] == p {
      if p in s.gc {
        assert WellOwned(s, p);
        assert s.table[Owner(ReadAt(s, p).value) - s.geo.zones] == p;
      }
      if i: nat :| i in LiveRows(s) && s.table[i] == p { assert RowGood(s, i); }
    }
    RowsMatchPositions(s, LiveRows(s), s.gc);
  }

  lemma BitsConserved(s: State, t: State)
    requires Inv(s) && Inv(t) && Transparent(s, t)
    ensures LiveRows(t) == LiveRows(s) && |t.gc| == |s.gc|
  {
    forall i: nat | i < |s.table| ensures i in LiveRows(t) <==> i in LiveRows(s) {
      if i in LiveRows(s) { LiveRow(s, t, i); }
      if i in LiveRows(t) { LiveRow(t, s, i); }
    }
    BitsCountRows(s);
    BitsCountRows(t);
  }

  // ---------- when the collector has room ----------

  // The first n positions of zone z.
  function FirstOf(z: nat, n: nat): (r: set<BlockPos>)
    ensures |r| == n && forall p :: p in r <==> p.zone == z && p.block < n
  {
    if n == 0 then {} else FirstOf(z, n - 1) + {BlockPos(z, n - 1)}
  }

  function LiveIn(s: State, z: nat): set<BlockPos> {
    set p | p in s.gc && p.zone == z
  }

  lemma {:induction false} PrefixSum(s: State, k: nat)
    requires s.geo.Valid() && forall z: nat | 1 <= z <= k :: |LiveIn(s, z)| < s.geo.blocks
    ensures Roomy(s, k)
  {
    if k == 0 {
      assert LiveUpTo(s, 0) == {};
    } else {
      PrefixSum(s, k - 1);
      assert LiveUpTo(s, k) == LiveUpTo(s, k - 1) + LiveIn(s, k);
      assert LiveUpTo(s, k - 1) !! LiveIn(s, k);
      assert (k - 1) * (s.geo.blocks - 1) + (s.geo.blocks - 1) == k * (s.geo.blocks - 1);
    }
  }

  // One position without a live block in every data zone is enough.
  lemma DeadBlockInEveryZone(s: State)
    requires Inv(s)
    requires forall z: nat | 1 <= z && z + 2 < s.geo.zones :: |LiveIn(s, z)| < s.geo.blocks
    ensures PrefixesRoomy(s)
  {
    forall k: nat | 1 <= k && k + 2 < s.geo.zones ensures Roomy(s, k) {
      PrefixSum(s, k);
    }
  }

  // ---------- and a state in which it loses a block ----------

  function Below(n: nat): (r: set<nat>)
    ensures forall i: nat :: i in r <==> i < n
  {
    if n == 0 then {} else Below(n - 1) + {n - 1}
  }

  // The formatted device after k new blocks were written to zone 1.
  function Filled(g: Geometry, k: nat): State
    requires g.Valid() && k <= g.blocks
  {
    State(g, seq(g.entries, i requires 0 <= i => if i < k then BlockPos(1, i) else BlockPos(0, 0)),
          Below(k), FirstOf(1, k), if k == g.blocks then BlockPos(2, 0) else BlockPos(1, k), BlockPos(g.Swap(), 0),
          seq(g.zones - 1, z => if z == 1 then seq(k, i requires 0 <= i => Dat(0, g.zones + i, Zeroes())) else []))
  }

  function FillOps(g: Geometry, k: nat): seq<Op> {
    if k == 0 then [] else FillOps(g, k - 1) + [PutNew(Dat(0, 0, Zeroes()), g.zones + k - 1)]
  }

  lemma NothingFilled(g: Geometry)
    requires g.Valid()
    ensures Filled(g, 0) == Formatted(g)
  {
    assert Below(0) == {} && FirstOf(1, 0) == {};
    assert Filled(g, 0).zones == Formatted(g).zones;
  }

  lemma FilledMap(g: Geometry, k: nat)
    requires g.Valid() && k <= g.blocks <= g.entries
    ensures MapInv(Filled(g, k))
  {
    hide Filled, RowGood, WellOwned;
    var s := Filled(g, k);
    FilledOnly(g, k);
    forall i: nat | i < |s.table| && s.table[i].zone != 0 ensures RowGood(s, i) { FilledAt(g, k, i); }
    forall p | p in s.gc ensures p.zone != 0 && WellOwned(s, p) { FilledAt(g, k, p.block); }
  }

  lemma FilledOnly(g: Geometry, k: nat)
    requires g.Valid() && k <= g.blocks <= g.entries
    ensures var s := Filled(g, k);
      && |s.table| == g.entries && (forall i: nat | i < |s.table| && s.table[i].zone != 0 :: i < k)
      && (forall p | p in s.gc :: p.block < k && p == BlockPos(1, p.block))
  {
    hide Below;
  }

  lemma FilledAt(g: Geometry, k: nat, b: nat)
    requires g.Valid() && b < k <= g.blocks <= g.entries
    ensures RowGood(Filled(g, k), b) && WellOwned(Filled(g, k), BlockPos(1, b))
  {
    var s := Filled(g, k);
    assert s.table[b] == BlockPos(1, b) && ReadAt(s, BlockPos(1, b)) == Some(Dat(0, g.zones + b, Zeroes()));
  }

  lemma FilledInv(g: Geometry, k: nat)
    requires g.Valid() && k <= g.blocks <= g.entries
    ensures Inv(Filled(g, k))
  {
    FilledMap(g, k);
    FilledShape(g, k);
    hide Filled, MapInv, Shape, LogShape;
  }

  lemma FilledShape(g: Geometry, k: nat)
    requires g.Valid() && k <= g.blocks <= g.entries
    ensures Shape(Filled(g, k)) && LogShape(Filled(g, k))
  {
    hide Below, FirstOf;
    var s := Filled(g, k);
    assert |s.zones[1]| == k && forall z: nat | z < g.zones - 1 && z != 1 :: s.zones[z] == [];
    assert forall i: nat | i < |s.table| :: s.table[i].zone <= 1 && s.table[i].block < g.blocks;
  }

  // One more block is one more write without a number.
  lemma FillStep(g: Geometry, k: nat)
    requires g.Valid() && k < g.blocks <= g.entries
    ensures var op := PutNew(Dat(0, 0, Zeroes()), g.zones + k);
      Enabled(Filled(g, k), op) && Step(Filled(g, k), op, Filled(g, k + 1))
  {
    hide Filled, AllocateAndWrite, Rewrite, Collected, PrefixesRoomy, Below, FirstOf, Advance;
    FilledZones(g, k);
    FilledSets(g, k);
    FillResult(Filled(g, k), Filled(g, k + 1), Dat(0, 0, Zeroes()), k);
  }

  lemma FillResult(s: State, t: State, b: Block, k: nat)
    requires InTable(s, s.geo.zones + k) && k < s.geo.blocks && b.Dat? && |s.zones| > 1 && |s.zones[1]| == k
    requires s.wp == BlockPos(1, k) && t.geo == s.geo && t.wp == Advance(s.geo, s.wp) && t.swapWp == s.swapWp
    requires t.zones == s.zones[1 := s.zones[1] + [Stamp(b, s.geo.zones + k)]]
    requires t.table == s.table[k := s.wp] && t.alloc == s.alloc + {k} && t.gc == s.gc + {s.wp}
    ensures t == AllocateAndWrite(s, b, s.geo.zones + k)
  {
    hide Stamp, Advance;
  }

  lemma FilledZones(g: Geometry, k: nat)
    requires g.Valid() && k < g.blocks <= g.entries
    ensures var s, t := Filled(g, k), Filled(g, k + 1);
      && |s.zones| == g.zones - 1 && |s.zones[1]| == k && s.geo == t.geo == g && s.wp == BlockPos(1, k)
      && t.zones == s.zones[1 := s.zones[1] + [Dat(0, g.zones + k, Zeroes())]]
      && t.wp == Advance(g, s.wp) && t.swapWp == s.swapWp
  {
    hide Below, FirstOf;
    var s, t := Filled(g, k), Filled(g, k + 1);
    assert t.zones[1] == s.zones[1] + [Dat(0, g.zones + k, Zeroes())];
    assert t.zones == s.zones[1 := s.zones[1] + [Dat(0, g.zones + k, Zeroes())]];
  }

  lemma FilledSets(g: Geometry, k: nat)
    requires g.Valid() && k < g.blocks <= g.entries
    ensures var s, t := Filled(g, k), Filled(g, k + 1);
      && |s.table| == g.entries && t.table == s.table[k := BlockPos(1, k)]
      && t.alloc == s.alloc + {k} && t.gc == s.gc + {BlockPos(1, k)}
      && k !in s.alloc && forall j: nat | j < k :: j in s.alloc
  {
    hide Below, FirstOf;
    var s, t := Filled(g, k), Filled(g, k + 1);
    assert t.alloc == s.alloc + {k};
    assert t.gc == s.gc + {BlockPos(1, k)};
    assert t.table == s.table[k := BlockPos(1, k)];
  }

  lemma {:induction false} FillRun(g: Geometry, k: nat)
    requires g.Valid() && k <= g.blocks <= g.entries
    ensures Run(Formatted(g), FillOps(g, k), Filled(g, k))
  {
    hide Filled, Step, Enabled, Formatted;
    if k == 0 {
      NothingFilled(g);
    } else {
      FillRun(g, k - 1);
      FilledInv(g, k - 1);
      FilledInv(g, k);
      FillStep(g, k - 1);
      assert Formatted(g).geo.Valid() by { InitialInv(g); }
      RunOn(Formatted(g), FillOps(g, k - 1), Filled(g, k - 1), PutNew(Dat(0, 0, Zeroes()), g.zones + k - 1),
          Filled(g, k));
    }
  }

  lemma FullZoneCrowded(g: Geometry)
    requires g.Valid()
    ensures !PrefixesRoomy(Filled(g, g.blocks))
  {
    hide FirstOf;
    var s := Filled(g, g.blocks);
    assert LiveUpTo(s, 1) == FirstOf(1, g.blocks);
    assert !Roomy(s, 1);
  }

  // In every geometry with a table row for each block of a zone, the state with one
  // zone full of live blocks is reached by writes, and every collection of it loses a
  // block.
  lemma FullZoneLosesABlock(g: Geometry, t: State)
    requires g.Valid() && g.blocks <= g.entries
    ensures Run(Formatted(g), FillOps(g, g.blocks), Filled(g, g.blocks)) && Inv(Filled(g, g.blocks))
    ensures Filled(g, g.blocks).geo.Valid() && (Collected(Filled(g, g.blocks), t) ==> LosesABlock(Filled(g,
        g.blocks), t))
  {
    FillRun(g, g.blocks);
    FilledInv(g, g.blocks);
    FullZoneCrowded(g);
    hide Filled, PrefixesRoomy, LosesABlock, Run;
  }

  // The same by the methods of the code.
  method FillAndCollect(g: Geometry) returns (m: MappingInfo)
    requires g.Valid() && g.blocks <= g.entries
    ensures fresh(m) && m.Sized() && LosesABlock(Filled(g, g.blocks), m.View())
  {
    hide Filled, Members, GcPositions, Inv, Step, Enabled, LosesABlock;
    m := new MappingInfo(g);
    NothingFilled(g);
    var k := 0;
    while k < g.blocks
      invariant k <= g.blocks && fresh(m) && m.Sized() && m.View() == Filled(g, k)
    {
      FilledInv(g, k);
      FillStep(g, k);
      Execute(m, PutNew(Dat(0, 0, Zeroes()), g.zones + k));
      OneResult(Filled(g, k), Dat(0, 0, Zeroes()), g.zones + k, m.View(), Filled(g, k + 1));
      k := k + 1;
    }
    FilledInv(g, g.blocks);
    FullZoneCrowded(g);
    GC(m);
  }

  lemma OneResult(s: State, b: Block, n: nat, t: State, u: State)
    requires s.geo.Valid() && Step(s, PutNew(b, n), t) && Step(s, PutNew(b, n), u)
    ensures t == u
  {
    hide AllocateAndWrite;
  }
}
