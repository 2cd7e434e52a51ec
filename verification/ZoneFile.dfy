// Zone files under seq/ and cnv/: the in-memory zone records of super.c and the
// operations of file.c that change them. Each region a mutex protects is one method.
module ZoneFile {
  datatype ErrorMode = RemountRo | ZoneRo | ZoneOffline | Repair

  datatype Mount = Mount(explicitOpen: bool, errors: ErrorMode, maxWro: nat, blockSize: nat)

  // struct zonefs_zone, with the size and the write-open count of its inode.
  datatype Zone = Zone(cnv: bool, cap: nat, wp: nat, isize: nat, wrRefs: nat,
                       open: bool, active: bool, offline: bool, readonly: bool)

  datatype Condition = CondOffline | CondReadonly | CondFull | CondOther

  // What the device reports of a zone; devWp is relative to the start of the zone, and
  // invalid unless the condition is CondOther.
  datatype Report = NoReport | Report(cond: Condition, devWp: int)

  datatype Limit = Unlimited | AtMost(bytes: nat)

  // How the device finished a direct write.
  datatype Completion = Written | Short(bytes: nat) | Failed(error: int) | Queued

  const EPERM: int := -1
  const EIO: int := -5
  const EBUSY: int := -16
  const EINVAL: int := -22
  const EFBIG: int := -27
  const EIOCBQUEUED: int := -529
  const MAX_NON_LFS: nat := 0x7FFF_FFFF

  // ---------- sums over zones ----------

  datatype Gauge = ActiveZones | WriterZones | OpenZones | Orphans | UsedBlocks(bs: nat) | TotalBlocks(bs: nat)

  function Blocks(bytes: nat, bs: nat): nat {
    if bs == 0 then 0 else bytes / bs
  }

  function Weigh(g: Gauge, z: Zone): nat {
    match g
    case ActiveZones => if z.active then 1 else 0
    case WriterZones => if z.wrRefs > 0 then 1 else 0
    case OpenZones => if z.open then 1 else 0
    case Orphans => if z.open && z.wrRefs == 0 then 1 else 0
    case UsedBlocks(bs) => Blocks(z.isize, bs)
    case TotalBlocks(bs) => Blocks(z.cap, bs)
  }

  function Sum(zs: seq<Zone>, g: Gauge): nat {
    if zs == [] then 0 else Weigh(g, zs[0]) + Sum(zs[1..], g)
  }

  lemma {:induction false} SumUpdate(zs: seq<Zone>, i: nat, z: Zone, g: Gauge)
    requires i < |zs|
    ensures Sum(zs[i := z], g) + Weigh(g, zs[i]) == Sum(zs, g) + Weigh(g, z)
  {
    hide Weigh;
    if i == 0 {
      assert zs[0 := z][1..] == zs[1..];
    } else {
      assert zs[i := z][1..] == zs[1..][i - 1 := z];
      SumUpdate(zs[1..], i - 1, z, g);
    }
  }

  lemma {:induction false} SumAppend(zs: seq<Zone>, z: Zone, g: Gauge)
    ensures Sum(zs + [z], g) == Sum(zs, g) + Weigh(g, z)
  {
    hide Weigh;
    if zs == [] {
      assert zs + [z] == [z] && [z][1..] == [];
    } else {
      assert (zs + [z])[1..] == zs[1..] + [z];
      SumAppend(zs[1..], z, g);
    }
  }

  lemma {:induction false} SumAtLeast(zs: seq<Zone>, i: nat, g: Gauge)
    requires i < |zs|
    ensures Weigh(g, zs[i]) <= Sum(zs, g)
  {
    hide Weigh;
    if i > 0 { SumAtLeast(zs[1..], i - 1, g); }
  }

  lemma {:induction false} SumMonotone(zs: seq<Zone>, f: Gauge, g: Gauge)
    requires forall i: nat | i < |zs| :: Weigh(f, zs[i]) <= Weigh(g, zs[i])
    ensures Sum(zs, f) <= Sum(zs, g)
  {
    hide Weigh;
    if zs != [] {
      forall i: nat | i < |zs[1..]| ensures Weigh(f, zs[1..][i]) <= Weigh(g, zs[1..][i]) {
        assert zs[1..][i] == zs[i + 1];
      }
      SumMonotone(zs[1..], f, g);
    }
  }

  function Chosen(zs: seq<Zone>, g: Gauge): set<nat> {
    set i: nat | i < |zs| && Weigh(g, zs[i]) == 1
  }

  lemma ChosenAppend(zs: seq<Zone>, z: Zone, g: Gauge)
    ensures |Chosen(zs + [z], g)| == |Chosen(zs, g)| + if Weigh(g, z) == 1 then 1 else 0
  {
    hide Weigh;
    assert Chosen(zs + [z], g) == if Weigh(g, z) == 1 then Chosen(zs, g) + {|zs|} else Chosen(zs, g);
  }

  lemma {:induction false} SumIsCount(zs: seq<Zone>, g: Gauge)
    requires !g.UsedBlocks? && !g.TotalBlocks?
    ensures Sum(zs, g) == |Chosen(zs, g)|
  {
    hide Sum, Chosen;
    if zs == [] {
      assert Sum(zs, g) == 0 && Chosen(zs, g) == {} by { EmptySum(g); }
    } else {
      var n := |zs| - 1;
      SumIsCount(zs[..n], g);
      assert zs == zs[..n] + [zs[n]];
      SumAppend(zs[..n], zs[n], g);
      ChosenAppend(zs[..n], zs[n], g);
    }
  }

  lemma EmptySum(g: Gauge)
    ensures Sum([], g) == 0 && Chosen([], g) == {}
  {
  }

  // The counters are numbers of zones.
  lemma SumCounts(zs: seq<Zone>)
    ensures Sum(zs, ActiveZones) == |set i: nat | i < |zs| && zs[i].active|
    ensures Sum(zs, WriterZones) == |set i: nat | i < |zs| && zs[i].wrRefs > 0|
    ensures Sum(zs, OpenZones) == |set i: nat | i < |zs| && zs[i].open|
    ensures Sum(zs, Orphans) == |set i: nat | i < |zs| && zs[i].open && zs[i].wrRefs == 0|
  {
    SumIsCount(zs, ActiveZones);
    SumIsCount(zs, WriterZones);
    SumIsCount(zs, OpenZones);
    SumIsCount(zs, Orphans);
    hide Sum;
    assert (set i: nat | i < |zs| && zs[i].active) == Chosen(zs, ActiveZones);
    assert (set i: nat | i < |zs| && zs[i].wrRefs > 0) == Chosen(zs, WriterZones);
    assert (set i: nat | i < |zs| && zs[i].open) == Chosen(zs, OpenZones);
    assert (set i: nat | i < |zs| && zs[i].open && zs[i].wrRefs == 0) == Chosen(zs, Orphans);
  }

  // An explicitly open zone either has a writer or was left open by a failed close.
  lemma {:induction false} OpenZonesHaveWriters(zs: seq<Zone>)
    ensures Sum(zs, OpenZones) <= Sum(zs, WriterZones) + Sum(zs, Orphans)
  {
    if zs != [] { OpenZonesHaveWriters(zs[1..]); }
  }

  function AtMostTotal(n: nat, total: nat): nat {
    if n > total then total else n
  }

  lemma QuotientOf(n: nat, k: int, bs: nat)
    requires bs > 0 && n == k * bs
    ensures n / bs == k
  {
    var q := n / bs;
    assert n == q * bs + n % bs;
    assert q < k ==> (q + 1) * bs <= k * bs;
    assert q > k ==> (k + 1) * bs <= q * bs;
  }

  lemma BlocksApart(a: nat, b: nat, bs: nat)
    requires bs > 0 && a >= b && a % bs == 0 && b % bs == 0
    ensures (a - b) / bs == a / bs - b / bs
  {
    var k := a / bs - b / bs;
    assert a - b == k * bs by {
      assert a == a / bs * bs && b == b / bs * bs;
    }
    QuotientOf(a - b, k, bs);
  }

  lemma BlocksMonotone(a: nat, b: nat, bs: nat)
    requires a <= b
    ensures Blocks(a, bs) <= Blocks(b, bs)
  {
    if bs > 0 && b / bs < a / bs {
      assert (b / bs + 1) * bs <= a / bs * bs;
    }
  }

  // ---------- what every operation keeps ----------

  // A zone counts as active when it is usable and open or partly written.
  predicate ShouldBeActive(z: Zone) {
    !z.cnv && !z.offline && !z.readonly && (z.open || 0 < z.wp < z.cap)
  }

  predicate Aligned(bytes: nat, mount: Mount) {
    mount.blockSize > 0 && bytes % mount.blockSize == 0
  }

  // All but the agreement of the active flag.
  predicate SizesGood(z: Zone, mount: Mount) {
    && z.cap > 0 && z.wp <= z.cap && z.isize <= z.cap
    && Aligned(z.cap, mount) && Aligned(z.isize, mount)
    && (z.open ==> mount.explicitOpen)
    && (z.cnv ==> !z.active && !z.open && z.wrRefs == 0)
  }

  predicate ZoneGood(z: Zone, mount: Mount) {
    SizesGood(z, mount) && (z.active <==> ShouldBeActive(z))
  }

  function SizeSum(zs: seq<Zone>): nat {
    if zs == [] then 0 else zs[0].isize + SizeSum(zs[1..])
  }

  function CapacitySum(zs: seq<Zone>): nat {
    if zs == [] then 0 else zs[0].cap + CapacitySum(zs[1..])
  }

  // Used and total blocks hold just the bytes of all files and of all zones.
  lemma {:induction false} BlocksHoldSizes(zs: seq<Zone>, mount: Mount)
    requires forall i: nat | i < |zs| :: SizesGood(zs[i], mount)
    ensures Sum(zs, UsedBlocks(mount.blockSize)) * mount.blockSize == SizeSum(zs)
    ensures Sum(zs, TotalBlocks(mount.blockSize)) * mount.blockSize == CapacitySum(zs)
  {
    if zs != [] {
      var bs, z, rest := mount.blockSize, zs[0], zs[1..];
      forall i: nat | i < |rest| ensures SizesGood(rest[i], mount) { assert rest[i] == zs[i + 1]; }
      BlocksHoldSizes(rest, mount);
      assert SizesGood(z, mount);
      WholeBlocks(z.isize, bs, Sum(rest, UsedBlocks(bs)));
      WholeBlocks(z.cap, bs, Sum(rest, TotalBlocks(bs)));
    }
  }

  lemma WholeBlocks(bytes: nat, bs: nat, more: nat)
    requires bs > 0 && bytes % bs == 0
    ensures (Blocks(bytes, bs) + more) * bs == bytes + more * bs
  {
    assert bytes == bytes / bs * bs;
  }

  // ---------- error recovery ----------

  // The amount of data a report says the zone holds.
  function Held(z: Zone, report: Report): int {
    match report
    case NoReport => z.isize
    case Report(CondOffline, _) => 0
    case Report(CondReadonly, _) => if z.cnv then z.cap else z.wp
    case Report(CondFull, _) => z.cap
    case Report(CondOther, devWp) => if z.cnv then z.cap else devWp
  }

  predicate Usable(z: Zone, report: Report) {
    !z.offline && !z.readonly && !(report.Report? && (report.cond.CondOffline? || report.cond.CondReadonly?))
  }

  // A read error on a healthy zone whose size agrees with the device changes nothing.
  predicate Harmless(z: Zone, report: Report, write: bool) {
    report.NoReport? || (Usable(z, report) && !write && z.isize == Held(z, report))
  }

  // An error that makes the whole mount read-only.
  predicate EndsWrites(z: Zone, mount: Mount, report: Report, write: bool) {
    report.NoReport? || (mount.errors == RemountRo && !Harmless(z, report, write))
  }

  // What recovery makes of zone z.
  predicate Recovered(z: Zone, y: Zone, mount: Mount, report: Report, write: bool) {
    if Harmless(z, report, write) then y == z
    else
      && y.cnv == z.cnv && y.cap == z.cap && y.wrRefs == z.wrRefs
      && y.offline == (z.offline || (report.Report? && report.cond.CondOffline?) || mount.errors == ZoneOffline)
      && y.readonly == (z.readonly || (report.Report? && report.cond.CondReadonly?)
                        || (!y.offline && mount.errors == ZoneRo))
      && y.wp == y.isize
      && y.isize == (if y.offline then 0
                     else if y.readonly || (mount.errors == RemountRo && z.isize < Held(z, report)) then z.isize
                     else Held(z, report))
      && y.open == (z.open && !y.offline && !y.readonly && y.isize < y.cap)
      && y.active == ShouldBeActive(y)
  }

  predicate ReportFits(z: Zone, mount: Mount, report: Report) {
    report.Report? && report.cond.CondOther? && !z.cnv ==> 0 <= report.devWp <= z.cap && Aligned(report.devWp, mount)
  }

  // What recovery comes to, condition by condition.
  lemma RecoveredMeans(z: Zone, y: Zone, mount: Mount, report: Report, write: bool)
    requires Recovered(z, y, mount, report, write)
    ensures report.NoReport? ==> y == z && EndsWrites(z, mount, report, write)
    ensures report.Report? ==>
      var amount := if z.cnv || report.cond.CondFull? then z.cap else report.devWp;
      var bad := z.offline || z.readonly || report.cond.CondOffline? || report.cond.CondReadonly?;
      if !bad && !write && z.isize == amount then y == z && !EndsWrites(z, mount, report, write)
      else
        && (EndsWrites(z, mount, report, write) <==> mount.errors == RemountRo)
        && y.cnv == z.cnv && y.cap == z.cap && y.wrRefs == z.wrRefs && y.wp == y.isize
        && (y.active <==> !z.cnv && !y.offline && !y.readonly && (y.open || 0 < y.wp < z.cap))
        && if z.offline || report.cond.CondOffline? || mount.errors == ZoneOffline then
             y.offline && y.readonly == (z.readonly || report.cond.CondReadonly?) && y.isize == 0 && !y.open
           else if z.readonly || report.cond.CondReadonly? || mount.errors == ZoneRo then
             !y.offline && y.readonly && y.isize == z.isize && !y.open
           else
             && !y.offline && !y.readonly && y.open == (z.open && y.isize < z.cap)
             && y.isize == if mount.errors == RemountRo && amount > z.isize then z.isize else amount
  {
  }

  // The write pointer reported of a full zone says nothing: the zone holds its
  // capacity. A read error leaves a full file there alone.
  lemma FullZone(z: Zone, y: Zone, mount: Mount, devWp: int, other: int, write: bool)
    ensures Recovered(z, y, mount, Report(CondFull, devWp), write) <==>
            Recovered(z, y, mount, Report(CondFull, other), write)
    ensures !z.offline && !z.readonly && z.isize == z.cap && !write ==>
      (Recovered(z, y, mount, Report(CondFull, devWp), write) <==> y == z)
    ensures !z.offline && !z.readonly && mount.errors == Repair && (z.isize != z.cap || write) ==>
      (Recovered(z, y, mount, Report(CondFull, devWp), write) ==> y.isize == y.wp == y.cap == z.cap)
  {
  }

  // The second recovery after a failed asynchronous write changes nothing.
  lemma RecoverTwice(z: Zone, y: Zone, w: Zone, mount: Mount, report: Report)
    requires Recovered(z, y, mount, report, true) && Recovered(y, w, mount, report, true)
    ensures w == y
  {
    assert Harmless(z, report, true) <==> report.NoReport?;
    if !report.NoReport? {
      assert w.offline == y.offline && w.readonly == y.readonly;
      assert w.isize == y.isize;
    }
  }

  // Data past the recorded size is exposed by recovery exactly when the mount repairs.
  lemma RecoveryExposes(z: Zone, y: Zone, mount: Mount, report: Report, write: bool)
    requires Recovered(z, y, mount, report, write)
    ensures y.isize > z.isize <==> mount.errors == Repair && !y.offline && !y.readonly && Held(z, report) > z.isize
  {
    if Harmless(z, report, write) {
      assert report.NoReport? ==> Held(z, report) == z.isize;
    }
  }

  // ---------- direct writes ----------

  // zonefs_write_check_limits: how many bytes may be written at pos, or EFBIG.
  function Allowed(z: Zone, pos: nat, count: nat, limit: Limit, largeFile: bool): (r: int)
    ensures r < 0 ==> r == EFBIG
    ensures r < 0 <==> pos >= z.cap || (limit.AtMost? && pos >= limit.bytes) || (!largeFile && pos >= MAX_NON_LFS)
    ensures r >= 0 ==> r <= count && pos + r <= z.cap && (count > 0 ==> r > 0)
    ensures r >= 0 && limit.AtMost? ==> pos + r <= limit.bytes
    ensures r >= 0 && r < count ==>
      pos + r == z.cap || limit == AtMost(pos + r) || (!largeFile && pos + r == MAX_NON_LFS)
  {
    if limit.AtMost? && pos >= limit.bytes then EFBIG
    else
      var c := if limit.AtMost? && limit.bytes - pos < count then limit.bytes - pos else count;
      var m := if !largeFile && MAX_NON_LFS < z.cap then MAX_NON_LFS else z.cap;
      if pos >= m then EFBIG else if c < m - pos then c else m - pos
  }

  // A write the zone accepts: whole blocks, and in a sequential zone at its write pointer.
  predicate Admits(z: Zone, mount: Mount, pos: nat, count: int) {
    count > 0 && Aligned(pos, mount) && Aligned(count, mount) && (!z.cnv ==> pos == z.wp)
  }

  // The write pointer moved ahead of the data.
  function Issued(z: Zone, end: nat): Zone {
    var y := z.(wp := end);
    y.(active := ShouldBeActive(y))
  }

  // The size raised to the end of a completed write; a full zone is closed.
  function Completed(z: Zone, end: nat): Zone {
    if end <= z.isize then z
    else if end < z.cap then z.(isize := end)
    else z.(isize := end, open := false, active := false)
  }

  // A completion that fills a usable zone whose write pointer was rolled back.
  predicate Overtaken(z: Zone, end: nat) {
    z.isize < end && end == z.cap && !z.offline && !z.readonly && 0 < z.wp < z.cap
  }

  // What a write of count bytes at pos makes of a sequential zone that admits it.
  predicate WriteEffect(z: Zone, y: Zone, mount: Mount, pos: nat, count: nat, done: Completion, report: Report) {
    var moved := Issued(z, pos + count);
    match done
    case Queued => y == moved
    case Written => y == Completed(moved, pos + count)
    case Short(bytes) => Recovered(Completed(moved, pos + bytes), y, mount, report, true)
    case Failed(_) => Recovered(moved, y, mount, report, true)
  }

  // The record after the write pointer moved, and what each answer makes of it: size,
  // write pointer and flags of a sequential zone written out.
  lemma WriteEffectMeans(z: Zone, y: Zone, mount: Mount, pos: nat, count: nat, done: Completion, report: Report)
    requires WriteEffect(z, y, mount, pos, count, done, report) && !z.cnv && count > 0
    ensures var active := !z.offline && !z.readonly && (z.open || pos + count < z.cap);
      var moved := z.(wp := pos + count, active := active);
      match done
      case Queued => y == moved
      case Written =>
        var full := z.isize < pos + count && pos + count >= z.cap;
        y == moved.(isize := if z.isize < pos + count then pos + count else z.isize,
                    open := z.open && !full, active := active && !full)
      case Short(bytes) =>
        var full := z.isize < pos + bytes && pos + bytes >= z.cap;
        Recovered(moved.(isize := if z.isize < pos + bytes then pos + bytes else z.isize,
                         open := z.open && !full, active := active && !full), y, mount, report, true)
      case Failed(_) => Recovered(moved, y, mount, report, true)
  {
    hide Recovered;
  }

  // A failed or short write that makes the whole mount read-only.
  predicate WriteEndsWrites(mount: Mount, done: Completion, report: Report) {
    (done.Short? || done.Failed?) && (report.NoReport? || mount.errors == RemountRo)
  }

  predicate CompletionFits(done: Completion, count: int, mount: Mount) {
    match done
    case Short(bytes) => 0 < bytes < count && Aligned(bytes, mount)
    case Failed(error) => error < 0 && error != EIOCBQUEUED
    case _ => true
  }

  class ZonedFs {
    const mount: Mount
    var zones: seq<Zone>
    var activeFiles: nat    // s_active_seq_files
    var wroFiles: nat       // s_wro_seq_files
    var usedBlocks: nat     // s_used_blocks
    var totalBlocks: nat    // s_blocks
    var readonlySb: bool
    ghost var held: nat     // counts of wroFiles that belong to no zone with a writer

    // The counters are exact.
    ghost predicate Counted()
      reads this`zones, this`activeFiles, this`wroFiles, this`usedBlocks, this`totalBlocks, this`held
    {
      && mount.blockSize > 0
      && activeFiles == Sum(zones, ActiveZones)
      && wroFiles == Sum(zones, WriterZones) + held
      && Sum(zones, Orphans) <= held
      && usedBlocks == Sum(zones, UsedBlocks(mount.blockSize))
      && totalBlocks == Sum(zones, TotalBlocks(mount.blockSize))
    }

    // Every zone is consistent, except that zone i may be in the middle of an update.
    ghost predicate GoodBut(i: nat)
      reads this`zones, this`activeFiles, this`wroFiles, this`usedBlocks, this`totalBlocks, this`held
    {
      && i < |zones| && SizesGood(zones[i], mount) && Counted()
      && (forall j: nat | j < |zones| && j != i :: ZoneGood(zones[j], mount))
    }

    ghost predicate Consistent()
      reads this`zones, this`activeFiles, this`wroFiles, this`usedBlocks, this`totalBlocks, this`held
    {
      Counted() && forall j: nat | j < |zones| :: ZoneGood(zones[j], mount)
    }

    ghost predicate Good()
      reads this`zones, this`activeFiles, this`wroFiles, this`usedBlocks, this`totalBlocks, this`held
    {
      Consistent() && (mount.explicitOpen && mount.maxWro > 0 ==> wroFiles <= mount.maxWro)
    }

    // Neither the zones with a writer nor the explicitly open ones exceed the limit.
    lemma WithinLimit()
      requires Good() && mount.explicitOpen && mount.maxWro > 0
      ensures Sum(zones, WriterZones) <= mount.maxWro
      ensures Sum(zones, OpenZones) <= mount.maxWro
      ensures usedBlocks <= totalBlocks
    {
      OpenZonesHaveWriters(zones);
      UsedWithinTotal(zones);
    }

    // Mounting: every zone file is accounted in turn (the loop of zonefs_init_zgroup).
    constructor (mount: Mount, found: seq<Zone>)
      requires mount.blockSize > 0
      requires forall i: nat | i < |found| ::
        SizesGood(found[i], mount) && !found[i].open && !found[i].active && found[i].wrRefs == 0
      ensures this.mount == mount && Good() && wroFiles == 0 && !readonlySb
      ensures |zones| == |found|
      ensures forall i: nat | i < |found| :: zones[i] == found[i].(active := ShouldBeActive(found[i]))
    {
      this.mount := mount;
      zones, activeFiles, wroFiles, usedBlocks, totalBlocks, readonlySb, held := [], 0, 0, 0, 0, false, 0;
      new;
      hide SizesGood, ShouldBeActive;
      for k := 0 to |found|
        invariant this.mount == mount && Consistent() && wroFiles == 0 && held == 0 && !readonlySb
        invariant |zones| == k
        invariant forall i: nat | i < k :: zones[i] == found[i].(active := ShouldBeActive(found[i]))
      {
        MountZone(found[k]);
      }
    }

    // One round of that loop.
    method MountZone(z: Zone)
      requires Consistent() && SizesGood(z, mount) && !z.open && !z.active && z.wrRefs == 0
      modifies this`zones, this`activeFiles, this`usedBlocks, this`totalBlocks
      ensures Consistent() && zones == old(zones) + [z.(active := ShouldBeActive(z))]
    {
      hide Sum, SizesGood;
      SumAppend(zones, z, ActiveZones);
      SumAppend(zones, z, WriterZones);
      SumAppend(zones, z, Orphans);
      SumAppend(zones, z, UsedBlocks(mount.blockSize));
      SumAppend(zones, z, TotalBlocks(mount.blockSize));
      totalBlocks := totalBlocks + z.cap / mount.blockSize;
      usedBlocks := usedBlocks + z.isize / mount.blockSize;
      zones := zones + [z];
      AccountActive(|zones| - 1);
    }

    // The sums after zone i is replaced.
    lemma Replaced(i: nat, z: Zone)
      requires i < |zones|
      ensures Sum(zones[i := z], ActiveZones) + Weigh(ActiveZones, zones[i]) ==
        Sum(zones, ActiveZones) + Weigh(ActiveZones, z)
      ensures Sum(zones[i := z], WriterZones) + Weigh(WriterZones, zones[i]) ==
        Sum(zones, WriterZones) + Weigh(WriterZones, z)
      ensures Sum(zones[i := z], Orphans) + Weigh(Orphans, zones[i]) == Sum(zones, Orphans) + Weigh(Orphans, z)
      ensures Sum(zones[i := z], UsedBlocks(mount.blockSize)) + Weigh(UsedBlocks(mount.blockSize), zones[i])
           == Sum(zones, UsedBlocks(mount.blockSize)) + Weigh(UsedBlocks(mount.blockSize), z)
      ensures Sum(zones[i := z], TotalBlocks(mount.blockSize)) + Weigh(TotalBlocks(mount.blockSize), zones[i])
           == Sum(zones, TotalBlocks(mount.blockSize)) + Weigh(TotalBlocks(mount.blockSize), z)
    {
      SumUpdate(zones, i, z, ActiveZones);
      SumUpdate(zones, i, z, WriterZones);
      SumUpdate(zones, i, z, Orphans);
      SumUpdate(zones, i, z, UsedBlocks(mount.blockSize));
      SumUpdate(zones, i, z, TotalBlocks(mount.blockSize));
    }

    lemma Basics(i: nat)
      requires Good() && i < |zones|
      ensures mount.blockSize > 0 && SizesGood(zones[i], mount) && Aligned(zones[i].cap, mount)
    {
    }

    lemma Zoom(i: nat)
      requires Consistent() && i < |zones|
      ensures GoodBut(i) && ZoneGood(zones[i], mount) && SizesGood(zones[i], mount)
    {
      hide Counted;
    }

    lemma Whole(i: nat)
      requires GoodBut(i) && ZoneGood(zones[i], mount)
      ensures Consistent()
    {
      hide Counted;
    }

    lemma InRange(i: nat)
      requires GoodBut(i)
      ensures i < |zones| && SizesGood(zones[i], mount) && mount.blockSize > 0
    {
    }

    // Replaces a zone record where no counter is concerned.
    method SetZone(i: nat, z: Zone)
      requires GoodBut(i) && SizesGood(z, mount)
      requires z.active == zones[i].active && z.wrRefs == zones[i].wrRefs && (z.open ==> zones[i].open)
      requires z.isize == zones[i].isize && z.cap == zones[i].cap
      modifies this`zones
      ensures GoodBut(i) && zones == old(zones)[i := z]
      ensures Sum(zones, Orphans) ==
        Sum(old(zones), Orphans) - (if z.wrRefs == 0 && old(zones)[i].open && !z.open then 1 else 0)
    {
      hide Sum, ZoneGood;
      Replaced(i, z);
      zones := zones[i := z];
    }

    // Sets or clears the active flag of a zone, and counts it.
    method SetActive(i: nat, active: bool)
      requires GoodBut(i) && zones[i].active != active && (zones[i].cnv ==> !active)
      modifies this`zones, this`activeFiles
      ensures GoodBut(i) && zones == old(zones)[i := old(zones)[i].(active := active)]
      ensures Sum(zones, Orphans) == Sum(old(zones), Orphans)
    {
      hide Sum, ZoneGood;
      var z := zones[i].(active := active);
      Replaced(i, z);
      activeFiles := if active then activeFiles + 1 else activeFiles - 1;
      zones := zones[i := z];
    }

    // zonefs_account_active.
    method AccountActive(i: nat)
      requires GoodBut(i)
      modifies this`zones, this`activeFiles
      ensures Consistent() && zones == old(zones)[i := old(zones)[i].(active := ShouldBeActive(old(zones)[i]))]
      ensures var z := zones[i];
        z.active <==> !z.cnv && !z.offline && !z.readonly && (z.open || (z.wp > 0 && z.wp < z.cap))
      ensures Sum(zones, Orphans) == Sum(old(zones), Orphans)
    {
      hide Sum, GoodBut, Consistent;
      InRange(i);
      var z := zones[i];
      assert zones[i := z.(active := z.active)] == zones;
      if z.cnv {
        Whole(i);
        return;
      }
      if !(z.offline || z.readonly) {
        if z.open || (z.wp > 0 && z.wp < z.cap) {
          if !z.active {
            SetActive(i, true);
          }
          Whole(i);
          return;
        }
      }
      if z.active {
        SetActive(i, false);
      }
      Whole(i);
    }

    // zonefs_update_stats with the size change it announces: its clamps never fire.
    method Resize(i: nat, isize: nat)
      requires GoodBut(i) && isize <= zones[i].cap && Aligned(isize, mount)
      modifies this`zones, this`usedBlocks
      ensures GoodBut(i) && zones == old(zones)[i := old(zones)[i].(isize := isize)]
    {
      hide Sum;
      var z := zones[i];
      var y := z.(isize := isize);
      Replaced(i, y);
      SumAtLeast(zones, i, UsedBlocks(mount.blockSize));
      UsedWithinTotal(zones[i := y]);
      if isize < z.isize {
        BlocksApart(z.isize, isize, mount.blockSize);
        var blocks := (z.isize - isize) / mount.blockSize;
        usedBlocks := if usedBlocks > blocks then usedBlocks - blocks else 0;
      } else if isize > z.isize {
        BlocksApart(isize, z.isize, mount.blockSize);
        var grown := usedBlocks + (isize - z.isize) / mount.blockSize;
        usedBlocks := AtMostTotal(grown, totalBlocks);
      }
      zones := zones[i := y];
    }

    lemma UsedWithinTotal(zs: seq<Zone>)
      requires forall j: nat | j < |zs| :: SizesGood(zs[j], mount)
      ensures Sum(zs, UsedBlocks(mount.blockSize)) <= Sum(zs, TotalBlocks(mount.blockSize))
    {
      var f, g := UsedBlocks(mount.blockSize), TotalBlocks(mount.blockSize);
      forall j: nat | j < |zs| ensures Weigh(f, zs[j]) <= Weigh(g, zs[j]) {
        BlocksMonotone(zs[j].isize, zs[j].cap, mount.blockSize);
      }
      SumMonotone(zs, f, g);
    }

    // The end of zonefs_i_size_write: a full zone is no longer open or active.
    method CloseFull(i: nat)
      requires GoodBut(i)
      modifies this`zones, this`activeFiles
      ensures GoodBut(i) && zones == old(zones)[i := old(zones)[i].(open := false, active := false)]
    {
      hide Sum, ZoneGood;
      var z := zones[i].(open := false, active := false);
      Replaced(i, z);
      if zones[i].active {
        activeFiles := activeFiles - 1;
      }
      zones := zones[i := z];
    }

    // zonefs_update_stats and zonefs_i_size_write: a full zone is no longer open or active.
    method SizeWrite(i: nat, isize: nat)
      requires GoodBut(i) && isize <= zones[i].cap && Aligned(isize, mount)
      modifies this`zones, this`activeFiles, this`usedBlocks
      ensures GoodBut(i)
      ensures zones == old(zones)[i := if isize >= old(zones)[i].cap
                then old(zones)[i].(isize := isize, open := false, active := false) else old(zones)[i].(isize := isize)]
    {
      hide GoodBut, Aligned;
      InRange(i);
      Resize(i, isize);
      InRange(i);
      if isize >= zones[i].cap {
        CloseFull(i);
      }
    }

    // The part of zonefs_handle_io_error that weighs the report and the mount options.
    method Judge(z: Zone, report: Report) returns (y: Zone, data: nat)
      requires SizesGood(z, mount) && ReportFits(z, mount, report) && report.Report?
      ensures var offline := z.offline || report.cond.CondOffline? || mount.errors == ZoneOffline;
        var readonly := z.readonly || report.cond.CondReadonly? || (!offline && mount.errors == ZoneRo);
        y == z.(offline := offline, readonly := readonly, open := z.open && !offline && !readonly)
      ensures data == if y.offline then 0
        else if y.readonly || (mount.errors == RemountRo && z.isize < Held(z, report)) then z.isize else Held(z, report)
      ensures data <= z.cap && Aligned(data, mount)
    {
      data := Held(z, report);
      y := match report.cond
        case CondOffline => z.(offline := true)
        case CondReadonly => z.(readonly := true)
        case _ => z;
      if y.offline || mount.errors == ZoneOffline {
        y := y.(offline := true);
        data := 0;
      } else if y.readonly || mount.errors == ZoneRo {
        y := y.(readonly := true);
        data := z.isize;
      } else if mount.errors == RemountRo && data > z.isize {
        data := z.isize;
      }
      if mount.explicitOpen && (y.readonly || y.offline) {
        y := y.(open := false);
      }
    }

    lemma MeansReadOnly(z: Zone, report: Report, write: bool)
      requires report.Report? && mount.errors == RemountRo
      ensures var amount := if z.cnv || report.cond.CondFull? then z.cap else report.devWp;
        var bad := z.offline || z.readonly || report.cond.CondOffline? || report.cond.CondReadonly?;
        EndsWrites(z, mount, report, write) <==> bad || write || z.isize != amount
    {
    }

    lemma Untouched(z: Zone, report: Report, write: bool)
      requires Harmless(z, report, write)
      ensures Recovered(z, z, mount, report, write) && EndsWrites(z, mount, report, write) == report.NoReport?
    {
    }

    lemma RecoveredBy(z: Zone, y: Zone, data: nat, report: Report, write: bool)
      requires report.Report? && !Harmless(z, report, write)
      requires var offline := z.offline || report.cond.CondOffline? || mount.errors == ZoneOffline;
        var readonly := z.readonly || report.cond.CondReadonly? || (!offline && mount.errors == ZoneRo);
        y == z.(offline := offline, readonly := readonly, open := z.open && !offline && !readonly)
      requires data == if y.offline then 0
        else if y.readonly || (mount.errors == RemountRo && z.isize < Held(z, report)) then z.isize else Held(z, report)
      ensures var w := y.(wp := data, isize := data, open := y.open && data < y.cap);
        Recovered(z, w.(active := ShouldBeActive(w)), mount, report, write)
      ensures EndsWrites(z, mount, report, write) <==> mount.errors == RemountRo
    {
    }

    // __zonefs_io_error and zonefs_handle_io_error.
    method HandleIoError(i: nat, report: Report, write: bool)
      requires Consistent() && i < |zones| && ReportFits(zones[i], mount, report)
      modifies this`zones, this`activeFiles, this`usedBlocks, this`readonlySb
      ensures Consistent() && |zones| == |old(zones)|
      ensures zones == old(zones)[i := zones[i]]
      ensures Recovered(old(zones)[i], zones[i], mount, report, write)
      ensures readonlySb == (old(readonlySb) || EndsWrites(old(zones)[i], mount, report, write))
      ensures report.Report? && mount.errors == RemountRo ==>
        var z := old(zones)[i];
        var amount := if z.cnv || report.cond.CondFull? then z.cap else report.devWp;
        var bad := z.offline || z.readonly || report.cond.CondOffline? || report.cond.CondReadonly?;
        readonlySb == (old(readonlySb) || bad || write || z.isize != amount)
    {
      hide Consistent, GoodBut, SizesGood, ReportFits, Recovered, ShouldBeActive, EndsWrites;
      assert zones[i := zones[i]] == zones;
      if report.Report? && mount.errors == RemountRo { MeansReadOnly(zones[i], report, write); }
      if report.NoReport? {
        readonlySb := true;
        Untouched(zones[i], report, write);
        return;
      }
      var z := zones[i];
      Zoom(i);
      if Usable(z, report) && !write && z.isize == Held(z, report) {
        Untouched(z, report, write);
        return;
      }
      var y, data := Judge(z, report);
      if mount.errors == RemountRo && !readonlySb {
        readonlySb := true;
      }
      ApplyRecovery(i, y, data);
      assert zones == old(zones)[i := zones[i]];
      RecoveredBy(z, y, data, report, write);
    }

    // The end of zonefs_handle_io_error: size and write pointer become data.
    method ApplyRecovery(i: nat, y: Zone, data: nat)
      requires Consistent() && i < |zones| && data <= zones[i].cap && Aligned(data, mount)
      requires y == zones[i].(offline := y.offline, readonly := y.readonly, open := y.open)
      requires y.open ==> zones[i].open
      modifies this`zones, this`activeFiles, this`usedBlocks
      ensures Consistent()
      ensures var w := y.(wp := data, isize := data, open := y.open && data < y.cap);
        zones == old(zones)[i := w.(active := ShouldBeActive(w))]
    {
      hide Consistent, GoodBut, Aligned, Sum;
      Zoom(i);
      SetZone(i, y);
      SizeWrite(i, data);
      InRange(i);
      SetZone(i, zones[i].(wp := data));
      AccountActive(i);
    }

    // One count of write-open files more, for a file about to be opened.
    method AcquireCount()
      requires Consistent()
      modifies this`wroFiles, this`held
      ensures Consistent() && wroFiles == old(wroFiles) + 1 && held == old(held) + 1
      ensures Sum(zones, Orphans) < held
    {
      hide Sum, ZoneGood;
      wroFiles, held := wroFiles + 1, held + 1;
    }

    // One count of write-open files less, that no zone needs.
    method ReleaseCount()
      requires Consistent() && Sum(zones, Orphans) < held
      modifies this`wroFiles, this`held
      ensures Consistent() && wroFiles == old(wroFiles) - 1 && held == old(held) - 1
    {
      hide Sum, ZoneGood;
      wroFiles, held := wroFiles - 1, held - 1;
    }

    // Marks zone i explicitly open while its opener holds a count.
    method MarkOpen(i: nat)
      requires Consistent() && i < |zones| && !zones[i].cnv && zones[i].wrRefs == 0 && mount.explicitOpen
      requires Sum(zones, Orphans) < held
      modifies this`zones, this`activeFiles
      ensures Consistent()
      ensures var y := old(zones)[i].(open := true); zones == old(zones)[i := y.(active := ShouldBeActive(y))]
      ensures Sum(zones, Orphans) <= held
    {
      hide Sum;
      var z := zones[i].(open := true);
      Replaced(i, z);
      zones := zones[i := z];
      AccountActive(i);
    }

    // Takes one more reference on zone i, with the count its opener holds if it is the first.
    method AddRef(i: nat)
      requires Consistent() && i < |zones| && !zones[i].cnv
      requires zones[i].wrRefs == 0 ==> held > 0 && Sum(zones, Orphans) <= held - (if zones[i].open then 0 else 1)
      modifies this`zones, this`held
      ensures Consistent() && zones == old(zones)[i := old(zones)[i].(wrRefs := old(zones)[i].wrRefs + 1)]
      ensures held == old(held) - (if old(zones)[i].wrRefs == 0 then 1 else 0)
    {
      hide Sum;
      if zones[i].wrRefs == 0 {
        held := held - 1;
      }
      var z := zones[i].(wrRefs := zones[i].wrRefs + 1);
      Replaced(i, z);
      zones := zones[i := z];
    }

    // The first open for writing of zone i, before it takes its reference.
    method FirstOpen(i: nat, device: int) returns (r: int)
      requires Good() && i < |zones| && !zones[i].cnv && zones[i].wrRefs == 0
      modifies this`zones, this`activeFiles, this`wroFiles, this`held
      ensures Consistent()
      ensures var z := old(zones)[i];
        var busy := mount.explicitOpen && 0 < mount.maxWro == old(wroFiles);
        var asks := mount.explicitOpen && !busy && z.isize < z.cap;
        && r == (if busy then EBUSY else if asks then device else 0)
        && if r != 0 then zones == old(zones) && wroFiles == old(wroFiles) && held == old(held)
           else
             var y := z.(open := z.open || asks);
             && zones == old(zones)[i := if asks then y.(active := ShouldBeActive(y)) else y]
             && wroFiles == old(wroFiles) + 1 && held == old(held) + 1
      ensures mount.explicitOpen && mount.maxWro > 0 ==> wroFiles <= mount.maxWro
      ensures r == 0 ==> Sum(zones, Orphans) <= held - (if zones[i].open then 0 else 1)
    {
      hide Sum, Consistent, ShouldBeActive;
      assert zones == old(zones)[i := zones[i]];
      r := 0;
      AcquireCount();
      if mount.explicitOpen {
        if mount.maxWro > 0 && wroFiles > mount.maxWro {
          ReleaseCount();
          return EBUSY;
        }
        if zones[i].isize < zones[i].cap {
          r := device;
          if r != 0 {
            ReleaseCount();
            return;
          }
          MarkOpen(i);
        }
      }
    }

    // zonefs_seq_file_write_open; device is what the device returns to the explicit
    // open, 0 when it agrees.
    method WriteOpen(i: nat, device: int) returns (r: int)
      requires Good() && i < |zones| && !zones[i].cnv
      modifies this`zones, this`activeFiles, this`wroFiles, this`held
      ensures Good() && |zones| == |old(zones)| && zones == old(zones)[i := zones[i]] && held == old(held)
      ensures var z := old(zones)[i];
        var first := z.wrRefs == 0 && mount.explicitOpen;
        var busy := first && 0 < mount.maxWro == old(wroFiles);
        var asks := first && !busy && z.isize < z.cap;
        && r == (if busy then EBUSY else if asks then device else 0)
        && if busy || (asks && device != 0) then zones == old(zones) && wroFiles == old(wroFiles)
           else
             var y := z.(wrRefs := z.wrRefs + 1, open := z.open || asks);
             && zones[i] == (if asks then y.(active := ShouldBeActive(y)) else y)
             && wroFiles == old(wroFiles) + (if z.wrRefs == 0 then 1 else 0)
    {
      hide Sum, Consistent;
      assert zones == old(zones)[i := zones[i]];
      r := 0;
      if zones[i].wrRefs == 0 {
        r := FirstOpen(i, device);
        if r != 0 {
          return;
        }
      }
      AddRef(i);
      assert zones == old(zones)[i := zones[i]];
    }

    // One reference less on zone i; the last one leaves its count behind.
    method DropRef(i: nat)
      requires Consistent() && i < |zones| && zones[i].wrRefs > 0
      modifies this`zones, this`held
      ensures Consistent() && zones == old(zones)[i := old(zones)[i].(wrRefs := old(zones)[i].wrRefs - 1)]
      ensures held == old(held) + (if old(zones)[i].wrRefs == 1 then 1 else 0)
      ensures Sum(zones, Orphans) <= old(held) + (if old(zones)[i].wrRefs == 1 && old(zones)[i].open then 1 else 0)
    {
      hide Sum;
      var z := zones[i].(wrRefs := zones[i].wrRefs - 1);
      Replaced(i, z);
      zones := zones[i := z];
      if z.wrRefs == 0 {
        held := held + 1;
      }
    }

    // zonefs_seq_file_write_close; closeOk is the device's answer to the explicit close.
    method WriteClose(i: nat, closeOk: bool, report: Report)
      requires Good() && i < |zones| && zones[i].wrRefs > 0 && ReportFits(zones[i], mount, report)
      modifies this`zones, this`activeFiles, this`usedBlocks, this`wroFiles, this`held, this`readonlySb
      ensures Good() && |zones| == |old(zones)| && zones == old(zones)[i := zones[i]]
      ensures var z := old(zones)[i].(wrRefs := old(zones)[i].wrRefs - 1);
        if z.wrRefs > 0 || !z.open then zones[i] == z
        else if closeOk then zones[i] == z.(open := false, active := ShouldBeActive(z.(open := false)))
        else Recovered(z, zones[i], mount, report, false)
      ensures var released := old(zones)[i].wrRefs == 1;
        var failed := released && old(zones)[i].open && !closeOk;
        && wroFiles == old(wroFiles) - (if released && !failed then 1 else 0)
        && held == old(held) + (if failed then 1 else 0)
        && readonlySb == (old(readonlySb) || (failed && (zones[i].open
             || EndsWrites(old(zones)[i].(wrRefs := 0), mount, report, false))))
    {
      hide Sum, Consistent, Recovered, ShouldBeActive;
      Zoom(i);
      DropRef(i);
      var z := zones[i];
      assert zones == old(zones)[i := zones[i]];
      if z.wrRefs > 0 {
        return;
      }
      if z.open {
        if !closeOk {
          HandleIoError(i, report, false);
          assert zones == old(zones)[i := zones[i]];
          if zones[i].open && !readonlySb {
            readonlySb := true;
          }
          return;
        }
        Zoom(i);
        SetZone(i, z.(open := false));
        AccountActive(i);
        assert zones == old(zones)[i := zones[i]];
      }
      ReleaseCount();
    }

    // zonefs_file_write_dio_end_io for a write that ended at end without error. The
    // active zones stay exact unless recovery rolled the write pointer back and the
    // zone is full by now.
    method EndIo(i: nat, end: nat)
      requires Good() && i < |zones| && end <= zones[i].cap && Aligned(end, mount) && !zones[i].cnv
      modifies this`zones, this`activeFiles, this`usedBlocks
      ensures GoodBut(i) && zones == old(zones)[i := Completed(old(zones)[i], end)]
      ensures Good() <==> !Overtaken(old(zones)[i], end)
      ensures var z, y := old(zones)[i], zones[i];
        && y.isize == (if z.isize < end then end else z.isize) && y.wp == z.wp
        && if z.isize < end == z.cap then !y.open && !y.active else y.open == z.open && y.active == z.active
    {
      hide Sum, Counted;
      if zones[i].isize < end {
        SizeWrite(i, end);
      }
      assert zones == old(zones)[i := Completed(old(zones)[i], end)];
    }

    // Moves the write pointer of zone i ahead of a write that is about to be issued.
    method Advance(i: nat, end: nat)
      requires Good() && i < |zones| && end <= zones[i].cap
      modifies this`zones, this`activeFiles
      ensures Good() && zones == old(zones)[i := Issued(old(zones)[i], end)]
    {
      hide Sum, Counted;
      SetZone(i, zones[i].(wp := end));
      AccountActive(i);
    }

    // zonefs_write_checks and the checks of zonefs_file_dio_write: the position and the
    // number of bytes to write there, or 0, or an error.
    method WriteChecks(z: Zone, append: bool, pos: nat, count: nat, limit: Limit, largeFile: bool)
      returns (at: nat, n: int)
      requires mount.blockSize > 0
      ensures at == (if append then z.wp else pos)
      ensures n == (if count == 0 then 0
                    else if append && z.cnv then EINVAL
                    else if Allowed(z, at, count, limit, largeFile) < 0 then EFBIG
                    else if !Admits(z, mount, at, Allowed(z, at, count, limit, largeFile)) then EINVAL
                    else Allowed(z, at, count, limit, largeFile))
      ensures n > 0 <==>
        count > 0 && !(append && z.cnv) && Admits(z, mount, at, Allowed(z, at, count, limit, largeFile))
      ensures n > 0 ==> at % mount.blockSize == 0 && n % mount.blockSize == 0 && (z.cnv || at == z.wp)
      ensures n > 0 ==> n <= count && at + n <= z.cap
      ensures count > 0 && at < z.cap && (limit.AtMost? ==> at < limit.bytes) && (largeFile || at < MAX_NON_LFS) ==>
        (at % mount.blockSize != 0 || (!z.cnv && at != z.wp) ==> n == EINVAL)
    {
      at := if append then z.wp else pos;
      if count == 0 {
        return at, 0;
      }
      if append && z.cnv {
        return at, EINVAL;
      }
      n := Allowed(z, at, count, limit, largeFile);
      if n < 0 {
        return;
      }
      if at % mount.blockSize != 0 || n % mount.blockSize != 0 {
        return at, EINVAL;
      }
      if !z.cnv && at != z.wp {
        return at, EINVAL;
      }
    }

    // zonefs_write_checks and zonefs_file_dio_write of count bytes at pos.
    method DioWrite(i: nat, append: bool, pos: nat, count: nat, limit: Limit, largeFile: bool,
                    done: Completion, report: Report)
      returns (r: int)
      requires Good() && i < |zones| && ReportFits(zones[i], mount, report)
      requires CompletionFits(done,
        Allowed(zones[i], if append then zones[i].wp else pos, count, limit, largeFile), mount)
      modifies this`zones, this`activeFiles, this`usedBlocks, this`readonlySb
      ensures Good() && |zones| == |old(zones)| && zones == old(zones)[i := zones[i]]
      ensures var z := old(zones)[i];
        var at := if append then z.wp else pos;
        var n := Allowed(z, at, count, limit, largeFile);
        && (count == 0 ==> r == 0)
        && (count > 0 && append && z.cnv ==> r == EINVAL)
        && (count > 0 && !(append && z.cnv) ==>
              && (n < 0 ==> r == n)
              && (n >= 0 && !Admits(z, mount, at, n) ==> r == EINVAL))
        && if count > 0 && !(append && z.cnv) && Admits(z, mount, at, n) then
             && (z.cnv ==> zones == old(zones) && readonlySb == old(readonlySb))
             && (!z.cnv ==> WriteEffect(z, zones[i], mount, at, n, done, report))
             && (!z.cnv ==> readonlySb == (old(readonlySb) || WriteEndsWrites(mount, done, report)))
             && r == match done {
                  case Queued => EIOCBQUEUED
                  case Written => n
                  case Short(bytes) => if z.cnv then bytes else EIO
                  case Failed(error) => error
                }
           else zones == old(zones) && readonlySb == old(readonlySb)
      ensures var z := old(zones)[i];
        var at := if append then z.wp else pos;
        && (r > 0 || r == EIOCBQUEUED ==> at % mount.blockSize == 0 && (z.cnv || at == z.wp))
        && (r > 0 ==> r % mount.blockSize == 0 && r <= count && at + r <= z.cap)
        && (r == EIOCBQUEUED && !z.cnv ==> at < zones[i].wp && (zones[i].wp - at) % mount.blockSize == 0)
        && (count > 0 && at < z.cap && (limit.AtMost? ==> at < limit.bytes) && (largeFile || at < MAX_NON_LFS) &&
              (at % mount.blockSize != 0 || (!z.cnv && at != z.wp)) ==>
              r == EINVAL && zones == old(zones) && readonlySb == old(readonlySb))
    {
      hide Good, Recovered, Completed, ShouldBeActive, SizesGood, WriteEndsWrites, Admits, Allowed;
      Basics(i);
      var z := zones[i];
      assert zones == old(zones)[i := z];
      var at, n := WriteChecks(z, append, pos, count, limit, largeFile);
      if n <= 0 {
        return n;
      }
      if !z.cnv {
        Advance(i, at + n);
      }
      r := match done
        case Queued => EIOCBQUEUED
        case Written => n
        case Short(bytes) => bytes
        case Failed(error) => error;
      if !z.cnv {
        Conclude(i, at, n, done, report);
        if r > 0 && r != n {
          r := EIO;
        }
      }
      assert zones == old(zones)[i := zones[i]];
    }

    // What follows the device's answer to an issued write, synchronous ones only.
    method Conclude(i: nat, at: nat, n: nat, done: Completion, report: Report)
      requires Good() && i < |zones| && !zones[i].cnv && zones[i].wp == at + n && ReportFits(zones[i], mount, report)
      requires Aligned(at, mount) && Aligned(n, mount) && CompletionFits(done, n, mount)
      modifies this`zones, this`activeFiles, this`usedBlocks, this`readonlySb
      ensures Good() && |zones| == |old(zones)| && zones == old(zones)[i := zones[i]]
      ensures match done
        case Queued => zones == old(zones)
        case Written => zones[i] == Completed(old(zones)[i], at + n)
        case Short(bytes) => Recovered(Completed(old(zones)[i], at + bytes), zones[i], mount, report, true)
        case Failed(_) => Recovered(old(zones)[i], zones[i], mount, report, true)
      ensures readonlySb == (old(readonlySb) || WriteEndsWrites(mount, done, report))
    {
      hide Sum, Counted, Recovered;
      match done {
        case Queued =>
        case Written =>
          AlignedSum(at, n);
          EndIo(i, at + n);
        case Short(bytes) =>
          AlignedSum(at, bytes);
          EndIo(i, at + bytes);
          HandleIoError(i, report, true);
        case Failed(_) =>
          HandleIoError(i, report, true);
      }
      assert zones == old(zones)[i := zones[i]];
    }

    lemma AlignedSum(a: nat, b: nat)
      requires Aligned(a, mount) && Aligned(b, mount)
      ensures Aligned(a + b, mount)
    {
      var bs := mount.blockSize;
      assert a + b == (a / bs + b / bs) * bs by {
        assert a == a / bs * bs && b == b / bs * bs;
      }
      QuotientOf(a + b, a / bs + b / bs, bs);
    }

    // The end of zonefs_file_truncate, after a zone was reset or finished.
    method ApplyTruncate(i: nat, isize: nat)
      requires Consistent() && i < |zones| && isize <= zones[i].cap && Aligned(isize, mount)
      modifies this`zones, this`activeFiles, this`usedBlocks
      ensures Consistent()
      ensures var z := old(zones)[i];
        var y := z.(isize := isize, wp := isize, open := z.open && isize == 0);
        zones == old(zones)[i := y.(active := ShouldBeActive(y))]
    {
      hide Consistent, GoodBut, Aligned, Sum;
      Zoom(i);
      if zones[i].open && isize != 0 {
        SetZone(i, zones[i].(open := false));
      }
      InRange(i);
      Resize(i, isize);
      InRange(i);
      SetZone(i, zones[i].(wp := isize));
      AccountActive(i);
    }

    // zonefs_file_truncate once the direct writes in flight are over; mgmt and reopen
    // are what the device returns to the reset or finish and to the open after a reset.
    method Truncate(i: nat, isize: nat, mgmt: int, reopen: int) returns (r: int)
      requires Good() && i < |zones|
      modifies this`zones, this`activeFiles, this`usedBlocks
      ensures Good()
      ensures var z := old(zones)[i];
        var accepted := !z.cnv && (isize == 0 || isize == z.cap);
        && r == (if !accepted then EPERM else if isize == z.isize then 0 else if mgmt != 0 then mgmt
                 else if z.open && isize == 0 then reopen else 0)
        && if !accepted || isize == z.isize || mgmt != 0 then zones == old(zones)
           else
             var y := z.(isize := isize, wp := isize, open := z.open && isize == 0);
             zones == old(zones)[i := y.(active := ShouldBeActive(y))]
    {
      hide Consistent, ShouldBeActive, SizesGood;
      Basics(i);
      var z := zones[i];
      if z.cnv || (isize != 0 && isize != z.cap) {
        return EPERM;
      }
      r := 0;
      if isize == z.isize {
        return;
      }
      r := mgmt;
      if r != 0 {
        return;
      }
      if z.open && isize == 0 {
        r := reopen;
      }
      ApplyTruncate(i, isize);
    }
  }
}
