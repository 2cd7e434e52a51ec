// The zone files of ZoneFile under the log of Translation: zone file k of seq/ holds
// the blocks of zone k, and what a one-block write or a reset does to its record is
// what the log assumes of it.
module ZoneBacking {
  import opened Blocks
  import Translation
  import ZoneFile

  // A usable sequential zone of the geometry's size, filled by the blocks of zone k.
  predicate Fills(z: ZoneFile.Zone, s: Translation.State, k: nat)
    requires k < |s.zones|
  {
    && !z.cnv && !z.offline && !z.readonly
    && z.cap == DATABLOCK_SIZE * s.geo.blocks
    && z.wp == z.isize == DATABLOCK_SIZE * |s.zones[k]|
  }

  // What zonefs_write_check_limits leaves of a one-block write at block offset off.
  function Grant(z: ZoneFile.Zone, off: nat): int {
    ZoneFile.Allowed(z, DATABLOCK_SIZE * off, DATABLOCK_SIZE, ZoneFile.Unlimited, true)
  }

  // The device of the log refuses exactly the one-block writes that zonefs refuses.
  lemma AdmittedIffAdmits(z: ZoneFile.Zone, mount: ZoneFile.Mount, s: Translation.State, k: nat, off: nat)
    requires k < |s.zones| && Fills(z, s, k) && mount.blockSize == DATABLOCK_SIZE
    ensures Translation.Admitted(s, k, off) <==>
      ZoneFile.Admits(z, mount, DATABLOCK_SIZE * off, Grant(z, off))
    ensures Grant(z, off) == (if off < s.geo.blocks then DATABLOCK_SIZE else ZoneFile.EFBIG)
  {
  }

  // A completed one-block write leaves the record as the longer zone requires.
  lemma AppendIsWrite(z: ZoneFile.Zone, y: ZoneFile.Zone, mount: ZoneFile.Mount, s: Translation.State,
                      k: nat, off: nat, b: Block)
    requires k < |s.zones| && Fills(z, s, k) && Translation.Admitted(s, k, off)
    requires ZoneFile.WriteEffect(
      z, y, mount, DATABLOCK_SIZE * off, DATABLOCK_SIZE, ZoneFile.Written, ZoneFile.NoReport)
    ensures Fills(y, Translation.Append(s, k, off, b), k) && y.wrRefs == z.wrRefs
  {
  }

  lemma SameFill(z: ZoneFile.Zone, y: ZoneFile.Zone, s: Translation.State, k: nat)
    requires k < |s.zones| && Fills(z, s, k)
    requires y == z.(wrRefs := y.wrRefs, open := y.open, active := y.active)
    ensures Fills(y, s, k)
  {
  }

  lemma AppendOnlyThere(s: Translation.State, k: nat, off: nat, b: Block)
    requires k < |s.zones|
    ensures var t := Translation.Append(s, k, off, b);
      && t.geo == s.geo && |t.zones| == |s.zones| && t.zones == s.zones[k := t.zones[k]]
      && (!Translation.Admitted(s, k, off) ==> t == s)
      && (Translation.Admitted(s, k, off) ==> off < s.geo.blocks)
  {
  }

  // Between two calls of the file system the zone file is not held open.
  predicate Rests(z: ZoneFile.Zone, s: Translation.State, k: nat)
    requires k < |s.zones|
  {
    Fills(z, s, k) && !z.open && z.wrRefs == 0
  }

  // Every zone of the log is backed by a zone file.
  ghost predicate Backing(fs: ZoneFile.ZonedFs, s: Translation.State)
    reads fs
  {
    && fs.Good() && fs.mount.blockSize == DATABLOCK_SIZE && fs.wroFiles == 0
    && |s.zones| <= |fs.zones|
    && (forall k: nat | k < |s.zones| :: Rests(fs.zones[k], s, k))
  }

  // After a change of zone k alone in both, the other zones are as before.
  lemma Rebacked(before: seq<ZoneFile.Zone>, after: seq<ZoneFile.Zone>,
                 s: Translation.State, t: Translation.State, k: nat)
    requires k < |s.zones| == |t.zones| && |s.zones| <= |before| == |after| && t.geo == s.geo
    requires after == before[k := after[k]] && t.zones == s.zones[k := t.zones[k]]
    requires forall j: nat | j < |s.zones| :: Rests(before[j], s, j)
    requires Rests(after[k], t, k)
    ensures forall j: nat | j < |t.zones| :: Rests(after[j], t, j)
  {
    forall j: nat | j < |t.zones| && j != k ensures Rests(after[j], t, j) {
      assert Rests(before[j], s, j);
    }
  }

  // A block written as hodo_write_struct writes it: open, one direct write, close. The
  // result is the length exactly when the log admits the block, and the zone files
  // then back the log with the block appended.
  method WriteBlock(fs: ZoneFile.ZonedFs, k: nat, off: nat, ghost s: Translation.State, ghost b: Block)
    returns (r: int)
    requires Backing(fs, s) && k < |s.zones|
    modifies fs
    ensures Backing(fs, Translation.Append(s, k, off, b))
    ensures r == (if Translation.Admitted(s, k, off) then DATABLOCK_SIZE
                  else if off < s.geo.blocks then ZoneFile.EINVAL else ZoneFile.EFBIG)
    ensures fs.readonlySb == old(fs.readonlySb) && fs.zones == old(fs.zones)[k := fs.zones[k]]
  {
    hide Translation.Append, Translation.Admitted, ZoneFile.Allowed, ZoneFile.Admits, ZoneFile.WriteEffect;
    hide ZoneFile.ShouldBeActive, ZoneFile.ZonedFs.Good;
    ghost var t := Translation.Append(s, k, off, b);
    AppendOnlyThere(s, k, off, b);
    ghost var z0 := fs.zones[k];
    var openResult := fs.WriteOpen(k, 0);
    ghost var z1 := fs.zones[k];
    SameFill(z0, z1, s, k);
    AdmittedIffAdmits(z1, fs.mount, s, k, off);
    r := fs.DioWrite(k, false, DATABLOCK_SIZE * off, DATABLOCK_SIZE, ZoneFile.Unlimited, true,
                     ZoneFile.Written, ZoneFile.NoReport);
    ghost var z2 := fs.zones[k];
    if Translation.Admitted(s, k, off) {
      AppendIsWrite(z1, z2, fs.mount, s, k, off, b);
    }
    fs.WriteClose(k, true, ZoneFile.NoReport);
    SameFill(z2, fs.zones[k], t, k);
    Rebacked(old(fs.zones), fs.zones, s, t, k);
  }

  // A zone reset as the collector asks for it.
  method ResetZone(fs: ZoneFile.ZonedFs, k: nat, ghost s: Translation.State)
    returns (r: int)
    requires Backing(fs, s) && k < |s.zones|
    modifies fs
    ensures Backing(fs, Translation.Reset(s, k)) && r == 0
    ensures fs.readonlySb == old(fs.readonlySb) && fs.zones == old(fs.zones)[k := fs.zones[k]]
  {
    r := fs.Truncate(k, 0, 0, 0);
    Rebacked(old(fs.zones), fs.zones, s, Translation.Reset(s, k), k);
  }
}
