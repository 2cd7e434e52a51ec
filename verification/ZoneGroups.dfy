// Mounting builds the zone files of seq/ and cnv/ in two passes over the device's
// zones: the report callback counts them, the second pass fills that many records.
module ZoneGroups {
  import opened ZoneFile

  datatype Kind = Conventional | SeqRequired | SeqPreferred | Unsupported

  // A zone as the device reports it, in sectors.
  datatype DevZone = DevZone(start: nat, len: nat, cap: nat, kind: Kind, cond: Condition)

  predicate IsCnv(z: DevZone) {
    z.kind == Conventional
  }

  // The device has no gaps between its zones.
  predicate Contiguous(zones: seq<DevZone>) {
    && (forall i: nat | i < |zones| :: zones[i].len > 0)
    && (forall i: nat, j: nat | i < |zones| && j == i + 1 && j < |zones| ::
         zones[j].start == zones[i].start + zones[i].len)
  }

  // ---------- what the files should be ----------

  // The first zone from j on that is not conventional.
  function RunEnd(zones: seq<DevZone>, j: nat): (e: nat)
    requires j <= |zones|
    ensures j <= e <= |zones|
    ensures forall k: nat | j <= k < e :: IsCnv(zones[k])
    ensures e < |zones| ==> !IsCnv(zones[e])
    decreases |zones| - j
  {
    if j < |zones| && IsCnv(zones[j]) then RunEnd(zones, j + 1) else j
  }

  function Worse(first: Condition, next: Condition): Condition {
    if next == CondReadonly && first != CondOffline then CondReadonly
    else if next == CondOffline then CondOffline
    else first
  }

  // Zone z with the zones j..e merged into it.
  function Merged(z: DevZone, zones: seq<DevZone>, j: nat, e: nat): DevZone
    requires j <= e <= |zones|
    decreases e - j
  {
    if j == e then z
    else Merged(z.(len := z.len + zones[j].len, cap := z.cap + zones[j].cap, cond := Worse(z.cond, zones[j].cond)),
                zones, j + 1, e)
  }

  // The files of one group made of the zones from i on: one a zone, or with
  // aggregation one a stretch of conventional zones.
  function Files(zones: seq<DevZone>, i: nat, cnv: bool, aggr: bool): seq<DevZone>
    requires i <= |zones|
    decreases |zones| - i
  {
    if i == |zones| then []
    else if IsCnv(zones[i]) != cnv then Files(zones, i + 1, cnv, aggr)
    else if cnv && aggr then
      var e := RunEnd(zones, i + 1);
      [Merged(zones[i], zones, i + 1, e)] + Files(zones, e, cnv, aggr)
    else [zones[i]] + Files(zones, i + 1, cnv, aggr)
  }

  function Capacity(zones: seq<DevZone>): nat {
    if zones == [] then 0 else zones[0].cap + Capacity(zones[1..])
  }

  lemma {:induction false} CapacityConcat(a: seq<DevZone>, b: seq<DevZone>)
    ensures Capacity(a + b) == Capacity(a) + Capacity(b)
  {
    if a == [] {
      assert a + b == b;
    } else {
      assert (a + b)[1..] == a[1..] + b;
      CapacityConcat(a[1..], b);
    }
  }

  lemma {:induction false} MergedCapacity(z: DevZone, zones: seq<DevZone>, j: nat, e: nat)
    requires j <= e <= |zones|
    ensures Merged(z, zones, j, e).cap == z.cap + Capacity(zones[j..e])
    decreases e - j
  {
    if j < e {
      assert zones[j..e][1..] == zones[j + 1..e];
      MergedCapacity(z.(len := z.len + zones[j].len, cap := z.cap + zones[j].cap, cond := Worse(z.cond, zones[j].cond)),
                     zones, j + 1, e);
    }
  }

  // A merged file is offline if any member is, else read-only if any member is, else
  // as its first member.
  lemma {:induction false} MergedCondition(z: DevZone, zones: seq<DevZone>, j: nat, e: nat)
    requires j <= e <= |zones|
    ensures var offline := z.cond == CondOffline || exists k: nat :: j <= k < e && zones[k].cond == CondOffline;
      var readonly := z.cond == CondReadonly || exists k: nat :: j <= k < e && zones[k].cond == CondReadonly;
      Merged(z, zones, j, e).cond == if offline then CondOffline else if readonly then CondReadonly else z.cond
    decreases e - j
  {
    if j < e {
      MergedCondition(
        z.(len := z.len + zones[j].len, cap := z.cap + zones[j].cap, cond := Worse(z.cond, zones[j].cond)),
                      zones, j + 1, e);
    }
  }

  // Together the two groups offer just the capacity of the zones.
  lemma {:induction false} CapacityConserved(zones: seq<DevZone>, i: nat, aggr: bool)
    requires i <= |zones|
    ensures Capacity(Files(zones, i, true, aggr)) + Capacity(Files(zones, i, false, aggr)) == Capacity(zones[i..])
    decreases |zones| - i
  {
    if i < |zones| {
      assert zones[i..] == [zones[i]] + zones[i + 1..];
      if IsCnv(zones[i]) && aggr {
        var e := RunEnd(zones, i + 1);
        CapacityConserved(zones, e, aggr);
        MergedCapacity(zones[i], zones, i + 1, e);
        SkipRun(zones, i, e, aggr);
        assert zones[i + 1..] == zones[i + 1..e] + zones[e..];
        CapacityConcat(zones[i + 1..e], zones[e..]);
      } else {
        CapacityConserved(zones, i + 1, aggr);
      }
    }
  }

  // A stretch of conventional zones adds nothing to the sequential group.
  lemma {:induction false} SkipRun(zones: seq<DevZone>, i: nat, e: nat, aggr: bool)
    requires i <= e <= |zones| && forall k: nat | i <= k < e :: IsCnv(zones[k])
    ensures Files(zones, i, false, aggr) == Files(zones, e, false, aggr)
    decreases e - i
  {
    if i < e { SkipRun(zones, i + 1, e, aggr); }
  }

  lemma {:induction false} StartsGrow(zones: seq<DevZone>, i: nat, j: nat)
    requires Contiguous(zones) && i < j < |zones|
    ensures zones[i].start + zones[i].len <= zones[j].start
    ensures zones[j].start == zones[i].start + zones[i].len <==> j == i + 1
    decreases j - i
  {
    if j > i + 1 { StartsGrow(zones, i, j - 1); }
  }

  lemma {:induction false} SameRunEnd(a: seq<DevZone>, b: seq<DevZone>, j: nat)
    requires j <= |a| == |b| && forall k: nat | j <= k < |a| :: a[k] == b[k]
    ensures RunEnd(a, j) == RunEnd(b, j)
    decreases |a| - j
  {
    if j < |a| && IsCnv(a[j]) { SameRunEnd(a, b, j + 1); }
  }

  lemma {:induction false} SameMerged(z: DevZone, a: seq<DevZone>, b: seq<DevZone>, j: nat, e: nat)
    requires j <= e <= |a| == |b| && forall k: nat | j <= k < e :: a[k] == b[k]
    ensures Merged(z, a, j, e) == Merged(z, b, j, e)
    decreases e - j
  {
    if j < e {
      SameMerged(
        z.(len := z.len + a[j].len, cap := z.cap + a[j].cap, cond := Worse(z.cond, a[j].cond)), a, b, j + 1, e);
    }
  }

  // One unfolding of Files.
  lemma FilesFrom(zones: seq<DevZone>, i: nat, cnv: bool, aggr: bool)
    requires i <= |zones|
    ensures i == |zones| ==> Files(zones, i, cnv, aggr) == []
    ensures i < |zones| && IsCnv(zones[i]) != cnv ==> Files(zones, i, cnv, aggr) == Files(zones, i + 1, cnv, aggr)
    ensures i < |zones| && IsCnv(zones[i]) == cnv ==>
      var e := if cnv && aggr then RunEnd(zones, i + 1) else i + 1;
      Files(zones, i, cnv, aggr) == [if cnv && aggr then Merged(zones[i], zones, i + 1, e) else
          zones[i]] + Files(zones, e, cnv, aggr)
  {
  }

  // ---------- where the files lie ----------

  lemma {:induction false} MergedSpan(z: DevZone, zones: seq<DevZone>, j: nat, e: nat)
    requires Contiguous(zones) && j <= e <= |zones| && (j < e ==> z.start + z.len == zones[j].start)
    ensures var y := Merged(z, zones, j, e);
      && y.start == z.start && y.kind == z.kind
      && y.start + y.len == (if j == e then z.start + z.len else zones[e - 1].start + zones[e - 1].len)
    decreases e - j
  {
    if j < e {
      MergedSpan(
        z.(len := z.len + zones[j].len, cap := z.cap + zones[j].cap, cond := Worse(z.cond, zones[j].cond)),
        zones, j + 1, e);
    }
  }

  // File y is made of the zones a .. b - 1: it starts where the first one does and ends
  // where the last one does, offers what they offer together, and is offline or
  // read-only as soon as one of them is.
  ghost predicate MadeOf(y: DevZone, zones: seq<DevZone>, a: nat, b: nat, cnv: bool) {
    && a < b <= |zones| && (forall k: nat | a <= k < b :: (zones[k].kind == Conventional) == cnv)
    && y.start == zones[a].start && y.start + y.len == zones[b - 1].start + zones[b - 1].len
    && y.cap == Capacity(zones[a..b]) && y.kind == zones[a].kind
    && (if exists k: nat :: a <= k < b && zones[k].cond == CondOffline then y.cond == CondOffline
        else if exists k: nat :: a <= k < b && zones[k].cond == CondReadonly then y.cond == CondReadonly
        else y.cond == zones[a].cond)
  }

  lemma OneZone(zones: seq<DevZone>, a: nat)
    requires a < |zones|
    ensures MadeOf(zones[a], zones, a, a + 1, zones[a].kind == Conventional)
  {
    assert zones[a..a + 1] == [zones[a]] && Capacity([]) == 0 && [zones[a]][1..] == [];
  }

  lemma OneStretch(zones: seq<DevZone>, a: nat, b: nat)
    requires Contiguous(zones) && a < b <= |zones| && forall k: nat | a <= k < b :: zones[k].kind == Conventional
    ensures MadeOf(Merged(zones[a], zones, a + 1, b), zones, a, b, true)
  {
    hide Merged;
    MergedSpan(zones[a], zones, a + 1, b);
    MergedCapacity(zones[a], zones, a + 1, b);
    MergedCondition(zones[a], zones, a + 1, b);
    assert zones[a..b] == [zones[a]] + zones[a + 1..b];
    assert ([zones[a]] + zones[a + 1..b])[1..] == zones[a + 1..b];
    if b == a + 1 { MergedNone(zones[a], zones, b); }
  }

  lemma MergedNone(z: DevZone, zones: seq<DevZone>, j: nat)
    requires j <= |zones|
    ensures Merged(z, zones, j, j) == z
  {
  }

  // One file of a group laid out over the zones from i on: one zone, or with aggregation
  // a whole stretch of conventional zones.
  ghost predicate FileOver(y: DevZone, zones: seq<DevZone>, i: nat, cnv: bool, aggr: bool, a: nat, b: nat) {
    && i <= a && MadeOf(y, zones, a, b, cnv)
    && if cnv && aggr
       then (a == i || zones[a - 1].kind != Conventional) && (b == |zones| || zones[b].kind != Conventional)
       else b == a + 1
  }

  ghost predicate InSome(a: seq<nat>, b: seq<nat>, k: nat) {
    exists f: nat :: f < |a| && f < |b| && a[f] <= k < b[f]
  }

  // The files fs of one group: file f is made of the zones a[f] .. b[f] - 1, in ascending
  // order, and every zone of the type from zone i on is in one of them.
  ghost predicate Laid(fs: seq<DevZone>, zones: seq<DevZone>, i: nat, cnv: bool, aggr: bool, a: seq<nat>, b: seq<nat>) {
    && |a| == |b| == |fs|
    && (forall f: nat | f < |fs| :: FileOver(fs[f], zones, i, cnv, aggr, a[f], b[f]))
    && (forall f: nat, g: nat | f < g < |fs| :: b[f] <= a[g])
    && (forall k: nat | i <= k < |zones| && (zones[k].kind == Conventional) == cnv :: InSome(a, b, k))
  }

  lemma InSomeMore(a: seq<nat>, b: seq<nat>, i: nat, e: nat, k: nat)
    requires |a| == |b| && (i <= k < e || InSome(a, b, k))
    ensures InSome([i] + a, [e] + b, k)
  {
    var a', b' := [i] + a, [e] + b;
    if i <= k < e {
      assert a'[0] <= k < b'[0];
    } else {
      var f: nat :| f < |a| && a[f] <= k < b[f];
      assert a'[f + 1] <= k < b'[f + 1];
    }
  }

  // The files from a later zone on, seen from zone i.
  lemma FileOverFrom(y: DevZone, zones: seq<DevZone>, i: nat, e: nat, cnv: bool, aggr: bool, a: nat, b: nat)
    requires FileOver(y, zones, e, cnv, aggr, a, b) && i <= e <= |zones|
    requires i < e && cnv && aggr ==> e == |zones| || zones[e].kind != Conventional || zones[e - 1].kind != Conventional
    ensures FileOver(y, zones, i, cnv, aggr, a, b)
  {
  }

  lemma OverFacts(y: DevZone, zones: seq<DevZone>, i: nat, cnv: bool, aggr: bool, a: nat, b: nat)
    requires FileOver(y, zones, i, cnv, aggr, a, b)
    ensures i <= a < b <= |zones| && y.start == zones[a].start && (zones[a].kind == Conventional) == cnv
    ensures y.start + y.len == zones[b - 1].start + zones[b - 1].len
    ensures forall k: nat | a <= k < b :: (zones[k].kind == Conventional) == cnv
    ensures cnv && aggr ==> b == |zones| || zones[b].kind != Conventional
  {
  }

  lemma LaidFileOver(fs: seq<DevZone>, zones: seq<DevZone>, i: nat, cnv: bool, aggr: bool, a: seq<nat>, b: seq<nat>,
                     f: nat)
    requires Laid(fs, zones, i, cnv, aggr, a, b) && f < |fs|
    ensures |a| == |b| == |fs| && FileOver(fs[f], zones, i, cnv, aggr, a[f], b[f])
  {
    hide FileOver, InSome;
  }

  // One more file before the others.
  lemma LaidFirst(y: DevZone, fs: seq<DevZone>, zones: seq<DevZone>, i: nat, e: nat, cnv: bool, aggr: bool,
                  a: seq<nat>, b: seq<nat>)
    requires Laid(fs, zones, e, cnv, aggr, a, b) && FileOver(y, zones, i, cnv, aggr, i, e)
    ensures Laid([y] + fs, zones, i, cnv, aggr, [i] + a, [e] + b)
  {
    hide FileOver, InSome;
    OverFacts(y, zones, i, cnv, aggr, i, e);
    var fs', a', b' := [y] + fs, [i] + a, [e] + b;
    forall f: nat | f < |fs'|
      ensures FileOver(fs'[f], zones, i, cnv, aggr, a'[f], b'[f])
      ensures f > 0 ==> e <= a'[f]
    {
      if f > 0 {
        assert fs'[f] == fs[f - 1] && a'[f] == a[f - 1] && b'[f] == b[f - 1];
        FileOverFrom(fs[f - 1], zones, i, e, cnv, aggr, a[f - 1], b[f - 1]);
        OverFacts(fs[f - 1], zones, e, cnv, aggr, a[f - 1], b[f - 1]);
      }
    }
    forall f: nat, g: nat | f < g < |fs'| ensures b'[f] <= a'[g] {
      assert a'[g] == a[g - 1] && (f > 0 ==> b'[f] == b[f - 1]);
    }
    forall k: nat | i <= k < |zones| && (zones[k].kind == Conventional) == cnv ensures InSome(a', b', k) {
      InSomeMore(a, b, i, e, k);
    }
  }

  lemma LaidSkip(fs: seq<DevZone>, zones: seq<DevZone>, i: nat, cnv: bool, aggr: bool, a: seq<nat>, b: seq<nat>)
    requires i < |zones| && Laid(fs, zones, i + 1, cnv, aggr, a, b) && (zones[i].kind == Conventional) != cnv
    ensures Laid(fs, zones, i, cnv, aggr, a, b)
  {
    hide InSome, FileOver;
    forall f: nat | f < |fs| ensures FileOver(fs[f], zones, i, cnv, aggr, a[f], b[f]) {
      FileOverFrom(fs[f], zones, i, i + 1, cnv, aggr, a[f], b[f]);
    }
  }

  // Each group is laid out over the zones of its type.
  lemma {:induction false} FilesLaid(zones: seq<DevZone>, i: nat, cnv: bool, aggr: bool)
    returns (a: seq<nat>, b: seq<nat>)
    requires Contiguous(zones) && i <= |zones|
    ensures Laid(Files(zones, i, cnv, aggr), zones, i, cnv, aggr, a, b)
    decreases |zones| - i
  {
    hide Contiguous, Files, Merged, MadeOf;
    FilesFrom(zones, i, cnv, aggr);
    if i == |zones| {
      a, b := [], [];
    } else if (zones[i].kind == Conventional) != cnv {
      a, b := FilesLaid(zones, i + 1, cnv, aggr);
      hide Laid;
      LaidSkip(Files(zones, i + 1, cnv, aggr), zones, i, cnv, aggr, a, b);
    } else {
      var e := if cnv && aggr then RunEnd(zones, i + 1) else i + 1;
      if cnv && aggr { OneStretch(zones, i, e); } else { OneZone(zones, i); }
      var a1, b1 := FilesLaid(zones, e, cnv, aggr);
      hide Laid;
      LaidFirst(if cnv && aggr then Merged(zones[i], zones, i + 1, e) else zones[i], Files(zones, e, cnv, aggr),
                zones, i, e, cnv, aggr, a1, b1);
      a, b := [i] + a1, [e] + b1;
    }
  }

  // In sectors, the files of a group are in ascending order and do not overlap.
  lemma FilesApart(fs: seq<DevZone>, zones: seq<DevZone>, i: nat, cnv: bool, aggr: bool, a: seq<nat>, b: seq<nat>,
                   f: nat, g: nat)
    requires Contiguous(zones) && Laid(fs, zones, i, cnv, aggr, a, b) && f < g < |fs|
    ensures fs[f].start + fs[f].len <= fs[g].start
  {
    hide Contiguous, InSome, FileOver;
    LaidFileOver(fs, zones, i, cnv, aggr, a, b, f);
    LaidFileOver(fs, zones, i, cnv, aggr, a, b, g);
    OverFacts(fs[f], zones, i, cnv, aggr, a[f], b[f]);
    OverFacts(fs[g], zones, i, cnv, aggr, a[g], b[g]);
    ZonesApart(zones, b[f] - 1, a[g]);
  }

  lemma LaidInSome(fs: seq<DevZone>, zones: seq<DevZone>, i: nat, cnv: bool, aggr: bool, a: seq<nat>, b: seq<nat>,
                   k: nat) returns (f: nat)
    requires Laid(fs, zones, i, cnv, aggr, a, b) && i <= k < |zones| && (zones[k].kind == Conventional) == cnv
    ensures f < |fs| && |a| == |b| == |fs| && a[f] <= k < b[f]
  {
    assert InSome(a, b, k) && |a| == |b| == |fs| by { hide FileOver, InSome; }
    hide Laid;
    f :| f < |a| && f < |b| && a[f] <= k < b[f];
  }

  // A zone of the type lies within one of the files.
  lemma ZoneCovered(fs: seq<DevZone>, zones: seq<DevZone>, i: nat, cnv: bool, aggr: bool, a: seq<nat>, b: seq<nat>,
                    k: nat) returns (f: nat)
    requires Contiguous(zones) && Laid(fs, zones, i, cnv, aggr, a, b)
    requires i <= k < |zones| && (zones[k].kind == Conventional) == cnv
    ensures f < |fs| && fs[f].start <= zones[k].start && zones[k].start + zones[k].len <= fs[f].start + fs[f].len
  {
    hide Contiguous, Laid, FileOver;
    f := LaidInSome(fs, zones, i, cnv, aggr, a, b, k);
    LaidFileOver(fs, zones, i, cnv, aggr, a, b, f);
    OverFacts(fs[f], zones, i, cnv, aggr, a[f], b[f]);
    if a[f] < k { ZonesApart(zones, a[f], k); }
    if k < b[f] - 1 { ZonesApart(zones, k, b[f] - 1); }
  }

  // A zone of the other type lies outside all of them.
  lemma OtherZoneOutside(fs: seq<DevZone>, zones: seq<DevZone>, i: nat, cnv: bool, aggr: bool,
                         a: seq<nat>, b: seq<nat>, k: nat, f: nat)
    requires Contiguous(zones) && Laid(fs, zones, i, cnv, aggr, a, b) && f < |fs|
    requires k < |zones| && (zones[k].kind == Conventional) != cnv
    ensures zones[k].start + zones[k].len <= fs[f].start || fs[f].start + fs[f].len <= zones[k].start
  {
    hide Contiguous, Laid, FileOver;
    LaidFileOver(fs, zones, i, cnv, aggr, a, b, f);
    OverFacts(fs[f], zones, i, cnv, aggr, a[f], b[f]);
    if k < a[f] { ZonesApart(zones, k, a[f]); } else { ZonesApart(zones, b[f] - 1, k); }
  }

  lemma ZonesApart(zones: seq<DevZone>, i: nat, j: nat)
    requires Contiguous(zones) && i < j < |zones|
    ensures zones[i].start + zones[i].len <= zones[j].start
  {
    StartsGrow(zones, i, j);
  }

  // ---------- the two passes ----------

  // Where the count of conventional files resumes after the zones before i.
  function Resume(zones: seq<DevZone>, i: nat, aggr: bool): (r: nat)
    requires 1 <= i <= |zones|
    ensures r <= |zones|
  {
    if aggr && i > 1 && IsCnv(zones[i - 1]) then RunEnd(zones, i) else i
  }

  // Zone i starts one more conventional file unless it continues a stretch.
  lemma CountStep(zones: seq<DevZone>, i: nat, aggr: bool)
    requires 1 <= i < |zones|
    ensures |Files(zones, Resume(zones, i, aggr), true, aggr)|
         == |Files(zones, Resume(zones, i + 1, aggr), true, aggr)|
            + (if IsCnv(zones[i]) && !(aggr && i > 1 && IsCnv(zones[i - 1])) then 1 else 0)
  {
    FilesFrom(zones, i, true, aggr);
  }

  lemma SeqStep(zones: seq<DevZone>, i: nat, aggr: bool)
    requires 1 <= i < |zones|
    ensures |Files(zones, i, false, aggr)| == |Files(zones, i + 1, false, aggr)| + (if IsCnv(zones[i]) then 0 else 1)
  {
    FilesFrom(zones, i, false, aggr);
  }

  lemma CountEnds(zones: seq<DevZone>, aggr: bool)
    requires zones != []
    ensures |Files(zones, Resume(zones, |zones|, aggr), true, aggr)| == 0 && |Files(zones, |zones|, false, aggr)| == 0
  {
    assert Resume(zones, |zones|, aggr) == |zones|;
    FilesFrom(zones, |zones|, true, aggr);
    FilesFrom(zones, |zones|, false, aggr);
  }

  // Zone last is the last conventional one in 1..i, or 0 when there is none.
  predicate IsLastCnv(zones: seq<DevZone>, i: nat, last: nat) {
    && last < i <= |zones| && (last > 0 ==> IsCnv(zones[last]))
    && forall k: nat | last < k < i :: !IsCnv(zones[k])
  }

  // The callback's test on the start of a zone tells whether it continues a stretch.
  lemma StartTells(zones: seq<DevZone>, i: nat, last: nat)
    requires Contiguous(zones) && 1 <= i < |zones| && IsLastCnv(zones, i, last)
    ensures (last > 0 && zones[i].start == zones[last].start + zones[last].len) <==> (i > 1 && IsCnv(zones[i - 1]))
    ensures IsLastCnv(zones, i + 1, if IsCnv(zones[i]) then i else last)
  {
    if last > 0 { StartsGrow(zones, last, i); }
  }

  // What the callback has counted before zone i; last is the last conventional zone seen.
  predicate CountedTo(zones: seq<DevZone>, aggr: bool, i: nat, last: nat, cnvFiles: nat, seqFiles: nat, start: nat)
    requires 1 <= i <= |zones|
  {
    && IsLastCnv(zones, i, last) && (last == 0 <==> cnvFiles == 0)
    && (aggr && last > 0 ==> start == zones[last].start + zones[last].len)
    && cnvFiles + |Files(zones, Resume(zones, i, aggr), true, aggr)| == |Files(zones, 1, true, aggr)|
    && seqFiles + |Files(zones, i, false, aggr)| == |Files(zones, 1, false, aggr)|
  }

  lemma CountsBegin(zones: seq<DevZone>, aggr: bool)
    requires zones != []
    ensures CountedTo(zones, aggr, 1, 0, 0, 0, 0)
  {
    hide Files, RunEnd;
  }

  lemma CountOn(zones: seq<DevZone>, aggr: bool, i: nat, last: nat, cnvFiles: nat, seqFiles: nat, start: nat)
    requires 1 <= i < |zones| && Contiguous(zones) && CountedTo(zones, aggr, i, last, cnvFiles, seqFiles, start)
    ensures var z := zones[i];
      if IsCnv(z) then
        CountedTo(zones, aggr, i + 1, i, if aggr && cnvFiles > 0 && z.start == start then cnvFiles else cnvFiles + 1,
                  seqFiles, if aggr then z.start + z.len else start)
      else
        CountedTo(zones, aggr, i + 1, last, cnvFiles, seqFiles + 1, start)
  {
    hide Files, RunEnd, Resume, Contiguous, IsLastCnv, IsCnv;
    CountStep(zones, i, aggr);
    SeqStep(zones, i, aggr);
    StartTells(zones, i, last);
    assert last < |zones| by { LastBefore(zones, i, last); }
  }

  lemma LastBefore(zones: seq<DevZone>, i: nat, last: nat)
    requires IsLastCnv(zones, i, last)
    ensures last < i <= |zones|
  {
  }

  lemma CountsEnd(zones: seq<DevZone>, aggr: bool, last: nat, cnvFiles: nat, seqFiles: nat, start: nat)
    requires zones != [] && CountedTo(zones, aggr, |zones|, last, cnvFiles, seqFiles, start)
    ensures cnvFiles == |Files(zones, 1, true, aggr)| && seqFiles == |Files(zones, 1, false, aggr)|
  {
    hide Files, RunEnd, Resume, IsLastCnv;
    CountEnds(zones, aggr);
  }

  // blkdev_report_zones with zonefs_get_zone_info_cb: the number of files of each group.
  method GetZoneInfo(zones: seq<DevZone>, aggr: bool) returns (r: int, cnvFiles: nat, seqFiles: nat)
    requires zones != [] && Contiguous(zones)
    ensures r == 0 || r == EIO
    ensures r == 0 <==> forall i: nat | 1 <= i < |zones| :: zones[i].kind != Unsupported
    ensures r == 0 ==> cnvFiles == |Files(zones, 1, true, aggr)| && seqFiles == |Files(zones, 1, false, aggr)|
  {
    hide Files, CountedTo, Contiguous;
    cnvFiles, seqFiles := 0, 0;
    var cnvZoneStart: nat := 0;
    ghost var last := 0;
    CountsBegin(zones, aggr);
    for i := 1 to |zones|
      invariant forall k: nat | 1 <= k < i :: zones[k].kind != Unsupported
      invariant CountedTo(zones, aggr, i, last, cnvFiles, seqFiles, cnvZoneStart)
    {
      CountOn(zones, aggr, i, last, cnvFiles, seqFiles, cnvZoneStart);
      var zone := zones[i];
      match zone.kind
      case Conventional =>
        if aggr {
          if cnvFiles == 0 || zone.start != cnvZoneStart {
            cnvFiles := cnvFiles + 1;
          }
          cnvZoneStart := zone.start + zone.len;
        } else {
          cnvFiles := cnvFiles + 1;
        }
        last := i;
      case Unsupported => return EIO, cnvFiles, seqFiles;
      case _ => seqFiles := seqFiles + 1;
    }
    CountsEnd(zones, aggr, last, cnvFiles, seqFiles, cnvZoneStart);
    r := 0;
  }

  // The aggregation loop: merges the conventional zones after zone i into its record.
  method MergeStretch(zones: array<DevZone>, i: nat) returns (next: nat)
    requires i < zones.Length
    modifies zones
    ensures next == RunEnd(old(zones[..]), i + 1)
    ensures zones[..] == old(zones[..])[i := Merged(old(zones[i]), old(zones[..]), i + 1, next)]
    ensures zones[i].kind == old(zones[i].kind)
  {
    ghost var was := zones[..];
    next := i + 1;
    ghost var e := RunEnd(was, i + 1);
    while next < zones.Length && IsCnv(zones[next])
      invariant i + 1 <= next <= e
      invariant zones[..] == was[i := zones[i]] && zones[i].kind == was[i].kind
      invariant Merged(zones[i], was, next, e) == Merged(was[i], was, i + 1, e)
    {
      assert zones[next] == was[next];
      zones[i] := zones[i].(len := zones[i].len + zones[next].len, cap := zones[i].cap + zones[next].cap);
      if zones[next].cond == CondReadonly && zones[i].cond != CondOffline {
        zones[i] := zones[i].(cond := CondReadonly);
      } else if zones[next].cond == CondOffline {
        zones[i] := zones[i].(cond := CondOffline);
      }
      next := next + 1;
    }
    assert next < zones.Length ==> zones[next] == was[next];
  }

  // What merging has changed before zone i: records of conventional zones, not their kind.
  predicate MergedTo(was: seq<DevZone>, now: seq<DevZone>, i: nat, merges: bool) {
    && i <= |now| == |was| && (!merges ==> now == was)
    && (forall k: nat | i <= k < |was| :: now[k] == was[k])
    && (forall k: nat | k < |was| :: now[k].kind == was[k].kind && (!IsCnv(was[k]) ==> now[k] == was[k]))
  }

  lemma NothingMerged(was: seq<DevZone>, i: nat, merges: bool)
    requires i <= |was|
    ensures MergedTo(was, was, i, merges)
  {
  }

  lemma MergedMeans(was: seq<DevZone>, now: seq<DevZone>, i: nat, merges: bool)
    requires MergedTo(was, now, i, merges)
    ensures |now| == |was| && (!merges ==> now == was)
    ensures forall k: nat | k < |was| :: now[k].kind == was[k].kind && (!IsCnv(was[k]) ==> now[k] == was[k])
  {
  }

  lemma MergedMore(was: seq<DevZone>, now: seq<DevZone>, i: nat, z: DevZone, next: nat)
    requires MergedTo(was, now, i, true) && i < next <= |was| && IsCnv(was[i]) && z.kind == was[i].kind
    ensures MergedTo(was, now[i := z], next, true)
  {
  }

  lemma MergedSame(was: seq<DevZone>, now: seq<DevZone>, i: nat, merges: bool)
    requires MergedTo(was, now, i, merges) && i < |was|
    ensures now[i] == was[i] && MergedTo(was, now, i + 1, merges)
    ensures SameSeqFrom(was, now, i)
  {
  }

  // The stretch to be merged is still as reported.
  lemma SameStretch(was: seq<DevZone>, now: seq<DevZone>, i: nat)
    requires SameSeqFrom(was, now, i) && i < |was|
    ensures RunEnd(now, i + 1) == RunEnd(was, i + 1)
    ensures Merged(now[i], now, i + 1, RunEnd(was, i + 1)) == Merged(was[i], was, i + 1, RunEnd(was, i + 1))
  {
    SameRunEnd(now, was, i + 1);
    SameMerged(now[i], now, was, i + 1, RunEnd(was, i + 1));
  }

  predicate SameSeqFrom(was: seq<DevZone>, now: seq<DevZone>, i: nat) {
    |now| == |was| && forall k: nat | i <= k < |was| :: now[k] == was[k]
  }

  // zonefs_init_zgroup with the number of files the first pass counted; merging
  // overwrites the record of the first zone of a stretch.
  method InitZgroup(zones: array<DevZone>, files: nat, cnv: bool, aggr: bool) returns (r: int, group: seq<DevZone>)
    requires zones.Length > 0
    modifies zones
    ensures files == |Files(old(zones[..]), 1, cnv, aggr)| ==> r == 0 && group == Files(old(zones[..]), 1, cnv, aggr)
    ensures 0 < files != |Files(old(zones[..]), 1, cnv, aggr)| ==> r == EINVAL
    ensures files == 0 ==> r == 0 && group == [] && zones[..] == old(zones[..])
    ensures forall i: nat | i < zones.Length :: zones[i].kind == old(zones[i].kind)
    ensures forall i: nat | i < zones.Length && !IsCnv(zones[i]) :: zones[i] == old(zones[i])
    ensures !(cnv && aggr) ==> zones[..] == old(zones[..])
  {
    hide Merged, Files, RunEnd, MergedTo, SameSeqFrom;
    ghost var was := zones[..];
    group := [];
    if files == 0 {
      return 0, [];
    }
    var i := 1;
    NothingMerged(was, 1, cnv && aggr);
    while i < zones.Length
      invariant 1 <= i <= zones.Length
      invariant MergedTo(was, zones[..], i, cnv && aggr)
      invariant |group| <= files
      invariant group + Files(was, i, cnv, aggr) == Files(was, 1, cnv, aggr)
    {
      FilesFrom(was, i, cnv, aggr);
      ghost var now := zones[..];
      MergedSame(was, now, i, cnv && aggr);
      var next := i + 1;
      if IsCnv(zones[i]) == cnv {
        if |group| >= files {
          MergedMeans(was, now, i, cnv && aggr);
          return EINVAL, group;
        }
        if cnv && aggr {
          SameStretch(was, now, i);
          next := MergeStretch(zones, i);
          MergedMore(was, now, i, Merged(was[i], was, i + 1, next), next);
        }
        group := group + [zones[i]];
      }
      i := next;
    }
    FilesFrom(was, i, cnv, aggr);
    MergedMeans(was, zones[..], i, cnv && aggr);
    if |group| != files {
      return EINVAL, group;
    }
    r := 0;
  }

  // Merging leaves the sequential group as it was.
  lemma {:induction false} SameSeqFiles(a: seq<DevZone>, b: seq<DevZone>, i: nat, aggr: bool)
    requires i <= |a| == |b|
    requires forall k: nat | k < |a| :: b[k].kind == a[k].kind && (!IsCnv(a[k]) ==> b[k] == a[k])
    ensures Files(b, i, false, aggr) == Files(a, i, false, aggr)
    decreases |a| - i
  {
    if i < |a| { SameSeqFiles(a, b, i + 1, aggr); }
  }

  // Both passes over one report: they agree, so neither warning branch is taken, and
  // no capacity is lost.
  method InitZgroups(zones: array<DevZone>, aggr: bool) returns (r: int, cnvGroup: seq<DevZone>, seqGroup: seq<DevZone>)
    requires zones.Length > 0 && Contiguous(zones[..])
    modifies zones
    ensures r == (if forall i: nat | 1 <= i < zones.Length :: old(zones[i]).kind != Unsupported then 0 else EIO)
    ensures r == 0 ==>
      cnvGroup == Files(old(zones[..]), 1, true, aggr) && seqGroup == Files(old(zones[..]), 1, false, aggr)
    ensures r == 0 ==> Capacity(cnvGroup) + Capacity(seqGroup) == Capacity(old(zones[1..]))
    ensures r == 0 ==> exists a: seq<nat>, b: seq<nat> :: Laid(cnvGroup, old(zones[..]), 1, true, aggr, a, b)
    ensures r == 0 ==> exists a: seq<nat>, b: seq<nat> :: Laid(seqGroup, old(zones[..]), 1, false, aggr, a, b)
  {
    ghost var was := zones[..];
    cnvGroup, seqGroup := [], [];
    var cnvFiles, seqFiles;
    r, cnvFiles, seqFiles := GetZoneInfo(zones[..], aggr);
    if r != 0 {
      return;
    }
    r, cnvGroup := InitZgroup(zones, cnvFiles, true, aggr);
    SameSeqFiles(was, zones[..], 1, aggr);
    r, seqGroup := InitZgroup(zones, seqFiles, false, aggr);
    CapacityConserved(was, 1, aggr);
    hide Laid;
    ghost var a, b := FilesLaid(was, 1, true, aggr);
    a, b := FilesLaid(was, 1, false, aggr);
    assert was[1..] == old(zones[1..]);
  }
}
