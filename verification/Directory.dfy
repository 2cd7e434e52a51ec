// A directory as a sequence of up to ten dense blocks, and as a map from names to
// inode numbers.
module Directory {
  import opened Blocks
  import opened Dirents

  // ---------- lists of entries as maps ----------

  // The inode number of the first entry with the name; 0 when there is none.
  function Lookup(es: seq<Dirent>, name: Name): nat {
    if es == [] then 0 else if es[0].name == name then es[0].ino else Lookup(es[1..], name)
  }

  predicate GoodEntries(es: seq<Dirent>) {
    && (forall a: nat | a < |es| :: IsValid(es[a]))
    && (forall a: nat, b: nat | a < b < |es| :: es[a].name != es[b].name)
  }

  lemma {:induction false} LookupConcat(a: seq<Dirent>, b: seq<Dirent>, name: Name)
    requires forall k: nat | k < |a| :: IsValid(a[k])
    ensures Lookup(a + b, name) == if Lookup(a, name) != 0 then Lookup(a, name) else Lookup(b, name)
  {
    hide IsValid;
    if a == [] {
      assert a + b == b;
    } else {
      assert (a + b)[1..] == a[1..] + b;
      LookupConcat(a[1..], b, name);
      assert a[0].ino != 0 by { assert IsValid(a[0]); ValidIno(a[0]); }
    }
  }

  lemma ValidIno(e: Dirent)
    requires IsValid(e)
    ensures e.ino != 0 && e.name[0] != 0
  {
  }

  lemma {:induction false} LookupAbsent(es: seq<Dirent>, name: Name)
    requires forall k: nat | k < |es| :: IsValid(es[k])
    ensures Lookup(es, name) == 0 <==> forall k: nat | k < |es| :: es[k].name != name
  {
    if es != [] {
      LookupAbsent(es[1..], name);
      if Lookup(es, name) == 0 {
        forall k: nat | k < |es| ensures es[k].name != name {
          if k > 0 { assert es[k] == es[1..][k - 1]; }
        }
      } else if es[0].name != name {
        var k: nat :| k < |es[1..]| && es[1..][k].name == name;
        assert es[k + 1].name == name;
      }
    }
  }

  // An entry put anywhere among others adds its name and changes nothing else.
  lemma InsertLookup(a: seq<Dirent>, e: Dirent, b: seq<Dirent>, name: Name)
    requires GoodEntries(a + b) && IsValid(e) && Lookup(a + b, e.name) == 0
    ensures GoodEntries(a + [e] + b)
    ensures Lookup(a + [e] + b, name) == if name == e.name then e.ino else Lookup(a + b, name)
  {
    hide IsValid;
    var es := a + b;
    assert forall k: nat | k < |a| :: IsValid(a[k]) by {
      forall k: nat | k < |a| ensures IsValid(a[k]) { assert es[k] == a[k]; }
    }
    LookupAbsent(es, e.name);
    LookupConcat(a, b, name);
    LookupConcat(a, b, e.name);
    var fs := a + [e] + b;
    assert fs == a + ([e] + b);
    LookupConcat(a, [e] + b, name);
    assert ([e] + b)[1..] == b;
    ValidIno(e);
    forall k: nat | k < |fs|
      ensures IsValid(fs[k])
      ensures k != |a| ==> fs[k].name != e.name
    {
      if k != |a| { assert fs[k] == es[if k < |a| then k else k - 1]; }
    }
    forall j: nat, k: nat | j < k < |fs| ensures fs[j].name != fs[k].name {
      if j != |a| && k != |a| {
        assert fs[j] == es[if j < |a| then j else j - 1] && fs[k] == es[if k < |a| then k else k - 1];
      }
    }
  }

  // An entry taken out removes its name and changes nothing else.
  lemma RemoveLookup(a: seq<Dirent>, e: Dirent, b: seq<Dirent>, name: Name)
    requires GoodEntries(a + [e] + b)
    ensures GoodEntries(a + b) && Lookup(a + b, e.name) == 0 && IsValid(e)
    ensures Lookup(a + b, name) == if name == e.name then 0 else Lookup(a + [e] + b, name)
  {
    hide IsValid;
    var fs, es := a + [e] + b, a + b;
    assert fs[|a|] == e;
    forall k: nat | k < |es|
      ensures IsValid(es[k]) && es[k].name != e.name
    {
      assert es[k] == fs[if k < |a| then k else k + 1];
    }
    forall j: nat, k: nat | j < k < |es| ensures es[j].name != es[k].name {
      assert es[j] == fs[if j < |a| then j else j + 1] && es[k] == fs[if k < |a| then k else k + 1];
    }
    LookupAbsent(es, e.name);
    InsertLookup(a, e, b, name);
  }

  // ---------- blocks ----------

  const MAX_ENTRIES: nat := 1020   // DIRECT_BLOCKS * SLOTS

  function BlockEntries(d: Payload): seq<Dirent> {
    Entries(d, Count(d))
  }

  function AllEntries(ds: seq<Payload>): seq<Dirent> {
    if ds == [] then [] else BlockEntries(ds[0]) + AllEntries(ds[1..])
  }

  predicate BlocksGood(ds: seq<Payload>) {
    && |ds| <= DIRECT_BLOCKS
    && forall b: nat | b < |ds| :: Dense(ds[b], Count(ds[b]))
  }

  lemma {:induction false} AllConcat(x: seq<Payload>, y: seq<Payload>)
    ensures AllEntries(x + y) == AllEntries(x) + AllEntries(y)
  {
    hide BlockEntries;
    if x == [] {
      assert x + y == y;
    } else {
      assert (x + y)[1..] == x[1..] + y;
      AllConcat(x[1..], y);
    }
  }

  lemma AllSplit(ds: seq<Payload>, b: nat, d: Payload)
    requires b < |ds|
    ensures AllEntries(ds) == AllEntries(ds[..b]) + BlockEntries(ds[b]) + AllEntries(ds[b + 1..])
    ensures AllEntries(ds[b := d]) == AllEntries(ds[..b]) + BlockEntries(d) + AllEntries(ds[b + 1..])
  {
    hide BlockEntries;
    assert ds == ds[..b] + ([ds[b]] + ds[b + 1..]);
    assert ds[b := d] == ds[..b] + ([d] + ds[b + 1..]);
    AllConcat(ds[..b], [ds[b]] + ds[b + 1..]);
    AllConcat(ds[..b], [d] + ds[b + 1..]);
    assert ([ds[b]] + ds[b + 1..])[1..] == ds[b + 1..] && ([d] + ds[b + 1..])[1..] == ds[b + 1..];
  }

  lemma EntriesSplit(ds: seq<Payload>)
    ensures |AllEntries(ds)| == if ds == [] then 0 else Count(ds[0]) + |AllEntries(ds[1..])|
  {
    hide Count;
  }

  lemma {:induction false} EntriesBound(ds: seq<Payload>)
    ensures |AllEntries(ds)| <= SLOTS * |ds|
    ensures |AllEntries(ds)| == SLOTS * |ds| <==> forall b: nat | b < |ds| :: Count(ds[b]) == SLOTS
  {
    hide Count, AllEntries;
    if ds == [] {
      assert AllEntries(ds) == [] by { EntriesSplit(ds); }
    } else {
      EntriesBound(ds[1..]);
      EntriesSplit(ds);
      if |AllEntries(ds)| == SLOTS * |ds| {
        forall b: nat | b < |ds| ensures Count(ds[b]) == SLOTS {
          if b > 0 { assert ds[b] == ds[1..][b - 1]; }
        }
      }
    }
  }

  // ---------- adding and removing an entry ----------

  // The first block from b on with a free slot.
  function FirstRoom(ds: seq<Payload>, b: nat): (r: nat)
    requires b <= |ds|
    ensures b <= r <= |ds|
    ensures r < |ds| ==> Count(ds[r]) < SLOTS
    ensures forall j: nat | b <= j < r :: Count(ds[j]) == SLOTS
    decreases |ds| - b
  {
    if b < |ds| && Count(ds[b]) == SLOTS then FirstRoom(ds, b + 1) else b
  }

  // A block with one entry more, in its first free slot.
  function Added(d: Payload, i: Inode): Payload
    requires Enterable(i) && Count(d) < SLOTS
  {
    SetSlot(d, Count(d), Encode(SlotOf(d, Count(d)), i))
  }

  lemma ZeroesDense()
    ensures Dense(Zeroes(), 0) && Count(Zeroes()) == 0
  {
    CountDense(Zeroes(), 0);
  }

  lemma AddedBlock(d: Payload, i: Inode)
    requires Enterable(i) && Dense(d, Count(d)) && Count(d) < SLOTS
    ensures Count(Added(d, i)) == Count(d) + 1 && Dense(Added(d, i), Count(d) + 1)
    ensures BlockEntries(Added(d, i)) == BlockEntries(d) + [EntryOf(i)]
  {
    hide Dense, Count, SetSlot, Encode, SlotOf, EntryOf, EntryAt;
    InsertDense(d, Count(d), i);
    CountDense(Added(d, i), Count(d) + 1);
  }

  // The blocks after add_dirent; with ten full blocks there are none.
  function WithEntry(ds: seq<Payload>, i: Inode): seq<Payload>
    requires BlocksGood(ds) && Enterable(i)
  {
    var b := FirstRoom(ds, 0);
    if b < |ds| then ds[b := Added(ds[b], i)]
    else if |ds| < DIRECT_BLOCKS then ZeroesDense(); ds + [Added(Zeroes(), i)]
    else []
  }

  predicate IsFull(ds: seq<Payload>) {
    |AllEntries(ds)| == MAX_ENTRIES
  }

  lemma FullBlocks(ds: seq<Payload>)
    requires BlocksGood(ds)
    ensures IsFull(ds) <==> |ds| == DIRECT_BLOCKS && FirstRoom(ds, 0) == |ds|
  {
    EntriesBound(ds);
  }

  // t is s with e put in somewhere.
  ghost predicate Inserted(s: seq<Dirent>, t: seq<Dirent>, e: Dirent) {
    exists p: nat :: p <= |s| && t == s[..p] + [e] + s[p..]
  }

  lemma InsertedAt(a: seq<Dirent>, e: Dirent, b: seq<Dirent>)
    ensures Inserted(a + b, a + [e] + b, e)
  {
    var p := |a|;
    assert (a + b)[..p] == a && (a + b)[p..] == b;
  }

  // The directory ds' is ds with the entry e more.
  ghost predicate OneMore(ds: seq<Payload>, ds': seq<Payload>, e: Dirent) {
    && BlocksGood(ds') && GoodEntries(AllEntries(ds'))
    && |AllEntries(ds')| == |AllEntries(ds)| + 1 && Inserted(AllEntries(ds), AllEntries(ds'), e)
    && (forall name: Name ::
         Lookup(AllEntries(ds'), name) == if name == e.name then e.ino else Lookup(AllEntries(ds), name))
  }

  lemma OneMoreEntry(ds: seq<Payload>, ds': seq<Payload>, a: seq<Dirent>, b: seq<Dirent>, e: Dirent)
    requires BlocksGood(ds') && AllEntries(ds) == a + b && AllEntries(ds') == a + [e] + b
    requires GoodEntries(AllEntries(ds)) && IsValid(e) && Lookup(AllEntries(ds), e.name) == 0
    ensures OneMore(ds, ds', e)
  {
    forall name: Name
      ensures GoodEntries(AllEntries(ds'))
      ensures Lookup(AllEntries(ds'), name) == if name == e.name then e.ino else Lookup(AllEntries(ds), name)
    {
      InsertLookup(a, e, b, name);
    }
    InsertLookup(a, e, b, e.name);
    InsertedAt(a, e, b);
  }

  lemma EntryInBlock(ds: seq<Payload>, b: nat, i: Inode)
    requires BlocksGood(ds) && GoodEntries(AllEntries(ds)) && Enterable(i) && b < |ds| && Count(ds[b]) < SLOTS
    requires Lookup(AllEntries(ds), Padded(i)) == 0
    ensures OneMore(ds, ds[b := Added(ds[b], i)], EntryOf(i))
  {
    hide BlockEntries, Count, Dense, Encode, EntryOf, IsValid, Padded, Lookup, GoodEntries, Added, AllEntries, OneMore;
    EntryOfName(i);
    AddedBlock(ds[b], i);
    AllSplit(ds, b, Added(ds[b], i));
    var ds' := ds[b := Added(ds[b], i)];
    var x, y := AllEntries(ds[..b]) + BlockEntries(ds[b]), AllEntries(ds[b + 1..]);
    assert AllEntries(ds') == x + [EntryOf(i)] + y;
    OneMoreEntry(ds, ds', x, y, EntryOf(i));
  }

  lemma EntryInNewBlock(ds: seq<Payload>, i: Inode)
    requires BlocksGood(ds) && GoodEntries(AllEntries(ds)) && Enterable(i) && |ds| < DIRECT_BLOCKS
    requires Lookup(AllEntries(ds), Padded(i)) == 0
    ensures Count(Zeroes()) < SLOTS && OneMore(ds, ds + [Added(Zeroes(), i)], EntryOf(i))
  {
    hide BlockEntries, Count, Dense, Encode, EntryOf, IsValid, Padded, Lookup, GoodEntries, Added, AllEntries, OneMore;
    ZeroesDense();
    EntryOfName(i);
    AddedBlock(Zeroes(), i);
    AllConcat(ds, [Added(Zeroes(), i)]);
    SingleBlock(Added(Zeroes(), i));
    EmptyBlock();
    var es := AllEntries(ds);
    assert es == es + [] && es + [EntryOf(i)] == es + [EntryOf(i)] + [];
    OneMoreEntry(ds, ds + [Added(Zeroes(), i)], es, [], EntryOf(i));
  }

  // add_dirent refines the addition of a name to a map.
  lemma AddEntry(ds: seq<Payload>, i: Inode)
    requires BlocksGood(ds) && GoodEntries(AllEntries(ds)) && Enterable(i)
    requires Lookup(AllEntries(ds), Padded(i)) == 0 && !IsFull(ds)
    ensures OneMore(ds, WithEntry(ds, i), EntryOf(i))
  {
    hide Count, Dense, EntryOf, Padded, Lookup, GoodEntries, Added, AllEntries, OneMore;
    FullBlocks(ds);
    var b := FirstRoom(ds, 0);
    if b < |ds| { EntryInBlock(ds, b, i); } else { EntryInNewBlock(ds, i); }
  }

  lemma EntryOfName(i: Inode)
    requires Enterable(i)
    ensures EntryOf(i).name == Padded(i) && EntryOf(i).ino == i.ino && IsValid(EntryOf(i))
    ensures Describes(EntryOf(i), i)
  {
  }

  lemma EmptyBlock()
    ensures BlockEntries(Zeroes()) == []
  {
    ZeroesDense();
  }

  lemma SingleBlock(d: Payload)
    ensures AllEntries([d]) == BlockEntries(d)
  {
    assert AllEntries([d][1..]) == [];
  }

  lemma CutBlock(d: Payload, k: nat)
    requires Dense(d, Count(d)) && k < Count(d)
    ensures var e := CutSlot(d, k); Count(e) == Count(d) - 1 && Dense(e, Count(e))
    ensures BlockEntries(CutSlot(d, k)) == BlockEntries(d)[..k] + BlockEntries(d)[k + 1..]
    ensures |BlockEntries(d)| == Count(d) && BlockEntries(d)[k] == EntryAt(d, k)
  {
    hide CutSlot, Count, Dense, EntryAt;
    CutDense(d, Count(d), k);
    CountDense(CutSlot(d, k), Count(d) - 1);
  }

  // The directory ds' is ds without the entry e.
  ghost predicate OneLess(ds: seq<Payload>, ds': seq<Payload>, e: Dirent) {
    && BlocksGood(ds') && GoodEntries(AllEntries(ds')) && |AllEntries(ds')| + 1 == |AllEntries(ds)|
    && Inserted(AllEntries(ds'), AllEntries(ds), e)
    && IsValid(e) && Lookup(AllEntries(ds), e.name) == e.ino
    && (forall name: Name ::
         Lookup(AllEntries(ds'), name) == if name == e.name then 0 else Lookup(AllEntries(ds), name))
  }

  lemma OneLessEntry(ds: seq<Payload>, ds': seq<Payload>, a: seq<Dirent>, b: seq<Dirent>, e: Dirent)
    requires BlocksGood(ds') && AllEntries(ds) == a + [e] + b && AllEntries(ds') == a + b
    requires GoodEntries(AllEntries(ds))
    ensures OneLess(ds, ds', e)
  {
    hide IsValid, Lookup, GoodEntries;
    forall name: Name
      ensures Lookup(AllEntries(ds'), name) == if name == e.name then 0 else Lookup(AllEntries(ds), name)
    {
      RemoveLookup(a, e, b, name);
    }
    RemoveLookup(a, e, b, e.name);
    InsertLookup(a, e, b, e.name);
    InsertedAt(a, e, b);
  }

  lemma TakeOut<T>(p: seq<T>, es: seq<T>, q: seq<T>, k: nat)
    requires k < |es|
    ensures p + es + q == (p + es[..k]) + [es[k]] + (es[k + 1..] + q)
    ensures p + (es[..k] + es[k + 1..]) + q == (p + es[..k]) + (es[k + 1..] + q)
  {
    assert es == es[..k] + [es[k]] + es[k + 1..];
  }

  // Cutting slot k of block b refines the removal of its name from the map.
  lemma RemoveEntry(ds: seq<Payload>, b: nat, k: nat)
    requires BlocksGood(ds) && GoodEntries(AllEntries(ds)) && b < |ds| && k < Count(ds[b])
    ensures OneLess(ds, ds[b := CutSlot(ds[b], k)], EntryAt(ds[b], k))
  {
    hide Count, Dense, IsValid, Lookup, GoodEntries, CutSlot, EntryAt, BlockEntries, OneLess;
    var ds', e := ds[b := CutSlot(ds[b], k)], EntryAt(ds[b], k);
    CutBlock(ds[b], k);
    AllSplit(ds, b, ds'[b]);
    var es := BlockEntries(ds[b]);
    var x, y := AllEntries(ds[..b]) + es[..k], es[k + 1..] + AllEntries(ds[b + 1..]);
    TakeOut(AllEntries(ds[..b]), es, AllEntries(ds[b + 1..]), k);
    OneLessEntry(ds, ds', x, y, e);
  }
}
