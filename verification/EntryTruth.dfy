// Directory entries tell the truth about the inodes they name: number, name, name length
// and file type, which readdir reports without reading the inode.
module EntryTruth {
  import opened Blocks
  import opened FileIndex
  import opened FileTree
  import opened FileWrite
  import opened FileEffect
  import opened FileOps
  import opened Dirents
  import opened Directory
  import opened DirTree
  import opened DirOps
  import opened FileSystem

  // The entry names an inode, as that inode is.
  ghost predicate EntryTrue(c: Store, x: Dirent) {
    x.ino in c && c[x.ino].Ino? && Describes(x, c[x.ino].inode)
  }

  ghost predicate Truthful(c: Store) {
    forall d, x | IsDir(c, d) && x in DirEntries(c, c[d].inode) :: EntryTrue(c, x)
  }

  // No inode disappears or changes its number, name or type.
  ghost predicate IdentitiesKept(c: Store, e: Store) {
    forall g | g in c && c[g].Ino? :: g in e && e[g].Ino? && SameIdentity(c[g].inode, e[g].inode)
  }

  lemma EntryStays(c: Store, e: Store, x: Dirent)
    requires EntryTrue(c, x) && IdentitiesKept(c, e)
    ensures EntryTrue(e, x)
  {
  }

  lemma InsertedMembers(s: seq<Dirent>, t: seq<Dirent>, y: Dirent, x: Dirent)
    requires Inserted(s, t, y)
    ensures x in t <==> x in s || x == y
  {
    var p: nat :| p <= |s| && t == s[..p] + [y] + s[p..];
    assert s == s[..p] + s[p..];
  }

  // What is offered by one call of readdir is true.
  lemma OfferedTrue(c: Store, d: nat, offered: seq<Dirent>, skip: nat)
    requires Truthful(c) && IsDir(c, d)
    requires var es := DirEntries(c, c[d].inode); offered == if skip <= |es| then es[skip..] else []
    ensures forall x | x in offered :: EntryTrue(c, x)
  {
    hide DirBlocks, AllEntries;
    var es := DirEntries(c, c[d].inode);
    forall x | x in offered ensures EntryTrue(c, x) { assert x in es; }
  }

  lemma FreshTruth(c: Store, lab: Labels, root: nat)
    requires FreshRoot(c, lab, root) && c.Keys == {root}
    ensures Truthful(c)
  {
    hide FsGood, DirBlocks;
  }

  // A write to a regular file.
  lemma WrittenTruth(c: Store, lab: Labels, e: Store, lab': Labels, f: nat, pos: nat, data: seq<Byte>)
    requires FsGood(c, lab) && FilesGood(e, lab') && CutAndExtended(c, e, f, pos, data) && Truthful(c)
    ensures Truthful(e)
  {
    hide FsGood, FilesGood, FileBytes, DirBlocks, AllEntries, EntryTrue, TailKept;
    FileWriteKeepsFs(c, lab, e, lab', f, pos, data);
    assert IdentitiesKept(c, e) by { hide FileLeaf; }
    forall d, x | IsDir(e, d) && x in DirEntries(e, e[d].inode) ensures EntryTrue(e, x) {
      assert IsDir(c, d) by { hide SameFile; assert d in c && c[d].Ino?; IdentityOfDir(c, e, d); }
      EntryStays(c, e, x);
    }
  }

  lemma IdentityOfDir(c: Store, e: Store, d: nat)
    requires IdentitiesKept(c, e) && IsDir(e, d) && d in c && c[d].Ino?
    ensures IsDir(c, d)
  {
  }

  // A directory is written: its entries become those given, every other one stays.
  lemma DirTruth(c: Store, lab: Labels, e: Store, lab': Labels, i: Inode, k: Inode)
    requires i.ino in c && c[i.ino] == Ino(i) && DirWritten(c, lab, e, lab', i, k, DirBlocks(e, k))
    ensures IdentitiesKept(c, e)
    ensures
      forall d | IsDir(e, d) && d != i.ino :: IsDir(c, d) && DirEntries(e, e[d].inode) == DirEntries(c, c[d].inode)
  {
    hide FsGood, DirBlocks, AllEntries, LabelsKept, FileLeaf;
    assert IdentitiesKept(c, e);
    forall d | IsDir(e, d) && d != i.ino
      ensures IsDir(c, d) && DirEntries(e, e[d].inode) == DirEntries(c, c[d].inode)
    {
      assert d in c && c[d].Ino?;
      assert SameFile(c, e, d);
      SameInode(c, e, d);
      SameDir(c, e, d);
    }
  }

  // An entry is added to a directory whose inode is in the store.
  lemma AddedTruth(c: Store, lab: Labels, e: Store, lab': Labels, i: Inode, sub: Inode, ret: int)
    requires i.ino in c && c[i.ino] == Ino(i) && i.typ == Directory && Truthful(c) && Enterable(sub)
    requires sub.ino in c && c[sub.ino] == Ino(sub)
    requires AddOutcome(c, lab, e, lab', i, sub, ret)
    ensures Truthful(e)
  {
    hide FsGood, DirBlocks, AllEntries, EntryOf, Describes, OthersKept, LabelsKept, IsFull;
    if ret == 0 {
      var k: Inode :|
        DirWritten(c, lab, e, lab', i, k, DirBlocks(e, k)) &&
        OneMore(DirBlocks(c, i), DirBlocks(e, k), EntryOf(sub)) && Describes(EntryOf(sub), sub);
      DirTruth(c, lab, e, lab', i, k);
      assert EntryTrue(c, EntryOf(sub)) by { DescribedNumber(sub); }
      forall d, x | IsDir(e, d) && x in DirEntries(e, e[d].inode) ensures EntryTrue(e, x) {
        if d == i.ino { InsertedMembers(DirEntries(c, i), DirEntries(e, k), EntryOf(sub), x); }
        assert EntryTrue(c, x);
        EntryStays(c, e, x);
      }
    }
  }

  lemma DescribedNumber(sub: Inode)
    requires Enterable(sub)
    ensures EntryOf(sub).ino == sub.ino
  {
  }

  // A new inode is entered in a directory.
  lemma MadeTruth(c: Store, lab: Labels, e: Store, lab': Labels, dir: nat, number: nat,
                  nameLen: nat, name: seq<Byte>, typ: FileType, ret: int)
    requires NameFree(c, lab, dir, nameLen, name) && Truthful(c) && 0 < number < POINTER_LIMIT
    requires MadeOutcome(c, lab, e, lab', dir, number, nameLen, name, typ, ret)
    ensures Truthful(e)
  {
    hide FsGood, DirBlocks, AllEntries, AddOutcome, Lookup, SameFile, EntryTrue, Enterable, NewInode;
    var i := NewInode(number, nameLen, name, typ);
    var c1 := c[number := Ino(i)];
    NewFields(number, nameLen, name, typ);
    assert !IsRoot(i);
    FsWithInode(c, lab, number, nameLen, name, typ);
    assert IdentitiesKept(c, c1);
    forall d, x | IsDir(c1, d) && x in DirEntries(c1, c1[d].inode) ensures EntryTrue(c1, x) {
      if d == number {
        NewEmptyDir(c1, number, nameLen, name, typ);
        assert false;
      } else {
        SameDir(c, c1, d);
        EntryStays(c, c1, x);
      }
    }
    assert dir != number;
    AddedTruth(c1, lab[number := InodeOf], e, lab', c[dir].inode, i, ret);
  }

  lemma LessIsInserted(ds: seq<Payload>, ds': seq<Payload>, e: Dirent)
    requires OneLess(ds, ds', e)
    ensures Inserted(AllEntries(ds'), AllEntries(ds), e)
  {
    hide Inserted;
  }

  // An entry is taken out.
  lemma RemovedTruth(c: Store, lab: Labels, e: Store, lab': Labels, i: Inode, name: Name, found: bool)
    requires i.ino in c && c[i.ino] == Ino(i) && i.typ == Directory && Truthful(c)
    requires RemoveOutcome(c, lab, e, lab', i, name, found)
    ensures Truthful(e)
  {
    hide FsGood, DirBlocks, AllEntries, Lookup, OthersKept, LabelsKept, EntryTrue;
    if found {
      var k: Inode, gone: Dirent :|
        DirWritten(c, lab, e, lab', i, k, DirBlocks(e, k)) && OneLess(DirBlocks(c, i), DirBlocks(e, k), gone);
      DirTruth(c, lab, e, lab', i, k);
      LessIsInserted(DirBlocks(c, i), DirBlocks(e, k), gone);
      forall d, x | IsDir(e, d) && x in DirEntries(e, e[d].inode) ensures EntryTrue(e, x) {
        if d == i.ino { InsertedMembers(DirEntries(e, k), DirEntries(c, i), gone, x); }
        assert EntryTrue(c, x);
        EntryStays(c, e, x);
      }
    }
  }
}
