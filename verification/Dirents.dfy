// A directory block: 40-byte directory entries packed from the start of its data.
module Dirents {
  import opened Blocks
  import opened FileIndex

  const DIRENT_SIZE: nat := 40
  // Slots scanned by the loops over a block: offsets 8, 48, ... below 4096 - 40.
  const SLOTS: nat := 102

  type Name = s: seq<Byte> | |s| == NAME_SIZE witness seq(NAME_SIZE, _ => 0)

  lemma SlotsScanned(k: nat)
    ensures k < SLOTS <==> 8 + 40 * k < 4096 - 40
  {
  }

  // struct hodo_dirent.
  datatype Dirent = Dirent(name: Name, nameLen: Byte, ino: nat, fileType: Byte)

  type SlotBytes = s: seq<Byte> | |s| == DIRENT_SIZE witness seq(DIRENT_SIZE, _ => 0)

  function SlotOf(d: Payload, k: nat): SlotBytes
    requires k < SLOTS
  {
    d[40 * k..40 * k + 40]
  }

  // Byte layout: name 0-15, name_len 16, i_ino 24-31, file_type 32; the rest is padding.
  function Parse(b: SlotBytes): Dirent {
    Dirent(b[..16], b[16], Word(b[24], b[25], b[26], b[27]) + 0x1_0000_0000 * Word(b[28], b[29], b[30], b[31]), b[32])
  }

  function EntryAt(d: Payload, k: nat): Dirent
    requires k < SLOTS
  {
    Parse(SlotOf(d, k))
  }

  // is_dirent_valid.
  predicate IsValid(e: Dirent) {
    e.name[0] != 0 && e.nameLen != 0 && e.ino != 0 && (e.fileType == 0 || e.fileType == 1)
  }

  function TypeCode(t: FileType): Byte {
    if t == Directory then 1 else 0
  }

  // The name is copied over the first name_len bytes of the slot.
  function NameBytes(slot: SlotBytes, i: Inode): Name
    requires 0 < i.nameLen <= NAME_SIZE && |i.name| >= i.nameLen
  {
    i.name[..i.nameLen] + slot[i.nameLen..NAME_SIZE]
  }

  // The bytes add_dirent puts into a slot that held the bytes given.
  function Encode(slot: SlotBytes, i: Inode): SlotBytes
    requires 0 < i.nameLen <= NAME_SIZE && |i.name| >= i.nameLen && i.ino < POINTER_LIMIT
  {
    NameBytes(slot, i) + [i.nameLen] + slot[17..24]
      + [Digit(i.ino, 0), Digit(i.ino, 1), Digit(i.ino, 2), Digit(i.ino, 3), 0, 0, 0, 0]
      + [TypeCode(i.typ)] + slot[33..]
  }

  // The entry an inode stands for, its name padded with zeroes.
  function EntryOf(i: Inode): Dirent
    requires 0 < i.nameLen <= NAME_SIZE && |i.name| >= i.nameLen
  {
    Dirent(Padded(i), i.nameLen, i.ino, TypeCode(i.typ))
  }

  function Padded(i: Inode): Name
    requires 0 < i.nameLen <= NAME_SIZE && |i.name| >= i.nameLen
  {
    i.name[..i.nameLen] + seq(NAME_SIZE - i.nameLen, _ => 0)
  }

  // An inode that can be entered in a directory.
  predicate Enterable(i: Inode) {
    0 < i.nameLen <= NAME_SIZE && |i.name| >= i.nameLen && i.name[0] != 0 && 0 < i.ino < POINTER_LIMIT
  }

  // The entry says what the inode is: its number, its name up to the length and zeroes
  // after, and its type, 1 for a directory and 0 for a regular file.
  predicate Describes(e: Dirent, i: Inode) {
    && e.ino == i.ino && e.nameLen == i.nameLen && i.nameLen <= NAME_SIZE && |i.name| >= i.nameLen
    && (forall q: nat | q < NAME_SIZE :: e.name[q] == if q < i.nameLen then i.name[q] else 0)
    && (e.fileType == 1 <==> i.typ == Directory) && (e.fileType == 0 <==> i.typ == Regular)
  }

  function SetSlot(d: Payload, k: nat, bytes: SlotBytes): Payload
    requires k < SLOTS
  {
    d[..40 * k] + bytes + d[40 * k + 40..]
  }

  // compact_datablock: the slot is cut out, what follows moves up, the end is cleared.
  function CutSlot(d: Payload, k: nat): Payload
    requires k < SLOTS
  {
    d[..40 * k] + d[40 * k + 40..] + seq(DIRENT_SIZE, _ => 0)
  }

  // The block holds n valid entries from its start and nothing but zeroes after.
  predicate Dense(d: Payload, n: nat) {
    && n <= SLOTS
    && (forall k: nat | k < n :: IsValid(EntryAt(d, k)))
    && (forall q: nat | 40 * n <= q < DATA_SIZE :: d[q] == 0)
  }

  lemma EmptySlot(b: SlotBytes)
    requires b == seq(DIRENT_SIZE, _ => 0)
    ensures !IsValid(Parse(b)) && Parse(b).name[0] == 0
  {
    assert b[0] == 0;
  }

  lemma ZeroSlot(d: Payload, n: nat, k: nat)
    requires Dense(d, n) && n <= k < SLOTS
    ensures SlotOf(d, k) == seq(DIRENT_SIZE, _ => 0)
    ensures !IsValid(EntryAt(d, k)) && EntryAt(d, k).name[0] == 0
  {
    hide Parse;
    assert SlotOf(d, k) == seq(DIRENT_SIZE, _ => 0);
    EmptySlot(SlotOf(d, k));
  }

  lemma EncodedEntry(b: SlotBytes, i: Inode)
    requires Enterable(i) && b == seq(DIRENT_SIZE, _ => 0)
    ensures Parse(Encode(b, i)) == EntryOf(i) && IsValid(EntryOf(i))
  {
    hide Word, Digit;
    var e := Encode(b, i);
    DigitsRoundTrip(i.ino);
    assert forall q: nat | q < 16 :: e[q] == Padded(i)[q];
    assert e[..16] == Padded(i);
    assert Word(0, 0, 0, 0) == 0 by { ZeroWord(); }
    assert e[24] == Digit(i.ino, 0) && e[25] == Digit(i.ino, 1) && e[26] == Digit(i.ino, 2) && e[27] == Digit(i.ino, 3);
    assert e[28] == 0 && e[29] == 0 && e[30] == 0 && e[31] == 0;
    assert Padded(i)[0] == i.name[0];
  }

  // The byte at offset o of an entry for inode i.
  function EntryByte(i: Inode, o: nat): int
    requires Enterable(i)
  {
    if o < 16 then (if o < i.nameLen then i.name[o] else 0)
    else if o == 16 then i.nameLen
    else if o == 24 then i.ino % 0x100
    else if o == 25 then i.ino / 0x100 % 0x100
    else if o == 26 then i.ino / 0x1_0000 % 0x100
    else if o == 27 then i.ino / 0x100_0000
    else if o == 32 then (if i.typ == Directory then 1 else 0)
    else 0
  }

  lemma EncodedBytes(b: SlotBytes, i: Inode, o: nat)
    requires Enterable(i) && b == seq(DIRENT_SIZE, _ => 0) && o < DIRENT_SIZE
    ensures Encode(b, i)[o] == EntryByte(i, o)
  {
    hide Digit;
    var name := NameBytes(b, i);
    assert |name| == 16;
    if o < 16 {
      assert Encode(b, i)[o] == name[o];
    } else {
      DigitBytes(i.ino);
    }
  }

  lemma DigitBytes(p: nat)
    requires p < POINTER_LIMIT
    ensures Digit(p, 0) == p % 0x100 && Digit(p, 1) == p / 0x100 % 0x100 && Digit(p, 2) == p / 0x1_0000 % 0x100
    ensures Digit(p, 3) == p / 0x100_0000
  {
  }

  // add_dirent leaves these bytes: the entry in its slot, all others as they were.
  lemma InsertedBytes(d: Payload, n: nat, i: Inode, q: nat)
    requires Dense(d, n) && n < SLOTS && Enterable(i) && q < DATA_SIZE
    ensures SetSlot(d, n, Encode(SlotOf(d, n), i))[q] ==
      if 40 * n <= q < 40 * n + 40 then EntryByte(i, q - 40 * n) else d[q]
  {
    hide Encode, EntryByte, SetSlot, Parse, IsValid;
    ZeroSlot(d, n, n);
    SetByte(d, n, Encode(SlotOf(d, n), i), q);
    if 40 * n <= q < 40 * n + 40 { EncodedBytes(SlotOf(d, n), i, q - 40 * n); }
  }

  lemma ZeroWord()
    ensures Word(0, 0, 0, 0) == 0
  {
  }

  function Entries(d: Payload, n: nat): seq<Dirent>
    requires n <= SLOTS
  {
    seq(n, k requires 0 <= k < n => EntryAt(d, k))
  }

  lemma SetSlots(d: Payload, n: nat, b: SlotBytes, k: nat)
    requires n < SLOTS && k < SLOTS
    ensures SlotOf(SetSlot(d, n, b), k) == if k == n then b else SlotOf(d, k)
  {
    hide SetSlot;
    forall q: nat | q < 40 ensures SlotOf(SetSlot(d, n, b), k)[q] == if k == n then b[q] else SlotOf(d, k)[q] {
      SetByte(d, n, b, 40 * k + q);
    }
  }

  lemma SetByte(d: Payload, n: nat, b: SlotBytes, q: nat)
    requires n < SLOTS && q < DATA_SIZE
    ensures SetSlot(d, n, b)[q] == if 40 * n <= q < 40 * n + 40 then b[q - 40 * n] else d[q]
  {
  }

  lemma CutSlots(d: Payload, n: nat, k: nat)
    requires n < SLOTS && k + 1 < SLOTS
    ensures SlotOf(CutSlot(d, n), k) == SlotOf(d, if k < n then k else k + 1)
  {
    hide CutSlot;
    var from := if k < n then k else k + 1;
    forall q: nat | q < 40 ensures SlotOf(CutSlot(d, n), k)[q] == SlotOf(d, from)[q] { CutByte(d, n, 40 * k + q); }
  }

  lemma CutByte(d: Payload, n: nat, q: nat)
    requires n < SLOTS && q + 40 < DATA_SIZE
    ensures CutSlot(d, n)[q] == if q < 40 * n then d[q] else d[q + 40]
  {
  }

  lemma TailZero(d: Payload, n: nat, b: SlotBytes)
    requires n < SLOTS && forall q: nat | 40 * n <= q < DATA_SIZE :: d[q] == 0
    ensures forall q: nat | 40 * (n + 1) <= q < DATA_SIZE :: SetSlot(d, n, b)[q] == 0
  {
    forall q: nat | 40 * (n + 1) <= q < DATA_SIZE ensures SetSlot(d, n, b)[q] == d[q] { }
  }

  lemma InsertSlot(d: Payload, n: nat, i: Inode, k: nat)
    requires Dense(d, n) && n < SLOTS && Enterable(i) && k <= n
    ensures EntryAt(SetSlot(d, n, Encode(SlotOf(d, n), i)), k) == if k == n then EntryOf(i) else EntryAt(d, k)
    ensures IsValid(EntryOf(i))
  {
    hide Parse, Encode, SlotOf, EntryOf, IsValid, SetSlot;
    ZeroSlot(d, n, n);
    EncodedEntry(SlotOf(d, n), i);
    SetSlots(d, n, Encode(SlotOf(d, n), i), k);
  }

  // Adding to a dense block appends one entry.
  lemma InsertDense(d: Payload, n: nat, i: Inode)
    requires Dense(d, n) && n < SLOTS && Enterable(i)
    ensures var e := SetSlot(d, n, Encode(SlotOf(d, n), i));
      Dense(e, n + 1) && Entries(e, n + 1) == Entries(d, n) + [EntryOf(i)]
  {
    hide EntryAt, Encode, SlotOf, EntryOf, IsValid, SetSlot;
    var e := SetSlot(d, n, Encode(SlotOf(d, n), i));
    TailZero(d, n, Encode(SlotOf(d, n), i));
    forall k: nat | k <= n
      ensures EntryAt(e, k) == if k == n then EntryOf(i) else EntryAt(d, k)
      ensures IsValid(EntryAt(e, k))
    {
      InsertSlot(d, n, i, k);
    }
    assert Entries(e, n + 1) == Entries(d, n) + [EntryOf(i)];
  }

  // Cutting a slot of a dense block removes one entry and keeps the order of the rest.
  lemma CutDense(d: Payload, n: nat, k: nat)
    requires Dense(d, n) && k < n
    ensures Dense(CutSlot(d, k), n - 1)
    ensures Entries(CutSlot(d, k), n - 1) == Entries(d, n)[..k] + Entries(d, n)[k + 1..]
  {
    hide Parse, SlotOf, IsValid;
    var e := CutSlot(d, k);
    forall j: nat | j < n - 1 ensures EntryAt(e, j) == EntryAt(d, if j < k then j else j + 1) {
      CutSlots(d, k, j);
    }
    assert Entries(e, n - 1) == Entries(d, n)[..k] + Entries(d, n)[k + 1..];
  }

  // The number of valid slots before the first invalid one, in the bytes from some
  // slot on; the loops stop when no more than one slot size is left.
  function Leading(bytes: seq<Byte>): (n: nat)
    ensures n > 0 ==> DIRENT_SIZE * n < |bytes|
  {
    if |bytes| > DIRENT_SIZE && IsValid(Parse(bytes[..DIRENT_SIZE])) then 1 + Leading(bytes[DIRENT_SIZE..]) else 0
  }

  // The number of entries of a block.
  function Count(d: Payload): (n: nat)
    ensures n <= SLOTS
  {
    Leading(d)
  }

  lemma {:induction false} LeadingDense(d: Payload, n: nat, k: nat)
    requires Dense(d, n) && k <= n
    ensures Leading(d[40 * k..]) == n - k
    decreases n - k
  {
    hide Parse, IsValid;
    if k < SLOTS {
      assert d[40 * k..][..DIRENT_SIZE] == SlotOf(d, k);
      assert d[40 * k..][DIRENT_SIZE..] == d[40 * (k + 1)..];
    }
    if k < n {
      assert IsValid(EntryAt(d, k));
      LeadingDense(d, n, k + 1);
    } else if n < SLOTS {
      ZeroSlot(d, n, n);
    }
  }

  lemma CountDense(d: Payload, n: nat)
    requires Dense(d, n)
    ensures Count(d) == n
  {
    LeadingDense(d, n, 0);
    assert d[40 * 0..] == d;
  }

  // A dense block is all zeroes exactly when it holds no entry.
  lemma ZeroIffEmpty(d: Payload, n: nat)
    requires Dense(d, n)
    ensures d == Zeroes() <==> n == 0
  {
    if n == 0 {
      assert d == Zeroes();
    } else {
      assert IsValid(EntryAt(d, 0)) && EntryAt(d, 0).name[0] == d[0];
    }
  }
}
