// The files of a zone group are named by their number in decimal.
module ZoneNames {

  const ENOENT: int := -2
  const ENAMETOOLONG: int := -36
  const NAME_MAX: nat := 16

  predicate IsDigit(c: char) {
    '0' <= c <= '9'
  }

  function DigitOf(c: char): (d: int)
    ensures IsDigit(c) <==> 0 <= d < 10
    ensures IsDigit(c) ==> c == "0123456789"[d]
  {
    c as int - '0' as int
  }

  function CharOf(d: nat): (c: char)
    requires d < 10
    ensures IsDigit(c) && DigitOf(c) == d
  {
    '0' + d as char
  }

  // The name readdir gives file f (the format "%u").
  function Decimal(f: nat): string {
    if f < 10 then [CharOf(f)] else Decimal(f / 10) + [CharOf(f % 10)]
  }

  predicate Digits(name: string) {
    forall i: nat | i < |name| :: IsDigit(name[i])
  }

  // A number without leading zeroes.
  predicate Canonical(name: string) {
    |name| > 0 && Digits(name) && (|name| > 1 ==> name[0] != '0')
  }

  function Value(name: string): nat
    requires Digits(name)
  {
    if name == "" then 0 else 10 * Value(name[..|name| - 1]) + DigitOf(name[|name| - 1])
  }

  function Pow10(n: nat): nat {
    if n == 0 then 1 else 10 * Pow10(n - 1)
  }

  lemma {:induction false} ValueBelow(name: string)
    requires Digits(name)
    ensures Value(name) < Pow10(|name|)
    ensures name != "" && name[0] != '0' ==> Value(name) > 0
  {
    if name != "" {
      ValueBelow(name[..|name| - 1]);
    }
  }

  // Parsing inverts the naming of files, so no two files share a name.
  lemma {:induction false} DecimalIsCanonical(f: nat)
    ensures Canonical(Decimal(f)) && Value(Decimal(f)) == f
    ensures f > 0 ==> Decimal(f)[0] != '0'
  {
    var name := Decimal(f);
    if f < 10 {
      assert name[..0] == "" && Value("") == 0;
    } else {
      DecimalIsCanonical(f / 10);
      assert name[..|name| - 1] == Decimal(f / 10);
    }
  }

  lemma {:induction false} Pow10Grows(m: nat, n: nat)
    requires m <= n
    ensures Pow10(m) <= Pow10(n)
  {
    if m < n { Pow10Grows(m, n - 1); }
  }

  lemma Distribute(v: nat, d: int, shift: nat)
    ensures (10 * v + d) * shift == v * (shift * 10) + d * shift
  {
  }

  lemma TenToTheSixteen()
    ensures Pow10(NAME_MAX) == 10_000_000_000_000_000
  {
    assert Pow10(4) == 10_000;
    assert Pow10(8) == 100_000_000;
    assert Pow10(12) == 1_000_000_000_000;
    assert Pow10(16) == 10_000_000_000_000_000;
  }

  // One digit moves from the unread part of the name to the number.
  lemma ValueStep(name: string, at: nat, shift: nat, fno: nat)
    requires 0 < at <= |name| && Digits(name)
    ensures Value(name[..at]) * shift + fno ==
        Value(name[..at - 1]) * (shift * 10) + (fno + DigitOf(name[at - 1]) * shift)
  {
    assert name[..at][..at - 1] == name[..at - 1];
    Distribute(Value(name[..at - 1]), DigitOf(name[at - 1]), shift);
  }

  lemma DigitFits(fno: nat, d: nat, shift: nat)
    requires fno < shift && d < 10
    ensures 0 <= fno + d * shift < shift * 10
  {
  }

  lemma {:induction false} CanonicalIsDecimal(name: string)
    requires Canonical(name)
    ensures Decimal(Value(name)) == name
  {
    var rest := name[..|name| - 1];
    if rest == "" {
      assert Value(rest) == 0;
    } else {
      ValueBelow(rest);
      CanonicalIsDecimal(rest);
      assert Value(name) / 10 == Value(rest);
    }
    assert name == rest + [name[|name| - 1]];
  }

  lemma EmptyValue()
    ensures Value("") == 0
  {
  }

  lemma ReadOneDigit(name: string)
    requires |name| == 1 && IsDigit(name[0])
    ensures Canonical(name) && name == Decimal(DigitOf(name[0])) && DigitOf(name[0]) < Pow10(1)
  {
    assert name[..0] == "";
    CanonicalIsDecimal(name);
  }

  // zonefs_fname_to_fno: accepts just the names readdir gives, and inverts them.
  method FnameToFno(name: string) returns (fno: int)
    ensures fno == ENOENT || fno >= 0
    ensures fno >= 0 <==> Canonical(name)
    ensures fno >= 0 ==> name == Decimal(fno) && fno < Pow10(|name|)
  {
    hide Decimal, Value;
    if name == "" || !IsDigit(name[0]) {
      return ENOENT;
    }
    if |name| > 1 && name[0] == '0' {
      return ENOENT;
    }
    if |name| == 1 {
      ReadOneDigit(name);
      return DigitOf(name[0]);
    }
    var shift := 1;
    fno := 0;
    var at := |name|;
    assert name[..at] == name;
    while at > 0
      invariant 0 <= at <= |name|
      invariant forall i: nat | at <= i < |name| :: IsDigit(name[i])
      invariant Digits(name) ==> Value(name) == Value(name[..at]) * shift + fno
      invariant shift == Pow10(|name| - at) && 0 <= fno < shift
    {
      var c := name[at - 1];
      if !IsDigit(c) {
        return ENOENT;
      }
      if Digits(name) {
        ValueStep(name, at, shift, fno);
      }
      DigitFits(fno, DigitOf(c), shift);
      fno := fno + DigitOf(c) * shift;
      shift := shift * 10;
      at := at - 1;
    }
    assert name[..0] == "" && Value("") == 0 by { EmptyValue(); }
    CanonicalIsDecimal(name);
  }

  // The number of a file as zonefs_lookup finds it, or why it finds none: the limit
  // on the length keeps the number within a signed 64-bit integer.
  method LookupFile(name: string, files: nat) returns (fno: int)
    ensures fno == ENAMETOOLONG <==> |name| > NAME_MAX
    ensures fno == ENOENT <==> |name| <= NAME_MAX && forall f: nat | f < files :: name != Decimal(f)
    ensures |name| <= NAME_MAX ==> forall f: nat | f < files :: fno == f <==> name == Decimal(f)
    ensures fno < files && (fno < 0 ==> fno == ENOENT || fno == ENAMETOOLONG)
    ensures fno < 0x7FFF_FFFF_FFFF_FFFF
  {
    if |name| > NAME_MAX {
      return ENAMETOOLONG;
    }
    fno := FnameToFno(name);
    forall f: nat | name == Decimal(f) ensures fno == f {
      DecimalIsCanonical(f);
      if fno >= 0 { DecimalIsCanonical(fno); }
    }
    if fno >= 0 {
      assert fno < 0x7FFF_FFFF_FFFF_FFFF by {
        Pow10Grows(|name|, NAME_MAX);
        TenToTheSixteen();
      }
    }
    if files == 0 || fno >= files {
      fno := ENOENT;
    }
  }
}
