/**
 * The two flag bits of the raw type word of a file ID, and the file type
 * that remains once they are cleared. JavaScript's `&` and `~` act on the
 * 32-bit two's-complement pattern of a number and give back a signed 32-bit
 * value; they are written out here on naturals.
 */
module FileIdFlags {
  import opened FileIdTypes
  import opened BinaryReading

  function Pow2(n: nat): (p: nat)
    ensures p >= 1
  {
    if n == 0 then 1 else 2 * Pow2(n - 1)
  }

  lemma Pow2Of32()
    ensures Pow2(32) == 0x1_0000_0000
  {
    assert Pow2(4) == 0x10;
    assert Pow2(8) == 0x100;
    assert Pow2(12) == 0x1000;
    assert Pow2(16) == 0x1_0000;
    assert Pow2(20) == 0x10_0000;
    assert Pow2(24) == 0x100_0000;
    assert Pow2(28) == 0x1000_0000;
  }

  /** Bitwise AND of two naturals, least significant bit first. */
  function BitAnd(a: nat, b: nat): nat {
    if a == 0 || b == 0 then 0
    else 2 * BitAnd(a / 2, b / 2) + (if a % 2 == 1 && b % 2 == 1 then 1 else 0)
  }

  /** AND keeps only bits that both operands have, so it is no larger than either. */
  lemma {:induction false} BitAndBound(a: nat, b: nat)
    ensures BitAnd(a, b) <= a && BitAnd(a, b) <= b
    decreases a
  {
    if a != 0 && b != 0 {
      BitAndBound(a / 2, b / 2);
    }
  }

  /** The 32-bit pattern of a signed 32-bit value. */
  function Pattern(x: Int32): Uint32 {
    x % 0x1_0000_0000
  }

  /** `~flag`: the complement of a 32-bit pattern. */
  function Not32(b: Uint32): Uint32 {
    0xFFFF_FFFF - b
  }

  /** `x & flag` is non-zero. */
  predicate HasFlag(x: Int32, flag: Uint32) {
    BitAnd(Pattern(x), flag) != 0
  }

  /** `x & ~flag`. */
  function ClearFlag(x: Int32, flag: Uint32): (r: Int32)
    ensures Pattern(r) == BitAnd(Pattern(x), Not32(flag))
  {
    BitAndBound(Pattern(x), Not32(flag));
    ToInt32(BitAnd(Pattern(x), Not32(flag)))
  }

  /** Within `n` bits, a value has no bit in common with its complement. */
  lemma {:induction false} AndComplement(x: nat, w: nat, n: nat)
    requires w < Pow2(n)
    ensures BitAnd(BitAnd(x, Pow2(n) - 1 - w), w) == 0
    decreases n
  {
    var c := Pow2(n) - 1 - w;
    if n == 0 {
      assert w == 0;
    } else if x == 0 || c == 0 || w == 0 {
    } else {
      assert c / 2 == Pow2(n - 1) - 1 - w / 2 && c % 2 == 1 - w % 2;
      AndComplement(x / 2, w / 2, n - 1);
      var a := BitAnd(x, c);
      assert a / 2 == BitAnd(x / 2, c / 2);
      assert a % 2 == 1 ==> w % 2 == 0;
    }
  }

  /** AND can only remove bits: what is disjoint from `a` stays disjoint from `a & c`. */
  lemma {:induction false} AndKeepsDisjoint(a: nat, c: nat, w: nat)
    requires BitAnd(a, w) == 0
    ensures BitAnd(BitAnd(a, c), w) == 0
    decreases a
  {
    if a == 0 || c == 0 || w == 0 {
    } else {
      AndKeepsDisjoint(a / 2, c / 2, w / 2);
      var r := BitAnd(a, c);
      assert r / 2 == BitAnd(a / 2, c / 2);
    }
  }

  /** One step of `BitAnd`, for any two naturals. */
  lemma BitAndStep(a: nat, b: nat)
    ensures BitAnd(a, b) == 2 * BitAnd(a / 2, b / 2) + (if a % 2 == 1 && b % 2 == 1 then 1 else 0)
  {
  }

  /** The complement within `n` bits, split into its low bit and the complement of the rest within `n - 1` bits. */
  lemma ComplementHalves(f: nat, n: nat)
    requires n > 0 && f < Pow2(n)
    ensures (Pow2(n) - 1 - f) / 2 == Pow2(n - 1) - 1 - f / 2
    ensures (Pow2(n) - 1 - f) % 2 == 1 - f % 2
  {
  }

  /** Within `n` bits, AND with the complement of `f` keeps every bit of `g` when `f` and `g` are disjoint. */
  lemma {:induction false} AndComplementKeeps(a: nat, f: nat, g: nat, n: nat)
    requires f < Pow2(n) && g < Pow2(n) && BitAnd(f, g) == 0
    ensures BitAnd(BitAnd(a, Pow2(n) - 1 - f), g) == BitAnd(a, g)
    decreases n
  {
    if n == 0 {
      assert g == 0;
    } else {
      var c := Pow2(n) - 1 - f;
      ComplementHalves(f, n);
      BitAndStep(f, g);
      AndComplementKeeps(a / 2, f / 2, g / 2, n - 1);
      var t := BitAnd(a, c);
      BitAndStep(a, c);
      var low := if a % 2 == 1 && c % 2 == 1 then 1 else 0;
      assert t == 2 * BitAnd(a / 2, c / 2) + low;
      assert t / 2 == BitAnd(a / 2, c / 2) && t % 2 == low;
      assert (t % 2 == 1 && g % 2 == 1) == (a % 2 == 1 && g % 2 == 1);
      BitAndStep(t, g);
      BitAndStep(a, g);
    }
  }

  /** Within `n` bits, AND with the complement of `f` is the identity on values disjoint from `f`. */
  lemma {:induction false} AndComplementIdentity(a: nat, f: nat, n: nat)
    requires a < Pow2(n) && f < Pow2(n) && BitAnd(a, f) == 0
    ensures BitAnd(a, Pow2(n) - 1 - f) == a
    decreases n
  {
    if n == 0 {
      assert a == 0;
    } else {
      var c := Pow2(n) - 1 - f;
      assert c / 2 == Pow2(n - 1) - 1 - f / 2 && c % 2 == 1 - f % 2;
      BitAndStep(a, f);
      AndComplementIdentity(a / 2, f / 2, n - 1);
      BitAndStep(a, c);
    }
  }

  /** Clearing a flag leaves it clear. */
  lemma ClearFlagClears(x: Int32, flag: Uint32)
    ensures !HasFlag(ClearFlag(x, flag), flag)
  {
    Pow2Of32();
    AndComplement(Pattern(x), flag, 32);
  }

  /** Clearing a flag changes no bit outside it. */
  lemma ClearFlagKeepsOthers(x: Int32, flag: Uint32, other: Uint32)
    requires BitAnd(flag, other) == 0
    ensures BitAnd(Pattern(ClearFlag(x, flag)), other) == BitAnd(Pattern(x), other)
  {
    Pow2Of32();
    AndComplementKeeps(Pattern(x), flag, other, 32);
  }

  /** Clearing a flag that is not set changes nothing. */
  lemma ClearFlagUnset(x: Int32, flag: Uint32)
    requires !HasFlag(x, flag)
    ensures ClearFlag(x, flag) == x
  {
    Pow2Of32();
    AndComplementIdentity(Pattern(x), flag, 32);
  }

  /** What `fileType &= ~WEB_LOCATION_FLAG; fileType &= ~FILE_REFERENCE_FLAG` leaves of the raw type word. */
  function FileTypeOf(raw: Int32): Int32 {
    ClearFlag(ClearFlag(raw, WebLocationFlag), FileReferenceFlag)
  }

  /** Neither flag is set in the file type that remains. */
  lemma FileTypeHasNoFlags(raw: Int32)
    ensures !HasFlag(FileTypeOf(raw), WebLocationFlag)
    ensures !HasFlag(FileTypeOf(raw), FileReferenceFlag)
  {
    var once := ClearFlag(raw, WebLocationFlag);
    ClearFlagClears(raw, WebLocationFlag);
    AndKeepsDisjoint(Pattern(once), Not32(FileReferenceFlag), WebLocationFlag);
    ClearFlagClears(once, FileReferenceFlag);
  }

  /** The file type keeps every bit of the raw word outside the two flags. */
  lemma FileTypeKeepsOtherBits(raw: Int32, other: Uint32)
    requires BitAnd(WebLocationFlag, other) == 0 && BitAnd(FileReferenceFlag, other) == 0
    ensures BitAnd(Pattern(FileTypeOf(raw)), other) == BitAnd(Pattern(raw), other)
  {
    ClearFlagKeepsOthers(raw, WebLocationFlag, other);
    ClearFlagKeepsOthers(ClearFlag(raw, WebLocationFlag), FileReferenceFlag, other);
  }

  /** A raw type word carrying neither flag is its own file type. */
  lemma FileTypeOfUnflagged(raw: Int32)
    requires !HasFlag(raw, WebLocationFlag) && !HasFlag(raw, FileReferenceFlag)
    ensures FileTypeOf(raw) == raw
  {
    ClearFlagUnset(raw, WebLocationFlag);
    ClearFlagUnset(raw, FileReferenceFlag);
  }
}
