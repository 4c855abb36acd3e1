/**
 CRC-32 as src/protocol.cpp computes it (IEEE 802.3, reflected polynomial
 0xEDB88320), against its bit-serial definition.

 A register or message is a natural number whose bit 0 is the first bit on the
 wire, so a whole message is one integer and a byte string is its base-256
 digits, least significant first.
 */
module Crc {
  import opened Machine

  const POLYNOMIAL: U32 := 0xEDB8_8320
  const ALL_ONES: U32 := 0xFFFF_FFFF

  // ---- Exclusive or ----------------------------------------------------

  function Xor(a: nat, b: nat): (r: nat)
  {
    if a == 0 then b
    else if b == 0 then a
    else 2 * Xor(a / 2, b / 2) + (if a % 2 != b % 2 then 1 else 0)
  }

  lemma {:induction false} XorBits(a: nat, b: nat)
    ensures Xor(a, b) / 2 == Xor(a / 2, b / 2)
    ensures Xor(a, b) % 2 == (if a % 2 != b % 2 then 1 else 0)
  {}

  lemma XorZero(n: nat)
    ensures Xor(0, n) == n && Xor(n, 0) == n
  {}

  lemma {:induction false} XorSelf(a: nat)
    ensures Xor(a, a) == 0
  {
    if a > 0 { XorSelf(a / 2); }
  }

  lemma {:induction false} XorCommutes(a: nat, b: nat)
    ensures Xor(a, b) == Xor(b, a)
  {
    if a > 0 && b > 0 { XorCommutes(a / 2, b / 2); }
  }

  lemma {:induction false} XorAssociates(a: nat, b: nat, c: nat)
    ensures Xor(Xor(a, b), c) == Xor(a, Xor(b, c))
    decreases a + b + c
  {
    if a > 0 && b > 0 && c > 0 {
      XorAssociates(a / 2, b / 2, c / 2);
      XorBits(a, b);
      XorBits(b, c);
      XorBits(Xor(a, b), c);
      XorBits(a, Xor(b, c));
    }
  }

  lemma XorCancels(a: nat, b: nat, c: nat)
    requires Xor(a, c) == Xor(b, c)
    ensures a == b
  {
    XorAssociates(a, c, c);
    XorAssociates(b, c, c);
    XorSelf(c);
    XorZero(a);
    XorZero(b);
  }

  lemma XorSwaps(a: nat, b: nat, c: nat)
    ensures Xor(Xor(a, b), c) == Xor(Xor(a, c), b)
  {
    XorAssociates(a, b, c);
    XorAssociates(a, c, b);
    XorCommutes(b, c);
  }

  lemma {:induction false} XorBound(a: nat, b: nat, k: nat)
    requires a < Pow2(k) && b < Pow2(k)
    ensures Xor(a, b) < Pow2(k)
  {
    if k > 0 && a > 0 && b > 0 { XorBound(a / 2, b / 2, k - 1); }
  }

  lemma XorBound32(a: U32, b: U32)
    ensures Xor(a, b) < 0x1_0000_0000
  {
    Pow2Of32();
    XorBound(a, b, 32);
  }

  lemma Pow2Of32()
    ensures Pow2(31) == 0x8000_0000 && Pow2(32) == 0x1_0000_0000
  {
    assert Pow2(8) == 256;
    assert Pow2(16) == 65536 by { assert Pow2(12) == 4096; }
    assert Pow2(20) == 16 * Pow2(16);
    assert Pow2(24) == 16 * Pow2(20);
    assert Pow2(28) == 16 * Pow2(24);
    assert Pow2(31) == 8 * Pow2(28);
  }

  /** `n` moved up by `k` bits. */
  function Raised(n: nat, k: nat): (r: nat)
  {
    if k == 0 then n else 2 * Raised(n, k - 1)
  }

  lemma {:induction false} RaisedIsProduct(n: nat, k: nat)
    ensures Raised(n, k) == Pow2(k) * n
  {
    if k > 0 {
      RaisedIsProduct(n, k - 1);
      Doubled(Pow2(k - 1), n);
    }
  }

  lemma Doubled(p: nat, n: nat)
    ensures 2 * (p * n) == (2 * p) * n
  {}

  /** Low bits and raised bits do not meet. */
  lemma {:induction false} XorDisjoint(low: nat, high: nat, k: nat)
    requires low < Pow2(k)
    ensures Xor(low, Raised(high, k)) == low + Raised(high, k)
  {
    hide Xor;
    if k == 0 {
      XorZero(high);
    } else {
      XorDisjoint(low / 2, high, k - 1);
      XorBits(low, Raised(high, k));
    }
  }

  /** A low part never disturbs a disjoint high bit. */
  lemma XorHighBit(a: nat, b: nat, k: nat)
    requires a < Pow2(k) && b < Pow2(k)
    ensures Xor(a, Pow2(k) + b) == Pow2(k) + Xor(a, b)
  {
    hide Xor, Raised, Pow2;
    RaisedIsProduct(1, k);
    XorBound(a, b, k);
    XorDisjoint(b, 1, k);
    XorDisjoint(Xor(a, b), 1, k);
    XorAssociates(a, b, Raised(1, k));
  }

  // ---- One bit of polynomial division ----------------------------------

  /** Divides out one bit: bit 0 leaves the register, folding the polynomial in when set. */
  function Shift(v: nat): (r: nat)
  {
    if v % 2 == 1 then Xor(v / 2, POLYNOMIAL) else v / 2
  }

  function Shifts(n: nat, v: nat): (r: nat)
  {
    if n == 0 then v else Shifts(n - 1, Shift(v))
  }

  lemma ShiftBound(v: U32)
    ensures Shift(v) < 0x1_0000_0000
  {
    XorBound32(v / 2, POLYNOMIAL);
  }

  lemma {:induction false} ShiftsBound(n: nat, v: U32)
    ensures Shifts(n, v) < 0x1_0000_0000
  {
    if n > 0 {
      ShiftBound(v);
      ShiftsBound(n - 1, Shift(v));
    }
  }

  lemma {:induction false} ShiftsCompose(m: nat, n: nat, v: nat)
    ensures Shifts(m + n, v) == Shifts(n, Shifts(m, v))
  {
    if m > 0 { ShiftsCompose(m - 1, n, Shift(v)); }
  }

  /** Bits above the outgoing one only move down. */
  lemma ShiftSlides(a: nat, b: nat)
    ensures Shift(Xor(a, 2 * b)) == Xor(Shift(a), b)
  {
    XorBits(a, 2 * b);
    assert (2 * b) / 2 == b;
    XorSwaps(a / 2, b, POLYNOMIAL);
  }

  lemma {:induction false} ShiftsSlide(n: nat, a: nat, b: nat)
    ensures Shifts(n, Xor(a, Raised(b, n))) == Xor(Shifts(n, a), b)
  {
    hide Xor, Shift;
    if n > 0 {
      ShiftSlides(a, Raised(b, n - 1));
      ShiftsSlide(n - 1, Shift(a), b);
    }
  }

  /** The register step is injective: its top bit remembers the bit shifted out. */
  lemma ShiftInjective(a: U32, b: U32)
    requires Shift(a) == Shift(b)
    ensures a == b
  {
    Pow2Of32();
    XorHighBit(a / 2, POLYNOMIAL - Pow2(31), 31);
    XorHighBit(b / 2, POLYNOMIAL - Pow2(31), 31);
    assert a % 2 == b % 2;
    if a % 2 == 1 { XorCancels(a / 2, b / 2, POLYNOMIAL); }
  }

  lemma {:induction false} ShiftsInjective(n: nat, a: U32, b: U32)
    requires Shifts(n, a) == Shifts(n, b)
    ensures a == b
  {
    if n > 0 {
      ShiftBound(a);
      ShiftBound(b);
      ShiftsInjective(n - 1, Shift(a), Shift(b));
      ShiftInjective(a, b);
    }
  }

  // ---- The bit-serial definition ---------------------------------------

  /** The register after a message: the message, as one integer, divided bit by bit. */
  function Register(seed: U32, data: seq<Byte>): (r: U32)
  {
    RegisterFits(seed, data);
    Shifts(8 * |data|, Xor(seed, GetLE(data)))
  }

  lemma {:induction false} RegisterFits(seed: U32, data: seq<Byte>)
    ensures Shifts(8 * |data|, Xor(seed, GetLE(data))) < 0x1_0000_0000
    decreases |data|
  {
    if data == [] {
      XorZero(seed);
    } else {
      RegisterByte(seed, data);
      XorBound32(seed, data[0]);
      ShiftsBound(8, Xor(seed, data[0]));
      RegisterFits(Shifts(8, Xor(seed, data[0])), data[1..]);
    }
  }

  /** Dividing the whole message is dividing its bytes one after another. */
  lemma RegisterByte(seed: U32, data: seq<Byte>)
    requires data != []
    ensures Shifts(8 * |data|, Xor(seed, GetLE(data)))
         == Shifts(8 * |data[1..]|, Xor(Shifts(8, Xor(seed, data[0])), GetLE(data[1..])))
  {
    hide Xor, Shifts, Raised;
    Pow2Of8();
    RaisedIsProduct(GetLE(data[1..]), 8);
    DivideInParts(8, 8 * |data[1..]|, seed, data[0], GetLE(data[1..]));
  }

  lemma DivideInParts(k: nat, m: nat, seed: nat, low: nat, high: nat)
    requires low < Pow2(k)
    ensures Shifts(k + m, Xor(seed, low + Raised(high, k))) == Shifts(m, Xor(Shifts(k, Xor(seed, low)), high))
  {
    hide Xor, Shifts, Raised, Pow2;
    XorDisjoint(low, high, k);
    XorAssociates(seed, low, Raised(high, k));
    ShiftsSlide(k, Xor(seed, low), high);
    ShiftsCompose(k, m, Xor(seed, low + Raised(high, k)));
  }

  lemma Pow2Of8()
    ensures Pow2(8) == 256
  {
    assert Pow2(4) == 16;
  }

  lemma RegisterEmpty(seed: U32)
    ensures Register(seed, []) == seed
  {
    XorZero(seed);
  }

  /** A message can be divided in two pieces, the register carrying over. */
  lemma {:induction false} RegisterConcat(seed: U32, a: seq<Byte>, b: seq<Byte>)
    ensures Register(seed, a + b) == Register(Register(seed, a), b)
    decreases |a|
  {
    hide Xor, Shifts;
    if a == [] {
      assert a + b == b;
      RegisterEmpty(seed);
    } else {
      XorBound32(seed, a[0]);
      ShiftsBound(8, Xor(seed, a[0]));
      var next: U32 := Shifts(8, Xor(seed, a[0]));
      RegisterByte(seed, a);
      RegisterByte(seed, a + b);
      assert (a + b)[1..] == a[1..] + b;
      RegisterConcat(next, a[1..], b);
    }
  }

  // ---- Error detection -------------------------------------------------

  /** For a fixed message the register is injective in its seed. */
  lemma {:induction false} RegisterInjectiveInSeed(s: U32, t: U32, data: seq<Byte>)
    requires Register(s, data) == Register(t, data)
    ensures s == t
    decreases |data|
  {
    if data == [] {
      XorZero(s);
      XorZero(t);
    } else {
      RegisterByte(s, data);
      RegisterByte(t, data);
      XorBound32(s, data[0]);
      XorBound32(t, data[0]);
      ShiftsBound(8, Xor(s, data[0]));
      ShiftsBound(8, Xor(t, data[0]));
      RegisterInjectiveInSeed(Shifts(8, Xor(s, data[0])), Shifts(8, Xor(t, data[0])), data[1..]);
      ShiftsInjective(8, Xor(s, data[0]), Xor(t, data[0]));
      XorCancels(s, t, data[0]);
    }
  }

  /** For a fixed seed the register is injective in any message of up to four bytes. */
  lemma RegisterInjectiveInWord(seed: U32, a: seq<Byte>, b: seq<Byte>)
    requires |a| == |b| <= 4 && Register(seed, a) == Register(seed, b)
    ensures a == b
  {
    ShortWord(a);
    ShortWord(b);
    XorBound32(seed, GetLE(a));
    XorBound32(seed, GetLE(b));
    ShiftsInjective(8 * |a|, Xor(seed, GetLE(a)), Xor(seed, GetLE(b)));
    XorCommutes(seed, GetLE(a));
    XorCommutes(seed, GetLE(b));
    XorCancels(GetLE(a), GetLE(b), seed);
    GetLEInjective(a, b);
  }

  lemma ShortWord(a: seq<Byte>)
    requires |a| <= 4
    ensures GetLE(a) < 0x1_0000_0000
  {
    Widths();
    assert Pow256(1) == 256 && Pow256(3) == 256 * Pow256(2);
  }

  /** `a` and `b` have one length and differ only inside `[lo, hi)`. */
  ghost predicate DifferWithin(a: seq<Byte>, b: seq<Byte>, lo: nat, hi: nat)
  {
    |a| == |b| && lo <= hi <= |a| && a[..lo] == b[..lo] && a[hi..] == b[hi..]
  }

  /** Any change confined to four consecutive bytes changes the register. */
  lemma BurstChangesRegister(seed: U32, a: seq<Byte>, b: seq<Byte>, lo: nat, hi: nat)
    requires DifferWithin(a, b, lo, hi) && hi - lo <= 4 && a != b
    ensures Register(seed, a) != Register(seed, b)
  {
    assert a == a[..lo] + a[lo..hi] + a[hi..] && b == a[..lo] + b[lo..hi] + a[hi..];
    RegisterConcat(seed, a[..lo] + a[lo..hi], a[hi..]);
    RegisterConcat(seed, a[..lo] + b[lo..hi], a[hi..]);
    RegisterConcat(seed, a[..lo], a[lo..hi]);
    RegisterConcat(seed, a[..lo], b[lo..hi]);
    if Register(seed, a) == Register(seed, b) {
      RegisterInjectiveInSeed(Register(seed, a[..lo] + a[lo..hi]), Register(seed, a[..lo] + b[lo..hi]), a[hi..]);
      RegisterInjectiveInWord(Register(seed, a[..lo]), a[lo..hi], b[lo..hi]);
    }
  }

  /** The published checksum: all-ones seed, complemented register. */
  function Crc32(data: seq<Byte>): (r: U32)
  {
    XorBound32(Register(ALL_ONES, data), ALL_ONES);
    Xor(Register(ALL_ONES, data), ALL_ONES)
  }

  lemma Crc32Determines(a: seq<Byte>, b: seq<Byte>)
    ensures Crc32(a) == Crc32(b) <==> Register(ALL_ONES, a) == Register(ALL_ONES, b)
  {
    if Crc32(a) == Crc32(b) { XorCancels(Register(ALL_ONES, a), Register(ALL_ONES, b), ALL_ONES); }
  }

  /** A checksum appended to its data always leaves one and the same register, and only a
      correct checksum does. */
  lemma ResidueIff(data: seq<Byte>, stored: seq<Byte>)
    requires |stored| == 4
    ensures GetLE(stored) == Crc32(data) <==> Register(ALL_ONES, data + stored) == Residue()
  {
    RegisterConcat(ALL_ONES, data, stored);
    ShortWord(stored);
    SameRegister(8 * |stored|, Register(ALL_ONES, data), GetLE(stored), ALL_ONES);
  }

  lemma SameRegister(n: nat, r: U32, word: U32, ones: U32)
    ensures word == Xor(r, ones) <==> Shifts(n, Xor(r, word)) == Shifts(n, ones)
  {
    XorBound32(r, word);
    if Shifts(n, Xor(r, word)) == Shifts(n, ones) {
      ShiftsInjective(n, Xor(r, word), ones);
    }
    XorAssociates(r, r, word);
    XorAssociates(r, r, ones);
    XorSelf(r);
  }

  function Residue(): (r: U32)
  {
    ShiftsBound(32, ALL_ONES);
    Shifts(32, ALL_ONES)
  }

  // ---- The table method ------------------------------------------------

  /** What one table lookup buys: eight bit steps act on the low byte alone. */
  lemma TableStep(table: seq<U32>, value: U32, byte: Byte)
    requires IsCrcTable(table)
    ensures Xor(table[Xor(value, byte) % 256], value / 256) == Shifts(8, Xor(value, byte))
  {
    hide Xor, Shifts, Raised;
    Pow2Of8();
    var x := Xor(value, byte);
    RaisedIsProduct(x / 256, 8);
    XorDisjoint(x % 256, x / 256, 8);
    ShiftsSlide(8, x % 256, x / 256);
    XorDropsLow(value, byte, 8);
  }

  lemma {:induction false} XorDropsLow(a: nat, b: nat, k: nat)
    requires b < Pow2(k)
    ensures Xor(a, b) / Pow2(k) == a / Pow2(k)
  {
    if k == 0 {
      XorZero(a);
    } else {
      XorBits(a, b);
      XorDropsLow(a / 2, b / 2, k - 1);
      DivTwice(a, Pow2(k - 1));
      DivTwice(Xor(a, b), Pow2(k - 1));
    }
  }

  lemma DivTwice(a: nat, p: nat)
    requires p >= 1
    ensures a / (2 * p) == (a / 2) / p
  {
    var q, r := (a / 2) / p, (a / 2) % p;
    assert a == q * (2 * p) + (2 * r + a % 2) by {
      assert a / 2 == q * p + r;
      assert 2 * (q * p) == q * (2 * p);
    }
    ModUnique(a, 2 * p, q, 2 * r + a % 2);
    assert (a / (2 * p)) * (2 * p) == q * (2 * p);
    EqualFactors(a / (2 * p), q, 2 * p);
  }

  lemma EqualFactors(x: nat, y: nat, m: nat)
    requires m >= 1 && x * m == y * m
    ensures x == y
  {
    assert (x - y) * m == 0;
  }

  function TableEntry(i: nat): (r: nat)
  {
    Shifts(8, i)
  }

  ghost predicate IsCrcTable(table: seq<U32>)
  {
    |table| == 256 && forall i :: 0 <= i < 256 ==> table[i] == TableEntry(i)
  }

  method MakeCrcTable() returns (table: array<U32>)
    ensures fresh(table) && IsCrcTable(table[..])
  {
    table := new U32[256];
    for i := 0 to 256
      invariant forall k :: 0 <= k < i ==> table[k] == TableEntry(k)
    {
      var value: U32 := i;
      for bit := 0 to 8
        invariant Shifts(8 - bit, value) == TableEntry(i)
        invariant forall k :: 0 <= k < i ==> table[k] == TableEntry(k)
      {
        ShiftBound(value);
        value := if value % 2 == 1 then Xor(value / 2, POLYNOMIAL) else value / 2;
      }
      assert Shifts(0, value) == value;
      table[i] := value;
    }
  }

  method Crc32Extend(seed: U32, data: seq<Byte>) returns (value: U32)
    ensures value == Register(seed, data)
  {
    var table := MakeCrcTable();
    value := seed;
    XorZero(seed);
    for i := 0 to |data|
      invariant IsCrcTable(table[..])
      invariant value == Register(seed, data[..i])
    {
      TableStep(table[..], value, data[i]);
      ShiftsBound(8, Xor(value, data[i])) by { XorBound32(value, data[i]); }
      RegisterSnoc(seed, data[..i], data[i]);
      assert data[..i + 1] == data[..i] + [data[i]];
      value := Xor(table[Xor(value, data[i]) % 256], value / 256);
    }
    assert data[..|data|] == data;
  }

  lemma RegisterSnoc(seed: U32, data: seq<Byte>, byte: Byte)
    ensures Register(seed, data + [byte]) == Shifts(8, Xor(Register(seed, data), byte))
  {
    RegisterConcat(seed, data, [byte]);
    assert GetLE([byte]) == byte;
  }

  method ComputeCrc32(data: seq<Byte>) returns (r: U32)
    ensures r == Crc32(data)
  {
    var value := Crc32Extend(ALL_ONES, data);
    XorBound32(value, ALL_ONES);
    r := Xor(value, ALL_ONES);
  }
}
