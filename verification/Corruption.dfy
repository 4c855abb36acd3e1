/** Which small changes of a state file go unnoticed (src/persistence.cpp:897-1045). */
module Corruption {
  import opened Machine
  import opened Crc
  import opened Syndrome
  import opened Framing
  import opened StateFile
  import opened Sections

  // ---- Differences of little-endian words ------------------------------

  lemma XorHalves(m: nat, n: nat, i: nat, j: nat, p: bool, q: bool)
    requires m == One(p) + 2 * i && n == One(q) + 2 * j
    ensures Xor(m, n) == One(p != q) + 2 * Xor(i, j)
  {
    XorJoin(p, q, i, j);
  }

  lemma XorBit(x: nat, y: nat, u: nat, v: nat, w: nat)
    requires Xor(x / 2 + u, y / 2 + v) == Xor(x / 2, y / 2) + w
    ensures Xor(x + 2 * u, y + 2 * v) == Xor(x, y) + 2 * w
  {
    hide Xor;
    XorHalves(x + 2 * u, y + 2 * v, x / 2 + u, y / 2 + v, x % 2 == 1, y % 2 == 1);
    XorHalves(x, y, x / 2, y / 2, x % 2 == 1, y % 2 == 1);
  }

  /** Exclusive or works on the low byte and on the rest separately. */
  lemma XorByte(x: Byte, y: Byte, a: nat, b: nat)
    ensures Xor(x + 256 * a, y + 256 * b) == Xor(x, y) + 256 * Xor(a, b) && Xor(x, y) < 256
  {
    hide Xor;
    var c := Xor(a, b);
    XorZero(0);
    var x1, y1 := x / 2, y / 2;
    var x2, y2 := x1 / 2, y1 / 2;
    var x3, y3 := x2 / 2, y2 / 2;
    var x4, y4 := x3 / 2, y3 / 2;
    var x5, y5 := x4 / 2, y4 / 2;
    var x6, y6 := x5 / 2, y5 / 2;
    var x7, y7 := x6 / 2, y6 / 2;
    var x8, y8 := x7 / 2, y7 / 2;
    assert x8 == 0 && y8 == 0;
    XorBit(x7, y7, a, b, c);
    XorBit(x6, y6, 2 * a, 2 * b, 2 * c);
    XorBit(x5, y5, 4 * a, 4 * b, 4 * c);
    XorBit(x4, y4, 8 * a, 8 * b, 8 * c);
    XorBit(x3, y3, 16 * a, 16 * b, 16 * c);
    XorBit(x2, y2, 32 * a, 32 * b, 32 * c);
    XorBit(x1, y1, 64 * a, 64 * b, 64 * c);
    XorBit(x, y, 128 * a, 128 * b, 128 * c);
    Pow2Of8();
    XorBound(x, y, 8);
  }

  lemma XorEqual(m: nat, n: nat)
    ensures Xor(m, n) == 0 <==> m == n
  {
    XorSelf(n);
    if Xor(m, n) == 0 { XorCancels(m, n, n); }
  }

  /** The difference of two byte strings as integers, byte by byte. */
  ghost function Delta(x: seq<Byte>, y: seq<Byte>): (d: nat)
    requires |x| == |y|
  {
    Xor(GetLE(x), GetLE(y))
  }

  lemma DeltaHead(x: seq<Byte>, y: seq<Byte>)
    requires |x| == |y| > 0
    ensures Delta(x, y) == Xor(x[0], y[0]) + 256 * Delta(x[1..], y[1..]) && Xor(x[0], y[0]) < 256
  {
    hide Xor;
    XorByte(x[0], y[0], GetLE(x[1..]), GetLE(y[1..]));
  }

  lemma DeltaSame(x: seq<Byte>, y: seq<Byte>)
    requires |x| == |y|
    ensures Delta(x, y) == 0 <==> x == y
  {
    hide Xor, GetLE;
    XorEqual(GetLE(x), GetLE(y));
    if GetLE(x) == GetLE(y) { GetLEInjective(x, y); }
  }

  /** Strings that agree from byte `j` on differ by less than `256^j`. */
  lemma DeltaOne(x: seq<Byte>, y: seq<Byte>)
    requires |x| == |y| > 0 && x[1..] == y[1..]
    ensures Delta(x, y) == Xor(x[0], y[0]) < 0x100
  {
    hide Xor, GetLE;
    DeltaHead(x, y);
    DeltaSame(x[1..], y[1..]);
  }

  lemma DeltaTwo(x: seq<Byte>, y: seq<Byte>)
    requires |x| == |y| >= 2 && x[2..] == y[2..]
    ensures Delta(x, y) < 0x1_0000
  {
    hide Delta, Xor;
    DeltaHead(x, y);
    assert x[1..][1..] == x[2..] && y[1..][1..] == y[2..];
    DeltaOne(x[1..], y[1..]);
  }

  lemma DeltaThree(x: seq<Byte>, y: seq<Byte>)
    requires |x| == |y| >= 3 && x[3..] == y[3..]
    ensures Delta(x, y) < 0x100_0000
  {
    hide Delta, Xor;
    DeltaHead(x, y);
    assert x[1..][2..] == x[3..] && y[1..][2..] == y[3..];
    DeltaTwo(x[1..], y[1..]);
  }

  /** Four-byte words, byte by byte. */
  lemma DeltaWord(x: seq<Byte>, y: seq<Byte>)
    requires |x| == |y| == 4
    ensures Delta(x, y) == Xor(x[0], y[0]) + 0x100 * Xor(x[1], y[1]) + 0x1_0000 * Xor(x[2], y[2]) + 0x100_0000 * Xor(x[3], y[3])
    ensures Xor(x[0], y[0]) < 256 && Xor(x[1], y[1]) < 256 && Xor(x[2], y[2]) < 256 && Xor(x[3], y[3]) < 256
  {
    hide Delta, Xor;
    var x1, y1 := x[1..], y[1..];
    var x2, y2 := x1[1..], y1[1..];
    var x3, y3 := x2[1..], y2[1..];
    DeltaHead(x, y);
    DeltaHead(x1, y1);
    DeltaHead(x2, y2);
    DeltaHead(x3, y3);
    DeltaSame(x3[1..], y3[1..]);
  }

  // ---- What the header checksum cannot tell apart ----------------------

  ghost predicate Sealed(data: seq<Byte>)
    requires |data| >= STATE_HEADER
  {
    StateCrc(data[..48], data[52..64]) == U32At(data, 48)
  }

  lemma RegisterDelta(seed: U32, x: seq<Byte>, y: seq<Byte>)
    requires |x| == |y| == 12
    ensures Xor(Register(seed, x), Register(seed, y)) == Shifts(96, Delta(x, y))
  {
    hide Xor, Shifts, GetLE;
    var g, h := GetLE(x), GetLE(y);
    ShiftsLinear(96, Xor(seed, g), Xor(seed, h));
    XorCommutes(seed, g);
    XorCommutes(seed, h);
    XorAssociates(g, seed, Xor(seed, h));
    XorAssociates(seed, seed, h);
    XorSelf(seed);
    XorZero(h);
    XorCommutes(h, seed);
  }

  lemma CrcDelta(front: seq<Byte>, x: seq<Byte>, y: seq<Byte>)
    requires |x| == |y| == 12
    ensures Xor(Crc32(front + x), Crc32(front + y)) == Shifts(96, Delta(x, y))
  {
    hide Xor, Shifts, Register, Delta;
    var seed := Register(ALL_ONES, front);
    var r, s := Register(seed, x), Register(seed, y);
    RegisterConcat(ALL_ONES, front, x);
    RegisterConcat(ALL_ONES, front, y);
    RegisterDelta(seed, x, y);
    XorCommutes(s, ALL_ONES);
    XorAssociates(r, ALL_ONES, Xor(ALL_ONES, s));
    XorAssociates(ALL_ONES, ALL_ONES, s);
    XorSelf(ALL_ONES);
    XorZero(s);
  }

  /** Two headers with the same fields are both sealed if and only if the change of the stored checksum
      is the image of the change of the reserved bytes. */
  lemma SealedIff(a: seq<Byte>, b: seq<Byte>)
    requires |a| >= STATE_HEADER && |b| >= STATE_HEADER && a[..48] == b[..48] && Sealed(a)
    ensures Sealed(b) <==> Delta(a[48..52], b[48..52]) == Shifts(96, Delta(a[52..64], b[52..64]))
  {
    hide Xor, Shifts, Crc32, GetLE, Pow256;
    var front := a[..48] + NO_CRC;
    var p, q := U32At(a, 48), U32At(b, 48);
    var r := Crc32(front + b[52..64]);
    CrcDelta(front, a[52..64], b[52..64]);
    assert p == Crc32(front + a[52..64]);
    if Xor(p, q) == Xor(p, r) {
      XorCommutes(p, q);
      XorCommutes(p, r);
      XorCancels(q, r, p);
    }
  }

  /** The changes of bytes 49 to 52 that cancel out, as exclusive ors. */
  ghost predicate Cancels(e1: nat, e2: nat, e3: nat, d: nat)
  {
    || (e1 == 0x65 && e2 == 0xFD && e3 == 0x47 && d == 0x43)
    || (e1 == 0xCA && e2 == 0xFA && e3 == 0x8F && d == 0x86)
    || (e1 == 0xAF && e2 == 0x07 && e3 == 0xC8 && d == 0xC5)
  }

  /** `b` is `a` with bytes 49 to 52 changed in one of the three ways that cancel out. */
  ghost predicate Silent(a: seq<Byte>, b: seq<Byte>)
  {
    && DifferWithin(a, b, 49, 53)
    && Cancels(Xor(a[49], b[49]), Xor(a[50], b[50]), Xor(a[51], b[51]), Xor(a[52], b[52]))
  }

  lemma WordPattern(e: nat, x0: nat, x1: nat, x2: nat, x3: nat)
    requires e == x0 + 0x100 * x1 + 0x1_0000 * x2 + 0x100_0000 * x3
    requires x0 < 256 && x1 < 256 && x2 < 256 && x3 < 256
    ensures e % 0x100 == x0
    ensures e == 0x47FD_6500 <==> x0 == 0 && x1 == 0x65 && x2 == 0xFD && x3 == 0x47
    ensures e == 0x8FFA_CA00 <==> x0 == 0 && x1 == 0xCA && x2 == 0xFA && x3 == 0x8F
    ensures e == 0xC807_AF00 <==> x0 == 0 && x1 == 0xAF && x2 == 0x07 && x3 == 0xC8
  {}

  lemma SameByte(x: nat, y: nat)
    ensures Xor(x, y) == 0 <==> x == y
  {
    XorEqual(x, y);
  }

  /** What a burst across the end of the checksum field does to the two words. */
  lemma CrossingWords(a: seq<Byte>, b: seq<Byte>, lo: nat, hi: nat)
    requires DifferWithin(a, b, lo, hi) && hi - lo <= 4 && 48 < lo < 52 < hi && |a| >= STATE_HEADER
    ensures a[48..52][0] == b[48..52][0] && a[52..64][hi - 52..] == b[52..64][hi - 52..]
    ensures lo > 49 ==> a[48..52][1] == b[48..52][1]
    ensures lo > 50 ==> a[48..52][2] == b[48..52][2]
  {
    SlicedBurst(a, b, lo, hi, 48, lo);
    SlicedBurst(a, b, lo, hi, hi, 64);
    assert a[48..52][..lo - 48] == a[48..lo] && b[48..52][..lo - 48] == b[48..lo];
    assert a[52..64][hi - 52..] == a[hi..64] && b[52..64][hi - 52..] == b[hi..64];
    var x, y := a[48..52], b[48..52];
    assert x[0] == x[..lo - 48][0] && y[0] == y[..lo - 48][0];
    if lo > 49 { assert x[1] == x[..lo - 48][1] && y[1] == y[..lo - 48][1]; }
    if lo > 50 { assert x[2] == x[..lo - 48][2] && y[2] == y[..lo - 48][2]; }
  }

  lemma CrossingDelta(a: seq<Byte>, b: seq<Byte>, lo: nat, hi: nat)
    requires DifferWithin(a, b, lo, hi) && hi - lo <= 4 && 48 < lo < 52 < hi && |a| >= STATE_HEADER
    requires Delta(a[48..52], b[48..52]) == Shifts(96, Delta(a[52..64], b[52..64]))
    ensures Delta(a[52..64], b[52..64]) == 0 || (lo == 49 && Delta(a[52..64], b[52..64]) in {0x43, 0x86, 0xC5})
  {
    hide Shifts, Delta, Xor;
    CrossingWords(a, b, lo, hi);
    var u, v := a[52..64], b[52..64];
    LowBytes(a[48..52], b[48..52]);
    if lo == 49 {
      DeltaOne(u, v);
      OneByte(Delta(u, v));
    } else if lo == 50 {
      assert u[2..] == u[hi - 52..][54 - hi..] && v[2..] == v[hi - 52..][54 - hi..];
      DeltaTwo(u, v);
      TwoBytes(Delta(u, v));
    } else {
      assert u[3..] == u[hi - 52..][55 - hi..] && v[3..] == v[hi - 52..][55 - hi..];
      DeltaThree(u, v);
      ThreeBytes(Delta(u, v));
    }
  }

  /** Words that agree on their low bytes differ by a multiple of the next one's weight. */
  lemma LowBytes(x: seq<Byte>, y: seq<Byte>)
    requires |x| == |y| == 4 && x[0] == y[0]
    ensures Delta(x, y) % 0x100 == 0
    ensures x[1] == y[1] ==> Delta(x, y) % 0x1_0000 == 0
    ensures x[1] == y[1] && x[2] == y[2] ==> Delta(x, y) % 0x100_0000 == 0
  {
    hide Delta, Xor;
    DeltaWord(x, y);
    SameByte(x[0], y[0]);
    SameByte(x[1], y[1]);
    SameByte(x[2], y[2]);
  }

  lemma NothingChanged(a: seq<Byte>, b: seq<Byte>, lo: nat, hi: nat)
    requires DifferWithin(a, b, lo, hi) && 48 <= lo && hi <= 64 <= |a|
    requires a[48..52] == b[48..52] && a[52..64] == b[52..64]
    ensures a == b
  {
    SlicedBurst(a, b, lo, hi, 0, 48);
    SlicedBurst(a, b, lo, hi, 64, |a|);
    assert a == a[0..48] + a[48..52] + a[52..64] + a[64..|a|];
    assert b == b[0..48] + b[48..52] + b[52..64] + b[64..|b|];
  }

  /** Of all bursts across the end of the checksum field, two sealed headers leave only three. */
  lemma CrossingIsSilent(a: seq<Byte>, b: seq<Byte>, lo: nat, hi: nat)
    requires DifferWithin(a, b, lo, hi) && hi - lo <= 4 && 48 < lo < 52 < hi && |a| >= STATE_HEADER
    requires Sealed(a) && Sealed(b)
    ensures a == b || Silent(a, b)
  {
    hide Shifts, Delta, Xor, Sealed;
    SlicedBurst(a, b, lo, hi, 0, 48);
    assert a[0..48] == a[..48] && b[0..48] == b[..48];
    SealedIff(a, b);
    CrossingDelta(a, b, lo, hi);
    var x, y, u, v := a[48..52], b[48..52], a[52..64], b[52..64];
    if Delta(u, v) == 0 {
      ZeroStays(96);
      DeltaSame(u, v);
      DeltaSame(x, y);
      NothingChanged(a, b, lo, hi);
    } else {
      CrossingWords(a, b, lo, hi);
      DeltaOne(u, v);
      Patterns();
      DeltaWord(x, y);
      WordPattern(Delta(x, y), Xor(x[0], y[0]), Xor(x[1], y[1]), Xor(x[2], y[2]), Xor(x[3], y[3]));
    }
  }

  lemma SilentIsSealed(a: seq<Byte>, b: seq<Byte>)
    requires Silent(a, b) && |a| >= STATE_HEADER && Sealed(a)
    ensures Sealed(b)
  {
    hide Shifts, Delta, Xor, Sealed;
    SlicedBurst(a, b, 49, 53, 0, 48);
    assert a[0..48] == a[..48] && b[0..48] == b[..48];
    CrossingWords(a, b, 49, 53);
    var x, y, u, v := a[48..52], b[48..52], a[52..64], b[52..64];
    DeltaOne(u, v);
    DeltaWord(x, y);
    SameByte(x[0], y[0]);
    WordPattern(Delta(x, y), Xor(x[0], y[0]), Xor(x[1], y[1]), Xor(x[2], y[2]), Xor(x[3], y[3]));
    Patterns();
    SealedIff(a, b);
  }

  /** A silent change is accepted, and nothing that is read from the file changes. */
  lemma SilentIsAccepted(a: seq<Byte>, b: seq<Byte>, max: nat)
    requires ParseState(a, max).Ok? && Silent(a, b)
    ensures ParseState(b, max) == ParseState(a, max)
  {
    hide Crc32, GetLE, Pow256, Xor;
    SilentIsSealed(a, b);
    SlicedBurst(a, b, 49, 53, 0, 8);
    SlicedBurst(a, b, 49, 53, 8, 12);
    SlicedBurst(a, b, 49, 53, 12, 16);
    SlicedBurst(a, b, 49, 53, 16, 24);
    SlicedBurst(a, b, 49, 53, 24, 32);
    SlicedBurst(a, b, 49, 53, 32, 40);
    SlicedBurst(a, b, 49, 53, 40, 48);
    assert a[0..8] == a[..8] && b[0..8] == b[..8];
    var end := STATE_HEADER + U64At(a, 16);
    SlicedBurst(a, b, 49, 53, STATE_HEADER, end);
    SlicedBurst(a, b, 49, 53, end, end + 8);
    SlicedBurst(a, b, 49, 53, end + 8, end + 12);
  }

  function Flipped(data: seq<Byte>, at: nat, mask: Byte): (r: seq<Byte>)
    requires at < |data|
  {
    Pow2Of8();
    XorBound(data[at], mask, 8);
    data[at := Xor(data[at], mask)]
  }

  lemma FlipBack(x: nat, mask: nat)
    ensures Xor(x, Xor(x, mask)) == mask
  {
    XorAssociates(x, x, mask);
    XorSelf(x);
    XorZero(mask);
  }

  /** Every accepted file has a different one, four bytes away, that is accepted as the same. */
  lemma SilentChangeExists(a: seq<Byte>, max: nat) returns (b: seq<Byte>)
    requires ParseState(a, max).Ok?
    ensures Silent(a, b) && a != b && ParseState(b, max) == ParseState(a, max)
  {
    hide ParseState, Xor;
    LongEnough(a, max);
    b := Flipped(Flipped(Flipped(Flipped(a, 49, 0x65), 50, 0xFD), 51, 0x47), 52, 0x43);
    FlipBack(a[49], 0x65);
    FlipBack(a[50], 0xFD);
    FlipBack(a[51], 0x47);
    FlipBack(a[52], 0x43);
    assert a[..49] == b[..49] && a[53..] == b[53..];
    SameByte(a[49], b[49]);
    SilentIsAccepted(a, b, max);
  }

  // ---- Loading the whole file ------------------------------------------

  /** A burst across the start of the checksum field leaves the payload alone, so what it may change in
      the record count shows. */
  lemma CrossingFields(a: seq<Byte>, b: seq<Byte>, lo: nat, hi: nat, max: nat)
    requires ParseState(a, max).Ok? && ParseState(b, max).Ok?
    requires DifferWithin(a, b, lo, hi) && hi - lo <= 4 && lo < 48 < hi
    ensures ParseState(a, max).value.payload == ParseState(b, max).value.payload
    ensures U64At(a, 40) == U64At(b, 40) ==> a == b
  {
    hide Crc32, GetLE, Pow256, PutLE;
    SlicedBurst(a, b, lo, hi, 0, 40);
    SlicedBurst(a, b, lo, hi, 16, 24);
    SlicedBurst(a, b, lo, hi, 52, 64);
    SlicedBurst(a, b, lo, hi, STATE_HEADER, |a|);
    var n := U64At(a, 16);
    assert a[64..64 + n] == a[64..|a|][..n] && b[64..64 + n] == b[64..|b|][..n];
    if U64At(a, 40) == U64At(b, 40) {
      GetLEInjective(a[40..48], b[40..48]);
      assert a[..48] == a[0..40] + a[40..48] && b[..48] == b[0..40] + b[40..48];
      GetLEInjective(a[48..52], b[48..52]);
      assert a == a[..48] + a[48..52] + a[52..64] + a[64..|a|];
      assert b == b[..48] + b[48..52] + b[52..64] + b[64..|b|];
    }
  }

  lemma AcceptedIsSealed(a: seq<Byte>, max: nat)
    requires ParseState(a, max).Ok?
    ensures |a| >= STATE_HEADER + STATE_TRAILER && Sealed(a) && ParseState(a, max).value.records == U64At(a, 40)
  {
    hide Crc32, GetLE, Pow256;
  }

  lemma LoadedAgain(a: seq<Byte>, b: seq<Byte>, lo: nat, hi: nat, max: nat, stage: Stage, finish: seq<Section> -> Option<ErrorCode>)
    requires LoadFile(a, max, stage, finish).Ok? && LoadFile(b, max, stage, finish).Ok?
    requires DifferWithin(a, b, lo, hi) && hi - lo <= 4
    ensures |a| >= 4 && (a[..|a| - 4] == b[..|b| - 4] || Silent(a, b))
  {
    hide ParseState, ParseSections, Sealed, Silent;
    AcceptedIsSealed(a, max);
    AcceptedIsSealed(b, max);
    if OnOneSide(lo, hi) {
      SameAccepted(a, b, lo, hi, max);
    } else if lo < 48 {
      CrossingFields(a, b, lo, hi, max);
    } else {
      CrossingIsSilent(a, b, lo, hi);
    }
  }

  /** A change within four consecutive bytes, not confined to the last four of the file, is loaded if and
      only if it is one of the three silent ones, and then nothing that is loaded changes. */
  lemma BurstLoadsIff(a: seq<Byte>, b: seq<Byte>, lo: nat, hi: nat, max: nat, stage: Stage,
                      finish: seq<Section> -> Option<ErrorCode>)
    requires LoadFile(a, max, stage, finish).Ok? && DifferWithin(a, b, lo, hi) && hi - lo <= 4
    requires |a| >= 4 && a[..|a| - 4] != b[..|b| - 4]
    ensures LoadFile(b, max, stage, finish).Ok? <==> Silent(a, b)
    ensures Silent(a, b) ==> LoadFile(b, max, stage, finish) == LoadFile(a, max, stage, finish)
  {
    hide ParseState, ParseSections, Silent;
    if Silent(a, b) {
      SilentIsAccepted(a, b, max);
    } else if LoadFile(b, max, stage, finish).Ok? {
      LoadedAgain(a, b, lo, hi, max, stage, finish);
    }
  }
}
