/**
 Which changes of a few bytes in front of twelve summed bytes does the CRC-32
 register confuse with a change of the stored checksum? The register step is
 linear, so this is linear algebra over bits; it is carried out on 32-bit vectors
 and carried over to the integers of the register.
 */
module Syndrome {
  import opened Crc

  // ---- Bit vectors as integers -----------------------------------------

  function Half(v: bv32): (r: bv32)
  {
    v >> 1
  }

  predicate Low(v: bv32)
  {
    v & 1 == 1
  }

  function Sum(a: bv32, b: bv32): (r: bv32)
  {
    a ^ b
  }

  function One(b: bool): (n: nat)
  {
    if b then 1 else 0
  }

  lemma HalfLess(v: bv32)
    requires v != 0
    ensures Half(v) < v
  {}

  lemma HalfZero()
    ensures Half(0) == 0 && !Low(0)
  {}

  lemma SumParts(a: bv32, b: bv32)
    ensures Half(Sum(a, b)) == Sum(Half(a), Half(b)) && Low(Sum(a, b)) == (Low(a) != Low(b))
  {}

  lemma SumZero(a: bv32)
    ensures Sum(a, 0) == a && Sum(0, a) == a
  {}

  function Val(v: bv32): (n: nat)
    decreases v
  {
    if v == 0 then 0 else
    HalfLess(v);
    One(Low(v)) + 2 * Val(Half(v))
  }

  lemma ValParts(v: bv32)
    ensures Val(v) == One(Low(v)) + 2 * Val(Half(v))
  {
    hide Half, Low;
    HalfZero();
  }

  lemma ValZero()
    ensures Val(0) == 0
  {}

  lemma XorJoin(p: bool, q: bool, m: nat, n: nat)
    ensures Xor(One(p) + 2 * m, One(q) + 2 * n) == One(p != q) + 2 * Xor(m, n)
  {
    var a, b := One(p) + 2 * m, One(q) + 2 * n;
    assert a / 2 == m && b / 2 == n && (a % 2 != b % 2 <==> p != q);
    hide Xor;
    XorBits(a, b);
  }

  /** Exclusive or of vectors is exclusive or of their values. */
  lemma {:induction false} ValSum(a: bv32, b: bv32)
    ensures Val(Sum(a, b)) == Xor(Val(a), Val(b))
    decreases a, b
  {
    hide Half, Low, Sum, Val, Xor;
    SumZero(a);
    SumZero(b);
    ValZero();
    XorZero(Val(a));
    XorZero(Val(b));
    if a != 0 && b != 0 {
      HalfLess(a);
      HalfLess(b);
      ValSum(Half(a), Half(b));
      SumParts(a, b);
      ValParts(a);
      ValParts(b);
      XorJoin(Low(a), Low(b), Val(Half(a)), Val(Half(b)));
      ValParts(Sum(a, b));
    }
  }

  lemma {:induction false} ValPositive(v: bv32)
    requires Val(v) == 0
    ensures v == 0
    decreases v
  {
    hide Half, Low, Val;
    if v != 0 {
      HalfLess(v);
      ValParts(v);
      ValPositive(Half(v));
      NoParts(v);
    }
  }

  lemma NoParts(v: bv32)
    requires Half(v) == 0 && !Low(v)
    ensures v == 0
  {}

  function Up(v: bv32, b: bool): (r: bv32)
  {
    (v << 1) | (if b then 1 else 0)
  }

  lemma UpVal(v: bv32, b: bool)
    requires v < 0x8000_0000
    ensures Val(Up(v, b)) == 2 * Val(v) + One(b)
  {
    hide Val;
    ValParts(Up(v, b));
    UpParts(v, b);
  }

  lemma UpParts(v: bv32, b: bool)
    requires v < 0x8000_0000
    ensures Half(Up(v, b)) == v && Low(Up(v, b)) == b
  {}

  /** Appending a hexadecimal digit. */
  lemma UpDigit(v: bv32, h: bool, g: bool, f: bool, e: bool)
    requires v < 0x1000_0000
    ensures Val(Up(Up(Up(Up(v, h), g), f), e)) == 16 * Val(v) + 8 * One(h) + 4 * One(g) + 2 * One(f) + One(e)
  {
    UpVal(v, h);
    UpVal(Up(v, h), g);
    UpVal(Up(Up(v, h), g), f);
    UpVal(Up(Up(Up(v, h), g), f), e);
  }

  /** The low digit of a value is the low digit of the vector. */
  lemma ValDigit(v: bv32)
    ensures Val(v >> 4) == Val(v) / 16
    ensures Val(v) % 16 == 0 ==> v & 0xF == 0
  {
    hide Val;
    ValParts(v);
    ValParts(Half(v));
    ValParts(Half(Half(v)));
    ValParts(Half(Half(Half(v))));
    Digit(v);
  }

  lemma Digit(v: bv32)
    ensures Half(Half(Half(Half(v)))) == v >> 4
    ensures !Low(v) && !Low(Half(v)) && !Low(Half(Half(v))) && !Low(Half(Half(Half(v)))) ==> v & 0xF == 0
  {}

  lemma ValByte(v: bv32)
    ensures Val(v >> 8) == Val(v) / 256
    ensures Val(v) % 256 == 0 ==> v & 0xFF == 0
  {
    hide Val;
    ValDigit(v);
    ValDigit(v >> 4);
    TwoDigits(v);
  }

  lemma TwoDigits(v: bv32)
    ensures (v >> 4) >> 4 == v >> 8
    ensures v & 0xF == 0 && (v >> 4) & 0xF == 0 ==> v & 0xFF == 0
  {}

  // ---- The register step -----------------------------------------------

  const POLY: bv32 := 0xEDB8_8320

  lemma PolyVal()
    ensures Val(POLY) == POLYNOMIAL
  {
    hide Val;
    ValZero();
    UpDigit(0, true, true, true, false);
    UpDigit(0xE, true, true, false, true);
    UpDigit(0xED, true, false, true, true);
    UpDigit(0xEDB, true, false, false, false);
    UpDigit(0xEDB8, true, false, false, false);
    UpDigit(0xE_DB88, false, false, true, true);
    UpDigit(0xED_B883, false, false, true, false);
    UpDigit(0xEDB_8832, false, false, false, false);
  }

  function Step(v: bv32): (r: bv32)
  {
    if Low(v) then Sum(Half(v), POLY) else Half(v)
  }

  lemma StepVal(v: bv32)
    ensures Val(Step(v)) == Shift(Val(v))
  {
    hide Half, Low, Sum, Val, Xor;
    ValParts(v);
    ValSum(Half(v), POLY);
    PolyVal();
  }

  function Step8(v: bv32): (r: bv32)
  {
    Step(Step(Step(Step(Step(Step(Step(Step(v))))))))
  }

  function Step96(v: bv32): (r: bv32)
  {
    Step8(Step8(Step8(Step8(Step8(Step8(Step8(Step8(Step8(Step8(Step8(Step8(v))))))))))))
  }

  lemma OneStep(v: bv32, n: nat)
    ensures Shifts(n + 1, Val(v)) == Shifts(n, Val(Step(v)))
  {
    hide Val, Step, Shift;
    StepVal(v);
  }

  lemma EightSteps(v: bv32, n: nat)
    ensures Shifts(n + 8, Val(v)) == Shifts(n, Val(Step8(v)))
  {
    hide Val, Step, Shifts;
    OneStep(v, n + 7);
    OneStep(Step(v), n + 6);
    OneStep(Step(Step(v)), n + 5);
    OneStep(Step(Step(Step(v))), n + 4);
    OneStep(Step(Step(Step(Step(v)))), n + 3);
    OneStep(Step(Step(Step(Step(Step(v))))), n + 2);
    OneStep(Step(Step(Step(Step(Step(Step(v)))))), n + 1);
    OneStep(Step(Step(Step(Step(Step(Step(Step(v))))))), n);
  }

  /** Twelve more bytes take the register from `a` to `r`. */
  ghost predicate Maps(a: bv32, r: bv32)
  {
    Shifts(96, Val(a)) == Val(r)
  }

  lemma MapsAll(v: bv32)
    ensures Maps(v, Step96(v))
  {
    hide Val, Step8, Shifts;
    var v1 := Step8(v);
    var v2 := Step8(v1);
    var v3 := Step8(v2);
    var v4 := Step8(v3);
    var v5 := Step8(v4);
    var v6 := Step8(v5);
    var v7 := Step8(v6);
    var v8 := Step8(v7);
    var v9 := Step8(v8);
    var v10 := Step8(v9);
    var v11 := Step8(v10);
    EightSteps(v, 88);
    EightSteps(v1, 80);
    EightSteps(v2, 72);
    EightSteps(v3, 64);
    EightSteps(v4, 56);
    EightSteps(v5, 48);
    EightSteps(v6, 40);
    EightSteps(v7, 32);
    EightSteps(v8, 24);
    EightSteps(v9, 16);
    EightSteps(v10, 8);
    EightSteps(v11, 0);
    NoShifts(Val(Step8(v11)));
  }

  lemma NoShifts(n: nat)
    ensures Shifts(0, n) == n
  {}

  lemma ShiftLinear(a: nat, b: nat)
    ensures Shift(Xor(a, b)) == Xor(Shift(a), Shift(b))
  {
    hide Xor;
    var p, q := a / 2, b / 2;
    XorBits(a, b);
    XorSwaps(p, POLYNOMIAL, q);
    XorAssociates(p, q, POLYNOMIAL);
    XorAssociates(Xor(p, q), POLYNOMIAL, POLYNOMIAL);
    XorAssociates(Xor(p, POLYNOMIAL), q, POLYNOMIAL);
    XorSelf(POLYNOMIAL);
    XorZero(Xor(p, q));
  }

  /** Polynomial division is linear. */
  lemma {:induction false} ShiftsLinear(n: nat, a: nat, b: nat)
    ensures Shifts(n, Xor(a, b)) == Xor(Shifts(n, a), Shifts(n, b))
  {
    hide Xor, Shift;
    if n > 0 {
      ShiftLinear(a, b);
      ShiftsLinear(n - 1, Shift(a), Shift(b));
    }
  }

  lemma MapsSum(a: bv32, r: bv32, b: bv32, s: bv32)
    requires Maps(a, r) && Maps(b, s)
    ensures Maps(Sum(a, b), Sum(r, s))
  {
    hide Val, Shifts, Xor, Sum;
    ValSum(a, b);
    ValSum(r, s);
    ShiftsLinear(96, Val(a), Val(b));
  }

  lemma MapsStep(a: bv32, r: bv32)
    requires Maps(a, r)
    ensures Maps(Step(a), Step(r))
  {
    hide Val, Shifts, Step, Shift;
    OneStep(a, 96);
    ShiftsCompose(96, 1, Val(a));
    OneShift(Shifts(96, Val(a)));
    StepVal(r);
  }

  lemma OneShift(n: nat)
    ensures Shifts(1, n) == Shift(n)
  {}

  lemma MapsZero()
    ensures Maps(0, 0)
  {
    hide Val, Shifts;
    ValZero();
    ZeroStays(96);
  }

  lemma {:induction false} ZeroStays(n: nat)
    ensures Shifts(n, 0) == 0
  {
    if n > 0 { ZeroStays(n - 1); }
  }

  // ---- Combinations of rows --------------------------------------------

  function Pick(c: bv32, mask: bv32, v: bv32): (r: bv32)
  {
    if c & mask != 0 then v else 0
  }

  function Sum4(a: bv32, b: bv32, c: bv32, d: bv32): (r: bv32)
  {
    a ^ b ^ c ^ d
  }

  /** Where the low sixteen bits of `c` go: the sum of the images of its bits. */
  function Image(c: bv32): (r: bv32)
  {
    Sum4(Sum4(Pick(c, 0x0000_0001, 0x9BA5_4C6F), Pick(c, 0x0000_0002, 0xEC3B_9E9F), Pick(c, 0x0000_0004, 0x0306_3B7F), Pick(c, 0x0000_0008, 0x060C_76FE)),
         Sum4(Pick(c, 0x0000_0010, 0x0C18_EDFC), Pick(c, 0x0000_0020, 0x1831_DBF8), Pick(c, 0x0000_0040, 0x3063_B7F0), Pick(c, 0x0000_0080, 0x60C7_6FE0)),
         Sum4(Pick(c, 0x0000_0100, 0xC18E_DFC0), Pick(c, 0x0000_0200, 0x586C_B9C1), Pick(c, 0x0000_0400, 0xB0D9_7382), Pick(c, 0x0000_0800, 0xBAC3_E145)),
         Sum4(Pick(c, 0x0000_1000, 0xAEF6_C4CB), Pick(c, 0x0000_2000, 0x869C_8FD7), Pick(c, 0x0000_4000, 0xD648_19EF), Pick(c, 0x0000_8000, 0x77E1_359F)))
  }

  /** Where the high eight bits of `c` come from. */
  function Preimage(c: bv32): (r: bv32)
  {
    Sum(Sum4(Pick(c, 0x0100_0000, 0x40B3_A940), Pick(c, 0x0200_0000, 0x8167_5280), Pick(c, 0x0400_0000, 0xD9BF_A341), Pick(c, 0x0800_0000, 0x680E_40C3)),
        Sum4(Pick(c, 0x1000_0000, 0xD01C_8186), Pick(c, 0x2000_0000, 0x7B48_054D), Pick(c, 0x4000_0000, 0xF690_0A9A), Pick(c, 0x8000_0000, 0x3651_1375)))
  }

  lemma MapsPick(c: bv32, mask: bv32, a: bv32, r: bv32)
    requires Maps(a, r)
    ensures Maps(Pick(c, mask, a), Pick(c, mask, r))
  {
    hide Maps;
    MapsZero();
  }

  lemma MapsXors(a0: bv32, a1: bv32, a2: bv32, a3: bv32, r0: bv32, r1: bv32, r2: bv32, r3: bv32)
    requires Maps(a0, r0) && Maps(a1, r1) && Maps(a2, r2) && Maps(a3, r3)
    ensures Maps(a0 ^ a1 ^ a2 ^ a3, r0 ^ r1 ^ r2 ^ r3)
  {
    hide Maps;
    MapsSum(a0, r0, a1, r1);
    MapsSum(a0 ^ a1, r0 ^ r1, a2, r2);
    MapsSum(a0 ^ a1 ^ a2, r0 ^ r1 ^ r2, a3, r3);
  }

  lemma MapsSum4(a0: bv32, a1: bv32, a2: bv32, a3: bv32, r0: bv32, r1: bv32, r2: bv32, r3: bv32)
    requires Maps(a0, r0) && Maps(a1, r1) && Maps(a2, r2) && Maps(a3, r3)
    ensures Maps(Sum4(a0, a1, a2, a3), Sum4(r0, r1, r2, r3))
  {
    hide Maps;
    MapsXors(a0, a1, a2, a3, r0, r1, r2, r3);
  }

  lemma MapsPicks(c: bv32, m0: bv32, m1: bv32, m2: bv32, m3: bv32,
                  a0: bv32, a1: bv32, a2: bv32, a3: bv32, r0: bv32, r1: bv32, r2: bv32, r3: bv32)
    requires Maps(a0, r0) && Maps(a1, r1) && Maps(a2, r2) && Maps(a3, r3)
    ensures Maps(Sum4(Pick(c, m0, a0), Pick(c, m1, a1), Pick(c, m2, a2), Pick(c, m3, a3)),
                 Sum4(Pick(c, m0, r0), Pick(c, m1, r1), Pick(c, m2, r2), Pick(c, m3, r3)))
  {
    hide Maps, Pick, Sum4;
    MapsPick(c, m0, a0, r0);
    MapsPick(c, m1, a1, r1);
    MapsPick(c, m2, a2, r2);
    MapsPick(c, m3, a3, r3);
    MapsSum4(Pick(c, m0, a0), Pick(c, m1, a1), Pick(c, m2, a2), Pick(c, m3, a3),
             Pick(c, m0, r0), Pick(c, m1, r1), Pick(c, m2, r2), Pick(c, m3, r3));
  }

  lemma LastImage()
    ensures Step96(0x0000_8000) == 0x77E1_359F
  {
    LastImageBytes();
    hide Step8;
  }

  lemma LastImageBytes()
    ensures Step8(0x0000_8000) == 0x0000_0080
    ensures Step8(0x0000_0080) == 0xEDB8_8320
    ensures Step8(0xEDB8_8320) == 0x3B83_984B
    ensures Step8(0x3B83_984B) == 0xE135_1B80
    ensures Step8(0xE135_1B80) == 0xED59_B63B
    ensures Step8(0xED59_B63B) == 0xB1E6_B092
    ensures Step8(0xB1E6_B092) == 0x1EB0_14D8
    ensures Step8(0x1EB0_14D8) == 0x8816_EAF2
    ensures Step8(0x8816_EAF2) == 0x533B_85DA
    ensures Step8(0x533B_85DA) == 0x6655_004F
    ensures Step8(0x6655_004F) == 0xE605_0901
    ensures Step8(0xE605_0901) == 0x77E1_359F
  {}

  lemma LastPreimage()
    ensures Step96(0x3651_1375) == 0x8000_0000
  {
    LastPreimageBytes();
    hide Step8;
  }

  lemma LastPreimageBytes()
    ensures Step8(0x3651_1375) == 0x2059_D4A0
    ensures Step8(0x2059_D4A0) == 0xD6F6_FA3C
    ensures Step8(0xD6F6_FA3C) == 0x2FB9_8A7D
    ensures Step8(0x2FB9_8A7D) == 0x2E9B_B40B
    ensures Step8(0x2E9B_B40B) == 0x97FC_423C
    ensures Step8(0x97FC_423C) == 0x2FF8_80C5
    ensures Step8(0x2FF8_80C5) == 0xEB21_CEBF
    ensures Step8(0xEB21_CEBF) == 0x5B35_8FD3
    ensures Step8(0x5B35_8FD3) == 0x1F81_B6E1
    ensures Step8(0x1F81_B6E1) == 0xD712_5358
    ensures Step8(0xD712_5358) == 0x6567_CB95
    ensures Step8(0x6567_CB95) == 0x8000_0000
  {}

  lemma MapsFour(a: bv32, r: bv32, b: bv32, s: bv32, c: bv32, t: bv32, d: bv32, u: bv32)
    requires Maps(a, r) && b == Step(a) && s == Step(r) && c == Step(b) && t == Step(s) && d == Step(c) && u == Step(t)
    ensures Maps(b, s) && Maps(c, t) && Maps(d, u) && Maps(Step(d), Step(u))
  {
    hide Maps, Step;
    MapsStep(a, r);
    MapsStep(b, s);
    MapsStep(c, t);
    MapsStep(d, u);
  }

  lemma ImageRows12()
    ensures Maps(0x0000_8000, 0x77E1_359F)
    ensures Maps(0x0000_4000, 0xD648_19EF)
    ensures Maps(0x0000_2000, 0x869C_8FD7)
    ensures Maps(0x0000_1000, 0xAEF6_C4CB)
    ensures Maps(0x0000_0800, 0xBAC3_E145)
  {
    hide Maps, Step96;
    LastImage();
    MapsAll(0x8000);
    MapsFour(0x0000_8000, 0x77E1_359F, 0x0000_4000, 0xD648_19EF, 0x0000_2000, 0x869C_8FD7, 0x0000_1000, 0xAEF6_C4CB);
  }

  lemma ImageRows8()
    ensures Maps(0x0000_0800, 0xBAC3_E145)
    ensures Maps(0x0000_0400, 0xB0D9_7382)
    ensures Maps(0x0000_0200, 0x586C_B9C1)
    ensures Maps(0x0000_0100, 0xC18E_DFC0)
    ensures Maps(0x0000_0080, 0x60C7_6FE0)
  {
    hide Maps, Step96;
    ImageRows12();
    MapsFour(0x0000_0800, 0xBAC3_E145, 0x0000_0400, 0xB0D9_7382, 0x0000_0200, 0x586C_B9C1, 0x0000_0100, 0xC18E_DFC0);
  }

  lemma ImageRows4()
    ensures Maps(0x0000_0080, 0x60C7_6FE0)
    ensures Maps(0x0000_0040, 0x3063_B7F0)
    ensures Maps(0x0000_0020, 0x1831_DBF8)
    ensures Maps(0x0000_0010, 0x0C18_EDFC)
    ensures Maps(0x0000_0008, 0x060C_76FE)
  {
    hide Maps, Step96;
    ImageRows8();
    MapsFour(0x0000_0080, 0x60C7_6FE0, 0x0000_0040, 0x3063_B7F0, 0x0000_0020, 0x1831_DBF8, 0x0000_0010, 0x0C18_EDFC);
  }

  lemma ImageRows0()
    ensures Maps(0x0000_0008, 0x060C_76FE)
    ensures Maps(0x0000_0004, 0x0306_3B7F)
    ensures Maps(0x0000_0002, 0xEC3B_9E9F)
    ensures Maps(0x0000_0001, 0x9BA5_4C6F)
  {
    hide Maps, Step96;
    ImageRows4();
    MapsFour(0x0000_0008, 0x060C_76FE, 0x0000_0004, 0x0306_3B7F, 0x0000_0002, 0xEC3B_9E9F, 0x0000_0001, 0x9BA5_4C6F);
  }

  lemma PreimageRows4()
    ensures Maps(0x3651_1375, 0x8000_0000)
    ensures Maps(0xF690_0A9A, 0x4000_0000)
    ensures Maps(0x7B48_054D, 0x2000_0000)
    ensures Maps(0xD01C_8186, 0x1000_0000)
    ensures Maps(0x680E_40C3, 0x0800_0000)
  {
    hide Maps, Step96;
    LastPreimage();
    MapsAll(0x3651_1375);
    MapsFour(0x3651_1375, 0x8000_0000, 0xF690_0A9A, 0x4000_0000, 0x7B48_054D, 0x2000_0000, 0xD01C_8186, 0x1000_0000);
  }

  lemma PreimageRows0()
    ensures Maps(0x680E_40C3, 0x0800_0000)
    ensures Maps(0xD9BF_A341, 0x0400_0000)
    ensures Maps(0x8167_5280, 0x0200_0000)
    ensures Maps(0x40B3_A940, 0x0100_0000)
  {
    hide Maps, Step96;
    PreimageRows4();
    MapsFour(0x680E_40C3, 0x0800_0000, 0xD9BF_A341, 0x0400_0000, 0x8167_5280, 0x0200_0000, 0x40B3_A940, 0x0100_0000);
  }

  lemma MapsImage(c: bv32)
    requires c & 0xFFFF_0000 == 0
    ensures Maps(c, Image(c))
  {
    hide Maps, Pick, Sum4;
    ImageRows12();
    ImageRows8();
    ImageRows4();
    ImageRows0();
    MapsPicks(c, 0x0000_0001, 0x0000_0002, 0x0000_0004, 0x0000_0008,
              0x0000_0001, 0x0000_0002, 0x0000_0004, 0x0000_0008, 0x9BA5_4C6F, 0xEC3B_9E9F, 0x0306_3B7F, 0x060C_76FE);
    MapsPicks(c, 0x0000_0010, 0x0000_0020, 0x0000_0040, 0x0000_0080,
              0x0000_0010, 0x0000_0020, 0x0000_0040, 0x0000_0080, 0x0C18_EDFC, 0x1831_DBF8, 0x3063_B7F0, 0x60C7_6FE0);
    MapsPicks(c, 0x0000_0100, 0x0000_0200, 0x0000_0400, 0x0000_0800,
              0x0000_0100, 0x0000_0200, 0x0000_0400, 0x0000_0800, 0xC18E_DFC0, 0x586C_B9C1, 0xB0D9_7382, 0xBAC3_E145);
    MapsPicks(c, 0x0000_1000, 0x0000_2000, 0x0000_4000, 0x0000_8000,
              0x0000_1000, 0x0000_2000, 0x0000_4000, 0x0000_8000, 0xAEF6_C4CB, 0x869C_8FD7, 0xD648_19EF, 0x77E1_359F);
    MapsSum4(Sum4(Pick(c, 0x0000_0001, 0x0000_0001), Pick(c, 0x0000_0002, 0x0000_0002), Pick(c, 0x0000_0004, 0x0000_0004), Pick(c, 0x0000_0008, 0x0000_0008)),
             Sum4(Pick(c, 0x0000_0010, 0x0000_0010), Pick(c, 0x0000_0020, 0x0000_0020), Pick(c, 0x0000_0040, 0x0000_0040), Pick(c, 0x0000_0080, 0x0000_0080)),
             Sum4(Pick(c, 0x0000_0100, 0x0000_0100), Pick(c, 0x0000_0200, 0x0000_0200), Pick(c, 0x0000_0400, 0x0000_0400), Pick(c, 0x0000_0800, 0x0000_0800)),
             Sum4(Pick(c, 0x0000_1000, 0x0000_1000), Pick(c, 0x0000_2000, 0x0000_2000), Pick(c, 0x0000_4000, 0x0000_4000), Pick(c, 0x0000_8000, 0x0000_8000)),
             Sum4(Pick(c, 0x0000_0001, 0x9BA5_4C6F), Pick(c, 0x0000_0002, 0xEC3B_9E9F), Pick(c, 0x0000_0004, 0x0306_3B7F), Pick(c, 0x0000_0008, 0x060C_76FE)),
             Sum4(Pick(c, 0x0000_0010, 0x0C18_EDFC), Pick(c, 0x0000_0020, 0x1831_DBF8), Pick(c, 0x0000_0040, 0x3063_B7F0), Pick(c, 0x0000_0080, 0x60C7_6FE0)),
             Sum4(Pick(c, 0x0000_0100, 0xC18E_DFC0), Pick(c, 0x0000_0200, 0x586C_B9C1), Pick(c, 0x0000_0400, 0xB0D9_7382), Pick(c, 0x0000_0800, 0xBAC3_E145)),
             Sum4(Pick(c, 0x0000_1000, 0xAEF6_C4CB), Pick(c, 0x0000_2000, 0x869C_8FD7), Pick(c, 0x0000_4000, 0xD648_19EF), Pick(c, 0x0000_8000, 0x77E1_359F)));
    Digits(c);
  }

  lemma Digits(c: bv32)
    requires c & 0xFFFF_0000 == 0
    ensures Sum4(Sum4(Pick(c, 0x0000_0001, 0x0000_0001), Pick(c, 0x0000_0002, 0x0000_0002), Pick(c, 0x0000_0004, 0x0000_0004), Pick(c, 0x0000_0008, 0x0000_0008)),
                 Sum4(Pick(c, 0x0000_0010, 0x0000_0010), Pick(c, 0x0000_0020, 0x0000_0020), Pick(c, 0x0000_0040, 0x0000_0040), Pick(c, 0x0000_0080, 0x0000_0080)),
                 Sum4(Pick(c, 0x0000_0100, 0x0000_0100), Pick(c, 0x0000_0200, 0x0000_0200), Pick(c, 0x0000_0400, 0x0000_0400), Pick(c, 0x0000_0800, 0x0000_0800)),
                 Sum4(Pick(c, 0x0000_1000, 0x0000_1000), Pick(c, 0x0000_2000, 0x0000_2000), Pick(c, 0x0000_4000, 0x0000_4000), Pick(c, 0x0000_8000, 0x0000_8000))) == c
  {
    LowDigits(c);
    HighDigits(c);
    hide Pick;
  }

  lemma LowDigits(c: bv32)
    ensures Sum4(Pick(c, 0x0000_0001, 0x0000_0001), Pick(c, 0x0000_0002, 0x0000_0002), Pick(c, 0x0000_0004, 0x0000_0004), Pick(c, 0x0000_0008, 0x0000_0008)) == c & 0xF
    ensures Sum4(Pick(c, 0x0000_0010, 0x0000_0010), Pick(c, 0x0000_0020, 0x0000_0020), Pick(c, 0x0000_0040, 0x0000_0040), Pick(c, 0x0000_0080, 0x0000_0080)) == c & 0xF0
  {}

  lemma HighDigits(c: bv32)
    ensures Sum4(Pick(c, 0x0000_0100, 0x0000_0100), Pick(c, 0x0000_0200, 0x0000_0200), Pick(c, 0x0000_0400, 0x0000_0400), Pick(c, 0x0000_0800, 0x0000_0800)) == c & 0xF00
    ensures Sum4(Pick(c, 0x0000_1000, 0x0000_1000), Pick(c, 0x0000_2000, 0x0000_2000), Pick(c, 0x0000_4000, 0x0000_4000), Pick(c, 0x0000_8000, 0x0000_8000)) == c & 0xF000
  {}

  lemma MapsPreimage(c: bv32)
    requires c & 0xFF_FFFF == 0
    ensures Maps(Preimage(c), c)
  {
    hide Maps, Pick, Sum4, Sum;
    PreimageRows4();
    PreimageRows0();
    MapsPicks(c, 0x0100_0000, 0x0200_0000, 0x0400_0000, 0x0800_0000,
              0x40B3_A940, 0x8167_5280, 0xD9BF_A341, 0x680E_40C3, 0x0100_0000, 0x0200_0000, 0x0400_0000, 0x0800_0000);
    MapsPicks(c, 0x1000_0000, 0x2000_0000, 0x4000_0000, 0x8000_0000,
              0xD01C_8186, 0x7B48_054D, 0xF690_0A9A, 0x3651_1375, 0x1000_0000, 0x2000_0000, 0x4000_0000, 0x8000_0000);
    MapsSum(Sum4(Pick(c, 0x0100_0000, 0x40B3_A940), Pick(c, 0x0200_0000, 0x8167_5280), Pick(c, 0x0400_0000, 0xD9BF_A341), Pick(c, 0x0800_0000, 0x680E_40C3)),
            Sum4(Pick(c, 0x0100_0000, 0x0100_0000), Pick(c, 0x0200_0000, 0x0200_0000), Pick(c, 0x0400_0000, 0x0400_0000), Pick(c, 0x0800_0000, 0x0800_0000)),
            Sum4(Pick(c, 0x1000_0000, 0xD01C_8186), Pick(c, 0x2000_0000, 0x7B48_054D), Pick(c, 0x4000_0000, 0xF690_0A9A), Pick(c, 0x8000_0000, 0x3651_1375)),
            Sum4(Pick(c, 0x1000_0000, 0x1000_0000), Pick(c, 0x2000_0000, 0x2000_0000), Pick(c, 0x4000_0000, 0x4000_0000), Pick(c, 0x8000_0000, 0x8000_0000)));
    TopDigits(c);
  }

  lemma TopDigits(c: bv32)
    requires c & 0xFF_FFFF == 0
    ensures Sum(Sum4(Pick(c, 0x0100_0000, 0x0100_0000), Pick(c, 0x0200_0000, 0x0200_0000), Pick(c, 0x0400_0000, 0x0400_0000), Pick(c, 0x0800_0000, 0x0800_0000)),
                Sum4(Pick(c, 0x1000_0000, 0x1000_0000), Pick(c, 0x2000_0000, 0x2000_0000), Pick(c, 0x4000_0000, 0x4000_0000), Pick(c, 0x8000_0000, 0x8000_0000))) == c
  {}

  // ---- Kernels ---------------------------------------------------------

  lemma Kernel8(c: bv32)
    requires c & 0xFFFF_FF00 == 0 && Image(c) & 0xFF == 0
    ensures c == 0 || c == 0x43 || c == 0x86 || c == 0xC5
  {}

  // The sixteen-bit kernel is trivial; one lemma per value of the four top bits.

  lemma Kernel16Part0(c: bv32)
    ensures c & 0xFFFF_F000 == 0x0000 && Image(c) & 0xFFFF == 0 ==> c == 0
  {}

  lemma Kernel16Part1(c: bv32)
    ensures c & 0xFFFF_F000 == 0x1000 && Image(c) & 0xFFFF == 0 ==> c == 0
  {}

  lemma Kernel16Part2(c: bv32)
    ensures c & 0xFFFF_F000 == 0x2000 && Image(c) & 0xFFFF == 0 ==> c == 0
  {}

  lemma Kernel16Part3(c: bv32)
    ensures c & 0xFFFF_F000 == 0x3000 && Image(c) & 0xFFFF == 0 ==> c == 0
  {}

  lemma Kernel16Part4(c: bv32)
    ensures c & 0xFFFF_F000 == 0x4000 && Image(c) & 0xFFFF == 0 ==> c == 0
  {}

  lemma Kernel16Part5(c: bv32)
    ensures c & 0xFFFF_F000 == 0x5000 && Image(c) & 0xFFFF == 0 ==> c == 0
  {}

  lemma Kernel16Part6(c: bv32)
    ensures c & 0xFFFF_F000 == 0x6000 && Image(c) & 0xFFFF == 0 ==> c == 0
  {}

  lemma Kernel16Part7(c: bv32)
    ensures c & 0xFFFF_F000 == 0x7000 && Image(c) & 0xFFFF == 0 ==> c == 0
  {}

  lemma Kernel16Part8(c: bv32)
    ensures c & 0xFFFF_F000 == 0x8000 && Image(c) & 0xFFFF == 0 ==> c == 0
  {}

  lemma Kernel16Part9(c: bv32)
    ensures c & 0xFFFF_F000 == 0x9000 && Image(c) & 0xFFFF == 0 ==> c == 0
  {}

  lemma Kernel16Part10(c: bv32)
    ensures c & 0xFFFF_F000 == 0xA000 && Image(c) & 0xFFFF == 0 ==> c == 0
  {}

  lemma Kernel16Part11(c: bv32)
    ensures c & 0xFFFF_F000 == 0xB000 && Image(c) & 0xFFFF == 0 ==> c == 0
  {}

  lemma Kernel16Part12(c: bv32)
    ensures c & 0xFFFF_F000 == 0xC000 && Image(c) & 0xFFFF == 0 ==> c == 0
  {}

  lemma Kernel16Part13(c: bv32)
    ensures c & 0xFFFF_F000 == 0xD000 && Image(c) & 0xFFFF == 0 ==> c == 0
  {}

  lemma Kernel16Part14(c: bv32)
    ensures c & 0xFFFF_F000 == 0xE000 && Image(c) & 0xFFFF == 0 ==> c == 0
  {}

  lemma Kernel16Part15(c: bv32)
    ensures c & 0xFFFF_F000 == 0xF000 && Image(c) & 0xFFFF == 0 ==> c == 0
  {}

  lemma Sixteenths(c: bv32)
    requires c & 0xFFFF_0000 == 0
    ensures var top := c & 0xFFFF_F000;
            || top == 0 || top == 0x1000 || top == 0x2000 || top == 0x3000
            || top == 0x4000 || top == 0x5000 || top == 0x6000 || top == 0x7000
            || top == 0x8000 || top == 0x9000 || top == 0xA000 || top == 0xB000
            || top == 0xC000 || top == 0xD000 || top == 0xE000 || top == 0xF000
  {}

  lemma Kernel16(c: bv32)
    requires c & 0xFFFF_0000 == 0 && Image(c) & 0xFFFF == 0
    ensures c == 0
  {
    hide Image;
    Sixteenths(c);
    Kernel16Part0(c);
    Kernel16Part1(c);
    Kernel16Part2(c);
    Kernel16Part3(c);
    Kernel16Part4(c);
    Kernel16Part5(c);
    Kernel16Part6(c);
    Kernel16Part7(c);
    Kernel16Part8(c);
    Kernel16Part9(c);
    Kernel16Part10(c);
    Kernel16Part11(c);
    Kernel16Part12(c);
    Kernel16Part13(c);
    Kernel16Part14(c);
    Kernel16Part15(c);
  }

  lemma Kernel24(c: bv32)
    requires c & 0xFF_FFFF == 0 && Preimage(c) & 0xFF00_0000 == 0
    ensures c == 0
  {}

  // ---- On integers -----------------------------------------------------

  /** A vector with one more hexadecimal digit. */
  function Append(v: bv32, n: nat): (r: bv32)
  {
    Up(Up(Up(Up(v, n / 8 % 2 == 1), n / 4 % 2 == 1), n / 2 % 2 == 1), n % 2 == 1)
  }

  lemma AppendVal(v: bv32, n: nat)
    requires v < 0x1000_0000 && n < 16
    ensures Val(Append(v, n)) == 16 * Val(v) + n
  {
    hide Val, Up;
    UpDigit(v, n / 8 % 2 == 1, n / 4 % 2 == 1, n / 2 % 2 == 1, n % 2 == 1);
  }

  lemma AppendSmall(v: bv32, n: nat)
    ensures v < 0x1000 ==> Append(v, n) < 0x1_0000
    ensures v < 0x100 ==> Append(v, n) < 0x1000
    ensures v < 0x10 ==> Append(v, n) < 0x100
    ensures v == 0 ==> Append(v, n) < 0x10
    ensures v == 0 && n == 0 ==> Append(v, n) == 0
  {}

  function Vector(n: nat): (v: bv32)
  {
    Append(Append(Append(Append(0, n / 4096 % 16), n / 256 % 16), n / 16 % 16), n % 16)
  }

  lemma Small(v: bv32)
    ensures v < 0x1_0000 ==> v & 0xFFFF_0000 == 0
    ensures v < 0x100 ==> v & 0xFFFF_FF00 == 0
  {}

  lemma VectorBits(n: nat)
    ensures Vector(n) & 0xFFFF_0000 == 0
    ensures n < 0x100 ==> Vector(n) & 0xFFFF_FF00 == 0
  {
    hide Append;
    var a, b, c, d := n / 4096 % 16, n / 256 % 16, n / 16 % 16, n % 16;
    var v1 := Append(0, a);
    var v2 := Append(v1, b);
    var v3 := Append(v2, c);
    AppendSmall(0, a);
    AppendSmall(v1, b);
    AppendSmall(v2, c);
    AppendSmall(v3, d);
    Small(Vector(n));
  }

  lemma FourDigits(a: nat, b: nat, c: nat, d: nat)
    requires a < 16 && b < 16 && c < 16 && d < 16
    ensures Val(Append(Append(Append(Append(0, a), b), c), d)) == 4096 * a + 256 * b + 16 * c + d
  {
    hide Val, Append;
    var v1 := Append(0, a);
    var v2 := Append(v1, b);
    var v3 := Append(v2, c);
    ValZero();
    AppendSmall(0, a);
    AppendSmall(v1, b);
    AppendSmall(v2, c);
    AppendVal(0, a);
    AppendVal(v1, b);
    AppendVal(v2, c);
    AppendVal(v3, d);
  }

  lemma VectorVal(n: nat)
    requires n < 0x1_0000
    ensures Val(Vector(n)) == n
  {
    hide Val, Append;
    var a, b, c, d := n / 4096 % 16, n / 256 % 16, n / 16 % 16, n % 16;
    FourDigits(a, b, c, d);
    Hexadecimal(n);
  }

  lemma Hexadecimal(n: nat)
    requires n < 0x1_0000
    ensures n == 4096 * (n / 4096 % 16) + 256 * (n / 256 % 16) + 16 * (n / 16 % 16) + n % 16
  {
    var m := n / 16;
    var k := m / 16;
    assert n / 256 == k && n / 4096 == k / 16;
  }

  lemma Literals()
    ensures Val(0x43) == 0x43 && Val(0x86) == 0x86 && Val(0xC5) == 0xC5
    ensures Val(0x47FD_6500) == 0x47FD_6500 && Val(0x8FFA_CA00) == 0x8FFA_CA00 && Val(0xC807_AF00) == 0xC807_AF00
  {
    hide Val;
    ValZero();
    UpDigit(0x0, false, true, false, false);
    UpDigit(0x4, false, false, true, true);
    UpDigit(0x0, true, false, false, false);
    UpDigit(0x8, false, true, true, false);
    UpDigit(0x0, true, true, false, false);
    UpDigit(0xC, false, true, false, true);
    UpDigit(0x0, false, true, false, false);
    UpDigit(0x4, false, true, true, true);
    UpDigit(0x47, true, true, true, true);
    UpDigit(0x47F, true, true, false, true);
    UpDigit(0x47FD, false, true, true, false);
    UpDigit(0x47FD6, false, true, false, true);
    UpDigit(0x47FD65, false, false, false, false);
    UpDigit(0x47FD650, false, false, false, false);
    UpDigit(0x0, true, false, false, false);
    UpDigit(0x8, true, true, true, true);
    UpDigit(0x8F, true, true, true, true);
    UpDigit(0x8FF, true, false, true, false);
    UpDigit(0x8FFA, true, true, false, false);
    UpDigit(0x8FFAC, true, false, true, false);
    UpDigit(0x8FFACA, false, false, false, false);
    UpDigit(0x8FFACA0, false, false, false, false);
    UpDigit(0x0, true, true, false, false);
    UpDigit(0xC, true, false, false, false);
    UpDigit(0xC8, false, false, false, false);
    UpDigit(0xC80, false, true, true, true);
    UpDigit(0xC807, true, false, true, false);
    UpDigit(0xC807A, true, true, true, true);
    UpDigit(0xC807AF, false, false, false, false);
    UpDigit(0xC807AF0, false, false, false, false);
  }

  lemma ImageOf43()
    ensures Image(0x43) == 0x47FD_6500
  {
    assert Pick(0x43, 0x0000_0001, 0x9BA5_4C6F) == 0x9BA5_4C6F;
    assert Pick(0x43, 0x0000_0002, 0xEC3B_9E9F) == 0xEC3B_9E9F;
    assert Pick(0x43, 0x0000_0040, 0x3063_B7F0) == 0x3063_B7F0;
  }

  lemma ImageOf86()
    ensures Image(0x86) == 0x8FFA_CA00
  {
    assert Pick(0x86, 0x0000_0002, 0xEC3B_9E9F) == 0xEC3B_9E9F;
    assert Pick(0x86, 0x0000_0004, 0x0306_3B7F) == 0x0306_3B7F;
    assert Pick(0x86, 0x0000_0080, 0x60C7_6FE0) == 0x60C7_6FE0;
  }

  lemma ImageOfC5()
    ensures Image(0xC5) == 0xC807_AF00
  {
    assert Pick(0xC5, 0x0000_0001, 0x9BA5_4C6F) == 0x9BA5_4C6F;
    assert Pick(0xC5, 0x0000_0004, 0x0306_3B7F) == 0x0306_3B7F;
    assert Pick(0xC5, 0x0000_0040, 0x3063_B7F0) == 0x3063_B7F0;
    assert Pick(0xC5, 0x0000_0080, 0x60C7_6FE0) == 0x60C7_6FE0;
  }

  lemma Patterns()
    ensures Shifts(96, 0x43) == 0x47FD_6500 && Shifts(96, 0x86) == 0x8FFA_CA00 && Shifts(96, 0xC5) == 0xC807_AF00
  {
    hide Val, Shifts, Image;
    Literals();
    ImageOf43();
    ImageOf86();
    ImageOfC5();
    MapsImage(0x43);
    MapsImage(0x86);
    MapsImage(0xC5);
  }

  /** A change of one byte, twelve bytes before the end, leaves the low checksum byte alone in three cases. */
  lemma OneByte(d: nat)
    requires d < 0x100
    ensures Shifts(96, d) % 0x100 == 0 <==> d in {0, 0x43, 0x86, 0xC5}
  {
    hide Val, Shifts, Image, Vector;
    var c := Vector(d);
    VectorVal(d);
    VectorBits(d);
    MapsImage(c);
    ValByte(Image(c));
    Patterns();
    Literals();
    ValZero();
    ZeroStays(96);
    if Shifts(96, d) % 0x100 == 0 { Kernel8(c); }
  }

  /** A change of two bytes never leaves the two low checksum bytes alone. */
  lemma TwoBytes(d: nat)
    requires d < 0x1_0000 && Shifts(96, d) % 0x1_0000 == 0
    ensures d == 0
  {
    hide Val, Shifts, Image, Vector;
    var c := Vector(d);
    VectorVal(d);
    VectorBits(d);
    MapsImage(c);
    ValByte(Image(c));
    ValByte(Image(c) >> 8);
    LowBytes(Image(c));
    Kernel16(c);
    ValZero();
  }

  lemma LowBytes(v: bv32)
    requires v & 0xFF == 0 && (v >> 8) & 0xFF == 0
    ensures v & 0xFFFF == 0
  {}

  /** A vector whose value is a multiple of 2^24. */
  function Top(x: nat): (v: bv32)
  {
    Append(Append(Append(Append(Append(Append(Append(Append(0, x / 16 % 16), x % 16), 0), 0), 0), 0), 0), 0)
  }

  lemma TopVal(x: nat)
    requires x < 0x100
    ensures Val(Top(x)) == 0x100_0000 * x && Top(x) & 0xFF_FFFF == 0
  {
    hide Val, Append;
    var v1 := Append(0, x / 16 % 16);
    var v2 := Append(v1, x % 16);
    ValZero();
    AppendSmall(0, x / 16 % 16);
    AppendSmall(v1, x % 16);
    AppendVal(0, x / 16 % 16);
    AppendVal(v1, x % 16);
    Zeros(v2);
  }

  lemma Zeros(v: bv32)
    requires v < 0x100
    ensures var w := Append(Append(Append(Append(Append(Append(v, 0), 0), 0), 0), 0), 0);
            Val(w) == 0x100_0000 * Val(v) && w & 0xFF_FFFF == 0
  {
    hide Val;
    AppendVal(v, 0);
    AppendVal(Append(v, 0), 0);
    AppendVal(Append(Append(v, 0), 0), 0);
    AppendVal(Append(Append(Append(v, 0), 0), 0), 0);
    AppendVal(Append(Append(Append(Append(v, 0), 0), 0), 0), 0);
    AppendVal(Append(Append(Append(Append(Append(v, 0), 0), 0), 0), 0), 0);
  }

  function Drop(v: bv32): (r: bv32)
  {
    v >> 8
  }

  lemma DropVal(v: bv32)
    ensures Val(Drop(v)) == Val(v) / 0x100
  {
    hide Val;
    ValByte(v);
  }

  lemma DropAll(v: bv32)
    ensures Drop(Drop(Drop(Drop(v)))) == 0
    ensures Drop(Drop(Drop(v))) == 0 ==> v & 0xFF00_0000 == 0
  {}

  lemma ValDrops(v: bv32)
    ensures Val(v) < 0x1_0000_0000
    ensures Val(v) < 0x100_0000 ==> v & 0xFF00_0000 == 0
  {
    hide Val, Drop;
    var v1 := Drop(v);
    var v2 := Drop(v1);
    var v3 := Drop(v2);
    DropVal(v);
    DropVal(v1);
    DropVal(v2);
    DropVal(v3);
    DropAll(v);
    ValZero();
    if Val(v3) == 0 { ValPositive(v3); }
  }

  /** A change of three bytes never leaves the three low checksum bytes alone. */
  lemma ThreeBytes(d: nat)
    requires d < 0x100_0000 && Shifts(96, d) % 0x100_0000 == 0
    ensures d == 0
  {
    hide Val, Shifts, Preimage, Top;
    ShiftsBound(96, d);
    var x := Shifts(96, d) / 0x100_0000;
    TopVal(x);
    MapsPreimage(Top(x));
    ValDrops(Preimage(Top(x)));
    ShiftsInjective(96, Val(Preimage(Top(x))), d);
    Kernel24(Top(x));
    ValZero();
    ZeroStays(96);
    ShiftsInjective(96, 0, d);
  }
}
