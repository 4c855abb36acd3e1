/**
 The durable state file (src/persistence.cpp:110-122, 897-1037, 1377-1395): a
 checksummed header, a payload of checksummed sections, and a trailer. The bound
 on the payload is a parameter; the runtime's default is 256 MiB.
 */
module StateFile {
  import opened Machine
  import opened Crc
  import opened Framing

  const STATE_MAGIC: seq<Byte> := [0x43, 0x4F, 0x42, 0x53, 0x53, 0x54, 0x30, 0x31]    // COBSST01
  const TRAILER_MAGIC: seq<Byte> := [0x43, 0x4F, 0x42, 0x53, 0x45, 0x4E, 0x44, 0x31]  // COBSEND1
  const STATE_VERSION: U32 := 1
  const STATE_HEADER: nat := 64
  const STATE_TRAILER: nat := 16
  const SECTION_HEADER: nat := 16

  datatype Image = Image(coordinatorEpoch: U64, observationEpoch: U64, records: U64, payload: seq<Byte>)

  // ---- Envelope --------------------------------------------------------

  /** The 48 header bytes in front of the checksum. */
  function StateFields(length: U64, i: Image): (bytes: seq<Byte>)
    ensures |bytes| == 48
  {
    STATE_MAGIC + PutLE(STATE_VERSION, 4) + PutLE(0, 4) + PutLE(length, 8)
    + PutLE(i.coordinatorEpoch, 8) + PutLE(i.observationEpoch, 8) + PutLE(i.records, 8)
  }

  /** The checksum covers the whole header with its own field zeroed. */
  function StateCrc(fields: seq<Byte>, reserved: seq<Byte>): (r: U32)
  {
    Crc32(fields + NO_CRC + reserved)
  }

  const RESERVED: seq<Byte> := [0, 0, 0, 0, 0, 0, 0, 0, 0, 0, 0, 0]

  function StateBytes(i: Image): (bytes: seq<Byte>)
    requires |i.payload| <= U64_MAX
    ensures |bytes| == STATE_HEADER + |i.payload| + STATE_TRAILER
  {
    var fields := StateFields(|i.payload|, i);
    fields + PutLE(StateCrc(fields, RESERVED), 4) + RESERVED
    + i.payload + TRAILER_MAGIC + PutLE(Crc32(i.payload), 4) + NO_CRC
  }

  /** Writes `k` bytes of `value` after the bytes already written. */
  method PutNext(out: array<Byte>, done: seq<Byte>, value: nat, k: nat) returns (next: seq<Byte>)
    requires |done| + k <= out.Length && out[..|done|] == done
    modifies out
    ensures next == done + PutLE(value, k) && out[..|next|] == next
  {
    PutAt(out, |done|, value, k);
    next := done + PutLE(value, k);
    assert out[..|next|] == next;
  }

  method CopyNext(out: array<Byte>, done: seq<Byte>, source: seq<Byte>) returns (next: seq<Byte>)
    requires |done| + |source| <= out.Length && out[..|done|] == done
    modifies out
    ensures next == done + source && out[..|next|] == next
  {
    CopyAt(out, |done|, source);
    next := done + source;
    assert out[..|next|] == next;
  }

  /** The header is filled with a zero checksum, summed, and sealed. */
  method WriteStateHeader(i: Image, out: array<Byte>)
    requires |i.payload| <= U64_MAX && out.Length >= STATE_HEADER
    modifies out
    ensures var fields := StateFields(|i.payload|, i);
            out[..STATE_HEADER] == fields + PutLE(StateCrc(fields, RESERVED), 4) + RESERVED
  {
    hide PutLE, Crc32;
    var done := CopyNext(out, [], STATE_MAGIC);
    done := PutNext(out, done, STATE_VERSION, 4);
    done := PutNext(out, done, 0, 4);
    done := PutNext(out, done, |i.payload|, 8);
    done := PutNext(out, done, i.coordinatorEpoch, 8);
    done := PutNext(out, done, i.observationEpoch, 8);
    done := PutNext(out, done, i.records, 8);
    assert done == StateFields(|i.payload|, i);
    SealState(out, done);
  }

  method SealState(out: array<Byte>, fields: seq<Byte>)
    requires |fields| == 48 && out.Length >= STATE_HEADER && out[..48] == fields
    modifies out
    ensures out[..STATE_HEADER] == fields + PutLE(StateCrc(fields, RESERVED), 4) + RESERVED
  {
    hide PutLE, Crc32;
    var done := PutNext(out, fields, 0, 4);
    done := PutNext(out, done, 0, 4);
    done := PutNext(out, done, 0, 8);
    Zeroed(fields);
    assert done == fields + NO_CRC + RESERVED;
    var crc := ComputeCrc32(out[..STATE_HEADER]);
    assert out[..48] == done[..48] == fields;
    ghost var after := out[52..];
    assert after[..12] == done[52..] == RESERVED;
    PutAt(out, 48, crc, 4);
    assert out[..52] == fields + PutLE(crc, 4);
    assert out[52..] == after;
    assert out[..STATE_HEADER] == out[..52] + out[52..][..12];
  }

  lemma ZeroBytes()
    ensures PutLE(0, 4) == NO_CRC && PutLE(0, 4) + PutLE(0, 8) == RESERVED
  {
    assert PutLE(0, 4) == NO_CRC;
    assert PutLE(0, 8) == [0, 0, 0, 0, 0, 0, 0, 0] by {
      assert PutLE(0, 8) == [0, 0, 0, 0] + PutLE(0, 4);
    }
  }

  /** Sixteen zero bytes are an empty checksum field and the reserved tail. */
  lemma Zeroed(fields: seq<Byte>)
    ensures fields + PutLE(0, 4) + PutLE(0, 4) + PutLE(0, 8) == fields + NO_CRC + RESERVED
  {
    hide PutLE;
    ZeroBytes();
    assert fields + PutLE(0, 4) + PutLE(0, 4) + PutLE(0, 8) == fields + PutLE(0, 4) + (PutLE(0, 4) + PutLE(0, 8));
  }

  method WriteState(i: Image) returns (out: array<Byte>)
    requires |i.payload| <= U64_MAX
    ensures fresh(out) && out[..] == StateBytes(i)
  {
    hide PutLE, Crc32, StateFields;
    out := new Byte[STATE_HEADER + |i.payload| + STATE_TRAILER];
    WriteStateHeader(i, out);
    var done := CopyNext(out, out[..STATE_HEADER], i.payload);
    done := CopyNext(out, done, TRAILER_MAGIC);
    var crc := ComputeCrc32(i.payload);
    done := PutNext(out, done, crc, 4);
    done := PutNext(out, done, 0, 4);
    ZeroBytes();
    assert out[..] == out[..|done|];
  }

  /** Acceptance of the header alone; the payload length it declares. */
  function ParseStateHeader(data: seq<Byte>, max: nat): (r: Result<U64>)
    ensures r.Ok? ==> |data| >= STATE_HEADER + STATE_TRAILER
  {
    if |data| < STATE_HEADER + STATE_TRAILER then Err(EmptyState)
    else if data[..8] != STATE_MAGIC then Err(InvalidMagic)
    else if U32At(data, 8) != STATE_VERSION then Err(UnsupportedStateVersion)
    else if U32At(data, 12) != 0 then Err(CorruptState)
    else if StateCrc(data[..48], data[52..64]) != U32At(data, 48) then Err(IntegrityFailure)
    else if U64At(data, 16) > max then Err(TooLarge)
    else Ok(U64At(data, 16))
  }

  function ParseState(data: seq<Byte>, max: nat): (r: Result<Image>)
  {
    var n :- ParseStateHeader(data, max);
    if |data| < STATE_HEADER + n + STATE_TRAILER then Err(Truncated)
    else if |data| > STATE_HEADER + n + STATE_TRAILER then Err(CorruptState)
    else
      var end := STATE_HEADER + n;
      var payload := data[STATE_HEADER..end];
      if data[end..end + 8] != TRAILER_MAGIC then Err(InvalidMagic)
      else if Crc32(payload) != U32At(data, end + 8) then Err(IntegrityFailure)
      else Ok(Image(U64At(data, 24), U64At(data, 32), U64At(data, 40), payload))
  }

  lemma StateFieldsRead(length: U64, i: Image, rest: seq<Byte>)
    requires |rest| >= 16
    ensures var data := StateFields(length, i) + rest;
            && data[..8] == STATE_MAGIC && data[..48] == StateFields(length, i)
            && U32At(data, 8) == STATE_VERSION && U32At(data, 12) == 0 && U64At(data, 16) == length
            && U64At(data, 24) == i.coordinatorEpoch && U64At(data, 32) == i.observationEpoch
            && U64At(data, 40) == i.records
  {
    hide PutLE, GetLE, Pow256;
    var data := StateFields(length, i) + rest;
    Widths();
    GetPutExact(STATE_VERSION, 4);
    GetPutExact(0, 4);
    GetPutExact(length, 8);
    GetPutExact(i.coordinatorEpoch, 8);
    GetPutExact(i.observationEpoch, 8);
    GetPutExact(i.records, 8);
    assert data[8..12] == PutLE(STATE_VERSION, 4);
    assert data[12..16] == PutLE(0, 4);
    assert data[16..24] == PutLE(length, 8);
    assert data[24..32] == PutLE(i.coordinatorEpoch, 8);
    assert data[32..40] == PutLE(i.observationEpoch, 8);
    assert data[40..48] == PutLE(i.records, 8);
  }

  /** A written file is read back whole, exactly when its payload is within the accepted bound. */
  lemma StateRoundTrip(i: Image, max: nat)
    requires |i.payload| <= U64_MAX
    ensures |i.payload| <= max ==> ParseState(StateBytes(i), max) == Ok(i)
    ensures |i.payload| > max ==> ParseState(StateBytes(i), max) == Err(TooLarge)
  {
    hide PutLE, GetLE, Pow256, Crc32, StateFields, StateBytes;
    var n, fields := |i.payload|, StateFields(|i.payload|, i);
    var crc, sum := StateCrc(fields, RESERVED), Crc32(i.payload);
    StateParts(i, fields, PutLE(crc, 4), PutLE(sum, 4));
    assert StateBytes(i) == fields + (PutLE(crc, 4) + RESERVED + i.payload + TRAILER_MAGIC + PutLE(sum, 4) + NO_CRC) by {
      Laid(i);
    }
    StateFieldsRead(n, i, PutLE(crc, 4) + RESERVED + i.payload + TRAILER_MAGIC + PutLE(sum, 4) + NO_CRC);
    Widths();
    GetPutExact(crc, 4);
    GetPutExact(sum, 4);
  }

  /** The file as its header fields and what follows them. */
  lemma Laid(i: Image)
    requires |i.payload| <= U64_MAX
    ensures var fields := StateFields(|i.payload|, i);
            StateBytes(i) == fields + (PutLE(StateCrc(fields, RESERVED), 4) + RESERVED + i.payload + TRAILER_MAGIC
                                       + PutLE(Crc32(i.payload), 4) + NO_CRC)
  {
    hide PutLE, Crc32, StateFields;
  }

  /** Where the parts of a file lie. */
  lemma StateParts(i: Image, fields: seq<Byte>, crc: seq<Byte>, sum: seq<Byte>)
    requires |fields| == 48 && |crc| == 4 && |sum| == 4
    ensures var n, data := |i.payload|, fields + (crc + RESERVED + i.payload + TRAILER_MAGIC + sum + NO_CRC);
            && data[48..52] == crc && data[52..64] == RESERVED && data[64..64 + n] == i.payload
            && data[64 + n..64 + n + 8] == TRAILER_MAGIC && data[64 + n + 8..64 + n + 8 + 4] == sum
  {
    var n, data := |i.payload|, fields + (crc + RESERVED + i.payload + TRAILER_MAGIC + sum + NO_CRC);
    assert data[48..52] == crc;
    assert data[52..64] == RESERVED;
    assert data[64..64 + n] == i.payload;
    assert data[64 + n..64 + n + 8] == TRAILER_MAGIC;
    assert data[64 + n + 8..64 + n + 8 + 4] == sum;
  }

  // ---- Corruption ------------------------------------------------------

  /** The header as the checksum sees it. */
  ghost function Summed(data: seq<Byte>): (c: seq<Byte>)
    requires |data| >= STATE_HEADER
    ensures |c| == STATE_HEADER
  {
    data[..48] + NO_CRC + data[52..64]
  }

  ghost function Clamp(x: int, i: nat, j: nat): (k: nat)
    requires i <= j
    ensures k <= j - i
  {
    if x < i then 0 else if x > j then j - i else x - i
  }

  /** A burst seen through a slice is a burst of at most the same length, or nothing at all. */
  lemma SlicedBurst(a: seq<Byte>, b: seq<Byte>, lo: nat, hi: nat, i: nat, j: nat)
    requires DifferWithin(a, b, lo, hi) && i <= j <= |a|
    ensures DifferWithin(a[i..j], b[i..j], Clamp(lo, i, j), Clamp(hi, i, j))
    ensures hi <= i || j <= lo ==> a[i..j] == b[i..j]
  {
    var c, d, from, to := a[i..j], b[i..j], Clamp(lo, i, j), Clamp(hi, i, j);
    forall k | 0 <= k < j - i && !(from <= k < to)
      ensures c[k] == d[k]
    {
      assert i + k < lo ==> a[..lo][i + k] == b[..lo][i + k];
      assert i + k >= hi ==> a[hi..][i + k - hi] == b[hi..][i + k - hi];
    }
    assert c[..from] == d[..from] && c[to..] == d[to..];
    if hi <= i || j <= lo { assert c == d; }
  }

  lemma SummedBurst(a: seq<Byte>, b: seq<Byte>, lo: nat, hi: nat)
    requires DifferWithin(a, b, lo, hi) && |a| >= STATE_HEADER
    ensures DifferWithin(Summed(a), Summed(b), Clamp(lo, 0, STATE_HEADER), Clamp(hi, 0, STATE_HEADER))
  {
    var c, d, from, to := Summed(a), Summed(b), Clamp(lo, 0, STATE_HEADER), Clamp(hi, 0, STATE_HEADER);
    forall k | 0 <= k < STATE_HEADER && !(from <= k < to)
      ensures c[k] == d[k]
    {
      assert k < lo ==> a[..lo][k] == b[..lo][k];
      assert k >= hi ==> a[hi..][k - hi] == b[hi..][k - hi];
    }
    assert c[..from] == d[..from] && c[to..] == d[to..];
  }

  /** Bursts that reach across a border of the checksum field are not covered by the argument. */
  ghost predicate OnOneSide(lo: nat, hi: nat)
  {
    hi <= 48 || (48 <= lo && hi <= 52) || 52 <= lo
  }

  lemma EqualCrcs(c: seq<Byte>, d: seq<Byte>, lo: nat, hi: nat)
    requires DifferWithin(c, d, lo, hi) && hi - lo <= 4 && Crc32(c) == Crc32(d)
    ensures c == d
  {
    hide Crc32, DifferWithin;
    Crc32Determines(c, d);
    if c != d { BurstChangesRegister(ALL_ONES, c, d, lo, hi); }
  }

  lemma SameStateHeader(a: seq<Byte>, b: seq<Byte>, lo: nat, hi: nat, max: nat)
    requires ParseStateHeader(a, max).Ok? && ParseStateHeader(b, max).Ok?
    requires DifferWithin(a, b, lo, hi) && hi - lo <= 4 && OnOneSide(lo, hi)
    ensures a[..STATE_HEADER] == b[..STATE_HEADER]
  {
    hide Crc32, GetLE, PutLE, Pow256, DifferWithin;
    SlicedBurst(a, b, lo, hi, 0, 48);
    SlicedBurst(a, b, lo, hi, 48, 52);
    SlicedBurst(a, b, lo, hi, 52, 64);
    assert a[0..48] == a[..48] && b[0..48] == b[..48];
    if 48 <= lo && hi <= 52 {
      GetLEInjective(a[48..52], b[48..52]);
    } else {
      SummedBurst(a, b, lo, hi);
      EqualCrcs(Summed(a), Summed(b), Clamp(lo, 0, STATE_HEADER), Clamp(hi, 0, STATE_HEADER));
      assert a[..48] == Summed(a)[..48] && b[..48] == Summed(b)[..48];
      assert a[52..64] == Summed(a)[52..] && b[52..64] == Summed(b)[52..];
    }
    assert a[..64] == a[..48] + a[48..52] + a[52..64] && b[..64] == b[..48] + b[48..52] + b[52..64];
  }

  lemma SamePayload(a: seq<Byte>, b: seq<Byte>, lo: nat, hi: nat, n: nat)
    requires DifferWithin(a, b, lo, hi) && hi - lo <= 4 && |a| == |b| == STATE_HEADER + n + STATE_TRAILER
    requires var end := STATE_HEADER + n;
             && Crc32(a[STATE_HEADER..end]) == U32At(a, end + 8)
             && Crc32(b[STATE_HEADER..end]) == U32At(b, end + 8)
    ensures a[STATE_HEADER..STATE_HEADER + n] == b[STATE_HEADER..STATE_HEADER + n]
  {
    hide Crc32, GetLE, PutLE, Pow256, DifferWithin;
    var end := STATE_HEADER + n;
    SlicedBurst(a, b, lo, hi, STATE_HEADER, end);
    if lo < end {
      SlicedBurst(a, b, lo, hi, end + 8, end + 12);
      EqualCrcs(a[STATE_HEADER..end], b[STATE_HEADER..end], Clamp(lo, STATE_HEADER, end), Clamp(hi, STATE_HEADER, end));
    }
  }

  lemma SameAccepted(a: seq<Byte>, b: seq<Byte>, lo: nat, hi: nat, max: nat)
    requires ParseState(a, max).Ok? && ParseState(b, max).Ok?
    requires DifferWithin(a, b, lo, hi) && hi - lo <= 4 && OnOneSide(lo, hi)
    ensures a[..|a| - 4] == b[..|b| - 4]
  {
    hide Crc32, GetLE, PutLE, Pow256;
    SameStateHeader(a, b, lo, hi, max);
    assert a[16..24] == a[..64][16..24] && b[16..24] == b[..64][16..24];
    var n := U64At(a, 16);
    SamePayload(a, b, lo, hi, n);
    var end := STATE_HEADER + n;
    GetLEInjective(a[end + 8..end + 12], b[end + 8..end + 12]);
    Checked(a, end);
    Checked(b, end);
  }

  lemma Checked(a: seq<Byte>, end: nat)
    requires STATE_HEADER <= end && |a| == end + STATE_TRAILER
    ensures a[..|a| - 4] == a[..64] + a[64..end] + a[end..end + 8] + a[end + 8..end + 12]
  {}

  /** A change confined to four consecutive bytes on one side of the header checksum's borders, a
      single corrupted byte included, is detected anywhere but in the last four bytes of the file. */
  lemma StateBurstDetected(a: seq<Byte>, b: seq<Byte>, lo: nat, hi: nat, max: nat)
    requires ParseState(a, max).Ok? && DifferWithin(a, b, lo, hi) && hi - lo <= 4 && OnOneSide(lo, hi)
    requires |a| >= 4 && a[..|a| - 4] != b[..|b| - 4]
    ensures ParseState(b, max).Err?
  {
    hide ParseState;
    if ParseState(b, max).Ok? { SameAccepted(a, b, lo, hi, max); }
  }

  lemma TailIsIgnored(a: seq<Byte>, b: seq<Byte>, max: nat)
    requires |a| == |b| && |a| >= STATE_HEADER + STATE_TRAILER && a[..|a| - 4] == b[..|b| - 4]
    ensures ParseState(a, max) == ParseState(b, max)
  {
    hide Crc32, GetLE, PutLE, Pow256;
    var m := |a| - 4;
    forall i, j | 0 <= i <= j <= m
      ensures a[i..j] == b[i..j]
    {
      assert a[i..j] == a[..m][i..j] && b[i..j] == b[..m][i..j];
    }
    assert a[..8] == a[0..8] && b[..8] == b[0..8] && a[..48] == a[0..48] && b[..48] == b[0..48];
  }

  /** One corrupted byte is caught exactly when it is not among the last four, which nothing checks. */
  lemma CorruptByteDetectedIff(a: seq<Byte>, b: seq<Byte>, i: nat, max: nat)
    requires ParseState(a, max).Ok? && i < |a| && DifferWithin(a, b, i, i + 1) && a != b
    ensures ParseState(b, max).Err? <==> i < |a| - 4
  {
    hide ParseState, Crc32;
    LongEnough(a, max);
    var m := |a| - 4;
    assert a == a[..i] + [a[i]] + a[i + 1..] && b == b[..i] + [b[i]] + b[i + 1..];
    if i < m {
      assert a[..m][i] != b[..m][i];
      StateBurstDetected(a, b, i, i + 1, max);
    } else {
      assert a[..m] == a[..i][..m] && b[..m] == b[..i][..m];
      TailIsIgnored(a, b, max);
    }
  }

  lemma LongEnough(a: seq<Byte>, max: nat)
    requires ParseState(a, max).Ok?
    ensures |a| >= STATE_HEADER + STATE_TRAILER
  {}
}
