/**
 The framed wire protocol of src/protocol.cpp: a 32-byte header carrying its
 own CRC, the payload, and a CRC of the payload.
 */
module Framing {
  import opened Machine
  import opened Crc

  const HEADER_SIZE: nat := 32
  const TRAILER_SIZE: nat := 4
  const MAX_FRAME_PAYLOAD: nat := 0x10_0000
  const PROTOCOL_VERSION: U16 := 1
  /** "COBSFRM1" */
  const FRAME_MAGIC: seq<Byte> := [0x43, 0x4F, 0x42, 0x53, 0x46, 0x52, 0x4D, 0x31]
  const NO_CRC: seq<Byte> := [0, 0, 0, 0]

  datatype FrameHeader = FrameHeader(
    version: U16, mtype: U16, flags: U32, frameSequence: U64, payloadLength: U32)

  datatype Frame = Frame(mtype: U16, flags: U32, frameSequence: U64, payload: seq<Byte>)

  predicate KnownMessageType(raw: U16)
  {
    1 <= raw <= 18 || 100 <= raw <= 104
  }

  /** Only the two low flag bits are assigned. */
  predicate KnownFlags(flags: U32)
  {
    flags / 4 == 0
  }

  predicate LegalHeader(h: FrameHeader)
  {
    && h.version == PROTOCOL_VERSION
    && KnownMessageType(h.mtype)
    && KnownFlags(h.flags)
    && h.payloadLength <= MAX_FRAME_PAYLOAD
  }

  predicate LegalFrame(f: Frame)
  {
    KnownMessageType(f.mtype) && KnownFlags(f.flags) && |f.payload| <= MAX_FRAME_PAYLOAD
  }

  // ---- Encoding --------------------------------------------------------

  /** The 28 header bytes in front of the checksum. */
  function HeaderFields(h: FrameHeader): (bytes: seq<Byte>)
    ensures |bytes| == 28
  {
    FRAME_MAGIC + PutLE(h.version, 2) + PutLE(h.mtype, 2) + PutLE(h.flags, 4)
    + PutLE(h.frameSequence, 8) + PutLE(h.payloadLength, 4)
  }

  function HeaderCrc(fields: seq<Byte>): (r: U32)
  {
    Crc32(fields + NO_CRC)
  }

  function HeaderBytes(h: FrameHeader): (bytes: seq<Byte>)
    ensures |bytes| == HEADER_SIZE
  {
    HeaderFields(h) + PutLE(HeaderCrc(HeaderFields(h)), 4)
  }

  /** The header an encoder writes; the length field keeps 32 bits of the payload size. */
  function HeaderOf(f: Frame): (h: FrameHeader)
  {
    FrameHeader(PROTOCOL_VERSION, f.mtype, f.flags, f.frameSequence, |f.payload| % 0x1_0000_0000)
  }

  function FrameBytes(f: Frame): (bytes: seq<Byte>)
    ensures |bytes| == HEADER_SIZE + |f.payload| + TRAILER_SIZE
  {
    HeaderBytes(HeaderOf(f)) + f.payload + PutLE(Crc32(f.payload), 4)
  }

  /** Writes the low `k` bytes of `value` at `at`, touching nothing else. */
  method PutAt(out: array<Byte>, at: nat, value: nat, k: nat)
    requires at + k <= out.Length
    modifies out
    ensures out[..] == old(out[..at]) + PutLE(value, k) + old(out[at + k..])
  {
    var rest := value;
    for i := 0 to k
      invariant out[..at] == old(out[..at])
      invariant out[at..at + i] + PutLE(rest, k - i) == PutLE(value, k)
      invariant out[at + i..] == old(out[at + i..])
    {
      assert PutLE(rest, k - i) == [rest % 256] + PutLE(rest / 256, k - i - 1);
      out[at + i] := rest % 256;
      assert out[at..at + i + 1] == out[at..at + i] + [rest % 256];
      rest := rest / 256;
    }
    assert out[..] == out[..at] + out[at..at + k] + out[at + k..];
  }

  method CopyAt(out: array<Byte>, at: nat, source: seq<Byte>)
    requires at + |source| <= out.Length
    modifies out
    ensures out[..] == old(out[..at]) + source + old(out[at + |source|..])
  {
    for i := 0 to |source|
      invariant out[..at] == old(out[..at])
      invariant out[at..at + i] == source[..i]
      invariant out[at + i..] == old(out[at + i..])
    {
      out[at + i] := source[i];
      assert out[at..at + i + 1] == out[at..at + i] + [source[i]];
    }
    assert out[..] == out[..at] + out[at..at + |source|] + out[at + |source|..];
  }

  /** Appends `k` bytes of `value` to a buffer whose first `|done|` bytes are written. */
  method Append(out: array<Byte>, done: seq<Byte>, value: nat, k: nat) returns (next: seq<Byte>)
    requires |done| + k <= HEADER_SIZE <= out.Length && out[..|done|] == done
    modifies out
    ensures next == done + PutLE(value, k)
    ensures out[..|next|] == next && out[HEADER_SIZE..] == old(out[HEADER_SIZE..])
  {
    ghost var tail := out[HEADER_SIZE..];
    assert tail == out[|done| + k..][HEADER_SIZE - |done| - k..];
    PutAt(out, |done|, value, k);
    next := done + PutLE(value, k);
    assert out[..|next|] == next;
    assert out[HEADER_SIZE..] == tail;
  }

  lemma NoCrcBytes()
    ensures PutLE(0, 4) == NO_CRC
  {}

  method EncodeHeader(h: FrameHeader, out: array<Byte>)
    requires out.Length >= HEADER_SIZE
    modifies out
    ensures out[..] == HeaderBytes(h) + old(out[HEADER_SIZE..])
  {
    hide PutLE;
    ghost var tail := out[HEADER_SIZE..];
    CopyAt(out, 0, FRAME_MAGIC);
    assert out[..|FRAME_MAGIC|] == FRAME_MAGIC;
    assert out[HEADER_SIZE..] == tail;
    var done := Append(out, FRAME_MAGIC, h.version, 2);
    done := Append(out, done, h.mtype, 2);
    done := Append(out, done, h.flags, 4);
    done := Append(out, done, h.frameSequence, 8);
    done := Append(out, done, h.payloadLength, 4);
    assert done == HeaderFields(h);
    SealHeader(h, out);
  }

  /** Zeroes the checksum field, then writes the checksum of the 32 bytes into it. */
  method SealHeader(ghost h: FrameHeader, out: array<Byte>)
    requires out.Length >= HEADER_SIZE && out[..28] == HeaderFields(h)
    modifies out
    ensures out[..] == HeaderBytes(h) + old(out[HEADER_SIZE..])
  {
    ghost var fields, tail := out[..28], out[HEADER_SIZE..];
    hide PutLE, Crc32, HeaderFields;
    PutAt(out, 28, 0, 4);
    assert PutLE(0, 4) == NO_CRC by { NoCrcBytes(); }
    assert out[..HEADER_SIZE] == fields + NO_CRC;
    assert out[..28] == fields;
    assert out[HEADER_SIZE..] == tail;
    var crc := ComputeCrc32(out[..HEADER_SIZE]);
    PutAt(out, 28, crc, 4);
    assert out[..] == fields + PutLE(crc, 4) + tail;
  }

  method EncodeFrame(f: Frame) returns (out: array<Byte>)
    ensures fresh(out) && out[..] == FrameBytes(f)
  {
    var n := |f.payload|;
    out := new Byte[HEADER_SIZE + n + TRAILER_SIZE];
    EncodeHeader(HeaderOf(f), out);
    assert out[..HEADER_SIZE] == HeaderBytes(HeaderOf(f));
    CopyAt(out, HEADER_SIZE, f.payload);
    assert out[..HEADER_SIZE + n] == HeaderBytes(HeaderOf(f)) + f.payload;
    var crc := ComputeCrc32(f.payload);
    PutAt(out, HEADER_SIZE + n, crc, 4);
  }

  // ---- Decoding --------------------------------------------------------

  function U16At(data: seq<Byte>, at: nat): (n: U16)
    requires at + 2 <= |data|
  {
    Widths();
    GetLE(data[at..at + 2])
  }

  function U32At(data: seq<Byte>, at: nat): (n: U32)
    requires at + 4 <= |data|
  {
    Widths();
    GetLE(data[at..at + 4])
  }

  function U64At(data: seq<Byte>, at: nat): (n: U64)
    requires at + 8 <= |data|
  {
    Widths();
    GetLE(data[at..at + 8])
  }

  function RawHeader(data: seq<Byte>): (h: FrameHeader)
    requires |data| >= HEADER_SIZE
  {
    FrameHeader(U16At(data, 8), U16At(data, 10), U32At(data, 12), U64At(data, 16), U32At(data, 24))
  }

  function DecodeHeader(data: seq<Byte>): (r: Result<FrameHeader>)
    ensures r.Ok? ==> |data| >= HEADER_SIZE && LegalHeader(r.value)
  {
    if |data| < HEADER_SIZE then Err(Truncated)
    else if data[..8] != FRAME_MAGIC then Err(InvalidMagic)
    else
      var h := RawHeader(data);
      if h.version != PROTOCOL_VERSION then Err(UnsupportedVersion)
      else if !KnownMessageType(h.mtype) then Err(UnknownMessageType)
      else if !KnownFlags(h.flags) then Err(InvalidFlags)
      else if h.payloadLength > MAX_FRAME_PAYLOAD then Err(TooLarge)
      else if HeaderCrc(data[..28]) != U32At(data, 28) then Err(IntegrityFailure)
      else Ok(h)
  }

  function FrameSize(h: FrameHeader): (n: nat)
  {
    HEADER_SIZE + h.payloadLength + TRAILER_SIZE
  }

  function DecodeFrame(data: seq<Byte>): (r: Result<Frame>)
  {
    var h :- DecodeHeader(data);
    if |data| < FrameSize(h) then Err(Truncated)
    else if |data| > FrameSize(h) then Err(TrailingBytes)
    else
      var payload := data[HEADER_SIZE..HEADER_SIZE + h.payloadLength];
      if Crc32(payload) != U32At(data, HEADER_SIZE + h.payloadLength) then Err(IntegrityFailure)
      else Ok(Frame(h.mtype, h.flags, h.frameSequence, payload))
  }

  // ---- Encoding and decoding undo each other ---------------------------

  lemma HeaderFieldsRead(h: FrameHeader, rest: seq<Byte>)
    requires |rest| >= 4
    ensures var data := HeaderFields(h) + rest;
            data[..8] == FRAME_MAGIC && data[..28] == HeaderFields(h) && RawHeader(data) == h
  {
    hide PutLE, GetLE, Pow256;
    var data := HeaderFields(h) + rest;
    Widths();
    GetPutExact(h.version, 2);
    GetPutExact(h.mtype, 2);
    GetPutExact(h.flags, 4);
    GetPutExact(h.frameSequence, 8);
    GetPutExact(h.payloadLength, 4);
    assert data[8..10] == PutLE(h.version, 2);
    assert data[10..12] == PutLE(h.mtype, 2);
    assert data[12..16] == PutLE(h.flags, 4);
    assert data[16..24] == PutLE(h.frameSequence, 8);
    assert data[24..28] == PutLE(h.payloadLength, 4);
  }

  /** An encoded header is accepted exactly when it is legal, and then read back. */
  lemma HeaderRoundTrip(h: FrameHeader, rest: seq<Byte>)
    ensures LegalHeader(h) ==> DecodeHeader(HeaderBytes(h) + rest) == Ok(h)
    ensures !LegalHeader(h) ==> DecodeHeader(HeaderBytes(h) + rest).Err?
  {
    hide PutLE, GetLE, Crc32, Pow256, HeaderFields, RawHeader;
    var crc := HeaderCrc(HeaderFields(h));
    var data := HeaderBytes(h) + rest;
    assert data == HeaderFields(h) + (PutLE(crc, 4) + rest);
    HeaderFieldsRead(h, PutLE(crc, 4) + rest);
    assert data[28..32] == PutLE(crc, 4);
    Widths();
    GetPutExact(crc, 4);
  }

  /** A decodable header is the encoding of what it decodes to. */
  lemma HeaderCanonical(data: seq<Byte>)
    requires DecodeHeader(data).Ok?
    ensures data[..HEADER_SIZE] == HeaderBytes(DecodeHeader(data).value)
  {
    hide Crc32, PutLE, GetLE, Pow256;
    PutGetLE(data[8..10]);
    PutGetLE(data[10..12]);
    PutGetLE(data[12..16]);
    PutGetLE(data[16..24]);
    PutGetLE(data[24..28]);
    PutGetLE(data[28..32]);
    assert data[..28] == data[..8] + data[8..10] + data[10..12] + data[12..16] + data[16..24] + data[24..28];
    assert data[..32] == data[..28] + data[28..32];
  }

  /** Decoding an encoding gives the frame back, and succeeds only for legal frames. */
  lemma FrameRoundTrip(f: Frame)
    ensures LegalFrame(f) ==> DecodeFrame(FrameBytes(f)) == Ok(f)
    ensures !LegalFrame(f) ==> DecodeFrame(FrameBytes(f)).Err?
  {
    hide Crc32, PutLE, GetLE, Pow256;
    var h, data, n := HeaderOf(f), FrameBytes(f), |f.payload|;
    var tail := f.payload + PutLE(Crc32(f.payload), 4);
    assert data == HeaderBytes(h) + tail;
    HeaderRoundTrip(h, tail);
    if LegalHeader(h) && h.payloadLength == n {
      assert data[HEADER_SIZE..HEADER_SIZE + n] == f.payload;
      assert data[HEADER_SIZE + n..HEADER_SIZE + n + 4] == PutLE(Crc32(f.payload), 4);
      Widths();
      GetPutExact(Crc32(f.payload), 4);
    }
  }

  /** Every accepted byte string is the encoding of the legal frame it decodes to. */
  lemma FrameCanonical(data: seq<Byte>)
    requires DecodeFrame(data).Ok?
    ensures var f := DecodeFrame(data).value; LegalFrame(f) && FrameBytes(f) == data
  {
    hide Crc32, PutLE, GetLE, Pow256;
    HeaderCanonical(data);
    var n := DecodeHeader(data).value.payloadLength;
    var trailer := data[HEADER_SIZE + n..HEADER_SIZE + n + 4];
    PutGetLE(trailer);
    assert data == data[..HEADER_SIZE] + data[HEADER_SIZE..HEADER_SIZE + n] + trailer;
  }

  // ---- Corruption ------------------------------------------------------

  /** Header fields with one checksum do not differ in a burst of four bytes alone. */
  lemma FieldsBurst(a: seq<Byte>, b: seq<Byte>, lo: nat, hi: nat)
    requires DifferWithin(a, b, lo, hi) && hi - lo <= 4 && HeaderCrc(a) == HeaderCrc(b)
    ensures a == b
  {
    hide Crc32, PutLE, GetLE, Pow256;
    var c, d := a + NO_CRC, b + NO_CRC;
    Crc32Determines(c, d);
    assert c[..lo] == a[..lo] && d[..lo] == b[..lo];
    assert c[hi..] == a[hi..] + NO_CRC && d[hi..] == b[hi..] + NO_CRC;
    assert c[..|a|] == a && d[..|b|] == b;
    if c != d { BurstChangesRegister(ALL_ONES, c, d, lo, hi); }
  }

  lemma HeaderBurst(a: seq<Byte>, b: seq<Byte>, lo: nat, hi: nat)
    requires DecodeHeader(a).Ok? && DecodeHeader(b).Ok?
    requires hi - lo <= 4 && DifferWithin(a, b, lo, hi) && hi <= 28
    ensures a == b
  {
    hide Crc32, PutLE, GetLE, Pow256;
    assert a[28..] == a[hi..][28 - hi..] && b[28..] == b[hi..][28 - hi..];
    assert a[28..32] == a[28..][..4] && b[28..32] == b[28..][..4];
    assert a[..28][..lo] == a[..lo] && b[..28][..lo] == b[..lo];
    assert a[..28][hi..] == a[hi..][..28 - hi] && b[..28][hi..] == b[hi..][..28 - hi];
    FieldsBurst(a[..28], b[..28], lo, hi);
    assert a == a[..28] + a[28..] && b == b[..28] + b[28..];
  }

  /** Past the header, payload and checksum together form one residue-checked string. */
  lemma BodyBurst(a: seq<Byte>, b: seq<Byte>, lo: nat, hi: nat)
    requires DecodeFrame(a).Ok? && DecodeFrame(b).Ok? && a[..HEADER_SIZE] == b[..HEADER_SIZE]
    requires hi - lo <= 4 && DifferWithin(a, b, lo, hi) && lo >= HEADER_SIZE
    ensures a == b
  {
    hide Crc32, PutLE, GetLE, Pow256;
    var n := |a| - HEADER_SIZE - TRAILER_SIZE;
    SameHeader(a, b);
    var c, d := a[HEADER_SIZE..], b[HEADER_SIZE..];
    assert c == a[HEADER_SIZE..HEADER_SIZE + n] + a[HEADER_SIZE + n..HEADER_SIZE + n + 4];
    assert d == b[HEADER_SIZE..HEADER_SIZE + n] + b[HEADER_SIZE + n..HEADER_SIZE + n + 4];
    ResidueIff(a[HEADER_SIZE..HEADER_SIZE + n], a[HEADER_SIZE + n..HEADER_SIZE + n + 4]);
    ResidueIff(b[HEADER_SIZE..HEADER_SIZE + n], b[HEADER_SIZE + n..HEADER_SIZE + n + 4]);
    if c != d {
      assert c[..lo - HEADER_SIZE] == a[..lo][HEADER_SIZE..] && d[..lo - HEADER_SIZE] == b[..lo][HEADER_SIZE..];
      assert c[hi - HEADER_SIZE..] == a[hi..] && d[hi - HEADER_SIZE..] == b[hi..];
      BurstChangesRegister(ALL_ONES, c, d, lo - HEADER_SIZE, hi - HEADER_SIZE);
    }
    assert a == a[..HEADER_SIZE] + c && b == b[..HEADER_SIZE] + d;
  }

  lemma SameHeader(a: seq<Byte>, b: seq<Byte>)
    requires |a| >= HEADER_SIZE && |b| >= HEADER_SIZE && a[..HEADER_SIZE] == b[..HEADER_SIZE]
    ensures DecodeHeader(a) == DecodeHeader(b)
  {
    assert a[..HEADER_SIZE] + a[HEADER_SIZE..] == a && b[..HEADER_SIZE] + b[HEADER_SIZE..] == b;
    var p := a[..HEADER_SIZE];
    assert a[..8] == p[..8] && b[..8] == p[..8] && a[..28] == p[..28] && b[..28] == p[..28];
    assert a[8..10] == p[8..10] && b[8..10] == p[8..10];
    assert a[10..12] == p[10..12] && b[10..12] == p[10..12];
    assert a[12..16] == p[12..16] && b[12..16] == p[12..16];
    assert a[16..24] == p[16..24] && b[16..24] == p[16..24];
    assert a[24..28] == p[24..28] && b[24..28] == p[24..28];
    assert a[28..32] == p[28..32] && b[28..32] == p[28..32];
  }

  /** Any change confined to four consecutive bytes anywhere in an accepted frame, a single
      corrupted byte included, makes the frame undecodable. */
  lemma BurstCorruptionDetected(a: seq<Byte>, b: seq<Byte>, lo: nat, hi: nat)
    requires DecodeFrame(a).Ok? && a != b && DifferWithin(a, b, lo, hi) && hi - lo <= 4
    ensures DecodeFrame(b).Err?
  {
    hide Crc32, PutLE, GetLE, Pow256;
    if DecodeFrame(b).Ok? {
      if hi <= 28 {
        HeaderBurst(a, b, lo, hi);
      } else {
        FieldsAgree(a, b, lo);
        var from := if lo < HEADER_SIZE then HEADER_SIZE else lo;
        var to := if hi < from then from else hi;
        assert a[to..] == a[hi..][to - hi..] && b[to..] == b[hi..][to - hi..];
        BodyBurst(a, b, from, to);
      }
    }
  }

  /** With the length field pinned by the frame's size, two accepted frames that agree up to
      byte 24 agree on the whole header. */
  lemma FieldsAgree(a: seq<Byte>, b: seq<Byte>, lo: nat)
    requires DecodeFrame(a).Ok? && DecodeFrame(b).Ok? && |a| == |b|
    requires 24 <= lo <= |a| && a[..lo] == b[..lo]
    ensures a[..HEADER_SIZE] == b[..HEADER_SIZE]
  {
    hide Crc32, PutLE, GetLE, Pow256;
    assert U32At(a, 24) == U32At(b, 24);
    GetLEInjective(a[24..28], b[24..28]);
    assert a[..24] == a[..lo][..24] && b[..24] == b[..lo][..24];
    assert a[..28] == a[..24] + a[24..28] && b[..28] == b[..24] + b[24..28];
    GetLEInjective(a[28..32], b[28..32]);
    assert a[..32] == a[..28] + a[28..32] && b[..32] == b[..28] + b[28..32];
  }
}
