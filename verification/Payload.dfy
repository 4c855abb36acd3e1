/**
 Payload primitives (src/protocol.cpp:333-472): a writer that appends and a reader
 that advances, over little-endian integers, flags and bounded text.
 */
module Payload {
  import opened Machine
  import opened Observation

  /** A value read off the front of the unread bytes, and what is left. */
  datatype Read<+T> = Read(value: T, rest: seq<Byte>)

  // ---- Integers --------------------------------------------------------

  function TakeLE(k: nat, rest: seq<Byte>): (r: Result<Read<nat>>)
    ensures r.Ok? ==> r.value.value < Pow256(k) && |r.value.rest| + k == |rest|
  {
    if |rest| < k then Err(Truncated) else Ok(Read(GetLE(rest[..k]), rest[k..]))
  }

  lemma TakePutLE(n: nat, k: nat, rest: seq<Byte>)
    requires n < Pow256(k)
    ensures TakeLE(k, PutLE(n, k) + rest) == Ok(Read(n, rest))
  {
    hide GetLE, PutLE, Pow256;
    GetPutExact(n, k);
    assert (PutLE(n, k) + rest)[..k] == PutLE(n, k) && (PutLE(n, k) + rest)[k..] == rest;
  }

  function TakeByte(rest: seq<Byte>): (r: Result<Read<Byte>>)
    ensures r.Ok? ==> |r.value.rest| < |rest|
  {
    if rest == [] then Err(Truncated) else Ok(Read(rest[0], rest[1..]))
  }

  function TakeU32(rest: seq<Byte>): (r: Result<Read<U32>>)
    ensures r.Ok? ==> |r.value.rest| < |rest|
  {
    Widths();
    TakeLE(4, rest)
  }

  function TakeU64(rest: seq<Byte>): (r: Result<Read<U64>>)
    ensures r.Ok? ==> |r.value.rest| < |rest|
  {
    Widths();
    TakeLE(8, rest)
  }

  lemma TakePutByte(b: Byte, rest: seq<Byte>)
    ensures TakeByte([b] + rest) == Ok(Read(b, rest))
  {
    assert ([b] + rest)[1..] == rest;
  }

  lemma TakePutU32(n: U32, rest: seq<Byte>)
    ensures TakeU32(PutLE(n, 4) + rest) == Ok(Read(n, rest))
  {
    Widths();
    TakePutLE(n, 4, rest);
  }

  lemma TakePutU64(n: U64, rest: seq<Byte>)
    ensures TakeU64(PutLE(n, 8) + rest) == Ok(Read(n, rest))
  {
    Widths();
    TakePutLE(n, 8, rest);
  }

  /** Two's complement in 64 bits. */
  function Unsigned(i: I64): (n: U64)
  {
    if i < 0 then i + 0x1_0000_0000_0000_0000 else i
  }

  function Signed(n: U64): (i: I64)
    ensures Unsigned(i) == n
  {
    if n >= 0x8000_0000_0000_0000 then n - 0x1_0000_0000_0000_0000 else n
  }

  function TakeI64(rest: seq<Byte>): (r: Result<Read<I64>>)
  {
    var n :- TakeU64(rest);
    Ok(Read(Signed(n.value), n.rest))
  }

  lemma TakePutI64(i: I64, rest: seq<Byte>)
    ensures TakeI64(PutLE(Unsigned(i), 8) + rest) == Ok(Read(i, rest))
  {
    TakePutU64(Unsigned(i), rest);
  }

  function Flag(b: bool): (x: Byte)
  {
    if b then 1 else 0
  }

  /** A code below an exclusive bound. */
  function TakeCode(rest: seq<Byte>, bound: nat): (r: Result<Read<Byte>>)
  {
    var x :- TakeByte(rest);
    if x.value >= bound then Err(InvalidArgument) else Ok(x)
  }

  // ---- Text ------------------------------------------------------------

  function TextBytes(s: string): (bytes: seq<Byte>)
    requires IsBytes(s)
    ensures |bytes| == |s|
  {
    seq(|s|, i requires 0 <= i < |s| => s[i] as int)
  }

  function TextOf(bytes: seq<Byte>): (s: string)
    ensures |s| == |bytes| && IsBytes(s)
  {
    seq(|bytes|, i requires 0 <= i < |bytes| => bytes[i] as char)
  }

  lemma TextRoundTrip(s: string)
    requires IsBytes(s)
    ensures TextOf(TextBytes(s)) == s
  {}

  function PutText(s: string): (bytes: seq<Byte>)
    requires IsBytes(s)
  {
    PutLE(|s|, 4) + TextBytes(s)
  }

  function TakeText(rest: seq<Byte>, max: nat): (r: Result<Read<string>>)
    ensures r.Ok? ==> |r.value.rest| < |rest|
  {
    var n :- TakeU32(rest);
    if n.value > max then Err(TooLarge)
    else if |n.rest| < n.value then Err(Truncated)
    else Ok(Read(TextOf(n.rest[..n.value]), n.rest[n.value..]))
  }

  lemma TakePutText(s: string, max: nat, rest: seq<Byte>)
    requires IsBytes(s) && |s| <= max < 0x1_0000_0000
    ensures TakeText(PutText(s) + rest, max) == Ok(Read(s, rest))
  {
    hide PutLE, GetLE;
    assert PutText(s) + rest == PutLE(|s|, 4) + (TextBytes(s) + rest);
    TakePutU32(|s|, TextBytes(s) + rest);
    TextRoundTrip(s);
    assert (TextBytes(s) + rest)[..|s|] == TextBytes(s) && (TextBytes(s) + rest)[|s|..] == rest;
  }

  // ---- The writer and the reader as the runtime has them ---------------

  class PayloadWriter {
    var data: seq<Byte>

    constructor ()
      ensures data == []
    {
      data := [];
    }

    /** Pushes the low `k` bytes, least significant first. */
    method Integer(value: nat, k: nat)
      modifies this
      ensures data == old(data) + PutLE(value, k)
    {
      var rest := value;
      for i := 0 to k
        invariant data + PutLE(rest, k - i) == old(data) + PutLE(value, k)
      {
        assert PutLE(rest, k - i) == [rest % 256] + PutLE(rest / 256, k - i - 1);
        assert data + ([rest % 256] + PutLE(rest / 256, k - i - 1)) == (data + [rest % 256]) + PutLE(rest / 256, k - i - 1);
        data := data + [rest % 256];
        rest := rest / 256;
      }
    }

    method Text(value: string, max: nat) returns (r: Option<ErrorCode>)
      requires IsBytes(value) && max < 0x1_0000_0000
      modifies this
      ensures if |value| > max then r == Some(TooLarge) && data == old(data)
              else r == None && data == old(data) + PutText(value)
    {
      if |value| > max {
        return Some(TooLarge);
      }
      Integer(|value|, 4);
      data := data + TextBytes(value);
      r := None;
      assert data == old(data) + PutText(value);
    }
  }

  class PayloadReader {
    const data: seq<Byte>
    var position: nat

    constructor (data: seq<Byte>)
      ensures Valid() && this.data == data && Rest() == data
    {
      this.data, position := data, 0;
    }

    ghost predicate Valid()
      reads this
    {
      position <= |data|
    }

    ghost function Rest(): (r: seq<Byte>)
      requires Valid()
      reads this
    {
      data[position..]
    }

    method Integer(k: nat) returns (r: Result<nat>)
      requires Valid()
      modifies this
      ensures Valid()
      ensures var t := TakeLE(k, old(Rest()));
              if t.Ok? then r == Ok(t.value.value) && Rest() == t.value.rest else r == Err(t.code) && Rest() == old(Rest())
    {
      if |data| - position < k {
        return Err(Truncated);
      }
      var value: nat := 0;
      for i := k downto 0
        invariant value == GetLE(data[position + i..position + k])
      {
        ghost var from := position + i;
        assert data[from..position + k][1..] == data[from + 1..position + k];
        value := data[position + i] + 256 * value;
      }
      assert data[position..][..k] == data[position..position + k];
      assert data[position..][k..] == data[position + k..];
      position := position + k;
      return Ok(value);
    }

    method Text(max: nat) returns (r: Result<string>)
      requires Valid()
      modifies this
      ensures Valid()
      ensures var t := TakeText(old(Rest()), max);
              if t.Ok? then r == Ok(t.value.value) && Rest() == t.value.rest else r == Err(t.code)
    {
      hide GetLE;
      var length :- Integer(4);
      if length > max {
        return Err(TooLarge);
      }
      if |data| - position < length {
        return Err(Truncated);
      }
      ghost var rest := Rest();
      assert rest[..length] == data[position..position + length] && rest[length..] == data[position + length..];
      var text := TextOf(data[position..position + length]);
      position := position + length;
      return Ok(text);
    }
  }
}
