/**
 Fixed-width machine integers as ranges of the mathematical integers, the
 saturating arithmetic of include/coherence/checked.hpp, little-endian byte
 strings, and the error codes and results shared by the other modules.
 */
module Machine {

  const U64_MAX: nat := 0xFFFF_FFFF_FFFF_FFFF

  type Byte = x: nat | x < 0x100
  type U16 = x: nat | x < 0x1_0000
  type U32 = x: nat | x < 0x1_0000_0000
  type U64 = x: nat | x <= U64_MAX

  datatype ErrorCode =
    | Truncated | InvalidMagic | UnsupportedVersion | UnknownMessageType | InvalidFlags
    | TooLarge | TooMany | IntegrityFailure | TrailingBytes | CorruptState | EmptyState
    | UnsupportedStateVersion | InvalidArgument | OutOfRange | AlreadyExists | NotFound
    | StaleBoot | StaleEpoch | StaleSequence | StaleGeneration | RetiredEntity
    | ConnectionClosed | Duplicate | Conflict | Unauthorized | Capacity

  datatype Result<+T> = Ok(value: T) | Err(code: ErrorCode) {
    predicate IsFailure() { Err? }
    function PropagateFailure<U>(): Result<U> requires Err? { Err(code) }
    function Extract(): T requires Ok? { value }
  }

  datatype Option<+T> = None | Some(value: T)

  function Min(a: int, b: int): (r: int)
    ensures r <= a && r <= b && (r == a || r == b)
  {
    if a <= b then a else b
  }

  // ---- Saturating arithmetic -------------------------------------------

  datatype AddResult = AddResult(value: U64, overflowed: bool)

  /** The sum when it is representable; otherwise the largest value, flagged. */
  function CheckedAdd(a: U64, b: U64): (r: AddResult)
    ensures r.value == Min(a + b, U64_MAX)
    ensures r.overflowed <==> a + b > U64_MAX
  {
    if a > U64_MAX - b then AddResult(U64_MAX, true) else AddResult(a + b, false)
  }

  lemma QuotientBounds(a: nat, b: nat, m: nat)
    requires b > 0
    ensures a > m / b <==> a * b > m
  {
    var q := m / b;
    assert m == q * b + m % b;
    if a > q {
      assert a * b >= (q + 1) * b by { MulMonotone(q + 1, a, b); }
    } else {
      MulMonotone(a, q, b);
    }
  }

  lemma MulMonotone(x: nat, y: nat, b: nat)
    requires x <= y
    ensures x * b <= y * b
  {}

  /** The product when it is representable; otherwise the largest value, flagged. */
  function CheckedMul(a: U64, b: U64): (r: AddResult)
    ensures r.value == Min(a * b, U64_MAX)
    ensures r.overflowed <==> a * b > U64_MAX
  {
    if a == 0 || b == 0 then AddResult(0, false) else
      QuotientBounds(a, b, U64_MAX);
      if a > U64_MAX / b then AddResult(U64_MAX, true) else AddResult(a * b, false)
  }

  function Pow2(k: nat): (r: nat)
    ensures r >= 1
  {
    if k == 0 then 1 else 2 * Pow2(k - 1)
  }

  // ---- Little-endian integers ------------------------------------------

  function Pow256(k: nat): (r: nat)
    ensures r >= 1
  {
    if k == 0 then 1 else 256 * Pow256(k - 1)
  }

  /** The low `k` bytes of `n`, least significant first. */
  function PutLE(n: nat, k: nat): (bytes: seq<Byte>)
    ensures |bytes| == k
  {
    if k == 0 then [] else [n % 256] + PutLE(n / 256, k - 1)
  }

  function GetLE(bytes: seq<Byte>): (n: nat)
    ensures n < Pow256(|bytes|)
  {
    if bytes == [] then 0 else bytes[0] + 256 * GetLE(bytes[1..])
  }

  /** Reading back what was written gives the integer truncated to `k` bytes. */
  lemma {:induction false} GetPutLE(n: nat, k: nat)
    ensures GetLE(PutLE(n, k)) == n % Pow256(k)
  {
    if k > 0 {
      var p := Pow256(k - 1);
      assert PutLE(n, k)[1..] == PutLE(n / 256, k - 1);
      GetPutLE(n / 256, k - 1);
      ModSplit(n, p);
    }
  }

  lemma ModSplit(n: nat, p: nat)
    requires p >= 1
    ensures n % 256 + 256 * ((n / 256) % p) == n % (256 * p)
  {
    var q, r := (n / 256) / p, (n / 256) % p;
    assert n / 256 == q * p + r;
    var s := n % 256 + 256 * r;
    assert 0 <= s < 256 * p;
    assert n == q * (256 * p) + s by {
      assert n == 256 * (n / 256) + n % 256;
      assert 256 * (q * p) == q * (256 * p);
    }
    ModUnique(n, 256 * p, q, s);
  }

  lemma ModUnique(n: int, m: int, q: int, s: int)
    requires m > 0 && 0 <= s < m && n == q * m + s
    ensures n % m == s
  {
    var d := n / m - q;
    assert s == d * m + n % m;
    assert d * m < m && -m < d * m;
    if d > 0 { MulMonotone(1, d, m); }
    if d < 0 { MulMonotone(1, -d, m); }
  }

  /** An integer that fits in `k` bytes survives a write and a read. */
  lemma GetPutExact(n: nat, k: nat)
    requires n < Pow256(k)
    ensures GetLE(PutLE(n, k)) == n
  {
    GetPutLE(n, k);
    ModUnique(n, Pow256(k), 0, n);
  }

  lemma LowDigit(low: Byte, high: nat)
    ensures (low + 256 * high) % 256 == low && (low + 256 * high) / 256 == high
  {}

  /** Every byte string is the encoding of the integer it reads as. */
  lemma {:induction false} PutGetLE(bytes: seq<Byte>)
    ensures PutLE(GetLE(bytes), |bytes|) == bytes
  {
    if bytes != [] {
      PutGetLE(bytes[1..]);
      LowDigit(bytes[0], GetLE(bytes[1..]));
    }
  }

  /** Distinct byte strings of one length read as distinct integers. */
  lemma GetLEInjective(a: seq<Byte>, b: seq<Byte>)
    requires |a| == |b| && GetLE(a) == GetLE(b)
    ensures a == b
  {
    PutGetLE(a);
    PutGetLE(b);
  }

  lemma Widths()
    ensures Pow256(2) == 0x1_0000
    ensures Pow256(4) == 0x1_0000_0000
    ensures Pow256(8) == U64_MAX + 1
  {
    assert Pow256(1) == 256;
    assert Pow256(2) == 65536;
    assert Pow256(3) == 256 * Pow256(2);
    assert Pow256(4) == 256 * Pow256(3);
    assert Pow256(5) == 256 * Pow256(4);
    assert Pow256(6) == 256 * Pow256(5);
    assert Pow256(7) == 256 * Pow256(6);
  }
}
