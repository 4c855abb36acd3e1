/**
 Counter reconstruction (src/observatory.cpp:1212-1300): raw readings become
 deltas, with wraps told from resets, baselines, descriptor changes and a
 saturating total.
 */
module Counter {
  import opened Machine

  datatype Kind = Absolute | Delta | Resettable | Wrapping | Sampled

  /** What identifies a counter's continuity; widths are validated to 1..64. */
  datatype Descriptor = Descriptor(generation: U64, kind: Kind, scope: nat, width: nat, mappedType: nat)

  datatype Record = Record(
    descriptor: Descriptor,
    hasLast: bool,
    lastRaw: U64,
    accumulated: U64,
    saturated: bool,
    samples: nat,
    resets: nat,
    wraps: nat)

  function Unused(d: Descriptor): (c: Record)
  {
    Record(d, false, 0, 0, false, 0, 0, 0)
  }

  function WidthMax(width: nat): (m: U64)
  {
    if width >= 64 then U64_MAX else
    Pow2Monotone(width, 63);
    Pow2Of63();
    Pow2(width) - 1
  }

  lemma {:induction false} Pow2Monotone(a: nat, b: nat)
    requires a <= b
    ensures Pow2(a) <= Pow2(b)
    decreases b
  {
    if a < b { Pow2Monotone(a, b - 1); }
  }

  lemma Pow2Of63()
    ensures Pow2(63) == 0x8000_0000_0000_0000
  {
    assert Pow2(8) == 256;
    assert Pow2(16) == 256 * Pow2(8) by { assert Pow2(12) == 16 * Pow2(8); assert Pow2(16) == 16 * Pow2(12); }
    assert Pow2(24) == 256 * Pow2(16) by { assert Pow2(20) == 16 * Pow2(16); assert Pow2(24) == 16 * Pow2(20); }
    assert Pow2(32) == 256 * Pow2(24) by { assert Pow2(28) == 16 * Pow2(24); assert Pow2(32) == 16 * Pow2(28); }
    assert Pow2(40) == 256 * Pow2(32) by { assert Pow2(36) == 16 * Pow2(32); assert Pow2(40) == 16 * Pow2(36); }
    assert Pow2(48) == 256 * Pow2(40) by { assert Pow2(44) == 16 * Pow2(40); assert Pow2(48) == 16 * Pow2(44); }
    assert Pow2(56) == 256 * Pow2(48) by { assert Pow2(52) == 16 * Pow2(48); assert Pow2(56) == 16 * Pow2(52); }
    assert Pow2(60) == 16 * Pow2(56);
    assert Pow2(63) == 8 * Pow2(60);
  }

  datatype Change = Baseline | Step | Wrap | Reset

  /** How a reading relates to the previous one. */
  function Classify(c: Record, d: Descriptor, raw: U64): (k: Change)
  {
    if !c.hasLast then Baseline
    else if raw >= c.lastRaw then Step
    else if d.kind.Wrapping? && d.width < 64 && c.lastRaw - raw > WidthMax(d.width) / 2 then Wrap
    else Reset
  }

  predicate Differenced(k: Kind)
  {
    !k.Delta? && !k.Sampled?
  }

  /** The last reading of a differenced counter fits its declared width. */
  predicate Valid(c: Record)
  {
    && (c.samples == 0 ==> !c.hasLast)
    && (Differenced(c.descriptor.kind) && c.hasLast ==> c.lastRaw <= WidthMax(c.descriptor.width))
  }

  lemma UnusedIsValid(d: Descriptor)
    ensures Valid(Unused(d))
  {}

  /** The traffic a reading adds; no intermediate value leaves 64 bits. */
  function Increment(c: Record, raw: U64): (n: U64)
    requires Valid(c)
  {
    var d := c.descriptor;
    if d.kind.Delta? then raw
    else if d.kind.Sampled? then 0
    else
      match Classify(c, d, raw)
      case Baseline => 0
      case Step => raw - c.lastRaw
      case Wrap => (WidthMax(d.width) - c.lastRaw) + raw + 1
      case Reset => 0
  }

  /** The record under a publication's descriptor: a changed one starts over. */
  function Described(c: Record, d: Descriptor): (b: Record)
    requires Valid(c)
    ensures Valid(b) && b.descriptor == d
  {
    if c.samples != 0 && c.descriptor != d
    then c.(descriptor := d, accumulated := 0, hasLast := false, saturated := false)
    else c.(descriptor := d)
  }

  predicate OutOfWidth(d: Descriptor, raw: U64)
  {
    Differenced(d.kind) && raw > WidthMax(d.width)
  }

  /** One counter publication; a reading beyond the declared width is refused after the descriptor
      has been taken over. */
  function Sample(c: Record, d: Descriptor, raw: U64): (r: (Record, Result<U64>))
    requires Valid(c)
    ensures Valid(r.0)
  {
    var b := Described(c, d);
    if OutOfWidth(d, raw) then (b, Err(OutOfRange)) else
    var n := Increment(b, raw);
    var sum := CheckedAdd(b.accumulated, n);
    var change := if Differenced(d.kind) then Classify(b, d, raw) else Baseline;
    (b.(hasLast := true, lastRaw := raw, samples := b.samples + 1,
        accumulated := sum.value, saturated := b.saturated || sum.overflowed,
        wraps := b.wraps + (if change.Wrap? then 1 else 0),
        resets := b.resets + (if change.Reset? then 1 else 0)), Ok(n))
  }

  /** A counter record as the runtime updates it. */
  class CounterRecord {
    var descriptor: Descriptor
    var hasLast: bool
    var lastRaw: U64
    var accumulated: U64
    var saturated: bool
    var samples: nat
    var resets: nat
    var wraps: nat

    ghost function View(): (c: Record)
      reads this
    {
      Record(descriptor, hasLast, lastRaw, accumulated, saturated, samples, resets, wraps)
    }

    constructor (c: Record)
      ensures View() == c
    {
      descriptor, hasLast, lastRaw, accumulated, saturated :=
        c.descriptor, c.hasLast, c.lastRaw, c.accumulated, c.saturated;
      samples, resets, wraps := c.samples, c.resets, c.wraps;
    }

    method Stored() returns (c: Record)
      ensures c == View()
    {
      c := Record(descriptor, hasLast, lastRaw, accumulated, saturated, samples, resets, wraps);
    }

    method Ingest(d: Descriptor, raw: U64) returns (result: Result<U64>)
      requires Valid(View())
      modifies this
      ensures (View(), result) == Sample(old(View()), d, raw)
    {
      if samples != 0 && descriptor != d {
        accumulated, hasLast, saturated := 0, false, false;
      }
      descriptor := d;
      var widthMax := WidthMax(d.width);
      if Differenced(d.kind) && raw > widthMax {
        return Err(OutOfRange);
      }
      var delta: U64 := 0;
      if d.kind.Delta? {
        delta := raw;
      } else if Differenced(d.kind) && hasLast {
        if raw >= lastRaw {
          delta := raw - lastRaw;
        } else if d.kind.Wrapping? && d.width < 64 && lastRaw - raw > widthMax / 2 {
          delta := (widthMax - lastRaw) + raw + 1;
          wraps := wraps + 1;
        } else {
          resets := resets + 1;
        }
      }
      hasLast, lastRaw, samples := true, raw, samples + 1;
      var sum := CheckedAdd(accumulated, delta);
      accumulated := sum.value;
      if sum.overflowed {
        saturated := true;
      }
      return Ok(delta);
    }
  }

  // ---- A run of readings under one descriptor --------------------------

  ghost function Samples(d: Descriptor, raws: seq<U64>): (c: Record)
    ensures Valid(c) && c.descriptor == d
  {
    if raws == [] then Unused(d) else
    var n := |raws| - 1;
    Sample(Samples(d, raws[..n]), d, raws[n]).0
  }

  /** The exact sum of all increments, never saturated. */
  ghost function Total(d: Descriptor, raws: seq<U64>): (t: nat)
  {
    if raws == [] then 0 else
    var n := |raws| - 1;
    Total(d, raws[..n]) + if OutOfWidth(d, raws[n]) then 0 else Increment(Samples(d, raws[..n]), raws[n])
  }

  /** The stored total is the exact sum cut off at 64 bits, and the flag says exactly when. */
  lemma {:induction false} StoredTotal(d: Descriptor, raws: seq<U64>)
    ensures Samples(d, raws).accumulated == Min(Total(d, raws), U64_MAX)
    ensures Samples(d, raws).saturated <==> Total(d, raws) > U64_MAX
  {
    if raws != [] {
      StoredTotal(d, raws[..|raws| - 1]);
    }
  }

  // ---- Wrapping counters -----------------------------------------------

  /** A source's true, never decreasing count at each reading. */
  ghost predicate Monotone(truth: seq<nat>)
  {
    forall i :: 0 < i < |truth| ==> truth[i - 1] <= truth[i]
  }

  /** What a reader of a counter with range `m` sees. */
  ghost function Readings(truth: seq<nat>, m: nat): (raws: seq<U64>)
    requires 1 <= m <= U64_MAX + 1
    ensures |raws| == |truth|
  {
    seq(|truth|, i requires 0 <= i < |truth| => truth[i] % m)
  }

  /** The step from `a` to `b` is read in full: less than a whole range, and at most half of it
      when it passes the top. */
  ghost predicate ReadInFull(a: nat, b: nat, m: nat)
    requires m >= 1 && a <= b
  {
    b - a < m && (a % m + (b - a) < m || b - a <= m / 2)
  }

  lemma ModStep(a: nat, b: nat, m: nat)
    requires a <= b && m >= 1
    ensures var e := (b - a) % m;
            b % m == (if a % m + e < m then a % m + e else a % m + e - m)
    ensures (b - a) % m <= b - a && ((b - a) % m == b - a <==> b - a < m)
  {
    var l, e := a % m, (b - a) % m;
    var q, k := a / m, (b - a) / m;
    assert a == q * m + l && b - a == k * m + e;
    assert b == (q + k) * m + (l + e) by { assert (q + k) * m == q * m + k * m; }
    if l + e < m {
      ModUnique(b, m, q + k, l + e);
    } else {
      assert b == (q + k + 1) * m + (l + e - m) by { assert (q + k + 1) * m == (q + k) * m + m; }
      ModUnique(b, m, q + k + 1, l + e - m);
    }
    assert k >= 0 && (k >= 1 ==> k * m >= m) by { if k >= 1 { MulMonotone(1, k, m); } }
  }

  /** One step of a wrapping counter never overstates, and is exact in exactly one case. */
  lemma WrapStep(c: Record, a: nat, b: nat)
    requires Valid(c) && c.hasLast && c.descriptor.kind.Wrapping? && 1 <= c.descriptor.width < 64
    requires a <= b
    requires var m := Pow2(c.descriptor.width); m == WidthMax(c.descriptor.width) + 1 && c.lastRaw == a % m
    ensures var m := Pow2(c.descriptor.width);
            && b % m <= U64_MAX && Increment(c, b % m) <= b - a
            && (Increment(c, b % m) == b - a <==> ReadInFull(a, b, m))
  {
    var m := Pow2(c.descriptor.width);
    assert m == 2 * Pow2(c.descriptor.width - 1);
    hide Pow2, WidthMax, Increment, Valid;
    ModStep(a, b, m);
    assert 0 <= a % m < m && 0 <= (b - a) % m < m && 0 <= b % m < m;
    WrapIncrement(c, Pow2(c.descriptor.width - 1), (b - a) % m, b % m);
  }

  /** A wrapping counter that advances by `e` counts `e`, unless it passes zero by less than half its range. */
  lemma WrapIncrement(c: Record, half: nat, e: nat, r: nat)
    requires Valid(c) && c.hasLast && c.descriptor.kind.Wrapping? && c.descriptor.width < 64
    requires WidthMax(c.descriptor.width) == 2 * half - 1 && c.lastRaw < 2 * half && e < 2 * half
    requires r == if c.lastRaw + e < 2 * half then c.lastRaw + e else c.lastRaw + e - 2 * half
    ensures r <= U64_MAX && Increment(c, r) == if c.lastRaw + e < 2 * half || e <= half then e else 0
  {
    hide WidthMax;
    assert WidthMax(c.descriptor.width) / 2 == half - 1;
  }

  ghost predicate AllReadInFull(truth: seq<nat>, m: nat)
    requires m >= 1 && Monotone(truth)
  {
    forall i :: 0 < i < |truth| ==> ReadInFull(truth[i - 1], truth[i], m)
  }

  /** In-order readings of a monotone source under kind Wrapping with a width below 64: the
      reconstructed total never exceeds the true increase, and equals it if and only if every step
      is read in full. */
  lemma {:induction false} WrappingReconstruction(d: Descriptor, truth: seq<nat>)
    requires d.kind.Wrapping? && 1 <= d.width < 64 && Monotone(truth) && truth != []
    ensures 1 <= Pow2(d.width) <= U64_MAX + 1
    ensures var m := Pow2(d.width);
            var total := Total(d, Readings(truth, m));
            && truth[0] + total <= truth[|truth| - 1]
            && (truth[0] + total == truth[|truth| - 1] <==> AllReadInFull(truth, m))
    ensures Samples(d, Readings(truth, Pow2(d.width))).hasLast
    ensures Samples(d, Readings(truth, Pow2(d.width))).lastRaw == truth[|truth| - 1] % Pow2(d.width)
    decreases |truth|
  {
    var m, n := WidthMax(d.width) + 1, |truth| - 1;
    assert m == Pow2(d.width);
    hide Pow2, WidthMax;
    var raws := Readings(truth, m);
    assert raws[n] == truth[n] % m;
    assert Readings(truth[..n], m) == raws[..n];
    if n == 0 {
      assert raws[..0] == [];
    } else {
      assert Monotone(truth[..n]);
      WrappingReconstruction(d, truth[..n]);
      WrapStep(Samples(d, raws[..n]), truth[n - 1], truth[n]);
      SplitReadInFull(truth, m);
    }
  }

  lemma SplitReadInFull(truth: seq<nat>, m: nat)
    requires m >= 1 && |truth| >= 2 && Monotone(truth) && Monotone(truth[..|truth| - 1])
    ensures var n := |truth| - 1;
            AllReadInFull(truth, m) <==> AllReadInFull(truth[..n], m) && ReadInFull(truth[n - 1], truth[n], m)
  {
    var n := |truth| - 1;
    assert forall i :: 0 <= i < n ==> truth[..n][i] == truth[i];
    hide ReadInFull;
  }

  /** Steps of at most half the range are always read in full. */
  lemma HalfRangeIsEnough(truth: seq<nat>, m: nat)
    requires m >= 2 && Monotone(truth)
    requires forall i :: 0 < i < |truth| ==> truth[i] - truth[i - 1] <= m / 2
    ensures AllReadInFull(truth, m)
  {}

  // ---- Counters that may restart from zero -----------------------------

  datatype Event = Add(n: nat) | Restart | Read

  /** A source: its current value, what it truly counted since the first accepted reading and since
      the last one, and every value read. */
  datatype Play = Play(value: nat, truth: nat, sinceRead: nat, raws: seq<U64>)

  ghost function PlayStep(p: Play, d: Descriptor, e: Event): (q: Play)
  {
    match e
    case Add(n) =>
      p.(value := p.value + n, sinceRead := p.sinceRead + n,
         truth := p.truth + (if Samples(d, p.raws).hasLast then n else 0))
    case Restart => p.(value := 0)
    case Read =>
      if p.value > U64_MAX then p
      else p.(raws := p.raws + [p.value], sinceRead := if OutOfWidth(d, p.value) then p.sinceRead else 0)
  }

  ghost function PlayAll(d: Descriptor, events: seq<Event>): (p: Play)
  {
    if events == [] then Play(0, 0, 0, [])
    else PlayStep(PlayAll(d, events[..|events| - 1]), d, events[|events| - 1])
  }

  /** Readings so far and traffic not yet read never exceed what was truly counted. */
  ghost predicate NotOverstated(d: Descriptor, p: Play)
  {
    var c := Samples(d, p.raws);
    if c.hasLast then Total(d, p.raws) + p.sinceRead <= p.truth && p.value <= c.lastRaw + p.sinceRead
    else Total(d, p.raws) == 0 && p.truth == 0
  }

  lemma ReadNotOverstated(d: Descriptor, p: Play)
    requires NotOverstated(d, p) && Differenced(d.kind) && (d.kind.Wrapping? ==> d.width >= 64)
    ensures NotOverstated(d, PlayStep(p, d, Read))
  {
    if p.value <= U64_MAX {
      var raws := p.raws + [p.value];
      assert raws[..|raws| - 1] == p.raws;
      assert !Classify(Samples(d, p.raws), d, p.value).Wrap?;
    }
  }

  /** For kinds that do not wrap, the reconstructed total never exceeds the true increments, even if
      the source restarts from zero at any point between readings. */
  lemma {:induction false} RestartsNeverOverstate(d: Descriptor, events: seq<Event>)
    requires Differenced(d.kind) && (d.kind.Wrapping? ==> d.width >= 64)
    ensures NotOverstated(d, PlayAll(d, events))
    ensures Total(d, PlayAll(d, events).raws) <= PlayAll(d, events).truth
  {
    if events != [] {
      var n := |events| - 1;
      RestartsNeverOverstate(d, events[..n]);
      if events[n].Read? { ReadNotOverstated(d, PlayAll(d, events[..n])); }
    }
  }

  // ---- Readings in any order of arrival --------------------------------

  ghost function Rises(raws: seq<U64>): (n: nat)
  {
    if |raws| < 2 then 0 else
    var k := |raws| - 1;
    Rises(raws[..k]) + if raws[k] > raws[k - 1] then raws[k] - raws[k - 1] else 0
  }

  ghost function Falls(raws: seq<U64>): (n: nat)
  {
    if |raws| < 2 then 0 else
    var k := |raws| - 1;
    Falls(raws[..k]) + if raws[k] < raws[k - 1] then raws[k - 1] - raws[k] else 0
  }

  ghost function Largest(raws: seq<U64>): (n: nat)
    requires raws != []
  {
    var k := |raws| - 1;
    if k == 0 then raws[0] else
    var m := Largest(raws[..k]);
    if raws[k] > m then raws[k] else m
  }

  ghost predicate FallAt(raws: seq<U64>, i: int)
  {
    0 < i < |raws| && raws[i] < raws[i - 1]
  }

  ghost predicate RiseAt(raws: seq<U64>, i: int)
  {
    0 < i < |raws| && raws[i] > raws[i - 1]
  }

  /** Once a reading is below the one before it, no later reading is above its predecessor. */
  ghost predicate NoRiseAfterFall(raws: seq<U64>)
  {
    forall i, j :: i < j && FallAt(raws, i) ==> !RiseAt(raws, j)
  }

  ghost predicate AllInWidth(d: Descriptor, raws: seq<U64>)
  {
    forall i :: 0 <= i < |raws| ==> raws[i] <= WidthMax(d.width)
  }

  lemma {:induction false} RisesAndFalls(raws: seq<U64>)
    requires raws != []
    ensures raws[0] + Rises(raws) == raws[|raws| - 1] + Falls(raws)
    ensures Falls(raws) == 0 <==> forall i :: !FallAt(raws, i)
    ensures forall i :: 0 <= i < |raws| ==> raws[i] <= Largest(raws)
  {
    if |raws| > 1 {
      var k := |raws| - 1;
      RisesAndFalls(raws[..k]);
      assert FallAt(raws, k) <==> raws[k] < raws[k - 1];
      FallsBefore(raws, k);
    }
  }

  lemma {:induction false} TotalIsRises(d: Descriptor, raws: seq<U64>)
    requires Differenced(d.kind) && (d.kind.Wrapping? ==> d.width >= 64) && raws != [] && AllInWidth(d, raws)
    ensures Total(d, raws) == Rises(raws)
    ensures Samples(d, raws).hasLast && Samples(d, raws).lastRaw == raws[|raws| - 1]
  {
    hide WidthMax;
    var k := |raws| - 1;
    if k == 0 {
      assert raws[..0] == [];
    } else {
      TotalIsRises(d, raws[..k]);
    }
  }

  lemma FallBlocksRise(raws: seq<U64>, k: nat)
    requires |raws| == k + 1 && k > 0
    ensures NoRiseAfterFall(raws) <==>
            NoRiseAfterFall(raws[..k]) && (raws[k] > raws[k - 1] ==> Falls(raws[..k]) == 0)
  {
    RisesAndFalls(raws[..k]);
    FallsBefore(raws, k);
    hide FallAt, RiseAt, Rises, Falls, Largest;
    assert RiseAt(raws, k) <==> raws[k] > raws[k - 1] by { RiseIs(raws, k); }
    if NoRiseAfterFall(raws[..k]) && (RiseAt(raws, k) ==> Falls(raws[..k]) == 0) {
      forall i, j | i < j && FallAt(raws, i)
        ensures !RiseAt(raws, j)
      {
        RiseIs(raws, j);
        RiseIs(raws, i);
        if j < k { assert FallAt(raws[..k], i) && !RiseAt(raws[..k], j); }
      }
    }
  }

  lemma RiseIs(raws: seq<U64>, i: int)
    ensures RiseAt(raws, i) <==> 0 < i < |raws| && raws[i] > raws[i - 1]
    ensures FallAt(raws, i) <==> 0 < i < |raws| && raws[i] < raws[i - 1]
  {}

  lemma FallsBefore(raws: seq<U64>, k: nat)
    requires |raws| == k + 1
    ensures forall i :: i < k ==> (FallAt(raws[..k], i) <==> FallAt(raws, i)) && (RiseAt(raws[..k], i) <==> RiseAt(raws, i))
    ensures forall i :: i >= k ==> !FallAt(raws[..k], i) && !RiseAt(raws[..k], i)
  {}

  /** However readings of a counter that does not wrap arrive, the total is the sum of the rises. Starting
      from the first reading it reaches at least the largest one, and exactly that if and only if no rise
      follows a fall. */
  lemma {:induction false} ArrivalOrder(d: Descriptor, raws: seq<U64>)
    requires Differenced(d.kind) && (d.kind.Wrapping? ==> d.width >= 64) && raws != [] && AllInWidth(d, raws)
    ensures Total(d, raws) == Rises(raws)
    ensures raws[0] + Total(d, raws) >= Largest(raws)
    ensures raws[0] + Total(d, raws) == Largest(raws) <==> NoRiseAfterFall(raws)
  {
    hide WidthMax, Total;
    TotalIsRises(d, raws);
    var k := |raws| - 1;
    if k > 0 {
      ArrivalOrder(d, raws[..k]);
      RisesAndFalls(raws[..k]);
      FallBlocksRise(raws, k);
    }
  }

  /** A reading that arrives late is taken for a reset and moves the baseline back, so the next one
      counts the difference a second time. */
  lemma LateReadingOvercounts(d: Descriptor, x: U64, y: U64, z: U64)
    requires Differenced(d.kind) && (d.kind.Wrapping? ==> d.width >= 64) && x < y <= z <= WidthMax(d.width)
    ensures Total(d, [y, x, z]) == z - x > z - y
  {
    hide WidthMax, Total;
    TotalIsRises(d, [y, x, z]);
    assert [y, x][..1] == [y];
    assert Rises([y, x]) == 0;
    assert [y, x, z][..2] == [y, x];
    assert Rises([y, x, z]) == z - x;
  }
}
