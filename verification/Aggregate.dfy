/**
 Bounded exact aggregation (src/aggregate.cpp): ten dimensions of buckets, each
 a set of saturating totals with time span, weakest precision and reality.
 */
module Aggregate {
  import opened Machine
  import opened Observation

  // ---- Contributions ---------------------------------------------------

  datatype Metric =
    | Observations | Bytes | Lines | Pages | RegionsTouched | CounterDelta
    | RemoteAccesses | RemoteReads | RemoteWrites | OwnershipTransfers
    | Invalidations | Retries | Conflicts | Writebacks
    | OfPrecision(rank: nat) | OfProvenance(index: nat)

  const METRIC_COUNT: nat := 31

  /** Every 64-bit total a bucket keeps, in the order it is updated. */
  function MetricAt(k: nat): (m: Metric)
    requires k < METRIC_COUNT
  {
    if k < 14 then
      [Observations, Bytes, Lines, Pages, RegionsTouched, CounterDelta, RemoteAccesses, RemoteReads,
       RemoteWrites, OwnershipTransfers, Invalidations, Retries, Conflicts, Writebacks][k]
    else if k < 21 then OfPrecision(k - 14)
    else OfProvenance(k - 21)
  }

  datatype Contribution = Contribution(
    bytes: U64, lines: U64, pages: U64, regionsTouched: U64,
    remoteAccess: bool, remoteRead: bool, remoteWrite: bool, ownershipTransfer: bool,
    invalidation: bool, retry: bool, conflict: bool, writeback: bool,
    counterDelta: U64, timestamp: int, precision: Byte, provenance: Byte)

  function One(b: bool): (n: U64)
  {
    if b then 1 else 0
  }

  /** What a contribution adds to a total. */
  function Amount(c: Contribution, m: Metric): (n: U64)
  {
    match m
    case Observations => 1
    case Bytes => c.bytes
    case Lines => c.lines
    case Pages => c.pages
    case RegionsTouched => c.regionsTouched
    case CounterDelta => c.counterDelta
    case RemoteAccesses => One(c.remoteAccess)
    case RemoteReads => One(c.remoteRead)
    case RemoteWrites => One(c.remoteWrite)
    case OwnershipTransfers => One(c.ownershipTransfer)
    case Invalidations => One(c.invalidation)
    case Retries => One(c.retry)
    case Conflicts => One(c.conflict)
    case Writebacks => One(c.writeback)
    case OfPrecision(r) => One(PrecisionRank(c.precision) == r)
    case OfProvenance(i) => One(c.provenance == i)
  }

  predicate IsRemoteAccess(kind: Byte)
  {
    kind == REMOTE_READ || kind == REMOTE_WRITE || kind == REMOTE_ATOMIC
  }

  predicate Writes(direction: Byte)
  {
    direction == WRITE || direction == READ_MODIFY_WRITE || direction == ATOMIC
  }

  predicate ReachesRemote(o: Observation)
  {
    o.quality.localityDeclared && IsRemoteLocality(o.quality.locality)
  }

  function ContributionOf(o: Observation): (c: Contribution)
  {
    Contribution(
      o.effect.bytes, o.effect.lines, o.effect.pages, o.effect.regionCount,
      IsRemoteAccess(o.kind) || ReachesRemote(o),
      o.kind == REMOTE_READ || (ReachesRemote(o) && o.effect.direction == READ),
      o.kind == REMOTE_WRITE || o.kind == REMOTE_ATOMIC || (ReachesRemote(o) && Writes(o.effect.direction)),
      IsOwnershipEvent(o.kind),
      o.kind == INVALIDATION || o.kind == REGION_INVALIDATION,
      o.kind == COHERENCE_RETRY, o.kind == COHERENCE_CONFLICT, o.kind == WRITEBACK,
      if o.effect.counterDelta.Some? then o.effect.counterDelta.value else 0,
      o.origin.timestamp, o.quality.precision, o.quality.provenance)
  }

  // ---- Buckets ---------------------------------------------------------

  /** `totals[k]` is the total of `MetricAt(k)`; the first one counts observations. */
  datatype Bucket = Bucket(
    totals: seq<U64>,
    hasTimestamps: bool, first: int, last: int,
    saturated: bool, synthetic: bool, mixed: bool,
    weakest: Byte, hasObservations: bool)

  function Zeros(n: nat): (r: seq<U64>)
    ensures |r| == n && forall k :: 0 <= k < n ==> r[k] == 0
  {
    if n == 0 then [] else Zeros(n - 1) + [0]
  }

  /** A bucket nothing has been added to. */
  function Empty(): (b: Bucket)
  {
    Bucket(Zeros(METRIC_COUNT), false, 0, 0, false, false, false, EXACT_EVENT, false)
  }

  function Weakest(a: Byte, b: Byte): (p: Byte)
  {
    if PrecisionRank(a) <= PrecisionRank(b) then a else b
  }

  function BucketReality(b: Bucket): (r: Reality)
  {
    if b.mixed then Mixed else if b.synthetic then Synthetic else Real
  }

  ghost predicate Overflows(b: Bucket, c: Contribution, k: nat)
    requires k <= METRIC_COUNT == |b.totals|
  {
    exists i :: 0 <= i < k && b.totals[i] + Amount(c, MetricAt(i)) > U64_MAX
  }

  function AddedTotals(totals: seq<U64>, c: Contribution): (r: seq<U64>)
    requires |totals| == METRIC_COUNT
    ensures |r| == METRIC_COUNT
  {
    seq(METRIC_COUNT, k requires 0 <= k < METRIC_COUNT => CheckedAdd(totals[k], Amount(c, MetricAt(k))).value)
  }

  predicate Mixes(b: Bucket, r: Reality, several: bool)
  {
    match r
    case Mixed => true
    case Real => b.synthetic
    case Synthetic => !(b.synthetic && several) && b.hasObservations && several
  }

  /** The bucket after one more contribution. */
  ghost function Added(b: Bucket, c: Contribution): (r: Bucket)
    requires |b.totals| == METRIC_COUNT
    ensures |r.totals| == METRIC_COUNT
  {
    Bucket(
      AddedTotals(b.totals, c),
      true,
      if !b.hasTimestamps || c.timestamp < b.first then c.timestamp else b.first,
      if !b.hasTimestamps || c.timestamp > b.last then c.timestamp else b.last,
      b.saturated || Overflows(b, c, METRIC_COUNT),
      b.synthetic || RealityOf(c.provenance) != Real,
      b.mixed || Mixes(b, RealityOf(c.provenance), AddedTotals(b.totals, c)[0] > 1),
      if b.hasObservations then Weakest(b.weakest, c.precision) else c.precision,
      true)
  }

  method AddTotals(b: Bucket, c: Contribution) returns (totals: seq<U64>, overflowed: bool)
    requires |b.totals| == METRIC_COUNT
    ensures totals == AddedTotals(b.totals, c) && overflowed == Overflows(b, c, METRIC_COUNT)
  {
    hide Amount, MetricAt;
    totals, overflowed := [], false;
    for k := 0 to METRIC_COUNT
      invariant |totals| == k && forall i :: 0 <= i < k ==> totals[i] == AddedTotals(b.totals, c)[i]
      invariant overflowed == Overflows(b, c, k)
    {
      var sum := CheckedAdd(b.totals[k], Amount(c, MetricAt(k)));
      totals := totals + [sum.value];
      if sum.overflowed {
        overflowed := true;
      }
    }
  }

  /** Accumulation field by field, as the runtime does it. */
  method AddInPlace(b: Bucket, c: Contribution) returns (r: Bucket, overflowed: bool)
    requires |b.totals| == METRIC_COUNT
    ensures r == Added(b, c) && overflowed == Overflows(b, c, METRIC_COUNT)
  {
    hide Overflows, AddedTotals, RealityOf, PrecisionRank;
    var totals: seq<U64>;
    totals, overflowed := AddTotals(b, c);
    var first, last := b.first, b.last;
    if !b.hasTimestamps {
      first, last := c.timestamp, c.timestamp;
    } else {
      if c.timestamp < first {
        first := c.timestamp;
      }
      if c.timestamp > last {
        last := c.timestamp;
      }
    }
    var synthetic, mixed := b.synthetic, b.mixed;
    var reality := RealityOf(c.provenance);
    if reality.Synthetic? {
      if synthetic && totals[0] > 1 {
        // Already synthetic: nothing to mix.
      } else if b.hasObservations && totals[0] > 1 {
        mixed := true;
      }
      synthetic := true;
    } else if reality.Mixed? {
      mixed, synthetic := true, true;
    } else if synthetic {
      mixed := true;
    }
    var weakest := if !b.hasObservations then c.precision else Weakest(b.weakest, c.precision);
    r := Bucket(totals, true, first, last, b.saturated || overflowed, synthetic, mixed, weakest, true);
  }

  // ---- What a bucket means ---------------------------------------------

  ghost function Fold(cs: seq<Contribution>): (b: Bucket)
    ensures |b.totals| == METRIC_COUNT
  {
    if cs == [] then Empty() else Added(Fold(cs[..|cs| - 1]), cs[|cs| - 1])
  }

  ghost function Sum(cs: seq<Contribution>, m: Metric): (n: nat)
  {
    if cs == [] then 0 else Sum(cs[..|cs| - 1], m) + Amount(cs[|cs| - 1], m)
  }

  ghost predicate Some(cs: seq<Contribution>, r: Reality)
  {
    exists i :: 0 <= i < |cs| && RealityOf(cs[i].provenance) == r
  }

  ghost predicate TotalsMean(b: Bucket, cs: seq<Contribution>)
  {
    && |b.totals| == METRIC_COUNT
    && (forall k :: 0 <= k < METRIC_COUNT ==> b.totals[k] == Min(Sum(cs, MetricAt(k)), U64_MAX))
    && (b.saturated <==> exists k :: 0 <= k < METRIC_COUNT && Sum(cs, MetricAt(k)) > U64_MAX)
  }

  ghost predicate SpanMeans(b: Bucket, cs: seq<Contribution>)
  {
    && (b.hasTimestamps <==> cs != [])
    && (forall i :: 0 <= i < |cs| ==> b.first <= cs[i].timestamp <= b.last)
    && (if cs == [] then b.first == 0 && b.last == 0
        else (exists i :: 0 <= i < |cs| && cs[i].timestamp == b.first) && exists i :: 0 <= i < |cs| && cs[i].timestamp == b.last)
  }

  ghost predicate PrecisionMeans(b: Bucket, cs: seq<Contribution>)
  {
    && (b.hasObservations <==> cs != [])
    && (forall i :: 0 <= i < |cs| ==> PrecisionRank(b.weakest) <= PrecisionRank(cs[i].precision))
    && (if cs == [] then b.weakest == EXACT_EVENT else exists i :: 0 <= i < |cs| && cs[i].precision == b.weakest)
  }

  ghost predicate RealityMeans(b: Bucket, cs: seq<Contribution>)
  {
    && (b.synthetic <==> Some(cs, Synthetic) || Some(cs, Mixed))
    && (b.mixed <==> Some(cs, Mixed) || (Some(cs, Synthetic) && Some(cs, Real)))
  }

  /** Every field of a bucket, in terms of the contributions it received and not their order. */
  ghost predicate Means(b: Bucket, cs: seq<Contribution>)
  {
    TotalsMean(b, cs) && SpanMeans(b, cs) && PrecisionMeans(b, cs) && RealityMeans(b, cs)
  }

  lemma SumSnoc(cs: seq<Contribution>, c: Contribution, m: Metric)
    ensures Sum(cs + [c], m) == Sum(cs, m) + Amount(c, m)
  {
    assert (cs + [c])[..|cs + [c]| - 1] == cs;
  }

  lemma AddedTotalsMean(b: Bucket, cs: seq<Contribution>, c: Contribution)
    requires TotalsMean(b, cs)
    ensures TotalsMean(Added(b, c), cs + [c])
  {
    hide Amount, MetricAt, Sum;
    var r := Added(b, c);
    forall k | 0 <= k < METRIC_COUNT
      ensures r.totals[k] == Min(Sum(cs + [c], MetricAt(k)), U64_MAX)
      ensures Sum(cs + [c], MetricAt(k)) > U64_MAX <==>
              Sum(cs, MetricAt(k)) > U64_MAX || b.totals[k] + Amount(c, MetricAt(k)) > U64_MAX
    {
      SumSnoc(cs, c, MetricAt(k));
    }
  }

  lemma AddedSpanMeans(b: Bucket, cs: seq<Contribution>, c: Contribution)
    requires SpanMeans(b, cs) && |b.totals| == METRIC_COUNT
    ensures SpanMeans(Added(b, c), cs + [c])
  {
    hide AddedTotals, Overflows, RealityOf, PrecisionRank;
    var r, n := Added(b, c), |cs|;
    assert forall i :: 0 <= i < n ==> (cs + [c])[i] == cs[i];
    assert (cs + [c])[n] == c;
    if r.first != c.timestamp {
      var i :| 0 <= i < n && cs[i].timestamp == b.first;
      assert (cs + [c])[i].timestamp == r.first;
    }
    if r.last != c.timestamp {
      var i :| 0 <= i < n && cs[i].timestamp == b.last;
      assert (cs + [c])[i].timestamp == r.last;
    }
  }

  lemma AddedPrecisionMeans(b: Bucket, cs: seq<Contribution>, c: Contribution)
    requires PrecisionMeans(b, cs) && |b.totals| == METRIC_COUNT
    ensures PrecisionMeans(Added(b, c), cs + [c])
  {
    hide AddedTotals, Overflows, RealityOf, PrecisionRank;
    var r, n := Added(b, c), |cs|;
    assert forall i :: 0 <= i < n ==> (cs + [c])[i] == cs[i];
    assert (cs + [c])[n] == c;
    if r.weakest != c.precision {
      var i :| 0 <= i < n && cs[i].precision == b.weakest;
      assert (cs + [c])[i].precision == r.weakest;
    }
  }

  lemma SomeSnoc(cs: seq<Contribution>, c: Contribution, r: Reality)
    ensures Some(cs + [c], r) <==> Some(cs, r) || RealityOf(c.provenance) == r
  {
    hide RealityOf;
    var ds := cs + [c];
    assert ds[|cs|] == c;
    if Some(cs, r) {
      var i :| 0 <= i < |cs| && RealityOf(cs[i].provenance) == r;
      assert ds[i] == cs[i];
    }
  }

  /** Contributions exist exactly when the observation total is positive, so the runtime's test on
      that total tells a first contribution from a later one. */
  lemma AddedRealityMeans(b: Bucket, cs: seq<Contribution>, c: Contribution)
    requires RealityMeans(b, cs) && TotalsMean(b, cs) && PrecisionMeans(b, cs)
    ensures RealityMeans(Added(b, c), cs + [c])
  {
    SomeSnoc(cs, c, Real);
    SomeSnoc(cs, c, Synthetic);
    SomeSnoc(cs, c, Mixed);
    SomeReality(cs);
    ObservationsCounted(b, cs);
    hide Some, Overflows, RealityOf, PrecisionRank, TotalsMean, PrecisionMeans;
    assert Added(b, c).totals[0] > 1 <==> cs != [];
  }

  lemma SomeReality(cs: seq<Contribution>)
    ensures cs != [] <==> Some(cs, Real) || Some(cs, Synthetic) || Some(cs, Mixed)
  {
    hide RealityOf;
    if cs != [] { var r := RealityOf(cs[0].provenance); assert Some(cs, r); }
  }

  lemma {:induction false} SumObservations(cs: seq<Contribution>)
    ensures Sum(cs, Observations) == |cs|
  {
    if cs != [] { SumObservations(cs[..|cs| - 1]); }
  }

  lemma ObservationsCounted(b: Bucket, cs: seq<Contribution>)
    requires TotalsMean(b, cs) && PrecisionMeans(b, cs)
    ensures b.totals[0] == Min(|cs|, U64_MAX) && (b.hasObservations <==> cs != [])
  {
    assert MetricAt(0) == Observations;
    SumObservations(cs);
  }

  /** The incremental bucket is the order-free summary of everything added to it. */
  lemma {:induction false} FoldMeans(cs: seq<Contribution>)
    ensures Means(Fold(cs), cs)
  {
    hide Means, Added, Empty;
    if cs == [] {
      EmptyMeans();
    } else {
      var n := |cs| - 1;
      FoldMeans(cs[..n]);
      AddedMeans(Fold(cs[..n]), cs[..n], cs[n]);
      assert cs == cs[..n] + [cs[n]];
    }
  }

  lemma AddedMeans(b: Bucket, cs: seq<Contribution>, c: Contribution)
    requires Means(b, cs) && |b.totals| == METRIC_COUNT
    ensures Means(Added(b, c), cs + [c])
  {
    hide TotalsMean, SpanMeans, PrecisionMeans, RealityMeans, Added;
    AddedTotalsMean(b, cs, c);
    AddedSpanMeans(b, cs, c);
    AddedPrecisionMeans(b, cs, c);
    AddedRealityMeans(b, cs, c);
  }

  lemma EmptyMeans()
    ensures Means(Empty(), [])
  {
    hide MetricAt;
  }

  // ---- Consequences ----------------------------------------------------

  /** A bucket is REAL or SYNTHETIC exactly when every contribution is, and MIXED otherwise. */
  lemma RealityIsUnanimous(cs: seq<Contribution>)
    ensures var r := BucketReality(Fold(cs));
            && (r.Real? <==> forall i :: 0 <= i < |cs| ==> RealityOf(cs[i].provenance).Real?)
            && (r.Synthetic? <==> cs != [] && forall i :: 0 <= i < |cs| ==> RealityOf(cs[i].provenance).Synthetic?)
  {
    FoldMeans(cs);
    SomeReality(cs);
    hide Fold, RealityOf, TotalsMean, SpanMeans, PrecisionMeans;
  }

  lemma {:induction false} SumConcat(a: seq<Contribution>, b: seq<Contribution>, m: Metric)
    ensures Sum(a + b, m) == Sum(a, m) + Sum(b, m)
    decreases |b|
  {
    hide Amount;
    if b == [] {
      assert a + b == a;
    } else {
      assert (a + b)[..|a + b| - 1] == a + b[..|b| - 1];
      SumConcat(a, b[..|b| - 1], m);
    }
  }

  ghost function Without(b: seq<Contribution>, k: nat): (r: seq<Contribution>)
    requires k < |b|
  {
    b[..k] + b[k + 1..]
  }

  lemma WithoutElements(b: seq<Contribution>, k: nat)
    requires k < |b|
    ensures multiset(Without(b, k)) == multiset(b) - multiset{b[k]}
  {
    assert b == b[..k] + ([b[k]] + b[k + 1..]);
  }

  lemma SumWithout(b: seq<Contribution>, k: nat, m: Metric)
    requires k < |b|
    ensures Sum(b, m) == Sum(Without(b, k), m) + Amount(b[k], m)
  {
    hide Amount;
    assert b == b[..k] + ([b[k]] + b[k + 1..]);
    SumConcat(b[..k], b[k + 1..], m);
    SumConcat(b[..k], [b[k]] + b[k + 1..], m);
    SumConcat([b[k]], b[k + 1..], m);
    assert Sum([b[k]], m) == Sum([], m) + Amount(b[k], m) by { assert [b[k]][..0] == []; }
  }

  lemma {:induction false} SumPermuted(a: seq<Contribution>, b: seq<Contribution>, m: Metric)
    requires multiset(a) == multiset(b)
    ensures Sum(a, m) == Sum(b, m)
    decreases |a|
  {
    hide Amount, Without, Sum;
    assert |a| == |multiset(a)| == |multiset(b)| == |b|;
    if a != [] {
      var n := |a| - 1;
      assert a == a[..n] + [a[n]];
      var k := Occurs(a, b, n);
      WithoutElements(b, k);
      SumPermuted(a[..n], Without(b, k), m);
      SumSnoc(a[..n], a[n], m);
      SumWithout(b, k, m);
    }
  }

  ghost predicate ValidPrecisions(cs: seq<Contribution>)
  {
    forall i :: 0 <= i < |cs| ==> cs[i].precision < PRECISION_COUNT
  }

  lemma Occurs(a: seq<Contribution>, b: seq<Contribution>, i: nat) returns (j: nat)
    requires multiset(a) == multiset(b) && i < |a|
    ensures j < |b| && b[j] == a[i]
  {
    assert a[i] in multiset(b);
    j :| 0 <= j < |b| && b[j] == a[i];
  }

  lemma SpanDetermined(b: Bucket, cs: seq<Contribution>, r: Bucket, ds: seq<Contribution>)
    requires multiset(cs) == multiset(ds) && SpanMeans(b, cs) && SpanMeans(r, ds)
    ensures b.hasTimestamps == r.hasTimestamps && b.first >= r.first && b.last <= r.last
  {
    assert |cs| == |multiset(cs)| == |multiset(ds)| == |ds|;
    if cs != [] {
      var i :| 0 <= i < |cs| && cs[i].timestamp == b.first;
      var j := Occurs(cs, ds, i);
      var k :| 0 <= k < |cs| && cs[k].timestamp == b.last;
      var l := Occurs(cs, ds, k);
    }
  }

  lemma PrecisionDetermined(b: Bucket, cs: seq<Contribution>, r: Bucket, ds: seq<Contribution>)
    requires multiset(cs) == multiset(ds) && PrecisionMeans(b, cs) && PrecisionMeans(r, ds)
    requires ValidPrecisions(cs) && ValidPrecisions(ds)
    ensures b.hasObservations == r.hasObservations && b.weakest >= r.weakest
  {
    assert |cs| == |multiset(cs)| == |multiset(ds)| == |ds|;
    if cs != [] {
      var i :| 0 <= i < |cs| && cs[i].precision == b.weakest;
      var j := Occurs(cs, ds, i);
    }
  }

  lemma SomePermuted(cs: seq<Contribution>, ds: seq<Contribution>, r: Reality)
    requires multiset(cs) == multiset(ds) && Some(cs, r)
    ensures Some(ds, r)
  {
    var i :| 0 <= i < |cs| && RealityOf(cs[i].provenance) == r;
    var j := Occurs(cs, ds, i);
  }

  lemma TotalsDetermined(b: Bucket, cs: seq<Contribution>, r: Bucket, ds: seq<Contribution>)
    requires multiset(cs) == multiset(ds) && TotalsMean(b, cs) && TotalsMean(r, ds)
    ensures b.totals == r.totals && b.saturated == r.saturated
  {
    forall k | 0 <= k < METRIC_COUNT
      ensures Sum(cs, MetricAt(k)) == Sum(ds, MetricAt(k))
    {
      SumPermuted(cs, ds, MetricAt(k));
    }
    hide MetricAt, Sum;
  }

  /** Aggregation does not depend on the order of contributions, in any field. */
  lemma OrderIndependent(cs: seq<Contribution>, ds: seq<Contribution>)
    requires multiset(cs) == multiset(ds) && ValidPrecisions(cs) && ValidPrecisions(ds)
    ensures Fold(cs) == Fold(ds)
  {
    var b, r := Fold(cs), Fold(ds);
    FoldMeans(cs);
    FoldMeans(ds);
    hide Fold, TotalsMean, SpanMeans, PrecisionMeans, Some;
    TotalsDetermined(b, cs, r, ds);
    SpanDetermined(b, cs, r, ds);
    SpanDetermined(r, ds, b, cs);
    PrecisionDetermined(b, cs, r, ds);
    PrecisionDetermined(r, ds, b, cs);
    forall x: Reality
      ensures Some(cs, x) <==> Some(ds, x)
    {
      if Some(cs, x) { SomePermuted(cs, ds, x); }
      if Some(ds, x) { SomePermuted(ds, cs, x); }
    }
  }

  // ---- Relations between totals ----------------------------------------

  lemma {:induction false} SumAtMost(cs: seq<Contribution>, m: Metric, n: Metric)
    requires forall i :: 0 <= i < |cs| ==> Amount(cs[i], m) <= Amount(cs[i], n)
    ensures Sum(cs, m) <= Sum(cs, n)
  {
    hide Amount;
    if cs != [] { SumAtMost(cs[..|cs| - 1], m, n); }
  }

  ghost function Contributions(os: seq<Observation>): (cs: seq<Contribution>)
    ensures |cs| == |os|
  {
    seq(|os|, i requires 0 <= i < |os| => ContributionOf(os[i]))
  }

  /** Remote reads and remote writes are remote accesses, and those are observations. */
  lemma RemoteTotalsNest(os: seq<Observation>)
    ensures var cs := Contributions(os);
            && Sum(cs, RemoteReads) <= Sum(cs, RemoteAccesses) <= |os|
            && Sum(cs, RemoteWrites) <= Sum(cs, RemoteAccesses)
  {
    var cs := Contributions(os);
    forall i | 0 <= i < |cs|
      ensures Amount(cs[i], RemoteReads) <= Amount(cs[i], RemoteAccesses) <= Amount(cs[i], Observations)
      ensures Amount(cs[i], RemoteWrites) <= Amount(cs[i], RemoteAccesses)
    {
      assert cs[i] == ContributionOf(os[i]);
      assert cs[i].remoteRead || cs[i].remoteWrite ==> cs[i].remoteAccess;
    }
    SumAtMost(cs, RemoteReads, RemoteAccesses);
    SumAtMost(cs, RemoteWrites, RemoteAccesses);
    SumAtMost(cs, RemoteAccesses, Observations);
    SumObservations(cs);
  }

  ghost function SumOfPrecisions(cs: seq<Contribution>, ranks: nat): (n: nat)
  {
    if ranks == 0 then 0 else SumOfPrecisions(cs, ranks - 1) + Sum(cs, OfPrecision(ranks - 1))
  }

  lemma {:induction false} OnePrecision(c: Contribution, cs: seq<Contribution>, ranks: nat)
    ensures SumOfPrecisions(cs + [c], ranks) ==
            SumOfPrecisions(cs, ranks) + if PrecisionRank(c.precision) < ranks then 1 else 0
  {
    if ranks > 0 {
      OnePrecision(c, cs, ranks - 1);
      SumSnoc(cs, c, OfPrecision(ranks - 1));
    }
  }

  lemma {:induction false} NoPrecision(ranks: nat)
    ensures SumOfPrecisions([], ranks) == 0
  {
    if ranks > 0 { NoPrecision(ranks - 1); }
  }

  /** The per-precision counts of a bucket partition its observations. */
  lemma {:induction false} PrecisionsPartition(cs: seq<Contribution>)
    ensures SumOfPrecisions(cs, PRECISION_COUNT) == |cs|
  {
    if cs == [] {
      NoPrecision(PRECISION_COUNT);
    } else {
      var n := |cs| - 1;
      PrecisionsPartition(cs[..n]);
      OnePrecision(cs[n], cs[..n], PRECISION_COUNT);
      assert cs == cs[..n] + [cs[n]];
    }
  }
}
