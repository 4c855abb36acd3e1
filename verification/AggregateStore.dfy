/**
 The bounded aggregate store (src/aggregate.cpp:163-311): buckets keyed by
 dimension and value, refusing new keys once it is full.
 */
module AggregateStore {
  import opened Machine
  import opened Sums
  import opened Text
  import opened Observation
  import opened Aggregate

  const DIMENSION_COUNT: nat := 10

  // Dimensions.
  const EVENT_TYPE: nat := 0
  const DEVICE: nat := 1
  const DOMAIN: nat := 2
  const REGION: nat := 3
  const WORKLOAD: nat := 4
  const LOCALITY: nat := 5
  const TIME_BUCKET: nat := 6
  const PUBLISHER: nat := 7
  const COHERENCE: nat := 8
  const SOURCE_TARGET_PAIR: nat := 9

  const UNKNOWN: string := "unknown"

  datatype Key = Key(dimension: nat, value: string)

  function NameOr(name: Option<string>, otherwise: string): (s: string)
  {
    if name.Some? then name.value else otherwise
  }

  function IdOr(r: Option<ResourceRef>, otherwise: string): (s: string)
  {
    if r.Some? then r.value.id else otherwise
  }

  predicate IsMemoryDomain(r: Option<ResourceRef>)
  {
    r.Some? && r.value.kind == MEMORY_DOMAIN
  }

  /** The bucket value of an observation on one dimension. */
  function ValueText(o: Observation, dimension: nat, timeBucket: int): (s: string)
  {
    var j := o.subject;
    if dimension == EVENT_TYPE then EventName(o.kind)
    else if dimension == DEVICE then (if j.source.Some? then j.source.value.id else IdOr(j.target, UNKNOWN))
    else if dimension == DOMAIN then
      (if IsMemoryDomain(j.source) then j.source.value.id
       else if IsMemoryDomain(j.target) then j.target.value.id else UNKNOWN)
    else if dimension == REGION then NameOr(j.region, UNKNOWN)
    else if dimension == WORKLOAD then NameOr(j.workload, UNKNOWN)
    else if dimension == LOCALITY then
      (if !o.quality.localityDeclared || o.quality.locality == LOCALITY_UNKNOWN then UNKNOWN
       else LocalityName(o.quality.locality))
    else if dimension == TIME_BUCKET then
      (if timeBucket <= 0 || o.origin.timestamp < 0 then UNKNOWN else Decimal(o.origin.timestamp / timeBucket))
    else if dimension == PUBLISHER then (if o.origin.publisher == "" then UNKNOWN else o.origin.publisher)
    else if dimension == COHERENCE then NameOr(j.domain, UNKNOWN)
    else if dimension == SOURCE_TARGET_PAIR then IdOr(j.source, UNKNOWN) + "->" + IdOr(j.target, UNKNOWN)
    else UNKNOWN
  }

  // ---- Updates ---------------------------------------------------------

  datatype Update = Update(key: Key, c: Contribution)

  datatype Store = Store(buckets: map<Key, Bucket>, refused: nat, saturations: nat)

  const FRESH := Store(map[], 0, 0)

  ghost predicate WellFormed(s: Store)
  {
    forall k :: k in s.buckets ==> |s.buckets[k].totals| == METRIC_COUNT
  }

  ghost predicate Refuses(s: Store, cap: nat, key: Key)
  {
    key !in s.buckets && |s.buckets| >= cap
  }

  ghost function Stored(s: Store, cap: nat, u: Update): (t: Store)
    requires WellFormed(s)
    ensures WellFormed(t) && t.refused == s.refused + if Refuses(s, cap, u.key) then 1 else 0
  {
    if Refuses(s, cap, u.key) then s.(refused := s.refused + 1) else
    var b := if u.key in s.buckets then s.buckets[u.key] else Empty();
    Store(s.buckets[u.key := Added(b, u.c)], s.refused,
          s.saturations + if Overflows(b, u.c, METRIC_COUNT) then 1 else 0)
  }

  ghost function StoredFrom(s: Store, us: seq<Update>, cap: nat): (t: Store)
    requires WellFormed(s)
    ensures WellFormed(t) && t.refused >= s.refused
  {
    if us == [] then s else Stored(StoredFrom(s, us[..|us| - 1], cap), cap, us[|us| - 1])
  }

  ghost function StoredAll(log: seq<Update>, cap: nat): (s: Store)
    ensures WellFormed(s)
  {
    StoredFrom(FRESH, log, cap)
  }

  lemma {:induction false} StoredConcat(s: Store, a: seq<Update>, b: seq<Update>, cap: nat)
    requires WellFormed(s)
    ensures StoredFrom(StoredFrom(s, a, cap), b, cap) == StoredFrom(s, a + b, cap)
  {
    hide Stored;
    if b == [] {
      assert a + b == a;
    } else {
      var n := |b| - 1;
      StoredConcat(s, a, b[..n], cap);
      assert (a + b)[..|a + b| - 1] == a + b[..n];
    }
  }

  ghost predicate Unsaturated(s: Store)
  {
    forall k :: k in s.buckets ==> !s.buckets[k].saturated
  }

  // ---- The store refines its log ---------------------------------------

  /** Everything ever routed to a key, in order. */
  ghost function For(log: seq<Update>, key: Key): (cs: seq<Contribution>)
  {
    if log == [] then [] else
    var n := |log| - 1;
    For(log[..n], key) + if log[n].key == key then [log[n].c] else []
  }

  ghost function CountRefused(log: seq<Update>, kept: set<Key>): (n: nat)
  {
    if log == [] then 0 else
    var n := |log| - 1;
    CountRefused(log[..n], kept) + if log[n].key in kept then 0 else 1
  }

  ghost predicate Refines(s: Store, log: seq<Update>, cap: nat)
  {
    && |s.buckets| <= cap
    && (forall key :: key in s.buckets ==> s.buckets[key] == Fold(For(log, key)))
    && (forall i :: 0 <= i < |log| && log[i].key !in s.buckets ==> |s.buckets| == cap)
    && s.refused == CountRefused(log, s.buckets.Keys)
  }

  lemma {:induction false} ForAbsent(log: seq<Update>, key: Key)
    requires forall i :: 0 <= i < |log| ==> log[i].key != key
    ensures For(log, key) == []
  {
    if log != [] { ForAbsent(log[..|log| - 1], key); }
  }

  lemma {:induction false} NoneRefused(log: seq<Update>, kept: set<Key>)
    requires forall i :: 0 <= i < |log| ==> log[i].key in kept
    ensures CountRefused(log, kept) == 0
  {
    if log != [] { NoneRefused(log[..|log| - 1], kept); }
  }

  lemma ForSnoc(log: seq<Update>, u: Update, key: Key)
    ensures For(log + [u], key) == For(log, key) + if u.key == key then [u.c] else []
  {
    var all := log + [u];
    assert all[..|all| - 1] == log && all[|all| - 1] == u;
  }

  lemma CountRefusedSnoc(log: seq<Update>, u: Update, kept: set<Key>)
    ensures CountRefused(log + [u], kept) == CountRefused(log, kept) + if u.key in kept then 0 else 1
  {
    var all := log + [u];
    assert all[..|all| - 1] == log && all[|all| - 1] == u;
  }

  lemma FoldSnoc(cs: seq<Contribution>, c: Contribution)
    ensures Fold(cs + [c]) == Added(Fold(cs), c)
  {
    hide Added;
    var all := cs + [c];
    assert all[..|all| - 1] == cs && all[|all| - 1] == c;
  }

  lemma StoredOpens(s: Store, log: seq<Update>, cap: nat, u: Update)
    requires WellFormed(s) && Refines(s, log, cap)
    requires u.key !in s.buckets && |s.buckets| < cap
    ensures For(log, u.key) == []
    ensures s.refused == 0 == CountRefused(log, s.buckets.Keys + {u.key})
  {
    hide For, CountRefused, Fold;
    assert forall i :: 0 <= i < |log| ==> log[i].key in s.buckets;
    ForAbsent(log, u.key);
    NoneRefused(log, s.buckets.Keys);
    NoneRefused(log, s.buckets.Keys + {u.key});
  }

  lemma StoredRefines(s: Store, log: seq<Update>, cap: nat, u: Update)
    requires WellFormed(s) && Refines(s, log, cap)
    ensures Refines(Stored(s, cap, u), log + [u], cap)
  {
    hide For, CountRefused, Fold, Added, Overflows, Zeros;
    var t := Stored(s, cap, u);
    if !Refuses(s, cap, u.key) {
      assert t.buckets.Keys == s.buckets.Keys + {u.key};
      if u.key !in s.buckets {
        StoredOpens(s, log, cap, u);
        EmptyFold();
      } else {
        assert t.buckets.Keys == s.buckets.Keys;
      }
      FoldSnoc(For(log, u.key), u.c);
    }
    CountRefusedSnoc(log, u, t.buckets.Keys);
    forall key | key in t.buckets
      ensures t.buckets[key] == Fold(For(log + [u], key))
    {
      ForSnoc(log, u, key);
      assert For(log, key) + [] == For(log, key);
    }
  }

  lemma EmptyFold()
    ensures Fold([]) == Empty()
  {
    hide Added, Zeros;
  }

  /** Every bucket of a reachable store is the fold of everything routed to its key; keys once refused
      stay refused, and the refusal counter counts exactly their updates. */
  lemma {:induction false} StoreRefinesLog(log: seq<Update>, cap: nat)
    ensures Refines(StoredAll(log, cap), log, cap)
  {
    hide Stored, For, Fold, CountRefused;
    if log == [] {
      NoneRefused(log, {});
    } else {
      var n := |log| - 1;
      StoreRefinesLog(log[..n], cap);
      StoredRefines(StoredAll(log[..n], cap), log[..n], cap, log[n]);
      assert log == log[..n] + [log[n]];
    }
  }

  // ---- Conservation per dimension --------------------------------------

  /** What the store holds for one metric on one dimension. */
  ghost function HeldIn(buckets: map<Key, Bucket>, dimension: nat, metric: nat): (f: Key -> nat)
    requires metric < METRIC_COUNT
  {
    (k: Key) => if k in buckets && k.dimension == dimension && |buckets[k].totals| == METRIC_COUNT
         then buckets[k].totals[metric] else 0
  }

  ghost function RoutedIn(log: seq<Update>, dimension: nat): (f: Key -> nat)
  {
    (k: Key) => if k.dimension == dimension then |For(log, k)| else 0
  }

  ghost function CountIn(log: seq<Update>, dimension: nat): (n: nat)
  {
    if log == [] then 0 else
    CountIn(log[..|log| - 1], dimension) + if log[|log| - 1].key.dimension == dimension then 1 else 0
  }

  /** Updates of one dimension whose key the store does not hold. */
  ghost function RefusedIn(log: seq<Update>, dimension: nat, kept: set<Key>): (n: nat)
  {
    if log == [] then 0 else
    var u := log[|log| - 1];
    RefusedIn(log[..|log| - 1], dimension, kept) + if u.key.dimension == dimension && u.key !in kept then 1 else 0
  }

  lemma {:induction false} RoutedStep(log: seq<Update>, u: Update, dimension: nat, kept: set<Key>)
    ensures SumOver(kept, RoutedIn(log + [u], dimension)) ==
            SumOver(kept, RoutedIn(log, dimension)) + if u.key.dimension == dimension && u.key in kept then 1 else 0
  {
    hide For;
    var f, g := RoutedIn(log + [u], dimension), RoutedIn(log, dimension);
    forall k
      ensures f(k) == g(k) + if u.key == k && u.key.dimension == dimension then 1 else 0
    {
      ForSnoc(log, u, k);
    }
    if u.key in kept {
      SumOverRemove(kept, f, u.key);
      SumOverRemove(kept, g, u.key);
      SumOverAgrees(kept - {u.key}, f, g);
    } else {
      SumOverAgrees(kept, f, g);
    }
  }

  lemma {:induction false} RoutedPartition(log: seq<Update>, dimension: nat, kept: set<Key>)
    ensures SumOver(kept, RoutedIn(log, dimension)) + RefusedIn(log, dimension, kept) == CountIn(log, dimension)
  {
    if log == [] {
      SumOverZero(kept, RoutedIn(log, dimension));
    } else {
      var n := |log| - 1;
      RoutedPartition(log[..n], dimension, kept);
      RoutedStep(log[..n], log[n], dimension, kept);
      assert log[..n] + [log[n]] == log;
    }
  }

  lemma {:induction false} ForAtMost(log: seq<Update>, key: Key)
    ensures |For(log, key)| <= CountIn(log, key.dimension)
  {
    if log != [] { ForAtMost(log[..|log| - 1], key); }
  }

  lemma FoldCounts(cs: seq<Contribution>)
    requires |cs| <= U64_MAX || !Fold(cs).saturated
    ensures Fold(cs).totals[0] == |cs|
  {
    hide Fold, Zeros;
    FoldMeans(cs);
    SumObservations(cs);
    assert MetricAt(0) == Observations;
  }

  /** Observations held plus updates refused are the updates made, dimension by dimension. */
  lemma Conservation(log: seq<Update>, cap: nat, dimension: nat)
    requires CountIn(log, dimension) <= U64_MAX || Unsaturated(StoredAll(log, cap))
    ensures var s := StoredAll(log, cap);
            SumOver(s.buckets.Keys, HeldIn(s.buckets, dimension, 0)) + RefusedIn(log, dimension, s.buckets.Keys) ==
            CountIn(log, dimension)
  {
    hide StoredAll, For, Fold, CountRefused;
    var s := StoredAll(log, cap);
    StoreRefinesLog(log, cap);
    forall k | k in s.buckets
      ensures HeldIn(s.buckets, dimension, 0)(k) == RoutedIn(log, dimension)(k)
    {
      if k.dimension == dimension {
        ForAtMost(log, k);
        FoldCounts(For(log, k));
      }
    }
    SumOverAgrees(s.buckets.Keys, HeldIn(s.buckets, dimension, 0), RoutedIn(log, dimension));
    RoutedPartition(log, dimension, s.buckets.Keys);
  }

  // ---- One observation feeds every dimension ---------------------------

  ghost function UpdatesUpTo(o: Observation, timeBucket: int, n: nat): (us: seq<Update>)
  {
    if n == 0 then [] else
    UpdatesUpTo(o, timeBucket, n - 1) + [Update(Key(n - 1, ValueText(o, n - 1, timeBucket)), ContributionOf(o))]
  }

  /** The updates a run of counted observations makes, in order. */
  ghost function UpdatesOf(os: seq<Observation>, timeBucket: int): (us: seq<Update>)
  {
    if os == [] then [] else
    UpdatesOf(os[..|os| - 1], timeBucket) + UpdatesUpTo(os[|os| - 1], timeBucket, DIMENSION_COUNT)
  }

  lemma {:induction false} CountInConcat(a: seq<Update>, b: seq<Update>, dimension: nat)
    ensures CountIn(a + b, dimension) == CountIn(a, dimension) + CountIn(b, dimension)
  {
    if b == [] {
      assert a + b == a;
    } else {
      var n := |b| - 1;
      CountInConcat(a, b[..n], dimension);
      assert (a + b)[..|a + b| - 1] == a + b[..n];
    }
  }

  lemma {:induction false} OnePerDimension(o: Observation, timeBucket: int, n: nat, dimension: nat)
    ensures |UpdatesUpTo(o, timeBucket, n)| == n
    ensures CountIn(UpdatesUpTo(o, timeBucket, n), dimension) == if dimension < n then 1 else 0
  {
    hide ValueText, ContributionOf;
    if n > 0 {
      OnePerDimension(o, timeBucket, n - 1, dimension);
      var us := UpdatesUpTo(o, timeBucket, n);
      assert us[..n - 1] == UpdatesUpTo(o, timeBucket, n - 1);
    }
  }

  lemma {:induction false} EachDimensionCountsAll(os: seq<Observation>, timeBucket: int, dimension: nat)
    requires dimension < DIMENSION_COUNT
    ensures |UpdatesOf(os, timeBucket)| == DIMENSION_COUNT * |os|
    ensures CountIn(UpdatesOf(os, timeBucket), dimension) == |os|
  {
    hide UpdatesUpTo;
    if os != [] {
      var n := |os| - 1;
      EachDimensionCountsAll(os[..n], timeBucket, dimension);
      OnePerDimension(os[n], timeBucket, DIMENSION_COUNT, dimension);
      CountInConcat(UpdatesOf(os[..n], timeBucket), UpdatesUpTo(os[n], timeBucket, DIMENSION_COUNT), dimension);
    }
  }

  lemma {:induction false} RefusedInAtMost(log: seq<Update>, dimension: nat, kept: set<Key>)
    ensures RefusedIn(log, dimension, kept) <= CountRefused(log, kept)
  {
    if log != [] { RefusedInAtMost(log[..|log| - 1], dimension, kept); }
  }

  /** On every one of the ten dimensions the observations held and refused add up to the observations
      counted, so the dimensions agree when nothing was refused. */
  lemma DimensionsAgree(os: seq<Observation>, timeBucket: int, cap: nat, dimension: nat)
    requires dimension < DIMENSION_COUNT
    requires |os| <= U64_MAX || Unsaturated(StoredAll(UpdatesOf(os, timeBucket), cap))
    ensures var log := UpdatesOf(os, timeBucket);
            var s := StoredAll(log, cap);
            var held := SumOver(s.buckets.Keys, HeldIn(s.buckets, dimension, 0));
            && held + RefusedIn(log, dimension, s.buckets.Keys) == |os|
            && (s.refused == 0 ==> held == |os|)
  {
    hide StoredAll, CountRefused, RefusedIn, UpdatesOf, CountIn;
    var log := UpdatesOf(os, timeBucket);
    EachDimensionCountsAll(os, timeBucket, dimension);
    Conservation(log, cap, dimension);
    StoreRefinesLog(log, cap);
    RefusedInAtMost(log, dimension, StoredAll(log, cap).buckets.Keys);
  }

  // ---- The store itself ------------------------------------------------

  class Aggregates {
    const cap: nat
    var buckets: map<Key, Bucket>
    var refused: nat
    var saturations: nat

    constructor (cap: nat)
      ensures View() == FRESH && this.cap == cap
    {
      this.cap := cap;
      buckets, refused, saturations := map[], 0, 0;
    }

    ghost function View(): (s: Store)
      reads this
    {
      Store(buckets, refused, saturations)
    }

    method Accumulate(key: Key, c: Contribution) returns (ok: bool)
      requires WellFormed(View())
      modifies this
      ensures View() == Stored(old(View()), cap, Update(key, c))
      ensures WellFormed(View())
      ensures ok == !Refuses(old(View()), cap, key)
    {
      hide Added, Overflows, Zeros;
      if key !in buckets && |buckets| >= cap {
        refused := refused + 1;
        return false;
      }
      var bucket := if key in buckets then buckets[key] else Empty();
      var sum, overflowed := AddInPlace(bucket, c);
      buckets := buckets[key := sum];
      if overflowed {
        saturations := saturations + 1;
      }
      return true;
    }

    /** Saturating total of one metric over a dimension, stopping at the first overflow. */
    method TotalIn(dimension: nat, metric: nat) returns (total: U64)
      requires WellFormed(View()) && metric < METRIC_COUNT
      ensures total == Min(U64_MAX, SumOver(buckets.Keys, HeldIn(buckets, dimension, metric)))
    {
      hide SumOver;
      var rest := buckets.Keys;
      ghost var f := HeldIn(buckets, dimension, metric);
      total := 0;
      while rest != {}
        invariant rest <= buckets.Keys
        invariant total + SumOver(rest, f) == SumOver(buckets.Keys, f)
        decreases |rest|
      {
        var key :| key in rest;
        SumOverRemove(rest, f, key);
        rest := rest - {key};
        if key.dimension == dimension {
          var sum := CheckedAdd(total, buckets[key].totals[metric]);
          total := sum.value;
          if sum.overflowed {
            return;
          }
        }
      }
      SumOverZero({}, f);
    }
  }
}
