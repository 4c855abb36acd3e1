/** The invalidation-burst scan of src/analysis.cpp:902-936. */
module Burst {
  import opened Sorting

  function AtMost(a: int, b: int): (r: bool)
  {
    a <= b
  }

  /** How many timestamps fall into the closed interval from `lo` to `hi`. */
  ghost function CountIn(ts: seq<int>, lo: int, hi: int): (n: nat)
    ensures n <= |ts|
  {
    if ts == [] then 0 else (if lo <= ts[0] <= hi then 1 else 0) + CountIn(ts[1..], lo, hi)
  }

  lemma {:induction false} CountConcat(a: seq<int>, b: seq<int>, lo: int, hi: int)
    ensures CountIn(a + b, lo, hi) == CountIn(a, lo, hi) + CountIn(b, lo, hi)
  {
    if a == [] {
      assert a + b == b;
    } else {
      assert (a + b)[1..] == a[1..] + b;
      CountConcat(a[1..], b, lo, hi);
    }
  }

  lemma {:induction false} CountNone(ts: seq<int>, lo: int, hi: int)
    requires forall k :: 0 <= k < |ts| ==> ts[k] < lo || hi < ts[k]
    ensures CountIn(ts, lo, hi) == 0
  {
    if ts != [] { CountNone(ts[1..], lo, hi); }
  }

  lemma {:induction false} CountAll(ts: seq<int>, lo: int, hi: int)
    requires forall k :: 0 <= k < |ts| ==> lo <= ts[k] <= hi
    ensures CountIn(ts, lo, hi) == |ts|
  {
    if ts != [] { CountAll(ts[1..], lo, hi); }
  }

  lemma {:induction false} CountInsert(x: int, s: seq<int>, lo: int, hi: int)
    ensures CountIn(Insert(x, s, AtMost), lo, hi) == CountIn([x] + s, lo, hi)
  {
    if s == [] || x <= s[0] {
    } else {
      CountInsert(x, s[1..], lo, hi);
      assert ([x] + s[1..])[1..] == s[1..] && ([x] + s)[1..] == s;
    }
  }

  lemma {:induction false} CountSorted(ts: seq<int>, lo: int, hi: int)
    ensures CountIn(Sort(ts, AtMost), lo, hi) == CountIn(ts, lo, hi)
  {
    if ts != [] {
      CountSorted(ts[1..], lo, hi);
      CountInsert(ts[0], Sort(ts[1..], AtMost), lo, hi);
      assert ([ts[0]] + Sort(ts[1..], AtMost))[1..] == Sort(ts[1..], AtMost);
    }
  }

  /** Only the slice between a part that is too early and a part that is too late can count. */
  lemma CountSlice(s: seq<int>, a: nat, b: nat, lo: int, hi: int)
    requires a <= b <= |s|
    requires forall k :: 0 <= k < a ==> s[k] < lo
    requires forall k :: b <= k < |s| ==> s[k] > hi
    ensures CountIn(s, lo, hi) == CountIn(s[a..b], lo, hi) <= b - a
  {
    assert s == s[..a] + s[a..b] + s[b..];
    CountConcat(s[..a] + s[a..b], s[b..], lo, hi);
    CountConcat(s[..a], s[a..b], lo, hi);
    CountNone(s[..a], lo, hi);
    CountNone(s[b..], lo, hi);
  }

  lemma CountAtLeast(s: seq<int>, a: nat, b: nat, lo: int, hi: int)
    requires a <= b <= |s| && forall k :: a <= k < b ==> lo <= s[k] <= hi
    ensures CountIn(s, lo, hi) >= b - a
  {
    assert s == s[..a] + s[a..b] + s[b..];
    CountConcat(s[..a] + s[a..b], s[b..], lo, hi);
    CountConcat(s[..a], s[a..b], lo, hi);
    CountAll(s[a..b], lo, hi);
  }

  /** How many timestamps a closed window starting at `lo` holds. */
  ghost function Held(ts: seq<int>, lo: int, window: int): (n: nat)
  {
    CountIn(ts, lo, lo + window)
  }

  ghost predicate Bounds(ts: seq<int>, window: int, max: nat)
  {
    forall lo :: Held(ts, lo, window) <= max
  }

  /** `max` is the largest number of timestamps in any closed window of this length. */
  ghost predicate IsMaxHeld(ts: seq<int>, window: int, max: nat)
  {
    Bounds(ts, window, max) && exists lo :: Held(ts, lo, window) == max
  }

  lemma ScanWindow(s: seq<int>, window: int, i: nat, start: nat, max: nat, lo: int)
    requires start <= i < |s| && Bounds(s[..i], window, max)
    requires forall k :: 0 <= k < start ==> s[i] - s[k] > window
    ensures Held(s[..i + 1], lo, window) <= if i - start + 1 > max then i - start + 1 else max
  {
    var p := s[..i + 1];
    if lo <= s[i] <= lo + window {
      CountSlice(p, start, i + 1, lo, lo + window);
    } else {
      assert p == s[..i] + [s[i]];
      CountConcat(s[..i], [s[i]], lo, lo + window);
      CountNone([s[i]], lo, lo + window);
      assert Held(s[..i], lo, window) <= max;
    }
  }

  /** Extending the scanned prefix by one element: the best window either ends at it, and then
      holds exactly the elements from `start`, or was already counted. */
  lemma ScanOne(s: seq<int>, window: int, i: nat, start: nat, max: nat)
    requires SortedBy(s, AtMost) && start <= i < |s| && Bounds(s[..i], window, max)
    requires forall k :: 0 <= k < start ==> s[i] - s[k] > window
    requires s[i] - s[start] <= window
    ensures Bounds(s[..i + 1], window, if i - start + 1 > max then i - start + 1 else max)
    ensures Held(s[..i + 1], s[i] - window, window) >= i - start + 1
  {
    var p := s[..i + 1];
    var bound := if i - start + 1 > max then i - start + 1 else max;
    forall lo
      ensures Held(p, lo, window) <= bound
    {
      ScanWindow(s, window, i, start, max, lo);
    }
    forall k | start <= k < i + 1
      ensures s[i] - window <= p[k] <= s[i]
    {
      if k < i { assert AtMost(s[k], s[i]); }
      if start < k { assert AtMost(s[start], s[k]); }
    }
    CountAtLeast(p, start, i + 1, s[i] - window, s[i]);
  }

  lemma Ordering()
    ensures TotalPreorder(AtMost)
  {}

  lemma CountGrows(s: seq<int>, i: nat, lo: int, window: int)
    requires i < |s|
    ensures Held(s[..i + 1], lo, window) >= Held(s[..i], lo, window)
  {
    assert s[..i + 1] == s[..i] + [s[i]];
    CountConcat(s[..i], [s[i]], lo, lo + window);
  }

  lemma MaxOfSorted(ts: seq<int>, window: int, max: nat, best: int)
    requires Bounds(Sort(ts, AtMost), window, max) && Held(Sort(ts, AtMost), best, window) >= max
    ensures IsMaxHeld(ts, window, max)
  {
    forall lo
      ensures Held(ts, lo, window) <= max
    {
      CountSorted(ts, lo, lo + window);
      assert Held(Sort(ts, AtMost), lo, window) <= max;
    }
    CountSorted(ts, best, best + window);
    assert Held(ts, best, window) == max;
  }

  /** The scan over one group of invalidations: `maxBurst` is exact, and a burst is counted exactly
      when it reaches the threshold. A negative window would run past the end of the group. */
  method BurstScan(timestamps: seq<int>, window: int, threshold: nat) returns (burstCount: nat, maxBurst: nat)
    requires window >= 0
    ensures IsMaxHeld(timestamps, window, maxBurst)
    ensures threshold >= 1 ==> (burstCount > 0 <==> maxBurst >= threshold)
  {
    hide Held, CountIn, Sort;
    var s := Sort(timestamps, AtMost);
    Ordering();
    SortSorts(timestamps, AtMost);
    burstCount, maxBurst := 0, 0;
    var start := 0;
    ghost var best := 0;
    NothingHeld(s, window);
    for i := 0 to |s|
      invariant 0 <= start <= i && i - start <= maxBurst
      invariant i > 0 ==> start < i && forall k :: 0 <= k < start ==> s[i - 1] - s[k] > window
      invariant Bounds(s[..i], window, maxBurst) && Held(s[..i], best, window) >= maxBurst
      invariant threshold >= 1 ==> (burstCount > 0 <==> maxBurst >= threshold)
    {
      assert i > 0 ==> AtMost(s[i - 1], s[i]);
      while s[i] - s[start] > window
        invariant start <= i && i - start <= maxBurst
        invariant forall k :: 0 <= k < start ==> s[i] - s[k] > window
        decreases i - start
      {
        start := start + 1;
      }
      var size := i - start + 1;
      ScanOne(s, window, i, start, maxBurst);
      CountGrows(s, i, best, window);
      if size >= threshold {
        if size == threshold || (i > 0 && s[i] != s[i - 1]) {
          burstCount := burstCount + 1;
        }
      }
      if size > maxBurst {
        maxBurst := size;
        best := s[i] - window;
      }
    }
    assert s[..|s|] == s;
    MaxOfSorted(timestamps, window, maxBurst, best);
  }

  lemma NothingHeld(s: seq<int>, window: int)
    ensures Bounds(s[..0], window, 0)
  {
    assert s[..0] == [];
  }
}
