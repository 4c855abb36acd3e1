/** Ping-pong detection over one region's ownership samples (src/analysis.cpp:509-598). */
module PingPong {
  import opened Machine
  import opened Sorting

  /** An ownership-relevant sample; `from` and `to` are resource identities, empty when absent. */
  datatype Sample = Sample(ownership: bool, precision: nat, time: int, sequence: U64, from: string, to: string)

  datatype Policy = Policy(
    minPrecision: nat, minAlternations: nat, maxGap: int, window: int, minParticipants: nat)

  predicate Eligible(x: Sample, p: Policy)
  {
    x.ownership && x.precision >= p.minPrecision && x.from != "" && x.to != ""
  }

  function EligibleOf(samples: seq<Sample>, p: Policy): (r: seq<Sample>)
    ensures forall i :: 0 <= i < |r| ==> Eligible(r[i], p)
  {
    if samples == [] then []
    else (if Eligible(samples[0], p) then [samples[0]] else []) + EligibleOf(samples[1..], p)
  }

  predicate NotAfter(a: Sample, b: Sample)
  {
    a.time < b.time || (a.time == b.time && a.sequence <= b.sequence)
  }

  lemma Ordering()
    ensures TotalPreorder(NotAfter)
  {}

  /** The samples the scan works on: the eligible ones, in time order. */
  function Arranged(samples: seq<Sample>, p: Policy): (s: seq<Sample>)
  {
    Sort(EligibleOf(samples, p), NotAfter)
  }

  // ---- Runs ------------------------------------------------------------

  /** A transfer links to the previous one if it reverses it, and also if it repeats it. */
  predicate Linked(s: seq<Sample>, i: nat, maxGap: int)
    requires 0 < i < |s|
  {
    var a, b := s[i - 1], s[i];
    && ((a.from == b.to && a.to == b.from) || (a.from == b.from && a.to == b.to))
    && b.time - a.time <= maxGap
  }

  ghost predicate IsRun(s: seq<Sample>, start: nat, length: nat, maxGap: int)
  {
    1 <= length && start + length <= |s| && forall i :: start < i < start + length ==> Linked(s, i, maxGap)
  }

  /** A longest run of linked samples, and the earliest of those. */
  ghost predicate IsBest(s: seq<Sample>, start: nat, length: nat, maxGap: int)
  {
    && IsRun(s, start, length, maxGap)
    && (forall a: nat, n: nat :: IsRun(s, a, n, maxGap) ==> n < length || (n == length && start <= a))
  }

  /** The longest run seen so far: every run inside the first `i` samples is beaten, and the run that
      ends at sample `i - 1` cannot start before `current`. */
  ghost predicate BestUpTo(s: seq<Sample>, i: nat, start: nat, length: nat, current: nat, maxGap: int)
    requires i <= |s|
  {
    && (forall a: nat, n: nat :: IsRun(s, a, n, maxGap) && a + n <= i ==> n < length || (n == length && start <= a))
    && (forall a: nat, n: nat :: IsRun(s, a, n, maxGap) && a + n == i ==> current <= a)
  }

  lemma ExtendBest(s: seq<Sample>, i: nat, start: nat, length: nat, before: nat, current: nat, maxGap: int)
    requires i < |s| && BestUpTo(s, i, start, length, before, maxGap) && before <= i && start + length <= i
    requires current == if i == 0 || !Linked(s, i, maxGap) then i else before
    ensures var better := i - current + 1 > length;
            BestUpTo(s, i + 1, if better then current else start, if better then i - current + 1 else length, current, maxGap)
  {
    forall a: nat, n: nat | IsRun(s, a, n, maxGap) && a + n == i + 1
      ensures current <= a
    {
      if a < i {
        assert Linked(s, i, maxGap);
        assert IsRun(s, a, n - 1, maxGap);
      }
    }
  }

  method LongestRun(s: seq<Sample>, maxGap: int) returns (bestStart: nat, bestLength: nat)
    requires s != []
    ensures IsBest(s, bestStart, bestLength, maxGap)
  {
    bestStart, bestLength := 0, 0;
    var start := 0;
    for i := 0 to |s|
      invariant start <= i && (i > 0 ==> start < i && IsRun(s, start, i - start, maxGap))
      invariant bestStart + bestLength <= i
      invariant if i == 0 then bestLength == 0 else IsRun(s, bestStart, bestLength, maxGap)
      invariant BestUpTo(s, i, bestStart, bestLength, start, maxGap)
    {
      ghost var before := start;
      if i == 0 || !Linked(s, i, maxGap) {
        start := i;
      }
      ExtendBest(s, i, bestStart, bestLength, before, start, maxGap);
      var length := i - start + 1;
      assert IsRun(s, start, length, maxGap);
      if length > bestLength {
        bestLength := length;
        bestStart := start;
      }
    }
  }

  /** Every sample of a run joins the same two endpoints. */
  lemma {:induction false} SameEndpoints(s: seq<Sample>, start: nat, length: nat, maxGap: int, i: nat)
    requires IsRun(s, start, length, maxGap) && start <= i < start + length
    ensures {s[i].from, s[i].to} == {s[start].from, s[start].to}
    decreases i - start
  {
    if i > start {
      assert Linked(s, i, maxGap);
      SameEndpoints(s, start, length, maxGap, i - 1);
    }
  }

  // ---- Findings --------------------------------------------------------

  datatype Window = Window(start: nat, length: nat)

  ghost function Participants(s: seq<Sample>, w: Window): (r: set<string>)
    requires w.start + w.length <= |s|
  {
    (set i | w.start <= i < w.start + w.length :: s[i].from) + (set i | w.start <= i < w.start + w.length :: s[i].to)
  }

  /** `w` is the part of the best run that ends with it and lies within the policy's time window. */
  ghost predicate IsTail(s: seq<Sample>, start: nat, length: nat, window: int, w: Window)
    requires 1 <= length && start + length <= |s|
  {
    var end := start + length;
    && start <= w.start && w.start + w.length == end
    && (forall i :: w.start <= i < end ==> s[end - 1].time - s[i].time <= window)
    && (forall i :: start <= i < w.start ==> s[end - 1].time - s[i].time > window)
  }

  method TrimToWindow(s: seq<Sample>, start: nat, length: nat, window: int) returns (w: Window)
    requires SortedBy(s, NotAfter) && 1 <= length && start + length <= |s|
    ensures IsTail(s, start, length, window, w)
  {
    var end := start + length;
    var from := start;
    while from < end && s[end - 1].time - s[from].time > window
      invariant start <= from <= end
      invariant forall i :: start <= i < from ==> s[end - 1].time - s[i].time > window
    {
      from := from + 1;
    }
    RestIsQuick(s, start, length, window, from);
    w := Window(from, end - from);
  }

  /** In time order, whatever follows a sample within the window is within it too. */
  lemma RestIsQuick(s: seq<Sample>, start: nat, length: nat, window: int, from: nat)
    requires SortedBy(s, NotAfter) && 1 <= length && start <= from <= start + length <= |s|
    requires from < start + length ==> s[start + length - 1].time - s[from].time <= window
    ensures forall i :: from <= i < start + length ==> s[start + length - 1].time - s[i].time <= window
  {
    forall i | from <= i < start + length
      ensures s[start + length - 1].time - s[i].time <= window
    {
      if from < i { assert NotAfter(s[from], s[i]); }
    }
  }

  /** What a finding over these samples must satisfy; at most one window does. */
  ghost predicate Reported(s: seq<Sample>, p: Policy, w: Window)
  {
    exists start: nat, length: nat ::
      && IsBest(s, start, length, p.maxGap) && IsTail(s, start, length, p.window, w)
      && w.length >= p.minAlternations + 1 && |Participants(s, w)| >= p.minParticipants
  }

  method CollectParticipants(s: seq<Sample>, w: Window) returns (r: set<string>)
    requires w.start + w.length <= |s|
    ensures r == Participants(s, w)
  {
    r := {};
    for i := w.start to w.start + w.length
      invariant r == Participants(s, Window(w.start, i - w.start))
    {
      r := r + {s[i].from, s[i].to};
    }
  }

  method Detect(samples: seq<Sample>, p: Policy) returns (finding: Option<Window>)
    ensures var s := Arranged(samples, p);
            match finding
            case Some(w) => Reported(s, p, w)
            case None => |s| < 2 || forall w :: !Reported(s, p, w)
  {
    var s := Arranged(samples, p);
    Ordering();
    SortSorts(EligibleOf(samples, p), NotAfter);
    hide Sort, Arranged, EligibleOf, IsBest, Participants;
    if |s| < 2 {
      return None;
    }
    var bestStart, bestLength := LongestRun(s, p.maxGap);
    BestFits(s, bestStart, bestLength, p.maxGap);
    if bestLength < p.minAlternations + 1 {
      forall w ensures !Reported(s, p, w) { TooShort(s, p, bestStart, bestLength, w); }
      return None;
    }
    var v := TrimToWindow(s, bestStart, bestLength, p.window);
    hide SortedBy;
    if v.length < p.minAlternations + 1 {
      forall w ensures !Reported(s, p, w) { NoOtherTail(s, p, bestStart, bestLength, v, w); }
      return None;
    }
    var participants := CollectParticipants(s, v);
    if |participants| < p.minParticipants {
      forall w ensures !Reported(s, p, w) { NoOtherTail(s, p, bestStart, bestLength, v, w); }
      return None;
    }
    return Some(v);
  }

  lemma BestFits(s: seq<Sample>, start: nat, length: nat, maxGap: int)
    requires IsBest(s, start, length, maxGap)
    ensures 1 <= length && start + length <= |s|
  {}

  lemma BestUnique(s: seq<Sample>, a: nat, n: nat, b: nat, m: nat, maxGap: int)
    requires IsBest(s, a, n, maxGap) && IsBest(s, b, m, maxGap)
    ensures a == b && n == m
  {}

  lemma TailUnique(s: seq<Sample>, start: nat, length: nat, window: int, v: Window, w: Window)
    requires 1 <= length && start + length <= |s|
    requires IsTail(s, start, length, window, v) && IsTail(s, start, length, window, w)
    ensures v == w
  {
    var k := Min(v.start, w.start);
    if k < start + length {
      var earliest := s[k].time;
      assert v.start == w.start;
    }
  }

  lemma NoOtherTail(s: seq<Sample>, p: Policy, start: nat, length: nat, v: Window, w: Window)
    requires IsBest(s, start, length, p.maxGap) && IsTail(s, start, length, p.window, v)
    requires v.length < p.minAlternations + 1 || |Participants(s, v)| < p.minParticipants
    ensures !Reported(s, p, w)
  {
    if Reported(s, p, w) {
      var a: nat, n: nat :| IsBest(s, a, n, p.maxGap) && IsTail(s, a, n, p.window, w)
                            && w.length >= p.minAlternations + 1 && |Participants(s, w)| >= p.minParticipants;
      BestUnique(s, start, length, a, n, p.maxGap);
      TailUnique(s, start, length, p.window, v, w);
    }
  }

  lemma TooShort(s: seq<Sample>, p: Policy, start: nat, length: nat, w: Window)
    requires IsBest(s, start, length, p.maxGap) && length < p.minAlternations + 1
    ensures !Reported(s, p, w)
  {
    if Reported(s, p, w) {
      var a: nat, n: nat :| IsBest(s, a, n, p.maxGap) && IsTail(s, a, n, p.window, w) && w.length >= p.minAlternations + 1;
      BestUnique(s, start, length, a, n, p.maxGap);
    }
  }

  // ---- What a finding means --------------------------------------------

  /** A reported window is linked throughout, spans at most the policy window, holds enough samples,
      and has at most two participants. */
  lemma ReportedIsPingPong(samples: seq<Sample>, p: Policy, w: Window)
    requires Reported(Arranged(samples, p), p, w)
    ensures var s := Arranged(samples, p);
            && IsRun(s, w.start, w.length, p.maxGap)
            && w.length >= p.minAlternations + 1
            && s[w.start + w.length - 1].time - s[w.start].time <= p.window
            && p.minParticipants <= |Participants(s, w)| <= 2
            && Participants(s, w) == {s[w.start].from, s[w.start].to}
  {
    hide Arranged;
    var s := Arranged(samples, p);
    var start: nat, length: nat :| IsBest(s, start, length, p.maxGap) && IsTail(s, start, length, p.window, w)
                                   && w.length >= p.minAlternations + 1 && |Participants(s, w)| >= p.minParticipants;
    assert IsRun(s, w.start, w.length, p.maxGap);
    TwoParticipants(s, w, p.maxGap);
  }

  lemma TwoParticipants(s: seq<Sample>, w: Window, maxGap: int)
    requires IsRun(s, w.start, w.length, maxGap)
    ensures Participants(s, w) == {s[w.start].from, s[w.start].to}
  {
    forall i | w.start <= i < w.start + w.length
      ensures s[i].from in {s[w.start].from, s[w.start].to} && s[i].to in {s[w.start].from, s[w.start].to}
    {
      SameEndpoints(s, w.start, w.length, maxGap, i);
      assert s[i].from in {s[i].from, s[i].to} && s[i].to in {s[i].from, s[i].to};
    }
    assert s[w.start].from in Participants(s, w) && s[w.start].to in Participants(s, w);
  }

  /** A policy asking for more than two participants never reports anything. */
  lemma NeverMoreThanTwo(samples: seq<Sample>, p: Policy, w: Window)
    requires p.minParticipants > 2
    ensures !Reported(Arranged(samples, p), p, w)
  {
    if Reported(Arranged(samples, p), p, w) { ReportedIsPingPong(samples, p, w); }
  }

  // ---- Detection is not complete ---------------------------------------

  /** A run that meets every threshold of the policy by itself. */
  ghost predicate Qualifies(s: seq<Sample>, p: Policy, w: Window)
  {
    && IsRun(s, w.start, w.length, p.maxGap)
    && w.length >= p.minAlternations + 1
    && s[w.start + w.length - 1].time - s[w.start].time <= p.window
    && |Participants(s, w)| >= p.minParticipants
  }

  /** Whether the tail of a run that is just long enough lies within the policy's window. */
  ghost predicate TailIsQuick(s: seq<Sample>, p: Policy, start: nat, length: nat)
    requires start + length <= |s|
  {
    length >= p.minAlternations + 1 &&
    s[start + length - 1].time - s[start + length - 1 - p.minAlternations].time <= p.window
  }

  ghost predicate SomeReported(s: seq<Sample>, p: Policy)
  {
    exists w :: Reported(s, p, w)
  }

  lemma TailOf(s: seq<Sample>, start: nat, length: nat, window: int, from: nat) returns (w: Window)
    requires SortedBy(s, NotAfter) && 1 <= length && start <= from <= start + length <= |s|
    requires forall i :: start <= i < from ==> s[start + length - 1].time - s[i].time > window
    ensures IsTail(s, start, length, window, w)
    decreases start + length - from
  {
    if from < start + length && s[start + length - 1].time - s[from].time > window {
      w := TailOf(s, start, length, window, from + 1);
    } else {
      w := Window(from, start + length - from);
      RestIsQuick(s, start, length, window, from);
    }
  }

  /** The tail within the window is long enough exactly when its last `minAlternations + 1` samples fit. */
  lemma TailLength(s: seq<Sample>, p: Policy, start: nat, length: nat, w: Window)
    requires SortedBy(s, NotAfter) && 1 <= length && start + length <= |s| && IsTail(s, start, length, p.window, w)
    ensures w.length >= p.minAlternations + 1 <==> TailIsQuick(s, p, start, length)
  {
    var k := start + length - 1 - p.minAlternations;
    if start <= k && k < w.start {
      assert s[start + length - 1].time - s[k].time > p.window;
    }
  }

  /** Exactly when the scan reports: the longest run, the earliest of those, is long enough, its last
      samples are quick enough, and its two ends are enough participants. */
  lemma ReportedIff(s: seq<Sample>, p: Policy, start: nat, length: nat)
    requires SortedBy(s, NotAfter) && IsBest(s, start, length, p.maxGap)
    ensures SomeReported(s, p) <==>
            TailIsQuick(s, p, start, length) && |{s[start].from, s[start].to}| >= p.minParticipants
  {
    hide IsBest, SortedBy, Participants;
    BestFits(s, start, length, p.maxGap);
    BestIsRun(s, start, length, p.maxGap);
    var w := TailOf(s, start, length, p.window, start);
    TailLength(s, p, start, length, w);
    if w.length >= p.minAlternations + 1 {
      SubRun(s, start, length, w, p.maxGap);
      TwoParticipants(s, w, p.maxGap);
      SameEndpoints(s, start, length, p.maxGap, w.start);
      if |Participants(s, w)| >= p.minParticipants {
        assert Reported(s, p, w);
      } else {
        forall v ensures !Reported(s, p, v) { NoOtherTail(s, p, start, length, w, v); }
      }
    } else {
      forall v ensures !Reported(s, p, v) { NoOtherTail(s, p, start, length, w, v); }
    }
  }

  lemma BestIsRun(s: seq<Sample>, start: nat, length: nat, maxGap: int)
    requires IsBest(s, start, length, maxGap)
    ensures IsRun(s, start, length, maxGap)
    ensures forall a: nat, n: nat :: IsRun(s, a, n, maxGap) ==> n <= length
  {}

  lemma SubRun(s: seq<Sample>, start: nat, length: nat, w: Window, maxGap: int)
    requires IsRun(s, start, length, maxGap) && start <= w.start && w.start + w.length == start + length && w.length >= 1
    ensures IsRun(s, w.start, w.length, maxGap)
  {}

  /** Exactly when a run that meets every threshold goes unreported: the last samples of the longest run
      are too slow, or its ends are too few participants. */
  lemma MissedIff(s: seq<Sample>, p: Policy, start: nat, length: nat, w: Window)
    requires SortedBy(s, NotAfter) && IsBest(s, start, length, p.maxGap) && Qualifies(s, p, w)
    ensures length >= p.minAlternations + 1
    ensures !SomeReported(s, p) <==>
            || s[start + length - 1].time - s[start + length - 1 - p.minAlternations].time > p.window
            || |{s[start].from, s[start].to}| < p.minParticipants
  {
    hide IsBest, SortedBy, Participants, SomeReported;
    BestFits(s, start, length, p.maxGap);
    BestIsRun(s, start, length, p.maxGap);
    ReportedIff(s, p, start, length);
  }

  function At(time: int, from: string, to: string): (x: Sample)
  {
    Sample(true, 6, time, 0, from, to)
  }

  /** Only the tail of the longest run is examined: two quick alternations are missed when a longer
      but slower run follows. */
  lemma QuickPairMissed()
    ensures var s := [At(0, "a", "b"), At(1, "b", "a"), At(2, "c", "d"), At(7, "d", "c"), At(12, "c", "d")];
            var p := Policy(0, 1, 10, 1, 2);
            Qualifies(s, p, Window(0, 2)) && !SomeReported(s, p)
  {
    var s := [At(0, "a", "b"), At(1, "b", "a"), At(2, "c", "d"), At(7, "d", "c"), At(12, "c", "d")];
    var p := Policy(0, 1, 10, 1, 2);
    assert "a" != "b" by { assert "a"[0] != "b"[0]; }
    assert "a" != "c" && "a" != "d" by { assert "a"[0] != "c"[0]; assert "a"[0] != "d"[0]; }
    assert Linked(s, 1, 10) && !Linked(s, 2, 10) && Linked(s, 3, 10) && Linked(s, 4, 10);
    assert IsRun(s, 0, 2, 10);
    TwoParticipants(s, Window(0, 2), 10);
    assert IsBest(s, 2, 3, 10);
    assert IsTail(s, 2, 3, 1, Window(4, 1));
    forall w ensures !Reported(s, p, w) { NoOtherTail(s, p, 2, 3, Window(4, 1), w); }
  }
}
