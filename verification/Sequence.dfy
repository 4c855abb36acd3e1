/**
 The sequence space of one publisher boot (src/observatory.cpp:86-170): a high
 watermark, a bounded window of accepted sequences with their content hashes,
 and a bounded memory of event identities.

 The window size is a parameter `w`; the runtime uses 4096 for both bounds.
 */
module Sequence {
  import opened Machine
  import opened Retention

  /** Sequences are non-zero: structural validation refuses zero before any accounting. */
  type SeqNo = x: nat | 1 <= x <= U64_MAX witness 1

  datatype BootSequence = BootSequence(
    hasWatermark: bool,
    high: U64,
    durable: bool,
    window: map<SeqNo, U64>,
    order: seq<SeqNo>,
    recentIds: map<U64, U64>,
    recentOrder: seq<U64>,
    accepted: nat,
    late: nat,
    missing: nat)

  datatype Disposition = Accepted | AcceptedLate | Replayed | Rejected

  datatype Decision = Decision(disposition: Disposition, code: Option<ErrorCode>, missing: nat)

  predicate Mutates(d: Decision)
  {
    d.disposition.Accepted? || d.disposition.AcceptedLate?
  }

  /** Per-boot sequence semantics; only reads the boot's state. */
  function Account(p: BootSequence, w: nat, s: SeqNo, hash: U64): (d: Decision)
  {
    if !p.hasWatermark then Decision(Accepted, None, 0)
    else if p.durable && s <= p.high then Decision(Rejected, Some(StaleSequence), 0)
    else if s > p.high then Decision(Accepted, None, s - p.high - 1)
    else if s in p.window then
      if p.window[s] == hash then Decision(Replayed, Some(Duplicate), 0)
      else Decision(Rejected, Some(Conflict), 0)
    else if p.high >= w && s <= p.high - w then Decision(Rejected, Some(StaleSequence), 0)
    else Decision(AcceptedLate, None, 0)
  }

  // ---- Committing ------------------------------------------------------

  /** Inserts a key into a bounded map with its queue, oldest insertions leaving first. */
  function Remember<K(==)>(m: map<K, U64>, order: seq<K>, bound: nat, k: K, v: U64): (r: (map<K, U64>, seq<K>))
  {
    var m', order' := if k in m then m else m[k := v], if k in m then order else order + [k];
    var kept := Last(order', bound);
    (m' - Elements(order'[..|order'| - |kept|]), kept)
  }

  lemma EvictOne<K>(m: map<K, U64>, order: seq<K>, gone: nat)
    requires gone < |order|
    ensures m - Elements(order[..gone]) - {order[gone]} == m - Elements(order[..gone + 1])
  {
    assert order[..gone + 1] == order[..gone] + [order[gone]];
    assert Elements(order[..gone + 1]) == Elements(order[..gone]) + {order[gone]};
  }

  method RememberInPlace<K(==)>(m: map<K, U64>, order: seq<K>, bound: nat, k: K, v: U64)
    returns (m': map<K, U64>, order': seq<K>)
    ensures (m', order') == Remember(m, order, bound, k, v)
  {
    m', order' := m, order;
    if k !in m' {
      m' := m'[k := v];
      order' := order' + [k];
    }
    ghost var m0, order0 := m', order';
    ghost var gone := 0;
    assert m0 - Elements(order0[..0]) == m0;
    while |order'| > bound
      invariant gone <= |order0| && order' == order0[gone..]
      invariant |order'| >= bound || gone == 0
      invariant m' == m0 - Elements(order0[..gone])
    {
      var victim := order'[0];
      order' := order'[1..];
      m' := m' - {victim};
      EvictOne(m0, order0, gone);
      gone := gone + 1;
    }
    assert order' == Last(order0, bound);
  }

  function CommitSequence(p: BootSequence, w: nat, s: SeqNo, hash: U64): (q: BootSequence)
  {
    var advance := !p.hasWatermark || s > p.high;
    var (window, order) := Remember(p.window, p.order, w, s, hash);
    p.(hasWatermark := p.hasWatermark || advance, high := if advance then s else p.high,
       window := window, order := order)
  }

  function CommitEventId(p: BootSequence, bound: nat, id: U64, hash: U64): (q: BootSequence)
  {
    var (ids, order) := Remember(p.recentIds, p.recentOrder, bound, id, hash);
    p.(recentIds := ids, recentOrder := order)
  }

  function Tally(p: BootSequence, d: Decision): (q: BootSequence)
  {
    p.(accepted := p.accepted + 1,
       late := p.late + (if d.disposition.AcceptedLate? then 1 else 0),
       missing := p.missing + d.missing)
  }

  /** One arrival: an event with its identity, or a counter sample, which carries none. */
  datatype Arrival = Arrival(s: SeqNo, hash: U64, eventId: Option<U64>)

  predicate ConflictingId(p: BootSequence, a: Arrival)
  {
    a.eventId.Some? && a.eventId.value in p.recentIds && p.recentIds[a.eventId.value] != a.hash
  }

  function Verdict(p: BootSequence, w: nat, a: Arrival): (d: Decision)
  {
    var d := Account(p, w, a.s, a.hash);
    if Mutates(d) && ConflictingId(p, a) then Decision(Rejected, Some(Conflict), 0) else d
  }

  predicate Admits(p: BootSequence, w: nat, a: Arrival)
  {
    Mutates(Verdict(p, w, a))
  }

  /** The sequencing part of `ingest_locked` and `ingest_counter`. */
  function Offer(p: BootSequence, w: nat, ids: nat, a: Arrival): (q: BootSequence)
  {
    var d := Verdict(p, w, a);
    if !Mutates(d) then p else
    var q := CommitSequence(p, w, a.s, a.hash);
    var r := if a.eventId.Some? then CommitEventId(q, ids, a.eventId.value, a.hash) else q;
    Tally(r, d)
  }

  method OfferInPlace(p: BootSequence, w: nat, ids: nat, a: Arrival) returns (q: BootSequence, d: Decision)
    ensures q == Offer(p, w, ids, a) && d == Verdict(p, w, a)
  {
    hide Remember;
    q := p;
    d := Account(p, w, a.s, a.hash);
    if Mutates(d) && ConflictingId(p, a) {
      d := Decision(Rejected, Some(Conflict), 0);
      return;
    }
    if !Mutates(d) {
      return;
    }
    if !q.hasWatermark || a.s > q.high {
      q := q.(high := a.s, hasWatermark := true);
    }
    var window, order := RememberInPlace(q.window, q.order, w, a.s, a.hash);
    q := q.(window := window, order := order);
    if a.eventId.Some? {
      var known, recent := RememberInPlace(q.recentIds, q.recentOrder, ids, a.eventId.value, a.hash);
      q := q.(recentIds := known, recentOrder := recent);
    }
    if d.disposition.AcceptedLate? {
      q := q.(late := q.late + 1);
    }
    q := q.(missing := q.missing + d.missing, accepted := q.accepted + 1);
  }

  // ---- Runs of one boot ------------------------------------------------

  /** A boot starts fresh, or from the watermark an earlier coordinator incarnation recorded. A
      fresh boot may still carry the durable flag of the boot it replaced. */
  datatype Origin = Fresh(durable: bool) | Restored(watermark: U64)

  function Start(o: Origin): (p: BootSequence)
  {
    match o
    case Fresh(durable) => BootSequence(false, 0, durable, map[], [], map[], [], 0, 0, 0)
    case Restored(h) => BootSequence(true, h, true, map[], [], map[], [], 0, 0, 0)
  }

  /** A boot together with every sequence it has accepted, in order of acceptance. */
  datatype Trace = Trace(p: BootSequence, log: seq<SeqNo>)

  ghost function BootStep(t: Trace, w: nat, ids: nat, a: Arrival): (u: Trace)
  {
    Trace(Offer(t.p, w, ids, a), if Admits(t.p, w, a) then t.log + [a.s] else t.log)
  }

  ghost function BootRun(o: Origin, w: nat, ids: nat, arrivals: seq<Arrival>): (t: Trace)
  {
    if arrivals == [] then Trace(Start(o), [])
    else BootStep(BootRun(o, w, ids, arrivals[..|arrivals| - 1]), w, ids, arrivals[|arrivals| - 1])
  }

  // ---- What every run keeps --------------------------------------------

  /** The window is exactly the last `w` acceptances, each once, none above the watermark. */
  ghost predicate WindowIsRecent(t: Trace, w: nat)
  {
    && t.p.order == Last(t.log, w)
    && NoDuplicates(t.p.order)
    && t.p.window.Keys == Elements(t.p.order)
    && (t.log != [] ==> t.p.hasWatermark)
    && AtMost(t.log, t.p.high)
  }

  ghost predicate AtMost(log: seq<SeqNo>, high: nat)
  {
    forall i :: 0 <= i < |log| ==> log[i] <= high
  }

  lemma AtMostSnoc(log: seq<SeqNo>, high: nat, s: SeqNo, high': nat)
    requires AtMost(log, high) && s <= high' && (log == [] || high <= high')
    ensures AtMost(log + [s], high')
  {}

  /** The recent-identity memory and its queue are one duplicate-free set within its bound. */
  ghost predicate IdsConsistent(p: BootSequence, ids: nat)
  {
    NoDuplicates(p.recentOrder) && p.recentIds.Keys == Elements(p.recentOrder) && |p.recentOrder| <= ids
  }

  ghost function Baseline(o: Origin, log: seq<SeqNo>): (b: nat)
  {
    if o.Restored? then o.watermark else if log == [] then 0 else var first: int := log[0]; first - 1
  }

  /** Every step of the watermark is accounted for: by a timely acceptance or a recorded gap. */
  ghost predicate LedgerBalances(t: Trace, o: Origin)
  {
    && t.p.accepted == |t.log| && t.p.late <= t.p.accepted
    && t.p.durable == (o.Restored? || o.durable)
    && (t.p.hasWatermark <==> o.Restored? || t.log != [])
    && (if t.p.hasWatermark then t.p.high - Baseline(o, t.log) == (t.p.accepted - t.p.late) + t.p.missing
        else t.p.missing == 0)
  }

  /** Equal sequences are accepted only with `w` acceptances in between, one of them smaller. */
  ghost predicate RepeatsAreFar(log: seq<SeqNo>, w: nat)
  {
    forall i, j :: 0 <= i < j < |log| && log[i] == log[j] ==> j - i > w && DipBetween(log, i, j)
  }

  ghost predicate DipBetween(log: seq<SeqNo>, i: nat, j: nat)
    requires i < j <= |log|
  {
    exists k :: i < k < j && log[k] < log[i]
  }

  /** A boot under a durable watermark accepts strictly increasing sequences above it. */
  ghost predicate DurableIncreases(t: Trace, o: Origin)
  {
    && (o.Restored? ==> o.watermark <= t.p.high && forall i :: 0 <= i < |t.log| ==> o.watermark < t.log[i])
    && (t.p.durable ==> Increasing(t.log))
  }

  ghost predicate Increasing(log: seq<SeqNo>)
  {
    forall i, j :: 0 <= i < j < |log| ==> log[i] < log[j]
  }

  ghost predicate Invariant(t: Trace, o: Origin, w: nat, ids: nat)
  {
    && WindowIsRecent(t, w) && IdsConsistent(t.p, ids) && LedgerBalances(t, o)
    && RepeatsAreFar(t.log, w) && DurableIncreases(t, o)
  }

  lemma RememberNew<K>(m: map<K, U64>, order: seq<K>, bound: nat, k: K, v: U64)
    requires k !in m && NoDuplicates(order) && m.Keys == Elements(order)
    ensures var (m', order') := Remember(m, order, bound, k, v);
            order' == Last(order + [k], bound) && NoDuplicates(order') && m'.Keys == Elements(order')
  {
    var all := order + [k];
    DropElements(all, |all| - |Last(all, bound)|);
    assert Elements(all) == Elements(order) + {k};
  }

  lemma RememberOld<K>(m: map<K, U64>, order: seq<K>, bound: nat, k: K, v: U64)
    requires k in m && |order| <= bound
    ensures Remember(m, order, bound, k, v) == (m, order)
  {
    assert Elements(order[..0]) == {};
    assert m - {} == m;
  }

  /** The window after an acceptance is the window of the longer log. */
  lemma CommitKeepsWindow(t: Trace, w: nat, s: SeqNo, hash: U64)
    requires WindowIsRecent(t, w) && s !in t.p.window
    ensures WindowIsRecent(Trace(CommitSequence(t.p, w, s, hash), t.log + [s]), w)
  {
    hide Remember, NoDuplicates, Elements, Last, AtMost;
    RememberNew(t.p.window, t.p.order, w, s, hash);
    LastSnoc(t.log, s, w);
    AtMostSnoc(t.log, t.p.high, s, CommitSequence(t.p, w, s, hash).high);
  }

  lemma WindowInLog(t: Trace, w: nat, s: SeqNo)
    requires WindowIsRecent(t, w) && s in t.p.window
    ensures s in Last(t.log, w) && s <= t.p.high && t.p.hasWatermark
  {
    hide NoDuplicates;
    assert s in t.p.order;
    var k :| 0 <= k < |t.p.order| && t.p.order[k] == s;
    LastAt(t.log, w, k);
  }

  lemma InWindow(t: Trace, w: nat, i: nat)
    requires WindowIsRecent(t, w) && i < |t.log| <= i + w
    ensures t.log[i] in t.p.window
  {
    hide NoDuplicates;
    LastAt(t.log, w, i - (|t.log| - |t.p.order|));
  }

  lemma UnseenWhenAdmitted(t: Trace, w: nat, a: Arrival)
    requires WindowIsRecent(t, w) && Admits(t.p, w, a)
    ensures a.s !in t.p.window
  {
    hide WindowIsRecent;
    if a.s in t.p.window { WindowInLog(t, w, a.s); }
  }

  /** No sequence returns while no smaller one was accepted after it. */
  lemma RepeatsDip(t: Trace, w: nat, a: Arrival, i: nat)
    requires WindowIsRecent(t, w) && Admits(t.p, w, a) && i < |t.log| && t.log[i] == a.s
    ensures |t.log| - i > w && DipBetween(t.log + [a.s], i, |t.log|)
    decreases |t.log| - i
  {
    hide NoDuplicates, Last;
    UnseenWhenAdmitted(t, w, a);
    var n, log := |t.log|, t.log;
    if n - i <= w { InWindow(t, w, i); }
    if exists k :: i < k < n && log[k] == a.s {
      var k :| i < k < n && log[k] == a.s;
      RepeatsDip(t, w, a, k);
      var m :| k < m < n && (log + [a.s])[m] < (log + [a.s])[k];
      assert (log + [a.s])[m] < (log + [a.s])[i];
    } else if forall k :: i < k < n ==> log[k] > a.s {
      AllAbove(t, w, a.s, i);
      assert false;
    } else {
      var k :| i < k < n && log[k] <= a.s;
      assert (log + [a.s])[k] < (log + [a.s])[i];
    }
  }

  /** `w` later acceptances, all larger, push the numeric floor past the sequence. */
  lemma AllAbove(t: Trace, w: nat, s: SeqNo, i: nat)
    requires WindowIsRecent(t, w) && |t.log| - i > w && i < |t.log|
    requires forall k :: i < k < |t.log| ==> t.log[k] > s
    requires t.log[i] == s
    ensures t.p.high >= w && s <= t.p.high - w
  {
    var n := |t.log|;
    forall k | 0 <= k < |t.p.order|
      ensures s < t.p.order[k] <= t.p.high
    {
      LastAt(t.log, w, k);
    }
    Pigeonhole(t.p.order, s, t.p.high);
  }

  lemma RepeatsStayFar(t: Trace, w: nat, a: Arrival)
    requires WindowIsRecent(t, w) && RepeatsAreFar(t.log, w) && Admits(t.p, w, a)
    ensures RepeatsAreFar(t.log + [a.s], w)
  {
    hide WindowIsRecent, Admits;
    var log' := t.log + [a.s];
    forall i, j | 0 <= i < j < |log'| && log'[i] == log'[j]
      ensures j - i > w && DipBetween(log', i, j)
    {
      if j < |t.log| {
        assert t.log[i] == t.log[j];
        var k :| i < k < j && t.log[k] < t.log[i];
        assert log'[k] < log'[i];
      } else {
        RepeatsDip(t, w, a, i);
      }
    }
  }

  lemma IdsStayConsistent(p: BootSequence, ids: nat, id: U64, hash: U64)
    requires IdsConsistent(p, ids)
    ensures IdsConsistent(CommitEventId(p, ids, id, hash), ids)
  {
    if id in p.recentIds {
      RememberOld(p.recentIds, p.recentOrder, ids, id, hash);
    } else {
      RememberNew(p.recentIds, p.recentOrder, ids, id, hash);
    }
  }

  lemma LedgerStays(t: Trace, o: Origin, w: nat, ids: nat, a: Arrival)
    requires LedgerBalances(t, o) && Admits(t.p, w, a)
    ensures LedgerBalances(BootStep(t, w, ids, a), o)
  {
    hide Remember, ConflictingId;
    var t' := BootStep(t, w, ids, a);
    var d := Verdict(t.p, w, a);
    assert t'.p == Tally(t'.p.(accepted := t.p.accepted, late := t.p.late, missing := t.p.missing), d);
    assert d.disposition.AcceptedLate? ==> d.missing == 0 && t'.p.high == t.p.high && t.p.hasWatermark;
    assert Baseline(o, t.log + [a.s]) == if t.log == [] && o.Fresh? then a.s - 1 else Baseline(o, t.log);
  }

  lemma AppendIncreasing(log: seq<SeqNo>, s: SeqNo)
    requires Increasing(log) && forall i :: 0 <= i < |log| ==> log[i] < s
    ensures Increasing(log + [s])
  {}

  lemma IncreasingStays(t: Trace, o: Origin, w: nat, ids: nat, a: Arrival)
    requires DurableIncreases(t, o) && LedgerBalances(t, o) && WindowIsRecent(t, w) && Admits(t.p, w, a)
    ensures DurableIncreases(BootStep(t, w, ids, a), o)
  {
    hide Remember, ConflictingId, NoDuplicates, Last, Increasing;
    assert BootStep(t, w, ids, a).log == t.log + [a.s];
    if t.p.durable {
      assert t.log == [] || a.s > t.p.high;
      AppendIncreasing(t.log, a.s);
    }
  }

  lemma StepKeeps(t: Trace, o: Origin, w: nat, ids: nat, a: Arrival)
    requires Invariant(t, o, w, ids)
    ensures Invariant(BootStep(t, w, ids, a), o, w, ids)
  {
    hide Remember, LedgerBalances, RepeatsAreFar, DurableIncreases, Account, NoDuplicates, Last, Elements;
    if Admits(t.p, w, a) {
      UnseenWhenAdmitted(t, w, a);
      CommitKeepsWindow(t, w, a.s, a.hash);
      RepeatsStayFar(t, w, a);
      if a.eventId.Some? { IdsStayConsistent(CommitSequence(t.p, w, a.s, a.hash), ids, a.eventId.value, a.hash); }
      LedgerStays(t, o, w, ids, a);
      IncreasingStays(t, o, w, ids, a);
    }
  }

  lemma {:induction false} RunKeeps(o: Origin, w: nat, ids: nat, arrivals: seq<Arrival>)
    ensures Invariant(BootRun(o, w, ids, arrivals), o, w, ids)
  {
    if arrivals != [] {
      var n := |arrivals| - 1;
      RunKeeps(o, w, ids, arrivals[..n]);
      StepKeeps(BootRun(o, w, ids, arrivals[..n]), o, w, ids, arrivals[n]);
    }
  }

  // ---- Main results ----------------------------------------------------

  /** Replay safety inside one boot. In every run, two acceptances of one sequence have at least
      `w` other acceptances between them, one of which is smaller; a boot that accepts in
      increasing order never accepts a sequence twice. */
  lemma ReplayWithinBoot(o: Origin, w: nat, ids: nat, arrivals: seq<Arrival>, i: nat, j: nat)
    requires var log := BootRun(o, w, ids, arrivals).log; i < j < |log| && log[i] == log[j]
    ensures j - i - 1 >= w
    ensures DipBetween(BootRun(o, w, ids, arrivals).log, i, j)
    ensures o == Fresh(false)
  {
    RunKeeps(o, w, ids, arrivals);
  }

  /** The sequence ledger of every run. */
  lemma Ledger(o: Origin, w: nat, ids: nat, arrivals: seq<Arrival>)
    ensures var t := BootRun(o, w, ids, arrivals);
            && t.p.order == Last(t.log, w) && NoDuplicates(t.p.order)
            && t.p.window.Keys == Elements(t.p.order)
            && (forall i :: 0 <= i < |t.log| ==> t.log[i] <= t.p.high)
            && (t.p.hasWatermark ==>
                  t.p.high - Baseline(o, t.log) == (t.p.accepted - t.p.late) + t.p.missing)
  {
    RunKeeps(o, w, ids, arrivals);
  }

  /** What a reachable boot answers, in terms of its acceptance log alone. */
  lemma DispositionFromLog(o: Origin, w: nat, ids: nat, arrivals: seq<Arrival>, s: SeqNo, hash: U64)
    ensures var t := BootRun(o, w, ids, arrivals);
            var d := Account(t.p, w, s, hash);
            && (Mutates(d) <==>
                  || (t.log == [] && o.Fresh?)
                  || s > t.p.high
                  || (o == Fresh(false) && s !in Last(t.log, w) && s + w > t.p.high))
            && (d.code == Some(Duplicate) || d.code == Some(Conflict) <==>
                  o == Fresh(false) && s in Last(t.log, w))
            && (d.disposition.AcceptedLate? ==> s <= t.p.high)
  {
    RunKeeps(o, w, ids, arrivals);
    var t := BootRun(o, w, ids, arrivals);
    hide BootRun, NoDuplicates;
    var p, recent := t.p, Last(t.log, w);
    if s in p.window { WindowInLog(t, w, s); }
    assert s in p.window <==> s in recent;
    hide Last, RepeatsAreFar, DurableIncreases;
  }

  /** Exactly when a sequence is accepted a second time: the boot keeps no durable watermark, the
      window has forgotten the sequence, and the numeric floor has not passed it. */
  lemma AcceptedAgainIff(o: Origin, w: nat, ids: nat, arrivals: seq<Arrival>, s: SeqNo, hash: U64)
    requires s in BootRun(o, w, ids, arrivals).log
    ensures var t := BootRun(o, w, ids, arrivals);
            Mutates(Account(t.p, w, s, hash)) <==>
              o == Fresh(false) && s !in Last(t.log, w) && s + w > t.p.high
  {
    hide BootRun, Account, Mutates;
    DispositionFromLog(o, w, ids, arrivals, s, hash);
    Ledger(o, w, ids, arrivals);
  }

  /** Unconditional exactly-once is false: with a window of two, arrivals 2, 1, 3, 2 accept 2 twice. */
  lemma ExactlyOnceFails(ids: nat, hash: U64)
    ensures BootRun(Fresh(false), 2, ids, [Arrival(2, hash, None), Arrival(1, hash, None),
                                       Arrival(3, hash, None), Arrival(2, hash, None)]).log == [2, 1, 3, 2]
  {
    hide BootRun, Reached;
    var a2, a1, a3 := Arrival(2, hash, None), Arrival(1, hash, None), Arrival(3, hash, None);
    EmptyRun(2, ids);
    var l1: seq<SeqNo>, l2: seq<SeqNo>, l3: seq<SeqNo> := [2], [2, 1], [2, 1, 3];
    assert [] + [a2.s] == l1 && l1 + [a1.s] == l2 && l2 + [a3.s] == l3;
    var r1 := NextAccepted(2, ids, [], a2, [], 0);
    var r2 := NextAccepted(2, ids, r1, a1, l1, 2);
    var r3 := NextAccepted(2, ids, r2, a3, l2, 2);
    var recent := Last(l3, 2);
    assert recent == [1, 3];
    var r4 := NextAccepted(2, ids, r3, a2, l3, 3);
    assert r4 == [a2, a1, a3, a2];
    ReachedLog(2, ids, r4, l3 + [a2.s], 3);
  }

  ghost predicate Reached(w: nat, ids: nat, run: seq<Arrival>, log: seq<SeqNo>, high: nat)
  {
    var t := BootRun(Fresh(false), w, ids, run);
    t.log == log && t.p.high == high
  }

  lemma ReachedLog(w: nat, ids: nat, run: seq<Arrival>, log: seq<SeqNo>, high: nat)
    requires Reached(w, ids, run, log, high)
    ensures BootRun(Fresh(false), w, ids, run).log == log
  {}

  lemma EmptyRun(w: nat, ids: nat)
    ensures Reached(w, ids, [], [], 0)
  {}

  /** A counter sample that is new, or below the watermark but neither recent nor under the floor,
      is accepted. */
  lemma NextAccepted(w: nat, ids: nat, before: seq<Arrival>, a: Arrival, log: seq<SeqNo>, high: nat)
    returns (run: seq<Arrival>)
    requires a.eventId.None? && Reached(w, ids, before, log, high)
    requires log == [] || a.s > high || (a.s !in Last(log, w) && a.s + w > high)
    ensures run == before + [a]
    ensures Reached(w, ids, run, log + [a.s], if log == [] || a.s > high then a.s else high)
  {
    hide BootRun, Remember, Last;
    run := before + [a];
    RunSnoc(Fresh(false), w, ids, before, a);
    DispositionFromLog(Fresh(false), w, ids, before, a.s, a.hash);
    WatermarkIffAccepted(w, ids, before);
  }

  lemma WatermarkIffAccepted(w: nat, ids: nat, before: seq<Arrival>)
    ensures var t := BootRun(Fresh(false), w, ids, before); t.p.hasWatermark <==> t.log != []
  {
    hide BootRun;
    RunKeeps(Fresh(false), w, ids, before);
  }

  lemma RunSnoc(o: Origin, w: nat, ids: nat, arrivals: seq<Arrival>, a: Arrival)
    ensures BootRun(o, w, ids, arrivals + [a]) == BootStep(BootRun(o, w, ids, arrivals), w, ids, a)
  {
    var all := arrivals + [a];
    assert all[..|all| - 1] == arrivals;
  }
}
