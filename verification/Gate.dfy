/**
 The ingestion gate (src/observatory.cpp:857-871, 1077-1127): a batch holds the
 lock only while it is admitted, for each of its events, and while it is
 released, so any number of batches, fences and other calls interleave.
 */
module Gate {
  import opened Machine
  import opened Sums
  import opened Sequence
  import opened Authority

  const MAX_BATCH: nat := 1024
  const WRAP: nat := U64_MAX + 1

  /** An event of a batch as far as sequencing is concerned. */
  datatype Event = Malformed | Offered(f: Offering)

  function DispositionOf(r: Registry, lim: Limits, e: Event): (d: Decision)
  {
    if e.Malformed? then Decision(Rejected, Some(InvalidArgument), 0) else Disposed(r, lim, e.f)
  }

  function Ingested(r: Registry, lim: Limits, e: Event): (t: Registry)
  {
    if e.Malformed? then r else Ingest(r, lim, e.f)
  }

  datatype Tally = Tally(accepted: nat, late: nat, duplicates: nat, rejected: nat, missing: nat)

  const NOTHING := Tally(0, 0, 0, 0, 0)

  function Size(t: Tally): (n: nat)
  {
    t.accepted + t.late + t.duplicates + t.rejected
  }

  function Counted(t: Tally, d: Decision): (u: Tally)
    ensures Size(u) == Size(t) + 1
  {
    var u := t.(missing := t.missing + d.missing);
    match d.disposition
    case Accepted => u.(accepted := u.accepted + 1)
    case AcceptedLate => u.(late := u.late + 1)
    case Replayed => u.(duplicates := u.duplicates + 1)
    case Rejected => u.(rejected := u.rejected + 1)
  }

  /** A call between two of its critical sections. */
  datatype Call =
    | Batch(events: seq<Event>, done: nat, tally: Tally)
    | Fencing(pid: string, sampled: U64, reason: FenceReason)

  /** `pending` is a machine word; `finished` records the tally of every batch that returned. */
  datatype Shared = Shared(
    reg: Registry, pending: U64, backpressure: nat, calls: map<nat, Call>, finished: seq<(seq<Event>, Tally)>)

  /** `Other` stands for whatever else a call may do to the registry while it holds the lock. */
  datatype Move =
    | BatchBegins(id: nat, events: seq<Event>)
    | BatchIngestsNext(id: nat)
    | BatchEnds(id: nat)
    | FenceSamples(id: nat, pid: string, reason: FenceReason)
    | FenceStrikes(id: nat)
    | Other(reg: Registry)

  predicate Enabled(g: Shared, m: Move)
  {
    match m
    case BatchBegins(id, _) => id !in g.calls
    case BatchIngestsNext(id) => id in g.calls && g.calls[id].Batch? && g.calls[id].done < |g.calls[id].events|
    case BatchEnds(id) => id in g.calls && g.calls[id].Batch? && g.calls[id].done >= |g.calls[id].events|
    case FenceSamples(id, _, _) => id !in g.calls
    case FenceStrikes(id) => id in g.calls && g.calls[id].Fencing?
    case Other(_) => true
  }

  ghost function Begun(g: Shared, limit: U64, id: nat, events: seq<Event>): (h: Shared)
  {
    var n := |events|;
    if n == 0 || n > MAX_BATCH then g
    else if (g.pending + n) % WRAP > limit then g.(backpressure := g.backpressure + n)
    else g.(pending := (g.pending + n) % WRAP, calls := g.calls[id := Batch(events, 0, NOTHING)])
  }

  ghost function Advanced(g: Shared, lim: Limits, id: nat): (h: Shared)
    requires Enabled(g, BatchIngestsNext(id))
  {
    var call := g.calls[id];
    var e := call.events[call.done];
    g.(reg := Ingested(g.reg, lim, e),
       calls := g.calls[id := Batch(call.events, call.done + 1, Counted(call.tally, DispositionOf(g.reg, lim, e)))])
  }

  ghost function Ended(g: Shared, id: nat): (h: Shared)
    requires Enabled(g, BatchEnds(id))
  {
    var call := g.calls[id];
    g.(pending := (g.pending - |call.events|) % WRAP, calls := g.calls - {id},
       finished := g.finished + [(call.events, call.tally)])
  }

  ghost function Moved(g: Shared, lim: Limits, limit: U64, m: Move): (h: Shared)
    requires Enabled(g, m)
  {
    match m
    case BatchBegins(id, events) => Begun(g, limit, id, events)
    case BatchIngestsNext(id) => Advanced(g, lim, id)
    case BatchEnds(id) => Ended(g, id)
    case FenceSamples(id, pid, reason) =>
      if pid in g.reg.publishers
      then g.(calls := g.calls[id := Fencing(pid, g.reg.publishers[pid].boot, reason)]) else g
    case FenceStrikes(id) =>
      var call := g.calls[id];
      g.(reg := Fence(g.reg, lim, call.pid, call.sampled, call.reason).0, calls := g.calls - {id})
    case Other(reg) => g.(reg := reg)
  }

  ghost predicate Possible(g: Shared, lim: Limits, limit: U64, moves: seq<Move>)
    decreases |moves|
  {
    moves == [] || (Enabled(g, moves[0]) && Possible(Moved(g, lim, limit, moves[0]), lim, limit, moves[1..]))
  }

  ghost function After(g: Shared, lim: Limits, limit: U64, moves: seq<Move>): (h: Shared)
    requires Possible(g, lim, limit, moves)
    decreases |moves|
  {
    if moves == [] then g else After(Moved(g, lim, limit, moves[0]), lim, limit, moves[1..])
  }

  // ---- What every interleaving keeps -----------------------------------

  ghost function Weights(calls: map<nat, Call>): (f: nat -> nat)
  {
    (id: nat) => if id in calls && calls[id].Batch? then |calls[id].events| else 0
  }

  /** Events of batches that have been admitted and have not returned. */
  ghost function InFlight(calls: map<nat, Call>): (n: nat)
  {
    SumOver(calls.Keys, Weights(calls))
  }

  ghost predicate CallsTally(calls: map<nat, Call>)
  {
    forall id :: id in calls && calls[id].Batch? ==>
      Size(calls[id].tally) == calls[id].done <= |calls[id].events| <= MAX_BATCH
  }

  ghost predicate BatchesTally(finished: seq<(seq<Event>, Tally)>)
  {
    forall i :: 0 <= i < |finished| ==> Size(finished[i].1) == |finished[i].0|
  }

  ghost predicate Balanced(g: Shared, limit: U64)
  {
    g.pending == InFlight(g.calls) && g.pending <= limit && CallsTally(g.calls) && BatchesTally(g.finished)
  }

  lemma AddCall(calls: map<nat, Call>, id: nat, call: Call)
    requires id !in calls
    ensures InFlight(calls[id := call]) == InFlight(calls) + if call.Batch? then |call.events| else 0
  {
    var more := calls[id := call];
    SumOverRemove(more.Keys, Weights(more), id);
    assert more.Keys - {id} == calls.Keys;
    SumOverAgrees(calls.Keys, Weights(more), Weights(calls));
  }

  lemma RemoveCall(calls: map<nat, Call>, id: nat)
    requires id in calls
    ensures InFlight(calls) == InFlight(calls - {id}) + if calls[id].Batch? then |calls[id].events| else 0
  {
    AddCall(calls - {id}, id, calls[id]);
    assert (calls - {id})[id := calls[id]] == calls;
  }

  lemma ReplaceCall(calls: map<nat, Call>, id: nat, call: Call)
    requires id in calls && calls[id].Batch? && call.Batch? && call.events == calls[id].events
    ensures InFlight(calls[id := call]) == InFlight(calls)
  {
    RemoveCall(calls, id);
    AddCall(calls - {id}, id, call);
    assert (calls - {id})[id := call] == calls[id := call];
  }

  lemma BeginKeepsBalance(g: Shared, limit: U64, id: nat, events: seq<Event>)
    requires limit + MAX_BATCH <= U64_MAX && id !in g.calls && Balanced(g, limit)
    ensures Balanced(Begun(g, limit, id, events), limit)
  {
    hide InFlight;
    AddCall(g.calls, id, Batch(events, 0, NOTHING));
  }

  lemma AdvanceKeepsBalance(g: Shared, lim: Limits, limit: U64, id: nat)
    requires Enabled(g, BatchIngestsNext(id)) && Balanced(g, limit)
    ensures Balanced(Advanced(g, lim, id), limit)
  {
    hide InFlight, Ingested, DispositionOf, Counted, Size;
    ReplaceCall(g.calls, id, Advanced(g, lim, id).calls[id]);
  }

  lemma EndKeepsBalance(g: Shared, limit: U64, id: nat)
    requires Enabled(g, BatchEnds(id)) && Balanced(g, limit)
    ensures Balanced(Ended(g, id), limit)
  {
    hide InFlight, Size;
    RemoveCall(g.calls, id);
  }

  lemma MoveKeepsBalance(g: Shared, lim: Limits, limit: U64, m: Move)
    requires limit + MAX_BATCH <= U64_MAX
    requires Enabled(g, m) && Balanced(g, limit)
    ensures Balanced(Moved(g, lim, limit, m), limit)
  {
    hide InFlight, Begun, Advanced, Ended, Fence, Size;
    match m
    case BatchBegins(id, events) => BeginKeepsBalance(g, limit, id, events);
    case BatchIngestsNext(id) => AdvanceKeepsBalance(g, lim, limit, id);
    case BatchEnds(id) => EndKeepsBalance(g, limit, id);
    case FenceSamples(id, pid, reason) =>
      if pid in g.reg.publishers {
        AddCall(g.calls, id, Fencing(pid, g.reg.publishers[pid].boot, reason));
      }
    case FenceStrikes(id) => RemoveCall(g.calls, id);
    case Other(_) =>
  }

  /** In every interleaving the pending count is the number of events in flight, stays within its
      limit and never underflows, and every batch's four outcome counts add up to its size. */
  lemma {:induction false} InterleavingsBalance(g: Shared, lim: Limits, limit: U64, moves: seq<Move>)
    requires limit + MAX_BATCH <= U64_MAX
    requires Balanced(g, limit) && Possible(g, lim, limit, moves)
    ensures Balanced(After(g, lim, limit, moves), limit)
    decreases |moves|
  {
    hide Balanced, Moved, Enabled;
    if moves != [] {
      MoveKeepsBalance(g, lim, limit, moves[0]);
      InterleavingsBalance(Moved(g, lim, limit, moves[0]), lim, limit, moves[1..]);
    }
  }

  // ---- Exactly which limits are safe -----------------------------------

  ghost predicate Idle(g: Shared)
  {
    g.calls == map[] && g.pending == 0 && g.finished == []
  }

  ghost predicate AlwaysBalanced(g: Shared, lim: Limits, limit: U64)
  {
    forall moves :: Possible(g, lim, limit, moves) ==> Balanced(After(g, lim, limit, moves), limit)
  }

  /** Batches of one event each, by the calls `i` up to `n`, and then one largest batch. */
  ghost function Filling(i: nat, n: nat, e: Event): (moves: seq<Move>)
    requires i <= n
    decreases n - i
  {
    if i == n then [BatchBegins(n, seq(MAX_BATCH, _ => e))]
    else [BatchBegins(i, [e])] + Filling(i + 1, n, e)
  }

  lemma IdleIsBalanced(g: Shared, limit: U64)
    requires Idle(g)
    ensures Balanced(g, limit)
  {
    SumOverZero(g.calls.Keys, Weights(g.calls));
  }

  lemma {:induction false} FillingOverflows(g: Shared, lim: Limits, limit: U64, i: nat, e: Event)
    requires limit + MAX_BATCH > U64_MAX && i <= limit
    requires g.pending == i == InFlight(g.calls) && forall id :: id in g.calls ==> id < i
    ensures Possible(g, lim, limit, Filling(i, limit, e))
    ensures !Balanced(After(g, lim, limit, Filling(i, limit, e)), limit)
    decreases limit - i
  {
    hide InFlight;
    var moves := Filling(i, limit, e);
    var h := Moved(g, lim, limit, moves[0]);
    if i == limit {
      AddCall(g.calls, i, Batch(seq(MAX_BATCH, _ => e), 0, NOTHING));
      assert moves[1..] == [] && After(h, lim, limit, []) == h;
    } else {
      AddCall(g.calls, i, Batch([e], 0, NOTHING));
      FillingOverflows(h, lim, limit, i + 1, e);
      assert moves[1..] == Filling(i + 1, limit, e);
    }
  }

  /** The count is kept by every interleaving exactly when a full batch on top of the limit still
      fits the machine word. */
  lemma GateHoldsIff(g: Shared, lim: Limits, limit: U64, e: Event)
    requires Idle(g)
    ensures AlwaysBalanced(g, lim, limit) <==> limit + MAX_BATCH <= U64_MAX
  {
    hide Possible, After, Filling, Balanced;
    IdleIsBalanced(g, limit);
    if limit + MAX_BATCH <= U64_MAX {
      forall moves | Possible(g, lim, limit, moves)
        ensures Balanced(After(g, lim, limit, moves), limit)
      {
        InterleavingsBalance(g, lim, limit, moves);
      }
    } else {
      SumOverZero(g.calls.Keys, Weights(g.calls));
      FillingOverflows(g, lim, limit, 0, e);
    }
  }

  // ---- Fencing without holding the lock --------------------------------

  /** A fence issued for the boot sampled earlier changes no other boot of any publisher. */
  lemma FenceHitsOnlyItsBoot(r: Registry, lim: Limits, pid: string, sampled: U64, reason: FenceReason)
    ensures var t := Fence(r, lim, pid, sampled, reason).0;
            && t.publishers.Keys == r.publishers.Keys
            && forall p :: p in r.publishers && !(p == pid && r.publishers[p].boot == sampled) ==>
                 t.publishers[p] == r.publishers[p]
  {}

  ghost predicate Touches(m: Move, id: nat)
  {
    !m.Other? && m.id == id
  }

  lemma {:induction false} CallWaits(g: Shared, lim: Limits, limit: U64, moves: seq<Move>, id: nat)
    requires Possible(g, lim, limit, moves) && id in g.calls
    requires forall i :: 0 <= i < |moves| ==> !Touches(moves[i], id)
    ensures var h := After(g, lim, limit, moves);
            id in h.calls && h.calls[id] == g.calls[id]
    decreases |moves|
  {
    hide Ingested, DispositionOf, Fence;
    if moves != [] {
      assert !Touches(moves[0], id);
      CallWaits(Moved(g, lim, limit, moves[0]), lim, limit, moves[1..], id);
    }
  }

  /** Whatever happens between sampling and striking, a fence changes no publisher record but that of
      the boot it sampled: a boot that took over in the meantime is spared. */
  lemma FenceSparesLaterBoots(g: Shared, lim: Limits, limit: U64, id: nat, pid: string, reason: FenceReason, moves: seq<Move>)
    requires id !in g.calls && pid in g.reg.publishers
    requires Possible(Moved(g, lim, limit, FenceSamples(id, pid, reason)), lim, limit, moves)
    requires forall i :: 0 <= i < |moves| ==> !Touches(moves[i], id)
    ensures var before := After(Moved(g, lim, limit, FenceSamples(id, pid, reason)), lim, limit, moves);
            && Enabled(before, FenceStrikes(id))
            && var after := Moved(before, lim, limit, FenceStrikes(id)).reg.publishers;
            && after.Keys == before.reg.publishers.Keys
            && forall p :: p in after && !(p == pid && before.reg.publishers[p].boot == g.reg.publishers[pid].boot) ==>
                 after[p] == before.reg.publishers[p]
  {
    hide After, Possible, Fence;
    var sampled := Moved(g, lim, limit, FenceSamples(id, pid, reason));
    CallWaits(sampled, lim, limit, moves, id);
    FenceHitsOnlyItsBoot(After(sampled, lim, limit, moves).reg, lim, pid, g.reg.publishers[pid].boot, reason);
  }

  // ---- One batch, uninterrupted ----------------------------------------

  /** The registry and the outcome counts after a batch. */
  ghost function Processed(r: Registry, lim: Limits, events: seq<Event>): (t: (Registry, Tally))
    ensures Size(t.1) == |events|
  {
    if events == [] then (r, NOTHING) else
    var before, e := Processed(r, lim, events[..|events| - 1]), events[|events| - 1];
    (Ingested(before.0, lim, e), Counted(before.1, DispositionOf(before.0, lim, e)))
  }

  lemma AddThenSubtract(pending: U64, n: nat)
    requires n <= MAX_BATCH
    ensures ((pending + n) % WRAP - n) % WRAP == pending
  {}

  class Gatekeeper {
    const coordinator: Coordinator
    const limit: U64
    var pending: U64
    var backpressure: nat

    constructor (coordinator: Coordinator, limit: U64)
      ensures this.coordinator == coordinator && this.limit == limit && pending == 0 && backpressure == 0
    {
      this.coordinator, this.limit, pending, backpressure := coordinator, limit, 0, 0;
    }

    method IngestEvent(e: Event) returns (d: Decision)
      modifies coordinator
      ensures coordinator.View() == Ingested(old(coordinator.View()), coordinator.lim, e)
      ensures d == DispositionOf(old(coordinator.View()), coordinator.lim, e)
    {
      hide Ingest, Disposed;
      d := Decision(Rejected, Some(InvalidArgument), 0);
      if e.Offered? {
        d := coordinator.IngestOne(e.f);
      }
    }

    method IngestEach(events: seq<Event>) returns (tally: Tally)
      modifies coordinator
      ensures (coordinator.View(), tally) == Processed(old(coordinator.View()), coordinator.lim, events)
    {
      hide Ingested, DispositionOf, Counted, Size;
      ghost var start, lim := coordinator.View(), coordinator.lim;
      tally := NOTHING;
      for i := 0 to |events|
        invariant (coordinator.View(), tally) == Processed(start, lim, events[..i])
      {
        assert events[..i + 1][..i] == events[..i];
        var d := IngestEvent(events[i]);
        tally := Counted(tally, d);
      }
      assert events[..|events|] == events;
    }

    method IngestBatch(events: seq<Event>) returns (r: Result<Tally>)
      modifies this`pending, this`backpressure, coordinator
      ensures pending == old(pending)
      ensures |events| == 0 ==> r == Err(InvalidArgument)
      ensures |events| > MAX_BATCH ==> r == Err(TooLarge)
      ensures 0 < |events| <= MAX_BATCH ==> (r == Err(Capacity) <==> (old(pending) + |events|) % WRAP > limit)
      ensures r.Ok? ==> (coordinator.View(), r.value) == Processed(old(coordinator.View()), coordinator.lim, events)
      ensures r.Ok? ==> Size(r.value) == |events|
      ensures r.Err? ==> coordinator.View() == old(coordinator.View())
      ensures backpressure == old(backpressure) + if r == Err(Capacity) then |events| else 0
    {
      hide Processed;
      if |events| == 0 {
        return Err(InvalidArgument);
      }
      if |events| > MAX_BATCH {
        return Err(TooLarge);
      }
      if (pending + |events|) % WRAP > limit {
        backpressure := backpressure + |events|;
        return Err(Capacity);
      }
      pending := (pending + |events|) % WRAP;
      var tally := IngestEach(events);
      AddThenSubtract(old(pending), |events|);
      pending := (pending - |events|) % WRAP;
      return Ok(tally);
    }
  }
}
