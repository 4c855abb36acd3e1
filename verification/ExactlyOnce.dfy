/**
 Exactly-once over whole runs. Every publisher's sequence space is a run of the
 per-boot protocol, so the separation proved for one boot holds in the history
 of the whole coordinator.
 */
module ExactlyOnce {
  import opened Machine
  import opened Sequence
  import opened Text
  import opened Authority
  import opened Replay

  /** What one boot accepted in one incarnation, in order. */
  ghost function BootLog(log: seq<Acceptance>, incarnation: nat, pid: string, boot: U64): (r: seq<SeqNo>)
  {
    if log == [] then [] else
    var n := |log| - 1;
    var before := BootLog(log[..n], incarnation, pid, boot);
    if log[n].incarnation == incarnation && log[n].pid == pid && log[n].boot == boot then before + [log[n].s] else before
  }

  lemma {:induction false} BootLogConcat(a: seq<Acceptance>, b: seq<Acceptance>, incarnation: nat, pid: string, boot: U64)
    ensures BootLog(a + b, incarnation, pid, boot) == BootLog(a, incarnation, pid, boot) + BootLog(b, incarnation, pid, boot)
    decreases |b|
  {
    if b == [] {
      assert a + b == a;
    } else {
      var n := |b| - 1;
      assert (a + b)[..|a + b| - 1] == a + b[..n];
      BootLogConcat(a, b[..n], incarnation, pid, boot);
    }
  }

  lemma BootLogOne(a: Acceptance, incarnation: nat, pid: string, boot: U64)
    ensures BootLog([a], incarnation, pid, boot) ==
            if a.incarnation == incarnation && a.pid == pid && a.boot == boot then [a.s] else []
  {
    assert [a][..0] == [];
  }

  lemma BootLogSnoc(log: seq<Acceptance>, a: Acceptance, incarnation: nat, pid: string, boot: U64)
    ensures BootLog(log + [a], incarnation, pid, boot) ==
            BootLog(log, incarnation, pid, boot)
            + if a.incarnation == incarnation && a.pid == pid && a.boot == boot then [a.s] else []
  {
    BootLogConcat(log, [a], incarnation, pid, boot);
    BootLogOne(a, incarnation, pid, boot);
  }

  lemma {:induction false} BootLogEmpty(log: seq<Acceptance>, incarnation: nat, pid: string, boot: U64)
    requires forall i :: 0 <= i < |log| ==> !(log[i].incarnation == incarnation && log[i].pid == pid && log[i].boot == boot)
    ensures BootLog(log, incarnation, pid, boot) == []
  {
    if log != [] { BootLogEmpty(log[..|log| - 1], incarnation, pid, boot); }
  }

  // ---- Spaces are runs -------------------------------------------------

  ghost predicate IsRun(space: BootSequence, log: seq<SeqNo>, lim: Limits)
  {
    exists o, arrivals :: BootRun(o, lim.window, lim.eventIds, arrivals) == Trace(space, log)
  }

  lemma StartIsRun(o: Origin, lim: Limits)
    ensures IsRun(Start(o), [], lim)
  {
    assert BootRun(o, lim.window, lim.eventIds, []) == Trace(Start(o), []);
  }

  lemma OfferExtendsRun(space: BootSequence, log: seq<SeqNo>, lim: Limits, a: Arrival)
    requires IsRun(space, log, lim) && Admits(space, lim.window, a)
    ensures IsRun(Offer(space, lim.window, lim.eventIds, a), log + [a.s], lim)
    ensures RepeatsAreFar(log + [a.s], lim.window)
  {
    hide Offer, Admits, BootRun;
    var o, arrivals :| BootRun(o, lim.window, lim.eventIds, arrivals) == Trace(space, log);
    RunSnoc(o, lim.window, lim.eventIds, arrivals, a);
    RunKeeps(o, lim.window, lim.eventIds, arrivals + [a]);
  }

  /** A boot that has accepted nothing still is as it started. */
  lemma {:induction false} NothingAccepted(o: Origin, lim: Limits, arrivals: seq<Arrival>)
    requires BootRun(o, lim.window, lim.eventIds, arrivals).log == []
    ensures BootRun(o, lim.window, lim.eventIds, arrivals).p == Start(o)
  {
    hide Account, ConflictingId, CommitSequence, CommitEventId;
    if arrivals != [] {
      var n := |arrivals| - 1;
      NothingAccepted(o, lim, arrivals[..n]);
      assert !Admits(BootRun(o, lim.window, lim.eventIds, arrivals[..n]).p, lim.window, arrivals[n]);
    }
  }

  /** Restoring a durable watermark into a space without one gives the restored start. */
  lemma RestoreIsRun(space: BootSequence, log: seq<SeqNo>, lim: Limits, high: U64)
    requires IsRun(space, log, lim) && !space.hasWatermark
    ensures log == [] && IsRun(space.(hasWatermark := true, high := high, durable := true), [], lim)
  {
    hide BootRun, RepeatsAreFar, WindowIsRecent;
    var o, arrivals :| BootRun(o, lim.window, lim.eventIds, arrivals) == Trace(space, log);
    RunKeeps(o, lim.window, lim.eventIds, arrivals);
    NothingAccepted(o, lim, arrivals);
    assert space.(hasWatermark := true, high := high, durable := true) == Start(Restored(high));
    StartIsRun(Restored(high), lim);
  }

  ghost predicate SpacesAreRuns(w: World, lim: Limits)
  {
    forall pid :: pid in w.reg.publishers ==> SpaceIsRun(w.reg, w.log, w.incarnation, lim, pid)
  }

  ghost predicate SpaceIsRun(r: Registry, log: seq<Acceptance>, incarnation: nat, lim: Limits, pid: string)
    requires pid in r.publishers
  {
    IsRun(r.publishers[pid].space, BootLog(log, incarnation, pid, r.publishers[pid].boot), lim)
  }

  /** A boot that accepted in this incarnation and is no longer bound is recorded as fenced. */
  ghost predicate ReplacedAreFenced(w: World)
  {
    forall i :: 0 <= i < |w.log| && w.log[i].incarnation == w.incarnation && !BoundTo(w.reg, w.log[i].pid, w.log[i].boot) ==>
      RecordedFenced(w.reg, w.log[i].pid, w.log[i].boot)
  }

  ghost predicate RecordedFenced(r: Registry, pid: string, boot: U64)
  {
    var key := BootKey(pid, boot);
    key in r.watermarks && r.watermarks[key].fenced
  }

  // ---- Repeats in the history ------------------------------------------

  /** Between two acceptances of one sequence by one boot in one incarnation, the boot accepted at
      least `w` others, one of them smaller. */
  ghost predicate RepeatsAreFarApart(log: seq<Acceptance>, w: nat)
  {
    forall i, j :: 0 <= i < j < |log| && log[i] == log[j] ==> FarApart(log, i, j, w)
  }

  ghost predicate FarApart(log: seq<Acceptance>, i: nat, j: nat, w: nat)
    requires i < j <= |log|
  {
    var between := BootLog(log[i + 1..j], log[i].incarnation, log[i].pid, log[i].boot);
    |between| >= w && exists k :: 0 <= k < |between| && between[k] < log[i].s
  }

  lemma NewRepeatIsFar(log: seq<Acceptance>, a: Acceptance, w: nat, i: nat)
    requires i < |log| && log[i] == a
    requires RepeatsAreFar(BootLog(log, a.incarnation, a.pid, a.boot) + [a.s], w)
    ensures FarApart(log + [a], i, |log|, w)
  {
    hide RepeatsAreFar, BootLog;
    var before := BootLog(log[..i], a.incarnation, a.pid, a.boot);
    var between := BootLog(log[i + 1..], a.incarnation, a.pid, a.boot);
    assert log == log[..i] + ([a] + log[i + 1..]);
    BootLogConcat(log[..i], [a] + log[i + 1..], a.incarnation, a.pid, a.boot);
    BootLogConcat([a], log[i + 1..], a.incarnation, a.pid, a.boot);
    BootLogOne(a, a.incarnation, a.pid, a.boot);
    DipAfter(before, a.s, between, BootLog(log, a.incarnation, a.pid, a.boot), w);
    assert (log + [a])[i + 1..|log|] == log[i + 1..];
  }

  lemma DipAfter(before: seq<SeqNo>, s: SeqNo, between: seq<SeqNo>, mine: seq<SeqNo>, w: nat)
    requires mine == before + ([s] + between) && RepeatsAreFar(mine + [s], w)
    ensures |between| >= w && exists k :: 0 <= k < |between| && between[k] < s
  {
    var all, p, q := mine + [s], |before|, |mine|;
    assert all[p] == s == all[q];
    assert q - p > w && DipBetween(all, p, q);
    var k :| p < k < q && all[k] < all[p];
    assert between[k - p - 1] == all[k];
  }

  lemma OldRepeatStaysFar(log: seq<Acceptance>, a: Acceptance, w: nat, i: nat, j: nat)
    requires i < j < |log| && FarApart(log, i, j, w)
    ensures FarApart(log + [a], i, j, w)
  {
    assert (log + [a])[i + 1..j] == log[i + 1..j];
  }

  lemma AcceptanceStaysFar(log: seq<Acceptance>, a: Acceptance, w: nat)
    requires RepeatsAreFarApart(log, w)
    requires RepeatsAreFar(BootLog(log, a.incarnation, a.pid, a.boot) + [a.s], w)
    ensures RepeatsAreFarApart(log + [a], w)
  {
    hide FarApart, RepeatsAreFar, BootLog;
    var log' := log + [a];
    forall i, j | 0 <= i < j < |log'| && log'[i] == log'[j]
      ensures FarApart(log', i, j, w)
    {
      if j < |log| { OldRepeatStaysFar(log, a, w, i, j); } else { NewRepeatIsFar(log, a, w, i); }
    }
  }

  // ---- Every step ------------------------------------------------------

  ghost predicate Inv(w: World, lim: Limits)
  {
    && NotFuture(w.log, w.incarnation)
    && SpacesAreRuns(w, lim)
    && ReplacedAreFenced(w)
    && RepeatsAreFarApart(w.log, lim.window)
  }

  lemma RegisterFenced(r: Registry, lim: Limits, q: Registration, pid: string, boot: U64)
    requires BoundTo(r, pid, boot) || RecordedFenced(r, pid, boot)
    ensures var t := Register(r, lim, q).0; BoundTo(t, pid, boot) || RecordedFenced(t, pid, boot)
  {
    hide BootKey, ValidToken;
    if BootKey(q.pid, q.boot) == BootKey(pid, boot) { BootKeyInjective(q.pid, q.boot, pid, boot); }
  }

  lemma RegisterRuns(w: World, lim: Limits, q: Registration)
    requires Inv(w, lim) && Register(w.reg, lim, q).1.Ok?
    ensures SpaceIsRun(Register(w.reg, lim, q).0, w.log, w.incarnation, lim, q.pid)
  {
    hide IsRun, Start, ValidToken, BootKey;
    var r := w.reg;
    var before := if q.pid in r.publishers then r.publishers[q.pid] else UNREGISTERED;
    var after := Register(r, lim, q).0.publishers[q.pid];
    if BoundTo(r, q.pid, q.boot) {
      assert SpaceIsRun(r, w.log, w.incarnation, lim, q.pid);
      if !before.space.hasWatermark {
        RestoreIsRun(before.space, BootLog(w.log, w.incarnation, q.pid, q.boot), lim, after.space.high);
      }
    } else {
      BootIsNew(w, lim, q);
      StartIsRun(Fresh(before.space.durable), lim);
      FreshHasNone(before.space.durable);
      RestoreIsRun(Start(Fresh(before.space.durable)), [], lim, after.space.high);
    }
  }

  lemma FreshHasNone(durable: bool)
    ensures !Start(Fresh(durable)).hasWatermark
  {}

  /** A boot that registers without being bound has accepted nothing in this incarnation. */
  lemma BootIsNew(w: World, lim: Limits, q: Registration)
    requires ReplacedAreFenced(w) && Register(w.reg, lim, q).1.Ok? && !BoundTo(w.reg, q.pid, q.boot)
    ensures BootLog(w.log, w.incarnation, q.pid, q.boot) == []
  {
    hide ValidToken, BootKey;
    if q.pid in w.reg.publishers && BootKey(q.pid, w.reg.publishers[q.pid].boot) == BootKey(q.pid, q.boot) {
      BootKeyInjective(q.pid, w.reg.publishers[q.pid].boot, q.pid, q.boot);
    }
    assert !RecordedFenced(w.reg, q.pid, q.boot);
    BootLogEmpty(w.log, w.incarnation, q.pid, q.boot);
  }

  lemma RegisterKeeps(w: World, lim: Limits, q: Registration)
    requires Inv(w, lim)
    ensures Inv(Step(w, lim, DoRegister(q)), lim)
  {
    hide BootLog, IsRun, RepeatsAreFarApart, RecordedFenced;
    var v := Step(w, lim, DoRegister(q));
    var t := Register(w.reg, lim, q);
    forall pid | pid in v.reg.publishers
      ensures SpaceIsRun(v.reg, v.log, v.incarnation, lim, pid)
    {
      OthersKept(w.reg, lim, q, pid);
      if pid == q.pid && t.1.Ok? {
        RegisterRuns(w, lim, q);
      } else {
        assert SpaceIsRun(w.reg, w.log, w.incarnation, lim, pid);
      }
    }
    hide Register;
    forall i | 0 <= i < |w.log| && w.log[i].incarnation == w.incarnation
      ensures BoundTo(v.reg, w.log[i].pid, w.log[i].boot) || RecordedFenced(v.reg, w.log[i].pid, w.log[i].boot)
    {
      RegisterFenced(w.reg, lim, q, w.log[i].pid, w.log[i].boot);
    }
  }

  lemma OthersKept(r: Registry, lim: Limits, q: Registration, pid: string)
    requires pid in Register(r, lim, q).0.publishers
    ensures pid != q.pid || Register(r, lim, q).1.Err? ==>
              pid in r.publishers && Register(r, lim, q).0.publishers[pid] == r.publishers[pid]
  {
    hide BootKey, ValidToken, Superseding, Bound;
  }

  lemma FenceKeeps(w: World, lim: Limits, p: string, boot: U64, reason: FenceReason)
    requires Inv(w, lim) && FenceKeepsTable(w.reg, lim, p, boot, reason)
    ensures Inv(Step(w, lim, DoFence(p, boot, reason)), lim)
  {
    hide BootLog, IsRun, RepeatsAreFarApart, BootKey;
    var v := Step(w, lim, DoFence(p, boot, reason));
    forall pid | pid in v.reg.publishers
      ensures SpaceIsRun(v.reg, v.log, v.incarnation, lim, pid)
    {
      assert SpaceIsRun(w.reg, w.log, w.incarnation, lim, pid);
    }
  }

  lemma IngestKeeps(w: World, lim: Limits, f: Offering)
    requires Inv(w, lim)
    ensures Inv(Step(w, lim, DoIngest(f)), lim)
  {
    hide IsRun, RepeatsAreFarApart, RecordedFenced, Offer, Admits, BootLog;
    if Accepts(w.reg, lim, f) {
      var v := Step(w, lim, DoIngest(f));
      var a := Acceptance(w.incarnation, f.pid, f.boot, f.arrival.s);
      var p := w.reg.publishers[f.pid];
      assert SpaceIsRun(w.reg, w.log, w.incarnation, lim, f.pid);
      OfferExtendsRun(p.space, BootLog(w.log, w.incarnation, f.pid, f.boot), lim, f.arrival);
      AcceptanceStaysFar(w.log, a, lim.window);
      forall pid | pid in v.reg.publishers
        ensures SpaceIsRun(v.reg, v.log, v.incarnation, lim, pid)
      {
        assert SpaceIsRun(w.reg, w.log, w.incarnation, lim, pid);
        var boot := v.reg.publishers[pid].boot;
        BootLogSnoc(w.log, a, w.incarnation, pid, boot);
        assert BootLog(w.log, w.incarnation, pid, boot) + [] == BootLog(w.log, w.incarnation, pid, boot);
      }
      SameBindings(w, lim, f);
    }
  }

  lemma SameBindings(w: World, lim: Limits, f: Offering)
    requires Accepts(w.reg, lim, f) && ReplacedAreFenced(w)
    ensures ReplacedAreFenced(Step(w, lim, DoIngest(f)))
  {
    hide Offer, Admits;
    var v := Step(w, lim, DoIngest(f));
    forall i | 0 <= i < |v.log| && v.log[i].incarnation == v.incarnation && !BoundTo(v.reg, v.log[i].pid, v.log[i].boot)
      ensures RecordedFenced(v.reg, v.log[i].pid, v.log[i].boot)
    {
      assert i < |w.log| && !BoundTo(w.reg, w.log[i].pid, w.log[i].boot);
    }
  }

  lemma StepKeeps(w: World, lim: Limits, a: Action)
    requires Inv(w, lim) && Clean(w, lim, a)
    ensures Inv(Step(w, lim, a), lim)
  {
    match a
    case DoRegister(q) => RegisterKeeps(w, lim, q);
    case DoFence(p, boot, reason) => FenceKeeps(w, lim, p, boot, reason);
    case DoIngest(f) => IngestKeeps(w, lim, f);
    case DoSave => hide IsRun, RepeatsAreFarApart, BootLog, RecordedFenced;
    case DoLoad => hide IsRun, RepeatsAreFarApart, BootLog, RecordedFenced;
  }

  lemma {:induction false} RunKeepsAll(w: World, lim: Limits, actions: seq<Action>)
    requires Inv(w, lim) && CleanRun(w, lim, actions)
    ensures Inv(Run(w, lim, actions), lim)
    decreases |actions|
  {
    hide Step, Clean, Inv;
    if actions != [] {
      StepKeeps(w, lim, actions[0]);
      RunKeepsAll(Step(w, lim, actions[0]), lim, actions[1..]);
    }
  }

  /** The whole replay guarantee. In every clean run from a fresh coordinator, if one boot's sequence
      is accepted twice, both acceptances fall into one incarnation and the boot accepted at least
      a window of other sequences in between, one of them smaller. */
  lemma AcceptedTwiceOnlyFarApart(w: World, lim: Limits, actions: seq<Action>, i: nat, j: nat)
    requires Initial(w) && CleanRun(w, lim, actions)
    requires var log := Run(w, lim, actions).log;
             i < j < |log| && SameBoot(log[i], log[j]) && log[i].s == log[j].s
    ensures var log := Run(w, lim, actions).log;
            log[i].incarnation == log[j].incarnation && FarApart(log, i, j, lim.window)
  {
    hide FarApart, CleanRun, Run;
    RunKeepsAll(w, lim, actions);
    var log := Run(w, lim, actions).log;
    if log[i].incarnation != log[j].incarnation { NoReplayAcrossRestarts(w, lim, actions, i, j); }
  }
}
