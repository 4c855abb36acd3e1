/**
 Restart safety from what a coordinator does (src/coordinator.cpp:144-153,
 836-920): sessions that end fence their boots, a shutdown fences those still
 open, then saves, and the next incarnation loads.
 */
module Cycles {
  import opened Machine
  import opened Text
  import opened Authority
  import opened Replay
  import opened ExactlyOnce

  /** A publisher that is not live has its newest sequence in the durable table. */
  ghost predicate RestRecorded(r: Registry)
  {
    r.enforceCurrent && forall p :: p in r.publishers && !Live(r.publishers[p]) ==> Recorded(r, p)
  }

  lemma RegisterRecords(r: Registry, lim: Limits, q: Registration, p: string)
    requires p in r.publishers && !Live(r.publishers[p]) ==> Recorded(r, p)
    ensures var t := Register(r, lim, q).0;
            p in t.publishers && !Live(t.publishers[p]) ==> Recorded(t, p)
  {
    hide BootKey, ValidToken;
    if p != q.pid && p in r.publishers {
      if EntryFor(r, p) == BootKey(q.pid, q.boot) { BootKeyInjective(p, r.publishers[p].boot, q.pid, q.boot); }
      if q.pid in r.publishers && EntryFor(r, p) == BootKey(q.pid, r.publishers[q.pid].boot) {
        BootKeyInjective(p, r.publishers[p].boot, q.pid, r.publishers[q.pid].boot);
      }
    }
  }

  lemma StepRecords(w: World, lim: Limits, a: Action)
    requires RestRecorded(w.reg) && Clean(w, lim, a)
    ensures RestRecorded(Step(w, lim, a).reg)
  {
    hide Recorded, Register, Fence, Merged, FileIsFresh, FenceKeepsTable;
    var v := Step(w, lim, a);
    match a
    case DoRegister(q) =>
      forall p | p in v.reg.publishers && !Live(v.reg.publishers[p])
        ensures Recorded(v.reg, p)
      {
        RegisterRecords(w.reg, lim, q, p);
      }
      RegisterKeepsMode(w.reg, lim, q);
    case DoFence(pid, boot, reason) => FenceStays(w.reg, lim, pid, boot, reason);
    case DoIngest(f) => IngestStays(w.reg, lim, f);
    case DoSave =>
    case DoLoad =>
  }

  lemma RegisterKeepsMode(r: Registry, lim: Limits, q: Registration)
    ensures Register(r, lim, q).0.enforceCurrent == r.enforceCurrent
  {
    hide BootKey, ValidToken;
  }

  lemma FenceStays(r: Registry, lim: Limits, pid: string, boot: U64, reason: FenceReason)
    requires RestRecorded(r) && FenceKeepsTable(r, lim, pid, boot, reason)
    ensures RestRecorded(Fence(r, lim, pid, boot, reason).0)
  {
    hide Recorded, BootKey, Evict, FenceKeepsTable;
    var t := Fence(r, lim, pid, boot, reason).0;
    if BoundTo(r, pid, boot) {
      forall p | p in t.publishers && !Live(t.publishers[p])
        ensures Recorded(t, p)
      {
        FenceRecords(r, lim, pid, boot, reason, p);
      }
    }
  }

  lemma IngestStays(r: Registry, lim: Limits, f: Offering)
    requires RestRecorded(r)
    ensures RestRecorded(Ingest(r, lim, f))
  {
    hide BootKey;
    var t := Ingest(r, lim, f);
    forall p | p in t.publishers && !Live(t.publishers[p])
      ensures Recorded(t, p)
    {
      assert Recorded(r, p);
    }
  }

  lemma {:induction false} RunRecords(w: World, lim: Limits, actions: seq<Action>)
    requires RestRecorded(w.reg) && CleanRun(w, lim, actions)
    ensures RestRecorded(Run(w, lim, actions).reg)
    decreases |actions|
  {
    hide RestRecorded, Step, Clean;
    if actions != [] {
      StepRecords(w, lim, actions[0]);
      RunRecords(Step(w, lim, actions[0]), lim, actions[1..]);
    }
  }

  lemma {:induction false} RunsCompose(w: World, lim: Limits, a: seq<Action>, b: seq<Action>)
    ensures Run(w, lim, a + b) == Run(Run(w, lim, a), lim, b)
    ensures CleanRun(w, lim, a + b) <==> CleanRun(w, lim, a) && CleanRun(Run(w, lim, a), lim, b)
    decreases |a|
  {
    hide Step, Clean;
    if a == [] {
      assert a + b == b;
    } else {
      RunsCompose(Step(w, lim, a[0]), lim, a[1..], b);
      assert (a + b)[1..] == a[1..] + b && (a + b)[0] == a[0];
    }
  }

  // ---- Cycles ----------------------------------------------------------

  /** One incarnation: its work, and the publishers it fences when it shuts down. */
  datatype Cycle = Cycle(work: seq<Action>, pids: seq<string>, reason: FenceReason)

  ghost predicate NoLoads(work: seq<Action>)
  {
    forall i :: 0 <= i < |work| ==> !work[i].DoLoad?
  }

  /** No load, and no fence pushes an entry out of the table. */
  ghost predicate Works(w: World, lim: Limits, work: seq<Action>)
  {
    NoLoads(work) && CleanRun(w, lim, work)
  }

  /** The shutdown fences every live boot, and these fences push no entry out of the table either. */
  ghost predicate ShutsDown(w: World, lim: Limits, pids: seq<string>, reason: FenceReason)
  {
    && (forall i :: 0 <= i < |pids| ==> pids[i] in w.reg.publishers)
    && (forall p :: p in w.reg.publishers && Live(w.reg.publishers[p]) ==> p in pids)
    && CleanRun(w, lim, Shutdown(w.reg, pids, reason))
  }

  ghost predicate Orderly(w: World, lim: Limits, c: Cycle)
  {
    Works(w, lim, c.work) && ShutsDown(Run(w, lim, c.work), lim, c.pids, c.reason)
  }

  ghost function Life(w: World, lim: Limits, c: Cycle): (actions: seq<Action>)
    requires Orderly(w, lim, c)
  {
    c.work + Shutdown(Run(w, lim, c.work).reg, c.pids, c.reason) + [DoLoad]
  }

  ghost predicate AllOrderly(w: World, lim: Limits, cs: seq<Cycle>)
    decreases |cs|
  {
    cs == [] || (Orderly(w, lim, cs[0]) && AllOrderly(Run(w, lim, Life(w, lim, cs[0])), lim, cs[1..]))
  }

  ghost function History(w: World, lim: Limits, cs: seq<Cycle>): (actions: seq<Action>)
    requires AllOrderly(w, lim, cs)
    decreases |cs|
  {
    if cs == [] then [] else
    Life(w, lim, cs[0]) + History(Run(w, lim, Life(w, lim, cs[0])), lim, cs[1..])
  }

  lemma LifeIsClean(w: World, lim: Limits, c: Cycle)
    requires RestRecorded(w.reg) && Orderly(w, lim, c)
    ensures CleanRun(w, lim, Life(w, lim, c)) && RestRecorded(Run(w, lim, Life(w, lim, c)).reg)
  {
    hide Run, CleanRun, Shutdown, Recorded;
    var v := Run(w, lim, c.work);
    RunRecords(w, lim, c.work);
    var down := Shutdown(v.reg, c.pids, c.reason);
    RunsCompose(w, lim, c.work, down);
    ShutdownIsFresh(v, lim, c.pids, c.reason);
    RunsCompose(w, lim, c.work + down, [DoLoad]);
    OneAction(Run(v, lim, down), lim, DoLoad);
    RunRecords(w, lim, Life(w, lim, c));
  }

  lemma OneAction(w: World, lim: Limits, a: Action)
    ensures CleanRun(w, lim, [a]) <==> Clean(w, lim, a)
  {
    hide Step, Clean;
    assert [a][1..] == [];
  }

  lemma {:induction false} HistoryIsClean(w: World, lim: Limits, cs: seq<Cycle>)
    requires RestRecorded(w.reg) && AllOrderly(w, lim, cs)
    ensures CleanRun(w, lim, History(w, lim, cs))
    decreases |cs|
  {
    hide Run, Orderly, Life, RestRecorded, CleanRun;
    if cs == [] {
      NothingIsClean(w, lim);
    } else {
      var life := Life(w, lim, cs[0]);
      LifeIsClean(w, lim, cs[0]);
      HistoryIsClean(Run(w, lim, life), lim, cs[1..]);
      RunsCompose(w, lim, life, History(Run(w, lim, life), lim, cs[1..]));
    }
  }

  lemma NothingIsClean(w: World, lim: Limits)
    ensures CleanRun(w, lim, [])
  {}

  /** Over any number of orderly incarnations and the work of one more, a boot never has a sequence of an
      earlier incarnation accepted again, and what it repeats within one lies a window apart. */
  lemma OrderlyNeverReplays(w: World, lim: Limits, cs: seq<Cycle>, last: seq<Action>, i: nat, j: nat)
    requires Initial(w) && w.reg.enforceCurrent && AllOrderly(w, lim, cs)
    requires Works(Run(w, lim, History(w, lim, cs)), lim, last)
    requires var log := Run(w, lim, History(w, lim, cs) + last).log; i < j < |log| && SameBoot(log[i], log[j])
    ensures var log := Run(w, lim, History(w, lim, cs) + last).log;
            && (log[i].incarnation < log[j].incarnation ==> log[i].s < log[j].s)
            && (log[i].s == log[j].s ==> log[i].incarnation == log[j].incarnation && FarApart(log, i, j, lim.window))
  {
    hide Run, CleanRun, AllOrderly, History, FarApart;
    HistoryIsClean(w, lim, cs);
    var actions := History(w, lim, cs) + last;
    RunsCompose(w, lim, History(w, lim, cs), last);
    var log := Run(w, lim, actions).log;
    if log[i].incarnation < log[j].incarnation { NoReplayAcrossRestarts(w, lim, actions, i, j); }
    if log[i].s == log[j].s { AcceptedTwiceOnlyFarApart(w, lim, actions, i, j); }
  }
}
