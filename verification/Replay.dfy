/**
 Safety of publisher authority over whole runs: registrations, fences,
 arrivals, saves and loads in any order, with a log of everything ever accepted
 across coordinator incarnations.
 */
module Replay {
  import opened Machine
  import opened Sequence
  import opened Text
  import opened Authority

  datatype Acceptance = Acceptance(incarnation: nat, pid: string, boot: U64, s: SeqNo)

  datatype StateFile = StateFile(epoch: nat, table: map<string, Watermark>)

  /** The registry, the last state file written, and the history of acceptances. */
  datatype World = World(reg: Registry, disk: Option<StateFile>, incarnation: nat, log: seq<Acceptance>)

  datatype Action =
    | DoRegister(q: Registration)
    | DoFence(pid: string, boot: U64, reason: FenceReason)
    | DoIngest(f: Offering)
    | DoSave
    | DoLoad

  ghost function Step(w: World, lim: Limits, a: Action): (v: World)
  {
    match a
    case DoRegister(q) => w.(reg := Register(w.reg, lim, q).0)
    case DoFence(pid, boot, reason) => w.(reg := Fence(w.reg, lim, pid, boot, reason).0)
    case DoIngest(f) =>
      if Accepts(w.reg, lim, f) then
        w.(reg := Ingest(w.reg, lim, f), log := w.log + [Acceptance(w.incarnation, f.pid, f.boot, f.arrival.s)])
      else w
    case DoSave => w.(disk := Some(StateFile(w.reg.epoch, Merged(w.reg))))
    case DoLoad =>
      if w.disk.None? then w else
      var (reg, r) := Load(w.reg, lim, w.disk.value.epoch, w.disk.value.table);
      if r.Ok? then w.(reg := reg, incarnation := w.incarnation + 1) else w
  }

  ghost function Run(w: World, lim: Limits, actions: seq<Action>): (v: World)
    decreases |actions|
  {
    if actions == [] then w else Run(Step(w, lim, actions[0]), lim, actions[1..])
  }

  /** A coordinator that has just started without a state file. */
  ghost predicate Initial(w: World)
  {
    w.reg.publishers == map[] && w.reg.watermarks == map[] && w.disk.None? && w.log == []
  }

  // ---- The conditions a run must meet ----------------------------------

  ghost predicate Covers(t: map<string, Watermark>, key: string, s: nat)
  {
    key in t && t[key].has && s <= t[key].high
  }

  /** Nothing the registry knows would be forgotten by loading this file. */
  ghost predicate FileIsFresh(r: Registry, t: map<string, Watermark>)
  {
    && (forall pid :: pid in r.publishers && r.publishers[pid].space.hasWatermark ==>
          Covers(t, EntryFor(r, pid), r.publishers[pid].space.high))
    && (forall key :: key in r.watermarks && r.watermarks[key].has ==> Covers(t, key, r.watermarks[key].high))
  }

  /** The fence leaves the table within its bound, so nothing is evicted. */
  ghost predicate FenceKeepsTable(r: Registry, lim: Limits, pid: string, boot: U64, reason: FenceReason)
  {
    pid in r.publishers && r.publishers[pid].boot == boot ==>
      |FencedTable(r, pid, boot, reason)| <= lim.watermarks
  }

  ghost predicate Clean(w: World, lim: Limits, a: Action)
  {
    match a
    case DoFence(pid, boot, reason) => FenceKeepsTable(w.reg, lim, pid, boot, reason)
    case DoLoad => w.disk.Some? ==> FileIsFresh(w.reg, w.disk.value.table)
    case _ => true
  }

  ghost predicate CleanRun(w: World, lim: Limits, actions: seq<Action>)
    decreases |actions|
  {
    actions == [] || (Clean(w, lim, actions[0]) && CleanRun(Step(w, lim, actions[0]), lim, actions[1..]))
  }

  // ---- Coverage --------------------------------------------------------

  ghost predicate BoundTo(r: Registry, pid: string, boot: U64)
  {
    pid in r.publishers && r.publishers[pid].boot == boot
  }

  /** An acceptance is remembered: by its boot's own watermark, under which replays from an
      earlier incarnation are refused outright, or by the boot's durable entry. */
  ghost predicate Remembered(r: Registry, incarnation: nat, a: Acceptance)
  {
    if BoundTo(r, a.pid, a.boot) then
      var space := r.publishers[a.pid].space;
      space.hasWatermark && a.s <= space.high && (a.incarnation < incarnation ==> space.durable)
    else
      Covers(r.watermarks, BootKey(a.pid, a.boot), a.s)
  }

  ghost predicate AllRemembered(r: Registry, incarnation: nat, log: seq<Acceptance>)
  {
    forall i :: 0 <= i < |log| ==> Remembered(r, incarnation, log[i])
  }

  /** Across incarnations a boot's accepted sequences only grow. */
  ghost predicate GrowsAcrossRestarts(log: seq<Acceptance>)
  {
    forall i, j :: 0 <= i < j < |log| && SameBoot(log[i], log[j]) && log[i].incarnation < log[j].incarnation ==>
      log[i].s < log[j].s
  }

  ghost predicate SameBoot(a: Acceptance, b: Acceptance)
  {
    a.pid == b.pid && a.boot == b.boot
  }

  ghost predicate NotFuture(log: seq<Acceptance>, incarnation: nat)
  {
    forall i :: 0 <= i < |log| ==> log[i].incarnation <= incarnation
  }

  lemma RegisterRemembers(r: Registry, lim: Limits, q: Registration, incarnation: nat, a: Acceptance)
    requires Remembered(r, incarnation, a)
    ensures Remembered(Register(r, lim, q).0, incarnation, a)
  {
    hide BootKey, ValidToken;
    var t := Superseding(r, lim, q);
    if t.Ok? {
      var key := BootKey(a.pid, a.boot);
      if BootKey(q.pid, q.boot) == key { BootKeyInjective(q.pid, q.boot, a.pid, a.boot); }
      if q.pid in r.publishers && BootKey(q.pid, r.publishers[q.pid].boot) == key {
        BootKeyInjective(q.pid, r.publishers[q.pid].boot, a.pid, a.boot);
      }
    }
  }

  lemma FenceRemembers(r: Registry, lim: Limits, pid: string, boot: U64, reason: FenceReason, incarnation: nat, a: Acceptance)
    requires Remembered(r, incarnation, a) && FenceKeepsTable(r, lim, pid, boot, reason)
    ensures Remembered(Fence(r, lim, pid, boot, reason).0, incarnation, a)
  {
    hide BootKey;
    if BootKey(pid, boot) == BootKey(a.pid, a.boot) { BootKeyInjective(pid, boot, a.pid, a.boot); }
  }

  /** What one admission does to the watermark. */
  lemma OfferAdvances(p: BootSequence, w: nat, ids: nat, a: Arrival)
    requires Admits(p, w, a)
    ensures var q := Offer(p, w, ids, a);
            && q.hasWatermark && a.s <= q.high && q.durable == p.durable
            && (p.hasWatermark ==> p.high <= q.high)
            && (p.hasWatermark && p.durable ==> p.high < a.s)
  {
    hide Remember, ConflictingId;
  }

  lemma IngestRemembers(r: Registry, lim: Limits, f: Offering, incarnation: nat, a: Acceptance)
    requires Remembered(r, incarnation, a) && Accepts(r, lim, f)
    ensures Remembered(Ingest(r, lim, f), incarnation, a)
    ensures Remembered(Ingest(r, lim, f), incarnation, Acceptance(incarnation, f.pid, f.boot, f.arrival.s))
    ensures a.pid == f.pid && a.boot == f.boot && a.incarnation < incarnation ==> a.s < f.arrival.s
  {
    hide Offer, BootKey;
    OfferAdvances(r.publishers[f.pid].space, lim.window, lim.eventIds, f.arrival);
  }

  lemma LoadRemembers(r: Registry, lim: Limits, file: StateFile, incarnation: nat, a: Acceptance)
    requires Remembered(r, incarnation, a) && FileIsFresh(r, file.table)
    requires Load(r, lim, file.epoch, file.table).1.Ok?
    ensures Remembered(Load(r, lim, file.epoch, file.table).0, incarnation + 1, a)
  {
    hide BootKey;
  }

  ghost predicate Safe(w: World)
  {
    && AllRemembered(w.reg, w.incarnation, w.log)
    && GrowsAcrossRestarts(w.log)
    && NotFuture(w.log, w.incarnation)
  }

  lemma StepSafe(w: World, lim: Limits, a: Action)
    requires Safe(w) && Clean(w, lim, a)
    ensures Safe(Step(w, lim, a))
  {
    hide Remembered, Register, Fence, Load, Accepts, Ingest, FileIsFresh, FenceKeepsTable, Merged;
    var v := Step(w, lim, a);
    forall i | 0 <= i < |w.log|
      ensures Remembered(v.reg, v.incarnation, w.log[i])
    {
      match a
      case DoRegister(q) => RegisterRemembers(w.reg, lim, q, w.incarnation, w.log[i]);
      case DoFence(pid, boot, reason) => FenceRemembers(w.reg, lim, pid, boot, reason, w.incarnation, w.log[i]);
      case DoIngest(f) => if Accepts(w.reg, lim, f) { IngestRemembers(w.reg, lim, f, w.incarnation, w.log[i]); }
      case DoSave =>
      case DoLoad =>
        if w.disk.Some? && Load(w.reg, lim, w.disk.value.epoch, w.disk.value.table).1.Ok? {
          LoadRemembers(w.reg, lim, w.disk.value, w.incarnation, w.log[i]);
        }
    }
    if a.DoIngest? && Accepts(w.reg, lim, a.f) { AcceptanceSafe(w, lim, a.f); }
  }

  lemma AcceptanceSafe(w: World, lim: Limits, f: Offering)
    requires Safe(w) && Accepts(w.reg, lim, f)
    ensures Safe(Step(w, lim, DoIngest(f)))
  {
    hide Offer, BootKey, Admits;
    var v := Step(w, lim, DoIngest(f));
    OfferAdvances(w.reg.publishers[f.pid].space, lim.window, lim.eventIds, f.arrival);
    var latest := Acceptance(w.incarnation, f.pid, f.boot, f.arrival.s);
    assert Remembered(v.reg, v.incarnation, latest);
    forall i | 0 <= i < |w.log|
      ensures Remembered(v.reg, v.incarnation, w.log[i])
      ensures SameBoot(w.log[i], latest) && w.log[i].incarnation < w.incarnation ==> w.log[i].s < latest.s
    {
      IngestRemembers(w.reg, lim, f, w.incarnation, w.log[i]);
    }
  }

  lemma {:induction false} RunSafe(w: World, lim: Limits, actions: seq<Action>)
    requires Safe(w) && CleanRun(w, lim, actions)
    ensures Safe(Run(w, lim, actions))
    decreases |actions|
  {
    hide Step, Clean, Safe;
    if actions != [] {
      StepSafe(w, lim, actions[0]);
      RunSafe(Step(w, lim, actions[0]), lim, actions[1..]);
    }
  }

  /** Replay safety across restarts: when every load finds a fresh file and no fence overflows the
      table, a boot never accepts in a later incarnation a sequence, or any sequence below one, it
      accepted in an earlier incarnation. */
  lemma NoReplayAcrossRestarts(w: World, lim: Limits, actions: seq<Action>, i: nat, j: nat)
    requires Initial(w) && CleanRun(w, lim, actions)
    requires var log := Run(w, lim, actions).log;
             i < j < |log| && SameBoot(log[i], log[j]) && log[i].incarnation != log[j].incarnation
    ensures var log := Run(w, lim, actions).log;
            log[i].incarnation < log[j].incarnation && log[i].s < log[j].s
  {
    RunSafe(w, lim, actions);
    IncarnationsOrdered(w, lim, actions);
  }

  ghost predicate Ordered(log: seq<Acceptance>)
  {
    forall i, j :: 0 <= i < j < |log| ==> log[i].incarnation <= log[j].incarnation
  }

  lemma {:induction false} IncarnationsOrdered(w: World, lim: Limits, actions: seq<Action>)
    requires Ordered(w.log) && NotFuture(w.log, w.incarnation)
    ensures Ordered(Run(w, lim, actions).log)
    decreases |actions|
  {
    hide Register, Fence, Load, Accepts, Ingest, Merged;
    if actions != [] { IncarnationsOrdered(Step(w, lim, actions[0]), lim, actions[1..]); }
  }

  // ---- Exactly when a restart is safe ----------------------------------

  /** After a load, a re-registered boot refuses exactly the sequences its saved entry covers. */
  lemma RestartRefusesIff(r: Registry, lim: Limits, file: StateFile, q: Registration, a: Arrival)
    requires |file.table| <= lim.watermarks && lim.publishers > 0
    requires ValidToken(q.pid) && q.boot != 0 && q.epoch == 0
    ensures var loaded := Load(r, lim, file.epoch, file.table).0;
            var back := Register(loaded, lim, q);
            && back.1.Ok?
            && (Accepts(back.0, lim, Offering(q.pid, q.boot, back.0.epoch, a, q.now)) <==>
                  !Covers(file.table, BootKey(q.pid, q.boot), a.s))
  {
    hide BootKey, ValidToken;
    var loaded := Load(r, lim, file.epoch, file.table).0;
    assert Superseding(loaded, lim, q) == Ok(loaded.watermarks);
    var key := BootKey(q.pid, q.boot);
    assert key in loaded.watermarks <==> key in file.table;
  }

  /** A save forgets a boot's newest sequence if and only if an older durable entry hides it. */
  lemma SaveCoversIff(r: Registry, pid: string)
    requires pid in r.publishers && r.publishers[pid].space.hasWatermark
    ensures var key, high := EntryFor(r, pid), r.publishers[pid].space.high;
            Covers(Merged(r), key, high) <==> (key in r.watermarks ==> Covers(r.watermarks, key, high))
  {
    LiveEntryAt(r, r.publishers.Keys, pid);
  }

  /** Fencing a boot without overflowing the table makes the next save cover it. */
  lemma FencedBootIsSaved(r: Registry, lim: Limits, pid: string, boot: U64, reason: FenceReason)
    requires BoundTo(r, pid, boot) && FenceKeepsTable(r, lim, pid, boot, reason)
    requires r.publishers[pid].space.hasWatermark
    ensures var t := Fence(r, lim, pid, boot, reason).0;
            Covers(Merged(t), EntryFor(t, pid), t.publishers[pid].space.high)
  {
    SaveCoversIff(Fence(r, lim, pid, boot, reason).0, pid);
  }

  /** The publisher's newest sequence is already in the durable table. */
  ghost predicate Recorded(r: Registry, pid: string)
  {
    pid in r.publishers && r.publishers[pid].space.hasWatermark ==>
      Covers(r.watermarks, EntryFor(r, pid), r.publishers[pid].space.high)
  }

  lemma FenceRecords(r: Registry, lim: Limits, pid: string, boot: U64, reason: FenceReason, p: string)
    requires BoundTo(r, pid, boot) && FenceKeepsTable(r, lim, pid, boot, reason)
    requires p == pid || Recorded(r, p)
    ensures Recorded(Fence(r, lim, pid, boot, reason).0, p)
  {
    hide BootKey;
    if p != pid && p in r.publishers && EntryFor(r, p) == BootKey(pid, boot) {
      BootKeyInjective(p, r.publishers[p].boot, pid, boot);
    }
  }

  lemma RecordedIsFresh(r: Registry)
    requires forall pid :: pid in r.publishers ==> Recorded(r, pid)
    ensures FileIsFresh(r, Merged(r))
  {
    hide BootKey, LiveEntries;
    forall pid | pid in r.publishers && r.publishers[pid].space.hasWatermark
      ensures Covers(Merged(r), EntryFor(r, pid), r.publishers[pid].space.high)
    {
      assert Recorded(r, pid);
    }
  }

  /** The orderly end of a coordinator: fence the boots it knew, then save. */
  ghost function Shutdown(r: Registry, pids: seq<string>, reason: FenceReason): (actions: seq<Action>)
    requires forall i :: 0 <= i < |pids| ==> pids[i] in r.publishers
  {
    if pids == [] then [DoSave]
    else [DoFence(pids[0], r.publishers[pids[0]].boot, reason)] + Shutdown(r, pids[1..], reason)
  }

  lemma {:induction false} ShutdownRecords(w: World, r: Registry, lim: Limits, pids: seq<string>, reason: FenceReason, p: string)
    requires forall i :: 0 <= i < |pids| ==> pids[i] in r.publishers
    requires forall q :: q in r.publishers ==> BoundTo(w.reg, q, r.publishers[q].boot)
    requires CleanRun(w, lim, Shutdown(r, pids, reason))
    ensures var v := Run(w, lim, Shutdown(r, pids, reason));
            && v.reg.publishers.Keys == w.reg.publishers.Keys
            && v.disk.Some? && v.disk.value.table == Merged(v.reg)
            && (p in pids || Recorded(w.reg, p) ==> Recorded(v.reg, p))
    decreases |pids|
  {
    hide Recorded, Merged, FenceKeepsTable, Evict, FencedTable, BootKey;
    var actions := Shutdown(r, pids, reason);
    if pids == [] {
      assert actions[1..] == [] && Run(Step(w, lim, DoSave), lim, []) == Step(w, lim, DoSave);
    } else {
      assert actions[1..] == Shutdown(r, pids[1..], reason);
      var boot := r.publishers[pids[0]].boot;
      if p == pids[0] || Recorded(w.reg, p) { FenceRecords(w.reg, lim, pids[0], boot, reason, p); }
      ShutdownRecords(Step(w, lim, actions[0]), r, lim, pids[1..], reason, p);
    }
  }

  /** Fencing, without overflowing the table, every publisher whose newest sequence is not recorded yet, and
      then saving, leaves a file whose load forgets nothing: the next incarnation may start from it. */
  lemma ShutdownIsFresh(w: World, lim: Limits, pids: seq<string>, reason: FenceReason)
    requires forall i :: 0 <= i < |pids| ==> pids[i] in w.reg.publishers
    requires forall p :: p in w.reg.publishers ==> p in pids || Recorded(w.reg, p)
    requires CleanRun(w, lim, Shutdown(w.reg, pids, reason))
    ensures Clean(Run(w, lim, Shutdown(w.reg, pids, reason)), lim, DoLoad)
  {
    hide Run, CleanRun, Shutdown, FileIsFresh, Recorded;
    var v := Run(w, lim, Shutdown(w.reg, pids, reason));
    ShutdownRecords(w, w.reg, lim, pids, reason, "");
    forall p | p in v.reg.publishers
      ensures Recorded(v.reg, p)
    {
      ShutdownRecords(w, w.reg, lim, pids, reason, p);
    }
    RecordedIsFresh(v.reg);
  }

  /** A save may write more entries than a load accepts: exactly when durable and live boots
      together exceed the bound, the file it writes is refused. */
  lemma SavedFileLoadsIff(r: Registry, lim: Limits)
    ensures Load(r, lim, r.epoch, Merged(r)).1.Ok? <==>
            |r.watermarks.Keys + (set pid | pid in r.publishers :: EntryFor(r, pid))| <= lim.watermarks
  {
    SavedKeys(r);
    hide Merged, EntryFor;
    assert |Merged(r)| == |Merged(r).Keys|;
  }

  lemma SavedKeys(r: Registry)
    ensures Merged(r).Keys == r.watermarks.Keys + (set pid | pid in r.publishers :: EntryFor(r, pid))
  {
    hide EntryFor, LiveEntry;
  }

  /** A superseded boot that tries to return is refused, but the attempt records the publisher's
      live boot as superseded. Whatever that boot accepts next is missing from the next save. */
  lemma RefusedReturnHidesLaterSequences(r: Registry, lim: Limits, q: Registration, f: Offering)
    requires q.pid in r.publishers && r.publishers[q.pid].boot != q.boot && Live(r.publishers[q.pid])
    requires Register(r, lim, q).1 == Err(StaleBoot)
    requires f.pid == q.pid && Accepts(Register(r, lim, q).0, lim, f)
    requires r.publishers[q.pid].space.hasWatermark ==> f.arrival.s > r.publishers[q.pid].space.high
    ensures var t := Register(r, lim, q).0;
            var u := Ingest(t, lim, f);
            && t.publishers == r.publishers
            && t.watermarks[EntryFor(r, q.pid)].fenced
            && !Covers(Merged(u), EntryFor(u, q.pid), f.arrival.s)
  {
    hide BootKey, ValidToken, Offer, Merged;
    var t := Register(r, lim, q).0;
    var u := Ingest(t, lim, f);
    OfferAdvances(r.publishers[q.pid].space, lim.window, lim.eventIds, f.arrival);
    OfferReaches(r.publishers[q.pid].space, lim.window, lim.eventIds, f.arrival);
    SaveCoversIff(u, q.pid);
  }

  lemma OfferReaches(p: BootSequence, w: nat, ids: nat, a: Arrival)
    requires Admits(p, w, a) && (p.hasWatermark ==> a.s > p.high)
    ensures Offer(p, w, ids, a).high == a.s
  {
    hide Remember, ConflictingId;
  }

  // ---- Reachable failures ----------------------------------------------

  /** Boots `1` to `n` of one publisher, each superseding the one before. */
  ghost function Boots(pid: string, n: nat): (actions: seq<Action>)
    requires n <= U64_MAX
  {
    if n == 0 then [] else Boots(pid, n - 1) + [DoRegister(Registration(pid, n, 0, 0))]
  }

  /** After `n` boots one is live and every earlier one has a fenced entry. */
  ghost predicate Succession(r: Registry, pid: string, n: nat)
  {
    && r.publishers.Keys == {pid} && r.publishers[pid].boot == n && |r.watermarks| == n - 1
    && forall k: U64 :: k >= n ==> BootKey(pid, k) !in r.watermarks
  }

  lemma FirstBoot(r: Registry, lim: Limits, pid: string)
    requires r.publishers == map[] && r.watermarks == map[] && ValidToken(pid) && lim.publishers > 0
    ensures Succession(Register(r, lim, Registration(pid, 1, 0, 0)).0, pid, 1)
  {
    hide BootKey, ValidToken;
  }

  lemma NextBoot(r: Registry, lim: Limits, pid: string, n: nat)
    requires 1 <= n < U64_MAX && Succession(r, pid, n) && ValidToken(pid) && n - 1 < lim.watermarks
    ensures Succession(Register(r, lim, Registration(pid, n + 1, 0, 0)).0, pid, n + 1)
  {
    hide BootKey, ValidToken;
    var t := Register(r, lim, Registration(pid, n + 1, 0, 0)).0;
    var key := BootKey(pid, n);
    forall k: U64 | k >= n + 1
      ensures BootKey(pid, k) !in t.watermarks
    {
      if BootKey(pid, k) == key { BootKeyInjective(pid, k, pid, n); }
    }
    assert t.watermarks.Keys == r.watermarks.Keys + {key};
  }

  lemma {:induction false} BootsSucceed(w: World, lim: Limits, pid: string, n: nat)
    requires Initial(w) && ValidToken(pid) && lim.publishers > 0 && 1 <= n <= U64_MAX && n <= lim.watermarks + 1
    ensures var v := Run(w, lim, Boots(pid, n)); Succession(v.reg, pid, n) && v.disk == w.disk
  {
    hide Register, Succession, ValidToken;
    var q := Registration(pid, n, 0, 0);
    assert Boots(pid, n) == Boots(pid, n - 1) + [DoRegister(q)];
    RunOne(w, lim, Boots(pid, n - 1), DoRegister(q));
    if n == 1 {
      FirstBoot(w.reg, lim, pid);
    } else {
      BootsSucceed(w, lim, pid, n - 1);
      NextBoot(Run(w, lim, Boots(pid, n - 1)).reg, lim, pid, n - 1);
    }
  }

  lemma {:induction false} RunOne(w: World, lim: Limits, actions: seq<Action>, a: Action)
    ensures Run(w, lim, actions + [a]) == Step(Run(w, lim, actions), lim, a)
    decreases |actions|
  {
    hide Step;
    if actions == [] {
      assert (actions + [a])[1..] == [] && (actions + [a])[0] == a;
    } else {
      RunOne(Step(w, lim, actions[0]), lim, actions[1..], a);
      assert (actions + [a])[1..] == actions[1..] + [a] && (actions + [a])[0] == actions[0];
    }
  }

  /** Whatever the bound, one publisher that restarts once more than it admits makes the next save write
      a file that no load accepts. */
  lemma OverfullSave(w: World, lim: Limits, pid: string)
    requires Initial(w) && ValidToken(pid) && lim.publishers > 0 && lim.watermarks < U64_MAX
    ensures var v := Run(w, lim, Boots(pid, lim.watermarks + 1) + [DoSave]);
            && v.disk.Some?
            && forall r: Registry :: Load(r, lim, v.disk.value.epoch, v.disk.value.table).1 == Err(CorruptState)
  {
    hide Run, BootKey, ValidToken, Merged, Succession, Boots;
    var n := lim.watermarks + 1;
    BootsSucceed(w, lim, pid, n);
    var r := Run(w, lim, Boots(pid, n)).reg;
    RunOne(w, lim, Boots(pid, n), DoSave);
    SuccessionSaves(r, pid, n);
  }

  lemma OneEntry(r: Registry, pid: string)
    requires r.publishers.Keys == {pid}
    ensures (set p | p in r.publishers :: EntryFor(r, p)) == {BootKey(pid, r.publishers[pid].boot)}
  {
    hide BootKey;
    assert pid in r.publishers;
  }

  lemma SuccessionSaves(r: Registry, pid: string, n: nat)
    requires 1 <= n <= U64_MAX && Succession(r, pid, n)
    ensures |Merged(r)| == n
  {
    hide BootKey, LiveEntries;
    SavedKeys(r);
    var key := BootKey(pid, n);
    OneEntry(r, pid);
    assert Merged(r).Keys == r.watermarks.Keys + {key} && key !in r.watermarks;
    assert |Merged(r)| == |Merged(r).Keys|;
  }

  /** Boot `b` supersedes `a`, `a` tries to return and is refused, `b` has a sequence accepted, the state is
      saved and loaded, and `b` registers again. */
  ghost function ReturnAndRestart(pid: string, a: U64, b: U64, f: Offering): (actions: seq<Action>)
  {
    [DoRegister(Registration(pid, a, 0, 0)), DoRegister(Registration(pid, b, 0, 0)), DoRegister(Registration(pid, a, 0, 0)),
     DoIngest(f), DoSave, DoLoad, DoRegister(Registration(pid, b, 0, 0))]
  }

  /** After the refused return both boots have a fenced entry and `b`, still live, has accepted nothing. */
  ghost predicate Poisoned(r: Registry, pid: string, a: U64, b: U64)
  {
    && r.enforceCurrent && r.publishers.Keys == {pid} && r.watermarks.Keys == {BootKey(pid, a), BootKey(pid, b)}
    && r.publishers[pid].boot == b && Live(r.publishers[pid]) && r.publishers[pid].space == Start(Fresh(false))
    && !r.watermarks[BootKey(pid, b)].has
  }

  lemma ReturnPoisons(r: Registry, lim: Limits, pid: string, a: U64, b: U64)
    requires r.enforceCurrent && r.publishers == map[] && r.watermarks == map[] && ValidToken(pid)
    requires a != 0 && b != 0 && a != b && lim.publishers > 0 && lim.watermarks >= 2
    ensures var r1 := Register(r, lim, Registration(pid, a, 0, 0)).0;
            var r2 := Register(r1, lim, Registration(pid, b, 0, 0)).0;
            var r3 := Register(r2, lim, Registration(pid, a, 0, 0));
            r3.1 == Err(StaleBoot) && Poisoned(r3.0, pid, a, b) && r3.0.epoch == r.epoch
  {
    hide BootKey, ValidToken;
    if BootKey(pid, a) == BootKey(pid, b) { BootKeyInjective(pid, a, pid, b); }
    var r1 := Register(r, lim, Registration(pid, a, 0, 0)).0;
    assert r1.watermarks == map[] && r1.publishers.Keys == {pid};
    var r2 := Register(r1, lim, Registration(pid, b, 0, 0)).0;
    assert r2.watermarks.Keys == {BootKey(pid, a)};
  }

  lemma PoisonedSave(r: Registry, lim: Limits, pid: string, a: U64, b: U64, s: SeqNo, hash: U64)
    requires Poisoned(r, pid, a, b) && lim.watermarks >= 2
    ensures var f := Offering(pid, b, r.epoch, Arrival(s, hash, None), 0);
            var t := Merged(Ingest(r, lim, f));
            Accepts(r, lim, f) && |t| <= 2 && !Covers(t, BootKey(pid, b), s)
  {
    hide BootKey, Offer, LiveEntries;
    var saved := Ingest(r, lim, Offering(pid, b, r.epoch, Arrival(s, hash, None), 0));
    SavedKeys(saved);
    OneEntry(saved, pid);
    assert Merged(saved).Keys == r.watermarks.Keys;
    assert |Merged(saved)| == |Merged(saved).Keys|;
  }

  /** From a poisoned registry, saving, loading and registering again accepts `b`'s sequence a second time. */
  lemma PoisonedReplays(r: Registry, lim: Limits, pid: string, a: U64, b: U64, s: SeqNo, hash: U64)
    requires Poisoned(r, pid, a, b) && ValidToken(pid) && b != 0 && lim.publishers > 0 && lim.watermarks >= 2
    ensures var f := Offering(pid, b, r.epoch, Arrival(s, hash, None), 0);
            var saved := Ingest(r, lim, f);
            var loaded := Load(saved, lim, saved.epoch, Merged(saved));
            var back := Register(loaded.0, lim, Registration(pid, b, 0, 0)).0;
            && Accepts(r, lim, f) && loaded.1.Ok? && back.epoch == r.epoch + 1
            && Accepts(back, lim, f.(epoch := r.epoch + 1))
  {
    hide BootKey, ValidToken, Merged, Accepts, Register, Poisoned, Covers;
    PoisonedSave(r, lim, pid, a, b, s, hash);
    var saved := Ingest(r, lim, Offering(pid, b, r.epoch, Arrival(s, hash, None), 0));
    var q := Registration(pid, b, 0, 0);
    RestartRefusesIff(saved, lim, StateFile(saved.epoch, Merged(saved)), q, Arrival(s, hash, None));
    EpochStays(Load(saved, lim, saved.epoch, Merged(saved)).0, lim, q);
  }

  lemma EpochStays(r: Registry, lim: Limits, q: Registration)
    ensures Register(r, lim, q).0.epoch == r.epoch
  {
    hide BootKey, ValidToken;
  }

  /** A run in which a refused return costs the live boot its replay protection: the same sequence is
      accepted in two incarnations. */
  lemma RefusedReturnReplays(w: World, lim: Limits, pid: string, a: U64, b: U64, s: SeqNo, hash: U64)
    requires Initial(w) && w.reg.enforceCurrent && ValidToken(pid) && a != 0 && b != 0 && a != b
    requires lim.publishers > 0 && lim.watermarks >= 2
    ensures var f := Offering(pid, b, w.reg.epoch, Arrival(s, hash, None), 0);
            Run(w, lim, ReturnAndRestart(pid, a, b, f) + [DoIngest(f.(epoch := w.reg.epoch + 1))]).log ==
            [Acceptance(w.incarnation, pid, b, s), Acceptance(w.incarnation + 1, pid, b, s)]
  {
    hide Register, Accepts, Ingest, Load, Merged, ValidToken, Poisoned;
    var f := Offering(pid, b, w.reg.epoch, Arrival(s, hash, None), 0);
    var again := DoIngest(f.(epoch := w.reg.epoch + 1));
    var actions := ReturnAndRestart(pid, a, b, f) + [again];
    ReturnPoisons(w.reg, lim, pid, a, b);
    var w3 := Step(Step(Step(w, lim, actions[0]), lim, actions[1]), lim, actions[2]);
    PoisonedReplays(w3.reg, lim, pid, a, b, s, hash);
    var w6 := Step(Step(Step(w3, lim, actions[3]), lim, actions[4]), lim, actions[5]);
    var w8 := Step(Step(w6, lim, actions[6]), lim, actions[7]);
    assert w3.log == [] && w6.log == [Acceptance(w.incarnation, pid, b, s)];
    EightSteps(w, lim, actions);
  }

  lemma EightSteps(w: World, lim: Limits, x: seq<Action>)
    requires |x| == 8
    ensures Run(w, lim, x) ==
            Step(Step(Step(Step(Step(Step(Step(Step(w, lim, x[0]), lim, x[1]), lim, x[2]), lim, x[3]),
                                 lim, x[4]), lim, x[5]), lim, x[6]), lim, x[7])
  {
    hide Step;
    var w1 := Step(w, lim, x[0]);
    var w2 := Step(w1, lim, x[1]);
    var w3 := Step(w2, lim, x[2]);
    var w4 := Step(w3, lim, x[3]);
    var w5 := Step(w4, lim, x[4]);
    var w6 := Step(w5, lim, x[5]);
    var w7 := Step(w6, lim, x[6]);
    var w8 := Step(w7, lim, x[7]);
    assert x[1..][1..] == x[2..] && x[2..][1..] == x[3..] && x[3..][1..] == x[4..] && x[4..][1..] == x[5..];
    assert x[5..][1..] == x[6..] && x[6..][1..] == x[7..] && x[7..][1..] == [];
    assert Run(w7, lim, x[7..]) == Run(w8, lim, []) == w8;
    assert Run(w5, lim, x[5..]) == Run(w6, lim, x[6..]) == Run(w7, lim, x[7..]);
    assert Run(w3, lim, x[3..]) == Run(w4, lim, x[4..]) == Run(w5, lim, x[5..]);
    assert Run(w1, lim, x[1..]) == Run(w2, lim, x[2..]) == Run(w3, lim, x[3..]);
  }

  // ---- A fenced or superseded boot is final ----------------------------

  /** The boot is recorded as fenced and, if it is still the publisher's boot, marked so. */
  ghost predicate Dead(r: Registry, pid: string, boot: U64)
  {
    var key := BootKey(pid, boot);
    && key in r.watermarks && r.watermarks[key].fenced
    && (BoundTo(r, pid, boot) ==> r.publishers[pid].fenced)
  }

  lemma {:induction false} EvictKeeps(m: map<string, Watermark>, bound: nat)
    ensures forall k :: k in Evict(m, bound) ==> k in m && Evict(m, bound)[k] == m[k]
    decreases |m|
  {
    if |m| > bound {
      assert m.Keys != {};
      var victim := Smallest(m.Keys);
      assert (m - {victim}).Keys == m.Keys - {victim};
      EvictKeeps(m - {victim}, bound);
    }
  }

  lemma FenceKills(r: Registry, lim: Limits, pid: string, boot: U64, reason: FenceReason)
    requires Fence(r, lim, pid, boot, reason).1.Ok?
    requires BootKey(pid, boot) in Fence(r, lim, pid, boot, reason).0.watermarks
    ensures Dead(Fence(r, lim, pid, boot, reason).0, pid, boot)
  {
    hide BootKey;
    EvictKeeps(FencedTable(r, pid, boot, reason), lim.watermarks);
  }

  lemma SupersessionKills(r: Registry, lim: Limits, q: Registration)
    requires q.pid in r.publishers && r.publishers[q.pid].boot != q.boot && Register(r, lim, q).1.Ok?
    ensures Dead(Register(r, lim, q).0, q.pid, r.publishers[q.pid].boot)
  {
    hide BootKey, ValidToken;
    var boot := r.publishers[q.pid].boot;
    if BootKey(q.pid, boot) == BootKey(q.pid, q.boot) { BootKeyInjective(q.pid, boot, q.pid, q.boot); }
  }

  lemma RegisterLeavesDead(r: Registry, lim: Limits, q: Registration, pid: string, boot: U64)
    requires Dead(r, pid, boot)
    ensures Dead(Register(r, lim, q).0, pid, boot)
    ensures q.pid == pid && q.boot == boot ==> Register(r, lim, q).1.Err?
  {
    hide BootKey, ValidToken;
    var key := BootKey(pid, boot);
    if BootKey(q.pid, q.boot) == key { BootKeyInjective(q.pid, q.boot, pid, boot); }
    if q.pid in r.publishers && BootKey(q.pid, r.publishers[q.pid].boot) == key {
      BootKeyInjective(q.pid, r.publishers[q.pid].boot, pid, boot);
    }
  }

  lemma FenceLeavesDead(r: Registry, lim: Limits, p: string, b: U64, reason: FenceReason, pid: string, boot: U64)
    requires Dead(r, pid, boot) && BootKey(pid, boot) in Fence(r, lim, p, b, reason).0.watermarks
    ensures Dead(Fence(r, lim, p, b, reason).0, pid, boot)
  {
    hide BootKey;
    if BoundTo(r, p, b) { EvictKeeps(FencedTable(r, p, b, reason), lim.watermarks); }
    if BootKey(p, b) == BootKey(pid, boot) { BootKeyInjective(p, b, pid, boot); }
  }

  /** No load, and the boot's entry survives every step. */
  ghost predicate EntryKept(w: World, lim: Limits, actions: seq<Action>, key: string)
    decreases |actions|
  {
    actions == [] ||
    var v := Step(w, lim, actions[0]);
    !actions[0].DoLoad? && key in v.reg.watermarks && EntryKept(v, lim, actions[1..], key)
  }

  lemma StepLeavesDead(w: World, lim: Limits, a: Action, pid: string, boot: U64)
    requires Dead(w.reg, pid, boot) && w.reg.enforceCurrent && !a.DoLoad?
    requires BootKey(pid, boot) in Step(w, lim, a).reg.watermarks
    ensures var v := Step(w, lim, a);
            && Dead(v.reg, pid, boot) && v.reg.enforceCurrent
            && w.log <= v.log
            && forall i :: |w.log| <= i < |v.log| ==> !(v.log[i].pid == pid && v.log[i].boot == boot)
  {
    hide BootKey, ValidToken, Offer, Admits, Merged, Evict;
    match a
    case DoRegister(q) => RegisterLeavesDead(w.reg, lim, q, pid, boot);
    case DoFence(p, b, reason) => FenceLeavesDead(w.reg, lim, p, b, reason, pid, boot);
    case DoIngest(f) =>
    case DoSave =>
  }

  /** Within one incarnation a fenced or superseded boot never becomes current again, is never
      re-registered, and none of its observations is accepted, while its entry is in the table. */
  lemma {:induction false} DeadForever(w: World, lim: Limits, actions: seq<Action>, pid: string, boot: U64)
    requires Dead(w.reg, pid, boot) && w.reg.enforceCurrent
    requires EntryKept(w, lim, actions, BootKey(pid, boot))
    ensures var v := Run(w, lim, actions);
            && Dead(v.reg, pid, boot) && v.reg.enforceCurrent
            && !(BoundTo(v.reg, pid, boot) && Live(v.reg.publishers[pid]))
            && w.log <= v.log
            && forall i :: |w.log| <= i < |v.log| ==> !(v.log[i].pid == pid && v.log[i].boot == boot)
    decreases |actions|
  {
    hide Step, BootKey;
    if actions != [] {
      StepLeavesDead(w, lim, actions[0], pid, boot);
      DeadForever(Step(w, lim, actions[0]), lim, actions[1..], pid, boot);
    }
  }
}
