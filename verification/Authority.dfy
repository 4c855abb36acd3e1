/**
 Publisher authority: registration, supersession and fencing of publisher boots
 (src/observatory.cpp:668-871), admission of their sequences, and what survives
 a coordinator restart (src/persistence.cpp:1255-1291, 1501-1526).

 Every bound is a parameter; the runtime uses a window and identity memory of
 4096, at most 256 publishers and at most 256 durable watermarks.
 */
module Authority {
  import opened Machine
  import opened Sequence
  import opened Text

  datatype Limits = Limits(window: nat, eventIds: nat, publishers: nat, watermarks: nat)

  datatype FenceReason =
    | NotFenced | ConnectionEnded | Administrative | LivenessDeadline | CoordinatorRestart | SupersededByNewBoot

  datatype Publisher = Publisher(
    boot: U64,
    current: bool,
    fenced: bool,
    reason: FenceReason,
    incarnations: U64,
    lastSeen: U64,
    space: BootSequence)

  /** Replay protection for one (publisher, boot) pair. */
  datatype Watermark = Watermark(
    publisher: string,
    boot: U64,
    high: U64,
    has: bool,
    fenced: bool,
    reason: FenceReason,
    incarnations: U64,
    lastSeen: U64)

  datatype Registry = Registry(
    epoch: nat,
    enforceCurrent: bool,
    publishers: map<string, Publisher>,
    watermarks: map<string, Watermark>)

  predicate Live(p: Publisher)
  {
    p.current && !p.fenced
  }

  function WatermarkOf(pid: string, p: Publisher, fenced: bool, reason: FenceReason): (m: Watermark)
  {
    Watermark(pid, p.boot, p.space.high, p.space.hasWatermark, fenced, reason, p.incarnations, p.lastSeen)
  }

  /** A publisher record nothing has registered yet; boot identities are never zero. */
  const UNREGISTERED := Publisher(0, false, false, NotFenced, 1, 0, Start(Fresh(false)))

  // ---- Register --------------------------------------------------------

  datatype Registration = Registration(pid: string, boot: U64, epoch: nat, now: U64)

  /** The table after the current boot, if another one, has been recorded as superseded. */
  function Superseding(r: Registry, lim: Limits, q: Registration): (t: Result<map<string, Watermark>>)
  {
    if q.pid !in r.publishers then
      if |r.publishers| >= lim.publishers then Err(TooMany) else Ok(r.watermarks)
    else
      var p := r.publishers[q.pid];
      if p.boot == q.boot then
        if p.fenced then Err(StaleBoot) else Ok(r.watermarks)
      else
        var key := BootKey(q.pid, p.boot);
        if |r.watermarks| >= lim.watermarks && key !in r.watermarks then Err(TooMany)
        else Ok(r.watermarks[key := WatermarkOf(q.pid, p, true, SupersededByNewBoot)])
  }

  /** The publisher record a successful registration leaves, given its durable entry if any. */
  function Bound(p: Publisher, q: Registration, durable: Option<Watermark>): (b: Publisher)
  {
    var rebinding := p.boot != q.boot;
    var space := if rebinding then Start(Fresh(p.space.durable)) else p.space;
    var restored :=
      if durable.Some? && durable.value.has && !space.hasWatermark
      then space.(hasWatermark := true, high := durable.value.high, durable := true)
      else space;
    Publisher(q.boot, true, false, NotFenced,
              if rebinding then (p.incarnations + 1) % (U64_MAX + 1) else p.incarnations, q.now, restored)
  }

  /** A refused registration may already have recorded the current boot as superseded. */
  function Register(r: Registry, lim: Limits, q: Registration): (t: (Registry, Result<Publisher>))
  {
    if !ValidToken(q.pid) || q.boot == 0 then (r, Err(InvalidArgument))
    else if q.epoch != 0 && q.epoch != r.epoch then (r, Err(StaleEpoch))
    else
      var table := Superseding(r, lim, q);
      if table.Err? then (r, Err(table.code)) else
      var key := BootKey(q.pid, q.boot);
      var found := key in table.value;
      if found && table.value[key].fenced then (r.(watermarks := table.value), Err(StaleBoot)) else
      var before := if q.pid in r.publishers then r.publishers[q.pid] else UNREGISTERED;
      var p := Bound(before, q, if found then Some(table.value[key]) else None);
      var cleared := if found then table.value[key := table.value[key].(fenced := false, reason := NotFenced)] else table.value;
      (r.(publishers := r.publishers[q.pid := p], watermarks := cleared), Ok(p))
  }

  // ---- Fence -----------------------------------------------------------

  ghost function Evict(m: map<string, Watermark>, bound: nat): (t: map<string, Watermark>)
    decreases |m|
  {
    if |m| <= bound then m else
    assert m.Keys != {};
    var victim := Smallest(m.Keys);
    assert (m - {victim}).Keys == m.Keys - {victim};
    Evict(m - {victim}, bound)
  }

  /** The table a fence writes before it trims it to its bound. */
  function FencedTable(r: Registry, pid: string, boot: U64, reason: FenceReason): (t: map<string, Watermark>)
    requires pid in r.publishers
  {
    r.watermarks[BootKey(pid, boot) := WatermarkOf(pid, r.publishers[pid], true, reason)]
  }

  ghost function Fence(r: Registry, lim: Limits, pid: string, boot: U64, reason: FenceReason): (t: (Registry, Result<Publisher>))
  {
    if pid !in r.publishers then (r, Err(NotFound))
    else if r.publishers[pid].boot != boot then (r, Err(StaleBoot))
    else
      var p := r.publishers[pid].(current := false, fenced := true, reason := reason);
      (r.(publishers := r.publishers[pid := p],
          watermarks := Evict(FencedTable(r, pid, boot, reason), lim.watermarks)), Ok(p))
  }

  // ---- Ingest ----------------------------------------------------------

  /** An observation or counter sample as far as authority is concerned. */
  datatype Offering = Offering(pid: string, boot: U64, epoch: nat, arrival: Arrival, now: U64)

  /** Counter samples are refused from any publisher that is not current; events only when the
      runtime enforces it, which is the default. */
  function Authorize(r: Registry, f: Offering): (t: Result<Publisher>)
  {
    if f.pid !in r.publishers then Err(Unauthorized)
    else
      var p := r.publishers[f.pid];
      if p.boot != f.boot then Err(StaleBoot)
      else if f.epoch != r.epoch then Err(StaleEpoch)
      else if !Live(p) && (r.enforceCurrent || f.arrival.eventId.None?) then Err(StaleBoot)
      else Ok(p)
  }

  function Disposed(r: Registry, lim: Limits, f: Offering): (d: Decision)
    ensures Mutates(d) <==> Accepts(r, lim, f)
  {
    var p := Authorize(r, f);
    if p.Err? then Decision(Rejected, Some(p.code), 0) else Verdict(p.value.space, lim.window, f.arrival)
  }

  predicate Accepts(r: Registry, lim: Limits, f: Offering)
  {
    var p := Authorize(r, f);
    p.Ok? && Admits(p.value.space, lim.window, f.arrival)
  }

  function Ingest(r: Registry, lim: Limits, f: Offering): (t: Registry)
    ensures t == r.(publishers := t.publishers) && (!Accepts(r, lim, f) ==> t == r)
  {
    if !Accepts(r, lim, f) then r else
    var p := Authorize(r, f).value;
    var q := p.(space := Offer(p.space, lim.window, lim.eventIds, f.arrival), lastSeen := f.now);
    r.(publishers := r.publishers[f.pid := q])
  }

  // ---- Save and load ---------------------------------------------------

  function EntryFor(r: Registry, pid: string): (key: string)
    requires pid in r.publishers
  {
    BootKey(pid, r.publishers[pid].boot)
  }

  function LiveEntry(r: Registry, pid: string): (m: Watermark)
    requires pid in r.publishers
  {
    var p := r.publishers[pid];
    WatermarkOf(pid, p, p.fenced, p.reason)
  }

  lemma EntriesDistinct(r: Registry)
    ensures forall p, q :: p in r.publishers && q in r.publishers && EntryFor(r, p) == EntryFor(r, q) ==> p == q
  {
    forall p, q | p in r.publishers && q in r.publishers && EntryFor(r, p) == EntryFor(r, q)
      ensures p == q
    {
      BootKeyInjective(p, r.publishers[p].boot, q, r.publishers[q].boot);
    }
  }

  ghost function LiveEntries(r: Registry, pids: set<string>): (t: map<string, Watermark>)
    requires pids <= r.publishers.Keys
  {
    EntriesDistinct(r);
    map pid | pid in pids :: EntryFor(r, pid) := LiveEntry(r, pid)
  }

  lemma LiveEntryAt(r: Registry, pids: set<string>, pid: string)
    requires pids <= r.publishers.Keys && pid in r.publishers
    ensures EntryFor(r, pid) in LiveEntries(r, pids) <==> pid in pids
    ensures pid in pids ==> LiveEntries(r, pids)[EntryFor(r, pid)] == LiveEntry(r, pid)
  {
    hide EntryFor, LiveEntry;
    EntriesDistinct(r);
  }

  lemma OneMoreEntry(r: Registry, done: set<string>, pid: string)
    requires done <= r.publishers.Keys && pid in r.publishers && pid !in done
    ensures LiveEntries(r, done + {pid}) == LiveEntries(r, done)[EntryFor(r, pid) := LiveEntry(r, pid)]
  {
    hide EntryFor, LiveEntry;
    EntriesDistinct(r);
    var t, u := LiveEntries(r, done)[EntryFor(r, pid) := LiveEntry(r, pid)], LiveEntries(r, done + {pid});
    assert u.Keys == t.Keys;
    forall key | key in u
      ensures u[key] == t[key]
    {
      var q :| q in done + {pid} && key == EntryFor(r, q);
      LiveEntryAt(r, done + {pid}, q);
      if q != pid { LiveEntryAt(r, done, q); }
    }
  }

  /** The table a save writes: an entry for the boot of every publisher, durable entries winning. */
  ghost function Merged(r: Registry): (t: map<string, Watermark>)
  {
    LiveEntries(r, r.publishers.Keys) + r.watermarks
  }

  lemma MergeOne(r: Registry, done: set<string>, pid: string)
    requires done <= r.publishers.Keys && pid in r.publishers && pid !in done
    ensures var t, key := LiveEntries(r, done) + r.watermarks, EntryFor(r, pid);
            LiveEntries(r, done + {pid}) + r.watermarks == if key in t then t else t[key := LiveEntry(r, pid)]
  {
    hide LiveEntries, EntryFor, LiveEntry;
    OneMoreEntry(r, done, pid);
    LiveEntryAt(r, done, pid);
  }

  /** Recovery: publishers are gone, durable watermarks stay and are no longer fenced. A table
      beyond the bound is refused and nothing changes. */
  function Recovered(saved: map<string, Watermark>): (t: map<string, Watermark>)
  {
    map key | key in saved :: saved[key].(fenced := false, reason := CoordinatorRestart)
  }

  function Load(r: Registry, lim: Limits, epoch: nat, saved: map<string, Watermark>): (t: (Registry, Result<nat>))
  {
    if |saved| > lim.watermarks then (r, Err(CorruptState))
    else (Registry(epoch + 1, r.enforceCurrent, map[], Recovered(saved)), Ok(epoch + 1))
  }

  // ---- The registry as the runtime updates it --------------------------

  class Coordinator {
    const lim: Limits
    const enforceCurrent: bool
    var epoch: nat
    var publishers: map<string, Publisher>
    var watermarks: map<string, Watermark>

    ghost function View(): (r: Registry)
      reads this
    {
      Registry(epoch, enforceCurrent, publishers, watermarks)
    }

    constructor (lim: Limits, enforceCurrent: bool)
      ensures View() == Registry(1, enforceCurrent, map[], map[]) && this.lim == lim
    {
      this.lim, this.enforceCurrent := lim, enforceCurrent;
      epoch, publishers, watermarks := 1, map[], map[];
    }

    method RegisterPublisher(q: Registration) returns (result: Result<Publisher>)
      modifies this
      ensures (View(), result) == Register(old(View()), lim, q)
    {
      hide BootKey, ValidToken;
      if !ValidToken(q.pid) || q.boot == 0 {
        return Err(InvalidArgument);
      }
      if q.epoch != 0 && q.epoch != epoch {
        return Err(StaleEpoch);
      }
      if q.pid !in publishers {
        if |publishers| >= lim.publishers {
          return Err(TooMany);
        }
      } else if publishers[q.pid].boot == q.boot {
        if publishers[q.pid].fenced {
          return Err(StaleBoot);
        }
      } else {
        var p := publishers[q.pid];
        var superseded := BootKey(q.pid, p.boot);
        if |watermarks| >= lim.watermarks && superseded !in watermarks {
          return Err(TooMany);
        }
        watermarks := watermarks[superseded := WatermarkOf(q.pid, p, true, SupersededByNewBoot)];
      }
      var key := BootKey(q.pid, q.boot);
      if key in watermarks && watermarks[key].fenced {
        return Err(StaleBoot);
      }
      var p := if q.pid in publishers then publishers[q.pid] else UNREGISTERED;
      if p.boot != q.boot {
        p := p.(space := Start(Fresh(p.space.durable)), incarnations := (p.incarnations + 1) % (U64_MAX + 1));
      }
      p := p.(boot := q.boot, current := true, fenced := false, reason := NotFenced, lastSeen := q.now);
      if key in watermarks {
        var m := watermarks[key];
        if m.has && !p.space.hasWatermark {
          p := p.(space := p.space.(hasWatermark := true, high := m.high, durable := true));
        }
        watermarks := watermarks[key := m.(fenced := false, reason := NotFenced)];
      }
      publishers := publishers[q.pid := p];
      return Ok(p);
    }

    method FencePublisherBoot(pid: string, boot: U64, reason: FenceReason) returns (result: Result<Publisher>)
      modifies this
      ensures (View(), result) == Fence(old(View()), lim, pid, boot, reason)
    {
      if pid !in publishers {
        return Err(NotFound);
      }
      if publishers[pid].boot != boot {
        return Err(StaleBoot);
      }
      var p := publishers[pid].(current := false, fenced := true, reason := reason);
      publishers := publishers[pid := p];
      watermarks := watermarks[BootKey(pid, boot) := WatermarkOf(pid, p, true, reason)];
      ghost var full := watermarks;
      assert full == FencedTable(old(View()), pid, boot, reason);
      while |watermarks| > lim.watermarks
        invariant Evict(watermarks, lim.watermarks) == Evict(full, lim.watermarks)
        invariant epoch == old(epoch) && publishers == old(publishers)[pid := p]
        decreases |watermarks|
      {
        assert watermarks.Keys != {};
        var victim := FindSmallest(watermarks.Keys);
        SmallestUnique(victim, Smallest(watermarks.Keys), watermarks.Keys);
        assert (watermarks - {victim}).Keys == watermarks.Keys - {victim};
        watermarks := watermarks - {victim};
      }
      return Ok(p);
    }

    method IngestOne(f: Offering) returns (d: Decision)
      modifies this
      ensures View() == Ingest(old(View()), lim, f) && d == Disposed(old(View()), lim, f)
    {
      var p := Authorize(Registry(epoch, enforceCurrent, publishers, watermarks), f);
      if p.Err? {
        return Decision(Rejected, Some(p.code), 0);
      }
      var space;
      space, d := OfferInPlace(p.value.space, lim.window, lim.eventIds, f.arrival);
      if !Mutates(d) {
        return;
      }
      publishers := publishers[f.pid := p.value.(space := space, lastSeen := f.now)];
    }

    method SavedWatermarks() returns (table: map<string, Watermark>)
      ensures table == Merged(View())
    {
      ghost var r := View();
      table := watermarks;
      var rest := publishers.Keys;
      assert LiveEntries(r, r.publishers.Keys - rest) + watermarks == watermarks;
      hide LiveEntries;
      while rest != {}
        invariant rest <= r.publishers.Keys && table == LiveEntries(r, r.publishers.Keys - rest) + r.watermarks
        decreases |rest|
      {
        var pid :| pid in rest;
        MergeOne(r, r.publishers.Keys - rest, pid);
        assert r.publishers.Keys - rest + {pid} == r.publishers.Keys - (rest - {pid});
        rest := rest - {pid};
        var p := publishers[pid];
        var key := BootKey(pid, p.boot);
        if key !in table {
          table := table[key := WatermarkOf(pid, p, p.fenced, p.reason)];
        }
      }
      assert r.publishers.Keys - rest == r.publishers.Keys;
    }

    method LoadSaved(source: nat, saved: map<string, Watermark>) returns (result: Result<nat>)
      modifies this
      ensures (View(), result) == Load(old(View()), lim, source, saved)
    {
      if |saved| > lim.watermarks {
        return Err(CorruptState);
      }
      epoch := source + 1;
      watermarks := map key | key in saved :: saved[key].(fenced := false, reason := CoordinatorRestart);
      publishers := map[];
      return Ok(epoch);
    }
  }
}
