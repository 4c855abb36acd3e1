/**
 The observatory as a whole (src/observatory.cpp:487-585, 911-1067, 1129-1382):
 publisher authority, the region catalogue, counters and evidence evolve
 together, one action at a time.
 */
module Observatory {
  import opened Machine
  import opened Text
  import opened Observation
  import Sequence
  import opened Authority
  import opened AggregateStore
  import opened Attribution
  import opened Evidence
  import Counter
  import Replay

  /** A raw counter reading with its descriptor. */
  datatype Publication = Publication(
    counter: string, origin: Origin, subject: Subject, descriptor: Counter.Descriptor,
    raw: U64, bytesPerUnit: U64, provenance: Byte, granularity: Byte, metadata: seq<(string, string)>)

  const PER_REGION: nat := 1
  const PER_DEVICE: nat := 2
  const PER_DOMAIN: nat := 3
  const PER_LINK: nat := 4
  const DEVICE_GRANULARITY: Byte := 4

  predicate ValidPublication(p: Publication)
  {
    && p.origin.publisher != "" && p.origin.boot != 0 && ValidToken(p.counter)
    && p.descriptor.mappedType < EVENT_TYPE_COUNT && 1 <= p.descriptor.scope <= 6
    && 1 <= p.descriptor.width <= 64 && p.bytesPerUnit <= MAX_BYTE_COUNT
    && p.origin.sequence != 0 && 0 <= p.origin.timestamp <= MAX_TIMESTAMP
    && p.provenance <= 9 && 1 <= p.granularity <= 6
    && (if p.subject.region.Some? then
          p.descriptor.scope == PER_REGION && p.subject.regionGeneration.Some? && p.subject.regionGeneration.value != 0
        else p.descriptor.scope != PER_REGION && p.subject.regionGeneration.None?)
    && (p.descriptor.scope != PER_REGION ==> GranularityRank(p.granularity) <= GranularityRank(DEVICE_GRANULARITY))
    && (p.descriptor.scope in {PER_DEVICE, PER_DOMAIN, PER_LINK} ==> p.subject.source.Some?)
  }

  function DirectionOf(kind: Byte): (d: Byte)
  {
    if kind in {REMOTE_READ, SHARED_READ, DIRECTORY_LOOKUP} then READ
    else if kind in {REMOTE_WRITE, WRITEBACK, WRITE_EXCLUSIVE_TRANSITION} then WRITE
    else if kind == REMOTE_ATOMIC then ATOMIC
    else 0
  }

  /** The observation a non-zero delta becomes. */
  function Derived(p: Publication, epoch: U64, delta: U64, eventId: U64): (o: Observation)
    requires p.descriptor.mappedType < EVENT_TYPE_COUNT
    ensures o.subject.region == p.subject.region && o.subject.regionGeneration == p.subject.regionGeneration
    ensures o.origin.publisher == p.origin.publisher && o.effect.bytes <= MAX_BYTE_COUNT
  {
    var scaled := CheckedMul(delta, p.bytesPerUnit).value;
    Observation(
      eventId, p.descriptor.mappedType, p.origin.(coordinatorEpoch := epoch),
      p.subject.(domain := None, domainGeneration := None, process := None),
      Effect(DirectionOf(p.descriptor.mappedType), 0, 0, Some(delta), p.descriptor.generation,
             Min(scaled, MAX_BYTE_COUNT), 0, 0, 0, -1),
      Quality(LOCALITY_UNKNOWN, false, p.provenance, EXACT_COUNTER_DELTA, p.granularity),
      p.metadata)
  }

  // ---- State and actions -----------------------------------------------

  datatype Config = Config(lim: Limits, bounds: Bounds, policy: Policy, regions: nat, counters: nat)

  datatype CounterKey = CounterKey(publisher: string, boot: U64, counter: string)

  datatype State = State(
    reg: Registry, regions: map<string, Region>, around: Surroundings,
    counters: map<CounterKey, Counter.Record>, evidence: Evidence.Ledger)

  /** `hash` and `eventId` are what the content hashes of the runtime come to. `Survey` stands for any
      change to topology, resources or capabilities. */
  datatype Action =
    | RegisterPublisher(q: Registration)
    | FencePublisher(pid: string, boot: U64, reason: FenceReason)
    | RegisterRegion(id: string, record: Region)
    | RetireRegion(id: string, generation: U64)
    | Survey(around: Surroundings)
    | Publish(o: Observation, hash: U64, now: U64)
    | PublishCounter(p: Publication, hash: U64, eventId: U64, now: U64)

  ghost predicate Sound(s: State)
  {
    WellFormed(s.evidence.aggregates) && s.reg.epoch <= U64_MAX
    && forall k :: k in s.counters ==> Counter.Valid(s.counters[k])
  }

  function Knows(s: State, c: Config): (k: Knowledge)
  {
    Knowledge(c.policy, s.reg.epoch,
              map pid | pid in s.reg.publishers :: Lease(s.reg.publishers[pid].boot, Live(s.reg.publishers[pid])),
              s.regions, s.around)
  }

  function EntryOf(k: Knowledge, o: Observation): (e: Entry)
  {
    var locality := FoundLocality(k, o);
    Entry(o, Judge(k, o), locality, locality != LOCALITY_UNKNOWN)
  }

  function OfferOf(o: Observation, hash: U64, now: U64): (f: Offering)
    requires o.origin.sequence != 0
  {
    Offering(o.origin.publisher, o.origin.boot, o.origin.coordinatorEpoch,
             Sequence.Arrival(o.origin.sequence, hash, Some(o.eventId)), now)
  }

  function CounterOfferOf(p: Publication, hash: U64, now: U64): (f: Offering)
    requires p.origin.sequence != 0
  {
    Offering(p.origin.publisher, p.origin.boot, p.origin.coordinatorEpoch,
             Sequence.Arrival(p.origin.sequence, hash, None), now)
  }

  /** What the publisher of an event is told. */
  function DispositionOf(s: State, c: Config, o: Observation, hash: U64, now: U64): (d: Sequence.Decision)
    ensures Sequence.Mutates(d) <==> StructurallyValid(o) && Accepts(s.reg, c.lim, OfferOf(o, hash, now))
  {
    if !StructurallyValid(o) then Sequence.Decision(Sequence.Rejected, Some(InvalidArgument), 0)
    else Disposed(s.reg, c.lim, OfferOf(o, hash, now))
  }

  function KeyOf(p: Publication): (k: CounterKey)
  {
    CounterKey(p.origin.publisher, p.origin.boot, p.counter)
  }

  predicate CounterFits(s: State, c: Config, k: CounterKey)
  {
    k in s.counters || |s.counters| < c.counters
  }

  ghost function Reading(s: State, p: Publication): (r: (Counter.Record, Result<U64>))
    requires Sound(s)
    ensures Counter.Valid(r.0)
  {
    var before := if KeyOf(p) in s.counters then s.counters[KeyOf(p)] else Counter.Unused(p.descriptor);
    Counter.Sample(before, p.descriptor, p.raw)
  }

  /** What the publisher of a counter sample is told. */
  datatype CounterReply = Refused(code: ErrorCode) | AlreadySeen | Counted(delta: U64)

  ghost function Reply(s: State, c: Config, p: Publication, hash: U64, now: U64): (r: CounterReply)
    requires Sound(s)
  {
    if !ValidPublication(p) then Refused(InvalidArgument) else
    var d := Disposed(s.reg, c.lim, CounterOfferOf(p, hash, now));
    if d.disposition.Replayed? then AlreadySeen
    else if d.disposition.Rejected? then Refused(OrElse(d.code, Conflict))
    else if !CounterFits(s, c, KeyOf(p)) then Refused(Capacity)
    else
      var delta := Reading(s, p).1;
      if delta.Err? then Refused(delta.code) else Counted(delta.value)
  }

  ghost predicate Takes(s: State, c: Config, a: Action)
  {
    || (a.Publish? && StructurallyValid(a.o) && Accepts(s.reg, c.lim, OfferOf(a.o, a.hash, a.now)))
    || (a.PublishCounter? && ValidPublication(a.p) && Accepts(s.reg, c.lim, CounterOfferOf(a.p, a.hash, a.now)))
  }

  /** The state after an action, before any evidence of it is applied. */
  ghost function Settled(s: State, c: Config, a: Action): (t: State)
    requires Sound(s)
    ensures Sound(t) && t.evidence == s.evidence
  {
    match a
    case RegisterPublisher(q) => RegisterKeepsEpoch(s.reg, c.lim, q); s.(reg := Register(s.reg, c.lim, q).0)
    case FencePublisher(pid, boot, reason) => s.(reg := Fence(s.reg, c.lim, pid, boot, reason).0)
    case RegisterRegion(id, r) => s.(regions := RegisteredRegions(s.regions, s.around, c.regions, id, r).0)
    case RetireRegion(id, g) => s.(regions := RetiredRegions(s.regions, id, g).0)
    case Survey(around) => s.(around := around)
    case Publish(o, hash, now) =>
      if Takes(s, c, a) then s.(reg := Ingest(s.reg, c.lim, OfferOf(o, hash, now))) else s
    case PublishCounter(p, hash, _, now) =>
      if !Takes(s, c, a) then s else
      var reg := Ingest(s.reg, c.lim, CounterOfferOf(p, hash, now));
      if !CounterFits(s, c, KeyOf(p)) then s.(reg := reg) else
      s.(reg := reg, counters := s.counters[KeyOf(p) := Reading(s, p).0])
  }

  lemma RegisterKeepsEpoch(r: Registry, lim: Limits, q: Registration)
    ensures Register(r, lim, q).0.epoch == r.epoch
  {}

  /** The observation an action leaves to be attributed and applied. */
  ghost function Emitted(s: State, c: Config, a: Action): (o: Option<Observation>)
    requires Sound(s)
  {
    if !Takes(s, c, a) then None
    else if a.Publish? then Some(a.o)
    else
      var delta := Reading(s, a.p).1;
      if CounterFits(s, c, KeyOf(a.p)) && delta.Ok? && delta.value != 0
      then Some(Derived(a.p, s.reg.epoch, delta.value, a.eventId)) else None
  }

  ghost function Entries(s: State, c: Config, a: Action): (es: seq<Entry>)
    requires Sound(s)
  {
    var o := Emitted(s, c, a);
    if o.None? then [] else [EntryOf(Knows(Settled(s, c, a), c), o.value)]
  }

  ghost function Step(s: State, c: Config, a: Action): (t: State)
    requires Sound(s)
    ensures Sound(t)
  {
    var settled, es := Settled(s, c, a), Entries(s, c, a);
    if es == [] then settled else settled.(evidence := Applied(s.evidence, c.bounds, es[0]))
  }

  ghost function Run(s: State, c: Config, actions: seq<Action>): (t: State)
    requires Sound(s)
    ensures Sound(t)
  {
    if actions == [] then s else Step(Run(s, c, actions[..|actions| - 1]), c, actions[|actions| - 1])
  }

  /** Everything applied along a run. */
  ghost function Log(s: State, c: Config, actions: seq<Action>): (es: seq<Entry>)
    requires Sound(s)
  {
    if actions == [] then [] else
    var n := |actions| - 1;
    Log(s, c, actions[..n]) + Entries(Run(s, c, actions[..n]), c, actions[n])
  }

  // ---- Evidence refines the run ----------------------------------------

  lemma {:induction false} EvidenceOfRun(s: State, c: Config, actions: seq<Action>)
    requires Sound(s) && s.evidence == BLANK
    ensures Run(s, c, actions).evidence == AppliedAll(c.bounds, Log(s, c, actions))
  {
    hide Settled, Applied, Entries, Emitted;
    if actions != [] {
      var n := |actions| - 1;
      EvidenceOfRun(s, c, actions[..n]);
      var before, es := Log(s, c, actions[..n]), Entries(Run(s, c, actions[..n]), c, actions[n]);
      AtMostOneEntry(Run(s, c, actions[..n]), c, actions[n]);
      if es == [] {
        assert before + es == before;
      } else {
        assert (before + es)[..|before + es| - 1] == before;
      }
    }
  }

  lemma AtMostOneEntry(s: State, c: Config, a: Action)
    requires Sound(s)
    ensures |Entries(s, c, a)| <= 1
  {}

  /** Whatever the interleaving of registrations, fences, region changes, events and counter samples,
      aggregates, journal and region rings are exactly what the applied log calls for. */
  lemma RunIsFaithful(s: State, c: Config, actions: seq<Action>)
    requires Sound(s) && s.evidence == BLANK && Usable(c.bounds)
    ensures Faithful(Run(s, c, actions).evidence, c.bounds, Log(s, c, actions))
  {
    hide Run, Log, Faithful, AppliedAll;
    EvidenceOfRun(s, c, actions);
    EvidenceIsFaithful(c.bounds, Log(s, c, actions));
  }

  // ---- Retired regions -------------------------------------------------

  lemma SettledGrows(s: State, c: Config, a: Action)
    requires Sound(s)
    ensures AllGrown(s.regions, Settled(s, c, a).regions)
  {
    hide RegisteredRegions, RetiredRegions, Reading, Register, Fence, Ingest, Accepts, StructurallyValid, ValidPublication;
    match a
    case RegisterRegion(id, r) => RegisterGrows(s.regions, s.around, c.regions, id, r);
    case RetireRegion(id, g) => RetireGrows(s.regions, id, g);
    case _ =>
  }

  /** No run undoes a region's progress: (generation, retired) only grows. */
  lemma {:induction false} RegionsGrow(s: State, c: Config, actions: seq<Action>)
    requires Sound(s)
    ensures AllGrown(s.regions, Run(s, c, actions).regions)
  {
    hide Settled, Entries, Applied;
    if actions != [] {
      var n := |actions| - 1;
      RegionsGrow(s, c, actions[..n]);
      SettledGrows(Run(s, c, actions[..n]), c, actions[n]);
    }
  }

  lemma EmitterIsKnown(s: State, c: Config, a: Action)
    requires Sound(s) && Emitted(s, c, a).Some?
    ensures Emitted(s, c, a).value.origin.publisher in Knows(Settled(s, c, a), c).leases
  {
    hide Reading, StructurallyValid, ValidPublication, CheckedMul;
  }

  /** Once a region generation is retired or passed, no event or counter sample that names the region
      at that generation or an earlier one ever changes an aggregate again. */
  lemma PassedEvidenceNeverCounts(s: State, c: Config, actions: seq<Action>, a: Action, id: string, g: U64)
    requires Sound(s) && c.policy.currentRegion && Passed(s.regions, id, g)
    ensures var t := Run(s, c, actions);
            var o := Emitted(t, c, a);
            o.Some? && NamesRegionUpTo(o.value, id, g) ==>
              && Entries(t, c, a) != [] && !Counts(Entries(t, c, a)[0].outcome)
              && Step(t, c, a).evidence.aggregates == t.evidence.aggregates
              && Step(t, c, a).evidence.regions == t.evidence.regions
  {
    hide Run, Settled, Emitted, Judge, FoundLocality, AllGrown, Passed, NamesRegionUpTo, StoredFrom, UpdatesUpTo;
    var t := Run(s, c, actions);
    RegionsGrow(s, c, actions);
    GrowthKeepsPassed(s.regions, t.regions, id, g);
    SettledGrows(t, c, a);
    var settled := Settled(t, c, a);
    GrowthKeepsPassed(t.regions, settled.regions, id, g);
    var o := Emitted(t, c, a);
    if o.Some? && NamesRegionUpTo(o.value, id, g) {
      EmitterIsKnown(t, c, a);
      PassedNeverCounts(Knows(settled, c), o.value, id, g);
    }
  }

  // ---- The authority protocol inside a run -----------------------------

  /** What an action is to publisher authority. */
  ghost function Moves(a: Action): (moves: seq<Replay.Action>)
  {
    match a
    case RegisterPublisher(q) => [Replay.DoRegister(q)]
    case FencePublisher(pid, boot, reason) => [Replay.DoFence(pid, boot, reason)]
    case Publish(o, hash, now) => if StructurallyValid(o) then [Replay.DoIngest(OfferOf(o, hash, now))] else []
    case PublishCounter(p, hash, _, now) =>
      if ValidPublication(p) then [Replay.DoIngest(CounterOfferOf(p, hash, now))] else []
    case _ => []
  }

  ghost function Projected(actions: seq<Action>): (moves: seq<Replay.Action>)
  {
    if actions == [] then [] else Projected(actions[..|actions| - 1]) + Moves(actions[|actions| - 1])
  }

  lemma {:induction false} RunConcat(w: Replay.World, lim: Limits, a: seq<Replay.Action>, b: seq<Replay.Action>)
    ensures Replay.Run(w, lim, a + b) == Replay.Run(Replay.Run(w, lim, a), lim, b)
    decreases |a|
  {
    hide Replay.Step;
    if a == [] {
      assert a + b == b;
    } else {
      RunConcat(Replay.Step(w, lim, a[0]), lim, a[1..], b);
      assert (a + b)[1..] == a[1..] + b;
    }
  }

  ghost function AcceptanceOf(incarnation: nat, e: Entry): (x: Replay.Acceptance)
    requires e.o.origin.sequence != 0
  {
    Replay.Acceptance(incarnation, e.o.origin.publisher, e.o.origin.boot, e.o.origin.sequence)
  }

  ghost predicate Backed(e: Entry, incarnation: nat, log: seq<Replay.Acceptance>)
  {
    e.o.origin.sequence != 0 && AcceptanceOf(incarnation, e) in log
  }

  lemma StepProjects(s: State, c: Config, a: Action, w: Replay.World)
    requires Sound(s) && w.reg == s.reg
    ensures var v := Replay.Run(w, c.lim, Moves(a));
            && v.reg == Step(s, c, a).reg && v.incarnation == w.incarnation && w.log <= v.log
            && forall e :: e in Entries(s, c, a) ==> Backed(e, w.incarnation, v.log[|w.log|..])
  {
    hide Register, Fence, Ingest, Accepts, StructurallyValid, ValidPublication, Reading, Applied, Judge, FoundLocality,
         RegisteredRegions, RetiredRegions, CheckedMul;
    var moves := Moves(a);
    if moves != [] {
      assert moves[1..] == [];
      assert Replay.Run(w, c.lim, moves) == Replay.Step(w, c.lim, moves[0]);
    }
  }

  /** The registry of a run is that of its authority protocol, and every entry applied was accepted by it. */
  lemma {:induction false} RunProjects(s: State, c: Config, actions: seq<Action>, w: Replay.World)
    requires Sound(s) && w.reg == s.reg
    ensures var v := Replay.Run(w, c.lim, Projected(actions));
            && v.reg == Run(s, c, actions).reg && v.incarnation == w.incarnation && w.log <= v.log
            && forall e :: e in Log(s, c, actions) ==> Backed(e, w.incarnation, v.log[|w.log|..])
  {
    hide Step, Entries, Moves, Replay.Step, Backed;
    if actions != [] {
      var n := |actions| - 1;
      RunProjects(s, c, actions[..n], w);
      var mid := Replay.Run(w, c.lim, Projected(actions[..n]));
      StepProjects(Run(s, c, actions[..n]), c, actions[n], mid);
      RunConcat(w, c.lim, Projected(actions[..n]), Moves(actions[n]));
      var v := Replay.Run(mid, c.lim, Moves(actions[n]));
      forall e | e in Log(s, c, actions)
        ensures Backed(e, w.incarnation, v.log[|w.log|..])
      {
        assert v.log[..|mid.log|] == mid.log;
        if e in Log(s, c, actions[..n]) {
          BackedWithin(e, w.incarnation, mid.log[|w.log|..], v.log[|w.log|..]);
        } else {
          BackedWithin(e, w.incarnation, v.log[|mid.log|..], v.log[|w.log|..]);
        }
      }
    }
  }

  lemma BackedWithin(e: Entry, incarnation: nat, a: seq<Replay.Acceptance>, b: seq<Replay.Acceptance>)
    requires Backed(e, incarnation, a) && forall i :: 0 <= i < |a| ==> a[i] in b
    ensures Backed(e, incarnation, b)
  {}

  /** Nothing a fenced or superseded boot publishes is applied, let alone counted, while its durable
      entry is kept. */
  lemma DeadBootLeavesNoEvidence(s: State, c: Config, actions: seq<Action>, pid: string, boot: U64, e: Entry)
    requires Sound(s) && s.reg.enforceCurrent && Replay.Dead(s.reg, pid, boot)
    requires Replay.EntryKept(Replay.World(s.reg, None, 0, []), c.lim, Projected(actions), BootKey(pid, boot))
    ensures e in Log(s, c, actions) ==> !(e.o.origin.publisher == pid && e.o.origin.boot == boot)
  {
    hide Run, Log, Projected, Replay.Run, Replay.Dead, Replay.EntryKept, BootKey;
    var w := Replay.World(s.reg, None, 0, []);
    RunProjects(s, c, actions, w);
    Replay.DeadForever(w, c.lim, Projected(actions), pid, boot);
  }

  lemma PublicationIsNumbered(p: Publication)
    requires ValidPublication(p)
    ensures p.origin.sequence != 0 && p.descriptor.mappedType < EVENT_TYPE_COUNT
  {}

  lemma ValidIsNumbered(o: Observation)
    requires StructurallyValid(o)
    ensures o.origin.sequence != 0
  {}

  // ---- The runtime itself ----------------------------------------------

  class Runtime {
    const c: Config
    const coordinator: Coordinator
    const table: RegionTable
    const evidence: EvidenceLog
    var around: Surroundings
    var counters: map<CounterKey, Counter.Record>

    constructor (c: Config, enforceCurrent: bool, around: Surroundings)
      requires Usable(c.bounds)
      ensures Valid() && this.c == c
      ensures View() == State(Registry(1, enforceCurrent, map[], map[]), map[], around, map[], BLANK)
    {
      this.c, this.around, counters := c, around, map[];
      coordinator := new Coordinator(c.lim, enforceCurrent);
      table := new RegionTable(c.regions);
      evidence := new EvidenceLog(c.bounds);
    }

    ghost function View(): (s: State)
      reads this, coordinator, table, evidence, evidence.aggregates
    {
      State(coordinator.View(), table.regions, around, counters, evidence.View())
    }

    ghost predicate Valid()
      reads this, coordinator, table, evidence, evidence.aggregates
    {
      && coordinator.lim == c.lim && table.cap == c.regions && evidence.bounds == c.bounds
      && evidence.Valid() && Sound(View())
    }

    method Attribute(o: Observation) returns (e: Entry)
      requires Valid()
      ensures e == EntryOf(Knows(View(), c), o)
    {
      hide Judge, FoundLocality;
      var leases := map pid | pid in coordinator.publishers ::
        Lease(coordinator.publishers[pid].boot, Live(coordinator.publishers[pid]));
      var outcome, locality, established :=
        Attribution.Attribute(Knowledge(c.policy, coordinator.epoch, leases, table.regions, around), o);
      e := Entry(o, outcome, locality, established);
    }

    method Ingest(o: Observation, hash: U64, now: U64) returns (d: Sequence.Decision)
      requires Valid()
      modifies coordinator, evidence, evidence.aggregates
      ensures Valid()
      ensures View() == Step(old(View()), c, Publish(o, hash, now))
      ensures d == DispositionOf(old(View()), c, o, hash, now)
    {
      hide StructurallyValid, Authority.Ingest, Accepts, Disposed, EntryOf, Applied, WellFormed;
      if !StructurallyValid(o) {
        return Sequence.Decision(Sequence.Rejected, Some(InvalidArgument), 0);
      }
      ValidIsNumbered(o);
      d := coordinator.IngestOne(OfferOf(o, hash, now));
      if Sequence.Mutates(d) {
        var entry := Attribute(o);
        evidence.Apply(entry);
      }
    }

    /** Take one raw reading into its counter record. */
    method Read(p: Publication) returns (delta: Result<U64>)
      requires Sound(View())
      modifies this`counters
      ensures (counters, delta) ==
              (old(counters)[KeyOf(p) := old(Reading(View(), p)).0], old(Reading(View(), p)).1)
    {
      hide Counter.Sample, Counter.Valid, WellFormed;
      var key := KeyOf(p);
      Counter.UnusedIsValid(p.descriptor);
      var record := new Counter.CounterRecord(if key in counters then counters[key] else Counter.Unused(p.descriptor));
      delta := record.Ingest(p.descriptor, p.raw);
      var after := record.Stored();
      counters := counters[key := after];
    }

    /** A counter sample commits its sequence before its capacity and width are checked. */
    method IngestCounter(p: Publication, hash: U64, eventId: U64, now: U64) returns (reply: CounterReply)
      requires Valid()
      modifies this`counters, coordinator, evidence, evidence.aggregates
      ensures Valid()
      ensures View() == Step(old(View()), c, PublishCounter(p, hash, eventId, now))
      ensures reply == Reply(old(View()), c, p, hash, now)
    {
      hide ValidPublication, Authority.Ingest, Accepts, Disposed, EntryOf, Applied, WellFormed, Counter.Sample,
           Counter.Valid, Derived;
      if !ValidPublication(p) {
        return Refused(InvalidArgument);
      }
      PublicationIsNumbered(p);
      var d := coordinator.IngestOne(CounterOfferOf(p, hash, now));
      if d.disposition.Replayed? {
        return AlreadySeen;
      }
      if d.disposition.Rejected? {
        return Refused(OrElse(d.code, Conflict));
      }
      var key := KeyOf(p);
      if key !in counters && |counters| >= c.counters {
        return Refused(Capacity);
      }
      var delta := Read(p);
      if delta.Err? {
        return Refused(delta.code);
      }
      if delta.value != 0 {
        var entry := Attribute(Derived(p, coordinator.epoch, delta.value, eventId));
        evidence.Apply(entry);
      }
      return Counted(delta.value);
    }
  }
}
