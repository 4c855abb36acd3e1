/**
 Applying an accepted observation (src/state.cpp:19-39, 68-154): aggregates over
 ten dimensions, a bounded journal, and bounded rings of samples for a bounded
 number of regions, evicted first in first out.

 Every bound is a parameter; the runtime keeps 65536 buckets, 16384 journal
 entries, 8192 tracked regions and 256 samples per region.
 */
module Evidence {
  import opened Machine
  import opened Retention
  import opened Observation
  import opened Aggregate
  import opened AggregateStore
  import opened Attribution

  datatype Bounds = Bounds(buckets: nat, journal: nat, regions: nat, samples: nat, timeBucket: int)

  predicate Usable(b: Bounds)
  {
    b.journal > 0 && b.regions > 0 && b.samples > 0
  }

  /** An observation as it was applied. */
  datatype Entry = Entry(o: Observation, outcome: Outcome, locality: Byte, established: bool)

  predicate IsRegionRelevant(kind: Byte)
  {
    IsOwnershipEvent(kind) ||
    kind in {INVALIDATION, REGION_INVALIDATION, REMOTE_WRITE, REMOTE_READ, COHERENCE_CONFLICT, COHERENCE_RETRY,
             SHARED_READ, WRITEBACK, SNOOP_REQUEST, SNOOP_RESPONSE, DIRECTORY_LOOKUP, DIRECTORY_MISS,
             REMOTE_ATOMIC, MEMORY_DOMAIN_TRANSFER}
  }

  /** Whether the entry leaves a sample with its region. */
  predicate Relevant(e: Entry)
  {
    Counts(e.outcome) && e.o.subject.region.Some? && IsRegionRelevant(e.o.kind)
  }

  const NO_RESOURCE := ResourceRef(0, "", 0)

  datatype Sample = Sample(
    eventId: U64, sequence: U64, timestamp: int, from: ResourceRef, to: ResourceRef, kind: Byte,
    before: Byte, after: Byte, direction: Byte, precision: Byte, provenance: Byte, granularity: Byte,
    publisher: string, boot: U64, regionGeneration: U64, line: string)

  function Lookup(m: seq<(string, string)>, key: string): (v: string)
  {
    if m == [] then "" else if m[0].0 == key then m[0].1 else Lookup(m[1..], key)
  }

  function OrElse<T>(x: Option<T>, otherwise: T): (y: T)
  {
    if x.Some? then x.value else otherwise
  }

  function SampleOf(o: Observation): (s: Sample)
  {
    Sample(o.eventId, o.origin.sequence, o.origin.timestamp,
           OrElse(o.subject.source, NO_RESOURCE), OrElse(o.subject.target, NO_RESOURCE), o.kind,
           o.effect.before, o.effect.after, o.effect.direction,
           o.quality.precision, o.quality.provenance, o.quality.granularity,
           o.origin.publisher, o.origin.boot, OrElse(o.subject.regionGeneration, 0), Lookup(o.metadata, "line.index"))
  }

  datatype Track = Track(samples: seq<Sample>, total: nat, evicted: nat, lastUpdate: int)

  datatype Regions = Regions(tracks: map<string, Track>, order: seq<string>, dropped: nat)

  datatype Ledger = Ledger(aggregates: Store, droppedUpdates: nat, journal: seq<Entry>, droppedEntries: nat, regions: Regions)

  const BLANK := Ledger(FRESH, 0, [], 0, Regions(map[], [], 0))

  // ---- One application -------------------------------------------------

  /** The position of the first queued region that is still tracked. */
  function FirstTracked(order: seq<string>, tracks: map<string, Track>): (k: nat)
    ensures k <= |order| && (k < |order| ==> order[k] in tracks)
  {
    if order == [] || order[0] in tracks then 0 else 1 + FirstTracked(order[1..], tracks)
  }

  /** Make room for a region that is not tracked yet, and track it. */
  function Admit(r: Regions, bound: nat, id: string): (t: Regions)
  {
    var empty := Track([], 0, 0, 0);
    if |r.tracks| < bound || r.order == [] then Regions(r.tracks[id := empty], r.order + [id], r.dropped)
    else Regions((r.tracks - {r.order[0]})[id := empty], r.order[1..] + [id], r.dropped + 1)
  }

  function Sampled(r: Regions, bound: nat, id: string, o: Observation): (t: Regions)
    requires id in r.tracks
  {
    var k := r.tracks[id];
    var full := |k.samples| >= bound && k.samples != [];
    var kept := if full then k.samples[1..] else k.samples;
    var more := if full then 1 else 0;
    Regions(r.tracks[id := Track(kept + [SampleOf(o)], k.total + 1, k.evicted + more, o.origin.timestamp)],
            r.order, r.dropped + more)
  }

  function Tracked(r: Regions, b: Bounds, e: Entry): (t: Regions)
  {
    if !Relevant(e) then r else
    var id := e.o.subject.region.value;
    var s := if id in r.tracks then r else Admit(r, b.regions, id);
    Sampled(s, b.samples, id, e.o)
  }

  ghost function Applied(l: Ledger, b: Bounds, e: Entry): (m: Ledger)
    requires WellFormed(l.aggregates)
    ensures WellFormed(m.aggregates)
  {
    var aggregates :=
      if Counts(e.outcome) then StoredFrom(l.aggregates, UpdatesUpTo(e.o, b.timeBucket, DIMENSION_COUNT), b.buckets)
      else l.aggregates;
    var drop := if |l.journal| >= b.journal then 1 else 0;
    Ledger(aggregates, l.droppedUpdates + aggregates.refused - l.aggregates.refused,
           Last(l.journal + [e], b.journal), l.droppedEntries + drop, Tracked(l.regions, b, e))
  }

  ghost function AppliedAll(b: Bounds, log: seq<Entry>): (l: Ledger)
    ensures WellFormed(l.aggregates)
  {
    if log == [] then BLANK else Applied(AppliedAll(b, log[..|log| - 1]), b, log[|log| - 1])
  }

  // ---- What the log says should be held --------------------------------

  /** The observations that count, in order. */
  ghost function Counted(log: seq<Entry>): (os: seq<Observation>)
  {
    if log == [] then [] else
    Counted(log[..|log| - 1]) + if Counts(log[|log| - 1].outcome) then [log[|log| - 1].o] else []
  }

  predicate RelevantTo(e: Entry, id: string)
  {
    Relevant(e) && e.o.subject.region.value == id
  }

  /** Regions in the order they came under tracking; only the last `n` are still tracked. */
  ghost function Admissions(log: seq<Entry>, n: nat): (ids: seq<string>)
  {
    if log == [] then [] else
    var before, e := Admissions(log[..|log| - 1], n), log[|log| - 1];
    if Relevant(e) && e.o.subject.region.value !in Last(before, n) then before + [e.o.subject.region.value] else before
  }

  /** The samples of a region since it last came under tracking. */
  ghost function History(log: seq<Entry>, n: nat, id: string): (h: seq<Sample>)
  {
    if log == [] then [] else
    var before, e := log[..|log| - 1], log[|log| - 1];
    if !RelevantTo(e, id) then History(before, n, id)
    else if id in Last(Admissions(before, n), n) then History(before, n, id) + [SampleOf(e.o)]
    else [SampleOf(e.o)]
  }

  ghost predicate TrackFaithful(k: Track, bound: nat, h: seq<Sample>)
  {
    && k.samples == Last(h, bound) && k.total == |h| && k.total == |k.samples| + k.evicted
    && h != [] && k.lastUpdate == h[|h| - 1].timestamp
  }

  ghost predicate TracksFaithful(r: Regions, b: Bounds, log: seq<Entry>)
  {
    forall id :: id in r.tracks ==> TrackFaithful(r.tracks[id], b.samples, History(log, b.regions, id))
  }

  /** The order queue enumerates the tracked regions once each, within its bound. */
  ghost predicate Enumerates(r: Regions, bound: nat)
  {
    NoDuplicates(r.order) && Elements(r.order) == r.tracks.Keys && |r.order| <= bound
  }

  ghost predicate RegionsFaithful(r: Regions, b: Bounds, log: seq<Entry>)
  {
    && Enumerates(r, b.regions)
    && r.order == Last(Admissions(log, b.regions), b.regions)
    && TracksFaithful(r, b, log)
  }

  ghost predicate Faithful(l: Ledger, b: Bounds, log: seq<Entry>)
  {
    && l.aggregates == StoredAll(UpdatesOf(Counted(log), b.timeBucket), b.buckets)
    && l.droppedUpdates == l.aggregates.refused
    && l.journal == Last(log, b.journal) && |l.journal| + l.droppedEntries == |log|
    && RegionsFaithful(l.regions, b, log)
  }

  lemma CountedSnoc(log: seq<Entry>, e: Entry)
    ensures Counted(log + [e]) == Counted(log) + if Counts(e.outcome) then [e.o] else []
  {
    assert (log + [e])[..|log|] == log;
  }

  lemma UpdatesOfSnoc(os: seq<Observation>, o: Observation, timeBucket: int)
    ensures UpdatesOf(os + [o], timeBucket) == UpdatesOf(os, timeBucket) + UpdatesUpTo(o, timeBucket, DIMENSION_COUNT)
  {
    hide UpdatesUpTo;
    assert (os + [o])[..|os|] == os;
  }

  lemma AdmissionsSnoc(log: seq<Entry>, e: Entry, n: nat)
    ensures var before := Admissions(log, n);
            Admissions(log + [e], n) ==
            if Relevant(e) && e.o.subject.region.value !in Last(before, n)
            then before + [e.o.subject.region.value] else before
  {
    hide Last;
    assert (log + [e])[..|log|] == log;
  }

  lemma HistorySnoc(log: seq<Entry>, e: Entry, n: nat, id: string)
    ensures History(log + [e], n, id) ==
            if !RelevantTo(e, id) then History(log, n, id)
            else if id in Last(Admissions(log, n), n) then History(log, n, id) + [SampleOf(e.o)]
            else [SampleOf(e.o)]
  {
    hide Last, Admissions;
    assert (log + [e])[..|log|] == log;
  }

  lemma AggregatesStay(s: Store, b: Bounds, log: seq<Entry>, e: Entry)
    requires s == StoredAll(UpdatesOf(Counted(log), b.timeBucket), b.buckets)
    ensures (if Counts(e.outcome) then StoredFrom(s, UpdatesUpTo(e.o, b.timeBucket, DIMENSION_COUNT), b.buckets) else s)
            == StoredAll(UpdatesOf(Counted(log + [e]), b.timeBucket), b.buckets)
  {
    hide Counted, UpdatesOf, UpdatesUpTo, StoredFrom;
    CountedSnoc(log, e);
    assert Counted(log) + [] == Counted(log);
    if Counts(e.outcome) {
      UpdatesOfSnoc(Counted(log), e.o, b.timeBucket);
      StoredConcat(FRESH, UpdatesOf(Counted(log), b.timeBucket),
                   UpdatesUpTo(e.o, b.timeBucket, DIMENSION_COUNT), b.buckets);
    }
  }

  lemma AdmitEnumerates(r: Regions, bound: nat, id: string)
    requires Enumerates(r, bound) && bound > 0 && id !in r.tracks
    ensures var t := Admit(r, bound, id);
            && Enumerates(t, bound) && t.order == Last(r.order + [id], bound)
            && id in t.tracks && t.tracks.Keys <= r.tracks.Keys + {id} && t.tracks[id] == Track([], 0, 0, 0)
            && forall k :: k in t.tracks && k != id ==> t.tracks[k] == r.tracks[k]
  {
    hide NoDuplicates, Elements;
    DistinctCount(r.order);
    var kept := if |r.tracks| < bound then r.order else r.order[1..];
    DropFirst(r.order, |r.order| - |kept|);
    NoDuplicatesSnoc(kept, id);
  }

  lemma DropFirst(s: seq<string>, cut: nat)
    requires NoDuplicates(s) && cut <= 1 && cut <= |s|
    ensures NoDuplicates(s[cut..])
    ensures Elements(s[cut..]) == if cut == 0 then Elements(s) else Elements(s) - {s[0]}
  {
    if cut == 0 {
      assert s[cut..] == s;
    } else {
      DropElements(s, 1);
      assert Elements(s[..1]) == {s[0]};
    }
  }

  lemma SampledStays(r: Regions, bound: nat, id: string, o: Observation, h: seq<Sample>)
    requires bound > 0 && id in r.tracks
    requires if h == [] then r.tracks[id] == Track([], 0, 0, 0) else TrackFaithful(r.tracks[id], bound, h)
    ensures var t := Sampled(r, bound, id, o);
            && TrackFaithful(t.tracks[id], bound, h + [SampleOf(o)])
            && t.order == r.order && t.tracks.Keys == r.tracks.Keys
            && forall k :: k in t.tracks && k != id ==> t.tracks[k] == r.tracks[k]
  {
    var k := r.tracks[id];
    LastSnoc(h, SampleOf(o), bound);
    assert k.samples == Last(h, bound);
    if |k.samples| >= bound {
      assert Last(k.samples + [SampleOf(o)], bound) == k.samples[1..] + [SampleOf(o)];
    }
  }

  lemma RegionsStay(r: Regions, b: Bounds, log: seq<Entry>, e: Entry)
    requires Usable(b) && RegionsFaithful(r, b, log)
    ensures RegionsFaithful(Tracked(r, b, e), b, log + [e])
  {
    hide Admissions, History, NoDuplicates, Elements, Sampled, Admit, SampleOf, Last, IsRegionRelevant;
    AdmissionsSnoc(log, e, b.regions);
    forall id
      ensures !RelevantTo(e, id) ==> History(log + [e], b.regions, id) == History(log, b.regions, id)
    {
      HistorySnoc(log, e, b.regions, id);
    }
    if Relevant(e) {
      var id := e.o.subject.region.value;
      InElements(r.order, id);
      HistorySnoc(log, e, b.regions, id);
      if id in r.tracks {
        SampledStays(r, b.samples, id, e.o, History(log, b.regions, id));
      } else {
        AdmitEnumerates(r, b.regions, id);
        LastSnoc(Admissions(log, b.regions), id, b.regions);
        SampledStays(Admit(r, b.regions, id), b.samples, id, e.o, []);
        assert [] + [SampleOf(e.o)] == [SampleOf(e.o)];
      }
    }
  }

  lemma InElements(s: seq<string>, x: string)
    ensures x in s <==> x in Elements(s)
  {}

  lemma AppliedStays(l: Ledger, b: Bounds, log: seq<Entry>, e: Entry)
    requires Usable(b) && WellFormed(l.aggregates) && Faithful(l, b, log)
    ensures Faithful(Applied(l, b, e), b, log + [e])
  {
    hide StoredFrom, StoredAll, UpdatesOf, UpdatesUpTo, Counted, RegionsFaithful, Tracked, Last;
    AggregatesStay(l.aggregates, b, log, e);
    LastSnoc(log, e, b.journal);
    RegionsStay(l.regions, b, log, e);
  }

  /** In every run from a fresh state the aggregates are the fold of the counted observations, the
      journal holds exactly the last entries with the rest accounted as dropped, and every tracked
      region holds its last samples since it came under tracking. */
  lemma {:induction false} EvidenceIsFaithful(b: Bounds, log: seq<Entry>)
    requires Usable(b)
    ensures Faithful(AppliedAll(b, log), b, log)
  {
    hide Applied, StoredAll, RegionsFaithful;
    if log == [] {
      BlankIsFaithful(b);
    } else {
      var n := |log| - 1;
      EvidenceIsFaithful(b, log[..n]);
      AppliedStays(AppliedAll(b, log[..n]), b, log[..n], log[n]);
      assert log[..n] + [log[n]] == log;
    }
  }

  lemma BlankIsFaithful(b: Bounds)
    ensures Faithful(BLANK, b, [])
  {}

  // ---- What "since it came under tracking" means -----------------------

  ghost function SamplesNaming(log: seq<Entry>, id: string): (h: seq<Sample>)
  {
    if log == [] then [] else
    SamplesNaming(log[..|log| - 1], id) + if RelevantTo(log[|log| - 1], id) then [SampleOf(log[|log| - 1].o)] else []
  }

  ghost predicate IsTracked(log: seq<Entry>, n: nat, id: string)
  {
    id in Last(Admissions(log, n), n)
  }

  /** Entry `k` brought the region under tracking, and it has stayed tracked since. */
  ghost predicate TrackedSince(log: seq<Entry>, n: nat, id: string, k: nat)
  {
    && k < |log| && RelevantTo(log[k], id) && !IsTracked(log[..k], n, id)
    && forall j :: k < j <= |log| ==> IsTracked(log[..j], n, id)
  }

  lemma TrackedSinceSnoc(log: seq<Entry>, e: Entry, n: nat, id: string, k: nat)
    requires TrackedSince(log, n, id, k) && IsTracked(log + [e], n, id)
    ensures TrackedSince(log + [e], n, id, k)
  {
    hide IsTracked, Relevant;
    var all := log + [e];
    assert all[..k] == log[..k];
    forall j | k < j <= |all|
      ensures IsTracked(all[..j], n, id)
    {
      if j <= |log| {
        assert all[..j] == log[..j];
      } else {
        assert all[..j] == all;
      }
    }
  }

  lemma SamplesNamingSnoc(log: seq<Entry>, e: Entry, id: string, k: nat)
    requires k <= |log|
    ensures SamplesNaming((log + [e])[k..], id) ==
            SamplesNaming(log[k..], id) + if RelevantTo(e, id) then [SampleOf(e.o)] else []
  {
    hide SampleOf, RelevantTo;
    var all := (log + [e])[k..];
    assert all == log[k..] + [e] && all[..|all| - 1] == log[k..];
  }

  lemma AdmittedNow(log: seq<Entry>, e: Entry, n: nat, id: string)
    requires n > 0 && IsTracked(log + [e], n, id)
    ensures IsTracked(log, n, id) || RelevantTo(e, id)
    ensures !IsTracked(log, n, id) ==> TrackedSince(log + [e], n, id, |log|)
  {
    hide Admissions, IsRegionRelevant;
    AdmissionsSnoc(log, e, n);
    assert (log + [e])[..|log|] == log && (log + [e])[..|log| + 1] == log + [e];
  }

  /** The history of a tracked region is every relevant sample from the entry that brought it under
      tracking, and it has been tracked without a break since that entry. */
  lemma {:induction false} HistorySince(log: seq<Entry>, n: nat, id: string) returns (k: nat)
    requires n > 0 && IsTracked(log, n, id)
    ensures TrackedSince(log, n, id, k) && History(log, n, id) == SamplesNaming(log[k..], id)
  {
    hide SampleOf, RelevantTo, TrackedSince, SamplesNaming, History, Last, Admissions;
    if log == [] {
      NothingTracked(n, id);
    } else {
      var m := |log| - 1;
      var before, e := log[..m], log[m];
      assert log == before + [e];
      AdmittedNow(before, e, n, id);
      HistorySnoc(before, e, n, id);
      if IsTracked(before, n, id) {
        k := HistorySince(before, n, id);
        TrackedSinceBound(before, n, id, k);
        TrackedSinceSnoc(before, e, n, id, k);
        SamplesNamingSnoc(before, e, id, k);
        assert History(before, n, id) + [] == History(before, n, id);
      } else {
        k := m;
        SamplesNamingSnoc(before, e, id, m);
        NoSamples(before[m..], id);
        assert [] + [SampleOf(e.o)] == [SampleOf(e.o)];
      }
    }
  }

  lemma NothingTracked(n: nat, id: string)
    ensures !IsTracked([], n, id)
  {}

  lemma TrackedSinceBound(log: seq<Entry>, n: nat, id: string, k: nat)
    requires TrackedSince(log, n, id, k)
    ensures k < |log|
  {}

  lemma NoSamples(log: seq<Entry>, id: string)
    requires log == []
    ensures SamplesNaming(log, id) == []
  {}

  // ---- The live evidence -----------------------------------------------

  class EvidenceLog {
    const bounds: Bounds
    const aggregates: Aggregates
    var droppedUpdates: nat
    var journal: seq<Entry>
    var droppedEntries: nat
    var tracks: map<string, Track>
    var order: seq<string>
    var droppedSamples: nat

    constructor (bounds: Bounds)
      requires Usable(bounds)
      ensures Valid() && View() == BLANK && this.bounds == bounds && fresh(aggregates)
    {
      this.bounds := bounds;
      aggregates := new Aggregates(bounds.buckets);
      droppedUpdates, journal, droppedEntries, tracks, order, droppedSamples := 0, [], 0, map[], [], 0;
    }

    ghost function View(): (l: Ledger)
      reads this, aggregates
    {
      Ledger(aggregates.View(), droppedUpdates, journal, droppedEntries, Regions(tracks, order, droppedSamples))
    }

    ghost predicate Valid()
      reads this, aggregates
    {
      && Usable(bounds) && aggregates.cap == bounds.buckets && WellFormed(aggregates.View())
      && |journal| <= bounds.journal && Enumerates(Regions(tracks, order, droppedSamples), bounds.regions)
    }

    method Aggregate(o: Observation)
      requires WellFormed(aggregates.View()) && aggregates.cap == bounds.buckets
      modifies this`droppedUpdates, aggregates
      ensures WellFormed(aggregates.View())
      ensures aggregates.View() ==
              StoredFrom(old(aggregates.View()), UpdatesUpTo(o, bounds.timeBucket, DIMENSION_COUNT), bounds.buckets)
      ensures droppedUpdates == old(droppedUpdates) + aggregates.refused - old(aggregates.refused)
    {
      hide ContributionOf, ValueText, Stored, Refuses;
      var c := ContributionOf(o);
      ghost var before := aggregates.View();
      for d := 0 to DIMENSION_COUNT
        invariant WellFormed(aggregates.View())
        invariant aggregates.View() == StoredFrom(before, UpdatesUpTo(o, bounds.timeBucket, d), bounds.buckets)
        invariant droppedUpdates == old(droppedUpdates) + aggregates.refused - before.refused
      {
        ghost var us := UpdatesUpTo(o, bounds.timeBucket, d + 1);
        assert us[..|us| - 1] == UpdatesUpTo(o, bounds.timeBucket, d);
        var ok := aggregates.Accumulate(Key(d, ValueText(o, d, bounds.timeBucket)), c);
        if !ok {
          droppedUpdates := droppedUpdates + 1;
        }
      }
    }

    method Journal(e: Entry)
      requires |journal| <= bounds.journal && bounds.journal > 0
      modifies this`journal, this`droppedEntries
      ensures journal == Last(old(journal) + [e], bounds.journal)
      ensures droppedEntries == old(droppedEntries) + if |old(journal)| >= bounds.journal then 1 else 0
    {
      if |journal| >= bounds.journal {
        journal := journal[1..];
        droppedEntries := droppedEntries + 1;
      }
      journal := journal + [e];
    }

    /** Evict the oldest tracked region, skipping queue entries that are no longer tracked. */
    method MakeRoom()
      modifies this`tracks, this`order, this`droppedSamples
      ensures var k := FirstTracked(old(order), old(tracks));
              if k == |old(order)| then order == [] && tracks == old(tracks) && droppedSamples == old(droppedSamples)
              else order == old(order)[k + 1..] && tracks == old(tracks) - {old(order)[k]}
                   && droppedSamples == old(droppedSamples) + 1
    {
      ghost var skipped := 0;
      while order != []
        invariant skipped <= |old(order)| && order == old(order)[skipped..]
        invariant FirstTracked(old(order), old(tracks)) == skipped + FirstTracked(order, tracks)
        invariant tracks == old(tracks) && droppedSamples == old(droppedSamples)
        decreases |order|
      {
        var victim := order[0];
        order := order[1..];
        if victim in tracks {
          tracks := tracks - {victim};
          droppedSamples := droppedSamples + 1;
          break;
        }
        skipped := skipped + 1;
      }
    }

    method AddSample(id: string, o: Observation)
      requires id in tracks && bounds.samples > 0
      modifies this`tracks, this`droppedSamples
      ensures Regions(tracks, order, droppedSamples) ==
              Sampled(Regions(old(tracks), order, old(droppedSamples)), bounds.samples, id, o)
    {
      var k := tracks[id];
      var samples, evicted := k.samples, k.evicted;
      if |samples| >= bounds.samples {
        samples := samples[1..];
        evicted := evicted + 1;
        droppedSamples := droppedSamples + 1;
      }
      tracks := tracks[id := Track(samples + [SampleOf(o)], k.total + 1, evicted, o.origin.timestamp)];
    }

    method Follow(e: Entry)
      requires Enumerates(Regions(tracks, order, droppedSamples), bounds.regions) && Usable(bounds)
      modifies this`tracks, this`order, this`droppedSamples
      ensures Regions(tracks, order, droppedSamples) ==
              Tracked(Regions(old(tracks), old(order), old(droppedSamples)), bounds, e)
    {
      hide SampleOf, Sampled, NoDuplicates, Elements;
      if !Counts(e.outcome) || e.o.subject.region.None? || !IsRegionRelevant(e.o.kind) {
        return;
      }
      var id := e.o.subject.region.value;
      if id !in tracks {
        DistinctCount(order);
        if |tracks| >= bounds.regions {
          InElements(order, order[0]);
          MakeRoom();
        }
        order := order + [id];
        tracks := tracks[id := Track([], 0, 0, 0)];
      }
      AddSample(id, e.o);
    }

    method Apply(e: Entry)
      requires Valid()
      modifies this, aggregates
      ensures Valid()
      ensures View() == Applied(old(View()), bounds, e)
    {
      hide StoredFrom, UpdatesUpTo, NoDuplicates, Elements, Last;
      if Counts(e.outcome) {
        Aggregate(e.o);
      }
      Journal(e);
      TrackedEnumerates(Regions(tracks, order, droppedSamples), bounds, e);
      Follow(e);
    }
  }

  lemma TrackedEnumerates(r: Regions, b: Bounds, e: Entry)
    requires Usable(b) && Enumerates(r, b.regions)
    ensures Enumerates(Tracked(r, b, e), b.regions)
  {
    hide NoDuplicates, Elements, SampleOf;
    if Relevant(e) && e.o.subject.region.value !in r.tracks {
      AdmitEnumerates(r, b.regions, e.o.subject.region.value);
    }
  }
}
