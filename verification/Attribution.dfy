/**
 Attribution of an observation to what is currently registered
 (src/attribution.cpp:139-436), and the lifecycle of memory regions
 (src/observatory.cpp:487-585).
 */
module Attribution {
  import opened Machine
  import opened Retention
  import opened Text
  import opened Observation

  datatype Outcome =
    | AttributedExact | AttributedPartial | AttributedAggregateOnly | Ambiguous | Unattributed
    | StaleEvidence | Unsupported

  /** Outcomes whose evidence is current and therefore counts. */
  predicate Counts(x: Outcome)
  {
    !x.StaleEvidence? && !x.Unsupported?
  }

  /** Which currentness checks are enforced; by default all of them. */
  datatype Policy = Policy(
    currentEpoch: bool, currentPublisher: bool, currentTopology: bool, currentRegion: bool, deriveLocality: bool)

  // ---- What is registered ----------------------------------------------

  datatype Lease = Lease(boot: U64, live: bool)

  datatype Generation = Generation(value: U64, retired: bool)

  datatype Link = Link(from: ResourceRef, to: ResourceRef, locality: Byte)

  /** Everything attribution consults besides publishers and regions. */
  datatype Surroundings = Surroundings(
    topology: U64,
    nodes: set<string>,
    resources: map<(Byte, string), Generation>,
    links: seq<Link>,
    capabilities: set<string>)

  datatype Region = Region(
    generation: U64, retired: bool, memoryDomain: string, memoryDomainGeneration: U64,
    coherenceDomain: string, workload: string, sharingScope: Byte, owner: string, annotation: string,
    size: Option<U64>, pageSize: Option<U64>)

  datatype Knowledge = Knowledge(
    policy: Policy, epoch: nat, leases: map<string, Lease>, regions: map<string, Region>, around: Surroundings)

  predicate ResourceIsCurrent(s: Surroundings, r: ResourceRef)
  {
    if r.kind == NODE then r.id in s.nodes
    else PROCESSOR <= r.kind <= COHERENCE_DOMAIN && (r.kind, r.id) in s.resources
         && s.resources[(r.kind, r.id)] == Generation(r.generation, false)
  }

  predicate Names(l: Link, from: ResourceRef, to: ResourceRef)
  {
    l.from.kind == from.kind && l.from.id == from.id && l.to.kind == to.kind && l.to.id == to.id
  }

  const LOCAL_PROCESSOR: Byte := 1

  /** The locality of the first link that joins the two ends. */
  function LinkLocality(links: seq<Link>, from: ResourceRef, to: ResourceRef): (l: Byte)
  {
    if links == [] then LOCALITY_UNKNOWN
    else if Names(links[0], from, to) then links[0].locality
    else LinkLocality(links[1..], from, to)
  }

  function LocalityBetween(s: Surroundings, from: ResourceRef, to: ResourceRef): (l: Byte)
  {
    if from.id == "" || to.id == "" then LOCALITY_UNKNOWN
    else if from.kind == to.kind && from.id == to.id then
      if from.generation == to.generation then LOCAL_PROCESSOR else LOCALITY_UNKNOWN
    else LinkLocality(s.links, from, to)
  }

  // ---- Claims of an observation ----------------------------------------

  predicate AuthorityStale(k: Knowledge, o: Observation)
    requires o.origin.publisher in k.leases
  {
    var lease := k.leases[o.origin.publisher];
    || lease.boot != o.origin.boot
    || (k.policy.currentPublisher && !lease.live)
    || (k.policy.currentTopology && o.subject.topologyGeneration != k.around.topology)
  }

  predicate RegionKnown(k: Knowledge, o: Observation)
  {
    o.subject.region.Some? && o.subject.region.value in k.regions
  }

  predicate RegionStale(k: Knowledge, o: Observation)
  {
    RegionKnown(k, o) &&
    var region := k.regions[o.subject.region.value];
    region.retired || (k.policy.currentRegion && o.subject.regionGeneration != Some(region.generation))
  }

  const CACHE_LINE_OWNERSHIP := "coherence.cache_line_ownership"
  const CXL_TELEMETRY := "memory.cxl_telemetry"

  predicate BeyondCapability(k: Knowledge, o: Observation)
  {
    IsRealProvenance(o.quality.provenance) &&
    (|| (o.quality.granularity == CACHE_LINE && CACHE_LINE_OWNERSHIP !in k.around.capabilities)
     || (o.quality.localityDeclared && IsCxlClassLocality(o.quality.locality)
         && CXL_TELEMETRY !in k.around.capabilities))
  }

  predicate EndStale(k: Knowledge, end: Option<ResourceRef>)
  {
    end.Some? && !ResourceIsCurrent(k.around, end.value)
  }

  predicate DomainStale(k: Knowledge, o: Observation)
  {
    o.subject.domain.Some? && (COHERENCE_DOMAIN, o.subject.domain.value) in k.around.resources &&
    var domain := k.around.resources[(COHERENCE_DOMAIN, o.subject.domain.value)];
    domain.retired || (o.subject.domainGeneration.Some? && domain.value != o.subject.domainGeneration.value)
  }

  function DeclaredLocality(o: Observation): (l: Byte)
  {
    if o.quality.localityDeclared then o.quality.locality else LOCALITY_UNKNOWN
  }

  function DerivedLocality(k: Knowledge, o: Observation): (l: Byte)
  {
    if k.policy.deriveLocality && o.subject.source.Some? && o.subject.target.Some?
    then LocalityBetween(k.around, o.subject.source.value, o.subject.target.value)
    else LOCALITY_UNKNOWN
  }

  /** Declared and derived locality must not contradict each other. */
  function EstablishedLocality(k: Knowledge, o: Observation): (l: Byte)
  {
    var declared, derived := DeclaredLocality(o), DerivedLocality(k, o);
    if declared == LOCALITY_UNKNOWN then derived
    else if derived == LOCALITY_UNKNOWN || derived == declared then declared
    else LOCALITY_UNKNOWN
  }

  predicate Named(name: Option<string>)
  {
    name.Some? && name.value != ""
  }

  predicate BindsSubject(k: Knowledge, o: Observation)
  {
    var j := o.subject;
    || (j.source.Some? && j.source.value.id != "")
    || (j.target.Some? && j.target.value.id != "")
    || Named(j.workload) || Named(j.process)
    || (Named(j.domain) && (COHERENCE_DOMAIN, j.domain.value) in k.around.resources)
    || DerivedLocality(k, o) != LOCALITY_UNKNOWN
    || EstablishedLocality(k, o) != LOCALITY_UNKNOWN
  }

  const REGION_GRANULARITY: Byte := 3

  predicate ClaimsRegionLevel(o: Observation)
  {
    GranularityRank(o.quality.granularity) >= GranularityRank(REGION_GRANULARITY)
  }

  /** The regions a workload-level claim could be about. */
  function Candidates(regions: map<string, Region>, workload: string): (ids: set<string>)
  {
    set id | id in regions && !regions[id].retired && regions[id].workload == workload
  }

  predicate SeveralCandidates(k: Knowledge, o: Observation)
  {
    && !RegionKnown(k, o) && ClaimsRegionLevel(o) && o.subject.workload.Some?
    && |Candidates(k.regions, o.subject.workload.value)| > 1
  }

  /** Currentness of every claim that can be checked, in no particular order. */
  predicate ClaimsHold(k: Knowledge, o: Observation)
  {
    && !RegionStale(k, o) && !BeyondCapability(k, o)
    && !EndStale(k, o.subject.source) && !EndStale(k, o.subject.target) && !DomainStale(k, o)
  }

  function Judge(k: Knowledge, o: Observation): (x: Outcome)
  {
    if k.policy.currentEpoch && o.origin.coordinatorEpoch != k.epoch then StaleEvidence
    else if o.origin.publisher !in k.leases then Unattributed
    else if AuthorityStale(k, o) || RegionStale(k, o) then StaleEvidence
    else if BeyondCapability(k, o) then Unsupported
    else if !ClaimsHold(k, o) then StaleEvidence
    else if RegionKnown(k, o) then (if ClaimsRegionLevel(o) then AttributedExact else AttributedAggregateOnly)
    else if SeveralCandidates(k, o) then Ambiguous
    else if BindsSubject(k, o) then AttributedPartial
    else Unattributed
  }

  /** The locality reported with the outcome; evidence that does not count reports none. */
  function FoundLocality(k: Knowledge, o: Observation): (l: Byte)
  {
    if Counts(Judge(k, o)) && o.origin.publisher in k.leases then EstablishedLocality(k, o) else LOCALITY_UNKNOWN
  }

  // ---- Attribution as the runtime computes it --------------------------

  const MAX_CANDIDATES: nat := 16

  /** Candidate regions of a workload, giving up one past the bound. */
  method RegionsForWorkload(regions: map<string, Region>, workload: string) returns (found: seq<string>)
    ensures NoDuplicates(found) && Elements(found) <= Candidates(regions, workload)
    ensures |found| == Min(|Candidates(regions, workload)|, MAX_CANDIDATES + 1)
  {
    found := [];
    var rest := regions.Keys;
    ghost var wanted := Candidates(regions, workload);
    while rest != {}
      invariant rest <= regions.Keys && NoDuplicates(found)
      invariant Elements(found) == wanted - rest
      invariant |found| <= MAX_CANDIDATES
      decreases |rest|
    {
      hide NoDuplicates, Elements;
      var id :| id in rest;
      assert id !in Elements(found);
      rest := rest - {id};
      if !regions[id].retired && regions[id].workload == workload {
        NoDuplicatesSnoc(found, id);
        found := found + [id];
        if |found| > MAX_CANDIDATES {
          DistinctCount(found);
          SubsetCount(Elements(found), wanted);
          return;
        }
      }
    }
    DistinctCount(found);
    assert wanted - {} == wanted;
  }

  method LocalityOfLinks(links: seq<Link>, from: ResourceRef, to: ResourceRef) returns (l: Byte)
    ensures l == LinkLocality(links, from, to)
  {
    for i := 0 to |links|
      invariant LinkLocality(links, from, to) == LinkLocality(links[i..], from, to)
    {
      assert links[i..][1..] == links[i + 1..];
      if Names(links[i], from, to) {
        return links[i].locality;
      }
    }
    return LOCALITY_UNKNOWN;
  }

  method Attribute(k: Knowledge, o: Observation) returns (x: Outcome, locality: Byte, established: bool)
    ensures x == Judge(k, o) && locality == FoundLocality(k, o)
    ensures established == (locality != LOCALITY_UNKNOWN)
  {
    hide Candidates, ResourceIsCurrent, IsRealProvenance, GranularityRank, LinkLocality;
    locality, established := LOCALITY_UNKNOWN, false;
    if k.policy.currentEpoch && o.origin.coordinatorEpoch != k.epoch {
      return StaleEvidence, locality, established;
    }
    if o.origin.publisher !in k.leases {
      return Unattributed, locality, established;
    }
    if AuthorityStale(k, o) || RegionStale(k, o) {
      return StaleEvidence, locality, established;
    }
    if BeyondCapability(k, o) {
      return Unsupported, locality, established;
    }
    if EndStale(k, o.subject.source) || EndStale(k, o.subject.target) || DomainStale(k, o) {
      return StaleEvidence, locality, established;
    }
    var derived := LOCALITY_UNKNOWN;
    if k.policy.deriveLocality && o.subject.source.Some? && o.subject.target.Some? {
      var from, to := o.subject.source.value, o.subject.target.value;
      if from.id != "" && to.id != "" {
        if from.kind == to.kind && from.id == to.id {
          derived := if from.generation == to.generation then LOCAL_PROCESSOR else LOCALITY_UNKNOWN;
        } else {
          derived := LocalityOfLinks(k.around.links, from, to);
        }
      }
    }
    var declared := DeclaredLocality(o);
    if declared == LOCALITY_UNKNOWN || derived == LOCALITY_UNKNOWN || declared == derived {
      locality := if declared != LOCALITY_UNKNOWN then declared else derived;
      established := locality != LOCALITY_UNKNOWN;
    }
    var bound := RegionKnown(k, o);
    if !bound && ClaimsRegionLevel(o) && o.subject.workload.Some? {
      var found := RegionsForWorkload(k.regions, o.subject.workload.value);
      if |found| > 1 {
        return Ambiguous, locality, established;
      }
    }
    if bound {
      x := if ClaimsRegionLevel(o) then AttributedExact else AttributedAggregateOnly;
    } else {
      x := if BindsSubject(k, o) then AttributedPartial else Unattributed;
    }
  }

  /** Evidence of a known publisher counts exactly when its authority is current and every claim it
      makes that can be checked holds. */
  lemma CountsIff(k: Knowledge, o: Observation)
    requires o.origin.publisher in k.leases
    ensures Counts(Judge(k, o)) <==>
            && !(k.policy.currentEpoch && o.origin.coordinatorEpoch != k.epoch)
            && !AuthorityStale(k, o) && ClaimsHold(k, o)
  {}

  // ---- Region lifecycle ------------------------------------------------

  const MAX_ANNOTATION: nat := 96

  predicate PowerOfTwo(n: nat)
  {
    n == 1 || (n > 0 && n % 2 == 0 && PowerOfTwo(n / 2))
  }

  function CheckRegion(id: string, r: Region): (e: Option<ErrorCode>)
  {
    if |id| > MAX_NAME_LENGTH then Some(TooLarge)
    else if !ValidToken(id) || r.generation == 0 || r.sharingScope >= 6 then Some(InvalidArgument)
    else if |r.owner| > MAX_ANNOTATION || |r.annotation| > MAX_ANNOTATION then Some(TooLarge)
    else if r.size.Some? && r.size.value > MAX_BYTE_COUNT then Some(OutOfRange)
    else if r.pageSize.Some? && (!PowerOfTwo(r.pageSize.value) || r.pageSize.value > 0x4000_0000) then Some(InvalidArgument)
    else None
  }

  function RegionAdmission(regions: map<string, Region>, cap: nat, id: string, r: Region): (e: Option<ErrorCode>)
  {
    if id !in regions then (if |regions| >= cap then Some(TooMany) else None)
    else if r.generation < regions[id].generation then Some(StaleGeneration)
    else if regions[id].retired && r.generation == regions[id].generation then Some(RetiredEntity)
    else None
  }

  /** The memory domain generation the record is bound to, or why it cannot be. */
  function BoundDomain(s: Surroundings, r: Region): (g: Result<U64>)
  {
    if r.memoryDomain == "" then Ok(r.memoryDomainGeneration)
    else if (MEMORY_DOMAIN, r.memoryDomain) !in s.resources then Err(InvalidArgument)
    else
      var live := s.resources[(MEMORY_DOMAIN, r.memoryDomain)].value;
      if r.memoryDomainGeneration == 0 || r.memoryDomainGeneration == live then Ok(live) else Err(StaleGeneration)
  }

  function RegisteredRegions(regions: map<string, Region>, s: Surroundings, cap: nat, id: string, r: Region)
    : (t: (map<string, Region>, Option<ErrorCode>))
  {
    var checked := CheckRegion(id, r);
    var admitted := RegionAdmission(regions, cap, id, r);
    var domain := BoundDomain(s, r);
    if checked.Some? then (regions, checked)
    else if admitted.Some? then (regions, admitted)
    else if domain.Err? then (regions, Some(domain.code))
    else if r.coherenceDomain != "" && (COHERENCE_DOMAIN, r.coherenceDomain) !in s.resources then
      (regions, Some(InvalidArgument))
    else (regions[id := r.(memoryDomainGeneration := domain.value)], None)
  }

  function RetiredRegions(regions: map<string, Region>, id: string, generation: U64)
    : (t: (map<string, Region>, Option<ErrorCode>))
  {
    if id !in regions then (regions, Some(NotFound))
    else if regions[id].generation != generation then (regions, Some(StaleGeneration))
    else if regions[id].retired then (regions, Some(RetiredEntity))
    else (regions[id := regions[id].(retired := true)], None)
  }

  /** Lexicographic growth of (generation, retired). */
  ghost predicate Grown(a: Region, b: Region)
  {
    a.generation < b.generation || (a.generation == b.generation && (a.retired ==> b.retired))
  }

  ghost predicate AllGrown(a: map<string, Region>, b: map<string, Region>)
  {
    forall id :: id in a ==> id in b && Grown(a[id], b[id])
  }

  lemma RegisterGrows(regions: map<string, Region>, s: Surroundings, cap: nat, id: string, r: Region)
    ensures AllGrown(regions, RegisteredRegions(regions, s, cap, id, r).0)
  {}

  lemma RetireGrows(regions: map<string, Region>, id: string, generation: U64)
    ensures AllGrown(regions, RetiredRegions(regions, id, generation).0)
  {}

  /** Generation `g` of the region is retired or has been superseded. */
  ghost predicate Passed(regions: map<string, Region>, id: string, g: U64)
  {
    id in regions && (regions[id].generation > g || (regions[id].generation == g && regions[id].retired))
  }

  lemma GrowthKeepsPassed(a: map<string, Region>, b: map<string, Region>, id: string, g: U64)
    requires AllGrown(a, b) && Passed(a, id, g)
    ensures Passed(b, id, g)
  {}

  ghost predicate NamesRegionUpTo(o: Observation, id: string, g: U64)
  {
    o.subject.region == Some(id) && (o.subject.regionGeneration.Some? ==> o.subject.regionGeneration.value <= g)
  }

  lemma PassedNeverCounts(k: Knowledge, o: Observation, id: string, g: U64)
    requires Passed(k.regions, id, g) && NamesRegionUpTo(o, id, g)
    requires k.policy.currentRegion && o.origin.publisher in k.leases
    ensures !Counts(Judge(k, o))
  {}

  class RegionTable {
    const cap: nat
    var regions: map<string, Region>

    constructor (cap: nat)
      ensures regions == map[] && this.cap == cap
    {
      this.cap := cap;
      regions := map[];
    }

    method Register(s: Surroundings, id: string, record: Region) returns (e: Option<ErrorCode>)
      modifies this
      ensures (regions, e) == RegisteredRegions(old(regions), s, cap, id, record)
      ensures AllGrown(old(regions), regions)
    {
      hide ValidToken, PowerOfTwo;
      e := CheckRegion(id, record);
      if e.Some? { return; }
      if id !in regions {
        if |regions| >= cap { return Some(TooMany); }
      } else {
        if record.generation < regions[id].generation { return Some(StaleGeneration); }
        if regions[id].retired && record.generation == regions[id].generation { return Some(RetiredEntity); }
      }
      var r := record;
      if r.memoryDomain != "" {
        if (MEMORY_DOMAIN, r.memoryDomain) !in s.resources { return Some(InvalidArgument); }
        var live := s.resources[(MEMORY_DOMAIN, r.memoryDomain)].value;
        if r.memoryDomainGeneration == 0 {
          r := r.(memoryDomainGeneration := live);
        } else if live != r.memoryDomainGeneration {
          return Some(StaleGeneration);
        }
      }
      if r.coherenceDomain != "" && (COHERENCE_DOMAIN, r.coherenceDomain) !in s.resources {
        return Some(InvalidArgument);
      }
      regions := regions[id := r];
    }

    method Retire(id: string, generation: U64) returns (e: Option<ErrorCode>)
      modifies this
      ensures (regions, e) == RetiredRegions(old(regions), id, generation)
      ensures AllGrown(old(regions), regions)
      ensures e.None? ==> Passed(regions, id, generation)
    {
      if id !in regions { return Some(NotFound); }
      if regions[id].generation != generation { return Some(StaleGeneration); }
      if regions[id].retired { return Some(RetiredEntity); }
      regions := regions[id := regions[id].(retired := true)];
      e := None;
    }
  }
}
