/**
 The observation record of include/coherence/observation.hpp. Enumerations are
 their 8-bit wire codes, because the runtime validates codes, not constructors.
 */
module Observation {
  import opened Machine
  import opened Text

  type I64 = x: int | -0x8000_0000_0000_0000 <= x < 0x8000_0000_0000_0000

  // Event classes.
  const REMOTE_READ: Byte := 0
  const REMOTE_WRITE: Byte := 1
  const INVALIDATION: Byte := 2
  const OWNERSHIP_TRANSFER: Byte := 3
  const OWNERSHIP_UPGRADE: Byte := 4
  const OWNERSHIP_DOWNGRADE: Byte := 5
  const SHARED_READ: Byte := 6
  const WRITE_EXCLUSIVE_TRANSITION: Byte := 7
  const CACHE_TO_CACHE_TRANSFER: Byte := 8
  const MEMORY_DOMAIN_TRANSFER: Byte := 9
  const SNOOP_REQUEST: Byte := 10
  const SNOOP_RESPONSE: Byte := 11
  const DIRECTORY_LOOKUP: Byte := 12
  const DIRECTORY_MISS: Byte := 13
  const COHERENCE_RETRY: Byte := 14
  const COHERENCE_CONFLICT: Byte := 15
  const WRITEBACK: Byte := 16
  const REMOTE_ATOMIC: Byte := 17
  const REGION_INVALIDATION: Byte := 21
  const UNKNOWN_EVENT: Byte := 22
  const EVENT_TYPE_COUNT: Byte := 23

  const EVENT_NAMES: seq<string> := [
    "REMOTE_READ", "REMOTE_WRITE", "INVALIDATION", "OWNERSHIP_TRANSFER", "OWNERSHIP_UPGRADE",
    "OWNERSHIP_DOWNGRADE", "SHARED_READ", "WRITE_EXCLUSIVE_TRANSITION", "CACHE_TO_CACHE_TRANSFER",
    "MEMORY_DOMAIN_TRANSFER", "SNOOP_REQUEST", "SNOOP_RESPONSE", "DIRECTORY_LOOKUP", "DIRECTORY_MISS",
    "COHERENCE_RETRY", "COHERENCE_CONFLICT", "WRITEBACK", "REMOTE_ATOMIC", "CONSISTENCY_BARRIER",
    "FLUSH", "FENCE", "REGION_INVALIDATION", "UNKNOWN_COHERENCE_EVENT"]

  function EventName(kind: Byte): (name: string)
  {
    if kind < EVENT_TYPE_COUNT then EVENT_NAMES[kind] else EVENT_NAMES[UNKNOWN_EVENT]
  }

  predicate IsOwnershipEvent(kind: Byte)
  {
    kind in {OWNERSHIP_TRANSFER, OWNERSHIP_UPGRADE, OWNERSHIP_DOWNGRADE, WRITE_EXCLUSIVE_TRANSITION,
             CACHE_TO_CACHE_TRANSFER, MEMORY_DOMAIN_TRANSFER}
  }

  // Access directions.
  const READ: Byte := 1
  const WRITE: Byte := 2
  const READ_MODIFY_WRITE: Byte := 3
  const ATOMIC: Byte := 4

  // Localities.
  const LOCALITY_UNKNOWN: Byte := 0
  const REMOTE_NUMA: Byte := 3
  const REMOTE_ACCELERATOR: Byte := 7
  const CXL_ATTACHED: Byte := 8
  const POOLED_MEMORY: Byte := 9
  const REMOTE_NODE: Byte := 10
  const LOCALITY_COUNT: Byte := 11

  const LOCALITY_NAMES: seq<string> := [
    "UNKNOWN", "LOCAL_PROCESSOR", "LOCAL_NUMA", "REMOTE_NUMA", "LOCAL_ACCELERATOR", "PEER_ACCELERATOR",
    "SAME_ROOT_COMPLEX", "REMOTE_ACCELERATOR", "CXL_ATTACHED", "POOLED_MEMORY", "REMOTE_NODE"]

  function LocalityName(locality: Byte): (name: string)
  {
    if locality < LOCALITY_COUNT then LOCALITY_NAMES[locality] else "UNKNOWN"
  }

  predicate IsRemoteLocality(locality: Byte)
  {
    locality in {REMOTE_NUMA, REMOTE_ACCELERATOR, REMOTE_NODE, CXL_ATTACHED, POOLED_MEMORY}
  }

  predicate IsCxlClassLocality(locality: Byte)
  {
    locality == CXL_ATTACHED || locality == POOLED_MEMORY
  }

  // Provenance.
  const SYNTHETIC_BACKEND: Byte := 7

  datatype Reality = Real | Synthetic | Mixed

  predicate IsRealProvenance(provenance: Byte)
  {
    1 <= provenance <= 6
  }

  function RealityOf(provenance: Byte): (r: Reality)
  {
    if provenance == SYNTHETIC_BACKEND then Synthetic
    else if IsRealProvenance(provenance) then Real
    else Mixed
  }

  // Precision and granularity.
  const EXACT_COUNTER_DELTA: Byte := 5
  const EXACT_EVENT: Byte := 6
  const PRECISION_COUNT: nat := 7

  function PrecisionRank(precision: Byte): (rank: nat)
    ensures rank < PRECISION_COUNT
  {
    if precision < 7 then precision else 0
  }

  const CACHE_LINE: Byte := 1

  /** Larger is finer; an unknown granularity is the coarsest. */
  function GranularityRank(granularity: Byte): (rank: nat)
  {
    if 1 <= granularity <= 6 then 7 - granularity else 0
  }

  // Resource kinds.
  const NODE: Byte := 1
  const PROCESSOR: Byte := 2
  const MEMORY_DOMAIN: Byte := 4
  const COHERENCE_DOMAIN: Byte := 5

  datatype ResourceRef = ResourceRef(kind: Byte, id: string, generation: U64)

  datatype Origin = Origin(
    publisher: string, boot: U64, coordinatorEpoch: U64, samplingEpoch: U64,
    evidenceGeneration: U64, sequence: U64, timestamp: I64)

  datatype Subject = Subject(
    source: Option<ResourceRef>, target: Option<ResourceRef>,
    region: Option<string>, regionGeneration: Option<U64>,
    domain: Option<string>, domainGeneration: Option<U64>,
    topologyGeneration: U64, workload: Option<string>, process: Option<string>)

  datatype Effect = Effect(
    direction: Byte, before: Byte, after: Byte,
    counterDelta: Option<U64>, counterGeneration: U64,
    bytes: U64, lines: U64, pages: U64, regionCount: U64, duration: I64)

  datatype Quality = Quality(
    locality: Byte, localityDeclared: bool, provenance: Byte, precision: Byte, granularity: Byte)

  datatype Observation = Observation(
    eventId: U64, kind: Byte, origin: Origin, subject: Subject, effect: Effect, quality: Quality,
    metadata: seq<(string, string)>)

  // ---- Structural validation -------------------------------------------

  const MAX_BYTE_COUNT: U64 := 0x1_0000_0000_0000
  const MAX_LINE_COUNT: U64 := 0x100_0000_0000
  const MAX_REGION_COUNT: U64 := 100000
  const MAX_TIMESTAMP: U64 := 0x4000_0000_0000_0000
  const MAX_DURATION: U64 := 0x400_0000_0000
  const MAX_METADATA_ENTRIES: nat := 8
  const MAX_METADATA_KEY: nat := 48
  const MAX_METADATA_VALUE: nat := 160

  predicate ValidResource(r: ResourceRef)
  {
    && ValidToken(r.id)
    && (if r.kind == NODE then r.generation == 0
        else PROCESSOR <= r.kind <= COHERENCE_DOMAIN && r.generation != 0)
  }

  predicate ValidNamed(name: Option<string>, generation: Option<U64>)
  {
    if name.Some? then ValidToken(name.value) && generation.Some? && generation.value != 0 else generation.None?
  }

  predicate ValidOrigin(g: Origin)
  {
    ValidToken(g.publisher) && g.boot != 0 && g.sequence != 0 && 0 <= g.timestamp <= MAX_TIMESTAMP
  }

  predicate ValidSubject(s: Subject)
  {
    && (s.source.Some? ==> ValidResource(s.source.value))
    && (s.target.Some? ==> ValidResource(s.target.value))
    && (s.source.Some? && s.target.Some? ==>
          !(s.source.value.kind == s.target.value.kind && s.source.value.id == s.target.value.id))
    && ValidNamed(s.region, s.regionGeneration)
    && ValidNamed(s.domain, s.domainGeneration)
    && (s.workload.Some? ==> ValidToken(s.workload.value))
    && (s.process.Some? ==> ValidToken(s.process.value))
  }

  predicate ValidEffect(e: Effect)
  {
    && e.direction <= 5 && e.before <= 9 && e.after <= 9
    && e.bytes <= MAX_BYTE_COUNT && e.lines <= MAX_LINE_COUNT && e.pages <= MAX_LINE_COUNT
    && e.regionCount <= MAX_REGION_COUNT && -1 <= e.duration <= MAX_DURATION
    && (e.counterDelta.Some? <==> e.counterGeneration != 0)
  }

  /** The locality bound is one too generous: the first code past the last class is let through. */
  predicate ValidQuality(q: Quality)
  {
    && q.locality <= LOCALITY_COUNT && q.provenance <= 9 && q.precision <= 6 && q.granularity <= 6
    && (PrecisionRank(q.precision) >= PrecisionRank(EXACT_COUNTER_DELTA) ==> q.granularity != 0)
    && (!q.localityDeclared ==> q.locality == LOCALITY_UNKNOWN)
  }

  /** C++ strings hold bytes. */
  predicate IsBytes(s: string)
  {
    forall i :: 0 <= i < |s| ==> s[i] as int < 256
  }

  predicate ValidEntry(e: (string, string))
  {
    1 <= |e.0| <= MAX_METADATA_KEY && |e.1| <= MAX_METADATA_VALUE && IsBytes(e.0) && IsBytes(e.1)
  }

  /** What BoundedMetadata guarantees of its entries. */
  predicate ValidMetadata(m: seq<(string, string)>)
  {
    && |m| <= MAX_METADATA_ENTRIES
    && (forall i :: 0 <= i < |m| ==> ValidEntry(m[i]))
    && (forall i, j :: 0 <= i < j < |m| ==> m[i].0 != m[j].0)
  }

  predicate Mentions(m: seq<(string, string)>, key: string)
  {
    exists i :: 0 <= i < |m| && m[i].0 == key
  }

  predicate StructurallyValid(o: Observation)
  {
    && o.eventId != 0 && o.kind < EVENT_TYPE_COUNT
    && ValidOrigin(o.origin) && ValidSubject(o.subject) && ValidEffect(o.effect) && ValidQuality(o.quality)
    && ValidMetadata(o.metadata)
    && (o.effect.counterDelta.Some? ==> o.quality.precision != EXACT_EVENT)
    && (o.kind == UNKNOWN_EVENT ==> Mentions(o.metadata, "backend.event"))
  }
}
