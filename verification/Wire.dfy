/**
 The observation codec (src/wire.cpp:22-159, 404-617) and batches of observations
 (src/coordinator.cpp:311-335).
 */
module Wire {
  import opened Machine
  import opened Text
  import opened Sorting
  import opened Observation
  import opened Payload

  // ---- Names and resources ---------------------------------------------

  lemma TokenIsBytes(s: string)
    requires ValidToken(s)
    ensures IsBytes(s)
  {
    forall i | 0 <= i < |s|
      ensures s[i] as int < 256
    {
      assert TokenChar(s[i]);
      assert forall c :: c in "._-:@#+" ==> c as int < 256;
    }
  }

  function PutName(name: string): (bytes: seq<Byte>)
    requires IsBytes(name)
  {
    PutText(name)
  }

  /** An identity; an absent one is the empty text. */
  function TakeName(rest: seq<Byte>): (r: Result<Read<string>>)
  {
    var t :- TakeText(rest, MAX_NAME_LENGTH);
    if t.value == "" || ValidToken(t.value) then Ok(t) else Err(InvalidArgument)
  }

  lemma TakePutName(name: string, rest: seq<Byte>)
    requires ValidToken(name) && IsBytes(name)
    ensures TakeName(PutName(name) + rest) == Ok(Read(name, rest))
  {
    hide PutText, TakeText, TokenChar, IsBytes;
    TakePutText(name, MAX_NAME_LENGTH, rest);
  }

  predicate TextualName(name: Option<string>)
  {
    name.Some? ==> IsBytes(name.value)
  }

  function PutOptionalName(name: Option<string>): (bytes: seq<Byte>)
    requires TextualName(name)
  {
    if name.None? then [Flag(false)] else [Flag(true)] + PutName(name.value)
  }

  function TakeOptionalName(rest: seq<Byte>): (r: Result<Read<Option<string>>>)
  {
    var present :- TakeByte(rest);
    if present.value == 0 then Ok(Read(None, present.rest)) else
    var name :- TakeName(present.rest);
    Ok(Read(Some(name.value), name.rest))
  }

  lemma TakePutOptionalName(name: Option<string>, rest: seq<Byte>)
    requires TextualName(name) && (name.Some? ==> ValidToken(name.value))
    ensures TakeOptionalName(PutOptionalName(name) + rest) == Ok(Read(name, rest))
  {
    hide PutName, TakeName, TakeByte, ValidToken, IsBytes;
    if name.None? {
      TakePutByte(Flag(false), rest);
    } else {
      assert PutOptionalName(name) + rest == [Flag(true)] + (PutName(name.value) + rest);
      TakePutByte(Flag(true), PutName(name.value) + rest);
      TakePutName(name.value, rest);
    }
  }

  function PutResource(r: ResourceRef): (bytes: seq<Byte>)
    requires IsBytes(r.id)
  {
    [r.kind] + PutName(r.id) + PutLE(r.generation, 8)
  }

  function TakeResource(rest: seq<Byte>): (r: Result<Read<ResourceRef>>)
  {
    var kind :- TakeCode(rest, 6);
    var id :- TakeText(kind.rest, MAX_NAME_LENGTH);
    var generation :- TakeU64(id.rest);
    if !ValidToken(id.value) then Err(InvalidArgument)
    else Ok(Read(ResourceRef(kind.value, id.value, generation.value), generation.rest))
  }

  lemma TakePutResource(r: ResourceRef, rest: seq<Byte>)
    requires ValidToken(r.id) && IsBytes(r.id) && r.kind < 6
    ensures TakeResource(PutResource(r) + rest) == Ok(Read(r, rest))
  {
    hide PutText, TakeText, TakeByte, TakeU64, PutLE, ValidToken, IsBytes;
    var tail := PutLE(r.generation, 8) + rest;
    assert PutResource(r) + rest == [r.kind] + (PutName(r.id) + tail);
    TakePutByte(r.kind, PutName(r.id) + tail);
    TokenFits(r.id);
    TakePutText(r.id, MAX_NAME_LENGTH, tail);
    TakePutU64(r.generation, rest);
  }

  lemma TokenFits(s: string)
    requires ValidToken(s)
    ensures |s| <= MAX_NAME_LENGTH
  {}

  predicate TextualResource(r: Option<ResourceRef>)
  {
    r.Some? ==> IsBytes(r.value.id)
  }

  function PutOptionalResource(r: Option<ResourceRef>): (bytes: seq<Byte>)
    requires TextualResource(r)
  {
    if r.None? then [Flag(false)] else [Flag(true)] + PutResource(r.value)
  }

  function TakeOptionalResource(rest: seq<Byte>): (r: Result<Read<Option<ResourceRef>>>)
  {
    var present :- TakeByte(rest);
    if present.value == 0 then Ok(Read(None, present.rest)) else
    var resource :- TakeResource(present.rest);
    Ok(Read(Some(resource.value), resource.rest))
  }

  lemma TakePutOptionalResource(r: Option<ResourceRef>, rest: seq<Byte>)
    requires TextualResource(r) && (r.Some? ==> ValidResource(r.value))
    ensures TakeOptionalResource(PutOptionalResource(r) + rest) == Ok(Read(r, rest))
  {
    hide PutResource, TakeResource, TakeByte, ValidToken, IsBytes;
    if r.None? {
      TakePutByte(Flag(false), rest);
    } else {
      assert PutOptionalResource(r) + rest == [Flag(true)] + (PutResource(r.value) + rest);
      TakePutByte(Flag(true), PutResource(r.value) + rest);
      TakePutResource(r.value, rest);
    }
  }

  // ---- Groups of fields ------------------------------------------------

  function PutOrigin(g: Origin): (bytes: seq<Byte>)
    requires IsBytes(g.publisher)
  {
    PutName(g.publisher) + PutLE(g.boot, 8) + PutLE(g.coordinatorEpoch, 8) + PutLE(g.samplingEpoch, 8)
    + PutLE(g.evidenceGeneration, 8) + PutLE(g.sequence, 8) + PutLE(Unsigned(g.timestamp), 8)
  }

  function TakeOrigin(rest: seq<Byte>): (r: Result<Read<Origin>>)
  {
    var publisher :- TakeName(rest);
    var boot :- TakeU64(publisher.rest);
    var coordinator :- TakeU64(boot.rest);
    var sampling :- TakeU64(coordinator.rest);
    var evidence :- TakeU64(sampling.rest);
    var sequence :- TakeU64(evidence.rest);
    var timestamp :- TakeI64(sequence.rest);
    Ok(Read(Origin(publisher.value, boot.value, coordinator.value, sampling.value, evidence.value,
                   sequence.value, timestamp.value), timestamp.rest))
  }

  lemma TakePutOrigin(g: Origin, rest: seq<Byte>)
    requires ValidOrigin(g) && IsBytes(g.publisher)
    ensures TakeOrigin(PutOrigin(g) + rest) == Ok(Read(g, rest))
  {
    hide PutName, TakeName, TakeU64, TakeI64, PutLE, ValidToken, Unsigned, IsBytes;
    var t6 := PutLE(Unsigned(g.timestamp), 8) + rest;
    var t5 := PutLE(g.sequence, 8) + t6;
    var t4 := PutLE(g.evidenceGeneration, 8) + t5;
    var t3 := PutLE(g.samplingEpoch, 8) + t4;
    var t2 := PutLE(g.coordinatorEpoch, 8) + t3;
    var t1 := PutLE(g.boot, 8) + t2;
    assert PutOrigin(g) + rest == PutName(g.publisher) + t1;
    TakePutName(g.publisher, t1);
    TakePutU64(g.boot, t2);
    TakePutU64(g.coordinatorEpoch, t3);
    TakePutU64(g.samplingEpoch, t4);
    TakePutU64(g.evidenceGeneration, t5);
    TakePutU64(g.sequence, t6);
    TakePutI64(g.timestamp, rest);
  }

  function GenerationOr0(g: Option<U64>): (n: U64)
  {
    if g.Some? then g.value else 0
  }

  /** A name and its generation; the generation is written even when the name is absent. */
  function PutNamed(name: Option<string>, generation: Option<U64>): (bytes: seq<Byte>)
    requires TextualName(name)
  {
    PutOptionalName(name) + PutLE(GenerationOr0(generation), 8)
  }

  /** Names are C++ strings, that is, bytes. */
  predicate TextualSubject(s: Subject)
  {
    && TextualResource(s.source) && TextualResource(s.target)
    && TextualName(s.region) && TextualName(s.domain) && TextualName(s.workload) && TextualName(s.process)
  }

  function PutSubject(s: Subject): (bytes: seq<Byte>)
    requires TextualSubject(s)
  {
    PutOptionalResource(s.source) + PutOptionalResource(s.target)
    + PutNamed(s.region, s.regionGeneration) + PutNamed(s.domain, s.domainGeneration)
    + PutLE(s.topologyGeneration, 8) + PutOptionalName(s.workload) + PutOptionalName(s.process)
  }

  /** A generation is present exactly when the name it belongs to is. */
  function TakeNamed(rest: seq<Byte>): (r: Result<Read<(Option<string>, Option<U64>)>>)
  {
    var name :- TakeOptionalName(rest);
    var generation :- TakeU64(name.rest);
    Ok(Read((name.value, if name.value.Some? then Some(generation.value) else None), generation.rest))
  }

  lemma TakePutNamed(name: Option<string>, generation: Option<U64>, rest: seq<Byte>)
    requires TextualName(name) && ValidNamed(name, generation)
    ensures TakeNamed(PutNamed(name, generation) + rest) == Ok(Read((name, generation), rest))
  {
    hide PutOptionalName, TakeOptionalName, TakeU64, PutLE, ValidToken, IsBytes;
    var t := PutLE(GenerationOr0(generation), 8) + rest;
    assert PutNamed(name, generation) + rest == PutOptionalName(name) + t;
    TakePutOptionalName(name, t);
    TakePutU64(GenerationOr0(generation), rest);
  }

  function TakeSubject(rest: seq<Byte>): (r: Result<Read<Subject>>)
  {
    var source :- TakeOptionalResource(rest);
    var target :- TakeOptionalResource(source.rest);
    var region :- TakeNamed(target.rest);
    var domain :- TakeNamed(region.rest);
    var topology :- TakeU64(domain.rest);
    var workload :- TakeOptionalName(topology.rest);
    var process :- TakeOptionalName(workload.rest);
    Ok(Read(Subject(source.value, target.value, region.value.0, region.value.1, domain.value.0, domain.value.1,
                    topology.value, workload.value, process.value), process.rest))
  }

  lemma Regroup(a: seq<Byte>, b: seq<Byte>, c: seq<Byte>, d: seq<Byte>, e: seq<Byte>, f: seq<Byte>, g: seq<Byte>,
                rest: seq<Byte>)
    ensures a + b + c + d + e + f + g + rest == a + (b + (c + (d + (e + (f + (g + rest))))))
  {}

  lemma TakePutSubject(s: Subject, rest: seq<Byte>)
    requires ValidSubject(s) && TextualSubject(s)
    ensures TakeSubject(PutSubject(s) + rest) == Ok(Read(s, rest))
  {
    hide PutOptionalName, TakeOptionalName, PutOptionalResource, TakeOptionalResource, PutNamed, TakeNamed,
         TakeU64, PutLE, ValidToken, IsBytes;
    var t6 := PutOptionalName(s.process) + rest;
    var t5 := PutOptionalName(s.workload) + t6;
    var t4 := PutLE(s.topologyGeneration, 8) + t5;
    var t3 := PutNamed(s.domain, s.domainGeneration) + t4;
    var t2 := PutNamed(s.region, s.regionGeneration) + t3;
    var t1 := PutOptionalResource(s.target) + t2;
    Regroup(PutOptionalResource(s.source), PutOptionalResource(s.target), PutNamed(s.region, s.regionGeneration),
            PutNamed(s.domain, s.domainGeneration), PutLE(s.topologyGeneration, 8), PutOptionalName(s.workload),
            PutOptionalName(s.process), rest);
    TakePutOptionalResource(s.source, t1);
    TakePutOptionalResource(s.target, t2);
    TakePutNamed(s.region, s.regionGeneration, t3);
    TakePutNamed(s.domain, s.domainGeneration, t4);
    TakePutU64(s.topologyGeneration, t5);
    TakePutOptionalName(s.workload, t6);
    TakePutOptionalName(s.process, rest);
  }

  // ---- Effects and quality ---------------------------------------------

  function PutCounts(e: Effect): (bytes: seq<Byte>)
  {
    PutLE(e.counterGeneration, 8) + PutLE(e.bytes, 8) + PutLE(e.lines, 8) + PutLE(e.pages, 8)
    + PutLE(e.regionCount, 8) + PutLE(Unsigned(e.duration), 8)
  }

  function PutEffect(e: Effect): (bytes: seq<Byte>)
  {
    [e.direction] + [e.before] + [e.after] + [Flag(e.counterDelta.Some?)]
    + PutLE(GenerationOr0(e.counterDelta), 8) + PutCounts(e)
  }

  /** The counts, read into a record that already has the other fields. */
  function TakeCounts(e: Effect, rest: seq<Byte>): (r: Result<Read<Effect>>)
  {
    var generation :- TakeU64(rest);
    var bytes :- TakeU64(generation.rest);
    var lines :- TakeU64(bytes.rest);
    var pages :- TakeU64(lines.rest);
    var regions :- TakeU64(pages.rest);
    var duration :- TakeI64(regions.rest);
    Ok(Read(e.(counterGeneration := generation.value, bytes := bytes.value, lines := lines.value,
               pages := pages.value, regionCount := regions.value, duration := duration.value), duration.rest))
  }

  function TakeEffect(rest: seq<Byte>): (r: Result<Read<Effect>>)
  {
    var direction :- TakeCode(rest, 6);
    var before :- TakeCode(direction.rest, 10);
    var after :- TakeCode(before.rest, 10);
    var counted :- TakeByte(after.rest);
    var delta :- TakeU64(counted.rest);
    var counterDelta := if counted.value != 0 then Some(delta.value) else None;
    TakeCounts(Effect(direction.value, before.value, after.value, counterDelta, 0, 0, 0, 0, 0, -1), delta.rest)
  }

  lemma TakePutCounts(e: Effect, d: Effect, rest: seq<Byte>)
    requires d.direction == e.direction && d.before == e.before && d.after == e.after && d.counterDelta == e.counterDelta
    ensures TakeCounts(d, PutCounts(e) + rest) == Ok(Read(e, rest))
  {
    hide TakeU64, TakeI64, PutLE, Unsigned;
    var t5 := PutLE(Unsigned(e.duration), 8) + rest;
    var t4 := PutLE(e.regionCount, 8) + t5;
    var t3 := PutLE(e.pages, 8) + t4;
    var t2 := PutLE(e.lines, 8) + t3;
    var t1 := PutLE(e.bytes, 8) + t2;
    assert PutCounts(e) + rest == PutLE(e.counterGeneration, 8) + t1;
    TakePutU64(e.counterGeneration, t1);
    TakePutU64(e.bytes, t2);
    TakePutU64(e.lines, t3);
    TakePutU64(e.pages, t4);
    TakePutU64(e.regionCount, t5);
    TakePutI64(e.duration, rest);
  }

  lemma TakePutEffect(e: Effect, rest: seq<Byte>)
    requires ValidEffect(e)
    ensures TakeEffect(PutEffect(e) + rest) == Ok(Read(e, rest))
  {
    hide TakeU64, PutLE, TakeByte, PutCounts, TakeCounts;
    var t5 := PutCounts(e) + rest;
    var t4 := PutLE(GenerationOr0(e.counterDelta), 8) + t5;
    var t3 := [Flag(e.counterDelta.Some?)] + t4;
    var t2 := [e.after] + t3;
    var t1 := [e.before] + t2;
    assert PutEffect(e) + rest == [e.direction] + t1;
    TakePutByte(e.direction, t1);
    TakePutByte(e.before, t2);
    TakePutByte(e.after, t3);
    TakePutByte(Flag(e.counterDelta.Some?), t4);
    TakePutU64(GenerationOr0(e.counterDelta), t5);
    TakePutCounts(e, Effect(e.direction, e.before, e.after, e.counterDelta, 0, 0, 0, 0, 0, -1), rest);
  }

  function PutQuality(q: Quality): (bytes: seq<Byte>)
  {
    [q.locality] + [Flag(q.localityDeclared)] + [q.provenance] + [q.precision] + [q.granularity]
  }

  function TakeQuality(rest: seq<Byte>): (r: Result<Read<Quality>>)
  {
    var locality :- TakeCode(rest, LOCALITY_COUNT);
    var declared :- TakeByte(locality.rest);
    var provenance :- TakeCode(declared.rest, 10);
    var precision :- TakeCode(provenance.rest, 7);
    var granularity :- TakeCode(precision.rest, 7);
    Ok(Read(Quality(locality.value, declared.value != 0, provenance.value, precision.value, granularity.value),
            granularity.rest))
  }

  /** The reader's locality bound is strict where structural validation is not. */
  lemma TakePutQuality(q: Quality, rest: seq<Byte>)
    requires ValidQuality(q)
    ensures q.locality < LOCALITY_COUNT ==> TakeQuality(PutQuality(q) + rest) == Ok(Read(q, rest))
    ensures q.locality == LOCALITY_COUNT ==> TakeQuality(PutQuality(q) + rest) == Err(InvalidArgument)
  {
    hide TakeByte;
    var t4 := [q.granularity] + rest;
    var t3 := [q.precision] + t4;
    var t2 := [q.provenance] + t3;
    var t1 := [Flag(q.localityDeclared)] + t2;
    assert PutQuality(q) + rest == [q.locality] + t1;
    TakePutByte(q.locality, t1);
    TakePutByte(Flag(q.localityDeclared), t2);
    TakePutByte(q.provenance, t3);
    TakePutByte(q.precision, t4);
    TakePutByte(q.granularity, rest);
  }

  // ---- Metadata --------------------------------------------------------

  type Entry = (string, string)

  function KeyLe(): (le: (Entry, Entry) -> bool)
  {
    (a: Entry, b: Entry) => !Less(b.0, a.0)
  }

  function SortedEntries(m: seq<Entry>): (r: seq<Entry>)
  {
    Sort(m, KeyLe())
  }

  lemma KeyLeTotal()
    ensures TotalPreorder(KeyLe())
  {
    hide Less;
    var le := KeyLe();
    forall x: Entry, y: Entry
      ensures le(x, y) || le(y, x)
    {
      if Less(x.0, y.0) && Less(y.0, x.0) {
        LessTransitive(x.0, y.0, x.0);
        LessIrreflexive(x.0);
      }
    }
    forall x: Entry, y: Entry, z: Entry | le(x, y) && le(y, z)
      ensures le(x, z)
    {
      LessTotal(y.0, x.0);
      if Less(z.0, x.0) {
        if x.0 == y.0 {
        } else {
          LessTransitive(z.0, x.0, y.0);
        }
      }
    }
  }

  ghost predicate DistinctKeys(m: seq<Entry>)
  {
    forall i, j :: 0 <= i < j < |m| ==> m[i].0 != m[j].0
  }

  lemma {:induction false} InsertKeepsKeys(x: Entry, m: seq<Entry>)
    requires DistinctKeys(m) && forall i :: 0 <= i < |m| ==> m[i].0 != x.0
    ensures var r := Insert(x, m, KeyLe());
            DistinctKeys(r) && forall i :: 0 <= i < |r| ==> r[i] == x || r[i] in m
  {
    hide Less;
    if m != [] && !KeyLe()(x, m[0]) {
      InsertKeepsKeys(x, m[1..]);
      var tail := Insert(x, m[1..], KeyLe());
      forall i | 0 <= i < |tail|
        ensures tail[i].0 != m[0].0
      {
        if tail[i] in m[1..] {
          var k :| 1 <= k < |m| && m[k] == tail[i];
        }
      }
    }
  }

  lemma {:induction false} SortKeepsValid(m: seq<Entry>)
    requires DistinctKeys(m)
    ensures var r := SortedEntries(m); DistinctKeys(r) && forall i :: 0 <= i < |r| ==> r[i] in m
  {
    hide Insert;
    if m != [] {
      SortKeepsValid(m[1..]);
      var tail := SortedEntries(m[1..]);
      forall i | 0 <= i < |tail|
        ensures tail[i].0 != m[0].0
      {
        var k :| 1 <= k < |m| && m[k] == tail[i];
      }
      InsertKeepsKeys(m[0], tail);
    }
  }

  /** Sorted metadata has the same entries, ordered by key, and stays within every bound. */
  lemma SortedMetadata(m: seq<Entry>)
    requires ValidMetadata(m)
    ensures ValidMetadata(SortedEntries(m))
    ensures multiset(SortedEntries(m)) == multiset(m) && SortedBy(SortedEntries(m), KeyLe())
  {
    hide Sort, SortedBy, ValidEntry;
    SortKeepsValid(m);
    SortElements(m, KeyLe());
    KeyLeTotal();
    SortSorts(m, KeyLe());
  }

  function PutEntries(m: seq<Entry>): (bytes: seq<Byte>)
    requires forall i :: 0 <= i < |m| ==> ValidEntry(m[i])
  {
    if m == [] then [] else
    assert ValidEntry(m[0]);
    PutText(m[0].0) + PutText(m[0].1) + PutEntries(m[1..])
  }

  function PutMetadata(m: seq<Entry>): (bytes: seq<Byte>)
    requires ValidMetadata(m)
  {
    SortedMetadata(m);
    PutLE(|m|, 4) + PutEntries(SortedEntries(m))
  }

  /** Adding an entry to bounded metadata. */
  function Add(m: seq<Entry>, e: Entry): (r: Result<seq<Entry>>)
  {
    if e.0 == "" then Err(InvalidArgument)
    else if |e.0| > MAX_METADATA_KEY || |e.1| > MAX_METADATA_VALUE then Err(TooLarge)
    else if |m| >= MAX_METADATA_ENTRIES then Err(TooMany)
    else if Mentions(m, e.0) then Err(AlreadyExists)
    else Ok(m + [e])
  }

  function TakeEntries(count: nat, m: seq<Entry>, rest: seq<Byte>): (r: Result<Read<seq<Entry>>>)
  {
    if count == 0 then Ok(Read(m, rest)) else
    var key :- TakeText(rest, MAX_METADATA_KEY);
    var value :- TakeText(key.rest, MAX_METADATA_VALUE);
    var more :- Add(m, (key.value, value.value));
    TakeEntries(count - 1, more, value.rest)
  }

  function TakeMetadata(rest: seq<Byte>): (r: Result<Read<seq<Entry>>>)
  {
    var count :- TakeU32(rest);
    if count.value > MAX_METADATA_ENTRIES then Err(TooMany) else TakeEntries(count.value, [], count.rest)
  }

  lemma AddValid(m: seq<Entry>, e: Entry, more: seq<Entry>)
    requires ValidMetadata(m + [e] + more)
    ensures ValidEntry(e) && Add(m, e) == Ok(m + [e])
  {
    hide IsBytes;
    var all := m + [e] + more;
    assert all[|m|] == e;
    forall i | 0 <= i < |m|
      ensures m[i].0 != e.0
    {
      assert all[i] == m[i];
    }
  }

  lemma {:induction false} TakePutEntries(m: seq<Entry>, done: seq<Entry>, rest: seq<Byte>)
    requires ValidMetadata(done + m) && forall i :: 0 <= i < |m| ==> ValidEntry(m[i])
    ensures TakeEntries(|m|, done, PutEntries(m) + rest) == Ok(Read(done + m, rest))
    decreases |m|
  {
    hide PutText, TakeText, Add, ValidMetadata, IsBytes;
    if m == [] {
      assert [] + rest == rest && done + m == done;
    } else {
      assert done + m == done + [m[0]] + m[1..];
      AddValid(done, m[0], m[1..]);
      var t1 := PutEntries(m[1..]) + rest;
      assert PutEntries(m) + rest == PutText(m[0].0) + (PutText(m[0].1) + t1);
      TakePutText(m[0].0, MAX_METADATA_KEY, PutText(m[0].1) + t1);
      TakePutText(m[0].1, MAX_METADATA_VALUE, t1);
      TakePutEntries(m[1..], done + [m[0]], rest);
    }
  }

  lemma TakePutMetadata(m: seq<Entry>, rest: seq<Byte>)
    requires ValidMetadata(m)
    ensures TakeMetadata(PutMetadata(m) + rest) == Ok(Read(SortedEntries(m), rest))
  {
    hide PutEntries, TakeEntries, TakeU32, PutLE, SortedEntries;
    SortedMetadata(m);
    var sorted := SortedEntries(m);
    SameSize(m);
    assert PutMetadata(m) + rest == PutLE(|m|, 4) + (PutEntries(sorted) + rest);
    TakePutU32(|m|, PutEntries(sorted) + rest);
    assert [] + sorted == sorted;
    TakePutEntries(sorted, [], rest);
  }

  lemma SameSize(m: seq<Entry>)
    ensures |SortedEntries(m)| == |m|
  {}

  // ---- Observations ----------------------------------------------------

  predicate Textual(o: Observation)
  {
    IsBytes(o.origin.publisher) && TextualSubject(o.subject) && ValidMetadata(o.metadata)
  }

  lemma ValidIsTextual(o: Observation)
    requires StructurallyValid(o)
    ensures Textual(o)
  {
    hide ValidToken, ValidEffect, ValidQuality, ValidMetadata, Mentions, IsBytes;
    var j := o.subject;
    TokenIsBytes(o.origin.publisher);
    if j.source.Some? { TokenIsBytes(j.source.value.id); }
    if j.target.Some? { TokenIsBytes(j.target.value.id); }
    if j.region.Some? { TokenIsBytes(j.region.value); }
    if j.domain.Some? { TokenIsBytes(j.domain.value); }
    if j.workload.Some? { TokenIsBytes(j.workload.value); }
    if j.process.Some? { TokenIsBytes(j.process.value); }
  }

  /** Any observation whose names are bytes can be written. */
  function PutObservation(o: Observation): (bytes: seq<Byte>)
    requires Textual(o)
  {
    PutLE(o.eventId, 8) + [o.kind] + PutOrigin(o.origin) + PutSubject(o.subject) + PutEffect(o.effect)
    + PutQuality(o.quality) + PutMetadata(o.metadata)
  }

  function TakeObservation(rest: seq<Byte>): (r: Result<Read<Observation>>)
  {
    var eventId :- TakeU64(rest);
    var kind :- TakeCode(eventId.rest, EVENT_TYPE_COUNT);
    var origin :- TakeOrigin(kind.rest);
    var subject :- TakeSubject(origin.rest);
    var effect :- TakeEffect(subject.rest);
    var quality :- TakeQuality(effect.rest);
    var metadata :- TakeMetadata(quality.rest);
    Ok(Read(Observation(eventId.value, kind.value, origin.value, subject.value, effect.value, quality.value,
                        metadata.value), metadata.rest))
  }

  /** Metadata travels sorted by key. */
  function Canonical(o: Observation): (c: Observation)
  {
    o.(metadata := SortedEntries(o.metadata))
  }

  /** Every structurally valid observation comes back field by field, its metadata sorted, and what
      follows it is left unread; the one exception is the locality code that validation lets through
      and the reader refuses. */
  lemma ObservationRoundTrip(o: Observation, rest: seq<Byte>)
    requires StructurallyValid(o)
    ensures Textual(o)
    ensures o.quality.locality < LOCALITY_COUNT ==>
              TakeObservation(PutObservation(o) + rest) == Ok(Read(Canonical(o), rest))
    ensures o.quality.locality == LOCALITY_COUNT ==>
              TakeObservation(PutObservation(o) + rest) == Err(InvalidArgument)
  {
    hide TakeU64, PutLE, TakeByte, PutOrigin, TakeOrigin, PutSubject, TakeSubject, PutEffect, TakeEffect,
         PutQuality, TakeQuality, PutMetadata, TakeMetadata, SortedEntries,
         ValidOrigin, ValidSubject, ValidEffect, ValidQuality, ValidMetadata, Mentions, IsBytes;
    ValidIsTextual(o);
    var t6 := PutMetadata(o.metadata) + rest;
    var t5 := PutQuality(o.quality) + t6;
    var t4 := PutEffect(o.effect) + t5;
    var t3 := PutSubject(o.subject) + t4;
    var t2 := PutOrigin(o.origin) + t3;
    var t1 := [o.kind] + t2;
    Regroup(PutLE(o.eventId, 8), [o.kind], PutOrigin(o.origin), PutSubject(o.subject), PutEffect(o.effect),
            PutQuality(o.quality), PutMetadata(o.metadata), rest);
    TakePutU64(o.eventId, t1);
    TakePutByte(o.kind, t2);
    TakePutOrigin(o.origin, t3);
    TakePutSubject(o.subject, t4);
    TakePutEffect(o.effect, t5);
    TakePutQuality(o.quality, t6);
    TakePutMetadata(o.metadata, rest);
  }

  /** There is such an observation: valid, declared at the first code past the last locality. */
  lemma UnreadableExists(rest: seq<Byte>) returns (o: Observation)
    ensures StructurallyValid(o) && Textual(o) && TakeObservation(PutObservation(o) + rest) == Err(InvalidArgument)
  {
    hide TakeObservation, PutObservation;
    o := Observation(1, REMOTE_READ, Origin("p", 1, 1, 0, 0, 1, 0),
                     Subject(None, None, None, None, None, None, 1, None, None),
                     Effect(READ, 0, 0, None, 0, 0, 0, 0, 0, -1), Quality(LOCALITY_COUNT, true, 0, 0, 0), []);
    assert TokenChar("p"[0]) && ValidToken("p");
    ObservationRoundTrip(o, rest);
  }

  // ---- Batches ---------------------------------------------------------

  const MAX_BATCH: nat := 1024

  ghost predicate AllValid(os: seq<Observation>)
  {
    forall i :: 0 <= i < |os| ==> StructurallyValid(os[i]) && Textual(os[i])
  }

  ghost predicate AllReadable(os: seq<Observation>)
  {
    forall i :: 0 <= i < |os| ==> os[i].quality.locality < LOCALITY_COUNT
  }

  ghost function PutAll(os: seq<Observation>): (bytes: seq<Byte>)
    requires AllValid(os)
  {
    if os == [] then [] else PutObservation(os[0]) + PutAll(os[1..])
  }

  ghost function PutBatch(os: seq<Observation>): (bytes: seq<Byte>)
    requires AllValid(os)
  {
    PutLE(|os|, 4) + PutAll(os)
  }

  function TakeAll(count: nat, rest: seq<Byte>): (r: Result<Read<seq<Observation>>>)
  {
    if count == 0 then Ok(Read([], rest)) else
    var o :- TakeObservation(rest);
    var more :- TakeAll(count - 1, o.rest);
    Ok(Read([o.value] + more.value, more.rest))
  }

  function TakeBatch(payload: seq<Byte>): (r: Result<seq<Observation>>)
  {
    var count :- TakeU32(payload);
    if count.value == 0 || count.value > MAX_BATCH then Err(TooMany) else
    var os :- TakeAll(count.value, count.rest);
    if os.rest != [] then Err(TrailingBytes) else Ok(os.value)
  }

  ghost function CanonicalAll(os: seq<Observation>): (cs: seq<Observation>)
    ensures |cs| == |os| && forall i :: 0 <= i < |os| ==> cs[i] == Canonical(os[i])
  {
    if os == [] then [] else [Canonical(os[0])] + CanonicalAll(os[1..])
  }

  lemma {:induction false} TakePutAll(os: seq<Observation>, rest: seq<Byte>)
    requires AllValid(os)
    ensures AllReadable(os) ==> TakeAll(|os|, PutAll(os) + rest) == Ok(Read(CanonicalAll(os), rest))
    ensures !AllReadable(os) ==> TakeAll(|os|, PutAll(os) + rest) == Err(InvalidArgument)
  {
    hide StructurallyValid, Textual, PutObservation, TakeObservation, Canonical;
    if os == [] {
      assert [] + rest == rest;
    } else {
      assert StructurallyValid(os[0]);
      var t := PutAll(os[1..]) + rest;
      assert PutAll(os) + rest == PutObservation(os[0]) + t;
      LocalityBound(os[0]);
      ObservationRoundTrip(os[0], t);
      TakePutAll(os[1..], rest);
      assert AllReadable(os) <==> os[0].quality.locality < LOCALITY_COUNT && AllReadable(os[1..]) by {
        assert os == [os[0]] + os[1..];
      }
    }
  }

  lemma LocalityBound(o: Observation)
    requires StructurallyValid(o)
    ensures o.quality.locality <= LOCALITY_COUNT
  {}

  /** A batch is recovered exactly, in order, when every locality in it is one the reader knows. */
  lemma BatchRoundTrip(os: seq<Observation>)
    requires AllValid(os) && |os| < 0x1_0000_0000
    ensures |os| == 0 || |os| > MAX_BATCH ==> TakeBatch(PutBatch(os)) == Err(TooMany)
    ensures 1 <= |os| <= MAX_BATCH ==>
              TakeBatch(PutBatch(os)) == if AllReadable(os) then Ok(CanonicalAll(os)) else Err(InvalidArgument)
  {
    hide PutAll, TakeAll, AllValid, AllReadable, PutLE, TakeU32, CanonicalAll;
    TakePutU32(|os|, PutAll(os));
    TakePutAll(os, []);
    assert PutAll(os) + [] == PutAll(os);
  }
}
