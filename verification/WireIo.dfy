/**
 The observation codec as it runs (src/wire.cpp:22-159, 404-617,
 src/coordinator.cpp:311-335): every reader advances a shared cursor and every
 writer appends to a shared buffer, in agreement with the codec on values.
 */
module WireIo {
  import opened Machine
  import opened Text
  import opened Observation
  import opened Payload
  import opened Wire

  /** A read off the cursor delivers what the specification reads off the unread bytes. */
  ghost predicate Follows<T(!new)>(spec: Result<Read<T>>, got: Result<T>, rest: seq<Byte>)
  {
    if spec.Ok? then got == Ok(spec.value.value) && rest == spec.value.rest else got == Err(spec.code)
  }

  // ---- Readers ---------------------------------------------------------

  method ReadByte(r: PayloadReader) returns (x: Result<Byte>)
    requires r.Valid()
    modifies r
    ensures r.Valid() && Follows(TakeByte(old(r.Rest())), x, r.Rest())
  {
    if r.position == |r.data| {
      return Err(Truncated);
    }
    x := Ok(r.data[r.position]);
    assert r.Rest()[1..] == r.data[r.position + 1..];
    r.position := r.position + 1;
  }

  method ReadU64(r: PayloadReader) returns (x: Result<U64>)
    requires r.Valid()
    modifies r
    ensures r.Valid() && Follows(TakeU64(old(r.Rest())), x, r.Rest())
  {
    Widths();
    var n :- r.Integer(8);
    return Ok(n);
  }

  method ReadU32(r: PayloadReader) returns (x: Result<U32>)
    requires r.Valid()
    modifies r
    ensures r.Valid() && Follows(TakeU32(old(r.Rest())), x, r.Rest())
  {
    Widths();
    var n :- r.Integer(4);
    return Ok(n);
  }

  method ReadCode(r: PayloadReader, bound: nat) returns (x: Result<Byte>)
    requires r.Valid()
    modifies r
    ensures r.Valid() && Follows(TakeCode(old(r.Rest()), bound), x, r.Rest())
  {
    hide TakeByte;
    var b :- ReadByte(r);
    if b >= bound {
      return Err(InvalidArgument);
    }
    return Ok(b);
  }

  method ReadName(r: PayloadReader) returns (x: Result<string>)
    requires r.Valid()
    modifies r
    ensures r.Valid() && Follows(TakeName(old(r.Rest())), x, r.Rest())
  {
    hide TakeText, TokenChar;
    var text :- r.Text(MAX_NAME_LENGTH);
    if text != "" && !ValidToken(text) {
      return Err(InvalidArgument);
    }
    return Ok(text);
  }

  method ReadOptionalName(r: PayloadReader) returns (x: Result<Option<string>>)
    requires r.Valid()
    modifies r
    ensures r.Valid() && Follows(TakeOptionalName(old(r.Rest())), x, r.Rest())
  {
    hide TakeByte, TakeName;
    var present :- ReadByte(r);
    if present == 0 {
      return Ok(None);
    }
    var name :- ReadName(r);
    return Ok(Some(name));
  }

  method ReadResource(r: PayloadReader) returns (x: Result<ResourceRef>)
    requires r.Valid()
    modifies r
    ensures r.Valid() && Follows(TakeResource(old(r.Rest())), x, r.Rest())
  {
    hide TakeCode, TakeText, TakeU64, ValidToken;
    var kind :- ReadCode(r, 6);
    var id :- r.Text(MAX_NAME_LENGTH);
    var generation :- ReadU64(r);
    if !ValidToken(id) {
      return Err(InvalidArgument);
    }
    return Ok(ResourceRef(kind, id, generation));
  }

  method ReadOptionalResource(r: PayloadReader) returns (x: Result<Option<ResourceRef>>)
    requires r.Valid()
    modifies r
    ensures r.Valid() && Follows(TakeOptionalResource(old(r.Rest())), x, r.Rest())
  {
    hide TakeByte, TakeResource;
    var present :- ReadByte(r);
    if present == 0 {
      return Ok(None);
    }
    var resource :- ReadResource(r);
    return Ok(Some(resource));
  }

  method ReadNamed(r: PayloadReader) returns (x: Result<(Option<string>, Option<U64>)>)
    requires r.Valid()
    modifies r
    ensures r.Valid() && Follows(TakeNamed(old(r.Rest())), x, r.Rest())
  {
    hide TakeOptionalName, TakeU64;
    var name :- ReadOptionalName(r);
    var generation :- ReadU64(r);
    return Ok((name, if name.Some? then Some(generation) else None));
  }

  method ReadI64(r: PayloadReader) returns (x: Result<I64>)
    requires r.Valid()
    modifies r
    ensures r.Valid() && Follows(TakeI64(old(r.Rest())), x, r.Rest())
  {
    hide TakeU64, Unsigned;
    var n :- ReadU64(r);
    return Ok(Signed(n));
  }

  method ReadOrigin(r: PayloadReader) returns (x: Result<Origin>)
    requires r.Valid()
    modifies r
    ensures r.Valid() && Follows(TakeOrigin(old(r.Rest())), x, r.Rest())
  {
    hide TakeName, TakeU64, TakeI64, Signed;
    var publisher :- ReadName(r);
    var boot :- ReadU64(r);
    var coordinator :- ReadU64(r);
    var sampling :- ReadU64(r);
    var evidence :- ReadU64(r);
    var sequence :- ReadU64(r);
    var timestamp :- ReadI64(r);
    return Ok(Origin(publisher, boot, coordinator, sampling, evidence, sequence, timestamp));
  }

  method ReadSubject(r: PayloadReader) returns (x: Result<Subject>)
    requires r.Valid()
    modifies r
    ensures r.Valid() && Follows(TakeSubject(old(r.Rest())), x, r.Rest())
  {
    hide TakeOptionalName, TakeU64, TakeNamed, TakeOptionalResource;
    var source :- ReadOptionalResource(r);
    var target :- ReadOptionalResource(r);
    var region :- ReadNamed(r);
    var domain :- ReadNamed(r);
    var topology :- ReadU64(r);
    var workload :- ReadOptionalName(r);
    var process :- ReadOptionalName(r);
    return Ok(Subject(source, target, region.0, region.1, domain.0, domain.1, topology, workload, process));
  }

  method ReadCounts(e: Effect, r: PayloadReader) returns (x: Result<Effect>)
    requires r.Valid()
    modifies r
    ensures r.Valid() && Follows(TakeCounts(e, old(r.Rest())), x, r.Rest())
  {
    hide TakeU64, TakeI64;
    var generation :- ReadU64(r);
    var bytes :- ReadU64(r);
    var lines :- ReadU64(r);
    var pages :- ReadU64(r);
    var regions :- ReadU64(r);
    var duration :- ReadI64(r);
    return Ok(e.(counterGeneration := generation, bytes := bytes, lines := lines, pages := pages,
                 regionCount := regions, duration := duration));
  }

  method ReadEffect(r: PayloadReader) returns (x: Result<Effect>)
    requires r.Valid()
    modifies r
    ensures r.Valid() && Follows(TakeEffect(old(r.Rest())), x, r.Rest())
  {
    hide TakeCode, TakeByte, TakeU64, TakeCounts;
    var direction :- ReadCode(r, 6);
    var before :- ReadCode(r, 10);
    var after :- ReadCode(r, 10);
    var counted :- ReadByte(r);
    var delta :- ReadU64(r);
    var counterDelta := if counted != 0 then Some(delta) else None;
    x := ReadCounts(Effect(direction, before, after, counterDelta, 0, 0, 0, 0, 0, -1), r);
  }

  method ReadQuality(r: PayloadReader) returns (x: Result<Quality>)
    requires r.Valid()
    modifies r
    ensures r.Valid() && Follows(TakeQuality(old(r.Rest())), x, r.Rest())
  {
    hide TakeCode, TakeByte;
    var locality :- ReadCode(r, LOCALITY_COUNT);
    var declared :- ReadByte(r);
    var provenance :- ReadCode(r, 10);
    var precision :- ReadCode(r, 7);
    var granularity :- ReadCode(r, 7);
    return Ok(Quality(locality, declared != 0, provenance, precision, granularity));
  }

  method ReadMetadata(r: PayloadReader) returns (x: Result<seq<Entry>>)
    requires r.Valid()
    modifies r
    ensures r.Valid() && Follows(TakeMetadata(old(r.Rest())), x, r.Rest())
  {
    hide TakeText, Add, TakeU32;
    var count :- ReadU32(r);
    if count > MAX_METADATA_ENTRIES {
      return Err(TooMany);
    }
    ghost var start := r.Rest();
    var m: seq<Entry> := [];
    for i := 0 to count
      invariant r.Valid() && TakeEntries(count, [], start) == TakeEntries(count - i, m, r.Rest())
    {
      var key :- r.Text(MAX_METADATA_KEY);
      var value :- r.Text(MAX_METADATA_VALUE);
      m :- Add(m, (key, value));
    }
    return Ok(m);
  }

  method ReadObservation(r: PayloadReader) returns (x: Result<Observation>)
    requires r.Valid()
    modifies r
    ensures r.Valid() && Follows(TakeObservation(old(r.Rest())), x, r.Rest())
  {
    hide TakeU64, TakeCode, TakeOrigin, TakeSubject, TakeEffect, TakeQuality, TakeMetadata;
    var eventId :- ReadU64(r);
    var kind :- ReadCode(r, EVENT_TYPE_COUNT);
    var origin :- ReadOrigin(r);
    var subject :- ReadSubject(r);
    var effect :- ReadEffect(r);
    var quality :- ReadQuality(r);
    var metadata :- ReadMetadata(r);
    return Ok(Observation(eventId, kind, origin, subject, effect, quality, metadata));
  }

  ghost function Prepended(os: seq<Observation>, r: Result<Read<seq<Observation>>>): (t: Result<Read<seq<Observation>>>)
  {
    if r.Ok? then Ok(Read(os + r.value.value, r.value.rest)) else r
  }

  method ReadAll(r: PayloadReader, count: nat) returns (x: Result<seq<Observation>>)
    requires r.Valid()
    modifies r
    ensures r.Valid() && Follows(TakeAll(count, old(r.Rest())), x, r.Rest())
  {
    hide TakeObservation;
    ghost var spec := TakeAll(count, r.Rest());
    var os: seq<Observation> := [];
    assert spec.Ok? ==> [] + spec.value.value == spec.value.value;
    for i := 0 to count
      invariant r.Valid() && spec == Prepended(os, TakeAll(count - i, r.Rest()))
    {
      var o :- ReadObservation(r);
      ghost var more := TakeAll(count - i - 1, r.Rest());
      assert more.Ok? ==> os + ([o] + more.value.value) == (os + [o]) + more.value.value;
      os := os + [o];
    }
    assert os + [] == os;
    return Ok(os);
  }

  /** The body of a batch message: a count, that many observations, and nothing after them. */
  method ReadBatch(r: PayloadReader) returns (x: Result<seq<Observation>>)
    requires r.Valid()
    modifies r
    ensures r.Valid() && x == TakeBatch(old(r.Rest()))
  {
    hide TakeAll, TakeU32;
    var count :- ReadU32(r);
    if count == 0 || count > MAX_BATCH {
      return Err(TooMany);
    }
    var os :- ReadAll(r, count);
    if |r.data| - r.position > 0 {
      return Err(TrailingBytes);
    }
    assert r.Rest() == [];
    return Ok(os);
  }

  // ---- Writers ---------------------------------------------------------

  method WriteByte(w: PayloadWriter, b: Byte)
    modifies w
    ensures w.data == old(w.data) + [b]
  {
    w.data := w.data + [b];
  }

  /** A name goes out if and only if it is at most 64 bytes long. */
  predicate NameFits(name: Option<string>)
  {
    name.Some? ==> |name.value| <= MAX_NAME_LENGTH
  }

  predicate ResourceFits(r: Option<ResourceRef>)
  {
    r.Some? ==> |r.value.id| <= MAX_NAME_LENGTH
  }

  predicate SubjectFits(s: Subject)
  {
    && ResourceFits(s.source) && ResourceFits(s.target)
    && NameFits(s.region) && NameFits(s.domain) && NameFits(s.workload) && NameFits(s.process)
  }

  /** What a writer reports for a value that does or does not fit, and what it has appended if it does. */
  ghost predicate Wrote(fits: bool, e: Option<ErrorCode>, before: seq<Byte>, after: seq<Byte>, bytes: seq<Byte>)
  {
    if fits then e == None && after == before + bytes else e == Some(TooLarge)
  }

  method WriteName(w: PayloadWriter, name: string) returns (e: Option<ErrorCode>)
    requires IsBytes(name)
    modifies w
    ensures Wrote(|name| <= MAX_NAME_LENGTH, e, old(w.data), w.data, PutName(name))
  {
    e := w.Text(name, MAX_NAME_LENGTH);
  }

  method WriteOptionalName(w: PayloadWriter, name: Option<string>) returns (e: Option<ErrorCode>)
    requires TextualName(name)
    modifies w
    ensures Wrote(NameFits(name), e, old(w.data), w.data, PutOptionalName(name))
  {
    hide PutName, IsBytes;
    WriteByte(w, Flag(name.Some?));
    e := None;
    if name.Some? {
      e := WriteName(w, name.value);
      assert NameFits(name) ==> w.data == old(w.data) + ([Flag(true)] + PutName(name.value));
    }
  }

  method WriteOptionalResource(w: PayloadWriter, r: Option<ResourceRef>) returns (e: Option<ErrorCode>)
    requires TextualResource(r)
    modifies w
    ensures Wrote(ResourceFits(r), e, old(w.data), w.data, PutOptionalResource(r))
  {
    hide PutName, PutLE, IsBytes;
    WriteByte(w, Flag(r.Some?));
    if r.None? {
      return None;
    }
    WriteByte(w, r.value.kind);
    e := WriteName(w, r.value.id);
    if e.Some? {
      return;
    }
    w.Integer(r.value.generation, 8);
    assert w.data == old(w.data) + ([Flag(true)] + PutResource(r.value));
  }

  method WriteNamed(w: PayloadWriter, name: Option<string>, generation: Option<U64>) returns (e: Option<ErrorCode>)
    requires TextualName(name)
    modifies w
    ensures Wrote(NameFits(name), e, old(w.data), w.data, PutNamed(name, generation))
  {
    hide PutOptionalName, PutLE, IsBytes;
    e := WriteOptionalName(w, name);
    if e.Some? {
      return;
    }
    w.Integer(GenerationOr0(generation), 8);
    assert w.data == old(w.data) + PutNamed(name, generation);
  }

  method WriteOrigin(w: PayloadWriter, g: Origin) returns (e: Option<ErrorCode>)
    requires IsBytes(g.publisher)
    modifies w
    ensures Wrote(|g.publisher| <= MAX_NAME_LENGTH, e, old(w.data), w.data, PutOrigin(g))
  {
    hide PutName, PutLE, Unsigned, IsBytes;
    e := WriteName(w, g.publisher);
    if e.Some? {
      return;
    }
    w.Integer(g.boot, 8);
    w.Integer(g.coordinatorEpoch, 8);
    w.Integer(g.samplingEpoch, 8);
    w.Integer(g.evidenceGeneration, 8);
    w.Integer(g.sequence, 8);
    w.Integer(Unsigned(g.timestamp), 8);
    Appended(old(w.data), PutName(g.publisher), PutLE(g.boot, 8), PutLE(g.coordinatorEpoch, 8),
             PutLE(g.samplingEpoch, 8), PutLE(g.evidenceGeneration, 8), PutLE(g.sequence, 8),
             PutLE(Unsigned(g.timestamp), 8));
  }

  /** Appending parts one by one is appending their concatenation. */
  lemma Appended(data: seq<Byte>, a: seq<Byte>, b: seq<Byte>, c: seq<Byte>, d: seq<Byte>, e: seq<Byte>, f: seq<Byte>,
                 g: seq<Byte>)
    ensures data + a + b + c + d + e + f + g == data + (a + b + c + d + e + f + g)
  {}

  method WriteSubject(w: PayloadWriter, s: Subject) returns (e: Option<ErrorCode>)
    requires TextualSubject(s)
    modifies w
    ensures Wrote(SubjectFits(s), e, old(w.data), w.data, PutSubject(s))
  {
    hide PutOptionalName, PutOptionalResource, PutNamed, PutLE, IsBytes, NameFits, ResourceFits;
    e := WriteOptionalResource(w, s.source);
    if e.Some? { return; }
    e := WriteOptionalResource(w, s.target);
    if e.Some? { return; }
    e := WriteNamed(w, s.region, s.regionGeneration);
    if e.Some? { return; }
    e := WriteNamed(w, s.domain, s.domainGeneration);
    if e.Some? { return; }
    w.Integer(s.topologyGeneration, 8);
    e := WriteOptionalName(w, s.workload);
    if e.Some? { return; }
    e := WriteOptionalName(w, s.process);
    if e.Some? { return; }
    Appended(old(w.data), PutOptionalResource(s.source), PutOptionalResource(s.target),
             PutNamed(s.region, s.regionGeneration), PutNamed(s.domain, s.domainGeneration),
             PutLE(s.topologyGeneration, 8), PutOptionalName(s.workload), PutOptionalName(s.process));
  }

  method WriteCounts(w: PayloadWriter, e: Effect)
    modifies w
    ensures w.data == old(w.data) + PutCounts(e)
  {
    hide PutLE, Unsigned;
    w.Integer(e.counterGeneration, 8);
    w.Integer(e.bytes, 8);
    w.Integer(e.lines, 8);
    w.Integer(e.pages, 8);
    w.Integer(e.regionCount, 8);
    w.Integer(Unsigned(e.duration), 8);
    Appended(old(w.data), PutLE(e.counterGeneration, 8), PutLE(e.bytes, 8), PutLE(e.lines, 8), PutLE(e.pages, 8),
             PutLE(e.regionCount, 8), PutLE(Unsigned(e.duration), 8), []);
    assert PutCounts(e) + [] == PutCounts(e);
  }

  method WriteEffect(w: PayloadWriter, e: Effect)
    modifies w
    ensures w.data == old(w.data) + PutEffect(e)
  {
    hide PutLE, PutCounts;
    WriteByte(w, e.direction);
    WriteByte(w, e.before);
    WriteByte(w, e.after);
    WriteByte(w, Flag(e.counterDelta.Some?));
    w.Integer(GenerationOr0(e.counterDelta), 8);
    WriteCounts(w, e);
    Appended(old(w.data), [e.direction], [e.before], [e.after], [Flag(e.counterDelta.Some?)],
             PutLE(GenerationOr0(e.counterDelta), 8), PutCounts(e), []);
    assert PutEffect(e) + [] == PutEffect(e);
  }

  method WriteQuality(w: PayloadWriter, q: Quality)
    modifies w
    ensures w.data == old(w.data) + PutQuality(q)
  {
    WriteByte(w, q.locality);
    WriteByte(w, Flag(q.localityDeclared));
    WriteByte(w, q.provenance);
    WriteByte(w, q.precision);
    WriteByte(w, q.granularity);
    assert w.data == old(w.data) + PutQuality(q);
  }

  method WriteMetadata(w: PayloadWriter, m: seq<Entry>)
    requires ValidMetadata(m)
    modifies w
    ensures w.data == old(w.data) + PutMetadata(m)
  {
    hide PutText, PutLE, ValidMetadata, SortedEntries, IsBytes;
    SortedMetadata(m);
    var entries := SortedEntries(m);
    SameSize(m);
    ValidEntries(entries);
    w.Integer(|entries|, 4);
    ghost var data := w.data;
    assert entries[0..] == entries;
    for i := 0 to |entries|
      invariant w.data + PutEntries(entries[i..]) == data + PutEntries(entries)
    {
      assert entries[i..][1..] == entries[i + 1..] && ValidEntry(entries[i]);
      ghost var rest := PutEntries(entries[i + 1..]);
      ghost var before := w.data;
      var e := w.Text(entries[i].0, MAX_METADATA_KEY);
      e := w.Text(entries[i].1, MAX_METADATA_VALUE);
      assert before + (PutText(entries[i].0) + PutText(entries[i].1) + rest) == w.data + rest;
    }
    assert w.data + [] == w.data;
    assert old(w.data) + PutMetadata(m) == data + PutEntries(entries);
  }

  lemma ValidEntries(m: seq<Entry>)
    requires ValidMetadata(m)
    ensures forall i :: 0 <= i < |m| ==> ValidEntry(m[i])
  {}

  /** Every name of the observation is short enough to be written. */
  predicate Writable(o: Observation)
  {
    |o.origin.publisher| <= MAX_NAME_LENGTH && SubjectFits(o.subject)
  }

  /** A structurally valid observation is never refused. */
  lemma ValidIsWritable(o: Observation)
    requires StructurallyValid(o)
    ensures Writable(o) && Textual(o)
  {
    hide TokenChar, ValidEffect, ValidQuality, ValidMetadata, Mentions, IsBytes;
    ValidIsTextual(o);
  }

  method WriteObservation(w: PayloadWriter, o: Observation) returns (e: Option<ErrorCode>)
    requires Textual(o)
    modifies w
    ensures Wrote(Writable(o), e, old(w.data), w.data, PutObservation(o))
  {
    hide PutLE, PutOrigin, PutSubject, PutEffect, PutQuality, PutMetadata, SubjectFits,
         TextualSubject, ValidMetadata, IsBytes;
    w.Integer(o.eventId, 8);
    WriteByte(w, o.kind);
    e := WriteOrigin(w, o.origin);
    if e.Some? { return; }
    e := WriteSubject(w, o.subject);
    if e.Some? { return; }
    WriteEffect(w, o.effect);
    WriteQuality(w, o.quality);
    WriteMetadata(w, o.metadata);
    Appended(old(w.data), PutLE(o.eventId, 8), [o.kind], PutOrigin(o.origin), PutSubject(o.subject),
             PutEffect(o.effect), PutQuality(o.quality), PutMetadata(o.metadata));
  }
}
