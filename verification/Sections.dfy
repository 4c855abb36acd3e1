/**
 The sections of a state payload and the checks that follow them
 (src/persistence.cpp:110-122, 954-1045). What the reader of a section makes of its
 body, given the sections staged before it, is a parameter: an error, or how many
 history records it adds.
 */
module Sections {
  import opened Machine
  import opened Crc
  import opened Framing
  import opened StateFile

  datatype Section = Section(kind: U32, body: seq<Byte>)

  /** A section whose stated length is representable. */
  predicate Sized(s: Section)
  {
    |s.body| + 4 <= U64_MAX
  }

  predicate KnownSection(kind: U32)
  {
    1 <= kind <= 13
  }

  function SectionBytes(s: Section): (bytes: seq<Byte>)
    requires Sized(s)
    ensures |bytes| == SECTION_HEADER + |s.body| + 4
  {
    PutLE(s.kind, 4) + PutLE(0, 4) + PutLE(|s.body| + 4, 8) + s.body + PutLE(Crc32(s.body), 4)
  }

  method BuildSection(s: Section) returns (out: array<Byte>)
    requires Sized(s)
    ensures fresh(out) && out[..] == SectionBytes(s)
  {
    hide PutLE, Crc32;
    var n := |s.body|;
    out := new Byte[SECTION_HEADER + n + 4];
    PutAt(out, 0, s.kind, 4);
    PutAt(out, 4, 0, 4);
    PutAt(out, 8, n + 4, 8);
    assert out[..SECTION_HEADER] == PutLE(s.kind, 4) + PutLE(0, 4) + PutLE(n + 4, 8);
    CopyAt(out, SECTION_HEADER, s.body);
    assert out[..SECTION_HEADER + n] == PutLE(s.kind, 4) + PutLE(0, 4) + PutLE(n + 4, 8) + s.body;
    var crc := ComputeCrc32(s.body);
    PutAt(out, SECTION_HEADER + n, crc, 4);
  }

  function Joined(ss: seq<Section>): (bytes: seq<Byte>)
    requires forall i :: 0 <= i < |ss| ==> Sized(ss[i])
  {
    if ss == [] then [] else SectionBytes(ss[0]) + Joined(ss[1..])
  }

  // ---- Reading ---------------------------------------------------------

  /** The section at the front of the unread payload. */
  function ReadSection(rest: seq<Byte>): (r: Result<Section>)
    ensures r.Ok? ==> Sized(r.value) && SECTION_HEADER + |r.value.body| + 4 <= |rest|
  {
    if |rest| < SECTION_HEADER then Err(Truncated)
    else if U32At(rest, 4) != 0 || U64At(rest, 8) < 4 then Err(CorruptState)
    else if |rest| - SECTION_HEADER < U64At(rest, 8) then Err(Truncated)
    else
      var n := U64At(rest, 8) - 4;
      var body := rest[SECTION_HEADER..SECTION_HEADER + n];
      if Crc32(body) != U32At(rest, SECTION_HEADER + n) then Err(IntegrityFailure)
      else Ok(Section(U32At(rest, 0), body))
  }

  function Unread(rest: seq<Byte>, s: Section): (tail: seq<Byte>)
    requires SECTION_HEADER + |s.body| + 4 <= |rest|
  {
    rest[SECTION_HEADER + |s.body| + 4..]
  }

  ghost predicate Has(done: seq<Section>, kind: U32)
  {
    exists i :: 0 <= i < |done| && done[i].kind == kind
  }

  /** Sections read so far and the history records they add. */
  datatype Staged = Staged(sections: seq<Section>, records: nat)

  type Stage = (seq<Section>, Section) -> Result<nat>

  ghost function Admitted(t: Staged, s: Section, stage: Stage): (r: Result<Staged>)
  {
    if Has(t.sections, s.kind) || !KnownSection(s.kind) then Err(CorruptState) else
    var n :- stage(t.sections, s);
    Ok(Staged(t.sections + [s], t.records + n))
  }

  ghost function ParseSections(rest: seq<Byte>, t: Staged, stage: Stage): (r: Result<Staged>)
    decreases |rest|
  {
    if rest == [] then Ok(t) else
    var s :- ReadSection(rest);
    var more :- Admitted(t, s, stage);
    ParseSections(Unread(rest, s), more, stage)
  }

  const NOTHING := Staged([], 0)

  /** The section loop with its moving offset and its set of seen types. */
  method LoadSections(payload: seq<Byte>, stage: Stage) returns (r: Result<Staged>)
    ensures r == ParseSections(payload, NOTHING, stage)
  {
    hide ReadSection;
    var offset, staged, records, seen: set<U32> := 0, [], 0, {};
    assert payload[0..] == payload;
    while offset < |payload|
      invariant offset <= |payload|
      invariant forall kind :: kind in seen <==> Has(staged, kind)
      invariant ParseSections(payload, NOTHING, stage) == ParseSections(payload[offset..], Staged(staged, records), stage)
    {
      var rest := payload[offset..];
      var s := ReadSection(rest);
      if s.Err? {
        return Err(s.code);
      }
      ReadFits(rest);
      if s.value.kind in seen || !KnownSection(s.value.kind) {
        return Err(CorruptState);
      }
      var n := stage(staged, s.value);
      if n.Err? {
        return Err(n.code);
      }
      offset := offset + SECTION_HEADER + |s.value.body| + 4;
      assert Unread(rest, s.value) == payload[offset..];
      HasSnoc(staged, s.value);
      staged, records, seen := staged + [s.value], records + n.value, seen + {s.value.kind};
    }
    return Ok(Staged(staged, records));
  }

  lemma HasSnoc(done: seq<Section>, s: Section)
    ensures forall kind :: Has(done + [s], kind) <==> Has(done, kind) || kind == s.kind
  {
    var all := done + [s];
    forall kind
      ensures Has(all, kind) <==> Has(done, kind) || kind == s.kind
    {
      assert all[|done|] == s && forall i :: 0 <= i < |done| ==> all[i] == done[i];
    }
  }

  lemma ReadFits(rest: seq<Byte>)
    requires ReadSection(rest).Ok?
    ensures SECTION_HEADER + |ReadSection(rest).value.body| + 4 <= |rest|
  {}

  // ---- Writing and reading undo each other -----------------------------

  lemma SectionRoundTrip(s: Section, rest: seq<Byte>)
    requires Sized(s)
    ensures ReadSection(SectionBytes(s) + rest) == Ok(s)
    ensures Unread(SectionBytes(s) + rest, s) == rest
  {
    hide PutLE, GetLE, Pow256, Crc32;
    var n, data := |s.body|, SectionBytes(s) + rest;
    Widths();
    GetPutExact(s.kind, 4);
    GetPutExact(0, 4);
    GetPutExact(n + 4, 8);
    GetPutExact(Crc32(s.body), 4);
    assert data[0..4] == PutLE(s.kind, 4);
    assert data[4..8] == PutLE(0, 4);
    assert data[8..16] == PutLE(n + 4, 8);
    assert data[16..16 + n] == s.body;
    assert data[16 + n..16 + n + 4] == PutLE(Crc32(s.body), 4);
  }

  /** A section that is read is the encoding of what it is read as. */
  lemma SectionCanonical(rest: seq<Byte>)
    requires ReadSection(rest).Ok?
    ensures var s := ReadSection(rest).value; SectionBytes(s) + Unread(rest, s) == rest
  {
    hide PutLE, GetLE, Pow256, Crc32;
    var s := ReadSection(rest).value;
    var n := |s.body|;
    PutGetLE(rest[0..4]);
    PutGetLE(rest[4..8]);
    PutGetLE(rest[8..16]);
    PutGetLE(rest[16 + n..16 + n + 4]);
    assert rest == rest[0..4] + rest[4..8] + rest[8..16] + rest[16..16 + n] + rest[16 + n..16 + n + 4] + rest[16 + n + 4..];
  }

  /** The sections can follow those already staged: known types, each once, all accepted in turn. */
  ghost predicate Loadable(done: seq<Section>, ss: seq<Section>, stage: Stage)
  {
    forall i :: 0 <= i < |ss| ==>
      && Sized(ss[i]) && KnownSection(ss[i].kind) && !Has(done + ss[..i], ss[i].kind)
      && stage(done + ss[..i], ss[i]).Ok?
  }

  /** The history records a list of sections adds. */
  ghost function Records(done: seq<Section>, ss: seq<Section>, stage: Stage): (n: nat)
    decreases |ss|
  {
    if ss == [] then 0 else
    var r := stage(done, ss[0]);
    (if r.Ok? then r.value else 0) + Records(done + [ss[0]], ss[1..], stage)
  }

  lemma LoadableCons(done: seq<Section>, ss: seq<Section>, stage: Stage)
    requires ss != []
    ensures Loadable(done, ss, stage) <==>
            && Sized(ss[0]) && KnownSection(ss[0].kind) && !Has(done, ss[0].kind) && stage(done, ss[0]).Ok?
            && Loadable(done + [ss[0]], ss[1..], stage)
  {
    hide Has;
    var tail := ss[1..];
    assert done + ss[..0] == done;
    forall i | 0 < i < |ss|
      ensures done + ss[..i] == done + [ss[0]] + tail[..i - 1] && tail[i - 1] == ss[i]
    {}
    if Loadable(done, ss, stage) {
      forall i | 0 <= i < |tail|
        ensures Sized(tail[i]) && KnownSection(tail[i].kind) && !Has(done + [ss[0]] + tail[..i], tail[i].kind)
        ensures stage(done + [ss[0]] + tail[..i], tail[i]).Ok?
      {
        assert ss[i + 1] == tail[i];
      }
    }
  }

  ghost predicate AllSized(ss: seq<Section>)
  {
    forall i :: 0 <= i < |ss| ==> Sized(ss[i])
  }

  /** The loop recovers a list of sections, and counts its records, exactly when the list is loadable. */
  lemma {:induction false} SectionsRoundTrip(ss: seq<Section>, t: Staged, stage: Stage)
    requires AllSized(ss)
    ensures var r := ParseSections(Joined(ss), t, stage);
            if Loadable(t.sections, ss, stage)
            then r == Ok(Staged(t.sections + ss, t.records + Records(t.sections, ss, stage)))
            else r.Err?
    decreases |ss|
  {
    hide SectionBytes, ReadSection, Loadable, Has, KnownSection;
    if ss == [] {
      NothingLoadable(t.sections, ss, stage);
      assert t.sections + ss == t.sections;
    } else {
      LoadableCons(t.sections, ss, stage);
      SectionRoundTrip(ss[0], Joined(ss[1..]));
      NotEmpty(ss[0], Joined(ss[1..]));
      var more := Admitted(t, ss[0], stage);
      if more.Ok? {
        SectionsRoundTrip(ss[1..], more.value, stage);
        assert t.sections + [ss[0]] + ss[1..] == t.sections + ss;
      }
    }
  }

  lemma NothingLoadable(done: seq<Section>, ss: seq<Section>, stage: Stage)
    requires ss == []
    ensures Loadable(done, ss, stage)
  {}

  lemma NotEmpty(s: Section, rest: seq<Byte>)
    requires Sized(s)
    ensures SectionBytes(s) + rest != []
  {
    assert |SectionBytes(s) + rest| > 0;
  }

  /** Every payload the loop accepts is the concatenation of the sections it returns. */
  lemma {:induction false} SectionsCanonical(rest: seq<Byte>, t: Staged, stage: Stage) returns (ss: seq<Section>)
    requires ParseSections(rest, t, stage).Ok?
    ensures AllSized(ss) && Loadable(t.sections, ss, stage) && Joined(ss) == rest
    ensures ParseSections(rest, t, stage).value.sections == t.sections + ss
    decreases |rest|
  {
    hide SectionBytes, ReadSection, Loadable, Has, KnownSection;
    if rest == [] {
      ss := [];
      NothingLoadable(t.sections, ss, stage);
    } else {
      ReadFits(rest);
      var s := ReadSection(rest).value;
      var more := SectionsCanonical(Unread(rest, s), Admitted(t, s, stage).value, stage);
      ss := [s] + more;
      assert ss[1..] == more;
      LoadableCons(t.sections, ss, stage);
      SectionCanonical(rest);
    }
  }

  // ---- Whole files -----------------------------------------------------

  const META: U32 := 1

  /** Envelope, sections, then the checks over all of them; `finish` stands for referential integrity. */
  ghost function LoadFile(data: seq<Byte>, max: nat, stage: Stage, finish: seq<Section> -> Option<ErrorCode>)
    : (r: Result<(Image, seq<Section>)>)
  {
    var i :- ParseState(data, max);
    var t :- ParseSections(i.payload, NOTHING, stage);
    if !Has(t.sections, META) || i.records != t.records then Err(CorruptState)
    else if finish(t.sections).Some? then Err(finish(t.sections).value)
    else Ok((i, t.sections))
  }

  /** A file written from sections loads to the same epochs and sections exactly when the sections are
      loadable, one of them is the meta section, the record count is theirs, they fit, and they refer to
      each other properly. */
  lemma SavedFileLoadsIff(i: Image, ss: seq<Section>, max: nat, stage: Stage, finish: seq<Section> -> Option<ErrorCode>)
    requires AllSized(ss) && i.payload == Joined(ss) && |Joined(ss)| <= U64_MAX
    ensures var r := LoadFile(StateBytes(i), max, stage, finish);
            if && |Joined(ss)| <= max && Loadable([], ss, stage) && Has(ss, META)
               && i.records == Records([], ss, stage) && finish(ss).None?
            then r == Ok((i, ss)) else r.Err?
  {
    hide ParseState, ParseSections, StateBytes, Joined, Loadable, Has, Records;
    StateRoundTrip(i, max);
    SectionsRoundTrip(ss, NOTHING, stage);
    assert [] + ss == ss;
  }
}
