/**
 The publisher watermark section (src/persistence.cpp:678-738, 1275-1291): the
 bytes behind the table that a save writes and a load restores.
 */
module Watermarks {
  import opened Machine
  import opened Retention
  import opened Text
  import opened Payload
  import opened Wire
  import opened Authority
  import opened Sequence
  import opened Replay

  const MAX_WATERMARKS: nat := 256

  function ReasonCode(r: FenceReason): (b: Byte)
    ensures b <= 5
  {
    match r
    case NotFenced => 0
    case ConnectionEnded => 1
    case Administrative => 2
    case LivenessDeadline => 3
    case CoordinatorRestart => 4
    case SupersededByNewBoot => 5
  }

  function ReasonOf(b: Byte): (r: FenceReason)
    requires b <= 5
    ensures ReasonCode(r) == b
  {
    match b
    case 0 => NotFenced
    case 1 => ConnectionEnded
    case 2 => Administrative
    case 3 => LivenessDeadline
    case 4 => CoordinatorRestart
    case _ => SupersededByNewBoot
  }

  /** What every entry of a live table satisfies. */
  predicate Keyed(key: string, m: Watermark)
  {
    ValidToken(m.publisher) && m.boot != 0 && key == BootKey(m.publisher, m.boot)
  }

  ghost predicate AllKeyed(t: map<string, Watermark>)
  {
    forall key :: key in t ==> Keyed(key, t[key])
  }

  function KeyFor(m: Watermark): (key: string)
  {
    BootKey(m.publisher, m.boot)
  }

  // ---- One entry -------------------------------------------------------

  function PutEntry(m: Watermark): (bytes: seq<Byte>)
    requires ValidToken(m.publisher)
  {
    PutName(m.publisher) + PutLE(m.boot, 8) + PutLE(m.high, 8)
    + ([Flag(m.has)] + [Flag(m.fenced)] + [ReasonCode(m.reason)])
    + PutLE(m.incarnations, 8) + PutLE(m.lastSeen, 8)
  }

  /** The three flag bytes: whether there is a watermark, whether it is fenced, and why. */
  function TakeFlags(rest: seq<Byte>): (r: Result<Read<(Byte, Byte, Byte)>>)
  {
    var has :- TakeByte(rest);
    var fenced :- TakeByte(has.rest);
    var reason :- TakeByte(fenced.rest);
    Ok(Read((has.value, fenced.value, reason.value), reason.rest))
  }

  function TakeEntry(rest: seq<Byte>): (r: Result<Read<Watermark>>)
    ensures r.Ok? ==> ValidToken(r.value.value.publisher) && r.value.value.boot != 0
  {
    var publisher :- TakeText(rest, MAX_NAME_LENGTH);
    var boot :- TakeU64(publisher.rest);
    var high :- TakeU64(boot.rest);
    var flags :- TakeFlags(high.rest);
    var incarnations :- TakeU64(flags.rest);
    var lastSeen :- TakeU64(incarnations.rest);
    if flags.value.2 > 5 || !ValidToken(publisher.value) || boot.value == 0 then Err(CorruptState)
    else Ok(Read(Watermark(publisher.value, boot.value, high.value, flags.value.0 != 0, flags.value.1 != 0,
                           ReasonOf(flags.value.2), incarnations.value, lastSeen.value), lastSeen.rest))
  }

  lemma TakePutFlags(a: Byte, b: Byte, c: Byte, rest: seq<Byte>)
    ensures TakeFlags([a] + [b] + [c] + rest) == Ok(Read((a, b, c), rest))
  {
    hide TakeByte;
    assert [a] + [b] + [c] + rest == [a] + ([b] + ([c] + rest));
    TakePutByte(a, [b] + ([c] + rest));
    TakePutByte(b, [c] + rest);
    TakePutByte(c, rest);
  }

  lemma ReasonRoundTrip(r: FenceReason)
    ensures ReasonOf(ReasonCode(r)) == r
  {}

  lemma TakePutEntry(m: Watermark, rest: seq<Byte>)
    requires ValidToken(m.publisher) && m.boot != 0
    ensures TakeEntry(PutEntry(m) + rest) == Ok(Read(m, rest))
  {
    hide PutText, TakeText, TakeU64, TakeFlags, PutLE, ValidToken, ReasonCode, ReasonOf;
    var flags := [Flag(m.has)] + [Flag(m.fenced)] + [ReasonCode(m.reason)];
    var t5 := PutLE(m.lastSeen, 8) + rest;
    var t4 := PutLE(m.incarnations, 8) + t5;
    var t3 := flags + t4;
    var t2 := PutLE(m.high, 8) + t3;
    var t1 := PutLE(m.boot, 8) + t2;
    TokenIsBytes(m.publisher);
    assert PutEntry(m) + rest == PutName(m.publisher) + t1;
    TokenFits(m.publisher);
    TakePutText(m.publisher, MAX_NAME_LENGTH, t1);
    TakePutU64(m.boot, t2);
    TakePutU64(m.high, t3);
    TakePutFlags(Flag(m.has), Flag(m.fenced), ReasonCode(m.reason), t4);
    TakePutU64(m.incarnations, t5);
    TakePutU64(m.lastSeen, rest);
    ReasonRoundTrip(m.reason);
  }

  // ---- The table -------------------------------------------------------

  function PutEntries(ms: seq<Watermark>): (bytes: seq<Byte>)
    requires forall i :: 0 <= i < |ms| ==> ValidToken(ms[i].publisher)
  {
    if ms == [] then [] else PutEntry(ms[0]) + PutEntries(ms[1..])
  }

  function PutTable(ms: seq<Watermark>): (bytes: seq<Byte>)
    requires |ms| <= U64_MAX && forall i :: 0 <= i < |ms| ==> ValidToken(ms[i].publisher)
  {
    PutLE(|ms|, 8) + PutEntries(ms)
  }

  function TakeEntries(count: nat, t: map<string, Watermark>, rest: seq<Byte>): (r: Result<Read<map<string, Watermark>>>)
  {
    if count == 0 then Ok(Read(t, rest)) else
    var m :- TakeEntry(rest);
    if KeyFor(m.value) in t then Err(CorruptState)
    else TakeEntries(count - 1, t[KeyFor(m.value) := m.value], m.rest)
  }

  function TakeTable(body: seq<Byte>): (r: Result<map<string, Watermark>>)
  {
    var count :- TakeU64(body);
    if count.value > MAX_WATERMARKS then Err(CorruptState) else
    var t :- TakeEntries(count.value, map[], count.rest);
    if t.rest != [] then Err(TrailingBytes) else Ok(t.value)
  }

  /** The entries of a table, each once, in some order. */
  ghost predicate Lists(ms: seq<Watermark>, t: map<string, Watermark>)
  {
    && (forall i :: 0 <= i < |ms| ==> KeyFor(ms[i]) in t && t[KeyFor(ms[i])] == ms[i])
    && (forall i, j :: 0 <= i < j < |ms| ==> KeyFor(ms[i]) != KeyFor(ms[j]))
    && (forall key :: key in t ==> exists i :: 0 <= i < |ms| && KeyFor(ms[i]) == key)
  }

  ghost predicate Valid(ms: seq<Watermark>)
  {
    forall i :: 0 <= i < |ms| ==> ValidToken(ms[i].publisher) && ms[i].boot != 0
  }

  /** Reading the rest of a listing on top of what has been read. */
  lemma {:induction false} TakePutEntries(ms: seq<Watermark>, done: map<string, Watermark>, t: map<string, Watermark>, rest: seq<Byte>)
    requires Valid(ms)
    requires forall i :: 0 <= i < |ms| ==> KeyFor(ms[i]) !in done && KeyFor(ms[i]) in t && t[KeyFor(ms[i])] == ms[i]
    requires forall i, j :: 0 <= i < j < |ms| ==> KeyFor(ms[i]) != KeyFor(ms[j])
    requires forall key :: key in done ==> key in t && t[key] == done[key]
    requires forall key :: key in t ==> key in done || exists i :: 0 <= i < |ms| && KeyFor(ms[i]) == key
    ensures TakeEntries(|ms|, done, PutEntries(ms) + rest) == Ok(Read(t, rest))
    decreases |ms|
  {
    hide PutEntry, TakeEntry, ValidToken, KeyFor;
    if ms == [] {
      assert done == t;
      assert [] + rest == rest;
    } else {
      var next, tail := done[KeyFor(ms[0]) := ms[0]], ms[1..];
      assert PutEntries(ms) + rest == PutEntry(ms[0]) + (PutEntries(tail) + rest);
      TakePutEntry(ms[0], PutEntries(tail) + rest);
      forall key | key in t
        ensures key in next || exists i :: 0 <= i < |tail| && KeyFor(tail[i]) == key
      {
        if key !in done {
          var i :| 0 <= i < |ms| && KeyFor(ms[i]) == key;
          assert i > 0 ==> KeyFor(tail[i - 1]) == key;
        }
      }
      TakePutEntries(tail, next, t, rest);
    }
  }

  lemma ListsSize(ms: seq<Watermark>, t: map<string, Watermark>)
    requires Lists(ms, t)
    ensures |ms| == |t|
  {
    hide KeyFor;
    var keys := seq(|ms|, i requires 0 <= i < |ms| => KeyFor(ms[i]));
    assert NoDuplicates(keys);
    DistinctCount(keys);
    forall key | key in t
      ensures key in Elements(keys)
    {
      var i :| 0 <= i < |ms| && KeyFor(ms[i]) == key;
      assert keys[i] == key;
    }
    assert Elements(keys) == t.Keys;
  }

  lemma ListsValid(ms: seq<Watermark>, t: map<string, Watermark>)
    requires Lists(ms, t) && AllKeyed(t)
    ensures Valid(ms)
  {
    hide ValidToken, BootKey;
    forall i | 0 <= i < |ms|
      ensures ValidToken(ms[i].publisher) && ms[i].boot != 0
    {
      assert Keyed(KeyFor(ms[i]), t[KeyFor(ms[i])]);
    }
  }

  /** Whatever order a table is written in, it is read back exactly, unless it holds more entries than
      the reader accepts, in which case the whole file is refused. */
  lemma TableRoundTrip(ms: seq<Watermark>, t: map<string, Watermark>)
    requires Lists(ms, t) && AllKeyed(t) && |t| <= U64_MAX
    ensures |ms| == |t| && Valid(ms)
    ensures TakeTable(PutTable(ms)) == if |t| <= MAX_WATERMARKS then Ok(t) else Err(CorruptState)
  {
    hide PutEntries, TakeEntries, TakeU64, PutLE, ValidToken, AllKeyed;
    ListsSize(ms, t);
    ListsValid(ms, t);
    TakePutU64(|ms|, PutEntries(ms));
    if |ms| <= MAX_WATERMARKS {
      assert PutEntries(ms) + [] == PutEntries(ms);
      TakePutEntries(ms, map[], t, []);
    }
  }

  ghost predicate Ascending(ks: seq<string>)
  {
    forall i, j :: 0 <= i < j < |ks| ==> Less(ks[i], ks[j])
  }

  /** The keys in the order an ordered map visits them. */
  method SortedKeys(keys: set<string>) returns (ks: seq<string>)
    ensures Elements(ks) == keys && Ascending(ks)
  {
    hide Less;
    ks := [];
    var rest := keys;
    while rest != {}
      invariant rest <= keys && Elements(ks) == keys - rest && Ascending(ks)
      invariant forall x, y :: x in Elements(ks) && y in rest ==> Less(x, y)
      decreases |rest|
    {
      var key := FindSmallest(rest);
      assert forall i :: 0 <= i < |ks| ==> ks[i] in Elements(ks);
      assert Elements(ks + [key]) == Elements(ks) + {key};
      ks := ks + [key];
      rest := rest - {key};
    }
  }

  /** The entries of a table in key order, as a save writes them. */
  method ListTable(t: map<string, Watermark>) returns (ms: seq<Watermark>)
    requires AllKeyed(t)
    ensures Lists(ms, t)
    ensures forall i, j :: 0 <= i < j < |ms| ==> Less(KeyFor(ms[i]), KeyFor(ms[j]))
  {
    hide KeyFor, BootKey, ValidToken, Less;
    var ks := SortedKeys(t.Keys);
    assert forall i :: 0 <= i < |ks| ==> ks[i] in Elements(ks);
    ms := [];
    for n := 0 to |ks|
      invariant |ms| == n && forall i :: 0 <= i < n ==> ms[i] == t[ks[i]] && KeyFor(ms[i]) == ks[i]
    {
      KeyedKey(ks[n], t[ks[n]]);
      ms := ms + [t[ks[n]]];
    }
    KeyOrderLists(ks, ms, t);
  }

  lemma KeyOrderLists(ks: seq<string>, ms: seq<Watermark>, t: map<string, Watermark>)
    requires Elements(ks) == t.Keys && Ascending(ks) && |ms| == |ks|
    requires forall i :: 0 <= i < |ks| ==> ks[i] in t && ms[i] == t[ks[i]] && KeyFor(ms[i]) == ks[i]
    ensures Lists(ms, t)
  {
    hide KeyFor, Less;
    forall i, j | 0 <= i < j < |ms|
      ensures KeyFor(ms[i]) != KeyFor(ms[j])
    {
      LessIrreflexive(ks[i]);
    }
    forall key | key in t
      ensures exists i :: 0 <= i < |ms| && KeyFor(ms[i]) == key
    {
      var i :| 0 <= i < |ks| && ks[i] == key;
      assert KeyFor(ms[i]) == key;
    }
  }

  lemma KeyedKey(key: string, m: Watermark)
    requires Keyed(key, m)
    ensures KeyFor(m) == key
  {}

  // ---- Every table ever saved is writable ------------------------------

  ghost predicate RegistryKeyed(r: Registry)
  {
    && AllKeyed(r.watermarks)
    && forall pid :: pid in r.publishers ==> ValidToken(pid) && r.publishers[pid].boot != 0
  }

  ghost predicate WorldKeyed(w: World)
  {
    RegistryKeyed(w.reg) && (w.disk.Some? ==> AllKeyed(w.disk.value.table))
  }

  lemma RegisterKeyed(r: Registry, lim: Limits, q: Registration)
    requires RegistryKeyed(r)
    ensures RegistryKeyed(Register(r, lim, q).0)
  {
    hide BootKey, ValidToken;
  }

  lemma FenceKeyed(r: Registry, lim: Limits, pid: string, boot: U64, reason: FenceReason)
    requires RegistryKeyed(r)
    ensures RegistryKeyed(Fence(r, lim, pid, boot, reason).0)
  {
    hide BootKey, ValidToken;
    if BoundTo(r, pid, boot) {
      EvictKeeps(FencedTable(r, pid, boot, reason), lim.watermarks);
    }
  }

  lemma MergedKeyed(r: Registry)
    requires RegistryKeyed(r)
    ensures AllKeyed(Merged(r))
  {
    hide BootKey, ValidToken;
    var t := Merged(r);
    forall key | key in t
      ensures Keyed(key, t[key])
    {
      if key !in r.watermarks { LiveEntryKeyed(r, key); }
    }
  }

  lemma LiveEntryKeyed(r: Registry, key: string)
    requires RegistryKeyed(r) && key in LiveEntries(r, r.publishers.Keys)
    ensures Keyed(key, LiveEntries(r, r.publishers.Keys)[key])
  {
    hide BootKey, ValidToken;
  }

  lemma StepKeyed(w: World, lim: Limits, a: Action)
    requires WorldKeyed(w)
    ensures WorldKeyed(Step(w, lim, a))
  {
    hide BootKey, ValidToken, Register, Fence, Merged, RegistryKeyed, Offer, Accepts, Authorize;
    match a
    case DoRegister(q) => RegisterKeyed(w.reg, lim, q);
    case DoFence(pid, boot, reason) => FenceKeyed(w.reg, lim, pid, boot, reason);
    case DoIngest(f) => IngestKeyed(w.reg, lim, f);
    case DoSave => MergedKeyed(w.reg);
    case DoLoad => if w.disk.Some? { LoadKeyed(w.reg, lim, w.disk.value.epoch, w.disk.value.table); }
  }

  lemma IngestKeyed(r: Registry, lim: Limits, f: Offering)
    requires RegistryKeyed(r)
    ensures RegistryKeyed(Ingest(r, lim, f))
  {
    hide BootKey, ValidToken, Offer, Admits;
  }

  lemma LoadKeyed(r: Registry, lim: Limits, epoch: nat, saved: map<string, Watermark>)
    requires RegistryKeyed(r) && AllKeyed(saved)
    ensures RegistryKeyed(Load(r, lim, epoch, saved).0)
  {
    hide BootKey, ValidToken;
  }

  lemma {:induction false} RunKeyed(w: World, lim: Limits, actions: seq<Action>)
    requires WorldKeyed(w)
    ensures WorldKeyed(Run(w, lim, actions))
    decreases |actions|
  {
    hide Step, WorldKeyed;
    if actions != [] {
      StepKeyed(w, lim, actions[0]);
      RunKeyed(Step(w, lim, actions[0]), lim, actions[1..]);
    }
  }

  /** In every run, the bytes of the last saved watermark section give back exactly the table saved,
      or are refused because the table is larger than a reader accepts. */
  lemma SavedTablesRoundTrip(w: World, lim: Limits, actions: seq<Action>, ms: seq<Watermark>)
    requires Initial(w) && Run(w, lim, actions).disk.Some?
    requires Lists(ms, Run(w, lim, actions).disk.value.table) && |ms| <= U64_MAX
    ensures Valid(ms)
    ensures var t := Run(w, lim, actions).disk.value.table;
            TakeTable(PutTable(ms)) == if |t| <= MAX_WATERMARKS then Ok(t) else Err(CorruptState)
  {
    hide Run, Lists, TakeTable, PutTable, Valid;
    RunKeyed(w, lim, actions);
    ListsSize(ms, Run(w, lim, actions).disk.value.table);
    TableRoundTrip(ms, Run(w, lim, actions).disk.value.table);
  }
}
