/**
 Stream reassembly: src/coordinator.cpp appends every received chunk to the
 session buffer and dispatches each complete frame; src/transport.cpp does the
 same, one frame per call. What `dispatch` does to the socket is a parameter:
 `closes(history)` says whether handling the last frame of `history`, everything
 dispatched so far, ends the session.
 */
module Reassembly {
  import opened Machine
  import opened Framing

  const CHUNK_SIZE: nat := 16384
  const BUFFER_BOUND: nat := MAX_FRAME_PAYLOAD + HEADER_SIZE + TRAILER_SIZE

  // ---- Streams ---------------------------------------------------------

  ghost function Stream(frames: seq<Frame>): (bytes: seq<Byte>)
  {
    if frames == [] then [] else FrameBytes(frames[0]) + Stream(frames[1..])
  }

  ghost function Joined(chunks: seq<seq<Byte>>): (bytes: seq<Byte>)
  {
    if chunks == [] then [] else chunks[0] + Joined(chunks[1..])
  }

  ghost predicate AllLegal(frames: seq<Frame>)
  {
    forall i :: 0 <= i < |frames| ==> LegalFrame(frames[i])
  }

  ghost predicate ChunksOk(chunks: seq<seq<Byte>>)
  {
    forall i :: 0 <= i < |chunks| ==> 1 <= |chunks[i]| <= CHUNK_SIZE
  }

  /** `chunks` is one way the bytes of `frames` may arrive. */
  ghost predicate IsChunkingOf(chunks: seq<seq<Byte>>, frames: seq<Frame>)
  {
    ChunksOk(chunks) && Joined(chunks) == Stream(frames)
  }

  /** Buffered bytes never hold a complete frame of what is still pending. */
  ghost predicate Incomplete(buffer: seq<Byte>, pending: seq<Frame>)
  {
    if pending == [] then buffer == [] else |buffer| < |FrameBytes(pending[0])|
  }

  type Closes = seq<Frame> -> bool

  /** Whether handling frame `i` of the stream ends the session. */
  ghost predicate ClosesAt(frames: seq<Frame>, i: nat, closes: Closes)
    requires i < |frames|
  {
    closes(frames[..i + 1])
  }

  ghost predicate StaysOpen(frames: seq<Frame>, n: nat, closes: Closes)
    requires n <= |frames|
  {
    forall i :: 0 <= i < n ==> !ClosesAt(frames, i, closes)
  }

  /** The frames a session dispatches from frame `n` on: up to and including the first that closes it. */
  ghost function Served(frames: seq<Frame>, n: nat, closes: Closes): (r: seq<Frame>)
    requires n <= |frames|
    decreases |frames| - n
  {
    if n == |frames| then frames
    else if ClosesAt(frames, n, closes) then frames[..n + 1]
    else Served(frames, n + 1, closes)
  }

  // ---- Draining a buffer -----------------------------------------------

  datatype Drained = Drained(frames: seq<Frame>, rest: seq<Byte>, open: bool)

  /** Every complete frame at the front of the buffer, given those dispatched before. */
  ghost function Drain(buffer: seq<Byte>, done: seq<Frame>, closes: Closes): (d: Drained)
    decreases |buffer|
  {
    if |buffer| < HEADER_SIZE then Drained([], buffer, true) else
    var h := DecodeHeader(buffer);
    if h.Err? then Drained([], buffer, false) else
    var total := FrameSize(h.value);
    if |buffer| < total then Drained([], buffer, true) else
    var f := DecodeFrame(buffer[..total]);
    if f.Err? then Drained([], buffer, false)
    else if closes(done + [f.value]) then Drained([f.value], buffer[total..], false)
    else
      var d := Drain(buffer[total..], done + [f.value], closes);
      Drained([f.value] + d.frames, d.rest, d.open)
  }

  lemma SplitFront(x: seq<Byte>, buffer: seq<Byte>, later: seq<Byte>, tail: seq<Byte>)
    requires buffer + later == x + tail && |buffer| >= |x|
    ensures buffer[..|x|] == x && buffer[|x|..] + later == tail
  {
    assert buffer[..|x|] == (buffer + later)[..|x|];
    assert buffer[|x|..] + later == (buffer + later)[|x|..];
  }

  lemma FrontHeader(f: Frame, buffer: seq<Byte>, later: seq<Byte>, tail: seq<Byte>)
    requires LegalFrame(f) && buffer + later == FrameBytes(f) + tail && |buffer| >= HEADER_SIZE
    ensures DecodeHeader(buffer) == Ok(HeaderOf(f))
  {
    hide PutLE, DecodeHeader, HeaderBytes, Crc.Crc32;
    var h, body := HeaderOf(f), f.payload + PutLE(Crc.Crc32(f.payload), 4);
    assert FrameBytes(f) + tail == HeaderBytes(h) + (body + tail);
    SplitFront(HeaderBytes(h), buffer, later, body + tail);
    assert buffer == HeaderBytes(h) + buffer[HEADER_SIZE..];
    HeaderRoundTrip(h, buffer[HEADER_SIZE..]);
  }

  /** The reading side of one frame at the front of a buffer. */
  lemma FrontFrame(f: Frame, buffer: seq<Byte>, later: seq<Byte>, tail: seq<Byte>)
    requires LegalFrame(f) && buffer + later == FrameBytes(f) + tail
    ensures |buffer| >= HEADER_SIZE ==> DecodeHeader(buffer) == Ok(HeaderOf(f))
    ensures FrameSize(HeaderOf(f)) == |FrameBytes(f)|
    ensures |buffer| >= |FrameBytes(f)| ==>
              && DecodeFrame(buffer[..|FrameBytes(f)|]) == Ok(f)
              && buffer[|FrameBytes(f)|..] + later == tail
  {
    hide DecodeHeader, DecodeFrame, FrameBytes;
    if |buffer| >= HEADER_SIZE { FrontHeader(f, buffer, later, tail); }
    if |buffer| >= |FrameBytes(f)| {
      SplitFront(FrameBytes(f), buffer, later, tail);
      FrameRoundTrip(f);
    }
  }

  lemma DrainWaits(f: Frame, buffer: seq<Byte>, later: seq<Byte>, tail: seq<Byte>, done: seq<Frame>, closes: Closes)
    requires LegalFrame(f) && buffer + later == FrameBytes(f) + tail && |buffer| < |FrameBytes(f)|
    ensures Drain(buffer, done, closes) == Drained([], buffer, true)
  {
    hide DecodeHeader, DecodeFrame, FrameBytes;
    FrontFrame(f, buffer, later, tail);
  }

  lemma DrainTakes(f: Frame, buffer: seq<Byte>, later: seq<Byte>, tail: seq<Byte>, done: seq<Frame>, closes: Closes)
    requires LegalFrame(f) && buffer + later == FrameBytes(f) + tail && |buffer| >= |FrameBytes(f)|
    ensures var rest := buffer[|FrameBytes(f)|..];
            var d := Drain(rest, done + [f], closes);
            && rest + later == tail
            && Drain(buffer, done, closes) ==
               if closes(done + [f]) then Drained([f], rest, false) else Drained([f] + d.frames, d.rest, d.open)
  {
    hide DecodeHeader, DecodeFrame, FrameBytes;
    FrontFrame(f, buffer, later, tail);
  }

  /** `d` hands out `frames[j..m]` and leaves a buffer from which the stream continues, or hands out one
      more frame, the first from `j` on that closes the session. */
  ghost predicate StopsAt(d: Drained, later: seq<Byte>, frames: seq<Frame>, j: nat, m: nat, closes: Closes)
  {
    && j <= m <= |frames|
    && (forall i :: j <= i < m ==> !ClosesAt(frames, i, closes))
    && if d.open then
         && d.frames == frames[j..m]
         && d.rest + later == Stream(frames[m..])
         && Incomplete(d.rest, frames[m..])
       else
         m < |frames| && ClosesAt(frames, m, closes) && d.frames == frames[j..m + 1]
  }

  /** Draining any prefix of a stream yields frames of that stream, in order. */
  lemma {:induction false} DrainPrefix(buffer: seq<Byte>, later: seq<Byte>, frames: seq<Frame>, j: nat, closes: Closes)
    returns (m: nat)
    requires AllLegal(frames) && j <= |frames| && buffer + later == Stream(frames[j..])
    ensures StopsAt(Drain(buffer, frames[..j], closes), later, frames, j, m, closes)
    decreases |frames| - j
  {
    hide FrameBytes, LegalFrame, Drain, ClosesAt;
    m := j;
    if j == |frames| {
      assert buffer == [];
      DrainNothing(buffer, frames[..j], closes);
    } else {
      var f, tail := frames[j], Stream(frames[j + 1..]);
      assert frames[j..][1..] == frames[j + 1..] && frames[..j] + [f] == frames[..j + 1];
      assert LegalFrame(f);
      if |buffer| < |FrameBytes(f)| {
        DrainWaits(f, buffer, later, tail, frames[..j], closes);
      } else {
        DrainTakes(f, buffer, later, tail, frames[..j], closes);
        ClosesNow(frames, j, closes);
        if !ClosesAt(frames, j, closes) {
          m := DrainPrefix(buffer[|FrameBytes(f)|..], later, frames, j + 1, closes);
          Longer(frames, j, m);
        }
      }
    }
  }

  lemma DrainNothing(buffer: seq<Byte>, done: seq<Frame>, closes: Closes)
    requires buffer == []
    ensures Drain(buffer, done, closes) == Drained([], buffer, true)
  {}

  lemma ClosesNow(frames: seq<Frame>, j: nat, closes: Closes)
    requires j < |frames|
    ensures ClosesAt(frames, j, closes) == closes(frames[..j + 1])
  {}

  lemma Longer(frames: seq<Frame>, j: nat, m: nat)
    requires j < m <= |frames|
    ensures [frames[j]] + frames[j + 1..m] == frames[j..m]
    ensures m < |frames| ==> [frames[j]] + frames[j + 1..m + 1] == frames[j..m + 1]
  {}

  // ---- A session over whole runs ---------------------------------------

  datatype SessionState = SessionState(buffer: seq<Byte>, open: bool, dispatched: seq<Frame>)

  ghost function Receive(s: SessionState, chunk: seq<Byte>, closes: Closes): (t: SessionState)
  {
    if !s.open then s else
    var buffer := s.buffer + chunk;
    if |buffer| > BUFFER_BOUND then SessionState(buffer, false, s.dispatched) else
    var d := Drain(buffer, s.dispatched, closes);
    SessionState(d.rest, d.open, s.dispatched + d.frames)
  }

  ghost function ReceiveAll(s: SessionState, chunks: seq<seq<Byte>>, closes: Closes): (t: SessionState)
    decreases |chunks|
  {
    if chunks == [] then s else ReceiveAll(Receive(s, chunks[0], closes), chunks[1..], closes)
  }

  /** Where a session stands inside the stream of `frames` when `later` has not arrived yet. */
  ghost predicate OnTrack(s: SessionState, frames: seq<Frame>, later: seq<Byte>, closes: Closes)
  {
    if s.open then
      && |s.dispatched| <= |frames| && s.dispatched == frames[..|s.dispatched|]
      && StaysOpen(frames, |s.dispatched|, closes)
      && s.buffer + later == Stream(frames[|s.dispatched|..])
      && Incomplete(s.buffer, frames[|s.dispatched|..])
    else
      s.dispatched == Served(frames, 0, closes) && !StaysOpen(frames, |frames|, closes)
  }

  lemma ReceiveOnTrack(s: SessionState, frames: seq<Frame>, chunk: seq<Byte>, later: seq<Byte>, closes: Closes)
    requires AllLegal(frames) && OnTrack(s, frames, chunk + later, closes)
    requires s.open ==> |s.buffer + chunk| <= BUFFER_BOUND
    ensures OnTrack(Receive(s, chunk, closes), frames, later, closes)
  {
    hide Drain, FrameBytes, Stream, Served, ClosesAt;
    if s.open {
      var j := |s.dispatched|;
      var buffer := s.buffer + chunk;
      assert buffer + later == s.buffer + (chunk + later);
      var m := DrainPrefix(buffer, later, frames, j, closes);
      var d := Drain(buffer, frames[..j], closes);
      if d.open {
        assert frames[..j] + frames[j..m] == frames[..m];
        assert Receive(s, chunk, closes) == SessionState(d.rest, true, frames[..m]);
      } else {
        assert frames[..j] + frames[j..m + 1] == frames[..m + 1];
        ServedAt(frames, 0, m, closes);
      }
    }
  }

  lemma {:induction false} ServedAt(frames: seq<Frame>, n: nat, k: nat, closes: Closes)
    requires n <= k < |frames| && ClosesAt(frames, k, closes) && StaysOpen(frames, k, closes)
    ensures Served(frames, n, closes) == frames[..k + 1]
    decreases k - n
  {
    if n < k {
      assert !ClosesAt(frames, n, closes);
      ServedAt(frames, n + 1, k, closes);
    }
  }

  lemma {:induction false} ServedAll(frames: seq<Frame>, n: nat, closes: Closes)
    requires n <= |frames| && StaysOpen(frames, |frames|, closes)
    ensures Served(frames, n, closes) == frames
    decreases |frames| - n
  {
    if n < |frames| {
      assert !ClosesAt(frames, n, closes);
      ServedAll(frames, n + 1, closes);
    }
  }

  // ---- When the buffer bound is safe -----------------------------------

  /** The worst case for frame `i`: all but one of its bytes are buffered when the largest
      chunk the rest of the stream can fill arrives. */
  ghost predicate FitsAt(frames: seq<Frame>, i: nat)
    requires i < |frames|
  {
    |FrameBytes(frames[i])| - 1 + Min(CHUNK_SIZE, 1 + |Stream(frames[i + 1..])|) <= BUFFER_BOUND
  }

  ghost predicate SafeStream(frames: seq<Frame>)
  {
    forall i :: 0 <= i < |frames| ==> FitsAt(frames, i)
  }

  /** A payload at least one chunk below the maximum fits in every stream. */
  lemma SmallPayloadsAreSafe(frames: seq<Frame>)
    requires forall i :: 0 <= i < |frames| ==> |frames[i].payload| <= MAX_FRAME_PAYLOAD - CHUNK_SIZE + 1
    ensures SafeStream(frames)
  {
    hide FrameBytes;
  }

  lemma ChunkFits(s: SessionState, frames: seq<Frame>, chunk: seq<Byte>, later: seq<Byte>, closes: Closes)
    requires OnTrack(s, frames, chunk + later, closes) && s.open
    requires SafeStream(frames) && |chunk| <= CHUNK_SIZE
    ensures |s.buffer + chunk| <= BUFFER_BOUND
  {
    hide FrameBytes;
    var j := |s.dispatched|;
    if j < |frames| {
      assert FitsAt(frames, j);
      assert frames[j..][1..] == frames[j + 1..];
      assert |s.buffer| + |chunk| + |later| == |FrameBytes(frames[j])| + |Stream(frames[j + 1..])|;
    }
  }

  lemma {:induction false} RunOnTrack(s: SessionState, frames: seq<Frame>, chunks: seq<seq<Byte>>, later: seq<Byte>, closes: Closes)
    requires AllLegal(frames) && OnTrack(s, frames, Joined(chunks) + later, closes)
    requires ChunksOk(chunks)
    requires SafeStream(frames) || forall i :: 0 <= i < |chunks| ==> |chunks[i]| == 1
    ensures OnTrack(ReceiveAll(s, chunks, closes), frames, later, closes)
    decreases |chunks|
  {
    hide FrameBytes, Drain, Receive, OnTrack;
    if chunks == [] {
      assert Joined(chunks) + later == later;
    } else {
      var c, after := chunks[0], Joined(chunks[1..]) + later;
      assert Joined(chunks) + later == c + after;
      if s.open {
        if SafeStream(frames) { ChunkFits(s, frames, c, after, closes); } else { OneByteFits(s, frames, c, after, closes); }
      }
      ReceiveOnTrack(s, frames, c, after, closes);
      RunOnTrack(Receive(s, c, closes), frames, chunks[1..], later, closes);
    }
  }

  lemma OneByteFits(s: SessionState, frames: seq<Frame>, chunk: seq<Byte>, later: seq<Byte>, closes: Closes)
    requires OnTrack(s, frames, chunk + later, closes) && s.open && AllLegal(frames) && |chunk| == 1
    ensures |s.buffer + chunk| <= BUFFER_BOUND
  {
    hide FrameBytes;
    var j := |s.dispatched|;
    assert |s.buffer + (chunk + later)| >= 1;
    assert j < |frames|;
    assert LegalFrame(frames[j]);
  }

  const FRESH := SessionState([], true, [])

  lemma FreshOnTrack(frames: seq<Frame>, closes: Closes)
    ensures OnTrack(FRESH, frames, Stream(frames), closes)
  {
    hide FrameBytes;
    assert frames[0..] == frames;
    assert [] + Stream(frames) == Stream(frames);
  }

  /** Reassembly does not depend on chunking: whatever way a safe stream is cut, the session
      dispatches the same frames, and if none closes it, it ends open with an empty buffer. */
  lemma ChunkingDoesNotMatter(frames: seq<Frame>, chunks: seq<seq<Byte>>, closes: Closes)
    requires AllLegal(frames) && SafeStream(frames) && IsChunkingOf(chunks, frames)
    ensures var s := ReceiveAll(FRESH, chunks, closes);
            && s.dispatched == Served(frames, 0, closes)
            && (s.open <==> StaysOpen(frames, |frames|, closes))
            && (s.open ==> s.buffer == [])
  {
    hide FrameBytes, ReceiveAll;
    FreshOnTrack(frames, closes);
    assert Joined(chunks) + [] == Stream(frames);
    RunOnTrack(FRESH, frames, chunks, [], closes);
    var s := ReceiveAll(FRESH, chunks, closes);
    if s.open {
      EndOfStream(s, frames, closes);
      ServedAll(frames, 0, closes);
    }
  }

  lemma EndOfStream(s: SessionState, frames: seq<Frame>, closes: Closes)
    requires s.open && OnTrack(s, frames, [], closes)
    ensures s.dispatched == frames && s.buffer == []
  {
    hide FrameBytes;
    var pending := frames[|s.dispatched|..];
    assert s.buffer == Stream(pending) by { assert s.buffer + [] == s.buffer; }
    assert frames[..|frames|] == frames;
  }

  // ---- The bound is exact ----------------------------------------------

  ghost function Bytewise(bytes: seq<Byte>): (chunks: seq<seq<Byte>>)
    ensures |chunks| == |bytes| && forall i :: 0 <= i < |chunks| ==> |chunks[i]| == 1
  {
    if bytes == [] then [] else [[bytes[0]]] + Bytewise(bytes[1..])
  }

  lemma {:induction false} BytewiseJoins(bytes: seq<Byte>)
    ensures Joined(Bytewise(bytes)) == bytes
  {
    if bytes != [] {
      BytewiseJoins(bytes[1..]);
      assert Bytewise(bytes)[1..] == Bytewise(bytes[1..]);
    }
  }

  lemma {:induction false} JoinedConcat(a: seq<seq<Byte>>, b: seq<seq<Byte>>)
    ensures Joined(a + b) == Joined(a) + Joined(b)
  {
    if a == [] {
      assert a + b == b;
    } else {
      assert (a + b)[1..] == a[1..] + b;
      JoinedConcat(a[1..], b);
    }
  }

  lemma {:induction false} ReceiveAllConcat(s: SessionState, a: seq<seq<Byte>>, b: seq<seq<Byte>>, closes: Closes)
    ensures ReceiveAll(s, a + b, closes) == ReceiveAll(ReceiveAll(s, a, closes), b, closes)
    decreases |a|
  {
    hide Receive;
    if a == [] {
      assert a + b == b;
    } else {
      assert (a + b)[1..] == a[1..] + b;
      ReceiveAllConcat(Receive(s, a[0], closes), a[1..], b, closes);
    }
  }

  lemma {:induction false} ClosedStays(s: SessionState, chunks: seq<seq<Byte>>, closes: Closes)
    requires !s.open
    ensures ReceiveAll(s, chunks, closes) == s
    decreases |chunks|
  {
    if chunks != [] { ClosedStays(s, chunks[1..], closes); }
  }

  lemma {:induction false} StreamConcat(a: seq<Frame>, b: seq<Frame>)
    ensures Stream(a + b) == Stream(a) + Stream(b)
  {
    hide FrameBytes;
    if a == [] {
      assert a + b == b;
    } else {
      assert (a + b)[1..] == a[1..] + b;
      StreamConcat(a[1..], b);
    }
  }

  /** The stream cut so that frame `i` lacks one byte when a full chunk arrives. */
  ghost function WorstChunking(frames: seq<Frame>, i: nat): (chunks: seq<seq<Byte>>)
    requires i < |frames|
  {
    hide FrameBytes;
    var all := Stream(frames);
    var n := |Stream(frames[..i])| + |FrameBytes(frames[i])| - 1;
    var c := Min(CHUNK_SIZE, 1 + |Stream(frames[i + 1..])|);
    StreamAround(frames, i);
    Bytewise(all[..n]) + [all[n..n + c]] + Bytewise(all[n + c..])
  }

  lemma StreamAround(frames: seq<Frame>, i: nat)
    requires i < |frames|
    ensures Stream(frames) == Stream(frames[..i]) + Stream(frames[i..])
    ensures Stream(frames[i..]) == FrameBytes(frames[i]) + Stream(frames[i + 1..])
  {
    hide FrameBytes;
    assert frames == frames[..i] + frames[i..];
    StreamConcat(frames[..i], frames[i..]);
    assert frames[i..][1..] == frames[i + 1..];
  }

  lemma JoinAround(all: seq<Byte>, n: nat, c: nat)
    requires n + c <= |all|
    ensures Joined(Bytewise(all[..n]) + [all[n..n + c]] + Bytewise(all[n + c..])) == all
  {
    var mid := [all[n..n + c]];
    BytewiseJoins(all[..n]);
    BytewiseJoins(all[n + c..]);
    assert Joined(mid) == all[n..n + c] + Joined(mid[1..]);
    JoinedConcat(Bytewise(all[..n]), mid);
    JoinedConcat(Bytewise(all[..n]) + mid, Bytewise(all[n + c..]));
    assert all == all[..n] + all[n..n + c] + all[n + c..];
  }

  lemma WorstChunkingIsOne(frames: seq<Frame>, i: nat)
    requires i < |frames|
    ensures IsChunkingOf(WorstChunking(frames, i), frames)
  {
    hide FrameBytes, Stream, Joined, Bytewise;
    StreamAround(frames, i);
    JoinAround(Stream(frames), |Stream(frames[..i])| + |FrameBytes(frames[i])| - 1,
               Min(CHUNK_SIZE, 1 + |Stream(frames[i + 1..])|));
  }

  /** Bytewise arrival of everything but the last byte of frame `i` buffers exactly the rest of
      that frame. */
  lemma BytewiseUpTo(frames: seq<Frame>, i: nat, closes: Closes) returns (s: SessionState)
    requires AllLegal(frames) && i < |frames| && StaysOpen(frames, |frames|, closes)
    ensures var n := |Stream(frames[..i])| + |FrameBytes(frames[i])| - 1;
            && n <= |Stream(frames)|
            && s == ReceiveAll(FRESH, Bytewise(Stream(frames)[..n]), closes)
    ensures s.open && |s.buffer| == |FrameBytes(frames[i])| - 1 && s.dispatched != frames
  {
    hide FrameBytes, ReceiveAll;
    var all := Stream(frames);
    var n := |Stream(frames[..i])| + |FrameBytes(frames[i])| - 1;
    StreamAround(frames, i);
    var chunks := Bytewise(all[..n]);
    BytewiseJoins(all[..n]);
    FreshOnTrack(frames, closes);
    assert Joined(chunks) + all[n..] == all;
    RunOnTrack(FRESH, frames, chunks, all[n..], closes);
    s := ReceiveAll(FRESH, chunks, closes);
    var j := |s.dispatched|;
    assert s.buffer + all[n..] == Stream(frames[j..]);
    if j > i {
      StreamShrinks(frames, i + 1, j);
    } else if j < i {
      StreamAround(frames, j);
      StreamShrinks(frames, j + 1, i);
    }
  }

  lemma {:induction false} StreamShrinks(frames: seq<Frame>, i: nat, j: nat)
    requires i <= j <= |frames|
    ensures |Stream(frames[j..])| <= |Stream(frames[i..])|
    decreases j - i
  {
    hide FrameBytes;
    if i < j {
      StreamAround(frames, i);
      StreamShrinks(frames, i + 1, j);
    }
  }

  /** Every chunking of a stream is reassembled in full if and only if the stream is safe. */
  lemma SafeIffEveryChunkingWorks(frames: seq<Frame>, closes: Closes)
    requires AllLegal(frames) && StaysOpen(frames, |frames|, closes)
    ensures SafeStream(frames) <==>
            forall chunks :: IsChunkingOf(chunks, frames) ==> ReceiveAll(FRESH, chunks, closes).dispatched == frames
  {
    hide FrameBytes, ReceiveAll;
    if SafeStream(frames) {
      ServedAll(frames, 0, closes);
      forall chunks | IsChunkingOf(chunks, frames)
        ensures ReceiveAll(FRESH, chunks, closes).dispatched == frames
      {
        ChunkingDoesNotMatter(frames, chunks, closes);
      }
    } else {
      var i :| 0 <= i < |frames| && !FitsAt(frames, i);
      WorstChunkingIsOne(frames, i);
      WorstChunkingFails(frames, i, closes);
    }
  }

  lemma WorstChunkingFails(frames: seq<Frame>, i: nat, closes: Closes)
    requires AllLegal(frames) && i < |frames| && !FitsAt(frames, i)
    requires StaysOpen(frames, |frames|, closes)
    ensures ReceiveAll(FRESH, WorstChunking(frames, i), closes).dispatched != frames
  {
    hide FrameBytes, Stream, Bytewise, ReceiveAll, Receive, AllLegal, StaysOpen;
    var all := Stream(frames);
    var n := |Stream(frames[..i])| + |FrameBytes(frames[i])| - 1;
    var c := Min(CHUNK_SIZE, 1 + |Stream(frames[i + 1..])|);
    StreamAround(frames, i);
    var s := BytewiseUpTo(frames, i, closes);
    var before, mid, after := Bytewise(all[..n]), [all[n..n + c]], Bytewise(all[n + c..]);
    ReceiveAllConcat(FRESH, before, mid, closes);
    ReceiveAllConcat(FRESH, before + mid, after, closes);
    var t := OverfullCloses(s, all[n..n + c], closes);
    ClosedStays(t, after, closes);
  }

  /** A chunk that takes the buffer past its bound closes the session and dispatches nothing. */
  lemma OverfullCloses(s: SessionState, chunk: seq<Byte>, closes: Closes) returns (t: SessionState)
    requires s.open && |s.buffer| + |chunk| > BUFFER_BOUND
    ensures t == ReceiveAll(s, [chunk], closes) && !t.open && t.dispatched == s.dispatched
  {
    t := Receive(s, chunk, closes);
    assert ReceiveAll(s, [chunk], closes) == ReceiveAll(t, [chunk][1..], closes) == t;
  }

  /** Two frames of the largest payload are a legal stream that some chunking breaks. */
  lemma LargestPairIsUnsafe(f: Frame, closes: Closes) returns (chunks: seq<seq<Byte>>)
    requires LegalFrame(f) && |f.payload| == MAX_FRAME_PAYLOAD && StaysOpen([f, f], 2, closes)
    ensures AllLegal([f, f]) && !SafeStream([f, f]) && IsChunkingOf(chunks, [f, f])
    ensures ReceiveAll(FRESH, chunks, closes).dispatched != [f, f]
  {
    hide FrameBytes, LegalFrame, ReceiveAll, IsChunkingOf, StaysOpen;
    var frames := [f, f];
    assert frames[1..] == [f] && Stream([f]) == FrameBytes(f) + Stream([f][1..]);
    assert !FitsAt(frames, 0);
    chunks := WorstChunking(frames, 0);
    WorstChunkingIsOne(frames, 0);
    WorstChunkingFails(frames, 0, closes);
  }

  // ---- The two reading loops -------------------------------------------

  /** What one read of the socket gives: nothing yet, an error, or bytes, none of which means the peer
      has closed. */
  datatype Received = Busy | Failed | Data(bytes: seq<Byte>)

  ghost function Serviced(s: SessionState, r: Received, closes: Closes): (t: SessionState)
  {
    if !s.open || r.Busy? then s
    else if r.Failed? || r.bytes == [] then s.(open := false)
    else Receive(s, r.bytes, closes)
  }

  /** A coordinator session; `dispatched` records the frames handed to `dispatch`. */
  class Session {
    const closes: Closes
    var buffer: seq<Byte>
    var open: bool
    var dispatched: seq<Frame>

    ghost function View(): (s: SessionState)
      reads this
    {
      SessionState(buffer, open, dispatched)
    }

    constructor (closes: Closes)
      ensures View() == FRESH && this.closes == closes
    {
      this.closes := closes;
      buffer, open, dispatched := [], true, [];
    }

    /** One readable socket: append what it gives, enforce the bound, dispatch every complete frame. */
    method Service(received: Received)
      requires open
      modifies this
      ensures View() == Serviced(old(View()), received, closes)
    {
      hide DecodeHeader, DecodeFrame;
      if received.Busy? {
        return;
      }
      if received.Failed? || received.bytes == [] {
        open := false;
        return;
      }
      buffer := buffer + received.bytes;
      if |buffer| > BUFFER_BOUND {
        open := false;
        return;
      }
      ghost var start, before := buffer, dispatched;
      while true
        invariant open
        invariant var all, here := Drain(start, before, closes), Drain(buffer, dispatched, closes);
                  && all.rest == here.rest && all.open == here.open
                  && before + all.frames == dispatched + here.frames
        decreases |buffer|
      {
        if |buffer| < HEADER_SIZE {
          return;
        }
        var header := DecodeHeader(buffer);
        if header.Err? {
          open := false;
          return;
        }
        var total := FrameSize(header.value);
        if |buffer| < total {
          return;
        }
        var frame := DecodeFrame(buffer[..total]);
        if frame.Err? {
          open := false;
          return;
        }
        buffer := buffer[total..];
        dispatched := dispatched + [frame.value];
        if closes(dispatched) {
          open := false;
          return;
        }
      }
    }
  }

  datatype Pulled = Pulled(result: Result<Frame>, buffer: seq<Byte>, incoming: seq<seq<Byte>>)

  /** What one blocking read returns and leaves behind; after the last chunk the socket reports `ending`. */
  ghost function Pull(buffer: seq<Byte>, incoming: seq<seq<Byte>>, ending: ErrorCode): (p: Pulled)
    decreases |incoming|
  {
    var header := DecodeHeader(buffer);
    if |buffer| >= HEADER_SIZE && header.Err? then Pulled(Err(header.code), buffer, incoming)
    else if |buffer| >= HEADER_SIZE && |buffer| >= FrameSize(header.value) then
      var total := FrameSize(header.value);
      var frame := DecodeFrame(buffer[..total]);
      Pulled(frame, if frame.Ok? then buffer[total..] else buffer, incoming)
    else if incoming == [] then Pulled(Err(ending), buffer, incoming)
    else if incoming[0] == [] then Pulled(Err(ConnectionClosed), buffer, incoming)
    else if |buffer + incoming[0]| > BUFFER_BOUND then Pulled(Err(TooLarge), buffer + incoming[0], incoming[1..])
    else Pull(buffer + incoming[0], incoming[1..], ending)
  }

  /** Successive reads return the frames of a safe stream one by one, however it is cut. */
  lemma {:induction false} PullTakesNext(buffer: seq<Byte>, incoming: seq<seq<Byte>>, ending: ErrorCode, frames: seq<Frame>)
    requires frames != [] && AllLegal(frames) && SafeStream(frames) && ChunksOk(incoming)
    requires buffer + Joined(incoming) == Stream(frames)
    ensures var p := Pull(buffer, incoming, ending);
            && p.result == Ok(frames[0])
            && ChunksOk(p.incoming) && p.buffer + Joined(p.incoming) == Stream(frames[1..])
    decreases |incoming|
  {
    hide DecodeHeader, DecodeFrame, FrameBytes;
    var f, tail := frames[0], Stream(frames[1..]);
    FrontFrame(f, buffer, Joined(incoming), tail);
    if |buffer| < |FrameBytes(f)| {
      assert incoming != [];
      assert FitsAt(frames, 0) && frames[0 + 1..] == frames[1..];
      assert buffer + Joined(incoming) == (buffer + incoming[0]) + Joined(incoming[1..]);
      PullTakesNext(buffer + incoming[0], incoming[1..], ending, frames);
    }
  }

  /** A client connection; `incoming` are the chunks the socket will still deliver, an empty one standing
      for a closed peer, and `ending` is the error it reports after them. */
  class Connection {
    const ending: ErrorCode
    var buffer: seq<Byte>
    var incoming: seq<seq<Byte>>

    constructor (incoming: seq<seq<Byte>>, ending: ErrorCode)
      ensures buffer == [] && this.incoming == incoming && this.ending == ending
    {
      this.ending, this.incoming, buffer := ending, incoming, [];
    }

    method ReceiveFrame() returns (r: Result<Frame>)
      modifies this
      ensures Pulled(r, buffer, incoming) == Pull(old(buffer), old(incoming), ending)
    {
      hide DecodeHeader, DecodeFrame;
      while true
        invariant Pull(buffer, incoming, ending) == Pull(old(buffer), old(incoming), ending)
        decreases |incoming|
      {
        if |buffer| >= HEADER_SIZE {
          var header := DecodeHeader(buffer);
          if header.Err? {
            return Err(header.code);
          }
          var total := FrameSize(header.value);
          if |buffer| >= total {
            var frame := DecodeFrame(buffer[..total]);
            if frame.Err? {
              return frame;
            }
            buffer := buffer[total..];
            return frame;
          }
        }
        if incoming == [] {
          return Err(ending);
        }
        if incoming[0] == [] {
          return Err(ConnectionClosed);
        }
        buffer, incoming := buffer + incoming[0], incoming[1..];
        if |buffer| > BUFFER_BOUND {
          return Err(TooLarge);
        }
      }
    }
  }
}
