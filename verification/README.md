# A verified model of Coherence Observatory

Coherence Observatory is a C++20 runtime that ingests coherence evidence from
publishers over a framed TCP protocol, decides which of it counts, aggregates
it, and survives restarts through a state file. This project models its core in
Dafny and proves what that core promises.

The system in its own terms, and the modules that model it:

- **Frames on the wire.** A header with a CRC-32, a payload, and a payload
  checksum (`Crc`, `Framing`), reassembled from arbitrary chunks (`Reassembly`).
  The checksum is the reflected polynomial 0xEDB88320, clause 3.2.9 of IEEE Std
  802.3, computed with the table method of section 8 of RFC 1952.
- **Payloads.** Little-endian integers, flags and bounded text (`Payload`),
  observations and batches (`Wire` on values, `WireIo` over a shared cursor or
  buffer).
- **Publisher authority.** One sequence space per boot, with a high watermark, a
  bounded window of seen sequences and an optional durable watermark
  (`Sequence`); registration, supersession, fencing, saving and loading
  (`Authority`); safety over runs that cross restarts (`Replay`, `ExactlyOnce`),
  and over any number of incarnations that each shut down in order (`Cycles`).
- **Evidence.** Attribution against what is registered and the lifecycle of
  regions (`Attribution`); buckets on ten dimensions with saturating totals
  (`Aggregate`, `AggregateStore`); the journal and the region sample rings
  (`Evidence`).
- **Counters.** Deltas reconstructed from raw readings (`Counter`).
- **The whole.** One state machine in which authority, regions, counters and
  evidence move together (`Observatory`), and the interleavings that the lock
  granularity of batches and fences allows (`Gate`).
- **The state file.** Envelope (`StateFile`), sections and the whole load
  (`Sections`), the watermark table behind them (`Watermarks`), and exactly which
  corruptions a load misses (`Corruption`, from the linear algebra of the
  checksum in `Syndrome`).
- **Analysis.** The invalidation burst scan (`Burst`) and the ping-pong scan
  (`PingPong`).

Specifications are functions on values. Whatever the runtime updates in place
is a class or a method with loops, proved equal to its specification function.
Every bound (window, table sizes, ring sizes) is a parameter, so the results
hold for the runtime's constants and any others. `dafny verify dfyconfig.toml`
checks the whole project.

## What turned out not to hold

Each of these is the code's behaviour, kept as it is, with the exact condition
under which the promise does hold.

- A sequence can be accepted twice within one boot: the window forgets by
  insertion order, the floor is numeric (`Sequence.ExactlyOnceFails`,
  `Sequence.AcceptedAgainIff`).
- A save keeps an older durable entry of a live boot, and so forgets what that
  boot accepted since (`Replay.SaveCoversIff`). A refused return of a
  superseded boot creates such an entry
  (`Replay.RefusedReturnHidesLaterSequences`), and then the same sequence is
  accepted in two incarnations (`Replay.RefusedReturnReplays`).
- A save can write a table that every load refuses (`Replay.SavedFileLoadsIff`):
  a publisher that restarts often enough is all it takes
  (`Replay.OverfullSave`).
- A counter reading that arrives late is counted again
  (`Counter.LateReadingOvercounts`). In any arrival order the total is the sum of
  the rises, and it is the advance from the first reading to the largest if and
  only if no rise follows a fall (`Counter.ArrivalOrder`).
- The pending count is safe only if a full batch on top of the configured limit
  still fits a machine word (`Gate.GateHoldsIff`).
- Structural validation admits one locality code that the reader refuses
  (`Wire.ObservationRoundTrip`, `Wire.UnreadableExists`).
- The last four bytes of a state file are not checked
  (`StateFile.CorruptByteDetectedIff`).
- Three changes of bytes 49 to 52 of a state file go unnoticed, because the
  stored header checksum and the reserved bytes behind it can change together:
  exclusive or with 65 FD 47 43, CA FA 8F 86 or AF 07 C8 C5. Every other change
  within four bytes that reaches past the last four is refused
  (`Corruption.SilentChangeExists`, `Corruption.BurstLoadsIff`).
- The ping-pong scan looks only at the tail of the longest run, and never
  reports when more than two participants are asked for
  (`PingPong.QuickPairMissed`, `PingPong.NeverMoreThanTwo`). Exactly when it
  reports, and when a run that meets every threshold is missed:
  `PingPong.ReportedIff`, `PingPong.MissedIff`.
- Very large payloads are reassembled under every chunking only if what follows
  them cannot fill the buffer (`Reassembly.SafeIffEveryChunkingWorks`). Two
  frames of the largest payload are enough (`Reassembly.LargestPairIsUnsafe`).

## Model

| member | source | states |
|---|---|---|
| `Crc.RegisterConcat` | src/protocol.cpp:106-114 | The bit-serial register of a concatenation is that of the second part seeded with that of the first, so extending a checksum composes |
| `Crc.RegisterInjectiveInSeed` | src/protocol.cpp:106-114 | Different seeds stay different over data of any length |
| `Crc.RegisterInjectiveInWord` | src/protocol.cpp:106-114 | Different strings of at most four bytes give different registers from one seed |
| `Crc.BurstChangesRegister` | src/protocol.cpp:102-114 | Two strings that differ only within four consecutive bytes have different registers |
| `Crc.Crc32Determines` | src/protocol.cpp:102-104 | Equal checksums are equal registers, both ways |
| `Crc.ResidueIff` | src/protocol.cpp:102-114 | A stored checksum is right exactly when data followed by it leaves one fixed residue |
| `Crc.TableStep` | src/protocol.cpp:15-25 | One table lookup is eight steps of the bit-by-bit polynomial division |
| `Crc.MakeCrcTable` | src/protocol.cpp:15-25 | The table loop produces, for every index, eight division steps of that index |
| `Crc.Crc32Extend` | src/protocol.cpp:106-114 | The table-driven loop equals bit-serial division of the whole message |
| `Crc.ComputeCrc32` | src/protocol.cpp:102-104 | The checksum is the inverted register from an all-ones seed |
| `Framing.EncodeHeader` | src/protocol.cpp:116-126 | Writes exactly the header bytes in place and leaves the rest of the buffer alone |
| `Framing.EncodeFrame` | src/protocol.cpp:174-189 | The filled buffer is header, payload and payload checksum |
| `Framing.HeaderRoundTrip` | src/protocol.cpp:116-172 | An encoded header decodes to itself if it is legal and to an error if it is not, whatever follows it |
| `Framing.HeaderCanonical` | src/protocol.cpp:128-172 | Every accepted header is the encoding of what it decodes to |
| `Framing.FrameRoundTrip` | src/protocol.cpp:174-222 | Decoding an encoding returns the frame exactly when the frame is legal |
| `Framing.FrameCanonical` | src/protocol.cpp:191-222 | Every accepted byte string is the encoding of the legal frame it decodes to |
| `Framing.BurstCorruptionDetected` | src/protocol.cpp:128-222 | Any change within four consecutive bytes anywhere in an accepted frame, so any single byte, makes decoding fail |
| `Reassembly.ChunkingDoesNotMatter` | src/coordinator.cpp:738-794 | Every chunking of a safe stream dispatches the same frames in order, up to the one at which the history of the session ends it, and leaves an empty buffer while the session is open |
| `Reassembly.SmallPayloadsAreSafe` | src/coordinator.cpp:738-794 | Payloads a chunk below the maximum are safe in every stream |
| `Reassembly.SafeIffEveryChunkingWorks` | src/coordinator.cpp:738-794 | A stream is reassembled in full under every chunking if and only if it is safe |
| `Reassembly.LargestPairIsUnsafe` | src/coordinator.cpp:738-794 | Two frames of the largest payload are a legal stream that some chunking breaks |
| `Reassembly.Session.Service` | src/coordinator.cpp:726-795 | Receiving, with its failures, the append, the bound check and the dispatch loop over the session buffer are one step of the specification |
| `Reassembly.PullTakesNext` | src/transport.cpp:16-51 | Successive reads return the frames of a safe stream one by one, leaving the remaining stream |
| `Reassembly.Connection.ReceiveFrame` | src/transport.cpp:16-51 | The reading loop agrees with the specification, in its errors too |
| `Sequence.RememberInPlace` | src/observatory.cpp:142-170 | Insertion into the bounded map with its eviction loop keeps exactly the newest insertions |
| `Sequence.OfferInPlace` | src/observatory.cpp:957-1014 | Accounting, the event identity check and both commits, step by step, are one offer |
| `Sequence.ReplayWithinBoot` | src/observatory.cpp:86-157 | Two acceptances of one sequence have a window of other acceptances between them, one of them smaller, and only in a boot without durable watermark |
| `Sequence.Ledger` | src/observatory.cpp:86-157 | Watermark minus baseline is accepted minus late plus missing; window and queue are the same duplicate-free last acceptances, all at or below the watermark |
| `Sequence.DispositionFromLog` | src/observatory.cpp:86-140 | What a reachable boot answers, as a condition on its acceptance log alone, both ways |
| `Sequence.AcceptedAgainIff` | src/observatory.cpp:86-140 | Exactly when an accepted sequence would be accepted again |
| `Sequence.ExactlyOnceFails` | src/observatory.cpp:130-156 | With a window of two, arrivals 2, 1, 3, 2 accept 2 twice |
| `Text.BootKeyInjective` | src/attribution.cpp:132-137 | The key of a boot determines publisher and boot, even though names may contain the separator |
| `Text.FindSmallest` | src/observatory.cpp:842-844 | The loop finds the key at the front of an ordered map |
| `Authority.Coordinator.RegisterPublisher` | src/observatory.cpp:668-807 | The in-place registration is the specified transition, including what a refused one has already written |
| `Authority.Coordinator.FencePublisherBoot` | src/observatory.cpp:809-855 | Fencing updates the record and the table and evicts smallest keys down to the bound |
| `Authority.Coordinator.IngestOne` | src/observatory.cpp:923-1014 | Authority checks and sequencing of one arrival, with the decision reported |
| `Authority.Coordinator.SavedWatermarks` | src/persistence.cpp:1258-1275 | The merge loop keeps durable entries and adds live boots that have none |
| `Authority.Coordinator.LoadSaved` | src/persistence.cpp:1457-1526 | Recovery advances the epoch, clears fences and publishers, and refuses an oversized table |
| `Replay.NoReplayAcrossRestarts` | src/persistence.cpp:1457-1526 | In every clean run, what a boot accepts after a restart exceeds everything it accepted before it |
| `Replay.RestartRefusesIff` | src/observatory.cpp:753-804 | After a load, a boot that registers again refuses exactly the sequences its saved entry covers |
| `Replay.SaveCoversIff` | src/persistence.cpp:1258-1275 | A save forgets a boot's newest sequence if and only if an older durable entry hides it |
| `Replay.FencedBootIsSaved` | src/observatory.cpp:828-844 | A boot fenced without overflowing the table is covered by the next save |
| `Replay.ShutdownIsFresh` | src/coordinator.cpp:836-917 | Fencing, without overflowing the table, every publisher whose newest sequence is not recorded yet, and then saving, leaves a file whose load forgets nothing |
| `Replay.SavedFileLoadsIff` | src/persistence.cpp:678-685 | A saved table loads if and only if durable and live boots together are within the bound |
| `Replay.OverfullSave` | src/persistence.cpp:1258-1291 | For every bound there is a run from the start whose save no load accepts |
| `Replay.RefusedReturnHidesLaterSequences` | src/observatory.cpp:720-752 | A refused return of a superseded boot makes the next save miss what the live boot accepts afterwards |
| `Replay.RefusedReturnReplays` | src/observatory.cpp:720-752 | There is a run from the start, with a refused return, a save and a load, in which one sequence of one boot is accepted in two incarnations |
| `Replay.FenceKills` | src/observatory.cpp:809-855 | A fenced boot whose entry is kept is dead |
| `Replay.SupersessionKills` | src/observatory.cpp:720-804 | A boot superseded by a registration is dead |
| `Replay.DeadForever` | src/observatory.cpp:706-804 | A dead boot is never current, never registered again and never accepted while its entry is kept and currentness is enforced, as by default |
| `ExactlyOnce.AcceptedTwiceOnlyFarApart` | src/observatory.cpp:86-157 | Over all clean runs with restarts, a sequence accepted twice is accepted in one incarnation, a window apart, with a smaller one between |
| `Cycles.RunRecords` | src/coordinator.cpp:144-153 | In every clean run the newest sequence of a publisher that is not live stays on record |
| `Cycles.OrderlyNeverReplays` | src/coordinator.cpp:836-917 | Over any number of incarnations that work, fence what is still live, save and load, no sequence of an earlier incarnation is accepted again, and a repeat within one lies a window apart |
| `Counter.CounterRecord.Ingest` | src/observatory.cpp:1212-1300 | The branches on kind, wrap and reset are the specified sample, and no intermediate value leaves 64 bits |
| `Counter.StoredTotal` | src/observatory.cpp:1295-1300 | The stored total is the exact sum cut off at 64 bits, flagged exactly when it was cut |
| `Counter.WrappingReconstruction` | src/observatory.cpp:1263-1286 | For in-order readings of a monotone source the total never exceeds the true increase, and equals it if and only if every step is read in full |
| `Counter.HalfRangeIsEnough` | src/observatory.cpp:1270-1273 | Steps of at most half the range are read in full |
| `Counter.RestartsNeverOverstate` | src/observatory.cpp:1254-1286 | For differenced kinds that do not wrap, the total never exceeds the true increments, wherever the source restarts |
| `Counter.ArrivalOrder` | src/observatory.cpp:1263-1290 | For differenced kinds that do not wrap and readings in any order, the total is the sum of the rises, the first reading plus it is at least the largest reading, and is it if and only if no rise follows a fall |
| `Counter.LateReadingOvercounts` | src/observatory.cpp:1288-1290 | A late reading makes the next one count its difference twice, for every such kind |
| `Aggregate.AddInPlace` | src/aggregate.cpp:163-264 | Field-by-field accumulation is the specified addition, with overflow reported exactly |
| `Aggregate.FoldMeans` | src/aggregate.cpp:163-264 | A bucket's totals are the cut-off sums, its span the extreme timestamps, its precision the weakest, its reality flags what was contributed |
| `Aggregate.RealityIsUnanimous` | src/aggregate.cpp:50-55 | A bucket is real or synthetic exactly when every contribution is, and mixed otherwise |
| `Aggregate.OrderIndependent` | src/aggregate.cpp:163-264 | Permuting contributions changes no total, flag, timestamp, precision rank or reality |
| `Aggregate.RemoteTotalsNest` | src/aggregate.cpp:132-161 | Remote reads and writes are at most remote accesses, and those at most observations |
| `Aggregate.PrecisionsPartition` | src/aggregate.cpp:163-264 | The counts per precision add up to the observations |
| `AggregateStore.StoreRefinesLog` | src/aggregate.cpp:163-180 | Every bucket is the fold of everything routed to its key; a refused key stays refused; the refusal count is exact |
| `AggregateStore.Conservation` | src/aggregate.cpp:271-299 | Per dimension, observations held plus updates refused are the updates made, while nothing is saturated or the count fits 64 bits |
| `AggregateStore.DimensionsAgree` | src/state.cpp:68-83 | On each of the ten dimensions held and refused add up to the observations counted, and all agree when nothing was refused, while nothing is saturated or the count fits 64 bits |
| `AggregateStore.Aggregates.Accumulate` | src/aggregate.cpp:163-264 | The in-place update of the bounded bucket map, refusing exactly new keys of a full store |
| `AggregateStore.Aggregates.TotalIn` | src/aggregate.cpp:271-299 | The loop over buckets with its early exit returns the cut-off sum over the dimension |
| `Attribution.RegionsForWorkload` | src/attribution.cpp:102-116 | The candidate loop finds distinct live regions of the workload, all of them up to one past the bound |
| `Attribution.LocalityOfLinks` | src/topology.cpp:9-24 | The scan returns the locality of the first link joining the ends |
| `Attribution.Attribute` | src/attribution.cpp:182-436 | The early returns and locality bookkeeping deliver the specified outcome and locality |
| `Attribution.RegionTable.Register` | src/observatory.cpp:487-558 | Registration of a region, with every refusal, never takes (generation, retired) backwards |
| `Attribution.RegionTable.Retire` | src/observatory.cpp:560-585 | Retirement, with every refusal; afterwards the generation is passed |
| `Attribution.PassedNeverCounts` | src/attribution.cpp:250-266 | Evidence of a known publisher naming a region at a passed generation does not count, under the default check of region currentness |
| `Evidence.EvidenceLog.Aggregate` | src/state.cpp:72-83 | The loop over the dimensions makes ten updates and counts those refused |
| `Evidence.EvidenceLog.MakeRoom` | src/state.cpp:104-114 | The eviction loop removes the oldest region still tracked, skipping stale queue entries |
| `Evidence.EvidenceLog.Apply` | src/state.cpp:68-154 | Applying an observation in place is the specified step and keeps the queue an enumeration of the tracked regions |
| `Evidence.EvidenceIsFaithful` | src/state.cpp:68-154 | In every run aggregates are the fold of the counted observations, the journal is the last entries with the rest counted as dropped, and every tracked region holds its last samples with total equal to held plus evicted |
| `Evidence.HistorySince` | src/state.cpp:102-150 | A region's history is every relevant sample since the entry that brought it under tracking, and it has been tracked without a break since |
| `Observatory.Runtime.Ingest` | src/observatory.cpp:911-1067 | Structural check, authority, sequencing, attribution and application of an event are one step of the whole machine |
| `Observatory.Runtime.IngestCounter` | src/observatory.cpp:1129-1382 | A counter sample commits its sequence before capacity and width are checked, goes through its record in place, becomes evidence, and is answered with its delta or the error that refused it |
| `Observatory.RunIsFaithful` | src/observatory.cpp:1019-1066 | Under every interleaving of actions the evidence is exactly what the log of applied observations calls for |
| `Observatory.RegionsGrow` | src/observatory.cpp:487-585 | No run takes a region's (generation, retired) pair backwards |
| `Observatory.PassedEvidenceNeverCounts` | src/observatory.cpp:1361-1380 | Once a generation is retired or passed, no later event or counter sample naming it or an earlier one changes an aggregate or a region ring, under the default check of region currentness |
| `Observatory.RunProjects` | src/observatory.cpp:911-1067 | The registry of a run is that of its authority protocol, and everything applied was accepted by it |
| `Observatory.DeadBootLeavesNoEvidence` | src/observatory.cpp:923-955 | Nothing a dead boot publishes is applied while its entry is kept and currentness is enforced, as by default |
| `Gate.InterleavingsBalance` | src/observatory.cpp:1085-1127 | Under every limit that leaves room for a full batch, in every interleaving the pending count is the events in flight, within the limit, and the four outcome counts of a batch add up to its size |
| `Gate.GateHoldsIff` | src/observatory.cpp:1088-1095 | The count is kept by every interleaving if and only if the limit plus a full batch fits a machine word |
| `Gate.FenceSparesLaterBoots` | src/observatory.cpp:857-871 | Whatever happens between sampling and striking, a boot that took over is not fenced |
| `Gate.Gatekeeper.IngestBatch` | src/observatory.cpp:1077-1127 | An uninterrupted batch, with its refusals, tallies every event once and restores the pending count |
| `StateFile.WriteState` | src/persistence.cpp:1377-1395 | The buffer filled in place is header, payload and trailer |
| `StateFile.StateRoundTrip` | src/persistence.cpp:897-949 | A written file is parsed back whole exactly when its payload is within the bound |
| `Syndrome.OneByte` | src/persistence.cpp:919-928 | A changed first reserved byte leaves the low byte of the header checksum alone in exactly three cases |
| `Syndrome.TwoBytes` | src/persistence.cpp:919-928 | A change of the first two reserved bytes always reaches the two low bytes of the header checksum |
| `Syndrome.ThreeBytes` | src/persistence.cpp:919-928 | A change of the first three reserved bytes always reaches the three low bytes of the header checksum |
| `Corruption.SealedIff` | src/persistence.cpp:919-928 | For any change of the checksum field and the reserved bytes, the header checksum still matches if and only if the one change is the image of the other |
| `Corruption.BurstLoadsIff` | src/persistence.cpp:897-1045 | A change within four consecutive bytes that reaches past the last four is loaded if and only if it is one of three patterns on bytes 49 to 52, and then the load is the same |
| `Corruption.SilentChangeExists` | src/persistence.cpp:919-928 | Every accepted file has a different one, four bytes away, that is accepted as the same |
| `StateFile.CorruptByteDetectedIff` | src/persistence.cpp:897-949 | A single corrupted byte is detected if and only if it is not among the last four |
| `Sections.BuildSection` | src/persistence.cpp:110-122 | The buffer filled in place is the section encoding |
| `Sections.LoadSections` | src/persistence.cpp:954-1037 | The loop with its moving offset, set of seen types, staging on top of earlier sections and record count agrees with the specification, in its errors too |
| `Sections.SectionsRoundTrip` | src/persistence.cpp:954-1037 | A list of sections is recovered, and its records counted, exactly when its types are known and distinct and every body is accepted after those before it |
| `Sections.SectionsCanonical` | src/persistence.cpp:954-1037 | Every accepted payload is the concatenation of the loadable sections returned |
| `Sections.SavedFileLoadsIff` | src/persistence.cpp:897-1045 | A file written from sections loads to the same header and sections if and only if they fit, are loadable, include the meta section, add up to the record count and refer to each other properly |
| `Payload.PayloadWriter.Integer` | src/protocol.cpp:333-356 | The pushing loop appends the little-endian bytes |
| `Payload.PayloadWriter.Text` | src/protocol.cpp:369-377 | Bounded text is appended with its length, or refused and nothing appended |
| `Payload.PayloadReader.Integer` | src/protocol.cpp:381-424 | A read advances by exactly its width, or fails and does not move |
| `Payload.PayloadReader.Text` | src/protocol.cpp:448-464 | Text is read with both its bounds, consuming exactly its bytes |
| `Payload.TakePutText` | src/protocol.cpp:369-464 | Text written is read back and what follows is left unread |
| `Wire.SortedMetadata` | src/observation.cpp:81-86 | Sorted metadata is a permutation ordered by key, still within every bound |
| `Wire.TakePutResource` | src/wire.cpp:35-69 | A resource reference is read back |
| `Wire.TakePutMetadata` | src/wire.cpp:123-159 | Metadata is read back sorted |
| `Wire.ObservationRoundTrip` | src/wire.cpp:404-617 | A structurally valid observation comes back with metadata sorted and the rest unread, if and only if its locality is one the reader knows |
| `Wire.UnreadableExists` | src/observation.cpp:250-252 | There is a structurally valid observation whose encoding the reader refuses |
| `Wire.BatchRoundTrip` | src/coordinator.cpp:311-335 | A batch is recovered in order when its size and localities are acceptable, and refused otherwise |
| `WireIo.ReadMetadata` | src/wire.cpp:132-159 | The loop over entries follows the codec on values |
| `WireIo.ReadObservation` | src/wire.cpp:463-617 | Reading field by field off the cursor follows the codec on values, in its errors too |
| `WireIo.ReadBatch` | src/coordinator.cpp:311-335 | Count, loop and exhaustion check follow the codec on values |
| `WireIo.WriteMetadata` | src/wire.cpp:123-130 | The loop appends exactly the metadata encoding |
| `WireIo.WriteObservation` | src/wire.cpp:404-461 | Writing appends exactly the observation encoding, or is refused if and only if some name is too long |
| `WireIo.ValidIsWritable` | src/wire.cpp:404-461 | No structurally valid observation is refused |
| `Watermarks.ListTable` | src/persistence.cpp:1276-1288 | The table is written entry by entry in key order, each once |
| `Watermarks.TableRoundTrip` | src/persistence.cpp:678-738 | A table is read back exactly, in whatever order it was written, or refused when it is too large |
| `Watermarks.SavedTablesRoundTrip` | src/persistence.cpp:1255-1291 | In every run the bytes of the last save give back exactly the table saved, or are refused for its size |
| `Burst.BurstScan` | src/analysis.cpp:902-936 | For a non-negative window the scan finds the exact maximum over all closed windows, and, for a threshold of at least one, counts a burst exactly when the maximum reaches the threshold |
| `PingPong.LongestRun` | src/analysis.cpp:536-560 | The scan finds the first longest linked run |
| `PingPong.TrimToWindow` | src/analysis.cpp:564-575 | Trimming keeps the longest tail that spans at most the window |
| `PingPong.Detect` | src/analysis.cpp:509-598 | Among at least two samples, a finding is returned exactly when a reportable window exists |
| `PingPong.SameEndpoints` | src/analysis.cpp:541-555 | Every sample of a run joins the same two endpoints |
| `PingPong.ReportedIsPingPong` | src/analysis.cpp:561-598 | A reported window is linked, spans at most the window, is long enough, and has at most two participants |
| `PingPong.ReportedIff` | src/analysis.cpp:536-598 | Something is reported if and only if the earliest longest run is long enough, its last samples span at most the window, and its two ends are enough participants |
| `PingPong.MissedIff` | src/analysis.cpp:536-598 | A run that meets every threshold goes unreported if and only if the last samples of the longest run are too slow or its ends too few |
| `PingPong.NeverMoreThanTwo` | src/analysis.cpp:576-598 | Asking for more than two participants never reports |
| `PingPong.QuickPairMissed` | src/analysis.cpp:536-575 | Two quick alternations are missed when a longer, slower run follows |

## Left out

- Sockets, files, threads, clocks and the poll loop: foreign effects. Chunks, receive errors, timestamps and saved bytes are parameters.
- The client library, command line, rendering, explanations, cost estimates, rates and hotspot shares.
- Content hashes and state fingerprints: a hash is a value that comes with each event or sample, so the results hold for any hash.
- Records of stale evidence and most loss counters, which only report what other results already state.
- Registration of nodes, processors, accelerators, domains, links and capabilities: any change to them is one arbitrary step of a run.
- Codecs of counter publications, resource records and the sections other than watermarks, which repeat shapes proved here. What a section's reader makes of its body, given the sections before it, is a parameter; so are the referential checks at the end of a load.
- Message roles and the handshake: what is done with a frame is a parameter that says, from all frames dispatched so far, whether the session ends.
- Authority.Coordinator.RegisterPublisher: does not model the checks of observer, node, display name and provenance or those fields of the record, because no later decision reads them.
- Authority.Coordinator.FencePublisherBoot: does not model the refusal of an over-long detail text or the record of stale evidence.
- Authority.Coordinator.IngestOne: does not model the counters of losses and rejections.
- Authority.Coordinator.LoadSaved: restores epoch, publishers and watermarks only, because replay depends on nothing else that is restored.
- Counter.CounterRecord.Ingest: does not model discontinuity reports, timestamps and the descriptor fields that no delta depends on.
- Attribution.Attribute: delivers outcome and locality without reasons, bindings, target and candidate lists.
- Observatory.Runtime.Ingest: reports one error code for every structural defect and no record of stale evidence, because only the fact of refusal matters to the other results.
- Observatory.Runtime.IngestCounter: reports one error code for every structural defect.
- Observatory.PassedEvidenceNeverCounts: runs without a load, because a load replaces the region catalogue.
- StateFile.StateRoundTrip: computes the expected file size without wrap-around, so it does not model a configured bound within 80 bytes of 2^64.
- Counters of samples, wraps, resets and losses are unbounded integers; their 64-bit wrap-around is not modelled. Sequence numbers, watermarks, byte counts and totals are 64-bit.
