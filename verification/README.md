# Kodama, modelled and proved in Dafny

Kodama is a camera relay: cameras push H.264 frames through a server to clients and to
storage. Most of its code moves bytes between concurrent workers; a few dense state machines
decide what is kept, dropped, stored, answered and forwarded. This project models those machines and
proves what they promise over every input and every run. Check it with
`dafny verify dfyconfig.toml`.

How it is laid out. Each machine has a specification on values (functions and step
functions), an imperative form that follows the Rust code (classes whose methods update
fields, loops with invariants) proved equal to it, and theorems about whole runs of the
specification.

| files | what they model |
|---|---|
| `Bytes`, `Seqs`, `Frames`, `FrameCodec` | byte orders, frames, the frame encoding and its length-prefixed stream |
| `NalSpec`, `NalParser` | the incremental Annex B parser and the quick keyframe scan |
| `FrameBuffer`, `Backpressure` | the drop-policy buffer, and the sender that puts it before a bounded channel |
| `StorageSpec`, `StorageCodec`, `StorageViews`, `StorageRefinement`, `StorageCleanup`, `StorageQueries`, `StorageRuns`, `StorageWindows`, `StorageTotals`, `StorageRebuild`, `StorageOverlay`, `StorageReopen`, `LocalStorage` | segmented storage over a map of files, refined to a list of frames |
| `Commands`, `CommandInvariants`, `CommandCorrelation`, `CommandSlots`, `CommandHolders`, `CommandEntries`, `CommandRuns`, `CommandDelivery`, `CommandClients`, `CommandLoops` | request and response routing between clients, callers and cameras, interleaved step by step |
| `Peers` | the generation-guarded peer registry |
| `RateLimit`, `CameraLoop`, `CameraChecks` | the rate limiter, and the camera loop that owns one |
| `Abr`, `Throughput` | the bitrate controller and the sliding-window throughput |
| `Fmp4`, `Fmp4Runs` | the MP4 box walk and the init/media splitter |

Premises that are stated where they are used: time does not run backwards; storage starts
empty and `segment_duration_us` is not zero; a stored frame has a channel that decoding can
produce and a length below 2^32; a stream gives out fewer than 2^32 command ids. Hash maps
are visited in an arbitrary order, which methods return as a ghost result. Clocks, FFmpeg,
the channel's receiver, failing deletions and failing sends are parameters.

## What the proofs say about the code

Some properties one would expect do not hold as they stand. Each is proved here in the form
that does hold, with the exact condition.

- **Keyframe scan.** `contains_keyframe` stops four bytes before the end, so it misses a
  one-byte IDR unit behind a final three-byte start code; and a parser that saw no start code
  at all takes its whole buffer for one unit on `flush`. `NalSpec.ScanAgainstParse` is the
  exact difference on all inputs.
- **Wire bound.** `write_frame` bounds the payload by 2 MiB, `read_frame` bounds header plus
  payload (mux/frame.rs:71 and 99), so the largest 18 payload sizes are written and never
  read (`FrameCodec.WireRoundTrip`).
- **The backpressure sender is no FIFO.** Two things break the order: a frame that the full
  channel refuses goes back to the tail of the buffer (muxer.rs:239, counted as received
  again), and when the channel takes the new frame after it refused a buffered one, the new
  frame passes it (muxer.rs:219-223), even if that one is alone in the buffer. One send keeps
  the order and loses nothing exactly when, for a frame taken directly, nothing is left in the
  buffer or its first frame is the same one, and for a frame that is buffered, there is room
  and all that is left is equal (`Backpressure.SendKeepsOrderExactly`; over runs,
  `Backpressure.RunKeepsOrderExactly`). `Backpressure.NotFifo` is a failing run over a channel
  of bound one.
- **Storing out of order.** `truncate(true)` (local.rs:192) empties the file of a window whose
  segment is closed when a frame of that window arrives: the earlier frames are lost, and the
  new one is returned once more for every segment of the window
  (`StorageReopen.ReopenedWindowLosesFrames`, as a run `StorageReopen.FlushedWindowLosesFrame`).
  The end bound of a segment is the last frame's time, not the latest (local.rs:283), so an older
  frame in the open window hides newer ones (`StorageReopen.OlderFrameHidesNewer`). For every
  run of stores, at any times, and flushes, and then a flush, all queries answer rightly exactly
  when the newest group of each window, once for each time that the window was opened, give
  the same sorted list as all that was written, and lie within the bounds of every group of
  the window (`StorageReopen.RunAnswersExactly`); when no window was opened twice, exactly when
  the frames of each segment lie between its first and its last
  (`StorageReopen.OnceOpenedExactly`). `StorageReopen.StoreAnswersExactly` and
  `StorageReopen.StoreKeepsAllExactly` are the conditions for one frame more.
- **Rebuilding while a segment is open.** A file with its placeholder header is read as a
  segment that the live index does not have. With any part of each open file on disk,
  rebuilding agrees with the live index exactly when no open file has all 20 bytes of its
  header on disk yet (`StorageRebuild.RebuildExactly`).
- **A torn record.** A file that was cut inside a record fails to parse exactly when at least
  four bytes of the record are there (`StorageCodec.TornRecord`), and a query fails as a whole
  exactly when a segment that overlaps its range cannot be read
  (`StorageQueries.QueryFailsExactly`).
- **Peer counters.** A key that comes back in another role while its entry is there is not
  recounted (router.rs:200), and its removal wraps the other counter below zero
  (`Peers.RoleChangeUnderflows`). After every run the counters are off, one up and one down, by
  the cameras that so turned into clients less those that turned back (`Peers.DriftInEveryRun`),
  so they are right all along exactly when no insertion changes an entry's role
  (`Peers.CountersExactly`).
- **Abuse seconds are not seconds.** The check runs every 30 frames (router.rs:322-333), not
  once a second, and `abuse_threshold_secs` counts those checks. Under no configuration, and at
  no time, is there a stretch of time, however short, that every disconnect takes: exactly 0 ms
  is a bound (`CameraLoop.DisconnectTakesNoTime`; under the default limits 420 frames in one
  millisecond are enough, `CameraLoop.DisconnectedWithinAMillisecond`). A disconnect comes
  exactly when as many checks in a row each find a dropped frame in their second or the one
  before (`CameraChecks.DisconnectedExactly`). That takes 30 frames for each check
  (`CameraLoop.DisconnectNeedsFrames`), and a stretch of time when frames thirty apart are
  checked a second apart (`CameraLoop.DisconnectNeedsTime`).
- **Rate windows.** Windows can meet inside an interval, so more than the limit per second can
  pass. The exact maximum is proved for every class, limit and length of interval: the limit
  times ceil((L - 1) / 1000) + 1 in L ms (`RateLimiting.RateBoundExactly`). A second can
  always carry twice the limit, and stays within the limit only if that is zero
  (`RateLimiting.SecondBoundIsTight`).
- **ABR bands.** The module comment and `upgrade_threshold_bps` speak of 80 % of the next
  tier, while `evaluate` upgrades at 90 % of the current one (abr.rs:11-13, 47-51, 205). With
  constant throughput in [0.9 b, b) of a tier below High the controller can go up and down any
  number of times, under every configuration (`Abr.BandAlternates`), so the changes at a
  constant throughput are bounded exactly when it lies outside these bands
  (`Abr.ChangesBoundedExactly`).
- **Command registry.** A reader that ends removes its camera's entry without comparing
  streams (router.rs:509), so a camera that reconnected loses its new entry
  (`CommandEntries.ReconnectLosesEntry`). In every run the entry names the camera's latest
  connection, unless a reader of any of its streams ended after it
  (`CommandEntries.EntryInEveryRun`); so a new call is refused exactly when a reader of the
  camera ended after its latest connection, or it never connected, and otherwise goes to that
  connection (`CommandEntries.RefusedExactly`); correlation is not affected. The error "Camera
  disconnected while waiting for response" (router.rs:547) cannot occur while ids last: the
  shared state of a stream is kept alive by the registry, the reader and every caller from its
  lookup to its end, so a waiting caller keeps its own sender, and a lost camera shows as a
  timeout (`CommandRuns.LiveCallsHold`, `CommandRuns.NeverDisconnected`).

## Model

Paths are relative to the repository's root.

| member | source | states |
|---|---|---|
| `Frames.ChannelByteRoundTrip` | crates/kodama/src/frame.rs:64-86 | the channel byte mapping round-trips for exactly the channels that decoding can produce |
| `Bytes.BigEndianRoundTrip` | crates/kodama/src/transport/mux/frame.rs:22-35 | big-endian fields read back, for every value that fits the width |
| `Bytes.BigEndianOrder` | crates/kodama/src/transport/mux/frame.rs:22-35 | the first byte of a big-endian field counts most |
| `Bytes.LittleEndianOrder` | crates/kodama/src/storage/local.rs:214-241 | the last byte of a little-endian field counts most |
| `FrameCodec.Layout` | crates/kodama/src/transport/mux/frame.rs:22-35 | where each field of an encoded frame lies, the byte of each channel, and the keyframe flag in the lowest bit of byte 9 |
| `FrameCodec.EncodeDecode` | crates/kodama/src/transport/mux/frame.rs:22-67 | decoding an encoded frame always succeeds, and gives it back if and only if its channel is canonical |
| `FrameCodec.DecodeEncode` | crates/kodama/src/transport/mux/frame.rs:38-67 | the buffers that decode are those with room for a header, and encoding the result gives the very bytes back |
| `FrameCodec.FrameToBytes` | crates/kodama/src/transport/mux/frame.rs:22-35 | the appending encoder builds the specified bytes |
| `FrameCodec.FrameFromBytes` | crates/kodama/src/transport/mux/frame.rs:38-67 | the cursor decoder agrees with the specification, errors included |
| `FrameCodec.WireRoundTrip` | crates/kodama/src/transport/mux/frame.rs:70-120 | a written frame is read back, leaving the following bytes, if and only if its channel is canonical and its payload is at most 2 MiB less 18 bytes |
| `FrameCodec.WrittenButUnreadable` | crates/kodama/src/transport/mux/frame.rs:71-99 | there is a frame that the writer accepts and the reader rejects |
| `FrameCodec.WireStreamRoundTrip` | crates/kodama/src/transport/mux/frame.rs:70-120 | a stream of readable frames is read back frame for frame |
| `FrameCodec.WriteFrame` | crates/kodama/src/transport/mux/frame.rs:70-90 | a rejected frame writes nothing; otherwise exactly its encoding is appended |
| `FrameCodec.ReadFrame` | crates/kodama/src/transport/mux/frame.rs:93-120 | the reader's result and what it leaves on the stream, errors included |
| `NalSpec.HeaderIsParsed` | crates/kodama/src/capture/h264.rs:42-113 | reference importance and type number make up the header byte; the types 1 to 12 have the names of Table 7-1 of ITU-T H.264, and type 5 alone is a keyframe |
| `NalSpec.SplitAppend` | crates/kodama/src/capture/h264.rs:150-181 | a pass over `a + d` is a pass over `a`, then one over what that left followed by `d`, wherever the cut falls |
| `NalSpec.ChunkingIndependence` | crates/kodama/src/capture/h264.rs:136-181 | any two ways of cutting one stream, neither hitting the reset, give the same units and leave the same buffer, which are those of one pass over the whole stream |
| `NalSpec.ShortStreamsNeverReset` | crates/kodama/src/capture/h264.rs:136-147 | no cutting of a stream within the buffer limit hits the reset |
| `NalSpec.EmittedHoldNoStartCode` | crates/kodama/src/capture/h264.rs:150-181 | no unit emitted by `feed` contains 00 00 01, for any input |
| `NalSpec.AnnexBRoundTrip` | crates/kodama/src/capture/h264.rs:136-244 | units that meet section 7.4.1 of ITU-T H.264, joined with any mix of start codes, come back as exactly that list |
| `NalSpec.AnnexBRoundTripInChunks` | crates/kodama/src/capture/h264.rs:136-244 | the same through any cutting of the stream into chunks |
| `NalSpec.ParseFindsIdrCode` | crates/kodama/src/capture/h264.rs:136-244 | given a start code, the full parse yields an IDR unit if and only if some start code is followed by an IDR header |
| `NalSpec.ScanAgainstParse` | crates/kodama/src/capture/h264.rs:255-274 | on every input: when the full parse finds a keyframe, in terms of the quick scan and the two kinds of buffer where they differ |
| `NalSpec.ScanEqualsParse` | crates/kodama/src/capture/h264.rs:255-274 | within the limit, with a start code and a last unit of two bytes or more, the quick scan equals the full parse |
| `NalSpec.ScanMisses` | crates/kodama/src/capture/h264.rs:260-274 | a four-byte input whose keyframe the scan misses |
| `NalParsing.NalParser.FeedData` | crates/kodama/src/capture/h264.rs:136-147 | the units returned and the buffer left are those of the specification, reset included |
| `NalParsing.NalParser.ExtractNals` | crates/kodama/src/capture/h264.rs:150-181 | the extraction loop ends, and equals the recursive pass |
| `NalParsing.NalParser.FindStartCode` | crates/kodama/src/capture/h264.rs:184-206 | the search finds the first start code at or after the offset, or there is none |
| `NalParsing.NalParser.FlushRest` | crates/kodama/src/capture/h264.rs:223-244 | the last unit, with the buffer left empty |
| `NalParsing.ContainsKeyframe` | crates/kodama/src/capture/h264.rs:255-274 | the scan loop returns true if and only if a start code in its range is followed by an IDR header |
| `NalParsing.ParseInChunks` | crates/kodama/src/capture/h264.rs:136-244 | the stateful parser over any chunks gives the units of the whole stream |
| `FrameBuffers.PushConserves` | crates/kodama/src/transport/mux/muxer.rs:65-109 | a push neither loses nor duplicates a frame, drops one at most, and drops a keyframe only for a keyframe arriving at a full buffer of keyframes |
| `FrameBuffers.PushAcceptsExactly` | crates/kodama/src/transport/mux/muxer.rs:65-109 | a frame is refused if and only if the buffer is full of keyframes and it is none; an accepted one is the newest, and another goes exactly when there was no room |
| `FrameBuffers.PushAllIsKept` | crates/kodama/src/transport/mux/muxer.rs:65-109 | closed form, for every capacity and push-only run: the arrival-ordered subsequence of the last min(C,K) keyframes and the last min(N, C - min(C,K)) others |
| `FrameBuffers.SurvivorsByKind` | crates/kodama/src/transport/mux/muxer.rs:65-109 | the survivors of each kind are a suffix of the arrivals of that kind, of the stated length |
| `FrameBuffers.FrameBuffer.FindDroppableNonKeyframe` | crates/kodama/src/transport/mux/muxer.rs:144-151 | the oldest frame that is no keyframe, or none |
| `FrameBuffers.FrameBuffer.DropAt` | crates/kodama/src/transport/mux/muxer.rs:154-170 | removes that frame; `last_keyframe_idx` stays the position of the last keyframe, or is cleared with the indexed one, which is right if and only if no older keyframe is buffered |
| `FrameBuffers.FrameBuffer.DropOldest` | crates/kodama/src/transport/mux/muxer.rs:173-189 | removes the oldest frame, index and counters kept right |
| `FrameBuffers.FrameBuffer.PushBack` | crates/kodama/src/transport/mux/muxer.rs:65-109 | the in-place push is the specified one, with the index, the counters and the frames dropped |
| `FrameBuffers.FrameBuffer.Pop` | crates/kodama/src/transport/mux/muxer.rs:112-126 | the oldest frame leaves, and the index stays right |
| `Backpressure.FrameConservation` | crates/kodama/src/transport/mux/muxer.rs:196-248 | over any interleaving of sends with a draining receiver, the frames given are, as a multiset, those in the channel, those buffered and those dropped |
| `Backpressure.PutBackNeverDrops` | crates/kodama/src/transport/mux/muxer.rs:233-248 | a refused frame always fits back, and goes to the tail |
| `Backpressure.RotateKeepsOrder` | crates/kodama/src/transport/mux/muxer.rs:239-240 | the put-back alone keeps the order of the buffer if and only if all its frames are the same |
| `Backpressure.SendKeepsOrderExactly` | crates/kodama/src/transport/mux/muxer.rs:217-248 | for every state and outcome of one send: when channel and buffer together keep the order and lose nothing |
| `Backpressure.RunKeepsOrderExactly` | crates/kodama/src/transport/mux/muxer.rs:217-248 | over whole runs the frames stand in the order given at every moment if and only if every send is orderly |
| `Backpressure.InOrderChannelIsPrefix` | crates/kodama/src/transport/mux/muxer.rs:217-248 | and then the channel gets a prefix of the frames given |
| `Backpressure.NotFifo` | crates/kodama/src/transport/mux/muxer.rs:217-248 | a run that a channel of bound one allows, in which nothing is dropped and a frame overtakes the one frame in the buffer |
| `Backpressure.BackpressureSender.FlushBuffer` | crates/kodama/src/transport/mux/muxer.rs:233-248 | a prefix of the buffer goes out in order, the rest is rotated by the put-back, and what an error loses is named |
| `Backpressure.BackpressureSender.Send` | crates/kodama/src/transport/mux/muxer.rs:217-230 | the send is the specified step, its outcomes are ones the channel allows, and a closed channel loses one frame at most |
| `StorageCodec.RecordsParse` | crates/kodama/src/storage/local.rs:263-335 | the records written to a segment parse back as exactly its frames |
| `StorageCodec.SegmentFileLayout` | crates/kodama/src/storage/local.rs:214-279 | a segment file on disk: 20 bytes of little-endian times and count, then each encoded frame behind its length |
| `StorageCodec.TornRecord` | crates/kodama/src/storage/local.rs:312-325 | a file cut inside a record fails to parse if and only if at least four bytes of the record are there |
| `StorageCodec.SegmentFileIndexed` | crates/kodama/src/storage/local.rs:406-425 | the header and length of a finished file read back as its index entry |
| `StorageViews.StoreViewOk` | crates/kodama/src/storage/local.rs:166-211 | storing an allowed frame keeps the groups in time order, one window each |
| `StorageRefinement.StoreRep` | crates/kodama/src/storage/local.rs:166-288 | storing a frame changes the files, index and writer of its source as it changes the list of groups |
| `StorageRefinement.StoreFrameFrame` | crates/kodama/src/storage/local.rs:263-288 | it changes nothing of any other source |
| `StorageRefinement.FlushRep` | crates/kodama/src/storage/local.rs:244-259 | a flush in any order closes the open segments of the sources it visits and nothing else |
| `StorageCleanup.CleanSegmentsRep` | crates/kodama/src/storage/local.rs:342-366 | cleaning a source removes exactly the entries and files of the expired groups |
| `StorageCleanup.CleanupRep` | crates/kodama/src/storage/local.rs:342-370 | so does a cleanup of any sources in any order with any failing deletions, and open segments are safe |
| `StorageRuns.RunRep` | crates/kodama/src/storage/local.rs:166-370 | after every safe run over any sources, the store represents each source's groups |
| `StorageQueries.ReadSegmentsRep` | crates/kodama/src/storage/local.rs:304-335 | reading only the segments whose bounds overlap a range gives all frames in it |
| `StorageQueries.QueryFailsExactly` | crates/kodama/src/storage/local.rs:304-335 | a query fails if and only if a segment that overlaps its range cannot be read |
| `StorageQueries.SkippingExactly` | crates/kodama/src/storage/local.rs:304-307 | skipping one segment by its bounds is right for every range if and only if all frames of its file lie between the first and the last that were written |
| `StorageQueries.SortFilters` | crates/kodama/src/storage/local.rs:304-340 | filtering by time and the stable sort commute |
| `StorageQueries.QueriesExactly` | crates/kodama/src/storage/local.rs:290-340 | finished segments, whatever their files hold, answer every query as a filter and a sort of a given list if and only if their contents sort to the same list and each lies within its segment's bounds |
| `StorageRuns.QueryIsFilter` | crates/kodama/src/storage/local.rs:290-340 | a query is a filter over the finished frames, in stored order |
| `StorageRuns.StorageRefinesList` | crates/kodama/src/storage/local.rs:166-340 | after any safe run of stores, flushes and cleanups and a flush, a query from a time no cleanup cut off returns exactly the stored frames in range, in order, byte for byte |
| `StorageRuns.QueryFindsExactly` | crates/kodama/src/storage/local.rs:290-340 | after any safe run and a flush each frame is found as often as it was recorded if its time is in range, both ends included, and in order of time |
| `StorageRuns.OpenSegmentIsInvisible` | crates/kodama/src/storage/local.rs:290-340 | without the flush, exactly the frames of the open segment are missing |
| `StorageRuns.CleanupKeepsNewer` | crates/kodama/src/storage/local.rs:342-370 | a cleanup changes no query whose range starts at or after its cutoff |
| `StorageWindows.SegmentsAreIntervals` | crates/kodama/src/storage/local.rs:158-164 | in every run of stores at any times, flushes and cleanups, the frames of a segment lie in one interval of the segment duration, whose start names the file |
| `StorageWindows.SegmentsBreakExactly` | crates/kodama/src/storage/local.rs:166-211 | a frame continues the segment of the frame before it if and only if no flush came between them and both lie in one interval |
| `StorageWindows.QueryBeforeFlush` | crates/kodama/src/storage/local.rs:166-340 | after any safe run without a flush behind the newest frame, a query returns exactly the frames in range older than the newest frame's interval |
| `StorageWindows.CleanupRemovesExactly` | crates/kodama/src/storage/local.rs:342-370 | a cleanup keeps exactly the finished frames whose interval has a finished frame at or after the cutoff, or a file that cannot be deleted |
| `StorageTotals.TotalInEveryRun` | crates/kodama/src/storage/local.rs:214-241 | after every run, safe or not, `total_bytes` is the sum of the indexed sizes |
| `StorageTotals.CleanupTotal` | crates/kodama/src/storage/local.rs:342-370 | cleanup deletes no more than the total, so the saturating subtraction is exact |
| `StorageRebuild.DirectoryRebuilds` | crates/kodama/src/storage/local.rs:124-146 | scanning one directory in any order and sorting gives the live index of its source, if the file of its open segment, if any, is too short to be read |
| `StorageRebuild.RebuildAgrees` | crates/kodama/src/storage/local.rs:112-155 | after any safe run that left no segment open, rebuilding in any order gives the live index and the same total |
| `StorageRebuild.RebuildExactly` | crates/kodama/src/storage/local.rs:112-155 | after any safe run, with any part of each open file on disk, rebuilding gives the live segments and total if and only if no open file has its 20 header bytes on disk |
| `StorageRebuild.FlushClosesAll` | crates/kodama/src/storage/local.rs:244-259 | a flush takes exactly the writers of the sources it visits |
| `StorageOverlay.StoreOverlaid` | crates/kodama/src/storage/local.rs:166-288 | storing a frame of any time: groups in any order, windows opened any number of times, each file holding its window's newest group |
| `StorageOverlay.RepIsOverlaid` | crates/kodama/src/storage/local.rs:166-288 | a store whose frames came in order of time is one of these, with no window opened twice |
| `StorageReopen.QueriesInEveryRun` | crates/kodama/src/storage/local.rs:166-340 | after every run of stores at any times and flushes, what any query returns: of each group whose bounds overlap the range, what its window's file holds now |
| `StorageReopen.RunAnswersExactly` | crates/kodama/src/storage/local.rs:166-340 | after every such run all queries answer as the recorded frames if and only if the newest group of each window, once for each opening, give the same sorted list and lie within the bounds |
| `StorageReopen.OnceOpenedExactly` | crates/kodama/src/storage/local.rs:166-340 | where no window was opened twice: if and only if the frames of each segment lie between its first and its last |
| `StorageReopen.ReopenedWindowLosesFrames` | crates/kodama/src/storage/local.rs:189-193 | for every such store, a frame that opens its window anew erases what the window held and is returned once for each of its segments and once more; the others stay |
| `StorageReopen.StoreAnswersExactly` | crates/kodama/src/storage/local.rs:166-340 | for every such store and every frame, once it is stored and closed: when all queries answer as the frames written |
| `StorageReopen.StoreKeepsAllExactly` | crates/kodama/src/storage/local.rs:166-340 | if no window was opened twice before: if and only if all segments lie within their bounds and the frame does so in the open one, or opens a window without a segment, but for one with just that frame |
| `StorageReopen.FlushedWindowLosesFrame` | crates/kodama/src/storage/local.rs:189-193 | a run that loses a frame: store, flush, store in the same window, flush |
| `StorageReopen.OlderFrameHidesNewer` | crates/kodama/src/storage/local.rs:283-307 | a run that hides a stored frame: an older frame of its window comes after it |
| `LocalStorages.CleanOne` | crates/kodama/src/storage/local.rs:346-366 | deleting while noting positions, then removing in reverse order, is the filter of the specification |
| `LocalStorages.RemoveAllSnoc` | crates/kodama/src/storage/local.rs:363-366 | removals at ascending positions, last first, do not disturb what lies behind them |
| `LocalStorages.ReadSegment` | crates/kodama/src/storage/local.rs:309-334 | the record loop of one file gives the frames in range, or the error that parsing the file gives |
| `LocalStorages.LocalStorage.constructor` | crates/kodama/src/storage/local.rs:93-109 | opening a directory gives the index and total rebuilt from it, with no writer |
| `LocalStorages.LocalStorage.RebuildIndex` | crates/kodama/src/storage/local.rs:112-155 | the directory loops compute the specified rebuild for the order of the listings, with one entry list per directory |
| `LocalStorages.LocalStorage.GetOrCreateWriter` | crates/kodama/src/storage/local.rs:166-211 | keep, close or open the segment: the whole new state is the specified one |
| `LocalStorages.LocalStorage.FinalizeSegment` | crates/kodama/src/storage/local.rs:214-241 | header rewritten, entry and total added, writers as the caller left them |
| `LocalStorages.LocalStorage.StoreFrame` | crates/kodama/src/storage/local.rs:263-288 | the whole new state of a store is the specified one |
| `LocalStorages.LocalStorage.Flush` | crates/kodama/src/storage/local.rs:244-259 | each open segment is finalized once, none stays open |
| `LocalStorages.LocalStorage.GetFrames` | crates/kodama/src/storage/local.rs:290-340 | the nested loops return what the specified query returns, errors included |
| `LocalStorages.LocalStorage.Cleanup` | crates/kodama/src/storage/local.rs:342-370 | each indexed source is cleaned once, with the bytes deleted |
| `CommandInvariants.AdvanceKeepsIds` | crates/kodama/src/server/router.rs:458-554 | every step keeps each id with one call of its stream, and each call with a stream of its camera |
| `CommandHolders.NextKeepsMessages` | crates/kodama/src/server/router.rs:479-511 | every step keeps each request, execution and response under way traceable to the call that owns its id |
| `CommandSlots.AdvanceKeepsSlots` | crates/kodama/src/server/router.rs:515-554 | each filled oneshot keeps holding the result of that call's command, whatever streams and calls do |
| `CommandHolders.ReleaseKeepsHeld` | crates/kodama/src/server/router.rs:458-554 | when a holder lets go of a stream's state, the last one dropping its pending senders, no caller that has not ended loses its own |
| `CommandHolders.NextKeepsHeld` | crates/kodama/src/server/router.rs:458-554 | every step keeps each filled oneshot holding the camera's result for that call's command, no sender dropped under a live caller, and each live caller a holder of its stream's state |
| `CommandHolders.NextKeepsSending` | crates/kodama/src/server/router.rs:529-540 | every step keeps each id sent and carried out at most once |
| `CommandRuns.AnswersAreCorrelated` | crates/kodama/src/server/router.rs:515-554 | an answered call got the result of its very command, carried out once under its id by the camera it named, in every interleaving |
| `CommandRuns.PendingIdsAreDistinct` | crates/kodama/src/server/router.rs:529-533 | a pending entry is that of the only call with its id, and ids lie between 1 and the number given out |
| `CommandRuns.LiveCallsHold` | crates/kodama/src/server/router.rs:521-527 | in every run a caller between its lookup and its end holds the state of its stream |
| `CommandRuns.NeverDisconnected` | crates/kodama/src/server/router.rs:543-548 | while ids last, no sender is dropped under a waiting call and no call ends by it, whoever lets go of the stream |
| `CommandRuns.NextIdInEveryRun` | crates/kodama/src/server/router.rs:529 | in every run the next id counts those given out from 1, modulo 2^32 |
| `CommandRuns.EndedCallsStay` | crates/kodama/src/server/router.rs:542-553 | a call ends at most once: an ended call keeps its outcome however the run goes on |
| `CommandEntries.EntryInEveryRun` | crates/kodama/src/server/router.rs:458-511 | in every run a camera's entry is its latest connection, unless a reader of any of its streams ended after it or it never connected; then there is none |
| `CommandEntries.RefusedExactly` | crates/kodama/src/server/router.rs:521-527 | a new call is refused if and only if a reader of its camera ended after the latest connection, or there was none; otherwise it goes to that connection, whose reader runs |
| `CommandEntries.EntriesAreHeld` | crates/kodama/src/server/router.rs:458-511 | in every run each entry names a stream of its camera whose reader runs and holds the stream's state |
| `CommandEntries.StaleReaderCutsOff` | crates/kodama/src/server/router.rs:508-511 | after any run, once a reader ends, every new call to its camera is refused until the camera connects again, even if a newer stream of it is open |
| `CommandEntries.ReconnectLosesEntry` | crates/kodama/src/server/router.rs:508-511 | a run in which a reconnected camera loses its entry |
| `CommandDelivery.InHandInEveryRun` | crates/kodama/src/server/router.rs:479-533 | in every run a call that has entered its oneshot has in hand what its reader read under its id, and its entry while that is nothing |
| `CommandDelivery.PendingExactly` | crates/kodama/src/server/router.rs:479-551 | in every run the pending entries are those of the calls that entered, have not ended and for which nothing was read: none missing, none left behind |
| `CommandDelivery.AnsweredExactly` | crates/kodama/src/server/router.rs:542-553 | after every run a waiting call is answered with a response if and only if that was read under its id, and can time out if and only if none was |
| `CommandDelivery.ReadIsAnswered` | crates/kodama/src/server/router.rs:479-493 | a response that is read before the timeout answers its caller |
| `CommandDelivery.SentIsAnswered` | crates/kodama/src/server/router.rs:515-554 | from every reachable state: a command that is sent, carried out, replied to and read is answered with the camera's result for it |
| `CommandClients.RepliesFollowRequests` | crates/kodama/src/server/router.rs:560-623 | in every run a client's response ids are a prefix of its request ids, one behind at most |
| `CommandClients.ClientsGetTheirAnswers` | crates/kodama/src/server/router.rs:560-623 | each response is the result that the named camera gave to that very command, or one of four server errors |
| `CommandClients.FailuresAreKnown` | crates/kodama/src/server/router.rs:537-553 | a call that fails timed out or could not be sent |
| `CommandLoops.ReaderIsReceiveSteps` | crates/kodama/src/server/router.rs:479-506 | dispatching in a loop is a run of single receive steps |
| `CommandLoops.CommandState.FetchId` | crates/kodama/src/server/router.rs:529 | the counter hands out ids and wraps |
| `CommandLoops.CommandState.InsertEntry` | crates/kodama/src/server/router.rs:530-533 | an entry is added; one that is overwritten loses its sender |
| `CommandLoops.CommandState.RemoveEntry` | crates/kodama/src/server/router.rs:537-551 | the entry of a caller that gives up goes |
| `CommandLoops.CommandState.HandleResponse` | crates/kodama/src/server/router.rs:481-493 | the ready signal and unknown ids change nothing; otherwise the entry goes and its caller is answered |
| `CommandLoops.CommandState.ReadResponses` | crates/kodama/src/server/router.rs:479-506 | the reader loop dispatches the responses in order and ignores requests |
| `CommandLoops.CommandState.LetGo` | crates/kodama/src/server/router.rs:458-476 | the last holder of the shared state drops its senders with it |
| `CommandLoops.CommandState.SendCommand` | crates/kodama/src/server/router.rs:528-554 | the in-place call, from its id to its end, leaves the state and has the outcome of the machine's steps: failed send, answer, dropped sender or timeout, whether or not the camera and its reader are still there; the last to let go drops the state |
| `CommandLoops.HandleCommands` | apps/kodama-firmware/src/camera.rs:660-685 | one reply per request, in order, under its id, up to the first reply that cannot be sent |
| `CommandLoops.HandleClientCommands` | crates/kodama/src/server/router.rs:560-623 | one reply per request, in order, under the client's id, with the outcome or the reason there is none |
| `Peers.PresenceInEveryRun` | crates/kodama/src/server/router.rs:185-256 | in every interleaving a key is present if and only if the handler that last inserted it has not unregistered; generations are unique |
| `Peers.RemovesOnlyItsOwn` | crates/kodama/src/server/router.rs:225-256 | unregistering removes the handler's own entry and no other |
| `Peers.InsertKeepsCounts` | crates/kodama/src/server/router.rs:192-215 | an insertion keeps the counters right if and only if it does not change an entry's role |
| `Peers.DriftInEveryRun` | crates/kodama/src/server/router.rs:185-256 | in every run the counters differ from the entries by the role changes so far, and are right if and only if these cancel out |
| `Peers.CountersExactly` | crates/kodama/src/server/router.rs:185-256 | the counters are right after every prefix of a run if and only if no insertion replaces an entry of another role |
| `Peers.CountersInEveryRun` | crates/kodama/src/server/router.rs:185-256 | with one role per key the counters are the numbers of cameras and clients present, so they never underflow |
| `Peers.RoleChangeUnderflows` | crates/kodama/src/server/router.rs:200 | a run with a role change that wraps a counter |
| `Peers.PeerRegistry.FetchGeneration` | crates/kodama/src/server/router.rs:186-189 | generations are handed out in order |
| `Peers.PeerRegistry.InsertEntry` | crates/kodama/src/server/router.rs:190-215 | the locked part of registration is the specified step |
| `Peers.PeerRegistry.UnregisterEntry` | crates/kodama/src/server/router.rs:225-256 | so is the locked part of removal |
| `RateLimiting.RateBound` | crates/kodama/src/server/rate_limit.rs:74-89 | over any interval of L ms of any monotone trace, one class passes at most limit * (ceil(L/1000) + 1) frames |
| `RateLimiting.SecondBound` | crates/kodama/src/server/rate_limit.rs:176-201 | no second passes more than twice the limit |
| `RateLimiting.RateBoundExactly` | crates/kodama/src/server/rate_limit.rs:74-89 | exactly which bounds hold of all traces, for every class, limit and interval of L ms within the clock: those of at least limit * (ceil((L - 1)/1000) + 1) |
| `RateLimiting.FullestTrace` | crates/kodama/src/server/rate_limit.rs:74-89 | a trace that lets that many through |
| `RateLimiting.SecondBoundIsTight` | crates/kodama/src/server/rate_limit.rs:74-89 | for every class and limit some second carries twice the limit; all stay within the limit if and only if it is zero |
| `RateLimiting.ConnectionRateLimiter.RecordArrival` | crates/kodama/src/server/rate_limit.rs:74-89 | one window restarts or counts, the others stay |
| `RateLimiting.ConnectionRateLimiter.Check` | crates/kodama/src/server/rate_limit.rs:176-201 | verdict and whole new state of a check |
| `RateLimiting.ConnectionRateLimiter.Release` | crates/kodama/src/server/rate_limit.rs:205-214 | outstanding bytes after a release, with the underflow guard |
| `RateLimiting.ConnectionRateLimiter.Tick` | crates/kodama/src/server/rate_limit.rs:228-242 | abuse counter and verdict of a tick |
| `CameraLoop.HandleCamera` | crates/kodama/src/server/router.rs:285-348 | the loop forwards and disconnects as the specified run does |
| `CameraLoop.ConformingNeverPunished` | crates/kodama/src/server/router.rs:285-348 | a camera within its limits in every second, with wire-bounded payloads and a budget of a whole frame, loses no frame and is never disconnected |
| `CameraLoop.DisconnectNeedsStreak` | crates/kodama/src/server/rate_limit.rs:228-242 | a disconnect happens if and only if the latest checks, as many as the threshold, each saw a recent drop |
| `CameraLoop.DisconnectNeedsFrames` | crates/kodama/src/server/router.rs:320-333 | a disconnect takes thirty frames for each check of the threshold |
| `CameraLoop.CheckTimesAre` | crates/kodama/src/server/router.rs:320-333 | the abuse checks run after every thirtieth frame, whatever the limiter does |
| `CameraLoop.DisconnectNeedsTime` | crates/kodama/src/server/router.rs:320-333 | for frames that come at least a second apart from the thirtieth after, the punished stretch spans a second less than the threshold, with a recent drop at each check |
| `CameraLoop.DisconnectTakesNoTime` | crates/kodama/src/server/router.rs:320-333 | under every configuration and from every time on, the stretches of time that every disconnect takes are exactly those of 0 ms |
| `CameraLoop.DisconnectedWithinAMillisecond` | crates/kodama/src/server/router.rs:322-333 | 420 frames in one millisecond, at any time, suffice under the default limits |
| `CameraChecks.LetThroughExactly` | crates/kodama/src/server/rate_limit.rs:176-201 | a connected camera's frame is let through if and only if it fits the budget and comes among the first of its one-second window, as many as its channel's limit |
| `CameraChecks.ChecksSeeDrops` | crates/kodama/src/server/rate_limit.rs:217-242 | a check counts as abuse if and only if the latest frame not let through came in its second or the one before |
| `CameraChecks.DisconnectedExactly` | crates/kodama/src/server/rate_limit.rs:228-242 | a camera is disconnected if and only if as many checks in a row as the threshold each count so |
| `Abr.RunIsJustified` | crates/kodama/src/capture/abr.rs:154-238 | in every run a pressure timer rests on an unbroken stretch of evaluations since it was set, below half or from nine tenths of the tier's bitrate on, in numbers, and the two timers are never set together |
| `Abr.ChangeIsJustified` | crates/kodama/src/capture/abr.rs:154-238 | each change is one tier, after such a stretch of the required length that began after the cooldown |
| `Abr.ChangesExactly` | crates/kodama/src/capture/abr.rs:154-238 | in every run a change comes if and only if such a stretch ends there, with the thresholds of each tier as numbers: none is missed |
| `Abr.ChangeSpacing` | crates/kodama/src/capture/abr.rs:154-238 | two changes are at least the cooldown and the later one's own delay apart |
| `Abr.SettledTierExists` | crates/kodama/src/capture/abr.rs:27-72 | a tier at rest exists if and only if the throughput is outside every band, and is then unique |
| `Abr.BandAlternates` | crates/kodama/src/capture/abr.rs:154-238 | inside a band there is, under every configuration, a run at the constant throughput with any number of changes, up and down in turn |
| `Abr.ChangesBoundedExactly` | crates/kodama/src/capture/abr.rs:154-238 | under every configuration the changes at a constant throughput are bounded over all runs and starts if and only if it lies outside the bands |
| `Abr.ChangesApproach` | crates/kodama/src/capture/abr.rs:54-71 | outside the bands every change is one step towards the stable tier |
| `Abr.ChangesAreBounded` | crates/kodama/src/capture/abr.rs:154-238 | so constant throughput causes at most three changes, all one way |
| `Abr.Convergence` | crates/kodama/src/capture/abr.rs:154-238 | and with regular evaluations the stable tier is reached within three steps' time, whatever the start |
| `Abr.AbrController.EvaluateNow` | crates/kodama/src/capture/abr.rs:154-238 | the in-place evaluation is the specified one |
| `Throughput.OldestIsExact` | crates/kodama/src/capture/throughput.rs:56-64 | pruning from the front keeps exactly the samples within the window of the newest |
| `Throughput.DifferenceIsRecorded` | crates/kodama/src/capture/throughput.rs:39-54 | the difference of two cumulative totals is the bytes recorded between them, and never underflows |
| `Throughput.SteadyRate` | crates/kodama/src/capture/throughput.rs:39-54 | the same bytes every gap are measured at eight times that per gap, once the gaps that fit the window span 100 ms |
| `Throughput.RetainedIsWindow` | crates/kodama/src/capture/throughput.rs:28-64 | what is retained spans at most the window |
| `Throughput.ThroughputTracker.Record` | crates/kodama/src/capture/throughput.rs:28-33 | the tracker stays the window of its full history |
| `Throughput.ThroughputTracker.Prune` | crates/kodama/src/capture/throughput.rs:56-64 | the loop drops exactly what lies outside the window |
| `Throughput.ThroughputTracker.BitsPerSecond` | crates/kodama/src/capture/throughput.rs:39-54 | the rate is that of the bytes recorded after the oldest retained sample |
| `Fmp4.FindBoxEnd` | crates/kodama/src/web/fmp4.rs:290-304 | the cursor loop agrees with the recursive walk |
| `Fmp4.BoxEndStable` | crates/kodama/src/web/fmp4.rs:290-304 | a boundary that was found is not changed by later bytes |
| `Fmp4.WalkFindsBox` | crates/kodama/src/web/fmp4.rs:290-304 | over boxes framed as in section 4.2 of ISO/IEC 14496-12 the walk ends behind the first box of the type |
| `Fmp4.ByteConservation` | crates/kodama/src/web/fmp4.rs:164-278 | in every run, per process: init, then media, then what is held back are exactly the bytes taken, init comes once and first, and the first payload fed is a keyframe |
| `Fmp4.InitIsPrefix` | crates/kodama/src/web/fmp4.rs:240-265 | the init segment is the prefix of the bytes taken that ends with the first top-level moov box |
| `Fmp4Runs.CallsFollowReference` | crates/kodama/src/web/fmp4.rs:177-278 | after every run, what the next call feeds and returns is that of a reference that knows the bytes only: a running process is fed every frame, a new one starts with a keyframe, the init segment is handed on once its moov box is complete, then all new bytes as media |
| `Fmp4Runs.HandedOnIsOut` | crates/kodama/src/web/fmp4.rs:240-276 | what the calls of each process returned, in order, is what its log says was handed on |
| `Fmp4Runs.ResultsConserveBytes` | crates/kodama/src/web/fmp4.rs:177-278 | in every run, per process: the segments that its calls returned and what is held back are the bytes it gave, init once and first, up to the first moov box |
| `Fmp4.Fmp4Muxer.Reset` | crates/kodama/src/web/fmp4.rs:164-175 | a reset ends the process and forgets what was held back |
| `Fmp4.Fmp4Muxer.Mux` | crates/kodama/src/web/fmp4.rs:177-278 | result and whole new state of one call |
| `Fmp4.Fmp4Muxer.ReadOutput` | crates/kodama/src/web/fmp4.rs:228-278 | the init/media decision over the output at hand |
| `Fmp4.ReceiveAll` | crates/kodama/src/web/fmp4.rs:228-240 | draining the reader's channel concatenates its chunks |

## Left out

- `storage/cloud.rs`: the same segment scheme around a command-line uploader.
- I/O errors of the file system other than a missing file, a truncated file and a refused
  deletion. What a writer has buffered counts as written, but where the storage is opened again
  (`StorageRebuild.RebuildExactly`).
- u64 overflow of `total_bytes`, `bytes_written`, throughput totals, generations and the
  limiter's counts; the u32 frame counter of a segment wraps in the model, and the theorems
  exclude the wrap.
- Runs that mix cleanups with frames out of order of time: `StorageRuns.StorageRefinesList` has
  the cleanups, `StorageReopen.RunAnswersExactly` any order.
- Directory names (hexadecimal source ids) and file extensions: a path is a source and a window start.
- Concurrent calls on one `LocalStorage`: each operation runs to its end before the next begins.
- Concurrent use of one `ConnectionRateLimiter`: each limiter belongs to one loop.
- `should_log_drop`, `drop_rate`, statistics that only feed logs, and `available_bytes`.
- Floating-point rounding, infinities and NaN in the bitrate controller and the throughput: exact reals.
- The async runtime, QUIC streams, broadcast channels and WebSockets: FIFO queues, a bounded
  channel and interleaved steps stand for them. The machine of `Commands` is on values for
  that reason; its loops and its shared state are also given in place, in `CommandLoops`.
- Command streams: messages of the wrong direction are ignored by both ends and are part of the
  loops only, not of the interleaved machine.
- What a command does on the camera, and when a timeout fires: any result, any time.
- Correlation after 2^32 command ids of one stream: `CommandRuns.NextIdInEveryRun` says when ids repeat.
- MessagePack and JSON encodings, telemetry, GPS, audio capture, motion detection, updates, configuration and logging.
- The fan-out of `VideoMuxer` and its cache of init segments.
