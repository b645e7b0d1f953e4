# Proofs about media files and the receive pipeline

A Dafny model of four stateful components of this repository, and proofs of what they promise.
Each method of the model has the loops, branches and fields of the function it stands for and is
proved against a pure function of its inputs; the lemmas are about those functions.

**Progressive MP4** (`mov/source`). `MovWriter.Writer` appends samples to an open `mdat` and, when it
is closed, writes `moov` through nested placeholders (`NestWriters`, `TableWriters`); the table
builders of `MovTrack` take turns in two scratch fields of each sample (`Scratch`). With faststart it
finds how large `moov` becomes once chunk offsets widen (`Co64`) and rotates the file in place
(`Move`). `TrackBoxes` prints the same boxes front to back and is what the writers are compared with.
`TrackReader` and `MovReader` read boxes and rebuild the samples in place; `BoxParser` says the same
as a function of the bytes. `ReadTables`, `ReadBack`, `Recover` and `EndToEnd` take the two together:
what is read is what was written. `Seek` is the search by time. `BoxFields` looks at the printed boxes by the byte positions of the standard.

**Fragmented MP4.** `Fmp4Writer.FWriter` queues samples per track and flushes them as fragments;
`FragmentIntro`, `FragmentWriters` and `IndexWriters` write the boxes, `FragmentBoxes` and `IndexBoxes`
print them, and the reader is the one above: `MovReader` walks `moov`, `moof` and `mfra` alike.
`FragmentRead`, `IntroRead` and `IndexRead` say what it makes of each box, `FragmentFile` and
`FragmentEnd` of a whole run up to the destroyed writer, `Segments` of runs in which something goes
wrong, and `FragmentRuns` how the fragments of a run join up. `AnySender` has the reader meet boxes that
the writers here never produce: other versions, other choices of optional fields.

**RTP over RTSP** (`rtsp`). `RtspConnection` cuts received bytes into interleaved frames
(section 10.12 of RFC 2326), `RtpPacket` parses packets (section 5.1 of RFC 3550), `FrameOrganizer`
files them in a bounded cache and `Depacketizer` puts NAL units together (section 5.8 of RFC 6184,
section 4.4.3 of RFC 7798). `RtspStream`, `FrameCache` and `Dispatch` are the same as functions, over
whole runs, with the ownership of receive buffers; `Connections` has any number of connections share one
pool. `HandOver` says which part of a frame the cache hands over, `Units` what that means for a unit on
its way from the wire to the client.

**File cache** (`mk_mov_file_buffer.c`). `FileCache` against the plain file it speeds up.

Boxes follow ISO/IEC 14496-12. `Io` models a file as bytes, a position and a sticky error; its ghost
fields record what has been written since a given point, which is how back-patching is stated.

## Where the code does less than one would expect

Each has a lemma with the exact condition or a concrete input.

- The data offset of `trun` is signed: a track that starts 2 GiB or more behind `moof` is read from
  the wrong place although `mdat` fits 32 bits, and so is everything once `mdat` needs the 64-bit
  header, which the offsets do not count on (`FragmentEnd.PlacedExactly`,
  `FragmentEnd.LateTrackMisplaced`).
- A `moov` behind fragments is read like the first one: its `stsz` sets the sample count of every track
  to 0 (`mov-stsz.c:26`), so a file of several segments has only the samples of the last one
  (`Segments.TwoSegments`). A build with assertions stops there instead (`mov-stsz.c:18`).
- The index at the end of a segment, which the end of the writer brings too, names every track, with
  samples or without, and a reader gives up at a track that no `moov` has announced (`mov-tfra.c:19-21`;
  a build with assertions stops at `mov-reader.c:340`). So a track added after the first flush makes the
  whole file unreadable even if it never gets a sample (`Segments.LateTrackClosed`), and so does a segment
  closed before the first flush with a track (`Segments.EarlySegment`).
- Together: everything comes back if and only if there is one `moov` only, no flushed sample of a track
  added after it, and no segment closed when some track had not been announced
  (`FragmentFile.AllComesBack`, `FragmentEnd.ReadFragments`); once the writer is destroyed, if and only if
  one `moov` announces every track there is and no segment was closed before it with a track, or there
  is no track at all (`FragmentEnd.DestroyAndRead`).
- Queued samples without a single byte are not flushed at the end, `mdat_size` being 0
  (`fmp4-writer.c:231-232`): they are in no fragment (`FragmentEnd.DestroyAndRead` asks for one byte).
- `stsz` with a constant size of 0 is taken for a table of sizes when it is read back
  (`ReadTables.StszRoundTrip`, `ReadTables.ZerosLost`). Samples are therefore assumed not to be empty.
- Samples that do not advance in decode time are read back one tick apart (`Timing.DtsExact`,
  `Timing.StandstillMoved`); a first sample with a pts other than its dts moves all decode times
  (`Recover.TimesExact`, `Recover.DelayMoves`).
- A composition offset of -1 is not counted in the shift, so pts may stay below dts
  (`Timing.ShiftedNotNegative`, `Timing.OneTickEarly`).
- The first sample of a fragment is always read as a key frame: without the first-sample flags the
  reader falls back on the flags word of `tfhd` (`FragmentEnd.KeyFlags`, `FragmentEnd.KeyGained`).
- The cache hands a frame over as soon as the packets that have come end with the marker and are
  consecutive, whatever is missing in front of them: a frame is handed over whole if and only if no
  shorter run of arrivals is an end of it (`HandOver.HandedOverWhole`, `HandOver.CutShort`), and the client
  gets what is left put together as if it were the unit (`Units.EndDelivered`, `Units.UnitDelivered`).
- The parser that goes over the fragments of a unit keeps the padding it has seen last
  (`mk_rtsp_rtp_packet.cpp:47-51`, `mk_rtsp_connection.cpp:936`): a fragment without padding behind a padded one
  loses as many bytes (`Depacketizer.PaddingSticks`, `Depacketizer.PaddingLost`); with padding on every
  fragment, or on none, the unit comes back whole (`Depacketizer.PaddedReassembled`,
  `Depacketizer.Reassembled`).
- A frame whose 16-bit sequence numbers pass from 65535 to 0 is not handed over whole, short of all 65536
  numbers (`HandOver.WrapNotWhole`, `HandOver.WrapStuck`): numbers are compared as they are, not as a
  counter that wraps.

## Model

| member | source | states |
|---|---|---|
| `EndToEnd.CloseAndRead` | `mov/source/mov-writer.c:99-188` | Main result for progressive files. After any run of a writer, with or without faststart, for 32-bit and 64-bit `mdat` headers, the reader run on the closed file succeeds, ends up with exactly the non-empty tracks that were written, and the bytes at the offset and size it rebuilds for each sample are the bytes that were given to the writer |
| `EndToEnd.WriteAndRead` | `mov/source/mov-writer.c:65-330` | The same for a whole run from an empty file, given as a list of calls that add tracks, give user data and write samples in any order: the tracks read back are, by id and sample by sample, the ones the calls describe, with the times and the bytes of every call that named a track there was |
| `EndToEnd.Close` | `mov/source/mov-writer.c:107-181` | The same for the file as a value: it parses to the tracks that were written and every sample is found in it |
| `EndToEnd.PlainEnd` | `mov/source/mov-writer.c:143-146` | A file of `ftyp`, `mdat`, `moov` parses to its tracks and every sample is found |
| `EndToEnd.FastEnd` | `mov/source/mov-writer.c:173-180` | The same for `ftyp`, `moov`, `mdat` with every chunk offset moved by the size of `moov` |
| `EndToEnd.TrakStep` | `mov/source/mov-reader.c:94-116` | A written `trak` box, wherever it stands, adds one track to the reader: the one whose tables have been applied |
| `Recover.RebuildIs` | `mov/source/mov-reader.c:100-112` | The apply passes in their order turn the written tables of a track back into its samples: shifted offset, size, description, key flag, rebuilt times; no pass meets an inconsistent table |
| `Recover.TimesExact` | `mov/source/mov-stts.c:204-243` | Every dts and pts comes back exactly if and only if the first sample is decoded at its pts, or at 0 if that is negative, dts goes up by steps within 32 bits, and no sample has pts below dts - 1 |
| `Recover.KeysRecovered` | `mov/source/mov-stss.c:32-79` | In a track with a picture a sample comes back as a key frame if and only if it was written as one; in other tracks none does |
| `Recover.DelayMoves` | `mov/source/mov-elst.c:108-123` | A sample with dts 0 and pts 2 comes back with dts 2 |
| `Recover.CttsOmitted` | `mov/source/mov-track.c:239-241` | `ctts` is left out if and only if every pts equals its dts |
| `Recover.VersionOne` | `mov/source/mov-stts.c:190-197` | A build sets the version-1 flag if and only if some sample has pts < dts, although only heads of runs are looked at |
| `Recover.PlanIs` | `mov/source/mov-stco.c:146-174` | Expanding the written `stsc` over the written chunk offsets and sizes gives every sample its shifted place and description |
| `Move.MoveTail` | `mov/source/mov-writer.c:190-232` | In-place rotation for every `to <= from` and every tail size: the result is the front, the tail, then what was between; short reads past the end are never written back and the error ends as 0 |
| `Move.Delayed` | `mov/source/mov-writer.c:209-225` | Behind the moved tail the rotated file is the old one delayed by the size of the tail: why two buffers are enough whatever the gap |
| `Move.BufferedStep` | `mov/source/mov-writer.c:209-225` | One turn of the two buffers: the block about to be written is right, and the other buffer keeps what the write destroys |
| `MovWriter.Writer.Growth` | `mov/source/mov-writer.c:150-169` | The do-while loop over track sizes ends after at most as many extra rounds as there are tracks, at the least growth that accounts for itself |
| `MovWriter.GrowthRound` | `mov/source/mov-writer.c:164-167` | One round adds up exactly how much the chunk offset tables of all tracks widen at that offset |
| `MovWriter.StcoSize` | `mov/source/mov-stco.c:92-114` | Counts chunk heads left in the scratch fields: four more bytes a chunk exactly when the last sample crosses 32 bits by the shift, else nothing |
| `Co64.TotalGrowMonotone` | `mov/source/mov-stco.c:92-114` | The growth is monotone in the offset, and strictly more growth means strictly more switched tracks: why the loop ends |
| `Co64.RoundStaysBelow` | `mov/source/mov-writer.c:157-169` | A round started below every settled growth stays below it: why the loop ends at the least one |
| `Co64.MoovGrows` | `mov/source/mov-writer.c:171-177` | `moov` rewritten with all offsets moved is longer by exactly the sum the rounds computed |
| `Co64.SettledSize` | `mov/source/mov-writer.c:177` | The assertion after the rewrite: moved by its own final size, `moov` has that size |
| `MovWriter.Writer.constructor` | `mov/source/mov-writer.c:65-96` | A new file holds `ftyp`, the reserve and an open `mdat`; no track, no sample |
| `MovWriter.Writer.AddTrack` | `mov/source/mov-writer.c:274-323` | A new, empty track with the next id, ids counting from 1; all other tracks and their samples stay |
| `MovWriter.Writer.AddUdta` | `mov/source/mov-writer.c:325-330` | Replaces the user data of the `moov` and keeps everything else |
| `MovWriter.Writer.Write` | `mov/source/mov-writer.c:234-272` | Appends the data to the payload and one record to the track, pointing at it, with the times as given, which the timescale leaves as they are; an unknown track is refused and nothing changes; other tracks stay. Keeps: every record of every track points at its bytes |
| `MovWriter.Writer.FinishMdat` | `mov/source/mov-writer.c:107-121` | The open `mdat` becomes a 32-bit one behind the reserve, or a 64-bit one that takes the reserve over; the payload stays where it is |
| `MovWriter.Writer.FinishDurations` | `mov/source/mov-writer.c:123-141` | Duration of each track, and of the movie as the longest of them; samples unchanged |
| `MovWriter.DurationSpan` | `mov/source/mov-writer.c:130-138` | The estimated duration lies between the distance from first to last sample and twice that |
| `MovWriter.SteadyDuration` | `mov/source/mov-writer.c:130-138` | With two or more samples at one distance the estimate is that distance for every sample, one unit less in all if and only if the distance is no multiple of four |
| `MovWriter.LongestIs` | `mov/source/mov-writer.c:123-141` | The duration of the movie is that of its longest track with samples, or what it was |
| `MovWriter.Writer.WriteMoov` | `mov/source/mov-writer.c:16-40` | Appends the `moov` box of the non-empty tracks, byte for byte the one printed front to back, and returns its size |
| `MovWriter.WriteTraks` | `mov/source/mov-writer.c:27-33` | Appends the `trak` boxes of the non-empty tracks in order |
| `MovWriter.SameMoov` | `mov/source/mov-writer.c:171-176` | The sticky version-1 flag that the first pass may set changes no byte of the second |
| `MovWriter.Writer.Destroy` | `mov/source/mov-writer.c:99-188` | The whole closed file as a concatenation of boxes, without and with faststart; with it the growth used is the least settled one |
| `MovWriter.Writer.MoveMoovToFront` | `mov/source/mov-writer.c:148-181` | Rewrites `moov` with moved offsets and swaps it with the media data: nothing else in the file changes |
| `MovWriter.Writer.RewriteMoov` | `mov/source/mov-writer.c:175-178` | The second `moov` replaces the first entirely |
| `MovWriter.Writer.ShiftTracks` | `mov/source/mov-writer.c:171-173` | Every track offset goes up by the same amount; nothing else changes |
| `NestWriters.WriteSize` | `mov/source/mov-writer.c:42-50` | Seeking back over the placeholder leaves the box with its size in front and the position behind it |
| `NestWriters.WriteStbl` | `mov/source/mov-track.c:220-250` | Appends the `stbl` box printed front to back, though the three table builders take turns in the same two scratch fields; returns its size; media unchanged |
| `NestWriters.WriteTimeTables` | `mov/source/mov-track.c:226-242` | `stts`, `stss` for tracks with a picture, `ctts` when needed, and the new state of the version-1 flag |
| `NestWriters.WriteChunkTables` | `mov/source/mov-track.c:244-247` | `stsc`, `stsz` and `stco` or `co64`, and the chunk heads that are left for the growth count |
| `NestWriters.CttsNeeded` | `mov/source/mov-track.c:239-241` | The test on the scratch fields decides as the run table of the offsets does |
| `NestWriters.WriteMinf` | `mov/source/mov-track.c:252-284` | Appends the `minf` box printed front to back, returns its size |
| `NestWriters.WriteMdia` | `mov/source/mov-track.c:286-302` | Appends the `mdia` box printed front to back, returns its size |
| `NestWriters.WriteTrak` | `mov/source/mov-track.c:304-321` | Appends the `trak` box printed front to back, returns its size; the track keeps all but the flag |
| `NestWriters.WriteEdts` | `mov/source/mov-track.c:323-340` | Appends `edts` for a track with samples, nothing otherwise |
| `TableWriters.WriteStts` | `mov/source/mov-stts.c:94-117` | Appends the `stts` box of the delta runs, given that the scratch fields hold them |
| `TableWriters.WriteCtts` | `mov/source/mov-stts.c:119-143` | Appends the `ctts` box of the offset runs in the version of the flag |
| `TableWriters.WriteStss` | `mov/source/mov-stss.c:32-66` | Appends `stss` with the numbers of the key frames; size and count are patched in afterwards |
| `TableWriters.WriteStsc` | `mov/source/mov-stsc.c:46-86` | Appends `stsc` of the chunks, those that repeat count and description left out; size and count are patched in afterwards |
| `TableWriters.WriteStscEntries` | `mov/source/mov-stsc.c:63-76` | The second-level compression loop writes one entry for each change, and counts them |
| `TableWriters.WriteStsz` | `mov/source/mov-stsz.c:101-131` | Appends `stsz`: one size for all when they are equal, else every size |
| `TableWriters.WriteStco` | `mov/source/mov-stco.c:61-90` | Appends `stco`, or `co64` exactly when the shifted offset of the last sample exceeds 32 bits |
| `TableWriters.WriteElst` | `mov/source/mov-elst.c:47-106` | Appends `elst` with an empty edit for a positive delay, in the version that the times need |
| `MovTrack.Track.BuildStts` | `mov/source/mov-stts.c:145-170` | Leaves the run-length table of the deltas in the scratch fields, returns its length, changes no medium |
| `MovTrack.Track.BuildCtts` | `mov/source/mov-stts.c:172-202` | Leaves the run-length table of the composition offsets in the scratch fields, and the version-1 flag |
| `MovTrack.Track.BuildStco` | `mov/source/mov-stco.c:116-144` | Leaves the chunks in the scratch fields: numbers from 1, samples per chunk |
| `Runs.ExpandCompress` | `mov/source/mov-stts.c:145-202` | Expanding a run-length table gives back every key |
| `Runs.CompressUnique` | `mov/source/mov-stts.c:145-202` | The table built is the only one without empty or mergeable runs |
| `Runs.CompressCanonical` | `mov/source/mov-stts.c:145-202` | No empty run, no two equal neighbours, no more runs than samples |
| `SampleTables.ChunksMaximal` | `mov/source/mov-stco.c:116-144` | No two neighbouring chunks could have been one |
| `SampleTables.TotalChunks` | `mov/source/mov-stco.c:116-144` | Chunk sizes add up to the number of samples |
| `SampleTables.StscRoundTrip` | `mov/source/mov-stsc.c:46-86` | The doubly compressed table, with the last entry reaching to the end, says count and description of every chunk |
| `SampleTables.StscMinimal` | `mov/source/mov-stsc.c:63-76` | No entry of the table could have been left out |
| `SampleTables.ChunkRoundTrip` | `mov/source/mov-stco.c:146-174` | Placing samples chunk by chunk gives back every offset and description, shifted |
| `Timing.DtsRebuilt` | `mov/source/mov-stts.c:204-218` | For non-decreasing dts a rebuilt dts is the base plus the distance plus the number of standstills before it |
| `Timing.DtsExact` | `mov/source/mov-stts.c:145-170` | All dts come back if and only if the base is right and every step is positive and within 32 bits; no precondition on the order |
| `Timing.StandstillMoved` | `mov/source/mov-stts.c:145-170` | Of two samples decoded at one time the second comes back one tick late |
| `Timing.CtsRebuilt` | `mov/source/mov-stts.c:220-243` | Every composition offset comes back up to one shift shared by the track |
| `Timing.ShiftIsLeast` | `mov/source/mov-stts.c:226-234` | The shift is the least offset below -1, or 0 when there is none |
| `Timing.ShiftedNotNegative` | `mov/source/mov-stts.c:226-241` | The shift makes pts >= dts everywhere if and only if some offset is below -1 or none is -1 |
| `Timing.OneTickEarly` | `mov/source/mov-stts.c:226-241` | A sample with pts = dts - 1, alone in its track, is read back with pts below dts |
| `Timing.ShiftZero` | `mov/source/mov-stts.c:226-234` | Offsets come back unshifted if and only if none is below -1 |
| `ReadTables.StszRoundTrip` | `mov/source/mov-stsz.c:8-41` | The written size table is read back if and only if it is not a non-empty list of zeros |
| `ReadTables.ZerosLost` | `mov/source/mov-stsz.c:8-41` | The table of two empty samples is not read back |
| `ReadTables.StscStep` | `mov/source/mov-stsc.c:17-44` | A written `stsc`, wherever it stands, is read back as the table of the chunks |
| `ReadTables.StcoStep` | `mov/source/mov-stco.c:23-59` | A written `stco` or `co64` is read back as the shifted chunk offsets |
| `ReadTables.ElstStep` | `mov/source/mov-elst.c:7-45` | A written `elst` of either version is read back |
| `ReadTables.EditsAre` | `mov/source/mov-elst.c:47-106` | The edit list that is written and read back: an empty edit up to the first pts, if that is above 0, then the whole duration from as far into the media as the first pts is above its dts, 0 if it is not |
| `ReadTables.BaseTimeOf` | `mov/source/mov-elst.c:108-123` | The empty edit gives back the delay of the first sample |
| `ReadTables.KeyNumbersAre` | `mov/source/mov-stss.c:32-79` | The table names sample i if and only if it is a key frame |
| `ReadTables.RunsStep` | `mov/source/mov-stts.c:7-62` | A written `stts` or `ctts` is read back run by run |
| `ReadBack.StblRead` | `mov/source/mov-track.c:220-250` | The tables of a whole `stbl`, in the order they are written, are all read back |
| `ReadBack.TrakRead` | `mov/source/mov-track.c:304-321` | A written `trak` gives a reader the track id and all its tables |
| `TrackReader.Stream.ReadStts` | `mov/source/mov-stts.c:7-33` | Reads the runs the bytes say and ends right behind them |
| `TrackReader.Stream.ReadCtts` | `mov/source/mov-stts.c:36-62` | Reads the runs the bytes say and ends right behind them |
| `TrackReader.Stream.ReadStsc` | `mov/source/mov-stsc.c:17-44` | Reads the entries the bytes say |
| `TrackReader.Stream.ReadStco` | `mov/source/mov-stco.c:23-59` | Reads 32-bit or 64-bit chunk offsets |
| `TrackReader.Stream.ReadStss` | `mov/source/mov-stss.c:7-30` | Reads the sync sample numbers |
| `TrackReader.Stream.ReadElst` | `mov/source/mov-elst.c:7-45` | Reads the edits of either version |
| `TrackReader.Stream.ReadStsz` | `mov/source/mov-stsz.c:8-41` | Allocates the samples with one spare slot, sizes from the constant or the table |
| `TrackReader.Stream.PlaceSamples` | `mov/source/mov-stco.c:161-171` | The samples of one chunk, one behind the other; all others untouched |
| `TrackReader.Stream.ApplyStco` | `mov/source/mov-stco.c:146-174` | Works out place and description of every sample in place, entry by entry with the sentinel; the pure placement says where |
| `TrackReader.Stream.ApplyElst` | `mov/source/mov-elst.c:108-123` | Sets the times of the first sample from the last empty edit, nothing else |
| `TrackReader.Stream.ApplyStts` | `mov/source/mov-stts.c:204-218` | Counts decode times on from the first sample, up to and into the one spare slot |
| `TrackReader.Stream.ApplyCtts` | `mov/source/mov-stts.c:220-243` | Adds each offset less the shift to its pts, nothing else |
| `TrackReader.Stream.ApplyStss` | `mov/source/mov-stss.c:68-79` | Marks exactly the listed samples as key frames |
| `TrackReader.Stream.Apply` | `mov/source/mov-reader.c:100-112` | The five passes in this order compute the samples that the tables stand for |
| `MovReader.Reader.FetchTrack` | `mov/source/mov-track.c:69-83` | The track of that id, or a new one at the end; it becomes the current one |
| `MovReader.Reader.ReadTkhd` | `mov/source/mov-tkhd.c:36-92` | Finds the track id in either version and fetches the track |
| `MovReader.Reader.ApplyTrack` | `mov/source/mov-reader.c:94-116` | The end of a `trak`: tables applied if there are samples |
| `MovReader.ReadHeader` | `mov/source/mov-reader.c:282-311` | Size and type of a box, 32-bit or 64-bit |
| `MovReader.Reader.ReadBox` | `mov/source/mov-reader.c:318-343` | Parses the box by the parse table and ends inside it |
| `MovReader.Reader.ReadBoxes` | `mov/source/mov-reader.c:272-363` | The recursive walk over nested boxes ends in the state that the pure parser gives, for every file the parser accepts; it terminates |
| `MovReader.Reader.ReadFile` | `mov/source/mov-reader.c:189-200` | The tracks after a whole file are those of the pure parser |
| `MovReader.Reader.ReadSample` | `mov/source/mov-reader.c:472-493` | Delivers exactly the bytes at the offset of the next sample and moves on, or fails at the end of the file and stays |
| `Seek.SampleSeek` | `mov/source/mov-reader.c:649-685` | For sorted dts the sample chosen is decoded at least as near to the target as every other one |
| `Seek.StssSeek` | `mov/source/mov-reader.c:603-647` | For sorted dts and increasing sync numbers the same among the sync samples; the time reported is that of the sample chosen |
| `Seek.PickNearest` | `mov/source/mov-reader.c:674-683` | Wherever a binary search ends, looking at the last probe and its two neighbours is enough |
| `IoUtil.Io.Seek` | `mov/source/mov-ioutil.h:23-27` | Overwrites the error, whatever it was |
| `IoUtil.Io.Read` | `mov/source/mov-ioutil.h:39-43` | Delivers what is there; a read past the end leaves an error; nothing happens under a pending error |
| `IoUtil.Io.Write` | `mov/source/mov-ioutil.h:45-49` | Lays the bytes over the file at the position; nothing happens under a pending error |
| `IoUtil.Io.W64` | `mov/source/mov-ioutil.h:113-117` | Eight bytes, big end first, through two 32-bit writes |
| `IoUtil.Io.R64` | `mov/source/mov-ioutil.h:82-88` | The number whose eight big-endian bytes stand at the position |
| `Bytes.BigEndian64` | `mov/source/mov-ioutil.h:58-88` | Numbers of 16, 24, 32 and 64 bits are read with the most significant byte first |
| `Bytes.Get64Of` | `mov/source/mov-ioutil.h:74-117` | A 64-bit number is read back wherever its bytes were laid down |
| `BoxFields.MvhdFields` | `mov/source/mov-mvhd.c:84-125` | By the byte positions of the standard: times, timescale 1000, duration, rate, volume, matrix and next track id stand where a reader looks for them |
| `BoxFields.TkhdFields` | `mov/source/mov-tkhd.c:94-135` | The same for flags, id, duration, volume, matrix and picture size of a track |
| `BoxFields.MdhdFields` | `mov/source/mov-mdhd.c:60-76` | The same for timescale 1000, duration and language of its media |
| `BoxFields.HandlerFields` | `mov/source/mov-hdlr.c:26-43` | The handler type in letters, the name ended by a zero, and the media header that goes with the handler |
| `BoxFields.FtypFields` | `mov/source/mov-writer.c:52-62` | The brands of a progressive file, letter by letter |
| `BoxFields.FragmentedFtypFields` | `mov/source/fmp4-writer.c:338-349` | The brands of a fragmented file |
| `BoxFields.MdatFields` | `mov/source/mov-writer.c:107-121` | A short size behind the reserve if it fits 32 bits, else a long one in the place of both; size 0 while the file is open |
| `BoxFields.StcoKind` | `mov/source/mov-stco.c:61-90` | `co64` if and only if the shifted offset of the last sample does not fit 32 bits, else `stco` |
| `BoxFields.CttsVersion` | `mov/source/mov-stts.c:119-143` | The version byte is the flag |
| `BoxFields.ElstFields` | `mov/source/mov-elst.c:47-106` | Version 1 if and only if the duration or the first pts does not fit 32 bits; two entries if and only if the first pts is above 0 |
| `BoxFields.MoofNumber` | `mov/source/mov-mfhd.c:15-23` | A `moof` carries the number of its fragment |
| `BoxFields.TfhdFields` | `mov/source/mov-tfhd.c:52-98` | The flags word in numbers, and the five fields it announces; sample flags 0x02000000 for audio, 0x01010000 for all else |
| `BoxFields.TfdtVersion` | `mov/source/mov-tfdt.c:26-48` | Version 1 if and only if the time does not fit 31 bits |
| `BoxFields.TrunFields` | `mov/source/mov-trun.c:86-163` | The flags word in numbers, the count, the data offset, and the flags of a first sample that is a key frame |
| `BoxFields.TrexFields` | `mov/source/mov-trex.c:26-37` | Description 1 and no other default |
| `BoxFields.TfraHead` | `mov/source/mov-tfra.c:61-87` | Version, track, the width of the numbers and the count |
| `BoxFields.MarkFields` | `mov/source/mov-tfra.c:78-85` | Time, offset and three ones for each entry, 19 bytes apart |
| `BoxFields.MfroSize` | `mov/source/fmp4-writer.c:196-204` | The last word of an index is its size |
| `AnySender.AnyTkhd` | `mov/source/mov-tkhd.c:36-92` | Whoever wrote it, in either version: the track id is found |
| `AnySender.AnyTrex` | `mov/source/mov-trex.c:7-24` | The four defaults of a track, whatever they are |
| `AnySender.MetFirst` | `mov/source/mov-track.c:69-83` | A track met for the first time has no tables, and all its defaults are 0 |
| `AnySender.AnyTfhd` | `mov/source/mov-tfhd.c:5-50` | For every choice of optional fields: those given are taken, the others come from `trex`; offsets count from the place given, from the `moof`, or from the end of the data so far |
| `AnySender.AnyTrun` | `mov/source/mov-trun.c:8-84` | For every version and choice of optional fields: each sample is decoded at the durations before it added up, lies at the sizes before it added up, and is a key frame unless its flags say otherwise |
| `AnySender.AnyTfra` | `mov/source/mov-tfra.c:7-59` | For both versions and every width of the three numbers: the entries are found, or the reader gives up at an unknown track |
| `AnySender.LastEmptyEdit` | `mov/source/mov-elst.c:108-123` | The first time of a track is the length of its last empty edit, wherever that stands |
| `AnySender.EmptyEditsAdd` | `mov/source/mov-elst.c:125-136` | The base time of a fragment counts all empty edits |
| `FragmentEnd.ReadFragments` | `mov/source/fmp4-writer.c:223-321` | Main result for fragmented files, for every run of a writer, its segment indexes included, and a reader that knows nothing. Every flushed sample comes back, first to last, if and only if nothing was flushed after the end of a segment, no flushed sample is of a track added after the first flush, and whenever a segment was closed the first `moov` was in front of it and had announced every track there then was. In any case each track has the samples since the last `moov`, and the reader has the last index. Where times keep within their fields and the offsets fit, each sample has its bytes at its offset, its dts counted from the start of the track, and its pts - dts |
| `FragmentEnd.FragmentNumbers` | `mov/source/fmp4-writer.c:257-261` | Over a whole run the fragments are numbered from 1, across segments |
| `FragmentEnd.DestroyAndRead` | `mov/source/fmp4-writer.c:377-389` | The same for a writer that is destroyed at the end of any run. Everything comes back if and only if there is one `moov`, it announces every track there is, and no segment was closed before it with a track (or there is no track at all); all that was sent is then in the file, unless what is queued has no byte, and for each track the reader has the place and time of every fragment of the last segment |
| `FragmentEnd.ClosedFile` | `mov/source/fmp4-writer.c:377-389` | A file whose last index names all tracks comes back whole if and only if one `moov` announces them all: late tracks and late samples are then the same thing |
| `FragmentEnd.MarkPoints` | `mov/source/fmp4-writer.c:268-272` | The offset of an index entry is the place in the file where the `moof` of that fragment stands, its time the first dts of the track in it |
| `FragmentEnd.MarksAre` | `mov/source/fmp4-writer.c:268-272` | A segment index has an entry for each fragment that holds samples of the track, in their order |
| `Fmp4Writer.FWriter.Write` | `mov/source/fmp4-writer.c:392-443` | Invariant over every run: fragments are numbered from 1, `mdat_size` is the total queued, and for each track the samples sent are those flushed plus those queued, in order. Flushes first exactly when a key frame of a video track meets a non-empty queue; an unknown track changes nothing |
| `Fmp4Writer.FWriter.WriteFragment` | `mov/source/fmp4-writer.c:223-321` | Everything queued becomes one fragment at the end of the file, nothing when nothing is queued |
| `Fmp4Writer.FWriter.Flush` | `mov/source/fmp4-writer.c:230-320` | The bytes appended are `ftyp`+`moov` the first time, `moof` with real data offsets, `mdat` header, all data; every track with samples has one more index entry; queues are empty |
| `Fmp4Writer.FWriter.AddEntries` | `mov/source/fmp4-writer.c:207-221` | One more entry for each track with samples, none for the others |
| `Fmp4Writer.FWriter.FlushSound` | `mov/source/fmp4-writer.c:223-321` | The fragment holds exactly the queues: nothing lost, repeated or reordered |
| `Fmp4Writer.FWriter.AddTrack` | `mov/source/fmp4-writer.c:445-494` | A new, empty track with the next id, also after a flush; everything else stays |
| `Fmp4Writer.FWriter.Turn` | `mov/source/fmp4-writer.c:401-406` | The duration assumed for the last queued sample is the step to the new one, 0 if it does not go up |
| `Fmp4Writer.FWriter.Enqueue` | `mov/source/fmp4-writer.c:414-441` | One sample more in one queue and in the log of its track |
| `Fmp4Writer.FWriter.SaveSegment` | `mov/source/fmp4-writer.c:503-522` | Flushes what is queued and appends the index of all tracks over the fragments since the last one; the next fragment starts with `ftyp` and `moov` again |
| `Fmp4Writer.FWriter.Destroy` | `mov/source/fmp4-writer.c:377-389` | Leaves the file as SaveSegment does |
| `Fmp4Writer.FWriter.AppendIndex` | `mov/source/fmp4-writer.c:514-519` | Appends the `mfra` box that the entries of the tracks call for: the fragments of the segment that hold samples of each |
| `Fmp4Writer.FWriter.AddUdta` | `mov/source/fmp4-writer.c:496-501` | Replaces the user data of the next `moov`; what has been written stays |
| `Fmp4Writer.FWriter.constructor` | `mov/source/fmp4-writer.c:353-375` | No track, no fragment, no time yet |
| `Fmp4Writer.WriteMoof` | `mov/source/fmp4-writer.c:102-135` | Lays the samples out one track behind the other and appends the `moof` printed front to back |
| `Fmp4Writer.LayTrack` | `mov/source/fmp4-writer.c:121-127` | Gives each sample of a track the running offset |
| `Fmp4Writer.WriteMoofs` | `mov/source/fmp4-writer.c:260-265` | The second pass covers the first exactly: the same size, with the real data offsets |
| `Fmp4Writer.WriteData` | `mov/source/fmp4-writer.c:295-310` | The interleave loop ends and writes every sample once, track behind track, because the second layout pass has made the offsets contiguous |
| `Fmp4Writer.WriteTrackData` | `mov/source/fmp4-writer.c:302-308` | The inner loop writes all samples of a track once its turn has come |
| `FragmentBoxes.MoofSize` | `mov/source/fmp4-writer.c:260-265` | The size of `moof` does not depend on the data offsets in it |
| `FragmentBoxes.OneTrun` | `mov/source/fmp4-writer.c:88-96` | Laid-out samples make a single `trun` |
| `FragmentBoxes.TwoRuns` | `mov/source/fmp4-writer.c:88-96` | Two samples that do not lie one behind the other make two runs |
| `FragmentBoxes.LaidAllAgain` | `mov/source/fmp4-writer.c:116-127` | The second pass lays the samples out where the first one did |
| `FragmentBoxes.ElapsedIs` | `mov/source/mov-trun.c:101-110` | Durations add up to distances between decode times |
| `FragmentBoxes.EndTimeIs` | `mov/source/mov-trun.c:101-110` | The durations of a fragment end one assumed step behind its last sample |
| `IndexWriters.WriteMfra` | `mov/source/fmp4-writer.c:178-205` | Appends the `mfra` printed front to back, one `tfra` for each track, whether it has entries or not, its size patched in |
| `IndexWriters.WriteTfra` | `mov/source/mov-tfra.c:61-87` | Appends the `tfra` of a track and returns its size |
| `IndexRead.TfraStep` | `mov/source/mov-tfra.c:7-59` | A written `tfra`, wherever it stands, replaces the index of its track, or makes the reader give up if the track is not known |
| `IndexRead.MfraRead` | `mov/source/mov-tfra.c:7-59` | A written `mfra` is read if and only if every track it names is known |
| `IndexRead.IndexesKeep` | `mov/source/mov-tfra.c:7-59` | Any number of them are read if and only if they name known tracks, and no sample changes |
| `MovReader.Reader.ReadTfra` | `mov/source/mov-tfra.c:7-59` | Reads the entries that the bytes say, with fields of one to four bytes, or fails for a track that is not known |
| `FragmentWriters.WriteTraf` | `mov/source/fmp4-writer.c:43-100` | Appends the `traf` printed front to back and returns its size; the queue stays |
| `FragmentWriters.WriteTruns` | `mov/source/fmp4-writer.c:88-96` | One `trun` for every contiguous run of samples |
| `FragmentWriters.WriteTfhd` | `mov/source/mov-tfhd.c:52-98` | Appends the `tfhd` that the flags announce |
| `FragmentWriters.WriteTfdt` | `mov/source/mov-tfdt.c:26-48` | Appends `tfdt` in 32 or 64 bits by the value |
| `FragmentWriters.WriteTrun` | `mov/source/mov-trun.c:86-163` | Appends the `trun` with the chosen fields, size and offset patched in; nothing for no samples |
| `FragmentWriters.Choose` | `mov/source/mov-trun.c:97-110` | A field is written if and only if some sample of the run differs from the default |
| `MovReader.Reader.ReadTfhd` | `mov/source/mov-tfhd.c:5-50` | Finds the track, its defaults and where data offsets count from, by the flags |
| `MovReader.Reader.ReadTfdt` | `mov/source/mov-tfdt.c:8-24` | Base time from either version, plus the empty edits |
| `MovReader.Reader.AddEdits` | `mov/source/mov-elst.c:125-136` | Adds up the empty edits of a track |
| `MovReader.Reader.ReadTrun` | `mov/source/mov-trun.c:8-84` | Computes place, times and key flag of every sample as the pure parser does |
| `MovReader.Reader.Find` | `mov/source/mov-track.c:58-67` | The index of the track of that id, or none |
| `MovReader.Reader.ReadTrex` | `mov/source/mov-trex.c:7-24` | Fetches the track, new if need be, and keeps its defaults |
| `FragmentRead.TfhdRead` | `mov/source/mov-tfhd.c:5-98` | A written `tfhd` is read back, data offsets counting from the `moof` |
| `FragmentRead.TfdtRead` | `mov/source/mov-tfdt.c:8-48` | A written base time is read back from either version |
| `FragmentRead.TrunRead` | `mov/source/mov-trun.c:8-163` | A written run is read back sample by sample, whichever optional fields were chosen |
| `FragmentRead.MoofRead` | `mov/source/fmp4-writer.c:102-135` | A written `moof`, wherever it stands, gives every track the samples of its queue if the reader knows all those tracks, and is refused otherwise |
| `FragmentRead.TrafRefused` | `mov/source/mov-tfhd.c:14-16` | A `traf` of a track that is not known makes the reader give up |
| `FragmentIntro.WriteIntro` | `mov/source/fmp4-writer.c:137-164` | Appends `ftyp` and the `moov` of tracks without samples, byte for byte the one printed front to back |
| `FragmentIntro.EmptyTrak` | `mov/source/fmp4-writer.c:154-164` | A track in front of the fragments has no duration, no edit list and empty tables |
| `FragmentIntro.WriteMvex` | `mov/source/fmp4-writer.c:20-41` | Appends `mvex` with one `trex` for each track |
| `IntroRead.AnnouncedIs` | `mov/source/mov-stsz.c:18-26` | Behind a `moov` the reader knows every track it names and has no sample of any of them, whatever it had before |
| `IntroRead.IntroIsRead` | `mov/source/mov-reader.c:94-116` | A written `ftyp` and `moov` in front of a fragment, wherever they stand, are read so |
| `FragmentFile.OneFragment` | `mov/source/fmp4-writer.c:223-321` | A whole fragment, with or without indexes and a `moov` in front, `moof` and `mdat`, is read back behind what its `moov` leaves of the tracks, or refused if an index or its `moof` names a track that is not known |
| `FragmentFile.WholeFile` | `mov/source/fmp4-writer.c:223-321` | So is a file of any number of them, with or without indexes at the end |
| `FragmentFile.AllComesBack` | `mov/source/fmp4-writer.c:503-522` | Over a whole run every flushed sample comes back if and only if there is one `moov` only, no flushed sample of a track that it does not announce, and no index that names such a track or any track before the `moov` |
| `FragmentFile.RunKnown` | `mov/source/mov-tfra.c:19-21` | With one `moov` the reader gets to the end if and only if it announces every track with a flushed sample and every track of an index, and no index in front of it names a track |
| `FragmentFile.LostBefore` | `mov/source/mov-stsz.c:18-26` | Behind a `moov` nothing is left of what was flushed before it |
| `FragmentFile.Lost` | `mov/source/mov-stsz.c:18-26` | Each `moov` but the first costs some track at least one sample |
| `Segments.TwoSegments` | `mov/source/fmp4-writer.c:503-522` | Two key frames written as two segments of one file: a reader succeeds and has only the second |
| `Segments.LateTrackClosed` | `mov/source/fmp4-writer.c:377-389` | Two key frames, then a second track that never gets a sample, then the segment is closed: one `moov`, no late sample, and yet the file cannot be read |
| `Segments.EarlySegment` | `mov/source/fmp4-writer.c:503-522` | A segment closed before anything is queued, then a key frame and the end: one `moov`, one track, and yet the file cannot be read |
| `FragmentEnd.DataPlaced` | `mov/source/fmp4-writer.c:282-310` | The bytes of sample j of track i stand in the file at the sum of what is in front of them |
| `FragmentEnd.PlacedExactly` | `mov/source/fmp4-writer.c:260-293` | The file position that is read for a sample is the one where its bytes are, if and only if `mdat_size + 8` fits 32 bits and its track starts within 31 bits behind `moof` |
| `FragmentEnd.LateTrackMisplaced` | `mov/source/mov-trun.c:33-35` | A fragment of two tracks, 2 GiB less one byte of video in front of 100 bytes of audio, whose `mdat` fits 32 bits: the audio sample is read from the wrong place, the data offset being signed |
| `FragmentEnd.DecodeTime` | `mov/source/mov-trun.c:42-79` | For non-decreasing dts with 32-bit steps the dts read is dts - start_dts, whichever fields were chosen |
| `FragmentEnd.PresentationTime` | `mov/source/mov-trun.c:60-72` | pts - dts comes back if and only if it fits 32 signed bits |
| `FragmentEnd.KeyFlags` | `mov/source/mov-trun.c:37-73` | Key flags come back if and only if the fragment starts with a key frame and the rest are key frames exactly for audio |
| `FragmentEnd.KeyGained` | `mov/source/mov-trun.c:37-73` | A video fragment of one sample that is no key frame is read as a key frame |
| `FragmentEnd.FragmentSame` | `mov/source/fmp4-writer.c:223-321` | The samples of one track in one fragment are read back with bytes and times |
| `FragmentEnd.RunRead` | `mov/source/fmp4-writer.c:223-321` | Over a whole run the flushed samples of a track are read back in their order with bytes and times |
| `FragmentEnd.FlushedFront` | `mov/source/fmp4-writer.c:392-443` | What has been flushed is the front of what was sent, and all of it when the queue is empty |
| `FragmentEnd.TurnedTimes` | `mov/source/fmp4-writer.c:403-411` | A fragment flushed by the next key frame of its track ends, by its durations, at the time of that key frame |
| `FragmentRuns.WriteRun` | `mov/source/fmp4-writer.c:392-443` | The same for a whole run from an empty file, given as a list of calls that add tracks, give user data and write samples in any order |
| `FragmentEnd.WriteSeamless` | `mov/source/fmp4-writer.c:403-411` | With one video track every write keeps this: each fragment begins where the durations of the previous one end, with no gap and no overlap |
| `RtpPacket.Packet.ParsePacket` | `rtsp/mk_rtsp_rtp_packet.cpp:29-95` | Accepts exactly the packets with version 2 whose sources and extension fit; the padding is what the last byte says, or what it was before when the packet has none |
| `RtpPacket.AcceptedIs` | `rtsp/mk_rtsp_rtp_packet.cpp:29-95` | A packet is accepted if and only if a sender can have laid it out by section 5.1 of RFC 3550: some header, any sources and extension, anything behind |
| `RtpPacket.PaddedParsed` | `rtsp/mk_rtsp_rtp_packet.cpp:47-51` | Of a padded packet the payload lies between header and padding, whatever padding was seen before |
| `RtpPacket.SentParsed` | `rtsp/mk_rtsp_rtp_packet.cpp:29-95` | Whatever source list and extension an unpadded packet carries, its payload, marker, type, number and timestamp are found |
| `Depacketizer.Sink.HandleH264Frame` | `rtsp/mk_rtsp_connection.cpp:933-1044` | Hands over what the packets of a frame assemble to, or nothing if one of them cannot be used; the timestamp is that of the last packet |
| `Depacketizer.Sink.HandleH265Frame` | `rtsp/mk_rtsp_connection.cpp:1045-1154` | The same for H.265, with the timestamp of the first packet |
| `Depacketizer.Sink.HandleSingle` | `rtsp/mk_rtsp_connection.cpp:968-999` | A frame of one packet goes out behind a start code |
| `Depacketizer.Sink.AddH264` | `rtsp/mk_rtsp_connection.cpp:1001-1036` | One fragment behind what has been put together, the NAL header rebuilt from the first |
| `Depacketizer.Sink.AddH265` | `rtsp/mk_rtsp_connection.cpp:1112-1147` | The same with the two-byte header of H.265; a payload of two bytes is refused |
| `Depacketizer.TooShort` | `rtsp/mk_rtsp_connection.cpp:1124-1145` | The one payload that passes the length test of the original and is shorter than the fragment prefix has exactly two bytes and is H.265 |
| `Depacketizer.PrefixBits264` | `rtsp/mk_rtsp_connection.cpp:1001-1036` | What the fragments of a unit look like: bits by section 5.8 of RFC 6184 |
| `Depacketizer.PrefixBits265` | `rtsp/mk_rtsp_connection.cpp:1112-1147` | Bits by section 4.4.3 of RFC 7798 |
| `Depacketizer.HeaderBack` | `rtsp/mk_rtsp_connection.cpp:1019-1031` | The rebuilt NAL header is the one that was split, for both codecs |
| `Depacketizer.Reassembled` | `rtsp/mk_rtsp_connection.cpp:1001-1154` | A unit sent in two or more unpadded fragments comes back whole behind the start code |
| `Depacketizer.PayloadIs` | `rtsp/mk_rtsp_connection.cpp:968-999` | The payload of a padded packet is used if and only if it has two bytes or more |
| `Depacketizer.PaddingSticks` | `rtsp/mk_rtsp_rtp_packet.cpp:47-51` | A packet without padding loses as many bytes as the one before it was padded with |
| `Depacketizer.PaddedReassembled` | `rtsp/mk_rtsp_connection.cpp:1001-1154` | A unit whose fragments all have padding of their own comes back whole, without the padding |
| `Depacketizer.PaddingLost` | `rtsp/mk_rtsp_connection.cpp:1001-1154` | Two fragments, the first padded, the second not: the unit comes out short by that padding |
| `Depacketizer.Remainder` | `rtsp/mk_rtsp_connection.cpp:1001-1154` | Two or more fragments from the end of a unit come out behind the unit header as if they were all of it: the start flag is not looked at |
| `Depacketizer.SentCarries` | `rtsp/mk_rtsp_rtp_packet.cpp:29-95` | Packets laid out by section 5.1 of RFC 3550 carry their payload where the reassembly looks for it |
| `FrameCache.ArriveGood` | `rtsp/mk_rtsp_rtp_frame_organizer.cpp:58-125` | Whatever arrives, queues stay non-empty, of one timestamp and sorted, and no more frames are filed than configured |
| `FrameCache.FinishedIs` | `rtsp/mk_rtsp_rtp_frame_organizer.cpp:228-289` | A frame is handed over only if it is the earliest, strictly consecutive without a wrap of the 16-bit numbers, and has a marker; it leaves the cache and all its buffers go back |
| `FrameCache.Evicted` | `rtsp/mk_rtsp_rtp_frame_organizer.cpp:93-111` | A packet is turned down if and only if its timestamp is new and every frame is taken |
| `FrameCache.EvictsEarliest` | `rtsp/mk_rtsp_rtp_frame_organizer.cpp:93-111` | Then the earliest frame leaves with all its buffers, nothing is handed over, all other frames stay, and one frame is free |
| `FrameCache.NextAccepted` | `rtsp/mk_rtsp_rtp_frame_organizer.cpp:93-111` | The packet that arrives next is kept, whatever it is |
| `FrameCache.OthersStay` | `rtsp/mk_rtsp_rtp_frame_organizer.cpp:58-125` | An arrival changes no frame but that of its timestamp, and at most one leaves; a frame keeps the payload type of its first packet |
| `FrameCache.ArriveOwns` | `rtsp/mk_rtsp_rtp_frame_organizer.cpp:58-125` | Conservation: an arriving packet changes the place of buffers, none is lost, none is in two places |
| `FrameCache.InsertSorted` | `rtsp/mk_rtsp_rtp_frame_organizer.cpp:174-226` | Insertion keeps a queue sorted |
| `FrameCache.InsertOne` | `rtsp/mk_rtsp_rtp_frame_organizer.cpp:174-226` | Insertion adds one packet and loses none |
| `FrameCache.InsertWhere` | `rtsp/mk_rtsp_rtp_frame_organizer.cpp:174-226` | A packet goes between those before and those behind it; one with a number that is there goes to the end of the queue if it equals the last, else in front of its like |
| `FrameCache.AnyOrder` | `rtsp/mk_rtsp_rtp_frame_organizer.cpp:174-226` | Packets with consecutive numbers end up in the order they were sent, whatever order they came in |
| `FrameCache.GatherRun` | `rtsp/mk_rtsp_rtp_frame_organizer.cpp:58-125` | While a timestamp is the earliest and its marker is missing, its packets gather, whatever arrives in between |
| `FrameCache.Delivered` | `rtsp/mk_rtsp_rtp_frame_organizer.cpp:228-289` | When the marker comes last the frame is handed over whole and in order |
| `HandOver.FirstIs` | `rtsp/mk_rtsp_rtp_frame_organizer.cpp:228-289` | For any order of arrival, between any packets of later frames: what is handed over first is the shortest run of arrivals that is, in some order, an end of the frame, and it is that end in order; before that nothing is handed over |
| `HandOver.HandedOverWhole` | `rtsp/mk_rtsp_rtp_frame_organizer.cpp:228-289` | When each packet of the earliest frame arrives, the frame is handed over whole if and only if no shorter run of arrivals is an end of it |
| `HandOver.CutShort` | `rtsp/mk_rtsp_rtp_frame_organizer.cpp:228-264` | A frame of two packets that arrive the wrong way round is handed over without its first one |
| `HandOver.WrapNotWhole` | `rtsp/mk_rtsp_rtp_frame_organizer.cpp:249-258` | A frame that holds the numbers 65535 and 0 is handed over only with all 65536 numbers |
| `HandOver.WrapStuck` | `rtsp/mk_rtsp_rtp_frame_organizer.cpp:174-264` | A frame of two packets numbered 65535 and 0, arriving in order, is not handed over |
| `FrameCache.TakeApart` | `rtsp/mk_rtsp_service.cpp:108-122` | A buffer taken from the pool is in no queue and not in the pool; all others keep their place |
| `FrameCache.ReturnApart` | `rtsp/mk_rtsp_service.cpp:123-134` | A buffer that is in no queue can go back without ever being in two places |
| `FrameOrganizer.Service.constructor` | `rtsp/mk_rtsp_service.cpp:209-232` | The pool holds every one of its buffers, none of them twice |
| `FrameOrganizer.Service.GetRtpRecvBuf` | `rtsp/mk_rtsp_service.cpp:108-122` | Takes the first free buffer, if there is one; with no buffer free twice, it is free no longer |
| `FrameOrganizer.Service.FreeRtpRecvBuf` | `rtsp/mk_rtsp_service.cpp:123-134` | Gives a buffer back at the end; one that was not free leaves no buffer free twice |
| `FrameOrganizer.Frame.Insert` | `rtsp/mk_rtsp_rtp_frame_organizer.cpp:174-207` | Computes the sorted insertion |
| `FrameOrganizer.Frame.InsertRange` | `rtsp/mk_rtsp_rtp_frame_organizer.cpp:209-226` | Always finds a slot when the packet comes before the last one |
| `FrameOrganizer.Organizer.constructor` | `rtsp/mk_rtsp_rtp_frame_organizer.cpp:29-56` | All configured frames are free |
| `FrameOrganizer.Organizer.InsertRtpPacket` | `rtsp/mk_rtsp_rtp_frame_organizer.cpp:58-125` | Free list and map together hold exactly the configured frames, each once; cache, pool and output become what the pure step says; false means the buffer stays with the caller |
| `FrameOrganizer.Organizer.InsertFrame` | `rtsp/mk_rtsp_rtp_frame_organizer.cpp:322-335` | A free frame filed under the timestamp, or none when all are taken |
| `FrameOrganizer.Organizer.GetSmallFrame` | `rtsp/mk_rtsp_rtp_frame_organizer.cpp:337-363` | The frame of the least timestamp |
| `FrameOrganizer.Organizer.CheckFrame` | `rtsp/mk_rtsp_rtp_frame_organizer.cpp:228-264` | Hands over and releases the earliest frame if it is whole, else nothing |
| `FrameOrganizer.Organizer.IsConsecutive` | `rtsp/mk_rtsp_rtp_frame_organizer.cpp:249-258` | Walks the queue and decides whether the 16-bit numbers are consecutive |
| `FrameOrganizer.Organizer.ReleaseRtpPacket` | `rtsp/mk_rtsp_rtp_frame_organizer.cpp:291-321` | All buffers of the frame back to the pool, the frame back to the free list |
| `FrameOrganizer.Organizer.Evict` | `rtsp/mk_rtsp_rtp_frame_organizer.cpp:93-111` | When every frame is taken the earliest one is given up |
| `FrameOrganizer.Organizer.Release` | `rtsp/mk_rtsp_rtp_frame_organizer.cpp:127-157` | All buffers of all queues go back to the pool, the earliest frame first; no frame is left |
| `RtspStream.ParseConcat` | `rtsp/mk_rtsp_connection.cpp:180-232` | Parsing what has come and then the leftover with the rest is parsing everything at once |
| `RtspStream.RestBounded` | `rtsp/mk_rtsp_connection.cpp:180-232` | The leftover is less than one frame, so room for the next receive always remains |
| `RtspStream.StartWaits` | `rtsp/mk_rtsp_connection.cpp:459-470` | The beginning of a frame, however short, is kept until the rest has come |
| `RtspStream.StreamEnds` | `rtsp/mk_rtsp_connection.cpp:393-475` | A payload of more than 1500 bytes ends the connection; so does, in this model, anything that does not start with a dollar sign |
| `RtspStream.StreamParsed` | `rtsp/mk_rtsp_connection.cpp:459-508` | Frames with payloads of at most 1500 bytes are all found again, in order |
| `Dispatch.HandleOwns` | `rtsp/mk_rtsp_connection.cpp:237-379` | One frame off the wire, whatever it holds: no buffer is lost, freed twice or in two queues |
| `Dispatch.HandleAllOwns` | `rtsp/mk_rtsp_connection.cpp:459-508` | The same over any number of frames |
| `Dispatch.ChunkIndependent` | `rtsp/mk_rtsp_connection.cpp:180-232` | However a stream is cut into receives, the same frames are handled in the same order: output, cache, pool and state of the connection are the same |
| `Dispatch.SharedStep` | `rtsp/mk_rtsp_service.cpp:108-134` | Many connections on one pool: a step of one leaves what the others hold, and the set of all buffers |
| `FrameCache.ReleaseAllOwns` | `rtsp/mk_rtsp_rtp_frame_organizer.cpp:127-157` | A cache that is given up gives every buffer it holds back to the pool, each once |
| `Connections.RunKeeps` | `rtsp/mk_rtsp_service.cpp:108-134` | Conservation for every run: connections come, receive any bytes and go, in any order and number; every buffer stays in one place, the pool or one queue of one connection, and none is lost or made up |
| `Connections.PoolRestored` | `rtsp/mk_rtsp_rtp_frame_organizer.cpp:19-28` | After any run, once every connection has gone, the pool holds the buffers it began with, each of them once |
| `Connections.HappenKeeps` | `rtsp/mk_rtsp_rtp_frame_organizer.cpp:127-157` | One event keeps both |
| `Units.EndDelivered` | `rtsp/mk_rtsp_connection.cpp:237-392` | Main result for the receive path, over the frames of a connection. The fragments of a unit come over the wire in any order and between any other frames, while the pool does not run dry, the cache has room and their timestamp is the earliest: with the packet that first makes what has come an end of the unit, the client gets exactly one unit more, put together from that end |
| `Units.UnitDelivered` | `rtsp/mk_rtsp_connection.cpp:237-392` | What the client gets then is the whole unit behind a start code if and only if, but for empty pieces, all of the unit has come, in more than one packet |
| `Units.MarkerLast` | `rtsp/mk_rtsp_connection.cpp:237-392` | With the packet that carries the marker last to come, the client gets the whole unit, whatever the order of the others |
| `Units.UnitReceived` | `rtsp/mk_rtsp_connection.cpp:180-232` | The same from the bytes of the connection, however they are cut into receives |
| `Units.RunIs` | `rtsp/mk_rtsp_connection.cpp:237-326` | The cache after any frames of a connection is that after the packets that were filed, each in the buffer taken for it |
| `Dispatch.UnitPassedOn` | `rtsp/mk_rtsp_connection.cpp:251-326` | A unit in one packet on channel 0, of the type announced for its codec, goes straight to the client behind 00 00 00 01, and its buffer back to the pool |
| `Dispatch.AudioPassedOn` | `rtsp/mk_rtsp_connection.cpp:327-369` | Audio on channel 2 goes straight to the client as the law its static payload type, 0 or 8, says |
| `Dispatch.PaddedPassedOn` | `rtsp/mk_rtsp_connection.cpp:251-326` | The same for a padded packet, without the padding |
| `Dispatch.PaddedAudioPassedOn` | `rtsp/mk_rtsp_connection.cpp:327-369` | Audio without its padding |
| `Dispatch.UselessIgnored` | `rtsp/mk_rtsp_connection.cpp:237-392` | RTCP, unknown channels, what no sender lays out, and payload types nobody announced leave client and cache as they were, and the buffer goes back |
| `Dispatch.NoBufferNoFrame` | `rtsp/mk_rtsp_connection.cpp:476-480` | Without a free buffer a frame changes nothing |
| `Dispatch.OutGrows` | `rtsp/mk_rtsp_connection.cpp:237-392` | What the client has been given stays given; a frame brings one thing more at most |
| `Dispatch.FrameReceived` | `rtsp/mk_rtsp_connection.cpp:459-508` | From bytes: a dollar sign, a channel, a length and as many bytes are one frame of that channel |
| `RtspConnection.Connection.constructor` | `rtsp/mk_rtsp_connection.cpp:15-50` | An open connection with nothing received and an empty cache |
| `RtspConnection.Connection.HandleRecv` | `rtsp/mk_rtsp_connection.cpp:180-232` | One receive does what the pure step says and keeps the unused bytes at the front of the buffer; room remains |
| `RtspConnection.Connection.Destroy` | `rtsp/mk_rtsp_connection.cpp:52-65` | With its organizer gone the connection is the closed one of the pure run |
| `RtspConnection.Connection.UseFrames` | `rtsp/mk_rtsp_connection.cpp:203-224` | The loop over the buffer handles exactly the complete frames |
| `RtspConnection.Connection.ProcessRecvedMessage` | `rtsp/mk_rtsp_connection.cpp:393-412` | An interleaved frame is handled, its size returned; 0 while it is not all there |
| `RtspConnection.Connection.HandleRtpRtcpData` | `rtsp/mk_rtsp_connection.cpp:459-508` | A buffer is taken for the frame and freed unless the handler has it; without a buffer the frame is dropped |
| `RtspConnection.Connection.HandlePayload` | `rtsp/mk_rtsp_connection.cpp:478-504` | By channel to its handler; an unknown channel frees the buffer |
| `RtspConnection.Connection.HandleVideo` | `rtsp/mk_rtsp_connection.cpp:241-326` | Whole units out, fragments to the organizer, everything else back to the caller |
| `RtspConnection.Connection.HandleUnit` | `rtsp/mk_rtsp_connection.cpp:251-325` | The choice between handing a unit over and filing a fragment |
| `RtspConnection.Connection.HandleAudio` | `rtsp/mk_rtsp_connection.cpp:327-369` | G.711 payloads out, everything else back to the caller |
| `FileCache.CachedFile.Read` | `mk_mov_file_buffer.c:41-81` | The loop ends; it succeeds if and only if that many bytes are left, and delivers those of the plain file |
| `FileCache.CachedFile.Fill` | `mk_mov_file_buffer.c:59-65` | Refills the buffer unless the file ends here |
| `FileCache.CachedFile.Take` | `mk_mov_file_buffer.c:68-77` | Bytes out of the buffer are the next bytes of the file |
| `FileCache.CachedFile.Write` | `mk_mov_file_buffer.c:83-106` | Disk overlaid with the pending bytes is what a plain write makes of it |
| `FileCache.CachedFile.Seek` | `mk_mov_file_buffer.c:108-127` | Changes no content; lands where a plain seek lands; a seek that goes elsewhere writes out what is pending |
| `FileCache.CachedFile.Tell` | `mk_mov_file_buffer.c:129-135` | The assertion: the disk position is tell + len - off |
| `FileCache.ReadBehindSeek` | `mk_mov_file_buffer.c:41-127` | What the plain file does: a read delivers the bytes from where the last seek led, counted from the start, or from the end if negative; it fails when there are fewer |
| `FileCache.Replay` | `mk_mov_file_buffer.c:41-127` | Every trace of reads and seeks delivers what the plain file delivers, operation by operation |
| `FileCache.ReplayWrites` | `mk_mov_file_buffer.c:83-127` | Every trace of writes and seeks leaves the plain file, as disk overlaid with pending bytes |
| `FileCache.WriteBehindSeek` | `mk_mov_file_buffer.c:83-127` | The same for a write |
| `FileCache.WriteAtConcat` | `mk_mov_file_buffer.c:83-106` | Writing in two parts is writing at once, also behind the end of the file: why gathering is sound |

## Left out

Contracts that say less than they might:

- MovReader.Reader.ReadBoxes: states the outcome for files that the pure parser accepts or gives up on at an unknown track; of others only that the walk ends and the tracks stay well formed. A size of 0 ("to the end of the file"), a size that does not cover its own header, and tables whose counts do not match their box count as malformed. The flag that stops after one fragment is not modelled.
- MovReader.Reader.ReadBox: boxes of the parse table that nothing here depends on are skipped over.
- MovReader.Reader.ReadTkhd: of `tkhd` the track id only.
- MovReader.Reader.ApplyTrack: what the apply passes assert of the tables is an error here; a second `trak` of a track replaces the tables it names, as in a build without assertions.
- MovReader.Reader.ReadSample: for a given track; which track's turn it is (`mov_reader_next`) is not modelled.
- EndToEnd.CloseAndRead: asks for non-empty samples, pts within 31 bits of dts, and a closed file within the limits of the format (`moov` below 4 GiB, times below 64 bits). A build with assertions stops when it moves a `moov` of 2 GiB or more to the front (`mov-writer.c:196`). Allocation failures and failing devices are excluded.
- EndToEnd.WriteAndRead: as EndToEnd.CloseAndRead; fewer than 2^32 - 1 calls.
- MovWriter.Writer.AddTrack: the sample description is an opaque box of fixed bytes; both timescales are 1000, as the writer sets them; fewer than 2^32 tracks.
- Fmp4Writer.FWriter.AddTrack: the same.
- Fmp4Writer.FWriter.Flush: sample sizes are below 4 GiB; segment mode with its `styp` and `sidx` is not modelled.
- Fmp4Writer.FWriter.WriteFragment: as Fmp4Writer.FWriter.Flush.
- Fmp4Writer.FWriter.SaveSegment: without segment mode.
- Fmp4Writer.FWriter.Destroy: the same; freeing memory is not modelled.
- MovReader.Reader.ReadTfra: when the pure parser counts the box as malformed, only that the tracks stay well formed. The value of `mfro` and the seek that uses the index are not modelled.
- FragmentRuns.WriteRun: a run without a segment closed in between: closing one flushes with the duration last assumed for a last sample, so what comes next need not begin where it ends.
- FragmentEnd.ReadFragments: asks that `moof`, `moov` and `mfra` fit their 32-bit sizes and that no track has more than 2^32 - 1 samples in a fragment.
- FragmentEnd.DestroyAndRead: the same of the file that is left.
- RtspStream.StreamEnds: as RtspConnection.Connection.ProcessRecvedMessage.
- RtspConnection.Connection.ProcessRecvedMessage: anything but an interleaved frame ends the connection; in the original it may be an RTSP response.
- RtspConnection.Connection.HandleRecv: given the bytes that the socket delivered; a failed receive is not modelled.
- RtspConnection.Connection.HandleVideo: a packet whose payload is missing is taken to be of unit type 0, where the original looks at whatever follows in the buffer; the client always offers room for a unit; padding longer than what is behind the header is refused, as in RtspConnection.Connection.HandleUnit.
- RtspConnection.Connection.HandleUnit: the client always offers room for a unit. Padding that is said to be longer than what is behind the header is refused (`Dispatch.Inside`); the original has no such test and counts the length below zero (`mk_rtsp_connection.cpp:256`, `mk_rtsp_connection.cpp:294-295`).
- RtspConnection.Connection.HandleAudio: the client always offers room for the payload. Padding that is too long is refused here too, where the original counts the length below zero (`mk_rtsp_connection.cpp:345-356`).
- Dispatch.HandleOwns: rests on these refusals, and on that of RtspConnection.Connection.HandleUnit; so does all that is built on it, Dispatch.HandleAllOwns and Connections.RunKeeps among it.
- RtspConnection.Connection.Destroy: UDP handles and the socket are not modelled.
- Connections.RunKeeps: connections are functions of their streams here; each of their steps is proved of the objects by RtspConnection.Connection.HandleRecv and RtspConnection.Connection.Destroy. All caches of a service have the same number of frames, as in the original, where it is a constant.
- Depacketizer.Sink.HandleH264Frame: packets shorter than the fragment prefix, or with more padding than payload, end the frame; the client always offers room; the key-frame label and the clock scaling of what is handed over are not modelled.
- Depacketizer.Sink.AddH265: refuses a payload of two bytes, which the original lets through its test (`mk_rtsp_connection.cpp:1124`) and whose length it then counts below zero (`mk_rtsp_connection.cpp:1143`); Depacketizer.TooShort says that this is the only such payload.
- Depacketizer.Sink.HandleH265Frame: as Depacketizer.Sink.AddH265 and Depacketizer.Sink.HandleH264Frame. Whatever is stated for every frame off the wire, such as Dispatch.HandleOwns, rests on this refusal.
- FileCache.CachedFile.Read: of a failing read only that it fails.

Parts of the repository that are not modelled:

- The fields of the header boxes (`mvhd`, `tkhd`, `mdhd`, `hdlr`, `vmhd`, `smhd`, `dref`) are written in one go; of `tkhd` only the track id is read back by the reader, `BoxFields` says where the others stand.
- Codec configuration boxes, `stsd` and `esds`: not part of this model. `stz2`, `cslg`, `leva`, `mehd`, uuid and QuickTime boxes: would add easy members.
- Box sizes above 32 bits wrap in the original; here a size is a natural number that is cut to 32 bits where it is written, and the results ask for `moov` and `moof` below that.
- Sample memory, the growth of the sample and track arrays, and overflow of 64-bit times.
- `mov_index_build`, the durations set by the reader's init, and `mov_fragment_seek`, which reports the time of one fragment and stands at another.
- RTSP requests and responses, SDP, digest authentication, sockets, timers, UDP receive, RTCP contents and sending, statistics counters, `handleOtherFrame` (never reached through `handleRtpFrame`).
- Receive buffers are named by number and carry the packet they hold; copying and the fixed 1500 bytes are modelled by the length check only.
- The file cache with reads and writes mixed without a seek in between, errors of the C library, and a final flush: the original has no close.
- The NAL bit reader (`mk_nal_sps_parse.cpp`), SPS decoding and the RTMP client: nothing else here depends on them.
