# StreamInfa media path: a Dafny model

StreamInfa takes live RTMP streams and uploads, cuts the encoded media into segments, packages them as fragmented MP4
with HLS playlists, stores them and tracks every stream's lifecycle. This project models the path that the media bytes
and the lifecycle events take, and the three stores beside it, and proves what the parts promise each other.

`dafny verify dfyconfig.toml` checks everything.

## What is modelled

| file | part of the system |
|---|---|
| `Bytes.dfy` | bytes, fixed-width numbers, the append-only buffer that the muxers write to |
| `BitReader.dfy`, `Sps.dfy` | the H.264 bit reader, its Exp-Golomb codes, and the SPS parser that finds the picture size |
| `SpsUnit.dfy` | what that parser makes of NAL units with scaling matrices and emulation prevention bytes |
| `AnnexB.dfy`, `StartCodes.dfy`, `AvcConfig.dfy`, `Demuxer.dfy`, `Records.dfy` | NAL units in Annex B and length-prefixed form, start codes of both lengths, the AVC decoder configuration record, the FLV video demuxer, records with any number of entries |
| `Rtmp.dfy` | the RTMP chunk reader and the reply writer |
| `BoxTree.dfy`, `Fmp4.dfy`, `Descriptors.dfy`, `MediaSegment.dfy` | ISO base media boxes written and parsed, the init segment and media segment muxers, the descriptors inside `esds` |
| `InitReader.dfy`, `FragmentReader.dfy`, `BoxBytes.dfy` | readers of init and media segments, field by field at the places the standard gives them, and the bytes of what is fixed in them |
| `AacConfig.dfy` | the AudioSpecificConfig of AAC-LC, written and read |
| `Segmenter.dfy`, `CutPoints.dfy` | the segment accumulator against a greedy partition of its packets, and where that cuts, by index |
| `Playlist.dfy`, `PlaylistReader.dfy`, `SegmentIndex.dfy` | the playlist printer, a reader of its text by tags, and the sliding window |
| `Cleanup.dfy`, `CleanupRules.dfy` | the retention task that reads playlists back, and its rules for arbitrary stored objects |
| `Packager.dfy`, `PackagerSafety.dfy` | the packaging task as a machine that emits writes and events, and the rules of its output |
| `StreamManager.dfy`, `StreamSystem.dfy`, `Events.dfy` | stream states and counters, all tasks that use them interleaved in small steps, the event handler |
| `Pipeline.dfy` | segmenters, packaging task and event handler together |
| `Playback.dfy` | segmenters, packaging task and a player that follows its playlists |
| `PlaylistPlayback.dfy`, `InitPlayback.dfy`, `FragmentPlayback.dfy`, `MasterPlayback.dfy` | what that player reads in media playlists, init segments, media segments and master playlists at every point of a run |
| `Cache.dfy`, `CacheOrder.dfy`, `KeyStore.dfy` | the LRU byte cache, the order in which it forgets, and the ingest key index |

Code that changes state in place is a class or a method with loops. Its contract ties the new state to a function of the
old one, and the promises are lemmas about those functions. Durations are whole ticks of 1/90000 second, texts are
sequences of characters. Widths matter where the source has them: 32-bit wrap-around in the SPS arithmetic and in the
muxer's offset, 8-, 16-, 24- and 32-bit length fields, saturating subtraction in the cache.

Every lemma switches automatic induction off, so that its body is its whole proof.

## What the proofs found

- The SPS size of a unit without a scaling matrix, and without an emulation prevention byte before the end of its
  cropping offsets, is right exactly for monochrome and 4:2:0, for 4:2:2 without vertical cropping and for 4:4:4 without
  cropping (`SpsUnits.UnitDimensions`).
- The reader does not remove emulation prevention bytes: one among the fields can give a wrong size
  (`SpsUnits.EscapeMisread` has 64 by 16 for 32 by 16), so that the restriction is sufficient, and cannot be dropped. Of
  any scaling matrix the reader takes two or four lists too few (`Sps.ScalingMatrixMisread`); even with no list in the
  matrix it can take the width for the height (`SpsUnits.ScalingMatrixSwapsSize`).
- An AudioSpecificConfig of more than 104 bytes breaks the descriptor lengths in `esds` (`Descriptors.EsdsRoundTrip`).
- The sample entry of audio says 48 kHz and two channels whatever the audio is (`src/package/runner.rs:85-93`,
  `InitPlayback.InitReachesPlayer`); the true ones are in the AudioSpecificConfig, exactly for twelve sampling rates and
  for one to six or eight channels, seven being announced as eight (`AacConfig.ConfigReadsBack`).
- `mvhd` always announces 2 as the next track's number (`src/package/hls.rs:132`, `BoxBytes.MvhdBytes`), which section
  8.2.2.3 of ISO/IEC 14496-12 wants larger than any in use; with audio, 2 is in use.
- A configuration record that ends within an SPS is not refused: what follows the length of that SPS is read as the PPS
  list (`Records.CutRecord`).
- `trun` is written with version 0 (`src/package/hls.rs:485-514`), in which composition time offsets have no sign: a
  negative one is read as a large positive one (`FragmentReader.FragmentReadsBack`). The packaging task writes 0 only.
- A media playlist is cached for one second, also that of a recorded upload (`Cache.ServedByKind`), although
  `src/storage/cache.rs:143` promises playlists of uploads the lifetime of segments.
- RTMP messages of several chunks come back exactly for stream ids below 64 without an extended timestamp
  (`Rtmp.ChunkRoundTrip`); at chunk size 0, which a peer may set, no payload ever completes (`Rtmp.ZeroChunkSizeStalls`).
- The cache's own capacity of entries drops entries without accounting for them; the books are then too high by exactly
  those bytes, never too low (`Cache.RunSound`). It happens at every capacity, with one distinct key more than there are
  slots (`Cache.DriftHappens`, and `Cache.DriftAtCapacity` at the 100,000 that the code has).
- A rendition whose encoder stops right after a cut has no last segment, hence no end marker and no completion, and its
  stream never gets READY (`Segmenter.NumberedAndTerminated`, `Pipeline.ReadyFromPackets`).
- A completion that overtakes the end of its stream is not looked at again: from its creation on, a stream gets READY if
  and only if all its renditions complete, and its end, after its start, and the expected count come before the last
  completion (`Events.ReadyExactly`).
- `docs/reliability-audit.md:100-113` describes the cleanup task deleting a segment that was just added to a playlist.
  What guards against it is the retention, and that the playlists are read after the objects are listed: a deleted segment
  is out of its playlist for good if and only if the playlist that was read had named it before
  (`Cleanup.DeletedStaysOut`). The race is there for a segment that is older than the retention before any playlist
  names it, as it can be at a retention of 0 (`Cleanup.UnnamedDeleted`), and for a playlist that cannot be read.
- Looking up the stream of a key and creating it are two steps (`src/ingest/rtmp.rs:283-301`). Two publishers with one key
  can both find the stream gone and both create it; the second puts a live stream back to PENDING
  (`StreamSystem.TwoPublishers`). The counters are right exactly in the runs in which no creation replaced an entry, and
  once wrong they stay wrong (`StreamSystem.BooksExactly`, `StreamSystem.BrokenForGood`); a lifecycle goes backwards
  exactly if a creation finds its stream past PENDING (`StreamSystem.NeverBackwardsExactly`); and the new stream can be
  removed, or made READY, in the place of the one it replaced (`StreamSystem.CreatedThenRemoved`,
  `StreamSystem.StaleDecision`).
- Rotating a key takes the lock twice, to drop the old keys and to add the fresh one (`src/core/auth.rs:171-190`), and
  other threads come in between. A rotation leaves its own key alone bound to the stream if and only if no other key was
  bound since its drop and kept (`KeyStore.RotationReplaces`); two rotations that overlap leave both
  (`KeyStore.TwoRotations`). In between a key that no record verifies is accepted if and only if all keys were bound to
  that stream, since an empty store accepts every key (`KeyStore.AcceptedInBetween`, `KeyStore.OpenInBetween`).
- A key that is recorded twice resolves by its last record, accepting goes by any (`KeyStore.ResolvesExactly`). Generated
  keys are random, so that this takes a configured key or a repeated draw.

## Model

| member | source | states |
|---|---|---|
| BitReader.BitReader.ReadBit | src/ingest/demuxer.rs:31-42 | a read yields the next unread bit and consumes exactly it, or nothing at the end |
| BitReader.BitReader.ReadBits | src/ingest/demuxer.rs:44-50 | a fixed-width read in 32-bit arithmetic, on the bits left unread |
| BitReader.BitReader.ReadUe | src/ingest/demuxer.rs:53-67 | the unsigned code reader with its guard against 32 leading zeros |
| BitReader.BitReader.ReadSe | src/ingest/demuxer.rs:69-76 | the signed code reader in 32-bit arithmetic |
| BitReader.ReadBitsTakes | src/ingest/demuxer.rs:44-50 | a read of up to 32 bits yields the number they spell and leaves what follows |
| BitReader.UeRoundTrip | src/ingest/demuxer.rs:53-67 | the code of v, at any position, is read as v with exactly its bits consumed iff v < 2^32 - 1; larger ones are refused |
| BitReader.ReadUeSound | src/ingest/demuxer.rs:53-67 | no other bit string is read as v: whatever is read was the code of its value |
| BitReader.SeRoundTrip | src/ingest/demuxer.rs:69-76 | the mapping of section 9.1.1 of ITU-T H.264 is inverted iff the value is between -2^31 and 2^31 exclusive |
| BitReader.FieldsRoundTrip | src/ingest/demuxer.rs:53-76 | any list of signed and unsigned codes decodes back in order, leaving what follows |
| Sps.ParseDimensions | src/ingest/demuxer.rs:495-638 | the parse of one SPS: the size it sets, if any, and whether 32-bit arithmetic overflowed on the way, also when it stops inside the scaling lists |
| Sps.SpsRead | src/ingest/demuxer.rs:500-609 | for every SPS whose raw bytes are laid out per section 7.3.2.1.1 without a scaling matrix, the parse reaches the size computation with the fields written |
| Sps.SpsDimensions | src/ingest/demuxer.rs:495-638 | of such bytes it reports exactly the cropped size of section 7.4.2.1.1 without overflow iff the cropping is of a supported chroma format |
| Sps.HighProfilesAgree | src/ingest/demuxer.rs:511-514 | chroma fields are looked for in exactly the profiles for which section 7.3.2.1.1 has them |
| Sps.PlainProfileDimensions | src/ingest/demuxer.rs:511-609 | every laid-out Baseline, Main or Extended SPS gets its cropped size |
| Sps.EverySpsHasBytes | src/ingest/demuxer.rs:500 | every choice of SPS fields, with anything behind them, has raw payload bytes that lay it out |
| Sps.ScalingMatrixMisread | src/ingest/demuxer.rs:525-556 | of any scaling matrix that section 7.3.2.1.1 writes, with whatever lists, exactly the first six (eight for 4:4:4) are read and the other two (four) are left and taken for the fields that follow |
| SpsUnits.ScalingMatrixSwapsSize | src/ingest/demuxer.rs:525-609 | for a picture of 16 by 16 (h + 1) with a matrix without lists, 16 (h + 1) by 16 is reported |
| SpsUnits.SwappedSize | src/ingest/demuxer.rs:525-609 | there is such an SPS for every h |
| SpsUnits.UnitDimensions | src/ingest/demuxer.rs:495-638 | for every NAL unit of an SPS without a scaling matrix, escaped per section 7.4.1 with no escape before the end of the cropping offsets, the cropped size is reported iff the cropping is supported |
| SpsUnits.EscapeWritten | src/ingest/demuxer.rs:500 | a payload that lays out an SPS of 32 by 16 samples |
| SpsUnits.EscapeMisread | src/ingest/demuxer.rs:500 | its unit, with an emulation prevention byte among the fields, is read as 64 by 16 |
| AnnexB.ExtractAvcParameterSets | src/package/runner.rs:339-387 | the scanner stays in bounds, ends, and yields the first SPS and PPS among the units of the stream |
| AnnexB.ScanInvertsStream | src/package/runner.rs:343-379 | scanning a stream of units without inner start codes gives those units back, trailing zero bytes included, and goes on behind them |
| StartCodes.ScanInvertsMixed | src/package/runner.rs:343-379 | scanning a stream with three-byte and four-byte start codes, in any mixture, gives its units back |
| StartCodes.FirstOfTypeIs | src/package/runner.rs:366-387 | a parameter set is the unit of its type that no other of that type comes before, and missing iff no unit is of its type |
| AnnexB.ExtractNalus | src/ingest/demuxer.rs:677-718 | length-prefixed data becomes the Annex B form of its non-empty units, with the keyframe flag iff one of them is an IDR unit, or is refused |
| AnnexB.SplitInvertsPrefixing | src/ingest/demuxer.rs:677-718 | every list of units survives being length-prefixed and split, with up to three stray bytes behind |
| AnnexB.SplitSound | src/ingest/demuxer.rs:677-718 | only length-prefixed data is accepted, and it splits into its own units |
| Demuxer.FlvDemuxer.ParseAvcDecoderConfig | src/ingest/demuxer.rs:422-492 | the record reader's new state and result, entry by entry, with truncated entries and oversized pictures |
| Demuxer.FlvDemuxer.DemuxVideo | src/ingest/demuxer.rs:232-332 | what a video tag does to the demuxer and yields: configuration, frame with parameter sets in front of keyframes, or error |
| Demuxer.AvcConfigRoundTrip | src/package/hls.rs:278-303 | the record the muxer writes is read back to the same SPS and PPS iff both are shorter than 65536 bytes |
| AvcConfig.RecordReadsBack | src/package/hls.rs:278-303 | a reader of section 5.3.3.1 of ISO/IEC 14496-15 finds in the record SPS, PPS, profile, compatibility, level and four-byte lengths iff both sets are shorter than 65536 bytes |
| Demuxer.AvcConfigCarriesSize | src/ingest/demuxer.rs:422-492 | written record, record reader and SPS parser together set the standard's cropped size, and accept iff it is at most 3840 by 2160, for SPS units without a scaling matrix and without an escape before the end of the cropping offsets |
| Demuxer.ConfigTag | src/ingest/demuxer.rs:232-252 | the tag of such a record sets parameter sets and size, and is accepted iff the size is at most 3840 by 2160 |
| Records.LastEntriesKept | src/ingest/demuxer.rs:422-492 | of a record with any number of entries the last SPS, the last PPS and the size of the last SPS that gives one are kept, and it is accepted iff that size is within 1 by 1 and 3840 by 2160 |
| Records.CutRecord | src/ingest/demuxer.rs:446-466 | of a record that ends within an SPS the complete ones are kept, and the rest is taken for the PPS list |
| Demuxer.NaluTagFrame | src/ingest/demuxer.rs:255-332 | any list of units in a tag comes out as a frame: a keyframe iff one is an IDR slice or the frame type is 1, of the size set last, its data the units behind start codes, and behind SPS and PPS iff it is a keyframe and both are known |
| Demuxer.OtherTags | src/ingest/demuxer.rs:232-332 | which tags are errors, which are passed over and which yield no frame; none of them changes what it should not |
| Demuxer.ParameterSetsPreserved | src/ingest/demuxer.rs:285-302 | scanning a keyframe payload, with more of the stream behind it, finds exactly the stored SPS and PPS |
| Demuxer.KeyframeCarriesParameterSets | src/ingest/demuxer.rs:232-332 | from the tag to the packager's scanner: a keyframe carries the demuxer's parameter sets, whatever follows a frame with units of its own |
| Demuxer.CompositionTimeSigned | src/ingest/demuxer.rs:255-260 | the composition time is the signed 24-bit number in its three bytes |
| Demuxer.FrameTimes | src/ingest/demuxer.rs:305-310 | a video frame's times are its tag's less the origin, which the first frame sets |
| Demuxer.OneOrigin | src/ingest/demuxer.rs:721-729 | over any run of video and audio tags, all frames are timed from the presentation time of the first, so that differences of times are kept |
| Rtmp.ChunkReader.SetChunkSize | src/ingest/rtmp.rs:1022-1026 | the chunk size is the one asked for, clamped to 65536 |
| Rtmp.ChunkReader.ReadMessage | src/ingest/rtmp.rs:1028-1114 | the message at the head of the input and exactly its bytes consumed, or none |
| Rtmp.ChunkRoundTrip | src/ingest/rtmp.rs:1028-1114 | a message chunked per section 5.3.1 of RTMP 1.0 comes back whole iff it fits one chunk or its continuation headers are one byte |
| Rtmp.Type1RoundTrip | src/ingest/rtmp.rs:1059-1066 | a message under a type-1 header comes back, with stream 0, under the same condition |
| Rtmp.ShorterHeadersEmpty | src/ingest/rtmp.rs:1067-1076 | headers of type 2 and 3 at the start of a message give an empty one |
| Rtmp.MessagesRoundTrip | src/ingest/rtmp.rs:1028-1114 | any sequence of messages at one chunk size parses back |
| Rtmp.ZeroChunkSizeStalls | src/ingest/rtmp.rs:1022-1026 | at chunk size 0 no message with a payload is completed |
| Rtmp.WriteRtmpMessage | src/ingest/rtmp.rs:907-921 | the bytes a reply appends to the buffer |
| Rtmp.ReplyIsSingleChunk | src/ingest/rtmp.rs:907-921 | a reply within chunk size and length field is the message the chunk format prescribes, on chunk stream 3 for commands and 2 for all else |
| Rtmp.ReplyRoundTrip | src/ingest/rtmp.rs:907-921 | a peer reads a reply back iff it fits the chunk size and the 24-bit length |
| BoxTree.TreeRoundTrip | src/package/hls.rs:16-32 | a box tree is written and parsed back, with no bytes left at any level, iff every box fits its 32-bit size |
| BoxTree.ParseSound | src/package/hls.rs:16-32 | whatever parses is the layout of a tree: writing it again gives back every byte |
| Fmp4.WriteBox | src/package/hls.rs:16-21 | appends a box of the given type around the content |
| Fmp4.BuildAvc1Entry | src/package/hls.rs:263-306 | appends the layout of the sample entry with its avcC box |
| Fmp4.BuildMp4aEntry | src/package/hls.rs:326-366 | appends the layout of the audio sample entry, with esds iff there is a configuration |
| Fmp4.GenerateInitSegment | src/package/hls.rs:73-390 | the whole init segment is the layout of the intended tree of boxes, for every parameter set |
| Fmp4.InitSegmentRoundTrip | src/package/hls.rs:73-390 | a box parser consumes the init segment and recovers that tree iff the movie box fits 32 bits |
| InitReader.InitReadsBack | src/package/hls.rs:73-390 | a reader finds in the init segment timescales, track ids, picture sizes, parameter sets, channels, sampling rate and audio configuration as given iff they fit their fields |
| BoxBytes.MvhdBytes | src/package/hls.rs:118-134 | every byte of mvhd but the timescale: rate, volume, unity matrix and 2 for the next track |
| BoxBytes.TkhdBytes | src/package/hls.rs:181-201 | every byte of tkhd but track, width and height: enabled and in the movie, volume only for sound, unity matrix |
| BoxBytes.TrexBytes | src/package/hls.rs:382-392 | samples use the first description and have no defaults |
| BoxBytes.Avc1Bytes | src/package/hls.rs:263-306 | every byte of the video sample entry but width and height |
| BoxBytes.Mp4aBytes | src/package/hls.rs:326-345 | every byte of the audio sample entry but the rate |
| BoxBytes.HandlerBytes | src/package/hls.rs:214-222 | handler types and names of the two tracks |
| BoxBytes.EmptyTables | src/package/hls.rs:244-262 | one sample description, and empty sample tables |
| BoxBytes.FixedBoxes | src/package/hls.rs:224-242 | types, flags and contents of the media headers and of the data reference to the file itself |
| BoxBytes.FileTypes | src/package/hls.rs:86-94 | the brands of init segments and media segments |
| Descriptors.EsdsRoundTrip | src/package/hls.rs:337-366 | the descriptor lengths in esds tile and nest as intended iff the configuration has at most 104 bytes |
| InitReader.ConfigFound | src/package/hls.rs:337-366 | a reader finds the audio configuration in esds iff it has at most 104 bytes |
| AacConfig.ConfigReadsBack | src/package/runner.rs:309-337 | the configuration says AAC-LC, sampling rate and channels iff the rate is one of twelve and the channels are one to six or eight |
| MediaSegment.GenerateMediaSegment | src/package/hls.rs:428-514 | the whole media segment is the layout of the intended tree |
| MediaSegment.MediaSegmentRoundTrip | src/package/hls.rs:428-514 | a box parser recovers that tree iff fragment and media data fit 32 bits |
| MediaSegment.MoofLength | src/package/hls.rs:453-514 | a fragment of n samples has 88 + 16 n bytes |
| MediaSegment.DataOffsetExact | src/package/hls.rs:494-500 | the data offset read from trun is the distance from moof to the first payload byte iff it fits a signed 32-bit number |
| MediaSegment.SizesReadExactly | src/package/hls.rs:485-514 | the sample count and sizes that a reader finds in trun are those given iff their number and each of them fit 32 bits |
| MediaSegment.SamplesTilePayload | src/package/hls.rs:428-514 | a player that parses the file, finds moof and trun and reads offset, count and sizes from the bytes gets the media data, cut into the given sizes, iff they sum to its length |
| FragmentReader.FragmentReadsBack | src/package/hls.rs:428-514 | a reader finds in the media segment sequence number, track, decode time and duration, size, flags and composition offset of every sample as given iff each fits its width, composition offsets without a sign |
| Segmenter.SegmentAccumulator.Push | src/transcode/segment.rs:143-173 | a pushed packet's effect on every field and the segment it ends, if any |
| Segmenter.SegmentAccumulator.Flush | src/transcode/segment.rs:176-181 | the final segment, iff there is video left |
| Segmenter.SegmentAccumulator.EmitSegment | src/transcode/segment.rs:184-226 | the emitted segment and the reset of the buffers |
| Segmenter.SegmentAll | src/transcode/segment.rs:143-226 | pushing all packets and flushing yields exactly the greedy partition, numbered from 0 |
| Segmenter.RunRefines | src/transcode/segment.rs:143-173 | after any pushes, the segments so far and the buffers are those of the partition that cuts at the first video keyframe at least the target past the segment's start |
| CutPoints.SegmentsExactly | src/transcode/segment.rs:143-226 | segments are consecutive stretches of the packets, each up to the first video keyframe at least the target past its start, with first time, duration, video and audio of its packets; what is left is the last one iff it has video |
| Segmenter.NumberedAndTerminated | src/transcode/segment.rs:176-226 | sequences are 0, 1, 2, …; only the final segment can be marked last, and is iff video follows the last cut |
| Segmenter.MediaConserved | src/transcode/segment.rs:143-210 | concatenated segment video is all video pushed; audio is lost only as the residue of a flush without video |
| Segmenter.SegmentsInOrder | src/transcode/segment.rs:184-210 | with non-decreasing times, no segment starts before the one before it ends |
| Segmenter.SegmentDurations | src/transcode/segment.rs:143-210 | with keyframes at most G apart, every non-final segment lasts at least the target T and less than T + G |
| Playlist.GenerateMediaPlaylist | src/package/manifest.rs:90-142 | the text is the lines of header, segments and end marker, in order |
| Playlist.TargetDurationLeast | src/package/manifest.rs:98-104 | the target duration is the least positive number of seconds that no segment exceeds |
| PlaylistReader.HeaderReadBack | src/package/manifest.rs:98-118 | a reader of the text finds version, type, init segment, the first listed number, and as target duration the least positive number of seconds that no segment exceeds |
| PlaylistReader.ItemsReadBack | src/package/manifest.rs:120-132 | and the listed segments in order, each with date, duration and file name |
| Playlist.FilenamesDiffer | src/package/manifest.rs:174-176 | zero-padded decimal file names are injective, past six digits as well |
| PlaylistReader.FilenameFormat | src/package/manifest.rs:174-176 | a file name is the number in decimal, with zeros in front up to six digits and no further, and `.m4s` |
| SegmentIndexes.SegmentIndex.AddSegment | src/package/segment_index.rs:73-103 | the new window, the next number and the evicted entry |
| SegmentIndexes.SegmentIndex.GeneratePlaylist | src/package/segment_index.rs:106-119 | the text is the media playlist of the window's entries |
| SegmentIndexes.WindowIsLatest | src/package/segment_index.rs:73-103 | after any additions the window holds exactly the latest ones, contiguous and as added |
| SegmentIndexes.AnnouncedSequence | src/package/segment_index.rs:106-119 | the media sequence number is the count of segments that have left the window |
| Cleanup.AddReferenced | src/storage/cleanup.rs:96-108 | the keys a playlist text protects are added, line by line |
| Cleanup.CleanLiveStream | src/storage/cleanup.rs:80-133 | afterwards exactly the expired, unreferenced segments whose deletion succeeds are gone |
| Cleanup.ScanInvertsPlaylist | src/storage/cleanup.rs:96-108 | reading a generated playlist back gives the file names of its window, in order, and nothing else |
| Cleanup.ReferencedIsWindow | src/package/manifest.rs:90-176 | a stored playlist protects exactly the segment paths of its window |
| Cleanup.SegmentPathsDiffer | src/package/manifest.rs:150-152 | segment paths determine rendition and sequence number |
| Cleanup.ProtectedExactly | src/storage/cleanup.rs:83-109 | with the playlists read one by one after the objects are listed, a segment is protected iff its own rendition's playlist was listed, is readable and had it in the window when it was read |
| Cleanup.DeletedExactly | src/storage/cleanup.rs:83-133 | a stored segment is gone after a cycle iff it is older than the retention, deletable and not protected |
| Cleanup.OnlySegmentsDeleted | src/storage/cleanup.rs:112-133 | only expired segments of that stream are ever deleted |
| CleanupRules.ReferencedExactly | src/storage/cleanup.rs:95-108 | a playlist, whoever wrote it, protects exactly the keys that its lines name once white space around them is stripped |
| CleanupRules.LinesReadBack | src/storage/cleanup.rs:96 | lines are found between breaks with and without carriage return, in any mixture |
| CleanupRules.CycleExactly | src/storage/cleanup.rs:80-133 | whatever is stored, an object is gone after a cycle iff it was listed, its key ends in `.m4s` and has no `init.mp4` in it, it was written longer ago than the retention, no playlist read names it, and its deletion succeeded |
| Cleanup.LatestProtected | src/package/segment_index.rs:73-119 | the playlist of a window of w protects exactly the latest w segments |
| Cleanup.NamedFromNowOnExactly | src/package/segment_index.rs:73-119 | some playlist names a segment now or later iff the segment has not left the window, and the window has room |
| Cleanup.DeletedStaysOut | src/storage/cleanup.rs:83-133 | with the packager running on, a segment tried for deletion is in no window from now on iff the playlist that was read had named it, or, when none could be read, iff it has left the window |
| Cleanup.UnnamedDeleted | src/storage/cleanup.rs:112-133 | a cycle between the write of a segment older than the retention and that of its playlist deletes it, and the next playlist names it |
| Cleanup.EndedExactly | src/package/manifest.rs:134-139 | the end marker is a line of the playlist iff the rendition is finished |
| Packager.RunPackager | src/package/runner.rs:30-274 | for every input and every point at which the storage channel closes, the output is that of the history, cut at the first refused write |
| Packager.LocalsAre | src/package/runner.rs:41-151 | the task's indexes, infos and marks are those of the renditions that have arrived |
| PackagerSafety.RunSafe | src/package/runner.rs:52-266 | in every run, cut anywhere, the output rules hold: init before segments, nothing written twice, playlists name only segments already sent, reports and completions follow their playlists, completion iff end marker |
| PackagerSafety.SentExactly | src/package/runner.rs:84-196 | the segment and init writes sent are exactly those of the arrivals |
| PackagerSafety.CutIsPrefix | src/package/runner.rs:106-224 | a closed channel cuts the output at a write and loses nothing before it |
| PackagerSafety.CompletedExactly | src/package/runner.rs:228-248 | a rendition's events are the reports 0, 1, 2, … and then its completion iff video was pushed after the last cut |
| PackagerSafety.NumberedInOrder | src/package/runner.rs:69-70 | renditions numbered from 0 are in order under any interleaving |
| StreamManager.ValidExactly | src/control/state.rs:408-435 | valid transitions are the steps of the live and the upload path, failure from any state but DELETED, and deletion of failed streams |
| StreamManager.StreamStateManager.CreateStream | src/control/state.rs:119-135 | the new entry and the counter of PENDING |
| StreamManager.StreamStateManager.Transition | src/control/state.rs:138-193 | succeeds iff the stream exists and the transition is valid; then state and both counters change, else nothing |
| StreamManager.StreamStateManager.TransitionToError | src/control/state.rs:196-238 | succeeds iff the stream exists and is not deleted |
| StreamManager.StreamStateManager.UpdateRenditionProgress | src/control/state.rs:311-331 | the progress of the rendition, its completion kept |
| StreamManager.StreamStateManager.MarkRenditionComplete | src/control/state.rs:335-372 | marks a known rendition and makes the stream ready if enough are complete |
| StreamManager.StreamStateManager.RemoveStream | src/control/state.rs:375-385 | removes the stream, whatever its state, and its count |
| StreamSystem.TransitionInSteps | src/control/state.rs:138-193 | the small steps of a transition that nothing interrupts are the manager's transition |
| StreamSystem.CreateInSteps | src/control/state.rs:119-135 | so are those of a creation |
| StreamSystem.ErrorInSteps | src/control/state.rs:196-238 | of a transition to ERROR |
| StreamSystem.RemoveInSteps | src/control/state.rs:375-385 | of a removal |
| StreamSystem.MarkInSteps | src/control/state.rs:335-372 | and of marking a rendition complete, with its check and its move to READY |
| StreamSystem.RunBooks | src/control/state.rs:119-238 | in every reachable state, counter plus changes in flight is the number of streams in a state plus that of the entries in it that creations have replaced |
| StreamSystem.BooksExactly | src/ingest/rtmp.rs:283-309 | counters and changes in flight account for all streams iff no creation of the run replaced an entry |
| StreamSystem.BrokenForGood | src/control/state.rs:119-135 | books once wrong are wrong after anything that follows |
| StreamSystem.TwoPublishers | src/ingest/rtmp.rs:283-301 | a run in which two tasks find an id absent and both create it: the live stream is pending again and the books are wrong |
| StreamSystem.QuietCountsExact | src/control/state.rs:375-403 | with nothing in flight a counter is exact iff no entry in its state was replaced, else too high by their number |
| StreamSystem.CounterGoesNegative | src/control/state.rs:177-182 | a counter can be negative in between |
| StreamSystem.StepAdvances | src/control/state.rs:416-435 | in one step of anything that does not replace its entry, a stream's state stays or moves up by a valid transition, to READY only by the handler's decision |
| StreamSystem.BackwardsExactly | src/control/state.rs:119-135 | a step moves a state backwards iff it creates a stream over an entry past PENDING |
| StreamSystem.NeverBackwardsExactly | src/ingest/rtmp.rs:283-309 | over whole runs a stream's state never moves backwards iff no creation of its id finds it past PENDING |
| StreamSystem.LifecycleAdvances | src/control/state.rs:416-435 | as long as its entry is kept, a stream's state changes at most five times, never backwards, and not at all once deleted |
| StreamSystem.UploadsNeverLive | src/control/state.rs:416-435 | in every reachable state, streams of uploads are not live |
| StreamSystem.TombstonesExactly | src/storage/cleanup.rs:178-194 | a step keeps everything listed for removal there and deleted iff it does not create a stream over a listed one |
| StreamSystem.OnlyDeletedRemoved | src/storage/cleanup.rs:178-194 | only the cleanup task removes streams, and, although listing and removal are separate steps, only deleted ones in runs that create none over a listed one |
| StreamSystem.CreatedThenRemoved | src/storage/cleanup.rs:178-194 | a stream created over the one next to be removed is removed in its place |
| StreamSystem.CreatedThenRemovedReached | src/ingest/rtmp.rs:283-301 | two publishers and a cleanup cycle bring that about |
| StreamSystem.ReadyKeptExactly | src/control/state.rs:335-372 | a step keeps every ready stream, and the pending decision, backed by enough complete renditions iff it does not create the stream being decided on |
| StreamSystem.ReadyIsComplete | src/control/state.rs:335-372 | despite the gap between check and act, a ready stream has as many complete renditions as it was told to expect, in runs that create none between the two |
| StreamSystem.StaleDecision | src/control/state.rs:335-372 | a stream created in that gap can get ready without any rendition |
| StreamSystem.StaleDecisionReached | src/ingest/rtmp.rs:283-301 | two publishers bring that about |
| Events.RunEventHandler | src/control/events.rs:64-158 | the manager's state after any sequence of events, handled in order |
| Events.StreamsIndependent | src/control/events.rs:85-154 | what becomes of a stream depends on its own events only |
| Events.FailedExactly | src/control/events.rs:128-133 | after any events a stream has failed iff one of them reports its failure, with the message of the last such one |
| Events.StaysFailed | src/control/events.rs:85-154 | and it has failed still after any further ones |
| Events.ReportedExactly | src/control/state.rs:311-331 | after any events a stream has the renditions reported of it, each with the last number reported, complete iff its completion came after a report |
| Events.HandledCounted | src/control/state.rs:138-238 | handled one by one, events keep every counter the number of streams in its state |
| Events.HandledTracks | src/control/events.rs:85-154 | the entry of a stream, from PENDING, LIVE or PROCESSING on, after any orderly events: renditions, completions, expected count and state |
| Events.StartedThenEndedMeans | src/control/events.rs:85-124 | a live stream's end counts iff it comes after a start |
| Events.ReadyExactly | src/control/state.rs:335-372 | from its creation on, a stream gets ready iff all its renditions complete, and both its end, after its start, and the expected count come before the last completion |
| Pipeline.ReadyFromPackets | src/package/runner.rs:236-248 | from packets to READY: it is reached iff every rendition has video after its last cut and end and expected count come in time |
| Playback.PlayedAtAnyTime | src/package/runner.rs:52-274 | at every point of every run of the packaging task, a player that reads the playlist sent, fetches the segments it names and parses them gets the video of the first k segments, less what has left the window |
| Playback.VideoReachesPlayer | src/package/runner.rs:150-266 | of an upload every byte of video pushed into a segmenter reaches that player in order, through cutting, packaging, playlist and parsing, as long as no segment exceeds a 32-bit box |
| PlaylistPlayback.ItemsReachPlayer | src/package/runner.rs:196-224 | at every point of every run a player reads in a stored playlist the first k segments less what has left the window, with the durations and dates of their arrivals, and the end marker iff the k-th is the last |
| PlaylistPlayback.HeaderReachesPlayer | src/package/runner.rs:196-224 | with version, type, target duration and media sequence of those segments |
| InitPlayback.FirstArrivalPlayed | src/package/runner.rs:78-113 | the init segment that the playlist names is stored whenever the playlist is, and is that of the rendition's first arrival |
| InitPlayback.InitReachesPlayer | src/package/runner.rs:78-97 | the player reads there the picture size of that arrival, the first SPS and PPS of its video or the fixed pair, and an audio track iff it has audio, exactly if sizes and lengths fit 16 bits |
| InitPlayback.AudioAnnounced | src/package/runner.rs:87-93 | the configuration of that audio track has the arrival's sampling rate and channels iff it can say them |
| FragmentPlayback.TimesReachPlayer | src/package/runner.rs:153-172 | a stored segment n is read with number n, the track of the init segment, the time at which the segment starts and one sample of its duration, size and kind, iff number, time and duration fit |
| MasterPlayback.MasterListsArrived | src/package/runner.rs:116-149 | the stored master playlist lists renditions once each in the order of their first arrivals, among them all that have a segment stored, and in the end all |
| Cache.ObjectCache.Get | src/storage/cache.rs:64-85 | a hit moves to the front, an expired entry is dropped and its size with it |
| Cache.ObjectCache.Put | src/storage/cache.rs:90-136 | the list and the size after eviction, replacement and insertion, with the list's own capacity |
| Cache.RunSound | src/storage/cache.rs:47-136 | in every reachable state resident bytes are at most the recorded size, the difference is exactly what the capacity dropped silently, sizes stay bounded and no subtraction saturates |
| Cache.ExactSize | src/storage/cache.rs:64-136 | the recorded size is exact iff nothing but empty entries was dropped by the capacity |
| Cache.NeverFullIsExact | src/storage/cache.rs:47-136 | a run in which the list is never full drops nothing and its recorded size is exact |
| Cache.NothingSaturates | src/storage/cache.rs:115-126 | the size of any entry that leaves can be taken off the recorded size |
| Cache.FewKeysDropNothing | src/storage/cache.rs:47-59 | runs shorter than the capacity drop nothing |
| Cache.DriftHappens | src/storage/cache.rs:51-131 | at every capacity n, one-byte entries under n + 1 distinct keys leave the recorded size at n + 1 and the true one at n |
| Cache.DriftAtCapacity | src/storage/cache.rs:51 | so it is at the capacity of 100,000 |
| Cache.EvictionMinimal | src/storage/cache.rs:114-121 | eviction removes least recently used entries only, and no more than needed |
| CacheOrder.RecentInFront | src/storage/cache.rs:64-136 | after any run, of two entries held the one in front was written or read after the last write or read of the other |
| CacheOrder.LeastRecentLeaves | src/storage/cache.rs:112-131 | no write makes an entry leave while one that was used less recently stays |
| Cache.HitsAreTruthful | src/storage/cache.rs:64-136 | whatever the cache holds is what the latest accepted put of its key stored |
| Cache.EntryStays | src/storage/cache.rs:64-136 | an accepted put stays, through any other operations, until the bytes used since, its own and the silently dropped ones exceed the bound, or as many operations have passed as the list has slots |
| Cache.PutThenGet | src/storage/cache.rs:64-136 | as long as it stays, it is read back until it expires |
| Cache.ServedExactly | src/storage/cache.rs:64-136 | an accepted entry is read back right after until its lifetime is over and no longer |
| Cache.PathLifetimes | src/storage/cache.rs:146-158 | the lifetimes of segments, init segments, media playlists and master playlists |
| Cache.ServedByKind | src/storage/cache.rs:146-158 | a media playlist is served for one second and no longer, a segment for the lifetime of segments and no longer |
| Cache.HeldAreSmall | src/storage/cache.rs:90-110 | a disabled cache holds nothing, an enabled one nothing larger than half its bound |
| KeyStore.IngestKeyStore.RebuildIndex | src/core/auth.rs:64-69 | the index is the one of the keys in order |
| KeyStore.IngestKeyStore.DropForStream | src/core/auth.rs:184-188 | the first lock section of a stream's rotation: the keys kept, and their index |
| KeyStore.IngestKeyStore.GenerateForStream | src/core/auth.rs:134-147 | the section that adds a fresh key |
| KeyStore.IngestKeyStore.RotateForStream | src/core/auth.rs:183-190 | the two sections of a stream's rotation, when no other section comes between |
| KeyStore.IngestKeyStore.UpdateStreamKeys | src/core/auth.rs:354-366 | the store after a replacement |
| KeyStore.IngestKeyStore.ValidateStreamKey | src/core/auth.rs:201-235 | the answer of the indexed lookup with its fallback scan; an empty store accepts |
| KeyStore.IngestKeyStore.DropHashed | src/core/auth.rs:172-176 | the first lock section of the rotation of one key |
| KeyStore.IngestKeyStore.Rotate | src/core/auth.rs:171-178 | both its sections, when no other section comes between |
| KeyStore.IngestKeyStore.ResolveStreamIdForKey | src/core/auth.rs:373-396 | the stream of a key by the index, with its fallback scan for a bound record |
| KeyStore.RunSound | src/core/auth.rs:55-76 | after any interleaving of lock sections, halves of rotations among them, the index leads every fast hash to its last record and knows no other |
| KeyStore.KeysFrom | src/core/auth.rs:110-190 | after any interleaving a record is in the store iff it was there and was kept, or was put in since and kept |
| KeyStore.ValidatesLikeScan | src/core/auth.rs:201-235 | after any interleaving and for any fast hash, the lookup accepts a key iff some record verifies it |
| KeyStore.AcceptedExactly | src/core/auth.rs:201-235 | a key is accepted iff a record that verifies it was put in and kept, or no record at all was |
| KeyStore.UnverifiedAccepted | src/core/auth.rs:203-205 | a key that no record verifies is accepted iff no record was put in and kept |
| KeyStore.AcceptedInBetween | src/core/auth.rs:183-190 | between the halves of a rotation a key is accepted iff a key not bound to the stream verifies it, or all keys were bound to the stream |
| KeyStore.OpenInBetween | src/core/auth.rs:183-190 | in the rotation of the only stream with a key, the store is empty and accepts every key |
| KeyStore.ResolvesExactly | src/core/auth.rs:373-396 | resolving a key agrees with a scan for its first bound record iff the last record under its fast hash, if of that key, is bound to the same stream |
| KeyStore.ResolvesLikeScan | src/core/auth.rs:373-396 | so it does for every key as long as equal plaintexts are bound alike |
| KeyStore.DuplicateKeyResolvesByLast | src/core/auth.rs:373-396 | the two can disagree: a key bound and then recorded unbound resolves to nothing |
| KeyStore.RotationReplaces | src/core/auth.rs:183-190 | among any other steps a rotation leaves exactly its own key bound to the stream iff no other was bound since its drop and kept; other keys stay |
| KeyStore.RotationAlone | src/core/auth.rs:183-190 | uninterrupted it leaves one key bound to the stream and all other keys as they were |
| KeyStore.TwoRotations | src/core/auth.rs:183-190 | two that overlap leave both keys bound, accepted and resolving to the stream |
| KeyStore.RotationRevokes | src/core/auth.rs:183-190 | after a rotation, among any other steps, exactly the fresh key, keys not bound to the stream at its drop and kept, and keys put in since and kept are accepted; the fresh one resolves to the stream |

## Left out

- Sockets, HTTP handlers, the object store client, uploads, metrics, logging, configuration and shutdown timers: plumbing around the modelled functions.
- The encoder (`src/transcode/ffmpeg.rs`): the segmenter's input is an arbitrary packet sequence.
- `src/storage/writer.rs`: it writes batches concurrently, so order is claimed for the packager's sends only.
- The audio side of the demuxer, with its own reading of AudioSpecificConfig.
- 64-bit overflow of time arithmetic: presentation times are unbounded integers, sequence numbers unbounded naturals.
- profile_idc 135, which newer editions of ITU-T H.264 add to the profiles with chroma fields, is in neither list.
- A build with overflow checks: the SPS model wraps and flags the overflow where such a build would stop.
- Box sizes 0 and 1 (to the end of the file, 64-bit): the muxer never writes them and the box parser here refuses them.
- RTMP header types 2 and 3 at the start of a message as the specification has them, interleaved chunk streams and AMF: the reader handles them in a simplified form, and the model follows the reader only.
- The master playlist's text, whose bandwidth is floating point: a master write carries the list of renditions.
- The printed forms of durations and dates: any text without a line break, and for reading durations back without a comma. The index's unused maximum duration is not kept.
- The segment index inside the packaging task is a value in a map, not an object shared through it.
- SegmentIndexes.SegmentIndex.AddSegment: the clock is a parameter, the entry's date is given.
- Cleanup.CleanLiveStream: one live stream at a time, on the listing it is given; decoding of broken UTF-8 is not modelled.
- The failed-stream phase of the cleanup task deletes by prefix; only its state change is a step of StreamSystem.
- bcrypt: a slow hash verifies exactly the key it was made from, within bcrypt's length limit; hashing does not fail.
- The exchange of a whole key store is one step, as it is under one lock; hashing, before it and within a rotation, touches no shared state.
- Timestamps of entries and the age checks of the cleanup task: whether a tombstone is old enough is left open.
- A task that finds its stream there and PENDING attaches to it: that changes nothing in the manager and is no step.
- Media info and error texts play no part in the lifecycle.
