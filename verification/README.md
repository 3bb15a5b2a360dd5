# Transcoder segment, decoder and audio-engine core, in Dafny

This project models four parts of the Transcoder library's transcoding
pipeline and proves properties about them:

- **Segments** (`segment.dfy`, module `Segments`). A `Segment` owns one
  decode pipeline and records the last `State` its `execute()` returned. It
  can advance unless that state is `Eos`.
- **Segment manager** (`custom_segments.dfy`, module `SegmentManager`).
  `CustomSegments` keeps a map from media id to an optional segment, plus the
  "current" segment and its key.
  - Every call it makes on the outside world goes into one shared,
    append-only `Trace`: pipeline and track releases, map-entry removals,
    source initialisation, track selection and pipeline creation.
  - The class invariant `Valid` says the map holds at most the current
    segment, under the current key.
  - It also says that segment's pipeline is the only one built and not yet
    released.
  - Every public operation keeps `Valid`.
- **Decoder driver** (`codec_names.dfy`, module `CodecNames`, and
  `decoder.dfy`, module `Codec`).
  - `CodecNames` holds the pure rules: the 4K test, the software/hardware
    name rules, and the first-match codec selection (a loop, proved against
    `FirstMatch`).
  - The class `Decoder` keeps `retry`, `codec`, `decoderReady` and the two
    in-flight counters. It logs every codec, dropper and listener call in
    `calls`.
  - `initialize` is proved against the recursive specification `InitSpec`.
    Lemmas about `InitSpec` state the retry-once rule and the start-failure
    rule.
- **Audio engine** (`audio_sizing.dfy`, module `AudioSizing`, and
  `audio_engine.dfy`, module `AudioStep`).
  - `AudioSizing` holds the sizing arithmetic of `drain`, over exact reals:
    - the worst-case output size, rounded up at the stretch and resample
      stages;
    - the input prefix that fits, rounded down.
  - The class `AudioEngine` holds the late-initialised raw format, remixer
    and chunk queue. It logs in `calls` the chunks it queues and releases,
    the downstream buffer requests, the scratch-buffer requests and the
    input and output window changes. The chunk queue's `isEmpty` and `drain`
    are not logged: their answers are parameters.

Outside components appear only as parameters:

| outside component | parameter in the model |
|---|---|
| platform codec | the result codes and flags it returns, and whether each configure, start, stop or release attempt fails; a configure answer depends on the codec and on whether it is the first attempt or the fallback |
| frame dropper | its corrected time |
| chunk queue | emptiness and head chunk |
| remixer | a size function |
| native resampler | the number of samples it writes |
| data sources | a sequence of media ids per track type |

Three behaviours of the code are easy to miss, and the model keeps them:

- **Stored `null` lookups are rebuilt.** `getSegment` uses `getOrPut`,
  which treats a stored `null` as absent. So every later `getSegment` for
  that id tears down the current segment and tries to build again
  (`GetSegment`).
- **Only a configure failure is retried.** A start failure is reported and
  rethrown at once (`StartFailureIsFinal`).
- **A second configure failure falls through to `start`.** It is reported
  and not rethrown, and the MIME-only codec is started anyway
  (`SecondConfigureFailureFallsThrough`).

## Model

| member | source | states |
|---|---|---|
| Segments.Segment.constructor | lib/src/main/java/com/otaliastudios/transcoder/internal/Segment.kt:8-16 | a new segment keeps its track, index, pipeline and source id; no state is recorded, and it can advance |
| Segments.Segment.Advance | lib/src/main/java/com/otaliastudios/transcoder/internal/Segment.kt:18-21 | the state becomes exactly what `execute()` returned; the result is true iff that is `Ok`; afterwards the segment can advance iff that result is not `Eos`, so an earlier `Eos` is forgotten |
| Segments.Segment.CanAdvance | lib/src/main/java/com/otaliastudios/transcoder/internal/Segment.kt:23-26 | true iff the recorded state is not `Eos`; no state, `Wait`, `Retry` and `Ok` all allow advancing |
| Segments.Segment.Release | lib/src/main/java/com/otaliastudios/transcoder/internal/Segment.kt:28-30 | releases exactly this segment's pipeline and leaves the recorded state, and so `CanAdvance`, unchanged |
| SegmentManager.FirstWithId | lib/src/main/java/com/otaliastudios/transcoder/internal/CustomSegments.kt:73 | `firstOrNull` by media id: a found index holds `id` and no earlier source does; nothing is found iff no source has that id |
| SegmentManager.CustomSegments.constructor | lib/src/main/java/com/otaliastudios/transcoder/internal/CustomSegments.kt:13-22 | starts with no current segment, no current key, an empty map and no calls, and satisfies the invariant |
| SegmentManager.CustomSegments.HasNext | lib/src/main/java/com/otaliastudios/transcoder/internal/CustomSegments.kt:24-32 | false without sources of the track type; otherwise true iff there is no current segment or its last state is not `Eos` |
| SegmentManager.CustomSegments.HasNextVideo | lib/src/main/java/com/otaliastudios/transcoder/internal/CustomSegments.kt:34 | the same answer as `HasNext` for the video track |
| SegmentManager.CustomSegments.AtMostOneStored | lib/src/main/java/com/otaliastudios/transcoder/internal/CustomSegments.kt:44-50 | under the invariant the map holds at most one non-null segment; when there is a current segment, the current key is the only key holding one |
| SegmentManager.CustomSegments.AtMostOneLive | lib/src/main/java/com/otaliastudios/transcoder/internal/CustomSegments.kt:89-101 | under the invariant the pipelines built and not released are exactly the current segment's pipeline, or none, so at most one is alive |
| SegmentManager.CustomSegments.TrackReleaseCalls | lib/src/main/java/com/otaliastudios/transcoder/internal/CustomSegments.kt:92-95 | a teardown's track release only ever releases tracks: it releases the found source's track when the type is active, and otherwise nothing |
| SegmentManager.CustomSegments.DestroyCalls | lib/src/main/java/com/otaliastudios/transcoder/internal/CustomSegments.kt:90-101 | tearing down makes calls exactly when there is a current segment |
| SegmentManager.CustomSegments.TeardownPrecedesCreation | lib/src/main/java/com/otaliastudios/transcoder/internal/CustomSegments.kt:44-50 | on a lookup miss, every teardown call (pipeline release, track release, entry removal) comes before every creation call (source init, track selection, pipeline creation) |
| SegmentManager.CustomSegments.DestroyReleasesCurrentOnce | lib/src/main/java/com/otaliastudios/transcoder/internal/CustomSegments.kt:90-98 | tearing down a current segment releases its pipeline first, and exactly once |
| SegmentManager.CustomSegments.CreationCalls | lib/src/main/java/com/otaliastudios/transcoder/internal/CustomSegments.kt:73-86 | building makes only creation calls, and makes some iff a video source has the id; the last is the pipeline built for that source, and the source is initialised iff it was not initialised before |
| SegmentManager.CustomSegments.GetSegment | lib/src/main/java/com/otaliastudios/transcoder/internal/CustomSegments.kt:43-51 | a stored non-null segment is returned as is, with no call and no state change; otherwise (missing key or stored `null`) the current segment is torn down, then creation is tried; the result, `null` iff no video source has the id, is stored under the id and becomes current, with the id as current key; on success the found video source is added to the initialised sources and one pipeline is counted, on `null` neither changes; the invariant is kept |
| SegmentManager.CustomSegments.ReleaseSegment | lib/src/main/java/com/otaliastudios/transcoder/internal/CustomSegments.kt:53-66 | nothing happens without a non-null entry; otherwise the entry's pipeline, then its track (if active and found), then the entry are released; the current segment is cleared only if it was that one, and the current key is left as it was; the invariant is kept |
| SegmentManager.CustomSegments.Release | lib/src/main/java/com/otaliastudios/transcoder/internal/CustomSegments.kt:68 | after release there is no current segment, the map is empty, the current key is cleared if there was a segment, the calls are exactly the teardown of the current segment, every pipeline ever built is released, and the initialised sources and the pipeline count are unchanged |
| SegmentManager.CustomSegments.TryCreateSegment | lib/src/main/java/com/otaliastudios/transcoder/internal/CustomSegments.kt:70-87 | `null` with no call iff no video source has the id; otherwise the source is initialised only if it was not, the video track is selected only if active, one pipeline is built, and the result is a fresh `Segment(Video, -1, pipeline, id)` with no state; only creation calls are made |
| SegmentManager.CustomSegments.DestroySegment | lib/src/main/java/com/otaliastudios/transcoder/internal/CustomSegments.kt:89-108 | the current segment's teardown calls are made, the current segment is cleared, and the current key is cleared only if there was one; the map loses the current key, or everything with `releaseAll`; afterwards no stored entry is non-null, and the invariant is kept |
| SegmentManager.CustomSegments.TearDownCurrent | lib/src/main/java/com/otaliastudios/transcoder/internal/CustomSegments.kt:90-101 | with a current segment: pipeline release, then track release, then entry removal; the current segment and its key are cleared; the invariant is kept |
| SegmentManager.CustomSegments.ReleaseEntries | lib/src/main/java/com/otaliastudios/transcoder/internal/CustomSegments.kt:102-106 | one pipeline release per non-null entry, appended after the earlier calls, and nothing else |
| CodecNames.WrapInt32 | lib/src/main/java/com/otaliastudios/transcoder/internal/codec/Decoder.kt:62 | Kotlin `Int` wrap-around: the result is congruent to the exact value modulo 2^32, and equal to it when it fits |
| CodecNames.Is4K | lib/src/main/java/com/otaliastudios/transcoder/internal/codec/Decoder.kt:59-63 | no contract of its own: the 4K test on the exact pixel count; its properties are carried by `Is4KMonotonic` and by the contract of `Is4KAsWritten` |
| CodecNames.Is4KAsWritten | lib/src/main/java/com/otaliastudios/transcoder/internal/codec/Decoder.kt:59-63 | whenever `width * height` fits an `Int`, the written test with its wrapping product agrees with the exact test (`width * height > 2120 * 2120`) |
| CodecNames.Is4KMonotonic | lib/src/main/java/com/otaliastudios/transcoder/internal/codec/Decoder.kt:59-63 | with exact pixel counts, a frame at least as wide and as tall as a 4K frame is 4K |
| CodecNames.Is4KAsWrittenOverflows | lib/src/main/java/com/otaliastudios/transcoder/internal/codec/Decoder.kt:62 | the written test classes 4096x2160 as 4K but not 65536x65536, whose pixel count wraps to 0, although that frame is 4K |
| CodecNames.Lower | lib/src/main/java/com/otaliastudios/transcoder/internal/codec/Decoder.kt:69 | lower-casing keeps the length and lower-cases each character on its own |
| CodecNames.IsSoftwareName | lib/src/main/java/com/otaliastudios/transcoder/internal/codec/Decoder.kt:70-76 | no contract of its own: the software-name rules on a lower-cased name; `SamsungRule`, `SoftwareCodecNames`, `HardwareCodecName` and `SamsungCodecNames` carry its properties |
| CodecNames.IsHardwareAcceleratedCompat | lib/src/main/java/com/otaliastudios/transcoder/internal/codec/Decoder.kt:65-83 | no contract of its own: the platform flag from Q on, otherwise no software rule matches the lower-cased name; `HardwareNamesAreVendorNames`, `SoftwarePrefixesAreNotHardware` and `ClassificationIgnoresCase` carry its properties |
| CodecNames.LowerExample | lib/src/main/java/com/otaliastudios/transcoder/internal/codec/Decoder.kt:69 | lower-casing turns `OMX.SEC.avc.sw.dec` into `omx.sec.avc.sw.dec` |
| CodecNames.HardwareNamesAreVendorNames | lib/src/main/java/com/otaliastudios/transcoder/internal/codec/Decoder.kt:69-81 | below Q, a codec classed hardware has a lower-cased name starting with `omx.` or `c2.`, and neither with `omx.google.` nor with `c2.android.` |
| CodecNames.ClassificationIgnoresCase | lib/src/main/java/com/otaliastudios/transcoder/internal/codec/Decoder.kt:69 | two names with the same lower-case form are classed alike |
| CodecNames.SoftwareCodecNames | lib/src/main/java/com/otaliastudios/transcoder/internal/codec/Decoder.kt:70-76 | examples: `omx.google.h264.decoder`, `c2.android.avc.decoder`, the Qualcomm HEVC software decoder and the non-vendor `ffmpeg.h264` are classed software |
| CodecNames.HardwareCodecName | lib/src/main/java/com/otaliastudios/transcoder/internal/codec/Decoder.kt:70-81 | a Qualcomm `omx.qcom.` AVC decoder matches no software rule and is classed hardware |
| CodecNames.SamsungCodecNames | lib/src/main/java/com/otaliastudios/transcoder/internal/codec/Decoder.kt:72 | examples: `omx.sec.avc.sw.dec` is classed software and `omx.sec.avc.dec` is not |
| CodecNames.SoftwarePrefixesAreNotHardware | lib/src/main/java/com/otaliastudios/transcoder/internal/codec/Decoder.kt:69-81 | below Q, every codec whose lower-cased name starts with `omx.google.`, `omx.ffmpeg.`, `c2.android.` or `c2.google.`, or with neither `omx.` nor `c2.`, is not hardware accelerated |
| CodecNames.SamsungRule | lib/src/main/java/com/otaliastudios/transcoder/internal/codec/Decoder.kt:72 | every name starting with `omx.sec.` is classed software exactly when it contains `.sw.` |
| CodecNames.FirstMatch | lib/src/main/java/com/otaliastudios/transcoder/internal/codec/Decoder.kt:91-107 | the found index is a codec that is not an encoder, is not hardware when software is required, and whose capabilities support the format; no earlier codec matches; nothing is found iff no codec matches |
| CodecNames.SelectedCodec | lib/src/main/java/com/otaliastudios/transcoder/internal/codec/Decoder.kt:108-118 | the codec is created from the MIME type alone iff no codec in the list matches or creation by name throws, and then with the format's own MIME type; otherwise it is created by the name of a matching codec with no matching codec before it in the list |
| CodecNames.CreateDecoderByType | lib/src/main/java/com/otaliastudios/transcoder/internal/codec/Decoder.kt:85-119 | the selection loop picks the first matching codec by name; it falls back to MIME-only creation when none matches or creation by name throws; a by-name codec is always a matching entry of the list |
| Codec.InitSpec | lib/src/main/java/com/otaliastudios/transcoder/internal/codec/Decoder.kt:131-175 | no contract of its own: the specification `Decoder.Initialize` is proved against, with each configure and start answer a parameter; `ConfigureRetriedOnce`, `SecondConfigureFailureFallsThrough`, `FallbackConfigureSucceeds` and `StartFailureIsFinal` carry its properties |
| Codec.ConfigureRetriedOnce | lib/src/main/java/com/otaliastudios/transcoder/internal/codec/Decoder.kt:146-162 | an initialize run configures twice iff the first configure fails with `retry` set, and once otherwise; the retry leaves a MIME-only codec with `retry` cleared, and otherwise codec and `retry` are unchanged |
| Codec.SecondConfigureFailureFallsThrough | lib/src/main/java/com/otaliastudios/transcoder/internal/codec/Decoder.kt:146-164 | when both configures fail, the MIME-only codec is still started, the run succeeds iff that start does, and both failures are reported to a listener |
| Codec.FallbackConfigureSucceeds | lib/src/main/java/com/otaliastudios/transcoder/internal/codec/Decoder.kt:146-164 | when the first configure fails and the fresh MIME-only codec configures, the run makes one failure report, configures that codec, and starts it, even when the first codec was also created by MIME type; it ends on that codec with `retry` cleared and succeeds iff its start does |
| Codec.StartFailureIsFinal | lib/src/main/java/com/otaliastudios/transcoder/internal/codec/Decoder.kt:163-174 | a run succeeds iff its final codec starts; a start is the last codec call, followed only by its failure report when a listener is present, so nothing is retried after a start failure |
| Codec.Decoder.constructor | lib/src/main/java/com/otaliastudios/transcoder/internal/codec/Decoder.kt:49-56 | the codec is the one selection picks, asking for software only when `useSwFor4K` is set and the format is 4K by the test as written, with its wrapping `Int` pixel count; `retry` starts true, `decoderReady` false, both counters 0 |
| Codec.Decoder.Initialize | lib/src/main/java/com/otaliastudios/transcoder/internal/codec/Decoder.kt:131-175 | the calls, final codec, `retry` flag and outcome are exactly those of the `InitSpec` run from the current codec and `retry`, with each configure attempt answered on its own; a successful run leaves `decoderReady` false |
| Codec.Decoder.StartCodec | lib/src/main/java/com/otaliastudios/transcoder/internal/codec/Decoder.kt:163-174 | a start, reported on failure; succeeds iff the codec starts, and then clears `decoderReady` |
| Codec.Decoder.Buffer | lib/src/main/java/com/otaliastudios/transcoder/internal/codec/Decoder.kt:204-217 | flushes only when the flush predicate answers true and the decoder is ready; returns the slot iff the dequeued index is non-negative, and counts one more in-flight input exactly then |
| Codec.Decoder.EnqueueEos | lib/src/main/java/com/otaliastudios/transcoder/internal/codec/Decoder.kt:219-224 | one less in-flight input; queues the slot with offset 0, size 0, time 0 and the end-of-stream flag |
| Codec.Decoder.Enqueue | lib/src/main/java/com/otaliastudios/transcoder/internal/codec/Decoder.kt:226-235 | one less in-flight input; queues the chunk's window and time with the sync flag iff it is a keyframe, then gives the dropper its time and render flag |
| Codec.Decoder.Drain | lib/src/main/java/com/otaliastudios/transcoder/internal/codec/Decoder.kt:237-285 | try-again gives `Wait`; format-changed sets `decoderReady`, forwards the raw format and gives `Retry`; buffers-changed gives `Retry`; an end-of-stream buffer gives `Eos` at time 0 without asking the dropper; otherwise a dropped time releases the buffer unrendered and gives `Wait`, and a kept time gives `Ok` with that time; the output counter grows exactly for `Ok` and `Eos` |
| Codec.Decoder.ReleaseData | lib/src/main/java/com/otaliastudios/transcoder/internal/codec/Decoder.kt:266-272 | the release callback gives the slot back with the caller's render flag and counts one less in-flight output |
| Codec.Decoder.Release | lib/src/main/java/com/otaliastudios/transcoder/internal/codec/Decoder.kt:287-296 | stops, then releases unless the stop failed; any failure is reported to a listener and never thrown |
| AudioSizing.Floor | lib/src/main/java/com/otaliastudios/transcoder/internal/audio/AudioEngine.kt:104 | the largest integer not above the argument |
| AudioSizing.Ceil | lib/src/main/java/com/otaliastudios/transcoder/internal/audio/AudioEngine.kt:97 | the smallest integer not below the argument |
| AudioSizing.StretchedSize | lib/src/main/java/com/otaliastudios/transcoder/internal/audio/AudioEngine.kt:97 | the stretched size is at least, and less than one above, `inSize * stretch` |
| AudioSizing.DesiredOutSize | lib/src/main/java/com/otaliastudios/transcoder/internal/audio/AudioEngine.kt:97-99 | the desired size is at least, and less than one above, the remixed stretched size scaled by the ratio of the target to the raw sample rate |
| AudioSizing.ProcessableSize | lib/src/main/java/com/otaliastudios/transcoder/internal/audio/AudioEngine.kt:102-105 | the processable size is between 0 and the input size; it is the whole input when the desired size fits, and for a non-empty input only then |
| AudioSizing.ProcessablePrefix | lib/src/main/java/com/otaliastudios/transcoder/internal/audio/AudioEngine.kt:102-105 | when a non-empty input's desired size does not fit, the processable size is the largest count whose proportional share of the desired size fits the output: its share fits and one more sample's would not |
| AudioSizing.ProcessablePrefixMayOvershoot | lib/src/main/java/com/otaliastudios/transcoder/internal/audio/AudioEngine.kt:97-105 | the bound is proportional, not exact: for stretch 1.5, 44100 to 48000 Hz, two samples and room for two, the prefix is one sample, whose own worst case is three |
| AudioSizing.MonoToStereoDownsampleFits | lib/src/main/java/com/otaliastudios/transcoder/internal/audio/AudioEngine.kt:97-105 | 1000 mono samples remixed to stereo and taken from 48000 to 44100 Hz need at most 1838 samples, so room for 2200 takes the whole chunk |
| AudioStep.StretchOf | lib/src/main/java/com/otaliastudios/transcoder/internal/audio/AudioEngine.kt:70 | a chunk's stretch is the timer data's own, or 1.0 for plain decoder data |
| AudioStep.Overflows | lib/src/main/java/com/otaliastudios/transcoder/internal/audio/AudioEngine.kt:140-147 | no overflow iff the resampled samples fit the resampler's 32096-sample buffer and their byte window, two bytes per sample, fits the encoder buffer's room |
| AudioStep.AudioEngine.constructor | lib/src/main/java/com/otaliastudios/transcoder/internal/audio/AudioEngine.kt:31-50 | the engine starts with no raw format, remixer or queue, and no calls |
| AudioStep.AudioEngine.HandleRawFormat | lib/src/main/java/com/otaliastudios/transcoder/internal/audio/AudioEngine.kt:54-60 | records the raw format, picks the remixer from the raw and target channel counts, and creates the chunk queue at the raw rate and channel count; the three stay consistent |
| AudioStep.AudioEngine.Enqueue | lib/src/main/java/com/otaliastudios/transcoder/internal/audio/AudioEngine.kt:69-75 | with no queue yet it throws with no effect; otherwise it queues the chunk's index, time and stretch |
| AudioStep.AudioEngine.ChunkConsumed | lib/src/main/java/com/otaliastudios/transcoder/internal/audio/AudioEngine.kt:72-74 | a consumed chunk's data is released without rendering |
| AudioStep.AudioEngine.EnqueueEos | lib/src/main/java/com/otaliastudios/transcoder/internal/audio/AudioEngine.kt:62-67 | releases the data without rendering first, even when it then throws for a missing queue, and otherwise marks the queue at end of stream |
| AudioStep.AudioEngine.Processable | lib/src/main/java/com/otaliastudios/transcoder/internal/audio/AudioEngine.kt:93-105 | the head chunk's processable samples lie between 0 and its remaining samples; all of them when the desired size fits the output, and, for a non-empty chunk, fewer when it does not |
| AudioStep.AudioEngine.Render | lib/src/main/java/com/otaliastudios/transcoder/internal/audio/AudioEngine.kt:106-156 | the input limit becomes position plus the processable size, and the stretch scratch (rounded-up stretched size) then the remix scratch (its remixed size) are requested; output that does not fit the resampler buffer or the encoder buffer throws; otherwise the byte window is position 0, limit twice the sample count, and `Ok` carries the buffer id and the chunk's time |
| AudioStep.AudioEngine.Drain | lib/src/main/java/com/otaliastudios/transcoder/internal/audio/AudioEngine.kt:80-158 | with no queue it throws; an empty queue gives `Wait` without asking for a downstream buffer; no downstream buffer gives `Wait`; the queue's end of stream gives `Eos` at time 0; otherwise the head chunk is rendered as in `Render` |

## Left out

- The native Oboe calls `createStream`, `destroyStream` and `getSampledByteBuffer` are foreign code. The resampler's output count is the `resampled` parameter of `AudioEngine.Drain`, and stream creation and destruction are not logged.
- The float/short copy loops in the audio drain are left out, and so are the stretcher's and remixer's sample contents. Only window sizes and limits are modelled.
- IEEE double rounding in the sizing arithmetic is left out; exact reals are used instead.
- The chunk queue is seen only through its emptiness and its head chunk. Its own release of a consumed chunk is the `ChunkConsumed` callback.
- The platform codec, the codec list, the frame dropper and the codec buffer table appear only as the answers they give. The same goes for the pipeline factory, the data sources, the active tracks and the downstream step.
- `Build.VERSION` is a boolean parameter.
- Logging, `logCodecException`, the `AtomicInteger` ids and the `observable` counters' logging hook are left out.
- The capability lookup that `initialize` makes only for logging is left out. So are `super.initialize`, the surface returned by `handleSourceFormat`, and the output formats passed to the pipeline factory.
- MIME-only codec creation is assumed to succeed. The codec replaced on a configure retry is not released by the source either, and the model does not track it.
- Codec-name lower-casing covers ASCII letters only; Kotlin's locale-independent Unicode lower-casing is not modelled.
- Sample rates are positive (`AudioStep.SampleRate`); a zero raw rate would make the resample ratio infinite.
- The segment's `pipeline.execute()` is the `executed` parameter of `Advance`. A data source is a record holding its media id; URI sources derive that id from their URI.
- `hasNext` logs the last source index but does not use it, so the model does not either.
- SegmentManager.CustomSegments.ReleaseEntries: states how many calls it makes and that each is a pipeline release, but not which pipelines. Under the manager's invariant the map holds no non-null entry by the time this loop runs, so it makes no call.
- GetSegment, TryCreateSegment: the pipeline factory, `initialize()`, `selectTrack`, `releaseTrack` and `pipeline.release()` are assumed never to throw. In the code, a factory that throws inside `getOrPut` leaves three effects: the previous segment is already torn down, nothing is stored under the id, and the video track just selected is never released, because no segment records it. The model does not capture this.
- AudioStep.AudioEngine.Drain: the `toInt()` conversions of the `Double` sizes are not modelled, because the exact-real ceilings are already integers. A size too large for an `Int` is not modelled either.

## Findings

| source | as written | input that shows it | evidently intended | confidence | as-written member | corrected member |
|---|---|---|---|---|---|---|
| lib/src/main/java/com/otaliastudios/transcoder/internal/codec/Decoder.kt:62 | `width * height` is a 32-bit `Int` product, which wraps around | a 65536 x 65536 format: the product wraps to 0, so the format is not treated as 4K and no software codec is requested | compare the exact pixel count with 2120 x 2120, so any frame at least as large as a 4K frame counts as 4K (`CodecNames.Is4K`); the decoder's constructor keeps the test as written, as the code does | not executed | CodecNames.Is4KAsWrittenOverflows | CodecNames.Is4KMonotonic |
