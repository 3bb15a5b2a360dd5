/**
 * The decoder driver: adapts a platform codec, seen only through what its
 * calls return, into a pipeline step, with one configure retry on a
 * MIME-only codec.
 */
module Codec {
  import opened Common
  import opened Pipeline
  import opened CodecNames

  /** What the decoder reads from its input format. */
  datatype MediaFormat = MediaFormat(mime: string, width: Int32, height: Int32)

  /** Codec result codes and buffer flags, as the platform defines them. */
  const InfoTryAgainLater: int := -1
  const InfoOutputFormatChanged: int := -2
  const InfoOutputBuffersChanged: int := -3
  const BufferFlagSyncFrame: bv32 := 1
  const BufferFlagEndOfStream: bv32 := 4

  /** An observable action of the decoder, in the order it happens. */
  datatype DecoderCall =
    | HandleSourceFormat
    | Configure(codec: CodecOrigin)
    | ReportConfigureFailure(codec: CodecOrigin)
    | Start(codec: CodecOrigin)
    | ReportStartFailure(codec: CodecOrigin)
    | Flush
    | DequeueInput
    | QueueInput(index: int, offset: int, size: int, timeUs: int, flags: bv32)
    | DropperInput(timeUs: int, render: bool)
    | DequeueOutput
    | HandleRawFormat
    | OutputBuffersChanged
    | DropperOutput(presentationTimeUs: int)
    | ReleaseOutput(index: int, render: bool)
    | Stop
    | ReleaseCodec
    | ReportReleaseFailure(codec: CodecOrigin)

  /** A compressed chunk from the reader: its buffer window, time, and flags. */
  datatype ReaderChunk = ReaderChunk(position: int, remaining: int, timeUs: int, keyframe: bool, render: bool)

  /** A chunk together with the codec input slot it was read into. */
  datatype ReaderData = ReaderData(chunk: ReaderChunk, id: int)

  /** A decoded output buffer handed downstream: the codec's output slot and the corrected time. */
  datatype DecoderData = DecoderData(index: int, timeUs: int)

  /** What one run of `initialize` does: its calls, and the codec, retry flag and outcome it leaves. */
  datatype InitRun = InitRun(calls: seq<DecoderCall>, codec: CodecOrigin, retry: bool, started: bool)

  /** A listener call, made only when a listener was supplied. */
  function Report(listener: bool, call: DecoderCall): seq<DecoderCall>
  {
    if listener then [call] else []
  }

  /** Handing the source format on and configuring `codec`, with the failure report when it fails. */
  function ConfigureCalls(codec: CodecOrigin, listener: bool, fails: bool): seq<DecoderCall>
  {
    [HandleSourceFormat, Configure(codec)] + (if fails then Report(listener, ReportConfigureFailure(codec)) else [])
  }

  /** Starting `codec`, with the failure report when it fails. */
  function StartCalls(codec: CodecOrigin, listener: bool, fails: bool): seq<DecoderCall>
  {
    [Start(codec)] + (if fails then Report(listener, ReportStartFailure(codec)) else [])
  }

  /**
   * One `initialize`: hand the source format downstream and configure; on a
   * configure failure report it and, while `retry` holds, clear it, switch to
   * a MIME-only codec and start over; otherwise go on to start, which
   * succeeds or fails for good. `configureFails(c, r)` is the platform's
   * answer to configuring codec `c` while `retry` is `r`: the first attempt
   * runs with `retry` set and the fallback with it cleared, so the freshly
   * created fallback codec answers on its own, even when the first codec
   * was also created by MIME type.
   */
  function InitSpec(codec: CodecOrigin, retry: bool, mime: string, listener: bool,
                    configureFails: (CodecOrigin, bool) -> bool, startFails: CodecOrigin -> bool): InitRun
    decreases retry
  {
    var configured := ConfigureCalls(codec, listener, configureFails(codec, retry));
    if configureFails(codec, retry) && retry then
      var again := InitSpec(ByMime(mime), false, mime, listener, configureFails, startFails);
      InitRun(configured + again.calls, again.codec, again.retry, again.started)
    else
      InitRun(configured + StartCalls(codec, listener, startFails(codec)), codec, retry, !startFails(codec))
  }

  /** The number of configure attempts in `calls`. */
  function Configures(calls: seq<DecoderCall>): nat
  {
    if calls == [] then 0 else (if calls[0].Configure? then 1 else 0) + Configures(calls[1..])
  }

  lemma {:induction false} ConfiguresAppend(a: seq<DecoderCall>, b: seq<DecoderCall>)
    ensures Configures(a + b) == Configures(a) + Configures(b)
  {
    if a == [] {
      assert a + b == b;
    } else {
      assert (a + b)[1..] == a[1..] + b;
      ConfiguresAppend(a[1..], b);
    }
  }

  lemma PhaseConfigures(codec: CodecOrigin, listener: bool, fails: bool)
    ensures Configures(ConfigureCalls(codec, listener, fails)) == 1
    ensures Configures(StartCalls(codec, listener, fails)) == 0
  {
    var head := [HandleSourceFormat, Configure(codec)];
    assert head[1..] == [Configure(codec)] && head[1..][1..] == [];
    var report := if fails then Report(listener, ReportConfigureFailure(codec)) else [];
    assert report != [] ==> report[1..] == [];
    ConfiguresAppend(head, report);
    var start := [Start(codec)];
    assert start[1..] == [];
    var startReport := if fails then Report(listener, ReportStartFailure(codec)) else [];
    assert startReport != [] ==> startReport[1..] == [];
    ConfiguresAppend(start, startReport);
  }

  /**
   * A configure failure is retried exactly once: there are two configure
   * attempts when the first fails with `retry` set, one otherwise, and the
   * retry leaves a MIME-only codec with `retry` cleared.
   */
  lemma {:induction false} ConfigureRetriedOnce(codec: CodecOrigin, retry: bool, mime: string, listener: bool,
                                                configureFails: (CodecOrigin, bool) -> bool, startFails: CodecOrigin -> bool)
    decreases retry
    ensures var run := InitSpec(codec, retry, mime, listener, configureFails, startFails);
      && Configures(run.calls) == (if configureFails(codec, retry) && retry then 2 else 1)
      && (configureFails(codec, retry) && retry ==> run.codec == ByMime(mime) && !run.retry)
      && (!(configureFails(codec, retry) && retry) ==> run.codec == codec && run.retry == retry)
  {
    var configured := ConfigureCalls(codec, listener, configureFails(codec, retry));
    PhaseConfigures(codec, listener, configureFails(codec, retry));
    if configureFails(codec, retry) && retry {
      ConfigureRetriedOnce(ByMime(mime), false, mime, listener, configureFails, startFails);
      var again := InitSpec(ByMime(mime), false, mime, listener, configureFails, startFails);
      ConfiguresAppend(configured, again.calls);
    } else {
      PhaseConfigures(codec, listener, startFails(codec));
      ConfiguresAppend(configured, StartCalls(codec, listener, startFails(codec)));
    }
  }

  /**
   * A second configure failure is not fatal: it is reported, and the
   * MIME-only codec is started anyway; the run succeeds exactly when that
   * start does.
   */
  lemma SecondConfigureFailureFallsThrough(codec: CodecOrigin, mime: string, listener: bool,
                                           configureFails: (CodecOrigin, bool) -> bool, startFails: CodecOrigin -> bool)
    requires configureFails(codec, true) && configureFails(ByMime(mime), false)
    ensures var run := InitSpec(codec, true, mime, listener, configureFails, startFails);
      && Start(ByMime(mime)) in run.calls
      && (run.started <==> !startFails(ByMime(mime)))
      && (listener ==> ReportConfigureFailure(codec) in run.calls && ReportConfigureFailure(ByMime(mime)) in run.calls)
  {
    var m := ByMime(mime);
    var outer := ConfigureCalls(codec, listener, true);
    var inner := ConfigureCalls(m, listener, true);
    var start := StartCalls(m, listener, startFails(m));
    var run := InitSpec(codec, true, mime, listener, configureFails, startFails);
    assert run.calls == outer + (inner + start);
    assert run.calls[|outer| + |inner|] == Start(m);
    if listener {
      assert run.calls[2] == ReportConfigureFailure(codec);
      assert run.calls[|outer| + 2] == ReportConfigureFailure(m);
    }
  }

  /**
   * A failed first configure followed by a successful fallback configure: one
   * failure report, then the fresh MIME-only codec is configured and started.
   * This holds also when the first codec was itself created by MIME type.
   */
  lemma FallbackConfigureSucceeds(codec: CodecOrigin, mime: string, listener: bool,
                                  configureFails: (CodecOrigin, bool) -> bool, startFails: CodecOrigin -> bool)
    requires configureFails(codec, true) && !configureFails(ByMime(mime), false)
    ensures var run := InitSpec(codec, true, mime, listener, configureFails, startFails);
      && run.calls == ConfigureCalls(codec, listener, true) + ConfigureCalls(ByMime(mime), listener, false)
                      + StartCalls(ByMime(mime), listener, startFails(ByMime(mime)))
      && run.codec == ByMime(mime) && !run.retry
      && (run.started <==> !startFails(ByMime(mime)))
  {
    var again := InitSpec(ByMime(mime), false, mime, listener, configureFails, startFails);
    assert again.calls == ConfigureCalls(ByMime(mime), listener, false) + StartCalls(ByMime(mime), listener, startFails(ByMime(mime)));
  }

  /**
   * A start failure ends the run: it is the last codec call, it is reported,
   * and no configure follows it; a successful run ends with a start.
   */
  lemma {:induction false} StartFailureIsFinal(codec: CodecOrigin, retry: bool, mime: string, listener: bool,
                                               configureFails: (CodecOrigin, bool) -> bool, startFails: CodecOrigin -> bool)
    decreases retry
    ensures var run := InitSpec(codec, retry, mime, listener, configureFails, startFails);
      && (run.started <==> !startFails(run.codec))
      && |run.calls| >= 3
      && (run.started ==> run.calls[|run.calls| - 1] == Start(run.codec))
      && (!run.started && listener ==> run.calls[|run.calls| - 1] == ReportStartFailure(run.codec)
                                       && run.calls[|run.calls| - 2] == Start(run.codec))
      && (!run.started && !listener ==> run.calls[|run.calls| - 1] == Start(run.codec))
  {
    if configureFails(codec, retry) && retry {
      StartFailureIsFinal(ByMime(mime), false, mime, listener, configureFails, startFails);
    }
  }

  class Decoder {
    const format: MediaFormat
    const listener: bool
    var retry: bool
    var codec: CodecOrigin
    var decoderReady: bool
    var dequeuedInputs: int
    var dequeuedOutputs: int
    var calls: seq<DecoderCall>

    /**
     * Picks the codec from the platform's codec list, asking for a software
     * codec only when `useSwFor4K` is set and the format is 4K by the test as
     * written, whose `Int` pixel count wraps around.
     */
    constructor (format: MediaFormat, useSwFor4K: bool, listener: bool,
                 infos: seq<CodecInfo>, sdkAtLeastQ: bool, createByNameThrows: bool)
      ensures this.format == format && this.listener == listener
      ensures codec == SelectedCodec(format.mime, infos, useSwFor4K && Is4KAsWritten(format.width, format.height),
                                     sdkAtLeastQ, createByNameThrows)
      ensures retry && !decoderReady && dequeuedInputs == 0 && dequeuedOutputs == 0 && calls == []
    {
      this.format := format;
      this.listener := listener;
      var chosen := CreateDecoderByType(format.mime, infos, useSwFor4K && Is4KAsWritten(format.width, format.height),
                                        sdkAtLeastQ, createByNameThrows);
      codec := chosen;
      retry := true;
      decoderReady := false;
      dequeuedInputs := 0;
      dequeuedOutputs := 0;
      calls := [];
    }

    /**
     * Configures and starts the codec. `configureFails` and `startFails` say
     * how the platform answers each attempt, as in `InitSpec`. Returns false when the start
     * failure was rethrown to the caller.
     */
    method Initialize(configureFails: (CodecOrigin, bool) -> bool, startFails: CodecOrigin -> bool) returns (ok: bool)
      modifies this`calls, this`retry, this`codec, this`decoderReady
      decreases retry
      ensures var run := InitSpec(old(codec), old(retry), format.mime, listener, configureFails, startFails);
        && calls == old(calls) + run.calls
        && codec == run.codec && retry == run.retry && ok == run.started
      ensures decoderReady == if ok then false else old(decoderReady)
    {
      ghost var initial := calls;
      ghost var run := InitSpec(codec, retry, format.mime, listener, configureFails, startFails);
      ghost var configured := ConfigureCalls(codec, listener, configureFails(codec, retry));
      calls := calls + [HandleSourceFormat, Configure(codec)];
      if configureFails(codec, retry) {
        calls := calls + Report(listener, ReportConfigureFailure(codec));
        assert calls == initial + configured;
        if retry {
          retry := false;
          codec := ByMime(format.mime);
          ghost var again := InitSpec(codec, false, format.mime, listener, configureFails, startFails);
          assert run == InitRun(configured + again.calls, again.codec, again.retry, again.started);
          ok := Initialize(configureFails, startFails);
          return;
        }
      }
      assert calls == initial + configured;
      assert run.calls == configured + StartCalls(codec, listener, startFails(codec));
      ok := StartCodec(startFails);
    }

    /** Starts the codec; a failure is reported and rethrown, a success clears `decoderReady`. */
    method StartCodec(startFails: CodecOrigin -> bool) returns (ok: bool)
      modifies this`calls, this`decoderReady
      ensures calls == old(calls) + StartCalls(codec, listener, startFails(codec))
      ensures ok == !startFails(codec)
      ensures decoderReady == if ok then false else old(decoderReady)
    {
      calls := calls + [Start(codec)];
      if startFails(codec) {
        calls := calls + Report(listener, ReportStartFailure(codec));
        return false;
      }
      decoderReady := false;
      ok := true;
    }

    /**
     * Asks for a free input slot; `flushRequest` is the answer of the flush
     * predicate (`None` when there is none) and `dequeued` what the codec
     * returned. A flush happens only when requested and the decoder is ready.
     */
    method Buffer(flushRequest: Option<bool>, dequeued: int) returns (slot: Option<int>)
      modifies this`calls, this`dequeuedInputs
      ensures calls == old(calls) + (if flushRequest == Some(true) && decoderReady then [Flush] else []) + [DequeueInput]
      ensures slot == if dequeued >= 0 then Some(dequeued) else None
      ensures dequeuedInputs == old(dequeuedInputs) + (if dequeued >= 0 then 1 else 0)
    {
      if flushRequest == Some(true) && decoderReady {
        calls := calls + [Flush];
      }
      calls := calls + [DequeueInput];
      if dequeued >= 0 {
        dequeuedInputs := dequeuedInputs + 1;
        slot := Some(dequeued);
      } else {
        slot := None;
      }
    }

    /** Queues the end-of-stream marker: no bytes, time 0, the end-of-stream flag. */
    method EnqueueEos(data: ReaderData)
      modifies this`calls, this`dequeuedInputs
      ensures dequeuedInputs == old(dequeuedInputs) - 1
      ensures calls == old(calls) + [QueueInput(data.id, 0, 0, 0, BufferFlagEndOfStream)]
    {
      dequeuedInputs := dequeuedInputs - 1;
      calls := calls + [QueueInput(data.id, 0, 0, 0, BufferFlagEndOfStream)];
    }

    /** Queues a chunk, flagged as a sync frame only if it is a keyframe, then tells the dropper. */
    method Enqueue(data: ReaderData)
      modifies this`calls, this`dequeuedInputs
      ensures dequeuedInputs == old(dequeuedInputs) - 1
      ensures calls == old(calls) + [
        QueueInput(data.id, data.chunk.position, data.chunk.remaining, data.chunk.timeUs,
                   if data.chunk.keyframe then BufferFlagSyncFrame else 0),
        DropperInput(data.chunk.timeUs, data.chunk.render)]
    {
      dequeuedInputs := dequeuedInputs - 1;
      var flag: bv32 := if data.chunk.keyframe then BufferFlagSyncFrame else 0;
      calls := calls + [QueueInput(data.id, data.chunk.position, data.chunk.remaining, data.chunk.timeUs, flag)];
      calls := calls + [DropperInput(data.chunk.timeUs, data.chunk.render)];
    }

    /**
     * Takes one output from the codec. `result` is what the codec returned,
     * `flags` and `presentationTimeUs` describe the buffer, and `dropperTime`
     * is what the dropper would answer for that time.
     */
    method Drain(result: int, flags: bv32, presentationTimeUs: int, dropperTime: Option<int>)
      returns (state: State<DecoderData>)
      modifies this`calls, this`decoderReady, this`dequeuedOutputs
      ensures result == InfoTryAgainLater ==>
        state == Wait && calls == old(calls) + [DequeueOutput]
        && decoderReady == old(decoderReady) && dequeuedOutputs == old(dequeuedOutputs)
      ensures result == InfoOutputFormatChanged ==>
        state == Retry && decoderReady && calls == old(calls) + [DequeueOutput, HandleRawFormat]
        && dequeuedOutputs == old(dequeuedOutputs)
      ensures result == InfoOutputBuffersChanged ==>
        state == Retry && calls == old(calls) + [DequeueOutput, OutputBuffersChanged]
        && decoderReady == old(decoderReady) && dequeuedOutputs == old(dequeuedOutputs)
      ensures result !in {InfoTryAgainLater, InfoOutputFormatChanged, InfoOutputBuffersChanged} ==>
        decoderReady == old(decoderReady) &&
        if flags & BufferFlagEndOfStream != 0 then
          state == Eos(DecoderData(result, 0)) && calls == old(calls) + [DequeueOutput]
          && dequeuedOutputs == old(dequeuedOutputs) + 1
        else if dropperTime.None? then
          state == Wait && calls == old(calls) + [DequeueOutput, DropperOutput(presentationTimeUs), ReleaseOutput(result, false)]
          && dequeuedOutputs == old(dequeuedOutputs)
        else
          state == Ok(DecoderData(result, dropperTime.value))
          && calls == old(calls) + [DequeueOutput, DropperOutput(presentationTimeUs)]
          && dequeuedOutputs == old(dequeuedOutputs) + 1
    {
      calls := calls + [DequeueOutput];
      if result == InfoTryAgainLater {
        return Wait;
      } else if result == InfoOutputFormatChanged {
        decoderReady := true;
        calls := calls + [HandleRawFormat];
        return Retry;
      } else if result == InfoOutputBuffersChanged {
        calls := calls + [OutputBuffersChanged];
        return Retry;
      }
      var isEos := flags & BufferFlagEndOfStream != 0;
      var timeUs: Option<int>;
      if isEos {
        timeUs := Some(0);
      } else {
        calls := calls + [DropperOutput(presentationTimeUs)];
        timeUs := dropperTime;
      }
      if timeUs.Some? {
        dequeuedOutputs := dequeuedOutputs + 1;
        var data := DecoderData(result, timeUs.value);
        state := if isEos then Eos(data) else Ok(data);
      } else {
        calls := calls + [ReleaseOutput(result, false)];
        state := Wait;
      }
    }

    /** The release callback of a drained buffer: gives the slot back to the codec. */
    method ReleaseData(data: DecoderData, render: bool)
      modifies this`calls, this`dequeuedOutputs
      ensures calls == old(calls) + [ReleaseOutput(data.index, render)]
      ensures dequeuedOutputs == old(dequeuedOutputs) - 1
    {
      calls := calls + [ReleaseOutput(data.index, render)];
      dequeuedOutputs := dequeuedOutputs - 1;
    }

    /**
     * Stops and releases the codec. A failure of either is reported to the
     * listener and never rethrown; a failing stop skips the release.
     */
    method Release(stopFails: bool, releaseFails: bool)
      modifies this`calls
      ensures calls == old(calls) + [Stop] + (if stopFails then [] else [ReleaseCodec])
                       + (if stopFails || releaseFails then Report(listener, ReportReleaseFailure(codec)) else [])
    {
      calls := calls + [Stop];
      if !stopFails {
        calls := calls + [ReleaseCodec];
      }
      if stopFails || releaseFails {
        calls := calls + Report(listener, ReportReleaseFailure(codec));
      }
    }
  }
}
