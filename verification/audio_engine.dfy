/**
 * The audio engine step: takes decoded audio buffers, queues them as
 * chunks, and on each drain fits as much of the head chunk as the encoder's
 * input buffer can take. The chunk queue, the remixer, the stretcher and the
 * native resampler are seen only through what they answer.
 */
module AudioStep {
  import opened Common
  import opened Pipeline
  import opened Codec
  import opened AudioSizing

  /** Sample rates are positive. */
  type SampleRate = r: int | r > 0 witness 44100

  /** What the engine reads from a format. */
  datatype AudioFormat = AudioFormat(sampleRate: SampleRate, channels: int)

  /** The remixer picked for a pair of channel counts. */
  datatype Remixer = Remixer(inChannels: int, outChannels: int)

  /** A decoded buffer, with its time stretch when it is timer data. */
  datatype AudioInput = AudioInput(data: DecoderData, timeStretch: Option<real>)

  /** An encoder input buffer: its slot id and the bytes it has room for. */
  datatype OutputBuffer = OutputBuffer(id: int, remainingBytes: nat)

  /** The data handed to the encoder. */
  datatype EncoderData = EncoderData(id: int, timeUs: int)

  /** What the chunk queue offers at its head: its end-of-stream marker, or a chunk's sample window. */
  datatype QueueHead = EndOfStream | Pending(position: nat, remaining: nat, timeUs: int, stretch: real)

  /** Which scratch buffer is requested. */
  datatype Scratch = StretchScratch | RemixScratch

  /** Why a call throws. */
  datatype EngineError = Uninitialized | OutputOverflow

  datatype Outcome<T> = Done(value: T) | Throws(error: EngineError)

  /** An observable action of the engine, in the order it happens. */
  datatype AudioCall =
    | QueueCreated(sampleRate: int, channels: int)
    | DataReleased(index: int, render: bool)
    | ChunkEnqueued(index: int, timeUs: int, stretch: real)
    | QueueEos
    | DownstreamRequested
    | InputLimitSet(limit: int)
    | ScratchAcquired(scratch: Scratch, size: int)
    | OutputWindowSet(id: int, position: int, limit: int)

  /** The capacity, in floats, of the engine's resampler output buffer. */
  const ResampledCapacity: nat := 32096

  /** The stretch a chunk is queued with: the timer data's own, or 1. */
  function StretchOf(input: AudioInput): (stretch: real)
    ensures input.timeStretch.None? ==> stretch == 1.0
    ensures input.timeStretch.Some? ==> stretch == input.timeStretch.value
  {
    match input.timeStretch
    case Some(t) => t
    case None => 1.0
  }

  /** The remixer's size function, for one remixer. */
  function RemixOf(sizeOf: (Remixer, int) -> int, remixer: Remixer): int -> int
  {
    n => sizeOf(remixer, n)
  }

  /**
   * The calls that prepare a chunk at `position` for the resampler: the
   * input window is cut to `processable` samples, then the stretch scratch
   * (rounded up) and the remix scratch buffers are requested.
   */
  function PrepareCallsFor(position: int, processable: int, stretch: real, remix: int -> int): seq<AudioCall>
  {
    var stretched := StretchedSize(processable, stretch);
    [InputLimitSet(position + processable), ScratchAcquired(StretchScratch, stretched), ScratchAcquired(RemixScratch, remix(stretched))]
  }

  /**
   * The resampled samples do not fit: more than the resampler's own buffer
   * holds, or more than the encoder buffer has room for. Otherwise the byte
   * window of two bytes per sample lies within the encoder buffer's room.
   */
  predicate Overflows(resampled: nat, out: OutputBuffer): (r: bool)
    ensures !r <==> resampled <= ResampledCapacity && 2 * resampled <= out.remainingBytes
  {
    resampled > ResampledCapacity || resampled > out.remainingBytes / 2
  }

  class AudioEngine {
    const target: AudioFormat
    /** The size a remixer from `inChannels` to `outChannels` turns `n` samples into. */
    const remixedSize: (Remixer, int) -> int
    var rawFormat: Option<AudioFormat>
    var remixer: Option<Remixer>
    var queueReady: bool
    var calls: seq<AudioCall>

    /** The three late-initialized fields are set together, from the raw format. */
    ghost predicate Valid()
      reads this`rawFormat, this`remixer, this`queueReady
    {
      && (rawFormat.None? <==> remixer.None?)
      && (rawFormat.None? <==> !queueReady)
      && (rawFormat.Some? ==> remixer == Some(Remixer(rawFormat.value.channels, target.channels)))
    }

    constructor (target: AudioFormat, remixedSize: (Remixer, int) -> int)
      ensures this.target == target && this.remixedSize == remixedSize
      ensures Valid() && rawFormat.None? && calls == []
    {
      this.target := target;
      this.remixedSize := remixedSize;
      rawFormat := None;
      remixer := None;
      queueReady := false;
      calls := [];
    }

    /** Records the decoder's output format, picks the remixer and creates the chunk queue. */
    method HandleRawFormat(raw: AudioFormat)
      modifies this
      ensures Valid()
      ensures rawFormat == Some(raw) && remixer == Some(Remixer(raw.channels, target.channels)) && queueReady
      ensures calls == old(calls) + [QueueCreated(raw.sampleRate, raw.channels)]
    {
      rawFormat := Some(raw);
      remixer := Some(Remixer(raw.channels, target.channels));
      queueReady := true;
      calls := calls + [QueueCreated(raw.sampleRate, raw.channels)];
    }

    /** Queues a decoded buffer; the queue releases it, without rendering, once consumed. */
    method Enqueue(input: AudioInput) returns (r: Outcome<()>)
      modifies this`calls
      ensures !queueReady ==> r == Throws(Uninitialized) && calls == old(calls)
      ensures queueReady ==>
        r == Done(()) && calls == old(calls) + [ChunkEnqueued(input.data.index, input.data.timeUs, StretchOf(input))]
    {
      if !queueReady {
        return Throws(Uninitialized);
      }
      calls := calls + [ChunkEnqueued(input.data.index, input.data.timeUs, StretchOf(input))];
      r := Done(());
    }

    /** The consumed callback of a queued chunk. */
    method ChunkConsumed(index: int)
      modifies this`calls
      ensures calls == old(calls) + [DataReleased(index, false)]
    {
      calls := calls + [DataReleased(index, false)];
    }

    /**
     * Releases the end-of-stream buffer without rendering, then marks the
     * queue at its end; the release happens even when the queue is missing.
     */
    method EnqueueEos(input: AudioInput) returns (r: Outcome<()>)
      modifies this`calls
      ensures !queueReady ==> r == Throws(Uninitialized) && calls == old(calls) + [DataReleased(input.data.index, false)]
      ensures queueReady ==> r == Done(()) && calls == old(calls) + [DataReleased(input.data.index, false), QueueEos]
    {
      calls := calls + [DataReleased(input.data.index, false)];
      if !queueReady {
        return Throws(Uninitialized);
      }
      calls := calls + [QueueEos];
      r := Done(());
    }

    /** The worst-case output size of the head chunk, through this engine's remixer and sample rates. */
    function DesiredSize(head: QueueHead): int
      requires head.Pending? && Valid() && rawFormat.Some?
      reads this`rawFormat, this`remixer, this`queueReady
    {
      DesiredOutSize(head.remaining, head.stretch, RemixOf(remixedSize, remixer.value),
                     rawFormat.value.sampleRate, target.sampleRate)
    }

    /** The samples of the head chunk this drain consumes, for an output with room for `outSize` samples. */
    function Processable(head: QueueHead, outSize: nat): (p: int)
      requires head.Pending? && Valid() && rawFormat.Some?
      reads this`rawFormat, this`remixer, this`queueReady
      ensures 0 <= p <= head.remaining
      ensures DesiredSize(head) <= outSize ==> p == head.remaining
      ensures head.remaining > 0 && DesiredSize(head) > outSize ==> p < head.remaining
    {
      ProcessablePrefix(head.remaining, outSize, DesiredSize(head));
      ProcessableSize(head.remaining, outSize, DesiredSize(head))
    }

    /** The calls that prepare the head chunk for the resampler, for an output with room for `outSize` samples. */
    function PrepareCalls(head: QueueHead, outSize: nat): seq<AudioCall>
      requires head.Pending? && Valid() && rawFormat.Some?
      reads this`rawFormat, this`remixer, this`queueReady
    {
      PrepareCallsFor(head.position, Processable(head, outSize), head.stretch, RemixOf(remixedSize, remixer.value))
    }

    /**
     * Runs the head chunk through the stretcher and remixer into `out`:
     * consumes the processable prefix, then sets the output byte window.
     */
    method Render(head: QueueHead, out: OutputBuffer, resampled: nat) returns (r: Outcome<State<EncoderData>>)
      requires head.Pending? && Valid() && rawFormat.Some?
      modifies this`calls
      ensures var prepared := old(calls) + PrepareCalls(head, out.remainingBytes / 2);
        if Overflows(resampled, out) then
          r == Throws(OutputOverflow) && calls == prepared
        else
          r == Done(Ok(EncoderData(out.id, head.timeUs)))
          && calls == prepared + [OutputWindowSet(out.id, 0, 2 * resampled)]
    {
      var outSize := out.remainingBytes / 2;
      var p := Processable(head, outSize);
      var remix := RemixOf(remixedSize, remixer.value);
      ghost var before := calls;
      calls := calls + [InputLimitSet(head.position + p)];
      var stretched := StretchedSize(p, head.stretch);
      calls := calls + [ScratchAcquired(StretchScratch, stretched)];
      calls := calls + [ScratchAcquired(RemixScratch, remix(stretched))];
      assert calls == before + PrepareCallsFor(head.position, p, head.stretch, remix);
      if Overflows(resampled, out) {
        return Throws(OutputOverflow);
      }
      // After the copy and flip the short window is [0, resampled); the byte
      // position is four times the short position, the byte limit twice the short limit.
      calls := calls + [OutputWindowSet(out.id, 0, 2 * resampled)];
      r := Done(Ok(EncoderData(out.id, head.timeUs)));
    }

    /**
     * One drain. `queueEmpty` and `head` are the chunk queue's answers,
     * `downstream` the encoder's free buffer if any, and `resampled` the
     * number of samples the native resampler writes.
     */
    method Drain(queueEmpty: bool, downstream: Option<OutputBuffer>, head: QueueHead, resampled: nat)
      returns (r: Outcome<State<EncoderData>>)
      requires Valid()
      modifies this`calls
      ensures !queueReady ==> r == Throws(Uninitialized) && calls == old(calls)
      ensures queueReady && queueEmpty ==> r == Done(Wait) && calls == old(calls)
      ensures queueReady && !queueEmpty && downstream.None? ==>
        r == Done(Wait) && calls == old(calls) + [DownstreamRequested]
      ensures queueReady && !queueEmpty && downstream.Some? && head.EndOfStream? ==>
        r == Done(Eos(EncoderData(downstream.value.id, 0))) && calls == old(calls) + [DownstreamRequested]
      ensures queueReady && !queueEmpty && downstream.Some? && head.Pending? ==>
        var out := downstream.value;
        var prepared := old(calls) + [DownstreamRequested] + PrepareCalls(head, out.remainingBytes / 2);
        if Overflows(resampled, out) then
          r == Throws(OutputOverflow) && calls == prepared
        else
          r == Done(Ok(EncoderData(out.id, head.timeUs)))
          && calls == prepared + [OutputWindowSet(out.id, 0, 2 * resampled)]
    {
      if !queueReady {
        return Throws(Uninitialized);
      }
      if queueEmpty {
        return Done(Wait);
      }
      calls := calls + [DownstreamRequested];
      if downstream.None? {
        return Done(Wait);
      }
      var out := downstream.value;
      if head.EndOfStream? {
        return Done(Eos(EncoderData(out.id, 0)));
      }
      r := Render(head, out, resampled);
    }
  }
}
