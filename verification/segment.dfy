/**
 * One per-source decode pipeline (a "segment") and the record of the calls the
 * segment machinery makes on the world outside it (pipelines, data sources).
 */
module Segments {
  import opened Common
  import opened Pipeline

  /** A data source, named by its track type and its position in that type's source list. */
  datatype SourceRef = SourceRef(track: TrackType, index: nat)

  /** An observable action, in the order it happens. */
  datatype Call =
    | PipelineReleased(pipeline: nat)
    | TrackReleased(source: SourceRef, track: TrackType)
    | EntryRemoved(key: string)
    | SourceInitialized(source: SourceRef)
    | TrackSelected(source: SourceRef, track: TrackType)
    | PipelineCreated(track: TrackType, source: SourceRef, pipeline: nat)

  /** Calls that tear a segment down. */
  predicate IsTeardown(c: Call) {
    c.PipelineReleased? || c.TrackReleased? || c.EntryRemoved?
  }

  /** Calls that build a segment up. */
  predicate IsCreation(c: Call) {
    c.SourceInitialized? || c.TrackSelected? || c.PipelineCreated?
  }

  /** The shared, append-only log of calls. */
  class Trace {
    var calls: seq<Call>

    constructor ()
      ensures calls == []
    {
      calls := [];
    }
  }

  /**
   * A segment owns one pipeline (named by the handle the pipeline factory gave
   * it) and remembers the last state that pipeline's `execute()` returned.
   */
  class Segment {
    const track: TrackType
    const index: int
    const pipeline: nat
    const source: string
    const trace: Trace
    var state: Option<State<()>>

    constructor (track: TrackType, index: int, pipeline: nat, source: string, trace: Trace)
      ensures this.track == track && this.index == index && this.pipeline == pipeline
      ensures this.source == source && this.trace == trace
      ensures state == None
      ensures CanAdvance()
    {
      this.track := track;
      this.index := index;
      this.pipeline := pipeline;
      this.source := source;
      this.trace := trace;
      state := None;
    }

    /**
     * Runs the pipeline once; `executed` is what the pipeline's `execute()`
     * returned. The state is overwritten, so whether the segment can advance
     * afterwards depends on this result alone: an earlier `Eos` is forgotten.
     */
    method Advance(executed: State<()>) returns (ok: bool)
      modifies this
      ensures state == Some(executed)
      ensures ok <==> executed.Ok?
      ensures CanAdvance() <==> !executed.Eos?
    {
      state := Some(executed);
      ok := executed.Ok?;
    }

    /** The segment can advance unless the last pipeline run reported end of stream. */
    predicate CanAdvance()
      reads this
      ensures CanAdvance() <==> state != Some(Eos(()))
    {
      match state
      case None => true
      case Some(Eos(u)) => assert u == (); false
      case Some(_) => true
    }

    /** Releases the pipeline; the recorded state is left as it was. */
    method Release()
      modifies trace
      ensures trace.calls == old(trace.calls) + [PipelineReleased(pipeline)]
      ensures state == old(state) && CanAdvance() == old(CanAdvance())
    {
      trace.calls := trace.calls + [PipelineReleased(pipeline)];
    }
  }
}
