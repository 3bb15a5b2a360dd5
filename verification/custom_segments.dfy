/**
 * The per-source segment manager: a map from media id to an optional segment,
 * with one "current" segment whose pipeline is the only one alive.
 */
module SegmentManager {
  import opened Common
  import opened Pipeline
  import opened Segments

  /** What the manager knows of a data source: its media id (a URI source's `uri.toString()`). */
  datatype Source = Source(mediaId: string)

  /** Position of the first source in `sources[from..]` whose media id is `id`, as `firstOrNull` finds it. */
  function FirstWithIdFrom(sources: seq<Source>, id: string, from: nat): (r: Option<nat>)
    requires from <= |sources|
    ensures r.Some? ==> from <= r.value < |sources| && sources[r.value].mediaId == id
    ensures r.Some? ==> forall j :: from <= j < r.value ==> sources[j].mediaId != id
    ensures r.None? ==> forall j :: from <= j < |sources| ==> sources[j].mediaId != id
    decreases |sources| - from
  {
    if from == |sources| then None
    else if sources[from].mediaId == id then Some(from)
    else FirstWithIdFrom(sources, id, from + 1)
  }

  function FirstWithId(sources: seq<Source>, id: string): (r: Option<nat>)
    ensures r.Some? ==> r.value < |sources| && sources[r.value].mediaId == id
    ensures r.Some? ==> forall j :: 0 <= j < r.value ==> sources[j].mediaId != id
    ensures r.None? <==> forall j :: 0 <= j < |sources| ==> sources[j].mediaId != id
  {
    FirstWithIdFrom(sources, id, 0)
  }

  /** Map keys that hold a segment rather than a stored `null`. */
  function NonNullKeys(m: map<string, Segment?>): set<string>
  {
    set k | k in m && m[k] != null
  }

  /** Visiting one more key `k` of `m` adds it to the visited non-null keys exactly when its entry is not null. */
  lemma NonNullKeysStep(m: map<string, Segment?>, remaining: set<string>, k: string)
    requires k in remaining && k in m
    ensures |NonNullKeys(m) - (remaining - {k})| == |NonNullKeys(m) - remaining| + (if m[k] != null then 1 else 0)
  {
    if m[k] != null {
      assert NonNullKeys(m) - (remaining - {k}) == (NonNullKeys(m) - remaining) + {k};
    } else {
      assert NonNullKeys(m) - (remaining - {k}) == NonNullKeys(m) - remaining;
    }
  }

  /** Whether `calls` holds the release of pipeline `p`. */
  predicate WasReleased(calls: seq<Call>, p: nat)
  {
    PipelineReleased(p) in calls
  }

  /** Every pipeline released in `calls` has a handle below `bound`. */
  ghost predicate ReleasesBelow(calls: seq<Call>, bound: nat)
  {
    forall i :: 0 <= i < |calls| && calls[i].PipelineReleased? ==> calls[i].pipeline < bound
  }

  /** Appending only creation calls adds no pipeline release. */
  lemma CreationReleasesNothing(before: seq<Call>, extra: seq<Call>, bound: nat)
    requires forall i :: 0 <= i < |extra| ==> IsCreation(extra[i])
    requires ReleasesBelow(before, bound)
    ensures forall p: nat :: WasReleased(before + extra, p) <==> WasReleased(before, p)
    ensures ReleasesBelow(before + extra, bound)
  {
    forall p ensures PipelineReleased(p) in before + extra ==> PipelineReleased(p) in before {
      if PipelineReleased(p) in before + extra {
        var i :| 0 <= i < |before + extra| && (before + extra)[i] == PipelineReleased(p);
      }
    }
  }

  /** Releasing pipeline `pipe` and then making calls that release nothing else. */
  lemma TeardownReleasesOne(before: seq<Call>, pipe: nat, rest: seq<Call>, bound: nat)
    requires forall i :: 0 <= i < |rest| ==> !rest[i].PipelineReleased?
    requires ReleasesBelow(before, bound) && pipe < bound
    ensures forall p: nat :: WasReleased(before + [PipelineReleased(pipe)] + rest, p) <==>
                             WasReleased(before, p) || p == pipe
    ensures ReleasesBelow(before + [PipelineReleased(pipe)] + rest, bound)
  {
    var after := before + [PipelineReleased(pipe)] + rest;
    assert after[|before|] == PipelineReleased(pipe);
    forall p ensures PipelineReleased(p) in after ==> PipelineReleased(p) in before || p == pipe {
      if PipelineReleased(p) in after {
        var i :| 0 <= i < |after| && after[i] == PipelineReleased(p);
      }
    }
    forall i | 0 <= i < |after| && after[i].PipelineReleased? ensures after[i].pipeline < bound {
    }
  }

  /** A track release and a map-entry removal release no pipeline. */
  lemma TrackAndEntryReleaseNoPipeline(track: seq<Call>, key: string)
    requires forall i :: 0 <= i < |track| ==> track[i].TrackReleased?
    ensures forall i :: 0 <= i < |track + [EntryRemoved(key)]| ==> !(track + [EntryRemoved(key)])[i].PipelineReleased?
  {
  }

  class CustomSegments {
    const sources: map<TrackType, seq<Source>>
    const active: set<TrackType>
    const trace: Trace
    /** Sources that report themselves initialized. */
    var initialized: set<SourceRef>
    /** How many pipelines the factory has built; the next one gets this handle. */
    var pipelines: nat
    var currentSegment: Segment?
    var currentSegmentMapKey: Option<string>
    var segmentMap: map<string, Segment?>

    function SourcesOf(track: TrackType): seq<Source>
    {
      if track in sources then sources[track] else []
    }

    predicate Has(track: TrackType)
    {
      |SourcesOf(track)| > 0
    }

    /** Pipelines built and not yet released. */
    ghost function LivePipelines(): set<nat>
      reads this, trace
    {
      set p | 0 <= p < pipelines && !WasReleased(trace.calls, p)
    }

    /**
     * The manager's invariant: every segment stored in the map is the current
     * one, stored under the current key; the current segment's pipeline is
     * alive and every other pipeline ever built has been released.
     */
    ghost predicate Valid()
      reads this, trace
    {
      && (currentSegment == null ==> forall k :: k in segmentMap ==> segmentMap[k] == null)
      && (currentSegment != null ==>
            && currentSegmentMapKey.Some?
            && currentSegmentMapKey.value in segmentMap
            && segmentMap[currentSegmentMapKey.value] == currentSegment
            && (forall k :: k in segmentMap && k != currentSegmentMapKey.value ==> segmentMap[k] == null)
            && currentSegment.trace == trace
            && currentSegment.track == Video
            && currentSegment.source == currentSegmentMapKey.value
            && currentSegment.pipeline < pipelines
            && !WasReleased(trace.calls, currentSegment.pipeline))
      && (forall p: nat :: p < pipelines && (currentSegment == null || p != currentSegment.pipeline) ==>
            WasReleased(trace.calls, p))
      && ReleasesBelow(trace.calls, pipelines)
    }

    /** The map holds at most one segment, and when there is a current segment it is that one. */
    lemma AtMostOneStored()
      requires Valid()
      ensures |NonNullKeys(segmentMap)| <= 1
      ensures currentSegment != null ==> NonNullKeys(segmentMap) == {currentSegmentMapKey.value}
    {
      if currentSegment == null {
        assert NonNullKeys(segmentMap) == {};
      } else {
        assert NonNullKeys(segmentMap) == {currentSegmentMapKey.value};
      }
    }

    /** At most one pipeline is alive: the current segment's, if there is one. */
    lemma AtMostOneLive()
      requires Valid()
      ensures LivePipelines() == if currentSegment == null then {} else {currentSegment.pipeline}
      ensures |LivePipelines()| <= 1
    {
      if currentSegment == null {
        assert LivePipelines() == {};
      } else {
        assert LivePipelines() == {currentSegment.pipeline};
      }
    }

    constructor (sources: map<TrackType, seq<Source>>, active: set<TrackType>, initialized: set<SourceRef>)
      ensures Valid() && fresh(trace)
      ensures this.sources == sources && this.active == active && this.initialized == initialized
      ensures currentSegment == null && currentSegmentMapKey == None && segmentMap == map[]
      ensures trace.calls == []
    {
      this.sources := sources;
      this.active := active;
      this.initialized := initialized;
      trace := new Trace();
      pipelines := 0;
      currentSegment := null;
      currentSegmentMapKey := None;
      segmentMap := map[];
    }

    /**
     * Whether there is more work for `track`: never without sources of that
     * type, always before any segment exists, and otherwise as long as the
     * current segment's pipeline has not reported end of stream.
     */
    predicate HasNext(track: TrackType)
      reads this, currentSegment
      ensures HasNext(track) <==>
        Has(track) && (currentSegment == null || currentSegment.state != Some(Eos(())))
    {
      if !Has(track) then false
      else if currentSegment == null then true
      else currentSegment.CanAdvance()
    }

    /** `hasNext()` with no argument asks about the video track. */
    predicate HasNextVideo()
      reads this, currentSegment
      ensures HasNextVideo() <==>
        Has(Video) && (currentSegment == null || currentSegment.state != Some(Eos(())))
    {
      HasNext(Video)
    }

    /** The track release done on teardown: only for an active track, and only if the source is found. */
    function TrackReleaseCalls(track: TrackType, mediaId: string): (calls: seq<Call>)
      ensures forall i :: 0 <= i < |calls| ==> calls[i].TrackReleased?
    {
      match FirstWithId(SourcesOf(track), mediaId)
      case None => []
      case Some(i) => if track in active then [TrackReleased(SourceRef(track, i), track)] else []
    }

    /** Tearing down the current segment: pipeline, then track, then map entry. */
    function DestroyCalls(): (calls: seq<Call>)
      reads this, currentSegment
      ensures currentSegment == null <==> calls == []
    {
      if currentSegment == null then []
      else
        [PipelineReleased(currentSegment.pipeline)]
        + TrackReleaseCalls(currentSegment.track, currentSegment.source)
        + (match currentSegmentMapKey case Some(k) => [EntryRemoved(k)] case None => [])
    }

    /** Building the segment for `id`: initialize the source if needed, select its track, build the pipeline. */
    function CreationCalls(id: string, initialized: set<SourceRef>, handle: nat): (c: seq<Call>)
      ensures forall k :: 0 <= k < |c| ==> IsCreation(c[k])
      ensures |c| > 0 <==> FirstWithId(SourcesOf(Video), id).Some?
      ensures FirstWithId(SourcesOf(Video), id).Some? ==>
        var ref := SourceRef(Video, FirstWithId(SourcesOf(Video), id).value);
        && c[|c| - 1] == PipelineCreated(Video, ref, handle)
        && (SourceInitialized(ref) in c <==> ref !in initialized)
    {
      match FirstWithId(SourcesOf(Video), id)
      case None => []
      case Some(i) =>
        var ref := SourceRef(Video, i);
        (if ref in initialized then [] else [SourceInitialized(ref)])
        + (if Video in active then [TrackSelected(ref, Video)] else [])
        + [PipelineCreated(Video, ref, handle)]
    }

    /**
     * On a lookup miss every teardown call of the current segment comes before
     * every call that builds the next one.
     */
    lemma TeardownPrecedesCreation(id: string)
      ensures var calls := DestroyCalls() + CreationCalls(id, initialized, pipelines);
        forall i, j :: 0 <= i < |calls| && 0 <= j < |calls| && IsTeardown(calls[i]) && IsCreation(calls[j]) ==> i < j
    {
      var d := DestroyCalls();
      var c := CreationCalls(id, initialized, pipelines);
      assert forall i :: 0 <= i < |d| ==> IsTeardown(d[i]);
      assert forall j :: 0 <= j < |c| ==> IsCreation(c[j]);
      assert forall i :: 0 <= i < |d + c| ==> (d + c)[i] == if i < |d| then d[i] else c[i - |d|];
    }

    /** Tearing down a live current segment releases its pipeline exactly once, first. */
    lemma DestroyReleasesCurrentOnce()
      requires currentSegment != null
      ensures DestroyCalls()[0] == PipelineReleased(currentSegment.pipeline)
      ensures multiset(DestroyCalls())[PipelineReleased(currentSegment.pipeline)] == 1
    {
      var t := TrackReleaseCalls(currentSegment.track, currentSegment.source);
      var e := match currentSegmentMapKey case Some(k) => [EntryRemoved(k)] case None => [];
      assert DestroyCalls() == [PipelineReleased(currentSegment.pipeline)] + t + e;
      assert multiset(t)[PipelineReleased(currentSegment.pipeline)] == 0;
      assert multiset(e)[PipelineReleased(currentSegment.pipeline)] == 0;
    }

    /**
     * The segment for `id`, memoized in the map. A stored segment is returned
     * as it is; a missing key or a stored `null` tears the current segment
     * down and then tries to build a new one, whose result (possibly `null`)
     * is stored under `id` and becomes current.
     */
    method GetSegment(id: string) returns (s: Segment?)
      requires Valid()
      modifies this, trace
      ensures Valid()
      ensures old(id in segmentMap && segmentMap[id] != null) ==>
        && s == old(segmentMap[id])
        && unchanged(this)
        && trace.calls == old(trace.calls)
      ensures !old(id in segmentMap && segmentMap[id] != null) ==>
        && trace.calls == old(trace.calls) + old(DestroyCalls()) + CreationCalls(id, old(initialized), old(pipelines))
        && (s == null <==> FirstWithId(SourcesOf(Video), id).None?)
        && (s != null ==> fresh(s) && s.track == Video && s.index == -1 && s.source == id
                          && s.pipeline == old(pipelines) && s.state == None)
        && currentSegment == s && currentSegmentMapKey == Some(id)
        && segmentMap == (if old(currentSegment) == null then old(segmentMap)
                          else old(segmentMap) - {old(currentSegmentMapKey).value})[id := s]
        && initialized == old(initialized) +
             (if s == null then {} else {SourceRef(Video, FirstWithId(SourcesOf(Video), id).value)})
        && pipelines == old(pipelines) + (if s == null then 0 else 1)
    {
      if id in segmentMap && segmentMap[id] != null {
        s := segmentMap[id];
        return;
      }
      DestroySegment(false);
      ghost var before := trace.calls;
      s := TryCreateSegment(id);
      CreationReleasesNothing(before, trace.calls[|before|..], pipelines);
      assert trace.calls == before + trace.calls[|before|..];
      currentSegment := s;
      currentSegmentMapKey := Some(id);
      segmentMap := segmentMap[id := s];
    }

    /**
     * Tears down the segment stored under `id`, if there is one: its
     * pipeline, its track, its map entry, and the current segment if it was
     * the current segment. The current key is left as it was.
     */
    method ReleaseSegment(id: string)
      requires Valid()
      modifies this, trace
      ensures Valid()
      ensures !old(id in segmentMap && segmentMap[id] != null) ==>
        unchanged(this) && trace.calls == old(trace.calls)
      ensures old(id in segmentMap && segmentMap[id] != null) ==>
        && trace.calls == old(trace.calls) + [PipelineReleased(old(segmentMap[id]).pipeline)]
                          + TrackReleaseCalls(old(segmentMap[id]).track, id) + [EntryRemoved(id)]
        && segmentMap == old(segmentMap) - {id}
        && currentSegment == (if old(currentSegment) == old(segmentMap[id]) then null else old(currentSegment))
        && currentSegmentMapKey == old(currentSegmentMapKey)
        && initialized == old(initialized) && pipelines == old(pipelines)
    {
      if id in segmentMap && segmentMap[id] != null {
        var segment := segmentMap[id];
        assert segment == currentSegment;
        ghost var before := trace.calls;
        segment.Release();
        trace.calls := trace.calls + TrackReleaseCalls(segment.track, id);
        segmentMap := segmentMap - {id};
        trace.calls := trace.calls + [EntryRemoved(id)];
        ghost var rest := TrackReleaseCalls(segment.track, id) + [EntryRemoved(id)];
        TrackAndEntryReleaseNoPipeline(TrackReleaseCalls(segment.track, id), id);
        TeardownReleasesOne(before, segment.pipeline, rest, pipelines);
        assert trace.calls == before + [PipelineReleased(segment.pipeline)] + rest;
        if currentSegment == segment {
          currentSegment := null;
        }
      }
    }

    /** Tears everything down: the current segment, then every segment still stored, then the map. */
    method Release()
      requires Valid()
      modifies this, trace
      ensures Valid()
      ensures trace.calls == old(trace.calls) + old(DestroyCalls())
      ensures currentSegment == null && segmentMap == map[]
      ensures currentSegmentMapKey == if old(currentSegment) == null then old(currentSegmentMapKey) else None
      ensures forall p: nat :: p < pipelines ==> WasReleased(trace.calls, p)
      ensures initialized == old(initialized) && pipelines == old(pipelines)
    {
      DestroySegment(true);
    }

    /** Looks up the first video source with media id `id` and builds a segment on it. */
    method TryCreateSegment(id: string) returns (s: Segment?)
      modifies this`initialized, this`pipelines, trace
      ensures trace.calls == old(trace.calls) + CreationCalls(id, old(initialized), old(pipelines))
      ensures forall i :: |old(trace.calls)| <= i < |trace.calls| ==> IsCreation(trace.calls[i])
      ensures s == null <==> FirstWithId(SourcesOf(Video), id).None?
      ensures s == null ==> initialized == old(initialized) && pipelines == old(pipelines)
      ensures s != null ==>
        && fresh(s) && s.track == Video && s.index == -1 && s.source == id && s.trace == trace
        && s.pipeline == old(pipelines) && s.state == None
        && pipelines == old(pipelines) + 1
        && initialized == old(initialized) + {SourceRef(Video, FirstWithId(SourcesOf(Video), id).value)}
    {
      var found := FirstWithId(SourcesOf(Video), id);
      if found.None? {
        return null;
      }
      var ref := SourceRef(Video, found.value);
      if ref !in initialized {
        initialized := initialized + {ref};
        trace.calls := trace.calls + [SourceInitialized(ref)];
      }
      if Video in active {
        trace.calls := trace.calls + [TrackSelected(ref, Video)];
      }
      var handle := pipelines;
      pipelines := pipelines + 1;
      trace.calls := trace.calls + [PipelineCreated(Video, ref, handle)];
      s := new Segment(Video, -1, handle, id, trace);
    }

    /**
     * Releases the current segment, if any (pipeline, then track, then map
     * entry), clears the current segment and its key, and with `releaseAll` also
     * releases whatever the map still holds and empties it.
     */
    method DestroySegment(releaseAll: bool)
      requires Valid()
      modifies this, trace
      ensures trace.calls == old(trace.calls) + old(DestroyCalls())
      ensures currentSegment == null
      ensures currentSegmentMapKey == if old(currentSegment) == null then old(currentSegmentMapKey) else None
      ensures segmentMap == if releaseAll then map[]
                            else if old(currentSegment) == null then old(segmentMap)
                            else old(segmentMap) - {old(currentSegmentMapKey).value}
      ensures forall k :: k in segmentMap ==> segmentMap[k] == null
      ensures initialized == old(initialized) && pipelines == old(pipelines)
      ensures Valid()
    {
      if currentSegment != null {
        TearDownCurrent();
      }
      if releaseAll {
        ghost var before := trace.calls;
        assert NonNullKeys(segmentMap) == {};
        ReleaseEntries(segmentMap);
        assert trace.calls == before[..|before|] == before;
        segmentMap := map[];
      }
    }

    /** The first half of `destroySegment`: the current segment's pipeline, track and map entry. */
    method TearDownCurrent()
      requires Valid() && currentSegment != null
      modifies this`currentSegment, this`currentSegmentMapKey, this`segmentMap, trace
      ensures trace.calls == old(trace.calls) + old(DestroyCalls())
      ensures currentSegment == null && currentSegmentMapKey == None
      ensures segmentMap == old(segmentMap) - {old(currentSegmentMapKey).value}
      ensures forall k :: k in segmentMap ==> segmentMap[k] == null
      ensures Valid()
    {
      var segment := currentSegment;
      var key := currentSegmentMapKey.value;
      ghost var before := trace.calls;
      segment.Release();
      trace.calls := trace.calls + TrackReleaseCalls(segment.track, segment.source);
      segmentMap := segmentMap - {key};
      trace.calls := trace.calls + [EntryRemoved(key)];
      ghost var rest := TrackReleaseCalls(segment.track, segment.source) + [EntryRemoved(key)];
      TrackAndEntryReleaseNoPipeline(TrackReleaseCalls(segment.track, segment.source), key);
      TeardownReleasesOne(before, segment.pipeline, rest, pipelines);
      assert trace.calls == before + [PipelineReleased(segment.pipeline)] + rest;
      currentSegment := null;
      currentSegmentMapKey := None;
    }

    /** Releases every segment held in `entries`, in whatever order the map yields them. */
    method ReleaseEntries(entries: map<string, Segment?>)
      requires forall k :: k in entries && entries[k] != null ==> entries[k].trace == trace
      modifies trace
      ensures |trace.calls| == |old(trace.calls)| + |NonNullKeys(entries)|
      ensures trace.calls[..|old(trace.calls)|] == old(trace.calls)
      ensures forall i :: |old(trace.calls)| <= i < |trace.calls| ==> trace.calls[i].PipelineReleased?
    {
      var remaining := entries.Keys;
      ghost var added: seq<Call> := [];
      while remaining != {}
        invariant remaining <= entries.Keys
        invariant trace.calls == old(trace.calls) + added
        invariant |added| == |NonNullKeys(entries) - remaining|
        invariant forall i :: 0 <= i < |added| ==> added[i].PipelineReleased?
        decreases remaining
      {
        var k :| k in remaining;
        var segment := entries[k];
        if segment != null {
          segment.Release();
          added := added + [PipelineReleased(segment.pipeline)];
        }
        NonNullKeysStep(entries, remaining, k);
        remaining := remaining - {k};
      }
      assert trace.calls[..|old(trace.calls)|] == old(trace.calls);
    }
  }
}
