/**
 * PXCUService: brings the depth-camera pipeline up with bounded retries,
 * owns the five raw frame maps, pumps one frame per tick, and keeps the
 * per-label geo-node tracking state and the gesture handler.
 */
module Pxcu {
  import opened Wrappers
  import opened Geometry
  import opened GeoNodes
  import opened Pipeline
  import opened Lifecycle
  import opened Tracking
  import opened Buffers

  /** The retry count `create` uses when the caller gives none. */
  const DefaultRetryCount := 2

  class PXCUService {
    const pipelineFlags: int
    const retryCount: int

    var setupSucceeded: bool
    var isInited: bool
    var waitForFrames: bool

    // The raw maps; null until their size query succeeds.
    var colorMap: array?<byte>
    var labelMap: array?<byte>
    var depthMap: array?<int16>
    var irMap: array?<int16>
    var uvMap: array?<real>

    var colorMapSize: MapSize
    var labelMapSize: MapSize
    var depthMapSize: MapSize
    var irMapSize: MapSize
    var uvMapSize: MapSize

    var gestureHandler: Option<Handler>
    var trackedGeoNodes: seq<Label>
    // A None value is the null GeoNodeStateRef that getGeoNode inserts.
    var geoNodeState: map<Label, Option<GeoNodeState>>

    /** Every pipeline call and handler call made so far, in order. */
    ghost var trace: seq<Event>

    function Color(): Buffer<byte>
      reads this`colorMap, this`colorMapSize
    {
      Buffer(colorMap, colorMapSize)
    }

    function Depth(): Buffer<int16>
      reads this`depthMap, this`depthMapSize
    {
      Buffer(depthMap, depthMapSize)
    }

    function IR(): Buffer<int16>
      reads this`irMap, this`irMapSize
    {
      Buffer(irMap, irMapSize)
    }

    function Labels(): Buffer<byte>
      reads this`labelMap, this`labelMapSize
    {
      Buffer(labelMap, labelMapSize)
    }

    function UV(): Buffer<real>
      reads this`uvMap, this`uvMapSize
    {
      Buffer(uvMap, uvMapSize)
    }

    /**
     * Four bytes per colour pixel, one int16 per depth or IR pixel, one byte
     * per label pixel, two reals per UV pixel.
     */
    ghost predicate BuffersSized()
      reads this`colorMap, this`labelMap, this`depthMap, this`irMap, this`uvMap
      reads this`colorMapSize, this`labelMapSize, this`depthMapSize, this`irMapSize, this`uvMapSize
    {
      AllSized(Maps())
    }

    /** The buffers the service owns are five different arrays. */
    ghost predicate Distinct()
      reads this`colorMap, this`labelMap, this`depthMap, this`irMap, this`uvMap
    {
      AllApart(colorMap, labelMap, depthMap, irMap, uvMap)
    }

    /** Every tracked label has a (non-null) state. */
    ghost predicate TrackedHaveState()
      reads this`trackedGeoNodes, this`geoNodeState
    {
      AllHaveState(trackedGeoNodes, geoNodeState)
    }

    /** The buffers are sized and distinct, and all five exist while the pipeline is inited. */
    ghost predicate BuffersValid()
      reads this`colorMap, this`labelMap, this`depthMap, this`irMap, this`uvMap
      reads this`colorMapSize, this`labelMapSize, this`depthMapSize, this`irMapSize, this`uvMapSize
      reads this`isInited
    {
      Wellformed(Maps(), isInited)
    }

    ghost predicate Valid()
      reads this`colorMap, this`labelMap, this`depthMap, this`irMap, this`uvMap
      reads this`colorMapSize, this`labelMapSize, this`depthMapSize, this`irMapSize, this`uvMapSize
      reads this`isInited, this`trackedGeoNodes, this`geoNodeState
    {
      BuffersValid() && TrackedHaveState()
    }

    /** The buffers the service currently owns. */
    ghost function Owned(): set<BufferKind>
      reads this`colorMap, this`labelMap, this`depthMap, this`irMap, this`uvMap
    {
      (if colorMap != null then {ColorBuffer} else {})
      + (if labelMap != null then {LabelBuffer} else {})
      + (if depthMap != null then {DepthBuffer} else {})
      + (if irMap != null then {IRBuffer} else {})
      + (if uvMap != null then {UVBuffer} else {})
    }

    /** The constructor together with init(): nothing owned, nothing started. */
    constructor (pipelineFlags: int, retryCount: int)
      ensures Valid()
      ensures this.pipelineFlags == pipelineFlags && this.retryCount == retryCount
      ensures !setupSucceeded && !isInited && !waitForFrames
      ensures colorMap == null && labelMap == null && depthMap == null && irMap == null && uvMap == null
      ensures colorMapSize == ZeroSize && labelMapSize == ZeroSize && depthMapSize == ZeroSize
      ensures irMapSize == ZeroSize && uvMapSize == ZeroSize
      ensures gestureHandler.None? && trackedGeoNodes == [] && geoNodeState == map[]
      ensures trace == []
    {
      this.pipelineFlags := pipelineFlags;
      this.retryCount := retryCount;
      setupSucceeded, isInited, waitForFrames := false, false, false;
      colorMap, labelMap, depthMap, irMap, uvMap := null, null, null, null, null;
      gestureHandler := None;
      colorMapSize, labelMapSize, depthMapSize, irMapSize, uvMapSize := ZeroSize, ZeroSize, ZeroSize, ZeroSize, ZeroSize;
      trackedGeoNodes := [];
      geoNodeState := map[];
      trace := [];
    }

    /** PXCUService::create: a new service, retrying twice unless told otherwise. */
    static method Create(pipelineFlags: int, retryCount: int := DefaultRetryCount) returns (service: PXCUService)
      ensures fresh(service) && service.Valid()
      ensures service.pipelineFlags == pipelineFlags && service.retryCount == retryCount
      ensures !service.IsRunning() && service.Owned() == {} && service.trace == []
      ensures !service.setupSucceeded && !service.isInited && !service.waitForFrames
      ensures service.colorMapSize == ZeroSize && service.labelMapSize == ZeroSize
      ensures service.depthMapSize == ZeroSize && service.irMapSize == ZeroSize && service.uvMapSize == ZeroSize
      ensures service.gestureHandler.None? && service.trackedGeoNodes == [] && service.geoNodeState == map[]
    {
      service := new PXCUService(pipelineFlags, retryCount);
    }

    /** Usable only once setup and every size query succeeded and until close. */
    predicate IsRunning()
      reads this
      requires Valid()
      ensures IsRunning() <==> setupSucceeded && isInited
      ensures IsRunning() ==> colorMap != null && labelMap != null && depthMap != null
                              && irMap != null && uvMap != null
    {
      setupSucceeded && isInited
    }

    function GetColorMapSize(): (size: MapSize)
      reads this
      requires Valid()
      ensures size == colorMapSize
      ensures colorMap != null ==> colorMap.Length == Pixels(size) * 4
    {
      colorMapSize
    }

    function GetLabelMapSize(): (size: MapSize)
      reads this
      requires Valid()
      ensures size == labelMapSize
      ensures labelMap != null ==> labelMap.Length == Pixels(size)
    {
      labelMapSize
    }

    function GetDepthMapSize(): (size: MapSize)
      reads this
      requires Valid()
      ensures size == depthMapSize
      ensures depthMap != null ==> depthMap.Length == Pixels(size)
    {
      depthMapSize
    }

    function GetIRMapSize(): (size: MapSize)
      reads this
      requires Valid()
      ensures size == irMapSize
      ensures irMap != null ==> irMap.Length == Pixels(size)
    {
      irMapSize
    }

    /** As in the source, the UV accessor reports the DEPTH map's size. */
    function GetUVMapSize(): (size: MapSize)
      reads this
      requires Valid()
      ensures size == depthMapSize
      ensures depthMap != null ==> depthMap.Length == Pixels(size)
    {
      depthMapSize
    }

    /** The tracking state; every tracked label has a (non-null) entry. */
    function GetGeoNodes(): (states: map<Label, Option<GeoNodeState>>)
      reads this
      requires Valid()
      ensures states == geoNodeState
      ensures forall l :: l in trackedGeoNodes ==> l in states && states[l].Some?
    {
      geoNodeState
    }

    /** The list last given to setTrackedGeoNodes (empty before). */
    function GetTrackedGeoNodes(): (labels: seq<Label>)
      reads this
      ensures labels == trackedGeoNodes
    {
      trackedGeoNodes
    }

    /** The five buffers with their recorded sizes, as they are now. */
    function Maps(): MapsSnapshot
      reads this`colorMap, this`labelMap, this`depthMap, this`irMap, this`uvMap
      reads this`colorMapSize, this`labelMapSize, this`depthMapSize, this`irMapSize, this`uvMapSize
    {
      MapsSnapshot(Color(), Depth(), IR(), Labels(), UV())
    }

    /**
     * What start leaves in the buffers, by how far it got: each buffer whose
     * size query succeeded is allocated at exactly its reported size (four
     * bytes per colour pixel, two reals per UV pixel) with that size
     * recorded; every other buffer and size is as it was `before`.
     */
    predicate MapsAllocated(replies: StartReplies, before: MapsSnapshot)
      reads this`colorMap, this`labelMap, this`depthMap, this`irMap, this`uvMap
      reads this`colorMapSize, this`labelMapSize, this`depthMapSize, this`irMapSize, this`uvMapSize
      requires Scripted(replies, retryCount)
    {
      AllocatedSince(Maps(), before, replies, StartStage(replies, retryCount))
    }

    /** The buffers of the single-shot size queries after the first `passed` of them succeeded. */
    predicate SizesAllocated(replies: StartReplies, passed: int, before: MapsSnapshot)
      reads this`colorMap, this`labelMap, this`depthMap, this`irMap, this`uvMap
      reads this`colorMapSize, this`labelMapSize, this`depthMapSize, this`irMapSize, this`uvMapSize
    {
      SizesAllocatedSince(Maps(), before, replies, passed)
    }

    /**
     * Bring-up. Tries PXCUPipeline_Init up to retryCount times, then the
     * colour size query up to retryCount times, then each of the depth, IR,
     * label and UV size queries once, allocating each buffer at its exact
     * size as its query succeeds; any failure returns false at once and
     * keeps the buffers allocated so far.
     */
    method Start(replies: StartReplies) returns (ok: bool)
      requires Valid()
      requires Scripted(replies, retryCount)
      modifies this`setupSucceeded, this`isInited, this`trace
      modifies this`colorMap, this`labelMap, this`depthMap, this`irMap, this`uvMap
      modifies this`colorMapSize, this`labelMapSize, this`depthMapSize, this`irMapSize, this`uvMapSize
      ensures Valid()
      ensures ok <==> StartStage(replies, retryCount) == 6
      ensures ok ==> IsRunning()
      ensures trace == old(trace) + StartEvents(replies, retryCount, pipelineFlags)
      ensures setupSucceeded == if retryCount > 0 then StartStage(replies, retryCount) >= 1 else old(setupSucceeded)
      ensures isInited == (ok || old(isInited))
      ensures MapsAllocated(replies, old(Maps()))
      ensures Renewed(old(Maps()), Maps())
    {
      ghost var before := Maps();
      InitPipeline(replies);
      ok := CompleteStart(replies);
      StartEventsSplit(replies, retryCount, pipelineFlags);
    }

    /**
     * Everything start does after the init loop: give up if init failed,
     * else the colour size loop, the four single-shot size queries and, when
     * all succeeded, marking the service set up and inited.
     */
    method CompleteStart(replies: StartReplies) returns (ok: bool)
      requires BuffersValid()
      requires Scripted(replies, retryCount)
      requires setupSucceeded && retryCount > 0 ==> Succeeds(replies.init, retryCount)
      requires !setupSucceeded ==> !Succeeds(replies.init, retryCount)
      modifies this`setupSucceeded, this`isInited, this`trace
      modifies this`colorMap, this`labelMap, this`depthMap, this`irMap, this`uvMap
      modifies this`colorMapSize, this`labelMapSize, this`depthMapSize, this`irMapSize, this`uvMapSize
      ensures BuffersValid()
      ensures ok <==> StartStage(replies, retryCount) == 6
      ensures trace == old(trace) + AfterInitEvents(replies, retryCount)
      ensures setupSucceeded == (old(setupSucceeded) || ok)
      ensures isInited == (ok || old(isInited))
      ensures MapsAllocated(replies, old(Maps()))
      ensures Renewed(old(Maps()), Maps())
    {
      if !setupSucceeded {
        return false;
      }
      ghost var before := Maps();
      ok := AllocateMaps(replies);
      AllocationKeepsWellformed(Maps(), before, replies, StartStage(replies, retryCount), isInited);
      if ok {
        setupSucceeded := true;
        isInited := true;
      }
    }

    /** The colour size loop, then the four single-shot size queries. */
    method AllocateMaps(replies: StartReplies) returns (ok: bool)
      requires BuffersSized() && Distinct()
      requires Scripted(replies, retryCount)
      requires retryCount > 0 ==> Succeeds(replies.init, retryCount)
      modifies this`colorMap, this`labelMap, this`depthMap, this`irMap, this`uvMap
      modifies this`colorMapSize, this`labelMapSize, this`depthMapSize, this`irMapSize, this`uvMapSize, this`trace
      ensures BuffersSized() && Distinct()
      ensures ok <==> StartStage(replies, retryCount) == 6
      ensures ok ==> colorMap != null && labelMap != null && depthMap != null && irMap != null && uvMap != null
      ensures trace == old(trace) + AfterInitEvents(replies, retryCount)
      ensures AllocatedFresh(Maps(), StartStage(replies, retryCount))
      ensures MapsAllocated(replies, old(Maps()))
      ensures Renewed(old(Maps()), Maps())
    {
      ghost var before := Maps();
      var success := NegotiateColorSize(replies);
      if !success {
        return false;
      }
      ghost var colored := Maps();
      assert StartStage(replies, retryCount) == 2 + SizeStage(replies);
      ok := QueryMapSizes(replies);
      assert SizesAllocated(replies, SizeStage(replies), colored);
    }

    /** The init retry loop: PXCUPipeline_Init until it succeeds, at most retryCount times. */
    method InitPipeline(replies: StartReplies)
      requires Scripted(replies, retryCount)
      modifies this`setupSucceeded, this`trace
      ensures setupSucceeded == if retryCount > 0 then Succeeds(replies.init, retryCount) else old(setupSucceeded)
      ensures setupSucceeded && retryCount > 0 ==> Succeeds(replies.init, retryCount)
      ensures !setupSucceeded ==> !Succeeds(replies.init, retryCount)
      ensures trace == old(trace) + Repeat(Init(pipelineFlags), Attempts(replies.init, retryCount))
    {
      var attempt := 0;
      while attempt < retryCount
        invariant 0 <= attempt <= if retryCount < 0 then 0 else retryCount
        invariant forall j :: 0 <= j < attempt ==> !replies.init[j]
        invariant setupSucceeded == if attempt == 0 then old(setupSucceeded) else false
        invariant trace == old(trace) + Repeat(Init(pipelineFlags), attempt)
      {
        setupSucceeded := replies.init[attempt];
        trace := trace + [Init(pipelineFlags)];
        if !setupSucceeded {
          attempt := attempt + 1;
        } else {
          break;
        }
      }
      RetryExit(replies.init, retryCount, attempt);
    }

    /**
     * The colour size loop: PXCUPipeline_QueryRGBSize until it succeeds, at
     * most retryCount times; on success the colour buffer is allocated at
     * four bytes per pixel.
     */
    method NegotiateColorSize(replies: StartReplies) returns (success: bool)
      requires Scripted(replies, retryCount)
      modifies this`colorMap, this`colorMapSize, this`trace
      ensures success == Succeeds(replies.rgb, retryCount)
      ensures trace == old(trace) + Repeat(QueryRGBSize, Attempts(replies.rgb, retryCount))
      ensures Outcome(Color(), old(Color()), success, replies.rgbSize, 4)
      ensures success ==> fresh(colorMap)
      ensures old(Distinct()) ==> Distinct()
    {
      success := false;
      var attempt := 0;
      while attempt < retryCount
        invariant 0 <= attempt <= if retryCount < 0 then 0 else retryCount
        invariant !success
        invariant forall j :: 0 <= j < attempt ==> !replies.rgb[j]
        invariant trace == old(trace) + Repeat(QueryRGBSize, attempt)
        invariant colorMap == old(colorMap) && colorMapSize == old(colorMapSize)
      {
        success := replies.rgb[attempt];
        trace := trace + [QueryRGBSize];
        if success {
          colorMapSize := replies.rgbSize;
          colorMap := new byte[Pixels(replies.rgbSize) * 4];
          break;
        }
        attempt := attempt + 1;
      }
      RetryExit(replies.rgb, retryCount, attempt);
    }

    /**
     * The four single-shot size queries (depth, IR, label, UV), each
     * allocating its buffer at its exact size; the first failure stops.
     */
    method QueryMapSizes(replies: StartReplies) returns (ok: bool)
      modifies this`labelMap, this`depthMap, this`irMap, this`uvMap
      modifies this`labelMapSize, this`depthMapSize, this`irMapSize, this`uvMapSize, this`trace
      ensures ok <==> SizeStage(replies) == 4
      ensures trace == old(trace) + SizeQueryEvents(replies)
      ensures SizesAllocated(replies, SizeStage(replies), old(Maps()))
      ensures SizesAllocatedFresh(Maps(), SizeStage(replies))
      ensures old(Distinct()) ==> Distinct()
      ensures Renewed(old(Maps()), Maps())
    {
      ok := QueryDepthMapSize(replies.depthSize);
      if !ok {
        assert SizeQueryEvents(replies) == SizeQueries[..1];
        return;
      }
      ok := QueryIRMapSize(replies.irSize);
      if !ok {
        assert SizeQueryEvents(replies) == SizeQueries[..2];
        return;
      }
      ok := QueryLabelMapSize(replies.labelSize);
      if !ok {
        assert SizeQueryEvents(replies) == SizeQueries[..3];
        return;
      }
      ok := QueryUVMapSize(replies.uvSize);
      assert SizeQueryEvents(replies) == SizeQueries[..4];
    }

    /** PXCUPipeline_QueryDepthMapSize; on success one int16 per depth pixel. */
    method QueryDepthMapSize(reply: Option<MapSize>) returns (ok: bool)
      modifies this`depthMap, this`depthMapSize, this`trace
      ensures ok == reply.Some?
      ensures trace == old(trace) + [Event.QueryDepthMapSize]
      ensures Outcome(Depth(), old(Depth()), ok, Reported(reply), 1)
      ensures ok ==> fresh(depthMap)
      ensures old(Distinct()) ==> Distinct()
    {
      trace := trace + [Event.QueryDepthMapSize];
      ok := reply.Some?;
      if ok {
        depthMapSize := reply.value;
        depthMap := new int16[Pixels(depthMapSize)];
      }
    }

    /** PXCUPipeline_QueryIRMapSize; on success one int16 per IR pixel. */
    method QueryIRMapSize(reply: Option<MapSize>) returns (ok: bool)
      modifies this`irMap, this`irMapSize, this`trace
      ensures ok == reply.Some?
      ensures trace == old(trace) + [Event.QueryIRMapSize]
      ensures Outcome(IR(), old(IR()), ok, Reported(reply), 1)
      ensures ok ==> fresh(irMap)
      ensures old(Distinct()) ==> Distinct()
    {
      trace := trace + [Event.QueryIRMapSize];
      ok := reply.Some?;
      if ok {
        irMapSize := reply.value;
        irMap := new int16[Pixels(irMapSize)];
      }
    }

    /** PXCUPipeline_QueryLabelMapSize; on success one byte per label pixel. */
    method QueryLabelMapSize(reply: Option<MapSize>) returns (ok: bool)
      modifies this`labelMap, this`labelMapSize, this`trace
      ensures ok == reply.Some?
      ensures trace == old(trace) + [Event.QueryLabelMapSize]
      ensures Outcome(Labels(), old(Labels()), ok, Reported(reply), 1)
      ensures ok ==> fresh(labelMap)
      ensures old(Distinct()) ==> Distinct()
    {
      trace := trace + [Event.QueryLabelMapSize];
      ok := reply.Some?;
      if ok {
        labelMapSize := reply.value;
        labelMap := new byte[Pixels(labelMapSize)];
      }
    }

    /** PXCUPipeline_QueryUVMapSize; on success two reals (u, v) per UV pixel. */
    method QueryUVMapSize(reply: Option<MapSize>) returns (ok: bool)
      modifies this`uvMap, this`uvMapSize, this`trace
      ensures ok == reply.Some?
      ensures trace == old(trace) + [Event.QueryUVMapSize]
      ensures Outcome(UV(), old(UV()), ok, Reported(reply), 2)
      ensures ok ==> fresh(uvMap)
      ensures old(Distinct()) ==> Distinct()
    {
      trace := trace + [Event.QueryUVMapSize];
      ok := reply.Some?;
      if ok {
        uvMapSize := reply.value;
        uvMap := new real[Pixels(uvMapSize) * 2];
      }
    }

    // ---------------------------------------------------------------- mapXY

    /** What mapXY reads, as a value. */
    function Lookup(): UVLookup
      reads this`depthMap, this`uvMap, this`depthMapSize, this`uvMapSize, uvMap
    {
      UVLookup(depthMapSize.width, if depthMap == null || uvMap == null then None else Some(uvMap[..]), uvMapSize)
    }

    /** mapXY reads the UV pair of the depth pixel under `position` only when both maps exist. */
    predicate CanMap(position: Vec2f)
      reads this`depthMap, this`uvMap, this`depthMapSize
    {
      depthMap == null || uvMap == null
      || (0 <= PixelIndex(position, depthMapSize.width)
          && 2 * PixelIndex(position, depthMapSize.width) + 1 < uvMap.Length)
    }

    /**
     * mapXY: from depth-image coordinates to colour-image coordinates. The
     * depth pixel under `position` (coordinates truncated toward zero, rows
     * depthMapSize.width long) holds a (u, v) pair in the UV map, which is
     * scaled by the UV map's size. Without a depth or UV map the position is
     * returned as it is.
     */
    function MapXY(position: Vec2f): (screen: Vec2f)
      reads this`depthMap, this`uvMap, this`depthMapSize, this`uvMapSize, uvMap
      requires CanMap(position)
      ensures depthMap == null || uvMap == null ==> screen == position
      ensures Mappable(Lookup(), position) && screen == MapThrough(Lookup(), position)
    {
      if depthMap == null || uvMap == null then position
      else
        var index := PixelIndex(position, depthMapSize.width);
        Vec2f(uvMap[index * 2] * uvMapSize.width as real, uvMap[index * 2 + 1] * uvMapSize.height as real)
    }

    /**
     * Every point inside the depth image can be mapped once the UV map has at
     * least as many pixels as the depth map, and it is mapped to the UV pair
     * stored for exactly that pixel: column trunc(x), row trunc(y).
     */
    lemma MapXYInsideDepthImage(position: Vec2f)
      requires Valid()
      requires depthMap != null && uvMap != null
      requires Pixels(depthMapSize) <= Pixels(uvMapSize)
      requires 0.0 <= position.x < depthMapSize.width as real
      requires 0.0 <= position.y < depthMapSize.height as real
      ensures CanMap(position)
      ensures var index := PixelIndex(position, depthMapSize.width);
              && index / depthMapSize.width == Trunc(position.y)
              && index % depthMapSize.width == Trunc(position.x)
              && MapXY(position) == Vec2f(uvMap[2 * index] * uvMapSize.width as real,
                                          uvMap[2 * index + 1] * uvMapSize.height as real)
    {
      PixelIndexInBounds(position, depthMapSize);
      PixelIndexRoundTrip(position, depthMapSize.width);
    }

    // ------------------------------------------------------ processGestures

    /** The nodes a frame reports for tracked labels can all be mapped. */
    predicate TrackedNodesMappable(nodes: map<Label, GeoNode>)
      reads this`trackedGeoNodes, this`depthMap, this`uvMap, this`depthMapSize
    {
      forall l :: l in trackedGeoNodes && l in nodes ==> CanMap(nodes[l].positionImage)
    }

    /**
     * processGestures: one "any gesture" query, then for each tracked label
     * (in list order) a node query whose answer refreshes that label's state,
     * then the handler, if the gesture query found one and a handler is set.
     * A label's node query reports `nodes[l]`, or nothing when l is not a key.
     */
    method ProcessGestures(gesture: Option<Gesture>, nodes: map<Label, GeoNode>, ghost m: UVLookup)
      requires TrackedHaveState()
      requires TrackedNodesMappable(nodes)
      requires m == Lookup()
      modifies this`geoNodeState, this`trace
      ensures TrackedHaveState()
      ensures geoNodeState == RefreshedStates(old(geoNodeState), nodes, trackedGeoNodes, m)
      ensures trace == old(trace) + TrackingEvents(trackedGeoNodes, gesture, gestureHandler)
    {
      trace := trace + [QueryGesture];
      RefreshTracked(nodes, m);
      if gesture.Some? && gestureHandler.Some? {
        trace := trace + [Notify(gestureHandler.value, gesture.value)];
      }
    }

    /** The loop over the tracked labels: one node query and one state refresh per label. */
    method RefreshTracked(nodes: map<Label, GeoNode>, ghost m: UVLookup)
      requires TrackedHaveState()
      requires TrackedNodesMappable(nodes)
      requires m == Lookup()
      modifies this`geoNodeState, this`trace
      ensures TrackedHaveState()
      ensures geoNodeState == RefreshedStates(old(geoNodeState), nodes, trackedGeoNodes, m)
      ensures trace == old(trace) + GeoNodeQueries(trackedGeoNodes)
    {
      var i := 0;
      while i < |trackedGeoNodes|
        invariant 0 <= i <= |trackedGeoNodes|
        invariant TrackedHaveState()
        invariant geoNodeState == RefreshedStates(old(geoNodeState), nodes, trackedGeoNodes[..i], m)
        invariant trace == old(trace) + GeoNodeQueries(trackedGeoNodes[..i])
        invariant Lookup() == m
      {
        var l := trackedGeoNodes[i];
        assert trackedGeoNodes[..i + 1] == trackedGeoNodes[..i] + [l];
        RefreshedStatesStep(old(geoNodeState), nodes, trackedGeoNodes[..i], l, m);
        GeoNodeQueriesStep(trackedGeoNodes[..i], l);
        RefreshLabel(l, nodes, m);
        trace := trace + [QueryGeoNode(l)];
        i := i + 1;
      }
      assert trackedGeoNodes[..i] == trackedGeoNodes;
    }

    /**
     * One iteration's state update: a reported label becomes active with
     * the node and its mapped position, an unreported one inactive at the
     * sentinel.
     */
    method RefreshLabel(l: Label, nodes: map<Label, GeoNode>, ghost m: UVLookup)
      requires l in geoNodeState && geoNodeState[l].Some?
      requires l in nodes ==> CanMap(nodes[l].positionImage)
      requires m == Lookup()
      modifies this`geoNodeState
      ensures l in nodes ==> Mappable(m, nodes[l].positionImage)
      ensures geoNodeState == RefreshOne(old(geoNodeState), nodes, l, m)
    {
      var state := geoNodeState[l].value;
      if l in nodes {
        state := state.(active := true, node := Some(nodes[l]), screen := MapXY(nodes[l].positionImage));
      } else {
        state := state.(active := false, screen := Sentinel);
      }
      geoNodeState := geoNodeState[l := Some(state)];
    }

    // --------------------------------------------------------------- update

    /** The fill calls of one pump: each buffer the service owns, in source order. */
    ghost function FillEvents(): seq<Event>
      reads this`colorMap, this`labelMap, this`depthMap, this`irMap, this`uvMap
    {
      LeadingFills() + TrailingFills()
    }

    /** The colour, depth and label fills of a pump. */
    ghost function LeadingFills(): seq<Event>
      reads this`colorMap, this`labelMap, this`depthMap
    {
      (if colorMap != null then [QueryRGB] else [])
      + (if depthMap != null then [QueryDepthMap] else [])
      + (if labelMap != null then [QueryLabelMap] else [])
    }

    /** The IR and UV fills of a pump. */
    ghost function TrailingFills(): seq<Event>
      reads this`irMap, this`uvMap
    {
      (if irMap != null then [QueryIRMap] else [])
      + (if uvMap != null then [QueryUVMap] else [])
    }

    /**
     * A frame the adapter can deliver: every map at its buffer's size, and
     * every node it reports for a tracked label inside the UV map.
     */
    predicate FrameFits(frame: Frame)
      reads this`colorMap, this`labelMap, this`depthMap, this`irMap, this`uvMap, this`trackedGeoNodes
      reads this`depthMapSize
    {
      BuffersFit(frame) && TrackedNodesMappable(frame.nodes)
    }

    /** Every map of the frame has its buffer's size. */
    predicate BuffersFit(frame: Frame)
      reads this`colorMap, this`labelMap, this`depthMap, this`irMap, this`uvMap
    {
      && Fits(colorMap, frame.color) && Fits(depthMap, frame.depth) && Fits(labelMap, frame.labels)
      && Fits(irMap, frame.ir) && Fits(uvMap, frame.uv)
    }

    /** The buffers the service owns, as objects. */
    ghost function Arrays(): set<object>
      reads this`colorMap, this`labelMap, this`depthMap, this`irMap, this`uvMap
    {
      (if colorMap != null then {colorMap as object} else {})
      + (if labelMap != null then {labelMap as object} else {})
      + (if depthMap != null then {depthMap as object} else {})
      + (if irMap != null then {irMap as object} else {})
      + (if uvMap != null then {uvMap as object} else {})
    }

    /** Every owned buffer holds the frame's map of its kind. */
    ghost predicate Holds(frame: Frame)
      reads this`colorMap, this`labelMap, this`depthMap, this`irMap, this`uvMap
      reads colorMap, labelMap, depthMap, irMap, uvMap
    {
      HoldsLeading(frame) && HoldsTrailing(frame)
    }

    /** The colour, depth and label buffers, when owned, hold the frame's maps. */
    ghost predicate HoldsLeading(frame: Frame)
      reads this`colorMap, this`labelMap, this`depthMap, colorMap, labelMap, depthMap
    {
      Filled(colorMap, frame.color) && Filled(depthMap, frame.depth) && Filled(labelMap, frame.labels)
    }

    /** The IR and UV buffers, when owned, hold the frame's maps. */
    ghost predicate HoldsTrailing(frame: Frame)
      reads this`irMap, this`uvMap, irMap, uvMap
    {
      Filled(irMap, frame.ir) && Filled(uvMap, frame.uv)
    }

    /** What mapXY reads once the frame's UV map has been copied into the UV buffer. */
    function FrameLookup(frame: Frame): UVLookup
      reads this`depthMap, this`uvMap, this`depthMapSize, this`uvMapSize
    {
      UVLookup(depthMapSize.width, if depthMap == null || uvMap == null then None else Some(frame.uv), uvMapSize)
    }

    /**
     * update: one non-blocking acquire. Without a frame nothing changes.
     * With one, every owned buffer is refilled, tracking runs on the new
     * maps, the frame is released and waitForFrames latches.
     */
    method Update(frame: Frame) returns (ok: bool)
      requires Valid()
      requires frame.acquired ==> FrameFits(frame)
      modifies this`waitForFrames, this`geoNodeState, this`trace
      modifies colorMap, labelMap, depthMap, irMap, uvMap
      ensures Valid()
      ensures ok == frame.acquired
      ensures !ok ==> && waitForFrames == old(waitForFrames)
                      && geoNodeState == old(geoNodeState)
                      && trace == old(trace) + [AcquireFrame(false)]
                      && unchanged(Arrays())
      ensures ok ==> && Holds(frame)
                     && waitForFrames
                     && geoNodeState == RefreshedStates(old(geoNodeState), frame.nodes, trackedGeoNodes,
                                                        FrameLookup(frame))
                     && trace == old(trace) + PumpEvents(FillEvents(),
                                   TrackingEvents(trackedGeoNodes, frame.gesture, gestureHandler))
    {
      trace := trace + [AcquireFrame(false)];
      if !frame.acquired {
        return false;
      }
      Pump(frame);
      PumpEventsSplit(old(trace), FillEvents(), TrackingEvents(trackedGeoNodes, frame.gesture, gestureHandler));
      return true;
    }

    /** What update does with an acquired frame: the fills, tracking, the release, the latch. */
    method Pump(frame: Frame)
      requires Valid()
      requires FrameFits(frame)
      modifies this`waitForFrames, this`geoNodeState, this`trace
      modifies colorMap, labelMap, depthMap, irMap, uvMap
      ensures Valid()
      ensures Holds(frame) && waitForFrames
      ensures geoNodeState == RefreshedStates(old(geoNodeState), frame.nodes, trackedGeoNodes,
                                                 FrameLookup(frame))
      ensures trace == old(trace) + FillEvents()
                       + TrackingEvents(trackedGeoNodes, frame.gesture, gestureHandler) + [ReleaseFrame]
    {
      ghost var m := FrameLookup(frame);
      ghost var maps := Maps();
      FillBuffers(frame);
      assert Lookup() == m;
      Track(frame, m);
      assert Maps() == maps;
    }

    /** The rest of a pump once the maps are filled: tracking on them, the release, the latch. */
    method Track(frame: Frame, ghost m: UVLookup)
      requires TrackedHaveState()
      requires TrackedNodesMappable(frame.nodes)
      requires m == Lookup()
      modifies this`waitForFrames, this`geoNodeState, this`trace
      ensures TrackedHaveState() && waitForFrames
      ensures geoNodeState == RefreshedStates(old(geoNodeState), frame.nodes, trackedGeoNodes, m)
      ensures trace == old(trace) + TrackingEvents(trackedGeoNodes, frame.gesture, gestureHandler) + [ReleaseFrame]
    {
      ProcessGestures(frame.gesture, frame.nodes, m);
      trace := trace + [ReleaseFrame];
      waitForFrames := true;
    }

    /** The pump's fills, in source order: colour, depth, label, IR, UV, each into its buffer if owned. */
    method FillBuffers(frame: Frame)
      requires Distinct()
      requires BuffersFit(frame)
      modifies colorMap, labelMap, depthMap, irMap, uvMap, this`trace
      ensures Holds(frame)
      ensures trace == old(trace) + FillEvents()
    {
      FillLeading(frame);
      FillTrailing(frame);
    }

    /** The colour, depth and label fills. */
    method FillLeading(frame: Frame)
      requires Distinct()
      requires BuffersFit(frame)
      modifies colorMap, depthMap, labelMap, this`trace
      ensures HoldsLeading(frame)
      ensures trace == old(trace) + LeadingFills()
    {
      if colorMap != null {
        Fill(colorMap, frame.color);
        trace := trace + [QueryRGB];
      }
      if depthMap != null {
        Fill(depthMap, frame.depth);
        trace := trace + [QueryDepthMap];
      }
      if labelMap != null {
        Fill(labelMap, frame.labels);
        trace := trace + [QueryLabelMap];
      }
    }

    /** The IR and UV fills. */
    method FillTrailing(frame: Frame)
      requires BuffersFit(frame)
      modifies irMap, uvMap, this`trace
      ensures HoldsTrailing(frame)
      ensures trace == old(trace) + TrailingFills()
    {
      if irMap != null {
        Fill(irMap, frame.ir);
        trace := trace + [QueryIRMap];
      }
      if uvMap != null {
        Fill(uvMap, frame.uv);
        trace := trace + [QueryUVMap];
      }
    }

    // ------------------------------------------------------------- tracking

    /**
     * setTrackedGeoNodes: the tracked list becomes `nodes` and the state map
     * is rebuilt with one fresh default state per distinct label.
     */
    method SetTrackedGeoNodes(nodes: seq<Label>)
      requires Valid()
      modifies this`trackedGeoNodes, this`geoNodeState
      ensures Valid()
      ensures trackedGeoNodes == nodes
      ensures geoNodeState.Keys == set l | l in nodes
      ensures forall l :: l in geoNodeState ==> geoNodeState[l] == Some(NewGeoNodeState())
    {
      trackedGeoNodes := nodes;
      geoNodeState := map[];
      var i := 0;
      while i < |nodes|
        invariant 0 <= i <= |nodes|
        invariant trackedGeoNodes == nodes
        invariant geoNodeState.Keys == set l | l in nodes[..i]
        invariant forall l :: l in geoNodeState ==> geoNodeState[l] == Some(NewGeoNodeState())
      {
        geoNodeState := geoNodeState[nodes[i] := Some(NewGeoNodeState())];
        assert nodes[..i + 1] == nodes[..i] + [nodes[i]];
        i := i + 1;
      }
      assert nodes[..i] == nodes;
    }

    /**
     * getGeoNode: the state of `l`; for a label without an entry, the map's
     * operator[] inserts a null reference under that label and returns it.
     */
    method GetGeoNode(l: Label) returns (state: Option<GeoNodeState>)
      requires Valid()
      modifies this`geoNodeState
      ensures Valid()
      ensures l in old(geoNodeState) ==> state == old(geoNodeState)[l] && geoNodeState == old(geoNodeState)
      ensures l !in old(geoNodeState) ==> state == None && geoNodeState == old(geoNodeState)[l := None]
    {
      if l !in geoNodeState {
        geoNodeState := geoNodeState[l := None];
      }
      state := geoNodeState[l];
    }

    /** setGestureHandler: the single handler slot now holds `handler`. */
    method SetGestureHandler(handler: Handler)
      modifies this`gestureHandler
      ensures gestureHandler == Some(handler)
    {
      gestureHandler := Some(handler);
    }

    /** removeGestureHandler: the handler slot is emptied. */
    method RemoveGestureHandler()
      modifies this`gestureHandler
      ensures gestureHandler.None?
    {
      gestureHandler := None;
    }

    // ----------------------------------------------------------- checkImage

    /**
     * checkImage: whether the first channel of some of the first w*h
     * four-byte pixels is below `value`.
     */
    static method CheckImage(image: array<byte>, w: int, h: int, value: byte) returns (found: bool)
      requires w * h <= 0 || 4 * (w * h) <= image.Length
      ensures found <==> exists i :: 0 <= i < w * h && Below(image[..], i, value)
    {
      var dim := w * h;
      var pixel := 0;
      var i := 0;
      while i < dim
        invariant 0 <= i <= if dim < 0 then 0 else dim
        invariant pixel == 4 * i
        invariant forall k :: 0 <= k < i ==> !Below(image[..], k, value)
      {
        if image[pixel] < value {
          assert Below(image[..], i, value);
          return true;
        }
        pixel := pixel + 4;
        i := i + 1;
      }
      return false;
    }

    // ------------------------------------------------------ close, teardown

    /** close: closes the pipeline only while inited, so a second close does nothing. */
    method Close()
      requires Valid()
      modifies this`isInited, this`trace
      ensures Valid()
      ensures !isInited && !IsRunning()
      ensures trace == old(trace) + (if old(isInited) then [PipelineClose] else [])
    {
      if isInited {
        trace := trace + [PipelineClose];
        isInited := false;
      }
    }

    /**
     * The destructor: a blocking acquire if a frame was ever pumped, then
     * close, then delete[] of every owned buffer, each pointer nulled.
     */
    method Destroy()
      requires Valid()
      modifies this`isInited, this`trace, this`colorMap, this`labelMap, this`depthMap, this`irMap, this`uvMap
      ensures Valid()
      ensures !isInited && Owned() == {}
      ensures trace == old(trace)
                       + (if old(waitForFrames) then [AcquireFrame(true)] else [])
                       + (if old(isInited) then [PipelineClose] else [])
                       + FreeEvents(DestructorOrder, old(Owned()))
    {
      ghost var owned := Owned();
      if waitForFrames {
        trace := trace + [AcquireFrame(true)];
      }
      Close();
      FreeBuffers(owned);
    }

    /** The destructor's five guarded delete[]s, in declaration order, each pointer nulled. */
    method FreeBuffers(ghost owned: set<BufferKind>)
      requires owned == Owned()
      modifies this`trace, this`colorMap, this`labelMap, this`depthMap, this`irMap, this`uvMap
      ensures colorMap == null && labelMap == null && depthMap == null && irMap == null && uvMap == null
      ensures trace == old(trace) + FreeEvents(DestructorOrder, owned)
    {
      DestructorFreeEvents(trace, owned);
      DeleteColorMap(owned);
      DeleteLabelMap(owned);
      DeleteDepthMap(owned);
      DeleteIRMap(owned);
      DeleteUVMap(owned);
    }

    method DeleteColorMap(ghost owned: set<BufferKind>)
      requires ColorBuffer in owned <==> colorMap != null
      modifies this`trace, this`colorMap
      ensures colorMap == null
      ensures trace == old(trace) + Freed(owned, ColorBuffer)
    {
      if colorMap != null {
        trace := trace + [Free(ColorBuffer)];
      }
      colorMap := null;
    }

    method DeleteLabelMap(ghost owned: set<BufferKind>)
      requires LabelBuffer in owned <==> labelMap != null
      modifies this`trace, this`labelMap
      ensures labelMap == null
      ensures trace == old(trace) + Freed(owned, LabelBuffer)
    {
      if labelMap != null {
        trace := trace + [Free(LabelBuffer)];
      }
      labelMap := null;
    }

    method DeleteDepthMap(ghost owned: set<BufferKind>)
      requires DepthBuffer in owned <==> depthMap != null
      modifies this`trace, this`depthMap
      ensures depthMap == null
      ensures trace == old(trace) + Freed(owned, DepthBuffer)
    {
      if depthMap != null {
        trace := trace + [Free(DepthBuffer)];
      }
      depthMap := null;
    }

    method DeleteIRMap(ghost owned: set<BufferKind>)
      requires IRBuffer in owned <==> irMap != null
      modifies this`trace, this`irMap
      ensures irMap == null
      ensures trace == old(trace) + Freed(owned, IRBuffer)
    {
      if irMap != null {
        trace := trace + [Free(IRBuffer)];
      }
      irMap := null;
    }

    method DeleteUVMap(ghost owned: set<BufferKind>)
      requires UVBuffer in owned <==> uvMap != null
      modifies this`trace, this`uvMap
      ensures uvMap == null
      ensures trace == old(trace) + Freed(owned, UVBuffer)
    {
      if uvMap != null {
        trace := trace + [Free(UVBuffer)];
      }
      uvMap := null;
    }
  }

  /** The first channel of pixel i of a four-channel image is below `value`. */
  predicate Below(image: seq<byte>, i: int, value: byte)
  {
    0 <= i && 4 * i < |image| && image[4 * i] < value
  }

  /** The destructor's deletes, one guarded delete per buffer in declaration order. */
  lemma DestructorFreeEvents(before: seq<Event>, owned: set<BufferKind>)
    ensures before + FreeEvents(DestructorOrder, owned)
         == before + Freed(owned, ColorBuffer) + Freed(owned, LabelBuffer) + Freed(owned, DepthBuffer)
          + Freed(owned, IRBuffer) + Freed(owned, UVBuffer)
  {
    var s1 := [ColorBuffer];
    var s2 := s1 + [LabelBuffer];
    var s3 := s2 + [DepthBuffer];
    var s4 := s3 + [IRBuffer];
    var s5 := s4 + [UVBuffer];
    assert s1[..0] == [] && s2[..1] == s1 && s3[..2] == s2 && s4[..3] == s3 && s5[..4] == s4;
    assert FreeEvents(s1, owned) == Freed(owned, ColorBuffer);
    assert FreeEvents(s2, owned) == FreeEvents(s1, owned) + Freed(owned, LabelBuffer);
    assert FreeEvents(s3, owned) == FreeEvents(s2, owned) + Freed(owned, DepthBuffer);
    assert FreeEvents(s4, owned) == FreeEvents(s3, owned) + Freed(owned, IRBuffer);
    assert FreeEvents(s5, owned) == FreeEvents(s4, owned) + Freed(owned, UVBuffer);
    assert s5 == DestructorOrder;
  }

  /** The destructor deletes each buffer the service owns exactly once, and no other. */
  lemma DestructorFreesOnce(owned: set<BufferKind>, k: BufferKind)
    ensures Frees(FreeEvents(DestructorOrder, owned), k) == if k in owned then 1 else 0
  {
    FreeEventsOnce(DestructorOrder, owned, k);
  }

  /** Closing twice closes the pipeline at most once, and only if it was inited. */
  method CloseTwice(service: PXCUService)
    requires service.Valid()
    modifies service`isInited, service`trace
    ensures service.Valid() && !service.IsRunning()
    ensures service.trace == old(service.trace) + (if old(service.isInited) then [PipelineClose] else [])
  {
    service.Close();
    service.Close();
  }

  /**
   * checkImage on a 2x1 four-channel image whose pixels start with 10 and
   * 200: below a threshold of 50, not below a threshold of 5.
   */
  method CheckImageExample() returns (below50: bool, below5: bool)
    ensures below50 && !below5
  {
    var image := new byte[] [10, 0, 0, 0, 200, 0, 0, 0];
    assert Below(image[..], 0, 50);
    below50 := PXCUService.CheckImage(image, 2, 1, 50);
    assert !Below(image[..], 0, 5) && !Below(image[..], 1, 5);
    below5 := PXCUService.CheckImage(image, 2, 1, 5);
  }
}
