/**
 * The sensor pipeline adapter (the PXCUPipeline_* calls of the Intel
 * Perceptual Computing SDK) as the service sees it. Its replies are inputs
 * of the service's methods (StartReplies, Frame); every call the service
 * makes on it, and every call of the gesture handler, is an Event that the
 * service appends to its trace.
 */
module Pipeline {
  import opened Wrappers
  import opened Geometry
  import opened GeoNodes

  /** C++ uint8_t. */
  type byte = bv8

  /** C++ short: the element type of the depth and infrared maps. */
  newtype int16 = x: int | -0x8000 <= x < 0x8000

  /** The five raw maps the service may own. */
  datatype BufferKind = ColorBuffer | LabelBuffer | DepthBuffer | IRBuffer | UVBuffer

  /** The identity of a registered gesture handler (a std::function). */
  datatype Handler = Handler(id: nat)

  /** What the service does to the world outside it. */
  datatype Event =
    | Init(mode: int)                         // PXCUPipeline_Init(mode)
    | QueryRGBSize                            // PXCUPipeline_QueryRGBSize
    | QueryDepthMapSize                       // PXCUPipeline_QueryDepthMapSize
    | QueryIRMapSize                          // PXCUPipeline_QueryIRMapSize
    | QueryLabelMapSize                       // PXCUPipeline_QueryLabelMapSize
    | QueryUVMapSize                          // PXCUPipeline_QueryUVMapSize
    | AcquireFrame(blocking: bool)            // PXCUPipeline_AcquireFrame(blocking)
    | QueryRGB                                // fill the colour buffer
    | QueryDepthMap                           // fill the depth buffer
    | QueryLabelMap                           // fill the label buffer
    | QueryIRMap                              // fill the infrared buffer
    | QueryUVMap                              // fill the UV buffer
    | QueryGesture                            // PXCUPipeline_QueryGesture(LABEL_ANY, ...)
    | QueryGeoNode(nodeLabel: Label)          // PXCUPipeline_QueryGeoNode(label, ...)
    | ReleaseFrame                            // PXCUPipeline_ReleaseFrame
    | PipelineClose                           // PXCUPipeline_Close
    | Notify(handler: Handler, gesture: Gesture) // the gesture handler is called
    | Free(buffer: BufferKind)                // delete[] of an owned buffer

  /**
   * The pipeline's answers during start: init[k] and rgb[k] are the results
   * of the k-th PXCUPipeline_Init and PXCUPipeline_QueryRGBSize call,
   * rgbSize is what a successful colour size query reports, and each of the
   * four single-shot size queries either fails (None) or reports a size.
   */
  datatype StartReplies = StartReplies(
    init: seq<bool>,
    rgb: seq<bool>,
    rgbSize: MapSize,
    depthSize: Option<MapSize>,
    irSize: Option<MapSize>,
    labelSize: Option<MapSize>,
    uvSize: Option<MapSize>)

  /**
   * The pipeline's answers during one update: whether the non-blocking
   * acquire got a frame, what each fill call writes, the "any gesture"
   * query's result, and the node found for each label it reports.
   */
  datatype Frame = Frame(
    acquired: bool,
    color: seq<byte>,
    depth: seq<int16>,
    labels: seq<byte>,
    ir: seq<int16>,
    uv: seq<real>,
    gesture: Option<Gesture>,
    nodes: map<Label, GeoNode>)

  /** A call of the gesture handler. */
  predicate IsNotify(e: Event)
  {
    e.Notify?
  }

  /** The number of events satisfying p. */
  function Count(events: seq<Event>, p: Event -> bool): nat
  {
    if events == [] then 0
    else Count(events[..|events| - 1], p) + (if p(events[|events| - 1]) then 1 else 0)
  }

  lemma {:induction false} CountConcat(a: seq<Event>, b: seq<Event>, p: Event -> bool)
    ensures Count(a + b, p) == Count(a, p) + Count(b, p)
    decreases |b|
  {
    if b != [] {
      assert (a + b)[..|a + b| - 1] == a + b[..|b| - 1];
      CountConcat(a, b[..|b| - 1], p);
    } else {
      assert a + b == a;
    }
  }

  /** Count looks at p only through its values. */
  lemma {:induction false} CountSamePredicate(events: seq<Event>, p: Event -> bool, q: Event -> bool)
    requires forall e :: p(e) == q(e)
    ensures Count(events, p) == Count(events, q)
  {
    if events != [] {
      CountSamePredicate(events[..|events| - 1], p, q);
    }
  }

  /** n calls in a row of the same kind. */
  function Repeat(e: Event, n: nat): (r: seq<Event>)
    ensures |r| == n
    ensures forall i :: 0 <= i < n ==> r[i] == e
  {
    if n == 0 then [] else Repeat(e, n - 1) + [e]
  }

  lemma {:induction false} CountRepeat(e: Event, n: nat, p: Event -> bool)
    ensures Count(Repeat(e, n), p) == if p(e) then n else 0
  {
    if n > 0 {
      assert Repeat(e, n)[..n - 1] == Repeat(e, n - 1);
      CountRepeat(e, n - 1, p);
    }
  }

  /** One QueryGeoNode per tracked label, in list order (duplicates included). */
  function GeoNodeQueries(labels: seq<Label>): seq<Event>
  {
    if labels == [] then []
    else GeoNodeQueries(labels[..|labels| - 1]) + [QueryGeoNode(labels[|labels| - 1])]
  }

  /** The i-th node query is for the i-th label, and there is one per label. */
  lemma {:induction false} GeoNodeQueriesAt(labels: seq<Label>)
    ensures |GeoNodeQueries(labels)| == |labels|
    ensures forall i :: 0 <= i < |labels| ==> GeoNodeQueries(labels)[i] == QueryGeoNode(labels[i])
  {
    if labels != [] {
      GeoNodeQueriesAt(labels[..|labels| - 1]);
    }
  }

  /** One more label adds its query at the end. */
  lemma GeoNodeQueriesStep(labels: seq<Label>, l: Label)
    ensures GeoNodeQueries(labels + [l]) == GeoNodeQueries(labels) + [QueryGeoNode(l)]
  {
    assert (labels + [l])[..|labels|] == labels;
  }

  /**
   * The calls of one tracking pass: the "any gesture" query, then one node
   * query per tracked label, then the handler, when the gesture query
   * succeeded and a handler is registered.
   */
  function TrackingEvents(tracked: seq<Label>, gesture: Option<Gesture>, handler: Option<Handler>): seq<Event>
  {
    [QueryGesture] + GeoNodeQueries(tracked)
    + (if gesture.Some? && handler.Some? then [Notify(handler.value, gesture.value)] else [])
  }

  /** No node query is a handler call. */
  lemma {:induction false} GeoNodeQueriesNoNotify(labels: seq<Label>)
    ensures Count(GeoNodeQueries(labels), IsNotify) == 0
  {
    if labels != [] {
      var init := labels[..|labels| - 1];
      var query := [QueryGeoNode(labels[|labels| - 1])];
      GeoNodeQueriesNoNotify(init);
      CountConcat(GeoNodeQueries(init), query, IsNotify);
      assert Count(query, IsNotify) == 0 by {
        assert query[..0] == [];
      }
    }
  }

  /**
   * The handler runs exactly once in a tracking pass when a gesture was
   * reported and a handler is set, and never otherwise.
   */
  lemma TrackingNotifiesOnce(tracked: seq<Label>, gesture: Option<Gesture>, handler: Option<Handler>)
    ensures Count(TrackingEvents(tracked, gesture, handler), IsNotify)
         == if gesture.Some? && handler.Some? then 1 else 0
  {
    var p := IsNotify;
    var tail := if gesture.Some? && handler.Some? then [Notify(handler.value, gesture.value)] else [];
    CountConcat([QueryGesture] + GeoNodeQueries(tracked), tail, p);
    CountConcat([QueryGesture], GeoNodeQueries(tracked), p);
    GeoNodeQueriesNoNotify(tracked);
    assert Count([QueryGesture], p) == 0 by {
      assert [QueryGesture][..0] == [];
    }
    if tail != [] {
      assert Count(tail, p) == 1 by {
        assert tail[..0] == [];
      }
    }
  }

  /** When the handler runs it is the last call of the pass, after every node query. */
  lemma TrackingNotifiesLast(tracked: seq<Label>, gesture: Option<Gesture>, handler: Option<Handler>)
    ensures forall i :: 0 <= i < |TrackingEvents(tracked, gesture, handler)| - 1 ==>
              !TrackingEvents(tracked, gesture, handler)[i].Notify?
  {
    GeoNodeQueriesAt(tracked);
  }

  lemma {:induction false} CountNone(events: seq<Event>, p: Event -> bool)
    requires forall i :: 0 <= i < |events| ==> !p(events[i])
    ensures Count(events, p) == 0
  {
    if events != [] {
      CountNone(events[..|events| - 1], p);
    }
  }

  /** In a list without repetitions an event occurs once if it is there at all. */
  lemma {:induction false} CountDistinct(events: seq<Event>, x: Event)
    requires forall i, j :: 0 <= i < j < |events| ==> events[i] != events[j]
    ensures Count(events, e => e == x) == if x in events then 1 else 0
  {
    if events != [] {
      var init := events[..|events| - 1];
      CountDistinct(init, x);
      assert x in events <==> x in init || x == events[|events| - 1];
      assert x == events[|events| - 1] ==> x !in init;
    }
  }

  /** How often buffer k is deleted in `events`. */
  function Frees(events: seq<Event>, k: BufferKind): nat
  {
    Count(events, e => e == Free(k))
  }

  /**
   * The frame pump's calls: a non-blocking acquire, the fills, the tracking
   * pass, and the release.
   */
  function PumpEvents(fills: seq<Event>, tracking: seq<Event>): seq<Event>
  {
    [AcquireFrame(false)] + fills + tracking + [ReleaseFrame]
  }

  /** The pump's calls appended to a trace, one call at a time. */
  lemma PumpEventsSplit(before: seq<Event>, fills: seq<Event>, tracking: seq<Event>)
    ensures before + PumpEvents(fills, tracking)
         == before + [AcquireFrame(false)] + fills + tracking + [ReleaseFrame]
  {
  }

  /** The adapter writes a whole frame map into a buffer of its size. */
  method Fill<T>(buffer: array<T>, data: seq<T>)
    requires |data| == buffer.Length
    modifies buffer
    ensures buffer[..] == data
  {
    forall i | 0 <= i < buffer.Length {
      buffer[i] := data[i];
    }
  }

  /** The order in which the destructor deletes the buffers. */
  const DestructorOrder := [ColorBuffer, LabelBuffer, DepthBuffer, IRBuffer, UVBuffer]

  /** The delete of buffer k, if it is owned. */
  function Freed(owned: set<BufferKind>, k: BufferKind): seq<Event>
  {
    if k in owned then [Free(k)] else []
  }

  /** The deletes of the buffers in `owned`, in the given order. */
  function FreeEvents(order: seq<BufferKind>, owned: set<BufferKind>): seq<Event>
  {
    if order == [] then []
    else FreeEvents(order[..|order| - 1], owned) + Freed(owned, order[|order| - 1])
  }

  /**
   * Walking an order that names each buffer once deletes every owned buffer
   * exactly once and no other buffer.
   */
  lemma {:induction false} FreeEventsOnce(order: seq<BufferKind>, owned: set<BufferKind>, k: BufferKind)
    requires forall i, j :: 0 <= i < j < |order| ==> order[i] != order[j]
    ensures Frees(FreeEvents(order, owned), k) == if k in order && k in owned then 1 else 0
  {
    var p := (e: Event) => e == Free(k);
    if order != [] {
      var last := order[|order| - 1];
      var tail := Freed(owned, last);
      FreeEventsOnce(order[..|order| - 1], owned, k);
      CountConcat(FreeEvents(order[..|order| - 1], owned), tail, p);
      CountOne(tail, p);
      assert k in order <==> k in order[..|order| - 1] || k == last;
      assert k == last ==> k !in order[..|order| - 1];
    }
  }

  lemma CountOne(s: seq<Event>, p: Event -> bool)
    requires |s| <= 1
    ensures Count(s, p) == if s != [] && p(s[0]) then 1 else 0
  {
    if s != [] {
      assert s[..0] == [];
    }
  }
}
