# PXCUService in Dafny

A verified model of `PXCUService`, the core of CinderPXCU. It sits between a
depth camera's pipeline (the `PXCUPipeline_*` calls of the Intel Perceptual
Computing SDK) and a Cinder front end, and does the following:

- brings the pipeline up with bounded retries;
- negotiates the sizes of the five raw frame maps (colour, depth, infrared,
  label, UV correspondence) and allocates one buffer per map;
- pumps one frame per `update`;
- keeps a per-label `GeoNodeState` for the tracked body parts, remapping
  depth-image positions into colour-image positions (`mapXY`);
- calls a single registered gesture handler;
- tears everything down in `close` and the destructor.

The model follows the source's own form. `PXCUService` is a Dafny `class`
whose fields are the C++ members. Its buffers are `array?` fields, null
until allocated. Its tracking map is a `map` field. The retry loops, the
tracking loop, the tracked-set rebuild and the `checkImage` scan are
`while` loops with invariants. The frame pump, like `update`, is
straight-line code over the fields. `mapXY`, `isRunning` and the size and
tracked-list accessors are functions over the fields. `getGeoNode` is a
method, because the map's `operator[]` may insert a key.

The pipeline adapter is not code the model can see, so its answers are
inputs:

- `StartReplies` holds the result of every init and size query of `start`;
- `Frame` holds what one `update` acquires.

Every call the service makes on the adapter, every handler call and every
`delete[]` is appended to a ghost `trace`. Retry counts, "at most once",
ordering and "freed exactly once" are stated on that trace.

Modules:

| file | module | contents |
|---|---|---|
| wrappers.dfy | `Wrappers` | `Option` |
| geometry.dfy | `Geometry` | `Vec2f`, `MapSize`, C++ float-to-int truncation, row-major index arithmetic |
| geonodes.dfy | `GeoNodes` | `Label`, `GeoNode`, `Gesture`, `GeoNodeState` and its default constructor, the sentinel |
| pipeline.dfy | `Pipeline` | the adapter: `Event`, `StartReplies`, `Frame`, counting over traces, the destructor's free order |
| lifecycle.dfy | `Lifecycle` | the bring-up policy as functions: first success, number of attempts, how far `start` gets, the calls it makes |
| tracking.dfy | `Tracking` | the per-label refresh of `processGestures` over values, and its properties |
| buffers.dfy | `Buffers` | the five buffers as values: sizing, distinctness, what allocation leaves behind |
| service.dfy | `Pxcu` | the `PXCUService` class |

Some behaviours of the code are easy to mistake for something else.
The model follows the code in each of them:

- `mapXY` converts coordinates with C++ `(int)`, which truncates toward
  zero. It does not take the floor, so a coordinate in (-1, 0) truncates
  to 0, not to -1 (`Geometry.Trunc`).
- `mapXY` scales the UV pair by the UV map's recorded size, not by the
  colour map's size.
- A freshly registered label's state is at the zero vector, not at the
  (-1, -1) sentinel. "Inactive means at the sentinel" holds only after a
  frame has been pumped (`GeoNodes.NewStateIsNotAtSentinel`,
  `Tracking.RefreshedStatesOutcome`).
- `getUVMapSize` returns the depth map's size
  (`Pxcu.PXCUService.GetUVMapSize`).
- A buffer can be non-null even though the latest size query for it did
  not run or failed. A failed or repeated `start` keeps the buffers earlier
  calls allocated (`Buffers.AllocatedSince`).
- When `retryCount <= 0`, neither retry loop runs and `start` returns
  false. It leaves `_setupSucceeded` as it was.

## Model

| member | source | states |
|---|---|---|
| Pxcu.PXCUService.constructor | src/PXCUService.cpp:13-38 | the constructor with init(): flags and retry count stored, not set up, not inited, not waiting for frames, all five buffers null, all sizes zero, no handler, no tracked labels, empty state map, no calls made |
| Pxcu.PXCUService.Create | src/PXCUService.h:119-122 | create gives a fresh valid service with the state init() sets: not set up, not inited, not waiting for frames, no buffer owned, all sizes zero, no handler, no tracked labels, an empty state map, no call made; the retry count defaults to 2 |
| Pxcu.PXCUService.Start | src/PXCUService.cpp:40-124 | start returns true iff init succeeds within retryCount attempts, the colour size query succeeds within retryCount attempts and all four single-shot size queries succeed; on true the service is running; the calls made are exactly StartEvents; _setupSucceeded becomes whether init succeeded (unchanged when retryCount <= 0); _isInited becomes true only on success; each buffer whose query succeeded is allocated at its exact size, every other buffer is kept as it was; every buffer is the one it was before or a freshly allocated array; validity is preserved |
| Pxcu.PXCUService.CompleteStart | src/PXCUService.cpp:59-123 | after the init loop: returns false at once when init failed, otherwise negotiates and allocates, and on full success sets _setupSucceeded and _isInited; the calls are exactly AfterInitEvents; buffers stay sized and distinct, and each is the old one or a fresh array |
| Pxcu.PXCUService.AllocateMaps | src/PXCUService.cpp:61-118 | the colour loop then the four size queries: true iff every one succeeds, in which case all five buffers exist; the buffer of each query that succeeded is a new array of its reported size with that size recorded, every other buffer is left as it was |
| Pxcu.PXCUService.InitPipeline | src/PXCUService.cpp:42-57 | the init loop makes exactly Attempts(init, retryCount) calls to PXCUPipeline_Init and leaves _setupSucceeded equal to whether one of them succeeded (unchanged when the loop does not run) |
| Pxcu.PXCUService.NegotiateColorSize | src/PXCUService.cpp:61-80 | the colour size loop makes exactly Attempts(rgb, retryCount) calls; it succeeds iff some allowed attempt succeeds, and then the colour buffer is a fresh array of width*height*4 bytes with the reported size recorded; otherwise buffer and size are unchanged |
| Pxcu.PXCUService.QueryMapSizes | src/PXCUService.cpp:84-118 | the depth, IR, label and UV size queries, each once and in that order, stopping at the first failure; true iff all four succeed; the buffer of each query that succeeded is a new array of its reported size with that size recorded, the others are unchanged |
| Pxcu.PXCUService.QueryDepthMapSize | src/PXCUService.cpp:84-91 | one depth size query; on success a fresh buffer of width*height int16s and the size recorded, otherwise nothing changes |
| Pxcu.PXCUService.QueryIRMapSize | src/PXCUService.cpp:93-100 | one IR size query; on success a fresh buffer of width*height int16s and the size recorded, otherwise nothing changes |
| Pxcu.PXCUService.QueryLabelMapSize | src/PXCUService.cpp:102-109 | one label size query; on success a fresh buffer of width*height bytes and the size recorded, otherwise nothing changes |
| Pxcu.PXCUService.QueryUVMapSize | src/PXCUService.cpp:111-118 | one UV size query; on success a fresh buffer of width*height*2 reals and the size recorded, otherwise nothing changes |
| Lifecycle.FirstSuccess | src/PXCUService.cpp:46-57 | the attempt at which a retry loop stops, if any, lies in the allowed range and is a success |
| Lifecycle.FirstSuccessIsFirst | src/PXCUService.cpp:46-57 | every attempt before the stopping attempt failed, and when the loop does not stop early every allowed attempt failed |
| Lifecycle.SucceedsIffSomeSuccess | src/PXCUService.cpp:46-59 | a retry loop succeeds iff one of its first retryCount attempts succeeds |
| Lifecycle.Attempts | src/PXCUService.cpp:46-57 | a retry loop makes at most retryCount calls (none when retryCount <= 0) and stops short of retryCount only on a success |
| Lifecycle.AttemptsAllButLastFailed | src/PXCUService.cpp:46-57 | every call but the last failed, and the loop succeeded iff its last call did |
| Lifecycle.RetryExit | src/PXCUService.cpp:69-82 | the loop's exit state fixes its outcome: stopping on a success at `attempt` means attempt+1 calls and success; running out means retryCount calls and failure |
| Lifecycle.StartStage | src/PXCUService.cpp:59-123 | how far start gets, 0..6: 0 iff init failed, 6 iff init, the colour size and all four size queries succeeded |
| Lifecycle.SizeStage | src/PXCUService.cpp:84-118 | the number of single-shot size queries that succeed before the first failure, 4 iff all succeed |
| Lifecycle.SizeQueriesMade | src/PXCUService.cpp:84-118 | start never makes more than the four single-shot size queries |
| Lifecycle.CountStartEvents | src/PXCUService.cpp:40-124 | the count of any kind of call in start is the sum over its three phases |
| Lifecycle.StartInitCalls | src/PXCUService.cpp:42-57 | start calls PXCUPipeline_Init exactly Attempts(init, retryCount) times: at most retryCount, none after the first success |
| Lifecycle.StartRGBSizeCalls | src/PXCUService.cpp:59-82 | the colour size is queried only if init succeeded, and then exactly Attempts(rgb, retryCount) times |
| Lifecycle.StartSizeQueryCalls | src/PXCUService.cpp:84-118 | each single-shot size query is made once if every earlier phase succeeded and never otherwise |
| Lifecycle.CountOnlySizeQueries | src/PXCUService.cpp:84-118 | a kind of call that is neither init nor the colour size query occurs in start only among the size queries |
| Lifecycle.SizeQueryPrefixCount | src/PXCUService.cpp:84-118 | among the size queries made, query j occurs once if it was reached and never otherwise |
| Lifecycle.NoSizeQueryCounted | src/PXCUService.cpp:84-118 | a kind of call that is no size query does not occur among them |
| Buffers.AllocationKeepsWellformed | src/PXCUService.cpp:75-121 | allocation never drops a buffer, so sized, pairwise distinct buffers that all existed while inited still all exist |
| Pxcu.PXCUService.IsRunning | src/PXCUService.h:90 | isRunning is exactly _setupSucceeded && _isInited, and a running service owns all five buffers |
| Pxcu.PXCUService.GetColorMapSize | src/PXCUService.h:107 | the recorded colour size, which the colour buffer (if any) holds four bytes per pixel of |
| Pxcu.PXCUService.GetLabelMapSize | src/PXCUService.h:108 | the recorded label size, which the label buffer (if any) holds one byte per pixel of |
| Pxcu.PXCUService.GetDepthMapSize | src/PXCUService.h:109 | the recorded depth size, which the depth buffer (if any) holds one int16 per pixel of |
| Pxcu.PXCUService.GetIRMapSize | src/PXCUService.h:110 | the recorded IR size, which the IR buffer (if any) holds one int16 per pixel of |
| Pxcu.PXCUService.GetUVMapSize | src/PXCUService.h:111 | the DEPTH map's recorded size, as the source returns, not the UV map's |
| Pxcu.PXCUService.GetGeoNodes | src/PXCUService.h:113 | the state map, in which every tracked label has a non-null entry |
| Pxcu.PXCUService.GetTrackedGeoNodes | src/PXCUService.h:117 | the list last passed to setTrackedGeoNodes |
| Pxcu.PXCUService.GetGeoNode | src/PXCUService.h:114 | the entry of a label that has one, leaving the map as it is; for any other label a null entry is inserted under that label and returned |
| Pxcu.PXCUService.MapXY | src/PXCUService.cpp:168-178 | identity when the depth or UV buffer is missing; otherwise the UV pair at index trunc(y)*depthWidth + trunc(x), scaled by the UV size; it is the value-level MapThrough of what it reads |
| Pxcu.PXCUService.MapXYInsideDepthImage | src/PXCUService.cpp:170-177 | a point inside the depth image can be mapped when the UV map has at least as many pixels, and its index gives back row trunc(y) and column trunc(x) |
| Geometry.Trunc | src/PXCUService.cpp:172 | C++ (int) of a float truncates toward zero: for non-negative input the largest integer not above it, for negative input the smallest not below it |
| Geometry.PixelIndexInBounds | src/PXCUService.cpp:172 | a position inside a width x height image gives an index in [0, width*height) |
| Geometry.PixelIndexRoundTrip | src/PXCUService.cpp:172 | row-major indexing is undone by / and % of the row width |
| Pxcu.PXCUService.ProcessGestures | src/PXCUService.cpp:180-211 | one any-gesture query, one node query per tracked label, then the handler only if a gesture was found and a handler is set; the state map becomes RefreshedStates of the old one; tracked labels keep their entries |
| Pxcu.PXCUService.RefreshTracked | src/PXCUService.cpp:186-204 | the tracking loop refreshes the tracked labels in list order, making one node query per label, and its result is RefreshedStates |
| Pxcu.PXCUService.RefreshLabel | src/PXCUService.cpp:188-202 | one iteration: the label's entry becomes active with the node and mapXY of its position when the node was found, otherwise inactive at (-1,-1) keeping its last node |
| Tracking.RefreshedStatesFrame | src/PXCUService.cpp:186-204 | the tracking loop keeps the map's key set, leaves entries of untracked labels and null entries untouched, and never nulls an entry |
| Tracking.RefreshedStatesAt | src/PXCUService.cpp:186-204 | whatever the order and the repetitions in the tracked list, each tracked entry ends as its old state refreshed once |
| Tracking.RefreshedStatesOutcome | src/PXCUService.cpp:193-202 | after a pump a tracked entry is active iff the frame reported its label; active entries hold the reported node at its mapped position; inactive ones keep their last node and sit at the sentinel |
| Tracking.RefreshIdempotent | src/PXCUService.cpp:186-204 | running the tracking loop twice on the same frame gives the same map as running it once |
| Tracking.RefreshTwice | src/PXCUService.cpp:193-202 | refreshing one state twice with the same frame is refreshing it once |
| Pipeline.TrackingNotifiesOnce | src/PXCUService.cpp:184-209 | in one tracking pass the handler is called exactly once when a gesture was reported and a handler is set, and never otherwise |
| Pipeline.TrackingNotifiesLast | src/PXCUService.cpp:186-209 | the handler call, if any, comes after every node query |
| Pipeline.GeoNodeQueriesNoNotify | src/PXCUService.cpp:186-204 | the node queries of the loop never call the handler |
| Pipeline.GeoNodeQueriesAt | src/PXCUService.cpp:186-193 | the loop makes one node query per list element, the i-th for the i-th label |
| Pxcu.PXCUService.Update | src/PXCUService.cpp:126-141 | a non-blocking acquire; without a frame it returns false and changes no buffer, state, latch or anything but that one call; with one it returns true, every owned buffer holds the frame's map, tracking ran on the new maps, the frame is released and _waitForFrames is set |
| Pxcu.PXCUService.Pump | src/PXCUService.cpp:131-141 | with a frame: fills, tracking on the filled UV map, release, latch; calls in that order |
| Pxcu.PXCUService.Track | src/PXCUService.cpp:137-141 | tracking on the filled maps, then the release, then the latch |
| Pxcu.PXCUService.FillBuffers | src/PXCUService.cpp:131-135 | each owned buffer, and only those, is refilled from the frame, in the order colour, depth, label, IR, UV |
| Pxcu.PXCUService.FillLeading | src/PXCUService.cpp:131-133 | the colour, depth and label buffers, when owned, are refilled |
| Pxcu.PXCUService.FillTrailing | src/PXCUService.cpp:134-135 | the IR and UV buffers, when owned, are refilled |
| Pipeline.Fill | src/PXCUService.cpp:131-135 | a fill call writes the frame's map into the whole buffer |
| Pxcu.PXCUService.SetTrackedGeoNodes | src/PXCUService.cpp:213-223 | the tracked list becomes the argument, and the state map's key set becomes exactly its labels (duplicates collapse), each with a fresh default state |
| GeoNodes.NewGeoNodeState | src/PXCUService.h:29 | the default constructor: inactive, no node sample, screen at (0,0) |
| GeoNodes.NewStateIsNotAtSentinel | src/PXCUService.h:29 | a fresh state is inactive but not at the (-1,-1) sentinel |
| Pxcu.PXCUService.SetGestureHandler | src/PXCUService.cpp:225-228 | the single handler slot holds the given handler |
| Pxcu.PXCUService.RemoveGestureHandler | src/PXCUService.cpp:230-233 | the handler slot is empty |
| Pxcu.PXCUService.CheckImage | src/PXCUService.cpp:259-271 | true iff the first channel of some of the first w*h four-byte pixels is below the threshold |
| Pxcu.CheckImageExample | src/PXCUService.cpp:259-271 | on a 2x1 image whose pixels start with 10 and 200, the scan finds a pixel below 50 but none below 5 |
| Pxcu.PXCUService.Close | src/PXCUService.cpp:273-280 | PXCUPipeline_Close is called only while inited; afterwards not inited and not running |
| Pxcu.CloseTwice | src/PXCUService.cpp:273-280 | two closes in a row close the pipeline at most once |
| Pxcu.PXCUService.Destroy | src/PXCUService.cpp:282-294 | a blocking acquire only if a frame was ever pumped, then close, then the deletes of exactly the owned buffers in declaration order; afterwards nothing is owned |
| Pxcu.PXCUService.FreeBuffers | src/PXCUService.cpp:288-292 | the five guarded delete[]s in declaration order, each pointer nulled |
| Pxcu.PXCUService.DeleteColorMap | src/PXCUService.cpp:288 | the colour buffer is deleted if owned, and nulled |
| Pxcu.PXCUService.DeleteLabelMap | src/PXCUService.cpp:289 | the label buffer is deleted if owned, and nulled |
| Pxcu.PXCUService.DeleteDepthMap | src/PXCUService.cpp:290 | the depth buffer is deleted if owned, and nulled |
| Pxcu.PXCUService.DeleteIRMap | src/PXCUService.cpp:291 | the IR buffer is deleted if owned, and nulled |
| Pxcu.PXCUService.DeleteUVMap | src/PXCUService.cpp:292 | the UV buffer is deleted if owned, and nulled |
| Pxcu.DestructorFreeEvents | src/PXCUService.cpp:288-292 | the destructor's delete sequence is one guarded delete per buffer in declaration order |
| Pxcu.DestructorFreesOnce | src/PXCUService.cpp:288-292 | the destructor deletes every owned buffer exactly once and no other |
| Pipeline.FreeEventsOnce | src/PXCUService.cpp:288-292 | walking an order that names each buffer once deletes each owned buffer exactly once |

## Left out

- Texture creation in `update` and the `gl::Texture` accessors. These are GPU calls.
- `convertToImage`. It is float arithmetic with `sqrt`, and it divides by zero for zero pixels. The scratch overwrite of the label buffer that `update` does through it is also not modelled: after `update` the label buffer holds the frame's labels.
- `Sleep(1000)` between init attempts. It only affects timing.
- The bodies of the `PXCUPipeline_*` calls. Their replies are method inputs (`StartReplies`, `Frame`). Their effects are events on the ghost trace.
- The float payloads of `GeoNode` and `Gesture` other than the node's image position. They are carried as uninterpreted `seq<real>`.
- Floats in general: `Vec2f` coordinates and UV values are reals, so float rounding is not modelled.
- Pxcu.PXCUService.QueryDepthMapSize, QueryIRMapSize, QueryLabelMapSize, QueryUVMapSize and NegotiateColorSize: sizes are unbounded naturals. The 32-bit overflow of `width * height * 4` in the C++ allocation is not modelled, and neither are negative widths.
- Pxcu.PXCUService.CheckImage and Pxcu.PXCUService.MapXY: `checkImage`'s pixel count `w * h` and `mapXY`'s index `(int)y * width + (int)x` are 32-bit C++ ints. The model computes them over unbounded integers, so their overflow is not modelled.
- Pxcu.PXCUService.Start and Pxcu.PXCUService.CompleteStart: they state that each buffer is its old array or a new one. The stronger fact, that the buffer of each query that succeeded is a new array, is stated by AllocateMaps and QueryMapSizes, which allocate the buffers. Stating it on Start as well puts Start's proof close to the verifier's resource limit.
- Buffers replaced by a repeated `start` leak in C++. The model does not track leaked arrays.
- The `shared_ptr` identity of `GeoNodeState` entries. Entries are values in the map. Callers holding a `GeoNodeStateRef` from `getGeoNode` and seeing later updates through it (aliasing) is not modelled.
- The raw buffer accessors (`getRawColorMap` and the others). They return the `array?` fields themselves.
- What the gesture handler does. A call of it is a `Notify` event; its own effects on the program are not modelled.
- Tracking.MapThrough: a pixel whose UV pair lies outside the UV map is mapped to the input position. This placeholder is never stored: `mapXY`, `processGestures` and `update` require every reported node of a tracked label to be mappable, as the C++ reads outside the array otherwise.
- Pxcu.PXCUService.CheckImage: it requires the whole `4*w*h` prefix to exist. The C++ reads only up to the first hit.
- src/CinderPXCUApp.cpp is not part of this model. It is an application bootstrap with drawing and UI.
