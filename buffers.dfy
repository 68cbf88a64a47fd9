/** The service's raw frame maps as values: pointer, recorded size, and how they must relate. */
module Buffers {
  import opened Wrappers
  import opened Geometry
  import opened Pipeline
  import opened Lifecycle

  /** One raw frame map: its pointer (null until allocated) and its recorded size. */
  datatype Buffer<T> = Buffer(data: array?<T>, size: MapSize)

  /** An allocated buffer holds exactly `perPixel` elements per pixel of its recorded size. */
  predicate Sized<T>(b: Buffer<T>, perPixel: nat)
  {
    b.data != null ==> b.data.Length == Pixels(b.size) * perPixel
  }

  /**
   * What a size query leaves in its buffer: when it succeeded, a buffer of
   * exactly the reported size with that size recorded; otherwise the buffer
   * as it was before.
   */
  predicate Outcome<T>(now: Buffer<T>, before: Buffer<T>, succeeded: bool, reported: MapSize, perPixel: nat)
  {
    if succeeded then now.data != null && now.size == reported && now.data.Length == Pixels(reported) * perPixel
    else now == before
  }

  /** The service's five buffers at one moment. */
  datatype MapsSnapshot = MapsSnapshot(
    color: Buffer<byte>, depth: Buffer<int16>, ir: Buffer<int16>, labels: Buffer<byte>, uv: Buffer<real>)

  /**
   * Four bytes per colour pixel, one int16 per depth or IR pixel, one byte
   * per label pixel, two reals per UV pixel.
   */
  predicate AllSized(s: MapsSnapshot)
  {
    Sized(s.color, 4) && Sized(s.depth, 1) && Sized(s.ir, 1) && Sized(s.labels, 1) && Sized(s.uv, 2)
  }

  /** Two buffer pointers that do not share an array. */
  predicate Apart(a: object?, b: object?)
  {
    a == null || a != b
  }

  /** Five buffer pointers no two of which share an array. */
  predicate AllApart(a: object?, b: object?, c: object?, d: object?, e: object?)
  {
    && Apart(a, b) && Apart(a, c) && Apart(a, d) && Apart(a, e)
    && Apart(b, c) && Apart(b, d) && Apart(b, e)
    && Apart(c, d) && Apart(c, e)
    && Apart(d, e)
  }

  /**
   * The buffers are sized and pairwise distinct, and all five exist while
   * the pipeline is inited.
   */
  predicate Wellformed(s: MapsSnapshot, inited: bool)
  {
    && AllSized(s)
    && AllApart(s.color.data, s.labels.data, s.depth.data, s.ir.data, s.uv.data)
    && (inited ==> s.color.data != null && s.labels.data != null && s.depth.data != null
                   && s.ir.data != null && s.uv.data != null)
  }

  /** The size a size query reports; a failed query reports nothing. */
  function Reported(reply: Option<MapSize>): MapSize
  {
    if reply.Some? then reply.value else ZeroSize
  }

  /**
   * What start leaves in the buffers, by the stage it reached: each buffer
   * whose size query succeeded is allocated at exactly its reported size
   * with that size recorded; every other buffer is as it was `before`.
   */
  predicate AllocatedSince(now: MapsSnapshot, before: MapsSnapshot, replies: StartReplies, stage: int)
  {
    && Outcome(now.color, before.color, stage >= 2, replies.rgbSize, 4)
    && SizesAllocatedSince(now, before, replies, stage - 2)
  }

  /** The buffers of the single-shot size queries after the first `passed` of them succeeded. */
  predicate SizesAllocatedSince(now: MapsSnapshot, before: MapsSnapshot, replies: StartReplies, passed: int)
  {
    && Outcome(now.depth, before.depth, passed >= 1, Reported(replies.depthSize), 1)
    && Outcome(now.ir, before.ir, passed >= 2, Reported(replies.irSize), 1)
    && Outcome(now.labels, before.labels, passed >= 3, Reported(replies.labelSize), 1)
    && Outcome(now.uv, before.uv, passed >= 4, Reported(replies.uvSize), 2)
  }

  /** Allocation never drops a buffer, so buffers that all existed still all exist. */
  lemma AllocationKeepsWellformed(now: MapsSnapshot, before: MapsSnapshot, replies: StartReplies, stage: int, inited: bool)
    requires Wellformed(before, inited)
    requires AllSized(now) && AllApart(now.color.data, now.labels.data, now.depth.data, now.ir.data, now.uv.data)
    requires AllocatedSince(now, before, replies, stage)
    ensures Wellformed(now, inited)
  {
  }

  /** An owned buffer has room for exactly `content`. */
  predicate Fits<T>(a: array?<T>, content: seq<T>)
  {
    a != null ==> |content| == a.Length
  }

  /** An owned buffer holds exactly `content`. */
  ghost predicate Filled<T>(a: array?<T>, content: seq<T>)
    reads a
  {
    a != null ==> a[..] == content
  }

  /** A buffer pointer still holds the array it held before, or one allocated since. */
  twostate predicate KeptOrFresh<T>(before: array?<T>, new now: array?<T>)
  {
    now == before || fresh(now)
  }

  /** Every buffer is the one it was before or an array allocated since. */
  twostate predicate Renewed(before: MapsSnapshot, new now: MapsSnapshot)
  {
    && KeptOrFresh(before.color.data, now.color.data) && KeptOrFresh(before.depth.data, now.depth.data)
    && KeptOrFresh(before.ir.data, now.ir.data) && KeptOrFresh(before.labels.data, now.labels.data)
    && KeptOrFresh(before.uv.data, now.uv.data)
  }

  /**
   * The buffers start allocated on reaching `stage` are new arrays: the
   * colour buffer from stage 2 on, then one more per size query passed.
   */
  twostate predicate AllocatedFresh(new now: MapsSnapshot, stage: int)
  {
    (stage >= 2 ==> fresh(now.color.data)) && SizesAllocatedFresh(now, stage - 2)
  }

  /** The buffers of the first `passed` single-shot size queries are new arrays. */
  twostate predicate SizesAllocatedFresh(new now: MapsSnapshot, passed: int)
  {
    && (passed >= 1 ==> fresh(now.depth.data))
    && (passed >= 2 ==> fresh(now.ir.data))
    && (passed >= 3 ==> fresh(now.labels.data))
    && (passed >= 4 ==> fresh(now.uv.data))
  }
}
