/**
 * The bring-up policy of PXCUService::start as functions of the pipeline's
 * replies: the bounded retry loops, how far start gets, and the calls it
 * makes on the way.
 */
module Lifecycle {
  import opened Wrappers
  import opened Pipeline

  /**
   * The first attempt in [from, limit) whose reply is a success, if any:
   * the attempt at which a retry loop starting at `from` stops.
   */
  function FirstSuccess(replies: seq<bool>, from: nat, limit: int): (r: Option<nat>)
    requires limit <= |replies|
    ensures r.Some? ==> from <= r.value < limit && replies[r.value]
    decreases limit - from
  {
    if limit <= from then None
    else if replies[from] then Some(from)
    else FirstSuccess(replies, from + 1, limit)
  }

  /** Every attempt before the first success failed, and without one every attempt failed. */
  lemma {:induction false} FirstSuccessIsFirst(replies: seq<bool>, from: nat, limit: int)
    requires limit <= |replies|
    ensures var r := FirstSuccess(replies, from, limit);
            && (r.Some? ==> forall j :: from <= j < r.value ==> !replies[j])
            && (r.None? ==> forall j :: from <= j < limit ==> !replies[j])
    decreases limit - from
  {
    if from < limit && !replies[from] {
      FirstSuccessIsFirst(replies, from + 1, limit);
    }
  }

  /** A retry loop bounded by `limit` ends in success. */
  predicate Succeeds(replies: seq<bool>, limit: int)
    requires limit <= |replies|
  {
    FirstSuccess(replies, 0, limit).Some?
  }

  /** A retry loop succeeds exactly when one of its allowed attempts succeeds. */
  lemma SucceedsIffSomeSuccess(replies: seq<bool>, limit: int)
    requires limit <= |replies|
    ensures Succeeds(replies, limit) <==> exists k :: 0 <= k < limit && replies[k]
  {
    FirstSuccessIsFirst(replies, 0, limit);
  }

  /**
   * How many calls a retry loop bounded by `limit` makes: it never makes more
   * than `limit` (none at all when `limit` is not positive), and it stops
   * short of `limit` only on a success.
   */
  function Attempts(replies: seq<bool>, limit: int): (n: nat)
    requires limit <= |replies|
    ensures n <= if limit < 0 then 0 else limit
    ensures 0 < n < limit ==> replies[n - 1]
  {
    match FirstSuccess(replies, 0, limit)
    case Some(k) => k + 1
    case None => if limit < 0 then 0 else limit
  }

  /**
   * Every call but the last one failed, and the loop succeeded exactly when
   * its last call did.
   */
  lemma AttemptsAllButLastFailed(replies: seq<bool>, limit: int)
    requires limit <= |replies|
    ensures var n := Attempts(replies, limit);
            && (forall j :: 0 <= j < n - 1 ==> !replies[j])
            && (Succeeds(replies, limit) <==> 0 < n && replies[n - 1])
  {
    FirstSuccessIsFirst(replies, 0, limit);
  }

  /**
   * The exit state of a retry loop pins down its outcome: after `attempt`
   * failures, stopping on a success before `limit` means attempt + 1 calls
   * and success; running out means `attempt` calls and failure.
   */
  lemma RetryExit(replies: seq<bool>, limit: int, attempt: nat)
    requires limit <= |replies|
    requires attempt <= if limit < 0 then 0 else limit
    requires forall j :: 0 <= j < attempt ==> !replies[j]
    requires attempt < limit ==> replies[attempt]
    ensures Attempts(replies, limit) == if attempt < limit then attempt + 1 else attempt
    ensures Succeeds(replies, limit) <==> attempt < limit
  {
    FirstSuccessIsFirst(replies, 0, limit);
  }

  /** The replies answer every call the two retry loops can make. */
  predicate Scripted(r: StartReplies, retryCount: int)
  {
    retryCount <= |r.init| && retryCount <= |r.rgb|
  }

  /**
   * How far start gets: 0 init failed, 1 colour size negotiation failed,
   * 2 to 5 the depth, IR, label or UV size query failed, 6 all succeeded.
   */
  function StartStage(r: StartReplies, retryCount: int): (n: nat)
    requires Scripted(r, retryCount)
    ensures n <= 6
    ensures n == 0 <==> !Succeeds(r.init, retryCount)
    ensures n == 6 <==> && Succeeds(r.init, retryCount) && Succeeds(r.rgb, retryCount)
                        && r.depthSize.Some? && r.irSize.Some?
                        && r.labelSize.Some? && r.uvSize.Some?
  {
    if !Succeeds(r.init, retryCount) then 0
    else if !Succeeds(r.rgb, retryCount) then 1
    else 2 + SizeStage(r)
  }

  /**
   * How many of the four single-shot size queries (depth, IR, label, UV)
   * succeed before the first one that fails.
   */
  function SizeStage(r: StartReplies): (n: nat)
    ensures n <= 4
    ensures n == 4 <==> r.depthSize.Some? && r.irSize.Some? && r.labelSize.Some? && r.uvSize.Some?
  {
    if r.depthSize.None? then 0
    else if r.irSize.None? then 1
    else if r.labelSize.None? then 2
    else if r.uvSize.None? then 3
    else 4
  }

  /** The four single-shot size queries, in the order start makes them. */
  const SizeQueries := [QueryDepthMapSize, QueryIRMapSize, QueryLabelMapSize, QueryUVMapSize]

  /** How many of the single-shot size queries a start that reaches `stage` makes. */
  function SizeQueriesMade(stage: nat): (n: nat)
    ensures n <= |SizeQueries|
  {
    if stage < 2 then 0 else if stage - 1 < 4 then stage - 1 else 4
  }

  /** The single-shot size queries made once the colour size is known. */
  function SizeQueryEvents(r: StartReplies): seq<Event>
  {
    SizeQueries[..SizeQueriesMade(2 + SizeStage(r))]
  }

  /** The pipeline calls start makes, in order. */
  function StartEvents(r: StartReplies, retryCount: int, mode: int): seq<Event>
    requires Scripted(r, retryCount)
  {
    var stage := StartStage(r, retryCount);
    Repeat(Init(mode), Attempts(r.init, retryCount))
    + (if stage >= 1 then Repeat(QueryRGBSize, Attempts(r.rgb, retryCount)) else [])
    + SizeQueries[..SizeQueriesMade(stage)]
  }

  /** The calls start makes after its init loop. */
  function AfterInitEvents(r: StartReplies, retryCount: int): seq<Event>
    requires Scripted(r, retryCount)
  {
    if Succeeds(r.init, retryCount) then
      Repeat(QueryRGBSize, Attempts(r.rgb, retryCount))
      + (if Succeeds(r.rgb, retryCount) then SizeQueryEvents(r) else [])
    else []
  }

  lemma StartEventsSplit(r: StartReplies, retryCount: int, mode: int)
    requires Scripted(r, retryCount)
    ensures StartEvents(r, retryCount, mode)
         == Repeat(Init(mode), Attempts(r.init, retryCount)) + AfterInitEvents(r, retryCount)
  {
  }

  /** The calls of start split into its three phases, for any kind of call. */
  lemma CountStartEvents(r: StartReplies, retryCount: int, mode: int, p: Event -> bool)
    requires Scripted(r, retryCount)
    ensures var stage := StartStage(r, retryCount);
      Count(StartEvents(r, retryCount, mode), p)
      == Count(Repeat(Init(mode), Attempts(r.init, retryCount)), p)
       + (if stage >= 1 then Count(Repeat(QueryRGBSize, Attempts(r.rgb, retryCount)), p) else 0)
       + Count(SizeQueries[..SizeQueriesMade(stage)], p)
  {
    var stage := StartStage(r, retryCount);
    var inits := Repeat(Init(mode), Attempts(r.init, retryCount));
    var rgbs := if stage >= 1 then Repeat(QueryRGBSize, Attempts(r.rgb, retryCount)) else [];
    var sizes := SizeQueries[..SizeQueriesMade(stage)];
    assert StartEvents(r, retryCount, mode) == inits + rgbs + sizes;
    CountConcat(inits + rgbs, sizes, p);
    CountConcat(inits, rgbs, p);
    assert rgbs == [] ==> Count(rgbs, p) == 0;
  }

  /**
   * start calls PXCUPipeline_Init exactly Attempts(init) times: at most
   * retryCount times, and no more after the first success.
   */
  lemma StartInitCalls(r: StartReplies, retryCount: int, mode: int)
    requires Scripted(r, retryCount)
    ensures Count(StartEvents(r, retryCount, mode), (e: Event) => e.Init?) == Attempts(r.init, retryCount)
  {
    var p := (e: Event) => e.Init?;
    var stage := StartStage(r, retryCount);
    CountStartEvents(r, retryCount, mode, p);
    CountRepeat(Init(mode), Attempts(r.init, retryCount), p);
    CountRepeat(QueryRGBSize, Attempts(r.rgb, retryCount), p);
    NoSizeQueryCounted(SizeQueriesMade(stage), p);
  }

  /**
   * The colour size is queried only after init succeeded, and then exactly
   * Attempts(rgb) times: at most retryCount, none after the first success.
   */
  lemma StartRGBSizeCalls(r: StartReplies, retryCount: int, mode: int)
    requires Scripted(r, retryCount)
    ensures Count(StartEvents(r, retryCount, mode), (e: Event) => e.QueryRGBSize?)
         == if Succeeds(r.init, retryCount) then Attempts(r.rgb, retryCount) else 0
  {
    var p := (e: Event) => e.QueryRGBSize?;
    var stage := StartStage(r, retryCount);
    CountStartEvents(r, retryCount, mode, p);
    CountRepeat(Init(mode), Attempts(r.init, retryCount), p);
    CountRepeat(QueryRGBSize, Attempts(r.rgb, retryCount), p);
    NoSizeQueryCounted(SizeQueriesMade(stage), p);
  }

  /**
   * Each single-shot size query is made at most once, and only if every
   * earlier phase succeeded: a failing query ends start at once.
   */
  lemma StartSizeQueryCalls(r: StartReplies, retryCount: int, mode: int, j: nat)
    requires Scripted(r, retryCount)
    requires j < 4
    ensures Count(StartEvents(r, retryCount, mode), (e: Event) => e == SizeQueries[j])
         == if StartStage(r, retryCount) >= j + 2 then 1 else 0
  {
    var p := (e: Event) => e == SizeQueries[j];
    var made := SizeQueriesMade(StartStage(r, retryCount));
    CountOnlySizeQueries(r, retryCount, mode, p);
    SizeQueryPrefixCount(made, j);
    CountSamePredicate(SizeQueries[..made], p, e => e == SizeQueries[j]);
  }

  /** A kind of call that no size query is counts none of them. */
  lemma NoSizeQueryCounted(n: nat, p: Event -> bool)
    requires n <= |SizeQueries|
    requires forall i :: 0 <= i < |SizeQueries| ==> !p(SizeQueries[i])
    ensures Count(SizeQueries[..n], p) == 0
  {
    CountNone(SizeQueries[..n], p);
  }

  lemma CountOnlySizeQueries(r: StartReplies, retryCount: int, mode: int, p: Event -> bool)
    requires Scripted(r, retryCount)
    requires !p(Init(mode)) && !p(QueryRGBSize)
    ensures Count(StartEvents(r, retryCount, mode), p)
         == Count(SizeQueries[..SizeQueriesMade(StartStage(r, retryCount))], p)
  {
    CountStartEvents(r, retryCount, mode, p);
    CountRepeat(Init(mode), Attempts(r.init, retryCount), p);
    CountRepeat(QueryRGBSize, Attempts(r.rgb, retryCount), p);
  }

  lemma SizeQueryPrefixCount(made: nat, j: nat)
    requires made <= 4 && j < 4
    ensures Count(SizeQueries[..made], e => e == SizeQueries[j]) == if j < made then 1 else 0
  {
    CountDistinct(SizeQueries[..made], SizeQueries[j]);
    assert SizeQueries[j] in SizeQueries[..made] <==> j < made;
  }
}
