/**
 * The per-label tracking update of processGestures, as functions of the
 * values mapXY reads: what each tracked label's state becomes after a frame.
 */
module Tracking {
  import opened Wrappers
  import opened Geometry
  import opened GeoNodes

  /**
   * What mapXY reads from the service: the depth map's row width, the UV
   * map's (u, v) pairs when both the depth and the UV map exist (None
   * otherwise), and the UV map's recorded size.
   */
  datatype UVLookup = UVLookup(depthWidth: nat, uv: Option<seq<real>>, uvSize: MapSize)

  /** The UV pair of the depth pixel under `position` lies inside the UV map. */
  predicate Mappable(m: UVLookup, position: Vec2f)
  {
    m.uv.None?
    || (0 <= PixelIndex(position, m.depthWidth) && 2 * PixelIndex(position, m.depthWidth) + 1 < |m.uv.value|)
  }

  /**
   * mapXY on the values it reads: without both maps the position itself,
   * otherwise the UV pair of the pixel under `position`, scaled by the UV
   * map's size. mapXY never reads outside the UV map (its callers
   * guarantee Mappable), so the position returned for an unmappable pixel
   * is only a placeholder that no service state holds.
   */
  function MapThrough(m: UVLookup, position: Vec2f): Vec2f
  {
    if m.uv.None? || !Mappable(m, position) then position
    else
      var index := PixelIndex(position, m.depthWidth);
      Vec2f(m.uv.value[2 * index] * m.uvSize.width as real, m.uv.value[2 * index + 1] * m.uvSize.height as real)
  }

  /** Every label of `labels` has a (non-null) state. */
  predicate AllHaveState(labels: seq<Label>, states: map<Label, Option<GeoNodeState>>)
  {
    forall l :: l in labels ==> l in states && states[l].Some?
  }

  /**
   * One tracked label's state after a frame: active with the reported node
   * at its mapped position when the frame reports the label, otherwise
   * inactive at the sentinel, keeping the last node it saw.
   */
  function Refresh(l: Label, state: GeoNodeState, nodes: map<Label, GeoNode>, m: UVLookup): GeoNodeState
  {
    if l in nodes then state.(active := true, node := Some(nodes[l]), screen := MapThrough(m, nodes[l].positionImage))
    else state.(active := false, screen := Sentinel)
  }

  /**
   * One pass of the loop body: a label that has a state gets it refreshed in
   * place; a label without one leaves the map as it is.
   */
  function RefreshOne(states: map<Label, Option<GeoNodeState>>, nodes: map<Label, GeoNode>,
                      l: Label, m: UVLookup): map<Label, Option<GeoNodeState>>
  {
    if l in states && states[l].Some? then states[l := Some(Refresh(l, states[l].value, nodes, m))]
    else states
  }

  /** The state map after refreshing `labels` one at a time, in list order. */
  function RefreshedStates(states: map<Label, Option<GeoNodeState>>, nodes: map<Label, GeoNode>,
                           labels: seq<Label>, m: UVLookup): map<Label, Option<GeoNodeState>>
    decreases |labels|
  {
    if labels == [] then states
    else RefreshOne(RefreshedStates(states, nodes, labels[..|labels| - 1], m), nodes, labels[|labels| - 1], m)
  }

  /**
   * A refresh keeps every key, leaves the entries of other labels and the
   * null entries untouched, and makes no entry null.
   */
  lemma {:induction false} RefreshedStatesFrame(states: map<Label, Option<GeoNodeState>>, nodes: map<Label, GeoNode>,
                                                labels: seq<Label>, m: UVLookup)
    ensures var r := RefreshedStates(states, nodes, labels, m);
            && r.Keys == states.Keys
            && (forall l :: l in states && (l !in labels || states[l].None?) ==> r[l] == states[l])
            && (forall l :: l in states && states[l].Some? ==> r[l].Some?)
    decreases |labels|
  {
    if labels != [] {
      var init := labels[..|labels| - 1];
      assert labels == init + [labels[|labels| - 1]];
      RefreshedStatesFrame(states, nodes, init, m);
    }
  }

  /** Refreshing a state a second time with the same frame changes nothing. */
  lemma RefreshTwice(l: Label, state: GeoNodeState, nodes: map<Label, GeoNode>, m: UVLookup)
    ensures Refresh(l, Refresh(l, state, nodes, m), nodes, m) == Refresh(l, state, nodes, m)
  {
  }

  /**
   * Whatever the order of the labels and however often one is listed, a
   * refreshed entry ends up as its old state refreshed once.
   */
  lemma {:induction false} RefreshedStatesAt(states: map<Label, Option<GeoNodeState>>, nodes: map<Label, GeoNode>,
                                             labels: seq<Label>, m: UVLookup, l: Label)
    requires l in labels && l in states && states[l].Some?
    ensures var r := RefreshedStates(states, nodes, labels, m);
            l in r && r[l] == Some(Refresh(l, states[l].value, nodes, m))
    decreases |labels|
  {
    var init := labels[..|labels| - 1];
    var last := labels[|labels| - 1];
    assert labels == init + [last];
    RefreshedStatesFrame(states, nodes, init, m);
    if l in init {
      RefreshedStatesAt(states, nodes, init, m, l);
      if l == last {
        RefreshTwice(l, states[l].value, nodes, m);
      }
    }
  }

  /**
   * After a refresh each refreshed entry is active exactly when the frame
   * reported its label, an active entry holds the reported node at its
   * mapped position, and an inactive one keeps its last node and sits at
   * the sentinel.
   */
  lemma RefreshedStatesOutcome(states: map<Label, Option<GeoNodeState>>, nodes: map<Label, GeoNode>,
                               labels: seq<Label>, m: UVLookup, l: Label)
    requires l in labels && l in states && states[l].Some?
    ensures var r := RefreshedStates(states, nodes, labels, m);
            && l in r && r[l].Some?
            && var s := r[l].value;
            && (s.active <==> l in nodes)
            && (s.active ==> s.node == Some(nodes[l]) && s.screen == MapThrough(m, nodes[l].positionImage))
            && (!s.active ==> s.node == states[l].value.node && s.screen == Sentinel)
            && InactiveAtSentinel(s)
  {
    RefreshedStatesAt(states, nodes, labels, m, l);
  }

  /** Refreshing twice with the same frame is refreshing once. */
  lemma RefreshIdempotent(states: map<Label, Option<GeoNodeState>>, nodes: map<Label, GeoNode>,
                          labels: seq<Label>, m: UVLookup)
    ensures RefreshedStates(RefreshedStates(states, nodes, labels, m), nodes, labels, m)
         == RefreshedStates(states, nodes, labels, m)
  {
    var once := RefreshedStates(states, nodes, labels, m);
    var twice := RefreshedStates(once, nodes, labels, m);
    RefreshedStatesFrame(states, nodes, labels, m);
    RefreshedStatesFrame(once, nodes, labels, m);
    forall l | l in states
      ensures twice[l] == once[l]
    {
      if l in labels && states[l].Some? {
        RefreshedStatesAt(states, nodes, labels, m, l);
        RefreshedStatesAt(once, nodes, labels, m, l);
        RefreshTwice(l, states[l].value, nodes, m);
      }
    }
  }

  /** Refreshing one more label is one more loop pass on top of the earlier refresh. */
  lemma RefreshedStatesStep(states: map<Label, Option<GeoNodeState>>, nodes: map<Label, GeoNode>,
                            labels: seq<Label>, l: Label, m: UVLookup)
    ensures RefreshedStates(states, nodes, labels + [l], m)
         == RefreshOne(RefreshedStates(states, nodes, labels, m), nodes, l, m)
  {
    assert (labels + [l])[..|labels|] == labels;
  }
}
