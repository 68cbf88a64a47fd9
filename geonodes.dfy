/**
 * The tracking types of PXCUService.h: node labels, the SDK's node and
 * gesture samples, and the per-label GeoNodeState the service maintains.
 */
module GeoNodes {
  import opened Wrappers
  import opened Geometry

  /** PXCGesture::GeoNode::Label: a bit mask naming a body part (hand, finger, ...). */
  type Label = int

  /**
   * A PXCGesture::GeoNode sample. The service only reads its image-space
   * position; the other attributes (world position, normal, openness, ...)
   * are carried along without interpretation.
   */
  datatype GeoNode = GeoNode(positionImage: Vec2f, attributes: seq<real>)

  /** A PXCGesture::Gesture event, handed to the gesture handler as it is. */
  datatype Gesture = Gesture(gestureLabel: Label, attributes: seq<real>)

  /**
   * GeoNodeState: whether the label was found in the last pumped frame, the
   * last node sample stored for it (None until one is found: the C++ struct
   * leaves it uninitialised), and its remapped screen position.
   */
  datatype GeoNodeState = GeoNodeState(active: bool, node: Option<GeoNode>, screen: Vec2f)

  /** The screen position written for a label the pipeline did not report. */
  const Sentinel := Vec2f(-1.0, -1.0)

  /** The default constructor: inactive, no sample, screen at the zero vector. */
  function NewGeoNodeState(): (s: GeoNodeState)
    ensures !s.active && s.node.None? && s.screen == Vec2f(0.0, 0.0)
  {
    GeoNodeState(false, None, Vec2f(0.0, 0.0))
  }

  /** An inactive entry sits at the sentinel position. */
  predicate InactiveAtSentinel(s: GeoNodeState)
  {
    s.active || s.screen == Sentinel
  }

  /**
   * A freshly constructed state is inactive but NOT at the sentinel: the
   * constructor uses the zero vector, so the sentinel only appears once a
   * frame has been pumped.
   */
  lemma NewStateIsNotAtSentinel()
    ensures !NewGeoNodeState().active
    ensures !InactiveAtSentinel(NewGeoNodeState())
  {
  }
}
