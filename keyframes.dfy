/**
 * Keyframe curves, held as opaque values. How a curve is interpolated
 * (Keyframe::GetValue) is not part of this model: callers pass the evaluation in
 * as a function from a curve and a frame number to its value.
 */
module Keyframes {

  datatype KeyPoint = KeyPoint(frame: int, value: real)

  datatype Keyframe = Keyframe(points: seq<KeyPoint>)

  /** Evaluates a keyframe curve at a frame number. */
  type Evaluator = (Keyframe, int) -> real

  /** The curve Keyframe(double) builds: a single point holding the value. */
  function Constant(v: real): Keyframe
  {
    Keyframe([KeyPoint(1, v)])
  }

  /** An evaluator under which a single-point curve is flat. */
  ghost predicate HoldsConstants(eval: Evaluator)
  {
    forall v: real, n: int :: eval(Constant(v), n) == v
  }
}
