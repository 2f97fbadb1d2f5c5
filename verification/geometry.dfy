/** Points of the plane and the orientation test used by the hull construction. */
module Geometry {

  /** A point of the plane; the application keeps it as a two-element array {x, y}. */
  datatype Point = Point(x: real, y: real)

  /** Cross product of the vectors o->a and o->b: twice the signed area of the
      triangle (o, a, b). It is positive exactly when o, a, b turn left. */
  function Cross(o: Point, a: Point, b: Point): real
  {
    (a.x - o.x) * (b.y - o.y) - (a.y - o.y) * (b.x - o.x)
  }

  /** o -> a -> b is a strict counter-clockwise turn. */
  predicate LeftTurn(o: Point, a: Point, b: Point)
  {
    Cross(o, a, b) > 0.0
  }

  /** Swapping the two arms of the cross product flips its sign. */
  lemma CrossAntisymmetric(o: Point, a: Point, b: Point)
    ensures Cross(o, a, b) == -Cross(o, b, a)
    ensures LeftTurn(o, a, b) ==> !LeftTurn(o, b, a)
  {
  }

  /** A cross product with an arm of length zero vanishes, so a repeated point
      never makes a left turn. */
  lemma CrossDegenerate(o: Point, a: Point, b: Point)
    ensures a == o ==> Cross(o, a, b) == 0.0
    ensures b == o ==> Cross(o, a, b) == 0.0
    ensures a == b ==> Cross(o, a, b) == 0.0
  {
  }
}
