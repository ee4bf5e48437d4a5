/**
 * Face landmarks as delivered by the face-mesh detector: one ordered list of
 * normalized points per detected face, whose positions carry fixed meaning.
 */
module Landmarks {
  import opened Wrappers

  /** One tracked point; the depth coordinate is never read and is not kept. */
  datatype Point = Point(x: real, y: real)

  datatype Axis = X | Y

  /** All points reported for one face in one frame. */
  type LandmarkSet = seq<Point>

  function Coord(p: Point, axis: Axis): real
  {
    match axis
    case X => p.x
    case Y => p.y
  }

  /**
   * The position in `order` of the first index that a set of `n` points does
   * not have, or None when every index in `order` is present. Reading the
   * coordinates in the order `order` lists them, this is the read that fails.
   */
  function FirstMissing(order: seq<nat>, n: nat): (r: Option<nat>)
    ensures r.None? <==> forall j :: 0 <= j < |order| ==> order[j] < n
    ensures r.Some? ==> r.value < |order| && n <= order[r.value]
    ensures r.Some? ==> forall j :: 0 <= j < r.value ==> order[j] < n
  {
    if |order| == 0 then None
    else if n <= order[0] then Some(0)
    else match FirstMissing(order[1..], n)
      case None => None
      case Some(k) => Some(k + 1)
  }
}
