/** The double-click mark buffer: a deque of capacity 2 holding points for a
    two-click distance measurement. */
module Marks {
  import opened Geometry

  const Capacity := 2

  /** Appending to a deque of maximum length 2: the result is the last
      min(|q| + 1, 2) elements of q + [p], so a full deque drops its oldest
      point. */
  function Append(q: seq<Point>, p: Point): (r: seq<Point>)
    requires |q| <= Capacity
    ensures |r| == if |q| + 1 < Capacity then |q| + 1 else Capacity
    ensures r == (q + [p])[|q| + 1 - |r|..]
  {
    if |q| < Capacity then q + [p] else [q[1], p]
  }

  /** The distance reported for two marks: the absolute difference of the y
      coordinates on a vertical ruler, of the x coordinates otherwise. */
  function Distance(vertical: bool, first: Point, second: Point): (d: nat)
    ensures d == 0 <==> (if vertical then first.y == second.y else first.x == second.x)
  {
    if vertical then Abs(second.y - first.y) else Abs(second.x - first.x)
  }

  /** The distance does not depend on the order of the two marks. */
  lemma DistanceSymmetric(vertical: bool, a: Point, b: Point)
    ensures Distance(vertical, a, b) == Distance(vertical, b, a)
  {
  }

  /** Appending a third point to a full deque keeps the second and the third. */
  lemma AppendEvictsOldest(a: Point, b: Point, c: Point)
    ensures Append(Append(Append([], a), b), c) == [b, c]
  {
  }

  /** Double-clicking (50, 0) and then (50, 80): the report is 80 on a
      vertical ruler, and 0 on a horizontal one, which measures x. */
  lemma DistanceExample()
    ensures Distance(true, Point(50, 0), Point(50, 80)) == 80
    ensures Distance(false, Point(50, 0), Point(50, 80)) == 0
  {
  }
}
