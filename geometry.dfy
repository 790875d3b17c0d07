/** Values shared by every part of the ruler model: points and sizes in
    integer pixel coordinates, as Qt's QPoint and QSize hold them. */
module Geometry {

  datatype Option<T> = None | Some(value: T)

  /** A pixel position (QPoint). */
  datatype Point = Point(x: int, y: int)

  /** A width and height in pixels (QSize). */
  datatype Size = Size(w: int, h: int)

  function Abs(n: int): (r: nat)
    ensures r == n || r == -n
  {
    if n < 0 then -n else n
  }
}
