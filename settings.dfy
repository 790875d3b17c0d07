/** The persisted settings and the window geometry they restore: range
    checks of the stored integers, the values written back on close, the
    fixed window size and the clamping of a negative top-left corner. */
module Settings {
  import opened Geometry

  /** The base ruler dimensions: long axis 600 and short axis 70 pixels. */
  const SX := 600
  const SY := 70

  const ZoomKey := "GUI/Zoom"
  const OrientationKey := "GUI/Orientation"
  const SizeKey := "GUI/Size"
  const UnitKey := "GUI/UnitMeasure"

  /** Exclusive upper bounds of the range checks. The size bound is the
      length of the colour list (four entries, the last being "Default
      Colors"); the unit bound is the length of the unit table. */
  const ZoomBound := 2
  const OrientationBound := 2
  const SizeBound := 4
  const UnitBound := 5

  /** What the settings store holds: integer values by key, and the saved
      window position. Colours are not part of this model. */
  datatype Stored = Stored(ints: map<string, int>, position: Option<Point>)

  /** A persisted integer is accepted when it lies in range(1, bound). */
  function Accept(ints: map<string, int>, key: string, bound: int): (r: Option<int>)
    ensures r.Some? <==> key in ints && 1 <= ints[key] < bound
    ensures r.Some? ==> r.value == ints[key] && 1 <= r.value < bound
  {
    if key in ints && 1 <= ints[key] < bound then Some(ints[key]) else None
  }

  /** The attributes the startup loop sets. The zoom key is written to an
      attribute `mode` that nothing else reads, so zoom itself is not
      restored; the others keep their default 0 when rejected. */
  datatype Restored = Restored(mode: Option<int>, oH: int, rulerSize: int, unitIndex: int)

  function Restore(st: Stored): (r: Restored)
    ensures r.mode == None || r.mode == Some(1)
    ensures r.mode == Accept(st.ints, ZoomKey, ZoomBound)
    ensures OrientationKey in st.ints && 1 <= st.ints[OrientationKey] < OrientationBound ==> r.oH == st.ints[OrientationKey]
    ensures SizeKey in st.ints && 1 <= st.ints[SizeKey] < SizeBound ==> r.rulerSize == st.ints[SizeKey]
    ensures UnitKey in st.ints && 1 <= st.ints[UnitKey] < UnitBound ==> r.unitIndex == st.ints[UnitKey]
    ensures 0 <= r.oH < OrientationBound && 0 <= r.rulerSize < SizeBound && 0 <= r.unitIndex < UnitBound
    ensures r.oH != 0 ==> OrientationKey in st.ints && st.ints[OrientationKey] == r.oH
    ensures r.rulerSize != 0 ==> SizeKey in st.ints && st.ints[SizeKey] == r.rulerSize
    ensures r.unitIndex != 0 ==> UnitKey in st.ints && st.ints[UnitKey] == r.unitIndex
  {
    var mode := Accept(st.ints, ZoomKey, ZoomBound);
    var oH := Accept(st.ints, OrientationKey, OrientationBound);
    var size := Accept(st.ints, SizeKey, SizeBound);
    var unit := Accept(st.ints, UnitKey, UnitBound);
    Restored(mode,
             if oH.Some? then oH.value else 0,
             if size.Some? then size.value else 0,
             if unit.Some? then unit.value else 0)
  }

  /** What the close handler writes. */
  function Save(zoom: int, oH: int, pos: Point, rulerSize: int, unitIndex: int): (st: Stored)
    ensures st.ints.Keys == {ZoomKey, OrientationKey, SizeKey, UnitKey}
    ensures st.ints[ZoomKey] == zoom && st.ints[OrientationKey] == oH
    ensures st.ints[SizeKey] == rulerSize && st.ints[UnitKey] == unitIndex
    ensures st.position == Some(pos)
  {
    Stored(map[ZoomKey := zoom, OrientationKey := oH, SizeKey := rulerSize, UnitKey := unitIndex], Some(pos))
  }

  /** Saving and restoring gives back orientation, size and unit exactly;
      zoom is lost (it lands in `mode`, and only as 1). */
  lemma SaveRestore(zoom: int, oH: int, pos: Point, rulerSize: int, unitIndex: int)
    requires 0 <= zoom <= 3 && 0 <= oH <= 1 && 0 <= rulerSize <= 3 && 0 <= unitIndex <= 4
    ensures Restore(Save(zoom, oH, pos, rulerSize, unitIndex)) ==
      Restored(if zoom == 1 then Some(1) else None, oH, rulerSize, unitIndex)
    ensures Save(zoom, oH, pos, rulerSize, unitIndex).position == Some(pos)
  {
    var ints := Save(zoom, oH, pos, rulerSize, unitIndex).ints;
    assert ints[ZoomKey] == zoom;
    assert ints[OrientationKey] == oH;
    assert ints[SizeKey] == rulerSize;
    assert ints[UnitKey] == unitIndex;
  }

  /** The size set by a ruler-size change: both axes scaled, whatever the
      orientation. */
  function ScaledSize(scale: int): (r: Size)
    ensures r.w == SX * (scale + 1) && r.h == SY * (scale + 1)
    ensures r.w * SY == r.h * SX
  {
    Size(SX * (scale + 1), SY * (scale + 1))
  }

  /** The size set by an orientation change: the long axis 600 * (size + 1)
      along the orientation, the short axis 70. */
  function OrientedSize(orientation: int, rulerSize: int): (r: Size)
    ensures (if orientation == 0 then r.w else r.h) == SX * (rulerSize + 1)
    ensures (if orientation == 0 then r.h else r.w) == SY
  {
    if orientation == 0 then Size(SX * (rulerSize + 1), SY) else Size(SY, SX * (rulerSize + 1))
  }

  /** After a size change a vertical ruler takes the horizontal shape: its
      height, the long axis it ticks along, is only 70 * (size + 1). */
  lemma ScaledSizeIgnoresOrientation(scale: int)
    requires 0 <= scale <= 3
    ensures ScaledSize(scale).h == SY * (scale + 1) < OrientedSize(1, scale).h
    ensures ScaledSize(scale) == OrientedSize(0, scale) <==> scale == 0
  {
  }

  /** A negative top or left edge is moved to 0; a nonnegative one stays. */
  function ClampTopLeft(p: Point): (q: Point)
    ensures q.x >= 0 && q.y >= 0
    ensures p.x >= 0 ==> q.x == p.x
    ensures p.y >= 0 ==> q.y == p.y
    ensures p.x < 0 ==> q.x == 0
    ensures p.y < 0 ==> q.y == 0
  {
    Point(if p.x < 0 then 0 else p.x, if p.y < 0 then 0 else p.y)
  }

  /** The first position without a saved one: the desktop's centre point
      minus the centre point of the window's own rectangle, QRect centres
      being ((left + right) / 2, (top + bottom) / 2) with right = width - 1. */
  function CenteredOrigin(desktopCenter: Point, size: Size): (o: Point)
    requires size.w >= 1 && size.h >= 1
    ensures (o.x + (o.x + size.w - 1)) / 2 == desktopCenter.x
    ensures (o.y + (o.y + size.h - 1)) / 2 == desktopCenter.y
  {
    Point(desktopCenter.x - (size.w - 1) / 2, desktopCenter.y - (size.h - 1) / 2)
  }
}
