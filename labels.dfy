/** The cursor indicator: a dashed line across the ruler at the cursor's
    long-axis coordinate and, in pixel mode, a label carrying that coordinate,
    clamped so that it stays inside the ruler. Positions use reals because
    the placement halves the label's extent. */
module CursorLabel {
  import opened Geometry

  /** Width and height of the label text's tight bounding rectangle, as the
      font metrics report them. */
  datatype Extent = Extent(w: nat, h: nat)

  datatype Rect = Rect(left: real, top: real, width: real, height: real)

  /** A label: the number shown, the text origin (left end of the baseline)
      and the background box, drawn only when zoom is off. */
  datatype Label = Label(text: int, x: real, y: real, box: Option<Rect>)

  /** The indicator at long-axis coordinate `coord`, with its label in pixel
      mode. */
  datatype Indicator = Indicator(coord: int, readout: Option<Label>)

  function Half(n: int): real {
    n as real / 2.0
  }

  /** Start of the label on a horizontal ruler of the given width: pinned at
      2 when centring would pass the left edge, ending 2 pixels before the
      right edge when centring would pass it, centred on the cursor
      otherwise. */
  function LabelStartX(cx: int, e: Extent, width: int): (x: real)
    ensures width >= e.w + 4 ==> 1.0 <= x && x + e.w as real <= width as real - 2.0
    ensures cx as real - Half(e.w) >= 1.0 && cx as real + Half(e.w) + 2.0 <= width as real ==>
      x + Half(e.w) == cx as real
  {
    if cx as real - Half(e.w) < 1.0 then 2.0
    else if cx as real + Half(e.w) + 2.0 > width as real then width as real - e.w as real - 2.0
    else cx as real - Half(e.w)
  }

  /** Baseline of the label on a vertical ruler of the given height: the
      text's top at 2 when centring would pass the top edge, the baseline
      half a text height above the bottom edge when centring would pass it,
      centred on the cursor otherwise. */
  function LabelBaselineY(cy: int, e: Extent, height: int): (y: real)
    ensures height as real >= 3.0 * Half(e.h) + 2.0 ==> 1.0 <= y - e.h as real && y <= height as real
    ensures cy as real - Half(e.h) >= 1.0 && cy as real + Half(e.h) + 2.0 <= height as real ==>
      y - Half(e.h) == cy as real
  {
    if cy as real - Half(e.h) < 1.0 then e.h as real + 2.0
    else if cy as real + Half(e.h) + 2.0 > height as real then height as real - Half(e.h)
    else cy as real + Half(e.h)
  }

  /** The indicator drawn for the local point cp on a ruler of the given size:
      only the dashed line outside pixel mode; in pixel mode a label clamped
      along the long axis and centred across the short one, with a box that
      pads the text by 2 pixels on each side unless zoom is on. */
  function CursorIndicator(unitIndex: int, zoom: int, vertical: bool, cp: Point, width: int, height: int, e: Extent): (ind: Indicator)
    ensures ind.coord == (if vertical then cp.y else cp.x)
    ensures ind.readout.Some? <==> unitIndex == 0
    ensures ind.readout.Some? ==> ind.readout.value.text == ind.coord
    ensures ind.readout.Some? ==> (ind.readout.value.box.Some? <==> zoom == 0)
    ensures ind.readout.Some? && ind.readout.value.box.Some? ==>
      var l := ind.readout.value;
      l.box.value == Rect(l.x - 2.0, l.y - e.h as real - 2.0, e.w as real + 4.0, e.h as real + 4.0)
    ensures ind.readout.Some? && !vertical ==> ind.readout.value.y - Half(e.h) == Half(height)
    ensures ind.readout.Some? && vertical ==> ind.readout.value.x + Half(e.w) == Half(width)
    ensures ind.readout.Some? && !vertical && width >= e.w + 4 ==>
      1.0 <= ind.readout.value.x && ind.readout.value.x + e.w as real <= width as real - 2.0
    ensures ind.readout.Some? && vertical && height as real >= 3.0 * Half(e.h) + 2.0 ==>
      1.0 <= ind.readout.value.y - e.h as real && ind.readout.value.y <= height as real
  {
    var coord := if vertical then cp.y else cp.x;
    if unitIndex != 0 then Indicator(coord, None)
    else if vertical then
      var y := LabelBaselineY(cp.y, e, height);
      var box := if zoom == 0 then Some(Rect((Half(width) - Half(e.w)) - 2.0, y - e.h as real - 2.0, e.w as real + 4.0, e.h as real + 4.0)) else None;
      Indicator(coord, Some(Label(cp.y, Half(width) - Half(e.w), y, box)))
    else
      var x := LabelStartX(cp.x, e, width);
      var box := if zoom == 0 then Some(Rect(x - 2.0, (Half(height) - Half(e.h)) - 2.0, e.w as real + 4.0, e.h as real + 4.0)) else None;
      Indicator(coord, Some(Label(cp.x, x, Half(height) + Half(e.h), box)))
  }
}
