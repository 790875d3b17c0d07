/** The ruler window: its state, the handlers that change it (keys, mouse,
    menu choices, cursor polling) and the paint routine's choice of what to
    draw. */
module RulerWindow {
  import opened Geometry
  import opened Ticks
  import opened CursorLabel
  import opened Nudge
  import opened Marks
  import opened Settings

  /** What one paint draws: the zoom snapshot scaled by zoom + 1, a plain
      background fill while a zoomed ruler is dragged, or the ruler face
      with its tick ladder, cursor indicator and mark indicators. */
  datatype Frame =
    | SnapshotBlit(scale: int)
    | PlainFill
    | Face(ticks: seq<Draw>, cursor: Option<Indicator>, marks: seq<Indicator>)

  /** The cursor handler's hit test: the global sample lies within the
      window's columns [left, right] on a horizontal ruler, within its rows
      [top, bottom] on a vertical one (Qt's right() and bottom() are the
      last pixel, left + width - 1 and top + height - 1). */
  predicate InSensitiveRange(vertical: bool, sample: Point, origin: Point, size: Size)
    ensures InSensitiveRange(vertical, sample, origin, size) <==>
      if vertical then origin.y <= sample.y < origin.y + size.h else origin.x <= sample.x < origin.x + size.w
  {
    (!vertical && origin.x <= sample.x && sample.x <= origin.x + size.w - 1) ||
    (vertical && origin.y <= sample.y && sample.y <= origin.y + size.h - 1)
  }

  /** The paint routine's range test on the cursor's local coordinate. */
  predicate OnRuler(vertical: bool, local: Point, size: Size)
    ensures OnRuler(vertical, local, size) <==>
      if vertical then 0 <= local.y < size.h else 0 <= local.x < size.w
  {
    ((vertical && local.y > -1) || (!vertical && local.x > -1)) &&
    ((vertical && local.y < size.h) || (!vertical && local.x < size.w))
  }

  /** The two range tests agree: the paint routine shows the indicator for
      exactly the samples the cursor handler repaints for. */
  lemma HitTestAgrees(vertical: bool, sample: Point, origin: Point, size: Size)
    ensures OnRuler(vertical, Point(sample.x - origin.x, sample.y - origin.y), size) <==>
      InSensitiveRange(vertical, sample, origin, size)
  {
  }

  /** The indicators for a sequence of local points, in order. */
  function IndicatorsFor(unitIndex: int, zoom: int, vertical: bool, ps: seq<Point>, width: int, height: int, extentOf: int -> Extent): (r: seq<Indicator>)
    ensures |r| == |ps|
    ensures forall k :: 0 <= k < |ps| ==>
      r[k] == CursorIndicator(unitIndex, zoom, vertical, ps[k], width, height, extentOf(if vertical then ps[k].y else ps[k].x))
  {
    if |ps| == 0 then []
    else
      var p := ps[|ps| - 1];
      IndicatorsFor(unitIndex, zoom, vertical, ps[..|ps| - 1], width, height, extentOf) +
        [CursorIndicator(unitIndex, zoom, vertical, p, width, height, extentOf(if vertical then p.y else p.x))]
  }

  class Ruler {
    /** Top-left corner of the window on the screen. */
    var pos: Point
    var width: int
    var height: int
    /** Orientation: 0 horizontal, 1 vertical. */
    var oH: int
    var rulerSize: int
    var unitIndex: int
    var zoom: int
    /** The attribute the zoom setting is restored into. */
    var mode: Option<int>
    /** Time of the last accepted arrow-key press, in seconds. */
    var csec: real
    /** Whether the left button is held for a drag. */
    var moving: bool
    /** Whether a background snapshot is held. */
    var snapshot: bool
    /** The double-click marks, oldest first, in window coordinates. */
    var marks: seq<Point>
    /** The last cursor sample, in screen coordinates. */
    var cursor: Option<Point>
    /** Whether the context menu is open. */
    var menuOpen: bool
    const dpiX: int
    const dpiY: int
    /** Bottom-right pixel of the primary screen. */
    const screen: Point

    /** The settings fields are in range, the window has the size an
        orientation change or a size change gave it, and a snapshot is held
        only while zoomed. */
    ghost predicate Settled()
      reads this`oH, this`rulerSize, this`unitIndex, this`zoom, this`width, this`height, this`snapshot
    {
      0 <= oH <= 1 && 0 <= rulerSize <= 3 && 0 <= unitIndex <= 4 && 0 <= zoom <= 3 &&
      (Size(width, height) == OrientedSize(oH, rulerSize) || Size(width, height) == ScaledSize(rulerSize)) &&
      (snapshot ==> zoom != 0) &&
      dpiX > 0 && dpiY > 0
    }

    /** Besides, the mark buffer holds at most one point between handlers
        (a handler's nested event loop is not part of this model). */
    ghost predicate Valid()
      reads this
    {
      Settled() && |marks| <= 1
    }

    /** Extent of the long axis, along which the ticks run. */
    function LongAxis(): (r: int)
      reads this
      ensures r == (if oH != 0 then height else width)
      ensures Valid() ==> r >= SY
    {
      if oH != 0 then height else width
    }

    /** The DPI of the long axis, which sets the unit spacing. */
    function AxisDpi(): (r: int)
      reads this
      ensures r == (if oH != 0 then dpiY else dpiX)
      ensures Valid() ==> r > 0
    {
      if oH != 0 then dpiY else dpiX
    }

    /** A screen point in window coordinates. */
    function Local(p: Point): (q: Point)
      reads this
      ensures Point(q.x + pos.x, q.y + pos.y) == p
    {
      Point(p.x - pos.x, p.y - pos.y)
    }

    /** Whether paint draws the cursor indicator: a sample is held, the menu
        is closed and the sample's local coordinate lies on the ruler. */
    predicate ShowsCursor()
      reads this
      ensures ShowsCursor() <==>
        cursor.Some? && !menuOpen && InSensitiveRange(oH != 0, cursor.value, pos, Size(width, height))
    {
      cursor.Some? && !menuOpen && OnRuler(oH != 0, Local(cursor.value), Size(width, height))
    }

    function SavedSettings(): Stored
      reads this
    {
      Save(zoom, oH, pos, rulerSize, unitIndex)
    }

    /** Start-up: restore the range-checked settings, size and orient the
        window, place it at the saved position or centred on the desktop. */
    constructor (stored: Stored, dpiX: int, dpiY: int, screen: Point, desktopCenter: Point, now: real)
      requires dpiX > 0 && dpiY > 0
      ensures Valid()
      ensures var r := Restore(stored);
        mode == r.mode && oH == r.oH && rulerSize == r.rulerSize && unitIndex == r.unitIndex
      ensures zoom == 0 && !snapshot && marks == [] && cursor == None && !moving && !menuOpen && csec == now
      ensures Size(width, height) == OrientedSize(oH, rulerSize)
      ensures pos == if stored.position.Some? then stored.position.value
                     else CenteredOrigin(desktopCenter, Size(width, height))
      ensures this.dpiX == dpiX && this.dpiY == dpiY && this.screen == screen
    {
      this.dpiX, this.dpiY, this.screen := dpiX, dpiY, screen;
      cursor, csec, moving, snapshot, marks, menuOpen := None, now, false, false, [], false;
      zoom := 0;
      var r := Restore(stored);
      mode, oH, unitIndex := r.mode, r.oH, r.unitIndex;
      // the restored size reaches rulerSize through the size change below;
      // the window's size before it plays no part
      rulerSize, width, height := 0, SX, SY;
      pos := Point(0, 0);
      new;
      ChangeRulerSize(r.rulerSize);
      ChangeOrientation(oH);
      if stored.position.Some? {
        pos := stored.position.value;
      } else {
        pos := CenteredOrigin(desktopCenter, Size(width, height));
      }
      SaveBackground();
    }

    /** Captures the background only when zoom is on. */
    method SaveBackground()
      requires Valid()
      modifies this`snapshot
      ensures Valid()
      ensures snapshot == (old(snapshot) || zoom != 0)
    {
      if zoom != 0 {
        snapshot := true;
      }
    }

    method ChangeMode(z: int)
      requires Valid() && 0 <= z <= 3
      modifies this`zoom, this`snapshot, this`marks
      ensures Valid()
      ensures zoom == z && !snapshot && marks == []
    {
      zoom := z;
      snapshot := false;
      marks := [];
    }

    method ChangeRulerSize(scale: int)
      requires Valid() && 0 <= scale <= 3
      modifies this`rulerSize, this`width, this`height
      ensures Valid()
      ensures rulerSize == scale && Size(width, height) == ScaledSize(scale)
    {
      rulerSize := scale;
      width, height := ScaledSize(scale).w, ScaledSize(scale).h;
    }

    /** A unit change keeps the marks. */
    method ChangeUnitMeasure(u: int)
      requires Valid() && 0 <= u <= 4
      modifies this`unitIndex
      ensures Valid()
      ensures unitIndex == u && marks == old(marks)
    {
      unitIndex := u;
    }

    method ChangeOrientation(orientation: int)
      requires Valid() && 0 <= orientation <= 1
      modifies this`marks, this`width, this`height, this`oH, this`pos
      ensures Valid()
      ensures marks == [] && oH == orientation
      ensures Size(width, height) == OrientedSize(orientation, rulerSize)
      ensures pos == ClampTopLeft(old(pos))
    {
      marks := [];
      width, height := OrientedSize(orientation, rulerSize).w, OrientedSize(orientation, rulerSize).h;
      oH := orientation;
      if pos.y < 0 {
        pos := pos.(y := 0);
      }
      if pos.x < 0 {
        pos := pos.(x := 0);
      }
    }

    /** One timer tick: a sample equal to the stored cursor changes nothing;
        another is stored and passed to the cursor handler. */
    method PollCursor(sample: Point) returns (repaint: bool)
      requires Valid()
      modifies this`cursor
      ensures Valid()
      ensures old(cursor) == Some(sample) ==> cursor == old(cursor) && !repaint
      ensures old(cursor) != Some(sample) ==>
        repaint == InSensitiveRange(oH != 0, sample, pos, Size(width, height)) &&
        cursor == (if repaint then Some(sample) else None)
    {
      repaint := false;
      if cursor != Some(sample) {
        cursor := Some(sample);
        repaint := HandleCursorMove(sample);
      }
    }

    /** Repaints for a sample within the sensitive range, forgets the cursor
        otherwise. */
    method HandleCursorMove(p: Point) returns (repaint: bool)
      requires Valid()
      modifies this`cursor
      ensures Valid()
      ensures repaint == InSensitiveRange(oH != 0, p, pos, Size(width, height))
      ensures cursor == if repaint then old(cursor) else None
    {
      if InSensitiveRange(oH != 0, p, pos, Size(width, height)) {
        repaint := true;
      } else {
        repaint := false;
        cursor := None;
      }
    }

    /** The close handler: the values written to the settings store. */
    method CloseEvent() returns (saved: Stored)
      requires Valid()
      ensures saved == SavedSettings()
      ensures Restore(saved) == Restored(if zoom == 1 then Some(1) else None, oH, rulerSize, unitIndex)
    {
      saved := Save(zoom, oH, pos, rulerSize, unitIndex);
      SaveRestore(zoom, oH, pos, rulerSize, unitIndex);
    }

    /** Escape closes (returning what is saved); an arrow press more than a
        second after the last accepted one nudges the window, records the
        time and recaptures the background; anything else changes nothing. */
    method KeyPress(key: Key, mods: set<Modifier>, now: real) returns (saved: Option<Stored>)
      requires Valid()
      modifies this`pos, this`csec, this`snapshot
      ensures Valid()
      ensures saved == if key == Escape then Some(SavedSettings()) else None
      ensures IsArrow(key) && now > old(csec) + 1.0 ==>
        pos == Nudged(key, Step(mods), old(pos), Size(width, height), screen) &&
        csec == now && snapshot == (old(snapshot) || zoom != 0)
      ensures !(IsArrow(key) && now > old(csec) + 1.0) ==>
        pos == old(pos) && csec == old(csec) && snapshot == old(snapshot)
    {
      saved := None;
      if key == Escape {
        var s := CloseEvent();
        saved := Some(s);
      } else if IsArrow(key) {
        if now > csec + 1.0 {
          var step := Step(mods);
          pos := Nudged(key, step, pos, Size(width, height), screen);
          csec := now;
          SaveBackground();
        }
      }
    }

    /** In pixel mode a double-click records the point; the second point
        reports the distance to the first and clears the marks. */
    method MouseDoubleClick(p: Point) returns (report: Option<nat>)
      requires Valid()
      modifies this`marks
      ensures Valid()
      ensures unitIndex != 0 ==> marks == old(marks) && report == None
      ensures unitIndex == 0 && |old(marks)| == 0 ==> marks == [p] && report == None
      ensures unitIndex == 0 && |old(marks)| == 1 ==>
        marks == [] && report == Some(Distance(oH != 0, old(marks)[0], p))
    {
      report := None;
      if unitIndex == 0 {
        var q := Append(marks, p);
        if |q| == 2 {
          report := Some(Distance(oH != 0, q[0], p));
          marks := [];
        } else {
          marks := q;
        }
      }
    }

    method MousePress(left: bool)
      requires Valid()
      modifies this`moving
      ensures Valid()
      ensures moving == (left || old(moving))
    {
      if left {
        moving := true;
      }
    }

    /** Releasing the left button ends the drag and recaptures the
        background. */
    method MouseRelease(left: bool)
      requires Valid()
      modifies this`moving, this`snapshot
      ensures Valid()
      ensures left ==> !moving && snapshot == (old(snapshot) || zoom != 0)
      ensures !left ==> moving == old(moving) && snapshot == old(snapshot)
    {
      if left {
        SaveBackground();
        moving := false;
      }
    }

    /** A drag step clears the marks and moves the window to `target`, the
        position the windowing system derives from the pointer. */
    method MouseMove(target: Point)
      requires Valid()
      modifies this`marks, this`pos
      ensures Valid()
      ensures marks == [] && pos == target
    {
      marks := [];
      pos := target;
    }

    method OpenMenu()
      requires Valid()
      modifies this`menuOpen
      ensures Valid() && menuOpen
    {
      menuOpen := true;
    }

    method CloseMenu()
      requires Valid()
      modifies this`menuOpen
      ensures Valid() && !menuOpen
    {
      menuOpen := false;
    }

    /** The paint routine. With zoom on it draws the snapshot (capturing one
        first when none is held) unless a drag is under way, when it only
        fills the background; with zoom off it draws the tick ladder, the
        cursor indicator and, in pixel mode, the marks. `extentOf` gives the
        font metrics of a number's text. */
    method Paint(extentOf: int -> Extent) returns (f: Frame)
      requires Valid()
      requires zoom == 0 && unitIndex == CentimeterUnit ==> AxisDpi() >= 2
      modifies this`snapshot
      ensures Valid()
      ensures zoom != 0 && !moving ==> f == SnapshotBlit(zoom + 1) && snapshot
      ensures zoom != 0 && moving ==> f == PlainFill && snapshot == old(snapshot)
      ensures zoom == 0 ==> snapshot == old(snapshot) && Drawable(unitIndex, UnitSpacing(unitIndex, AxisDpi()))
      ensures zoom == 0 ==>
        f == Face(Ladder(LongAxis(), unitIndex, UnitSpacing(unitIndex, AxisDpi()), Abbrev(unitIndex), dpiX),
                  if ShowsCursor() then
                    var local := Local(cursor.value);
                    Some(CursorIndicator(unitIndex, zoom, oH != 0, local, width, height, extentOf(if oH != 0 then local.y else local.x)))
                  else None,
                  if unitIndex == 0 then IndicatorsFor(unitIndex, zoom, oH != 0, marks, width, height, extentOf) else [])
      ensures f.Face? && f.cursor.Some? && f.cursor.value.readout.Some? ==> f.cursor.value.readout.value.box.Some?
      ensures f.Face? ==> forall k :: 0 <= k < |f.marks| ==>
        f.marks[k].readout.Some? && f.marks[k].readout.value.box.Some?
    {
      if zoom != 0 {
        if !moving {
          if !snapshot {
            SaveBackground();
          }
          f := SnapshotBlit(zoom + 1);
        } else {
          f := PlainFill;
        }
      } else {
        var s := UnitSpacing(unitIndex, AxisDpi());
        if unitIndex == CentimeterUnit {
          CentimeterDrawable(AxisDpi());
        }
        var ticks := PaintTicks(LongAxis(), unitIndex, s, Abbrev(unitIndex), dpiX);
        var shown: Option<Indicator> := None;
        if ShowsCursor() {
          var local := Local(cursor.value);
          shown := Some(CursorIndicator(unitIndex, zoom, oH != 0, local, width, height, extentOf(if oH != 0 then local.y else local.x)));
        }
        var ms: seq<Indicator> := [];
        if unitIndex == 0 {
          for k := 0 to |marks|
            invariant ms == IndicatorsFor(unitIndex, zoom, oH != 0, marks[..k], width, height, extentOf)
          {
            var m := marks[k];
            assert marks[..k + 1][..k] == marks[..k];
            ms := ms + [CursorIndicator(unitIndex, zoom, oH != 0, m, width, height, extentOf(if oH != 0 then m.y else m.x))];
          }
          assert marks[..|marks|] == marks;
        }
        f := Face(ticks, shown, ms);
      }
    }
  }
}
