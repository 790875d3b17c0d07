/** Arrow-key nudging of the ruler window: where one accepted arrow press
    moves the window's top-left corner. */
module Nudge {
  import opened Geometry

  datatype Key = Escape | Left | Right | Up | Down | OtherKey

  /** Keyboard modifiers as Qt reports them with a key press. */
  datatype Modifier = ShiftModifier | ControlModifier | AltModifier | MetaModifier | KeypadModifier

  predicate IsArrow(k: Key) {
    k.Left? || k.Right? || k.Up? || k.Down?
  }

  /** The nudge step: 10 pixels when the modifiers are exactly Control,
      1 otherwise. */
  function Step(mods: set<Modifier>): (step: int)
    ensures step == 1 || step == 10
    ensures step == 10 <==> mods == {ControlModifier}
  {
    if mods == {ControlModifier} then 10 else 1
  }

  /** The top-left corner after an arrow press with the given step, for a
      window of the given size and the primary screen's bottom-right pixel
      `screen`. Left and Up move only when the coordinate is at least the
      step; Right and Down only when the window's far edge, before the move,
      is within the screen's bottom-right coordinate. */
  function Nudged(key: Key, step: int, p: Point, size: Size, screen: Point): (q: Point)
    requires step >= 1
    ensures q.x == p.x || q.y == p.y
    ensures q == p || Abs(q.x - p.x) + Abs(q.y - p.y) == step
    ensures p.x >= 0 ==> q.x >= 0
    ensures p.y >= 0 ==> q.y >= 0
    ensures q.x < p.x ==> key == Left
    ensures q.x > p.x ==> key == Right && p.x + size.w <= screen.x
    ensures q.y < p.y ==> key == Up
    ensures q.y > p.y ==> key == Down && p.y + size.h <= screen.y
  {
    if key == Left && p.x >= step then Point(p.x - step, p.y)
    else if key == Right && p.x + size.w <= screen.x then Point(p.x + step, p.y)
    else if key == Up && p.y >= step then Point(p.x, p.y - step)
    else if key == Down && p.y + size.h <= screen.y then Point(p.x, p.y + step)
    else p
  }

  /** A press moves the window exactly when its direction's guard holds. */
  lemma NudgeMovesIff(key: Key, step: int, p: Point, size: Size, screen: Point)
    requires step >= 1
    ensures Nudged(key, step, p, size, screen) != p <==>
      (key == Left && p.x >= step) || (key == Right && p.x + size.w <= screen.x) ||
      (key == Up && p.y >= step) || (key == Down && p.y + size.h <= screen.y)
  {
  }

  /** The Right/Down guard tests the edge before the move, so the window can
      end up to step - 1 pixels past the screen and no further: once its far
      edge is within screen + step, it stays there. */
  lemma NudgeFarEdgeBound(key: Key, step: int, p: Point, size: Size, screen: Point)
    requires step >= 1
    requires p.x + size.w <= screen.x + step && p.y + size.h <= screen.y + step
    ensures var q := Nudged(key, step, p, size, screen);
      q.x + size.w <= screen.x + step && q.y + size.h <= screen.y + step
  {
  }

  /** With step 1 a window that lies on the screen (its last column and row
      at most the screen's bottom-right pixel) stays on the screen. */
  lemma NudgeStepOneStaysOnScreen(key: Key, p: Point, size: Size, screen: Point)
    requires p.x >= 0 && p.y >= 0 && p.x + size.w - 1 <= screen.x && p.y + size.h - 1 <= screen.y
    ensures var q := Nudged(key, 1, p, size, screen);
      q.x >= 0 && q.y >= 0 && q.x + size.w - 1 <= screen.x && q.y + size.h - 1 <= screen.y
  {
  }

  /** With Control held the window can leave the screen: a 600 pixel ruler
      whose last column is 1918, one inside the screen's last column 1919,
      moves 10 pixels right and ends 9 columns past the edge. */
  lemma NudgeControlOvershoots()
    ensures var q := Nudged(Right, Step({ControlModifier}), Point(1319, 0), Size(600, 70), Point(1919, 1079));
      q == Point(1329, 0) && q.x + 600 - 1 == 1919 + 9
  {
  }

  /** For example: a 600x70 ruler at (100, 100) on a 1920x1080
      screen moves to (101, 100) on Right, and to (110, 100) on Control+Right. */
  lemma NudgeExample()
    ensures Nudged(Right, Step({}), Point(100, 100), Size(600, 70), Point(1919, 1079)) == Point(101, 100)
    ensures Nudged(Right, Step({ControlModifier}), Point(100, 100), Size(600, 70), Point(1919, 1079)) == Point(110, 100)
  {
  }
}
