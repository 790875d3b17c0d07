# ScreenRulerZoom ruler core in Dafny

ScreenRulerZoom is a small on-screen ruler: a frameless, always-on-top PyQt5
window (class `Ruler` in `screenrulerzoom.py`). It draws tick marks in one of
five units (Pixel, Point, Inch, Pica, Centimeter). It can show a magnified
snapshot of the desktop beneath it instead. It also shows a live readout of
the cursor's coordinate along the ruler.

This project models the decision logic inside that widget and proves
properties of it:

- **Ticks** (`ticks.dfy`): the tick ladder of the paint routine. The pure
  per-offset `TickLength` is the specification. `PaintTicks` is the loop
  with its running `count`, proved to produce `Ladder`. The lemmas cover the
  pixel-mode ladder and count, the Point/Inch/Pica and Centimeter rules, and
  the labels on long ticks.
- **CursorLabel** (`labels.dfy`): where the coordinate label is placed. It is
  clamped along the long axis and centred across the short one.
- **Nudge** (`nudge.dfy`): the arrow-key move of the window.
- **Marks** (`marks.dfy`): the double-click mark deque (maximum length 2) and
  the reported distance.
- **Settings** (`settings.dfy`): the range check of persisted integers, what
  is saved on close, and the window's fixed size and clamped position.
- **RulerWindow** (`ruler.dfy`): class `Ruler`, holding the widget's fields.
  Its methods are the event handlers and menu actions. `Paint` picks between
  snapshot, plain fill and ruler face.

Unit spacings are exact rationals `num / den`. Python's `i % unit == 0` on
such a spacing is "i is an integral multiple of num/den", written
`(i * den) % num == 0`. Python's `round` is round-half-to-even on the
rational. Times are reals, in seconds. Label positions are reals, because the
source halves font extents with true division.

### Behaviour of the source worth knowing

- Pixel mode increments `count` on every offset. The long tick at offset `i`
  is therefore labelled `i`: 50, 100, 150, ... (`PixelCount`, `PixelLabels`).
- The double-click distance is measured in `y` on a vertical ruler and in `x`
  on a horizontal one. Double-clicks at (50, 0) and (50, 80) report 80 on a
  vertical ruler and 0 on a horizontal one (`DistanceExample`).
- Marks are cleared by a drag, a zoom change, an orientation change and the
  second double-click. A unit change keeps them. Between handlers the deque
  holds at most one point, so no point is ever evicted (`Ruler.Valid`). The
  two points are on screen together only while the distance dialog's nested
  event loop runs.
- The label's background box is drawn only when zoom is off, and the cursor
  indicator is painted only when zoom is off. Every painted label therefore
  has its box (`Ruler.Paint`).
- Zoom is saved under `GUI/Zoom` but restored into an attribute `mode` that
  nothing reads. A restarted ruler always starts with zoom 0 (`SaveRestore`,
  `Ruler.constructor`).
- The Right/Down guard tests the window's far edge before the move. With
  Control held (step 10), the window can end up to 9 pixels past the
  screen's right or bottom edge (`NudgeFarEdgeBound`,
  `NudgeControlOvershoots`). A press is accepted only when more than one
  second has passed since the last accepted one.
- A size change sets 600·(s+1) × 70·(s+1) whatever the orientation, so a
  vertical ruler takes the horizontal shape (`ScaledSizeIgnoresOrientation`).
- On a Point or Pica ruler whose DPI is not a multiple of 3 (100, 110 or
  125 dpi, for example), the float modulo is never 0. The source then draws
  no tick line and no number, only the caption.
- On a Pica ruler at an odd multiple of 3 dpi (99 dpi: 16.5 px a pica),
  long ticks fall only every 33 px and are numbered 1, 2, ..., so each
  number marks two picas. No short ticks are drawn (`PicaAt99Dpi`).
- Building the context menu raises TypeError, because it enumerates the
  integer `rulerSize`. The menu is never shown, `Ruler.menu` stays False,
  and no menu action can happen: no zoom, unit, size or colour change, and
  no Exit from the menu. `OpenMenu`, `ChangeMode`, `ChangeUnitMeasure`,
  `ChangeRulerSize` after start-up, and the zoomed paths of `Paint` model
  what those handlers plainly intend, not anything reachable in the
  program as written.
- The Point spacing is `dpi/6*2`, that is dpi/3. The caption at offset 1
  always shows the horizontal DPI, even on a vertical ruler.
- The snapshot is dropped only by a zoom change. A drag keeps it, and
  releasing the button recaptures it when zoom is on.

## Model

| member | source | states |
|---|---|---|
| `Ticks.RoundHalfEven` | screenrulerzoom.py:325-327 | Python's `round` on a rational: the result is within half a unit of num/den, and a tie goes to the even integer |
| `Ticks.UnitSpacing` | screenrulerzoom.py:151-157 | the unit table's spacing for a DPI (1, dpi/6·2, dpi, dpi/6, dpi/2.54) is a positive rational |
| `Ticks.MultipleOfMeaning` | screenrulerzoom.py:325-327 | the float tests `not i % unit` and `not i % (unit / 4)` become `(i * den) % num == 0`, which holds iff i·den = k·num for some integer k, i.e. i is an integral multiple of the spacing num/den |
| `Ticks.Abbrev` | screenrulerzoom.py:152-156 | the caption abbreviation of each unit (px, pt, in, pc, cm) is two characters |
| `Ticks.HalfRoundPositive` | screenrulerzoom.py:325-327 | when round(unit) ≥ 2, round(unit/2) ≥ 1, so the Centimeter short-tick modulo never divides by zero |
| `Ticks.TickLength` | screenrulerzoom.py:309-328 | every tick length is 0, 10, 15 or 20, and 15 occurs only in pixel mode |
| `Ticks.CountThrough` | screenrulerzoom.py:288-326 | the running count after offsets 0..n-1 starts at -1, never exceeds n-1, and is n-1 in pixel mode, where every offset advances it |
| `Ticks.LabelAt` | screenrulerzoom.py:340-348 | a tick gets a number iff it is long, and the number is the count after that offset, between 0 and the offset |
| `Ticks.DrawAt` | screenrulerzoom.py:331-348 | at most one drawing per offset: nothing at offset 0, the caption at offset 1, and from offset 2 on a tick at that offset with its length iff the length is nonzero |
| `Ticks.Ladder` | screenrulerzoom.py:308-348 | the drawings for offsets 0..n-1 number at most n; with two or more offsets the first is the caption, with fewer there are none |
| `Ticks.PaintTicks` | screenrulerzoom.py:287-348 | the offset loop, with `count` starting at -1, draws exactly `Ladder(extent, …)` |
| `Ticks.LadderMembers` | screenrulerzoom.py:329-348 | the ladder holds the caption iff there are at least two offsets, and a tick for offset o iff 2 ≤ o < extent and its length is nonzero; long ticks carry the running count and the others no number; offsets 0 and 1 never get a tick line |
| `Ticks.LadderOrdered` | screenrulerzoom.py:308-348 | drawings come in strictly increasing offset order (caption at 1), all below the extent, so no offset is drawn twice |
| `Ticks.CountByPeriod` | screenrulerzoom.py:288-326 | if the count advances exactly on the multiples of u, then after n offsets it equals (n-1)/u |
| `Ticks.PixelCount` | screenrulerzoom.py:288-322 | in pixel mode the count after offsets 0..n-1 is n-1 |
| `Ticks.PixelLabels` | screenrulerzoom.py:311-348 | in pixel mode every number shown is on a long tick at a nonzero multiple of 50 and equals its offset; every multiple of 50 from 50 below the extent is shown |
| `Ticks.PixelTicksPeriodic` | screenrulerzoom.py:311-320 | pixel-mode tick lengths do not depend on the spacing and repeat every 50 px |
| `Ticks.PhysicalTicks` | screenrulerzoom.py:325-328 | Point/Inch/Pica: the count advances iff the tick is long, a tick is long iff i is a multiple of the unit, and short iff it is not but is a multiple of unit/4 |
| `Ticks.CentimeterTicks` | screenrulerzoom.py:325-328 | Centimeter: the count advances iff the tick is long; a tick is long iff i is a multiple of R = round(unit); off those multiples round(unit/2) ≥ 1, and a tick is short iff i is not a multiple of R but is one of round(unit/2) |
| `Ticks.QuarterTicks` | screenrulerzoom.py:325-328 | Point/Inch/Pica with a spacing of 4v px: a tick on every multiple of v and a long tick on every multiple of 4v |
| `Ticks.WholeUnitLabels` | screenrulerzoom.py:325-348 | Point/Inch/Pica with an integral spacing u: each number is on a long tick at a multiple of u and reads o/u |
| `Ticks.CentimeterLabels` | screenrulerzoom.py:325-348 | Centimeter: each number is on a long tick at a multiple of R = round(unit) and reads o/R |
| `Ticks.PicaAt99Dpi` | screenrulerzoom.py:155-328 | at 99 dpi a pica is 16.5 px: no offset gets a short tick, a long tick sits exactly on the multiples of 33 px, and the number there reads o/33, so each number marks two picas |
| `Ticks.CentimeterHalfTickDrift` | screenrulerzoom.py:156-327 | at 120 dpi round(unit) = 47 but round(unit/2) = 24, so the half tick at 48 follows the long tick at 47 |
| `Ticks.CentimeterDrawable` | screenrulerzoom.py:156-325 | every display of at least 2 dpi gives a Centimeter spacing with round(unit) ≥ 1 |
| `CursorLabel.LabelStartX` | screenrulerzoom.py:393-400 | horizontal ruler: if width ≥ w + 4 the label lies within [1, width-2]; if nothing is clamped it is centred on the cursor |
| `CursorLabel.LabelBaselineY` | screenrulerzoom.py:374-381 | vertical ruler: if height ≥ 1.5·h + 2 the text lies within [1, height]; if nothing is clamped it is centred on the cursor |
| `CursorLabel.CursorIndicator` | screenrulerzoom.py:357-405 | the line sits at the long-axis coordinate; there is a label iff pixel mode, and it shows that coordinate; it has a box iff zoom is off, padding the text by 2 px; it is centred across the short axis and inside the ruler along the long one |
| `Nudge.Step` | screenrulerzoom.py:244 | the step is 10 exactly when the modifier set is Control alone, otherwise 1 |
| `Nudge.Nudged` | screenrulerzoom.py:245-252 | at most one coordinate changes, and by exactly the step; nonnegative coordinates stay nonnegative; x decreases only on Left, increases only on Right with x + width ≤ screen.x, and the same for y with Up/Down |
| `Nudge.NudgeMovesIff` | screenrulerzoom.py:245-252 | a press moves the window iff its direction's guard holds |
| `Nudge.NudgeFarEdgeBound` | screenrulerzoom.py:247-252 | a window whose far edges are within screen + step stays within it |
| `Nudge.NudgeStepOneStaysOnScreen` | screenrulerzoom.py:245-252 | with step 1 a window lying on the screen stays on it |
| `Nudge.NudgeControlOvershoots` | screenrulerzoom.py:244-248 | with Control held a 600 px ruler ends 9 columns past the screen's last column |
| `Nudge.NudgeExample` | screenrulerzoom.py:244-248 | (100,100) moves to (101,100) on Right and to (110,100) on Control+Right |
| `Marks.Append` | screenrulerzoom.py:189-262 | appending to the deque keeps the last min(n+1, 2) points of the old contents followed by the new point |
| `Marks.Distance` | screenrulerzoom.py:264 | the reported distance is zero iff the two points share the measured coordinate |
| `Marks.DistanceSymmetric` | screenrulerzoom.py:264 | the distance does not depend on the order of the points |
| `Marks.AppendEvictsOldest` | screenrulerzoom.py:189 | a third append leaves the second and third points |
| `Marks.DistanceExample` | screenrulerzoom.py:264 | clicks at (50,0) and (50,80) report 80 on a vertical ruler and 0 on a horizontal one |
| `Settings.Restore` | screenrulerzoom.py:203-211 | restored orientation, size and unit always lie in their ranges; a stored value in range(1, bound) is taken, and a nonzero result is the stored value, so anything else falls back to 0; `mode` is the range-checked zoom value, absent or 1 |
| `Settings.SaveRestore` | screenrulerzoom.py:203-234 | restoring what close saved gives back orientation, size and unit exactly; zoom comes back only as `mode` 1 |
| `Settings.OrientedSize` | screenrulerzoom.py:435 | after an orientation change the long axis is 600·(size+1) and the short axis 70 |
| `Settings.ScaledSizeIgnoresOrientation` | screenrulerzoom.py:416-418 | a size change gives a vertical ruler a long axis of only 70·(size+1), and it matches the horizontal oriented size only at size 0 |
| `Settings.Accept` | screenrulerzoom.py:210-211 | a stored value is accepted iff the key is present and the value lies in range(1, bound), and then it is that value |
| `Settings.Save` | screenrulerzoom.py:223-234 | close writes exactly the four integer keys, holding zoom, orientation, size and unit, and the position |
| `Settings.ScaledSize` | screenrulerzoom.py:418 | a size change scales both axes by size+1, keeping the 600:70 aspect |
| `Settings.CenteredOrigin` | screenrulerzoom.py:217 | without a saved position, the window's QRect centre ((left + right) / 2, with right = left + width - 1) is the desktop centre |
| `Settings.ClampTopLeft` | screenrulerzoom.py:436-442 | a negative top or left edge becomes 0, and a nonnegative one is kept |
| `RulerWindow.InSensitiveRange` | screenrulerzoom.py:451 | with right() = left + width - 1, the handler's test is: the sample lies among the window's width columns (horizontal) or height rows (vertical) |
| `RulerWindow.OnRuler` | screenrulerzoom.py:350 | the paint routine's test is: the local long-axis coordinate lies in [0, extent) |
| `RulerWindow.HitTestAgrees` | screenrulerzoom.py:350-451 | the paint routine's range test on the local coordinate matches the cursor handler's [left, right] / [top, bottom] test |
| `RulerWindow.IndicatorsFor` | screenrulerzoom.py:352-355 | one indicator per mark, in order, each the indicator of that mark |
| `RulerWindow.Ruler.LongAxis` | screenrulerzoom.py:308 | the tick loop runs over the height on a vertical ruler and the width on a horizontal one; under the invariant that axis is at least 70 px |
| `RulerWindow.Ruler.AxisDpi` | screenrulerzoom.py:287 | the unit spacing is taken at the vertical DPI on a vertical ruler and the horizontal DPI otherwise, and it is positive |
| `RulerWindow.Ruler.Local` | screenrulerzoom.py:350 | `mapFromParent` of a screen point: adding the window position back gives the point again |
| `RulerWindow.Ruler.ShowsCursor` | screenrulerzoom.py:350 | the cursor indicator is drawn iff a sample is held, the menu is closed and the sample passes the cursor handler's range test |
| `RulerWindow.Ruler.constructor` | screenrulerzoom.py:140-218 | the restored fields pass the range checks; zoom is 0 with no snapshot; marks are empty; the size is the oriented size; the position is the saved one or centred on the desktop |
| `RulerWindow.Ruler.SaveBackground` | screenrulerzoom.py:456-460 | a snapshot is taken only when zoom is on |
| `RulerWindow.Ruler.ChangeMode` | screenrulerzoom.py:410-414 | sets zoom, drops the snapshot and clears the marks |
| `RulerWindow.Ruler.ChangeRulerSize` | screenrulerzoom.py:416-418 | sets the size index and the scaled size |
| `RulerWindow.Ruler.ChangeUnitMeasure` | screenrulerzoom.py:420-422 | sets the unit and keeps the marks |
| `RulerWindow.Ruler.ChangeOrientation` | screenrulerzoom.py:433-443 | clears the marks, sets orientation and oriented size, and clamps a negative top-left corner to 0 |
| `RulerWindow.Ruler.PollCursor` | screenrulerzoom.py:445-448 | an unchanged sample leaves everything alone; a new one is kept (with a repaint) iff it is in the sensitive range, and otherwise the cursor becomes None |
| `RulerWindow.Ruler.HandleCursorMove` | screenrulerzoom.py:450-454 | repaints iff the sample is in range, and otherwise forgets the cursor |
| `RulerWindow.Ruler.CloseEvent` | screenrulerzoom.py:220-236 | writes zoom, orientation, position, size and unit; restoring them loses only zoom |
| `RulerWindow.Ruler.KeyPress` | screenrulerzoom.py:238-258 | Escape returns what close saves; an arrow more than 1 s after `csec` moves by `Nudged`, sets `csec` to now and recaptures when zoomed; any other press changes neither position nor `csec` |
| `RulerWindow.Ruler.MouseDoubleClick` | screenrulerzoom.py:260-265 | no effect outside pixel mode; the first point is stored; the second reports the distance and clears the buffer, which never holds more than one point between handlers |
| `RulerWindow.Ruler.MousePress` | screenrulerzoom.py:267-272 | the left button starts a drag |
| `RulerWindow.Ruler.MouseRelease` | screenrulerzoom.py:274-279 | the left button ends the drag and recaptures when zoomed |
| `RulerWindow.Ruler.MouseMove` | screenrulerzoom.py:281-283 | a drag step clears the marks and moves the window |
| `RulerWindow.Ruler.OpenMenu` | screenrulerzoom.py:131-133 | opening the context menu sets the menu flag that hides the indicator |
| `RulerWindow.Ruler.CloseMenu` | screenrulerzoom.py:135-137 | closing it clears the flag |
| `RulerWindow.Ruler.Paint` | screenrulerzoom.py:285-355 | zoomed and idle: blit at scale zoom+1, capturing first if no snapshot is held; zoomed and dragging: plain fill; zoom off: the tick ladder of the long axis, the cursor indicator iff a sample is held, the menu is closed and the sample is on the ruler, and the marks in pixel mode; every painted label has its box |

## Left out

- Qt rendering: pens, brushes, `drawLine` and `drawText` geometry other than the cursor label's placement. This includes where tick lines, tick numbers and the caption are drawn. Font metrics are the parameter `extentOf`.
- Screen capture (`grabWindow` and the hide/show around it). It is I/O; only the "snapshot held" flag is modelled, and a failed capture is not.
- Settings I/O: reading, writing and `sync` of the store, and the colour keys and their validation. A stored value that `int()` cannot parse (which raises) is not modelled either; stored values are already integers.
- The context menu, About dialog, colour dialog and colour reset (`changeRulerColor`), URLs, translations and icons. These are UI collaborators. Menu construction, which iterates over the integer `rulerSize`, is not part of this model; the menu actions are modelled as methods taking the menu's index.
- The 50 ms timer, signal wiring and `time()`. The clock is the parameter `now`. The poll reads `QCursor.pos()` three times, and the model takes one sample. The timer reconnection in the menu's close handler is left out.
- Floating-point spacing: the model uses exact rationals. This agrees with the source in the following cases:
  - Pixel and Inch spacings are integers.
  - When 3 divides the DPI, Point's `dpi/6*2` is the integer dpi/3 and Pica's `dpi/6` is k or k + 0.5. Both, and their quarters, are exact floats.
  - Centimeter takes its modulo by the integers `round(unit)` and `round(unit / 2)`. The fractional parts of 50·dpi/127 and 25·dpi/127 are multiples of 1/127, never ties, so the float rounding equals the exact one.
- RulerWindow.Ruler.Paint: on a Point or Pica ruler whose DPI is not a multiple of 3, the model's exact `Ladder` differs from the source. The float spacing there is not a dyadic fraction, so `i % unit` and `i % (unit / 4)` are never 0 for any realistic offset, and the source draws only the caption. The model instead draws ticks and numbers at the exact multiples of dpi/3 or dpi/6.
- Window dragging geometry (`mapToParent`, the press offset): `MouseMove` takes the target position as a parameter. The modal `QMessageBox` that shows the double-click distance is the method's return value.
- RulerWindow.Ruler.MouseDoubleClick: the source shows the distance in a modal dialog, which runs a nested event loop while both points are still in the deque. The 50 ms cursor poll keeps firing inside that loop, and its repaints draw both marks until the dialog closes. The model treats the handler as one atomic step, so `Paint` never sees more than one mark.
- Escape's `app.quit()` and the application start-up outside the widget.
- RulerWindow.Ruler.constructor: the window size before the first size change is not modelled. It is replaced at once.
- RulerWindow.Ruler.Paint: with zoom off, in Centimeter mode, it requires a DPI of at least 2. Below that, round(unit) is 0 and the source's modulo raises ZeroDivisionError; the model does not follow that crash.
- RulerWindow.Ruler.KeyPress: the source reads the clock a second time, after the move and the repaint, to set the time of the last accepted press; the model uses the one time `now` for both the guard and that update.
- RulerWindow.Ruler.ChangeMode: the source's `repaint()` runs the paint handler at once, so on a visible, zoomed, idle ruler the snapshot is captured again before the handler returns. The model leaves this to a separate `Paint` call. The same holds for the repaints in the other handlers (key press, mouse press, unit change, orientation change, cursor move).
- RulerWindow.Ruler.MouseMove: when no left-button drag is under way the source has no press offset (unset, or None after a release) and raises. The model always moves the window to `target`.
