/** The tick ladder that the ruler paints along its long axis when zoom is
    off: for every pixel offset a tick length (none, short, medium, long), a
    running count that labels the long ticks, and the caption at offset 1. */
module Ticks {
  import opened Geometry

  /** Tick lengths in pixels: short, medium and long. */
  const First := 10
  const Mid := 15
  const Last := 20

  /** Unit indices, in the order of the unit menu. */
  const PixelUnit := 0
  const PointUnit := 1
  const InchUnit := 2
  const PicaUnit := 3
  const CentimeterUnit := 4
  const UnitCount := 5

  /** Pixels per unit along one axis, as the exact rational num / den. */
  datatype Spacing = Spacing(num: int, den: int)

  predicate ValidSpacing(s: Spacing) {
    s.num > 0 && s.den > 0
  }

  /** Python's round() of num / den: to the nearest integer, ties to even. */
  function RoundHalfEven(num: int, den: int): (r: int)
    requires den > 0
    ensures -den <= 2 * (den * r - num) <= den
    ensures 2 * (den * r - num) == den || 2 * (den * r - num) == -den ==> r % 2 == 0
  {
    var q, m := num / den, num % den;
    if 2 * m < den then q
    else if 2 * m > den then q + 1
    else if q % 2 == 0 then q
    else q + 1
  }

  /** Python's `i % (num / den) == 0` on an exact rational: i is an integral
      multiple of num / den. */
  predicate MultipleOf(i: int, num: int, den: int)
    requires num > 0
  {
    (i * den) % num == 0
  }

  /** The divisibility test means what the float test intends: i is k times
      the spacing num / den for some integer k. */
  lemma MultipleOfMeaning(i: int, num: int, den: int)
    requires num > 0
    ensures MultipleOf(i, num, den) <==> exists k: int :: i * den == k * num
  {
    if MultipleOf(i, num, den) {
      assert i * den == ((i * den) / num) * num;
    }
    if exists k: int :: i * den == k * num {
      var k: int :| i * den == k * num;
      DivModUnique(i * den, num, k, 0);
    }
  }

  /** The unit spacing of the unit table for a display of `dpi` dots per
      inch, read as exact rationals: Pixel 1, Point dpi/6*2, Inch dpi,
      Pica dpi/6, Centimeter dpi/2.54. */
  function UnitSpacing(unitIndex: int, dpi: int): (s: Spacing)
    requires 0 <= unitIndex < UnitCount && dpi > 0
    ensures ValidSpacing(s)
  {
    if unitIndex == PixelUnit then Spacing(1, 1)
    else if unitIndex == PointUnit then Spacing(2 * dpi, 6)
    else if unitIndex == InchUnit then Spacing(dpi, 1)
    else if unitIndex == PicaUnit then Spacing(dpi, 6)
    else Spacing(100 * dpi, 254)
  }

  /** Unit abbreviations (translations left out). */
  function Abbrev(unitIndex: int): (r: string)
    requires 0 <= unitIndex < UnitCount
    ensures |r| == 2
  {
    ["px", "pt", "in", "pc", "cm"][unitIndex]
  }

  /** What the tick loop needs of its inputs: a known unit, a positive
      spacing and, for Centimeter, a nonzero round(unit) (Python raises on
      a modulo by zero). */
  predicate Drawable(unitIndex: int, s: Spacing) {
    0 <= unitIndex < UnitCount && ValidSpacing(s) &&
    (unitIndex == CentimeterUnit ==> RoundHalfEven(s.num, s.den) >= 1)
  }

  /** round(unit / 2) is nonzero whenever round(unit) is at least 2, so the
      Centimeter short-tick test never divides by zero. */
  lemma HalfRoundPositive(num: int, den: int)
    requires den > 0 && RoundHalfEven(num, den) >= 2
    ensures RoundHalfEven(num, 2 * den) >= 1
  {
    var r, h := RoundHalfEven(num, den), RoundHalfEven(num, 2 * den);
    assert 2 * (den * r - num) <= den;
    assert den * r >= 2 * den by { MulMonotone(den, 2, r); }
    assert -2 * den <= 2 * (2 * den * h - num);
    if h <= 0 {
      MulMonotone(2 * den, h, 0);
      assert false;
    }
  }

  lemma MulMonotone(a: int, b: int, c: int)
    requires a > 0 && b <= c
    ensures a * b <= a * c
  {
    assert a * c - a * b == a * (c - b);
  }

  /** The length of the tick drawn at offset i: 0 (none), First, Mid or
      Last. */
  function TickLength(i: nat, unitIndex: int, s: Spacing): (r: int)
    requires Drawable(unitIndex, s)
    ensures r == 0 || r == First || r == Mid || r == Last
    ensures unitIndex != PixelUnit ==> r != Mid
  {
    if unitIndex == PixelUnit then
      if i % 50 == 0 then Last
      else if i % 10 == 0 then Mid
      else if i % 2 == 0 then First
      else 0
    else if unitIndex <= PicaUnit then
      if MultipleOf(i, s.num, s.den) then Last
      else if MultipleOf(i, s.num, 4 * s.den) then First
      else 0
    else
      var whole := RoundHalfEven(s.num, s.den);
      if i % whole == 0 then Last
      else
        HalfRoundPositive(s.num, s.den);
        if i % RoundHalfEven(s.num, 2 * s.den) == 0 then First else 0
  }

  /** Whether offset i increments the running count: every offset in pixel
      mode, only long ticks in the other units. */
  predicate Advances(i: nat, unitIndex: int, s: Spacing)
    requires Drawable(unitIndex, s)
  {
    unitIndex == PixelUnit || TickLength(i, unitIndex, s) == Last
  }

  /** The value of `count` once offsets 0 .. n-1 are processed; it starts
      at -1. */
  function CountThrough(n: nat, unitIndex: int, s: Spacing): (c: int)
    requires Drawable(unitIndex, s)
    ensures -1 <= c <= n - 1
    ensures unitIndex == PixelUnit ==> c == n - 1
  {
    if n == 0 then -1
    else CountThrough(n - 1, unitIndex, s) + (if Advances(n - 1, unitIndex, s) then 1 else 0)
  }

  /** One drawing made by the tick loop: the caption (unit abbreviation and
      horizontal DPI) or a tick line pair with an optional numeric label. */
  datatype Draw = Caption(abbrev: string, dpi: int) | Tick(offset: nat, length: int, number: Option<int>)

  /** The label of the tick at offset i: the count, on long ticks only. */
  function LabelAt(i: nat, unitIndex: int, s: Spacing): (r: Option<int>)
    requires Drawable(unitIndex, s)
    ensures r.Some? <==> TickLength(i, unitIndex, s) == Last
    ensures r.Some? ==> 0 <= r.value <= i
  {
    if TickLength(i, unitIndex, s) == Last then Some(CountThrough(i + 1, unitIndex, s)) else None
  }

  /** What the loop draws at offset i. */
  function DrawAt(i: nat, unitIndex: int, s: Spacing, abbrev: string, dpi: int): (r: seq<Draw>)
    requires Drawable(unitIndex, s)
    ensures |r| <= 1
    ensures i == 0 ==> r == []
    ensures i == 1 ==> r == [Caption(abbrev, dpi)]
    ensures i >= 2 ==> (r != [] <==> TickLength(i, unitIndex, s) != 0)
    ensures i >= 2 && r != [] ==> r[0].Tick? && r[0].offset == i && r[0].length == TickLength(i, unitIndex, s)
  {
    if i == 1 then [Caption(abbrev, dpi)]
    else if i != 0 && TickLength(i, unitIndex, s) != 0 then
      [Tick(i, TickLength(i, unitIndex, s), LabelAt(i, unitIndex, s))]
    else []
  }

  /** Everything drawn for offsets 0 .. n-1, in order. */
  function Ladder(n: nat, unitIndex: int, s: Spacing, abbrev: string, dpi: int): (r: seq<Draw>)
    requires Drawable(unitIndex, s)
    ensures |r| <= n
    ensures n >= 2 ==> |r| >= 1 && r[0] == Caption(abbrev, dpi)
    ensures n < 2 ==> r == []
  {
    if n == 0 then [] else Ladder(n - 1, unitIndex, s, abbrev, dpi) + DrawAt(n - 1, unitIndex, s, abbrev, dpi)
  }

  /** The tick loop of the paint routine: walks the offsets of the long axis
      keeping the running count, and returns what it draws. */
  method PaintTicks(extent: nat, unitIndex: int, s: Spacing, abbrev: string, dpi: int) returns (draws: seq<Draw>)
    requires Drawable(unitIndex, s)
    ensures draws == Ladder(extent, unitIndex, s, abbrev, dpi)
  {
    var count := -1;
    draws := [];
    for i := 0 to extent
      invariant count == CountThrough(i, unitIndex, s)
      invariant draws == Ladder(i, unitIndex, s, abbrev, dpi)
    {
      var length := 0;
      if unitIndex == PixelUnit {
        if i % 50 == 0 {
          length := Last;
        } else if i % 10 == 0 {
          length := Mid;
        } else if i % 2 == 0 {
          length := First;
        }
        count := count + 1;
      } else {
        if (unitIndex <= PicaUnit && MultipleOf(i, s.num, s.den)) ||
           (unitIndex == CentimeterUnit && i % RoundHalfEven(s.num, s.den) == 0) {
          length, count := Last, count + 1;
        } else if unitIndex <= PicaUnit && MultipleOf(i, s.num, 4 * s.den) {
          length := First;
        } else if unitIndex == CentimeterUnit {
          HalfRoundPositive(s.num, s.den);
          if i % RoundHalfEven(s.num, 2 * s.den) == 0 {
            length := First;
          }
        }
      }
      assert length == TickLength(i, unitIndex, s);
      if i == 1 {
        draws := draws + [Caption(abbrev, dpi)];
      } else if i != 0 && length != 0 {
        draws := draws + [Tick(i, length, if length == Last then Some(count) else None)];
      }
    }
  }

  /** The drawings expected of the ladder over offsets 0 .. n-1. */
  predicate Drawn(d: Draw, n: nat, unitIndex: int, s: Spacing, abbrev: string, dpi: int)
    requires Drawable(unitIndex, s)
  {
    match d
    case Caption(a, p) => n >= 2 && a == abbrev && p == dpi
    case Tick(o, len, lab) =>
      2 <= o < n && TickLength(o, unitIndex, s) != 0 &&
      len == TickLength(o, unitIndex, s) && lab == LabelAt(o, unitIndex, s)
  }

  /** The offset a drawing belongs to; the caption sits on offset 1. */
  function OffsetOf(d: Draw): nat {
    if d.Caption? then 1 else d.offset
  }

  /** The ladder draws exactly the caption (once at least two offsets exist)
      and one tick for every offset from 2 on whose tick length is nonzero:
      offsets 0 and 1 never get a tick line. */
  lemma {:induction false} LadderMembers(n: nat, unitIndex: int, s: Spacing, abbrev: string, dpi: int)
    requires Drawable(unitIndex, s)
    ensures forall d :: d in Ladder(n, unitIndex, s, abbrev, dpi) <==> Drawn(d, n, unitIndex, s, abbrev, dpi)
  {
    if n > 0 {
      LadderMembers(n - 1, unitIndex, s, abbrev, dpi);
    }
  }

  /** The ladder lists its drawings in strictly increasing offset order, so
      each offset is drawn at most once. */
  lemma {:induction false} LadderOrdered(n: nat, unitIndex: int, s: Spacing, abbrev: string, dpi: int)
    requires Drawable(unitIndex, s)
    ensures forall j, k :: 0 <= j < k < |Ladder(n, unitIndex, s, abbrev, dpi)| ==>
      OffsetOf(Ladder(n, unitIndex, s, abbrev, dpi)[j]) < OffsetOf(Ladder(n, unitIndex, s, abbrev, dpi)[k])
    ensures forall k :: 0 <= k < |Ladder(n, unitIndex, s, abbrev, dpi)| ==>
      OffsetOf(Ladder(n, unitIndex, s, abbrev, dpi)[k]) < n
  {
    if n > 0 {
      LadderOrdered(n - 1, unitIndex, s, abbrev, dpi);
    }
  }

  // ----- arithmetic used by the count lemmas -----

  /** Euclidean division is determined by quotient and remainder. */
  lemma DivModUnique(n: int, m: int, q: int, r: int)
    requires m > 0 && n == q * m + r && 0 <= r < m
    ensures n / m == q && n % m == r
  {
    var q0, r0 := n / m, n % m;
    assert n == q0 * m + r0;
    if q0 < q {
      MulMonotone(m, q0 + 1, q);
      assert false;
    } else if q < q0 {
      MulMonotone(m, q + 1, q0);
      assert false;
    }
  }

  /** Scaling both sides of a divisibility test by d > 0 keeps its answer. */
  lemma ScaledModZero(a: int, b: int, d: int)
    requires b > 0 && d > 0
    ensures (a * d) % (b * d) == 0 <==> a % b == 0
  {
    var q, r := a / b, a % b;
    assert a * d == q * (b * d) + r * d;
    MulMonotone(d, r, b - 1);
    assert r * d <= (b - 1) * d;
    DivModUnique(a * d, b * d, q, r * d);
    if r * d == 0 {
      assert r == 0;
    }
  }

  lemma StepDiv(k: int, u: int)
    requires u >= 1 && k >= 0
    ensures (k - 1) / u + (if k % u == 0 then 1 else 0) == k / u
  {
    var q, r := (k - 1) / u, (k - 1) % u;
    if r + 1 == u {
      DivModUnique(k, u, q + 1, 0);
    } else {
      DivModUnique(k, u, q, r + 1);
    }
  }

  /** When the count advances exactly on the multiples of u, the count after
      offsets 0 .. n-1 is (n - 1) / u. */
  lemma {:induction false} CountByPeriod(n: nat, unitIndex: int, s: Spacing, u: int)
    requires Drawable(unitIndex, s) && u >= 1
    requires forall i: nat :: i < n ==> (Advances(i, unitIndex, s) <==> i % u == 0)
    ensures CountThrough(n, unitIndex, s) == (n - 1) / u
  {
    if n == 0 {
      DivModUnique(-1, u, -1, u - 1);
    } else {
      CountByPeriod(n - 1, unitIndex, s, u);
      StepDiv(n - 1, u);
    }
  }

  // ----- properties of the ladder, unit by unit -----

  /** Pixel mode: the count after offset i is i itself, so the long tick
      at offset i is labelled i (50, 100, 150, ...). */
  lemma PixelCount(n: nat, s: Spacing)
    requires ValidSpacing(s)
    ensures CountThrough(n, PixelUnit, s) == n - 1
  {
    CountByPeriod(n, PixelUnit, s, 1);
    if n > 0 { DivModUnique(n - 1, 1, n - 1, 0); }
  }

  /** Pixel mode labels: every labelled tick is a long tick at a nonzero
      multiple of 50 and reads its own offset; every multiple of 50 from 50
      up to the extent is labelled. */
  lemma PixelLabels(n: nat, s: Spacing, abbrev: string, dpi: int)
    requires ValidSpacing(s)
    ensures forall o: nat, len: int, c: int :: Tick(o, len, Some(c)) in Ladder(n, PixelUnit, s, abbrev, dpi) ==>
      len == Last && o % 50 == 0 && o >= 50 && c == o
    ensures forall o: nat :: 50 <= o < n && o % 50 == 0 ==> Tick(o, Last, Some(o)) in Ladder(n, PixelUnit, s, abbrev, dpi)
  {
    LadderMembers(n, PixelUnit, s, abbrev, dpi);
    forall o: nat | o < n
      ensures LabelAt(o, PixelUnit, s).Some? ==> LabelAt(o, PixelUnit, s) == Some(o)
    {
      PixelCount(o + 1, s);
    }
  }

  /** Pixel mode ticks depend on the offset alone, never on the spacing, and
      repeat every 50 pixels. */
  lemma PixelTicksPeriodic(i: nat, s: Spacing, t: Spacing)
    requires ValidSpacing(s) && ValidSpacing(t)
    ensures TickLength(i, PixelUnit, s) == TickLength(i, PixelUnit, t)
    ensures TickLength(i + 50, PixelUnit, s) == TickLength(i, PixelUnit, s)
  {
    DivModUnique(i + 50, 50, i / 50 + 1, i % 50);
    DivModUnique(i + 50, 10, i / 10 + 5, i % 10);
    DivModUnique(i + 50, 2, i / 2 + 25, i % 2);
  }

  /** Point, Inch and Pica: a long tick, and a count increment, exactly on
      the integral multiples of the unit; otherwise a short tick exactly on
      the multiples of a quarter unit. */
  lemma PhysicalTicks(i: nat, unitIndex: int, s: Spacing)
    requires PointUnit <= unitIndex <= PicaUnit && ValidSpacing(s)
    ensures Advances(i, unitIndex, s) <==> TickLength(i, unitIndex, s) == Last
    ensures TickLength(i, unitIndex, s) == Last <==> MultipleOf(i, s.num, s.den)
    ensures TickLength(i, unitIndex, s) == First <==> !MultipleOf(i, s.num, s.den) && MultipleOf(i, s.num, 4 * s.den)
  {
  }

  /** Centimeter: long ticks on the multiples of round(unit), short ticks on
      the other multiples of round(unit / 2). */
  lemma CentimeterTicks(i: nat, s: Spacing)
    requires Drawable(CentimeterUnit, s)
    ensures Advances(i, CentimeterUnit, s) <==> TickLength(i, CentimeterUnit, s) == Last
    ensures TickLength(i, CentimeterUnit, s) == Last <==> i % RoundHalfEven(s.num, s.den) == 0
    ensures i % RoundHalfEven(s.num, s.den) != 0 ==> RoundHalfEven(s.num, 2 * s.den) >= 1
    ensures TickLength(i, CentimeterUnit, s) == First <==>
      i % RoundHalfEven(s.num, s.den) != 0 && RoundHalfEven(s.num, 2 * s.den) >= 1 &&
      i % RoundHalfEven(s.num, 2 * s.den) == 0
  {
    if i % RoundHalfEven(s.num, s.den) != 0 {
      HalfRoundPositive(s.num, s.den);
    }
  }

  /** For Point, Inch and Pica with a spacing that is a whole multiple of
      four pixels (4v), every v-th offset carries a tick and every 4v-th a
      long one. */
  lemma QuarterTicks(i: nat, unitIndex: int, s: Spacing)
    requires PointUnit <= unitIndex <= PicaUnit && ValidSpacing(s) && s.num % (4 * s.den) == 0
    ensures var v := s.num / (4 * s.den);
      v >= 1 &&
      (TickLength(i, unitIndex, s) == Last <==> i % (4 * v) == 0) &&
      (TickLength(i, unitIndex, s) != 0 <==> i % v == 0)
  {
    var v := s.num / (4 * s.den);
    DivModUnique(s.num, 4 * s.den, v, 0);
    assert s.num == (4 * v) * s.den;
    assert v >= 1 by {
      if v <= 0 { MulMonotone(4 * s.den, v, 0); }
    }
    ScaledModZero(i, 4 * v, s.den);
    assert s.num == v * (4 * s.den);
    ScaledModZero(i, v, 4 * s.den);
    if i % (4 * v) == 0 {
      var k := i / (4 * v);
      DivModUnique(i, 4 * v, k, 0);
      DivModUnique(i, v, 4 * k, 0);
    }
  }

  /** Point, Inch and Pica with an integral spacing u: the label of the long
      tick at offset o reads o / u. */
  lemma WholeUnitLabels(n: nat, unitIndex: int, s: Spacing, abbrev: string, dpi: int)
    requires PointUnit <= unitIndex <= PicaUnit && ValidSpacing(s) && s.num % s.den == 0
    ensures var u := s.num / s.den;
      u >= 1 &&
      forall o: nat, len: int, c: int :: Tick(o, len, Some(c)) in Ladder(n, unitIndex, s, abbrev, dpi) ==>
        len == Last && o % u == 0 && c == o / u
  {
    var u := s.num / s.den;
    DivModUnique(s.num, s.den, u, 0);
    assert u >= 1 by {
      if u <= 0 { MulMonotone(s.den, u, 0); }
    }
    LadderMembers(n, unitIndex, s, abbrev, dpi);
    assert s.num == u * s.den;
    forall i: nat | i < n
      ensures Advances(i, unitIndex, s) <==> i % u == 0
    {
      ScaledModZero(i, u, s.den);
    }
    forall o: nat | o < n
      ensures LabelAt(o, unitIndex, s).Some? ==> LabelAt(o, unitIndex, s) == Some(o / u)
    {
      CountByPeriod(o + 1, unitIndex, s, u);
    }
  }

  /** Centimeter: the label of the long tick at offset o reads o / R, where
      R = round(unit). */
  lemma CentimeterLabels(n: nat, s: Spacing, abbrev: string, dpi: int)
    requires Drawable(CentimeterUnit, s)
    ensures var r := RoundHalfEven(s.num, s.den);
      forall o: nat, len: int, c: int :: Tick(o, len, Some(c)) in Ladder(n, CentimeterUnit, s, abbrev, dpi) ==>
        len == Last && o % r == 0 && c == o / r
  {
    var r := RoundHalfEven(s.num, s.den);
    LadderMembers(n, CentimeterUnit, s, abbrev, dpi);
    forall o: nat | o < n
      ensures LabelAt(o, CentimeterUnit, s).Some? ==> LabelAt(o, CentimeterUnit, s) == Some(o / r)
    {
      CountByPeriod(o + 1, CentimeterUnit, s, r);
    }
  }

  /** Pica at 99 dpi: a unit is 16.5 px and a quarter unit 4.125 px, and
      an offset is a multiple of either only when it is a multiple of 33. So
      there are no short ticks, a long tick every 33 px, and the numbers
      1, 2, ... each mark two picas. */
  lemma PicaAt99Dpi(n: nat, abbrev: string, dpi: int)
    ensures UnitSpacing(PicaUnit, 99) == Spacing(99, 6)
    ensures forall i: nat :: TickLength(i, PicaUnit, Spacing(99, 6)) != First
    ensures forall i: nat :: TickLength(i, PicaUnit, Spacing(99, 6)) == Last <==> i % 33 == 0
    ensures forall o: nat, len: int, c: int :: Tick(o, len, Some(c)) in Ladder(n, PicaUnit, Spacing(99, 6), abbrev, dpi) ==>
      len == Last && o % 33 == 0 && c == o / 33
  {
    var s := Spacing(99, 6);
    forall i: nat
      ensures MultipleOf(i, 99, 6) <==> i % 33 == 0
      ensures MultipleOf(i, 99, 24) <==> i % 33 == 0
    {
      var q, r := i / 33, i % 33;
      DivModUnique(i * 6, 99, 2 * q + (6 * r) / 99, (6 * r) % 99);
      DivModUnique(i * 24, 99, 8 * q + (24 * r) / 99, (24 * r) % 99);
    }
    LadderMembers(n, PicaUnit, s, abbrev, dpi);
    forall o: nat | o < n
      ensures LabelAt(o, PicaUnit, s).Some? ==> LabelAt(o, PicaUnit, s) == Some(o / 33)
    {
      CountByPeriod(o + 1, PicaUnit, s, 33);
    }
  }

  /** The Centimeter half-unit tick is round(unit / 2), not round(unit) / 2:
      at 120 dpi a unit is 47.24 px, round(unit) is 47 and round(unit / 2)
      is 24, so the half tick at 48 lands one pixel after the whole-unit
      tick at 47. */
  lemma CentimeterHalfTickDrift()
    ensures UnitSpacing(CentimeterUnit, 120) == Spacing(12000, 254)
    ensures RoundHalfEven(12000, 254) == 47 && RoundHalfEven(12000, 508) == 24
    ensures TickLength(47, CentimeterUnit, Spacing(12000, 254)) == Last
    ensures TickLength(48, CentimeterUnit, Spacing(12000, 254)) == First
  {
  }

  /** A Centimeter ruler is drawable at every display of two or more dpi. */
  lemma CentimeterDrawable(dpi: int)
    requires dpi >= 2
    ensures Drawable(CentimeterUnit, UnitSpacing(CentimeterUnit, dpi))
  {
    var r := RoundHalfEven(100 * dpi, 254);
    if r <= 0 {
      MulMonotone(254, r, 0);
      assert false;
    }
  }
}
