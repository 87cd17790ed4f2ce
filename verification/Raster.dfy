/** The software rasterizer of cartography/png.py: pixel writes, lines and filled boxes in one byte buffer. */
module Raster {
  import opened Arithmetic
  import opened Bytes

  datatype Color = Color(r: byte, g: byte, b: byte, a: byte)
  datatype Point = Point(x: int, y: int)

  // What a drawing call may cover, before clipping to the canvas.
  datatype Shape =
    | Dot(p: Point)
    | StrokeTo(from: Point, to: Point, count: nat)  // the first count points of a line
    | Box(left: int, top: int, right: int, bottom: int)  // right and bottom excluded

  datatype Primitive = Primitive(shape: Shape, color: Color)

  function Abs(i: int): (a: int)
    ensures a >= 0
  {
    if i < 0 then -i else i
  }

  function Max(a: int, b: int): int {
    if a < b then b else a
  }

  function Min(a: int, b: int): int {
    if a < b then a else b
  }

  // ----- pixels of a buffer -----

  ghost predicate Framed(buf: seq<byte>, width: nat, height: nat) {
    |buf| == width * height * 4
  }

  predicate InCanvas(width: nat, height: nat, x: int, y: int) {
    0 <= x < width && 0 <= y < height
  }

  function Offset(width: nat, x: int, y: int): int {
    (y * width + x) * 4
  }

  lemma OffsetInFrame(width: nat, height: nat, x: int, y: int)
    requires InCanvas(width, height, x, y)
    ensures 0 <= Offset(width, x, y) <= width * height * 4 - 4
  {
    assert y * width + width == (y + 1) * width <= height * width;
  }

  lemma OffsetsApart(width: nat, x: int, y: int, x': int, y': int)
    requires 0 <= x < width && 0 <= x' < width && (x != x' || y != y')
    ensures Abs(Offset(width, x, y) - Offset(width, x', y')) >= 4
  {
    if y < y' {
      assert y * width + width == (y + 1) * width <= y' * width;
    } else if y' < y {
      assert y' * width + width == (y' + 1) * width <= y * width;
    }
  }

  ghost function PixelAt(buf: seq<byte>, width: nat, height: nat, x: int, y: int): Color
    requires Framed(buf, width, height) && InCanvas(width, height, x, y)
  {
    OffsetInFrame(width, height, x, y);
    var o := Offset(width, x, y);
    Color(buf[o], buf[o + 1], buf[o + 2], buf[o + 3])
  }

  /** The buffer has no byte outside its pixels: equal pixels mean equal buffers. */
  lemma PixelsDetermineBuffer(a: seq<byte>, b: seq<byte>, width: nat, height: nat)
    requires Framed(a, width, height) && Framed(b, width, height)
    requires forall x, y | InCanvas(width, height, x, y) ::
               PixelAt(a, width, height, x, y) == PixelAt(b, width, height, x, y)
    ensures a == b
  {
    forall i | 0 <= i < |a| ensures a[i] == b[i] {
      assert width * height > 0;
      var x, y := i / 4 % width, i / 4 / width;
      RowBound(i / 4, width, height);
      assert PixelAt(a, width, height, x, y) == PixelAt(b, width, height, x, y);
      assert Offset(width, x, y) == i / 4 * 4;
    }
  }

  lemma RowBound(p: nat, width: nat, height: nat)
    requires width > 0 && p < width * height
    ensures InCanvas(width, height, p % width, p / width)
    ensures p / width * width + p % width == p
  {
  }

  // ----- what a list of primitives looks like -----

  ghost predicate Covers(s: Shape, x: int, y: int) {
    match s
    case Dot(p) => p == Point(x, y)
    case StrokeTo(from, to, count) => exists k | 0 <= k < count :: LinePoint(from, to, k) == Point(x, y)
    case Box(left, top, right, bottom) => left <= x < right && top <= y < bottom
  }

  /** The colour seen at (x, y) when the primitives are painted in order over the colour under them. */
  ghost function Look(prims: seq<Primitive>, under: Color, x: int, y: int): Color {
    if prims == [] then under
    else
      var last := prims[|prims| - 1];
      if Covers(last.shape, x, y) then last.color else Look(prims[..|prims| - 1], under, x, y)
  }

  ghost predicate Shows(before: seq<byte>, after: seq<byte>, width: nat, height: nat, prims: seq<Primitive>) {
    && Framed(before, width, height)
    && Framed(after, width, height)
    && forall x, y | InCanvas(width, height, x, y) ::
         PixelAt(after, width, height, x, y) == Look(prims, PixelAt(before, width, height, x, y), x, y)
  }

  /** Painter's order: the last covering primitive decides the colour, and only when none covers does the base show. */
  lemma {:induction false} LookIsLastCover(prims: seq<Primitive>, under: Color, x: int, y: int)
    ensures (forall i | 0 <= i < |prims| :: !Covers(prims[i].shape, x, y)) ==> Look(prims, under, x, y) == under
    ensures forall i | 0 <= i < |prims| && Covers(prims[i].shape, x, y)
                       && (forall j | i < j < |prims| :: !Covers(prims[j].shape, x, y)) ::
              Look(prims, under, x, y) == prims[i].color
  {
    if prims != [] {
      LookIsLastCover(prims[..|prims| - 1], under, x, y);
    }
  }

  lemma {:induction false} LookAppend(first: seq<Primitive>, second: seq<Primitive>, under: Color, x: int, y: int)
    ensures Look(first + second, under, x, y) == Look(second, Look(first, under, x, y), x, y)
  {
    if second == [] {
      assert first + second == first;
    } else {
      assert (first + second)[..|first + second| - 1] == first + second[..|second| - 1];
      LookAppend(first, second[..|second| - 1], under, x, y);
    }
  }

  lemma ShowsThen(a: seq<byte>, b: seq<byte>, c: seq<byte>, width: nat, height: nat,
                  first: seq<Primitive>, second: seq<Primitive>)
    requires Shows(a, b, width, height, first) && Shows(b, c, width, height, second)
    ensures Shows(a, c, width, height, first + second)
  {
    forall x, y | InCanvas(width, height, x, y)
      ensures PixelAt(c, width, height, x, y) == Look(first + second, PixelAt(a, width, height, x, y), x, y)
    {
      LookAppend(first, second, PixelAt(a, width, height, x, y), x, y);
    }
  }

  lemma LookSingle(s: Shape, c: Color, under: Color, x: int, y: int)
    ensures Look([Primitive(s, c)], under, x, y) == if Covers(s, x, y) then c else under
  {
  }

  // ----- the line, in closed form -----

  function Sign(from: int, to: int): int {
    if from < to then 1 else -1
  }

  function Width(from: Point, to: Point): nat {
    Abs(to.x - from.x)
  }

  function Height(from: Point, to: Point): nat {
    Abs(to.y - from.y)
  }

  function LastStep(from: Point, to: Point): nat {
    Max(Width(from, to), Height(from, to))
  }

  /** k * minor / major rounded to the nearest integer, halves away from the first endpoint. */
  function Rounded(k: nat, minor: nat, major: nat): nat {
    if major == 0 then 0 else (2 * k * minor + major) / (2 * major)
  }

  function Across(from: Point, to: Point, k: nat): nat {
    if Width(from, to) >= Height(from, to) then k else Rounded(k, Width(from, to), Height(from, to))
  }

  function Down(from: Point, to: Point, k: nat): nat {
    if Width(from, to) >= Height(from, to) then Rounded(k, Height(from, to), Width(from, to)) else k
  }

  function LinePoint(from: Point, to: Point, k: nat): Point {
    Point(from.x + Sign(from.x, to.x) * Across(from, to, k), from.y + Sign(from.y, to.y) * Down(from, to, k))
  }

  function Line(from: Point, to: Point): Shape {
    StrokeTo(from, to, LastStep(from, to) + 1)
  }

  lemma RoundedBounds(k: nat, minor: nat, major: nat)
    requires major > 0
    ensures 2 * (Rounded(k, minor, major) * major) - major <= 2 * (k * minor)
            < 2 * (Rounded(k, minor, major) * major) + major
  {
  }

  lemma RoundedUnique(k: nat, minor: nat, major: nat, b: nat)
    requires major > 0 && 2 * (b * major) - major <= 2 * (k * minor) < 2 * (b * major) + major
    ensures b == Rounded(k, minor, major)
  {
    var r := Rounded(k, minor, major);
    RoundedBounds(k, minor, major);
    MulGap(b, r, major);
    MulGap(r, b, major);
  }

  lemma RoundedEnd(minor: nat, major: nat)
    requires minor <= major
    ensures Rounded(major, minor, major) == minor
    ensures Rounded(0, minor, major) == 0
  {
    if major > 0 {
      assert major * minor == minor * major;
      RoundedUnique(major, minor, major, minor);
      RoundedUnique(0, minor, major, 0);
    }
  }

  /** The minor coordinate advances by nothing or by one per step, by the source's error test. */
  lemma RoundedStep(k: nat, minor: nat, major: nat)
    requires 0 < major && minor <= major
    ensures Rounded(k + 1, minor, major) ==
            if 2 * (Rounded(k, minor, major) * major) + major <= 2 * (k * minor) + 2 * minor
            then Rounded(k, minor, major) + 1 else Rounded(k, minor, major)
  {
    var b := Rounded(k, minor, major);
    RoundedBounds(k, minor, major);
    assert (k + 1) * minor == k * minor + minor;
    assert (b + 1) * major == b * major + major;
    if 2 * (b * major) + major <= 2 * (k * minor) + 2 * minor {
      RoundedUnique(k + 1, minor, major, b + 1);
    } else {
      RoundedUnique(k + 1, minor, major, b);
    }
  }

  /** The path starts and ends at the endpoints. */
  lemma LineEndpoints(from: Point, to: Point)
    ensures LinePoint(from, to, 0) == from
    ensures LinePoint(from, to, LastStep(from, to)) == to
  {
    if Width(from, to) >= Height(from, to) {
      RoundedEnd(Height(from, to), Width(from, to));
    } else {
      RoundedEnd(Width(from, to), Height(from, to));
    }
  }

  /** Consecutive points are distinct 8-neighbours. */
  lemma LineIsConnected(from: Point, to: Point, k: nat)
    requires k < LastStep(from, to)
    ensures var p, q := LinePoint(from, to, k), LinePoint(from, to, k + 1);
            p != q && Abs(q.x - p.x) <= 1 && Abs(q.y - p.y) <= 1
  {
    if Width(from, to) >= Height(from, to) {
      RoundedStep(k, Height(from, to), Width(from, to));
    } else {
      RoundedStep(k, Width(from, to), Height(from, to));
    }
  }

  /** No point is visited twice: there are exactly max(|dx|, |dy|) + 1 of them. */
  lemma LineNeverRevisits(from: Point, to: Point, i: nat, k: nat)
    requires i < k <= LastStep(from, to)
    ensures LinePoint(from, to, i) != LinePoint(from, to, k)
  {
  }

  ghost function Deviation(from: Point, to: Point, a: int, b: int): nat {
    Abs(b * Width(from, to) - a * Height(from, to))
  }

  /** Each point lies within half a pixel of the ideal line, measured along the minor axis. */
  lemma LineIsClose(from: Point, to: Point, k: nat)
    ensures 2 * Deviation(from, to, Across(from, to, k), Down(from, to, k)) <= LastStep(from, to)
  {
    var w, h := Width(from, to), Height(from, to);
    if w >= h {
      if w > 0 {
        RoundedBounds(k, h, w);
      }
    } else {
      RoundedBounds(k, w, h);
    }
  }

  /** Among the pixels of the same major coordinate, none is nearer to the ideal line. */
  lemma LineIsNearest(from: Point, to: Point, k: nat, other: int)
    ensures Width(from, to) >= Height(from, to) ==>
              Deviation(from, to, k, Down(from, to, k)) <= Deviation(from, to, k, other)
    ensures Width(from, to) < Height(from, to) ==>
              Deviation(from, to, Across(from, to, k), k) <= Deviation(from, to, other, k)
  {
    LineIsClose(from, to, k);
    var w, h := Width(from, to), Height(from, to);
    if w >= h {
      NearestMultiple(w, k * h, Down(from, to, k), other);
    } else {
      NearestMultiple(h, k * w, Across(from, to, k), other);
    }
  }

  lemma NearestMultiple(major: nat, target: int, b: int, other: int)
    requires 2 * Abs(b * major - target) <= major
    ensures Abs(b * major - target) <= Abs(other * major - target)
  {
    MulGap(b, other, major);
    MulGap(other, b, major);
  }

  lemma StraightPoint(from: Point, to: Point, k: nat)
    ensures from.y == to.y ==> LinePoint(from, to, k) == Point(from.x + Sign(from.x, to.x) * k, from.y)
    ensures from.x == to.x && from.y != to.y ==>
              LinePoint(from, to, k) == Point(from.x, from.y + Sign(from.y, to.y) * k)
  {
    if from.y == to.y && Width(from, to) > 0 {
      RoundedUnique(k, 0, Width(from, to), 0);
    } else if from.x == to.x && from.y != to.y {
      RoundedUnique(k, 0, Height(from, to), 0);
    }
  }

  /** A horizontal or vertical line covers exactly the pixels between its ends. */
  lemma StraightLine(from: Point, to: Point, x: int, y: int)
    requires from.x == to.x || from.y == to.y
    ensures Covers(Line(from, to), x, y) <==>
            Min(from.x, to.x) <= x <= Max(from.x, to.x) && Min(from.y, to.y) <= y <= Max(from.y, to.y)
  {
    hide LinePoint;
    var along := if from.y == to.y then Abs(x - from.x) else Abs(y - from.y);
    StraightPoint(from, to, along);
    if Covers(Line(from, to), x, y) {
      var k :| 0 <= k <= LastStep(from, to) && LinePoint(from, to, k) == Point(x, y);
      StraightPoint(from, to, k);
    }
    if Min(from.x, to.x) <= x <= Max(from.x, to.x) && Min(from.y, to.y) <= y <= Max(from.y, to.y) {
      assert LinePoint(from, to, along) == Point(x, y);
    }
  }

  // ----- the drawing routines -----

  method SetPixel(buf: array<byte>, width: nat, height: nat, x: int, y: int, color: Color)
    requires Framed(buf[..], width, height)
    modifies buf
    ensures Shows(old(buf[..]), buf[..], width, height, [Primitive(Dot(Point(x, y)), color)])
  {
    if 0 <= x < width && 0 <= y < height {
      OffsetInFrame(width, height, x, y);
      var offset := (y * width + x) * 4;
      buf[offset], buf[offset + 1], buf[offset + 2], buf[offset + 3] := color.r, color.g, color.b, color.a;
    }
    forall px, py | InCanvas(width, height, px, py)
      ensures PixelAt(buf[..], width, height, px, py) ==
              Look([Primitive(Dot(Point(x, y)), color)], PixelAt(old(buf[..]), width, height, px, py), px, py)
    {
      LookSingle(Dot(Point(x, y)), color, PixelAt(old(buf[..]), width, height, px, py), px, py);
      OffsetInFrame(width, height, px, py);
      if InCanvas(width, height, x, y) && (px != x || py != y) {
        OffsetsApart(width, px, py, x, y);
      }
    }
  }

  lemma StrokeGrows(a: seq<byte>, b: seq<byte>, c: seq<byte>, width: nat, height: nat,
                    from: Point, to: Point, k: nat, color: Color)
    requires Shows(a, b, width, height, [Primitive(StrokeTo(from, to, k), color)])
    requires Shows(b, c, width, height, [Primitive(Dot(LinePoint(from, to, k)), color)])
    ensures Shows(a, c, width, height, [Primitive(StrokeTo(from, to, k + 1), color)])
  {
    forall x, y | InCanvas(width, height, x, y)
      ensures PixelAt(c, width, height, x, y) ==
              Look([Primitive(StrokeTo(from, to, k + 1), color)], PixelAt(a, width, height, x, y), x, y)
    {
      LookSingle(StrokeTo(from, to, k), color, PixelAt(a, width, height, x, y), x, y);
      LookSingle(Dot(LinePoint(from, to, k)), color, PixelAt(b, width, height, x, y), x, y);
      LookSingle(StrokeTo(from, to, k + 1), color, PixelAt(a, width, height, x, y), x, y);
    }
  }

  lemma StrokeEmpty(a: seq<byte>, width: nat, height: nat, from: Point, to: Point, color: Color)
    requires Framed(a, width, height)
    ensures Shows(a, a, width, height, [Primitive(StrokeTo(from, to, 0), color)])
  {
  }

  /** The rasterizer's error term after k steps. */
  ghost function ErrorAt(from: Point, to: Point, k: nat): int {
    (Down(from, to, k) + 1) * Width(from, to) - (Across(from, to, k) + 1) * Height(from, to)
  }

  lemma MajorStep(k: nat, minor: nat, major: nat)
    requires 0 < major && minor <= major
    ensures var b := Rounded(k, minor, major);
            var e := (b + 1) * major - (k + 1) * minor;
            2 * e >= 0 - minor && Rounded(k + 1, minor, major) == if 2 * e <= major then b + 1 else b
  {
    var b := Rounded(k, minor, major);
    assert (b + 1) * major == b * major + major;
    assert (k + 1) * minor == k * minor + minor;
    RoundedBounds(k, minor, major);
    RoundedStep(k, minor, major);
  }

  /** The two error tests of one iteration decide exactly the steps of the closed form. */
  lemma ErrorDecidesStep(from: Point, to: Point, k: nat)
    requires k < LastStep(from, to)
    ensures Across(from, to, k + 1) - Across(from, to, k) ==
            if 2 * ErrorAt(from, to, k) >= 0 - Height(from, to) then 1 else 0
    ensures Down(from, to, k + 1) - Down(from, to, k) ==
            if 2 * ErrorAt(from, to, k) <= Width(from, to) then 1 else 0
  {
    if Width(from, to) >= Height(from, to) {
      MajorStep(k, Height(from, to), Width(from, to));
    } else {
      MajorStep(k, Width(from, to), Height(from, to));
    }
  }

  lemma NextStep(from: Point, to: Point, k: nat, dx: int, dy: int, sx: int, sy: int, x: int, y: int, err: int)
    requires k < LastStep(from, to)
    requires dx == Width(from, to) && dy == 0 - Height(from, to)
    requires sx == Sign(from.x, to.x) && sy == Sign(from.y, to.y)
    requires LinePoint(from, to, k) == Point(x, y) && ErrorAt(from, to, k) == err
    ensures LinePoint(from, to, k + 1) ==
            Point(x + if 2 * err >= dy then sx else 0, y + if 2 * err <= dx then sy else 0)
    ensures ErrorAt(from, to, k + 1) ==
            err + (if 2 * err >= dy then dy else 0) + (if 2 * err <= dx then dx else 0)
  {
    ErrorDecidesStep(from, to, k);
    var a, b := Across(from, to, k), Down(from, to, k);
    var i, j := if 2 * err >= dy then 1 else 0, if 2 * err <= dx then 1 else 0;
    assert (b + j + 1) * dx == (b + 1) * dx + j * dx;
    assert (a + i + 1) * Height(from, to) == (a + 1) * Height(from, to) + i * Height(from, to);
  }

  lemma StopsOnlyAtEnd(from: Point, to: Point, k: nat)
    requires k <= LastStep(from, to)
    ensures LinePoint(from, to, k) == to <==> k == LastStep(from, to)
  {
    LineEndpoints(from, to);
    if k < LastStep(from, to) {
      LineNeverRevisits(from, to, k, LastStep(from, to));
    }
  }

  lemma ErrorStart(from: Point, to: Point)
    ensures ErrorAt(from, to, 0) == Width(from, to) - Height(from, to)
  {
  }

  method DrawLine(buf: array<byte>, width: nat, height: nat, x0: int, y0: int, x1: int, y1: int, color: Color)
    requires Framed(buf[..], width, height)
    modifies buf
    ensures Shows(old(buf[..]), buf[..], width, height, [Primitive(Line(Point(x0, y0), Point(x1, y1)), color)])
  {
    ghost var from, to := Point(x0, y0), Point(x1, y1);
    ghost var k: nat := 0;
    var dx := Abs(x1 - x0);
    var sx := if x0 < x1 then 1 else -1;
    var dy := -Abs(y1 - y0);
    var sy := if y0 < y1 then 1 else -1;
    var err := dx + dy;
    var x, y := x0, y0;
    LineEndpoints(from, to);
    ErrorStart(from, to);
    StrokeEmpty(buf[..], width, height, from, to, color);
    while true
      invariant k <= LastStep(from, to)
      invariant LinePoint(from, to, k) == Point(x, y)
      invariant ErrorAt(from, to, k) == err
      invariant Shows(old(buf[..]), buf[..], width, height, [Primitive(StrokeTo(from, to, k), color)])
      decreases LastStep(from, to) - k
    {
      label Before:
      SetPixel(buf, width, height, x, y, color);
      StrokeGrows(old(buf[..]), old@Before(buf[..]), buf[..], width, height, from, to, k, color);
      StopsOnlyAtEnd(from, to, k);
      if x == x1 && y == y1 {
        break;
      }
      var twice := 2 * err;
      NextStep(from, to, k, dx, dy, sx, sy, x, y, err);
      if twice >= dy {
        err := err + dy;
        x := x + sx;
      }
      if twice <= dx {
        err := err + dx;
        y := y + sy;
      }
      k := k + 1;
    }
  }

  // ----- filled boxes with outlines -----

  method FillSpan(buf: array<byte>, width: nat, height: nat, row: int, left: int, right: int, fill: Color)
    requires Framed(buf[..], width, height)
    requires 0 <= row < height && 0 <= left && right <= width
    modifies buf
    ensures Shows(old(buf[..]), buf[..], width, height, [Primitive(Box(left, row, right, row + 1), fill)])
  {
    var start := (row * width + left) * 4;
    var end := (row * width + right) * 4;
    var pattern := [fill.r, fill.g, fill.b, fill.a];
    if end > start {
      OffsetInFrame(width, height, left, row);
      OffsetInFrame(width, height, right - 1, row);
      forall i | start <= i < end {
        buf[i] := pattern[(i - start) % 4];
      }
    }
    forall x, y | InCanvas(width, height, x, y)
      ensures PixelAt(buf[..], width, height, x, y) ==
              Look([Primitive(Box(left, row, right, row + 1), fill)], PixelAt(old(buf[..]), width, height, x, y), x, y)
    {
      LookSingle(Box(left, row, right, row + 1), fill, PixelAt(old(buf[..]), width, height, x, y), x, y);
      OffsetInFrame(width, height, x, y);
      var o := Offset(width, x, y);
      if y == row {
        assert o - start == 4 * (x - left) && o - end == 4 * (x - right);
      } else if end > start {
        OffsetsApart(width, x, y, left, row);
        OffsetsApart(width, x, y, right - 1, row);
        OutsideRow(width, x, y, left, right, row);
      }
    }
  }

  lemma OutsideRow(width: nat, x: int, y: int, left: int, right: int, row: int)
    requires 0 <= x < width && y != row && 0 <= left < right <= width
    ensures Offset(width, x, y) + 4 <= Offset(width, left, row) || Offset(width, x, y) >= Offset(width, right, row)
  {
    if y < row {
      assert (y + 1) * width <= row * width && (y + 1) * width == y * width + width;
    } else {
      assert (row + 1) * width <= y * width && (row + 1) * width == row * width + width;
    }
  }

  lemma BoxGrows(a: seq<byte>, b: seq<byte>, c: seq<byte>, width: nat, height: nat,
                 left: int, top: int, right: int, row: int, color: Color)
    requires top <= row
    requires Shows(a, b, width, height, [Primitive(Box(left, top, right, row), color)])
    requires Shows(b, c, width, height, [Primitive(Box(Max(0, left), row, Min(width, right), row + 1), color)])
    ensures Shows(a, c, width, height, [Primitive(Box(left, top, right, row + 1), color)])
  {
    forall x, y | InCanvas(width, height, x, y)
      ensures PixelAt(c, width, height, x, y) ==
              Look([Primitive(Box(left, top, right, row + 1), color)], PixelAt(a, width, height, x, y), x, y)
    {
      LookSingle(Box(left, top, right, row), color, PixelAt(a, width, height, x, y), x, y);
      LookSingle(Box(Max(0, left), row, Min(width, right), row + 1), color, PixelAt(b, width, height, x, y), x, y);
      LookSingle(Box(left, top, right, row + 1), color, PixelAt(a, width, height, x, y), x, y);
    }
  }

  /** Two boxes that agree inside the canvas look the same. */
  lemma BoxClipped(a: seq<byte>, b: seq<byte>, width: nat, height: nat, s: Shape, t: Shape, color: Color)
    requires Shows(a, b, width, height, [Primitive(s, color)])
    requires forall x, y | InCanvas(width, height, x, y) :: Covers(s, x, y) <==> Covers(t, x, y)
    ensures Shows(a, b, width, height, [Primitive(t, color)])
  {
  }

  method FillBox(buf: array<byte>, width: nat, height: nat, x: int, y: int, w: int, h: int, fill: Color)
    requires Framed(buf[..], width, height)
    modifies buf
    ensures Shows(old(buf[..]), buf[..], width, height, [Primitive(Box(x, y, x + w, y + h), fill)])
  {
    var top, bottom := Max(0, y), Min(height, y + h);
    var row := top;
    assert Shows(buf[..], buf[..], width, height, [Primitive(Box(x, top, x + w, top), fill)]) by {
      forall px, py | InCanvas(width, height, px, py)
        ensures Look([Primitive(Box(x, top, x + w, top), fill)], PixelAt(buf[..], width, height, px, py), px, py) ==
                PixelAt(buf[..], width, height, px, py)
      {
        LookSingle(Box(x, top, x + w, top), fill, PixelAt(buf[..], width, height, px, py), px, py);
      }
    }
    while row < bottom
      invariant top <= row && (row <= bottom || row == top)
      invariant Shows(old(buf[..]), buf[..], width, height, [Primitive(Box(x, top, x + w, row), fill)])
    {
      label Before:
      FillSpan(buf, width, height, row, Max(0, x), Min(width, x + w), fill);
      BoxGrows(old(buf[..]), old@Before(buf[..]), buf[..], width, height, x, top, x + w, row, fill);
      row := row + 1;
    }
    BoxClipped(old(buf[..]), buf[..], width, height, Box(x, top, x + w, row), Box(x, y, x + w, y + h), fill);
  }

  /** A node box: its fill, then its four sides in the order the rasterizer draws them. */
  function BoxPrimitives(x: int, y: int, w: int, h: int, fill: Color, stroke: Color): seq<Primitive> {
    var nw, ne := Point(x, y), Point(x + w - 1, y);
    var sw, se := Point(x, y + h - 1), Point(x + w - 1, y + h - 1);
    [Primitive(Box(x, y, x + w, y + h), fill)] + [Primitive(Line(nw, ne), stroke)] + [Primitive(Line(sw, se), stroke)]
    + [Primitive(Line(nw, sw), stroke)] + [Primitive(Line(ne, se), stroke)]
  }

  method DrawRect(buf: array<byte>, width: nat, height: nat, x: int, y: int, w: int, h: int, fill: Color, stroke: Color)
    requires Framed(buf[..], width, height)
    modifies buf
    ensures Shows(old(buf[..]), buf[..], width, height, BoxPrimitives(x, y, w, h, fill, stroke))
  {
    FillBox(buf, width, height, x, y, w, h, fill);
    ghost var b1 := buf[..];
    DrawLine(buf, width, height, x, y, x + w - 1, y, stroke);
    ghost var b2 := buf[..];
    DrawLine(buf, width, height, x, y + h - 1, x + w - 1, y + h - 1, stroke);
    ghost var b3 := buf[..];
    DrawLine(buf, width, height, x, y, x, y + h - 1, stroke);
    ghost var b4 := buf[..];
    DrawLine(buf, width, height, x + w - 1, y, x + w - 1, y + h - 1, stroke);
    ghost var p := BoxPrimitives(x, y, w, h, fill, stroke);
    ShowsThen(old(buf[..]), b1, b2, width, height, p[..1], p[1..2]);
    ShowsThen(old(buf[..]), b2, b3, width, height, p[..1] + p[1..2], p[2..3]);
    ShowsThen(old(buf[..]), b3, b4, width, height, p[..1] + p[1..2] + p[2..3], p[3..4]);
    ShowsThen(old(buf[..]), b4, buf[..], width, height, p[..1] + p[1..2] + p[2..3] + p[3..4], p[4..5]);
    assert p == p[..1] + p[1..2] + p[2..3] + p[3..4] + p[4..5];
  }
}
