/**
 * The framebuffer driver of lcdDriver.c / lcdDriver.h: a 128 x 128 buffer of
 * 16-bit colours in row-major order, the global foreground and background
 * colours, the bounds-checked drawing primitives, and the routines that
 * stream the buffer to the panel.  LCD_PIXEL_DRAW_BOUNDS_CHECK is defined, so
 * every primitive reports an LcdError.  What goes out over SPI is recorded,
 * in order, in `log`.
 */
module LcdDriver {
  import opened RealMath
  import opened LcdShapes

  /** LCD_CMD_RAM_WRITE: the command that starts a frame of pixel data. */
  const LcdCmdRamWrite: bv8 := 0x2c

  /** LCD_Error_t. */
  datatype LcdError = NoError | OutOfBounds

  /** One transfer on the SPI link: a byte with the command/data line low
      (LCD_writeCommand) or high (LCD_writeData). */
  datatype LcdWrite = Command(code: bv8) | Data(value: bv8)

  // ---------------------------------------------------------------------
  // Colours (MAKE_COLOR16, RGB 5-6-5)

  function Red(c: bv16): bv16 { c >> 11 }
  function Green(c: bv16): bv16 { (c >> 5) & 0x3f }
  function Blue(c: bv16): bv16 { c & 0x1f }

  function MakeColor16(r: bv16, g: bv16, b: bv16): (c: bv16)
    ensures r < 32 && g < 64 && b < 32 ==> Red(c) == r && Green(c) == g && Blue(c) == b
    ensures r < 32 && g < 64 && b < 32 ==> c == r * 2048 + g * 32 + b
  {
    (r << 11) | (g << 5) | b
  }

  /** Every 16-bit colour is the packing of its own three fields. */
  lemma ColorFieldsRoundTrip(c: bv16)
    ensures Red(c) < 32 && Green(c) < 64 && Blue(c) < 32
    ensures MakeColor16(Red(c), Green(c), Blue(c)) == c
  {
  }

  // ---------------------------------------------------------------------
  // Bytes on the wire

  /** The two data bytes sendBuffer writes for a pixel, high byte first. */
  function HighByte(c: bv16): bv8 { (c >> 8) as bv8 }
  function LowByte(c: bv16): bv8 { (c & 0xff) as bv8 }

  /** The panel reassembles a pixel from its high and low byte. */
  function Join(high: bv8, low: bv8): bv16 { ((high as bv16) << 8) | (low as bv16) }

  lemma JoinSplit(c: bv16)
    ensures Join(HighByte(c), LowByte(c)) == c
  {
  }

  function PixelBytes(c: bv16): seq<LcdWrite> {
    [Data(HighByte(c)), Data(LowByte(c))]
  }

  /** The data transfers for a run of pixels, in index order. */
  function FrameData(s: seq<bv16>): (w: seq<LcdWrite>)
    ensures |w| == 2 * |s|
  {
    if |s| == 0 then [] else FrameData(s[..|s| - 1]) + PixelBytes(s[|s| - 1])
  }

  /** Pixel i goes out as transfers 2i (high byte) and 2i+1 (low byte), and
      the two bytes join back to the pixel. */
  lemma {:induction false} FrameDataAt(s: seq<bv16>, i: int)
    requires 0 <= i < |s|
    ensures FrameData(s)[2 * i] == Data(HighByte(s[i]))
    ensures FrameData(s)[2 * i + 1] == Data(LowByte(s[i]))
    ensures Join(FrameData(s)[2 * i].value, FrameData(s)[2 * i + 1].value) == s[i]
  {
    JoinSplit(s[i]);
    if i < |s| - 1 {
      var p := s[..|s| - 1];
      FrameDataAt(p, i);
      assert FrameData(s) == FrameData(p) + PixelBytes(s[|s| - 1]);
    }
  }

  /** The transfers LCD_sendCustomBuffer makes: its bytes, as data. */
  function DataBytes(bytes: seq<bv8>): (w: seq<LcdWrite>)
    ensures |w| == |bytes|
    ensures forall i :: 0 <= i < |bytes| ==> w[i] == Data(bytes[i])
  {
    seq(|bytes|, i requires 0 <= i < |bytes| => Data(bytes[i]))
  }

  // ---------------------------------------------------------------------
  // "Exactly these pixels change"

  /** `after` is `before` with exactly the on-screen pixels of `s` set to c:
      those become c and every other pixel keeps its value. */
  predicate Painted(after: seq<bv16>, before: seq<bv16>, s: set<Point>, c: bv16)
    requires |after| == PixelCount && |before| == PixelCount
  {
    forall i :: 0 <= i < PixelCount ==> after[i] == (if PointAt(i) in s then c else before[i])
  }

  lemma PaintedNothing(b: seq<bv16>, c: bv16)
    requires |b| == PixelCount
    ensures Painted(b, b, {}, c)
  {
  }

  lemma PaintedCompose(b0: seq<bv16>, b1: seq<bv16>, b2: seq<bv16>, s: set<Point>, t: set<Point>, c: bv16)
    requires |b0| == PixelCount && |b1| == PixelCount && |b2| == PixelCount
    requires Painted(b1, b0, s, c) && Painted(b2, b1, t, c)
    ensures Painted(b2, b0, s + t, c)
  {
  }

  /** Storing c at an on-screen pixel paints that pixel. */
  lemma PaintedStore(b0: seq<bv16>, b1: seq<bv16>, s: set<Point>, c: bv16, x: int, y: int)
    requires |b0| == PixelCount && |b1| == PixelCount && OnScreen(x, y)
    requires Painted(b1, b0, s, c)
    ensures Painted(b1[Index(x, y) := c], b0, s + {(x, y)}, c)
  {
    IndexPointAt(x, y);
  }

  /** The two endpoints of an arc, relative to its centre. */
  datatype ArcEnds = ArcEnds(x0: int, y0: int, x1: int, y1: int)

  /** The endpoints drawArc computes: r cos and r sin of each angle,
      truncated toward zero (the int16_t casts). */
  function ArcEndsFor(m: MathLib, r: int, startAngle: real, endAngle: real): (e: ArcEnds)
    ensures Near(e.x0 as real, r, m.cos(startAngle)) && Near(e.y0 as real, r, m.sin(startAngle))
    ensures Near(e.x1 as real, r, m.cos(endAngle)) && Near(e.y1 as real, r, m.sin(endAngle))
  {
    ArcEnds(Trunc(r as real * m.cos(startAngle)), Trunc(r as real * m.sin(startAngle)),
            Trunc(r as real * m.cos(endAngle)), Trunc(r as real * m.sin(endAngle)))
  }

  /** An integer within 1 of a value no larger than r in absolute value
      lies in [-r, r]. */
  lemma NearWithin(n: int, r: int, t: real)
    requires Abs(n as real - t) < 1.0 && Abs(t) <= r as real
    ensures -r <= n <= r
  {
  }

  /** A factor at most 1 in absolute value keeps a non-negative r within r. */
  lemma ScaledWithin(r: real, c: real)
    requires 0.0 <= r && Abs(c) <= 1.0
    ensures Abs(r * c) <= r
  {
    if c < 0.0 {
      assert r * c == -(r * -c);
    }
    assert r * Abs(c) <= r * 1.0;
  }

  /** The window drawArc clips its loop to.  With a sound library and a
      non-negative radius it holds both end points and stays inside the
      box of the radius. */
  function ArcWindowFor(m: MathLib, r: int, startAngle: real, endAngle: real): (w: Window)
    ensures Sound(m) && 0 <= r ==>
      var e := ArcEndsFor(m, r, startAngle, endAngle);
      && InWindow(w, e.x0, e.y0) && InWindow(w, e.x1, e.y1)
      && -r <= w.xLo && w.xHi <= r && -r <= w.yLo && w.yHi <= r
  {
    var e := ArcEndsFor(m, r, startAngle, endAngle);
    EndsWithinRadius(m, r, startAngle, endAngle, e);
    ArcWindow(r, e.x0, e.y0, e.x1, e.y1)
  }

  /** With a sound library, both truncated end points lie in the box of a
      non-negative radius. */
  lemma EndsWithinRadius(m: MathLib, r: int, startAngle: real, endAngle: real, e: ArcEnds)
    requires e == ArcEndsFor(m, r, startAngle, endAngle)
    ensures Sound(m) && 0 <= r ==> InBox(0, 0, r, (e.x0, e.y0)) && InBox(0, 0, r, (e.x1, e.y1))
  {
    if Sound(m) && 0 <= r {
      EndWithinRadius(m, r, startAngle, e.x0, e.y0);
      EndWithinRadius(m, r, endAngle, e.x1, e.y1);
    }
  }

  /** The same for one end point (x, y) near r (cos t, sin t). */
  lemma EndWithinRadius(m: MathLib, r: int, t: real, x: int, y: int)
    requires Sound(m) && 0 <= r
    requires Near(x as real, r, m.cos(t)) && Near(y as real, r, m.sin(t))
    ensures InBox(0, 0, r, (x, y))
  {
    CosSinBounded(m, t);
    CoordWithin(r, m.cos(t), x);
    CoordWithin(r, m.sin(t), y);
  }

  /** An integer near r c, for |c| <= 1, lies in [-r, r]. */
  lemma CoordWithin(r: int, c: real, n: int)
    requires 0 <= r && Abs(c) <= 1.0 && Near(n as real, r, c)
    ensures -r <= n <= r
  {
    ScaledWithin(r as real, c);
    NearWithin(n, r, r as real * c);
  }

  // ---------------------------------------------------------------------
  // The driver state

  /** The update that ends each turn of the midpoint loops of drawCircle,
      fillCircle and drawArc: y advances, the error grows, and when the
      error says the circle has moved inward x retreats. */
  method StepMidpoint(x: int, y: int, error: int) returns (x': int, y': int, error': int)
    ensures Midpoint(x', y', error') == NextMidpoint(Midpoint(x, y, error))
  {
    y' := y + 1;
    error' := error + 1 + 2 * y';
    x' := x;
    if 2 * (error' - x) + 1 > 0 {
      x' := x - 1;
      error' := error' + 1 - 2 * x';
    }
  }

  class Lcd {
    /** pixelBuffer, LCD_SCREEN_HEIGHT * LCD_SCREEN_WIDTH entries, row-major. */
    const pixelBuffer: array<bv16>
    var foregroundColor: bv16
    var backgroundColor: bv16
    /** Everything written to the panel so far. */
    var log: seq<LcdWrite>

    predicate Valid() {
      pixelBuffer.Length == PixelCount
    }

    /** The state at reset: a zeroed buffer, black on white, nothing sent. */
    constructor ()
      ensures Valid() && fresh(pixelBuffer)
      ensures forall i :: 0 <= i < PixelCount ==> pixelBuffer[i] == 0
      ensures foregroundColor == 0x0000 && backgroundColor == 0xffff && log == []
    {
      pixelBuffer := new bv16[PixelCount](_ => 0);
      foregroundColor := 0x0000;
      backgroundColor := 0xffff;
      log := [];
    }

    method SetForegroundColor(color: bv16)
      modifies this`foregroundColor
      ensures foregroundColor == color
    {
      foregroundColor := color;
    }

    method SetBackgroundColor(color: bv16)
      modifies this`backgroundColor
      ensures backgroundColor == color
    {
      backgroundColor := color;
    }

    /** The unchecked store `pixelBufferOverlay[y][x] = foregroundColor` the
        drawing loops make; `done` is the set painted so far. */
    method Plot(x: int, y: int, ghost before: seq<bv16>, ghost done: set<Point>)
      requires Valid() && OnScreen(x, y) && |before| == PixelCount
      requires Painted(pixelBuffer[..], before, done, foregroundColor)
      modifies pixelBuffer
      ensures Painted(pixelBuffer[..], before, done + {(x, y)}, foregroundColor)
    {
      PaintedStore(before, pixelBuffer[..], done, foregroundColor, x, y);
      pixelBuffer[Index(x, y)] := foregroundColor;
    }

    method DrawPixel(x: int, y: int) returns (err: LcdError)
      requires Valid()
      modifies pixelBuffer
      ensures OnScreen(x, y) ==> (err == NoError &&
        pixelBuffer[..] == old(pixelBuffer[..])[Index(x, y) := foregroundColor] &&
        Painted(pixelBuffer[..], old(pixelBuffer[..]), {(x, y)}, foregroundColor))
      ensures !OnScreen(x, y) ==> err == OutOfBounds && pixelBuffer[..] == old(pixelBuffer[..])
    {
      if 0 <= x < ScreenWidth && 0 <= y < ScreenHeight {
        IndexPointAt(x, y);
        pixelBuffer[Index(x, y)] := foregroundColor;
        return NoError;
      }
      return OutOfBounds;
    }

    method FillRect(x0: int, y0: int, x1: int, y1: int) returns (err: LcdError)
      requires Valid()
      modifies pixelBuffer
      ensures OnScreen(x0, y0) && OnScreen(x1, y1) ==> (err == NoError &&
        Painted(pixelBuffer[..], old(pixelBuffer[..]), Rect(x0, y0, x1, y1), foregroundColor))
      ensures !(OnScreen(x0, y0) && OnScreen(x1, y1)) ==>
        err == OutOfBounds && pixelBuffer[..] == old(pixelBuffer[..])
    {
      if !(OnScreen(x0, y0) && OnScreen(x1, y1)) {
        return OutOfBounds;
      }
      var xMin, xMax := if x0 < x1 then x0 else x1, if x0 < x1 then x1 else x0;
      var yMin, yMax := if y0 < y1 then y0 else y1, if y0 < y1 then y1 else y0;
      ghost var before := pixelBuffer[..];
      PaintedNothing(before, foregroundColor);
      var y := yMin;
      while y <= yMax
        invariant yMin <= y <= yMax + 1
        invariant Painted(pixelBuffer[..], before, Block(xMin, xMax, yMin, y - 1), foregroundColor)
      {
        ghost var rowStart := pixelBuffer[..];
        PaintedNothing(rowStart, foregroundColor);
        var x := xMin;
        while x <= xMax
          invariant xMin <= x <= xMax + 1
          invariant Painted(pixelBuffer[..], rowStart, Row(y, xMin, x - 1), foregroundColor)
        {
          Plot(x, y, rowStart, Row(y, xMin, x - 1));
          RowExtend(y, xMin, x);
          x := x + 1;
        }
        PaintedCompose(before, rowStart, pixelBuffer[..], Block(xMin, xMax, yMin, y - 1), Row(y, xMin, xMax), foregroundColor);
        BlockExtend(xMin, xMax, yMin, y);
        y := y + 1;
      }
      assert Rect(x0, y0, x1, y1) == Block(xMin, xMax, yMin, yMax);
      return NoError;
    }

    method DrawLineVertical(x: int, y0: int, y1: int) returns (err: LcdError)
      requires Valid()
      modifies pixelBuffer
      ensures OnScreen(x, y0) && OnScreen(x, y1) ==> (err == NoError &&
        Painted(pixelBuffer[..], old(pixelBuffer[..]), VerticalSegment(x, y0, y1), foregroundColor))
      ensures !(OnScreen(x, y0) && OnScreen(x, y1)) ==>
        err == OutOfBounds && pixelBuffer[..] == old(pixelBuffer[..])
    {
      if x < 0 || x >= ScreenWidth || y0 < 0 || y0 >= ScreenHeight || y1 < 0 || y1 >= ScreenHeight {
        return OutOfBounds;
      }
      var yMin, yMax := if y0 < y1 then y0 else y1, if y0 < y1 then y1 else y0;
      ghost var before := pixelBuffer[..];
      ghost var done: set<Point> := {};
      PaintedNothing(before, foregroundColor);
      var y := yMin;
      while y <= yMax
        invariant yMin <= y <= yMax + 1
        invariant done == Column(x, yMin, y - 1)
        invariant Painted(pixelBuffer[..], before, done, foregroundColor)
      {
        Plot(x, y, before, done);
        done := done + {(x, y)};
        y := y + 1;
      }
      return NoError;
    }

    method DrawLineHorizontal(x0: int, x1: int, y: int) returns (err: LcdError)
      requires Valid()
      modifies pixelBuffer
      ensures OnScreen(x0, y) && OnScreen(x1, y) ==> (err == NoError &&
        Painted(pixelBuffer[..], old(pixelBuffer[..]), HorizontalSegment(x0, x1, y), foregroundColor))
      ensures !(OnScreen(x0, y) && OnScreen(x1, y)) ==>
        err == OutOfBounds && pixelBuffer[..] == old(pixelBuffer[..])
    {
      if y < 0 || y >= ScreenHeight || x0 < 0 || x0 >= ScreenWidth || x1 < 0 || x1 >= ScreenWidth {
        return OutOfBounds;
      }
      var xMin, xMax := if x0 < x1 then x0 else x1, if x0 < x1 then x1 else x0;
      ghost var before := pixelBuffer[..];
      ghost var done: set<Point> := {};
      PaintedNothing(before, foregroundColor);
      var x := xMin;
      while x <= xMax
        invariant xMin <= x <= xMax + 1
        invariant done == Row(y, xMin, x - 1)
        invariant Painted(pixelBuffer[..], before, done, foregroundColor)
      {
        Plot(x, y, before, done);
        done := done + {(x, y)};
        x := x + 1;
      }
      return NoError;
    }
  
    /** LCD_drawLine restricted to axis-aligned lines, with the guard checking
        all four coordinates: the delegated segment call, then the
        slope-stepping loop, which with slope 0 walks the same segment. */
    method DrawLine(x0: int, y0: int, x1: int, y1: int) returns (err: LcdError)
      requires Valid()
      requires x0 == x1 || y0 == y1
      modifies pixelBuffer
      ensures LineGuard(x0, y0, x1, y1) ==>
        err == OutOfBounds && pixelBuffer[..] == old(pixelBuffer[..])
      ensures !LineGuard(x0, y0, x1, y1) ==> (err == NoError &&
        Painted(pixelBuffer[..], old(pixelBuffer[..]),
          if x0 == x1 then VerticalSegment(x0, y0, y1) else HorizontalSegment(x0, x1, y0),
          foregroundColor))
    {
      if x0 < 0 || x0 >= ScreenWidth || y0 < 0 || y0 >= ScreenHeight ||
         x1 < 0 || x1 >= ScreenWidth || y1 < 0 || y1 >= ScreenHeight {
        return OutOfBounds;
      }
      var deltaX, deltaY := x1 - x0, y1 - y0;
      ghost var before := pixelBuffer[..];
      ghost var segment := if deltaX == 0 then VerticalSegment(x0, y0, y1) else HorizontalSegment(x0, x1, y0);
      PaintedNothing(before, foregroundColor);
      if deltaX == 0 {
        var _ := DrawLineVertical(x0, y0, y1);
      }
      ghost var middle := pixelBuffer[..];
      if deltaY == 0 {
        var _ := DrawLineHorizontal(x0, x1, y0);
        if deltaX == 0 {
          PaintedCompose(before, middle, pixelBuffer[..], VerticalSegment(x0, y0, y1),
            HorizontalSegment(x0, x1, y0), foregroundColor);
          assert VerticalSegment(x0, y0, y1) + HorizontalSegment(x0, x1, y0) == segment;
        }
      }
      assert Painted(pixelBuffer[..], before, segment, foregroundColor);
      AxisSweepOnSegment(x0, y0, x1, y1);
      if Span(x0, x1) > Span(y0, y1) {
        var xAdv := if deltaX > 0 then 1 else -1;
        var x := x0;
        while x != x1
          invariant Min(x0, x1) <= x <= Max(x0, x1)
          invariant x0 < x1 ==> x0 <= x && xAdv == 1
          invariant x1 < x0 ==> x <= x0 && xAdv == -1
          invariant Painted(pixelBuffer[..], before, segment, foregroundColor)
          decreases Span(x, x1)
        {
          assert (x, y0) in segment;
          Plot(x, y0, before, segment);
          assert segment + {(x, y0)} == segment;
          x := x + xAdv;
        }
      } else {
        var yAdv := if deltaY > 0 then 1 else -1;
        var y := y0;
        while y != y1
          invariant Min(y0, y1) <= y <= Max(y0, y1)
          invariant y0 < y1 ==> y0 <= y && yAdv == 1
          invariant y1 < y0 ==> y <= y0 && yAdv == -1
          invariant Painted(pixelBuffer[..], before, segment, foregroundColor)
          decreases Span(y, y1)
        {
          assert (x0, y) in segment;
          Plot(x0, y, before, segment);
          assert segment + {(x0, y)} == segment;
          y := y + yAdv;
        }
      }
      return NoError;
    }

    method DrawCircle(cx: int, cy: int, r: int) returns (err: LcdError)
      requires Valid()
      modifies pixelBuffer
      ensures CircleFits(cx, cy, r) ==> (err == NoError &&
        Painted(pixelBuffer[..], old(pixelBuffer[..]), CirclePoints(cx, cy, r), foregroundColor))
      ensures !CircleFits(cx, cy, r) ==>
        err == OutOfBounds && pixelBuffer[..] == old(pixelBuffer[..])
    {
      if cx - r < 0 || cx + r >= ScreenWidth || cy - r < 0 || cy + r >= ScreenHeight {
        return OutOfBounds;
      }
      ghost var before := pixelBuffer[..];
      ghost var done: set<Point> := {};
      PaintedNothing(before, foregroundColor);
      var x, y, error := r, 0, 0;
      while x >= y
        invariant CirclePoints(cx, cy, r) == done + CircleFrom(cx, cy, Midpoint(x, y, error))
        invariant Painted(pixelBuffer[..], before, done, foregroundColor)
        invariant 0 <= y && x <= r
        decreases x - y + 1
      {
        PlotUpper(cx, cy, x, y, before, done);
        done := done + UpperOctants(cx, cy, x, y);
        PlotLower(cx, cy, x, y, before, done);
        done := done + LowerOctants(cx, cy, x, y);
        x, y, error := StepMidpoint(x, y, error);
      }
      return NoError;
    }

    method FillCircle(cx: int, cy: int, r: int) returns (err: LcdError)
      requires Valid()
      modifies pixelBuffer
      ensures CircleFits(cx, cy, r) ==> (err == NoError &&
        Painted(pixelBuffer[..], old(pixelBuffer[..]), DiscPoints(cx, cy, r), foregroundColor))
      ensures !CircleFits(cx, cy, r) ==>
        err == OutOfBounds && pixelBuffer[..] == old(pixelBuffer[..])
    {
      if cx - r < 0 || cx + r >= ScreenWidth || cy - r < 0 || cy + r >= ScreenHeight {
        return OutOfBounds;
      }
      ghost var before := pixelBuffer[..];
      ghost var done: set<Point> := {};
      PaintedNothing(before, foregroundColor);
      var x, y, error := r, 0, 0;
      while x >= y
        invariant DiscPoints(cx, cy, r) == done + DiscFrom(cx, cy, Midpoint(x, y, error))
        invariant Painted(pixelBuffer[..], before, done, foregroundColor)
        invariant 0 <= y && x <= r
        decreases x - y + 1
      {
        ghost var b0 := pixelBuffer[..];
        FillRightChords(cx, cy, x, y);
        PaintedCompose(before, b0, pixelBuffer[..], done, RightChords(cx, cy, x, y), foregroundColor);
        done := done + RightChords(cx, cy, x, y);
        ghost var b1 := pixelBuffer[..];
        FillLeftChords(cx, cy, x, y);
        PaintedCompose(before, b1, pixelBuffer[..], done, LeftChords(cx, cy, x, y), foregroundColor);
        done := done + LeftChords(cx, cy, x, y);
        x, y, error := StepMidpoint(x, y, error);
      }
      return NoError;
    }

    /** The eight points a step with 0 <= y <= x plots lie on screen. */
    predicate StepOnScreen(cx: int, cy: int, x: int, y: int) {
      0 <= y <= x &&
      0 <= cx - x && cx + x < ScreenWidth && 0 <= cy - x && cy + x < ScreenHeight &&
      0 <= cx - y && cx + y < ScreenWidth && 0 <= cy - y && cy + y < ScreenHeight
    }

    /** The stores of one step that the comments in drawCircle
        (lcdDriver.c) label first and second quadrant. */
    method PlotUpper(cx: int, cy: int, x: int, y: int, ghost before: seq<bv16>, ghost done: set<Point>)
      requires Valid() && |before| == PixelCount
      requires StepOnScreen(cx, cy, x, y)
      requires Painted(pixelBuffer[..], before, done, foregroundColor)
      modifies pixelBuffer
      ensures Painted(pixelBuffer[..], before, done + UpperOctants(cx, cy, x, y), foregroundColor)
    {
      ghost var d := done;
      Plot(cx + x, cy + y, before, d); d := d + {(cx + x, cy + y)};
      Plot(cx + y, cy + x, before, d); d := d + {(cx + y, cy + x)};
      Plot(cx - x, cy + y, before, d); d := d + {(cx - x, cy + y)};
      Plot(cx - y, cy + x, before, d); d := d + {(cx - y, cy + x)};
      assert d == done + UpperOctants(cx, cy, x, y);
    }

    /** The third and fourth quadrant stores of one step. */
    method PlotLower(cx: int, cy: int, x: int, y: int, ghost before: seq<bv16>, ghost done: set<Point>)
      requires Valid() && |before| == PixelCount
      requires StepOnScreen(cx, cy, x, y)
      requires Painted(pixelBuffer[..], before, done, foregroundColor)
      modifies pixelBuffer
      ensures Painted(pixelBuffer[..], before, done + LowerOctants(cx, cy, x, y), foregroundColor)
    {
      ghost var d := done;
      Plot(cx - x, cy - y, before, d); d := d + {(cx - x, cy - y)};
      Plot(cx - y, cy - x, before, d); d := d + {(cx - y, cy - x)};
      Plot(cx + x, cy - y, before, d); d := d + {(cx + x, cy - y)};
      Plot(cx + y, cy - x, before, d); d := d + {(cx + y, cy - x)};
      assert d == done + LowerOctants(cx, cy, x, y);
    }

    /** One guarded store of drawArc: plot offset (dx, dy) if the window
        admits it. */
    method PlotClipped(cx: int, cy: int, dx: int, dy: int, w: Window,
                       ghost before: seq<bv16>, ghost done: set<Point>)
      requires Valid() && |before| == PixelCount && OnScreen(cx + dx, cy + dy)
      requires Painted(pixelBuffer[..], before, done, foregroundColor)
      modifies pixelBuffer
      ensures Painted(pixelBuffer[..], before, done + Clip(cx, cy, dx, dy, w), foregroundColor)
    {
      if w.xLo <= dx <= w.xHi && w.yLo <= dy <= w.yHi {
        Plot(cx + dx, cy + dy, before, done);
      } else {
        assert done + Clip(cx, cy, dx, dy, w) == done;
      }
    }

    method PlotClippedUpper(cx: int, cy: int, x: int, y: int, w: Window,
                            ghost before: seq<bv16>, ghost done: set<Point>)
      requires Valid() && |before| == PixelCount
      requires StepOnScreen(cx, cy, x, y)
      requires Painted(pixelBuffer[..], before, done, foregroundColor)
      modifies pixelBuffer
      ensures Painted(pixelBuffer[..], before, done + ClippedUpper(cx, cy, x, y, w), foregroundColor)
    {
      ghost var d := done;
      PlotClipped(cx, cy, x, y, w, before, d); d := d + Clip(cx, cy, x, y, w);
      PlotClipped(cx, cy, y, x, w, before, d); d := d + Clip(cx, cy, y, x, w);
      PlotClipped(cx, cy, -x, y, w, before, d); d := d + Clip(cx, cy, -x, y, w);
      PlotClipped(cx, cy, -y, x, w, before, d); d := d + Clip(cx, cy, -y, x, w);
      assert d == done + ClippedUpper(cx, cy, x, y, w);
    }

    method PlotClippedLower(cx: int, cy: int, x: int, y: int, w: Window,
                            ghost before: seq<bv16>, ghost done: set<Point>)
      requires Valid() && |before| == PixelCount
      requires StepOnScreen(cx, cy, x, y)
      requires Painted(pixelBuffer[..], before, done, foregroundColor)
      modifies pixelBuffer
      ensures Painted(pixelBuffer[..], before, done + ClippedLower(cx, cy, x, y, w), foregroundColor)
    {
      ghost var d := done;
      PlotClipped(cx, cy, -x, -y, w, before, d); d := d + Clip(cx, cy, -x, -y, w);
      PlotClipped(cx, cy, -y, -x, w, before, d); d := d + Clip(cx, cy, -y, -x, w);
      PlotClipped(cx, cy, x, -y, w, before, d); d := d + Clip(cx, cy, x, -y, w);
      PlotClipped(cx, cy, y, -x, w, before, d); d := d + Clip(cx, cy, y, -x, w);
      assert d == done + ClippedLower(cx, cy, x, y, w);
    }

    /** The two vertical lines of one step of fillCircle right of the centre. */
    method FillRightChords(cx: int, cy: int, x: int, y: int)
      requires Valid() && StepOnScreen(cx, cy, x, y)
      modifies pixelBuffer
      ensures Painted(pixelBuffer[..], old(pixelBuffer[..]), RightChords(cx, cy, x, y), foregroundColor)
    {
      assert OnScreen(cx + x, cy - y) && OnScreen(cx + x, cy + y);
      assert OnScreen(cx + y, cy - x) && OnScreen(cx + y, cy + x);
      ghost var b0 := pixelBuffer[..];
      var _ := DrawLineVertical(cx + x, cy - y, cy + y);
      ghost var b1 := pixelBuffer[..];
      var _ := DrawLineVertical(cx + y, cy - x, cy + x);
      PaintedCompose(b0, b1, pixelBuffer[..], VerticalSegment(cx + x, cy - y, cy + y),
                     VerticalSegment(cx + y, cy - x, cy + x), foregroundColor);
    }

    /** The two vertical lines of one step left of the centre. */
    method FillLeftChords(cx: int, cy: int, x: int, y: int)
      requires Valid() && StepOnScreen(cx, cy, x, y)
      modifies pixelBuffer
      ensures Painted(pixelBuffer[..], old(pixelBuffer[..]), LeftChords(cx, cy, x, y), foregroundColor)
    {
      assert OnScreen(cx - x, cy - y) && OnScreen(cx - x, cy + y);
      assert OnScreen(cx - y, cy - x) && OnScreen(cx - y, cy + x);
      ghost var b0 := pixelBuffer[..];
      var _ := DrawLineVertical(cx - x, cy - y, cy + y);
      ghost var b1 := pixelBuffer[..];
      var _ := DrawLineVertical(cx - y, cy - x, cy + x);
      PaintedCompose(b0, b1, pixelBuffer[..], VerticalSegment(cx - x, cy - y, cy + y),
                     VerticalSegment(cx - y, cy - x, cy + x), foregroundColor);
    }

    /** LCD_drawArc.  The centre and radius are not checked, so the caller
        must keep the circle on screen. */
    method DrawArc(m: MathLib, cx: int, cy: int, r: int, startAngle: real, endAngle: real)
      returns (err: LcdError)
      requires Valid()
      requires startAngle == endAngle || r < 0 || CircleFits(cx, cy, r)
      modifies pixelBuffer
      ensures startAngle == endAngle ==>
        err == OutOfBounds && pixelBuffer[..] == old(pixelBuffer[..])
      ensures startAngle != endAngle ==> (err == NoError &&
        Painted(pixelBuffer[..], old(pixelBuffer[..]),
          ArcPoints(cx, cy, r, ArcWindowFor(m, r, startAngle, endAngle)), foregroundColor))
    {
      if startAngle == endAngle {
        return OutOfBounds;
      }
      var ends := ArcEndsFor(m, r, startAngle, endAngle);
      var w := ArcWindow(r, ends.x0, ends.y0, ends.x1, ends.y1);
      DrawClippedCircle(cx, cy, r, w);
      return NoError;
    }

    /** The clipped midpoint loop of drawArc: drawCircle's stepping, with
        each of the eight stores made only when its offset is in w. */
    method DrawClippedCircle(cx: int, cy: int, r: int, w: Window)
      requires Valid()
      requires r < 0 || CircleFits(cx, cy, r)
      modifies pixelBuffer
      ensures Painted(pixelBuffer[..], old(pixelBuffer[..]), ArcPoints(cx, cy, r, w), foregroundColor)
    {
      ghost var before := pixelBuffer[..];
      ghost var done: set<Point> := {};
      PaintedNothing(before, foregroundColor);
      var x, y, error := r, 0, 0;
      while x >= y
        invariant ArcPoints(cx, cy, r, w) == done + ArcFrom(cx, cy, Midpoint(x, y, error), w)
        invariant Painted(pixelBuffer[..], before, done, foregroundColor)
        invariant 0 <= y && x <= r
        decreases x - y + 1
      {
        PlotClippedUpper(cx, cy, x, y, w, before, done);
        done := done + ClippedUpper(cx, cy, x, y, w);
        PlotClippedLower(cx, cy, x, y, w, before, done);
        done := done + ClippedLower(cx, cy, x, y, w);
        x, y, error := StepMidpoint(x, y, error);
      }
    }

    /** Every pixel becomes the background colour: the same as filling the
        whole screen with it. */
    method ClearBuffer()
      requires Valid()
      modifies pixelBuffer
      ensures forall i :: 0 <= i < PixelCount ==> pixelBuffer[i] == backgroundColor
      ensures Painted(pixelBuffer[..], old(pixelBuffer[..]),
        Rect(0, 0, ScreenWidth - 1, ScreenHeight - 1), backgroundColor)
    {
      var i := 0;
      while i < PixelCount
        invariant 0 <= i <= PixelCount
        invariant forall j :: 0 <= j < i ==> pixelBuffer[j] == backgroundColor
      {
        pixelBuffer[i] := backgroundColor;
        i := i + 1;
      }
    }

    method WriteCommand(cmd: bv8)
      modifies this`log
      ensures log == old(log) + [Command(cmd)]
    {
      log := log + [Command(cmd)];
    }

    method WriteData(data: bv8)
      modifies this`log
      ensures log == old(log) + [Data(data)]
    {
      log := log + [Data(data)];
    }

    /** The RAM-write command, then every pixel, high byte first. */
    method SendBuffer()
      requires Valid()
      modifies this`log
      ensures log == old(log) + [Command(LcdCmdRamWrite)] + FrameData(pixelBuffer[..])
    {
      WriteCommand(LcdCmdRamWrite);
      var i := 0;
      while i < PixelCount
        invariant 0 <= i <= PixelCount
        invariant log == old(log) + [Command(LcdCmdRamWrite)] + FrameData(pixelBuffer[..i])
      {
        WriteData(HighByte(pixelBuffer[i]));
        WriteData(LowByte(pixelBuffer[i]));
        assert pixelBuffer[..i + 1][..i] == pixelBuffer[..i];
        i := i + 1;
      }
      assert pixelBuffer[..PixelCount] == pixelBuffer[..];
    }

    /** Sends the frame as SendBuffer does, clearing each pixel once sent. */
    method SendAndClearBuffer()
      requires Valid()
      modifies this`log, pixelBuffer
      ensures log == old(log) + [Command(LcdCmdRamWrite)] + FrameData(old(pixelBuffer[..]))
      ensures forall i :: 0 <= i < PixelCount ==> pixelBuffer[i] == backgroundColor
    {
      ghost var frame := pixelBuffer[..];
      WriteCommand(LcdCmdRamWrite);
      var i := 0;
      while i < PixelCount
        invariant 0 <= i <= PixelCount
        invariant log == old(log) + [Command(LcdCmdRamWrite)] + FrameData(frame[..i])
        invariant forall j :: 0 <= j < i ==> pixelBuffer[j] == backgroundColor
        invariant forall j :: i <= j < PixelCount ==> pixelBuffer[j] == frame[j]
      {
        WriteData(HighByte(pixelBuffer[i]));
        WriteData(LowByte(pixelBuffer[i]));
        pixelBuffer[i] := backgroundColor;
        assert frame[..i + 1][..i] == frame[..i];
        i := i + 1;
      }
      assert frame[..PixelCount] == frame;
    }

    /** Sends a caller-supplied image of 2 * 128 * 128 bytes verbatim. */
    method SendCustomBuffer(buffer: seq<bv8>)
      requires |buffer| >= 2 * PixelCount
      modifies this`log
      ensures log == old(log) + [Command(LcdCmdRamWrite)] + DataBytes(buffer[..2 * PixelCount])
    {
      WriteCommand(LcdCmdRamWrite);
      var i := 0;
      while i < 2 * PixelCount
        invariant 0 <= i <= 2 * PixelCount
        invariant log == old(log) + [Command(LcdCmdRamWrite)] + DataBytes(buffer[..i])
      {
        WriteData(buffer[i]);
        assert DataBytes(buffer[..i + 1]) == DataBytes(buffer[..i]) + [Data(buffer[i])];
        i := i + 1;
      }
    }
  }
}
