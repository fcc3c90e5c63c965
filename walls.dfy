/**
 * A wall: a ring centred on the screen that closes in on the player, with
 * an angular gap the player must pass through (wall.h, wall.c).
 */
module Walls {
  import opened RealMath
  import opened LcdShapes
  import opened LcdDriver

  /** All walls are centred here. */
  const WallCenterX: int := 63
  const WallCenterY: int := 63
  /** Pixels a wall's radius shrinks by per frame. */
  const WallSpeed: int := 1
  /** Radius of a freshly spawned wall. */
  const WallInitialRadius: int := 63
  /** The ring colour (31, 63, 12) and the gap colour (0, 0, 31). */
  const WallWallColor: bv16 := MakeColor16(31, 63, 12)
  const WallGapColor: bv16 := MakeColor16(0, 0, 31)
  /** Angular width of every gap: a fifth of a half turn. */
  const WallGapAngularLength: real := Pi / 5.0
  /** Bounds and step of the spawn timer period, in timer clock cycles. */
  const WallSpawnPeriodMax: int := 49152
  const WallSpawnPeriodMin: int := 15152
  const WallSpawnPeriodDecrement: int := 2000

  /** The 16-bit values of the two wall colours, and their colour fields. */
  lemma WallColors()
    ensures WallWallColor == 0xffec && WallGapColor == 0x001f
    ensures Red(WallWallColor) == 31 && Green(WallWallColor) == 63 && Blue(WallWallColor) == 12
    ensures Red(WallGapColor) == 0 && Green(WallGapColor) == 0 && Blue(WallGapColor) == 31
  {
  }

  /** The gap runs counter-clockwise from `gapStartAngle` to `gapEndAngle`. */
  datatype Wall = Wall(gapStartAngle: real, gapEndAngle: real, radius: int)

  /** A wall with the given gap, at the initial radius. */
  function Init(gapStartAngle: real, gapEndAngle: real): (w: Wall)
    ensures w.gapStartAngle == gapStartAngle && w.gapEndAngle == gapEndAngle
    ensures w.radius == WallInitialRadius
  {
    Wall(gapStartAngle, gapEndAngle, WallInitialRadius)
  }

  /** The pixels of the wall's full ring. */
  function RingPixels(w: Wall): set<Point> {
    CirclePoints(WallCenterX, WallCenterY, w.radius)
  }

  /** The pixels the gap arc covers; equal angles draw no arc. */
  function GapPixels(m: MathLib, w: Wall): set<Point> {
    if w.gapStartAngle == w.gapEndAngle then {}
    else ArcPoints(WallCenterX, WallCenterY, w.radius,
                   ArcWindowFor(m, w.radius, w.gapStartAngle, w.gapEndAngle))
  }

  /** The gap only ever repaints pixels of the ring. */
  lemma GapWithinRing(m: MathLib, w: Wall)
    ensures GapPixels(m, w) <= RingPixels(w)
  {
    if w.gapStartAngle != w.gapEndAngle {
      var win := ArcWindowFor(m, w.radius, w.gapStartAngle, w.gapEndAngle);
      forall p | p in GapPixels(m, w)
        ensures p in RingPixels(w)
      {
        ArcIsClippedCircle(WallCenterX, WallCenterY, w.radius, win, p);
      }
    }
  }

  /** The framebuffer after drawing wall `w` over `before`. */
  function Drawn(before: seq<bv16>, m: MathLib, w: Wall): (after: seq<bv16>)
    requires |before| == PixelCount
    ensures |after| == PixelCount
  {
    seq(PixelCount, i requires 0 <= i < PixelCount =>
      if PointAt(i) in GapPixels(m, w) then WallGapColor
      else if PointAt(i) in RingPixels(w) then WallWallColor
      else before[i])
  }

  /** A wall whose radius does not exceed the initial one fits on the screen. */
  lemma WallFits(w: Wall)
    requires w.radius <= WallInitialRadius
    ensures CircleFits(WallCenterX, WallCenterY, w.radius)
  {
  }

  /**
   * Draws the ring in the wall colour, then the gap over it in the gap
   * colour: arc pixels end in the gap colour, the rest of the ring in the
   * wall colour, every other pixel is unchanged, and the gap colour stays
   * selected.
   */
  method Draw(lcd: Lcd, m: MathLib, w: Wall)
    requires lcd.Valid() && w.radius <= WallInitialRadius
    modifies lcd`foregroundColor, lcd.pixelBuffer
    ensures lcd.foregroundColor == WallGapColor
    ensures lcd.pixelBuffer[..] == Drawn(old(lcd.pixelBuffer[..]), m, w)
    ensures w.gapStartAngle == w.gapEndAngle ==>
      Painted(lcd.pixelBuffer[..], old(lcd.pixelBuffer[..]), RingPixels(w), WallWallColor)
  {
    ghost var b0 := lcd.pixelBuffer[..];
    lcd.SetForegroundColor(WallWallColor);
    var _ := lcd.DrawCircle(WallCenterX, WallCenterY, w.radius);
    ghost var b1 := lcd.pixelBuffer[..];
    lcd.SetForegroundColor(WallGapColor);
    var _ := lcd.DrawArc(m, WallCenterX, WallCenterY, w.radius, w.gapStartAngle, w.gapEndAngle);
    assert Painted(b1, b0, RingPixels(w), WallWallColor);
    assert Painted(lcd.pixelBuffer[..], b1, GapPixels(m, w), WallGapColor);
  }
}
