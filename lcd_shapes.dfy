/**
 * The screen geometry of lcdDriver.h and the sets of pixels that the drawing
 * loops of lcdDriver.c visit.  Every set here is in screen coordinates; the
 * driver's methods are specified by them and the lemmas below state what the
 * shapes are.
 */
module LcdShapes {

  /** LCD_SCREEN_WIDTH and LCD_SCREEN_HEIGHT. */
  const ScreenWidth: int := 128
  const ScreenHeight: int := 128
  const PixelCount: int := ScreenWidth * ScreenHeight

  type Point = (int, int)

  predicate OnScreen(x: int, y: int) {
    0 <= x < ScreenWidth && 0 <= y < ScreenHeight
  }

  /** Row-major position of pixel (x, y) in the framebuffer. */
  function Index(x: int, y: int): (i: int)
    requires OnScreen(x, y)
    ensures 0 <= i < PixelCount
  {
    y * ScreenWidth + x
  }

  /** The pixel stored at framebuffer position i. */
  function PointAt(i: int): (p: Point)
    requires 0 <= i < PixelCount
    ensures OnScreen(p.0, p.1) && Index(p.0, p.1) == i
  {
    (i % ScreenWidth, i / ScreenWidth)
  }

  /** Index and PointAt are inverse bijections between the screen and the
      framebuffer positions. */
  lemma IndexPointAt(x: int, y: int)
    requires OnScreen(x, y)
    ensures PointAt(Index(x, y)) == (x, y)
  {
  }

  function Min(a: int, b: int): int { if a < b then a else b }
  function Max(a: int, b: int): int { if a < b then b else a }

  // ---------------------------------------------------------------------
  // Rectangles and axis-aligned segments

  function Column(x: int, yLo: int, yHi: int): (s: set<Point>)
    ensures forall p: Point :: p in s <==> p.0 == x && yLo <= p.1 <= yHi
  {
    set y: int | yLo <= y <= yHi :: (x, y)
  }

  function Row(y: int, xLo: int, xHi: int): (s: set<Point>)
    ensures forall p: Point :: p in s <==> p.1 == y && xLo <= p.0 <= xHi
  {
    set x: int | xLo <= x <= xHi :: (x, y)
  }

  function Block(xLo: int, xHi: int, yLo: int, yHi: int): (s: set<Point>)
    ensures forall p: Point :: p in s <==> xLo <= p.0 <= xHi && yLo <= p.1 <= yHi
  {
    set x: int, y: int | xLo <= x <= xHi && yLo <= y <= yHi :: (x, y)
  }

  /** A row grows by one pixel at its right end. */
  lemma RowExtend(y: int, xLo: int, x: int)
    requires xLo <= x
    ensures Row(y, xLo, x) == Row(y, xLo, x - 1) + {(x, y)}
  {
  }

  /** A block grows by one row at its bottom. */
  lemma BlockExtend(xLo: int, xHi: int, yLo: int, y: int)
    requires yLo <= y
    ensures Block(xLo, xHi, yLo, y) == Block(xLo, xHi, yLo, y - 1) + Row(y, xLo, xHi)
  {
  }

  /** The pixels LCD_drawLineVertical(x, y0, y1) writes: inclusive, in
      either order. */
  function VerticalSegment(x: int, y0: int, y1: int): set<Point> {
    Column(x, Min(y0, y1), Max(y0, y1))
  }

  /** The pixels LCD_drawLineHorizontal(x0, x1, y) writes. */
  function HorizontalSegment(x0: int, x1: int, y: int): set<Point> {
    Row(y, Min(x0, x1), Max(x0, x1))
  }

  /** The pixels LCD_fillRect(x0, y0, x1, y1) writes: the inclusive rectangle
      spanned by two opposite corners. */
  function Rect(x0: int, y0: int, x1: int, y1: int): set<Point> {
    Block(Min(x0, x1), Max(x0, x1), Min(y0, y1), Max(y0, y1))
  }

  /** Which pair of opposite corners is given, and in which order, does not
      matter. */
  lemma RectCornersInterchangeable(x0: int, y0: int, x1: int, y1: int)
    ensures Rect(x0, y0, x1, y1) == Rect(x1, y1, x0, y0)
    ensures Rect(x0, y0, x1, y1) == Rect(x0, y1, x1, y0)
    ensures forall p: Point :: p in Rect(x0, y0, x1, y1) <==>
      (x0 <= p.0 <= x1 || x1 <= p.0 <= x0) && (y0 <= p.1 <= y1 || y1 <= p.1 <= y0)
  {
  }

  lemma SegmentEndsInterchangeable(x: int, y: int, a: int, b: int)
    ensures VerticalSegment(x, a, b) == VerticalSegment(x, b, a)
    ensures HorizontalSegment(a, b, y) == HorizontalSegment(b, a, y)
  {
  }

  // ---------------------------------------------------------------------
  // The midpoint circle stepping shared by drawCircle, fillCircle, drawArc

  /** The loop state (x, y, error) of the midpoint algorithm. */
  datatype Midpoint = Midpoint(x: int, y: int, error: int)

  /** One step of the loop: y advances, and x retreats when the error says
      the circle has moved inward. */
  function NextMidpoint(s: Midpoint): (t: Midpoint)
    ensures t.y == s.y + 1
    ensures s.x - 1 <= t.x <= s.x
  {
    var y := s.y + 1;
    var error := s.error + 1 + 2 * y;
    if 2 * (error - s.x) + 1 > 0 then
      Midpoint(s.x - 1, y, error + 1 - 2 * (s.x - 1))
    else
      Midpoint(s.x, y, error)
  }

  /** The 8 points one step plots: (x, y) reflected into every octant.
      The first four are the stores that the comments in drawCircle
      (lcdDriver.c) label first and second quadrant, the last four third
      and fourth. */
  function Octants(cx: int, cy: int, x: int, y: int): set<Point> {
    UpperOctants(cx, cy, x, y) + LowerOctants(cx, cy, x, y)
  }

  function UpperOctants(cx: int, cy: int, x: int, y: int): set<Point> {
    {(cx + x, cy + y), (cx + y, cy + x), (cx - x, cy + y), (cx - y, cy + x)}
  }

  function LowerOctants(cx: int, cy: int, x: int, y: int): set<Point> {
    {(cx - x, cy - y), (cx - y, cy - x), (cx + x, cy - y), (cx + y, cy - x)}
  }

  /** Everything the loop plots from state s on (it stops once x < y). */
  function CircleFrom(cx: int, cy: int, s: Midpoint): set<Point>
    decreases s.x - s.y + 1
  {
    if s.x < s.y then {} else Octants(cx, cy, s.x, s.y) + CircleFrom(cx, cy, NextMidpoint(s))
  }

  /** The pixels LCD_drawCircle(cx, cy, r) writes. */
  function CirclePoints(cx: int, cy: int, r: int): set<Point> {
    CircleFrom(cx, cy, Midpoint(r, 0, 0))
  }

  /** The bounds check of drawCircle and fillCircle: the circle's bounding
      box lies on the screen (its lower-right test is one-sided). */
  predicate CircleFits(cx: int, cy: int, r: int) {
    !(cx - r < 0 || cx + r >= ScreenWidth || cy - r < 0 || cy + r >= ScreenHeight)
  }

  predicate InBox(cx: int, cy: int, r: int, p: Point) {
    cx - r <= p.0 <= cx + r && cy - r <= p.1 <= cy + r
  }

  /** Every plotted point lies in the box [cx-r, cx+r] x [cy-r, cy+r]. */
  lemma {:induction false} CircleFromInBox(cx: int, cy: int, s: Midpoint, r: int)
    requires 0 <= s.y && s.x <= r
    ensures forall p :: p in CircleFrom(cx, cy, s) ==> InBox(cx, cy, r, p)
    decreases s.x - s.y + 1
  {
    if s.x >= s.y {
      CircleFromInBox(cx, cy, NextMidpoint(s), r);
    }
  }

  lemma CirclePointsInBox(cx: int, cy: int, r: int)
    ensures forall p :: p in CirclePoints(cx, cy, r) ==> InBox(cx, cy, r, p)
  {
    CircleFromInBox(cx, cy, Midpoint(r, 0, 0), r);
  }

  /** When the bounds check passes, every plotted point is on the screen. */
  lemma CircleOnScreen(cx: int, cy: int, r: int)
    requires CircleFits(cx, cy, r)
    ensures forall p :: p in CirclePoints(cx, cy, r) ==> OnScreen(p.0, p.1)
  {
    CirclePointsInBox(cx, cy, r);
  }

  /** The 8 octant images of a point of one step are plotted by that step. */
  lemma OctantsClosed(cx: int, cy: int, x: int, y: int, dx: int, dy: int)
    requires (cx + dx, cy + dy) in Octants(cx, cy, x, y)
    ensures Octants(cx, cy, dx, dy) == Octants(cx, cy, x, y)
  {
    OctantOffset(cx, cy, x, y, (cx + dx, cy + dy));
    OctantsOfOffset(cx, cy, x, y, dx, dy);
  }

  /** A plotted point's offset from the centre is (x, y) with its
      coordinates possibly negated, possibly swapped. */
  predicate IsOctantOffset(x: int, y: int, dx: int, dy: int) {
    || ((dx == x || dx == -x) && (dy == y || dy == -y))
    || ((dx == y || dx == -y) && (dy == x || dy == -x))
  }

  lemma OctantOffset(cx: int, cy: int, x: int, y: int, p: Point)
    requires p in Octants(cx, cy, x, y)
    ensures IsOctantOffset(x, y, p.0 - cx, p.1 - cy)
  {
  }

  lemma OctantsOfOffset(cx: int, cy: int, x: int, y: int, dx: int, dy: int)
    requires IsOctantOffset(x, y, dx, dy)
    ensures Octants(cx, cy, dx, dy) == Octants(cx, cy, x, y)
  {
    if (dx == x || dx == -x) && (dy == y || dy == -y) {
      OctantsOfSigns(cx, cy, x, y, dx, dy);
    } else {
      OctantsOfSwappedSigns(cx, cy, x, y, dx, dy);
    }
  }

  /** So does swapping them as well. */
  lemma OctantsOfSwappedSigns(cx: int, cy: int, x: int, y: int, dx: int, dy: int)
    requires (dx == y || dx == -y) && (dy == x || dy == -x)
    ensures Octants(cx, cy, dx, dy) == Octants(cx, cy, x, y)
  {
    OctantsOfSigns(cx, cy, y, x, dx, dy);
    OctantsSwap(cx, cy, x, y);
  }

  /** Changing the signs of the offsets leaves the 8 images unchanged. */
  lemma OctantsOfSigns(cx: int, cy: int, x: int, y: int, dx: int, dy: int)
    requires (dx == x || dx == -x) && (dy == y || dy == -y)
    ensures Octants(cx, cy, dx, dy) == Octants(cx, cy, x, y)
  {
    if dx == x && dy == y {
    } else if dx == -x && dy == y {
      OctantsNegX(cx, cy, x, y);
    } else if dx == x {
      OctantsNegY(cx, cy, x, y);
    } else {
      OctantsNegX(cx, cy, x, -y);
      OctantsNegY(cx, cy, x, y);
    }
  }

  /** The 8 images are the same for (a, b), (b, a), (-a, b) and (a, -b). */
  lemma OctantsSwap(cx: int, cy: int, a: int, b: int)
    ensures Octants(cx, cy, b, a) == Octants(cx, cy, a, b)
  {
  }

  lemma OctantsNegX(cx: int, cy: int, a: int, b: int)
    ensures Octants(cx, cy, -a, b) == Octants(cx, cy, a, b)
  {
  }

  lemma OctantsNegY(cx: int, cy: int, a: int, b: int)
    ensures Octants(cx, cy, a, -b) == Octants(cx, cy, a, b)
  {
  }

  /** The plotted set is closed under the 8 reflections about the centre
      (the axes through it and its two diagonals). */
  lemma {:induction false} CircleFromSymmetric(cx: int, cy: int, s: Midpoint, dx: int, dy: int)
    requires (cx + dx, cy + dy) in CircleFrom(cx, cy, s)
    ensures Octants(cx, cy, dx, dy) <= CircleFrom(cx, cy, s)
    decreases s.x - s.y + 1
  {
    if (cx + dx, cy + dy) in Octants(cx, cy, s.x, s.y) {
      OctantsClosed(cx, cy, s.x, s.y, dx, dy);
    } else {
      CircleFromSymmetric(cx, cy, NextMidpoint(s), dx, dy);
    }
  }

  lemma CircleSymmetric(cx: int, cy: int, r: int, dx: int, dy: int)
    requires (cx + dx, cy + dy) in CirclePoints(cx, cy, r)
    ensures Octants(cx, cy, dx, dy) <= CirclePoints(cx, cy, r)
  {
    CircleFromSymmetric(cx, cy, Midpoint(r, 0, 0), dx, dy);
  }

  // ---------------------------------------------------------------------
  // fillCircle

  /** The four vertical chords one step of fillCircle draws: two right of
      the centre (first to fourth quadrant), two left of it. */
  function Chords(cx: int, cy: int, x: int, y: int): set<Point> {
    RightChords(cx, cy, x, y) + LeftChords(cx, cy, x, y)
  }

  function RightChords(cx: int, cy: int, x: int, y: int): set<Point> {
    VerticalSegment(cx + x, cy - y, cy + y) + VerticalSegment(cx + y, cy - x, cy + x)
  }

  function LeftChords(cx: int, cy: int, x: int, y: int): set<Point> {
    VerticalSegment(cx - x, cy - y, cy + y) + VerticalSegment(cx - y, cy - x, cy + x)
  }

  function DiscFrom(cx: int, cy: int, s: Midpoint): set<Point>
    decreases s.x - s.y + 1
  {
    if s.x < s.y then {} else Chords(cx, cy, s.x, s.y) + DiscFrom(cx, cy, NextMidpoint(s))
  }

  /** The pixels LCD_fillCircle(cx, cy, r) writes. */
  function DiscPoints(cx: int, cy: int, r: int): set<Point> {
    DiscFrom(cx, cy, Midpoint(r, 0, 0))
  }

  /** The chords of a step stay in the box, and are symmetric about both the
      horizontal and the vertical line through the centre. */
  lemma ChordsShape(cx: int, cy: int, x: int, y: int, r: int, p: Point)
    requires 0 <= y <= x <= r && p in Chords(cx, cy, x, y)
    ensures InBox(cx, cy, r, p)
    ensures (p.0, 2 * cy - p.1) in Chords(cx, cy, x, y)
    ensures (2 * cx - p.0, p.1) in Chords(cx, cy, x, y)
  {
  }

  lemma {:induction false} DiscFromShape(cx: int, cy: int, s: Midpoint, r: int, p: Point)
    requires 0 <= s.y && s.x <= r && p in DiscFrom(cx, cy, s)
    ensures InBox(cx, cy, r, p)
    ensures (p.0, 2 * cy - p.1) in DiscFrom(cx, cy, s)
    ensures (2 * cx - p.0, p.1) in DiscFrom(cx, cy, s)
    decreases s.x - s.y + 1
  {
    if p in Chords(cx, cy, s.x, s.y) {
      ChordsShape(cx, cy, s.x, s.y, r, p);
    } else {
      DiscFromShape(cx, cy, NextMidpoint(s), r, p);
    }
  }

  /** fillCircle writes only inside the box, and what it writes is symmetric
      about centerY (and about centerX). */
  lemma DiscShape(cx: int, cy: int, r: int, p: Point)
    requires p in DiscPoints(cx, cy, r)
    ensures InBox(cx, cy, r, p)
    ensures (p.0, 2 * cy - p.1) in DiscPoints(cx, cy, r)
    ensures (2 * cx - p.0, p.1) in DiscPoints(cx, cy, r)
  {
    DiscFromShape(cx, cy, Midpoint(r, 0, 0), r, p);
  }

  lemma DiscOnScreen(cx: int, cy: int, r: int)
    requires CircleFits(cx, cy, r)
    ensures forall p :: p in DiscPoints(cx, cy, r) ==> OnScreen(p.0, p.1)
  {
    forall p | p in DiscPoints(cx, cy, r) ensures OnScreen(p.0, p.1) {
      DiscShape(cx, cy, r, p);
    }
  }

  /** The filled disc covers the outline drawCircle plots. */
  lemma {:induction false} CircleFromInsideDisc(cx: int, cy: int, s: Midpoint)
    requires 0 <= s.y
    ensures CircleFrom(cx, cy, s) <= DiscFrom(cx, cy, s)
    decreases s.x - s.y + 1
  {
    if s.x >= s.y {
      assert Octants(cx, cy, s.x, s.y) <= Chords(cx, cy, s.x, s.y);
      CircleFromInsideDisc(cx, cy, NextMidpoint(s));
    }
  }

  lemma CircleInsideDisc(cx: int, cy: int, r: int)
    ensures CirclePoints(cx, cy, r) <= DiscPoints(cx, cy, r)
  {
    CircleFromInsideDisc(cx, cy, Midpoint(r, 0, 0));
  }

  // ---------------------------------------------------------------------
  // drawArc

  /** The clipping rectangle of drawArc, in coordinates relative to the
      centre. */
  datatype Window = Window(xLo: int, xHi: int, yLo: int, yHi: int)

  predicate InWindow(w: Window, dx: int, dy: int) {
    w.xLo <= dx <= w.xHi && w.yLo <= dy <= w.yHi
  }

  /** The window drawArc builds from the truncated endpoints (x0, y0) and
      (x1, y1): their bounding box, pulled out to the pole at +-r on the
      other axis when the endpoints lie on opposite sides of an axis. */
  function ArcWindow(r: int, x0: int, y0: int, x1: int, y1: int): (w: Window)
    ensures InBox(0, 0, r, (x0, y0)) && InBox(0, 0, r, (x1, y1)) ==>
      && InWindow(w, x0, y0) && InWindow(w, x1, y1)
      && -r <= w.xLo && w.xHi <= r && -r <= w.yLo && w.yHi <= r
      && ((x0 >= 0) != (x1 >= 0) ==> InWindow(w, 0, if y0 > 0 then r else -r))
      && ((y0 >= 0) != (y1 >= 0) ==> InWindow(w, if x0 > 0 then r else -r, 0))
  {
    var (xLo, xHi) := if x0 < x1 then (x0, x1) else (x1, x0);
    var (yLo, yHi) := if y0 < y1 then (y0, y1) else (y1, y0);
    var (yLo', yHi') :=
      if (x0 >= 0) != (x1 >= 0) then (if y0 > 0 then (yLo, r) else (-r, yHi)) else (yLo, yHi);
    var (xLo', xHi') :=
      if (y0 >= 0) != (y1 >= 0) then (if x0 > 0 then (xLo, r) else (-r, xHi)) else (xLo, xHi);
    Window(xLo', xHi', yLo', yHi')
  }

  /** The points of one step that pass drawArc's BOUND_X / BOUND_Y tests. */
  function ClippedOctants(cx: int, cy: int, x: int, y: int, w: Window): set<Point> {
    ClippedUpper(cx, cy, x, y, w) + ClippedLower(cx, cy, x, y, w)
  }

  /** The pixel at offset (dx, dy) when the window admits it. */
  function Clip(cx: int, cy: int, dx: int, dy: int, w: Window): set<Point> {
    if InWindow(w, dx, dy) then {(cx + dx, cy + dy)} else {}
  }

  function ClippedUpper(cx: int, cy: int, x: int, y: int, w: Window): set<Point> {
    Clip(cx, cy, x, y, w) + Clip(cx, cy, y, x, w) + Clip(cx, cy, -x, y, w) + Clip(cx, cy, -y, x, w)
  }

  function ClippedLower(cx: int, cy: int, x: int, y: int, w: Window): set<Point> {
    Clip(cx, cy, -x, -y, w) + Clip(cx, cy, -y, -x, w) + Clip(cx, cy, x, -y, w) + Clip(cx, cy, y, -x, w)
  }

  function ArcFrom(cx: int, cy: int, s: Midpoint, w: Window): set<Point>
    decreases s.x - s.y + 1
  {
    if s.x < s.y then {} else ClippedOctants(cx, cy, s.x, s.y, w) + ArcFrom(cx, cy, NextMidpoint(s), w)
  }

  /** The pixels the clipped loop of LCD_drawArc writes for window w. */
  function ArcPoints(cx: int, cy: int, r: int, w: Window): set<Point> {
    ArcFrom(cx, cy, Midpoint(r, 0, 0), w)
  }

  lemma ClippedOctantsAreClipped(cx: int, cy: int, x: int, y: int, w: Window, p: Point)
    ensures p in ClippedOctants(cx, cy, x, y, w) <==>
      p in Octants(cx, cy, x, y) && InWindow(w, p.0 - cx, p.1 - cy)
  {
    ClipAt(cx, cy, x, y, w, p);
    ClipAt(cx, cy, y, x, w, p);
    ClipAt(cx, cy, -x, y, w, p);
    ClipAt(cx, cy, -y, x, w, p);
    ClipAt(cx, cy, -x, -y, w, p);
    ClipAt(cx, cy, -y, -x, w, p);
    ClipAt(cx, cy, x, -y, w, p);
    ClipAt(cx, cy, y, -x, w, p);
  }

  lemma ClipAt(cx: int, cy: int, dx: int, dy: int, w: Window, p: Point)
    ensures p in Clip(cx, cy, dx, dy, w) <==>
      p == (cx + dx, cy + dy) && InWindow(w, p.0 - cx, p.1 - cy)
  {
  }

  lemma {:induction false} ArcFromIsClippedCircle(cx: int, cy: int, s: Midpoint, w: Window, p: Point)
    ensures p in ArcFrom(cx, cy, s, w) <==>
      p in CircleFrom(cx, cy, s) && InWindow(w, p.0 - cx, p.1 - cy)
    decreases s.x - s.y + 1
  {
    if s.x >= s.y {
      ClippedOctantsAreClipped(cx, cy, s.x, s.y, w, p);
      ArcFromIsClippedCircle(cx, cy, NextMidpoint(s), w, p);
    }
  }

  /** The arc is exactly the part of drawCircle's outline (same centre and
      radius) whose offset from the centre lies in the window. */
  lemma ArcIsClippedCircle(cx: int, cy: int, r: int, w: Window, p: Point)
    ensures p in ArcPoints(cx, cy, r, w) <==>
      p in CirclePoints(cx, cy, r) && InWindow(w, p.0 - cx, p.1 - cy)
  {
    ArcFromIsClippedCircle(cx, cy, Midpoint(r, 0, 0), w, p);
  }

  /** When both endpoints truncate to (-r, 0), as they do for the angles -pi
      and pi, the window is that single point and the arc is one pixel, not
      the full circle. */
  lemma FullTurnArcIsOnePixel(cx: int, cy: int, r: int)
    requires 0 <= r
    ensures ArcPoints(cx, cy, r, ArcWindow(r, -r, 0, -r, 0)) == {(cx - r, cy)}
  {
    assert ArcWindow(r, -r, 0, -r, 0) == PoleWindow(r);
    LeftPoleInArc(cx, cy, r);
    forall p | p in ArcPoints(cx, cy, r, PoleWindow(r)) ensures p == (cx - r, cy) {
      ArcWithinWindow(cx, cy, r, PoleWindow(r), p);
      PoleOffset(cx, cy, r, p);
    }
    OnlyElement(ArcPoints(cx, cy, r, PoleWindow(r)), (cx - r, cy));
  }

  /** The window that admits only the offset (-r, 0). */
  function PoleWindow(r: int): Window {
    Window(-r, -r, 0, 0)
  }

  lemma PoleOffset(cx: int, cy: int, r: int, p: Point)
    requires InWindow(PoleWindow(r), p.0 - cx, p.1 - cy)
    ensures p == (cx - r, cy)
  {
  }

  /** Every pixel of an arc is at an offset the window admits. */
  lemma ArcWithinWindow(cx: int, cy: int, r: int, w: Window, p: Point)
    requires p in ArcPoints(cx, cy, r, w)
    ensures InWindow(w, p.0 - cx, p.1 - cy)
  {
    ArcIsClippedCircle(cx, cy, r, w, p);
  }

  lemma LeftPoleInArc(cx: int, cy: int, r: int)
    requires 0 <= r
    ensures (cx - r, cy) in ArcPoints(cx, cy, r, PoleWindow(r))
  {
    LeftPoleOnCircle(cx, cy, r);
    ArcIsClippedCircle(cx, cy, r, PoleWindow(r), (cx - r, cy));
  }

  /** The first step of drawCircle plots the leftmost point of the circle. */
  lemma LeftPoleOnCircle(cx: int, cy: int, r: int)
    requires 0 <= r
    ensures (cx - r, cy) in CirclePoints(cx, cy, r)
  {
    assert (cx - r, cy) in Octants(cx, cy, r, 0);
  }

  /** A set holding q and nothing else is {q}. */
  lemma OnlyElement(s: set<Point>, q: Point)
    requires q in s && forall p :: p in s ==> p == q
    ensures s == {q}
  {
  }

  /** With the bounds check passing (or a negative radius, which plots
      nothing), every pixel of any clipped arc is on the screen. */
  lemma ArcOnScreen(cx: int, cy: int, r: int, w: Window)
    requires r < 0 || CircleFits(cx, cy, r)
    ensures forall p :: p in ArcPoints(cx, cy, r, w) ==> OnScreen(p.0, p.1)
  {
    if r >= 0 {
      CircleOnScreen(cx, cy, r);
    }
    forall p | p in ArcPoints(cx, cy, r, w) ensures OnScreen(p.0, p.1) {
      ArcIsClippedCircle(cx, cy, r, w, p);
    }
  }

  // ---------------------------------------------------------------------
  // drawLine

  /** |a - b|. */
  function Span(a: int, b: int): nat {
    if a < b then b - a else a - b
  }

  /** The pixels the slope-stepping loop of drawLine writes when the slope is
      0 (an axis-aligned line): stepping by one along the longer axis from
      the start point until the end point, which is not written. */
  function AxisSweep(x0: int, y0: int, x1: int, y1: int): set<Point> {
    if Span(x0, x1) > Span(y0, y1) then
      HorizontalSegment(x0, x1, y0) - {(x1, y0)}
    else
      VerticalSegment(x0, y0, y1) - {(x0, y1)}
  }

  /** On an axis-aligned line the sweep stays on the segment the
      delegated call draws. */
  lemma AxisSweepOnSegment(x0: int, y0: int, x1: int, y1: int)
    ensures x0 == x1 ==> AxisSweep(x0, y0, x1, y1) <= VerticalSegment(x0, y0, y1)
    ensures y0 == y1 ==> AxisSweep(x0, y0, x1, y1) <= HorizontalSegment(x0, x1, y0)
  {
  }

  /** The bounds guard of LCD_drawLine as written (true = reject).  Its two
      y tests join their halves with && where || was meant. */
  predicate LineGuardAsWritten(x0: int, y0: int, x1: int, y1: int) {
    x0 < 0 || x0 >= ScreenWidth || (y0 < 0 && y0 >= ScreenHeight) ||
    x1 < 0 || x1 >= ScreenWidth || (y1 < 0 && y1 >= ScreenHeight)
  }

  /** The guard as intended: reject unless both endpoints are on screen. */
  predicate LineGuard(x0: int, y0: int, x1: int, y1: int) {
    !OnScreen(x0, y0) || !OnScreen(x1, y1)
  }

  /** As written, the guard tests only the x coordinates. */
  lemma LineGuardAsWrittenIgnoresY(x0: int, y0: int, x1: int, y1: int)
    ensures LineGuardAsWritten(x0, y0, x1, y1) <==>
      x0 < 0 || x0 >= ScreenWidth || x1 < 0 || x1 >= ScreenWidth
  {
  }

  /** drawLine(0, -5, 0, 10) passes the guard as written, and its sweep then
      writes the off-screen pixel (0, -5); the intended guard rejects it. */
  lemma LineGuardAsWrittenAdmitsOffScreenWrite()
    ensures !LineGuardAsWritten(0, -5, 0, 10)
    ensures (0, -5) in AxisSweep(0, -5, 0, 10) && !OnScreen(0, -5)
    ensures LineGuard(0, -5, 0, 10)
  {
  }

  /** When the intended guard passes, the whole axis-aligned line, and so
      everything drawLine writes, is on screen. */
  lemma LineGuardProtectsSweep(x0: int, y0: int, x1: int, y1: int)
    requires !LineGuard(x0, y0, x1, y1) && (x0 == x1 || y0 == y1)
    ensures forall p :: p in AxisSweep(x0, y0, x1, y1) ==> OnScreen(p.0, p.1)
  {
    AxisSweepOnSegment(x0, y0, x1, y1);
  }
}
