/**
 * Player-against-wall collision tests and the normal force a wall exerts
 * (collision.h, collision.c).
 */
module Collision {
  import opened RealMath
  import opened Vectors
  import opened LcdDriver
  import opened Walls
  import opened Players

  /** The centre of the 128 x 128 screen: (128 / 2 - 1, 128 / 2 - 1). */
  const ScreenCenter: Vector2d := Vector2d(63.0, 63.0)

  datatype CollisionCode = NoCollision | WallCollision | GapCollision

  /**
   * Whether `angle` lies strictly inside the interval that runs
   * counter-clockwise from `startAngle` to `endAngle`, where an interval
   * with `endAngle < startAngle` wraps through the angle pi.  A degenerate
   * interval holds only its own angle.
   */
  function AngleWithinInterval(angle: real, startAngle: real, endAngle: real): (b: bool)
    ensures startAngle < endAngle ==> (b <==> startAngle < angle < endAngle)
    ensures endAngle < startAngle ==> (b <==> angle > startAngle || angle < endAngle)
    ensures startAngle == endAngle ==> (b <==> angle == startAngle)
  {
    if endAngle > startAngle then angle > startAngle && angle < endAngle
    else if endAngle < startAngle then angle > startAngle || angle < endAngle
    else angle == startAngle
  }

  /** How far `angle` lies counter-clockwise from `startAngle`, in [0, 2 pi),
      for angles in (-pi, pi], the range atan2 returns. */
  function CcwOffset(angle: real, startAngle: real): (d: real)
    requires -Pi < angle <= Pi && -Pi < startAngle <= Pi
    ensures 0.0 <= d < 2.0 * Pi
    ensures d == 0.0 <==> angle == startAngle
  {
    if angle >= startAngle then angle - startAngle else angle - startAngle + 2.0 * Pi
  }

  /** For angles in (-pi, pi], the wrap-around rule of angleWithinInterval
      is the counter-clockwise arc: an angle is inside exactly when it lies
      strictly between the start (offset 0) and the end, measured
      counter-clockwise from the start. */
  lemma AngleWithinIntervalIsCcwArc(angle: real, startAngle: real, endAngle: real)
    requires -Pi < angle <= Pi && -Pi < startAngle <= Pi && -Pi < endAngle <= Pi
    requires startAngle != endAngle
    ensures AngleWithinInterval(angle, startAngle, endAngle)
        <==> 0.0 < CcwOffset(angle, startAngle) < CcwOffset(endAngle, startAngle)
  {
  }

  /** A proper interval never contains its own end points. */
  lemma EndpointsOutside(startAngle: real, endAngle: real)
    requires startAngle != endAngle
    ensures !AngleWithinInterval(startAngle, startAngle, endAngle)
    ensures !AngleWithinInterval(endAngle, startAngle, endAngle)
  {
  }

  /** Swapping the bounds gives the complementary arc: apart from the two
      end points, every angle lies in exactly one of the two intervals. */
  lemma ComplementaryIntervals(angle: real, startAngle: real, endAngle: real)
    requires startAngle != endAngle && angle != startAngle && angle != endAngle
    ensures AngleWithinInterval(angle, startAngle, endAngle)
        <==> !AngleWithinInterval(angle, endAngle, startAngle)
  {
  }

  /** The player's offset from the screen centre. */
  function Offset(position: Vector2d): Vector2d {
    Subtract(position, ScreenCenter)
  }

  /** The distance from the centre at which a player touches a wall. */
  function ContactDistance(w: Wall): real {
    (w.radius - PlayerRadius - 1) as real
  }

  /** The two end points of the wall's gap, each coordinate truncated
      toward zero; the same points drawArc computes.  Each lies within one
      pixel, in each axis, of the point at the gap angle on the ring. */
  function GapStart(m: MathLib, w: Wall): (p: Vector2d)
    ensures Near(p.x, w.radius, m.cos(w.gapStartAngle)) && Near(p.y, w.radius, m.sin(w.gapStartAngle))
  {
    var ends := ArcEndsFor(m, w.radius, w.gapStartAngle, w.gapEndAngle);
    Vector2d(ends.x0 as real, ends.y0 as real)
  }

  function GapEnd(m: MathLib, w: Wall): (p: Vector2d)
    ensures Near(p.x, w.radius, m.cos(w.gapEndAngle)) && Near(p.y, w.radius, m.sin(w.gapEndAngle))
  {
    var ends := ArcEndsFor(m, w.radius, w.gapStartAngle, w.gapEndAngle);
    Vector2d(ends.x1 as real, ends.y1 as real)
  }

  /** Whether the player is clear of both gap end points. */
  predicate ClearOfGapEnds(m: MathLib, position: Vector2d, w: Wall) {
    && Magnitude(m, Subtract(Offset(position), GapStart(m, w))) > PlayerRadius as real
    && Magnitude(m, Subtract(Offset(position), GapEnd(m, w))) > PlayerRadius as real
  }

  /**
   * No collision while the player is nearer the centre than the contact
   * distance; past it, a gap collision when the player's angle is inside the
   * gap and the player is clear of both gap end points, and a wall collision
   * otherwise.
   */
  function Collide(m: MathLib, position: Vector2d, w: Wall): (c: CollisionCode)
    ensures c == NoCollision <==> Magnitude(m, Offset(position)) < ContactDistance(w)
    ensures c == GapCollision <==>
      && Magnitude(m, Offset(position)) >= ContactDistance(w)
      && AngleWithinInterval(Direction(m, Offset(position)), w.gapStartAngle, w.gapEndAngle)
      && ClearOfGapEnds(m, position, w)
    ensures c == WallCollision ==> Magnitude(m, Offset(position)) >= ContactDistance(w)
  {
    var offset := Offset(position);
    var distance := Magnitude(m, offset);
    if distance >= ContactDistance(w) then
      var angle := Direction(m, offset);
      if AngleWithinInterval(angle, w.gapStartAngle, w.gapEndAngle) then
        var gapStart := GapStart(m, w);
        var gapEnd := GapEnd(m, w);
        if Magnitude(m, Subtract(offset, gapStart)) > PlayerRadius as real
          && Magnitude(m, Subtract(offset, gapEnd)) > PlayerRadius as real
        then GapCollision
        else WallCollision
      else WallCollision
    else NoCollision
  }

  /** Past the contact distance, an angle outside the gap is a wall hit. */
  lemma OutsideGapHitsWall(m: MathLib, position: Vector2d, w: Wall)
    requires Magnitude(m, Offset(position)) >= ContactDistance(w)
    requires !AngleWithinInterval(Direction(m, Offset(position)), w.gapStartAngle, w.gapEndAngle)
    ensures Collide(m, position, w) == WallCollision
  {
  }

  /** Comparing non-negative reals is comparing their squares. */
  lemma CompareSquares(a: real, b: real)
    requires 0.0 <= a && 0.0 <= b
    ensures a < b <==> a * a < b * b
  {
    if a < b {
      SquareMonotone(a, b);
    } else if b < a {
      SquareMonotone(b, a);
    }
  }

  /** With a sound square root, "no collision" means the player's centre is
      strictly inside the circle of the contact distance, a test that needs
      no square root. */
  lemma NoCollisionInsideCircle(m: MathLib, position: Vector2d, w: Wall)
    requires Sound(m) && w.radius >= PlayerRadius + 1
    ensures Collide(m, position, w) == NoCollision
        <==> SquaredLength(Offset(position)) < ContactDistance(w) * ContactDistance(w)
  {
    MagnitudeLaws(m, Offset(position));
    NoCollisionBySquares(m, position, w);
  }

  /** The same, for any square root that is right at the player's offset. */
  lemma NoCollisionBySquares(m: MathLib, position: Vector2d, w: Wall)
    requires w.radius >= PlayerRadius + 1
    requires 0.0 <= Magnitude(m, Offset(position))
    requires Magnitude(m, Offset(position)) * Magnitude(m, Offset(position)) == SquaredLength(Offset(position))
    ensures Collide(m, position, w) == NoCollision
        <==> SquaredLength(Offset(position)) < ContactDistance(w) * ContactDistance(w)
  {
    var d, t := Magnitude(m, Offset(position)), ContactDistance(w);
    var below := SquaredLength(Offset(position)) < t * t;
    RootBelow(d, SquaredLength(Offset(position)), t);
    if d < t {
      assert Collide(m, position, w) == NoCollision && below;
    } else {
      assert Collide(m, position, w) != NoCollision && !below;
    }
  }

  /** A non-negative root of s is below a non-negative t iff s is below t * t. */
  lemma RootBelow(d: real, s: real, t: real)
    requires 0.0 <= d && d * d == s && 0.0 <= t
    ensures d < t <==> s < t * t
  {
    CompareSquares(d, t);
  }

  /** A gap collision puts the player's centre more than the player radius
      from each gap end point, in squared distance. */
  lemma GapCollisionClearOfEnds(m: MathLib, position: Vector2d, w: Wall)
    requires Sound(m) && Collide(m, position, w) == GapCollision
    ensures SquaredLength(Subtract(Offset(position), GapStart(m, w))) > (PlayerRadius * PlayerRadius) as real
    ensures SquaredLength(Subtract(Offset(position), GapEnd(m, w))) > (PlayerRadius * PlayerRadius) as real
  {
    var r := PlayerRadius as real;
    var a := Subtract(Offset(position), GapStart(m, w));
    var b := Subtract(Offset(position), GapEnd(m, w));
    MagnitudeLaws(m, a);
    MagnitudeLaws(m, b);
    SquareMonotone(r, Magnitude(m, a));
    SquareMonotone(r, Magnitude(m, b));
  }

  /** The boundary wall of the game has an empty gap at angle 0, so it can
      report a gap collision only for a player exactly at angle 0. */
  lemma BoundaryGapOnlyAtZero(m: MathLib, position: Vector2d)
    requires Collide(m, position, Init(0.0, 0.0)) == GapCollision
    ensures Direction(m, Offset(position)) == 0.0
  {
  }

  /**
   * calculateNormalVector: the zero vector given the magnitude of gravity
   * plus the wall speed, then turned to point from the player toward the
   * centre of the screen.
   */
  function NormalVector(m: MathLib, position: Vector2d, gravity: Vector2d, wallSpeed: int): (n: Vector2d)
    ensures var turned := Direction(m, Offset(position)) + Pi;
      n.x * m.sin(turned) == n.y * m.cos(turned)
  {
    var angle := Direction(m, Offset(position));
    var magnitude := Magnitude(m, gravity) + wallSpeed as real;
    WithDirection(m, WithMagnitude(m, Zero, magnitude), angle + Pi)
  }

  /** The normal vector has length |gravity| + wallSpeed (in absolute value)
      and points along the player's angle turned by pi. */
  lemma NormalVectorShape(m: MathLib, position: Vector2d, gravity: Vector2d, wallSpeed: int)
    requires Sound(m)
    ensures var magnitude := Magnitude(m, gravity) + wallSpeed as real;
      var turned := Direction(m, Offset(position)) + Pi;
      && Magnitude(m, NormalVector(m, position, gravity, wallSpeed)) == Abs(magnitude)
      && NormalVector(m, position, gravity, wallSpeed)
         == Vector2d(Abs(magnitude) * m.cos(turned), Abs(magnitude) * m.sin(turned))
  {
    var magnitude := Magnitude(m, gravity) + wallSpeed as real;
    var turned := Direction(m, Offset(position)) + Pi;
    var v := WithMagnitude(m, Zero, magnitude);
    assert v == Vector2d(magnitude, 0.0);
    assert SquaredLength(v) == magnitude * magnitude;
    SqrtOfSquare(m, magnitude);
    WithDirectionKeepsMagnitude(m, v, turned);
  }

  /** With non-negative speeds its length is exactly |gravity| + wallSpeed. */
  lemma NormalVectorMagnitude(m: MathLib, position: Vector2d, gravity: Vector2d, wallSpeed: int)
    requires Sound(m) && wallSpeed >= 0
    ensures Magnitude(m, NormalVector(m, position, gravity, wallSpeed))
         == Magnitude(m, gravity) + wallSpeed as real
  {
    NormalVectorShape(m, position, gravity, wallSpeed);
    MagnitudeLaws(m, gravity);
  }
}
