/**
 * Two-component vectors of vector2d.h / vector2d.c.  `Vector2d` is the value
 * of a `Vector2d_t`; `Vector2dRef` is a `Vector2d_t` that the in-place
 * routines (`selfAdd`, `selfSubtract`, `setMagnitude`, `setDirection`)
 * overwrite through their `self` pointer.
 */
module Vectors {
  import opened RealMath

  datatype Vector2d = Vector2d(x: real, y: real)

  const Zero: Vector2d := Vector2d(0.0, 0.0)

  /** Vector2d_add and Vector2d_subtract: componentwise.  Subtracting
      either term from a sum gives the other term back. */
  function Add(a: Vector2d, b: Vector2d): (r: Vector2d)
    ensures Subtract(r, b) == a && Subtract(r, a) == b
  {
    Vector2d(a.x + b.x, a.y + b.y)
  }

  /** The difference is the zero vector exactly when the two are equal. */
  function Subtract(a: Vector2d, b: Vector2d): (r: Vector2d)
    ensures r == Zero <==> a == b
  {
    Vector2d(a.x - b.x, a.y - b.y)
  }

  /** Subtracting what was added gives the original vector back. */
  lemma SubtractUndoesAdd(a: Vector2d, b: Vector2d)
    ensures Subtract(Add(a, b), b) == a
  {
  }

  function SquaredLength(v: Vector2d): real {
    v.x * v.x + v.y * v.y
  }

  /** Vector2d_getMagnitude: sqrt(x*x + y*y); with a sound library this is
      the non-negative length whose square is x*x + y*y. */
  function Magnitude(m: MathLib, v: Vector2d): (r: real)
    ensures Sound(m) ==> 0.0 <= r && r * r == SquaredLength(v)
  {
    SumOfSquaresZero(v.x, v.y);
    m.sqrt(SquaredLength(v))
  }

  /** Vector2d_getDirection: atan2(y, x). */
  function Direction(m: MathLib, v: Vector2d): real {
    m.atan2(v.y, v.x)
  }

  /** A sum of two squares is zero only when both terms are zero. */
  lemma SumOfSquaresZero(a: real, b: real)
    ensures 0.0 <= a * a + b * b
    ensures a * a + b * b == 0.0 <==> a == 0.0 && b == 0.0
  {
    if a != 0.0 {
      SquareMonotone(0.0, Abs(a));
      assert Abs(a) * Abs(a) == a * a;
    }
    if b != 0.0 {
      SquareMonotone(0.0, Abs(b));
      assert Abs(b) * Abs(b) == b * b;
    }
  }

  /** The magnitude is non-negative, squares to x*x + y*y, and is zero only
      for the zero vector. */
  lemma MagnitudeLaws(m: MathLib, v: Vector2d)
    requires Sound(m)
    ensures 0.0 <= Magnitude(m, v)
    ensures Magnitude(m, v) * Magnitude(m, v) == SquaredLength(v)
    ensures Magnitude(m, v) == 0.0 <==> v == Zero
  {
    SumOfSquaresZero(v.x, v.y);
    SqrtZero(m, SquaredLength(v));
  }

  /** What Vector2d_setMagnitude leaves in the vector.  The axis branches
      assign the magnitude itself to the non-zero component, so a negative
      magnitude flips that component's sign; the general branch scales both
      components by magnitude / |v|. */
  function WithMagnitude(m: MathLib, v: Vector2d, magnitude: real): (r: Vector2d)
    requires v.y == 0.0 || v.x == 0.0 || Magnitude(m, v) != 0.0
    ensures v.y == 0.0 ==> r == Vector2d(magnitude, 0.0)
    ensures v.y != 0.0 && v.x == 0.0 ==> r == Vector2d(0.0, magnitude)
    ensures v.x != 0.0 && v.y != 0.0 ==> r.x * v.y == r.y * v.x
  {
    if v.y == 0.0 then Vector2d(magnitude, v.y)
    else if v.x == 0.0 then Vector2d(v.x, magnitude)
    else
      var current := Magnitude(m, v);
      Vector2d(v.x * magnitude / current, v.y * magnitude / current)
  }

  /** Scaling (x, y) of length c by magnitude / c gives squared length
      magnitude^2. */
  lemma ScaledSquaredLength(x: real, y: real, c: real, magnitude: real)
    requires c > 0.0 && c * c == x * x + y * y
    ensures (x * magnitude / c) * (x * magnitude / c) + (y * magnitude / c) * (y * magnitude / c)
         == magnitude * magnitude
  {
    var k := magnitude / c;
    assert c * k == magnitude;
    assert x * magnitude / c == x * k;
    assert y * magnitude / c == y * k;
    assert (x * k) * (x * k) + (y * k) * (y * k) == (x * x + y * y) * (k * k);
    assert (c * c) * (k * k) == (c * k) * (c * k);
  }

  /** In the general branch the new magnitude is |magnitude|. */
  lemma WithMagnitudeHasMagnitude(m: MathLib, v: Vector2d, magnitude: real)
    requires Sound(m) && v.x != 0.0 && v.y != 0.0
    ensures Magnitude(m, v) != 0.0
    ensures Magnitude(m, WithMagnitude(m, v, magnitude)) == Abs(magnitude)
  {
    MagnitudeLaws(m, v);
    var c := Magnitude(m, v);
    ScaledSquaredLength(v.x, v.y, c, magnitude);
    assert SquaredLength(WithMagnitude(m, v, magnitude)) == magnitude * magnitude;
    SqrtOfSquare(m, magnitude);
  }

  /** Setting a magnitude to its own value leaves a vector off both axes
      unchanged. */
  lemma WithOwnMagnitudeOffAxes(m: MathLib, v: Vector2d)
    requires Sound(m) && v.x != 0.0 && v.y != 0.0
    ensures Magnitude(m, v) != 0.0
    ensures WithMagnitude(m, v, Magnitude(m, v)) == v
  {
    MagnitudeLaws(m, v);
  }

  /** On the negative x axis, setting the magnitude to its own value does NOT
      give the vector back: (-1, 0) becomes (1, 0). */
  lemma WithOwnMagnitudeFlipsNegativeAxis(m: MathLib)
    requires Sound(m)
    ensures WithMagnitude(m, Vector2d(-1.0, 0.0), Magnitude(m, Vector2d(-1.0, 0.0))) == Vector2d(1.0, 0.0)
  {
    SqrtOfSquare(m, -1.0);
  }

  /** What Vector2d_setDirection leaves in the vector: the old magnitude along
      the new direction. */
  function WithDirection(m: MathLib, v: Vector2d, direction: real): (r: Vector2d)
    ensures r.x * m.sin(direction) == r.y * m.cos(direction)
  {
    var current := Magnitude(m, v);
    Vector2d(current * m.cos(direction), current * m.sin(direction))
  }

  /** setDirection preserves the magnitude (given cos^2 + sin^2 = 1). */
  lemma WithDirectionKeepsMagnitude(m: MathLib, v: Vector2d, direction: real)
    requires Sound(m)
    ensures Magnitude(m, WithDirection(m, v, direction)) == Magnitude(m, v)
  {
    MagnitudeLaws(m, v);
    var c := Magnitude(m, v);
    var cs, sn := m.cos(direction), m.sin(direction);
    assert cs * cs + sn * sn == 1.0;
    var r := WithDirection(m, v, direction);
    calc {
      SquaredLength(r);
      (c * cs) * (c * cs) + (c * sn) * (c * sn);
      (c * c) * (cs * cs + sn * sn);
      c * c;
    }
    SqrtOfSquare(m, c);
  }

  /** A `Vector2d_t` updated in place. */
  class Vector2dRef {
    var x: real
    var y: real

    constructor (v: Vector2d)
      ensures Value() == v
    {
      x, y := v.x, v.y;
    }

    function Value(): Vector2d
      reads this
    {
      Vector2d(x, y)
    }

    /** Vector2d_selfAdd: self := self + val. */
    method SelfAdd(val: Vector2d)
      modifies this
      ensures Value() == Add(old(Value()), val)
    {
      x := x + val.x;
      y := y + val.y;
    }

    /** Vector2d_selfSubtract: self := self - val. */
    method SelfSubtract(val: Vector2d)
      modifies this
      ensures Value() == Subtract(old(Value()), val)
    {
      x := x - val.x;
      y := y - val.y;
    }

    /** Vector2d_setMagnitude. */
    method SetMagnitude(m: MathLib, magnitude: real)
      requires y == 0.0 || x == 0.0 || Magnitude(m, Value()) != 0.0
      modifies this
      ensures Value() == WithMagnitude(m, old(Value()), magnitude)
    {
      if y == 0.0 {
        x := magnitude;
      } else if x == 0.0 {
        y := magnitude;
      } else {
        var current := Magnitude(m, Value());
        var newX, newY := x * magnitude / current, y * magnitude / current;
        assert WithMagnitude(m, Value(), magnitude) == Vector2d(newX, newY);
        x, y := newX, newY;
      }
    }

    /** Vector2d_setDirection. */
    method SetDirection(m: MathLib, direction: real)
      modifies this
      ensures Value() == WithDirection(m, old(Value()), direction)
    {
      var current := Magnitude(m, Value());
      x := current * m.cos(direction);
      y := current * m.sin(direction);
    }
  }
}
