/**
 * The floating-point library the game calls (`sqrt`, `cos`, `sin`, `atan2`
 * from math.h), with `double` read as `real`.  The functions are not
 * computed: a caller passes them in as a `MathLib` value, and `Sound` states
 * the only laws the proofs rely on.
 */
module RealMath {

  /** CONSTANT_PI of collision.c and vector2d.c. */
  const Pi: real := 3.1415926535

  datatype MathLib = MathLib(
    sqrt: real -> real,
    cos: real -> real,
    sin: real -> real,
    atan2: (real, real) -> real)

  /** The laws assumed of the library: `sqrt` is the non-negative square root
      and `cos`, `sin` lie on the unit circle. */
  ghost predicate Sound(m: MathLib) {
    && (forall v: real :: 0.0 <= v ==> 0.0 <= m.sqrt(v) && m.sqrt(v) * m.sqrt(v) == v)
    && (forall t: real :: m.cos(t) * m.cos(t) + m.sin(t) * m.sin(t) == 1.0)
  }

  function Abs(a: real): real {
    if a < 0.0 then -a else a
  }

  /** a is within 1 of r times c. */
  predicate Near(a: real, r: int, c: real) {
    Abs(a - r as real * c) < 1.0
  }

  /** The C conversion of a `double` to an integer type: truncation toward zero. */
  function Trunc(a: real): (n: int)
    ensures Abs(a - n as real) < 1.0
    ensures Abs(n as real) <= Abs(a)
    ensures (n < 0 ==> a < 0.0) && (n > 0 ==> a > 0.0)
  {
    if a >= 0.0 then a.Floor else -((-a).Floor)
  }

  /** Squaring is strictly increasing on the non-negative reals. */
  lemma SquareMonotone(a: real, b: real)
    requires 0.0 <= a < b
    ensures a * a < b * b
  {
    calc {
      a * a;
      <= a * b;
      < b * b;
    }
  }

  /** The square root of a square is the absolute value. */
  lemma SqrtOfSquare(m: MathLib, a: real)
    requires Sound(m)
    ensures m.sqrt(a * a) == Abs(a)
  {
    var s := m.sqrt(a * a);
    var b := Abs(a);
    assert 0.0 <= a * a;
    assert s >= 0.0 && s * s == a * a;
    assert b * b == a * a;
    if s < b {
      SquareMonotone(s, b);
    } else if b < s {
      SquareMonotone(b, s);
    }
  }

  /** Only zero has square root zero. */
  lemma SqrtZero(m: MathLib, v: real)
    requires Sound(m) && 0.0 <= v
    ensures m.sqrt(v) == 0.0 <==> v == 0.0
  {
    var s := m.sqrt(v);
    assert s * s == v && s >= 0.0;
    if s != 0.0 {
      SquareMonotone(0.0, s);
    }
  }

  /** The unit-circle law bounds each of cos and sin by one in absolute value. */
  lemma CosSinBounded(m: MathLib, t: real)
    requires Sound(m)
    ensures Abs(m.cos(t)) <= 1.0 && Abs(m.sin(t)) <= 1.0
  {
    var c, s := m.cos(t), m.sin(t);
    assert c * c + s * s == 1.0;
    assert Abs(c) * Abs(c) == c * c && Abs(s) * Abs(s) == s * s;
    if 1.0 < Abs(c) {
      SquareMonotone(1.0, Abs(c));
    }
    if 1.0 < Abs(s) {
      SquareMonotone(1.0, Abs(s));
    }
  }
}
