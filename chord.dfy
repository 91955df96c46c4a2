/** Integer geometry shared by calcLine (grating.cpp) and calcRectangle (grating2.cpp).

    The grating is inscribed in a circle of radius `radius` whose bounding box is
    [0, 2*radius] x [0, 2*radius], so the centre is (radius, radius). A vertical probe at
    column x meets the circle at heights radius - h and radius + h, where h is the square
    root of the radicand radius^2 - (x - radius)^2. Lengths are micrometres. */
module Chord {

  /** xCoord: the horizontal distance from column x to the vertical centre line.
      Inside the bounding box it never exceeds the radius. */
  function XCoord(x: int, radius: int): (d: int)
    ensures d >= 0 && (d == x - radius || d == radius - x)
    ensures 0 <= x <= 2 * radius ==> d <= radius
  {
    if x < radius then radius - x else x - radius
  }

  /** The integer radicand radius^2 - xCoord^2 handed to sqrt. Inside the bounding box it
      lies in [0, radius^2], so its square root is defined. */
  function Radicand(x: int, radius: int): (v: int)
    ensures 0 <= x <= 2 * radius ==> 0 <= v <= radius * radius
  {
    var d := XCoord(x, radius);
    SquareMonotone(d, radius);
    radius * radius - d * d
  }

  /** By the circle equation the radicand is the squared half-chord length at column x:
      radicand + (x - radius)^2 = radius^2. */
  lemma RadicandCircle(x: int, radius: int)
    ensures Radicand(x, radius) + (x - radius) * (x - radius) == radius * radius
  {
    var d := XCoord(x, radius);
    assert d * d == (x - radius) * (x - radius);
  }

  /** The same circle equation read over the reals, where the chord ends live. */
  lemma RadicandCircleReal(x: int, radius: int)
    ensures var dx := (x - radius) as real;
            dx * dx + Radicand(x, radius) as real == (radius * radius) as real
  {
    RadicandCircle(x, radius);
    var dx := (x - radius) as real;
    assert dx * dx == ((x - radius) * (x - radius)) as real;
  }

  /** Squaring is monotone on the non-negative integers. */
  lemma SquareMonotone(a: int, b: int)
    ensures 0 <= a <= b ==> a * a <= b * b
    ensures 0 <= a < b ==> a * a < b * b
  {
    if 0 <= a <= b {
      assert a * a <= a * b <= b * b;
      if a < b {
        assert a * b < b * b;
      }
    }
  }

  /** Columns x and 2*radius - x are mirror images about the centre line: same distance,
      same radicand. */
  lemma RadicandMirror(x: int, radius: int)
    ensures XCoord(2 * radius - x, radius) == XCoord(x, radius)
    ensures Radicand(2 * radius - x, radius) == Radicand(x, radius)
  {
  }

  /** The radicand vanishes exactly at the two tangent columns 0 and 2*radius. */
  lemma RadicandZeroIff(x: int, radius: int)
    requires 0 < radius && 0 <= x <= 2 * radius
    ensures Radicand(x, radius) == 0 <==> (x == 0 || x == 2 * radius)
  {
    var d := XCoord(x, radius);
    if d < radius {
      SquareMonotone(d, radius);
    }
  }

  /** The radicand reaches its maximum radius^2 exactly on the centre column. */
  lemma RadicandFullIff(x: int, radius: int)
    requires 0 <= x <= 2 * radius
    ensures Radicand(x, radius) == radius * radius <==> x == radius
  {
    var d := XCoord(x, radius);
    if d > 0 {
      SquareMonotone(1, d);
    }
  }

  /** The point (x, y) lies on the circle of radius `radius` centred at (radius, radius). */
  predicate OnCircle(x: int, y: real, radius: int)
  {
    var dx := (x - radius) as real;
    var dy := y - radius as real;
    dx * dx + dy * dy == (radius * radius) as real
  }

  /** h stands for sqrt(v): the model's abstraction of the C library square root. */
  predicate IsSqrt(h: real, v: int)
  {
    0.0 <= h && h * h == v as real
  }

  /** Squaring is strictly monotone on the non-negative reals. */
  lemma RealSquareMonotone(a: real, b: real)
    ensures 0.0 <= b < a ==> b * b < a * a
  {
    if 0.0 <= b < a {
      var d := a - b;
      assert a * a - b * b == (a + b) * d;
      assert (a + b) * d > 0.0;
    }
  }

  /** sqrt returns the non-negative square root of every radicand from 0 to bound: the
      model's stand-in for the C library function as the sampling loops use it. */
  predicate IsSqrtUpTo(sqrt: int -> real, bound: int)
  {
    forall v :: 0 <= v <= bound ==> IsSqrt(sqrt(v), v)
  }

  /** A non-negative square root is unique, so every caller that takes the square root of the
      same radicand gets the same value. */
  lemma SqrtUnique(h1: real, h2: real, v: int)
    requires IsSqrt(h1, v) && IsSqrt(h2, v)
    ensures h1 == h2
  {
    RealSquareMonotone(h1, h2);
    RealSquareMonotone(h2, h1);
  }

  /** The square root of a radicand bounded by radius^2 is bounded by the radius. */
  lemma SqrtBounded(h: real, v: int, radius: int)
    requires IsSqrt(h, v) && 0 <= radius && v <= radius * radius
    ensures h <= radius as real
  {
    var r := radius as real;
    assert (radius * radius) as real == r * r;
    RealSquareMonotone(h, r);
  }

  /** The square root is zero exactly when the radicand is. */
  lemma SqrtZeroIff(h: real, v: int)
    requires IsSqrt(h, v)
    ensures h == 0.0 <==> v == 0
  {
    RealSquareMonotone(h, 0.0);
  }

  /** The square root of radius^2 is the radius itself. */
  lemma SqrtOfSquare(h: real, radius: int)
    requires IsSqrt(h, radius * radius) && 0 <= radius
    ensures h == radius as real
  {
    var r := radius as real;
    assert (radius * radius) as real == r * r;
    SqrtUnique(h, r, radius * radius);
  }

  /** The heights radius - h and radius + h, with h the square root of the radicand, are the
      two points where column x meets the circle. */
  lemma ChordEnds(x: int, radius: int, h: real)
    requires 0 <= x <= 2 * radius
    requires IsSqrt(h, Radicand(x, radius))
    ensures OnCircle(x, radius as real - h, radius) && OnCircle(x, radius as real + h, radius)
  {
    var dx := (x - radius) as real;
    RadicandCircleReal(x, radius);
    assert OnCircle(x, radius as real - h, radius) by {
      assert (radius as real - h) - radius as real == -h;
      assert (-h) * (-h) == h * h;
    }
    assert OnCircle(x, radius as real + h, radius) by {
      assert (radius as real + h) - radius as real == h;
    }
  }

  /** The half-chord h equals the radius exactly on the centre column. */
  lemma HalfChordFullIff(x: int, radius: int, h: real)
    requires 0 <= x <= 2 * radius
    requires IsSqrt(h, Radicand(x, radius))
    ensures h == radius as real <==> x == radius
  {
    var v := Radicand(x, radius);
    RadicandFullIff(x, radius);
    var r := radius as real;
    assert (radius * radius) as real == r * r;
    if x == radius {
      SqrtOfSquare(h, radius);
    } else {
      assert h == r ==> h * h == r * r;
    }
  }
}
