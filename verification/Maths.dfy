/** The numeric library the robot code relies on, over ideal reals.

    `sin`, `cos`, `atan2` and `sqrt` are not defined here: a `Maths` value carries four
    functions, and `Valid` states the textbook laws the proofs may use. Every theorem holds
    for any four functions that obey them. All angles are in degrees.
  */
module Maths {
  function Abs(x: real): real {
    if x < 0.0 then -x else x
  }

  function Sign(x: real): real {
    if x == 0.0 then 0.0 else if x > 0.0 then 1.0 else -1.0
  }

  /** A conversion from double to int: truncation toward zero. */
  function Trunc(x: real): int {
    if x >= 0.0 then x.Floor else -((-x).Floor)
  }

  /** `std::round`: the nearest integer, halves away from zero. */
  function Round(x: real): int {
    if x >= 0.0 then (x + 0.5).Floor else -((0.5 - x).Floor)
  }

  /** C's `fmod(x, 360)`: the remainder of a truncating division, with the sign of `x`. */
  function Fmod360(x: real): real {
    x - 360.0 * (Trunc(x / 360.0) as real)
  }

  /** The representative of `x` in [0, 360). */
  function Mod360(x: real): real {
    x - 360.0 * ((x / 360.0).Floor as real)
  }

  function Turns(k: int): real {
    360.0 * (k as real)
  }

  /** Equality of headings: `a` and `b` differ by a whole number of turns. */
  ghost predicate Congruent(a: real, b: real) {
    exists k :: a == b + Turns(k)
  }

  lemma CongruentBy(a: real, b: real, k: int)
    requires a == b + Turns(k)
    ensures Congruent(a, b)
  {
  }

  lemma CongruentSum(a: real, b: real, c: real, d: real)
    requires Congruent(a, b) && Congruent(c, d)
    ensures Congruent(a + c, b + d)
  {
    var j :| a == b + Turns(j);
    var k :| c == d + Turns(k);
    CongruentBy(a + c, b + d, j + k);
  }

  lemma CongruentSymmetric(a: real, b: real)
    requires Congruent(a, b)
    ensures Congruent(b, a)
  {
    var k :| a == b + Turns(k);
    CongruentBy(b, a, -k);
  }

  lemma CongruentTransitive(a: real, b: real, c: real)
    requires Congruent(a, b) && Congruent(b, c)
    ensures Congruent(a, c)
  {
    var j :| a == b + Turns(j);
    var k :| b == c + Turns(k);
    CongruentBy(a, c, j + k);
  }

  lemma Fmod360Meaning(x: real)
    ensures Congruent(Fmod360(x), x)
    ensures x >= 0.0 ==> 0.0 <= Fmod360(x) < 360.0
    ensures x <= 0.0 ==> -360.0 < Fmod360(x) <= 0.0
  {
    CongruentBy(Fmod360(x), x, -Trunc(x / 360.0));
  }

  lemma Mod360Meaning(x: real)
    ensures Congruent(Mod360(x), x)
    ensures 0.0 <= Mod360(x) < 360.0
  {
    CongruentBy(Mod360(x), x, -(x / 360.0).Floor);
  }

  /** Two angles in [0, 360) that are the same heading are equal. */
  lemma Mod360Unique(a: real, b: real)
    requires Congruent(a, b) && 0.0 <= a < 360.0 && 0.0 <= b < 360.0
    ensures a == b
  {
  }

  /** Rounding goes to the nearest integer, and away from zero when two are equally near. */
  lemma RoundIsNearest(x: real)
    ensures Abs(Round(x) as real - x) <= 0.5
    ensures Abs(Round(x) as real - x) == 0.5 ==> Abs(Round(x) as real) > Abs(x)
  {
  }

  /** Truncation drops the fraction toward zero. */
  lemma TruncMeaning(x: real)
    ensures x >= 0.0 ==> 0.0 <= x - Trunc(x) as real < 1.0
    ensures x <= 0.0 ==> -1.0 < x - Trunc(x) as real <= 0.0
  {
  }

  /** The square of `x`, named so that its sign survives as a fact about one term. */
  lemma Square(x: real) returns (s: real)
    ensures s == x * x && s >= 0.0 && (s == 0.0 <==> x == 0.0)
  {
    if x == 0.0 {
      s := 0.0;
    } else {
      s := SameSign(x, x);
    }
  }

  lemma SameSign(a: real, b: real) returns (p: real)
    requires (a > 0.0 && b > 0.0) || (a < 0.0 && b < 0.0)
    ensures p == a * b && p > 0.0
  {
    p := a * b;
  }

  lemma Product(a: real, b: real) returns (p: real)
    requires a >= 0.0 && b >= 0.0
    ensures p == a * b && p >= 0.0
    ensures a > 0.0 && b > 0.0 ==> p > 0.0
  {
    p := a * b;
  }

  datatype Vec = Vec(x: real, y: real)

  function Dot(a: Vec, b: Vec): real {
    a.x * b.x + a.y * b.y
  }

  function Minus(a: Vec, b: Vec): Vec {
    Vec(a.x - b.x, a.y - b.y)
  }

  function Scaled(s: real, a: Vec): Vec {
    Vec(s * a.x, s * a.y)
  }

  datatype Maths = Maths(cos: real -> real, sin: real -> real, atan2: (real, real) -> real, sqrt: real -> real) {
    function Hypot(x: real, y: real): real {
      sqrt(x * x + y * y)
    }

    ghost predicate UnitAt(a: real) {
      cos(a) * cos(a) + sin(a) * sin(a) == 1.0
    }

    ghost predicate HalfTurnAt(a: real) {
      cos(a + 180.0) == -cos(a) && sin(a + 180.0) == -sin(a)
    }

    ghost predicate RootAt(v: real) {
      v >= 0.0 ==> sqrt(v) >= 0.0 && sqrt(v) * sqrt(v) == v
    }

    ghost predicate PolarAt(x: real, y: real) {
      && -180.0 <= atan2(y, x) <= 180.0
      && x == Hypot(x, y) * cos(atan2(y, x))
      && y == Hypot(x, y) * sin(atan2(y, x))
    }

    ghost predicate Valid() {
      && (forall a :: UnitAt(a))
      && (forall a :: HalfTurnAt(a))
      && (forall v :: RootAt(v))
      && (forall x, y :: PolarAt(x, y))
    }

    /** The vector of length `speed` (backwards when negative) along the angle `a`. */
    function Along(speed: real, a: real): Vec {
      Vec(speed * cos(a), speed * sin(a))
    }

    lemma HypotMeaning(x: real, y: real)
      requires Valid()
      ensures Hypot(x, y) >= 0.0
      ensures Hypot(x, y) * Hypot(x, y) == x * x + y * y
    {
      assert RootAt(x * x + y * y);
      assert x * x >= 0.0 && y * y >= 0.0;
    }

    lemma {:induction false} Periodic(a: real, k: int)
      requires Valid()
      ensures cos(a + Turns(k)) == cos(a) && sin(a + Turns(k)) == sin(a)
      decreases if k < 0 then -k else k
    {
      if k > 0 {
        Periodic(a, k - 1);
        var b := a + Turns(k - 1);
        assert HalfTurnAt(b) && HalfTurnAt(b + 180.0);
        assert b + 180.0 + 180.0 == a + Turns(k);
      } else if k < 0 {
        Periodic(a, k + 1);
        var b := a + Turns(k);
        assert HalfTurnAt(b) && HalfTurnAt(b + 180.0);
        assert b + 180.0 + 180.0 == a + Turns(k + 1);
      }
    }

    lemma SameHeading(a: real, b: real)
      requires Valid() && Congruent(a, b)
      ensures cos(a) == cos(b) && sin(a) == sin(b)
    {
      var k :| a == b + Turns(k);
      Periodic(b, k);
    }
  }
}
