/** The joystick transfer function: a dead zone followed by a cubic sensitivity curve. */
module Expo {
  import opened Maths

  datatype Expo = Expo(deadzone: real, scale: real, offset: real)

  datatype Result<T> = Ok(value: T) | Err(message: string)

  function Cube(x: real): real {
    x * x * x
  }

  /** The curve before normalising. */
  function Curve(scale: real, x: real): real {
    scale * Cube(x) + (1.0 - scale) * x
  }

  function Normalised(scale: real, x: real, offset: real): real {
    Curve(scale, x) * offset
  }

  /** Refuses settings out of range; otherwise the offset normalises a positive full-stick value. */
  function Create(deadzone: real, scale: real): (r: Result<Expo>)
    ensures r.Ok? <==> 0.0 <= deadzone < 1.0 && 0.0 <= scale <= 1.0
    ensures r.Ok? ==> Curve(scale, 1.0 - deadzone) > 0.0 && Normalised(scale, 1.0 - deadzone, r.value.offset) == 1.0
  {
    if deadzone < 0.0 || deadzone >= 1.0 then Err("deadzone out of range")
    else if scale < 0.0 || scale > 1.0 then Err("scale out of range")
    else
      CurvePositive(scale, 1.0 - deadzone);
      Ok(Expo(deadzone, scale, 1.0 / Curve(scale, 1.0 - deadzone)))
  }

  function Apply(e: Expo, x: real): real {
    if (if x < 0.0 then -x else x) < e.deadzone then 0.0
    else Normalised(e.scale, if x > 0.0 then x - e.deadzone else x + e.deadzone, e.offset)
  }

  ghost predicate Legal(e: Expo) {
    Create(e.deadzone, e.scale) == Ok(e)
  }

  /** The divisor of the normaliser is positive for every legal setting. */
  lemma CurvePositive(scale: real, x: real)
    requires 0.0 <= scale <= 1.0 && x > 0.0
    ensures Curve(scale, x) > 0.0
  {
    CurveIncreasing(scale, 0.0, x);
  }

  lemma CurveIncreasing(scale: real, a: real, b: real)
    requires 0.0 <= scale <= 1.0 && 0.0 <= a < b
    ensures Curve(scale, a) < Curve(scale, b)
  {
    CubeIncreasing(a, b);
    Blend(scale, Cube(a), Cube(b), a, b);
  }

  lemma Blend(scale: real, ca: real, cb: real, a: real, b: real)
    requires 0.0 <= scale <= 1.0 && ca < cb && a < b
    ensures scale * ca + (1.0 - scale) * a < scale * cb + (1.0 - scale) * b
  {
    var p := Product(scale, cb - ca);
    var q := Product(1.0 - scale, b - a);
  }

  lemma CubeIncreasing(a: real, b: real)
    requires 0.0 <= a < b
    ensures Cube(a) < Cube(b)
  {
    var bb := Product(b, b);
    var aa := Product(a, a);
    var ab := Product(a, b);
    var p := Product(b - a, bb + ab + aa);
    assert Cube(b) - Cube(a) == p;
  }

  /** Odd, and zero on the closed dead band. */
  lemma OddAndDead(e: Expo, x: real)
    requires Legal(e)
    ensures Apply(e, -x) == -Apply(e, x)
    ensures -e.deadzone <= x <= e.deadzone ==> Apply(e, x) == 0.0
  {
    CurveOdd(e.scale, x - e.deadzone, e.offset);
    CurveOdd(e.scale, x + e.deadzone, e.offset);
  }

  lemma CurveOdd(scale: real, t: real, offset: real)
    ensures Normalised(scale, -t, offset) == -Normalised(scale, t, offset)
    ensures t == 0.0 ==> Normalised(scale, t, offset) == 0.0
  {
    assert Cube(-t) == -Cube(t);
    assert Curve(scale, -t) == -Curve(scale, t);
    assert (-Curve(scale, t)) * offset == -(Curve(scale, t) * offset);
  }

  /** Never decreasing, and strictly increasing between any two positions that are not both in
      the closed dead band. */
  lemma Increasing(e: Expo, x: real, y: real)
    requires Legal(e) && x < y
    ensures Apply(e, x) <= Apply(e, y)
    ensures Apply(e, x) < Apply(e, y) <==> x < -e.deadzone || e.deadzone < y
  {
    OddAndDead(e, x);
    OddAndDead(e, y);
    if e.deadzone <= x {
      IncreasingRight(e, x, y);
    } else if y <= -e.deadzone {
      IncreasingRight(e, -y, -x);
    } else {
      if x < -e.deadzone { PositiveRight(e, -x); }
      if e.deadzone < y { PositiveRight(e, y); }
    }
  }

  lemma ApplyRight(e: Expo, x: real)
    requires Legal(e) && x >= e.deadzone
    ensures Apply(e, x) == Normalised(e.scale, x - e.deadzone, e.offset) && e.offset > 0.0
  {
    CurvePositive(e.scale, 1.0 - e.deadzone);
  }

  lemma IncreasingRight(e: Expo, x: real, y: real)
    requires Legal(e) && e.deadzone <= x < y
    ensures Apply(e, x) < Apply(e, y)
  {
    ApplyRight(e, x);
    ApplyRight(e, y);
    NormalisedIncreasing(e.scale, x - e.deadzone, y - e.deadzone, e.offset);
  }

  lemma NormalisedIncreasing(scale: real, a: real, b: real, offset: real)
    requires 0.0 <= scale <= 1.0 && 0.0 <= a < b && offset > 0.0
    ensures Normalised(scale, a, offset) < Normalised(scale, b, offset)
  {
    CurveIncreasing(scale, a, b);
    ScaleIncreasing(Curve(scale, a), Curve(scale, b), offset);
  }

  lemma ScaleIncreasing(a: real, b: real, offset: real)
    requires a < b && offset > 0.0
    ensures a * offset < b * offset
  {
    var p := Product(b - a, offset);
  }

  lemma PositiveRight(e: Expo, x: real)
    requires Legal(e) && e.deadzone < x
    ensures Apply(e, x) > 0.0
  {
    OddAndDead(e, e.deadzone);
    IncreasingRight(e, e.deadzone, x);
  }

  /** Full stick is full output. */
  lemma FullStick(e: Expo)
    requires Legal(e)
    ensures Apply(e, 1.0) == 1.0 && Apply(e, -1.0) == -1.0
  {
    CurvePositive(e.scale, 1.0 - e.deadzone);
    OddAndDead(e, 1.0);
  }

  /** The curve before normalising blends a cubic and a straight line in proportion to the scale. */
  lemma CurveBlends(scale: real, x: real)
    ensures Curve(scale, x) == (1.0 - scale) * Curve(0.0, x) + scale * Curve(1.0, x)
    ensures Curve(0.0, x) == x && Curve(1.0, x) == x * x * x
  {
    CurveEnds(0.0, x);
    CurveEnds(1.0, x);
  }

  /** For every scale: beyond the dead band the output is the curve of the distance beyond it, as a
      share of the same at full stick. */
  lemma ShareOfFull(e: Expo, x: real)
    requires Legal(e) && e.deadzone <= x
    ensures Curve(e.scale, 1.0 - e.deadzone) > 0.0
    ensures Apply(e, x) == Share(Curve(e.scale, x - e.deadzone), Curve(e.scale, 1.0 - e.deadzone))
  {
    ApplyRight(e, x);
    CurvePositive(e.scale, 1.0 - e.deadzone);
  }

  function Share(part: real, whole: real): real
    requires whole > 0.0
  {
    part * (1.0 / whole)
  }

  lemma ShareMeaning(part: real, whole: real)
    requires whole > 0.0
    ensures Share(part, whole) * whole == part
  {
  }

  /** With scale zero the curve is a straight line from the edge of the dead band to full stick,
      with scale one a pure cubic. */
  lemma LinearAndCubic(e: Expo, x: real)
    requires Legal(e) && e.deadzone <= x
    ensures e.scale == 0.0 ==> Apply(e, x) == (x - e.deadzone) / (1.0 - e.deadzone)
    ensures e.scale == 1.0 ==> Apply(e, x) == Cube(x - e.deadzone) / Cube(1.0 - e.deadzone)
  {
    ApplyRight(e, x);
    CurvePositive(e.scale, 1.0 - e.deadzone);
    if e.scale == 0.0 {
      NormalisedLinear(x - e.deadzone, 1.0 - e.deadzone);
    } else if e.scale == 1.0 {
      NormalisedCubic(x - e.deadzone, 1.0 - e.deadzone);
    }
  }

  lemma NormalisedLinear(t: real, u: real)
    requires Curve(0.0, u) > 0.0
    ensures u > 0.0 && Normalised(0.0, t, 1.0 / Curve(0.0, u)) == t / u
  {
    CurveEnds(0.0, t);
    CurveEnds(0.0, u);
    Quotient(t, u);
  }

  lemma NormalisedCubic(t: real, u: real)
    requires Curve(1.0, u) > 0.0
    ensures Cube(u) > 0.0 && Normalised(1.0, t, 1.0 / Curve(1.0, u)) == Cube(t) / Cube(u)
  {
    CurveEnds(1.0, t);
    CurveEnds(1.0, u);
    Quotient(Cube(t), Cube(u));
  }

  lemma CurveEnds(scale: real, x: real)
    ensures scale == 0.0 ==> Curve(scale, x) == x
    ensures scale == 1.0 ==> Curve(scale, x) == Cube(x)
  {
  }

  lemma Quotient(a: real, b: real)
    requires b != 0.0
    ensures a * (1.0 / b) == a / b
  {
  }

  /** On the stick's range the output never exceeds the input: the curve only desensitises. */
  lemma NeverAmplifies(e: Expo, x: real)
    requires Legal(e) && -1.0 <= x <= 1.0
    ensures x >= 0.0 ==> 0.0 <= Apply(e, x) <= x
    ensures x <= 0.0 ==> x <= Apply(e, x) <= 0.0
  {
    OddAndDead(e, x);
    if x > e.deadzone {
      PositiveRight(e, x);
      NeverAmplifiesRight(e, x);
    } else if x < -e.deadzone {
      PositiveRight(e, -x);
      NeverAmplifiesRight(e, -x);
    }
  }

  lemma NeverAmplifiesRight(e: Expo, x: real)
    requires Legal(e) && e.deadzone < x <= 1.0
    ensures Apply(e, x) <= x
  {
    var t, u := x - e.deadzone, 1.0 - e.deadzone;
    ApplyRight(e, x);
    CurvePositive(e.scale, u);
    ChordBelowInput(x, e.deadzone, t, u);
    NormalisedBelow(e.scale, t, u, x);
  }

  lemma NormalisedBelow(scale: real, t: real, u: real, x: real)
    requires 0.0 <= scale <= 1.0 && 0.0 <= t <= u && u > 0.0 && t <= x * u
    requires Curve(scale, u) > 0.0
    ensures Normalised(scale, t, 1.0 / Curve(scale, u)) <= x
  {
    BelowChord(scale, t, u);
    QuotientBelow(Curve(scale, t), t, u, Curve(scale, u), x);
  }

  /** The curve lies below its chord to `u`. */
  lemma BelowChord(scale: real, t: real, u: real)
    requires 0.0 <= scale <= 1.0 && 0.0 <= t <= u
    ensures Curve(scale, t) * u <= t * Curve(scale, u)
  {
    var tu := Product(t, u);
    var gap := Product(u - t, u + t);
    var p := Product(tu, gap);
    var q := Product(scale, p);
    ChordAlgebra(scale, t, u, q);
  }

  lemma ChordAlgebra(scale: real, t: real, u: real, q: real)
    requires q == scale * ((t * u) * ((u - t) * (u + t)))
    ensures t * Curve(scale, u) - Curve(scale, t) * u == q
  {
    LinearPartsCancel(scale, t, u, Cube(t), Cube(u));
    CubicParts(t, u);
  }

  lemma LinearPartsCancel(scale: real, t: real, u: real, ct: real, cu: real)
    ensures t * (scale * cu + (1.0 - scale) * u) - (scale * ct + (1.0 - scale) * t) * u == scale * (t * cu - ct * u)
  {
  }

  lemma CubicParts(t: real, u: real)
    ensures t * Cube(u) - Cube(t) * u == (t * u) * ((u - t) * (u + t))
  {
  }

  lemma ChordBelowInput(x: real, deadzone: real, t: real, u: real)
    requires 0.0 <= deadzone < 1.0 && deadzone <= x <= 1.0
    requires t == x - deadzone && u == 1.0 - deadzone
    ensures t <= x * u
  {
    var p := Product(deadzone, 1.0 - x);
  }

  lemma QuotientBelow(c: real, t: real, u: real, d: real, x: real)
    requires u > 0.0 && d > 0.0 && c * u <= t * d && t <= x * u
    ensures c * (1.0 / d) <= x
  {
    var q := c * (1.0 / d);
    assert q * d == c;
    var slack := Product(x * u - t, d);
    var ud := Product(u, d);
    assert (x - q) * ud == slack + (t * d - c * u);
    NonNegativeFactor(x - q, ud);
  }

  lemma NonNegativeFactor(a: real, b: real)
    requires b > 0.0 && a * b >= 0.0
    ensures a >= 0.0
  {
  }
}
