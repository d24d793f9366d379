/** Geometry and meaning of one swerve drive call, on values. Wheels are named by index only:
    the enumeration that places the corners and the labels of the outputs use different orders. */
module Kinematics {
  import opened Maths
  import opened Steering

  // ------------------------------------------------------------------ geometry

  datatype RotationPoint = Center | Shooter

  datatype Chassis = Chassis(width: real, length: real, shooter: Vec)

  /** The corner of wheel `i`: 0 left front, 1 right front, 2 right rear, 3 left rear. */
  function Corner(i: nat): Vec
    requires i < 4
  {
    if i == 0 then Vec(-1.0, 1.0)
    else if i == 1 then Vec(1.0, 1.0)
    else if i == 2 then Vec(1.0, -1.0)
    else Vec(-1.0, -1.0)
  }

  function WheelPosition(c: Chassis, i: nat): Vec
    requires i < 4
  {
    Vec(c.width * Corner(i).x / 2.0, c.length * Corner(i).y / 2.0)
  }

  /** No wheel stands on the rotation point, where its direction would be 0/0. */
  ghost predicate OffWheels(c: Chassis, point: Vec) {
    forall i: nat | i < 4 :: WheelPosition(c, i) != point
  }

  function PointOf(c: Chassis, rp: RotationPoint): Vec {
    if rp.Center? then Vec(0.0, 0.0) else c.shooter
  }

  ghost predicate ChassisValid(c: Chassis) {
    OffWheels(c, PointOf(c, Center)) && OffWheels(c, PointOf(c, Shooter))
  }

  function Distance(m: Maths, point: Vec, wheel: Vec): real {
    m.Hypot(point.x - wheel.x, point.y - wheel.y)
  }

  lemma DistancePositive(m: Maths, point: Vec, wheel: Vec)
    requires m.Valid() && wheel != point
    ensures Distance(m, point, wheel) > 0.0
  {
    var x, y := point.x - wheel.x, point.y - wheel.y;
    m.HypotMeaning(x, y);
    var xx := Square(x);
    var yy := Square(y);
    var dd := Square(m.Hypot(x, y));
  }

  /** The unit direction in which a wheel rolls when the chassis turns about `point`. */
  function RotationVector(m: Maths, point: Vec, wheel: Vec): Vec
    requires Distance(m, point, wheel) != 0.0
  {
    var d := Distance(m, point, wheel);
    Vec(-(point.y - wheel.y) / d, (point.x - wheel.x) / d)
  }

  /** The wheels stand on the corners of a rectangle around the center: 0 and 1 in front, 1 and 2 on
      the right. */
  lemma WheelsOnRectangle(c: Chassis)
    ensures Minus(WheelPosition(c, 1), WheelPosition(c, 0)) == Minus(WheelPosition(c, 2), WheelPosition(c, 3)) == Vec(c.width, 0.0)
    ensures Minus(WheelPosition(c, 0), WheelPosition(c, 3)) == Minus(WheelPosition(c, 1), WheelPosition(c, 2)) == Vec(0.0, c.length)
    ensures Sum4([WheelPosition(c, 0), WheelPosition(c, 1), WheelPosition(c, 2), WheelPosition(c, 3)]) == Vec(0.0, 0.0)
  {
  }

  /** What the rotation adds to the velocity of a wheel: nothing along its line to the point, and
      across it the rotation rate itself, clockwise when positive. */
  lemma RotationShare(m: Maths, point: Vec, p: Vec, fwd: real, str: real, rcw: real)
    requires m.Valid() && p != point
    ensures Distance(m, point, p) > 0.0
    ensures var share := Minus(Demand(RotationVector(m, point, p), fwd, str, rcw), Vec(str, fwd));
            && Dot(Minus(p, point), share) == 0.0
            && Cross(Minus(p, point), share) == -(rcw * Distance(m, point, p))
  {
    DistancePositive(m, point, p);
    RotationVectorAs(m, point, p);
    var a, d := Minus(p, point), Distance(m, point, p);
    m.HypotMeaning(point.x - p.x, point.y - p.y);
    assert d * d == a.x * a.x + a.y * a.y;
    ShareAlgebra(a.x, a.y, 1.0 / d, d, rcw);
  }

  lemma ShareAlgebra(x: real, y: real, u: real, d: real, r: real)
    requires u * d == 1.0 && d * d == x * x + y * y
    ensures x * (y * u * r) + y * (-x * u * r) == 0.0
    ensures x * (-x * u * r) - y * (y * u * r) == -(r * d)
  {
    assert x * (-x * u * r) - y * (y * u * r) == -(r * u * (x * x + y * y));
    assert r * u * (d * d) == r * d * (u * d);
  }

  ghost predicate IsRotationVectors(m: Maths, c: Chassis, point: Vec, vectors: seq<Vec>) {
    && |vectors| == 4
    && forall i: nat | i < 4 ::
        && Distance(m, point, WheelPosition(c, i)) > 0.0
        && vectors[i] == RotationVector(m, point, WheelPosition(c, i))
  }

  // ------------------------------------------------------------------ one drive call on values

  /** The velocity demanded of one wheel: the translation plus its share of the rotation. */
  function Demand(vector: Vec, fwd: real, str: real, rcw: real): Vec {
    Vec(str + vector.x * rcw, fwd + vector.y * rcw)
  }

  function Demands(vectors: seq<Vec>, fwd: real, str: real, rcw: real): (ds: seq<Vec>)
    ensures |ds| == |vectors|
  {
    seq(|vectors|, i requires 0 <= i < |vectors| => Demand(vectors[i], fwd, str, rcw))
  }

  /** The wheels after steering each of them toward its demand. */
  function Aimed(m: Maths, ws: seq<Wheel>, ds: seq<Vec>): (ws': seq<Wheel>)
    requires |ws| == |ds|
    ensures |ws'| == |ws|
  {
    seq(|ws|, i requires 0 <= i < |ws| => Steer(ws[i], Heading(m, ds[i])))
  }

  /** The largest of the magnitudes, or zero when there is none above it. */
  function Largest(mags: seq<real>): real {
    if mags == [] then 0.0
    else
      var rest := Largest(mags[..|mags| - 1]);
      if rest < mags[|mags| - 1] then mags[|mags| - 1] else rest
  }

  function Magnitude(m: Maths, demand: Vec): real {
    m.Hypot(demand.x, demand.y)
  }

  function Magnitudes(m: Maths, ds: seq<Vec>): (mags: seq<real>)
    ensures |mags| == |ds|
  {
    seq(|ds|, i requires 0 <= i < |ds| => Magnitude(m, ds[i]))
  }

  /** One factor for all wheels: it brings the fastest wheel down to full speed. */
  function Desaturation(mags: seq<real>): real {
    if Largest(mags) > 1.0 then 1.0 / Largest(mags) else 1.0
  }

  function Speed(m: Maths, ws': seq<Wheel>, ds: seq<Vec>, i: nat): real
    requires |ws'| == |ds| && i < |ds|
  {
    SignedSpeed(ws'[i].flipped, Magnitude(m, ds[i]), Desaturation(Magnitudes(m, ds)))
  }

  // ------------------------------------------------------------------ meaning of a drive call

  ghost predicate AllInSync(ws: seq<Wheel>) {
    |ws| == 4 && forall i: nat | i < 4 :: InSync(ws[i])
  }

  lemma {:induction false} LargestMeaning(mags: seq<real>)
    ensures Largest(mags) >= 0.0
    ensures forall i: nat | i < |mags| :: mags[i] <= Largest(mags)
    ensures Largest(mags) > 0.0 ==> Largest(mags) in mags
  {
    if mags != [] {
      LargestMeaning(mags[..|mags| - 1]);
    }
  }

  lemma DesaturationRange(mags: seq<real>)
    ensures 0.0 < Desaturation(mags) <= 1.0
    ensures Desaturation(mags) == 1.0 <==> forall i: nat | i < |mags| :: mags[i] <= 1.0
  {
    LargestMeaning(mags);
  }

  /** The velocities commanded by a drive call are the demanded ones times one common factor
      in (0, 1], whatever the wheels did before. */
  lemma DriveMeaning(m: Maths, ws: seq<Wheel>, ds: seq<Vec>, i: nat)
    requires m.Valid() && AllInSync(ws) && |ds| == 4 && i < 4
    ensures var ws' := Aimed(m, ws, ds);
            WheelVelocity(m, Speed(m, ws', ds, i), ws'[i].setpoint)
            == Scaled(Desaturation(Magnitudes(m, ds)), ds[i])
  {
    SteeredVelocity(m, ws[i], ds[i], Desaturation(Magnitudes(m, ds)));
  }

  /** All speeds are within full speed; nothing is slowed when no demand exceeds full speed,
      and otherwise some wheel runs at exactly full speed. */
  lemma SpeedsSaturate(m: Maths, ws': seq<Wheel>, ds: seq<Vec>)
    requires m.Valid() && |ws'| == |ds|
    ensures forall i: nat | i < |ds| :: Abs(Speed(m, ws', ds, i)) <= 1.0
    ensures Desaturation(Magnitudes(m, ds)) == 1.0
         || exists i: nat | i < |ds| :: Abs(Speed(m, ws', ds, i)) == 1.0
  {
    var mags := Magnitudes(m, ds);
    forall i: nat | i < |ds|
      ensures Abs(Speed(m, ws', ds, i)) <= 1.0
    {
      SpeedSize(m, ws', ds, i);
    }
    if Largest(mags) > 1.0 {
      LargestMeaning(mags);
      var k: nat :| k < |mags| && mags[k] == Largest(mags);
      SpeedSize(m, ws', ds, k);
    }
  }

  lemma SpeedSize(m: Maths, ws': seq<Wheel>, ds: seq<Vec>, i: nat)
    requires m.Valid() && |ws'| == |ds| && i < |ds|
    ensures Abs(Speed(m, ws', ds, i)) <= 1.0
    ensures Largest(Magnitudes(m, ds)) > 1.0 && Magnitudes(m, ds)[i] == Largest(Magnitudes(m, ds))
            ==> Abs(Speed(m, ws', ds, i)) == 1.0
  {
    var mags := Magnitudes(m, ds);
    m.HypotMeaning(ds[i].x, ds[i].y);
    LargestMeaning(mags);
    if Largest(mags) > 1.0 {
      ScaledByReciprocal(mags[i], Largest(mags));
    }
    SpeedSizeIs(ws'[i].flipped, mags[i], Desaturation(mags));
  }

  lemma SpeedSizeIs(flipped: bool, size: real, scale: real)
    requires size >= 0.0 && scale > 0.0
    ensures Abs(SignedSpeed(flipped, size, scale)) == size * scale
  {
    assert size * scale >= 0.0;
    assert (-size) * scale == -(size * scale);
  }

  lemma ScaledByReciprocal(a: real, b: real)
    requires b > 0.0
    ensures a * (1.0 / b) == a / b
    ensures 0.0 <= a <= b ==> 0.0 <= a / b <= 1.0
    ensures a == b ==> a / b == 1.0
  {
  }

  // ------------------------------------------------------------------ rigid-body geometry

  /** How fast the gap between two points of a rigid body would change: zero for a body. */
  function Scrub(vi: Vec, vj: Vec, pi: Vec, pj: Vec): real {
    Dot(Minus(vi, vj), Minus(pi, pj))
  }

  function Cross(a: Vec, b: Vec): real {
    a.x * b.y - a.y * b.x
  }

  /** The scrub between two wheels at `a` and `b` from the rotation point, where `u` and `v`
      normalise their directions: rotating at `r` they disagree by the difference of the two. */
  function Mismatch(r: real, a: Vec, b: Vec, u: real, v: real): real {
    r * (Cross(a, b) * (u - v))
  }

  function Perpendicular(a: Vec, u: real): Vec {
    Vec(a.y * u, -a.x * u)
  }

  lemma PairScrub(m: Maths, point: Vec, p: Vec, q: Vec, fwd: real, str: real, rcw: real)
    requires Distance(m, point, p) > 0.0 && Distance(m, point, q) > 0.0
    ensures Scrub(Demand(RotationVector(m, point, p), fwd, str, rcw), Demand(RotationVector(m, point, q), fwd, str, rcw), p, q)
         == Mismatch(rcw, Minus(p, point), Minus(q, point), 1.0 / Distance(m, point, p), 1.0 / Distance(m, point, q))
  {
    var a, b := Minus(p, point), Minus(q, point);
    RotationVectorAs(m, point, p);
    RotationVectorAs(m, point, q);
    ScrubAlgebra(a, b, 1.0 / Distance(m, point, p), 1.0 / Distance(m, point, q), fwd, str, rcw);
    assert Minus(p, q) == Minus(a, b);
  }

  lemma RotationVectorAs(m: Maths, point: Vec, p: Vec)
    requires Distance(m, point, p) > 0.0
    ensures RotationVector(m, point, p) == Perpendicular(Minus(p, point), 1.0 / Distance(m, point, p))
  {
    var d := Distance(m, point, p);
    Reciprocal(-(point.y - p.y), d);
    Reciprocal(point.x - p.x, d);
  }

  lemma Reciprocal(a: real, b: real)
    requires b != 0.0
    ensures a / b == a * (1.0 / b)
  {
  }

  lemma ScrubAlgebra(a: Vec, b: Vec, u: real, v: real, fwd: real, str: real, r: real)
    ensures Scrub(Demand(Perpendicular(a, u), fwd, str, r), Demand(Perpendicular(b, v), fwd, str, r), a, b)
         == Mismatch(r, a, b, u, v)
  {
    assert (a.y * u * r - b.y * v * r) * (a.x - b.x) + (b.x * v * r - a.x * u * r) * (a.y - b.y)
        == r * ((a.x * b.y - a.y * b.x) * (u - v));
  }

  /** About any point, two wheels move as parts of one rigid body exactly when the chassis does
      not turn, or the point is in line with both wheels, or equally far from both. */
  lemma RigidIff(m: Maths, point: Vec, p: Vec, q: Vec, fwd: real, str: real, rcw: real)
    requires Distance(m, point, p) > 0.0 && Distance(m, point, q) > 0.0
    ensures Scrub(Demand(RotationVector(m, point, p), fwd, str, rcw), Demand(RotationVector(m, point, q), fwd, str, rcw), p, q) == 0.0
            <==> (|| rcw == 0.0
                  || Cross(Minus(p, point), Minus(q, point)) == 0.0
                  || Distance(m, point, p) == Distance(m, point, q))
  {
    PairScrub(m, point, p, q, fwd, str, rcw);
    var k := Cross(Minus(p, point), Minus(q, point));
    var dp, dq := Distance(m, point, p), Distance(m, point, q);
    ProductZero(rcw, k * (1.0 / dp - 1.0 / dq));
    ProductZero(k, 1.0 / dp - 1.0 / dq);
    ReciprocalsDiffer(dp, dq);
  }

  /** Turning about a point leaves every pair of wheels unscrubbed. */
  ghost predicate RigidAbout(m: Maths, c: Chassis, point: Vec, fwd: real, str: real, rcw: real)
    requires m.Valid() && OffWheels(c, point)
  {
    forall i: nat, j: nat | i < 4 && j < 4 :: PairScrubAbout(m, c, point, fwd, str, rcw, i, j) == 0.0
  }

  ghost function PairScrubAbout(m: Maths, c: Chassis, point: Vec, fwd: real, str: real, rcw: real, i: nat, j: nat): real
    requires m.Valid() && OffWheels(c, point) && i < 4 && j < 4
  {
    var p, q := WheelPosition(c, i), WheelPosition(c, j);
    DistancePositive(m, point, p);
    DistancePositive(m, point, q);
    Scrub(Demand(RotationVector(m, point, p), fwd, str, rcw), Demand(RotationVector(m, point, q), fwd, str, rcw), p, q)
  }

  /** Of all points to turn about, only the center of the chassis makes the wheels move as one
      rigid body. */
  lemma OnlyCenterIsRigid(m: Maths, c: Chassis, point: Vec, fwd: real, str: real, rcw: real)
    requires m.Valid() && OffWheels(c, point) && c.width > 0.0 && c.length > 0.0 && rcw != 0.0
    ensures RigidAbout(m, c, point, fwd, str, rcw) <==> point == PointOf(c, Center)
  {
    if point == PointOf(c, Center) {
      forall i: nat, j: nat | i < 4 && j < 4
        ensures PairScrubAbout(m, c, point, fwd, str, rcw, i, j) == 0.0
      {
        DistancePositive(m, point, WheelPosition(c, i));
        DistancePositive(m, point, WheelPosition(c, j));
        CenterEquidistant(m, c, i);
        CenterEquidistant(m, c, j);
        RigidIff(m, point, WheelPosition(c, i), WheelPosition(c, j), fwd, str, rcw);
      }
    }
    if RigidAbout(m, c, point, fwd, str, rcw) {
      assert PairScrubAbout(m, c, point, fwd, str, rcw, 0, 1) == 0.0;
      assert PairScrubAbout(m, c, point, fwd, str, rcw, 3, 2) == 0.0;
      assert PairScrubAbout(m, c, point, fwd, str, rcw, 0, 3) == 0.0;
      assert PairScrubAbout(m, c, point, fwd, str, rcw, 1, 2) == 0.0;
      AcrossIff(m, c, point, fwd, str, rcw, 0, 1);
      AcrossIff(m, c, point, fwd, str, rcw, 3, 2);
      AlongIff(m, c, point, fwd, str, rcw, 0, 3);
      AlongIff(m, c, point, fwd, str, rcw, 1, 2);
    }
  }

  /** Two wheels side by side do not scrub exactly when the point is on their line or midway. */
  lemma AcrossIff(m: Maths, c: Chassis, point: Vec, fwd: real, str: real, rcw: real, i: nat, j: nat)
    requires m.Valid() && OffWheels(c, point) && c.width > 0.0 && rcw != 0.0 && i < 4 && j < 4
    requires Corner(i).x == -1.0 && Corner(j).x == 1.0 && Corner(i).y == Corner(j).y
    ensures PairScrubAbout(m, c, point, fwd, str, rcw, i, j) == 0.0
            <==> point.x == 0.0 || point.y == WheelPosition(c, i).y
  {
    var p, q := WheelPosition(c, i), WheelPosition(c, j);
    DistancePositive(m, point, p);
    DistancePositive(m, point, q);
    RigidIff(m, point, p, q, fwd, str, rcw);
    var h := c.width / 2.0;
    assert p.x == -h && q.x == h && p.y == q.y;
    var dx, dy := point.x, point.y - p.y;
    EqualHypots(m, dx + h, dx - h, dy, h);
    CrossAcross(dx, dy, h);
    assert Cross(Minus(p, point), Minus(q, point)) == Cross(Vec(-h - dx, -dy), Vec(h - dx, -dy));
  }

  /** Two wheels one behind the other, likewise. */
  lemma AlongIff(m: Maths, c: Chassis, point: Vec, fwd: real, str: real, rcw: real, i: nat, j: nat)
    requires m.Valid() && OffWheels(c, point) && c.length > 0.0 && rcw != 0.0 && i < 4 && j < 4
    requires Corner(i).y == 1.0 && Corner(j).y == -1.0 && Corner(i).x == Corner(j).x
    ensures PairScrubAbout(m, c, point, fwd, str, rcw, i, j) == 0.0
            <==> point.y == 0.0 || point.x == WheelPosition(c, i).x
  {
    var p, q := WheelPosition(c, i), WheelPosition(c, j);
    DistancePositive(m, point, p);
    DistancePositive(m, point, q);
    RigidIff(m, point, p, q, fwd, str, rcw);
    var h := c.length / 2.0;
    assert p.y == h && q.y == -h && p.x == q.x;
    var dx, dy := point.x - p.x, point.y;
    EqualHypots(m, dy + h, dy - h, dx, h);
    HypotSwaps(m, dy + h, dx);
    HypotSwaps(m, dy - h, dx);
    CrossAcross(dy, dx, h);
    assert Cross(Minus(p, point), Minus(q, point)) == Cross(Vec(-dx, h - dy), Vec(-dx, -h - dy));
    CrossAlong(dx, dy, h);
  }

  lemma HypotSwaps(m: Maths, x: real, y: real)
    ensures m.Hypot(x, y) == m.Hypot(y, x)
  {
  }

  lemma CrossAcross(x: real, y: real, h: real)
    requires h > 0.0
    ensures Cross(Vec(-h - x, -y), Vec(h - x, -y)) == 0.0 <==> y == 0.0
  {
    assert (-h - x) * -y - -y * (h - x) == (2.0 * h) * y;
    ProductZero(2.0 * h, y);
  }

  lemma CrossAlong(x: real, y: real, h: real)
    requires h > 0.0
    ensures Cross(Vec(-x, h - y), Vec(-x, -h - y)) == 0.0 <==> x == 0.0
  {
    assert -x * (-h - y) - (h - y) * -x == (2.0 * h) * x;
    ProductZero(2.0 * h, x);
  }

  /** Distances to two points `h` to either side of the origin are equal only midway. */
  lemma EqualHypots(m: Maths, a: real, b: real, y: real, h: real)
    requires m.Valid() && h > 0.0 && a - b == 2.0 * h
    ensures m.Hypot(a, y) == m.Hypot(b, y) <==> a + b == 0.0
  {
    m.HypotMeaning(a, y);
    m.HypotMeaning(b, y);
    assert a * a - b * b == (a + b) * (a - b);
    ProductZero(a + b, 2.0 * h);
    if a + b == 0.0 {
      HypotOf(m, a, y, b, y);
    }
  }

  /** A chassis that scrubs: two units square, turning about a point one unit to the right of its
      center, whatever the command. */
  lemma ShooterScrubs(m: Maths, fwd: real, str: real, rcw: real)
    requires m.Valid() && rcw != 0.0
    ensures var c := Chassis(2.0, 2.0, Vec(1.0, 0.0));
            && ChassisValid(c)
            && PairScrubAbout(m, c, PointOf(c, Shooter), fwd, str, rcw, 0, 1) != 0.0
  {
    AcrossIff(m, Chassis(2.0, 2.0, Vec(1.0, 0.0)), Vec(1.0, 0.0), fwd, str, rcw, 0, 1);
  }

  lemma ProductZero(a: real, b: real)
    ensures a * b == 0.0 <==> a == 0.0 || b == 0.0
  {
  }

  lemma ReciprocalsDiffer(a: real, b: real)
    requires a > 0.0 && b > 0.0
    ensures 1.0 / a == 1.0 / b <==> a == b
  {
    assert a * (1.0 / a) == 1.0 && b * (1.0 / b) == 1.0;
  }

  /** All wheels are equally far from the center of the chassis. */
  lemma CenterEquidistant(m: Maths, c: Chassis, i: nat)
    requires i < 4
    ensures Distance(m, PointOf(c, Center), WheelPosition(c, i)) == m.Hypot(c.width / 2.0, c.length / 2.0)
  {
    var x, y := 0.0 - WheelPosition(c, i).x, 0.0 - WheelPosition(c, i).y;
    assert x == c.width / 2.0 || x == -c.width / 2.0;
    assert y == c.length / 2.0 || y == -c.length / 2.0;
    HypotOf(m, x, y, c.width / 2.0, c.length / 2.0);
  }

  lemma HypotOf(m: Maths, x: real, y: real, a: real, b: real)
    requires x == a || x == -a
    requires y == b || y == -b
    ensures m.Hypot(x, y) == m.Hypot(a, b)
  {
    assert x * x == a * a && y * y == b * b;
  }

  /** About the center, and after desaturation by `s`, no pair of wheels scrubs. */
  lemma CenterIsRigid(m: Maths, c: Chassis, vectors: seq<Vec>, fwd: real, str: real, rcw: real, s: real, i: nat, j: nat)
    requires i < 4 && j < 4 && IsRotationVectors(m, c, PointOf(c, Center), vectors)
    ensures Scrub(Scaled(s, Demand(vectors[i], fwd, str, rcw)), Scaled(s, Demand(vectors[j], fwd, str, rcw)),
                  WheelPosition(c, i), WheelPosition(c, j)) == 0.0
  {
    var p, q := WheelPosition(c, i), WheelPosition(c, j);
    CenterEquidistant(m, c, i);
    CenterEquidistant(m, c, j);
    RigidIff(m, PointOf(c, Center), p, q, fwd, str, rcw);
    ScrubScales(s, Demand(vectors[i], fwd, str, rcw), Demand(vectors[j], fwd, str, rcw), Minus(p, q));
  }

  lemma ScrubScales(s: real, a: Vec, b: Vec, p: Vec)
    ensures Dot(Minus(Scaled(s, a), Scaled(s, b)), p) == s * Dot(Minus(a, b), p)
  {
  }

  function Sum4(vs: seq<Vec>): Vec
    requires |vs| == 4
  {
    Vec(vs[0].x + vs[1].x + vs[2].x + vs[3].x, vs[0].y + vs[1].y + vs[2].y + vs[3].y)
  }

  function Mean(vs: seq<Vec>): Vec
    requires |vs| == 4
  {
    Scaled(0.25, Sum4(vs))
  }

  /** About the center the rotations cancel: the mean demand is the commanded translation. */
  lemma CenterMean(m: Maths, c: Chassis, vectors: seq<Vec>, fwd: real, str: real, rcw: real)
    requires IsRotationVectors(m, c, PointOf(c, Center), vectors)
    ensures Mean(Demands(vectors, fwd, str, rcw)) == Vec(str, fwd)
  {
    CenterVectorsCancel(m, c, vectors);
    CancelRotation(vectors[0].x, vectors[1].x, vectors[2].x, vectors[3].x, rcw);
    CancelRotation(vectors[0].y, vectors[1].y, vectors[2].y, vectors[3].y, rcw);
  }

  lemma CenterVectorsCancel(m: Maths, c: Chassis, vectors: seq<Vec>)
    requires IsRotationVectors(m, c, PointOf(c, Center), vectors)
    ensures Sum4(vectors) == Vec(0.0, 0.0)
  {
    CenterEquidistant(m, c, 0);
    var u := 1.0 / m.Hypot(c.width / 2.0, c.length / 2.0);
    forall i: nat | i < 4
      ensures vectors[i] == CenterVector(c, u, i)
    {
      CenterEquidistant(m, c, i);
      CenterVectorIs(m, c, i);
    }
    CornersCancel(c, u);
  }

  function CenterVector(c: Chassis, u: real, i: nat): Vec
    requires i < 4
  {
    Vec((if i < 2 then c.length / 2.0 else -c.length / 2.0) * u,
        (if i == 1 || i == 2 then -c.width / 2.0 else c.width / 2.0) * u)
  }

  lemma CenterVectorIs(m: Maths, c: Chassis, i: nat)
    requires i < 4 && Distance(m, PointOf(c, Center), WheelPosition(c, i)) > 0.0
    ensures RotationVector(m, PointOf(c, Center), WheelPosition(c, i))
         == CenterVector(c, 1.0 / Distance(m, PointOf(c, Center), WheelPosition(c, i)), i)
  {
    var p := WheelPosition(c, i);
    assert p.y == (if i < 2 then c.length / 2.0 else -c.length / 2.0);
    assert -p.x == (if i == 1 || i == 2 then -c.width / 2.0 else c.width / 2.0);
    RotationVectorAs(m, PointOf(c, Center), p);
    assert Minus(p, PointOf(c, Center)) == p;
  }

  lemma CornersCancel(c: Chassis, u: real)
    ensures CenterVector(c, u, 0).x + CenterVector(c, u, 1).x + CenterVector(c, u, 2).x + CenterVector(c, u, 3).x == 0.0
    ensures CenterVector(c, u, 0).y + CenterVector(c, u, 1).y + CenterVector(c, u, 2).y + CenterVector(c, u, 3).y == 0.0
  {
    CancelRotation(c.length / 2.0, c.length / 2.0, -c.length / 2.0, -c.length / 2.0, u);
    CancelRotation(c.width / 2.0, -c.width / 2.0, -c.width / 2.0, c.width / 2.0, u);
  }

  lemma CancelRotation(a: real, b: real, c: real, d: real, r: real)
    requires a + b + c + d == 0.0
    ensures a * r + b * r + c * r + d * r == 0.0
  {
    assert a * r + b * r + c * r + d * r == (a + b + c + d) * r;
  }
}
