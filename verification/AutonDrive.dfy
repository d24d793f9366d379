/** The autonomous drive command: a trapezoidal speed profile over a chain of segments. */
module AutonDrive {
  import opened Maths
  import opened Steering
  import opened Kinematics
  import opened SwerveMath
  import Swerve = SwerveDrive

  const SETPOINT_MAX := 400.0
  const DEAD_ZONE_PCT := 0.1
  const STABLE_COUNT_REQ := 3
  const ZERO_COUNT_REQ := 4

  datatype Segment = Segment(angle: real, distance: real)

  datatype DriveConfig = DriveConfig(
    minSpeed: real, maxSpeed: real, acceleration: real, deacceleration: real, closeEnough: real, segments: seq<Segment>)

  datatype Profile = Profile(
    distance: real, minSpeed: real, maxSpeed: real, closeEnough: real, deadZone: real,
    accelDist: real, deaccelDist: real, accelDonePos: real)

  // ------------------------------------------------------------------ total distance

  function Prefix(segments: seq<Segment>, n: nat): real
    requires n <= |segments|
  {
    if n == 0 then 0.0 else Prefix(segments, n - 1) + segments[n - 1].distance
  }

  /** `std::accumulate` seeded with an integer: each partial sum is truncated. */
  function Accumulate(segments: seq<Segment>): int {
    if segments == [] then 0
    else Trunc(Accumulate(segments[..|segments| - 1]) as real + segments[|segments| - 1].distance)
  }

  ghost predicate NonNegative(segments: seq<Segment>) {
    forall s | s in segments :: s.distance >= 0.0
  }

  lemma {:induction false} PrefixOfPrefix(segments: seq<Segment>, n: nat, k: nat)
    requires k <= n <= |segments|
    ensures Prefix(segments[..n], k) == Prefix(segments, k)
  {
    if k > 0 {
      PrefixOfPrefix(segments, n, k - 1);
    }
  }

  function WholePart(segments: seq<Segment>): int {
    if segments == [] then 0 else WholePart(segments[..|segments| - 1]) + segments[|segments| - 1].distance.Floor
  }

  /** Truncating each partial sum keeps exactly the whole units of each segment. */
  lemma {:induction false} AccumulateIs(segments: seq<Segment>)
    requires NonNegative(segments)
    ensures Accumulate(segments) == WholePart(segments) >= 0
  {
    if segments != [] {
      AccumulateIs(segments[..|segments| - 1]);
      assert segments[|segments| - 1] in segments;
    }
  }

  /** One more segment adds its whole units, and no segments add up to nothing. */
  lemma AccumulateStep(segments: seq<Segment>, s: Segment)
    requires NonNegative(segments) && s.distance >= 0.0
    ensures Accumulate([]) == 0
    ensures 0.0 <= s.distance - (Accumulate(segments + [s]) - Accumulate(segments)) as real < 1.0
  {
    var all := segments + [s];
    assert all[..|all| - 1] == segments;
    AccumulateIs(segments);
    TruncMeaning(Accumulate(segments) as real + s.distance);
  }

  /** Less than one unit is lost for each segment, and the total never exceeds the real path. */
  lemma {:induction false} AccumulateLoses(segments: seq<Segment>)
    requires NonNegative(segments)
    ensures 0.0 <= Accumulate(segments) as real <= Prefix(segments, |segments|)
    ensures segments != [] ==> Prefix(segments, |segments|) - Accumulate(segments) as real < |segments| as real
  {
    if segments != [] {
      var n := |segments| - 1;
      AccumulateLoses(segments[..n]);
      PrefixOfPrefix(segments, n, n);
      assert segments[n] in segments;
    }
  }

  // ------------------------------------------------------------------ the profile

  function MakeProfile(c: DriveConfig): Profile
    requires c.acceleration != 0.0 && c.deacceleration != 0.0
  {
    var distance := Accumulate(c.segments) as real;
    var accelDist := (c.maxSpeed * c.maxSpeed) / (2.0 * c.acceleration);
    Profile(distance, c.minSpeed / SETPOINT_MAX, c.maxSpeed / SETPOINT_MAX, c.closeEnough,
            (c.minSpeed / SETPOINT_MAX) * DEAD_ZONE_PCT, accelDist,
            (c.maxSpeed * c.maxSpeed) / (2.0 * c.deacceleration), distance - accelDist)
  }

  ghost predicate Sane(p: Profile) {
    && 0.0 < p.minSpeed <= p.maxSpeed
    && p.deadZone == p.minSpeed * DEAD_ZONE_PCT
    && p.accelDist > 0.0 && p.deaccelDist > 0.0
    && p.accelDonePos == p.distance - p.accelDist
  }

  lemma MakeProfileSane(c: DriveConfig)
    requires 0.0 < c.minSpeed <= c.maxSpeed && c.acceleration > 0.0 && c.deacceleration > 0.0
    ensures Sane(MakeProfile(c))
  {
    var square := Square(c.maxSpeed);
    QuotientPositive(square, 2.0 * c.acceleration);
    QuotientPositive(square, 2.0 * c.deacceleration);
  }

  /** Speeds are fractions of 400, the dead zone is a tenth of the minimum speed, and the two ramps
      are the distances in which each acceleration makes the difference between rest and full speed. */
  lemma MakeProfileMeaning(c: DriveConfig)
    requires c.acceleration != 0.0 && c.deacceleration != 0.0
    ensures var p := MakeProfile(c);
            && 400.0 * p.minSpeed == c.minSpeed && 400.0 * p.maxSpeed == c.maxSpeed
            && 10.0 * p.deadZone == p.minSpeed && p.closeEnough == c.closeEnough
            && 2.0 * c.acceleration * p.accelDist == Squared(c.maxSpeed)
            && 2.0 * c.deacceleration * p.deaccelDist == Squared(c.maxSpeed)
            && p.accelDonePos + p.accelDist == p.distance == Accumulate(c.segments) as real
  {
    QuotientBack(Squared(c.maxSpeed), 2.0 * c.acceleration);
    QuotientBack(Squared(c.maxSpeed), 2.0 * c.deacceleration);
  }

  lemma QuotientBack(a: real, b: real)
    requires b != 0.0
    ensures b * (a / b) == a
  {
  }

  function Squared(x: real): real {
    x * x
  }

  lemma QuotientPositive(a: real, b: real)
    requires a > 0.0 && b > 0.0
    ensures a / b > 0.0
  {
  }

  /** The unsigned speed for a remaining distance of `absError`. */
  function RawSpeed(p: Profile, absError: real): real
    requires p.accelDist != 0.0
  {
    if absError > p.accelDonePos then AccelSpeed(p, absError)
    else if absError < p.deaccelDist then
      if absError < p.closeEnough then 0.0 else DeaccelSpeed(p, absError)
    else
      p.maxSpeed
  }

  function Slope(rise: real, run: real, x: real): real
    requires run != 0.0
  {
    (rise / run) * x
  }

  function Portion(x: real, run: real, rise: real): real
    requires run != 0.0
  {
    (x / run) * rise
  }

  function AccelSpeed(p: Profile, absError: real): real
    requires p.accelDist != 0.0
  {
    p.minSpeed + Slope(p.maxSpeed - p.minSpeed, p.accelDist, p.distance - absError)
  }

  function DeaccelSpeed(p: Profile, absError: real): real
    requires p.deaccelDist != p.closeEnough
  {
    p.minSpeed + Portion(absError - p.closeEnough, p.deaccelDist - p.closeEnough, p.maxSpeed - p.minSpeed)
  }

  function ProfileSpeed(p: Profile, error: real): real
    requires p.accelDist != 0.0
  {
    RawSpeed(p, Abs(error)) * (if error < 0.0 then -1.0 else 1.0)
  }

  /** The profile deliberately commands nothing: past the acceleration ramp and close enough. */
  predicate Holding(p: Profile, absError: real) {
    absError <= p.accelDonePos && absError < p.deaccelDist && absError < p.closeEnough
  }

  lemma AccelRange(p: Profile, absError: real)
    requires Sane(p) && absError > p.accelDonePos
    ensures absError <= p.distance ==> p.minSpeed <= AccelSpeed(p, absError) <= p.maxSpeed
    ensures absError > p.distance && p.minSpeed < p.maxSpeed ==> AccelSpeed(p, absError) < p.minSpeed
    ensures p.minSpeed == p.maxSpeed ==> AccelSpeed(p, absError) == p.minSpeed
  {
    SlopeRange(p.maxSpeed - p.minSpeed, p.accelDist, p.distance - absError);
  }

  lemma DeaccelRange(p: Profile, absError: real)
    requires Sane(p) && p.closeEnough <= absError < p.deaccelDist
    ensures p.minSpeed <= DeaccelSpeed(p, absError) <= p.maxSpeed
  {
    PortionRange(absError - p.closeEnough, p.deaccelDist - p.closeEnough, p.maxSpeed - p.minSpeed);
  }

  lemma SlopeRange(rise: real, run: real, x: real)
    requires rise >= 0.0 && run > 0.0
    ensures 0.0 <= x <= run ==> 0.0 <= Slope(rise, run, x) <= rise
    ensures x < 0.0 && rise > 0.0 ==> Slope(rise, run, x) < 0.0
    ensures rise == 0.0 ==> Slope(rise, run, x) == 0.0
  {
    var slope := rise / run;
    assert slope >= 0.0 && slope * run == rise;
    if 0.0 <= x <= run {
      assert slope * x >= 0.0;
      assert slope * (run - x) >= 0.0;
      assert slope * x + slope * (run - x) == slope * run;
    }
    if x < 0.0 && rise > 0.0 {
      QuotientPositive(rise, run);
      var product := SameSign(slope, -x);
    }
  }

  lemma PortionRange(x: real, run: real, rise: real)
    requires 0.0 <= x <= run && run > 0.0 && rise >= 0.0
    ensures 0.0 <= Portion(x, run, rise) <= rise
  {
    var f := x / run;
    assert 0.0 <= f <= 1.0;
    assert f * rise >= 0.0;
    assert (1.0 - f) * rise >= 0.0;
    assert f * rise + (1.0 - f) * rise == rise;
  }

  /** The ramps are straight lines between the speed limits: the acceleration ramp leads from the
      minimum at the start to the maximum at its end, the deceleration ramp from the maximum at its
      start to the minimum at the target band, and halfway along each the speed is the mean. */
  lemma RampsAreStraight(p: Profile, a: real, b: real)
    requires Sane(p) && p.closeEnough < p.deaccelDist
    ensures AccelSpeed(p, p.distance) == p.minSpeed && AccelSpeed(p, p.accelDonePos) == p.maxSpeed
    ensures DeaccelSpeed(p, p.closeEnough) == p.minSpeed && DeaccelSpeed(p, p.deaccelDist) == p.maxSpeed
    ensures AccelSpeed(p, (a + b) / 2.0) == (AccelSpeed(p, a) + AccelSpeed(p, b)) / 2.0
    ensures DeaccelSpeed(p, (a + b) / 2.0) == (DeaccelSpeed(p, a) + DeaccelSpeed(p, b)) / 2.0
  {
    StraightLine(p.maxSpeed - p.minSpeed, p.accelDist, p.distance - a, p.distance - b);
    assert p.distance - (a + b) / 2.0 == ((p.distance - a) + (p.distance - b)) / 2.0;
    StraightLine(p.maxSpeed - p.minSpeed, p.deaccelDist - p.closeEnough, a - p.closeEnough, b - p.closeEnough);
    assert (a + b) / 2.0 - p.closeEnough == ((a - p.closeEnough) + (b - p.closeEnough)) / 2.0;
  }

  lemma StraightLine(rise: real, run: real, x: real, y: real)
    requires run > 0.0
    ensures Slope(rise, run, 0.0) == 0.0 && Slope(rise, run, run) == rise
    ensures Slope(rise, run, (x + y) / 2.0) == (Slope(rise, run, x) + Slope(rise, run, y)) / 2.0
    ensures Portion(0.0, run, rise) == 0.0 && Portion(run, run, rise) == rise
    ensures Portion((x + y) / 2.0, run, rise) == (Portion(x, run, rise) + Portion(y, run, rise)) / 2.0
  {
    var k := rise / run;
    assert k * ((x + y) / 2.0) == (k * x + k * y) / 2.0;
    assert ((x + y) / 2.0) / run == (x / run + y / run) / 2.0;
    Halves(x / run, y / run, rise);
  }

  lemma Halves(a: real, b: real, c: real)
    ensures ((a + b) / 2.0) * c == (a * c + b * c) / 2.0
  {
  }

  /** Between the ramps the robot cruises at the maximum speed. */
  lemma CruiseIsFull(p: Profile, absError: real)
    requires Sane(p) && p.deaccelDist <= absError <= p.accelDonePos
    ensures RawSpeed(p, absError) == p.maxSpeed
  {
  }

  /** While accelerating the speed never falls as the robot gets nearer, is a straight line over the
      distance covered, and is the minimum at the start. */
  lemma AccelSide(p: Profile, a: real, b: real)
    requires Sane(p) && p.accelDonePos < a <= b
    ensures RawSpeed(p, b) <= RawSpeed(p, a)
    ensures RawSpeed(p, (a + b) / 2.0) == (RawSpeed(p, a) + RawSpeed(p, b)) / 2.0
    ensures RawSpeed(p, p.distance) == p.minSpeed
    ensures OnLine(RawSpeed(p, a) - p.minSpeed, p.accelDist, p.maxSpeed - p.minSpeed, p.distance - a)
  {
    var rise := p.maxSpeed - p.minSpeed;
    StraightLine(rise, p.accelDist, p.distance - a, p.distance - b);
    assert p.distance - (a + b) / 2.0 == ((p.distance - a) + (p.distance - b)) / 2.0;
    SlopeSteps(rise, p.accelDist, p.distance - b, p.distance - a);
    SlopeOnLine(rise, p.accelDist, p.distance - a);
  }

  /** While decelerating the speed never rises as the robot gets nearer, is a straight line over the
      distance left before the target band, and is the minimum at the edge of the band. */
  lemma DeaccelSide(p: Profile, a: real, b: real)
    requires Sane(p) && p.closeEnough <= a <= b < p.deaccelDist && b <= p.accelDonePos
    ensures RawSpeed(p, a) <= RawSpeed(p, b)
    ensures RawSpeed(p, (a + b) / 2.0) == (RawSpeed(p, a) + RawSpeed(p, b)) / 2.0
    ensures RawSpeed(p, p.closeEnough) == p.minSpeed
    ensures OnLine(RawSpeed(p, a) - p.minSpeed, p.deaccelDist - p.closeEnough, p.maxSpeed - p.minSpeed, a - p.closeEnough)
  {
    var rise, run := p.maxSpeed - p.minSpeed, p.deaccelDist - p.closeEnough;
    StraightLine(rise, run, a - p.closeEnough, b - p.closeEnough);
    assert (a + b) / 2.0 - p.closeEnough == ((a - p.closeEnough) + (b - p.closeEnough)) / 2.0;
    PortionIsSlope(a - p.closeEnough, run, rise);
    PortionIsSlope(b - p.closeEnough, run, rise);
    SlopeSteps(rise, run, a - p.closeEnough, b - p.closeEnough);
    SlopeOnLine(rise, run, a - p.closeEnough);
  }

  /** `y` is at `x` on the line that reaches `rise` at `run`. */
  predicate OnLine(y: real, run: real, rise: real, x: real) {
    y * run == rise * x
  }

  lemma SlopeOnLine(rise: real, run: real, x: real)
    requires run != 0.0
    ensures OnLine(Slope(rise, run, x), run, rise, x)
  {
    var k := rise / run;
    assert k * run == rise;
    assert (k * x) * run == (k * run) * x;
  }

  lemma SlopeSteps(rise: real, run: real, x: real, y: real)
    requires rise >= 0.0 && run > 0.0 && x <= y
    ensures Slope(rise, run, x) <= Slope(rise, run, y)
  {
    var k := rise / run;
    assert k >= 0.0;
    var step := Product(k, y - x);
    assert k * y - k * x == step;
  }

  lemma PortionIsSlope(x: real, run: real, rise: real)
    requires run > 0.0
    ensures Portion(x, run, rise) == Slope(rise, run, x)
  {
    var i := 1.0 / run;
    assert x / run == x * i && rise / run == rise * i;
    assert (x * i) * rise == (rise * i) * x;
  }

  /** Past the target the robot is driven back with the speed it would be driven forward with. */
  lemma ProfileSpeedOdd(p: Profile, error: real)
    requires Sane(p) && error > 0.0
    ensures ProfileSpeed(p, error) == RawSpeed(p, error)
    ensures ProfileSpeed(p, -error) == -ProfileSpeed(p, error)
  {
  }

  /** The commanded speed is zero by intent or between the two limits exactly when the robot is
      no further from the target than it started (or the profile is flat). Beyond that the
      acceleration ramp is extrapolated below the minimum. */
  lemma ProfileBoundedIff(p: Profile, absError: real)
    requires Sane(p) && absError >= 0.0
    ensures (Holding(p, absError) || p.minSpeed <= RawSpeed(p, absError) <= p.maxSpeed)
            <==> (absError <= p.distance || p.minSpeed == p.maxSpeed)
    ensures Holding(p, absError) ==> RawSpeed(p, absError) == 0.0
  {
    if absError > p.accelDonePos {
      AccelRange(p, absError);
    } else if p.closeEnough <= absError < p.deaccelDist {
      DeaccelRange(p, absError);
    }
  }

  /** The whole target band is quiet exactly when it lies clear of the acceleration ramp and within
      the deceleration ramp; on a shorter drive the motors still run inside the band. */
  lemma BandIsQuietIff(p: Profile)
    requires Sane(p) && p.closeEnough > 0.0 && p.distance >= 0.0
    ensures (forall a | 0.0 <= a < p.closeEnough :: RawSpeed(p, a) == 0.0)
            <==> (p.closeEnough <= p.accelDonePos && p.closeEnough <= p.deaccelDist)
  {
    if p.closeEnough > p.accelDonePos {
      var nearer := if p.closeEnough < p.distance then p.closeEnough else p.distance;
      var a := if p.accelDonePos < 0.0 then 0.0 else (p.accelDonePos + nearer) / 2.0;
      assert 0.0 <= a < p.closeEnough && a > p.accelDonePos && a <= p.distance;
      AccelRange(p, a);
      assert RawSpeed(p, a) > 0.0;
    } else if p.closeEnough > p.deaccelDist {
      assert RawSpeed(p, p.deaccelDist) == p.maxSpeed;
    }
  }

  /** A drive that breaks both promises: with a path of 1050 and an acceleration ramp of 1000, one
      unit beyond the starting distance commands less than the minimum speed, and 75 from the target,
      inside the target band of 100, still commands a speed. */
  lemma ShortDriveBreaksBoth()
    ensures var p := MakeProfile(DriveConfig(40.0, 400.0, 80.0, 80.0, 100.0, [Segment(0.0, 1050.0)]));
            && Sane(p) && p.accelDist == 1000.0
            && RawSpeed(p, 1051.0) < p.minSpeed
            && RawSpeed(p, 75.0) > 0.0
  {
    var c := DriveConfig(40.0, 400.0, 80.0, 80.0, 100.0, [Segment(0.0, 1050.0)]);
    var p := MakeProfile(c);
    MakeProfileSane(c);
    assert c.segments[..0] == [] && Accumulate(c.segments) == 1050;
    assert p.distance == 1050.0 && p.accelDist == 1000.0 && p.accelDonePos == 50.0;
    AccelRange(p, 1051.0);
    AccelRange(p, 75.0);
  }

  /** The drive's dead zone never swallows a command of the profile: with a unit direction, in
      robot or in field axes, the motors stop exactly when the profile speed is zero. */
  lemma DeadZoneStopsIff(m: Maths, p: Profile, error: real, heading: Vec, gyro: real, rotate: bool)
    requires m.Valid() && Sane(p) && Abs(error) <= p.distance && Dot(heading, heading) == 1.0
    ensures var command := Scaled(ProfileSpeed(p, error), heading);
            Swerve.IsStopping(if rotate then Swerve.ToRobot(m, gyro, command) else command, 0.0, p.deadZone)
            <==> ProfileSpeed(p, error) == 0.0
  {
    var speed := ProfileSpeed(p, error);
    var command := Scaled(speed, heading);
    var robot := if rotate then Swerve.ToRobot(m, gyro, command) else command;
    ProfileBoundedIff(p, Abs(error));
    Swerve.FieldRoundTrip(m, gyro, command);
    UnitScaled(speed, heading);
    StopsIff(p, robot, speed);
  }

  lemma UnitScaled(s: real, v: Vec)
    requires Dot(v, v) == 1.0
    ensures Dot(Scaled(s, v), Scaled(s, v)) == Squared(s)
  {
    assert (s * v.x) * (s * v.x) + (s * v.y) * (s * v.y) == (s * s) * (v.x * v.x + v.y * v.y);
  }

  lemma StopsIff(p: Profile, robot: Vec, speed: real)
    requires Sane(p) && Dot(robot, robot) == Squared(speed)
    requires speed == 0.0 || Abs(speed) >= p.minSpeed
    ensures Swerve.IsStopping(robot, 0.0, p.deadZone) <==> speed == 0.0
  {
    DeadZoneGap(robot.x, robot.y, speed, p.minSpeed);
  }

  lemma DeadZoneGap(x: real, y: real, speed: real, least: real)
    requires x * x + y * y == speed * speed
    requires least > 0.0 && (speed == 0.0 || Abs(speed) >= least)
    ensures (Abs(x) <= least * 0.1 && Abs(y) <= least * 0.1) <==> speed == 0.0
  {
    var xx := Square(x);
    var yy := Square(y);
    var ss := Square(speed);
    var ll := Square(least);
    assert (least * 0.1) * (least * 0.1) == 0.01 * ll;
    if Abs(x) <= least * 0.1 {
      SquareBelow(x, least * 0.1);
    }
    if Abs(y) <= least * 0.1 {
      SquareBelow(y, least * 0.1);
    }
    if speed != 0.0 {
      SquareBelow(least, Abs(speed));
      assert Abs(speed) * Abs(speed) == ss;
    }
  }

  lemma SquareBelow(x: real, bound: real)
    requires Abs(x) <= bound
    ensures x * x <= bound * bound
  {
    assert (bound - x) * (bound + x) >= 0.0;
  }

  // ------------------------------------------------------------------ ticks on values

  /** The state that a tick reads and writes; `heading` holds the strafe and forward factors. */
  datatype Progress = Progress(
    segment: nat, segmentEnd: real, heading: Vec, error: real, stableCount: nat, zeroCount: nat)

  function Initialized(p: Profile, heading: Vec): Progress {
    Progress(0, 0.0, heading, p.distance, 0, 0)
  }

  function Direction(m: Maths, s: Segment): Vec {
    Vec(m.sin(s.angle), m.cos(s.angle))
  }

  function SegmentStarted(m: Maths, segments: seq<Segment>, s: Progress): Progress {
    if s.segment >= |segments| then s
    else s.(heading := Direction(m, segments[s.segment]),
            segmentEnd := s.segmentEnd + segments[s.segment].distance,
            segment := s.segment + 1)
  }

  function Executed(m: Maths, p: Profile, segments: seq<Segment>, s: Progress, position: int): Progress {
    if s.zeroCount < ZERO_COUNT_REQ then s.(zeroCount := s.zeroCount + 1)
    else
      var travelled := Abs(position as real);
      var s' := s.(error := p.distance - travelled);
      if travelled >= s'.segmentEnd then SegmentStarted(m, segments, s') else s'
  }

  function Settled(p: Profile, s: Progress): Progress {
    s.(stableCount := if Abs(s.error) < p.closeEnough then s.stableCount + 1 else 0)
  }

  /** A run of the command: the robot's readings, one for each tick, and no timeout. */
  datatype Journey = Journey(m: Maths, p: Profile, segments: seq<Segment>, heading: Vec, positions: seq<int>) {
    /** The state after `n` ticks, each of which is Execute followed by IsFinished. */
    function State(n: nat): Progress
      requires n <= |positions|
    {
      if n == 0 then Initialized(p, heading)
      else Settled(p, Executed(m, p, segments, State(n - 1), positions[n - 1]))
    }

    /** The command is finished in a tick that brings the settle count to its requirement. */
    predicate FinishesAt(t: nat)
      requires t < |positions|
    {
      State(t + 1).stableCount == STABLE_COUNT_REQ
    }

    function Travelled(t: nat): real
      requires t < |positions|
    {
      Abs(positions[t] as real)
    }

    predicate InBand(t: nat)
      requires t < |positions|
    {
      Abs(p.distance - Travelled(t)) < p.closeEnough
    }

    // ---------------------------------------------------------------- segment tracking

    /** Over every run: the end distance is the prefix sum of the started segments, the iterator
        never passes the end, moves by at most one and never back, and after the start-up delay
        the drive direction is that of the segment started last. */
    lemma {:induction false} SegmentsOverRun(n: nat)
      requires segments != [] && n <= |positions|
      ensures var s := State(n);
              && s.segment <= |segments|
              && s.segmentEnd == Prefix(segments, s.segment)
              && s.zeroCount == (if n < 4 then n else 4)
              && (n <= ZERO_COUNT_REQ ==> s.segment == 0 && s.error == p.distance)
              && (n > ZERO_COUNT_REQ ==>
                    && 1 <= s.segment
                    && s.heading == Direction(m, segments[s.segment - 1])
                    && s.heading.x == m.sin(segments[s.segment - 1].angle)
                    && s.heading.y == m.cos(segments[s.segment - 1].angle)
                    && s.error == p.distance - Abs(positions[n - 1] as real))
      ensures n > 0 ==> State(n - 1).segment <= State(n).segment <= State(n - 1).segment + 1
    {
      if n > 0 {
        SegmentsOverRun(n - 1);
      }
    }

    /** In every tick after the start-up delay of every run that is no further from the target
        than it started, the swerve dead zone stops the motors exactly when the profile is zero. */
    lemma CommandReachesMotors(n: nat, gyro: real, rotate: bool)
      requires m.Valid() && Sane(p) && segments != [] && ZERO_COUNT_REQ < n <= |positions|
      requires Abs(State(n).error) <= p.distance
      ensures var command := Scaled(ProfileSpeed(p, State(n).error), State(n).heading);
              Swerve.IsStopping(if rotate then Swerve.ToRobot(m, gyro, command) else command, 0.0, p.deadZone)
              <==> ProfileSpeed(p, State(n).error) == 0.0
    {
      SegmentsOverRun(n);
      assert m.UnitAt(segments[State(n).segment - 1].angle);
      DeadZoneStopsIff(m, p, State(n).error, State(n).heading, gyro, rotate);
    }

    /** From the profile to the wheels, after any run of the command and any earlier use of the drive:
        when the profile commands a speed within full speed, every wheel moves with exactly that
        speed along the angle of the segment started last, in field axes. */
    lemma WheelsFollow(n: nat, calls: seq<Call>, vectors: seq<Vec>, gyro: real, i: nat)
      requires m.Valid() && segments != [] && ZERO_COUNT_REQ < n <= |positions| && i < 4 && |vectors| == 4
      requires p.accelDist != 0.0 && Abs(ProfileSpeed(p, State(n).error)) <= 1.0
      requires forall call | call in calls :: call.WellFormed()
      ensures 1 <= State(n).segment <= |segments|
      ensures var speed := ProfileSpeed(p, State(n).error);
              var angle := segments[State(n).segment - 1].angle;
              var robot := Swerve.ToRobot(m, gyro, Scaled(speed, State(n).heading));
              var ds := Demands(vectors, robot.y, robot.x, 0.0);
              var ws := Run(m, calls + [DriveCall(ds)]);
              Swerve.ToField(m, gyro, WheelVelocity(m, Speed(m, ws, ds, i), ws[i].setpoint))
              == Scaled(speed, Vec(m.sin(angle), m.cos(angle)))
    {
      SegmentsOverRun(n);
      var speed := ProfileSpeed(p, State(n).error);
      assert m.UnitAt(segments[State(n).segment - 1].angle);
      NoRotation(m, vectors, gyro, speed, State(n).heading);
      var robot := Swerve.ToRobot(m, gyro, Scaled(speed, State(n).heading));
      var ds := Demands(vectors, robot.y, robot.x, 0.0);
      DriveAfterAnyRun(m, calls, ds);
      Swerve.FieldRoundTrip(m, gyro, Scaled(speed, State(n).heading));
    }

    /** The reading starts inside the first segment, never falls, and no tick advances further
        than any one segment. */
    ghost predicate Smooth()
      requires segments != []
    {
      && (|positions| > ZERO_COUNT_REQ ==> Travelled(ZERO_COUNT_REQ) < segments[0].distance)
      && forall t: nat, s | ZERO_COUNT_REQ < t < |positions| && s in segments ::
           Travelled(t - 1) <= Travelled(t) <= Travelled(t - 1) + s.distance
    }

    /** Then the active segment is always the one that contains the position; only the last one
        may be driven past its end. */
    lemma {:induction false} SegmentTracking(n: nat)
      requires segments != [] && Smooth() && ZERO_COUNT_REQ < n <= |positions|
      ensures 1 <= State(n).segment <= |segments|
      ensures Prefix(segments, State(n).segment - 1) <= Travelled(n - 1)
      ensures State(n).segment < |segments| ==> Travelled(n - 1) < Prefix(segments, State(n).segment)
    {
      SegmentRule(n);
      if n == ZERO_COUNT_REQ + 1 {
        assert Prefix(segments, 1) == segments[0].distance;
      } else {
        SegmentTracking(n - 1);
        var before := State(n - 1).segment;
        assert segments[before - 1] in segments;
        if before < |segments| {
          assert segments[before] in segments;
        }
      }
    }

    /** A tick starts the next segment exactly when the end of the active one is reached. */
    lemma SegmentRule(n: nat)
      requires segments != [] && ZERO_COUNT_REQ < n <= |positions|
      ensures State(n - 1).segment <= |segments|
      ensures State(n - 1).segment == 0 <==> n == ZERO_COUNT_REQ + 1
      ensures State(n).segment == State(n - 1).segment + 1
              <==> State(n - 1).segment < |segments| && Travelled(n - 1) >= Prefix(segments, State(n - 1).segment)
      ensures State(n).segment != State(n - 1).segment + 1 ==> State(n).segment == State(n - 1).segment
    {
      SegmentsOverRun(n - 1);
      SegmentsOverRun(n);
    }

    // ---------------------------------------------------------------- settling

    /** The error after `n` ticks is inside the target band. */
    predicate Near(n: nat)
      requires n <= |positions|
    {
      Abs(State(n).error) < p.closeEnough
    }

    /** In every run the settle count is the length of the run of ticks inside the band that ends
        now: one tick outside starts it again from zero. */
    lemma {:induction false} StableCountIff(n: nat, k: nat)
      requires n <= |positions|
      ensures State(n).stableCount >= k <==> k <= n && forall i: nat | n - k < i <= n :: Near(i)
    {
      if n > 0 {
        assert State(n).stableCount == if Near(n) then State(n - 1).stableCount + 1 else 0;
        if k > 0 {
          StableCountIff(n - 1, k - 1);
        }
      }
    }

    /** Whatever the robot does, the command finishes in a tick exactly when this tick and the two
        before it are inside the band, and the one before those is not. */
    lemma FinishesIff(t: nat)
      requires t < |positions|
      ensures FinishesAt(t) <==> && t >= 2 && Near(t + 1) && Near(t) && Near(t - 1)
                                 && (t == 2 || !Near(t - 2))
    {
      StableCountIff(t + 1, 3);
      StableCountIff(t + 1, 4);
      if t >= 2 && Near(t + 1) && Near(t) && Near(t - 1) {
        forall i: nat | t - 2 < i <= t + 1
          ensures Near(i)
        {
        }
      }
    }

    // ---------------------------------------------------------------- closed-loop termination

    /** How the robot answers the profile: a positive speed advances it by at least `delta` and
        by less than twice the close-enough distance, zero speed leaves it where it is. It starts
        short of the far edge of the target band. */
    ghost predicate Responds(delta: real)
      requires p.accelDist != 0.0
    {
      && (|positions| > ZERO_COUNT_REQ ==> Travelled(ZERO_COUNT_REQ) < p.distance + p.closeEnough)
      && forall t: nat | ZERO_COUNT_REQ < t < |positions| ::
           && (ProfileSpeed(p, p.distance - Travelled(t - 1)) > 0.0 ==>
                 Travelled(t - 1) + delta <= Travelled(t) < Travelled(t - 1) + 2.0 * p.closeEnough)
           && (ProfileSpeed(p, p.distance - Travelled(t - 1)) == 0.0 ==> Travelled(t) == Travelled(t - 1))
    }

    /** The target band lies clear of the acceleration ramp and within the deceleration ramp. */
    ghost predicate Stoppable() {
      Sane(p) && 0.0 < p.closeEnough <= p.accelDonePos && p.closeEnough <= p.deaccelDist
    }

    /** Short of the band the profile drives forward; inside the band it commands nothing. */
    lemma ForwardOrHolding(t: nat)
      requires Stoppable() && t < |positions| && Travelled(t) < p.distance + p.closeEnough
      ensures InBand(t) ==> ProfileSpeed(p, p.distance - Travelled(t)) == 0.0
      ensures !InBand(t) ==> ProfileSpeed(p, p.distance - Travelled(t)) > 0.0
    {
      ProfileBoundedIff(p, Abs(p.distance - Travelled(t)));
    }

    /** The robot never overshoots the band, gains `delta` each tick until it is in the band,
        and then stays there. */
    lemma {:induction false} Approach(delta: real, t: nat)
      requires Stoppable() && delta > 0.0 && Responds(delta) && ZERO_COUNT_REQ <= t < |positions|
      ensures Travelled(t) < p.distance + p.closeEnough
      ensures InBand(t) || Travelled(t) >= Advance(delta, t - ZERO_COUNT_REQ)
      ensures t > ZERO_COUNT_REQ && InBand(t - 1) ==> InBand(t)
    {
      if t > ZERO_COUNT_REQ {
        Approach(delta, t - 1);
        ForwardOrHolding(t - 1);
      }
    }

    /** The first tick in the band comes at most `k` ticks after the start-up delay, when `k`
        minimal advances cover the distance. */
    lemma FirstInBand(delta: real, k: nat) returns (first: nat)
      requires Stoppable() && delta > 0.0 && Responds(delta)
      requires ZERO_COUNT_REQ + k < |positions| && Advance(delta, k) >= p.distance
      ensures ZERO_COUNT_REQ <= first <= ZERO_COUNT_REQ + k && InBand(first)
      ensures forall t: nat | ZERO_COUNT_REQ <= t < first :: !InBand(t)
    {
      Approach(delta, ZERO_COUNT_REQ + k);
      assert InBand(ZERO_COUNT_REQ + k);
      first := ZERO_COUNT_REQ;
      while !InBand(first)
        invariant ZERO_COUNT_REQ <= first <= ZERO_COUNT_REQ + k
        invariant forall t: nat | ZERO_COUNT_REQ <= t < first :: !InBand(t)
        decreases ZERO_COUNT_REQ + k - first
      {
        first := first + 1;
      }
    }

    /** Before the first tick in the band the settle count is zero. */
    lemma NotYetStable(n: nat)
      requires segments != [] && Stoppable() && n <= |positions|
      requires forall t: nat | ZERO_COUNT_REQ <= t < n :: !InBand(t)
      ensures State(n).stableCount == 0
    {
      SegmentsOverRun(n);
      if n > 0 {
        assert n > ZERO_COUNT_REQ ==> !InBand(n - 1);
      }
    }

    /** A tick that reads a position in the band adds one to the settle count. */
    lemma StableTick(t: nat)
      requires segments != [] && ZERO_COUNT_REQ <= t < |positions| && InBand(t)
      ensures State(t + 1).stableCount == State(t).stableCount + 1
    {
      SegmentsOverRun(t + 1);
    }

    /** Closed-loop termination: the command finishes within the start-up delay, plus the ticks
        that minimal advances need for the distance, plus three ticks of settling, and it
        finishes in the target band, never before. */
    lemma Terminates(delta: real, k: nat) returns (t: nat)
      requires segments != [] && Stoppable() && delta > 0.0 && Responds(delta)
      requires (k as real) * delta >= p.distance
      requires |positions| >= 4 + k + 3
      ensures t < 4 + k + 3
      ensures FinishesAt(t) && InBand(t)
      ensures forall i: nat | i < t :: !FinishesAt(i)
    {
      AdvanceIs(delta, k);
      var first := FirstInBand(delta, k);
      Approach(delta, first + 1);
      Approach(delta, first + 2);
      NotYetStable(first);
      StableTick(first);
      StableTick(first + 1);
      StableTick(first + 2);
      t := first + 2;
      forall i: nat | i < t
        ensures !FinishesAt(i)
      {
        if i < first {
          NotYetStable(i + 1);
        }
      }
    }
  }

  /** Without rotation every wheel is asked for the same velocity, and one within full speed is not
      slowed. */
  lemma NoRotation(m: Maths, vectors: seq<Vec>, gyro: real, speed: real, heading: Vec)
    requires m.Valid() && |vectors| == 4 && Dot(heading, heading) == 1.0 && Abs(speed) <= 1.0
    ensures var robot := Swerve.ToRobot(m, gyro, Scaled(speed, heading));
            var ds := Demands(vectors, robot.y, robot.x, 0.0);
            && (forall i: nat | i < 4 :: ds[i] == robot)
            && Desaturation(Magnitudes(m, ds)) == 1.0
  {
    var robot := Swerve.ToRobot(m, gyro, Scaled(speed, heading));
    var ds := Demands(vectors, robot.y, robot.x, 0.0);
    Swerve.FieldRoundTrip(m, gyro, Scaled(speed, heading));
    UnitScaled(speed, heading);
    m.HypotMeaning(robot.x, robot.y);
    WithinOne(Magnitude(m, robot), speed);
    DesaturationRange(Magnitudes(m, ds));
  }

  lemma WithinOne(size: real, speed: real)
    requires size >= 0.0 && Abs(speed) <= 1.0 && size * size == Squared(speed)
    ensures size <= 1.0
  {
    SquareBelow(speed, 1.0);
    if size > 1.0 {
      var more := SameSign(size - 1.0, size + 1.0);
    }
  }

  function Advance(delta: real, ticks: nat): real {
    if ticks == 0 then 0.0 else Advance(delta, ticks - 1) + delta
  }

  lemma {:induction false} AdvanceIs(delta: real, ticks: nat)
    ensures Advance(delta, ticks) == (ticks as real) * delta
  {
    if ticks > 0 {
      AdvanceIs(delta, ticks - 1);
      assert (ticks as real) * delta == ((ticks - 1) as real) * delta + delta;
    }
  }

  // ------------------------------------------------------------------ the command object

  class Drive {
    const segments: seq<Segment>
    const profile: Profile
    var segmentsIt: nat
    var segmentEndDistance: real
    var forwardFactor: real
    var strafeFactor: real
    var error: real
    var absError: real
    var stableCount: nat
    var zeroCount: nat

    ghost predicate Valid()
      reads this
    {
      segments != [] && profile.accelDist != 0.0 && absError == Abs(error)
    }

    ghost function Progressed(): Progress
      reads this
    {
      Progress(segmentsIt, segmentEndDistance, Vec(strafeFactor, forwardFactor), error, stableCount, zeroCount)
    }

    constructor (config: DriveConfig)
      requires config.segments != []
      requires config.acceleration != 0.0 && config.deacceleration != 0.0 && config.maxSpeed != 0.0
      ensures Valid() && segments == config.segments && profile == MakeProfile(config)
    {
      segments := config.segments;
      profile := MakeProfile(config);
      segmentsIt := 0;
      segmentEndDistance := 0.0;
      forwardFactor, strafeFactor := 0.0, 0.0;
      error, absError := 0.0, 0.0;
      stableCount, zeroCount := 0, 0;
      new;
      QuotientNonzero(config.maxSpeed, 2.0 * config.acceleration);
    }

    /** A configuration without segments is refused. */
    static method Create(config: DriveConfig) returns (command: Option<Drive>)
      requires config.acceleration != 0.0 && config.deacceleration != 0.0 && config.maxSpeed != 0.0
      ensures command.None? <==> config.segments == []
      ensures command.Some? ==>
                fresh(command.value) && command.value.Valid()
                && command.value.segments == config.segments && command.value.profile == MakeProfile(config)
    {
      if config.segments == [] {
        return None;
      }
      var drive := new Drive(config);
      return Some(drive);
    }

    method Initialize()
      requires Valid()
      modifies this
      ensures Valid()
      ensures Progressed() == Initialized(profile, Vec(old(strafeFactor), old(forwardFactor)))
    {
      error := profile.distance;
      absError := Abs(profile.distance);
      segmentsIt := 0;
      stableCount := 0;
      zeroCount := 0;
      segmentEndDistance := 0.0;
    }

    method StartNextSegment(m: Maths)
      requires Valid()
      modifies this
      ensures Valid()
      ensures Progressed() == SegmentStarted(m, segments, old(Progressed()))
    {
      if segmentsIt >= |segments| {
        return;
      }
      forwardFactor := m.cos(segments[segmentsIt].angle);
      strafeFactor := m.sin(segments[segmentsIt].angle);
      segmentEndDistance := segmentEndDistance + segments[segmentsIt].distance;
      segmentsIt := segmentsIt + 1;
    }

    /** One tick. After the start-up delay the profile speed is sent to the swerve drive along
        the active segment, with this command's own dead zone and no rotation. */
    method Execute(drive: Swerve.SwerveDrive, gyro: real, position: int)
      requires Valid() && drive.Valid()
      modifies this, drive`azimuthSetpoints, drive`driveSetpoints
      modifies drive.swerveMath.wheelAngles, drive.swerveMath.wheelMags
      modifies drive.swerveMath.wheelAnglesPast, drive.swerveMath.wheelMagNegated
      ensures Valid() && drive.Valid()
      ensures Progressed() == Executed(drive.swerveMath.maths, profile, segments, old(Progressed()), position)
      ensures old(zeroCount) < ZERO_COUNT_REQ ==>
                drive.azimuthSetpoints == old(drive.azimuthSetpoints) && drive.driveSetpoints == old(drive.driveSetpoints)
                && drive.swerveMath.Wheels() == old(drive.swerveMath.Wheels())
      ensures old(zeroCount) >= ZERO_COUNT_REQ ==>
                var command := Scaled(ProfileSpeed(profile, error), Vec(strafeFactor, forwardFactor));
                drive.Driven(old(drive.swerveMath.Wheels()), old(drive.azimuthSetpoints),
                             drive.RobotCommand(gyro, command.y, command.x), 0.0, profile.deadZone)
    {
      if zeroCount < ZERO_COUNT_REQ {
        zeroCount := zeroCount + 1;
        return;
      }
      Measure(drive.swerveMath.maths, position);
      var speed := SpeedFor();
      assert Scaled(speed, Vec(strafeFactor, forwardFactor)) == Vec(strafeFactor * speed, forwardFactor * speed);
      drive.Drive(forwardFactor * speed, strafeFactor * speed, 0.0, profile.deadZone, gyro);
    }

    method Measure(m: Maths, position: int)
      requires Valid() && zeroCount >= ZERO_COUNT_REQ
      modifies this
      ensures Valid()
      ensures Progressed() == Executed(m, profile, segments, old(Progressed()), position)
    {
      error := profile.distance - Abs(position as real);
      absError := Abs(error);
      var distanceTravelled := profile.distance - error;
      if distanceTravelled >= segmentEndDistance {
        StartNextSegment(m);
      }
    }

    method SpeedFor() returns (speed: real)
      requires Valid()
      ensures speed == ProfileSpeed(profile, error)
    {
      speed := 0.0;
      if absError > profile.accelDonePos {
        speed := profile.minSpeed + ((profile.maxSpeed - profile.minSpeed) / profile.accelDist) * (profile.distance - absError);
      } else if absError < profile.deaccelDist {
        if absError < profile.closeEnough {
          speed := 0.0;
        } else {
          speed := profile.minSpeed + ((absError - profile.closeEnough) / (profile.deaccelDist - profile.closeEnough))
                                      * (profile.maxSpeed - profile.minSpeed);
        }
      } else {
        speed := profile.maxSpeed;
      }
      speed := speed * (if error < 0.0 then -1.0 else 1.0);
    }

    method IsFinished(timedOut: bool) returns (finished: bool)
      requires Valid()
      modifies this`stableCount
      ensures Valid()
      ensures timedOut ==> finished && stableCount == old(stableCount)
      ensures !timedOut ==> Progressed() == Settled(profile, old(Progressed())) && finished == (stableCount == 3)
    {
      if timedOut {
        return true;
      }
      if absError < profile.closeEnough {
        stableCount := stableCount + 1;
      } else {
        stableCount := 0;
      }
      if stableCount == STABLE_COUNT_REQ {
        return true;
      }
      return false;
    }
  }

  datatype Option<T> = None | Some(value: T)

  lemma QuotientNonzero(speed: real, b: real)
    requires speed != 0.0 && b != 0.0
    ensures (speed * speed) / b != 0.0
  {
    var square := Square(speed);
    assert ((speed * speed) / b) * b == square;
  }
}
