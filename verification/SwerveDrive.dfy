/** The drive subsystem: field orientation, dead zone, tick rounding, brake position. */
module SwerveDrive {
  import opened Maths
  import opened Steering
  import opened Kinematics
  import opened SwerveMath

  /** A command expressed in robot axes: x is strafe, y is forward. */
  function ToRobot(m: Maths, gyro: real, field: Vec): Vec {
    Vec(field.x * m.cos(gyro) - field.y * m.sin(gyro), field.y * m.cos(gyro) + field.x * m.sin(gyro))
  }

  function ToField(m: Maths, gyro: real, robot: Vec): Vec {
    Vec(robot.x * m.cos(gyro) + robot.y * m.sin(gyro), robot.y * m.cos(gyro) - robot.x * m.sin(gyro))
  }

  /** Turning a command by the gyro angle and back gives the command again. */
  lemma FieldRoundTrip(m: Maths, gyro: real, v: Vec)
    requires m.Valid()
    ensures ToField(m, gyro, ToRobot(m, gyro, v)) == v
    ensures Dot(ToRobot(m, gyro, v), ToRobot(m, gyro, v)) == Dot(v, v)
  {
    assert m.UnitAt(gyro);
    RotationAlgebra(m.cos(gyro), m.sin(gyro), v.x, v.y);
  }

  lemma RotationAlgebra(c: real, s: real, x: real, y: real)
    requires c * c + s * s == 1.0
    ensures (x * c - y * s) * c + (y * c + x * s) * s == x
    ensures (y * c + x * s) * c - (x * c - y * s) * s == y
    ensures (x * c - y * s) * (x * c - y * s) + (y * c + x * s) * (y * c + x * s) == x * x + y * y
  {
    assert (x * c - y * s) * c + (y * c + x * s) * s == x * (c * c + s * s);
    assert (y * c + x * s) * c - (x * c - y * s) * s == y * (c * c + s * s);
    assert (x * c - y * s) * (x * c - y * s) + (y * c + x * s) * (y * c + x * s) == (x * x + y * y) * (c * c + s * s);
  }

  /** The robot sees a field command turned from its own heading: by the gyro angle, which counts
      clockwise, the other way round. */
  lemma FieldTurn(m: Maths, gyro: real, v: Vec)
    ensures Dot(v, ToRobot(m, gyro, v)) == m.cos(gyro) * Dot(v, v)
    ensures Cross(v, ToRobot(m, gyro, v)) == m.sin(gyro) * Dot(v, v)
  {
    TurnAlgebra(m.cos(gyro), m.sin(gyro), v.x, v.y);
  }

  lemma TurnAlgebra(c: real, s: real, x: real, y: real)
    ensures x * (x * c - y * s) + y * (y * c + x * s) == c * (x * x + y * y)
    ensures x * (y * c + x * s) - y * (x * c - y * s) == s * (x * x + y * y)
  {
  }

  lemma ToFieldScales(m: Maths, gyro: real, s: real, v: Vec)
    ensures ToField(m, gyro, Scaled(s, v)) == Scaled(s, ToField(m, gyro, v))
  {
  }

  /** The motors are stopped when every input is inside the dead zone. The azimuth input is
      compared strictly, the other two are not. */
  predicate IsStopping(robot: Vec, azimuth: real, deadZone: real) {
    Abs(robot.y) <= deadZone && Abs(robot.x) <= deadZone && Abs(azimuth) < deadZone
  }

  /** The dead zone is closed in forward and strafe and open in azimuth; without a dead zone the
      motors are never stopped. */
  lemma DeadZoneIff(robot: Vec, azimuth: real, deadZone: real)
    ensures IsStopping(robot, azimuth, deadZone) <==>
              && -deadZone <= robot.y <= deadZone && -deadZone <= robot.x <= deadZone
              && -deadZone < azimuth < deadZone
    ensures deadZone <= 0.0 ==> !IsStopping(robot, azimuth, deadZone)
  {
  }

  /** The mean of the commanded wheel velocities, turned back to field axes, is the commanded
      translation times the desaturation factor: neither the rotation rate, nor the gyro, nor
      the past of the wheels changes the direction of travel. */
  lemma FieldFrameConservation(m: Maths, c: Chassis, vectors: seq<Vec>, ws: seq<Wheel>, gyro: real, field: Vec, rcw: real)
    requires m.Valid() && AllInSync(ws) && IsRotationVectors(m, c, PointOf(c, Center), vectors)
    ensures var robot := ToRobot(m, gyro, field);
            var ds := Demands(vectors, robot.y, robot.x, rcw);
            ToField(m, gyro, Mean(Commanded(m, Aimed(m, ws, ds), ds))) == Scaled(Desaturation(Magnitudes(m, ds)), field)
  {
    var robot := ToRobot(m, gyro, field);
    var ds := Demands(vectors, robot.y, robot.x, rcw);
    var s := Desaturation(Magnitudes(m, ds));
    forall i: nat | i < 4
      ensures Commanded(m, Aimed(m, ws, ds), ds)[i] == Scaled(s, ds[i])
    {
      DriveMeaning(m, ws, ds, i);
    }
    CenterMean(m, c, vectors, robot.y, robot.x, rcw);
    MeanScales(s, ds, Commanded(m, Aimed(m, ws, ds), ds));
    ToFieldScales(m, gyro, s, robot);
    FieldRoundTrip(m, gyro, field);
  }

  /** The velocity each wheel is told to make. */
  function Commanded(m: Maths, ws': seq<Wheel>, ds: seq<Vec>): (vs: seq<Vec>)
    requires |ws'| == |ds|
    ensures |vs| == |ds|
  {
    seq(|ds|, i requires 0 <= i < |ds| => WheelVelocity(m, Speed(m, ws', ds, i), ws'[i].setpoint))
  }

  /** After any run of drive and brake calls, a field-oriented command about the center makes the
      four wheels move as one rigid body, in the commanded field direction, at the commanded
      speed unless some wheel is already at full speed. */
  lemma CommandAfterAnyRun(
    m: Maths, c: Chassis, vectors: seq<Vec>, calls: seq<Call>, gyro: real, field: Vec, rcw: real, i: nat, j: nat)
    requires m.Valid() && IsRotationVectors(m, c, PointOf(c, Center), vectors) && i < 4 && j < 4
    requires forall call | call in calls :: call.WellFormed()
    ensures var robot := ToRobot(m, gyro, field);
            var ds := Demands(vectors, robot.y, robot.x, rcw);
            var ws := Run(m, calls + [DriveCall(ds)]);
            var vs := Commanded(m, ws, ds);
            var s := Desaturation(Magnitudes(m, ds));
            && Scrub(vs[i], vs[j], WheelPosition(c, i), WheelPosition(c, j)) == 0.0
            && ToField(m, gyro, Mean(vs)) == Scaled(s, field)
            && (s == 1.0 || exists k: nat | k < 4 :: Abs(Speed(m, ws, ds, k)) == 1.0)
  {
    var robot := ToRobot(m, gyro, field);
    var ds := Demands(vectors, robot.y, robot.x, rcw);
    var all := calls + [DriveCall(ds)];
    assert all[..|all| - 1] == calls;
    RunKeepsSync(m, calls);
    DriveMeaning(m, Run(m, calls), ds, i);
    DriveMeaning(m, Run(m, calls), ds, j);
    CenterIsRigid(m, c, vectors, robot.y, robot.x, rcw, Desaturation(Magnitudes(m, ds)), i, j);
    FieldFrameConservation(m, c, vectors, Run(m, calls), gyro, field, rcw);
    SpeedsSaturate(m, Run(m, all), ds);
  }

  lemma MeanScales(s: real, vs: seq<Vec>, scaled: seq<Vec>)
    requires |vs| == |scaled| == 4 && forall i: nat | i < 4 :: scaled[i] == Scaled(s, vs[i])
    ensures Mean(scaled) == Scaled(s, Mean(vs))
  {
    assert scaled[0] == Scaled(s, vs[0]) && scaled[1] == Scaled(s, vs[1]);
    assert scaled[2] == Scaled(s, vs[2]) && scaled[3] == Scaled(s, vs[3]);
    SumScales(s, vs[0].x, vs[1].x, vs[2].x, vs[3].x);
    SumScales(s, vs[0].y, vs[1].y, vs[2].y, vs[3].y);
  }

  lemma SumScales(s: real, a: real, b: real, c: real, d: real)
    ensures 0.25 * (s * a + s * b + s * c + s * d) == s * (0.25 * (a + b + c + d))
  {
  }

  /** A speed in the units of the drive Talon's current mode. */
  function DriveOutput(speed: real, scaleFactor: real): real {
    speed * scaleFactor
  }

  /** A drive Talon in a mode with scale `k` reads its setpoint as a fraction of `k`. */
  lemma DriveOutputMeaning(speed: real, k: real)
    ensures k != 0.0 ==> DriveOutput(speed, k) / k == speed
    ensures Abs(speed) <= 1.0 ==> Abs(DriveOutput(speed, k)) <= Abs(k)
    ensures Abs(speed) == 1.0 ==> Abs(DriveOutput(speed, k)) == Abs(k)
  {
    if Abs(speed) <= 1.0 {
      WithinScale(speed, k);
    }
  }

  lemma WithinScale(speed: real, k: real)
    requires -1.0 <= speed <= 1.0
    ensures Abs(speed * k) <= Abs(k)
    ensures speed == 1.0 ==> speed * k == k
    ensures speed == -1.0 ==> speed * k == -k
  {
    AbsProduct(speed, k);
    var slack := Product(1.0 - Abs(speed), Abs(k));
  }

  lemma AbsProduct(a: real, b: real)
    ensures Abs(a * b) == Abs(a) * Abs(b)
  {
    var p := Product(Abs(a), Abs(b));
    assert a * -b == -(a * b) && -a * b == -(a * b) && -a * -b == a * b;
  }

  /** The velocity a wheel makes when its drive Talon holds setpoint `output` in a mode of scale `k`. */
  function TalonVelocity(m: Maths, output: real, k: real, setpoint: real): Vec
    requires k != 0.0
  {
    WheelVelocity(m, output / k, setpoint)
  }

  /** The wheels move as demanded, slowed by the common factor. */
  ghost predicate TalonsMove(m: Maths, ws: seq<Wheel>, ds: seq<Vec>, outputs: seq<real>, k: real)
    requires |ws| == |ds| == |outputs| == 4 && k != 0.0
  {
    forall i: nat | i < 4 ::
      TalonVelocity(m, outputs[i], k, ws[i].setpoint) == Scaled(Desaturation(Magnitudes(m, ds)), ds[i])
  }

  /** No drive setpoint exceeds the scale, and if anything is slowed one is at exactly the scale. */
  ghost predicate TalonsSaturate(s: real, outputs: seq<real>, k: real)
    requires |outputs| == 4
  {
    && (forall i: nat | i < 4 :: Abs(outputs[i]) <= Abs(k))
    && (s == 1.0 || exists i: nat | i < 4 :: Abs(outputs[i]) == Abs(k))
  }

  /** Every azimuth setpoint is the wheel angle to the nearest tick of 4096 to a turn. */
  ghost predicate TalonsPoint(ws: seq<Wheel>, azimuths: seq<int>)
    requires |ws| == |azimuths| == 4
  {
    forall i: nat | i < 4 :: NearestTick(azimuths[i], ws[i].setpoint)
  }

  /** What the Talons hold makes the wheels follow the demand. */
  ghost predicate TalonsFollow(m: Maths, ws: seq<Wheel>, ds: seq<Vec>, azimuths: seq<int>, outputs: seq<real>, k: real)
    requires |ws| == |ds| == |azimuths| == |outputs| == 4 && k != 0.0
  {
    && TalonsMove(m, ws, ds, outputs, k)
    && TalonsSaturate(Desaturation(Magnitudes(m, ds)), outputs, k)
    && TalonsPoint(ws, azimuths)
  }

  predicate NearestTick(ticks: int, setpoint: real) {
    Abs(ticks as real - setpoint * 4096.0 / 360.0) <= 0.5
  }

  /** Sending each Talon the rounded angle and the scaled speed of its wheel does that, whatever the
      wheels did before. */
  lemma TalonsDo(m: Maths, before: seq<Wheel>, ds: seq<Vec>, azimuths: seq<int>, outputs: seq<real>, k: real)
    requires m.Valid() && AllInSync(before) && |ds| == |azimuths| == |outputs| == 4 && k != 0.0
    requires var ws := Aimed(m, before, ds);
             forall i: nat | i < 4 :: azimuths[i] == Ticks(ws[i].setpoint) && outputs[i] == DriveOutput(Speed(m, ws, ds, i), k)
    ensures TalonsFollow(m, Aimed(m, before, ds), ds, azimuths, outputs, k)
  {
    var ws := Aimed(m, before, ds);
    SpeedsSaturate(m, ws, ds);
    forall i: nat | i < 4
      ensures TalonVelocity(m, outputs[i], k, ws[i].setpoint) == Scaled(Desaturation(Magnitudes(m, ds)), ds[i])
      ensures Abs(outputs[i]) <= Abs(k) && NearestTick(azimuths[i], ws[i].setpoint)
      ensures Abs(Speed(m, ws, ds, i)) == 1.0 ==> Abs(outputs[i]) == Abs(k)
    {
      DriveOutputMeaning(Speed(m, ws, ds, i), k);
      DriveMeaning(m, before, ds, i);
      TicksMeaning(ws[i].setpoint);
    }
  }

  /** About the center the mean of such velocities is the demanded translation, slowed alike. */
  lemma MeanFollows(m: Maths, c: Chassis, vectors: seq<Vec>, ws: seq<Wheel>, robot: Vec, rcw: real, outputs: seq<real>, k: real)
    requires IsRotationVectors(m, c, PointOf(c, Center), vectors)
    requires |ws| == |outputs| == 4 && k != 0.0
    requires TalonsMove(m, ws, Demands(vectors, robot.y, robot.x, rcw), outputs, k)
    ensures Mean(TalonVelocities(m, ws, outputs, k)) == Scaled(Slowing(m, vectors, robot, rcw), robot)
  {
    var ds := Demands(vectors, robot.y, robot.x, rcw);
    CenterMean(m, c, vectors, robot.y, robot.x, rcw);
    MeanScales(Slowing(m, vectors, robot, rcw), ds, TalonVelocities(m, ws, outputs, k));
  }

  /** The common factor of a command in robot axes. */
  function Slowing(m: Maths, vectors: seq<Vec>, robot: Vec, rcw: real): real {
    Desaturation(Magnitudes(m, Demands(vectors, robot.y, robot.x, rcw)))
  }

  function TalonVelocities(m: Maths, ws: seq<Wheel>, outputs: seq<real>, k: real): (vs: seq<Vec>)
    requires |ws| == |outputs| && k != 0.0
    ensures |vs| == |ws|
  {
    seq(|ws|, i requires 0 <= i < |ws| => TalonVelocity(m, outputs[i], k, ws[i].setpoint))
  }

  /** The same in field axes. */
  lemma FieldFollows(m: Maths, c: Chassis, vectors: seq<Vec>, ws: seq<Wheel>, gyro: real, field: Vec, rcw: real,
                     outputs: seq<real>, k: real)
    requires m.Valid() && IsRotationVectors(m, c, PointOf(c, Center), vectors)
    requires |ws| == |outputs| == 4 && k != 0.0
    requires TalonsMove(m, ws, Demands(vectors, ToRobot(m, gyro, field).y, ToRobot(m, gyro, field).x, rcw), outputs, k)
    ensures ToField(m, gyro, Mean(TalonVelocities(m, ws, outputs, k)))
         == Scaled(Slowing(m, vectors, ToRobot(m, gyro, field), rcw), field)
  {
    var robot := ToRobot(m, gyro, field);
    MeanFollows(m, c, vectors, ws, robot, rcw, outputs, k);
    ToFieldScales(m, gyro, Slowing(m, vectors, robot, rcw), robot);
    FieldRoundTrip(m, gyro, field);
  }

  /** Commands for the brake position, by wheel index. */
  const BRAKE_ANGLES: seq<real> := [-40.0, 40.0, -40.0, 40.0]

  /** The brake position, from any state the wheels can be in: wheels 0 and 2 lie on one line, 40
      degrees clockwise of strafe, wheels 1 and 3 on its mirror image, 40 degrees the other way, and
      no wheel turned more than a quarter to get there. */
  lemma BrakePosition(before: seq<Wheel>, i: nat)
    requires AllInSync(before) && i < 4
    ensures var w := Braked(before, BRAKE_ANGLES)[i];
            && Congruent(w.setpoint - 270.0, (if i == 0 || i == 2 then -40.0 else 40.0) + HalfTurn(w.flipped))
            && QuarterTurn(before[i].setpoint, w.setpoint)
  {
    var h := Fmod360(BRAKE_ANGLES[i] + 270.0);
    var angle := BRAKE_ANGLES[i];
    var w := Steer(before[i], h);
    assert InSync(before[i]);
    SteerKeepsSync(before[i], h);
    Fmod360Meaning(angle + 270.0);
    QuarterTurnIff(before[i], h);
    CongruentTransitive(w.past, h, angle + 270.0);
    var j :| w.past == angle + 270.0 + Turns(j);
    var k :| w.setpoint == w.past + HalfTurn(w.flipped) + Turns(k);
    CongruentBy(w.setpoint - 270.0, angle + HalfTurn(w.flipped), j + k);
  }

  /** The wheels are in the brake position, reached by at most a quarter turn each, and so are the
      azimuth setpoints to the nearest tick. */
  ghost predicate Crossed(before: seq<Wheel>, ws: seq<Wheel>, azimuths: seq<int>)
    requires |before| == |ws| == |azimuths| == 4
  {
    forall i: nat | i < 4 ::
      && Congruent(ws[i].setpoint - 270.0, (if i == 0 || i == 2 then -40.0 else 40.0) + HalfTurn(ws[i].flipped))
      && QuarterTurn(before[i].setpoint, ws[i].setpoint)
      && NearestTick(azimuths[i], ws[i].setpoint)
  }

  lemma BrakeTalons(before: seq<Wheel>, azimuths: seq<int>)
    requires AllInSync(before) && |azimuths| == 4
    requires forall i: nat | i < 4 :: azimuths[i] == Ticks(Braked(before, BRAKE_ANGLES)[i].setpoint)
    ensures Crossed(before, Braked(before, BRAKE_ANGLES), azimuths)
  {
    forall i: nat | i < 4
      ensures var w := Braked(before, BRAKE_ANGLES)[i];
              && Congruent(w.setpoint - 270.0, (if i == 0 || i == 2 then -40.0 else 40.0) + HalfTurn(w.flipped))
              && QuarterTurn(before[i].setpoint, w.setpoint)
              && NearestTick(azimuths[i], w.setpoint)
    {
      BrakePosition(before, i);
      TicksMeaning(Braked(before, BRAKE_ANGLES)[i].setpoint);
    }
  }

  class SwerveDrive {
    const swerveMath: SwerveMath
    var gyroDisabled: bool
    var driveScaleFactor: real
    const deadZone: real
    /** The last setpoint sent to each azimuth and each drive Talon. */
    var azimuthSetpoints: seq<int>
    var driveSetpoints: seq<real>
    /** The position last written to each drive encoder. */
    var driveEncoders: seq<int>

    ghost predicate Valid()
      reads swerveMath.wheelAngles, swerveMath.wheelAnglesPast, swerveMath.wheelMagNegated
    {
      swerveMath.Valid()
    }

    constructor (maths: Maths, chassis: Chassis, deadZone: real, driveScaleFactor: real)
      requires maths.Valid() && ChassisValid(chassis)
      ensures Valid() && swerveMath.Geometry() && fresh(swerveMath) && !gyroDisabled
      ensures this.deadZone == deadZone && this.driveScaleFactor == driveScaleFactor
      ensures swerveMath.maths == maths && swerveMath.chassis == chassis
      ensures swerveMath.Wheels() == [INITIAL_WHEEL, INITIAL_WHEEL, INITIAL_WHEEL, INITIAL_WHEEL]
    {
      swerveMath := new SwerveMath(maths, chassis);
      gyroDisabled := false;
      this.deadZone := deadZone;
      this.driveScaleFactor := driveScaleFactor;
      azimuthSetpoints := [];
      driveSetpoints := [];
      driveEncoders := [];
    }

    method SetGyroDisabled(disabled: bool)
      modifies `gyroDisabled
      ensures gyroDisabled == disabled
    {
      gyroDisabled := disabled;
    }

    /** The command in robot axes, after the optional field rotation. */
    ghost function RobotCommand(gyro: real, forward: real, strafe: real): Vec
      reads `gyroDisabled
    {
      if gyroDisabled then Vec(strafe, forward) else ToRobot(swerveMath.maths, gyro, Vec(strafe, forward))
    }

    method Drive(forward: real, strafe: real, azimuth: real, deadZone: real, gyro: real)
      requires Valid()
      modifies `azimuthSetpoints, `driveSetpoints
      modifies swerveMath.wheelAngles, swerveMath.wheelMags, swerveMath.wheelAnglesPast, swerveMath.wheelMagNegated
      ensures Valid()
      ensures var robot := RobotCommand(gyro, forward, strafe);
              Driven(old(swerveMath.Wheels()), old(azimuthSetpoints), robot, azimuth, deadZone)
      ensures Obeys(gyro, forward, strafe, azimuth, deadZone)
    {
      if gyroDisabled {
        DriveRobot(forward, strafe, azimuth, deadZone);
        ProveObeys(gyro, forward, strafe, azimuth, deadZone);
        return;
      }
      var cosRad := swerveMath.maths.cos(gyro);
      var sinRad := swerveMath.maths.sin(gyro);
      var rotatedForward := forward * cosRad + strafe * sinRad;
      var rotatedStrafe := strafe * cosRad - forward * sinRad;
      assert RobotCommand(gyro, forward, strafe) == Vec(rotatedStrafe, rotatedForward);
      DriveRobot(rotatedForward, rotatedStrafe, azimuth, deadZone);
      ProveObeys(gyro, forward, strafe, azimuth, deadZone);
    }

    /** Outside the dead zone the Talons make the robot translate in the commanded direction, in
        field axes unless the gyro is disabled, slowed only if some wheel is at full speed. */
    ghost predicate Obeys(gyro: real, forward: real, strafe: real, azimuth: real, deadZone: real)
      requires Valid() && |driveSetpoints| == 4
      reads this, swerveMath.wheelAngles, swerveMath.wheelAnglesPast, swerveMath.wheelMagNegated
    {
      var m := swerveMath.maths;
      var robot := RobotCommand(gyro, forward, strafe);
      var s := Slowing(m, swerveMath.centerVectors, robot, azimuth);
      swerveMath.Geometry() && driveScaleFactor != 0.0 && !IsStopping(robot, azimuth, deadZone) ==>
        && 0.0 < s <= 1.0
        && TalonsSaturate(s, driveSetpoints, driveScaleFactor)
        && (if gyroDisabled then Motion() else ToField(m, gyro, Motion())) == Scaled(s, Vec(strafe, forward))
    }

    lemma ProveObeys(gyro: real, forward: real, strafe: real, azimuth: real, deadZone: real)
      requires Valid() && |driveSetpoints| == 4
      requires !IsStopping(RobotCommand(gyro, forward, strafe), azimuth, deadZone) ==>
                 Follows(RobotCommand(gyro, forward, strafe), azimuth)
      ensures Obeys(gyro, forward, strafe, azimuth, deadZone)
    {
      var m := swerveMath.maths;
      var robot := RobotCommand(gyro, forward, strafe);
      if swerveMath.Geometry() && driveScaleFactor != 0.0 && !IsStopping(robot, azimuth, deadZone) {
        DesaturationRange(Magnitudes(m, Demands(swerveMath.centerVectors, robot.y, robot.x, azimuth)));
        if gyroDisabled {
          MeanFollows(m, swerveMath.chassis, swerveMath.centerVectors, swerveMath.Wheels(), robot, azimuth,
                      driveSetpoints, driveScaleFactor);
        } else {
          FieldFollows(m, swerveMath.chassis, swerveMath.centerVectors, swerveMath.Wheels(), gyro, Vec(strafe, forward), azimuth,
                       driveSetpoints, driveScaleFactor);
        }
      }
    }

    /** Driving with the dead zone from the configuration. */
    method DriveConfigured(forward: real, strafe: real, azimuth: real, gyro: real)
      requires Valid()
      modifies `azimuthSetpoints, `driveSetpoints
      modifies swerveMath.wheelAngles, swerveMath.wheelMags, swerveMath.wheelAnglesPast, swerveMath.wheelMagNegated
      ensures Valid()
      ensures var robot := RobotCommand(gyro, forward, strafe);
              Driven(old(swerveMath.Wheels()), old(azimuthSetpoints), robot, azimuth, deadZone)
      ensures Obeys(gyro, forward, strafe, azimuth, deadZone)
    {
      Drive(forward, strafe, azimuth, deadZone, gyro);
    }

    /** The whole effect of a drive call: inside the dead zone only the drive motors are
        stopped; otherwise every Talon follows the wheel calculator. */
    ghost predicate Driven(before: seq<Wheel>, azimuthBefore: seq<int>, robot: Vec, azimuth: real, deadZone: real)
      requires Valid() && |before| == 4
      reads this, swerveMath.wheelAngles, swerveMath.wheelAnglesPast, swerveMath.wheelMagNegated
    {
      var m := swerveMath.maths;
      var ws := swerveMath.Wheels();
      var ds := Demands(swerveMath.centerVectors, robot.y, robot.x, azimuth);
      && |driveSetpoints| == 4
      && if IsStopping(robot, azimuth, deadZone) then
           ws == before && azimuthSetpoints == azimuthBefore && driveSetpoints == [0.0, 0.0, 0.0, 0.0]
         else
           && ws == Aimed(m, before, ds)
           && |azimuthSetpoints| == 4
           && forall i: nat | i < 4 ::
                && azimuthSetpoints[i] == Ticks(ws[i].setpoint)
                && driveSetpoints[i] == DriveOutput(Speed(m, ws, ds, i), driveScaleFactor)
    }

    /** The Talons make the wheels follow a command in robot axes. */
    ghost predicate Follows(robot: Vec, azimuth: real)
      requires Valid()
      reads this, swerveMath.wheelAngles, swerveMath.wheelAnglesPast, swerveMath.wheelMagNegated
    {
      var ds := Demands(swerveMath.centerVectors, robot.y, robot.x, azimuth);
      && |azimuthSetpoints| == |driveSetpoints| == 4
      && (driveScaleFactor != 0.0 ==>
            TalonsFollow(swerveMath.maths, swerveMath.Wheels(), ds, azimuthSetpoints, driveSetpoints, driveScaleFactor))
    }

    /** The mean velocity that the Talons make the wheels have, in robot axes. */
    ghost function Motion(): Vec
      requires Valid() && |driveSetpoints| == 4 && driveScaleFactor != 0.0
      reads this, swerveMath.wheelAngles, swerveMath.wheelAnglesPast, swerveMath.wheelMagNegated
    {
      Mean(TalonVelocities(swerveMath.maths, swerveMath.Wheels(), driveSetpoints, driveScaleFactor))
    }

    method DriveRobot(forward: real, strafe: real, azimuth: real, deadZone: real)
      requires Valid()
      modifies `azimuthSetpoints, `driveSetpoints
      modifies swerveMath.wheelAngles, swerveMath.wheelMags, swerveMath.wheelAnglesPast, swerveMath.wheelMagNegated
      ensures Valid()
      ensures Driven(old(swerveMath.Wheels()), old(azimuthSetpoints), Vec(strafe, forward), azimuth, deadZone)
      ensures !IsStopping(Vec(strafe, forward), azimuth, deadZone) ==> Follows(Vec(strafe, forward), azimuth)
    {
      var isStopping := Abs(forward) <= deadZone && Abs(strafe) <= deadZone && Abs(azimuth) < deadZone;
      if isStopping {
        driveSetpoints := [0.0, 0.0, 0.0, 0.0];
        return;
      }
      DriveAbout(forward, strafe, azimuth, Center);
    }

    /** Steer and drive every wheel for a command about a point, through the Talons. */
    method DriveAbout(forward: real, strafe: real, azimuth: real, rp: RotationPoint)
      requires Valid()
      modifies `azimuthSetpoints, `driveSetpoints
      modifies swerveMath.wheelAngles, swerveMath.wheelMags, swerveMath.wheelAnglesPast, swerveMath.wheelMagNegated
      ensures Valid()
      ensures var ds := Demands(swerveMath.VectorsOf(rp), forward, strafe, azimuth);
              && swerveMath.Wheels() == Aimed(swerveMath.maths, old(swerveMath.Wheels()), ds)
              && |azimuthSetpoints| == |driveSetpoints| == 4
              && (forall i: nat | i < 4 ::
                    && azimuthSetpoints[i] == Ticks(swerveMath.Wheels()[i].setpoint)
                    && driveSetpoints[i] == DriveOutput(Speed(swerveMath.maths, swerveMath.Wheels(), ds, i), driveScaleFactor))
              && (driveScaleFactor != 0.0 ==>
                    TalonsFollow(swerveMath.maths, swerveMath.Wheels(), ds, azimuthSetpoints, driveSetpoints, driveScaleFactor))
    {
      ghost var before := swerveMath.Wheels();
      var dd := DriveData(forward, strafe, azimuth, [], []);
      dd := swerveMath.Drive(dd, rp);
      SetTalons(dd);
      if driveScaleFactor != 0.0 {
        TalonsDo(swerveMath.maths, before, Demands(swerveMath.VectorsOf(rp), forward, strafe, azimuth),
                 azimuthSetpoints, driveSetpoints, driveScaleFactor);
      }
    }

    method SetTalons(dd: DriveData)
      requires |dd.angles| == |dd.speeds| == 4
      modifies `azimuthSetpoints, `driveSetpoints
      ensures |azimuthSetpoints| == |driveSetpoints| == 4
      ensures forall i: nat | i < 4 :: azimuthSetpoints[i] == Ticks(dd.angles[i]) && driveSetpoints[i] == DriveOutput(dd.speeds[i], driveScaleFactor)
    {
      azimuthSetpoints := [
        Round(dd.angles[0] * 2048.0 / 180.0), Round(dd.angles[1] * 2048.0 / 180.0),
        Round(dd.angles[2] * 2048.0 / 180.0), Round(dd.angles[3] * 2048.0 / 180.0)];
      driveSetpoints := [
        dd.speeds[0] * driveScaleFactor, dd.speeds[1] * driveScaleFactor,
        dd.speeds[2] * driveScaleFactor, dd.speeds[3] * driveScaleFactor];
    }

    /** Rotation about the shooter, deprecated. */
    method TargetRotation(azimuth: real)
      requires Valid()
      modifies `azimuthSetpoints, `driveSetpoints
      modifies swerveMath.wheelAngles, swerveMath.wheelMags, swerveMath.wheelAnglesPast, swerveMath.wheelMagNegated
      ensures Valid()
      ensures var ds := Demands(swerveMath.shooterVectors, 0.0, 0.0, azimuth);
              && swerveMath.Wheels() == Aimed(swerveMath.maths, old(swerveMath.Wheels()), ds)
              && |azimuthSetpoints| == |driveSetpoints| == 4
              && forall i: nat | i < 4 ::
                   && azimuthSetpoints[i] == Ticks(swerveMath.Wheels()[i].setpoint)
                   && driveSetpoints[i] == DriveOutput(Speed(swerveMath.maths, swerveMath.Wheels(), ds, i), driveScaleFactor)
      ensures var ds := Demands(swerveMath.shooterVectors, 0.0, 0.0, azimuth);
              driveScaleFactor != 0.0 ==>
                TalonsFollow(swerveMath.maths, swerveMath.Wheels(), ds, azimuthSetpoints, driveSetpoints, driveScaleFactor)
    {
      DriveAbout(0.0, 0.0, azimuth, Shooter);
    }

    /** Turn the wheels into the brake position and zero the drive encoders. */
    method SetBrake()
      requires Valid()
      modifies `azimuthSetpoints, `driveEncoders
      modifies swerveMath.wheelAngles, swerveMath.wheelAnglesPast, swerveMath.wheelMagNegated
      ensures Valid()
      ensures swerveMath.Wheels() == Braked(old(swerveMath.Wheels()), BRAKE_ANGLES)
      ensures |azimuthSetpoints| == 4
      ensures forall i: nat | i < 4 :: azimuthSetpoints[i] == Ticks(swerveMath.Wheels()[i].setpoint)
      ensures driveEncoders == [0, 0, 0, 0]
      ensures Crossed(old(swerveMath.Wheels()), swerveMath.Wheels(), azimuthSetpoints)
    {
      ghost var before := swerveMath.Wheels();
      var dd := DriveData(0.0, 0.0, 0.0, [], BRAKE_ANGLES);
      dd := swerveMath.GetBrakeAzimuth(dd);
      azimuthSetpoints := [
        Round(dd.angles[0] * 2048.0 / 180.0), Round(dd.angles[1] * 2048.0 / 180.0),
        Round(dd.angles[2] * 2048.0 / 180.0), Round(dd.angles[3] * 2048.0 / 180.0)];
      driveEncoders := [0, 0, 0, 0];
      BrakeTalons(before, azimuthSetpoints);
    }
  }
}
