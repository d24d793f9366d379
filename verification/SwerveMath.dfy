/** The stateful wheel calculator: four wheels whose azimuth history is kept across calls. */
module SwerveMath {
  import opened Maths
  import opened Steering
  import opened Kinematics

  /** Call data, with the per-wheel outputs listed by wheel index. */
  datatype DriveData = DriveData(fwd: real, str: real, rcw: real, speeds: seq<real>, angles: seq<real>)

  class SwerveMath {
    const maths: Maths
    ghost const chassis: Chassis
    const centerVectors: seq<Vec>
    const shooterVectors: seq<Vec>
    const wheelAngles: array<real>
    const wheelMags: array<real>
    const wheelAnglesPast: array<real>
    const wheelMagNegated: array<bool>

    /** The four buffers have one slot for each wheel and do not overlap. */
    ghost predicate Allocated() {
      && wheelAngles.Length == wheelMags.Length == wheelAnglesPast.Length == wheelMagNegated.Length == 4
      && wheelAngles != wheelMags && wheelAngles != wheelAnglesPast && wheelMags != wheelAnglesPast
    }

    ghost predicate Valid()
      reads wheelAngles, wheelAnglesPast, wheelMagNegated
    {
      && Allocated()
      && maths.Valid()
      && |centerVectors| == |shooterVectors| == 4
      && AllInSync(Wheels())
    }

    /** The rotation vectors belong to the chassis. They are computed once and never written. */
    ghost predicate Geometry() {
      && IsRotationVectors(maths, chassis, PointOf(chassis, Center), centerVectors)
      && IsRotationVectors(maths, chassis, PointOf(chassis, Shooter), shooterVectors)
    }

    ghost function WheelAt(i: nat): Wheel
      requires Allocated() && i < 4
      reads wheelAngles, wheelAnglesPast, wheelMagNegated
    {
      Wheel(wheelAngles[i], wheelAnglesPast[i], wheelMagNegated[i])
    }

    ghost function Wheels(): seq<Wheel>
      requires Allocated()
      reads wheelAngles, wheelAnglesPast, wheelMagNegated
    {
      [WheelAt(0), WheelAt(1), WheelAt(2), WheelAt(3)]
    }

    function VectorsOf(rp: RotationPoint): seq<Vec> {
      if rp.Center? then centerVectors else shooterVectors
    }

    constructor (maths: Maths, chassis: Chassis)
      requires maths.Valid() && ChassisValid(chassis)
      ensures Valid() && fresh(wheelAngles) && fresh(wheelMags) && fresh(wheelAnglesPast) && fresh(wheelMagNegated)
      ensures Geometry() && this.maths == maths && this.chassis == chassis
      ensures Wheels() == [INITIAL_WHEEL, INITIAL_WHEEL, INITIAL_WHEEL, INITIAL_WHEEL]
    {
      var center := LoadRotationVectors(maths, chassis, Center);
      var shooter := LoadRotationVectors(maths, chassis, Shooter);
      this.maths := maths;
      this.chassis := chassis;
      centerVectors := center;
      shooterVectors := shooter;
      var angles := new real[4](_ => 0.0);
      var mags := new real[4](_ => 0.0);
      var past := new real[4](_ => 0.0);
      var negated := new bool[4](_ => false);
      wheelAngles := angles;
      wheelMags := mags;
      wheelAnglesPast := past;
      wheelMagNegated := negated;
      new;
      InitialInSync();
      assert WheelAt(0) == WheelAt(1) == WheelAt(2) == WheelAt(3) == INITIAL_WHEEL;
    }

    /** Turn wheel `i` toward the wrapped heading `wheelAngle`, the shorter way, and reverse it
        rather than turn it by more than a quarter turn. */
    method SteerWheel(i: nat, wheelAngle: real)
      requires Allocated() && i < 4
      requires -360.0 < wheelAngle < 360.0 && 0.0 <= wheelAnglesPast[i] < 360.0
      modifies wheelAngles, wheelAnglesPast, wheelMagNegated
      ensures WheelAt(i) == Steer(old(WheelAt(i)), wheelAngle)
      ensures forall j: nat | j < 4 && j != i :: WheelAt(j) == old(WheelAt(j))
    {
      var rawAngleChange := wheelAngle - wheelAnglesPast[i];
      var option1 := rawAngleChange;
      var option2 := 360.0 - Abs(rawAngleChange);
      option2 := -Sign(rawAngleChange) * option2;
      var smartAngleChange := if Abs(option1) < Abs(option2) then option1 else option2;
      ShortWay(wheelAnglesPast[i], wheelAngle, smartAngleChange);
      wheelAnglesPast[i] := wheelAnglesPast[i] + smartAngleChange;
      wheelAnglesPast[i] := Fmod360(wheelAnglesPast[i] + 360.0);
      wheelAngles[i] := wheelAngles[i] + smartAngleChange;
      if smartAngleChange > 90.0 {
        wheelAngles[i] := wheelAngles[i] - 180.0;
        wheelMagNegated[i] := !wheelMagNegated[i];
      } else if smartAngleChange < -90.0 {
        wheelAngles[i] := wheelAngles[i] + 180.0;
        wheelMagNegated[i] := !wheelMagNegated[i];
      }
    }

    /** Speeds and azimuths of all wheels for one joystick demand. */
    method Drive(dd: DriveData, rp: RotationPoint) returns (out: DriveData)
      requires Valid()
      modifies wheelAngles, wheelMags, wheelAnglesPast, wheelMagNegated
      ensures Valid()
      ensures Wheels() == Aimed(maths, old(Wheels()), Demands(VectorsOf(rp), dd.fwd, dd.str, dd.rcw))
      ensures out == dd.(angles := wheelAngles[..], speeds := wheelMags[..])
      ensures forall i: nat | i < 4 ::
        wheelMags[i] == Speed(maths, Wheels(), Demands(VectorsOf(rp), dd.fwd, dd.str, dd.rcw), i)
    {
      ghost var ds := Demands(VectorsOf(rp), dd.fwd, dd.str, dd.rcw);
      AimedInSync(maths, Wheels(), ds);
      AimWheels(VectorsOf(rp), dd);
      ScaleSpeeds();
      out := dd.(angles := wheelAngles[..], speeds := wheelMags[..]);
    }

    method AimWheels(vectors: seq<Vec>, dd: DriveData)
      requires Allocated() && maths.Valid() && |vectors| == 4
      requires AllInSync(Wheels())
      modifies wheelAngles, wheelMags, wheelAnglesPast, wheelMagNegated
      ensures Wheels() == Aimed(maths, old(Wheels()), Demands(vectors, dd.fwd, dd.str, dd.rcw))
      ensures wheelMags[..] == Magnitudes(maths, Demands(vectors, dd.fwd, dd.str, dd.rcw))
    {
      ghost var before := Wheels();
      ghost var ds := Demands(vectors, dd.fwd, dd.str, dd.rcw);
      ghost var after := Aimed(maths, before, ds);
      ghost var mags := Magnitudes(maths, ds);
      for i := 0 to 4
        invariant forall j: nat | j < i :: WheelAt(j) == after[j] && wheelMags[j] == mags[j]
        invariant forall j: nat | i <= j < 4 :: WheelAt(j) == before[j]
      {
        assert WheelAt(i) == before[i] && InSync(before[i]);
        AimWheel(i, vectors[i], dd);
      }
    }

    method AimWheel(i: nat, vector: Vec, dd: DriveData)
      requires Allocated() && maths.Valid() && i < 4
      requires 0.0 <= wheelAnglesPast[i] < 360.0
      modifies wheelAngles, wheelMags, wheelAnglesPast, wheelMagNegated
      ensures WheelAt(i) == Steer(old(WheelAt(i)), Heading(maths, Demand(vector, dd.fwd, dd.str, dd.rcw)))
      ensures wheelMags[i] == Magnitude(maths, Demand(vector, dd.fwd, dd.str, dd.rcw))
      ensures forall j: nat | j < 4 && j != i :: WheelAt(j) == old(WheelAt(j)) && wheelMags[j] == old(wheelMags[j])
    {
      var demand := Demand(vector, dd.fwd, dd.str, dd.rcw);
      HeadingRange(maths, demand);
      SteerWheel(i, Fmod360(maths.atan2(demand.y, demand.x) + 270.0));
      wheelMags[i] := maths.Hypot(demand.x, demand.y);
    }

    /** Signs the speeds and brings them all within full speed. */
    method ScaleSpeeds()
      requires Allocated()
      modifies wheelMags
      ensures forall j: nat | j < 4 ::
        wheelMags[j] == SignedSpeed(wheelMagNegated[j], old(wheelMags[j]), Desaturation(old(wheelMags[..])))
    {
      var maxWheelMag := ReverseSpeeds();
      if maxWheelMag > 1.0 {
        LimitSpeeds(maxWheelMag);
      }
    }

    /** Finds the largest magnitude while giving each reversed wheel a negative speed. */
    method ReverseSpeeds() returns (maxWheelMag: real)
      requires Allocated()
      modifies wheelMags
      ensures maxWheelMag == Largest(old(wheelMags[..]))
      ensures forall j: nat | j < 4 :: wheelMags[j] == Signed(wheelMagNegated[j], old(wheelMags[j]))
    {
      ghost var mags := wheelMags[..];
      maxWheelMag := 0.0;
      for i := 0 to 4
        invariant maxWheelMag == Largest(mags[..i])
        invariant forall j: nat | j < i :: wheelMags[j] == Signed(wheelMagNegated[j], mags[j])
        invariant forall j: nat | i <= j < 4 :: wheelMags[j] == mags[j]
      {
        assert mags[..i + 1][..i] == mags[..i];
        if maxWheelMag < wheelMags[i] {
          maxWheelMag := wheelMags[i];
        }
        if wheelMagNegated[i] {
          wheelMags[i] := wheelMags[i] * -1.0;
        }
      }
      assert mags[..4] == mags;
    }

    method LimitSpeeds(maxWheelMag: real)
      requires Allocated() && maxWheelMag > 1.0
      modifies wheelMags
      ensures forall j: nat | j < 4 :: wheelMags[j] == old(wheelMags[j]) * (1.0 / maxWheelMag)
    {
      for i := 0 to 4
        invariant forall j: nat | j < i :: wheelMags[j] == old(wheelMags[j]) * (1.0 / maxWheelMag)
        invariant forall j: nat | i <= j < 4 :: wheelMags[j] == old(wheelMags[j])
      {
        Reciprocal(wheelMags[i], maxWheelMag);
        wheelMags[i] := wheelMags[i] / maxWheelMag;
      }
    }

    method BrakeWheels(angles: seq<real>)
      requires Allocated() && |angles| == 4
      requires AllInSync(Wheels())
      modifies wheelAngles, wheelAnglesPast, wheelMagNegated
      ensures Wheels() == Braked(old(Wheels()), angles)
    {
      ghost var before := Wheels();
      ghost var after := Braked(before, angles);
      for i := 0 to 4
        invariant forall j: nat | j < i :: WheelAt(j) == after[j]
        invariant forall j: nat | i <= j < 4 :: WheelAt(j) == before[j]
      {
        assert WheelAt(i) == before[i] && InSync(before[i]);
        BrakeWheel(i, angles[i]);
      }
    }

    method BrakeWheel(i: nat, angle: real)
      requires Allocated() && i < 4 && 0.0 <= wheelAnglesPast[i] < 360.0
      modifies wheelAngles, wheelAnglesPast, wheelMagNegated
      ensures WheelAt(i) == Steer(old(WheelAt(i)), Fmod360(angle + 270.0))
      ensures forall j: nat | j < 4 && j != i :: WheelAt(j) == old(WheelAt(j))
    {
      Fmod360Meaning(angle + 270.0);
      SteerWheel(i, Fmod360(angle + 270.0));
    }

    /** Turn the wheels to the given angles without driving them. */
    method GetBrakeAzimuth(dd: DriveData) returns (out: DriveData)
      requires Valid() && |dd.angles| == 4
      modifies wheelAngles, wheelAnglesPast, wheelMagNegated
      ensures Valid()
      ensures Wheels() == Braked(old(Wheels()), dd.angles)
      ensures out == dd.(angles := wheelAngles[..])
    {
      BrakedInSync(Wheels(), dd.angles);
      BrakeWheels(dd.angles);
      out := dd.(angles := wheelAngles[..]);
    }
  }

  lemma AimedInSync(m: Maths, ws: seq<Wheel>, ds: seq<Vec>)
    requires m.Valid() && AllInSync(ws) && |ds| == 4
    ensures AllInSync(Aimed(m, ws, ds))
  {
    forall i: nat | i < 4
      ensures InSync(Aimed(m, ws, ds)[i])
    {
      SteerKeepsSync(ws[i], Heading(m, ds[i]));
    }
  }

  lemma BrakedInSync(ws: seq<Wheel>, angles: seq<real>)
    requires AllInSync(ws) && |angles| == 4
    ensures AllInSync(Braked(ws, angles))
  {
    forall i: nat | i < 4
      ensures InSync(Braked(ws, angles)[i])
    {
      SteerKeepsSync(ws[i], Fmod360(angles[i] + 270.0));
    }
  }

  /** The rolling directions of the four wheels about a point. */
  method CalcRotationVectors(maths: Maths, chassis: Chassis, point: Vec) returns (vectors: array<Vec>)
    requires maths.Valid() && OffWheels(chassis, point)
    ensures fresh(vectors) && IsRotationVectors(maths, chassis, point, vectors[..])
  {
    vectors := new Vec[4](_ => Vec(0.0, 0.0));
    for i := 0 to 4
      invariant forall j: nat | j < i ::
        && Distance(maths, point, WheelPosition(chassis, j)) > 0.0
        && vectors[j] == RotationVector(maths, point, WheelPosition(chassis, j))
    {
      DistancePositive(maths, point, WheelPosition(chassis, i));
      var x := point.x - chassis.width * Corner(i).x / 2.0;
      var y := point.y - chassis.length * Corner(i).y / 2.0;
      var distance := maths.Hypot(x, y);
      vectors[i] := Vec(-y / distance, x / distance);
    }
  }

  method LoadRotationVectors(maths: Maths, chassis: Chassis, rp: RotationPoint) returns (vectors: seq<Vec>)
    requires maths.Valid() && ChassisValid(chassis)
    ensures IsRotationVectors(maths, chassis, PointOf(chassis, rp), vectors)
  {
    var a := CalcRotationVectors(maths, chassis, PointOf(chassis, rp));
    vectors := a[..];
  }

  /** The smaller of the two ways round has the residue of the raw change, stays within the
      reach of `fmod`, and lands on the request. */
  lemma ShortWay(past: real, h: real, smart: real)
    requires 0.0 <= past < 360.0 && -360.0 < h < 360.0
    requires var raw := h - past;
             var other := -Sign(raw) * (360.0 - Abs(raw));
             smart == if Abs(raw) < Abs(other) then raw else other
    ensures Fmod360(past + smart + 360.0) == Mod360(h)
    ensures var turn := Mod360(h - past);
            if turn <= 90.0 && h - past >= -540.0 then smart == turn
            else if turn < 270.0 then (smart == turn - 360.0 && smart < -90.0) || (smart == turn && smart > 90.0)
            else smart == turn - 360.0 && smart >= -90.0
  {
    var raw := h - past;
    Mod360Meaning(h);
    Mod360Meaning(raw);
    Fmod360Meaning(past + smart + 360.0);
    WayRound(raw, smart);
    var k :| smart == raw + Turns(k);
    assert past + smart + 360.0 >= 0.0;
    CongruentBy(past + smart + 360.0, h, k + 1);
    CongruentTransitive(Fmod360(past + smart + 360.0), past + smart + 360.0, h);
    CongruentSymmetric(Mod360(h), h);
    CongruentTransitive(Fmod360(past + smart + 360.0), h, Mod360(h));
    Mod360Unique(Fmod360(past + smart + 360.0), Mod360(h));
    CongruentSymmetric(Mod360(raw), raw);
    CongruentTransitive(smart, raw, Mod360(raw));
  }

  lemma WayRound(raw: real, smart: real)
    requires -720.0 < raw < 360.0
    requires var other := -Sign(raw) * (360.0 - Abs(raw));
             smart == if Abs(raw) < Abs(other) then raw else other
    ensures Congruent(smart, raw)
    ensures raw >= -540.0 ==> -180.0 <= smart <= 180.0
    ensures raw < -540.0 ==> smart == raw + 360.0
  {
    CongruentBy(smart, raw, if smart == raw then 0 else if raw > 0.0 then -1 else 1);
  }

  // ------------------------------------------------------------------ whole runs

  function Braked(ws: seq<Wheel>, angles: seq<real>): (ws': seq<Wheel>)
    requires |ws| == |angles|
    ensures |ws'| == |ws|
  {
    seq(|ws|, i requires 0 <= i < |ws| => Steer(ws[i], Fmod360(angles[i] + 270.0)))
  }

  /** A call on the wheels: a drive demand already split over the wheels, or brake angles. */
  datatype Call = DriveCall(demands: seq<Vec>) | BrakeCall(angles: seq<real>) {
    predicate WellFormed() {
      match this
      case DriveCall(demands) => |demands| == 4
      case BrakeCall(angles) => |angles| == 4
    }
  }

  function Step(m: Maths, ws: seq<Wheel>, call: Call): (ws': seq<Wheel>)
    requires |ws| == 4 && call.WellFormed()
    ensures |ws'| == 4
  {
    match call
    case DriveCall(demands) => Aimed(m, ws, demands)
    case BrakeCall(angles) => Braked(ws, angles)
  }

  function Run(m: Maths, calls: seq<Call>): (ws: seq<Wheel>)
    requires forall c | c in calls :: c.WellFormed()
    ensures |ws| == 4
  {
    if calls == [] then [INITIAL_WHEEL, INITIAL_WHEEL, INITIAL_WHEEL, INITIAL_WHEEL]
    else Step(m, Run(m, calls[..|calls| - 1]), calls[|calls| - 1])
  }

  function Request(m: Maths, call: Call, i: nat): real
    requires call.WellFormed() && i < 4
  {
    match call
    case DriveCall(demands) => Heading(m, demands[i])
    case BrakeCall(angles) => Fmod360(angles[i] + 270.0)
  }

  /** In every reachable state each history lies in [0, 360), is the last request, and agrees
      with the setpoint up to the reversal of the wheel. */
  lemma {:induction false} RunKeepsSync(m: Maths, calls: seq<Call>)
    requires m.Valid() && forall c | c in calls :: c.WellFormed()
    ensures AllInSync(Run(m, calls))
    ensures calls != [] ==> forall i: nat | i < 4 :: Congruent(Run(m, calls)[i].past, Request(m, calls[|calls| - 1], i))
  {
    if calls == [] {
      InitialInSync();
    } else {
      var ws := Run(m, calls[..|calls| - 1]);
      RunKeepsSync(m, calls[..|calls| - 1]);
      forall i: nat | i < 4
        ensures InSync(Run(m, calls)[i]) && Congruent(Run(m, calls)[i].past, Request(m, calls[|calls| - 1], i))
      {
        SteerKeepsSync(ws[i], Request(m, calls[|calls| - 1], i));
      }
    }
  }

  /** Whatever was driven and braked before, a drive call commands the demanded velocities
      times one factor in (0, 1], and every speed is within full speed. */
  lemma DriveAfterAnyRun(m: Maths, calls: seq<Call>, ds: seq<Vec>)
    requires m.Valid() && |ds| == 4 && forall c | c in calls :: c.WellFormed()
    ensures var ws := Run(m, calls + [DriveCall(ds)]);
            var s := Desaturation(Magnitudes(m, ds));
            && 0.0 < s <= 1.0
            && (forall i: nat | i < 4 :: WheelVelocity(m, Speed(m, ws, ds, i), ws[i].setpoint) == Scaled(s, ds[i]))
            && (forall i: nat | i < 4 :: Abs(Speed(m, ws, ds, i)) <= 1.0)
            && (s == 1.0 || exists i: nat | i < 4 :: Abs(Speed(m, ws, ds, i)) == 1.0)
  {
    var all := calls + [DriveCall(ds)];
    assert all[..|all| - 1] == calls;
    var before := Run(m, calls);
    RunKeepsSync(m, calls);
    DesaturationRange(Magnitudes(m, ds));
    SpeedsSaturate(m, Run(m, all), ds);
    forall i: nat | i < 4
      ensures WheelVelocity(m, Speed(m, Run(m, all), ds, i), Run(m, all)[i].setpoint) == Scaled(Desaturation(Magnitudes(m, ds)), ds[i])
    {
      DriveMeaning(m, before, ds, i);
    }
  }

  /** Every drive call of every run turns each wheel by at most a quarter turn, no equivalent
      setpoint is closer, and the tick setpoints move by at most 1025. */
  lemma SteeringAfterAnyRun(m: Maths, calls: seq<Call>, ds: seq<Vec>, i: nat)
    requires m.Valid() && |ds| == 4 && i < 4 && forall c | c in calls :: c.WellFormed()
    ensures var before := Run(m, calls)[i].setpoint;
            var after := Run(m, calls + [DriveCall(ds)])[i].setpoint;
            QuarterTurn(before, after) && Nearest(before, after) && TicksClose(before, after)
  {
    PastInRange(m, calls, i);
    RunStep(m, calls, DriveCall(ds), i);
    HeadingRange(m, ds[i]);
    SmallTurn(Run(m, calls)[i], Heading(m, ds[i]));
  }

  /** The last request to wheel `i`; straight ahead before the first. */
  function LastRequest(m: Maths, calls: seq<Call>, i: nat): real
    requires i < 4 && forall c | c in calls :: c.WellFormed()
  {
    if calls == [] then 0.0 else Request(m, calls[|calls| - 1], i)
  }

  /** After any run a drive call reverses a wheel exactly when its new heading is more than a
      quarter turn from the last request, whichever way round. */
  lemma ReversesAfterAnyRun(m: Maths, calls: seq<Call>, ds: seq<Vec>, i: nat)
    requires m.Valid() && |ds| == 4 && i < 4 && forall c | c in calls :: c.WellFormed()
    ensures Run(m, calls + [DriveCall(ds)])[i].flipped != Run(m, calls)[i].flipped
            <==> BeyondQuarter(Heading(m, ds[i]) - LastRequest(m, calls, i))
  {
    var past := Run(m, calls)[i].past;
    PastInRange(m, calls, i);
    RunKeepsSync(m, calls);
    RunStep(m, calls, DriveCall(ds), i);
    HeadingRange(m, ds[i]);
    ReverseIff(Run(m, calls)[i], Heading(m, ds[i]));
    if calls == [] {
      CongruentBy(past, 0.0, 0);
    }
    SameDistance(Heading(m, ds[i]), past, LastRequest(m, calls, i));
  }

  lemma SameDistance(h: real, a: real, b: real)
    requires Congruent(a, b)
    ensures BeyondQuarter(h - a) <==> BeyondQuarter(h - b)
  {
    CongruentSymmetric(a, b);
    if BeyondQuarter(h - a) {
      NoNearerWay(h, a, b);
    }
    if BeyondQuarter(h - b) {
      NoNearerWay(h, b, a);
    }
  }

  lemma NoNearerWay(h: real, a: real, b: real)
    requires Congruent(a, b) && BeyondQuarter(h - a)
    ensures BeyondQuarter(h - b)
  {
    var j :| a == b + Turns(j);
    forall k: int
      ensures Abs(h - b + Turns(k)) > 90.0
    {
      assert h - b + Turns(k) == h - a + Turns(k + j);
    }
  }

  lemma PastInRange(m: Maths, calls: seq<Call>, i: nat)
    requires m.Valid() && i < 4 && forall c | c in calls :: c.WellFormed()
    ensures 0.0 <= Run(m, calls)[i].past < 360.0
  {
    RunKeepsSync(m, calls);
    assert InSync(Run(m, calls)[i]);
  }

  lemma RunStep(m: Maths, calls: seq<Call>, call: Call, i: nat)
    requires call.WellFormed() && i < 4 && forall c | c in calls :: c.WellFormed()
    ensures Run(m, calls + [call])[i] == Steer(Run(m, calls)[i], Request(m, call, i))
  {
    RunAppend(m, calls, call);
    StepAt(m, Run(m, calls), call, i);
  }

  lemma RunAppend(m: Maths, calls: seq<Call>, call: Call)
    requires call.WellFormed() && forall c | c in calls :: c.WellFormed()
    ensures Run(m, calls + [call]) == Step(m, Run(m, calls), call)
  {
    var all := calls + [call];
    assert all[..|all| - 1] == calls;
  }

  lemma StepAt(m: Maths, ws: seq<Wheel>, call: Call, i: nat)
    requires |ws| == 4 && call.WellFormed() && i < 4
    ensures Step(m, ws, call)[i] == Steer(ws[i], Request(m, call, i))
  {
  }

  lemma SmallTurn(w: Wheel, h: real)
    requires 0.0 <= w.past < 360.0 && -360.0 < h < 360.0
    ensures QuarterTurn(w.setpoint, Steer(w, h).setpoint) <==> h - w.past >= -630.0
    ensures h - w.past >= -630.0 ==> Nearest(w.setpoint, Steer(w, h).setpoint) && TicksClose(w.setpoint, Steer(w, h).setpoint)
  {
    QuarterTurnIff(w, h);
    if h - w.past >= -630.0 {
      TickStepBounded(w, h);
      forall k: int
        ensures Abs(Steer(w, h).setpoint - w.setpoint) <= Abs(HalfTurnsOn(Steer(w, h).setpoint, k) - w.setpoint)
      {
        NoCloserSetpoint(w, h, k);
      }
    }
  }

  /** After any run, a brake call turns a wheel by at most a quarter turn exactly when the wrapped
      brake angle is no more than 630 degrees behind the history; every angle of at least -270
      degrees, as the brake position uses, is fine. */
  lemma BrakeAfterAnyRun(m: Maths, calls: seq<Call>, angles: seq<real>, i: nat)
    requires m.Valid() && |angles| == 4 && i < 4 && forall c | c in calls :: c.WellFormed()
    ensures var before := Run(m, calls)[i];
            var after := Run(m, calls + [BrakeCall(angles)])[i].setpoint;
            && (QuarterTurn(before.setpoint, after) <==> Fmod360(angles[i] + 270.0) - before.past >= -630.0)
            && (angles[i] >= -270.0 ==>
                  QuarterTurn(before.setpoint, after) && Nearest(before.setpoint, after) && TicksClose(before.setpoint, after))
  {
    PastInRange(m, calls, i);
    RunStep(m, calls, BrakeCall(angles), i);
    Fmod360Meaning(angles[i] + 270.0);
    SmallTurn(Run(m, calls)[i], Fmod360(angles[i] + 270.0));
  }

  /** Whatever happened before, these brake angles turn wheel `i` by at most a quarter turn. */
  ghost predicate AlwaysQuarterTurn(m: Maths, angles: seq<real>, i: nat)
    requires |angles| == 4 && i < 4
  {
    forall calls: seq<Call> | forall c | c in calls :: c.WellFormed() ::
      QuarterTurn(Run(m, calls)[i].setpoint, Run(m, calls + [BrakeCall(angles)])[i].setpoint)
  }

  /** What a caller can check: a brake angle is safe after every run exactly when `fmod` of the
      angle plus 270 is at least -270. */
  lemma BrakeIsSafeIff(m: Maths, angles: seq<real>, i: nat)
    requires m.Valid() && |angles| == 4 && i < 4
    ensures AlwaysQuarterTurn(m, angles, i) <==> Fmod360(angles[i] + 270.0) >= -270.0
  {
    var h := Fmod360(angles[i] + 270.0);
    if h >= -270.0 {
      forall calls: seq<Call> | forall c | c in calls :: c.WellFormed()
        ensures QuarterTurn(Run(m, calls)[i].setpoint, Run(m, calls + [BrakeCall(angles)])[i].setpoint)
      {
        PastInRange(m, calls, i);
        BrakeAfterAnyRun(m, calls, angles, i);
      }
    } else {
      Fmod360Meaning(angles[i] + 270.0);
      var past := (h + 990.0) / 2.0;
      var calls := BrakeTo(m, past, i);
      BrakeAfterAnyRun(m, calls, angles, i);
      assert !QuarterTurn(Run(m, calls)[i].setpoint, Run(m, calls + [BrakeCall(angles)])[i].setpoint);
    }
  }

  /** One brake call brings the history to any heading. */
  lemma BrakeTo(m: Maths, past: real, i: nat) returns (calls: seq<Call>)
    requires m.Valid() && 0.0 <= past < 360.0 && i < 4
    ensures calls == [BrakeCall([past - 270.0, past - 270.0, past - 270.0, past - 270.0])] && Run(m, calls)[i].past == past
  {
    var call := BrakeCall([past - 270.0, past - 270.0, past - 270.0, past - 270.0]);
    calls := [call];
    PastInRange(m, calls, i);
    RunKeepsSync(m, calls);
    Fmod360Meaning(past);
    assert call.angles[i] + 270.0 == past;
    CongruentTransitive(Run(m, calls)[i].past, Fmod360(past), past);
    Mod360Unique(Run(m, calls)[i].past, past);
  }

  /** An unsafe one: after braking to 89 degrees, which makes the history 359, the brake angle -629
      turns every wheel by more than a quarter turn. */
  lemma BrakeOverturns(m: Maths, i: nat)
    requires m.Valid() && i < 4
    ensures var calls := [BrakeCall([89.0, 89.0, 89.0, 89.0])];
            && Run(m, calls)[i].past == 359.0
            && !QuarterTurn(Run(m, calls)[i].setpoint, Run(m, calls + [BrakeCall([-629.0, -629.0, -629.0, -629.0])])[i].setpoint)
  {
    var calls := BrakeTo(m, 359.0, i);
    var angles := [-629.0, -629.0, -629.0, -629.0];
    BrakeAfterAnyRun(m, calls, angles, i);
    assert Fmod360(angles[i] + 270.0) == -359.0;
  }

  /** Repeating a call, whatever it is and whatever came before, moves no wheel. */
  lemma RepeatMovesNothing(m: Maths, calls: seq<Call>, call: Call)
    requires m.Valid() && call.WellFormed() && forall c | c in calls :: c.WellFormed()
    ensures Run(m, calls + [call] + [call]) == Run(m, calls + [call])
  {
    var once := calls + [call];
    forall i: nat | i < 4
      ensures Run(m, once + [call])[i] == Run(m, once)[i]
    {
      RunStep(m, calls, call, i);
      RunStep(m, once, call, i);
      RequestRange(m, call, i);
      SteerTwiceIsOnce(Run(m, calls)[i], Request(m, call, i));
    }
  }

  lemma RequestRange(m: Maths, call: Call, i: nat)
    requires call.WellFormed() && i < 4
    ensures -360.0 < Request(m, call, i) < 360.0
  {
    match call
    case DriveCall(demands) => Fmod360Meaning(m.atan2(demands[i].y, demands[i].x) + 270.0);
    case BrakeCall(angles) => Fmod360Meaning(angles[i] + 270.0);
  }
}
