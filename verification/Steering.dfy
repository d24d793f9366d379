/** The azimuth optimiser of one swerve wheel, as a function on values.

    A wheel remembers an unbounded accumulated `setpoint`, the last requested heading `past`
    wrapped to [0, 360), and whether it currently drives backwards. A request `h` is an
    `fmod` result, so it lies in (-360, 360).
  */
module Steering {
  import opened Maths

  datatype Wheel = Wheel(setpoint: real, past: real, flipped: bool)

  const INITIAL_WHEEL := Wheel(0.0, 0.0, false)

  function HalfTurn(flipped: bool): real {
    if flipped then 180.0 else 0.0
  }

  /** The wheel line agrees with the history: the setpoint is the last requested heading,
      turned half way round when the wheel runs backwards. */
  ghost predicate InSync(w: Wheel) {
    && 0.0 <= w.past < 360.0
    && Congruent(w.setpoint, w.past + HalfTurn(w.flipped))
  }

  /** Reference form of one steering step: reduce the requested change to [0, 360), then go
      forwards by at most 90 degrees, backwards by at most 90 degrees, or reverse the wheel.
      A request more than 540 degrees behind the history is always reversed. */
  function Steer(w: Wheel, h: real): Wheel {
    var turn := Mod360(h - w.past);
    if turn <= 90.0 && h - w.past >= -540.0 then
      Wheel(w.setpoint + turn, Mod360(h), w.flipped)
    else if turn < 270.0 then
      Wheel(w.setpoint + turn - 180.0, Mod360(h), !w.flipped)
    else
      Wheel(w.setpoint + turn - 360.0, Mod360(h), w.flipped)
  }

  lemma InitialInSync()
    ensures InSync(INITIAL_WHEEL)
  {
    CongruentBy(0.0, 0.0 + HalfTurn(false), 0);
  }

  /** History becomes the request, and the setpoint stays on the wheel line of the history,
      for every request and whatever the wheel did before. */
  lemma SteerKeepsSync(w: Wheel, h: real)
    requires InSync(w)
    ensures InSync(Steer(w, h))
    ensures Congruent(Steer(w, h).past, h)
  {
    var w' := Steer(w, h);
    var turn := Mod360(h - w.past);
    Mod360Meaning(h);
    Mod360Meaning(h - w.past);
    CongruentSum(w.setpoint, w.past + HalfTurn(w.flipped), turn, h - w.past);
    CongruentSymmetric(w'.past, h);
    CongruentSum(w.setpoint + turn, h + HalfTurn(w.flipped), h, w'.past);
    assert Congruent(w.setpoint + turn, w'.past + HalfTurn(w.flipped)) by {
      var k :| w.setpoint + turn + h == h + HalfTurn(w.flipped) + w'.past + Turns(k);
      CongruentBy(w.setpoint + turn, w'.past + HalfTurn(w.flipped), k);
    }
    var k :| w.setpoint + turn == w'.past + HalfTurn(w.flipped) + Turns(k);
    if w'.flipped == w.flipped {
      CongruentBy(w'.setpoint, w'.past + HalfTurn(w'.flipped), if w'.setpoint == w.setpoint + turn then k else k - 1);
    } else {
      CongruentBy(w'.setpoint, w'.past + HalfTurn(w'.flipped), if w.flipped then k else k - 1);
    }
  }

  /** A step turns the wheel by at most a quarter turn exactly when the request is no more
      than 630 degrees behind the history. */
  lemma QuarterTurnIff(w: Wheel, h: real)
    requires 0.0 <= w.past < 360.0 && -360.0 < h < 360.0
    ensures Abs(Steer(w, h).setpoint - w.setpoint) <= 90.0 <==> h - w.past >= -630.0
  {
    Mod360Meaning(h - w.past);
    if h - w.past < -540.0 {
      assert Mod360(h - w.past) == h - w.past + 720.0 by {
        CongruentBy(Mod360(h - w.past), h - w.past + 720.0, -((h - w.past) / 360.0).Floor - 2);
        Mod360Unique(Mod360(h - w.past), h - w.past + 720.0);
      }
    }
  }

  /** No other setpoint on the same wheel line is closer: `target` ranges over every angle
      that differs from the new setpoint by half turns. */
  lemma NoCloserSetpoint(w: Wheel, h: real, halfTurns: int)
    requires 0.0 <= w.past < 360.0 && -360.0 < h < 360.0
    requires h - w.past >= -630.0
    ensures Abs(Steer(w, h).setpoint - w.setpoint)
         <= Abs(HalfTurnsOn(Steer(w, h).setpoint, halfTurns) - w.setpoint)
  {
    QuarterTurnIff(w, h);
    var d := Steer(w, h).setpoint - w.setpoint;
    if halfTurns >= 1 {
      assert d + 180.0 * (halfTurns as real) >= d + 180.0;
    } else if halfTurns <= -1 {
      assert d + 180.0 * (halfTurns as real) <= d - 180.0;
    }
  }

  /** No way round to a change of heading is within a quarter turn. */
  ghost predicate BeyondQuarter(change: real) {
    forall k: int :: Abs(change + Turns(k)) > 90.0
  }

  /** The wheel is reversed exactly when no way round is within a quarter turn: a change of exactly
      a quarter turn either way is steered, not reversed. */
  lemma ReverseIff(w: Wheel, h: real)
    requires 0.0 <= w.past < 360.0 && -360.0 < h < 360.0 && h - w.past >= -540.0
    ensures Steer(w, h).flipped != w.flipped <==> BeyondQuarter(h - w.past)
  {
    var turns := ((h - w.past) / 360.0).Floor;
    var turn := Mod360(h - w.past);
    Mod360Meaning(h - w.past);
    assert h - w.past + Turns(-turns) == turn;
    assert h - w.past + Turns(-turns - 1) == turn - 360.0;
    if 90.0 < turn < 270.0 {
      forall k: int
        ensures Abs(h - w.past + Turns(k)) > 90.0
      {
        assert h - w.past + Turns(k) == turn + Turns(k + turns);
      }
    }
  }

  /** A request further behind than a turn and a half, which only a brake angle can make, always
      reverses the wheel, and moves it by the change plus that turn and a half. */
  lemma FarBehind(w: Wheel, h: real)
    requires 0.0 <= w.past < 360.0 && -360.0 < h < 360.0 && h - w.past < -540.0
    ensures Steer(w, h).flipped != w.flipped
    ensures Steer(w, h).setpoint - w.setpoint == h - w.past + 540.0
  {
    Mod360Meaning(h - w.past);
    CongruentBy(Mod360(h - w.past), h - w.past + 720.0, -((h - w.past) / 360.0).Floor - 2);
    Mod360Unique(Mod360(h - w.past), h - w.past + 720.0);
  }

  /** A step is determined by what it promises: the new state is the only one that is in step with
      the request, turns the wheel by at most a quarter, and reverses it only when it must. */
  lemma SteerIsOnly(w: Wheel, h: real, w': Wheel)
    requires InSync(w) && -360.0 < h < 360.0 && h - w.past >= -540.0
    ensures w' == Steer(w, h) <==>
            && InSync(w') && Congruent(w'.past, h)
            && QuarterTurn(w.setpoint, w'.setpoint)
            && (w'.flipped != w.flipped <==> BeyondQuarter(h - w.past))
  {
    var s := Steer(w, h);
    SteerKeepsSync(w, h);
    QuarterTurnIff(w, h);
    ReverseIff(w, h);
    if && InSync(w') && Congruent(w'.past, h) && QuarterTurn(w.setpoint, w'.setpoint)
       && (w'.flipped != w.flipped <==> BeyondQuarter(h - w.past)) {
      CongruentSymmetric(s.past, h);
      CongruentTransitive(w'.past, h, s.past);
      Mod360Unique(w'.past, s.past);
      SameLine(w'.setpoint, s.setpoint, s.past + HalfTurn(s.flipped));
    }
  }

  lemma SameLine(a: real, b: real, line: real)
    requires Congruent(a, line) && Congruent(b, line) && -360.0 < a - b < 360.0
    ensures a == b
  {
    var j :| a == line + Turns(j);
    var k :| b == line + Turns(k);
    assert a - b == Turns(j - k);
  }

  /** Asking again for the heading just requested moves nothing. */
  lemma SteerTwiceIsOnce(w: Wheel, h: real)
    requires -360.0 < h < 360.0
    ensures Steer(Steer(w, h), h) == Steer(w, h)
  {
    Mod360Meaning(h);
    var d := h - Mod360(h);
    Mod360Meaning(d);
    CongruentBy(d, 0.0, (h / 360.0).Floor);
    CongruentTransitive(Mod360(d), d, 0.0);
    Mod360Unique(Mod360(d), 0.0);
  }

  /** The angle sent to an azimuth Talon, in encoder ticks. */
  function Ticks(setpoint: real): int {
    Round(setpoint * 2048.0 / 180.0)
  }

  /** A whole turn is 4096 ticks: the tick setpoint is within half a tick of the angle, and away
      from zero when it is exactly half a tick off. */
  lemma TicksMeaning(setpoint: real)
    ensures Abs(Ticks(setpoint) as real - setpoint * 4096.0 / 360.0) <= 0.5
    ensures Abs(Ticks(setpoint) as real - setpoint * 4096.0 / 360.0) == 0.5 ==>
              Abs(Ticks(setpoint) as real) > Abs(setpoint * 4096.0 / 360.0)
  {
    RoundIsNearest(setpoint * 2048.0 / 180.0);
  }

  /** Consecutive tick setpoints are at most 1025 apart. */
  lemma TickStepBounded(w: Wheel, h: real)
    requires 0.0 <= w.past < 360.0 && -360.0 < h < 360.0
    requires h - w.past >= -630.0
    ensures -1025 <= Ticks(Steer(w, h).setpoint) - Ticks(w.setpoint) <= 1025
  {
    QuarterTurnIff(w, h);
    RoundIsNearest(Steer(w, h).setpoint * 2048.0 / 180.0);
    RoundIsNearest(w.setpoint * 2048.0 / 180.0);
  }

  predicate QuarterTurn(before: real, after: real) {
    Abs(after - before) <= 90.0
  }

  predicate TicksClose(before: real, after: real) {
    -1025 <= Ticks(after) - Ticks(before) <= 1025
  }

  /** No setpoint that differs from `after` by whole half turns is closer to `before`. */
  ghost predicate Nearest(before: real, after: real) {
    forall k: int :: Abs(after - before) <= Abs(HalfTurnsOn(after, k) - before)
  }

  function HalfTurnsOn(angle: real, k: int): real {
    angle + 180.0 * (k as real)
  }

  /** 1025 is reached: a quarter turn across zero rounds away from zero at both ends. */
  lemma TickStepIsTight()
    ensures exists w: Wheel, h: real :: InSync(w) && 0.0 <= h < 360.0 && Ticks(Steer(w, h).setpoint) - Ticks(w.setpoint) == 1025
  {
    var low := -1023.5 * 180.0 / 2048.0;
    var w := Wheel(low, low + 360.0, false);
    var h := 0.5 * 180.0 / 2048.0;
    CongruentBy(low, low + 360.0 + HalfTurn(false), -1);
    assert h - w.past == -270.0;
    assert Steer(w, h).setpoint == h;
    assert InSync(w) && 0.0 <= h < 360.0 && Ticks(Steer(w, h).setpoint) - Ticks(w.setpoint) == 1025;
  }

  /** The velocity a wheel produces: driven at `speed` along its setpoint. Setpoint zero
      points straight ahead, which is 90 degrees in (strafe, forward) axes. */
  function WheelVelocity(m: Maths, speed: real, setpoint: real): Vec {
    m.Along(speed, setpoint - 270.0)
  }

  function Signed(flipped: bool, magnitude: real): real {
    if flipped then -magnitude else magnitude
  }

  /** The speed sent to a drive motor: negative when the wheel runs backwards. */
  function SignedSpeed(flipped: bool, magnitude: real, scale: real): real {
    Signed(flipped, magnitude) * scale
  }

  /** The heading request for a demanded velocity. */
  function Heading(m: Maths, demand: Vec): real {
    Fmod360(m.atan2(demand.y, demand.x) + 270.0)
  }

  /** `fmod` is only applied to non-negative angles when driving, so the request is the wrapped
      angle of the demand, counted from straight ahead. */
  lemma HeadingRange(m: Maths, demand: Vec)
    requires m.Valid()
    ensures 0.0 <= Heading(m, demand) < 360.0
    ensures Congruent(Heading(m, demand), m.atan2(demand.y, demand.x) - 90.0)
  {
    var a := m.atan2(demand.y, demand.x);
    assert m.PolarAt(demand.x, demand.y);
    Fmod360Meaning(a + 270.0);
    CongruentBy(a + 270.0, a - 90.0, 1);
    CongruentTransitive(Fmod360(a + 270.0), a + 270.0, a - 90.0);
  }

  /** The direction of a steered wheel is that of its demand, reversed when the wheel is. */
  lemma SteeredDirection(m: Maths, w: Wheel, demand: Vec)
    requires m.Valid() && InSync(w)
    ensures var w' := Steer(w, Heading(m, demand));
            var a := m.atan2(demand.y, demand.x);
            && m.cos(w'.setpoint - 270.0) == Signed(w'.flipped, m.cos(a))
            && m.sin(w'.setpoint - 270.0) == Signed(w'.flipped, m.sin(a))
  {
    var a := m.atan2(demand.y, demand.x);
    var h := Heading(m, demand);
    var w' := Steer(w, h);
    SteerKeepsSync(w, h);
    Fmod360Meaning(a + 270.0);
    CongruentTransitive(w'.past, h, a + 270.0);
    var j :| w'.past == a + 270.0 + Turns(j);
    var k :| w'.setpoint == w'.past + HalfTurn(w'.flipped) + Turns(k);
    CongruentBy(w'.setpoint - 270.0, a + HalfTurn(w'.flipped), j + k);
    m.SameHeading(w'.setpoint - 270.0, a + HalfTurn(w'.flipped));
    assert m.HalfTurnAt(a);
  }

  /** The pair (setpoint, signed speed) of a steered wheel means exactly the demanded
      velocity, scaled by whatever factor the speed was scaled by, for every past. */
  lemma SteeredVelocity(m: Maths, w: Wheel, demand: Vec, scale: real)
    requires m.Valid() && InSync(w)
    ensures var w' := Steer(w, Heading(m, demand));
            WheelVelocity(m, SignedSpeed(w'.flipped, m.Hypot(demand.x, demand.y), scale), w'.setpoint)
            == Scaled(scale, demand)
  {
    var a := m.atan2(demand.y, demand.x);
    SteeredDirection(m, w, demand);
    assert m.PolarAt(demand.x, demand.y);
    Recombine(Steer(w, Heading(m, demand)).flipped, m.Hypot(demand.x, demand.y), m.cos(a), scale);
    Recombine(Steer(w, Heading(m, demand)).flipped, m.Hypot(demand.x, demand.y), m.sin(a), scale);
  }

  lemma Recombine(flipped: bool, size: real, direction: real, scale: real)
    ensures SignedSpeed(flipped, size, scale) * Signed(flipped, direction) == scale * (size * direction)
  {
  }
}
