/** The eight-barrel cannon: Fire, Reset and the one-shot timer that closes the solenoid, each
    atomic under the cannon's lock and interleaved in any order. */
module Cannon {
  const BARRELS := 8

  /** The cannon with its environment: `pending` counts one-shot timers not yet expired. */
  datatype State = State(barrel: int, firing: bool, solenoids: seq<bool>, pending: nat)

  datatype Event = Fire | Reset | Timer

  function Closed(): (s: seq<bool>)
    ensures |s| == BARRELS && forall i | 0 <= i < BARRELS :: !s[i]
  {
    seq(BARRELS, _ => false)
  }

  const START := State(-1, false, Closed(), 0)

  /** The transitions are total, so that a run assumes nothing about the barrel: a write outside the
      solenoids is ignored here, and `AlwaysSafe` proves that no run makes one. */
  function Written(solenoids: seq<bool>, barrel: int, open: bool): seq<bool> {
    if 0 <= barrel < |solenoids| then solenoids[barrel := open] else solenoids
  }

  /** The barrel that a Fire would open. */
  function Following(barrel: int): int {
    if barrel == 7 then 0 else barrel + 1
  }

  function Fired(s: State): State {
    if s.firing then s
    else State(Following(s.barrel), true, Written(s.solenoids, Following(s.barrel), true), s.pending + 1)
  }

  function TimerExpired(s: State): State {
    State(s.barrel, false, Written(s.solenoids, s.barrel, false), if s.pending > 0 then s.pending - 1 else 0)
  }

  function WasReset(s: State): State {
    if s.firing then s else s.(barrel := -1)
  }

  /** While firing exactly the current barrel is open and one timer is running; otherwise all
      barrels are closed and no timer is running. */
  ghost predicate Safe(s: State) {
    && |s.solenoids| == 8
    && -1 <= s.barrel <= 7
    && (forall i | 0 <= i < 8 :: s.solenoids[i] <==> s.firing && i == s.barrel)
    && s.pending == (if s.firing then 1 else 0)
    && (s.firing ==> s.barrel >= 0)
  }

  /** The timer event needs a running timer. */
  predicate Enabled(s: State, e: Event) {
    e.Timer? ==> s.pending > 0
  }

  function Next(s: State, e: Event): State {
    match e
    case Fire => Fired(s)
    case Reset => WasReset(s)
    case Timer => TimerExpired(s)
  }

  /** The barrel an event writes stays inside the array of solenoids. */
  predicate InRange(s: State, e: Event) {
    match e
    case Fire => s.firing || 0 <= Following(s.barrel) < |s.solenoids|
    case Reset => true
    case Timer => 0 <= s.barrel < |s.solenoids|
  }

  ghost predicate IsRun(events: seq<Event>, trace: seq<State>) {
    && |trace| == |events| + 1 && trace[0] == START
    && forall k: nat | k < |events| :: Enabled(trace[k], events[k]) && trace[k + 1] == Next(trace[k], events[k])
  }

  // ------------------------------------------------------------------ the history alone

  /** A shot is in the air when the last accepted Fire has not been closed: decided from the
      events, without looking at the cannon. */
  predicate InFlight(events: seq<Event>) {
    if events == [] then false
    else
      var last := events[|events| - 1];
      last.Fire? || (last.Reset? && InFlight(events[..|events| - 1]))
  }

  /** Fires accepted since the last accepted Reset. */
  function Shots(events: seq<Event>): nat {
    if events == [] then 0
    else
      var before := events[..|events| - 1];
      match events[|events| - 1]
      case Fire => if InFlight(before) then Shots(before) else Shots(before) + 1
      case Reset => if InFlight(before) then Shots(before) else 0
      case Timer => Shots(before)
  }

  /** The barrel last opened by that many shots from reset. */
  function BarrelAfter(shots: nat): int {
    if shots == 0 then -1 else (shots - 1) % 8
  }

  lemma NextBarrel(shots: nat)
    ensures Following(BarrelAfter(shots)) == BarrelAfter(shots + 1) == shots % 8
  {
  }

  lemma StepKeepsSafe(s: State, e: Event)
    requires Safe(s) && Enabled(s, e)
    ensures Safe(Next(s, e)) && InRange(s, e)
  {
  }

  /** Every interleaving is safe; the k-th accepted Fire since the last accepted Reset, counting
      from zero, is in barrel k mod 8; a timer only expires while the cannon is firing; and no
      event ever writes outside the solenoids. */
  lemma {:induction false} AlwaysSafe(events: seq<Event>, trace: seq<State>, n: nat)
    requires IsRun(events, trace) && n <= |events|
    ensures Safe(trace[n])
    ensures trace[n].firing <==> InFlight(events[..n])
    ensures trace[n].barrel == BarrelAfter(Shots(events[..n]))
    ensures n < |events| ==> InRange(trace[n], events[n])
    ensures n < |events| && events[n].Timer? ==> trace[n].firing
  {
    if n > 0 {
      AlwaysSafe(events, trace, n - 1);
      StepKeepsSafe(trace[n - 1], events[n - 1]);
      NextBarrel(Shots(events[..n - 1]));
      assert events[..n][..n - 1] == events[..n - 1];
    }
    if n < |events| {
      StepKeepsSafe(trace[n], events[n]);
    }
  }

  /** What a Fire event does in any run: nothing while a shot is in flight, otherwise it opens
      the barrel after the last one, and only that one. */
  lemma FireOpens(events: seq<Event>, trace: seq<State>, n: nat)
    requires IsRun(events, trace) && n < |events| && events[n].Fire?
    ensures InFlight(events[..n]) ==> trace[n + 1] == trace[n]
    ensures !InFlight(events[..n]) ==>
              trace[n + 1].solenoids == Closed()[Shots(events[..n]) % 8 := true]
  {
    AlwaysSafe(events, trace, n);
    NextBarrel(Shots(events[..n]));
  }

  class Cannon {
    const solenoids: array<bool>
    var barrel: int
    var firing: bool
    /** One-shot timers started and not yet expired. */
    ghost var pending: nat

    ghost predicate Valid()
      reads this, solenoids
    {
      Safe(Contents())
    }

    ghost function Contents(): State
      reads this, solenoids
    {
      State(barrel, firing, solenoids[..], pending)
    }

    constructor ()
      ensures Valid() && Contents() == START && fresh(solenoids)
    {
      solenoids := new bool[BARRELS](_ => false);
      barrel := -1;
      firing := false;
      pending := 0;
    }

    method Fire()
      requires Valid()
      modifies this, solenoids
      ensures Valid() && Contents() == Fired(old(Contents()))
    {
      if firing {
        return;
      }
      if barrel == 7 {
        barrel := -1;
      }
      barrel := barrel + 1;
      solenoids[barrel] := true;
      firing := true;
      pending := pending + 1;
    }

    /** The timer callback. */
    method CloseSolenoid()
      requires Valid() && pending > 0
      modifies this, solenoids
      ensures Valid() && Contents() == TimerExpired(old(Contents()))
    {
      solenoids[barrel] := false;
      firing := false;
      pending := pending - 1;
    }

    method Reset()
      requires Valid()
      modifies this
      ensures Valid() && Contents() == WasReset(old(Contents()))
    {
      if firing {
        return;
      }
      barrel := -1;
    }
  }
}
