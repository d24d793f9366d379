/** Detects that the gear pivot has come to rest: ten readings in a row close to the one before. */
module ReleaseGear {
  const CLOSE_ENOUGH := 3
  const STABLE_COUNT_REQ := 10

  function Distance(a: int, b: int): nat {
    if a < b then b - a else a - b
  }

  /** The reading before the `k`-th one; before the first it is taken to be zero. */
  function Before(readings: seq<int>, k: nat): int
    requires k < |readings|
  {
    if k == 0 then 0 else readings[k - 1]
  }

  predicate Steady(readings: seq<int>, k: nat)
    requires k < |readings|
  {
    Distance(Before(readings, k), readings[k]) <= CLOSE_ENOUGH
  }

  /** The length of the run of steady readings at the end. */
  function SteadyRun(readings: seq<int>): (n: nat)
    ensures n <= |readings|
  {
    if readings == [] then 0
    else if Steady(readings, |readings| - 1) then SteadyRun(readings[..|readings| - 1]) + 1
    else 0
  }

  lemma {:induction false} SteadyRunMeaning(readings: seq<int>, n: nat)
    requires n <= |readings|
    ensures SteadyRun(readings) >= n <==> forall k: nat | |readings| - n <= k < |readings| :: Steady(readings, k)
  {
    if n > 0 {
      var init := readings[..|readings| - 1];
      SteadyRunMeaning(init, n - 1);
      forall k: nat | k < |init|
        ensures Steady(init, k) == Steady(readings, k)
      {
      }
    }
  }

  lemma {:induction false} DriftBounded(readings: seq<int>, n: nat)
    requires 0 < n <= |readings| && SteadyRun(readings) >= n
    ensures Distance(Before(readings, |readings| - n), readings[|readings| - 1]) <= n * CLOSE_ENOUGH
  {
    SteadyRunMeaning(readings, n);
    if n > 1 {
      var init := readings[..|readings| - 1];
      DriftBounded(init, n - 1);
    }
  }

  /** The last ten readings were each close to the one before. */
  predicate AtRest(readings: seq<int>) {
    && |readings| >= STABLE_COUNT_REQ
    && forall k: nat | |readings| - STABLE_COUNT_REQ <= k < |readings| :: Steady(readings, k)
  }

  /** In numbers: ten readings in a row, each within 3 of the one before, the first of all counting
      from zero. */
  lemma AtRestMeans(readings: seq<int>)
    ensures AtRest(readings) <==>
              && |readings| >= 10
              && forall k: nat | |readings| - 10 <= k < |readings| ::
                   -3 <= readings[k] - (if k == 0 then 0 else readings[k - 1]) <= 3
  {
    if |readings| >= 10 {
      forall k: nat | k < |readings|
        ensures Steady(readings, k) <==> -3 <= readings[k] - (if k == 0 then 0 else readings[k - 1]) <= 3
      {
      }
    }
  }

  lemma AtRestIff(readings: seq<int>)
    ensures AtRest(readings) <==> SteadyRun(readings) >= STABLE_COUNT_REQ
    ensures AtRest(readings) ==> Distance(Before(readings, |readings| - STABLE_COUNT_REQ), readings[|readings| - 1]) <= 30
  {
    if |readings| >= STABLE_COUNT_REQ {
      SteadyRunMeaning(readings, STABLE_COUNT_REQ);
      if AtRest(readings) {
        DriftBounded(readings, STABLE_COUNT_REQ);
      }
    }
  }

  class ReleaseGear {
    var stableCount: nat
    var pivotPos: int
    /** The readings since Initialize, and whether the command has finished. */
    ghost var readings: seq<int>
    ghost var done: bool

    ghost predicate Valid()
      reads this
    {
      !done ==> pivotPos == (if readings == [] then 0 else readings[|readings| - 1])
                && stableCount == SteadyRun(readings) < STABLE_COUNT_REQ
    }

    constructor ()
      ensures Valid() && !done && readings == []
    {
      stableCount, pivotPos, readings, done := 0, 0, [], false;
    }

    method Initialize()
      modifies this
      ensures Valid() && !done && readings == []
    {
      stableCount := 0;
      pivotPos := 0;
      readings := [];
      done := false;
    }

    /** Until it has finished, it finishes exactly when the last ten readings were all steady. */
    method IsFinished(pos: int) returns (finished: bool)
      requires Valid()
      modifies this
      ensures Valid() && readings == old(readings) + [pos] && done == (old(done) || finished)
      ensures !old(done) ==> (finished <==> AtRest(readings))
      ensures !old(done) && finished ==> Distance(Before(readings, |readings| - STABLE_COUNT_REQ), pos) <= 30
    {
      ghost var before := readings;
      readings := readings + [pos];
      assert readings[..|readings| - 1] == before;
      AtRestIff(readings);
      if Distance(pivotPos, pos) <= CLOSE_ENOUGH {
        stableCount := stableCount + 1;
      } else {
        stableCount := 0;
      }
      if stableCount == STABLE_COUNT_REQ {
        done := true;
        return true;
      }
      pivotPos := pos;
      return false;
    }
  }
}
