/** The simple moving average of joystick inputs, kept in a ring buffer. */
module Sma {
  import Maths

  function Sum(xs: seq<real>): real {
    if xs == [] then 0.0 else Sum(xs[..|xs| - 1]) + xs[|xs| - 1]
  }

  lemma {:induction false} SumOfParts(xs: seq<real>, ys: seq<real>)
    ensures Sum(xs + ys) == Sum(xs) + Sum(ys)
  {
    if ys == [] {
      assert xs + ys == xs;
    } else {
      assert (xs + ys)[..|xs + ys| - 1] == xs + ys[..|ys| - 1];
      SumOfParts(xs, ys[..|ys| - 1]);
    }
  }

  ghost predicate Within(xs: seq<real>, low: real, high: real) {
    forall x | x in xs :: low <= x <= high
  }

  /** A mean lies between the least and the greatest value; the mean of equal values is that value. */
  lemma MeanWithin(xs: seq<real>, low: real, high: real)
    requires xs != [] && Within(xs, low, high)
    ensures low <= Sum(xs) / (|xs| as real) <= high
  {
    SumWithin(xs, low, high);
    QuotientWithin(Sum(xs), |xs| as real, low, high);
  }

  lemma {:induction false} SumWithin(xs: seq<real>, low: real, high: real)
    requires Within(xs, low, high)
    ensures Times(|xs|, low) <= Sum(xs) <= Times(|xs|, high)
  {
    if xs != [] {
      var n := |xs| - 1;
      assert forall x | x in xs[..n] :: x in xs;
      SumWithin(xs[..n], low, high);
      assert xs[n] in xs;
      OneMore(n, low);
      OneMore(n, high);
    }
  }

  function Times(n: nat, a: real): real {
    (n as real) * a
  }

  lemma OneMore(n: nat, a: real)
    ensures Times(n + 1, a) == Times(n, a) + a
  {
    assert (n + 1) as real == n as real + 1.0;
  }

  lemma QuotientWithin(sum: real, n: real, low: real, high: real)
    requires n > 0.0 && n * low <= sum <= n * high
    ensures low <= sum / n <= high
  {
    var q := sum / n;
    assert q * n == sum;
    if q < low {
      var p := Maths.SameSign(low - q, n);
    }
    if q > high {
      var p := Maths.SameSign(q - high, n);
    }
  }

  /** The last `n` elements, or all of them when there are fewer. */
  function LastN<T>(xs: seq<T>, n: nat): (ys: seq<T>)
    ensures |ys| == if |xs| < n then |xs| else n
  {
    if |xs| <= n then xs else xs[|xs| - n..]
  }

  lemma {:induction false} SumOfTail(xs: seq<real>)
    requires xs != []
    ensures Sum(xs) == xs[0] + Sum(xs[1..])
  {
    if |xs| > 1 {
      SumOfTail(xs[..|xs| - 1]);
      assert xs[..|xs| - 1][1..] == xs[1..][..|xs| - 2];
    }
  }

  lemma LastNIsTail<T>(xs: seq<T>, n: nat, i: nat)
    requires i < |LastN(xs, n)|
    ensures LastN(xs, n)[i] == xs[|xs| - |LastN(xs, n)| + i]
  {
  }

  /** The new window: append, and drop the oldest value when there are too many. */
  lemma LastNAppend<T>(xs: seq<T>, x: T, n: nat)
    requires n >= 1
    ensures LastN(xs + [x], n) == (if |xs| >= n then LastN(xs, n)[1..] else LastN(xs, n)) + [x]
  {
  }

  /** The live part of the ring: from `head` up to `tail`, wrapping at the end of the buffer. */
  function Live(buffer: seq<real>, head: nat, tail: nat): seq<real>
    requires head < |buffer| && tail < |buffer|
  {
    if head < tail then buffer[head..tail] else buffer[head..] + buffer[..tail]
  }

  function Next(p: nat, period: nat): nat {
    if p + 1 >= period then 0 else p + 1
  }

  lemma LiveWrite(buffer: seq<real>, head: nat, tail: nat, x: real)
    requires head < |buffer| && tail < |buffer| && head != tail
    ensures Live(buffer[tail := x], head, Next(tail, |buffer|)) == Live(buffer, head, tail) + [x]
  {
    var written := buffer[tail := x];
    if head < tail {
      assert written[head..tail + 1] == buffer[head..tail] + [x];
      if tail + 1 == |buffer| {
        assert written[head..] + written[..0] == written[head..tail + 1];
      }
    } else {
      assert written[..tail + 1] == buffer[..tail] + [x];
      assert written[head..] == buffer[head..];
    }
  }

  /** Overwriting the oldest value of a full ring. */
  lemma LiveOverwrite(buffer: seq<real>, head: nat, x: real)
    requires head < |buffer|
    ensures Live(buffer[head := x], Next(head, |buffer|), Next(head, |buffer|)) == Live(buffer, head, head)[1..] + [x]
    ensures Live(buffer, head, head)[0] == buffer[head]
  {
    var written := buffer[head := x];
    assert Live(buffer, head, head)[1..] == buffer[head + 1..] + buffer[..head];
    assert written[..head + 1] == buffer[..head] + [x];
    assert written[head + 1..] == buffer[head + 1..];
    if head + 1 == |buffer| {
      assert written[0..] + written[..0] == written[..head + 1];
    }
  }

  lemma ModOnce(a: int, p: int)
    requires 0 <= a < 2 * p
    ensures a % p == if a < p then a else a - p
  {
    Multiples(a / p, p);
  }

  lemma Multiples(q: int, p: int)
    requires p > 0
    ensures q >= 2 ==> q * p >= 2 * p
    ensures q <= -1 ==> q * p <= -p
  {
  }

  class SMA {
    const period: nat
    const window: array<real>
    /** Index of the oldest value, or -1 before the first one. */
    var head: int
    /** Index of the slot the next value goes to. */
    var tail: int
    var total: real
    ghost var inputs: seq<real>

    ghost predicate Valid()
      reads this, window
    {
      && period >= 1 && window.Length == period
      && if head == -1 then inputs == []
         else
           && inputs != [] && 0 <= head < period && 0 <= tail < period
           && Live(window[..], head, tail) == LastN(inputs, period)
           && total == Sum(LastN(inputs, period))
    }

    constructor (period: nat)
      requires period >= 1
      ensures Valid() && this.period == period && inputs == [] && fresh(window)
    {
      this.period := period;
      window := new real[period](_ => 0.0);
      head := -1;
      tail := -1;
      total := 0.0;
      inputs := [];
    }

    method Inc(p: int) returns (q: int)
      requires 0 <= p < period
      ensures q == Next(p, period)
    {
      q := p + 1;
      if q >= period {
        q := 0;
      }
    }

    method Size() returns (n: int)
      requires Valid()
      ensures n == |LastN(inputs, period)|
    {
      if head == -1 {
        return 0;
      }
      if head == tail {
        return period;
      }
      ModOnce(period + tail - head, period);
      return (period + tail - head) % period;
    }

    /** Adds a value; the result is the mean of the last `period` inputs. */
    method Add(val: real) returns (average: real)
      requires Valid()
      modifies this, window
      ensures Valid() && inputs == old(inputs) + [val]
      ensures average == Sum(LastN(inputs, period)) / (|LastN(inputs, period)| as real)
      ensures forall low: real, high: real | Within(LastN(inputs, period), low, high) :: low <= average <= high
    {
      if head == -1 {
        StoreFirst(val);
      } else {
        Store(val);
      }
      var n := Size();
      average := total / (n as real);
      forall low: real, high: real | Within(LastN(inputs, period), low, high)
        ensures low <= average <= high
      {
        MeanWithin(LastN(inputs, period), low, high);
      }
    }

    method StoreFirst(val: real)
      requires Valid() && head == -1
      modifies this, window
      ensures Valid() && inputs == old(inputs) + [val]
    {
      head := 0;
      window[head] := val;
      tail := Inc(head);
      total := val;
      inputs := inputs + [val];
      assert inputs == [val] && LastN(inputs, period) == [val];
      assert Live(window[..], head, tail) == [val];
    }

    method Store(val: real)
      requires Valid() && head != -1
      modifies this, window
      ensures Valid() && inputs == old(inputs) + [val]
    {
      ghost var kept := Live(window[..], head, tail);
      LastNAppend(inputs, val, period);
      if head == tail {
        LiveOverwrite(window[..], head, val);
        SumOfTail(kept);
        total := total - window[head];
        kept := kept[1..];
        head := Inc(head);
      } else {
        LiveWrite(window[..], head, tail, val);
      }
      Push(val, kept);
      inputs := inputs + [val];
    }

    /** Writes the value in the free slot and adds it to the cached total. */
    method Push(val: real, ghost kept: seq<real>)
      requires window.Length == period >= 1 && 0 <= head < period && 0 <= tail < period
      requires Live(window[..][tail := val], head, Next(tail, period)) == kept + [val]
      requires total == Sum(kept)
      modifies this`tail, this`total, window
      ensures tail == Next(old(tail), period)
      ensures Live(window[..], head, tail) == kept + [val] && total == Sum(kept + [val])
    {
      ghost var was := window[..];
      window[tail] := val;
      assert window[..] == was[tail := val];
      tail := Inc(tail);
      total := total + val;
      assert (kept + [val])[..|kept|] == kept;
    }
  }
}
