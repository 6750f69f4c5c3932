/** The simple moving average filter (src/filter_sma.c), over real numbers. */
module MovingAverage {
  import opened Means

  const WINDOW_MAX: nat := 32

  /** The last `n` elements, or all if there are fewer. */
  function LastOf(s: seq<real>, n: nat): (t: seq<real>)
    ensures |t| == if |s| < n then |s| else n
  {
    if |s| <= n then s else s[|s| - n..]
  }

  // --------------------------------------------------------------------------------------------
  // The ring buffer

  /** The occupied slots, oldest first. */
  function Slots(d: seq<real>, index: nat, used: nat, window: nat): (live: seq<real>)
    requires index < window && used <= window <= |d|
    ensures |live| == used
  {
    if used < window then d[..used] else d[index..window] + d[..index]
  }

  /** What a new input does to the occupied slots. */
  function Pushed(live: seq<real>, window: nat, x: real): seq<real>
    requires window > 0
  {
    (if |live| < window then live else live[1..]) + [x]
  }

  /** A new input pushes the oldest one out of a full window. */
  lemma LastOfAppend(s: seq<real>, n: nat, x: real)
    requires n > 0
    ensures LastOf(s + [x], n) == Pushed(LastOf(s, n), n, x)
  {
  }

  lemma SlotsPush(d: seq<real>, index: nat, used: nat, window: nat, x: real)
    requires index < window && used <= window <= |d| && (used < window ==> index == used)
    ensures Slots(d[index := x], if index + 1 == window then 0 else index + 1, if used < window then used + 1 else used, window)
              == Pushed(Slots(d, index, used, window), window, x)
    ensures used == window ==> d[index] == Slots(d, index, used, window)[0]
  {
  }

  lemma Wraps(index: nat, window: nat)
    requires index < window
    ensures (index + 1) % window == if index + 1 == window then 0 else index + 1
  {
  }

  lemma SumPushed(live: seq<real>, window: nat, x: real)
    requires 0 < window && |live| <= window
    ensures Sum(Pushed(live, window, x)) == (if |live| < window then Sum(live) else Sum(live) - live[0]) + x
  {
    SumAppend(if |live| < window then live else live[1..], x);
  }

  /** The buffer holds the last inputs and `sum` is their sum. */
  ghost predicate Holds(d: seq<real>, index: nat, used: nat, window: nat, sum: real, inputs: seq<real>) {
    && index < window && used <= window <= |d| && (used < window ==> index == used)
    && Slots(d, index, used, window) == LastOf(inputs, window)
    && sum == Sum(LastOf(inputs, window))
  }

  lemma HoldsNext(d: seq<real>, index: nat, used: nat, window: nat, sum: real, inputs: seq<real>, x: real)
    requires Holds(d, index, used, window, sum, inputs)
    ensures Holds(d[index := x], (index + 1) % window, if used < window then used + 1 else used, window,
                  (if used < window then sum else sum - d[index]) + x, inputs + [x])
  {
    SlotsPush(d, index, used, window, x);
    SumPushed(LastOf(inputs, window), window, x);
    LastOfAppend(inputs, window, x);
    Wraps(index, window);
  }

  lemma HoldsMean(d: seq<real>, index: nat, used: nat, window: nat, sum: real, inputs: seq<real>)
    requires Holds(d, index, used, window, sum, inputs) && inputs != []
    ensures used > 0 && LastOf(inputs, window) != [] && sum / used as real == Mean(LastOf(inputs, window))
  {
  }

  // --------------------------------------------------------------------------------------------
  // The filter

  class SmaFilter {
    const data: array<real>
    var sum: real
    var index: nat
    var used: nat
    const window: nat

    /** All inputs so far. */
    ghost var inputs: seq<real>

    ghost predicate Valid()
      reads this, data
    {
      && 2 <= window <= WINDOW_MAX && data.Length == WINDOW_MAX
      && Holds(data[..], index, used, window, sum, inputs)
    }

    constructor (w: nat)
      requires 2 <= w <= WINDOW_MAX
      ensures Valid() && fresh(data) && window == w && inputs == []
    {
      data := new real[WINDOW_MAX](_ => 0.0);
      sum, index, used, window := 0.0, 0, 0, w;
      inputs := [];
    }

    /** The part of `sma_filter` that changes the context: the oldest input leaves a full buffer. */
    method Push(input: real)
      requires Valid()
      modifies this, data
      ensures Valid() && inputs == old(inputs) + [input]
    {
      HoldsNext(data[..], index, used, window, sum, inputs, input);
      ghost var d := data[..];
      if used < window {
        used := used + 1;
      } else {
        sum := sum - data[index];
      }
      data[index] := input;
      assert data[..] == d[index := input];
      sum := sum + input;
      index := (index + 1) % window;
      inputs := inputs + [input];
    }

    /** `sma_filter`: the mean of the last inputs, as many as the window holds. */
    method Apply(input: real) returns (output: real)
      requires Valid()
      modifies this, data
      ensures Valid() && inputs == old(inputs) + [input]
      ensures output == Mean(LastOf(inputs, window))
    {
      Push(input);
      HoldsMean(data[..], index, used, window, sum, inputs);
      output := sum / used as real;
    }
  }

  /** `sma_parse_args` once the window has been read: only windows from 2 to 32 make a filter. */
  method Create(window: int) returns (c: SmaFilter?)
    ensures c != null <==> 2 <= window <= 32
    ensures c != null ==> fresh(c) && fresh(c.data) && c.Valid() && c.window == window && c.inputs == []
  {
    if window < 2 || window > WINDOW_MAX {
      return null;
    }
    c := new SmaFilter(window);
  }

  // --------------------------------------------------------------------------------------------
  // Properties of the mean

  /** The output lies between any bounds of the inputs in the window. */
  lemma OutputWithin(inputs: seq<real>, window: nat, lo: real, hi: real)
    requires inputs != [] && window > 0 && Within(LastOf(inputs, window), lo, hi)
    ensures lo <= Mean(LastOf(inputs, window)) <= hi
  {
    MeanWithin(LastOf(inputs, window), lo, hi);
  }

  /** Once the input has been steady for a whole window, the output is that input exactly: nothing
      older is left in the sum. */
  lemma SteadyInput(inputs: seq<real>, window: nat, x: real)
    requires 0 < window <= |inputs| && forall k :: |inputs| - window <= k < |inputs| ==> inputs[k] == x
    ensures Mean(LastOf(inputs, window)) == x
  {
    MeanWithin(LastOf(inputs, window), x, x);
  }

  /** Higher inputs never give a lower output. */
  lemma OutputMonotone(a: seq<real>, b: seq<real>, window: nat)
    requires Below(a, b) && a != [] && window > 0
    ensures Mean(LastOf(a, window)) <= Mean(LastOf(b, window))
  {
    assert Below(LastOf(a, window), LastOf(b, window));
    MeanMonotone(LastOf(a, window), LastOf(b, window));
  }
}
