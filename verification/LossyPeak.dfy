/** The "lossy peak detector" filter of src/filter_lossypeak.c. Times are microseconds, values reals. */
module LossyPeak {

  /** The filter context; `state` 1 means that the peak is decaying. */
  datatype Context = Context(peak: real, delay: nat, decay: real, lastT: nat, peakT: nat, state: nat)

  /** How far the peak falls in `us` microseconds. */
  function Fall(decay: real, us: int): real {
    us as real / 1000000.0 * decay
  }

  function Max(a: real, b: real): real { if a < b then b else a }

  /** One call at time `now`. */
  function Filter(c: Context, now: nat, input: real): Context
  {
    if input >= c.peak then c.(peak := input, state := 0, peakT := now, lastT := now)
    else
      var starting := c.state == 0 && (c.delay == 0 || now - c.peakT > c.delay);
      var elapsed := if starting && c.delay > 0 then now - c.peakT - c.delay else now - c.lastT;
      if c.state == 1 || starting then
        var fallen := c.peak - Fall(c.decay, elapsed);
        c.(peak := if input > fallen then input else fallen, state := 1, lastT := now)
      else c.(lastT := now)
  }

  class LossyPeakFilter {
    var peak: real
    var delayUs: nat
    var decay: real
    var lastT: nat
    var peakT: nat
    var state: nat

    ghost function Value(): Context
      reads this
    {
      Context(peak, delayUs, decay, lastT, peakT, state)
    }

    constructor (decay: real, delayUs: nat, now: nat)
      requires decay >= 0.0
      ensures Value() == Created(decay, delayUs, now)
      ensures peak == 0.0 && peakT == 0 && lastT == now && state == 0
      ensures this.decay == decay && this.delayUs == delayUs
    {
      this.peak := 0.0;
      this.delayUs := delayUs;
      this.decay := decay;
      this.lastT := now;
      this.peakT := 0;
      this.state := 0;
    }

    method Apply(now: nat, input: real) returns (output: real)
      requires state < 2
      modifies this
      ensures Value() == Filter(old(Value()), now, input) && output == peak && state < 2
    {
      var td := now - lastT;
      if input >= peak {
        peak := input;
        state := 0;
        peakT := now;
      } else {
        if state == 0 {
          if delayUs > 0 {
            td := now - peakT;
            if td > delayUs {
              state := 1;
              td := td - delayUs;
            }
          } else {
            state := 1;
          }
        }
        if state == 1 {
          var fall := Fall(decay, td);
          if input > peak - fall {
            peak := input;
          } else {
            peak := peak - fall;
          }
        }
      }
      lastT := now;
      output := peak;
    }
  }

  function Created(decay: real, delay: nat, now: nat): Context {
    Context(0.0, delay, decay, now, 0, 0)
  }

  // --------------------------------------------------------------------------------------------
  // Closed form

  datatype Sample = Sample(t: nat, x: real)

  /** The peak `p` taken at time `t`, and the smaller samples that have come since. */
  datatype Episode = Episode(p: real, t: nat, since: seq<Sample>)

  /** Whether a sample at `time` meets a decaying peak. */
  predicate Late(e: Episode, delay: nat, time: nat) {
    delay == 0 || time > e.t + delay
  }

  /** The value at `time` of a line that leaves `x` at time `from` and falls at the decay rate. */
  function Ray(decay: real, x: real, from: int, time: int): real {
    x - Fall(decay, time - from)
  }

  /** The highest of the lines that leave the peak at the end of the delay and every late sample. */
  function Highest(decay: real, delay: nat, e: Episode, time: int): real
    decreases |e.since|
  {
    if e.since == [] then Ray(decay, e.p, e.t + delay, time)
    else
      var last := e.since[|e.since| - 1];
      var rest := Highest(decay, delay, e.(since := e.since[..|e.since| - 1]), time);
      if Late(e, delay, last.t) then Max(rest, Ray(decay, last.x, last.t, time)) else rest
  }

  /** What the filter should show at the last sample of the episode. */
  function ClosedForm(decay: real, delay: nat, e: Episode): real {
    if e.since == [] || !Late(e, delay, e.since[|e.since| - 1].t) then e.p
    else Highest(decay, delay, e, e.since[|e.since| - 1].t)
  }

  /** `Highest` is the maximum of its lines. */
  lemma {:induction false} HighestIsMaximum(decay: real, delay: nat, e: Episode, time: int)
    ensures var h := Highest(decay, delay, e, time);
            && Ray(decay, e.p, e.t + delay, time) <= h
            && (forall k :: 0 <= k < |e.since| && Late(e, delay, e.since[k].t) ==>
                  Ray(decay, e.since[k].x, e.since[k].t, time) <= h)
            && (h == Ray(decay, e.p, e.t + delay, time)
                || exists k :: 0 <= k < |e.since| && Late(e, delay, e.since[k].t)
                               && h == Ray(decay, e.since[k].x, e.since[k].t, time))
    decreases |e.since|
  {
    if e.since != [] {
      var shorter := e.(since := e.since[..|e.since| - 1]);
      HighestIsMaximum(decay, delay, shorter, time);
      var h := Highest(decay, delay, shorter, time);
      assert forall k :: 0 <= k < |e.since| - 1 ==> shorter.since[k] == e.since[k];
      if h != Ray(decay, e.p, e.t + delay, time) {
        var k :| 0 <= k < |shorter.since| && Late(shorter, delay, shorter.since[k].t)
                 && h == Ray(decay, shorter.since[k].x, shorter.since[k].t, time);
        assert Late(e, delay, e.since[k].t) && h == Ray(decay, e.since[k].x, e.since[k].t, time);
      }
    }
  }

  /** The decay is what the peak falls in a second. */
  lemma FallIs(decay: real, us: int)
    ensures Fall(decay, us) * 1_000_000.0 == us as real * decay
  {
    assert us as real / 1000000.0 * 1000000.0 == us as real;
    Regroup(us as real / 1000000.0, decay, 1000000.0);
  }

  lemma Regroup(a: real, b: real, c: real)
    ensures a * b * c == a * c * b
  {
  }

  /** The first call of a new filter: an input below 0 meets a peak of 0 taken at time 0 whose delay counts
      from there, or, without a delay, a fall since the creation. */
  lemma FirstCall(decay: real, delay: nat, now: nat, t: nat, x: real)
    requires now <= t
    ensures var shown := Filter(Created(decay, delay, now), t, x).peak;
            && (x >= 0.0 ==> shown == x)
            && (x < 0.0 && 0 < delay && t <= delay ==> shown == 0.0)
            && (x < 0.0 && 0 < delay < t ==> FallsFrom(0.0, decay, t - delay, x, shown))
            && (x < 0.0 && delay == 0 ==> FallsFrom(0.0, decay, t - now, x, shown))
  {
    FallIs(decay, t - delay);
    FallIs(decay, t - now);
  }

  /** After `us` microseconds of decay the peak shows as `shown`, unless the input is higher. */
  predicate FallsFrom(peak: real, decay: real, us: int, input: real, shown: real) {
    && input <= shown && (peak - shown) * 1_000_000.0 <= us as real * decay
    && (shown == input || (peak - shown) * 1_000_000.0 == us as real * decay)
  }

  lemma FallAdds(decay: real, a: int, b: int)
    ensures Fall(decay, a + b) == Fall(decay, a) + Fall(decay, b)
    ensures Fall(decay, 0) == 0.0
  {
    var x, y := a as real / 1000000.0, b as real / 1000000.0;
    assert (a + b) as real / 1000000.0 == x + y;
    assert (x + y) * decay == x * decay + y * decay;
  }

  /** Every line falls equally, so the highest does too. */
  lemma {:induction false} HighestFalls(decay: real, delay: nat, e: Episode, time: int, more: int)
    ensures Highest(decay, delay, e, time + more) == Highest(decay, delay, e, time) - Fall(decay, more)
    decreases |e.since|
  {
    if e.since == [] {
      FallAdds(decay, time - (e.t + delay), more);
      assert time + more - (e.t + delay) == (time - (e.t + delay)) + more;
    } else {
      var last := e.since[|e.since| - 1];
      HighestFalls(decay, delay, e.(since := e.since[..|e.since| - 1]), time, more);
      FallAdds(decay, time - last.t, more);
      assert time + more - last.t == (time - last.t) + more;
    }
  }

  /** Lines of samples that come before the delay has passed do not count. */
  lemma {:induction false} NoneLate(decay: real, delay: nat, e: Episode, time: int)
    requires forall k :: 0 <= k < |e.since| ==> !Late(e, delay, e.since[k].t)
    ensures Highest(decay, delay, e, time) == Ray(decay, e.p, e.t + delay, time)
    decreases |e.since|
  {
    if e.since != [] {
      var shorter := e.(since := e.since[..|e.since| - 1]);
      assert forall k :: 0 <= k < |shorter.since| ==> shorter.since[k] == e.since[k];
      NoneLate(decay, delay, shorter, time);
    }
  }

  /** A sample that reaches the shown value starts a new episode. */
  function NextEpisode(e: Episode, shown: real, s: Sample): Episode {
    if s.x >= shown then Episode(s.x, s.t, []) else e.(since := e.since + [s])
  }

  /** The context of a filter in the middle of an episode. */
  ghost predicate Matches(c: Context, e: Episode) {
    && c.state < 2 && 0.0 <= c.decay
    && c.peak == ClosedForm(c.decay, c.delay, e)
    && (forall j, k :: 0 <= j < k < |e.since| ==> e.since[j].t <= e.since[k].t)
    && (e.since != [] ==> c.lastT == e.since[|e.since| - 1].t)
    && (c.state == 1 <==> e.since != [] && Late(e, c.delay, e.since[|e.since| - 1].t))
    && (c.state == 0 && c.delay > 0 ==> c.peakT == e.t)
    && (c.state == 0 && c.delay == 0 ==> c.lastT == e.t)
  }

  lemma StepMatches(c: Context, e: Episode, s: Sample)
    requires Matches(c, e) && c.lastT <= s.t && (e.since == [] ==> e.t <= s.t)
    ensures Matches(Filter(c, s.t, s.x), NextEpisode(e, c.peak, s))
  {
    if s.x < c.peak {
      if c.state == 1 {
        StepDecays(c, e, s);
      } else if Late(e, c.delay, s.t) {
        StepStartsDecay(c, e, s);
      } else {
        StepWaits(c, e, s);
      }
    }
  }

  lemma StepDecays(c: Context, e: Episode, s: Sample)
    requires Matches(c, e) && c.lastT <= s.t && s.x < c.peak && c.state == 1
    ensures Matches(Filter(c, s.t, s.x), NextEpisode(e, c.peak, s))
  {
    var f := NextEpisode(e, c.peak, s);
    assert f.since[..|e.since|] == e.since;
    FallAdds(c.decay, 0, 0);
    HighestFalls(c.decay, c.delay, e, c.lastT, s.t - c.lastT);
    assert Late(f, c.delay, s.t);
  }

  /** The first late sample: the line from the peak, or the sample. */
  lemma StartedPeak(c: Context, e: Episode, s: Sample)
    requires Matches(c, e) && s.x < c.peak && c.state == 0 && Late(e, c.delay, s.t)
    ensures ClosedForm(c.decay, c.delay, NextEpisode(e, c.peak, s)) == Max(Ray(c.decay, e.p, e.t + c.delay, s.t), s.x)
  {
    var f := NextEpisode(e, c.peak, s);
    assert f.since[..|e.since|] == e.since && f.(since := e.since) == e;
    FallAdds(c.decay, 0, 0);
    NotYetLate(c, e);
    NoneLate(c.decay, c.delay, e, s.t);
  }

  /** The peak of a waiting filter is that of the episode. */
  lemma WaitingPeak(c: Context, e: Episode)
    requires Matches(c, e) && c.state == 0
    ensures c.peak == e.p && (c.delay > 0 ==> c.peakT == e.t) && (c.delay == 0 ==> c.lastT == e.t)
  {
    NotYetLate(c, e);
  }

  /** What the code does when the decay starts, `elapsed` after the delay. */
  lemma FilterStarts(c: Context, now: nat, x: real, elapsed: int)
    requires x < c.peak && c.state == 0 && (c.delay == 0 || now - c.peakT > c.delay)
    requires elapsed == if c.delay > 0 then now - c.peakT - c.delay else now - c.lastT
    ensures Filter(c, now, x) == c.(peak := Max(c.peak - Fall(c.decay, elapsed), x), state := 1, lastT := now)
  {
  }

  lemma StartedContext(c: Context, e: Episode, s: Sample)
    requires Matches(c, e) && s.x < c.peak && c.state == 0 && Late(e, c.delay, s.t)
    ensures Filter(c, s.t, s.x) ==
              c.(peak := ClosedForm(c.decay, c.delay, NextEpisode(e, c.peak, s)), state := 1, lastT := s.t)
  {
    WaitingPeak(c, e);
    StartedPeak(c, e, s);
    FilterStarts(c, s.t, s.x, s.t - (e.t + c.delay));
  }

  /** A context that decays matches any episode with its peak whose last sample is late. */
  lemma DecayingMatches(n: Context, c: Context, e: Episode, s: Sample, shown: real)
    requires Matches(c, e) && c.lastT <= s.t && s.x < shown && Late(e, c.delay, s.t)
    requires n.decay == c.decay && n.delay == c.delay && n.state == 1 && n.lastT == s.t
    requires n.peak == ClosedForm(c.decay, c.delay, NextEpisode(e, shown, s))
    ensures Matches(n, NextEpisode(e, shown, s))
  {
  }

  lemma StepStartsDecay(c: Context, e: Episode, s: Sample)
    requires Matches(c, e) && c.lastT <= s.t && (e.since == [] ==> e.t <= s.t) && s.x < c.peak
    requires c.state == 0 && Late(e, c.delay, s.t)
    ensures Matches(Filter(c, s.t, s.x), NextEpisode(e, c.peak, s))
  {
    StartedContext(c, e, s);
    DecayingMatches(Filter(c, s.t, s.x), c, e, s, c.peak);
  }

  lemma StepWaits(c: Context, e: Episode, s: Sample)
    requires Matches(c, e) && c.lastT <= s.t && s.x < c.peak && c.state == 0 && !Late(e, c.delay, s.t)
    ensures Matches(Filter(c, s.t, s.x), NextEpisode(e, c.peak, s))
  {
    NotYetLate(c, e);
  }

  lemma NotYetLate(c: Context, e: Episode)
    requires Matches(c, e) && c.state == 0
    ensures forall k :: 0 <= k < |e.since| ==> !Late(e, c.delay, e.since[k].t)
  {
    forall k | 0 <= k < |e.since| ensures !Late(e, c.delay, e.since[k].t) {
      assert e.since[k].t <= e.since[|e.since| - 1].t;
    }
  }

  // --------------------------------------------------------------------------------------------
  // Runs

  ghost predicate InOrder(from: nat, samples: seq<Sample>) {
    && (forall k :: 0 <= k < |samples| ==> from <= samples[k].t)
    && (forall j, k :: 0 <= j < k < |samples| ==> samples[j].t <= samples[k].t)
  }

  function Run(c: Context, samples: seq<Sample>): Context
    decreases |samples|
  {
    if samples == [] then c
    else
      var n := |samples| - 1;
      Filter(Run(c, samples[..n]), samples[n].t, samples[n].x)
  }

  /** The episode a run has reached. A new filter starts with peak 0, taken at boot when there is a
      delay and at its creation when there is none. */
  function EpisodeOf(c: Context, samples: seq<Sample>): Episode
    decreases |samples|
  {
    if samples == [] then Episode(c.peak, if c.delay > 0 then c.peakT else c.lastT, [])
    else
      var n := |samples| - 1;
      NextEpisode(EpisodeOf(c, samples[..n]), Run(c, samples[..n]).peak, samples[n])
  }

  lemma {:induction false} RunMatches(decay: real, delay: nat, now: nat, samples: seq<Sample>)
    requires 0.0 <= decay && InOrder(now, samples)
    ensures var c := Created(decay, delay, now);
            var r, e := Run(c, samples), EpisodeOf(c, samples);
            && Matches(r, e) && r.decay == decay && r.delay == delay
            && r.lastT == (if samples == [] then now else samples[|samples| - 1].t)
            && (e.since == [] ==> e.t <= r.lastT)
    decreases |samples|
  {
    if samples != [] {
      var n := |samples| - 1;
      var c := Created(decay, delay, now);
      RunMatches(decay, delay, now, samples[..n]);
      StepMatches(Run(c, samples[..n]), EpisodeOf(c, samples[..n]), samples[n]);
    }
  }

  /** Closed form, over every run: the output is the peak of the current episode until the delay has
      passed, and from then on the highest of the falling lines; it is never below the input. */
  lemma OutputClosedForm(decay: real, delay: nat, now: nat, samples: seq<Sample>)
    requires 0.0 <= decay && InOrder(now, samples) && samples != []
    ensures var c := Created(decay, delay, now);
            var out, last := Run(c, samples).peak, samples[|samples| - 1];
            && out == ClosedForm(decay, delay, EpisodeOf(c, samples))
            && out >= last.x
  {
    RunMatches(decay, delay, now, samples);
  }

  lemma FallNonNegative(decay: real, us: nat)
    requires 0.0 <= decay
    ensures 0.0 <= Fall(decay, us)
  {
    var x := us as real / 1000000.0;
    assert 0.0 <= x;
    assert 0.0 <= x * decay;
  }

  lemma FallMonotone(decay: real, a: nat, b: nat)
    requires 0.0 <= decay && a <= b
    ensures Fall(decay, a) <= Fall(decay, b)
  {
    FallAdds(decay, a, b - a);
    FallNonNegative(decay, b - a);
    assert a + (b - a) == b;
  }

  lemma StepFalls(c: Context, now: nat, x: real)
    requires 0.0 <= c.decay && c.state < 2 && c.lastT <= now
    requires c.state == 0 && c.delay > 0 ==> c.lastT <= c.peakT + c.delay
    ensures Filter(c, now, x).peak >= c.peak - Fall(c.decay, now - c.lastT)
  {
    FallNonNegative(c.decay, now - c.lastT);
    if c.state == 0 && c.delay > 0 && now - c.peakT > c.delay {
      FallMonotone(c.decay, now - c.peakT - c.delay, now - c.lastT);
    }
  }

  /** A filter that has been called and still waits is within its delay. */
  lemma WaitsWithinDelay(decay: real, delay: nat, now: nat, samples: seq<Sample>)
    requires 0.0 <= decay && InOrder(now, samples) && samples != []
    ensures var r := Run(Created(decay, delay, now), samples);
            r.state == 0 && r.delay > 0 ==> r.lastT <= r.peakT + r.delay
  {
    RunMatches(decay, delay, now, samples);
    var c := Created(decay, delay, now);
    var r, e := Run(c, samples), EpisodeOf(c, samples);
    if e.since == [] {
      RunMatches(decay, delay, now, samples[..|samples| - 1]);
    }
  }

  /** Between two calls the output never falls faster than the decay rate. */
  lemma FallsNoFasterThanDecay(decay: real, delay: nat, now: nat, samples: seq<Sample>)
    requires 0.0 <= decay && InOrder(now, samples) && |samples| >= 2
    ensures var c := Created(decay, delay, now);
            var n := |samples| - 1;
            Run(c, samples).peak >= Run(c, samples[..n]).peak - Fall(decay, samples[n].t - samples[n - 1].t)
  {
    var n := |samples| - 1;
    InOrderFront(now, samples);
    RunKeepsTime(decay, delay, now, samples[..n]);
    WaitsWithinDelay(decay, delay, now, samples[..n]);
    StepFalls(Run(Created(decay, delay, now), samples[..n]), samples[n].t, samples[n].x);
  }

  lemma InOrderFront(from: nat, samples: seq<Sample>)
    requires InOrder(from, samples) && |samples| >= 2
    ensures var n := |samples| - 1;
            InOrder(from, samples[..n]) && from <= samples[n - 1].t <= samples[n].t
  {
  }

  lemma StepStaysBelow(c: Context, now: nat, x: real, bound: real)
    requires 0.0 <= c.decay && c.state < 2 && c.lastT <= now && c.peak <= bound && x <= bound
    ensures Filter(c, now, x).peak <= bound
  {
    FallNonNegative(c.decay, now - c.lastT);
    if c.delay > 0 && now - c.peakT > c.delay {
      FallNonNegative(c.decay, now - c.peakT - c.delay);
    }
  }

  /** The output never exceeds the largest value seen so far, counting the initial 0. */
  lemma {:induction false} NeverAboveInputs(decay: real, delay: nat, now: nat, samples: seq<Sample>, bound: real)
    requires 0.0 <= decay && InOrder(now, samples)
    requires 0.0 <= bound && forall k :: 0 <= k < |samples| ==> samples[k].x <= bound
    ensures Run(Created(decay, delay, now), samples).peak <= bound
    decreases |samples|
  {
    if samples != [] {
      var n := |samples| - 1;
      NeverAboveInputs(decay, delay, now, samples[..n], bound);
      RunMatches(decay, delay, now, samples[..n]);
      StepStaysBelow(Run(Created(decay, delay, now), samples[..n]), samples[n].t, samples[n].x, bound);
    }
  }

  // --------------------------------------------------------------------------------------------
  // Order

  /** The same times with inputs at least as high. */
  ghost predicate NoLower(a: seq<Sample>, b: seq<Sample>) {
    |a| == |b| && forall k :: 0 <= k < |a| ==> a[k].t == b[k].t && a[k].x <= b[k].x
  }

  /** Higher inputs never give a lower output. */
  ghost predicate KeepsOrder(decay: real, delay: nat, now: nat) {
    forall a: seq<Sample>, b: seq<Sample> :: InOrder(now, a) && NoLower(a, b) ==>
      Run(Created(decay, delay, now), a).peak <= Run(Created(decay, delay, now), b).peak
  }

  lemma NoDecayNoFall(us: int)
    ensures Fall(0.0, us) == 0.0
  {
  }

  /** Without decay or without delay one call takes the larger of its input and the fallen peak. */
  lemma PlainStep(c: Context, now: nat, x: real)
    requires 0.0 <= c.decay && c.state < 2 && c.lastT <= now && (c.decay == 0.0 || c.delay == 0)
    ensures Filter(c, now, x).peak == Max(x, c.peak - Fall(c.decay, now - c.lastT))
  {
    FallNonNegative(c.decay, now - c.lastT);
    if c.decay == 0.0 {
      NoDecayNoFall(now - c.lastT);
      NoDecayNoFall(now - c.peakT - c.delay);
    }
  }

  lemma {:induction false} PlainRunsOrdered(decay: real, delay: nat, now: nat, a: seq<Sample>, b: seq<Sample>)
    requires 0.0 <= decay && (decay == 0.0 || delay == 0) && InOrder(now, a) && NoLower(a, b)
    ensures Run(Created(decay, delay, now), a).peak <= Run(Created(decay, delay, now), b).peak
    decreases |a|
  {
    if a != [] {
      var n := |a| - 1;
      var c := Created(decay, delay, now);
      OrderedFront(now, a, b);
      PlainRunsOrdered(decay, delay, now, a[..n], b[..n]);
      RunKeepsTime(decay, delay, now, a[..n]);
      RunKeepsTime(decay, delay, now, b[..n]);
      PlainStepsOrdered(Run(c, a[..n]), Run(c, b[..n]), a[n].t, a[n].x, b[n].x);
    }
  }

  lemma OrderedFront(now: nat, a: seq<Sample>, b: seq<Sample>)
    requires InOrder(now, a) && NoLower(a, b) && a != []
    ensures var n := |a| - 1;
            && InOrder(now, a[..n]) && InOrder(now, b[..n]) && NoLower(a[..n], b[..n])
            && now <= a[n].t == b[n].t && a[n].x <= b[n].x
            && (n > 0 ==> a[n - 1].t == b[n - 1].t <= a[n].t)
  {
  }

  /** What a run leaves alone, and the time of its last call. */
  lemma RunKeepsTime(decay: real, delay: nat, now: nat, samples: seq<Sample>)
    requires 0.0 <= decay && InOrder(now, samples)
    ensures var r := Run(Created(decay, delay, now), samples);
            && r.state < 2 && r.decay == decay && r.delay == delay
            && r.lastT == if samples == [] then now else samples[|samples| - 1].t
  {
    RunMatches(decay, delay, now, samples);
  }

  lemma PlainStepsOrdered(c: Context, d: Context, now: nat, x: real, y: real)
    requires 0.0 <= c.decay == d.decay && c.delay == d.delay && c.lastT == d.lastT <= now && c.state < 2 && d.state < 2
    requires (c.decay == 0.0 || c.delay == 0) && c.peak <= d.peak && x <= y
    ensures Filter(c, now, x).peak <= Filter(d, now, y).peak
  {
    PlainStep(c, now, x);
    PlainStep(d, now, y);
  }

  lemma ThreeCalls(c: Context, x: Sample, y: Sample, z: Sample)
    ensures Run(c, [x, y, z]) == Filter(Filter(Filter(c, x.t, x.x), y.t, y.x), z.t, z.x)
  {
    assert [x, y, z][..2] == [x, y] && [x, y][..1] == [x] && [x][..0] == [];
    TwoCalls(c, x, y);
  }

  lemma TwoCalls(c: Context, x: Sample, y: Sample)
    ensures Run(c, [x, y]) == Filter(Filter(c, x.t, x.x), y.t, y.x)
  {
    assert [x, y][..1] == [x] && [x][..0] == [];
    assert Run(c, []) == c;
    assert Run(c, [x]) == Filter(c, x.t, x.x);
  }

  /** With decay and delay, an early high input makes the decay start sooner: calls one and two
      microseconds after creation and once more when the delay has passed, for the first input only. */
  lemma EarlyPeakFallsSooner(decay: real, delay: nat, now: nat) returns (a: seq<Sample>, b: seq<Sample>)
    requires decay > 0.0 && delay > 0
    ensures InOrder(now, a) && NoLower(a, b)
    ensures Run(Created(decay, delay, now), a).peak > Run(Created(decay, delay, now), b).peak
  {
    var f := Fall(decay, 1);
    var c := Created(decay, delay, now);
    OneMicrosecond(decay);
    a := [Sample(now + 1, 0.0), Sample(now + 2, 2.0 * f), Sample(now + 2 + delay, 0.0)];
    b := [Sample(now + 1, 2.5 * f), Sample(now + 2, 2.0 * f), Sample(now + 2 + delay, 0.0)];
    ThreeCalls(c, a[0], a[1], a[2]);
    ThreeCalls(c, b[0], b[1], b[2]);
  }

  lemma OneMicrosecond(decay: real)
    requires decay > 0.0
    ensures Fall(decay, 1) > 0.0
  {
  }

  /** Higher inputs never lower the output, over all runs, exactly without decay or without delay. */
  lemma KeepsOrderIff(decay: real, delay: nat, now: nat)
    requires 0.0 <= decay
    ensures KeepsOrder(decay, delay, now) <==> decay == 0.0 || delay == 0
  {
    if decay == 0.0 || delay == 0 {
      forall a: seq<Sample>, b: seq<Sample> | InOrder(now, a) && NoLower(a, b)
        ensures Run(Created(decay, delay, now), a).peak <= Run(Created(decay, delay, now), b).peak
      {
        PlainRunsOrdered(decay, delay, now, a, b);
      }
    } else {
      var a, b := EarlyPeakFallsSooner(decay, delay, now);
    }
  }
}
