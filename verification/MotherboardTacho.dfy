/** The tachometer signals given to the motherboard: `calculate_tacho_freq` of src/tacho.c, up to the
    frequency that leaves the pin. */
module MotherboardTacho {
  import opened Curves
  import FanControl
  import VS = VirtualSensors
  import SquareWave
  import Means

  /** Fixed speed, one fan, or a combination of the selected fans. */
  datatype Source = Fixed(rpm: nat) | OneFan(id: nat) | Selected(mode: VS.Mode)

  datatype MbFan = MbFan(source: Source, selected: seq<bool>, curve: seq<Point>, coefficient: real,
                         minRpm: nat, maxRpm: nat, factor: nat)

  /** A fan's frequency and the pulses of one revolution. */
  datatype Fan = Fan(freq: real, factor: nat)

  ghost predicate ValidFans(fans: seq<Fan>) { forall k :: 0 <= k < |fans| ==> fans[k].factor > 0 }

  ghost predicate ValidMb(c: MbFan, fans: seq<Fan>) {
    && Usable(c.curve) && |c.selected| == |fans| && ValidFans(fans)
    && (c.source.OneFan? ==> c.source.id < |fans|)
    && (c.source.Selected? ==> c.source.mode.Min? || c.source.mode.Max? || c.source.mode.Avg?)
  }

  function Rpm(f: Fan): real
    requires f.factor > 0
  {
    f.freq * 60.0 / f.factor as real
  }

  /** Speeds of the selected fans among the first `n`. */
  function Speeds(fans: seq<Fan>, selected: seq<bool>, n: nat): seq<real>
    requires n <= |fans| == |selected| && ValidFans(fans)
  {
    if n == 0 then []
    else
      var before := Speeds(fans, selected, n - 1);
      if selected[n - 1] then before + [Rpm(fans[n - 1])] else before
  }

  function SourceRpm(c: MbFan, fans: seq<Fan>): real
    requires ValidMb(c, fans)
  {
    match c.source
    case Fixed(rpm) => rpm as real
    case OneFan(id) => Rpm(fans[id])
    case Selected(mode) => VS.Combined(mode, Speeds(fans, c.selected, |fans|))
  }

  /** The place of fan `k` among the selected ones. */
  ghost function Rank(selected: seq<bool>, k: nat): nat
    requires k <= |selected|
  {
    |set j: nat | j < k && selected[j]|
  }

  lemma RankNext(selected: seq<bool>, k: nat)
    requires k < |selected|
    ensures Rank(selected, k + 1) == Rank(selected, k) + if selected[k] then 1 else 0
  {
    var before, upTo := (set j: nat | j < k && selected[j]), (set j: nat | j < k + 1 && selected[j]);
    assert upTo == if selected[k] then before + {k} else before;
  }

  /** Every selected fan, and no other, gives one speed, in order: its pulses in a minute over its pulses
      in a revolution. */
  lemma {:induction false} SpeedsOfSelected(fans: seq<Fan>, selected: seq<bool>, n: nat)
    requires n <= |fans| == |selected| && ValidFans(fans)
    ensures |Speeds(fans, selected, n)| == Rank(selected, n)
    ensures forall k: nat :: k < n && selected[k] ==>
              && Rank(selected, k) < Rank(selected, n)
              && Turns(Speeds(fans, selected, n)[Rank(selected, k)], fans[k])
  {
    if n > 0 {
      SpeedsOfSelected(fans, selected, n - 1);
      RankNext(selected, n - 1);
      RpmTurns(fans[n - 1]);
    }
  }

  predicate Turns(rpm: real, f: Fan) { rpm * f.factor as real == f.freq * 60.0 }

  lemma RpmTurns(f: Fan)
    requires f.factor > 0
    ensures Turns(Rpm(f), f)
  {
  }

  /** A speed put through the output's curve and coefficient, within its limits. */
  predicate Shapes(c: MbFan, rpm: real, shaped: real)
    requires Usable(c.curve)
  {
    FanControl.Limited(shaped, Apply(c.curve, rpm) * c.coefficient, c.minRpm, c.maxRpm)
  }

  /** The same as a frequency: so many pulses in a minute. */
  ghost predicate Reports(c: MbFan, rpm: real, val: real)
    requires Usable(c.curve)
  {
    exists shaped: real :: Shapes(c, rpm, shaped) && val * 60.0 == shaped * c.factor as real
  }

  lemma FreqReports(c: MbFan, rpm: real)
    requires Usable(c.curve)
    ensures Reports(c, rpm, ToFreq(Shaped(c, rpm), c.factor))
  {
    assert Shapes(c, rpm, Shaped(c, rpm));
    InAMinute(Shaped(c, rpm), c.factor);
  }

  lemma InAMinute(rpm: real, factor: nat)
    ensures ToFreq(rpm, factor) * 60.0 == rpm * factor as real
  {
  }

  function ToFreq(rpm: real, factor: nat): real { FanControl.Scale(rpm / 60.0, factor as real) }

  /** Mapping, coefficient and limits are those of a fan output. */
  function Shaped(c: MbFan, rpm: real): real
    requires Usable(c.curve)
  {
    FanControl.Clamp(FanControl.Scale(Apply(c.curve, rpm), c.coefficient), c.minRpm, c.maxRpm)
  }

  function Freq(c: MbFan, fans: seq<Fan>): real
    requires ValidMb(c, fans)
  {
    ToFreq(Shaped(c, SourceRpm(c, fans)), c.factor)
  }

  /** The loop over the selected fans. */
  method FoldFans(mode: VS.Mode, fans: seq<Fan>, selected: seq<bool>) returns (sum: real, count: nat)
    requires |selected| == |fans| && ValidFans(fans)
    ensures count == |Speeds(fans, selected, |fans|)| && sum == VS.Fold(mode, Speeds(fans, selected, |fans|))
  {
    sum, count := 0.0, 0;
    var i := 0;
    while i < |fans|
      invariant 0 <= i <= |fans|
      invariant count == |Speeds(fans, selected, i)| && sum == VS.Fold(mode, Speeds(fans, selected, i))
    {
      if selected[i] {
        var val := Rpm(fans[i]);
        FoldAppend(mode, Speeds(fans, selected, i), val);
        count := count + 1;
        sum := VS.AddSource(mode, sum, count, val);
      }
      i := i + 1;
    }
  }

  lemma FoldAppend(mode: VS.Mode, v: seq<real>, x: real)
    ensures VS.Fold(mode, v + [x]) == VS.Accumulate(mode, VS.Fold(mode, v), |v| + 1, x)
  {
    assert (v + [x])[..|v|] == v;
  }

  /** What the frequency is, for each kind of source. */
  method CalculateTachoFreq(c: MbFan, fans: seq<Fan>) returns (val: real)
    requires ValidMb(c, fans)
    ensures val == Freq(c, fans)
    ensures c.source.Fixed? ==> Reports(c, c.source.rpm as real, val)
    ensures c.source.OneFan? ==> exists rpm: real :: Turns(rpm, fans[c.source.id]) && Reports(c, rpm, val)
    ensures c.source.Selected? ==>
              exists rpm: real :: VS.Meaning(c.source.mode, Speeds(fans, c.selected, |fans|), rpm) && Reports(c, rpm, val)
  {
    FreqReports(c, SourceRpm(c, fans));
    if c.source.OneFan? { RpmTurns(fans[c.source.id]); }
    if c.source.Selected? { VS.CombinedMeans(c.source.mode, Speeds(fans, c.selected, |fans|)); }
    val := 0.0;
    match c.source {
      case Fixed(rpm) => val := rpm as real;
      case OneFan(id) => val := Rpm(fans[id]);
      case Selected(mode) =>
        var sum, count := FoldFans(mode, fans, c.selected);
        if count >= 1 {
          val := if mode == VS.Avg then sum / count as real else sum;
        }
    }
    val := Map(c.curve, val);
    val := FanControl.Scale(val, c.coefficient);
    if val < c.minRpm as real { val := c.minRpm as real; }
    if val > c.maxRpm as real { val := c.maxRpm as real; }
    val := ToFreq(val, c.factor);
  }

  // --------------------------------------------------------------------------------------------
  // Order

  /** The same fans with speeds at least as high. */
  ghost predicate NoSlower(fans: seq<Fan>, faster: seq<Fan>) {
    |fans| == |faster| && forall k :: 0 <= k < |fans| ==> fans[k].factor == faster[k].factor && fans[k].freq <= faster[k].freq
  }

  lemma RpmMonotone(f: Fan, g: Fan)
    requires f.factor == g.factor > 0 && f.freq <= g.freq
    ensures Rpm(f) <= Rpm(g)
  {
    Means.QuotientMonotone(f.freq * 60.0, g.freq * 60.0, f.factor as real);
  }

  lemma {:induction false} SpeedsMonotone(fans: seq<Fan>, faster: seq<Fan>, selected: seq<bool>, n: nat)
    requires NoSlower(fans, faster) && n <= |fans| == |selected| && ValidFans(fans) && ValidFans(faster)
    ensures Means.Below(Speeds(fans, selected, n), Speeds(faster, selected, n))
  {
    if n > 0 {
      SpeedsMonotone(fans, faster, selected, n - 1);
      RpmMonotone(fans[n - 1], faster[n - 1]);
    }
  }

  lemma ToFreqMonotone(a: real, b: real, factor: nat)
    requires a <= b
    ensures ToFreq(a, factor) <= ToFreq(b, factor)
  {
    FanControl.ScaleMonotone(a / 60.0, b / 60.0, factor as real);
  }

  /** Faster fans never report a lower frequency, whatever fans are selected and however they are
      combined, if the curve rises and the coefficient is not negative. */
  lemma FreqMonotone(c: MbFan, fans: seq<Fan>, faster: seq<Fan>)
    requires ValidMb(c, fans) && ValidMb(c, faster) && NoSlower(fans, faster)
    requires Rising(c.curve) && c.coefficient >= 0.0
    ensures Freq(c, fans) <= Freq(c, faster)
  {
    var a, b := SourceRpm(c, fans), SourceRpm(c, faster);
    if c.source.OneFan? { RpmMonotone(fans[c.source.id], faster[c.source.id]); }
    if c.source.Selected? {
      SpeedsMonotone(fans, faster, c.selected, |fans|);
      VS.CombinedMonotone(c.source.mode, Speeds(fans, c.selected, |fans|), Speeds(faster, c.selected, |fans|));
    }
    Monotone(c.curve, a, b);
    FanControl.ScaleMonotone(Apply(c.curve, a), Apply(c.curve, b), c.coefficient);
    ToFreqMonotone(Shaped(c, a), Shaped(c, b), c.factor);
  }

  // --------------------------------------------------------------------------------------------
  // What leaves the pin

  /** The reported frequency stays within the limits exactly when they are in order. */
  lemma FreqBounds(c: MbFan, fans: seq<Fan>)
    requires ValidMb(c, fans) && c.factor > 0
    ensures Freq(c, fans) <= ToFreq(c.maxRpm as real, c.factor)
    ensures ToFreq(c.minRpm as real, c.factor) <= Freq(c, fans) <==> c.minRpm <= c.maxRpm
  {
    var v := Shaped(c, SourceRpm(c, fans));
    ToFreqMonotone(v, c.maxRpm as real, c.factor);
    if c.minRpm <= c.maxRpm {
      ToFreqMonotone(c.minRpm as real, v, c.factor);
    } else {
      FanControl.ScaleStrict(v / 60.0, c.minRpm as real / 60.0, c.factor as real);
    }
  }

  // --------------------------------------------------------------------------------------------
  // The second loop of update_outputs

  /** The live settings of an output: a square wave, or an alarm below a speed. */
  datatype Live = Live(tacho: bool, factor: nat, threshold: nat, invert: bool)

  /** Computed and remembered frequencies, the period last handed to each square wave generator, and the
      level last put on each alarm pin. */
  datatype MbState = MbState(freq: seq<real>, prev: seq<real>, period: seq<nat>, alarm: seq<bool>)

  predicate Sized(s: MbState, n: nat) { |s.freq| == |s.prev| == |s.period| == |s.alarm| == n }

  /** One round: configuration copy, live settings and fan speeds. */
  datatype Round = Round(mbfans: seq<MbFan>, live: seq<Live>, fans: seq<Fan>)

  ghost predicate ValidRound(r: Round, n: nat) {
    && |r.mbfans| == |r.live| == n
    && (forall k :: 0 <= k < n ==> ValidMb(r.mbfans[k], r.fans))
    && forall k :: 0 <= k < n ==> r.live[k].factor > 0
  }

  const THRESHOLD: real := 1.0

  /** Whole revolutions per minute, and the alarm level that they stand for. */
  function AlarmLevel(l: Live, freq: real): bool
    requires l.factor > 0
  {
    var rpm := Truncated(freq * 60.0 / l.factor as real);
    if l.invert then rpm >= l.threshold else rpm < l.threshold
  }

  /** An alarm means fewer pulses in a minute than the threshold asks for; at threshold 0 a whole negative
      revolution is needed, which no measured frequency gives. */
  lemma AlarmMeans(l: Live, freq: real)
    requires l.factor > 0
    ensures freq >= 0.0 || l.threshold > 0 ==>
              (AlarmLevel(l, freq) <==> (freq * 60.0 < (l.threshold * l.factor) as real) != l.invert)
    ensures l.threshold == 0 ==> (AlarmLevel(l, freq) <==> (freq * 60.0 <= -(l.factor as real)) != l.invert)
  {
    TruncatedBelow(freq * 60.0, l.factor, l.threshold);
    assert freq * 60.0 >= 0.0 <==> freq >= 0.0;
    var rpm := Truncated(freq * 60.0 / l.factor as real);
    assert AlarmLevel(l, freq) == ((rpm < l.threshold) != l.invert);
  }

  lemma TruncatedBelow(pulses: real, factor: nat, threshold: nat)
    requires factor > 0
    ensures pulses >= 0.0 || threshold > 0 ==>
              (Truncated(pulses / factor as real) < threshold <==> pulses < (threshold * factor) as real)
    ensures threshold == 0 ==> (Truncated(pulses / factor as real) < threshold <==> pulses <= -(factor as real))
  {
    var q := pulses / factor as real;
    Dividend(pulses, factor as real);
    WholeBelow(q, threshold);
    AsReals(threshold, factor);
    QuotientBelow(pulses, q, factor as real, threshold as real);
    QuotientBelow(pulses, q, factor as real, 0.0);
    QuotientAbove(pulses, q, factor as real);
  }

  lemma QuotientBelow(pulses: real, q: real, f: real, t: real)
    requires f > 0.0 && q * f == pulses
    ensures q < t <==> pulses < t * f
  {
    ProductBelow(q, t, f);
  }

  lemma QuotientAbove(pulses: real, q: real, f: real)
    requires f > 0.0 && q * f == pulses
    ensures q <= -1.0 <==> pulses <= -f
  {
    ProductBelow(-1.0, q, f);
    assert -1.0 * f == -f;
  }

  lemma Dividend(a: real, n: real)
    requires n != 0.0
    ensures a / n * n == a
  {
  }

  lemma AsReals(a: nat, b: nat)
    ensures (a * b) as real == a as real * b as real
  {
  }

  lemma WholeBelow(q: real, threshold: nat)
    ensures q >= 0.0 || threshold > 0 ==> (Truncated(q) < threshold <==> q < threshold as real)
    ensures threshold == 0 ==> (Truncated(q) < threshold <==> q <= -1.0)
  {
  }

  lemma ProductBelow(a: real, b: real, n: real)
    requires n > 0.0
    ensures a < b <==> a * n < b * n
  {
    if a < b { Means.Scaled(a, b, n); }
    if b < a { Means.Scaled(b, a, n); }
  }

  function Truncated(r: real): int { if r >= 0.0 then r.Floor else -((-r).Floor) }

  /** Output `i` of the loop. */
  function UpdateMb(r: Round, clock: nat, s: MbState, i: nat): (t: MbState)
    requires i < |r.mbfans| && Sized(s, |r.mbfans|) && ValidRound(r, |r.mbfans|)
    ensures Sized(t, |r.mbfans|)
  {
    var f := Freq(r.mbfans[i], r.fans);
    if !FanControl.Changed(s.prev[i], f, THRESHOLD) then s.(freq := s.freq[i := f])
    else
      var t := s.(freq := s.freq[i := f], prev := s.prev[i := f]);
      if r.live[i].tacho then t.(period := t.period[i := SquareWave.DriverPeriod(clock, f)])
      else t.(alarm := t.alarm[i := AlarmLevel(r.live[i], f)])
  }

  function UpdateMbFrom(r: Round, clock: nat, s: MbState, i: nat): (t: MbState)
    requires Sized(s, |r.mbfans|) && ValidRound(r, |r.mbfans|)
    ensures Sized(t, |r.mbfans|)
    decreases |r.mbfans| - i
  {
    if i >= |r.mbfans| then s else UpdateMbFrom(r, clock, UpdateMb(r, clock, s, i), i + 1)
  }

  class MbOutputs {
    const clock: nat
    const freq: array<real>
    const prev: array<real>
    const period: array<nat>
    const alarm: array<bool>

    ghost predicate Valid()
      reads this
    {
      freq != prev && freq.Length == prev.Length == period.Length == alarm.Length
    }

    ghost function State(): (s: MbState)
      reads this, freq, prev, period, alarm
      requires Valid()
      ensures Sized(s, freq.Length)
    {
      MbState(freq[..], prev[..], period[..], alarm[..])
    }

    /** `clear_state` and `setup_tacho_outputs`: no signal, and alarm pins as their settings say. */
    constructor (n: nat, sysClock: nat, invert: seq<bool>)
      requires |invert| == n
      ensures Valid() && clock == sysClock && State() == StartUp(invert) && freq.Length == n
      ensures forall k :: 0 <= k < n ==> freq[k] == prev[k] == 0.0 && period[k] == 0 && alarm[k] != invert[k]
      ensures fresh(freq) && fresh(prev) && fresh(period) && fresh(alarm)
    {
      clock := sysClock;
      freq := new real[n](_ => 0.0);
      prev := new real[n](_ => 0.0);
      period := new nat[n](_ => 0);
      alarm := new bool[n](i requires 0 <= i < |invert| => !invert[i]);
    }

    /** The branch for a frequency that has changed; it must be one whose half-cycle fits 32 bits. */
    method SetOutput(i: nat, l: Live)
      requires Valid() && i < freq.Length && l.factor > 0
      requires prev[i] > 0.0 ==> SquareWave.HalfPeriod(clock, prev[i]) < SquareWave.WORD
      modifies period, alarm
      ensures period[..] == if l.tacho then old(period[..])[i := SquareWave.DriverPeriod(clock, prev[i])] else old(period[..])
      ensures alarm[..] == if l.tacho then old(alarm[..]) else old(alarm[..])[i := AlarmLevel(l, prev[i])]
      ensures !l.tacho && prev[i] >= 0.0 ==> alarm[i] == ((prev[i] * 60.0 < (l.threshold * l.factor) as real) != l.invert)
    {
      AlarmMeans(l, prev[i]);
      if l.tacho {
        period[i] := SquareWave.SetFreq(clock, prev[i]);
      } else {
        var rpm := Truncated(prev[i] * 60.0 / l.factor as real);
        var lra := rpm < l.threshold;
        alarm[i] := if l.invert then !lra else lra;
      }
    }

    /** The loop. */
    method UpdateTachos(r: Round)
      requires Valid() && ValidRound(r, freq.Length)
      requires forall k :: 0 <= k < |r.mbfans| && Freq(r.mbfans[k], r.fans) > 0.0 ==>
                 SquareWave.HalfPeriod(clock, Freq(r.mbfans[k], r.fans)) < SquareWave.WORD
      modifies freq, prev, period, alarm
      ensures Valid() && State() == UpdateMbFrom(r, clock, old(State()), 0)
    {
      var i := 0;
      while i < |r.mbfans|
        invariant 0 <= i <= |r.mbfans| && Valid()
        invariant UpdateMbFrom(r, clock, State(), i) == UpdateMbFrom(r, clock, old(State()), 0)
      {
        ghost var before := State();
        freq[i] := CalculateTachoFreq(r.mbfans[i], r.fans);
        if FanControl.Changed(prev[i], freq[i], THRESHOLD) {
          prev[i] := freq[i];
          SetOutput(i, r.live[i]);
        }
        assert State() == UpdateMb(r, clock, before, i);
        i := i + 1;
      }
    }
  }

  function StartUp(invert: seq<bool>): (s: MbState)
    ensures Sized(s, |invert|)
  {
    MbState(seq(|invert|, _ => 0.0), seq(|invert|, _ => 0.0), seq(|invert|, _ => 0),
            seq(|invert|, i requires 0 <= i < |invert| => !invert[i]))
  }

  // --------------------------------------------------------------------------------------------
  // Runs

  ghost predicate ValidRun(run: seq<Round>, n: nat) {
    forall r :: 0 <= r < |run| ==> ValidRound(run[r], n)
  }

  ghost function Run(run: seq<Round>, clock: nat, s: MbState): (t: MbState)
    requires ValidRun(run, |s.freq|) && Sized(s, |s.freq|)
    ensures Sized(t, |s.freq|)
    decreases |run|
  {
    if run == [] then s else UpdateMbFrom(run[|run| - 1], clock, Run(run[..|run| - 1], clock, s), 0)
  }

  predicate SameOutput(s: MbState, t: MbState, n: nat, k: nat)
    requires Sized(s, n) && Sized(t, n) && k < n
  {
    s.freq[k] == t.freq[k] && s.prev[k] == t.prev[k] && s.period[k] == t.period[k] && s.alarm[k] == t.alarm[k]
  }

  lemma {:induction false} OutputsApart(r: Round, clock: nat, s: MbState, i: nat, k: nat)
    requires Sized(s, |r.mbfans|) && ValidRound(r, |r.mbfans|) && k < i && k < |r.mbfans|
    ensures var t := UpdateMbFrom(r, clock, s, i);
            SameOutput(t, s, |r.mbfans|, k)
    decreases |r.mbfans| - i
  {
    if i < |r.mbfans| { OutputsApart(r, clock, UpdateMb(r, clock, s, i), i + 1, k); }
  }

  /** A round treats each output on its own. */
  lemma {:induction false} OutputInRound(r: Round, clock: nat, s: MbState, i: nat, k: nat)
    requires Sized(s, |r.mbfans|) && ValidRound(r, |r.mbfans|) && i <= k < |r.mbfans|
    ensures SameOutput(UpdateMbFrom(r, clock, s, i), UpdateMb(r, clock, s, k), |r.mbfans|, k)
    decreases k - i
  {
    var t := UpdateMb(r, clock, s, i);
    if i < k {
      OutputInRound(r, clock, t, i + 1, k);
      UpdatesCommute(r, clock, s, i, k);
    } else {
      OutputsApart(r, clock, t, i + 1, k);
    }
  }

  lemma UpdatesCommute(r: Round, clock: nat, s: MbState, i: nat, k: nat)
    requires Sized(s, |r.mbfans|) && ValidRound(r, |r.mbfans|) && i < k < |r.mbfans|
    ensures SameOutput(UpdateMb(r, clock, UpdateMb(r, clock, s, i), k), UpdateMb(r, clock, s, k), |r.mbfans|, k)
  {
  }

  /** Output `k` is a square wave throughout. */
  ghost predicate IsTacho(run: seq<Round>, k: nat) {
    forall r :: 0 <= r < |run| ==> k < |run[r].live| && run[r].live[k].tacho
  }

  /** Output `k` is an alarm with the same settings throughout. */
  ghost predicate IsAlarm(run: seq<Round>, k: nat, l: Live) {
    !l.tacho && forall r :: 0 <= r < |run| ==> k < |run[r].live| && run[r].live[k] == l
  }

  /** In every run from start-up the generator has the period of the remembered frequency, and after a
      round that frequency is the computed one or less than 1 Hz away from it. */
  lemma {:induction false} PinShowsRemembered(run: seq<Round>, clock: nat, invert: seq<bool>, k: nat)
    requires ValidRun(run, |invert|) && k < |invert| && IsTacho(run, k)
    ensures var s := Run(run, clock, StartUp(invert));
            && s.period[k] == SquareWave.DriverPeriod(clock, s.prev[k])
            && (run != [] ==>
                  && s.freq[k] == Freq(run[|run| - 1].mbfans[k], run[|run| - 1].fans)
                  && (s.prev[k] == s.freq[k] || Abs(s.prev[k] - s.freq[k]) < 1.0))
    decreases |run|
  {
    if run != [] {
      var front, last := run[..|run| - 1], run[|run| - 1];
      PinShowsRemembered(front, clock, invert, k);
      OutputInRound(last, clock, Run(front, clock, StartUp(invert)), 0, k);
    }
  }

  /** In every run from start-up an alarm pin shows the alarm level of the remembered frequency, but for
      threshold 0: then the pin starts with an alarm that no speed can give. */
  lemma {:induction false} AlarmShowsRemembered(run: seq<Round>, clock: nat, invert: seq<bool>, k: nat, l: Live)
    requires ValidRun(run, |invert|) && k < |invert| && IsAlarm(run, k, l) && l.factor > 0 && l.invert == invert[k]
    ensures var s := Run(run, clock, StartUp(invert));
            l.threshold > 0 || s.prev[k] != 0.0 ==> s.alarm[k] == AlarmLevel(l, s.prev[k])
    decreases |run|
  {
    if run != [] {
      var front, last := run[..|run| - 1], run[|run| - 1];
      AlarmShowsRemembered(front, clock, invert, k, l);
      OutputInRound(last, clock, Run(front, clock, StartUp(invert)), 0, k);
    }
  }

  /** The frequency that a generator produces with the given period. */
  function Produced(clock: nat, period: nat): real {
    clock as real / SquareWave.WaveLength(period) as real
  }

  /** The driver alone: what it produces for a computed frequency is within the limits, the upper one
      missed by less than one part in the half-cycle length. */
  lemma DriverWithinLimits(c: MbFan, fans: seq<Fan>, clock: nat)
    requires ValidMb(c, fans) && c.factor > 0 && c.minRpm <= c.maxRpm
    requires Freq(c, fans) > 0.0 && SquareWave.HalfPeriod(clock, Freq(c, fans)) > 5
    ensures var f := Freq(c, fans);
            var h := SquareWave.HalfPeriod(clock, f) as real;
            ToFreq(c.minRpm as real, c.factor) <= Produced(clock, SquareWave.DriverPeriod(clock, f))
              < FanControl.Scale(ToFreq(c.maxRpm as real, c.factor), 1.0 + 1.0 / h)
  {
    FreqBounds(c, fans);
    WaveWithin(clock, Freq(c, fans), ToFreq(c.minRpm as real, c.factor), ToFreq(c.maxRpm as real, c.factor));
  }

  // --------------------------------------------------------------------------------------------
  // Limits, over runs

  function FreqOf(r: Round, k: nat): real
    requires ValidRound(r, |r.mbfans|) && k < |r.mbfans|
  {
    Freq(r.mbfans[k], r.fans)
  }

  ghost predicate HasLimits(r: Round, k: nat, lo: nat, hi: nat, factor: nat) {
    k < |r.mbfans| && r.mbfans[k].minRpm == lo && r.mbfans[k].maxRpm == hi && r.mbfans[k].factor == factor
  }

  /** The limits of output `k` and its pulses per revolution are the same throughout. */
  ghost predicate SteadyLimits(run: seq<Round>, k: nat, lo: nat, hi: nat, factor: nat) {
    forall r :: 0 <= r < |run| ==> HasLimits(run[r], k, lo, hi, factor)
  }

  /** Some round has computed at least 1 Hz. */
  ghost predicate Heard(run: seq<Round>, n: nat, k: nat)
    requires ValidRun(run, n) && k < n
  {
    exists r :: 0 <= r < |run| && FreqOf(run[r], k) >= THRESHOLD
  }

  lemma HeardStep(run: seq<Round>, n: nat, k: nat)
    requires ValidRun(run, n) && k < n && run != []
    ensures Heard(run, n, k) <==> Heard(run[..|run| - 1], n, k) || FreqOf(run[|run| - 1], k) >= THRESHOLD
  {
    var front, last := run[..|run| - 1], |run| - 1;
    if Heard(run, n, k) {
      var r :| 0 <= r < |run| && FreqOf(run[r], k) >= THRESHOLD;
      if r < last { assert FreqOf(front[r], k) >= THRESHOLD; }
    }
    if Heard(front, n, k) {
      var r :| 0 <= r < |front| && FreqOf(front[r], k) >= THRESHOLD;
      assert FreqOf(run[r], k) >= THRESHOLD;
    }
  }

  predicate InLimits(f: real, lo: nat, hi: nat, factor: nat) {
    ToFreq(lo as real, factor) <= f <= ToFreq(hi as real, factor)
  }

  /** A limit of 0 is the frequency 0, and no other limit is. */
  lemma LimitSign(rpm: nat, factor: nat)
    requires factor > 0
    ensures ToFreq(rpm as real, factor) >= 0.0 && (ToFreq(rpm as real, factor) == 0.0 <==> rpm == 0)
  {
    if rpm > 0 { FanControl.ScaleStrict(0.0, rpm as real / 60.0, factor as real); }
  }

  /** One round of the hysteresis rule, for frequencies inside the limits. */
  lemma RememberedInLimits(prev: real, f: real, lo: nat, hi: nat, factor: nat, heard: bool)
    requires factor > 0 && InLimits(f, lo, hi, factor) && (if heard then InLimits(prev, lo, hi, factor) else prev == 0.0)
    ensures var p := if FanControl.Changed(prev, f, THRESHOLD) then f else prev;
            if heard || f >= THRESHOLD then InLimits(p, lo, hi, factor) else p == 0.0
  {
    LimitSign(lo, factor);
  }

  /** While the limits stay the same, the remembered frequency is 0 until 1 Hz is computed for the first
      time, and inside the limits from then on. */
  lemma {:induction false} RememberedUntilHeard(run: seq<Round>, clock: nat, invert: seq<bool>, k: nat,
                                                lo: nat, hi: nat, factor: nat)
    requires ValidRun(run, |invert|) && k < |invert| && SteadyLimits(run, k, lo, hi, factor) && lo <= hi && factor > 0
    ensures var p := Run(run, clock, StartUp(invert)).prev[k];
            if Heard(run, |invert|, k) then InLimits(p, lo, hi, factor) else p == 0.0
    decreases |run|
  {
    if run != [] {
      var front, last := run[..|run| - 1], run[|run| - 1];
      RememberedUntilHeard(front, clock, invert, k, lo, hi, factor);
      HeardStep(run, |invert|, k);
      assert HasLimits(last, k, lo, hi, factor);
      FreqBounds(last.mbfans[k], last.fans);
      var s := Run(front, clock, StartUp(invert));
      OutputInRound(last, clock, s, 0, k);
      RememberedInLimits(s.prev[k], FreqOf(last, k), lo, hi, factor, Heard(front, |invert|, k));
    }
  }

  /** After a run with steady limits the remembered frequency is inside them if and only if the lower one
      is 0 or at least 1 Hz has been computed once. */
  lemma LimitsKeptIff(run: seq<Round>, clock: nat, invert: seq<bool>, k: nat, lo: nat, hi: nat, factor: nat)
    requires ValidRun(run, |invert|) && k < |invert| && SteadyLimits(run, k, lo, hi, factor) && lo <= hi && factor > 0
    ensures InLimits(Run(run, clock, StartUp(invert)).prev[k], lo, hi, factor) <==> lo == 0 || Heard(run, |invert|, k)
  {
    RememberedUntilHeard(run, clock, invert, k, lo, hi, factor);
    LimitSign(lo, factor);
    LimitSign(hi, factor);
  }

  /** Every run with these limits, of at least one round, ends inside them. */
  ghost predicate LimitsAlwaysKept(clock: nat, lo: nat, hi: nat, factor: nat) {
    forall run: seq<Round>, invert: seq<bool>, k: nat ::
      ValidRun(run, |invert|) && k < |invert| && run != [] && SteadyLimits(run, k, lo, hi, factor) ==>
        InLimits(Run(run, clock, StartUp(invert)).prev[k], lo, hi, factor)
  }

  /** One output with a fixed speed at its lower limit. */
  function FixedRound(lo: nat, hi: nat, factor: nat): Round {
    Round([MbFan(Fixed(lo), [], [Point(0.0, lo as real), Point(1.0, lo as real)], 1.0, lo, hi, factor)],
          [Live(true, 1, 0, false)], [])
  }

  lemma FixedRoundFreq(lo: nat, hi: nat, factor: nat)
    requires lo <= hi
    ensures ValidRound(FixedRound(lo, hi, factor), 1)
    ensures FreqOf(FixedRound(lo, hi, factor), 0) == ToFreq(lo as real, factor)
  {
    var c := FixedRound(lo, hi, factor).mbfans[0];
    WithinOutputs(c.curve, lo as real, lo as real, lo as real);
    assert Shaped(c, lo as real) == lo as real;
  }

  /** The exact condition: all runs with steady limits keep to them if and only if the lower limit is 0 or
      stands for at least 1 Hz. */
  lemma LimitsAlwaysKeptIff(clock: nat, lo: nat, hi: nat, factor: nat)
    requires lo <= hi && factor > 0
    ensures LimitsAlwaysKept(clock, lo, hi, factor) <==> lo == 0 || ToFreq(lo as real, factor) >= 1.0
  {
    if lo == 0 || ToFreq(lo as real, factor) >= THRESHOLD {
      forall run: seq<Round>, invert: seq<bool>, k: nat
        | ValidRun(run, |invert|) && k < |invert| && run != [] && SteadyLimits(run, k, lo, hi, factor)
        ensures InLimits(Run(run, clock, StartUp(invert)).prev[k], lo, hi, factor)
      {
        LimitsKeptIff(run, clock, invert, k, lo, hi, factor);
        assert HasLimits(run[0], k, lo, hi, factor);
        FreqBounds(run[0].mbfans[k], run[0].fans);
        assert lo > 0 ==> FreqOf(run[0], k) >= THRESHOLD;
      }
    } else {
      FixedRunBelowLimit(clock, lo, hi, factor);
    }
  }

  /** The failing run: a lower limit of less than 1 Hz, computed exactly, never reaches the pin. */
  lemma FixedRunBelowLimit(clock: nat, lo: nat, hi: nat, factor: nat)
    requires 0 < lo <= hi && factor > 0 && ToFreq(lo as real, factor) < THRESHOLD
    ensures var run := [FixedRound(lo, hi, factor)];
            && ValidRun(run, 1) && SteadyLimits(run, 0, lo, hi, factor)
            && FreqOf(run[0], 0) == ToFreq(lo as real, factor)
            && !InLimits(Run(run, clock, StartUp([false])).prev[0], lo, hi, factor)
  {
    var run := [FixedRound(lo, hi, factor)];
    FixedRoundFreq(lo, hi, factor);
    LimitsKeptIff(run, clock, [false], 0, lo, hi, factor);
  }

  /** From any run of fan speeds with steady limits to the pin: once at least 1 Hz was computed, or if
      the lower limit is 0, the generated square wave is at least the lower limit, and above the upper
      one by less than one part in the half-cycle length; before that there is no wave. */
  lemma PinKeepsLimits(run: seq<Round>, clock: nat, invert: seq<bool>, k: nat, lo: nat, hi: nat, factor: nat)
    requires ValidRun(run, |invert|) && k < |invert| && IsTacho(run, k)
    requires SteadyLimits(run, k, lo, hi, factor) && lo <= hi && factor > 0
    ensures var s := Run(run, clock, StartUp(invert));
            var p := s.prev[k];
            && (!Heard(run, |invert|, k) ==> s.period[k] == 0)
            && ((lo == 0 || Heard(run, |invert|, k)) && p > 0.0 && SquareWave.HalfPeriod(clock, p) > 5 ==>
                  ToFreq(lo as real, factor) <= Produced(clock, s.period[k])
                    < FanControl.Scale(ToFreq(hi as real, factor), 1.0 + 1.0 / SquareWave.HalfPeriod(clock, p) as real))
  {
    var s := Run(run, clock, StartUp(invert));
    var p := s.prev[k];
    PinShowsRemembered(run, clock, invert, k);
    RememberedUntilHeard(run, clock, invert, k, lo, hi, factor);
    LimitsKeptIff(run, clock, invert, k, lo, hi, factor);
    if (lo == 0 || Heard(run, |invert|, k)) && p > 0.0 && SquareWave.HalfPeriod(clock, p) > 5 {
      WaveWithin(clock, p, ToFreq(lo as real, factor), ToFreq(hi as real, factor));
    }
  }

  /** The wave for a frequency between two bounds. */
  lemma WaveWithin(clock: nat, p: real, lo: real, hi: real)
    requires p > 0.0 && SquareWave.HalfPeriod(clock, p) > 5 && lo <= p <= hi
    ensures lo <= Produced(clock, SquareWave.DriverPeriod(clock, p))
              < FanControl.Scale(hi, 1.0 + 1.0 / SquareWave.HalfPeriod(clock, p) as real)
  {
    SquareWave.FrequencyError(clock, p);
    Reached(p, hi, Produced(clock, SquareWave.DriverPeriod(clock, p)), 1.0 + 1.0 / SquareWave.HalfPeriod(clock, p) as real);
  }

  /** When limits change during a run, they can be missed by less than 1 Hz: the generated square wave
      stays above the present lower limit less 1 Hz, and below the upper limit plus 1 Hz and one part in
      the half-cycle length. No wave at all means that less than 1 Hz was computed. */
  lemma PinWithinLimits(run: seq<Round>, clock: nat, invert: seq<bool>, k: nat)
    requires ValidRun(run, |invert|) && k < |invert| && IsTacho(run, k) && run != []
    requires var c := run[|run| - 1].mbfans[k]; c.factor > 0 && c.minRpm <= c.maxRpm
    ensures var s := Run(run, clock, StartUp(invert));
            var c, p := run[|run| - 1].mbfans[k], s.prev[k];
            && (p > 0.0 && SquareWave.HalfPeriod(clock, p) > 5 ==>
                  ToFreq(c.minRpm as real, c.factor) - 1.0 < Produced(clock, s.period[k])
                    < FanControl.Scale(ToFreq(c.maxRpm as real, c.factor) + 1.0,
                                       1.0 + 1.0 / SquareWave.HalfPeriod(clock, p) as real))
            && (p <= 0.0 ==> s.period[k] == 0 && s.freq[k] < 1.0)
  {
    var s := Run(run, clock, StartUp(invert));
    var last := run[|run| - 1];
    var c, p := last.mbfans[k], s.prev[k];
    PinShowsRemembered(run, clock, invert, k);
    FreqBounds(c, last.fans);
    if p > 0.0 && SquareWave.HalfPeriod(clock, p) > 5 {
      var lo, hi := ToFreq(c.minRpm as real, c.factor) - THRESHOLD, ToFreq(c.maxRpm as real, c.factor) + THRESHOLD;
      WaveWithin(clock, p, p, hi);
      assert lo < p;
    }
  }

  /** The threshold shows at start-up: frequencies that never reach 1 Hz leave the pin silent for ever,
      whatever the lower limit. */
  lemma SlowSignalStaysSilent(run: seq<Round>, clock: nat, invert: seq<bool>, k: nat)
    requires ValidRun(run, |invert|) && k < |invert| && IsTacho(run, k)
    requires forall r :: 0 <= r < |run| ==> -THRESHOLD < Freq(run[r].mbfans[k], run[r].fans) < THRESHOLD
    ensures Run(run, clock, StartUp(invert)).prev[k] == 0.0 && Run(run, clock, StartUp(invert)).period[k] == 0
    decreases |run|
  {
    if run != [] {
      var front, last := run[..|run| - 1], run[|run| - 1];
      SlowSignalStaysSilent(front, clock, invert, k);
      OutputInRound(last, clock, Run(front, clock, StartUp(invert)), 0, k);
    }
  }

  lemma Reached(f: real, hi: real, produced: real, k: real)
    requires f <= hi && produced < f * k && k >= 0.0
    ensures produced < FanControl.Scale(hi, k)
  {
    FanControl.ScaleMonotone(f, hi, k);
  }
}
