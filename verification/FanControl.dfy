/** Fan outputs: `calculate_pwm_duty` and `set_pwm_duty_cycle` of src/pwm.c, and the fan loop of
    `update_outputs` in src/fanpico.c. Duties are reals. */
module FanControl {
  import opened Curves
  import opened Sweeps
  import opened Means

  datatype Source = Fixed(value: nat) | Mb(id: nat) | Sensor(id: nat) | VSensor(id: nat) | Fan(id: nat)

  datatype FanOutput = FanOutput(minPwm: nat, maxPwm: nat, coefficient: real, source: Source,
                                 curve: seq<Point>, filtered: bool)

  datatype Config = Config(fans: seq<FanOutput>, sensorCurves: seq<seq<Point>>, vsensorCurves: seq<seq<Point>>)

  /** What a round reads besides the configuration: measured values, what each fan's filter would
      return, and the hysteresis taken from the live configuration. */
  datatype Inputs = Inputs(mbDuty: seq<real>, temp: seq<real>, vtemp: seq<real>, filterOut: seq<real>, hyst: seq<real>)

  /** Tables are usable and references stay inside the arrays; `slots` is the size of the fan arrays. */
  ghost predicate ValidConfig(c: Config, slots: nat) {
    && |c.fans| <= slots
    && (forall k :: 0 <= k < |c.sensorCurves| ==> Usable(c.sensorCurves[k]))
    && (forall k :: 0 <= k < |c.vsensorCurves| ==> Usable(c.vsensorCurves[k]))
    && (forall k :: 0 <= k < |c.fans| ==> Usable(c.fans[k].curve))
    && (forall k :: 0 <= k < |c.fans| && c.fans[k].source.Sensor? ==> c.fans[k].source.id < |c.sensorCurves|)
    && (forall k :: 0 <= k < |c.fans| && c.fans[k].source.VSensor? ==> c.fans[k].source.id < |c.vsensorCurves|)
    && (forall k :: 0 <= k < |c.fans| && c.fans[k].source.Fan? ==> c.fans[k].source.id < slots)
  }

  ghost predicate ValidInputs(c: Config, x: Inputs) {
    && |x.filterOut| == |x.hyst| == |c.fans|
    && |x.temp| == |c.sensorCurves| && |x.vtemp| == |c.vsensorCurves|
    && (forall k :: 0 <= k < |c.fans| && c.fans[k].source.Mb? ==> c.fans[k].source.id < |x.mbDuty|)
  }

  function SourceValue(c: Config, x: Inputs, duty: seq<real>, i: nat): real
    requires ValidConfig(c, |duty|) && ValidInputs(c, x) && i < |c.fans|
  {
    match c.fans[i].source
    case Fixed(v) => v as real
    case Mb(id) => x.mbDuty[id]
    case Sensor(id) => Apply(c.sensorCurves[id], x.temp[id])
    case VSensor(id) => Apply(c.vsensorCurves[id], x.vtemp[id])
    case Fan(id) => duty[id]
  }

  function Clamp(v: real, lo: nat, hi: nat): real {
    var w := if v < lo as real then lo as real else v;
    if w > hi as real then hi as real else w
  }

  function Scale(v: real, c: real): real { v * c }

  /** Coefficient and limits, applied to the mapped value. */
  function Limit(f: FanOutput, v: real): real {
    Clamp(Scale(v, f.coefficient), f.minPwm, f.maxPwm)
  }

  /** From the (filtered) source value to the duty. */
  function Output(f: FanOutput, v: real): real
    requires Usable(f.curve)
  {
    Limit(f, Apply(f.curve, v))
  }

  function Duty(c: Config, x: Inputs, duty: seq<real>, i: nat): real
    requires ValidConfig(c, |duty|) && ValidInputs(c, x) && i < |c.fans|
  {
    Output(c.fans[i], if c.fans[i].filtered then x.filterOut[i] else SourceValue(c, x, duty, i))
  }

  /** Hardware compare level for a duty; `top` is the wrap value of the PWM counter. */
  function Level(top: nat, duty: real): nat {
    if duty >= 100.0 then top + 1
    else if duty > 0.0 then PositiveFloor(Scale(duty, (top + 1) as real) / 100.0)
    else 0
  }

  function PositiveFloor(r: real): nat {
    if r >= 0.0 then r.Floor else 0
  }

  predicate Changed(old_: real, new_: real, threshold: real) {
    Abs(old_ - new_) >= threshold
  }

  // --------------------------------------------------------------------------------------------
  // The code

  /** `duty` and `prev` are the state arrays, `level` the hardware registers. */
  datatype FanState = FanState(duty: seq<real>, prev: seq<real>, level: seq<nat>)

  ghost predicate Sized(s: FanState) { |s.duty| == |s.prev| == |s.level| }

  /** Fan `i` of the loop. */
  function UpdateFan(c: Config, x: Inputs, top: nat, s: FanState, i: nat): (t: FanState)
    requires Sized(s) && ValidConfig(c, |s.duty|) && ValidInputs(c, x) && i < |c.fans|
    ensures Sized(t) && |t.duty| == |s.duty|
  {
    var d := Duty(c, x, s.duty, i);
    if Changed(s.prev[i], d, x.hyst[i]) then
      FanState(s.duty[i := d], s.prev[i := d], s.level[i := Level(top, d)])
    else
      s.(duty := s.duty[i := d])
  }

  function UpdateFrom(c: Config, x: Inputs, top: nat, s: FanState, i: nat): (t: FanState)
    requires Sized(s) && ValidConfig(c, |s.duty|) && ValidInputs(c, x)
    ensures Sized(t) && |t.duty| == |s.duty|
    decreases |c.fans| - i
  {
    if i >= |c.fans| then s else UpdateFrom(c, x, top, UpdateFan(c, x, top, s, i), i + 1)
  }

  function Update(c: Config, x: Inputs, top: nat, s: FanState): (t: FanState)
    requires Sized(s) && ValidConfig(c, |s.duty|) && ValidInputs(c, x)
    ensures Sized(t) && |t.duty| == |s.duty|
  {
    UpdateFrom(c, x, top, s, 0)
  }

  class FanOutputs {
    const top: nat
    const fanDuty: array<real>
    const fanDutyPrev: array<real>
    const levels: array<nat>

    ghost predicate Valid()
      reads this, fanDuty, fanDutyPrev, levels
    {
      fanDuty != fanDutyPrev && fanDuty.Length == fanDutyPrev.Length == levels.Length
    }

    ghost function State(): (s: FanState)
      reads this, fanDuty, fanDutyPrev, levels
      requires Valid()
      ensures Sized(s)
    {
      FanState(fanDuty[..], fanDutyPrev[..], levels[..])
    }

    /** Start-up: state cleared and all hardware levels set for duty 0. */
    constructor (slots: nat, top: nat)
      ensures Valid() && this.top == top && fresh(fanDuty) && fresh(fanDutyPrev) && fresh(levels)
      ensures State() == StartUp(slots) && fanDuty.Length == slots
      ensures forall k :: 0 <= k < slots ==> fanDuty[k] == fanDutyPrev[k] == 0.0 && levels[k] == 0
    {
      this.top := top;
      fanDuty := new real[slots](_ => 0.0);
      fanDutyPrev := new real[slots](_ => 0.0);
      levels := new nat[slots](_ => 0);
    }

    method SetPwmDutyCycle(fan: nat, duty: real)
      requires Valid() && fan < levels.Length
      modifies levels
      ensures levels[..] == old(levels[..])[fan := Level(top, duty)]
    {
      var level: nat;
      if duty >= 100.0 {
        level := top + 1;
      } else if duty > 0.0 {
        level := PositiveFloor(Scale(duty, (top + 1) as real) / 100.0);
      } else {
        level := 0;
      }
      levels[fan] := level;
    }

    /** What the duty is, for each of the five sources and for a filter's answer. */
    method CalculatePwmDuty(c: Config, x: Inputs, i: nat) returns (val: real)
      requires Valid() && ValidConfig(c, fanDuty.Length) && ValidInputs(c, x) && i < |c.fans|
      ensures val == Duty(c, x, fanDuty[..], i)
      ensures var f := c.fans[i];
              && (f.filtered ==> Delivers(f, x.filterOut[i], val))
              && (!f.filtered && f.source.Fixed? ==> Delivers(f, f.source.value as real, val))
              && (!f.filtered && f.source.Mb? ==> Delivers(f, x.mbDuty[f.source.id], val))
              && (!f.filtered && f.source.Sensor? ==>
                    Delivers(f, Apply(c.sensorCurves[f.source.id], x.temp[f.source.id]), val))
              && (!f.filtered && f.source.VSensor? ==>
                    Delivers(f, Apply(c.vsensorCurves[f.source.id], x.vtemp[f.source.id]), val))
              && (!f.filtered && f.source.Fan? ==> Delivers(f, fanDuty[f.source.id], val))
    {
      DutyDelivers(c, x, fanDuty[..], i);
      var fan := c.fans[i];
      match fan.source {
        case Fixed(v) => val := v as real;
        case Mb(id) => val := x.mbDuty[id];
        case Sensor(id) => val := Map(c.sensorCurves[id], x.temp[id]);
        case VSensor(id) => val := Map(c.vsensorCurves[id], x.vtemp[id]);
        case Fan(id) => val := fanDuty[id];
      }
      if fan.filtered {
        if x.filterOut[i] != val { val := x.filterOut[i]; }
      }
      val := Map(fan.curve, val);
      val := Scale(val, fan.coefficient);
      if val < fan.minPwm as real { val := fan.minPwm as real; }
      if val > fan.maxPwm as real { val := fan.maxPwm as real; }
    }

    method UpdateOutputs(c: Config, x: Inputs)
      requires Valid() && ValidConfig(c, fanDuty.Length) && ValidInputs(c, x)
      modifies fanDuty, fanDutyPrev, levels
      ensures Valid() && State() == Update(c, x, top, old(State()))
    {
      var i := 0;
      while i < |c.fans|
        invariant 0 <= i <= |c.fans| && Valid()
        invariant UpdateFrom(c, x, top, State(), i) == Update(c, x, top, old(State()))
      {
        ghost var before := State();
        var d := CalculatePwmDuty(c, x, i);
        fanDuty[i] := d;
        if Changed(fanDutyPrev[i], fanDuty[i], x.hyst[i]) {
          fanDutyPrev[i] := fanDuty[i];
          SetPwmDutyCycle(i, fanDuty[i]);
        }
        assert State() == UpdateFan(c, x, top, before, i);
        i := i + 1;
      }
    }
  }

  function StartUp(slots: nat): FanState {
    FanState(seq(slots, _ => 0.0), seq(slots, _ => 0.0), seq(slots, _ => 0))
  }

  // --------------------------------------------------------------------------------------------
  // Bounds and order of one output

  /** `val` is `raw` when that lies inside the limits, and otherwise the limit that it passes; limits in
      the wrong order leave only the upper one. */
  predicate Limited(val: real, raw: real, lo: nat, hi: nat) {
    && (lo as real <= raw <= hi as real ==> val == raw)
    && (raw > hi as real ==> val == hi as real)
    && (raw < lo as real && lo <= hi ==> val == lo as real)
    && (lo > hi && raw < lo as real ==> val == hi as real)
  }

  /** A signal put through the fan's curve and its coefficient, within its limits. */
  predicate Delivers(f: FanOutput, signal: real, val: real)
    requires Usable(f.curve)
  {
    Limited(val, Apply(f.curve, signal) * f.coefficient, f.minPwm, f.maxPwm)
  }

  lemma DutyDelivers(c: Config, x: Inputs, duty: seq<real>, i: nat)
    requires ValidConfig(c, |duty|) && ValidInputs(c, x) && i < |c.fans|
    ensures var f := c.fans[i];
            var val := Duty(c, x, duty, i);
            && (f.filtered ==> Delivers(f, x.filterOut[i], val))
            && (!f.filtered && f.source.Fixed? ==> Delivers(f, f.source.value as real, val))
            && (!f.filtered && f.source.Mb? ==> Delivers(f, x.mbDuty[f.source.id], val))
            && (!f.filtered && f.source.Sensor? ==>
                  Delivers(f, Apply(c.sensorCurves[f.source.id], x.temp[f.source.id]), val))
            && (!f.filtered && f.source.VSensor? ==>
                  Delivers(f, Apply(c.vsensorCurves[f.source.id], x.vtemp[f.source.id]), val))
            && (!f.filtered && f.source.Fan? ==> Delivers(f, duty[f.source.id], val))
  {
    var f := c.fans[i];
    OutputDelivers(f, if f.filtered then x.filterOut[i] else SourceValue(c, x, duty, i));
  }

  lemma OutputDelivers(f: FanOutput, signal: real)
    requires Usable(f.curve)
    ensures Delivers(f, signal, Output(f, signal))
  {
  }

  /** At a point of a strictly sorted curve the duty is that point's output times the coefficient, or the
      limit that this passes; `signal` is what the fan's source shows. */
  lemma DutyAtPoint(c: Config, x: Inputs, duty: seq<real>, i: nat, k: nat)
    requires ValidConfig(c, |duty|) && ValidInputs(c, x) && i < |c.fans| && !c.fans[i].filtered
    requires StrictlySorted(c.fans[i].curve) && k < |c.fans[i].curve|
    ensures var f := c.fans[i];
            var p := f.curve[k];
            var signal := match f.source
                          case Fixed(v) => v as real
                          case Mb(id) => x.mbDuty[id]
                          case Sensor(id) => Apply(c.sensorCurves[id], x.temp[id])
                          case VSensor(id) => Apply(c.vsensorCurves[id], x.vtemp[id])
                          case Fan(id) => duty[id];
            signal == p.x ==> Limited(Duty(c, x, duty, i), p.y * f.coefficient, f.minPwm, f.maxPwm)
  {
    DutyDelivers(c, x, duty, i);
    HitsEveryPoint(c.fans[i].curve, k);
  }

  /** The duty never exceeds the maximum, and keeps above the minimum exactly for ordered limits. */
  lemma OutputBounds(f: FanOutput, v: real)
    requires Usable(f.curve)
    ensures Output(f, v) <= f.maxPwm as real
    ensures f.minPwm as real <= Output(f, v) <==> f.minPwm <= f.maxPwm
  {
  }

  lemma LevelBounds(top: nat, duty: real)
    ensures Level(top, duty) <= top + 1
    ensures Level(top, duty) == top + 1 <==> duty >= 100.0
    ensures duty <= 0.0 ==> Level(top, duty) == 0
    ensures 0.0 < duty < 100.0 ==>
              Level(top, duty) as real * 100.0 <= Scale(duty, (top + 1) as real) < (Level(top, duty) + 1) as real * 100.0
  {
    if 0.0 < duty < 100.0 {
      var t := (top + 1) as real;
      ScaleStrict(0.0, duty, t);
      ScaleStrict(duty, 100.0, t);
      FloorOfHundredth(Scale(duty, t), t);
    }
  }

  lemma FloorOfHundredth(p: real, t: real)
    requires 0.0 < p < 100.0 * t
    ensures var k := PositiveFloor(p / 100.0); k as real * 100.0 <= p < (k + 1) as real * 100.0 && k as real < t
  {
    var r := p / 100.0;
    assert r.Floor as real <= r < (r.Floor + 1) as real;
  }

  lemma ScaleStrict(a: real, b: real, c: real)
    requires a < b && 0.0 < c
    ensures Scale(a, c) < Scale(b, c)
  {
    MulPositive(b - a, c);
    assert (b - a) * c == b * c - a * c;
  }

  lemma LevelMonotone(top: nat, a: real, b: real)
    requires a <= b
    ensures Level(top, a) <= Level(top, b)
  {
    if 0.0 < a && b < 100.0 {
      var t := (top + 1) as real;
      ScaleMonotone(a, b, t);
      ScaleMonotone(0.0, a, t);
      var r, q := Scale(a, t) / 100.0, Scale(b, t) / 100.0;
      assert 0.0 <= r <= q;
      assert r.Floor <= q.Floor;
    } else {
      LevelBounds(top, a);
      LevelBounds(top, b);
    }
  }

  predicate Increasing(f: FanOutput) {
    Usable(f.curve) && Rising(f.curve) && f.coefficient >= 0.0
  }

  lemma OutputMonotone(f: FanOutput, a: real, b: real)
    requires Increasing(f) && a <= b
    ensures Output(f, a) <= Output(f, b)
  {
    Monotone(f.curve, a, b);
    LimitMonotone(f, Apply(f.curve, a), Apply(f.curve, b));
  }

  lemma LimitMonotone(f: FanOutput, v: real, w: real)
    requires v <= w && 0.0 <= f.coefficient
    ensures Limit(f, v) <= Limit(f, w)
  {
    ScaleMonotone(v, w, f.coefficient);
  }

  lemma ScaleMonotone(a: real, b: real, c: real)
    requires a <= b && 0.0 <= c
    ensures Scale(a, c) <= Scale(b, c)
  {
    MulNonNegative(b - a, c);
    assert (b - a) * c == b * c - a * c;
  }

  // --------------------------------------------------------------------------------------------
  // Order of whole rounds

  /** The fan loop as a sweep: cells are duties. */
  function DutyRule(c: Config, x: Inputs, size: nat): Rule
    requires ValidConfig(c, size) && ValidInputs(c, x)
  {
    (i: nat, d: seq<real>) => if |d| == size && i < |c.fans| then Duty(c, x, d, i) else 0.0
  }

  lemma {:induction false} UpdateIsSweep(c: Config, x: Inputs, top: nat, s: FanState, i: nat)
    requires Sized(s) && ValidConfig(c, |s.duty|) && ValidInputs(c, x)
    ensures UpdateFrom(c, x, top, s, i).duty == SweepFrom(DutyRule(c, x, |s.duty|), |c.fans|, s.duty, i)
    decreases |c.fans| - i
  {
    if i < |c.fans| {
      UpdateIsSweep(c, x, top, UpdateFan(c, x, top, s, i), i + 1);
    }
  }

  /** Nothing is filtered and every curve and coefficient is increasing. */
  ghost predicate Responsive(c: Config) {
    && (forall k :: 0 <= k < |c.fans| ==> Increasing(c.fans[k]) && !c.fans[k].filtered)
    && (forall k :: 0 <= k < |c.sensorCurves| ==> Rising(c.sensorCurves[k]))
    && (forall k :: 0 <= k < |c.vsensorCurves| ==> Rising(c.vsensorCurves[k]))
  }

  predicate SignalsBelow(x: Inputs, y: Inputs) {
    Below(x.mbDuty, y.mbDuty) && Below(x.temp, y.temp) && Below(x.vtemp, y.vtemp)
  }

  lemma DutyMonotone(c: Config, x: Inputs, y: Inputs, d: seq<real>, e: seq<real>, i: nat)
    requires ValidConfig(c, |d|) && ValidInputs(c, x) && ValidInputs(c, y) && i < |c.fans|
    requires Responsive(c) && SignalsBelow(x, y) && Below(d, e)
    ensures Duty(c, x, d, i) <= Duty(c, y, e, i)
  {
    match c.fans[i].source {
      case Sensor(id) => Monotone(c.sensorCurves[id], x.temp[id], y.temp[id]);
      case VSensor(id) => Monotone(c.vsensorCurves[id], x.vtemp[id], y.vtemp[id]);
      case _ =>
    }
    OutputMonotone(c.fans[i], SourceValue(c, x, d, i), SourceValue(c, y, e, i));
  }

  /** Higher signals never lower any computed duty, nor the level it stands for, in a whole round,
      however the fans follow each other. */
  lemma RoundMonotone(c: Config, x: Inputs, y: Inputs, top: nat, s: FanState, t: FanState)
    requires Sized(s) && Sized(t) && ValidConfig(c, |s.duty|) && ValidInputs(c, x) && ValidInputs(c, y)
    requires Responsive(c) && SignalsBelow(x, y) && Below(s.duty, t.duty)
    ensures Below(Update(c, x, top, s).duty, Update(c, y, top, t).duty)
    ensures forall k :: 0 <= k < |s.duty| ==>
              Level(top, Update(c, x, top, s).duty[k]) <= Level(top, Update(c, y, top, t).duty[k])
  {
    var size := |s.duty|;
    var low, high := DutyRule(c, x, size), DutyRule(c, y, size);
    forall i: nat, d: seq<real>, e: seq<real> | i < |c.fans| && |d| == size && Below(d, e)
      ensures low(i, d) <= high(i, e)
    {
      DutyMonotone(c, x, y, d, e, i);
    }
    SweepOrdered(low, high, |c.fans|, s.duty, t.duty, 0);
    UpdateIsSweep(c, x, top, s, 0);
    UpdateIsSweep(c, y, top, t, 0);
    forall k | 0 <= k < size
      ensures Level(top, Update(c, x, top, s).duty[k]) <= Level(top, Update(c, y, top, t).duty[k])
    {
      LevelMonotone(top, Update(c, x, top, s).duty[k], Update(c, y, top, t).duty[k]);
    }
  }

  // --------------------------------------------------------------------------------------------
  // Convergence of references

  predicate Follower(c: Config, i: nat) {
    i < |c.fans| && !c.fans[i].filtered && c.fans[i].source.Fan? && c.fans[i].source.id < |c.fans|
  }

  /** The chain of references starting at fan `i` ends within `fuel` hops. */
  predicate Ends(c: Config, i: nat, fuel: nat)
    decreases fuel
  {
    Follower(c, i) ==> fuel > 0 && Ends(c, c.fans[i].source.id, fuel - 1)
  }

  /** Hops along the chain that lead to the same or a later fan; only these cost a round. */
  function LateHops(c: Config, i: nat, fuel: nat): nat
    decreases fuel
  {
    if fuel == 0 || !Follower(c, i) then 0
    else
      var j := c.fans[i].source.id;
      (if j < i then 0 else 1) + LateHops(c, j, fuel - 1)
  }

  lemma {:induction false} FuelIrrelevant(c: Config, i: nat, fuel: nat)
    requires Ends(c, i, fuel)
    ensures LateHops(c, i, fuel + 1) == LateHops(c, i, fuel)
    decreases fuel
  {
    if Follower(c, i) { FuelIrrelevant(c, c.fans[i].source.id, fuel - 1); }
  }

  function FanGraph(c: Config): Graph {
    Graph(seq(|c.fans|, i requires 0 <= i < |c.fans| =>
            if !c.fans[i].filtered && c.fans[i].source.Fan? then {c.fans[i].source.id} else {}), {})
  }

  function FanRank(c: Config, fuel: nat): seq<nat> {
    seq(|c.fans|, i requires 0 <= i < |c.fans| => LateHops(c, i, fuel))
  }

  lemma FansFollowGraph(c: Config, x: Inputs, size: nat)
    requires ValidConfig(c, size) && ValidInputs(c, x)
    ensures Follows(DutyRule(c, x, size), FanGraph(c), size)
  {
    var rule, g := DutyRule(c, x, size), FanGraph(c);
    forall i: nat, s: seq<real>, t: seq<real> ensures ReadsRefs(rule, g, size, i, s, t) {
      if i < |g.refs| && |s| == size && SameRefs(g, s, t, i) && !c.fans[i].filtered && c.fans[i].source.Fan? {
        assert c.fans[i].source.id in g.refs[i];
        assert Same(s, t, c.fans[i].source.id);
      }
    }
  }

  lemma FansRanked(c: Config, fuel: nat)
    requires forall i: nat :: i < |c.fans| ==> Ends(c, i, fuel)
    ensures Ranked(FanGraph(c), FanRank(c, fuel))
  {
    var g, rank := FanGraph(c), FanRank(c, fuel);
    forall i: nat, j: nat | i < |g.refs| && !Outside(g, i) && !Outside(g, j) && j in g.refs[i]
      ensures if j < i then rank[j] <= rank[i] else rank[j] < rank[i]
    {
      assert Follower(c, i) && c.fans[i].source.id == j;
      assert Ends(c, i, fuel);
      FuelIrrelevant(c, j, fuel - 1);
    }
  }

  function DutyAfter(c: Config, x: Inputs, top: nat, s: FanState, rounds: nat): (t: FanState)
    requires Sized(s) && ValidConfig(c, |s.duty|) && ValidInputs(c, x)
    ensures Sized(t) && |t.duty| == |s.duty|
    decreases rounds
  {
    if rounds == 0 then s else DutyAfter(c, x, top, Update(c, x, top, s), rounds - 1)
  }

  lemma {:induction false} RoundsAreSweeps(c: Config, x: Inputs, top: nat, s: FanState, rounds: nat)
    requires Sized(s) && ValidConfig(c, |s.duty|) && ValidInputs(c, x)
    ensures DutyAfter(c, x, top, s, rounds).duty == Rounds(DutyRule(c, x, |s.duty|), |c.fans|, s.duty, rounds)
    decreases rounds
  {
    if rounds > 0 {
      UpdateIsSweep(c, x, top, s, 0);
      RoundsAreSweeps(c, x, top, Update(c, x, top, s), rounds - 1);
    }
  }

  /** With inputs held still and reference chains that end, `d + 1` rounds settle every duty, where
      `d` bounds the hops to the same or a later fan; the settled duties depend on nothing in the
      starting state but the slots beyond the last fan, and are the only ones a round keeps. */
  lemma ReferencesConverge(c: Config, x: Inputs, top: nat, s: FanState, t: FanState, fuel: nat, d: nat)
    requires Sized(s) && Sized(t) && |s.duty| == |t.duty| && ValidConfig(c, |s.duty|) && ValidInputs(c, x)
    requires s.duty[|c.fans|..] == t.duty[|c.fans|..]
    requires forall i: nat :: i < |c.fans| ==> Ends(c, i, fuel) && LateHops(c, i, fuel) <= d
    ensures var f := DutyAfter(c, x, top, s, d + 1);
            && Update(c, x, top, f).duty == f.duty
            && DutyAfter(c, x, top, t, d + 1).duty == f.duty
            && (Update(c, x, top, t).duty == t.duty ==> t.duty == f.duty)
  {
    var rule, g := DutyRule(c, x, |s.duty|), FanGraph(c);
    FansFollowGraph(c, x, |s.duty|);
    FansRanked(c, fuel);
    forall k: nat | Outside(g, k) ensures Same(s.duty, t.duty, k) {
      if |c.fans| <= k < |s.duty| {
        assert s.duty[k] == s.duty[|c.fans|..][k - |c.fans|] == t.duty[|c.fans|..][k - |c.fans|];
      }
    }
    Converges(rule, g, FanRank(c, fuel), d, s.duty, t.duty);
    RoundsAreSweeps(c, x, top, s, d + 1);
    RoundsAreSweeps(c, x, top, t, d + 1);
    UpdateIsSweep(c, x, top, DutyAfter(c, x, top, s, d + 1), 0);
    UpdateIsSweep(c, x, top, t, 0);
  }

  /** A cycle has no such guarantee: a fan that follows itself can settle at different duties. */
  lemma SelfReferenceKeepsBoth()
    ensures var c := Config([FanOutput(0, 100, 1.0, Fan(0), [Point(0.0, 0.0), Point(100.0, 100.0)], false)], [], []);
            var x := Inputs([], [], [], [0.0], [1.0]);
            && ValidConfig(c, 1) && ValidInputs(c, x)
            && Duty(c, x, [0.0], 0) == 0.0 && Duty(c, x, [100.0], 0) == 100.0
  {
    var m := [Point(0.0, 0.0), Point(100.0, 100.0)];
    assert SegmentFrom(m, 100.0, 1) == 1;
  }

  // --------------------------------------------------------------------------------------------
  // Runs

  /** A run is one configuration and one set of inputs a round. */
  ghost predicate ValidRun(run: seq<(Config, Inputs)>, slots: nat) {
    forall k :: 0 <= k < |run| ==> ValidConfig(run[k].0, slots) && ValidInputs(run[k].0, run[k].1)
  }

  ghost function RunFrom(top: nat, s: FanState, run: seq<(Config, Inputs)>): (t: FanState)
    requires Sized(s) && ValidRun(run, |s.duty|)
    ensures Sized(t) && |t.duty| == |s.duty|
    decreases |run|
  {
    if run == [] then s
    else
      var last := run[|run| - 1];
      Update(last.0, last.1, top, RunFrom(top, s, run[..|run| - 1]))
  }

  ghost predicate RunsOrdered(low: seq<(Config, Inputs)>, high: seq<(Config, Inputs)>) {
    && |low| == |high|
    && forall k :: 0 <= k < |low| ==>
         low[k].0 == high[k].0 && Responsive(low[k].0) && SignalsBelow(low[k].1, high[k].1)
  }

  /** Over a whole run signals that are higher throughout never lower a computed duty. */
  lemma {:induction false} RunMonotone(top: nat, s: FanState, low: seq<(Config, Inputs)>, high: seq<(Config, Inputs)>)
    requires Sized(s) && ValidRun(low, |s.duty|) && ValidRun(high, |s.duty|) && RunsOrdered(low, high)
    ensures Below(RunFrom(top, s, low).duty, RunFrom(top, s, high).duty)
    decreases |low|
  {
    if low != [] {
      var n := |low| - 1;
      RunMonotone(top, s, low[..n], high[..n]);
      RoundMonotone(low[n].0, low[n].1, high[n].1, top, RunFrom(top, s, low[..n]), RunFrom(top, s, high[..n]));
    }
  }

  /** The hardware always shows the remembered duty. */
  ghost predicate Shadowed(top: nat, s: FanState) {
    Sized(s) && forall k :: 0 <= k < |s.level| ==> s.level[k] == Level(top, s.prev[k])
  }

  ghost predicate Tracked(c: Config, x: Inputs, s: FanState, n: nat)
    requires n <= |c.fans| <= |s.duty| && Sized(s) && |x.hyst| == |c.fans|
  {
    forall k :: 0 <= k < n ==>
      && (s.prev[k] == s.duty[k] || Abs(s.prev[k] - s.duty[k]) < x.hyst[k])
      && s.duty[k] <= c.fans[k].maxPwm as real
      && (c.fans[k].minPwm <= c.fans[k].maxPwm ==> c.fans[k].minPwm as real <= s.duty[k])
  }

  lemma {:induction false} UpdateTracks(c: Config, x: Inputs, top: nat, s: FanState, i: nat)
    requires Shadowed(top, s) && ValidConfig(c, |s.duty|) && ValidInputs(c, x) && i <= |c.fans|
    requires Tracked(c, x, s, i)
    ensures Shadowed(top, UpdateFrom(c, x, top, s, i))
    ensures Tracked(c, x, UpdateFrom(c, x, top, s, i), |c.fans|)
    decreases |c.fans| - i
  {
    if i < |c.fans| {
      UpdateFanTracks(c, x, top, s, i);
      UpdateTracks(c, x, top, UpdateFan(c, x, top, s, i), i + 1);
    }
  }

  lemma UpdateFanTracks(c: Config, x: Inputs, top: nat, s: FanState, i: nat)
    requires Shadowed(top, s) && ValidConfig(c, |s.duty|) && ValidInputs(c, x) && i < |c.fans|
    requires Tracked(c, x, s, i)
    ensures Shadowed(top, UpdateFan(c, x, top, s, i)) && Tracked(c, x, UpdateFan(c, x, top, s, i), i + 1)
  {
    DutyInLimits(c, x, s.duty, i);
  }

  lemma DutyInLimits(c: Config, x: Inputs, duty: seq<real>, i: nat)
    requires ValidConfig(c, |duty|) && ValidInputs(c, x) && i < |c.fans|
    ensures var f := c.fans[i];
            Duty(c, x, duty, i) <= f.maxPwm as real && (f.minPwm <= f.maxPwm ==> f.minPwm as real <= Duty(c, x, duty, i))
  {
    OutputBounds(c.fans[i], if c.fans[i].filtered then x.filterOut[i] else SourceValue(c, x, duty, i));
  }

  /** In every run from start-up, filters and cyclic references included: the hardware level is the
      level of the remembered duty and stays within range, and after a round the remembered duty is
      the computed one or closer to it than that round's hysteresis, with the computed duty inside
      its limits. */
  lemma {:induction false} HardwareShadowsDuty(top: nat, slots: nat, run: seq<(Config, Inputs)>)
    requires ValidRun(run, slots)
    ensures var s := RunFrom(top, StartUp(slots), run);
            && Shadowed(top, s)
            && (forall k :: 0 <= k < slots ==> s.level[k] <= top + 1)
            && (run != [] ==> Tracked(run[|run| - 1].0, run[|run| - 1].1, s, |run[|run| - 1].0.fans|))
    decreases |run|
  {
    var s := RunFrom(top, StartUp(slots), run);
    if run != [] {
      var last := run[|run| - 1];
      HardwareShadowsDuty(top, slots, run[..|run| - 1]);
      UpdateTracks(last.0, last.1, top, RunFrom(top, StartUp(slots), run[..|run| - 1]), 0);
    }
    forall k | 0 <= k < slots ensures s.level[k] <= top + 1 { LevelBounds(top, s.prev[k]); }
  }

  // --------------------------------------------------------------------------------------------
  // Hysteresis and order

  /** The remembered duty after a series of computed duties, for one fan. */
  function Remembered(prev: real, duties: seq<real>, hyst: real): real
    decreases |duties|
  {
    if duties == [] then prev
    else Remembered(if Changed(prev, duties[0], hyst) then duties[0] else prev, duties[1..], hyst)
  }

  lemma {:induction false} RoundRemembers(c: Config, x: Inputs, top: nat, s: FanState, i: nat, k: nat)
    requires Sized(s) && ValidConfig(c, |s.duty|) && ValidInputs(c, x) && k < |c.fans|
    ensures var t := UpdateFrom(c, x, top, s, i);
            && (k < i ==> t.duty[k] == s.duty[k] && t.prev[k] == s.prev[k])
            && (i <= k ==> t.prev[k] == Remembered(s.prev[k], [t.duty[k]], x.hyst[k]))
    decreases |c.fans| - i
  {
    if i < |c.fans| { RoundRemembers(c, x, top, UpdateFan(c, x, top, s, i), i + 1, k); }
  }

  /** A round of one fan: a duty away from the remembered one by the hysteresis or more is remembered and
      goes to the hardware, and otherwise both stay. */
  predicate Takes(top: nat, prev: real, level: nat, duty: real, hyst: real, prevNow: real, levelNow: nat) {
    if prev - duty >= hyst || duty - prev >= hyst then prevNow == duty && levelNow == Level(top, duty)
    else prevNow == prev && levelNow == level
  }

  /** The duty that a fan has after a round; a fan that it follows counts with its new duty if it comes
      before it in the loop. */
  predicate DeliversInRound(c: Config, x: Inputs, before: seq<real>, after: seq<real>, k: nat)
    requires |before| == |after| && ValidConfig(c, |before|) && ValidInputs(c, x) && k < |c.fans|
  {
    var f := c.fans[k];
    if f.filtered then Delivers(f, x.filterOut[k], after[k])
    else
      match f.source
      case Fixed(v) => Delivers(f, v as real, after[k])
      case Mb(id) => Delivers(f, x.mbDuty[id], after[k])
      case Sensor(id) => Delivers(f, Apply(c.sensorCurves[id], x.temp[id]), after[k])
      case VSensor(id) => Delivers(f, Apply(c.vsensorCurves[id], x.vtemp[id]), after[k])
      case Fan(id) => Delivers(f, if id < k then after[id] else before[id], after[k])
  }

  lemma {:induction false} LaterFansOnly(c: Config, x: Inputs, top: nat, s: FanState, i: nat, k: nat)
    requires Sized(s) && ValidConfig(c, |s.duty|) && ValidInputs(c, x) && k < i && k < |s.duty|
    ensures var t := UpdateFrom(c, x, top, s, i);
            t.duty[k] == s.duty[k] && t.prev[k] == s.prev[k] && t.level[k] == s.level[k]
    decreases |c.fans| - i
  {
    if i < |c.fans| { LaterFansOnly(c, x, top, UpdateFan(c, x, top, s, i), i + 1, k); }
  }

  /** What one round makes of each fan. */
  lemma {:induction false} FanInRound(c: Config, x: Inputs, top: nat, s: FanState, i: nat, k: nat)
    requires Sized(s) && ValidConfig(c, |s.duty|) && ValidInputs(c, x) && i <= k < |c.fans|
    ensures var t := UpdateFrom(c, x, top, s, i);
            && DeliversInRound(c, x, s.duty, t.duty, k)
            && Takes(top, s.prev[k], s.level[k], t.duty[k], x.hyst[k], t.prev[k], t.level[k])
    decreases k - i
  {
    if i < k {
      FanInRound(c, x, top, UpdateFan(c, x, top, s, i), i + 1, k);
    } else {
      FanTaken(c, x, top, s, k);
      RestAfter(c, x, top, s, k, k);
      if c.fans[k].source.Fan? && c.fans[k].source.id < k { RestAfter(c, x, top, s, k, c.fans[k].source.id); }
    }
  }

  lemma RestAfter(c: Config, x: Inputs, top: nat, s: FanState, i: nat, k: nat)
    requires Sized(s) && ValidConfig(c, |s.duty|) && ValidInputs(c, x) && k <= i < |c.fans|
    ensures var t, u := UpdateFrom(c, x, top, s, i), UpdateFan(c, x, top, s, i);
            t.duty[k] == u.duty[k] && t.prev[k] == u.prev[k] && t.level[k] == u.level[k]
  {
    LaterFansOnly(c, x, top, UpdateFan(c, x, top, s, i), i + 1, k);
  }

  /** The step of the loop for the fan itself. */
  lemma FanTaken(c: Config, x: Inputs, top: nat, s: FanState, k: nat)
    requires Sized(s) && ValidConfig(c, |s.duty|) && ValidInputs(c, x) && k < |c.fans|
    ensures var u := UpdateFan(c, x, top, s, k);
            && DeliversInRound(c, x, s.duty, u.duty, k)
            && Takes(top, s.prev[k], s.level[k], u.duty[k], x.hyst[k], u.prev[k], u.level[k])
  {
    DutyDelivers(c, x, s.duty, k);
  }

  /** The duties computed for fan `k` in a run. */
  ghost function Duties(top: nat, s: FanState, run: seq<(Config, Inputs)>, k: nat): seq<real>
    requires Sized(s) && ValidRun(run, |s.duty|) && k < |s.duty|
    decreases |run|
  {
    if run == [] then [] else Duties(top, s, run[..|run| - 1], k) + [RunFrom(top, s, run).duty[k]]
  }

  lemma {:induction false} RememberedAppend(prev: real, duties: seq<real>, d: real, hyst: real)
    ensures Remembered(prev, duties + [d], hyst) == Remembered(Remembered(prev, duties, hyst), [d], hyst)
    decreases |duties|
  {
    if duties == [] {
      assert [] + [d] == [d];
    } else {
      assert (duties + [d])[1..] == duties[1..] + [d];
      RememberedAppend(if Changed(prev, duties[0], hyst) then duties[0] else prev, duties[1..], d, hyst);
    }
  }

  /** The fan exists and its hysteresis is `hyst` throughout. */
  ghost predicate SameHysteresis(run: seq<(Config, Inputs)>, k: nat, hyst: real) {
    forall r :: 0 <= r < |run| ==> k < |run[r].0.fans| && k < |run[r].1.hyst| && run[r].1.hyst[k] == hyst
  }

  /** What the hardware shows after a run depends on the computed duties alone. */
  lemma {:induction false} RunRemembers(top: nat, s: FanState, run: seq<(Config, Inputs)>, k: nat, hyst: real)
    requires Sized(s) && ValidRun(run, |s.duty|) && k < |s.duty| && SameHysteresis(run, k, hyst)
    ensures RunFrom(top, s, run).prev[k] == Remembered(s.prev[k], Duties(top, s, run, k), hyst)
    decreases |run|
  {
    if run != [] {
      var front, last := run[..|run| - 1], run[|run| - 1];
      RunRemembers(top, s, front, k, hyst);
      RoundRemembers(last.0, last.1, top, RunFrom(top, s, front), 0, k);
      RememberedAppend(s.prev[k], Duties(top, s, front, k), RunFrom(top, s, run).duty[k], hyst);
    }
  }

  /** Hysteresis never turns the order of two series of duties within the given limits around. */
  ghost predicate KeepsOrder(lo: real, hi: real, hyst: real) {
    forall a: seq<real>, b: seq<real> :: Below(a, b) && Within(a, lo, hi) && Within(b, lo, hi) ==>
      Remembered(0.0, a, hyst) <= Remembered(0.0, b, hyst)
  }

  /** Every duty is taken over, or only the highest one is (or none), or only the first one is. */
  predicate OrderSafe(lo: real, hi: real, hyst: real) {
    hyst <= 0.0 || hyst >= hi || (hyst <= lo && hyst > hi - lo)
  }

  lemma {:induction false} WithoutHysteresisLast(prev: real, duties: seq<real>, hyst: real)
    requires hyst <= 0.0 && duties != []
    ensures Remembered(prev, duties, hyst) == duties[|duties| - 1]
    decreases |duties|
  {
    if |duties| > 1 { WithoutHysteresisLast(duties[0], duties[1..], hyst); }
  }

  /** Hysteresis too wide for anything but the highest duty. */
  lemma {:induction false} WideKeepsOrder(p: real, q: real, a: seq<real>, b: seq<real>, lo: real, hi: real, hyst: real)
    requires 0.0 <= lo && 0.0 < hyst && hi <= hyst && Below(a, b) && Within(a, lo, hi) && Within(b, lo, hi)
    requires p <= q && (p == 0.0 || p == hi == hyst) && (q == 0.0 || q == hi == hyst)
    ensures Remembered(p, a, hyst) <= Remembered(q, b, hyst)
    decreases |a|
  {
    if a != [] {
      WideKeepsOrder(if Changed(p, a[0], hyst) then a[0] else p, if Changed(q, b[0], hyst) then b[0] else q,
                     a[1..], b[1..], lo, hi, hyst);
    }
  }

  /** Once within limits closer than the hysteresis nothing changes any more. */
  lemma {:induction false} NarrowStays(prev: real, a: seq<real>, lo: real, hi: real, hyst: real)
    requires lo <= prev <= hi && hyst > hi - lo && Within(a, lo, hi)
    ensures Remembered(prev, a, hyst) == prev
    decreases |a|
  {
    if a != [] {
      assert !Changed(prev, a[0], hyst);
      NarrowStays(prev, a[1..], lo, hi, hyst);
    }
  }

  lemma OrderSafeKeepsOrder(a: seq<real>, b: seq<real>, lo: real, hi: real, hyst: real)
    requires 0.0 <= lo && OrderSafe(lo, hi, hyst) && Below(a, b) && Within(a, lo, hi) && Within(b, lo, hi)
    ensures Remembered(0.0, a, hyst) <= Remembered(0.0, b, hyst)
  {
    if a != [] {
      if hyst <= 0.0 {
        WithoutHysteresisLast(0.0, a, hyst);
        WithoutHysteresisLast(0.0, b, hyst);
      } else if hyst >= hi {
        WideKeepsOrder(0.0, 0.0, a, b, lo, hi, hyst);
      } else {
        NarrowStays(a[0], a[1..], lo, hi, hyst);
        NarrowStays(b[0], b[1..], lo, hi, hyst);
      }
    }
  }

  lemma TwoDuties(x: real, y: real, hyst: real)
    ensures Remembered(0.0, [x, y], hyst) ==
              (var p := if Changed(0.0, x, hyst) then x else 0.0; if Changed(p, y, hyst) then y else p)
  {
    assert [x, y][1..] == [y];
    OneDuty(if Changed(0.0, x, hyst) then x else 0.0, y, hyst);
  }

  lemma OneDuty(p: real, y: real, hyst: real)
    ensures Remembered(p, [y], hyst) == if Changed(p, y, hyst) then y else p
  {
    assert [y][1..] == [];
  }

  /** Outside the safe cases two rounds suffice to turn the order around: both duties end at `hi`, but only
      the lower one moved far enough for that to be taken over. */
  lemma Inversion(lo: real, hi: real, hyst: real) returns (a: seq<real>, b: seq<real>)
    requires 0.0 <= lo && !OrderSafe(lo, hi, hyst)
    ensures Below(a, b) && Within(a, lo, hi) && Within(b, lo, hi)
    ensures Remembered(0.0, a, hyst) == hi > Remembered(0.0, b, hyst) >= 0.0
  {
    var y := Max3(hi - 0.5 * hyst, hyst, lo);
    a, b := [lo, hi], [y, hi];
    TwoDuties(lo, hi, hyst);
    TwoDuties(y, hi, hyst);
  }

  function Max3(x: real, y: real, z: real): (m: real)
    ensures m >= x && m >= y && m >= z && (m == x || m == y || m == z)
  {
    var m := if x < y then y else x;
    if m < z then z else m
  }

  /** For duties between `lo` and `hi`, a higher series never ends at a lower remembered duty exactly in
      the safe cases: hysteresis 0, hysteresis of at least `hi`, or hysteresis of at most `lo` that is
      wider than the limits are apart. */
  lemma OrderKeptIff(lo: real, hi: real, hyst: real)
    requires 0.0 <= lo
    ensures KeepsOrder(lo, hi, hyst) <==> OrderSafe(lo, hi, hyst)
  {
    if OrderSafe(lo, hi, hyst) {
      forall a: seq<real>, b: seq<real> | Below(a, b) && Within(a, lo, hi) && Within(b, lo, hi)
        ensures Remembered(0.0, a, hyst) <= Remembered(0.0, b, hyst)
      {
        OrderSafeKeepsOrder(a, b, lo, hi, hyst);
      }
    } else {
      var a, b := Inversion(lo, hi, hyst);
    }
  }

  /** An inversion stays below the hysteresis. */
  lemma {:induction false} InversionBounded(p: real, q: real, a: seq<real>, b: seq<real>, hyst: real)
    requires Below(a, b) && hyst > 0.0 && p < q + hyst
    ensures Remembered(p, a, hyst) < Remembered(q, b, hyst) + hyst
    decreases |a|
  {
    if a != [] {
      InversionBounded(if Changed(p, a[0], hyst) then a[0] else p, if Changed(q, b[0], hyst) then b[0] else q,
                       a[1..], b[1..], hyst);
    }
  }

  /** Within one round, from a common remembered duty, order is always kept. */
  lemma OneRoundKeepsOrder(prev: real, a: real, b: real, hyst: real)
    requires a <= b
    ensures Remembered(prev, [a], hyst) <= Remembered(prev, [b], hyst)
  {
    assert [a][1..] == [] && [b][1..] == [];
  }

  // --------------------------------------------------------------------------------------------
  // Hysteresis and order, over runs

  /** The fan's limits are the same throughout. */
  ghost predicate SameLimits(run: seq<(Config, Inputs)>, k: nat, lo: nat, hi: nat) {
    forall r :: 0 <= r < |run| ==>
      k < |run[r].0.fans| && run[r].0.fans[k].minPwm == lo && run[r].0.fans[k].maxPwm == hi
  }

  /** A fan whose limits and hysteresis do not change. */
  ghost predicate Settings(run: seq<(Config, Inputs)>, k: nat, lo: nat, hi: nat, hyst: real) {
    SameLimits(run, k, lo, hi) && SameHysteresis(run, k, hyst)
  }

  lemma {:induction false} DutiesWithin(top: nat, slots: nat, run: seq<(Config, Inputs)>, k: nat, lo: nat, hi: nat)
    requires ValidRun(run, slots) && k < slots && SameLimits(run, k, lo, hi)
    ensures Within(Duties(top, StartUp(slots), run, k), (if lo <= hi then lo else hi) as real, hi as real)
    decreases |run|
  {
    if run != [] {
      var front, last := run[..|run| - 1], run[|run| - 1];
      DutiesWithin(top, slots, front, k, lo, hi);
      DutyInRound(last.0, last.1, top, RunFrom(top, StartUp(slots), front), 0, k);
    }
  }

  /** The duty computed for fan `k` in a round obeys its limits, whichever way round they are. */
  lemma {:induction false} DutyInRound(c: Config, x: Inputs, top: nat, s: FanState, i: nat, k: nat)
    requires Sized(s) && ValidConfig(c, |s.duty|) && ValidInputs(c, x) && k < |c.fans|
    ensures var f := c.fans[k];
            i <= k ==> (if f.minPwm <= f.maxPwm then f.minPwm else f.maxPwm) as real
                         <= UpdateFrom(c, x, top, s, i).duty[k] <= f.maxPwm as real
    decreases |c.fans| - i
  {
    if i < |c.fans| {
      var t := UpdateFan(c, x, top, s, i);
      DutyInRound(c, x, top, t, i + 1, k);
      if i == k { RoundRemembers(c, x, top, t, i + 1, k); }
    }
  }

  lemma DutiesNext(top: nat, s: FanState, run: seq<(Config, Inputs)>, k: nat)
    requires Sized(s) && ValidRun(run, |s.duty|) && k < |s.duty| && run != []
    ensures var front := run[..|run| - 1];
            ValidRun(front, |s.duty|) && Duties(top, s, run, k) == Duties(top, s, front, k) + [RunFrom(top, s, run).duty[k]]
  {
  }

  lemma {:induction false} DutiesBelow(top: nat, s: FanState, low: seq<(Config, Inputs)>, high: seq<(Config, Inputs)>, k: nat)
    requires Sized(s) && ValidRun(low, |s.duty|) && ValidRun(high, |s.duty|) && RunsOrdered(low, high) && k < |s.duty|
    ensures Below(Duties(top, s, low, k), Duties(top, s, high, k))
    decreases |low|
  {
    if low != [] {
      var n := |low| - 1;
      DutiesNext(top, s, low, k);
      DutiesNext(top, s, high, k);
      RunsOrderedFront(low, high);
      DutiesBelow(top, s, low[..n], high[..n], k);
      RunMonotone(top, s, low, high);
      BelowAppend(Duties(top, s, low[..n], k), Duties(top, s, high[..n], k),
                  RunFrom(top, s, low).duty[k], RunFrom(top, s, high).duty[k]);
    }
  }

  lemma RunsOrderedFront(low: seq<(Config, Inputs)>, high: seq<(Config, Inputs)>)
    requires RunsOrdered(low, high) && low != []
    ensures RunsOrdered(low[..|low| - 1], high[..|low| - 1])
  {
  }

  lemma BelowAppend(a: seq<real>, b: seq<real>, d: real, e: real)
    requires Below(a, b) && d <= e
    ensures Below(a + [d], b + [e])
  {
  }

  /** In the safe cases, signals that are higher throughout a run never give a lower remembered duty. */
  lemma PrevKeepsOrder(top: nat, slots: nat, low: seq<(Config, Inputs)>, high: seq<(Config, Inputs)>, k: nat,
                       lo: nat, hi: nat, hyst: real)
    requires ValidRun(low, slots) && ValidRun(high, slots) && RunsOrdered(low, high) && k < slots
    requires Settings(low, k, lo, hi, hyst) && Settings(high, k, lo, hi, hyst)
    requires OrderSafe(lo as real, hi as real, hyst)
    ensures RunFrom(top, StartUp(slots), low).prev[k] <= RunFrom(top, StartUp(slots), high).prev[k]
  {
    var s := StartUp(slots);
    RunRemembers(top, s, low, k, hyst);
    RunRemembers(top, s, high, k, hyst);
    DutiesWithin(top, slots, low, k, lo, hi);
    DutiesWithin(top, slots, high, k, lo, hi);
    DutiesBelow(top, s, low, high, k);
    var l := if lo <= hi then lo else hi;
    OrderSafeKeepsOrder(Duties(top, s, low, k), Duties(top, s, high, k), l as real, hi as real, hyst);
  }

  /** Signals that are higher throughout a run never give a lower hardware level, if the last round knows
      no hysteresis or the settings are safe. */
  lemma LevelsKeepOrder(top: nat, slots: nat, low: seq<(Config, Inputs)>, high: seq<(Config, Inputs)>, k: nat,
                        lo: nat, hi: nat, hyst: real)
    requires ValidRun(low, slots) && ValidRun(high, slots) && RunsOrdered(low, high) && low != []
    requires k < |low[|low| - 1].0.fans|
    requires || (low[|low| - 1].1.hyst[k] <= 0.0 && high[|high| - 1].1.hyst[k] <= 0.0)
             || (Settings(low, k, lo, hi, hyst) && Settings(high, k, lo, hi, hyst)
                 && OrderSafe(lo as real, hi as real, hyst))
    ensures RunFrom(top, StartUp(slots), low).level[k] <= RunFrom(top, StartUp(slots), high).level[k]
  {
    var s, t := RunFrom(top, StartUp(slots), low), RunFrom(top, StartUp(slots), high);
    HardwareShadowsDuty(top, slots, low);
    HardwareShadowsDuty(top, slots, high);
    if low[|low| - 1].1.hyst[k] <= 0.0 && high[|high| - 1].1.hyst[k] <= 0.0 {
      RunMonotone(top, StartUp(slots), low, high);
      assert s.prev[k] == s.duty[k] && t.prev[k] == t.duty[k];
    } else {
      PrevKeepsOrder(top, slots, low, high, k, lo, hi, hyst);
    }
    LevelMonotone(top, s.prev[k], t.prev[k]);
  }

  /** Fan `k` exists, and in each round has the same hysteresis in both runs, at most `bound`. */
  ghost predicate SharedHysteresis(low: seq<(Config, Inputs)>, high: seq<(Config, Inputs)>, k: nat, bound: real) {
    |low| == |high| && forall r :: 0 <= r < |low| ==> SharedInRound(low[r], high[r], k, bound)
  }

  ghost predicate SharedInRound(a: (Config, Inputs), b: (Config, Inputs), k: nat, bound: real) {
    k < |a.0.fans| && k < |b.0.fans| && k < |a.1.hyst| && k < |b.1.hyst| && a.1.hyst[k] == b.1.hyst[k] <= bound
  }

  /** One duty each, the lower not above the higher, keeps an inversion below the bound. */
  lemma InversionStep(p: real, q: real, d: real, e: real, hyst: real, bound: real)
    requires p < q + bound && d <= e && hyst <= bound && 0.0 < bound
    ensures Remembered(p, [d], hyst) < Remembered(q, [e], hyst) + bound
  {
    OneDuty(p, d, hyst);
    OneDuty(q, e, hyst);
  }

  /** In every case, with a hysteresis that changes from round to round, the remembered duty of the lower
      run is less than the widest hysteresis above that of the higher one. */
  lemma {:induction false} RunInversionBounded(top: nat, slots: nat, low: seq<(Config, Inputs)>, high: seq<(Config, Inputs)>,
                                               k: nat, bound: real)
    requires ValidRun(low, slots) && ValidRun(high, slots) && RunsOrdered(low, high) && k < slots && bound > 0.0
    requires SharedHysteresis(low, high, k, bound)
    ensures RunFrom(top, StartUp(slots), low).prev[k] < RunFrom(top, StartUp(slots), high).prev[k] + bound
    decreases |low|
  {
    if low != [] {
      var n := |low| - 1;
      var s, t := RunFrom(top, StartUp(slots), low[..n]), RunFrom(top, StartUp(slots), high[..n]);
      RunInversionBounded(top, slots, low[..n], high[..n], k, bound);
      RunMonotone(top, StartUp(slots), low, high);
      assert SharedInRound(low[n], high[n], k, bound);
      RoundRemembers(low[n].0, low[n].1, top, s, 0, k);
      RoundRemembers(high[n].0, high[n].1, top, t, 0, k);
      InversionStep(s.prev[k], t.prev[k], RunFrom(top, StartUp(slots), low).duty[k],
                    RunFrom(top, StartUp(slots), high).duty[k], low[n].1.hyst[k], bound);
    }
  }

  const IDENTITY: seq<Point> := [Point(0.0, 0.0), Point(100.0, 100.0)]

  /** One fan that follows one sensor one to one. */
  function OneFan(lo: nat, hi: nat): Config {
    Config([FanOutput(lo, hi, 1.0, Sensor(0), IDENTITY, false)], [IDENTITY], [])
  }

  function OneReading(v: real, hyst: real): Inputs { Inputs([], [v], [], [0.0], [hyst]) }

  /** A run that computes the given duties. */
  function SeriesRun(a: seq<real>, lo: nat, hi: nat, hyst: real): (run: seq<(Config, Inputs)>)
    ensures |run| == |a| && forall r :: 0 <= r < |a| ==> run[r] == (OneFan(lo, hi), OneReading(a[r], hyst))
  {
    if a == [] then []
    else SeriesRun(a[..|a| - 1], lo, hi, hyst) + [(OneFan(lo, hi), OneReading(a[|a| - 1], hyst))]
  }

  lemma IdentityApplies(v: real)
    requires 0.0 <= v <= 100.0
    ensures Apply(IDENTITY, v) == v
  {
    assert SegmentFrom(IDENTITY, v, 1) == 1;
    if 0.0 < v < 100.0 { assert Line(IDENTITY[0], IDENTITY[1], v) == 0.0 + 1.0 * (v - 0.0); }
  }

  lemma OneFanDuty(v: real, hyst: real, top: nat, s: FanState, lo: nat, hi: nat)
    requires Sized(s) && |s.duty| == 1 && lo as real <= v <= hi as real && hi <= 100
    ensures Update(OneFan(lo, hi), OneReading(v, hyst), top, s).duty == [v]
  {
    IdentityApplies(v);
    var c, x := OneFan(lo, hi), OneReading(v, hyst);
    assert Duty(c, x, s.duty, 0) == v;
    assert UpdateFrom(c, x, top, UpdateFan(c, x, top, s, 0), 1).duty == [v];
  }

  lemma SeriesRunValid(a: seq<real>, lo: nat, hi: nat, hyst: real)
    ensures ValidRun(SeriesRun(a, lo, hi, hyst), 1)
  {
    var run := SeriesRun(a, lo, hi, hyst);
    forall r | 0 <= r < |run| ensures ValidConfig(run[r].0, 1) && ValidInputs(run[r].0, run[r].1) {
      OneFanValid(a[r], lo, hi, hyst);
    }
  }

  lemma OneFanValid(v: real, lo: nat, hi: nat, hyst: real)
    ensures ValidConfig(OneFan(lo, hi), 1) && ValidInputs(OneFan(lo, hi), OneReading(v, hyst))
  {
  }

  lemma SeriesRunFront(a: seq<real>, lo: nat, hi: nat, hyst: real)
    requires a != []
    ensures SeriesRun(a, lo, hi, hyst)[..|a| - 1] == SeriesRun(a[..|a| - 1], lo, hi, hyst)
  {
  }

  /** Every series of duties within the limits is computed in some run. */
  lemma {:induction false} SeriesRunComputes(a: seq<real>, top: nat, lo: nat, hi: nat, hyst: real)
    requires Within(a, lo as real, hi as real) && hi <= 100
    ensures ValidRun(SeriesRun(a, lo, hi, hyst), 1)
    ensures Duties(top, StartUp(1), SeriesRun(a, lo, hi, hyst), 0) == a
    decreases |a|
  {
    SeriesRunValid(a, lo, hi, hyst);
    if a == [] {
      assert SeriesRun(a, lo, hi, hyst) == [];
    } else {
      var front := a[..|a| - 1];
      WithinFront(a, lo as real, hi as real);
      SeriesRunComputes(front, top, lo, hi, hyst);
      SeriesRunGrows(a, top, lo, hi, hyst);
    }
  }

  lemma WithinFront(a: seq<real>, lo: real, hi: real)
    requires Within(a, lo, hi) && a != []
    ensures Within(a[..|a| - 1], lo, hi) && a == a[..|a| - 1] + [a[|a| - 1]]
  {
  }

  lemma SeriesRunGrows(a: seq<real>, top: nat, lo: nat, hi: nat, hyst: real)
    requires a != [] && Within(a, lo as real, hi as real) && hi <= 100
    requires ValidRun(SeriesRun(a, lo, hi, hyst), 1) && ValidRun(SeriesRun(a[..|a| - 1], lo, hi, hyst), 1)
    ensures Duties(top, StartUp(1), SeriesRun(a, lo, hi, hyst), 0) ==
              Duties(top, StartUp(1), SeriesRun(a[..|a| - 1], lo, hi, hyst), 0) + [a[|a| - 1]]
  {
    var v := a[|a| - 1];
    var front := SeriesRun(a[..|a| - 1], lo, hi, hyst);
    SeriesRunFront(a, lo, hi, hyst);
    OneFanValid(v, lo, hi, hyst);
    OneFanDuty(v, hyst, top, RunFrom(top, StartUp(1), front), lo, hi);
    DutiesExtended(top, SeriesRun(a, lo, hi, hyst), front, OneFan(lo, hi), OneReading(v, hyst), v);
  }

  lemma DutiesExtended(top: nat, run: seq<(Config, Inputs)>, front: seq<(Config, Inputs)>, c: Config, x: Inputs, d: real)
    requires ValidRun(run, 1) && run != [] && front == run[..|run| - 1] && run[|run| - 1] == (c, x)
    requires ValidRun(front, 1) && ValidConfig(c, 1) && ValidInputs(c, x)
    requires Update(c, x, top, RunFrom(top, StartUp(1), front)).duty == [d]
    ensures Duties(top, StartUp(1), run, 0) == Duties(top, StartUp(1), front, 0) + [d]
  {
  }

  /** No two runs from start-up with these settings turn the order around. */
  ghost predicate RunsKeepOrder(top: nat, lo: nat, hi: nat, hyst: real) {
    forall slots: nat, low: seq<(Config, Inputs)>, high: seq<(Config, Inputs)>, k: nat ::
      ValidRun(low, slots) && ValidRun(high, slots) && RunsOrdered(low, high) && k < slots &&
      Settings(low, k, lo, hi, hyst) && Settings(high, k, lo, hi, hyst) ==>
        RunFrom(top, StartUp(slots), low).prev[k] <= RunFrom(top, StartUp(slots), high).prev[k]
  }

  lemma SeriesRunsOrdered(a: seq<real>, b: seq<real>, lo: nat, hi: nat, hyst: real)
    requires Below(a, b)
    ensures RunsOrdered(SeriesRun(a, lo, hi, hyst), SeriesRun(b, lo, hi, hyst))
  {
    var low, high := SeriesRun(a, lo, hi, hyst), SeriesRun(b, lo, hi, hyst);
    forall r | 0 <= r < |low|
      ensures low[r].0 == high[r].0 && Responsive(low[r].0) && SignalsBelow(low[r].1, high[r].1)
    {
      OneFanResponsive(a[r], b[r], lo, hi, hyst);
    }
  }

  lemma OneFanResponsive(v: real, w: real, lo: nat, hi: nat, hyst: real)
    requires v <= w
    ensures Responsive(OneFan(lo, hi)) && SignalsBelow(OneReading(v, hyst), OneReading(w, hyst))
  {
  }

  lemma SeriesRunSettings(a: seq<real>, lo: nat, hi: nat, hyst: real)
    ensures Settings(SeriesRun(a, lo, hi, hyst), 0, lo, hi, hyst)
  {
  }

  /** The exact condition, for limits that the settings allow: over all runs from start-up, signals that
      are higher throughout never leave a fan with a lower remembered duty exactly in the safe cases. */
  lemma RunsKeepOrderIff(top: nat, lo: nat, hi: nat, hyst: real)
    requires hi <= 100
    ensures RunsKeepOrder(top, lo, hi, hyst) <==> OrderSafe(lo as real, hi as real, hyst)
  {
    if OrderSafe(lo as real, hi as real, hyst) {
      forall slots: nat, low: seq<(Config, Inputs)>, high: seq<(Config, Inputs)>, k: nat
        | ValidRun(low, slots) && ValidRun(high, slots) && RunsOrdered(low, high) && k < slots &&
          Settings(low, k, lo, hi, hyst) && Settings(high, k, lo, hi, hyst)
        ensures RunFrom(top, StartUp(slots), low).prev[k] <= RunFrom(top, StartUp(slots), high).prev[k]
      {
        PrevKeepsOrder(top, slots, low, high, k, lo, hi, hyst);
      }
    } else {
      var low, high := InvertedRuns(top, lo, hi, hyst);
    }
  }

  lemma InvertedRuns(top: nat, lo: nat, hi: nat, hyst: real)
    returns (low: seq<(Config, Inputs)>, high: seq<(Config, Inputs)>)
    requires hi <= 100 && !OrderSafe(lo as real, hi as real, hyst)
    ensures ValidRun(low, 1) && ValidRun(high, 1) && RunsOrdered(low, high)
    ensures Settings(low, 0, lo, hi, hyst) && Settings(high, 0, lo, hi, hyst)
    ensures RunFrom(top, StartUp(1), low).prev[0] == hi as real > RunFrom(top, StartUp(1), high).prev[0] >= 0.0
  {
    var a, b := Inversion(lo as real, hi as real, hyst);
    low, high := SeriesRun(a, lo, hi, hyst), SeriesRun(b, lo, hi, hyst);
    SeriesRunComputes(a, top, lo, hi, hyst);
    SeriesRunComputes(b, top, lo, hi, hyst);
    SeriesRunsOrdered(a, b, lo, hi, hyst);
    SeriesRunSettings(a, lo, hi, hyst);
    SeriesRunSettings(b, lo, hi, hyst);
    RunRemembers(top, StartUp(1), low, 0, hyst);
    RunRemembers(top, StartUp(1), high, 0, hyst);
  }

  /** No two runs from start-up with these settings turn the order of the hardware levels around. */
  ghost predicate RunsKeepLevels(top: nat, lo: nat, hi: nat, hyst: real) {
    forall slots: nat, low: seq<(Config, Inputs)>, high: seq<(Config, Inputs)>, k: nat ::
      ValidRun(low, slots) && ValidRun(high, slots) && RunsOrdered(low, high) && k < slots &&
      Settings(low, k, lo, hi, hyst) && Settings(high, k, lo, hi, hyst) ==>
        RunFrom(top, StartUp(slots), low).level[k] <= RunFrom(top, StartUp(slots), high).level[k]
  }

  lemma ScaleNat(a: nat, b: nat)
    ensures Scale(a as real, b as real) == (a * b) as real
  {
  }

  /** The level of a duty that comes to `m` steps exactly. */
  lemma LevelAtStep(top: nat, hi: nat, m: nat)
    requires hi <= 100 && hi * (top + 1) == 100 * m
    ensures Level(top, hi as real) == m
  {
    ScaleNat(hi, top + 1);
    LevelBounds(top, hi as real);
  }

  lemma LevelUnder(top: nat, q: real, m: nat)
    requires 0.0 <= q < 100.0 && Scale(q, (top + 1) as real) < 100.0 * m as real && m > 0
    ensures Level(top, q) < m
  {
    LevelBounds(top, q);
  }

  /** Where the duty `hi` is reached exactly by a level, every lower duty has a lower level. */
  lemma LevelBelowStep(top: nat, hi: nat, q: real)
    requires 0 < hi <= 100 && (hi * (top + 1)) % 100 == 0 && 0.0 <= q < hi as real
    ensures Level(top, q) < Level(top, hi as real)
  {
    var m := hi * (top + 1) / 100;
    PositiveProduct(hi, top + 1);
    LevelAtStep(top, hi, m);
    ScaleNat(hi, top + 1);
    ScaleStrict(q, hi as real, (top + 1) as real);
    LevelUnder(top, q, m);
  }

  lemma PositiveProduct(a: nat, b: nat)
    requires a > 0 && b > 0
    ensures a * b > 0
  {
  }

  /** The exact condition for the hardware, for limits that the settings allow and an upper limit that is a
      step of the counter: over all runs from start-up, signals that are higher throughout never leave a
      fan at a lower level exactly in the safe cases. */
  lemma RunsKeepLevelsIff(top: nat, lo: nat, hi: nat, hyst: real)
    requires hi <= 100 && (hi * (top + 1)) % 100 == 0
    ensures RunsKeepLevels(top, lo, hi, hyst) <==> OrderSafe(lo as real, hi as real, hyst)
  {
    if OrderSafe(lo as real, hi as real, hyst) {
      forall slots: nat, low: seq<(Config, Inputs)>, high: seq<(Config, Inputs)>, k: nat
        | ValidRun(low, slots) && ValidRun(high, slots) && RunsOrdered(low, high) && k < slots &&
          Settings(low, k, lo, hi, hyst) && Settings(high, k, lo, hi, hyst)
        ensures RunFrom(top, StartUp(slots), low).level[k] <= RunFrom(top, StartUp(slots), high).level[k]
      {
        if low != [] {
          assert k < |low[|low| - 1].0.fans|;
          LevelsKeepOrder(top, slots, low, high, k, lo, hi, hyst);
        }
      }
    } else {
      var low, high := InvertedRuns(top, lo, hi, hyst);
      HardwareShadowsDuty(top, 1, low);
      HardwareShadowsDuty(top, 1, high);
      LevelBelowStep(top, hi, RunFrom(top, StartUp(1), high).prev[0]);
    }
  }

  /** An inversion of hardware levels with the default hysteresis of 1 and the counter of a 125 MHz board:
      sensors at 20 and then 21 degrees end at level 525, sensors at 20.5 and then 21 degrees at 512. */
  lemma DefaultHysteresisInverts()
    ensures var low, high := SeriesRun([20.0, 21.0], 0, 100, 1.0), SeriesRun([20.5, 21.0], 0, 100, 1.0);
            && ValidRun(low, 1) && ValidRun(high, 1) && RunsOrdered(low, high)
            && RunFrom(2499, StartUp(1), low).level == [525] && RunFrom(2499, StartUp(1), high).level == [512]
  {
    var a, b := [20.0, 21.0], [20.5, 21.0];
    SeriesRunsOrdered(a, b, 0, 100, 1.0);
    SeriesLevel(a, 2499, 1.0);
    SeriesLevel(b, 2499, 1.0);
    InvertedLevels();
  }

  lemma InvertedLevels()
    ensures Level(2499, Remembered(0.0, [20.0, 21.0], 1.0)) == 525
    ensures Level(2499, Remembered(0.0, [20.5, 21.0], 1.0)) == 512
  {
    TwoDuties(20.0, 21.0, 1.0);
    TwoDuties(20.5, 21.0, 1.0);
  }

  lemma SeriesLevel(a: seq<real>, top: nat, hyst: real)
    requires Within(a, 0.0, 100.0)
    ensures ValidRun(SeriesRun(a, 0, 100, hyst), 1)
    ensures RunFrom(top, StartUp(1), SeriesRun(a, 0, 100, hyst)).level == [Level(top, Remembered(0.0, a, hyst))]
  {
    var run := SeriesRun(a, 0, 100, hyst);
    SeriesRunComputes(a, top, 0, 100, hyst);
    SeriesRunSettings(a, 0, 100, hyst);
    RunRemembers(top, StartUp(1), run, 0, hyst);
    HardwareShadowsDuty(top, 1, run);
  }
}
