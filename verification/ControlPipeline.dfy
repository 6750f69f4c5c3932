/** The whole way from temperatures to fan duties in the loop of `core1_main` (src/fanpico.c). */
module ControlPipeline {
  import VS = VirtualSensors
  import FC = FanControl
  import Means
  import Curves

  /** What core 1 keeps from one round to the next. */
  datatype State = State(sensors: VS.VState, fans: FC.FanState)

  datatype Config = Config(vsensors: seq<VS.VSensor>, fans: FC.Config)

  /** One pass of the main loop: temperatures and written values, signals from the motherboard, filter
      outputs and hysteresis, the time, and which of the two timers have run out. */
  datatype Readings = Readings(v: VS.Inputs, mbDuty: seq<real>, filterOut: seq<real>, hyst: seq<real>, now: int,
                               sensorsDue: bool, outputsDue: bool)

  ghost predicate Fits(c: Config, r: Readings, s: State) {
    && VS.Sized(s.sensors) && FC.Sized(s.fans)
    && VS.ValidSensors(c.vsensors, r.v, |s.sensors.temp|) && FC.ValidConfig(c.fans, |s.fans.duty|)
    && FC.ValidInputs(c.fans, FanInputs(r, s.sensors.temp))
  }

  function FanInputs(r: Readings, vtemp: seq<real>): FC.Inputs {
    FC.Inputs(r.mbDuty, r.v.temp, vtemp, r.filterOut, r.hyst)
  }

  /** The virtual sensors, when due, come before the outputs that use them. */
  function Next(c: Config, r: Readings, top: nat, s: State): (t: State)
    requires Fits(c, r, s)
    ensures VS.Sized(t.sensors) && |t.sensors.temp| == |s.sensors.temp|
    ensures FC.Sized(t.fans) && |t.fans.duty| == |s.fans.duty|
  {
    var sensors := Sensors(c, r, s);
    State(sensors, if r.outputsDue then FC.Update(c.fans, FanInputs(r, sensors.temp), top, s.fans) else s.fans)
  }

  function Sensors(c: Config, r: Readings, s: State): (v: VS.VState)
    requires Fits(c, r, s)
    ensures VS.Sized(v) && |v.temp| == |s.sensors.temp|
  {
    if r.sensorsDue then VS.Update(c.vsensors, r.v, r.now, s.sensors) else s.sensors
  }

  /** One pass: fans that are due get the duties of this pass, with the temperatures that the virtual
      sensors have just taken if they are due as well, and what is not due stays. */
  lemma PassDelivers(c: Config, r: Readings, top: nat, s: State, k: nat)
    requires Fits(c, r, s) && k < |c.fans.fans|
    ensures var t := Next(c, r, top, s);
            && (r.outputsDue ==>
                  && FC.DeliversInRound(c.fans, FanInputs(r, t.sensors.temp), s.fans.duty, t.fans.duty, k)
                  && FC.Takes(top, s.fans.prev[k], s.fans.level[k], t.fans.duty[k], r.hyst[k], t.fans.prev[k], t.fans.level[k]))
            && (!r.outputsDue ==> t.fans == s.fans) && (!r.sensorsDue ==> t.sensors == s.sensors)
  {
    if r.outputsDue { FC.FanInRound(c.fans, FanInputs(r, Sensors(c, r, s).temp), top, s.fans, 0, k); }
  }

  /** A written value reaches a fan in the pass that finds it. */
  lemma WrittenReachesFan(c: Config, r: Readings, top: nat, s: State, k: nat, id: nat)
    requires Fits(c, r, s) && k < |c.fans.fans| && id < |c.vsensors| && r.sensorsDue && r.outputsDue
    requires VS.IsWritten(c.vsensors[id]) && !c.fans.fans[k].filtered && c.fans.fans[k].source == FC.VSensor(id)
    requires s.sensors.stamp[id] != r.v.written[id].stamp && c.vsensors[id].timeout <= 0
    ensures FC.Delivers(c.fans.fans[k], Curves.Apply(c.fans.vsensorCurves[id], r.v.written[id].temp),
                        Next(c, r, top, s).fans.duty[k])
  {
    PassDelivers(c, r, top, s, k);
    VS.WrittenInRound(c.vsensors, r.v, r.now, s.sensors, 0, id);
  }

  /** Passes one after the other, the configuration changing as it likes. */
  ghost predicate Runnable(cs: seq<Config>, rs: seq<Readings>, s: State) {
    |cs| == |rs| && forall k :: 0 <= k < |rs| ==> Fits(cs[k], rs[k], s)
  }

  /** Only sizes matter for what fits. */
  lemma FitsBySize(c: Config, r: Readings, s: State, t: State)
    requires Fits(c, r, s) && VS.Sized(t.sensors) && FC.Sized(t.fans)
    requires |t.sensors.temp| == |s.sensors.temp| && |t.fans.duty| == |s.fans.duty|
    ensures Fits(c, r, t)
  {
  }

  ghost function Run(cs: seq<Config>, rs: seq<Readings>, top: nat, s: State): (t: State)
    requires Runnable(cs, rs, s) && VS.Sized(s.sensors) && FC.Sized(s.fans)
    ensures VS.Sized(t.sensors) && |t.sensors.temp| == |s.sensors.temp|
    ensures FC.Sized(t.fans) && |t.fans.duty| == |s.fans.duty|
    decreases |rs|
  {
    if rs == [] then s
    else
      var n := |rs| - 1;
      var before := Run(cs[..n], rs[..n], top, s);
      FitsBySize(cs[n], rs[n], s, before);
      Next(cs[n], rs[n], top, before)
  }

  /** No readings are lower, and the clock and timers are the same. */
  ghost predicate NoLower(r: Readings, q: Readings) {
    VS.NoColder(r.v, q.v) && Means.Below(r.mbDuty, q.mbDuty) && r.now == q.now
    && r.sensorsDue == q.sensorsDue && r.outputsDue == q.outputsDue
  }

  ghost predicate Ordered(s: State, t: State) {
    && Means.Below(s.sensors.temp, t.sensors.temp) && s.sensors.stamp == t.sensors.stamp
    && Means.Below(s.fans.duty, t.fans.duty)
  }

  lemma NextMonotone(c: Config, r: Readings, q: Readings, top: nat, s: State, t: State)
    requires Fits(c, r, s) && Fits(c, q, t) && VS.Responsive(c.vsensors) && FC.Responsive(c.fans)
    requires NoLower(r, q) && Ordered(s, t)
    ensures Ordered(Next(c, r, top, s), Next(c, q, top, t))
  {
    VS.SensorsMonotone(c.vsensors, r.v, q.v, r.now, s.sensors, t.sensors, 0);
    if r.outputsDue {
      FansMonotone(c.fans, r, q, Sensors(c, r, s).temp, Sensors(c, q, t).temp, top, s.fans, t.fans);
    }
  }

  lemma FansMonotone(c: FC.Config, r: Readings, q: Readings, low: seq<real>, high: seq<real>, top: nat,
                     s: FC.FanState, t: FC.FanState)
    requires FC.Sized(s) && FC.Sized(t) && FC.ValidConfig(c, |s.duty|) && FC.Responsive(c)
    requires FC.ValidInputs(c, FanInputs(r, low)) && FC.ValidInputs(c, FanInputs(q, high))
    requires NoLower(r, q) && Means.Below(low, high) && Means.Below(s.duty, t.duty)
    ensures Means.Below(FC.Update(c, FanInputs(r, low), top, s).duty, FC.Update(c, FanInputs(q, high), top, t).duty)
  {
    FC.RoundMonotone(c, FanInputs(r, low), FanInputs(q, high), top, s, t);
  }

  lemma RunnableFront(cs: seq<Config>, rs: seq<Readings>, s: State)
    requires Runnable(cs, rs, s) && rs != []
    ensures var n := |rs| - 1;
            Runnable(cs[..n], rs[..n], s) && Fits(cs[n], rs[n], s)
  {
  }

  ghost predicate RunsOrdered(cs: seq<Config>, low: seq<Readings>, high: seq<Readings>) {
    && |cs| == |low| == |high|
    && (forall k :: 0 <= k < |cs| ==> VS.Responsive(cs[k].vsensors) && FC.Responsive(cs[k].fans))
    && forall k :: 0 <= k < |low| ==> NoLower(low[k], high[k])
  }

  /** End to end, over whole runs: where it is nowhere colder and the motherboard never asks for less,
      no fan's computed duty is lower. Virtual sensors may read each other and fans may follow each
      other in any way. */
  lemma {:induction false} WarmerNeverSlower(cs: seq<Config>, low: seq<Readings>, high: seq<Readings>, top: nat, s: State)
    requires Runnable(cs, low, s) && Runnable(cs, high, s) && RunsOrdered(cs, low, high)
    requires VS.Sized(s.sensors) && FC.Sized(s.fans)
    ensures Ordered(Run(cs, low, top, s), Run(cs, high, top, s))
    decreases |low|
  {
    if low != [] {
      var n := |low| - 1;
      RunNext(cs, low, top, s);
      RunNext(cs, high, top, s);
      RunsOrderedFront(cs, low, high);
      WarmerNeverSlower(cs[..n], low[..n], high[..n], top, s);
      NextMonotone(cs[n], low[n], high[n], top, Run(cs[..n], low[..n], top, s), Run(cs[..n], high[..n], top, s));
    }
  }

  // --------------------------------------------------------------------------------------------
  // Hardware levels

  /** The rounds of the fan outputs in a run of the pipeline. */
  ghost function FanRun(cs: seq<Config>, rs: seq<Readings>, top: nat, s: State): (run: seq<(FC.Config, FC.Inputs)>)
    requires Runnable(cs, rs, s) && VS.Sized(s.sensors) && FC.Sized(s.fans)
    decreases |rs|
  {
    if rs == [] then []
    else
      var n := |rs| - 1;
      var before := Run(cs[..n], rs[..n], top, s);
      FitsBySize(cs[n], rs[n], s, before);
      var rest := FanRun(cs[..n], rs[..n], top, s);
      if rs[n].outputsDue then rest + [FanRound(cs[n], rs[n], before)] else rest
  }

  function FanRound(c: Config, r: Readings, s: State): (FC.Config, FC.Inputs)
    requires Fits(c, r, s)
  {
    (c.fans, FanInputs(r, Sensors(c, r, s).temp))
  }

  lemma RunFromAppend(top: nat, s: FC.FanState, run: seq<(FC.Config, FC.Inputs)>, c: FC.Config, x: FC.Inputs)
    requires FC.Sized(s) && FC.ValidRun(run, |s.duty|) && FC.ValidConfig(c, |s.duty|) && FC.ValidInputs(c, x)
    ensures FC.ValidRun(run + [(c, x)], |s.duty|)
    ensures FC.RunFrom(top, s, run + [(c, x)]) == FC.Update(c, x, top, FC.RunFrom(top, s, run))
  {
    assert (run + [(c, x)])[..|run|] == run;
  }

  lemma RunNext(cs: seq<Config>, rs: seq<Readings>, top: nat, s: State)
    requires Runnable(cs, rs, s) && VS.Sized(s.sensors) && FC.Sized(s.fans) && rs != []
    ensures var n := |rs| - 1;
            && Runnable(cs[..n], rs[..n], s) && Fits(cs[n], rs[n], Run(cs[..n], rs[..n], top, s))
            && Run(cs, rs, top, s) == Next(cs[n], rs[n], top, Run(cs[..n], rs[..n], top, s))
  {
    var n := |rs| - 1;
    RunnableFront(cs, rs, s);
    FitsBySize(cs[n], rs[n], s, Run(cs[..n], rs[..n], top, s));
  }

  lemma FanRunNext(cs: seq<Config>, rs: seq<Readings>, top: nat, s: State)
    requires Runnable(cs, rs, s) && VS.Sized(s.sensors) && FC.Sized(s.fans) && rs != []
    ensures var n := |rs| - 1;
            && Runnable(cs[..n], rs[..n], s) && Fits(cs[n], rs[n], Run(cs[..n], rs[..n], top, s))
            && FanRun(cs, rs, top, s) == FanRun(cs[..n], rs[..n], top, s) +
                 if rs[n].outputsDue then [FanRound(cs[n], rs[n], Run(cs[..n], rs[..n], top, s))] else []
  {
    var n := |rs| - 1;
    RunnableFront(cs, rs, s);
    FitsBySize(cs[n], rs[n], s, Run(cs[..n], rs[..n], top, s));
  }

  /** The fans in one pass, after the rounds in `run`. */
  lemma FansInPass(c: Config, r: Readings, top: nat, start: FC.FanState, s: State, run: seq<(FC.Config, FC.Inputs)>)
    requires FC.Sized(start) && Fits(c, r, s) && FC.ValidRun(run, |start.duty|) && s.fans == FC.RunFrom(top, start, run)
    ensures var more := run + if r.outputsDue then [FanRound(c, r, s)] else [];
            FC.ValidRun(more, |start.duty|) && Next(c, r, top, s).fans == FC.RunFrom(top, start, more)
  {
    if r.outputsDue {
      RunFromAppend(top, start, run, FanRound(c, r, s).0, FanRound(c, r, s).1);
    } else {
      NothingAdded(run);
    }
  }

  /** The fans of the pipeline run through just those rounds. */
  lemma {:induction false} FansRun(cs: seq<Config>, rs: seq<Readings>, top: nat, s: State)
    requires Runnable(cs, rs, s) && VS.Sized(s.sensors) && FC.Sized(s.fans)
    ensures FC.ValidRun(FanRun(cs, rs, top, s), |s.fans.duty|)
    ensures Run(cs, rs, top, s).fans == FC.RunFrom(top, s.fans, FanRun(cs, rs, top, s))
    decreases |rs|
  {
    if rs != [] {
      var n := |rs| - 1;
      RunNext(cs, rs, top, s);
      FanRunNext(cs, rs, top, s);
      FansRun(cs[..n], rs[..n], top, s);
      FansInPass(cs[n], rs[n], top, s.fans, Run(cs[..n], rs[..n], top, s), FanRun(cs[..n], rs[..n], top, s));
    }
  }

  lemma FanRoundsOrdered(c: Config, r: Readings, q: Readings, s: State, t: State)
    requires Fits(c, r, s) && Fits(c, q, t) && VS.Responsive(c.vsensors) && NoLower(r, q) && Ordered(s, t)
    ensures FC.SignalsBelow(FanRound(c, r, s).1, FanRound(c, q, t).1)
  {
    VS.SensorsMonotone(c.vsensors, r.v, q.v, r.now, s.sensors, t.sensors, 0);
  }

  lemma OrderedAppend(low: seq<(FC.Config, FC.Inputs)>, high: seq<(FC.Config, FC.Inputs)>,
                      x: (FC.Config, FC.Inputs), y: (FC.Config, FC.Inputs))
    requires FC.RunsOrdered(low, high) && x.0 == y.0 && FC.Responsive(x.0) && FC.SignalsBelow(x.1, y.1)
    ensures FC.RunsOrdered(low + [x], high + [y])
  {
  }

  lemma RunsOrderedFront(cs: seq<Config>, low: seq<Readings>, high: seq<Readings>)
    requires RunsOrdered(cs, low, high) && cs != []
    ensures var n := |cs| - 1;
            && RunsOrdered(cs[..n], low[..n], high[..n]) && NoLower(low[n], high[n])
            && VS.Responsive(cs[n].vsensors) && FC.Responsive(cs[n].fans)
  {
  }

  lemma {:induction false} FanRunsOrdered(cs: seq<Config>, low: seq<Readings>, high: seq<Readings>, top: nat, s: State)
    requires Runnable(cs, low, s) && Runnable(cs, high, s) && RunsOrdered(cs, low, high)
    requires VS.Sized(s.sensors) && FC.Sized(s.fans)
    ensures FC.RunsOrdered(FanRun(cs, low, top, s), FanRun(cs, high, top, s))
    decreases |low|
  {
    if low != [] {
      var n := |low| - 1;
      FanRunNext(cs, low, top, s);
      FanRunNext(cs, high, top, s);
      RunsOrderedFront(cs, low, high);
      FanRunsOrdered(cs[..n], low[..n], high[..n], top, s);
      WarmerNeverSlower(cs[..n], low[..n], high[..n], top, s);
      PassOrdered(cs[n], low[n], high[n], Run(cs[..n], low[..n], top, s), Run(cs[..n], high[..n], top, s),
                  FanRun(cs[..n], low[..n], top, s), FanRun(cs[..n], high[..n], top, s));
    }
  }

  /** One more pass keeps the rounds of two runs in order. */
  lemma PassOrdered(c: Config, r: Readings, q: Readings, s: State, t: State,
                    low: seq<(FC.Config, FC.Inputs)>, high: seq<(FC.Config, FC.Inputs)>)
    requires Fits(c, r, s) && Fits(c, q, t) && VS.Responsive(c.vsensors) && FC.Responsive(c.fans)
    requires NoLower(r, q) && Ordered(s, t) && FC.RunsOrdered(low, high)
    ensures FC.RunsOrdered(low + if r.outputsDue then [FanRound(c, r, s)] else [],
                           high + if q.outputsDue then [FanRound(c, q, t)] else [])
  {
    FanRoundsOrdered(c, r, q, s, t);
    if r.outputsDue {
      OrderedAppend(low, high, FanRound(c, r, s), FanRound(c, q, t));
    } else {
      assert low + [] == low && high + [] == high;
    }
  }

  /** The limits and the hysteresis of fan `k` stay the same. */
  ghost predicate Settings(cs: seq<Config>, rs: seq<Readings>, k: nat, lo: nat, hi: nat, hyst: real) {
    |cs| == |rs| && forall n :: 0 <= n < |cs| ==> FanSettings(cs[n].fans, rs[n].hyst, k, lo, hi, hyst)
  }

  predicate FanSettings(c: FC.Config, hysts: seq<real>, k: nat, lo: nat, hi: nat, hyst: real) {
    k < |c.fans| && k < |hysts| && c.fans[k].minPwm == lo && c.fans[k].maxPwm == hi && hysts[k] == hyst
  }

  lemma SettingsAppend(run: seq<(FC.Config, FC.Inputs)>, x: (FC.Config, FC.Inputs), k: nat, lo: nat, hi: nat, hyst: real)
    requires FC.Settings(run, k, lo, hi, hyst) && FanSettings(x.0, x.1.hyst, k, lo, hi, hyst)
    ensures FC.Settings(run + [x], k, lo, hi, hyst)
  {
  }

  lemma SettingsFront(cs: seq<Config>, rs: seq<Readings>, k: nat, lo: nat, hi: nat, hyst: real)
    requires Settings(cs, rs, k, lo, hi, hyst) && rs != []
    ensures var n := |rs| - 1;
            Settings(cs[..n], rs[..n], k, lo, hi, hyst) && FanSettings(cs[n].fans, rs[n].hyst, k, lo, hi, hyst)
  {
  }

  lemma {:induction false} FanRunSettings(cs: seq<Config>, rs: seq<Readings>, top: nat, s: State, k: nat, lo: nat, hi: nat, hyst: real)
    requires Runnable(cs, rs, s) && VS.Sized(s.sensors) && FC.Sized(s.fans) && Settings(cs, rs, k, lo, hi, hyst)
    ensures FC.Settings(FanRun(cs, rs, top, s), k, lo, hi, hyst)
    decreases |rs|
  {
    if rs != [] {
      var n := |rs| - 1;
      RunnableFront(cs, rs, s);
      SettingsFront(cs, rs, k, lo, hi, hyst);
      FanRunSettings(cs[..n], rs[..n], top, s, k, lo, hi, hyst);
      var before := Run(cs[..n], rs[..n], top, s);
      FitsBySize(cs[n], rs[n], s, before);
      SettingsAppend(FanRun(cs[..n], rs[..n], top, s), FanRound(cs[n], rs[n], before), k, lo, hi, hyst);
    }
  }

  /** Fan `k` exists, and in each pass has the same hysteresis in both runs, at most `bound`. */
  ghost predicate SharedHysteresis(cs: seq<Config>, low: seq<Readings>, high: seq<Readings>, k: nat, bound: real) {
    |cs| == |low| == |high| && forall n :: 0 <= n < |cs| ==> SharedInPass(cs[n].fans, low[n].hyst, high[n].hyst, k, bound)
  }

  predicate SharedInPass(c: FC.Config, low: seq<real>, high: seq<real>, k: nat, bound: real) {
    k < |c.fans| && k < |low| && k < |high| && low[k] == high[k] <= bound
  }

  lemma SharedAppend(low: seq<(FC.Config, FC.Inputs)>, high: seq<(FC.Config, FC.Inputs)>,
                     x: (FC.Config, FC.Inputs), y: (FC.Config, FC.Inputs), k: nat, bound: real)
    requires FC.SharedHysteresis(low, high, k, bound) && x.0 == y.0 && SharedInPass(x.0, x.1.hyst, y.1.hyst, k, bound)
    ensures FC.SharedHysteresis(low + [x], high + [y], k, bound)
  {
    assert FC.SharedInRound(x, y, k, bound);
  }

  lemma SharedFront(cs: seq<Config>, low: seq<Readings>, high: seq<Readings>, k: nat, bound: real)
    requires SharedHysteresis(cs, low, high, k, bound) && cs != []
    ensures var n := |cs| - 1;
            && SharedHysteresis(cs[..n], low[..n], high[..n], k, bound)
            && SharedInPass(cs[n].fans, low[n].hyst, high[n].hyst, k, bound)
  {
  }

  lemma {:induction false} FanRunsShare(cs: seq<Config>, low: seq<Readings>, high: seq<Readings>, top: nat, s: State,
                                        k: nat, bound: real)
    requires Runnable(cs, low, s) && Runnable(cs, high, s) && RunsOrdered(cs, low, high)
    requires VS.Sized(s.sensors) && FC.Sized(s.fans) && SharedHysteresis(cs, low, high, k, bound)
    ensures FC.SharedHysteresis(FanRun(cs, low, top, s), FanRun(cs, high, top, s), k, bound)
    decreases |low|
  {
    if low != [] {
      var n := |low| - 1;
      FanRunNext(cs, low, top, s);
      FanRunNext(cs, high, top, s);
      RunsOrderedFront(cs, low, high);
      SharedFront(cs, low, high, k, bound);
      FanRunsShare(cs[..n], low[..n], high[..n], top, s, k, bound);
      if low[n].outputsDue {
        SharedAppend(FanRun(cs[..n], low[..n], top, s), FanRun(cs[..n], high[..n], top, s),
                     FanRound(cs[n], low[n], Run(cs[..n], low[..n], top, s)),
                     FanRound(cs[n], high[n], Run(cs[..n], high[..n], top, s)), k, bound);
      } else {
        NothingAdded(FanRun(cs[..n], low[..n], top, s));
        NothingAdded(FanRun(cs[..n], high[..n], top, s));
      }
    }
  }

  lemma NothingAdded(run: seq<(FC.Config, FC.Inputs)>)
    ensures run + [] == run
  {
  }

  /** Whatever the settings, and with a hysteresis that changes from round to round: where it is nowhere
      colder and the motherboard never asks for less, the remembered duty of a fan is lower by less than
      the widest hysteresis. */
  lemma WarmerInversionBounded(cs: seq<Config>, low: seq<Readings>, high: seq<Readings>, top: nat, s: State,
                               k: nat, bound: real)
    requires Runnable(cs, low, s) && Runnable(cs, high, s) && RunsOrdered(cs, low, high) && bound > 0.0
    requires VS.Sized(s.sensors) && FC.Sized(s.fans) && s.fans == FC.StartUp(|s.fans.duty|) && k < |s.fans.duty|
    requires SharedHysteresis(cs, low, high, k, bound)
    ensures Run(cs, low, top, s).fans.prev[k] < Run(cs, high, top, s).fans.prev[k] + bound
  {
    FansRun(cs, low, top, s);
    FansRun(cs, high, top, s);
    FanRunsOrdered(cs, low, high, top, s);
    FanRunsShare(cs, low, high, top, s, k, bound);
    FC.RunInversionBounded(top, |s.fans.duty|, FanRun(cs, low, top, s), FanRun(cs, high, top, s), k, bound);
  }

  lemma SettingsShare(cs: seq<Config>, low: seq<Readings>, high: seq<Readings>, k: nat, lo: nat, hi: nat, hyst: real)
    requires Settings(cs, low, k, lo, hi, hyst) && Settings(cs, high, k, lo, hi, hyst)
    ensures SharedHysteresis(cs, low, high, k, hyst)
  {
    forall n | 0 <= n < |cs| ensures SharedInPass(cs[n].fans, low[n].hyst, high[n].hyst, k, hyst) {
      assert FanSettings(cs[n].fans, low[n].hyst, k, lo, hi, hyst) && FanSettings(cs[n].fans, high[n].hyst, k, lo, hi, hyst);
    }
  }

  /** End to end, down to the hardware: where it is nowhere colder and the motherboard never asks for
      less, the remembered duty of a fan is less than its hysteresis lower, and with settings that keep
      order neither that duty nor the hardware level is lower at all. */
  lemma WarmerLevels(cs: seq<Config>, low: seq<Readings>, high: seq<Readings>, top: nat, s: State,
                     k: nat, lo: nat, hi: nat, hyst: real)
    requires Runnable(cs, low, s) && Runnable(cs, high, s) && RunsOrdered(cs, low, high)
    requires VS.Sized(s.sensors) && FC.Sized(s.fans) && s.fans == FC.StartUp(|s.fans.duty|) && k < |s.fans.duty|
    requires Settings(cs, low, k, lo, hi, hyst) && Settings(cs, high, k, lo, hi, hyst)
    ensures var a, b := Run(cs, low, top, s).fans, Run(cs, high, top, s).fans;
            && (hyst > 0.0 ==> a.prev[k] < b.prev[k] + hyst)
            && (FC.OrderSafe(lo as real, hi as real, hyst) ==> a.prev[k] <= b.prev[k] && a.level[k] <= b.level[k])
  {
    if hyst > 0.0 {
      SettingsShare(cs, low, high, k, lo, hi, hyst);
      WarmerInversionBounded(cs, low, high, top, s, k, hyst);
    }
    if FC.OrderSafe(lo as real, hi as real, hyst) { WarmerSafeLevels(cs, low, high, top, s, k, lo, hi, hyst); }
  }

  lemma WarmerSafeLevels(cs: seq<Config>, low: seq<Readings>, high: seq<Readings>, top: nat, s: State,
                         k: nat, lo: nat, hi: nat, hyst: real)
    requires Runnable(cs, low, s) && Runnable(cs, high, s) && RunsOrdered(cs, low, high)
    requires VS.Sized(s.sensors) && FC.Sized(s.fans) && s.fans == FC.StartUp(|s.fans.duty|) && k < |s.fans.duty|
    requires Settings(cs, low, k, lo, hi, hyst) && Settings(cs, high, k, lo, hi, hyst)
    requires FC.OrderSafe(lo as real, hi as real, hyst)
    ensures var a, b := Run(cs, low, top, s).fans, Run(cs, high, top, s).fans;
            a.prev[k] <= b.prev[k] && a.level[k] <= b.level[k]
  {
    var slots := |s.fans.duty|;
    var a, b := FanRun(cs, low, top, s), FanRun(cs, high, top, s);
    FansRun(cs, low, top, s);
    FansRun(cs, high, top, s);
    FanRunsOrdered(cs, low, high, top, s);
    FanRunSettings(cs, low, top, s, k, lo, hi, hyst);
    FanRunSettings(cs, high, top, s, k, lo, hi, hyst);
    FC.PrevKeepsOrder(top, slots, a, b, k, lo, hi, hyst);
    if a != [] { FC.LevelsKeepOrder(top, slots, a, b, k, lo, hi, hyst); }
  }
}
