/** Virtual temperature sensors: `get_vsensor` of src/sensors.c and the loop of `core1_main` in
    src/fanpico.c that updates them. Temperatures are reals. */
module VirtualSensors {
  import opened Sweeps
  import Means

  datatype Mode = Manual | I2C | OneWire | Max | Min | Avg | Delta

  /** `sources` are sensor numbers from 1, virtual sensors from 101; a 0 ends the list. */
  datatype VSensor = VSensor(mode: Mode, defaultTemp: real, timeout: int, address: nat, sources: seq<nat>, filtered: bool)

  /** The value last written for a sensor, and when. */
  datatype Written = Written(temp: real, stamp: int, pressure: real, humidity: real)

  /** What a round reads: written values, measured temperatures, the 1-Wire devices with their readings,
      and what each sensor's filter would return. */
  datatype Inputs = Inputs(written: seq<Written>, temp: seq<real>, devices: seq<nat>, deviceTemp: seq<real>, filterOut: seq<real>)

  datatype VState = VState(temp: seq<real>, stamp: seq<int>, pressure: seq<real>, humidity: seq<real>)

  predicate Sized(s: VState) { |s.temp| == |s.stamp| == |s.pressure| == |s.humidity| }

  predicate Aggregates(m: Mode) { m.Max? || m.Min? || m.Avg? || m.Delta? }

  predicate SourceExists(code: nat, temps: nat, slots: nat) {
    if code > 100 then code - 101 < slots else 1 <= code <= temps
  }

  /** The sources before the first 0. */
  function Listed(sources: seq<nat>): (l: seq<nat>)
    ensures |l| <= |sources| && forall k :: 0 <= k < |l| ==> l[k] == sources[k] != 0
    ensures |l| < |sources| ==> sources[|l|] == 0
  {
    if sources == [] || sources[0] == 0 then [] else [sources[0]] + Listed(sources[1..])
  }

  ghost predicate SourcesExist(sources: seq<nat>, temps: nat, slots: nat) {
    forall k :: 0 <= k < |Listed(sources)| ==> SourceExists(Listed(sources)[k], temps, slots)
  }

  ghost predicate ValidSensors(c: seq<VSensor>, x: Inputs, slots: nat) {
    && |c| <= slots && |x.written| == |x.filterOut| == |c| && |x.devices| <= |x.deviceTemp|
    && forall k :: 0 <= k < |c| ==> SourcesExist(c[k].sources, |x.temp|, slots)
  }

  // --------------------------------------------------------------------------------------------
  // Aggregation

  function SourceValue(temp: seq<real>, vtemp: seq<real>, code: nat): real
    requires SourceExists(code, |temp|, |vtemp|)
  {
    if code > 100 then vtemp[code - 101] else temp[code - 1]
  }

  function Values(temp: seq<real>, vtemp: seq<real>, codes: seq<nat>): (v: seq<real>)
    requires forall k :: 0 <= k < |codes| ==> SourceExists(codes[k], |temp|, |vtemp|)
    ensures |v| == |codes| && forall k :: 0 <= k < |v| ==> v[k] == SourceValue(temp, vtemp, codes[k])
    ensures forall k :: 0 <= k < |v| && SourceExists(codes[k], |temp|, |vtemp|) ==>
              v[k] == if codes[k] > 100 then vtemp[codes[k] - 101] else temp[codes[k] - 1]
  {
    if codes == [] then [] else [SourceValue(temp, vtemp, codes[0])] + Values(temp, vtemp, codes[1..])
  }

  /** The loop body: `t` after `count` sources, the last of which is `val`. */
  function Accumulate(mode: Mode, t: real, count: nat, val: real): real {
    match mode
    case Max => if count == 1 || val > t then val else t
    case Min => if count == 1 || val < t then val else t
    case Avg => t + val
    case Delta => if count == 1 then val else if count == 2 then t - val else t
    case _ => t
  }

  function Fold(mode: Mode, v: seq<real>): real {
    if v == [] then 0.0 else Accumulate(mode, Fold(mode, v[..|v| - 1]), |v|, v[|v| - 1])
  }

  function Combined(mode: Mode, v: seq<real>): real {
    if mode.Avg? && v != [] then Fold(mode, v) / |v| as real else Fold(mode, v)
  }

  /** What each mode means: the largest or smallest value, one that is really there; the mean; the first
      value less the second. Without sources it is 0. */
  ghost predicate Meaning(mode: Mode, v: seq<real>, t: real) {
    if v == [] then t == 0.0
    else
      match mode
      case Max => t in v && forall k :: 0 <= k < |v| ==> v[k] <= t
      case Min => t in v && forall k :: 0 <= k < |v| ==> t <= v[k]
      case Avg => t == Means.Mean(v)
      case Delta => t == if |v| == 1 then v[0] else v[0] - v[1]
      case _ => true
  }

  lemma {:induction false} MaxIsLargest(v: seq<real>)
    requires v != []
    ensures Fold(Max, v) in v && forall k :: 0 <= k < |v| ==> v[k] <= Fold(Max, v)
  {
    if |v| > 1 {
      var front := v[..|v| - 1];
      MaxIsLargest(front);
      assert forall k :: 0 <= k < |front| ==> front[k] == v[k] && v[k] in v;
    }
  }

  lemma {:induction false} MinIsSmallest(v: seq<real>)
    requires v != []
    ensures Fold(Min, v) in v && forall k :: 0 <= k < |v| ==> Fold(Min, v) <= v[k]
  {
    if |v| > 1 {
      var front := v[..|v| - 1];
      MinIsSmallest(front);
      assert forall k :: 0 <= k < |front| ==> front[k] == v[k] && v[k] in v;
    }
  }

  lemma {:induction false} AvgIsSum(v: seq<real>)
    ensures Fold(Avg, v) == Means.Sum(v)
  {
    if v != [] {
      var front, end := v[..|v| - 1], v[|v| - 1];
      AvgIsSum(front);
      Means.SumAppend(front, end);
      assert v == front + [end];
    }
  }

  lemma {:induction false} DeltaIsDifference(v: seq<real>)
    requires v != []
    ensures Fold(Delta, v) == if |v| == 1 then v[0] else v[0] - v[1]
  {
    if |v| > 1 { DeltaIsDifference(v[..|v| - 1]); }
  }

  lemma CombinedMeans(mode: Mode, v: seq<real>)
    ensures Aggregates(mode) ==> Meaning(mode, v, Combined(mode, v))
  {
    if v != [] {
      match mode
      case Max => MaxIsLargest(v);
      case Min => MinIsSmallest(v);
      case Avg => AvgIsSum(v);
      case Delta => DeltaIsDifference(v);
      case _ =>
    }
  }

  /** The meaning leaves no choice, and except for differences it stays between the sources. */
  lemma MeaningDecides(mode: Mode, v: seq<real>, t: real, lo: real, hi: real)
    requires Aggregates(mode) && Meaning(mode, v, t)
    ensures t == Combined(mode, v)
    ensures v != [] && !mode.Delta? && Means.Within(v, lo, hi) ==> lo <= t <= hi
  {
    CombinedMeans(mode, v);
    if v != [] && mode.Avg? && Means.Within(v, lo, hi) { Means.MeanWithin(v, lo, hi); }
  }

  /** Modes in which a higher source never lowers the result. */
  predicate Raises(mode: Mode) { mode.Min? || mode.Max? || mode.Avg? }

  /** Raising every value raises the maximum, the minimum and the sum. */
  lemma {:induction false} FoldMonotone(mode: Mode, v: seq<real>, w: seq<real>)
    requires Means.Below(v, w) && Raises(mode)
    ensures Fold(mode, v) <= Fold(mode, w)
    decreases |v|
  {
    if v != [] {
      FoldMonotone(mode, v[..|v| - 1], w[..|w| - 1]);
      var x, y := v[|v| - 1], w[|w| - 1];
      assert x <= y;
      AccumulateMonotone(mode, Fold(mode, v[..|v| - 1]), Fold(mode, w[..|w| - 1]), |v|, x, y);
    }
  }

  lemma AccumulateMonotone(mode: Mode, t: real, u: real, count: nat, x: real, y: real)
    requires t <= u && x <= y && Raises(mode)
    ensures Accumulate(mode, t, count, x) <= Accumulate(mode, u, count, y)
  {
  }

  lemma CombinedMonotone(mode: Mode, v: seq<real>, w: seq<real>)
    requires Means.Below(v, w) && Raises(mode)
    ensures Combined(mode, v) <= Combined(mode, w)
  {
    FoldMonotone(mode, v, w);
    if v != [] { Means.QuotientMonotone(Fold(mode, v), Fold(mode, w), |v| as real); }
  }

  lemma ListEnds(sources: seq<nat>, k: nat)
    requires k <= |Listed(sources)|
    ensures k < |sources| && sources[k] != 0 <==> k < |Listed(sources)|
  {
  }

  /** The fold over the first `k` values. */
  function FoldTo(mode: Mode, v: seq<real>, k: nat): real
    requires k <= |v|
  {
    Fold(mode, v[..k])
  }

  lemma FoldStep(mode: Mode, v: seq<real>, k: nat)
    requires k < |v|
    ensures FoldTo(mode, v, k + 1) == Accumulate(mode, FoldTo(mode, v, k), k + 1, v[k])
  {
    assert v[..k + 1][..k] == v[..k];
  }

  lemma FoldEnds(mode: Mode, v: seq<real>)
    ensures FoldTo(mode, v, 0) == 0.0 && FoldTo(mode, v, |v|) == Fold(mode, v)
  {
    assert v[..|v|] == v;
  }

  method ReadSource(temp: seq<real>, vtemp: seq<real>, sources: seq<nat>, k: nat, ghost v: seq<real>) returns (val: real)
    requires SourcesExist(sources, |temp|, |vtemp|) && v == Values(temp, vtemp, Listed(sources)) && k < |v|
    ensures val == v[k]
  {
    var code := sources[k];
    val := if code > 100 then vtemp[code - 101] else temp[code - 1];
  }

  /** The loop body. */
  method AddSource(mode: Mode, t0: real, count: nat, val: real) returns (t: real)
    ensures t == Accumulate(mode, t0, count, val)
  {
    t := t0;
    if mode == Max {
      if count == 1 || val > t { t := val; }
    } else if mode == Min {
      if count == 1 || val < t { t := val; }
    } else if mode == Avg {
      t := t + val;
    } else if mode == Delta {
      if count == 1 { t := val; } else if count == 2 { t := t - val; }
    }
  }

  /** The loop over the sources. */
  method FoldSources(s: VSensor, temp: seq<real>, vtemp: seq<real>) returns (t: real, count: nat)
    requires SourcesExist(s.sources, |temp|, |vtemp|)
    ensures count == |Listed(s.sources)| && t == Fold(s.mode, Values(temp, vtemp, Listed(s.sources)))
  {
    ghost var v := Values(temp, vtemp, Listed(s.sources));
    count := 0;
    t := 0.0;
    FoldEnds(s.mode, v);
    ListEnds(s.sources, 0);
    while count < |s.sources| && s.sources[count] != 0
      invariant count <= |v| && t == FoldTo(s.mode, v, count)
      invariant count < |s.sources| && s.sources[count] != 0 <==> count < |v|
    {
      FoldStep(s.mode, v, count);
      var val := ReadSource(temp, vtemp, s.sources, count, v);
      count := count + 1;
      t := AddSource(s.mode, t, count, val);
      ListEnds(s.sources, count);
    }
  }

  method Aggregate(s: VSensor, temp: seq<real>, vtemp: seq<real>) returns (t: real)
    requires Aggregates(s.mode) && SourcesExist(s.sources, |temp|, |vtemp|)
    ensures Meaning(s.mode, Values(temp, vtemp, Listed(s.sources)), t)
    ensures t == Combined(s.mode, Values(temp, vtemp, Listed(s.sources)))
  {
    var count;
    t, count := FoldSources(s, temp, vtemp);
    CombinedMeans(s.mode, Values(temp, vtemp, Listed(s.sources)));
    if s.mode == Avg && count > 0 {
      t := t / count as real;
    }
  }

  // --------------------------------------------------------------------------------------------
  // One sensor

  /** Whole seconds; the code only asks whether there are more than a positive number of them. */
  function Seconds(us: int): int { us / 1_000_000 }

  predicate Expired(v: VSensor, stamp: int, now: int) {
    v.timeout > 0 && Seconds(now - stamp) > v.timeout
  }

  /** A written sensor takes over a new value and falls back to its default when none came in time. */
  function WrittenTemp(v: VSensor, w: Written, t: real, stamp: int, now: int): real {
    if Expired(v, w.stamp, now) then v.defaultTemp else if stamp != w.stamp then w.temp else t
  }

  predicate IsWritten(v: VSensor) { (v.mode.Manual? || v.mode.I2C?) && !v.filtered }

  /** What a written sensor shows that showed `was`, taken over at `stamp`. */
  predicate TakesOver(v: VSensor, w: Written, was: real, stamp: int, now: int, t: real) {
    && (v.timeout > 0 && now - w.stamp >= (v.timeout + 1) * 1_000_000 ==> t == v.defaultTemp)
    && (v.timeout <= 0 || now - w.stamp < (v.timeout + 1) * 1_000_000 ==> t == if stamp == w.stamp then was else w.temp)
  }

  const ONEWIRE_MAX_COUNT: nat := 8

  /** Index of the device with that address, or -1; a zero address ends the bus. */
  function FindDevice(devices: seq<nat>, address: nat, j: nat): (idx: int)
    ensures -1 <= idx < |devices|
    decreases |devices| - j
  {
    if j >= ONEWIRE_MAX_COUNT || j >= |devices| || devices[j] == 0 then -1
    else if devices[j] == address then j
    else FindDevice(devices, address, j + 1)
  }

  /** Device `j` is the first one with that address, among the first eight and before the end of the bus. */
  predicate IsDevice(devices: seq<nat>, address: nat, j: int) {
    && 0 <= j < |devices| && j < 8 && address != 0 && devices[j] == address
    && forall i :: 0 <= i < j ==> devices[i] != 0 && devices[i] != address
  }

  /** The temperature of the device with that address, and 0 without one. */
  ghost predicate ShowsDevice(x: Inputs, address: nat, t: real)
    requires |x.devices| <= |x.deviceTemp|
  {
    && (forall j :: IsDevice(x.devices, address, j) ==> t == x.deviceTemp[j])
    && ((forall j :: !IsDevice(x.devices, address, j)) ==> t == 0.0)
  }

  lemma {:induction false} DeviceIndex(devices: seq<nat>, address: nat, j: nat)
    requires forall i :: 0 <= i < j && i < |devices| ==> devices[i] != 0 && devices[i] != address
    ensures var idx := FindDevice(devices, address, j);
            if idx >= 0 then IsDevice(devices, address, idx) else forall i :: !IsDevice(devices, address, i)
    decreases |devices| - j
  {
    if j < ONEWIRE_MAX_COUNT && j < |devices| && devices[j] != 0 && devices[j] != address {
      DeviceIndex(devices, address, j + 1);
    }
  }

  lemma DeviceFound(x: Inputs, address: nat)
    requires |x.devices| <= |x.deviceTemp|
    ensures ShowsDevice(x, address, DeviceTemp(x, address))
  {
    DeviceIndex(x.devices, address, 0);
    forall j | IsDevice(x.devices, address, j) ensures DeviceTemp(x, address) == x.deviceTemp[j] {
      SameDevice(x.devices, address, FindDevice(x.devices, address, 0), j);
    }
  }

  lemma SameDevice(devices: seq<nat>, address: nat, i: int, j: int)
    requires IsDevice(devices, address, j) && (i >= 0 ==> IsDevice(devices, address, i))
    ensures i >= 0 ==> i == j
  {
  }

  function DeviceTemp(x: Inputs, address: nat): real
    requires |x.devices| <= |x.deviceTemp|
  {
    var idx := FindDevice(x.devices, address, 0);
    if idx >= 0 then x.deviceTemp[idx] else 0.0
  }

  /** `get_vsensor`: the new temperature of sensor `i`. */
  function NewTemp(c: seq<VSensor>, x: Inputs, now: int, s: VState, i: nat): real
    requires Sized(s) && ValidSensors(c, x, |s.temp|) && i < |c|
  {
    if c[i].filtered then x.filterOut[i]
    else if c[i].mode.Manual? || c[i].mode.I2C? then WrittenTemp(c[i], x.written[i], s.temp[i], s.stamp[i], now)
    else if c[i].mode.OneWire? then DeviceTemp(x, c[i].address)
    else Combined(c[i].mode, Values(x.temp, s.temp, Listed(c[i].sources)))
  }

  /** The values copied along with a written temperature. */
  function Copied(c: seq<VSensor>, x: Inputs, s: VState, i: nat): (t: VState)
    requires Sized(s) && ValidSensors(c, x, |s.temp|) && i < |c|
    ensures Sized(t) && t.temp == s.temp
  {
    var w := x.written[i];
    if (c[i].mode.Manual? || c[i].mode.I2C?) && s.stamp[i] != w.stamp then
      s.(stamp := s.stamp[i := w.stamp], pressure := s.pressure[i := w.pressure], humidity := s.humidity[i := w.humidity])
    else s
  }

  function UpdateSensor(c: seq<VSensor>, x: Inputs, now: int, s: VState, i: nat): (t: VState)
    requires Sized(s) && ValidSensors(c, x, |s.temp|) && i < |c|
    ensures Sized(t) && |t.temp| == |s.temp|
  {
    Copied(c, x, s, i).(temp := s.temp[i := NewTemp(c, x, now, s, i)])
  }

  function UpdateFrom(c: seq<VSensor>, x: Inputs, now: int, s: VState, i: nat): (t: VState)
    requires Sized(s) && ValidSensors(c, x, |s.temp|)
    ensures Sized(t) && |t.temp| == |s.temp|
    decreases |c| - i
  {
    if i >= |c| then s else UpdateFrom(c, x, now, UpdateSensor(c, x, now, s, i), i + 1)
  }

  /** One round over all virtual sensors. */
  function Update(c: seq<VSensor>, x: Inputs, now: int, s: VState): (t: VState)
    requires Sized(s) && ValidSensors(c, x, |s.temp|)
    ensures Sized(t) && |t.temp| == |s.temp|
  {
    UpdateFrom(c, x, now, s, 0)
  }

  class VSensors {
    const vtemp: array<real>
    const updated: array<int>
    const vpressure: array<real>
    const vhumidity: array<real>

    ghost predicate Valid()
      reads this
    {
      && vtemp.Length == updated.Length == vpressure.Length == vhumidity.Length
      && vtemp != vpressure && vtemp != vhumidity && vpressure != vhumidity
    }

    ghost function State(): (s: VState)
      reads this, vtemp, updated, vpressure, vhumidity
      requires Valid()
      ensures Sized(s)
    {
      VState(vtemp[..], updated[..], vpressure[..], vhumidity[..])
    }

    /** `clear_state`. */
    constructor (slots: nat)
      ensures Valid() && fresh(vtemp) && fresh(updated) && fresh(vpressure) && fresh(vhumidity)
      ensures vtemp.Length == slots
      ensures forall k :: 0 <= k < slots ==> vtemp[k] == 0.0 && updated[k] == 0 && vpressure[k] == vhumidity[k] == -1.0
    {
      vtemp := new real[slots](_ => 0.0);
      updated := new int[slots](_ => 0);
      vpressure := new real[slots](_ => -1.0);
      vhumidity := new real[slots](_ => -1.0);
    }

    /** The branch for written sensors. */
    method TakeWritten(v: VSensor, w: Written, i: nat, now: int) returns (t: real)
      requires Valid() && i < vtemp.Length
      modifies updated, vpressure, vhumidity
      ensures t == WrittenTemp(v, w, vtemp[i], old(updated[i]), now)
      ensures TakesOver(v, w, vtemp[i], old(updated[i]), now, t)
      ensures State() == if old(updated[i]) == w.stamp then old(State()) else
                old(State()).(stamp := old(updated[..])[i := w.stamp], pressure := old(vpressure[..])[i := w.pressure],
                              humidity := old(vhumidity[..])[i := w.humidity])
    {
      t := vtemp[i];
      if updated[i] - w.stamp != 0 {
        t := w.temp;
        updated[i] := w.stamp;
        vpressure[i] := w.pressure;
        vhumidity[i] := w.humidity;
      }
      if v.timeout > 0 && t != v.defaultTemp {
        if Seconds(now - updated[i]) > v.timeout {
          t := v.defaultTemp;
        }
      }
    }

    /** The branch for 1-Wire sensors. */
    method FindTemp(x: Inputs, address: nat) returns (t: real)
      requires |x.devices| <= |x.deviceTemp|
      ensures t == DeviceTemp(x, address) && ShowsDevice(x, address, t)
    {
      DeviceFound(x, address);
      var idx, j := -1, 0;
      while j < ONEWIRE_MAX_COUNT
        invariant idx == -1 && FindDevice(x.devices, address, j) == FindDevice(x.devices, address, 0)
      {
        var a := if j < |x.devices| then x.devices[j] else 0;
        if a == 0 {
          break;
        }
        if a == address {
          idx := j;
          break;
        }
        j := j + 1;
      }
      t := if idx >= 0 then x.deviceTemp[idx] else 0.0;
    }

    method GetVsensor(c: seq<VSensor>, x: Inputs, i: nat, now: int) returns (t: real)
      requires Valid() && ValidSensors(c, x, vtemp.Length) && i < |c|
      modifies updated, vpressure, vhumidity
      ensures t == NewTemp(c, x, now, old(State()), i)
      ensures c[i].filtered ==> t == x.filterOut[i]
      ensures IsWritten(c[i]) ==> TakesOver(c[i], x.written[i], old(vtemp[i]), old(updated[i]), now, t)
      ensures !c[i].filtered && c[i].mode.OneWire? ==> ShowsDevice(x, c[i].address, t)
      ensures !c[i].filtered && Aggregates(c[i].mode) ==>
                Meaning(c[i].mode, Values(x.temp, vtemp[..], Listed(c[i].sources)), t)
      ensures State() == Copied(c, x, old(State()), i)
    {
      var v := c[i];
      if v.mode == Manual || v.mode == I2C {
        t := TakeWritten(v, x.written[i], i, now);
      } else if v.mode == OneWire {
        t := FindTemp(x, v.address);
      } else {
        t := Aggregate(v, x.temp, vtemp[..]);
      }
      if v.filtered {
        if x.filterOut[i] != t { t := x.filterOut[i]; }
      }
    }

    /** The loop of `core1_main`. */
    method UpdateAll(c: seq<VSensor>, x: Inputs, now: int)
      requires Valid() && ValidSensors(c, x, vtemp.Length)
      modifies vtemp, updated, vpressure, vhumidity
      ensures State() == Update(c, x, now, old(State()))
    {
      var i := 0;
      while i < |c|
        invariant 0 <= i <= |c|
        invariant UpdateFrom(c, x, now, State(), i) == Update(c, x, now, old(State()))
      {
        ghost var before := State();
        var t := GetVsensor(c, x, i, now);
        vtemp[i] := t;
        assert State() == UpdateSensor(c, x, now, before, i);
        i := i + 1;
      }
    }
  }

  // --------------------------------------------------------------------------------------------
  // Written sensors over whole runs

  lemma {:induction false} OthersUntouched(c: seq<VSensor>, x: Inputs, now: int, s: VState, i: nat, k: nat)
    requires Sized(s) && ValidSensors(c, x, |s.temp|) && k < i
    ensures k < |s.temp| ==> UpdateFrom(c, x, now, s, i).temp[k] == s.temp[k] && UpdateFrom(c, x, now, s, i).stamp[k] == s.stamp[k]
    decreases |c| - i
  {
    if i < |c| { OthersUntouched(c, x, now, UpdateSensor(c, x, now, s, i), i + 1, k); }
  }

  lemma {:induction false} WrittenInRound(c: seq<VSensor>, x: Inputs, now: int, s: VState, i: nat, k: nat)
    requires Sized(s) && ValidSensors(c, x, |s.temp|) && i <= k < |c| && IsWritten(c[k])
    ensures var t := UpdateFrom(c, x, now, s, i);
            && t.temp[k] == WrittenTemp(c[k], x.written[k], s.temp[k], s.stamp[k], now)
            && t.stamp[k] == x.written[k].stamp
    decreases k - i
  {
    var t := UpdateSensor(c, x, now, s, i);
    if i < k { WrittenInRound(c, x, now, t, i + 1, k); } else { OthersUntouched(c, x, now, t, i + 1, k); }
  }

  /** What a round publishes for a 1-Wire sensor. */
  lemma {:induction false} OneWireInRound(c: seq<VSensor>, x: Inputs, now: int, s: VState, i: nat, k: nat)
    requires Sized(s) && ValidSensors(c, x, |s.temp|) && i <= k < |c| && c[k].mode.OneWire? && !c[k].filtered
    ensures ShowsDevice(x, c[k].address, UpdateFrom(c, x, now, s, i).temp[k])
    decreases k - i
  {
    var t := UpdateSensor(c, x, now, s, i);
    if i < k {
      OneWireInRound(c, x, now, t, i + 1, k);
    } else {
      DeviceFound(x, c[k].address);
      OthersUntouched(c, x, now, t, i + 1, k);
    }
  }

  /** A value is too old from the microsecond on at which its age passes the timeout by a whole second. */
  lemma ExpiredFrom(v: VSensor, stamp: int, now: int)
    ensures Expired(v, stamp, now) <==> v.timeout > 0 && now - stamp >= (v.timeout + 1) * 1_000_000
  {
  }

  /** One round with the configuration that core 1 has at that moment. */
  datatype Round = Round(c: seq<VSensor>, x: Inputs, now: int)

  ghost predicate ValidRun(run: seq<Round>, slots: nat) {
    forall r :: 0 <= r < |run| ==> ValidSensors(run[r].c, run[r].x, slots)
  }

  function After(run: seq<Round>, s: VState): (t: VState)
    requires Sized(s) && ValidRun(run, |s.temp|)
    ensures Sized(t) && |t.temp| == |s.temp|
    decreases |run|
  {
    if run == [] then s
    else
      var n := |run| - 1;
      Update(run[n].c, run[n].x, run[n].now, After(run[..n], s))
  }

  /** What one written sensor meets in a round. */
  datatype View = View(v: VSensor, w: Written, now: int)

  predicate WrittenIn(a: Round, k: nat) {
    k < |a.c| && k < |a.x.written| && IsWritten(a.c[k])
  }

  /** Sensor `k` is a written one in every round, whatever else the configuration does. */
  ghost predicate StaysWritten(run: seq<Round>, k: nat) {
    forall r :: 0 <= r < |run| ==> WrittenIn(run[r], k)
  }

  ghost function Views(run: seq<Round>, k: nat): (views: seq<View>)
    requires StaysWritten(run, k)
    ensures |views| == |run|
    ensures forall r :: 0 <= r < |run| ==> WrittenIn(run[r], k) && views[r] == View(run[r].c[k], run[r].x.written[k], run[r].now)
  {
    if run == [] then []
    else
      var n := |run| - 1;
      assert WrittenIn(run[n], k);
      Views(run[..n], k) + [View(run[n].c[k], run[n].x.written[k], run[n].now)]
  }

  function StampAfter(stamp: int, views: seq<View>): int {
    if views == [] then stamp else views[|views| - 1].w.stamp
  }

  /** The sensor's temperature after some rounds. */
  function TempAfter(t: real, stamp: int, views: seq<View>): real {
    if views == [] then t
    else
      var front, last := views[..|views| - 1], views[|views| - 1];
      WrittenTemp(last.v, last.w, TempAfter(t, stamp, front), StampAfter(stamp, front), last.now)
  }

  lemma {:induction false} WrittenFollows(run: seq<Round>, s: VState, k: nat)
    requires Sized(s) && ValidRun(run, |s.temp|) && StaysWritten(run, k) && k < |s.temp|
    ensures After(run, s).temp[k] == TempAfter(s.temp[k], s.stamp[k], Views(run, k))
    ensures After(run, s).stamp[k] == StampAfter(s.stamp[k], Views(run, k))
    decreases |run|
  {
    if run != [] {
      var n := |run| - 1;
      WrittenFollows(run[..n], s, k);
      assert WrittenIn(run[n], k);
      WrittenInRound(run[n].c, run[n].x, run[n].now, After(run[..n], s), 0, k);
      ViewsFront(run, k, n);
      TempAfterLast(s.temp[k], s.stamp[k], Views(run, k));
    }
  }

  lemma TempAfterLast(t: real, stamp: int, views: seq<View>)
    requires views != []
    ensures var front, last := views[..|views| - 1], views[|views| - 1];
            && TempAfter(t, stamp, views) == WrittenTemp(last.v, last.w, TempAfter(t, stamp, front), StampAfter(stamp, front), last.now)
            && StampAfter(stamp, views) == last.w.stamp
  {
  }

  predicate TooOld(a: View) { Expired(a.v, a.w.stamp, a.now) }

  /** What a written sensor should show: the value last written, or the default if that is too old. */
  function Shown(a: View): real { if TooOld(a) then a.v.defaultTemp else a.w.temp }

  /** A write that changes the temperature changes the stamp. */
  predicate SteppedTo(a: View, b: View) { a.w.stamp == b.w.stamp ==> a.w.temp == b.w.temp }

  ghost predicate Stamped(views: seq<View>) {
    forall r :: 0 < r < |views| ==> SteppedTo(views[r - 1], views[r])
  }

  /** A value that was too old counts as recent again, although another number was shown instead. */
  predicate Revives(a: View, b: View) {
    a.w.stamp == b.w.stamp && TooOld(a) && !TooOld(b) && a.v.defaultTemp != b.w.temp
  }

  ghost predicate NeverRevives(views: seq<View>) {
    forall r :: 0 < r < |views| ==> !Revives(views[r - 1], views[r])
  }

  lemma ShownNext(a: View, b: View)
    requires SteppedTo(a, b)
    ensures WrittenTemp(b.v, b.w, Shown(a), a.w.stamp, b.now) == Shown(b) <==> !Revives(a, b)
  {
  }

  /** After `n` rounds the sensor shows what it should. */
  ghost predicate ShowsAt(t: real, stamp: int, views: seq<View>, n: nat)
    requires 0 < n <= |views|
  {
    TempAfter(t, stamp, views[..n]) == Shown(views[n - 1])
  }

  lemma ShowsNext(t: real, stamp: int, views: seq<View>, n: nat)
    requires 0 < n < |views| && ShowsAt(t, stamp, views, n) && SteppedTo(views[n - 1], views[n])
    ensures ShowsAt(t, stamp, views, n + 1) <==> !Revives(views[n - 1], views[n])
  {
    assert views[..n + 1][..n] == views[..n];
    ShownNext(views[n - 1], views[n]);
  }

  ghost predicate StartsInStep(t: real, stamp: int, views: seq<View>) {
    views != [] && stamp == views[0].w.stamp ==> t == views[0].w.temp
  }

  lemma {:induction false} ShowsWithoutRevival(t: real, stamp: int, views: seq<View>, n: nat)
    requires 0 < n <= |views| && Stamped(views) && StartsInStep(t, stamp, views) && NeverRevives(views)
    ensures ShowsAt(t, stamp, views, n)
    decreases n
  {
    if n == 1 {
      assert views[..1][..0] == [];
    } else {
      ShowsWithoutRevival(t, stamp, views, n - 1);
      assert SteppedTo(views[n - 2], views[n - 1]) && !Revives(views[n - 2], views[n - 1]);
      ShowsNext(t, stamp, views, n - 1);
    }
  }

  ghost predicate AlwaysShows(t: real, stamp: int, views: seq<View>) {
    forall n :: 0 < n <= |views| ==> ShowsAt(t, stamp, views, n)
  }

  lemma AlwaysShowsIff(t: real, stamp: int, views: seq<View>)
    requires Stamped(views) && StartsInStep(t, stamp, views)
    ensures AlwaysShows(t, stamp, views) <==> NeverRevives(views)
  {
    if NeverRevives(views) {
      forall n | 0 < n <= |views| ensures ShowsAt(t, stamp, views, n) { ShowsWithoutRevival(t, stamp, views, n); }
    }
    if AlwaysShows(t, stamp, views) {
      forall r | 0 < r < |views| ensures !Revives(views[r - 1], views[r]) {
        assert ShowsAt(t, stamp, views, r) && ShowsAt(t, stamp, views, r + 1) && SteppedTo(views[r - 1], views[r]);
        ShowsNext(t, stamp, views, r);
      }
    }
  }

  /** After `n` rounds of a run sensor `k` shows the value last written, or its default if that is too old. */
  ghost predicate ShowsWritten(run: seq<Round>, s: VState, k: nat, n: nat)
    requires Sized(s) && ValidRun(run, |s.temp|) && StaysWritten(run, k) && k < |s.temp| && 0 < n <= |run|
  {
    After(run[..n], s).temp[k] == Shown(Views(run, k)[n - 1])
  }

  lemma ShowsWrittenAt(run: seq<Round>, s: VState, k: nat, n: nat)
    requires Sized(s) && ValidRun(run, |s.temp|) && StaysWritten(run, k) && k < |s.temp| && 0 < n <= |run|
    ensures ShowsWritten(run, s, k, n) <==> ShowsAt(s.temp[k], s.stamp[k], Views(run, k), n)
  {
    ViewsFront(run, k, n);
    WrittenFollows(run[..n], s, k);
  }

  lemma ViewsFront(run: seq<Round>, k: nat, n: nat)
    requires StaysWritten(run, k) && n <= |run|
    ensures StaysWritten(run[..n], k) && Views(run[..n], k) == Views(run, k)[..n]
  {
    var a, b := Views(run[..n], k), Views(run, k);
    forall r | 0 <= r < n ensures a[r] == b[r] {
      assert run[..n][r] == run[r];
    }
  }

  /** In a run with a changing configuration, a written sensor shows after every round the value last
      written, or its default if that is older than the timeout, exactly if no value that was too old
      is ever taken for recent again; nothing else of the past matters. */
  lemma WrittenClosedForm(run: seq<Round>, s: VState, k: nat)
    requires Sized(s) && ValidRun(run, |s.temp|) && StaysWritten(run, k) && k < |s.temp|
    requires Stamped(Views(run, k)) && StartsInStep(s.temp[k], s.stamp[k], Views(run, k))
    ensures (forall n :: 0 < n <= |run| ==> ShowsWritten(run, s, k, n)) <==> NeverRevives(Views(run, k))
  {
    AlwaysShowsIff(s.temp[k], s.stamp[k], Views(run, k));
    forall n | 0 < n <= |run|
      ensures ShowsWritten(run, s, k, n) <==> ShowsAt(s.temp[k], s.stamp[k], Views(run, k), n)
    {
      ShowsWrittenAt(run, s, k, n);
    }
  }

  /** From start-up a sensor is written 50 degrees, which is 5 seconds old with a timeout of 1 second; then
      the timeout is raised to 10 seconds. It keeps the default, although the value counts again. */
  lemma RaisedTimeoutKeepsDefault()
    ensures var s := VState([0.0], [0], [-1.0], [-1.0]);
            var x := Inputs([Written(50.0, 1, 0.0, 0.0)], [], [], [], [0.0]);
            var run := [Round([VSensor(Manual, 20.0, 1, 0, [], false)], x, 5_000_001),
                        Round([VSensor(Manual, 20.0, 10, 0, [], false)], x, 5_000_001)];
            && ValidRun(run, 1) && StaysWritten(run, 0) && Stamped(Views(run, 0)) && !NeverRevives(Views(run, 0))
            && Shown(Views(run, 0)[1]) == 50.0 && After(run, s).temp == [20.0]
  {
    var s := VState([0.0], [0], [-1.0], [-1.0]);
    var x := Inputs([Written(50.0, 1, 0.0, 0.0)], [], [], [], [0.0]);
    var a := Round([VSensor(Manual, 20.0, 1, 0, [], false)], x, 5_000_001);
    var b := Round([VSensor(Manual, 20.0, 10, 0, [], false)], x, 5_000_001);
    var run := [a, b];
    assert WrittenIn(a, 0) && WrittenIn(b, 0) && ValidSensors(a.c, x, 1) && ValidSensors(b.c, x, 1);
    var views := Views(run, 0);
    assert Revives(views[0], views[1]);
    WrittenFollows(run, s, 0);
    assert views[..1] == [views[0]] && [views[0]][..0] == [];
    assert TempAfter(0.0, 0, [views[0]]) == 20.0;
  }

  /** Time goes on and the timeout is not raised or switched off. */
  predicate TimeoutKept(a: View, b: View) {
    a.now <= b.now && (a.v.timeout > 0 ==> 0 < b.v.timeout <= a.v.timeout)
  }

  /** Then nothing revives. */
  lemma KeptTimeoutsNeverRevive(views: seq<View>)
    requires forall r :: 0 < r < |views| ==> TimeoutKept(views[r - 1], views[r])
    ensures NeverRevives(views)
  {
    forall r | 0 < r < |views| ensures !Revives(views[r - 1], views[r]) {
      assert TimeoutKept(views[r - 1], views[r]);
    }
  }

  // --------------------------------------------------------------------------------------------
  // Order

  /** No differences and no filters. */
  predicate Responsive(c: seq<VSensor>) {
    forall k :: 0 <= k < |c| ==> !c[k].mode.Delta? && !c[k].filtered
  }

  ghost predicate WrittenBelow(v: seq<Written>, w: seq<Written>) {
    |v| == |w| && forall k :: 0 <= k < |v| ==> v[k].stamp == w[k].stamp && v[k].temp <= w[k].temp
  }

  /** The same sensors, nowhere colder. */
  ghost predicate NoColder(x: Inputs, y: Inputs) {
    && Means.Below(x.temp, y.temp) && Means.Below(x.deviceTemp, y.deviceTemp)
    && x.devices == y.devices && WrittenBelow(x.written, y.written)
  }

  lemma ValuesMonotone(temp: seq<real>, s: seq<real>, warmer: seq<real>, t: seq<real>, codes: seq<nat>)
    requires Means.Below(temp, warmer) && Means.Below(s, t)
    requires forall k :: 0 <= k < |codes| ==> SourceExists(codes[k], |temp|, |s|)
    ensures Means.Below(Values(temp, s, codes), Values(warmer, t, codes))
  {
  }

  lemma NewTempMonotone(c: seq<VSensor>, x: Inputs, y: Inputs, now: int, s: VState, t: VState, i: nat)
    requires Sized(s) && Sized(t) && ValidSensors(c, x, |s.temp|) && ValidSensors(c, y, |t.temp|) && i < |c|
    requires Responsive(c) && NoColder(x, y) && Means.Below(s.temp, t.temp) && s.stamp == t.stamp
    ensures NewTemp(c, x, now, s, i) <= NewTemp(c, y, now, t, i)
  {
    if Aggregates(c[i].mode) {
      var codes := Listed(c[i].sources);
      ValuesMonotone(x.temp, s.temp, y.temp, t.temp, codes);
      CombinedMonotone(c[i].mode, Values(x.temp, s.temp, codes), Values(y.temp, t.temp, codes));
    }
  }

  /** Warmer sensors never give a lower virtual temperature in a whole round, cycles included. */
  lemma {:induction false} SensorsMonotone(c: seq<VSensor>, x: Inputs, y: Inputs, now: int, s: VState, t: VState, i: nat)
    requires Sized(s) && Sized(t) && ValidSensors(c, x, |s.temp|) && ValidSensors(c, y, |t.temp|)
    requires Responsive(c) && NoColder(x, y) && Means.Below(s.temp, t.temp) && s.stamp == t.stamp
    ensures Means.Below(UpdateFrom(c, x, now, s, i).temp, UpdateFrom(c, y, now, t, i).temp)
    ensures UpdateFrom(c, x, now, s, i).stamp == UpdateFrom(c, y, now, t, i).stamp
    decreases |c| - i
  {
    if i < |c| {
      NewTempMonotone(c, x, y, now, s, t, i);
      SensorsMonotone(c, x, y, now, UpdateSensor(c, x, now, s, i), UpdateSensor(c, y, now, t, i), i + 1);
    }
  }

  // --------------------------------------------------------------------------------------------
  // Convergence of references

  predicate Refers(v: VSensor) { Aggregates(v.mode) && !v.filtered }

  /** The virtual sensors among the sources. */
  function Virtuals(codes: seq<nat>): (r: set<nat>)
    ensures forall j: nat :: j in r <==> j + 101 in codes
  {
    if codes == [] then {} else (if codes[0] > 100 then {(codes[0] - 101) as nat} else {}) + Virtuals(codes[1..])
  }

  function SensorGraph(c: seq<VSensor>, expired: seq<bool>): Graph
    requires |expired| == |c|
  {
    Graph(seq(|c|, i requires 0 <= i < |c| => if Refers(c[i]) then Virtuals(Listed(c[i].sources)) else {}),
          Held(c, expired, |c|))
  }

  /** Written sensors that have a value keep it. */
  function Held(c: seq<VSensor>, expired: seq<bool>, n: nat): (h: set<nat>)
    requires n <= |c| == |expired|
    ensures forall i: nat :: i in h <==> i < n && IsWritten(c[i]) && !expired[i]
  {
    if n == 0 then {}
    else Held(c, expired, n - 1) + (if IsWritten(c[n - 1]) && !expired[n - 1] then {n - 1} else {})
  }

  /** The sweep that a round amounts to while written values are known and none expires. */
  function TempRule(c: seq<VSensor>, x: Inputs, expired: seq<bool>, size: nat): Rule
    requires ValidSensors(c, x, size) && |expired| == |c|
  {
    (i: nat, s: seq<real>) =>
      if i >= |c| || |s| != size then 0.0
      else if c[i].filtered then x.filterOut[i]
      else if c[i].mode.Manual? || c[i].mode.I2C? then if expired[i] then c[i].defaultTemp else s[i]
      else if c[i].mode.OneWire? then DeviceTemp(x, c[i].address)
      else Combined(c[i].mode, Values(x.temp, s, Listed(c[i].sources)))
  }

  /** Stamps are those of the written values, and `expired` says which of these are too old. */
  ghost predicate Synced(c: seq<VSensor>, x: Inputs, now: int, stamp: seq<int>, expired: seq<bool>) {
    && |c| == |expired| == |x.written| && |c| <= |stamp|
    && forall i :: 0 <= i < |c| && (c[i].mode.Manual? || c[i].mode.I2C?) ==>
         stamp[i] == x.written[i].stamp && expired[i] == Expired(c[i], stamp[i], now)
  }

  lemma {:induction false} RoundIsSweep(c: seq<VSensor>, x: Inputs, now: int, s: VState, expired: seq<bool>, i: nat)
    requires Sized(s) && ValidSensors(c, x, |s.temp|) && Synced(c, x, now, s.stamp, expired)
    ensures UpdateFrom(c, x, now, s, i) ==
              s.(temp := SweepFrom(TempRule(c, x, expired, |s.temp|), |c|, s.temp, i))
    decreases |c| - i
  {
    if i < |c| {
      assert UpdateSensor(c, x, now, s, i).temp == s.temp[i := TempRule(c, x, expired, |s.temp|)(i, s.temp)];
      RoundIsSweep(c, x, now, UpdateSensor(c, x, now, s, i), expired, i + 1);
    }
  }

  lemma {:induction false} SameValues(temp: seq<real>, s: seq<real>, t: seq<real>, codes: seq<nat>)
    requires |s| == |t|
    requires forall k :: 0 <= k < |codes| ==> SourceExists(codes[k], |temp|, |s|)
    requires forall j: nat :: j in Virtuals(codes) ==> Same(s, t, j)
    ensures Values(temp, s, codes) == Values(temp, t, codes)
  {
    forall k | 0 <= k < |codes| ensures SourceValue(temp, s, codes[k]) == SourceValue(temp, t, codes[k]) {
      if codes[k] > 100 { assert Same(s, t, codes[k] - 101) by { assert codes[k] - 101 + 101 in codes; } }
    }
  }

  lemma SensorsFollowGraph(c: seq<VSensor>, x: Inputs, expired: seq<bool>, size: nat)
    requires ValidSensors(c, x, size) && |expired| == |c|
    ensures Follows(TempRule(c, x, expired, size), SensorGraph(c, expired), size)
  {
    var rule, g := TempRule(c, x, expired, size), SensorGraph(c, expired);
    forall i: nat, s: seq<real>, t: seq<real> ensures ReadsRefs(rule, g, size, i, s, t) {
      if i < |g.refs| && |s| == size && SameRefs(g, s, t, i) && Refers(c[i]) { SameValues(x.temp, s, t, Listed(c[i].sources)); }
    }
  }

  /** Every chain of references from `i` has at most `fuel` links. */
  predicate Ends(c: seq<VSensor>, i: nat, fuel: nat)
    decreases fuel, 1, 0
  {
    i >= |c| || !Refers(c[i]) || EndAll(c, Listed(c[i].sources), fuel)
  }

  predicate EndAll(c: seq<VSensor>, codes: seq<nat>, fuel: nat)
    decreases fuel, 0, |codes|
  {
    codes == [] ||
    ((codes[0] > 100 ==> fuel > 0 && Ends(c, codes[0] - 101, fuel - 1)) && EndAll(c, codes[1..], fuel))
  }

  /** The most hops on such a chain that lead to the same or a later sensor; only these cost a round. */
  function LateHops(c: seq<VSensor>, i: nat, fuel: nat): nat
    decreases fuel, 1, 0
  {
    if i >= |c| || !Refers(c[i]) then 0 else MostHops(c, i, Listed(c[i].sources), fuel)
  }

  function MostHops(c: seq<VSensor>, i: nat, codes: seq<nat>, fuel: nat): nat
    decreases fuel, 0, |codes|
  {
    if codes == [] then 0
    else
      var rest := MostHops(c, i, codes[1..], fuel);
      if codes[0] <= 100 || fuel == 0 then rest
      else
        var j := codes[0] - 101;
        var hops := (if j < i then 0 else 1) + LateHops(c, j, fuel - 1);
        if hops > rest then hops else rest
  }

  lemma {:induction false} FuelIrrelevant(c: seq<VSensor>, i: nat, fuel: nat)
    requires Ends(c, i, fuel)
    ensures LateHops(c, i, fuel + 1) == LateHops(c, i, fuel)
    decreases fuel, 1, 0
  {
    if i < |c| && Refers(c[i]) { FuelIrrelevantAll(c, i, Listed(c[i].sources), fuel); }
  }

  lemma {:induction false} FuelIrrelevantAll(c: seq<VSensor>, i: nat, codes: seq<nat>, fuel: nat)
    requires EndAll(c, codes, fuel)
    ensures MostHops(c, i, codes, fuel + 1) == MostHops(c, i, codes, fuel)
    decreases fuel, 0, |codes|
  {
    if codes != [] {
      FuelIrrelevantAll(c, i, codes[1..], fuel);
      if codes[0] > 100 { FuelIrrelevant(c, codes[0] - 101, fuel - 1); }
    }
  }

  lemma {:induction false} HopsCover(c: seq<VSensor>, i: nat, codes: seq<nat>, fuel: nat, j: nat)
    requires EndAll(c, codes, fuel) && j + 101 in codes
    ensures fuel > 0 && Ends(c, j, fuel - 1)
    ensures (if j < i then 0 else 1) + LateHops(c, j, fuel - 1) <= MostHops(c, i, codes, fuel)
    decreases |codes|
  {
    if codes[0] != j + 101 { HopsCover(c, i, codes[1..], fuel, j); }
  }

  function SensorRank(c: seq<VSensor>, fuel: nat): seq<nat> {
    seq(|c|, i requires 0 <= i < |c| => LateHops(c, i, fuel))
  }

  lemma SensorsRanked(c: seq<VSensor>, expired: seq<bool>, fuel: nat)
    requires |expired| == |c| && forall i: nat :: i < |c| ==> Ends(c, i, fuel)
    ensures Ranked(SensorGraph(c, expired), SensorRank(c, fuel))
  {
    var g, rank := SensorGraph(c, expired), SensorRank(c, fuel);
    forall i: nat, j: nat | i < |g.refs| && !Outside(g, i) && !Outside(g, j) && j in g.refs[i]
      ensures if j < i then rank[j] <= rank[i] else rank[j] < rank[i]
    {
      assert Refers(c[i]) && Ends(c, i, fuel);
      HopsCover(c, i, Listed(c[i].sources), fuel, j);
      FuelIrrelevant(c, j, fuel - 1);
    }
  }

  /** Rounds at the given times with the inputs held still. */
  function Steady(c: seq<VSensor>, x: Inputs, nows: seq<int>, s: VState): (t: VState)
    requires Sized(s) && ValidSensors(c, x, |s.temp|)
    ensures Sized(t) && |t.temp| == |s.temp|
  {
    if nows == [] then s else Steady(c, x, nows[1..], Update(c, x, nows[0], s))
  }

  lemma {:induction false} SteadyIsRounds(c: seq<VSensor>, x: Inputs, nows: seq<int>, s: VState, expired: seq<bool>)
    requires Sized(s) && ValidSensors(c, x, |s.temp|)
    requires forall k :: 0 <= k < |nows| ==> Synced(c, x, nows[k], s.stamp, expired)
    ensures |expired| == |c| ==>
              Steady(c, x, nows, s) == s.(temp := Rounds(TempRule(c, x, expired, |s.temp|), |c|, s.temp, |nows|))
    decreases |nows|
  {
    if nows != [] {
      assert Synced(c, x, nows[0], s.stamp, expired);
      RoundIsSweep(c, x, nows[0], s, expired, 0);
      SteadyIsRounds(c, x, nows[1..], Update(c, x, nows[0], s), expired);
    }
  }

  /** Two states that agree on the written sensors that are in date, and beyond the last sensor. */
  ghost predicate SameWritten(c: seq<VSensor>, expired: seq<bool>, s: seq<real>, t: seq<real>) {
    && |s| == |t| && |expired| == |c|
    && (forall i: nat :: i < |c| && i < |s| && IsWritten(c[i]) && !expired[i] ==> s[i] == t[i])
    && (forall i: nat :: |c| <= i < |s| ==> s[i] == t[i])
  }

  /** With inputs held still and reference chains that end, `d + 1` rounds settle every temperature,
      where `d` bounds the hops to the same or a later sensor. What they settle at depends on nothing in
      the starting state but the written values, and is the only thing a round keeps. */
  lemma SensorsConverge(c: seq<VSensor>, x: Inputs, nows: seq<int>, later: int, s: VState, t: VState,
                        expired: seq<bool>, fuel: nat, d: nat)
    requires Sized(s) && Sized(t) && s.stamp == t.stamp && ValidSensors(c, x, |s.temp|)
    requires SameWritten(c, expired, s.temp, t.temp)
    requires Synced(c, x, later, s.stamp, expired)
    requires |nows| == d + 1 && forall k :: 0 <= k < |nows| ==> Synced(c, x, nows[k], s.stamp, expired)
    requires forall i: nat :: i < |c| ==> Ends(c, i, fuel) && LateHops(c, i, fuel) <= d
    ensures var f := Steady(c, x, nows, s);
            && Update(c, x, later, f) == f
            && Steady(c, x, nows, t).temp == f.temp
            && (Update(c, x, later, t) == t ==> t.temp == f.temp)
  {
    var rule, g := TempRule(c, x, expired, |s.temp|), SensorGraph(c, expired);
    SensorsFollowGraph(c, x, expired, |s.temp|);
    SensorsRanked(c, expired, fuel);
    forall k: nat | Outside(g, k) ensures Same(s.temp, t.temp, k) {
    }
    Converges(rule, g, SensorRank(c, fuel), d, s.temp, t.temp);
    SteadyIsRounds(c, x, nows, s, expired);
    SteadyIsRounds(c, x, nows, t, expired);
    RoundIsSweep(c, x, later, Steady(c, x, nows, s), expired, 0);
    RoundIsSweep(c, x, later, t, expired, 0);
  }

  /** References that form a cycle can hold on to different temperatures. */
  lemma CycleKeepsBoth()
    ensures var c := [VSensor(Max, 0.0, 0, 0, [101, 101], false)];
            var x := Inputs([Written(0.0, 0, 0.0, 0.0)], [], [], [], [0.0]);
            && ValidSensors(c, x, 1)
            && NewTemp(c, x, 0, VState([20.0], [0], [0.0], [0.0]), 0) == 20.0
            && NewTemp(c, x, 0, VState([80.0], [0], [0.0], [0.0]), 0) == 80.0
  {
    var c := [VSensor(Max, 0.0, 0, 0, [101, 101], false)];
    assert Listed([101, 101]) == [101, 101] by { assert Listed([101]) == [101]; }
    CombinedMeans(Max, Values([], [20.0], [101, 101]));
    CombinedMeans(Max, Values([], [80.0], [101, 101]));
  }
}
