/** Tachometer inputs counted by interrupts, one pin per fan (src/tacho.c without the multiplexer). */
module TachoCounter {

  /** Counters are 32 bits wide. */
  const WRAP: nat := 0x1_0000_0000
  const PINS: nat := 32
  const WINDOW: int := 1_000_000

  function Last(ends: seq<nat>): nat
    requires ends != []
  {
    ends[|ends| - 1]
  }

  /** Numbers of edges at the ends of successive windows, up to the `seen` edges so far. */
  ghost predicate Sound(seen: nat, ends: seq<nat>) {
    ends != [] && ends[0] == 0 && Rising(ends) && Last(ends) <= seen
  }

  predicate Rising(at: seq<nat>) {
    |at| < 2 || (Rising(at[..|at| - 1]) && at[|at| - 2] <= at[|at| - 1])
  }

  lemma SoundExtended(seen: nat, ends: seq<nat>, at: nat)
    requires Sound(seen, ends) && Last(ends) <= at <= seen
    ensures Sound(seen, ends + [at]) && Last(ends + [at]) == at
  {
    assert (ends + [at])[..|ends|] == ends;
  }

  /** The difference of two wrapped counters. */
  function Pulses(now: nat, last: nat): nat { (now - last) % WRAP }

  lemma PulsesAreEdges(at: nat, taken: nat)
    requires taken <= at
    ensures Pulses(at % WRAP, taken % WRAP) == (at - taken) % WRAP
  {
    var d := (at / WRAP) - (taken / WRAP);
    assert at - taken == (at % WRAP - taken % WRAP) + WRAP * d;
    WrapMultiple(at % WRAP - taken % WRAP, d);
  }

  lemma WrapMultiple(x: int, d: int)
    ensures (x + WRAP * d) % WRAP == x % WRAP
  {
    var y := x + WRAP * d;
    assert y == WRAP * (x / WRAP + d) + x % WRAP;
    Quotient(y, x / WRAP + d, x % WRAP);
  }

  lemma Quotient(y: int, q: int, r: int)
    requires y == WRAP * q + r && 0 <= r < WRAP
    ensures y % WRAP == r
  {
  }

  lemma CounterStep(n: nat)
    ensures (n % WRAP + 1) % WRAP == (n + 1) % WRAP
  {
  }

  /** A window is counted exactly if and only if it has fewer than 2^32 edges. */
  lemma CountedExactlyIff(at: nat, taken: nat)
    requires taken <= at
    ensures Pulses(at % WRAP, taken % WRAP) == at - taken <==> at - taken < WRAP
  {
    PulsesAreEdges(at, taken);
  }

  // --------------------------------------------------------------------------------------------
  // Windows of one input

  /** The pulses reported for the windows between successive snapshots of the counter. */
  function Reported(at: seq<nat>): nat {
    if |at| < 2 then 0
    else Reported(at[..|at| - 1]) + Pulses(at[|at| - 1] % WRAP, at[|at| - 2] % WRAP)
  }

  lemma ReportedExtended(ends: seq<nat>, at: nat)
    requires ends != []
    ensures Reported(ends + [at]) == Reported(ends) + Pulses(at % WRAP, Last(ends) % WRAP)
  {
    assert (ends + [at])[..|ends|] == ends;
  }

  predicate ShortWindows(at: seq<nat>) { forall k :: 0 < k < |at| ==> at[k] - at[k - 1] < WRAP }

  /** Over any number of windows the reports never exceed the edges, and they add up to them exactly
      if and only if every single window was short enough. */
  lemma {:induction false} ReportsAddUp(at: seq<nat>)
    requires at != [] && Rising(at)
    ensures at[0] + Reported(at) <= at[|at| - 1]
    ensures at[0] + Reported(at) == at[|at| - 1] <==> ShortWindows(at)
  {
    if |at| > 1 {
      var front, n := at[..|at| - 1], |at| - 1;
      ReportsAddUp(front);
      CountedExactlyIff(at[n], at[n - 1]);
      PulsesAreEdges(at[n], at[n - 1]);
      ShortWindowsStep(at);
    }
  }

  lemma ShortWindowsStep(at: seq<nat>)
    requires |at| > 1
    ensures ShortWindows(at) <==> ShortWindows(at[..|at| - 1]) && at[|at| - 1] - at[|at| - 2] < WRAP
  {
    var front := at[..|at| - 1];
    if ShortWindows(front) && at[|at| - 1] - at[|at| - 2] < WRAP {
      forall k | 0 < k < |at| ensures at[k] - at[k - 1] < WRAP {
        if k < |front| { assert front[k] == at[k] && front[k - 1] == at[k - 1]; }
      }
    }
    if ShortWindows(at) {
      forall k | 0 < k < |front| ensures front[k] - front[k - 1] < WRAP {
        assert front[k] == at[k] && front[k - 1] == at[k - 1];
      }
    }
  }

  // --------------------------------------------------------------------------------------------
  // Pins

  predicate Pinout(pins: seq<nat>) {
    && (forall k :: 0 <= k < |pins| ==> pins[k] < PINS)
    && forall j, k :: 0 <= j < k < |pins| ==> pins[j] != pins[k]
  }

  /** The reverse map: pin number to fan number, 0 for pins that are no input. */
  ghost predicate Reverses(table: seq<nat>, pins: seq<nat>) {
    && |table| == PINS
    && (forall k :: 0 <= k < |pins| ==> pins[k] < PINS && table[pins[k]] == k + 1)
    && forall p :: 0 <= p < PINS ==> table[p] <= |pins| && (table[p] > 0 ==> pins[table[p] - 1] == p)
  }

  /** Edges of fan `k` among interrupts from the given pins. */
  function Edges(gpios: seq<nat>, pins: seq<nat>, k: nat): nat
    requires k < |pins|
  {
    if gpios == [] then 0
    else Edges(gpios[..|gpios| - 1], pins, k) + if gpios[|gpios| - 1] % PINS == pins[k] then 1 else 0
  }

  /** One pin, one fan: an edge is counted for the fan on that pin and for no other. */
  lemma OneFanPerPin(table: seq<nat>, pins: seq<nat>, gpio: nat, k: nat)
    requires Reverses(table, pins) && k < |pins|
    ensures table[gpio % PINS] == k + 1 <==> gpio % PINS == pins[k]
  {
  }

  /** Edges of fan `k` among the first `m` groups of interrupts. */
  function Arrived(arrivals: seq<seq<nat>>, m: nat, pins: seq<nat>, k: nat): nat
    requires m <= |arrivals| && k < |pins|
  {
    if m == 0 then 0 else Arrived(arrivals, m - 1, pins, k) + Edges(arrivals[m - 1], pins, k)
  }

  lemma {:induction false} ArrivedGrows(arrivals: seq<seq<nat>>, m: nat, n: nat, pins: seq<nat>, k: nat)
    requires m <= n <= |arrivals| && k < |pins|
    ensures Arrived(arrivals, m, pins, k) <= Arrived(arrivals, n, pins, k)
    decreases n
  {
    if m < n { ArrivedGrows(arrivals, m, n - 1, pins, k); }
  }

  // --------------------------------------------------------------------------------------------
  // Frequencies

  /** How a fan is read: pulses, or a locked-rotor alarm standing for one of two speeds. */
  datatype Mode = Tacho | LockedRotor(alarm: bool, high: nat, low: nat, factor: nat)

  function Frequency(mode: Mode, pulses: nat, delta: int): real
    requires delta >= WINDOW
  {
    match mode
    case Tacho => pulses as real / (delta as real / 1_000_000.0)
    case LockedRotor(alarm, high, low, factor) => (if alarm then high else low) as real / 60.0 * factor as real
  }

  /** What is published for a window of `delta` microseconds: edges per second if they did not wrap, or
      the speed that the alarm stands for. */
  predicate IsFrequency(f: real, mode: Mode, edges: int, delta: int) {
    match mode
    case Tacho => 0 <= edges < WRAP ==> f * delta as real == 1_000_000.0 * edges as real
    case LockedRotor(alarm, high, low, factor) => f * 60.0 == (if alarm then high * factor else low * factor) as real
  }

  lemma PerSecond(p: real, d: real)
    requires d > 0.0
    ensures (p / (d / 1_000_000.0)) * d == 1_000_000.0 * p
  {
    var s := d / 1_000_000.0;
    var f := p / s;
    assert f * s == p && s * 1_000_000.0 == d;
    assert f * (s * 1_000_000.0) == (f * s) * 1_000_000.0;
  }

  lemma PerMinute(n: nat, factor: nat)
    ensures (n as real / 60.0 * factor as real) * 60.0 == (n * factor) as real
  {
    var q := n as real / 60.0;
    assert q * 60.0 == n as real;
    assert (q * factor as real) * 60.0 == (q * 60.0) * factor as real;
    assert n as real * factor as real == (n * factor) as real;
  }

  lemma FrequencyMeans(mode: Mode, edges: int, delta: int)
    requires delta >= WINDOW
    ensures IsFrequency(Frequency(mode, edges % WRAP, delta), mode, edges, delta)
  {
    match mode
    case Tacho =>
      if 0 <= edges < WRAP {
        PerSecond(edges as real, delta as real);
      }
    case LockedRotor(alarm, high, low, factor) =>
      PerMinute(if alarm then high else low, factor);
  }

  lemma PulsesMean(mode: Mode, pulses: nat, delta: int)
    requires delta >= WINDOW && pulses < WRAP
    ensures IsFrequency(Frequency(mode, pulses, delta), mode, pulses, delta)
  {
    assert pulses % WRAP == pulses;
    FrequencyMeans(mode, pulses, delta);
  }

  /** Pulses that a window from `taken` to `at` edges adds to the published ones. */
  function Gain(mode: Mode, at: nat, taken: nat): nat {
    if mode.Tacho? then (at - taken) % WRAP else 0
  }

  ghost function Zeros(n: nat): (s: seq<nat>)
    ensures |s| == n && forall k :: 0 <= k < n ==> s[k] == 0
  {
    seq(n, _ => 0)
  }

  ghost function NoWindows(n: nat): (s: seq<seq<nat>>)
    ensures |s| == n && forall k :: 0 <= k < n ==> s[k] == [0]
  {
    seq(n, _ => [0])
  }

  // --------------------------------------------------------------------------------------------
  // The counters

  method ReverseMap(pins: seq<nat>) returns (table: array<nat>)
    requires Pinout(pins)
    ensures fresh(table) && Reverses(table[..], pins)
  {
    table := new nat[PINS](_ => 0);
    var i := 0;
    while i < |pins|
      invariant 0 <= i <= |pins|
      invariant forall k :: 0 <= k < i ==> table[pins[k]] == k + 1
      invariant forall p :: 0 <= p < PINS ==> table[p] <= i && (table[p] > 0 ==> pins[table[p] - 1] == p)
    {
      table[pins[i]] := 1 + i;
      i := i + 1;
    }
  }

  /** One call of the reader: its time, how the fans are read, and the interrupts before each step. */
  datatype ReadCall = ReadCall(now: int, modes: seq<Mode>, a: seq<seq<nat>>, b: seq<seq<nat>>, c: seq<seq<nat>>) {
    predicate Fits(n: nat) { |modes| == n == |a| == |b| == |c| }
  }

  /** Input `k` is read as a tachometer in the first `m` calls. */
  ghost predicate AlwaysTacho(calls: seq<ReadCall>, m: nat, k: nat)
    requires m <= |calls|
  {
    forall j :: 0 <= j < m ==> k < |calls[j].modes| && calls[j].modes[k].Tacho?
  }

  class TachoInputs {
    const n: nat
    const pins: seq<nat>
    const table: array<nat>
    const counters: array<nat>
    const last: array<nat>
    const freq: array<real>
    var lastRead: int

    /** Edges seen by each input, and how many there were when each of its windows ended. */
    ghost var seen: seq<nat>
    ghost var ends: seq<seq<nat>>

    /** Pulses that went into published frequencies, and those of windows read as a locked-rotor alarm. */
    ghost var published: seq<nat>
    ghost var passed: seq<nat>

    ghost predicate Valid()
      reads this, table, counters, last
    {
      && |pins| == n && counters.Length == n && last.Length == n && freq.Length == n && |seen| == n && |ends| == n
      && |published| == n && |passed| == n
      && counters != last && table != counters && table != last
      && Reverses(table[..], pins)
      && (forall k :: 0 <= k < n ==>
            && Sound(seen[k], ends[k]) && counters[k] == seen[k] % WRAP && last[k] == Last(ends[k]) % WRAP
            && published[k] + passed[k] == Reported(ends[k]))
    }

    /** `setup_tacho_inputs`. */
    constructor (pinout: seq<nat>, now: int)
      requires Pinout(pinout)
      ensures Valid() && pins == pinout && lastRead == now
      ensures forall k :: 0 <= k < n ==> seen[k] == 0 && ends[k] == [0] && published[k] == passed[k] == 0
      ensures fresh(table) && fresh(counters) && fresh(last) && fresh(freq)
    {
      var t := ReverseMap(pinout);
      n, pins, lastRead, table := |pinout|, pinout, now, t;
      counters := new nat[|pinout|](_ => 0);
      last := new nat[|pinout|](_ => 0);
      freq := new real[|pinout|](_ => 0.0);
      seen, ends, published, passed := Zeros(|pinout|), NoWindows(|pinout|), Zeros(|pinout|), Zeros(|pinout|);
    }

    /** `fan_tacho_read_callback`. */
    method ReadCallback(gpio: nat)
      requires Valid()
      modifies this`seen, counters
      ensures Valid()
      ensures forall k :: 0 <= k < n ==> seen[k] == old(seen[k]) + if gpio % PINS == pins[k] then 1 else 0
    {
      var fan := table[gpio % PINS];
      if fan > 0 {
        var f := fan - 1;
        CounterStep(seen[f]);
        counters[f] := (counters[f] + 1) % WRAP;
        seen := seen[f := seen[f] + 1];
      }
    }

    /** Interrupts that arrive between two steps of the reader. */
    method Interrupts(gpios: seq<nat>)
      requires Valid()
      modifies this`seen, counters
      ensures Valid()
      ensures forall k :: 0 <= k < n ==> seen[k] == old(seen[k]) + Edges(gpios, pins, k)
    {
      var i := 0;
      while i < |gpios|
        invariant 0 <= i <= |gpios| && Valid()
        invariant forall k :: 0 <= k < n ==> seen[k] == old(seen[k]) + Edges(gpios[..i], pins, k)
      {
        ReadCallback(gpios[i]);
        assert gpios[..i + 1][..i] == gpios[..i];
        i := i + 1;
      }
      assert gpios[..i] == gpios;
    }

    /** The first loop: the counters are copied while interrupts keep arriving, `arrivals[k]` just before
        counter `k` is read. */
    method ReadCounters(arrivals: seq<seq<nat>>) returns (snap: seq<nat>)
      requires Valid() && n <= |arrivals|
      modifies this`seen, counters
      ensures Valid() && |snap| == n
      ensures forall k :: 0 <= k < n ==> seen[k] == old(seen[k]) + Arrived(arrivals, n, pins, k)
      ensures forall k :: 0 <= k < n ==>
                snap[k] == (old(seen[k]) + Arrived(arrivals, k + 1, pins, k)) % WRAP
    {
      snap := [];
      var i := 0;
      while i < n
        invariant 0 <= i <= n && Valid() && |snap| == i
        invariant forall k :: 0 <= k < n ==> seen[k] == old(seen[k]) + Arrived(arrivals, i, pins, k)
        invariant forall k :: 0 <= k < i ==>
                    snap[k] == (old(seen[k]) + Arrived(arrivals, k + 1, pins, k)) % WRAP
      {
        Interrupts(arrivals[i]);
        snap := snap + [counters[i]];
        i := i + 1;
      }
    }

    /** The same, with the numbers of edges that the copies stand for. */
    method Snapshot(a: seq<seq<nat>>) returns (snap: seq<nat>, ghost at: seq<nat>)
      requires Valid() && |a| == n
      modifies this`seen, counters
      ensures Valid() && |snap| == n == |at|
      ensures forall k :: 0 <= k < n ==> seen[k] == old(seen[k]) + Arrived(a, n, pins, k)
      ensures forall k :: 0 <= k < n ==>
                at[k] == old(seen[k]) + Arrived(a, k + 1, pins, k) && Last(ends[k]) <= at[k] <= seen[k]
      ensures forall k :: 0 <= k < n ==>
                snap[k] == at[k] % WRAP && Pulses(at[k] % WRAP, last[k]) == (at[k] - Last(ends[k])) % WRAP
    {
      snap := ReadCounters(a);
      at := SeenAtReads(old(seen), a);
    }

    /** The second loop, interrupts still arriving. */
    method UpdateFrequencies(snap: seq<nat>, modes: seq<Mode>, delta: int, arrivals: seq<seq<nat>>)
      requires Valid() && |snap| == n == |modes| && n <= |arrivals| && delta >= WINDOW
      modifies this`seen, counters, freq
      ensures Valid()
      ensures forall k :: 0 <= k < n ==> seen[k] == old(seen[k]) + Arrived(arrivals, n, pins, k)
      ensures forall k :: 0 <= k < n ==> freq[k] == Frequency(modes[k], Pulses(snap[k], last[k]), delta)
      ensures forall k :: 0 <= k < n ==> IsFrequency(freq[k], modes[k], Pulses(snap[k], last[k]), delta)
    {
      var i := 0;
      while i < n
        invariant 0 <= i <= n && Valid()
        invariant forall k :: 0 <= k < n ==> seen[k] == old(seen[k]) + Arrived(arrivals, i, pins, k)
        invariant forall k :: 0 <= k < i ==> freq[k] == Frequency(modes[k], Pulses(snap[k], last[k]), delta)
      {
        Interrupts(arrivals[i]);
        freq[i] := Frequency(modes[i], Pulses(snap[i], last[i]), delta);
        i := i + 1;
      }
      forall k | 0 <= k < n ensures IsFrequency(freq[k], modes[k], Pulses(snap[k], last[k]), delta) {
        PulsesMean(modes[k], Pulses(snap[k], last[k]), delta);
      }
    }

    /** The third loop: the copies become the start of the next window; `at` is what they stand for. */
    method SaveCounters(snap: seq<nat>, arrivals: seq<seq<nat>>, ghost modes: seq<Mode>, ghost at: seq<nat>)
      requires Valid() && |snap| == n == |at| == |modes| && n <= |arrivals|
      requires forall k :: 0 <= k < n ==> snap[k] == at[k] % WRAP && Last(ends[k]) <= at[k] <= seen[k]
      modifies this`seen, this`ends, this`published, this`passed, counters, last
      ensures Valid()
      ensures forall k :: 0 <= k < n ==> ends[k] == old(ends[k]) + [at[k]]
      ensures forall k :: 0 <= k < n ==> seen[k] == old(seen[k]) + Arrived(arrivals, n, pins, k)
      ensures forall k :: 0 <= k < n ==> published[k] == old(published[k]) + Gain(modes[k], at[k], Last(old(ends[k])))
      ensures forall k :: 0 <= k < n && modes[k].Tacho? ==> passed[k] == old(passed[k])
    {
      var i := 0;
      while i < n
        invariant 0 <= i <= n && Valid()
        invariant forall k :: 0 <= k < i ==>
                    && ends[k] == old(ends[k]) + [at[k]]
                    && published[k] == old(published[k]) + Gain(modes[k], at[k], Last(old(ends[k])))
                    && (modes[k].Tacho? ==> passed[k] == old(passed[k]))
        invariant forall k :: i <= k < n ==>
                    ends[k] == old(ends[k]) && published[k] == old(published[k]) && passed[k] == old(passed[k])
        invariant forall k :: 0 <= k < n ==> seen[k] == old(seen[k]) + Arrived(arrivals, i, pins, k)
      {
        SaveNext(i, snap[i], arrivals[i], modes[i], at[i]);
        i := i + 1;
      }
    }

    /** One round of that loop. */
    method SaveNext(i: nat, value: nat, gpios: seq<nat>, ghost mode: Mode, ghost at: nat)
      requires Valid() && i < n && value == at % WRAP && Last(ends[i]) <= at <= seen[i]
      modifies this`seen, this`ends, this`published, this`passed, counters, last
      ensures Valid() && ends == old(ends)[i := old(ends)[i] + [at]]
      ensures published == old(published)[i := old(published)[i] + Gain(mode, at, Last(old(ends)[i]))]
      ensures mode.Tacho? ==> passed == old(passed)
      ensures forall k :: 0 <= k < n && k != i ==> passed[k] == old(passed[k])
      ensures forall k :: 0 <= k < n ==> seen[k] == old(seen[k]) + Edges(gpios, pins, k)
    {
      Interrupts(gpios);
      SaveCounter(i, value, mode, at);
    }

    /** One counter: its window is over, and its pulses are accounted for. */
    method SaveCounter(i: nat, value: nat, ghost mode: Mode, ghost at: nat)
      requires Valid() && i < n && value == at % WRAP && Last(ends[i]) <= at <= seen[i]
      modifies this`ends, this`published, this`passed, last
      ensures Valid() && ends == old(ends)[i := old(ends)[i] + [at]]
      ensures published == old(published)[i := old(published)[i] + Gain(mode, at, Last(old(ends)[i]))]
      ensures mode.Tacho? ==> passed == old(passed)
      ensures forall k :: 0 <= k < n && k != i ==> passed[k] == old(passed[k])
    {
      SoundExtended(seen[i], ends[i], at);
      ReportedExtended(ends[i], at);
      PulsesAreEdges(at, Last(ends[i]));
      ghost var pulses := Pulses(value, last[i]);
      last[i] := value;
      ends := ends[i := ends[i] + [at]];
      if mode.Tacho? {
        published := published[i := published[i] + pulses];
      } else {
        passed := passed[i := passed[i] + pulses];
      }
    }

    /** The second and third loops, for a window that is over. */
    method CloseWindow(snap: seq<nat>, modes: seq<Mode>, delta: int, b: seq<seq<nat>>, c: seq<seq<nat>>, ghost at: seq<nat>)
      requires Valid() && |snap| == |modes| == n == |at| == |b| == |c| && delta >= WINDOW
      requires forall k :: 0 <= k < n ==> snap[k] == at[k] % WRAP && Last(ends[k]) <= at[k] <= seen[k]
      requires forall k :: 0 <= k < n ==> Pulses(at[k] % WRAP, last[k]) == (at[k] - Last(ends[k])) % WRAP
      modifies this`seen, this`ends, this`published, this`passed, counters, last, freq
      ensures Valid()
      ensures forall k :: 0 <= k < n ==> seen[k] == old(seen[k]) + Arrived(b, n, pins, k) + Arrived(c, n, pins, k)
      ensures forall k :: 0 <= k < n ==> ends[k] == old(ends[k]) + [at[k]]
      ensures forall k :: 0 <= k < n ==>
                && freq[k] == Frequency(modes[k], (at[k] - Last(old(ends[k]))) % WRAP, delta)
                && IsFrequency(freq[k], modes[k], at[k] - Last(old(ends[k])), delta)
      ensures forall k :: 0 <= k < n ==> published[k] == old(published[k]) + Gain(modes[k], at[k], Last(old(ends[k])))
      ensures forall k :: 0 <= k < n && modes[k].Tacho? ==> passed[k] == old(passed[k])
    {
      forall k | 0 <= k < n { FrequencyMeans(modes[k], at[k] - Last(ends[k]), delta); }
      UpdateFrequencies(snap, modes, delta, b);
      SaveCounters(snap, c, modes, at);
    }

    /** `read_tacho_inputs`: `a`, `b` and `c` are the interrupts before each step of the three loops. When
        a window ends, each fan's frequency tells the edges, up to wrap-around, since its last counter
        that was saved; a window that is not over yet is not cut. */
    method ReadTachoInputs(now: int, modes: seq<Mode>, a: seq<seq<nat>>, b: seq<seq<nat>>, c: seq<seq<nat>>)
      requires Valid() && |modes| == n == |a| == |b| == |c|
      modifies this`seen, this`ends, this`published, this`passed, this`lastRead, counters, last, freq
      ensures Valid()
      ensures now - old(lastRead) < 1_000_000 ==>
                && lastRead == old(lastRead) && freq[..] == old(freq[..]) && last[..] == old(last[..]) && ends == old(ends)
                && published == old(published) && passed == old(passed)
                && forall k :: 0 <= k < n ==> seen[k] == old(seen[k]) + Arrived(a, n, pins, k)
      ensures now - old(lastRead) >= 1_000_000 ==> lastRead == now
      ensures now - old(lastRead) >= 1_000_000 ==> forall k :: 0 <= k < n ==>
                && seen[k] == old(seen[k]) + Arrived(a, n, pins, k) + Arrived(b, n, pins, k) + Arrived(c, n, pins, k)
                && ends[k] == old(ends[k]) + [old(seen[k]) + Arrived(a, k + 1, pins, k)]
                && freq[k] == Frequency(modes[k], (Last(ends[k]) - Last(old(ends[k]))) % WRAP, now - old(lastRead))
      ensures now - old(lastRead) >= 1_000_000 ==> forall k :: 0 <= k < n ==>
                IsFrequency(freq[k], modes[k], Last(ends[k]) - Last(old(ends[k])), now - old(lastRead))
      ensures now - old(lastRead) >= 1_000_000 ==> forall k :: 0 <= k < n ==>
                && published[k] == old(published[k]) + Gain(modes[k], Last(ends[k]), Last(old(ends[k])))
                && (modes[k].Tacho? ==> passed[k] == old(passed[k]))
    {
      var snap, at := Snapshot(a);
      var delta := now - lastRead;
      if delta < WINDOW {
        return;
      }
      CloseWindow(snap, modes, delta, b, c, at);
      lastRead := now;
    }

    /** Any number of calls, each with its own interrupts. Whatever arrives and whenever the calls come,
        the published pulses of an input, with those of windows in which it was read as an alarm, never
        exceed the edges up to its last saved counter, and are exactly these edges if and only if no
        window had 2^32 edges or more. An input that always had a tachometer has passed nothing over. */
    method Poll(calls: seq<ReadCall>)
      requires Valid() && forall j :: 0 <= j < |calls| ==> calls[j].Fits(n)
      modifies this`seen, this`ends, this`published, this`passed, this`lastRead, counters, last, freq
      ensures Valid()
      ensures forall k :: 0 <= k < n ==> published[k] + passed[k] <= Last(ends[k]) <= seen[k]
      ensures forall k :: 0 <= k < n ==> (published[k] + passed[k] == Last(ends[k]) <==> ShortWindows(ends[k]))
      ensures forall k :: 0 <= k < n && AlwaysTacho(calls, |calls|, k) ==>
                passed[k] == old(passed[k])
    {
      var i := 0;
      while i < |calls|
        invariant 0 <= i <= |calls| && Valid()
        invariant forall k :: 0 <= k < n && AlwaysTacho(calls, i, k) ==>
                    passed[k] == old(passed[k])
      {
        var c := calls[i];
        ReadTachoInputs(c.now, c.modes, c.a, c.b, c.c);
        i := i + 1;
      }
      forall k | 0 <= k < n
        ensures published[k] + passed[k] <= Last(ends[k]) && (published[k] + passed[k] == Last(ends[k]) <==> ShortWindows(ends[k]))
      {
        ReportsAddUp(ends[k]);
      }
    }

    /** What the copy of counter `k` stands for. */
    ghost method SeenAtRead(before: nat, a: seq<seq<nat>>, k: nat) returns (at: nat)
      requires Valid() && k < n == |a| && Last(ends[k]) <= before && seen[k] == before + Arrived(a, n, pins, k)
      ensures at == before + Arrived(a, k + 1, pins, k) && Last(ends[k]) <= at <= seen[k]
      ensures Pulses(at % WRAP, last[k]) == (at - Last(ends[k])) % WRAP
    {
      at := before + Arrived(a, k + 1, pins, k);
      ArrivedGrows(a, k + 1, n, pins, k);
      PulsesAreEdges(at, Last(ends[k]));
    }

    /** What the copied counters stand for. */
    ghost method SeenAtReads(before: seq<nat>, a: seq<seq<nat>>) returns (at: seq<nat>)
      requires Valid() && |before| == n == |a|
      requires forall k :: 0 <= k < n ==>
                 Last(ends[k]) <= before[k] && seen[k] == before[k] + Arrived(a, n, pins, k)
      ensures |at| == n
      ensures forall k :: 0 <= k < n ==>
                at[k] == before[k] + Arrived(a, k + 1, pins, k) && Last(ends[k]) <= at[k] <= seen[k]
      ensures forall k :: 0 <= k < n ==> Pulses(at[k] % WRAP, last[k]) == (at[k] - Last(ends[k])) % WRAP
    {
      at := [];
      for k := 0 to n
        invariant |at| == k
        invariant forall j :: 0 <= j < k ==>
                    && at[j] == before[j] + Arrived(a, j + 1, pins, j) && Last(ends[j]) <= at[j] <= seen[j]
                    && Pulses(at[j] % WRAP, last[j]) == (at[j] - Last(ends[j])) % WRAP
      {
        var x := SeenAtRead(before[k], a, k);
        at := at + [x];
      }
    }
  }
}
