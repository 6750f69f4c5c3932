/** The PIO square wave generator of src/square_wave_gen.pio, cycle by cycle, and the driver
    arithmetic of src/square_wave_gen.c. */
module SquareWave {

  const WORD: nat := 0x1_0000_0000

  /** Depth of the transmit FIFO of a state machine. */
  const FIFO_DEPTH: nat := 4

  /** A state machine: program counter, remaining delay cycles of the current instruction, scratch
      registers, output shift register, output pin and transmit FIFO. */
  datatype Machine = Machine(pc: nat, delay: nat, x: nat, y: nat, osr: nat, pin: bool, fifo: seq<nat>)

  ghost predicate Valid(m: Machine) {
    && m.pc < 8 && m.x < WORD && m.y < WORD && m.osr < WORD
    && (m.delay > 0 ==> m.pc == 6 && m.delay <= 2)
    && |m.fifo| <= FIFO_DEPTH
    && (forall k :: 0 <= k < |m.fifo| ==> m.fifo[k] < WORD)
  }

  /** What the driver offers in a cycle; an offer to a full FIFO waits outside. */
  datatype Offer = Nothing | Period(period: nat)

  predicate ValidOffer(o: Offer) { o.Period? ==> o.period < WORD }

  ghost predicate ValidOffers(os: seq<Offer>) {
    forall k :: 0 <= k < |os| ==> ValidOffer(os[k])
  }

  function Accept(fifo: seq<nat>, o: Offer): seq<nat> {
    if o.Period? && |fifo| < FIFO_DEPTH then fifo + [o.period] else fifo
  }

  function Decrement(v: nat): nat {
    if v == 0 then WORD - 1 else v - 1
  }

  /** The program; side-set and register effects happen in the first cycle of an instruction. */
  function Execute(m: Machine): Machine
    requires m.pc < 8
  {
    match m.pc
    case 0 => // start: pull noblock side 0
      if m.fifo == [] then m.(pc := 1, osr := m.x, pin := false)
      else m.(pc := 1, osr := m.fifo[0], fifo := m.fifo[1..], pin := false)
    case 1 => m.(pc := 2, x := m.osr)                               // mov x, osr
    case 2 => m.(pc := 3, y := m.x)                                 // mov y, x
    case 3 => m.(pc := if m.y == 0 then 0 else 4)                   // jmp !y start
    case 4 => m.(pc := if m.y != 0 then 4 else 5, y := Decrement(m.y)) // lo_loop: jmp y-- lo_loop
    case 5 => m.(pc := 6, y := m.x, pin := true)                    // mov y, x side 1
    case 6 => m.(delay := 2)                                        // nop [2]
    case _ => m.(pc := if m.y != 0 then 7 else 0, y := Decrement(m.y)) // hi_loop: jmp y-- hi_loop
  }

  /** One clock cycle; an accepted offer can be pulled from the next cycle on. */
  function Cycle(m: Machine, o: Offer): Machine
    requires m.pc < 8
  {
    var n :=
      if m.delay > 1 then m.(delay := m.delay - 1)
      else if m.delay == 1 then m.(delay := 0, pc := m.pc + 1)
      else Execute(m);
    n.(fifo := Accept(n.fifo, o))
  }

  lemma CycleValid(m: Machine, o: Offer)
    requires Valid(m) && ValidOffer(o)
    ensures Valid(Cycle(m, o))
  {
  }

  ghost function Run(m: Machine, os: seq<Offer>): (n: Machine)
    requires Valid(m) && ValidOffers(os)
    ensures Valid(n)
    decreases |os|
  {
    if os == [] then m else CycleValid(m, os[0]); Run(Cycle(m, os[0]), os[1..])
  }

  /** The pin after every cycle of a run. */
  ghost function Trace(m: Machine, os: seq<Offer>): (t: seq<bool>)
    requires Valid(m) && ValidOffers(os)
    ensures |t| == |os|
    decreases |os|
  {
    if os == [] then [] else
      CycleValid(m, os[0]);
      var n := Cycle(m, os[0]);
      [n.pin] + Trace(n, os[1..])
  }

  lemma {:induction false} RunSplits(m: Machine, os: seq<Offer>, k: nat)
    requires Valid(m) && ValidOffers(os) && k <= |os|
    ensures Run(m, os) == Run(Run(m, os[..k]), os[k..])
    ensures Trace(m, os) == Trace(m, os[..k]) + Trace(Run(m, os[..k]), os[k..])
    decreases k
  {
    if k > 0 {
      var n := Cycle(m, os[0]);
      SplitTail(os, k);
      FirstCycle(m, os);
      FirstCycle(m, os[..k]);
      RunSplits(n, os[1..], k - 1);
      Cons(n.pin, Trace(n, os[1..][..k - 1]), Trace(Run(n, os[1..][..k - 1]), os[k..]));
    } else {
      assert os[..0] == [] && os[0..] == os;
    }
  }

  lemma SplitTail(os: seq<Offer>, k: nat)
    requires 0 < k <= |os|
    ensures os[..k][1..] == os[1..][..k - 1] && os[1..][k - 1..] == os[k..] && os[..k][0] == os[0]
  {
  }

  lemma Cons(b: bool, s: seq<bool>, t: seq<bool>)
    ensures [b] + (s + t) == [b] + s + t
  {
  }

  /** Runs and traces start with one cycle. */
  lemma FirstCycle(m: Machine, os: seq<Offer>)
    requires Valid(m) && ValidOffers(os) && os != []
    ensures var n := Cycle(m, os[0]);
            && Valid(n) && Run(m, os) == Run(n, os[1..])
            && Trace(m, os) == [n.pin] + Trace(n, os[1..])
  {
    CycleValid(m, os[0]);
  }

  // --------------------------------------------------------------------------------------------
  // The intended signal

  function AcceptAll(fifo: seq<nat>, os: seq<Offer>): seq<nat>
    decreases |os|
  {
    if os == [] then fifo else AcceptAll(Accept(fifo, os[0]), os[1..])
  }

  /** Cycles of one wave with period `p`. */
  function WaveLength(p: nat): nat {
    if p == 0 then 4 else 2 * p + 10
  }

  /** The pin `k` cycles into a wave: low for p + 5 cycles, then high for p + 5; period 0 is low. */
  predicate WavePin(p: nat, k: int) {
    p > 0 && k >= p + 5
  }

  /** `n` cycles of a wave, from cycle `k` on. */
  function Pins(p: nat, k: nat, n: nat): (t: seq<bool>)
    ensures |t| == n && forall j :: 0 <= j < n ==> t[j] == WavePin(p, k + j)
    decreases n
  {
    if n == 0 then [] else [WavePin(p, k)] + Pins(p, k + 1, n - 1)
  }

  /** The signal as a train of waves. A wave takes the oldest waiting period, or repeats the last one
      when none waits; the FIFO accepts offers all the time. */
  ghost function Signal(current: nat, fifo: seq<nat>, os: seq<Offer>): (t: seq<bool>)
    ensures |t| == |os|
    decreases |os|
  {
    if os == [] then []
    else
      var p := if fifo == [] then current else fifo[0];
      var rest := if fifo == [] then [] else fifo[1..];
      var n := if |os| < WaveLength(p) then |os| else WaveLength(p);
      Pins(p, 0, n) + Signal(p, AcceptAll(rest, os[..n]), os[n..])
  }

  // --------------------------------------------------------------------------------------------
  // Proof

  /** The machine `k` cycles into a wave with period `p`, apart from its FIFO. */
  ghost predicate InWave(m: Machine, p: nat, k: nat) {
    && 0 < k && m.pin == WavePin(p, k - 1) && p < WORD
    && (if k == 1 then m.pc == 1 && m.delay == 0 && m.osr == p
        else m.x == p &&
             if k == 2 then m.pc == 2 && m.delay == 0
             else if k == 3 then m.pc == 3 && m.y == p && m.delay == 0
             else if p == 0 then m.pc == 0 && k == 4 && m.delay == 0
             else if k <= p + 4 then m.pc == 4 && m.y == p + 4 - k && m.delay == 0
             else if k == p + 5 then m.pc == 5 && m.delay == 0
             else if k == p + 6 then m.pc == 6 && m.y == p && m.delay == 0
             else if k <= p + 8 then m.pc == 6 && m.y == p && m.delay == p + 9 - k
             else if k <= 2 * p + 9 then m.pc == 7 && m.y == 2 * p + 9 - k && m.delay == 0
             else k == 2 * p + 10 && m.pc == 0 && m.delay == 0)
  }

  lemma WaveStarts(m: Machine, o: Offer)
    requires Valid(m) && ValidOffer(o) && m.pc == 0
    ensures var p := if m.fifo == [] then m.x else m.fifo[0];
            var n := Cycle(m, o);
            && InWave(n, p, 1)
            && n.fifo == Accept(if m.fifo == [] then [] else m.fifo[1..], o)
  {
  }

  lemma WaveContinues(m: Machine, o: Offer, p: nat, k: nat)
    requires Valid(m) && ValidOffer(o) && InWave(m, p, k) && k < WaveLength(p)
    ensures InWave(Cycle(m, o), p, k + 1) && Cycle(m, o).fifo == Accept(m.fifo, o)
  {
  }

  /** The rest of a wave, from cycle `k` on: where it ends, and what the pin shows. */
  lemma {:induction false} RestOfWave(m: Machine, os: seq<Offer>, p: nat, k: nat)
    requires Valid(m) && ValidOffers(os) && InWave(m, p, k) && k + |os| <= WaveLength(p)
    ensures InWave(Run(m, os), p, k + |os|) && Run(m, os).fifo == AcceptAll(m.fifo, os)
    decreases |os|
  {
    if os != [] {
      CycleValid(m, os[0]);
      WaveContinues(m, os[0], p, k);
      RestOfWave(Cycle(m, os[0]), os[1..], p, k + 1);
    }
  }

  lemma {:induction false} RestOfPins(m: Machine, os: seq<Offer>, p: nat, k: nat)
    requires Valid(m) && ValidOffers(os) && InWave(m, p, k) && k + |os| <= WaveLength(p)
    ensures Trace(m, os) == Pins(p, k, |os|)
    decreases |os|
  {
    if os != [] {
      CycleValid(m, os[0]);
      WaveContinues(m, os[0], p, k);
      RestOfPins(Cycle(m, os[0]), os[1..], p, k + 1);
    }
  }

  /** A wave, or the first part of one, from the start of the program. */
  lemma OneWave(m: Machine, os: seq<Offer>)
    requires Valid(m) && ValidOffers(os) && m.pc == 0 && os != []
    requires |os| <= WaveLength(if m.fifo == [] then m.x else m.fifo[0])
    ensures var p := if m.fifo == [] then m.x else m.fifo[0];
            var n := Run(m, os);
            && InWave(n, p, |os|)
            && n.fifo == AcceptAll(if m.fifo == [] then [] else m.fifo[1..], os)
            && Trace(m, os) == Pins(p, 0, |os|)
  {
    var p := if m.fifo == [] then m.x else m.fifo[0];
    var n := Cycle(m, os[0]);
    CycleValid(m, os[0]);
    WaveStarts(m, os[0]);
    RestOfWave(n, os[1..], p, 1);
    RestOfPins(n, os[1..], p, 1);
  }

  /** The program produces the train of waves, for every schedule of new periods: every pulse has one
      period throughout, and a new period only takes over at the start of a wave. */
  lemma {:induction false} ProgramMakesSignal(m: Machine, os: seq<Offer>)
    requires Valid(m) && ValidOffers(os) && m.pc == 0
    ensures Trace(m, os) == Signal(m.x, m.fifo, os)
    decreases |os|
  {
    if os != [] {
      var p := if m.fifo == [] then m.x else m.fifo[0];
      var n := if |os| < WaveLength(p) then |os| else WaveLength(p);
      OneWave(m, os[..n]);
      RunSplits(m, os, n);
      var r := Run(m, os[..n]);
      if n == WaveLength(p) {
        ProgramMakesSignal(r, os[n..]);
      }
    }
  }

  lemma QuietUnroll(p: nat, os: seq<Offer>)
    requires os != [] && forall j :: 0 <= j < |os| ==> os[j] == Nothing
    ensures var n := if |os| < WaveLength(p) then |os| else WaveLength(p);
            Signal(p, [], os) == Pins(p, 0, n) + Signal(p, [], os[n..])
  {
    QuietFifo(os[..if |os| < WaveLength(p) then |os| else WaveLength(p)]);
  }

  /** The machine itself: registers, pin and FIFO that change in every cycle. */
  class StateMachine {
    var pc: nat
    var delay: nat
    var x: nat
    var y: nat
    var osr: nat
    var pin: bool
    var fifo: seq<nat>

    ghost function Value(): Machine
      reads this
    {
      Machine(pc, delay, x, y, osr, pin, fifo)
    }

    constructor ()
      ensures Valid(Value()) && Value() == Machine(0, 0, 0, 0, 0, false, [])
    {
      pc, delay, x, y, osr, pin, fifo := 0, 0, 0, 0, 0, false, [];
    }

    /** The first cycle of an instruction. */
    method Instruction()
      requires Valid(Value()) && delay == 0
      modifies this
      ensures Value() == Execute(old(Value()))
    {
      if pc == 0 {
        pin := false;
        if fifo == [] { osr := x; } else { osr, fifo := fifo[0], fifo[1..]; }
        pc := 1;
      } else if pc == 1 {
        x, pc := osr, 2;
      } else if pc == 2 {
        y, pc := x, 3;
      } else if pc == 3 {
        pc := if y == 0 then 0 else 4;
      } else if pc == 4 {
        if y == 0 { pc := 5; }
        y := Decrement(y);
      } else if pc == 5 {
        y, pin, pc := x, true, 6;
      } else if pc == 6 {
        delay := 2;
      } else {
        if y == 0 { pc := 0; }
        y := Decrement(y);
      }
    }

    method Tick(o: Offer)
      requires Valid(Value()) && ValidOffer(o)
      modifies this
      ensures Valid(Value()) && Value() == Cycle(old(Value()), o)
    {
      CycleValid(Value(), o);
      if delay > 0 {
        delay := delay - 1;
        if delay == 0 { pc := pc + 1; }
      } else {
        Instruction();
      }
      if o.Period? && |fifo| < FIFO_DEPTH { fifo := fifo + [o.period]; }
    }

    /** The pin over any number of cycles from the start of the program. */
    method Generate(os: seq<Offer>) returns (trace: seq<bool>)
      requires Valid(Value()) && ValidOffers(os) && pc == 0
      modifies this
      ensures Valid(Value()) && Value() == Run(old(Value()), os)
      ensures trace == Signal(old(x), old(fifo), os)
    {
      ghost var start := Value();
      ProgramMakesSignal(start, os);
      trace := [];
      ProgressStarts(start, os);
      var i := 0;
      while i < |os|
        invariant 0 <= i <= |os| && Progress(start, os, Value(), i, trace)
      {
        ProgressNext(start, os, Value(), i, trace);
        Tick(os[i]);
        trace := trace + [pin];
        i := i + 1;
      }
      ProgressEnds(start, os, Value(), trace);
    }
  }

  /** After `i` cycles the machine has come to `now` and the pin has shown `trace`. */
  ghost predicate Progress(start: Machine, os: seq<Offer>, now: Machine, i: nat, trace: seq<bool>) {
    && i <= |os| && Valid(start) && Valid(now) && ValidOffers(os)
    && Run(now, os[i..]) == Run(start, os)
    && trace + Trace(now, os[i..]) == Trace(start, os)
  }

  lemma ProgressStarts(m: Machine, os: seq<Offer>)
    requires Valid(m) && ValidOffers(os)
    ensures Progress(m, os, m, 0, [])
  {
    assert os[0..] == os;
  }

  lemma ProgressNext(start: Machine, os: seq<Offer>, now: Machine, i: nat, trace: seq<bool>)
    requires Progress(start, os, now, i, trace) && i < |os|
    ensures Progress(start, os, Cycle(now, os[i]), i + 1, trace + [Cycle(now, os[i]).pin])
  {
    FirstCycle(now, os[i..]);
    assert os[i..][1..] == os[i + 1..];
    var n := Cycle(now, os[i]);
    Append(trace, n.pin, Trace(n, os[i + 1..]));
  }

  lemma Append(s: seq<bool>, b: bool, t: seq<bool>)
    ensures s + ([b] + t) == s + [b] + t
  {
  }

  lemma ProgressEnds(start: Machine, os: seq<Offer>, now: Machine, trace: seq<bool>)
    requires Progress(start, os, now, |os|, trace)
    ensures now == Run(start, os) && trace == Trace(start, os)
  {
    assert os[|os|..] == [];
  }

  /** Start of wave number `wave`. */
  function WaveStart(p: nat, wave: nat): nat {
    if wave == 0 then 0 else WaveLength(p) + WaveStart(p, wave - 1)
  }

  /** With nothing new written the pin repeats one wave for ever. */
  lemma {:induction false} SteadySignal(p: nat, os: seq<Offer>, wave: nat, k: nat)
    requires k < WaveLength(p) && WaveStart(p, wave) + k < |os|
    requires forall j :: 0 <= j < |os| ==> os[j] == Nothing
    ensures Signal(p, [], os)[WaveStart(p, wave) + k] == WavePin(p, k)
    decreases wave
  {
    QuietUnroll(p, os);
    if wave > 0 {
      var w := WaveLength(p);
      QuietTail(os, w);
      SteadySignal(p, os[w..], wave - 1, k);
      AtTail(Pins(p, 0, w), Signal(p, [], os[w..]), WaveStart(p, wave - 1) + k);
    }
  }

  lemma QuietTail(os: seq<Offer>, w: nat)
    requires w <= |os| && forall j :: 0 <= j < |os| ==> os[j] == Nothing
    ensures forall j :: 0 <= j < |os[w..]| ==> os[w..][j] == Nothing
  {
  }

  lemma AtTail(s: seq<bool>, t: seq<bool>, i: nat)
    requires i < |t|
    ensures (s + t)[|s| + i] == t[i]
  {
  }

  lemma {:induction false} QuietFifo(os: seq<Offer>)
    requires forall j :: 0 <= j < |os| ==> os[j] == Nothing
    ensures AcceptAll([], os) == []
    decreases |os|
  {
    if os != [] { QuietFifo(os[1..]); }
  }

  /** A period offered to an empty FIFO at any cycle of a wave leaves that wave as it was and rules
      the next one. */
  lemma NewPeriodNextWave(m: Machine, os: seq<Offer>, at: nat, p: nat)
    requires Valid(m) && ValidOffers(os) && m.pc == 0 && m.fifo == []
    requires at < WaveLength(m.x) && |os| == WaveLength(m.x) + WaveLength(p) && p < WORD
    requires forall j :: 0 <= j < |os| ==> os[j] == (if j == at then Period(p) else Nothing)
    ensures Trace(m, os) == Pins(m.x, 0, WaveLength(m.x)) + Pins(p, 0, WaveLength(p))
  {
    var w := WaveLength(m.x);
    ProgramMakesSignal(m, os);
    OneAccepted(os[..w], at, p);
    assert AcceptAll([], os[..w]) == [p];
    assert |os[w..]| == WaveLength(p);
    assert os[w..][..WaveLength(p)] == os[w..];
    assert os[w..][WaveLength(p)..] == [];
  }

  lemma {:induction false} OneAccepted(os: seq<Offer>, at: nat, p: nat)
    requires at < |os| && forall j :: 0 <= j < |os| ==> os[j] == (if j == at then Period(p) else Nothing)
    ensures AcceptAll([], os) == [p]
    decreases |os|
  {
    if at == 0 {
      assert Accept([], os[0]) == [p];
      FullerFifo([p], os[1..]);
    } else {
      OneAccepted(os[1..], at - 1, p);
    }
  }

  lemma {:induction false} FullerFifo(fifo: seq<nat>, os: seq<Offer>)
    requires forall j :: 0 <= j < |os| ==> os[j] == Nothing
    ensures AcceptAll(fifo, os) == fifo
    decreases |os|
  {
    if os != [] { FullerFifo(fifo, os[1..]); }
  }

  // --------------------------------------------------------------------------------------------
  // The driver

  /** Truncation of a positive quotient to an integer. */
  function HalfPeriod(sysClock: nat, freq: real): nat
    requires freq > 0.0
  {
    if sysClock as real / (freq * 2.0) >= 0.0 then (sysClock as real / (freq * 2.0)).Floor else 0
  }

  /** `square_wave_gen_set_freq`: the period handed to the FIFO. */
  method SetFreq(sysClock: nat, freq: real) returns (period: nat)
    requires freq > 0.0 ==> HalfPeriod(sysClock, freq) < WORD
    ensures freq <= 0.0 ==> period == 0
    ensures freq > 0.0 ==>
              var h := HalfPeriod(sysClock, freq);
              if h > 5 then period + 5 == h else period == h
    ensures period == DriverPeriod(sysClock, freq) < WORD
  {
    if freq > 0.0 {
      period := HalfPeriod(sysClock, freq);
      if period > 5 {
        period := period - 5;
      }
    } else {
      period := 0;
    }
  }

  function DriverPeriod(sysClock: nat, freq: real): nat {
    if freq <= 0.0 then 0
    else
      var h := HalfPeriod(sysClock, freq);
      if h > 5 then h - 5 else h
  }

  /** Half-cycles have the intended length exactly when it is above five cycles. */
  lemma HalfCycleExactIff(sysClock: nat, freq: real)
    requires freq > 0.0
    ensures WaveLength(DriverPeriod(sysClock, freq)) == 2 * HalfPeriod(sysClock, freq) <==> HalfPeriod(sysClock, freq) > 5
    ensures HalfPeriod(sysClock, freq) > 5 ==>
              forall k :: WavePin(DriverPeriod(sysClock, freq), k) <==> k >= HalfPeriod(sysClock, freq)
  {
  }

  /** The produced frequency is never below the requested one and at most one part in `h` above. */
  lemma FrequencyError(sysClock: nat, freq: real)
    requires freq > 0.0 && HalfPeriod(sysClock, freq) > 5
    ensures var h := HalfPeriod(sysClock, freq);
            var produced := sysClock as real / WaveLength(DriverPeriod(sysClock, freq)) as real;
            freq <= produced < freq * (1.0 + 1.0 / h as real)
  {
    var h := HalfPeriod(sysClock, freq);
    var q := sysClock as real / (freq * 2.0);
    assert q * (freq * 2.0) == sysClock as real;
    assert h as real <= q < h as real + 1.0;
    Quotients(sysClock as real, freq, h as real, q);
  }

  lemma MulLess(a: real, b: real, c: real)
    requires a < b && 0.0 < c
    ensures a * c < b * c
  {
  }

  lemma Quotients(clock: real, freq: real, h: real, q: real)
    requires freq > 0.0 && h > 0.0 && h <= q < h + 1.0 && q * (freq * 2.0) == clock
    ensures freq <= clock / (2.0 * h) < freq * (1.0 + 1.0 / h)
  {
    var s, i := q / h, 1.0 / h;
    assert s * h == q && i * h == 1.0;
    assert (1.0 + i) * h == h + 1.0;
    assert 1.0 <= s by { if s < 1.0 { MulLess(s, 1.0, h); } }
    assert s < 1.0 + i by { if 1.0 + i < s { MulLess(1.0 + i, s, h); } }
    assert clock / (2.0 * h) == s * freq by {
      assert (s * freq) * (2.0 * h) == (s * h) * (freq * 2.0);
    }
    MulLess(s, 1.0 + i, freq);
    if 1.0 < s { MulLess(1.0, s, freq); }
  }
}
