/** The polled, multiplexed tachometer reader of src/tacho.c.

    Spinning fans are kept in queue 0 and stalled ones in queue 1. Both queues live in one array
    that is scanned in place, and every call of `read_tacho_inputs` either schedules a fan or looks
    at the measurement in progress. Measurement results are arbitrary inputs here. */
module TachoScheduler {

  /** What one call finds outside: the interval reported by the pulse timer (0 for none), whether the
      600 ms limit has passed, whether the fan has a tachometer or a locked rotor alarm, and the
      frequency that stands for the alarm level. */
  datatype Reading = Reading(interval: nat, expired: bool, tacho: bool, alarmFreq: real)

  /** The static variables of the reader; `pos0` and `pos1` are the two scan positions. */
  datatype Sched = Sched(queue: seq<nat>, pos0: nat, pos1: nat, active: nat, measuring: bool,
                         fan: nat, freq: seq<real>)
  {
    function N(): nat { |queue| }

    function Pos(q: nat): nat { if q == 0 then pos0 else pos1 }

    ghost predicate Valid() {
      && 0 < |queue| == |freq|
      && (forall k :: 0 <= k < |queue| ==> queue[k] < 2)
      && pos0 <= |queue| && pos1 <= |queue|
      && active < 2
      && (active == 1 ==> pos0 == 0)
      && fan < |queue|
    }
  }

  /** First entry of queue `q` at or after `p`, or the length when there is none. */
  function FirstFrom(queue: seq<nat>, q: nat, p: nat): (k: nat)
    requires p <= |queue|
    ensures p <= k <= |queue|
    ensures k < |queue| ==> queue[k] == q
    ensures forall j :: p <= j < k ==> queue[j] != q
    decreases |queue| - p
  {
    if p == |queue| || queue[p] == q then p else FirstFrom(queue, q, p + 1)
  }

  function WithPos(s: Sched, q: nat, p: nat): Sched {
    if q == 0 then s.(pos0 := p) else s.(pos1 := p)
  }

  /** A call that finds no measurement in progress. */
  function Schedule(s: Sched): Sched
    requires s.Valid()
  {
    var k := FirstFrom(s.queue, s.active, s.Pos(s.active));
    if k == s.N() then
      WithPos(s, s.active, 0).(active := 1 - s.active)
    else
      WithPos(s, s.active, k + 1).(active := 0, measuring := true, fan := k)
  }

  /** A call that finds a measurement in progress. */
  function Measure(s: Sched, r: Reading): Sched
    requires s.Valid()
  {
    if r.tacho then
      if r.interval == 0 && !r.expired then s
      else if r.interval > 0 then
        s.(queue := s.queue[s.fan := 0], freq := s.freq[s.fan := 1000000.0 / r.interval as real], measuring := false)
      else
        s.(queue := s.queue[s.fan := 1], freq := s.freq[s.fan := 0.0], measuring := false)
    else
      s.(freq := s.freq[s.fan := r.alarmFreq], measuring := false)
  }

  function Call(s: Sched, r: Reading): Sched
    requires s.Valid()
  {
    if s.measuring then Measure(s, r) else Schedule(s)
  }

  /** A call picks a fan when it starts a measurement. */
  ghost predicate PicksFan(s: Sched)
    requires s.Valid()
  {
    !s.measuring && Schedule(s).measuring
  }

  lemma CallKeepsValid(s: Sched, r: Reading)
    requires s.Valid()
    ensures Call(s, r).Valid() && Call(s, r).N() == s.N()
  {
  }

  ghost function Run(s: Sched, rs: seq<Reading>): (t: Sched)
    requires s.Valid()
    ensures t.Valid() && t.N() == s.N()
    decreases |rs|
  {
    if rs == [] then s else CallKeepsValid(s, rs[0]); Run(Call(s, rs[0]), rs[1..])
  }

  /** The fans picked during a run, in order. */
  ghost function Picks(s: Sched, rs: seq<Reading>): seq<nat>
    requires s.Valid()
    decreases |rs|
  {
    if rs == [] then [] else
      CallKeepsValid(s, rs[0]);
      (if PicksFan(s) then [Schedule(s).fan] else []) + Picks(Call(s, rs[0]), rs[1..])
  }

  /** How many calls of a run found no measurement in progress. */
  ghost function Schedulings(s: Sched, rs: seq<Reading>): nat
    requires s.Valid()
    decreases |rs|
  {
    if rs == [] then 0 else
      CallKeepsValid(s, rs[0]);
      (if s.measuring then 0 else 1) + Schedulings(Call(s, rs[0]), rs[1..])
  }

  // --------------------------------------------------------------------------------------------
  // Starvation freedom

  /** Visits to queue 1 that can still pass over fan `f` while it waits there. */
  ghost function VisitsLeft(s: Sched, f: nat): nat
    requires s.Valid() && f < s.N()
  {
    if s.pos1 <= f then f - s.pos1 else s.N() - s.pos1 + 1 + f
  }

  /** Bound on the picks of other fans before `f`; `slot` is the price of one visit to queue 1,
      `stop` the price of finding the end of queue 0. */
  ghost function Wait(s: Sched, f: nat, slot: nat, stop: nat): nat
    requires s.Valid() && f < s.N()
  {
    var n := s.N();
    if s.measuring && s.fan == f then n * slot + n + stop
    else if s.queue[f] == 1 then VisitsLeft(s, f) * slot + (if s.active == 0 then n - s.pos0 + stop else 0)
    else if s.active == 1 then 1 + f
    else if s.pos0 <= f then f - s.pos0
    else n - s.pos0 + stop + 1 + f
  }

  lemma WaitBounded(s: Sched, f: nat, slot: nat, stop: nat)
    requires s.Valid() && f < s.N() && s.N() + stop < slot
    ensures Wait(s, f, slot, stop) <= s.N() * slot + s.N() + stop
  {
    var v := VisitsLeft(s, f);
    assert v <= s.N();
    assert v * slot <= s.N() * slot by { MulMonotone(v, s.N(), slot); }
    assert slot <= s.N() * slot by { MulMonotone(1, s.N(), slot); }
  }

  lemma MulMonotone(a: nat, b: nat, c: nat)
    requires a <= b
    ensures a * c <= b * c
  {
  }

  lemma WaitOverMeasure(s: Sched, r: Reading, f: nat, slot: nat, stop: nat)
    requires s.Valid() && f < s.N() && s.N() + stop < slot && s.measuring
    ensures Measure(s, r).Valid() && Measure(s, r).N() == s.N()
    ensures Wait(Measure(s, r), f, slot, stop) <= Wait(s, f, slot, stop)
  {
    var t := Measure(s, r);
    if s.fan == f {
      WaitBounded(t, f, slot, stop);
    } else {
      assert t.queue[f] == s.queue[f];
    }
  }

  lemma WaitOverQueue1(s: Sched, f: nat, slot: nat, stop: nat)
    requires s.Valid() && f < s.N() && slot == s.N() + stop + 1 && !s.measuring && s.active == 1
    requires !(PicksFan(s) && Schedule(s).fan == f)
    ensures Schedule(s).Valid() && Wait(Schedule(s), f, slot, stop) < Wait(s, f, slot, stop)
  {
    var t := Schedule(s);
    assert t.queue == s.queue && t.active == 0 && t.pos0 == 0;
    if s.queue[f] == 1 {
      var v, w := VisitsLeft(s, f), VisitsLeft(t, f);
      VisitPaysForRound(w, v, slot, s.N() + stop);
    }
  }

  lemma VisitPaysForRound(w: nat, v: nat, slot: nat, rest: nat)
    requires w < v && rest < slot
    ensures w * slot + rest < v * slot
  {
    MulMonotone(w + 1, v, slot);
    assert (w + 1) * slot == w * slot + slot;
  }

  lemma WaitOverQueue0(s: Sched, f: nat, slot: nat, stop: nat)
    requires s.Valid() && f < s.N() && slot == s.N() + stop + 1 && !s.measuring && s.active == 0
    requires !(PicksFan(s) && Schedule(s).fan == f)
    ensures var t := Schedule(s);
            t.Valid() && Wait(t, f, slot, stop) + (if PicksFan(s) then 1 else stop) <= Wait(s, f, slot, stop)
  {
    var t := Schedule(s);
    assert t.queue == s.queue && t.pos1 == s.pos1;
    assert VisitsLeft(t, f) == VisitsLeft(s, f);
  }

  /** Every pick of another fan uses up part of the wait, and with `stop` at 1 so does every call
      that reaches the end of a queue. */
  lemma WaitDecreases(s: Sched, r: Reading, f: nat, slot: nat, stop: nat)
    requires s.Valid() && f < s.N() && slot == s.N() + stop + 1 && stop <= 1
    requires !(PicksFan(s) && Schedule(s).fan == f)
    ensures Call(s, r).Valid() && Call(s, r).N() == s.N()
    ensures Wait(Call(s, r), f, slot, stop) <= Wait(s, f, slot, stop)
    ensures PicksFan(s) || (stop == 1 && !s.measuring) ==>
              Wait(Call(s, r), f, slot, stop) < Wait(s, f, slot, stop)
  {
    CallKeepsValid(s, r);
    if s.measuring {
      WaitOverMeasure(s, r, f, slot, stop);
    } else if s.active == 1 {
      WaitOverQueue1(s, f, slot, stop);
    } else {
      WaitOverQueue0(s, f, slot, stop);
    }
  }

  lemma {:induction false} PicksBoundedByWait(s: Sched, rs: seq<Reading>, f: nat)
    requires s.Valid() && f < s.N() && f !in Picks(s, rs)
    ensures |Picks(s, rs)| <= Wait(s, f, s.N() + 1, 0)
    decreases |rs|
  {
    if rs != [] {
      WaitDecreases(s, rs[0], f, s.N() + 1, 0);
      PicksBoundedByWait(Call(s, rs[0]), rs[1..], f);
    }
  }

  lemma {:induction false} SchedulingsBoundedByWait(s: Sched, rs: seq<Reading>, f: nat)
    requires s.Valid() && f < s.N() && f !in Picks(s, rs)
    ensures Schedulings(s, rs) <= Wait(s, f, s.N() + 2, 1)
    decreases |rs|
  {
    if rs != [] {
      WaitDecreases(s, rs[0], f, s.N() + 2, 1);
      SchedulingsBoundedByWait(Call(s, rs[0]), rs[1..], f);
    }
  }

  /** No fan starves: from any reachable state and for any measurement results, a run with (N+1)^2
      picks has picked every fan, and so has a run with (N+1)(N+2) scheduling calls. */
  lemma StarvationFreedom(s: Sched, rs: seq<Reading>, f: nat)
    requires s.Valid() && f < s.N()
    ensures |Picks(s, rs)| >= (s.N() + 1) * (s.N() + 1) ==> f in Picks(s, rs)
    ensures Schedulings(s, rs) >= (s.N() + 1) * (s.N() + 2) ==> f in Picks(s, rs)
  {
    if f !in Picks(s, rs) {
      var n := s.N();
      PicksBoundedByWait(s, rs, f);
      WaitBounded(s, f, n + 1, 0);
      SquareSplits(n, 1);
      SchedulingsBoundedByWait(s, rs, f);
      WaitBounded(s, f, n + 2, 1);
      SquareSplits(n, 2);
    }
  }

  lemma SquareSplits(n: nat, k: nat)
    ensures (n + 1) * (n + k) == n * (n + k) + n + k
  {
  }

  /** At most three scheduling calls in a row find nothing to pick. */
  lemma PickWithinFourCalls(s: Sched, rs: seq<Reading>)
    requires s.Valid() && !s.measuring && |rs| >= 4
    ensures Picks(s, rs[..4]) != []
  {
    if Picks(s, rs[..4]) == [] {
      var s1 := SkipFruitless(s, rs[..4]);
      var s2 := SkipFruitless(s1, rs[..4][1..]);
      var s3 := SkipFruitless(s2, rs[..4][1..][1..]);
      var s4 := SkipFruitless(s3, rs[..4][1..][1..][1..]);
    }
  }

  lemma SkipFruitless(s: Sched, rs: seq<Reading>) returns (t: Sched)
    requires s.Valid() && !s.measuring && rs != [] && Picks(s, rs) == []
    ensures t == Schedule(s) && t.Valid() && !PicksFan(s) && Picks(t, rs[1..]) == []
    ensures t.Pos(s.active) == 0 && t.Pos(1 - s.active) == s.Pos(1 - s.active)
    ensures t.queue == s.queue && t.active == 1 - s.active && !t.measuring
    ensures s.Pos(s.active) == 0 ==> forall k :: 0 <= k < s.N() ==> s.queue[k] == 1 - s.active
  {
    t := Schedule(s);
    CallKeepsValid(s, rs[0]);
    AllInOtherQueue(s);
  }

  /** Three fruitless calls in a row have searched one queue from its start. */
  lemma AllInOtherQueue(s: Sched)
    requires s.Valid() && !s.measuring && !PicksFan(s)
    ensures var t := Schedule(s);
            && t.Valid() && t.Pos(s.active) == 0 && t.Pos(1 - s.active) == s.Pos(1 - s.active)
            && t.queue == s.queue && t.active == 1 - s.active && !t.measuring
    ensures s.Pos(s.active) == 0 ==> forall k :: 0 <= k < s.N() ==> s.queue[k] == 1 - s.active
  {
    if s.Pos(s.active) == 0 {
      forall k | 0 <= k < s.N() ensures s.queue[k] == 1 - s.active {
        assert s.queue[k] != s.active;
      }
    }
  }

  /** Fan `g` waits in queue 0 ahead of the scan. */
  ghost predicate WaitsAhead(s: Sched, g: nat) {
    s.Valid() && g < s.N() && s.active == 0 && s.pos0 <= g && s.queue[g] == 0 && !(s.measuring && s.fan == g)
  }

  lemma CallKeepsWaiting(s: Sched, r: Reading, g: nat)
    requires WaitsAhead(s, g) && !(PicksFan(s) && Schedule(s).fan == g)
    ensures var t := Call(s, r);
            WaitsAhead(t, g) && t.pos1 == s.pos1 && s.pos0 <= t.pos0
    ensures PicksFan(s) ==> s.pos0 <= Schedule(s).fan < g
  {
    CallKeepsValid(s, r);
    if !s.measuring { assert FirstFrom(s.queue, 0, s.pos0) <= g; }
  }

  lemma PicksFirst(s: Sched, rs: seq<Reading>)
    requires s.Valid() && rs != []
    ensures Call(s, rs[0]).Valid()
    ensures Run(s, rs) == Run(Call(s, rs[0]), rs[1..])
    ensures Picks(s, rs) == (if PicksFan(s) then [Schedule(s).fan] else []) + Picks(Call(s, rs[0]), rs[1..])
  {
    CallKeepsValid(s, rs[0]);
  }

  /** Stalled fans yield to spinning ones: while fan `g` waits in queue 0 ahead of the scan, queue 1
      is never made active, so no stalled fan is picked before `g`. */
  lemma {:induction false} StalledFansWait(s: Sched, rs: seq<Reading>, g: nat)
    requires WaitsAhead(s, g) && g !in Picks(s, rs)
    ensures WaitsAhead(Run(s, rs), g) && Run(s, rs).pos1 == s.pos1
    ensures forall p :: p in Picks(s, rs) ==> s.pos0 <= p < g
    decreases |rs|
  {
    if rs != [] {
      PicksFirst(s, rs);
      assert PicksFan(s) ==> Schedule(s).fan in Picks(s, rs);
      CallKeepsWaiting(s, rs[0], g);
      StalledFansWait(Call(s, rs[0]), rs[1..], g);
    }
  }

  // --------------------------------------------------------------------------------------------
  // The reader itself

  class TachoReader {
    const queue: array<nat>
    const queuePos: array<nat>
    const freq: array<real>
    var state: nat
    var q: nat
    var i: nat

    ghost predicate Valid()
      reads this, queue, queuePos, freq
    {
      && queuePos.Length == 2 && queue != queuePos
      && queue.Length == freq.Length
      && state < 2
      && Value().Valid()
    }

    ghost function Value(): Sched
      reads this, queue, queuePos, freq
      requires queuePos.Length == 2
    {
      Sched(queue[..], queuePos[0], queuePos[1], q, state == 1, i, freq[..])
    }

    constructor (fans: nat)
      requires 0 < fans
      ensures Valid() && fresh(queue) && fresh(queuePos) && fresh(freq)
      ensures Value() == Sched(seq(fans, _ => 0), 0, 0, 0, false, 0, seq(fans, _ => 0.0))
    {
      queue := new nat[fans](_ => 0);
      queuePos := new nat[2](_ => 0);
      freq := new real[fans](_ => 0.0);
      state, q, i := 0, 0, 0;
    }

    /** Next fan of queue `w`, or -1 at the end of the queue, which rewinds it. */
    method NextInQueue(w: nat) returns (fan: int)
      requires Valid() && w < 2
      modifies queuePos
      ensures queuePos[1 - w] == old(queuePos[1 - w])
      ensures var k := FirstFrom(queue[..], w, old(queuePos[w]));
              if k == queue.Length then fan == -1 && queuePos[w] == 0 else fan == k && queuePos[w] == k + 1
    {
      if queuePos[w] >= queue.Length {
        queuePos[w] := 0;
        return -1;
      }
      while queue[queuePos[w]] != w
        invariant queuePos[w] < queue.Length
        invariant queuePos[1 - w] == old(queuePos[1 - w])
        invariant FirstFrom(queue[..], w, queuePos[w]) == FirstFrom(queue[..], w, old(queuePos[w]))
        decreases queue.Length - queuePos[w]
      {
        queuePos[w] := queuePos[w] + 1;
        if queuePos[w] >= queue.Length {
          queuePos[w] := 0;
          return -1;
        }
      }
      fan := queuePos[w];
      queuePos[w] := queuePos[w] + 1;
    }

    method ReadTachoInputs(r: Reading)
      requires Valid()
      modifies this, queue, queuePos, freq
      ensures Valid() && Value() == Call(old(Value()), r)
    {
      ghost var before := Value();
      CallKeepsValid(before, r);
      if state == 0 {
        var next := NextInQueue(q);
        if next < 0 {
          q := q + 1;
          if q >= 2 { q := 0; }
          assert Value() == Schedule(before);
          return;
        }
        i := next;
        if q == 1 { q := 0; }
        state := state + 1;
        assert Value() == Schedule(before);
      } else {
        FinishMeasurement(r);
      }
    }

    /** The second half of `read_tacho_inputs`, taken while a measurement is in progress. */
    method FinishMeasurement(r: Reading)
      requires Valid() && state == 1
      modifies this, queue, freq
      ensures Valid() && Value() == Measure(old(Value()), r)
      // The result decides the published frequency and the fan's queue, and no other fan's.
      ensures state == 0 <==> !r.tacho || r.interval > 0 || r.expired
      ensures state == 0 && r.tacho ==>
                && (queue[i] == 0 <==> r.interval > 0) && (freq[i] > 0.0 <==> r.interval > 0)
                && freq[i] * r.interval as real == (if r.interval > 0 then 1000000.0 else 0.0)
      ensures !r.tacho ==> queue[..] == old(queue[..]) && freq[i] == r.alarmFreq
      ensures i == old(i)
      ensures forall k :: 0 <= k < queue.Length && k != i ==> queue[k] == old(queue[k]) && freq[k] == old(freq[k])
    {
      ghost var before := Value();
      CallKeepsValid(before, r);
      var f: real;
      if r.tacho {
        if r.interval == 0 && !r.expired {
          return;
        }
        if r.interval > 0 {
          if queue[i] != 0 { queue[i] := 0; }
          f := 1.0 / (r.interval as real / 1000000.0);
          Reciprocal(r.interval as real);
        } else {
          if queue[i] != 1 { queue[i] := 1; }
          f := 0.0;
        }
      } else {
        f := r.alarmFreq;
      }
      freq[i] := f;
      state := 0;
      assert queue[..] == Measure(before, r).queue && freq[..] == Measure(before, r).freq;
    }
  }

  lemma Reciprocal(t: real)
    requires t > 0.0
    ensures 1.0 / (t / 1000000.0) == 1000000.0 / t
  {
    var u := t / 1000000.0;
    assert u * 1000000.0 == t;
    assert (1.0 / u) * t == 1000000.0 * ((1.0 / u) * u);
  }
}
