/** The interrupt-driven pulse timer of src/pulse_len.c, interleaved with the poller of src/tacho.c.

    The poller switches a multiplexer one select line at a time, restarts the timer and later asks for
    the interval. Edge interrupts may arrive between any two of its steps. */
module PulseTimer {

  /** The globals of src/pulse_len.c and the interrupt enable bit of the pin. */
  datatype Timer = Timer(pin: nat, enabled: bool, counter: nat, complete: bool, start: nat, end: nat)

  function OnInterrupt(t: Timer, gpio: nat, now: nat): Timer {
    if gpio != t.pin || t.counter > 1 then t
    else if t.counter == 0 then t.(start := now, counter := 1)
    else t.(end := now, complete := true, counter := 2)
  }

  function Interval(t: Timer): int {
    if t.complete then t.end - t.start else 0
  }

  /** The module's code, statement by statement. */
  class PulseLen {
    var pulsePin: nat
    var irqEnabled: bool
    var pulseCounter: nat
    var measureComplete: bool
    var pulseStart: nat
    var pulseEnd: nat

    ghost function Value(): Timer
      reads this
    {
      Timer(pulsePin, irqEnabled, pulseCounter, measureComplete, pulseStart, pulseEnd)
    }

    method MeasureCallback(gpio: nat, now: nat)
      modifies this
      ensures Value() == OnInterrupt(old(Value()), gpio, now)
    {
      if gpio != pulsePin || pulseCounter > 1 {
        return;
      }
      if pulseCounter == 0 {
        pulseStart := now;
        pulseCounter := pulseCounter + 1;
      } else if pulseCounter == 1 {
        pulseEnd := now;
        measureComplete := true;
        pulseCounter := pulseCounter + 1;
      }
    }

    method SetupInterrupt(gpio: nat)
      modifies this
      ensures Value() == old(Value()).(pin := gpio, counter := 2, complete := false, enabled := true)
    {
      pulsePin := gpio;
      pulseCounter := 2;
      measureComplete := false;
      irqEnabled := true;
    }

    method StartMeasure()
      modifies this
      ensures Value() == old(Value()).(enabled := true, counter := 0, complete := false)
    {
      irqEnabled := false;
      pulseCounter := 0;
      measureComplete := false;
      irqEnabled := true;
    }

    method PulseInterval() returns (delta: int)
      ensures delta == Interval(Value())
    {
      if !measureComplete {
        return 0;
      }
      delta := pulseEnd - pulseStart;
    }
  }

  // --------------------------------------------------------------------------------------------
  // All interleavings

  /** An edge on the measured pin: when it came and which multiplexer port it came through. */
  datatype Edge = Edge(time: nat, port: nat)

  /** Where the poller stands. `Select` writes select line `bit`; `Disable` to `Enable` are the four
      statements that restart the timer; the last three read the result. */
  datatype Pc = Idle | Select(bit: nat) | Settle | Disable | ZeroCounter | ClearComplete | Enable
              | Waiting | ReadEnd | ReadStart(end: nat) | Deliver(interval: int)

  /** An interval handed to the scheduler for a fan, and how many edges had come when the
      measurement was started. */
  datatype Report = Report(fan: nat, interval: int, began: nat)

  /** `ports` maps fans to multiplexer ports, `lines` are the three select lines, and `edges` holds
      every edge so far, whether or not an interrupt was taken for it. */
  datatype World = World(timer: Timer, lines: seq<bool>, ports: seq<nat>, pc: Pc, fan: nat, clock: nat,
                         edges: seq<Edge>, began: nat, reports: seq<Report>)

  datatype Action =
    | Time(passed: nat)                       // time passes
    | EdgeArrives                             // an edge on the measured pin
    | OtherInterrupt(gpio: nat)               // an interrupt for another pin
    | Poll(next: nat, tacho: bool, expired: bool)
      // one step of the poller; the arguments say which fan the scheduler picks, whether the fan has
      // a tachometer, and whether the time limit has passed

  function LineOf(port: nat, bit: nat): bool {
    if bit == 0 then port % 2 == 1 else if bit == 1 then port / 2 % 2 == 1 else port / 4 % 2 == 1
  }

  function Selected(lines: seq<bool>): nat
    requires |lines| == 3
  {
    (if lines[0] then 1 else 0) + (if lines[1] then 2 else 0) + (if lines[2] then 4 else 0)
  }

  predicate WellFormed(w: World) {
    && |w.lines| == 3
    && w.fan < |w.ports|
    && (forall k :: 0 <= k < |w.ports| ==> w.ports[k] < 8)
    && (w.pc.Select? ==> w.pc.bit < 3)
  }

  function PollStep(w: World, a: Action): World
    requires WellFormed(w) && a.Poll?
  {
    match w.pc
    case Idle => if a.next < |w.ports| then w.(fan := a.next, pc := Select(0)) else w
    case Select(bit) =>
      w.(lines := w.lines[bit := LineOf(w.ports[w.fan], bit)], pc := if bit < 2 then Select(bit + 1) else Settle)
    case Settle => w.(pc := Disable)
    case Disable => w.(timer := w.timer.(enabled := false), pc := ZeroCounter)
    case ZeroCounter => w.(timer := w.timer.(counter := 0), pc := ClearComplete)
    case ClearComplete => w.(timer := w.timer.(complete := false), pc := Enable)
    case Enable => w.(timer := w.timer.(enabled := true), pc := Waiting, began := |w.edges|)
    case Waiting =>
      if !a.tacho then w.(pc := Idle)
      else if w.timer.complete then w.(pc := ReadEnd)
      else w.(pc := Deliver(0))
    case ReadEnd => w.(pc := ReadStart(w.timer.end))
    case ReadStart(e) => w.(pc := Deliver(e - w.timer.start))
    case Deliver(d) =>
      if d == 0 && !a.expired then w.(pc := Waiting)
      else w.(pc := Idle, reports := w.reports + [Report(w.fan, d, w.began)])
  }

  function Step(w: World, a: Action): World
    requires WellFormed(w)
  {
    match a
    case Time(passed) => w.(clock := w.clock + passed)
    case EdgeArrives =>
      var e := Edge(w.clock, Selected(w.lines));
      w.(edges := w.edges + [e],
         timer := if w.timer.enabled then OnInterrupt(w.timer, w.timer.pin, w.clock) else w.timer)
    case OtherInterrupt(gpio) =>
      if gpio == w.timer.pin then w else w.(timer := OnInterrupt(w.timer, gpio, w.clock))
    case Poll(_, _, _) => PollStep(w, a)
  }

  lemma StepWellFormed(w: World, a: Action)
    requires WellFormed(w)
    ensures WellFormed(Step(w, a))
  {
  }

  ghost function Run(w: World, actions: seq<Action>): (r: World)
    requires WellFormed(w)
    ensures WellFormed(r)
    decreases |actions|
  {
    if actions == [] then w else StepWellFormed(w, actions[0]); Run(Step(w, actions[0]), actions[1..])
  }

  /** The state after `pulse_setup_interrupt`, before any measurement. */
  predicate Start(w: World) {
    && WellFormed(w)
    && w.timer.counter == 2 && !w.timer.complete && w.timer.enabled
    && w.pc == Idle && w.edges == [] && w.began == 0 && w.reports == []
  }

  /** The reported interval separates two edges that follow each other directly, both after the
      measurement was started and both through the port of the reported fan. */
  ghost predicate Genuine(ports: seq<nat>, edges: seq<Edge>, r: Report) {
    && r.fan < |ports|
    && r.began + 1 < |edges|
    && edges[r.began].port == edges[r.began + 1].port == ports[r.fan]
    && r.interval == edges[r.began + 1].time - edges[r.began].time
  }

  predicate Measuring(pc: Pc) {
    pc.Waiting? || pc.ReadEnd? || pc.ReadStart? || pc.Deliver?
  }

  predicate Tuned(w: World)
    requires WellFormed(w)
  {
    Selected(w.lines) == w.ports[w.fan]
  }

  /** What the timer knows about the edges since the measurement was started. */
  ghost predicate TimerTracks(w: World)
    requires WellFormed(w)
  {
    var n := |w.edges| - w.began;
    var t := w.timer;
    && 0 <= n && t.enabled
    && t.counter == (if n < 2 then n else 2)
    && (t.complete <==> n >= 2)
    && (n >= 1 ==> t.start == w.edges[w.began].time)
    && (n >= 2 ==> t.end == w.edges[w.began + 1].time)
    && (forall k :: w.began <= k < |w.edges| ==> w.edges[k].port == w.ports[w.fan])
  }

  ghost predicate Inv(w: World) {
    && WellFormed(w)
    && w.began <= |w.edges|
    && (w.pc.Select? ==> forall b :: 0 <= b < w.pc.bit ==> w.lines[b] == LineOf(w.ports[w.fan], b))
    && (!w.pc.Idle? && !w.pc.Select? ==> Tuned(w))
    && (w.pc.ZeroCounter? || w.pc.ClearComplete? || w.pc.Enable? ==> !w.timer.enabled)
    && (w.pc.ClearComplete? || w.pc.Enable? ==> w.timer.counter == 0)
    && (w.pc.Enable? ==> !w.timer.complete)
    && (Measuring(w.pc) ==> TimerTracks(w))
    && (w.pc.ReadEnd? || w.pc.ReadStart? ==> w.timer.complete)
    && (w.pc.ReadStart? ==> w.pc.end == w.timer.end)
    && (w.pc.Deliver? && w.pc.interval != 0 ==>
          Genuine(w.ports, w.edges, Report(w.fan, w.pc.interval, w.began)))
    && (forall r :: r in w.reports && r.interval != 0 ==> Genuine(w.ports, w.edges, r))
  }

  /** Writing the three lines one after the other selects the port. */
  lemma LinesSelectPort(lines: seq<bool>, port: nat)
    requires |lines| == 3 && port < 8 && forall b :: 0 <= b < 3 ==> lines[b] == LineOf(port, b)
    ensures Selected(lines) == port
  {
    assert lines[0] == LineOf(port, 0) && lines[1] == LineOf(port, 1) && lines[2] == LineOf(port, 2);
  }

  lemma SelectingKeepsInv(w: World, a: Action)
    requires Inv(w) && a.Poll? && (w.pc.Idle? || w.pc.Select? || w.pc.Settle?)
    ensures Inv(PollStep(w, a))
  {
    if w.pc.Select? && w.pc.bit == 2 {
      LinesSelectPort(PollStep(w, a).lines, w.ports[w.fan]);
    }
  }

  lemma RestartingKeepsInv(w: World, a: Action)
    requires Inv(w) && a.Poll? && (w.pc.Disable? || w.pc.ZeroCounter? || w.pc.ClearComplete? || w.pc.Enable?)
    ensures Inv(PollStep(w, a))
  {
  }

  lemma MeasuringKeepsInv(w: World, a: Action)
    requires Inv(w) && a.Poll? && Measuring(w.pc)
    ensures Inv(PollStep(w, a))
  {
  }

  lemma PollKeepsInv(w: World, a: Action)
    requires Inv(w) && a.Poll?
    ensures Inv(PollStep(w, a))
  {
    match w.pc
    case Idle => SelectingKeepsInv(w, a);
    case Select(_) => SelectingKeepsInv(w, a);
    case Settle => SelectingKeepsInv(w, a);
    case Disable => RestartingKeepsInv(w, a);
    case ZeroCounter => RestartingKeepsInv(w, a);
    case ClearComplete => RestartingKeepsInv(w, a);
    case Enable => RestartingKeepsInv(w, a);
    case _ => MeasuringKeepsInv(w, a);
  }

  lemma EdgeKeepsInv(w: World)
    requires Inv(w)
    ensures Inv(Step(w, EdgeArrives))
  {
    var v := Step(w, EdgeArrives);
    assert forall k :: 0 <= k < |w.edges| ==> v.edges[k] == w.edges[k];
    assert v.edges[|w.edges|] == Edge(w.clock, Selected(w.lines));
  }

  lemma StepKeepsInv(w: World, a: Action)
    requires Inv(w)
    ensures Inv(Step(w, a))
    ensures Step(w, a).ports == w.ports
  {
    match a
    case Time(_) =>
    case EdgeArrives => EdgeKeepsInv(w);
    case OtherInterrupt(_) =>
    case Poll(_, _, _) => PollKeepsInv(w, a);
  }

  lemma {:induction false} RunKeepsInv(w: World, actions: seq<Action>)
    requires Inv(w)
    ensures Inv(Run(w, actions))
    decreases |actions|
  {
    if actions != [] {
      StepKeepsInv(w, actions[0]);
      RunKeepsInv(Step(w, actions[0]), actions[1..]);
    }
  }

  /** No mixed measurement: in every interleaving, every non-zero interval reported for a fan is
      the distance of two consecutive edges of that fan, both seen after its measurement began. */
  lemma NoMixedMeasurement(w: World, actions: seq<Action>, r: Report)
    requires Start(w) && r in Run(w, actions).reports && r.interval != 0
    ensures var v := Run(w, actions); Genuine(v.ports, v.edges, r)
  {
    RunKeepsInv(w, actions);
  }

  // --------------------------------------------------------------------------------------------
  // Seen edges are reported

  /** Poller steps until the report, once the two edges are in. */
  function StepsToReport(pc: Pc): nat {
    match pc
    case Waiting => 4
    case ReadEnd => 3
    case ReadStart(_) => 2
    case _ => 1
  }

  ghost function Gap(w: World): int
    requires w.began + 1 < |w.edges|
  {
    w.edges[w.began + 1].time - w.edges[w.began].time
  }

  ghost predicate TwoEdgesSeen(w: World) {
    && Inv(w) && Measuring(w.pc)
    && w.began + 1 < |w.edges| && Gap(w) != 0
    && (w.pc.Deliver? ==> w.pc.interval == Gap(w))
  }

  function Polls(actions: seq<Action>): nat {
    if actions == [] then 0 else (if actions[0].Poll? then 1 else 0) + Polls(actions[1..])
  }

  lemma {:induction false} ReportsStay(w: World, actions: seq<Action>, r: Report)
    requires WellFormed(w) && r in w.reports
    ensures r in Run(w, actions).reports
    decreases |actions|
  {
    if actions != [] {
      StepWellFormed(w, actions[0]);
      ReportsStay(Step(w, actions[0]), actions[1..], r);
    }
  }

  /** A measurement that has seen two edges is reported after four more steps of the poller, however
      many interrupts come in between. */
  lemma {:induction false} SeenEdgesAreReported(w: World, actions: seq<Action>)
    requires TwoEdgesSeen(w) && Polls(actions) >= StepsToReport(w.pc)
    requires forall a :: a in actions && a.Poll? ==> a.tacho
    ensures Report(w.fan, Gap(w), w.began) in Run(w, actions).reports
    decreases |actions|
  {
    var v := Step(w, actions[0]);
    StepKeepsInv(w, actions[0]);
    if actions[0].Poll? && w.pc.Deliver? {
      ReportsStay(v, actions[1..], Report(w.fan, Gap(w), w.began));
    } else {
      assert actions[0] in actions;
      SeenEdgesAreReported(v, actions[1..]);
    }
  }

  // --------------------------------------------------------------------------------------------
  // Which fan is measured, and that every measurement ends

  function Fans(reports: seq<Report>): (fans: seq<nat>)
    ensures |fans| == |reports|
  {
    if reports == [] then [] else Fans(reports[..|reports| - 1]) + [reports[|reports| - 1].fan]
  }

  lemma FansAppend(reports: seq<Report>, r: Report)
    ensures Fans(reports + [r]) == Fans(reports) + [r.fan]
  {
    assert (reports + [r])[..|reports|] == reports;
  }

  /** The fan that a poll asks for when it leaves Idle. */
  predicate Picks(w: World, a: Action) { w.pc.Idle? && a.Poll? && a.next < |w.ports| }

  /** The poll that ends a measurement, other than one that finds the fan without tachometer. */
  predicate Finishes(w: World, a: Action)
    requires WellFormed(w)
  {
    a.Poll? && !w.pc.Idle? && PollStep(w, a).pc.Idle? && !(w.pc.Waiting? && !a.tacho)
  }

  /** The fans asked for by polls that left Idle, in order, leaving out measurements that were dropped
      for lack of a tachometer or are not over; `asked` is the one asked for last. */
  ghost function FansAsked(w: World, actions: seq<Action>, asked: nat): seq<nat>
    requires WellFormed(w)
    decreases |actions|
  {
    if actions == [] then []
    else
      StepWellFormed(w, actions[0]);
      (if Finishes(w, actions[0]) then [asked] else []) +
      FansAsked(Step(w, actions[0]), actions[1..], if Picks(w, actions[0]) then actions[0].next else asked)
  }

  /** One action adds a report for the fan asked for when it ends a measurement, and else none. */
  lemma ActionReports(w: World, a: Action, asked: nat)
    requires WellFormed(w) && (!w.pc.Idle? ==> w.fan == asked)
    ensures var v := Step(w, a);
            && WellFormed(v) && (!v.pc.Idle? ==> v.fan == if Picks(w, a) then a.next else asked)
            && Fans(v.reports) == Fans(w.reports) + if Finishes(w, a) then [asked] else []
  {
    StepWellFormed(w, a);
    if Finishes(w, a) { FansAppend(w.reports, Report(w.fan, w.pc.interval, w.began)); }
  }

  lemma JoinFans(a: seq<nat>, b: seq<nat>, c: seq<nat>)
    ensures (a + b) + c == a + (b + c)
  {
  }

  lemma {:induction false} ReportsFollow(w: World, actions: seq<Action>, asked: nat)
    requires WellFormed(w) && (!w.pc.Idle? ==> w.fan == asked)
    ensures Fans(Run(w, actions).reports) == Fans(w.reports) + FansAsked(w, actions, asked)
    decreases |actions|
  {
    if actions != [] {
      var a := actions[0];
      ActionReports(w, a, asked);
      ReportsFollow(Step(w, a), actions[1..], if Picks(w, a) then a.next else asked);
      JoinFans(Fans(w.reports), if Finishes(w, a) then [asked] else [],
               FansAsked(Step(w, a), actions[1..], if Picks(w, a) then a.next else asked));
    }
  }

  /** Over every run, the fans of the reports are the fans that the scheduler asked for, in order. */
  lemma ReportsAreForFansAsked(w: World, actions: seq<Action>)
    requires Start(w)
    ensures Fans(Run(w, actions).reports) == FansAsked(w, actions, 0)
  {
    ReportsFollow(w, actions, 0);
  }

  /** The most polls until a measurement is over, once its time limit has passed. */
  function PollsLeft(pc: Pc): nat {
    match pc
    case Idle => 0
    case Select(bit) => if bit < 3 then 12 - bit else 9
    case Settle => 9
    case Disable => 8
    case ZeroCounter => 7
    case ClearComplete => 6
    case Enable => 5
    case Waiting => 4
    case ReadEnd => 3
    case ReadStart(_) => 2
    case Deliver(_) => 1
  }

  lemma PollsLeftFall(w: World, a: Action)
    requires WellFormed(w) && !w.pc.Idle? && (a.Poll? ==> a.expired)
    ensures PollsLeft(Step(w, a).pc) <= PollsLeft(w.pc) - if a.Poll? then 1 else 0
  {
  }

  /** Every measurement ends: with the time limit passed, the poller is Idle within twelve polls, whatever
      edges and interrupts come. */
  lemma {:induction false} MeasurementEnds(w: World, actions: seq<Action>) returns (n: nat)
    requires WellFormed(w) && Polls(actions) >= PollsLeft(w.pc)
    requires forall a :: a in actions && a.Poll? ==> a.expired
    ensures n <= |actions| && Polls(actions[..n]) <= PollsLeft(w.pc) && Run(w, actions[..n]).pc.Idle?
    decreases |actions|
  {
    n := 0;
    if !w.pc.Idle? {
      assert actions[0] in actions;
      StepWellFormed(w, actions[0]);
      PollsLeftFall(w, actions[0]);
      n := MeasurementEnds(Step(w, actions[0]), actions[1..]);
      n := n + 1;
      PrefixStep(w, actions, n);
    }
  }

  /** One report more than before, for that fan. */
  predicate OneMore(before: seq<Report>, now: seq<Report>, fan: nat) {
    |now| == |before| + 1 && now[..|before|] == before && now[|before|].fan == fan
  }

  /** One step of a fan with tachometer towards its report. */
  lemma TowardsReport(w: World, a: Action)
    requires WellFormed(w) && !w.pc.Idle? && (a.Poll? ==> a.tacho && a.expired)
    ensures var v := Step(w, a);
            && v.fan == w.fan
            && if v.pc.Idle? then OneMore(w.reports, v.reports, w.fan) else v.reports == w.reports
  {
  }

  /** With a tachometer and the time limit passed, a measurement under way is reported for its fan. */
  lemma {:induction false} MeasurementReports(w: World, actions: seq<Action>) returns (n: nat)
    requires WellFormed(w) && !w.pc.Idle? && Polls(actions) >= PollsLeft(w.pc)
    requires forall a :: a in actions && a.Poll? ==> a.tacho && a.expired
    ensures n <= |actions| && Polls(actions[..n]) <= PollsLeft(w.pc) && Run(w, actions[..n]).pc.Idle?
    ensures OneMore(w.reports, Run(w, actions[..n]).reports, w.fan)
    decreases |actions|
  {
    assert actions[0] in actions;
    StepWellFormed(w, actions[0]);
    PollsLeftFall(w, actions[0]);
    TowardsReport(w, actions[0]);
    if Step(w, actions[0]).pc.Idle? {
      n := 1;
      assert actions[1..][..0] == [];
    } else {
      n := MeasurementReports(Step(w, actions[0]), actions[1..]);
      n := n + 1;
    }
    PrefixStep(w, actions, n);
  }

  /** A poll that asks for a fan starts its measurement, and within twelve polls more it is reported. */
  lemma AskedFanIsReported(w: World, ask: Action, actions: seq<Action>) returns (n: nat)
    requires WellFormed(w) && Picks(w, ask) && Polls(actions) >= 12
    requires forall a :: a in actions && a.Poll? ==> a.tacho && a.expired
    ensures n <= |actions| && Polls(actions[..n]) <= 12 && WellFormed(Step(w, ask))
    ensures Run(Step(w, ask), actions[..n]).pc.Idle?
    ensures OneMore(w.reports, Run(Step(w, ask), actions[..n]).reports, ask.next)
  {
    StepWellFormed(w, ask);
    n := MeasurementReports(Step(w, ask), actions);
  }

  lemma PrefixStep(w: World, actions: seq<Action>, n: nat)
    requires WellFormed(w) && 0 < n <= |actions|
    ensures WellFormed(Step(w, actions[0]))
    ensures Run(w, actions[..n]) == Run(Step(w, actions[0]), actions[1..][..n - 1])
    ensures Polls(actions[..n]) == Polls(actions[1..][..n - 1]) + if actions[0].Poll? then 1 else 0
  {
    StepWellFormed(w, actions[0]);
    assert actions[..n][1..] == actions[1..][..n - 1];
  }

  function Arrivals(actions: seq<Action>): nat {
    if actions == [] then 0 else (if actions[0].EdgeArrives? then 1 else 0) + Arrivals(actions[1..])
  }

  /** A measurement that sees fewer than two edges. */
  ghost predicate Quiet(w: World, actions: seq<Action>) {
    Inv(w) && Measuring(w.pc) && |w.edges| - w.began + Arrivals(actions) < 2
  }

  /** A fan that gives fewer than two edges until the time limit is reported with interval 0, within two
      polls, and the poller is Idle again. */
  lemma {:induction false} QuietFanReportsZero(w: World, actions: seq<Action>) returns (n: nat)
    requires Quiet(w, actions) && Polls(actions) >= 2
    requires forall a :: a in actions && a.Poll? ==> a.tacho && a.expired
    ensures n <= |actions| && Polls(actions[..n]) <= 2 && Run(w, actions[..n]).pc.Idle?
    ensures Run(w, actions[..n]).reports == w.reports + [Report(w.fan, 0, w.began)]
    decreases |actions|
  {
    n := QuietFan(w, actions);
  }

  /** The same from a state in which the result may be about to be delivered. */
  lemma {:induction false} QuietFan(w: World, actions: seq<Action>) returns (n: nat)
    requires Quiet(w, actions) && Polls(actions) >= QuietPolls(w.pc)
    requires forall a :: a in actions && a.Poll? ==> a.tacho && a.expired
    ensures n <= |actions| && Polls(actions[..n]) <= QuietPolls(w.pc) && Run(w, actions[..n]).pc.Idle?
    ensures Run(w, actions[..n]).reports == w.reports + [Report(w.fan, 0, w.began)]
    decreases |actions|
  {
    var a := actions[0];
    assert a in actions;
    StepKeepsInv(w, a);
    if a.Poll? && w.pc.Deliver? {
      n := 1;
      PrefixStep(w, actions, 1);
      assert actions[1..][..0] == [];
    } else {
      QuietStep(w, a, actions[1..]);
      n := QuietFan(Step(w, a), actions[1..]);
      n := n + 1;
      PrefixStep(w, actions, n);
    }
  }

  function QuietPolls(pc: Pc): nat { if pc.Deliver? then 1 else 2 }

  lemma QuietStep(w: World, a: Action, rest: seq<Action>)
    requires Inv(w) && Measuring(w.pc) && |w.edges| - w.began + (if a.EdgeArrives? then 1 else 0) + Arrivals(rest) < 2
    requires (a.Poll? ==> a.tacho && a.expired) && !(a.Poll? && w.pc.Deliver?)
    ensures var v := Step(w, a);
            && Quiet(v, rest) && v.fan == w.fan && v.began == w.began && v.reports == w.reports
            && QuietPolls(v.pc) == QuietPolls(w.pc) - if a.Poll? then 1 else 0
  {
    StepKeepsInv(w, a);
  }
}
