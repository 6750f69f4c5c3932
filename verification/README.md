# Verified model of FanPico's control core

FanPico drives up to eight fans from a two-core microcontroller: it measures fan speeds and
temperatures, computes a duty cycle for every fan and a tachometer signal for the motherboard, and
shares configuration and state between its two cores. This project models the parts of the firmware
where scheduling, stateful filtering, in-place updates or exact encodings make the behaviour hard to
see from the code, and proves what they are for.

Code that changes state is modelled by classes and methods with the same fields, loops and branches.
Each such method is proved equal to a step function on values or to a property stated outright, and the
theorems over whole runs are about those step functions. The tachometer scheduler, the pulse timer, the
PIO machine and the two-core copies are state machines whose environment (measurements, interrupts,
new periods, the other core) is arbitrary. Times are whole microseconds, and C floating point numbers
are real numbers.

| file | subject |
|---|---|
| `TachoScheduler.dfy` | two queues in one scan array: starvation freedom of the multiplexed reader |
| `PulseTimer.dfy` | edge interrupts interleaved with the poller: no mixed measurement |
| `TachoCounter.dfy` | one pin per fan: conservation of pulses across 32-bit wrap |
| `Curves.dfy`, `Means.dfy`, `Options.dfy` | piecewise-linear maps; sums and means; values that may be missing |
| `Sweeps.dfy` | in-place sweeps over cells that refer to each other: convergence and order |
| `FanControl.dfy` | fan duties: bounds, monotonicity, convergence, hysteresis and hardware level |
| `VirtualSensors.dfy` | virtual sensors: aggregation, written values, convergence |
| `ControlPipeline.dfy` | from temperatures to duties and hardware levels over whole runs |
| `MotherboardTacho.dfy` | tachometer and alarm signals from fan speeds to the pin, over whole runs |
| `LossyPeak.dfy`, `MovingAverage.dfy` | the two filters |
| `SquareWave.dfy` | the PIO program, cycle by cycle, and its driver |
| `Snapshots.dfy` | copies between the cores, word by word |
| `Crc32.dfy`, `PersistentMemory.dfy` | checksum, and the memory block that it guards |
| `Bitmasks.dfy`, `PowInt.dfy`, `Dhcp.dfy` | text form of bit masks, integer powers, option rewriting |

## What turned out differently from what one might expect

- Hysteresis: over several rounds a higher signal can leave a fan at a *lower* remembered duty than a lower
  signal would. For limits `lo` and `hi` this never happens exactly when the hysteresis is not positive, is at
  least `hi`, or is at most `lo` and wider than `hi - lo` (`FanControl.RunsKeepOrderIff`). In these cases the
  hardware levels keep their order too; in all others they do not, provided that `hi` is a step of the
  counter, as every percentage is on a counter of 2500 steps (`FanControl.RunsKeepLevelsIff`). The default
  hysteresis of 1 with limits 0 and 100 fails (`FanControl.DefaultHysteresisInverts`). An inversion always
  stays below the widest hysteresis of the run (`FanControl.RunInversionBounded`).
- The motherboard's tachometer signal only follows changes of at least 1 Hz. While its limits stay the same
  it is inside them if and only if the lower limit is 0 or at least 1 Hz has been computed once
  (`MotherboardTacho.LimitsKeptIff`), so it always is exactly when the lower limit is 0 or stands for at least
  1 Hz (`MotherboardTacho.LimitsAlwaysKeptIff`); `MotherboardTacho.FixedRunBelowLimit` is a run that fails.
  Limits that change can be missed by less than 1 Hz (`MotherboardTacho.PinWithinLimits`).
- A virtual sensor whose value was too old keeps the default when the timeout is raised afterwards; the value
  comes back only with the next write (`VirtualSensors.WrittenClosedForm`,
  `VirtualSensors.RaisedTimeoutKeepsDefault`).
- References: only a reference to the same or a later fan (or sensor) costs a round, so `d + 1` rounds
  suffice with `d` counting just those; a cycle need not settle at one value
  (`FanControl.SelfReferenceKeepsBoth`, `VirtualSensors.CycleKeepsBoth`).
- The lossy peak filter starts with a peak of 0 that is taken at boot when there is a delay and at
  creation when there is none; the closed form holds from that first episode on. With both a decay and a
  delay, higher inputs can give a lower output, because an early peak starts to fall sooner; without either
  they never do (`LossyPeak.KeepsOrderIff`).
- Several periods written to the square wave generator within one wave are not merged: each lasts one
  wave, up to the four that the FIFO holds.
- The guard of `pow_i64` does not catch every overflow. With M the largest power of two for which x^M is an
  int64, the calculation overflows exactly if x^(y mod 2M) is no int64, or if x is negative, its square is no
  int64 and y is at least 2; every other power that is no int64 ends in the guard's 0
  (`PowInt.OverflowIff`). `round_decimal` is right exactly up to 18 decimals: 10^19 is no int64, and the
  exponent is cut to eight bits.
- A DHCP parameter request list of more than 253 bytes makes the rewritten length byte wrap. That needs an
  option buffer of at least 258 bytes; up to 257 the rewriting always keeps the meaning
  (`Dhcp.SmallBufferExtends`, `Dhcp.LargerBufferWraps`).
- A boot that ends before the first update of the persistent memory leaves the uptime of an earlier boot
  there, which is then counted again (`PersistentMemory.TotalIsExactIff`,
  `PersistentMemory.ResetTwiceCountsTwice`).
- A stalled fan is only tried when a scan of the spinning fans is over
  (`TachoScheduler.StalledFansWait`), which is why the bound on picks is quadratic.

## Model

| member | source | states |
|---|---|---|
| TachoScheduler.CallKeepsValid | src/tacho.c:171-238 | every call keeps both scan positions inside the array and the second queue active only with the first rewound |
| TachoScheduler.WaitDecreases | src/tacho.c:180-238 | a ranking over both positions, the active queue and the fan's queue falls with every pick of another fan, and with every scheduling call |
| TachoScheduler.PicksBoundedByWait | src/tacho.c:180-238 | a run that never picks the fan has no more picks than the ranking of its start |
| TachoScheduler.SchedulingsBoundedByWait | src/tacho.c:180-238 | a run that never picks the fan has no more scheduling calls than the ranking with the price of fruitless calls added |
| TachoScheduler.StarvationFreedom | src/tacho.c:88-238 | whatever is measured and however fans change queues, every fan is picked within (N+1)^2 picks and within (N+1)(N+2) scheduling calls |
| TachoScheduler.PickWithinFourCalls | src/tacho.c:88-105 | of four scheduling calls in a row at least one picks a fan |
| TachoScheduler.StalledFansWait | src/tacho.c:180-238 | while a spinning fan waits ahead of the scan, no stalled fan is picked and the second scan position stands still |
| TachoScheduler.TachoReader.constructor | src/tacho.c:84-85 | all fans start in the first queue with both scans at the start |
| TachoScheduler.TachoReader.NextInQueue | src/tacho.c:88-105 | returns the first fan of the queue from the scan position on and moves past it, or -1 and rewinds |
| TachoScheduler.TachoReader.ReadTachoInputs | src/tacho.c:171-238 | one call changes queue, positions, frequencies and step exactly as the model's call |
| TachoScheduler.TachoReader.FinishMeasurement | src/tacho.c:205-237 | when a measurement ends, the frequency it publishes, that the fan's queue says whether a pulse came, and that all other fans are untouched |
| PulseTimer.PulseLen.MeasureCallback | src/pulse_len.c:103-117 | an edge on the measured pin becomes start, then end with completion, and further ones change nothing |
| PulseTimer.PulseLen.SetupInterrupt | src/pulse_len.c:120-129 | the timer starts empty with its interrupt enabled |
| PulseTimer.PulseLen.StartMeasure | src/pulse_len.c:142-148 | counter and completion are cleared and the interrupt is enabled again |
| PulseTimer.PulseLen.PulseInterval | src/pulse_len.c:151-162 | the distance of the two edges, or 0 before both have come, with the timer unchanged |
| PulseTimer.LinesSelectPort | src/tacho.c:109-114 | writing the three select lines one by one ends with exactly the wanted port |
| PulseTimer.StepKeepsInv | src/pulse_len.c:103-162 | every statement of the poller and every interrupt keep what is known of timer, lines and edges |
| PulseTimer.RunKeepsInv | src/pulse_len.c:103-162 | so does every interleaving |
| PulseTimer.NoMixedMeasurement | src/tacho.c:196-226 | in every interleaving a non-zero interval reported for a fan lies between two consecutive edges of that fan, both after its measurement began |
| PulseTimer.SeenEdgesAreReported | src/tacho.c:205-226 | once two edges are in, four poller steps report their distance, whatever interrupts come |
| PulseTimer.ReportsAreForFansAsked | src/tacho.c:182-238 | over all runs the fans of the reports are, in order, the fans that the scheduler picked, leaving out those without a tachometer |
| PulseTimer.MeasurementEnds | src/tacho.c:205-237 | once the time limit has passed, a measurement ends within twelve poller steps, whatever interrupts come |
| PulseTimer.MeasurementReports | src/tacho.c:205-237 | and it ends with one more report, for the fan that is measured |
| PulseTimer.AskedFanIsReported | src/tacho.c:182-237 | from idle, the fan that is picked next has the next report within twelve more poller steps |
| PulseTimer.QuietFanReportsZero | src/tacho.c:208-226 | with fewer than two edges since it began, such a measurement reports 0 for its fan |
| TachoCounter.ReverseMap | src/tacho.c:264-276 | the pin table names for each input pin its fan and holds 0 for every other pin |
| TachoCounter.OneFanPerPin | src/tacho.c:119-125 | an edge reaches the fan on that pin and no other |
| TachoCounter.TachoInputs.constructor | src/tacho.c:262-297 | counters and saved counters start at 0 |
| TachoCounter.TachoInputs.ReadCallback | src/tacho.c:119-125 | one interrupt adds one edge to the fan of its pin, the 32-bit counter following modulo 2^32 |
| TachoCounter.TachoInputs.Interrupts | src/tacho.c:119-125 | any burst of interrupts adds to each fan the edges of its own pin |
| TachoCounter.TachoInputs.ReadCounters | src/tacho.c:138-141 | each copy is the counter at the moment it was read, interrupts in between included |
| TachoCounter.TachoInputs.UpdateFrequencies | src/tacho.c:149-160 | each frequency times the window is a million times the wrapped difference of copy and saved counter, or stands for the alarm's high or low speed |
| TachoCounter.TachoInputs.SaveCounters | src/tacho.c:162-167 | every window ends at the count that was copied, not at the current one |
| TachoCounter.TachoInputs.ReadTachoInputs | src/tacho.c:130-169 | with interrupts before every step, a finished window below 2^32 edges publishes a frequency that times its length gives the edges between two saved reads, and for an alarm input the high speed when it is on and the low one when it is off; an unfinished one changes nothing |
| TachoCounter.FrequencyMeans | src/tacho.c:151-160 | what the published number means, for windows of any length and counters that wrap |
| TachoCounter.CountedExactlyIff | src/tacho.c:151-152 | a window's pulses are its edges if and only if there are fewer than 2^32 |
| TachoCounter.ReportsAddUp | src/tacho.c:151-152 | wrapped differences of successive reads of a counter never exceed its edges, and sum to them if and only if every window was below 2^32 |
| TachoCounter.TachoInputs.CloseWindow | src/tacho.c:149-168 | the pulses that go into a published frequency are added to the published total, those of windows read as an alarm to another |
| TachoCounter.TachoInputs.Poll | src/tacho.c:119-169 | over any number of calls with any interrupts, published pulses and those passed over sum to the edges up to the last saved read if and only if every window was below 2^32, and never exceed them; an input always read as a tachometer passes nothing over |
| Curves.Map | src/pwm.c:259-282 | the search and interpolation, with the divisor proved positive for every table of two points or more |
| Curves.WithinOutputs | src/sensors.c:100-119 | the result lies between the smallest and the largest output, sorted inputs or not |
| Curves.Monotone | src/tacho.c:367-390 | non-decreasing outputs make the curve non-decreasing, sorted inputs or not |
| Curves.MonotoneOnlyIfRising | src/tacho.c:367-390 | for sorted inputs the curve is non-decreasing exactly when its outputs are |
| Curves.HitsEveryPoint | src/pwm.c:259-282 | with strictly increasing inputs every point is met exactly |
| Curves.OnTheLine | src/pwm.c:264-281 | between two neighbouring points the value is on the line through both, and outside the table it is that of the nearest point |
| Curves.Lipschitz | src/pwm.c:259-282 | then the curve is never steeper than its steepest segment |
| Means.MeanWithin | src/sensors.c:174-191 | a mean lies between any bounds of its values |
| Sweeps.RoundsSettle | src/fanpico.c:352-364 | cells of rank below k that agree in two states make all cells of rank below k + r agree r in-place rounds later |
| Sweeps.Converges | src/fanpico.c:460-469 | with ranks up to d, d + 1 in-place rounds reach a fixed point that every start with the same held cells reaches and that is the only one |
| Sweeps.SweepOrdered | src/fanpico.c:352-364 | ordered rules keep ordered states ordered through an in-place sweep, cycles included |
| FanControl.FanOutputs.constructor | src/fanpico.c:283-285 | state cleared and every hardware level at that of duty 0 |
| FanControl.FanOutputs.SetPwmDutyCycle | src/pwm.c:74-88 | writes the level of the duty to that fan's register only |
| FanControl.FanOutputs.CalculatePwmDuty | src/pwm.c:285-331 | for each of the five sources, and for a filter's answer, the duty is the source value put through the fan's curve, times the coefficient, when that lies inside the limits, and otherwise the limit it passes |
| FanControl.DutyDelivers | src/pwm.c:285-331 | the model's duty is that value, source by source |
| FanControl.DutyAtPoint | src/pwm.c:317-328 | at a point of a strictly sorted curve an unfiltered fan's duty is the point's output times the coefficient, or the limit that this passes |
| FanControl.FanInRound | src/fanpico.c:353-364 | what one round makes of each fan: its duty from signals and from the fans before and after it, and remembered duty and level changed together exactly when it moved by the hysteresis or more |
| FanControl.FanOutputs.UpdateOutputs | src/fanpico.c:348-364 | the loop updates duties, remembered duties and levels as the model's round |
| FanControl.OutputBounds | src/pwm.c:317-328 | a duty never exceeds its maximum, and never falls below its minimum exactly when the limits are in order |
| FanControl.LevelBounds | src/pwm.c:74-88 | levels run from 0 to top + 1, full exactly from 100 percent on, and are the floor of the duty's share |
| FanControl.LevelMonotone | src/pwm.c:74-88 | a higher duty never has a lower level |
| FanControl.OutputMonotone | src/pwm.c:285-331 | with a rising curve and a coefficient not below 0, a higher source value never gives a lower duty |
| FanControl.RoundMonotone | src/fanpico.c:348-364 | in a whole round higher signals never lower any computed duty nor its level, however fans follow each other |
| FanControl.RunMonotone | src/fanpico.c:348-364 | the same for computed duties over whole runs |
| FanControl.UpdateIsSweep | src/fanpico.c:348-364 | the duties of a round are an in-place sweep of the duty rule |
| FanControl.ReferencesConverge | src/pwm.c:285-331 | with inputs held still and reference chains that end, d + 1 rounds settle every duty independently of the starting state, and only that outcome is kept by a round |
| FanControl.SelfReferenceKeepsBoth | src/pwm.c:285-331 | a fan that follows itself can keep two different duties |
| FanControl.HardwareShadowsDuty | src/fanpico.c:353-364 | in every run from start-up the hardware level is that of the remembered duty and at most top + 1, the remembered duty is the computed one or nearer than the hysteresis, and duties are inside their limits |
| FanControl.RoundRemembers | src/util.c:218-226 | in a round the remembered duty of a fan changes by the hysteresis rule from its own old value and its new duty only |
| FanControl.RunRemembers | src/fanpico.c:353-364 | over a run the remembered duty is the fold of the hysteresis rule over the fan's computed duties |
| FanControl.OrderKeptIff | src/util.c:218-226 | for series of duties between two limits that fold keeps order exactly when the hysteresis is not positive, at least the upper limit, or at most the lower one and wider than their distance |
| FanControl.PrevKeepsOrder | src/fanpico.c:353-364 | with such settings, higher signals throughout a run never give a lower remembered duty |
| FanControl.RunsKeepOrderIff | src/fanpico.c:353-364 | for limits up to 100, over all runs from start-up, order of remembered duties is kept exactly with such settings |
| FanControl.DefaultHysteresisInverts | src/fanpico.h:53 | two concrete runs with the default hysteresis whose hardware levels end inverted |
| FanControl.LevelsKeepOrder | src/fanpico.c:353-364 | with such settings, or without hysteresis in the last round, higher signals throughout a run never give a lower hardware level |
| FanControl.RunsKeepLevelsIff | src/pwm.c:74-88 | for limits up to 100 whose upper one is a step of the counter, over all runs from start-up, order of hardware levels is kept exactly with such settings |
| FanControl.InversionBounded | src/util.c:218-226 | an inversion of two folds stays below the hysteresis |
| FanControl.RunInversionBounded | src/fanpico.c:353-364 | over all runs from start-up, with a hysteresis that changes from round to round, an inversion of remembered duties stays below the widest one |
| FanControl.OneRoundKeepsOrder | src/util.c:218-226 | from a common remembered duty one round never inverts |
| VirtualSensors.Aggregate | src/sensors.c:156-191 | the loop returns the largest, smallest, mean or difference of the listed sources, 0 when there are none |
| VirtualSensors.FoldSources | src/sensors.c:160-187 | the loop reads exactly the sources before the first 0 and folds them in order |
| VirtualSensors.AddSource | src/sensors.c:169-186 | one source changes the accumulator as its mode says |
| VirtualSensors.MeaningDecides | src/sensors.c:156-191 | what a mode means fixes the result, and except for differences it lies between the sources |
| VirtualSensors.VSensors.constructor | src/fanpico.c:296-328 | start-up values of virtual sensors |
| VirtualSensors.VSensors.TakeWritten | src/sensors.c:129-144 | a value with a new stamp is taken over with pressure and humidity, and the default shown once it is a whole second older than its timeout |
| VirtualSensors.ExpiredFrom | src/sensors.c:137-142 | a value is too old from the microsecond on at which its age passes the timeout by a whole second |
| VirtualSensors.VSensors.FindTemp | src/sensors.c:145-155 | the temperature of device j if it is the first with that address, among the first eight and before a zero address, and 0 if there is none |
| VirtualSensors.OneWireInRound | src/fanpico.c:460-462 | the temperature that a round publishes for a 1-Wire sensor is that of the first device with its address, or 0 |
| VirtualSensors.VSensors.GetVsensor | src/sensors.c:122-206 | for each kind of sensor and for a filter's answer what temperature it is, and all copied values |
| VirtualSensors.VSensors.UpdateAll | src/fanpico.c:460-469 | the loop changes all arrays as the model's round |
| VirtualSensors.WrittenFollows | src/sensors.c:129-144 | in a run with a changing configuration a written sensor depends on its own settings, writes and the clock only |
| VirtualSensors.WrittenClosedForm | src/sensors.c:129-144 | with a configuration that changes between rounds, a written sensor shows after every round the last written value, or its default if that is older than the timeout, exactly if no value that was too old is taken for recent again |
| VirtualSensors.RaisedTimeoutKeepsDefault | src/sensors.c:136-143 | a run from start-up in which a raised timeout makes a value count again that is not shown |
| VirtualSensors.KeptTimeoutsNeverRevive | src/sensors.c:136-143 | that never happens while time goes on and timeouts are not raised or switched off |
| VirtualSensors.CombinedMonotone | src/sensors.c:156-191 | a higher source never lowers a maximum, minimum or mean |
| VirtualSensors.SensorsMonotone | src/fanpico.c:460-469 | without differences and filters, warmer sensors never give a lower virtual temperature in a whole round, cycles included |
| VirtualSensors.RoundIsSweep | src/fanpico.c:460-469 | while nothing is written or expires, a round is an in-place sweep |
| VirtualSensors.SensorsConverge | src/sensors.c:156-191 | with inputs held still and reference chains that end, d + 1 rounds settle every temperature independently of the starting state, and only that outcome is kept |
| VirtualSensors.CycleKeepsBoth | src/sensors.c:156-191 | a sensor that reads itself can keep two different temperatures |
| ControlPipeline.NextMonotone | src/fanpico.c:460-482 | one pass of the main loop, with either timer due or not, keeps two states in order under ordered readings |
| ControlPipeline.PassDelivers | src/fanpico.c:445-482 | one pass gives each due fan the duty of this pass's temperatures, virtual sensors first when they are due too, and leaves alone what is not due |
| ControlPipeline.WrittenReachesFan | src/fanpico.c:459-482 | a newly written sensor value reaches the fan that follows it in the same pass, through curves, coefficient and limits |
| ControlPipeline.WarmerNeverSlower | src/fanpico.c:387-503 | over whole runs, where it is nowhere colder and the motherboard never asks for less, no computed duty is lower, with virtual sensors reading each other and fans following each other in any way |
| ControlPipeline.FansRun | src/fanpico.c:479-482 | the fans of the pipeline go through just the rounds of the output timer |
| ControlPipeline.WarmerLevels | src/fanpico.c:387-503 | down to the hardware: where it is nowhere colder, a fan's remembered duty is less than its hysteresis lower, and with settings that keep order neither it nor the level is lower |
| ControlPipeline.WarmerInversionBounded | src/fanpico.c:387-503 | whatever the settings and with a changing hysteresis, where it is nowhere colder a fan's remembered duty is lower by less than the widest hysteresis |
| MotherboardTacho.FoldFans | src/tacho.c:413-435 | the loop counts the selected fans and folds their speeds in order |
| MotherboardTacho.SpeedsOfSelected | src/tacho.c:413-416 | these speeds are, for each selected fan at its place among the selected ones and for no other, its pulses in a minute over its pulses in a revolution |
| MotherboardTacho.CalculateTachoFreq | src/tacho.c:393-457 | for a fixed speed, one fan, and the least, greatest or mean speed of the selected fans: sixty times the frequency is the speed put through map, coefficient and limits, times the pulses of a revolution |
| MotherboardTacho.FreqMonotone | src/tacho.c:393-457 | with a rising map faster fans never report a lower frequency, however they are combined |
| MotherboardTacho.FreqBounds | src/tacho.c:447-454 | the frequency never exceeds the upper limit, and never falls below the lower one exactly when the limits are in order |
| MotherboardTacho.DriverWithinLimits | src/square_wave_gen.c:81-97 | the driver alone: what it produces for a computed frequency is at least the lower limit and exceeds the upper one by less than one part in the half-cycle |
| MotherboardTacho.MbOutputs.constructor | src/tacho.c:336-363 | start-up: no frequencies, no waves, alarm pins as their settings say |
| MotherboardTacho.MbOutputs.SetOutput | src/fanpico.c:375-381 | a changed frequency becomes a period of the generator or an alarm level: an alarm means fewer pulses in a minute than the threshold asks for, and may be inverted |
| MotherboardTacho.AlarmMeans | src/fanpico.c:378-380 | when the alarm is on, in whole numbers without the truncated division, negative frequencies included |
| MotherboardTacho.MbOutputs.UpdateTachos | src/fanpico.c:366-383 | the loop updates frequencies, remembered frequencies and outputs as the model's round |
| MotherboardTacho.OutputInRound | src/fanpico.c:366-383 | a round treats each output on its own |
| MotherboardTacho.PinShowsRemembered | src/fanpico.c:366-377 | in every run from start-up the generator has the period of the remembered frequency, which is the computed one or less than 1 Hz away |
| MotherboardTacho.AlarmShowsRemembered | src/fanpico.c:377-381 | an alarm pin shows the alarm level of the remembered frequency, but at start-up with threshold 0 |
| MotherboardTacho.RememberedUntilHeard | src/fanpico.c:366-373 | while limits stay the same the remembered frequency is 0 until 1 Hz is computed for the first time, and inside the limits from then on |
| MotherboardTacho.LimitsKeptIff | src/fanpico.c:366-373 | after a run with steady limits the remembered frequency is inside them if and only if the lower one is 0 or at least 1 Hz has been computed once |
| MotherboardTacho.LimitsAlwaysKeptIff | src/fanpico.c:366-373 | all runs with given limits end inside them if and only if the lower one is 0 or stands for at least 1 Hz |
| MotherboardTacho.FixedRunBelowLimit | src/fanpico.c:369-373 | for every other lower limit, a run of one round that ends below it |
| MotherboardTacho.PinKeepsLimits | src/square_wave_gen.c:81-97 | with steady limits the produced frequency is at least the lower limit and above the upper one by less than one part in the half-cycle, once 1 Hz was computed; before that there is no wave |
| MotherboardTacho.PinWithinLimits | src/fanpico.c:366-383 | when limits change during a run, the produced frequency misses the present ones by less than 1 Hz besides the driver's error; a silent pin means that less than 1 Hz was computed |
| MotherboardTacho.SlowSignalStaysSilent | src/fanpico.c:369-376 | frequencies that never reach 1 Hz leave the pin silent, whatever the lower limit |
| LossyPeak.LossyPeakFilter.constructor | src/filter_lossypeak.c:66-78 | a new filter has a peak of 0 taken at time 0, was last called at its creation and does not decay yet |
| LossyPeak.LossyPeakFilter.Apply | src/filter_lossypeak.c:91-125 | one call changes the context as the model's step and returns its peak |
| LossyPeak.FirstCall | src/filter_lossypeak.c:70-122 | what the first call of a new filter shows, for every input, decay, delay and time |
| LossyPeak.FallIs | src/filter_lossypeak.c:114-115 | the decay is the fall in a second |
| LossyPeak.HighestIsMaximum | src/filter_lossypeak.c:103-120 | the closed form's maximum is one of its falling lines and not below any of them |
| LossyPeak.OutputClosedForm | src/filter_lossypeak.c:91-125 | over every run in time order the output is the peak until the delay has passed and then the maximum of the lines falling from the peak and from each later sample; it is never below the input |
| LossyPeak.FallsNoFasterThanDecay | src/filter_lossypeak.c:91-125 | between two calls the output falls by at most the decay rate times the time |
| LossyPeak.NeverAboveInputs | src/filter_lossypeak.c:91-125 | the output never exceeds every input so far and the initial 0 |
| LossyPeak.KeepsOrderIff | src/filter_lossypeak.c:91-125 | over all runs higher inputs never lower the output exactly without decay or without delay |
| LossyPeak.EarlyPeakFallsSooner | src/filter_lossypeak.c:96-113 | for every other decay and delay, two runs of three calls in which higher inputs end lower |
| MovingAverage.Create | src/filter_sma.c:43-71 | a filter is made exactly for windows from 2 to 32 |
| MovingAverage.SmaFilter.constructor | src/filter_sma.c:60-68 | an empty ring buffer |
| MovingAverage.SmaFilter.Push | src/filter_sma.c:88-103 | the ring buffer holds the last inputs, oldest first from the index on, and the running sum is their sum |
| MovingAverage.SmaFilter.Apply | src/filter_sma.c:83-106 | after any inputs the output is the mean of the last min(n, window) of them |
| MovingAverage.HoldsNext | src/filter_sma.c:88-103 | the index arithmetic keeps slots, inputs and sum in step, while filling and after the wrap |
| MovingAverage.OutputWithin | src/filter_sma.c:97-98 | the output lies between any bounds of the inputs in the window |
| MovingAverage.SteadyInput | src/filter_sma.c:83-106 | an input steady for one window is the output exactly |
| MovingAverage.OutputMonotone | src/filter_sma.c:83-106 | higher inputs never give a lower output |
| SquareWave.OneWave | src/square_wave_gen.pio:31-45 | from the start of the program one wave takes the oldest waiting period, or repeats the last, for its whole length |
| SquareWave.ProgramMakesSignal | src/square_wave_gen.pio:31-45 | for every schedule of new periods the pin shows a train of whole waves, low p+5 cycles then high p+5, low throughout for period 0 |
| SquareWave.StateMachine.constructor | src/square_wave_gen.pio:31-33 | registers, pin and FIFO before the first instruction |
| SquareWave.StateMachine.Instruction | src/square_wave_gen.pio:31-45 | the eight instructions on registers, pin and FIFO |
| SquareWave.StateMachine.Tick | src/square_wave_gen.pio:31-45 | one clock cycle, delay cycles and a write to the FIFO included |
| SquareWave.StateMachine.Generate | src/square_wave_gen.pio:31-45 | however long the machine ticks and whatever is written meanwhile, its pin shows the train of waves |
| SquareWave.SteadySignal | src/square_wave_gen.pio:31-45 | without new periods one wave repeats for ever |
| SquareWave.NewPeriodNextWave | src/square_wave_gen.c:72-76 | a period written at any cycle leaves the running wave alone and rules the next |
| SquareWave.SetFreq | src/square_wave_gen.c:81-97 | the period that is written for a frequency, 0 for none |
| SquareWave.HalfCycleExactIff | src/square_wave_gen.c:81-97 | half-cycles have the intended length exactly when it is above five cycles |
| SquareWave.FrequencyError | src/square_wave_gen.c:81-97 | the produced frequency is at least the requested one and less than one part in h above it |
| Snapshots.StepKeepsInv | src/fanpico.c:484-501 | every step of either core keeps what the mutexes protect |
| Snapshots.RunKeepsInv | src/fanpico.c:337-345 | so does every interleaving from the launch of core 1 |
| Snapshots.SnapshotSafety | src/command_util.c:95-102 | outside its own copy core 1 works with a configuration that was complete between setters, core 0 shows a state that core 1 had at one instant, and neither goes back |
| Snapshots.FinishedCopiesAreCurrent | src/i2c.c:189-194 | a finished copy of the configuration is the newest complete one, and a finished fetch is the state sent last |
| Snapshots.RefreshArrives | src/fanpico.c:484-488 | from every reachable state with core 1 idle and the mutex free, copying every word in any order, whatever core 0 does in between, leaves core 1 with the configuration of the moment of entry |
| Snapshots.PublishArrives | src/fanpico.c:493-497 | a publish of every word sends the state that core 1 had at its entry |
| Snapshots.FetchArrives | src/fanpico.c:337-341 | a fetch of every word shows core 0 what was sent when it entered |
| Snapshots.PublishedStateArrives | src/fanpico.c:337-345 | a publish followed by a fetch, with any other steps in between, leaves core 0 with the state that core 1 had when it entered the publish |
| Snapshots.SetterArrives | src/command_util.c:95-102 | a setter's writes all take effect, whatever core 1 does meanwhile, and make the newest complete configuration |
| Snapshots.WorkArrives | src/fanpico.c:421-482 | core 1's own writes take effect when it is not copying |
| Snapshots.WithoutMutexCopiesTear | src/fanpico.c:484-492 | without the mutex a run from the launch of core 1 ends with both cores idle and core 1 holding a configuration that never was complete |
| Crc32.Xcrc32 | src/crc32.c:171-182 | the table-driven loop computes the bit-by-bit checksum |
| Crc32.AddByte | src/crc32.c:175-179 | the loop body adds one byte to the checksum |
| Crc32.CrcIsDivision | src/crc32.c:145-170 | that checksum is the remainder of dividing the message bits, one at a time, by 0x04c11db7 |
| Crc32.TableIsGenerated | src/crc32.c:70-139 | all 256 literal entries are eight shifts of their index |
| Crc32.GenerateEntry | src/crc32.c:41-67 | the table-generating program produces the literal table |
| Crc32.TableStep | src/crc32.c:171-182 | one table look-up is eight single-bit steps |
| Crc32.CrcComposes | src/crc32.c:145-170 | blocks can be chained through the initial value |
| Crc32.TailKeepsApart | src/crc32.c:171-182 | each byte step is a bijection, so a common tail keeps different states apart |
| Crc32.BurstDetected | src/crc32.c:171-182 | messages of one length that differ only within four consecutive bytes never have the same checksum |
| PersistentMemory.Memory.UpdateCrc | src/fanpico.c:84-89 | the block ends up sealed by its checksum, fields unchanged |
| PersistentMemory.Memory.Init | src/fanpico.c:91-124 | any memory content becomes a valid block: exactly with the right identifier, length and checksum a warm start that moves the uptime, counts the reset and keeps the rest, and otherwise a cleared one |
| PersistentMemory.Memory.CountReset | src/fanpico.c:107-111 | a saved uptime moves to the previous and total uptimes, the reset is counted, and all else is kept |
| PersistentMemory.Memory.Clear | src/fanpico.c:119-122 | everything but the labels is cleared |
| PersistentMemory.Memory.Update | src/fanpico.c:126-142 | keeps the block valid, saves uptime and, with a running clock, both parts of the time, and keeps the rest |
| PersistentMemory.Memory.UpdateTz | src/fanpico.c:144-155 | keeps the block valid and changes the time zone only |
| PersistentMemory.DamageIsNoticed | src/fanpico.c:91-124 | damage within four neighbouring bytes of the checked part, or of the checksum, always leads to a cold start |
| PersistentMemory.TotalUptime | src/fanpico.c:107-114 | after any number of boots the block is valid, counts the resets, and holds the sum of the saved uptimes plus what was counted again |
| PersistentMemory.TotalIsExactIff | src/fanpico.c:107-114 | the total is the sum of the saved uptimes exactly when no boot ended without saving while an uptime was in the block |
| PersistentMemory.ResetTwiceCountsTwice | src/fanpico.c:107-110 | two resets in a row count the uptime of the first boot twice |
| Bitmasks.BitmaskToStr | src/util.c:410-467 | the printer's state machine writes the pieces of the mask, runs as ranges, or "*" |
| Bitmasks.PrintPieces | src/util.c:430-462 | after each bit the text so far, with an open run closed off, shows exactly the pieces below it |
| Bitmasks.PrintBit | src/util.c:431-461 | printing one set bit turns the text for the pieces before it into that for the pieces with it |
| Bitmasks.PiecesAreRuns | src/util.c:435-458 | in range mode every run of bits is one piece: between two pieces there is a gap |
| Bitmasks.PiecesAreBits | src/util.c:435-458 | outside range mode every piece is one bit |
| Bitmasks.StarMeansAll | src/util.c:423-428 | "*" is printed exactly for all bits, outside range mode |
| Bitmasks.StrToBitmask | src/util.c:470-513 | the parser sets exactly the bits below the length that a token asks for, as a number or inside a run that fits, all of them for "*" and none for a bad length, and its return code |
| Bitmasks.ParseToken | src/util.c:489-507 | one token sets exactly its first number, or also the numbers of its run if that ends below the length |
| Bitmasks.TextAsks | src/util.c:489-509 | so the whole text sets what one of its tokens asks for |
| Bitmasks.TokensSplit | src/util.c:489-508 | a comma ends a token, and empty ones do not count |
| Bitmasks.SetRange | src/util.c:500-503 | the inner loop sets the bits of a run |
| Bitmasks.Parse | src/util.c:470-513 | for any text only bits below the length are set |
| Bitmasks.RoundTrip | src/util.c:410-513 | parsing a printed mask gives the mask cut to its length |
| Bitmasks.PrintInjective | src/util.c:410-467 | different masks print differently |
| Bitmasks.PrintFits | src/util.c:412 | the text never takes more than 96 characters |
| PowInt.PowInt64 | src/util.c:231-255 | returns x^y exactly when it is an int64, every product being checked against overflow |
| PowInt.PowExact | src/util.c:229-255 | square-and-multiply has a result if and only if x^y is an int64, and then it is x^y; no intermediate product overflows first |
| PowInt.ReachInRange | src/util.c:244-250 | the reach M of a base is a power of two and x^M is an int64 |
| PowInt.BeyondReach | src/util.c:244-250 | no power from 2M on is an int64 |
| PowInt.OverflowIff | src/util.c:231-255 | for every base and exponent, exactly when a power that is no int64 ends in an undefined overflow and when in the guard's 0 |
| PowInt.GuardIsIncomplete | src/util.c:244-250 | one input for each way to overflow, and a negative base that the guard catches |
| PowInt.RoundDecimalRightIff | src/util.c:258-262 | rounding is within half a unit of the requested decimal for every value exactly up to 18 decimals |
| PowInt.RoundDecimalNearest | src/util.c:258-262 | up to 18 decimals the result is the nearest multiple of the last decimal, halves going away from zero |
| PowInt.NearestIsUnique | src/util.c:261 | that leaves no choice, and negative numbers round like positive ones |
| Dhcp.OptionAddHook | src/dhcp.c:42-77 | the buffer holds the old options in order with 7 and 100 behind each request list, its length is exact and in bounds, bytes behind it and other messages are unchanged |
| Dhcp.Rebuild | src/dhcp.c:63-76 | the loop over moving pointers writes exactly the bytes of the extended options and nothing behind them |
| Dhcp.RewriteOption | src/dhcp.c:64-75 | one round writes the bytes of one option, extended if it is a request list, and moves both pointers behind it |
| Dhcp.ExtendedLength | src/dhcp.c:63-76 | the options take two bytes more for each request list |
| Dhcp.RewriteKeepsMeaning | src/dhcp.c:42-77 | the rewritten bytes decode to the old options in order with 7 and 100 appended to each request list, exactly when these lists have at most 253 bytes |
| Dhcp.SmallBufferExtends | src/dhcp.c:57-76 | what fits an option buffer of at most 257 bytes once rewritten always keeps its meaning |
| Dhcp.LargerBufferWraps | src/dhcp.c:68 | with 258 bytes there are options that do not |
| Dhcp.NoRequestNoChange | src/dhcp.c:42-77 | without a request list every byte stays as it was |

## Left out

- Displays, web server, MQTT, SNMP, telnet, SSH, TLS, syslog and WiFi: network and user interface plumbing.
- littlefs, PSRAM, board information, memory tests: foreign calls and hardware registers.
- I2C and 1-Wire device access, the ADC and thermistor formulas: readings are arbitrary inputs.
- Saving and loading the configuration as JSON: cJSON is not part of this model.
- The SCPI command table: only the mutex bracket that `run_cmd` puts around a setter matters here.
- Rounding of floating point numbers in curves, filters, duties and frequencies: real numbers instead.
- Filter contexts as heap objects: a filter is an owned object, and in `FanControl` and `VirtualSensors` a
  filter may return anything, so results that need "filters off" say so.
- The blocking `pulse_measure`, which the tachometer code does not use.
- The sampling steps of `i2c_read_temps`: only its guarded write of a result is modelled.
- The copies between the cores are steps of a state machine on values, not methods, because both cores take
  part; words may be copied in any order.
- Waiting for a mutex and giving up after a timeout are the same step that changes nothing.
- `update_outputs` reads the hysteresis from the live configuration without its mutex: it is an input of
  each round.
- Bitmasks.BitmaskToStr: needs base 0 or 1, which every caller uses (larger bases lead to three-digit numbers, which the code cuts), and outside range mode a length below 32, because the code shifts a 32-bit 1 by the length.
- Bitmasks.StrToBitmask: needs base 0 or 1 (a larger one can lead to a shift by a negative number) and for "*" a length below 32.
- MotherboardTacho.MbOutputs.UpdateTachos: needs frequencies whose half-cycle fits 32 bits, as `SquareWave.SetFreq` does.
- MotherboardTacho.PinShowsRemembered: speaks of the period last handed to the generator; a pin set up as an alarm and switched to a square wave later is only set up for it at the next boot, which is not modelled.
- SquareWave.SetFreq: needs a half-cycle that fits 32 bits; the conversion to an unsigned number is undefined in C beyond that.
- Dhcp.OptionAddHook: needs bytes that are well-formed options without pad and end, as the loop takes every byte for a code or a length, and room for the result, which the assertion in the code only ensures for at most one request list.
- FanControl.RunMonotone: says nothing of hardware levels, for which it can fail; `FanControl.RunsKeepOrderIff` and `FanControl.LevelsKeepOrder` say when it holds.
- FanControl.RunsKeepLevelsIff: takes the upper limit to be a step of the counter; on a coarser counter two different duties can have one level, and fewer inversions show.
- FanControl.RunInversionBounded: takes the hysteresis of a round to be the same in both runs.
- VirtualSensors.WrittenClosedForm: takes two different writes to have different time stamps, as the code compares stamps only, and the sensor to be a written one without a filter throughout.
- PersistentMemory.TotalIsExactIff: takes the sum of all uptimes to stay below 2^64 microseconds.
