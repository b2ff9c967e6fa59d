# Smart dimmer: zero-cross to triac-gate sequencing

A Dafny model of the phase-control core of the ESP8266 smart dimmer firmware
(`main/smart_dimmer.c`). A rising edge on the zero-cross (ZC) line arms the
chip's single one-shot hardware alarm for `trig_delay` microseconds. When that
alarm expires, `timer_callback` drives the triac gate high, arms a
`TURN_OFF_DELAY` alarm and marks the triac triggered (Pulsing). When that
alarm expires, it drives the gate low and resets the sequence (Idle).

The model is a small sequential transition system:

- `hw_timer.dfy` (`HwTimer`): the one timer, with at most one pending
  alarm. Arming replaces the pending alarm. An expired alarm is gone.
- `dimmer.dfy` (`Dimmer`): the constants `MIN_TRIG_DELAY = 1000` and
  `TURN_OFF_DELAY = 2000`, and the state record. The record holds
  `triac_triggered`, `trig_delay`, the gate pin level, the timer and a
  microsecond clock. The two handlers are pure functions. Each returns the
  next state and the driver calls it made (`gpio_set_level`,
  `hw_timer_alarm_us`). `Execute` applies those calls, so each handler's
  effect is written once.
- `traces.dfy` (`Traces`): events (a ZC edge at a time, or expiry of the
  pending alarm at its deadline) and runs over arbitrary event sequences.
  It also holds the reachable-state invariant and the trace properties:
  - the gate matches the state;
  - gate writes alternate;
  - armed durations are bounded;
  - the clock is monotone.
- `scenarios.dfy` (`Scenarios`): exact timing of one pulse, and the
  overlap hazard of an edge arriving while the gate is still pulsing.

Each interrupt handler is one atomic step. An edge cannot be delivered after
the deadline of a pending alarm, because that alarm fires first. An edge at
exactly the deadline may come before or after the expiry. An expiry happens
only when an alarm is pending.

## Model

| member | source | states |
|---|---|---|
| Dimmer.Init | main/smart_dimmer.c:29-32 | Start-up state, after the gate is driven low at line 153: not triggered, gate low, `trig_delay = MIN_TRIG_DELAY`, no alarm pending |
| Dimmer.Execute | main/smart_dimmer.c:118-121 | Driver calls change only the gate pin and the timer. A pin nobody writes keeps its level and a timer nobody arms keeps its alarm. A gate write with no later gate write decides the level, and an arm with no later arm decides the alarm, so re-arming replaces the pending alarm |
| Dimmer.ZeroCrossInterrupt | main/smart_dimmer.c:50-55 | The ZC handler makes one call: it arms an alarm of `trig_delay` that expires at now + `trig_delay`. `triac_triggered`, the gate level and `trig_delay` stay unchanged |
| Dimmer.TimerCallback | main/smart_dimmer.c:100-129 | Every call flips `triac_triggered` and leaves the gate equal to the new state. Pulsing: writes the gate low and arms nothing. Idle: writes the gate high, then arms `TURN_OFF_DELAY` from now |
| Traces.Step | main/smart_dimmer.c:50-129 | A ZC at t sets the clock to t and arms an alarm due at t + delay, keeping state and gate. An expiry happens at the alarm's deadline and flips the state. Expiring from Pulsing leaves no alarm pending |
| Traces.Run | main/smart_dimmer.c:32 | No event writes `trig_delay`, so a run keeps it. A blocked run names an event that cannot occur in the state the run is stuck in |
| Traces.RunBlockedAfterPrefix | main/smart_dimmer.c:50-129 | A blocked run stops at the first impossible event: the events before it run to completion and reach exactly the stuck state |
| Traces.StepFacts | main/smart_dimmer.c:50-129 | One event preserves the invariant. It arms only `trig_delay` or `TURN_OFF_DELAY`. An expiry writes the gate exactly once, to the opposite level; a ZC never writes it. The clock does not go back |
| Traces.RunPreservesInv | main/smart_dimmer.c:102-126 | Any run from a reachable state ends in one. In every reachable state: gate high iff triggered; Pulsing implies an alarm is pending; an Idle state's pending alarm is a `trig_delay` alarm |
| Traces.RunArmsWithin | main/smart_dimmer.c:53-121 | Every alarm armed along any run lasts `trig_delay` or `TURN_OFF_DELAY` |
| Traces.RunGateAlternates | main/smart_dimmer.c:102-126 | Along any run the gate writes alternate, starting opposite to the current level. There is one write per expiry, and the gate ends at the last level written |
| Traces.RunChronological | main/smart_dimmer.c:53 | Driver calls of any run are in time order, between the run's start and end clocks, and the clock never goes back |
| Traces.GateMatchesState | main/smart_dimmer.c:106-124 | From any start-up state (lines 29, 32 and 153), after any sequence of ZC and expiry events, `gate == triac_triggered` |
| Traces.ArmedDurationsBounded | main/smart_dimmer.c:23-32 | From any start-up state every armed duration is `MIN_TRIG_DELAY` or `TURN_OFF_DELAY`, hence at least `MIN_TRIG_DELAY` |
| Traces.ExpiriesAlternate | main/smart_dimmer.c:102-126 | From any start-up state the gate writes go high, low, high, ..., one per expiry: Idle, Pulsing, Idle strictly alternate, and the final state is Pulsing exactly after an odd number of expiries |
| Traces.GateHighHasTurnOff | main/smart_dimmer.c:113-124 | From any start-up state, whenever the gate is high an alarm is pending, and its expiry drives the gate low |
| Scenarios.PulseTiming | main/smart_dimmer.c:50-129 | From Idle with nothing pending, for any `trig_delay`: a ZC at t gives exactly one pulse. The gate rises at t + `trig_delay` and falls `TURN_OFF_DELAY` later; the run ends Idle with nothing pending |
| Scenarios.PowerUpPulse | main/smart_dimmer.c:23-26 | With the configured constants, a ZC at time 0 after power-up raises the gate at 1000 µs and lowers it at 3000 µs |
| Scenarios.OverlapHazard | main/smart_dimmer.c:50-55 | A ZC while Pulsing replaces the pending turn-off alarm with a `trig_delay` alarm and keeps the gate high. The next expiry drives the gate low at ZC time + `trig_delay` and returns to Idle. That edge never fires the triac |

## Left out

- The dim-level sampler (an analog input mapped through a threshold table
  to a trigger delay) has no code in `main/smart_dimmer.c`. Nothing writes
  `trig_delay` after its initialisation, so it stays a state field fixed at
  `MIN_TRIG_DELAY`. `Scenarios.PulseTiming` is still stated for any value.
- The pulse width is `TURN_OFF_DELAY = 2000` µs, as set at line 26.
- Detecting or counting an edge that arrives while Pulsing is not done by
  the code. The model only exhibits the hazard (`Scenarios.OverlapHazard`).
- `init_gpio`, `init_timer` and the ISR service installation are left out.
  They are peripheral setup behind vendor drivers.
- `app_main`'s prints, start-up delay and heartbeat LED loop are left out.
  They are I/O unrelated to dimming. Only its gate-low write is kept, as the
  initial state.
- An alarm expiring before the gate-low write at line 153 is not modelled.
  The start-up states (`Dimmer.AtStartUp`) allow an edge between the ISR
  install at line 92 and line 153 to have armed a `trig_delay` alarm, but
  assume that window is shorter than `MIN_TRIG_DELAY`, so the alarm is still
  pending at line 153.
- Real interrupt concurrency and `volatile` semantics are left out. Each
  handler is one atomic step, and steps interleave in time order.
- Internals of the `hw_timer` driver are left out: its range limits on the
  alarm value, tick resolution, and the auto-reload mode (the code always
  passes `false`). Only a single one-shot alarm is modelled, where re-arming
  overwrites the pending one.
- Time and `trig_delay` are unbounded integers. The code's values are small
  constants, so 32-bit wrap-around plays no part.
