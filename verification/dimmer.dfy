/** The firmware of the dimmer: its two globals, the gate pin and the timer,
    and the two interrupt handlers, each modelled as one atomic step. */
module Dimmer {
  import opened HwTimer

  /** Minimum delay in microseconds from a zero-cross to the gate trigger. */
  const MIN_TRIG_DELAY: int := 1000

  /** Microseconds the gate is held high after it is triggered. */
  const TURN_OFF_DELAY: int := 2000

  /** A call a handler makes into the vendor drivers: `gpio_set_level` on the
      triac gate pin, or `hw_timer_alarm_us` with reload disabled. */
  datatype Command = SetGate(level: bool) | AlarmUs(us: int)

  /** Everything the handlers read or write. `triggered` and `delay` are the
      globals `triac_triggered` and `trig_delay`; `gate` is the level of the
      triac gate pin; `timer` is the one hardware alarm; `now` is the time in
      microseconds at which the current handler runs. */
  datatype State = State(triggered: bool, gate: bool, delay: int, now: int, timer: Timer)

  /** The state a handler leaves behind and the driver calls it made, in order. */
  datatype Reaction = Reaction(next: State, commands: seq<Command>)

  /** The state once `app_main` has configured the pins and driven the gate
      low, at time `t0`: not triggered, gate low, delay at its minimum and no
      alarm armed. */
  function Init(t0: int): (s: State)
    ensures !s.triggered && !s.gate && s.timer.Disarmed?
    ensures s.delay == MIN_TRIG_DELAY && s.now == t0
    ensures AtStartUp(s)
  {
    State(false, false, MIN_TRIG_DELAY, t0, Disarmed)
  }

  /** The states `app_main` can leave behind once it has driven the gate low
      at line 153: not triggered, gate low, delay at its minimum. The
      zero-cross interrupt is already installed by then, so an edge in that
      window may have armed a `trig_delay` alarm that is still pending. */
  predicate AtStartUp(s: State)
  {
    && !s.triggered && !s.gate && s.delay == MIN_TRIG_DELAY
    && (s.timer.Armed? ==>
          s.timer.duration == MIN_TRIG_DELAY && s.timer.armedAt <= s.now <= s.timer.Deadline())
  }

  /** True when no command in `cs` is a gate write. */
  predicate NoGateWrite(cs: seq<Command>)
  {
    forall i | 0 <= i < |cs| :: !cs[i].SetGate?
  }

  /** True when no command in `cs` arms the timer. */
  predicate NoAlarm(cs: seq<Command>)
  {
    forall i | 0 <= i < |cs| :: !cs[i].AlarmUs?
  }

  /** The effect of one driver call on the hardware. */
  function Perform(s: State, c: Command): State
  {
    match c
    case SetGate(level) => s.(gate := level)
    case AlarmUs(us) => s.(timer := Armed(s.now, us))
  }

  /** The effect of a sequence of driver calls. The drivers touch only the
      gate pin and the timer; a pin nobody writes keeps its level, a timer
      nobody arms keeps its alarm, and the last write of each wins. */
  function Execute(s: State, cs: seq<Command>): (r: State)
    ensures r.triggered == s.triggered && r.delay == s.delay && r.now == s.now
    ensures NoGateWrite(cs) ==> r.gate == s.gate
    ensures NoAlarm(cs) ==> r.timer == s.timer
    ensures forall i | 0 <= i < |cs| && cs[i].SetGate? && NoGateWrite(cs[i + 1..]) ::
              r.gate == cs[i].level
    ensures forall i | 0 <= i < |cs| && cs[i].AlarmUs? && NoAlarm(cs[i + 1..]) ::
              r.timer == Armed(s.now, cs[i].us)
    decreases |cs|
  {
    if cs == [] then s
    else
      assert forall i | 1 <= i < |cs| :: cs[1..][i - 1] == cs[i] && cs[1..][i - 1 + 1..] == cs[i + 1..];
      Execute(Perform(s, cs[0]), cs[1..])
  }

  /** `zerocross_interrupt`: arm the one-shot alarm for `trig_delay`
      microseconds. The handler neither looks at nor changes the sequence
      state or the gate, so a pending alarm is replaced whatever it was for. */
  function ZeroCrossInterrupt(s: State): (r: Reaction)
    ensures r.commands == [AlarmUs(s.delay)]
    ensures r.next.triggered == s.triggered && r.next.gate == s.gate
    ensures r.next.delay == s.delay && r.next.now == s.now
    ensures r.next.timer == Armed(s.now, s.delay)
    ensures r.next.timer.Deadline() == s.now + s.delay
  {
    var cs := [AlarmUs(s.delay)];
    Reaction(Execute(s, cs), cs)
  }

  /** `timer_callback`, run when the alarm expires. Pulsing: drive the gate
      low and reset the sequence. Idle: drive the gate high, arm the turn-off
      alarm and mark the triac triggered. */
  function TimerCallback(s: State): (r: Reaction)
    ensures r.next.triggered == !s.triggered
    ensures r.next.gate == !s.triggered
    ensures r.next.delay == s.delay && r.next.now == s.now
    ensures s.triggered ==> r.commands == [SetGate(false)] && r.next.timer == s.timer
    ensures !s.triggered ==>
              && r.commands == [SetGate(true), AlarmUs(TURN_OFF_DELAY)]
              && r.next.timer == Armed(s.now, TURN_OFF_DELAY)
  {
    if s.triggered then
      var cs := [SetGate(false)];
      Reaction(Execute(s, cs).(triggered := false), cs)
    else
      var cs := [SetGate(true), AlarmUs(TURN_OFF_DELAY)];
      assert cs[1].AlarmUs? && NoAlarm(cs[1 + 1..]);
      Reaction(Execute(s, cs).(triggered := true), cs)
  }
}
