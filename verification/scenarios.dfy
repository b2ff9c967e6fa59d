/** Timed behaviour of one zero-cross: the normal pulse, and what happens when
    an edge arrives while the gate is still pulsing. */
module Scenarios {
  import opened HwTimer
  import opened Dimmer
  import opened Traces

  /** From Idle with no alarm pending, an edge at `t` followed by the two
      expiries it causes yields exactly one gate pulse: the gate rises at
      `t + trig_delay`, falls `TURN_OFF_DELAY` later, and the sequence ends
      Idle with nothing pending. */
  lemma PulseTiming(s: State, t: int)
    requires !s.triggered && !s.gate && s.timer.Disarmed? && s.now <= t
    ensures Run(s, [ZeroCross(t), Expiry, Expiry])
            == Ran(State(false, false, s.delay, t + s.delay + TURN_OFF_DELAY, Disarmed),
                   [ Action(t, AlarmUs(s.delay)),
                     Action(t + s.delay, SetGate(true)),
                     Action(t + s.delay, AlarmUs(TURN_OFF_DELAY)),
                     Action(t + s.delay + TURN_OFF_DELAY, SetGate(false)) ])
  {
    var es := [ZeroCross(t), Expiry, Expiry];
    var d := s.delay;
    var s1 := Step(s, ZeroCross(t)).next;
    assert s1 == State(false, false, d, t, Armed(t, d));
    var s2 := Step(s1, Expiry).next;
    assert s2 == State(true, true, d, t + d, Armed(t + d, TURN_OFF_DELAY));
    var s3 := Step(s2, Expiry).next;
    assert s3 == State(false, false, d, t + d + TURN_OFF_DELAY, Disarmed);
    assert es[1..] == [Expiry, Expiry];
    assert es[1..][1..] == [Expiry];
    assert es[1..][1..][1..] == [];
    assert Run(s3, []) == Ran(s3, []);
    assert Run(s2, [Expiry]) == Ran(s3, [Action(t + d + TURN_OFF_DELAY, SetGate(false))]);
    assert Run(s1, [Expiry, Expiry])
           == Ran(s3, [ Action(t + d, SetGate(true)),
                        Action(t + d, AlarmUs(TURN_OFF_DELAY)),
                        Action(t + d + TURN_OFF_DELAY, SetGate(false)) ]);
  }

  /** With the configured constants, an edge at time 0 after power-up raises
      the gate at 1000 microseconds and lowers it at 3000. */
  lemma PowerUpPulse()
    ensures Run(Init(0), [ZeroCross(0), Expiry, Expiry])
            == Ran(Init(3000),
                   [ Action(0, AlarmUs(1000)), Action(1000, SetGate(true)),
                     Action(1000, AlarmUs(2000)), Action(3000, SetGate(false)) ])
  {
  }

  /** The zero-cross handler does not look at the sequence state: an edge at
      `t` while the gate is pulsing (the turn-off alarm armed at `rise` still
      pending) replaces the turn-off alarm with a `trig_delay` alarm and
      leaves the gate high. That alarm's expiry then drives the gate low and
      returns to Idle, so the pulse lasts `t - rise + trig_delay` instead of
      `TURN_OFF_DELAY`, and this edge never fires the triac. */
  lemma OverlapHazard(s: State, rise: int, t: int)
    requires s.triggered && s.gate && s.timer == Armed(rise, TURN_OFF_DELAY)
    requires s.now <= t <= rise + TURN_OFF_DELAY
    ensures Step(s, ZeroCross(t)).next
            == s.(now := t, timer := Armed(t, s.delay))
    ensures Run(s, [ZeroCross(t), Expiry])
            == Ran(State(false, false, s.delay, t + s.delay, Disarmed),
                   [ Action(t, AlarmUs(s.delay)), Action(t + s.delay, SetGate(false)) ])
  {
    var es := [ZeroCross(t), Expiry];
    var d := s.delay;
    var s1 := Step(s, ZeroCross(t)).next;
    var s2 := Step(s1, Expiry).next;
    assert s2 == State(false, false, d, t + d, Disarmed);
    assert es[1..] == [Expiry];
    assert es[1..][1..] == [];
    assert Run(s2, []) == Ran(s2, []);
    assert Run(s1, [Expiry]) == Ran(s2, [Action(t + d, SetGate(false))]);
  }
}
