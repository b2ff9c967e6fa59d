/** The firmware driven by arbitrary sequences of interrupts. Each handler runs
    atomically; events interleave in time order. */
module Traces {
  import opened HwTimer
  import opened Dimmer

  /** A rising edge on the zero-cross line at time `at`, or the expiry of the
      pending alarm (which happens at that alarm's deadline). */
  datatype Event = ZeroCross(at: int) | Expiry

  /** A driver call stamped with the time at which a handler made it. */
  datatype Action = Action(at: int, command: Command)

  /** A run either consumes every event, ending in `final` having made the
      driver calls in `log`, or stops at the first event that cannot happen
      in the state `stuck` it reached. */
  datatype Outcome = Ran(final: State, log: seq<Action>) | Blocked(index: nat, stuck: State)

  /** Whether an event can occur next. An edge cannot come from the past, nor
      after the deadline of a pending alarm (that alarm fires first). The timer
      interrupt fires only when an alarm is pending. */
  predicate Enabled(s: State, e: Event)
  {
    match e
    case ZeroCross(t) => s.now <= t && (s.timer.Armed? ==> t <= s.timer.Deadline())
    case Expiry => s.timer.Armed?
  }

  /** Delivers one event. The clock moves to the event's time; an expiry
      first consumes the one-shot alarm and then runs `timer_callback`. */
  function Step(s: State, e: Event): (r: Reaction)
    requires Enabled(s, e)
    ensures r.next.delay == s.delay
    ensures e.ZeroCross? ==> r.next.now == e.at && r.next.timer == Armed(e.at, s.delay)
    ensures e.ZeroCross? ==> r.next.triggered == s.triggered && r.next.gate == s.gate
    ensures e.Expiry? ==> r.next.now == s.timer.Deadline() && r.next.triggered == !s.triggered
    ensures e.Expiry? && s.triggered ==> r.next.timer.Disarmed?
  {
    match e
    case ZeroCross(t) => ZeroCrossInterrupt(s.(now := t))
    case Expiry => TimerCallback(s.(now := s.timer.Deadline(), timer := Disarmed))
  }

  /** The commands of one handler, all stamped with the time it ran. */
  function Stamp(at: int, cs: seq<Command>): (r: seq<Action>)
    ensures |r| == |cs|
    ensures forall i | 0 <= i < |cs| :: r[i] == Action(at, cs[i])
  {
    if cs == [] then [] else [Action(at, cs[0])] + Stamp(at, cs[1..])
  }

  /** Delivers the events in order, collecting the driver calls. Nothing ever
      writes `trig_delay`, so a run keeps it. */
  function Run(s: State, es: seq<Event>): (r: Outcome)
    ensures r.Ran? ==> r.final.delay == s.delay
    ensures r.Blocked? ==> r.index < |es| && !Enabled(r.stuck, es[r.index])
    decreases |es|
  {
    if es == [] then Ran(s, [])
    else if !Enabled(s, es[0]) then Blocked(0, s)
    else
      var step := Step(s, es[0]);
      match Run(step.next, es[1..])
      case Ran(f, log) => Ran(f, Stamp(step.next.now, step.commands) + log)
      case Blocked(i, b) => Blocked(i + 1, b)
  }

  /** A blocked run stops at the FIRST impossible event: the events before
      it run to completion and reach exactly the state it is stuck in. */
  lemma {:induction false} RunBlockedAfterPrefix(s: State, es: seq<Event>)
    ensures Run(s, es).Blocked? ==>
              && Run(s, es[..Run(s, es).index]).Ran?
              && Run(s, es[..Run(s, es).index]).final == Run(s, es).stuck
    decreases |es|
  {
    var r := Run(s, es);
    if r.Blocked? {
      if !Enabled(s, es[0]) {
        assert es[..0] == [];
      } else {
        var next := Step(s, es[0]).next;
        RunBlockedAfterPrefix(next, es[1..]);
        var i := r.index;
        assert Run(next, es[1..]) == Blocked(i - 1, r.stuck);
        var prefix := es[..i];
        assert prefix[0] == es[0];
        assert prefix[1..] == es[1..][..i - 1];
      }
    }
  }

  /** The number of timer expiries among `es`. */
  function ExpiryCount(es: seq<Event>): nat
  {
    if es == [] then 0 else (if es[0].Expiry? then 1 else 0) + ExpiryCount(es[1..])
  }

  /** The levels written to the gate pin, in order. */
  function GateLevels(log: seq<Action>): seq<bool>
  {
    if log == [] then [] else LevelOf(log[0]) + GateLevels(log[1..])
  }

  /** The level one driver call writes to the gate, if it writes one. */
  function LevelOf(a: Action): seq<bool>
  {
    if a.command.SetGate? then [a.command.level] else []
  }

  /** Every alarm in `log` was armed for `delay` or for the turn-off delay. */
  predicate ArmsWithin(log: seq<Action>, delay: int)
  {
    forall i | 0 <= i < |log| ::
      log[i].command.AlarmUs? ==> log[i].command.us == delay || log[i].command.us == TURN_OFF_DELAY
  }

  /** Starting from level `start`, each write drives the gate to the opposite
      of its previous level. */
  predicate Alternating(start: bool, levels: seq<bool>)
  {
    && (|levels| > 0 ==> levels[0] != start)
    && (forall i | 0 < i < |levels| :: levels[i] != levels[i - 1])
  }

  /** The level of the pin after the writes `levels`, starting from `start`. */
  function LastLevel(start: bool, levels: seq<bool>): bool
  {
    if |levels| == 0 then start else levels[|levels| - 1]
  }

  /** Every driver call in `log` happened no earlier than `from` and no later
      than `to`, and the calls are in time order. */
  predicate Chronological(log: seq<Action>, from: int, to: int)
  {
    && (forall i | 0 <= i < |log| :: from <= log[i].at <= to)
    && (forall i, j | 0 <= i < j < |log| :: log[i].at <= log[j].at)
  }

  /** The reachable states. The gate is high exactly while the sequence is
      pulsing; a pulsing sequence always has an alarm pending (so the gate is
      never left high with nothing to turn it off); a pending alarm lies
      between its arming and the clock and was armed either by a zero-cross
      (for `delay`) or, only while pulsing, by the callback (for the
      turn-off delay). */
  ghost predicate Inv(s: State)
  {
    && s.gate == s.triggered
    && s.delay >= MIN_TRIG_DELAY
    && (s.triggered ==> s.timer.Armed?)
    && (s.timer.Armed? ==> s.timer.armedAt <= s.now <= s.timer.Deadline())
    && (s.timer.Armed? ==>
          s.timer.duration == s.delay || (s.triggered && s.timer.duration == TURN_OFF_DELAY))
  }

  lemma {:induction false} GateLevelsAppend(a: seq<Action>, b: seq<Action>)
    ensures GateLevels(a + b) == GateLevels(a) + GateLevels(b)
    decreases |a|
  {
    if a == [] {
      assert a + b == b;
    } else {
      var ab := a + b;
      assert ab[0] == a[0];
      assert ab[1..] == a[1..] + b;
      GateLevelsAppend(a[1..], b);
      calc {
        GateLevels(ab);
        LevelOf(a[0]) + GateLevels(a[1..] + b);
        LevelOf(a[0]) + (GateLevels(a[1..]) + GateLevels(b));
      }
    }
  }

  /** One event keeps the invariant, arms only the two allowed durations,
      writes the gate exactly once on an expiry (to the opposite level) and
      never on a zero-cross, and moves the clock forward. */
  lemma StepFacts(s: State, e: Event)
    requires Inv(s) && Enabled(s, e)
    ensures Inv(Step(s, e).next)
    ensures ArmsWithin(Stamp(Step(s, e).next.now, Step(s, e).commands), s.delay)
    ensures GateLevels(Stamp(Step(s, e).next.now, Step(s, e).commands))
            == if e.Expiry? then [!s.gate] else []
    ensures s.now <= Step(s, e).next.now
  {
    var r := Step(s, e);
    var log := Stamp(r.next.now, r.commands);
    match e
    case ZeroCross(t) =>
      assert log == [Action(t, AlarmUs(s.delay))];
    case Expiry =>
      if s.triggered {
        assert log == [Action(r.next.now, SetGate(false))];
      } else {
        assert log == [Action(r.next.now, SetGate(true)), Action(r.next.now, AlarmUs(TURN_OFF_DELAY))];
        assert log[1..] == [Action(r.next.now, AlarmUs(TURN_OFF_DELAY))];
        assert GateLevels(log[1..]) == [];
        assert GateLevels(log) == [true] + GateLevels(log[1..]);
      }
  }

  /** Any run from a reachable state ends in a reachable state. */
  lemma {:induction false} RunPreservesInv(s: State, es: seq<Event>)
    requires Inv(s)
    ensures Run(s, es).Ran? ==> Inv(Run(s, es).final)
    decreases |es|
  {
    if es != [] && Enabled(s, es[0]) {
      StepFacts(s, es[0]);
      RunPreservesInv(Step(s, es[0]).next, es[1..]);
    }
  }

  /** Joining two logs that arm only the allowed durations gives one. */
  lemma ArmsWithinAppend(a: seq<Action>, b: seq<Action>, delay: int)
    requires ArmsWithin(a, delay) && ArmsWithin(b, delay)
    ensures ArmsWithin(a + b, delay)
  {
  }

  /** Any run from a reachable state arms only `trig_delay` or the turn-off
      delay. */
  lemma {:induction false} RunArmsWithin(s: State, es: seq<Event>)
    requires Inv(s)
    ensures Run(s, es).Ran? ==> ArmsWithin(Run(s, es).log, s.delay)
    decreases |es|
  {
    if es != [] && Enabled(s, es[0]) {
      var step := Step(s, es[0]);
      StepFacts(s, es[0]);
      RunArmsWithin(step.next, es[1..]);
      var r := Run(s, es);
      if r.Ran? {
        var head := Stamp(step.next.now, step.commands);
        var tail := Run(step.next, es[1..]).log;
        assert r.log == head + tail;
        ArmsWithinAppend(head, tail, s.delay);
      }
    }
  }

  /** An alternating run of writes ends at the starting level exactly when it
      has an even number of writes. */
  lemma {:induction false} AlternatingParity(start: bool, levels: seq<bool>)
    requires Alternating(start, levels)
    ensures LastLevel(start, levels) == (start != (|levels| % 2 == 1))
    decreases |levels|
  {
    if |levels| > 0 {
      var init := levels[..|levels| - 1];
      assert Alternating(start, init) by {
        forall i | 0 < i < |init|
          ensures init[i] != init[i - 1]
        {
          assert init[i] == levels[i] && init[i - 1] == levels[i - 1];
        }
      }
      AlternatingParity(start, init);
      if |init| > 0 {
        assert LastLevel(start, init) == levels[|levels| - 2];
      }
    }
  }

  /** Writing the opposite level first keeps a run of writes alternating. */
  lemma AlternatingPrepend(start: bool, rest: seq<bool>)
    requires Alternating(!start, rest)
    ensures Alternating(start, [!start] + rest)
    ensures LastLevel(start, [!start] + rest) == LastLevel(!start, rest)
  {
  }

  /** Along any run from a reachable state the gate writes alternate, starting
      with the level opposite to the current one, and the gate ends at the
      last level written. */
  lemma {:induction false} RunGateAlternates(s: State, es: seq<Event>)
    requires Inv(s)
    ensures Run(s, es).Ran? ==> Alternating(s.gate, GateLevels(Run(s, es).log))
    ensures Run(s, es).Ran? ==> Run(s, es).final.gate == LastLevel(s.gate, GateLevels(Run(s, es).log))
    ensures Run(s, es).Ran? ==> |GateLevels(Run(s, es).log)| == ExpiryCount(es)
    decreases |es|
  {
    if es != [] && Enabled(s, es[0]) {
      var step := Step(s, es[0]);
      StepFacts(s, es[0]);
      RunGateAlternates(step.next, es[1..]);
      var r := Run(s, es);
      if r.Ran? {
        var head := Stamp(step.next.now, step.commands);
        var tail := Run(step.next, es[1..]).log;
        assert r.log == head + tail;
        GateLevelsAppend(head, tail);
        var rest := GateLevels(tail);
        if es[0].Expiry? {
          assert GateLevels(r.log) == [!s.gate] + rest;
          AlternatingPrepend(s.gate, rest);
        } else {
          assert GateLevels(r.log) == rest;
        }
      }
    }
  }

  /** Calls made at one instant `t`, followed by calls in time order from
      `t` on, are in time order. */
  lemma ChronologicalPrepend(head: seq<Action>, tail: seq<Action>, from: int, t: int, to: int)
    requires from <= t <= to
    requires forall i | 0 <= i < |head| :: head[i].at == t
    requires Chronological(tail, t, to)
    ensures Chronological(head + tail, from, to)
  {
  }

  /** Any run from a reachable state makes its driver calls in time order,
      between the clock it starts from and the clock it ends at. */
  lemma {:induction false} RunChronological(s: State, es: seq<Event>)
    requires Inv(s)
    ensures Run(s, es).Ran? ==> Run(s, es).final.now >= s.now
    ensures Run(s, es).Ran? ==> Chronological(Run(s, es).log, s.now, Run(s, es).final.now)
    decreases |es|
  {
    if es != [] && Enabled(s, es[0]) {
      var step := Step(s, es[0]);
      StepFacts(s, es[0]);
      RunChronological(step.next, es[1..]);
      var r := Run(s, es);
      if r.Ran? {
        var head := Stamp(step.next.now, step.commands);
        var tail := Run(step.next, es[1..]).log;
        assert r.log == head + tail;
        ChronologicalPrepend(head, tail, s.now, step.next.now, r.final.now);
      }
    }
  }

  /** From any start-up state, after any sequence of zero-crossings and
      expiries, the gate is high exactly when the triac is marked triggered. */
  lemma GateMatchesState(s: State, es: seq<Event>)
    requires AtStartUp(s)
    ensures Run(s, es).Ran? ==> Run(s, es).final.gate == Run(s, es).final.triggered
  {
    RunPreservesInv(s, es);
  }

  /** From any start-up state, every alarm ever armed lasts `MIN_TRIG_DELAY`
      or `TURN_OFF_DELAY` microseconds, so never less than the minimum delay. */
  lemma ArmedDurationsBounded(s: State, es: seq<Event>)
    requires AtStartUp(s)
    ensures Run(s, es).Ran? ==> ArmsWithin(Run(s, es).log, MIN_TRIG_DELAY)
    ensures Run(s, es).Ran? ==>
              forall i | 0 <= i < |Run(s, es).log| ::
                Run(s, es).log[i].command.AlarmUs? ==> Run(s, es).log[i].command.us >= MIN_TRIG_DELAY
  {
    RunArmsWithin(s, es);
  }

  /** From any start-up state the gate writes go high, low, high, low, ...,
      one per expiry: the sequence strictly alternates Idle, Pulsing, Idle
      across expiries and is Pulsing exactly after an odd number of them. */
  lemma ExpiriesAlternate(s: State, es: seq<Event>)
    requires AtStartUp(s)
    ensures Run(s, es).Ran? ==> Alternating(false, GateLevels(Run(s, es).log))
    ensures Run(s, es).Ran? ==> |GateLevels(Run(s, es).log)| == ExpiryCount(es)
    ensures Run(s, es).Ran? ==> Run(s, es).final.triggered == (ExpiryCount(es) % 2 == 1)
  {
    RunPreservesInv(s, es);
    RunGateAlternates(s, es);
    if Run(s, es).Ran? {
      AlternatingParity(false, GateLevels(Run(s, es).log));
    }
  }

  /** From any start-up state, whenever the gate is high an alarm is pending
      and its expiry drives the gate low. This does not promise that the
      expiry ever comes: each zero-cross re-arms the alarm, so edges closer
      together than `trig_delay` keep the gate high (see the overlap
      hazard). */
  lemma GateHighHasTurnOff(s: State, es: seq<Event>)
    requires AtStartUp(s)
    ensures Run(s, es).Ran? && Run(s, es).final.gate ==>
              && Enabled(Run(s, es).final, Expiry)
              && !Step(Run(s, es).final, Expiry).next.gate
  {
    RunPreservesInv(s, es);
  }
}
