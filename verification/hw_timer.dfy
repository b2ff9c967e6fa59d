/** The chip's single hardware timer as the firmware uses it: `hw_timer_init` is
    called once, so there is one timer, and every alarm is armed with reload
    disabled, so an alarm fires once and is then gone. Arming it again while an
    alarm is pending replaces the pending alarm; there is no cancel. */
module HwTimer {

  /** At most one alarm is outstanding. An armed alarm remembers when it was
      armed and for how many microseconds. */
  datatype Timer = Disarmed | Armed(armedAt: int, duration: int)
  {
    /** The instant at which the pending alarm expires. */
    function Deadline(): int
      requires Armed?
    {
      armedAt + duration
    }
  }
}
