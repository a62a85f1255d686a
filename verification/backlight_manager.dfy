/**
 * `BacklightManager`: the same inactivity timeout as `Backlight`, driving
 * the inline `LEDControl` instead of an `LED`.
 */
module BacklightManagers {
  import opened Arduino
  import opened LedControlInline
  import opened Inactivity

  class BacklightManager {
    const led: LedControl
    const timeout: ULong
    var lastActivity: ULong
    var isOn: bool

    ghost predicate Valid()
      reads this, led
    {
      led.Valid()
    }

    /** The timer state held in the fields. */
    function State(): Timer
      reads this
    {
      Timer(isOn, lastActivity)
    }

    constructor(led: LedControl, timeoutMs: ULong := DEFAULT_TIMEOUT)
      requires led.Valid()
      ensures Valid() && this.led == led && timeout == timeoutMs
      ensures State() == Initial
    {
      this.led := led;
      timeout := timeoutMs;
      lastActivity := 0;
      isOn := false;
    }

    /** `begin()`: LED off, timer restarted at `now`. */
    method Begin(now: ULong)
      requires Valid()
      modifies this, led
      ensures Valid() && State() == Inactivity.Begin(now)
      ensures led.output == 0 && led.brightness == old(led.brightness)
    {
      led.Off();
      isOn := false;
      lastActivity := now;
    }

    /** `registerActivity()`: restart the timer; `on()` only if the light was off. */
    method RegisterActivity(now: ULong)
      requires Valid()
      modifies this, led
      ensures Valid() && State() == Activity(old(State()), now)
      ensures old(isOn) ==> unchanged(led)
      ensures !old(isOn) ==> led.output == led.brightness && led.brightness == old(led.brightness)
    {
      lastActivity := now;
      if !isOn {
        led.On();
        isOn := true;
      }
    }

    /** `update()`: switch off exactly when the timer has run out. */
    method Update(now: ULong)
      requires Valid()
      modifies this, led
      ensures Valid() && State() == Inactivity.Update(old(State()), timeout, now)
      ensures TimedOut(old(State()), timeout, now) ==> led.output == 0 && led.brightness == old(led.brightness)
      ensures !TimedOut(old(State()), timeout, now) ==> unchanged(led)
    {
      if isOn && Elapsed(now, lastActivity) >= timeout {
        led.Off();
        isOn := false;
      }
    }
  }
}
