/**
 * `LED`: one PWM-driven LED that can be lit steadily or flash. The pin's
 * output is the last value written with `analogWrite`; `millis()` is the
 * parameter `now`.
 */
module Leds {
  import opened Arduino
  import opened Brightness

  /** `_interval`: the half-period of flashing, in milliseconds. */
  const FLASH_INTERVAL: ULong := 500

  class Led {
    const pin: Byte
    var brightness: Byte
    var flashing: bool
    var isOn: bool
    var lastToggleTime: ULong
    /** The value last written to the pin. */
    var output: Byte

    /** The brightness is the initial 255 or a value of the 1..10 scale, never dark. */
    ghost predicate Valid()
      reads this
    {
      MIN_PWM <= brightness <= MAX_PWM
    }

    constructor(pin: Byte)
      ensures Valid()
      ensures this.pin == pin && brightness == 255
      ensures !flashing && !isOn && lastToggleTime == 0 && output == 0
    {
      this.pin := pin;
      brightness := 255;
      flashing := false;
      isOn := false;
      lastToggleTime := 0;
      output := 0;
    }

    /** `on(shouldFlash)`: steady light, or exactly `flash()` when asked to flash. */
    method On(shouldFlash: bool, now: ULong)
      requires Valid()
      modifies this
      ensures Valid() && brightness == old(brightness)
      ensures shouldFlash ==> flashing && !isOn && output == 0 && lastToggleTime == now
      ensures !shouldFlash ==>
        !flashing && output == brightness && isOn == old(isOn) && lastToggleTime == old(lastToggleTime)
    {
      if shouldFlash {
        Flash(now);
        return;
      }
      flashing := false;
      output := brightness;
    }

    /** `off()`: stop flashing and write 0. */
    method Off()
      requires Valid()
      modifies this
      ensures Valid() && brightness == old(brightness)
      ensures !flashing && output == 0
      ensures isOn == old(isOn) && lastToggleTime == old(lastToggleTime)
    {
      flashing := false;
      output := 0;
    }

    /** `setBrightness(level)`: clamp the level, scale it; the pin keeps its current value. */
    method SetBrightness(level: Byte)
      requires Valid()
      modifies this
      ensures Valid()
      ensures brightness == LevelBrightness(level)
      ensures flashing == old(flashing) && isOn == old(isOn)
      ensures lastToggleTime == old(lastToggleTime) && output == old(output)
    {
      var l := level;
      if l < 1 { l := 1; }
      if l > 10 { l := 10; }
      brightness := MapRange(l, 1, 10, 25, 255);
    }

    /** `flash()`: start flashing from the dark half, timed from `now`. */
    method Flash(now: ULong)
      requires Valid()
      modifies this
      ensures Valid() && brightness == old(brightness)
      ensures flashing && lastToggleTime == now && !isOn && output == 0
    {
      flashing := true;
      lastToggleTime := now;
      isOn := false;
      output := 0;
    }

    /**
     * `loop()`: while flashing, toggle once at least `_interval` ms (counted
     * with wrap-around) have passed since the last toggle; otherwise nothing.
     */
    method Loop(now: ULong)
      requires Valid()
      modifies this
      ensures Valid() && brightness == old(brightness) && flashing == old(flashing)
      ensures old(flashing) && Elapsed(now, old(lastToggleTime)) >= FLASH_INTERVAL ==>
        isOn == !old(isOn) && output == (if isOn then brightness else 0) && lastToggleTime == now
      ensures !(old(flashing) && Elapsed(now, old(lastToggleTime)) >= FLASH_INTERVAL) ==>
        isOn == old(isOn) && output == old(output) && lastToggleTime == old(lastToggleTime)
    {
      if flashing && Elapsed(now, lastToggleTime) >= FLASH_INTERVAL {
        isOn := !isOn;
        output := if isOn then brightness else 0;
        lastToggleTime := now;
      }
    }
  }
}
