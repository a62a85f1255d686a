/**
 * `LEDControl` as defined inline in its header: a dimmable LED without
 * flashing, at full brightness until a level is set.
 */
module LedControlInline {
  import opened Arduino
  import opened Brightness

  class LedControl {
    const pin: Byte
    var brightness: Byte
    /** The value last written to the pin. */
    var output: Byte

    ghost predicate Valid()
      reads this
    {
      MIN_PWM <= brightness <= MAX_PWM
    }

    /** The default member initialiser gives 255 before any `setBrightness`. */
    constructor(pin: Byte)
      ensures Valid()
      ensures this.pin == pin && brightness == 255 && output == 0
    {
      this.pin := pin;
      brightness := 255;
      output := 0;
    }

    /** `on()`: write the stored brightness. */
    method On()
      requires Valid()
      modifies this
      ensures Valid()
      ensures brightness == old(brightness) && output == brightness
    {
      output := brightness;
    }

    /** `off()`: write 0; the stored brightness is kept for the next `on()`. */
    method Off()
      requires Valid()
      modifies this
      ensures Valid()
      ensures brightness == old(brightness) && output == 0
    {
      output := 0;
    }

    /** `setBrightness(level)`: clamp into 1..10, then scale onto 25..255; the pin is not written. */
    method SetBrightness(level: Byte)
      requires Valid()
      modifies this
      ensures Valid()
      ensures brightness == LevelBrightness(level) && output == old(output)
    {
      var l := level;
      if l < 1 { l := 1; }
      if l > 10 { l := 10; }
      brightness := MapRange(l, 1, 10, 25, 255);
    }
  }
}
