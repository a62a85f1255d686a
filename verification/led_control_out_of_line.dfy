/**
 * `LEDControl` as declared in `LEDControl.h` and defined out of line: the
 * same operations, but the constructor gives the brightness no value.
 * The ghost flag `hasBrightness` records whether a level has been set,
 * and `on()` may only be called after that.
 */
module LedControlOutOfLine {
  import opened Arduino
  import opened Brightness

  class LedControl {
    const pin: Byte
    var brightness: Byte
    ghost var hasBrightness: bool
    /** The value last written to the pin. */
    var output: Byte

    ghost predicate Valid()
      reads this
    {
      hasBrightness ==> MIN_PWM <= brightness <= MAX_PWM
    }

    /** The constructor sets only the pin: the brightness is indeterminate. */
    constructor(pin: Byte)
      ensures Valid()
      ensures this.pin == pin && !hasBrightness && output == 0
    {
      this.pin := pin;
      output := 0;
      hasBrightness := false;
    }

    /** `on()`: write the stored brightness, which must have been set. */
    method On()
      requires Valid() && hasBrightness
      modifies this
      ensures Valid() && hasBrightness
      ensures brightness == old(brightness) && output == brightness
    {
      output := brightness;
    }

    /** `off()`: write 0. */
    method Off()
      requires Valid()
      modifies this
      ensures Valid() && hasBrightness == old(hasBrightness)
      ensures brightness == old(brightness) && output == 0
    {
      output := 0;
    }

    /** `setBrightness(level)`: clamp into 1..10, then scale onto 25..255. */
    method SetBrightness(level: Byte)
      requires Valid()
      modifies this
      ensures Valid() && hasBrightness
      ensures brightness == LevelBrightness(level) && output == old(output)
    {
      var l := level;
      if l < 1 { l := 1; }
      if l > 10 { l := 10; }
      brightness := MapRange(l, 1, 10, 25, 255);
      hasBrightness := true;
    }
  }
}
