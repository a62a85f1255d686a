/**
 * `StatusLEDs`: a red, an orange and a green LED of which `setState`
 * lights exactly one for the current alarm state.
 */
module StatusLights {
  import opened Options
  import opened Arduino
  import opened AlarmStates
  import opened Leds

  const RED_LED_PIN: Byte := 32
  const ORANGE_LED_PIN: Byte := 4
  const GREEN_LED_PIN: Byte := 5

  datatype Colour = Red | Orange | Green

  /** The LED `setState` lights for a state value (the enumerator's integer). */
  function LitColour(state: int): (c: Colour)
    ensures c == Red <==> FromCode(state) in {Some(Away), Some(Sleep)}
    ensures c == Orange <==> FromCode(state) in {Some(Alert), Some(Schedule)}
  {
    if state == Away.Code() || state == Sleep.Code() then Red
    else if state == Alert.Code() || state == Schedule.Code() then Orange
    else Green
  }

  /**
   * Away and Sleep light red, Alert and Schedule orange, and every other
   * value green: Home, Disarmed, Unknown, and any integer that names no
   * enumerator.
   */
  lemma ColourOfState(state: int)
    ensures LitColour(state) == Red <==> state in {1, 2}
    ensures LitColour(state) == Orange <==> state in {3, 8}
    ensures LitColour(state) == Green <==> FromCode(state) in {None, Some(Home), Some(Disarmed), Some(Unknown)}
  {
  }

  class StatusLeds {
    const red: Led
    const orange: Led
    const green: Led

    ghost predicate Valid()
      reads this, red, orange, green
    {
      && red != orange && red != green && orange != green
      && red.Valid() && orange.Valid() && green.Valid()
    }

    constructor()
      ensures Valid() && fresh(red) && fresh(orange) && fresh(green)
      ensures red.pin == RED_LED_PIN && orange.pin == ORANGE_LED_PIN && green.pin == GREEN_LED_PIN
      ensures AsNew(red) && AsNew(orange) && AsNew(green)
    {
      red := new Led(RED_LED_PIN);
      orange := new Led(ORANGE_LED_PIN);
      green := new Led(GREEN_LED_PIN);
    }

    /** True when `led` is as `LED`'s constructor leaves it: full brightness, dark, not flashing. */
    ghost predicate AsNew(led: Led)
      reads led
    {
      led.brightness == 255 && led.output == 0 && !led.flashing && !led.isOn && led.lastToggleTime == 0
    }

    /** True when `led` is lit steadily at its brightness. */
    ghost predicate Steady(led: Led)
      reads led
    {
      !led.flashing && led.output == led.brightness
    }

    /** True when `led` is dark and not flashing. */
    ghost predicate Dark(led: Led)
      reads led
    {
      !led.flashing && led.output == 0
    }

    /**
     * `setState(int)` and `setState(AlarmState)`: all three off, then the one
     * chosen by `LitColour` on, steadily. `now` is the clock reading, which a
     * steady `on()` never uses.
     */
    method SetState(state: int, now: ULong)
      requires Valid()
      modifies red, orange, green
      ensures Valid()
      ensures if LitColour(state) == Red then Steady(red) else Dark(red)
      ensures if LitColour(state) == Orange then Steady(orange) else Dark(orange)
      ensures if LitColour(state) == Green then Steady(green) else Dark(green)
      ensures (if red.output > 0 then 1 else 0) + (if orange.output > 0 then 1 else 0)
            + (if green.output > 0 then 1 else 0) == 1
      ensures red.brightness == old(red.brightness) && orange.brightness == old(orange.brightness)
      ensures green.brightness == old(green.brightness)
    {
      red.Off();
      orange.Off();
      green.Off();

      if state == Away.Code() || state == Sleep.Code() {
        red.On(false, now);
        return;
      }

      if state == Alert.Code() || state == Schedule.Code() {
        orange.On(false, now);
        return;
      }

      green.On(false, now);
    }

    /** The `AlarmState` overload: the same as the integer one on the enumerator's value. */
    method SetAlarmState(state: AlarmState, now: ULong)
      requires Valid()
      modifies red, orange, green
      ensures Valid()
      ensures if LitColour(state.Code()) == Red then Steady(red) else Dark(red)
      ensures if LitColour(state.Code()) == Orange then Steady(orange) else Dark(orange)
      ensures if LitColour(state.Code()) == Green then Steady(green) else Dark(green)
      ensures red.brightness == old(red.brightness) && orange.brightness == old(orange.brightness)
      ensures green.brightness == old(green.brightness)
    {
      SetState(state.Code(), now);
    }

    /**
     * `setBrightness(int)`: every LED gets the same level. The `int` is
     * passed to `LED::setBrightness(uint8_t)`, which keeps its low 8 bits.
     */
    method SetBrightness(brightness: int)
      requires Valid()
      modifies red, orange, green
      ensures Valid()
      ensures red.brightness == orange.brightness == green.brightness
      ensures red.brightness == Brightness.LevelBrightness(ToByte(brightness))
      ensures red.output == old(red.output) && orange.output == old(orange.output)
      ensures green.output == old(green.output)
      ensures red.flashing == old(red.flashing) && red.isOn == old(red.isOn)
      ensures red.lastToggleTime == old(red.lastToggleTime)
      ensures orange.flashing == old(orange.flashing) && orange.isOn == old(orange.isOn)
      ensures orange.lastToggleTime == old(orange.lastToggleTime)
      ensures green.flashing == old(green.flashing) && green.isOn == old(green.isOn)
      ensures green.lastToggleTime == old(green.lastToggleTime)
    {
      red.SetBrightness(ToByte(brightness));
      orange.SetBrightness(ToByte(brightness));
      green.SetBrightness(ToByte(brightness));
    }
  }
}
