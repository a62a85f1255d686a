/**
 * The brightness scale shared by `LED::setBrightness` and both
 * `LEDControl::setBrightness` variants: a level from 1 to 10 (anything
 * outside is clamped) scaled onto the PWM range 25..255.
 */
module Brightness {
  import opened Arduino

  const MIN_LEVEL := 1
  const MAX_LEVEL := 10
  const MIN_PWM := 25
  const MAX_PWM := 255

  /** The two `if`s of `setBrightness`: below 1 becomes 1, above 10 becomes 10. */
  function ClampLevel(level: int): (l: int)
    ensures MIN_LEVEL <= l <= MAX_LEVEL
    ensures MIN_LEVEL <= level <= MAX_LEVEL ==> l == level
    ensures level < MIN_LEVEL ==> l == MIN_LEVEL
    ensures level > MAX_LEVEL ==> l == MAX_LEVEL
  {
    var l := if level < MIN_LEVEL then MIN_LEVEL else level;
    if l > MAX_LEVEL then MAX_LEVEL else l
  }

  /** `map(level, 1, 10, 25, 255)` after the clamp. */
  function LevelBrightness(level: int): (b: int)
    ensures MIN_PWM <= b <= MAX_PWM
    ensures b == (ClampLevel(level) - 1) * 230 / 9 + 25
  {
    var l := ClampLevel(level);
    assert 0 <= (l - 1) * 230 <= 9 * 230;
    MapRange(l, MIN_LEVEL, MAX_LEVEL, MIN_PWM, MAX_PWM)
  }

  /** The ends of the scale: level 1 (or less) is 25, level 10 (or more) is 255. */
  lemma BrightnessEnds(level: int)
    ensures level <= 1 ==> LevelBrightness(level) == 25
    ensures level >= 10 ==> LevelBrightness(level) == 255
  {
  }

  /** A higher requested level never gives a dimmer light. */
  lemma BrightnessMonotone(a: int, b: int)
    requires a <= b
    ensures LevelBrightness(a) <= LevelBrightness(b)
  {
    var la, lb := ClampLevel(a), ClampLevel(b);
    assert 0 <= (la - 1) * 230 <= (lb - 1) * 230;
  }
}
