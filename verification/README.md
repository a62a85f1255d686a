# Homey alarm keypad — a Dafny model

This project models the firmware of an ESP32 alarm keypad that talks to a
Homey home-automation hub. The keypad has a 4×3 key matrix, a small display,
a buzzer, a dimmable backlight and three status LEDs (red, orange and green).

The user types `<PIN>*<code>#`. A correct PIN with a registered code does one
of the following:
- selects an alarm state (HOME 0, AWAY 1, SLEEP 2, ALERT 3, SCHEDULE 8);
- restarts the board (88);
- shows an info screen (77);
- plays a tune (1990);
- changes the PIN (`<PIN>*99*<new PIN>`).

Homey can also set the state directly ("Set Alarm State"). It can relay the
state of an external (Eufy) alarm system as a text token, which is normalised
and looked up in a table. A state set that way is *acknowledged*.

The model has two layers:

- **Pure functions over values.** Module `Commands` describes every command
  routine of `main.cpp` as a function. Each function takes the three globals
  `state`, `stateAcknowledged` and `pinCode` (an `Alarm`). It returns the
  `Alarm` the routine leaves and its outward effects as a list of `Event`s:
  tones, redraws, Homey pushes and triggers, restarts. A `Panel` adds the
  key-entry globals and the log of events, and `Key`/`Keys` give one pass of
  `loop()` per key press. The properties of the command engine are proved as
  lemmas about these functions.
- **Imperative code.** Class `KeypadFirmware.Keypad` holds the globals as
  fields and has one method per routine, written statement by statement as
  in the firmware. Each method is proved to have exactly the effect of its
  `Commands` counterpart. The search of the status-text table in
  `displayState` is a loop, proved against the function `StatusText`.

The hardware helpers are classes with `modifies` frames, because the firmware
updates their fields in place:
- `LED` (steady or flashing, with a wrapping `millis()` timer);
- `StatusLEDs`, which lights exactly one colour per state;
- `Backlight` and `BacklightManager`, which time out after inactivity;
- both versions of `LEDControl`.

The shared inactivity timer is a state machine over values (`Inactivity`),
and each backlight class is proved to follow it. `AlarmState.hpp`'s token
lookup and `UptimeFormatter` are pure functions.

Integer widths are written out:
- `unsigned long` arithmetic wraps at 2^32 (`Elapsed`, `ToUnsigned`);
- the `uint8_t` state and brightness keep the low eight bits (`ToByte`);
- the signed/unsigned comparison in `parseCommand` is made explicit.

`millis()` is the parameter `now`; `Homey.value` is the parameter `value`.

Some of the firmware's behaviour looks surprising. The model keeps it as
written and proves it:
- code 9 (`CMD_DISARM`) is declared but not registered, so it is rejected;
- a PIN that contains `*` can never be entered again;
- `<PIN>**5` and the bare `<PIN>` both select HOME;
- "Set Alarm State" stores the value modulo 256;
- a PIN change without a second `*` is silent.

## Model

| member | source | states |
|---|---|---|
| Arduino.ToUnsigned | src/main.cpp:262 | An `int` taken as 32-bit `unsigned`: unchanged when in range, plus 2^32 when negative, always congruent modulo 2^32 |
| Arduino.Elapsed | src/LED.hpp:39 | `millis() - last` on `unsigned long`: the plain difference, or the difference plus 2^32 once the clock has wrapped past `last` |
| Arduino.MapRange | src/LED.hpp:28 | Arduino `map` with a truncating division; the low end of the input range maps to the low end of the output range, and the high end to the high end |
| Arduino.ToLower | src/AlarmState.hpp:30 | `tolower` gives no capital letter; it adds 32 to an ASCII capital and leaves every other character as it was |
| Arduino.DecimalString | src/UptimeFormatter.hpp:22 | `String(n)` is a non-empty run of decimal digits with no leading zero |
| Arduino.LeadingDigits | src/main.cpp:265 | The digit run `toInt` reads: a prefix made only of digits, followed by a non-digit or the end |
| Arduino.TrimStart | src/AlarmState.hpp:29 | Leading-whitespace removal gives text that is no longer and does not start with whitespace |
| Arduino.TrimStartSkipsSpaces | src/AlarmState.hpp:29 | What is dropped is exactly a run of whitespace at the front; the rest is an unchanged suffix |
| Arduino.ToInt | src/main.cpp:265 | `String::toInt` (`atol`): the result is negative only when the text, after its leading whitespace, starts with `-` |
| Arduino.ToByte | src/main.cpp:368 | Storing an `int` in the `uint8_t` state: unchanged in 0..255, and 256 added to values in -256..-1 |
| Arduino.DecimalStringValue | src/UptimeFormatter.hpp:22 | Reading back the digits of `String(n)` gives `n` |
| Arduino.LeadingDigitsOfDigits | src/main.cpp:265 | The digit run of digits followed by a non-digit is exactly those digits |
| Arduino.ToIntDecimal | src/main.cpp:265 | `String(n).toInt() == n`, also when a non-digit follows the number |
| Arduino.ToIntNegative | src/main.cpp:368 | A minus sign before the digits of `n` reads as `-n` |
| Arduino.ToIntMinus | src/main.cpp:368 | After a leading `-`, the digit run is read and negated |
| Arduino.ToIntNoDigits | src/main.cpp:265 | Text starting with neither whitespace, sign nor digit reads as 0 |
| AlarmStates.AlarmState.Code | src/AlarmState.hpp:7-15 | The enumerator values lie in -1..9, and -1 is exactly UNKNOWN |
| AlarmStates.FromCode | src/AlarmState.hpp:7-15 | Decoding an integer gives, when it succeeds, the enumerator with that value |
| AlarmStates.CodeRoundTrip | src/AlarmState.hpp:7-15 | Decoding the value of any enumerator gives that enumerator back, so the values are distinct |
| AlarmStates.TrimEnd | src/AlarmState.hpp:29 | Trailing-whitespace removal keeps a prefix, drops only whitespace, and leaves no whitespace at the end |
| AlarmStates.LowerCase | src/AlarmState.hpp:30 | `toLowerCase` keeps the length and lower-cases each character in place |
| AlarmStates.Normalize | src/AlarmState.hpp:27-32 | `normalizeString` never lengthens the token and leaves no capital letter in it |
| AlarmStates.NormalizeShape | src/AlarmState.hpp:27-32 | A normalised token has no whitespace at either end and no capital letter |
| AlarmStates.LowerKeepsSpace | src/AlarmState.hpp:30 | Lower-casing neither creates nor removes whitespace |
| AlarmStates.NormalizeIdempotent | src/AlarmState.hpp:27-32 | Normalising twice is the same as normalising once |
| AlarmStates.FromEufyStateNormalizes | src/AlarmState.hpp:34-45 | The lookup result depends only on the normalised token, so case and surrounding blanks are ignored |
| AlarmStates.NormalOfNormal | src/AlarmState.hpp:27-32 | A trimmed, lower-case token is its own normal form |
| AlarmStates.NormalTokenSelects | src/AlarmState.hpp:34-45 | A token already in normal form is looked up as it is |
| AlarmStates.Lookup | src/AlarmState.hpp:36-44 | The table `find` gives UNKNOWN exactly for a token outside the table, and otherwise the table's entry |
| AlarmStates.FromEufyState | src/AlarmState.hpp:34-45 | `fromEufyState` gives UNKNOWN exactly when the normalised token is not in the table |
| AlarmStates.EufyTokens | src/AlarmState.hpp:18-25 | Each of the six table tokens selects its own state |
| AlarmStates.EufyTokenCaseAndBlanks | src/AlarmState.hpp:34-45 | "HOME " (capitals, trailing blank) selects HOME |
| AlarmStates.LookupMiss | src/AlarmState.hpp:36-44 | A lookup gives UNKNOWN exactly for a token outside the table; every hit has a value in {0,1,2,3,8,9} |
| AlarmStates.FromEufyStateMiss | src/AlarmState.hpp:34-45 | `fromEufyState` gives UNKNOWN exactly when the normalised token is not one of the six; a hit is never UNKNOWN |
| AlarmStates.LookupInjective | src/AlarmState.hpp:18-25 | No two table tokens select the same state |
| AlarmStates.EufyMappingInjective | src/AlarmState.hpp:34-45 | Two recognised tokens that select the same state have the same normal form |
| Uptime.Split | src/UptimeFormatter.hpp:10-17 | Seconds and minutes are below 60 and hours below 24, and together they add up to the whole seconds of `millis()` |
| Uptime.GetUptime | src/UptimeFormatter.hpp:7-41 | The uptime text always ends with the seconds segment of the split clock reading |
| Uptime.Format | src/UptimeFormatter.hpp:19-40 | Whatever units are shown, the text ends with "<s> second", plus "s" unless s is 1 |
| Uptime.FirstShown | src/UptimeFormatter.hpp:21-35 | The first unit shown is the largest non-zero one; every larger unit is zero |
| Uptime.JoinFour | src/UptimeFormatter.hpp:19-38 | Joining one to four segments with ", " gives the segments in order, with a separator between each pair |
| Uptime.AppendsFromDays | src/UptimeFormatter.hpp:21-38 | The four conditional appends, all taken, give the join of the four unit segments |
| Uptime.AppendsFromHours | src/UptimeFormatter.hpp:26-38 | Without days, the appends from hours on give the join of three segments |
| Uptime.AppendsFromMinutes | src/UptimeFormatter.hpp:31-38 | Without days and hours, the appends give the join of minutes and seconds |
| Uptime.AppendsSecondsOnly | src/UptimeFormatter.hpp:37-38 | With only seconds, the result is the seconds segment |
| Uptime.FormatFromDays | src/UptimeFormatter.hpp:19-40 | With at least one day, all four units are shown |
| Uptime.FormatFromHours | src/UptimeFormatter.hpp:19-40 | With no days but some hours, hours, minutes and seconds are shown |
| Uptime.FormatFromMinutes | src/UptimeFormatter.hpp:19-40 | With only minutes and seconds, those two are shown |
| Uptime.FormatSecondsOnly | src/UptimeFormatter.hpp:19-40 | Under a minute, only the seconds are shown |
| Uptime.FormatIsJoin | src/UptimeFormatter.hpp:19-40 | The formatter equals an independent reference: the units from the largest non-zero one down, each pluralised unless it is 1, joined by ", " |
| Uptime.UptimeIsJoin | src/UptimeFormatter.hpp:7-41 | `getUptime` equals that reference on the split of the clock reading |
| Uptime.UptimeUnitsShown | src/UptimeFormatter.hpp:21-38 | Days appear exactly when there is a day; hours when there are hours or days; minutes likewise; seconds always, last |
| Uptime.JoinEndsWithLast | src/UptimeFormatter.hpp:19-38 | A ", "-join ends with its last segment |
| Uptime.UptimeEndsWithSeconds | src/UptimeFormatter.hpp:37-40 | The text always ends with "<n> second", plus "s" unless n is 1 |
| Uptime.UptimeBelowOneSecond | src/UptimeFormatter.hpp:7-41 | Under one second of uptime the text is "0 seconds" |
| Uptime.UptimeFiftyNineSeconds | src/UptimeFormatter.hpp:7-41 | 59 000 ms reads "59 seconds" |
| Uptime.FormatAllOnes | src/UptimeFormatter.hpp:19-40 | One of each unit is written entirely in the singular |
| Uptime.UptimeAllSingular | src/UptimeFormatter.hpp:7-41 | 90 061 000 ms reads "1 day, 1 hour, 1 minute, 1 second" |
| Brightness.ClampLevel | src/LED.hpp:25-26 | The level is forced into 1..10: unchanged inside, 1 below, 10 above |
| Brightness.LevelBrightness | src/LED.hpp:24-29 | The stored brightness is always in 25..255 and is the linear scaling of the clamped level |
| Brightness.BrightnessEnds | src/LED.hpp:24-29 | Level 1 or below gives 25; level 10 or above gives 255 |
| Brightness.BrightnessMonotone | src/LED.hpp:24-29 | A higher level never gives a dimmer LED |
| Leds.Led.constructor | src/LED.hpp:7 | A new LED is at full brightness 255, dark and not flashing |
| Leds.Led.On | src/LED.hpp:9-17 | `on(true)` behaves as `flash()`; `on(false)` stops flashing and writes the brightness, leaving the flash timer alone |
| Leds.Led.Off | src/LED.hpp:19-22 | Stops flashing and writes 0; the brightness is kept |
| Leds.Led.SetBrightness | src/LED.hpp:24-29 | The brightness becomes the scaled, clamped level; nothing is written to the pin |
| Leds.Led.Flash | src/LED.hpp:31-36 | Starts flashing from the dark half, timed from now |
| Leds.Led.Loop | src/LED.hpp:38-44 | While flashing, toggles exactly when 500 ms or more have passed (with wrap-around), writing brightness or 0; otherwise changes nothing |
| StatusLights.LitColour | src/StatusLEDs.hpp:19-32 | Red exactly for AWAY and SLEEP, orange exactly for ALERT and SCHEDULE |
| StatusLights.ColourOfState | src/StatusLEDs.hpp:19-32 | AWAY and SLEEP light red, ALERT and SCHEDULE orange; every other value lights green, including one that names no enumerator |
| StatusLights.StatusLeds.constructor | src/StatusLEDs.hpp:8 | Three distinct new LEDs on pins 32, 4 and 5, each at brightness 255, dark, not flashing, with its timer at 0 |
| StatusLights.StatusLeds.SetState | src/StatusLEDs.hpp:12-33 | The LED chosen for the state is lit steadily and the other two are dark, so exactly one is lit; brightness is untouched |
| StatusLights.StatusLeds.SetAlarmState | src/StatusLEDs.hpp:14-33 | The enumerator overload lights the same colour as the integer one and keeps every brightness |
| StatusLights.StatusLeds.SetBrightness | src/StatusLEDs.hpp:35-39 | All three LEDs get the same brightness, from the low eight bits of the `int` level; their outputs, flashing, phase and flash timers are unchanged |
| LedControlInline.LedControl.constructor | src/LEDControl.hpp:7 | Full brightness 255 until a level is set |
| LedControlInline.LedControl.On | src/LEDControl.hpp:9 | Writes the stored brightness |
| LedControlInline.LedControl.Off | src/LEDControl.hpp:11 | Writes 0 and keeps the brightness |
| LedControlInline.LedControl.SetBrightness | src/LEDControl.hpp:13-18 | The brightness becomes the scaled, clamped level; the pin is not written |
| LedControlOutOfLine.LedControl.constructor | src/LEDControl.cpp:3 | Only the pin is set; the brightness has no value yet |
| LedControlOutOfLine.LedControl.On | src/LEDControl.cpp:5 | Writes the stored brightness, which must have been set first |
| LedControlOutOfLine.LedControl.Off | src/LEDControl.cpp:7 | Writes 0 |
| LedControlOutOfLine.LedControl.SetBrightness | src/LEDControl.cpp:9-14 | The brightness becomes the scaled, clamped level and is from then on defined |
| Inactivity.Begin | src/Backlight.hpp:12-16 | `begin()` leaves the light off, with no time elapsed since the last activity |
| Inactivity.Activity | src/Backlight.hpp:18-24 | `registerActivity()` leaves the light on, with no time elapsed since the activity |
| Inactivity.TimedOut | src/Backlight.hpp:27 | The timeout fires only while the light is on: once `now - last` reaches the timeout, counting across a wrap of the 32-bit clock |
| Inactivity.Update | src/Backlight.hpp:26-31 | `update()` keeps the activity time and leaves the light on exactly when it was on and has not timed out |
| Inactivity.UpdateSwitchesOff | src/Backlight.hpp:26-31 | `update` turns the light off exactly when it was on and the timeout has elapsed; the activity time never changes |
| Inactivity.UpdateIdempotent | src/Backlight.hpp:26-31 | A second `update` at the same instant changes nothing |
| Inactivity.ActivityThenUpdateStaysOn | src/Backlight.hpp:18-31 | With a positive timeout, activity followed by `update` at the same instant leaves the light on |
| Inactivity.ZeroTimeoutSwitchesOff | src/Backlight.hpp:18-31 | With a zero timeout the same sequence switches the light straight off |
| Inactivity.OnUntilTimeout | src/Backlight.hpp:18-31 | After activity, the light stays on at every `update` less than `timeout` ms later, even across a clock wrap |
| Inactivity.BeginStaysDark | src/Backlight.hpp:12-16 | After `begin` the light is off and no `update` turns it on |
| Backlights.Backlight.constructor | src/Backlight.hpp:9-10 | Off with activity time 0; the timeout defaults to 60 000 ms; the LED is referenced, not changed |
| Backlights.Backlight.Begin | src/Backlight.hpp:12-16 | The LED is off and the timer restarts at now |
| Backlights.Backlight.RegisterActivity | src/Backlight.hpp:18-24 | The timer restarts at now; the LED is switched on only if it was off, and is untouched otherwise |
| Backlights.Backlight.Update | src/Backlight.hpp:26-31 | The timer follows `Inactivity.Update`; the LED is switched off exactly on a timeout and untouched otherwise |
| BacklightManagers.BacklightManager.constructor | src/BacklightManager.hpp:9-10 | Off with activity time 0; the timeout defaults to 60 000 ms |
| BacklightManagers.BacklightManager.Begin | src/BacklightManager.hpp:12-16 | The LED is off and the timer restarts at now |
| BacklightManagers.BacklightManager.RegisterActivity | src/BacklightManager.hpp:18-24 | The timer restarts at now; the LED is switched on only if it was off |
| BacklightManagers.BacklightManager.Update | src/BacklightManager.hpp:26-31 | The timer follows `Inactivity.Update`; the LED is switched off exactly on a timeout |
| Commands.FirstIndex | src/main.cpp:314-319 | The search stops at the first entry with the key; every earlier entry has another key |
| Commands.IndexOf | src/main.cpp:244 | `indexOf(c, from)` gives -1 or a position holding `c`, with no `c` between `from` and it |
| Commands.StatusText | src/main.cpp:309-319 | The text shown is "ERROR" or the text the table holds for that state |
| Commands.MapEufyState | src/main.cpp:399-409 | -1 exactly for a token whose normal form is not in the table; otherwise one of 0, 1, 2, 3, 8, 9 |
| Commands.PinCandidate | src/main.cpp:244-252 | The PIN compared is a prefix of the command without `*`, followed by a `*` or the end |
| Commands.CommandValue | src/main.cpp:257-266 | A command without `*` has code 0 |
| Commands.NewPin | src/main.cpp:457-460 | A new PIN, when found, is a proper suffix of the command right after a `*` |
| Commands.DisplayState | src/main.cpp:300-331 | One redraw, of "ERROR" or of the table's text for the state |
| Commands.TriggerHomey | src/main.cpp:418-427 | At most one trigger, fired exactly for HOME, AWAY, SLEEP, ALERT and SCHEDULE |
| Commands.ApplyState | src/main.cpp:411-416 | The push of the state comes first, the redraw second, and a third event (the trigger) exactly when the state has one |
| Commands.ChangeAlarmState | src/main.cpp:448-454 | The new state is unacknowledged, a state in 0..255 is stored as it is, the PIN is kept; the push comes first and the success tune last |
| Commands.InvalidCommand | src/main.cpp:477-481 | Nothing changes; the error tone plays, then one redraw |
| Commands.HandlePinChange | src/main.cpp:456-470 | The state and acknowledgement are kept; with a second `*` the PIN becomes the text after it and is saved, otherwise nothing at all happens |
| Commands.ExecuteCommand | src/main.cpp:434-446 | Only code 99 can change the PIN, only the five state codes can change the state, and no command acknowledges a state |
| Commands.ParseCommand | src/main.cpp:243-274 | A command under a wrong PIN changes nothing, and no command acknowledges a state |
| Commands.SetState | src/main.cpp:367-372 | "Set Alarm State" keeps the PIN and the acknowledgement and pushes the new state first |
| Commands.HandleEufyStateChange | src/main.cpp:374-385 | The PIN is kept; an unrecognised token has no effect at all, a recognised one is acknowledged and ends with the acknowledge tune |
| Commands.Boot | src/main.cpp:165-210 | After `setup()` the PIN is the stored one, the state is unacknowledged, the entry is empty and hidden, and the display shows "THUIS" (HOME) |
| Commands.Key | src/main.cpp:212-240 | One pass of `loop()` only appends to the event log, and only `#` can change the alarm |
| Commands.Keys | src/main.cpp:212-240 | Any run of key presses only appends to the event log |
| Commands.TypingAppends | src/main.cpp:220-239 | Keys other than `#` append to the entry and leave the alarm alone; the entry stays hidden unless a `*` was typed |
| Commands.SubmitParsesTyped | src/main.cpp:231-236 | Typing a command then `#` parses exactly that command, then empties and hides the entry |
| Commands.EchoHidesPin | src/main.cpp:220-226 | While no `*` has been typed, each key adds exactly its activity, its beep and a `*` on the display: the keys typed never reach the display |
| Commands.SeparatorAfterPin | src/main.cpp:244 | In "<pin>*<rest>" with no `*` in the PIN, the first `*` is right after the PIN |
| Commands.PinCandidateOf | src/main.cpp:244-252 | The PIN compared is the text before the first `*` |
| Commands.NoSeparator | src/main.cpp:247-266 | Without a `*`, the whole entry is the PIN and the code is 0 |
| Commands.CommandValueDecode | src/main.cpp:259-266 | The code is 0 when there is no `*` or the `*` is last; otherwise it is `toInt` of the text after the first `*` |
| Commands.UnsignedTest | src/main.cpp:262 | The mixed signed/unsigned test holds exactly when a `*` exists and is not the last character |
| Commands.CommandValueAfterPin | src/main.cpp:262-265 | After "<pin>*", the code is `toInt` of the rest |
| Commands.CommandValueEmptyRest | src/main.cpp:262 | "<pin>*" with nothing after the `*` decodes as 0 |
| Commands.DecodeWithoutSeparator | src/main.cpp:259-262 | "0000" decodes as 0 |
| Commands.DecodeTrailingSeparator | src/main.cpp:262 | "0000*" decodes as 0 |
| Commands.DecodeDoubleSeparator | src/main.cpp:264-265 | "0000**5" decodes as 0, because the text after the first `*` starts with no digit |
| Commands.DecodeStopsAtSeparator | src/main.cpp:264-265 | "0000*1*5" decodes as 1, because the digit run stops at the second `*` |
| Commands.CodeAfterPin | src/main.cpp:243-266 | "<pin>*<digits of n>" gives PIN `pin` and code `n` |
| Commands.WrongPinRejected | src/main.cpp:269-273 | A wrong PIN only plays the error tone and redraws; state, acknowledgement and PIN are unchanged |
| Commands.StateCommandSelects | src/main.cpp:154-159 | Codes 0, 1, 2, 3 and 8 set that state unacknowledged, then push it, redraw, fire its trigger and play the success tune |
| Commands.StateChangeEffects | src/main.cpp:448-454 | `changeAlarmState` to a state with a trigger sets it unacknowledged, then pushes, redraws, triggers and confirms |
| Commands.StateCommandEntered | src/main.cpp:243-268 | Typing "<pin>*<code>" for a state code selects that state |
| Commands.PinAloneSelectsHome | src/main.cpp:257-268 | The bare PIN, with no `*`, has the effect of code 0 (HOME) |
| Commands.DoubleStarSelectsHome | src/main.cpp:257-268 | "<pin>**5" selects HOME for any PIN without `*`, because the text after the first `*` has no digits |
| Commands.UnregisteredCodeRejected | src/main.cpp:440-444 | Any code outside the handler table, other than 99, only plays the error tone and redraws |
| Commands.DisarmIsRejected | src/main.cpp:147 | "<pin>*9" is rejected: CMD_DISARM is declared but has no handler |
| Commands.AdminCodesKeepAlarm | src/main.cpp:160-162 | Codes 88, 77 and 1990 restart, show info and ask Homey for the state, or play the tune; the alarm is untouched |
| Commands.NewPinAfterTwoStars | src/main.cpp:457-460 | The new PIN is everything after the second `*` |
| Commands.ChangePinCodeValue | src/main.cpp:265 | "99*<new>" reads as code 99 |
| Commands.PinChangeCode | src/main.cpp:243-268 | "<pin>*99*<new>" is accepted and decodes as code 99 |
| Commands.PinChangeSetsPin | src/main.cpp:456-468 | A PIN change stores exactly the new PIN, saves it and plays the success tune twice; the state is untouched |
| Commands.MalformedPinChangeSilent | src/main.cpp:469 | "<pin>*99" with no second `*` changes nothing and makes no sound |
| Commands.PinChangeRoundTrip | src/main.cpp:456-468 | After a PIN change, the new PIN selects HOME and the old PIN (if different) is rejected |
| Commands.HomeCommandAccepted | src/main.cpp:243-268 | "<pin>*0" selects HOME |
| Commands.OtherPinRejected | src/main.cpp:269-273 | A command under another PIN leaves the alarm unchanged |
| Commands.StarPinLocksOut | src/main.cpp:244-257 | Once the PIN holds a `*`, no command can match it and the alarm can no longer be changed from the keys |
| Commands.TokenTablesAgree | src/main.cpp:97-104 | The token table of `main.cpp` holds the same tokens, with the same state values, as the one in `AlarmState.hpp` |
| Commands.MapEufyStateAgrees | src/main.cpp:399-409 | `mapEufyState` equals the value of `fromEufyState`, with -1 for UNKNOWN |
| Commands.EufyMissIgnored | src/main.cpp:377-378 | An unrecognised token changes nothing and has no effect |
| Commands.EufyHitAcknowledged | src/main.cpp:374-385 | A recognised token sets its state acknowledged, redraws and plays the acknowledge tune; nothing is pushed or triggered back to Homey |
| Commands.AcknowledgementSource | src/main.cpp:380-381 | A state change from the keys is never acknowledged; a recognised change from Homey always is |
| Commands.TriggerOnlyForStates | src/main.cpp:418-427 | A trigger fires exactly for HOME, AWAY, SLEEP, ALERT and SCHEDULE, and at most one fires |
| Commands.SetStateTruncates | src/main.cpp:367-372 | "Set Alarm State" stores `toInt` modulo 256 and keeps the acknowledgement and the PIN |
| Commands.SetStateRedraws | src/main.cpp:367-372 | It pushes the new state first and ends by drawing the new state's status text |
| Commands.PushFirstRedrawLast | src/main.cpp:411-416 | `applyState` then `displayState` starts with the push and ends with the redraw |
| Commands.SetStateDecimal | src/main.cpp:368 | A decimal value n is stored as n modulo 256 |
| Commands.SetStateNegativeDecimal | src/main.cpp:368 | "-n" (0 < n ≤ 256) is stored as 256 − n |
| Commands.StatusTextOfEntry | src/main.cpp:87-94 | The keys of the text table are distinct, so each state shows its own text |
| Commands.StatusTextFallback | src/main.cpp:311-319 | "ERROR" is shown exactly for values that are not one of the six states |
| KeypadFirmware.FindStatusText | src/main.cpp:309-319 | The loop over the text table finds the same text as `StatusText`: the first match, else "ERROR" |
| KeypadFirmware.Keypad.constructor | src/main.cpp:196-202 | The globals after boot: state 0, unacknowledged, the stored PIN, an empty hidden entry, the status drawn once |
| KeypadFirmware.Keypad.GetState | src/main.cpp:387-390 | Returns the current state |
| KeypadFirmware.Keypad.DisplayState | src/main.cpp:300-331 | Adds the redraw of the current state's text; no global changes |
| KeypadFirmware.Keypad.TriggerHomey | src/main.cpp:418-427 | Fires the state's trigger, or nothing when it has none |
| KeypadFirmware.Keypad.ApplyState | src/main.cpp:411-416 | Pushes the state, redraws, then triggers |
| KeypadFirmware.Keypad.ChangeAlarmState | src/main.cpp:448-454 | Sets the state unacknowledged, applies it and plays the success tune, as `Commands.ChangeAlarmState` |
| KeypadFirmware.Keypad.InvalidCommand | src/main.cpp:477-481 | Error tone, then redraw |
| KeypadFirmware.Keypad.HandlePinChange | src/main.cpp:456-470 | Has exactly the effect of `Commands.HandlePinChange` |
| KeypadFirmware.Keypad.ExecuteCommand | src/main.cpp:434-446 | 99 first, then the handler table, else invalid, as `Commands.ExecuteCommand` |
| KeypadFirmware.Keypad.ParseCommand | src/main.cpp:243-274 | Has exactly the effect of `Commands.ParseCommand` |
| KeypadFirmware.Keypad.SetState | src/main.cpp:367-372 | Has exactly the effect of `Commands.SetState` |
| KeypadFirmware.Keypad.HandleEufyStateChange | src/main.cpp:374-385 | Has exactly the effect of `Commands.HandleEufyStateChange` |
| KeypadFirmware.Keypad.HandleKey | src/main.cpp:218-240 | One key press changes the globals and the event log as `Commands.Key` |

## Left out

- The display, buzzer, tones and tunes, `Serial` logging, `delay` and the pixel layout are not modelled. The routines that use them appear only as `Event`s.
- The Homey library, `esp_restart`, `Preferences` and the WiFi, HTTP and OTA services are calls into code that is not part of this model. Their calls are `Event`s, or are left out (`setup()`'s service start-up).
- `preferences.end()` after the first PIN save (main.cpp line 279) would make later saves fail. `PinSaved` records only the request to save.
- `displayState` calls `statusLEDs.setState(state, stateAcknowledged)`, but `StatusLEDs.hpp` has no two-argument `setState`. That call is left out of `Keypad.DisplayState`. The status LEDs are modelled on their own in `StatusLights`.
- `loop()` calls `statusLEDs.loop()`, which `StatusLEDs.hpp` does not define. It is left out.
- In `loop()`, `backlight.registerActivity()` on the shared backlight object appears as an `Activity` event. The `backlight.update()` call at the top of every pass has no counterpart in `Commands.Key`: a pass with no key leaves the panel as it was. The backlight behaviour itself is in `Backlights`.
- Code 88 calls `esp_restart()`, which never returns: the board reboots, and `setup()` then sets state 0, unacknowledged, and reloads the PIN from flash. The model records only a `Restart` event and keeps the globals as they were; `Keys` carries on from them. The reset after a restart is not modelled.
- `States.h` is not part of this model. Its HOME..DISARMED constants are taken to equal the `AlarmState` values 0, 1, 2, 3, 8 and 9.
- Arduino's `map` is not part of this model. `MapRange` assumes the standard formula with C's truncating division.
- `LEDControl.h`, `SystemState.hpp` and `WifiService.hpp` hold declarations and services only; nothing of theirs is modelled beyond the `LEDControl` class.
- `StatusLEDs::init()` is empty and is not modelled.
- Arduino.ToInt: does not model the overflow of `atol` beyond the range of `long`. Values are unbounded integers.
- Arduino.ToUnsigned: its exact values are stated only for arguments within one 2^32 of the range. Outside that, only the congruence modulo 2^32 is stated.
- Arduino.MapRange: requires `inMin < inMax`. The firmware always calls it as `map(level, 1, 10, 25, 255)`.
- Commands.CommandValueDecode, Commands.CodeAfterPin, Commands.StateCommandEntered, Commands.PinChangeCode, Commands.PinChangeSetsPin, Commands.MalformedPinChangeSilent and Commands.PinChangeRoundTrip require the command to be shorter than 2^32 characters, so that `length() - 1` does not wrap.
- The key alphabet is not restricted to the 12 keys of the matrix. The lemmas hold for any characters, except that the PIN lemmas ask for a PIN without `*`.
- `millis()` is a parameter of every call that reads it, so one call sees one clock value. The two `millis()` reads in `LED::loop` are taken to return the same value.
