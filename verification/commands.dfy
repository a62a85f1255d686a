/**
 * The keypad's command engine of `main.cpp` as functions over values.
 *
 * The process-wide `state`, `stateAcknowledged` and `pinCode` form an
 * `Alarm`; each command-path routine gives the `Alarm` it leaves and the
 * outward effects it has (tones, display redraws, Homey calls, restarts) as
 * a list of `Event`s. A `Panel` adds the key-entry globals `currentCommand`
 * and `shouldHideKeyboardEntry`, and the log of all events so far.
 *
 * The state constants of `States.h` are taken to be the encodings of
 * `AlarmState` (HOME 0, AWAY 1, SLEEP 2, ALERT 3, SCHEDULE 8, DISARMED 9).
 */
module Commands {
  import opened Options
  import opened Arduino
  import opened AlarmStates

  const SEPARATOR := '*'
  const TERMINATOR := '#'
  /** `NO_KEY`: what `getKey()` returns when no key is pressed. */
  const NO_KEY := '\0'

  const CMD_HOME := 0
  const CMD_AWAY := 1
  const CMD_SLEEP := 2
  const CMD_ALERT := 3
  const CMD_SCHEDULE := 8
  const CMD_DISARM := 9
  const CMD_INFO := 77
  const CMD_REBOOT := 88
  const CMD_CHANGE_PIN := 99
  const CMD_EASTER_EGG := 1990

  /** The outward effects of the firmware, in the order they happen. */
  datatype Event =
    | Activity              // backlight.registerActivity()
    | Beep                  // beep()
    | Echo(shown: char)     // displayKeyboardEntry(c)
    | ClearEntry            // clearKeyboardEntry()
    | ErrorTone             // playErrorNotes()
    | SuccessTone           // playSuccessNotes()
    | AckTone               // playAcknowledgeNotes()
    | CapabilityPush(value: int)  // Homey.setCapabilityValue("state", state)
    | Trigger(name: string)       // Homey.trigger(name, true)
    | StateRequest          // requestAlarmStateFromHomey()
    | Redraw(text: string)  // displayState() showing `text`
    | PinSaved(pin: string) // savePinCodeToFlash(pin)
    | Restart               // esp_restart()
    | Info                  // displayInfo()'s screen and delay
    | EasterEgg             // playMonkeyIslandTune()

  /** What a registered command does. */
  datatype Action = SetAlarm(target: int) | Reboot | ShowInfo | PlayEasterEgg

  /** `commandHandlers`: CMD_DISARM and CMD_CHANGE_PIN are not in it. */
  const CommandHandlers: map<int, Action> := map[
    CMD_HOME := SetAlarm(0),
    CMD_AWAY := SetAlarm(1),
    CMD_SLEEP := SetAlarm(2),
    CMD_ALERT := SetAlarm(3),
    CMD_SCHEDULE := SetAlarm(8),
    CMD_REBOOT := Reboot,
    CMD_INFO := ShowInfo,
    CMD_EASTER_EGG := PlayEasterEgg
  ]

  datatype KeyValue = KeyValue(key: int, value: string)

  /** `stateTexts`, searched front to back by `displayState`. */
  const StateTexts: seq<KeyValue> := [
    KeyValue(0, "THUIS"),
    KeyValue(1, "AFWEZIG"),
    KeyValue(2, "SLAPEN"),
    KeyValue(3, "ALERT"),
    KeyValue(8, "SCHEMA"),
    KeyValue(9, "DISARMED")
  ]

  /** `stateTriggerMapping`: DISARMED has no trigger. */
  const StateTriggerMapping: map<int, string> := map[
    0 := "setAlarmToHome",
    1 := "setAlarmToAway",
    2 := "setAlarmToSleep",
    3 := "setAlarmToAlert",
    8 := "setAlarmToSchedule"
  ]

  /** `eufyStateMapping` of `main.cpp`: the same tokens as in `AlarmState.hpp`, to integers. */
  const EufyStateCodes: map<string, int> := map[
    "home" := 0,
    "away" := 1,
    "custom_1" := 2,
    "custom_2" := 3,
    "schedule" := 8,
    "disarmed" := 9
  ]

  /** The position of the first entry of `table` for `key`, or `|table|` when there is none. */
  function FirstIndex(table: seq<KeyValue>, key: int): (i: nat)
    ensures i <= |table|
    ensures forall j :: 0 <= j < i ==> table[j].key != key
    ensures i < |table| ==> table[i].key == key
  {
    if table == [] then 0
    else if table[0].key == key then 0
    else 1 + FirstIndex(table[1..], key)
  }

  /** The text `displayState` shows for a state value: the first match, else "ERROR". */
  function StatusText(state: int): (text: string)
    ensures text == "ERROR" || KeyValue(state, text) in StateTexts
  {
    var i := FirstIndex(StateTexts, state);
    if i < |StateTexts| then StateTexts[i].value else "ERROR"
  }

  /** `mapEufyState`: the normalised token's code, or -1 on a miss. */
  function MapEufyState(value: string): (code: int)
    ensures code == -1 <==> Normalize(value) !in EufyStateCodes
    ensures code == -1 || code in {0, 1, 2, 3, 8, 9}
  {
    var n := Normalize(value);
    if n in EufyStateCodes then EufyStateCodes[n] else -1
  }

  /** `String::indexOf(c, from)`: the first position at or after `from` holding `c`, or -1. */
  function IndexOf(s: string, c: char, from: nat): (i: int)
    ensures i == -1 || (from <= i < |s| && s[i] == c)
    ensures forall j :: from <= j < |s| && (i == -1 || j < i) ==> s[j] != c
    decreases |s| - from
  {
    if from >= |s| then -1
    else if s[from] == c then from
    else IndexOf(s, c, from + 1)
  }

  /** The PIN part of a command: the text before the first `*`, or all of it. */
  function PinCandidate(command: string): (pin: string)
    ensures |pin| <= |command| && pin == command[..|pin|]
    ensures SEPARATOR !in pin
    ensures |pin| < |command| ==> command[|pin|] == SEPARATOR
  {
    var separatorIndex := IndexOf(command, SEPARATOR, 0);
    if separatorIndex != -1 then command[..separatorIndex] else command
  }

  /**
   * The command code: `toInt` of the text after the first `*` when the test
   * `separatorIndex < command.length() - 1` holds. The test compares an `int`
   * with an `unsigned int`, so both sides are taken as 32-bit unsigned.
   */
  function CommandValue(command: string): (code: int)
    ensures SEPARATOR !in command ==> code == 0
  {
    var separatorIndex := IndexOf(command, SEPARATOR, 0);
    if ToUnsigned(separatorIndex) < ToUnsigned(|command| - 1)
    then ToInt(command[separatorIndex + 1..])
    else 0
  }

  /** The new PIN of a PIN-change command: the text after the second `*`, if there is one. */
  function NewPin(command: string): (newPin: Option<string>)
    ensures newPin.Some? ==> |newPin.value| < |command| && newPin.value == command[|command| - |newPin.value|..]
    ensures newPin.Some? ==> command[|command| - |newPin.value| - 1] == SEPARATOR
  {
    var positionOfFirstStar := IndexOf(command, SEPARATOR, 0);
    var newPinIndex := IndexOf(command, SEPARATOR, positionOfFirstStar + 1);
    if newPinIndex != -1 then Some(command[newPinIndex + 1..]) else None
  }

  /** The globals `state`, `stateAcknowledged` and `pinCode`. */
  datatype Alarm = Alarm(state: Byte, acknowledged: bool, pin: string)

  /** What a routine leaves behind and the effects it has on the way. */
  datatype Outcome = Outcome(alarm: Alarm, events: seq<Event>)

  /** `displayState()`: redraw the status text (the status LEDs are not part of this model). */
  function DisplayState(a: Alarm): (events: seq<Event>)
    ensures |events| == 1 && events[0].Redraw?
    ensures events[0].text == "ERROR" || KeyValue(a.state, events[0].text) in StateTexts
  {
    [Redraw(StatusText(a.state))]
  }

  /** `triggerHomey()`: fire the state's trigger, or nothing when it has none. */
  function TriggerHomey(a: Alarm): (events: seq<Event>)
    ensures |events| <= 1
    ensures events != [] <==> a.state in {0, 1, 2, 3, 8}
  {
    if a.state in StateTriggerMapping then [Trigger(StateTriggerMapping[a.state])] else []
  }

  /** `applyState()`: push the state to Homey, redraw, trigger. */
  function ApplyState(a: Alarm): (events: seq<Event>)
    ensures 2 <= |events| <= 3
    ensures events[0] == CapabilityPush(a.state) && events[1].Redraw?
    ensures |events| == 3 <==> a.state in StateTriggerMapping
  {
    [CapabilityPush(a.state)] + DisplayState(a) + TriggerHomey(a)
  }

  /** `changeAlarmState(newState)`: a local change, not yet acknowledged. */
  function ChangeAlarmState(a: Alarm, newState: int): (o: Outcome)
    ensures !o.alarm.acknowledged && o.alarm.pin == a.pin
    ensures 0 <= newState < 256 ==> o.alarm.state == newState
    ensures |o.events| >= 3 && o.events[0] == CapabilityPush(o.alarm.state) && o.events[|o.events| - 1] == SuccessTone
  {
    var b := a.(state := ToByte(newState), acknowledged := false);
    Outcome(b, ApplyState(b) + [SuccessTone])
  }

  /** `invalidCommand()`. */
  function InvalidCommand(a: Alarm): (o: Outcome)
    ensures o.alarm == a
    ensures |o.events| == 2 && o.events[0] == ErrorTone && o.events[1].Redraw?
  {
    Outcome(a, [ErrorTone] + DisplayState(a))
  }

  /** `handlePinChange(command)`: store the new PIN, or do nothing at all. */
  function HandlePinChange(a: Alarm, command: string): (o: Outcome)
    ensures o.alarm.state == a.state && o.alarm.acknowledged == a.acknowledged
    ensures NewPin(command).Some? ==> o.alarm.pin == NewPin(command).value && PinSaved(o.alarm.pin) in o.events
    ensures NewPin(command).None? ==> o == Outcome(a, [])
  {
    match NewPin(command)
    case Some(newPin) => Outcome(a.(pin := newPin), [PinSaved(newPin), SuccessTone, SuccessTone])
    case None => Outcome(a, [])
  }

  /** `executeCommand(commandValue, command)`: 99 first, then the handler table. */
  function ExecuteCommand(a: Alarm, commandValue: int, command: string): (o: Outcome)
    ensures o.alarm.pin != a.pin ==> commandValue == CMD_CHANGE_PIN
    ensures o.alarm.state != a.state ==> commandValue in {CMD_HOME, CMD_AWAY, CMD_SLEEP, CMD_ALERT, CMD_SCHEDULE}
    ensures o.alarm.acknowledged ==> a.acknowledged
  {
    if commandValue == CMD_CHANGE_PIN then HandlePinChange(a, command)
    else if commandValue !in CommandHandlers then InvalidCommand(a)
    else match CommandHandlers[commandValue]
      case SetAlarm(target) => ChangeAlarmState(a, target)
      case Reboot => Outcome(a, [Restart])
      case ShowInfo => Outcome(a, [Info, StateRequest])
      case PlayEasterEgg => Outcome(a, [EasterEgg])
  }

  /** `parseCommand(command)`: check the PIN, then decode and execute the code. */
  function ParseCommand(a: Alarm, command: string): (o: Outcome)
    ensures PinCandidate(command) != a.pin ==> o.alarm == a
    ensures o.alarm.acknowledged ==> a.acknowledged
  {
    if PinCandidate(command) == a.pin then ExecuteCommand(a, CommandValue(command), command)
    else Outcome(a, [ErrorTone] + DisplayState(a))
  }

  /** The Homey action "Set Alarm State": `setState()` with `Homey.value` as `value`. */
  function SetState(a: Alarm, value: string): (o: Outcome)
    ensures o.alarm.pin == a.pin && o.alarm.acknowledged == a.acknowledged
    ensures |o.events| >= 3 && o.events[0] == CapabilityPush(o.alarm.state)
  {
    var b := a.(state := ToByte(ToInt(value)));
    Outcome(b, ApplyState(b) + DisplayState(b))
  }

  /** The Homey action `handleEufyStateChange` with `Homey.value` as `value`. */
  function HandleEufyStateChange(a: Alarm, value: string): (o: Outcome)
    ensures o.alarm.pin == a.pin
    ensures o.events == [] <==> Normalize(value) !in EufyStateCodes
    ensures o.events != [] ==> o.alarm.acknowledged && o.events[|o.events| - 1] == AckTone
  {
    var newState := MapEufyState(value);
    if newState < 0 then Outcome(a, [])
    else
      var b := a.(state := ToByte(newState), acknowledged := true);
      Outcome(b, DisplayState(b) + [AckTone])
  }

  /** The globals of the whole firmware that the key loop touches. */
  datatype Panel = Panel(alarm: Alarm, buffer: string, hidden: bool, events: seq<Event>)

  /** The globals after `setup()`: state 0, the stored PIN, the status drawn once. */
  function Boot(storedPin: string): (p: Panel)
    ensures p.alarm.pin == storedPin && !p.alarm.acknowledged
    ensures p.buffer == [] && p.hidden
    ensures p.events == [Redraw("THUIS")]
  {
    assert FirstIndex(StateTexts, 0) == 0;
    var a := Alarm(0, false, storedPin);
    Panel(a, "", true, DisplayState(a))
  }

  /** One pass of `loop()` in which `getKey()` returned `key`. */
  function Key(p: Panel, key: char): (q: Panel)
    ensures |p.events| <= |q.events| && q.events[..|p.events|] == p.events
    ensures key != TERMINATOR ==> q.alarm == p.alarm
  {
    if key == NO_KEY then p
    else
      var echoed := p.events + [Activity, Beep, Echo(if p.hidden then '*' else key)];
      var hidden := if key == SEPARATOR then false else p.hidden;
      if key == TERMINATOR then
        var o := ParseCommand(p.alarm, p.buffer);
        Panel(o.alarm, "", true, echoed + [ClearEntry] + o.events)
      else
        Panel(p.alarm, p.buffer + [key], hidden, echoed)
  }

  /** A run of key presses, oldest first. */
  function Keys(p: Panel, keys: string): (q: Panel)
    ensures |p.events| <= |q.events| && q.events[..|p.events|] == p.events
  {
    if keys == [] then p else Key(Keys(p, keys[..|keys| - 1]), keys[|keys| - 1])
  }

  /** Text that could be typed without submitting it. */
  predicate Typed(keys: string)
  {
    forall i :: 0 <= i < |keys| ==> keys[i] != NO_KEY && keys[i] != TERMINATOR
  }

  // ---------------------------------------------------------------------------
  // Key entry
  // ---------------------------------------------------------------------------

  /**
   * Keys other than `#` are appended to the command and change nothing of
   * the alarm; a `*` among them shows the rest of the entry in clear.
   */
  lemma {:induction false} TypingAppends(p: Panel, keys: string)
    requires Typed(keys)
    ensures Keys(p, keys).alarm == p.alarm
    ensures Keys(p, keys).buffer == p.buffer + keys
    ensures Keys(p, keys).hidden == (p.hidden && SEPARATOR !in keys)
  {
    if keys != [] {
      var init := keys[..|keys| - 1];
      TypingAppends(p, init);
      assert keys == init + [keys[|keys| - 1]];
    }
  }

  /**
   * Typing a command and `#` on an empty entry parses exactly that command;
   * the entry is then empty and hidden again.
   */
  lemma SubmitParsesTyped(p: Panel, keys: string)
    requires p.buffer == [] && Typed(keys)
    ensures var q := Keys(p, keys + [TERMINATOR]);
      && q.alarm == ParseCommand(p.alarm, keys).alarm
      && q.buffer == [] && q.hidden
  {
    var typed := Keys(p, keys);
    TypingAppends(p, keys);
    assert typed.buffer == keys;
    assert (keys + [TERMINATOR])[..|keys|] == keys;
    assert Keys(p, keys + [TERMINATOR]) == Key(typed, TERMINATOR);
  }

  /**
   * While no `*` has been typed, the entry stays hidden: every key adds its
   * activity, its beep and a `*` on the display, and nothing else.
   */
  lemma {:induction false} EchoHidesPin(p: Panel, keys: string)
    requires p.hidden && Typed(keys) && SEPARATOR !in keys
    ensures var q := Keys(p, keys);
      && |q.events| == |p.events| + 3 * |keys|
      && q.events[..|p.events|] == p.events
      && forall i :: |p.events| <= i < |q.events| ==> q.events[i] in {Activity, Beep, Echo('*')}
  {
    if keys != [] {
      var init, last := keys[..|keys| - 1], keys[|keys| - 1];
      EchoHidesPin(p, init);
      TypingAppends(p, init);
      var q0 := Keys(p, init);
      assert q0.hidden;
      assert Keys(p, keys).events == q0.events + [Activity, Beep, Echo('*')];
    }
  }

  // ---------------------------------------------------------------------------
  // Decoding a command
  // ---------------------------------------------------------------------------

  lemma SeparatorAfterPin(pin: string, rest: string)
    requires SEPARATOR !in pin
    ensures IndexOf(pin + [SEPARATOR] + rest, SEPARATOR, 0) == |pin|
  {
    var s := pin + [SEPARATOR] + rest;
    assert s[|pin|] == SEPARATOR;
    forall j | 0 <= j < |pin| ensures s[j] != SEPARATOR {
      assert s[j] == pin[j];
    }
  }

  /** The PIN candidate of "<pin>*<rest>" is `pin`, when the PIN holds no `*`. */
  lemma PinCandidateOf(pin: string, rest: string)
    requires SEPARATOR !in pin
    ensures PinCandidate(pin + [SEPARATOR] + rest) == pin
  {
    SeparatorAfterPin(pin, rest);
    assert (pin + [SEPARATOR] + rest)[..|pin|] == pin;
  }

  /** Without a `*` the whole command is the PIN candidate, and the code is 0. */
  lemma NoSeparator(command: string)
    requires SEPARATOR !in command
    ensures PinCandidate(command) == command
    ensures CommandValue(command) == 0
  {
    assert IndexOf(command, SEPARATOR, 0) == -1;
  }

  /**
   * How the code is decoded: 0 when there is no `*` (the -1, taken as
   * unsigned, is never below `length() - 1`) or when the `*` is last;
   * otherwise `toInt` of everything after the first `*`.
   */
  lemma {:induction false} CommandValueDecode(command: string)
    requires |command| < ULONG_MODULUS
    ensures var separatorIndex := IndexOf(command, SEPARATOR, 0);
      CommandValue(command) ==
        if separatorIndex == -1 || separatorIndex == |command| - 1 then 0
        else ToInt(command[separatorIndex + 1..])
  {
    var separatorIndex := IndexOf(command, SEPARATOR, 0);
    UnsignedTest(separatorIndex, |command|);
  }

  /** The test `separatorIndex < command.length() - 1` in unsigned arithmetic. */
  lemma UnsignedTest(i: int, n: nat)
    requires i == -1 || 0 <= i < n
    requires n < ULONG_MODULUS
    ensures ToUnsigned(i) < ToUnsigned(n - 1) <==> i != -1 && i != n - 1
  {
  }

  /** After a correct PIN and `*`, the code is `toInt` of the rest. */
  lemma CommandValueAfterPin(pin: string, rest: string)
    requires SEPARATOR !in pin && rest != []
    requires |pin| + 1 + |rest| < ULONG_MODULUS
    ensures CommandValue(pin + [SEPARATOR] + rest) == ToInt(rest)
  {
    var command := pin + [SEPARATOR] + rest;
    SeparatorAfterPin(pin, rest);
    assert command[|pin| + 1..] == rest;
  }

  /** A correct PIN and `*` with nothing after it decodes as 0. */
  lemma CommandValueEmptyRest(pin: string)
    requires SEPARATOR !in pin && |pin| + 1 < ULONG_MODULUS
    ensures CommandValue(pin + [SEPARATOR]) == 0
  {
    SeparatorAfterPin(pin, []);
    assert pin + [SEPARATOR] + [] == pin + [SEPARATOR];
  }

  /** "0000" decodes as 0: there is no `*`. */
  lemma DecodeWithoutSeparator()
    ensures CommandValue("0000") == 0
  {
    NoSeparator("0000");
  }

  /** "0000*" decodes as 0: nothing follows the `*`. */
  lemma DecodeTrailingSeparator()
    ensures CommandValue("0000*") == 0
  {
    assert "0000*" == "0000" + [SEPARATOR];
    CommandValueEmptyRest("0000");
  }

  /** "0000**5" decodes as 0: the text after the first `*` starts with no digit. */
  lemma DecodeDoubleSeparator()
    ensures CommandValue("0000**5") == 0
  {
    assert "0000**5" == "0000" + [SEPARATOR] + "*5";
    CommandValueAfterPin("0000", "*5");
    ToIntNoDigits("*5");
  }

  /** "0000*1*5" decodes as 1: the digit run stops at the second `*`. */
  lemma DecodeStopsAtSeparator()
    ensures CommandValue("0000*1*5") == 1
  {
    assert "0000*1*5" == "0000" + [SEPARATOR] + "1*5";
    CommandValueAfterPin("0000", "1*5");
    assert DecimalString(1) == "1";
    assert "1*5" == DecimalString(1) + "*5";
    ToIntDecimal(1, "*5");
  }

  /** The digits of a code, followed by nothing, read back as the code. */
  lemma CodeAfterPin(pin: string, code: nat)
    requires SEPARATOR !in pin && |pin| + 1 + |DecimalString(code)| < ULONG_MODULUS
    ensures PinCandidate(pin + [SEPARATOR] + DecimalString(code)) == pin
    ensures CommandValue(pin + [SEPARATOR] + DecimalString(code)) == code
  {
    PinCandidateOf(pin, DecimalString(code));
    CommandValueAfterPin(pin, DecimalString(code));
    ToIntDecimal(code, []);
    assert DecimalString(code) + [] == DecimalString(code);
  }

  // ---------------------------------------------------------------------------
  // Executing a command
  // ---------------------------------------------------------------------------

  /**
   * A command whose PIN part is not the PIN only plays the error tone and
   * redraws: the state, its acknowledgement and the PIN stay as they were.
   */
  lemma WrongPinRejected(a: Alarm, command: string)
    requires PinCandidate(command) != a.pin
    ensures ParseCommand(a, command).alarm == a
    ensures ParseCommand(a, command).events == [ErrorTone, Redraw(StatusText(a.state))]
  {
  }

  /**
   * Codes 0, 1, 2, 3 and 8 select HOME, AWAY, SLEEP, ALERT and SCHEDULE: the
   * state is set unacknowledged, pushed to Homey, drawn, triggered, and the
   * success tune plays.
   */
  lemma StateCommandSelects(a: Alarm, code: int, command: string)
    requires code in {CMD_HOME, CMD_AWAY, CMD_SLEEP, CMD_ALERT, CMD_SCHEDULE}
    ensures var o := ExecuteCommand(a, code, command);
      && o.alarm == Alarm(code, false, a.pin)
      && o.events == [CapabilityPush(code), Redraw(StatusText(code)), Trigger(StateTriggerMapping[code]), SuccessTone]
  {
    assert ExecuteCommand(a, code, command) == ChangeAlarmState(a, code) by {
      assert CommandHandlers[code] == SetAlarm(code);
    }
    StateChangeEffects(a, code);
  }

  /** A change to a state that has a trigger pushes, redraws, fires the trigger and confirms. */
  lemma StateChangeEffects(a: Alarm, target: int)
    requires target in StateTriggerMapping
    ensures var o := ChangeAlarmState(a, target);
      && o.alarm == Alarm(target, false, a.pin)
      && o.events == [CapabilityPush(target), Redraw(StatusText(target)), Trigger(StateTriggerMapping[target]), SuccessTone]
  {
    assert 0 <= target < 256;
  }

  /** Typed as "<pin>*<code>", a state command takes effect. */
  lemma StateCommandEntered(a: Alarm, code: nat)
    requires SEPARATOR !in a.pin && |a.pin| + 2 < ULONG_MODULUS
    requires code in {CMD_HOME, CMD_AWAY, CMD_SLEEP, CMD_ALERT, CMD_SCHEDULE}
    ensures ParseCommand(a, a.pin + [SEPARATOR] + DecimalString(code)).alarm == Alarm(code, false, a.pin)
  {
    var command := a.pin + [SEPARATOR] + DecimalString(code);
    assert |DecimalString(code)| == 1;
    CodeAfterPin(a.pin, code);
    StateCommandSelects(a, code, command);
  }

  /** The PIN alone, with no `*`, selects HOME. */
  lemma PinAloneSelectsHome(a: Alarm)
    requires SEPARATOR !in a.pin
    ensures ParseCommand(a, a.pin) == ChangeAlarmState(a, Home.Code())
    ensures ParseCommand(a, a.pin).alarm == Alarm(0, false, a.pin)
  {
    NoSeparator(a.pin);
  }

  /** "<pin>**5" also selects HOME: the code after the first `*` has no digits. */
  lemma DoubleStarSelectsHome(a: Alarm)
    requires SEPARATOR !in a.pin && |a.pin| + 3 < ULONG_MODULUS
    ensures ParseCommand(a, a.pin + "**5").alarm == Alarm(0, false, a.pin)
  {
    var command := a.pin + "**5";
    assert command == a.pin + [SEPARATOR] + "*5";
    PinCandidateOf(a.pin, "*5");
    CommandValueAfterPin(a.pin, "*5");
    ToIntNoDigits("*5");
    StateCommandSelects(a, CMD_HOME, command);
  }

  /**
   * Codes that are not in the table (9, CMD_DISARM, among them) and are not
   * 99 play the error tone and redraw; nothing else changes.
   */
  lemma UnregisteredCodeRejected(a: Alarm, code: int, command: string)
    requires code !in {CMD_HOME, CMD_AWAY, CMD_SLEEP, CMD_ALERT, CMD_SCHEDULE, CMD_INFO, CMD_REBOOT, CMD_CHANGE_PIN, CMD_EASTER_EGG}
    ensures ExecuteCommand(a, code, command) == Outcome(a, [ErrorTone, Redraw(StatusText(a.state))])
  {
  }

  /** "<pin>*9" does not disarm: CMD_DISARM is declared but never registered. */
  lemma DisarmIsRejected(a: Alarm)
    requires SEPARATOR !in a.pin && |a.pin| + 2 < ULONG_MODULUS
    ensures ParseCommand(a, a.pin + "*9") == Outcome(a, [ErrorTone, Redraw(StatusText(a.state))])
  {
    assert a.pin + "*9" == a.pin + [SEPARATOR] + DecimalString(9);
    CodeAfterPin(a.pin, 9);
    UnregisteredCodeRejected(a, CMD_DISARM, a.pin + "*9");
  }

  /** Codes 88, 77 and 1990 restart, show the info screen, or play the tune; the alarm is untouched. */
  lemma AdminCodesKeepAlarm(a: Alarm, command: string)
    ensures ExecuteCommand(a, CMD_REBOOT, command) == Outcome(a, [Restart])
    ensures ExecuteCommand(a, CMD_INFO, command) == Outcome(a, [Info, StateRequest])
    ensures ExecuteCommand(a, CMD_EASTER_EGG, command) == Outcome(a, [EasterEgg])
  {
  }

  // ---------------------------------------------------------------------------
  // Changing the PIN
  // ---------------------------------------------------------------------------

  lemma NewPinAfterTwoStars(pin: string, newPin: string)
    requires SEPARATOR !in pin
    ensures NewPin(pin + "*99*" + newPin) == Some(newPin)
  {
    var command := pin + "*99*" + newPin;
    SeparatorAfterPin(pin, "99*" + newPin);
    assert command == pin + [SEPARATOR] + ("99*" + newPin);
    assert command[|pin| + 3] == SEPARATOR;
    assert IndexOf(command, SEPARATOR, |pin| + 1) == |pin| + 3;
    assert command[|pin| + 4..] == newPin;
  }

  lemma ChangePinCodeValue(newPin: string)
    ensures ToInt("99*" + newPin) == CMD_CHANGE_PIN
  {
    var s := "99*" + newPin;
    assert s == "99" + ("*" + newPin);
    assert s[0] == '9';
    TrimStartOfTrimmed(s);
    LeadingDigitsOfDigits("99", "*" + newPin);
    assert DigitsValue("99") == 99 by {
      assert "99"[..1] == "9";
    }
  }

  lemma PinChangeCode(pin: string, newPin: string)
    requires SEPARATOR !in pin && |pin| + 4 + |newPin| < ULONG_MODULUS
    ensures PinCandidate(pin + "*99*" + newPin) == pin
    ensures CommandValue(pin + "*99*" + newPin) == CMD_CHANGE_PIN
  {
    var command := pin + "*99*" + newPin;
    var rest := "99*" + newPin;
    assert command == pin + [SEPARATOR] + rest;
    PinCandidateOf(pin, rest);
    CommandValueAfterPin(pin, rest);
    ChangePinCodeValue(newPin);
  }

  /**
   * "<pin>*99*<new>" stores exactly `new` (which may be empty or hold `*`),
   * saves it and plays the success tune twice; the state is untouched.
   */
  lemma PinChangeSetsPin(a: Alarm, newPin: string)
    requires SEPARATOR !in a.pin && |a.pin| + 4 + |newPin| < ULONG_MODULUS
    ensures ParseCommand(a, a.pin + "*99*" + newPin) ==
      Outcome(a.(pin := newPin), [PinSaved(newPin), SuccessTone, SuccessTone])
  {
    PinChangeCode(a.pin, newPin);
    NewPinAfterTwoStars(a.pin, newPin);
  }

  /** A PIN-change command without a second `*` changes nothing and makes no sound. */
  lemma MalformedPinChangeSilent(a: Alarm)
    requires SEPARATOR !in a.pin && |a.pin| + 3 < ULONG_MODULUS
    ensures ParseCommand(a, a.pin + "*99") == Outcome(a, [])
  {
    var command := a.pin + "*99";
    assert command == a.pin + [SEPARATOR] + DecimalString(99);
    CodeAfterPin(a.pin, 99);
    SeparatorAfterPin(a.pin, "99");
    assert IndexOf(command, SEPARATOR, |a.pin| + 1) == -1;
  }

  /**
   * After "<old>*99*<new>", the new PIN is accepted: "<new>*0" selects HOME,
   * and the old PIN, if different, is rejected.
   */
  lemma PinChangeRoundTrip(a: Alarm, newPin: string)
    requires SEPARATOR !in a.pin && SEPARATOR !in newPin
    requires |a.pin| + 4 + |newPin| < ULONG_MODULUS
    ensures var b := ParseCommand(a, a.pin + "*99*" + newPin).alarm;
      && b.pin == newPin
      && ParseCommand(b, newPin + "*0").alarm == Alarm(0, false, newPin)
      && (a.pin != newPin ==> ParseCommand(b, a.pin + "*0").alarm == b)
  {
    PinChangeSetsPin(a, newPin);
    var b := a.(pin := newPin);
    assert ParseCommand(a, a.pin + "*99*" + newPin).alarm == b;
    HomeCommandAccepted(b);
    assert ParseCommand(b, newPin + "*0").alarm == Alarm(0, false, newPin);
    if a.pin != newPin {
      OtherPinRejected(b, a.pin);
    }
  }

  lemma HomeCommandAccepted(b: Alarm)
    requires SEPARATOR !in b.pin && |b.pin| + 2 < ULONG_MODULUS
    ensures ParseCommand(b, b.pin + "*0").alarm == Alarm(0, false, b.pin)
  {
    assert DecimalString(0) == "0";
    assert b.pin + "*0" == b.pin + [SEPARATOR] + DecimalString(0);
    StateCommandEntered(b, 0);
  }

  lemma OtherPinRejected(b: Alarm, pin: string)
    requires SEPARATOR !in pin && pin != b.pin
    ensures ParseCommand(b, pin + "*0").alarm == b
  {
    assert pin + "*0" == pin + [SEPARATOR] + "0";
    PinCandidateOf(pin, "0");
    WrongPinRejected(b, pin + "*0");
  }

  /**
   * A PIN that holds a `*` can never be entered again: the PIN part of any
   * command stops before its first `*`.
   */
  lemma StarPinLocksOut(a: Alarm, command: string)
    requires SEPARATOR in a.pin
    ensures ParseCommand(a, command).alarm == a
  {
    var separatorIndex := IndexOf(command, SEPARATOR, 0);
    if separatorIndex == -1 {
      assert SEPARATOR !in command;
    } else {
      assert SEPARATOR !in command[..separatorIndex];
    }
  }

  // ---------------------------------------------------------------------------
  // Updates from Homey
  // ---------------------------------------------------------------------------

  /** The two token tables hold the same tokens, with the codes of the same states. */
  lemma TokenTablesAgree(n: string)
    ensures n in EufyStateCodes <==> n in EufyStateMapping
    ensures n in EufyStateCodes ==> EufyStateCodes[n] == EufyStateMapping[n].Code()
  {
    if n == "home" {
    } else if n == "away" {
    } else if n == "custom_1" {
    } else if n == "custom_2" {
    } else if n == "schedule" {
    } else if n == "disarmed" {
    } else {
      assert n !in EufyStateCodes;
      assert n !in EufyStateMapping;
    }
  }

  /** `mapEufyState` agrees with `AlarmStateUtils::fromEufyState`, with -1 for UNKNOWN. */
  lemma MapEufyStateAgrees(value: string)
    ensures MapEufyState(value) == FromEufyState(value).Code()
  {
    TokenTablesAgree(Normalize(value));
  }

  /** An unrecognised token changes nothing and has no effect. */
  lemma EufyMissIgnored(a: Alarm, value: string)
    requires FromEufyState(value) == Unknown
    ensures HandleEufyStateChange(a, value) == Outcome(a, [])
  {
    MapEufyStateAgrees(value);
  }

  /**
   * A recognised token sets the state it names, acknowledged, redraws and
   * plays the acknowledge tune; it never pushes the state to Homey nor fires
   * a trigger, so a remote change is not echoed back.
   */
  lemma EufyHitAcknowledged(a: Alarm, value: string)
    requires FromEufyState(value) != Unknown
    ensures var o := HandleEufyStateChange(a, value);
      && o.alarm == Alarm(FromEufyState(value).Code(), true, a.pin)
      && o.events == [Redraw(StatusText(o.alarm.state)), AckTone]
      && forall e :: e in o.events ==> !e.CapabilityPush? && !e.Trigger?
  {
    MapEufyStateAgrees(value);
  }

  /** A local change is never acknowledged, a recognised remote one always is. */
  lemma AcknowledgementSource(a: Alarm, code: int, value: string)
    requires code in {CMD_HOME, CMD_AWAY, CMD_SLEEP, CMD_ALERT, CMD_SCHEDULE}
    requires FromEufyState(value) != Unknown
    ensures !ExecuteCommand(a, code, "").alarm.acknowledged
    ensures HandleEufyStateChange(a, value).alarm.acknowledged
  {
    StateCommandSelects(a, code, "");
    EufyHitAcknowledged(a, value);
  }

  /** A trigger fires exactly for HOME, AWAY, SLEEP, ALERT and SCHEDULE. */
  lemma TriggerOnlyForStates(a: Alarm)
    ensures TriggerHomey(a) != [] <==> a.state in {0, 1, 2, 3, 8}
    ensures |TriggerHomey(a)| <= 1
  {
  }

  /**
   * "Set Alarm State" keeps the low eight bits of `toInt`, leaves the
   * acknowledgement as it was, and draws the status twice.
   */
  lemma {:induction false} SetStateTruncates(a: Alarm, value: string)
    ensures var o := SetState(a, value);
      && o.alarm.acknowledged == a.acknowledged && o.alarm.pin == a.pin
      && o.alarm.state == ToInt(value) % 256
  {
    SetStateStores(a, value);
  }

  /** "Set Alarm State" pushes the new state first and ends with its status drawn. */
  lemma {:induction false} SetStateRedraws(a: Alarm, value: string)
    ensures var o := SetState(a, value);
      && |o.events| >= 3 && o.events[0] == CapabilityPush(o.alarm.state)
      && o.events[|o.events| - 1] == Redraw(StatusText(o.alarm.state))
  {
    var b := SetState(a, value).alarm;
    PushFirstRedrawLast(b);
  }

  lemma PushFirstRedrawLast(b: Alarm)
    ensures var e := ApplyState(b) + DisplayState(b);
      && |e| >= 3 && e[0] == CapabilityPush(b.state) && e[|e| - 1] == Redraw(StatusText(b.state))
  {
  }

  /** The state Homey sets is the low byte of the value's `toInt`. */
  lemma {:induction false} SetStateStores(a: Alarm, value: string)
    ensures SetState(a, value).alarm == a.(state := ToByte(ToInt(value)))
  {
  }

  /** A decimal value from Homey is stored modulo 256: "258" becomes 2. */
  lemma SetStateDecimal(a: Alarm, n: nat)
    ensures SetState(a, DecimalString(n)).alarm.state == n % 256
  {
    assert DecimalString(n) == DecimalString(n) + [];
    ToIntDecimal(n, []);
    SetStateStores(a, DecimalString(n));
  }

  /** A negative value from Homey wraps round from 256: "-1" becomes 255. */
  lemma SetStateNegativeDecimal(a: Alarm, n: nat)
    requires 0 < n <= 256
    ensures SetState(a, "-" + DecimalString(n)).alarm.state == 256 - n
  {
    var v := "-" + DecimalString(n);
    assert ToInt(v) == -(n as int) by {
      assert v == "-" + DecimalString(n) + [];
      ToIntNegative(n, []);
    }
    assert ToByte(ToInt(v)) == 256 - n;
    SetStateStores(a, v);
  }

  /** The keys of the status-text table are distinct, so every entry is the one found for its key. */
  lemma StatusTextOfEntry(i: nat)
    requires i < |StateTexts|
    ensures StatusText(StateTexts[i].key) == StateTexts[i].value
  {
    var key := StateTexts[i].key;
    assert FirstIndex(StateTexts, key) == i;
  }

  /** "ERROR" is shown exactly for the values that are not one of the six states. */
  lemma StatusTextFallback(state: int)
    ensures StatusText(state) == "ERROR" <==> state !in {0, 1, 2, 3, 8, 9}
  {
    if state in {0, 1, 2, 3, 8, 9} {
      var i := if state == 8 then 4 else if state == 9 then 5 else state;
      assert StateTexts[i].key == state;
      StatusTextOfEntry(i);
    } else {
      assert forall j :: 0 <= j < |StateTexts| ==> StateTexts[j].key != state;
    }
  }
}
