/**
 * The globals of `main.cpp` and the routines that change them, step by
 * step as the firmware does. Each routine is proved to have exactly the
 * effect its counterpart in `Commands` describes.
 */
module KeypadFirmware {
  import opened Options
  import opened Arduino
  import opened Commands

  /** The search of `displayState` through `stateTexts`, stopping at the first match. */
  method FindStatusText(state: int) returns (text: string)
    ensures text == StatusText(state)
  {
    text := "ERROR";
    for i := 0 to |StateTexts|
      invariant forall j :: 0 <= j < i ==> StateTexts[j].key != state
      invariant text == "ERROR"
    {
      if StateTexts[i].key == state {
        assert FirstIndex(StateTexts, state) == i;
        text := StateTexts[i].value;
        return;
      }
    }
    assert FirstIndex(StateTexts, state) == |StateTexts|;
  }

  class Keypad {
    var state: Byte
    var stateAcknowledged: bool
    var pinCode: string
    var currentCommand: string
    var shouldHideKeyboardEntry: bool
    /** Every outward effect so far, oldest first. */
    var events: seq<Event>

    /** `state`, `stateAcknowledged` and `pinCode`. */
    function Globals(): Alarm
      reads this
    {
      Alarm(state, stateAcknowledged, pinCode)
    }

    /** All the globals the key loop touches. */
    function Entry(): Panel
      reads this
    {
      Panel(Globals(), currentCommand, shouldHideKeyboardEntry, events)
    }

    /** The routine had outcome `o` on the globals and left the key entry as it was. */
    ghost predicate Did(before: Panel, o: Outcome)
      reads this
    {
      Entry() == Panel(o.alarm, before.buffer, before.hidden, before.events + o.events)
    }

    /** The globals after `setup()` read `storedPin` from flash. */
    constructor(storedPin: string)
      ensures Entry() == Boot(storedPin)
    {
      state := 0;
      stateAcknowledged := false;
      currentCommand := "";
      shouldHideKeyboardEntry := true;
      events := [];
      pinCode := storedPin;
      new;
      DisplayState();
    }

    /** `getState()`: the value returned to Homey. */
    method GetState() returns (r: Byte)
      ensures r == state
    {
      r := state;
    }

    method DisplayState()
      modifies this
      ensures Did(old(Entry()), Outcome(old(Globals()), Commands.DisplayState(old(Globals()))))
    {
      var statusText := FindStatusText(state);
      events := events + [Redraw(statusText)];
    }

    method TriggerHomey()
      modifies this
      ensures Did(old(Entry()), Outcome(old(Globals()), Commands.TriggerHomey(old(Globals()))))
    {
      if state !in StateTriggerMapping {
        return;
      }
      var trigger := StateTriggerMapping[state];
      events := events + [Trigger(trigger)];
    }

    method ApplyState()
      modifies this
      ensures Did(old(Entry()), Outcome(old(Globals()), Commands.ApplyState(old(Globals()))))
    {
      events := events + [CapabilityPush(state)];
      DisplayState();
      TriggerHomey();
    }

    method ChangeAlarmState(newState: int)
      modifies this
      ensures Did(old(Entry()), Commands.ChangeAlarmState(old(Globals()), newState))
    {
      state := ToByte(newState);
      stateAcknowledged := false;
      ApplyState();
      events := events + [SuccessTone];
    }

    method InvalidCommand()
      modifies this
      ensures Did(old(Entry()), Commands.InvalidCommand(old(Globals())))
    {
      events := events + [ErrorTone];
      DisplayState();
    }

    method HandlePinChange(command: string)
      modifies this
      ensures Did(old(Entry()), Commands.HandlePinChange(old(Globals()), command))
    {
      ghost var before := Entry();
      var positionOfFirstStar := IndexOf(command, SEPARATOR, 0);
      var newPinIndex := IndexOf(command, SEPARATOR, positionOfFirstStar + 1);
      if newPinIndex != -1 {
        var newPin := command[newPinIndex + 1..];
        assert NewPin(command) == Some(newPin);
        pinCode := newPin;
        events := events + [PinSaved(pinCode), SuccessTone, SuccessTone];
        return;
      }
      assert NewPin(command) == None;
      assert events == before.events + [];
    }

    method ExecuteCommand(commandValue: int, command: string)
      modifies this
      ensures Did(old(Entry()), Commands.ExecuteCommand(old(Globals()), commandValue, command))
    {
      if commandValue == CMD_CHANGE_PIN {
        HandlePinChange(command);
        return;
      }
      if commandValue !in CommandHandlers {
        InvalidCommand();
        return;
      }
      match CommandHandlers[commandValue]
      case SetAlarm(target) => ChangeAlarmState(target);
      case Reboot => events := events + [Restart];
      case ShowInfo => events := events + [Info, StateRequest];
      case PlayEasterEgg => events := events + [EasterEgg];
    }

    method ParseCommand(command: string)
      modifies this
      ensures Did(old(Entry()), Commands.ParseCommand(old(Globals()), command))
    {
      var separatorIndex := IndexOf(command, SEPARATOR, 0);
      var enteredPin := "";
      if separatorIndex != -1 {
        enteredPin := command[..separatorIndex];
      } else {
        enteredPin := command;
      }

      if enteredPin == pinCode {
        var commandValue := 0;
        if ToUnsigned(separatorIndex) < ToUnsigned(|command| - 1) {
          var numericCommand := command[separatorIndex + 1..];
          commandValue := ToInt(numericCommand);
        }
        ExecuteCommand(commandValue, command);
      } else {
        events := events + [ErrorTone];
        DisplayState();
      }
    }

    /** The Homey action "Set Alarm State" with `Homey.value` as `value`. */
    method SetState(value: string)
      modifies this
      ensures Did(old(Entry()), Commands.SetState(old(Globals()), value))
    {
      state := ToByte(ToInt(value));
      ApplyState();
      DisplayState();
    }

    /** The Homey action `handleEufyStateChange` with `Homey.value` as `value`. */
    method HandleEufyStateChange(value: string)
      modifies this
      ensures Did(old(Entry()), Commands.HandleEufyStateChange(old(Globals()), value))
    {
      ghost var before := Entry();
      var newState := MapEufyState(value);
      if newState < 0 {
        assert Commands.HandleEufyStateChange(before.alarm, value) == Outcome(before.alarm, []);
        assert events == before.events + [];
        return;
      }
      state := ToByte(newState);
      stateAcknowledged := true;
      ghost var b := Globals();
      assert Commands.HandleEufyStateChange(before.alarm, value) == Outcome(b, Commands.DisplayState(b) + [AckTone]);
      DisplayState();
      events := events + [AckTone];
      assert events == before.events + (Commands.DisplayState(b) + [AckTone]);
    }

    /** The key handling of one pass of `loop()`, in which `getKey()` returned `key`. */
    method HandleKey(key: char)
      modifies this
      ensures Entry() == Key(old(Entry()), key)
    {
      if key == NO_KEY {
        return;
      }
      events := events + [Activity, Beep, Echo(if shouldHideKeyboardEntry then '*' else key)];

      if key == SEPARATOR {
        shouldHideKeyboardEntry := false;
      }

      if key == TERMINATOR {
        events := events + [ClearEntry];
        ParseCommand(currentCommand);
        currentCommand := "";
        shouldHideKeyboardEntry := true;
      } else {
        currentCommand := currentCommand + [key];
      }
    }
  }
}
