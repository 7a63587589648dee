/**
 * The serial console as the firmware keeps it: the mode, the code-complete
 * flag, the two counters and three fixed buffers, updated in place one
 * received character at a time. The ensures of every state-changing method
 * give the whole new abstract state, through the matching function of module
 * SerialComSpec where there is one.
 *
 * The text written to the serial port and the calls to the code store and to
 * the clock are recorded in the ghost trace `effects`.
 */
module SerialCom {
  import opened DateAndTime
  import opened SerialComSpec

  class PcSerialCom {
    var mode: int
    var codeComplete: bool
    var numberOfCodeChars: int
    var numberOfDateAndTimeChars: int
    /** The deactivation code last entered, read by the alarm logic. */
    const codeSequence: array<char>
    /** The new code being entered. */
    const newCodeSequence: array<char>
    /** The timestamp being entered, with room for a terminator. */
    const dateAndTimeInput: array<char>
    ghost var effects: seq<Effect>

    ghost function Abstract(): State
      reads this, codeSequence, newCodeSequence, dateAndTimeInput
    {
      State(mode, codeComplete, numberOfCodeChars, numberOfDateAndTimeChars,
            codeSequence[..], newCodeSequence[..], dateAndTimeInput[..], effects)
    }

    ghost predicate Valid()
      reads this, codeSequence, newCodeSequence, dateAndTimeInput
    {
      codeSequence != newCodeSequence && codeSequence != dateAndTimeInput &&
      newCodeSequence != dateAndTimeInput &&
      Inv(Abstract())
    }

    /** The state at start-up; the buffers are zero-initialised. */
    constructor ()
      ensures Valid() && Abstract() == Initial()
      ensures fresh(codeSequence) && fresh(newCodeSequence) && fresh(dateAndTimeInput)
    {
      mode := COMMANDS;
      codeComplete := false;
      numberOfCodeChars := 0;
      numberOfDateAndTimeChars := 0;
      codeSequence := new char[CODE_NUMBER_OF_KEYS](_ => '\0');
      newCodeSequence := new char[CODE_NUMBER_OF_KEYS](_ => '\0');
      dateAndTimeInput := new char[DATE_AND_TIME_FORMAT_LENGTH + 1](_ => '\0');
      effects := [];
      new;
      assert codeSequence[..] == seq(CODE_NUMBER_OF_KEYS, _ => '\0');
      assert newCodeSequence[..] == seq(CODE_NUMBER_OF_KEYS, _ => '\0');
      assert dateAndTimeInput[..] == seq(DATE_AND_TIME_FORMAT_LENGTH + 1, _ => '\0');
    }

    /** Start-up: the list of commands is written. */
    method Init()
      requires Valid()
      modifies this`effects
      ensures Valid() && Abstract() == WithWrite(old(Abstract()), Menu)
    {
      AvailableCommands();
    }

    /**
     * Handles one character read from the serial port; NUL means nothing
     * was available. `p` holds what the collaborators report.
     */
    method Update(receivedChar: char, p: Peripherals)
      requires Valid()
      modifies this, codeSequence, newCodeSequence, dateAndTimeInput
      ensures Valid()
      ensures Abstract() == Step(old(Abstract()), receivedChar, p)
    {
      if receivedChar != '\0' {
        if mode == COMMANDS {
          CommandUpdate(receivedChar, p);
        } else if mode == GET_CODE {
          GetCodeUpdate(receivedChar);
        } else if mode == SAVE_NEW_CODE {
          SaveNewCodeUpdate(receivedChar);
        } else if mode == SETTING_DATE_AND_TIME {
          SetDateAndTimeUpdate(receivedChar);
        } else {
          mode := COMMANDS;
        }
      }
    }

    method CodeCompleteRead() returns (state: bool)
      ensures state == codeComplete
    {
      state := codeComplete;
    }

    /** Lets the alarm logic clear (or set) the flag once it has used the code. */
    method CodeCompleteWrite(state: bool)
      requires Valid()
      modifies this`codeComplete
      ensures Valid() && Abstract() == old(Abstract()).(codeComplete := state)
    {
      codeComplete := state;
    }

    method GetCodeUpdate(receivedChar: char)
      requires Valid()
      requires mode == GET_CODE
      modifies this, codeSequence
      ensures Valid()
      ensures Abstract() == SerialComSpec.GetCodeUpdate(old(Abstract()), receivedChar)
    {
      codeSequence[numberOfCodeChars] := receivedChar;
      effects := effects + [Write(Star)];
      numberOfCodeChars := numberOfCodeChars + 1;
      if numberOfCodeChars >= CODE_NUMBER_OF_KEYS {
        mode := COMMANDS;
        codeComplete := true;
        numberOfCodeChars := 0;
      }
    }

    method SaveNewCodeUpdate(receivedChar: char)
      requires Valid()
      requires mode == SAVE_NEW_CODE
      modifies this, newCodeSequence
      ensures Valid()
      ensures Abstract() == SerialComSpec.SaveNewCodeUpdate(old(Abstract()), receivedChar)
    {
      newCodeSequence[numberOfCodeChars] := receivedChar;
      effects := effects + [Write(Star)];
      numberOfCodeChars := numberOfCodeChars + 1;
      if numberOfCodeChars >= CODE_NUMBER_OF_KEYS {
        mode := COMMANDS;
        numberOfCodeChars := 0;
        effects := effects + [CodeWrite(newCodeSequence[..])];
        effects := effects + [Write(NewCodeConfigured)];
      }
    }

    method CommandUpdate(receivedChar: char, p: Peripherals)
      requires Valid()
      requires mode == COMMANDS
      modifies this
      ensures Valid()
      ensures Abstract() == SerialComSpec.CommandUpdate(old(Abstract()), receivedChar, p)
    {
      match receivedChar
      case '1' => effects := effects + [Write(AlarmState(p.sirenActive))];
      case '2' => effects := effects + [Write(GasDetectorState(p.gasDetected))];
      case '3' => effects := effects + [Write(OverTemperatureState(p.overTemperature))];
      case '4' => EnterCodeSequence(p.sirenActive);
      case '5' => EnterNewCode();
      case 'c' => effects := effects + [Write(TemperatureCelsius)];
      case 'C' => effects := effects + [Write(TemperatureCelsius)];
      case 'f' => effects := effects + [Write(TemperatureFahrenheit)];
      case 'F' => effects := effects + [Write(TemperatureFahrenheit)];
      case 's' => SetDateAndTime();
      case 'S' => SetDateAndTime();
      case 't' => effects := effects + [Write(DateAndTimeShown(p.dateAndTimeText))];
      case 'T' => effects := effects + [Write(DateAndTimeShown(p.dateAndTimeText))];
      case 'e' => ShowStoredEvents(p.storedEvents);
      case 'E' => ShowStoredEvents(p.storedEvents);
      case _ => AvailableCommands();
    }

    method AvailableCommands()
      modifies this`effects
      ensures effects == old(effects) + [Write(Menu)]
    {
      effects := effects + [Write(Menu)];
    }

    method EnterCodeSequence(sirenActive: bool)
      modifies this
      ensures Abstract() == SerialComSpec.EnterCodeSequence(old(Abstract()), sirenActive)
    {
      if sirenActive {
        effects := effects + [Write(CodePrompt)];
        mode := GET_CODE;
        codeComplete := false;
        numberOfCodeChars := 0;
      } else {
        effects := effects + [Write(AlarmNotActivated)];
      }
    }

    method EnterNewCode()
      modifies this
      ensures Abstract() == SerialComSpec.EnterNewCode(old(Abstract()))
    {
      effects := effects + [Write(NewCodePrompt)];
      numberOfCodeChars := 0;
      mode := SAVE_NEW_CODE;
    }

    method SetDateAndTime()
      modifies this
      ensures Abstract() == SerialComSpec.SetDateAndTime(old(Abstract()))
    {
      effects := effects + [Write(DateAndTimePrompt)];
      mode := SETTING_DATE_AND_TIME;
      numberOfDateAndTimeChars := 0;
    }

    /** Writes the stored events one by one, oldest first. */
    method ShowStoredEvents(storedEvents: seq<string>)
      modifies this`effects
      ensures effects == old(effects) + EventLines(storedEvents)
    {
      var i := 0;
      while i < |storedEvents|
        invariant 0 <= i <= |storedEvents|
        invariant effects == old(effects) + EventLines(storedEvents[..i])
      {
        effects := effects + [Write(StoredEvent(storedEvents[i]))];
        i := i + 1;
        assert EventLines(storedEvents[..i]) == EventLines(storedEvents[..i - 1]) + [Write(StoredEvent(storedEvents[i - 1]))];
      }
      assert storedEvents[..i] == storedEvents;
    }

    /**
     * One character of the timestamp; the 19th is followed by the parse, the
     * call to the clock and the confirmation. The completion resets the code
     * counter, as the firmware does, and leaves the date and time counter at 19.
     */
    method SetDateAndTimeUpdate(receivedChar: char)
      requires Valid()
      requires mode == SETTING_DATE_AND_TIME
      modifies this, dateAndTimeInput
      ensures Valid()
      ensures Abstract() == SerialComSpec.DateAndTimeUpdate(old(Abstract()), receivedChar)
    {
      dateAndTimeInput[numberOfDateAndTimeChars] := receivedChar;
      numberOfDateAndTimeChars := numberOfDateAndTimeChars + 1;
      if numberOfDateAndTimeChars >= DATE_AND_TIME_FORMAT_LENGTH {
        var dateTime := ParseDateTime(dateAndTimeInput[..]);
        effects := effects + [DateAndTimeWrite(dateTime)];
        effects := effects + [Write(NewDateAndTimeSet)];
        numberOfCodeChars := 0;
        mode := COMMANDS;
      }
    }
  }
}
