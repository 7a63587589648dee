/**
 * The serial-console input state machine as a function of its state: each
 * received character is interpreted according to the current mode (single
 * key commands, masked entry of the deactivation code, masked entry of a new
 * code, or entry of a "YYYY-MM-DDThh:mm:ss" timestamp). The class in module
 * SerialCom is proved to follow `Step` exactly.
 */
module SerialComSpec {
  import opened DateAndTime

  /** Number of keys in an access code. */
  const CODE_NUMBER_OF_KEYS := 4

  // Values of the mode enumeration, in declaration order. The mode is kept
  // as the enumeration's integer value so that a corrupted value can be
  // represented, as the dispatcher's `default` branch expects.
  const COMMANDS := 0
  const GET_CODE := 1
  const SAVE_NEW_CODE := 2
  const SETTING_DATE_AND_TIME := 3

  predicate IsMode(v: int) {
    COMMANDS <= v <= SETTING_DATE_AND_TIME
  }

  /** Which text the console writes; the exact wording is not modelled. */
  datatype Message =
    | Menu                                  // the list of available commands
    | AlarmState(activated: bool)
    | GasDetectorState(detected: bool)
    | OverTemperatureState(above: bool)
    | CodePrompt                            // asks for the deactivation code
    | AlarmNotActivated
    | NewCodePrompt
    | TemperatureCelsius
    | TemperatureFahrenheit
    | DateAndTimePrompt
    | DateAndTimeShown(text: string)
    | StoredEvent(text: string)
    | Star                                  // the masking echo of one code key
    | NewCodeConfigured
    | NewDateAndTimeSet

  /** What the console does to the outside world, in order. */
  datatype Effect =
    | Write(message: Message)               // text sent to the serial port
    | CodeWrite(code: seq<char>)            // the new code handed to the code store
    | DateAndTimeWrite(dateTime: DateTime)  // the new date and time handed to the clock

  /** What the collaborators report when they are asked during one call. */
  datatype Peripherals = Peripherals(
    sirenActive: bool,
    gasDetected: bool,
    overTemperature: bool,
    dateAndTimeText: string,
    storedEvents: seq<string>)

  /**
   * The console's whole state: the mode, the code-complete flag, the code key
   * counter shared by both code entries, the date and time character counter,
   * the three buffers and the trace of effects so far.
   */
  datatype State = State(
    mode: int,
    codeComplete: bool,
    codeChars: int,
    dateChars: int,
    code: seq<char>,
    newCode: seq<char>,
    dateInput: seq<char>,
    effects: seq<Effect>)

  /**
   * Bounds that keep every buffer access in range: the code counter is below
   * the code length at all times, and the date and time counter is below 19
   * whenever a timestamp is being entered (it stays at 19 after one completes).
   */
  predicate Inv(s: State) {
    |s.code| == CODE_NUMBER_OF_KEYS && |s.newCode| == CODE_NUMBER_OF_KEYS &&
    |s.dateInput| == DATE_AND_TIME_FORMAT_LENGTH + 1 &&
    0 <= s.codeChars < CODE_NUMBER_OF_KEYS &&
    0 <= s.dateChars <= DATE_AND_TIME_FORMAT_LENGTH &&
    (s.mode == SETTING_DATE_AND_TIME ==> s.dateChars < DATE_AND_TIME_FORMAT_LENGTH)
  }

  /** The state at start-up: command mode, zeroed counters and buffers, nothing written. */
  function Initial(): (s: State)
    ensures Inv(s) && s.mode == COMMANDS && !s.codeComplete && s.effects == []
    ensures s.codeChars == 0 && s.dateChars == 0
    ensures forall i :: 0 <= i < |s.code| ==> s.code[i] == '\0'
    ensures forall i :: 0 <= i < |s.newCode| ==> s.newCode[i] == '\0'
    ensures forall i :: 0 <= i < |s.dateInput| ==> s.dateInput[i] == '\0'
  {
    State(COMMANDS, false, 0, 0,
          seq(CODE_NUMBER_OF_KEYS, _ => '\0'), seq(CODE_NUMBER_OF_KEYS, _ => '\0'),
          seq(DATE_AND_TIME_FORMAT_LENGTH + 1, _ => '\0'), [])
  }

  function WithWrite(s: State, m: Message): State {
    s.(effects := s.effects + [Write(m)])
  }

  /** The lines written for the stored events, oldest first. */
  function EventLines(events: seq<string>): seq<Effect> {
    seq(|events|, i requires 0 <= i < |events| => Write(StoredEvent(events[i])))
  }

  predicate IsCommandKey(c: char) {
    c in "12345cCfFsStTeE"
  }

  /** Commands that only report something and leave the state alone. */
  predicate IsQueryKey(c: char) {
    c in "123cCfFtTeE"
  }

  /** Command '4': code entry is only opened while the siren is active. */
  function EnterCodeSequence(s: State, sirenActive: bool): State {
    if sirenActive then
      WithWrite(s, CodePrompt).(mode := GET_CODE, codeComplete := false, codeChars := 0)
    else
      WithWrite(s, AlarmNotActivated)
  }

  /** Command '5': entry of a new code is always allowed. */
  function EnterNewCode(s: State): State {
    WithWrite(s, NewCodePrompt).(codeChars := 0, mode := SAVE_NEW_CODE)
  }

  /** Command 's' or 'S': a fresh timestamp entry. */
  function SetDateAndTime(s: State): State {
    WithWrite(s, DateAndTimePrompt).(mode := SETTING_DATE_AND_TIME, dateChars := 0)
  }

  /** Interprets one character as a command. */
  function CommandUpdate(s: State, c: char, p: Peripherals): (r: State)
    ensures Inv(s) ==> Inv(r)
    ensures s.effects <= r.effects
    ensures s.mode == COMMANDS ==>
              (r.mode != s.mode <==> (c == '4' && p.sirenActive) || c == '5' || c == 's' || c == 'S')
    ensures r.codeComplete == if c == '4' && p.sirenActive then false else s.codeComplete
    ensures !IsCommandKey(c) ==> r == WithWrite(s, Menu)
    ensures c == '4' && !p.sirenActive ==> r == WithWrite(s, AlarmNotActivated)
    ensures IsQueryKey(c) ==> r == s.(effects := r.effects)
    ensures r.code == s.code && r.newCode == s.newCode && r.dateInput == s.dateInput
    ensures c == '1' ==> r == WithWrite(s, AlarmState(p.sirenActive))
    ensures c == '2' ==> r == WithWrite(s, GasDetectorState(p.gasDetected))
    ensures c == '3' ==> r == WithWrite(s, OverTemperatureState(p.overTemperature))
    ensures c == '4' && p.sirenActive ==>
              r == WithWrite(s, CodePrompt).(mode := GET_CODE, codeComplete := false, codeChars := 0)
    ensures c == '5' ==> r == WithWrite(s, NewCodePrompt).(mode := SAVE_NEW_CODE, codeChars := 0)
    ensures c == 'c' || c == 'C' ==> r == WithWrite(s, TemperatureCelsius)
    ensures c == 'f' || c == 'F' ==> r == WithWrite(s, TemperatureFahrenheit)
    ensures c == 's' || c == 'S' ==>
              r == WithWrite(s, DateAndTimePrompt).(mode := SETTING_DATE_AND_TIME, dateChars := 0)
    ensures c == 't' || c == 'T' ==> r == WithWrite(s, DateAndTimeShown(p.dateAndTimeText))
    ensures c == 'e' || c == 'E' ==> r == s.(effects := s.effects + EventLines(p.storedEvents))
  {
    match c
    case '1' => WithWrite(s, AlarmState(p.sirenActive))
    case '2' => WithWrite(s, GasDetectorState(p.gasDetected))
    case '3' => WithWrite(s, OverTemperatureState(p.overTemperature))
    case '4' => EnterCodeSequence(s, p.sirenActive)
    case '5' => EnterNewCode(s)
    case 'c' => WithWrite(s, TemperatureCelsius)
    case 'C' => WithWrite(s, TemperatureCelsius)
    case 'f' => WithWrite(s, TemperatureFahrenheit)
    case 'F' => WithWrite(s, TemperatureFahrenheit)
    case 's' => SetDateAndTime(s)
    case 'S' => SetDateAndTime(s)
    case 't' => WithWrite(s, DateAndTimeShown(p.dateAndTimeText))
    case 'T' => WithWrite(s, DateAndTimeShown(p.dateAndTimeText))
    case 'e' => s.(effects := s.effects + EventLines(p.storedEvents))
    case 'E' => s.(effects := s.effects + EventLines(p.storedEvents))
    case _ => WithWrite(s, Menu)
  }

  /** One key of the deactivation code: stored, masked with '*', counted. */
  function GetCodeUpdate(s: State, c: char): State
    requires 0 <= s.codeChars < |s.code|
  {
    var t := WithWrite(s, Star).(code := s.code[s.codeChars := c], codeChars := s.codeChars + 1);
    if t.codeChars >= CODE_NUMBER_OF_KEYS then
      t.(mode := COMMANDS, codeComplete := true, codeChars := 0)
    else
      t
  }

  /** One key of a new code; the full code is handed to the code store. */
  function SaveNewCodeUpdate(s: State, c: char): State
    requires 0 <= s.codeChars < |s.newCode|
  {
    var t := WithWrite(s, Star).(newCode := s.newCode[s.codeChars := c], codeChars := s.codeChars + 1);
    if t.codeChars >= CODE_NUMBER_OF_KEYS then
      var u := t.(mode := COMMANDS, codeChars := 0);
      WithWrite(u.(effects := u.effects + [CodeWrite(u.newCode)]), NewCodeConfigured)
    else
      t
  }

  /**
   * One character of the timestamp, stored without echo; the 19th triggers
   * the parse. Completion resets the code counter, not the date and time
   * counter, which only command 's' resets.
   */
  function DateAndTimeUpdate(s: State, c: char): State
    requires 0 <= s.dateChars < |s.dateInput|
  {
    var t := s.(dateInput := s.dateInput[s.dateChars := c], dateChars := s.dateChars + 1);
    if t.dateChars >= DATE_AND_TIME_FORMAT_LENGTH then
      var u := t.(effects := t.effects + [DateAndTimeWrite(ParseDateTime(t.dateInput))]);
      WithWrite(u, NewDateAndTimeSet).(codeChars := 0, mode := COMMANDS)
    else
      t
  }

  /**
   * The dispatcher: a NUL character means nothing was read and changes
   * nothing; any other character goes to the handler of the current mode, and
   * an out-of-range mode is put back to command mode.
   */
  function Step(s: State, c: char, p: Peripherals): (r: State)
    requires Inv(s)
    ensures Inv(r)
    ensures c == '\0' ==> r == s
    ensures s.effects <= r.effects
    ensures c != '\0' && !IsMode(s.mode) ==> r == s.(mode := COMMANDS)
  {
    if c == '\0' then s
    else if s.mode == COMMANDS then CommandUpdate(s, c, p)
    else if s.mode == GET_CODE then GetCodeUpdate(s, c)
    else if s.mode == SAVE_NEW_CODE then SaveNewCodeUpdate(s, c)
    else if s.mode == SETTING_DATE_AND_TIME then DateAndTimeUpdate(s, c)
    else s.(mode := COMMANDS)
  }

  /** Feeds a sequence of characters, one call of the dispatcher each. */
  function Run(s: State, input: seq<char>, p: Peripherals): (r: State)
    requires Inv(s)
    ensures Inv(r)
    ensures s.effects <= r.effects
    decreases |input|
  {
    if input == [] then s else Run(Step(s, input[0], p), input[1..], p)
  }
}
