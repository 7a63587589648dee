# Serial console of the alarm system

This project models the serial console input state machine of
`modules/pc_serial_com/pc_serial_com.cpp`. The host polls the console, and each
poll hands one received character (NUL when nothing was readable) to the mode
dispatcher. The current mode decides what the character does:

- **commands**: single-key status queries and actions;
- **get code**: masked entry of the code that deactivates the alarm;
- **save new code**: masked entry of a replacement code, handed to the code store;
- **setting date and time**: unechoed entry of a 19-character
  `YYYY-MM-DDThh:mm:ss` timestamp. Its six fields are read at fixed offsets
  with C `atoi` and handed to the clock.

Layout:

- `c_atoi.dfy` (module `CAtoi`): C library `atoi`. It skips white space,
  reads an optional sign and then the leading decimal digits. A positional
  reading of digit strings serves as the independent reference.
- `date_and_time.dfy` (module `DateAndTime`): the fixed-offset parse of the
  timestamp, `Format`, a rendering that parsing inverts, and the unterminated `hour` field.
- `serial_com_spec.dfy` (module `SerialComSpec`): the console as a function
  of its state. The state holds the raw mode value, the `codeComplete` flag,
  both counters, the three buffers and a trace of effects. `Step` is one call
  of the dispatcher; `Run` feeds a sequence of characters.
- `serial_com_properties.dfy` (module `SerialComProperties`): lemmas about
  whole key sequences. They cover code entry, new-code entry, timestamp
  entry, NUL transparency, case insensitivity and the invariant of states
  reachable from start-up.
- `pc_serial_com.dfy` (module `SerialCom`): class `PcSerialCom`. Its fields
  are the module's globals and static buffers, and its methods update them in
  place. The ensures of every state-changing method give the whole new
  abstract state, through the matching `SerialComSpec` function where there
  is one.

Collaborators are inputs. `Peripherals` carries what the siren, the gas and
over-temperature detectors, the clock text and the event log report. Calls
out of the console are recorded in order in a ghost trace of `Effect`s:

- text written to the port, as a `Message`;
- `codeWrite(code)`;
- `dateAndTimeWrite(...)`.

Quirks of the firmware that the model keeps:

- Both code entries share the one counter `numberOfCodeChars`. They do not
  have a counter each.
- Completing a timestamp resets `numberOfCodeChars`, not
  `numberOfDateAndTimeChars`. The date counter stays at 19 until the next
  's' command resets it.
- Fields are read with C `atoi`. It accepts leading white space and a sign,
  so a field can be negative (`AtoiSignedDigits` gives the value).
- Completion tests use `>=`.

## Model

| member | source | states |
|---|---|---|
| CAtoi.Atoi | modules/pc_serial_com/pc_serial_com.cpp:316 | the value of an n-character field lies strictly between -10^(n-1) and 10^n; a field that starts with anything but white space, a digit or a sign reads as 0 (the other digitless fields are `CAtoi.AtoiNoDigits`) |
| CAtoi.AtoiNoDigits | modules/pc_serial_com/pc_serial_com.cpp:316 | white space, then an optional sign, then no digit (end of field or any other character) reads as 0 |
| CAtoi.AtoiSignedDigits | modules/pc_serial_com/pc_serial_com.cpp:316 | white space, an optional sign and a run of digits ended by a non-digit read as the decimal value of the digits, negated after '-' |
| CAtoi.AtoiLeadingDigits | modules/pc_serial_com/pc_serial_com.cpp:316 | `atoi` of a run of digits followed by a non-digit is the positional decimal value of the digits, whatever follows |
| CAtoi.AtoiOfDigits | modules/pc_serial_com/pc_serial_com.cpp:316 | reading back a zero-padded decimal rendering of n gives n |
| DateAndTime.ParseDateTime | modules/pc_serial_com/pc_serial_com.cpp:291-316 | the six fields are `atoi` of [0,4), [5,7), [8,10), [11,13), [14,16) and [17,19); the year lies in (-1000, 10000) and every other field in (-10, 100) |
| DateAndTime.ParseFormat | modules/pc_serial_com/pc_serial_com.cpp:292-316 | parsing the formatted text of any in-range date and time gives back the same six values |
| DateAndTime.Format | modules/pc_serial_com/pc_serial_com.cpp:18 | the text is 19 characters with '-', '-', 'T', ':' and ':' at offsets 4, 7, 10, 13 and 16 |
| DateAndTime.SeparatorsIgnored | modules/pc_serial_com/pc_serial_com.cpp:292-314 | two inputs that differ only at the separator offsets parse alike: the separators are never read |
| DateAndTime.ParseReadsPrefix | modules/pc_serial_com/pc_serial_com.cpp:285-316 | only the first 19 characters of the 20-character buffer are read |
| DateAndTime.ParseExample | modules/pc_serial_com/pc_serial_com.cpp:291-316 | "2024-01-02T03:04:05" parses to (2024, 1, 2, 3, 4, 5) |
| DateAndTime.HourAsWritten | modules/pc_serial_com/pc_serial_com.cpp:304-316 | the hour as the code reads it, `atoi` over the two hour characters and whatever memory follows `hour[1]`, since `hour[2]` is never set; bounded by the length read |
| DateAndTime.HourAsWrittenAgrees | modules/pc_serial_com/pc_serial_com.cpp:304-316 | the hour as written equals the intended two-character hour whenever the byte after the two hour digits is not a digit |
| DateAndTime.UnterminatedHourMisread | modules/pc_serial_com/pc_serial_com.cpp:304-306 | with a '7' left in `hour[2]`, "…T03…" reads as hour 37 while the intended hour is 3 |
| SerialComSpec.Initial | modules/pc_serial_com/pc_serial_com.cpp:37-44 | start-up state: command mode, flag clear, both counters 0, all three buffers NUL-filled as zero-initialised globals are, nothing written; satisfies the bounds invariant |
| SerialComSpec.CommandUpdate | modules/pc_serial_com/pc_serial_com.cpp:155-261 | the result for every key: '1', '2', '3' write the siren, gas and over-temperature readings; 'c'/'C' and 'f'/'F' write a temperature line; 't'/'T' writes the clock text; 'e'/'E' writes the stored events in order; '4' with the siren active prompts and enters code entry with the flag cleared and the code counter 0, without it only writes the rejection; '5' prompts and enters new-code entry with the code counter 0; 's'/'S' prompts and enters timestamp entry with the date counter 0; any other key only writes the menu; hence in command mode the mode changes iff the key is '4' with the siren active, '5', 's' or 'S'; no buffer changes; the invariant is kept |
| SerialComSpec.Step | modules/pc_serial_com/pc_serial_com.cpp:87-114 | NUL changes nothing; any other character in an out-of-range mode resets the mode to commands and changes nothing else; the counter bounds (code counter below 4, date counter at most 19 and below 19 while a timestamp is entered) are preserved; output is only appended |
| SerialComSpec.Run | modules/pc_serial_com/pc_serial_com.cpp:87-114 | over any sequence of characters the bounds invariant holds and output is only appended |
| SerialComProperties.ModeFrames | modules/pc_serial_com/pc_serial_com.cpp:128-153 | per entry mode, what one character cannot touch: deactivation keys leave the new-code and timestamp state, new-code keys leave the deactivation buffer, the flag and the timestamp state, timestamp characters leave both code buffers and the flag |
| SerialComProperties.NulsAreInvisible | modules/pc_serial_com/pc_serial_com.cpp:87-90 | feeding an input equals feeding it with every NUL removed |
| SerialComProperties.RunAppend | modules/pc_serial_com/pc_serial_com.cpp:87-114 | feeding a then b equals feeding a + b |
| SerialComProperties.DeactivationStoresNoCode | modules/pc_serial_com/pc_serial_com.cpp:128-138 | a deactivation key hands no code to the code store |
| SerialComProperties.LetterCommandsIgnoreCase | modules/pc_serial_com/pc_serial_com.cpp:163-167 | 'c', 'f', 's', 't' and 'e' act exactly as their capitals |
| SerialComProperties.StatusQueryRepeatable | modules/pc_serial_com/pc_serial_com.cpp:188-213 | the same status key twice writes the same line twice and changes nothing else |
| SerialComProperties.GetCodeTyping | modules/pc_serial_com/pc_serial_com.cpp:128-132 | deactivation keys before the last are stored at consecutive positions from the counter, one '*' each, the counter advanced by their number |
| SerialComProperties.GetCodeComplete | modules/pc_serial_com/pc_serial_com.cpp:128-138 | four keys from position 0 leave exactly those keys in the buffer, the flag set, the counter 0, command mode, and four '*' written |
| SerialComProperties.DeactivationCodeEntry | modules/pc_serial_com/pc_serial_com.cpp:215-226 | '4' with the siren active, then four keys: prompt, four '*', the keys in the buffer in order, flag set, command mode |
| SerialComProperties.DeactivationCodePartial | modules/pc_serial_com/pc_serial_com.cpp:215-226 | '4' then fewer than four keys: still in code entry, flag clear, counter equal to the keys typed |
| SerialComProperties.SaveNewCodeTyping | modules/pc_serial_com/pc_serial_com.cpp:140-146 | new-code keys before the last are stored at consecutive positions, one '*' each |
| SerialComProperties.SaveNewCodeComplete | modules/pc_serial_com/pc_serial_com.cpp:140-153 | four keys from position 0: four '*', then `codeWrite` of exactly those keys, then the confirmation, back in command mode with the counter 0 |
| SerialComProperties.NewCodeEntry | modules/pc_serial_com/pc_serial_com.cpp:228-235 | '5' then four keys stores exactly the typed code once (one `codeWrite` in the trace) and leaves the deactivation buffer and the flag untouched |
| SerialComProperties.NoCodeWritesInStars | modules/pc_serial_com/pc_serial_com.cpp:145 | the masking echo contains no `codeWrite` |
| SerialComProperties.DateAndTimeTyping | modules/pc_serial_com/pc_serial_com.cpp:285-289 | timestamp characters before the 19th are stored in place with no output |
| SerialComProperties.DateAndTimeLastChar | modules/pc_serial_com/pc_serial_com.cpp:288-322 | the 19th character triggers one `dateAndTimeWrite` of the parsed buffer and the confirmation, resets the code counter and returns to command mode, leaving the date counter at 19 |
| SerialComProperties.DateAndTimeComplete | modules/pc_serial_com/pc_serial_com.cpp:282-322 | 19 characters from position 0 give exactly one `dateAndTimeWrite` of the parse of those characters, then the confirmation, in command mode |
| SerialComProperties.DateAndTimeEntry | modules/pc_serial_com/pc_serial_com.cpp:253-261 | 's' then 19 characters: prompt, one `dateAndTimeWrite` of the parse of those characters, confirmation, whatever the date counter held before |
| SerialComProperties.DateAndTimeExample | modules/pc_serial_com/pc_serial_com.cpp:282-322 | typing "s2024-01-02T03:04:05" sets the clock to (2024, 1, 2, 3, 4, 5) |
| SerialComProperties.ConsecutiveTimestamps | modules/pc_serial_com/pc_serial_com.cpp:259-320 | two 's'-prefixed timestamps in a row are both read afresh, although completion leaves the date counter at 19 |
| SerialComProperties.StepKeepsSettled | modules/pc_serial_com/pc_serial_com.cpp:87-114 | the mode stays in range and the code counter is 0 outside the code-entry modes, across one step |
| SerialComProperties.RunKeepsSettled | modules/pc_serial_com/pc_serial_com.cpp:87-114 | the same across any input |
| SerialComProperties.Reachable | modules/pc_serial_com/pc_serial_com.cpp:41-114 | every state reached from start-up has the mode in range and the code counter 0 outside code entry |
| SerialComProperties.DateAndTimeCodeResetRedundant | modules/pc_serial_com/pc_serial_com.cpp:320 | on a reachable state, resetting the code counter on timestamp completion changes nothing |
| SerialCom.PcSerialCom.constructor | modules/pc_serial_com/pc_serial_com.cpp:37-44 | the object starts in the start-up state with fresh buffers |
| SerialCom.PcSerialCom.Init | modules/pc_serial_com/pc_serial_com.cpp:68-71 | writes the menu and nothing else |
| SerialCom.PcSerialCom.Update | modules/pc_serial_com/pc_serial_com.cpp:87-114 | updates the fields and buffers in place exactly as `Step` says, keeping the invariant |
| SerialCom.PcSerialCom.CodeCompleteRead | modules/pc_serial_com/pc_serial_com.cpp:116-119 | returns the flag |
| SerialCom.PcSerialCom.CodeCompleteWrite | modules/pc_serial_com/pc_serial_com.cpp:121-124 | sets the flag and changes nothing else |
| SerialCom.PcSerialCom.GetCodeUpdate | modules/pc_serial_com/pc_serial_com.cpp:128-138 | follows `SerialComSpec.GetCodeUpdate`, writing one array element; called in code entry, it keeps the invariant |
| SerialCom.PcSerialCom.SaveNewCodeUpdate | modules/pc_serial_com/pc_serial_com.cpp:140-153 | follows `SerialComSpec.SaveNewCodeUpdate`, writing one array element; called in new-code entry, it keeps the invariant |
| SerialCom.PcSerialCom.CommandUpdate | modules/pc_serial_com/pc_serial_com.cpp:155-170 | follows `SerialComSpec.CommandUpdate`; called in command mode, it keeps the invariant |
| SerialCom.PcSerialCom.AvailableCommands | modules/pc_serial_com/pc_serial_com.cpp:172-186 | writes the menu |
| SerialCom.PcSerialCom.EnterCodeSequence | modules/pc_serial_com/pc_serial_com.cpp:215-226 | follows `SerialComSpec.EnterCodeSequence` |
| SerialCom.PcSerialCom.EnterNewCode | modules/pc_serial_com/pc_serial_com.cpp:228-235 | follows `SerialComSpec.EnterNewCode` |
| SerialCom.PcSerialCom.SetDateAndTime | modules/pc_serial_com/pc_serial_com.cpp:253-261 | follows `SerialComSpec.SetDateAndTime` |
| SerialCom.PcSerialCom.ShowStoredEvents | modules/pc_serial_com/pc_serial_com.cpp:271-280 | writes one line per stored event, in index order |
| SerialCom.PcSerialCom.SetDateAndTimeUpdate | modules/pc_serial_com/pc_serial_com.cpp:282-324 | follows `SerialComSpec.DateAndTimeUpdate`, writing one array element; called in timestamp entry, it keeps the invariant |

## Left out

- The UART transport (`uartUsb`, `pcSerialComCharRead` and `pcSerialComStringWrite`, lines 31 and 73-85) is hardware I/O. The received character is a parameter, and written text is an entry in the ghost trace.
- Exact message text is not modelled. The trace records which message was written, not its bytes.
- The temperature commands 'c' and 'f' format floats with `sprintf`. They are modelled as writing one line and changing no state. The Fahrenheit line printing a "C" unit is not visible at this level.
- The bodies of the collaborators are not modelled: siren, gas and over-temperature detectors, `codeWrite`, `dateAndTimeRead`, `dateAndTimeWrite` and the event log. Their readings are inputs, and the calls out are recorded in the trace.
- `Peripherals` is fixed for the whole of one `Run`. A collaborator whose reading changes between characters needs several `Run`s joined with `RunAppend`.
- The stored-events loop calls `eventLogNumberOfStoredEvents()` on every iteration. It is modelled as a fixed list of events.
- `char` is a Unicode scalar here, not an 8-bit byte. `isspace` is the "C" locale set.
- `atoi` overflow is not modelled. A field of at most four characters stays far from the `int` range.
- An out-of-range mode value can only come from memory corruption. It is modelled by keeping the mode as the raw enumeration value.
- The clock receives the intended two-character hour (`ParseDateTime`), not the hour the code as written reads past an unterminated `hour[2]`; that reading is `HourAsWritten`, see "## Findings".
- `modules/strobe_light/strobe_light.cpp` is not part of this model. It is GPIO and timer handling.

## Findings

| source | as written | input that shows it | evidently intended | confidence | as-written member | corrected member |
|---|---|---|---|---|---|---|
| modules/pc_serial_com/pc_serial_com.cpp:304-306 | after copying the two hour characters, the code terminates `day[2]` again, so `hour[2]` is never set and `atoi(hour)` reads on into whatever follows | "2024-01-02T03:04:05" with the byte '7' left after `hour[1]`: hour 37 | `hour[2] = '\0'`, so the hour is `atoi` of offsets 11-12 alone: 3 | not executed | DateAndTime.HourAsWritten | DateAndTime.ParseDateTime |
