/**
 * Properties of the serial-console state machine over one character and
 * over whole sequences of characters.
 */
module SerialComProperties {
  import opened CAtoi
  import opened DateAndTime
  import opened SerialComSpec

  /** `n` masking echoes. */
  function Stars(n: nat): (e: seq<Effect>)
    ensures |e| == n && forall i :: 0 <= i < n ==> e[i] == Write(Star)
  {
    seq(n, _ => Write(Star))
  }

  predicate NoNul(w: seq<char>) {
    forall i :: 0 <= i < |w| ==> w[i] != '\0'
  }

  function WithoutNul(w: seq<char>): (v: seq<char>)
    ensures NoNul(v) && |v| <= |w|
  {
    if w == [] then []
    else if w[0] == '\0' then WithoutNul(w[1..])
    else [w[0]] + WithoutNul(w[1..])
  }

  /** The codes handed to the code store, in order. */
  function CodeWrites(e: seq<Effect>): seq<seq<char>> {
    if e == [] then []
    else (if e[0].CodeWrite? then [e[0].code] else []) + CodeWrites(e[1..])
  }

  lemma {:induction false} CodeWritesAppend(a: seq<Effect>, b: seq<Effect>)
    ensures CodeWrites(a + b) == CodeWrites(a) + CodeWrites(b)
  {
    if a != [] {
      assert (a + b)[1..] == a[1..] + b;
      CodeWritesAppend(a[1..], b);
    } else {
      assert a + b == b;
    }
  }

  /** Each character other than NUL goes to the handler of the current mode. */
  lemma DispatchByMode(s: State, c: char, p: Peripherals)
    requires Inv(s) && c != '\0'
    ensures s.mode == COMMANDS ==> Step(s, c, p) == CommandUpdate(s, c, p)
    ensures s.mode == GET_CODE ==> Step(s, c, p) == GetCodeUpdate(s, c)
    ensures s.mode == SAVE_NEW_CODE ==> Step(s, c, p) == SaveNewCodeUpdate(s, c)
    ensures s.mode == SETTING_DATE_AND_TIME ==> Step(s, c, p) == DateAndTimeUpdate(s, c)
  {
  }

  /**
   * What each entry mode cannot touch: a deactivation key leaves the new-code
   * and timestamp buffers and the date and time counter alone, a new-code key
   * the deactivation buffer, the flag and the timestamp state, and a
   * timestamp character both code buffers and the flag.
   */
  lemma ModeFrames(s: State, c: char, p: Peripherals)
    requires Inv(s)
    ensures var r := Step(s, c, p);
            s.mode == GET_CODE ==>
              r.newCode == s.newCode && r.dateInput == s.dateInput && r.dateChars == s.dateChars
    ensures var r := Step(s, c, p);
            s.mode == SAVE_NEW_CODE ==>
              r.code == s.code && r.codeComplete == s.codeComplete &&
              r.dateInput == s.dateInput && r.dateChars == s.dateChars
    ensures var r := Step(s, c, p);
            s.mode == SETTING_DATE_AND_TIME ==>
              r.code == s.code && r.newCode == s.newCode && r.codeComplete == s.codeComplete
  {
    if c != '\0' {
      DispatchByMode(s, c, p);
    }
  }

  /** Writing the last element of `w` after its other elements completes `w`. */
  lemma SpliceLast<T>(a: seq<T>, w: seq<T>)
    requires 0 < |w| <= |a|
    ensures (w[..|w| - 1] + a[|w| - 1..])[|w| - 1 := w[|w| - 1]] == w + a[|w|..]
  {
    var n := |w| - 1;
    var x := (w[..n] + a[n..])[n := w[n]];
    var y := w + a[|w|..];
    assert |x| == |y|;
    forall i | 0 <= i < |x|
      ensures x[i] == y[i]
    {
      if i < n {
        assert x[i] == w[i];
      } else if i > n {
        assert x[i] == a[i];
      }
    }
  }

  /** Writing the first element of `w` at `k` and the rest after it is writing `w` at `k`. */
  lemma SpliceStep<T>(a: seq<T>, k: nat, w: seq<T>)
    requires 0 < |w| && k + |w| <= |a|
    ensures a[k := w[0]][..k + 1] + w[1..] + a[k := w[0]][k + |w|..] == a[..k] + w + a[k + |w|..]
  {
    var x := a[k := w[0]][..k + 1] + w[1..] + a[k := w[0]][k + |w|..];
    var y := a[..k] + w + a[k + |w|..];
    assert |x| == |y|;
    forall i | 0 <= i < |x|
      ensures x[i] == y[i]
    {
      if i < k {
        assert x[i] == a[i];
      } else if i == k {
        assert x[i] == w[0];
      } else if i < k + |w| {
        assert x[i] == w[i - k];
      } else {
        assert x[i] == a[i];
      }
    }
  }

  lemma StarsStep(n: nat)
    ensures [Write(Star)] + Stars(n) == Stars(n + 1)
  {
  }

  /** Feeding `a` then `b` is feeding `a + b`. */
  lemma {:induction false} RunAppend(s: State, a: seq<char>, b: seq<char>, p: Peripherals)
    requires Inv(s)
    ensures Run(s, a + b, p) == Run(Run(s, a, p), b, p)
    decreases |a|
  {
    if a == [] {
      assert a + b == b;
    } else {
      assert (a + b)[0] == a[0] && (a + b)[1..] == a[1..] + b;
      RunAppend(Step(s, a[0], p), a[1..], b, p);
    }
  }

  /** NUL characters anywhere in the input are invisible. */
  lemma {:induction false} NulsAreInvisible(s: State, w: seq<char>, p: Peripherals)
    requires Inv(s)
    ensures Run(s, w, p) == Run(s, WithoutNul(w), p)
    decreases |w|
  {
    if w != [] {
      NulsAreInvisible(Step(s, w[0], p), w[1..], p);
      if w[0] != '\0' {
        var v := [w[0]] + WithoutNul(w[1..]);
        assert v[0] == w[0] && v[1..] == WithoutNul(w[1..]);
      } else {
        NulsAreInvisible(s, w[1..], p);
      }
    }
  }

  /**
   * No code is handed to the code store while the deactivation code is
   * typed; the buffer and flag frames of each entry mode are `ModeFrames`.
   */
  lemma DeactivationStoresNoCode(s: State, c: char, p: Peripherals)
    requires Inv(s) && s.mode == GET_CODE
    ensures CodeWrites(Step(s, c, p).effects) == CodeWrites(s.effects)
  {
    var r := Step(s, c, p);
    if s.mode == GET_CODE && c != '\0' {
      assert r.effects == s.effects + [Write(Star)];
      CodeWritesAppend(s.effects, [Write(Star)]);
    }
  }

  /** The letter commands do not depend on case. */
  lemma LetterCommandsIgnoreCase(s: State, p: Peripherals)
    ensures CommandUpdate(s, 'c', p) == CommandUpdate(s, 'C', p)
    ensures CommandUpdate(s, 'f', p) == CommandUpdate(s, 'F', p)
    ensures CommandUpdate(s, 's', p) == CommandUpdate(s, 'S', p)
    ensures CommandUpdate(s, 't', p) == CommandUpdate(s, 'T', p)
    ensures CommandUpdate(s, 'e', p) == CommandUpdate(s, 'E', p)
  {
  }


  /** Asking for the same status twice writes the same line twice and changes nothing else. */
  lemma StatusQueryRepeatable(s: State, c: char, p: Peripherals)
    requires Inv(s) && s.mode == COMMANDS
    requires c == '1' || c == '2' || c == '3'
    ensures var r := Run(s, [c, c], p);
            |r.effects| == |s.effects| + 2 &&
            r.effects[|s.effects|] == r.effects[|s.effects| + 1] &&
            r == s.(effects := r.effects)
  {
    var r1 := Step(s, c, p);
    assert Run(s, [c, c], p) == Run(r1, [c], p);
    assert Run(r1, [c], p) == Step(r1, c, p);
  }

  /** Deactivation-code keys before the last: stored in order, masked, counted. */
  lemma {:induction false} GetCodeTyping(s: State, w: seq<char>, p: Peripherals)
    requires Inv(s) && s.mode == GET_CODE && NoNul(w)
    requires s.codeChars + |w| < CODE_NUMBER_OF_KEYS
    ensures Run(s, w, p) ==
              s.(code := s.code[..s.codeChars] + w + s.code[s.codeChars + |w|..],
                 codeChars := s.codeChars + |w|,
                 effects := s.effects + Stars(|w|))
    decreases |w|
  {
    var k := s.codeChars;
    if w == [] {
      assert s.code[..k] + w + s.code[k..] == s.code;
      assert s.effects + Stars(0) == s.effects;
    } else {
      var t := s.(code := s.code[k := w[0]], codeChars := k + 1, effects := s.effects + [Write(Star)]);
      assert Step(s, w[0], p) == t by {
        DispatchByMode(s, w[0], p);
      }
      assert Run(s, w, p) == Run(t, w[1..], p);
      GetCodeTyping(t, w[1..], p);
      SpliceStep(s.code, k, w);
      StarsStep(|w| - 1);
      assert t.effects + Stars(|w| - 1) == s.effects + Stars(|w|);
    }
  }

  /**
   * The last of CODE_NUMBER_OF_KEYS keys completes the deactivation code:
   * command mode again, the flag set, the counter back at 0 and the buffer
   * holding the keys typed, in order, with one '*' written per key.
   */
  lemma GetCodeComplete(s: State, w: seq<char>, p: Peripherals)
    requires Inv(s) && s.mode == GET_CODE && s.codeChars == 0
    requires |w| == CODE_NUMBER_OF_KEYS && NoNul(w)
    ensures Run(s, w, p) ==
              s.(mode := COMMANDS, codeComplete := true, codeChars := 0, code := w,
                 effects := s.effects + Stars(CODE_NUMBER_OF_KEYS))
  {
    var n := CODE_NUMBER_OF_KEYS - 1;
    assert w == w[..n] + w[n..];
    RunAppend(s, w[..n], w[n..], p);
    GetCodeTyping(s, w[..n], p);
    var t := Run(s, w[..n], p);
    assert Run(t, w[n..], p) == Step(t, w[n], p);
    assert t.code[n := w[n]] == w;
    assert t.effects + [Write(Star)] == s.effects + Stars(CODE_NUMBER_OF_KEYS);
  }

  /**
   * '4' while the siren is active followed by CODE_NUMBER_OF_KEYS keys leaves
   * the code entered in the buffer with the flag set, back in command mode.
   */
  lemma DeactivationCodeEntry(s: State, w: seq<char>, p: Peripherals)
    requires Inv(s) && s.mode == COMMANDS && p.sirenActive
    requires |w| == CODE_NUMBER_OF_KEYS && NoNul(w)
    ensures Run(s, ['4'] + w, p) ==
              s.(codeComplete := true, codeChars := 0, code := w,
                 effects := s.effects + [Write(CodePrompt)] + Stars(CODE_NUMBER_OF_KEYS))
  {
    var t := Step(s, '4', p);
    assert (['4'] + w)[0] == '4' && (['4'] + w)[1..] == w;
    GetCodeComplete(t, w, p);
  }

  /** With fewer keys the entry stays open and the flag stays clear. */
  lemma DeactivationCodePartial(s: State, w: seq<char>, p: Peripherals)
    requires Inv(s) && s.mode == COMMANDS && p.sirenActive
    requires |w| < CODE_NUMBER_OF_KEYS && NoNul(w)
    ensures var r := Run(s, ['4'] + w, p);
            r.mode == GET_CODE && !r.codeComplete && r.codeChars == |w| &&
            r.effects == s.effects + [Write(CodePrompt)] + Stars(|w|)
  {
    var t := Step(s, '4', p);
    assert (['4'] + w)[0] == '4' && (['4'] + w)[1..] == w;
    GetCodeTyping(t, w, p);
  }

  /** New-code keys before the last: stored in order, masked, counted. */
  lemma {:induction false} SaveNewCodeTyping(s: State, w: seq<char>, p: Peripherals)
    requires Inv(s) && s.mode == SAVE_NEW_CODE && NoNul(w)
    requires s.codeChars + |w| < CODE_NUMBER_OF_KEYS
    ensures Run(s, w, p) ==
              s.(newCode := s.newCode[..s.codeChars] + w + s.newCode[s.codeChars + |w|..],
                 codeChars := s.codeChars + |w|,
                 effects := s.effects + Stars(|w|))
    decreases |w|
  {
    var k := s.codeChars;
    if w == [] {
      assert s.newCode[..k] + w + s.newCode[k..] == s.newCode;
      assert s.effects + Stars(0) == s.effects;
    } else {
      var t := s.(newCode := s.newCode[k := w[0]], codeChars := k + 1, effects := s.effects + [Write(Star)]);
      assert Step(s, w[0], p) == t by {
        DispatchByMode(s, w[0], p);
      }
      assert Run(s, w, p) == Run(t, w[1..], p);
      SaveNewCodeTyping(t, w[1..], p);
      SpliceStep(s.newCode, k, w);
      StarsStep(|w| - 1);
      assert t.effects + Stars(|w| - 1) == s.effects + Stars(|w|);
    }
  }

  /**
   * The last of CODE_NUMBER_OF_KEYS keys of a new code hands the keys typed,
   * in order, to the code store, confirms, and returns to command mode.
   */
  lemma SaveNewCodeComplete(s: State, w: seq<char>, p: Peripherals)
    requires Inv(s) && s.mode == SAVE_NEW_CODE && s.codeChars == 0
    requires |w| == CODE_NUMBER_OF_KEYS && NoNul(w)
    ensures Run(s, w, p) ==
              s.(mode := COMMANDS, codeChars := 0, newCode := w,
                 effects := s.effects + Stars(CODE_NUMBER_OF_KEYS) + [CodeWrite(w), Write(NewCodeConfigured)])
  {
    var n := CODE_NUMBER_OF_KEYS - 1;
    var u := s.(newCode := w[..n] + s.newCode[n..], codeChars := n, effects := s.effects + Stars(n));
    assert Run(s, w[..n], p) == u by {
      SaveNewCodeTyping(s, w[..n], p);
      assert s.newCode[..0] + w[..n] + s.newCode[0 + n..] == w[..n] + s.newCode[n..];
    }
    assert Run(s, w, p) == Step(u, w[n], p) by {
      assert w == w[..n] + [w[n]];
      RunAppend(s, w[..n], [w[n]], p);
      assert Run(u, [w[n]], p) == Step(u, w[n], p);
    }
    DispatchByMode(u, w[n], p);
    SpliceLast(s.newCode, w);
    assert w + s.newCode[CODE_NUMBER_OF_KEYS..] == w;
    assert Stars(n) + [Write(Star)] == Stars(CODE_NUMBER_OF_KEYS);
  }

  /**
   * '5' followed by CODE_NUMBER_OF_KEYS keys hands exactly the keys typed, in
   * order, to the code store once, confirms, and returns to command mode. The
   * deactivation buffer and the code-complete flag are untouched.
   */
  lemma NewCodeEntry(s: State, w: seq<char>, p: Peripherals)
    requires Inv(s) && s.mode == COMMANDS
    requires |w| == CODE_NUMBER_OF_KEYS && NoNul(w)
    ensures var r := Run(s, ['5'] + w, p);
            r == s.(codeChars := 0, newCode := w,
                    effects := s.effects + [Write(NewCodePrompt)] + Stars(CODE_NUMBER_OF_KEYS) +
                               [CodeWrite(w), Write(NewCodeConfigured)]) &&
            CodeWrites(r.effects) == CodeWrites(s.effects) + [w]
  {
    var t := EnterNewCode(s);
    assert Step(s, '5', p) == t by {
      assert CommandUpdate(s, '5', p) == t;
    }
    assert (['5'] + w)[0] == '5' && (['5'] + w)[1..] == w;
    assert Run(s, ['5'] + w, p) == Run(t, w, p);
    SaveNewCodeComplete(t, w, p);
    var done := [CodeWrite(w), Write(NewCodeConfigured)];
    var tail := Stars(CODE_NUMBER_OF_KEYS) + done;
    assert s.effects + [Write(NewCodePrompt)] + Stars(CODE_NUMBER_OF_KEYS) + done
        == s.effects + ([Write(NewCodePrompt)] + tail);
    CodeWritesAppend(s.effects, [Write(NewCodePrompt)] + tail);
    CodeWritesAppend([Write(NewCodePrompt)], tail);
    assert CodeWrites([Write(NewCodePrompt)]) == [];
    CodeWritesAppend(Stars(CODE_NUMBER_OF_KEYS), done);
    NoCodeWritesInStars(CODE_NUMBER_OF_KEYS);
    assert done[1..] == [Write(NewCodeConfigured)] && done[1..][1..] == [];
    assert CodeWrites(done) == [w];
  }

  lemma {:induction false} NoCodeWritesInStars(n: nat)
    ensures CodeWrites(Stars(n)) == []
  {
    if n > 0 {
      assert Stars(n)[1..] == Stars(n - 1);
      NoCodeWritesInStars(n - 1);
    }
  }

  /** Timestamp characters before the 19th: stored in place, nothing written. */
  lemma {:induction false} DateAndTimeTyping(s: State, w: seq<char>, p: Peripherals)
    requires Inv(s) && s.mode == SETTING_DATE_AND_TIME && NoNul(w)
    requires s.dateChars + |w| < DATE_AND_TIME_FORMAT_LENGTH
    ensures Run(s, w, p) ==
              s.(dateInput := s.dateInput[..s.dateChars] + w + s.dateInput[s.dateChars + |w|..],
                 dateChars := s.dateChars + |w|)
    decreases |w|
  {
    var k := s.dateChars;
    if w == [] {
      assert s.dateInput[..k] + w + s.dateInput[k..] == s.dateInput;
    } else {
      var t := s.(dateInput := s.dateInput[k := w[0]], dateChars := k + 1);
      assert Step(s, w[0], p) == t by {
        DispatchByMode(s, w[0], p);
      }
      assert Run(s, w, p) == Run(t, w[1..], p);
      DateAndTimeTyping(t, w[1..], p);
      SpliceStep(s.dateInput, k, w);
    }
  }

  /**
   * The 19th character completes the timestamp: the six fields are handed to
   * the clock, the entry is confirmed and the console is back in command mode.
   */
  lemma DateAndTimeComplete(s: State, w: seq<char>, p: Peripherals)
    requires Inv(s) && s.mode == SETTING_DATE_AND_TIME && s.dateChars == 0
    requires |w| == DATE_AND_TIME_FORMAT_LENGTH && NoNul(w)
    ensures Run(s, w, p) ==
              s.(mode := COMMANDS, codeChars := 0, dateChars := DATE_AND_TIME_FORMAT_LENGTH,
                 dateInput := w + s.dateInput[DATE_AND_TIME_FORMAT_LENGTH..],
                 effects := s.effects + [DateAndTimeWrite(ParseDateTime(w)), Write(NewDateAndTimeSet)])
  {
    var n := DATE_AND_TIME_FORMAT_LENGTH - 1;
    var u := s.(dateInput := w[..n] + s.dateInput[n..], dateChars := n);
    assert Run(s, w[..n], p) == u by {
      DateAndTimeTyping(s, w[..n], p);
      assert s.dateInput[..0] + w[..n] + s.dateInput[0 + n..] == w[..n] + s.dateInput[n..];
    }
    assert Run(s, w, p) == Step(u, w[n], p) by {
      assert w == w[..n] + [w[n]];
      RunAppend(s, w[..n], [w[n]], p);
      assert Run(u, [w[n]], p) == Step(u, w[n], p);
    }
    var buf := u.dateInput[n := w[n]];
    DateAndTimeLastChar(u, w[n], p);
    SpliceLast(s.dateInput, w);
    ParseReadsPrefix(buf, w);
  }

  lemma DateAndTimeLastChar(s: State, c: char, p: Peripherals)
    requires Inv(s) && s.mode == SETTING_DATE_AND_TIME
    requires s.dateChars == DATE_AND_TIME_FORMAT_LENGTH - 1 && c != '\0'
    ensures var buf := s.dateInput[s.dateChars := c];
            Step(s, c, p) ==
              s.(mode := COMMANDS, codeChars := 0, dateChars := DATE_AND_TIME_FORMAT_LENGTH, dateInput := buf,
                 effects := s.effects + [DateAndTimeWrite(ParseDateTime(buf)), Write(NewDateAndTimeSet)])
  {
    DispatchByMode(s, c, p);
  }

  /**
   * 's' followed by 19 characters hands the six fields read at fixed offsets
   * to the clock once and returns to command mode, whatever the date and time
   * counter held before (it is left at 19 afterwards). No character is echoed.
   */
  lemma DateAndTimeEntry(s: State, w: seq<char>, p: Peripherals)
    requires Inv(s) && s.mode == COMMANDS
    requires |w| == DATE_AND_TIME_FORMAT_LENGTH && NoNul(w)
    ensures Run(s, ['s'] + w, p) ==
              s.(codeChars := 0, dateChars := DATE_AND_TIME_FORMAT_LENGTH,
                 dateInput := w + s.dateInput[DATE_AND_TIME_FORMAT_LENGTH..],
                 effects := s.effects + [Write(DateAndTimePrompt), DateAndTimeWrite(ParseDateTime(w)),
                                         Write(NewDateAndTimeSet)])
  {
    var t := SetDateAndTime(s);
    assert Step(s, 's', p) == t by {
      assert CommandUpdate(s, 's', p) == t;
    }
    assert (['s'] + w)[0] == 's' && (['s'] + w)[1..] == w;
    assert Run(s, ['s'] + w, p) == Run(t, w, p);
    DateAndTimeComplete(t, w, p);
  }

  /** Typing "s2024-01-02T03:04:05" sets the clock to 2024, 1, 2, 3, 4, 5. */
  lemma DateAndTimeExample(s: State, p: Peripherals)
    requires Inv(s) && s.mode == COMMANDS
    ensures Run(s, "s2024-01-02T03:04:05", p).effects ==
              s.effects + [Write(DateAndTimePrompt), DateAndTimeWrite(DateTime(2024, 1, 2, 3, 4, 5)),
                           Write(NewDateAndTimeSet)]
  {
    var w := "2024-01-02T03:04:05";
    assert "s2024-01-02T03:04:05" == ['s'] + w;
    DateAndTimeEntry(s, w, p);
    ParseExample();
  }

  /**
   * Two timestamps in a row are both read afresh: the counter left at 19 by
   * the first is reset by the second 's'.
   */
  lemma ConsecutiveTimestamps(s: State, w1: seq<char>, w2: seq<char>, p: Peripherals)
    requires Inv(s) && s.mode == COMMANDS
    requires |w1| == DATE_AND_TIME_FORMAT_LENGTH && NoNul(w1)
    requires |w2| == DATE_AND_TIME_FORMAT_LENGTH && NoNul(w2)
    ensures var r := Run(s, ['s'] + w1 + ['s'] + w2, p);
            r.mode == COMMANDS &&
            r.effects == s.effects +
              [Write(DateAndTimePrompt), DateAndTimeWrite(ParseDateTime(w1)), Write(NewDateAndTimeSet)] +
              [Write(DateAndTimePrompt), DateAndTimeWrite(ParseDateTime(w2)), Write(NewDateAndTimeSet)]
  {
    RunAppend(s, ['s'] + w1, ['s'] + w2, p);
    assert ['s'] + w1 + ['s'] + w2 == (['s'] + w1) + (['s'] + w2);
    DateAndTimeEntry(s, w1, p);
    DateAndTimeEntry(Run(s, ['s'] + w1, p), w2, p);
  }

  /**
   * The states reachable from start-up: the mode is in range, and the code
   * counter is 0 whenever no code is being entered.
   */
  predicate Settled(s: State) {
    Inv(s) && IsMode(s.mode) &&
    (s.mode == COMMANDS || s.mode == SETTING_DATE_AND_TIME ==> s.codeChars == 0)
  }

  lemma StepKeepsSettled(s: State, c: char, p: Peripherals)
    requires Settled(s)
    ensures Settled(Step(s, c, p))
  {
  }

  lemma {:induction false} RunKeepsSettled(s: State, w: seq<char>, p: Peripherals)
    requires Settled(s)
    ensures Settled(Run(s, w, p))
    decreases |w|
  {
    if w != [] {
      StepKeepsSettled(s, w[0], p);
      RunKeepsSettled(Step(s, w[0], p), w[1..], p);
    }
  }

  /** Every state reached from start-up is settled. */
  lemma Reachable(w: seq<char>, p: Peripherals)
    ensures Settled(Run(Initial(), w, p))
  {
    RunKeepsSettled(Initial(), w, p);
  }

  /**
   * On a reachable state, the code counter reset that completes a timestamp
   * changes nothing: the counter is already 0 in that mode.
   */
  lemma DateAndTimeCodeResetRedundant(s: State, c: char, p: Peripherals)
    requires Settled(s) && s.mode == SETTING_DATE_AND_TIME
    ensures Step(s, c, p).codeChars == s.codeChars
  {
  }
}
