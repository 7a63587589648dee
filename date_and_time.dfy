/**
 * The fixed-width date and time text typed on the serial console,
 * "YYYY-MM-DDThh:mm:ss", and how its six fields are read.
 */
module DateAndTime {
  import opened CAtoi

  /** Length of "YYYY-MM-DDThh:mm:ss". */
  const DATE_AND_TIME_FORMAT_LENGTH := 19

  /** The six integers handed to `dateAndTimeWrite`. */
  datatype DateTime = DateTime(year: int, month: int, day: int, hour: int, minute: int, second: int)

  /** Offsets of the '-', '-', 'T', ':' and ':' separators. */
  predicate IsSeparatorOffset(i: int) {
    i == 4 || i == 7 || i == 10 || i == 13 || i == 16
  }

  /**
   * Reads the first 19 characters of `buf` field by field at fixed offsets:
   * year [0,4), month [5,7), day [8,10), hour [11,13), minute [14,16),
   * second [17,19), each with `atoi`. Nothing is validated.
   *
   * The hour is the two characters at offsets 11 and 12. The C code copies
   * them into `hour[3]` but then terminates `day` a second time instead of
   * `hour`, so `hour[2]` is left uninitialised and `atoi(hour)` may read past
   * the two characters; `HourAsWritten` models that.
   */
  function ParseDateTime(buf: seq<char>): (dt: DateTime)
    requires |buf| >= DATE_AND_TIME_FORMAT_LENGTH
    ensures -1000 < dt.year < 10000
    ensures -10 < dt.month < 100 && -10 < dt.day < 100 && -10 < dt.hour < 100
    ensures -10 < dt.minute < 100 && -10 < dt.second < 100
  {
    FieldBounds(buf[0..4]);
    FieldBounds(buf[5..7]);
    FieldBounds(buf[8..10]);
    FieldBounds(buf[11..13]);
    FieldBounds(buf[14..16]);
    FieldBounds(buf[17..19]);
    DateTime(Atoi(buf[0..4]), Atoi(buf[5..7]), Atoi(buf[8..10]),
             Atoi(buf[11..13]), Atoi(buf[14..16]), Atoi(buf[17..19]))
  }

  lemma FieldBounds(t: seq<char>)
    requires |t| == 2 || |t| == 4
    ensures |t| == 2 ==> -10 < Atoi(t) < 100
    ensures |t| == 4 ==> -1000 < Atoi(t) < 10000
  {
    Pow10Small();
  }

  predicate InRange(dt: DateTime) {
    0 <= dt.year < 10000 && 0 <= dt.month < 100 && 0 <= dt.day < 100 &&
    0 <= dt.hour < 100 && 0 <= dt.minute < 100 && 0 <= dt.second < 100
  }

  /** Only the first 19 characters are read. */
  lemma ParseReadsPrefix(buf: seq<char>, w: seq<char>)
    requires |w| == DATE_AND_TIME_FORMAT_LENGTH && |buf| >= DATE_AND_TIME_FORMAT_LENGTH
    requires buf[..DATE_AND_TIME_FORMAT_LENGTH] == w
    ensures ParseDateTime(buf) == ParseDateTime(w)
  {
    assert buf[0..4] == w[0..4] && buf[5..7] == w[5..7] && buf[8..10] == w[8..10];
    assert buf[11..13] == w[11..13] && buf[14..16] == w[14..16] && buf[17..19] == w[17..19];
  }

  /** The text an operator types for `dt`, in the prompted format. */
  function Format(dt: DateTime): (s: seq<char>)
    requires InRange(dt)
    ensures |s| == DATE_AND_TIME_FORMAT_LENGTH
    ensures s[4] == '-' && s[7] == '-' && s[10] == 'T' && s[13] == ':' && s[16] == ':'
  {
    Digits(dt.year, 4) + ['-'] + Digits(dt.month, 2) + ['-'] + Digits(dt.day, 2) + ['T'] +
    Digits(dt.hour, 2) + [':'] + Digits(dt.minute, 2) + [':'] + Digits(dt.second, 2)
  }

  /** Parsing a well-formed timestamp gives back the fields it was written from. */
  lemma ParseFormat(dt: DateTime)
    requires InRange(dt)
    ensures ParseDateTime(Format(dt)) == dt
  {
    var s := Format(dt);
    assert s[0..4] == Digits(dt.year, 4);
    assert s[5..7] == Digits(dt.month, 2);
    assert s[8..10] == Digits(dt.day, 2);
    assert s[11..13] == Digits(dt.hour, 2);
    assert s[14..16] == Digits(dt.minute, 2);
    assert s[17..19] == Digits(dt.second, 2);
    AtoiOfDigits(dt.year, 4);
    AtoiOfDigits(dt.month, 2);
    AtoiOfDigits(dt.day, 2);
    AtoiOfDigits(dt.hour, 2);
    AtoiOfDigits(dt.minute, 2);
    AtoiOfDigits(dt.second, 2);
  }

  /**
   * The separator positions are never read: two inputs that agree on every
   * other one of the first 19 characters parse to the same date and time.
   */
  lemma SeparatorsIgnored(a: seq<char>, b: seq<char>)
    requires |a| >= DATE_AND_TIME_FORMAT_LENGTH && |b| >= DATE_AND_TIME_FORMAT_LENGTH
    requires forall i :: 0 <= i < DATE_AND_TIME_FORMAT_LENGTH && !IsSeparatorOffset(i) ==> a[i] == b[i]
    ensures ParseDateTime(a) == ParseDateTime(b)
  {
    assert a[0..4] == b[0..4];
    assert a[5..7] == b[5..7];
    assert a[8..10] == b[8..10];
    assert a[11..13] == b[11..13];
    assert a[14..16] == b[14..16];
    assert a[17..19] == b[17..19];
  }

  lemma ParseExampleFields(buf: seq<char>)
    requires |buf| >= DATE_AND_TIME_FORMAT_LENGTH
    requires buf[0..4] == ['2', '0', '2', '4'] && buf[5..7] == ['0', '1'] && buf[8..10] == ['0', '2']
    requires buf[11..13] == ['0', '3'] && buf[14..16] == ['0', '4'] && buf[17..19] == ['0', '5']
    ensures ParseDateTime(buf) == DateTime(2024, 1, 2, 3, 4, 5)
  {
    var dt := ParseDateTime(buf);
    assert dt.year == 2024 by { AtoiFourDigits(buf[0..4]); }
    assert dt.month == 1 by { AtoiTwoDigits(buf[5..7]); }
    assert dt.day == 2 by { AtoiTwoDigits(buf[8..10]); }
    assert dt.hour == 3 by { AtoiTwoDigits(buf[11..13]); }
    assert dt.minute == 4 by { AtoiTwoDigits(buf[14..16]); }
    assert dt.second == 5 by { AtoiTwoDigits(buf[17..19]); }
  }

  /** "2024-01-02T03:04:05" is read as 2024, 1, 2, 3, 4, 5. */
  lemma ParseExample()
    ensures ParseDateTime("2024-01-02T03:04:05") == DateTime(2024, 1, 2, 3, 4, 5)
  {
    var buf := "2024-01-02T03:04:05";
    assert buf[0..4] == ['2', '0', '2', '4'];
    assert buf[5..7] == ['0', '1'];
    assert buf[8..10] == ['0', '2'];
    assert buf[11..13] == ['0', '3'];
    assert buf[14..16] == ['0', '4'];
    assert buf[17..19] == ['0', '5'];
    ParseExampleFields(buf);
  }

  /**
   * The hour as the C code actually reads it: `atoi` over the two copied
   * characters followed by whatever `trailing` memory holds from `hour[2]` on,
   * since that byte is never set to the terminator.
   */
  function HourAsWritten(buf: seq<char>, trailing: seq<char>): (h: int)
    requires |buf| >= DATE_AND_TIME_FORMAT_LENGTH
    ensures h < Pow10(2 + |trailing|)
  {
    Atoi(buf[11..13] + trailing)
  }

  /**
   * The hour as written agrees with the intended two-character field exactly
   * when no digit follows the two hour digits in memory.
   */
  lemma HourAsWrittenAgrees(buf: seq<char>, trailing: seq<char>)
    requires |buf| >= DATE_AND_TIME_FORMAT_LENGTH
    requires AllDigits(buf[11..13]) && (trailing == [] || !IsDigit(trailing[0]))
    ensures HourAsWritten(buf, trailing) == ParseDateTime(buf).hour
  {
    var field := buf[11..13];
    AtoiLeadingDigits(field, trailing);
    AtoiLeadingDigits(field, []);
    assert field + [] == field;
  }

  /**
   * When the byte left in `hour[2]` happens to be a digit, the hour read is
   * wrong: "2024-01-02T03:04:05" with '7' there gives hour 37 instead of 3.
   */
  lemma UnterminatedHourMisread()
    ensures HourAsWritten("2024-01-02T03:04:05", "7") == 37
    ensures ParseDateTime("2024-01-02T03:04:05").hour == 3
  {
    var buf := "2024-01-02T03:04:05";
    assert buf[11..13] + "7" == ['0', '3', '7'];
    AtoiThreeDigits(['0', '3', '7']);
    ParseExample();
  }
}
