/**
 * The C library's `atoi`, which the date and time entry uses to turn each
 * fixed-width field into an integer: leading white space is skipped, an
 * optional sign is read, then decimal digits are accumulated up to the first
 * character that is not a digit. A string with no digits there gives 0.
 */
module CAtoi {

  /** `isspace` in the "C" locale. */
  predicate IsSpace(c: char) {
    c == ' ' || c == '\t' || c == '\n' || c == '\U{B}' || c == '\U{C}' || c == '\r'
  }

  predicate IsDigit(c: char) {
    '0' <= c <= '9'
  }

  predicate AllDigits(s: seq<char>) {
    forall i :: 0 <= i < |s| ==> IsDigit(s[i])
  }

  function DigitValue(c: char): (d: nat)
    requires IsDigit(c)
    ensures d < 10
  {
    c as int - '0' as int
  }

  function DigitChar(d: nat): (c: char)
    requires d < 10
    ensures IsDigit(c) && DigitValue(c) == d
  {
    ('0' as int + d) as char
  }

  function Pow10(n: nat): (r: nat)
    ensures r >= 1
  {
    if n == 0 then 1 else 10 * Pow10(n - 1)
  }

  lemma {:induction false} Pow10Monotone(m: nat, n: nat)
    requires m <= n
    ensures Pow10(m) <= Pow10(n)
  {
    if m < n {
      Pow10Monotone(m, n - 1);
    }
  }

  /** Drops the white space `atoi` skips before the number. */
  function SkipSpaces(s: seq<char>): (t: seq<char>)
    ensures |t| <= |s|
    ensures t == [] || !IsSpace(t[0])
  {
    if s != [] && IsSpace(s[0]) then SkipSpaces(s[1..]) else s
  }

  /**
   * Accumulates the leading digits of `s` onto `acc`, most significant first,
   * stopping at the first non-digit.
   */
  function Accumulate(s: seq<char>, acc: int): int
  {
    if s != [] && IsDigit(s[0]) then Accumulate(s[1..], acc * 10 + DigitValue(s[0])) else acc
  }

  lemma MulMonotone(a: int, b: int, c: nat)
    requires a <= b
    ensures a * c <= b * c
  {
  }

  lemma ScaleStep(acc: int, p: int)
    ensures (acc * 10 + 10) * p == (acc + 1) * (10 * p)
  {
  }

  lemma {:induction false} AccumulateBounds(s: seq<char>, acc: nat)
    ensures acc <= Accumulate(s, acc) < (acc + 1) * Pow10(|s|)
  {
    if s != [] && IsDigit(s[0]) {
      var d := DigitValue(s[0]);
      var p := Pow10(|s| - 1);
      assert Accumulate(s, acc) == Accumulate(s[1..], acc * 10 + d);
      AccumulateBounds(s[1..], acc * 10 + d);
      MulMonotone(acc * 10 + d + 1, acc * 10 + 10, p);
      ScaleStep(acc, p);
      assert Pow10(|s|) == 10 * p;
    } else {
      assert Accumulate(s, acc) == acc;
      MulMonotone(1, Pow10(|s|), acc + 1);
    }
  }

  /** The digits read from a string of at most `n` characters stay below 10^n. */
  lemma AccumulateBelow(t: seq<char>, n: nat)
    requires |t| <= n
    ensures 0 <= Accumulate(t, 0) < Pow10(n)
  {
    AccumulateBounds(t, 0);
    Pow10Monotone(|t|, n);
  }

  /** The integer `atoi(s)` returns, for a string short enough not to overflow. */
  function Atoi(s: seq<char>): (r: int)
    ensures r < Pow10(|s|)
    ensures |s| > 0 ==> -(Pow10(|s| - 1) as int) < r
    ensures s == [] || !(IsSpace(s[0]) || IsDigit(s[0]) || s[0] == '-' || s[0] == '+') ==> r == 0
  {
    var t := SkipSpaces(s);
    if t != [] && (t[0] == '-' || t[0] == '+') then
      AccumulateBelow(t[1..], |s| - 1);
      Pow10Monotone(|s| - 1, |s|);
      if t[0] == '-' then -Accumulate(t[1..], 0) else Accumulate(t[1..], 0)
    else
      AccumulateBelow(t, |s|);
      Accumulate(t, 0)
  }

  /**
   * Reference reading of a string of decimal digits, as a positional sum
   * (most significant digit first), independent of the accumulation `atoi` does.
   */
  function DecimalValue(s: seq<char>): nat
    requires AllDigits(s)
  {
    if s == [] then 0 else DigitValue(s[0]) * Pow10(|s| - 1) + DecimalValue(s[1..])
  }

  lemma Distribute(acc: int, x: int, p: int)
    ensures (acc * 10 + x) * p == acc * (10 * p) + x * p
  {
  }

  lemma {:induction false} AccumulateAppend(d: seq<char>, rest: seq<char>, acc: int)
    requires AllDigits(d)
    ensures Accumulate(d + rest, acc) == Accumulate(rest, acc * Pow10(|d|) + DecimalValue(d))
  {
    if d != [] {
      var x := DigitValue(d[0]);
      assert (d + rest)[1..] == d[1..] + rest;
      AccumulateAppend(d[1..], rest, acc * 10 + x);
      Distribute(acc, x, Pow10(|d| - 1));
      assert Pow10(|d|) == 10 * Pow10(|d| - 1);
    } else {
      assert d + rest == rest;
    }
  }

  predicate AllSpaces(s: seq<char>) {
    forall i :: 0 <= i < |s| ==> IsSpace(s[i])
  }

  lemma {:induction false} SkipSpacesPrefix(sp: seq<char>, t: seq<char>)
    requires AllSpaces(sp) && (t == [] || !IsSpace(t[0]))
    ensures SkipSpaces(sp + t) == t
  {
    if sp == [] {
      assert sp + t == t;
    } else {
      assert (sp + t)[0] == sp[0] && (sp + t)[1..] == sp[1..] + t;
      SkipSpacesPrefix(sp[1..], t);
    }
  }

  /** Accumulation stops at the first non-digit after a run of digits. */
  lemma AccumulateDigitsThenStop(d: seq<char>, rest: seq<char>)
    requires AllDigits(d)
    requires rest == [] || !IsDigit(rest[0])
    ensures Accumulate(d + rest, 0) == DecimalValue(d)
  {
    AccumulateAppend(d, rest, 0);
    assert 0 * Pow10(|d|) + DecimalValue(d) == DecimalValue(d);
    assert Accumulate(rest, DecimalValue(d)) == DecimalValue(d);
  }

  /**
   * The general reading: white space, then an optional sign, then a
   * non-empty run of digits ended by a non-digit. The value is the decimal
   * value of the digits, negated after '-'.
   */
  lemma AtoiSignedDigits(sp: seq<char>, sg: seq<char>, d: seq<char>, rest: seq<char>)
    requires AllSpaces(sp) && (sg == [] || sg == ['-'] || sg == ['+'])
    requires d != [] && AllDigits(d)
    requires rest == [] || !IsDigit(rest[0])
    ensures Atoi(sp + sg + d + rest) == if sg == ['-'] then -(DecimalValue(d) as int) else DecimalValue(d)
  {
    var t := sg + d + rest;
    assert sp + sg + d + rest == sp + t;
    assert t[0] == if sg == [] then d[0] else sg[0];
    SkipSpacesPrefix(sp, t);
    AccumulateDigitsThenStop(d, rest);
    if sg == [] {
      assert t == d + rest;
    } else {
      assert t[1..] == d + rest;
    }
  }

  /**
   * A field with no digit after the white space and the optional sign reads
   * as 0: only white space, a lone sign, or a sign or white space followed by
   * something other than a digit.
   */
  lemma AtoiNoDigits(sp: seq<char>, sg: seq<char>, rest: seq<char>)
    requires AllSpaces(sp) && (sg == [] || sg == ['-'] || sg == ['+'])
    requires rest == [] ||
             (!IsDigit(rest[0]) && (sg != [] || !(IsSpace(rest[0]) || rest[0] == '-' || rest[0] == '+')))
    ensures Atoi(sp + sg + rest) == 0
  {
    var t := sg + rest;
    assert sp + sg + rest == sp + t;
    SkipSpacesPrefix(sp, t);
    if sg != [] {
      assert t[1..] == rest;
    } else {
      assert t == rest;
    }
  }

  /**
   * `atoi` reads a non-empty run of digits up to the first non-digit and
   * returns its decimal value; whatever follows is ignored.
   */
  lemma AtoiLeadingDigits(d: seq<char>, rest: seq<char>)
    requires d != [] && AllDigits(d)
    requires rest == [] || !IsDigit(rest[0])
    ensures Atoi(d + rest) == DecimalValue(d)
  {
    AtoiSignedDigits([], [], d, rest);
    assert [] + [] + d + rest == d + rest;
  }

  /**
   * Writes `n` in `width` decimal digits, zero-padded on the left, as a
   * `%0*d` conversion does for a value that fits.
   */
  function Digits(n: nat, width: nat): (s: seq<char>)
    ensures |s| == width && AllDigits(s)
  {
    if width == 0 then []
    else [DigitChar(n / Pow10(width - 1) % 10)] + Digits(n % Pow10(width - 1), width - 1)
  }

  lemma QuotientBelowTen(n: nat, p: nat)
    requires 0 < p && n < 10 * p
    ensures n / p < 10 && n == (n / p) * p + n % p
  {
  }

  lemma {:induction false} DecimalValueOfDigits(n: nat, width: nat)
    requires n < Pow10(width)
    ensures DecimalValue(Digits(n, width)) == n
  {
    if width > 0 {
      var p := Pow10(width - 1);
      QuotientBelowTen(n, p);
      var q, m := n / p, n % p;
      assert q % 10 == q;
      assert m < p;
      DecimalValueOfDigits(m, width - 1);
      var s := Digits(n, width);
      assert s[0] == DigitChar(q) && s[1..] == Digits(m, width - 1);
      assert DecimalValue(s) == q * p + m;
    }
  }

  /** Reading back a zero-padded number gives the number. */
  lemma AtoiOfDigits(n: nat, width: nat)
    requires 0 < width && n < Pow10(width)
    ensures Atoi(Digits(n, width)) == n
  {
    DecimalValueOfDigits(n, width);
    assert Digits(n, width) + [] == Digits(n, width);
    AtoiLeadingDigits(Digits(n, width), []);
  }

  lemma Pow10Small()
    ensures Pow10(1) == 10 && Pow10(2) == 100 && Pow10(3) == 1000 && Pow10(4) == 10000
  {
  }

  /** A string starting with a digit is read by accumulation alone. */
  lemma AtoiStartingWithDigit(t: seq<char>)
    requires t != [] && IsDigit(t[0])
    ensures Atoi(t) == Accumulate(t, 0)
  {
    assert SkipSpaces(t) == t;
  }

  /** One more digit: the accumulator is shifted one decimal place. */
  lemma AccumulateAt(t: seq<char>, k: nat, acc: int)
    requires k < |t| && IsDigit(t[k])
    ensures Accumulate(t[k..], acc) == Accumulate(t[k + 1..], acc * 10 + DigitValue(t[k]))
  {
    assert t[k..][0] == t[k] && t[k..][1..] == t[k + 1..];
  }

  /** `atoi` of two digits. */
  lemma AtoiTwoDigits(t: seq<char>)
    requires |t| == 2 && AllDigits(t)
    ensures Atoi(t) == 10 * DigitValue(t[0]) + DigitValue(t[1])
  {
    AtoiStartingWithDigit(t);
    assert t[0..] == t;
    AccumulateAt(t, 0, 0);
    AccumulateAt(t, 1, DigitValue(t[0]));
    assert t[2..] == [];
  }

  /** `atoi` of three digits. */
  lemma AtoiThreeDigits(t: seq<char>)
    requires |t| == 3 && AllDigits(t)
    ensures Atoi(t) == 100 * DigitValue(t[0]) + 10 * DigitValue(t[1]) + DigitValue(t[2])
  {
    var x1 := DigitValue(t[0]);
    var x2 := x1 * 10 + DigitValue(t[1]);
    AtoiStartingWithDigit(t);
    assert t[0..] == t;
    AccumulateAt(t, 0, 0);
    AccumulateAt(t, 1, x1);
    AccumulateAt(t, 2, x2);
    assert t[3..] == [];
  }

  /** `atoi` of four digits. */
  lemma AtoiFourDigits(t: seq<char>)
    requires |t| == 4 && AllDigits(t)
    ensures Atoi(t) == 1000 * DigitValue(t[0]) + 100 * DigitValue(t[1]) + 10 * DigitValue(t[2]) + DigitValue(t[3])
  {
    var x1 := DigitValue(t[0]);
    var x2 := x1 * 10 + DigitValue(t[1]);
    var x3 := x2 * 10 + DigitValue(t[2]);
    AtoiStartingWithDigit(t);
    assert t[0..] == t;
    AccumulateAt(t, 0, 0);
    AccumulateAt(t, 1, x1);
    AccumulateAt(t, 2, x2);
    AccumulateAt(t, 3, x3);
    assert t[4..] == [];
  }
}
